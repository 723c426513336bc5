/** When each verdict of the privilege check is given (queryplan/session.go, queryplan/grants.go). */
module GrantVerdicts {
  import opened Wrappers
  import opened Identifiers
  import opened Grants

  // ---------------------------------------------------------------- what is legible

  /** One to 256 rows, each of which can be read. */
  ghost predicate Legible(parse: LineParser, lines: seq<string>) {
    1 <= |lines| <= 256 && forall i :: 0 <= i < |lines| ==> parse(lines[i]).Some?
  }

  lemma {:induction false} LinesIff(parse: LineParser, lines: seq<string>)
    ensures ParseLines(parse, lines).Some? <==> forall i :: 0 <= i < |lines| ==> parse(lines[i]).Some?
    ensures ParseLines(parse, lines).Some? ==>
              |ParseLines(parse, lines).value| == |lines| && forall i :: 0 <= i < |lines| ==> ParseLines(parse, lines).value[i] == parse(lines[i]).value
  {
    if lines != [] {
      var front := lines[..|lines| - 1];
      LinesIff(parse, front);
      assert forall i :: 0 <= i < |front| ==> front[i] == lines[i];
    }
  }

  /** An answer is used exactly if it is legible, and then row by row. */
  lemma ParseGrantsIff(parse: LineParser, lines: seq<string>)
    ensures ParseGrants(parse, lines).Some? <==> Legible(parse, lines)
    ensures Legible(parse, lines) ==>
              |ParseGrants(parse, lines).value| == |lines| && forall i :: 0 <= i < |lines| ==> ParseGrants(parse, lines).value[i] == parse(lines[i]).value
  {
    LinesIff(parse, lines);
    hide ParseLines;
  }

  /** The active roles are known if CURRENT_ROLE() answered NONE or a legible list. */
  lemma ActiveRolesIff(current: Option<string>)
    ensures ActiveRoles(current).Some? <==> current.Some? && (current.value == "NONE" || ParseAccountList(current.value).Some?)
    ensures current == Some("NONE") ==> ActiveRoles(current) == Some([])
    ensures current.Some? && current.value != "NONE" ==> ActiveRoles(current) == ParseAccountList(current.value)
  {
    hide ParseAccountList;
  }

  // ---------------------------------------------------------------- the queries of an expansion

  ghost predicate Answered(parse: LineParser, server: Server, round: nat, using: seq<Account>) {
    server(round, using).Some? && Legible(parse, server(round, using).value)
  }

  /** The roles named by some row of the answer. */
  ghost predicate Named(parse: LineParser, lines: seq<string>, r: Account) {
    exists i :: 0 <= i < |lines| && parse(lines[i]).Some? && r in parse(lines[i]).value.roles
  }

  /** The list of the next query: the same roles, then every role that was named and is new. */
  ghost predicate Follows(parse: LineParser, lines: seq<string>, using: seq<Account>, next: seq<Account>) {
    && using <= next && NoDuplicates(next)
    && forall r :: r in next <==> r in using || Named(parse, lines, r)
  }

  /** The lists queried so far, each answered and followed by a longer one. */
  ghost predicate Queries(parse: LineParser, server: Server, lists: seq<seq<Account>>, round: nat) {
    && lists != [] && NoDuplicates(lists[0])
    && forall j :: 0 <= j < |lists| - 1 ==>
         && Answered(parse, server, round + j, lists[j])
         && Follows(parse, server(round + j, lists[j]).value, lists[j], lists[j + 1])
         && |lists[j + 1]| > |lists[j]|
  }

  lemma {:induction false} MergePrefix(out: seq<Account>, more: seq<Account>)
    ensures out <= Merge(out, more)
    decreases |more|
  {
    if more != [] {
      MergePrefix(if more[0] in out then out else out + [more[0]], more[1..]);
    }
  }

  lemma NamedRoles(parse: LineParser, lines: seq<string>, r: Account)
    requires Legible(parse, lines)
    ensures ParseGrants(parse, lines).Some? && (r in RolesOf(ParseGrants(parse, lines).value) <==> Named(parse, lines, r))
  {
    ParseGrantsIff(parse, lines);
    var gs := ParseGrants(parse, lines).value;
    hide ParseGrants, RolesOf;
    RolesOfMembers(gs, r);
    if Named(parse, lines, r) {
      var i :| 0 <= i < |lines| && parse(lines[i]).Some? && r in parse(lines[i]).value.roles;
      assert r in gs[i].roles;
    }
    if r in RolesOf(gs) {
      var i :| 0 <= i < |gs| && r in gs[i].roles;
      assert r in parse(lines[i]).value.roles;
    }
  }

  lemma MergeFollows(parse: LineParser, lines: seq<string>, using: seq<Account>)
    requires Legible(parse, lines) && NoDuplicates(using)
    ensures ParseGrants(parse, lines).Some?
    ensures Follows(parse, lines, using, Merge(using, RolesOf(ParseGrants(parse, lines).value)))
  {
    ParseGrantsIff(parse, lines);
    var named := RolesOf(ParseGrants(parse, lines).value);
    var next := Merge(using, named);
    hide ParseGrants, RolesOf, Merge, NoDuplicates, Legible, Named;
    MergePrefix(using, named);
    MergeNoDuplicates(using, named);
    forall r ensures r in next <==> r in using || Named(parse, lines, r) {
      MergeMembers(using, named, r);
      NamedRoles(parse, lines, r);
    }
  }

  /** How an expansion ends: with a query that is not answered, with four answers each of which
      named a new role, or with an answer that named none. */
  ghost predicate Fails(parse: LineParser, server: Server, lists: seq<seq<Account>>, round: nat) {
    && Queries(parse, server, lists, round)
    && round + |lists| - 1 <= 4
    && (round + |lists| - 1 == 4 || !Answered(parse, server, round + |lists| - 1, lists[|lists| - 1]))
  }

  ghost predicate Closes(parse: LineParser, server: Server, lists: seq<seq<Account>>, round: nat) {
    && Queries(parse, server, lists, round)
    && round + |lists| - 1 < 4
    && var last := lists[|lists| - 1];
       && Answered(parse, server, round + |lists| - 1, last)
       && forall r :: Named(parse, server(round + |lists| - 1, last).value, r) ==> r in last
  }

  lemma QueriesCons(parse: LineParser, server: Server, using: seq<Account>, lists: seq<seq<Account>>, round: nat)
    requires Queries(parse, server, lists, round + 1) && NoDuplicates(using)
    requires Answered(parse, server, round, using) && Follows(parse, server(round, using).value, using, lists[0]) && |lists[0]| > |using|
    ensures Queries(parse, server, [using] + lists, round)
  {
    hide Legible, Follows, NoDuplicates;
    var all := [using] + lists;
    forall j | 0 <= j < |all| - 1
      ensures Answered(parse, server, round + j, all[j]) && Follows(parse, server(round + j, all[j]).value, all[j], all[j + 1])
      ensures |all[j + 1]| > |all[j]|
    {
      if j > 0 {
        assert all[j] == lists[j - 1] && all[j + 1] == lists[j];
        assert Answered(parse, server, round + 1 + (j - 1), lists[j - 1]);
      }
    }
  }

  lemma QueriesOne(parse: LineParser, server: Server, using: seq<Account>, round: nat)
    requires NoDuplicates(using)
    ensures Queries(parse, server, [using], round)
  {
    hide Answered, Follows, NoDuplicates;
  }

  lemma ExpandOne(parse: LineParser, server: Server, using: seq<Account>, round: nat, grants: seq<GrantLine>)
    requires round < 4 && NoDuplicates(using)
    ensures !Answered(parse, server, round, using) ==> Expand(parse, server, using, round, grants).None?
    ensures Answered(parse, server, round, using) ==>
              var lines := server(round, using).value;
              && ParseGrants(parse, lines).Some?
              && var parsed := ParseGrants(parse, lines).value;
                 var next := Merge(using, RolesOf(parsed));
                 && Follows(parse, lines, using, next)
                 && Expand(parse, server, using, round, grants) ==
                      if |next| == |using| then Some(grants + parsed) else Expand(parse, server, next, round + 1, grants + parsed)
  {
    if server(round, using).Some? {
      ParseGrantsIff(parse, server(round, using).value);
      if Legible(parse, server(round, using).value) { MergeFollows(parse, server(round, using).value, using); }
    }
    hide ParseGrants, RolesOf, Merge, Legible, Follows;
  }

  lemma FollowsSame(parse: LineParser, lines: seq<string>, using: seq<Account>, next: seq<Account>)
    requires Follows(parse, lines, using, next)
    ensures |next| >= |using|
    ensures |next| == |using| ==> next == using && forall r :: Named(parse, lines, r) ==> r in using
  {
    hide Named;
  }

  lemma LastOfCons(using: seq<Account>, lists: seq<seq<Account>>)
    requires lists != []
    ensures var all := [using] + lists; |all| == |lists| + 1 && all[|all| - 1] == lists[|lists| - 1] && all[0] == using
  {
  }

  lemma FailsCons(parse: LineParser, server: Server, using: seq<Account>, lists: seq<seq<Account>>, round: nat)
    requires Queries(parse, server, [using] + lists, round) && lists != []
    ensures Fails(parse, server, lists, round + 1) ==> Fails(parse, server, [using] + lists, round)
    ensures Closes(parse, server, lists, round + 1) ==> Closes(parse, server, [using] + lists, round)
  {
    LastOfCons(using, lists);
    hide Queries, Answered, Named;
  }

  /** The expansion fails or succeeds as its queries end. */
  lemma {:induction false} ExpandEnds(parse: LineParser, server: Server, using: seq<Account>, round: nat, grants: seq<GrantLine>)
    returns (lists: seq<seq<Account>>)
    requires round <= 4 && NoDuplicates(using)
    ensures lists != [] && lists[0] == using
    ensures if Expand(parse, server, using, round, grants).Some? then Closes(parse, server, lists, round) else Fails(parse, server, lists, round)
    decreases 4 - round
  {
    QueriesOne(parse, server, using, round);
    lists := [using];
    if round < 4 {
      hide Queries, Answered, Named, Follows, Expand, NoDuplicates, Fails, Closes;
      ExpandOne(parse, server, using, round, grants);
      if !Answered(parse, server, round, using) {
        OneFails(parse, server, using, round);
      } else {
        var lines := server(round, using).value;
        var parsed := ParseGrants(parse, lines).value;
        var next := Merge(using, RolesOf(parsed));
        FollowsSame(parse, lines, using, next);
        if |next| == |using| {
          OneCloses(parse, server, using, round);
        } else {
          FollowsDistinct(parse, lines, using, next);
          var rest := ExpandEnds(parse, server, next, round + 1, grants + parsed);
          EndsQuery(parse, server, rest, round + 1);
          QueriesCons(parse, server, using, rest, round);
          FailsCons(parse, server, using, rest, round);
          lists := [using] + rest;
        }
      }
    } else {
      ExpandTooLate(parse, server, using, grants);
    }
  }

  lemma ExpandTooLate(parse: LineParser, server: Server, using: seq<Account>, grants: seq<GrantLine>)
    ensures Expand(parse, server, using, 4, grants).None?
  {
  }

  lemma OneFails(parse: LineParser, server: Server, using: seq<Account>, round: nat)
    requires round < 4 && Queries(parse, server, [using], round) && !Answered(parse, server, round, using)
    ensures Fails(parse, server, [using], round)
  {
    hide Queries, Answered;
  }

  lemma OneCloses(parse: LineParser, server: Server, using: seq<Account>, round: nat)
    requires round < 4 && Queries(parse, server, [using], round) && Answered(parse, server, round, using)
    requires forall r :: Named(parse, server(round, using).value, r) ==> r in using
    ensures Closes(parse, server, [using], round)
  {
    hide Queries, Answered, Named;
  }

  lemma FollowsDistinct(parse: LineParser, lines: seq<string>, using: seq<Account>, next: seq<Account>)
    requires Follows(parse, lines, using, next)
    ensures NoDuplicates(next)
  {
    hide Named, NoDuplicates;
  }

  lemma EndsQuery(parse: LineParser, server: Server, lists: seq<seq<Account>>, round: nat)
    requires Fails(parse, server, lists, round) || Closes(parse, server, lists, round)
    ensures Queries(parse, server, lists, round)
  {
    hide Queries, Answered, Named;
  }

  // ---------------------------------------------------------------- the verdicts

  /** What the queries of this verification show. */
  lemma VerdictParts(parse: LineParser, server: Server, current: Option<string>, own: Option<seq<string>>, schema: string)
    ensures var v := Verify(parse, server, current, own, schema);
            && (v == RolesActive <==> ActiveRoles(current).None?)
            && (ActiveRoles(current).Some? && (own.None? || ParseGrants(parse, own.value).None?) ==> v == Unverifiable)
            && (ActiveRoles(current).Some? && own.Some? && ParseGrants(parse, own.value).Some? ==>
                 var grants := ParseGrants(parse, own.value).value;
                 var roles := AskedRoles(grants, ActiveRoles(current).value);
                 if roles == [] then v == (if Allowed(grants, schema) then Verified else TooBroad)
                 else
                   var expanded := Expand(parse, server, roles, 0, []);
                   if expanded.None? then v == Unverifiable
                   else v == (if Allowed(grants + expanded.value, schema) then Verified else TooBroad))
  {
    hide ActiveRoles, ParseGrants, AskedRoles, Expand, Allowed;
  }

  lemma AskedDistinct(grants: seq<GrantLine>, active: seq<Account>)
    ensures NoDuplicates(AskedRoles(grants, active))
    ensures forall r :: r in AskedRoles(grants, active) <==> r in RolesOf(grants) || r in active
  {
    MergeNoDuplicates([], RolesOf(grants));
    MergeNoDuplicates(Merge([], RolesOf(grants)), active);
    forall r ensures r in AskedRoles(grants, active) <==> r in RolesOf(grants) || r in active {
      MergeMembers([], RolesOf(grants), r);
      MergeMembers(Merge([], RolesOf(grants)), active, r);
    }
  }

  /** The roles are active when CURRENT_ROLE() cannot be read.  Otherwise the account is
      unverifiable exactly if its own rows are not legible, or it has roles and the queries about
      them end in one that is not answered legibly or in four answers with new roles. */
  lemma UnverifiableIff(parse: LineParser, server: Server, current: Option<string>, own: Option<seq<string>>, schema: string)
    returns (lists: seq<seq<Account>>)
    ensures var v := Verify(parse, server, current, own, schema);
            var legibleRoles := current.Some? && (current.value == "NONE" || ParseAccountList(current.value).Some?);
            && (v == RolesActive <==> !legibleRoles)
            && (legibleRoles && !(own.Some? && Legible(parse, own.value)) ==> v == Unverifiable)
            && (legibleRoles && own.Some? && Legible(parse, own.value) ==>
                 && lists != []
                 && (forall r :: r in lists[0] <==> Named(parse, own.value, r) || r in ActiveRoles(current).value)
                 && (v == Unverifiable <==> lists[0] != [] && Fails(parse, server, lists, 0))
                 && (v == Verified || v == TooBroad <==> lists[0] == [] || Closes(parse, server, lists, 0)))
  {
    ActiveRolesIff(current);
    VerdictParts(parse, server, current, own, schema);
    lists := [[]];
    hide Verify, ActiveRoles, ParseGrants, AskedRoles, Expand, Allowed, Legible, ParseAccountList, Fails, Closes, Named, RolesOf;
    if own.Some? { ParseGrantsIff(parse, own.value); }
    if ActiveRoles(current).Some? && own.Some? && Legible(parse, own.value) {
      var grants := ParseGrants(parse, own.value).value;
      var roles := AskedRoles(grants, ActiveRoles(current).value);
      AskedDistinct(grants, ActiveRoles(current).value);
      forall r ensures r in RolesOf(grants) <==> Named(parse, own.value, r) { NamedRoles(parse, own.value, r); }
      lists := ExpandEnds(parse, server, roles, 0, []);
      NotBoth(parse, server, lists, 0);
    }
  }

  lemma NotBoth(parse: LineParser, server: Server, lists: seq<seq<Account>>, round: nat)
    ensures !(Fails(parse, server, lists, round) && Closes(parse, server, lists, round))
  {
    hide Queries, Answered, Named;
  }

  /** Any row that was read and is not permitted makes an account that is not unverifiable too
      broad: for example SELECT in a database that is neither the measured schema nor
      performance_schema. */
  lemma ForbiddenRowIsTooBroad(parse: LineParser, server: Server, current: Option<string>, lines: seq<string>, schema: string, i: nat)
    requires i < |lines| && Legible(parse, lines) && ActiveRoles(current).Some? && !Permitted(parse(lines[i]).value, schema)
    ensures Verify(parse, server, current, Some(lines), schema) in {TooBroad, Unverifiable}
    ensures ParseGrants(parse, lines).Some?
    ensures AskedRoles(ParseGrants(parse, lines).value, ActiveRoles(current).value) == [] ==>
              Verify(parse, server, current, Some(lines), schema) == TooBroad
  {
    VerdictParts(parse, server, current, Some(lines), schema);
    ParseGrantsIff(parse, lines);
    AllowedIff(parse(lines[i]).value, schema);
    var grants := ParseGrants(parse, lines).value;
    var roles := AskedRoles(grants, ActiveRoles(current).value);
    assert grants[i] == parse(lines[i]).value;
    assert !Allowed(grants, schema);
    if roles != [] && Expand(parse, server, roles, 0, []).Some? {
      assert (grants + Expand(parse, server, roles, 0, []).value)[i] == grants[i];
      assert !Allowed(grants + Expand(parse, server, roles, 0, []).value, schema);
    }
    hide Verify, ActiveRoles, ParseGrants, AskedRoles, Expand, GrantAllowed, Permitted, Legible;
  }

  lemma ForeignSelect(g: GrantLine, schema: string)
    requires g.roles == [] && "SELECT" in g.privs && !SameName(g.obj.db, schema) && !SameName(g.obj.db, "performance_schema")
    ensures !Permitted(g, schema)
  {
    var i :| 0 <= i < |g.privs| && g.privs[i] == "SELECT";
    assert "SELECT" != "USAGE" && "SELECT" != "UPDATE";
    hide SameName;
  }

  /** With exact answers: roles active, if CURRENT_ROLE() is not legible; otherwise unverifiable, if
      some role is more than three memberships away; otherwise too broad, if something the account
      or a reachable role holds is not permitted; and otherwise verified. */
  lemma VerdictIff(parse: LineParser, server: Server, w: World, current: Option<string>, lines: seq<string>, schema: string)
    requires AnswersExactly(parse, server, w, current, lines)
    ensures var v := Verify(parse, server, current, Some(lines), schema);
            && (v == RolesActive <==> ActiveRoles(current).None?)
            && (ActiveRoles(current).Some? ==>
                 var start := w.ownRoles + SetOf(ActiveRoles(current).value);
                 var harmless := (forall g :: g in w.own ==> Permitted(g, schema))
                                 && (forall r, g :: Reachable(w, start, r) && g in w.direct(r) ==> Permitted(g, schema));
                 && (v == Unverifiable <==> !Within(w, start, 3))
                 && (v == TooBroad <==> Within(w, start, 3) && !harmless)
                 && (v == Verified <==> Within(w, start, 3) && harmless))
  {
    ExactParts(parse, server, w, current, lines);
    VerdictParts(parse, server, current, Some(lines), schema);
    VerifiedIff(parse, server, w, current, lines, schema);
    Distance();
    hide *;
    if ActiveRoles(current).Some? {
      var active := ActiveRoles(current).value;
      var roles := AskedRoles(ParseGrants(parse, lines).value, active);
      StartRoles(parse, w, lines, active);
      ClosesIff(parse, server, w, roles, w.ownRoles + SetOf(active));
    }
  }

  lemma Distance()
    ensures MAX_ROLE_DISTANCE == 3
  {
  }
}
