/** Privilege verification of the EXPLAIN account (queryplan/session.go, queryplan/grants.go).

    The server is an arbitrary function of the round and of the USING list it is sent, and the
    reading of one SHOW GRANTS row is an arbitrary partial function, so the theorems hold for
    every grant text.  `GrantLines` gives the reading the source uses.
 */
module Grants {
  import opened Wrappers
  import opened Identifiers

  const MAX_GRANT_LINES := 256
  const MAX_ROLE_EXPANSIONS := 4
  const MAX_ROLE_DISTANCE: nat := 3
  const PERFORMANCE_SCHEMA := "performance_schema"
  const THREADS_TABLE := "threads"
  const ROLE_NONE := "NONE"

  datatype ObjectRef = ObjectRef(db: string, table: string, routine: bool)

  datatype GrantLine = GrantLine(roles: seq<Account>, privs: seq<string>, obj: ObjectRef, grantOption: bool)

  datatype Verdict = Verified | RolesActive | Unverifiable | TooBroad

  type LineParser = string -> Option<GrantLine>

  /** What the server answers to the USING query of each round; None is a failed query. */
  type Server = (nat, seq<Account>) -> Option<seq<string>>

  // ---------------------------------------------------------------- the allowlist

  function Lower(c: char): char {
    if 'A' <= c <= 'Z' then (c as int + 32) as char else c
  }

  predicate EqualFold(a: string, b: string) {
    |a| == |b| && forall i :: 0 <= i < |a| ==> Lower(a[i]) == Lower(b[i])
  }

  predicate MatchesDB(obj: ObjectRef, db: string) {
    obj.db != "*" && '%' !in obj.db && EqualFold(obj.db, db)
  }

  predicate PrivAllowed(priv: string, obj: ObjectRef, schema: string) {
    if priv == "USAGE" then true
    else if priv == "SELECT" then MatchesDB(obj, schema) || MatchesDB(obj, PERFORMANCE_SCHEMA)
    else if priv == "UPDATE" then MatchesDB(obj, PERFORMANCE_SCHEMA) && EqualFold(obj.table, THREADS_TABLE)
    else false
  }

  predicate GrantAllowed(g: GrantLine, schema: string) {
    if |g.roles| > 0 then true
    else if g.grantOption || g.obj.routine then false
    else forall i :: 0 <= i < |g.privs| ==> PrivAllowed(g.privs[i], g.obj, schema)
  }

  predicate Allowed(grants: seq<GrantLine>, schema: string) {
    forall i :: 0 <= i < |grants| ==> GrantAllowed(grants[i], schema)
  }

  /** One character, or the two cases of one ASCII letter. */
  predicate SameLetter(c: char, d: char) {
    c == d || ('A' <= c <= 'Z' && d as int == c as int + 32) || ('A' <= d <= 'Z' && c as int == d as int + 32)
  }

  predicate SameName(a: string, b: string) {
    |a| == |b| && forall i :: 0 <= i < |a| ==> SameLetter(a[i], b[i])
  }

  /** Folding compares names letter by letter. */
  lemma EqualFoldIff(a: string, b: string)
    ensures EqualFold(a, b) <==> SameName(a, b)
  {
    if |a| == |b| {
      forall i | 0 <= i < |a| ensures Lower(a[i]) == Lower(b[i]) <==> SameLetter(a[i], b[i]) {
        LowerIff(a[i], b[i]);
      }
      hide Lower, SameLetter;
    }
  }

  lemma LowerIff(c: char, d: char)
    ensures Lower(c) == Lower(d) <==> SameLetter(c, d)
  {
  }

  /** The object is in the database of this name, and named without a wildcard. */
  predicate InDatabase(obj: ObjectRef, name: string) {
    obj.db != "*" && '%' !in obj.db && SameName(obj.db, name)
  }

  /** The allowlist in full: USAGE anywhere; SELECT in the measured schema and in
      performance_schema; UPDATE on performance_schema.threads; nothing on routines, nothing that
      can be handed on; and memberships, whose grants are judged on their own. */
  ghost predicate Permitted(g: GrantLine, schema: string) {
    || g.roles != []
    || (&& !g.grantOption && !g.obj.routine
        && forall i :: 0 <= i < |g.privs| ==>
             || g.privs[i] == "USAGE"
             || (g.privs[i] == "SELECT" && (InDatabase(g.obj, schema) || InDatabase(g.obj, "performance_schema")))
             || (g.privs[i] == "UPDATE" && InDatabase(g.obj, "performance_schema") && SameName(g.obj.table, "threads")))
  }

  lemma PrivilegeIff(priv: string, obj: ObjectRef, schema: string)
    ensures PrivAllowed(priv, obj, schema) <==>
            || priv == "USAGE"
            || (priv == "SELECT" && (InDatabase(obj, schema) || InDatabase(obj, "performance_schema")))
            || (priv == "UPDATE" && InDatabase(obj, "performance_schema") && SameName(obj.table, "threads"))
  {
    EqualFoldIff(obj.db, schema);
    EqualFoldIff(obj.db, PERFORMANCE_SCHEMA);
    EqualFoldIff(obj.table, THREADS_TABLE);
    hide EqualFold, SameName;
  }

  /** The check lets a row pass if and only if the allowlist permits it. */
  lemma AllowedIff(g: GrantLine, schema: string)
    ensures GrantAllowed(g, schema) <==> Permitted(g, schema)
  {
    forall i | 0 <= i < |g.privs|
      ensures PrivAllowed(g.privs[i], g.obj, schema) <==>
              || g.privs[i] == "USAGE"
              || (g.privs[i] == "SELECT" && (InDatabase(g.obj, schema) || InDatabase(g.obj, "performance_schema")))
              || (g.privs[i] == "UPDATE" && InDatabase(g.obj, "performance_schema") && SameName(g.obj.table, "threads"))
    {
      PrivilegeIff(g.privs[i], g.obj, schema);
    }
    hide PrivAllowed, InDatabase, SameName;
  }

  // ---------------------------------------------------------------- parsing and merging

  function RolesOf(grants: seq<GrantLine>): seq<Account> {
    if grants == [] then [] else RolesOf(grants[..|grants| - 1]) + grants[|grants| - 1].roles
  }

  function ParseLines(parse: LineParser, lines: seq<string>): Option<seq<GrantLine>> {
    if lines == [] then Some([])
    else
      var front := ParseLines(parse, lines[..|lines| - 1]);
      var last := parse(lines[|lines| - 1]);
      if front.None? || last.None? then None else Some(front.value + [last.value])
  }

  /** An empty answer is not an account without privileges: it is no answer. */
  function ParseGrants(parse: LineParser, lines: seq<string>): Option<seq<GrantLine>> {
    if lines == [] || |lines| > MAX_GRANT_LINES then None else ParseLines(parse, lines)
  }

  /** Appends the accounts not seen before. */
  function Merge(out: seq<Account>, more: seq<Account>): seq<Account>
    decreases |more|
  {
    if more == [] then out
    else Merge(if more[0] in out then out else out + [more[0]], more[1..])
  }

  predicate NoDuplicates(s: seq<Account>) {
    forall i, j :: 0 <= i < j < |s| ==> s[i] != s[j]
  }

  lemma {:induction false} MergeMembers(out: seq<Account>, more: seq<Account>, a: Account)
    ensures a in Merge(out, more) <==> a in out || a in more
    decreases |more|
  {
    if more != [] {
      MergeMembers(if more[0] in out then out else out + [more[0]], more[1..], a);
      assert more == [more[0]] + more[1..];
    }
  }

  lemma {:induction false} MergeNoDuplicates(out: seq<Account>, more: seq<Account>)
    requires NoDuplicates(out)
    ensures NoDuplicates(Merge(out, more)) && |Merge(out, more)| >= |out|
    ensures |Merge(out, more)| == |out| <==> forall a :: a in more ==> a in out
    decreases |more|
  {
    if more != [] {
      MergeNoDuplicates(if more[0] in out then out else out + [more[0]], more[1..]);
      assert more == [more[0]] + more[1..];
    }
  }

  lemma {:induction false} RolesOfMembers(grants: seq<GrantLine>, a: Account)
    ensures a in RolesOf(grants) <==> exists i :: 0 <= i < |grants| && a in grants[i].roles
  {
    if grants != [] {
      var n := |grants| - 1;
      RolesOfMembers(grants[..n], a);
      if a in RolesOf(grants[..n]) {
        var i :| 0 <= i < n && a in grants[..n][i].roles;
        assert a in grants[i].roles;
      }
    }
  }

  // ---------------------------------------------------------------- the verdict

  function Expand(parse: LineParser, server: Server, using: seq<Account>, round: nat, grants: seq<GrantLine>): Option<seq<GrantLine>>
    decreases MAX_ROLE_EXPANSIONS - round
  {
    if round >= MAX_ROLE_EXPANSIONS then None
    else
      var answer := server(round, using);
      if answer.None? then None
      else
        var parsed := ParseGrants(parse, answer.value);
        if parsed.None? then None
        else
          var next := Merge(using, RolesOf(parsed.value));
          if |next| == |using| then Some(grants + parsed.value)
          else Expand(parse, server, next, round + 1, grants + parsed.value)
  }

  /** What CURRENT_ROLE() says is active; only the literal NONE means no role. */
  function ActiveRoles(current: Option<string>): Option<seq<Account>> {
    if current.None? then None
    else if current.value == ROLE_NONE then Some([])
    else ParseAccountList(current.value)
  }

  /** The roles whose grants the verification asks for: those granted and those active. */
  function AskedRoles(grants: seq<GrantLine>, active: seq<Account>): seq<Account> {
    Merge(Merge([], RolesOf(grants)), active)
  }

  function Verify(parse: LineParser, server: Server, current: Option<string>, own: Option<seq<string>>, schema: string): Verdict {
    var active := ActiveRoles(current);
    if active.None? then RolesActive
    else if own.None? then Unverifiable
    else
      var grants := ParseGrants(parse, own.value);
      if grants.None? then Unverifiable
      else
        var roles := AskedRoles(grants.value, active.value);
        if roles == [] then (if Allowed(grants.value, schema) then Verified else TooBroad)
        else
          var expanded := Expand(parse, server, roles, 0, []);
          if expanded.None? then Unverifiable
          else if Allowed(grants.value + expanded.value, schema) then Verified
          else TooBroad
  }

  // ---------------------------------------------------------------- what the account really holds

  /** The account's own grants, the roles granted to it, and for each role its direct grants and
      the roles granted to it. */
  datatype World = World(
    own: set<GrantLine>,
    ownRoles: set<Account>,
    direct: Account -> set<GrantLine>,
    members: Account -> set<Account>)

  /** A chain of roles, each granted to the one before it. */
  ghost predicate Chain(w: World, path: seq<Account>) {
    path != [] && forall i :: 0 <= i < |path| - 1 ==> path[i + 1] in w.members(path[i])
  }

  ghost predicate Reachable(w: World, start: set<Account>, r: Account) {
    exists path :: Chain(w, path) && path[0] in start && path[|path| - 1] == r
  }

  function SetOf(s: seq<Account>): set<Account> {
    set i | 0 <= i < |s| :: s[i]
  }

  /** The answer to a USING query lists at least the direct grants and memberships of every role
      in the list. */
  ghost predicate ListsRoles(parse: LineParser, w: World, using: seq<Account>, lines: seq<string>) {
    ParseGrants(parse, lines).Some? ==> forall r :: r in using ==> Covers(w, r, ParseGrants(parse, lines).value)
  }

  /** All direct grants and memberships of the role are among these. */
  ghost predicate Covers(w: World, r: Account, grants: seq<GrantLine>) {
    && (forall g :: g in w.direct(r) ==> g in grants)
    && (forall m :: m in w.members(r) ==> m in RolesOf(grants))
  }

  ghost predicate Honest(parse: LineParser, server: Server, w: World) {
    forall round, using :: server(round, using).Some? ==> ListsRoles(parse, w, using, server(round, using).value)
  }

  /** The same, asked only of the lists that an expansion starting at this one queries. */
  ghost predicate HonestFrom(parse: LineParser, server: Server, w: World, using: seq<Account>, round: nat)
    decreases MAX_ROLE_EXPANSIONS - round
  {
    round < MAX_ROLE_EXPANSIONS && server(round, using).Some? && ParseGrants(parse, server(round, using).value).Some? ==>
      var next := Merge(using, RolesOf(ParseGrants(parse, server(round, using).value).value));
      && ListsRoles(parse, w, using, server(round, using).value)
      && (|next| == |using| || HonestFrom(parse, server, w, next, round + 1))
  }

  lemma {:induction false} HonestEverywhere(parse: LineParser, server: Server, w: World, using: seq<Account>, round: nat)
    requires Honest(parse, server, w)
    ensures HonestFrom(parse, server, w, using, round)
    decreases MAX_ROLE_EXPANSIONS - round
  {
    hide Honest, ListsRoles, ParseGrants, RolesOf, Merge;
    if round < MAX_ROLE_EXPANSIONS && server(round, using).Some? && ParseGrants(parse, server(round, using).value).Some? {
      HonestAnswer(parse, server, w, using, round);
      HonestEverywhere(parse, server, w, Merge(using, RolesOf(ParseGrants(parse, server(round, using).value).value)), round + 1);
    }
  }

  lemma HonestAnswer(parse: LineParser, server: Server, w: World, using: seq<Account>, round: nat)
    requires Honest(parse, server, w) && server(round, using).Some?
    ensures ListsRoles(parse, w, using, server(round, using).value)
  {
    hide ListsRoles;
  }

  ghost predicate ListsOwn(parse: LineParser, w: World, lines: seq<string>) {
    ParseGrants(parse, lines).Some? ==>
      && (forall g :: g in w.own ==> g in ParseGrants(parse, lines).value)
      && (forall m :: m in w.ownRoles ==> m in RolesOf(ParseGrants(parse, lines).value))
  }

  /** The final USING list of a successful expansion is closed, and everything its roles hold was
      read. */
  ghost predicate ClosedUnder(w: World, using: seq<Account>, grants: seq<GrantLine>) {
    && (forall r, m :: r in using && m in w.members(r) ==> m in using)
    && (forall r, g :: r in using && g in w.direct(r) ==> g in grants)
  }

  lemma {:induction false} ExpandCloses(parse: LineParser, server: Server, w: World, using: seq<Account>, round: nat, grants: seq<GrantLine>)
    returns (final: seq<Account>)
    requires HonestFrom(parse, server, w, using, round) && NoDuplicates(using) && Expand(parse, server, using, round, grants).Some?
    ensures forall r :: r in using ==> r in final
    ensures ClosedUnder(w, final, Expand(parse, server, using, round, grants).value)
    ensures forall g :: g in grants ==> g in Expand(parse, server, using, round, grants).value
    decreases MAX_ROLE_EXPANSIONS - round
  {
    var lines := server(round, using).value;
    var parsed := ParseGrants(parse, lines).value;
    var named := RolesOf(parsed);
    var next := Merge(using, named);
    assert ListsRoles(parse, w, using, lines);
    hide HonestFrom, ParseGrants, RolesOf, Merge, NoDuplicates;
    MergeNoDuplicates(using, named);
    forall r | r in using ensures r in next { MergeMembers(using, named, r); }
    if |next| == |using| {
      final := using;
    } else {
      final := ExpandCloses(parse, server, w, next, round + 1, grants + parsed);
    }
  }

  lemma {:induction false} ReachableStaysInside(w: World, inside: seq<Account>, path: seq<Account>)
    requires Chain(w, path) && path[0] in inside
    requires forall r, m :: r in inside && m in w.members(r) ==> m in inside
    ensures path[|path| - 1] in inside
  {
    if |path| > 1 {
      var front := path[..|path| - 1];
      assert Chain(w, front);
      ReachableStaysInside(w, inside, front);
      assert path[|path| - 2 + 1] in w.members(path[|path| - 2]);
    }
  }

  /** Every answer to a query of this verification lists what it should. */
  ghost predicate AnswersHonestly(parse: LineParser, server: Server, w: World, current: Option<string>, own: Option<seq<string>>) {
    own.Some? && ActiveRoles(current).Some? && ParseGrants(parse, own.value).Some? ==>
      && ListsOwn(parse, w, own.value)
      && var roles := AskedRoles(ParseGrants(parse, own.value).value, ActiveRoles(current).value);
         (roles == [] || HonestFrom(parse, server, w, roles, 0))
  }

  /** Soundness: if the account is passed, then every grant it holds directly, and every grant of
      every role reachable from its granted or active roles, is on the allowlist, although at
      most four expansion queries are made. */
  lemma VerifiedIsSafe(parse: LineParser, server: Server, w: World, current: Option<string>, own: Option<seq<string>>, schema: string)
    requires AnswersHonestly(parse, server, w, current, own)
    requires Verify(parse, server, current, own, schema) == Verified
    ensures ActiveRoles(current).Some?
    ensures forall g :: g in w.own ==> Permitted(g, schema)
    ensures forall r, g :: Reachable(w, w.ownRoles + SetOf(ActiveRoles(current).value), r) && g in w.direct(r) ==> Permitted(g, schema)
  {
    var grants := ParseGrants(parse, own.value).value;
    var active := ActiveRoles(current).value;
    var named := RolesOf(grants);
    var roles := AskedRoles(grants, active);
    assert ListsOwn(parse, w, own.value);
    MergeNoDuplicates([], named);
    MergeNoDuplicates(Merge([], named), active);
    forall r | r in w.ownRoles + SetOf(active) ensures r in roles {
      MergeMembers([], named, r);
      MergeMembers(Merge([], named), active, r);
    }
    var all := if roles == [] then grants else grants + Expand(parse, server, roles, 0, []).value;
    assert Allowed(all, schema);
    forall g | g in w.own ensures Permitted(g, schema) {
      assert g in grants;
      InAllowed(all, schema, g);
    }
    if roles == [] {
      NothingReachable(w, w.ownRoles + SetOf(active));
    } else {
      var final := ExpandCloses(parse, server, w, roles, 0, []);
      hide Verify, HonestFrom, AnswersHonestly, ParseGrants, Expand, Merge, ActiveRoles, Allowed, Permitted;
      forall r, g | Reachable(w, w.ownRoles + SetOf(active), r) && g in w.direct(r) ensures Permitted(g, schema) {
        var path :| Chain(w, path) && path[0] in w.ownRoles + SetOf(active) && path[|path| - 1] == r;
        ReachableStaysInside(w, final, path);
        InAllowed(all, schema, g);
      }
    }
  }

  /** In particular with a server that is honest about every list. */
  lemma HonestServerIsSafe(parse: LineParser, server: Server, w: World, current: Option<string>, own: Option<seq<string>>, schema: string)
    requires Honest(parse, server, w) && (own.Some? ==> ListsOwn(parse, w, own.value))
    requires Verify(parse, server, current, own, schema) == Verified
    ensures ActiveRoles(current).Some?
    ensures forall g :: g in w.own ==> Permitted(g, schema)
    ensures forall r, g :: Reachable(w, w.ownRoles + SetOf(ActiveRoles(current).value), r) && g in w.direct(r) ==> Permitted(g, schema)
  {
    hide Honest, HonestFrom, Verify, ListsOwn, ParseGrants, ActiveRoles, AskedRoles, Reachable, Permitted;
    if own.Some? && ActiveRoles(current).Some? && ParseGrants(parse, own.value).Some? {
      HonestEverywhere(parse, server, w, AskedRoles(ParseGrants(parse, own.value).value, ActiveRoles(current).value), 0);
    }
    VerifiedIsSafe(parse, server, w, current, own, schema);
  }

  lemma NothingReachable(w: World, start: set<Account>)
    requires forall r :: r !in start
    ensures forall r :: !Reachable(w, start, r)
  {
  }

  lemma InAllowed(grants: seq<GrantLine>, schema: string, g: GrantLine)
    requires Allowed(grants, schema) && g in grants
    ensures Permitted(g, schema)
  {
    AllowedIff(g, schema);
    hide GrantAllowed, Permitted;
  }

  // ---------------------------------------------------------------- when the account is passed

  function Next(w: World, s: set<Account>): set<Account> {
    set r, m | r in s && m in w.members(r) :: m
  }

  /** The roles at most `n` memberships away from `start`. */
  function Level(w: World, start: set<Account>, n: nat): set<Account> {
    if n == 0 then start else Level(w, start, n - 1) + Next(w, Level(w, start, n - 1))
  }

  lemma {:induction false} LevelShift(w: World, start: set<Account>, n: nat)
    ensures Level(w, start + Next(w, start), n) == Level(w, start, n + 1)
  {
    if n > 0 { LevelShift(w, start, n - 1); }
  }

  lemma {:induction false} LevelStable(w: World, start: set<Account>, n: nat)
    requires Next(w, start) <= start
    ensures Level(w, start, n) == start
  {
    if n > 0 { LevelStable(w, start, n - 1); }
  }

  lemma {:induction false} LevelReachable(w: World, start: set<Account>, n: nat, r: Account) returns (path: seq<Account>)
    requires r in Level(w, start, n)
    ensures Chain(w, path) && path[0] in start && path[|path| - 1] == r
  {
    if n == 0 {
      path := [r];
    } else if r in Level(w, start, n - 1) {
      path := LevelReachable(w, start, n - 1, r);
    } else {
      var q :| q in Level(w, start, n - 1) && r in w.members(q);
      path := LevelReachable(w, start, n - 1, q);
      path := path + [r];
    }
  }

  lemma {:induction false} ChainInLevel(w: World, start: set<Account>, n: nat, path: seq<Account>)
    requires Next(w, Level(w, start, n)) <= Level(w, start, n) && start <= Level(w, start, n)
    requires Chain(w, path) && path[0] in start
    ensures path[|path| - 1] in Level(w, start, n)
  {
    if |path| > 1 {
      var front := path[..|path| - 1];
      assert Chain(w, front);
      ChainInLevel(w, start, n, front);
      var q := path[|path| - 2];
      assert path[|path| - 2 + 1] in w.members(q);
    }
  }

  lemma {:induction false} LevelGrows(w: World, start: set<Account>, n: nat)
    ensures start <= Level(w, start, n)
  {
    if n > 0 { LevelGrows(w, start, n - 1); }
  }

  /** Every reachable role is at most `n` memberships away. */
  ghost predicate Within(w: World, start: set<Account>, n: nat) {
    forall r :: Reachable(w, start, r) ==> r in Level(w, start, n)
  }

  lemma WithinIff(w: World, start: set<Account>, n: nat)
    ensures Within(w, start, n) <==> Level(w, start, n + 1) == Level(w, start, n)
  {
    LevelGrows(w, start, n);
    if Level(w, start, n + 1) == Level(w, start, n) {
      forall r | Reachable(w, start, r) ensures r in Level(w, start, n) {
        var path :| Chain(w, path) && path[0] in start && path[|path| - 1] == r;
        ChainInLevel(w, start, n, path);
      }
    }
    if Within(w, start, n) {
      forall r | r in Level(w, start, n + 1) ensures r in Level(w, start, n) {
        var path := LevelReachable(w, start, n + 1, r);
        assert Reachable(w, start, r);
      }
    }
  }

  /** The server answers every query, legibly, and lists nothing that is not so: a row is the
      account's own, a membership, or a direct grant of a role in the list. */
  ghost predicate ExactAnswer(parse: LineParser, w: World, using: seq<Account>, lines: seq<string>) {
    && ParseGrants(parse, lines).Some?
    && (forall m :: m in RolesOf(ParseGrants(parse, lines).value) ==> m in w.ownRoles || m in Next(w, SetOf(using)))
    && (forall g :: g in ParseGrants(parse, lines).value ==>
         g.roles != [] || g in w.own || exists r :: r in using && g in w.direct(r))
  }

  /** The server answers so every query that an expansion starting at this list makes. */
  ghost predicate ExactFrom(parse: LineParser, server: Server, w: World, using: seq<Account>, round: nat)
    decreases MAX_ROLE_EXPANSIONS - round
  {
    round < MAX_ROLE_EXPANSIONS ==>
      && server(round, using).Some?
      && ExactAnswer(parse, w, using, server(round, using).value) && ListsRoles(parse, w, using, server(round, using).value)
      && var next := Merge(using, RolesOf(ParseGrants(parse, server(round, using).value).value));
         (|next| == |using| || ExactFrom(parse, server, w, next, round + 1))
  }

  lemma {:induction false} ExactIsHonest(parse: LineParser, server: Server, w: World, using: seq<Account>, round: nat)
    requires ExactFrom(parse, server, w, using, round)
    ensures HonestFrom(parse, server, w, using, round)
    decreases MAX_ROLE_EXPANSIONS - round
  {
    hide ListsRoles, ParseGrants, RolesOf, Merge;
    if round < MAX_ROLE_EXPANSIONS {
      var next := Merge(using, RolesOf(ParseGrants(parse, server(round, using).value).value));
      if |next| != |using| { ExactIsHonest(parse, server, w, next, round + 1); }
    }
  }

  lemma MergedSet(using: seq<Account>, named: seq<Account>, w: World)
    requires w.ownRoles <= SetOf(using)
    requires forall m :: m in named ==> m in w.ownRoles || m in Next(w, SetOf(using))
    requires forall r, m :: r in using && m in w.members(r) ==> m in named
    ensures SetOf(Merge(using, named)) == SetOf(using) + Next(w, SetOf(using))
    ensures (forall a :: a in named ==> a in using) <==> Next(w, SetOf(using)) <= SetOf(using)
  {
    forall a ensures a in SetOf(Merge(using, named)) <==> a in SetOf(using) || a in named {
      MergeMembers(using, named, a);
    }
  }

  lemma AnswerSet(parse: LineParser, server: Server, w: World, using: seq<Account>, round: nat) returns (parsed: seq<GrantLine>, next: seq<Account>)
    requires ExactFrom(parse, server, w, using, round) && round < MAX_ROLE_EXPANSIONS
    requires NoDuplicates(using) && w.ownRoles <= SetOf(using)
    ensures server(round, using).Some? && ParseGrants(parse, server(round, using).value) == Some(parsed)
    ensures next == Merge(using, RolesOf(parsed)) && NoDuplicates(next) && w.ownRoles <= SetOf(next)
    ensures SetOf(next) == SetOf(using) + Next(w, SetOf(using))
    ensures |next| == |using| <==> Next(w, SetOf(using)) <= SetOf(using)
    ensures |next| == |using| || ExactFrom(parse, server, w, next, round + 1)
  {
    var lines := server(round, using).value;
    assert ListsRoles(parse, w, using, lines) && ExactAnswer(parse, w, using, lines);
    parsed := ParseGrants(parse, lines).value;
    var named := RolesOf(parsed);
    next := Merge(using, named);
    assert |next| == |using| || ExactFrom(parse, server, w, next, round + 1);
    hide ExactFrom, ParseGrants, RolesOf, Merge, NoDuplicates;
    MergedSet(using, named, w);
    MergeNoDuplicates(using, named);
  }

  lemma ExpandStep(parse: LineParser, server: Server, using: seq<Account>, round: nat, grants: seq<GrantLine>, parsed: seq<GrantLine>, next: seq<Account>)
    requires round < MAX_ROLE_EXPANSIONS && server(round, using).Some?
    requires ParseGrants(parse, server(round, using).value) == Some(parsed) && next == Merge(using, RolesOf(parsed))
    ensures Expand(parse, server, using, round, grants) ==
            if |next| == |using| then Some(grants + parsed) else Expand(parse, server, next, round + 1, grants + parsed)
  {
    hide ParseGrants, RolesOf, Merge;
  }

  lemma ExpandStops(parse: LineParser, server: Server, using: seq<Account>, grants: seq<GrantLine>)
    ensures Expand(parse, server, using, MAX_ROLE_EXPANSIONS, grants).None?
  {
  }

  lemma LevelFirst(w: World, start: set<Account>)
    ensures Level(w, start, 0) == start && Level(w, start, 1) == start + Next(w, start)
  {
    hide Next;
    assert Level(w, start, 1) == Level(w, start, 0) + Next(w, Level(w, start, 0));
  }

  /** The expansion succeeds exactly when the role graph closes within the rounds it has left. */
  lemma {:induction false} ExpandIff(parse: LineParser, server: Server, w: World, using: seq<Account>, round: nat, grants: seq<GrantLine>)
    requires ExactFrom(parse, server, w, using, round)
    requires NoDuplicates(using) && w.ownRoles <= SetOf(using) && round <= MAX_ROLE_EXPANSIONS
    ensures var n := MAX_ROLE_EXPANSIONS - round;
            Expand(parse, server, using, round, grants).Some? <==>
            n >= 1 && Level(w, SetOf(using), n) == Level(w, SetOf(using), n - 1)
    decreases MAX_ROLE_EXPANSIONS - round
  {
    hide *;
    if round == MAX_ROLE_EXPANSIONS {
      ExpandStops(parse, server, using, grants);
    } else {
      var n := MAX_ROLE_EXPANSIONS - round;
      var start := SetOf(using);
      var parsed, next := AnswerSet(parse, server, w, using, round);
      ExpandStep(parse, server, using, round, grants, parsed, next);
      if |next| == |using| {
        LevelStable(w, start, n);
        LevelStable(w, start, n - 1);
      } else {
        ExpandIff(parse, server, w, next, round + 1, grants + parsed);
        LevelFirst(w, start);
        if n >= 2 {
          LevelShift(w, start, n - 1);
          LevelShift(w, start, n - 2);
        }
      }
    }
  }

  /** A row the account or a reachable role really holds, or a membership row. */
  ghost predicate Held(w: World, start: set<Account>, g: GrantLine) {
    g.roles != [] || g in w.own || exists r :: Reachable(w, start, r) && g in w.direct(r)
  }

  lemma {:induction false} ExpandReadsHeld(parse: LineParser, server: Server, w: World, start: set<Account>, using: seq<Account>, round: nat, grants: seq<GrantLine>)
    requires ExactFrom(parse, server, w, using, round) && Expand(parse, server, using, round, grants).Some?
    requires w.ownRoles <= start && (forall r :: r in using ==> Reachable(w, start, r)) && forall g :: g in grants ==> Held(w, start, g)
    ensures forall g :: g in Expand(parse, server, using, round, grants).value ==> Held(w, start, g)
    decreases MAX_ROLE_EXPANSIONS - round
  {
    var lines := server(round, using).value;
    assert ExactAnswer(parse, w, using, lines);
    var parsed := ParseGrants(parse, lines).value;
    var named := RolesOf(parsed);
    var next := Merge(using, named);
    assert |next| == |using| || ExactFrom(parse, server, w, next, round + 1);
    hide ExactFrom, ParseGrants, RolesOf, Merge;
    forall g | g in grants + parsed ensures Held(w, start, g) {
      if g !in grants { assert g in parsed; }
    }
    if |next| != |using| {
      forall r | r in next ensures Reachable(w, start, r) {
        MergeMembers(using, named, r);
        if r !in using { NamedIsReachable(w, start, using, r); }
      }
      ExpandReadsHeld(parse, server, w, start, next, round + 1, grants + parsed);
    }
  }

  lemma NamedIsReachable(w: World, start: set<Account>, using: seq<Account>, m: Account)
    requires (forall r :: r in using ==> Reachable(w, start, r)) && w.ownRoles <= start
    requires m in w.ownRoles || m in Next(w, SetOf(using))
    ensures Reachable(w, start, m)
  {
    if m in w.ownRoles {
      assert Chain(w, [m]);
      assert [m][0] in start && [m][|[m]| - 1] == m;
    } else {
      var r :| r in using && m in w.members(r);
      var path :| Chain(w, path) && path[0] in start && path[|path| - 1] == r;
      var longer := path + [m];
      assert Chain(w, longer) && longer[0] in start && longer[|longer| - 1] == m;
    }
  }

  lemma StartIsReachable(w: World, start: set<Account>, r: Account)
    requires r in start
    ensures Reachable(w, start, r)
  {
    assert Chain(w, [r]) && [r][0] in start && [r][|[r]| - 1] == r;
  }

  /** Every answer to a query of this verification is legible, lists what it should and lists
      nothing that is not so. */
  ghost predicate AnswersExactly(parse: LineParser, server: Server, w: World, current: Option<string>, lines: seq<string>) {
    && ListsOwn(parse, w, lines) && ExactAnswer(parse, w, [], lines)
    && (ActiveRoles(current).Some? ==>
          var roles := AskedRoles(ParseGrants(parse, lines).value, ActiveRoles(current).value);
          roles == [] || ExactFrom(parse, server, w, roles, 0))
  }

  /** With exact answers to the queries it makes, the account is passed if and only if
      CURRENT_ROLE() is legible, no role is more than three memberships away, and everything the
      account or a reachable role holds is on the allowlist. */
  lemma VerifiedIff(parse: LineParser, server: Server, w: World, current: Option<string>, lines: seq<string>, schema: string)
    requires AnswersExactly(parse, server, w, current, lines)
    ensures Verify(parse, server, current, Some(lines), schema) == Verified <==>
            && ActiveRoles(current).Some?
            && var start := w.ownRoles + SetOf(ActiveRoles(current).value);
               && Within(w, start, MAX_ROLE_DISTANCE)
               && (forall g :: g in w.own ==> Permitted(g, schema))
               && (forall r, g :: Reachable(w, start, r) && g in w.direct(r) ==> Permitted(g, schema))
  {
    hide *;
    ExactParts(parse, server, w, current, lines);
    VerifyParts(parse, server, current, lines, schema);
    if ActiveRoles(current).Some? {
      var active := ActiveRoles(current).value;
      var start := w.ownRoles + SetOf(active);
      var grants := ParseGrants(parse, lines).value;
      var roles := AskedRoles(grants, active);
      StartRoles(parse, w, lines, active);
      ClosesIff(parse, server, w, roles, start);
      if Verify(parse, server, current, Some(lines), schema) == Verified {
        VerifiedIsSafe(parse, server, w, current, Some(lines), schema);
      } else if Within(w, start, MAX_ROLE_DISTANCE) {
        ReadIsHeld(parse, server, w, start, roles, lines);
        var all := if roles == [] then grants else grants + Expand(parse, server, roles, 0, []).value;
        var g := NotAllowed(all, schema);
        HeldKinds(w, start, g);
        RoleRowsAllowed(g, schema);
      }
    }
  }

  lemma ExactParts(parse: LineParser, server: Server, w: World, current: Option<string>, lines: seq<string>)
    requires AnswersExactly(parse, server, w, current, lines)
    ensures ListsOwn(parse, w, lines) && ExactAnswer(parse, w, [], lines) && ParseGrants(parse, lines).Some?
    ensures AnswersHonestly(parse, server, w, current, Some(lines))
    ensures ActiveRoles(current).Some? ==>
              var roles := AskedRoles(ParseGrants(parse, lines).value, ActiveRoles(current).value);
              roles == [] || ExactFrom(parse, server, w, roles, 0)
  {
    LinesLegible(parse, w, lines);
    hide ListsOwn, ExactAnswer, ParseGrants, ActiveRoles, AskedRoles, ExactFrom, HonestFrom;
    if ActiveRoles(current).Some? {
      var roles := AskedRoles(ParseGrants(parse, lines).value, ActiveRoles(current).value);
      if roles != [] { ExactIsHonest(parse, server, w, roles, 0); }
    }
  }

  lemma LinesLegible(parse: LineParser, w: World, lines: seq<string>)
    requires ExactAnswer(parse, w, [], lines)
    ensures ParseGrants(parse, lines).Some?
  {
  }

  lemma VerifyParts(parse: LineParser, server: Server, current: Option<string>, lines: seq<string>, schema: string)
    ensures Verify(parse, server, current, Some(lines), schema) == Verified ==>
              ActiveRoles(current).Some? && ParseGrants(parse, lines).Some?
    ensures ActiveRoles(current).Some? && ParseGrants(parse, lines).Some? ==>
              var grants := ParseGrants(parse, lines).value;
              var roles := AskedRoles(grants, ActiveRoles(current).value);
              Verify(parse, server, current, Some(lines), schema) == Verified <==>
              && (roles == [] || Expand(parse, server, roles, 0, []).Some?)
              && Allowed(if roles == [] then grants else grants + Expand(parse, server, roles, 0, []).value, schema)
  {
    hide ActiveRoles, ParseGrants, RolesOf, Merge, Expand, Allowed;
  }

  lemma ClosesIff(parse: LineParser, server: Server, w: World, roles: seq<Account>, start: set<Account>)
    requires roles == [] || ExactFrom(parse, server, w, roles, 0)
    requires NoDuplicates(roles) && SetOf(roles) == start && w.ownRoles <= start
    ensures (roles == [] || Expand(parse, server, roles, 0, []).Some?) <==> Within(w, start, MAX_ROLE_DISTANCE)
  {
    hide *;
    RoundsAndDistance();
    if roles == [] {
      NoneWithin(w, roles, MAX_ROLE_DISTANCE);
    } else {
      WithinIff(w, start, MAX_ROLE_DISTANCE);
      ExpandIff(parse, server, w, roles, 0, []);
    }
  }

  lemma RoundsAndDistance()
    ensures MAX_ROLE_EXPANSIONS == MAX_ROLE_DISTANCE + 1
  {
  }

  lemma NoneWithin(w: World, roles: seq<Account>, n: nat)
    requires roles == []
    ensures Within(w, SetOf(roles), n)
  {
    hide Level;
    NothingReachable(w, SetOf(roles));
  }

  lemma NotAllowed(grants: seq<GrantLine>, schema: string) returns (g: GrantLine)
    requires !Allowed(grants, schema)
    ensures g in grants && !Permitted(g, schema)
  {
    var i :| 0 <= i < |grants| && !GrantAllowed(grants[i], schema);
    g := grants[i];
    AllowedIff(g, schema);
    hide GrantAllowed, Permitted;
  }

  lemma HeldKinds(w: World, start: set<Account>, g: GrantLine)
    requires Held(w, start, g)
    ensures g.roles != [] || g in w.own || exists r :: Reachable(w, start, r) && g in w.direct(r)
  {
  }

  lemma RoleRowsAllowed(g: GrantLine, schema: string)
    ensures g.roles != [] ==> Permitted(g, schema)
  {
  }

  lemma StartRoles(parse: LineParser, w: World, lines: seq<string>, active: seq<Account>)
    requires ListsOwn(parse, w, lines) && ExactAnswer(parse, w, [], lines)
    ensures var roles := AskedRoles(ParseGrants(parse, lines).value, active);
            NoDuplicates(roles) && SetOf(roles) == w.ownRoles + SetOf(active)
  {
    var named := RolesOf(ParseGrants(parse, lines).value);
    var roles := Merge(Merge([], named), active);
    MergeNoDuplicates([], named);
    MergeNoDuplicates(Merge([], named), active);
    forall a ensures a in SetOf(roles) <==> a in w.ownRoles + SetOf(active) {
      MergeMembers([], named, a);
      MergeMembers(Merge([], named), active, a);
    }
  }

  lemma ReadIsHeld(parse: LineParser, server: Server, w: World, start: set<Account>, roles: seq<Account>, lines: seq<string>)
    requires (roles == [] || ExactFrom(parse, server, w, roles, 0)) && ExactAnswer(parse, w, [], lines)
    requires SetOf(roles) == start && w.ownRoles <= start
    ensures forall g :: g in ParseGrants(parse, lines).value ==> Held(w, start, g)
    ensures roles != [] && Expand(parse, server, roles, 0, []).Some? ==>
              forall g :: g in Expand(parse, server, roles, 0, []).value ==> Held(w, start, g)
  {
    forall r | r in roles ensures Reachable(w, start, r) {
      assert r in SetOf(roles);
      StartIsReachable(w, start, r);
    }
    if roles != [] && Expand(parse, server, roles, 0, []).Some? {
      ExpandReadsHeld(parse, server, w, start, roles, 0, []);
    }
  }

  // ---------------------------------------------------------------- the loops

  method ParseGrantsLoop(parse: LineParser, lines: seq<string>) returns (grants: seq<GrantLine>, roles: seq<Account>, ok: bool)
    ensures ok <==> ParseGrants(parse, lines).Some?
    ensures ok ==> grants == ParseGrants(parse, lines).value && roles == RolesOf(grants)
  {
    grants, roles := [], [];
    if |lines| == 0 || |lines| > MAX_GRANT_LINES { return [], [], false; }
    for k := 0 to |lines|
      invariant ParseLines(parse, lines[..k]) == Some(grants) && roles == RolesOf(grants)
    {
      assert lines[..k + 1][..k] == lines[..k];
      var grant := parse(lines[k]);
      if grant.None? {
        FailedPrefix(parse, lines, k + 1);
        return [], [], false;
      }
      assert (grants + [grant.value])[..|grants|] == grants;
      grants := grants + [grant.value];
      roles := roles + grant.value.roles;
    }
    assert lines[..|lines|] == lines;
    ok := true;
  }

  lemma {:induction false} FailedPrefix(parse: LineParser, lines: seq<string>, k: nat)
    requires k <= |lines| && ParseLines(parse, lines[..k]).None?
    ensures ParseLines(parse, lines).None?
    decreases |lines|
  {
    if k == |lines| {
      assert lines[..k] == lines;
    } else {
      var front := lines[..|lines| - 1];
      assert front[..k] == lines[..k];
      FailedPrefix(parse, front, k);
    }
  }

  method DedupeInto(out0: seq<Account>, more: seq<Account>) returns (out: seq<Account>)
    ensures out == Merge(out0, more)
  {
    out := out0;
    var seen := set i | 0 <= i < |out0| :: out0[i];
    assert more[0..] == more;
    for k := 0 to |more|
      invariant seen == SetOf(out) && Merge(out, more[k..]) == Merge(out0, more)
    {
      assert more[k..][0] == more[k] && more[k..][1..] == more[k + 1..];
      if more[k] !in seen {
        SetOfSnoc(out, more[k]);
        seen := seen + {more[k]};
        out := out + [more[k]];
      }
    }
  }

  lemma SetOfSnoc(s: seq<Account>, a: Account)
    ensures SetOf(s + [a]) == SetOf(s) + {a}
  {
    forall x | x in SetOf(s) + {a} ensures x in SetOf(s + [a]) {
      if x == a {
        assert (s + [a])[|s|] == a;
      } else {
        var i :| 0 <= i < |s| && s[i] == x;
        assert (s + [a])[i] == x;
      }
    }
  }

  /** expandRoles: at most MAX_ROLE_EXPANSIONS queries. */
  method ExpandRoles(parse: LineParser, server: Server, roles: seq<Account>) returns (grants: seq<GrantLine>, ok: bool, queries: nat)
    ensures queries <= MAX_ROLE_EXPANSIONS
    ensures ok <==> Expand(parse, server, roles, 0, []).Some?
    ensures ok ==> grants == Expand(parse, server, roles, 0, []).value
  {
    hide ParseGrants, RolesOf, Merge;
    grants, queries := [], 0;
    var using := roles;
    for round := 0 to MAX_ROLE_EXPANSIONS
      invariant queries == round && Expand(parse, server, using, round, grants) == Expand(parse, server, roles, 0, [])
    {
      queries := queries + 1;
      var lines := server(round, using);
      if lines.None? { return [], false, queries; }
      var expanded, named, parsed := ParseGrantsLoop(parse, lines.value);
      if !parsed { return [], false, queries; }
      grants := grants + expanded;
      var next := DedupeInto(using, named);
      if |next| == |using| { return grants, true, queries; }
      using := next;
    }
    return [], false, queries;
  }

  method VerifyPrivileges(parse: LineParser, server: Server, current: Option<string>, own: Option<seq<string>>, schema: string)
    returns (verdict: Verdict)
    ensures verdict == Verify(parse, server, current, own, schema)
  {
    hide ParseGrants, RolesOf, Merge, Expand, Allowed;
    var active := ActiveRoles(current);
    if active.None? { return RolesActive; }
    if own.None? { return Unverifiable; }
    var grants, granted, ok := ParseGrantsLoop(parse, own.value);
    if !ok { return Unverifiable; }
    var roles := DedupeInto([], granted);
    roles := DedupeInto(roles, active.value);
    if |roles| > 0 {
      var expanded, expandedOk, _ := ExpandRoles(parse, server, roles);
      if !expandedOk { return Unverifiable; }
      grants := grants + expanded;
    }
    return if Allowed(grants, schema) then Verified else TooBroad;
  }
}
