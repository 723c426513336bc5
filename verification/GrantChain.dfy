/** A harmless account that the verification refuses (queryplan/session.go): its roles are nested
    four memberships deep, and only four expansion queries are made.
 */
module GrantChain {
  import opened Wrappers
  import opened Identifiers
  import opened Grants

  /** The roles of the example, named by digits. */
  function Nth(i: nat): Account {
    Account([(48 + i % 10) as char], "")
  }

  function FirstRoles(n: nat): (s: seq<Account>)
    ensures |s| == n && forall i :: 0 <= i < n ==> s[i] == Nth(i)
  {
    seq(n, i requires 0 <= i < n => Nth(i))
  }

  /** The roles granted to the first `n`. */
  function Granted(n: nat): (s: seq<Account>)
    ensures |s| == n && forall i :: 0 <= i < n ==> s[i] == Nth(i + 1)
  {
    seq(n, i requires 0 <= i < n => Nth(i + 1))
  }

  function Usage(): GrantLine {
    GrantLine([], ["USAGE"], ObjectRef("*", "*", false), false)
  }

  function Membership(role: Account): GrantLine {
    GrantLine([role], [], ObjectRef("", "", false), false)
  }

  /** A row is the name of the role it grants, or "u" for USAGE. */
  function Reader(): LineParser {
    (line: string) => if line == "u" then Some(Usage()) else Some(Membership(Account(line, "")))
  }

  function MembersOf(r: Account): set<Account> {
    if r == Nth(0) then {Nth(1)}
    else if r == Nth(1) then {Nth(2)}
    else if r == Nth(2) then {Nth(3)}
    else if r == Nth(3) then {Nth(4)}
    else {}
  }

  /** Each role is granted to the one before it, up to the fourth; none holds anything. */
  function Chained(): World {
    World({Usage()}, {Nth(0)}, r => {}, r => MembersOf(r))
  }

  /** The rows of the account and of the memberships of the first `n` roles. */
  function Rows(n: nat): seq<string> {
    if n == 0 then ["u"] else Rows(n - 1) + [Nth(n).name]
  }

  function Lines(n: nat): seq<GrantLine> {
    if n == 0 then [Usage()] else Lines(n - 1) + [Membership(Nth(n))]
  }

  function Asked(): Server {
    (round: nat, using: seq<Account>) => Some(Rows(round + 1))
  }

  /** The account's own rows: USAGE and the first role. */
  function OwnRows(): seq<string> {
    ["u", Nth(0).name]
  }

  // ---------------------------------------------------------------- reading the rows

  lemma NthDiffer(i: nat, j: nat)
    requires i < 10 && j < 10
    ensures Nth(i) == Nth(j) <==> i == j
    ensures Nth(i).name != "u"
  {
    assert Nth(i).name[0] as int == 48 + i && Nth(j).name[0] as int == 48 + j;
    assert Nth(i).name[0] != 'u';
  }

  lemma ReadRow(i: nat)
    requires i < 10
    ensures Reader()("u") == Some(Usage()) && Reader()(Nth(i).name) == Some(Membership(Nth(i)))
  {
    NthDiffer(i, i);
  }

  lemma ParseSnoc(parse: LineParser, lines: seq<string>, line: string, before: seq<GrantLine>, g: GrantLine)
    requires ParseLines(parse, lines) == Some(before) && parse(line) == Some(g)
    ensures ParseLines(parse, lines + [line]) == Some(before + [g])
  {
    assert (lines + [line])[..|lines|] == lines;
  }

  lemma RolesSnoc(before: seq<GrantLine>, g: GrantLine)
    ensures RolesOf(before + [g]) == RolesOf(before) + g.roles
  {
    assert (before + [g])[..|before|] == before;
  }

  lemma FirstRow()
    ensures ParseLines(Reader(), ["u"]) == Some([Usage()]) && RolesOf([Usage()]) == []
  {
    assert [] + ["u"] == ["u"] && [] + [Usage()] == [Usage()];
    ReadRow(0);
    ParseSnoc(Reader(), [], "u", [], Usage());
    RolesSnoc([], Usage());
  }

  lemma {:induction false} RowsRead(n: nat)
    requires n <= 4
    ensures ParseLines(Reader(), Rows(n)) == Some(Lines(n)) && |Rows(n)| == |Lines(n)| == n + 1
    ensures RolesOf(Lines(n)) == Granted(n)
    ensures Lines(n)[0] == Usage() && forall i :: 1 <= i <= n ==> Lines(n)[i] == Membership(Nth(i))
  {
    hide Nth, Reader, ParseLines, RolesOf, Usage, Membership;
    if n == 0 {
      FirstRow();
    } else {
      RowsRead(n - 1);
      ReadRow(n);
      ParseSnoc(Reader(), Rows(n - 1), Nth(n).name, Lines(n - 1), Membership(Nth(n)));
      RolesSnoc(Lines(n - 1), Membership(Nth(n)));
      MembershipIs(Nth(n));
      assert Granted(n - 1) + [Nth(n)] == Granted(n);
    }
  }

  lemma MembershipIs(r: Account)
    ensures Membership(r).roles == [r] && Usage().roles == []
  {
  }

  lemma RowsParse(n: nat)
    requires n <= 4
    ensures ParseGrants(Reader(), Rows(n)) == Some(Lines(n))
  {
    RowsRead(n);
    hide ParseLines, Reader, Rows, Lines, Granted, RolesOf;
  }

  // ---------------------------------------------------------------- the exact answers

  lemma ChainMembers(n: nat)
    requires n <= 4
    ensures Chained().members(Nth(n)) == if n < 4 then {Nth(n + 1)} else {}
  {
    NthDiffer(n, 0);
    NthDiffer(n, 1);
    NthDiffer(n, 2);
    NthDiffer(n, 3);
    hide Nth;
  }

  lemma ChainIs()
    ensures Chained().own == {Usage()} && Chained().ownRoles == {Nth(0)}
    ensures forall r :: Chained().direct(r) == {}
  {
  }

  lemma NamedIsNext(n: nat, m: Account)
    requires n <= 4 && m in Granted(n)
    ensures m in Next(Chained(), SetOf(FirstRoles(n)))
  {
    var i :| 0 <= i < n && Granted(n)[i] == m;
    ChainMembers(i);
    hide Chained, Nth;
    assert FirstRoles(n)[i] == Nth(i) && Nth(i) in SetOf(FirstRoles(n));
  }

  lemma RoleIsCovered(n: nat, r: Account)
    requires n <= 4 && r in FirstRoles(n)
    ensures Covers(Chained(), r, Lines(n))
  {
    var i :| 0 <= i < n && FirstRoles(n)[i] == r;
    ChainMembers(i);
    ChainIs();
    RowsRead(n);
    hide Chained, Nth, RolesOf, Lines;
    assert Granted(n)[i] == Nth(i + 1);
  }

  lemma RowIsReal(n: nat, g: GrantLine)
    requires n <= 4 && g in Lines(n)
    ensures g.roles != [] || g in Chained().own
  {
    RowsRead(n);
    ChainIs();
    hide Chained, Nth, RolesOf, Lines, Usage;
    var i :| 0 <= i < |Lines(n)| && Lines(n)[i] == g;
    if i > 0 { MembershipIs(Nth(i)); }
  }

  lemma RoundIsExact(n: nat)
    requires 1 <= n <= 4
    ensures ExactAnswer(Reader(), Chained(), FirstRoles(n), Rows(n)) && ListsRoles(Reader(), Chained(), FirstRoles(n), Rows(n))
  {
    RowsRead(n);
    RowsParse(n);
    hide Reader, Rows, Lines, ParseLines, ParseGrants, RolesOf, Nth, Chained, Next, Covers, Granted, FirstRoles;
    forall m | m in Granted(n) ensures m in Next(Chained(), SetOf(FirstRoles(n))) { NamedIsNext(n, m); }
    forall g | g in Lines(n) ensures g.roles != [] || g in Chained().own { RowIsReal(n, g); }
    forall r | r in FirstRoles(n) ensures Covers(Chained(), r, Lines(n)) { RoleIsCovered(n, r); }
  }

  /** One new role after those that are listed already. */
  lemma {:induction false} MergeNew(out: seq<Account>, more: seq<Account>)
    requires more != [] && more[|more| - 1] !in out && forall i :: 0 <= i < |more| - 1 ==> more[i] in out
    ensures Merge(out, more) == out + [more[|more| - 1]]
    decreases |more|
  {
    if |more| == 1 {
      assert more[1..] == [];
    } else {
      assert more[0] in out;
      MergeNew(out, more[1..]);
    }
  }

  lemma NextRoles(n: nat)
    requires 1 <= n <= 4
    ensures Merge(FirstRoles(n), Granted(n)) == FirstRoles(n + 1)
  {
    var out, more := FirstRoles(n), Granted(n);
    hide Nth, FirstRoles, Granted;
    forall i | 0 <= i < n - 1 ensures more[i] in out { assert out[i + 1] == more[i]; }
    forall i | 0 <= i < n ensures out[i] != more[n - 1] { NthDiffer(i, n); }
    MergeNew(out, more);
    assert out + [more[n - 1]] == FirstRoles(n + 1);
  }

  lemma AskedRows(n: nat, using: seq<Account>)
    requires n >= 1
    ensures Asked()(n - 1, using) == Some(Rows(n))
  {
    hide Rows;
  }

  lemma {:induction false} ChainIsExact(n: nat)
    requires 1 <= n <= 5
    ensures ExactFrom(Reader(), Asked(), Chained(), FirstRoles(n), n - 1)
    decreases 5 - n
  {
    hide Reader, Chained, FirstRoles, Granted, Rows, Lines, ParseGrants, RolesOf, Merge, ExactAnswer, ListsRoles, Asked;
    if n <= 4 {
      RoundIsExact(n);
      RowsParse(n);
      RowsRead(n);
      NextRoles(n);
      AskedRows(n, FirstRoles(n));
      ChainIsExact(n + 1);
    }
  }

  // ---------------------------------------------------------------- the distance

  ghost predicate Among(r: Account, n: nat) {
    exists i :: 0 <= i <= n && r == Nth(i)
  }

  lemma OneFurther(q: Account, n: nat, r: Account)
    requires n <= 2 && Among(q, n) && r in Chained().members(q)
    ensures Among(r, n + 1)
  {
    var i :| 0 <= i <= n && q == Nth(i);
    ChainMembers(i);
    hide Chained, Nth;
    assert r == Nth(i + 1);
  }

  lemma LevelUnfolds(w: World, start: set<Account>, n: nat, r: Account)
    requires n > 0 && r in Level(w, start, n)
    ensures r in Level(w, start, n - 1) || exists q :: q in Level(w, start, n - 1) && r in w.members(q)
  {
  }

  lemma AmongMore(r: Account, n: nat)
    requires Among(r, n)
    ensures Among(r, n + 1)
  {
    hide Nth;
  }

  lemma {:induction false} ChainLevel(n: nat, r: Account)
    requires n <= 3 && r in Level(Chained(), {Nth(0)}, n)
    ensures Among(r, n)
  {
    if n == 0 {
      assert r == Nth(0);
    } else {
      hide *;
      LevelUnfolds(Chained(), {Nth(0)}, n, r);
      if r in Level(Chained(), {Nth(0)}, n - 1) {
        ChainLevel(n - 1, r);
        AmongMore(r, n - 1);
      } else {
        var q :| q in Level(Chained(), {Nth(0)}, n - 1) && r in Chained().members(q);
        ChainLevel(n - 1, q);
        OneFurther(q, n - 1, r);
      }
    }
  }

  /** The role at the end of the chain is four memberships from the start. */
  lemma TooFar()
    ensures !Within(Chained(), {Nth(0)}, MAX_ROLE_DISTANCE)
  {
    var path := FirstRoles(5);
    assert MAX_ROLE_DISTANCE == 3;
    hide Chained, Nth, Level, FirstRoles;
    forall i | 0 <= i < |path| - 1 ensures path[i + 1] in Chained().members(path[i]) { ChainMembers(i); }
    assert Chain(Chained(), path) && path[0] in {Nth(0)} && path[|path| - 1] == Nth(4);
    assert Reachable(Chained(), {Nth(0)}, Nth(4));
    forall i | 0 <= i <= 3 ensures Nth(4) != Nth(i) { NthDiffer(4, i); }
    if Nth(4) in Level(Chained(), {Nth(0)}, 3) { ChainLevel(3, Nth(4)); }
  }

  // ---------------------------------------------------------------- the verdict

  lemma OwnRead()
    ensures ParseGrants(Reader(), OwnRows()) == Some([Usage(), Membership(Nth(0))])
    ensures RolesOf([Usage(), Membership(Nth(0))]) == [Nth(0)]
  {
    FirstRow();
    ReadRow(0);
    MembershipIs(Nth(0));
    assert OwnRows() == ["u"] + [Nth(0).name] && [Usage(), Membership(Nth(0))] == [Usage()] + [Membership(Nth(0))];
    hide ParseLines, Reader, RolesOf, Usage, Membership, Nth;
    ParseSnoc(Reader(), ["u"], Nth(0).name, [Usage()], Membership(Nth(0)));
    RolesSnoc([Usage()], Membership(Nth(0)));
  }

  lemma OwnIsExact()
    ensures ListsOwn(Reader(), Chained(), OwnRows()) && ExactAnswer(Reader(), Chained(), [], OwnRows())
  {
    OwnRead();
    ChainIs();
    MembershipIs(Nth(0));
    hide ParseGrants, Reader, RolesOf, Chained, Nth, OwnRows, Usage, Membership;
  }

  lemma NoneActive()
    ensures ActiveRoles(Some(ROLE_NONE)) == Some([]) && SetOf([]) == {}
  {
  }

  lemma AskedFirst()
    ensures AskedRoles([Usage(), Membership(Nth(0))], []) == FirstRoles(1)
  {
    OwnRead();
    hide ParseGrants, Reader, RolesOf, Nth, OwnRows, Usage, Membership;
    assert [Nth(0)][1..] == [];
    assert Merge([], [Nth(0)]) == [Nth(0)];
    assert FirstRoles(1) == [Nth(0)];
  }

  lemma ChainAnswersExactly()
    ensures AnswersExactly(Reader(), Asked(), Chained(), Some(ROLE_NONE), OwnRows())
  {
    hide ListsOwn, ExactAnswer, ParseGrants, Reader, Asked, Chained, AskedRoles, FirstRoles, ExactFrom, ActiveRoles, OwnRows;
    OwnIsExact();
    OwnRead();
    NoneActive();
    AskedFirst();
    ChainIsExact(1);
  }

  lemma NothingHeld(schema: string, r: Account)
    ensures forall g :: g in Chained().own ==> Permitted(g, schema)
    ensures forall g :: g !in Chained().direct(r)
  {
  }

  /** An account that holds nothing but USAGE, with a chain of roles that hold nothing, is refused
      by a server that answers every query exactly, because the chain has four memberships. */
  lemma DeepRoleIsRefused(schema: string)
    ensures AnswersExactly(Reader(), Asked(), Chained(), Some(ROLE_NONE), OwnRows())
    ensures Verify(Reader(), Asked(), Some(ROLE_NONE), Some(OwnRows()), schema) != Verified
    ensures forall g :: g in Chained().own ==> Permitted(g, schema)
    ensures forall r, g :: g in Chained().direct(r) ==> Permitted(g, schema)
  {
    hide *;
    ChainIs();
    TooFar();
    NoneActive();
    ChainAnswersExactly();
    NothingHeld(schema, Nth(0));
    assert Chained().ownRoles + {} == {Nth(0)};
    VerifiedIff(Reader(), Asked(), Chained(), Some(ROLE_NONE), OwnRows(), schema);
  }
}
