/** The bounded transition graph (flowviz/graph.go, BuildGraph).

    Nodes beyond the display cap are folded into "(other)" and edges beyond theirs are dropped;
    the traffic this hides is accounted for.  Counts are int64 and additions saturate.

    The source keys an edge by its two names joined with a NUL and splits the key again, and a
    node name may hold a NUL.  A character of a name is a code point.
 */
module FlowGraph {
  import opened Counting
  import opened Quantiles
  import opened Ranking

  const OTHER_NODE := "(other)"
  const MAX_NODE_BYTES := 512
  const DEFAULT_MAX_NODES := 16
  const DEFAULT_MAX_EDGES := 48
  const HARD_MAX_NODES := 32
  const HARD_MAX_EDGES := 128

  datatype Transition = Transition(from: string, to: string, count: int)

  datatype Node = Node(id: string, count: int)

  datatype Graph = Graph(
    nodes: seq<Node>, edges: seq<Transition>, inputEdges: nat,
    hidden: int, dropped: nat, truncated: bool, partial: bool)

  // ---------------------------------------------------------------- node names

  function MethodLength(s: string): (n: nat)
    ensures n <= |s|
  {
    if s == [] || !('A' <= s[0] <= 'Z') then 0 else 1 + MethodLength(s[1..])
  }

  predicate PathChar(c: char) {
    c !in {' ', '\t', '\n', '\r', 12 as char, '?', '#'}
  }

  function Utf8Length(s: string): nat {
    if s == [] then 0
    else
      var c := s[0] as int;
      (if c < 0x80 then 1 else if c < 0x800 then 2 else if c < 0x10000 then 3 else 4) + Utf8Length(s[1..])
  }

  /** validNode: an upper-case method, a space, and a path without spaces, query or fragment. */
  predicate ValidNode(s: string) {
    var n := MethodLength(s);
    && 1 <= n <= 16 && n + 2 <= |s| <= n + 2 + 495 && s[n] == ' ' && s[n + 1] == '/'
    && (forall i :: n + 2 <= i < |s| ==> PathChar(s[i]))
    && Utf8Length(s) <= MAX_NODE_BYTES
  }

  lemma OtherIsNoNode()
    ensures !ValidNode(OTHER_NODE)
  {
    assert OTHER_NODE[0] == '(';
  }

  function JoinKey(from: string, to: string): string {
    from + ['\0'] + to
  }

  /** splitTransitionKey */
  function SplitKey(key: string): (string, string) {
    if key == [] then ([], [])
    else if key[0] == '\0' then ([], key[1..])
    else
      var rest := SplitKey(key[1..]);
      ([key[0]] + rest.0, rest.1)
  }

  /** Joining and splitting gives the pair back exactly when the first name has no NUL. */
  lemma {:induction false} KeyRoundTrip(from: string, to: string)
    ensures SplitKey(JoinKey(from, to)) == (from, to) <==> '\0' !in from
    ensures '\0' in from ==> |SplitKey(JoinKey(from, to)).0| < |from|
  {
    var key := JoinKey(from, to);
    if from == [] {
      assert key[0] == '\0' && key[1..] == to;
    } else if from[0] != '\0' {
      KeyRoundTrip(from[1..], to);
      assert key[1..] == JoinKey(from[1..], to) && from == [from[0]] + from[1..];
      var rest := SplitKey(key[1..]);
      assert SplitKey(key) == ([from[0]] + rest.0, rest.1);
      assert ([from[0]] + rest.0)[1..] == rest.0;
    }
  }

  /** A key is the join of what it is split into, so different keys are split into different
      pairs. */
  lemma {:induction false} SplitJoin(key: string)
    requires '\0' in key
    ensures JoinKey(SplitKey(key).0, SplitKey(key).1) == key
    ensures '\0' !in SplitKey(key).0
  {
    if key[0] == '\0' {
      assert key == [] + ['\0'] + key[1..];
    } else {
      SplitJoin(key[1..]);
    }
  }

  lemma NulInKey(from: string, to: string)
    ensures '\0' in JoinKey(from, to)
  {
    assert JoinKey(from, to)[|from|] == '\0';
  }

  // ---------------------------------------------------------------- saturating sums

  function SaturatingAdd(current: int, value: int): int {
    if value <= 0 then current
    else if current > MAX_INT64 - value then MAX_INT64
    else current + value
  }

  function Cap(n: nat): int {
    if n > MAX_INT64 then MAX_INT64 else n
  }

  lemma CapAdd(n: nat, value: int)
    requires value > 0
    ensures SaturatingAdd(Cap(n), value) == Cap(n + value)
  {
  }

  function Get<K>(m: map<K, int>, k: K): int {
    if k in m then m[k] else 0
  }

  function AddTo<K>(m: map<K, int>, k: K, value: int): map<K, int> {
    m[k := SaturatingAdd(Get(m, k), value)]
  }

  /** An exact sum over transitions; it does not depend on their order. */
  function Total(ts: seq<Transition>, f: Transition -> nat): nat {
    if ts == [] then 0 else Total(ts[..|ts| - 1], f) + f(ts[|ts| - 1])
  }

  lemma {:induction false} TotalConcat(a: seq<Transition>, b: seq<Transition>, f: Transition -> nat)
    ensures Total(a + b, f) == Total(a, f) + Total(b, f)
  {
    if b == [] {
      assert a + b == a;
    } else {
      assert (a + b)[..|a + b| - 1] == a + b[..|b| - 1];
      TotalConcat(a, b[..|b| - 1], f);
    }
  }

  lemma TotalRemove(ts: seq<Transition>, j: nat, f: Transition -> nat)
    requires j < |ts|
    ensures Total(ts, f) == Total(ts[..j] + ts[j + 1..], f) + f(ts[j])
  {
    hide Total;
    var a, x, b := ts[..j], ts[j], ts[j + 1..];
    assert ts == a + ([x] + b);
    TotalConcat(a, [x] + b, f);
    TotalConcat([x], b, f);
    TotalConcat(a, b, f);
    TotalOne(x, f);
  }

  lemma TotalOne(x: Transition, f: Transition -> nat)
    ensures Total([x], f) == f(x)
  {
    assert [x][..0] == [];
  }

  lemma CancelOne(a: multiset<Transition>, b: multiset<Transition>, x: Transition)
    requires a + multiset{x} == b + multiset{x}
    ensures a == b
  {
    assert a == (a + multiset{x}) - multiset{x};
    assert b == (b + multiset{x}) - multiset{x};
  }

  lemma {:induction false} TotalPermutes(ts: seq<Transition>, us: seq<Transition>, f: Transition -> nat)
    requires multiset(ts) == multiset(us)
    ensures Total(ts, f) == Total(us, f)
  {
    if ts == [] {
      assert us == [] by { assert |multiset(us)| == 0; }
    } else {
      var n := |ts| - 1;
      var x := ts[n];
      assert ts == ts[..n] + [x];
      assert x in multiset(us);
      var j :| 0 <= j < |us| && us[j] == x;
      assert us == us[..j] + ([x] + us[j + 1..]);
      assert multiset(us) == multiset(us[..j] + us[j + 1..]) + multiset{x};
      CancelOne(multiset(ts[..n]), multiset(us[..j] + us[j + 1..]), x);
      TotalPermutes(ts[..n], us[..j] + us[j + 1..], f);
      TotalRemove(us, j, f);
    }
  }

  function CountOf(t: Transition): nat {
    if t.count > 0 then t.count else 0
  }

  function TrafficW(): Transition -> nat {
    (t: Transition) => CountOf(t)
  }

  /** A self-loop counts on both of its ends. */
  function DegreeW(id: string): Transition -> nat {
    (t: Transition) => (if t.from == id then CountOf(t) else 0) + (if t.to == id then CountOf(t) else 0)
  }

  // ---------------------------------------------------------------- the steps of BuildGraph

  predicate IsValid(t: Transition) {
    t.count > 0 && ValidNode(t.from) && ValidNode(t.to)
  }

  function Valid(ts: seq<Transition>): seq<Transition> {
    if ts == [] then []
    else Valid(ts[..|ts| - 1]) + if IsValid(ts[|ts| - 1]) then [ts[|ts| - 1]] else []
  }

  /** Per-node totals, accumulated in input order. */
  function NodeMap(ts: seq<Transition>): map<string, int> {
    if ts == [] then map[]
    else
      var t := ts[|ts| - 1];
      AddTo(AddTo(NodeMap(ts[..|ts| - 1]), t.from, t.count), t.to, t.count)
  }

  type Pair = (string, string)

  function Shown(id: string, kept: set<string>): string {
    if id in kept then id else OTHER_NODE
  }

  /** The edge as it is displayed: its key, split again. */
  function EdgeOf(t: Transition, kept: set<string>): Pair {
    SplitKey(JoinKey(Shown(t.from, kept), Shown(t.to, kept)))
  }

  predicate IsHidden(t: Transition, kept: set<string>) {
    t.from !in kept || t.to !in kept
  }

  function EdgeMap(ts: seq<Transition>, kept: set<string>): map<Pair, int> {
    if ts == [] then map[]
    else AddTo(EdgeMap(ts[..|ts| - 1], kept), EdgeOf(ts[|ts| - 1], kept), ts[|ts| - 1].count)
  }

  function HiddenSum(ts: seq<Transition>, kept: set<string>): int {
    if ts == [] then 0
    else
      var h := HiddenSum(ts[..|ts| - 1], kept);
      if IsHidden(ts[|ts| - 1], kept) then SaturatingAdd(h, ts[|ts| - 1].count) else h
  }

  /** The edges onto which some transition with a folded end was counted. */
  function FoldedEdges(ts: seq<Transition>, kept: set<string>): set<Pair> {
    if ts == [] then {}
    else FoldedEdges(ts[..|ts| - 1], kept) + if IsHidden(ts[|ts| - 1], kept) then {EdgeOf(ts[|ts| - 1], kept)} else {}
  }

  function NodeItems(m: map<string, int>): set<Item> {
    set id | id in m :: Item(m[id], id, "")
  }

  function EdgeItems(m: map<Pair, int>): set<Item> {
    set p | p in m :: Item(m[p], p.0, p.1)
  }

  function Names(items: seq<Item>): set<string> {
    set i | 0 <= i < |items| :: items[i].a
  }

  predicate Plain(x: Item) {
    x.a != OTHER_NODE && x.b != OTHER_NODE
  }

  /** Adds the counts of the dropped edges that no earlier step has hidden. */
  function AddUnfolded(h: int, items: seq<Item>, folded: set<Pair>): int {
    if items == [] then h
    else
      var x := items[|items| - 1];
      var h' := AddUnfolded(h, items[..|items| - 1], folded);
      if (x.a, x.b) !in folded then SaturatingAdd(h', x.count) else h'
  }

  function AsEdges(items: seq<Item>): (es: seq<Transition>)
    ensures |es| == |items|
    ensures forall i :: 0 <= i < |es| ==> es[i] == Transition(items[i].a, items[i].b, items[i].count)
  {
    seq(|items|, i requires 0 <= i < |items| => Transition(items[i].a, items[i].b, items[i].count))
  }

  function VisibleNodes(items: seq<Item>, visible: map<string, int>): seq<Node> {
    if items == [] then []
    else
      var x := items[|items| - 1];
      VisibleNodes(items[..|items| - 1], visible) + if Get(visible, x.a) > 0 then [Node(x.a, Get(visible, x.a))] else []
  }

  function KeepCount(n: nat, maxNodes: nat): nat
    requires maxNodes >= 2
  {
    if n > maxNodes then maxNodes - 1 else n
  }

  ghost function Ranked(valid: seq<Transition>): seq<Item> {
    InOrder(NodeItems(NodeMap(valid)))
  }

  ghost function KeptItems(valid: seq<Transition>, maxNodes: nat): seq<Item>
    requires maxNodes >= 2
  {
    var ranked := Ranked(valid);
    ranked[..KeepCount(|ranked|, maxNodes)]
  }

  ghost function AllEdges(valid: seq<Transition>, maxNodes: nat): seq<Item>
    requires maxNodes >= 2
  {
    InOrder(EdgeItems(EdgeMap(valid, Names(KeptItems(valid, maxNodes)))))
  }

  function Cut(items: seq<Item>, n: nat): seq<Item> {
    if |items| > n then items[..n] else items
  }

  function Nodes(kept: seq<Item>, other: bool, visible: map<string, int>): seq<Node> {
    VisibleNodes(kept, visible) +
    if other && Get(visible, OTHER_NODE) > 0 then [Node(OTHER_NODE, Get(visible, OTHER_NODE))] else []
  }

  /** The graph shown for the given transitions, with the caps already normalised. */
  ghost function GraphOf(ts: seq<Transition>, maxNodes: nat, maxEdges: nat): Graph
    requires maxNodes >= 2 && maxEdges >= 1
  {
    var valid := Valid(ts);
    var needsOther := |Ranked(valid)| > maxNodes;
    var kept := KeptItems(valid, maxNodes);
    var all := AllEdges(valid, maxNodes);
    var shown := Cut(all, maxEdges);
    var edges := AsEdges(shown);
    Graph(
      Nodes(kept, needsOther, NodeMap(edges)),
      edges,
      |ts|,
      AddUnfolded(HiddenSum(valid, Names(kept)), all[|shown|..], FoldedEdges(valid, Names(kept))),
      if |Valid(ts)| <= |ts| then |ts| - |Valid(ts)| else 0,
      needsOther || |all| > maxEdges,
      |Valid(ts)| < |ts|)
  }

  function ClampNodes(n: int): (r: nat)
    ensures 2 <= r <= HARD_MAX_NODES
  {
    if n < 2 then DEFAULT_MAX_NODES else if n > HARD_MAX_NODES then HARD_MAX_NODES else n
  }

  function ClampEdges(n: int): (r: nat)
    ensures 1 <= r <= HARD_MAX_EDGES
  {
    if n < 1 then DEFAULT_MAX_EDGES else if n > HARD_MAX_EDGES then HARD_MAX_EDGES else n
  }

  // ---------------------------------------------------------------- what the maps hold

  ghost predicate AllValid(ts: seq<Transition>) {
    forall i :: 0 <= i < |ts| ==> IsValid(ts[i])
  }

  ghost predicate AllPositive(ts: seq<Transition>) {
    forall i :: 0 <= i < |ts| ==> ts[i].count > 0
  }

  lemma {:induction false} ValidIsValid(ts: seq<Transition>)
    ensures AllValid(Valid(ts)) && AllPositive(Valid(ts)) && |Valid(ts)| <= |ts|
  {
    if ts != [] { ValidIsValid(ts[..|ts| - 1]); }
  }

  /** A node's entry is its weighted degree, capped; nodes without traffic have no entry. */
  lemma {:induction false} NodeMapIs(ts: seq<Transition>, id: string)
    requires AllPositive(ts)
    ensures id in NodeMap(ts) <==> Total(ts, DegreeW(id)) > 0
    ensures Get(NodeMap(ts), id) == Cap(Total(ts, DegreeW(id)))
  {
    if ts != [] {
      var front, t := ts[..|ts| - 1], ts[|ts| - 1];
      NodeMapIs(front, id);
      var m := NodeMap(front);
      var n := Total(front, DegreeW(id));
      CapAdd(n, t.count);
      CapAdd(n + t.count, t.count);
      assert Total(ts, DegreeW(id)) == n + DegreeW(id)(t);
    }
  }

  function EdgeW(kept: set<string>, p: Pair): Transition -> nat {
    (t: Transition) => if EdgeOf(t, kept) == p then CountOf(t) else 0
  }

  function HiddenW(kept: set<string>): Transition -> nat {
    (t: Transition) => if IsHidden(t, kept) then CountOf(t) else 0
  }

  lemma {:induction false} EdgeMapIs(ts: seq<Transition>, kept: set<string>, p: Pair)
    requires AllPositive(ts)
    ensures p in EdgeMap(ts, kept) <==> Total(ts, EdgeW(kept, p)) > 0
    ensures Get(EdgeMap(ts, kept), p) == Cap(Total(ts, EdgeW(kept, p)))
  {
    if ts != [] {
      var front, t := ts[..|ts| - 1], ts[|ts| - 1];
      EdgeMapIs(front, kept, p);
      CapAdd(Total(front, EdgeW(kept, p)), t.count);
      assert Total(ts, EdgeW(kept, p)) == Total(front, EdgeW(kept, p)) + EdgeW(kept, p)(t);
    }
  }

  function FoldedW(kept: set<string>, p: Pair): Transition -> nat {
    (t: Transition) => if EdgeOf(t, kept) == p && IsHidden(t, kept) then CountOf(t) else 0
  }

  lemma {:induction false} FoldedIs(ts: seq<Transition>, kept: set<string>, p: Pair)
    requires AllPositive(ts)
    ensures p in FoldedEdges(ts, kept) <==> Total(ts, FoldedW(kept, p)) > 0
  {
    hide EdgeOf, IsHidden;
    if ts != [] {
      FoldedIs(ts[..|ts| - 1], kept, p);
      assert Total(ts, FoldedW(kept, p)) == Total(ts[..|ts| - 1], FoldedW(kept, p)) + FoldedW(kept, p)(ts[|ts| - 1]);
    }
  }

  lemma FoldedPermutes(ts: seq<Transition>, us: seq<Transition>, kept: set<string>)
    requires AllPositive(ts) && AllPositive(us) && multiset(ts) == multiset(us)
    ensures FoldedEdges(ts, kept) == FoldedEdges(us, kept)
  {
    forall p: Pair ensures p in FoldedEdges(ts, kept) <==> p in FoldedEdges(us, kept) {
      FoldedIs(ts, kept, p);
      FoldedIs(us, kept, p);
      TotalPermutes(ts, us, FoldedW(kept, p));
    }
  }

  lemma {:induction false} HiddenSumIs(ts: seq<Transition>, kept: set<string>)
    requires AllPositive(ts)
    ensures HiddenSum(ts, kept) == Cap(Total(ts, HiddenW(kept)))
  {
    if ts != [] {
      var front, t := ts[..|ts| - 1], ts[|ts| - 1];
      HiddenSumIs(front, kept);
      CapAdd(Total(front, HiddenW(kept)), t.count);
      assert Total(ts, HiddenW(kept)) == Total(front, HiddenW(kept)) + HiddenW(kept)(t);
    }
  }

  // ---------------------------------------------------------------- permutation invariance

  lemma SameMap<K>(a: map<K, int>, b: map<K, int>)
    requires forall k :: (k in a <==> k in b) && Get(a, k) == Get(b, k)
    ensures a == b
  {
    forall k | k in a ensures k in b && a[k] == b[k] {
      assert Get(a, k) == Get(b, k);
    }
    assert forall k :: k in b ==> k in a;
  }

  lemma NodeMapPermutes(ts: seq<Transition>, us: seq<Transition>)
    requires AllPositive(ts) && AllPositive(us) && multiset(ts) == multiset(us)
    ensures NodeMap(ts) == NodeMap(us)
  {
    forall id ensures (id in NodeMap(ts) <==> id in NodeMap(us)) && Get(NodeMap(ts), id) == Get(NodeMap(us), id) {
      NodeMapIs(ts, id);
      NodeMapIs(us, id);
      TotalPermutes(ts, us, DegreeW(id));
    }
    SameMap(NodeMap(ts), NodeMap(us));
  }

  lemma EdgeMapPermutes(ts: seq<Transition>, us: seq<Transition>, kept: set<string>)
    requires AllPositive(ts) && AllPositive(us) && multiset(ts) == multiset(us)
    ensures EdgeMap(ts, kept) == EdgeMap(us, kept) && HiddenSum(ts, kept) == HiddenSum(us, kept)
  {
    forall p: Pair
      ensures (p in EdgeMap(ts, kept) <==> p in EdgeMap(us, kept)) && Get(EdgeMap(ts, kept), p) == Get(EdgeMap(us, kept), p)
    {
      EdgeMapIs(ts, kept, p);
      EdgeMapIs(us, kept, p);
      TotalPermutes(ts, us, EdgeW(kept, p));
    }
    SameMap(EdgeMap(ts, kept), EdgeMap(us, kept));
    HiddenSumIs(ts, kept);
    HiddenSumIs(us, kept);
    TotalPermutes(ts, us, HiddenW(kept));
  }

  lemma {:induction false} ValidCounts(ts: seq<Transition>, t: Transition)
    ensures multiset(Valid(ts))[t] == if IsValid(t) then multiset(ts)[t] else 0
  {
    if ts != [] {
      var front, x := ts[..|ts| - 1], ts[|ts| - 1];
      ValidCounts(front, t);
      assert ts == front + [x];
      assert multiset(ts) == multiset(front) + multiset{x};
      if IsValid(x) {
        assert multiset(Valid(ts)) == multiset(Valid(front)) + multiset{x};
      } else {
        assert Valid(ts) == Valid(front);
      }
    }
  }

  lemma ValidPermutes(ts: seq<Transition>, us: seq<Transition>)
    requires multiset(ts) == multiset(us)
    ensures multiset(Valid(ts)) == multiset(Valid(us))
    ensures |ts| == |us| && |Valid(ts)| == |Valid(us)|
  {
    forall t ensures multiset(Valid(ts))[t] == multiset(Valid(us))[t] {
      ValidCounts(ts, t);
      ValidCounts(us, t);
    }
    assert |ts| == |multiset(ts)| && |us| == |multiset(us)|;
    assert |Valid(ts)| == |multiset(Valid(ts))| && |Valid(us)| == |multiset(Valid(us))|;
  }

  /** The graph depends only on which transitions there are, not on their order. */
  lemma GraphPermutes(ts: seq<Transition>, us: seq<Transition>, maxNodes: nat, maxEdges: nat)
    requires multiset(ts) == multiset(us) && maxNodes >= 2 && maxEdges >= 1
    ensures GraphOf(ts, maxNodes, maxEdges) == GraphOf(us, maxNodes, maxEdges)
  {
    ValidPermutes(ts, us);
    ValidIsValid(ts);
    ValidIsValid(us);
    hide *;
    NodeMapPermutes(Valid(ts), Valid(us));
    SameRanking(Valid(ts), Valid(us), maxNodes);
    EdgeMapPermutes(Valid(ts), Valid(us), Names(KeptItems(Valid(ts), maxNodes)));
    FoldedPermutes(Valid(ts), Valid(us), Names(KeptItems(Valid(ts), maxNodes)));
    SameGraph(ts, us, maxNodes, maxEdges);
  }

  lemma SameRanking(a: seq<Transition>, b: seq<Transition>, maxNodes: nat)
    requires NodeMap(a) == NodeMap(b) && maxNodes >= 2
    ensures Ranked(a) == Ranked(b) && KeptItems(a, maxNodes) == KeptItems(b, maxNodes)
  {
  }

  lemma SameGraph(ts: seq<Transition>, us: seq<Transition>, maxNodes: nat, maxEdges: nat)
    requires maxNodes >= 2 && maxEdges >= 1 && |ts| == |us| && |Valid(ts)| == |Valid(us)|
    requires Ranked(Valid(ts)) == Ranked(Valid(us)) && KeptItems(Valid(ts), maxNodes) == KeptItems(Valid(us), maxNodes)
    requires var kept := Names(KeptItems(Valid(ts), maxNodes));
             && EdgeMap(Valid(ts), kept) == EdgeMap(Valid(us), kept) && HiddenSum(Valid(ts), kept) == HiddenSum(Valid(us), kept)
             && FoldedEdges(Valid(ts), kept) == FoldedEdges(Valid(us), kept)
    ensures GraphOf(ts, maxNodes, maxEdges) == GraphOf(us, maxNodes, maxEdges)
  {
    hide Ranked, KeptItems, Valid, EdgeMap, HiddenSum, FoldedEdges, InOrder, Names, EdgeItems, AddUnfolded, Nodes, AsEdges, NodeMap;
  }

  // ---------------------------------------------------------------- conservation

  ghost function UnfoldedPart(m: map<Pair, int>, folded: set<Pair>): map<Pair, int> {
    map p | p in m && p !in folded :: m[p]
  }

  function SumUnfolded(items: seq<Item>, folded: set<Pair>): int {
    if items == [] then 0
    else
      var x := items[|items| - 1];
      SumUnfolded(items[..|items| - 1], folded) + if (x.a, x.b) !in folded then x.count else 0
  }

  /** Displayed edges that carry folded traffic but name no folded end. */
  function SumDisguised(items: seq<Item>, folded: set<Pair>): int {
    if items == [] then 0
    else
      var x := items[|items| - 1];
      SumDisguised(items[..|items| - 1], folded) + if (x.a, x.b) in folded && Plain(x) then x.count else 0
  }

  /** Traffic on displayed edges neither of whose ends is called "(other)". */
  function SumShown(edges: seq<Transition>): int {
    if edges == [] then 0
    else
      var e := edges[|edges| - 1];
      SumShown(edges[..|edges| - 1]) + if e.from != OTHER_NODE && e.to != OTHER_NODE then e.count else 0
  }

  lemma {:induction false} EdgeMapBounded(ts: seq<Transition>, kept: set<string>, p: Pair)
    requires AllPositive(ts)
    ensures 0 <= Get(EdgeMap(ts, kept), p) <= Total(ts, TrafficW())
  {
    EdgeMapIs(ts, kept, p);
    WeightBelowTraffic(ts, EdgeW(kept, p));
  }

  lemma {:induction false} WeightBelowTraffic(ts: seq<Transition>, f: Transition -> nat)
    requires forall t :: f(t) <= CountOf(t)
    ensures Total(ts, f) <= Total(ts, TrafficW())
  {
    if ts != [] { WeightBelowTraffic(ts[..|ts| - 1], f); }
  }

  /** Of the transitions, exactly those with a folded end have an edge of the set. */
  ghost predicate Separates(ts: seq<Transition>, kept: set<string>, folded: set<Pair>) {
    forall i :: 0 <= i < |ts| ==> (EdgeOf(ts[i], kept) in folded <==> IsHidden(ts[i], kept))
  }

  /** Before truncation: unfolded edges and hidden traffic together carry all traffic. */
  lemma {:induction false} EdgesBalance(ts: seq<Transition>, kept: set<string>, folded: set<Pair>)
    requires AllPositive(ts) && Separates(ts, kept, folded) && Total(ts, TrafficW()) <= MAX_INT64
    ensures Sum(UnfoldedPart(EdgeMap(ts, kept), folded)) + HiddenSum(ts, kept) == Total(ts, TrafficW())
    ensures 0 <= HiddenSum(ts, kept) <= Total(ts, TrafficW())
  {
    hide EdgeOf, IsHidden;
    if ts == [] {
      assert UnfoldedPart(EdgeMap(ts, kept), folded) == map[];
    } else {
      var front, t := ts[..|ts| - 1], ts[|ts| - 1];
      EdgesBalance(front, kept, folded);
      var m, p := EdgeMap(front, kept), EdgeOf(t, kept);
      EdgeMapBounded(front, kept, p);
      assert EdgeOf(ts[|ts| - 1], kept) in folded <==> IsHidden(ts[|ts| - 1], kept);
      assert Total(ts, TrafficW()) == Total(front, TrafficW()) + t.count;
      hide Total;
      AddUnfoldedPart(m, folded, p, t.count);
    }
  }

  lemma AddUnfoldedPart(m: map<Pair, int>, folded: set<Pair>, p: Pair, c: int)
    requires c > 0 && Get(m, p) + c <= MAX_INT64
    ensures Sum(UnfoldedPart(AddTo(m, p, c), folded)) == Sum(UnfoldedPart(m, folded)) + if p !in folded then c else 0
  {
    UnfoldedPartUpdate(m, folded, p, Get(m, p) + c);
    assert AddTo(m, p, c) == m[p := Get(m, p) + c];
    hide UnfoldedPart;
    if p !in folded {
      SumUpdate(UnfoldedPart(m, folded), p, Get(m, p) + c);
      UnfoldedEntry(m, folded, p);
    }
  }

  lemma UnfoldedEntry(m: map<Pair, int>, folded: set<Pair>, p: Pair)
    requires p !in folded
    ensures (p in UnfoldedPart(m, folded) <==> p in m) && (p in m ==> UnfoldedPart(m, folded)[p] == m[p])
  {
  }

  lemma UnfoldedPartUpdate(m: map<Pair, int>, folded: set<Pair>, p: Pair, v: int)
    ensures UnfoldedPart(m[p := v], folded) == if p !in folded then UnfoldedPart(m, folded)[p := v] else UnfoldedPart(m, folded)
  {
  }

  lemma LastIsLast(s: seq<Item>)
    requires Sorted(s) && s != []
    ensures s[|s| - 1] !in Elements(s[..|s| - 1])
    ensures Elements(s) == Elements(s[..|s| - 1]) + {s[|s| - 1]}
  {
    var n := |s| - 1;
    Rearranged(s[..n], s[n], n, s);
    assert s == s[..n] + [s[n]] + s[..n][n..];
    if s[n] in Elements(s[..n]) {
      var i :| 0 <= i < n && s[..n][i] == s[n];
      BeforeTrichotomy(s[i], s[n]);
    }
  }

  /** Listing the edges in order loses none of their counts. */
  lemma {:induction false} ListedSum(s: seq<Item>, m: map<Pair, int>, folded: set<Pair>)
    requires Sorted(s) && Elements(s) == EdgeItems(m)
    ensures SumUnfolded(s, folded) == Sum(UnfoldedPart(m, folded))
    decreases |s|
  {
    if s == [] {
      NoItems(m);
      assert UnfoldedPart(m, folded) == map[];
    } else {
      var n := |s| - 1;
      var x := s[n];
      LastIsLast(s);
      var p := (x.a, x.b);
      ItemEntry(m, x);
      ItemsWithout(m, p);
      assert Elements(s[..n]) == EdgeItems(m - {p});
      ListedSum(s[..n], m - {p}, folded);
      hide Sorted, Elements, EdgeItems;
      assert UnfoldedPart(m - {p}, folded) == UnfoldedPart(m, folded) - {p};
      if p !in folded {
        SumRemove(UnfoldedPart(m, folded), p);
      } else {
        assert UnfoldedPart(m, folded) - {p} == UnfoldedPart(m, folded);
      }
    }
  }

  lemma NoItems(m: map<Pair, int>)
    ensures EdgeItems(m) == {} ==> m == map[]
  {
    if m != map[] {
      var p :| p in m;
      assert Item(m[p], p.0, p.1) in EdgeItems(m);
    }
  }

  lemma ItemEntry(m: map<Pair, int>, x: Item)
    requires x in EdgeItems(m)
    ensures (x.a, x.b) in m && m[(x.a, x.b)] == x.count
  {
  }

  lemma ItemsWithout(m: map<Pair, int>, p: Pair)
    requires p in m
    ensures EdgeItems(m - {p}) == EdgeItems(m) - {Item(m[p], p.0, p.1)}
  {
    forall x | x in EdgeItems(m) - {Item(m[p], p.0, p.1)} ensures x in EdgeItems(m - {p}) {
      ItemEntry(m, x);
      var q := (x.a, x.b);
      assert q in m - {p} && (m - {p})[q] == x.count;
    }
  }

  lemma {:induction false} AddUnfoldedIs(h: int, items: seq<Item>, folded: set<Pair>)
    requires (forall i :: 0 <= i < |items| ==> items[i].count > 0) && h >= 0 && h + SumUnfolded(items, folded) <= MAX_INT64
    ensures AddUnfolded(h, items, folded) == h + SumUnfolded(items, folded) && SumUnfolded(items, folded) >= 0
  {
    if items != [] {
      SumsNonNegative(items[..|items| - 1], folded);
      AddUnfoldedIs(h, items[..|items| - 1], folded);
    }
  }

  lemma {:induction false} SumsNonNegative(items: seq<Item>, folded: set<Pair>)
    requires forall i :: 0 <= i < |items| ==> items[i].count > 0
    ensures SumUnfolded(items, folded) >= 0 && SumDisguised(items, folded) >= 0
    ensures SumDisguised(items, folded) > 0 <==> exists i :: 0 <= i < |items| && (items[i].a, items[i].b) in folded && Plain(items[i])
  {
    if items != [] {
      var front := items[..|items| - 1];
      SumsNonNegative(front, folded);
      assert forall i :: 0 <= i < |front| ==> front[i] == items[i];
      var x := items[|items| - 1];
      if (x.a, x.b) in folded && Plain(x) { assert items[|items| - 1] == x; }
      hide Plain;
    }
  }

  lemma {:induction false} SumUnfoldedConcat(a: seq<Item>, b: seq<Item>, folded: set<Pair>)
    ensures SumUnfolded(a + b, folded) == SumUnfolded(a, folded) + SumUnfolded(b, folded)
  {
    if b == [] {
      assert a + b == a;
    } else {
      assert (a + b)[..|a + b| - 1] == a + b[..|b| - 1];
      SumUnfoldedConcat(a, b[..|b| - 1], folded);
    }
  }

  lemma {:induction false} ShownSum(items: seq<Item>, folded: set<Pair>)
    requires forall i :: 0 <= i < |items| && (items[i].a, items[i].b) !in folded ==> Plain(items[i])
    ensures SumShown(AsEdges(items)) == SumUnfolded(items, folded) + SumDisguised(items, folded)
  {
    if items != [] {
      var n := |items| - 1;
      ShownSum(items[..n], folded);
      assert AsEdges(items)[..n] == AsEdges(items[..n]);
      assert (items[n].a, items[n].b) !in folded ==> Plain(items[n]);
    }
  }

  lemma KeptAreNodes(valid: seq<Transition>, maxNodes: nat)
    requires AllValid(valid) && maxNodes >= 2
    ensures OTHER_NODE !in Names(KeptItems(valid, maxNodes))
    ensures forall x :: x in Elements(Ranked(valid)) ==> x.b == "" && ValidNode(x.a) && x.a in NodeMap(valid) && x.count == NodeMap(valid)[x.a]
  {
    var ranked := Ranked(valid);
    InOrderIsSorted(NodeItems(NodeMap(valid)));
    forall id | id in NodeMap(valid) ensures ValidNode(id) { NodeIsValid(valid, id); }
    OtherIsNoNode();
    hide ValidNode, NodeMap, InOrder, Sorted;
    forall i | 0 <= i < |KeptItems(valid, maxNodes)| ensures KeptItems(valid, maxNodes)[i].a != OTHER_NODE {
      assert KeptItems(valid, maxNodes)[i] == ranked[i] && ranked[i] in Elements(ranked);
    }
  }

  lemma {:induction false} NodeIsValid(ts: seq<Transition>, id: string)
    requires AllValid(ts) && id in NodeMap(ts)
    ensures ValidNode(id)
  {
    hide ValidNode;
    var front, t := ts[..|ts| - 1], ts[|ts| - 1];
    assert IsValid(t);
    if id in NodeMap(front) { NodeIsValid(front, id); }
  }

  lemma EdgeCountsPositive(valid: seq<Transition>, maxNodes: nat)
    requires AllPositive(valid) && maxNodes >= 2
    ensures forall i :: 0 <= i < |AllEdges(valid, maxNodes)| ==> AllEdges(valid, maxNodes)[i].count > 0
  {
    var kept := Names(KeptItems(valid, maxNodes));
    var m := EdgeMap(valid, kept);
    var all := AllEdges(valid, maxNodes);
    InOrderIsSorted(EdgeItems(m));
    hide InOrder, KeptItems, Sorted, EdgeMap;
    forall i | 0 <= i < |all| ensures all[i].count > 0 {
      assert all[i] in Elements(all);
      ItemEntry(m, all[i]);
      EdgeMapIs(valid, kept, (all[i].a, all[i].b));
      CapPositive(Total(valid, EdgeW(kept, (all[i].a, all[i].b))));
    }
  }

  lemma CapPositive(n: nat)
    requires n > 0
    ensures Cap(n) > 0
  {
    assert MAX_INT64 >= 1 by { Pow2Monotone(1, 63); }
  }

  // ---------------------------------------------------------------- names that hold a NUL

  lemma {:induction false} MethodLetters(s: string)
    ensures forall i :: 0 <= i < MethodLength(s) ==> 'A' <= s[i] <= 'Z'
  {
    if s != [] && 'A' <= s[0] <= 'Z' { MethodLetters(s[1..]); }
  }

  /** A node name has one blank, after its method. */
  lemma NodeShape(s: string)
    ensures ValidNode(s) ==>
            var n := MethodLength(s);
            && 1 <= n < |s| && s[n] == ' '
            && (forall i :: 0 <= i < n ==> 'A' <= s[i] <= 'Z') && (forall i :: n < i < |s| ==> s[i] != ' ')
  {
    MethodLetters(s);
    hide MethodLength, Utf8Length;
    forall i | MethodLength(s) < i < |s| && ValidNode(s) ensures s[i] != ' ' {
      assert i > MethodLength(s) + 1 ==> PathChar(s[i]);
    }
  }

  /** What follows a NUL in a node name, joined with another name, is no node name. */
  lemma TailIsNoNode(from: string, k: nat, to: string)
    requires ValidNode(from) && k < |from| && from[k] == '\0'
    ensures var tail := JoinKey(from[k + 1..], to); !ValidNode(tail) && tail != OTHER_NODE
    ensures k > 0 && from[..k] != OTHER_NODE
  {
    var tail := JoinKey(from[k + 1..], to);
    var r, n := |from| - k - 1, MethodLength(tail);
    NodeShape(from);
    NodeShape(tail);
    assert tail[r] == '\0';
    hide ValidNode, MethodLength;
    assert n < r ==> tail[n] == from[k + 1 + n];
    assert forall i :: 0 <= i < |OTHER_NODE| ==> OTHER_NODE[i] != '\0';
    assert from[..k][0] == from[0] && OTHER_NODE[0] == '(';
  }

  predicate IsName(s: string) {
    ValidNode(s) || s == OTHER_NODE
  }

  lemma OtherHasNoNul()
    ensures '\0' !in OTHER_NODE
  {
  }

  /** Joining is one to one on names, NULs included. */
  lemma KeysDiffer(f1: string, t1: string, f2: string, t2: string)
    requires IsName(f1) && IsName(t1) && IsName(f2) && IsName(t2) && JoinKey(f1, t1) == JoinKey(f2, t2)
    ensures f1 == f2 && t1 == t2
  {
    if |f1| > |f2| {
      LongerSource(f1, t1, f2, t2);
    } else if |f2| > |f1| {
      LongerSource(f2, t2, f1, t1);
    } else {
      var key := JoinKey(f1, t1);
      assert f1 == key[..|f1|] && f2 == key[..|f2|] && t1 == key[|f1| + 1..] && t2 == key[|f2| + 1..];
    }
  }

  lemma LongerSource(f1: string, t1: string, f2: string, t2: string)
    requires IsName(f1) && IsName(t2) && JoinKey(f1, t1) == JoinKey(f2, t2)
    ensures |f1| <= |f2|
  {
    if |f1| > |f2| {
      var key := JoinKey(f1, t1);
      assert key[|f2|] == '\0' && f1[|f2|] == key[|f2|];
      OtherHasNoNul();
      assert t2 == JoinKey(f2, t2)[|f2| + 1..];
      assert t2 == JoinKey(f1[|f2| + 1..], t1);
      TailIsNoNode(f1, |f2|, t1);
      assert false;
    }
  }

  /** The source name of the transition is displayed and holds a NUL, so its key is split inside
      the name. */
  predicate CutsName(t: Transition, kept: set<string>) {
    t.from in kept && '\0' in t.from
  }

  /** The edge of a transition carries its shown names, unless its source name is cut; then its
      ends are no node names. */
  lemma EdgeNames(t: Transition, kept: set<string>)
    requires IsValid(t) && OTHER_NODE !in kept
    ensures var p := EdgeOf(t, kept);
            if CutsName(t, kept) then !ValidNode(p.1) && p.1 != OTHER_NODE && p.0 != OTHER_NODE
            else p == (Shown(t.from, kept), Shown(t.to, kept))
  {
    var from, to := Shown(t.from, kept), Shown(t.to, kept);
    var p := EdgeOf(t, kept);
    hide ValidNode;
    OtherHasNoNul();
    KeyRoundTrip(from, to);
    if CutsName(t, kept) {
      NulInKey(from, to);
      SplitJoin(JoinKey(from, to));
      var key, k := JoinKey(from, to), |p.0|;
      assert key == JoinKey(p.0, p.1) && k < |from|;
      assert from[k] == key[k] && p.0 == key[..k] && p.1 == key[k + 1..];
      assert from[..k] == p.0 && JoinKey(from[k + 1..], to) == p.1;
      TailIsNoNode(from, k, to);
    }
  }

  lemma ShownIsName(t: Transition, kept: set<string>)
    requires IsValid(t) && OTHER_NODE !in kept
    ensures IsName(Shown(t.from, kept)) && IsName(Shown(t.to, kept))
    ensures IsHidden(t, kept) <==> Shown(t.from, kept) == OTHER_NODE || Shown(t.to, kept) == OTHER_NODE
  {
    OtherIsNoNode();
    hide ValidNode;
  }

  /** Transitions with the same edge agree on whether an end was folded. */
  lemma SameEdge(t: Transition, u: Transition, kept: set<string>)
    requires IsValid(t) && IsValid(u) && OTHER_NODE !in kept && EdgeOf(t, kept) == EdgeOf(u, kept)
    ensures IsHidden(t, kept) <==> IsHidden(u, kept)
    ensures Shown(t.from, kept) == Shown(u.from, kept) && Shown(t.to, kept) == Shown(u.to, kept)
  {
    var ft, tt, fu, tu := Shown(t.from, kept), Shown(t.to, kept), Shown(u.from, kept), Shown(u.to, kept);
    ShownIsName(t, kept);
    ShownIsName(u, kept);
    hide IsName, IsHidden, Shown;
    NulInKey(ft, tt);
    NulInKey(fu, tu);
    SplitJoin(JoinKey(ft, tt));
    SplitJoin(JoinKey(fu, tu));
    KeysDiffer(ft, tt, fu, tu);
  }

  lemma {:induction false} FoldedSource(ts: seq<Transition>, kept: set<string>, p: Pair) returns (t: Transition)
    requires p in FoldedEdges(ts, kept)
    ensures t in ts && IsHidden(t, kept) && EdgeOf(t, kept) == p
  {
    t := ts[|ts| - 1];
    if !(IsHidden(t, kept) && EdgeOf(t, kept) == p) {
      t := FoldedSource(ts[..|ts| - 1], kept, p);
    }
  }

  lemma {:induction false} FoldedHas(ts: seq<Transition>, kept: set<string>, i: nat)
    requires i < |ts| && IsHidden(ts[i], kept)
    ensures EdgeOf(ts[i], kept) in FoldedEdges(ts, kept)
  {
    hide EdgeOf, IsHidden;
    if i < |ts| - 1 { FoldedHas(ts[..|ts| - 1], kept, i); }
  }

  lemma FoldedSeparates(ts: seq<Transition>, kept: set<string>)
    requires AllValid(ts) && OTHER_NODE !in kept
    ensures Separates(ts, kept, FoldedEdges(ts, kept))
  {
    hide EdgeOf, IsHidden, FoldedEdges, IsValid;
    forall i | 0 <= i < |ts| ensures EdgeOf(ts[i], kept) in FoldedEdges(ts, kept) <==> IsHidden(ts[i], kept) {
      if IsHidden(ts[i], kept) { FoldedHas(ts, kept, i); }
      if EdgeOf(ts[i], kept) in FoldedEdges(ts, kept) {
        var t := FoldedSource(ts, kept, EdgeOf(ts[i], kept));
        SameEdge(t, ts[i], kept);
      }
    }
  }

  // ---------------------------------------------------------------- conservation

  ghost predicate Displays(g: Graph, p: Pair) {
    exists i :: 0 <= i < |g.edges| && (g.edges[i].from, g.edges[i].to) == p
  }

  ghost function KeptNamesOf(ts: seq<Transition>, maxNodes: nat): set<string>
    requires maxNodes >= 2
  {
    Names(KeptItems(Valid(ts), maxNodes))
  }

  /** A displayed edge comes from a transition whose source name is cut at a NUL. */
  ghost predicate ShowsCutName(ts: seq<Transition>, maxNodes: nat, maxEdges: nat)
    requires maxNodes >= 2 && maxEdges >= 1
  {
    var kept := KeptNamesOf(ts, maxNodes);
    exists t :: t in Valid(ts) && CutsName(t, kept) && Displays(GraphOf(ts, maxNodes, maxEdges), EdgeOf(t, kept))
  }

  /** And its target was folded, so that the edge does not show that it is hidden traffic. */
  ghost predicate ShowsHidden(ts: seq<Transition>, maxNodes: nat, maxEdges: nat)
    requires maxNodes >= 2 && maxEdges >= 1
  {
    var kept := KeptNamesOf(ts, maxNodes);
    exists t :: t in Valid(ts) && CutsName(t, kept) && t.to !in kept && Displays(GraphOf(ts, maxNodes, maxEdges), EdgeOf(t, kept))
  }

  /** No valid transition starts at a name that holds a NUL. */
  ghost predicate NulFree(ts: seq<Transition>) {
    forall t :: t in Valid(ts) ==> '\0' !in t.from
  }

  /** An edge neither of whose ends is called "(other)": unfolded, or disguised by a cut name. */
  lemma PlainIff(valid: seq<Transition>, kept: set<string>, t: Transition, x: Item)
    requires AllValid(valid) && OTHER_NODE !in kept && t in valid && EdgeOf(t, kept) == (x.a, x.b)
    ensures (x.a, x.b) in FoldedEdges(valid, kept) <==> IsHidden(t, kept)
    ensures Plain(x) <==> !IsHidden(t, kept) || CutsName(t, kept)
    ensures IsHidden(t, kept) && CutsName(t, kept) <==> CutsName(t, kept) && t.to !in kept
  {
    var i :| 0 <= i < |valid| && valid[i] == t;
    assert IsValid(valid[i]);
    hide EdgeOf, FoldedEdges, AllValid, IsValid;
    FoldedSeparates(valid, kept);
    EdgeNames(t, kept);
    ShownIsName(t, kept);
  }

  lemma ShownItem(ts: seq<Transition>, maxNodes: nat, maxEdges: nat, i: nat) returns (t: Transition)
    requires maxNodes >= 2 && maxEdges >= 1
    requires i < |Cut(AllEdges(Valid(ts), maxNodes), maxEdges)|
    ensures var x := Cut(AllEdges(Valid(ts), maxNodes), maxEdges)[i];
            t in Valid(ts) && EdgeOf(t, KeptNamesOf(ts, maxNodes)) == (x.a, x.b)
  {
    var valid := Valid(ts);
    var all := AllEdges(valid, maxNodes);
    var m := EdgeMap(valid, KeptNamesOf(ts, maxNodes));
    AllEdgesAre(valid, maxNodes);
    hide AllEdges, Valid, KeptItems, EdgeMap, EdgeOf, Sorted;
    Listed(all, i);
    ItemEntry(m, all[i]);
    t := PairSource(valid, KeptNamesOf(ts, maxNodes), (all[i].a, all[i].b));
  }

  /** The balance of the displayed graph: displayed and hidden traffic are all the valid traffic,
      plus what is shown although it is hidden. */
  lemma GraphBalance(ts: seq<Transition>, maxNodes: nat, maxEdges: nat)
    requires maxNodes >= 2 && maxEdges >= 1 && Total(Valid(ts), TrafficW()) <= MAX_INT64
    ensures var g := GraphOf(ts, maxNodes, maxEdges);
            var shown := Cut(AllEdges(Valid(ts), maxNodes), maxEdges);
            var folded := FoldedEdges(Valid(ts), KeptNamesOf(ts, maxNodes));
            && SumShown(g.edges) + g.hidden == Total(Valid(ts), TrafficW()) + SumDisguised(shown, folded)
            && g.edges == AsEdges(shown)
            && (SumDisguised(shown, folded) > 0 <==> exists i :: 0 <= i < |shown| && (shown[i].a, shown[i].b) in folded && Plain(shown[i]))
            && SumDisguised(shown, folded) >= 0
  {
    hide *;
    var valid := Valid(ts);
    ValidIsValid(ts);
    KeptAreNodes(valid, maxNodes);
    KeptNamesAre(ts, maxNodes);
    EdgeCountsPositive(valid, maxNodes);
    var kept := KeptNamesOf(ts, maxNodes);
    var folded := FoldedEdges(valid, kept);
    var all := AllEdges(valid, maxNodes);
    var shown := Cut(all, maxEdges);
    FoldedSeparates(valid, kept);
    EdgesBalance(valid, kept, folded);
    AllEdgesAre(valid, maxNodes);
    ListedSum(all, EdgeMap(valid, kept), folded);
    HiddenAndShown(ts, maxNodes, maxEdges);
    var rest := all[|shown|..];
    SumUnfoldedConcat(shown, rest, folded);
    SumsNonNegative(shown, folded);
    AddUnfoldedIs(HiddenSum(valid, kept), rest, folded);
    forall i | 0 <= i < |shown| && (shown[i].a, shown[i].b) !in folded ensures Plain(shown[i]) {
      var t := ShownItem(ts, maxNodes, maxEdges, i);
      PlainIff(valid, kept, t, shown[i]);
    }
    ShownSum(shown, folded);
  }

  lemma KeptNamesAre(ts: seq<Transition>, maxNodes: nat)
    requires maxNodes >= 2
    ensures KeptNamesOf(ts, maxNodes) == Names(KeptItems(Valid(ts), maxNodes))
  {
  }

  lemma DisplaysAt(g: Graph, shown: seq<Item>, p: Pair)
    requires g.edges == AsEdges(shown)
    ensures Displays(g, p) <==> exists i :: 0 <= i < |shown| && (shown[i].a, shown[i].b) == p
  {
    assert forall i :: 0 <= i < |shown| ==> (g.edges[i].from, g.edges[i].to) == (shown[i].a, shown[i].b);
    hide AsEdges;
  }

  /** Traffic is conserved if and only if no displayed edge runs from a name that holds a NUL to
      a folded one: then what the displayed edges between displayed nodes carry, plus what is
      reported as hidden, is everything valid that was put in. */
  lemma GraphConserves(ts: seq<Transition>, maxNodes: nat, maxEdges: nat)
    requires maxNodes >= 2 && maxEdges >= 1 && Total(Valid(ts), TrafficW()) <= MAX_INT64
    ensures var g := GraphOf(ts, maxNodes, maxEdges);
            && (SumShown(g.edges) + g.hidden == Total(Valid(ts), TrafficW()) <==> !ShowsHidden(ts, maxNodes, maxEdges))
            && SumShown(g.edges) + g.hidden >= Total(Valid(ts), TrafficW())
            && (NulFree(ts) ==> SumShown(g.edges) + g.hidden == Total(Valid(ts), TrafficW()))
  {
    GraphBalance(ts, maxNodes, maxEdges);
    ShowsHiddenIff(ts, maxNodes, maxEdges);
    hide GraphOf, Valid, AllEdges, FoldedEdges, SumShown, SumDisguised, AsEdges, Total, KeptNamesOf, EdgeOf, Displays, Plain, Cut;
  }

  lemma ShowsHiddenIff(ts: seq<Transition>, maxNodes: nat, maxEdges: nat)
    requires maxNodes >= 2 && maxEdges >= 1
    ensures var shown := Cut(AllEdges(Valid(ts), maxNodes), maxEdges);
            var folded := FoldedEdges(Valid(ts), KeptNamesOf(ts, maxNodes));
            ShowsHidden(ts, maxNodes, maxEdges) <==> exists i :: 0 <= i < |shown| && (shown[i].a, shown[i].b) in folded && Plain(shown[i])
  {
    var valid, kept, g := Valid(ts), KeptNamesOf(ts, maxNodes), GraphOf(ts, maxNodes, maxEdges);
    var shown, folded := Cut(AllEdges(valid, maxNodes), maxEdges), FoldedEdges(valid, kept);
    ValidIsValid(ts);
    KeptAreNodes(valid, maxNodes);
    HiddenAndShown(ts, maxNodes, maxEdges);
    hide GraphOf, Valid, AllEdges, FoldedEdges, AsEdges, EdgeOf, Displays, Plain, Cut, AllValid, CutsName, IsHidden, KeptItems, Ranked;
    if ShowsHidden(ts, maxNodes, maxEdges) {
      var t :| t in valid && CutsName(t, kept) && t.to !in kept && Displays(g, EdgeOf(t, kept));
      DisplaysAt(g, shown, EdgeOf(t, kept));
      var i :| 0 <= i < |shown| && (shown[i].a, shown[i].b) == EdgeOf(t, kept);
      PlainIff(valid, kept, t, shown[i]);
    }
    if i :| 0 <= i < |shown| && (shown[i].a, shown[i].b) in folded && Plain(shown[i]) {
      var t := ShownItem(ts, maxNodes, maxEdges, i);
      PlainIff(valid, kept, t, shown[i]);
      DisplaysAt(g, shown, EdgeOf(t, kept));
    }
  }

  lemma AllEdgesAre(valid: seq<Transition>, maxNodes: nat)
    requires maxNodes >= 2
    ensures var all := AllEdges(valid, maxNodes);
            Sorted(all) && Elements(all) == EdgeItems(EdgeMap(valid, Names(KeptItems(valid, maxNodes))))
  {
    InOrderIsSorted(EdgeItems(EdgeMap(valid, Names(KeptItems(valid, maxNodes)))));
    hide InOrder, KeptItems, EdgeMap, Sorted, Elements;
  }

  lemma HiddenAndShown(ts: seq<Transition>, maxNodes: nat, maxEdges: nat)
    requires maxNodes >= 2 && maxEdges >= 1
    ensures var g := GraphOf(ts, maxNodes, maxEdges);
            var all := AllEdges(Valid(ts), maxNodes);
            var shown := Cut(all, maxEdges);
            && |shown| <= |all| && all == shown + all[|shown|..]
            && g.edges == AsEdges(shown)
            && g.hidden == AddUnfolded(HiddenSum(Valid(ts), KeptNamesOf(ts, maxNodes)), all[|shown|..], FoldedEdges(Valid(ts), KeptNamesOf(ts, maxNodes)))
  {
    hide Valid, AllEdges, Ranked, KeptItems, NodeMap, Nodes, HiddenSum, AddUnfolded, FoldedEdges, AsEdges, Names;
  }

  // ---------------------------------------------------------------- caps and endpoints

  lemma {:induction false} VisibleNodesAre(items: seq<Item>, visible: map<string, int>)
    ensures var ns := VisibleNodes(items, visible);
            && |ns| <= |items|
            && (forall i :: 0 <= i < |ns| ==> ns[i].id in Names(items) && ns[i].count == Get(visible, ns[i].id) > 0)
            && (forall i :: 0 <= i < |items| && Get(visible, items[i].a) > 0 ==>
                 Node(items[i].a, Get(visible, items[i].a)) in ns)
  {
    if items != [] {
      var front, x := items[..|items| - 1], items[|items| - 1];
      VisibleNodesAre(front, visible);
      var fs, ns := VisibleNodes(front, visible), VisibleNodes(items, visible);
      assert Names(front) <= Names(items);
      assert x.a in Names(items);
      forall i | 0 <= i < |items| && Get(visible, items[i].a) > 0
        ensures Node(items[i].a, Get(visible, items[i].a)) in ns
      {
        if i < |front| {
          assert items[i] == front[i];
          assert Node(front[i].a, Get(visible, front[i].a)) in fs;
        } else {
          assert ns[|ns| - 1] == Node(x.a, Get(visible, x.a));
        }
      }
    }
  }

  /** Both display caps hold. */
  lemma GraphIsBounded(ts: seq<Transition>, maxNodes: int, maxEdges: int)
    ensures var g := GraphOf(ts, ClampNodes(maxNodes), ClampEdges(maxEdges));
            && |g.nodes| <= ClampNodes(maxNodes) <= HARD_MAX_NODES
            && |g.edges| <= ClampEdges(maxEdges) <= HARD_MAX_EDGES
  {
    var mn, me := ClampNodes(maxNodes), ClampEdges(maxEdges);
    var valid := Valid(ts);
    var kept := KeptItems(valid, mn);
    var visible := NodeMap(AsEdges(Cut(AllEdges(valid, mn), me)));
    VisibleNodesAre(kept, visible);
    assert |kept| == KeepCount(|Ranked(valid)|, mn);
    hide Valid, AllEdges, Ranked, KeptItems, NodeMap, VisibleNodes;
  }

  /** Both ends of every displayed edge are displayed nodes, each with its weighted degree. */
  ghost predicate Closed(g: Graph) {
    forall e :: e in g.edges ==>
      && Node(e.from, Cap(Total(g.edges, DegreeW(e.from)))) in g.nodes
      && Node(e.to, Cap(Total(g.edges, DegreeW(e.to)))) in g.nodes
  }

  /** Each displayed node shows its weighted degree in the displayed graph; and each end of a
      displayed edge is a displayed node if and only if no displayed edge comes from a name that
      holds a NUL. */
  lemma GraphIsClosed(ts: seq<Transition>, maxNodes: nat, maxEdges: nat)
    requires maxNodes >= 2 && maxEdges >= 1
    ensures var g := GraphOf(ts, maxNodes, maxEdges);
            && (forall i :: 0 <= i < |g.nodes| ==> g.nodes[i].count == Cap(Total(g.edges, DegreeW(g.nodes[i].id))) > 0)
            && (Closed(g) <==> !ShowsCutName(ts, maxNodes, maxEdges))
            && (NulFree(ts) ==> Closed(g))
  {
    NodesHaveDegrees(ts, maxNodes, maxEdges);
    var g, kept := GraphOf(ts, maxNodes, maxEdges), KeptNamesOf(ts, maxNodes);
    hide GraphOf, Valid, KeptNamesOf, EdgeOf, Displays, DegreeW;
    if ShowsCutName(ts, maxNodes, maxEdges) {
      var t :| t in Valid(ts) && CutsName(t, kept) && Displays(g, EdgeOf(t, kept));
      CutEndIsNoNode(ts, maxNodes, maxEdges, t);
    } else {
      forall e | e in g.edges
        ensures Node(e.from, Cap(Total(g.edges, DegreeW(e.from)))) in g.nodes
        ensures Node(e.to, Cap(Total(g.edges, DegreeW(e.to)))) in g.nodes
      {
        EdgeIsClosed(ts, maxNodes, maxEdges, e);
      }
    }
  }

  lemma NodesHaveDegrees(ts: seq<Transition>, maxNodes: nat, maxEdges: nat)
    requires maxNodes >= 2 && maxEdges >= 1
    ensures var g := GraphOf(ts, maxNodes, maxEdges);
            forall i :: 0 <= i < |g.nodes| ==> g.nodes[i].count == Cap(Total(g.edges, DegreeW(g.nodes[i].id))) > 0
  {
    hide *;
    var g := GraphOf(ts, maxNodes, maxEdges);
    GraphParts(ts, maxNodes, maxEdges);
    forall i | 0 <= i < |g.nodes| ensures g.nodes[i].count == Cap(Total(g.edges, DegreeW(g.nodes[i].id))) > 0 {
      NodesShowVisible(KeptItems(Valid(ts), maxNodes), |Ranked(Valid(ts))| > maxNodes, NodeMap(g.edges), i);
      NodeMapIs(g.edges, g.nodes[i].id);
    }
  }

  /** Without cut names, a displayed edge has displayed ends. */
  lemma EdgeIsClosed(ts: seq<Transition>, maxNodes: nat, maxEdges: nat, e: Transition)
    requires maxNodes >= 2 && maxEdges >= 1 && !ShowsCutName(ts, maxNodes, maxEdges) && e in GraphOf(ts, maxNodes, maxEdges).edges
    ensures var g := GraphOf(ts, maxNodes, maxEdges);
            && Node(e.from, Cap(Total(g.edges, DegreeW(e.from)))) in g.nodes
            && Node(e.to, Cap(Total(g.edges, DegreeW(e.to)))) in g.nodes
  {
    hide *;
    var g := GraphOf(ts, maxNodes, maxEdges);
    var kept := KeptItems(Valid(ts), maxNodes);
    var needsOther := |Ranked(Valid(ts))| > maxNodes;
    GraphParts(ts, maxNodes, maxEdges);
    EdgeEnds(ts, maxNodes, maxEdges, e);
    EndHasDegree(g.edges, e);
    NodeMapIs(g.edges, e.from);
    NodeMapIs(g.edges, e.to);
    NodeListed(kept, needsOther, NodeMap(g.edges), e.from);
    NodeListed(kept, needsOther, NodeMap(g.edges), e.to);
  }

  /** Every displayed node is a kept one or "(other)". */
  lemma DisplayedAreNames(ts: seq<Transition>, maxNodes: nat, maxEdges: nat)
    requires maxNodes >= 2 && maxEdges >= 1
    ensures forall n :: n in GraphOf(ts, maxNodes, maxEdges).nodes ==> IsName(n.id)
  {
    hide *;
    var valid, g := Valid(ts), GraphOf(ts, maxNodes, maxEdges);
    ValidIsValid(ts);
    KeptAreNodes(valid, maxNodes);
    GraphParts(ts, maxNodes, maxEdges);
    forall n | n in g.nodes ensures IsName(n.id) {
      ListedName(valid, maxNodes, NodeMap(g.edges), |Ranked(valid)| > maxNodes, n);
    }
  }

  lemma ListedName(valid: seq<Transition>, maxNodes: nat, visible: map<string, int>, other: bool, n: Node)
    requires maxNodes >= 2 && n in Nodes(KeptItems(valid, maxNodes), other, visible)
    requires forall x :: x in Elements(Ranked(valid)) ==> ValidNode(x.a)
    ensures IsName(n.id)
  {
    var kept := KeptItems(valid, maxNodes);
    VisibleNodesAre(kept, visible);
    hide KeptItems, Ranked, ValidNode, VisibleNodes;
    if n.id != OTHER_NODE {
      var i :| 0 <= i < |kept| && kept[i].a == n.id;
      KeptIsRanked(valid, maxNodes, i);
    }
  }

  lemma KeptIsRanked(valid: seq<Transition>, maxNodes: nat, i: nat)
    requires maxNodes >= 2 && i < |KeptItems(valid, maxNodes)|
    ensures KeptItems(valid, maxNodes)[i] in Elements(Ranked(valid))
  {
    hide Ranked;
    assert KeptItems(valid, maxNodes)[i] == Ranked(valid)[i];
  }

  lemma CutEndIsNoNode(ts: seq<Transition>, maxNodes: nat, maxEdges: nat, t: Transition)
    requires maxNodes >= 2 && maxEdges >= 1
    requires var kept := KeptNamesOf(ts, maxNodes);
             t in Valid(ts) && CutsName(t, kept) && Displays(GraphOf(ts, maxNodes, maxEdges), EdgeOf(t, kept))
    ensures !Closed(GraphOf(ts, maxNodes, maxEdges))
  {
    var g, kept := GraphOf(ts, maxNodes, maxEdges), KeptNamesOf(ts, maxNodes);
    ValidIsValid(ts);
    KeptAreNodes(Valid(ts), maxNodes);
    KeptNamesAre(ts, maxNodes);
    DisplayedAreNames(ts, maxNodes, maxEdges);
    var k :| 0 <= k < |Valid(ts)| && Valid(ts)[k] == t;
    assert IsValid(Valid(ts)[k]);
    hide GraphOf, Valid, KeptNamesOf, KeptItems, EdgeOf, DegreeW, ValidNode, CutsName, Ranked, Total;
    EdgeNames(t, kept);
    var i :| 0 <= i < |g.edges| && (g.edges[i].from, g.edges[i].to) == EdgeOf(t, kept);
    var e := g.edges[i];
    assert e in g.edges && !IsName(e.to);
    assert Closed(g) ==> Node(e.to, Cap(Total(g.edges, DegreeW(e.to)))) in g.nodes;
  }

  lemma GraphParts(ts: seq<Transition>, maxNodes: nat, maxEdges: nat)
    requires maxNodes >= 2 && maxEdges >= 1
    ensures var g := GraphOf(ts, maxNodes, maxEdges);
            && AllPositive(g.edges)
            && g.nodes == Nodes(KeptItems(Valid(ts), maxNodes), |Ranked(Valid(ts))| > maxNodes, NodeMap(g.edges))
  {
    ValidIsValid(ts);
    EdgeCountsPositive(Valid(ts), maxNodes);
    hide Valid, AllEdges, Ranked, KeptItems, NodeMap, Nodes;
  }

  lemma NodesShowVisible(kept: seq<Item>, other: bool, visible: map<string, int>, i: nat)
    requires i < |Nodes(kept, other, visible)|
    ensures var n := Nodes(kept, other, visible)[i]; n.count == Get(visible, n.id) > 0
  {
    VisibleNodesAre(kept, visible);
  }

  lemma NodeListed(kept: seq<Item>, other: bool, visible: map<string, int>, id: string)
    requires Get(visible, id) > 0 && (id in Names(kept) || (id == OTHER_NODE && other))
    ensures Node(id, Get(visible, id)) in Nodes(kept, other, visible)
  {
    VisibleNodesAre(kept, visible);
    var ns := Nodes(kept, other, visible);
    if id in Names(kept) {
      var i :| 0 <= i < |kept| && kept[i].a == id;
      var j :| 0 <= j < |VisibleNodes(kept, visible)| && VisibleNodes(kept, visible)[j] == Node(id, Get(visible, id));
      assert ns[j] == Node(id, Get(visible, id));
    } else {
      assert ns[|ns| - 1] == Node(id, Get(visible, id));
    }
  }

  lemma EndHasDegree(edges: seq<Transition>, e: Transition)
    requires AllPositive(edges) && e in edges
    ensures Get(NodeMap(edges), e.from) > 0 && Get(NodeMap(edges), e.to) > 0
  {
    var i :| 0 <= i < |edges| && edges[i] == e;
    TotalRemove(edges, i, DegreeW(e.from));
    TotalRemove(edges, i, DegreeW(e.to));
    NodeMapIs(edges, e.from);
    NodeMapIs(edges, e.to);
    CapPositive(Total(edges, DegreeW(e.from)));
    CapPositive(Total(edges, DegreeW(e.to)));
  }

  /** A displayed edge joins kept nodes, or "(other)" where a node was folded away. */
  lemma EdgeEnds(ts: seq<Transition>, maxNodes: nat, maxEdges: nat, e: Transition)
    requires maxNodes >= 2 && maxEdges >= 1 && e in GraphOf(ts, maxNodes, maxEdges).edges && !ShowsCutName(ts, maxNodes, maxEdges)
    ensures var valid := Valid(ts);
            var kept := Names(KeptItems(valid, maxNodes));
            var needsOther := |Ranked(valid)| > maxNodes;
            (e.from in kept || (e.from == OTHER_NODE && needsOther)) && (e.to in kept || (e.to == OTHER_NODE && needsOther))
  {
    hide *;
    var valid := Valid(ts);
    ValidIsValid(ts);
    KeptAreNodes(valid, maxNodes);
    KeptNamesAre(ts, maxNodes);
    var kept := KeptNamesOf(ts, maxNodes);
    HiddenAndShown(ts, maxNodes, maxEdges);
    var g := GraphOf(ts, maxNodes, maxEdges);
    var i :| 0 <= i < |g.edges| && g.edges[i] == e;
    var t := ShownItem(ts, maxNodes, maxEdges, i);
    NotCut(ts, maxNodes, maxEdges, t, i);
    ValidMember(valid, t);
    EdgeNames(t, kept);
    Ends(t, kept);
    if t.from !in kept { Unkept(valid, maxNodes, t, t.from); }
    if t.to !in kept { Unkept(valid, maxNodes, t, t.to); }
  }

  lemma NotCut(ts: seq<Transition>, maxNodes: nat, maxEdges: nat, t: Transition, i: nat)
    requires maxNodes >= 2 && maxEdges >= 1 && !ShowsCutName(ts, maxNodes, maxEdges)
    requires var g := GraphOf(ts, maxNodes, maxEdges);
             i < |g.edges| && t in Valid(ts) && EdgeOf(t, KeptNamesOf(ts, maxNodes)) == (g.edges[i].from, g.edges[i].to)
    ensures !CutsName(t, KeptNamesOf(ts, maxNodes))
  {
    hide GraphOf, Valid, KeptNamesOf, EdgeOf, CutsName;
    assert Displays(GraphOf(ts, maxNodes, maxEdges), EdgeOf(t, KeptNamesOf(ts, maxNodes)));
  }

  lemma ValidMember(valid: seq<Transition>, t: Transition)
    requires AllValid(valid) && t in valid
    ensures IsValid(t)
  {
  }

  lemma Listed(s: seq<Item>, i: nat)
    requires i < |s|
    ensures s[i] in Elements(s)
  {
  }

  lemma Ends(t: Transition, kept: set<string>)
    ensures Shown(t.from, kept) == (if t.from in kept then t.from else OTHER_NODE)
    ensures Shown(t.to, kept) == (if t.to in kept then t.to else OTHER_NODE)
  {
  }

  lemma {:induction false} PairSource(ts: seq<Transition>, kept: set<string>, p: Pair) returns (t: Transition)
    requires p in EdgeMap(ts, kept)
    ensures t in ts && EdgeOf(t, kept) == p
  {
    t := ts[|ts| - 1];
    if EdgeOf(t, kept) != p {
      t := PairSource(ts[..|ts| - 1], kept, p);
    }
  }

  /** A node that was not kept is one too many. */
  lemma Unkept(valid: seq<Transition>, maxNodes: nat, t: Transition, id: string)
    requires AllPositive(valid) && maxNodes >= 2 && t in valid && (id == t.from || id == t.to)
    requires id !in Names(KeptItems(valid, maxNodes))
    ensures |Ranked(valid)| > maxNodes
  {
    var m := NodeMap(valid);
    var ranked := Ranked(valid);
    EndHasDegree(valid, t);
    assert Item(m[id], id, "") in NodeItems(m);
    InOrderIsSorted(NodeItems(m));
    hide InOrder, NodeMap, Sorted, KeptItems;
    var i :| 0 <= i < |ranked| && ranked[i] == Item(m[id], id, "");
    assert ranked[i].a in Names(ranked);
    KeepsAll(valid, maxNodes);
  }

  lemma KeepsAll(valid: seq<Transition>, maxNodes: nat)
    requires maxNodes >= 2
    ensures |Ranked(valid)| <= maxNodes ==> KeptItems(valid, maxNodes) == Ranked(valid)
  {
    hide Ranked;
  }

  // ---------------------------------------------------------------- graphs within their caps

  lemma {:induction false} KeysBounded(ts: seq<Transition>, kept: set<string>)
    ensures |EdgeMap(ts, kept)| <= |ts| && |NodeMap(ts)| <= 2 * |ts|
  {
    if ts != [] {
      var front, t := ts[..|ts| - 1], ts[|ts| - 1];
      KeysBounded(front, kept);
      hide EdgeOf;
      OneMore(EdgeMap(front, kept), EdgeOf(t, kept), SaturatingAdd(Get(EdgeMap(front, kept), EdgeOf(t, kept)), t.count));
      var m := AddTo(NodeMap(front), t.from, t.count);
      OneMore(NodeMap(front), t.from, SaturatingAdd(Get(NodeMap(front), t.from), t.count));
      OneMore(m, t.to, SaturatingAdd(Get(m, t.to), t.count));
    }
  }

  lemma OneMore<K>(m: map<K, int>, k: K, v: int)
    ensures |m[k := v]| <= |m| + 1
  {
    assert m[k := v].Keys == m.Keys + {k};
    assert |m[k := v]| == |m[k := v].Keys| && |m| == |m.Keys|;
  }

  lemma {:induction false} NodeItemCount(m: map<string, int>)
    ensures |NodeItems(m)| == |m|
    decreases |m|
  {
    if m == map[] {
      assert NodeItems(m) == {};
    } else {
      var k :| k in m;
      var rest := m - {k};
      NodeItemCount(rest);
      assert m == rest[k := m[k]];
      assert NodeItems(m) == NodeItems(rest) + {Item(m[k], k, "")} by {
        forall x | x in NodeItems(rest) ensures x in NodeItems(m) { assert x.a in m && m[x.a] == x.count; }
      }
      assert Item(m[k], k, "") !in NodeItems(rest);
      assert |m| == |m.Keys| && m.Keys == rest.Keys + {k} && |rest| == |rest.Keys|;
    }
  }

  lemma {:induction false} EdgeItemCount(m: map<Pair, int>)
    ensures |EdgeItems(m)| == |m|
    decreases |m|
  {
    if m == map[] {
      assert EdgeItems(m) == {};
    } else {
      var p :| p in m;
      EdgeItemCount(m - {p});
      ItemsWithout(m, p);
      var x := Item(m[p], p.0, p.1);
      assert x in EdgeItems(m) by { assert (x.a, x.b) in m; }
      assert EdgeItems(m) == EdgeItems(m - {p}) + {x};
      assert |m| == |m.Keys| && m.Keys == (m - {p}).Keys + {p} && |m - {p}| == |(m - {p}).Keys|;
    }
  }

  lemma EdgesBounded(valid: seq<Transition>, maxNodes: nat)
    requires maxNodes >= 2
    ensures |AllEdges(valid, maxNodes)| <= |valid| && |Ranked(valid)| <= 2 * |valid| && |Ranked(valid)| == |NodeMap(valid)|
  {
    var kept := Names(KeptItems(valid, maxNodes));
    KeysBounded(valid, kept);
    EdgeItemCount(EdgeMap(valid, kept));
    NodeItemCount(NodeMap(valid));
    InOrderIsSorted(EdgeItems(EdgeMap(valid, kept)));
    InOrderIsSorted(NodeItems(NodeMap(valid)));
    hide EdgeMap, NodeMap, EdgeItems, NodeItems, InOrder, Sorted, Elements;
  }

  /** Within the edge cap every valid transition's edge is displayed. */
  lemma AllDisplayed(ts: seq<Transition>, maxNodes: nat, maxEdges: nat, t: Transition)
    requires maxNodes >= 2 && maxEdges >= 1 && |Valid(ts)| <= maxEdges && t in Valid(ts)
    ensures Displays(GraphOf(ts, maxNodes, maxEdges), EdgeOf(t, KeptNamesOf(ts, maxNodes)))
  {
    var valid, kept, g := Valid(ts), KeptNamesOf(ts, maxNodes), GraphOf(ts, maxNodes, maxEdges);
    var all := AllEdges(valid, maxNodes);
    var p := EdgeOf(t, kept);
    ValidIsValid(ts);
    EdgesBounded(valid, maxNodes);
    HiddenAndShown(ts, maxNodes, maxEdges);
    AllEdgesAre(valid, maxNodes);
    hide GraphOf, Valid, AllEdges, KeptItems, EdgeMap, EdgeOf, Sorted, Displays, Ranked, AsEdges;
    HasEdge(valid, kept, t);
    var m := EdgeMap(valid, kept);
    assert Item(m[p], p.0, p.1) in EdgeItems(m);
    var i :| 0 <= i < |all| && all[i] == Item(m[p], p.0, p.1);
    DisplaysAt(g, all, p);
  }

  lemma {:induction false} HasEdge(ts: seq<Transition>, kept: set<string>, t: Transition)
    requires t in ts
    ensures EdgeOf(t, kept) in EdgeMap(ts, kept)
  {
    hide EdgeOf;
    if t != ts[|ts| - 1] {
      assert t in ts[..|ts| - 1];
      HasEdge(ts[..|ts| - 1], kept, t);
    }
  }

  /** Within both caps the graph is closed if and only if no valid transition starts at a name
      that holds a NUL. */
  lemma ClosedWithinCaps(ts: seq<Transition>, maxNodes: nat, maxEdges: nat)
    requires maxNodes >= 2 && |NodeMap(Valid(ts))| <= maxNodes && 1 <= maxEdges && |Valid(ts)| <= maxEdges
    ensures Closed(GraphOf(ts, maxNodes, maxEdges)) <==> NulFree(ts)
  {
    GraphIsClosed(ts, maxNodes, maxEdges);
    EdgesBounded(Valid(ts), maxNodes);
    hide GraphOf, Closed, Valid, Displays, EdgeOf, NodeMap, AllEdges;
    if !NulFree(ts) {
      var t :| t in Valid(ts) && '\0' in t.from;
      SourceIsKept(ts, maxNodes, t);
      AllDisplayed(ts, maxNodes, maxEdges, t);
      assert CutsName(t, KeptNamesOf(ts, maxNodes));
    }
  }

  lemma SourceIsKept(ts: seq<Transition>, maxNodes: nat, t: Transition)
    requires maxNodes >= 2 && |Ranked(Valid(ts))| <= maxNodes && t in Valid(ts)
    ensures t.from in KeptNamesOf(ts, maxNodes)
  {
    hide *;
    ValidIsValid(ts);
    KeptNamesAre(ts, maxNodes);
    if t.from !in KeptNamesOf(ts, maxNodes) {
      Unkept(Valid(ts), maxNodes, t, t.from);
    }
  }

  // ---------------------------------------------------------------- a name with a NUL

  lemma {:induction false} AsciiLength(s: string)
    requires forall i :: 0 <= i < |s| ==> s[i] as int < 0x80
    ensures Utf8Length(s) == |s|
  {
    if s != [] { AsciiLength(s[1..]); }
  }

  lemma MethodStep(s: string)
    requires s != []
    ensures MethodLength(s) == if 'A' <= s[0] <= 'Z' then 1 + MethodLength(s[1..]) else 0
  {
  }

  lemma GetPrefix(path: string)
    ensures MethodLength("GET /" + path) == 3
  {
    var s := "GET /" + path;
    assert s[1..] == "ET /" + path && s[2..] == "T /" + path && s[3..] == " /" + path;
    assert s[1..][1..] == s[2..] && s[2..][1..] == s[3..];
    hide MethodLength;
    MethodStep(s);
    MethodStep(s[1..]);
    MethodStep(s[2..]);
    MethodStep(s[3..]);
  }

  lemma ShortNode(path: string)
    requires |path| <= 100 && forall i :: 0 <= i < |path| ==> PathChar(path[i]) && path[i] as int < 0x80
    ensures ValidNode("GET /" + path)
  {
    var s := "GET /" + path;
    AsciiLength(s);
    GetPrefix(path);
    hide Utf8Length, MethodLength;
    assert forall i :: 5 <= i < |s| ==> s[i] == path[i - 5];
  }

  const NUL_NODE := "GET /" + "a\0b"
  const PLAIN_NODE := "GET /" + "c"
  const LAST_NODE := "GET /" + "d"

  lemma NamesAreNodes()
    ensures ValidNode(NUL_NODE) && ValidNode(PLAIN_NODE) && ValidNode(LAST_NODE)
  {
    hide ValidNode;
    ShortNode("a\0b");
    ShortNode("c");
    ShortNode("d");
  }

  lemma NamesDiffer()
    ensures '\0' in NUL_NODE && NUL_NODE != PLAIN_NODE && PLAIN_NODE != LAST_NODE && NUL_NODE != LAST_NODE
  {
    assert NUL_NODE[6] == '\0' && NUL_NODE[5] == 'a' && PLAIN_NODE[5] == 'c' && LAST_NODE[5] == 'd';
  }

  lemma OneValid(t: Transition)
    requires IsValid(t)
    ensures Valid([t]) == [t]
  {
    assert [t][..0] == [];
    hide IsValid;
  }

  lemma TwoValid(t: Transition, u: Transition)
    requires IsValid(t) && IsValid(u)
    ensures Valid([t, u]) == [t, u]
  {
    OneValid(t);
    assert [t, u][..1] == [t];
    hide IsValid;
  }

  /** One accepted transition from a name with a NUL: an end of its edge is no displayed node. */
  lemma NulBreaksClosure(t: Transition)
    requires t == Transition(NUL_NODE, PLAIN_NODE, 1)
    ensures IsValid(t) && !Closed(GraphOf([t], DEFAULT_MAX_NODES, DEFAULT_MAX_EDGES))
  {
    NamesAreNodes();
    NamesDiffer();
    CapsAre();
    hide ValidNode, GraphOf, Closed, NUL_NODE, PLAIN_NODE, LAST_NODE, DEFAULT_MAX_EDGES, DEFAULT_MAX_NODES;
    OneValid(t);
    KeysBounded([t], {});
    ClosedWithinCaps([t], DEFAULT_MAX_NODES, DEFAULT_MAX_EDGES);
  }

  lemma CapsAre()
    ensures DEFAULT_MAX_NODES == 16 && DEFAULT_MAX_EDGES == 48
  {
  }

  /** Two of them, with room for one node besides "(other)": the traffic is counted twice. */
  lemma NulBreaksBalance(t: Transition, u: Transition)
    requires t == Transition(NUL_NODE, PLAIN_NODE, 1) && u == Transition(NUL_NODE, LAST_NODE, 1)
    ensures IsValid(t) && IsValid(u)
    ensures var g := GraphOf([t, u], 2, DEFAULT_MAX_EDGES); SumShown(g.edges) + g.hidden > Total(Valid([t, u]), TrafficW())
  {
    var ts := [t, u];
    NamesAreNodes();
    NamesDiffer();
    CapsAre();
    BothValid(t, u);
    hide *;
    TwoValid(t, u);
    TwoTotal(t, u);
    KeptIsFirst(t, u);
    AllDisplayed(ts, 2, DEFAULT_MAX_EDGES, t);
    GraphConserves(ts, 2, DEFAULT_MAX_EDGES);
    HiddenShown(ts, 2, DEFAULT_MAX_EDGES, t);
  }

  lemma BothValid(t: Transition, u: Transition)
    requires t == Transition(NUL_NODE, PLAIN_NODE, 1) && u == Transition(NUL_NODE, LAST_NODE, 1)
    requires ValidNode(NUL_NODE) && ValidNode(PLAIN_NODE) && ValidNode(LAST_NODE)
    ensures IsValid(t) && IsValid(u) && t.count == u.count == 1
  {
    hide ValidNode;
  }

  lemma HiddenShown(ts: seq<Transition>, maxNodes: nat, maxEdges: nat, t: Transition)
    requires maxNodes >= 2 && maxEdges >= 1 && t in Valid(ts) && t.from in KeptNamesOf(ts, maxNodes) && '\0' in t.from
    requires t.to !in KeptNamesOf(ts, maxNodes) && Displays(GraphOf(ts, maxNodes, maxEdges), EdgeOf(t, KeptNamesOf(ts, maxNodes)))
    ensures ShowsHidden(ts, maxNodes, maxEdges)
  {
    hide GraphOf, Valid, KeptNamesOf, EdgeOf, Displays;
    assert CutsName(t, KeptNamesOf(ts, maxNodes));
  }

  lemma TwoTotal(t: Transition, u: Transition)
    requires t.count == u.count == 1
    ensures Total([t, u], TrafficW()) == 2 <= MAX_INT64
  {
    assert [t, u] == [t] + [u];
    TotalConcat([t], [u], TrafficW());
    TotalOne(t, TrafficW());
    TotalOne(u, TrafficW());
    assert Pow2(2) == 4;
    Pow2Monotone(2, 63);
    hide Pow2, Total;
  }

  lemma AddOne(m: map<string, int>, k: string)
    requires Get(m, k) <= 1
    ensures AddTo(m, k, 1) == m[k := Get(m, k) + 1]
  {
    assert Pow2(2) == 4;
    Pow2Monotone(2, 63);
    hide Pow2;
  }

  lemma TwoNodes(t: Transition, u: Transition, a: string, b: string, c: string)
    requires t == Transition(a, b, 1) && u == Transition(a, c, 1) && a != b && b != c && a != c
    ensures NodeMap([t, u]) == map[a := 2, b := 1, c := 1]
  {
    assert [t, u][..1] == [t] && [t][..0] == [];
    hide AddTo;
    AddOne(map[], a);
    AddOne(map[a := 1], b);
    AddOne(map[a := 1, b := 1], a);
    AddOne(map[a := 2, b := 1], c);
    assert NodeMap([]) == map[];
    assert NodeMap([t]) == map[a := 1, b := 1];
  }

  /** The node with the largest count is ranked first. */
  lemma FirstOfThree(ranked: seq<Item>, a: string, b: string, c: string)
    requires Sorted(ranked) && Elements(ranked) == {Item(2, a, ""), Item(1, b, ""), Item(1, c, "")}
    ensures ranked != [] && ranked[0] == Item(2, a, "")
  {
    var first := Item(2, a, "");
    assert first in Elements(ranked);
    var j :| 0 <= j < |ranked| && ranked[j] == first;
    assert ranked[0] in Elements(ranked);
    assert j > 0 ==> Before(ranked[0], ranked[j]);
  }

  lemma ThreeItems(m: map<string, int>, a: string, b: string, c: string)
    requires a != b && b != c && a != c && m == map[a := 2, b := 1, c := 1]
    ensures NodeItems(m) == {Item(2, a, ""), Item(1, b, ""), Item(1, c, "")} && |m| == 3
  {
    assert m.Keys == {a, b, c};
    assert |m| == |m.Keys|;
    assert a in m && b in m && c in m;
    forall x | x in {Item(2, a, ""), Item(1, b, ""), Item(1, c, "")} ensures x in NodeItems(m) {
      assert x.a in m && m[x.a] == x.count;
    }
  }

  lemma KeptIsFirst(t: Transition, u: Transition)
    requires t.from == u.from && t.from != t.to && t.to != u.to && t.from != u.to && t.count == u.count == 1
    requires Valid([t, u]) == [t, u]
    ensures KeptNamesOf([t, u], 2) == {t.from}
  {
    var m := NodeMap([t, u]);
    var ranked := Ranked([t, u]);
    TwoNodes(t, u, t.from, t.to, u.to);
    ThreeItems(m, t.from, t.to, u.to);
    EdgesBounded([t, u], 2);
    InOrderIsSorted(NodeItems(m));
    hide InOrder, NodeMap, NodeItems, Valid, Sorted, Elements;
    FirstOfThree(ranked, t.from, t.to, u.to);
    assert KeptItems([t, u], 2) == [ranked[0]];
    OneName(ranked[0]);
  }

  lemma OneName(x: Item)
    ensures Names([x]) == {x.a}
  {
    assert [x][0].a in Names([x]);
  }
}
