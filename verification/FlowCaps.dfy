/** Which nodes and edges the flow graph keeps within its caps, and in which order it shows them
    (flowviz/graph.go, BuildGraph).
 */
module FlowCaps {
  import opened Quantiles
  import opened Ranking
  import opened FlowGraph

  // ---------------------------------------------------------------- the order of names

  /** At the first difference `a` has the smaller character, or ends. */
  ghost predicate NameBefore(a: string, b: string) {
    exists i :: 0 <= i <= |a| && i < |b| && a[..i] == b[..i] && (i == |a| || a[i] < b[i])
  }

  lemma {:induction false} LessIff(a: string, b: string)
    ensures Less(a, b) <==> NameBefore(a, b)
  {
    if a != [] && b != [] && a[0] == b[0] {
      LessIff(a[1..], b[1..]);
      if NameBefore(a[1..], b[1..]) {
        var i :| 0 <= i <= |a[1..]| && i < |b[1..]| && a[1..][..i] == b[1..][..i] && (i == |a[1..]| || a[1..][i] < b[1..][i]);
        assert a[..i + 1] == [a[0]] + a[1..][..i] && b[..i + 1] == [b[0]] + b[1..][..i];
        assert i + 1 == |a| || a[i + 1] < b[i + 1];
      }
      if NameBefore(a, b) {
        var i :| 0 <= i <= |a| && i < |b| && a[..i] == b[..i] && (i == |a| || a[i] < b[i]);
        assert i > 0;
        assert a[1..][..i - 1] == a[..i][1..] && b[1..][..i - 1] == b[..i][1..];
        assert i - 1 == |a[1..]| || a[1..][i - 1] < b[1..][i - 1];
      }
    } else {
      if Less(a, b) { assert a[..0] == b[..0]; }
      if NameBefore(a, b) {
        var i :| 0 <= i <= |a| && i < |b| && a[..i] == b[..i] && (i == |a| || a[i] < b[i]);
        assert i > 0 ==> a[..i][0] == b[..i][0];
      }
    }
  }

  // ---------------------------------------------------------------- node names

  /** One to sixteen capital letters, a blank, a slash, and up to 495 characters that are no blank,
      no question mark and no hash sign. */
  ghost predicate MethodAndPath(s: string, n: nat) {
    && 1 <= n <= 16 && n + 2 <= |s| <= n + 2 + 495
    && (forall i :: 0 <= i < n ==> 'A' <= s[i] <= 'Z')
    && s[n] == ' ' && s[n + 1] == '/'
    && (forall i :: n + 2 <= i < |s| ==> s[i] !in {' ', '\t', '\n', '\r', 12 as char, '?', '#'})
  }

  lemma {:induction false} LettersEnd(s: string, n: nat)
    requires n < |s| && (forall i :: 0 <= i < n ==> 'A' <= s[i] <= 'Z') && !('A' <= s[n] <= 'Z')
    ensures MethodLength(s) == n
  {
    if n > 0 { LettersEnd(s[1..], n - 1); }
  }

  /** A name is accepted if and only if it is a method and a path, of at most 512 bytes. */
  lemma NodeNameIff(s: string)
    ensures ValidNode(s) <==> (exists n: nat :: MethodAndPath(s, n)) && Utf8Length(s) <= 512
  {
    MethodLetters(s);
    hide Utf8Length, MethodLength;
    if ValidNode(s) {
      var n := MethodLength(s);
      assert forall i :: n + 2 <= i < |s| ==> PathChar(s[i]);
      assert MethodAndPath(s, n);
    }
    if exists n: nat :: MethodAndPath(s, n) {
      var n: nat :| MethodAndPath(s, n);
      LettersEnd(s, n);
      assert forall i :: n + 2 <= i < |s| ==> PathChar(s[i]);
    }
  }

  // ---------------------------------------------------------------- nodes

  /** The names that valid transitions touch. */
  ghost function Touched(ts: seq<Transition>): set<string> {
    (set t | t in Valid(ts) :: t.from) + (set t | t in Valid(ts) :: t.to)
  }

  /** The traffic of a name: a transition counts at both of its ends. */
  function Degree(ts: seq<Transition>, id: string): int {
    Cap(Total(Valid(ts), DegreeW(id)))
  }

  /** Busier, or as busy and earlier in the alphabet. */
  ghost predicate Busier(m: int, a: string, n: int, b: string) {
    m > n || (m == n && NameBefore(a, b))
  }

  lemma {:induction false} NodeMapKeys(ts: seq<Transition>, id: string)
    ensures id in NodeMap(ts) <==> exists t :: t in ts && (t.from == id || t.to == id)
  {
    if ts != [] {
      var front, t := ts[..|ts| - 1], ts[|ts| - 1];
      NodeMapKeys(front, id);
      assert forall x :: x in ts <==> x in front || x == t;
    }
  }

  lemma TouchedAre(ts: seq<Transition>)
    ensures NodeMap(Valid(ts)).Keys == Touched(ts)
  {
    hide NodeMap, Valid;
    forall id ensures id in NodeMap(Valid(ts)) <==> id in Touched(ts) {
      NodeMapKeys(Valid(ts), id);
    }
  }

  /** The ranked nodes are the touched names with their traffic, each once, in order. */
  lemma RankedAre(ts: seq<Transition>)
    ensures var ranked := Ranked(Valid(ts));
            && Sorted(ranked) && |ranked| == |Touched(ts)|
            && (forall i :: 0 <= i < |ranked| ==> ranked[i].a in Touched(ts) && ranked[i] == Item(Degree(ts, ranked[i].a), ranked[i].a, ""))
            && (forall id :: id in Touched(ts) ==> exists i :: 0 <= i < |ranked| && ranked[i].a == id)
  {
    var m := NodeMap(Valid(ts));
    var ranked := Ranked(Valid(ts));
    ValidIsValid(ts);
    TouchedAre(ts);
    InOrderIsSorted(NodeItems(m));
    NodeItemCount(m);
    assert |m| == |m.Keys|;
    hide NodeMap, Valid, InOrder, Sorted, Touched, Total, AllValid, AllPositive;
    forall i | 0 <= i < |ranked| ensures ranked[i].a in Touched(ts) && ranked[i] == Item(Degree(ts, ranked[i].a), ranked[i].a, "") {
      assert ranked[i] in Elements(ranked);
      NodeMapIs(Valid(ts), ranked[i].a);
    }
    forall id | id in Touched(ts) ensures exists i :: 0 <= i < |ranked| && ranked[i].a == id {
      assert Item(m[id], id, "") in Elements(ranked);
      var i :| 0 <= i < |ranked| && ranked[i] == Item(m[id], id, "");
      assert ranked[i].a == id;
    }
  }

  lemma BeforeIs(x: Item, y: Item)
    requires x.b == y.b == ""
    ensures Before(x, y) ==> Busier(x.count, x.a, y.count, y.a)
  {
    LessIff(x.a, y.a);
    hide NameBefore;
  }

  lemma {:induction false} NamesSize(items: seq<Item>)
    requires forall i, j :: 0 <= i < j < |items| ==> items[i].a != items[j].a
    ensures |Names(items)| == |items|
  {
    if items == [] {
      assert Names(items) == {};
    } else {
      var front := items[..|items| - 1];
      assert forall i :: 0 <= i < |front| ==> front[i] == items[i];
      NamesSize(front);
      assert Names(items) == Names(front) + {items[|items| - 1].a};
    }
  }

  lemma RankedDistinct(s: seq<Item>, i: nat, j: nat)
    requires Sorted(s) && i < j < |s|
    ensures s[i].count == s[j].count && s[i].b == s[j].b ==> s[i].a != s[j].a
  {
    BeforeTrichotomy(s[i], s[j]);
    hide Less;
  }

  lemma AmongFirst(s: seq<Item>, k: nat, j: nat)
    requires k <= |s| && j < |s|
    ensures j < k ==> s[j].a in Names(s[..k])
  {
    assert j < k ==> s[..k][j] == s[j];
  }

  /** All touched names are kept if the cap allows them; otherwise one place is left for "(other)".
      The names kept are the busiest: each precedes every name that is folded. */
  lemma KeptAreBusiest(ts: seq<Transition>, maxNodes: nat)
    requires maxNodes >= 2
    ensures var kept, touched := KeptNamesOf(ts, maxNodes), Touched(ts);
            && kept <= touched
            && |kept| == (if |touched| <= maxNodes then |touched| else maxNodes - 1)
            && forall a, b :: a in kept && b in touched && b !in kept ==> Busier(Degree(ts, a), a, Degree(ts, b), b)
  {
    RankedAre(ts);
    KeptNamesAre(ts, maxNodes);
    hide *;
    var ranked := Ranked(Valid(ts));
    var k := if |ranked| <= maxNodes then |ranked| else maxNodes - 1;
    KeptItemsAre(ts, maxNodes, k);
    FirstNames(ranked, k);
    forall a, b | a in KeptNamesOf(ts, maxNodes) && b in Touched(ts) && b !in KeptNamesOf(ts, maxNodes)
      ensures Busier(Degree(ts, a), a, Degree(ts, b), b)
    {
      var i := NamedAt(ranked, k, a);
      var j :| 0 <= j < |ranked| && ranked[j].a == b;
      AmongFirst(ranked, k, j);
      RankedBusier(ts, i, j);
    }
    forall a | a in KeptNamesOf(ts, maxNodes) ensures a in Touched(ts) {
      var i := NamedAt(ranked, k, a);
    }
  }

  lemma KeptItemsAre(ts: seq<Transition>, maxNodes: nat, k: nat)
    requires maxNodes >= 2 && k == if |Ranked(Valid(ts))| <= maxNodes then |Ranked(Valid(ts))| else maxNodes - 1
    ensures KeptItems(Valid(ts), maxNodes) == Ranked(Valid(ts))[..k]
  {
    hide Ranked, Valid;
  }

  lemma NamedAt(s: seq<Item>, k: nat, a: string) returns (i: nat)
    requires k <= |s| && a in Names(s[..k])
    ensures i < k && s[i].a == a
  {
    i :| 0 <= i < |s[..k]| && s[..k][i].a == a;
  }

  lemma FirstNames(s: seq<Item>, k: nat)
    requires k <= |s| && Sorted(s) && forall i, j :: 0 <= i < |s| && 0 <= j < |s| && s[i].a == s[j].a ==> s[i] == s[j]
    ensures |Names(s[..k])| == k
  {
    hide Names;
    forall i, j | 0 <= i < j < k ensures s[..k][i].a != s[..k][j].a {
      RankedDistinct(s, i, j);
    }
    NamesSize(s[..k]);
  }

  // ---------------------------------------------------------------- edges

  /** The pairs of displayed ends that valid transitions have, and what they carry. */
  ghost function Pairs(ts: seq<Transition>, maxNodes: nat): set<Pair>
    requires maxNodes >= 2
  {
    set t | t in Valid(ts) :: EdgeOf(t, KeptNamesOf(ts, maxNodes))
  }

  ghost function Carried(ts: seq<Transition>, maxNodes: nat, p: Pair): int
    requires maxNodes >= 2
  {
    Cap(Total(Valid(ts), EdgeW(KeptNamesOf(ts, maxNodes), p)))
  }

  ghost predicate PairBefore(p: Pair, q: Pair) {
    NameBefore(p.0, q.0) || (p.0 == q.0 && NameBefore(p.1, q.1))
  }

  lemma {:induction false} EdgeMapKeys(ts: seq<Transition>, kept: set<string>, p: Pair)
    ensures p in EdgeMap(ts, kept) <==> exists t :: t in ts && EdgeOf(t, kept) == p
  {
    hide EdgeOf;
    if ts != [] {
      var front, t := ts[..|ts| - 1], ts[|ts| - 1];
      EdgeMapKeys(front, kept, p);
      assert forall x :: x in ts <==> x in front || x == t;
    }
  }

  lemma PairsAre(ts: seq<Transition>, maxNodes: nat)
    requires maxNodes >= 2
    ensures EdgeMap(Valid(ts), KeptNamesOf(ts, maxNodes)).Keys == Pairs(ts, maxNodes)
  {
    hide EdgeMap, EdgeOf, Valid, KeptNamesOf;
    forall p: Pair ensures p in EdgeMap(Valid(ts), KeptNamesOf(ts, maxNodes)) <==> p in Pairs(ts, maxNodes) {
      EdgeMapKeys(Valid(ts), KeptNamesOf(ts, maxNodes), p);
    }
  }

  lemma ListedEdges(m: map<Pair, int>)
    ensures var all := InOrder(EdgeItems(m));
            && Sorted(all) && |all| == |m.Keys|
            && (forall i :: 0 <= i < |all| ==> (all[i].a, all[i].b) in m && all[i].count == m[(all[i].a, all[i].b)])
            && (forall p :: p in m ==> exists i :: 0 <= i < |all| && (all[i].a, all[i].b) == p)
  {
    var all := InOrder(EdgeItems(m));
    InOrderIsSorted(EdgeItems(m));
    EdgeItemCount(m);
    assert |m| == |m.Keys|;
    hide InOrder, Sorted;
    forall i | 0 <= i < |all| ensures (all[i].a, all[i].b) in m && all[i].count == m[(all[i].a, all[i].b)] {
      assert all[i] in Elements(all);
    }
    forall p | p in m ensures exists i :: 0 <= i < |all| && (all[i].a, all[i].b) == p {
      assert Item(m[p], p.0, p.1) in Elements(all);
      var i :| 0 <= i < |all| && all[i] == Item(m[p], p.0, p.1);
      assert (all[i].a, all[i].b) == p;
    }
  }

  lemma CarriedIs(ts: seq<Transition>, maxNodes: nat, p: Pair)
    requires maxNodes >= 2
    ensures var m := EdgeMap(Valid(ts), KeptNamesOf(ts, maxNodes));
            && (p in m <==> p in Pairs(ts, maxNodes))
            && (p in m ==> m[p] == Carried(ts, maxNodes, p))
  {
    var m := EdgeMap(Valid(ts), KeptNamesOf(ts, maxNodes));
    ValidIsValid(ts);
    PairsAre(ts, maxNodes);
    assert p in m <==> p in m.Keys;
    hide EdgeMap, Valid, Pairs, KeptNamesOf, Total, EdgeW, AllValid, Cap;
    EdgeMapIs(Valid(ts), KeptNamesOf(ts, maxNodes), p);
  }

  lemma AllEdgesOf(ts: seq<Transition>, maxNodes: nat)
    requires maxNodes >= 2
    ensures AllEdges(Valid(ts), maxNodes) == InOrder(EdgeItems(EdgeMap(Valid(ts), KeptNamesOf(ts, maxNodes))))
  {
  }

  lemma EdgesAre(ts: seq<Transition>, maxNodes: nat)
    requires maxNodes >= 2
    ensures var all := AllEdges(Valid(ts), maxNodes);
            && Sorted(all) && |all| == |Pairs(ts, maxNodes)|
            && (forall i :: 0 <= i < |all| ==> (all[i].a, all[i].b) in Pairs(ts, maxNodes) && all[i].count == Carried(ts, maxNodes, (all[i].a, all[i].b)))
            && (forall p :: p in Pairs(ts, maxNodes) ==> exists i :: 0 <= i < |all| && (all[i].a, all[i].b) == p)
  {
    hide *;
    var m := EdgeMap(Valid(ts), KeptNamesOf(ts, maxNodes));
    var all := AllEdges(Valid(ts), maxNodes);
    AllEdgesOf(ts, maxNodes);
    PairsAre(ts, maxNodes);
    ListedEdges(m);
    forall i | 0 <= i < |all| ensures (all[i].a, all[i].b) in Pairs(ts, maxNodes) && all[i].count == Carried(ts, maxNodes, (all[i].a, all[i].b)) {
      CarriedIs(ts, maxNodes, (all[i].a, all[i].b));
    }
    forall p | p in Pairs(ts, maxNodes) ensures exists i :: 0 <= i < |all| && (all[i].a, all[i].b) == p {
      CarriedIs(ts, maxNodes, p);
    }
  }

  lemma EdgeBefore(x: Item, y: Item)
    ensures Before(x, y) ==> x.count > y.count || (x.count == y.count && PairBefore((x.a, x.b), (y.a, y.b)))
  {
    LessIff(x.a, y.a);
    LessIff(x.b, y.b);
    hide NameBefore;
  }

  ghost predicate Heavier(m: int, p: Pair, n: int, q: Pair) {
    m > n || (m == n && PairBefore(p, q))
  }

  lemma ShownEdges(ts: seq<Transition>, maxNodes: nat, maxEdges: nat)
    requires maxNodes >= 2 && maxEdges >= 1
    ensures var all := AllEdges(Valid(ts), maxNodes);
            var g := GraphOf(ts, maxNodes, maxEdges);
            && |g.edges| == (if |all| <= maxEdges then |all| else maxEdges)
            && (forall i :: 0 <= i < |g.edges| ==> g.edges[i] == Transition(all[i].a, all[i].b, all[i].count))
            && g.inputEdges == |ts| && g.dropped == |ts| - |Valid(ts)|
            && (g.partial <==> |Valid(ts)| < |ts|)
            && (g.truncated <==> |Ranked(Valid(ts))| > maxNodes || |all| > maxEdges)
  {
    ValidIsValid(ts);
    hide AllEdges, Valid, Ranked, KeptItems, NodeMap, Nodes, HiddenSum, FoldedEdges;
  }

  /** Every pair is displayed if the cap allows them, with what it carries; otherwise as many as
      the cap, the heaviest, each preceding every pair that is left out.  The edges are shown in
      that order, and the graph says how many transitions came in and were not valid, and whether
      anything was folded or left out. */
  lemma ShownAreHeaviest(ts: seq<Transition>, maxNodes: nat, maxEdges: nat)
    requires maxNodes >= 2 && maxEdges >= 1
    ensures var g, pairs := GraphOf(ts, maxNodes, maxEdges), Pairs(ts, maxNodes);
            && |g.edges| == (if |pairs| <= maxEdges then |pairs| else maxEdges)
            && (forall i :: 0 <= i < |g.edges| ==>
                 (g.edges[i].from, g.edges[i].to) in pairs && g.edges[i].count == Carried(ts, maxNodes, (g.edges[i].from, g.edges[i].to)))
            && (forall i, j :: 0 <= i < j < |g.edges| ==>
                 Heavier(g.edges[i].count, (g.edges[i].from, g.edges[i].to), g.edges[j].count, (g.edges[j].from, g.edges[j].to)))
            && (forall i, q :: 0 <= i < |g.edges| && q in pairs && !Displays(g, q) ==>
                 Heavier(g.edges[i].count, (g.edges[i].from, g.edges[i].to), Carried(ts, maxNodes, q), q))
            && g.inputEdges == |ts| && g.dropped == |ts| - |Valid(ts)|
            && (g.partial <==> |Valid(ts)| < |ts|)
            && (g.truncated <==> |Touched(ts)| > maxNodes || |pairs| > maxEdges)
  {
    hide *;
    var all := AllEdges(Valid(ts), maxNodes);
    EdgesAre(ts, maxNodes);
    ShownEdges(ts, maxNodes, maxEdges);
    RankedAre(ts);
    SortedHeavier(all);
    NoneHeavier(ts, maxNodes, GraphOf(ts, maxNodes, maxEdges), all);
  }

  lemma SortedHeavier(all: seq<Item>)
    requires Sorted(all)
    ensures forall i, j :: 0 <= i < j < |all| ==> Heavier(all[i].count, (all[i].a, all[i].b), all[j].count, (all[j].a, all[j].b))
  {
    hide PairBefore, Before;
    forall i, j | 0 <= i < j < |all| ensures Heavier(all[i].count, (all[i].a, all[i].b), all[j].count, (all[j].a, all[j].b)) {
      assert Before(all[i], all[j]);
      EdgeBefore(all[i], all[j]);
    }
  }

  lemma NoneHeavier(ts: seq<Transition>, maxNodes: nat, g: Graph, all: seq<Item>)
    requires maxNodes >= 2 && |g.edges| <= |all|
    requires forall i :: 0 <= i < |g.edges| ==> g.edges[i] == Transition(all[i].a, all[i].b, all[i].count)
    requires forall i, j :: 0 <= i < j < |all| ==> Heavier(all[i].count, (all[i].a, all[i].b), all[j].count, (all[j].a, all[j].b))
    requires forall i :: 0 <= i < |all| ==> all[i].count == Carried(ts, maxNodes, (all[i].a, all[i].b))
    requires forall p :: p in Pairs(ts, maxNodes) ==> exists i :: 0 <= i < |all| && (all[i].a, all[i].b) == p
    ensures forall i, q :: 0 <= i < |g.edges| && q in Pairs(ts, maxNodes) && !Displays(g, q) ==>
              Heavier(g.edges[i].count, (g.edges[i].from, g.edges[i].to), Carried(ts, maxNodes, q), q)
  {
    hide *;
    forall i, q | 0 <= i < |g.edges| && q in Pairs(ts, maxNodes) && !Displays(g, q)
      ensures Heavier(g.edges[i].count, (g.edges[i].from, g.edges[i].to), Carried(ts, maxNodes, q), q)
    {
      var j :| 0 <= j < |all| && (all[j].a, all[j].b) == q;
      DisplaysFirst(g, all, j);
    }
  }

  lemma DisplaysFirst(g: Graph, all: seq<Item>, j: nat)
    requires |g.edges| <= |all| && j < |all| && forall i :: 0 <= i < |g.edges| ==> g.edges[i] == Transition(all[i].a, all[i].b, all[i].count)
    ensures j < |g.edges| ==> Displays(g, (all[j].a, all[j].b))
  {
    assert j < |g.edges| ==> (g.edges[j].from, g.edges[j].to) == (all[j].a, all[j].b);
  }

  // ---------------------------------------------------------------- the nodes shown

  /** The items are in display order. */
  ghost predicate NodesInOrder(ts: seq<Transition>, ns: seq<Node>, from: nat) {
    forall i, j :: from <= i < j < |ns| ==> Busier(Degree(ts, ns[i].id), ns[i].id, Degree(ts, ns[j].id), ns[j].id)
  }

  lemma {:induction false} VisibleInOrder(ts: seq<Transition>, items: seq<Item>, visible: map<string, int>)
    requires forall i, j :: 0 <= i < j < |items| ==> Busier(Degree(ts, items[i].a), items[i].a, Degree(ts, items[j].a), items[j].a)
    ensures NodesInOrder(ts, VisibleNodes(items, visible), 0)
  {
    hide Busier, Degree;
    if items != [] {
      var front, x := items[..|items| - 1], items[|items| - 1];
      assert forall i :: 0 <= i < |front| ==> front[i] == items[i];
      VisibleInOrder(ts, front, visible);
      VisibleNodesAre(front, visible);
      var ns, fs := VisibleNodes(items, visible), VisibleNodes(front, visible);
      forall i, j | 0 <= i < j < |ns| ensures Busier(Degree(ts, ns[i].id), ns[i].id, Degree(ts, ns[j].id), ns[j].id) {
        if j == |fs| {
          assert ns[i] == fs[i] && fs[i].id in Names(front);
          var k :| 0 <= k < |front| && front[k].a == fs[i].id;
          assert items[k] == front[k];
        }
      }
    }
  }

  lemma RankedBusier(ts: seq<Transition>, i: nat, j: nat)
    requires i < j < |Ranked(Valid(ts))|
    ensures var s := Ranked(Valid(ts)); Busier(Degree(ts, s[i].a), s[i].a, Degree(ts, s[j].a), s[j].a)
  {
    RankedAre(ts);
    var s := Ranked(Valid(ts));
    assert Before(s[i], s[j]);
    hide Ranked, Valid, Touched, Degree, Busier, Before;
    BeforeIs(s[i], s[j]);
  }

  /** The nodes shown are kept names in the order of their traffic, and then "(other)", if some
      name was folded. */
  lemma NodesAreOrdered(ts: seq<Transition>, maxNodes: nat, maxEdges: nat)
    requires maxNodes >= 2 && maxEdges >= 1
    ensures var ns := GraphOf(ts, maxNodes, maxEdges).nodes;
            var other := ns != [] && ns[|ns| - 1].id == OTHER_NODE && |Touched(ts)| > maxNodes;
            var named := if other then ns[..|ns| - 1] else ns;
            && NodesInOrder(ts, named, 0)
            && (forall i :: 0 <= i < |named| ==> named[i].id in KeptNamesOf(ts, maxNodes))
  {
    GraphParts(ts, maxNodes, maxEdges);
    RankedAre(ts);
    KeptNamesAre(ts, maxNodes);
    ValidIsValid(ts);
    KeptAreNodes(Valid(ts), maxNodes);
    var kept, visible := KeptItems(Valid(ts), maxNodes), NodeMap(GraphOf(ts, maxNodes, maxEdges).edges);
    KeptInOrder(ts, maxNodes);
    VisibleInOrder(ts, kept, visible);
    VisibleNodesAre(kept, visible);
    OtherIsLast(kept, |Ranked(Valid(ts))| > maxNodes, visible);
    hide *;
  }

  lemma KeptInOrder(ts: seq<Transition>, maxNodes: nat)
    requires maxNodes >= 2
    ensures var kept := KeptItems(Valid(ts), maxNodes);
            forall i, j :: 0 <= i < j < |kept| ==> Busier(Degree(ts, kept[i].a), kept[i].a, Degree(ts, kept[j].a), kept[j].a)
  {
    var kept := KeptItems(Valid(ts), maxNodes);
    assert forall i :: 0 <= i < |kept| ==> kept[i] == Ranked(Valid(ts))[i];
    hide Ranked, Valid, Degree, Busier;
    forall i, j | 0 <= i < j < |kept| ensures Busier(Degree(ts, kept[i].a), kept[i].a, Degree(ts, kept[j].a), kept[j].a) {
      RankedBusier(ts, i, j);
    }
  }

  lemma OtherIsLast(kept: seq<Item>, other: bool, visible: map<string, int>)
    requires OTHER_NODE !in Names(kept)
    ensures var ns := Nodes(kept, other, visible);
            (if ns != [] && ns[|ns| - 1].id == OTHER_NODE && other then ns[..|ns| - 1] else ns) == VisibleNodes(kept, visible)
  {
    VisibleNodesAre(kept, visible);
    hide Names;
  }
}
