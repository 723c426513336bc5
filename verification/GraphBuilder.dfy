/** BuildGraph (flowviz/graph.go) as the source runs it: loops that fill maps and slices, entries
    of a map visited in arbitrary order, sorted and truncated.  The result is `GraphOf`, so it is
    deterministic and the theorems of `FlowGraph` hold of it.
 */
module GraphBuilder {
  import opened Ranking
  import opened FlowGraph

  method CollectValid(ts: seq<Transition>)
    returns (valid: seq<Transition>, nodeTotals: map<string, int>, dropped: nat, partial: bool)
    ensures valid == Valid(ts) && nodeTotals == NodeMap(valid)
    ensures |valid| + dropped == |ts| && (partial <==> dropped > 0)
  {
    valid, nodeTotals, dropped, partial := [], map[], 0, false;
    for k := 0 to |ts|
      invariant valid == Valid(ts[..k]) && nodeTotals == NodeMap(valid)
      invariant |valid| + dropped == k && (partial <==> dropped > 0)
    {
      var t := ts[k];
      assert ts[..k + 1][..k] == ts[..k];
      if t.count <= 0 || !ValidNode(t.from) || !ValidNode(t.to) {
        dropped := dropped + 1;
        partial := true;
      } else {
        assert (valid + [t])[..|valid|] == valid;
        valid := valid + [t];
        nodeTotals := nodeTotals[t.from := SaturatingAdd(Get(nodeTotals, t.from), t.count)];
        nodeTotals := nodeTotals[t.to := SaturatingAdd(Get(nodeTotals, t.to), t.count)];
      }
    }
    assert ts[..|ts|] == ts;
  }

  ghost predicate Distinct(items: seq<Item>) {
    forall i, j :: 0 <= i < j < |items| ==> items[i] != items[j]
  }

  lemma AppendDistinct(items: seq<Item>, x: Item)
    requires Distinct(items) && x !in Elements(items)
    ensures Distinct(items + [x]) && Elements(items + [x]) == Elements(items) + {x}
  {
    assert forall i :: 0 <= i < |items| ==> items[i] in Elements(items);
    Rearranged(items, x, |items|, items + [x]);
    assert items + [x] == items[..|items|] + [x] + items[|items|..];
  }

  method NodeEntries(m: map<string, int>) returns (items: seq<Item>)
    ensures Distinct(items) && Elements(items) == NodeItems(m)
  {
    items := [];
    var keys := m.Keys;
    ghost var seen: map<string, int> := map[];
    while keys != {}
      invariant keys <= m.Keys && seen == m - keys
      invariant Distinct(items) && Elements(items) == NodeItems(seen)
      decreases keys
    {
      var id :| id in keys;
      var x := Item(m[id], id, "");
      assert x !in NodeItems(seen);
      AppendDistinct(items, x);
      items := items + [x];
      keys := keys - {id};
      AddNodeItem(seen, id, m[id], seen[id := m[id]]);
      seen := seen[id := m[id]];
    }
    assert seen == m;
  }

  lemma AddNodeItem(before: map<string, int>, id: string, count: int, after: map<string, int>)
    requires id !in before && after == before[id := count]
    ensures NodeItems(after) == NodeItems(before) + {Item(count, id, "")}
  {
    assert id in after && after[id] == count;
    forall x | x in NodeItems(before) ensures x in NodeItems(after) {
      assert x.a in after && after[x.a] == x.count;
    }
  }

  /** A map by joined keys that stands for a map by split pairs. */
  ghost predicate Keyed<V>(byKey: map<string, V>, byPair: map<Pair, V>) {
    && (forall key :: key in byKey ==> '\0' in key && SplitKey(key) in byPair && byKey[key] == byPair[SplitKey(key)])
    && (forall p :: p in byPair ==> JoinKey(p.0, p.1) in byKey && SplitKey(JoinKey(p.0, p.1)) == p)
  }

  /** Updating one key updates the pair it is split into. */
  lemma KeyedUpdate<V>(byKey: map<string, V>, byPair: map<Pair, V>, key: string, v: V)
    requires Keyed(byKey, byPair) && '\0' in key
    ensures Keyed(byKey[key := v], byPair[SplitKey(key) := v])
    ensures key in byKey <==> SplitKey(key) in byPair
    ensures key in byKey ==> byKey[key] == byPair[SplitKey(key)]
  {
    SplitJoin(key);
    forall k | k in byKey ensures JoinKey(SplitKey(k).0, SplitKey(k).1) == k {
      SplitJoin(k);
    }
    hide JoinKey, SplitKey;
  }

  method EdgeEntries(byKey: map<string, int>, ghost m: map<Pair, int>) returns (items: seq<Item>)
    requires Keyed(byKey, m)
    ensures Distinct(items) && Elements(items) == EdgeItems(m)
  {
    items := [];
    var keys := byKey.Keys;
    ghost var seen: map<Pair, int> := map[];
    NothingSeen(byKey, m);
    while keys != {}
      invariant keys <= byKey.Keys && Seen(byKey, m, keys, seen)
      invariant Distinct(items) && Elements(items) == EdgeItems(seen)
      decreases keys
    {
      hide *;
      var key :| key in keys;
      var p := SplitKey(key);
      SeeOne(byKey, m, keys, seen, key);
      var x := Item(byKey[key], p.0, p.1);
      NotListed(seen, p, byKey[key]);
      AppendDistinct(items, x);
      items := items + [x];
      keys := keys - {key};
      AddEdgeItem(seen, p, byKey[key], seen[p := byKey[key]]);
      seen := seen[p := byKey[key]];
    }
    AllSeen(byKey, m, seen);
  }

  /** The pairs of the keys already visited. */
  ghost predicate Seen(byKey: map<string, int>, m: map<Pair, int>, keys: set<string>, seen: map<Pair, int>) {
    forall p :: (p in seen <==> p in m && JoinKey(p.0, p.1) !in keys) && (p in seen ==> seen[p] == m[p])
  }

  lemma NothingSeen(byKey: map<string, int>, m: map<Pair, int>)
    requires Keyed(byKey, m)
    ensures Seen(byKey, m, byKey.Keys, map[])
  {
  }

  lemma SeeOne(byKey: map<string, int>, m: map<Pair, int>, keys: set<string>, seen: map<Pair, int>, key: string)
    requires Keyed(byKey, m) && Seen(byKey, m, keys, seen) && key in keys && keys <= byKey.Keys
    ensures SplitKey(key) !in seen && Seen(byKey, m, keys - {key}, seen[SplitKey(key) := byKey[key]])
  {
    SplitJoin(key);
    hide JoinKey, SplitKey;
  }

  lemma AllSeen(byKey: map<string, int>, m: map<Pair, int>, seen: map<Pair, int>)
    requires Seen(byKey, m, {}, seen)
    ensures seen == m
  {
    hide JoinKey;
  }

  lemma NotListed(seen: map<Pair, int>, p: Pair, count: int)
    requires p !in seen
    ensures Item(count, p.0, p.1) !in EdgeItems(seen)
  {
  }

  lemma AddEdgeItem(before: map<Pair, int>, p: Pair, count: int, after: map<Pair, int>)
    requires p !in before && after == before[p := count]
    ensures EdgeItems(after) == EdgeItems(before) + {Item(count, p.0, p.1)}
  {
    assert p in after && after[p] == count;
    forall x | x in EdgeItems(before) ensures x in EdgeItems(after) {
      assert (x.a, x.b) in after && after[(x.a, x.b)] == x.count;
    }
  }

  method KeptNames(items: seq<Item>) returns (kept: set<string>)
    ensures kept == Names(items)
  {
    kept := {};
    for i := 0 to |items|
      invariant kept == Names(items[..i])
    {
      kept := kept + {items[i].a};
      NamesSnoc(items, i);
    }
    assert items[..|items|] == items;
  }

  lemma NamesSnoc(items: seq<Item>, i: nat)
    requires i < |items|
    ensures Names(items[..i + 1]) == Names(items[..i]) + {items[i].a}
  {
    assert items[..i + 1][i].a == items[i].a;
    forall n | n in Names(items[..i]) ensures n in Names(items[..i + 1]) {
      var k :| 0 <= k < i && items[..i][k].a == n;
      assert items[..i + 1][k].a == n;
    }
    forall n | n in Names(items[..i + 1]) ensures n in Names(items[..i]) + {items[i].a} {
      var k :| 0 <= k <= i && items[..i + 1][k].a == n;
      if k < i { assert items[..i][k].a == n; }
    }
  }

  /** Which edges carry folded traffic, as a map over the edges. */
  ghost function FoldedMap(ts: seq<Transition>, kept: set<string>): map<Pair, bool> {
    if ts == [] then map[]
    else
      var before, t := FoldedMap(ts[..|ts| - 1], kept), ts[|ts| - 1];
      var p := EdgeOf(t, kept);
      before[p := (p in before && before[p]) || IsHidden(t, kept)]
  }

  lemma {:induction false} FoldedMapIs(ts: seq<Transition>, kept: set<string>, p: Pair)
    ensures p in FoldedMap(ts, kept) <==> p in EdgeMap(ts, kept)
    ensures p in FoldedMap(ts, kept) && FoldedMap(ts, kept)[p] <==> p in FoldedEdges(ts, kept)
  {
    hide EdgeOf, IsHidden;
    if ts != [] { FoldedMapIs(ts[..|ts| - 1], kept, p); }
  }

  lemma FoldSnoc(front: seq<Transition>, t: Transition, kept: set<string>)
    ensures var p := EdgeOf(t, kept);
            && EdgeMap(front + [t], kept) == EdgeMap(front, kept)[p := SaturatingAdd(Get(EdgeMap(front, kept), p), t.count)]
            && FoldedMap(front + [t], kept) == FoldedMap(front, kept)[p := (p in FoldedMap(front, kept) && FoldedMap(front, kept)[p]) || IsHidden(t, kept)]
            && HiddenSum(front + [t], kept) == if IsHidden(t, kept) then SaturatingAdd(HiddenSum(front, kept), t.count) else HiddenSum(front, kept)
  {
    assert (front + [t])[..|front|] == front;
    hide EdgeOf, IsHidden, SaturatingAdd;
  }

  /** Counts one transition onto the edge of its shown names. */
  method FoldOne(edgeCounts: map<string, int>, edgeHidden: map<string, bool>, hidden: int, t: Transition, kept: set<string>, ghost front: seq<Transition>)
    returns (counts: map<string, int>, marks: map<string, bool>, h: int)
    requires Keyed(edgeCounts, EdgeMap(front, kept)) && Keyed(edgeHidden, FoldedMap(front, kept)) && hidden == HiddenSum(front, kept)
    ensures Keyed(counts, EdgeMap(front + [t], kept)) && Keyed(marks, FoldedMap(front + [t], kept))
    ensures h == HiddenSum(front + [t], kept)
  {
    hide Keyed, JoinKey, SplitKey, SaturatingAdd, EdgeMap, FoldedMap, HiddenSum;
    FoldSnoc(front, t, kept);
    var fromKept, toKept := t.from in kept, t.to in kept;
    var from := if fromKept then t.from else OTHER_NODE;
    var to := if toKept then t.to else OTHER_NODE;
    h := hidden;
    if !fromKept || !toKept {
      h := SaturatingAdd(hidden, t.count);
    }
    var key := JoinKey(from, to);
    NulInKey(from, to);
    assert SplitKey(key) == EdgeOf(t, kept);
    var count := SaturatingAdd(Get(edgeCounts, key), t.count);
    var folded := (key in edgeHidden && edgeHidden[key]) || !fromKept || !toKept;
    KeyedUpdate(edgeCounts, EdgeMap(front, kept), key, count);
    KeyedUpdate(edgeHidden, FoldedMap(front, kept), key, folded);
    counts := edgeCounts[key := count];
    marks := edgeHidden[key := folded];
  }

  /** Folds the valid transitions onto the kept nodes, keyed by the joined names.  An edge is
      marked hidden exactly when some transition counted onto it has a folded end. */
  method FoldEdges(valid: seq<Transition>, kept: set<string>)
    returns (edgeCounts: map<string, int>, edgeHidden: map<string, bool>, hidden: int)
    ensures Keyed(edgeCounts, EdgeMap(valid, kept)) && Keyed(edgeHidden, FoldedMap(valid, kept))
    ensures hidden == HiddenSum(valid, kept)
  {
    hide *;
    edgeCounts, edgeHidden, hidden := map[], map[], 0;
    NothingFolded(valid[..0], kept);
    for k := 0 to |valid|
      invariant Keyed(edgeCounts, EdgeMap(valid[..k], kept)) && Keyed(edgeHidden, FoldedMap(valid[..k], kept))
      invariant hidden == HiddenSum(valid[..k], kept)
    {
      edgeCounts, edgeHidden, hidden := FoldOne(edgeCounts, edgeHidden, hidden, valid[k], kept, valid[..k]);
      assert valid[..k + 1] == valid[..k] + [valid[k]];
    }
    assert valid[..|valid|] == valid;
  }

  lemma NothingFolded(ts: seq<Transition>, kept: set<string>)
    requires ts == []
    ensures Keyed(map[], EdgeMap(ts, kept)) && Keyed(map[], FoldedMap(ts, kept)) && HiddenSum(ts, kept) == 0
  {
  }

  /** Looks the dropped edges up again by their joined names. */
  method HideDropped(items: seq<Item>, edgeHidden: map<string, bool>, hidden: int, ghost folded: set<Pair>) returns (h: int)
    requires forall i :: 0 <= i < |items| ==> Marked(edgeHidden, folded, items[i])
    ensures h == AddUnfolded(hidden, items, folded)
  {
    h := hidden;
    for k := 0 to |items|
      invariant h == AddUnfolded(hidden, items[..k], folded)
    {
      hide JoinKey;
      assert items[..k + 1][..k] == items[..k];
      assert Marked(edgeHidden, folded, items[k]);
      if !edgeHidden[JoinKey(items[k].a, items[k].b)] {
        h := SaturatingAdd(h, items[k].count);
      }
    }
    assert items[..|items|] == items;
  }

  ghost predicate Marked(edgeHidden: map<string, bool>, folded: set<Pair>, x: Item) {
    var key := JoinKey(x.a, x.b);
    key in edgeHidden && (edgeHidden[key] <==> (x.a, x.b) in folded)
  }

  method VisibleTotals(edges: seq<Transition>) returns (visible: map<string, int>)
    ensures visible == NodeMap(edges)
  {
    visible := map[];
    for k := 0 to |edges|
      invariant visible == NodeMap(edges[..k])
    {
      assert edges[..k + 1][..k] == edges[..k];
      visible := visible[edges[k].from := SaturatingAdd(Get(visible, edges[k].from), edges[k].count)];
      visible := visible[edges[k].to := SaturatingAdd(Get(visible, edges[k].to), edges[k].count)];
    }
    assert edges[..|edges|] == edges;
  }

  method ListNodes(kept: seq<Item>, needsOther: bool, visible: map<string, int>) returns (nodes: seq<Node>)
    ensures nodes == Nodes(kept, needsOther, visible)
  {
    nodes := [];
    for k := 0 to |kept|
      invariant nodes == VisibleNodes(kept[..k], visible)
    {
      assert kept[..k + 1][..k] == kept[..k];
      var count := Get(visible, kept[k].a);
      if count > 0 {
        nodes := nodes + [Node(kept[k].a, count)];
      }
    }
    assert kept[..|kept|] == kept;
    if needsOther && Get(visible, OTHER_NODE) > 0 {
      nodes := nodes + [Node(OTHER_NODE, Get(visible, OTHER_NODE))];
    }
  }

  lemma DroppedAreMarked(valid: seq<Transition>, maxNodes: nat, edgeHidden: map<string, bool>, from: nat)
    requires maxNodes >= 2 && from <= |AllEdges(valid, maxNodes)|
    requires Keyed(edgeHidden, FoldedMap(valid, Names(KeptItems(valid, maxNodes))))
    ensures var rest := AllEdges(valid, maxNodes)[from..];
            forall i :: 0 <= i < |rest| ==> Marked(edgeHidden, FoldedEdges(valid, Names(KeptItems(valid, maxNodes))), rest[i])
  {
    var all := AllEdges(valid, maxNodes);
    var kept := Names(KeptItems(valid, maxNodes));
    AllEdgesAre(valid, maxNodes);
    hide AllEdges, KeptItems, EdgeMap, FoldedMap, FoldedEdges, Sorted, JoinKey, SplitKey;
    forall i | 0 <= i < |all[from..]| ensures Marked(edgeHidden, FoldedEdges(valid, kept), all[from..][i]) {
      Listed(all, from + i);
      var x := all[from + i];
      ItemEntry(EdgeMap(valid, kept), x);
      FoldedMapIs(valid, kept, (x.a, x.b));
    }
  }

  method BuildGraph(ts: seq<Transition>, maxNodes: int, maxEdges: int) returns (g: Graph)
    ensures g == GraphOf(ts, ClampNodes(maxNodes), ClampEdges(maxEdges))
  {
    hide Valid, NodeMap, EdgeMap, FoldedMap, FoldedEdges, Keyed, HiddenSum, AddUnfolded, InOrder, Nodes, Names, Elements, EdgeItems, NodeItems, AsEdges, ClampNodes, ClampEdges;
    var mn, me := ClampNodes(maxNodes), ClampEdges(maxEdges);
    var valid, nodeTotals, dropped, partial := CollectValid(ts);
    ValidIsValid(ts);
    var nodeItems := NodeEntries(nodeTotals);
    var ranked := Sort(nodeItems);
    assert ranked == Ranked(valid);
    var needsOther := |ranked| > mn;
    var keepCount := if needsOther then mn - 1 else |ranked|;
    var keptItems := ranked[..keepCount];
    assert keptItems == KeptItems(valid, mn);
    var kept := KeptNames(keptItems);
    KeptAreNodes(valid, mn);
    var edgeCounts, edgeHidden, hidden := FoldEdges(valid, kept);
    var edgeItems := EdgeEntries(edgeCounts, EdgeMap(valid, kept));
    var all := Sort(edgeItems);
    assert all == AllEdges(valid, mn);
    var shown := all;
    var truncated := needsOther;
    DroppedAreMarked(valid, mn, edgeHidden, if |all| > me then me else |all|);
    hide Ranked, KeptItems, AllEdges;
    if |all| > me {
      hidden := HideDropped(all[me..], edgeHidden, hidden, FoldedEdges(valid, kept));
      shown := all[..me];
      truncated := true;
    } else {
      NothingDropped(hidden, all, FoldedEdges(valid, kept));
    }
    var edges := AsEdges(shown);
    var visible := VisibleTotals(edges);
    var nodes := ListNodes(keptItems, needsOther, visible);
    g := Graph(nodes, edges, |ts|, hidden, dropped, truncated, partial);
  }

  lemma NothingDropped(h: int, all: seq<Item>, folded: set<Pair>)
    ensures AddUnfolded(h, all[|all|..], folded) == h
  {
  }
}
