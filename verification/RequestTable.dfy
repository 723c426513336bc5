/** The bounded request table (httpstats/httpstats.go): one row for each identity, and in each
    row one entry for each SQL shape. Identities and pairs of identity and shape are admitted
    from two budgets shared by the whole table; what finds its budget spent goes to an overflow
    identity or an overflow shape.  An observation is one step.
 */
module RequestTable {
  import opened Counting
  import Ranking
  import Q = Quantiles

  const OVERFLOW_PATH := "(other)"
  const OVERFLOW_SHAPE := "(other SQL shapes)"
  const DEFAULT_MAX_SHAPE_KEYS: nat := 2048

  datatype Identity = Identity(verb: string, path: string, protocol: string, status: int)

  const OverflowIdentity := Identity("*", OVERFLOW_PATH, "*", 0)

  datatype Shape = Shape(count: int, time: int, errors: int)

  const NoShape := Shape(0, 0, 0)

  /** Durations by powers of two. */
  type Buckets = b: seq<nat> | |b| == Q.HTTP_BUCKETS witness Q.NoBuckets(Q.HTTP_BUCKETS)

  datatype Stat = Stat(count: nat, time: int, max: nat, bytes: int, buckets: Buckets, shapes: map<string, Shape>)

  const EmptyStat := Stat(0, 0, 0, 0, Q.NoBuckets(Q.HTTP_BUCKETS), map[])

  datatype Observation = Observation(id: Identity, duration: int, bytes: int, shapes: map<string, Shape>)

  datatype Table = Table(stats: map<Identity, Stat>, keys: nat, shapeKeys: nat)

  const Empty := Table(map[], 0, 0)

  // ---------------------------------------------------------------- shapes of one request

  function Plus(a: Shape, b: Shape): Shape {
    Shape(a.count + b.count, a.time + b.time, a.errors + b.errors)
  }

  function At(shapes: map<string, Shape>, key: string): Shape {
    if key in shapes then shapes[key] else NoShape
  }

  /** A shape needs a place of its own: it has none in the row and is not the overflow shape. */
  predicate NeedsKey(existing: set<string>, key: string) {
    key !in existing && key != OVERFLOW_SHAPE
  }

  /** The request's shapes in order of name; one that finds the budget spent is merged into the
      overflow shape. */
  function Resolve(existing: set<string>, order: seq<Ranking.Item>, shapes: map<string, Shape>, used: nat): (map<string, Shape>, nat) {
    if order == [] then (map[], used)
    else
      var before := Resolve(existing, order[..|order| - 1], shapes, used);
      var key := order[|order| - 1].a;
      var spent := NeedsKey(existing, key) && before.1 >= DEFAULT_MAX_SHAPE_KEYS;
      var slot := if spent then OVERFLOW_SHAPE else key;
      (before.0[slot := Plus(At(before.0, slot), At(shapes, key))],
       if NeedsKey(existing, key) && !spent then before.1 + 1 else before.1)
  }

  function Merged(a: map<string, Shape>, b: map<string, Shape>): map<string, Shape> {
    map key | key in a.Keys + b.Keys :: Plus(At(a, key), At(b, key))
  }

  // ---------------------------------------------------------------- the step

  function StatAt(stats: map<Identity, Stat>, id: Identity): Stat {
    if id in stats then stats[id] else EmptyStat
  }

  predicate Admits(t: Table, limit: nat, id: Identity) {
    id in t.stats || id.path == OVERFLOW_PATH || t.keys < limit
  }

  function Target(t: Table, limit: nat, id: Identity): Identity {
    if Admits(t, limit, id) then id else OverflowIdentity
  }

  function NonNegative(x: int): nat {
    if x < 0 then 0 else x
  }

  /** bucketFor */
  function BucketOf(ns: nat): (i: nat)
    ensures i < Q.HTTP_BUCKETS
  {
    Q.Log2Bucket(ns, Q.HTTP_BUCKETS)
  }


  function AddTo(st: Stat, ob: Observation, resolved: map<string, Shape>): Stat {
    var d := NonNegative(ob.duration);
    Stat(st.count + 1, st.time + d, if d > st.max then d else st.max, st.bytes + NonNegative(ob.bytes),
         st.buckets[BucketOf(d) := st.buckets[BucketOf(d)] + 1], Merged(st.shapes, resolved))
  }

  ghost function Observe(t: Table, limit: nat, ob: Observation): Table {
    var id := Target(t, limit, ob.id);
    var st := StatAt(t.stats, id);
    var resolved := Resolve(st.shapes.Keys, Ranking.InOrder(Ranking.Named(ob.shapes.Keys)), ob.shapes, t.shapeKeys);
    Table(t.stats[id := AddTo(st, ob, resolved.0)],
          if ob.id !in t.stats && ob.id.path != OVERFLOW_PATH && t.keys < limit then t.keys + 1 else t.keys,
          resolved.1)
  }

  ghost function Observed(obs: seq<Observation>, limit: nat): Table {
    if obs == [] then Empty else Observe(Observed(obs[..|obs| - 1], limit), limit, obs[|obs| - 1])
  }

  // ---------------------------------------------------------------- totals over shapes

  ghost function Times(shapes: map<string, Shape>): map<string, int> {
    map key | key in shapes :: shapes[key].time
  }

  ghost function Calls(shapes: map<string, Shape>): map<string, int> {
    map key | key in shapes :: shapes[key].count
  }

  ghost function Errors(shapes: map<string, Shape>): map<string, int> {
    map key | key in shapes :: shapes[key].errors
  }

  ghost function Total(shapes: map<string, Shape>): Shape {
    Shape(Sum(Calls(shapes)), Sum(Times(shapes)), Sum(Errors(shapes)))
  }

  lemma TotalEmpty()
    ensures Total(map[]) == NoShape
  {
    assert Calls(map[]) == map[] && Times(map[]) == map[] && Errors(map[]) == map[];
  }

  /** Adding to one entry adds to the total. */
  lemma TotalAdd(shapes: map<string, Shape>, key: string, v: Shape)
    ensures Total(shapes[key := Plus(At(shapes, key), v)]) == Plus(Total(shapes), v)
  {
    var w := Plus(At(shapes, key), v);
    var next := shapes[key := w];
    assert Calls(next) == Calls(shapes)[key := w.count];
    assert Times(next) == Times(shapes)[key := w.time];
    assert Errors(next) == Errors(shapes)[key := w.errors];
    SumUpdate(Calls(shapes), key, w.count);
    SumUpdate(Times(shapes), key, w.time);
    SumUpdate(Errors(shapes), key, w.errors);
  }

  lemma MergedOne(a: map<string, Shape>, rest: map<string, Shape>, key: string, v: Shape)
    requires key !in rest
    ensures Merged(a, rest[key := v]) == Merged(a, rest)[key := Plus(At(Merged(a, rest), key), v)]
  {
  }

  lemma MergedNone(a: map<string, Shape>)
    ensures Merged(a, map[]) == a && Plus(Total(a), NoShape) == Total(a)
  {
    hide Total;
  }

  lemma PlusFacts(a: Shape, b: Shape, c: Shape)
    ensures Plus(Plus(a, b), c) == Plus(a, Plus(b, c)) && Plus(NoShape, c) == c
  {
  }

  lemma AddNew(rest: map<string, Shape>, key: string, v: Shape)
    requires key !in rest
    ensures Total(rest[key := v]) == Plus(Total(rest), v)
  {
    TotalAdd(rest, key, v);
    PlusFacts(v, v, v);
    hide Total, Plus;
  }

  lemma {:induction false} TotalMerged(a: map<string, Shape>, b: map<string, Shape>)
    ensures Total(Merged(a, b)) == Plus(Total(a), Total(b))
    decreases |b|
  {
    hide *;
    TotalEmpty();
    MergedNone(a);
    if b != map[] {
      var key :| key in b;
      var rest, v := b - {key}, b[key];
      assert b == rest[key := v];
      TotalMerged(a, rest);
      MergedOne(a, rest, key, v);
      TotalAdd(Merged(a, rest), key, v);
      AddNew(rest, key, v);
      PlusFacts(Total(a), Total(rest), v);
    }
  }

  // ---------------------------------------------------------------- resolving keeps the totals

  predicate DistinctNames(order: seq<Ranking.Item>) {
    forall i, j :: 0 <= i < j < |order| ==> order[i].a != order[j].a
  }

  function NamesOf(order: seq<Ranking.Item>): set<string> {
    set i | 0 <= i < |order| :: order[i].a
  }

  function Only(shapes: map<string, Shape>, names: set<string>): map<string, Shape> {
    map key | key in shapes && key in names :: shapes[key]
  }

  lemma LastName(order: seq<Ranking.Item>)
    requires order != [] && DistinctNames(order)
    ensures var front := order[..|order| - 1];
            && DistinctNames(front)
            && order[|order| - 1].a !in NamesOf(front)
            && NamesOf(order) == NamesOf(front) + {order[|order| - 1].a}
  {
    var front := order[..|order| - 1];
    forall x | x in NamesOf(front) ensures x in NamesOf(order) {
      var i :| 0 <= i < |front| && front[i].a == x;
      assert order[i].a == x;
    }
  }

  lemma OnlyNext(shapes: map<string, Shape>, names: set<string>, key: string)
    requires key in shapes && key !in names
    ensures Only(shapes, names + {key}) == Only(shapes, names)[key := shapes[key]] && key !in Only(shapes, names)
  {
  }

  lemma OnlyNothing(shapes: map<string, Shape>, order: seq<Ranking.Item>)
    requires order == []
    ensures Only(shapes, NamesOf(order)) == map[]
  {
  }

  lemma ResolveUnfold(existing: set<string>, order: seq<Ranking.Item>, shapes: map<string, Shape>, used: nat) returns (slot: string)
    requires order != [] && order[|order| - 1].a in shapes
    ensures var before := Resolve(existing, order[..|order| - 1], shapes, used);
            Resolve(existing, order, shapes, used).0 == before.0[slot := Plus(At(before.0, slot), shapes[order[|order| - 1].a])]
  {
    var before := Resolve(existing, order[..|order| - 1], shapes, used);
    var key := order[|order| - 1].a;
    slot := if NeedsKey(existing, key) && before.1 >= DEFAULT_MAX_SHAPE_KEYS then OVERFLOW_SHAPE else key;
    assert At(shapes, key) == shapes[key];
    hide Plus, At, NeedsKey;
  }

  lemma {:induction false} ResolveKeepsTotal(existing: set<string>, order: seq<Ranking.Item>, shapes: map<string, Shape>, used: nat)
    requires DistinctNames(order) && NamesOf(order) <= shapes.Keys
    ensures Total(Resolve(existing, order, shapes, used).0) == Total(Only(shapes, NamesOf(order)))
  {
    if order == [] {
      OnlyNothing(shapes, order);
    } else {
      hide *;
      var front, key := order[..|order| - 1], order[|order| - 1].a;
      LastName(order);
      ResolveKeepsTotal(existing, front, shapes, used);
      OnlyNext(shapes, NamesOf(front), key);
      AddNew(Only(shapes, NamesOf(front)), key, shapes[key]);
      var slot := ResolveUnfold(existing, order, shapes, used);
      TotalAdd(Resolve(existing, front, shapes, used).0, slot, shapes[key]);
    }
  }

  /** The names that were given a place of their own are counted, and fit the budget. */
  lemma {:induction false} ResolveCounts(existing: set<string>, order: seq<Ranking.Item>, shapes: map<string, Shape>, used: nat)
    requires DistinctNames(order) && used <= DEFAULT_MAX_SHAPE_KEYS
    ensures var r := Resolve(existing, order, shapes, used);
            && r.1 <= DEFAULT_MAX_SHAPE_KEYS
            && |NewNames(r.0.Keys, existing)| == r.1 - used
            && r.0.Keys <= NamesOf(order) + {OVERFLOW_SHAPE}
  {
    if order != [] {
      hide *;
      var front, key := order[..|order| - 1], order[|order| - 1].a;
      LastName(order);
      ResolveCounts(existing, front, shapes, used);
      ResolveStep(existing, order, shapes, used);
      NewNamesStep(Resolve(existing, front, shapes, used).0.Keys, existing, NamesOf(front), key);
    }
  }

  function NewNames(names: set<string>, existing: set<string>): set<string> {
    names - existing - {OVERFLOW_SHAPE}
  }

  lemma NewNamesSame(names: set<string>, existing: set<string>, key: string)
    requires !NeedsKey(existing, key)
    ensures NewNames(names + {key}, existing) == NewNames(names, existing)
  {
  }

  lemma NewNamesGrow(names: set<string>, existing: set<string>, key: string)
    requires NeedsKey(existing, key) && key !in names
    ensures |NewNames(names + {key}, existing)| == |NewNames(names, existing)| + 1
  {
    assert NewNames(names + {key}, existing) == NewNames(names, existing) + {key};
  }

  lemma NewNamesStep(names: set<string>, existing: set<string>, seen: set<string>, key: string)
    requires key !in seen && names <= seen + {OVERFLOW_SHAPE}
    ensures NewNames(names + {OVERFLOW_SHAPE}, existing) == NewNames(names, existing)
    ensures NeedsKey(existing, key) ==> |NewNames(names + {key}, existing)| == |NewNames(names, existing)| + 1
    ensures !NeedsKey(existing, key) ==> NewNames(names + {key}, existing) == NewNames(names, existing)
    ensures names + {key} <= seen + {key} + {OVERFLOW_SHAPE}
  {
    NewNamesSame(names, existing, OVERFLOW_SHAPE);
    hide NewNames;
    if NeedsKey(existing, key) {
      NewNamesGrow(names, existing, key);
    } else {
      NewNamesSame(names, existing, key);
    }
  }

  lemma ResolveStep(existing: set<string>, order: seq<Ranking.Item>, shapes: map<string, Shape>, used: nat)
    requires order != []
    ensures var before := Resolve(existing, order[..|order| - 1], shapes, used);
            var r := Resolve(existing, order, shapes, used);
            var key := order[|order| - 1].a;
            if NeedsKey(existing, key) && before.1 < DEFAULT_MAX_SHAPE_KEYS then r.0.Keys == before.0.Keys + {key} && r.1 == before.1 + 1
            else if NeedsKey(existing, key) then r.0.Keys == before.0.Keys + {OVERFLOW_SHAPE} && r.1 == before.1
            else r.0.Keys == before.0.Keys + {key} && r.1 == before.1
  {
    hide Plus, At;
  }

  lemma OrderNames(shapes: map<string, Shape>)
    ensures DistinctNames(Ranking.InOrder(Ranking.Named(shapes.Keys)))
    ensures NamesOf(Ranking.InOrder(Ranking.Named(shapes.Keys))) == shapes.Keys
  {
    var items := Ranking.Named(shapes.Keys);
    var order := Ranking.InOrder(items);
    Ranking.InOrderIsSorted(items);
    forall i | 0 <= i < |order| ensures order[i] == Ranking.Item(0, order[i].a, "") && order[i].a in shapes {
      assert order[i] in Ranking.Elements(order);
    }
    forall i, j | 0 <= i < j < |order| ensures order[i].a != order[j].a {
      assert Ranking.Before(order[i], order[j]);
      Ranking.BeforeTrichotomy(order[i], order[j]);
    }
    forall key | key in shapes ensures key in NamesOf(order) {
      assert Ranking.Item(0, key, "") in Ranking.Elements(order);
    }
  }

  /** What one request adds to a row: its calls, times and errors are all kept, and the pairs it
      adds are exactly what it took from the budget. */
  lemma RowShapes(row: map<string, Shape>, shapes: map<string, Shape>, used: nat)
    requires used <= DEFAULT_MAX_SHAPE_KEYS
    ensures var r := Resolve(row.Keys, Ranking.InOrder(Ranking.Named(shapes.Keys)), shapes, used);
            && Total(Merged(row, r.0)) == Plus(Total(row), Total(shapes))
            && r.1 <= DEFAULT_MAX_SHAPE_KEYS
            && |Merged(row, r.0).Keys - {OVERFLOW_SHAPE}| == |row.Keys - {OVERFLOW_SHAPE}| + r.1 - used
  {
    hide *;
    var order := Ranking.InOrder(Ranking.Named(shapes.Keys));
    var r := Resolve(row.Keys, order, shapes, used);
    OrderNames(shapes);
    ResolveKeepsTotal(row.Keys, order, shapes, used);
    OnlyAll(shapes);
    ResolveCounts(row.Keys, order, shapes, used);
    TotalMerged(row, r.0);
    MergedKeys(row, r.0);
  }

  lemma OnlyAll(shapes: map<string, Shape>)
    ensures Only(shapes, shapes.Keys) == shapes
  {
  }

  lemma MergedKeys(a: map<string, Shape>, b: map<string, Shape>)
    ensures |Merged(a, b).Keys - {OVERFLOW_SHAPE}| == |a.Keys - {OVERFLOW_SHAPE}| + |NewNames(b.Keys, a.Keys)|
  {
    assert Merged(a, b).Keys == a.Keys + b.Keys;
    hide Merged;
    NamesGained(a.Keys, b.Keys);
  }

  lemma NamesGained(a: set<string>, b: set<string>)
    ensures |(a + b) - {OVERFLOW_SHAPE}| == |a - {OVERFLOW_SHAPE}| + |NewNames(b, a)|
  {
    var kept, added := a - {OVERFLOW_SHAPE}, NewNames(b, a);
    assert kept !! added;
    assert (a + b) - {OVERFLOW_SHAPE} == kept + added;
    assert |kept + added| == |kept| + |added|;
  }

  // ---------------------------------------------------------------- the reference

  /** What a row should hold: the observations of some identities, added up. */
  datatype Totals = Totals(latency: Q.Histogram, time: int, bytes: int, sql: Shape)

  const NoTotals := Totals(Q.EmptyHistogram(Q.HTTP_BUCKETS), 0, 0, NoShape)

  ghost function TotalsOf(st: Stat): (r: Totals)
    ensures |r.latency.buckets| == Q.HTTP_BUCKETS
  {
    Totals(Q.Histogram(st.buckets, st.count, st.max), st.time, st.bytes, Total(st.shapes))
  }

  ghost function AddTotals(a: Totals, ob: Observation): (r: Totals)
    requires |a.latency.buckets| == Q.HTTP_BUCKETS
    ensures |r.latency.buckets| == Q.HTTP_BUCKETS
  {
    var d := NonNegative(ob.duration);
    Totals(Q.Record(a.latency, Durations(), d), a.time + d, a.bytes + NonNegative(ob.bytes), Plus(a.sql, Total(ob.shapes)))
  }

  function Durations(): (f: int -> nat)
    ensures forall ns: nat :: f(ns) == BucketOf(ns)
  {
    Q.Log2F(Q.HTTP_BUCKETS)
  }

  ghost function TotalsFor(obs: seq<Observation>, chosen: Identity -> bool): (r: Totals)
    ensures |r.latency.buckets| == Q.HTTP_BUCKETS
  {
    if obs == [] then NoTotals
    else
      var before := TotalsFor(obs[..|obs| - 1], chosen);
      if chosen(obs[|obs| - 1].id) then AddTotals(before, obs[|obs| - 1]) else before
  }

  function Is(id: Identity): Identity -> bool {
    x => x == id
  }

  function Elsewhere(ids: set<Identity>): Identity -> bool {
    x => x !in ids || x == OverflowIdentity
  }

  lemma {:induction false} TotalsSame(obs: seq<Observation>, p: Identity -> bool, q: Identity -> bool)
    requires forall i :: 0 <= i < |obs| ==> p(obs[i].id) == q(obs[i].id)
    ensures TotalsFor(obs, p) == TotalsFor(obs, q)
  {
    if obs != [] { TotalsSame(obs[..|obs| - 1], p, q); }
  }

  lemma {:induction false} TotalsNone(obs: seq<Observation>, p: Identity -> bool)
    requires forall i :: 0 <= i < |obs| ==> !p(obs[i].id)
    ensures TotalsFor(obs, p) == NoTotals
  {
    if obs != [] { TotalsNone(obs[..|obs| - 1], p); }
  }

  lemma TotalsSnoc(obs: seq<Observation>, ob: Observation, p: Identity -> bool)
    ensures TotalsFor(obs + [ob], p) == if p(ob.id) then AddTotals(TotalsFor(obs, p), ob) else TotalsFor(obs, p)
  {
    assert (obs + [ob])[..|obs|] == obs;
  }

  /** The clamped durations of the chosen observations, in order. */
  function DurationsOf(obs: seq<Observation>, chosen: Identity -> bool): seq<int> {
    if obs == [] then []
    else DurationsOf(obs[..|obs| - 1], chosen) + if chosen(obs[|obs| - 1].id) then [NonNegative(obs[|obs| - 1].duration) as int] else []
  }

  lemma NoneDescribed()
    ensures Q.Describes(NoTotals.latency, [], Durations())
  {
  }

  lemma AddDescribes(a: Totals, ob: Observation, xs: seq<int>)
    requires |a.latency.buckets| == Q.HTTP_BUCKETS && Q.Describes(a.latency, xs, Durations())
    ensures Q.Describes(AddTotals(a, ob).latency, xs + [NonNegative(ob.duration) as int], Durations())
  {
    var d: int := NonNegative(ob.duration);
    assert Durations()(d) == BucketOf(d);
    hide Q.Describes, Durations, BucketOf;
    Q.RecordDescribes(a.latency, xs, Durations(), d);
  }

  /** The buckets and the maximum are the histogram of the observations' durations. */
  lemma {:induction false} TotalsDescribe(obs: seq<Observation>, chosen: Identity -> bool)
    ensures Q.Describes(TotalsFor(obs, chosen).latency, DurationsOf(obs, chosen), Durations())
  {
    hide AddTotals, Q.Describes, Durations;
    if obs == [] {
      NoneDescribed();
    } else {
      var front, ob := obs[..|obs| - 1], obs[|obs| - 1];
      TotalsDescribe(front, chosen);
      var before := DurationsOf(front, chosen);
      assert DurationsOf(obs, chosen) == if chosen(ob.id) then before + [NonNegative(ob.duration) as int] else before;
      AddDescribes(TotalsFor(front, chosen), ob, before);
    }
  }

  // ---------------------------------------------------------------- the invariant

  ghost predicate ExactRows(obs: seq<Observation>, stats: map<Identity, Stat>) {
    forall id :: id in stats && id != OverflowIdentity ==> TotalsOf(stats[id]) == TotalsFor(obs, Is(id))
  }

  ghost predicate ExactRest(obs: seq<Observation>, stats: map<Identity, Stat>) {
    TotalsOf(StatAt(stats, OverflowIdentity)) == TotalsFor(obs, Elsewhere(stats.Keys))
  }

  ghost predicate FullIfMissing(obs: seq<Observation>, t: Table, limit: nat) {
    forall i :: 0 <= i < |obs| && obs[i].id !in t.stats ==> t.keys >= limit && obs[i].id.path != OVERFLOW_PATH
  }

  ghost function Proper(stats: map<Identity, Stat>): set<Identity> {
    set id | id in stats && id.path != OVERFLOW_PATH
  }

  function Pairs(st: Stat): nat {
    |st.shapes.Keys - {OVERFLOW_SHAPE}|
  }

  ghost function PairCounts(stats: map<Identity, Stat>): map<Identity, int> {
    map id | id in stats :: Pairs(stats[id])
  }

  ghost function RowCounts(stats: map<Identity, Stat>): map<Identity, int> {
    map id | id in stats :: stats[id].count
  }

  ghost predicate Budgets(t: Table, limit: nat) {
    && |Proper(t.stats)| == t.keys <= limit
    && Sum(PairCounts(t.stats)) == t.shapeKeys <= DEFAULT_MAX_SHAPE_KEYS
  }

  ghost predicate Inv(obs: seq<Observation>, t: Table, limit: nat) {
    && ExactRows(obs, t.stats) && ExactRest(obs, t.stats) && FullIfMissing(obs, t, limit) && Budgets(t, limit)
    && Sum(RowCounts(t.stats)) == |obs|
  }

  lemma Unchanged(a: map<Identity, Stat>, id: Identity, st: Stat, k: Identity)
    requires k != id
    ensures StatAt(a[id := st], k) == StatAt(a, k)
  {
  }

  /** The row that takes the observation, and what it holds then. */
  lemma ObserveRow(t: Table, limit: nat, ob: Observation)
    requires t.shapeKeys <= DEFAULT_MAX_SHAPE_KEYS
    ensures var id := Target(t, limit, ob.id);
            var next := Observe(t, limit, ob);
            && next.stats == t.stats[id := StatAt(next.stats, id)]
            && TotalsOf(StatAt(next.stats, id)) == AddTotals(TotalsOf(StatAt(t.stats, id)), ob)
            && next.shapeKeys <= DEFAULT_MAX_SHAPE_KEYS
            && Pairs(StatAt(next.stats, id)) == Pairs(StatAt(t.stats, id)) + next.shapeKeys - t.shapeKeys
            && StatAt(next.stats, id).count == StatAt(t.stats, id).count + 1
  {
    hide *;
    ObserveIs(t, limit, ob);
    var st := StatAt(t.stats, Target(t, limit, ob.id));
    RowShapes(st.shapes, ob.shapes, t.shapeKeys);
    AddToTotals(st, ob, Resolve(st.shapes.Keys, Ranking.InOrder(Ranking.Named(ob.shapes.Keys)), ob.shapes, t.shapeKeys).0);
  }

  lemma ObserveIs(t: Table, limit: nat, ob: Observation)
    ensures var id := Target(t, limit, ob.id);
            var st := StatAt(t.stats, id);
            var next := Observe(t, limit, ob);
            var resolved := Resolve(st.shapes.Keys, Ranking.InOrder(Ranking.Named(ob.shapes.Keys)), ob.shapes, t.shapeKeys);
            && next.stats == t.stats[id := StatAt(next.stats, id)]
            && StatAt(next.stats, id) == AddTo(st, ob, resolved.0)
            && next.shapeKeys == resolved.1
  {
    hide Resolve, AddTo, Target, Ranking.InOrder, Ranking.Named;
  }

  lemma RecordAt(buckets: seq<nat>, n: nat, max: nat, f: int -> nat, d: nat, at: nat)
    requires f(d) == at < |buckets|
    ensures Q.Record(Q.Histogram(buckets, n, max), f, d) == Q.Histogram(buckets[at := buckets[at] + 1], n + 1, if d > max then d else max)
  {
  }

  lemma RecordIs(buckets: Buckets, n: nat, max: nat, d: nat)
    ensures Q.Record(Q.Histogram(buckets, n, max), Durations(), d) ==
            Q.Histogram(buckets[BucketOf(d) := buckets[BucketOf(d)] + 1], n + 1, if d > max then d else max)
  {
    hide Q.Record, BucketOf;
    RecordAt(buckets, n, max, Durations(), d, BucketOf(d));
  }

  lemma AddToTotals(st: Stat, ob: Observation, resolved: map<string, Shape>)
    ensures var r := AddTo(st, ob, resolved);
            && Pairs(r) == |Merged(st.shapes, resolved).Keys - {OVERFLOW_SHAPE}| && r.count == st.count + 1
            && r.shapes == Merged(st.shapes, resolved) && Pairs(st) == |st.shapes.Keys - {OVERFLOW_SHAPE}|
            && (Total(r.shapes) == Plus(Total(st.shapes), Total(ob.shapes)) ==> TotalsOf(r) == AddTotals(TotalsOf(st), ob))
  {
    hide Merged, Total, Plus, BucketOf, Durations, Q.Record, NonNegative;
    RecordIs(st.buckets, st.count, st.max, NonNegative(ob.duration));
  }

  lemma EmptyTotals()
    ensures TotalsOf(EmptyStat) == NoTotals
  {
    TotalEmpty();
  }

  lemma ExactTaken(obs: seq<Observation>, was: Totals, now: Totals, ob: Observation)
    requires |was.latency.buckets| == Q.HTTP_BUCKETS
    requires was == TotalsFor(obs, Is(ob.id)) && now == AddTotals(was, ob)
    ensures now == TotalsFor(obs + [ob], Is(ob.id))
  {
    TotalsSnoc(obs, ob, Is(ob.id));
  }

  lemma ExactKept(obs: seq<Observation>, ob: Observation, id: Identity)
    requires id != ob.id
    ensures TotalsFor(obs + [ob], Is(id)) == TotalsFor(obs, Is(id))
  {
    TotalsSnoc(obs, ob, Is(id));
  }

  /** The totals a new row starts from. */
  lemma ExactBefore(obs: seq<Observation>, stats: map<Identity, Stat>, id: Identity)
    requires ExactRows(obs, stats) && id != OverflowIdentity
    requires id !in stats ==> forall i :: 0 <= i < |obs| ==> obs[i].id != id
    ensures TotalsOf(StatAt(stats, id)) == TotalsFor(obs, Is(id))
  {
    if id !in stats {
      EmptyTotals();
      TotalsNone(obs, Is(id));
    }
    hide TotalsOf, TotalsFor;
  }

  lemma NotSeen(obs: seq<Observation>, t: Table, limit: nat, id: Identity)
    requires FullIfMissing(obs, t, limit)
    ensures id !in t.stats && Admits(t, limit, id) ==> forall i :: 0 <= i < |obs| ==> obs[i].id != id
  {
  }

  lemma SameElsewhere(obs: seq<Observation>, t: Table, limit: nat, id: Identity, i: nat)
    requires FullIfMissing(obs, t, limit) && i < |obs|
    ensures Elsewhere(t.stats.Keys)(obs[i].id) == Elsewhere(t.stats.Keys + {Target(t, limit, id)})(obs[i].id)
  {
    NotSeen(obs, t, limit, id);
    hide FullIfMissing;
  }

  lemma ElsewhereTakes(t: Table, limit: nat, id: Identity)
    ensures Elsewhere(t.stats.Keys + {Target(t, limit, id)})(id) <==> Target(t, limit, id) == OverflowIdentity
  {
  }

  lemma RestAt(obs: seq<Observation>, t: Table, limit: nat, ob: Observation)
    requires ExactRest(obs, t.stats) && FullIfMissing(obs, t, limit) && t.shapeKeys <= DEFAULT_MAX_SHAPE_KEYS
    ensures ExactRest(obs + [ob], Observe(t, limit, ob).stats)
  {
    var next := Observe(t, limit, ob);
    var id := Target(t, limit, ob.id);
    hide Observe, TotalsOf, TotalsFor, AddTotals, FullIfMissing, Target, StatAt, Elsewhere;
    ObserveRow(t, limit, ob);
    ObserveKeys(t, limit, ob);
    TotalsSnoc(obs, ob, Elsewhere(next.stats.Keys));
    forall i | 0 <= i < |obs| ensures Elsewhere(t.stats.Keys)(obs[i].id) == Elsewhere(next.stats.Keys)(obs[i].id) {
      SameElsewhere(obs, t, limit, ob.id, i);
    }
    TotalsSame(obs, Elsewhere(t.stats.Keys), Elsewhere(next.stats.Keys));
    ElsewhereTakes(t, limit, ob.id);
    if id != OverflowIdentity { Unchanged(t.stats, id, StatAt(next.stats, id), OverflowIdentity); }
  }

  lemma ObserveKeys(t: Table, limit: nat, ob: Observation)
    ensures var next := Observe(t, limit, ob);
            && next.stats.Keys == t.stats.Keys + {Target(t, limit, ob.id)}
            && next.keys == (if ob.id !in t.stats && ob.id.path != OVERFLOW_PATH && t.keys < limit then t.keys + 1 else t.keys)
  {
    hide Resolve, AddTo;
  }

  lemma FullAfter(obs: seq<Observation>, t: Table, limit: nat, ob: Observation)
    requires FullIfMissing(obs, t, limit)
    ensures FullIfMissing(obs + [ob], Observe(t, limit, ob), limit)
  {
    ObserveKeys(t, limit, ob);
    hide Observe;
  }

  lemma ProperAfter(t: Table, limit: nat, ob: Observation)
    requires |Proper(t.stats)| == t.keys <= limit
    ensures var next := Observe(t, limit, ob); |Proper(next.stats)| == next.keys <= limit
  {
    hide Observe;
    ObserveKeys(t, limit, ob);
    ProperGains(t.stats, Observe(t, limit, ob).stats, Target(t, limit, ob.id));
  }

  lemma ProperGains(stats: map<Identity, Stat>, next: map<Identity, Stat>, id: Identity)
    requires next.Keys == stats.Keys + {id}
    ensures |Proper(next)| == |Proper(stats)| + if id !in stats && id.path != OVERFLOW_PATH then 1 else 0
  {
    if id !in stats && id.path != OVERFLOW_PATH {
      assert Proper(next) == Proper(stats) + {id};
    } else {
      assert Proper(next) == Proper(stats);
    }
  }

  lemma RowSums(stats: map<Identity, Stat>, id: Identity, st: Stat)
    ensures Sum(PairCounts(stats[id := st])) == Sum(PairCounts(stats)) - Pairs(StatAt(stats, id)) + Pairs(st)
    ensures Sum(RowCounts(stats[id := st])) == Sum(RowCounts(stats)) - StatAt(stats, id).count + st.count
  {
    PairSum(stats, id, st);
    CountSum(stats, id, st);
  }

  lemma NoPairs()
    ensures Pairs(EmptyStat) == 0
  {
    assert EmptyStat.shapes.Keys - {OVERFLOW_SHAPE} == {};
  }

  lemma PairSum(stats: map<Identity, Stat>, id: Identity, st: Stat)
    ensures Sum(PairCounts(stats[id := st])) == Sum(PairCounts(stats)) - Pairs(StatAt(stats, id)) + Pairs(st)
  {
    hide Pairs;
    NoPairs();
    assert PairCounts(stats[id := st]) == PairCounts(stats)[id := Pairs(st)];
    SumUpdate(PairCounts(stats), id, Pairs(st));
  }

  lemma CountSum(stats: map<Identity, Stat>, id: Identity, st: Stat)
    ensures Sum(RowCounts(stats[id := st])) == Sum(RowCounts(stats)) - StatAt(stats, id).count + st.count
  {
    assert RowCounts(stats[id := st]) == RowCounts(stats)[id := st.count];
    SumUpdate(RowCounts(stats), id, st.count);
  }

  lemma SumsAfter(t: Table, limit: nat, ob: Observation)
    requires Sum(PairCounts(t.stats)) == t.shapeKeys <= DEFAULT_MAX_SHAPE_KEYS
    ensures var next := Observe(t, limit, ob);
            && Sum(PairCounts(next.stats)) == next.shapeKeys <= DEFAULT_MAX_SHAPE_KEYS
            && Sum(RowCounts(next.stats)) == Sum(RowCounts(t.stats)) + 1
  {
    hide *;
    ObserveRow(t, limit, ob);
    var id := Target(t, limit, ob.id);
    RowSums(t.stats, id, StatAt(Observe(t, limit, ob).stats, id));
  }

  lemma TargetIs(t: Table, limit: nat, id: Identity)
    ensures Target(t, limit, id) == id || (Target(t, limit, id) == OverflowIdentity && id !in t.stats)
    ensures Target(t, limit, id) == id && id != OverflowIdentity ==> Admits(t, limit, id)
  {
  }

  lemma RowAfter(obs: seq<Observation>, t: Table, limit: nat, ob: Observation, k: Identity)
    requires ExactRows(obs, t.stats) && FullIfMissing(obs, t, limit) && t.shapeKeys <= DEFAULT_MAX_SHAPE_KEYS
    requires k in Observe(t, limit, ob).stats && k != OverflowIdentity
    ensures TotalsOf(Observe(t, limit, ob).stats[k]) == TotalsFor(obs + [ob], Is(k))
  {
    hide *;
    var next := Observe(t, limit, ob);
    var id := Target(t, limit, ob.id);
    ObserveRow(t, limit, ob);
    ObserveKeys(t, limit, ob);
    TargetIs(t, limit, ob.id);
    AtIs(next.stats, k);
    if k == ob.id {
      if id == k {
        NotSeen(obs, t, limit, k);
      }
      ExactBefore(obs, t.stats, k);
      if id == k {
        ExactTaken(obs, TotalsOf(StatAt(t.stats, k)), TotalsOf(StatAt(next.stats, k)), ob);
      }
    } else {
      Unchanged(t.stats, id, StatAt(next.stats, id), k);
      ExactBefore(obs, t.stats, k);
      ExactKept(obs, ob, k);
    }
  }

  lemma AtIs(stats: map<Identity, Stat>, id: Identity)
    requires id in stats
    ensures StatAt(stats, id) == stats[id]
  {
  }

  lemma StepInv(obs: seq<Observation>, t: Table, limit: nat, ob: Observation)
    requires Inv(obs, t, limit)
    ensures Inv(obs + [ob], Observe(t, limit, ob), limit)
  {
    var next := Observe(t, limit, ob);
    hide Observe, TotalsOf, TotalsFor, ExactRest, FullIfMissing, Proper, PairCounts, RowCounts;
    forall k | k in next.stats && k != OverflowIdentity ensures TotalsOf(next.stats[k]) == TotalsFor(obs + [ob], Is(k)) {
      RowAfter(obs, t, limit, ob, k);
    }
    RestAt(obs, t, limit, ob);
    FullAfter(obs, t, limit, ob);
    ProperAfter(t, limit, ob);
    SumsAfter(t, limit, ob);
  }

  lemma EmptyInv(limit: nat)
    ensures Inv([], Empty, limit)
  {
    EmptyTotals();
    assert Proper(map[]) == {} && PairCounts(map[]) == map[] && RowCounts(map[]) == map[];
  }

  /** For every sequence of observations: the row counts add up to them; at most maxKeys
      identities other than those of the overflow path have a row; at most 2048 pairs of
      identity and shape exist; every identity but the overflow identity shows exactly the
      count, times, bytes and SQL totals of its own observations; and the overflow identity shows
      exactly those of the observations without a row of their own, which come when the budget
      of rows is spent. */
  lemma {:induction false} NothingIsLost(obs: seq<Observation>, limit: nat)
    ensures var t := Observed(obs, limit);
            && Sum(RowCounts(t.stats)) == |obs|
            && |Proper(t.stats)| == t.keys <= limit
            && Sum(PairCounts(t.stats)) == t.shapeKeys <= DEFAULT_MAX_SHAPE_KEYS
            && (forall id :: id in t.stats && id != OverflowIdentity ==> TotalsOf(t.stats[id]) == TotalsFor(obs, Is(id)))
            && TotalsOf(StatAt(t.stats, OverflowIdentity)) == TotalsFor(obs, Elsewhere(t.stats.Keys))
            && (forall i :: 0 <= i < |obs| && obs[i].id !in t.stats ==> t.keys >= limit && obs[i].id.path != OVERFLOW_PATH)
  {
    InvAlways(obs, limit);
    hide Observed, TotalsOf, TotalsFor, Proper, PairCounts, RowCounts;
  }

  /** The 95th percentile an admitted identity shows bounds the exact one of its own
      observations. */
  lemma RowPercentile(obs: seq<Observation>, limit: nat, id: Identity, x: int)
    requires id in Observed(obs, limit).stats && id != OverflowIdentity
    requires var xs := DurationsOf(obs, Is(id)); Q.Latencies(xs) && Q.NearestRank(xs, Q.Rank(|xs|, 95), x)
    ensures var h := TotalsOf(Observed(obs, limit).stats[id]).latency;
            && 0 <= x <= Q.Log2Percentile95(h)
            && (x < Q.Pow2(38) ==> Q.Log2Percentile95(h) <= 2 * x)
            && (x >= Q.Pow2(38) ==> Q.Log2Percentile95(h) == h.max)
  {
    hide *;
    NothingIsLost(obs, limit);
    TotalsDescribe(obs, Is(id));
    DurationsIs();
    Q.HttpPercentileBounds(TotalsFor(obs, Is(id)).latency, DurationsOf(obs, Is(id)), x);
  }

  lemma DurationsIs()
    ensures Durations() == Q.Log2F(Q.HTTP_BUCKETS)
  {
  }

  lemma {:induction false} InvAlways(obs: seq<Observation>, limit: nat)
    ensures Inv(obs, Observed(obs, limit), limit)
  {
    if obs == [] {
      EmptyInv(limit);
    } else {
      var front, ob := obs[..|obs| - 1], obs[|obs| - 1];
      assert obs == front + [ob];
      hide Inv, Observe;
      InvAlways(front, limit);
      StepInv(front, Observed(front, limit), limit, ob);
    }
  }

  lemma OnlyEmpty(shapes: map<string, Shape>)
    ensures Only(shapes, {}) == map[]
  {
  }

  lemma OnlyNone(row: map<string, Shape>, shapes: map<string, Shape>)
    ensures Merged(row, Only(shapes, {})) == row
  {
    hide *;
    MergedNone(row);
    OnlyEmpty(shapes);
  }

  // ---------------------------------------------------------------- the table

  class Requests {
    const maxKeys: nat
    var stats: map<Identity, Stat>
    var keys: nat
    var shapeKeys: nat
    ghost var history: seq<Observation>

    ghost function View(): Table
      reads this
    {
      Table(stats, keys, shapeKeys)
    }

    ghost predicate Valid()
      reads this
    {
      View() == Observed(history, maxKeys)
    }

    constructor (maxKeys: nat)
      ensures this.maxKeys == maxKeys && Valid() && history == []
    {
      this.maxKeys := maxKeys;
      stats, keys, shapeKeys, history := map[], 0, 0, [];
    }

    method ReserveKey() returns (ok: bool)
      modifies this`keys
      ensures ok <==> old(keys) < maxKeys
      ensures keys == old(keys) + if ok then 1 else 0
    {
      if keys >= maxKeys { return false; }
      keys := keys + 1;
      return true;
    }

    method ReserveShapeKey() returns (ok: bool)
      modifies this`shapeKeys
      ensures ok <==> old(shapeKeys) < DEFAULT_MAX_SHAPE_KEYS
      ensures shapeKeys == old(shapeKeys) + if ok then 1 else 0
    {
      if shapeKeys >= DEFAULT_MAX_SHAPE_KEYS { return false; }
      shapeKeys := shapeKeys + 1;
      return true;
    }

    method ResolveShapes(existing: set<string>, shapes: map<string, Shape>) returns (resolved: map<string, Shape>)
      modifies this`shapeKeys
      ensures (resolved, shapeKeys) == Resolve(existing, Ranking.InOrder(Ranking.Named(shapes.Keys)), shapes, old(shapeKeys))
    {
      hide Plus, Ranking.InOrder, Ranking.Named;
      var order := Ranking.SortNames(shapes.Keys);
      resolved := map[];
      for k := 0 to |order|
        invariant (resolved, shapeKeys) == Resolve(existing, order[..k], shapes, old(shapeKeys))
      {
        assert order[..k + 1][..k] == order[..k];
        var key := order[k].a;
        var value := At(shapes, key);
        if key !in existing && key != OVERFLOW_SHAPE {
          var ok := ReserveShapeKey();
          if !ok { key := OVERFLOW_SHAPE; }
        }
        resolved := resolved[key := Plus(At(resolved, key), value)];
      }
      assert order[..|order|] == order;
    }

    method MergeShapes(row: map<string, Shape>, resolved: map<string, Shape>) returns (r: map<string, Shape>)
      ensures r == Merged(row, resolved)
    {
      hide *;
      r := row;
      var done: set<string> := {};
      OnlyNone(row, resolved);
      while done != resolved.Keys
        invariant done <= resolved.Keys && r == Merged(row, Only(resolved, done))
        decreases |resolved.Keys - done|
      {
        var key :| key in resolved.Keys - done;
        OnlyNext(resolved, done, key);
        MergedOne(row, Only(resolved, done), key, resolved[key]);
        r := r[key := Plus(At(r, key), resolved[key])];
        assert resolved.Keys - (done + {key}) == (resolved.Keys - done) - {key};
        done := done + {key};
      }
      OnlyAll(resolved);
    }

    method ObserveRequest(ob: Observation)
      requires Valid()
      modifies this
      ensures Valid() && history == old(history) + [ob]
    {
      history := history + [ob];
      assert history[..|history| - 1] == old(history);
      var id := ob.id;
      if id !in stats && id.path != OVERFLOW_PATH {
        var ok := ReserveKey();
        if !ok { id := OverflowIdentity; }
      }
      Add(id, ob);
      hide Resolve, AddTo;
    }

    method Add(id: Identity, ob: Observation)
      modifies this`stats, this`shapeKeys
      ensures var st := StatAt(old(stats), id);
              var resolved := Resolve(st.shapes.Keys, Ranking.InOrder(Ranking.Named(ob.shapes.Keys)), ob.shapes, old(shapeKeys));
              stats == old(stats)[id := AddTo(st, ob, resolved.0)] && shapeKeys == resolved.1
    {
      hide Resolve, Merged;
      var st := StatAt(stats, id);
      var resolved := ResolveShapes(st.shapes.Keys, ob.shapes);
      var shapes := MergeShapes(st.shapes, resolved);
      var d := if ob.duration < 0 then 0 else ob.duration;
      var b := if ob.bytes < 0 then 0 else ob.bytes;
      var bucket := BucketOf(d);
      st := Stat(st.count + 1, st.time + d, if d > st.max then d else st.max, st.bytes + b, st.buckets[bucket := st.buckets[bucket] + 1], shapes);
      stats := stats[id := st];
    }
  }
}
