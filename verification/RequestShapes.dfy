/** The SQL shapes of each row of the request table (httpstats/httpstats.go): a shape that has a
    place shows exactly what the row's observations say of it, and it lacks one only if the
    budget of places is spent.
 */
module RequestShapes {
  import opened RequestTable
  import Ranking

  // ---------------------------------------------------------------- the reference

  /** What the chosen observations say of one shape, added up. */
  function ShapeFor(obs: seq<Observation>, chosen: Identity -> bool, key: string): Shape {
    if obs == [] then NoShape
    else
      var before, ob := ShapeFor(obs[..|obs| - 1], chosen, key), obs[|obs| - 1];
      if !chosen(ob.id) || key !in ob.shapes then before
      else
        var more := ob.shapes[key];
        Shape(before.count + more.count, before.time + more.time, before.errors + more.errors)
  }

  ghost predicate Appears(obs: seq<Observation>, chosen: Identity -> bool, key: string) {
    exists i :: 0 <= i < |obs| && chosen(obs[i].id) && key in obs[i].shapes
  }

  lemma {:induction false} ShapeForNone(obs: seq<Observation>, chosen: Identity -> bool, key: string)
    ensures !Appears(obs, chosen, key) ==> ShapeFor(obs, chosen, key) == NoShape
  {
    if obs != [] {
      var front, ob := obs[..|obs| - 1], obs[|obs| - 1];
      ShapeForNone(front, chosen, key);
      assert forall i :: 0 <= i < |front| ==> front[i] == obs[i];
    }
  }

  lemma {:induction false} ShapeForSame(obs: seq<Observation>, p: Identity -> bool, q: Identity -> bool, key: string)
    requires forall i :: 0 <= i < |obs| ==> p(obs[i].id) == q(obs[i].id)
    ensures ShapeFor(obs, p, key) == ShapeFor(obs, q, key) && (Appears(obs, p, key) <==> Appears(obs, q, key))
  {
    if obs != [] { ShapeForSame(obs[..|obs| - 1], p, q, key); }
  }

  lemma ShapeForSnoc(obs: seq<Observation>, ob: Observation, chosen: Identity -> bool, key: string)
    ensures ShapeFor(obs + [ob], chosen, key) ==
              if chosen(ob.id) && key in ob.shapes then Plus(ShapeFor(obs, chosen, key), ob.shapes[key]) else ShapeFor(obs, chosen, key)
    ensures Appears(obs + [ob], chosen, key) <==> Appears(obs, chosen, key) || (chosen(ob.id) && key in ob.shapes)
  {
    var more := obs + [ob];
    assert more[..|obs|] == obs;
    assert more[|obs|] == ob && forall i :: 0 <= i < |obs| ==> more[i] == obs[i];
    if Appears(obs, chosen, key) {
      var i :| 0 <= i < |obs| && chosen(obs[i].id) && key in obs[i].shapes;
      assert chosen(more[i].id) && key in more[i].shapes;
    }
  }

  // ---------------------------------------------------------------- one request's shapes

  /** A shape is resolved to itself unless it needs a place and the budget is spent. */
  lemma {:induction false} ResolveAt(existing: set<string>, order: seq<Ranking.Item>, shapes: map<string, Shape>, used: nat, key: string)
    requires DistinctNames(order) && NamesOf(order) <= shapes.Keys && key != OVERFLOW_SHAPE
    ensures var r := Resolve(existing, order, shapes, used);
            && used <= r.1
            && (key in r.0 ==> key in NamesOf(order) && key in shapes && r.0[key] == shapes[key] && (key in existing || used < DEFAULT_MAX_SHAPE_KEYS))
            && (key in NamesOf(order) && key !in r.0 ==> key !in existing && r.1 >= DEFAULT_MAX_SHAPE_KEYS)
  {
    if order != [] {
      var front, last := order[..|order| - 1], order[|order| - 1].a;
      LastName(order);
      ResolveAt(existing, front, shapes, used, key);
      ResolveLast(existing, order, shapes, used);
      hide Resolve, NamesOf, DistinctNames;
    }
  }

  lemma ResolveLast(existing: set<string>, order: seq<Ranking.Item>, shapes: map<string, Shape>, used: nat)
    requires order != [] && order[|order| - 1].a in shapes
    ensures var before := Resolve(existing, order[..|order| - 1], shapes, used);
            var r := Resolve(existing, order, shapes, used);
            var last := order[|order| - 1].a;
            var spent := last !in existing && last != OVERFLOW_SHAPE && before.1 >= DEFAULT_MAX_SHAPE_KEYS;
            && (spent ==> r.1 == before.1 && forall k :: k != OVERFLOW_SHAPE ==> (k in r.0 <==> k in before.0) && (k in r.0 ==> r.0[k] == before.0[k]))
            && (!spent ==>
                 && before.1 <= r.1
                 && (forall k :: k != last ==> (k in r.0 <==> k in before.0) && (k in r.0 ==> r.0[k] == before.0[k]))
                 && last in r.0 && (last !in before.0 ==> r.0[last] == shapes[last]))
  {
  }

  // ---------------------------------------------------------------- the invariant

  /** Which observations a row was made from. */
  ghost function Of(t: Table, id: Identity): Identity -> bool {
    if id == OverflowIdentity then Elsewhere(t.stats.Keys) else Is(id)
  }

  ghost predicate ShapeIs(obs: seq<Observation>, t: Table, id: Identity, key: string) {
    && (key in StatAt(t.stats, id).shapes ==> StatAt(t.stats, id).shapes[key] == ShapeFor(obs, Of(t, id), key))
    && (key !in StatAt(t.stats, id).shapes && Appears(obs, Of(t, id), key) ==> t.shapeKeys >= DEFAULT_MAX_SHAPE_KEYS)
  }

  ghost predicate ShapesAre(obs: seq<Observation>, t: Table) {
    forall id, key :: (id in t.stats || id == OverflowIdentity) && key != OVERFLOW_SHAPE ==> ShapeIs(obs, t, id, key)
  }

  /** The row that takes the observation. */
  lemma TakenShape(obs: seq<Observation>, row: map<string, Shape>, ob: Observation, chosen: Identity -> bool, used: nat, key: string)
    requires key != OVERFLOW_SHAPE && chosen(ob.id)
    requires key in row ==> row[key] == ShapeFor(obs, chosen, key)
    requires key !in row && Appears(obs, chosen, key) ==> used >= DEFAULT_MAX_SHAPE_KEYS
    ensures var r := Resolve(row.Keys, Ranking.InOrder(Ranking.Named(ob.shapes.Keys)), ob.shapes, used);
            var next := Merged(row, r.0);
            && used <= r.1
            && (key in next ==> next[key] == ShapeFor(obs + [ob], chosen, key))
            && (key !in next && Appears(obs + [ob], chosen, key) ==> r.1 >= DEFAULT_MAX_SHAPE_KEYS)
  {
    OrderNames(ob.shapes);
    ResolveAt(row.Keys, Ranking.InOrder(Ranking.Named(ob.shapes.Keys)), ob.shapes, used, key);
    ShapeForSnoc(obs, ob, chosen, key);
    ShapeForNone(obs, chosen, key);
    hide Resolve, ShapeFor, Appears, NamesOf, Ranking.InOrder, Ranking.Named;
  }

  /** A row the observation does not go to. */
  lemma OtherShape(obs: seq<Observation>, ob: Observation, chosen: Identity -> bool, key: string)
    requires !chosen(ob.id)
    ensures ShapeFor(obs + [ob], chosen, key) == ShapeFor(obs, chosen, key) && (Appears(obs + [ob], chosen, key) <==> Appears(obs, chosen, key))
  {
    ShapeForSnoc(obs, ob, chosen, key);
    hide ShapeFor, Appears;
  }

  lemma OfSame(obs: seq<Observation>, t: Table, limit: nat, ob: Observation, id: Identity, key: string)
    requires FullIfMissing(obs, t, limit)
    ensures var next := Observe(t, limit, ob);
            ShapeFor(obs, Of(next, id), key) == ShapeFor(obs, Of(t, id), key) && (Appears(obs, Of(next, id), key) <==> Appears(obs, Of(t, id), key))
  {
    var next := Observe(t, limit, ob);
    ObserveKeys(t, limit, ob);
    forall i | 0 <= i < |obs| ensures Of(t, id)(obs[i].id) == Of(next, id)(obs[i].id) {
      SameElsewhere(obs, t, limit, ob.id, i);
    }
    hide Observe, FullIfMissing, ShapeFor, Appears;
    ShapeForSame(obs, Of(t, id), Of(next, id), key);
  }

  lemma OfTakes(t: Table, limit: nat, ob: Observation, id: Identity)
    requires id in Observe(t, limit, ob).stats || id == OverflowIdentity
    ensures Of(Observe(t, limit, ob), id)(ob.id) <==> id == Target(t, limit, ob.id)
  {
    ObserveKeys(t, limit, ob);
    ElsewhereTakes(t, limit, ob.id);
    TargetIs(t, limit, ob.id);
    hide Observe;
  }

  /** The row before the observation, also if it is new. */
  lemma RowBefore(obs: seq<Observation>, t: Table, limit: nat, ob: Observation, id: Identity, key: string)
    requires FullIfMissing(obs, t, limit) && ShapesAre(obs, t) && key != OVERFLOW_SHAPE
    requires id in Observe(t, limit, ob).stats || id == OverflowIdentity
    ensures ShapeIs(obs, t, id, key)
  {
    ObserveKeys(t, limit, ob);
    TargetIs(t, limit, ob.id);
    hide Observe, ShapeFor;
    if id !in t.stats && id != OverflowIdentity {
      NotSeen(obs, t, limit, id);
      assert EmptyStat.shapes == map[];
    }
  }

  lemma RowAfter(t: Table, limit: nat, ob: Observation, id: Identity)
    ensures var next := Observe(t, limit, ob);
            var st := StatAt(t.stats, id);
            var r := Resolve(st.shapes.Keys, Ranking.InOrder(Ranking.Named(ob.shapes.Keys)), ob.shapes, t.shapeKeys);
            && (id == Target(t, limit, ob.id) ==> StatAt(next.stats, id).shapes == Merged(st.shapes, r.0) && next.shapeKeys == r.1)
            && (id != Target(t, limit, ob.id) ==> StatAt(next.stats, id) == st)
  {
    hide Resolve, Merged, Target, Ranking.InOrder, Ranking.Named;
  }

  lemma BudgetGrows(t: Table, limit: nat, ob: Observation)
    ensures t.shapeKeys <= Observe(t, limit, ob).shapeKeys
  {
    var id := Target(t, limit, ob.id);
    var st := StatAt(t.stats, id);
    RowAfter(t, limit, ob, id);
    OrderNames(ob.shapes);
    ResolveAt(st.shapes.Keys, Ranking.InOrder(Ranking.Named(ob.shapes.Keys)), ob.shapes, t.shapeKeys, "");
    assert "" != OVERFLOW_SHAPE;
    hide *;
  }

  lemma ShapeStep(obs: seq<Observation>, t: Table, limit: nat, ob: Observation, id: Identity, key: string)
    requires FullIfMissing(obs, t, limit) && ShapesAre(obs, t) && key != OVERFLOW_SHAPE
    requires id in Observe(t, limit, ob).stats || id == OverflowIdentity
    ensures ShapeIs(obs + [ob], Observe(t, limit, ob), id, key)
  {
    var next := Observe(t, limit, ob);
    RowBefore(obs, t, limit, ob, id, key);
    hide ShapesAre, Observe, ShapeFor, Appears, Of, FullIfMissing, Resolve, Merged, Target, StatAt, Ranking.InOrder, Ranking.Named;
    OfSame(obs, t, limit, ob, id, key);
    OfTakes(t, limit, ob, id);
    RowAfter(t, limit, ob, id);
    BudgetGrows(t, limit, ob);
    if id == Target(t, limit, ob.id) {
      TakenShape(obs, StatAt(t.stats, id).shapes, ob, Of(next, id), t.shapeKeys, key);
    } else {
      OtherShape(obs, ob, Of(next, id), key);
    }
  }

  lemma NoShapes()
    ensures ShapesAre([], Empty)
  {
  }

  lemma InvParts(obs: seq<Observation>, t: Table, limit: nat)
    requires Inv(obs, t, limit)
    ensures FullIfMissing(obs, t, limit)
  {
    hide FullIfMissing, ExactRows, ExactRest, Budgets;
  }

  lemma {:induction false} ShapesAlways(obs: seq<Observation>, limit: nat)
    ensures ShapesAre(obs, Observed(obs, limit))
  {
    if obs == [] {
      NoShapes();
    } else {
      var front, ob := obs[..|obs| - 1], obs[|obs| - 1];
      assert obs == front + [ob];
      ShapesAlways(front, limit);
      InvAlways(front, limit);
      InvParts(front, Observed(front, limit), limit);
      var t, next := Observed(front, limit), Observed(obs, limit);
      assert next == Observe(t, limit, ob);
      hide Observed, Observe, ShapeIs, FullIfMissing, Inv;
      forall id, key | (id in next.stats || id == OverflowIdentity) && key != OVERFLOW_SHAPE ensures ShapeIs(obs, next, id, key) {
        ShapeStep(front, t, limit, ob, id, key);
      }
    }
  }

  /** In every row, each shape but the overflow shape that has a place shows exactly the calls,
      times and errors the row's observations report for it, from the first on; and a reported
      shape has no place only if all 2048 are taken.  The rows are those of the admitted
      identities and that of the observations without one. */
  lemma ShapesAreExact(obs: seq<Observation>, limit: nat, id: Identity, key: string)
    requires var t := Observed(obs, limit); (id in t.stats || id == OverflowIdentity) && key != OVERFLOW_SHAPE
    ensures var t := Observed(obs, limit);
            var chosen: Identity -> bool := if id == OverflowIdentity then Elsewhere(t.stats.Keys) else Is(id);
            var shapes := StatAt(t.stats, id).shapes;
            && (key in shapes ==> shapes[key] == ShapeFor(obs, chosen, key))
            && (key !in shapes && Appears(obs, chosen, key) ==> t.shapeKeys == 2048)
  {
    ShapesAlways(obs, limit);
    InvAlways(obs, limit);
    assert ShapeIs(obs, Observed(obs, limit), id, key);
    hide Observed, ShapeFor, Appears, ExactRows, ExactRest, FullIfMissing, PairCounts, Proper;
  }
}
