/** Which requests a funnel step counts (flowviz/aggregate.go): the step's counters and its latency
    histogram are those of the visits whose verdict landed on the step, so the displayed
    percentile is one of those requests.
 */
module FunnelSamples {
  import opened Wrappers
  import opened Quantiles
  import opened Funnels
  import A = FunnelAggregator

  // ---------------------------------------------------------------- the accepted visits

  /** The visit, seen in this state, is accepted by step `i` of funnel `f`. */
  predicate LandsOn(cfg: Config, a: Agg, f: nat, i: nat, e: Visit)
    requires f < |cfg.funnels|
  {
    && e.page in cfg.funnels[f].routeIndex
    && var v := VerdictOf(cfg, a, f, e);
       if v.Entered? then i == 0 else (v.Retried? || v.Advanced?) && i == cfg.funnels[f].routeIndex[e.page]
  }

  /** What the funnels `fs`, visited in turn, make step `i` of funnel `f` accept. */
  function AcceptedAll(cfg: Config, a: Agg, fs: seq<nat>, f: nat, i: nat, e: Visit): seq<Visit>
    requires GoodConfig(cfg) && Shape(cfg, a) && forall k :: 0 <= k < |fs| ==> fs[k] < |cfg.funnels|
    decreases |fs|
  {
    if fs == [] then []
    else
      (if fs[0] == f && LandsOn(cfg, a, f, i, e) then [e] else [])
      + AcceptedAll(cfg, ObserveFunnel(cfg, a, fs[0], e), fs[1..], f, i, e)
  }

  function Ticked(a: Agg, at: nat): Agg {
    a.(latest := if at > a.latest then at else a.latest)
  }

  /** The visits of the whole history that step `i` of funnel `f` accepted, in order. */
  function Accepted(cfg: Config, ops: seq<Op>, f: nat, i: nat): seq<Visit>
    requires GoodConfig(cfg)
  {
    if ops == [] then []
    else
      var front, op := ops[..|ops| - 1], ops[|ops| - 1];
      Accepted(cfg, front, f, i)
      + if op.Snapshot? then [] else AcceptedAll(cfg, Ticked(Run(cfg, front), op.e.at), FunnelsFor(cfg, op.e.scenario), f, i, op.e)
  }

  function Client(vs: seq<Visit>): nat {
    if vs == [] then 0 else Client(vs[..|vs| - 1]) + if 400 <= vs[|vs| - 1].status < 500 then 1 else 0
  }

  function Server(vs: seq<Visit>): nat {
    if vs == [] then 0 else Server(vs[..|vs| - 1]) + if vs[|vs| - 1].status >= 500 then 1 else 0
  }

  /** The latencies that were measured; a negative one means that none was. */
  function Measured(vs: seq<Visit>): seq<int> {
    if vs == [] then [] else Measured(vs[..|vs| - 1]) + if vs[|vs| - 1].latency >= 0 then [vs[|vs| - 1].latency] else []
  }

  /** The step's counters and histogram are those of these visits. */
  ghost predicate Counts(st: StepStat, vs: seq<Visit>) {
    && st.requests == |vs| && st.status4xx == Client(vs) && st.status5xx == Server(vs)
    && |st.latency.buckets| == FLOW_BUCKETS && Describes(st.latency, Measured(vs), FlowF())
  }

  // ---------------------------------------------------------------- one step

  lemma AcceptCounts(st: StepStat, vs: seq<Visit>, e: Visit, retry: bool)
    requires Counts(st, vs)
    ensures Counts(AcceptStep(st, e.status, e.latency, retry), vs + [e])
  {
    assert (vs + [e])[..|vs|] == vs;
    hide Describes;
    if e.latency >= 0 {
      RecordDescribes(st.latency, Measured(vs), FlowF(), e.latency);
    } else {
      assert Measured(vs + [e]) == Measured(vs);
    }
    hide Record;
  }

  lemma StatAfter(st: FunnelStat, v: Verdict, step: nat, i: nat, e: Visit)
    requires step < |st.steps| && i < |st.steps| && forall k :: 0 <= k < |st.steps| ==> |st.steps[k].latency.buckets| == FLOW_BUCKETS
    ensures var lands := if v.Entered? then i == 0 else (v.Retried? || v.Advanced?) && i == step;
            && |NewStat(st, v, step, e).steps| == |st.steps|
            && NewStat(st, v, step, e).steps[i] == if lands then AcceptStep(st.steps[i], e.status, e.latency, v.Retried?) else st.steps[i]
  {
    hide AcceptStep;
  }

  lemma StepAt(cfg: Config, a: Agg, f: nat, i: nat)
    requires GoodConfig(cfg) && Shape(cfg, a) && f < |cfg.funnels| && i < cfg.funnels[f].steps
    ensures f < |a.stats| && i < |a.stats[f].steps| == cfg.funnels[f].steps && GoodFunnel(cfg.funnels[f])
    ensures forall k :: 0 <= k < |a.stats[f].steps| ==> |a.stats[f].steps[k].latency.buckets| == FLOW_BUCKETS
  {
    assert ShapeOf(cfg.funnels[f], a.stats[f]);
  }

  lemma OwnFunnel(cfg: Config, a: Agg, f: nat, i: nat, e: Visit, vs: seq<Visit>)
    requires GoodConfig(cfg) && Shape(cfg, a) && f < |cfg.funnels| && i < cfg.funnels[f].steps
    requires f < |a.stats| && i < |a.stats[f].steps| && Counts(a.stats[f].steps[i], vs)
    ensures var b := ObserveFunnel(cfg, a, f, e);
            && f < |b.stats| && i < |b.stats[f].steps|
            && Counts(b.stats[f].steps[i], vs + if LandsOn(cfg, a, f, i, e) then [e] else [])
  {
    var d := cfg.funnels[f];
    StepAt(cfg, a, f, i);
    A.ObserveIs(cfg, a, f, e);
    hide GoodConfig, GoodFunnel, Shape, ShapeOf, Counts, AcceptStep, NewStat, Judge, ObserveFunnel, NewSession, Lookup, Store, KeyOf;
    assert vs + [] == vs;
    if e.page in d.routeIndex {
      StatAfter(a.stats[f], VerdictOf(cfg, a, f, e), d.routeIndex[e.page], i, e);
      AcceptCounts(a.stats[f].steps[i], vs, e, VerdictOf(cfg, a, f, e).Retried?);
    }
  }

  lemma OtherFunnel(cfg: Config, a: Agg, g: nat, f: nat, e: Visit)
    requires GoodConfig(cfg) && Shape(cfg, a) && g < |cfg.funnels| && f < |cfg.funnels| && g != f
    ensures ObserveFunnel(cfg, a, g, e).stats[f] == a.stats[f]
  {
    A.ObserveIs(cfg, a, g, e);
    hide GoodConfig, Shape, ObserveFunnel, NewStat, Judge, NewSession;
  }

  /** Step `i` of funnel `f` counts these visits. */
  ghost predicate CountsAt(a: Agg, f: nat, i: nat, vs: seq<Visit>) {
    f < |a.stats| && i < |a.stats[f].steps| && Counts(a.stats[f].steps[i], vs)
  }

  lemma OneFunnel(cfg: Config, a: Agg, g: nat, f: nat, i: nat, e: Visit, vs: seq<Visit>)
    requires GoodConfig(cfg) && Shape(cfg, a) && g < |cfg.funnels| && f < |cfg.funnels| && i < cfg.funnels[f].steps
    requires CountsAt(a, f, i, vs)
    ensures CountsAt(ObserveFunnel(cfg, a, g, e), f, i, vs + if g == f && LandsOn(cfg, a, f, i, e) then [e] else [])
  {
    hide GoodConfig, Counts, ObserveFunnel, LandsOn;
    assert vs + [] == vs;
    if g == f {
      OwnFunnel(cfg, a, f, i, e, vs);
    } else {
      OtherFunnel(cfg, a, g, f, e);
    }
  }

  lemma {:induction false} AllFunnels(cfg: Config, a: Agg, fs: seq<nat>, f: nat, i: nat, e: Visit, vs: seq<Visit>)
    requires GoodConfig(cfg) && Shape(cfg, a) && forall k :: 0 <= k < |fs| ==> fs[k] < |cfg.funnels|
    requires f < |cfg.funnels| && i < cfg.funnels[f].steps && CountsAt(a, f, i, vs)
    ensures CountsAt(ObserveAll(cfg, a, fs, e), f, i, vs + AcceptedAll(cfg, a, fs, f, i, e))
    decreases |fs|
  {
    hide GoodConfig, Shape, CountsAt, ObserveFunnel, LandsOn;
    if fs == [] {
      assert vs + [] == vs;
    } else {
      var one := if fs[0] == f && LandsOn(cfg, a, f, i, e) then [e] else [];
      var b := ObserveFunnel(cfg, a, fs[0], e);
      OneFunnel(cfg, a, fs[0], f, i, e, vs);
      AllFunnels(cfg, b, fs[1..], f, i, e, vs + one);
      var rest := AcceptedAll(cfg, b, fs[1..], f, i, e);
      assert vs + one + rest == vs + (one + rest);
    }
  }

  lemma ConfiguredFunnels(cfg: Config, scenario: string)
    requires GoodConfig(cfg)
    ensures var fs := FunnelsFor(cfg, scenario); forall k :: 0 <= k < |fs| ==> fs[k] < |cfg.funnels|
  {
  }

  lemma TickCounts(cfg: Config, a: Agg, at: nat, f: nat, i: nat, vs: seq<Visit>)
    requires Shape(cfg, a) && CountsAt(a, f, i, vs)
    ensures Shape(cfg, Ticked(a, at)) && CountsAt(Ticked(a, at), f, i, vs)
  {
    hide Counts;
  }

  lemma VisitCounts(cfg: Config, a: Agg, f: nat, i: nat, e: Visit, vs: seq<Visit>)
    requires GoodConfig(cfg) && Shape(cfg, a) && f < |cfg.funnels| && i < cfg.funnels[f].steps && CountsAt(a, f, i, vs)
    ensures forall k :: 0 <= k < |FunnelsFor(cfg, e.scenario)| ==> FunnelsFor(cfg, e.scenario)[k] < |cfg.funnels|
    ensures Shape(cfg, Ticked(a, e.at))
    ensures CountsAt(Apply(cfg, a, See(e)), f, i, vs + AcceptedAll(cfg, Ticked(a, e.at), FunnelsFor(cfg, e.scenario), f, i, e))
  {
    ConfiguredFunnels(cfg, e.scenario);
    TickCounts(cfg, a, e.at, f, i, vs);
    AllFunnels(cfg, Ticked(a, e.at), FunnelsFor(cfg, e.scenario), f, i, e, vs);
    hide GoodConfig, Shape, CountsAt, FunnelsFor, ObserveAll, AcceptedAll;
  }

  lemma SnapshotCounts(cfg: Config, a: Agg, f: nat, i: nat, vs: seq<Visit>)
    requires GoodConfig(cfg) && Shape(cfg, a) && CountsAt(a, f, i, vs)
    ensures CountsAt(Apply(cfg, a, Snapshot), f, i, vs)
  {
    hide Counts, GoodConfig;
  }

  lemma StartCounts(cfg: Config, f: nat, i: nat)
    requires GoodConfig(cfg) && f < |cfg.funnels| && i < cfg.funnels[f].steps
    ensures CountsAt(Init(cfg), f, i, [])
  {
  }

  lemma AcceptedUnfolds(cfg: Config, ops: seq<Op>, f: nat, i: nat)
    requires GoodConfig(cfg)
    ensures ops == [] ==> Accepted(cfg, ops, f, i) == []
    ensures ops != [] ==>
              var front, op := ops[..|ops| - 1], ops[|ops| - 1];
              && (op.Snapshot? ==> Accepted(cfg, ops, f, i) == Accepted(cfg, front, f, i))
              && (op.See? ==>
                   Accepted(cfg, ops, f, i) ==
                   Accepted(cfg, front, f, i) + AcceptedAll(cfg, Ticked(Run(cfg, front), op.e.at), FunnelsFor(cfg, op.e.scenario), f, i, op.e))
  {
    hide AcceptedAll, Run;
    if ops != [] && ops[|ops| - 1].Snapshot? {
      assert Accepted(cfg, ops, f, i) == Accepted(cfg, ops[..|ops| - 1], f, i) + [];
    }
  }

  /** In every reachable state, whatever snapshots were taken, each step's request count, status
      counts and latency histogram are those of exactly the visits it accepted. */
  lemma {:induction false} StepsCountAccepted(cfg: Config, ops: seq<Op>, f: nat, i: nat)
    requires GoodConfig(cfg) && f < |cfg.funnels| && i < cfg.funnels[f].steps
    ensures CountsAt(Run(cfg, ops), f, i, Accepted(cfg, ops, f, i))
  {
    hide *;
    RunUnfolds(cfg, ops);
    AcceptedUnfolds(cfg, ops, f, i);
    if ops == [] {
      StartCounts(cfg, f, i);
    } else {
      var front, op := ops[..|ops| - 1], ops[|ops| - 1];
      StepsCountAccepted(cfg, front, f, i);
      var a := Run(cfg, front);
      if op.Snapshot? {
        SnapshotCounts(cfg, a, f, i, Accepted(cfg, front, f, i));
      } else {
        VisitCounts(cfg, a, f, i, op.e, Accepted(cfg, front, f, i));
        assert op == See(op.e);
      }
    }
  }

  /** The percentile a snapshot shows for a step bounds the exact nearest-rank percentile of the
      measured latencies of the requests the step accepted. */
  lemma StepPercentileBounds(cfg: Config, ops: seq<Op>, f: nat, i: nat, x: int)
    requires GoodConfig(cfg) && f < |cfg.funnels| && i < cfg.funnels[f].steps
    requires var xs := Measured(Accepted(cfg, ops, f, i)); Latencies(xs) && NearestRank(xs, Rank(|xs|, 95), x)
    ensures f < |Run(cfg, ops).stats| && i < |Run(cfg, ops).stats[f].steps|
    ensures var h := Run(cfg, ops).stats[f].steps[i].latency;
            && x <= FlowPercentile(h, 95) <= h.max
            && (x < Pow2(62) ==> 4 * FlowPercentile(h, 95) <= 5 * x)
  {
    hide *;
    StepsCountAccepted(cfg, ops, f, i);
    CountsParts(Run(cfg, ops), f, i, Accepted(cfg, ops, f, i));
    FlowPercentileBounds(Run(cfg, ops).stats[f].steps[i].latency, 95, Measured(Accepted(cfg, ops, f, i)), x);
  }

  lemma CountsParts(a: Agg, f: nat, i: nat, vs: seq<Visit>)
    requires CountsAt(a, f, i, vs)
    ensures f < |a.stats| && i < |a.stats[f].steps|
    ensures var h := a.stats[f].steps[i].latency; |h.buckets| == FLOW_BUCKETS && Describes(h, Measured(vs), FlowF())
  {
    hide Describes;
  }

  /** So does the figure in a displayed row. */
  lemma DisplayedPercentile(cfg: Config, ops: seq<Op>, f: nat, i: nat, row: A.FunnelRow, x: int)
    requires GoodConfig(cfg) && f < |cfg.funnels| && i < cfg.funnels[f].steps
    requires f < |Run(cfg, ops).stats| && A.RowFor(row, cfg.funnels[f], Run(cfg, ops).stats[f])
    requires var xs := Measured(Accepted(cfg, ops, f, i)); Latencies(xs) && NearestRank(xs, Rank(|xs|, 95), x)
    ensures i < |row.steps| && x <= row.steps[i].p95
    ensures x < Pow2(62) ==> 4 * row.steps[i].p95 <= 5 * x
  {
    hide *;
    StepsCountAccepted(cfg, ops, f, i);
    CountsParts(Run(cfg, ops), f, i, Accepted(cfg, ops, f, i));
    RowShows(row, cfg.funnels[f], Run(cfg, ops).stats[f], i);
    Shows(row.steps[i].p95, Run(cfg, ops).stats[f].steps[i].latency, Measured(Accepted(cfg, ops, f, i)), x);
  }

  lemma RowShows(row: A.FunnelRow, d: FunnelDef, st: FunnelStat, i: nat)
    requires A.RowFor(row, d, st) && i < |st.steps|
    ensures i < |row.steps| && BoundsPercentile(row.steps[i].p95, st.steps[i].latency, 95)
  {
    hide BoundsPercentile, A.BasisPoints;
    assert A.StepRowFor(row.steps[i], st, i);
  }

  lemma Shows(q: int, h: Histogram, xs: seq<int>, x: int)
    requires BoundsPercentile(q, h, 95) && Describes(h, xs, FlowF()) && Latencies(xs) && NearestRank(xs, Rank(|xs|, 95), x)
    ensures x <= q <= h.max && (x < Pow2(62) ==> 4 * q <= 5 * x)
  {
    hide Describes, Latencies, NearestRank, Rank, Pow2;
  }
}
