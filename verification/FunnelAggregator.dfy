/** The flow aggregator as an object (flowviz/aggregate.go): its maps and counters are updated in
    place, sessions are swept in arbitrary order, and a snapshot builds the displayed rows.
 */
module FunnelAggregator {
  import opened Wrappers
  import opened Quantiles
  import opened Funnels
  import C = FunnelCounts

  datatype StepRow = StepRow(
    sessions: nat, requests: nat, dropOff: int, retries: nat, status4xx: nat, status5xx: nat,
    p95: int, fromStartBP: int, fromPreviousBP: int)

  datatype FunnelRow = FunnelRow(id: string, entered: nat, completed: nat, expired: nat, conversionBP: int, steps: seq<StepRow>)

  /** basisPoints */
  function BasisPoints(numerator: int, denominator: int): (bp: int)
    ensures 0 <= bp <= 10000
  {
    if numerator <= 0 || denominator <= 0 then 0
    else if numerator >= denominator then 10000
    else
      var bp := (numerator * 10000 + denominator / 2) / denominator;
      RoundedDown(numerator * 10000 + denominator / 2, denominator);
      bp
  }

  lemma RoundedDown(x: int, d: int)
    requires d > 0 && 0 <= x < 10000 * d + d
    ensures 0 <= x / d <= 10000
  {
    var q := x / d;
    assert x == d * q + x % d;
    Cancel(d, q, 10001);
  }

  lemma Cancel(d: int, a: int, b: int)
    requires d > 0
    ensures a >= b ==> d * a >= d * b
  {
  }

  /** The ratio is rounded to the nearest basis point. */
  lemma BasisPointsNearest(numerator: int, denominator: int)
    requires 0 <= numerator <= denominator && denominator > 0
    ensures var bp := BasisPoints(numerator, denominator);
            -denominator <= 2 * (bp * denominator - 10000 * numerator) <= denominator
  {
    var x := numerator * 10000 + denominator / 2;
    if 0 < numerator < denominator {
      assert x == x / denominator * denominator + x % denominator;
    }
  }

  class Aggregator {
    const cfg: Config
    var stats: seq<FunnelStat>
    var sessions: map<string, Session>
    var dropped: nat
    var missing: nat
    var latest: nat

    function View(): Agg
      reads this
    {
      Agg(stats, sessions, dropped, missing, latest)
    }

    ghost predicate Valid()
      reads this
    {
      GoodConfig(cfg) && C.Inv(cfg, View())
    }

    constructor (cfg: Config)
      requires GoodConfig(cfg)
      ensures Valid() && this.cfg == cfg && View() == Init(cfg)
    {
      this.cfg := cfg;
      stats := Init(cfg).stats;
      sessions, dropped, missing, latest := map[], 0, 0, 0;
      C.InitInv(cfg);
    }

    /** The part of observeFunnel for a session that is already tracked. */
    method Continue(f: nat, d: FunnelDef, step: nat, key: string, e: Visit)
      requires f < |stats| && ShapeOf(d, stats[f]) && step < d.steps && key in sessions
      modifies this`stats, this`sessions, this`missing
      ensures var s := Some(old(sessions[key]));
              var v := Judge(d, f, s, step, e.at, false);
              && NewSession(f, s, v, e.at).Some?
              && sessions == old(sessions)[key := NewSession(f, s, v, e.at).value]
              && stats == old(stats)[f := NewStat(old(stats[f]), v, step, e)]
              && missing == old(missing) + if CountsMissing(v) then 1 else 0
    {
      hide AcceptStep;
      var state := sessions[key];
      var st := stats[f];
      assert sessions[key := state] == sessions && stats[f := st] == stats;
      if state.funnel != f || state.expired { return; }
      if d.within > 0 {
        if e.at == 0 || state.started == 0 {
          missing := missing + 1;
        } else if e.at < state.started {
          missing := missing + 1;
        } else if e.at - state.started > d.within {
          sessions := sessions[key := state.(expired := true)];
          if !state.completed {
            stats := stats[f := st.(expired := st.expired + 1)];
          }
          return;
        }
      }
      if step < state.next {
        stats := stats[f := st.(steps := st.steps[step := AcceptStep(st.steps[step], e.status, e.latency, true)])];
      } else if step == state.next {
        st := st.(steps := st.steps[step := AcceptStep(st.steps[step], e.status, e.latency, false)]);
        state := state.(next := state.next + 1);
        if state.next == d.steps {
          state := state.(completed := true);
          st := st.(completed := st.completed + 1);
        }
        sessions := sessions[key := state];
        stats := stats[f := st];
      }
    }

    /** The part of observeFunnel for a session seen for the first time. */
    method Enter(f: nat, d: FunnelDef, step: nat, key: string, e: Visit)
      requires f < |stats| && ShapeOf(d, stats[f]) && step < d.steps && key !in sessions
      modifies this`stats, this`sessions, this`dropped, this`missing
      ensures var v := Judge(d, f, None, step, e.at, |old(sessions)| >= cfg.maxSessions);
              && sessions == Store(old(sessions), key, NewSession(f, None, v, e.at))
              && stats == old(stats)[f := NewStat(old(stats[f]), v, step, e)]
              && dropped == old(dropped) + (if v.SessionDropped? then 1 else 0)
              && missing == old(missing) + if CountsMissing(v) then 1 else 0
    {
      hide AcceptStep;
      var st := stats[f];
      assert stats[f := st] == stats;
      if step != 0 { return; }
      if |sessions| >= cfg.maxSessions {
        dropped := dropped + 1;
        return;
      }
      sessions := sessions[key := Session(f, 1, e.at, false, false)];
      stats := stats[f := st.(entered := st.entered + 1, steps := st.steps[0 := AcceptStep(st.steps[0], e.status, e.latency, false)])];
      if d.within > 0 && e.at == 0 {
        missing := missing + 1;
      }
    }

    method ObserveFunnel(f: nat, e: Visit)
      requires Valid() && f < |cfg.funnels|
      modifies this`stats, this`sessions, this`dropped, this`missing
      ensures Valid() && View() == Funnels.ObserveFunnel(cfg, old(View()), f, e)
    {
      hide C.Inv, GoodConfig, GoodFunnel, Shape, ShapeOf, KeyOf, AcceptStep, Judge, NewStat, NewSession, Funnels.ObserveFunnel;
      InvShape(cfg, View());
      C.FunnelKeepsInv(cfg, View(), f, e);
      ObserveIs(cfg, View(), f, e);
      var d := cfg.funnels[f];
      if e.page !in d.routeIndex { return; }
      var step := d.routeIndex[e.page];
      var key := KeyOf(d, e.session);
      if key in sessions {
        FullIsIrrelevant(d, f, sessions[key], step, e.at, |sessions| >= cfg.maxSessions);
        Continue(f, d, step, key, e);
      } else {
        Enter(f, d, step, key, e);
      }
    }

    method Observe(e: Visit)
      requires Valid()
      modifies this
      ensures Valid() && View() == Funnels.Observe(cfg, old(View()), e)
    {
      var now := if e.at > latest then e.at else latest;
      var fs := FunnelsFor(cfg, e.scenario);
      assert forall i :: 0 <= i < |fs| ==> fs[i] < |cfg.funnels|;
      hide C.Inv, GoodConfig, Shape, Funnels.ObserveFunnel, FunnelsFor;
      InvShape(cfg, View());
      C.ClockKeepsInv(cfg, View(), now);
      InvShape(cfg, View().(latest := now));
      ghost var a := View().(latest := now);
      latest := now;
      assert fs[0..] == fs;
      for i := 0 to |fs|
        invariant Valid() && Shape(cfg, View()) && ObserveAll(cfg, View(), fs[i..], e) == ObserveAll(cfg, a, fs, e)
      {
        assert fs[i..][0] == fs[i] && fs[i..][1..] == fs[i + 1..];
        InvShape(cfg, View());
        ObserveFunnel(fs[i], e);
        InvShape(cfg, View());
      }
    }

    method ExpireOne(k: string)
      requires k in sessions && |stats| == |cfg.funnels|
      modifies this`stats, this`sessions
      ensures View() == ExpireSome(cfg, old(View()), {k})
    {
      OneSession(cfg, View(), k);
      hide ExpireSome;
      var state := sessions[k];
      if !state.completed && !state.expired && state.started != 0 && state.funnel < |cfg.funnels| {
        var f := state.funnel;
        if cfg.funnels[f].within > 0 && latest > state.started && latest - state.started > cfg.funnels[f].within {
          sessions := sessions[k := state.(expired := true)];
          stats := stats[f := stats[f].(expired := stats[f].expired + 1)];
        }
      }
    }

    /** Sweeps the sessions in whatever order the map yields them. */
    method Sweep()
      requires |stats| == |cfg.funnels|
      modifies this`stats, this`sessions
      ensures View() == Expire(cfg, old(View()))
    {
      ghost var a := View();
      NothingExpired(cfg, a);
      hide ExpireSome;
      var keys := sessions.Keys;
      ghost var swept: set<string> := {};
      while keys != {}
        invariant keys <= a.sessions.Keys && swept == a.sessions.Keys - keys
        invariant View() == ExpireSome(cfg, a, swept) && sessions.Keys == a.sessions.Keys && |stats| == |cfg.funnels|
        decreases keys
      {
        var k :| k in keys;
        ExpireTwice(cfg, a, swept, {k});
        SameKeys(cfg, View(), {k});
        ExpireOne(k);
        keys := keys - {k};
        swept := swept + {k};
      }
      assert swept == a.sessions.Keys;
    }

    method ExpireSilentSessions()
      requires Valid()
      modifies this`stats, this`sessions
      ensures Valid() && View() == Expire(cfg, old(View()))
    {
      C.ExpireKeepsInv(cfg, View());
      assert |stats| == |cfg.funnels|;
      hide C.Inv, GoodConfig, ExpireSome;
      if latest == 0 {
        NeverDue(cfg, View(), sessions.Keys);
      } else {
        Sweep();
      }
    }

    /** The closing report.  Every row is read after eager expiry; the drop-off of a step is the
        exact difference to the next one, and its latency figure bounds the exact percentile. */
    method Snapshot() returns (rows: seq<FunnelRow>)
      requires Valid()
      modifies this`stats, this`sessions
      ensures Valid() && View() == Expire(cfg, old(View())) && |rows| == |stats| == |cfg.funnels|
      ensures forall f :: 0 <= f < |rows| ==> RowFor(rows[f], cfg.funnels[f], stats[f])
    {
      ExpireSilentSessions();
      ghost var a := View();
      assert |stats| == |cfg.funnels|;
      rows := [];
      for f := 0 to |stats|
        invariant |rows| == f && View() == a
        invariant forall g :: 0 <= g < f ==> RowFor(rows[g], cfg.funnels[g], stats[g])
      {
        ReportedRow(cfg, a, f);
        var row := BuildRow(cfg.funnels[f], stats[f]);
        rows := rows + [row];
      }
    }
  }

  /** The displayed step row, in terms of the counters. */
  ghost predicate StepRowFor(row: StepRow, st: FunnelStat, i: nat)
    requires i < |st.steps|
  {
    && row.sessions == st.steps[i].sessions && row.requests == st.steps[i].requests && row.retries == st.steps[i].retries
    && row.status4xx == st.steps[i].status4xx && row.status5xx == st.steps[i].status5xx
    && row.dropOff == (if i + 1 < |st.steps| then st.steps[i].sessions - st.steps[i + 1].sessions else 0) && row.dropOff >= 0
    && BoundsPercentile(row.p95, st.steps[i].latency, 95)
    && row.fromStartBP == BasisPoints(st.steps[i].sessions, st.entered)
    && row.fromPreviousBP == BasisPoints(st.steps[i].sessions, if i > 0 then st.steps[i - 1].sessions else st.entered)
  }

  ghost predicate RowFor(row: FunnelRow, d: FunnelDef, st: FunnelStat) {
    && row.id == d.id && row.entered == st.entered && row.completed == st.completed && row.expired == st.expired
    && row.conversionBP == BasisPoints(st.completed, st.entered)
    && |row.steps| == |st.steps|
    && forall i :: 0 <= i < |st.steps| ==> StepRowFor(row.steps[i], st, i)
  }

  ghost predicate Narrowing(st: FunnelStat) {
    forall i :: 0 <= i < |st.steps| - 1 ==> st.steps[i + 1].sessions <= st.steps[i].sessions
  }

  method BuildRow(d: FunnelDef, st: FunnelStat) returns (row: FunnelRow)
    requires Narrowing(st) && forall i :: 0 <= i < |st.steps| ==> |st.steps[i].latency.buckets| == FLOW_BUCKETS
    ensures RowFor(row, d, st)
  {
    var steps := [];
    for i := 0 to |st.steps|
      invariant |steps| == i
      invariant forall j :: 0 <= j < i ==> StepRowFor(steps[j], st, j)
    {
      var stat := st.steps[i];
      var dropOff := 0;
      if i + 1 < |st.steps| {
        dropOff := stat.sessions - st.steps[i + 1].sessions;
        if dropOff < 0 {
          dropOff := 0;
        }
      }
      var previous := st.entered;
      if i > 0 {
        previous := st.steps[i - 1].sessions;
      }
      var p95 := StepPercentile(stat.latency, 95);
      PercentileBounds(stat.latency);
      hide FlowPercentile, BoundsPercentile, BasisPoints;
      steps := steps + [StepRow(stat.sessions, stat.requests, dropOff, stat.retries, stat.status4xx, stat.status5xx,
                                p95, BasisPoints(stat.sessions, st.entered), BasisPoints(stat.sessions, previous))];
    }
    hide StepRowFor;
    row := FunnelRow(d.id, st.entered, st.completed, st.expired, BasisPoints(st.completed, st.entered), steps);
  }

  lemma PercentileBounds(h: Histogram)
    requires |h.buckets| == FLOW_BUCKETS
    ensures BoundsPercentile(FlowPercentile(h, 95), h, 95)
  {
    forall xs, x | Describes(h, xs, FlowF()) && Latencies(xs) && NearestRank(xs, Rank(|xs|, 95), x)
      ensures x <= FlowPercentile(h, 95) <= h.max && (x < Pow2(62) ==> 4 * FlowPercentile(h, 95) <= 5 * x)
    {
      hide *;
      FlowPercentileBounds(h, 95, xs, x);
    }
  }

  lemma ReportedRow(cfg: Config, a: Agg, f: nat)
    requires C.Inv(cfg, a) && f < |cfg.funnels|
    ensures f < |a.stats| && Narrowing(a.stats[f])
    ensures forall i :: 0 <= i < |a.stats[f].steps| ==> |a.stats[f].steps[i].latency.buckets| == FLOW_BUCKETS
  {
    assert ShapeOf(cfg.funnels[f], a.stats[f]) && C.StatInv(a.stats[f], a.sessions, f);
    var st := a.stats[f];
    hide C.Inv;
    forall i | 0 <= i < |st.steps| - 1 ensures st.steps[i + 1].sessions <= st.steps[i].sessions {
      assert C.StepInv(st.steps[i], a.sessions, f, i) && C.StepInv(st.steps[i + 1], a.sessions, f, i + 1);
      C.Narrower(a.sessions, f, i);
    }
  }

  lemma InvShape(cfg: Config, a: Agg)
    requires C.Inv(cfg, a)
    ensures Shape(cfg, a)
  {
  }

  lemma ObserveIs(cfg: Config, a: Agg, f: nat, e: Visit)
    requires GoodConfig(cfg) && Shape(cfg, a) && f < |cfg.funnels|
    ensures f < |a.stats| && ShapeOf(cfg.funnels[f], a.stats[f]) && GoodFunnel(cfg.funnels[f])
    ensures var d := cfg.funnels[f];
            var b := Funnels.ObserveFunnel(cfg, a, f, e);
            if e.page !in d.routeIndex then b == a
            else
              var key := KeyOf(d, e.session);
              var s := Lookup(a.sessions, key);
              var step := d.routeIndex[e.page];
              var v := Judge(d, f, s, step, e.at, |a.sessions| >= cfg.maxSessions);
              && step < d.steps
              && b == Agg(a.stats[f := NewStat(a.stats[f], v, step, e)], Store(a.sessions, key, NewSession(f, s, v, e.at)),
                          a.dropped + (if v.SessionDropped? then 1 else 0), a.missing + (if CountsMissing(v) then 1 else 0), a.latest)
  {
  }

  lemma FullIsIrrelevant(d: FunnelDef, f: nat, s: Session, step: nat, at: nat, full: bool)
    ensures Judge(d, f, Some(s), step, at, full) == Judge(d, f, Some(s), step, at, false)
    ensures !Judge(d, f, Some(s), step, at, false).SessionDropped?
    ensures NewSession(f, Some(s), Judge(d, f, Some(s), step, at, false), at).Some?
  {
  }

  lemma NeverDue(cfg: Config, a: Agg, keys: set<string>)
    requires a.latest == 0
    ensures ExpireSome(cfg, a, keys) == a
  {
    assert forall f :: 0 <= f < |a.stats| ==> DueOf(cfg, a, f, keys) == {};
    assert ExpireSome(cfg, a, keys).stats == a.stats;
    assert ExpireSome(cfg, a, keys).sessions == a.sessions;
  }

  /** Expiring a single session. */
  lemma OneSession(cfg: Config, a: Agg, k: string)
    requires k in a.sessions && |a.stats| == |cfg.funnels|
    ensures var s := a.sessions[k];
            ExpireSome(cfg, a, {k}) ==
            if Due(cfg, a.latest, s)
            then a.(sessions := a.sessions[k := s.(expired := true)],
                    stats := a.stats[s.funnel := ExpireStat(a.stats[s.funnel], 1)])
            else a
  {
    var s := a.sessions[k];
    var b := ExpireSome(cfg, a, {k});
    forall f | 0 <= f < |a.stats|
      ensures DueOf(cfg, a, f, {k}) == if Due(cfg, a.latest, s) && s.funnel == f then {k} else {}
    {
    }
    if Due(cfg, a.latest, s) {
      assert b.stats == a.stats[s.funnel := ExpireStat(a.stats[s.funnel], 1)];
      assert b.sessions == a.sessions[k := s.(expired := true)];
    } else {
      assert b.stats == a.stats;
      assert b.sessions == a.sessions;
    }
  }
}
