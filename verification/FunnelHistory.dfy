/** What the funnel machine says about the visits of a history (flowviz/aggregate.go): which
    sessions are tracked, how far each came and when it ran out of time, and every reported count,
    all read off the list of visits and snapshots.
 */
module FunnelHistory {
  import opened Wrappers
  import opened Counting
  import opened Quantiles
  import opened Funnels
  import C = FunnelCounts
  import S = FunnelSamples

  /** What Config.Validate and New guarantee beyond `GoodConfig`: identifiers are distinct and hold
      no NUL, and a funnel is listed once under its scenario. */
  ghost predicate ProperConfig(cfg: Config) {
    && GoodConfig(cfg)
    && (forall f :: 0 <= f < |cfg.funnels| ==> '\0' !in cfg.funnels[f].id)
    && (forall f, g :: 0 <= f < g < |cfg.funnels| ==> cfg.funnels[f].id != cfg.funnels[g].id)
    && (forall c :: c in cfg.byScenario ==> ListedOnce(cfg.byScenario[c]))
  }

  ghost predicate ListedOnce(fs: seq<nat>) {
    forall i, j :: 0 <= i < j < |fs| ==> fs[i] != fs[j]
  }

  // ---------------------------------------------------------------- the history of one session

  /** What one session meets in one funnel: a visit to a step, or a snapshot at a clock reading. */
  datatype Moment = Hit(step: nat, at: nat) | Report(now: nat)

  predicate Reaches(cfg: Config, e: Visit, f: nat)
    requires f < |cfg.funnels|
  {
    e.scenario in cfg.byScenario && f in cfg.byScenario[e.scenario] && e.page in cfg.funnels[f].routeIndex
  }

  /** The latest time any visit carried. */
  function Clock(ops: seq<Op>): nat {
    if ops == [] then 0
    else
      var front, op := Clock(ops[..|ops| - 1]), ops[|ops| - 1];
      if op.See? && op.e.at > front then op.e.at else front
  }

  function Trace(cfg: Config, ops: seq<Op>, f: nat, x: string): seq<Moment>
    requires f < |cfg.funnels|
  {
    if ops == [] then []
    else
      var front, op := ops[..|ops| - 1], ops[|ops| - 1];
      Trace(cfg, front, f, x) +
      match op
      case Snapshot => [Report(Clock(front))]
      case See(e) => if e.session == x && Reaches(cfg, e, f) then [Hit(cfg.funnels[f].routeIndex[e.page], e.at)] else []
  }

  /** How many steps, from the first, the visits make in order. */
  function Stretch(t: seq<Moment>): nat {
    if t == [] then 0
    else
      var n, m := Stretch(t[..|t| - 1]), t[|t| - 1];
      if m.Hit? && m.step == n then n + 1 else n
  }

  /** The time of the first visit to the first step. */
  function Began(t: seq<Moment>): Option<nat> {
    if t == [] then None
    else
      var front, m := Began(t[..|t| - 1]), t[|t| - 1];
      if front.Some? then front else if m.Hit? && m.step == 0 then Some(m.at) else None
  }

  /** More than the window has passed between two known times. */
  predicate Exceeds(d: FunnelDef, started: nat, now: nat) {
    d.within > 0 && started > 0 && now > 0 && now > started + d.within
  }

  /** The moment that makes a session run out of time: a late visit, or a late snapshot before all
      the steps were made. */
  predicate RunsOut(d: FunnelDef, before: seq<Moment>, m: Moment) {
    && Began(before).Some?
    && match m
       case Hit(_, at) => Exceeds(d, Began(before).value, at)
       case Report(now) => Exceeds(d, Began(before).value, now) && Stretch(before) < d.steps
  }

  /** The number of moments before the session ran out of time. */
  function Life(d: FunnelDef, t: seq<Moment>): (n: nat)
    ensures n <= |t|
  {
    if t == [] then 0
    else
      var n := Life(d, t[..|t| - 1]);
      if n < |t| - 1 || RunsOut(d, t[..|t| - 1], t[|t| - 1]) then n else |t|
  }

  /** A longest stretch: steps 0, 1, ... visited at increasing places of the history. */
  ghost predicate InOrder(t: seq<Moment>, places: seq<nat>) {
    && (forall j :: 0 <= j < |places| ==> places[j] < |t| && t[places[j]].Hit? && t[places[j]].step == j)
    && (forall j, k :: 0 <= j < k < |places| ==> places[j] < places[k])
  }

  lemma {:induction false} StretchIsMade(t: seq<Moment>) returns (places: seq<nat>)
    ensures InOrder(t, places) && |places| == Stretch(t)
  {
    if t == [] {
      places := [];
    } else {
      var front := t[..|t| - 1];
      places := StretchIsMade(front);
      assert forall j :: 0 <= j < |places| ==> t[places[j]] == front[places[j]];
      if Stretch(t) > Stretch(front) { places := places + [|t| - 1]; }
    }
  }

  /** No longer stretch of the steps is made in order. */
  lemma {:induction false} StretchIsLongest(t: seq<Moment>, places: seq<nat>)
    requires InOrder(t, places)
    ensures |places| <= Stretch(t)
  {
    if places != [] {
      var last := places[|places| - 1];
      assert last < |t|;
      var front := t[..|t| - 1];
      if last < |t| - 1 {
        assert InOrder(front, places);
        StretchIsLongest(front, places);
      } else {
        assert InOrder(front, places[..|places| - 1]);
        StretchIsLongest(front, places[..|places| - 1]);
      }
    }
  }

  lemma {:induction false} BeganIs(t: seq<Moment>, i: nat)
    requires i < |t| && t[i].Hit? && t[i].step == 0
    requires forall j :: 0 <= j < i ==> !(t[j].Hit? && t[j].step == 0)
    ensures Began(t) == Some(t[i].at)
  {
    var front := t[..|t| - 1];
    if i < |front| {
      BeganIs(front, i);
    } else {
      NotBegun(front);
    }
  }

  lemma {:induction false} NotBegun(t: seq<Moment>)
    ensures Began(t).None? <==> forall j :: 0 <= j < |t| ==> !(t[j].Hit? && t[j].step == 0)
  {
    if t != [] {
      var front := t[..|t| - 1];
      NotBegun(front);
      assert forall j :: 0 <= j < |front| ==> front[j] == t[j];
    }
  }

  /** The session runs out of time at the first moment that makes it do so. */
  lemma {:induction false} LifeIs(d: FunnelDef, t: seq<Moment>)
    ensures var n := Life(d, t);
            && (forall j :: 0 <= j < n ==> !RunsOut(d, t[..j], t[j]))
            && (n < |t| ==> RunsOut(d, t[..n], t[n]))
  {
    hide RunsOut;
    if t != [] {
      var front := t[..|t| - 1];
      LifeIs(d, front);
      var n := Life(d, front);
      forall j | 0 <= j < |front| ensures t[..j] == front[..j] && t[j] == front[j] {
      }
    }
  }

  /** One moment more. */
  lemma TraceSnoc(d: FunnelDef, t: seq<Moment>, m: Moment)
    ensures var u := t + [m];
            && Stretch(u) == (if m.Hit? && m.step == Stretch(t) then Stretch(t) + 1 else Stretch(t))
            && Began(u) == (if Began(t).Some? then Began(t) else if m.Hit? && m.step == 0 then Some(m.at) else None)
            && Life(d, u) == (if Life(d, t) < |t| || RunsOut(d, t, m) then Life(d, t) else |u|)
            && u[..Life(d, t)] == t[..Life(d, t)] && u[..|u|] == u && t[..|t|] == t
  {
    var u := t + [m];
    assert u[..|u| - 1] == t;
    hide RunsOut;
  }

  lemma {:induction false} NoStretch(t: seq<Moment>)
    requires Began(t).None?
    ensures Stretch(t) == 0
  {
    if t != [] { NoStretch(t[..|t| - 1]); }
  }

  // ---------------------------------------------------------------- the session agrees with its history

  function Table(a: Agg, d: FunnelDef, x: string): Option<Session> {
    Lookup(a.sessions, KeyOf(d, x))
  }

  /** A tracked session is what its history says. */
  ghost predicate SessionIs(d: FunnelDef, f: nat, s: Session, t: seq<Moment>) {
    && s.funnel == f
    && Began(t) == Some(s.started)
    && (s.expired <==> Life(d, t) < |t|)
    && s.next == Stretch(t[..Life(d, t)])
    && (s.completed <==> s.next == d.steps)
    && 1 <= s.next <= d.steps
  }

  /** And a session that is not tracked has not begun, unless the table is full. */
  ghost predicate Agrees(cfg: Config, a: Agg, f: nat, x: string, t: seq<Moment>)
    requires f < |cfg.funnels|
  {
    var s := Table(a, cfg.funnels[f], x);
    if s.Some? then SessionIs(cfg.funnels[f], f, s.value, t) else Began(t).None? || |a.sessions| >= cfg.maxSessions
  }

  lemma NulInside(a: string, x: string, b: string, y: string)
    requires a + ['\0'] + x == b + ['\0'] + y && |a| < |b|
    ensures '\0' in b
  {
    assert (a + ['\0'] + x)[|a|] == '\0' && (b + ['\0'] + y)[|a|] == b[|a|];
  }

  lemma KeysDiffer(a: string, x: string, b: string, y: string)
    requires '\0' !in a && '\0' !in b && a + ['\0'] + x == b + ['\0'] + y
    ensures a == b && x == y
  {
    var s := a + ['\0'] + x;
    if |a| < |b| { NulInside(a, x, b, y); }
    if |b| < |a| { NulInside(b, y, a, x); }
    assert a == s[..|a|] && b == s[..|b|];
    assert x == s[|a| + 1..] && y == s[|b| + 1..];
  }

  lemma KeysOf(cfg: Config, f: nat, x: string, g: nat, y: string)
    requires ProperConfig(cfg) && f < |cfg.funnels| && g < |cfg.funnels|
    ensures KeyOf(cfg.funnels[f], x) == KeyOf(cfg.funnels[g], y) <==> f == g && x == y
  {
    if KeyOf(cfg.funnels[f], x) == KeyOf(cfg.funnels[g], y) {
      KeysDiffer(cfg.funnels[f].id, x, cfg.funnels[g].id, y);
    }
  }

  /** The session after a visit to its own funnel. */
  lemma OwnVisit(cfg: Config, f: nat, s: Session, step: nat, at: nat, full: bool, t: seq<Moment>)
    requires GoodConfig(cfg) && f < |cfg.funnels| && step < cfg.funnels[f].steps && SessionIs(cfg.funnels[f], f, s, t)
    ensures var d := cfg.funnels[f];
            var u := NewSession(f, Some(s), Judge(d, f, Some(s), step, at, full), at);
            u.Some? && SessionIs(d, f, u.value, t + [Hit(step, at)])
  {
    TraceSnoc(cfg.funnels[f], t, Hit(step, at));
    hide Stretch, Began, Life;
  }

  lemma FirstVisit(d: FunnelDef, f: nat, at: nat, t: seq<Moment>)
    requires GoodFunnel(d) && Began(t).None?
    ensures SessionIs(d, f, Session(f, 1, at, false, false), t + [Hit(0, at)])
  {
    NoStretch(t);
    TraceSnoc(d, t, Hit(0, at));
    NeverEnds(d, t);
    hide Stretch, Began, Life;
  }

  lemma {:induction false} NeverEnds(d: FunnelDef, t: seq<Moment>)
    requires Began(t).None?
    ensures Life(d, t) == |t|
  {
    if t != [] { NeverEnds(d, t[..|t| - 1]); }
  }

  /** The visited entry of the table, and the others. */
  lemma VisitTable(cfg: Config, a: Agg, f: nat, e: Visit)
    requires GoodConfig(cfg) && Shape(cfg, a) && f < |cfg.funnels|
    ensures var d := cfg.funnels[f]; var b := ObserveFunnel(cfg, a, f, e);
            && (e.page !in d.routeIndex ==> b == a)
            && (e.page in d.routeIndex ==>
                 var k := KeyOf(d, e.session); var s := Lookup(a.sessions, k);
                 var step := d.routeIndex[e.page];
                 && step < d.steps
                 && b.sessions == Store(a.sessions, k, NewSession(f, s, Judge(d, f, s, step, e.at, |a.sessions| >= cfg.maxSessions), e.at)))
  {
    assert GoodFunnel(cfg.funnels[f]);
    hide Judge, NewSession, Shape, ShapeOf, NewStat, Store;
  }

  lemma TableStore(m: map<string, Session>, k: string, s: Option<Session>, j: string)
    ensures Lookup(Store(m, k, s), j) == if j == k && s.Some? then s else Lookup(m, j)
    ensures |Store(m, k, s)| >= |m|
    ensures s.Some? && k !in m ==> |Store(m, k, s)| == |m| + 1
    ensures s.None? || k in m ==> |Store(m, k, s)| == |m|
  {
    if s.Some? {
      assert m[k := s.value].Keys == m.Keys + {k};
      assert |m[k := s.value]| == |m[k := s.value].Keys| && |m| == |m.Keys|;
    }
  }

  lemma OwnAgrees(cfg: Config, a: Agg, f: nat, e: Visit, t: seq<Moment>)
    requires GoodConfig(cfg) && Shape(cfg, a) && f < |cfg.funnels| && e.page in cfg.funnels[f].routeIndex
    requires Agrees(cfg, a, f, e.session, t)
    ensures Agrees(cfg, ObserveFunnel(cfg, a, f, e), f, e.session, t + [Hit(cfg.funnels[f].routeIndex[e.page], e.at)])
  {
    var d := cfg.funnels[f];
    var step := d.routeIndex[e.page];
    var k := KeyOf(d, e.session);
    var s := Lookup(a.sessions, k);
    var full := |a.sessions| >= cfg.maxSessions;
    VisitTable(cfg, a, f, e);
    TableStore(a.sessions, k, NewSession(f, s, Judge(d, f, s, step, e.at, full), e.at), k);
    TraceSnoc(d, t, Hit(step, e.at));
    assert GoodFunnel(d);
    hide GoodConfig, GoodFunnel, Shape, Store, Lookup, ObserveFunnel, SessionIs, Stretch, Began, Life, RunsOut;
    if s.Some? {
      hide Judge, NewSession;
      OwnVisit(cfg, f, s.value, step, e.at, full, t);
    } else if step == 0 && !full {
      FirstVisit(d, f, e.at, t);
    }
  }

  lemma OtherAgrees(cfg: Config, a: Agg, g: nat, e: Visit, f: nat, x: string, t: seq<Moment>)
    requires ProperConfig(cfg) && Shape(cfg, a) && f < |cfg.funnels| && g < |cfg.funnels|
    requires g != f || e.session != x || e.page !in cfg.funnels[f].routeIndex
    requires Agrees(cfg, a, f, x, t)
    ensures Agrees(cfg, ObserveFunnel(cfg, a, g, e), f, x, t)
  {
    VisitTable(cfg, a, g, e);
    KeysOf(cfg, f, x, g, e.session);
    hide ProperConfig, GoodConfig, Shape, Store, Lookup, KeyOf, ObserveFunnel, SessionIs, Began, Judge, NewSession;
    var d := cfg.funnels[g];
    if e.page in d.routeIndex {
      var k := KeyOf(d, e.session);
      var s := Lookup(a.sessions, k);
      var u := NewSession(g, s, Judge(d, g, s, d.routeIndex[e.page], e.at, |a.sessions| >= cfg.maxSessions), e.at);
      TableStore(a.sessions, k, u, KeyOf(cfg.funnels[f], x));
    }
  }

  /** What one visit adds to the history of this session. */
  function Added(cfg: Config, fs: seq<nat>, e: Visit, f: nat, x: string): seq<Moment>
    requires f < |cfg.funnels|
  {
    if f in fs && e.session == x && e.page in cfg.funnels[f].routeIndex then [Hit(cfg.funnels[f].routeIndex[e.page], e.at)] else []
  }

  lemma AddedUnfolds(cfg: Config, fs: seq<nat>, e: Visit, f: nat, x: string, t: seq<Moment>)
    requires f < |cfg.funnels| && ListedOnce(fs) && fs != []
    ensures ListedOnce(fs[1..])
    ensures var mine := fs[0] == f && e.session == x && e.page in cfg.funnels[f].routeIndex;
            && (mine ==> Added(cfg, fs, e, f, x) == [Hit(cfg.funnels[f].routeIndex[e.page], e.at)] && Added(cfg, fs[1..], e, f, x) == [])
            && (!mine ==> Added(cfg, fs, e, f, x) == Added(cfg, fs[1..], e, f, x))
  {
    assert f in fs <==> f == fs[0] || f in fs[1..];
    if f in fs[1..] {
      var i :| 0 <= i < |fs[1..]| && fs[1..][i] == f;
      assert fs[i + 1] == f;
    }
  }

  lemma {:induction false} AllAgree(cfg: Config, a: Agg, fs: seq<nat>, e: Visit, f: nat, x: string, t: seq<Moment>)
    requires ProperConfig(cfg) && GoodConfig(cfg) && Shape(cfg, a) && f < |cfg.funnels| && forall k :: 0 <= k < |fs| ==> fs[k] < |cfg.funnels|
    requires ListedOnce(fs) && Agrees(cfg, a, f, x, t)
    ensures Agrees(cfg, ObserveAll(cfg, a, fs, e), f, x, t + Added(cfg, fs, e, f, x))
    decreases |fs|
  {
    hide ProperConfig, GoodConfig, Shape, ListedOnce, Agrees, ObserveFunnel;
    if fs == [] {
      assert t + Added(cfg, fs, e, f, x) == t;
    } else {
      AddedUnfolds(cfg, fs, e, f, x, t);
      hide Added;
      var b := ObserveFunnel(cfg, a, fs[0], e);
      if fs[0] == f && e.session == x && e.page in cfg.funnels[f].routeIndex {
        OwnAgrees(cfg, a, f, e, t);
        var u := t + [Hit(cfg.funnels[f].routeIndex[e.page], e.at)];
        AllAgree(cfg, b, fs[1..], e, f, x, u);
        assert u + [] == u;
      } else {
        OtherAgrees(cfg, a, fs[0], e, f, x, t);
        AllAgree(cfg, b, fs[1..], e, f, x, t);
      }
    }
  }

  lemma SnapshotAgrees(cfg: Config, a: Agg, f: nat, x: string, t: seq<Moment>)
    requires GoodConfig(cfg) && Shape(cfg, a) && f < |cfg.funnels| && Agrees(cfg, a, f, x, t)
    ensures Agrees(cfg, Apply(cfg, a, Snapshot), f, x, t + [Report(a.latest)])
  {
    var d := cfg.funnels[f];
    var k := KeyOf(d, x);
    var b := Expire(cfg, a);
    TraceSnoc(d, t, Report(a.latest));
    assert b.sessions.Keys == a.sessions.Keys;
    assert |b.sessions| == |b.sessions.Keys| && |a.sessions| == |a.sessions.Keys|;
    hide Stretch, Began, Life, KeyOf, Shape, GoodConfig;
    if k in a.sessions {
      assert b.sessions[k] == ExpireSession(cfg, a.latest, a.sessions[k]);
    }
  }

  // ---------------------------------------------------------------- every reachable state

  lemma {:induction false} ClockIs(cfg: Config, ops: seq<Op>)
    requires GoodConfig(cfg)
    ensures Run(cfg, ops).latest == Clock(ops)
  {
    hide GoodConfig, ObserveAll;
    if ops != [] { ClockIs(cfg, ops[..|ops| - 1]); }
  }

  lemma Listed(cfg: Config, scenario: string)
    requires ProperConfig(cfg)
    ensures GoodConfig(cfg) && ListedOnce(FunnelsFor(cfg, scenario))
    ensures forall k :: 0 <= k < |FunnelsFor(cfg, scenario)| ==> FunnelsFor(cfg, scenario)[k] < |cfg.funnels|
  {
  }

  lemma TraceUnfolds(cfg: Config, ops: seq<Op>, f: nat, x: string)
    requires f < |cfg.funnels|
    ensures ops == [] ==> Trace(cfg, ops, f, x) == []
    ensures ops != [] ==>
              var front, op := ops[..|ops| - 1], ops[|ops| - 1];
              Trace(cfg, ops, f, x) == Trace(cfg, front, f, x) +
                match op
                case Snapshot => [Report(Clock(front))]
                case See(e) => Added(cfg, FunnelsFor(cfg, e.scenario), e, f, x)
  {
  }

  lemma SeeUnfolds(cfg: Config, a: Agg, e: Visit)
    requires ProperConfig(cfg) && GoodConfig(cfg) && Shape(cfg, a)
    ensures Shape(cfg, S.Ticked(a, e.at))
    ensures forall k :: 0 <= k < |FunnelsFor(cfg, e.scenario)| ==> FunnelsFor(cfg, e.scenario)[k] < |cfg.funnels|
    ensures Apply(cfg, a, See(e)) == ObserveAll(cfg, S.Ticked(a, e.at), FunnelsFor(cfg, e.scenario), e)
  {
    Listed(cfg, e.scenario);
    hide ObserveAll, ProperConfig, FunnelsFor;
  }

  lemma TickAgrees(cfg: Config, a: Agg, at: nat, f: nat, x: string, t: seq<Moment>)
    requires f < |cfg.funnels| && Agrees(cfg, a, f, x, t)
    ensures Agrees(cfg, S.Ticked(a, at), f, x, t)
  {
    hide SessionIs, Began;
  }

  lemma InitAgrees(cfg: Config, f: nat, x: string)
    requires f < |cfg.funnels|
    ensures Agrees(cfg, Init(cfg), f, x, [])
  {
  }

  lemma {:induction false} RunAgrees(cfg: Config, ops: seq<Op>, f: nat, x: string)
    requires ProperConfig(cfg) && GoodConfig(cfg) && f < |cfg.funnels|
    ensures Agrees(cfg, Run(cfg, ops), f, x, Trace(cfg, ops, f, x))
  {
    hide *;
    RunUnfolds(cfg, ops);
    TraceUnfolds(cfg, ops, f, x);
    if ops == [] {
      InitAgrees(cfg, f, x);
    } else {
      var front, op := ops[..|ops| - 1], ops[|ops| - 1];
      RunAgrees(cfg, front, f, x);
      var a, t := Run(cfg, front), Trace(cfg, front, f, x);
      if op.Snapshot? {
        ClockIs(cfg, front);
        SnapshotAgrees(cfg, a, f, x, t);
      } else {
        assert op == See(op.e);
        Listed(cfg, op.e.scenario);
        SeeUnfolds(cfg, a, op.e);
        TickAgrees(cfg, a, op.e.at, f, x, t);
        AllAgree(cfg, S.Ticked(a, op.e.at), FunnelsFor(cfg, op.e.scenario), op.e, f, x, t);
      }
    }
  }

  // ---------------------------------------------------------------- which sessions are tracked

  function Arrive(keys: seq<string>, k: string): seq<string> {
    if k in keys then keys else keys + [k]
  }

  /** The keys of the funnels of which this visit makes the first step, in turn. */
  function ArriveAll(cfg: Config, keys: seq<string>, fs: seq<nat>, e: Visit): seq<string>
    decreases |fs|
  {
    if fs == [] then keys
    else
      var f := fs[0];
      ArriveAll(cfg,
                if f < |cfg.funnels| && e.page in cfg.funnels[f].routeIndex && cfg.funnels[f].routeIndex[e.page] == 0
                then Arrive(keys, KeyOf(cfg.funnels[f], e.session)) else keys,
                fs[1..], e)
  }

  /** Every session that made the first step of a funnel, in the order in which they did. */
  function Arrivals(cfg: Config, ops: seq<Op>): seq<string> {
    if ops == [] then []
    else
      var front, op := Arrivals(cfg, ops[..|ops| - 1]), ops[|ops| - 1];
      if op.See? && op.e.scenario in cfg.byScenario then ArriveAll(cfg, front, cfg.byScenario[op.e.scenario], op.e) else front
  }

  function First(keys: seq<string>, n: nat): seq<string> {
    if |keys| <= n then keys else keys[..n]
  }

  ghost predicate Distinct(keys: seq<string>) {
    forall i, j :: 0 <= i < j < |keys| ==> keys[i] != keys[j]
  }

  /** The table holds the first to arrive. */
  ghost predicate Holds(cfg: Config, a: Agg, keys: seq<string>) {
    Distinct(keys) && a.sessions.Keys == (set k | k in First(keys, cfg.maxSessions))
  }

  lemma {:induction false} DistinctSize(keys: seq<string>)
    requires Distinct(keys)
    ensures |set k | k in keys| == |keys|
  {
    if keys != [] {
      var front := keys[..|keys| - 1];
      DistinctSize(front);
      assert (set k | k in keys) == (set k | k in front) + {keys[|keys| - 1]};
    } else {
      assert (set k | k in keys) == {};
    }
  }

  lemma HoldsSize(cfg: Config, a: Agg, keys: seq<string>)
    requires Holds(cfg, a, keys)
    ensures |a.sessions| == if |keys| <= cfg.maxSessions then |keys| else cfg.maxSessions
  {
    DistinctSize(First(keys, cfg.maxSessions));
    assert |a.sessions| == |a.sessions.Keys|;
  }

  lemma VisitHolds(cfg: Config, a: Agg, f: nat, e: Visit, keys: seq<string>)
    requires GoodConfig(cfg) && Shape(cfg, a) && f < |cfg.funnels| && Holds(cfg, a, keys)
    ensures Holds(cfg, ObserveFunnel(cfg, a, f, e),
                  if e.page in cfg.funnels[f].routeIndex && cfg.funnels[f].routeIndex[e.page] == 0
                  then Arrive(keys, KeyOf(cfg.funnels[f], e.session)) else keys)
  {
    var d := cfg.funnels[f];
    VisitTable(cfg, a, f, e);
    HoldsSize(cfg, a, keys);
    hide GoodConfig, Shape, ObserveFunnel, KeyOf;
    if e.page in d.routeIndex && d.routeIndex[e.page] == 0 {
      ArriveHolds(cfg, a, d, f, e, KeyOf(d, e.session), keys);
    }
  }

  lemma FirstStep(m: map<string, Session>, k: string, d: FunnelDef, f: nat, at: nat, full: bool)
    ensures var s := Lookup(m, k);
            Store(m, k, NewSession(f, s, Judge(d, f, s, 0, at, full), at)).Keys == if k in m || full then m.Keys else m.Keys + {k}
  {
  }

  lemma ArriveHolds(cfg: Config, a: Agg, d: FunnelDef, f: nat, e: Visit, k: string, keys: seq<string>)
    requires Holds(cfg, a, keys) && |a.sessions| == if |keys| <= cfg.maxSessions then |keys| else cfg.maxSessions
    ensures var s := Lookup(a.sessions, k);
            var m := Store(a.sessions, k, NewSession(f, s, Judge(d, f, s, 0, e.at, |a.sessions| >= cfg.maxSessions), e.at));
            Distinct(Arrive(keys, k)) && m.Keys == set j | j in First(Arrive(keys, k), cfg.maxSessions)
  {
    FirstStep(a.sessions, k, d, f, e.at, |a.sessions| >= cfg.maxSessions);
    hide Lookup, Store, NewSession, Judge;
    if k !in keys && |keys| < cfg.maxSessions {
      assert forall j :: j in First(keys + [k], cfg.maxSessions) <==> j in First(keys, cfg.maxSessions) || j == k;
    } else {
      assert First(Arrive(keys, k), cfg.maxSessions) == First(keys, cfg.maxSessions);
    }
  }

  lemma {:induction false} AllHold(cfg: Config, a: Agg, fs: seq<nat>, e: Visit, keys: seq<string>)
    requires GoodConfig(cfg) && Shape(cfg, a) && Holds(cfg, a, keys) && forall k :: 0 <= k < |fs| ==> fs[k] < |cfg.funnels|
    ensures Holds(cfg, ObserveAll(cfg, a, fs, e), ArriveAll(cfg, keys, fs, e))
    decreases |fs|
  {
    hide GoodConfig, Shape, Holds, ObserveFunnel, Arrive;
    if fs != [] {
      var f := fs[0];
      VisitHolds(cfg, a, f, e, keys);
      AllHold(cfg, ObserveFunnel(cfg, a, f, e), fs[1..], e,
              if e.page in cfg.funnels[f].routeIndex && cfg.funnels[f].routeIndex[e.page] == 0
              then Arrive(keys, KeyOf(cfg.funnels[f], e.session)) else keys);
    }
  }

  lemma ArrivalsUnfold(cfg: Config, ops: seq<Op>)
    ensures ops == [] ==> Arrivals(cfg, ops) == []
    ensures ops != [] ==>
              var front, op := ops[..|ops| - 1], ops[|ops| - 1];
              Arrivals(cfg, ops) ==
                match op
                case Snapshot => Arrivals(cfg, front)
                case See(e) => ArriveAll(cfg, Arrivals(cfg, front), FunnelsFor(cfg, e.scenario), e)
  {
  }

  lemma SameTable(cfg: Config, a: Agg, b: Agg, keys: seq<string>)
    requires Holds(cfg, a, keys) && a.sessions.Keys == b.sessions.Keys
    ensures Holds(cfg, b, keys)
  {
  }

  lemma InitHolds(cfg: Config)
    ensures Holds(cfg, Init(cfg), [])
  {
  }

  lemma SnapshotTable(cfg: Config, a: Agg, at: nat)
    requires GoodConfig(cfg) && Shape(cfg, a)
    ensures Apply(cfg, a, Snapshot).sessions.Keys == a.sessions.Keys == S.Ticked(a, at).sessions.Keys
  {
  }

  /** The tracked sessions are the first to make the first step of a funnel, as many as the limit
      allows. */
  lemma {:induction false} TrackedAreFirst(cfg: Config, ops: seq<Op>)
    requires ProperConfig(cfg) && GoodConfig(cfg)
    ensures Holds(cfg, Run(cfg, ops), Arrivals(cfg, ops))
  {
    hide *;
    RunUnfolds(cfg, ops);
    ArrivalsUnfold(cfg, ops);
    if ops == [] {
      InitHolds(cfg);
    } else {
      var front, op := ops[..|ops| - 1], ops[|ops| - 1];
      TrackedAreFirst(cfg, front);
      var a, keys := Run(cfg, front), Arrivals(cfg, front);
      if op.Snapshot? {
        SnapshotTable(cfg, a, 0);
        SameTable(cfg, a, Apply(cfg, a, op), keys);
      } else {
        assert op == See(op.e);
        SeeUnfolds(cfg, a, op.e);
        SnapshotTable(cfg, a, op.e.at);
        SameTable(cfg, a, S.Ticked(a, op.e.at), keys);
        AllHold(cfg, S.Ticked(a, op.e.at), FunnelsFor(cfg, op.e.scenario), op.e, keys);
      }
    }
  }

  // ---------------------------------------------------------------- the counters

  function Names(ops: seq<Op>): set<string> {
    set j | 0 <= j < |ops| && ops[j].See? :: ops[j].e.session
  }

  predicate Tracked(cfg: Config, ops: seq<Op>, f: nat, x: string)
    requires f < |cfg.funnels|
  {
    KeyOf(cfg.funnels[f], x) in First(Arrivals(cfg, ops), cfg.maxSessions)
  }

  /** How many steps the session made in order before it ran out of time. */
  function Reached(cfg: Config, ops: seq<Op>, f: nat, x: string): nat
    requires f < |cfg.funnels|
  {
    var t := Trace(cfg, ops, f, x);
    Stretch(t[..Life(cfg.funnels[f], t)])
  }

  predicate OutOfTime(cfg: Config, ops: seq<Op>, f: nat, x: string)
    requires f < |cfg.funnels|
  {
    var t := Trace(cfg, ops, f, x);
    Life(cfg.funnels[f], t) < |t|
  }

  /** In every reachable state a session is tracked if and only if it was among the first to begin,
      and then its next step, its start, its completion and its expiry are those of its history. */
  lemma SessionFollows(cfg: Config, ops: seq<Op>, f: nat, x: string)
    requires ProperConfig(cfg) && GoodConfig(cfg) && f < |cfg.funnels|
    ensures KeyOf(cfg.funnels[f], x) in Run(cfg, ops).sessions <==> Tracked(cfg, ops, f, x)
    ensures Tracked(cfg, ops, f, x) ==>
              var s := Run(cfg, ops).sessions[KeyOf(cfg.funnels[f], x)];
              && s.funnel == f
              && Began(Trace(cfg, ops, f, x)) == Some(s.started)
              && s.next == Reached(cfg, ops, f, x)
              && 1 <= s.next <= cfg.funnels[f].steps
              && (s.completed <==> s.next == cfg.funnels[f].steps)
              && (s.expired <==> OutOfTime(cfg, ops, f, x))
  {
    TrackedAreFirst(cfg, ops);
    RunAgrees(cfg, ops, f, x);
    hide ProperConfig, GoodConfig, Run, Arrivals, First, Trace, KeyOf, Stretch, Began, Life;
  }

  lemma {:induction false} ArrivedNow(cfg: Config, keys: seq<string>, fs: seq<nat>, e: Visit, k: string) returns (g: nat)
    requires k in ArriveAll(cfg, keys, fs, e) && k !in keys
    ensures g < |cfg.funnels| && k == KeyOf(cfg.funnels[g], e.session)
    decreases |fs|
  {
    hide KeyOf;
    var f := fs[0];
    if f < |cfg.funnels| && e.page in cfg.funnels[f].routeIndex && cfg.funnels[f].routeIndex[e.page] == 0 {
      if k == KeyOf(cfg.funnels[f], e.session) { return f; }
      g := ArrivedNow(cfg, Arrive(keys, KeyOf(cfg.funnels[f], e.session)), fs[1..], e, k);
    } else {
      g := ArrivedNow(cfg, keys, fs[1..], e, k);
    }
  }

  lemma {:induction false} ArrivalsAreNamed(cfg: Config, ops: seq<Op>, k: string) returns (g: nat, x: string)
    requires k in Arrivals(cfg, ops)
    ensures g < |cfg.funnels| && x in Names(ops) && k == KeyOf(cfg.funnels[g], x)
  {
    hide KeyOf, ArriveAll;
    var front, op := ops[..|ops| - 1], ops[|ops| - 1];
    if k in Arrivals(cfg, front) {
      g, x := ArrivalsAreNamed(cfg, front, k);
      var j :| 0 <= j < |front| && front[j].See? && front[j].e.session == x;
      assert ops[j] == front[j];
    } else {
      g := ArrivedNow(cfg, Arrivals(cfg, front), cfg.byScenario[op.e.scenario], op.e, k);
      x := op.e.session;
    }
  }

  /** The sessions of this funnel that are tracked. */
  ghost function Members(cfg: Config, ops: seq<Op>, f: nat): set<string>
    requires f < |cfg.funnels|
  {
    set x | x in Names(ops) && Tracked(cfg, ops, f, x)
  }

  lemma {:induction false} ImageSize(d: FunnelDef, xs: set<string>)
    ensures |set x | x in xs :: KeyOf(d, x)| == |xs|
  {
    if xs == {} {
      assert (set x | x in xs :: KeyOf(d, x)) == {};
    } else {
      var y :| y in xs;
      ImageSize(d, xs - {y});
      var rest := set x | x in xs - {y} :: KeyOf(d, x);
      assert (set x | x in xs :: KeyOf(d, x)) == rest + {KeyOf(d, y)};
      if KeyOf(d, y) in rest {
        var x :| x in xs - {y} && KeyOf(d, x) == KeyOf(d, y);
        SameRest(d.id + ['\0'], x, y);
      }
    }
  }

  lemma SameRest(p: string, x: string, y: string)
    requires p + x == p + y
    ensures x == y
  {
    assert x == (p + x)[|p|..] && y == (p + y)[|p|..];
  }

  lemma OwnKey(cfg: Config, ops: seq<Op>, f: nat, k: string) returns (x: string)
    requires ProperConfig(cfg) && GoodConfig(cfg) && f < |cfg.funnels|
    requires k in Run(cfg, ops).sessions && Run(cfg, ops).sessions[k].funnel == f
    ensures x in Members(cfg, ops, f) && k == KeyOf(cfg.funnels[f], x)
  {
    TrackedAreFirst(cfg, ops);
    assert k in Arrivals(cfg, ops);
    var g;
    g, x := ArrivalsAreNamed(cfg, ops, k);
    hide Holds, First, Arrivals, KeyOf, Run, ProperConfig, GoodConfig, Reached, OutOfTime, Began, Trace, Names;
    SessionFollows(cfg, ops, g, x);
  }

  /** A property of tracked sessions is counted over the names. */
  lemma CountNames(cfg: Config, ops: seq<Op>, f: nat, p: Session -> bool, xs: set<string>)
    requires ProperConfig(cfg) && GoodConfig(cfg) && f < |cfg.funnels|
    requires forall s: Session :: p(s) ==> s.funnel == f
    requires xs <= Members(cfg, ops, f)
    requires forall x :: x in Members(cfg, ops, f) ==>
               KeyOf(cfg.funnels[f], x) in Run(cfg, ops).sessions && (x in xs <==> p(Run(cfg, ops).sessions[KeyOf(cfg.funnels[f], x)]))
    ensures Count(Run(cfg, ops).sessions, p) == |xs|
  {
    var m := Run(cfg, ops).sessions;
    var d := cfg.funnels[f];
    ImageSize(d, xs);
    hide Run, KeyOf, ProperConfig, GoodConfig, Members;
    var image := set x | x in xs :: KeyOf(d, x);
    forall k ensures k in Matching(m, p) <==> k in image {
      if k in Matching(m, p) {
        var x := OwnKey(cfg, ops, f, k);
        assert KeyOf(d, x) in image;
      }
    }
    assert Matching(m, p) == image;
  }

  /** Every session count of a funnel, read off the history: the sessions that entered, that made
      each step in order, that made them all, and that ran out of time before. */
  lemma CountsFollow(cfg: Config, ops: seq<Op>, f: nat)
    requires ProperConfig(cfg) && GoodConfig(cfg) && f < |cfg.funnels|
    ensures f < |Run(cfg, ops).stats|
    ensures var st := Run(cfg, ops).stats[f];
            var members := Members(cfg, ops, f);
            var n := cfg.funnels[f].steps;
            && st.entered == |members|
            && st.completed == |set x | x in members && Reached(cfg, ops, f, x) == n|
            && st.expired == |set x | x in members && OutOfTime(cfg, ops, f, x) && Reached(cfg, ops, f, x) < n|
            && |st.steps| == n
            && forall i :: 0 <= i < n ==> st.steps[i].sessions == |set x | x in members && Reached(cfg, ops, f, x) > i|
  {
    C.RunKeepsInv(cfg, ops);
    Counters(cfg, Run(cfg, ops), f);
    var members := Members(cfg, ops, f);
    var n := cfg.funnels[f].steps;
    hide Run, KeyOf, ProperConfig, GoodConfig, Trace, Began, Reached, OutOfTime, Tracked, C.Inv, Names, Count;
    forall x | x in members
      ensures KeyOf(cfg.funnels[f], x) in Run(cfg, ops).sessions
      ensures var s := Run(cfg, ops).sessions[KeyOf(cfg.funnels[f], x)];
              && s.funnel == f && s.next == Reached(cfg, ops, f, x) && s.next <= n
              && (s.completed <==> Reached(cfg, ops, f, x) == n)
              && (s.expired <==> OutOfTime(cfg, ops, f, x))
    {
      SessionFollows(cfg, ops, f, x);
    }
    CountNames(cfg, ops, f, C.Of(f), members);
    CountNames(cfg, ops, f, C.Finished(f), set x | x in members && Reached(cfg, ops, f, x) == n);
    CountNames(cfg, ops, f, C.Lost(f), set x | x in members && OutOfTime(cfg, ops, f, x) && Reached(cfg, ops, f, x) < n);
    forall i | 0 <= i < n
      ensures Run(cfg, ops).stats[f].steps[i].sessions == |set x | x in members && Reached(cfg, ops, f, x) > i|
    {
      CountNames(cfg, ops, f, C.Past(f, i), set x | x in members && Reached(cfg, ops, f, x) > i);
    }
  }

  lemma Counters(cfg: Config, a: Agg, f: nat)
    requires C.Inv(cfg, a) && f < |cfg.funnels|
    ensures f < |a.stats| && |a.stats[f].steps| == cfg.funnels[f].steps
    ensures var st := a.stats[f];
            && st.entered == Count(a.sessions, C.Of(f))
            && st.completed == Count(a.sessions, C.Finished(f))
            && st.expired == Count(a.sessions, C.Lost(f))
            && forall i :: 0 <= i < |st.steps| ==> st.steps[i].sessions == Count(a.sessions, C.Past(f, i)) && st.steps[i].requests == st.steps[i].sessions + st.steps[i].retries
  {
    var st := a.stats[f];
    assert ShapeOf(cfg.funnels[f], st) && C.StatInv(st, a.sessions, f);
    hide Count;
    forall i | 0 <= i < |st.steps| ensures st.steps[i].sessions == Count(a.sessions, C.Past(f, i)) && st.steps[i].requests == st.steps[i].sessions + st.steps[i].retries {
      assert C.StepInv(st.steps[i], a.sessions, f, i);
    }
  }

  // ---------------------------------------------------------------- the requests a step counts

  /** The visit makes step `i` of a session that is tracked, has time left and has made every
      earlier step: as its next step, or once more. */
  predicate Takes(cfg: Config, front: seq<Op>, e: Visit, f: nat, i: nat)
    requires f < |cfg.funnels|
  {
    && Reaches(cfg, e, f) && cfg.funnels[f].routeIndex[e.page] == i
    && Tracked(cfg, front + [See(e)], f, e.session)
    && HasTime(cfg.funnels[f], Trace(cfg, front, f, e.session), i, e.at)
  }

  predicate HasTime(d: FunnelDef, t: seq<Moment>, i: nat, at: nat) {
    Life(d, t) == |t| && !RunsOut(d, t, Hit(i, at)) && i <= Stretch(t)
  }

  /** The visits that step `i` takes, in order. */
  function Taken(cfg: Config, ops: seq<Op>, f: nat, i: nat): seq<Visit>
    requires f < |cfg.funnels|
  {
    if ops == [] then []
    else
      var front, op := ops[..|ops| - 1], ops[|ops| - 1];
      Taken(cfg, front, f, i) + if op.See? && Takes(cfg, front, op.e, f, i) then [op.e] else []
  }

  /** A visit lands on the step if it is the session's next or an earlier one, in time. */
  lemma LandsIff(cfg: Config, a: Agg, f: nat, i: nat, e: Visit, t: seq<Moment>)
    requires GoodConfig(cfg) && Shape(cfg, a) && f < |cfg.funnels| && e.page in cfg.funnels[f].routeIndex
    requires Agrees(cfg, a, f, e.session, t)
    ensures S.LandsOn(cfg, a, f, i, e) <==>
              && cfg.funnels[f].routeIndex[e.page] == i
              && KeyOf(cfg.funnels[f], e.session) in ObserveFunnel(cfg, a, f, e).sessions
              && HasTime(cfg.funnels[f], t, i, e.at)
  {
    var d := cfg.funnels[f];
    var k := KeyOf(d, e.session);
    VisitTable(cfg, a, f, e);
    assert GoodFunnel(d) && t[..|t|] == t;
    if k !in a.sessions && Began(t).None? {
      NoStretch(t);
      NeverEnds(d, t);
    }
    hide GoodConfig, GoodFunnel, Shape, ObserveFunnel, KeyOf, Stretch, Began, Life;
  }

  lemma KeyStays(cfg: Config, a: Agg, g: nat, e: Visit, f: nat, x: string)
    requires ProperConfig(cfg) && Shape(cfg, a) && f < |cfg.funnels| && g < |cfg.funnels| && g != f
    ensures KeyOf(cfg.funnels[f], x) in ObserveFunnel(cfg, a, g, e).sessions <==> KeyOf(cfg.funnels[f], x) in a.sessions
  {
    VisitTable(cfg, a, g, e);
    KeysOf(cfg, f, x, g, e.session);
    hide ProperConfig, GoodConfig, Shape, KeyOf, ObserveFunnel, Judge, NewSession;
  }

  lemma {:induction false} KeyStaysAll(cfg: Config, a: Agg, fs: seq<nat>, e: Visit, f: nat, i: nat, x: string)
    requires ProperConfig(cfg) && GoodConfig(cfg) && Shape(cfg, a) && f < |cfg.funnels| && f !in fs && forall k :: 0 <= k < |fs| ==> fs[k] < |cfg.funnels|
    ensures KeyOf(cfg.funnels[f], x) in ObserveAll(cfg, a, fs, e).sessions <==> KeyOf(cfg.funnels[f], x) in a.sessions
    ensures S.AcceptedAll(cfg, a, fs, f, i, e) == []
    decreases |fs|
  {
    hide ProperConfig, GoodConfig, Shape, KeyOf, ObserveFunnel, S.LandsOn;
    if fs != [] {
      assert fs[0] in fs;
      KeyStays(cfg, a, fs[0], e, f, x);
      KeyStaysAll(cfg, ObserveFunnel(cfg, a, fs[0], e), fs[1..], e, f, i, x);
    }
  }

  lemma NotAgain(fs: seq<nat>)
    requires ListedOnce(fs) && fs != []
    ensures ListedOnce(fs[1..]) && fs[0] !in fs[1..]
    ensures forall f :: f in fs <==> f == fs[0] || f in fs[1..]
  {
    assert forall j :: 0 <= j < |fs| - 1 ==> fs[1..][j] == fs[j + 1];
  }

  lemma {:induction false} AcceptedIff(cfg: Config, a: Agg, fs: seq<nat>, f: nat, i: nat, e: Visit, t: seq<Moment>)
    requires ProperConfig(cfg) && GoodConfig(cfg) && Shape(cfg, a) && f < |cfg.funnels| && forall k :: 0 <= k < |fs| ==> fs[k] < |cfg.funnels|
    requires ListedOnce(fs) && Agrees(cfg, a, f, e.session, t)
    ensures S.AcceptedAll(cfg, a, fs, f, i, e) ==
              if && f in fs && e.page in cfg.funnels[f].routeIndex && cfg.funnels[f].routeIndex[e.page] == i
                 && KeyOf(cfg.funnels[f], e.session) in ObserveAll(cfg, a, fs, e).sessions
                 && HasTime(cfg.funnels[f], t, i, e.at)
              then [e] else []
    decreases |fs|
  {
    hide ProperConfig, GoodConfig, Shape, ListedOnce, Agrees, KeyOf, ObserveFunnel, HasTime;
    if fs != [] {
      NotAgain(fs);
      var b := ObserveFunnel(cfg, a, fs[0], e);
      if fs[0] == f {
        KeyStaysAll(cfg, b, fs[1..], e, f, i, e.session);
        if e.page in cfg.funnels[f].routeIndex { LandsIff(cfg, a, f, i, e, t); }
      } else {
        OtherAgrees(cfg, a, fs[0], e, f, e.session, t);
        AcceptedIff(cfg, b, fs[1..], f, i, e, t);
      }
      hide S.LandsOn;
    }
  }

  lemma TakesNow(cfg: Config, front: seq<Op>, f: nat, i: nat, e: Visit)
    requires ProperConfig(cfg) && GoodConfig(cfg) && f < |cfg.funnels|
    requires Shape(cfg, S.Ticked(Run(cfg, front), e.at)) && forall k :: 0 <= k < |FunnelsFor(cfg, e.scenario)| ==> FunnelsFor(cfg, e.scenario)[k] < |cfg.funnels|
    ensures S.AcceptedAll(cfg, S.Ticked(Run(cfg, front), e.at), FunnelsFor(cfg, e.scenario), f, i, e) ==
              if Takes(cfg, front, e, f, i) then [e] else []
  {
    var a, t := Run(cfg, front), Trace(cfg, front, f, e.session);
    Listed(cfg, e.scenario);
    RunAgrees(cfg, front, f, e.session);
    TickAgrees(cfg, a, e.at, f, e.session, t);
    RunVisit(cfg, front, See(e));
    SeeUnfolds(cfg, a, e);
    TrackedAreFirst(cfg, front + [See(e)]);
    AcceptedIff(cfg, S.Ticked(a, e.at), FunnelsFor(cfg, e.scenario), f, i, e, t);
    hide ProperConfig, GoodConfig, Shape, ListedOnce, Agrees, KeyOf, ObserveAll, S.AcceptedAll, S.Ticked, Run, Apply, Trace, HasTime, Arrivals, First;
  }

  lemma TakenUnfolds(cfg: Config, ops: seq<Op>, f: nat, i: nat)
    requires f < |cfg.funnels|
    ensures ops == [] ==> Taken(cfg, ops, f, i) == []
    ensures ops != [] ==>
              var front, op := ops[..|ops| - 1], ops[|ops| - 1];
              && (op.Snapshot? ==> Taken(cfg, ops, f, i) == Taken(cfg, front, f, i))
              && (op.See? ==> Taken(cfg, ops, f, i) == Taken(cfg, front, f, i) + if Takes(cfg, front, op.e, f, i) then [op.e] else [])
  {
    hide Takes;
  }

  lemma {:induction false} AcceptedAreTaken(cfg: Config, ops: seq<Op>, f: nat, i: nat)
    requires ProperConfig(cfg) && GoodConfig(cfg) && f < |cfg.funnels|
    ensures S.Accepted(cfg, ops, f, i) == Taken(cfg, ops, f, i)
  {
    hide *;
    S.AcceptedUnfolds(cfg, ops, f, i);
    TakenUnfolds(cfg, ops, f, i);
    if ops != [] {
      var front, op := ops[..|ops| - 1], ops[|ops| - 1];
      AcceptedAreTaken(cfg, front, f, i);
      if op.See? {
        SeeUnfolds(cfg, Run(cfg, front), op.e);
        TakesNow(cfg, front, f, i, op.e);
      }
    }
  }

  /** Every request count of a step, read off the history. */
  lemma RequestsFollow(cfg: Config, ops: seq<Op>, f: nat, i: nat)
    requires ProperConfig(cfg) && GoodConfig(cfg) && f < |cfg.funnels| && i < cfg.funnels[f].steps
    ensures f < |Run(cfg, ops).stats| && i < |Run(cfg, ops).stats[f].steps|
    ensures var st := Run(cfg, ops).stats[f].steps[i];
            var taken := Taken(cfg, ops, f, i);
            && S.Counts(st, taken)
            && st.requests == |taken|
            && st.retries == |taken| - |set x | x in Members(cfg, ops, f) && Reached(cfg, ops, f, x) > i|
  {
    S.StepsCountAccepted(cfg, ops, f, i);
    AcceptedAreTaken(cfg, ops, f, i);
    CountsFollow(cfg, ops, f);
    C.RunKeepsInv(cfg, ops);
    Counters(cfg, Run(cfg, ops), f);
    hide Run, ProperConfig, GoodConfig, C.Inv, Count, Members, Reached, Taken, S.Accepted, S.Client, S.Server, S.Measured, Describes;
  }

  // ---------------------------------------------------------------- one visit

  /** What one visit to a funnel page does to the counters, by what the table held before. */
  lemma VisitEffect(cfg: Config, a: Agg, f: nat, e: Visit)
    requires GoodConfig(cfg) && Shape(cfg, a) && f < |cfg.funnels| && e.page in cfg.funnels[f].routeIndex
    requires f < |a.stats| && |a.stats[f].steps| == cfg.funnels[f].steps
    requires KeyOf(cfg.funnels[f], e.session) in a.sessions ==> a.sessions[KeyOf(cfg.funnels[f], e.session)].funnel == f
    ensures var d := cfg.funnels[f]; var i := d.routeIndex[e.page];
            var k := KeyOf(d, e.session);
            var b := ObserveFunnel(cfg, a, f, e);
            && i < d.steps && |b.stats| == |a.stats| && |b.stats[f].steps| == d.steps
            && (forall g :: 0 <= g < |a.stats| && g != f ==> b.stats[g] == a.stats[g])
            && (forall j :: 0 <= j < d.steps && j != i ==> b.stats[f].steps[j] == a.stats[f].steps[j])
            && (k !in a.sessions ==>
                 // the first step enters while there is room, and any other is ignored
                 && b.stats[f].completed == a.stats[f].completed && b.stats[f].expired == a.stats[f].expired
                 && (i != 0 ==> b == a)
                 && (i == 0 && |a.sessions| >= cfg.maxSessions ==> b == a.(dropped := a.dropped + 1))
                 && (i == 0 && |a.sessions| < cfg.maxSessions ==>
                      && b.stats[f].entered == a.stats[f].entered + 1 && Adds(a.stats[f].steps[i], b.stats[f].steps[i], 1, 0)
                      && b.dropped == a.dropped && b.missing == a.missing + if d.within > 0 && e.at == 0 then 1 else 0))
            && (k in a.sessions ==>
                 var s := a.sessions[k];
                 var unclear := d.within > 0 && (e.at == 0 || s.started == 0 || e.at < s.started);
                 && b.dropped == a.dropped && b.stats[f].entered == a.stats[f].entered
                 && (s.expired ==> b == a)
                 && (!s.expired && Exceeds(d, s.started, e.at) ==>
                      && b.missing == a.missing && b.stats[f].steps == a.stats[f].steps && b.stats[f].completed == a.stats[f].completed
                      && b.stats[f].expired == a.stats[f].expired + (if s.completed then 0 else 1)
                      && b.sessions == a.sessions[k := s.(expired := true)])
                 && (!s.expired && !Exceeds(d, s.started, e.at) ==>
                      && b.missing == a.missing + (if unclear then 1 else 0)
                      && b.stats[f].expired == a.stats[f].expired
                      && (i < s.next ==>
                           Adds(a.stats[f].steps[i], b.stats[f].steps[i], 0, 1) && b.stats[f].completed == a.stats[f].completed && b.sessions == a.sessions)
                      && (i == s.next ==>
                           && Adds(a.stats[f].steps[i], b.stats[f].steps[i], 1, 0)
                           && b.stats[f].completed == a.stats[f].completed + (if i + 1 == d.steps then 1 else 0)
                           && b.sessions == a.sessions[k := s.(next := i + 1, completed := s.completed || i + 1 == d.steps)])
                      && (i > s.next ==> b.stats == a.stats && b.sessions == a.sessions)))
  {
    assert GoodFunnel(cfg.funnels[f]) && ShapeOf(cfg.funnels[f], a.stats[f]);
    hide GoodConfig, KeyOf, Record;
  }

  /** One request more, of this many sessions and retries. */
  predicate Adds(before: StepStat, after: StepStat, sessions: nat, retries: nat) {
    && after.sessions == before.sessions + sessions && after.retries == before.retries + retries
    && after.requests == before.requests + 1
  }
}
