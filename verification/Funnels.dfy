/** The funnel machine (flowviz/aggregate.go): per-session progress through configured steps,
    expiry when a visit arrives too late (lazy) and when a snapshot is taken (eager).

    Times are clock readings with 0 for the zero time.  A `Visit` is an event that passed the
    syntactic checks at the top of Observe.
 */
module Funnels {
  import opened Wrappers
  import opened Counting
  import opened Quantiles

  datatype StepStat = StepStat(sessions: nat, requests: nat, retries: nat, status4xx: nat, status5xx: nat, latency: Histogram)

  datatype FunnelDef = FunnelDef(id: string, within: nat, routeIndex: map<string, nat>, steps: nat)

  datatype FunnelStat = FunnelStat(steps: seq<StepStat>, entered: nat, completed: nat, expired: nat)

  datatype Session = Session(funnel: nat, next: nat, started: nat, completed: bool, expired: bool)

  datatype Config = Config(funnels: seq<FunnelDef>, byScenario: map<string, seq<nat>>, maxSessions: nat)

  datatype Agg = Agg(stats: seq<FunnelStat>, sessions: map<string, Session>, dropped: nat, missing: nat, latest: nat)

  datatype Visit = Visit(session: string, scenario: string, page: string, status: int, latency: int, at: nat)

  /** What Config.Validate and New guarantee. */
  ghost predicate GoodConfig(cfg: Config) {
    && (forall f :: 0 <= f < |cfg.funnels| ==> GoodFunnel(cfg.funnels[f]))
    && (forall c :: c in cfg.byScenario ==> forall i :: 0 <= i < |cfg.byScenario[c]| ==> cfg.byScenario[c][i] < |cfg.funnels|)
  }

  ghost predicate GoodFunnel(d: FunnelDef) {
    d.steps >= 2 && forall r :: r in d.routeIndex ==> d.routeIndex[r] < d.steps
  }

  ghost predicate ShapeOf(d: FunnelDef, st: FunnelStat) {
    |st.steps| == d.steps && forall i :: 0 <= i < |st.steps| ==> |st.steps[i].latency.buckets| == FLOW_BUCKETS
  }

  ghost predicate Shape(cfg: Config, a: Agg) {
    |a.stats| == |cfg.funnels| && forall f :: 0 <= f < |a.stats| ==> ShapeOf(cfg.funnels[f], a.stats[f])
  }

  // ---------------------------------------------------------------- one visit to one funnel

  datatype Verdict =
    | Ignored
    | SessionDropped
    | Entered(missing: bool)
    | ExpiredNow(counted: bool)
    | Retried(missing: bool)
    | Advanced(missing: bool, completes: bool)
    | OutOfOrder(missing: bool)

  function Judge(d: FunnelDef, f: nat, s: Option<Session>, step: nat, at: nat, full: bool): Verdict {
    if s.None? then
      if step != 0 then Ignored else if full then SessionDropped else Entered(d.within > 0 && at == 0)
    else
      var state := s.value;
      var unclear := d.within > 0 && (at == 0 || state.started == 0 || at < state.started);
      if state.funnel != f || state.expired then Ignored
      else if d.within > 0 && !unclear && at - state.started > d.within then ExpiredNow(!state.completed)
      else if step < state.next then Retried(unclear)
      else if step == state.next then Advanced(unclear, state.next + 1 == d.steps)
      else OutOfOrder(unclear)
  }

  function NewSession(f: nat, s: Option<Session>, v: Verdict, at: nat): Option<Session> {
    if v.Entered? then Some(Session(f, 1, at, false, false))
    else if s.None? then s
    else if v.ExpiredNow? then Some(s.value.(expired := true))
    else if v.Advanced? then Some(s.value.(next := s.value.next + 1, completed := s.value.completed || v.completes))
    else s
  }

  function AcceptStep(st: StepStat, status: int, latency: int, retry: bool): (r: StepStat)
    requires |st.latency.buckets| == FLOW_BUCKETS
    ensures |r.latency.buckets| == FLOW_BUCKETS
    ensures r.requests == st.requests + 1
    ensures r.retries == st.retries + (if retry then 1 else 0) && r.sessions == st.sessions + (if retry then 0 else 1)
  {
    StepStat(
      st.sessions + if retry then 0 else 1,
      st.requests + 1,
      st.retries + if retry then 1 else 0,
      st.status4xx + (if 400 <= status < 500 then 1 else 0),
      st.status5xx + (if status >= 500 then 1 else 0),
      if latency >= 0 then Record(st.latency, FlowF(), latency) else st.latency)
  }

  function NewStat(st: FunnelStat, v: Verdict, step: nat, e: Visit): FunnelStat
    requires step < |st.steps| && forall i :: 0 <= i < |st.steps| ==> |st.steps[i].latency.buckets| == FLOW_BUCKETS
  {
    match v
    case Entered(_) =>
      st.(entered := st.entered + 1, steps := st.steps[0 := AcceptStep(st.steps[0], e.status, e.latency, false)])
    case ExpiredNow(counted) => st.(expired := st.expired + if counted then 1 else 0)
    case Retried(_) => st.(steps := st.steps[step := AcceptStep(st.steps[step], e.status, e.latency, true)])
    case Advanced(_, completes) =>
      st.(steps := st.steps[step := AcceptStep(st.steps[step], e.status, e.latency, false)],
          completed := st.completed + if completes then 1 else 0)
    case _ => st
  }

  predicate CountsMissing(v: Verdict) {
    (v.Entered? || v.Retried? || v.Advanced? || v.OutOfOrder?) && v.missing
  }

  function Lookup(m: map<string, Session>, k: string): Option<Session> {
    if k in m then Some(m[k]) else None
  }

  function Store(m: map<string, Session>, k: string, s: Option<Session>): map<string, Session> {
    if s.None? then m else m[k := s.value]
  }

  function KeyOf(d: FunnelDef, session: string): string {
    d.id + ['\0'] + session
  }

  function VerdictOf(cfg: Config, a: Agg, f: nat, e: Visit): Verdict
    requires f < |cfg.funnels| && e.page in cfg.funnels[f].routeIndex
  {
    var d := cfg.funnels[f];
    Judge(d, f, Lookup(a.sessions, KeyOf(d, e.session)), d.routeIndex[e.page], e.at, |a.sessions| >= cfg.maxSessions)
  }

  /** observeFunnel */
  function ObserveFunnel(cfg: Config, a: Agg, f: nat, e: Visit): (b: Agg)
    requires GoodConfig(cfg) && Shape(cfg, a) && f < |cfg.funnels|
    ensures Shape(cfg, b) && b.latest == a.latest
  {
    var d := cfg.funnels[f];
    if e.page !in d.routeIndex then a
    else
      var step := d.routeIndex[e.page];
      var key := KeyOf(d, e.session);
      var v := VerdictOf(cfg, a, f, e);
      assert GoodFunnel(d) && ShapeOf(d, a.stats[f]);
      Agg(a.stats[f := NewStat(a.stats[f], v, step, e)],
          Store(a.sessions, key, NewSession(f, Lookup(a.sessions, key), v, e.at)),
          a.dropped + (if v.SessionDropped? then 1 else 0),
          a.missing + (if CountsMissing(v) then 1 else 0),
          a.latest)
  }

  function ObserveAll(cfg: Config, a: Agg, fs: seq<nat>, e: Visit): (b: Agg)
    requires GoodConfig(cfg) && Shape(cfg, a) && forall i :: 0 <= i < |fs| ==> fs[i] < |cfg.funnels|
    ensures Shape(cfg, b) && b.latest == a.latest
    decreases |fs|
  {
    if fs == [] then a else ObserveAll(cfg, ObserveFunnel(cfg, a, fs[0], e), fs[1..], e)
  }

  function FunnelsFor(cfg: Config, scenario: string): seq<nat> {
    if scenario in cfg.byScenario then cfg.byScenario[scenario] else []
  }

  function Observe(cfg: Config, a: Agg, e: Visit): (b: Agg)
    requires GoodConfig(cfg) && Shape(cfg, a)
    ensures Shape(cfg, b) && b.latest == if e.at > a.latest then e.at else a.latest
  {
    ObserveAll(cfg, a.(latest := if e.at > a.latest then e.at else a.latest), FunnelsFor(cfg, e.scenario), e)
  }

  // ---------------------------------------------------------------- eager expiry

  /** The condition under which expireSilentSessions expires a session. */
  predicate Due(cfg: Config, latest: nat, s: Session) {
    && !s.completed && !s.expired && s.started != 0 && s.funnel < |cfg.funnels|
    && cfg.funnels[s.funnel].within > 0 && latest > s.started && latest - s.started > cfg.funnels[s.funnel].within
  }

  function DueOf(cfg: Config, a: Agg, f: nat, keys: set<string>): set<string> {
    set k | k in keys && k in a.sessions && a.sessions[k].funnel == f && Due(cfg, a.latest, a.sessions[k])
  }

  function ExpireSession(cfg: Config, latest: nat, s: Session): Session {
    if Due(cfg, latest, s) then s.(expired := true) else s
  }

  function ExpireStat(st: FunnelStat, n: nat): FunnelStat {
    st.(expired := st.expired + n)
  }

  /** Expires the due sessions among `keys`. */
  function ExpireSome(cfg: Config, a: Agg, keys: set<string>): Agg {
    a.(sessions := map k | k in a.sessions :: if k in keys then ExpireSession(cfg, a.latest, a.sessions[k]) else a.sessions[k],
       stats := seq(|a.stats|, f requires 0 <= f < |a.stats| => ExpireStat(a.stats[f], |DueOf(cfg, a, f, keys)|)))
  }

  /** expireSilentSessions */
  function Expire(cfg: Config, a: Agg): Agg {
    ExpireSome(cfg, a, a.sessions.Keys)
  }

  lemma ExpireSomeShape(cfg: Config, a: Agg, keys: set<string>)
    requires Shape(cfg, a)
    ensures Shape(cfg, ExpireSome(cfg, a, keys))
  {
    forall f | 0 <= f < |a.stats| ensures ShapeOf(cfg.funnels[f], ExpireSome(cfg, a, keys).stats[f]) {
      assert ShapeOf(cfg.funnels[f], a.stats[f]);
    }
  }

  /** Expiring in two goes is expiring once. */
  lemma ExpireTwice(cfg: Config, a: Agg, p: set<string>, q: set<string>)
    ensures ExpireSome(cfg, ExpireSome(cfg, a, p), q) == ExpireSome(cfg, a, p + q)
  {
    var b := ExpireSome(cfg, a, p);
    var c := ExpireSome(cfg, b, q);
    var d := ExpireSome(cfg, a, p + q);
    assert c.sessions == d.sessions;
    forall f | 0 <= f < |a.stats| ensures c.stats[f] == d.stats[f] {
      DueSplits(cfg, a, f, p, q);
    }
    assert c.stats == d.stats;
  }

  lemma DueSplits(cfg: Config, a: Agg, f: nat, p: set<string>, q: set<string>)
    ensures |DueOf(cfg, a, f, p + q)| == |DueOf(cfg, a, f, p)| + |DueOf(cfg, ExpireSome(cfg, a, p), f, q)|
  {
    var b := ExpireSome(cfg, a, p);
    assert DueOf(cfg, a, f, p + q) == DueOf(cfg, a, f, p) + DueOf(cfg, b, f, q);
    assert DueOf(cfg, a, f, p) !! DueOf(cfg, b, f, q);
  }

  /** The keys of `keys` that really are due. */
  function DueKeys(cfg: Config, a: Agg, keys: set<string>): set<string> {
    set k | k in keys && k in a.sessions && Due(cfg, a.latest, a.sessions[k])
  }

  /** A later clock changes nothing about sessions that were due before. */
  lemma ExpireThenWait(cfg: Config, a: Agg, keys: set<string>, latest: nat)
    requires latest >= a.latest
    ensures ExpireSome(cfg, a, keys).(latest := latest)
         == ExpireSome(cfg, a.(latest := latest), DueKeys(cfg, a, keys))
  {
    var due := DueKeys(cfg, a, keys);
    var b := ExpireSome(cfg, a, keys).(latest := latest);
    var c := ExpireSome(cfg, a.(latest := latest), due);
    assert b.sessions == c.sessions;
    forall f | 0 <= f < |a.stats| ensures b.stats[f] == c.stats[f] {
      assert DueOf(cfg, a, f, keys) == DueOf(cfg, a.(latest := latest), f, due);
    }
    assert b.stats == c.stats;
  }

  // ---------------------------------------------------------------- eager agrees with lazy

  /** A session that eager expiry would end is ended by the visit itself, or was never touched. */
  lemma DueIsExpiredByVisit(cfg: Config, s: Session, f: nat, step: nat, at: nat, full: bool)
    requires s.funnel == f < |cfg.funnels| && Due(cfg, at, s)
    ensures Judge(cfg.funnels[f], f, Some(s), step, at, full) == ExpiredNow(true)
    ensures Judge(cfg.funnels[f], f, Some(s.(expired := true)), step, at, full) == Ignored
  {
  }

  /** The visited session was already expired eagerly: the lazy run now catches up with it. */
  lemma CatchesUp(cfg: Config, a: Agg, keys: set<string>, f: nat, e: Visit, key: string)
    requires GoodConfig(cfg) && Shape(cfg, a) && f < |cfg.funnels| && e.at == a.latest
    requires e.page in cfg.funnels[f].routeIndex && key == KeyOf(cfg.funnels[f], e.session)
    requires key in keys && key in a.sessions && a.sessions[key].funnel == f && Due(cfg, a.latest, a.sessions[key])
    ensures Shape(cfg, ExpireSome(cfg, a, keys))
    ensures ObserveFunnel(cfg, ExpireSome(cfg, a, keys), f, e)
         == ExpireSome(cfg, ObserveFunnel(cfg, a, f, e), keys - {key})
  {
    ExpireSomeShape(cfg, a, keys);
    var b := ExpireSome(cfg, a, keys);
    var d := cfg.funnels[f];
    DueIsExpiredByVisit(cfg, a.sessions[key], f, d.routeIndex[e.page], e.at, |a.sessions| >= cfg.maxSessions);
    assert b.sessions[key] == a.sessions[key].(expired := true);
    DueIsExpiredByVisit(cfg, a.sessions[key], f, d.routeIndex[e.page], e.at, |b.sessions| >= cfg.maxSessions);
    var a' := ObserveFunnel(cfg, a, f, e);
    hide Judge, Due, GoodConfig, Shape;
    assert ObserveFunnel(cfg, b, f, e) == b by {
      assert b.stats[f := b.stats[f]] == b.stats;
      assert b.sessions[key := b.sessions[key]] == b.sessions;
    }
    assert a'.sessions == a.sessions[key := a.sessions[key].(expired := true)];
    assert a'.stats == a.stats[f := a.stats[f].(expired := a.stats[f].expired + 1)];
    ExpireRest(cfg, a, a', keys, f, key);
  }

  lemma ExpireRest(cfg: Config, a: Agg, a': Agg, keys: set<string>, f: nat, key: string)
    requires f < |a.stats| && key in keys && key in a.sessions && a.sessions[key].funnel == f
    requires Due(cfg, a.latest, a.sessions[key])
    requires a' == a.(sessions := a.sessions[key := a.sessions[key].(expired := true)],
                      stats := a.stats[f := ExpireStat(a.stats[f], 1)])
    ensures ExpireSome(cfg, a', keys - {key}) == ExpireSome(cfg, a, keys)
  {
    var b := ExpireSome(cfg, a, keys);
    var c := ExpireSome(cfg, a', keys - {key});
    assert b.sessions == c.sessions;
    forall g | 0 <= g < |a.stats| ensures b.stats[g] == c.stats[g] {
      assert DueOf(cfg, a', g, keys - {key}) == DueOf(cfg, a, g, keys) - {key};
    }
    assert b.stats == c.stats;
  }

  /** The visited session is the same in both runs: so is the effect of the visit on it. */
  lemma ActsAlike(cfg: Config, a: Agg, keys: set<string>, f: nat, e: Visit, key: string)
    requires GoodConfig(cfg) && Shape(cfg, a) && f < |cfg.funnels| && e.at == a.latest
    requires e.page in cfg.funnels[f].routeIndex && key == KeyOf(cfg.funnels[f], e.session)
    requires keys <= a.sessions.Keys && (key in keys ==> !Due(cfg, a.latest, a.sessions[key]))
    ensures Shape(cfg, ExpireSome(cfg, a, keys))
    ensures ObserveFunnel(cfg, ExpireSome(cfg, a, keys), f, e)
         == ExpireSome(cfg, ObserveFunnel(cfg, a, f, e), keys - {key})
  {
    ExpireSomeShape(cfg, a, keys);
    var b := ExpireSome(cfg, a, keys);
    var step := cfg.funnels[f].routeIndex[e.page];
    assert Lookup(b.sessions, key) == Lookup(a.sessions, key);
    assert b.sessions.Keys == a.sessions.Keys;
    assert |b.sessions| == |b.sessions.Keys| == |a.sessions.Keys| == |a.sessions|;
    var v := VerdictOf(cfg, a, f, e);
    assert VerdictOf(cfg, b, f, e) == v;
    assert ShapeOf(cfg.funnels[f], a.stats[f]) && GoodFunnel(cfg.funnels[f]);
    var s := NewSession(f, Lookup(a.sessions, key), v, e.at);
    var n := |DueOf(cfg, a, f, keys)|;
    assert ShapeOf(cfg.funnels[f], b.stats[f]);
    StatCommutes(a.stats[f], v, step, e, n);
    hide Judge, GoodConfig, Shape, ShapeOf, NewStat, VerdictOf;
    var x := NewStat(a.stats[f], v, step, e);
    var a' := ObserveFunnel(cfg, a, f, e);
    StoreCommutes(cfg, a, a', keys, f, key, s, x);
  }

  lemma StatCommutes(st: FunnelStat, v: Verdict, step: nat, e: Visit, n: nat)
    requires step < |st.steps| && forall i :: 0 <= i < |st.steps| ==> |st.steps[i].latency.buckets| == FLOW_BUCKETS
    ensures NewStat(ExpireStat(st, n), v, step, e) == ExpireStat(NewStat(st, v, step, e), n)
  {
  }

  lemma StoreCommutes(cfg: Config, a: Agg, a': Agg, keys: set<string>, f: nat, key: string, s: Option<Session>, x: FunnelStat)
    requires f < |a.stats| && a'.latest == a.latest
    requires a'.sessions == Store(a.sessions, key, s) && a'.stats == a.stats[f := x]
    requires keys <= a.sessions.Keys && (key in keys ==> !Due(cfg, a.latest, a.sessions[key]))
    ensures var b := ExpireSome(cfg, a, keys);
            ExpireSome(cfg, a', keys - {key}) ==
            a'.(sessions := Store(b.sessions, key, s),
                stats := b.stats[f := ExpireStat(x, |DueOf(cfg, a, f, keys)|)])
  {
    var b := ExpireSome(cfg, a, keys);
    var c := ExpireSome(cfg, a', keys - {key});
    assert c.sessions == Store(b.sessions, key, s);
    forall g | 0 <= g < |a.stats| ensures DueOf(cfg, a', g, keys - {key}) == DueOf(cfg, a, g, keys) {
    }
    assert c.stats == b.stats[f := ExpireStat(x, |DueOf(cfg, a, f, keys)|)];
  }

  /** One visit to one funnel, with some due sessions already expired in the second run. */
  lemma VisitKeepsPace(cfg: Config, a: Agg, keys: set<string>, f: nat, e: Visit) returns (rest: set<string>)
    requires GoodConfig(cfg) && Shape(cfg, a) && f < |cfg.funnels| && e.at == a.latest && keys <= a.sessions.Keys
    ensures Shape(cfg, ExpireSome(cfg, a, keys))
    ensures rest <= ObserveFunnel(cfg, a, f, e).sessions.Keys
    ensures ObserveFunnel(cfg, ExpireSome(cfg, a, keys), f, e) == ExpireSome(cfg, ObserveFunnel(cfg, a, f, e), rest)
  {
    ExpireSomeShape(cfg, a, keys);
    var d := cfg.funnels[f];
    if e.page !in d.routeIndex { return keys; }
    var key := KeyOf(d, e.session);
    if key in keys && Due(cfg, a.latest, a.sessions[key]) {
      if a.sessions[key].funnel == f {
        CatchesUp(cfg, a, keys, f, e, key);
        return keys - {key};
      } else {
        OtherFunnel(cfg, a, f, e, key);
        OtherFunnel(cfg, ExpireSome(cfg, a, keys), f, e, key);
        return keys;
      }
    }
    ActsAlike(cfg, a, keys, f, e, key);
    return keys - {key};
  }

  lemma OtherFunnel(cfg: Config, a: Agg, f: nat, e: Visit, key: string)
    requires GoodConfig(cfg) && Shape(cfg, a) && f < |cfg.funnels| && e.page in cfg.funnels[f].routeIndex
    requires key == KeyOf(cfg.funnels[f], e.session) && key in a.sessions && a.sessions[key].funnel != f
    ensures ObserveFunnel(cfg, a, f, e) == a
  {
    assert a.stats[f := a.stats[f]] == a.stats;
    assert a.sessions[key := a.sessions[key]] == a.sessions;
  }

  lemma {:induction false} VisitsKeepPace(cfg: Config, a: Agg, keys: set<string>, fs: seq<nat>, e: Visit) returns (rest: set<string>)
    requires GoodConfig(cfg) && Shape(cfg, a) && e.at == a.latest && keys <= a.sessions.Keys
    requires forall i :: 0 <= i < |fs| ==> fs[i] < |cfg.funnels|
    ensures Shape(cfg, ExpireSome(cfg, a, keys))
    ensures rest <= ObserveAll(cfg, a, fs, e).sessions.Keys
    ensures ObserveAll(cfg, ExpireSome(cfg, a, keys), fs, e) == ExpireSome(cfg, ObserveAll(cfg, a, fs, e), rest)
    decreases |fs|
  {
    hide GoodConfig, Shape, ExpireSome, ObserveFunnel;
    ExpireSomeShape(cfg, a, keys);
    if fs == [] {
      rest := keys;
    } else {
      var mid := VisitKeepsPace(cfg, a, keys, fs[0], e);
      rest := VisitsKeepPace(cfg, ObserveFunnel(cfg, a, fs[0], e), mid, fs[1..], e);
    }
  }

  // ---------------------------------------------------------------- runs

  datatype Op = See(e: Visit) | Snapshot

  function EmptyStat(d: FunnelDef): FunnelStat {
    FunnelStat(seq(d.steps, _ => StepStat(0, 0, 0, 0, 0, EmptyHistogram(FLOW_BUCKETS))), 0, 0, 0)
  }

  function Init(cfg: Config): (a: Agg)
    ensures Shape(cfg, a)
  {
    Agg(seq(|cfg.funnels|, f requires 0 <= f < |cfg.funnels| => EmptyStat(cfg.funnels[f])), map[], 0, 0, 0)
  }

  function Apply(cfg: Config, a: Agg, op: Op): (b: Agg)
    requires GoodConfig(cfg) && Shape(cfg, a)
    ensures Shape(cfg, b)
  {
    match op
    case See(e) => Observe(cfg, a, e)
    case Snapshot => ExpireSomeShape(cfg, a, a.sessions.Keys); Expire(cfg, a)
  }

  function Run(cfg: Config, ops: seq<Op>): (a: Agg)
    requires GoodConfig(cfg)
    ensures Shape(cfg, a)
  {
    if ops == [] then Init(cfg) else Apply(cfg, Run(cfg, ops[..|ops| - 1]), ops[|ops| - 1])
  }

  function VisitsOnly(ops: seq<Op>): seq<Op> {
    if ops == [] then []
    else VisitsOnly(ops[..|ops| - 1]) + if ops[|ops| - 1].See? then [ops[|ops| - 1]] else []
  }

  function LastTime(ops: seq<Op>): nat {
    if ops == [] then 0
    else if ops[|ops| - 1].See? then ops[|ops| - 1].e.at
    else LastTime(ops[..|ops| - 1])
  }

  /** Visits carry nonzero, nondecreasing timestamps. */
  predicate Timely(ops: seq<Op>) {
    ops == [] ||
    (Timely(ops[..|ops| - 1]) &&
     (ops[|ops| - 1].See? ==> ops[|ops| - 1].e.at != 0 && ops[|ops| - 1].e.at >= LastTime(ops[..|ops| - 1])))
  }

  lemma {:induction false} ClockFollowsVisits(cfg: Config, ops: seq<Op>)
    requires GoodConfig(cfg) && Timely(ops)
    ensures Run(cfg, ops).latest == LastTime(ops)
  {
    if ops != [] {
      ClockFollowsVisits(cfg, ops[..|ops| - 1]);
    }
  }

  lemma {:induction false} OnlyVisitsSetTheClock(ops: seq<Op>)
    ensures LastTime(VisitsOnly(ops)) == LastTime(ops)
    ensures Timely(ops) ==> Timely(VisitsOnly(ops))
  {
    if ops != [] {
      var front, op := ops[..|ops| - 1], ops[|ops| - 1];
      OnlyVisitsSetTheClock(front);
      if op.See? {
        assert VisitsOnly(ops)[..|VisitsOnly(ops)| - 1] == VisitsOnly(front);
      } else {
        assert VisitsOnly(ops) == VisitsOnly(front);
      }
    }
  }

  /** The run with snapshots is the run without them, with some due sessions already expired. */
  lemma {:induction false} SnapshotsOnlyExpire(cfg: Config, ops: seq<Op>) returns (keys: set<string>)
    requires GoodConfig(cfg) && Timely(ops)
    ensures keys <= Run(cfg, VisitsOnly(ops)).sessions.Keys
    ensures Run(cfg, ops) == ExpireSome(cfg, Run(cfg, VisitsOnly(ops)), keys)
  {
    hide *;
    RunUnfolds(cfg, ops);
    if ops == [] {
      keys := {};
      NothingExpired(cfg, Init(cfg));
    } else {
      var front, op := ops[..|ops| - 1], ops[|ops| - 1];
      keys := SnapshotsOnlyExpire(cfg, front);
      var a := Run(cfg, VisitsOnly(front));
      if op.Snapshot? {
        SnapshotExpires(cfg, a, keys);
        keys := a.sessions.Keys;
      } else {
        RunVisit(cfg, VisitsOnly(front), op);
        OnlyVisitsSetTheClock(front);
        ClockFollowsVisits(cfg, VisitsOnly(front));
        SeeStep(cfg, a, op.e);
        SeeStep(cfg, Run(cfg, front), op.e);
        keys := SeeKeepsPace(cfg, a, keys, op.e);
      }
    }
  }

  lemma RunUnfolds(cfg: Config, ops: seq<Op>)
    requires GoodConfig(cfg)
    ensures ops == [] ==> Run(cfg, ops) == Init(cfg) && VisitsOnly(ops) == []
    ensures ops != [] ==>
              var front, op := ops[..|ops| - 1], ops[|ops| - 1];
              && Run(cfg, ops) == Apply(cfg, Run(cfg, front), op)
              && VisitsOnly(ops) == (if op.See? then VisitsOnly(front) + [op] else VisitsOnly(front))
              && (Timely(ops) ==> Timely(front) && (op.See? ==> op.e.at != 0 && op.e.at >= LastTime(front)))
  {
    if ops != [] && !ops[|ops| - 1].See? {
      assert VisitsOnly(ops) == VisitsOnly(ops[..|ops| - 1]);
    }
  }

  lemma SeeStep(cfg: Config, a: Agg, e: Visit)
    requires GoodConfig(cfg) && Shape(cfg, a)
    ensures Apply(cfg, a, See(e)) == Observe(cfg, a, e)
  {
  }

  lemma SnapshotExpires(cfg: Config, a: Agg, keys: set<string>)
    requires GoodConfig(cfg) && Shape(cfg, ExpireSome(cfg, a, keys)) && keys <= a.sessions.Keys
    ensures Apply(cfg, ExpireSome(cfg, a, keys), Snapshot) == ExpireSome(cfg, a, a.sessions.Keys)
  {
    SameKeys(cfg, a, keys);
    ExpireTwice(cfg, a, keys, a.sessions.Keys);
    assert keys + a.sessions.Keys == a.sessions.Keys;
    hide ExpireSome;
  }

  lemma RunVisit(cfg: Config, ops: seq<Op>, op: Op)
    requires GoodConfig(cfg)
    ensures Run(cfg, ops + [op]) == Apply(cfg, Run(cfg, ops), op)
  {
    assert (ops + [op])[..|ops|] == ops;
  }

  lemma NothingExpired(cfg: Config, a: Agg)
    ensures ExpireSome(cfg, a, {}) == a
  {
    assert forall f :: 0 <= f < |a.stats| ==> DueOf(cfg, a, f, {}) == {};
    assert ExpireSome(cfg, a, {}).stats == a.stats;
    assert ExpireSome(cfg, a, {}).sessions == a.sessions;
  }

  lemma SameKeys(cfg: Config, a: Agg, keys: set<string>)
    ensures ExpireSome(cfg, a, keys).sessions.Keys == a.sessions.Keys
    ensures ExpireSome(cfg, a, keys).latest == a.latest && |ExpireSome(cfg, a, keys).stats| == |a.stats|
  {
  }

  lemma SeeKeepsPace(cfg: Config, a: Agg, keys: set<string>, e: Visit) returns (rest: set<string>)
    requires GoodConfig(cfg) && Shape(cfg, a) && e.at >= a.latest && keys <= a.sessions.Keys
    ensures Shape(cfg, ExpireSome(cfg, a, keys))
    ensures rest <= Observe(cfg, a, e).sessions.Keys
    ensures Observe(cfg, ExpireSome(cfg, a, keys), e) == ExpireSome(cfg, Observe(cfg, a, e), rest)
  {
    ExpireSomeShape(cfg, a, keys);
    ExpireThenWait(cfg, a, keys, e.at);
    SameKeys(cfg, a, keys);
    var now := a.(latest := e.at);
    assert DueKeys(cfg, a, keys) <= now.sessions.Keys;
    assert Shape(cfg, now);
    assert forall i :: 0 <= i < |FunnelsFor(cfg, e.scenario)| ==> FunnelsFor(cfg, e.scenario)[i] < |cfg.funnels|;
    hide ExpireSome, DueKeys, GoodConfig, Shape, ObserveAll;
    rest := VisitsKeepPace(cfg, now, DueKeys(cfg, a, keys), FunnelsFor(cfg, e.scenario), e);
    assert a.latest != e.at || now == a;
  }

  /** Taking snapshots at any points changes no later output: what a snapshot reports is a
      function of the aggregate after eager expiry, and that aggregate is the same. */
  lemma SnapshotsAreTransparent(cfg: Config, ops: seq<Op>)
    requires GoodConfig(cfg) && Timely(ops)
    ensures Expire(cfg, Run(cfg, ops)) == Expire(cfg, Run(cfg, VisitsOnly(ops)))
  {
    var keys := SnapshotsOnlyExpire(cfg, ops);
    var a := Run(cfg, VisitsOnly(ops));
    SameKeys(cfg, a, keys);
    ExpireTwice(cfg, a, keys, a.sessions.Keys);
    assert keys + a.sessions.Keys == a.sessions.Keys;
  }
}
