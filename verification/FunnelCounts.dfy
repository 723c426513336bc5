/** What the funnel counters mean (flowviz/aggregate.go): in every reachable state each counter
    is the size of a set of sessions, so the reported funnel is consistent by construction.
 */
module FunnelCounts {
  import opened Wrappers
  import opened Counting
  import opened Quantiles
  import opened Funnels

  function Of(f: nat): Session -> bool {
    (s: Session) => s.funnel == f
  }

  /** Sessions that have passed step `i` of funnel `f`. */
  function Past(f: nat, i: nat): Session -> bool {
    (s: Session) => s.funnel == f && s.next > i
  }

  function Finished(f: nat): Session -> bool {
    (s: Session) => s.funnel == f && s.completed
  }

  /** Sessions that ran out of time before completing. */
  function Lost(f: nat): Session -> bool {
    (s: Session) => s.funnel == f && s.expired && !s.completed
  }

  ghost predicate SessionInv(cfg: Config, s: Session) {
    && s.funnel < |cfg.funnels|
    && 1 <= s.next <= cfg.funnels[s.funnel].steps
    && (s.completed <==> s.next == cfg.funnels[s.funnel].steps)
  }

  ghost predicate SessionsInv(cfg: Config, sessions: map<string, Session>) {
    forall k :: k in sessions ==> SessionInv(cfg, sessions[k])
  }

  ghost predicate StepInv(st: StepStat, sessions: map<string, Session>, f: nat, i: nat) {
    st.sessions == Count(sessions, Past(f, i)) && st.requests == st.sessions + st.retries
  }

  ghost predicate TotalsInv(st: FunnelStat, sessions: map<string, Session>, f: nat) {
    && st.entered == Count(sessions, Of(f))
    && st.completed == Count(sessions, Finished(f))
    && st.expired == Count(sessions, Lost(f))
  }

  ghost predicate StatInv(st: FunnelStat, sessions: map<string, Session>, f: nat) {
    TotalsInv(st, sessions, f) && forall i :: 0 <= i < |st.steps| ==> StepInv(st.steps[i], sessions, f, i)
  }

  ghost predicate Inv(cfg: Config, a: Agg) {
    && Shape(cfg, a)
    && SessionsInv(cfg, a.sessions)
    && forall f :: 0 <= f < |a.stats| ==> StatInv(a.stats[f], a.sessions, f)
  }

  predicate Holds(s: Option<Session>, p: Session -> bool) {
    s.Some? && p(s.value)
  }

  lemma CountStore(m: map<string, Session>, k: string, s: Option<Session>, p: Session -> bool)
    requires s.None? ==> k !in m
    ensures Count(Store(m, k, s), p)
         == Count(m, p) - (if Holds(Lookup(m, k), p) then 1 else 0) + (if Holds(s, p) then 1 else 0)
  {
    if s.Some? { CountUpdate(m, k, s.value, p); }
  }

  /** What one visit does to the visited session, and what the counters must therefore do. */
  ghost predicate Transition(d: FunnelDef, f: nat, s: Option<Session>, v: Verdict, step: nat, t: Option<Session>) {
    && (v.Entered? ==> s.None? && step == 0 && t.Some? && t.value.funnel == f && t.value.next == 1 && !t.value.completed && !t.value.expired)
    && (v.Advanced? ==> s.Some? && t.Some? && s.value.funnel == f == t.value.funnel && s.value.next == step && t.value.next == step + 1
                        && !s.value.expired && !t.value.expired && !s.value.completed && t.value.completed == v.completes)
    && (v.ExpiredNow? ==> s.Some? && t == Some(s.value.(expired := true)) && s.value.funnel == f && !s.value.expired
                          && v.counted == !s.value.completed)
    && (v.Retried? ==> s.Some? && t == s)
    && (v.Ignored? || v.SessionDropped? || v.OutOfOrder? ==> t == s)
  }

  lemma JudgeTransition(cfg: Config, f: nat, s: Option<Session>, step: nat, at: nat, full: bool)
    requires f < |cfg.funnels| && step < cfg.funnels[f].steps && (s.Some? ==> SessionInv(cfg, s.value))
    requires GoodFunnel(cfg.funnels[f])
    ensures var v := Judge(cfg.funnels[f], f, s, step, at, full);
            var t := NewSession(f, s, v, at);
            Transition(cfg.funnels[f], f, s, v, step, t) && (t.Some? ==> SessionInv(cfg, t.value)) && (t.None? ==> s.None?)
  {
  }

  lemma TotalsFollow(d: FunnelDef, st: FunnelStat, m: map<string, Session>, k: string, f: nat, v: Verdict, step: nat, e: Visit, t: Option<Session>)
    requires TotalsInv(st, m, f) && Transition(d, f, Lookup(m, k), v, step, t) && (t.None? ==> k !in m)
    requires ShapeOf(d, st) && step < d.steps
    ensures TotalsInv(NewStat(st, v, step, e), Store(m, k, t), f)
  {
    CountStore(m, k, t, Of(f));
    CountStore(m, k, t, Finished(f));
    CountStore(m, k, t, Lost(f));
    hide Store, Lookup, AcceptStep;
  }

  lemma StepsFollow(d: FunnelDef, st: FunnelStat, m: map<string, Session>, k: string, f: nat, v: Verdict, step: nat, e: Visit, t: Option<Session>, i: nat)
    requires Transition(d, f, Lookup(m, k), v, step, t) && (t.None? ==> k !in m)
    requires ShapeOf(d, st) && step < d.steps && i < |st.steps| && StepInv(st.steps[i], m, f, i)
    ensures i < |NewStat(st, v, step, e).steps| && StepInv(NewStat(st, v, step, e).steps[i], Store(m, k, t), f, i)
  {
    CountStore(m, k, t, Past(f, i));
    hide Store, Lookup, AcceptStep;
  }

  /** Another funnel's counters do not see the session. */
  lemma OthersUnmoved(d: FunnelDef, st: FunnelStat, m: map<string, Session>, k: string, f: nat, v: Verdict, step: nat, t: Option<Session>, g: nat)
    requires g != f && StatInv(st, m, g) && Transition(d, f, Lookup(m, k), v, step, t) && (t.None? ==> k !in m)
    ensures StatInv(st, Store(m, k, t), g)
  {
    CountStore(m, k, t, Of(g));
    CountStore(m, k, t, Finished(g));
    CountStore(m, k, t, Lost(g));
    hide Store, Lookup;
    forall i | 0 <= i < |st.steps| ensures StepInv(st.steps[i], Store(m, k, t), g, i) {
      CountStore(m, k, t, Past(g, i));
      assert StepInv(st.steps[i], m, g, i);
    }
  }

  lemma FunnelKeepsInv(cfg: Config, a: Agg, f: nat, e: Visit)
    requires GoodConfig(cfg) && Inv(cfg, a) && f < |cfg.funnels|
    ensures Inv(cfg, ObserveFunnel(cfg, a, f, e))
  {
    var d := cfg.funnels[f];
    if e.page in d.routeIndex {
      var k := KeyOf(d, e.session);
      var step := d.routeIndex[e.page];
      var v := VerdictOf(cfg, a, f, e);
      var t := NewSession(f, Lookup(a.sessions, k), v, e.at);
      var b := ObserveFunnel(cfg, a, f, e);
      assert GoodFunnel(d) && ShapeOf(d, a.stats[f]);
      JudgeTransition(cfg, f, Lookup(a.sessions, k), step, e.at, |a.sessions| >= cfg.maxSessions);
      assert b.sessions == Store(a.sessions, k, t) && b.stats == a.stats[f := NewStat(a.stats[f], v, step, e)];
      assert Transition(d, f, Lookup(a.sessions, k), v, step, t) && (t.None? ==> k !in a.sessions);
      StoreKeepsSessions(cfg, a.sessions, k, t);
      hide ObserveFunnel, NewStat, NewSession, Judge, VerdictOf, Transition, Store, Lookup, SessionsInv, Shape, GoodConfig;
      forall g | 0 <= g < |b.stats| ensures StatInv(b.stats[g], b.sessions, g) {
        assert StatInv(a.stats[g], a.sessions, g);
        if g == f {
          FunnelStatFollows(d, a.stats[f], a.sessions, k, f, v, step, e, t);
        } else {
          OthersUnmoved(d, a.stats[g], a.sessions, k, f, v, step, t, g);
        }
      }
    }
  }

  lemma StoreKeepsSessions(cfg: Config, m: map<string, Session>, k: string, t: Option<Session>)
    requires SessionsInv(cfg, m) && (t.Some? ==> SessionInv(cfg, t.value))
    ensures SessionsInv(cfg, Store(m, k, t))
  {
  }

  lemma FunnelStatFollows(d: FunnelDef, st: FunnelStat, m: map<string, Session>, k: string, f: nat, v: Verdict, step: nat, e: Visit, t: Option<Session>)
    requires StatInv(st, m, f) && Transition(d, f, Lookup(m, k), v, step, t) && (t.None? ==> k !in m)
    requires ShapeOf(d, st) && step < d.steps
    ensures StatInv(NewStat(st, v, step, e), Store(m, k, t), f)
  {
    TotalsFollow(d, st, m, k, f, v, step, e, t);
    var st' := NewStat(st, v, step, e);
    assert |st'.steps| == |st.steps|;
    hide NewStat, Transition, Store, Lookup, TotalsInv, StepInv;
    forall i | 0 <= i < |st'.steps| ensures StepInv(st'.steps[i], Store(m, k, t), f, i) {
      StepsFollow(d, st, m, k, f, v, step, e, t, i);
    }
  }

  lemma {:induction false} AllKeepInv(cfg: Config, a: Agg, fs: seq<nat>, e: Visit)
    requires GoodConfig(cfg) && Inv(cfg, a) && forall i :: 0 <= i < |fs| ==> fs[i] < |cfg.funnels|
    ensures Inv(cfg, ObserveAll(cfg, a, fs, e))
    decreases |fs|
  {
    if fs != [] {
      FunnelKeepsInv(cfg, a, fs[0], e);
      AllKeepInv(cfg, ObserveFunnel(cfg, a, fs[0], e), fs[1..], e);
    }
  }

  lemma ExpireKeepsInv(cfg: Config, a: Agg)
    requires Inv(cfg, a)
    ensures Inv(cfg, Expire(cfg, a))
  {
    var b := Expire(cfg, a);
    ExpireSomeShape(cfg, a, a.sessions.Keys);
    forall k | k in b.sessions ensures SessionInv(cfg, b.sessions[k]) {
      assert SessionInv(cfg, a.sessions[k]);
    }
    forall f | 0 <= f < |b.stats| ensures StatInv(b.stats[f], b.sessions, f) {
      assert StatInv(a.stats[f], a.sessions, f);
      ExpireKeepsStat(cfg, a, f);
    }
  }

  /** A property that expiry does not affect is shared by as many sessions as before. */
  lemma ExpireFrame(cfg: Config, a: Agg, p: Session -> bool)
    requires forall k :: k in a.sessions ==> p(ExpireSession(cfg, a.latest, a.sessions[k])) == p(a.sessions[k])
    ensures Count(Expire(cfg, a).sessions, p) == Count(a.sessions, p)
  {
    hide Due;
    assert Matching(Expire(cfg, a).sessions, p) == Matching(a.sessions, p);
  }

  lemma ExpireLoses(cfg: Config, a: Agg, f: nat)
    ensures Count(Expire(cfg, a).sessions, Lost(f)) == Count(a.sessions, Lost(f)) + |DueOf(cfg, a, f, a.sessions.Keys)|
  {
    var due := DueOf(cfg, a, f, a.sessions.Keys);
    assert Matching(Expire(cfg, a).sessions, Lost(f)) == Matching(a.sessions, Lost(f)) + due;
    assert Matching(a.sessions, Lost(f)) !! due;
  }

  lemma ExpireKeepsStat(cfg: Config, a: Agg, f: nat)
    requires f < |a.stats| && StatInv(a.stats[f], a.sessions, f)
    ensures f < |Expire(cfg, a).stats| && StatInv(Expire(cfg, a).stats[f], Expire(cfg, a).sessions, f)
  {
    var b := Expire(cfg, a);
    assert b.stats[f] == ExpireStat(a.stats[f], |DueOf(cfg, a, f, a.sessions.Keys)|);
    ExpireFrame(cfg, a, Of(f));
    ExpireFrame(cfg, a, Finished(f));
    ExpireLoses(cfg, a, f);
    forall i | 0 <= i < |b.stats[f].steps| ensures StepInv(b.stats[f].steps[i], b.sessions, f, i) {
      ExpireFrame(cfg, a, Past(f, i));
      hide Expire;
      assert StepInv(a.stats[f].steps[i], a.sessions, f, i);
    }
    hide Expire;
  }

  lemma Narrower(sessions: map<string, Session>, f: nat, i: nat)
    ensures Count(sessions, Past(f, i + 1)) <= Count(sessions, Past(f, i))
  {
    CountImplies(sessions, Past(f, i + 1), Past(f, i));
  }

  lemma ClockKeepsInv(cfg: Config, a: Agg, latest: nat)
    requires Inv(cfg, a)
    ensures Inv(cfg, a.(latest := latest))
  {
  }

  lemma InitInv(cfg: Config)
    ensures Inv(cfg, Init(cfg))
  {
    var a := Init(cfg);
    forall f | 0 <= f < |a.stats| ensures StatInv(a.stats[f], a.sessions, f) {
      CountNone(a.sessions, Of(f));
      CountNone(a.sessions, Finished(f));
      CountNone(a.sessions, Lost(f));
      forall i | 0 <= i < |a.stats[f].steps| ensures StepInv(a.stats[f].steps[i], a.sessions, f, i) {
        CountNone(a.sessions, Past(f, i));
      }
    }
  }

  lemma ApplyKeepsInv(cfg: Config, a: Agg, op: Op)
    requires GoodConfig(cfg) && Inv(cfg, a)
    ensures Inv(cfg, Apply(cfg, a, op))
  {
    if op.Snapshot? {
      ExpireKeepsInv(cfg, a);
    } else {
      var now := if op.e.at > a.latest then op.e.at else a.latest;
      ClockKeepsInv(cfg, a, now);
      assert forall i :: 0 <= i < |FunnelsFor(cfg, op.e.scenario)| ==> FunnelsFor(cfg, op.e.scenario)[i] < |cfg.funnels|;
      hide Inv, ObserveAll;
      AllKeepInv(cfg, a.(latest := now), FunnelsFor(cfg, op.e.scenario), op.e);
    }
  }

  /** Every reachable state, whatever visits and snapshots led to it. */
  lemma {:induction false} RunKeepsInv(cfg: Config, ops: seq<Op>)
    requires GoodConfig(cfg)
    ensures Inv(cfg, Run(cfg, ops))
  {
    hide *;
    RunUnfolds(cfg, ops);
    if ops == [] {
      InitInv(cfg);
    } else {
      RunKeepsInv(cfg, ops[..|ops| - 1]);
      ApplyKeepsInv(cfg, Run(cfg, ops[..|ops| - 1]), ops[|ops| - 1]);
    }
  }

  /** The reported funnel never grows from one step to the next, starts at the sessions that
      entered, ends at those that completed, and loses no more than entered; so the clamp that
      guards the drop-off against going negative never fires. */
  lemma FunnelIsConsistent(cfg: Config, ops: seq<Op>, f: nat)
    requires GoodConfig(cfg) && f < |cfg.funnels|
    ensures var st := Run(cfg, ops).stats;
            && f < |st| && |st[f].steps| == cfg.funnels[f].steps >= 2
            && st[f].entered == st[f].steps[0].sessions
            && st[f].completed == st[f].steps[|st[f].steps| - 1].sessions
            && st[f].completed + st[f].expired <= st[f].entered
            && (forall i :: 0 <= i < |st[f].steps| ==> st[f].steps[i].requests == st[f].steps[i].sessions + st[f].steps[i].retries)
            && (forall i :: 0 <= i < |st[f].steps| - 1 ==> st[f].steps[i + 1].sessions <= st[f].steps[i].sessions)
  {
    RunKeepsInv(cfg, ops);
    var a := Run(cfg, ops);
    var st := a.stats[f];
    assert GoodFunnel(cfg.funnels[f]) && ShapeOf(cfg.funnels[f], st) && StatInv(st, a.sessions, f);
    var n := |st.steps|;
    assert StepInv(st.steps[0], a.sessions, f, 0) && StepInv(st.steps[n - 1], a.sessions, f, n - 1);
    assert Matching(a.sessions, Past(f, 0)) == Matching(a.sessions, Of(f)) by {
      assert forall k :: k in a.sessions ==> SessionInv(cfg, a.sessions[k]);
    }
    assert Matching(a.sessions, Past(f, n - 1)) == Matching(a.sessions, Finished(f)) by {
      assert forall k :: k in a.sessions ==> SessionInv(cfg, a.sessions[k]);
    }
    CountDisjoint(a.sessions, Finished(f), Lost(f), Of(f));
    hide Inv, GoodConfig, Run;
    forall i | 0 <= i < n - 1 ensures st.steps[i + 1].sessions <= st.steps[i].sessions {
      assert StepInv(st.steps[i], a.sessions, f, i) && StepInv(st.steps[i + 1], a.sessions, f, i + 1);
      Narrower(a.sessions, f, i);
    }
    forall i | 0 <= i < n ensures st.steps[i].requests == st.steps[i].sessions + st.steps[i].retries {
      assert StepInv(st.steps[i], a.sessions, f, i);
    }
  }
}
