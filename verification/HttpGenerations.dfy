/** HTTP measurement generations (httpstats/generation.go, httpstats/httpstats.go).

    A request is pinned to the generation that is current when it starts.  It leaves that
    generation once: when its row has been recorded, or when it is confirmed to be a long-lived
    connection.  A sealed generation settles when nothing is pinned to it.  One `Event` is one
    lock-held region; the code of one request runs in order (`Pc`), everything else interleaves.
 */
module HttpGenerations {
  import opened Wrappers
  import opened Counting

  /** Where the code of one request stands between two lock-held regions. */
  datatype Pc =
    | Handling    // the handler runs
    | Confirming  // tracker.start marked the request long-lived
    | Counted     // connStart counted the connection
    | Recording   // the handler returned an ordinary request
    | Recorded    // its row is in the table
    | Closing     // the handler returned a streaming response
    | Gone

  datatype Req = Req(gen: nat, pc: Pc, long: bool, hijacked: bool, finished: bool, hangup: bool)

  /** `table` lists the requests whose rows were recorded, in order. */
  datatype Gen = Gen(inFlight: int, sealed: bool, done: bool, released: bool, cleared: bool, table: seq<nat>, connTotal: nat)

  datatype Memo = Memo(runID: string, epoch: nat, gen: nat)

  datatype Reply = Committed(gen: nat) | StaleEpoch | ContextExpired

  datatype Sys = Sys(
    gens: seq<Gen>,
    reqs: map<nat, Req>,
    connActive: int,
    connTotal: nat,
    epoch: nat,
    begun: Option<Memo>,
    frozen: Option<Memo>)

  datatype Event =
    | Begin(r: nat)
    | Confirm(r: nat, hijack: bool)   // tracker.start: the tracker's own region
    | ConnStart(r: nat)
    | Unpin(r: nat)                   // Collector.release
    | Return(r: nat)                  // tracker.finishHandler: the tracker's own region
    | Observe(r: nat)                 // table.observeRequestWork
    | Settle(r: nat)                  // the rest of Collector.finish
    | ConnFinish(r: nat)              // connFinish of a streaming response
    | HangUp(r: nat)                  // tracker.finishHijacked: the tracker's own region
    | HangUpFinish(r: nat)            // connFinish of a hijacked connection
    | Boundary(freeze: bool, runID: string, ep: nat, live: bool)
    | Reset                           // the swap of the compatibility shim
    | ReleaseMark(g: nat)
    | ReleaseClear(g: nat)

  const FRESH_GEN := Gen(0, false, false, false, false, [], 0)

  const INIT := Sys([FRESH_GEN], map[], 0, 0, 0, None, None)

  // ---------------------------------------------------------------- steps

  function SettleGen(g: Gen): Gen {
    if g.sealed && g.inFlight == 0 then g.(done := true) else g
  }

  function LeaveGen(g: Gen): Gen {
    SettleGen(g.(inFlight := g.inFlight - 1))
  }

  predicate At(s: Sys, r: nat, pc: Pc) {
    r in s.reqs && s.reqs[r].pc == pc && s.reqs[r].gen < |s.gens|
  }

  function Swap(s: Sys): Sys
    requires s.gens != []
  {
    var last := |s.gens| - 1;
    var closing := s.gens[last].(connTotal := s.connTotal, sealed := true);
    s.(gens := s.gens[last := SettleGen(closing)] + [FRESH_GEN], connTotal := 0)
  }

  function MemoOf(s: Sys, freeze: bool): Option<Memo> {
    if freeze then s.frozen else s.begun
  }

  predicate Replays(s: Sys, freeze: bool, runID: string, ep: nat) {
    var m := MemoOf(s, freeze);
    m.Some? && m.value.runID == runID && m.value.epoch == ep
  }

  function BoundaryReply(s: Sys, freeze: bool, runID: string, ep: nat, live: bool): Reply
    requires s.gens != []
  {
    if Replays(s, freeze, runID, ep) then Committed(MemoOf(s, freeze).value.gen)
    else if ep < s.epoch then StaleEpoch
    else if !live then ContextExpired
    else Committed(|s.gens| - 1)
  }

  function TakeBoundary(s: Sys, freeze: bool, runID: string, ep: nat, live: bool): Sys
    requires s.gens != []
  {
    if Replays(s, freeze, runID, ep) || ep < s.epoch || !live then s
    else
      var memo := Some(Memo(runID, ep, |s.gens| - 1));
      var t := Swap(s).(epoch := ep);
      if freeze then t.(frozen := memo) else t.(begun := memo)
  }

  function ConfirmReq(q: Req, hijack: bool): Req {
    if q.long then q.(hijacked := q.hijacked || hijack)
    else q.(long := true, hijacked := hijack, pc := Confirming)
  }

  function ReturnReq(q: Req): Req {
    if !q.long then q.(pc := Recording)
    else if q.hijacked || q.finished then q.(pc := Gone)
    else q.(finished := true, pc := Closing)
  }

  /** The hijacked connection was handed to the caller, so it may be closed at any time. */
  predicate CanHangUp(s: Sys, r: nat) {
    r in s.reqs && s.reqs[r].hijacked && s.reqs[r].pc != Confirming && s.reqs[r].pc != Counted && !s.reqs[r].finished
  }

  function Step(s: Sys, e: Event): (t: Sys)
    requires s.gens != []
    ensures t.gens != []
  {
    match e
    case Begin(r) =>
      if r in s.reqs then s
      else
        var last := |s.gens| - 1;
        s.(gens := s.gens[last := s.gens[last].(inFlight := s.gens[last].inFlight + 1)],
           reqs := s.reqs[r := Req(last, Handling, false, false, false, false)])
    case Confirm(r, hijack) =>
      if At(s, r, Handling) then s.(reqs := s.reqs[r := ConfirmReq(s.reqs[r], hijack)]) else s
    case ConnStart(r) =>
      if At(s, r, Confirming) then s.(reqs := s.reqs[r := s.reqs[r].(pc := Counted)], connActive := s.connActive + 1) else s
    case Unpin(r) => if At(s, r, Counted) then Leave(s, r, Handling) else s
    case Return(r) => if At(s, r, Handling) then s.(reqs := s.reqs[r := ReturnReq(s.reqs[r])]) else s
    case Observe(r) =>
      if At(s, r, Recording) then
        var g := s.reqs[r].gen;
        s.(gens := s.gens[g := s.gens[g].(table := s.gens[g].table + [r])], reqs := s.reqs[r := s.reqs[r].(pc := Recorded)])
      else s
    case Settle(r) => if At(s, r, Recorded) then Leave(s, r, Gone) else s
    case ConnFinish(r) =>
      if At(s, r, Closing) then
        s.(reqs := s.reqs[r := s.reqs[r].(pc := Gone)], connActive := s.connActive - 1, connTotal := s.connTotal + 1)
      else s
    case HangUp(r) => if CanHangUp(s, r) then s.(reqs := s.reqs[r := s.reqs[r].(finished := true, hangup := true)]) else s
    case HangUpFinish(r) =>
      if r in s.reqs && s.reqs[r].hangup then
        s.(reqs := s.reqs[r := s.reqs[r].(hangup := false)], connActive := s.connActive - 1, connTotal := s.connTotal + 1)
      else s
    case Boundary(freeze, runID, ep, live) => TakeBoundary(s, freeze, runID, ep, live)
    case Reset => Swap(s)
    case ReleaseMark(g) =>
      if g < |s.gens| && s.gens[g].sealed then s.(gens := s.gens[g := s.gens[g].(released := true)]) else s
    case ReleaseClear(g) =>
      if g < |s.gens| && s.gens[g].released && !s.gens[g].cleared
      then s.(gens := s.gens[g := s.gens[g].(cleared := true, table := [])]) else s
  }

  /** The request leaves its generation, which settles if it was the last one. */
  function Leave(s: Sys, r: nat, pc: Pc): Sys
    requires r in s.reqs && s.reqs[r].gen < |s.gens|
  {
    var g := s.reqs[r].gen;
    s.(gens := s.gens[g := LeaveGen(s.gens[g])], reqs := s.reqs[r := s.reqs[r].(pc := pc)])
  }

  function Run(es: seq<Event>): (s: Sys)
    ensures s.gens != []
  {
    if es == [] then INIT else Step(Run(es[..|es| - 1]), es[|es| - 1])
  }

  lemma RunSnoc(es: seq<Event>, e: Event)
    ensures Run(es + [e]) == Step(Run(es), e)
  {
    assert (es + [e])[..|es|] == es;
  }

  // ---------------------------------------------------------------- counting requests

  predicate IsPinned(q: Req) {
    q.pc in {Confirming, Counted, Recording, Recorded} || (q.pc == Handling && !q.long)
  }

  predicate ConnOpen(q: Req) {
    q.long && q.pc != Confirming && (!q.finished || q.hangup || q.pc == Closing)
  }

  predicate ConnClosed(q: Req) {
    q.long && q.finished && !q.hangup && q.pc != Closing
  }

  predicate IsRecorded(q: Req) {
    !q.long && q.pc in {Recorded, Gone}
  }

  function PinnedTo(g: nat): Req -> bool {
    (q: Req) => IsPinned(q) && q.gen == g
  }

  function OpenConn(): Req -> bool {
    (q: Req) => ConnOpen(q)
  }

  function ClosedConn(): Req -> bool {
    (q: Req) => ConnClosed(q)
  }

  function WindowTotals(gens: seq<Gen>): nat {
    if gens == [] then 0 else WindowTotals(gens[..|gens| - 1]) + gens[|gens| - 1].connTotal
  }

  // ---------------------------------------------------------------- the invariant

  predicate ReqInv(q: Req) {
    && (q.finished ==> q.long)
    && (q.hijacked ==> q.long)
    && (q.hangup ==> q.finished && q.hijacked)
    && (q.pc in {Confirming, Counted} ==> q.long && !q.finished)
    && (q.pc in {Recording, Recorded} ==> !q.long)
    && (q.pc == Closing ==> q.long && q.finished && !q.hijacked)
    && (q.pc == Handling && q.finished ==> q.hijacked)
  }

  /** Completion is signalled exactly when the generation is sealed with nothing pinned. */
  ghost predicate GenInv(reqs: map<nat, Req>, gens: seq<Gen>, g: nat)
    requires g < |gens|
  {
    && gens[g].inFlight == Count(reqs, PinnedTo(g))
    && (gens[g].done <==> gens[g].sealed && gens[g].inFlight == 0)
    && (gens[g].sealed <==> g < |gens| - 1)
    && (!gens[g].sealed ==> gens[g].connTotal == 0)
    && (gens[g].cleared ==> gens[g].released)
    && (gens[g].released ==> gens[g].sealed)
  }

  /** Until it is cleared, the table holds each recorded request of the generation once. */
  ghost predicate TableInv(reqs: map<nat, Req>, gens: seq<Gen>, g: nat)
    requires g < |gens|
  {
    !gens[g].cleared ==>
      && (forall i, j :: 0 <= i < j < |gens[g].table| ==> gens[g].table[i] != gens[g].table[j])
      && (forall r :: r in gens[g].table <==> r in reqs && reqs[r].gen == g && IsRecorded(reqs[r]))
  }

  ghost predicate GensInv(reqs: map<nat, Req>, gens: seq<Gen>) {
    && gens != []
    && (forall g :: 0 <= g < |gens| ==> GenInv(reqs, gens, g) && TableInv(reqs, gens, g))
  }

  ghost predicate ReqsInv(reqs: map<nat, Req>, n: nat) {
    forall r :: r in reqs ==> reqs[r].gen < n && ReqInv(reqs[r])
  }

  ghost predicate ConnInv(s: Sys) {
    && s.connActive == Count(s.reqs, OpenConn())
    && Count(s.reqs, ClosedConn()) == s.connTotal + WindowTotals(s.gens)
  }

  ghost predicate Inv(s: Sys) {
    GensInv(s.reqs, s.gens) && ReqsInv(s.reqs, |s.gens|) && ConnInv(s)
  }

  lemma {:induction false} WindowTotalsFrame(gens: seq<Gen>, g: nat, v: Gen)
    requires g < |gens|
    ensures WindowTotals(gens[g := v]) == WindowTotals(gens) - gens[g].connTotal + v.connTotal
  {
    var n := |gens| - 1;
    if g == n {
      assert gens[g := v][..n] == gens[..n];
    } else {
      assert gens[g := v][..n] == gens[..n][g := v];
      WindowTotalsFrame(gens[..n], g, v);
    }
  }

  /** Changing one request keeps the generations if each one's own count is brought up to date. */
  lemma UpdateReq(reqs: map<nat, Req>, gens: seq<Gen>, r: nat, q: Req, gens': seq<Gen>)
    requires GensInv(reqs, gens) && q.gen < |gens| && |gens'| == |gens|
    requires r in reqs ==> reqs[r].gen == q.gen
    requires forall g :: 0 <= g < |gens| && g != q.gen ==> gens'[g] == gens[g]
    requires var v := gens'[q.gen]; var u := gens[q.gen];
             && v.inFlight == u.inFlight - (if r in reqs && IsPinned(reqs[r]) then 1 else 0) + (if IsPinned(q) then 1 else 0)
             && v.sealed == u.sealed && v.released == u.released && v.cleared == u.cleared && v.connTotal == u.connTotal
             && (v.done <==> v.sealed && v.inFlight == 0)
             && (if IsRecorded(q) && !(r in reqs && IsRecorded(reqs[r])) then v.table == u.table + [r] else v.table == u.table)
    requires r in reqs && IsRecorded(reqs[r]) ==> IsRecorded(q)
    ensures GensInv(reqs[r := q], gens')
  {
    hide IsPinned, IsRecorded;
    var now := reqs[r := q];
    forall g | 0 <= g < |gens'| ensures GenInv(now, gens', g) && TableInv(now, gens', g) {
      assert GenInv(reqs, gens, g) && TableInv(reqs, gens, g);
      CountUpdate(reqs, r, q, PinnedTo(g));
    }
  }

  lemma ConnUpdate(s: Sys, r: nat, q: Req, t: Sys)
    requires ConnInv(s) && t.reqs == s.reqs[r := q] && WindowTotals(t.gens) == WindowTotals(s.gens)
    requires var open := if r in s.reqs && ConnOpen(s.reqs[r]) then 1 else 0;
             var closed := if r in s.reqs && ConnClosed(s.reqs[r]) then 1 else 0;
             && t.connActive == s.connActive - open + (if ConnOpen(q) then 1 else 0)
             && t.connTotal == s.connTotal - closed + (if ConnClosed(q) then 1 else 0)
    ensures ConnInv(t)
  {
    CountUpdate(s.reqs, r, q, OpenConn());
    CountUpdate(s.reqs, r, q, ClosedConn());
  }

  /** A step that only changes request `r` (and possibly its generation) keeps the invariant. */
  lemma RequestStep(s: Sys, r: nat, q: Req, t: Sys)
    requires Inv(s) && q.gen < |s.gens| && ReqInv(q) && |t.gens| == |s.gens| && t.reqs == s.reqs[r := q]
    requires r in s.reqs ==> s.reqs[r].gen == q.gen
    requires forall g :: 0 <= g < |s.gens| && g != q.gen ==> t.gens[g] == s.gens[g]
    requires var v := t.gens[q.gen]; var u := s.gens[q.gen];
             && v.inFlight == u.inFlight - (if r in s.reqs && IsPinned(s.reqs[r]) then 1 else 0) + (if IsPinned(q) then 1 else 0)
             && v.sealed == u.sealed && v.released == u.released && v.cleared == u.cleared && v.connTotal == u.connTotal
             && (v.done <==> v.sealed && v.inFlight == 0)
             && (if IsRecorded(q) && !(r in s.reqs && IsRecorded(s.reqs[r])) then v.table == u.table + [r] else v.table == u.table)
    requires r in s.reqs && IsRecorded(s.reqs[r]) ==> IsRecorded(q)
    requires var open := if r in s.reqs && ConnOpen(s.reqs[r]) then 1 else 0;
             var closed := if r in s.reqs && ConnClosed(s.reqs[r]) then 1 else 0;
             && t.connActive == s.connActive - open + (if ConnOpen(q) then 1 else 0)
             && t.connTotal == s.connTotal - closed + (if ConnClosed(q) then 1 else 0)
    ensures Inv(t)
  {
    hide GensInv, ConnInv, IsPinned, IsRecorded, ConnOpen, ConnClosed;
    UpdateReq(s.reqs, s.gens, r, q, t.gens);
    WindowTotalsFrame(s.gens, q.gen, t.gens[q.gen]);
    assert t.gens == s.gens[q.gen := t.gens[q.gen]];
    ConnUpdate(s, r, q, t);
  }

  /** In-flight requests cannot be pinned to a generation that does not exist yet. */
  lemma NothingPinnedAhead(reqs: map<nat, Req>, n: nat)
    requires ReqsInv(reqs, n)
    ensures Count(reqs, PinnedTo(n)) == 0
  {
    CountNone(reqs, PinnedTo(n));
  }

  lemma SwapKeepsInv(s: Sys)
    requires Inv(s)
    ensures Inv(Swap(s))
  {
    var t := Swap(s);
    var last := |s.gens| - 1;
    NothingPinnedAhead(s.reqs, |s.gens|);
    forall g | 0 <= g < |t.gens| ensures GenInv(t.reqs, t.gens, g) && TableInv(t.reqs, t.gens, g) {
      if g <= last { assert GenInv(s.reqs, s.gens, g) && TableInv(s.reqs, s.gens, g); }
    }
    WindowTotalsFrame(s.gens, last, t.gens[last]);
    assert GenInv(s.reqs, s.gens, last);
    assert t.gens[..|s.gens|] == s.gens[last := t.gens[last]];
  }

  lemma BoundaryKeepsInv(s: Sys, freeze: bool, runID: string, ep: nat, live: bool)
    requires Inv(s)
    ensures Inv(TakeBoundary(s, freeze, runID, ep, live))
  {
    hide GensInv, ReqsInv, WindowTotals;
    SwapKeepsInv(s);
  }

  lemma ReleaseKeepsInv(s: Sys, g: nat, v: Gen)
    requires Inv(s) && g < |s.gens| && s.gens[g].sealed
    requires v == s.gens[g].(released := true) || (s.gens[g].released && v == s.gens[g].(cleared := true, table := []))
    ensures Inv(s.(gens := s.gens[g := v]))
  {
    var gens := s.gens[g := v];
    WindowTotalsFrame(s.gens, g, v);
    hide Count, WindowTotals;
    forall k | 0 <= k < |gens| ensures GenInv(s.reqs, gens, k) && TableInv(s.reqs, gens, k) {
      assert GenInv(s.reqs, s.gens, k) && TableInv(s.reqs, s.gens, k);
    }
  }

  /** The events of one request. */
  predicate RequestEvent(e: Event) {
    !e.Boundary? && !e.Reset? && !e.ReleaseMark? && !e.ReleaseClear?
  }

  /** These touch the request's generation; the other request events do not. */
  predicate TouchesGen(e: Event) {
    e.Begin? || e.Unpin? || e.Observe? || e.Settle?
  }

  lemma RequestFacts(s: Sys, e: Event)
    requires Inv(s) && RequestEvent(e) && Step(s, e) != s
    ensures var t := Step(s, e);
            && e.r in t.reqs && t.reqs == s.reqs[e.r := t.reqs[e.r]]
            && t.reqs[e.r].gen < |s.gens| == |t.gens|
            && (e.r in s.reqs ==> ReqInv(s.reqs[e.r]) && s.reqs[e.r].gen == t.reqs[e.r].gen)
            && (e.r !in s.reqs ==> e.Begin?)
            && GenInv(s.reqs, s.gens, t.reqs[e.r].gen)
  {
    hide ConnInv, Count;
  }

  lemma TouchingKeepsInv(s: Sys, e: Event)
    requires Inv(s) && RequestEvent(e) && TouchesGen(e)
    ensures Inv(Step(s, e))
  {
    var t := Step(s, e);
    if t != s {
      RequestFacts(s, e);
      if e.Unpin? || e.Settle? { LastIsPinned(s, e.r); }
      hide Inv, Count;
      RequestStep(s, e.r, t.reqs[e.r], t);
    }
  }

  lemma LocalKeepsInv(s: Sys, e: Event)
    requires Inv(s) && RequestEvent(e) && !TouchesGen(e)
    ensures Inv(Step(s, e))
  {
    var t := Step(s, e);
    if t != s {
      RequestFacts(s, e);
      hide Inv, Count;
      RequestStep(s, e.r, t.reqs[e.r], t);
    }
  }

  /** A generation still holding a request has not settled. */
  lemma LastIsPinned(s: Sys, r: nat)
    requires Inv(s) && r in s.reqs && IsPinned(s.reqs[r])
    ensures s.reqs[r].gen < |s.gens| && s.gens[s.reqs[r].gen].inFlight > 0 && !s.gens[s.reqs[r].gen].done
  {
    var g := s.reqs[r].gen;
    assert GenInv(s.reqs, s.gens, g);
    if s.gens[g].inFlight == 0 {
      CountZero(s.reqs, PinnedTo(g), r);
    }
  }

  lemma StepKeepsInv(s: Sys, e: Event)
    requires Inv(s)
    ensures Inv(Step(s, e))
  {
    if RequestEvent(e) {
      if TouchesGen(e) { TouchingKeepsInv(s, e); } else { LocalKeepsInv(s, e); }
    } else {
      match e
      case Boundary(freeze, runID, ep, live) => BoundaryKeepsInv(s, freeze, runID, ep, live);
      case Reset => SwapKeepsInv(s);
      case ReleaseMark(g) =>
        if g < |s.gens| && s.gens[g].sealed { ReleaseKeepsInv(s, g, s.gens[g].(released := true)); }
      case ReleaseClear(g) =>
        if g < |s.gens| && s.gens[g].released && !s.gens[g].cleared {
          assert GenInv(s.reqs, s.gens, g);
          ReleaseKeepsInv(s, g, s.gens[g].(cleared := true, table := []));
        }
    }
  }

  lemma InitInv()
    ensures Inv(INIT)
  {
    CountNone(INIT.reqs, PinnedTo(0));
    CountNone(INIT.reqs, OpenConn());
    CountNone(INIT.reqs, ClosedConn());
    assert GenInv(INIT.reqs, INIT.gens, 0);
    assert WindowTotals(INIT.gens[..0]) == 0;
  }

  /** Over all interleavings: a generation's count is the number of requests still pinned to it,
      `done` is closed exactly when it is sealed with none left, open connections are counted by
      connActive, and every closed one appears in exactly one window total or the live one. */
  lemma {:induction false} RunKeepsInv(es: seq<Event>)
    ensures Inv(Run(es))
  {
    if es == [] {
      InitInv();
    } else {
      RunKeepsInv(es[..|es| - 1]);
      StepKeepsInv(Run(es[..|es| - 1]), es[|es| - 1]);
    }
  }

  /** The connection books balance in every reachable state. */
  lemma ConnectionsBalance(es: seq<Event>)
    ensures var s := Run(es);
            && s.connActive == Count(s.reqs, OpenConn())
            && Count(s.reqs, ClosedConn()) == s.connTotal + WindowTotals(s.gens)
  {
    RunKeepsInv(es);
  }

  /** Drain returns nil exactly when `done` is closed; then every request pinned to the
      generation has its row in the table, once, or became a long-lived connection. */
  lemma DrainSeesEveryRow(es: seq<Event>, g: nat, r: nat)
    requires var s := Run(es); g < |s.gens| && s.gens[g].done && !s.gens[g].cleared && r in s.reqs && s.reqs[r].gen == g
    ensures var s := Run(es);
            && s.gens[g].inFlight == 0
            && !IsPinned(s.reqs[r])
            && (s.reqs[r].long <==> r !in s.gens[g].table)
            && (!s.reqs[r].long ==> multiset(s.gens[g].table)[r] == 1)
  {
    var s := Run(es);
    RunKeepsInv(es);
    assert GenInv(s.reqs, s.gens, g) && TableInv(s.reqs, s.gens, g);
    CountZero(s.reqs, PinnedTo(g), r);
    if r in s.gens[g].table { OnceInTable(s.gens[g].table, r); }
  }

  lemma {:induction false} OnceInTable(table: seq<nat>, r: nat)
    requires r in table && forall i, j :: 0 <= i < j < |table| ==> table[i] != table[j]
    ensures multiset(table)[r] == 1
  {
    var n := |table| - 1;
    assert table == table[..n] + [table[n]];
    if r in table[..n] {
      OnceInTable(table[..n], r);
    }
  }

  /** A settled generation is fixed: no step but its own Release changes what it reports. */
  lemma SettledIsFixed(s: Sys, e: Event, g: nat)
    requires Inv(s) && g < |s.gens| && s.gens[g].done && e != ReleaseClear(g)
    ensures var t := Step(s, e);
            && g < |t.gens| && t.gens[g].done && t.gens[g].sealed
            && t.gens[g].table == s.gens[g].table && t.gens[g].connTotal == s.gens[g].connTotal
  {
    assert GenInv(s.reqs, s.gens, g);
    if RequestEvent(e) && !e.Begin? && e.r in s.reqs && IsPinned(s.reqs[e.r]) {
      LastIsPinned(s, e.r);
    }
    hide GensInv, ReqsInv, ConnInv, Count;
  }

  lemma {:induction false} DrainedIsFixed(es: seq<Event>, more: seq<Event>, g: nat)
    requires g < |Run(es).gens| && Run(es).gens[g].done && ReleaseClear(g) !in more
    ensures var s, t := Run(es), Run(es + more);
            && g < |t.gens| && t.gens[g].done
            && t.gens[g].table == s.gens[g].table && t.gens[g].connTotal == s.gens[g].connTotal
  {
    hide *;
    if more == [] {
      assert es + more == es;
    } else {
      var front := more[..|more| - 1];
      DrainedIsFixed(es, front, g);
      RunKeepsInv(es + front);
      RunSnoc(es + front, more[|more| - 1]);
      assert es + more == es + front + [more[|more| - 1]];
      SettledIsFixed(Run(es + front), more[|more| - 1], g);
    }
  }

  /** A request that began after a boundary is never charged to the generation it closed. */
  lemma LateRequestsStayOut(s: Sys, r: nat, freeze: bool, runID: string, ep: nat)
    requires Inv(s) && r !in s.reqs && ep >= s.epoch && !Replays(s, freeze, runID, ep)
    ensures var reply := BoundaryReply(s, freeze, runID, ep, true);
            var t := Step(Step(s, Boundary(freeze, runID, ep, true)), Begin(r));
            reply.Committed? && r in t.reqs && t.reqs[r].gen == reply.gen + 1 && t.gens[reply.gen].sealed
  {
  }

  /** A retried boundary returns the first handle and swaps nothing. */
  lemma BoundaryReplays(s: Sys, freeze: bool, runID: string, ep: nat, live: bool)
    requires s.gens != [] && BoundaryReply(s, freeze, runID, ep, live).Committed?
    ensures var t := Step(s, Boundary(freeze, runID, ep, live));
            && BoundaryReply(t, freeze, runID, ep, live) == BoundaryReply(s, freeze, runID, ep, live)
            && Step(t, Boundary(freeze, runID, ep, live)) == t
  {
  }

  /** A request that left its generation never returns to it, so it leaves exactly once. */
  lemma {:induction false} LeavesOnce(es: seq<Event>, more: seq<Event>, r: nat)
    requires r in Run(es).reqs && !IsPinned(Run(es).reqs[r])
    ensures var s, t := Run(es), Run(es + more);
            r in t.reqs && t.reqs[r].gen == s.reqs[r].gen && !IsPinned(t.reqs[r])
  {
    hide *;
    if more == [] {
      assert es + more == es;
    } else {
      var front := more[..|more| - 1];
      LeavesOnce(es, front, r);
      RunKeepsInv(es + front);
      RunSnoc(es + front, more[|more| - 1]);
      assert es + more == es + front + [more[|more| - 1]];
      StaysUnpinned(Run(es + front), more[|more| - 1], r);
    }
  }

  lemma StaysUnpinned(s: Sys, e: Event, r: nat)
    requires Inv(s) && r in s.reqs && !IsPinned(s.reqs[r])
    ensures var t := Step(s, e); r in t.reqs && t.reqs[r].gen == s.reqs[r].gen && !IsPinned(t.reqs[r])
  {
    assert ReqInv(s.reqs[r]);
    hide Inv;
  }
}
