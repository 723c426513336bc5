/** The hub's run over its peers (multihost/hub.go, multihost/types.go).

    What the peers answer is an arbitrary function of the peer and of the phase. The requests of
    one phase run concurrently and each writes only its own peer's result, so the loops below
    take the peers in an arbitrary order.
 */
module Hub {
  import opened Wrappers

  const MAX_PEERS := 8
  const TOTAL_SNAPSHOT_CAP := 32 * 1024 * 1024
  const HUB_SELF_RESERVE := 16 * 1024 * 1024
  const PER_PEER_DEFAULT_BYTES := 4 * 1024 * 1024
  const MIN_PEER_BYTES := 512 * 1024

  datatype Validity = Valid | Partial | Invalid

  datatype Failure = PreflightFailed | DuplicateAgent | StartFailed | FinishFailed | PollFailed | FetchFailed | BudgetExhausted

  datatype Seal = Unsealed | Acked | Aborted | SealFailed

  datatype PeerResult = PeerResult(
    required: bool,
    agent: string,
    failure: Option<Failure>,
    started: bool,
    finished: bool,
    ready: bool,
    fetched: bool,
    sealed: Seal,
    asked: Option<int>)   // the bytes its snapshot request allowed

  /** One answer to a status poll. */
  datatype PollReply = Refused | Status(stopped: bool, ready: bool)

  /** What each peer answers: its agent ID if preflight passes, whether it accepts a start, a
      finish, a fetch, an abort and an ack, and its successive status answers until the deadline. */
  datatype Replies = Replies(
    info: nat -> Option<string>,
    start: nat -> bool,
    finish: nat -> bool,
    polls: nat -> seq<PollReply>,
    fetch: nat -> bool,
    abort: nat -> bool,
    ack: nat -> bool)

  // ---------------------------------------------------------------- preflight

  function Asked(required: seq<bool>, e: Replies): (ps: seq<PeerResult>)
    ensures |ps| == |required|
  {
    seq(|required|, i requires 0 <= i < |required| =>
      PeerResult(required[i],
                 if e.info(i).Some? then e.info(i).value else "",
                 if e.info(i).Some? then None else Some(PreflightFailed),
                 false, false, false, false, Unsealed, None))
  }

  predicate SharesAgent(ps: seq<PeerResult>, i: nat)
    requires i < |ps|
  {
    ps[i].failure.None? && exists j :: 0 <= j < |ps| && j != i && ps[j].failure.None? && ps[j].agent == ps[i].agent
  }

  /** Every peer whose agent answered for another peer too is failed, the first one included. */
  function Distinct(ps: seq<PeerResult>): (r: seq<PeerResult>)
    ensures |r| == |ps|
  {
    seq(|ps|, i requires 0 <= i < |ps| => if SharesAgent(ps, i) then ps[i].(failure := Some(DuplicateAgent)) else ps[i])
  }

  // ---------------------------------------------------------------- the phases

  function StartOne(p: PeerResult, accepted: bool): PeerResult {
    if p.failure.Some? then p
    else if accepted then p.(started := true)
    else p.(failure := Some(StartFailed))
  }

  function FinishOne(p: PeerResult, accepted: bool): PeerResult {
    if !p.started then p
    else if accepted then p.(finished := true)
    else p.(failure := Some(FinishFailed))
  }

  /** Polling stops at a refusal, at a stopped run, at a ready snapshot, or at the deadline, which
      is where the answers end. */
  function Polled(p: PeerResult, replies: seq<PollReply>): PeerResult
    decreases |replies|
  {
    if replies == [] || replies[0].Refused? then p.(failure := Some(PollFailed))
    else
      var q := p.(ready := replies[0].ready);
      if replies[0].stopped then q.(failure := Some(PollFailed))
      else if replies[0].ready then q
      else Polled(q, replies[1..])
  }

  function PollOne(p: PeerResult, replies: seq<PollReply>): PeerResult {
    if p.started && p.finished then Polled(p, replies) else p
  }

  function FetchOne(p: PeerResult, allowed: bool, budget: int, accepted: bool): PeerResult {
    if !p.ready then p
    else if !allowed then p.(failure := Some(BudgetExhausted))
    else if accepted then p.(asked := Some(budget), fetched := true)
    else p.(asked := Some(budget), failure := Some(FetchFailed))
  }

  function AbortOne(p: PeerResult, accepted: bool): PeerResult {
    if p.started then p.(sealed := if accepted then Aborted else SealFailed) else p
  }

  function AckOne(p: PeerResult, accepted: bool): PeerResult {
    if p.started then p.(sealed := if accepted then Acked else SealFailed) else p
  }

  datatype Phase = StartPhase | FinishPhase | PollPhase | FetchPhase(allowed: bool, budget: int) | AbortPhase | AckPhase

  /** What one phase does to the result of peer `i`. */
  function Apply(ph: Phase, p: PeerResult, i: nat, e: Replies): PeerResult {
    match ph
    case StartPhase => StartOne(p, e.start(i))
    case FinishPhase => FinishOne(p, e.finish(i))
    case PollPhase => PollOne(p, e.polls(i))
    case FetchPhase(allowed, budget) => FetchOne(p, allowed, budget, e.fetch(i))
    case AbortPhase => AbortOne(p, e.abort(i))
    case AckPhase => AckOne(p, e.ack(i))
  }

  function ApplyAll(ph: Phase, ps: seq<PeerResult>, e: Replies): (r: seq<PeerResult>)
    ensures |r| == |ps|
  {
    seq(|ps|, i requires 0 <= i < |ps| => Apply(ph, ps[i], i, e))
  }

  // ---------------------------------------------------------------- validity

  function Judge(ps: seq<PeerResult>, v: Validity): Validity {
    if ps == [] then v
    else
      var before := Judge(ps[..|ps| - 1], v);
      var p := ps[|ps| - 1];
      if p.failure.None? then before
      else if p.required then Invalid
      else if before == Valid then Partial
      else before
  }

  function Rank(v: Validity): nat {
    match v case Valid => 0 case Partial => 1 case Invalid => 2
  }

  predicate AnyFailed(ps: seq<PeerResult>) {
    exists i :: 0 <= i < |ps| && ps[i].failure.Some?
  }

  predicate RequiredFailed(ps: seq<PeerResult>) {
    exists i :: 0 <= i < |ps| && ps[i].failure.Some? && ps[i].required
  }

  /** Validity only worsens; it is invalid exactly when it was or a required peer failed, and
      valid exactly when it was and no peer failed. */
  lemma {:induction false} JudgeIff(ps: seq<PeerResult>, v: Validity)
    ensures Rank(Judge(ps, v)) >= Rank(v)
    ensures Judge(ps, v) == Invalid <==> v == Invalid || RequiredFailed(ps)
    ensures Judge(ps, v) == Valid <==> v == Valid && !AnyFailed(ps)
  {
    if ps != [] {
      var front := ps[..|ps| - 1];
      var p := ps[|ps| - 1];
      JudgeIff(front, v);
      assert forall i :: 0 <= i < |front| ==> front[i] == ps[i];
      assert RequiredFailed(ps) <==> RequiredFailed(front) || (p.failure.Some? && p.required);
      assert AnyFailed(ps) <==> AnyFailed(front) || p.failure.Some?;
    }
  }

  // ---------------------------------------------------------------- budgets

  predicate LegalBytes(hubBytes: int) {
    0 <= hubBytes <= HUB_SELF_RESERVE
  }

  function ReadyCount(ps: seq<PeerResult>): (n: nat)
    ensures n <= |ps|
  {
    if ps == [] then 0 else ReadyCount(ps[..|ps| - 1]) + if ps[|ps| - 1].ready then 1 else 0
  }

  function Budget(active: nat, hubBytes: int): int {
    var left := if TOTAL_SNAPSHOT_CAP - hubBytes < 0 then 0 else TOTAL_SNAPSHOT_CAP - hubBytes;
    if active > 0 && left / active < PER_PEER_DEFAULT_BYTES then left / active else PER_PEER_DEFAULT_BYTES
  }

  predicate Affordable(active: nat, hubBytes: int) {
    LegalBytes(hubBytes) && Budget(active, hubBytes) >= MIN_PEER_BYTES
  }

  /** With legal hub bytes the requested budgets and the hub's own bytes stay within the total
      cap, and no peer is refused for lack of budget. */
  lemma BudgetsFit(active: nat, hubBytes: int)
    requires active <= MAX_PEERS && LegalBytes(hubBytes)
    ensures active * Budget(active, hubBytes) + hubBytes <= TOTAL_SNAPSHOT_CAP
    ensures Affordable(active, hubBytes)
  {
    var left := TOTAL_SNAPSHOT_CAP - hubBytes;
    if active > 0 {
      var share := left / active;
      assert active * share <= left && left < active * share + active;
      assert share < MIN_PEER_BYTES ==> active * share <= MAX_PEERS * share;
      if PER_PEER_DEFAULT_BYTES <= share {
        assert active * PER_PEER_DEFAULT_BYTES <= active * share;
      }
    }
  }

  // ---------------------------------------------------------------- the three calls

  datatype Run = Run(peers: seq<PeerResult>, validity: Validity)

  function Checked(required: seq<bool>, e: Replies): Run {
    var ps := Distinct(Asked(required, e));
    Run(ps, Judge(ps, Valid))
  }

  function Begun(required: seq<bool>, e: Replies): Run {
    var checked := Checked(required, e);
    if checked.validity == Invalid then checked
    else
      var ps := ApplyAll(StartPhase, checked.peers, e);
      var v := Judge(ps, checked.validity);
      Run(if v == Invalid then ApplyAll(AbortPhase, ps, e) else ps, v)
  }

  function Gathered(ps: seq<PeerResult>, hubBytes: int, e: Replies): (r: seq<PeerResult>)
    ensures |r| == |ps|
  {
    var polled := ApplyAll(PollPhase, ApplyAll(FinishPhase, ps, e), e);
    ApplyAll(FetchPhase(Affordable(ReadyCount(polled), hubBytes), Budget(ReadyCount(polled), hubBytes)), polled, e)
  }

  function Ended(run: Run, hubBytes: int, e: Replies): Run {
    var ps := Gathered(run.peers, hubBytes, e);
    Run(ApplyAll(AckPhase, ps, e), Judge(ps, if LegalBytes(hubBytes) then run.validity else Invalid))
  }

  function Stopped(run: Run, e: Replies): Run {
    Run(ApplyAll(AbortPhase, run.peers, e), Invalid)
  }

  // ---------------------------------------------------------------- sealing

  ghost predicate AllSealed(ps: seq<PeerResult>) {
    forall i :: 0 <= i < |ps| && ps[i].started ==> ps[i].sealed != Unsealed
  }

  lemma SealsAll(ps: seq<PeerResult>, e: Replies)
    ensures AllSealed(ApplyAll(AbortPhase, ps, e)) && AllSealed(ApplyAll(AckPhase, ps, e))
  {
  }

  /** A start whose barrier fails leaves every peer that acknowledged its start sealed; a start
      whose preflight fails started none. */
  lemma FailedStartSeals(required: seq<bool>, e: Replies)
    requires Begun(required, e).validity == Invalid
    ensures AllSealed(Begun(required, e).peers)
  {
    var checked := Checked(required, e);
    if checked.validity != Invalid {
      SealsAll(ApplyAll(StartPhase, checked.peers, e), e);
    }
  }

  datatype Call = FinishCall(hubBytes: int, replies: Replies) | AbortCall(replies: Replies) | Cancelled

  function After(run: Run, c: Call): Run {
    match c
    case FinishCall(hubBytes, e) => Ended(run, hubBytes, e)
    case AbortCall(e) => Stopped(run, e)
    case Cancelled => run
  }

  function AfterAll(run: Run, cs: seq<Call>): Run
    decreases |cs|
  {
    if cs == [] then run else AfterAll(After(run, cs[0]), cs[1..])
  }

  /** Nothing is forgotten: failures, starts and seals stay. */
  ghost predicate Grows(a: seq<PeerResult>, b: seq<PeerResult>) {
    |a| == |b| && forall i :: 0 <= i < |a| ==> OnlyGrows(a[i], b[i])
  }

  predicate OnlyGrows(a: PeerResult, b: PeerResult) {
    && a.required == b.required && a.agent == b.agent && (a.failure.Some? ==> b.failure.Some?)
    && (a.started ==> b.started) && (a.sealed != Unsealed ==> b.sealed != Unsealed)
  }

  lemma {:induction false} PolledGrows(p: PeerResult, replies: seq<PollReply>)
    ensures OnlyGrows(p, Polled(p, replies)) && Polled(p, replies).started == p.started
    decreases |replies|
  {
    if replies != [] && replies[0].Status? && !replies[0].stopped && !replies[0].ready {
      PolledGrows(p.(ready := false), replies[1..]);
    }
  }

  lemma {:induction false} PolledKeeps(p: PeerResult, replies: seq<PollReply>)
    requires p.failure.None?
    ensures var q := Polled(p, replies);
            && q.required == p.required && q.started == p.started && q.sealed == p.sealed && q.asked == p.asked
            && q.failure in {None, Some(PollFailed)}
    decreases |replies|
  {
    if replies != [] && replies[0].Status? && !replies[0].stopped && !replies[0].ready {
      PolledKeeps(p.(ready := false), replies[1..]);
    }
  }

  lemma ApplyGrows(ph: Phase, p: PeerResult, i: nat, e: Replies)
    ensures OnlyGrows(p, Apply(ph, p, i, e))
    ensures ph != StartPhase ==> Apply(ph, p, i, e).started == p.started
  {
    PolledGrows(p, e.polls(i));
    hide Polled;
  }

  lemma PhaseGrows(ph: Phase, ps: seq<PeerResult>, e: Replies)
    ensures Grows(ps, ApplyAll(ph, ps, e))
    ensures ph != StartPhase ==> forall i :: 0 <= i < |ps| ==> ApplyAll(ph, ps, e)[i].started == ps[i].started
  {
    hide Apply, OnlyGrows;
    forall i | 0 <= i < |ps|
      ensures OnlyGrows(ps[i], ApplyAll(ph, ps, e)[i])
      ensures ph != StartPhase ==> ApplyAll(ph, ps, e)[i].started == ps[i].started
    {
      ApplyGrows(ph, ps[i], i, e);
    }
  }

  lemma GrowsTrans(a: seq<PeerResult>, b: seq<PeerResult>, c: seq<PeerResult>)
    requires Grows(a, b) && Grows(b, c)
    ensures Grows(a, c)
  {
    forall i | 0 <= i < |a| ensures OnlyGrows(a[i], c[i]) {
      assert OnlyGrows(a[i], b[i]) && OnlyGrows(b[i], c[i]);
    }
  }

  lemma GatheredGrows(ps: seq<PeerResult>, hubBytes: int, e: Replies)
    ensures Grows(ps, Gathered(ps, hubBytes, e))
  {
    var finished := ApplyAll(FinishPhase, ps, e);
    var polled := ApplyAll(PollPhase, finished, e);
    var ph := FetchPhase(Affordable(ReadyCount(polled), hubBytes), Budget(ReadyCount(polled), hubBytes));
    PhaseGrows(FinishPhase, ps, e);
    PhaseGrows(PollPhase, finished, e);
    PhaseGrows(ph, polled, e);
    hide Grows, ApplyAll;
    GrowsTrans(ps, finished, polled);
    GrowsTrans(ps, polled, ApplyAll(ph, polled, e));
  }

  lemma AfterGrows(run: Run, c: Call)
    ensures Rank(After(run, c).validity) >= Rank(run.validity) && Grows(run.peers, After(run, c).peers)
    ensures c != Cancelled ==> AllSealed(After(run, c).peers)
  {
    match c
    case FinishCall(hubBytes, e) =>
      var ps := Gathered(run.peers, hubBytes, e);
      GatheredGrows(run.peers, hubBytes, e);
      PhaseGrows(AckPhase, ps, e);
      SealsAll(ps, e);
      JudgeIff(ps, if LegalBytes(hubBytes) then run.validity else Invalid);
      hide Gathered, Grows, AllSealed, ApplyAll, Judge;
      GrowsTrans(run.peers, ps, ApplyAll(AckPhase, ps, e));
    case AbortCall(e) =>
      PhaseGrows(AbortPhase, run.peers, e);
      SealsAll(run.peers, e);
    case Cancelled =>
  }

  /** Over any sequence of finish and abort calls, cancelled ones included, validity never
      improves, no failure, start or seal is undone, and once one call has reached its end every
      started peer is sealed for good. */
  lemma {:induction false} CallsOnlyWorsen(run: Run, cs: seq<Call>)
    ensures Rank(AfterAll(run, cs).validity) >= Rank(run.validity)
    ensures Grows(run.peers, AfterAll(run, cs).peers)
    ensures AllSealed(run.peers) || (exists k :: 0 <= k < |cs| && cs[k] != Cancelled) ==> AllSealed(AfterAll(run, cs).peers)
    decreases |cs|
  {
    if cs != [] {
      var next := After(run, cs[0]);
      AfterGrows(run, cs[0]);
      CallsOnlyWorsen(next, cs[1..]);
      assert forall k :: 1 <= k < |cs| ==> cs[k] == cs[1..][k - 1];
      hide After, AllSealed, Grows;
      GrowsTrans(run.peers, next.peers, AfterAll(next, cs[1..]).peers);
    }
  }

  // ---------------------------------------------------------------- the whole run

  /** The last status answer the poll gets to says the snapshot is ready, and none before it
      refused or said the run had stopped. */
  ghost predicate PollsReady(replies: seq<PollReply>) {
    exists k :: && 0 <= k < |replies| && replies[k] == Status(false, true)
                && forall j :: 0 <= j < k ==> replies[j] == Status(false, false)
  }

  lemma PollsReadyShift(replies: seq<PollReply>)
    requires replies != [] && replies[0] == Status(false, false)
    ensures PollsReady(replies) <==> PollsReady(replies[1..])
  {
    var rest := replies[1..];
    if PollsReady(rest) {
      var k :| 0 <= k < |rest| && rest[k] == Status(false, true) && forall j :: 0 <= j < k ==> rest[j] == Status(false, false);
      assert replies[k + 1] == Status(false, true);
      assert forall j :: 0 <= j < k + 1 ==> replies[j] == if j == 0 then replies[0] else rest[j - 1];
    }
    if PollsReady(replies) {
      var k :| 0 <= k < |replies| && replies[k] == Status(false, true) && forall j :: 0 <= j < k ==> replies[j] == Status(false, false);
      assert rest[k - 1] == Status(false, true);
      assert forall j :: 0 <= j < k - 1 ==> rest[j] == replies[j + 1];
    }
  }

  lemma PollsReadyFirst(replies: seq<PollReply>)
    requires replies == [] || replies[0] != Status(false, false)
    ensures PollsReady(replies) <==> replies != [] && replies[0] == Status(false, true)
  {
  }

  lemma {:induction false} PolledIff(p: PeerResult, replies: seq<PollReply>)
    requires p.failure.None?
    ensures Polled(p, replies).failure.None? <==> PollsReady(replies)
    ensures Polled(p, replies).failure.None? ==> Polled(p, replies).ready
    decreases |replies|
  {
    hide PollsReady;
    if replies != [] && replies[0] == Status(false, false) {
      PolledIff(p.(ready := false), replies[1..]);
      PollsReadyShift(replies);
    } else {
      PollsReadyFirst(replies);
    }
  }

  /** Peer `i` has an agent, and no other peer has that agent. */
  ghost predicate Healthy(required: seq<bool>, e: Replies, i: nat)
    requires i < |required|
  {
    e.info(i).Some? && forall j :: 0 <= j < |required| && j != i ==> e.info(j) != e.info(i)
  }

  /** Peer `i` answered every request of the run as it should. */
  ghost predicate Good(required: seq<bool>, e: Replies, i: nat)
    requires i < |required|
  {
    && Healthy(required, e, i) && e.start(i) && e.finish(i) && PollsReady(e.polls(i)) && e.fetch(i)
  }

  /** What a peer looks like when the finish reaches its judgement. */
  function Journey(p: PeerResult, i: nat, budget: int, e: Replies): PeerResult {
    FetchOne(PollOne(FinishOne(StartOne(p, e.start(i)), e.finish(i)), e.polls(i)), true, budget, e.fetch(i))
  }

  lemma JourneyIff(p: PeerResult, i: nat, budget: int, e: Replies)
    requires !p.started && !p.finished && !p.ready
    ensures var q := Journey(p, i, budget, e);
            && q.required == p.required && q.sealed == p.sealed
            && (q.started <==> p.failure.None? && e.start(i))
            && (p.failure.Some? ==> q.failure == p.failure)
            && (p.failure.None? ==>
                 q.failure ==
                   if !e.start(i) then Some(StartFailed)
                   else if !e.finish(i) then Some(FinishFailed)
                   else if PollsReady(e.polls(i)) then if e.fetch(i) then None else Some(FetchFailed)
                   else if q.ready && !e.fetch(i) then Some(FetchFailed) else Some(PollFailed))
            && (q.failure.None? ==> q.started && q.fetched)
  {
    var q := FinishOne(StartOne(p, e.start(i)), e.finish(i));
    if q.started && q.finished {
      PolledIff(q, e.polls(i));
      PolledKeeps(q, e.polls(i));
    }
    hide Polled, PollsReady;
  }

  lemma PreflightIff(required: seq<bool>, e: Replies, i: nat)
    requires i < |required|
    ensures var p := Distinct(Asked(required, e))[i];
            && p.required == required[i] && !p.started && !p.finished && !p.ready && p.sealed == Unsealed && p.asked == None
            && p.failure == if e.info(i).None? then Some(PreflightFailed) else if Healthy(required, e, i) then None else Some(DuplicateAgent)
  {
    var ps := Asked(required, e);
    if e.info(i).Some? {
      if SharesAgent(ps, i) {
        var j :| 0 <= j < |ps| && j != i && ps[j].failure.None? && ps[j].agent == ps[i].agent;
        assert e.info(j) == e.info(i);
      } else {
        forall j | 0 <= j < |required| && j != i ensures e.info(j) != e.info(i) {
          assert ps[j].failure.Some? || ps[j].agent != ps[i].agent;
        }
      }
    }
  }

  lemma GatheredAt(ps: seq<PeerResult>, hubBytes: int, e: Replies, i: nat)
    requires i < |ps| && |ps| <= MAX_PEERS && LegalBytes(hubBytes)
    ensures var polled := ApplyAll(PollPhase, ApplyAll(FinishPhase, ApplyAll(StartPhase, ps, e), e), e);
            Gathered(ApplyAll(StartPhase, ps, e), hubBytes, e)[i] == Journey(ps[i], i, Budget(ReadyCount(polled), hubBytes), e)
  {
    var polled := ApplyAll(PollPhase, ApplyAll(FinishPhase, ApplyAll(StartPhase, ps, e), e), e);
    BudgetsFit(ReadyCount(polled), hubBytes);
    hide Affordable, ReadyCount, Budget;
  }

  lemma FailuresStay(a: seq<PeerResult>, b: seq<PeerResult>)
    requires Grows(a, b)
    ensures AnyFailed(a) ==> AnyFailed(b)
    ensures RequiredFailed(a) ==> RequiredFailed(b)
  {
    if AnyFailed(a) {
      var i :| 0 <= i < |a| && a[i].failure.Some?;
      assert OnlyGrows(a[i], b[i]);
    }
    if RequiredFailed(a) {
      var i :| 0 <= i < |a| && a[i].failure.Some? && a[i].required;
      assert OnlyGrows(a[i], b[i]);
    }
  }

  lemma BegunParts(required: seq<bool>, e: Replies)
    ensures var checked := Checked(required, e).peers;
            var started := ApplyAll(StartPhase, checked, e);
            && |checked| == |required|
            && Grows(checked, started)
            && (Begun(required, e).validity == Invalid <==> RequiredFailed(started))
            && (Begun(required, e).validity != Invalid ==>
                  Begun(required, e).peers == started && (Begun(required, e).validity == Valid <==> !AnyFailed(started)))
  {
    var checked := Checked(required, e).peers;
    var started := ApplyAll(StartPhase, checked, e);
    PhaseGrows(StartPhase, checked, e);
    JudgeIff(checked, Valid);
    JudgeIff(started, Judge(checked, Valid));
    hide Judge, ApplyAll, Grows, AnyFailed, RequiredFailed;
    FailuresStay(checked, started);
  }

  /** The agent of peer `i` is healthy, answers for no other peer, and accepts the start. */
  ghost predicate StartsWell(required: seq<bool>, e: Replies, i: nat)
    requires i < |required|
  {
    Healthy(required, e, i) && e.start(i)
  }

  /** How a peer is left: sealed with what it answered if it was started, as before if not. */
  function SealOf(started: bool, answered: bool, good: Seal, before: Seal): Seal {
    if !started then before else if answered then good else SealFailed
  }

  lemma StartedAt(required: seq<bool>, e: Replies, i: nat)
    requires i < |required|
    ensures var checked := Checked(required, e);
            var started := ApplyAll(StartPhase, checked.peers, e);
            && |started| == |checked.peers| == |required|
            && started[i].required == required[i] && started[i].sealed == Unsealed && started[i].asked == None
            && (started[i].failure.None? <==> StartsWell(required, e, i))
            && (started[i].started <==> StartsWell(required, e, i))
            && checked.peers[i].required == required[i] && checked.peers[i].sealed == Unsealed && !checked.peers[i].started
            && (checked.peers[i].failure.None? <==> Healthy(required, e, i))
  {
    PreflightIff(required, e, i);
    hide Healthy, Distinct, Asked, Judge;
  }

  /** A start fails exactly when some required peer does not start well.  A peer is started exactly
      if every required peer is healthy and it starts well itself.  A start that fails leaves each
      started peer aborted, if it answered the abort, and one that succeeds seals none. */
  lemma StartIff(required: seq<bool>, e: Replies)
    ensures var run := Begun(required, e);
            var failed := exists i :: 0 <= i < |required| && required[i] && !StartsWell(required, e, i);
            && |run.peers| == |required|
            && (run.validity == Invalid <==> failed)
            && forall i :: 0 <= i < |required| ==>
                 && run.peers[i].required == required[i]
                 && (run.peers[i].started <==> StartsWell(required, e, i) && forall j :: 0 <= j < |required| && required[j] ==> Healthy(required, e, j))
                 && run.peers[i].sealed == SealOf(run.peers[i].started && failed, e.abort(i), Aborted, Unsealed)
  {
    BegunParts(required, e);
    var checked := Checked(required, e);
    var started := ApplyAll(StartPhase, checked.peers, e);
    forall i | 0 <= i < |required|
      ensures started[i].required == required[i] && started[i].sealed == Unsealed
      ensures started[i].failure.None? <==> StartsWell(required, e, i)
      ensures started[i].started <==> StartsWell(required, e, i)
      ensures checked.peers[i].required == required[i] && checked.peers[i].sealed == Unsealed && !checked.peers[i].started
      ensures checked.peers[i].failure.None? <==> Healthy(required, e, i)
    {
      StartedAt(required, e, i);
    }
    CheckedIff(required, e);
    if Begun(required, e).validity == Invalid && checked.validity != Invalid { AbortedAt(required, e); }
    hide Begun, Checked, StartsWell, Healthy, ApplyAll, Judge;
    assert |started| == |required|;
  }

  /** Preflight fails exactly when some required peer is not healthy, and then nothing is started. */
  lemma CheckedIff(required: seq<bool>, e: Replies)
    ensures Checked(required, e).validity == Invalid <==> exists j :: 0 <= j < |required| && required[j] && !Healthy(required, e, j)
    ensures Checked(required, e).validity == Invalid ==> Begun(required, e) == Checked(required, e)
  {
    var ps := Distinct(Asked(required, e));
    JudgeIff(ps, Valid);
    forall j | 0 <= j < |required|
      ensures ps[j].required == required[j] && (ps[j].failure.None? <==> Healthy(required, e, j))
    {
      PreflightIff(required, e, j);
    }
    hide Distinct, Asked, Judge, Healthy;
    assert |ps| == |required|;
  }

  lemma AbortedAt(required: seq<bool>, e: Replies)
    requires Begun(required, e).validity == Invalid && Checked(required, e).validity != Invalid
    ensures var started := ApplyAll(StartPhase, Checked(required, e).peers, e);
            var run := Begun(required, e);
            && |run.peers| == |started|
            && forall i :: 0 <= i < |started| ==>
                 && run.peers[i].required == started[i].required && run.peers[i].started == started[i].started
                 && run.peers[i].sealed == SealOf(started[i].started, e.abort(i), Aborted, started[i].sealed)
  {
    hide Checked, Judge, StartOne;
  }

  /** A finish that reaches its end acknowledges every started peer, an abort aborts it, and each
      seal is a failed one if the peer did not answer; peers that were not started keep theirs. */
  lemma CallSeals(run: Run, c: Call, i: nat)
    requires i < |run.peers|
    ensures |After(run, c).peers| == |run.peers|
    ensures var p, q := run.peers[i], After(run, c).peers[i];
            && q.started == p.started && q.required == p.required
            && q.sealed == match c
                           case FinishCall(_, e) => SealOf(p.started, e.ack(i), Acked, p.sealed)
                           case AbortCall(e) => SealOf(p.started, e.abort(i), Aborted, p.sealed)
                           case Cancelled => p.sealed
  {
    if c.FinishCall? {
      GatheredSeal(run.peers, c.hubBytes, c.replies, i);
      hide Gathered, Judge;
    }
  }

  lemma PollSeal(p: PeerResult, replies: seq<PollReply>)
    ensures Polled(p, replies).started == p.started && Polled(p, replies).sealed == p.sealed && Polled(p, replies).required == p.required
    decreases |replies|
  {
    if replies != [] && replies[0].Status? && !replies[0].stopped && !replies[0].ready {
      PollSeal(p.(ready := false), replies[1..]);
    }
  }

  lemma GatheredSeal(ps: seq<PeerResult>, hubBytes: int, e: Replies, i: nat)
    requires i < |ps|
    ensures var q := Gathered(ps, hubBytes, e)[i];
            q.started == ps[i].started && q.sealed == ps[i].sealed && q.required == ps[i].required
  {
    PollSeal(FinishOne(ps[i], e.finish(i)), e.polls(i));
    hide Polled, ReadyCount, Affordable, Budget;
  }

  /** A run that was started and finished with legal hub bytes is invalid exactly when some
      required peer failed to answer one of its requests as it should, valid exactly when every
      peer answered them all, and partial otherwise; illegal hub bytes make it invalid.  Each peer
      that was started is acknowledged if it answered the acknowledgement, and a failed seal
      otherwise; the others are not sealed. */
  lemma WholeRun(required: seq<bool>, e: Replies, hubBytes: int)
    requires |required| <= MAX_PEERS && Begun(required, e).validity != Invalid
    ensures var run := Ended(Begun(required, e), hubBytes, e);
            && |run.peers| == |required|
            && (run.validity == Invalid <==> !LegalBytes(hubBytes) || exists i :: 0 <= i < |required| && required[i] && !Good(required, e, i))
            && (run.validity == Valid <==> LegalBytes(hubBytes) && forall i :: 0 <= i < |required| ==> Good(required, e, i))
            && forall i :: 0 <= i < |required| ==>
                 && (run.peers[i].started <==> StartsWell(required, e, i))
                 && run.peers[i].sealed == SealOf(StartsWell(required, e, i), e.ack(i), Acked, Unsealed)
  {
    var begun := Begun(required, e);
    ValidityIs(required, e, hubBytes);
    StartIff(required, e);
    hide Begun, Ended, Good, LegalBytes, StartsWell, Healthy;
    var run := Ended(begun, hubBytes, e);
    assert |run.peers| == |required| by { EndedSize(begun, hubBytes, e); }
    forall i | 0 <= i < |required|
      ensures (run.peers[i].started <==> StartsWell(required, e, i)) && run.peers[i].sealed == SealOf(StartsWell(required, e, i), e.ack(i), Acked, Unsealed)
    {
      WellStarted(required, e, i);
      CallSeals(begun, FinishCall(hubBytes, e), i);
    }
  }

  lemma EndedSize(run: Run, hubBytes: int, e: Replies)
    ensures |Ended(run, hubBytes, e).peers| == |run.peers|
  {
    hide Gathered, Judge;
  }

  lemma WellStarted(required: seq<bool>, e: Replies, i: nat)
    requires i < |required| && Begun(required, e).validity != Invalid
    ensures |Begun(required, e).peers| == |required|
    ensures Begun(required, e).peers[i].started <==> StartsWell(required, e, i)
    ensures Begun(required, e).peers[i].sealed == Unsealed && Begun(required, e).peers[i].asked == None
  {
    StartedAt(required, e, i);
    BegunParts(required, e);
    hide Begun, Checked, StartsWell, Healthy, ApplyAll, Grows, AnyFailed, RequiredFailed;
  }

  lemma ValidityIs(required: seq<bool>, e: Replies, hubBytes: int)
    requires |required| <= MAX_PEERS && Begun(required, e).validity != Invalid
    ensures var run := Ended(Begun(required, e), hubBytes, e);
            && (run.validity == Invalid <==> !LegalBytes(hubBytes) || exists i :: 0 <= i < |required| && required[i] && !Good(required, e, i))
            && (run.validity == Valid <==> LegalBytes(hubBytes) && forall i :: 0 <= i < |required| ==> Good(required, e, i))
  {
    var begun := Begun(required, e);
    var ps := Gathered(begun.peers, hubBytes, e);
    BegunParts(required, e);
    JudgeIff(ps, if LegalBytes(hubBytes) then begun.validity else Invalid);
    GatheredGrows(begun.peers, hubBytes, e);
    hide Gathered, Begun, Checked, Judge, ApplyAll, Grows, LegalBytes;
    FailuresStay(begun.peers, ps);
    if LegalBytes(hubBytes) {
      forall i | 0 <= i < |required|
        ensures ps[i].required == required[i] && (ps[i].failure.None? <==> Good(required, e, i))
      {
        FailureIs(required, e, hubBytes, i);
      }
      hide Good;
    }
  }

  /** The failure a peer ends with names the first request it did not answer as it should; only a
      failed fetch may replace a failed poll, if the last status said the snapshot was ready. */
  lemma FailureIs(required: seq<bool>, e: Replies, hubBytes: int, i: nat)
    requires i < |required| <= MAX_PEERS && LegalBytes(hubBytes)
    ensures |Checked(required, e).peers| == |required|
    ensures var p := Gathered(ApplyAll(StartPhase, Checked(required, e).peers, e), hubBytes, e)[i];
            && p.required == required[i]
            && (p.failure.None? <==> Good(required, e, i))
            && (p.failure.Some? ==>
                 p.failure.value ==
                   if e.info(i).None? then PreflightFailed
                   else if !Healthy(required, e, i) then DuplicateAgent
                   else if !e.start(i) then StartFailed
                   else if !e.finish(i) then FinishFailed
                   else if PollsReady(e.polls(i)) || (p.ready && !e.fetch(i)) then FetchFailed
                   else PollFailed)
  {
    var checked := Checked(required, e).peers;
    PreflightIff(required, e, i);
    hide Distinct, Asked, Gathered, ApplyAll, Journey, Healthy, PollsReady, Budget, ReadyCount;
    GatheredAt(checked, hubBytes, e, i);
    var polled := ApplyAll(PollPhase, ApplyAll(FinishPhase, ApplyAll(StartPhase, checked, e), e), e);
    JourneyIff(checked[i], i, Budget(ReadyCount(polled), hubBytes), e);
  }

  // ---------------------------------------------------------------- the bytes asked for

  /** The bytes all snapshot requests together allow. */
  function Spent(ps: seq<PeerResult>): int {
    if ps == [] then 0
    else Spent(ps[..|ps| - 1]) + if ps[|ps| - 1].asked.Some? then ps[|ps| - 1].asked.value else 0
  }

  lemma {:induction false} SpentIs(ps: seq<PeerResult>, b: int)
    requires forall i :: 0 <= i < |ps| ==> ps[i].asked == if ps[i].ready then Some(b) else None
    ensures Spent(ps) == ReadyCount(ps) * b
  {
    if ps != [] {
      var front := ps[..|ps| - 1];
      assert forall i :: 0 <= i < |front| ==> front[i] == ps[i];
      SpentIs(front, b);
    }
  }

  lemma {:induction false} SameReady(ps: seq<PeerResult>, qs: seq<PeerResult>)
    requires |ps| == |qs| && forall i :: 0 <= i < |ps| ==> ps[i].ready == qs[i].ready
    ensures ReadyCount(ps) == ReadyCount(qs)
  {
    if ps != [] { SameReady(ps[..|ps| - 1], qs[..|qs| - 1]); }
  }

  lemma PolledAsked(ps: seq<PeerResult>, e: Replies, i: nat)
    requires i < |ps| && ps[i].asked == None
    ensures ApplyAll(PollPhase, ApplyAll(FinishPhase, ps, e), e)[i].asked == None
  {
    var q := FinishOne(ps[i], e.finish(i));
    if q.started && q.finished { PollAsked(q, e.polls(i)); }
    hide Polled;
  }

  lemma {:induction false} PollAsked(p: PeerResult, replies: seq<PollReply>)
    ensures Polled(p, replies).asked == p.asked
    decreases |replies|
  {
    if replies != [] && replies[0].Status? && !replies[0].stopped && !replies[0].ready {
      PollAsked(p.(ready := false), replies[1..]);
    }
  }

  /** A finish with legal hub bytes asks every peer that is ready, and no other, for the same
      number of bytes: an equal share of what the hub leaves, or the default if that is less.  All
      that is asked for and the hub's own bytes stay within the cap. */
  lemma BytesAsked(ps: seq<PeerResult>, hubBytes: int, e: Replies)
    requires |ps| <= MAX_PEERS && LegalBytes(hubBytes) && forall i :: 0 <= i < |ps| ==> ps[i].asked == None
    ensures var r := Gathered(ps, hubBytes, e);
            var n := ReadyCount(r);
            && Spent(r) + hubBytes <= TOTAL_SNAPSHOT_CAP
            && forall i :: 0 <= i < |r| ==>
                 && (r[i].asked.Some? <==> r[i].ready)
                 && (r[i].ready && n > 0 ==>
                      var share := (TOTAL_SNAPSHOT_CAP - hubBytes) / n;
                      r[i].asked == Some(if share < PER_PEER_DEFAULT_BYTES then share else PER_PEER_DEFAULT_BYTES))
  {
    var polled := ApplyAll(PollPhase, ApplyAll(FinishPhase, ps, e), e);
    var r := Gathered(ps, hubBytes, e);
    var b := Budget(ReadyCount(polled), hubBytes);
    BudgetsFit(ReadyCount(polled), hubBytes);
    forall i | 0 <= i < |ps| ensures polled[i].asked == None {
      PolledAsked(ps, e, i);
    }
    FetchAsks(polled, b, e);
    assert r == ApplyAll(FetchPhase(true, b), polled, e);
    if ReadyCount(polled) > 0 { BudgetIs(ReadyCount(polled), hubBytes); }
    hide Gathered, ApplyAll, Budget, ReadyCount, Affordable;
    SameReady(polled, r);
    SpentIs(r, b);
  }

  lemma BudgetIs(n: nat, hubBytes: int)
    requires LegalBytes(hubBytes) && n > 0
    ensures var share := (TOTAL_SNAPSHOT_CAP - hubBytes) / n;
            Budget(n, hubBytes) == if share < PER_PEER_DEFAULT_BYTES then share else PER_PEER_DEFAULT_BYTES
  {
  }

  lemma FetchAsks(ps: seq<PeerResult>, b: int, e: Replies)
    requires forall i :: 0 <= i < |ps| ==> ps[i].asked == None
    ensures var r := ApplyAll(FetchPhase(true, b), ps, e);
            forall i :: 0 <= i < |r| ==> r[i].ready == ps[i].ready && r[i].asked == if r[i].ready then Some(b) else None
  {
  }

  // ---------------------------------------------------------------- the run object

  method PollPeer(p: PeerResult, replies: seq<PollReply>) returns (r: PeerResult)
    ensures r == Polled(p, replies)
  {
    r := p;
    assert replies[0..] == replies;
    for k := 0 to |replies|
      invariant Polled(r, replies[k..]) == Polled(p, replies)
    {
      assert replies[k..][0] == replies[k] && replies[k..][1..] == replies[k + 1..];
      if replies[k].Refused? { return r.(failure := Some(PollFailed)); }
      r := r.(ready := replies[k].ready);
      if replies[k].stopped { return r.(failure := Some(PollFailed)); }
      if replies[k].ready { return; }
    }
    r := r.(failure := Some(PollFailed));
  }

  /** Some other healthy peer among the first `n` has the agent of peer `k`. */
  predicate SharesBefore(ps: seq<PeerResult>, k: nat, n: nat)
    requires k < |ps| && n <= |ps|
  {
    ps[k].failure.None? && exists j :: 0 <= j < n && j != k && ps[j].failure.None? && ps[j].agent == ps[k].agent
  }

  /** The peers after the first `n` have been compared with each other. */
  function DistinctBefore(ps: seq<PeerResult>, n: nat): (r: seq<PeerResult>)
    requires n <= |ps|
    ensures |r| == |ps|
  {
    seq(|ps|, k requires 0 <= k < |ps| => if k < n && SharesBefore(ps, k, n) then ps[k].(failure := Some(DuplicateAgent)) else ps[k])
  }

  lemma DistinctEnds(ps: seq<PeerResult>)
    ensures DistinctBefore(ps, 0) == ps && DistinctBefore(ps, |ps|) == Distinct(ps)
  {
    forall k | 0 <= k < |ps| ensures DistinctBefore(ps, |ps|)[k] == Distinct(ps)[k] {
      assert SharesBefore(ps, k, |ps|) <==> SharesAgent(ps, k);
    }
  }

  /** Peer i doubles the agent of an earlier peer: both fail, and the others with that agent
      have failed already. */
  lemma DistinctDouble(ps: seq<PeerResult>, i: nat, prior: nat)
    requires prior < i < |ps| && ps[i].failure.None? && ps[prior].failure.None? && ps[prior].agent == ps[i].agent
    ensures var r := DistinctBefore(ps, i);
            && r[i] == ps[i] && (r[prior].failure.Some? ==> r[prior] == ps[prior].(failure := Some(DuplicateAgent)))
            && (r[prior].failure.None? ==> r[prior] == ps[prior])
            && DistinctBefore(ps, i + 1) == r[i := ps[i].(failure := Some(DuplicateAgent))][prior := ps[prior].(failure := Some(DuplicateAgent))]
  {
    var r := DistinctBefore(ps, i);
    var want := r[i := ps[i].(failure := Some(DuplicateAgent))][prior := ps[prior].(failure := Some(DuplicateAgent))];
    assert SharesBefore(ps, i, i + 1) && SharesBefore(ps, prior, i + 1);
    forall k | 0 <= k < |ps| ensures DistinctBefore(ps, i + 1)[k] == want[k] {
      if k < i && k != prior { SharedAlready(ps, i, prior, k); }
    }
  }

  lemma SharedAlready(ps: seq<PeerResult>, i: nat, prior: nat, k: nat)
    requires prior < i < |ps| && ps[prior].failure.None? && ps[prior].agent == ps[i].agent && k < i && k != prior
    ensures SharesBefore(ps, k, i + 1) <==> SharesBefore(ps, k, i)
  {
    if ps[k].failure.None? && ps[k].agent == ps[i].agent {
      assert ps[prior].agent == ps[k].agent;
    }
  }

  lemma DistinctNew(ps: seq<PeerResult>, i: nat)
    requires i < |ps| && (ps[i].failure.Some? || forall k :: 0 <= k < i && ps[k].failure.None? ==> ps[k].agent != ps[i].agent)
    ensures DistinctBefore(ps, i + 1) == DistinctBefore(ps, i) && DistinctBefore(ps, i)[i] == ps[i]
  {
    forall k | 0 <= k < |ps| ensures DistinctBefore(ps, i + 1)[k] == DistinctBefore(ps, i)[k] {
      if k < i {
        assert SharesBefore(ps, k, i + 1) <==> SharesBefore(ps, k, i);
      } else if k == i {
        assert !SharesBefore(ps, i, i + 1);
      }
    }
  }

  /** The first healthy peer of each agent is remembered; a later one fails both. */
  method RejectDuplicates(ps: seq<PeerResult>) returns (r: seq<PeerResult>)
    ensures r == Distinct(ps)
  {
    hide *;
    r := ps;
    DistinctEnds(ps);
    var seen: map<string, nat> := map[];
    for i := 0 to |ps|
      invariant r == DistinctBefore(ps, i)
      invariant forall id :: id in seen ==> seen[id] < i && ps[seen[id]].failure.None? && ps[seen[id]].agent == id
      invariant forall k :: 0 <= k < i && ps[k].failure.None? ==> ps[k].agent in seen
    {
      DistinctAt(ps, i);
      if r[i].failure.None? {
        var id := r[i].agent;
        if id in seen {
          var prior := seen[id];
          DistinctDouble(ps, i, prior);
          r := r[i := r[i].(failure := Some(DuplicateAgent))];
          if r[prior].failure.None? {
            r := r[prior := r[prior].(failure := Some(DuplicateAgent))];
          }
        } else {
          DistinctNew(ps, i);
          seen := seen[id := i];
        }
      } else {
        DistinctNew(ps, i);
      }
    }
  }

  lemma DistinctAt(ps: seq<PeerResult>, i: nat)
    requires i < |ps|
    ensures DistinctBefore(ps, i)[i] == ps[i]
  {
  }

  /** The peers still to be asked. */
  function Below(n: nat): (s: set<nat>)
    ensures forall i: nat :: i in s <==> i < n
  {
    if n == 0 then {} else Below(n - 1) + {n - 1}
  }

  class HubRun {
    var peers: seq<PeerResult>
    var validity: Validity

    ghost function View(): Run
      reads this
    {
      Run(peers, validity)
    }

    constructor (required: seq<bool>, e: Replies)
      ensures View() == Checked(required, e)
    {
      validity := Valid;
      peers := [];
      new;
      var asked := Asked(required, e);
      peers := RejectDuplicates(asked);
      hide Distinct, Asked;
      JudgePeers();
    }

    /** The common scan of the barriers and of the finish. */
    method JudgePeers()
      modifies this`validity
      ensures validity == Judge(peers, old(validity))
    {
      for i := 0 to |peers|
        invariant validity == Judge(peers[..i], old(validity))
      {
        assert peers[..i + 1][..i] == peers[..i];
        if peers[i].failure.Some? {
          if peers[i].required {
            validity := Invalid;
          } else if validity == Valid {
            validity := Partial;
          }
        }
      }
      assert peers[..|peers|] == peers;
    }

    /** One phase: a request to every peer, answered in any order. */
    method Ask(ph: Phase, e: Replies)
      modifies this`peers
      ensures peers == ApplyAll(ph, old(peers), e)
    {
      hide Apply;
      ghost var was := peers;
      var todo: set<nat> := Below(|peers|);
      while todo != {}
        invariant |peers| == |was| && todo <= Below(|was|)
        invariant forall i: nat :: i < |was| ==> peers[i] == if i in todo then was[i] else Apply(ph, was[i], i, e)
        decreases |todo|
      {
        var i: nat :| i in todo;
        assert i in Below(|was|);
        todo := todo - {i};
        var p := AskOne(ph, peers[i], i, e);
        peers := peers[i := p];
      }
    }

    /** Start, after preflight; false when a required peer failed. */
    method Start(required: seq<bool>, e: Replies) returns (ok: bool)
      requires View() == Checked(required, e)
      modifies this
      ensures View() == Begun(required, e) && (ok <==> validity != Invalid)
    {
      hide Checked, ApplyAll, Judge;
      if validity == Invalid { return false; }
      Ask(StartPhase, e);
      JudgePeers();
      if validity == Invalid {
        Ask(AbortPhase, e);
        return false;
      }
      return true;
    }

    method CountReady() returns (active: nat)
      ensures active == ReadyCount(peers)
    {
      active := 0;
      for i := 0 to |peers|
        invariant active == ReadyCount(peers[..i])
      {
        assert peers[..i + 1][..i] == peers[..i];
        if peers[i].ready { active := active + 1; }
      }
      assert peers[..|peers|] == peers;
    }

    /** A finish whose context expires before the lease renewal has stopped changes nothing. */
    method Finish(cancelled: bool, hubBytes: int, e: Replies) returns (verdict: Validity)
      modifies this
      ensures View() == After(old(View()), if cancelled then Cancelled else FinishCall(hubBytes, e))
      ensures verdict == if cancelled then Invalid else validity
    {
      hide ApplyAll, Judge, ReadyCount;
      if cancelled { return Invalid; }
      Ask(FinishPhase, e);
      Ask(PollPhase, e);
      var budgetInvalid := hubBytes < 0 || hubBytes > HUB_SELF_RESERVE;
      var left := TOTAL_SNAPSHOT_CAP - hubBytes;
      if left < 0 { left := 0; }
      var active := CountReady();
      var budget := PER_PEER_DEFAULT_BYTES;
      if active > 0 && left / active < budget { budget := left / active; }
      assert budget == Budget(active, hubBytes);
      Ask(FetchPhase(!budgetInvalid && budget >= MIN_PEER_BYTES, budget), e);
      if budgetInvalid { validity := Invalid; }
      JudgePeers();
      Ask(AckPhase, e);
      return validity;
    }

    method Abort(cancelled: bool, e: Replies) returns (verdict: Validity)
      modifies this
      ensures View() == After(old(View()), if cancelled then Cancelled else AbortCall(e))
      ensures verdict == Invalid
    {
      hide ApplyAll;
      if cancelled { return Invalid; }
      Ask(AbortPhase, e);
      validity := Invalid;
      return validity;
    }
  }

  method AskOne(ph: Phase, p: PeerResult, i: nat, e: Replies) returns (r: PeerResult)
    ensures r == Apply(ph, p, i, e)
  {
    r := p;
    match ph
    case StartPhase =>
      if p.failure.None? {
        if e.start(i) { r := r.(started := true); } else { r := r.(failure := Some(StartFailed)); }
      }
    case FinishPhase =>
      if p.started {
        if e.finish(i) { r := r.(finished := true); } else { r := r.(failure := Some(FinishFailed)); }
      }
    case PollPhase =>
      if p.started && p.finished { r := PollPeer(p, e.polls(i)); }
    case FetchPhase(allowed, budget) =>
      if p.ready {
        if !allowed { r := r.(failure := Some(BudgetExhausted)); }
        else if e.fetch(i) { r := r.(asked := Some(budget), fetched := true); }
        else { r := r.(asked := Some(budget), failure := Some(FetchFailed)); }
      }
    case AbortPhase =>
      if p.started { r := r.(sealed := if e.abort(i) then Aborted else SealFailed); }
    case AckPhase =>
      if p.started { r := r.(sealed := if e.ack(i) then Acked else SealFailed); }
  }
}
