/** The run and nonce registries of a peer (multihost/peer.go).

    A step is one region that holds the registry lock. A start, finish, abort or ack holds the
    mutation lock from its check to its commit, so at most one of them is pending; the lease
    expiry does not hold it, so any number of expiries are between their check and their commit.
    What the run controller answers is part of the step.
 */
module PeerRegistry {
  import opened Wrappers

  const RETAINED_RUNS: nat := 2
  const NONCE_HISTORY_MAX: nat := 64
  const STARTED_LEASE_MS := 45_000
  const STARTED_LEASE_MAX_MS := 90_000
  const ACK_LEASE_MS := 90_000

  datatype RunState = Starting | Started | Finishing | Finished | Aborted | Acknowledged | Unknown

  datatype AbortCause = Requested | LeaseExpired

  datatype Record = Record(
    localID: string,
    nonce: string,
    state: RunState,
    lease: Option<int>,
    leaseMs: int,
    finishAccepted: bool,
    abort: Option<AbortCause>,
    snapshotReady: bool)

  datatype Mutation =
    | Idle
    | StartPending(runID: string, nonce: string, leaseMs: int, preempted: Option<string>)
    | FinishPending(runID: string)
    | AbortPending(runID: string)
    | AckPending(runID: string)

  datatype Expiry = StartedExpiry(id: string) | FinishedExpiry(id: string)

  datatype State = State(
    runs: map<string, Record>,
    order: seq<string>,
    active: Option<string>,
    nonces: map<string, string>,
    nonceOrder: seq<string>,
    mutation: Mutation,
    expiring: multiset<Expiry>)

  const Initial := State(map[], [], None, map[], [], Idle, multiset{})

  datatype Event =
    | StartCheck(runID: string, nonce: string, leaseMs: int, preempt: bool)
    | StartCommit(localID: string, state: RunState, now: int)
    | FinishCheck(runID: string)
    | FinishCommit
    | AbortCheck(runID: string)
    | AbortCommit
    | AckCheck(runID: string)
    | AckCommit
    | ControllerRefused
    | Renew(runID: string, now: int)
    | StatusRead(runID: string, state: RunState)
    | SnapshotBuilt(runID: string, localID: string, state: RunState, now: int)
    | ExpiryCheck(expiry: Expiry, now: int)
    | ExpiryCommit(expiry: Expiry)
    | ExpiryRefused(expiry: Expiry)

  // ---------------------------------------------------------------- the bounded registries

  /** The oldest run other than the active one; |order| when there is none. */
  function Evictable(order: seq<string>, active: Option<string>): (i: nat)
    ensures i <= |order|
  {
    if order == [] || Some(order[0]) != active then 0 else 1 + Evictable(order[1..], active)
  }

  function Prune(runs: map<string, Record>, order: seq<string>, active: Option<string>): (map<string, Record>, seq<string>)
    decreases |order|
  {
    var i := Evictable(order, active);
    if |order| <= RETAINED_RUNS || i == |order| then (runs, order)
    else Prune(runs - {order[i]}, order[..i] + order[i + 1..], active)
  }

  function Forget(nonces: map<string, string>, order: seq<string>): (map<string, string>, seq<string>)
    decreases |order|
  {
    if |order| <= NONCE_HISTORY_MAX then (nonces, order) else Forget(nonces - {order[0]}, order[1..])
  }

  function Remember(nonces: map<string, string>, order: seq<string>, nonce: string, runID: string): (map<string, string>, seq<string>) {
    Forget(nonces[nonce := runID], if nonce in nonces then order else order + [nonce])
  }

  // ---------------------------------------------------------------- the start decision

  datatype Decision = NonceMismatch | Replay(record: Record) | RunActive(activeID: string) | Proceed(preempted: Option<string>)

  function Decide(s: State, runID: string, nonce: string, preempt: bool): Decision {
    if nonce in s.nonces && s.nonces[nonce] != runID then NonceMismatch
    else if runID in s.runs then (if s.runs[runID].nonce != nonce then NonceMismatch else Replay(s.runs[runID]))
    else if s.active.Some? && s.active.value in s.runs && !preempt then RunActive(s.active.value)
    else Proceed(if s.active.Some? && s.active.value in s.runs then s.active else None)
  }

  // ---------------------------------------------------------------- the steps

  function Update(s: State, id: string, r: Record): State {
    if id in s.runs then s.(runs := s.runs[id := r]) else s
  }

  function Deactivate(s: State, id: string): State {
    if s.active == Some(id) then s.(active := None) else s
  }

  function Preempted(s: State, id: Option<string>): State {
    if id.Some? && id.value in s.runs then Update(s, id.value, s.runs[id.value].(state := Aborted)) else s
  }

  function NewRecord(m: Mutation, localID: string, state: RunState, now: int): Record
    requires m.StartPending?
  {
    Record(localID, m.nonce, state, Some(now + m.leaseMs), m.leaseMs, false, None, false)
  }

  function Register(s: State, runID: string, r: Record): State {
    var pruned := Prune(s.runs[runID := r], s.order + [runID], Some(runID));
    var remembered := Remember(s.nonces, s.nonceOrder, r.nonce, runID);
    s.(runs := pruned.0, order := pruned.1, active := Some(runID), nonces := remembered.0, nonceOrder := remembered.1, mutation := Idle)
  }

  /** A lease that is absent counts as run out here, but never makes the sweep pick a run. */
  predicate Due(r: Record, now: int) {
    r.lease.None? || r.lease.value <= now
  }

  predicate Expires(s: State, e: Expiry, now: int) {
    && e.id in s.runs
    && Due(s.runs[e.id], now)
    && (if e.StartedExpiry? then s.runs[e.id].state in {Starting, Started} else s.runs[e.id].state == Finished)
  }

  function ExpiredRecord(e: Expiry, r: Record): Record {
    if e.StartedExpiry? then r.(state := Aborted, lease := None, abort := Some(LeaseExpired))
    else r.(state := Acknowledged, lease := None)
  }

  function Commit(s: State): State
    requires !s.mutation.StartPending? && !s.mutation.Idle? && s.mutation.runID in s.runs
  {
    var id := s.mutation.runID;
    var r := s.runs[id];
    match s.mutation
    case FinishPending(_) => Update(s, id, r.(state := Finishing, lease := None, finishAccepted := true))
    case AbortPending(_) => Deactivate(Update(s, id, r.(state := Aborted, lease := None, abort := Some(Requested), snapshotReady := false)), id)
    case AckPending(_) => Deactivate(Update(s, id, r.(state := Acknowledged, lease := None)), id)
  }

  predicate Enabled(s: State, e: Event) {
    match e
    case StartCheck(_, _, _, _) => s.mutation.Idle?
    case FinishCheck(_) => s.mutation.Idle?
    case AbortCheck(_) => s.mutation.Idle?
    case AckCheck(_) => s.mutation.Idle?
    case StartCommit(_, _, _) => s.mutation.StartPending?
    case FinishCommit => s.mutation.FinishPending?
    case AbortCommit => s.mutation.AbortPending?
    case AckCommit => s.mutation.AckPending?
    case ControllerRefused => !s.mutation.Idle?
    case ExpiryCommit(x) => x in s.expiring
    case ExpiryRefused(x) => x in s.expiring && x.FinishedExpiry?
    case _ => true
  }

  /** The lease a start is granted: what it asked for, within the bounds. */
  function LeaseLength(requested: int): (ms: int)
    ensures 0 < ms <= STARTED_LEASE_MAX_MS
    ensures 0 < requested <= STARTED_LEASE_MAX_MS ==> ms == requested
  {
    if requested <= 0 then STARTED_LEASE_MS
    else if requested > STARTED_LEASE_MAX_MS then STARTED_LEASE_MAX_MS
    else requested
  }

  function CheckStart(s: State, runID: string, nonce: string, leaseMs: int, preempt: bool): State {
    var d := Decide(s, runID, nonce, preempt);
    if d.Proceed? then s.(mutation := StartPending(runID, nonce, LeaseLength(leaseMs), d.preempted)) else s
  }

  function CommitPending(s: State): State
    requires !s.mutation.StartPending? && !s.mutation.Idle?
  {
    if s.mutation.runID in s.runs then Commit(s).(mutation := Idle) else s.(mutation := Idle)
  }

  function Renewed(s: State, runID: string, now: int): State {
    if runID in s.runs && s.runs[runID].state == Started
    then Update(s, runID, s.runs[runID].(lease := Some(now + s.runs[runID].leaseMs)))
    else s
  }

  function Built(s: State, runID: string, localID: string, state: RunState, now: int): State {
    if runID in s.runs && s.runs[runID].localID == localID
    then Update(s, runID, s.runs[runID].(state := state, snapshotReady := true, lease := Some(now + ACK_LEASE_MS)))
    else s
  }

  function Expire(s: State, x: Expiry): State {
    if x.id in s.runs then Deactivate(Update(s, x.id, ExpiredRecord(x, s.runs[x.id])), x.id) else s
  }

  function Step(s: State, e: Event): State
    requires Enabled(s, e)
  {
    match e
    case StartCheck(runID, nonce, leaseMs, preempt) => CheckStart(s, runID, nonce, leaseMs, preempt)
    case StartCommit(localID, state, now) =>
      Register(Preempted(s, s.mutation.preempted), s.mutation.runID, NewRecord(s.mutation, localID, state, now))
    case FinishCheck(id) =>
      if id in s.runs && !s.runs[id].finishAccepted && s.runs[id].state != Aborted then s.(mutation := FinishPending(id)) else s
    case AbortCheck(id) => if id in s.runs && s.runs[id].abort.None? then s.(mutation := AbortPending(id)) else s
    case AckCheck(id) => if id in s.runs then s.(mutation := AckPending(id)) else s
    case FinishCommit => CommitPending(s)
    case AbortCommit => CommitPending(s)
    case AckCommit => CommitPending(s)
    case ControllerRefused => s.(mutation := Idle)
    case Renew(runID, now) => Renewed(s, runID, now)
    case StatusRead(id, state) => if id in s.runs then Update(s, id, s.runs[id].(state := state)) else s
    case SnapshotBuilt(runID, localID, state, now) => Built(s, runID, localID, state, now)
    case ExpiryCheck(x, now) => if Expires(s, x, now) then s.(expiring := s.expiring + multiset{x}) else s
    case ExpiryCommit(x) => Expire(s.(expiring := s.expiring - multiset{x}), x)
    case ExpiryRefused(x) => s.(expiring := s.expiring - multiset{x})
  }

  ghost predicate ValidRun(s: State, es: seq<Event>)
    decreases |es|
  {
    es == [] || (Enabled(s, es[0]) && ValidRun(Step(s, es[0]), es[1..]))
  }

  ghost function Run(s: State, es: seq<Event>): State
    requires ValidRun(s, es)
    decreases |es|
  {
    if es == [] then s else Run(Step(s, es[0]), es[1..])
  }

  // ---------------------------------------------------------------- the invariant

  predicate NoDuplicates(s: seq<string>) {
    forall i, j :: 0 <= i < j < |s| ==> s[i] != s[j]
  }

  ghost predicate SameKeys<V>(m: map<string, V>, s: seq<string>) {
    forall x :: x in m <==> x in s
  }

  function Last(s: seq<string>): string
    requires s != []
  {
    s[|s| - 1]
  }

  ghost predicate RunsInv(s: State) {
    && NoDuplicates(s.order) && |s.order| <= RETAINED_RUNS && SameKeys(s.runs, s.order)
    && (s.active.Some? ==> s.order != [] && s.active.value == Last(s.order))
  }

  ghost predicate NoncesInv(s: State) {
    NoDuplicates(s.nonceOrder) && |s.nonceOrder| <= NONCE_HISTORY_MAX && SameKeys(s.nonces, s.nonceOrder)
  }

  /** A remembered nonce of a retained run is bound to that run, the newest run's nonce is
      remembered, and no two retained runs share a nonce. */
  ghost predicate BindingInv(s: State) {
    && (forall id :: id in s.runs && s.runs[id].nonce in s.nonces ==> s.nonces[s.runs[id].nonce] == id)
    && (forall a, b :: a in s.runs && b in s.runs && s.runs[a].nonce == s.runs[b].nonce ==> a == b)
    && (s.order != [] ==> Last(s.order) in s.runs && s.runs[Last(s.order)].nonce in s.nonces)
  }

  /** What the check of the pending operation found still holds at its commit. */
  ghost predicate PendingInv(s: State) {
    match s.mutation
    case Idle => true
    case StartPending(runID, nonce, _, _) => runID !in s.runs && (nonce in s.nonces ==> s.nonces[nonce] == runID)
    case FinishPending(runID) => runID in s.runs
    case AbortPending(runID) => runID in s.runs
    case AckPending(runID) => runID in s.runs
  }

  ghost predicate Inv(s: State) {
    RunsInv(s) && NoncesInv(s) && BindingInv(s) && PendingInv(s)
  }

  lemma InitialInv()
    ensures Inv(Initial)
  {
  }

  /** The registries are as they were, except for record fields other than the nonce and for an
      active run that may have been cleared. */
  ghost predicate SameRegistry(s: State, t: State) {
    && t.order == s.order && t.nonces == s.nonces && t.nonceOrder == s.nonceOrder
    && (t.active == s.active || t.active.None?)
    && t.runs.Keys == s.runs.Keys
    && forall id :: id in s.runs ==> t.runs[id].nonce == s.runs[id].nonce
  }

  lemma SameRegistryInv(s: State, t: State)
    requires Inv(s) && SameRegistry(s, t)
    ensures RunsInv(t) && NoncesInv(t) && BindingInv(t)
    ensures t.mutation == s.mutation ==> PendingInv(t)
  {
    forall x ensures x in t.runs <==> x in t.order {
      assert x in t.runs.Keys <==> x in s.runs.Keys;
    }
  }

  lemma UpdateSame(s: State, id: string, r: Record)
    requires id in s.runs && r.nonce == s.runs[id].nonce
    ensures SameRegistry(s, Update(s, id, r)) && Update(s, id, r).mutation == s.mutation
    ensures SameRegistry(s, Deactivate(Update(s, id, r), id)) && Deactivate(Update(s, id, r), id).mutation == s.mutation
  {
  }

  lemma PendingKept(s: State, t: State)
    requires PendingInv(s) && SameRegistry(s, t) && (t.mutation == s.mutation || t.mutation.Idle?)
    ensures PendingInv(t)
  {
    assert forall id :: id in s.runs.Keys <==> id in t.runs.Keys;
  }

  lemma CheckSteps(s: State, e: Event)
    requires Enabled(s, e) && (e.StartCheck? || e.FinishCheck? || e.AbortCheck? || e.AckCheck?)
    ensures SameRegistry(s, Step(s, e)) && PendingInv(Step(s, e))
  {
  }

  lemma CommitSteps(s: State, e: Event)
    requires Enabled(s, e) && (e.FinishCommit? || e.AbortCommit? || e.AckCommit? || e.ControllerRefused?)
    ensures SameRegistry(s, Step(s, e)) && Step(s, e).mutation.Idle?
  {
    if !e.ControllerRefused? && s.mutation.runID in s.runs {
      var id := s.mutation.runID;
      var r := s.runs[id];
      UpdateSame(s, id, r.(state := Finishing, lease := None, finishAccepted := true));
      UpdateSame(s, id, r.(state := Aborted, lease := None, abort := Some(Requested), snapshotReady := false));
      UpdateSame(s, id, r.(state := Acknowledged, lease := None));
      hide Update, Deactivate;
    }
  }

  lemma RecordSteps(s: State, e: Event)
    requires Enabled(s, e) && (e.Renew? || e.StatusRead? || e.SnapshotBuilt?)
    ensures SameRegistry(s, Step(s, e)) && Step(s, e).mutation == s.mutation
  {
    if e.runID in s.runs {
      var r := s.runs[e.runID];
      UpdateSame(s, e.runID, Step(s, e).runs[e.runID]);
    }
  }

  lemma ExpirySteps(s: State, e: Event)
    requires Enabled(s, e) && (e.ExpiryCheck? || e.ExpiryCommit? || e.ExpiryRefused?)
    ensures SameRegistry(s, Step(s, e)) && Step(s, e).mutation == s.mutation
  {
    if e.ExpiryCommit? && e.expiry.id in s.runs {
      UpdateSame(s.(expiring := s.expiring - multiset{e.expiry}), e.expiry.id, ExpiredRecord(e.expiry, s.runs[e.expiry.id]));
      hide Update, Deactivate;
    }
  }

  lemma QuietSteps(s: State, e: Event)
    requires Inv(s) && Enabled(s, e) && !e.StartCommit?
    ensures SameRegistry(s, Step(s, e)) && PendingInv(Step(s, e))
  {
    hide Enabled, Step, SameRegistry, RunsInv, NoncesInv, BindingInv, PendingInv;
    if e.StartCheck? || e.FinishCheck? || e.AbortCheck? || e.AckCheck? {
      CheckSteps(s, e);
    } else {
      if e.FinishCommit? || e.AbortCommit? || e.AckCommit? || e.ControllerRefused? {
        CommitSteps(s, e);
      } else if e.Renew? || e.StatusRead? || e.SnapshotBuilt? {
        RecordSteps(s, e);
      } else {
        ExpirySteps(s, e);
      }
      PendingKept(s, Step(s, e));
    }
  }

  // ---------------------------------------------------------------- the commit of a start

  /** Registering a run evicts nothing while there is room, and otherwise exactly the oldest run. */
  lemma PruneOldest(runs: map<string, Record>, order: seq<string>, id: string)
    requires id !in order && |order| <= RETAINED_RUNS
    ensures Prune(runs, order + [id], Some(id)) ==
            if |order| < RETAINED_RUNS then (runs, order + [id]) else (runs - {order[0]}, order[1..] + [id])
  {
    if |order| == RETAINED_RUNS {
      var all := order + [id];
      assert Evictable(all, Some(id)) == 0;
      assert all[..0] + all[0 + 1..] == order[1..] + [id];
    }
  }

  lemma RememberExact(nonces: map<string, string>, order: seq<string>, nonce: string, runID: string)
    requires |order| <= NONCE_HISTORY_MAX && SameKeys(nonces, order)
    ensures Remember(nonces, order, nonce, runID) ==
            if nonce in nonces then (nonces[nonce := runID], order)
            else if |order| < NONCE_HISTORY_MAX then (nonces[nonce := runID], order + [nonce])
            else (nonces[nonce := runID] - {order[0]}, order[1..] + [nonce])
  {
    hide SameKeys;
    if nonce !in nonces && |order| == NONCE_HISTORY_MAX {
      var all := order + [nonce];
      assert all[0] == order[0] && all[1..] == order[1..] + [nonce];
      assert Forget(nonces[nonce := runID] - {order[0]}, all[1..]) == (nonces[nonce := runID] - {order[0]}, all[1..]);
    }
  }

  lemma NoDuplicatesShift(s: seq<string>, x: string)
    requires NoDuplicates(s) && x !in s
    ensures NoDuplicates(s + [x]) && (s != [] ==> NoDuplicates(s[1..] + [x]))
  {
  }

  lemma KeysShift<V>(m: map<string, V>, s: seq<string>, x: string, v: V)
    requires NoDuplicates(s) && SameKeys(m, s) && x !in s
    ensures SameKeys(m[x := v], s + [x])
    ensures s != [] ==> SameKeys(m[x := v] - {s[0]}, s[1..] + [x])
  {
    if s != [] {
      assert s == [s[0]] + s[1..];
    }
  }

  /** The run registry after the start of `runID`. */
  lemma RegisterRuns(s: State, runID: string, r: Record)
    requires RunsInv(s) && runID !in s.runs
    ensures RunsInv(Register(s, runID, r))
    ensures Register(s, runID, r).order == (if |s.order| < RETAINED_RUNS then s.order else s.order[1..]) + [runID]
    ensures runID in Register(s, runID, r).runs && Register(s, runID, r).runs[runID] == r
    ensures forall id :: id in Register(s, runID, r).runs && id != runID ==>
              id in s.runs && Register(s, runID, r).runs[id] == s.runs[id] && s.order != [] && id == Last(s.order)
  {
    hide Prune, Remember;
    PruneOldest(s.runs[runID := r], s.order, runID);
    NoDuplicatesShift(s.order, runID);
    KeysShift(s.runs, s.order, runID, r);
  }

  lemma RegisterNonces(s: State, runID: string, r: Record)
    requires NoncesInv(s) && (r.nonce in s.nonces ==> s.nonces[r.nonce] == runID)
    ensures var t := Register(s, runID, r);
            && NoncesInv(t)
            && r.nonce in t.nonces && t.nonces[r.nonce] == runID
            && (forall n :: n in t.nonces && n != r.nonce ==> n in s.nonces && t.nonces[n] == s.nonces[n])
            && t.nonceOrder == if r.nonce in s.nonces then s.nonceOrder else (if |s.nonceOrder| < NONCE_HISTORY_MAX then s.nonceOrder else s.nonceOrder[1..]) + [r.nonce]
  {
    hide Prune, Remember;
    RememberExact(s.nonces, s.nonceOrder, r.nonce, runID);
    if r.nonce !in s.nonces {
      NoDuplicatesShift(s.nonceOrder, r.nonce);
      KeysShift(s.nonces, s.nonceOrder, r.nonce, runID);
    } else {
      hide NoDuplicates;
      assert SameKeys(s.nonces[r.nonce := runID], s.nonceOrder);
    }
  }

  lemma RegisterBindings(s: State, t: State, runID: string, r: Record)
    requires BindingInv(s) && runID !in s.runs && (r.nonce in s.nonces ==> s.nonces[r.nonce] == runID)
    requires runID in t.runs && t.runs[runID] == r && t.order != [] && Last(t.order) == runID
    requires forall id :: id in t.runs && id != runID ==> id in s.runs && t.runs[id] == s.runs[id] && s.order != [] && id == Last(s.order)
    requires r.nonce in t.nonces && t.nonces[r.nonce] == runID
    requires forall n :: n in t.nonces && n != r.nonce ==> n in s.nonces && t.nonces[n] == s.nonces[n]
    ensures BindingInv(t)
  {
  }

  lemma StartCommitParts(s: State, e: Event) returns (before: State, r: Record)
    requires Enabled(s, e) && e.StartCommit?
    ensures before == Preempted(s, s.mutation.preempted)
    ensures SameRegistry(s, before) && before.mutation == s.mutation && r.nonce == s.mutation.nonce
    ensures Step(s, e) == Register(before, s.mutation.runID, r) && Step(s, e).mutation == Idle
  {
    before := Preempted(s, s.mutation.preempted);
    r := NewRecord(s.mutation, e.localID, e.state, e.now);
    hide Prune, Remember;
  }

  lemma PendingStart(s: State)
    requires PendingInv(s) && s.mutation.StartPending?
    ensures s.mutation.runID !in s.runs
    ensures s.mutation.nonce in s.nonces ==> s.nonces[s.mutation.nonce] == s.mutation.runID
  {
  }

  lemma IdleInv(s: State)
    requires s.mutation.Idle? && RunsInv(s) && NoncesInv(s) && BindingInv(s)
    ensures Inv(s)
  {
    hide RunsInv, NoncesInv, BindingInv;
  }

  lemma SameRegistryFields(s: State, t: State)
    requires SameRegistry(s, t)
    ensures t.order == s.order && t.nonces == s.nonces
  {
  }

  lemma StartCommitInv(s: State, e: Event)
    requires Inv(s) && Enabled(s, e) && e.StartCommit?
    ensures Inv(Step(s, e))
    ensures Step(s, e).order == (if |s.order| < RETAINED_RUNS then s.order else s.order[1..]) + [s.mutation.runID]
    ensures forall n :: n in s.nonces && n in Step(s, e).nonces ==> Step(s, e).nonces[n] == s.nonces[n]
  {
    var before, r := StartCommitParts(s, e);
    var t := Step(s, e);
    var runID := s.mutation.runID;
    hide Inv, Step, Register, SameRegistry, RunsInv, NoncesInv, BindingInv, PendingInv;
    SameRegistryInv(s, before);
    SameRegistryFields(s, before);
    PendingStart(before);
    RegisterRuns(before, runID, r);
    RegisterNonces(before, runID, r);
    RegisterBindings(before, t, runID, r);
    IdleInv(t);
  }

  // ---------------------------------------------------------------- whole runs

  lemma StepInv(s: State, e: Event)
    requires Inv(s) && Enabled(s, e)
    ensures Inv(Step(s, e))
  {
    if e.StartCommit? {
      StartCommitInv(s, e);
    } else {
      QuietSteps(s, e);
      hide Step, Enabled;
      SameRegistryInv(s, Step(s, e));
    }
  }

  lemma {:induction false} RunKeepsInv(s: State, es: seq<Event>)
    requires Inv(s) && ValidRun(s, es)
    ensures Inv(Run(s, es))
    decreases |es|
  {
    hide Inv, Step, Enabled;
    if es != [] {
      StepInv(s, es[0]);
      RunKeepsInv(Step(s, es[0]), es[1..]);
    }
  }

  /** The runs whose start was committed, in order. */
  ghost function Committed(s: State, es: seq<Event>): seq<string>
    requires ValidRun(s, es)
    decreases |es|
  {
    if es == [] then []
    else (if es[0].StartCommit? then [s.mutation.runID] else []) + Committed(Step(s, es[0]), es[1..])
  }

  function Newest(s: seq<string>): seq<string> {
    if |s| <= RETAINED_RUNS then s else s[|s| - RETAINED_RUNS..]
  }

  lemma NewestTail(s: seq<string>)
    requires |s| > RETAINED_RUNS
    ensures Newest(s[1..]) == Newest(s)
  {
  }

  lemma NewestStep(before: seq<string>, id: string, rest: seq<string>)
    requires |before| <= RETAINED_RUNS
    ensures Newest(((if |before| < RETAINED_RUNS then before else before[1..]) + [id]) + rest) == Newest(before + ([id] + rest))
  {
    hide Newest;
    var all := before + ([id] + rest);
    if |before| < RETAINED_RUNS {
      assert before + [id] + rest == all;
    } else {
      assert before[1..] + [id] + rest == all[1..];
      NewestTail(all);
    }
  }

  lemma {:induction false} RetainedFrom(s: State, es: seq<Event>)
    requires Inv(s) && ValidRun(s, es)
    ensures Run(s, es).order == Newest(s.order + Committed(s, es))
    decreases |es|
  {
    if es == [] {
      assert s.order + [] == s.order;
    } else {
      var t := Step(s, es[0]);
      StepInv(s, es[0]);
      if es[0].StartCommit? {
        StartCommitInv(s, es[0]);
        NewestStep(s.order, s.mutation.runID, Committed(t, es[1..]));
      } else {
        QuietSteps(s, es[0]);
        assert [] + Committed(t, es[1..]) == Committed(t, es[1..]);
      }
      hide Step, Enabled, RunsInv, NoncesInv, BindingInv, PendingInv, Newest;
      RetainedFrom(t, es[1..]);
    }
  }

  /** The retained runs are exactly the newest two that were started, oldest first, and the
      active run, if any, is the newest: pruning never evicts it. */
  lemma RetainedAreNewest(es: seq<Event>)
    requires ValidRun(Initial, es)
    ensures var s := Run(Initial, es);
            && s.order == Newest(Committed(Initial, es))
            && NoDuplicates(s.order) && SameKeys(s.runs, s.order)
            && (s.active.Some? ==> s.order != [] && s.active.value == Last(s.order) && s.active.value in s.runs)
  {
    InitialInv();
    RunKeepsInv(Initial, es);
    RetainedFrom(Initial, es);
    assert [] + Committed(Initial, es) == Committed(Initial, es);
  }

  /** The nonce is remembered before and after every step of the run. */
  ghost predicate AlwaysRemembered(s: State, es: seq<Event>, nonce: string)
    requires ValidRun(s, es)
    decreases |es|
  {
    nonce in s.nonces && (es != [] ==> AlwaysRemembered(Step(s, es[0]), es[1..], nonce))
  }

  /** A remembered nonce is never rebound to another run. */
  lemma {:induction false} NeverRebound(s: State, es: seq<Event>, nonce: string)
    requires Inv(s) && ValidRun(s, es) && AlwaysRemembered(s, es, nonce)
    ensures nonce in Run(s, es).nonces && Run(s, es).nonces[nonce] == s.nonces[nonce]
    decreases |es|
  {
    if es != [] {
      StepInv(s, es[0]);
      if es[0].StartCommit? { StartCommitInv(s, es[0]); } else { QuietSteps(s, es[0]); }
      hide Step, Enabled, Inv;
      NeverRebound(Step(s, es[0]), es[1..], nonce);
    }
  }

  /** What is recorded of a run for good. */
  predicate Sticks(a: Record, b: Record) {
    && b.localID == a.localID && b.nonce == a.nonce && b.leaseMs == a.leaseMs
    && (a.finishAccepted ==> b.finishAccepted) && (a.abort.Some? ==> b.abort.Some?)
  }

  lemma UpdateSticks(s: State, id: string, r: Record, k: string)
    requires id in s.runs && k in s.runs && Sticks(s.runs[id], r)
    ensures k in Update(s, id, r).runs && Sticks(s.runs[k], Update(s, id, r).runs[k])
    ensures Deactivate(Update(s, id, r), id).runs == Update(s, id, r).runs
  {
  }

  lemma CommitSticks(s: State, e: Event, k: string)
    requires Enabled(s, e) && (e.FinishCommit? || e.AbortCommit? || e.AckCommit? || e.ControllerRefused?) && k in s.runs
    ensures k in Step(s, e).runs && Sticks(s.runs[k], Step(s, e).runs[k])
  {
    if !e.ControllerRefused? && s.mutation.runID in s.runs {
      var id := s.mutation.runID;
      var r := s.runs[id];
      UpdateSticks(s, id, r.(state := Finishing, lease := None, finishAccepted := true), k);
      UpdateSticks(s, id, r.(state := Aborted, lease := None, abort := Some(Requested), snapshotReady := false), k);
      UpdateSticks(s, id, r.(state := Acknowledged, lease := None), k);
      hide Update, Deactivate;
    }
  }

  lemma RecordSticks(s: State, e: Event, k: string)
    requires Enabled(s, e) && (e.Renew? || e.StatusRead? || e.SnapshotBuilt?) && k in s.runs
    ensures k in Step(s, e).runs && Sticks(s.runs[k], Step(s, e).runs[k])
  {
    if e.runID in s.runs {
      UpdateSticks(s, e.runID, Step(s, e).runs[e.runID], k);
    }
  }

  lemma ExpirySticks(s: State, e: Event, k: string)
    requires Enabled(s, e) && e.ExpiryCommit? && k in s.runs
    ensures k in Step(s, e).runs && Sticks(s.runs[k], Step(s, e).runs[k])
  {
    var x := e.expiry;
    var t := s.(expiring := s.expiring - multiset{x});
    if x.id in s.runs {
      UpdateSticks(t, x.id, ExpiredRecord(x, s.runs[x.id]), k);
      hide Update, Deactivate, Sticks;
    }
  }

  lemma OtherSticks(s: State, e: Event, k: string)
    requires Enabled(s, e) && (e.StartCheck? || e.FinishCheck? || e.AbortCheck? || e.AckCheck? || e.ExpiryCheck? || e.ExpiryRefused?) && k in s.runs
    ensures k in Step(s, e).runs && Sticks(s.runs[k], Step(s, e).runs[k])
  {
  }

  lemma PreemptedSticks(s: State, id: Option<string>, k: string)
    requires k in s.runs
    ensures k in Preempted(s, id).runs && Sticks(s.runs[k], Preempted(s, id).runs[k])
  {
  }

  lemma StartSticks(s: State, e: Event, k: string)
    requires Inv(s) && Enabled(s, e) && e.StartCommit? && k in s.runs && k in Step(s, e).runs
    ensures Sticks(s.runs[k], Step(s, e).runs[k])
  {
    InvParts(s);
    hide *;
    var before, r := StartCommitParts(s, e);
    PreemptedSticks(s, s.mutation.preempted, k);
    SameRegistryInv(s, before);
    PendingStart(before);
    RegisterRuns(before, s.mutation.runID, r);
  }

  lemma InvParts(s: State)
    requires Inv(s)
    ensures RunsInv(s) && NoncesInv(s) && BindingInv(s) && PendingInv(s)
  {
    hide RunsInv, NoncesInv, BindingInv, PendingInv;
  }

  lemma StepSticks(s: State, e: Event, k: string)
    requires Inv(s) && Enabled(s, e) && k in s.runs && k in Step(s, e).runs
    ensures Sticks(s.runs[k], Step(s, e).runs[k])
  {
    hide *;
    if e.StartCommit? {
      StartSticks(s, e, k);
    } else if e.FinishCommit? || e.AbortCommit? || e.AckCommit? || e.ControllerRefused? {
      CommitSticks(s, e, k);
    } else if e.Renew? || e.StatusRead? || e.SnapshotBuilt? {
      RecordSticks(s, e, k);
    } else if e.ExpiryCommit? {
      ExpirySticks(s, e, k);
    } else {
      OtherSticks(s, e, k);
    }
  }

  /** The run is retained before and after every step of the run. */
  ghost predicate AlwaysRetained(s: State, es: seq<Event>, id: string)
    requires ValidRun(s, es)
    decreases |es|
  {
    id in s.runs && (es != [] ==> AlwaysRetained(Step(s, es[0]), es[1..], id))
  }

  /** While a run is retained its identity does not change, and an accepted finish and a
      recorded abort stay recorded. */
  lemma {:induction false} RecordsStick(s: State, es: seq<Event>, id: string)
    requires Inv(s) && ValidRun(s, es) && AlwaysRetained(s, es, id)
    ensures id in s.runs && id in Run(s, es).runs && Sticks(s.runs[id], Run(s, es).runs[id])
    decreases |es|
  {
    if es != [] {
      var t := Step(s, es[0]);
      assert id in t.runs;
      StepInv(s, es[0]);
      StepSticks(s, es[0], id);
      hide Step, Enabled, Inv;
      RecordsStick(t, es[1..], id);
    }
  }

  /** So a finish and an abort reach the controller once: repeated ones are answered from the
      record, whatever happened in between. */
  lemma AnsweredOnce(s: State, es: seq<Event>, id: string)
    requires Inv(s) && ValidRun(s, es) && AlwaysRetained(s, es, id) && Run(s, es).mutation.Idle?
    ensures id in s.runs
    ensures s.runs[id].abort.Some? ==> Step(Run(s, es), AbortCheck(id)) == Run(s, es)
    ensures s.runs[id].finishAccepted ==> Step(Run(s, es), FinishCheck(id)) == Run(s, es)
  {
    RecordsStick(s, es, id);
    hide Run, Inv, ValidRun, AlwaysRetained;
  }

  /** In every reachable state a start repeated with the ID and nonce of a retained run is
      answered from that run's record, and with another nonce it is refused: a nonce that was
      forgotten and bound again never gets in the way, because the start that binds it again
      evicts the run that had it. */
  lemma RetryIsReplayed(es: seq<Event>, runID: string, nonce: string, preempt: bool)
    requires ValidRun(Initial, es) && runID in Run(Initial, es).runs
    ensures var s := Run(Initial, es);
            Decide(s, runID, nonce, preempt) == if nonce == s.runs[runID].nonce then Replay(s.runs[runID]) else NonceMismatch
  {
    InitialInv();
    RunKeepsInv(Initial, es);
    hide Run, ValidRun, RunsInv, NoncesInv, PendingInv;
  }

  /** No two retained runs share a nonce, and both histories are bounded. */
  lemma RegistriesAreBounded(es: seq<Event>)
    requires ValidRun(Initial, es)
    ensures var s := Run(Initial, es);
            && |s.runs| <= RETAINED_RUNS && |s.nonces| <= NONCE_HISTORY_MAX
            && (forall a, b :: a in s.runs && b in s.runs && s.runs[a].nonce == s.runs[b].nonce ==> a == b)
  {
    InitialInv();
    RunKeepsInv(Initial, es);
    var s := Run(Initial, es);
    hide Run, ValidRun;
    KeyCount(s.runs, s.order);
    KeyCount(s.nonces, s.nonceOrder);
  }

  lemma {:induction false} KeyCount<V>(m: map<string, V>, s: seq<string>)
    requires forall x :: x in m ==> x in s
    ensures |m| <= |s|
    decreases |s|
  {
    if s != [] {
      var rest := m - {s[0]};
      assert s == [s[0]] + s[1..];
      KeyCount(rest, s[1..]);
      assert m.Keys <= rest.Keys + {s[0]};
      assert |m.Keys| <= |rest.Keys + {s[0]}| by { SubsetCard(m.Keys, rest.Keys + {s[0]}); }
      assert |rest.Keys| == |rest| && |m.Keys| == |m|;
    } else {
      assert m.Keys == {};
      assert |m.Keys| == |m|;
    }
  }

  lemma {:induction false} SubsetCard(a: set<string>, b: set<string>)
    requires a <= b
    ensures |a| <= |b|
  {
    assert b == a + (b - a);
  }
}
