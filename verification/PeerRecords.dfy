/** What a peer's record says after each step (multihost/peer.go): at which instant its lease runs
    out, what state it is in, and what a start is answered.
 */
module PeerRecords {
  import opened Wrappers
  import opened PeerRegistry

  /** The step commits the pending operation on this run. */
  predicate CommitsOn(s: State, e: Event, id: string) {
    && (e.FinishCommit? || e.AbortCommit? || e.AckCommit?)
    && !s.mutation.Idle? && !s.mutation.StartPending? && s.mutation.runID == id
  }

  predicate StartsRun(s: State, e: Event, id: string) {
    e.StartCommit? && s.mutation.StartPending? && s.mutation.runID == id
  }

  predicate BuiltFor(s: State, e: Event, id: string) {
    e.SnapshotBuilt? && e.runID == id && id in s.runs && e.localID == s.runs[id].localID
  }

  predicate ExpiresRun(e: Event, id: string) {
    e.ExpiryCommit? && e.expiry.id == id
  }

  /** When the lease of a retained run is out: the granted or renewed time after the step, ninety
      seconds after its snapshot was built, never once it is finishing or sealed. */
  ghost predicate LeaseIs(s: State, e: Event, t: State, id: string)
    requires id in t.runs && (id in s.runs || StartsRun(s, e, id))
  {
    t.runs[id].lease ==
      if StartsRun(s, e, id) then Some(e.now + s.mutation.leaseMs)
      else if e.Renew? && e.runID == id && s.runs[id].state == Started then Some(e.now + s.runs[id].leaseMs)
      else if BuiltFor(s, e, id) then Some(e.now + 90_000)
      else if CommitsOn(s, e, id) || ExpiresRun(e, id) then None
      else s.runs[id].lease
  }

  ghost predicate StateIs(s: State, e: Event, t: State, id: string)
    requires id in t.runs && (id in s.runs || StartsRun(s, e, id))
  {
    t.runs[id].state ==
      if StartsRun(s, e, id) then e.state
      else if e.StartCommit? && s.mutation.StartPending? && s.mutation.preempted == Some(id) then Aborted
      else if CommitsOn(s, e, id) then if e.FinishCommit? then Finishing else if e.AbortCommit? then Aborted else Acknowledged
      else if e.StatusRead? && e.runID == id then e.state
      else if BuiltFor(s, e, id) then e.state
      else if ExpiresRun(e, id) then if e.expiry.StartedExpiry? then Aborted else Acknowledged
      else s.runs[id].state
  }

  /** What a record notes for good, and whether it holds a snapshot. */
  ghost predicate NotesAre(s: State, e: Event, t: State, id: string)
    requires id in t.runs && (id in s.runs || StartsRun(s, e, id))
  {
    var r := t.runs[id];
    if StartsRun(s, e, id) then
      && r.localID == e.localID && r.nonce == s.mutation.nonce && r.leaseMs == s.mutation.leaseMs
      && !r.finishAccepted && r.abort.None? && !r.snapshotReady
    else
      var p := s.runs[id];
      && r.localID == p.localID && r.nonce == p.nonce && r.leaseMs == p.leaseMs
      && (r.finishAccepted <==> p.finishAccepted || (CommitsOn(s, e, id) && e.FinishCommit?))
      && r.abort == (if CommitsOn(s, e, id) && e.AbortCommit? then Some(Requested)
                     else if ExpiresRun(e, id) && e.expiry.StartedExpiry? then Some(LeaseExpired) else p.abort)
      && (r.snapshotReady <==> BuiltFor(s, e, id) || (p.snapshotReady && !(CommitsOn(s, e, id) && e.AbortCommit?)))
  }

  lemma UpdateAt(s: State, id: string, r: Record, k: string)
    requires k in s.runs
    ensures k in Update(s, id, r).runs && Update(s, id, r).runs[k] == if k == id then r else s.runs[k]
    ensures Deactivate(Update(s, id, r), id).runs == Update(s, id, r).runs
  {
  }

  lemma PreemptedAt(s: State, p: Option<string>, k: string)
    requires k in s.runs
    ensures k in Preempted(s, p).runs
    ensures Preempted(s, p).runs[k] == if p == Some(k) then s.runs[k].(state := Aborted) else s.runs[k]
  {
  }

  lemma StartRecord(s: State, e: Event, id: string)
    requires Inv(s) && Enabled(s, e) && e.StartCommit? && id in Step(s, e).runs
    ensures id in s.runs || id == s.mutation.runID
    ensures Step(s, e).runs[id] ==
              if id == s.mutation.runID then Record(e.localID, s.mutation.nonce, e.state, Some(e.now + s.mutation.leaseMs), s.mutation.leaseMs, false, None, false)
              else if s.mutation.preempted == Some(id) then s.runs[id].(state := Aborted)
              else s.runs[id]
  {
    var before := Preempted(s, s.mutation.preempted);
    var r := NewRecord(s.mutation, e.localID, e.state, e.now);
    InvParts(s);
    var b, q := StartCommitParts(s, e);
    assert Step(s, e) == Register(before, s.mutation.runID, r);
    hide Step, Register, Inv, RunsInv, NoncesInv, BindingInv, PendingInv, Preempted, SameRegistry;
    SameRegistryInv(s, before);
    PendingStart(before);
    RegisterRuns(before, s.mutation.runID, r);
    SameIds(s, before, id);
    if id in s.runs { PreemptedAt(s, s.mutation.preempted, id); }
    PendingStart(s);
  }

  lemma SameIds(s: State, t: State, id: string)
    requires SameRegistry(s, t)
    ensures id in t.runs <==> id in s.runs
  {
    assert id in t.runs.Keys <==> id in s.runs.Keys;
  }

  lemma StillThere(s: State, e: Event, id: string)
    requires Inv(s) && Enabled(s, e) && id in Step(s, e).runs
    ensures id in s.runs || StartsRun(s, e, id)
  {
    if e.StartCommit? {
      StartRecord(s, e, id);
    } else {
      QuietSteps(s, e);
      SameIds(s, Step(s, e), id);
    }
    hide Inv, Step, SameRegistry;
  }

  lemma CommitRecord(s: State, e: Event, id: string)
    requires Enabled(s, e) && (e.FinishCommit? || e.AbortCommit? || e.AckCommit?) && id in s.runs
    ensures id in Step(s, e).runs
    ensures var r := s.runs[id];
            Step(s, e).runs[id] ==
              if s.mutation.runID != id then r
              else if e.FinishCommit? then r.(state := Finishing, lease := None, finishAccepted := true)
              else if e.AbortCommit? then r.(state := Aborted, lease := None, abort := Some(Requested), snapshotReady := false)
              else r.(state := Acknowledged, lease := None)
  {
    if s.mutation.runID in s.runs {
      var k := s.mutation.runID;
      var r := s.runs[k];
      UpdateAt(s, k, r.(state := Finishing, lease := None, finishAccepted := true), id);
      UpdateAt(s, k, r.(state := Aborted, lease := None, abort := Some(Requested), snapshotReady := false), id);
      UpdateAt(s, k, r.(state := Acknowledged, lease := None), id);
      hide Update, Deactivate;
    }
  }

  lemma ExpiryRecord(s: State, x: Expiry, id: string)
    requires x in s.expiring && id in s.runs
    ensures var e := ExpiryCommit(x);
            && id in Step(s, e).runs
            && Step(s, e).runs[id] == if x.id != id then s.runs[id]
                                      else if x.StartedExpiry? then s.runs[id].(state := Aborted, lease := None, abort := Some(LeaseExpired))
                                      else s.runs[id].(state := Acknowledged, lease := None)
  {
    if x.id in s.runs {
      UpdateAt(s.(expiring := s.expiring - multiset{x}), x.id, ExpiredRecord(x, s.runs[x.id]), id);
      hide Update, Deactivate;
    }
  }

  lemma OwnRecord(s: State, e: Event, id: string)
    requires Enabled(s, e) && (e.Renew? || e.StatusRead? || e.SnapshotBuilt?) && id in s.runs
    ensures id in Step(s, e).runs
    ensures var r := s.runs[id];
            Step(s, e).runs[id] ==
              if e.runID != id then r
              else if e.Renew? then if r.state == Started then r.(lease := Some(e.now + r.leaseMs)) else r
              else if e.StatusRead? then r.(state := e.state)
              else if e.localID == r.localID then r.(state := e.state, snapshotReady := true, lease := Some(e.now + 90_000)) else r
  {
  }

  lemma NoRecord(s: State, e: Event)
    requires Enabled(s, e) && (e.StartCheck? || e.FinishCheck? || e.AbortCheck? || e.AckCheck? || e.ControllerRefused? || e.ExpiryCheck? || e.ExpiryRefused?)
    ensures Step(s, e).runs == s.runs
  {
  }

  lemma KindsOf(s: State, e: Event)
    requires Enabled(s, e)
    ensures e.StartCommit? ==> s.mutation.StartPending?
    ensures e.FinishCommit? || e.AbortCommit? || e.AckCommit? ==> !s.mutation.Idle? && !s.mutation.StartPending?
    ensures e.ExpiryCommit? ==> e.expiry in s.expiring
  {
  }

  /** After every step of a reachable registry, the record of each retained run is the new one of
      its start, or the one before with exactly what this step changes of it. */
  lemma RecordAfter(s: State, e: Event, id: string)
    requires Inv(s) && Enabled(s, e) && id in Step(s, e).runs
    ensures id in s.runs || StartsRun(s, e, id)
    ensures LeaseIs(s, e, Step(s, e), id) && StateIs(s, e, Step(s, e), id) && NotesAre(s, e, Step(s, e), id)
  {
    StillThere(s, e, id);
    KindsOf(s, e);
    if e.StartCommit? { PendingApart(s); }
    hide Inv, Step, Enabled, StartsRun, LeaseIs, StateIs, NotesAre;
    if e.StartCommit? {
      StartRecord(s, e, id);
      StartFits(s, e, Step(s, e), id);
    } else if e.FinishCommit? || e.AbortCommit? || e.AckCommit? {
      NotStarted(s, e, id);
      CommitRecord(s, e, id);
      CommitFits(s, e, Step(s, e), id);
    } else {
      NotStarted(s, e, id);
      if e.ExpiryCommit? {
        ExpiryRecord(s, e.expiry, id);
      } else if e.Renew? || e.StatusRead? || e.SnapshotBuilt? {
        OwnRecord(s, e, id);
      } else {
        NoRecord(s, e);
      }
      OtherFits(s, e, Step(s, e), id);
    }
  }

  lemma NotStarted(s: State, e: Event, id: string)
    requires !e.StartCommit? && (id in s.runs || StartsRun(s, e, id))
    ensures id in s.runs && !StartsRun(s, e, id)
  {
  }

  lemma StartFits(s: State, e: Event, t: State, id: string)
    requires e.StartCommit? && s.mutation.StartPending? && s.mutation.runID !in s.runs && id in t.runs && (id in s.runs || StartsRun(s, e, id))
    requires id in s.runs || id == s.mutation.runID
    requires t.runs[id] ==
               if id == s.mutation.runID then Record(e.localID, s.mutation.nonce, e.state, Some(e.now + s.mutation.leaseMs), s.mutation.leaseMs, false, None, false)
               else if s.mutation.preempted == Some(id) then s.runs[id].(state := Aborted)
               else s.runs[id]
    ensures LeaseIs(s, e, t, id) && StateIs(s, e, t, id) && NotesAre(s, e, t, id)
  {
  }

  lemma CommitFits(s: State, e: Event, t: State, id: string)
    requires (e.FinishCommit? || e.AbortCommit? || e.AckCommit?) && !s.mutation.Idle? && !s.mutation.StartPending? && id in s.runs && id in t.runs
    requires var r := s.runs[id];
             t.runs[id] ==
               if s.mutation.runID != id then r
               else if e.FinishCommit? then r.(state := Finishing, lease := None, finishAccepted := true)
               else if e.AbortCommit? then r.(state := Aborted, lease := None, abort := Some(Requested), snapshotReady := false)
               else r.(state := Acknowledged, lease := None)
    ensures LeaseIs(s, e, t, id) && StateIs(s, e, t, id) && NotesAre(s, e, t, id)
  {
  }

  lemma OtherFits(s: State, e: Event, t: State, id: string)
    requires !e.StartCommit? && !e.FinishCommit? && !e.AbortCommit? && !e.AckCommit? && id in s.runs && id in t.runs
    requires var r := s.runs[id];
             t.runs[id] ==
               if ExpiresRun(e, id) then
                 if e.expiry.StartedExpiry? then r.(state := Aborted, lease := None, abort := Some(LeaseExpired))
                 else r.(state := Acknowledged, lease := None)
               else if e.Renew? && e.runID == id && r.state == Started then r.(lease := Some(e.now + r.leaseMs))
               else if e.StatusRead? && e.runID == id then r.(state := e.state)
               else if BuiltFor(s, e, id) then r.(state := e.state, snapshotReady := true, lease := Some(e.now + 90_000))
               else r
    ensures LeaseIs(s, e, t, id) && StateIs(s, e, t, id) && NotesAre(s, e, t, id)
  {
  }

  lemma PendingApart(s: State)
    requires Inv(s) && s.mutation.StartPending?
    ensures s.mutation.runID !in s.runs
  {
  }

  /** The active run changes only when a run starts, and when it is aborted, acknowledged or
      expired. */
  lemma ActiveAfter(s: State, e: Event)
    requires Inv(s) && Enabled(s, e)
    ensures Step(s, e).active ==
              if e.StartCommit? then Some(s.mutation.runID)
              else if s.active.Some? && s.active.value in s.runs && (ExpiresRun(e, s.active.value) || (CommitsOn(s, e, s.active.value) && !e.FinishCommit?)) then None
              else s.active
  {
    hide Prune, Remember, Inv;
  }

  // ---------------------------------------------------------------- what a start is answered

  /** A nonce of another run or another nonce of this run is refused, a repeated start is answered
      from its record, another run stands in the way unless it may be preempted, and otherwise the
      start goes on, with the lease it asked for within the bounds. */
  lemma StartAnswer(s: State, runID: string, nonce: string, leaseMs: int, preempt: bool)
    requires Inv(s) && s.mutation.Idle?
    ensures var d := Decide(s, runID, nonce, preempt);
            var t := Step(s, StartCheck(runID, nonce, leaseMs, preempt));
            var taken := nonce in s.nonces && s.nonces[nonce] != runID;
            && (d == NonceMismatch <==> taken || (runID in s.runs && s.runs[runID].nonce != nonce))
            && (d.Replay? <==> runID in s.runs && s.runs[runID].nonce == nonce)
            && (d.Replay? ==> d.record == s.runs[runID])
            && (d.RunActive? <==> !taken && runID !in s.runs && s.active.Some? && !preempt)
            && (d.RunActive? ==> Some(d.activeID) == s.active)
            && (d.Proceed? <==> !taken && runID !in s.runs && (s.active.None? || preempt))
            && (!d.Proceed? ==> t == s)
            && (d.Proceed? ==> t == s.(mutation := StartPending(runID, nonce, Granted(leaseMs), s.active)))
  {
    assert s.active.Some? ==> s.active.value in s.order && s.active.value in s.runs;
  }

  /** Forty-five seconds if no time is asked for, and at most ninety. */
  function Granted(asked: int): int {
    if asked <= 0 then 45_000 else if asked <= 90_000 then asked else 90_000
  }
}
