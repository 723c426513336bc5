/** The peer itself (multihost/peer.go): each method is one region that holds the registry lock,
    except the sweep, which is the whole pass over the runs when nothing interleaves with it. */
module PeerNode {
  import opened Wrappers
  import opened PeerRegistry

  // ---------------------------------------------------------------- the sweep

  /** The sweep at `now` picks this run: its lease is set and has run out. */
  predicate LeaseOver(r: Record, now: int) {
    r.lease.Some? && r.lease.value <= now
  }

  predicate ToAbort(r: Record, now: int) {
    LeaseOver(r, now) && r.state in {Starting, Started}
  }

  predicate ToAck(r: Record, now: int) {
    LeaseOver(r, now) && r.state == Finished
  }

  function ExpiryOf(id: string, r: Record): Expiry {
    if r.state == Finished then FinishedExpiry(id) else StartedExpiry(id)
  }

  /** The controller acknowledges a finished run only if it accepts; an abort is not refused. */
  predicate IsSwept(r: Record, now: int, accepts: string -> bool) {
    ToAbort(r, now) || (ToAck(r, now) && accepts(r.localID))
  }

  function SweptRecord(id: string, r: Record, now: int, accepts: string -> bool): Record {
    if IsSwept(r, now, accepts) then ExpiredRecord(ExpiryOf(id, r), r) else r
  }

  /** The runs of `ids` swept, the others untouched. */
  function Swept(s: State, ids: set<string>, now: int, accepts: string -> bool): State {
    s.(runs := map id | id in s.runs :: if id in ids then SweptRecord(id, s.runs[id], now, accepts) else s.runs[id],
       active := if s.active.Some? && s.active.value in s.runs && s.active.value in ids && IsSwept(s.runs[s.active.value], now, accepts)
                 then None else s.active)
  }

  /** One expiry, from its check to its commit. */
  function ExpireOne(s: State, x: Expiry, now: int, accepts: string -> bool): State {
    if Expires(s, x, now) && (x.StartedExpiry? || accepts(s.runs[x.id].localID)) then Expire(s, x) else s
  }

  lemma ExpireOneIsSteps(s: State, x: Expiry, now: int, accepts: string -> bool) returns (es: seq<Event>)
    ensures ValidRun(s, es) && Run(s, es) == ExpireOne(s, x, now, accepts)
  {
    var check := ExpiryCheck(x, now);
    if !Expires(s, x, now) {
      es := [];
    } else {
      var t := Step(s, check);
      assert t == s.(expiring := s.expiring + multiset{x});
      var done := if x.StartedExpiry? || accepts(s.runs[x.id].localID) then ExpiryCommit(x) else ExpiryRefused(x);
      assert t.expiring - multiset{x} == s.expiring;
      es := [check, done];
      hide Expires, Expire;
      TwoSteps(s, check, done);
    }
  }

  lemma TwoSteps(s: State, a: Event, b: Event)
    requires Enabled(s, a) && Enabled(Step(s, a), b)
    ensures ValidRun(s, [a, b]) && Run(s, [a, b]) == Step(Step(s, a), b)
  {
    hide Enabled, Step;
    var t := Step(s, a);
    assert [a, b][1..] == [b] && [b][1..] == [];
    assert ValidRun(Step(t, b), []);
    assert ValidRun(t, [b]) && Run(t, [b]) == Step(t, b);
  }

  lemma ExpireOneKeepsInv(s: State, x: Expiry, now: int, accepts: string -> bool)
    requires Inv(s)
    ensures Inv(ExpireOne(s, x, now, accepts))
  {
    var es := ExpireOneIsSteps(s, x, now, accepts);
    hide *;
    RunKeepsInv(s, es);
  }

  lemma SweptOneMore(s: State, ids: set<string>, id: string, now: int, accepts: string -> bool)
    requires id in s.runs && id !in ids && (ToAbort(s.runs[id], now) || ToAck(s.runs[id], now))
    ensures ExpireOne(Swept(s, ids, now, accepts), ExpiryOf(id, s.runs[id]), now, accepts) == Swept(s, ids + {id}, now, accepts)
  {
    var before := Swept(s, ids, now, accepts);
    var after := Swept(s, ids + {id}, now, accepts);
    assert before.runs[id] == s.runs[id];
    var got := ExpireOne(before, ExpiryOf(id, s.runs[id]), now, accepts);
    assert got.runs == after.runs;
  }

  /** Runs the sweep does not pick can be left out of it. */
  lemma SweptPicked(s: State, ids: set<string>, now: int, accepts: string -> bool)
    requires forall id :: id in s.runs && IsSwept(s.runs[id], now, accepts) ==> id in ids
    ensures Swept(s, ids, now, accepts) == Swept(s, s.runs.Keys, now, accepts)
  {
    hide LeaseOver, ToAbort, ToAck, IsSwept, ExpiryOf, ExpiredRecord;
    assert Swept(s, ids, now, accepts).runs == Swept(s, s.runs.Keys, now, accepts).runs;
  }

  /** After a sweep no starting or started run holds a lease that has run out, and a finished run
      does exactly if it was finished before and the controller refused the acknowledgement. */
  lemma NoLeaseLeftOver(s: State, now: int, accepts: string -> bool, id: string)
    requires id in s.runs
    ensures var after := Swept(s, s.runs.Keys, now, accepts);
            && after.runs.Keys == s.runs.Keys
            && (after.runs[id].state in {Starting, Started} ==> !LeaseOver(after.runs[id], now))
            && (after.runs[id].state == Finished && LeaseOver(after.runs[id], now) <==>
                s.runs[id].state == Finished && LeaseOver(s.runs[id], now) && !accepts(s.runs[id].localID))
            && (var r := s.runs[id];
                var over := r.lease.Some? && r.lease.value <= now;
                after.runs[id] ==
                  if over && r.state in {Starting, Started} then r.(state := Aborted, lease := None, abort := Some(LeaseExpired))
                  else if over && r.state == Finished && accepts(r.localID) then r.(state := Acknowledged, lease := None)
                  else r)
            && (after.active == s.active || (after.active.None? && s.active.value in s.runs && after.runs[s.active.value].state in {Aborted, Acknowledged}))
  {
    var after := Swept(s, s.runs.Keys, now, accepts);
    assert after.runs[id] == SweptRecord(id, s.runs[id], now, accepts);
  }

  // ---------------------------------------------------------------- an expiry that comes late

  /** What the commit should do if the run were looked at again: expire it if it still is due. */
  function Rechecked(s: State, x: Expiry, now: int): State {
    var t := s.(expiring := s.expiring - multiset{x});
    if Expires(s, x, now) then Expire(t, x) else t
  }

  /** The commit does not look again.  It does what a second check would have allowed if and only
      if the run still is due, or is not retained any more, or is already as the expiry leaves
      it. */
  lemma LateExpiryIff(s: State, x: Expiry, now: int)
    requires x in s.expiring
    ensures Step(s, ExpiryCommit(x)) == Rechecked(s, x, now) <==>
            || Expires(s, x, now)
            || x.id !in s.runs
            || (s.runs[x.id] == ExpiredRecord(x, s.runs[x.id]) && s.active != Some(x.id))
  {
    var t := s.(expiring := s.expiring - multiset{x});
    hide Expires;
    if x.id in s.runs {
      var r := ExpiredRecord(x, s.runs[x.id]);
      assert Expire(t, x).runs == t.runs[x.id := r];
      assert t.runs[x.id := r] == t.runs <==> r == t.runs[x.id];
    }
  }

  /** A run is finished between the check and the commit of its expiry: it ends up aborted. */
  lemma FinishedRunIsAborted(s: State, id: string, r: Record, now: int)
    requires s.runs == map[id := r] && s.mutation.Idle? && s.expiring == multiset{}
    requires r.state == Started && LeaseOver(r, now) && !r.finishAccepted
    ensures var es := [ExpiryCheck(StartedExpiry(id), now), FinishCheck(id), FinishCommit, ExpiryCommit(StartedExpiry(id))];
            && ValidRun(s, es)
            && id in Run(s, es).runs && Run(s, es).runs[id].finishAccepted
            && Run(s, es).runs[id].state == Aborted && Run(s, es).runs[id].abort == Some(LeaseExpired)
  {
    var x := StartedExpiry(id);
    var done := r.(state := Finishing, lease := None, finishAccepted := true);
    var s1 := s.(expiring := multiset{x});
    var s2 := s1.(mutation := FinishPending(id));
    var s3 := s1.(runs := map[id := done]);
    CheckedAndFinished(s, id, r, now, s1, s2);
    FinishCommitted(s2, id, r, s3);
    ExpiredAnyway(s3, id, done);
    hide *;
    FourSteps(s, ExpiryCheck(x, now), FinishCheck(id), FinishCommit, ExpiryCommit(x));
  }

  lemma CheckedAndFinished(s: State, id: string, r: Record, now: int, s1: State, s2: State)
    requires s.runs == map[id := r] && s.mutation.Idle? && s.expiring == multiset{}
    requires r.state == Started && LeaseOver(r, now) && !r.finishAccepted
    requires s1 == s.(expiring := multiset{StartedExpiry(id)}) && s2 == s1.(mutation := FinishPending(id))
    ensures Enabled(s, ExpiryCheck(StartedExpiry(id), now)) && Step(s, ExpiryCheck(StartedExpiry(id), now)) == s1
    ensures Enabled(s1, FinishCheck(id)) && Step(s1, FinishCheck(id)) == s2
  {
  }

  lemma FinishCommitted(s2: State, id: string, r: Record, s3: State)
    requires s2.runs == map[id := r] && s2.mutation == FinishPending(id)
    requires s3 == s2.(runs := map[id := r.(state := Finishing, lease := None, finishAccepted := true)], mutation := Idle)
    ensures Enabled(s2, FinishCommit) && Step(s2, FinishCommit) == s3
  {
  }

  lemma ExpiredAnyway(s3: State, id: string, done: Record)
    requires s3.runs == map[id := done] && s3.expiring == multiset{StartedExpiry(id)}
    ensures Enabled(s3, ExpiryCommit(StartedExpiry(id)))
    ensures var t := Step(s3, ExpiryCommit(StartedExpiry(id)));
            id in t.runs && t.runs[id].finishAccepted == done.finishAccepted && t.runs[id].state == Aborted && t.runs[id].abort == Some(LeaseExpired)
  {
  }

  lemma FourSteps(s: State, a: Event, b: Event, c: Event, d: Event)
    requires Enabled(s, a) && Enabled(Step(s, a), b)
    requires Enabled(Step(Step(s, a), b), c) && Enabled(Step(Step(Step(s, a), b), c), d)
    ensures ValidRun(s, [a, b, c, d]) && Run(s, [a, b, c, d]) == Step(Step(Step(Step(s, a), b), c), d)
  {
    hide Enabled, Step;
    var t := Step(Step(s, a), b);
    assert [a, b, c, d][1..] == [b, c, d] && [b, c, d][1..] == [c, d];
    TwoSteps(t, c, d);
    assert ValidRun(Step(s, a), [b, c, d]) && Run(Step(s, a), [b, c, d]) == Run(t, [c, d]);
  }

  // ---------------------------------------------------------------- the peer

  class Peer {
    var runs: map<string, Record>
    var order: seq<string>
    var active: Option<string>
    var nonces: map<string, string>
    var nonceOrder: seq<string>
    var mutation: Mutation
    ghost var expiring: multiset<Expiry>

    ghost function View(): State
      reads this
    {
      State(runs, order, active, nonces, nonceOrder, mutation, expiring)
    }

    ghost predicate Valid()
      reads this
    {
      Inv(View())
    }

    constructor ()
      ensures View() == Initial && Valid()
    {
      runs, order, active, nonces, nonceOrder := map[], [], None, map[], [];
      mutation, expiring := Idle, multiset{};
      new;
      InitialInv();
    }

    method RememberNonceLocked(nonce: string, runID: string)
      modifies this`nonces, this`nonceOrder
      ensures (nonces, nonceOrder) == Remember(old(nonces), old(nonceOrder), nonce, runID)
    {
      if nonce !in nonces { nonceOrder := nonceOrder + [nonce]; }
      nonces := nonces[nonce := runID];
      while |nonceOrder| > NONCE_HISTORY_MAX
        invariant Forget(nonces, nonceOrder) == Remember(old(nonces), old(nonceOrder), nonce, runID)
        decreases |nonceOrder|
      {
        var oldest := nonceOrder[0];
        nonceOrder := nonceOrder[1..];
        nonces := nonces - {oldest};
      }
    }

    method FirstInactive() returns (index: nat)
      ensures index == Evictable(order, active)
    {
      index := 0;
      while index < |order| && Some(order[index]) == active
        invariant index <= |order| && index + Evictable(order[index..], active) == Evictable(order, active)
      {
        assert order[index..][1..] == order[index + 1..];
        index := index + 1;
      }
    }

    method PruneLocked()
      modifies this`runs, this`order
      ensures (runs, order) == Prune(old(runs), old(order), active)
    {
      while |order| > RETAINED_RUNS
        invariant Prune(runs, order, active) == Prune(old(runs), old(order), active)
        decreases |order|
      {
        var index := FirstInactive();
        if index == |order| { return; }
        var id := order[index];
        order := order[..index] + order[index + 1..];
        runs := runs - {id};
      }
    }

    method StartCheck(runID: string, nonce: string, leaseMs: int, preempt: bool) returns (decision: Decision)
      requires Valid() && mutation.Idle?
      modifies this`mutation
      ensures View() == Step(old(View()), Event.StartCheck(runID, nonce, leaseMs, preempt)) && Valid()
      ensures decision == Decide(old(View()), runID, nonce, preempt)
    {
      ghost var e := Event.StartCheck(runID, nonce, leaseMs, preempt);
      hide Inv;
      StepInv(View(), e);
      if nonce in nonces && nonces[nonce] != runID { return NonceMismatch; }
      if runID in runs {
        return if runs[runID].nonce != nonce then NonceMismatch else Replay(runs[runID]);
      }
      var preempted := None;
      if active.Some? && active.value in runs {
        if !preempt { return RunActive(active.value); }
        preempted := active;
      }
      mutation := StartPending(runID, nonce, LeaseLength(leaseMs), preempted);
      return Proceed(preempted);
    }

    method StartCommit(localID: string, state: RunState, now: int)
      requires Valid() && mutation.StartPending?
      modifies this`runs, this`order, this`active, this`nonces, this`nonceOrder, this`mutation
      ensures View() == Step(old(View()), Event.StartCommit(localID, state, now)) && Valid()
    {
      hide Inv, Prune, Remember;
      ghost var e := Event.StartCommit(localID, state, now);
      StepInv(View(), e);
      var runID, nonce, leaseMs := mutation.runID, mutation.nonce, mutation.leaseMs;
      if mutation.preempted.Some? && mutation.preempted.value in runs {
        var id := mutation.preempted.value;
        runs := runs[id := runs[id].(state := Aborted)];
      }
      runs := runs[runID := Record(localID, nonce, state, Some(now + leaseMs), leaseMs, false, None, false)];
      order := order + [runID];
      active := Some(runID);
      RememberNonceLocked(nonce, runID);
      PruneLocked();
      mutation := Idle;
    }

    /** True when the finish goes on to the controller. */
    method FinishCheck(runID: string) returns (pending: bool)
      requires Valid() && mutation.Idle?
      modifies this`mutation
      ensures View() == Step(old(View()), Event.FinishCheck(runID)) && Valid()
      ensures pending <==> mutation == FinishPending(runID)
      ensures pending <==> runID in runs && !runs[runID].finishAccepted && runs[runID].state != Aborted
    {
      hide Inv;
      StepInv(View(), Event.FinishCheck(runID));
      if runID !in runs { return false; }
      var r := runs[runID];
      if r.finishAccepted || r.state == Aborted { return false; }
      mutation := FinishPending(runID);
      return true;
    }

    method AbortCheck(runID: string) returns (pending: bool)
      requires Valid() && mutation.Idle?
      modifies this`mutation
      ensures View() == Step(old(View()), Event.AbortCheck(runID)) && Valid()
      ensures pending <==> mutation == AbortPending(runID)
      ensures pending <==> runID in runs && runs[runID].abort.None?
    {
      hide Inv;
      StepInv(View(), Event.AbortCheck(runID));
      if runID !in runs || runs[runID].abort.Some? { return false; }
      mutation := AbortPending(runID);
      return true;
    }

    method AckCheck(runID: string) returns (pending: bool)
      requires Valid() && mutation.Idle?
      modifies this`mutation
      ensures View() == Step(old(View()), Event.AckCheck(runID)) && Valid()
      ensures pending <==> mutation == AckPending(runID)
      ensures pending <==> runID in runs
    {
      hide Inv;
      StepInv(View(), Event.AckCheck(runID));
      if runID !in runs { return false; }
      mutation := AckPending(runID);
      return true;
    }

    method ControllerRefused()
      requires Valid() && !mutation.Idle?
      modifies this`mutation
      ensures View() == Step(old(View()), Event.ControllerRefused) && Valid()
    {
      hide Inv;
      StepInv(View(), Event.ControllerRefused);
      mutation := Idle;
    }

    /** Only a started run's lease can be renewed. */
    method Renew(runID: string, now: int) returns (renewed: bool)
      requires Valid()
      modifies this`runs
      ensures View() == Step(old(View()), Event.Renew(runID, now)) && Valid()
      ensures renewed <==> runID in old(runs) && old(runs)[runID].state == Started
    {
      hide Inv;
      StepInv(View(), Event.Renew(runID, now));
      if runID !in runs || runs[runID].state != Started { return false; }
      var r := runs[runID];
      runs := runs[runID := r.(lease := Some(now + r.leaseMs))];
      return true;
    }

    method StatusRead(runID: string, state: RunState)
      requires Valid()
      modifies this`runs
      ensures View() == Step(old(View()), Event.StatusRead(runID, state)) && Valid()
    {
      hide Inv;
      StepInv(View(), Event.StatusRead(runID, state));
      if runID in runs { runs := runs[runID := runs[runID].(state := state)]; }
    }

    /** The snapshot is kept only for the run it was built for. */
    method SnapshotBuilt(runID: string, localID: string, state: RunState, now: int)
      requires Valid()
      modifies this`runs
      ensures View() == Step(old(View()), Event.SnapshotBuilt(runID, localID, state, now)) && Valid()
    {
      hide Inv;
      StepInv(View(), Event.SnapshotBuilt(runID, localID, state, now));
      if runID !in runs || runs[runID].localID != localID { return; }
      runs := runs[runID := runs[runID].(state := state, snapshotReady := true, lease := Some(now + ACK_LEASE_MS))];
    }

    method FinishCommit()
      requires Valid() && mutation.FinishPending?
      modifies this`runs, this`mutation
      ensures View() == Step(old(View()), Event.FinishCommit) && Valid()
    {
      StepInv(View(), Event.FinishCommit);
      var id := mutation.runID;
      runs := runs[id := runs[id].(state := Finishing, lease := None, finishAccepted := true)];
      mutation := Idle;
      hide Inv;
    }

    method AbortCommit()
      requires Valid() && mutation.AbortPending?
      modifies this`runs, this`active, this`mutation
      ensures View() == Step(old(View()), Event.AbortCommit) && Valid()
    {
      StepInv(View(), Event.AbortCommit);
      var id := mutation.runID;
      runs := runs[id := runs[id].(state := Aborted, lease := None, abort := Some(Requested), snapshotReady := false)];
      if active == Some(id) { active := None; }
      mutation := Idle;
      hide Inv;
    }

    method AckCommit()
      requires Valid() && mutation.AckPending?
      modifies this`runs, this`active, this`mutation
      ensures View() == Step(old(View()), Event.AckCommit) && Valid()
    {
      StepInv(View(), Event.AckCommit);
      var id := mutation.runID;
      runs := runs[id := runs[id].(state := Acknowledged, lease := None)];
      if active == Some(id) { active := None; }
      mutation := Idle;
      hide Inv;
    }

    method ExpireStarted(id: string, now: int)
      requires Valid()
      modifies this`runs, this`active
      ensures forall accepts :: View() == ExpireOne(old(View()), StartedExpiry(id), now, accepts)
      ensures Valid()
    {
      hide Inv;
      ExpireOneKeepsInv(View(), StartedExpiry(id), now, x => true);
      if id !in runs { return; }
      var r := runs[id];
      if (r.lease.Some? && r.lease.value > now) || (r.state != Started && r.state != Starting) { return; }
      runs := runs[id := r.(state := Aborted, lease := None, abort := Some(LeaseExpired))];
      if active == Some(id) { active := None; }
    }

    method ExpireFinished(id: string, now: int, accepts: string -> bool)
      requires Valid()
      modifies this`runs, this`active
      ensures View() == ExpireOne(old(View()), FinishedExpiry(id), now, accepts) && Valid()
    {
      hide Inv;
      ExpireOneKeepsInv(View(), FinishedExpiry(id), now, accepts);
      if id !in runs { return; }
      var r := runs[id];
      if r.state != Finished || (r.lease.Some? && r.lease.value > now) || !accepts(r.localID) { return; }
      runs := runs[id := r.(state := Acknowledged, lease := None)];
      if active == Some(id) { active := None; }
    }

    /** The runs whose lease has run out: those to abort and those to acknowledge. */
    method Collect(now: int) returns (aborts: set<string>, acks: set<string>)
      ensures forall id :: id in aborts <==> id in runs && ToAbort(runs[id], now)
      ensures forall id :: id in acks <==> id in runs && ToAck(runs[id], now)
    {
      aborts, acks := {}, {};
      var todo := runs.Keys;
      while todo != {}
        invariant todo <= runs.Keys
        invariant forall id :: id in aborts <==> id in runs && id !in todo && ToAbort(runs[id], now)
        invariant forall id :: id in acks <==> id in runs && id !in todo && ToAck(runs[id], now)
        decreases |todo|
      {
        var id :| id in todo;
        todo := todo - {id};
        var r := runs[id];
        if r.lease.Some? && r.lease.value <= now {
          match r.state
          case Starting => aborts := aborts + {id};
          case Started => aborts := aborts + {id};
          case Finished => acks := acks + {id};
          case _ =>
        }
      }
    }

    method AbortAll(ids: set<string>, now: int, ghost s: State, ghost accepts: string -> bool)
      requires Valid() && View() == s && forall id :: id in ids ==> id in s.runs && ToAbort(s.runs[id], now)
      modifies this`runs, this`active
      ensures Valid() && View() == Swept(s, ids, now, accepts)
    {
      hide *;
      SweptNothing(s, now, accepts);
      ghost var done: set<string> := {};
      var todo := ids;
      while todo != {}
        invariant Valid() && View() == Swept(s, done, now, accepts) && todo <= ids && done == ids - todo
        decreases |todo|
      {
        var id :| id in todo;
        Kinds(id, s.runs[id], now);
        SweptOneMore(s, done, id, now, accepts);
        ExpireStarted(id, now);
        todo := todo - {id};
        done := done + {id};
      }
      assert ids - todo == ids;
    }

    method AckAll(ids: set<string>, now: int, accepts: string -> bool, ghost s: State, ghost aborted: set<string>)
      requires Valid() && View() == Swept(s, aborted, now, accepts) && aborted !! ids
      requires forall id :: id in ids ==> id in s.runs && ToAck(s.runs[id], now)
      modifies this`runs, this`active
      ensures Valid() && View() == Swept(s, aborted + ids, now, accepts)
    {
      hide *;
      ghost var done := aborted;
      var todo := ids;
      while todo != {}
        invariant Valid() && View() == Swept(s, done, now, accepts) && todo <= ids && done == aborted + (ids - todo)
        decreases |todo|
      {
        var id :| id in todo;
        Kinds(id, s.runs[id], now);
        SweptOneMore(s, done, id, now, accepts);
        ExpireFinished(id, now, accepts);
        todo := todo - {id};
        done := done + {id};
      }
      assert ids - todo == ids;
    }

    method Sweep(now: int, accepts: string -> bool)
      requires Valid()
      modifies this`runs, this`active
      ensures View() == Swept(old(View()), old(runs).Keys, now, accepts) && Valid()
    {
      hide Inv, Swept, IsSwept;
      ghost var s := View();
      var aborts, acks := Collect(now);
      PickedAll(s, aborts + acks, now, accepts);
      AbortAll(aborts, now, s, accepts);
      AckAll(acks, now, accepts, s, aborts);
    }
  }

  lemma Kinds(id: string, r: Record, now: int)
    ensures ToAbort(r, now) ==> ExpiryOf(id, r) == StartedExpiry(id)
    ensures ToAck(r, now) ==> ExpiryOf(id, r) == FinishedExpiry(id)
  {
  }

  lemma SweptNothing(s: State, now: int, accepts: string -> bool)
    ensures Swept(s, {}, now, accepts) == s
  {
    assert Swept(s, {}, now, accepts).runs == s.runs;
  }

  lemma PickedAll(s: State, picked: set<string>, now: int, accepts: string -> bool)
    requires forall id :: id in s.runs && (ToAbort(s.runs[id], now) || ToAck(s.runs[id], now)) ==> id in picked
    ensures Swept(s, picked, now, accepts) == Swept(s, s.runs.Keys, now, accepts)
  {
    SweptPicked(s, picked, now, accepts);
  }
}
