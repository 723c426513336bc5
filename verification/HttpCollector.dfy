/** The HTTP collector as an object (httpstats/generation.go, httpstats/httpstats.go).  Each
    method is the code of one caller, proved to perform the steps of `HttpGenerations` in the
    order the source takes its locks; steps that do not apply leave the state unchanged.
 */
module HttpCollector {
  import opened Wrappers
  import Counting
  import H = HttpGenerations

  class Collector {
    var gens: seq<H.Gen>
    var trackers: map<nat, H.Req>
    var connActive: int
    var connTotal: nat
    var epoch: nat
    var begun: Option<H.Memo>
    var frozen: Option<H.Memo>

    function View(): H.Sys
      reads this
    {
      H.Sys(gens, trackers, connActive, connTotal, epoch, begun, frozen)
    }

    ghost predicate Valid()
      reads this
    {
      H.Inv(View())
    }

    constructor ()
      ensures Valid() && View() == H.INIT
    {
      gens, trackers, connActive, connTotal := [H.FRESH_GEN], map[], 0, 0;
      epoch, begun, frozen := 0, None, None;
      H.InitInv();
    }

    /** Pins a request to the current generation. */
    method Begin(r: nat)
      requires Valid() && r !in trackers
      modifies this`gens, this`trackers
      ensures Valid() && View() == H.Step(old(View()), H.Begin(r))
      ensures r in trackers && trackers[r].gen == |gens| - 1 && H.IsPinned(trackers[r])
    {
      H.StepKeepsInv(View(), H.Begin(r));
      hide H.Inv;
      var last := |gens| - 1;
      gens := gens[last := gens[last].(inFlight := gens[last].inFlight + 1)];
      trackers := trackers[r := H.Req(last, H.Handling, false, false, false, false)];
    }

    /** Ends the in-flight status of a request and lets its generation settle. */
    method LeaveGeneration(r: nat, pc: H.Pc)
      requires gens != [] && r in trackers && trackers[r].gen < |gens|
      modifies this`gens, this`trackers
      ensures View() == H.Leave(old(View()), r, pc)
    {
      var g := trackers[r].gen;
      var v := gens[g].(inFlight := gens[g].inFlight - 1);
      if v.sealed && v.inFlight == 0 {
        v := v.(done := true);
      }
      gens := gens[g := v];
      trackers := trackers[r := trackers[r].(pc := pc)];
    }

    /** connectionTracker.start: confirms a long-lived connection.  The request is released from
        its generation at once, and only the first confirmation counts. */
    method Confirm(r: nat, hijack: bool)
      requires Valid() && r in trackers && trackers[r].pc == H.Handling
      modifies this`gens, this`trackers, this`connActive
      ensures Valid()
      ensures View() == H.Step(H.Step(H.Step(old(View()), H.Confirm(r, hijack)), H.ConnStart(r)), H.Unpin(r))
      ensures r in trackers && trackers[r].long && trackers[r].pc == H.Handling && !H.IsPinned(trackers[r])
      ensures trackers[r].hijacked <==> hijack || (old(trackers[r].long) && old(trackers[r].hijacked))
      ensures connActive == old(connActive) + if old(trackers[r].long) then 0 else 1
    {
      hide H.Inv, H.Step;
      Facts(View(), r);
      ConfirmSteps(View(), r, hijack);
      if trackers[r].long {
        if hijack {
          trackers := trackers[r := trackers[r].(hijacked := true)];
        }
        return;
      }
      trackers := trackers[r := trackers[r].(long := true, hijacked := hijack, pc := H.Confirming)];
      connActive := connActive + 1;
      trackers := trackers[r := trackers[r].(pc := H.Counted)];
      assert trackers == old(trackers)[r := trackers[r]];
      LeaveGeneration(r, H.Handling);
    }

    method FinishConnection()
      modifies this`connActive, this`connTotal
      ensures connActive == old(connActive) - 1 && connTotal == old(connTotal) + 1
    {
      connActive := connActive - 1;
      connTotal := connTotal + 1;
    }

    /** The middleware's exit path.  An ordinary request is recorded before its generation may
        settle; a streaming response is counted as a finished connection; a hijacked one is left
        to the goroutine that owns it.  Either way nothing of this request stays in flight. */
    method HandlerReturned(r: nat)
      requires Valid() && r in trackers && trackers[r].pc == H.Handling
      modifies this
      ensures Valid()
      ensures View() == H.Step(H.Step(H.Step(H.Step(old(View()), H.Return(r)), H.Observe(r)), H.Settle(r)), H.ConnFinish(r))
      ensures r in trackers && trackers[r].pc == H.Gone && trackers[r].gen < |gens|
      ensures var g, q := trackers[r].gen, old(trackers[r]);
              var ends := q.long && !q.hijacked && !q.finished;
              && trackers[r].long == q.long && g == q.gen && g < |old(gens)|
              && gens[g].table == (if q.long then old(gens)[g].table else old(gens)[g].table + [r])
              && connTotal == old(connTotal) + (if ends then 1 else 0)
              && connActive == old(connActive) - (if ends then 1 else 0)
    {
      hide H.Inv, H.Step;
      Facts(View(), r);
      ReturnSteps(View(), r);
      var q := trackers[r];
      if !q.long {
        trackers := trackers[r := q.(pc := H.Recording)];
        gens := gens[q.gen := gens[q.gen].(table := gens[q.gen].table + [r])];
        trackers := trackers[r := trackers[r].(pc := H.Recorded)];
        assert trackers == old(trackers)[r := q.(pc := H.Recorded)];
        LeaveGeneration(r, H.Gone);
      } else if q.hijacked || q.finished {
        trackers := trackers[r := q.(pc := H.Gone)];
      } else {
        trackers := trackers[r := q.(finished := true, pc := H.Closing)];
        FinishConnection();
        trackers := trackers[r := trackers[r].(pc := H.Gone)];
        assert trackers == old(trackers)[r := trackers[r]];
      }
    }

    /** The owner of a hijacked connection closes it; a second close changes nothing. */
    method HijackedClosed(r: nat)
      requires Valid() && r in trackers && trackers[r].hijacked && trackers[r].pc in {H.Handling, H.Gone}
      requires !trackers[r].hangup
      modifies this`trackers, this`connActive, this`connTotal
      ensures Valid() && View() == H.Step(H.Step(old(View()), H.HangUp(r)), H.HangUpFinish(r))
      ensures connTotal == old(connTotal) + (if old(trackers[r].finished) then 0 else 1)
      ensures connActive == old(connActive) - if old(trackers[r].finished) then 0 else 1
    {
      hide H.Inv, H.Step;
      Facts(View(), r);
      HangUpSteps(View(), r);
      if trackers[r].finished { return; }
      trackers := trackers[r := trackers[r].(finished := true, hangup := true)];
      FinishConnection();
      trackers := trackers[r := trackers[r].(hangup := false)];
      assert trackers == old(trackers)[r := trackers[r]];
    }

    /** Installs a fresh generation and seals the previous one with its connection totals. */
    method SwapLocked() returns (closed: nat)
      requires gens != []
      modifies this`gens, this`connTotal
      ensures View() == H.Swap(old(View())) && closed == |old(gens)| - 1
      ensures |gens| == |old(gens)| + 1 && gens[closed].sealed && gens[closed].connTotal == old(connTotal) && connTotal == 0
    {
      closed := |gens| - 1;
      var closing := gens[closed].(connTotal := connTotal, sealed := true);
      connTotal := 0;
      if closing.inFlight == 0 {
        closing := closing.(done := true);
      }
      gens := gens[closed := closing] + [H.FRESH_GEN];
    }

    method Boundary(freeze: bool, runID: string, ep: nat, live: bool) returns (reply: H.Reply)
      requires Valid()
      modifies this
      ensures Valid() && gens != [] && View() == H.Step(old(View()), H.Boundary(freeze, runID, ep, live))
      ensures old(gens) != [] && reply == H.BoundaryReply(old(View()), freeze, runID, ep, live)
    {
      H.StepKeepsInv(View(), H.Boundary(freeze, runID, ep, live));
      BoundaryStep(View(), freeze, runID, ep, live);
      assert gens != [];
      hide H.Inv, H.Step, H.Swap;
      var memo := if freeze then frozen else begun;
      if memo.Some? && memo.value.runID == runID && memo.value.epoch == ep {
        return H.Committed(memo.value.gen);
      }
      if ep < epoch { return H.StaleEpoch; }
      if !live { return H.ContextExpired; }
      var closed := SwapLocked();
      epoch := ep;
      if freeze {
        frozen := Some(H.Memo(runID, ep, closed));
      } else {
        begun := Some(H.Memo(runID, ep, closed));
      }
      return H.Committed(closed);
    }

    /** Whether a drain of the handle would return at once: nothing is pinned any more. */
    method Settled(g: nat) returns (ok: bool)
      requires Valid() && g < |gens|
      ensures ok <==> gens[g].sealed && Counting.Count(trackers, H.PinnedTo(g)) == 0
    {
      assert H.GenInv(trackers, gens, g);
      ok := gens[g].done;
    }

    method Release(g: nat)
      requires Valid() && g < |gens| && gens[g].sealed
      modifies this`gens
      ensures Valid() && View() == H.Step(H.Step(old(View()), H.ReleaseMark(g)), H.ReleaseClear(g))
      ensures g < |gens| && gens[g].released && (!old(gens[g].released) && !old(gens[g].cleared) ==> gens[g].table == [])
    {
      hide H.Inv, H.Step;
      GenFacts(View(), g);
      ReleaseSteps(View(), g);
      gens := gens[g := gens[g].(released := true)];
      if !gens[g].cleared {
        gens := gens[g := gens[g].(cleared := true, table := [])];
      }
      assert gens == old(gens)[g := gens[g]];
    }
  }

  lemma Facts(s: H.Sys, r: nat)
    requires H.Inv(s) && r in s.reqs
    ensures s.gens != [] && s.reqs[r].gen < |s.gens| && H.ReqInv(s.reqs[r])
  {
  }

  /** Three steps in a row, through the states they pass. */
  lemma ThreeKeepInv(s: H.Sys, e1: H.Event, e2: H.Event, e3: H.Event)
    requires H.Inv(s)
    ensures s.gens != [] && H.Inv(H.Step(H.Step(H.Step(s, e1), e2), e3))
  {
    H.StepKeepsInv(s, e1);
    H.StepKeepsInv(H.Step(s, e1), e2);
    H.StepKeepsInv(H.Step(H.Step(s, e1), e2), e3);
    hide H.Step;
  }

  lemma FirstConfirmation(s: H.Sys, r: nat, hijack: bool)
    requires s.gens != [] && H.At(s, r, H.Handling) && !s.reqs[r].long
    ensures H.Step(H.Step(s, H.Confirm(r, hijack)), H.ConnStart(r))
         == s.(reqs := s.reqs[r := s.reqs[r].(long := true, hijacked := hijack, pc := H.Counted)],
               connActive := s.connActive + 1)
  {
    var q := s.reqs[r].(long := true, hijacked := hijack, pc := H.Confirming);
    var s1 := H.Step(s, H.Confirm(r, hijack));
    assert s1 == s.(reqs := s.reqs[r := q]);
    assert s1.reqs[r := q.(pc := H.Counted)] == s.reqs[r := q.(pc := H.Counted)];
  }

  lemma UnpinStep(s: H.Sys, r: nat)
    requires s.gens != [] && H.At(s, r, H.Counted)
    ensures H.Step(s, H.Unpin(r)) == H.Leave(s, r, H.Handling)
  {
  }

  lemma LaterConfirmation(s: H.Sys, r: nat, hijack: bool)
    requires s.gens != [] && H.At(s, r, H.Handling) && s.reqs[r].long
    ensures H.Step(H.Step(H.Step(s, H.Confirm(r, hijack)), H.ConnStart(r)), H.Unpin(r))
         == s.(reqs := s.reqs[r := s.reqs[r].(hijacked := s.reqs[r].hijacked || hijack)])
  {
    var s1 := H.Step(s, H.Confirm(r, hijack));
    assert !H.At(s1, r, H.Confirming) && !H.At(s1, r, H.Counted);
  }

  lemma ConfirmSteps(s: H.Sys, r: nat, hijack: bool)
    requires H.Inv(s) && s.gens != [] && H.At(s, r, H.Handling)
    ensures var q := s.reqs[r];
            var t := H.Step(H.Step(H.Step(s, H.Confirm(r, hijack)), H.ConnStart(r)), H.Unpin(r));
            && H.Inv(t)
            && t == if q.long then s.(reqs := s.reqs[r := q.(hijacked := q.hijacked || hijack)])
                    else H.Leave(s.(reqs := s.reqs[r := q.(long := true, hijacked := hijack, pc := H.Counted)],
                                    connActive := s.connActive + 1), r, H.Handling)
  {
    hide H.Inv, H.Step, H.Leave;
    ThreeKeepInv(s, H.Confirm(r, hijack), H.ConnStart(r), H.Unpin(r));
    if s.reqs[r].long {
      LaterConfirmation(s, r, hijack);
    } else {
      FirstConfirmation(s, r, hijack);
      UnpinStep(H.Step(H.Step(s, H.Confirm(r, hijack)), H.ConnStart(r)), r);
    }
  }

  lemma OrdinaryReturn(s: H.Sys, r: nat)
    requires s.gens != [] && H.At(s, r, H.Handling) && !s.reqs[r].long
    ensures var g := s.reqs[r].gen;
            H.Step(H.Step(s, H.Return(r)), H.Observe(r)) ==
            s.(gens := s.gens[g := s.gens[g].(table := s.gens[g].table + [r])],
               reqs := s.reqs[r := s.reqs[r].(pc := H.Recorded)])
  {
    var q := s.reqs[r];
    var s1 := H.Step(s, H.Return(r));
    assert s1 == s.(reqs := s.reqs[r := q.(pc := H.Recording)]);
    assert s1.reqs[r := q.(pc := H.Recorded)] == s.reqs[r := q.(pc := H.Recorded)];
  }

  lemma SettleStep(s: H.Sys, r: nat)
    requires s.gens != [] && H.At(s, r, H.Recorded)
    ensures H.Step(H.Step(s, H.Settle(r)), H.ConnFinish(r)) == H.Leave(s, r, H.Gone)
  {
    assert !H.At(H.Leave(s, r, H.Gone), r, H.Closing);
  }

  lemma LongReturn(s: H.Sys, r: nat)
    requires s.gens != [] && H.At(s, r, H.Handling) && s.reqs[r].long
    ensures H.Step(H.Step(H.Step(s, H.Return(r)), H.Observe(r)), H.Settle(r))
         == s.(reqs := s.reqs[r := H.ReturnReq(s.reqs[r])])
  {
    var s1 := H.Step(s, H.Return(r));
    assert !H.At(s1, r, H.Recording) && !H.At(s1, r, H.Recorded);
  }

  lemma ReturnSteps(s: H.Sys, r: nat)
    requires H.Inv(s) && s.gens != [] && H.At(s, r, H.Handling)
    ensures var q := s.reqs[r];
            var t := H.Step(H.Step(H.Step(H.Step(s, H.Return(r)), H.Observe(r)), H.Settle(r)), H.ConnFinish(r));
            && H.Inv(t)
            && t == if !q.long then
                      H.Leave(s.(gens := s.gens[q.gen := s.gens[q.gen].(table := s.gens[q.gen].table + [r])],
                                 reqs := s.reqs[r := q.(pc := H.Recorded)]), r, H.Gone)
                    else if q.hijacked || q.finished then s.(reqs := s.reqs[r := q.(pc := H.Gone)])
                    else s.(reqs := s.reqs[r := q.(finished := true, pc := H.Gone)],
                            connActive := s.connActive - 1, connTotal := s.connTotal + 1)
  {
    ThreeKeepInv(s, H.Return(r), H.Observe(r), H.Settle(r));
    var s3 := H.Step(H.Step(H.Step(s, H.Return(r)), H.Observe(r)), H.Settle(r));
    H.StepKeepsInv(s3, H.ConnFinish(r));
    var q := s.reqs[r];
    if !q.long {
      hide H.Inv, H.Step, H.Leave;
      OrdinaryReturn(s, r);
      SettleStep(H.Step(H.Step(s, H.Return(r)), H.Observe(r)), r);
    } else {
      LongReturn(s, r);
      hide H.Inv;
      StreamingClosed(s3, r);
    }
  }

  lemma StreamingClosed(s: H.Sys, r: nat)
    requires s.gens != [] && r in s.reqs && s.reqs[r].gen < |s.gens|
    ensures H.Step(s, H.ConnFinish(r)) ==
            if s.reqs[r].pc == H.Closing then
              s.(reqs := s.reqs[r := s.reqs[r].(pc := H.Gone)], connActive := s.connActive - 1, connTotal := s.connTotal + 1)
            else s
  {
  }

  lemma HangUpEffect(s: H.Sys, r: nat)
    requires s.gens != [] && r in s.reqs && s.reqs[r].hijacked && s.reqs[r].pc in {H.Handling, H.Gone} && !s.reqs[r].hangup
    ensures H.Step(H.Step(s, H.HangUp(r)), H.HangUpFinish(r)) ==
            if s.reqs[r].finished then s
            else s.(reqs := s.reqs[r := s.reqs[r].(finished := true)],
                    connActive := s.connActive - 1, connTotal := s.connTotal + 1)
  {
    var q := s.reqs[r];
    var s1 := H.Step(s, H.HangUp(r));
    if !q.finished {
      assert s1.reqs[r := s1.reqs[r].(hangup := false)] == s.reqs[r := q.(finished := true)];
    }
  }

  lemma HangUpSteps(s: H.Sys, r: nat)
    requires H.Inv(s) && s.gens != []
    requires r in s.reqs && s.reqs[r].hijacked && s.reqs[r].pc in {H.Handling, H.Gone} && !s.reqs[r].hangup
    ensures var q := s.reqs[r];
            var t := H.Step(H.Step(s, H.HangUp(r)), H.HangUpFinish(r));
            && H.Inv(t)
            && t == if q.finished then s
                    else s.(reqs := s.reqs[r := q.(finished := true)], connActive := s.connActive - 1, connTotal := s.connTotal + 1)
  {
    hide *;
    H.StepKeepsInv(s, H.HangUp(r));
    H.StepKeepsInv(H.Step(s, H.HangUp(r)), H.HangUpFinish(r));
    HangUpEffect(s, r);
  }

  lemma ReleaseSteps(s: H.Sys, g: nat)
    requires H.Inv(s) && g < |s.gens| && s.gens[g].sealed
    ensures var t := H.Step(H.Step(s, H.ReleaseMark(g)), H.ReleaseClear(g));
            && H.Inv(t)
            && t == s.(gens := s.gens[g := if s.gens[g].cleared then s.gens[g].(released := true)
                                           else s.gens[g].(released := true, cleared := true, table := [])])
  {
    var s1 := H.Step(s, H.ReleaseMark(g));
    H.StepKeepsInv(s, H.ReleaseMark(g));
    H.StepKeepsInv(s1, H.ReleaseClear(g));
    hide H.Inv;
  }

  lemma BoundaryStep(s: H.Sys, freeze: bool, runID: string, ep: nat, live: bool)
    requires s.gens != []
    ensures H.Step(s, H.Boundary(freeze, runID, ep, live)) == H.TakeBoundary(s, freeze, runID, ep, live)
  {
  }

  lemma GenFacts(s: H.Sys, g: nat)
    requires H.Inv(s) && g < |s.gens|
    ensures s.gens[g].cleared ==> s.gens[g].released
  {
    assert H.GenInv(s.reqs, s.gens, g);
  }
}
