/** The phase timer of an outgoing request (clientstats/clientstats.go).

    Several attempts of one phase may overlap. The timer keeps a count of open operations, the
    instant the count last left zero, and the total of the closed stretches. Time is a number of
    nanoseconds; each step carries the reading of the clock taken under the lock.
 */
module ClientPhase {

  datatype Event = Begin(at: int) | End(at: int)

  datatype Phase = Phase(active: nat, start: int, total: int)

  const Idle := Phase(0, 0, 0)

  function Step(p: Phase, e: Event): Phase {
    match e
    case Begin(at) => Phase(p.active + 1, if p.active == 0 then at else p.start, p.total)
    case End(at) =>
      if p.active == 0 then p
      else if p.active == 1 then Phase(0, 0, p.total + (at - p.start))
      else p.(active := p.active - 1)
  }

  function Run(es: seq<Event>): Phase {
    if es == [] then Idle else Step(Run(es[..|es| - 1]), es[|es| - 1])
  }

  function Elapsed(p: Phase, now: int): int {
    if p.active > 0 then p.total + (now - p.start) else p.total
  }

  // ---------------------------------------------------------------- the reference

  /** Begins less ends. */
  function Net(es: seq<Event>): int {
    if es == [] then 0 else Net(es[..|es| - 1]) + if es[|es| - 1].Begin? then 1 else -1
  }

  /** Some operation is open after these events: from some point on there were more begins than
      ends, so the ends cannot have closed them all. Ends with nothing to close do not count
      against later begins. */
  ghost predicate SomethingOpen(es: seq<Event>) {
    exists j :: 0 <= j <= |es| && Net(es[j..]) > 0
  }

  /** The events up to the instant `t`. */
  function Until(es: seq<Event>, t: int): seq<Event> {
    if es == [] || es[|es| - 1].at <= t then es else Until(es[..|es| - 1], t)
  }

  ghost predicate BusyAt(es: seq<Event>, t: int) {
    SomethingOpen(Until(es, t))
  }

  /** How many of the instants from `lo` up to `hi` have an operation open. */
  ghost function Busy(es: seq<Event>, lo: int, hi: int): nat
    requires lo <= hi
    decreases hi - lo
  {
    if lo == hi then 0 else Busy(es, lo, hi - 1) + if BusyAt(es, hi - 1) then 1 else 0
  }

  ghost predicate Ordered(es: seq<Event>) {
    forall i, j :: 0 <= i <= j < |es| ==> es[i].at <= es[j].at
  }

  /** The events are in order and none is before `lo`. */
  ghost predicate Since(es: seq<Event>, lo: int) {
    Ordered(es) && forall i :: 0 <= i < |es| ==> lo <= es[i].at
  }

  ghost predicate NoneAfter(es: seq<Event>, now: int) {
    forall i :: 0 <= i < |es| ==> es[i].at <= now
  }

  /** From `now` to the last event either always or never an operation is open, as after it. */
  ghost predicate SteadyAfter(es: seq<Event>, now: int) {
    es != [] && forall t :: now <= t < es[|es| - 1].at ==> (BusyAt(es, t) <==> Run(es).active > 0)
  }

  // ---------------------------------------------------------------- the open operations

  /** The count is the largest surplus of begins over any final stretch of the events. */
  lemma {:induction false} ActiveIsSurplus(es: seq<Event>)
    ensures forall j :: 0 <= j <= |es| ==> Net(es[j..]) <= Run(es).active
    ensures exists j :: 0 <= j <= |es| && Net(es[j..]) == Run(es).active
  {
    if es == [] {
      assert Net(es[0..]) == 0;
    } else {
      var n := |es| - 1;
      var front := es[..n];
      ActiveIsSurplus(front);
      var gain := if es[n].Begin? then 1 else -1;
      forall j | 0 <= j <= n ensures Net(es[j..]) == Net(front[j..]) + gain {
        assert es[j..][..n - j] == front[j..];
      }
      assert es[|es|..] == [];
      var k :| 0 <= k <= n && Net(front[k..]) == Run(front).active;
      if Run(front).active == 0 && es[n].End? {
        assert Net(es[|es|..]) == Run(es).active;
      } else {
        assert Net(es[k..]) == Run(es).active;
      }
    }
  }

  lemma OpenIff(es: seq<Event>)
    ensures SomethingOpen(es) <==> Run(es).active > 0
  {
    ActiveIsSurplus(es);
  }

  // ---------------------------------------------------------------- the measure

  lemma {:induction false} UntilAll(es: seq<Event>, t: int)
    requires es == [] || es[|es| - 1].at <= t
    ensures Until(es, t) == es
  {
  }

  lemma UntilSnoc(es: seq<Event>, e: Event, t: int)
    requires t < e.at
    ensures Until(es + [e], t) == Until(es, t)
  {
    assert (es + [e])[..|es|] == es;
  }

  lemma {:induction false} BusyBefore(es: seq<Event>, e: Event, lo: int, hi: int)
    requires lo <= hi <= e.at
    ensures Busy(es + [e], lo, hi) == Busy(es, lo, hi)
    decreases hi - lo
  {
    if lo < hi {
      BusyBefore(es, e, lo, hi - 1);
      UntilSnoc(es, e, hi - 1);
    }
  }

  lemma {:induction false} BusyAfter(es: seq<Event>, lo: int, mid: int, hi: int)
    requires lo <= mid <= hi && (es == [] || es[|es| - 1].at <= mid)
    ensures Busy(es, lo, hi) == Busy(es, lo, mid) + if SomethingOpen(es) then hi - mid else 0
    decreases hi - mid
  {
    if mid < hi {
      BusyAfter(es, lo, mid, hi - 1);
      UntilAll(es, hi - 1);
    }
  }

  lemma {:induction false} NothingBusy(lo: int, hi: int)
    requires lo <= hi
    ensures Busy([], lo, hi) == 0
    decreases hi - lo
  {
    if lo < hi {
      NothingBusy(lo, hi - 1);
      OpenIff([]);
      UntilAll([], hi - 1);
    }
  }

  lemma StepElapsed(p: Phase, e: Event, now: int)
    ensures Elapsed(Step(p, e), now) == Elapsed(p, e.at) + if Step(p, e).active > 0 then now - e.at else 0
  {
  }

  /** For every sequence of begins and ends on a clock that does not go back, unmatched ends
      included, the time reported at `now` is the number of instants up to `now` at which some
      operation was open: overlapping attempts are counted once. */
  lemma {:induction false} ElapsedIsUnion(es: seq<Event>, lo: int, now: int)
    requires Since(es, lo) && NoneAfter(es, now) && lo <= now
    ensures Elapsed(Run(es), now) == Busy(es, lo, now)
  {
    if es == [] {
      NothingBusy(lo, now);
    } else {
      var front, e := es[..|es| - 1], es[|es| - 1];
      assert es == front + [e];
      forall i | 0 <= i < |front| ensures lo <= front[i].at <= e.at {
        assert front[i] == es[i];
      }
      assert Ordered(front);
      hide Step, Elapsed, Busy, SomethingOpen, Ordered;
      ElapsedIsUnion(front, lo, e.at);
      StepElapsed(Run(front), e, now);
      BusyBefore(front, e, lo, e.at);
      BusyAfter(es, lo, e.at, now);
      OpenIff(es);
    }
  }

  /** Reading the timer never reports more than the time that has passed. */
  lemma ElapsedIsBounded(es: seq<Event>, lo: int, now: int)
    requires Since(es, lo) && NoneAfter(es, now) && lo <= now
    ensures 0 <= Elapsed(Run(es), now) <= now - lo
  {
    ElapsedIsUnion(es, lo, now);
    BusyBounded(es, lo, now);
  }

  lemma {:induction false} BusyBounded(es: seq<Event>, lo: int, hi: int)
    requires lo <= hi
    ensures Busy(es, lo, hi) <= hi - lo
    decreases hi - lo
  {
    if lo < hi { BusyBounded(es, lo, hi - 1); }
  }

  lemma {:induction false} BusySplit(es: seq<Event>, lo: int, mid: int, hi: int)
    requires lo <= mid <= hi
    ensures Busy(es, lo, hi) == Busy(es, lo, mid) + Busy(es, mid, hi)
    decreases hi - mid
  {
    if mid < hi { BusySplit(es, lo, mid, hi - 1); }
  }

  lemma {:induction false} BusyExtremes(es: seq<Event>, lo: int, hi: int)
    requires lo <= hi
    ensures Busy(es, lo, hi) <= hi - lo
    ensures Busy(es, lo, hi) == hi - lo <==> forall t :: lo <= t < hi ==> BusyAt(es, t)
    ensures Busy(es, lo, hi) == 0 <==> forall t :: lo <= t < hi ==> !BusyAt(es, t)
    decreases hi - lo
  {
    hide BusyAt;
    if lo < hi {
      BusyExtremes(es, lo, hi - 1);
    }
  }

  /** A reading taken earlier than the last event, as when an attempt outlives the request: it is
      right exactly if nothing changed between the reading and that event. */
  lemma EarlyReadingIff(es: seq<Event>, lo: int, now: int)
    requires Since(es, lo) && es != [] && lo <= now <= es[|es| - 1].at
    ensures Elapsed(Run(es), now) == Busy(es, lo, now) <==> SteadyAfter(es, now)
  {
    var last := es[|es| - 1].at;
    ElapsedIsUnion(es, lo, last);
    assert Elapsed(Run(es), now) == Elapsed(Run(es), last) - if Run(es).active > 0 then last - now else 0;
    hide Elapsed, Run, Busy, BusyAt, Ordered;
    BusySplit(es, lo, now, last);
    BusyExtremes(es, now, last);
  }

  /** A reading at 3, taken before an attempt begins at 5 but worked out after it: two less than
      nothing. */
  lemma ReadTooLow(es: seq<Event>)
    requires es == [Begin(5)]
    ensures Elapsed(Run(es), 3) == -2 && Busy(es, 0, 3) == 0
  {
    assert es[..0] == [] && es == [] + [Begin(5)];
    BusyBefore([], Begin(5), 0, 3);
    NothingBusy(0, 3);
  }

  /** A reading at 3 of an attempt that ran from 0 to 5, worked out after it ended: all five. */
  lemma ReadTooHigh(es: seq<Event>)
    requires es == [Begin(0), End(5)]
    ensures Elapsed(Run(es), 3) == 5 && Busy(es, 0, 3) == 3
  {
    var one := [Begin(0)];
    assert one[..0] == [] && es[..1] == one && es == one + [End(5)];
    BusyBefore(one, End(5), 0, 3);
    OpenIff(one);
    BusyAfter(one, 0, 0, 3);
  }

  // ---------------------------------------------------------------- the timer

  class Timer {
    var active: nat
    var start: int
    var total: int
    ghost var history: seq<Event>

    ghost predicate Valid()
      reads this
    {
      Phase(active, start, total) == Run(history)
    }

    constructor ()
      ensures Valid() && history == []
    {
      active, start, total, history := 0, 0, 0, [];
    }

    method BeginOp(now: int)
      requires Valid()
      modifies this
      ensures Valid() && history == old(history) + [Begin(now)]
    {
      history := history + [Begin(now)];
      assert history[..|history| - 1] == old(history);
      if active == 0 { start := now; }
      active := active + 1;
    }

    method EndOp(now: int)
      requires Valid()
      modifies this
      ensures Valid() && history == old(history) + [End(now)]
    {
      history := history + [End(now)];
      assert history[..|history| - 1] == old(history);
      if active > 0 {
        active := active - 1;
        if active == 0 {
          total := total + (now - start);
          start := 0;
        }
      }
    }

    /** A reading at any instant; one that is not before the last event is the number of busy
        instants, and an earlier one is exactly if nothing changed in between. */
    method Read(now: int) returns (elapsed: int)
      requires Valid()
      ensures elapsed == Elapsed(Run(history), now)
      ensures forall lo :: Since(history, lo) && lo <= now && NoneAfter(history, now) ==> elapsed == Busy(history, lo, now)
      ensures forall lo :: Since(history, lo) && lo <= now && !NoneAfter(history, now) ==>
                (elapsed == Busy(history, lo, now) <==> SteadyAfter(history, now))
    {
      elapsed := if active > 0 then total + (now - start) else total;
      forall lo | Since(history, lo) && lo <= now && NoneAfter(history, now) ensures elapsed == Busy(history, lo, now) {
        ElapsedIsUnion(history, lo, now);
      }
      forall lo | Since(history, lo) && lo <= now && !NoneAfter(history, now)
        ensures elapsed == Busy(history, lo, now) <==> SteadyAfter(history, now)
      {
        LastIsAfter(history, now);
        EarlyReadingIff(history, lo, now);
      }
    }
  }

  lemma LastIsAfter(es: seq<Event>, now: int)
    requires Ordered(es) && !NoneAfter(es, now)
    ensures es != [] && es[|es| - 1].at > now
  {
  }
}
