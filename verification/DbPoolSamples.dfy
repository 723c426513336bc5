/** What the two samples of a run hold (dbpool/capture.go): the reading of each pool, when it was
    taken and under which name, for a pool that stayed and for one that was unwatched meanwhile.
 */
module DbPoolSamples {
  import opened Wrappers
  import opened DbPool

  /** The opening sample holds exactly the watched pools that could be read, each with its reading
      of that instant. */
  lemma OpeningSampleIs(s: State, open: Event, id: string)
    requires open.Capture? && open.phase == Baseline && Takes(s, open)
    ensures var t := Step(s, open);
            && t.run.Some? && t.run.value.base.Some? && t.run.value.runID == open.runID && t.run.value.epoch == open.epoch
            && var base := t.run.value.base.value;
               && (id in base <==> id in s.watch && open.read(s.watch[id].pool).Some?)
               && (id in base ==>
                    base[id] == PoolSample(open.read(s.watch[id].pool).value, open.at, s.watch[id].display, false, s.watch[id].pool))
  {
  }

  /** The readings taken when pools of this name were unwatched, in order. */
  function Farewells(s: State, es: seq<Event>, id: string): seq<PoolSample>
    decreases |es|
  {
    if es == [] then []
    else
      var e := es[0];
      (if e.Unwatch? && e.id == id && id in s.watch && e.read(s.watch[id].pool).Some?
       then [PoolSample(e.read(s.watch[id].pool).value, e.at, s.watch[id].display, true, s.watch[id].pool)] else [])
      + Farewells(Step(s, e), es[1..], id)
  }

  function FarewellOf(s: State, id: string): Option<PoolSample> {
    if id in s.farewell then Some(s.farewell[id]) else None
  }

  function LastFarewell(fs: seq<PoolSample>, before: Option<PoolSample>): Option<PoolSample> {
    if fs == [] then before else Some(fs[|fs| - 1])
  }

  lemma FarewellStep(s: State, e: Event, ids: set<string>, id: string)
    requires Running(s, ids) && id in ids && !Takes(s, e)
    ensures FarewellOf(Step(s, e), id) ==
              if e.Unwatch? && e.id == id && id in s.watch && e.read(s.watch[id].pool).Some?
              then Some(PoolSample(e.read(s.watch[id].pool).value, e.at, s.watch[id].display, true, s.watch[id].pool))
              else FarewellOf(s, id)
  {
    if e.Capture? { QuietCapture(s, e, ids); }
  }

  lemma {:induction false} FarewellFrom(s: State, es: seq<Event>, ids: set<string>, id: string)
    requires Running(s, ids) && id in ids && BetweenBoundaries(s, es)
    ensures FarewellOf(Run(s, es), id) == LastFarewell(Farewells(s, es, id), FarewellOf(s, id))
    decreases |es|
  {
    if es != [] {
      var e := es[0];
      var t := Step(s, e);
      StepRunning(s, e, ids);
      FarewellStep(s, e, ids, id);
      hide Step, Takes, FarewellOf, Running;
      FarewellFrom(t, es[1..], ids, id);
    }
  }

  /** The closing sample of a run holds each pool of the opening one that was read when it was
      unwatched, with the last such reading, or else that is watched and can be read now, with its
      reading now; and it holds nothing else. */
  lemma ClosingSampleIs(s: State, open: Event, es: seq<Event>, close: Event, id: string)
    requires WholeRun(s, open, es, close)
    ensures var t := Run(Step(s, open), es);
            var fs := Farewells(Step(s, open), es, id);
            var final := FinalOf(s, open, es, close);
            var live := id in t.watch && close.read(t.watch[id].pool).Some?;
            && Step(t, close).run.Some? && Step(t, close).run.value.final == Some(final)
            && (id in final <==> id in BaseOf(s, open) && (fs != [] || live))
            && (id in final && fs != [] ==> final[id] == fs[|fs| - 1])
            && (id in final && fs == [] ==>
                 final[id] == PoolSample(close.read(t.watch[id].pool).value, close.at, t.watch[id].display, false, t.watch[id].pool))
  {
    var t1 := Step(s, open);
    BaselineOpens(s, open);
    RunCloses(s, open, es, close);
    if id in BaseOf(s, open) { FarewellFrom(t1, es, BaseOf(s, open).Keys, id); }
    assert t1.farewell == map[];
    CloseTakes(Run(t1, es), close, BaseOf(s, open).Keys);
    FinalAt(BaseOf(s, open).Keys, Run(t1, es), close, id);
    hide Step, Run, WholeRun, FinalOf, BaseOf, Farewells, Running, FinalSample;
  }

  lemma FinalAt(ids: set<string>, t: State, close: Event, id: string)
    requires close.Capture?
    ensures var final := FinalSample(ids, t.watch, t.farewell, close.at, close.read);
            var live := id in t.watch && close.read(t.watch[id].pool).Some?;
            && (id in final <==> id in ids && (id in t.farewell || live))
            && (id in final && id in t.farewell ==> final[id] == t.farewell[id])
            && (id in final && id !in t.farewell ==>
                 final[id] == PoolSample(close.read(t.watch[id].pool).value, close.at, t.watch[id].display, false, t.watch[id].pool))
  {
  }

  /** A capture behind the current epoch changes nothing, and neither does one whose sample is held;
      one of another run or epoch forgets all that was held for the previous one. */
  lemma CaptureKeeps(s: State, e: Event)
    requires e.Capture?
    ensures var t := Step(s, e);
            var same := s.run.Some? && s.run.value.runID == e.runID && s.run.value.epoch == e.epoch;
            && t.watch == s.watch
            && (s.run.Some? && e.epoch < s.run.value.epoch ==> t == s)
            && (same && e.phase == Baseline && s.run.value.baseTaken && s.run.value.base.Some? ==> t == s)
            && (same && e.phase == Final && s.run.value.finalTaken && s.run.value.final.Some? ==> t == s)
            && (!same && (s.run.None? || e.epoch >= s.run.value.epoch) ==>
                 && t.farewell == map[] && t.run.Some? && t.run.value.runID == e.runID && t.run.value.epoch == e.epoch
                 && (e.phase == Baseline ==> t.run.value.base.Some? && t.run.value.final.None? && !t.run.value.finalTaken)
                 && (e.phase == Final ==> t.run.value.final.Some? && t.run.value.base.None? && !t.run.value.baseTaken && t.run.value.active.None?))
  {
    hide BaselineSample, FinalSample;
  }
}
