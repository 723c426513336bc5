/** The connection-pool collector (dbpool/collector.go, dbpool/capture.go, dbpool/collect.go).

    Every sample carries the pool it was read from, which the program does not record: it is how
    the model says whether the two ends of a reported interval come from the same pool. What a
    pool's sampler returns is part of the step, None when it panics. Every method of the
    collector holds its one mutex throughout, so a step is a whole call.
 */
module DbPool {
  import opened Wrappers

  const MAX_POOLS := 16

  type PoolID = nat

  datatype Counters = Counters(waitCount: int, waitDuration: int, maxIdleClosed: int, maxIdleTimeClosed: int, maxLifetimeClosed: int)

  datatype Gauges = Gauges(maxOpen: int, open: int, inUse: int, idle: int)

  datatype Stats = Stats(gauges: Gauges, counters: Counters)

  datatype Watched = Watched(display: string, pool: PoolID)

  datatype PoolSample = PoolSample(stats: Stats, at: int, display: string, unwatched: bool, pool: PoolID)

  type Sample = map<string, PoolSample>

  type Sampler = PoolID -> Option<Stats>

  datatype Phase = Baseline | Final

  datatype RunSamples = RunSamples(
    runID: string,
    epoch: nat,
    active: Option<set<string>>,
    base: Option<Sample>,
    baseTaken: bool,
    final: Option<Sample>,
    finalTaken: bool)

  datatype State = State(watch: map<string, Watched>, farewell: Sample, run: Option<RunSamples>)

  const Initial := State(map[], map[], None)

  datatype Event =
    | Watch(id: string, pool: Watched)
    | Unwatch(id: string, at: int, read: Sampler)
    | Capture(runID: string, epoch: nat, phase: Phase, at: int, read: Sampler)
    | Release(runID: string, epoch: nat, phase: Phase)

  // ---------------------------------------------------------------- the steps

  predicate MidRun(s: State) {
    s.run.Some? && s.run.value.baseTaken && !s.run.value.finalTaken
  }

  predicate Participates(s: State, id: string) {
    s.run.Some? && s.run.value.active.Some? && id in s.run.value.active.value
  }

  function Read(w: Watched, at: int, unwatched: bool, read: Sampler): Option<PoolSample> {
    var stats := read(w.pool);
    if stats.None? then None else Some(PoolSample(stats.value, at, w.display, unwatched, w.pool))
  }

  function WatchStep(s: State, id: string, w: Watched): State {
    if id in s.watch || |s.watch| >= MAX_POOLS then s else s.(watch := s.watch[id := w])
  }

  function UnwatchStep(s: State, id: string, at: int, read: Sampler): State {
    if id !in s.watch then s
    else
      var t := s.(watch := s.watch - {id});
      if !MidRun(s) || !Participates(s, id) then t
      else
        var sample := Read(s.watch[id], at, true, read);
        if sample.None? then t else t.(farewell := s.farewell[id := sample.value])
  }

  predicate IsStale(s: State, epoch: nat) {
    s.run.Some? && epoch < s.run.value.epoch
  }

  /** Another run or epoch replaces what is held for the previous one. */
  function Opened(s: State, runID: string, epoch: nat): (t: State)
    ensures t.run.Some?
  {
    if s.run.Some? && s.run.value.epoch == epoch && s.run.value.runID == runID then s
    else State(s.watch, map[], Some(RunSamples(runID, epoch, None, None, false, None, false)))
  }

  function BaselineSample(watch: map<string, Watched>, at: int, read: Sampler): Sample {
    map id | id in watch && Read(watch[id], at, false, read).Some? :: Read(watch[id], at, false, read).value
  }

  function Closing(id: string, watch: map<string, Watched>, farewell: Sample, at: int, read: Sampler): Option<PoolSample> {
    if id in farewell then Some(farewell[id])
    else if id in watch then Read(watch[id], at, false, read)
    else None
  }

  function FinalSample(participants: set<string>, watch: map<string, Watched>, farewell: Sample, at: int, read: Sampler): Sample {
    map id | id in participants && Closing(id, watch, farewell, at, read).Some? :: Closing(id, watch, farewell, at, read).value
  }

  function BaselineStep(s: State, at: int, read: Sampler): State
    requires s.run.Some?
  {
    var r := s.run.value;
    if r.baseTaken && r.base.Some? then s
    else
      var sample := BaselineSample(s.watch, at, read);
      State(s.watch, map[], Some(r.(active := Some(sample.Keys), base := Some(sample), baseTaken := true, final := None, finalTaken := false)))
  }

  function Participants(s: State): set<string>
    requires s.run.Some?
  {
    if s.run.value.active.Some? then s.run.value.active.value else s.watch.Keys
  }

  function FinalStep(s: State, at: int, read: Sampler): State
    requires s.run.Some?
  {
    var r := s.run.value;
    if r.finalTaken && r.final.Some? then s
    else s.(run := Some(r.(final := Some(FinalSample(Participants(s), s.watch, s.farewell, at, read)), finalTaken := true)))
  }

  function CaptureStep(s: State, runID: string, epoch: nat, phase: Phase, at: int, read: Sampler): State {
    if IsStale(s, epoch) then s
    else if phase == Baseline then BaselineStep(Opened(s, runID, epoch), at, read)
    else FinalStep(Opened(s, runID, epoch), at, read)
  }

  function ReleaseStep(s: State, runID: string, epoch: nat, phase: Phase): State {
    if s.run.None? || s.run.value.runID != runID || s.run.value.epoch != epoch then s
    else if phase == Baseline then s.(run := Some(s.run.value.(base := None)))
    else s.(run := Some(s.run.value.(final := None)))
  }

  function Step(s: State, e: Event): State {
    match e
    case Watch(id, w) => WatchStep(s, id, w)
    case Unwatch(id, at, read) => UnwatchStep(s, id, at, read)
    case Capture(runID, epoch, phase, at, read) => CaptureStep(s, runID, epoch, phase, at, read)
    case Release(runID, epoch, phase) => ReleaseStep(s, runID, epoch, phase)
  }

  function Run(s: State, es: seq<Event>): State
    decreases |es|
  {
    if es == [] then s else Run(Step(s, es[0]), es[1..])
  }

  // ---------------------------------------------------------------- the report

  datatype Code = NoCode | UnwatchedMidRun | CounterRewind

  datatype Entry = Entry(id: string, display: string, gauges: Gauges, counters: Counters, baselineAt: int, finalAt: int, partial: bool, code: Code)

  predicate Rewound(base: Counters, final: Counters) {
    || final.waitCount < base.waitCount
    || final.waitDuration < base.waitDuration
    || final.maxIdleClosed < base.maxIdleClosed
    || final.maxIdleTimeClosed < base.maxIdleTimeClosed
    || final.maxLifetimeClosed < base.maxLifetimeClosed
  }

  function Minus(a: Counters, b: Counters): Counters {
    Counters(a.waitCount - b.waitCount, a.waitDuration - b.waitDuration, a.maxIdleClosed - b.maxIdleClosed,
             a.maxIdleTimeClosed - b.maxIdleTimeClosed, a.maxLifetimeClosed - b.maxLifetimeClosed)
  }

  function EntryFor(id: string, base: PoolSample, final: PoolSample): Entry {
    var rewound := Rewound(base.stats.counters, final.stats.counters);
    Entry(id,
          if final.display == "" then base.display else final.display,
          final.stats.gauges,
          if rewound then final.stats.counters else Minus(final.stats.counters, base.stats.counters),
          base.at,
          final.at,
          final.unwatched || rewound,
          if rewound then CounterRewind else if final.unwatched then UnwatchedMidRun else NoCode)
  }

  predicate NonNegative(c: Counters) {
    c.waitCount >= 0 && c.waitDuration >= 0 && c.maxIdleClosed >= 0 && c.maxIdleTimeClosed >= 0 && c.maxLifetimeClosed >= 0
  }

  /** No entry reports a negative count; a rewind is reported exactly when some counter would
      have been negative, and then the counters since it; otherwise an entry reports the
      differences; an entry is partial exactly when it carries a code, and shows the gauges and the
      name of the closing sample. */
  lemma EntryIsSound(id: string, base: PoolSample, final: PoolSample)
    requires NonNegative(final.stats.counters)
    ensures var e := EntryFor(id, base, final);
            && NonNegative(e.counters)
            && (e.code == CounterRewind <==> !NonNegative(Minus(final.stats.counters, base.stats.counters)))
            && (e.partial <==> e.code != NoCode)
            && (e.code == NoCode ==> !final.unwatched && Minus(final.stats.counters, base.stats.counters) == e.counters)
            && (e.code == UnwatchedMidRun ==> final.unwatched && Minus(final.stats.counters, base.stats.counters) == e.counters)
            && (e.code == CounterRewind ==> e.counters == final.stats.counters)
            && e.id == id && e.gauges == final.stats.gauges && e.baselineAt == base.at && e.finalAt == final.at
            && e.display == if final.display != "" then final.display else base.display
  {
  }

  // ---------------------------------------------------------------- who is in the report

  /** This event takes a sample: it opens a run, or takes or retakes one of its boundaries. */
  predicate Takes(s: State, e: Event) {
    && e.Capture?
    && !IsStale(s, e.epoch)
    && var r := Opened(s, e.runID, e.epoch).run.value;
       if e.phase == Baseline then !(r.baseTaken && r.base.Some?) else !(r.finalTaken && r.final.Some?)
  }

  /** Between two boundaries: no event of the sequence takes a sample. */
  ghost predicate BetweenBoundaries(s: State, es: seq<Event>)
    decreases |es|
  {
    es == [] || (!Takes(s, es[0]) && BetweenBoundaries(Step(s, es[0]), es[1..]))
  }

  /** The run whose baseline was just taken is in progress with exactly these participants. */
  ghost predicate Running(s: State, ids: set<string>) {
    MidRun(s) && s.run.value.active == Some(ids) && s.farewell.Keys <= ids
  }

  lemma BaselineOpens(s: State, e: Event)
    requires e.Capture? && e.phase == Baseline && Takes(s, e)
    ensures var b := BaselineSample(s.watch, e.at, e.read);
            && Step(s, e).watch == s.watch && Step(s, e).farewell == map[]
            && Running(Step(s, e), b.Keys)
            && Step(s, e).run.value.base == Some(b)
            && (forall id :: id in b ==> id in s.watch && b[id].pool == s.watch[id].pool)
  {
  }

  lemma WatchRunning(s: State, id: string, w: Watched, ids: set<string>)
    requires Running(s, ids)
    ensures Running(WatchStep(s, id, w), ids)
  {
  }

  lemma UnwatchRunning(s: State, id: string, at: int, read: Sampler, ids: set<string>)
    requires Running(s, ids)
    ensures Running(UnwatchStep(s, id, at, read), ids)
  {
  }

  lemma QuietCapture(s: State, e: Event, ids: set<string>)
    requires Running(s, ids) && !Takes(s, e) && e.Capture?
    ensures Step(s, e) == s
  {
  }

  lemma StepRunning(s: State, e: Event, ids: set<string>)
    requires Running(s, ids) && !Takes(s, e)
    ensures Running(Step(s, e), ids)
    ensures !e.Watch? && !e.Unwatch? ==> Step(s, e).watch == s.watch && Step(s, e).farewell == s.farewell
  {
    match e
    case Watch(id, w) => WatchRunning(s, id, w, ids);
    case Unwatch(id, at, read) => UnwatchRunning(s, id, at, read, ids);
    case Capture(_, _, _, _, _) => QuietCapture(s, e, ids);
    case Release(_, _, _) =>
  }

  /** The unwatches of `id` that removed a pool, in order: the pool, and whether its farewell
      sample was taken. */
  datatype Leave = Leave(pool: PoolID, sampled: bool)

  function Leaves(s: State, es: seq<Event>, id: string): seq<Leave>
    decreases |es|
  {
    if es == [] then []
    else
      (if es[0].Unwatch? && es[0].id == id && id in s.watch then [Leave(s.watch[id].pool, es[0].read(s.watch[id].pool).Some?)] else [])
      + Leaves(Step(s, es[0]), es[1..], id)
  }

  /** The pool of the last farewell taken, or `before` if none was. */
  function LastSampled(leaves: seq<Leave>, before: Option<PoolID>): Option<PoolID> {
    if leaves == [] then before
    else LastSampled(leaves[1..], if leaves[0].sampled then Some(leaves[0].pool) else before)
  }

  function FarewellPool(s: State, id: string): Option<PoolID> {
    if id in s.farewell then Some(s.farewell[id].pool) else None
  }

  lemma LeaveStep(s: State, e: Event, ids: set<string>, id: string)
    requires Running(s, ids) && id in ids && !Takes(s, e)
    ensures FarewellPool(Step(s, e), id) ==
            if e.Unwatch? && e.id == id && id in s.watch && e.read(s.watch[id].pool).Some? then Some(s.watch[id].pool) else FarewellPool(s, id)
    ensures id in s.watch && !(e.Unwatch? && e.id == id) ==> id in Step(s, e).watch && Step(s, e).watch[id] == s.watch[id]
  {
    if e.Capture? { QuietCapture(s, e, ids); }
  }

  lemma {:induction false} FarewellIs(s: State, es: seq<Event>, ids: set<string>, id: string)
    requires Running(s, ids) && id in ids && BetweenBoundaries(s, es)
    ensures Running(Run(s, es), ids)
    ensures FarewellPool(Run(s, es), id) == LastSampled(Leaves(s, es, id), FarewellPool(s, id))
    decreases |es|
  {
    if es != [] {
      var e := es[0];
      var t := Step(s, e);
      StepRunning(s, e, ids);
      LeaveStep(s, e, ids, id);
      hide Step, Takes, FarewellPool, Running;
      FarewellIs(t, es[1..], ids, id);
      if e.Unwatch? && e.id == id && id in s.watch {
        var first := Leave(s.watch[id].pool, e.read(s.watch[id].pool).Some?);
        assert ([first] + Leaves(t, es[1..], id))[1..] == Leaves(t, es[1..], id);
      } else {
        assert [] + Leaves(t, es[1..], id) == Leaves(t, es[1..], id);
      }
    }
  }

  /** A run from its baseline to its closing boundary: `open` takes the baseline, nothing in
      `es` takes a sample, `close` takes the final one. */
  ghost predicate WholeRun(s: State, open: Event, es: seq<Event>, close: Event) {
    && open.Capture? && open.phase == Baseline && Takes(s, open)
    && BetweenBoundaries(Step(s, open), es)
    && close.Capture? && close.phase == Final && Takes(Run(Step(s, open), es), close)
    && Run(Step(s, open), es).run.Some?
    && close.runID == Run(Step(s, open), es).run.value.runID && close.epoch == Run(Step(s, open), es).run.value.epoch
  }

  function BaseOf(s: State, open: Event): Sample
    requires open.Capture?
  {
    BaselineSample(s.watch, open.at, open.read)
  }

  ghost function FinalOf(s: State, open: Event, es: seq<Event>, close: Event): Sample
    requires WholeRun(s, open, es, close)
  {
    var t := Run(Step(s, open), es);
    FinalSample(Participants(t), t.watch, t.farewell, close.at, close.read)
  }

  lemma CloseTakes(t: State, close: Event, ids: set<string>)
    requires Running(t, ids) && close.Capture? && close.phase == Final && close.runID == t.run.value.runID && close.epoch == t.run.value.epoch
    ensures Participants(t) == ids
    ensures Step(t, close).run.value.final == Some(FinalSample(ids, t.watch, t.farewell, close.at, close.read))
  {
  }

  /** Exactly the pools sampled at the baseline can be in the closing sample, whatever was
      watched and unwatched meanwhile, and it is what the collector keeps as the final sample. */
  lemma {:induction false} RunCloses(s: State, open: Event, es: seq<Event>, close: Event)
    requires WholeRun(s, open, es, close)
    ensures var t := Run(Step(s, open), es);
            && Running(t, BaseOf(s, open).Keys)
            && Step(t, close).run.value.final == Some(FinalOf(s, open, es, close))
            && FinalOf(s, open, es, close).Keys <= BaseOf(s, open).Keys
  {
    var ids := BaseOf(s, open).Keys;
    BaselineOpens(s, open);
    RunningStays(Step(s, open), es, ids);
    CloseTakes(Run(Step(s, open), es), close, ids);
  }

  lemma {:induction false} RunningStays(s: State, es: seq<Event>, ids: set<string>)
    requires Running(s, ids) && BetweenBoundaries(s, es)
    ensures Running(Run(s, es), ids)
    decreases |es|
  {
    if es != [] {
      StepRunning(s, es[0], ids);
      hide Step, Takes, Running;
      RunningStays(Step(s, es[0]), es[1..], ids);
    }
  }

  /** Which pool a participant's closing sample comes from: the last one that left with a
      farewell sample, and if none did, the one watched at the closing boundary. */
  ghost function ClosingPool(s: State, open: Event, es: seq<Event>, id: string): Option<PoolID>
    requires open.Capture?
  {
    var left := LastSampled(Leaves(Step(s, open), es, id), None);
    var t := Run(Step(s, open), es);
    if left.Some? then left else if id in t.watch then Some(t.watch[id].pool) else None
  }

  lemma ClosingSource(s: State, open: Event, es: seq<Event>, close: Event, id: string)
    requires WholeRun(s, open, es, close) && id in BaseOf(s, open)
    ensures id in FinalOf(s, open, es, close) ==> Some(FinalOf(s, open, es, close)[id].pool) == ClosingPool(s, open, es, id)
    ensures id in FinalOf(s, open, es, close) <==>
            || LastSampled(Leaves(Step(s, open), es, id), None).Some?
            || (var t := Run(Step(s, open), es); id in t.watch && close.read(t.watch[id].pool).Some?)
  {
    var ids := BaseOf(s, open).Keys;
    BaselineOpens(s, open);
    FarewellIs(Step(s, open), es, ids, id);
    CloseTakes(Run(Step(s, open), es), close, ids);
    hide Step, Run, Leaves, LastSampled, BetweenBoundaries, Takes, BaseOf;
  }

  /** The last leave whose farewell sample was taken removed this pool. */
  ghost predicate LastSampledIs(leaves: seq<Leave>, pool: PoolID) {
    exists k :: 0 <= k < |leaves| && leaves[k] == Leave(pool, true) && forall j :: k < j < |leaves| ==> !leaves[j].sampled
  }

  ghost predicate NoneSampled(leaves: seq<Leave>) {
    forall k :: 0 <= k < |leaves| ==> !leaves[k].sampled
  }

  lemma {:induction false} LastSampledMeans(leaves: seq<Leave>, before: Option<PoolID>, pool: PoolID)
    ensures LastSampled(leaves, before) == Some(pool) <==> LastSampledIs(leaves, pool) || (NoneSampled(leaves) && before == Some(pool))
    ensures NoneSampled(leaves) ==> LastSampled(leaves, before) == before
    decreases |leaves|
  {
    if leaves != [] {
      var rest := leaves[1..];
      LastSampledMeans(rest, if leaves[0].sampled then Some(leaves[0].pool) else before, pool);
      LastSampledCons(leaves, pool);
    }
  }

  lemma NoneSampledCons(leaves: seq<Leave>)
    requires leaves != []
    ensures NoneSampled(leaves) <==> !leaves[0].sampled && NoneSampled(leaves[1..])
  {
    assert forall j :: 0 < j < |leaves| ==> leaves[j] == leaves[1..][j - 1];
  }

  lemma LastSampledStays(leaves: seq<Leave>, pool: PoolID)
    requires leaves != [] && (LastSampledIs(leaves[1..], pool) || (leaves[0] == Leave(pool, true) && NoneSampled(leaves[1..])))
    ensures LastSampledIs(leaves, pool)
  {
    var rest := leaves[1..];
    assert forall j :: 0 < j < |leaves| ==> leaves[j] == rest[j - 1];
    if LastSampledIs(rest, pool) {
      var k :| 0 <= k < |rest| && rest[k] == Leave(pool, true) && forall j :: k < j < |rest| ==> !rest[j].sampled;
      assert leaves[k + 1] == Leave(pool, true);
    } else {
      assert leaves[0] == Leave(pool, true);
    }
  }

  lemma LastSampledCame(leaves: seq<Leave>, pool: PoolID)
    requires leaves != [] && LastSampledIs(leaves, pool)
    ensures LastSampledIs(leaves[1..], pool) || (leaves[0] == Leave(pool, true) && NoneSampled(leaves[1..]))
  {
    var rest := leaves[1..];
    assert forall j :: 0 <= j < |rest| ==> rest[j] == leaves[j + 1];
    var k :| 0 <= k < |leaves| && leaves[k] == Leave(pool, true) && forall j :: k < j < |leaves| ==> !leaves[j].sampled;
    if k > 0 { assert rest[k - 1] == Leave(pool, true); }
  }

  lemma LastSampledCons(leaves: seq<Leave>, pool: PoolID)
    requires leaves != []
    ensures LastSampledIs(leaves, pool) <==> LastSampledIs(leaves[1..], pool) || (leaves[0] == Leave(pool, true) && NoneSampled(leaves[1..]))
    ensures NoneSampled(leaves) <==> !leaves[0].sampled && NoneSampled(leaves[1..])
  {
    hide *;
    NoneSampledCons(leaves);
    if LastSampledIs(leaves, pool) {
      LastSampledCame(leaves, pool);
    } else if LastSampledIs(leaves[1..], pool) || (leaves[0] == Leave(pool, true) && NoneSampled(leaves[1..])) {
      LastSampledStays(leaves, pool);
    }
  }

  /** The two samples of an entry come from one pool if and only if the last unwatch that took a
      farewell removed the pool that was watched when the run opened, or none did and that pool
      is watched when the run closes. */
  lemma SpliceIff(s: State, open: Event, es: seq<Event>, close: Event, id: string)
    requires WholeRun(s, open, es, close) && id in BaseOf(s, open) && id in FinalOf(s, open, es, close)
    ensures id in s.watch
    ensures var leaves, pool := Leaves(Step(s, open), es, id), s.watch[id].pool;
            var t := Run(Step(s, open), es);
            FinalOf(s, open, es, close)[id].pool == BaseOf(s, open)[id].pool <==>
            LastSampledIs(leaves, pool) || (NoneSampled(leaves) && id in t.watch && t.watch[id].pool == pool)
  {
    BaselineOpens(s, open);
    ClosingSource(s, open, es, close, id);
    var leaves := Leaves(Step(s, open), es, id);
    var t := Run(Step(s, open), es);
    ClosingIs(s, open, es, id);
    hide *;
    ClosingPoolMeans(leaves, if id in t.watch then Some(t.watch[id].pool) else None, s.watch[id].pool);
    BaseIs(s, open, id);
  }

  lemma BaseIs(s: State, open: Event, id: string)
    requires open.Capture? && id in BaseOf(s, open)
    ensures id in s.watch && BaseOf(s, open)[id].pool == s.watch[id].pool
  {
  }

  lemma ClosingIs(s: State, open: Event, es: seq<Event>, id: string)
    requires open.Capture?
    ensures var left := LastSampled(Leaves(Step(s, open), es, id), None);
            var t := Run(Step(s, open), es);
            ClosingPool(s, open, es, id) == if left.Some? then left else if id in t.watch then Some(t.watch[id].pool) else None
  {
    hide Step, Run, Leaves, LastSampled;
  }

  lemma ClosingPoolMeans(leaves: seq<Leave>, watched: Option<PoolID>, pool: PoolID)
    ensures var left := LastSampled(leaves, None);
            (if left.Some? then left else watched) == Some(pool) <==>
            LastSampledIs(leaves, pool) || (NoneSampled(leaves) && watched == Some(pool))
  {
    var left := LastSampled(leaves, None);
    hide LastSampled, LastSampledIs, NoneSampled;
    LastSampledMeans(leaves, None, pool);
    if left.Some? {
      LastSampledMeans(leaves, None, left.value);
      SampledOnce(leaves, left.value, left.value);
    } else {
      NeverSampled(leaves, None);
    }
  }

  lemma {:induction false} NeverSampled(leaves: seq<Leave>, before: Option<PoolID>)
    requires LastSampled(leaves, before).None?
    ensures NoneSampled(leaves) && before.None?
    decreases |leaves|
  {
    if leaves != [] {
      NeverSampled(leaves[1..], if leaves[0].sampled then Some(leaves[0].pool) else before);
      NoneSampledCons(leaves);
    }
  }

  lemma SampledOnce(leaves: seq<Leave>, p: PoolID, q: PoolID)
    ensures LastSampledIs(leaves, p) && LastSampledIs(leaves, q) ==> p == q
    ensures LastSampledIs(leaves, p) ==> !NoneSampled(leaves)
  {
  }

  // ---------------------------------------------------------------- when nothing is spliced

  /** Once a pool of this ID has left with a farewell and none leaves afterwards, or none has
      left at all, the pool watched at the start is the closing one. */
  lemma {:induction false} FirstPoolStays(s: State, es: seq<Event>, ids: set<string>, id: string)
    requires Running(s, ids) && id in ids && BetweenBoundaries(s, es) && id in s.watch
    requires |Leaves(s, es, id)| <= 1
    ensures Leaves(s, es, id) == [] ==> id in Run(s, es).watch && Run(s, es).watch[id] == s.watch[id]
    ensures |Leaves(s, es, id)| == 1 ==> Leaves(s, es, id)[0].pool == s.watch[id].pool
    decreases |es|
  {
    if es != [] {
      var e := es[0];
      var t := Step(s, e);
      StepRunning(s, e, ids);
      LeaveStep(s, e, ids, id);
      hide Step, Takes, FarewellPool, Running;
      if !(e.Unwatch? && e.id == id) {
        assert [] + Leaves(t, es[1..], id) == Leaves(t, es[1..], id);
        FirstPoolStays(t, es[1..], ids, id);
      }
    }
  }

  /** If the participant is unwatched at most once during the run, and its sampler does not panic
      then, both samples come from the same pool, even when a replacement is watched under the
      same ID. */
  lemma NoSplice(s: State, open: Event, es: seq<Event>, close: Event, id: string)
    requires WholeRun(s, open, es, close) && id in BaseOf(s, open) && id in FinalOf(s, open, es, close)
    requires var leaves := Leaves(Step(s, open), es, id); |leaves| <= 1 && (leaves != [] ==> leaves[0].sampled)
    ensures FinalOf(s, open, es, close)[id].pool == BaseOf(s, open)[id].pool
  {
    var ids := BaseOf(s, open).Keys;
    var leaves := Leaves(Step(s, open), es, id);
    BaselineOpens(s, open);
    FirstPoolStays(Step(s, open), es, ids, id);
    SpliceIff(s, open, es, close, id);
    assert leaves != [] ==> leaves[1..] == [];
    assert LastSampled(leaves, None) == if leaves == [] then None else Some(leaves[0].pool);
    hide Step, Takes, WholeRun, BaseOf, FinalOf, FinalSample, BaselineSample;
  }

  lemma ThreeSteps(s: State, a: Event, b: Event, c: Event)
    requires !Takes(s, a) && !Takes(Step(s, a), b) && !Takes(Step(Step(s, a), b), c)
    ensures Run(s, [a, b, c]) == Step(Step(Step(s, a), b), c) && BetweenBoundaries(s, [a, b, c])
  {
    hide Step, Takes;
    var s1 := Step(s, a);
    var s2 := Step(s1, b);
    assert [a, b, c][1..] == [b, c] && [b, c][1..] == [c] && [c][1..] == [];
    assert Run(Step(s2, c), []) == Step(s2, c) && BetweenBoundaries(Step(s2, c), []);
    assert Run(s2, [c]) == Step(s2, c) && BetweenBoundaries(s2, [c]);
    assert Run(s1, [b, c]) == Step(s2, c) && BetweenBoundaries(s1, [b, c]);
  }

  /** Unwatching the participant, watching a replacement and unwatching that one too. */
  lemma SecondUnwatch(s: State, id: string, w: Watched, leave1: Event, leave2: Event, ids: set<string>)
    requires Running(s, ids) && id in ids && id in s.watch && |s.watch| == 1
    requires leave1.Unwatch? && leave2.Unwatch? && leave1.id == leave2.id == id && leave2.read(w.pool).Some?
    ensures var es := [leave1, Watch(id, w), leave2];
            BetweenBoundaries(s, es) && Run(s, es).run == s.run && id in Run(s, es).farewell && Run(s, es).farewell[id].pool == w.pool
  {
    var s1 := Step(s, leave1);
    assert id !in s1.watch && |s1.watch| == 0 && Running(s1, ids);
    var s2 := Step(s1, Watch(id, w));
    assert s2.watch[id] == w && Running(s2, ids);
    ThreeSteps(s, leave1, Watch(id, w), leave2);
    hide Run, BetweenBoundaries;
  }

  /** A second unwatch does splice: the replacement's farewell overwrites the participant's. */
  lemma SecondUnwatchSplices() returns (s: State, open: Event, es: seq<Event>, close: Event, id: string)
    ensures WholeRun(s, open, es, close) && id in BaseOf(s, open) && id in FinalOf(s, open, es, close)
    ensures FinalOf(s, open, es, close)[id].pool != BaseOf(s, open)[id].pool
  {
    var read: Sampler := p => Some(Stats(Gauges(0, 0, 0, 0), Counters(0, 0, 0, 0, 0)));
    id := "db";
    s := State(map[id := Watched("", 1)], map[], None);
    open, close := Capture("r", 0, Baseline, 0, read), Capture("r", 0, Final, 4, read);
    var leave1, join, leave2 := Unwatch(id, 1, read), Watch(id, Watched("", 2)), Unwatch(id, 3, read);
    es := [leave1, join, leave2];
    var t := Step(s, open);
    BaselineOpens(s, open);
    assert t.run.value.runID == "r" && t.run.value.epoch == 0 && BaseOf(s, open)[id].pool == 1;
    SecondUnwatch(t, id, Watched("", 2), leave1, leave2, BaseOf(s, open).Keys);
    hide Step, Run, BetweenBoundaries, BaseOf;
    assert Participants(Run(t, es)) == BaseOf(s, open).Keys;
  }
}
