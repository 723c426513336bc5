/** The access-log collector and its generation adapter as objects (accesslog/collector.go,
    accesslog/generation.go).  Every method is proved to perform steps of the protocol in
    `LogGenerations`, so the theorems there are about these bodies.

    The ghost fields hold the protocol state that the real fields represent.  Short reads and
    expiring contexts are arbitrary choices.
 */
module LogCollector {
  import opened Wrappers
  import opened LogLines
  import opened LogGenerations

  const READ_BUFFER_BYTES := 32 * 1024
  const DRAIN_CHUNK_BYTES := 1024 * 1024
  const MAX_COLLECT_BYTES := 64 * 1024 * 1024

  datatype ReadOutcome = EndOfFile | LimitReached | Cancelled

  class LogFile {
    var data: seq<Byte>

    constructor (initial: seq<Byte>)
      ensures data == initial
    {
      data := initial;
    }
  }

  lemma ReadNothing(max: nat, r: Reader)
    requires r.offset <= |r.log|
    ensures Read(max, r, 0) == r
  {
    assert r.log[r.offset..r.offset] == [];
    NothingRead(max, r.line);
  }

  lemma ReadIs(max: nat, r: Reader, n: nat, t: Reader)
    requires r.offset + n <= |r.log| && t.log == r.log && t.base == r.base && t.lastCut == r.lastCut
    requires t.offset == r.offset + n
    requires t.line == StateAfter(max, r.line, r.log[r.offset..r.offset + n])
    requires t.live == r.live + EventsOf(max, r.line, r.log[r.offset..r.offset + n])
    ensures t == Read(max, r, n)
  {
  }

  lemma ReadsCompose(max: nat, r: Reader, a: nat, b: nat)
    requires r.offset + a + b <= |r.log|
    ensures Read(max, Read(max, r, a), b) == Read(max, r, a + b)
  {
    hide StateAfter, EventsOf;
    var first, second := r.log[r.offset..r.offset + a], r.log[r.offset + a..r.offset + a + b];
    ChunksCompose(max, r.line, first, second);
    assert r.log[r.offset..r.offset + a + b] == first + second;
    var r1 := Read(max, r, a);
    assert r1.log[r1.offset..r1.offset + b] == second;
  }

  class Collector {
    const cfg: Config
    const file: LogFile
    var offset: nat
    var pending: seq<Byte>
    var dropping: bool
    var records: seq<Record>
    var dropped: nat
    var partial: nat
    var pendingBoundaries: nat

    ghost const base: nat
    ghost var live: seq<LineEvent>
    ghost var lastCut: nat

    ghost predicate Valid()
      reads this, file
    {
      offset <= |file.data| && Aggregate() == Summary(cfg, EMPTY_TALLY, live)
    }

    function Aggregate(): Tally
      reads this
    {
      Tally(records, dropped, partial)
    }

    ghost function View(): Reader
      reads this, file
    {
      Reader(file.data, base, offset, LineState(pending, dropping), live, lastCut)
    }

    /** Opens the log at its current end. */
    constructor (cfg: Config, file: LogFile)
      ensures Valid() && this.cfg == cfg && this.file == file && pendingBoundaries == 0
      ensures View() == Init(file.data).r
    {
      this.cfg, this.file := cfg, file;
      offset, base, lastCut := |file.data|, |file.data|, |file.data|;
      pending, dropping, records, dropped, partial := [], false, [], 0, 0;
      pendingBoundaries, live := 0, [];
    }

    /** One byte of the consume loop. */
    method ConsumeByte(b: Byte)
      requires Aggregate() == Summary(cfg, EMPTY_TALLY, live)
      modifies this`pending, this`dropping, this`records, this`dropped, this`partial, this`live
      ensures LineState(pending, dropping) == FeedState(cfg.maxLine, old(LineState(pending, dropping)), b)
      ensures live == old(live) + FeedEvents(cfg.maxLine, old(LineState(pending, dropping)), b)
      ensures Aggregate() == Summary(cfg, EMPTY_TALLY, live)
    {
      ghost var events := FeedEvents(cfg.maxLine, LineState(pending, dropping), b);
      if events == [] {
        assert live + events == live;
      } else {
        assert (live + events)[..|live|] == live;
      }
      if dropping {
        if b == NEWLINE { dropping := false; }
      } else if b == NEWLINE {
        var line := pending;
        pending := [];
        match cfg.parse(line) {
          case Skipped =>
          case Malformed => dropped := dropped + 1;
          case Parsed(rec) =>
            records := records + [rec];
            if rec.partial { partial := partial + 1; }
        }
      } else {
        pending := pending + [b];
        if |pending| > cfg.maxLine {
          pending, dropping, dropped := [], true, dropped + 1;
        }
      }
      live := live + events;
    }

    /** Feeds bytes to the line splitter one at a time and aggregates what it yields. */
    method Consume(data: seq<Byte>)
      requires Aggregate() == Summary(cfg, EMPTY_TALLY, live)
      modifies this`pending, this`dropping, this`records, this`dropped, this`partial, this`live
      ensures LineState(pending, dropping) == StateAfter(cfg.maxLine, old(LineState(pending, dropping)), data)
      ensures live == old(live) + EventsOf(cfg.maxLine, old(LineState(pending, dropping)), data)
      ensures Aggregate() == Summary(cfg, EMPTY_TALLY, live)
    {
      hide StateAfter, EventsOf, FeedState, FeedEvents, Summary, Aggregate;
      ghost var s0, l0 := LineState(pending, dropping), live;
      NothingRead(cfg.maxLine, s0);
      for i := 0 to |data|
        invariant LineState(pending, dropping) == StateAfter(cfg.maxLine, s0, data[..i])
        invariant live == l0 + EventsOf(cfg.maxLine, s0, data[..i])
        invariant Aggregate() == Summary(cfg, EMPTY_TALLY, live)
      {
        assert data[..i + 1] == data[..i] + [data[i]];
        ExtendReading(cfg.maxLine, s0, data[..i], data[i], data[..i + 1], LineState(pending, dropping));
        ConsumeByte(data[i]);
      }
      assert data[..|data|] == data;
    }

    /** Reads until end of file, until `limit` bytes were read, or until the context expires;
        each read may return fewer bytes than were asked for. */
    method ReadToEOF(limit: nat) returns (left: nat, outcome: ReadOutcome)
      requires Valid()
      modifies this`offset, this`pending, this`dropping, this`records, this`dropped, this`partial, this`live
      ensures Valid()
      ensures left <= limit && old(offset) + (limit - left) <= |file.data|
      ensures View() == Read(cfg.maxLine, old(View()), limit - left)
      ensures outcome == EndOfFile ==> offset == |file.data|
      ensures outcome == LimitReached ==> left == 0
    {
      hide StateAfter, EventsOf, Summary, Read;
      left := limit;
      ghost var r0 := View();
      ReadNothing(cfg.maxLine, r0);
      while true
        invariant Valid() && left <= limit && offset == r0.offset + (limit - left)
        invariant View() == Read(cfg.maxLine, r0, limit - left)
        decreases left
      {
        if * { return left, Cancelled; }
        if left == 0 { return left, LimitReached; }
        if offset == |file.data| { return left, EndOfFile; }
        var n: nat :| 1 <= n && n <= left && n <= READ_BUFFER_BYTES && n <= |file.data| - offset;
        ghost var r := View();
        var chunk := file.data[offset..offset + n];
        left := left - n;
        offset := offset + n;
        Consume(chunk);
        ReadIs(cfg.maxLine, r, n, View());
        ReadsCompose(cfg.maxLine, r0, limit - left - n, n);
        if offset == |file.data| {
          if * { return left, EndOfFile; }
        }
      }
    }

    /** Cuts the aggregate without moving the read position. */
    method CutGeneration() returns (snap: Tally)
      requires Valid()
      modifies this`records, this`dropped, this`partial, this`pendingBoundaries, this`live, this`lastCut
      ensures Valid() && snap == Summary(cfg, EMPTY_TALLY, old(live)) && Tells(cfg, old(live), snap)
      ensures View() == old(View()).(live := [], lastCut := offset)
      ensures pendingBoundaries == if old(pendingBoundaries) > 0 then old(pendingBoundaries) - 1 else 0
    {
      SummaryTells(cfg, live);
      snap := Aggregate();
      hide Tells;
      records, dropped, partial := [], 0, 0;
      live, lastCut := [], offset;
      if pendingBoundaries > 0 {
        pendingBoundaries := pendingBoundaries - 1;
      }
    }
  }

  datatype LogGeneration = LogGeneration(point: nat, done: bool, snap: Option<Tally>, released: bool)

  datatype DrainResult = Drained | Interrupted | ForeignHandle

  datatype CollectResult = Value(snap: Tally) | NotDrained | HandleReleased | UnknownHandle

  function SummaryOf(cfg: Config, v: Option<seq<LineEvent>>): Option<Tally> {
    if v.None? then None else Some(Summary(cfg, EMPTY_TALLY, v.value))
  }

  /** The generation record represents the protocol's generation. */
  ghost predicate Tied(cfg: Config, g: LogGeneration, m: Gen) {
    && (m.done <==> m.cut.Some?)
    && g.point == m.point && g.done == m.done && g.released == m.released && g.snap == SummaryOf(cfg, m.snap)
  }

  ghost predicate AllTied(cfg: Config, gens: seq<LogGeneration>, model: seq<Gen>) {
    |gens| == |model| && forall k :: 0 <= k < |gens| ==> Tied(cfg, gens[k], model[k])
  }

  lemma SameNumber(cfg: Config, gens: seq<LogGeneration>, model: seq<Gen>)
    requires AllTied(cfg, gens, model)
    ensures |gens| == |model|
  {
  }

  lemma TiedAt(cfg: Config, gens: seq<LogGeneration>, model: seq<Gen>, g: nat)
    requires AllTied(cfg, gens, model) && g < |gens|
    ensures |gens| == |model| && Tied(cfg, gens[g], model[g])
  {
  }

  lemma MintTied(cfg: Config, gens: seq<LogGeneration>, model: seq<Gen>, point: nat)
    requires AllTied(cfg, gens, model)
    ensures AllTied(cfg, gens + [LogGeneration(point, false, None, false)], model + [Gen(point, None, false, None, false)])
  {
  }

  lemma ReplaceTied(cfg: Config, gens: seq<LogGeneration>, model: seq<Gen>, g: nat, v: LogGeneration, m: Gen)
    requires AllTied(cfg, gens, model) && g < |gens| && Tied(cfg, v, m)
    ensures AllTied(cfg, gens[g := v], model[g := m])
  {
  }

  /** With every generation drained before its release, a drained generation's value tells exactly
      the lines whose newline lies between its predecessor's point and its own. */
  lemma WindowIsTold(cfg: Config, log: seq<Byte>, es: seq<Event>, k: nat)
    requires DrainedBeforeRelease(cfg.maxLine, Init(log), es)
    requires var s := Run(cfg.maxLine, Init(log), es); k < |s.gens| && s.gens[k].done && !s.gens[k].released
    ensures var s := Run(cfg.maxLine, Init(log), es);
            && s.r.base <= Lower(s, k) <= s.gens[k].point <= |s.r.log| && s.gens[k].snap.Some?
            && Tells(cfg, Window(cfg.maxLine, s.r.log, s.r.base, Lower(s, k), s.gens[k].point), Summary(cfg, EMPTY_TALLY, s.gens[k].snap.value))
  {
    Partition(cfg.maxLine, log, es);
    var s := Run(cfg.maxLine, Init(log), es);
    hide Run, DrainedBeforeRelease, Tells, Window, Summary, Exact;
    SummaryTells(cfg, s.gens[k].snap.value);
  }

  predicate DrainEvent(e: Event, g: nat) {
    e == Enter(g) || e.Chunk? || e.Interrupt? || e.DrainCut? || e == Publish(g) || e.Leave?
  }

  class GenerationCollector {
    const collector: Collector
    var sem: Option<nat>
    var epoch: nat
    var gens: seq<LogGeneration>
    var results: map<Key, Reply>

    ghost var sys: Sys

    ghost predicate Valid()
      reads this, collector, collector.file
    {
      && collector.Valid()
      && sys.r == collector.View()
      && sys.pendingBoundaries == collector.pendingBoundaries
      && sys.holder == sem && sys.epoch == epoch && sys.results == results
      && AllTied(collector.cfg, gens, sys.gens)
      && Inv(collector.cfg.maxLine, sys)
    }

    constructor (collector: Collector)
      requires collector.Valid() && collector.pendingBoundaries == 0
      requires collector.View() == Init(collector.file.data).r
      ensures Valid() && this.collector == collector && sys == Init(collector.file.data)
    {
      this.collector := collector;
      sem, epoch, gens, results := None, 0, [], map[];
      sys := Init(collector.file.data);
      RunKeepsInv(collector.cfg.maxLine, collector.file.data, []);
    }

    /** The web server appends to the log. */
    method LogWritten(bytes: seq<Byte>)
      requires Valid()
      modifies this`sys, collector.file
      ensures Valid() && sys == Step(collector.cfg.maxLine, old(sys), Append(bytes))
    {
      hide Inv, Summary, AllTied;
      StepKeepsInv(collector.cfg.maxLine, sys, Append(bytes));
      collector.file.data := collector.file.data + bytes;
      sys := Step(collector.cfg.maxLine, sys, Append(bytes));
    }

    method Boundary(runID: string, ep: nat, phase: Phase) returns (reply: Reply)
      requires Valid()
      modifies this`epoch, this`gens, this`results, this`sys, collector`pendingBoundaries
      ensures Valid() && reply == BoundaryReply(old(sys), Key(runID, ep, phase))
      ensures sys == Step(collector.cfg.maxLine, old(sys), LogGenerations.Boundary(Key(runID, ep, phase)))
    {
      hide Inv, Summary, AllTied;
      var key := Key(runID, ep, phase);
      StepKeepsInv(collector.cfg.maxLine, sys, LogGenerations.Boundary(key));
      SameNumber(collector.cfg, gens, sys.gens);
      sys := Step(collector.cfg.maxLine, sys, LogGenerations.Boundary(key));
      if ep < epoch { return StaleEpoch; }
      if key in results { return results[key]; }
      if ep > epoch {
        epoch := ep;
        results := map[];
      }
      if phase == FinishFreeze && gens == [] {
        reply := FreezeWithoutBoundary;
        results := results[key := reply];
        return;
      }
      var size := |collector.file.data|;
      var point := if size > collector.offset then size else collector.offset;
      collector.pendingBoundaries := collector.pendingBoundaries + 1;
      reply := Committed(|gens|);
      MintTied(collector.cfg, gens, old(sys).gens, point);
      gens := gens + [LogGeneration(point, false, None, false)];
      results := results[key := reply];
    }

    /** A display read: refreshes the aggregate only while no boundary is outstanding. */
    method Peek() returns (snap: Tally, ghost n: nat)
      requires Valid()
      modifies this`sys, collector
      ensures Valid() && sys == Step(collector.cfg.maxLine, old(sys), LogGenerations.Peek(n))
      ensures snap == Summary(collector.cfg, EMPTY_TALLY, sys.r.live) && Tells(collector.cfg, sys.r.live, snap)
      ensures old(sys).pendingBoundaries > 0 ==> sys.r == old(sys).r
    {
      hide Inv, Step, Summary, AllTied, Read, Tells;
      n := 0;
      PeekStep(collector.cfg.maxLine, sys, 0);
      if collector.pendingBoundaries == 0 {
        var left, _ := collector.ReadToEOF(MAX_COLLECT_BYTES);
        n := MAX_COLLECT_BYTES - left;
        PeekStep(collector.cfg.maxLine, sys, n);
        StepKeepsInv(collector.cfg.maxLine, sys, LogGenerations.Peek(n));
        sys := Step(collector.cfg.maxLine, sys, LogGenerations.Peek(n));
      }
      SummaryTells(collector.cfg, sys.r.live);
      snap := collector.Aggregate();
    }

    /** What a handle collects tells exactly the lines its generation retained. */
    method Collect(g: nat) returns (r: CollectResult)
      requires Valid()
      ensures r.UnknownHandle? <==> g >= |gens|
      ensures g < |gens| ==> (r.HandleReleased? <==> gens[g].released)
      ensures r.NotDrained? <==> g < |gens| && !gens[g].released && gens[g].snap.None?
      ensures r.Value? ==> g < |sys.gens| && sys.gens[g].snap.Some? && Tells(collector.cfg, sys.gens[g].snap.value, r.snap)
      ensures g < |gens| && gens[g].done && !gens[g].released && sys.gens[g].cut.value.keep ==>
                r.Value? && Tells(collector.cfg, sys.gens[g].cut.value.value, r.snap)
    {
      hide Tells;
      if g >= |gens| { return UnknownHandle; }
      assert Tied(collector.cfg, gens[g], sys.gens[g]);
      InvParts(collector.cfg.maxLine, sys);
      assert GenInv(collector.cfg.maxLine, sys.r.log, sys.r.base, sys.gens[g]);
      if gens[g].released { return HandleReleased; }
      if gens[g].snap.None? { return NotDrained; }
      SummaryTells(collector.cfg, sys.gens[g].snap.value);
      return Value(gens[g].snap.value);
    }

    /** One protocol step taken on behalf of a drain or a release. */
    ghost method Advance(e: Event, trace: seq<Event>, s0: Sys) returns (longer: seq<Event>)
      requires Inv(collector.cfg.maxLine, sys) && sys == Run(collector.cfg.maxLine, s0, trace)
      modifies this`sys
      ensures longer == trace + [e] && sys == Step(collector.cfg.maxLine, old(sys), e)
      ensures Inv(collector.cfg.maxLine, sys) && sys == Run(collector.cfg.maxLine, s0, longer)
    {
      StepKeepsInv(collector.cfg.maxLine, sys, e);
      RunSnoc(collector.cfg.maxLine, s0, trace, e);
      hide *;
      sys := Step(collector.cfg.maxLine, sys, e);
      longer := trace + [e];
    }

    /** seal(true) of the generation that holds the semaphore and has been read to its point. */
    method SealDrained(g: nat, ghost trace: seq<Event>, ghost s0: Sys) returns (ghost longer: seq<Event>)
      requires Valid() && sys == Run(collector.cfg.maxLine, s0, trace)
      requires g < |gens| && sem == Some(g) && sys.gens[g].cut.None? && collector.offset >= gens[g].point
      modifies this`gens, this`sys, this`sem, collector
      ensures Valid() && longer == trace + [DrainCut] + [Publish(g)] + [Leave]
      ensures sys == Run(collector.cfg.maxLine, s0, longer)
      ensures |gens| == old(|gens|) && gens[g].done && sem.None?
    {
      hide Inv, Run, Summary, AllTied, Step;
      TiedAt(collector.cfg, gens, sys.gens, g);
      ghost var before := sys;
      longer := Advance(DrainCut, trace, s0);
      DrainCutStep(collector.cfg.maxLine, before, g);
      var snap := collector.CutGeneration();
      ghost var mid := sys;
      longer := Advance(Publish(g), longer, s0);
      PublishStep(collector.cfg.maxLine, mid, g);
      var v := gens[g].(done := true, snap := if gens[g].released then gens[g].snap else Some(snap));
      ReplaceTied(collector.cfg, gens, before.gens, g, v, sys.gens[g]);
      assert sys.gens == before.gens[g := sys.gens[g]];
      gens := gens[g := v];
      LeaveStep(collector.cfg.maxLine, sys);
      longer := Advance(Leave, longer, s0);
      sem := None;
    }

    /** The drain gives up: what was read so far is retained as a partial value. */
    method Abandon(g: nat, ghost trace: seq<Event>, ghost s0: Sys) returns (ghost longer: seq<Event>)
      requires Valid() && sys == Run(collector.cfg.maxLine, s0, trace)
      requires g < |gens| && sem == Some(g) && sys.gens[g].cut.None?
      modifies this`gens, this`sys, this`sem
      ensures Valid() && longer == trace + [Interrupt]
      ensures sys == Run(collector.cfg.maxLine, s0, longer)
      ensures |gens| == old(|gens|) && sem.None?
    {
      hide Inv, Run, Summary, AllTied, Step;
      TiedAt(collector.cfg, gens, sys.gens, g);
      InterruptStep(collector.cfg.maxLine, sys, g);
      longer := Advance(Interrupt, trace, s0);
      if !gens[g].released {
        var v := gens[g].(snap := Some(collector.Aggregate()));
        ReplaceTied(collector.cfg, gens, old(sys).gens, g, v, sys.gens[g]);
        gens := gens[g := v];
      } else {
        assert sys.gens == old(sys).gens;
      }
      sem := None;
    }

    /** The state of a drain that holds the semaphore for generation `g` and has not sealed it. */
    ghost predicate Draining(g: nat, trace: seq<Event>, s0: Sys)
      reads this, collector, collector.file
    {
      && Valid() && sys == Run(collector.cfg.maxLine, s0, trace)
      && g < |gens| && |gens| == |sys.gens| && sem == Some(g) && sys.gens[g].cut.None?
      && gens[g].point == sys.gens[g].point
      && forall i :: 0 <= i < |trace| ==> DrainEvent(trace[i], g)
    }

    /** Reads one bounded chunk and reports whether the freeze point has been reached. */
    method CatchUpChunk(g: nat, ghost trace: seq<Event>, ghost s0: Sys)
      returns (done: bool, interrupted: bool, ghost longer: seq<Event>)
      requires Draining(g, trace, s0)
      modifies this`sys, collector
      ensures Draining(g, longer, s0)
      ensures done ==> collector.offset >= gens[g].point
      ensures !done && !interrupted ==> old(collector.offset) < collector.offset < gens[g].point
    {
      hide Inv, Run, Step, Summary, AllTied, Read, Window, StateAt;
      longer := trace;
      if gens[g].point <= collector.offset { return true, false, longer; }
      var limit := gens[g].point - collector.offset;
      if limit > DRAIN_CHUNK_BYTES { limit := DRAIN_CHUNK_BYTES; }
      PointInLog(collector.cfg.maxLine, sys, g);
      var left, outcome := collector.ReadToEOF(limit);
      ChunkStep(collector.cfg.maxLine, sys, limit - left);
      longer := Advance(Chunk(limit - left), trace, s0);
      done := outcome == EndOfFile || (outcome == LimitReached && collector.offset >= gens[g].point);
      interrupted := outcome == Cancelled;
    }

    /** Reads up to the generation's freeze point and not one byte further, then seals it.  A
        caller that would have to wait for the predecessor or the semaphore is reported as
        interrupted, which is what happens when its context expires first. */
    method Drain(g: nat) returns (result: DrainResult, ghost trace: seq<Event>)
      requires Valid()
      modifies this`gens, this`sys, this`sem, collector
      ensures Valid() && sys == Run(collector.cfg.maxLine, old(sys), trace)
      ensures forall i :: 0 <= i < |trace| ==> DrainEvent(trace[i], g)
      ensures result.ForeignHandle? <==> g >= |old(gens)|
      ensures result.Drained? ==> g < |gens| && gens[g].done
    {
      hide Inv, Run, Step, Summary, AllTied, Read, Window, StateAt;
      trace := [];
      ghost var s0 := sys;
      RunNothing(collector.cfg.maxLine, s0);
      SameNumber(collector.cfg, gens, sys.gens);
      if g >= |gens| { return ForeignHandle, []; }
      TiedAt(collector.cfg, gens, sys.gens, g);
      if gens[g].done { return Drained, []; }
      if g > 0 {
        TiedAt(collector.cfg, gens, sys.gens, g - 1);
        if !gens[g - 1].done { return Interrupted, []; }
      }
      if sem.Some? { return Interrupted, []; }
      EnterStep(collector.cfg.maxLine, sys, g);
      trace := Advance(Enter(g), trace, s0);
      sem := Some(g);
      var done, interrupted := false, false;
      while !done
        invariant Draining(g, trace, s0) && gens == old(gens)
        invariant done ==> collector.offset >= gens[g].point
        decreases !done, if collector.offset < gens[g].point then gens[g].point - collector.offset else 0
      {
        if * { interrupted := true; }
        if !interrupted {
          done, interrupted, trace := CatchUpChunk(g, trace, s0);
        }
        if interrupted {
          trace := Abandon(g, trace, s0);
          return Interrupted, trace;
        }
      }
      trace := SealDrained(g, trace, s0);
      return Drained, trace;
    }

    /** Drops the frozen value; an unsealed generation is cut without reading. */
    method Release(g: nat)
      requires Valid()
      modifies this`gens, this`sys, collector
      ensures Valid()
      ensures sys == Run(collector.cfg.maxLine, old(sys), [ReleaseMark(g)] + [ReleaseCut(g)] + [Publish(g)])
      ensures g < |gens| ==> gens[g].released && gens[g].done
    {
      hide Inv, Run, Summary, AllTied, Step;
      RunNothing(collector.cfg.maxLine, sys);
      SameNumber(collector.cfg, gens, sys.gens);
      ghost var s0 := sys;
      if g < |gens| { TiedAt(collector.cfg, gens, s0.gens, g); }
      ReleaseSteps(collector.cfg.maxLine, s0, g);
      ghost var trace := Advance(ReleaseMark(g), [], s0);
      assert trace == [ReleaseMark(g)];
      trace := Advance(ReleaseCut(g), trace, s0);
      trace := Advance(Publish(g), trace, s0);
      if g < |gens| {
        if !gens[g].done {
          var _ := collector.CutGeneration();
        }
        var v := gens[g].(released := true, snap := None, done := true);
        ReplaceTied(collector.cfg, gens, s0.gens, g, v, sys.gens[g]);
        gens := gens[g := v];
      }
    }
  }

  lemma RunNothing(max: nat, s: Sys)
    ensures Run(max, s, []) == s
  {
  }

  lemma PointInLog(max: nat, s: Sys, g: nat)
    requires Inv(max, s) && g < |s.gens|
    ensures s.gens[g].point <= |s.r.log|
  {
    assert GenInv(max, s.r.log, s.r.base, s.gens[g]);
  }

  lemma PeekStep(max: nat, s: Sys, n: nat)
    requires s.r.offset + n <= |s.r.log|
    ensures Step(max, s, Peek(n)) == if s.pendingBoundaries == 0 then s.(r := Read(max, s.r, n)) else s
    ensures n == 0 ==> Step(max, s, Peek(n)) == s
  {
    if n == 0 { ReadNothing(max, s.r); }
  }

  lemma ReleaseSteps(max: nat, s: Sys, g: nat)
    requires g < |s.gens| ==> (s.gens[g].done <==> s.gens[g].cut.Some?)
    ensures var t := Step(max, Step(max, Step(max, s, ReleaseMark(g)), ReleaseCut(g)), Publish(g));
            if g >= |s.gens| then t == s
            else
              && t.gens == s.gens[g := t.gens[g]] && t.gens[g].point == s.gens[g].point
              && t.gens[g].released && t.gens[g].snap == None
              && t.gens[g].cut.Some? && t.gens[g].done
              && t.holder == s.holder && t.epoch == s.epoch && t.results == s.results
              && (s.gens[g].cut.Some? ==> t.r == s.r && t.pendingBoundaries == s.pendingBoundaries)
              && (s.gens[g].cut.None? ==>
                   && t.r == s.r.(live := [], lastCut := s.r.offset)
                   && t.pendingBoundaries == (if s.pendingBoundaries > 0 then s.pendingBoundaries - 1 else 0))
  {
    if g < |s.gens| {
      var s1 := Step(max, s, ReleaseMark(g));
      var s2 := Step(max, s1, ReleaseCut(g));
      assert s2.gens == s.gens[g := s2.gens[g]];
    }
  }

  lemma EnterStep(max: nat, s: Sys, g: nat)
    requires CanEnter(s, g)
    ensures Step(max, s, Enter(g)) == s.(holder := Some(g))
  {
  }

  lemma ChunkStep(max: nat, s: Sys, n: nat)
    requires ReadsChunk(s, n)
    ensures Step(max, s, Chunk(n)) == s.(r := Read(max, s.r, n))
    ensures Step(max, s, Chunk(n)).r.offset == s.r.offset + n
  {
  }

  lemma DrainCutStep(max: nat, s: Sys, g: nat)
    requires DrainCuts(s) && s.holder == Some(g)
    ensures Step(max, s, DrainCut) == CutGeneration(s, g, true)
  {
  }

  lemma PublishStep(max: nat, s: Sys, g: nat)
    requires g < |s.gens|
    ensures Step(max, s, Publish(g)) == s.(gens := s.gens[g := PublishGen(s.gens[g])])
  {
  }

  lemma LeaveStep(max: nat, s: Sys)
    requires Holds(s) && s.gens[s.holder.value].done
    ensures Step(max, s, Leave) == s.(holder := None)
  {
  }

  lemma InterruptStep(max: nat, s: Sys, g: nat)
    requires s.holder == Some(g) && g < |s.gens| && s.gens[g].cut.None?
    ensures Step(max, s, Interrupt) == s.(holder := None, gens := s.gens[g := Retain(s.gens[g], s.r.live)])
  {
  }
}
