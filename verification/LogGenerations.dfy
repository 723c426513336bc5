/** The access-log generation protocol (accesslog/generation.go) as a state machine.

    A boundary fixes the byte offset at which a generation ends; drains later read up to it
    in bounded chunks while the log grows, display peeks and further boundaries interleave.
    One `Event` is one lock-held region of the source, so a sequence of events is an
    interleaving of any number of concurrent callers.

    The aggregate is represented by the line events it was fed (`live`); the counters shown to
    a user are `LogLines.Summary` of them.  `Cut`, `order` and `lastCut` record when the
    aggregate was cut and at which offsets; the protocol never reads them back.
 */
module LogGenerations {
  import opened Wrappers
  import opened LogLines

  datatype Phase = StartBoundary | FinishFreeze

  datatype Key = Key(runID: string, epoch: nat, phase: Phase)

  datatype Reply = Committed(gen: nat) | FreezeWithoutBoundary | StaleEpoch

  /** The reading half: the log, the position in it and the live aggregate. */
  datatype Reader = Reader(log: seq<Byte>, base: nat, offset: nat, line: LineState, live: seq<LineEvent>, lastCut: nat)

  /** The `index`-th cut of the aggregate; the aggregate had covered the bytes `[from, to)`. */
  datatype Cut = Cut(index: nat, from: nat, to: nat, value: seq<LineEvent>, keep: bool)

  datatype Gen = Gen(point: nat, cut: Option<Cut>, done: bool, snap: Option<seq<LineEvent>>, released: bool)

  datatype Sys = Sys(
    r: Reader,
    gens: seq<Gen>,
    order: seq<nat>,
    pendingBoundaries: nat,
    holder: Option<nat>,
    epoch: nat,
    results: map<Key, Reply>)

  datatype Event =
    | Append(bytes: seq<Byte>)       // the web server writes the log
    | Peek(n: nat)                   // a display read of n bytes, if no boundary is outstanding
    | Boundary(key: Key)
    | Enter(g: nat)                  // a drain passes its predecessor and takes the semaphore
    | Chunk(n: nat)                  // one chunk of the holder's catch-up
    | Interrupt                      // the holder's context expires
    | DrainCut                       // the holder seals: cutGeneration
    | Publish(g: nat)                // seal retains the value and closes done
    | Leave                          // the holder returns the semaphore
    | ReleaseMark(g: nat)            // Release drops the frozen value
    | ReleaseCut(g: nat)             // Release seals: cutGeneration without reading

  /** A collector opened at the current end of the log. */
  function Init(log: seq<Byte>): Sys {
    Sys(Reader(log, |log|, |log|, FRESH, [], |log|), [], [], 0, None, 0, map[])
  }

  // ---------------------------------------------------------------- steps

  function Read(max: nat, r: Reader, n: nat): Reader
    requires r.offset + n <= |r.log|
  {
    var data := r.log[r.offset..r.offset + n];
    r.(offset := r.offset + n,
       line := StateAfter(max, r.line, data),
       live := r.live + EventsOf(max, r.line, data))
  }

  function BoundaryReply(s: Sys, key: Key): Reply {
    if key.epoch < s.epoch then StaleEpoch
    else if key in s.results then s.results[key]
    else if key.phase == FinishFreeze && s.gens == [] then FreezeWithoutBoundary
    else Committed(|s.gens|)
  }

  function FreezePoint(r: Reader): nat {
    if |r.log| > r.offset then |r.log| else r.offset
  }

  function TakeBoundary(s: Sys, key: Key): Sys {
    if key.epoch < s.epoch || key in s.results then s
    else
      var kept := if key.epoch > s.epoch then map[] else s.results;
      var t := s.(epoch := key.epoch, results := kept[key := BoundaryReply(s, key)]);
      if key.phase == FinishFreeze && s.gens == [] then t
      else
        t.(gens := s.gens + [Gen(FreezePoint(s.r), None, false, None, false)],
           pendingBoundaries := s.pendingBoundaries + 1)
  }

  function CutGeneration(s: Sys, g: nat, keep: bool): Sys
    requires g < |s.gens|
  {
    var cut := Cut(|s.order|, s.r.lastCut, s.r.offset, s.r.live, keep);
    s.(gens := s.gens[g := s.gens[g].(cut := Some(cut))],
       r := s.r.(live := [], lastCut := s.r.offset),
       pendingBoundaries := if s.pendingBoundaries > 0 then s.pendingBoundaries - 1 else 0,
       order := s.order + [g])
  }

  predicate CanEnter(s: Sys, g: nat) {
    g < |s.gens| && s.holder.None? && !s.gens[g].done && (g == 0 || s.gens[g - 1].done)
  }

  predicate Holds(s: Sys) {
    s.holder.Some? && s.holder.value < |s.gens|
  }

  predicate ReadsChunk(s: Sys, n: nat) {
    Holds(s) && s.r.offset + n <= s.gens[s.holder.value].point <= |s.r.log|
  }

  predicate DrainCuts(s: Sys) {
    Holds(s) && s.gens[s.holder.value].cut.None? && s.r.offset >= s.gens[s.holder.value].point
  }

  predicate ReleaseCuts(s: Sys, g: nat) {
    g < |s.gens| && s.gens[g].released && s.gens[g].cut.None?
  }

  /** A released generation keeps nothing. */
  function Retain(g: Gen, value: seq<LineEvent>): Gen {
    if g.released then g else g.(snap := Some(value))
  }

  function PublishGen(g: Gen): Gen {
    if g.cut.None? || g.done then g
    else (if g.cut.value.keep then Retain(g, g.cut.value.value) else g).(done := true)
  }

  function Step(max: nat, s: Sys, e: Event): Sys {
    match e
    case Append(bytes) => s.(r := s.r.(log := s.r.log + bytes))
    case Peek(n) =>
      if s.pendingBoundaries == 0 && s.r.offset + n <= |s.r.log| then s.(r := Read(max, s.r, n)) else s
    case Boundary(key) => TakeBoundary(s, key)
    case Enter(g) => if CanEnter(s, g) then s.(holder := Some(g)) else s
    case Chunk(n) => if ReadsChunk(s, n) then s.(r := Read(max, s.r, n)) else s
    case Interrupt =>
      if !Holds(s) || s.gens[s.holder.value].cut.Some? then s
      else
        var h := s.holder.value;
        s.(holder := None, gens := s.gens[h := Retain(s.gens[h], s.r.live)])
    case DrainCut => if DrainCuts(s) then CutGeneration(s, s.holder.value, true) else s
    case Publish(g) => if g < |s.gens| then s.(gens := s.gens[g := PublishGen(s.gens[g])]) else s
    case Leave => if Holds(s) && s.gens[s.holder.value].done then s.(holder := None) else s
    case ReleaseMark(g) =>
      if g < |s.gens| then s.(gens := s.gens[g := s.gens[g].(released := true, snap := None)]) else s
    case ReleaseCut(g) => if ReleaseCuts(s, g) then CutGeneration(s, g, false) else s
  }

  function Run(max: nat, s: Sys, es: seq<Event>): Sys {
    if es == [] then s else Step(max, Run(max, s, es[..|es| - 1]), es[|es| - 1])
  }

  lemma RunSnoc(max: nat, s: Sys, es: seq<Event>, e: Event)
    ensures Run(max, s, es + [e]) == Step(max, Run(max, s, es), e)
  {
    assert (es + [e])[..|es|] == es;
  }

  lemma {:induction false} RunConcat(max: nat, s: Sys, a: seq<Event>, b: seq<Event>)
    ensures Run(max, s, a + b) == Run(max, Run(max, s, a), b)
  {
    if b == [] {
      assert a + b == a;
    } else {
      assert (a + b)[..|a + b| - 1] == a + b[..|b| - 1];
      RunConcat(max, s, a, b[..|b| - 1]);
    }
  }

  // ---------------------------------------------------------------- what every step keeps

  function Uncut(gens: seq<Gen>): nat {
    if gens == [] then 0
    else Uncut(gens[..|gens| - 1]) + if gens[|gens| - 1].cut.None? then 1 else 0
  }

  /** The lower edge of generation `k`: its predecessor's freeze point. */
  function Lower(s: Sys, k: nat): nat
    requires k <= |s.gens|
  {
    if k == 0 then s.r.base else s.gens[k - 1].point
  }

  ghost predicate ReaderInv(max: nat, r: Reader) {
    && r.base <= r.lastCut <= r.offset <= |r.log|
    && r.line == StateAt(max, r.log, r.base, r.offset)
    && r.live == Window(max, r.log, r.base, r.lastCut, r.offset)
  }

  ghost predicate CutInv(max: nat, log: seq<Byte>, base: nat, c: Cut) {
    && base <= c.from <= c.to <= |log|
    && c.value == Window(max, log, base, c.from, c.to)
  }

  ghost predicate GenInv(max: nat, log: seq<Byte>, base: nat, g: Gen) {
    && g.point <= |log|
    && (g.cut.Some? ==> CutInv(max, log, base, g.cut.value))
    && (g.done ==> g.cut.Some?)
    && (g.done && g.cut.value.keep && !g.released ==> g.snap == Some(g.cut.value.value))
    && (g.released ==> g.snap.None?)
  }

  ghost predicate GensInv(max: nat, log: seq<Byte>, base: nat, gens: seq<Gen>) {
    && (forall g :: 0 <= g < |gens| ==> GenInv(max, log, base, gens[g]))
    && (forall i, j :: 0 <= i <= j < |gens| ==> gens[i].point <= gens[j].point)
  }

  ghost predicate OrderInv(gens: seq<Gen>, order: seq<nat>) {
    && (forall j :: 0 <= j < |order| ==>
         order[j] < |gens| && gens[order[j]].cut.Some? && gens[order[j]].cut.value.index == j)
    && (forall g :: 0 <= g < |gens| && gens[g].cut.Some? ==>
         gens[g].cut.value.index < |order| && order[gens[g].cut.value.index] == g)
  }

  /** Where the `j`-th cut begins: where the one before it ended. */
  ghost function Edge(base: nat, gens: seq<Gen>, order: seq<nat>, j: nat): nat
    requires OrderInv(gens, order) && j <= |order|
  {
    if j == 0 then base else gens[order[j - 1]].cut.value.to
  }

  /** The cuts, in the order they were made, tile the bytes from `base` to `lastCut`. */
  ghost predicate ChainInv(base: nat, lastCut: nat, gens: seq<Gen>, order: seq<nat>)
    requires OrderInv(gens, order)
  {
    && (forall j :: 0 <= j < |order| ==> gens[order[j]].cut.value.from == Edge(base, gens, order, j))
    && lastCut == Edge(base, gens, order, |order|)
  }

  ghost predicate MemoInv(epoch: nat, results: map<Key, Reply>, n: nat) {
    && (forall k :: k in results ==> k.epoch == epoch && results[k] != StaleEpoch)
    && (forall k :: k in results && results[k].Committed? ==> results[k].gen < n)
    && (forall k, l :: k in results && l in results && k != l && results[k].Committed? ==> results[k] != results[l])
  }

  ghost predicate HolderInv(gens: seq<Gen>, holder: Option<nat>) {
    holder.Some? ==> holder.value < |gens| && (holder.value == 0 || gens[holder.value - 1].done)
  }

  ghost predicate Inv(max: nat, s: Sys) {
    && ReaderInv(max, s.r)
    && GensInv(max, s.r.log, s.r.base, s.gens)
    && OrderInv(s.gens, s.order)
    && ChainInv(s.r.base, s.r.lastCut, s.gens, s.order)
    && MemoInv(s.epoch, s.results, |s.gens|)
    && HolderInv(s.gens, s.holder)
    && s.pendingBoundaries == Uncut(s.gens)
  }

  lemma InvParts(max: nat, s: Sys)
    requires Inv(max, s)
    ensures ReaderInv(max, s.r) && s.r.base <= s.r.lastCut <= s.r.offset <= |s.r.log|
    ensures GensInv(max, s.r.log, s.r.base, s.gens)
    ensures OrderInv(s.gens, s.order) && ChainInv(s.r.base, s.r.lastCut, s.gens, s.order)
    ensures HolderInv(s.gens, s.holder) && s.pendingBoundaries == Uncut(s.gens)
  {
  }

  lemma PointsOrdered(max: nat, log: seq<Byte>, base: nat, gens: seq<Gen>, i: nat, j: nat)
    requires GensInv(max, log, base, gens) && i <= j < |gens|
    ensures gens[i].point <= gens[j].point
  {
  }

  lemma {:induction false} UncutUpdate(gens: seq<Gen>, g: nat, v: Gen)
    requires g < |gens|
    ensures Uncut(gens[g := v]) == Uncut(gens)
              - (if gens[g].cut.None? then 1 else 0) + (if v.cut.None? then 1 else 0)
  {
    var n := |gens| - 1;
    if g == n {
      assert gens[g := v][..n] == gens[..n];
    } else {
      assert gens[g := v][..n] == gens[..n][g := v];
      UncutUpdate(gens[..n], g, v);
    }
  }

  lemma {:induction false} UncutPositive(gens: seq<Gen>, g: nat)
    requires g < |gens| && gens[g].cut.None?
    ensures Uncut(gens) > 0
  {
    if g < |gens| - 1 {
      UncutPositive(gens[..|gens| - 1], g);
    }
  }

  lemma ReadKeepsReader(max: nat, r: Reader, n: nat)
    requires ReaderInv(max, r) && r.offset + n <= |r.log|
    ensures ReaderInv(max, Read(max, r, n))
  {
    hide StateAt, Window, StateAfter, EventsOf;
    ReadingWindow(max, r.log, r.base, r.offset, r.offset + n, r.line);
    WindowConcat(max, r.log, r.base, r.lastCut, r.offset, r.offset + n);
  }

  lemma AppendKeepsInv(max: nat, s: Sys, bytes: seq<Byte>)
    requires Inv(max, s)
    ensures Inv(max, Step(max, s, Append(bytes)))
  {
    var log := s.r.log + bytes;
    WindowStable(max, s.r.log, bytes, s.r.base, s.r.lastCut, s.r.offset);
    forall g | 0 <= g < |s.gens| ensures GenInv(max, log, s.r.base, s.gens[g]) {
      assert GenInv(max, s.r.log, s.r.base, s.gens[g]);
      if s.gens[g].cut.Some? {
        var c := s.gens[g].cut.value;
        WindowStable(max, s.r.log, bytes, s.r.base, c.from, c.to);
      }
    }
  }

  lemma MintKeepsGens(max: nat, r: Reader, gens: seq<Gen>)
    requires ReaderInv(max, r) && GensInv(max, r.log, r.base, gens)
    ensures GensInv(max, r.log, r.base, gens + [Gen(FreezePoint(r), None, false, None, false)])
  {
    var all := gens + [Gen(FreezePoint(r), None, false, None, false)];
    forall g | 0 <= g < |all| ensures GenInv(max, r.log, r.base, all[g]) {
      if g < |gens| { assert GenInv(max, r.log, r.base, gens[g]); }
    }
    forall i, j | 0 <= i <= j < |all| ensures all[i].point <= all[j].point {
      if i < |gens| { assert GenInv(max, r.log, r.base, gens[i]); }
    }
  }

  lemma MintKeepsOrder(base: nat, lastCut: nat, gens: seq<Gen>, order: seq<nat>, g: Gen)
    requires g.cut.None? && OrderInv(gens, order) && ChainInv(base, lastCut, gens, order)
    ensures OrderInv(gens + [g], order) && ChainInv(base, lastCut, gens + [g], order)
  {
    assert forall j :: 0 <= j < |order| ==> (gens + [g])[order[j]] == gens[order[j]];
    assert forall j :: 0 <= j <= |order| ==> Edge(base, gens + [g], order, j) == Edge(base, gens, order, j);
  }

  lemma BoundaryKeepsInv(max: nat, s: Sys, key: Key)
    requires Inv(max, s)
    ensures Inv(max, TakeBoundary(s, key))
  {
    hide ReaderInv, GensInv, OrderInv, ChainInv, FreezePoint;
    var t := TakeBoundary(s, key);
    if t.gens != s.gens {
      var g := Gen(FreezePoint(s.r), None, false, None, false);
      assert t.gens == s.gens + [g] && t.gens[..|s.gens|] == s.gens;
      MintKeepsGens(max, s.r, s.gens);
      MintKeepsOrder(s.r.base, s.r.lastCut, s.gens, s.order, g);
    }
  }

  lemma CutKeepsOrder(s: Sys, g: nat, keep: bool)
    requires OrderInv(s.gens, s.order) && ChainInv(s.r.base, s.r.lastCut, s.gens, s.order)
    requires g < |s.gens| && s.gens[g].cut.None?
    ensures var t := CutGeneration(s, g, keep);
            OrderInv(t.gens, t.order) && ChainInv(t.r.base, t.r.lastCut, t.gens, t.order)
  {
    var t := CutGeneration(s, g, keep);
    AddToOrder(s.gens, s.order, g, t.gens[g]);
    var n := |s.order|;
    hide OrderInv;
    forall j | 0 <= j <= n ensures Edge(t.r.base, t.gens, t.order, j) == Edge(s.r.base, s.gens, s.order, j) {
      if j > 0 { OrderFacts(s.gens, s.order, j - 1); }
    }
    forall j | 0 <= j < |t.order|
      ensures OrderInv(t.gens, t.order) && t.order[j] < |t.gens| && t.gens[t.order[j]].cut.Some?
      ensures t.gens[t.order[j]].cut.value.from == Edge(t.r.base, t.gens, t.order, j)
    {
      OrderFacts(t.gens, t.order, j);
      if j < n {
        OrderFacts(s.gens, s.order, j);
      }
    }
  }

  lemma OrderFacts(gens: seq<Gen>, order: seq<nat>, j: nat)
    requires OrderInv(gens, order) && j < |order|
    ensures order[j] < |gens| && gens[order[j]].cut.Some? && gens[order[j]].cut.value.index == j
  {
  }

  lemma AddToOrder(gens: seq<Gen>, order: seq<nat>, g: nat, v: Gen)
    requires OrderInv(gens, order) && g < |gens| && gens[g].cut.None?
    requires v.cut.Some? && v.cut.value.index == |order|
    ensures OrderInv(gens[g := v], order + [g])
  {
  }

  lemma UpdateGen(max: nat, log: seq<Byte>, base: nat, gens: seq<Gen>, g: nat, v: Gen)
    requires GensInv(max, log, base, gens) && g < |gens| && GenInv(max, log, base, v) && v.point == gens[g].point
    ensures GensInv(max, log, base, gens[g := v])
  {
  }

  lemma CutKeepsInv(max: nat, s: Sys, g: nat, keep: bool)
    requires Inv(max, s) && g < |s.gens| && s.gens[g].cut.None?
    ensures Inv(max, CutGeneration(s, g, keep))
  {
    hide ReaderInv, GenInv, GensInv, OrderInv, ChainInv, MemoInv, Uncut;
    var t := CutGeneration(s, g, keep);
    InvParts(max, s);
    CutReader(max, s.r);
    CutGen(max, s.r, s.gens, g, t.gens[g].cut.value);
    UncutPositive(s.gens, g);
    UncutUpdate(s.gens, g, t.gens[g]);
    CutKeepsOrder(s, g, keep);
    UpdateGen(max, s.r.log, s.r.base, s.gens, g, t.gens[g]);
  }

  lemma CutGen(max: nat, r: Reader, gens: seq<Gen>, g: nat, c: Cut)
    requires ReaderInv(max, r) && GensInv(max, r.log, r.base, gens) && g < |gens| && gens[g].cut.None?
    requires c.from == r.lastCut && c.to == r.offset && c.value == r.live
    ensures GenInv(max, r.log, r.base, gens[g].(cut := Some(c)))
  {
    assert GenInv(max, r.log, r.base, gens[g]);
  }

  lemma CutReader(max: nat, r: Reader)
    requires ReaderInv(max, r)
    ensures ReaderInv(max, r.(live := [], lastCut := r.offset))
  {
  }

  lemma UpdateKeepsOrder(base: nat, lastCut: nat, gens: seq<Gen>, order: seq<nat>, g: nat, v: Gen)
    requires OrderInv(gens, order) && ChainInv(base, lastCut, gens, order) && g < |gens| && v.cut == gens[g].cut
    ensures OrderInv(gens[g := v], order) && ChainInv(base, lastCut, gens[g := v], order)
  {
    assert forall j :: 0 <= j < |order| ==> gens[g := v][order[j]].cut == gens[order[j]].cut;
    assert OrderInv(gens[g := v], order);
    assert forall j :: 0 <= j <= |order| ==> Edge(base, gens[g := v], order, j) == Edge(base, gens, order, j);
  }

  /** Replacing a generation without touching its point or its cut keeps the bookkeeping. */
  lemma UpdateKeepsInv(max: nat, s: Sys, g: nat, v: Gen, holder: Option<nat>)
    requires Inv(max, s) && g < |s.gens|
    requires v.point == s.gens[g].point && v.cut == s.gens[g].cut && (s.gens[g].done ==> v.done)
    requires GenInv(max, s.r.log, s.r.base, v) && (holder == s.holder || holder.None?)
    ensures Inv(max, s.(gens := s.gens[g := v], holder := holder))
  {
    hide ReaderInv, GensInv, OrderInv, ChainInv, MemoInv, GenInv;
    UncutUpdate(s.gens, g, v);
    UpdateKeepsOrder(s.r.base, s.r.lastCut, s.gens, s.order, g, v);
    UpdateGen(max, s.r.log, s.r.base, s.gens, g, v);
  }

  lemma StepKeepsInv(max: nat, s: Sys, e: Event)
    requires Inv(max, s)
    ensures Inv(max, Step(max, s, e))
  {
    hide ReaderInv, ChainInv, OrderInv, MemoInv, Uncut, TakeBoundary, CutGeneration;
    match e
    case Append(bytes) => AppendKeepsInv(max, s, bytes);
    case Peek(n) => if s.r.offset + n <= |s.r.log| { ReadKeepsReader(max, s.r, n); }
    case Boundary(key) => BoundaryKeepsInv(max, s, key);
    case Chunk(n) => if ReadsChunk(s, n) { ReadKeepsReader(max, s.r, n); }
    case Interrupt =>
      if Holds(s) && s.gens[s.holder.value].cut.None? {
        var h := s.holder.value;
        assert GenInv(max, s.r.log, s.r.base, s.gens[h]);
        UpdateKeepsInv(max, s, h, Retain(s.gens[h], s.r.live), None);
      }
    case DrainCut => if DrainCuts(s) { CutKeepsInv(max, s, s.holder.value, true); }
    case Publish(g) =>
      if g < |s.gens| {
        assert GenInv(max, s.r.log, s.r.base, s.gens[g]);
        UpdateKeepsInv(max, s, g, PublishGen(s.gens[g]), s.holder);
      }
    case ReleaseMark(g) =>
      if g < |s.gens| {
        assert GenInv(max, s.r.log, s.r.base, s.gens[g]);
        UpdateKeepsInv(max, s, g, s.gens[g].(released := true, snap := None), s.holder);
      }
    case ReleaseCut(g) => if ReleaseCuts(s, g) { CutKeepsInv(max, s, g, false); }
    case _ =>
  }

  /** Every reachable state satisfies the invariant, whatever is interleaved. */
  lemma {:induction false} RunKeepsInv(max: nat, log: seq<Byte>, es: seq<Event>)
    ensures Inv(max, Run(max, Init(log), es))
  {
    if es == [] {
      assert log[|log|..|log|] == [];
    } else {
      RunKeepsInv(max, log, es[..|es| - 1]);
      StepKeepsInv(max, Run(max, Init(log), es[..|es| - 1]), es[|es| - 1]);
    }
  }

  // ---------------------------------------------------------------- conservation

  /** The events of the first `n` cuts, in the order they were made. */
  function CutEvents(gens: seq<Gen>, order: seq<nat>, n: nat): seq<LineEvent>
    requires n <= |order| && forall j :: 0 <= j < |order| ==> order[j] < |gens| && gens[order[j]].cut.Some?
  {
    if n == 0 then [] else CutEvents(gens, order, n - 1) + gens[order[n - 1]].cut.value.value
  }

  lemma {:induction false} CutsTile(max: nat, r: Reader, gens: seq<Gen>, order: seq<nat>, n: nat)
    requires GensInv(max, r.log, r.base, gens) && OrderInv(gens, order)
    requires ChainInv(r.base, r.lastCut, gens, order)
    requires r.base <= |r.log| && n <= |order|
    ensures r.base <= Edge(r.base, gens, order, n) <= |r.log|
    ensures CutEvents(gens, order, n) == Window(max, r.log, r.base, r.base, Edge(r.base, gens, order, n))
    decreases n
  {
    if n > 0 {
      CutsTile(max, r, gens, order, n - 1);
      var g := gens[order[n - 1]];
      assert GenInv(max, r.log, r.base, g);
      var c := g.cut.value;
      assert c.from == Edge(r.base, gens, order, n - 1) && c.to == Edge(r.base, gens, order, n);
      hide GensInv, OrderInv, ChainInv, Window;
      WindowConcat(max, r.log, r.base, r.base, c.from, c.to);
    }
  }

  /** Nothing is counted twice and nothing is skipped, in every reachable state and however the
      generations were released: the cuts in order, followed by the live aggregate, are the
      line-splitting of everything read so far. */
  lemma Conservation(max: nat, log: seq<Byte>, es: seq<Event>)
    ensures var s := Run(max, Init(log), es);
            && OrderInv(s.gens, s.order)
            && s.r.base <= s.r.offset <= |s.r.log|
            && CutEvents(s.gens, s.order, |s.order|) + s.r.live
               == SplitLines(max, s.r.log[s.r.base..s.r.offset])
  {
    RunKeepsInv(max, log, es);
    var s := Run(max, Init(log), es);
    var r := s.r;
    CutsTile(max, r, s.gens, s.order, |s.order|);
    WindowConcat(max, r.log, r.base, r.base, r.lastCut, r.offset);
    assert StateAt(max, r.log, r.base, r.base) == FRESH by { assert r.log[r.base..r.base] == []; }
    ReadingWindow(max, r.log, r.base, r.base, r.offset, FRESH);
    SplitterMatchesLines(max, r.log[r.base..r.offset]);
  }

  // ---------------------------------------------------------------- the exact partition

  /** Generation `j` was cut as number `j`, exactly between the two freeze points. */
  ghost predicate ExactCut(s: Sys, j: nat)
    requires j < |s.order|
  {
    && s.order[j] == j < |s.gens|
    && s.gens[j].cut.Some?
    && s.gens[j].cut.value.from == Lower(s, j)
    && s.gens[j].cut.value.to == s.gens[j].point
  }

  ghost predicate Exact(s: Sys) {
    forall j :: 0 <= j < |s.order| ==> ExactCut(s, j)
  }

  /** While a boundary is outstanding the reader has not passed it. */
  ghost predicate NotPast(s: Sys) {
    |s.order| < |s.gens| ==> s.r.offset <= s.gens[|s.order|].point
  }

  /** The only step that can spoil the partition is a Release that really cuts: it is harmless
      exactly for the next generation in order, and only once its bytes have been read. */
  predicate SafeStep(s: Sys, e: Event) {
    e.ReleaseCut? && ReleaseCuts(s, e.g) ==> e.g == |s.order| && s.r.offset == s.gens[e.g].point
  }

  predicate SafeRun(max: nat, s: Sys, es: seq<Event>) {
    es == [] ||
    (SafeRun(max, s, es[..|es| - 1]) && SafeStep(Run(max, s, es[..|es| - 1]), es[|es| - 1]))
  }

  lemma CutIsPrefix(s: Sys)
    requires OrderInv(s.gens, s.order) && ChainInv(s.r.base, s.r.lastCut, s.gens, s.order) && Exact(s)
    ensures |s.order| <= |s.gens|
    ensures forall g :: 0 <= g < |s.gens| ==> (s.gens[g].cut.Some? <==> g < |s.order|)
    ensures s.r.lastCut == Lower(s, |s.order|)
  {
    if |s.order| > 0 {
      assert ExactCut(s, |s.order| - 1);
    }
    assert |s.order| <= |s.gens|;
    forall g | 0 <= g < |s.gens| ensures s.gens[g].cut.Some? <==> g < |s.order| {
      if g < |s.order| {
        assert ExactCut(s, g);
      }
      if s.gens[g].cut.Some? {
        assert ExactCut(s, s.gens[g].cut.value.index);
      }
    }
  }

  lemma NextExactCut(s: Sys, g: nat, keep: bool)
    requires Exact(s) && |s.order| <= |s.gens| && s.r.lastCut == Lower(s, |s.order|)
    requires g < |s.gens| && g == |s.order| && s.r.offset == s.gens[g].point
    ensures Exact(CutGeneration(s, g, keep))
  {
    var t := CutGeneration(s, g, keep);
    forall j | 0 <= j < |t.order| ensures ExactCut(t, j) {
      if j < |s.order| { assert ExactCut(s, j); }
    }
  }

  lemma InOrderCut(max: nat, s: Sys, g: nat, keep: bool)
    requires Inv(max, s) && Exact(s)
    requires g < |s.gens| && g == |s.order| && s.r.offset == s.gens[g].point
    ensures Exact(CutGeneration(s, g, keep)) && NotPast(CutGeneration(s, g, keep))
  {
    hide Inv, Exact, OrderInv, ChainInv, GensInv, ReaderInv, HolderInv, Uncut;
    InvParts(max, s);
    CutIsPrefix(s);
    NextExactCut(s, g, keep);
    if g + 1 < |s.gens| {
      PointsOrdered(max, s.r.log, s.r.base, s.gens, g, g + 1);
    }
  }

  /** A step that keeps the points and makes no cut keeps the exact cuts it found. */
  lemma ExactFrame(s: Sys, t: Sys)
    requires Exact(s) && t.order == s.order && t.r.base == s.r.base && |s.gens| <= |t.gens|
    requires forall g :: 0 <= g < |s.gens| ==> t.gens[g].point == s.gens[g].point && t.gens[g].cut == s.gens[g].cut
    ensures Exact(t)
  {
    forall j | 0 <= j < |t.order| ensures ExactCut(t, j) {
      assert ExactCut(s, j);
    }
  }

  /** A step never rewrites a cut that was made. */
  lemma HistoryIsFixed(max: nat, s: Sys, e: Event)
    ensures var t := Step(max, s, e);
            && s.order <= t.order && |s.gens| <= |t.gens| && t.r.base == s.r.base
            && forall g :: 0 <= g < |s.gens| ==>
                 t.gens[g].point == s.gens[g].point && (s.gens[g].cut.Some? ==> t.gens[g].cut == s.gens[g].cut)
  {
  }

  lemma HolderIsNext(max: nat, s: Sys)
    requires Inv(max, s) && Exact(s) && Holds(s)
    ensures s.holder.value <= |s.order|
  {
    CutIsPrefix(s);
    var h := s.holder.value;
    if h > 0 { assert GenInv(max, s.r.log, s.r.base, s.gens[h - 1]); }
  }

  predicate MakesCut(s: Sys, e: Event) {
    (e.DrainCut? && DrainCuts(s)) || (e.ReleaseCut? && ReleaseCuts(s, e.g))
  }

  lemma OnlyCutsCut(max: nat, s: Sys, e: Event)
    requires !MakesCut(s, e)
    ensures var t := Step(max, s, e);
            && t.order == s.order
            && forall g :: 0 <= g < |s.gens| ==> t.gens[g].cut == s.gens[g].cut
  {
  }

  /** Only these steps move the reader or add a boundary. */
  lemma OnlyReadsMove(max: nat, s: Sys, e: Event)
    ensures !e.Peek? && !e.Chunk? ==> Step(max, s, e).r.offset == s.r.offset
    ensures !e.Boundary? ==> |Step(max, s, e).gens| == |s.gens|
    ensures e.Boundary? && |Step(max, s, e).gens| > |s.gens| ==>
              Step(max, s, e).gens[|s.gens|].point == FreezePoint(s.r)
  {
  }

  lemma PeekWaits(max: nat, s: Sys, n: nat)
    requires Inv(max, s) && Exact(s) && |s.order| < |s.gens|
    ensures Step(max, s, Peek(n)) == s
  {
    CutIsPrefix(s);
    UncutPositive(s.gens, |s.order|);
  }

  lemma ChunkStopsAtPoint(max: nat, s: Sys, n: nat)
    requires Inv(max, s) && Exact(s) && NotPast(s)
    ensures NotPast(Step(max, s, Chunk(n)))
  {
    hide Inv, Exact, OrderInv, ChainInv, GensInv, ReaderInv, HolderInv, Uncut, StateAfter, EventsOf;
    if ReadsChunk(s, n) {
      InvParts(max, s);
      HolderIsNext(max, s);
      if |s.order| < |s.gens| {
        PointsOrdered(max, s.r.log, s.r.base, s.gens, s.holder.value, |s.order|);
      }
    }
  }

  lemma ReaderStaysBehind(max: nat, s: Sys, e: Event)
    requires Inv(max, s) && Exact(s) && NotPast(s) && !MakesCut(s, e)
    ensures NotPast(Step(max, s, e))
  {
    CutIsPrefix(s);
    HistoryIsFixed(max, s, e);
    OnlyCutsCut(max, s, e);
    OnlyReadsMove(max, s, e);
    assert s.r.offset <= |s.r.log|;
    hide Inv, Exact, MakesCut, Step;
    if e.Peek? {
      if |s.order| < |s.gens| { PeekWaits(max, s, e.n); }
    } else if e.Chunk? {
      ChunkStopsAtPoint(max, s, e.n);
    }
  }

  lemma ExactStep(max: nat, s: Sys, e: Event)
    requires Inv(max, s) && Exact(s) && NotPast(s) && SafeStep(s, e)
    ensures Exact(Step(max, s, e)) && NotPast(Step(max, s, e))
  {
    if !MakesCut(s, e) {
      HistoryIsFixed(max, s, e);
      OnlyCutsCut(max, s, e);
      ExactFrame(s, Step(max, s, e));
      ReaderStaysBehind(max, s, e);
    } else if e.DrainCut? {
      CutIsPrefix(s);
      HolderIsNext(max, s);
      InOrderCut(max, s, s.holder.value, true);
    } else {
      InOrderCut(max, s, e.g, false);
    }
  }

  /** So a broken partition stays broken. */
  lemma InexactForever(max: nat, s: Sys, e: Event)
    requires OrderInv(s.gens, s.order) && !Exact(s)
    ensures !Exact(Step(max, s, e))
  {
    HistoryIsFixed(max, s, e);
    var t := Step(max, s, e);
    hide Step;
    var j :| 0 <= j < |s.order| && !ExactCut(s, j);
    assert t.order[j] == s.order[j];
    assert !ExactCut(t, j);
  }

  lemma UnsafeBreaks(max: nat, s: Sys, e: Event)
    requires Inv(max, s) && Exact(s) && !SafeStep(s, e)
    ensures !Exact(Step(max, s, e))
  {
    CutIsPrefix(s);
    assert !ExactCut(Step(max, s, e), |s.order|);
  }

  /** For every interleaving, the generations partition the bytes at their freeze points if and
      only if every Release that cuts is for the next generation, already read up to its point. */
  lemma {:induction false} PartitionIff(max: nat, log: seq<Byte>, es: seq<Event>)
    ensures Exact(Run(max, Init(log), es)) <==> SafeRun(max, Init(log), es)
    ensures SafeRun(max, Init(log), es) ==> NotPast(Run(max, Init(log), es))
  {
    if es != [] {
      var front, e := es[..|es| - 1], es[|es| - 1];
      var s := Run(max, Init(log), front);
      PartitionIff(max, log, front);
      RunKeepsInv(max, log, front);
      if !Exact(s) {
        InexactForever(max, s, e);
      } else if SafeStep(s, e) {
        ExactStep(max, s, e);
      } else {
        UnsafeBreaks(max, s, e);
      }
    }
  }

  /** Each generation is drained before it is released. */
  predicate DrainedBeforeRelease(max: nat, s: Sys, es: seq<Event>) {
    es == [] ||
    (var t := Run(max, s, es[..|es| - 1]);
     var e := es[|es| - 1];
     DrainedBeforeRelease(max, s, es[..|es| - 1]) &&
     (e.ReleaseMark? && e.g < |t.gens| ==> t.gens[e.g].done))
  }

  /** Released generations were sealed by a drain. */
  ghost predicate ReleasedAfterDrain(s: Sys) {
    forall g :: 0 <= g < |s.gens| ==>
      (s.gens[g].released ==> s.gens[g].done) && (s.gens[g].cut.Some? ==> s.gens[g].cut.value.keep)
  }

  lemma DrainedStep(max: nat, s: Sys, e: Event)
    requires forall g :: 0 <= g < |s.gens| ==> (s.gens[g].done ==> s.gens[g].cut.Some?)
    requires ReleasedAfterDrain(s)
    requires e.ReleaseMark? && e.g < |s.gens| ==> s.gens[e.g].done
    ensures SafeStep(s, e) && ReleasedAfterDrain(Step(max, s, e))
  {
  }

  lemma {:induction false} DrainedIsSafe(max: nat, log: seq<Byte>, es: seq<Event>)
    requires DrainedBeforeRelease(max, Init(log), es)
    ensures SafeRun(max, Init(log), es) && ReleasedAfterDrain(Run(max, Init(log), es))
  {
    if es != [] {
      var front, e := es[..|es| - 1], es[|es| - 1];
      DrainedIsSafe(max, log, front);
      RunKeepsInv(max, log, front);
      var s := Run(max, Init(log), front);
      assert forall g :: 0 <= g < |s.gens| ==> GenInv(max, s.r.log, s.r.base, s.gens[g]);
      DrainedStep(max, s, e);
    }
  }

  lemma {:induction false} UncutSuffix(gens: seq<Gen>, m: nat)
    requires m <= |gens| && forall g :: 0 <= g < |gens| ==> (gens[g].cut.Some? <==> g < m)
    ensures Uncut(gens) == |gens| - m
  {
    if gens != [] {
      UncutSuffix(gens[..|gens| - 1], if m == |gens| then m - 1 else m);
    }
  }

  /** The partition theorem.  When every generation is drained before it is released, a drained
      generation holds exactly the events of the bytes between its predecessor's freeze point
      and its own, the live aggregate holds exactly the rest, and the collector's count of
      outstanding boundaries is the number of generations not yet cut. */
  lemma Partition(max: nat, log: seq<Byte>, es: seq<Event>)
    requires DrainedBeforeRelease(max, Init(log), es)
    ensures var s := Run(max, Init(log), es);
            && s.r.base <= s.r.offset <= |s.r.log| && |s.order| <= |s.gens| && Exact(s)
            && (forall k :: 0 <= k < |s.gens| && s.gens[k].done ==>
                 && k < |s.order|
                 && s.r.base <= Lower(s, k) <= s.gens[k].point <= |s.r.log|
                 && (!s.gens[k].released ==>
                      s.gens[k].snap == Some(Window(max, s.r.log, s.r.base, Lower(s, k), s.gens[k].point))))
            && s.r.base <= Lower(s, |s.order|) <= s.r.offset
            && s.r.live == Window(max, s.r.log, s.r.base, Lower(s, |s.order|), s.r.offset)
            && s.pendingBoundaries == |s.gens| - |s.order|
  {
    DrainedIsSafe(max, log, es);
    PartitionIff(max, log, es);
    RunKeepsInv(max, log, es);
    var s := Run(max, Init(log), es);
    CutIsPrefix(s);
    UncutSuffix(s.gens, |s.order|);
    forall k | 0 <= k < |s.gens| && s.gens[k].done
      ensures k < |s.order|
      ensures s.r.base <= Lower(s, k) <= s.gens[k].point <= |s.r.log|
      ensures !s.gens[k].released ==>
                s.gens[k].snap == Some(Window(max, s.r.log, s.r.base, Lower(s, k), s.gens[k].point))
    {
      assert GenInv(max, s.r.log, s.r.base, s.gens[k]);
      assert ExactCut(s, k);
    }
  }

  /** The state after one line was logged and two boundaries were taken behind it. */
  function TwoBoundaries(line: seq<Byte>): Sys {
    var g := Gen(|line|, None, false, None, false);
    Sys(Reader(line, 0, 0, FRESH, [], 0), [g, g], [], 2, None, 2, map[Key("b", 2, StartBoundary) := Committed(1)])
  }

  lemma TwoBoundariesReached(max: nat, line: seq<Byte>)
    ensures Run(max, Init([]), [Append(line), Boundary(Key("a", 1, StartBoundary)), Boundary(Key("b", 2, StartBoundary))])
         == TwoBoundaries(line)
  {
    var k1, k2 := Key("a", 1, StartBoundary), Key("b", 2, StartBoundary);
    var g := Gen(|line|, None, false, None, false);
    var s1 := Sys(Reader(line, 0, 0, FRESH, [], 0), [], [], 0, None, 0, map[]);
    var s2 := s1.(gens := [g], pendingBoundaries := 1, epoch := 1, results := map[k1 := Committed(0)]);
    assert Step(max, Init([]), Append(line)) == s1;
    assert Step(max, s1, Boundary(k1)) == s2;
    assert Step(max, s2, Boundary(k2)) == TwoBoundaries(line);
    hide Step, TakeBoundary, BoundaryReply, TwoBoundaries;
    RunSnoc(max, Init([]), [], Append(line));
    RunSnoc(max, Init([]), [Append(line)], Boundary(k1));
    RunSnoc(max, Init([]), [Append(line), Boundary(k1)], Boundary(k2));
    assert [] + [Append(line)] == [Append(line)];
    assert [Append(line)] + [Boundary(k1)] == [Append(line), Boundary(k1)];
    assert [Append(line), Boundary(k1)] + [Boundary(k2)] == [Append(line), Boundary(k1), Boundary(k2)];
  }

  /** Releasing an undrained generation hands its unread bytes to the next one.  With one line
      in the log and two boundaries taken after it, both generations end at the same byte;
      releasing the first one unread cuts it at byte 0, and its line is left for the second. */
  lemma EarlyReleaseLeaks(max: nat, line: seq<Byte>)
    requires line != []
    ensures var es := [Append(line), Boundary(Key("a", 1, StartBoundary)), Boundary(Key("b", 2, StartBoundary))]
                      + [ReleaseMark(0)] + [ReleaseCut(0)];
            var s := Run(max, Init([]), es);
            && !SafeRun(max, Init([]), es) && !Exact(s)
            && |s.gens| == 2 && s.gens[0].point == s.gens[1].point == |line| && s.r.lastCut == 0
  {
    var front := [Append(line), Boundary(Key("a", 1, StartBoundary)), Boundary(Key("b", 2, StartBoundary))];
    var s3 := TwoBoundaries(line);
    var s4 := Step(max, s3, ReleaseMark(0));
    assert ReleaseCuts(s4, 0) && s4.order == [] && s4.r.offset == s4.r.lastCut == 0;
    assert |s4.gens| == 2 && s4.gens[0].point == s4.gens[1].point == |line|;
    TwoBoundariesReached(max, line);
    hide Step, TwoBoundaries;
    RunSnoc(max, Init([]), front, ReleaseMark(0));
    RunSnoc(max, Init([]), front + [ReleaseMark(0)], ReleaseCut(0));
    ReleasedUnread(max, s4);
    var es := front + [ReleaseMark(0)] + [ReleaseCut(0)];
    assert es[..|es| - 1] == front + [ReleaseMark(0)];
    PartitionIff(max, [], es);
  }

  /** The states of the same run as it goes on: the second generation is drained. */
  function Leaked(line: seq<Byte>, g0: Gen, g1: Gen, r: Reader, pending: nat, order: seq<nat>, holder: Option<nat>): Sys {
    Sys(r, [g0, g1], order, pending, holder, 2, map[Key("b", 2, StartBoundary) := Committed(1)])
  }

  const LEAKING := [ReleaseMark(0), ReleaseCut(0), Publish(0), Enter(1)]

  lemma FirstReleased(max: nat, line: seq<Byte>)
    requires line != []
    ensures var c0 := Cut(0, 0, 0, [], false);
            var g0 := Gen(|line|, Some(c0), true, None, true);
            var g1 := Gen(|line|, None, false, None, false);
            Run(max, TwoBoundaries(line), LEAKING) == Leaked(line, g0, g1, Reader(line, 0, 0, FRESH, [], 0), 1, [0], Some(1))
  {
    var g := Gen(|line|, None, false, None, false);
    var c0 := Cut(0, 0, 0, [], false);
    var r := Reader(line, 0, 0, FRESH, [], 0);
    var s0 := TwoBoundaries(line);
    var s1 := Leaked(line, g.(released := true), g, r, 2, [], None);
    var s2 := Leaked(line, g.(released := true, cut := Some(c0)), g, r, 1, [0], None);
    var s3 := Leaked(line, g.(released := true, cut := Some(c0), done := true), g, r, 1, [0], None);
    var s4 := s3.(holder := Some(1));
    assert Step(max, s0, ReleaseMark(0)) == s1;
    assert Step(max, s1, ReleaseCut(0)) == s2;
    assert Step(max, s2, Publish(0)) == s3;
    assert Step(max, s3, Enter(1)) == s4;
    hide Step, TwoBoundaries, Leaked;
    FourSteps(max, s0, ReleaseMark(0), ReleaseCut(0), Publish(0), Enter(1));
  }

  lemma FourSteps(max: nat, s: Sys, a: Event, b: Event, c: Event, d: Event)
    ensures Run(max, s, [a, b, c, d]) == Step(max, Step(max, Step(max, Step(max, s, a), b), c), d)
  {
    hide Step;
    assert [] + [a] == [a] && [a] + [b] == [a, b] && [a, b] + [c] == [a, b, c] && [a, b, c] + [d] == [a, b, c, d];
    RunSnoc(max, s, [], a);
    RunSnoc(max, s, [a], b);
    RunSnoc(max, s, [a, b], c);
    RunSnoc(max, s, [a, b, c], d);
  }

  lemma ReadWhole(max: nat, line: seq<Byte>)
    ensures var r := Read(max, Reader(line, 0, 0, FRESH, [], 0), |line|);
            r.live == SplitLines(max, line) && r.offset == |line| && r.log == line && r.base == 0 && r.lastCut == 0
  {
    assert line[0..0 + |line|] == line;
    SplitterMatchesLines(max, line);
    assert [] + EventsOf(max, FRESH, line) == EventsOf(max, FRESH, line);
    hide EventsOf, StateAfter, SplitLines;
  }

  lemma DrainSecond(max: nat, s: Sys, g0: Gen, g1: Gen)
    requires s.gens == [g0, g1] && s.holder == Some(1) && g1.cut.None? && !g1.done && !g1.released && s.r.offset >= g1.point
    ensures var t := Step(max, Step(max, s, DrainCut), Publish(1));
            && t.gens == [g0, t.gens[1]] && t.gens[1].point == g1.point && t.gens[1].done && !t.gens[1].released
            && t.gens[1].snap == Some(s.r.live) && t.r.base == s.r.base && t.r.log == s.r.log
  {
    var u := Step(max, s, DrainCut);
    assert u == CutGeneration(s, 1, true);
    assert u.gens[1] == g1.(cut := Some(Cut(|s.order|, s.r.lastCut, s.r.offset, s.r.live, true)));
    assert u.gens == [g0, u.gens[1]];
    var t := Step(max, u, Publish(1));
    assert t.gens == [g0, PublishGen(u.gens[1])];
  }

  lemma LeaveKeeps(max: nat, s: Sys)
    ensures Step(max, s, Leave).gens == s.gens && Step(max, s, Leave).r == s.r
  {
  }

  lemma ChunkReads(max: nat, s: Sys, n: nat)
    requires ReadsChunk(s, n)
    ensures Step(max, s, Chunk(n)) == s.(r := Read(max, s.r, n))
  {
    hide Read;
  }

  lemma SecondDrained(max: nat, line: seq<Byte>, s: Sys)
    requires line != []
    requires s.gens == [Gen(|line|, Some(Cut(0, 0, 0, [], false)), true, None, true), Gen(|line|, None, false, None, false)]
    requires s.r == Reader(line, 0, 0, FRESH, [], 0) && s.order == [0] && s.holder == Some(1)
    ensures var t := Run(max, s, [Chunk(|line|), DrainCut, Publish(1), Leave]);
            && |t.gens| == 2 && t.gens[1].done && t.gens[1].snap == Some(SplitLines(max, line)) && !t.gens[1].released
            && t.gens[0].point == t.gens[1].point == |line| && t.r.base == 0 && t.r.log == line
  {
    hide EventsOf, StateAfter, SplitLines, Step, Read, Run;
    ReadWhole(max, line);
    ChunkReads(max, s, |line|);
    DrainSecond(max, Step(max, s, Chunk(|line|)), s.gens[0], s.gens[1]);
    LeaveKeeps(max, Step(max, Step(max, Step(max, s, Chunk(|line|)), DrainCut), Publish(1)));
    FourSteps(max, s, Chunk(|line|), DrainCut, Publish(1), Leave);
  }

  /** Going on from there, the second generation, whose own window is empty, is drained and holds
      the first generation's lines. */
  lemma LeakedLine(max: nat, line: seq<Byte>)
    requires line != []
    ensures var es := ([Append(line), Boundary(Key("a", 1, StartBoundary)), Boundary(Key("b", 2, StartBoundary))] + LEAKING)
                      + [Chunk(|line|), DrainCut, Publish(1), Leave];
            var s := Run(max, Init([]), es);
            && |s.gens| == 2 && s.gens[1].done && !s.gens[1].released
            && s.gens[1].snap == Some(SplitLines(max, line))
            && s.r.base <= Lower(s, 1) <= s.gens[1].point <= |s.r.log|
            && Window(max, s.r.log, s.r.base, Lower(s, 1), s.gens[1].point) == []
  {
    var front := [Append(line), Boundary(Key("a", 1, StartBoundary)), Boundary(Key("b", 2, StartBoundary))];
    TwoBoundariesReached(max, line);
    FirstReleased(max, line);
    hide Run, TwoBoundaries, Step;
    RunConcat(max, Init([]), front, LEAKING);
    var s := Run(max, TwoBoundaries(line), LEAKING);
    SecondDrained(max, line, s);
    RunConcat(max, Init([]), front + LEAKING, [Chunk(|line|), DrainCut, Publish(1), Leave]);
    EmptyWindow(max, line, |line|);
  }

  lemma EmptyWindow(max: nat, log: seq<Byte>, at: nat)
    requires at <= |log|
    ensures Window(max, log, 0, at, at) == []
  {
  }

  lemma ReleasedUnread(max: nat, s: Sys)
    requires ReleaseCuts(s, 0) && s.order == [] && s.r.offset != s.gens[0].point
    ensures Step(max, s, ReleaseCut(0)) == CutGeneration(s, 0, false) && !SafeStep(s, ReleaseCut(0))
  {
  }

  /** A retried boundary of the current epoch is answered with the first reply and mints nothing. */
  lemma BoundaryReplays(max: nat, s: Sys, key: Key)
    requires key.epoch >= s.epoch
    ensures var t := Step(max, s, Boundary(key));
            && (key.epoch > s.epoch ==> key !in s.results) ==>
               BoundaryReply(t, key) == BoundaryReply(s, key) && Step(max, t, Boundary(key)) == t
  {
  }

  // ---------------------------------------------------------------- what single steps answer

  /** The largest epoch a boundary was asked for. */
  function LargestEpoch(es: seq<Event>): nat {
    if es == [] then 0
    else
      var before, e := LargestEpoch(es[..|es| - 1]), es[|es| - 1];
      if e.Boundary? && e.key.epoch > before then e.key.epoch else before
  }

  /** Memos are of the current epoch or older, and none of them is a refusal as stale. */
  ghost predicate RepliesInv(s: Sys) {
    forall k :: k in s.results ==> k.epoch <= s.epoch && s.results[k] != StaleEpoch
  }

  lemma EpochStep(max: nat, s: Sys, e: Event)
    requires RepliesInv(s)
    ensures Step(max, s, e).epoch == (if e.Boundary? && e.key.epoch > s.epoch then e.key.epoch else s.epoch)
    ensures RepliesInv(Step(max, s, e))
  {
    hide Read;
  }

  lemma {:induction false} EpochIsLargest(max: nat, log: seq<Byte>, es: seq<Event>)
    ensures Run(max, Init(log), es).epoch == LargestEpoch(es) && RepliesInv(Run(max, Init(log), es))
  {
    if es != [] {
      hide Step, RepliesInv;
      EpochIsLargest(max, log, es[..|es| - 1]);
      EpochStep(max, Run(max, Init(log), es[..|es| - 1]), es[|es| - 1]);
    }
  }

  /** A boundary is refused as stale exactly when a larger epoch was asked for before; a freeze
      that is asked for the first time in its epoch is refused exactly when no generation exists;
      and any other new boundary mints a generation at the end of what the log holds, and changes
      no other. */
  lemma BoundaryAnswers(max: nat, log: seq<Byte>, es: seq<Event>, key: Key)
    ensures var s := Run(max, Init(log), es);
            var reply, t := BoundaryReply(s, key), Step(max, s, Boundary(key));
            && (reply == StaleEpoch <==> key.epoch < LargestEpoch(es))
            && (reply == StaleEpoch ==> t == s)
            && (key.epoch >= LargestEpoch(es) && key !in s.results ==>
                 && (reply == FreezeWithoutBoundary <==> key.phase == FinishFreeze && s.gens == [])
                 && (reply != FreezeWithoutBoundary ==>
                      && reply == Committed(|s.gens|) && |t.gens| == |s.gens| + 1 && t.gens[..|s.gens|] == s.gens
                      && t.gens[|s.gens|].point == |s.r.log| && t.gens[|s.gens|].cut.None? && !t.gens[|s.gens|].done && t.r == s.r)
                 && (reply == FreezeWithoutBoundary ==> t.gens == s.gens && t.r == s.r))
  {
    EpochIsLargest(max, log, es);
    RunKeepsInv(max, log, es);
    var s := Run(max, Init(log), es);
    InvParts(max, s);
    hide Run, Inv;
  }

  /** A drain whose context expires gives the semaphore back, leaves its generation open, and
      retains what was read since the last cut unless the handle was released. */
  lemma InterruptRetains(max: nat, log: seq<Byte>, es: seq<Event>)
    requires var s := Run(max, Init(log), es);
             s.holder.Some? && s.holder.value < |s.gens| && s.gens[s.holder.value].cut.None?
    ensures var s := Run(max, Init(log), es);
            var h, t := s.holder.value, Step(max, s, Interrupt);
            && t.holder.None? && t.r == s.r && t.order == s.order && |t.gens| == |s.gens|
            && (forall g :: 0 <= g < |s.gens| && g != h ==> t.gens[g] == s.gens[g])
            && t.gens[h].cut.None? && t.gens[h].done == s.gens[h].done && t.gens[h].point == s.gens[h].point
            && t.gens[h].released == s.gens[h].released
            && s.r.base <= s.r.lastCut <= s.r.offset <= |s.r.log|
            && t.gens[h].snap == if s.gens[h].released then None else Some(Window(max, s.r.log, s.r.base, s.r.lastCut, s.r.offset))
  {
    hide *;
    RunKeepsInv(max, log, es);
    var s := Run(max, Init(log), es);
    InvParts(max, s);
    LiveIsWindow(max, s);
    ReleasedKeepsNothing(max, s, s.holder.value);
    InterruptIs(max, s);
  }

  lemma LiveIsWindow(max: nat, s: Sys)
    requires ReaderInv(max, s.r)
    ensures s.r.base <= s.r.lastCut <= s.r.offset <= |s.r.log| && s.r.live == Window(max, s.r.log, s.r.base, s.r.lastCut, s.r.offset)
  {
    hide Window, StateAt;
  }

  lemma ReleasedKeepsNothing(max: nat, s: Sys, g: nat)
    requires GensInv(max, s.r.log, s.r.base, s.gens) && g < |s.gens|
    ensures (s.gens[g].released ==> s.gens[g].snap.None?)
  {
    assert GenInv(max, s.r.log, s.r.base, s.gens[g]);
    hide CutInv;
  }

  lemma InterruptIs(max: nat, s: Sys)
    requires s.holder.Some? && s.holder.value < |s.gens| && s.gens[s.holder.value].cut.None?
    requires s.gens[s.holder.value].released ==> s.gens[s.holder.value].snap.None?
    ensures var h, t := s.holder.value, Step(max, s, Interrupt);
            && t.holder.None? && t.r == s.r && t.order == s.order && |t.gens| == |s.gens|
            && (forall g :: 0 <= g < |s.gens| && g != h ==> t.gens[g] == s.gens[g])
            && t.gens[h] == s.gens[h].(snap := if s.gens[h].released then None else Some(s.r.live))
  {
  }

  /** A display read with no boundary outstanding shows the lines from the last cut to where it
      stops; with one outstanding it reads nothing. */
  lemma PeekShows(max: nat, log: seq<Byte>, es: seq<Event>, n: nat)
    requires var s := Run(max, Init(log), es); s.r.offset + n <= |s.r.log|
    ensures var s := Run(max, Init(log), es);
            var t := Step(max, s, Peek(n));
            && (s.pendingBoundaries > 0 ==> t == s)
            && (s.pendingBoundaries == 0 ==>
                 && t.r.offset == s.r.offset + n && t.gens == s.gens && t.r.log == s.r.log && t.r.base == s.r.base && t.r.lastCut == s.r.lastCut
                 && s.r.base <= s.r.lastCut <= t.r.offset
                 && t.r.live == Window(max, s.r.log, s.r.base, s.r.lastCut, t.r.offset))
  {
    var s := Run(max, Init(log), es);
    RunKeepsInv(max, log, es);
    StepKeepsInv(max, s, Peek(n));
    InvParts(max, s);
    InvParts(max, Step(max, s, Peek(n)));
    PeekMoves(max, s, n);
    hide Run, Inv, Window, StateAt, Step;
  }

  lemma PeekMoves(max: nat, s: Sys, n: nat)
    requires s.r.offset + n <= |s.r.log|
    ensures var t := Step(max, s, Peek(n));
            && (s.pendingBoundaries > 0 ==> t == s)
            && (s.pendingBoundaries == 0 ==>
                 && t.r.offset == s.r.offset + n && t.gens == s.gens && t.r.log == s.r.log && t.r.base == s.r.base && t.r.lastCut == s.r.lastCut)
  {
    hide StateAfter, EventsOf;
  }

  /** A drain takes the semaphore exactly when it is free, its own generation is still open, and
      the one before it is done. */
  lemma EntersInTurn(max: nat, s: Sys, g: nat)
    requires s.holder != Some(g)
    ensures Step(max, s, Enter(g)).holder == Some(g) <==>
            s.holder.None? && g < |s.gens| && !s.gens[g].done && (g == 0 || s.gens[g - 1].done)
    ensures Step(max, s, Enter(g)) == s || Step(max, s, Enter(g)) == s.(holder := Some(g))
  {
  }
}
