/** The boundary samples of the host collector (hoststats/capture.go).

    A capture takes the lock to begin, reads outside it, and takes it again to commit, so any
    number of captures of the same boundary overlap. A step is one region that holds the lock.
 */
module HostCapture {
  import opened Wrappers

  datatype Phase = Baseline | Final

  datatype Key = Key(runID: string, epoch: nat, phase: Phase)

  datatype Sample = Sample(at: int, readings: seq<int>)

  const COLLECTOR_NAME := "hoststats"

  datatype Handle = Handle(key: Key, collector: string)

  /** `reading` holds the key of every capture that is between its begin and its commit. */
  datatype State = State(epoch: nat, results: map<Key, Sample>, samples: map<Key, Sample>, reading: multiset<Key>)

  const Initial := State(0, map[], map[], multiset{})

  datatype Event =
    | Begin(key: Key)
    | ReadFailed(key: Key)
    | Commit(key: Key, sample: Sample)
    | Release(handle: Option<Handle>)

  datatype Answer = Stale | Missing | Fixed(sample: Sample)

  function Pruned(m: map<Key, Sample>, current: nat): map<Key, Sample> {
    map k | k in m && k.epoch >= current :: m[k]
  }

  /** An older epoch is refused; a newer one drops everything kept for the older ones. */
  function Fenced(s: State, epoch: nat): State {
    if epoch > s.epoch then s.(epoch := epoch, results := Pruned(s.results, epoch), samples := Pruned(s.samples, epoch)) else s
  }

  function BeginAnswer(s: State, key: Key): Answer {
    if key.epoch < s.epoch then Stale
    else if key in Fenced(s, key.epoch).results then Fixed(Fenced(s, key.epoch).results[key])
    else Missing
  }

  function CommitAnswer(s: State, key: Key, sample: Sample): Answer {
    if key.epoch < s.epoch then Stale else if key in s.results then Fixed(s.results[key]) else Fixed(sample)
  }

  predicate Releases(e: Event, key: Key) {
    e.Release? && e.handle.Some? && e.handle.value == Handle(key, COLLECTOR_NAME)
  }

  predicate Enabled(s: State, e: Event) {
    (e.ReadFailed? || e.Commit?) ==> e.key in s.reading
  }

  function Step(s: State, e: Event): State
    requires Enabled(s, e)
  {
    match e
    case Begin(key) =>
      if key.epoch < s.epoch then s
      else
        var t := Fenced(s, key.epoch);
        if key in t.results then t else t.(reading := t.reading + multiset{key})
    case ReadFailed(key) => s.(reading := s.reading - multiset{key})
    case Commit(key, sample) =>
      var t := s.(reading := s.reading - multiset{key});
      if key.epoch < s.epoch || key in s.results then t
      else t.(results := s.results[key := sample], samples := s.samples[key := sample])
    case Release(handle) =>
      if handle.None? || handle.value.collector != COLLECTOR_NAME then s
      else s.(results := s.results - {handle.value.key}, samples := s.samples - {handle.value.key})
  }

  /** What the caller of a begin or a commit is told. */
  function AnswerOf(s: State, e: Event): Answer {
    match e
    case Begin(key) => BeginAnswer(s, key)
    case Commit(key, sample) => CommitAnswer(s, key, sample)
    case _ => Missing
  }

  ghost predicate ValidRun(s: State, es: seq<Event>)
    decreases |es|
  {
    es == [] || (Enabled(s, es[0]) && ValidRun(Step(s, es[0]), es[1..]))
  }

  ghost function Run(s: State, es: seq<Event>): State
    requires ValidRun(s, es)
    decreases |es|
  {
    if es == [] then s else Run(Step(s, es[0]), es[1..])
  }

  // ---------------------------------------------------------------- the invariant

  /** Results and samples are the same map, every stored key carries the current epoch, and no
      capture is ahead of it. */
  ghost predicate Inv(s: State) {
    && s.results == s.samples
    && (forall k :: k in s.results ==> k.epoch == s.epoch)
    && (forall k :: k in s.reading ==> k.epoch <= s.epoch)
  }

  lemma StepInv(s: State, e: Event)
    requires Inv(s) && Enabled(s, e)
    ensures Inv(Step(s, e)) && Step(s, e).epoch >= s.epoch
  {
  }

  lemma {:induction false} RunKeepsInv(s: State, es: seq<Event>)
    requires Inv(s) && ValidRun(s, es)
    ensures Inv(Run(s, es)) && Run(s, es).epoch >= s.epoch
    decreases |es|
  {
    if es != [] {
      StepInv(s, es[0]);
      hide Step, Inv, Enabled;
      RunKeepsInv(Step(s, es[0]), es[1..]);
    }
  }

  // ---------------------------------------------------------------- one answer per boundary

  ghost predicate NoRelease(es: seq<Event>, key: Key) {
    forall i :: 0 <= i < |es| ==> !Releases(es[i], key)
  }

  predicate Concerns(e: Event, key: Key) {
    (e.Begin? || e.Commit?) && e.key == key
  }

  /** The boundary is fixed at `v`, or its epoch is over. */
  ghost predicate Pinned(s: State, key: Key, v: Sample) {
    key.epoch < s.epoch || (key in s.results && s.results[key] == v)
  }

  lemma AnswerPins(s: State, e: Event, key: Key)
    requires Inv(s) && Enabled(s, e) && Concerns(e, key) && AnswerOf(s, e).Fixed?
    ensures Pinned(Step(s, e), key, AnswerOf(s, e).sample)
  {
  }

  lemma PinnedStays(s: State, e: Event, key: Key, v: Sample)
    requires Inv(s) && Enabled(s, e) && Pinned(s, key, v) && !Releases(e, key)
    ensures Pinned(Step(s, e), key, v)
    ensures Concerns(e, key) && AnswerOf(s, e).Fixed? ==> AnswerOf(s, e).sample == v
  {
  }

  /** The answers about `key` given during a run, in order. */
  ghost function Answers(s: State, es: seq<Event>, key: Key): seq<Sample>
    requires ValidRun(s, es)
    decreases |es|
  {
    if es == [] then []
    else (if Concerns(es[0], key) && AnswerOf(s, es[0]).Fixed? then [AnswerOf(s, es[0]).sample] else []) + Answers(Step(s, es[0]), es[1..], key)
  }

  lemma {:induction false} PinnedAnswers(s: State, es: seq<Event>, key: Key, v: Sample)
    requires Inv(s) && ValidRun(s, es) && NoRelease(es, key) && Pinned(s, key, v)
    ensures forall i :: 0 <= i < |Answers(s, es, key)| ==> Answers(s, es, key)[i] == v
    decreases |es|
  {
    if es != [] {
      StepInv(s, es[0]);
      PinnedStays(s, es[0], key, v);
      hide Step, Inv, Enabled, Pinned, AnswerOf;
      PinnedAnswers(Step(s, es[0]), es[1..], key, v);
    }
  }

  /** Every committed answer for one boundary is the same sample, timestamp included, however
      the captures of that boundary and of others interleave, as long as it is not released. */
  lemma {:induction false} OneAnswer(s: State, es: seq<Event>, key: Key)
    requires Inv(s) && ValidRun(s, es) && NoRelease(es, key)
    ensures forall i, j :: 0 <= i < |Answers(s, es, key)| && 0 <= j < |Answers(s, es, key)| ==> Answers(s, es, key)[i] == Answers(s, es, key)[j]
    decreases |es|
  {
    if es != [] {
      var e := es[0];
      var t := Step(s, e);
      StepInv(s, e);
      if Concerns(e, key) && AnswerOf(s, e).Fixed? {
        AnswerPins(s, e, key);
        PinnedAnswers(t, es[1..], key, AnswerOf(s, e).sample);
      } else {
        OneAnswer(t, es[1..], key);
      }
    }
  }

  // ---------------------------------------------------------------- first commit wins

  /** The sample of the first capture of `key` that comes to its commit. */
  ghost function FirstCommit(es: seq<Event>, key: Key): Option<Sample> {
    if es == [] then None
    else if es[0].Commit? && es[0].key == key then Some(es[0].sample)
    else FirstCommit(es[1..], key)
  }

  lemma QuietStep(s: State, e: Event, key: Key)
    requires Inv(s) && Enabled(s, e) && !Releases(e, key) && !(e.Commit? && e.key == key)
    ensures var t := Step(s, e);
            (key in t.results <==> key in s.results && t.epoch == key.epoch) && (key in t.results ==> t.results[key] == s.results[key])
  {
  }

  lemma CommitStep(s: State, e: Event, key: Key)
    requires Inv(s) && Enabled(s, e) && e.Commit? && e.key == key && key !in s.results
    ensures var t := Step(s, e);
            t.epoch == s.epoch && (key in t.results <==> t.epoch == key.epoch) && (key in t.results ==> t.results[key] == e.sample)
  {
  }

  lemma {:induction false} FixedStays(s: State, es: seq<Event>, key: Key)
    requires Inv(s) && ValidRun(s, es) && NoRelease(es, key)
    requires key in s.results || s.epoch > key.epoch
    ensures key in Run(s, es).results <==> Run(s, es).epoch == key.epoch
    ensures key in Run(s, es).results ==> key in s.results && Run(s, es).results[key] == s.results[key]
    decreases |es|
  {
    if es == [] {
    } else {
      var e := es[0];
      var t := Step(s, e);
      StepInv(s, e);
      StepKeeps(s, e, key);
      hide Step, Enabled, Releases;
      FixedStays(t, es[1..], key);
    }
  }

  lemma StepKeeps(s: State, e: Event, key: Key)
    requires Inv(s) && Enabled(s, e) && !Releases(e, key) && (key in s.results || s.epoch > key.epoch)
    ensures var t := Step(s, e);
            && (key in t.results || t.epoch > key.epoch)
            && (key in t.results ==> key in s.results && t.results[key] == s.results[key])
  {
  }

  /** From a state that has no sample for the boundary: at the end one is stored exactly if some
      capture came to its commit and no newer epoch arrived, and it is the first one's. A sample
      superseded while it was read is never stored. */
  lemma {:induction false} FirstCommitWins(s: State, es: seq<Event>, key: Key)
    requires Inv(s) && ValidRun(s, es) && NoRelease(es, key) && key !in s.results
    ensures key in Run(s, es).results <==> FirstCommit(es, key).Some? && Run(s, es).epoch == key.epoch
    ensures key in Run(s, es).results ==> Some(Run(s, es).results[key]) == FirstCommit(es, key)
    decreases |es|
  {
    if es != [] {
      var e := es[0];
      var t := Step(s, e);
      StepInv(s, e);
      if e.Commit? && e.key == key {
        CommitStep(s, e, key);
        ReadingNotAhead(s, key);
        hide Step, Enabled, Releases;
        FixedStays(t, es[1..], key);
      } else {
        QuietStep(s, e, key);
        hide Step, Enabled, Releases;
        FirstCommitWins(t, es[1..], key);
      }
    }
  }

  lemma ReadingNotAhead(s: State, key: Key)
    requires Inv(s) && key in s.reading
    ensures key.epoch <= s.epoch
  {
  }

  // ---------------------------------------------------------------- what is answered

  /** The largest epoch a capture was begun with. */
  function LargestEpoch(es: seq<Event>): nat {
    if es == [] then 0
    else
      var rest := LargestEpoch(es[1..]);
      if es[0].Begin? && es[0].key.epoch > rest then es[0].key.epoch else rest
  }

  lemma {:induction false} EpochFrom(s: State, es: seq<Event>)
    requires ValidRun(s, es)
    ensures Run(s, es).epoch == if LargestEpoch(es) > s.epoch then LargestEpoch(es) else s.epoch
    decreases |es|
  {
    if es != [] { EpochFrom(Step(s, es[0]), es[1..]); }
  }

  /** A capture that is begun after any events is refused exactly if an earlier one was begun with
      a newer epoch; it is answered at once exactly if its boundary is fixed; and otherwise it
      reads, and its commit is refused only if a newer epoch came meanwhile. */
  lemma CaptureAnswers(es: seq<Event>, key: Key, sample: Sample)
    requires ValidRun(Initial, es)
    ensures var s := Run(Initial, es);
            && (BeginAnswer(s, key) == Stale <==> key.epoch < LargestEpoch(es))
            && (BeginAnswer(s, key).Fixed? <==> key in s.results)
            && (key in s.results ==> BeginAnswer(s, key) == Fixed(s.results[key]) && key.epoch == LargestEpoch(es))
            && (CommitAnswer(s, key, sample) == Stale <==> key.epoch < LargestEpoch(es))
            && (key in s.results ==> CommitAnswer(s, key, sample) == Fixed(s.results[key]))
            && (key !in s.results && key.epoch >= LargestEpoch(es) ==> CommitAnswer(s, key, sample) == Fixed(sample))
  {
    EpochFrom(Initial, es);
    RunKeepsInv(Initial, es);
    hide Run, ValidRun, LargestEpoch;
  }

  // ---------------------------------------------------------------- the collector

  class Collector {
    var epoch: nat
    var results: map<Key, Sample>
    var samples: map<Key, Sample>
    ghost var reading: multiset<Key>

    ghost function View(): State
      reads this
    {
      State(epoch, results, samples, reading)
    }

    ghost predicate Valid()
      reads this
    {
      Inv(View())
    }

    constructor ()
      ensures View() == Initial && Valid()
    {
      epoch, results, samples, reading := 0, map[], map[], multiset{};
    }

    method PruneLocked(current: nat)
      requires results.Keys == samples.Keys
      modifies this`results, this`samples
      ensures results == Pruned(old(results), current) && samples == Pruned(old(samples), current)
    {
      ghost var was, had := results, samples;
      var todo := results.Keys;
      while todo != {}
        invariant todo <= was.Keys
        invariant results == map k | k in was && (k in todo || k.epoch >= current) :: was[k]
        invariant samples == map k | k in had && (k in todo || k.epoch >= current) :: had[k]
        decreases |todo|
      {
        var key :| key in todo;
        todo := todo - {key};
        if key.epoch < current {
          results := results - {key};
          samples := samples - {key};
        }
      }
    }

    method Begin(key: Key) returns (answer: Answer)
      requires Valid()
      modifies this
      ensures Valid() && View() == Step(old(View()), Event.Begin(key)) && answer == BeginAnswer(old(View()), key)
    {
      StepInv(View(), Event.Begin(key));
      if key.epoch < epoch { return Stale; }
      if key.epoch > epoch {
        epoch := key.epoch;
        PruneLocked(key.epoch);
      }
      if key in results { return Fixed(results[key]); }
      reading := reading + multiset{key};
      return Missing;
    }

    method Commit(key: Key, sample: Sample) returns (answer: Answer)
      requires Valid() && key in reading
      modifies this
      ensures Valid() && View() == Step(old(View()), Event.Commit(key, sample)) && answer == CommitAnswer(old(View()), key, sample)
    {
      StepInv(View(), Event.Commit(key, sample));
      reading := reading - multiset{key};
      if key.epoch < epoch { return Stale; }
      if key in results { return Fixed(results[key]); }
      results := results[key := sample];
      samples := samples[key := sample];
      return Fixed(sample);
    }

    method Release(handle: Option<Handle>)
      requires Valid()
      modifies this`results, this`samples
      ensures Valid() && View() == Step(old(View()), Event.Release(handle))
    {
      StepInv(View(), Event.Release(handle));
      if handle.None? || handle.value.collector != COLLECTOR_NAME { return; }
      var key := handle.value.key;
      samples := samples - {key};
      results := results - {key};
    }
  }
}
