/** The connection-pool collector object and its report (dbpool/collector.go, dbpool/capture.go,
    dbpool/collect.go).
 */
module DbPoolCollector {
  import opened Wrappers
  import opened DbPool
  import Ranking

  class Collector {
    var watch: map<string, Watched>
    var farewell: Sample
    var run: Option<RunSamples>

    ghost function View(): State
      reads this
    {
      State(watch, farewell, run)
    }

    constructor ()
      ensures View() == Initial
    {
      watch, farewell, run := map[], map[], None;
    }

    method WatchStats(id: string, pool: Watched) returns (accepted: bool)
      modifies this`watch
      ensures View() == Step(old(View()), Watch(id, pool))
      ensures accepted <==> id !in old(watch) && |old(watch)| < 16
      ensures watch == if accepted then old(watch)[id := pool] else old(watch)
    {
      if id in watch || |watch| >= MAX_POOLS { return false; }
      watch := watch[id := pool];
      return true;
    }

    method UnwatchStats(id: string, at: int, read: Sampler) returns (wasWatched: bool)
      modifies this`watch, this`farewell
      ensures View() == Step(old(View()), Unwatch(id, at, read)) && (wasWatched <==> id in old(watch))
      ensures watch == old(watch) - {id}
    {
      if id !in watch { return false; }
      var w := watch[id];
      ghost var s := View();
      watch := watch - {id};
      if run.None? || !run.value.baseTaken || run.value.finalTaken { return true; }
      if run.value.active.None? || id !in run.value.active.value { return true; }
      var stats := read(w.pool);
      if stats.None? { return true; }
      farewell := farewell[id := PoolSample(stats.value, at, w.display, true, w.pool)];
      return true;
    }

    /** The opening sample of every watched pool whose sampler does not panic. */
    method SampleWatched(at: int, read: Sampler) returns (sample: Sample)
      ensures sample == BaselineSample(watch, at, read)
    {
      sample := map[];
      var todo := watch.Keys;
      while todo != {}
        invariant todo <= watch.Keys
        invariant sample == map id | id in watch && id !in todo && Read(watch[id], at, false, read).Some? :: Read(watch[id], at, false, read).value
        decreases |todo|
      {
        hide Read;
        var id :| id in todo;
        todo := todo - {id};
        var one := ReadPool(watch[id], at, read);
        if one.Some? { sample := sample[id := one.value]; }
      }
    }

    method SampleParticipants(participants: set<string>, at: int, read: Sampler) returns (sample: Sample)
      ensures sample == FinalSample(participants, watch, farewell, at, read)
    {
      sample := map[];
      var todo := participants;
      while todo != {}
        invariant todo <= participants
        invariant sample == map id | id in participants && id !in todo && Closing(id, watch, farewell, at, read).Some? :: Closing(id, watch, farewell, at, read).value
        decreases |todo|
      {
        hide Closing;
        var id :| id in todo;
        todo := todo - {id};
        var one := CloseOne(id, at, read);
        if one.Some? { sample := sample[id := one.value]; }
      }
    }

    /** The farewell wins over a live read. */
    method CloseOne(id: string, at: int, read: Sampler) returns (one: Option<PoolSample>)
      ensures one == Closing(id, watch, farewell, at, read)
    {
      if id in farewell { return Some(farewell[id]); }
      if id !in watch { return None; }
      one := ReadPool(watch[id], at, read);
    }

    method CaptureBaselineLocked(at: int, read: Sampler)
      requires run.Some?
      modifies this`farewell, this`run
      ensures View() == BaselineStep(old(View()), at, read)
    {
      if run.value.baseTaken && run.value.base.Some? { return; }
      var sample := SampleWatched(at, read);
      hide BaselineSample;
      run := Some(run.value.(active := Some(sample.Keys), base := Some(sample), baseTaken := true, final := None, finalTaken := false));
      farewell := map[];
    }

    method CaptureFinalLocked(at: int, read: Sampler)
      requires run.Some?
      modifies this`run
      ensures View() == FinalStep(old(View()), at, read)
    {
      if run.value.finalTaken && run.value.final.Some? { return; }
      var participants := watch.Keys;
      if run.value.active.Some? { participants := run.value.active.value; }
      var sample := SampleParticipants(participants, at, read);
      hide FinalSample;
      run := Some(run.value.(final := Some(sample), finalTaken := true));
    }

    /** Committed unless the epoch is stale. */
    method Capture(runID: string, epoch: nat, phase: Phase, at: int, read: Sampler) returns (committed: bool)
      modifies this`farewell, this`run
      ensures View() == Step(old(View()), Event.Capture(runID, epoch, phase, at, read))
      ensures committed <==> !IsStale(old(View()), epoch)
    {
      hide BaselineStep, FinalStep;
      if run.Some? && epoch < run.value.epoch { return false; }
      if run.None? || run.value.epoch != epoch || run.value.runID != runID {
        run := Some(RunSamples(runID, epoch, None, None, false, None, false));
        farewell := map[];
      }
      if phase == Baseline {
        CaptureBaselineLocked(at, read);
      } else {
        CaptureFinalLocked(at, read);
      }
      return true;
    }

    method Release(runID: string, epoch: nat, phase: Phase)
      modifies this`run
      ensures View() == Step(old(View()), Event.Release(runID, epoch, phase))
    {
      if run.None? || run.value.runID != runID || run.value.epoch != epoch { return; }
      if phase == Baseline {
        run := Some(run.value.(base := None));
      } else {
        run := Some(run.value.(final := None));
      }
    }
  }

  method ReadPool(w: Watched, at: int, read: Sampler) returns (one: Option<PoolSample>)
    ensures one == Read(w, at, false, read)
  {
    var stats := read(w.pool);
    if stats.None? { return None; }
    return Some(PoolSample(stats.value, at, w.display, false, w.pool));
  }

  // ---------------------------------------------------------------- the report

  /** The entries in the order of the IDs, skipping those without a closing observation. */
  function EntriesOf(order: seq<Ranking.Item>, base: Sample, final: Sample): seq<Entry> {
    if order == [] then []
    else
      var id := order[|order| - 1].a;
      EntriesOf(order[..|order| - 1], base, final) + if id in base && id in final then [EntryFor(id, base[id], final[id])] else []
  }

  ghost predicate Listed(order: seq<Ranking.Item>, id: string) {
    exists i :: 0 <= i < |order| && order[i].a == id
  }

  /** Each entry is computed from the two observations of its own ID. */
  ghost predicate Faithful(es: seq<Entry>, base: Sample, final: Sample) {
    forall k :: 0 <= k < |es| ==> es[k].id in base && es[k].id in final && es[k] == EntryFor(es[k].id, base[es[k].id], final[es[k].id])
  }

  ghost predicate Reported(es: seq<Entry>, id: string) {
    exists k :: 0 <= k < |es| && es[k].id == id
  }

  ghost predicate Ascending(es: seq<Entry>) {
    forall j, k :: 0 <= j < k < |es| ==> Ranking.Less(es[j].id, es[k].id)
  }

  lemma ListedSnoc(order: seq<Ranking.Item>, id: string)
    requires order != []
    ensures Listed(order, id) <==> Listed(order[..|order| - 1], id) || id == order[|order| - 1].a
  {
    var front := order[..|order| - 1];
    if Listed(front, id) {
      var i :| 0 <= i < |front| && front[i].a == id;
      assert order[i].a == id;
    }
    if id == order[|order| - 1].a { assert order[|order| - 1].a == id; }
  }

  lemma EntriesSnoc(before: seq<Entry>, e: Entry, base: Sample, final: Sample)
    requires Faithful(before, base, final) && Ascending(before) && e.id in base && e.id in final && e == EntryFor(e.id, base[e.id], final[e.id])
    requires forall k :: 0 <= k < |before| ==> Ranking.Less(before[k].id, e.id)
    ensures Faithful(before + [e], base, final) && Ascending(before + [e])
    ensures forall id :: Reported(before + [e], id) <==> Reported(before, id) || id == e.id
  {
    hide EntryFor, Ranking.Less;
    var es := before + [e];
    forall id ensures Reported(es, id) <==> Reported(before, id) || id == e.id {
      if Reported(before, id) {
        var k :| 0 <= k < |before| && before[k].id == id;
        assert es[k].id == id;
      }
      if id == e.id { assert es[|before|].id == id; }
    }
  }

  lemma BeforeLast(order: seq<Ranking.Item>, id: string)
    requires order != [] && Ranking.Sorted(order) && Listed(order[..|order| - 1], id)
    requires forall i :: 0 <= i < |order| ==> order[i] == Ranking.Item(0, order[i].a, "")
    ensures Ranking.Less(id, order[|order| - 1].a)
  {
    hide Ranking.Sorted, Ranking.Less;
    var i :| 0 <= i < |order| - 1 && order[..|order| - 1][i].a == id;
    NamesInOrder(order, i, |order| - 1);
  }

  /** The entries are in the order of their IDs, and there is one for an ID exactly if it is
      listed and has both observations; it is computed from those two. */
  lemma {:induction false} EntriesAre(order: seq<Ranking.Item>, base: Sample, final: Sample)
    requires Ranking.Sorted(order) && forall i :: 0 <= i < |order| ==> order[i] == Ranking.Item(0, order[i].a, "")
    ensures var es := EntriesOf(order, base, final);
            && Faithful(es, base, final) && Ascending(es)
            && (forall id :: Reported(es, id) <==> Listed(order, id) && id in base && id in final)
  {
    if order != [] {
      var front := order[..|order| - 1];
      assert Ranking.Sorted(front);
      EntriesAre(front, base, final);
      hide Faithful, Ascending, Listed, Reported, EntriesOf, Ranking.Sorted;
      forall k | 0 <= k < |EntriesOf(front, base, final)| ensures Listed(front, EntriesOf(front, base, final)[k].id) {
        IsReported(EntriesOf(front, base, final), k);
      }
      EntriesNext(order, base, final);
    }
  }

  lemma IsReported(es: seq<Entry>, k: nat)
    requires k < |es|
    ensures Reported(es, es[k].id)
  {
  }

  lemma EntriesNext(order: seq<Ranking.Item>, base: Sample, final: Sample)
    requires order != [] && Ranking.Sorted(order) && forall i :: 0 <= i < |order| ==> order[i] == Ranking.Item(0, order[i].a, "")
    requires var front := order[..|order| - 1];
             var before := EntriesOf(front, base, final);
             && Faithful(before, base, final) && Ascending(before)
             && (forall id :: Reported(before, id) <==> Listed(front, id) && id in base && id in final)
             && (forall k :: 0 <= k < |before| ==> Listed(front, before[k].id))
    ensures var es := EntriesOf(order, base, final);
            && Faithful(es, base, final) && Ascending(es)
            && (forall id :: Reported(es, id) <==> Listed(order, id) && id in base && id in final)
  {
    hide *;
    var front, id := order[..|order| - 1], order[|order| - 1].a;
    var before := EntriesOf(front, base, final);
    EntriesUnfold(order, base, final);
    forall x ensures Listed(order, x) <==> Listed(front, x) || x == id {
      ListedSnoc(order, x);
    }
    if id in base && id in final {
      forall k | 0 <= k < |before| ensures Ranking.Less(before[k].id, id) {
        BeforeLast(order, before[k].id);
      }
      var e := EntryFor(id, base[id], final[id]);
      EntryHasId(id, base[id], final[id]);
      EntriesSnoc(before, e, base, final);
    } else {
      assert EntriesOf(order, base, final) == before;
    }
  }

  lemma EntriesUnfold(order: seq<Ranking.Item>, base: Sample, final: Sample)
    requires order != []
    ensures var n := |order| - 1;
            var id := order[n].a;
            EntriesOf(order, base, final) == EntriesOf(order[..n], base, final) + if id in base && id in final then [EntryFor(id, base[id], final[id])] else []
  {
    hide EntryFor;
  }

  lemma EntryHasId(id: string, base: PoolSample, final: PoolSample)
    ensures EntryFor(id, base, final).id == id
  {
  }

  lemma NamesInOrder(order: seq<Ranking.Item>, i: nat, j: nat)
    requires Ranking.Sorted(order) && i < j < |order|
    requires order[i] == Ranking.Item(0, order[i].a, "") && order[j] == Ranking.Item(0, order[j].a, "")
    ensures Ranking.Less(order[i].a, order[j].a)
  {
    assert Ranking.Before(order[i], order[j]);
    Ranking.LessTrichotomy(order[i].a, order[j].a);
    Ranking.LessTrichotomy("", "");
  }

  /** The report names exactly the pools of the baseline that have a closing observation, once
      each, in the order of their IDs, each computed from its own two samples. */
  lemma ReportIs(base: Sample, final: Sample)
    ensures var es := EntriesOf(Ranking.InOrder(Ranking.Named(base.Keys)), base, final);
            && Faithful(es, base, final) && Ascending(es)
            && (forall id :: Reported(es, id) <==> id in base && id in final)
  {
    var items := Ranking.Named(base.Keys);
    var order := Ranking.InOrder(items);
    Ranking.InOrderIsSorted(items);
    forall i | 0 <= i < |order| ensures order[i] == Ranking.Item(0, order[i].a, "") {
      assert order[i] in Ranking.Elements(order);
    }
    forall id | id in base ensures Listed(order, id) {
      assert Ranking.Item(0, id, "") in Ranking.Elements(order);
    }
    hide Ranking.InOrder, Ranking.Sorted, Ranking.Named, EntriesOf, Faithful, Ascending, Reported;
    EntriesAre(order, base, final);
  }

  method Collect(base: Sample, final: Sample) returns (entries: seq<Entry>)
    ensures entries == EntriesOf(Ranking.InOrder(Ranking.Named(base.Keys)), base, final)
  {
    var order := Ranking.SortNames(base.Keys);
    entries := [];
    for k := 0 to |order|
      invariant entries == EntriesOf(order[..k], base, final)
    {
      assert order[..k + 1][..k] == order[..k];
      var id := order[k].a;
      if id in base && id in final {
        entries := entries + [EntryFor(id, base[id], final[id])];
      }
    }
    assert order[..|order|] == order;
  }
}
