/** What one HTTP window holds, counted from the list of events (httpstats/generation.go,
    httpstats/httpstats.go): which events close a window, the connections that finished in it, the
    requests that began in it, and what a boundary call answers.
 */
module HttpWindows {
  import opened Wrappers
  import opened HttpGenerations

  /** An event that closed a window: a boundary of one kind, or the swap of a reset. */
  datatype Cut = Cut(at: nat, kind: Option<bool>, runID: string, ep: nat)

  /** The last boundary of this kind. */
  function LastOf(cuts: seq<Cut>, freeze: bool): (i: Option<nat>)
    ensures i.Some? ==> i.value < |cuts| && cuts[i.value].kind == Some(freeze)
  {
    if cuts == [] then None
    else if cuts[|cuts| - 1].kind == Some(freeze) then Some(|cuts| - 1)
    else LastOf(cuts[..|cuts| - 1], freeze)
  }

  /** The epoch of the last boundary. */
  function Newest(cuts: seq<Cut>): nat {
    if cuts == [] then 0
    else if cuts[|cuts| - 1].kind.Some? then cuts[|cuts| - 1].ep
    else Newest(cuts[..|cuts| - 1])
  }

  /** The last boundary of this kind was for the same run and epoch. */
  predicate Repeats(cuts: seq<Cut>, freeze: bool, runID: string, ep: nat) {
    var i := LastOf(cuts, freeze);
    i.Some? && cuts[i.value].runID == runID && cuts[i.value].ep == ep
  }

  /** A reset, or a boundary that is not a repetition, not behind, and not called off. */
  predicate Closes(cuts: seq<Cut>, e: Event) {
    e.Reset? || (e.Boundary? && e.live && e.ep >= Newest(cuts) && !Repeats(cuts, e.freeze, e.runID, e.ep))
  }

  function NewCut(e: Event, at: nat): Cut {
    if e.Boundary? then Cut(at, Some(e.freeze), e.runID, e.ep) else Cut(at, None, "", 0)
  }

  function Cuts(es: seq<Event>): seq<Cut> {
    if es == [] then []
    else
      var front, e := Cuts(es[..|es| - 1]), es[|es| - 1];
      if !Closes(front, e) then front
      else front + [NewCut(e, |es| - 1)]
  }

  /** The first event of window `g`. */
  function Opens(cuts: seq<Cut>, g: nat): nat
    requires g <= |cuts|
  {
    if g == 0 then 0 else cuts[g - 1].at + 1
  }

  /** The event finished a connection: a streaming response or a hijacked connection ended. */
  predicate Finishes(es: seq<Event>, i: nat)
    requires i < |es|
  {
    (es[i].ConnFinish? || es[i].HangUpFinish?) && Run(es[..i + 1]) != Run(es[..i])
  }

  function Finished(es: seq<Event>, lo: nat, hi: nat): nat
    requires hi <= |es|
  {
    if hi <= lo then 0 else Finished(es, lo, hi - 1) + if Finishes(es, hi - 1) then 1 else 0
  }

  // ---------------------------------------------------------------- one event

  lemma {:induction false} NewestIsLargest(es: seq<Event>, i: nat)
    requires i < |Cuts(es)| && Cuts(es)[i].kind.Some?
    ensures Cuts(es)[i].ep <= Newest(Cuts(es))
  {
    var front, e := es[..|es| - 1], es[|es| - 1];
    if i < |Cuts(front)| {
      NewestIsLargest(front, i);
      if Closes(Cuts(front), e) { assert Cuts(es)[..|Cuts(front)|] == Cuts(front); }
    }
  }

  lemma {:induction false} CutsLieWithin(es: seq<Event>)
    ensures forall i :: 0 <= i < |Cuts(es)| ==> Cuts(es)[i].at < |es|
    ensures forall i, j :: 0 <= i < j < |Cuts(es)| ==> Cuts(es)[i].at < Cuts(es)[j].at
  {
    if es != [] { CutsLieWithin(es[..|es| - 1]); }
  }

  /** The memo of one kind is the last boundary of that kind. */
  ghost predicate MemoIs(m: Option<Memo>, cuts: seq<Cut>, freeze: bool) {
    var i := LastOf(cuts, freeze);
    m == if i.None? then None else Some(Memo(cuts[i.value].runID, cuts[i.value].ep, i.value))
  }

  ghost predicate CutsAre(s: Sys, cuts: seq<Cut>) {
    && |s.gens| == |cuts| + 1
    && s.epoch == Newest(cuts)
    && MemoIs(s.begun, cuts, false) && MemoIs(s.frozen, cuts, true)
  }

  lemma ClosingStep(s: Sys, cuts: seq<Cut>, e: Event, at: nat)
    requires s.gens != [] && CutsAre(s, cuts) && Closes(cuts, e)
    ensures CutsAre(Step(s, e), cuts + [NewCut(e, at)])
    ensures Step(s, e).connTotal == 0 && Step(s, e).gens[|s.gens| - 1].connTotal == s.connTotal
    ensures forall g :: 0 <= g < |s.gens| - 1 ==> Step(s, e).gens[g] == s.gens[g]
    ensures Step(s, e).reqs == s.reqs && Step(s, e).gens[|s.gens|] == FRESH_GEN
  {
    var more := cuts + [NewCut(e, at)];
    assert more[..|cuts|] == cuts;
  }

  lemma OpenStep(s: Sys, cuts: seq<Cut>, e: Event)
    requires s.gens != [] && CutsAre(s, cuts) && !Closes(cuts, e)
    ensures CutsAre(Step(s, e), cuts)
    ensures e.Boundary? ==> Step(s, e) == s
  {
    hide LastOf, Newest;
  }

  lemma CutsUnfold(es: seq<Event>)
    requires es != []
    ensures var front, e := es[..|es| - 1], es[|es| - 1];
            && Run(es) == Step(Run(front), e)
            && Cuts(es) == if !Closes(Cuts(front), e) then Cuts(front)
                           else Cuts(front) + [NewCut(e, |es| - 1)]
  {
  }

  /** The generations are the windows between the cuts, and the collector remembers the last
      boundary of each kind and its epoch. */
  lemma {:induction false} RunHasCuts(es: seq<Event>)
    ensures CutsAre(Run(es), Cuts(es))
  {
    if es != [] {
      var front, e := es[..|es| - 1], es[|es| - 1];
      RunHasCuts(front);
      CutsUnfold(es);
      hide Run, Step, Cuts, CutsAre, Closes;
      if Closes(Cuts(front), e) {
        ClosingStep(Run(front), Cuts(front), e, |es| - 1);
      } else {
        OpenStep(Run(front), Cuts(front), e);
      }
    }
  }

  // ---------------------------------------------------------------- connections

  lemma {:induction false} FinishedStable(es: seq<Event>, e: Event, lo: nat, hi: nat)
    requires hi <= |es|
    ensures Finished(es + [e], lo, hi) == Finished(es, lo, hi)
  {
    hide Run;
    if hi > lo {
      FinishedStable(es, e, lo, hi - 1);
      assert (es + [e])[..hi] == es[..hi] && (es + [e])[..hi - 1] == es[..hi - 1];
    }
  }

  /** Whether the last event finished a connection. */
  lemma LastFinishes(es: seq<Event>, lo: nat)
    requires es != [] && lo < |es|
    ensures Finished(es, lo, |es|) == Finished(es[..|es| - 1], lo, |es| - 1)
                                      + if (es[|es| - 1].ConnFinish? || es[|es| - 1].HangUpFinish?) && Run(es) != Run(es[..|es| - 1]) then 1 else 0
  {
    var front, e := es[..|es| - 1], es[|es| - 1];
    assert es == front + [e] && es[..|es|] == es;
    FinishedStable(front, e, lo, |front|);
    hide Run;
  }

  lemma ConnStep(s: Sys, e: Event)
    requires s.gens != [] && !e.Reset? && !e.Boundary?
    ensures var t := Step(s, e);
            && |t.gens| == |s.gens|
            && t.connTotal == s.connTotal + (if (e.ConnFinish? || e.HangUpFinish?) && t != s then 1 else 0)
            && forall g :: 0 <= g < |s.gens| ==> t.gens[g].connTotal == s.gens[g].connTotal
  {
  }

  ghost predicate WindowIs(es: seq<Event>, gens: seq<Gen>, cuts: seq<Cut>, g: nat) {
    g < |gens| && g < |cuts| && cuts[g].at <= |es| && gens[g].connTotal == Finished(es, Opens(cuts, g), cuts[g].at)
  }

  ghost predicate Charged(es: seq<Event>, s: Sys, cuts: seq<Cut>) {
    && |s.gens| == |cuts| + 1
    && (forall g :: 0 <= g < |cuts| ==> WindowIs(es, s.gens, cuts, g))
    && s.connTotal == Finished(es, Opens(cuts, |cuts|), |es|)
  }

  /** Each window is charged with the connections that finished in it: a closed one with those
      between the cut that opened it and the one that closed it, the live one with those since the
      last cut. */
  lemma {:induction false} WindowsCount(es: seq<Event>)
    ensures var s, cuts := Run(es), Cuts(es);
            && |s.gens| == |cuts| + 1
            && (forall g :: 0 <= g < |cuts| ==> cuts[g].at <= |es|)
            && (forall g :: 0 <= g < |cuts| ==> s.gens[g].connTotal == Finished(es, Opens(cuts, g), cuts[g].at))
            && s.connTotal == Finished(es, Opens(cuts, |cuts|), |es|)
  {
    RunIsCharged(es);
    ChargedParts(es, Run(es), Cuts(es));
    hide *;
  }

  lemma {:induction false} RunIsCharged(es: seq<Event>)
    ensures Charged(es, Run(es), Cuts(es))
  {
    hide *;
    if es == [] {
      Nothing();
    } else {
      var front, e := es[..|es| - 1], es[|es| - 1];
      RunIsCharged(front);
      assert es == front + [e];
      EventIsCharged(front, e);
    }
  }

  lemma CutsSnoc(front: seq<Event>, e: Event)
    ensures Cuts(front + [e]) == if !Closes(Cuts(front), e) then Cuts(front) else Cuts(front) + [NewCut(e, |front|)]
  {
    assert (front + [e])[..|front|] == front;
    hide Closes;
  }

  lemma EventIsCharged(front: seq<Event>, e: Event)
    requires Charged(front, Run(front), Cuts(front))
    ensures Charged(front + [e], Run(front + [e]), Cuts(front + [e]))
  {
    hide *;
    RunHasCuts(front);
    CutsLieWithin(front);
    CutsSnoc(front, e);
    RunSnoc(front, e);
    ChargedParts(front, Run(front), Cuts(front));
    RunHasGens(front, e);
    OldWindows(front, e);
    LiveWindow(front, e);
    if Closes(Cuts(front), e) {
      CutAt(e, |front|);
      AddWindow(front + [e], Cuts(front), NewCut(e, |front|), Step(Run(front), e));
    } else {
      SameWindows(front + [e], Cuts(front), Step(Run(front), e));
    }
  }

  lemma CutAt(e: Event, at: nat)
    ensures NewCut(e, at).at == at
  {
  }

  lemma RunHasGens(front: seq<Event>, e: Event)
    ensures |Step(Run(front), e).gens| == |Cuts(front)| + if Closes(Cuts(front), e) then 2 else 1
  {
    RunHasCuts(front);
    if Closes(Cuts(front), e) {
      ClosingStep(Run(front), Cuts(front), e, |front|);
    } else {
      OpenStep(Run(front), Cuts(front), e);
    }
    hide Step, Run, Cuts, Closes, Newest, MemoIs;
  }

  lemma ChargedParts(es: seq<Event>, s: Sys, cuts: seq<Cut>)
    requires Charged(es, s, cuts)
    ensures |s.gens| == |cuts| + 1
    ensures forall g :: 0 <= g < |cuts| ==> cuts[g].at <= |es|
    ensures forall g :: 0 <= g < |cuts| ==> s.gens[g].connTotal == Finished(es, Opens(cuts, g), cuts[g].at)
    ensures s.connTotal == Finished(es, Opens(cuts, |cuts|), |es|)
  {
    hide Finished, Opens;
    forall g | 0 <= g < |cuts| ensures cuts[g].at <= |es| && s.gens[g].connTotal == Finished(es, Opens(cuts, g), cuts[g].at) {
      assert WindowIs(es, s.gens, cuts, g);
    }
  }

  /** The window just closed keeps its total, and the new one has none. */
  lemma AddWindow(es: seq<Event>, cuts: seq<Cut>, c: Cut, t: Sys)
    requires |t.gens| == |cuts| + 2 && c.at + 1 == |es| && forall g :: 0 <= g < |cuts| ==> cuts[g].at <= |es|
    requires forall g :: 0 <= g < |cuts| ==> t.gens[g].connTotal == Finished(es, Opens(cuts, g), cuts[g].at)
    requires t.gens[|cuts|].connTotal == Finished(es, Opens(cuts, |cuts|), c.at) && t.connTotal == 0
    ensures Charged(es, t, cuts + [c])
  {
    var more := cuts + [c];
    assert Finished(es, |es|, |es|) == 0 && Opens(more, |more|) == c.at + 1;
    hide Finished, Opens, WindowIs;
    forall g | 0 <= g < |more| ensures WindowIs(es, t.gens, more, g) {
      MoreWindows(es, t.gens, cuts, c, g);
    }
  }

  lemma MoreWindows(es: seq<Event>, gens: seq<Gen>, cuts: seq<Cut>, c: Cut, g: nat)
    requires |gens| == |cuts| + 2 && g <= |cuts| && c.at <= |es|
    requires g < |cuts| ==> cuts[g].at <= |es| && gens[g].connTotal == Finished(es, Opens(cuts, g), cuts[g].at)
    requires g == |cuts| ==> gens[g].connTotal == Finished(es, Opens(cuts, g), c.at)
    ensures WindowIs(es, gens, cuts + [c], g)
  {
    assert Opens(cuts + [c], g) == Opens(cuts, g);
    hide Finished, Opens;
  }

  lemma SameWindows(es: seq<Event>, cuts: seq<Cut>, t: Sys)
    requires |t.gens| == |cuts| + 1 && forall g :: 0 <= g < |cuts| ==> cuts[g].at <= |es|
    requires forall g :: 0 <= g < |cuts| ==> t.gens[g].connTotal == Finished(es, Opens(cuts, g), cuts[g].at)
    requires t.connTotal == Finished(es, Opens(cuts, |cuts|), |es|)
    ensures Charged(es, t, cuts)
  {
    hide Finished, Opens;
  }

  lemma Nothing()
    ensures Charged([], Run([]), Cuts([]))
  {
  }

  /** Windows that were closed before keep their totals. */
  lemma OldWindows(front: seq<Event>, e: Event)
    requires var s, cuts := Run(front), Cuts(front);
             && CutsAre(s, cuts)
             && (forall g :: 0 <= g < |cuts| ==> cuts[g].at < |front|)
             && (forall g :: 0 <= g < |cuts| ==> s.gens[g].connTotal == Finished(front, Opens(cuts, g), cuts[g].at))
    ensures var t, cuts := Step(Run(front), e), Cuts(front);
            && |t.gens| >= |cuts| + 1
            && forall g :: 0 <= g < |cuts| ==> t.gens[g].connTotal == Finished(front + [e], Opens(cuts, g), cuts[g].at)
  {
    var s, cuts := Run(front), Cuts(front);
    if Closes(cuts, e) {
      ClosingStep(s, cuts, e, |front|);
    } else {
      OpenStep(s, cuts, e);
      if !e.Boundary? { ConnStep(s, e); }
    }
    hide Run, Step, Cuts, Closes, Finished;
    forall g | 0 <= g < |cuts| ensures Finished(front + [e], Opens(cuts, g), cuts[g].at) == Finished(front, Opens(cuts, g), cuts[g].at) {
      FinishedStable(front, e, Opens(cuts, g), cuts[g].at);
    }
  }

  /** The live window counts the event, or is closed by it. */
  lemma LiveWindow(front: seq<Event>, e: Event)
    requires var s, cuts := Run(front), Cuts(front);
             && CutsAre(s, cuts)
             && (forall g :: 0 <= g < |cuts| ==> cuts[g].at < |front|)
             && s.connTotal == Finished(front, Opens(cuts, |cuts|), |front|)
    ensures var t, cuts := Step(Run(front), e), Cuts(front);
            var lo := Opens(cuts, |cuts|);
            && |t.gens| > |cuts|
            && (Closes(cuts, e) ==> t.gens[|cuts|].connTotal == Finished(front + [e], lo, |front|) && t.connTotal == 0)
            && (!Closes(cuts, e) ==> t.connTotal == Finished(front + [e], lo, |front| + 1))
  {
    var s, cuts := Run(front), Cuts(front);
    var es := front + [e];
    var lo := Opens(cuts, |cuts|);
    FinishedStable(front, e, lo, |front|);
    RunSnoc(front, e);
    assert es[..|es| - 1] == front;
    LastFinishes(es, lo);
    if Closes(cuts, e) {
      ClosingStep(s, cuts, e, |front|);
    } else {
      OpenStep(s, cuts, e);
      if !e.Boundary? { ConnStep(s, e); }
    }
    hide Run, Step, Cuts, Closes, Finished;
  }

  // ---------------------------------------------------------------- requests

  /** A request belongs to the window in which it began, for ever. */
  lemma {:induction false} PinnedWhereBegun(es: seq<Event>, i: nat)
    requires i < |es| && es[i].Begin? && forall j :: 0 <= j < i ==> es[j] != es[i]
    ensures var r := es[i].r; r in Run(es).reqs && Run(es).reqs[r].gen == |Cuts(es[..i])|
  {
    var front, e := es[..|es| - 1], es[|es| - 1];
    if i < |front| {
      assert es[..i] == front[..i];
      PinnedWhereBegun(front, i);
      StaysPinned(Run(front), e, es[i].r);
    } else {
      NotBegun(front, e.r);
      RunHasCuts(front);
    }
  }

  lemma StaysPinned(s: Sys, e: Event, r: nat)
    requires s.gens != [] && r in s.reqs
    ensures r in Step(s, e).reqs && Step(s, e).reqs[r].gen == s.reqs[r].gen
  {
  }

  lemma {:induction false} NotBegun(es: seq<Event>, r: nat)
    requires Begin(r) !in es
    ensures r !in Run(es).reqs
  {
    if es != [] {
      var front, e := es[..|es| - 1], es[|es| - 1];
      assert e in es && forall x :: x in front ==> x in es;
      NotBegun(front, r);
    }
  }

  // ---------------------------------------------------------------- boundaries

  /** What a boundary call answers after any events: the window its first call closed, if it is
      repeated; an error, if its epoch is behind the newest or its context has ended; and otherwise
      the live window, which it closes. */
  lemma BoundaryAnswers(es: seq<Event>, freeze: bool, runID: string, ep: nat, live: bool)
    ensures var s, cuts := Run(es), Cuts(es);
            var reply := BoundaryReply(s, freeze, runID, ep, live);
            var t := Step(s, Boundary(freeze, runID, ep, live));
            && (Repeats(cuts, freeze, runID, ep) ==> reply == Committed(LastOf(cuts, freeze).value) && t == s)
            && (!Repeats(cuts, freeze, runID, ep) ==>
                 && (ep < Newest(cuts) ==> reply == StaleEpoch && t == s)
                 && (ep >= Newest(cuts) && !live ==> reply == ContextExpired && t == s)
                 && (ep >= Newest(cuts) && live ==>
                      && reply == Committed(|cuts|) && |t.gens| == |cuts| + 2
                      && t.gens[|cuts|].sealed && t.gens[|cuts|].connTotal == s.connTotal && t.connTotal == 0))
  {
    RunHasCuts(es);
    hide Run, Cuts, LastOf, Newest;
  }
}
