/** Line splitting of the tailed access log (accesslog/collector.go).

    The collector consumes the log in arbitrary chunks, one byte at a time, keeping a
    `pending` prefix of the current line and a `dropping` flag for a line that outgrew the
    limit.  This module gives that byte machine, two reference definitions of what the log
    means that mention neither field, and the lemmas that connect them.
 */
module LogLines {

  type Byte = bv8

  const NEWLINE: Byte := 10

  datatype LineState = LineState(pending: seq<Byte>, dropping: bool)

  /** What the splitter hands on: a complete line, or the one report of an oversized line. */
  datatype LineEvent = Line(text: seq<Byte>) | Oversized

  const FRESH := LineState([], false)

  // ---------------------------------------------------------------- the byte machine

  function FeedState(max: nat, s: LineState, b: Byte): LineState {
    if s.dropping then LineState(s.pending, b != NEWLINE)
    else if b == NEWLINE then LineState([], false)
    else if |s.pending| + 1 > max then LineState([], true)
    else LineState(s.pending + [b], false)
  }

  function FeedEvents(max: nat, s: LineState, b: Byte): seq<LineEvent> {
    if s.dropping then []
    else if b == NEWLINE then [Line(s.pending)]
    else if |s.pending| + 1 > max then [Oversized]
    else []
  }

  function StateAfter(max: nat, s: LineState, data: seq<Byte>): LineState {
    if data == [] then s
    else FeedState(max, StateAfter(max, s, data[..|data| - 1]), data[|data| - 1])
  }

  function EventsOf(max: nat, s: LineState, data: seq<Byte>): seq<LineEvent> {
    if data == [] then []
    else
      var front := data[..|data| - 1];
      EventsOf(max, s, front) + FeedEvents(max, StateAfter(max, s, front), data[|data| - 1])
  }

  /** Splitting the consumed bytes into chunks changes neither the events nor the state. */
  lemma {:induction false} ChunksCompose(max: nat, s: LineState, a: seq<Byte>, b: seq<Byte>)
    ensures StateAfter(max, s, a + b) == StateAfter(max, StateAfter(max, s, a), b)
    ensures EventsOf(max, s, a + b) == EventsOf(max, s, a) + EventsOf(max, StateAfter(max, s, a), b)
  {
    if b == [] {
      assert a + b == a;
    } else {
      var front := b[..|b| - 1];
      assert (a + b)[..|a + b| - 1] == a + front;
      ChunksCompose(max, s, a, front);
    }
  }

  function Flatten(chunks: seq<seq<Byte>>): seq<Byte> {
    if chunks == [] then [] else chunks[0] + Flatten(chunks[1..])
  }

  function StateAfterChunks(max: nat, s: LineState, chunks: seq<seq<Byte>>): LineState
    decreases |chunks|
  {
    if chunks == [] then s else StateAfterChunks(max, StateAfter(max, s, chunks[0]), chunks[1..])
  }

  function EventsOfChunks(max: nat, s: LineState, chunks: seq<seq<Byte>>): seq<LineEvent>
    decreases |chunks|
  {
    if chunks == [] then []
    else EventsOf(max, s, chunks[0]) + EventsOfChunks(max, StateAfter(max, s, chunks[0]), chunks[1..])
  }

  lemma {:induction false} AnyChunking(max: nat, s: LineState, chunks: seq<seq<Byte>>)
    ensures StateAfterChunks(max, s, chunks) == StateAfter(max, s, Flatten(chunks))
    ensures EventsOfChunks(max, s, chunks) == EventsOf(max, s, Flatten(chunks))
    decreases |chunks|
  {
    if chunks != [] {
      AnyChunking(max, StateAfter(max, s, chunks[0]), chunks[1..]);
      ChunksCompose(max, s, chunks[0], Flatten(chunks[1..]));
    }
  }

  // ---------------------------------------------------------------- reference: whole lines

  /** Index of the first newline, or the length when there is none. */
  function FirstNewline(data: seq<Byte>): (i: nat)
    ensures i <= |data|
    ensures i < |data| ==> data[i] == NEWLINE
    ensures forall j :: 0 <= j < i ==> data[j] != NEWLINE
  {
    if data == [] || data[0] == NEWLINE then 0 else 1 + FirstNewline(data[1..])
  }

  function LineVerdict(max: nat, line: seq<Byte>): LineEvent {
    if |line| <= max then Line(line) else Oversized
  }

  /** The text cut at its newlines: every complete line is one event, an oversized line is
      reported once, and an unterminated tail is reported only if it is already oversized. */
  function SplitLines(max: nat, data: seq<Byte>): seq<LineEvent>
    decreases |data|
  {
    var nl := FirstNewline(data);
    if nl == |data| then (if |data| > max then [Oversized] else [])
    else [LineVerdict(max, data[..nl])] + SplitLines(max, data[nl + 1..])
  }

  /** The unterminated tail of the text. */
  function Tail(data: seq<Byte>): seq<Byte>
    decreases |data|
  {
    var nl := FirstNewline(data);
    if nl == |data| then data else Tail(data[nl + 1..])
  }

  function TailState(max: nat, tail: seq<Byte>): LineState {
    if |tail| <= max then LineState(tail, false) else LineState([], true)
  }

  lemma {:induction false} UnterminatedText(max: nat, data: seq<Byte>)
    requires forall j :: 0 <= j < |data| ==> data[j] != NEWLINE
    ensures StateAfter(max, FRESH, data) == TailState(max, data)
    ensures EventsOf(max, FRESH, data) == if |data| > max then [Oversized] else []
  {
    if data != [] {
      var front := data[..|data| - 1];
      UnterminatedText(max, front);
      assert data == front + [data[|data| - 1]];
    }
  }

  lemma CompleteLine(max: nat, line: seq<Byte>)
    requires forall j :: 0 <= j < |line| ==> line[j] != NEWLINE
    ensures StateAfter(max, FRESH, line + [NEWLINE]) == FRESH
    ensures EventsOf(max, FRESH, line + [NEWLINE]) == [LineVerdict(max, line)]
  {
    UnterminatedText(max, line);
    ExtendReading(max, FRESH, line, NEWLINE, line + [NEWLINE], StateAfter(max, FRESH, line));
  }

  /** The byte machine, started between lines, computes the line-splitting reference:
      same events in the same order, and the state is determined by the tail alone. */
  lemma {:induction false} SplitterMatchesLines(max: nat, data: seq<Byte>)
    ensures EventsOf(max, FRESH, data) == SplitLines(max, data)
    ensures StateAfter(max, FRESH, data) == TailState(max, Tail(data))
    decreases |data|
  {
    var nl := FirstNewline(data);
    if nl == |data| {
      UnterminatedText(max, data);
    } else {
      var line, rest := data[..nl], data[nl + 1..];
      var head := line + [NEWLINE];
      CompleteLine(max, line);
      assert data == head + rest;
      SplitterMatchesLines(max, rest);
      hide StateAfter, EventsOf, FirstNewline, TailState;
      ChunksCompose(max, FRESH, head, rest);
    }
  }

  // ---------------------------------------------------------------- reference: positions

  /** Start of the line that position `i` continues, in a log first read at `base`. */
  function LineStart(log: seq<Byte>, base: nat, i: nat): (s: nat)
    requires base <= i <= |log|
    ensures base <= s <= i
  {
    if i == base || log[i - 1] == NEWLINE then i else LineStart(log, base, i - 1)
  }

  lemma {:induction false} LineStartMeaning(log: seq<Byte>, base: nat, i: nat)
    requires base <= i <= |log|
    ensures var s := LineStart(log, base, i);
            (s == base || log[s - 1] == NEWLINE) && forall j :: s <= j < i ==> log[j] != NEWLINE
    decreases i
  {
    if i != base && log[i - 1] != NEWLINE {
      LineStartMeaning(log, base, i - 1);
    }
  }

  /** The event that the byte at position `i` causes: a newline completes its line unless the
      line is oversized, and the byte that makes a line oversized reports it. */
  function EventAt(max: nat, log: seq<Byte>, base: nat, i: nat): seq<LineEvent>
    requires base <= i < |log|
  {
    var s := LineStart(log, base, i);
    if log[i] == NEWLINE then (if i - s <= max then [Line(log[s..i])] else [])
    else if i - s == max then [Oversized]
    else []
  }

  /** The events caused by the bytes of `[lo, hi)`, each read in the context of its whole line. */
  function Window(max: nat, log: seq<Byte>, base: nat, lo: nat, hi: nat): seq<LineEvent>
    requires base <= lo <= hi <= |log|
  {
    if lo == hi then [] else Window(max, log, base, lo, hi - 1) + EventAt(max, log, base, hi - 1)
  }

  /** The splitter state after reading `[base, o)`, stated from the log alone. */
  function StateAt(max: nat, log: seq<Byte>, base: nat, o: nat): LineState
    requires base <= o <= |log|
  {
    TailState(max, log[LineStart(log, base, o)..o])
  }

  lemma FeedMatchesPosition(max: nat, log: seq<Byte>, base: nat, i: nat)
    requires base <= i < |log|
    ensures FeedState(max, StateAt(max, log, base, i), log[i]) == StateAt(max, log, base, i + 1)
    ensures FeedEvents(max, StateAt(max, log, base, i), log[i]) == EventAt(max, log, base, i)
  {
    var s := LineStart(log, base, i);
    if log[i] != NEWLINE {
      assert log[s..i + 1] == log[s..i] + [log[i]];
    } else {
      assert log[i + 1..i + 1] == [];
    }
  }

  /** One step of ReadingWindow, with the states at the three positions abstracted. */
  lemma ExtendReading(max: nat, s: LineState, front: seq<Byte>, b: Byte, data: seq<Byte>, mid: LineState)
    requires data == front + [b] && StateAfter(max, s, front) == mid
    ensures StateAfter(max, s, data) == FeedState(max, mid, b)
    ensures EventsOf(max, s, data) == EventsOf(max, s, front) + FeedEvents(max, mid, b)
  {
    assert data[..|data| - 1] == front;
  }

  lemma WindowEnd(max: nat, log: seq<Byte>, base: nat, lo: nat, hi: nat)
    requires base <= lo <= hi <= |log|
    ensures lo == hi ==> Window(max, log, base, lo, hi) == []
    ensures lo < hi ==> Window(max, log, base, lo, hi) == Window(max, log, base, lo, hi - 1) + EventAt(max, log, base, hi - 1)
  {
  }

  lemma NothingRead(max: nat, s: LineState)
    ensures StateAfter(max, s, []) == s && EventsOf(max, s, []) == []
  {
  }

  /** Reading `[lo, hi)` from the state at `lo` yields exactly the events of that window. */
  lemma {:induction false} ReadingWindow(max: nat, log: seq<Byte>, base: nat, lo: nat, hi: nat, s: LineState)
    requires base <= lo <= hi <= |log| && s == StateAt(max, log, base, lo)
    ensures StateAfter(max, s, log[lo..hi]) == StateAt(max, log, base, hi)
    ensures EventsOf(max, s, log[lo..hi]) == Window(max, log, base, lo, hi)
    decreases hi
  {
    hide *;
    WindowEnd(max, log, base, lo, hi);
    if lo == hi {
      assert log[lo..hi] == [];
      NothingRead(max, s);
    } else {
      ReadingWindow(max, log, base, lo, hi - 1, s);
      assert log[lo..hi] == log[lo..hi - 1] + [log[hi - 1]];
      ExtendReading(max, s, log[lo..hi - 1], log[hi - 1], log[lo..hi], StateAt(max, log, base, hi - 1));
      FeedMatchesPosition(max, log, base, hi - 1);
    }
  }

  lemma {:induction false} WindowConcat(max: nat, log: seq<Byte>, base: nat, lo: nat, mid: nat, hi: nat)
    requires base <= lo <= mid <= hi <= |log|
    ensures Window(max, log, base, lo, hi) == Window(max, log, base, lo, mid) + Window(max, log, base, mid, hi)
    decreases hi
  {
    if mid < hi {
      WindowConcat(max, log, base, lo, mid, hi - 1);
    }
  }

  lemma {:induction false} LineStartStable(log: seq<Byte>, more: seq<Byte>, base: nat, i: nat)
    requires base <= i <= |log|
    ensures LineStart(log + more, base, i) == LineStart(log, base, i)
    decreases i
  {
    if i != base && log[i - 1] != NEWLINE {
      LineStartStable(log, more, base, i - 1);
    }
  }

  lemma PositionStable(max: nat, log: seq<Byte>, more: seq<Byte>, base: nat, i: nat)
    requires base <= i <= |log|
    ensures StateAt(max, log + more, base, i) == StateAt(max, log, base, i)
    ensures i < |log| ==> EventAt(max, log + more, base, i) == EventAt(max, log, base, i)
  {
    LineStartStable(log, more, base, i);
    var s := LineStart(log, base, i);
    assert (log + more)[s..i] == log[s..i];
  }

  /** Appending to the log changes nothing that was already read. */
  lemma {:induction false} WindowStable(max: nat, log: seq<Byte>, more: seq<Byte>, base: nat, lo: nat, hi: nat)
    requires base <= lo <= hi <= |log|
    ensures Window(max, log + more, base, lo, hi) == Window(max, log, base, lo, hi)
    ensures StateAt(max, log + more, base, hi) == StateAt(max, log, base, hi)
    decreases hi
  {
    hide StateAt, EventAt;
    PositionStable(max, log, more, base, hi);
    if lo < hi {
      WindowStable(max, log, more, base, lo, hi - 1);
      PositionStable(max, log, more, base, hi - 1);
    }
  }

  // ---------------------------------------------------------------- what a generation counts

  /** The fields of a parsed access-log line that the model's aggregates use. */
  datatype Record = Record(verb: string, uri: string, status: int, bytes: int, session: string, latencyNs: int, partial: bool)

  /** Outcome of parsing one line; the line formats themselves are not part of this model. */
  datatype ParseResult = Skipped | Malformed | Parsed(rec: Record)

  /** The aggregate of one generation: the observed records in order and the health counters. */
  datatype Tally = Tally(records: seq<Record>, dropped: nat, partial: nat)

  datatype Config = Config(maxLine: nat, parse: seq<Byte> -> ParseResult)

  const EMPTY_TALLY := Tally([], 0, 0)

  function CountEvent(cfg: Config, t: Tally, e: LineEvent): Tally {
    match e
    case Oversized => t.(dropped := t.dropped + 1)
    case Line(text) =>
      match cfg.parse(text)
      case Skipped => t
      case Malformed => t.(dropped := t.dropped + 1)
      case Parsed(rec) =>
        Tally(t.records + [rec], t.dropped, t.partial + if rec.partial then 1 else 0)
  }

  function Summary(cfg: Config, t: Tally, es: seq<LineEvent>): Tally {
    if es == [] then t
    else CountEvent(cfg, Summary(cfg, t, es[..|es| - 1]), es[|es| - 1])
  }

  lemma {:induction false} SummaryConcat(cfg: Config, t: Tally, a: seq<LineEvent>, b: seq<LineEvent>)
    ensures Summary(cfg, t, a + b) == Summary(cfg, Summary(cfg, t, a), b)
  {
    if b == [] {
      assert a + b == a;
    } else {
      assert (a + b)[..|a + b| - 1] == a + b[..|b| - 1];
      SummaryConcat(cfg, t, a, b[..|b| - 1]);
    }
  }

  // ---------------------------------------------------------------- what the counters mean

  /** The event is a line that is read as this record. */
  predicate Reads(cfg: Config, e: LineEvent, rec: Record) {
    e.Line? && cfg.parse(e.text) == Parsed(rec)
  }

  predicate IsRead(cfg: Config, e: LineEvent) {
    e.Line? && cfg.parse(e.text).Parsed?
  }

  ghost function DroppedAt(cfg: Config, es: seq<LineEvent>): set<nat> {
    set i: nat | i < |es| && (es[i].Oversized? || cfg.parse(es[i].text) == Malformed)
  }

  ghost function PartialAt(cfg: Config, es: seq<LineEvent>): set<nat> {
    set i: nat | i < |es| && IsRead(cfg, es[i]) && cfg.parse(es[i].text).rec.partial
  }

  /** The records are those of the events at these positions, in order, and no other event is
      read as a record. */
  ghost predicate Lists(cfg: Config, es: seq<LineEvent>, records: seq<Record>, at: seq<nat>) {
    && |at| == |records|
    && (forall k :: 0 <= k < |at| ==> at[k] < |es| && Reads(cfg, es[at[k]], records[k]))
    && (forall j, k :: 0 <= j < k < |at| ==> at[j] < at[k])
    && (forall i :: 0 <= i < |es| && IsRead(cfg, es[i]) ==> i in at)
  }

  /** What the aggregate tells about the events it was fed: every record, in order; how many lines
      were dropped, as too long or as malformed; and how many records were partial. */
  ghost predicate Tells(cfg: Config, es: seq<LineEvent>, t: Tally) {
    && (exists at :: Lists(cfg, es, t.records, at))
    && t.dropped == |DroppedAt(cfg, es)|
    && t.partial == |PartialAt(cfg, es)|
  }

  lemma ListsSnoc(cfg: Config, es: seq<LineEvent>, e: LineEvent, records: seq<Record>, at: seq<nat>)
    requires Lists(cfg, es, records, at)
    ensures IsRead(cfg, e) ==> Lists(cfg, es + [e], records + [cfg.parse(e.text).rec], at + [|es|])
    ensures !IsRead(cfg, e) ==> Lists(cfg, es + [e], records, at)
  {
    var now := es + [e];
    assert forall i :: 0 <= i < |es| ==> now[i] == es[i];
    if IsRead(cfg, e) {
      var later := at + [|es|];
      assert forall k :: 0 <= k < |at| ==> later[k] == at[k];
      forall i | 0 <= i < |now| && IsRead(cfg, now[i]) ensures i in later {
        if i == |es| { assert later[|at|] == i; } else { assert i in at; }
      }
    }
  }

  lemma CountsSnoc(cfg: Config, es: seq<LineEvent>, e: LineEvent)
    ensures |DroppedAt(cfg, es + [e])| == |DroppedAt(cfg, es)| + if e.Oversized? || cfg.parse(e.text) == Malformed then 1 else 0
    ensures |PartialAt(cfg, es + [e])| == |PartialAt(cfg, es)| + if IsRead(cfg, e) && cfg.parse(e.text).rec.partial then 1 else 0
  {
    var now, n: nat := es + [e], |es|;
    assert forall i :: 0 <= i < n ==> now[i] == es[i];
    assert now[n] == e;
    if e.Oversized? || cfg.parse(e.text) == Malformed {
      assert DroppedAt(cfg, now) == DroppedAt(cfg, es) + {n};
    } else {
      assert DroppedAt(cfg, now) == DroppedAt(cfg, es);
    }
    if IsRead(cfg, e) && cfg.parse(e.text).rec.partial {
      assert PartialAt(cfg, now) == PartialAt(cfg, es) + {n};
    } else {
      assert PartialAt(cfg, now) == PartialAt(cfg, es);
    }
  }

  /** The summary of the events tells what they hold. */
  lemma {:induction false} SummaryTells(cfg: Config, es: seq<LineEvent>)
    ensures Tells(cfg, es, Summary(cfg, EMPTY_TALLY, es))
  {
    if es == [] {
      assert Lists(cfg, es, [], []);
      assert DroppedAt(cfg, es) == {} && PartialAt(cfg, es) == {};
    } else {
      var front, e := es[..|es| - 1], es[|es| - 1];
      assert es == front + [e];
      SummaryTells(cfg, front);
      var t := Summary(cfg, EMPTY_TALLY, front);
      var at :| Lists(cfg, front, t.records, at);
      ListsSnoc(cfg, front, e, t.records, at);
      CountsSnoc(cfg, front, e);
      hide Lists, DroppedAt, PartialAt;
    }
  }
}
