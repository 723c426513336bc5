/** The bounded tables of the access-log aggregator (accesslog/aggregate.go): one row for each
    endpoint and one count for each transition between two pages of a session.  Once a table is
    full a new key goes to the overflow key.  Pages and keys are strings; which sessions are
    legible is a parameter.
 */
module AccessTable {
  import opened Counting
  import LogLines
  import Q = Quantiles

  const OVERFLOW_URI := "(other)"
  const SEPARATOR := "\0"
  const OVERFLOW_ROW := SEPARATOR + OVERFLOW_URI
  const OVERFLOW_FLOW := OVERFLOW_URI + SEPARATOR + OVERFLOW_URI
  const MAX_FLOW_PAGE_BYTES := 512
  const DEFAULT_MAX_KEYS := 10000

  type Record = LogLines.Record

  datatype Config = Config(maxKeys: nat, maxSessions: nat, maxTransitions: nat, legible: string -> bool)

  /** Records that close a connection that was upgraded carry no comparable latency. */
  datatype Row = Row(count: nat, bytes: int, timed: nat, totalNs: int, maxNs: nat, buckets: Buckets, status304: nat, status499: nat, status5xx: nat)

  /** Latencies by powers of two. */
  type Buckets = b: seq<nat> | |b| == Q.ACCESS_BUCKETS witness Q.NoBuckets(Q.ACCESS_BUCKETS)

  const EmptyRow := Row(0, 0, 0, 0, 0, Q.NoBuckets(Q.ACCESS_BUCKETS), 0, 0, 0)

  /** durationBucket */
  function BucketOf(ns: int): (i: nat)
    ensures i < Q.ACCESS_BUCKETS
  {
    if ns < 0 then Q.ACCESS_BUCKETS - 1 else Q.Log2Bucket(ns, Q.ACCESS_BUCKETS)
  }

  /** The latency histogram of a row, as its percentile reads it. */
  function HistogramOf(row: Row): Q.Histogram {
    Q.Histogram(row.buckets, row.timed, row.maxNs)
  }

  datatype Table = Table(lines: nat, rows: map<string, Row>, last: map<string, string>, flows: map<string, int>)

  const Empty := Table(0, map[], map[], map[])

  function RowKey(rec: Record): string {
    rec.verb + SEPARATOR + rec.uri
  }

  function Page(rec: Record): string {
    if |rec.verb| + 1 + |rec.uri| <= MAX_FLOW_PAGE_BYTES then rec.verb + " " + rec.uri else OVERFLOW_URI
  }

  function FlowKey(from: string, to: string): string {
    from + SEPARATOR + to
  }

  /** Where a key is counted: at its own place if it has one or there is room. */
  function Slot(present: set<string>, key: string, limit: nat, overflow: string): string {
    if key in present || |present| < limit then key else overflow
  }

  function AddRecord(row: Row, rec: Record): Row {
    var counted := row.(count := row.count + 1,
                        bytes := row.bytes + rec.bytes,
                        status304 := row.status304 + (if rec.status == 304 then 1 else 0),
                        status499 := row.status499 + (if rec.status == 499 then 1 else 0),
                        status5xx := row.status5xx + (if rec.status >= 500 then 1 else 0));
    if rec.status == 101 then counted
    else counted.(timed := row.timed + 1,
                  totalNs := row.totalNs + rec.latencyNs,
                  maxNs := if rec.latencyNs > row.maxNs then rec.latencyNs else row.maxNs,
                  buckets := row.buckets[BucketOf(rec.latencyNs) := row.buckets[BucketOf(rec.latencyNs)] + 1])
  }

  function RowAt(rows: map<string, Row>, key: string): Row {
    if key in rows then rows[key] else EmptyRow
  }

  function AddRow(rows: map<string, Row>, c: Config, rec: Record): map<string, Row> {
    var slot := Slot(rows.Keys, RowKey(rec), c.maxKeys, OVERFLOW_ROW);
    rows[slot := AddRecord(RowAt(rows, slot), rec)]
  }

  function AddFlow(flows: map<string, int>, c: Config, key: string): map<string, int> {
    var slot := Slot(flows.Keys, key, c.maxTransitions, OVERFLOW_FLOW);
    flows[slot := (if slot in flows then flows[slot] else 0) + 1]
  }

  function Observe(t: Table, c: Config, rec: Record): Table {
    var s := rec.session;
    t.(lines := t.lines + 1,
       rows := AddRow(t.rows, c, rec),
       flows := if c.legible(s) && s in t.last then AddFlow(t.flows, c, FlowKey(t.last[s], Page(rec))) else t.flows,
       last := if c.legible(s) && (s in t.last || |t.last| < c.maxSessions) then t.last[s := Page(rec)] else t.last)
  }

  function Observed(rs: seq<Record>, c: Config): Table {
    if rs == [] then Empty else Observe(Observed(rs[..|rs| - 1], c), c, rs[|rs| - 1])
  }

  // ---------------------------------------------------------------- the reference

  /** The row an unbounded table would have for the records that satisfy a condition. */
  function RowFor(rs: seq<Record>, chosen: Record -> bool): Row {
    if rs == [] then EmptyRow
    else
      var before := RowFor(rs[..|rs| - 1], chosen);
      if chosen(rs[|rs| - 1]) then AddRecord(before, rs[|rs| - 1]) else before
  }

  function KeyIs(key: string): Record -> bool {
    rec => RowKey(rec) == key
  }

  /** Not counted at a row of its own. */
  function Elsewhere(keys: set<string>): Record -> bool {
    rec => RowKey(rec) !in keys || RowKey(rec) == OVERFLOW_ROW
  }

  lemma {:induction false} RowForSame(rs: seq<Record>, p: Record -> bool, q: Record -> bool)
    requires forall i :: 0 <= i < |rs| ==> p(rs[i]) == q(rs[i])
    ensures RowFor(rs, p) == RowFor(rs, q)
  {
    if rs != [] { RowForSame(rs[..|rs| - 1], p, q); }
  }

  lemma {:induction false} RowForNone(rs: seq<Record>, p: Record -> bool)
    requires forall i :: 0 <= i < |rs| ==> !p(rs[i])
    ensures RowFor(rs, p) == EmptyRow
  {
    if rs != [] { RowForNone(rs[..|rs| - 1], p); }
  }

  function CountWhere(rs: seq<Record>, chosen: Record -> bool): nat {
    if rs == [] then 0 else CountWhere(rs[..|rs| - 1], chosen) + if chosen(rs[|rs| - 1]) then 1 else 0
  }

  function Bytes(rs: seq<Record>, chosen: Record -> bool): int {
    if rs == [] then 0 else Bytes(rs[..|rs| - 1], chosen) + if chosen(rs[|rs| - 1]) then rs[|rs| - 1].bytes else 0
  }

  function Nanoseconds(rs: seq<Record>, chosen: Record -> bool): int {
    if rs == [] then 0 else Nanoseconds(rs[..|rs| - 1], chosen) + if chosen(rs[|rs| - 1]) then rs[|rs| - 1].latencyNs else 0
  }

  function Answered(chosen: Record -> bool, status: int): Record -> bool {
    rec => chosen(rec) && rec.status == status
  }

  function Failed(chosen: Record -> bool): Record -> bool {
    rec => chosen(rec) && rec.status >= 500
  }

  /** Not the record of an upgraded connection. */
  function Timed(chosen: Record -> bool): Record -> bool {
    rec => chosen(rec) && rec.status != 101
  }

  /** The latencies of the chosen records, in order. */
  function LatenciesOf(rs: seq<Record>, chosen: Record -> bool): seq<int> {
    if rs == [] then [] else LatenciesOf(rs[..|rs| - 1], chosen) + if chosen(rs[|rs| - 1]) then [rs[|rs| - 1].latencyNs] else []
  }

  lemma AddFields(row: Row, rec: Record)
    ensures var r := AddRecord(row, rec);
            && r.count == row.count + 1 && r.bytes == row.bytes + rec.bytes
            && r.status304 == row.status304 + (if rec.status == 304 then 1 else 0)
            && r.status499 == row.status499 + (if rec.status == 499 then 1 else 0)
            && r.status5xx == row.status5xx + (if rec.status >= 500 then 1 else 0)
            && r.timed == row.timed + (if rec.status != 101 then 1 else 0)
            && r.totalNs == row.totalNs + (if rec.status != 101 then rec.latencyNs else 0)
  {
    hide BucketOf;
  }

  /** Field by field, what a row says about the records it was made from. */
  lemma {:induction false} RowMeans(rs: seq<Record>, chosen: Record -> bool)
    ensures var row := RowFor(rs, chosen);
            && row.count == CountWhere(rs, chosen) && row.bytes == Bytes(rs, chosen)
            && row.status304 == CountWhere(rs, Answered(chosen, 304)) && row.status499 == CountWhere(rs, Answered(chosen, 499))
            && row.status5xx == CountWhere(rs, Failed(chosen))
            && row.timed == CountWhere(rs, Timed(chosen)) && row.totalNs == Nanoseconds(rs, Timed(chosen))
  {
    if rs != [] {
      RowMeans(rs[..|rs| - 1], chosen);
      AddFields(RowFor(rs[..|rs| - 1], chosen), rs[|rs| - 1]);
      hide AddRecord;
    }
  }

  lemma EmptyDescribes()
    ensures Q.Describes(HistogramOf(EmptyRow), [], Q.Log2F(Q.ACCESS_BUCKETS))
  {
  }

  lemma AddDescribes(row: Row, rec: Record, xs: seq<int>)
    requires Q.Describes(HistogramOf(row), xs, Q.Log2F(Q.ACCESS_BUCKETS)) && rec.status != 101
    ensures Q.Describes(HistogramOf(AddRecord(row, rec)), xs + [rec.latencyNs], Q.Log2F(Q.ACCESS_BUCKETS))
  {
    var f := Q.Log2F(Q.ACCESS_BUCKETS);
    assert f(rec.latencyNs) == BucketOf(rec.latencyNs);
    hide Q.Describes, BucketOf, Q.Log2F, Q.Log2Bucket;
    Q.RecordDescribes(HistogramOf(row), xs, f, rec.latencyNs);
    assert HistogramOf(AddRecord(row, rec)) == Q.Record(HistogramOf(row), f, rec.latencyNs);
  }

  lemma UntimedKeeps(row: Row, rec: Record)
    requires rec.status == 101
    ensures HistogramOf(AddRecord(row, rec)) == HistogramOf(row)
  {
  }

  /** A row's buckets and maximum are the histogram of the latencies of its records. */
  lemma {:induction false} RowDescribes(rs: seq<Record>, chosen: Record -> bool)
    ensures Q.Describes(HistogramOf(RowFor(rs, chosen)), LatenciesOf(rs, Timed(chosen)), Q.Log2F(Q.ACCESS_BUCKETS))
  {
    hide AddRecord, HistogramOf, Q.Describes, Q.Log2F, BucketOf;
    if rs == [] {
      EmptyDescribes();
    } else {
      var front, rec := rs[..|rs| - 1], rs[|rs| - 1];
      RowDescribes(front, chosen);
      var before := LatenciesOf(front, Timed(chosen));
      assert LatenciesOf(rs, Timed(chosen)) == if Timed(chosen)(rec) then before + [rec.latencyNs] else before;
      if rec.status == 101 {
        UntimedKeeps(RowFor(front, chosen), rec);
      } else {
        AddDescribes(RowFor(front, chosen), rec, before);
      }
    }
  }

  /** The 95th percentile a row shows bounds the exact one of its own records. */
  lemma RowPercentile(rs: seq<Record>, chosen: Record -> bool, x: int)
    requires var xs := LatenciesOf(rs, Timed(chosen)); Q.Latencies(xs) && Q.NearestRank(xs, Q.Rank(|xs|, 95), x)
    ensures var h := HistogramOf(RowFor(rs, chosen));
            && 0 <= x <= Q.Log2Percentile95(h)
            && (x < Q.Pow2(62) ==> Q.Log2Percentile95(h) <= 2 * x)
            && (x >= Q.Pow2(62) ==> Q.Log2Percentile95(h) == h.max)
  {
    hide *;
    RowDescribes(rs, chosen);
    BucketCount(RowFor(rs, chosen));
    Q.AccessPercentileBounds(HistogramOf(RowFor(rs, chosen)), LatenciesOf(rs, Timed(chosen)), x);
  }

  lemma BucketCount(row: Row)
    ensures |HistogramOf(row).buckets| == Q.ACCESS_BUCKETS
  {
  }

  // ---------------------------------------------------------------- what a key tells apart

  lemma SplitAt(a: string, x: string, b: string, y: string, mark: char)
    requires mark !in a && mark !in b
    ensures a + [mark] + x == b + [mark] + y <==> a == b && x == y
  {
    if a + [mark] + x == b + [mark] + y {
      var s := a + [mark] + x;
      if |a| < |b| { MarkInside(a, x, b, y, mark); }
      if |b| < |a| { MarkInside(b, y, a, x, mark); }
      assert a == s[..|a|] && b == s[..|b|] && x == s[|a| + 1..] && y == s[|b| + 1..];
    }
  }

  lemma MarkInside(a: string, x: string, b: string, y: string, mark: char)
    requires a + [mark] + x == b + [mark] + y && |a| < |b|
    ensures mark in b
  {
    assert (a + [mark] + x)[|a|] == mark && (b + [mark] + y)[|a|] == b[|a|];
  }

  /** Records share a row if and only if their methods and their addresses are the same. */
  lemma RowKeyIff(a: Record, b: Record)
    requires '\0' !in a.verb && '\0' !in b.verb
    ensures RowKey(a) == RowKey(b) <==> a.verb == b.verb && a.uri == b.uri
  {
    SplitAt(a.verb, a.uri, b.verb, b.uri, '\0');
  }

  predicate TooLong(rec: Record) {
    |rec.verb| + 1 + |rec.uri| > 512
  }

  /** Records are on one page if and only if both are too long to name or their methods and their
      addresses are the same. */
  lemma PageIff(a: Record, b: Record)
    requires ' ' !in a.verb && ' ' !in b.verb
    ensures Page(a) == Page(b) <==> if TooLong(a) || TooLong(b) then TooLong(a) && TooLong(b) else a.verb == b.verb && a.uri == b.uri
    ensures Page(a) == OVERFLOW_URI <==> TooLong(a)
  {
    SplitAt(a.verb, a.uri, b.verb, b.uri, ' ');
    assert ' ' !in OVERFLOW_URI;
    assert !TooLong(a) ==> Page(a)[|a.verb|] == ' ';
    assert !TooLong(b) ==> Page(b)[|b.verb|] == ' ';
  }

  /** Transitions are counted together if and only if both their pages are the same. */
  lemma FlowKeyIff(a: string, x: string, b: string, y: string)
    requires '\0' !in a && '\0' !in b
    ensures FlowKey(a, x) == FlowKey(b, y) <==> a == b && x == y
  {
    SplitAt(a, x, b, y, '\0');
  }

  // ---------------------------------------------------------------- rows

  ghost predicate ExactRows(rs: seq<Record>, rows: map<string, Row>) {
    forall key :: key in rows && key != OVERFLOW_ROW ==> rows[key] == RowFor(rs, KeyIs(key))
  }

  ghost predicate ExactRest(rs: seq<Record>, rows: map<string, Row>) {
    RowAt(rows, OVERFLOW_ROW) == RowFor(rs, Elsewhere(rows.Keys))
  }

  /** A record without a row of its own means the table is full. */
  ghost predicate FullIfMissing(rs: seq<Record>, rows: map<string, Row>, limit: nat) {
    forall i :: 0 <= i < |rs| && RowKey(rs[i]) !in rows ==> |rows| >= limit
  }

  predicate WithinLimit(keys: set<string>, overflow: string, limit: nat) {
    |keys - {overflow}| <= limit
  }

  lemma RowForSnoc(rs: seq<Record>, rec: Record, p: Record -> bool)
    ensures RowFor(rs + [rec], p) == if p(rec) then AddRecord(RowFor(rs, p), rec) else RowFor(rs, p)
  {
    assert (rs + [rec])[..|rs|] == rs;
  }

  lemma ExactAt(rs: seq<Record>, rows: map<string, Row>, c: Config, rec: Record, k: string)
    requires ExactRows(rs, rows) && FullIfMissing(rs, rows, c.maxKeys) && k in AddRow(rows, c, rec) && k != OVERFLOW_ROW
    ensures AddRow(rows, c, rec)[k] == RowFor(rs + [rec], KeyIs(k))
  {
    RowForSnoc(rs, rec, KeyIs(k));
    if k == RowKey(rec) && k !in rows {
      RowForNone(rs, KeyIs(k));
    }
    hide RowFor, RowKey, AddRecord, FullIfMissing;
  }

  lemma RestAt(rs: seq<Record>, rows: map<string, Row>, c: Config, rec: Record)
    requires ExactRest(rs, rows) && FullIfMissing(rs, rows, c.maxKeys)
    ensures ExactRest(rs + [rec], AddRow(rows, c, rec))
  {
    var next := AddRow(rows, c, rec);
    RowForSnoc(rs, rec, Elsewhere(next.Keys));
    forall i | 0 <= i < |rs| ensures Elsewhere(rows.Keys)(rs[i]) == Elsewhere(next.Keys)(rs[i]) {
      SameElsewhere(rs, rows, c, rec, i);
    }
    RowForSame(rs, Elsewhere(rows.Keys), Elsewhere(next.Keys));
    hide RowFor, RowKey, AddRecord, FullIfMissing;
  }

  lemma SameElsewhere(rs: seq<Record>, rows: map<string, Row>, c: Config, rec: Record, i: nat)
    requires FullIfMissing(rs, rows, c.maxKeys) && i < |rs|
    ensures Elsewhere(rows.Keys)(rs[i]) == Elsewhere(AddRow(rows, c, rec).Keys)(rs[i])
  {
    hide AddRecord;
  }

  lemma FullAfter(rs: seq<Record>, rows: map<string, Row>, c: Config, rec: Record)
    requires FullIfMissing(rs, rows, c.maxKeys)
    ensures FullIfMissing(rs + [rec], AddRow(rows, c, rec), c.maxKeys)
  {
    var next := AddRow(rows, c, rec);
    SubsetSize(rows.Keys, next.Keys);
    assert |rows| == |rows.Keys| && |next| == |next.Keys|;
    hide AddRecord;
  }

  /** Putting a key in its slot keeps the table within its limit. */
  lemma SlotWithinLimit(keys: set<string>, key: string, limit: nat, overflow: string)
    requires WithinLimit(keys, overflow, limit)
    ensures WithinLimit(keys + {Slot(keys, key, limit, overflow)}, overflow, limit)
  {
    var slot := Slot(keys, key, limit, overflow);
    if slot == overflow || slot in keys {
      assert keys + {slot} - {overflow} == keys - {overflow};
    } else {
      SubsetSize(keys + {slot} - {overflow}, keys + {slot});
    }
  }

  ghost predicate RowsInv(rs: seq<Record>, rows: map<string, Row>, limit: nat) {
    ExactRows(rs, rows) && ExactRest(rs, rows) && FullIfMissing(rs, rows, limit) && WithinLimit(rows.Keys, OVERFLOW_ROW, limit)
  }

  lemma AddRowKeys(rows: map<string, Row>, c: Config, rec: Record)
    ensures AddRow(rows, c, rec).Keys == rows.Keys + {Slot(rows.Keys, RowKey(rec), c.maxKeys, OVERFLOW_ROW)}
  {
    hide AddRecord, RowKey;
  }

  lemma RowsStep(rs: seq<Record>, rows: map<string, Row>, c: Config, rec: Record)
    requires RowsInv(rs, rows, c.maxKeys)
    ensures RowsInv(rs + [rec], AddRow(rows, c, rec), c.maxKeys)
  {
    var next := AddRow(rows, c, rec);
    hide AddRow, RowFor, ExactRest, FullIfMissing, WithinLimit;
    forall k | k in next && k != OVERFLOW_ROW ensures next[k] == RowFor(rs + [rec], KeyIs(k)) {
      ExactAt(rs, rows, c, rec, k);
    }
    RestAt(rs, rows, c, rec);
    FullAfter(rs, rows, c, rec);
    AddRowKeys(rows, c, rec);
    SlotWithinLimit(rows.Keys, RowKey(rec), c.maxKeys, OVERFLOW_ROW);
  }

  lemma {:induction false} RowsAlways(rs: seq<Record>, c: Config)
    ensures RowsInv(rs, Observed(rs, c).rows, c.maxKeys) && Observed(rs, c).lines == |rs|
  {
    if rs == [] {
      assert Empty.rows.Keys - {OVERFLOW_ROW} == {};
    } else {
      var front, rec := rs[..|rs| - 1], rs[|rs| - 1];
      assert rs == front + [rec];
      hide RowsInv, AddRow;
      RowsAlways(front, c);
      RowsStep(front, Observed(front, c).rows, c, rec);
    }
  }

  // ---------------------------------------------------------------- nothing is lost

  ghost function Counts(rows: map<string, Row>): map<string, int> {
    map key | key in rows :: rows[key].count
  }

  lemma AddRowCounts(rows: map<string, Row>, c: Config, rec: Record)
    ensures Sum(Counts(AddRow(rows, c, rec))) == Sum(Counts(rows)) + 1
  {
    var slot := Slot(rows.Keys, RowKey(rec), c.maxKeys, OVERFLOW_ROW);
    var n := RowAt(rows, slot).count + 1;
    assert Counts(AddRow(rows, c, rec)) == Counts(rows)[slot := n];
    SumUpdate(Counts(rows), slot, n);
  }

  lemma {:induction false} CountsAlways(rs: seq<Record>, c: Config)
    ensures Sum(Counts(Observed(rs, c).rows)) == |rs|
  {
    if rs == [] {
      assert Counts(map[]) == map[];
    } else {
      CountsAlways(rs[..|rs| - 1], c);
      AddRowCounts(Observed(rs[..|rs| - 1], c).rows, c, rs[|rs| - 1]);
    }
  }

  /** The row counts add up to the lines; there are at most maxKeys rows besides the overflow
      row; every one of them is what an unbounded table would show; the overflow row is the
      aggregate of exactly the records that have no row; and no record lacks a row unless the
      table is full. */
  lemma RowsLoseNothing(rs: seq<Record>, c: Config)
    ensures var t := Observed(rs, c);
            && t.lines == |rs| == Sum(Counts(t.rows))
            && WithinLimit(t.rows.Keys, OVERFLOW_ROW, c.maxKeys)
            && (forall key :: key in t.rows && key != OVERFLOW_ROW ==> t.rows[key] == RowFor(rs, KeyIs(key)))
            && RowAt(t.rows, OVERFLOW_ROW) == RowFor(rs, Elsewhere(t.rows.Keys))
            && (forall i :: 0 <= i < |rs| && RowKey(rs[i]) !in t.rows ==> |t.rows| >= c.maxKeys)
  {
    RowsAlways(rs, c);
    CountsAlways(rs, c);
  }

  // ---------------------------------------------------------------- flows

  /** The page of the latest record of a session. */
  function LastPage(rs: seq<Record>, session: string): (page: string) {
    if rs == [] then ""
    else if rs[|rs| - 1].session == session then Page(rs[|rs| - 1])
    else LastPage(rs[..|rs| - 1], session)
  }

  function Visits(rs: seq<Record>, session: string): nat {
    if rs == [] then 0 else Visits(rs[..|rs| - 1], session) + if rs[|rs| - 1].session == session then 1 else 0
  }

  /** Records of the given sessions. */
  function RecordsOf(rs: seq<Record>, sessions: set<string>): nat {
    if rs == [] then 0 else RecordsOf(rs[..|rs| - 1], sessions) + if rs[|rs| - 1].session in sessions then 1 else 0
  }

  /** How often the given sessions moved along a transition. */
  function Moves(rs: seq<Record>, sessions: set<string>, key: string): nat {
    if rs == [] then 0
    else
      var front, rec := rs[..|rs| - 1], rs[|rs| - 1];
      Moves(front, sessions, key)
      + if rec.session in sessions && Visits(front, rec.session) > 0 && FlowKey(LastPage(front, rec.session), Page(rec)) == key then 1 else 0
  }

  /** The tracked sessions and the page each was on last; a session that is not tracked came
      when the table was full. */
  ghost predicate SessionsInv(rs: seq<Record>, last: map<string, string>, c: Config) {
    && (forall s :: s in last ==> TracksWell(rs, last, c, s))
    && (forall s :: c.legible(s) && Visits(rs, s) > 0 && s !in last ==> |last| >= c.maxSessions)
    && |last| <= c.maxSessions
  }

  ghost predicate TracksWell(rs: seq<Record>, last: map<string, string>, c: Config, s: string)
    requires s in last
  {
    c.legible(s) && Visits(rs, s) > 0 && last[s] == LastPage(rs, s)
  }

  ghost predicate ExactFlows(rs: seq<Record>, sessions: set<string>, flows: map<string, int>) {
    forall key :: key in flows && key != OVERFLOW_FLOW ==> flows[key] == Moves(rs, sessions, key)
  }

  ghost predicate FullIfMoved(rs: seq<Record>, sessions: set<string>, flows: map<string, int>, limit: nat) {
    forall key :: key !in flows && Moves(rs, sessions, key) > 0 ==> |flows| >= limit
  }

  ghost predicate FlowsInv(rs: seq<Record>, sessions: set<string>, flows: map<string, int>, limit: nat) {
    && ExactFlows(rs, sessions, flows)
    && FullIfMoved(rs, sessions, flows, limit)
    && Sum(flows) == RecordsOf(rs, sessions) - |sessions|
    && WithinLimit(flows.Keys, OVERFLOW_FLOW, limit)
  }

  lemma {:induction false} UnvisitedAdds(rs: seq<Record>, sessions: set<string>, s: string, key: string)
    requires Visits(rs, s) == 0
    ensures RecordsOf(rs, sessions + {s}) == RecordsOf(rs, sessions)
    ensures Moves(rs, sessions + {s}, key) == Moves(rs, sessions, key)
  {
    if rs != [] { UnvisitedAdds(rs[..|rs| - 1], sessions, s, key); }
  }

  lemma VisitsSnoc(rs: seq<Record>, rec: Record, s: string)
    ensures Visits(rs + [rec], s) == Visits(rs, s) + if rec.session == s then 1 else 0
    ensures LastPage(rs + [rec], s) == if rec.session == s then Page(rec) else LastPage(rs, s)
  {
    assert (rs + [rec])[..|rs|] == rs;
  }

  lemma MovesSnoc(rs: seq<Record>, rec: Record, sessions: set<string>, key: string)
    ensures RecordsOf(rs + [rec], sessions) == RecordsOf(rs, sessions) + if rec.session in sessions then 1 else 0
    ensures Moves(rs + [rec], sessions, key) ==
            Moves(rs, sessions, key) + if rec.session in sessions && Visits(rs, rec.session) > 0 && FlowKey(LastPage(rs, rec.session), Page(rec)) == key then 1 else 0
  {
    assert (rs + [rec])[..|rs|] == rs;
  }

  function Tracked(last: map<string, string>, c: Config, rec: Record): map<string, string> {
    if c.legible(rec.session) && (rec.session in last || |last| < c.maxSessions) then last[rec.session := Page(rec)] else last
  }

  lemma TrackedKeys(last: map<string, string>, c: Config, rec: Record)
    ensures var next := Tracked(last, c, rec);
            && next.Keys == (if rec.session in next then last.Keys + {rec.session} else last.Keys)
            && |last| <= |next|
            && (|last| <= c.maxSessions ==> |next| <= c.maxSessions)
            && (rec.session in last ==> |next| == |last|)
            && (c.legible(rec.session) && rec.session !in next ==> |last| >= c.maxSessions)
  {
    var next := Tracked(last, c, rec);
    hide Page;
    SubsetSize(last.Keys, next.Keys);
    assert rec.session in last ==> next.Keys == last.Keys;
    assert |next| == |next.Keys| && |last| == |last.Keys|;
  }

  lemma TracksAfter(rs: seq<Record>, last: map<string, string>, c: Config, rec: Record, s: string)
    requires s in Tracked(last, c, rec) && (s in last ==> TracksWell(rs, last, c, s))
    ensures TracksWell(rs + [rec], Tracked(last, c, rec), c, s)
  {
    VisitsSnoc(rs, rec, s);
    hide Visits, LastPage, Page;
  }

  lemma NewlyTracked(rs: seq<Record>, last: map<string, string>, c: Config, rec: Record)
    requires SessionsInv(rs, last, c)
    ensures rec.session in Tracked(last, c, rec) && rec.session !in last ==> Visits(rs, rec.session) == 0
  {
    hide Visits, LastPage, TracksWell, Page;
  }

  lemma UntrackedAfter(rs: seq<Record>, last: map<string, string>, c: Config, rec: Record, s: string)
    requires SessionsInv(rs, last, c)
    ensures c.legible(s) && Visits(rs + [rec], s) > 0 && s !in Tracked(last, c, rec) ==> |Tracked(last, c, rec)| >= c.maxSessions
  {
    VisitsSnoc(rs, rec, s);
    TrackedKeys(last, c, rec);
    hide Visits, LastPage, TracksWell, Tracked;
  }

  lemma SessionsStep(rs: seq<Record>, last: map<string, string>, c: Config, rec: Record)
    requires SessionsInv(rs, last, c)
    ensures SessionsInv(rs + [rec], Tracked(last, c, rec), c)
    ensures rec.session in Tracked(last, c, rec) && rec.session !in last ==> Visits(rs, rec.session) == 0
  {
    var next := Tracked(last, c, rec);
    TrackedKeys(last, c, rec);
    NewlyTracked(rs, last, c, rec);
    hide Tracked, TracksWell, Visits, LastPage;
    forall s | s in next ensures TracksWell(rs + [rec], next, c, s) {
      TracksAfter(rs, last, c, rec, s);
    }
    forall s ensures c.legible(s) && Visits(rs + [rec], s) > 0 && s !in next ==> |next| >= c.maxSessions {
      UntrackedAfter(rs, last, c, rec, s);
    }
  }

  /** Records and moves of a set of sessions that gains one never seen before. */
  lemma FlowsQuiet(rs: seq<Record>, sessions: set<string>, flows: map<string, int>, limit: nat, rec: Record, joins: bool)
    requires FlowsInv(rs, sessions, flows, limit) && rec.session !in sessions && (joins ==> Visits(rs, rec.session) == 0)
    ensures FlowsInv(rs + [rec], if joins then sessions + {rec.session} else sessions, flows, limit)
  {
    var next := if joins then sessions + {rec.session} else sessions;
    hide FlowsInv, ExactFlows, FullIfMoved, Moves, RecordsOf;
    forall key ensures Moves(rs + [rec], next, key) == Moves(rs, sessions, key) {
      QuietMove(rs, sessions, rec, joins, key);
    }
    QuietMove(rs, sessions, rec, joins, "");
    SameMoves(rs, sessions, rs + [rec], next, flows, limit);
    FlowParts(rs, sessions, flows, limit);
    FlowsWhole(rs + [rec], next, flows, limit);
  }

  lemma QuietMove(rs: seq<Record>, sessions: set<string>, rec: Record, joins: bool, key: string)
    requires rec.session !in sessions && (joins ==> Visits(rs, rec.session) == 0)
    ensures var next := if joins then sessions + {rec.session} else sessions;
            && Moves(rs + [rec], next, key) == Moves(rs, sessions, key)
            && RecordsOf(rs + [rec], next) == RecordsOf(rs, sessions) + (if joins then 1 else 0)
            && |next| == |sessions| + if joins then 1 else 0
  {
    var next := if joins then sessions + {rec.session} else sessions;
    MovesSnoc(rs, rec, next, key);
    if joins { UnvisitedAdds(rs, sessions, rec.session, key); }
    hide Moves, RecordsOf, Visits;
  }

  lemma SameMoves(rs: seq<Record>, a: set<string>, ts: seq<Record>, b: set<string>, flows: map<string, int>, limit: nat)
    requires FlowsInv(rs, a, flows, limit) && forall key :: Moves(ts, b, key) == Moves(rs, a, key)
    ensures ExactFlows(ts, b, flows) && FullIfMoved(ts, b, flows, limit)
  {
    hide Moves, RecordsOf;
  }

  lemma FlowParts(rs: seq<Record>, sessions: set<string>, flows: map<string, int>, limit: nat)
    requires FlowsInv(rs, sessions, flows, limit)
    ensures Sum(flows) == RecordsOf(rs, sessions) - |sessions| && WithinLimit(flows.Keys, OVERFLOW_FLOW, limit)
  {
  }

  lemma FlowsWhole(rs: seq<Record>, sessions: set<string>, flows: map<string, int>, limit: nat)
    requires ExactFlows(rs, sessions, flows) && FullIfMoved(rs, sessions, flows, limit)
    requires Sum(flows) == RecordsOf(rs, sessions) - |sessions| && WithinLimit(flows.Keys, OVERFLOW_FLOW, limit)
    ensures FlowsInv(rs, sessions, flows, limit)
  {
  }

  lemma AddFlowSum(flows: map<string, int>, c: Config, key: string)
    ensures Sum(AddFlow(flows, c, key)) == Sum(flows) + 1
  {
    var slot := Slot(flows.Keys, key, c.maxTransitions, OVERFLOW_FLOW);
    SumUpdate(flows, slot, (if slot in flows then flows[slot] else 0) + 1);
  }

  lemma AddFlowKeys(flows: map<string, int>, c: Config, key: string)
    ensures AddFlow(flows, c, key).Keys == flows.Keys + {Slot(flows.Keys, key, c.maxTransitions, OVERFLOW_FLOW)}
    ensures |AddFlow(flows, c, key)| >= |flows|
  {
    var next := AddFlow(flows, c, key);
    SubsetSize(flows.Keys, next.Keys);
    assert |next| == |next.Keys| && |flows| == |flows.Keys|;
  }

  lemma MovedAt(rs: seq<Record>, sessions: set<string>, flows: map<string, int>, c: Config, key: string, k: string, moves: nat)
    requires ExactFlows(rs, sessions, flows) && FullIfMoved(rs, sessions, flows, c.maxTransitions)
    requires moves == Moves(rs, sessions, k) + if k == key then 1 else 0
    ensures k in AddFlow(flows, c, key) && k != OVERFLOW_FLOW ==> AddFlow(flows, c, key)[k] == moves
    ensures k !in AddFlow(flows, c, key) && moves > 0 ==> |AddFlow(flows, c, key)| >= c.maxTransitions
  {
    AddFlowKeys(flows, c, key);
    hide Moves;
  }

  /** A record of a tracked session: one transition. */
  lemma FlowsMove(rs: seq<Record>, sessions: set<string>, flows: map<string, int>, c: Config, rec: Record, key: string)
    requires FlowsInv(rs, sessions, flows, c.maxTransitions) && rec.session in sessions && Visits(rs, rec.session) > 0
    requires key == FlowKey(LastPage(rs, rec.session), Page(rec))
    ensures FlowsInv(rs + [rec], sessions, AddFlow(flows, c, key), c.maxTransitions)
  {
    var next := AddFlow(flows, c, key);
    MovesSnoc(rs, rec, sessions, "");
    AddFlowSum(flows, c, key);
    AddFlowKeys(flows, c, key);
    SlotWithinLimit(flows.Keys, key, c.maxTransitions, OVERFLOW_FLOW);
    forall k
      ensures k in next && k != OVERFLOW_FLOW ==> next[k] == Moves(rs + [rec], sessions, k)
      ensures k !in next && Moves(rs + [rec], sessions, k) > 0 ==> |next| >= c.maxTransitions
    {
      MovesSnoc(rs, rec, sessions, k);
      MovedAt(rs, sessions, flows, c, key, k, Moves(rs + [rec], sessions, k));
    }
    hide AddFlow, Moves, RecordsOf, Page, FlowKey, Slot, WithinLimit;
  }

  lemma TracksAt(rs: seq<Record>, last: map<string, string>, c: Config, s: string)
    requires SessionsInv(rs, last, c) && s in last
    ensures c.legible(s) && Visits(rs, s) > 0 && last[s] == LastPage(rs, s)
  {
    hide Visits, LastPage;
    assert TracksWell(rs, last, c, s);
  }

  lemma FlowsStep(rs: seq<Record>, t: Table, c: Config, rec: Record)
    requires SessionsInv(rs, t.last, c) && FlowsInv(rs, t.last.Keys, t.flows, c.maxTransitions)
    ensures FlowsInv(rs + [rec], Tracked(t.last, c, rec).Keys, Observe(t, c, rec).flows, c.maxTransitions)
  {
    SessionsStep(rs, t.last, c, rec);
    TrackedKeys(t.last, c, rec);
    hide SessionsInv, FlowsInv, Tracked, Visits, LastPage, AddFlow, AddRow, Page, FlowKey;
    if rec.session in t.last {
      TracksAt(rs, t.last, c, rec.session);
      assert t.last.Keys + {rec.session} == t.last.Keys;
      FlowsMove(rs, t.last.Keys, t.flows, c, rec, FlowKey(t.last[rec.session], Page(rec)));
    } else {
      FlowsQuiet(rs, t.last.Keys, t.flows, c.maxTransitions, rec, rec.session in Tracked(t.last, c, rec));
    }
  }

  lemma ObserveLast(t: Table, c: Config, rec: Record)
    ensures Observe(t, c, rec).last == Tracked(t.last, c, rec)
  {
  }

  lemma {:induction false} FlowsAlways(rs: seq<Record>, c: Config)
    ensures SessionsInv(rs, Observed(rs, c).last, c)
    ensures FlowsInv(rs, Observed(rs, c).last.Keys, Observed(rs, c).flows, c.maxTransitions)
  {
    if rs == [] {
      assert Empty.flows.Keys - {OVERFLOW_FLOW} == {};
    } else {
      var front, rec := rs[..|rs| - 1], rs[|rs| - 1];
      var t := Observed(front, c);
      assert rs == front + [rec];
      hide FlowsInv, SessionsInv, Observe, Tracked;
      FlowsAlways(front, c);
      SessionsStep(front, t.last, c, rec);
      ObserveLast(t, c, rec);
      FlowsStep(front, t, c, rec);
    }
  }

  lemma TrackedAre(rs: seq<Record>, c: Config)
    ensures var last := Observed(rs, c).last; forall s :: s in last ==> c.legible(s) && Visits(rs, s) > 0 && last[s] == LastPage(rs, s)
  {
    FlowsAlways(rs, c);
    hide Observed, Visits, LastPage, FlowsInv;
    forall s | s in Observed(rs, c).last
      ensures c.legible(s) && Visits(rs, s) > 0 && Observed(rs, c).last[s] == LastPage(rs, s)
    {
      TracksAt(rs, Observed(rs, c).last, c, s);
    }
  }

  /** The transition counts add up to the records of the tracked sessions less one for each of
      them; every transition but the overflow one is counted exactly, from the first time it
      was made; the table keeps to its bounds, and lacks a transition only if it is full; each
      tracked session is at its last page; and the sessions that are not tracked are those that
      first came when the session table was full. */
  lemma FlowsLoseNothing(rs: seq<Record>, c: Config)
    ensures var t := Observed(rs, c);
            && Sum(t.flows) == RecordsOf(rs, t.last.Keys) - |t.last|
            && (forall key :: key in t.flows && key != OVERFLOW_FLOW ==> t.flows[key] == Moves(rs, t.last.Keys, key))
            && |t.last| <= c.maxSessions && WithinLimit(t.flows.Keys, OVERFLOW_FLOW, c.maxTransitions)
            && (forall s :: c.legible(s) && Visits(rs, s) > 0 && s !in t.last ==> |t.last| >= c.maxSessions)
            && (forall key :: key !in t.flows && Moves(rs, t.last.Keys, key) > 0 ==> |t.flows| >= c.maxTransitions)
            && (forall s :: s in t.last ==> c.legible(s) && Visits(rs, s) > 0 && t.last[s] == LastPage(rs, s))
  {
    TrackedAre(rs, c);
    FlowsAlways(rs, c);
    assert |Observed(rs, c).last| == |Observed(rs, c).last.Keys|;
  }

  // ---------------------------------------------------------------- the aggregator

  class Aggregator {
    const config: Config
    var lines: nat
    var rows: map<string, Row>
    var last: map<string, string>
    var flows: map<string, int>
    ghost var history: seq<Record>

    ghost function View(): Table
      reads this
    {
      Table(lines, rows, last, flows)
    }

    ghost predicate Valid()
      reads this
    {
      View() == Observed(history, config)
    }

    constructor (maxKeys: int, maxSessions: nat, maxTransitions: nat, legible: string -> bool)
      ensures Valid() && history == []
      ensures config == Config(if maxKeys <= 0 then DEFAULT_MAX_KEYS else maxKeys, maxSessions, maxTransitions, legible)
    {
      config := Config(if maxKeys <= 0 then DEFAULT_MAX_KEYS else maxKeys, maxSessions, maxTransitions, legible);
      lines, rows, last, flows, history := 0, map[], map[], map[], [];
    }

    method ObserveRecord(rec: Record)
      requires Valid()
      modifies this
      ensures Valid() && history == old(history) + [rec]
    {
      history := history + [rec];
      assert history[..|history| - 1] == old(history);
      lines := lines + 1;
      ObserveSession(rec);
      ObserveRow(rec);
    }

    method ObserveSession(rec: Record)
      modifies this`last, this`flows
      ensures last == Tracked(old(last), config, rec)
      ensures flows == if config.legible(rec.session) && rec.session in old(last) then AddFlow(old(flows), config, FlowKey(old(last)[rec.session], Page(rec))) else old(flows)
    {
      if !config.legible(rec.session) { return; }
      var page := OVERFLOW_URI;
      if |rec.verb| + 1 + |rec.uri| <= MAX_FLOW_PAGE_BYTES { page := rec.verb + " " + rec.uri; }
      if rec.session in last {
        var key := FlowKey(last[rec.session], page);
        if key !in flows && |flows| >= config.maxTransitions { key := OVERFLOW_FLOW; }
        flows := flows[key := (if key in flows then flows[key] else 0) + 1];
      }
      if rec.session in last || |last| < config.maxSessions {
        last := last[rec.session := page];
      }
    }

    method ObserveRow(rec: Record)
      modifies this`rows
      ensures rows == AddRow(old(rows), config, rec)
    {
      hide BucketOf;
      var key := RowKey(rec);
      if key !in rows && |rows| >= config.maxKeys { key := OVERFLOW_ROW; }
      var row := if key in rows then rows[key] else EmptyRow;
      row := row.(count := row.count + 1, bytes := row.bytes + rec.bytes);
      if rec.status == 304 {
        row := row.(status304 := row.status304 + 1);
      } else if rec.status == 499 {
        row := row.(status499 := row.status499 + 1);
      } else if rec.status >= 500 {
        row := row.(status5xx := row.status5xx + 1);
      }
      if rec.status != 101 {
        row := row.(timed := row.timed + 1, totalNs := row.totalNs + rec.latencyNs);
        if rec.latencyNs > row.maxNs { row := row.(maxNs := rec.latencyNs); }
        var bucket := BucketOf(rec.latencyNs);
        row := row.(buckets := row.buckets[bucket := row.buckets[bucket] + 1]);
      }
      rows := rows[key := row];
      assert row == AddRecord(RowAt(old(rows), key), rec);
    }
  }
}
