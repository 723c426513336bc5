/** Reading one row of SHOW GRANTS (queryplan/grants.go, queryplan/identifier.go), and the rows
    the server writes.  Letter case is ASCII case.
 */
module GrantLines {
  import opened Wrappers
  import opened Identifiers
  import opened Grants

  // ---------------------------------------------------------------- text helpers

  predicate IsBlank(c: char) {
    c == ' ' || '\t' <= c <= '\r'
  }

  function Upper(s: string): (r: string)
    ensures |r| == |s|
  {
    seq(|s|, i requires 0 <= i < |s| => if 'a' <= s[i] <= 'z' then (s[i] as int - 32) as char else s[i])
  }

  function TrimLeft(s: string): string {
    if s == [] || !IsBlank(s[0]) then s else TrimLeft(s[1..])
  }

  function TrimRight(s: string): string {
    if s == [] || !IsBlank(s[|s| - 1]) then s else TrimRight(s[..|s| - 1])
  }

  function TrimSpace(s: string): string {
    TrimRight(TrimLeft(s))
  }

  function TrimSuffix(s: string, c: char): string {
    if s != [] && s[|s| - 1] == c then s[..|s| - 1] else s
  }

  predicate HasPrefix(s: string, prefix: string) {
    |prefix| <= |s| && Upper(s[..|prefix|]) == prefix
  }

  /** The length of the run of characters before the first blank. */
  function WordLength(s: string): (n: nat)
    ensures n <= |s|
  {
    if s == [] || IsBlank(s[0]) then 0 else 1 + WordLength(s[1..])
  }

  function Fields(s: string): seq<string>
    decreases |s|
  {
    if s == [] then []
    else if IsBlank(s[0]) then Fields(s[1..])
    else [s[..WordLength(s)]] + Fields(s[WordLength(s)..])
  }

  function JoinWords(words: seq<string>): string {
    if words == [] then ""
    else if |words| == 1 then words[0]
    else words[0] + " " + JoinWords(words[1..])
  }

  function UpperWords(s: string): string {
    Upper(JoinWords(Fields(s)))
  }

  function BeforeParen(s: string): string {
    if s == [] || s[0] == '(' then [] else [s[0]] + BeforeParen(s[1..])
  }

  // ---------------------------------------------------------------- reading a row

  /** The text around the first occurrence of `sub` outside quotes; `before` was passed already. */
  function Cut(s: string, sub: string, before: string): Option<(string, string)>
    decreases |s|
  {
    if s == [] then None
    else if IsQuote(s[0]) then
      var r := ScanQuoted(s[1..], s[0], []);
      if r.Unreadable? then None else Cut(r.rest, sub, before + s[..|s| - |r.rest|])
    else if HasPrefix(s, sub) then Some((before, s[|sub|..]))
    else Cut(s[1..], sub, before + [s[0]])
  }

  const ON := " ON "
  const TO := " TO "
  const GRANT := "GRANT "
  const WITH_GRANT_OPTION := "WITH GRANT OPTION"

  function PrivilegeName(item: string): string {
    var name := TrimSpace(item);
    if '(' in name then TrimSpace(BeforeParen(name)) else name
  }

  function ReadNames(items: seq<string>): Option<seq<string>> {
    if items == [] then Some([])
    else
      var front := ReadNames(items[..|items| - 1]);
      var name := PrivilegeName(items[|items| - 1]);
      if front.None? || name == "" then None else Some(front.value + [UpperWords(name)])
  }

  function ParsePrivileges(list: string): Option<seq<string>> {
    ReadNames(Split(list, ',', 0, []))
  }

  function ScanObjectPart(s: string): (r: Scan)
    ensures r.Scanned? ==> |r.rest| < |s|
  {
    var t := SkipSpace(s);
    if t != [] && t[0] == '*' then Scanned("*", t[1..]) else ScanIdent(t)
  }

  /** The object without its kind, and whether the kind is a routine. */
  function StripKind(s: string): (string, bool) {
    if HasPrefix(s, "TABLE ") then (TrimSpace(s[6..]), false)
    else if HasPrefix(s, "FUNCTION ") then (TrimSpace(s[9..]), true)
    else if HasPrefix(s, "PROCEDURE ") then (TrimSpace(s[10..]), true)
    else (s, false)
  }

  function ParseObject(text: string): Option<ObjectRef> {
    var stripped := StripKind(TrimSpace(text));
    var db := ScanObjectPart(stripped.0);
    if db.Unreadable? || db.rest == [] || db.rest[0] != '.' then None
    else
      var table := ScanObjectPart(db.rest[1..]);
      if table.Unreadable? || SkipSpace(table.rest) != [] then None
      else Some(ObjectRef(db.value, table.value, stripped.1))
  }

  /** Whether the account is followed by WITH GRANT OPTION; anything else is unreadable. */
  function ParseGrantee(s: string): Option<bool> {
    var r := ParseAccount(s);
    if r.NoAccount? then None
    else
      var tail := UpperWords(r.rest);
      if tail == "" then Some(false) else if tail == WITH_GRANT_OPTION then Some(true) else None
  }

  function ParseRoleGrant(body: string): Option<GrantLine> {
    var to := Cut(body, TO, []);
    if to.None? then None
    else
      var roles := ParseAccountList(to.value.0);
      if roles.None? || ParseGrantee(to.value.1).None? then None
      else Some(GrantLine(roles.value, [], ObjectRef("", "", false), false))
  }

  function ParsePrivilegeGrant(list: string, rest: string): Option<GrantLine> {
    var privs := ParsePrivileges(list);
    var to := Cut(rest, TO, []);
    if privs.None? || to.None? then None
    else
      var obj := ParseObject(to.value.0);
      var option := ParseGrantee(to.value.1);
      if obj.None? || option.None? then None
      else Some(GrantLine([], privs.value, obj.value, option.value))
  }

  function ParseGrant(line: string): Option<GrantLine> {
    var body := TrimSpace(TrimSuffix(TrimSpace(line), ';'));
    if !HasPrefix(body, GRANT) then None
    else
      var on := Cut(body[6..], ON, []);
      if on.None? then ParseRoleGrant(body[6..]) else ParsePrivilegeGrant(on.value.0, on.value.1)
  }

  // ---------------------------------------------------------------- writing a row

  /** A privilege and the columns it is limited to, if any. */
  datatype Privilege = Privilege(words: seq<string>, columns: seq<Account>)

  datatype Kind = Plain | TableKind | FunctionKind | ProcedureKind

  datatype Part = Any | Named(name: string)

  datatype Row =
    | Privileges(privs: seq<Privilege>, kind: Kind, db: Part, table: Part, grantee: Account, option: bool)
    | Membership(roles: seq<Account>, grantee: Account)

  function WriteColumns(columns: seq<Account>): string {
    if columns == [] then "" else " " + ("(" + (QuotedList(columns) + ")"))
  }

  function WritePrivilege(p: Privilege): string {
    JoinWords(p.words) + WriteColumns(p.columns)
  }

  function WritePrivileges(ps: seq<Privilege>): string {
    if ps == [] then ""
    else if |ps| == 1 then WritePrivilege(ps[0])
    else WritePrivilege(ps[0]) + ", " + WritePrivileges(ps[1..])
  }

  function KindText(k: Kind): string {
    match k case Plain => "" case TableKind => "TABLE " case FunctionKind => "FUNCTION " case ProcedureKind => "PROCEDURE "
  }

  function WritePart(p: Part): string {
    if p.Any? then "*" else QuoteIdent(p.name)
  }

  function WriteObject(k: Kind, db: Part, table: Part): string {
    KindText(k) + (WritePart(db) + ("." + WritePart(table)))
  }

  function WriteGrantee(a: Account, option: bool): string {
    Quoted(a) + if option then " " + WITH_GRANT_OPTION else ""
  }

  function WriteBody(r: Row): string {
    match r
    case Privileges(privs, kind, db, table, grantee, option) =>
      WritePrivileges(privs) + (ON + (WriteObject(kind, db, table) + (TO + WriteGrantee(grantee, option))))
    case Membership(roles, grantee) => QuotedList(roles) + (TO + WriteGrantee(grantee, false))
  }

  function Write(r: Row): string {
    GRANT + WriteBody(r)
  }

  predicate IsLetter(c: char) {
    'A' <= c <= 'Z' || c == '_'
  }

  /** A word of a privilege name. */
  predicate IsWord(w: string) {
    w != [] && w != "ON" && forall i :: 0 <= i < |w| ==> IsLetter(w[i])
  }

  predicate IsPrivilege(p: Privilege) {
    p.words != [] && forall i :: 0 <= i < |p.words| ==> IsWord(p.words[i])
  }

  predicate IsRow(r: Row) {
    match r
    case Privileges(privs, _, _, _, _, _) => privs != [] && forall i :: 0 <= i < |privs| ==> IsPrivilege(privs[i])
    case Membership(roles, _) => roles != []
  }

  function PartValue(p: Part): string {
    if p.Any? then "*" else p.name
  }

  function Names(ps: seq<Privilege>): seq<string> {
    seq(|ps|, i requires 0 <= i < |ps| => JoinWords(ps[i].words))
  }

  /** What the allowlist has to judge. */
  function Meaning(r: Row): GrantLine {
    match r
    case Privileges(privs, kind, db, table, _, option) =>
      GrantLine([], Names(privs), ObjectRef(PartValue(db), PartValue(table), kind.FunctionKind? || kind.ProcedureKind?), option)
    case Membership(roles, _) => GrantLine(roles, [], ObjectRef("", "", false), false)
  }

  // ---------------------------------------------------------------- the search passes over names

  lemma CutQuoted(s: string, sub: string, before: string)
    requires s != [] && IsQuote(s[0])
    ensures var r := ScanQuoted(s[1..], s[0], []);
            Cut(s, sub, before) == if r.Unreadable? then None else Cut(r.rest, sub, before + s[..|s| - |r.rest|])
  {
    hide ScanQuoted, HasPrefix;
  }

  lemma CutOverIdent(name: string, tail: string, sub: string, before: string)
    requires NoBacktick(tail)
    ensures Cut(QuoteIdent(name) + tail, sub, before) == Cut(tail, sub, before + QuoteIdent(name))
  {
    var text := QuoteIdent(name) + tail;
    assert text == "`" + (Doubled(name) + "`" + tail);
    assert text[0] == '`' && text[1..] == Doubled(name) + "`" + tail;
    ScanDoubled(name, tail, []);
    assert text[..|text| - |tail|] == QuoteIdent(name);
    hide ScanQuoted, Cut, QuoteIdent;
    CutQuoted(text, sub, before);
  }

  lemma CutStep(c: char, tail: string, sub: string, before: string)
    requires !IsQuote(c)
    ensures Cut([c] + tail, sub, before) == if HasPrefix([c] + tail, sub) then Some((before, ([c] + tail)[|sub|..])) else Cut(tail, sub, before + [c])
  {
    assert ([c] + tail)[1..] == tail;
    hide ScanQuoted, HasPrefix;
  }

  predicate Searched(sub: string) {
    sub == ON || sub == TO
  }

  /** Characters that are neither a quote nor a blank are passed over. */
  lemma CutChar(c: char, tail: string, sub: string, before: string)
    requires !IsQuote(c) && c != ' ' && Searched(sub)
    ensures Cut([c] + tail, sub, before) == Cut(tail, sub, before + [c])
  {
    CutStep(c, tail, sub, before);
    var s := [c] + tail;
    assert !HasPrefix(s, sub) by {
      if |sub| <= |s| { assert Upper(s[..|sub|])[0] != ' '; }
    }
    hide Cut, HasPrefix;
  }

  lemma {:induction false} CutPlain(t: string, tail: string, sub: string, before: string)
    requires Searched(sub) && forall i :: 0 <= i < |t| ==> !IsQuote(t[i]) && t[i] != ' '
    ensures Cut(t + tail, sub, before) == Cut(tail, sub, before + t)
  {
    hide Cut, Searched;
    if t == [] {
      assert t + tail == tail && before + t == before;
    } else {
      assert t + tail == [t[0]] + (t[1..] + tail);
      CutChar(t[0], t[1..] + tail, sub, before);
      CutPlain(t[1..], tail, sub, before + [t[0]]);
      assert before + [t[0]] + t[1..] == before + t;
    }
  }

  /** A blank is passed over unless the searched word follows. */
  lemma CutBlank(tail: string, sub: string, before: string)
    requires !HasPrefix(" " + tail, sub)
    ensures Cut(" " + tail, sub, before) == Cut(tail, sub, before + " ")
  {
    CutStep(' ', tail, sub, before);
    hide Cut, HasPrefix;
  }

  lemma CutFound(tail: string, sub: string, before: string)
    requires Searched(sub)
    ensures Cut(sub + tail, sub, before) == Some((before, tail))
  {
    assert (sub + tail)[..4] == sub && (sub + tail)[4..] == tail;
    assert Upper(sub) == sub;
    assert sub + tail == [' '] + (sub + tail)[1..];
    CutStep(' ', (sub + tail)[1..], sub, before);
    hide Cut;
  }

  lemma NotSearched(tail: string, sub: string)
    requires Searched(sub) && (tail == [] || Upper(tail[..1])[0] != sub[1])
    ensures !HasPrefix(" " + tail, sub)
  {
    if |sub| <= |tail| + 1 {
      assert Upper((" " + tail)[..4])[1] != sub[1];
    }
  }

  lemma CutOverAccount(a: Account, tail: string, sub: string, before: string)
    requires NoBacktick(tail) && Searched(sub)
    ensures Cut(Quoted(a) + tail, sub, before) == Cut(tail, sub, before + Quoted(a))
  {
    hide Cut, QuoteIdent, Searched;
    var name, host := QuoteIdent(a.name), QuoteIdent(a.host);
    if a.host == "" {
      CutOverIdent(a.name, tail, sub, before);
    } else {
      var after := "@" + (host + tail);
      assert Quoted(a) + tail == name + after;
      CutOverIdent(a.name, after, sub, before);
      CutChar('@', host + tail, sub, before + name);
      CutOverIdent(a.host, tail, sub, before + name + "@");
      assert before + name + "@" + host == before + Quoted(a);
    }
  }

  lemma {:induction false} CutOverList(accounts: seq<Account>, tail: string, sub: string, before: string)
    requires accounts != [] && NoBacktick(tail) && Searched(sub)
    ensures Cut(QuotedList(accounts) + tail, sub, before) == Cut(tail, sub, before + QuotedList(accounts))
    decreases |accounts|
  {
    hide *;
    var a := accounts[0];
    ListUnfolds(accounts);
    if |accounts| == 1 {
      assert QuotedList(accounts) == Quoted(a);
      CutOverAccount(a, tail, sub, before);
    } else {
      var more := QuotedList(accounts[1..]) + tail;
      assert QuotedList(accounts) + tail == Quoted(a) + ("," + (" " + more));
      CommaIsPlain("," + (" " + more));
      CutOverAccount(a, "," + (" " + more), sub, before);
      CutChar(',', " " + more, sub, before + Quoted(a));
      ListIsNotSearched(accounts[1..], tail, sub);
      CutBlank(more, sub, before + Quoted(a) + ",");
      CutOverList(accounts[1..], tail, sub, before + Quoted(a) + "," + " ");
      assert before + Quoted(a) + "," + " " + QuotedList(accounts[1..]) == before + QuotedList(accounts);
    }
  }

  lemma CommaIsPlain(s: string)
    ensures s != [] && s[0] == ',' ==> NoBacktick(s)
    ensures !IsQuote(',') && !IsQuote('@') && !IsQuote('.') && !IsQuote('(') && !IsQuote(')') && !IsQuote('*') && !IsQuote(' ')
  {
  }

  lemma ListIsNotSearched(accounts: seq<Account>, tail: string, sub: string)
    requires accounts != [] && Searched(sub)
    ensures !HasPrefix(" " + (QuotedList(accounts) + tail), sub)
  {
    ListUnfolds(accounts);
    QuotedStarts(accounts[0]);
    hide Quoted;
    var t := QuotedList(accounts) + tail;
    assert t[0] == '`';
    assert Upper(t[..1])[0] == '`';
    NotSearched(t, sub);
  }

  // ---------------------------------------------------------------- the search passes over privileges

  /** Text that cannot continue a word. */
  predicate EndsWord(tail: string) {
    tail == [] || tail[0] == ' ' || tail[0] == ','
  }

  lemma WordIsNotOn(w: string, tail: string)
    requires IsWord(w) && EndsWord(tail)
    ensures !HasPrefix(" " + (w + tail), ON)
  {
    var s := " " + (w + tail);
    if |s| >= 4 {
      var u := Upper(s[..4]);
      assert u[1] == w[0];
      if |w| == 1 {
        assert s[2] == tail[0];
        assert u[2] != 'N';
      } else if |w| == 2 {
        assert u[2] == w[1] && s[1] == w[0] && s[2] == w[1];
        assert w == [w[0], w[1]];
      } else {
        assert u[3] == w[2];
      }
    }
  }

  lemma WordIsPlain(w: string)
    requires IsWord(w)
    ensures forall i :: 0 <= i < |w| ==> !IsQuote(w[i]) && w[i] != ' ' && !IsBlank(w[i]) && w[i] != '(' && w[i] != ')' && w[i] != ','
  {
  }

  lemma JoinUnfolds(words: seq<string>)
    requires words != []
    ensures JoinWords(words) == words[0] + if |words| == 1 then "" else " " + JoinWords(words[1..])
  {
  }

  ghost predicate AllWords(words: seq<string>) {
    words != [] && forall i :: 0 <= i < |words| ==> IsWord(words[i])
  }

  lemma {:induction false} CutOverWords(words: seq<string>, tail: string, before: string)
    requires AllWords(words) && EndsWord(tail)
    ensures Cut(JoinWords(words) + tail, ON, before) == Cut(tail, ON, before + JoinWords(words))
    ensures !HasPrefix(" " + (JoinWords(words) + tail), ON)
    decreases |words|
  {
    var w := words[0];
    assert IsWord(w);
    hide Cut, HasPrefix, IsWord, JoinWords;
    JoinUnfolds(words);
    WordIsPlain(w);
    OnIsSearched();
    if |words| == 1 {
      assert JoinWords(words) + tail == w + tail;
      CutPlain(w, tail, ON, before);
      WordIsNotOn(w, tail);
      assert before + JoinWords(words) == before + w;
    } else {
      var rest := JoinWords(words[1..]) + tail;
      assert JoinWords(words) + tail == w + (" " + rest);
      CutPlain(w, " " + rest, ON, before);
      WordIsNotOn(w, " " + rest);
      CutOverWords(words[1..], tail, before + w + " ");
      CutBlank(rest, ON, before + w);
      assert before + w + " " + JoinWords(words[1..]) == before + JoinWords(words);
    }
  }

  lemma OnIsSearched()
    ensures Searched(ON) && Searched(TO)
  {
  }

  lemma PrivilegeUnfolds(p: Privilege)
    ensures WritePrivilege(p) == JoinWords(p.words) + WriteColumns(p.columns)
  {
  }

  lemma ColumnsUnfold(columns: seq<Account>, tail: string)
    ensures columns == [] ==> WriteColumns(columns) == "" && WriteColumns(columns) + tail == tail
    ensures columns != [] ==> WriteColumns(columns) == " " + ("(" + (QuotedList(columns) + ")"))
    ensures columns != [] ==> WriteColumns(columns) + tail == " " + ("(" + (QuotedList(columns) + (")" + tail)))
    ensures EndsWord(tail) ==> EndsWord(WriteColumns(columns) + tail)
  {
    hide QuotedList;
  }

  lemma Concat4(a: string, b: string, c: string, d: string, e: string)
    ensures a + b + c + d + e == a + (b + (c + (d + e)))
  {
  }

  lemma CutOverColumns(columns: seq<Account>, tail: string, before: string)
    ensures Cut(WriteColumns(columns) + tail, ON, before) == Cut(tail, ON, before + WriteColumns(columns))
  {
    hide *;
    ColumnsUnfold(columns, tail);
    if columns == [] {
      assert before + "" == before;
    } else {
      var list := QuotedList(columns);
      var closing := ")" + tail;
      var inner := list + closing;
      OnIsSearched();
      CommaIsPlain(closing);
      ParenStarts(inner);
      ParenStarts(tail);
      CutBlank("(" + inner, ON, before);
      CutChar('(', inner, ON, before + " ");
      CutOverList(columns, closing, ON, before + " " + "(");
      CutChar(')', tail, ON, before + " " + "(" + list);
      Concat4(before, " ", "(", list, ")");
    }
  }

  lemma ParenStarts(inner: string)
    ensures !HasPrefix(" " + ("(" + inner), ON)
    ensures NoBacktick(")" + inner)
  {
    assert Upper(("(" + inner)[..1])[0] == '(';
    NotSearched("(" + inner, ON);
  }

  lemma Concat2(a: string, b: string, c: string)
    ensures a + b + c == a + (b + c)
  {
  }

  lemma PrivilegeWords(p: Privilege)
    requires IsPrivilege(p)
    ensures AllWords(p.words)
  {
    hide IsWord;
  }

  lemma CutOverPrivilege(p: Privilege, tail: string, before: string)
    requires IsPrivilege(p) && EndsWord(tail)
    ensures Cut(WritePrivilege(p) + tail, ON, before) == Cut(tail, ON, before + WritePrivilege(p))
    ensures !HasPrefix(" " + (WritePrivilege(p) + tail), ON)
  {
    hide *;
    PrivilegeWords(p);
    PrivilegeUnfolds(p);
    ColumnsUnfold(p.columns, tail);
    var name, columns := JoinWords(p.words), WriteColumns(p.columns);
    Concat2(name, columns, tail);
    CutOverWords(p.words, columns + tail, before);
    CutOverColumns(p.columns, tail, before + name);
    Concat2(before, name, columns);
  }

  lemma BlankEndsWord(s: string)
    ensures s != [] && (s[0] == ' ' || s[0] == ',') ==> EndsWord(s)
  {
  }

  lemma PrivilegesUnfold(ps: seq<Privilege>)
    requires ps != []
    ensures WritePrivileges(ps) == WritePrivilege(ps[0]) + if |ps| == 1 then "" else ", " + WritePrivileges(ps[1..])
  {
    hide WritePrivilege;
  }

  ghost predicate AllPrivileges(ps: seq<Privilege>) {
    ps != [] && forall i :: 0 <= i < |ps| ==> IsPrivilege(ps[i])
  }

  lemma AllPrivilegesParts(ps: seq<Privilege>)
    requires AllPrivileges(ps)
    ensures ps != [] && IsPrivilege(ps[0]) && (|ps| > 1 ==> AllPrivileges(ps[1..]))
  {
    hide IsPrivilege;
  }

  lemma {:induction false} CutOverPrivileges(ps: seq<Privilege>, tail: string, before: string)
    requires AllPrivileges(ps) && EndsWord(tail)
    ensures Cut(WritePrivileges(ps) + tail, ON, before) == Cut(tail, ON, before + WritePrivileges(ps))
    ensures !HasPrefix(" " + (WritePrivileges(ps) + tail), ON)
    decreases |ps|
  {
    hide *;
    AllPrivilegesParts(ps);
    PrivilegesUnfold(ps);
    OnIsSearched();
    var p := WritePrivilege(ps[0]);
    if |ps| == 1 {
      assert WritePrivileges(ps) == p;
      CutOverPrivilege(ps[0], tail, before);
    } else {
      var rest := WritePrivileges(ps[1..]) + tail;
      var after := "," + (" " + rest);
      assert WritePrivileges(ps) + tail == p + after;
      BlankEndsWord(after);
      CommaIsPlain(after);
      CutOverPrivilege(ps[0], after, before);
      CutChar(',', " " + rest, ON, before + p);
      CutOverPrivileges(ps[1..], tail, before + p + "," + " ");
      CutBlank(rest, ON, before + p + ",");
      assert before + p + "," + " " + WritePrivileges(ps[1..]) == before + WritePrivileges(ps);
    }
  }

  // ---------------------------------------------------------------- objects and grantees

  lemma WordThenBlank(word: string, tail: string)
    requires tail != [] && Upper(tail[..1])[0] != 'T' && forall i :: 0 <= i < |word| ==> !IsQuote(word[i]) && word[i] != ' '
    ensures Cut(word + (" " + tail), TO, []) == Cut(tail, TO, word + " ")
  {
    hide Cut, HasPrefix, Upper;
    CutPlain(word, " " + tail, TO, []);
    NotSearched(tail, TO);
    CutBlank(tail, TO, [] + word);
    assert [] + word + " " == word + " ";
  }

  lemma KindWord(k: Kind)
    requires !k.Plain?
    ensures var text := KindText(k);
            var word := text[..|text| - 1];
            text == word + " " && forall i :: 0 <= i < |word| ==> !IsQuote(word[i]) && word[i] != ' '
  {
  }

  lemma KindIsPlain(k: Kind, tail: string)
    requires tail != [] && Upper(tail[..1])[0] != 'T'
    ensures Cut(KindText(k) + tail, TO, []) == Cut(tail, TO, KindText(k))
  {
    if k.Plain? {
      assert KindText(k) + tail == tail;
    } else {
      hide *;
      KindWord(k);
      var word := KindText(k)[..|KindText(k)| - 1];
      Concat2(word, " ", tail);
      WordThenBlank(word, tail);
    }
  }

  lemma PartStarts(p: Part, tail: string)
    ensures WritePart(p) != [] && (WritePart(p)[0] == '`' || WritePart(p)[0] == '*')
    ensures Upper((WritePart(p) + tail)[..1])[0] != 'T'
  {
    var c := WritePart(p)[0];
    assert (WritePart(p) + tail)[..1] == [c];
  }

  lemma CutOverPart(p: Part, tail: string, before: string)
    requires NoBacktick(tail)
    ensures Cut(WritePart(p) + tail, TO, before) == Cut(tail, TO, before + WritePart(p))
  {
    hide Cut, QuoteIdent;
    if p.Any? {
      CutChar('*', tail, TO, before);
    } else {
      CutOverIdent(p.name, tail, TO, before);
    }
  }

  lemma ToStarts(tail: string)
    ensures NoBacktick(TO + tail) && NoBacktick("." + tail) && EndsWord(ON + tail) && EndsWord(TO + tail)
  {
  }

  lemma CutOverObject(k: Kind, db: Part, table: Part, tail: string)
    ensures Cut(WriteObject(k, db, table) + (TO + tail), TO, []) == Some((WriteObject(k, db, table), tail))
  {
    hide *;
    var kind, d, t := KindText(k), WritePart(db), WritePart(table);
    ObjectUnfolds(k, db, table);
    var after := t + (TO + tail);
    var rest := d + ("." + after);
    assert WriteObject(k, db, table) + (TO + tail) == kind + rest;
    PartStarts(db, "." + after);
    KindIsPlain(k, rest);
    ToStarts(after);
    ToStarts(tail);
    OnIsSearched();
    CommaIsPlain("");
    CutOverPart(db, "." + after, kind);
    CutChar('.', after, TO, kind + d);
    CutOverPart(table, TO + tail, kind + d + ".");
    CutFound(tail, TO, kind + d + "." + t);
    assert kind + d + "." + t == WriteObject(k, db, table);
  }

  lemma ObjectUnfolds(k: Kind, db: Part, table: Part)
    ensures WriteObject(k, db, table) == KindText(k) + (WritePart(db) + ("." + WritePart(table)))
  {
  }

  lemma TrimNothing(s: string)
    requires s == [] || (!IsBlank(s[0]) && !IsBlank(s[|s| - 1]))
    ensures TrimSpace(s) == s
  {
  }

  lemma PartEnds(p: Part)
    ensures var t := WritePart(p); t != [] && !IsBlank(t[0]) && !IsBlank(t[|t| - 1])
  {
  }

  lemma ReadAny(tail: string)
    ensures ScanObjectPart("*" + tail) == Scanned("*", tail)
  {
    var s := "*" + tail;
    assert s[0] == '*' && s[1..] == tail;
    SkipNothing(s);
    hide ScanIdent, SkipSpace;
  }

  lemma ReadNamed(name: string, tail: string)
    requires NoBacktick(tail)
    ensures ScanObjectPart(QuoteIdent(name) + tail) == Scanned(name, tail)
  {
    ScanQuotedIdent(name, tail);
    var text := QuoteIdent(name) + tail;
    assert text[0] == '`';
    hide ScanIdent, QuoteIdent, SkipSpace;
    SkipNothing(text);
  }

  lemma ReadPart(p: Part, tail: string)
    requires NoBacktick(tail)
    ensures ScanObjectPart(WritePart(p) + tail) == Scanned(PartValue(p), tail)
  {
    hide ScanObjectPart, QuoteIdent, NoBacktick;
    if p.Any? { ReadAny(tail); } else { ReadNamed(p.name, tail); }
  }

  lemma KindIs(k: Kind, obj: string)
    requires obj != [] && (obj[0] == '`' || obj[0] == '*')
    ensures var s := KindText(k) + obj;
            && (k.Plain? <==> !HasPrefix(s, "TABLE ") && !HasPrefix(s, "FUNCTION ") && !HasPrefix(s, "PROCEDURE "))
            && (k.TableKind? <==> HasPrefix(s, "TABLE "))
            && (k.FunctionKind? <==> HasPrefix(s, "FUNCTION "))
            && (k.ProcedureKind? <==> HasPrefix(s, "PROCEDURE "))
  {
    var s := KindText(k) + obj;
    PrefixIff(s, "TABLE ");
    PrefixIff(s, "FUNCTION ");
    PrefixIff(s, "PROCEDURE ");
    if k.Plain? { assert s == obj; }
  }

  /** The three kinds differ in their first letter, which is a capital. */
  lemma PrefixIff(s: string, prefix: string)
    requires prefix == "TABLE " || prefix == "FUNCTION " || prefix == "PROCEDURE "
    requires s != [] && (s[0] in {'`', '*', 'T', 'F', 'P'}) && (s[0] == prefix[0] ==> |prefix| <= |s| && s[..|prefix|] == prefix)
    ensures HasPrefix(s, prefix) <==> s[0] == prefix[0]
  {
    if |prefix| <= |s| { assert Upper(s[..|prefix|])[0] == s[0]; }
    assert Upper(prefix) == prefix;
  }

  lemma StripsKind(k: Kind, obj: string)
    requires obj != [] && (obj[0] == '`' || obj[0] == '*') && !IsBlank(obj[|obj| - 1])
    ensures StripKind(KindText(k) + obj) == (obj, k.FunctionKind? || k.ProcedureKind?)
  {
    TrimNothing(obj);
    KindIs(k, obj);
    hide TrimSpace, HasPrefix;
    assert (KindText(k) + obj)[|KindText(k)|..] == obj;
  }

  lemma KindStarts(k: Kind, obj: string)
    requires obj != [] && !IsBlank(obj[0]) && !IsBlank(obj[|obj| - 1])
    ensures TrimSpace(KindText(k) + obj) == KindText(k) + obj
  {
    var s := KindText(k) + obj;
    assert s[|s| - 1] == obj[|obj| - 1];
    TrimNothing(s);
  }

  lemma ObjectRoundTrip(k: Kind, db: Part, table: Part)
    ensures ParseObject(WriteObject(k, db, table)) ==
            Some(ObjectRef(PartValue(db), PartValue(table), k.FunctionKind? || k.ProcedureKind?))
  {
    hide *;
    var d, t := WritePart(db), WritePart(table);
    var obj := d + ("." + t);
    ObjectUnfolds(k, db, table);
    PartStarts(db, "");
    PartEnds(db);
    PartEnds(table);
    KindStarts(k, obj);
    StripsKind(k, obj);
    ToStarts(t);
    ReadPart(db, "." + t);
    assert t + "" == t;
    NothingLeft();
    ReadPart(table, "");
    assert ("." + t)[1..] == t;
    ObjectRead(WriteObject(k, db, table), obj, k.FunctionKind? || k.ProcedureKind?, PartValue(db), "." + t, PartValue(table));
  }

  lemma NothingLeft()
    ensures NoBacktick("") && SkipSpace("") == "" && EndsWord("")
  {
  }

  lemma ObjectRead(text: string, obj: string, routine: bool, db: string, after: string, table: string)
    requires TrimSpace(text) == text && StripKind(text) == (obj, routine)
    requires ScanObjectPart(obj) == Scanned(db, after) && after != [] && after[0] == '.'
    requires ScanObjectPart(after[1..]) == Scanned(table, "")
    ensures ParseObject(text) == Some(ObjectRef(db, table, routine))
  {
    hide TrimSpace, StripKind, ScanObjectPart;
  }

  lemma GranteeRoundTrip(a: Account, option: bool)
    ensures ParseGrantee(WriteGrantee(a, option)) == Some(option)
  {
    var tail := if option then " WITH GRANT OPTION" else "";
    assert " " + WITH_GRANT_OPTION == " WITH GRANT OPTION";
    assert WriteGrantee(a, option) == Quoted(a) + tail;
    ReadQuotedAccount(a, tail);
    OptionWords();
    hide ParseAccount, Quoted, UpperWords;
  }

  lemma OptionWords()
    ensures UpperWords("") == "" && UpperWords(" WITH GRANT OPTION") == WITH_GRANT_OPTION
  {
    var words := ["WITH", "GRANT", "OPTION"];
    OptionIs(words);
    hide *;
    UpperWordsIs(words);
    UpperWordsBlank(WITH_GRANT_OPTION);
    UpperWordsNothing();
    OptionText();
  }

  lemma OptionText()
    ensures " " + WITH_GRANT_OPTION == " WITH GRANT OPTION"
  {
  }

  lemma OptionIs(words: seq<string>)
    requires words == ["WITH", "GRANT", "OPTION"]
    ensures AllWords(words) && JoinWords(words) == WITH_GRANT_OPTION
  {
    assert words[1..] == ["GRANT", "OPTION"] && words[1..][1..] == ["OPTION"];
    JoinUnfolds(words);
    JoinUnfolds(words[1..]);
    JoinUnfolds(words[1..][1..]);
    hide JoinWords;
  }

  lemma UpperWordsBlank(s: string)
    ensures UpperWords(" " + s) == UpperWords(s)
  {
    hide Fields, Upper, JoinWords;
    FieldsBlank(s);
  }

  lemma UpperWordsNothing()
    ensures UpperWords("") == ""
  {
    FieldsNothing();
    assert JoinWords([]) == "";
    hide Fields;
  }

  lemma UpperWord(s: string)
    requires forall i :: 0 <= i < |s| ==> IsLetter(s[i]) || s[i] == ' '
    ensures Upper(s) == s
  {
  }

  // ---------------------------------------------------------------- privilege names

  lemma {:induction false} WordLengthIs(w: string, tail: string)
    requires (forall i :: 0 <= i < |w| ==> !IsBlank(w[i])) && (tail == [] || IsBlank(tail[0]))
    ensures WordLength(w + tail) == |w|
  {
    if w == [] {
      assert w + tail == tail;
    } else {
      assert (w + tail)[1..] == w[1..] + tail;
      WordLengthIs(w[1..], tail);
    }
  }

  lemma FieldsWord(w: string, tail: string)
    requires IsWord(w) && (tail == [] || IsBlank(tail[0]))
    ensures Fields(w + tail) == [w] + Fields(tail)
  {
    WordIsPlain(w);
    WordLengthIs(w, tail);
    assert (w + tail)[..|w|] == w && (w + tail)[|w|..] == tail;
  }

  lemma FieldsBlank(tail: string)
    ensures Fields(" " + tail) == Fields(tail)
  {
    assert (" " + tail)[1..] == tail;
  }

  lemma {:induction false} FieldsJoin(words: seq<string>, tail: string)
    requires AllWords(words) && tail == ""
    ensures Fields(JoinWords(words) + tail) == words
    decreases |words|
  {
    var w := words[0];
    assert IsWord(w);
    hide Fields, IsWord, JoinWords;
    JoinUnfolds(words);
    FieldsNothing();
    if |words| == 1 {
      assert JoinWords(words) + tail == w + "";
      FieldsWord(w, "");
      assert words == [w] + [];
    } else {
      var rest := JoinWords(words[1..]) + tail;
      assert JoinWords(words) + tail == w + (" " + rest);
      FieldsWord(w, " " + rest);
      FieldsBlank(rest);
      FieldsJoin(words[1..], tail);
      assert words == [w] + words[1..];
    }
  }

  lemma FieldsNothing()
    ensures Fields("") == []
  {
  }

  /** A privilege name: letters with single blanks between words, none at the ends. */
  lemma {:induction false} JoinedLetters(words: seq<string>)
    requires AllWords(words)
    ensures var s := JoinWords(words);
            && s != [] && IsLetter(s[0]) && IsLetter(s[|s| - 1])
            && forall i :: 0 <= i < |s| ==> IsLetter(s[i]) || s[i] == ' '
    decreases |words|
  {
    var w := words[0];
    assert IsWord(w) && IsWord(words[|words| - 1]);
    JoinUnfolds(words);
    if |words| > 1 {
      hide IsLetter, JoinWords;
      JoinedLetters(words[1..]);
    }
  }

  lemma UpperWordsIs(words: seq<string>)
    requires AllWords(words)
    ensures UpperWords(JoinWords(words)) == JoinWords(words)
  {
    hide Fields, Upper, IsLetter, JoinWords, AllWords;
    FieldsJoin(words, "");
    assert JoinWords(words) + "" == JoinWords(words);
    JoinedLetters(words);
    UpperWord(JoinWords(words));
  }

  lemma {:induction false} BeforeParenIs(s: string, tail: string)
    requires forall i :: 0 <= i < |s| ==> s[i] != '('
    ensures BeforeParen(s + ("(" + tail)) == s
  {
    if s == [] {
      assert s + ("(" + tail) == "(" + tail;
    } else {
      assert (s + ("(" + tail))[1..] == s[1..] + ("(" + tail);
      BeforeParenIs(s[1..], tail);
    }
  }

  lemma TrimLead(s: string)
    requires s != [] && !IsBlank(s[0]) && !IsBlank(s[|s| - 1])
    ensures TrimSpace(" " + s) == s && TrimSpace("" + s) == s
  {
    assert (" " + s)[1..] == s && "" + s == s;
    TrimNothing(s);
  }

  lemma TrimEnd(s: string)
    requires s != [] && !IsBlank(s[0]) && !IsBlank(s[|s| - 1])
    ensures TrimSpace(s + " ") == s
  {
    var t := s + " ";
    assert t[0] == s[0] && t[|t| - 1] == ' ' && t[..|t| - 1] == s;
    assert TrimLeft(t) == t;
    assert TrimRight(t) == TrimRight(s);
  }

  lemma LettersAreSolid(s: string)
    requires s != [] && IsLetter(s[0]) && IsLetter(s[|s| - 1]) && forall i :: 0 <= i < |s| ==> IsLetter(s[i]) || s[i] == ' '
    ensures !IsBlank(s[0]) && !IsBlank(s[|s| - 1]) && (forall i :: 0 <= i < |s| ==> s[i] != '(') && '(' !in s
  {
  }

  lemma PlainName(name: string, lead: string)
    requires name != [] && !IsBlank(name[0]) && !IsBlank(name[|name| - 1]) && '(' !in name && (lead == "" || lead == " ")
    ensures PrivilegeName(lead + name) == name
  {
    hide TrimSpace, BeforeParen, IsBlank;
    TrimLead(name);
  }

  lemma NameWithColumns(name: string, inner: string, lead: string)
    requires name != [] && !IsBlank(name[0]) && !IsBlank(name[|name| - 1]) && (forall i :: 0 <= i < |name| ==> name[i] != '(')
    requires lead == "" || lead == " "
    requires inner != [] && inner[|inner| - 1] == ')'
    ensures PrivilegeName(lead + (name + (" " + ("(" + inner)))) == name
  {
    hide TrimSpace, BeforeParen, IsBlank;
    var all := name + (" " + ("(" + inner));
    assert all == (name + " ") + ("(" + inner);
    assert all[0] == name[0] && all[|all| - 1] == ')' && all[|name| + 1] == '(';
    ParenIsSolid();
    TrimLead(all);
    BeforeParenIs(name + " ", inner);
    TrimEnd(name);
  }

  lemma PrivilegeNameIs(p: Privilege, lead: string)
    requires IsPrivilege(p) && (lead == "" || lead == " ")
    ensures PrivilegeName(lead + WritePrivilege(p)) == JoinWords(p.words)
  {
    assert AllWords(p.words);
    hide *;
    var name := JoinWords(p.words);
    PrivilegeUnfolds(p);
    JoinedLetters(p.words);
    LettersAreSolid(name);
    ColumnsUnfold(p.columns, "");
    if p.columns == [] {
      assert WritePrivilege(p) == name;
      PlainName(name, lead);
    } else {
      NameWithColumns(name, QuotedList(p.columns) + ")", lead);
    }
  }

  lemma ParenIsSolid()
    ensures !IsBlank(')')
  {
  }

  // ---------------------------------------------------------------- the privilege list

  lemma {:induction false} SplitPlain(t: string, tail: string, depth: nat, piece: string)
    requires forall i :: 0 <= i < |t| ==> !IsQuote(t[i]) && t[i] != '(' && t[i] != ')' && (t[i] != ',' || depth > 0)
    ensures Split(t + tail, ',', depth, piece) == Split(tail, ',', depth, piece + t)
  {
    hide Split, IsQuote;
    if t == [] {
      assert t + tail == tail && piece + t == piece;
    } else {
      assert (t + tail)[1..] == t[1..] + tail;
      SplitStep(t + tail, ',', depth, piece);
      SplitPlain(t[1..], tail, depth, piece + [t[0]]);
      assert piece + [t[0]] + t[1..] == piece + t;
    }
  }

  lemma {:induction false} SplitOverList(accounts: seq<Account>, tail: string, depth: nat, piece: string)
    requires accounts != [] && NoBacktick(tail) && depth > 0
    ensures Split(QuotedList(accounts) + tail, ',', depth, piece) == Split(tail, ',', depth, piece + QuotedList(accounts))
    decreases |accounts|
  {
    hide *;
    var a := accounts[0];
    ListUnfolds(accounts);
    if |accounts| == 1 {
      assert QuotedList(accounts) == Quoted(a);
      SplitOverAccount(a, tail, depth, piece);
    } else {
      var more := QuotedList(accounts[1..]) + tail;
      assert QuotedList(accounts) + tail == Quoted(a) + (", " + more);
      CommaIsPlain(", " + more);
      SplitOverAccount(a, ", " + more, depth, piece);
      SplitPlain(", ", more, depth, piece + Quoted(a));
      SplitOverList(accounts[1..], tail, depth, piece + Quoted(a) + ", ");
      assert piece + Quoted(a) + ", " + QuotedList(accounts[1..]) == piece + QuotedList(accounts);
    }
  }

  lemma SplitOverName(words: seq<string>, tail: string, piece: string)
    requires AllWords(words)
    ensures Split(JoinWords(words) + tail, ',', 0, piece) == Split(tail, ',', 0, piece + JoinWords(words))
  {
    hide Split, AllWords, JoinWords;
    JoinedLetters(words);
    SplitPlain(JoinWords(words), tail, 0, piece);
  }

  lemma SplitOverColumns(columns: seq<Account>, tail: string, piece: string)
    ensures Split(WriteColumns(columns) + tail, ',', 0, piece) == Split(tail, ',', 0, piece + WriteColumns(columns))
  {
    hide *;
    ColumnsUnfold(columns, tail);
    if columns == [] {
      assert piece + "" == piece;
    } else {
      var list := QuotedList(columns);
      var closing := ")" + tail;
      var open := "(" + (list + closing);
      CommaIsPlain("");
      ParenStarts(tail);
      SplitPlain(" ", open, 0, piece);
      SplitStep(open, ',', 0, piece + " ");
      assert open[1..] == list + closing;
      SplitOverList(columns, closing, 1, piece + " " + "(");
      SplitStep(closing, ',', 1, piece + " " + "(" + list);
      assert closing[1..] == tail;
      Concat4(piece, " ", "(", list, ")");
    }
  }

  lemma SplitOverPrivilege(p: Privilege, tail: string, piece: string)
    requires IsPrivilege(p)
    ensures Split(WritePrivilege(p) + tail, ',', 0, piece) == Split(tail, ',', 0, piece + WritePrivilege(p))
  {
    hide *;
    PrivilegeWords(p);
    PrivilegeUnfolds(p);
    var name, columns := JoinWords(p.words), WriteColumns(p.columns);
    Concat2(name, columns, tail);
    SplitOverName(p.words, columns + tail, piece);
    SplitOverColumns(p.columns, tail, piece + name);
    Concat2(piece, name, columns);
  }

  function Pieces(ps: seq<Privilege>, lead: string): seq<string> {
    if ps == [] then [] else [lead + WritePrivilege(ps[0])] + Pieces(ps[1..], " ")
  }

  lemma {:induction false} SplitPrivileges(ps: seq<Privilege>, lead: string)
    requires AllPrivileges(ps)
    ensures Split(WritePrivileges(ps), ',', 0, lead) == Pieces(ps, lead)
    decreases |ps|
  {
    hide *;
    AllPrivilegesParts(ps);
    PrivilegesUnfold(ps);
    PiecesUnfold(ps, lead);
    var p := WritePrivilege(ps[0]);
    if |ps| == 1 {
      assert WritePrivileges(ps) == p + "";
      SplitOverPrivilege(ps[0], "", lead);
      SplitEnd(',', 0, lead + p);
    } else {
      var more := WritePrivileges(ps[1..]);
      var tail := ", " + more;
      SplitOverPrivilege(ps[0], tail, lead);
      CommaIsPlain(tail);
      SplitStep(tail, ',', 0, lead + p);
      assert tail[1..] == " " + more;
      SplitStep(" " + more, ',', 0, []);
      assert (" " + more)[1..] == more && [] + " " == " ";
      SplitPrivileges(ps[1..], " ");
    }
  }

  lemma PiecesUnfold(ps: seq<Privilege>, lead: string)
    requires ps != []
    ensures Pieces(ps, lead) == [lead + WritePrivilege(ps[0])] + (if |ps| == 1 then [] else Pieces(ps[1..], " "))
  {
    hide WritePrivilege;
  }

  lemma {:induction false} PiecesAre(ps: seq<Privilege>, lead: string, i: nat)
    requires i < |ps|
    ensures |Pieces(ps, lead)| == |ps| && Pieces(ps, lead)[i] == (if i == 0 then lead else " ") + WritePrivilege(ps[i])
  {
    if |ps| > 1 { PiecesAre(ps[1..], " ", if i == 0 then 0 else i - 1); }
  }

  lemma ReadNamesStep(items: seq<string>, before: seq<string>, words: seq<string>)
    requires items != [] && ReadNames(items[..|items| - 1]) == Some(before)
    requires AllWords(words) && PrivilegeName(items[|items| - 1]) == JoinWords(words)
    ensures ReadNames(items) == Some(before + [JoinWords(words)])
  {
    UpperWordsIs(words);
    JoinedLetters(words);
    hide PrivilegeName, UpperWords, JoinWords, AllWords;
  }

  lemma NamesSnoc(ps: seq<Privilege>)
    requires ps != []
    ensures Names(ps) == Names(ps[..|ps| - 1]) + [JoinWords(ps[|ps| - 1].words)]
  {
    hide JoinWords;
  }

  lemma {:induction false} ReadNamesIs(items: seq<string>, ps: seq<Privilege>)
    requires |items| == |ps| && forall i :: 0 <= i < |ps| ==> IsPrivilege(ps[i]) && PrivilegeName(items[i]) == JoinWords(ps[i].words)
    ensures ReadNames(items) == Some(Names(ps))
  {
    if items == [] {
      assert Names(ps) == [];
    } else {
      hide PrivilegeName, JoinWords, IsPrivilege, Names, ReadNames;
      var n := |items| - 1;
      ReadNamesIs(items[..n], ps[..n]);
      PrivilegeWords(ps[n]);
      ReadNamesStep(items, Names(ps[..n]), ps[n].words);
      NamesSnoc(ps);
    }
  }

  lemma PrivilegesRoundTrip(ps: seq<Privilege>)
    requires AllPrivileges(ps)
    ensures ParsePrivileges(WritePrivileges(ps)) == Some(Names(ps))
  {
    SplitPrivileges(ps, []);
    var items := Pieces(ps, []);
    hide Split, PrivilegeName, IsPrivilege, WritePrivilege, WritePrivileges, Pieces;
    PiecesAre(ps, [], 0);
    forall i | 0 <= i < |ps| ensures PrivilegeName(items[i]) == JoinWords(ps[i].words) {
      PiecesAre(ps, [], i);
      assert IsPrivilege(ps[i]);
      PrivilegeNameIs(ps[i], if i == 0 then "" else " ");
    }
    hide JoinWords, Names, ReadNames;
    assert ReadNames(items) == Some(Names(ps)) by { ReadNamesIs(items, ps); }
  }

  // ---------------------------------------------------------------- whole rows

  lemma GranteeEnds(a: Account, option: bool)
    ensures var s := WriteGrantee(a, option); s != [] && !IsBlank(s[|s| - 1]) && s[|s| - 1] != ';'
  {
  }

  /** The prefix and the trimming find the body of a row. */
  lemma BodyOf(body: string)
    requires body != [] && !IsBlank(body[|body| - 1]) && body[|body| - 1] != ';'
    ensures var line := GRANT + body;
            TrimSpace(TrimSuffix(TrimSpace(line), ';')) == line && HasPrefix(line, GRANT) && line[6..] == body
  {
    var line := GRANT + body;
    assert line[|line| - 1] == body[|body| - 1];
    TrimNothing(line);
    assert line[..6] == GRANT && Upper(GRANT) == GRANT;
  }

  lemma PrivilegeGrantIs(list: string, rest: string, privs: seq<string>, text: string, tail: string, obj: ObjectRef, option: bool)
    requires ParsePrivileges(list) == Some(privs) && Cut(rest, TO, []) == Some((text, tail))
    requires ParseObject(text) == Some(obj) && ParseGrantee(tail) == Some(option)
    ensures ParsePrivilegeGrant(list, rest) == Some(GrantLine([], privs, obj, option))
  {
    hide ParsePrivileges, Cut, ParseObject, ParseGrantee;
  }

  lemma RoleGrantIs(body: string, list: string, roles: seq<Account>, tail: string)
    requires Cut(body, TO, []) == Some((list, tail))
    requires ParseAccountList(list) == Some(roles) && ParseGrantee(tail).Some?
    ensures ParseRoleGrant(body) == Some(GrantLine(roles, [], ObjectRef("", "", false), false))
  {
    hide Cut, ParseAccountList, ParseGrantee;
  }

  lemma ToInMembership(roles: seq<Account>, tail: string)
    requires roles != []
    ensures Cut(QuotedList(roles) + (TO + tail), TO, []) == Some((QuotedList(roles), tail))
  {
    hide *;
    ToStarts(tail);
    OnIsSearched();
    CutOverList(roles, TO + tail, TO, []);
    assert [] + QuotedList(roles) == QuotedList(roles);
    CutFound(tail, TO, QuotedList(roles));
  }

  /** No ON is found in a membership row, whatever the names contain. */
  lemma NoOnInMembership(roles: seq<Account>, a: Account)
    requires roles != []
    ensures Cut(QuotedList(roles) + (TO + WriteGrantee(a, false)), ON, []).None?
  {
    hide *;
    var list, tail := QuotedList(roles), WriteGrantee(a, false);
    ToStarts(tail);
    OnIsSearched();
    CutOverList(roles, TO + tail, ON, []);
    CutOverTo(a, [] + list);
  }

  lemma NoOnHere(text: string)
    requires text != [] && text[0] == '`'
    ensures !HasPrefix(" " + text, ON) && !HasPrefix(" " + ("TO" + (" " + text)), ON)
  {
    assert text[..1] == ['`'] && Upper(['`'])[0] == '`';
    NotSearched(text, ON);
    var after := "TO" + (" " + text);
    assert after[..1] == ['T'] && Upper(['T'])[0] == 'T';
    NotSearched(after, ON);
  }

  lemma ToText(text: string)
    ensures TO + text == " " + ("TO" + (" " + text))
    ensures forall i :: 0 <= i < |"TO"| ==> !IsQuote("TO"[i]) && "TO"[i] != ' '
  {
  }

  lemma PlainGrantee(a: Account)
    ensures WriteGrantee(a, false) == Quoted(a) && Quoted(a) + "" == Quoted(a)
  {
    hide Quoted;
  }

  lemma CutOverTo(a: Account, before: string)
    ensures Cut(TO + WriteGrantee(a, false), ON, before).None?
  {
    hide *;
    var text := Quoted(a);
    QuotedStarts(a);
    PlainGrantee(a);
    NothingLeft();
    OnIsSearched();
    NoOnHere(text);
    ToText(text);
    CutBlank("TO" + (" " + text), ON, before);
    CutPlain("TO", " " + text, ON, before + " ");
    CutBlank(text, ON, before + " " + "TO");
    CutOverAccount(a, "", ON, before + " " + "TO" + " ");
    CutNothing(before + " " + "TO" + " " + text);
  }

  lemma CutNothing(before: string)
    ensures Cut("", ON, before).None?
  {
  }

  lemma OnInPrivileges(ps: seq<Privilege>, rest: string)
    requires AllPrivileges(ps)
    ensures Cut(WritePrivileges(ps) + (ON + rest), ON, []) == Some((WritePrivileges(ps), rest))
  {
    hide *;
    ToStarts(rest);
    OnIsSearched();
    CutOverPrivileges(ps, ON + rest, []);
    assert [] + WritePrivileges(ps) == WritePrivileges(ps);
    CutFound(rest, ON, WritePrivileges(ps));
  }

  lemma BodyEnds(r: Row)
    ensures var s := WriteBody(r); s != [] && !IsBlank(s[|s| - 1]) && s[|s| - 1] != ';'
  {
    var option := if r.Privileges? then r.option else false;
    GranteeEnds(r.grantee, option);
    hide WriteGrantee, IsBlank, WritePrivileges, WriteObject, QuotedList;
    var s, g := WriteBody(r), WriteGrantee(r.grantee, option);
    assert s[|s| - 1] == g[|g| - 1];
  }

  lemma GrantUnfolds(line: string, body: string)
    requires TrimSpace(TrimSuffix(TrimSpace(line), ';')) == line && HasPrefix(line, GRANT) && |line| >= 6 && line[6..] == body
    ensures ParseGrant(line) ==
            var on := Cut(body, ON, []);
            if on.None? then ParseRoleGrant(body) else ParsePrivilegeGrant(on.value.0, on.value.1)
  {
    hide TrimSpace, TrimSuffix, HasPrefix, Cut, ParseRoleGrant, ParsePrivilegeGrant;
  }

  /** Reading a row the server writes gives exactly the privileges, the object, the grant option
      or the roles it was written for, even when names contain blanks, commas, quotes,
      parentheses or the words ON and TO. */
  lemma RowRoundTrip(r: Row)
    requires IsRow(r)
    ensures ParseGrant(Write(r)) == Some(Meaning(r))
  {
    BodyEnds(r);
    BodyOf(WriteBody(r));
    GrantUnfolds(GRANT + WriteBody(r), WriteBody(r));
    match r
    case Privileges(privs, kind, db, table, grantee, option) =>
      assert AllPrivileges(privs);
      hide *;
      var tail := WriteGrantee(grantee, option);
      var rest := WriteObject(kind, db, table) + (TO + tail);
      OnInPrivileges(privs, rest);
      PrivilegesRoundTrip(privs);
      CutOverObject(kind, db, table, tail);
      ObjectRoundTrip(kind, db, table);
      GranteeRoundTrip(grantee, option);
      RowParts(r);
      PrivilegeGrantIs(WritePrivileges(privs), rest, Names(privs), WriteObject(kind, db, table), tail, Meaning(r).obj, option);
    case Membership(roles, grantee) =>
      hide *;
      var tail := WriteGrantee(grantee, false);
      NoOnInMembership(roles, grantee);
      ToInMembership(roles, tail);
      AccountListRoundTrip(roles);
      GranteeRoundTrip(grantee, false);
      RowParts(r);
      RoleGrantIs(QuotedList(roles) + (TO + tail), QuotedList(roles), roles, tail);
  }

  lemma RowParts(r: Row)
    ensures Write(r) == GRANT + WriteBody(r)
    ensures r.Privileges? ==> WriteBody(r) == WritePrivileges(r.privs) + (ON + (WriteObject(r.kind, r.db, r.table) + (TO + WriteGrantee(r.grantee, r.option))))
    ensures r.Membership? ==> WriteBody(r) == QuotedList(r.roles) + (TO + WriteGrantee(r.grantee, false))
    ensures r.Privileges? ==> Meaning(r) == GrantLine([], Names(r.privs), ObjectRef(PartValue(r.db), PartValue(r.table), r.kind.FunctionKind? || r.kind.ProcedureKind?), r.option)
    ensures r.Membership? ==> Meaning(r) == GrantLine(r.roles, [], ObjectRef("", "", false), false)
  {
    hide WritePrivileges, WriteObject, WriteGrantee, QuotedList, Names;
  }

  // ---------------------------------------------------------------- whole answers

  function WriteAll(rows: seq<Row>): seq<string> {
    if rows == [] then [] else WriteAll(rows[..|rows| - 1]) + [Write(rows[|rows| - 1])]
  }

  function Meanings(rows: seq<Row>): seq<GrantLine> {
    if rows == [] then [] else Meanings(rows[..|rows| - 1]) + [Meaning(rows[|rows| - 1])]
  }

  function Reader(): LineParser {
    line => ParseGrant(line)
  }

  lemma LinesSnoc(lines: seq<string>, before: seq<GrantLine>, line: string, g: GrantLine)
    requires ParseLines(Reader(), lines) == Some(before) && ParseGrant(line) == Some(g)
    ensures ParseLines(Reader(), lines + [line]) == Some(before + [g])
  {
    hide ParseGrant;
    assert (lines + [line])[..|lines|] == lines;
  }

  lemma {:induction false} LinesRoundTrip(rows: seq<Row>)
    requires forall i :: 0 <= i < |rows| ==> IsRow(rows[i])
    ensures |WriteAll(rows)| == |rows| && ParseLines(Reader(), WriteAll(rows)) == Some(Meanings(rows))
  {
    hide IsRow, Write, Meaning, ParseGrant, ParseLines, Reader;
    if rows == [] {
      NoLines();
    } else {
      var n := |rows| - 1;
      LinesRoundTrip(rows[..n]);
      RowRoundTrip(rows[n]);
      LinesSnoc(WriteAll(rows[..n]), Meanings(rows[..n]), Write(rows[n]), Meaning(rows[n]));
    }
  }

  lemma NoLines()
    ensures ParseLines(Reader(), []) == Some([])
  {
  }

  lemma {:induction false} MeaningsHas(rows: seq<Row>, i: nat)
    requires i < |rows|
    ensures Meaning(rows[i]) in Meanings(rows)
  {
    hide Meaning;
    if i < |rows| - 1 { MeaningsHas(rows[..|rows| - 1], i); }
  }

  lemma GrantsListed(rows: seq<Row>, g: GrantLine)
    requires exists i :: 0 <= i < |rows| && Meaning(rows[i]) == g
    ensures g in Meanings(rows)
  {
    hide Meaning;
    var i :| 0 <= i < |rows| && Meaning(rows[i]) == g;
    MeaningsHas(rows, i);
  }

  lemma MembersListed(rows: seq<Row>, m: Account)
    requires exists i :: 0 <= i < |rows| && m in Meaning(rows[i]).roles
    ensures m in RolesOf(Meanings(rows))
  {
    hide Meaning, RolesOf, Meanings;
    var i :| 0 <= i < |rows| && m in Meaning(rows[i]).roles;
    MeaningsHas(rows, i);
    var k :| 0 <= k < |Meanings(rows)| && Meanings(rows)[k] == Meaning(rows[i]);
    RolesOfMembers(Meanings(rows), m);
  }

  lemma AnswerRead(rows: seq<Row>)
    requires 1 <= |rows| <= MAX_GRANT_LINES && forall i :: 0 <= i < |rows| ==> IsRow(rows[i])
    ensures ParseGrants(Reader(), WriteAll(rows)) == Some(Meanings(rows))
  {
    hide IsRow, ParseLines, Reader;
    LinesRoundTrip(rows);
  }

  /** An answer of one to 256 written rows is read in full: it lists for the verification
      whatever its rows grant, so a server that sends every direct grant and membership of the
      roles it is asked about is one the safety theorem applies to. */
  lemma WrittenAnswersList(w: World, using: seq<Account>, rows: seq<Row>)
    requires 1 <= |rows| <= MAX_GRANT_LINES && forall i :: 0 <= i < |rows| ==> IsRow(rows[i])
    requires forall r, g :: r in using && g in w.direct(r) ==> exists i :: 0 <= i < |rows| && Meaning(rows[i]) == g
    requires forall r, m :: r in using && m in w.members(r) ==> exists i :: 0 <= i < |rows| && m in Meaning(rows[i]).roles
    ensures ParseGrants(Reader(), WriteAll(rows)) == Some(Meanings(rows))
    ensures ListsRoles(Reader(), w, using, WriteAll(rows))
  {
    hide IsRow, ParseGrants, Reader, Meaning, RolesOf, Meanings;
    AnswerRead(rows);
    forall r, g | r in using && g in w.direct(r) ensures g in Meanings(rows) {
      GrantsListed(rows, g);
    }
    forall r, m | r in using && m in w.members(r) ensures m in RolesOf(Meanings(rows)) {
      MembersListed(rows, m);
    }
  }

  // ---------------------------------------------------------------- the index loops

  /** indexTopLevel: the position of `sub` outside quotes, or -1. */
  method IndexTopLevel(s: string, sub: string) returns (index: int)
    requires sub != [] && !IsQuote(sub[0])
    ensures -1 <= index < |s|
    ensures index < 0 ==> Cut(s, sub, []).None?
    ensures index >= 0 ==> index + |sub| <= |s| && Cut(s, sub, []) == Some((s[..index], s[index + |sub|..]))
  {
    hide ScanQuoted, Cut, HasPrefix;
    var i := 0;
    assert s[0..] == s && s[..0] == [];
    while i < |s|
      invariant 0 <= i <= |s| && Cut(s[i..], sub, s[..i]) == Cut(s, sub, [])
      decreases |s| - i
    {
      assert s[i..][0] == s[i] && s[i..][1..] == s[i + 1..];
      if IsQuote(s[i]) {
        CutQuoted(s[i..], sub, s[..i]);
        var _, next, closed := ScanQuotedAt(s, i);
        if !closed { return -1; }
        assert s[..i] + s[i..][..next - i] == s[..next];
        i := next;
      } else {
        assert s[i..] == [s[i]] + s[i + 1..];
        CutStep(s[i], s[i + 1..], sub, s[..i]);
        if HasPrefix(s[i..], sub) {
          PrefixFits(s[i..], sub);
          assert s[i..][|sub|..] == s[i + |sub|..];
          return i;
        }
        assert s[..i] + [s[i]] == s[..i + 1];
        i := i + 1;
      }
    }
    assert s[i..] == "";
    CutEmpty(sub, s[..i]);
    return -1;
  }

  lemma PrefixFits(s: string, sub: string)
    requires HasPrefix(s, sub)
    ensures |sub| <= |s|
  {
  }

  lemma CutEmpty(sub: string, before: string)
    ensures Cut("", sub, before).None?
  {
  }

  method ParsePrivilegesLoop(list: string) returns (names: seq<string>, ok: bool)
    ensures ok <==> ParsePrivileges(list).Some?
    ensures ok ==> names == ParsePrivileges(list).value && names != []
  {
    hide Split, PrivilegeName, UpperWords;
    names := [];
    var items := SplitTopLevel(list, ',');
    for k := 0 to |items|
      invariant ReadNames(items[..k]) == Some(names) && |names| == k
    {
      assert items[..k + 1][..k] == items[..k];
      var name := PrivilegeName(items[k]);
      if name == "" {
        NamesFail(items, k + 1);
        return [], false;
      }
      names := names + [UpperWords(name)];
    }
    assert items[..|items|] == items;
    return names, true;
  }

  lemma {:induction false} NamesFail(items: seq<string>, k: nat)
    requires k <= |items| && ReadNames(items[..k]).None?
    ensures ReadNames(items).None?
    decreases |items|
  {
    if k == |items| {
      assert items[..k] == items;
    } else {
      var front := items[..|items| - 1];
      assert front[..k] == items[..k];
      NamesFail(front, k);
    }
  }

  method ParseGrantRow(line: string) returns (grant: Option<GrantLine>)
    ensures grant == ParseGrant(line)
  {
    hide Cut, ParsePrivileges, ParseObject, ParseGrantee, ParseAccountList, TrimSpace, HasPrefix;
    var body := TrimSpace(TrimSuffix(TrimSpace(line), ';'));
    if !HasPrefix(body, GRANT) { return None; }
    PrefixFits(body, GRANT);
    body := body[6..];
    var on := IndexTopLevel(body, ON);
    if on < 0 {
      var to := IndexTopLevel(body, TO);
      if to < 0 { return None; }
      var roles, listed := ParseAccountListLoop(body[..to]);
      if !listed || ParseGrantee(body[to + 4..]).None? { return None; }
      return Some(GrantLine(roles, [], ObjectRef("", "", false), false));
    }
    var privs, named := ParsePrivilegesLoop(body[..on]);
    if !named { return None; }
    var rest := body[on + 4..];
    var to := IndexTopLevel(rest, TO);
    if to < 0 { return None; }
    var obj := ParseObject(rest[..to]);
    var option := ParseGrantee(rest[to + 4..]);
    if obj.None? || option.None? { return None; }
    return Some(GrantLine([], privs, obj.value, option.value));
  }
}
