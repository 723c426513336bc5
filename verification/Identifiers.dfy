/** MySQL identifiers and account lists (queryplan/identifier.go, queryplan/sql.go).

    The specification functions read from the front of a string and return what is left; the
    methods are the source's index loops, proved to agree with them.  A character stands for a
    byte.
 */
module Identifiers {
  import opened Wrappers

  datatype Account = Account(name: string, host: string)

  datatype Scan = Scanned(value: string, rest: string) | Unreadable

  // ---------------------------------------------------------------- writing

  /** Doubles every backtick. */
  function Doubled(s: string): string {
    if s == [] then [] else (if s[0] == '`' then "``" else [s[0]]) + Doubled(s[1..])
  }

  function QuoteIdent(s: string): string {
    "`" + Doubled(s) + "`"
  }

  function Quoted(a: Account): string {
    if a.host == "" then QuoteIdent(a.name) else QuoteIdent(a.name) + "@" + QuoteIdent(a.host)
  }

  /** The USING list of grantsUsing: quoted accounts joined with ", ". */
  function QuotedList(accounts: seq<Account>): string {
    if accounts == [] then ""
    else if |accounts| == 1 then Quoted(accounts[0])
    else Quoted(accounts[0]) + ", " + QuotedList(accounts[1..])
  }

  // ---------------------------------------------------------------- reading

  predicate IsSpace(c: char) {
    c == ' ' || c == '\t' || c == '\r' || c == '\n'
  }

  function SkipSpace(s: string): (r: string)
    ensures |r| <= |s| && s[|s| - |r|..] == r
    ensures r != [] ==> !IsSpace(r[0])
  {
    if s == [] || !IsSpace(s[0]) then s else SkipSpace(s[1..])
  }

  predicate IsQuote(c: char) {
    c == '`' || c == '\'' || c == '"'
  }

  /** The part of a quoted identifier after its opening quote; `acc` was read before it. */
  function ScanQuoted(s: string, quote: char, acc: string): (r: Scan)
    ensures r.Scanned? ==> |r.rest| < |s|
    decreases |s|
  {
    if s == [] then Unreadable
    else if s[0] == '\\' && quote != '`' && |s| > 1 then ScanQuoted(s[2..], quote, acc + [s[1]])
    else if s[0] == quote && |s| > 1 && s[1] == quote then ScanQuoted(s[2..], quote, acc + [quote])
    else if s[0] == quote then Scanned(acc, s[1..])
    else ScanQuoted(s[1..], quote, acc + [s[0]])
  }

  predicate IsStop(c: char) {
    c in {' ', '\t', '\r', '\n', '.', ',', '@', '(', ')', '`', '\'', '"', ';'}
  }

  function BareLength(s: string): (n: nat)
    ensures n <= |s|
    ensures forall i :: 0 <= i < n ==> !IsStop(s[i])
    ensures n < |s| ==> IsStop(s[n])
  {
    if s == [] || IsStop(s[0]) then 0 else 1 + BareLength(s[1..])
  }

  function ScanBare(s: string): (r: Scan)
    ensures r.Scanned? ==> |r.rest| < |s|
  {
    var n := BareLength(s);
    if n == 0 then Unreadable else Scanned(s[..n], s[n..])
  }

  function ScanIdent(s: string): (r: Scan)
    ensures r.Scanned? ==> |r.rest| < |s|
  {
    var t := SkipSpace(s);
    if t == [] then Unreadable
    else if IsQuote(t[0]) then ScanQuoted(t[1..], t[0], [])
    else ScanBare(t)
  }

  datatype AccountScan = Read(account: Account, rest: string) | NoAccount

  function ParseAccount(s: string): (r: AccountScan)
    ensures r.Read? ==> |r.rest| < |s|
  {
    var name := ScanIdent(s);
    if name.Unreadable? then NoAccount
    else if name.rest == [] || name.rest[0] != '@' then Read(Account(name.value, ""), name.rest)
    else
      var host := ScanIdent(name.rest[1..]);
      if host.Unreadable? then NoAccount else Read(Account(name.value, host.value), host.rest)
  }

  /** The loop of parseAccountList, entered with leading space already skipped. */
  function ParseList(s: string, out: seq<Account>): Option<seq<Account>>
    decreases |s|
  {
    if s == [] then (if out == [] then None else Some(out))
    else
      var r := ParseAccount(s);
      if r.NoAccount? then None
      else
        var rest := SkipSpace(r.rest);
        if rest == [] then Some(out + [r.account])
        else if rest[0] != ',' then None
        else ParseList(SkipSpace(rest[1..]), out + [r.account])
  }

  function ParseAccountList(s: string): Option<seq<Account>> {
    ParseList(SkipSpace(s), [])
  }

  // ---------------------------------------------------------------- round trip

  /** Text that cannot be taken for the second half of a doubled quote. */
  predicate NoBacktick(s: string) {
    s == [] || s[0] != '`'
  }

  lemma {:induction false} ScanDoubled(s: string, tail: string, acc: string)
    requires NoBacktick(tail)
    ensures ScanQuoted(Doubled(s) + "`" + tail, '`', acc) == Scanned(acc + s, tail)
    decreases |s|
  {
    var text := Doubled(s) + "`" + tail;
    if s == [] {
      assert text == "`" + tail && text[1..] == tail;
      assert acc + s == acc;
    } else {
      var more := Doubled(s[1..]) + "`" + tail;
      ScanDoubled(s[1..], tail, acc + [s[0]]);
      assert acc + [s[0]] + s[1..] == acc + s;
      if s[0] == '`' {
        assert text == "``" + more && text[2..] == more;
      } else {
        assert text == [s[0]] + more && text[1..] == more;
      }
    }
  }

  lemma ScanQuotedIdent(s: string, tail: string)
    requires NoBacktick(tail)
    ensures ScanIdent(QuoteIdent(s) + tail) == Scanned(s, tail)
  {
    var text := QuoteIdent(s) + tail;
    assert text == "`" + (Doubled(s) + "`" + tail);
    assert text[0] == '`' && text[1..] == Doubled(s) + "`" + tail;
    ScanDoubled(s, tail, []);
    assert [] + s == s;
  }

  lemma ReadNameOnly(s: string, name: string, tail: string)
    requires ScanIdent(s) == Scanned(name, tail) && (tail == [] || tail[0] != '@')
    ensures ParseAccount(s) == Read(Account(name, ""), tail)
  {
    hide ScanIdent;
  }

  lemma ReadNameAndHost(s: string, name: string, after: string, host: string, tail: string)
    requires ScanIdent(s) == Scanned(name, after) && after != [] && after[0] == '@'
    requires ScanIdent(after[1..]) == Scanned(host, tail)
    ensures ParseAccount(s) == Read(Account(name, host), tail)
  {
    hide ScanIdent;
  }

  lemma ReadQuotedAccount(a: Account, tail: string)
    requires NoBacktick(tail) && (tail == [] || tail[0] != '@')
    ensures ParseAccount(Quoted(a) + tail) == Read(a, tail)
  {
    hide ScanIdent, QuoteIdent, ParseAccount;
    if a.host == "" {
      ScanQuotedIdent(a.name, tail);
      ReadNameOnly(Quoted(a) + tail, a.name, tail);
    } else {
      var name, host := QuoteIdent(a.name), QuoteIdent(a.host);
      var after := "@" + (host + tail);
      assert Quoted(a) + tail == name + after;
      ScanQuotedIdent(a.name, after);
      assert after[1..] == host + tail;
      ScanQuotedIdent(a.host, tail);
      ReadNameAndHost(Quoted(a) + tail, a.name, after, a.host, tail);
    }
  }

  lemma QuotedStarts(a: Account)
    ensures Quoted(a) != [] && Quoted(a)[0] == '`'
  {
  }

  /** One turn of the list loop. */
  lemma ParseListStep(s: string, out: seq<Account>, a: Account, rest: string)
    requires s != [] && ParseAccount(s) == Read(a, rest)
    ensures var r := SkipSpace(rest);
            |r| < |s| &&
            ParseList(s, out) ==
              if r == [] then Some(out + [a])
              else if r[0] != ',' then None
              else ParseList(SkipSpace(r[1..]), out + [a])
  {
    hide ParseAccount, SkipSpace;
  }

  lemma ListUnfolds(accounts: seq<Account>)
    requires accounts != []
    ensures QuotedList(accounts) ==
              Quoted(accounts[0]) + if |accounts| == 1 then [] else ", " + QuotedList(accounts[1..])
  {
    hide Quoted;
  }

  lemma {:induction false} ListRoundTrip(accounts: seq<Account>, out: seq<Account>)
    requires accounts != []
    ensures ParseList(QuotedList(accounts), out) == Some(out + accounts)
    ensures QuotedList(accounts) != [] && QuotedList(accounts)[0] == '`'
    decreases |accounts|
  {
    hide *;
    var a := accounts[0];
    QuotedStarts(a);
    ListUnfolds(accounts);
    if |accounts| == 1 {
      TailIsClean([]);
      ReadQuotedAccount(a, []);
      SkipNothing([]);
      ParseListStep(QuotedList(accounts), out, a, []);
      assert accounts == [a];
    } else {
      var more := QuotedList(accounts[1..]);
      var tail := ", " + more;
      TailIsClean(tail);
      ReadQuotedAccount(a, tail);
      SkipNothing(tail);
      ParseListStep(QuotedList(accounts), out, a, tail);
      ListRoundTrip(accounts[1..], out + [a]);
      TailIsClean(more);
      SkipOne(more);
      assert tail[1..] == " " + more;
      assert out + [a] + accounts[1..] == out + accounts;
    }
  }

  lemma TailIsClean(s: string)
    ensures s == [] || s[0] != '`' ==> NoBacktick(s)
    ensures s != [] && (s[0] == ',' || s[0] == '`') ==> !IsSpace(s[0])
  {
  }

  lemma SkipNothing(s: string)
    requires s == [] || !IsSpace(s[0])
    ensures SkipSpace(s) == s
  {
  }

  lemma SkipOne(s: string)
    requires s == [] || !IsSpace(s[0])
    ensures SkipSpace(" " + s) == s
  {
    assert (" " + s)[1..] == s;
  }

  /** Quoting role names into a USING list and reading the list back gives the same accounts,
      whatever characters names and hosts contain. */
  lemma AccountListRoundTrip(accounts: seq<Account>)
    requires accounts != []
    ensures ParseAccountList(QuotedList(accounts)) == Some(accounts)
  {
    ListRoundTrip(accounts, []);
    SkipNothing(QuotedList(accounts));
    assert [] + accounts == accounts;
  }

  // ---------------------------------------------------------------- top-level splitting

  /** Splits at separators outside quotes and parentheses; `piece` is the piece being read. */
  function Split(s: string, sep: char, depth: nat, piece: string): (out: seq<string>)
    ensures out != []
    decreases |s|
  {
    if s == [] then [piece]
    else if IsQuote(s[0]) then
      var r := ScanQuoted(s[1..], s[0], []);
      if r.Unreadable? then [piece + s]
      else Split(r.rest, sep, depth, piece + s[..|s| - |r.rest|])
    else if s[0] == '(' then Split(s[1..], sep, depth + 1, piece + [s[0]])
    else if s[0] == ')' then Split(s[1..], sep, if depth > 0 then depth - 1 else 0, piece + [s[0]])
    else if s[0] == sep && depth == 0 then [piece] + Split(s[1..], sep, 0, [])
    else Split(s[1..], sep, depth, piece + [s[0]])
  }

  function Joined(pieces: seq<string>, sep: char): string {
    if pieces == [] then ""
    else if |pieces| == 1 then pieces[0]
    else pieces[0] + [sep] + Joined(pieces[1..], sep)
  }

  /** What a quoted scan leaves is the end of what it was given. */
  lemma {:induction false} ScanLeavesSuffix(s: string, quote: char, acc: string)
    requires ScanQuoted(s, quote, acc).Scanned?
    ensures var r := ScanQuoted(s, quote, acc).rest; |r| <= |s| && s[|s| - |r|..] == r
    decreases |s|
  {
    if s[0] == '\\' && quote != '`' && |s| > 1 {
      ScanLeavesSuffix(s[2..], quote, acc + [s[1]]);
    } else if s[0] == quote && |s| > 1 && s[1] == quote {
      ScanLeavesSuffix(s[2..], quote, acc + [quote]);
    } else if s[0] != quote {
      ScanLeavesSuffix(s[1..], quote, acc + [s[0]]);
    }
  }

  /** One character of the split outside quotes. */
  lemma SplitStep(s: string, sep: char, depth: nat, piece: string)
    requires s != [] && !IsQuote(s[0])
    ensures Split(s, sep, depth, piece) ==
            if s[0] == '(' then Split(s[1..], sep, depth + 1, piece + [s[0]])
            else if s[0] == ')' then Split(s[1..], sep, if depth > 0 then depth - 1 else 0, piece + [s[0]])
            else if s[0] == sep && depth == 0 then [piece] + Split(s[1..], sep, 0, [])
            else Split(s[1..], sep, depth, piece + [s[0]])
  {
  }

  lemma SplitQuoted(s: string, sep: char, depth: nat, piece: string)
    requires s != [] && IsQuote(s[0])
    ensures var r := ScanQuoted(s[1..], s[0], []);
            Split(s, sep, depth, piece) ==
              if r.Unreadable? then [piece + s] else Split(r.rest, sep, depth, piece + s[..|s| - |r.rest|])
  {
    hide ScanQuoted;
  }

  lemma SplitEnd(sep: char, depth: nat, piece: string)
    ensures Split([], sep, depth, piece) == [piece]
  {
  }

  lemma JoinedOne(piece: string, sep: char)
    ensures Joined([piece], sep) == piece
  {
  }

  lemma JoinedCons(piece: string, more: seq<string>, sep: char)
    requires more != []
    ensures Joined([piece] + more, sep) == piece + [sep] + Joined(more, sep)
  {
    assert ([piece] + more)[1..] == more;
  }

  /** Rejoining the pieces with the separator restores the text. */
  lemma {:induction false} SplitJoins(s: string, sep: char, depth: nat, piece: string)
    ensures Joined(Split(s, sep, depth, piece), sep) == piece + s
    decreases |s|
  {
    hide *;
    if s == [] {
      SplitEnd(sep, depth, piece);
      JoinedOne(piece, sep);
      assert piece + s == piece;
    } else if IsQuote(s[0]) {
      SplitQuoted(s, sep, depth, piece);
      JoinedOne(piece + s, sep);
      var r := ScanQuoted(s[1..], s[0], []);
      if r.Scanned? {
        ScanLeavesSuffix(s[1..], s[0], []);
        var head := s[..|s| - |r.rest|];
        assert s == head + r.rest;
        SplitJoins(r.rest, sep, depth, piece + head);
        assert piece + head + r.rest == piece + s;
      }
    } else {
      SplitStep(s, sep, depth, piece);
      assert piece + [s[0]] + s[1..] == piece + s;
      if s[0] == '(' {
        SplitJoins(s[1..], sep, depth + 1, piece + [s[0]]);
      } else if s[0] == ')' {
        SplitJoins(s[1..], sep, if depth > 0 then depth - 1 else 0, piece + [s[0]]);
      } else if s[0] == sep && depth == 0 {
        SplitJoins(s[1..], sep, 0, []);
        JoinedCons(piece, Split(s[1..], sep, 0, []), sep);
        assert [] + s[1..] == s[1..];
      } else {
        SplitJoins(s[1..], sep, depth, piece + [s[0]]);
      }
    }
  }

  /** Whatever a quoted identifier contains, the split passes over it. */
  lemma SplitOverIdent(name: string, tail: string, sep: char, depth: nat, piece: string)
    requires NoBacktick(tail)
    ensures Split(QuoteIdent(name) + tail, sep, depth, piece) == Split(tail, sep, depth, piece + QuoteIdent(name))
  {
    var text := QuoteIdent(name) + tail;
    assert text == "`" + (Doubled(name) + "`" + tail);
    assert text[0] == '`' && text[1..] == Doubled(name) + "`" + tail;
    ScanDoubled(name, tail, []);
    assert text[..|text| - |tail|] == QuoteIdent(name);
    hide ScanQuoted, Split, QuoteIdent;
    SplitQuoted(text, sep, depth, piece);
  }

  lemma SplitOverAccount(a: Account, tail: string, depth: nat, piece: string)
    requires NoBacktick(tail)
    ensures Split(Quoted(a) + tail, ',', depth, piece) == Split(tail, ',', depth, piece + Quoted(a))
  {
    hide Split, QuoteIdent, IsQuote;
    var name, host := QuoteIdent(a.name), QuoteIdent(a.host);
    if a.host == "" {
      SplitOverIdent(a.name, tail, ',', depth, piece);
    } else {
      var after := "@" + (host + tail);
      assert Quoted(a) + tail == name + after;
      SplitOverIdent(a.name, after, ',', depth, piece);
      AtIsNoQuote();
      SplitStep(after, ',', depth, piece + name);
      assert after[1..] == host + tail;
      SplitOverIdent(a.host, tail, ',', depth, piece + name + "@");
      assert piece + name + "@" + host == piece + Quoted(a);
    }
  }

  lemma AtIsNoQuote()
    ensures !IsQuote('@') && !IsQuote(',') && !IsQuote(' ')
  {
  }

  /** The pieces of a quoted account list: one per account, each after the first led by a space. */
  function AccountPieces(accounts: seq<Account>, lead: string): seq<string> {
    if accounts == [] then [] else [lead + Quoted(accounts[0])] + AccountPieces(accounts[1..], " ")
  }

  /** Splitting a quoted account list at its commas yields exactly its accounts, even when names
      and hosts contain commas, quotes, parentheses or backslashes. */
  lemma {:induction false} SplitAccountList(accounts: seq<Account>, lead: string)
    requires accounts != []
    ensures Split(QuotedList(accounts), ',', 0, lead) == AccountPieces(accounts, lead)
    decreases |accounts|
  {
    hide Split, Quoted, IsQuote;
    var a := accounts[0];
    ListUnfolds(accounts);
    if |accounts| == 1 {
      SplitOverAccount(a, [], 0, lead);
      SplitEnd(',', 0, lead + Quoted(a));
    } else {
      var more := QuotedList(accounts[1..]);
      var tail := ", " + more;
      SplitOverAccount(a, tail, 0, lead);
      AtIsNoQuote();
      SplitStep(tail, ',', 0, lead + Quoted(a));
      assert tail[1..] == " " + more;
      SplitStep(" " + more, ',', 0, []);
      assert (" " + more)[1..] == more && [] + " " == " ";
      SplitAccountList(accounts[1..], " ");
    }
  }

  // ---------------------------------------------------------------- the index loops

  /** The scan of the text from `i`, as an index loop reports it. */
  predicate Reports(s: string, r: Scan, value: string, next: nat, ok: bool) {
    if r.Scanned? then ok && value == r.value && next <= |s| && s[next..] == r.rest else !ok
  }

  method ScanQuotedAt(s: string, i: nat) returns (value: string, next: nat, ok: bool)
    requires i < |s|
    ensures Reports(s, ScanQuoted(s[i + 1..], s[i], []), value, next, ok)
    ensures ok ==> i < next <= |s|
  {
    var quote := s[i];
    var b := [];
    var j := i + 1;
    while j < |s|
      invariant i + 1 <= j <= |s|
      invariant ScanQuoted(s[j..], quote, b) == ScanQuoted(s[i + 1..], quote, [])
    {
      assert s[j..][1..] == s[j + 1..];
      if j + 1 < |s| { assert s[j..][2..] == s[j + 2..] && s[j..][1] == s[j + 1]; }
      if s[j] == '\\' && quote != '`' && j + 1 < |s| {
        b := b + [s[j + 1]];
        j := j + 2;
      } else if s[j] == quote && j + 1 < |s| && s[j + 1] == quote {
        b := b + [quote];
        j := j + 2;
      } else if s[j] == quote {
        return b, j + 1, true;
      } else {
        b := b + [s[j]];
        j := j + 1;
      }
    }
    assert s[j..] == [];
    return "", i, false;
  }

  method SkipSpaceAt(s: string, i: nat) returns (next: nat)
    requires i <= |s|
    ensures i <= next <= |s| && s[next..] == SkipSpace(s[i..])
  {
    next := i;
    while next < |s| && IsSpace(s[next])
      invariant i <= next <= |s| && SkipSpace(s[next..]) == SkipSpace(s[i..])
    {
      assert s[next..][1..] == s[next + 1..];
      next := next + 1;
    }
  }

  method ScanBareAt(s: string, i: nat) returns (value: string, next: nat, ok: bool)
    requires i < |s|
    ensures Reports(s, ScanBare(s[i..]), value, next, ok) && (ok ==> i < next <= |s|)
  {
    var j := i;
    while j < |s| && !IsStop(s[j])
      invariant i <= j <= |s| && BareLength(s[i..]) == (j - i) + BareLength(s[j..])
    {
      assert s[j..][1..] == s[j + 1..];
      j := j + 1;
    }
    if j == i { return "", i, false; }
    assert s[i..][..j - i] == s[i..j] && s[i..][j - i..] == s[j..];
    return s[i..j], j, true;
  }

  method ScanIdentAt(s: string, i: nat) returns (value: string, next: nat, ok: bool)
    requires i <= |s|
    ensures Reports(s, ScanIdent(s[i..]), value, next, ok) && (ok ==> i < next <= |s|)
  {
    var at := SkipSpaceAt(s, i);
    if at >= |s| { return "", at, false; }
    assert s[at..][0] == s[at] && s[at..][1..] == s[at + 1..];
    if IsQuote(s[at]) {
      value, next, ok := ScanQuotedAt(s, at);
    } else {
      value, next, ok := ScanBareAt(s, at);
    }
  }

  method ParseAccountAt(s: string, i: nat) returns (account: Account, next: nat, ok: bool)
    requires i <= |s|
    ensures var r := ParseAccount(s[i..]);
            if r.Read? then ok && account == r.account && i < next <= |s| && s[next..] == r.rest else !ok
  {
    hide ScanIdent;
    var name, at, found := ScanIdentAt(s, i);
    if !found { return Account("", ""), i, false; }
    if at >= |s| || s[at] != '@' { return Account(name, ""), at, true; }
    assert s[at..][1..] == s[at + 1..];
    var host, end, hosted := ScanIdentAt(s, at + 1);
    if !hosted { return Account("", ""), at, false; }
    return Account(name, host), end, true;
  }

  datatype Turn = Failed | Ended | Continues

  /** One turn of the list loop: reads an account and the separator after it. */
  method ListTurn(s: string, i: nat, ghost out: seq<Account>) returns (account: Account, next: nat, turn: Turn)
    requires i < |s|
    ensures turn == Failed ==> ParseList(s[i..], out).None?
    ensures turn == Ended ==> ParseList(s[i..], out) == Some(out + [account])
    ensures turn == Continues ==> i < next <= |s| && ParseList(s[i..], out) == ParseList(s[next..], out + [account])
  {
    hide *;
    var at, found;
    account, at, found := ParseAccountAt(s, i);
    if !found {
      NoAccountEnds(s[i..], out);
      return account, i, Failed;
    }
    ParseListStep(s[i..], out, account, s[at..]);
    var sep := SkipSpaceAt(s, at);
    if sep >= |s| { return account, sep, Ended; }
    if s[sep] != ',' { return account, sep, Failed; }
    assert s[sep..][1..] == s[sep + 1..];
    next := SkipSpaceAt(s, sep + 1);
    turn := Continues;
  }

  method ParseAccountListLoop(s: string) returns (out: seq<Account>, ok: bool)
    ensures if ParseAccountList(s).Some? then ok && out == ParseAccountList(s).value else !ok
  {
    hide *;
    out := [];
    assert s[0..] == s;
    var i := SkipSpaceAt(s, 0);
    ListStarts(s);
    while i < |s|
      invariant i <= |s| && ParseList(s[i..], out) == ParseAccountList(s)
      decreases |s| - i
    {
      var account, next, turn := ListTurn(s, i, out);
      if turn == Failed { return [], false; }
      out := out + [account];
      if turn == Ended { return out, true; }
      i := next;
    }
    assert s[i..] == [];
    EmptyEnds(out);
    return out, |out| > 0;
  }

  lemma ListStarts(s: string)
    ensures ParseAccountList(s) == ParseList(SkipSpace(s), [])
  {
  }

  lemma NoAccountEnds(s: string, out: seq<Account>)
    requires s != [] && ParseAccount(s).NoAccount?
    ensures ParseList(s, out).None?
  {
  }

  lemma EmptyEnds(out: seq<Account>)
    ensures ParseList([], out) == if out == [] then None else Some(out)
  {
  }

  /** One turn of the split loop: skips a quoted part or handles one character. */
  method SplitTurn(s: string, sep: char, i: nat, start: nat, depth: nat) returns (i': nat, start': nat, depth': nat, ok: bool)
    requires start <= i < |s|
    ensures !ok ==> Split(s[i..], sep, depth, s[start..i]) == [s[start..]]
    ensures ok ==> start <= start' <= i' <= |s| && i < i' && (start' == start || start' == i + 1)
    ensures ok ==> Split(s[i..], sep, depth, s[start..i]) ==
                   (if start' == start then [] else [s[start..i]]) + Split(s[i'..], sep, depth', s[start'..i'])
  {
    hide ScanQuoted, Split, IsQuote;
    var c := s[i];
    i', start', depth', ok := i + 1, start, depth, true;
    assert s[i..][0] == c && s[i..][1..] == s[i + 1..];
    if IsQuote(c) {
      SplitQuoted(s[i..], sep, depth, s[start..i]);
      var _, next, closed := ScanQuotedAt(s, i);
      if closed {
        assert s[start..i] + s[i..][..next - i] == s[start..next];
        i' := next;
      } else {
        assert s[start..i] + s[i..] == s[start..];
        ok := false;
      }
    } else {
      SplitStep(s[i..], sep, depth, s[start..i]);
      assert s[start..i] + [c] == s[start..i + 1];
      if c == '(' {
        depth' := depth + 1;
      } else if c == ')' {
        if depth > 0 { depth' := depth - 1; }
      } else if c == sep && depth == 0 {
        start' := i + 1;
        assert s[start'..i'] == [];
      }
    }
  }

  method SplitTopLevel(s: string, sep: char) returns (out: seq<string>)
    ensures out == Split(s, sep, 0, [])
    ensures Joined(out, sep) == s
  {
    hide *;
    out := [];
    var depth: nat, start, i := 0, 0, 0;
    ghost var whole := Split(s, sep, 0, []);
    assert s[0..] == s && [] + whole == whole && s[0..0] == [];
    SplitJoins(s, sep, 0, []);
    assert [] + s == s;
    while i < |s|
      invariant 0 <= start <= i <= |s|
      invariant out + Split(s[i..], sep, depth, s[start..i]) == whole
      decreases |s| - i
    {
      var i', start', depth', ok := SplitTurn(s, sep, i, start, depth);
      if !ok { return out + [s[start..]]; }
      Regroup(out, s[start..i], Split(s[i'..], sep, depth', s[start'..i']));
      if start' != start {
        out := out + [s[start..i]];
      }
      i, start, depth := i', start', depth';
    }
    assert s[i..] == [] && s[start..i] == s[start..];
    SplitEnd(sep, depth, s[start..]);
    return out + [s[start..]];
  }

  lemma Regroup(a: seq<string>, x: string, b: seq<string>)
    ensures a + ([x] + b) == a + [x] + b && a + ([] + b) == a + b
  {
  }
}
