/** That reading a row of SHOW GRANTS passes nothing over (queryplan/grants.go,
    queryplan/identifier.go): a row that is read is made of the pieces its meaning was read from,
    and names in any of the three quotes, or bare, are read as they were written.
 */
module GrantReading {
  import opened Wrappers
  import opened Identifiers
  import opened Grants
  import opened GrantLines

  // ---------------------------------------------------------------- names

  /** The text inside quotes: the quote is doubled, and a backslash is escaped where it escapes. */
  function Escaped(s: string, quote: char): string {
    if s == [] then []
    else (if s[0] == quote then [quote, quote] else if s[0] == '\\' && quote != '`' then "\\\\" else [s[0]]) + Escaped(s[1..], quote)
  }

  lemma {:induction false} ScanEscaped(s: string, quote: char, tail: string, acc: string)
    requires IsQuote(quote) && (tail == [] || tail[0] != quote)
    ensures ScanQuoted(Escaped(s, quote) + [quote] + tail, quote, acc) == Scanned(acc + s, tail)
    decreases |s|
  {
    hide *;
    var text := Escaped(s, quote) + [quote] + tail;
    if s == [] {
      ScanClosed(quote, tail, acc);
      assert acc + s == acc;
      EscapedNothing(quote);
      assert text == [quote] + tail;
    } else {
      var more := Escaped(s[1..], quote) + [quote] + tail;
      ScanEscaped(s[1..], quote, tail, acc + [s[0]]);
      assert acc + [s[0]] + s[1..] == acc + s;
      EscapedFirst(s, quote, more, acc);
      EscapedCons(s, quote);
      assert text == Escaped([s[0]], quote) + more;
    }
  }

  lemma EscapedNothing(quote: char)
    ensures Escaped([], quote) == []
  {
  }

  lemma ScanClosed(quote: char, tail: string, acc: string)
    requires IsQuote(quote) && (tail == [] || tail[0] != quote)
    ensures ScanQuoted([quote] + tail, quote, acc) == Scanned(acc, tail)
  {
    assert ([quote] + tail)[1..] == tail;
  }

  lemma EscapedCons(s: string, quote: char)
    requires s != []
    ensures Escaped(s, quote) == Escaped([s[0]], quote) + Escaped(s[1..], quote)
  {
    assert [s[0]][1..] == [];
    assert Escaped([], quote) == [];
  }

  lemma EscapedFirst(s: string, quote: char, more: string, acc: string)
    requires s != [] && IsQuote(quote)
    ensures ScanQuoted(Escaped([s[0]], quote) + more, quote, acc) == ScanQuoted(more, quote, acc + [s[0]])
  {
    var c := s[0];
    assert [c][1..] == [] && Escaped([], quote) == [];
    if c == quote {
      assert Escaped([c], quote) == [quote, quote];
      assert ([quote, quote] + more)[2..] == more;
    } else if c == '\\' && quote != '`' {
      assert Escaped([c], quote) == ['\\', '\\'];
      assert (['\\', '\\'] + more)[2..] == more;
    } else {
      assert Escaped([c], quote) == [c];
      assert ([c] + more)[1..] == more;
    }
  }

  lemma QuoteStarts(t: string)
    requires t != [] && IsQuote(t[0])
    ensures ScanIdent(t) == ScanQuoted(t[1..], t[0], [])
  {
    SkipNothing(t);
    hide ScanQuoted, ScanBare, SkipSpace;
  }

  /** A name in backticks, single or double quotes is read as it was written. */
  lemma QuotedRoundTrip(name: string, quote: char, tail: string)
    requires quote in {'`', '\'', '"'} && (tail == [] || tail[0] != quote)
    ensures ScanIdent([quote] + Escaped(name, quote) + [quote] + tail) == Scanned(name, tail)
  {
    var text := [quote] + Escaped(name, quote) + [quote] + tail;
    assert text[0] == quote && text[1..] == Escaped(name, quote) + [quote] + tail;
    ScanEscaped(name, quote, tail, []);
    assert [] + name == name;
    hide ScanQuoted, Escaped, ScanIdent;
    QuoteStarts(text);
  }

  /** Between single or double quotes a backslash makes the next character stand for itself. */
  lemma EscapeRead(c: char, rest: string, quote: char, acc: string)
    requires quote in {'\'', '"'}
    ensures ScanQuoted(['\\', c] + rest, quote, acc) == ScanQuoted(rest, quote, acc + [c])
  {
    assert (['\\', c] + rest)[2..] == rest;
  }

  /** A character that can stand in a bare name. */
  predicate IsBare(c: char) {
    c !in {' ', '\t', '\r', '\n', '.', ',', '@', '(', ')', '`', '\'', '"', ';'}
  }

  /** A bare name ends at the first character that cannot stand in one. */
  lemma {:induction false} BareEnds(name: string, tail: string)
    requires (forall i :: 0 <= i < |name| ==> IsBare(name[i])) && (tail == [] || !IsBare(tail[0]))
    ensures BareLength(name + tail) == |name|
  {
    if name == [] {
      assert name + tail == tail;
    } else {
      assert (name + tail)[1..] == name[1..] + tail;
      BareEnds(name[1..], tail);
    }
  }

  lemma BareRoundTrip(name: string, tail: string)
    requires name != [] && (forall i :: 0 <= i < |name| ==> IsBare(name[i])) && (tail == [] || !IsBare(tail[0]))
    ensures ScanIdent(name + tail) == Scanned(name, tail)
  {
    BareEnds(name, tail);
    assert IsBare(name[0]);
    assert (name + tail)[0] == name[0] && (name + tail)[..|name|] == name && (name + tail)[|name|..] == tail;
    SkipNothing(name + tail);
    hide BareLength, ScanQuoted;
  }

  // ---------------------------------------------------------------- words

  predicate NoBlank(w: string) {
    w != [] && forall i :: 0 <= i < |w| ==> !IsBlank(w[i])
  }

  ghost predicate AllNoBlank(words: seq<string>) {
    forall i :: 0 <= i < |words| ==> NoBlank(words[i])
  }

  lemma {:induction false} WordHasNoBlank(s: string)
    ensures forall i :: 0 <= i < WordLength(s) ==> !IsBlank(s[i])
    ensures s != [] && !IsBlank(s[0]) ==> WordLength(s) > 0
  {
    if s != [] && !IsBlank(s[0]) { WordHasNoBlank(s[1..]); }
  }

  lemma {:induction false} FieldsAreWords(s: string)
    ensures AllNoBlank(Fields(s))
    ensures Fields(s) == [] <==> forall i :: 0 <= i < |s| ==> IsBlank(s[i])
    decreases |s|
  {
    if s != [] {
      if IsBlank(s[0]) {
        FieldsAreWords(s[1..]);
        assert forall i :: 0 < i < |s| ==> s[i] == s[1..][i - 1];
      } else {
        WordHasNoBlank(s);
        FieldsAreWords(s[WordLength(s)..]);
        hide IsBlank;
      }
    }
  }

  lemma UpperConcat(a: string, b: string)
    ensures Upper(a + b) == Upper(a) + Upper(b)
  {
  }

  lemma JoinedStarts(words: seq<string>)
    requires words != [] && AllNoBlank(words)
    ensures JoinWords(words) == words[0] + if |words| == 1 then "" else " " + JoinWords(words[1..])
    ensures |words| > 1 ==> AllNoBlank(words[1..]) && words[1..] != []
    ensures NoBlank(words[0]) && JoinWords(words) != ""
  {
  }

  /** The first words of equal texts are equal, and so are the rests. */
  lemma FirstWord(u: string, p: string, v: string, q: string)
    requires NoBlank(u) && NoBlank(v) && (p == [] || p[0] == ' ') && (q == [] || q[0] == ' ')
    requires Upper(u + p) == v + q
    ensures Upper(u) == v && Upper(p) == q
  {
    UpperConcat(u, p);
    EndsTogether(u, p, v, q);
    assert |u| == |v|;
    var t := v + q;
    assert t[..|u|] == v && t[|u|..] == q && (Upper(u) + Upper(p))[..|u|] == Upper(u) && (Upper(u) + Upper(p))[|u|..] == Upper(p);
  }

  lemma EndsTogether(u: string, p: string, v: string, q: string)
    requires (p == [] || p[0] == ' ') && (q == [] || q[0] == ' ') && Upper(u + p) == v + q
    ensures |u| < |v| ==> v[|u|] == ' '
    ensures |v| < |u| ==> u[|v|] == ' '
  {
    assert |u + p| == |v + q|;
    assert |u| < |v| ==> Upper(u + p)[|u|] == ' ' && (v + q)[|u|] == v[|u|];
    assert |v| < |u| ==> (v + q)[|v|] == ' ' && (u + p)[|v|] == u[|v|];
  }

  lemma {:induction false} SameWords(us: seq<string>, vs: seq<string>)
    requires AllNoBlank(us) && AllNoBlank(vs) && vs != [] && Upper(JoinWords(us)) == JoinWords(vs)
    ensures |us| == |vs| && forall i :: 0 <= i < |us| ==> Upper(us[i]) == vs[i]
    decreases |us|
  {
    JoinedStarts(vs);
    assert us != [];
    JoinedStarts(us);
    var p := if |us| == 1 then "" else " " + JoinWords(us[1..]);
    var q := if |vs| == 1 then "" else " " + JoinWords(vs[1..]);
    hide JoinWords, Upper, NoBlank;
    FirstWord(us[0], p, vs[0], q);
    if |us| > 1 && |vs| > 1 {
      UpperConcat(" ", JoinWords(us[1..]));
      UpperBlank();
      assert q[1..] == JoinWords(vs[1..]) && Upper(p)[1..] == Upper(JoinWords(us[1..]));
      SameWords(us[1..], vs[1..]);
      assert forall i :: 0 < i < |us| ==> us[i] == us[1..][i - 1] && vs[i] == vs[1..][i - 1];
    }
  }

  lemma UpperBlank()
    ensures Upper(" ") == " "
  {
  }

  /** The text says WITH GRANT OPTION, in any letter case and with any blanks. */
  ghost predicate SaysOption(s: string) {
    var ws := Fields(s);
    |ws| == 3 && Upper(ws[0]) == "WITH" && Upper(ws[1]) == "GRANT" && Upper(ws[2]) == "OPTION"
  }

  lemma OptionIff(s: string)
    ensures UpperWords(s) == "" <==> forall i :: 0 <= i < |s| ==> IsBlank(s[i])
    ensures UpperWords(s) == WITH_GRANT_OPTION <==> SaysOption(s)
  {
    var ws := Fields(s);
    var option := ["WITH", "GRANT", "OPTION"];
    FieldsAreWords(s);
    assert JoinWords(option) == WITH_GRANT_OPTION by { OptionIs(option); }
    assert AllNoBlank(option);
    if ws != [] { JoinedStarts(ws); }
    hide Fields, IsBlank, NoBlank;
    if Upper(JoinWords(ws)) == WITH_GRANT_OPTION { SameWords(ws, option); }
    if SaysOption(s) { ThreeWords(ws); }
  }

  lemma ThreeWords(ws: seq<string>)
    requires |ws| == 3 && Upper(ws[0]) == "WITH" && Upper(ws[1]) == "GRANT" && Upper(ws[2]) == "OPTION"
    ensures Upper(JoinWords(ws)) == WITH_GRANT_OPTION
  {
    assert ws[1..][1..] == [ws[2]] && ws[1..][0] == ws[1];
    assert JoinWords(ws[1..]) == ws[1] + " " + ws[2];
    assert JoinWords(ws) == ws[0] + " " + (ws[1] + " " + ws[2]);
    UpperConcat(ws[0] + " ", ws[1] + " " + ws[2]);
    UpperConcat(ws[0], " ");
    UpperConcat(ws[1] + " ", ws[2]);
    UpperConcat(ws[1], " ");
    UpperBlank();
    hide Upper, JoinWords;
  }

  // ---------------------------------------------------------------- the parts of a row

  /** A grantee is an account with nothing after it, or with the grant option; anything else makes
      the row unreadable. */
  lemma GranteeIff(s: string)
    ensures var r := ParseAccount(s);
            && (ParseGrantee(s) == Some(false) <==> r.Read? && forall i :: 0 <= i < |r.rest| ==> IsBlank(r.rest[i]))
            && (ParseGrantee(s) == Some(true) <==> r.Read? && SaysOption(r.rest))
  {
    var r := ParseAccount(s);
    if r.Read? { OptionIff(r.rest); }
    hide ParseAccount, UpperWords, IsBlank, SaysOption;
    assert WITH_GRANT_OPTION != "";
  }

  /** The search finds the word it looks for, and what is before and after it. */
  lemma {:induction false} CutRejoins(s: string, sub: string, before: string) returns (word: string)
    requires Cut(s, sub, before).Some?
    ensures before + s == Cut(s, sub, before).value.0 + word + Cut(s, sub, before).value.1
    ensures |word| == |sub| && Upper(word) == sub
    decreases |s|
  {
    CutSome(s, sub, before);
    hide *;
    if IsQuote(s[0]) {
      CutQuoted(s, sub, before);
      var r := ScanQuoted(s[1..], s[0], []);
      QuotedSuffix(s);
      word := CutRejoins(r.rest, sub, before + s[..|s| - |r.rest|]);
      assert before + s[..|s| - |r.rest|] + r.rest == before + s;
    } else if HasPrefix(s, sub) {
      word := s[..|sub|];
      PrefixIs(s, sub);
      assert before + s == before + word + s[|sub|..];
    } else {
      word := CutRejoins(s[1..], sub, before + [s[0]]);
      assert before + [s[0]] + s[1..] == before + s;
    }
  }

  lemma CutSome(s: string, sub: string, before: string)
    ensures Cut(s, sub, before).Some? ==> s != []
    ensures s != [] && !IsQuote(s[0]) && HasPrefix(s, sub) ==> |sub| <= |s| && Cut(s, sub, before) == Some((before, s[|sub|..]))
    ensures s != [] && !IsQuote(s[0]) && !HasPrefix(s, sub) ==> Cut(s, sub, before) == Cut(s[1..], sub, before + [s[0]])
  {
    hide ScanQuoted, Upper;
  }

  lemma PrefixIs(s: string, sub: string)
    requires HasPrefix(s, sub)
    ensures |sub| <= |s| && Upper(s[..|sub|]) == sub
  {
  }

  lemma QuotedSuffix(s: string)
    requires s != [] && ScanQuoted(s[1..], s[0], []).Scanned?
    ensures var r := ScanQuoted(s[1..], s[0], []).rest; |r| < |s| && r == s[|s| - |r|..]
  {
    ScanLeavesSuffix(s[1..], s[0], []);
    hide ScanQuoted;
    var r := ScanQuoted(s[1..], s[0], []).rest;
    assert s[1..][|s[1..]| - |r|..] == s[|s| - |r|..];
  }

  lemma CutParts(s: string, sub: string) returns (word: string)
    requires Cut(s, sub, []).Some?
    ensures s == Cut(s, sub, []).value.0 + word + Cut(s, sub, []).value.1 && Upper(word) == sub
  {
    hide *;
    word := CutRejoins(s, sub, []);
    assert [] + s == s;
  }

  /** Each piece of the list is one privilege, named by the words before its columns. */
  lemma {:induction false} NamesAre(items: seq<string>)
    ensures ReadNames(items).Some? <==> forall i :: 0 <= i < |items| ==> PrivilegeName(items[i]) != ""
    ensures ReadNames(items).Some? ==>
              |ReadNames(items).value| == |items| && forall i :: 0 <= i < |items| ==> ReadNames(items).value[i] == UpperWords(PrivilegeName(items[i]))
  {
    hide PrivilegeName, UpperWords;
    if items != [] {
      var front := items[..|items| - 1];
      NamesAre(front);
      assert forall i :: 0 <= i < |front| ==> front[i] == items[i];
    }
  }

  /** No privilege of the list is passed over. */
  lemma PrivilegesAre(list: string)
    ensures var items := Split(list, ',', 0, []);
            && Joined(items, ',') == list
            && (ParsePrivileges(list).Some? <==> forall i :: 0 <= i < |items| ==> PrivilegeName(items[i]) != "")
            && (ParsePrivileges(list).Some? ==>
                 |ParsePrivileges(list).value| == |items| &&
                 forall i :: 0 <= i < |items| ==> ParsePrivileges(list).value[i] == UpperWords(PrivilegeName(items[i])))
  {
    SplitJoins(list, ',', 0, []);
    NamesAre(Split(list, ',', 0, []));
    assert [] + list == list;
    hide Split, ReadNames, PrivilegeName, UpperWords;
  }

  lemma {:induction false} BlankAfter(s: string)
    ensures SkipSpace(s) == [] <==> forall i :: 0 <= i < |s| ==> IsSpace(s[i])
  {
    if s != [] {
      var rest := s[1..];
      if IsSpace(s[0]) { BlankAfter(rest); }
      assert s == [s[0]] + rest;
      SkipFirst(s);
      hide IsSpace, SkipSpace;
    }
  }

  lemma SkipFirst(s: string)
    requires s != []
    ensures SkipSpace(s) == if IsSpace(s[0]) then SkipSpace(s[1..]) else s
  {
    hide IsSpace;
  }

  /** An object is its kind, two parts with a dot between them, and nothing else. */
  lemma ObjectIsWhole(text: string, obj: ObjectRef)
    requires ParseObject(text) == Some(obj)
    ensures var s := TrimSpace(text);
            var bare := if HasPrefix(s, "TABLE ") then TrimSpace(s[6..])
                        else if HasPrefix(s, "FUNCTION ") then TrimSpace(s[9..])
                        else if HasPrefix(s, "PROCEDURE ") then TrimSpace(s[10..]) else s;
            var db := ScanObjectPart(bare);
            && (obj.routine <==> HasPrefix(s, "FUNCTION ") || HasPrefix(s, "PROCEDURE "))
            && db.Scanned? && db.value == obj.db && db.rest != [] && db.rest[0] == '.'
            && var table := ScanObjectPart(db.rest[1..]);
               && table.Scanned? && table.value == obj.table
               && forall i :: 0 <= i < |table.rest| ==> IsSpace(table.rest[i])
  {
    var s := TrimSpace(text);
    KindsApart(s);
    var db := ScanObjectPart(StripKind(s).0);
    BlankAfter(ScanObjectPart(db.rest[1..]).rest);
    hide ScanObjectPart, TrimSpace, HasPrefix, SkipSpace, IsSpace;
  }

  lemma KindsApart(s: string)
    ensures HasPrefix(s, "TABLE ") ==> !HasPrefix(s, "FUNCTION ") && !HasPrefix(s, "PROCEDURE ")
  {
    if HasPrefix(s, "TABLE ") {
      assert Upper(s[..6])[0] == 'T';
      assert |s| >= 9 ==> Upper(s[..9])[0] == 'T';
      assert |s| >= 10 ==> Upper(s[..10])[0] == 'T';
    }
  }

  // ---------------------------------------------------------------- the row

  /** The row without surrounding blanks and a closing semicolon. */
  function Bare(line: string): string {
    TrimSpace(TrimSuffix(TrimSpace(line), ';'))
  }

  lemma {:induction false} ListIsNotEmpty(s: string, out: seq<Account>)
    ensures ParseList(s, out).Some? ==> ParseList(s, out).value != []
    decreases |s|
  {
    hide *;
    if s == [] {
      ListEnds(out);
    } else {
      var r := ParseAccount(s);
      if r.NoAccount? {
        ListFails(s, out);
      } else {
        ParseListStep(s, out, r.account, r.rest);
        var rest := SkipSpace(r.rest);
        if rest != [] && rest[0] == ',' {
          ShorterRest(rest[1..]);
          ListIsNotEmpty(SkipSpace(rest[1..]), out + [r.account]);
        }
      }
    }
  }

  lemma ShorterRest(s: string)
    ensures |SkipSpace(s)| <= |s|
  {
  }

  lemma ListEnds(out: seq<Account>)
    ensures ParseList([], out) == if out == [] then None else Some(out)
  {
  }

  lemma ListFails(s: string, out: seq<Account>)
    requires s != [] && ParseAccount(s).NoAccount?
    ensures ParseList(s, out).None?
  {
    hide ParseAccount;
  }

  lemma RolesAreSome(s: string)
    ensures ParseAccountList(s).Some? ==> ParseAccountList(s).value != []
  {
    ListIsNotEmpty(SkipSpace(s), []);
    hide ParseList, SkipSpace;
  }

  /** A row that is read is GRANT, the list of privileges, ON, the object, TO and the grantee, or
      GRANT, the list of roles, TO and the grantee, with nothing before, between or after them; and
      each part of its meaning is read from its own piece. */
  lemma RowIsWhole(line: string, g: GrantLine) returns (list: string, on: string, target: string, to: string, grantee: string)
    requires ParseGrant(line) == Some(g)
    ensures |Bare(line)| >= 6 && Upper(Bare(line)[..6]) == "GRANT " && Upper(to) == " TO "
    ensures g.roles == [] ==>
              && Bare(line)[6..] == list + on + target + to + grantee && Upper(on) == " ON "
              && ParsePrivileges(list) == Some(g.privs) && ParseObject(target) == Some(g.obj) && ParseGrantee(grantee) == Some(g.grantOption)
    ensures g.roles != [] ==>
              && Bare(line)[6..] == list + to + grantee
              && ParseAccountList(list) == Some(g.roles) && g.privs == [] && ParseGrantee(grantee).Some?
  {
    ReadsBody(line);
    hide *;
    var body := Bare(line)[6..];
    if Cut(body, ON, []).None? {
      list, to, grantee := MembershipIsWhole(body, g);
      on, target := "", "";
    } else {
      var o := Cut(body, ON, []).value;
      on := CutParts(body, ON);
      list := o.0;
      target, to, grantee := PrivilegesAreWhole(list, o.1, g);
      Words();
      FiveParts(list, on, target, to, grantee);
    }
  }

  lemma FiveParts(a: string, b: string, c: string, d: string, e: string)
    ensures a + b + (c + d + e) == a + b + c + d + e
  {
  }

  lemma Words()
    ensures ON == " ON " && TO == " TO " && GRANT == "GRANT "
  {
  }

  lemma ReadsBody(line: string)
    requires ParseGrant(line).Some?
    ensures |Bare(line)| >= 6 && Upper(Bare(line)[..6]) == "GRANT "
    ensures var on := Cut(Bare(line)[6..], ON, []);
            ParseGrant(line) == if on.None? then ParseRoleGrant(Bare(line)[6..]) else ParsePrivilegeGrant(on.value.0, on.value.1)
  {
    hide Cut, ParseRoleGrant, ParsePrivilegeGrant, TrimSpace, TrimSuffix, Upper;
  }

  lemma MembershipIsWhole(body: string, g: GrantLine) returns (list: string, to: string, grantee: string)
    requires ParseRoleGrant(body) == Some(g)
    ensures Upper(to) == " TO " && body == list + to + grantee
    ensures ParseAccountList(list) == Some(g.roles) && g.roles != [] && g.privs == [] && ParseGrantee(grantee).Some?
  {
    hide Cut, ParseGrantee, ParseAccountList, Upper;
    to := CutParts(body, TO);
    list, grantee := Cut(body, TO, []).value.0, Cut(body, TO, []).value.1;
    RolesAreSome(list);
  }

  lemma PrivilegesAreWhole(list: string, rest: string, g: GrantLine) returns (target: string, to: string, grantee: string)
    requires ParsePrivilegeGrant(list, rest) == Some(g)
    ensures Upper(to) == " TO " && rest == target + to + grantee && g.roles == []
    ensures ParsePrivileges(list) == Some(g.privs) && ParseObject(target) == Some(g.obj) && ParseGrantee(grantee) == Some(g.grantOption)
  {
    hide Cut, ParsePrivileges, ParseObject, ParseGrantee, Upper;
    to := CutParts(rest, TO);
    target, grantee := Cut(rest, TO, []).value.0, Cut(rest, TO, []).value.1;
  }

  /** A row that does not say GRANT, such as a partial revoke, is not read. */
  lemma OtherRowsAreUnread(line: string)
    requires |Bare(line)| < 6 || Upper(Bare(line)[..6]) != "GRANT "
    ensures ParseGrant(line).None?
  {
    hide Cut, ParsePrivileges, ParseObject, ParseGrantee, ParseAccountList, TrimSpace, TrimSuffix;
  }
}
