/** Display order of counted items (flowviz/graph.go): larger counts first, ties by name.  The
    order is total, so sorting a map's entries does not depend on the order they came in.
 */
module Ranking {

  /** A node is an item with an empty second name; an edge has both. */
  datatype Item = Item(count: int, a: string, b: string)

  predicate Less(a: string, b: string) {
    b != [] && (a == [] || a[0] < b[0] || (a[0] == b[0] && Less(a[1..], b[1..])))
  }

  lemma {:induction false} LessTrichotomy(a: string, b: string)
    ensures a == b || Less(a, b) || Less(b, a)
    ensures !(Less(a, b) && Less(b, a)) && (a == b ==> !Less(a, b))
  {
    if a != [] && b != [] && a[0] == b[0] {
      LessTrichotomy(a[1..], b[1..]);
      assert a == [a[0]] + a[1..] && b == [b[0]] + b[1..];
    }
  }

  lemma {:induction false} LessTransitive(a: string, b: string, c: string)
    requires Less(a, b) && Less(b, c)
    ensures Less(a, c)
  {
    if a != [] && a[0] == b[0] == c[0] {
      LessTransitive(a[1..], b[1..], c[1..]);
    }
  }

  predicate Before(x: Item, y: Item) {
    if x.count != y.count then x.count > y.count
    else if x.a != y.a then Less(x.a, y.a)
    else Less(x.b, y.b)
  }

  lemma BeforeTrichotomy(x: Item, y: Item)
    ensures x == y || Before(x, y) || Before(y, x)
    ensures !(Before(x, y) && Before(y, x)) && (x == y ==> !Before(x, y))
  {
    LessTrichotomy(x.a, y.a);
    LessTrichotomy(x.b, y.b);
  }

  lemma BeforeTransitive(x: Item, y: Item, z: Item)
    requires Before(x, y) && Before(y, z)
    ensures Before(x, z)
  {
    LessTrichotomy(x.a, y.a);
    LessTrichotomy(y.a, z.a);
    LessTrichotomy(x.a, z.a);
    if x.a != y.a && y.a != z.a && x.count == y.count == z.count { LessTransitive(x.a, y.a, z.a); }
    if x.a == y.a == z.a && x.count == y.count == z.count { LessTransitive(x.b, y.b, z.b); }
  }

  ghost predicate Sorted(s: seq<Item>) {
    forall i, j :: 0 <= i < j < |s| ==> Before(s[i], s[j])
  }

  function Elements(s: seq<Item>): set<Item> {
    set i | 0 <= i < |s| :: s[i]
  }

  ghost predicate IsFirst(x: Item, items: set<Item>) {
    x in items && forall y :: y in items && y != x ==> Before(x, y)
  }

  lemma {:induction false} FirstExists(items: set<Item>) returns (x: Item)
    requires items != {}
    ensures IsFirst(x, items)
  {
    var y :| y in items;
    var rest := items - {y};
    if rest == {} {
      assert forall z :: z in items ==> z == y || z in rest;
      return y;
    }
    x := FirstExists(rest);
    BeforeTrichotomy(x, y);
    if Before(y, x) {
      forall z | z in items && z != y ensures Before(y, z) {
        if z != x { BeforeTransitive(y, x, z); }
      }
      x := y;
    }
  }

  lemma FirstOf(items: set<Item>)
    requires items != {}
    ensures exists x :: IsFirst(x, items)
  {
    var x := FirstExists(items);
  }

  ghost function First(items: set<Item>): (x: Item)
    requires items != {}
    ensures IsFirst(x, items)
  {
    FirstOf(items);
    var x :| IsFirst(x, items);
    x
  }

  /** The items in display order. */
  ghost function InOrder(items: set<Item>): seq<Item> {
    if items == {} then [] else [First(items)] + InOrder(items - {First(items)})
  }

  lemma ElementsCons(x: Item, s: seq<Item>)
    ensures Elements([x] + s) == {x} + Elements(s)
  {
    var t := [x] + s;
    forall y | y in {x} + Elements(s) ensures y in Elements(t) {
      if y == x {
        assert t[0] == y;
      } else {
        var i :| 0 <= i < |s| && s[i] == y;
        assert t[i + 1] == y;
      }
    }
  }

  lemma ConsSorted(x: Item, rest: seq<Item>, items: set<Item>)
    requires Sorted(rest) && IsFirst(x, items) && Elements(rest) == items - {x}
    ensures Sorted([x] + rest) && Elements([x] + rest) == items
  {
    ElementsCons(x, rest);
    assert forall j :: 0 <= j < |rest| ==> rest[j] in Elements(rest);
    hide Before;
  }

  lemma {:induction false} InOrderIsSorted(items: set<Item>)
    ensures Sorted(InOrder(items)) && Elements(InOrder(items)) == items && |InOrder(items)| == |items|
  {
    if items != {} {
      var x := First(items);
      InOrderIsSorted(items - {x});
      hide Sorted, Elements, IsFirst, First;
      ConsSorted(x, InOrder(items - {x}), items);
    }
  }

  /** There is only one sorted arrangement of a set of items. */
  lemma {:induction false} SortedIsUnique(s: seq<Item>, t: seq<Item>)
    requires Sorted(s) && Sorted(t) && Elements(s) == Elements(t)
    ensures s == t
  {
    if s == [] {
      EmptyOnly(t);
    } else {
      assert s[0] in Elements(t) && t != [];
      assert t[0] in Elements(s);
      SameHead(s, t);
      assert s == [s[0]] + s[1..] && t == [t[0]] + t[1..];
      TailElements(s);
      TailElements(t);
      SortedIsUnique(s[1..], t[1..]);
    }
  }

  lemma EmptyOnly(t: seq<Item>)
    ensures Elements(t) == {} ==> t == []
  {
    if t != [] { assert t[0] in Elements(t); }
  }

  lemma SameHead(s: seq<Item>, t: seq<Item>)
    requires Sorted(s) && Sorted(t) && s != [] && t != [] && s[0] in Elements(t) && t[0] in Elements(s)
    ensures s[0] == t[0]
  {
    var i :| 0 <= i < |t| && t[i] == s[0];
    var j :| 0 <= j < |s| && s[j] == t[0];
    BeforeTrichotomy(s[0], t[0]);
  }

  lemma TailElements(s: seq<Item>)
    requires Sorted(s) && s != []
    ensures Elements(s[1..]) == Elements(s) - {s[0]}
  {
    assert s == [s[0]] + s[1..];
    ElementsCons(s[0], s[1..]);
    if s[0] in Elements(s[1..]) {
      var i :| 0 <= i < |s[1..]| && s[1..][i] == s[0];
      assert s[i + 1] == s[0];
      BeforeTrichotomy(s[0], s[0]);
    }
  }

  /** Inserts an item into a sorted sequence. */
  method Insert(s: seq<Item>, x: Item) returns (r: seq<Item>)
    requires Sorted(s) && x !in Elements(s)
    ensures Sorted(r) && Elements(r) == Elements(s) + {x}
  {
    var i := 0;
    while i < |s| && Before(s[i], x)
      invariant 0 <= i <= |s|
      invariant forall j :: 0 <= j < i ==> Before(s[j], x)
    {
      i := i + 1;
    }
    r := s[..i] + [x] + s[i..];
    assert forall j :: 0 <= j < |s| ==> s[j] in Elements(s);
    if i < |s| { BeforeTrichotomy(s[i], x); }
    InsertedIsSorted(s, x, i, r);
    Rearranged(s, x, i, r);
  }

  lemma InsertedIsSorted(s: seq<Item>, x: Item, i: nat, r: seq<Item>)
    requires Sorted(s) && i <= |s| && r == s[..i] + [x] + s[i..]
    requires (forall j :: 0 <= j < i ==> Before(s[j], x)) && (i < |s| ==> Before(x, s[i]))
    ensures Sorted(r)
  {
    forall j | i <= j < |s| ensures Before(x, s[j]) {
      if j > i { BeforeTransitive(x, s[i], s[j]); }
    }
    hide Before;
    forall p, q | 0 <= p < q < |r| ensures Before(r[p], r[q]) {
      var p', q' := if p < i then p else p - 1, if q < i then q else q - 1;
      assert p != i ==> r[p] == s[p'];
      assert q != i ==> r[q] == s[q'];
    }
  }

  lemma Rearranged(s: seq<Item>, x: Item, i: nat, r: seq<Item>)
    requires i <= |s| && r == s[..i] + [x] + s[i..]
    ensures Elements(r) == Elements(s) + {x}
  {
    forall y | y in Elements(s) + {x} ensures y in Elements(r) {
      if y == x {
        assert r[i] == y;
      } else {
        var j :| 0 <= j < |s| && s[j] == y;
        assert r[if j < i then j else j + 1] == y;
      }
    }
    forall y | y in Elements(r) ensures y in Elements(s) + {x} {
      var k :| 0 <= k < |r| && r[k] == y;
      if k < i { assert s[k] == y; } else if k > i { assert s[k - 1] == y; }
    }
  }

  /** sort.Slice with the display order: the result depends only on which items there are. */
  method Sort(items: seq<Item>) returns (s: seq<Item>)
    requires forall i, j :: 0 <= i < j < |items| ==> items[i] != items[j]
    ensures s == InOrder(Elements(items))
  {
    s := [];
    for k := 0 to |items|
      invariant Sorted(s) && Elements(s) == Elements(items[..k])
    {
      assert forall j :: 0 <= j < k ==> items[..k][j] != items[k];
      s := Insert(s, items[k]);
      assert items[..k + 1] == items[..k] + [items[k]] + items[..k][k..];
      Rearranged(items[..k], items[k], k, items[..k + 1]);
    }
    assert items[..|items|] == items;
    InOrderIsSorted(Elements(items));
    SortedIsUnique(s, InOrder(Elements(items)));
  }

  // ---------------------------------------------------------------- names in order

  /** Names as items of equal count, so that the display order is the order of the names. */
  function Named(names: set<string>): set<Item> {
    set name | name in names :: Item(0, name, "")
  }

  method SortNames(names: set<string>) returns (order: seq<Item>)
    ensures order == InOrder(Named(names))
  {
    var items: seq<Item> := [];
    var todo := names;
    while todo != {}
      invariant todo <= names && Elements(items) == Named(names - todo)
      invariant forall i, j :: 0 <= i < j < |items| ==> items[i] != items[j]
      decreases |todo|
    {
      var name :| name in todo;
      var x := Item(0, name, "");
      assert x !in Named(names - todo);
      NewElement(items, x);
      items := items + [x];
      todo := todo - {name};
    }
    assert names - todo == names;
    order := Sort(items);
  }

  lemma NewElement(items: seq<Item>, x: Item)
    requires x !in Elements(items)
    ensures Elements(items + [x]) == Elements(items) + {x}
    ensures forall i :: 0 <= i < |items| ==> items[i] != x
  {
    assert forall i :: 0 <= i < |items| ==> items[i] in Elements(items);
    assert (items + [x])[..|items|] == items && (items + [x])[|items|] == x;
    forall y | y in Elements(items) ensures y in Elements(items + [x]) {
      var i :| 0 <= i < |items| && items[i] == y;
      assert (items + [x])[i] == y;
    }
  }
}
