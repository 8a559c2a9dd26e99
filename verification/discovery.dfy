/**
  `BaseViewSet.__get_views` (fast_cbv/viewsets.py): walk `dir(cls)`, keep
  every attribute that carries action metadata, and sort the list by the path
  fragment the decorator declared, stably.
 */
module Discovery {
  import opened Basics
  import opened Actions
  import opened Lex
  import opened Classes

  /** One discovered handler: the attribute name, the function, and its metadata. */
  datatype Entry = Entry(name: string, fn: Function, meta: ActionMeta)

  /** `hasattr(getattr(cls, a), "__fast_view__")`. */
  predicate IsView(ns: Namespace, a: string)
  {
    a in ns && ns[a].Func? && ns[a].f.action.Some?
  }

  function EntryOf(ns: Namespace, a: string): Entry
    requires IsView(ns, a)
  {
    Entry(a, ns[a].f, ns[a].f.action.value)
  }

  /** The loop over `dir(cls)`: the view attributes among `names`, in the order of `names`. */
  function Collect(ns: Namespace, names: seq<string>): (es: seq<Entry>)
    ensures forall e :: e in es ==> e.name in names && IsView(ns, e.name) && e == EntryOf(ns, e.name)
    ensures forall a :: a in names && IsView(ns, a) ==> EntryOf(ns, a) in es
  {
    if |names| == 0 then []
    else
      var rest := Collect(ns, names[1..]);
      assert forall a :: a in names <==> a == names[0] || a in names[1..] by {
        assert names == [names[0]] + names[1..];
      }
      if IsView(ns, names[0]) then [EntryOf(ns, names[0])] + rest else rest
  }

  /** Strictly ascending by name. */
  predicate NamesAscending(es: seq<Entry>)
  {
    forall i, j :: 0 <= i < j < |es| ==> LexLt(es[i].name, es[j].name)
  }

  lemma StrictlySortedTail(names: seq<string>)
    requires StrictlySorted(names) && |names| > 0
    ensures StrictlySorted(names[1..])
  {
    forall i, j | 0 <= i < j < |names[1..]|
      ensures LexLt(names[1..][i], names[1..][j])
    {
      assert names[1..][i] == names[i + 1] && names[1..][j] == names[j + 1];
    }
  }

  /** Every entry collected from the rest of a sorted listing comes after its head. */
  lemma HeadPrecedesCollected(ns: Namespace, names: seq<string>)
    requires StrictlySorted(names) && |names| > 0
    ensures forall e :: e in Collect(ns, names[1..]) ==> LexLt(names[0], e.name)
  {
    forall e | e in Collect(ns, names[1..])
      ensures LexLt(names[0], e.name)
    {
      var k :| 0 <= k < |names[1..]| && names[1..][k] == e.name;
      assert names[k + 1] == e.name;
    }
  }

  lemma ConsAscending(e: Entry, rest: seq<Entry>)
    requires NamesAscending(rest)
    requires forall x :: x in rest ==> LexLt(e.name, x.name)
    ensures NamesAscending([e] + rest)
  {
    var es := [e] + rest;
    forall i, j | 0 <= i < j < |es|
      ensures LexLt(es[i].name, es[j].name)
    {
      assert es[j] == rest[j - 1];
      if i > 0 {
        assert es[i] == rest[i - 1];
      }
    }
  }

  /** Collecting from a strictly sorted listing keeps the entries strictly ascending by name. */
  lemma {:induction false} CollectKeepsNameOrder(ns: Namespace, names: seq<string>)
    requires StrictlySorted(names)
    ensures NamesAscending(Collect(ns, names))
  {
    if |names| > 0 {
      StrictlySortedTail(names);
      CollectKeepsNameOrder(ns, names[1..]);
      if IsView(ns, names[0]) {
        HeadPrecedesCollected(ns, names);
        ConsAscending(EntryOf(ns, names[0]), Collect(ns, names[1..]));
      }
    }
  }

  // ---------------------------------------------------------------------
  // `all_views_.sort(key=lambda x: x[1].__fast_view__["path"])`

  /** Places `e` after every entry whose path is not greater than its own. */
  function InsertByPath(e: Entry, es: seq<Entry>): (r: seq<Entry>)
    ensures |r| == |es| + 1
    ensures forall x :: x in r <==> x == e || x in es
  {
    if |es| == 0 then [e]
    else if LexLt(e.meta.path, es[0].meta.path) then [e] + es
    else
      var rest := InsertByPath(e, es[1..]);
      assert forall x :: x in es <==> x == es[0] || x in es[1..] by {
        assert es == [es[0]] + es[1..];
      }
      [es[0]] + rest
  }

  /** A stable sort by path: each entry, taken in list order, goes after the
      ones already placed whose path is not greater. */
  function SortByPath(es: seq<Entry>): (r: seq<Entry>)
    ensures |r| == |es|
    ensures forall x :: x in r <==> x in es
  {
    if |es| == 0 then []
    else
      var init := es[..|es| - 1];
      assert forall x :: x in es <==> x == es[|es| - 1] || x in init by {
        assert es == init + [es[|es| - 1]];
      }
      InsertByPath(es[|es| - 1], SortByPath(init))
  }

  /** Ascending path, and for equal paths ascending name: the order a
      stable sort by path leaves a name-sorted list in. */
  predicate Before(x: Entry, y: Entry)
  {
    LexLt(x.meta.path, y.meta.path) || (x.meta.path == y.meta.path && LexLt(x.name, y.name))
  }

  predicate Ordered(es: seq<Entry>)
  {
    forall i, j :: 0 <= i < j < |es| ==> Before(es[i], es[j])
  }

  lemma BeforeIsStrictOrder()
    ensures forall x: Entry, y: Entry :: Before(x, y) ==> !Before(y, x)
    ensures forall x: Entry, y: Entry, z: Entry :: Before(x, y) && Before(y, z) ==> Before(x, z)
  {
    LexLeIsTotalOrder();
  }

  lemma LexLtThenLe(a: string, b: string, c: string)
    requires LexLt(a, b) && LexLe(b, c)
    ensures LexLt(a, c)
  {
    LexLeTransitive(a, b, c);
    if a == c {
      LexLeAntisymmetric(a, b);
    }
  }

  lemma BeforePathLe(x: Entry, y: Entry)
    requires Before(x, y)
    ensures LexLe(x.meta.path, y.meta.path)
  {
    if x.meta.path == y.meta.path {
      LexLeReflexive(x.meta.path);
    }
  }

  /** `e` goes first when its path is below the first path. */
  lemma InsertInFront(e: Entry, es: seq<Entry>)
    requires Ordered(es) && |es| > 0
    requires LexLt(e.meta.path, es[0].meta.path)
    ensures Ordered([e] + es)
  {
    var r := [e] + es;
    forall j | 0 <= j < |es|
      ensures Before(e, es[j])
    {
      if j > 0 {
        BeforePathLe(es[0], es[j]);
        LexLtThenLe(e.meta.path, es[0].meta.path, es[j].meta.path);
      }
    }
    forall i, j | 0 <= i < j < |r|
      ensures Before(r[i], r[j])
    {
      if i == 0 {
        assert r[j] == es[j - 1];
      } else {
        assert r[i] == es[i - 1] && r[j] == es[j - 1];
      }
    }
  }

  /** Otherwise the first entry stays first. */
  lemma InsertBehindHead(e: Entry, es: seq<Entry>)
    requires Ordered(es) && |es| > 0
    requires !LexLt(e.meta.path, es[0].meta.path) && LexLt(es[0].name, e.name)
    requires Ordered(InsertByPath(e, es[1..]))
    ensures Ordered(InsertByPath(e, es))
  {
    var rest := InsertByPath(e, es[1..]);
    var r := InsertByPath(e, es);
    assert r == [es[0]] + rest;
    assert Before(es[0], e) by {
      LexLeTotal(e.meta.path, es[0].meta.path);
    }
    forall x | x in rest
      ensures Before(es[0], x)
    {
      if x != e {
        var k :| 0 <= k < |es[1..]| && es[1..][k] == x;
        assert es[k + 1] == x;
      }
    }
    forall i, j | 0 <= i < j < |r|
      ensures Before(r[i], r[j])
    {
      if i == 0 {
        assert r[j] == rest[j - 1] && r[j] in rest;
      } else {
        assert r[i] == rest[i - 1] && r[j] == rest[j - 1];
      }
    }
  }

  /** Inserting an entry whose name is above every name already placed keeps the order. */
  lemma {:induction false} InsertByPathOrdered(e: Entry, es: seq<Entry>)
    requires Ordered(es)
    requires forall x :: x in es ==> LexLt(x.name, e.name)
    ensures Ordered(InsertByPath(e, es))
  {
    if |es| > 0 {
      if LexLt(e.meta.path, es[0].meta.path) {
        InsertInFront(e, es);
      } else {
        assert Ordered(es[1..]) by {
          assert forall p, q :: 0 <= p < q < |es[1..]| ==> es[1..][p] == es[p + 1] && es[1..][q] == es[q + 1];
        }
        assert forall x :: x in es[1..] ==> x in es;
        InsertByPathOrdered(e, es[1..]);
        assert es[0] in es;
        InsertBehindHead(e, es);
      }
    }
  }

  /** Sorting a name-ascending list by path yields the (path, name) order. */
  lemma {:induction false} SortByPathOrdered(es: seq<Entry>)
    requires NamesAscending(es)
    ensures Ordered(SortByPath(es))
  {
    if |es| > 0 {
      var init := es[..|es| - 1];
      var last := es[|es| - 1];
      assert NamesAscending(init);
      SortByPathOrdered(init);
      forall x | x in SortByPath(init)
        ensures LexLt(x.name, last.name)
      {
        var k :| 0 <= k < |init| && init[k] == x;
      }
      InsertByPathOrdered(last, SortByPath(init));
    }
  }

  /** Two (path, name)-ordered lists with the same entries are the same list. */
  lemma {:induction false} OrderedUnique(a: seq<Entry>, b: seq<Entry>)
    requires Ordered(a) && Ordered(b)
    requires forall x :: x in a <==> x in b
    ensures a == b
  {
    BeforeIsStrictOrder();
    if |a| > 0 && |b| > 0 {
      assert a[0] in a && b[0] in b;
      FirstIsLeast(b, a[0]);
      FirstIsLeast(a, b[0]);
      assert a[0] == b[0];
      forall x
        ensures x in a[1..] <==> x in b[1..]
      {
        if x in a[1..] {
          var k :| 0 <= k < |a| - 1 && a[1..][k] == x;
          assert a[k + 1] == x && Before(a[0], x) && x in b;
          var m :| 0 <= m < |b| && b[m] == x;
          assert m > 0 && b[1..][m - 1] == x;
        }
        if x in b[1..] {
          var k :| 0 <= k < |b| - 1 && b[1..][k] == x;
          assert b[k + 1] == x && Before(b[0], x) && x in a;
          var m :| 0 <= m < |a| && a[m] == x;
          assert m > 0 && a[1..][m - 1] == x;
        }
      }
      assert Ordered(a[1..]) by {
        assert forall p, q :: 0 <= p < q < |a[1..]| ==> a[1..][p] == a[p + 1] && a[1..][q] == a[q + 1];
      }
      assert Ordered(b[1..]) by {
        assert forall p, q :: 0 <= p < q < |b[1..]| ==> b[1..][p] == b[p + 1] && b[1..][q] == b[q + 1];
      }
      OrderedUnique(a[1..], b[1..]);
      assert a == [a[0]] + a[1..];
      assert b == [b[0]] + b[1..];
    } else if |a| > 0 {
      ListedHead(a);
      assert false;
    } else if |b| > 0 {
      ListedHead(b);
      assert false;
    }
  }

  lemma FirstIsLeast(a: seq<Entry>, x: Entry)
    requires Ordered(a) && x in a
    ensures |a| > 0 && (x == a[0] || Before(a[0], x))
  {
    var i :| 0 <= i < |a| && a[i] == x;
  }

  lemma ListedHead(a: seq<Entry>)
    ensures |a| > 0 ==> a[0] in a
  {
  }

  /** `__get_views`: the handlers of the class, in route order. */
  function Discover(c: ClassObj): (es: seq<Entry>)
  {
    var ns := Resolve(c);
    SortByPath(Collect(ns, SortedKeys(ns.Keys)))
  }

  /** What discovery answers: exactly the attributes, own or inherited, that
      carry action metadata, each once, ascending by declared path and, among
      equal paths, by name. */
  lemma DiscoverFindsEveryView(c: ClassObj)
    ensures var ns := Resolve(c); var es := Discover(c);
      && Ordered(es)
      && (forall e :: e in es ==> IsView(ns, e.name) && e == EntryOf(ns, e.name))
      && (forall a :: IsView(ns, a) ==> EntryOf(ns, a) in es)
  {
    var ns := Resolve(c);
    CollectKeepsNameOrder(ns, SortedKeys(ns.Keys));
    SortByPathOrdered(Collect(ns, SortedKeys(ns.Keys)));
  }

  /** Just the membership half of the above. */
  lemma DiscoverListsExactlyTheViews(c: ClassObj)
    ensures forall e :: e in Discover(c) ==> IsView(Resolve(c), e.name) && e == EntryOf(Resolve(c), e.name)
    ensures forall a :: IsView(Resolve(c), a) ==> EntryOf(Resolve(c), a) in Discover(c)
  {
    DiscoverFindsEveryView(c);
  }

  /** The description above determines the answer: any list with those three
      properties is what discovery returns, so every stable sort by path
      (Python's `list.sort` among them) gives this same list. */
  lemma DiscoverIsDeterminedByOrder(c: ClassObj, es: seq<Entry>)
    requires Ordered(es)
    requires forall e :: e in es ==> IsView(Resolve(c), e.name) && e == EntryOf(Resolve(c), e.name)
    requires forall a :: IsView(Resolve(c), a) ==> EntryOf(Resolve(c), a) in es
    ensures es == Discover(c)
  {
    DiscoverFindsEveryView(c);
    var d := Discover(c);
    forall x
      ensures x in es <==> x in d
    {
    }
    OrderedUnique(es, d);
  }

  /** The names of the discovered handlers, in order. */
  function Names(es: seq<Entry>): (names: seq<string>)
    ensures |names| == |es|
    ensures forall i :: 0 <= i < |es| ==> names[i] == es[i].name
  {
    seq(|es|, i requires 0 <= i < |es| => es[i].name)
  }
}
