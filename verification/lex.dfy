/**
  Python's string ordering (code point by code point, a proper prefix first),
  and the sorted attribute-name listing `dir()` returns for a class.
 */
module Lex {

  /** `a <= b` on Python strings. */
  predicate LexLe(a: string, b: string)
  {
    |a| == 0 || (|b| > 0 && (a[0] < b[0] || (a[0] == b[0] && LexLe(a[1..], b[1..]))))
  }

  /** `a < b` on Python strings. */
  predicate LexLt(a: string, b: string)
  {
    LexLe(a, b) && a != b
  }

  lemma {:induction false} LexLeReflexive(a: string)
    ensures LexLe(a, a)
  {
    if |a| > 0 {
      LexLeReflexive(a[1..]);
    }
  }

  lemma {:induction false} LexLeAntisymmetric(a: string, b: string)
    requires LexLe(a, b) && LexLe(b, a)
    ensures a == b
  {
    if |a| > 0 && |b| > 0 {
      LexLeAntisymmetric(a[1..], b[1..]);
      assert a == [a[0]] + a[1..];
      assert b == [b[0]] + b[1..];
    }
  }

  lemma {:induction false} LexLeTransitive(a: string, b: string, c: string)
    requires LexLe(a, b) && LexLe(b, c)
    ensures LexLe(a, c)
  {
    if |a| > 0 && |b| > 0 && |c| > 0 && a[0] == b[0] == c[0] {
      LexLeTransitive(a[1..], b[1..], c[1..]);
    }
  }

  lemma {:induction false} LexLeTotal(a: string, b: string)
    ensures LexLe(a, b) || LexLe(b, a)
  {
    if |a| > 0 && |b| > 0 && a[0] == b[0] {
      LexLeTotal(a[1..], b[1..]);
    }
  }

  /** The facts above, for every pair and triple at once. */
  lemma LexLeIsTotalOrder()
    ensures forall a: string :: LexLe(a, a)
    ensures forall a: string, b: string :: LexLe(a, b) && LexLe(b, a) ==> a == b
    ensures forall a: string, b: string, c: string :: LexLe(a, b) && LexLe(b, c) ==> LexLe(a, c)
    ensures forall a: string, b: string :: LexLe(a, b) || LexLe(b, a)
  {
    forall a: string {
      LexLeReflexive(a);
    }
    forall a: string, b: string | LexLe(a, b) && LexLe(b, a) {
      LexLeAntisymmetric(a, b);
    }
    forall a: string, b: string, c: string | LexLe(a, b) && LexLe(b, c) {
      LexLeTransitive(a, b, c);
    }
    forall a: string, b: string {
      LexLeTotal(a, b);
    }
  }

  /** Every finite non-empty set of strings has a least element. */
  lemma {:induction false} LeastExists(s: set<string>)
    requires s != {}
    ensures exists m :: m in s && forall x :: x in s ==> LexLe(m, x)
  {
    var m := LeastOf(s);
  }

  lemma {:induction false} LeastOf(s: set<string>) returns (m: string)
    requires s != {}
    ensures m in s && forall x :: x in s ==> LexLe(m, x)
    decreases |s|
  {
    var y :| y in s;
    var rest := s - {y};
    if rest == {} {
      m := y;
      LexLeReflexive(y);
      assert s == rest + {y};
    } else {
      var m' := LeastOf(rest);
      LexLeTotal(y, m');
      if LexLe(y, m') {
        m := y;
        forall x | x in s
          ensures LexLe(y, x)
        {
          if x == y {
            LexLeReflexive(y);
          } else {
            assert x in rest;
            LexLeTransitive(y, m', x);
          }
        }
      } else {
        m := m';
        forall x | x in s
          ensures LexLe(m', x)
        {
          if x != y {
            assert x in rest;
          }
        }
      }
    }
  }

  /** The least string of a non-empty set. */
  function Least(s: set<string>): (m: string)
    requires s != {}
    ensures m in s
    ensures forall x :: x in s ==> LexLe(m, x)
  {
    LeastExists(s);
    LexLeIsTotalOrder();
    var m :| m in s && forall x :: x in s ==> LexLe(m, x);
    m
  }

  /** Strictly ascending: no repeats, each element below every later one. */
  predicate StrictlySorted(names: seq<string>)
  {
    forall i, j :: 0 <= i < j < |names| ==> LexLt(names[i], names[j])
  }

  /** `sorted(s)` for a set of attribute names: the order `dir()` lists them in. */
  function SortedKeys(s: set<string>): (names: seq<string>)
    ensures StrictlySorted(names)
    ensures forall x :: x in s <==> x in names
    ensures |names| == |s|
    decreases |s|
  {
    if s == {} then []
    else
      var m := Least(s);
      var rest := SortedKeys(s - {m});
      assert forall j :: 0 <= j < |rest| ==> LexLt(m, rest[j]) by {
        forall j | 0 <= j < |rest|
          ensures LexLt(m, rest[j])
        {
          assert rest[j] in s - {m};
        }
      }
      [m] + rest
  }

  /** A strictly sorted listing of a set is unique. */
  lemma {:induction false} StrictlySortedUnique(a: seq<string>, b: seq<string>)
    requires StrictlySorted(a) && StrictlySorted(b)
    requires forall x :: x in a <==> x in b
    ensures a == b
  {
    if |a| > 0 && |b| > 0 {
      LexLeIsTotalOrder();
      assert a[0] in b && b[0] in a;
      var i :| 0 <= i < |b| && b[i] == a[0];
      var j :| 0 <= j < |a| && a[j] == b[0];
      assert LexLe(b[0], a[0]) by {
        if i == 0 {
          LexLeReflexive(b[0]);
        }
      }
      assert LexLe(a[0], b[0]) by {
        if j == 0 {
          LexLeReflexive(a[0]);
        }
      }
      LexLeAntisymmetric(a[0], b[0]);
      forall x
        ensures x in a[1..] <==> x in b[1..]
      {
        if x in a[1..] {
          var i :| 0 <= i < |a| - 1 && a[1..][i] == x;
          assert a[i + 1] == x && x != a[0];
          assert x in a;
          var k :| 0 <= k < |b| && b[k] == x;
          assert k > 0 && b[1..][k - 1] == x;
        }
        if x in b[1..] {
          var i :| 0 <= i < |b| - 1 && b[1..][i] == x;
          assert b[i + 1] == x && x != b[0];
          assert x in b;
          var k :| 0 <= k < |a| && a[k] == x;
          assert k > 0 && a[1..][k - 1] == x;
        }
      }
      StrictlySortedUnique(a[1..], b[1..]);
      assert a == [a[0]] + a[1..];
      assert b == [b[0]] + b[1..];
    } else if |a| > 0 {
      HeadIsListed(a);
      assert false;
    } else if |b| > 0 {
      HeadIsListed(b);
      assert false;
    }
  }

  lemma HeadIsListed(a: seq<string>)
    ensures |a| > 0 ==> a[0] in a
  {
  }
}
