/**
  The ASCII subset of Python's `str` methods the view-set machinery uses:
  `lower()`, `title()`, `replace()` of one character, and `strip()` with and
  without an explicit character set.
 */
module Text {

  predicate IsUpper(c: char) { 'A' <= c <= 'Z' }
  predicate IsLower(c: char) { 'a' <= c <= 'z' }

  /** ASCII letters are the only cased characters in this model. */
  predicate IsAlpha(c: char) { IsUpper(c) || IsLower(c) }

  /** `str.isspace()` on ASCII: tab, line feed, vertical tab, form feed,
      carriage return, the four information separators and space. */
  predicate IsSpace(c: char) { 9 <= c as int <= 13 || 28 <= c as int <= 32 }

  predicate IsUnderscore(c: char) { c == '_' }

  function ToLower(c: char): (r: char)
    ensures !IsUpper(r)
    ensures IsUpper(c) ==> IsLower(r) && r as int == c as int + 32
    ensures !IsUpper(c) ==> r == c
  {
    if IsUpper(c) then (c as int + 32) as char else c
  }

  function ToUpper(c: char): (r: char)
    ensures !IsLower(r)
    ensures IsLower(c) ==> IsUpper(r) && r as int == c as int - 32
    ensures !IsLower(c) ==> r == c
  {
    if IsLower(c) then (c as int - 32) as char else c
  }

  /** `str.lower()`. */
  function Lower(s: string): (r: string)
    ensures |r| == |s|
  {
    if |s| == 0 then [] else [ToLower(s[0])] + Lower(s[1..])
  }

  /** Lower-casing works character by character and leaves no capital. */
  lemma {:induction false} LowerIsPointwise(s: string)
    ensures forall i :: 0 <= i < |s| ==> Lower(s)[i] == ToLower(s[i])
    ensures forall c :: c in Lower(s) ==> !IsUpper(c)
  {
    if |s| > 0 {
      LowerIsPointwise(s[1..]);
      assert forall i :: 1 <= i < |s| ==> Lower(s)[i] == Lower(s[1..])[i - 1] && s[1..][i - 1] == s[i];
    }
  }

  lemma {:induction false} LowerAppend(x: string, y: string)
    ensures Lower(x + y) == Lower(x) + Lower(y)
  {
    if |x| == 0 {
      assert x + y == y;
    } else {
      assert (x + y)[0] == x[0] && (x + y)[1..] == x[1..] + y;
      LowerAppend(x[1..], y);
    }
  }

  /** `str.replace(a, b)` for single characters. */
  function ReplaceChar(s: string, a: char, b: char): (r: string)
    ensures |r| == |s|
    ensures forall i :: 0 <= i < |s| ==> r[i] == (if s[i] == a then b else s[i])
  {
    if |s| == 0 then [] else [if s[0] == a then b else s[0]] + ReplaceChar(s[1..], a, b)
  }

  /** `str.lstrip(chars)`: drop leading characters that `drop` selects. */
  function TrimStart(s: string, drop: char -> bool): (r: string)
    ensures |r| <= |s| && r == s[|s| - |r|..]
    ensures |r| > 0 ==> !drop(r[0])
    ensures forall i :: 0 <= i < |s| - |r| ==> drop(s[i])
  {
    if |s| > 0 && drop(s[0]) then
      var r := TrimStart(s[1..], drop);
      assert s[1..][|s| - 1 - |r|..] == s[|s| - |r|..];
      assert forall i :: 1 <= i < |s| - |r| ==> s[i] == s[1..][i - 1];
      r
    else s
  }

  /** `str.rstrip(chars)`: drop trailing characters that `drop` selects. */
  function TrimEnd(s: string, drop: char -> bool): (r: string)
    ensures |r| <= |s| && r == s[..|r|]
    ensures |r| > 0 ==> !drop(r[|r| - 1])
    ensures forall i :: |r| <= i < |s| ==> drop(s[i])
  {
    if |s| > 0 && drop(s[|s| - 1]) then
      var r := TrimEnd(s[..|s| - 1], drop);
      assert s[..|s| - 1][..|r|] == s[..|r|];
      assert forall i :: |r| <= i < |s| - 1 ==> s[i] == s[..|s| - 1][i];
      r
    else s
  }

  /** `str.strip(chars)`: both ends. */
  function Trim(s: string, drop: char -> bool): (r: string)
    ensures |r| <= |s|
    ensures |r| > 0 ==> !drop(r[0]) && !drop(r[|r| - 1])
    ensures |r| == 0 <==> forall i :: 0 <= i < |s| ==> drop(s[i])
    ensures forall c :: c in r ==> c in s
  {
    var t := TrimStart(s, drop);
    var r := TrimEnd(t, drop);
    assert |r| > 0 ==> r[0] == t[0];
    assert forall c :: c in r ==> c in t;
    r
  }

  /** `str.strip()` with no argument strips whitespace. */
  function Strip(s: string): (r: string)
    ensures |r| > 0 ==> !IsSpace(r[0]) && !IsSpace(r[|r| - 1])
  {
    Trim(s, IsSpace)
  }

  /** Trimming is idempotent. */
  lemma {:induction false} TrimIdempotent(s: string, drop: char -> bool)
    ensures Trim(Trim(s, drop), drop) == Trim(s, drop)
  {
    var r := Trim(s, drop);
    if |r| > 0 {
      assert TrimStart(r, drop) == r;
      assert TrimEnd(r, drop) == r;
    }
  }

  /** Appending a dropped character does not change the trimmed result. */
  lemma {:induction false} TrimDroppedSuffix(s: string, c: char, drop: char -> bool)
    requires drop(c)
    ensures Trim(s + [c], drop) == Trim(s, drop)
  {
    if k :| 0 <= k < |s| && !drop(s[k]) {
      TrimStartAppendKept(s, [c], k, drop);
      var t := TrimStart(s, drop);
      assert (t + [c])[..|t + [c]| - 1] == t;
    } else {
      TrimStartAppendDropped(s, [c], drop);
      assert TrimStart(s, drop) == [];
    }
  }

  /** Prepending a dropped character does not change the trimmed result. */
  lemma TrimDroppedPrefix(c: char, s: string, drop: char -> bool)
    requires drop(c)
    ensures Trim([c] + s, drop) == Trim(s, drop)
  {
    assert ([c] + s)[1..] == s;
  }

  /** Leading characters are only removed from the first part of a
      concatenation when that part holds a kept character. */
  lemma {:induction false} TrimStartAppendKept(a: string, b: string, k: nat, drop: char -> bool)
    requires k < |a| && !drop(a[k])
    ensures TrimStart(a + b, drop) == TrimStart(a, drop) + b
  {
    assert (a + b)[0] == a[0];
    if drop(a[0]) {
      assert (a + b)[1..] == a[1..] + b;
      assert a[1..][k - 1] == a[k];
      TrimStartAppendKept(a[1..], b, k - 1, drop);
    }
  }

  /** A first part made only of dropped characters vanishes entirely. */
  lemma {:induction false} TrimStartAppendDropped(a: string, b: string, drop: char -> bool)
    requires forall i :: 0 <= i < |a| ==> drop(a[i])
    ensures TrimStart(a + b, drop) == TrimStart(b, drop)
  {
    if |a| == 0 {
      assert a + b == b;
    } else {
      assert (a + b)[0] == a[0];
      assert (a + b)[1..] == a[1..] + b;
      TrimStartAppendDropped(a[1..], b, drop);
    }
  }

  /** The character Python's `str.title()` puts at position `i`: a letter is
      upper-cased when it starts a run of letters and lower-cased otherwise. */
  function TitleChar(s: string, i: nat, prevCased: bool): char
    requires i < |s|
  {
    var afterCased := if i == 0 then prevCased else IsAlpha(s[i - 1]);
    if !IsAlpha(s[i]) then s[i]
    else if afterCased then ToLower(s[i])
    else ToUpper(s[i])
  }

  /** Left-to-right scan of `str.title()`, carrying whether the previous character was cased. */
  function TitleFrom(s: string, prevCased: bool): (r: string)
    ensures |r| == |s|
    ensures forall i :: 0 <= i < |s| ==> r[i] == TitleChar(s, i, prevCased)
  {
    if |s| == 0 then []
    else
      var c := s[0];
      var head := if !IsAlpha(c) then c else if prevCased then ToLower(c) else ToUpper(c);
      var rest := TitleFrom(s[1..], IsAlpha(c));
      assert forall i :: 1 <= i < |s| ==> rest[i - 1] == TitleChar(s, i, prevCased) by {
        forall i | 1 <= i < |s|
          ensures rest[i - 1] == TitleChar(s, i, prevCased)
        {
          assert s[1..][i - 1] == s[i];
          if i > 1 {
            assert s[1..][i - 2] == s[i - 1];
          }
        }
      }
      [head] + rest
  }

  /** `str.title()`: every letter that follows a non-letter (or starts the
      string) is upper case, every other letter is lower case, and every
      non-letter is unchanged. */
  function Title(s: string): (r: string)
    ensures |r| == |s|
    ensures forall i :: 0 <= i < |s| && !IsAlpha(s[i]) ==> r[i] == s[i]
    ensures forall i :: 0 <= i < |s| && IsAlpha(s[i]) ==>
      IsAlpha(r[i]) && ToLower(r[i]) == ToLower(s[i]) && (IsUpper(r[i]) <==> (i == 0 || !IsAlpha(s[i - 1])))
  {
    TitleFrom(s, false)
  }
}
