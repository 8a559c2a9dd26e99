/**
  Route-prefix derivation from a view-set class name
  (fast_cbv/viewsets.py, `BaseViewSet.__build_fast_view_params`):
  drop a trailing `ViewSet`/`ViewSets` (any case), put `_` before every
  capitalised word and before every run of two or more capitals, lower-case,
  and trim `_` from both ends.

  Each regular-expression substitution is written as the left-to-right scan
  Python's `re.sub` performs, and is proved equal to a position-wise
  reference: the input with `_` inserted before exactly the positions where
  a match starts.
 */
module Prefix {
  import opened Text

  /** `re.sub("ViewSets?$", "", name, flags=re.IGNORECASE)`. */
  function StripViewSetSuffix(name: string): (r: string)
    ensures |r| <= |name| && name[..|r|] == r
    ensures |r| < |name| ==> Lower(name[|r|..]) == "viewset" || Lower(name[|r|..]) == "viewsets"
    ensures |r| < |name| <==> HasViewSetSuffix(name)
  {
    if |name| >= 8 && Lower(name[|name| - 8..]) == "viewsets" then name[..|name| - 8]
    else if |name| >= 7 && Lower(name[|name| - 7..]) == "viewset" then name[..|name| - 7]
    else name
  }

  /** A name ending in `viewsets` ends in an `s`, so not in `viewset`. */
  lemma EightLetterSuffixIsNotSeven(name: string)
    requires |name| >= 8 && Lower(name[|name| - 8..]) == "viewsets"
    ensures Lower(name[|name| - 7..]) != "viewset"
  {
    var a := name[|name| - 8..];
    var b := name[|name| - 7..];
    LowerIsPointwise(a);
    LowerIsPointwise(b);
    assert a[7] == b[6];
    assert Lower(a)[7] == 's' && Lower(b)[6] == Lower(a)[7];
  }

  /** Exactly the suffix is removed: eight letters for `viewsets` in any
      case (the regular expression's `s?` is greedy), seven for `viewset`. */
  lemma StripViewSetSuffixRemovesTheSuffix(name: string)
    ensures |name| >= 8 && Lower(name[|name| - 8..]) == "viewsets" ==> StripViewSetSuffix(name) == name[..|name| - 8]
    ensures |name| >= 7 && Lower(name[|name| - 7..]) == "viewset" ==> StripViewSetSuffix(name) == name[..|name| - 7]
  {
    if |name| >= 8 && Lower(name[|name| - 8..]) == "viewsets" {
      EightLetterSuffixIsNotSeven(name);
    }
  }

  /** True when the name ends in `ViewSet` or `ViewSets`, ignoring case. */
  predicate HasViewSetSuffix(name: string)
  {
    (|name| >= 7 && Lower(name[|name| - 7..]) == "viewset")
    || (|name| >= 8 && Lower(name[|name| - 8..]) == "viewsets")
  }

  /** `s` with `_` inserted before every position whose mark is set. */
  function InsertMarks(s: string, marks: seq<bool>): (r: string)
    requires |marks| == |s|
  {
    if |s| == 0 then []
    else (if marks[0] then "_" else "") + [s[0]] + InsertMarks(s[1..], marks[1..])
  }

  /** Where `[A-Z][a-z]+` matches start: a capital followed by a small letter. */
  function WordMarks(s: string): (marks: seq<bool>)
    ensures |marks| == |s|
  {
    seq(|s|, i requires 0 <= i < |s| => IsUpper(s[i]) && i + 1 < |s| && IsLower(s[i + 1]))
  }

  /** Where `[A-Z]{2,}` matches start: the first of two or more consecutive capitals. */
  function RunMarks(s: string): (marks: seq<bool>)
    ensures |marks| == |s|
  {
    seq(|s|, i requires 0 <= i < |s| =>
      IsUpper(s[i]) && i + 1 < |s| && IsUpper(s[i + 1]) && (i == 0 || !IsUpper(s[i - 1])))
  }

  /** Length of the longest prefix of small letters. */
  function LowerRun(s: string): (k: nat)
    ensures k <= |s|
    ensures forall i :: 0 <= i < k ==> IsLower(s[i])
    ensures k < |s| ==> !IsLower(s[k])
  {
    if |s| > 0 && IsLower(s[0]) then 1 + LowerRun(s[1..]) else 0
  }

  /** Length of the longest prefix of capitals. */
  function UpperRun(s: string): (k: nat)
    ensures k <= |s|
    ensures forall i :: 0 <= i < k ==> IsUpper(s[i])
    ensures k < |s| ==> !IsUpper(s[k])
  {
    if |s| > 0 && IsUpper(s[0]) then 1 + UpperRun(s[1..]) else 0
  }

  /** `re.sub(r"(?P<key>[A-Z][a-z]+)", r"_\g<key>", s)`, as the regex engine scans. */
  function SplitWords(s: string): (r: string)
    decreases |s|
  {
    if |s| == 0 then []
    else if |s| >= 2 && IsUpper(s[0]) && IsLower(s[1]) then
      var k := 1 + LowerRun(s[1..]);
      "_" + s[..k] + SplitWords(s[k..])
    else [s[0]] + SplitWords(s[1..])
  }

  /** `re.sub(r"(?P<key>[A-Z]{2,})", r"_\g<key>", s)`, as the regex engine scans. */
  function SplitCapitalRuns(s: string): (r: string)
    decreases |s|
  {
    if |s| == 0 then []
    else if |s| >= 2 && IsUpper(s[0]) && IsUpper(s[1]) then
      var k := UpperRun(s);
      "_" + s[..k] + SplitCapitalRuns(s[k..])
    else [s[0]] + SplitCapitalRuns(s[1..])
  }

  /** The path prefix derived from a class name. */
  function DerivePrefix(name: string): string
  {
    Trim(Lower(SplitCapitalRuns(SplitWords(StripViewSetSuffix(name)))), IsUnderscore)
  }

  /** The derived prefix has no capital letter and neither starts nor ends with `_`. */
  lemma DerivePrefixShape(name: string)
    ensures forall i :: 0 <= i < |DerivePrefix(name)| ==> !IsUpper(DerivePrefix(name)[i])
    ensures var r := DerivePrefix(name); |r| > 0 ==> r[0] != '_' && r[|r| - 1] != '_'
  {
    var split := SplitCapitalRuns(SplitWords(StripViewSetSuffix(name)));
    var lowered := Lower(split);
    LowerIsPointwise(split);
    var r := Trim(lowered, IsUnderscore);
    forall i | 0 <= i < |r|
      ensures !IsUpper(r[i])
    {
      assert r[i] in r;
    }
  }

  /** `path` is `/`, then a segment free of capitals and of leading or
      trailing `_`, then `fragment`. */
  predicate PrefixedBy(path: string, fragment: string)
  {
    && |path| > |fragment| && path[0] == '/' && path[|path| - |fragment|..] == fragment
    && (forall i :: 1 <= i < |path| - |fragment| ==> !IsUpper(path[i]))
    && (|path| > |fragment| + 1 ==> path[1] != '_' && path[|path| - |fragment| - 1] != '_')
  }

  /** The route path registered for a handler whose decorator path is
      `fragment`: with automatic prefixing, the derived prefix and the
      fragment unchanged; without it, the fragment alone. */
  function RoutePath(className: string, fragment: string, autoViewPath: bool): (path: string)
    ensures !autoViewPath ==> path == fragment
    ensures autoViewPath ==> PrefixedBy(path, fragment)
  {
    if autoViewPath then
      DerivePrefixShape(className);
      PrefixedPathShape(DerivePrefix(className), fragment);
      "/" + DerivePrefix(className) + fragment
    else fragment
  }

  lemma PrefixedPathShape(pre: string, fragment: string)
    requires forall i :: 0 <= i < |pre| ==> !IsUpper(pre[i])
    requires |pre| > 0 ==> pre[0] != '_' && pre[|pre| - 1] != '_'
    ensures PrefixedBy("/" + pre + fragment, fragment)
  {
    var path := "/" + pre + fragment;
    assert forall i :: 1 <= i < |path| - |fragment| ==> path[i] == pre[i - 1];
    assert path[|path| - |fragment|..] == fragment;
  }

  // ---------------------------------------------------------------------
  // The scans insert `_` exactly where a match starts.

  lemma {:induction false} InsertMarksAppend(x: string, y: string, mx: seq<bool>, my: seq<bool>)
    requires |mx| == |x| && |my| == |y|
    ensures InsertMarks(x + y, mx + my) == InsertMarks(x, mx) + InsertMarks(y, my)
  {
    if |x| == 0 {
      assert x + y == y && mx + my == my;
    } else {
      assert (x + y)[0] == x[0] && (x + y)[1..] == x[1..] + y;
      assert (mx + my)[0] == mx[0] && (mx + my)[1..] == mx[1..] + my;
      InsertMarksAppend(x[1..], y, mx[1..], my);
    }
  }

  lemma {:induction false} InsertNoMarks(s: string, marks: seq<bool>)
    requires |marks| == |s|
    requires forall i :: 0 <= i < |s| ==> !marks[i]
    ensures InsertMarks(s, marks) == s
  {
    if |s| > 0 {
      InsertNoMarks(s[1..], marks[1..]);
      assert s == [s[0]] + s[1..];
    }
  }

  /** One underscore before a word, none inside it. */
  lemma InsertOneMark(s: string, marks: seq<bool>)
    requires |marks| == |s| && |s| > 0
    requires marks[0] && forall i :: 1 <= i < |s| ==> !marks[i]
    ensures InsertMarks(s, marks) == "_" + s
  {
    InsertNoMarks(s[1..], marks[1..]);
    assert s == [s[0]] + s[1..];
  }

  /** How far one step of the `[A-Z][a-z]+` scan reaches: the whole match, or one character. */
  function WordStep(s: string): (k: nat)
    requires |s| > 0
    ensures 1 <= k <= |s|
  {
    if |s| >= 2 && IsUpper(s[0]) && IsLower(s[1]) then 1 + LowerRun(s[1..]) else 1
  }

  /** How far one step of the `[A-Z]{2,}` scan reaches. */
  function RunStep(s: string): (k: nat)
    requires |s| > 0
    ensures 1 <= k <= |s|
  {
    if |s| >= 2 && IsUpper(s[0]) && IsUpper(s[1]) then UpperRun(s) else 1
  }

  /** A word mark depends only on what follows it. */
  lemma WordMarksTail(s: string, k: nat)
    requires k <= |s|
    ensures WordMarks(s)[k..] == WordMarks(s[k..])
  {
  }

  /** A run mark also looks one character back, which a step never splits. */
  lemma RunMarksTail(s: string)
    requires |s| > 0
    ensures RunMarks(s)[RunStep(s)..] == RunMarks(s[RunStep(s)..])
  {
    var k := RunStep(s);
    var m := RunMarks(s);
    var t := s[k..];
    forall i | 0 <= i < |t|
      ensures m[k + i] == RunMarks(t)[i]
    {
      assert s[k + i] == t[i];
      if i == 0 && k + 1 < |s| {
        assert !IsUpper(s[k]) || !IsUpper(s[k - 1]);
      }
    }
  }

  /** What the `[A-Z][a-z]+` scan writes for its first step. */
  lemma WordHead(s: string)
    requires |s| > 0
    ensures var k := WordStep(s);
      InsertMarks(s[..k], WordMarks(s)[..k]) == if k > 1 then "_" + s[..k] else s[..1]
  {
    var k := WordStep(s);
    var m := WordMarks(s);
    if k > 1 {
      forall i | 1 <= i < k
        ensures !m[..k][i]
      {
        assert s[1..][i - 1] == s[i];
      }
      InsertOneMark(s[..k], m[..k]);
    } else {
      assert InsertMarks(s[..1], m[..1]) == s[..1];
    }
  }

  /** What the `[A-Z]{2,}` scan writes for its first step. */
  lemma RunHead(s: string)
    requires |s| > 0
    ensures var k := RunStep(s);
      InsertMarks(s[..k], RunMarks(s)[..k]) == if k > 1 then "_" + s[..k] else s[..1]
  {
    var k := RunStep(s);
    var m := RunMarks(s);
    if k > 1 {
      InsertOneMark(s[..k], m[..k]);
    } else {
      assert InsertMarks(s[..1], m[..1]) == s[..1];
    }
  }

  lemma {:induction false} SplitWordsInsertsAtWordStarts(s: string)
    ensures SplitWords(s) == InsertMarks(s, WordMarks(s))
    decreases |s|
  {
    if |s| > 0 {
      var m := WordMarks(s);
      var k := WordStep(s);
      assert s == s[..k] + s[k..];
      assert m == m[..k] + m[k..];
      InsertMarksAppend(s[..k], s[k..], m[..k], m[k..]);
      WordMarksTail(s, k);
      SplitWordsInsertsAtWordStarts(s[k..]);
      WordHead(s);
    }
  }

  lemma {:induction false} SplitCapitalRunsInsertsAtRunStarts(s: string)
    ensures SplitCapitalRuns(s) == InsertMarks(s, RunMarks(s))
    decreases |s|
  {
    if |s| > 0 {
      var m := RunMarks(s);
      var k := RunStep(s);
      assert s == s[..k] + s[k..];
      assert m == m[..k] + m[k..];
      InsertMarksAppend(s[..k], s[k..], m[..k], m[k..]);
      RunMarksTail(s);
      SplitCapitalRunsInsertsAtRunStarts(s[k..]);
      RunHead(s);
    }
  }

  // ---------------------------------------------------------------------
  // What derivation keeps: the letters of the name, lower-cased.

  /** `s` without its underscores. */
  function Letters(s: string): (r: string)
    ensures forall c :: c in r ==> c in s && c != '_'
  {
    if |s| == 0 then []
    else (if s[0] == '_' then [] else [s[0]]) + Letters(s[1..])
  }

  lemma {:induction false} LettersAppend(x: string, y: string)
    ensures Letters(x + y) == Letters(x) + Letters(y)
  {
    if |x| == 0 {
      assert x + y == y;
    } else {
      assert (x + y)[0] == x[0] && (x + y)[1..] == x[1..] + y;
      LettersAppend(x[1..], y);
    }
  }

  lemma {:induction false} LettersOfInsertMarks(s: string, marks: seq<bool>)
    requires |marks| == |s|
    ensures Letters(InsertMarks(s, marks)) == Letters(s)
  {
    if |s| > 0 {
      var head := (if marks[0] then "_" else "") + [s[0]];
      LettersAppend(head, InsertMarks(s[1..], marks[1..]));
      LettersOfInsertMarks(s[1..], marks[1..]);
      if marks[0] {
        LettersAppend("_", [s[0]]);
      }
    }
  }

  lemma {:induction false} LettersOfLower(s: string)
    ensures Letters(Lower(s)) == Lower(Letters(s))
  {
    if |s| > 0 {
      LettersOfLower(s[1..]);
      assert Lower(s)[1..] == Lower(s[1..]);
      var h := if s[0] == '_' then [] else [s[0]];
      LowerAppend(h, Letters(s[1..]));
    }
  }

  lemma {:induction false} LettersOfTrimStart(s: string)
    ensures Letters(TrimStart(s, IsUnderscore)) == Letters(s)
  {
    if |s| > 0 && IsUnderscore(s[0]) {
      LettersOfTrimStart(s[1..]);
    }
  }

  lemma {:induction false} LettersOfTrimEnd(s: string)
    ensures Letters(TrimEnd(s, IsUnderscore)) == Letters(s)
  {
    if |s| > 0 && IsUnderscore(s[|s| - 1]) {
      var p := s[..|s| - 1];
      assert s == p + [s[|s| - 1]];
      LettersAppend(p, [s[|s| - 1]]);
      LettersOfTrimEnd(p);
    }
  }

  /** Derivation only inserts and trims underscores and lower-cases:
      the letters of the prefix are those of the suffix-less class name. */
  lemma DerivePrefixKeepsLetters(name: string)
    ensures Letters(DerivePrefix(name)) == Lower(Letters(StripViewSetSuffix(name)))
  {
    var a := StripViewSetSuffix(name);
    var b := SplitWords(a);
    var c := SplitCapitalRuns(b);
    SplitWordsInsertsAtWordStarts(a);
    LettersOfInsertMarks(a, WordMarks(a));
    SplitCapitalRunsInsertsAtRunStarts(b);
    LettersOfInsertMarks(b, RunMarks(b));
    LettersOfLower(c);
    LettersOfTrimStart(Lower(c));
    LettersOfTrimEnd(TrimStart(Lower(c), IsUnderscore));
  }

  /** A name that is already a derived prefix, and does not itself end in
      `viewset`/`viewsets`, derives to itself. */
  lemma DerivePrefixFixesPlainNames(p: string)
    requires forall i :: 0 <= i < |p| ==> !IsUpper(p[i])
    requires |p| > 0 ==> p[0] != '_' && p[|p| - 1] != '_'
    requires !HasViewSetSuffix(p)
    ensures DerivePrefix(p) == p
  {
    SplitWordsInsertsAtWordStarts(p);
    InsertNoMarks(p, WordMarks(p));
    SplitCapitalRunsInsertsAtRunStarts(p);
    InsertNoMarks(p, RunMarks(p));
    LowerIsPointwise(p);
    assert Lower(p) == p;
    if |p| > 0 {
      assert TrimStart(p, IsUnderscore) == p;
      assert TrimEnd(p, IsUnderscore) == p;
    }
  }
}

/** Class names written as capitalised words followed by a `ViewSet`
    suffix: they derive to the words in snake case. */
module PrefixOfWords {
  import opened Text
  import opened Prefix

  /** A capital followed by one or more small letters: one `[A-Z][a-z]+` match. */
  predicate IsCapitalizedWord(w: string)
  {
    |w| >= 2 && IsUpper(w[0]) && forall i :: 1 <= i < |w| ==> IsLower(w[i])
  }

  predicate AllCapitalized(words: seq<string>)
  {
    forall i :: 0 <= i < |words| ==> IsCapitalizedWord(words[i])
  }

  function Concat(words: seq<string>): string
  {
    if |words| == 0 then [] else words[0] + Concat(words[1..])
  }

  /** Every word preceded by `_`. */
  function Underscored(words: seq<string>): string
  {
    if |words| == 0 then [] else "_" + words[0] + Underscored(words[1..])
  }

  /** The words lower-cased and joined with `_`. */
  function SnakeCase(words: seq<string>): string
    requires |words| > 0
  {
    if |words| == 1 then Lower(words[0]) else Lower(words[0]) + "_" + SnakeCase(words[1..])
  }

  /** No two capitals in a row: `[A-Z]{2,}` never matches. */
  predicate NoCapitalPair(s: string)
  {
    forall i :: 0 <= i < |s| - 1 ==> !(IsUpper(s[i]) && IsUpper(s[i + 1]))
  }

  /** Dropping a seven-letter `viewset` suffix, whatever its case. */
  lemma StripSevenLetterSuffix(x: string, suffix: string)
    requires |suffix| == 7 && Lower(suffix) == "viewset"
    ensures StripViewSetSuffix(x + suffix) == x
  {
    var n := x + suffix;
    assert n[|n| - 7..] == suffix;
    if |n| >= 8 {
      LowerIsPointwise(n[|n| - 8..]);
      LowerIsPointwise(suffix);
      assert Lower(n[|n| - 8..])[7] == Lower(suffix)[6];
    }
    assert n[..|n| - 7] == x;
  }

  lemma LowerRunIs(s: string, k: nat)
    requires k <= |s|
    requires forall i :: 0 <= i < k ==> IsLower(s[i])
    requires k < |s| ==> !IsLower(s[k])
    ensures LowerRun(s) == k
    decreases k
  {
    if k > 0 {
      LowerRunIs(s[1..], k - 1);
    }
  }

  lemma {:induction false} SplitWordsOfWords(words: seq<string>)
    requires AllCapitalized(words)
    ensures SplitWords(Concat(words)) == Underscored(words)
  {
    if |words| > 0 {
      var w := words[0];
      var rest := Concat(words[1..]);
      var s := w + rest;
      assert IsCapitalizedWord(w);
      if |words| > 1 {
        assert IsCapitalizedWord(words[1]);
        assert rest[0] == words[1][0];
      }
      assert s[1..][..|w| - 1] == w[1..];
      LowerRunIs(s[1..], |w| - 1);
      assert s[..|w|] == w && s[|w|..] == rest;
      assert AllCapitalized(words[1..]) by {
        forall i | 0 <= i < |words[1..]|
          ensures IsCapitalizedWord(words[1..][i])
        {
          assert words[1..][i] == words[i + 1];
        }
      }
      SplitWordsOfWords(words[1..]);
    }
  }

  lemma NoCapitalPairAppend(x: string, y: string)
    requires NoCapitalPair(x) && NoCapitalPair(y)
    requires |x| > 0 ==> !IsUpper(x[|x| - 1])
    ensures NoCapitalPair(x + y)
  {
    var s := x + y;
    forall i | 0 <= i < |s| - 1
      ensures !(IsUpper(s[i]) && IsUpper(s[i + 1]))
    {
      if i + 1 < |x| {
      } else if i + 1 == |x| {
      } else {
        assert s[i] == y[i - |x|] && s[i + 1] == y[i - |x| + 1];
      }
    }
  }

  lemma {:induction false} UnderscoredHasNoCapitalPair(words: seq<string>)
    requires AllCapitalized(words)
    ensures NoCapitalPair(Underscored(words))
  {
    if |words| > 0 {
      var w := words[0];
      assert IsCapitalizedWord(w);
      var head := "_" + w;
      assert NoCapitalPair(head) by {
        forall i | 0 <= i < |head| - 1
          ensures !(IsUpper(head[i]) && IsUpper(head[i + 1]))
        {
          if i > 0 {
            assert head[i + 1] == w[i];
          }
        }
      }
      assert head[|head| - 1] == w[|w| - 1];
      assert AllCapitalized(words[1..]) by {
        forall i | 0 <= i < |words[1..]|
          ensures IsCapitalizedWord(words[1..][i])
        {
          assert words[1..][i] == words[i + 1];
        }
      }
      UnderscoredHasNoCapitalPair(words[1..]);
      NoCapitalPairAppend(head, Underscored(words[1..]));
      assert Underscored(words) == head + Underscored(words[1..]);
    }
  }

  lemma SplitCapitalRunsKeeps(s: string)
    requires NoCapitalPair(s)
    ensures SplitCapitalRuns(s) == s
  {
    SplitCapitalRunsInsertsAtRunStarts(s);
    var m := RunMarks(s);
    forall i | 0 <= i < |s|
      ensures !m[i]
    {
      if i + 1 < |s| {
        assert !(IsUpper(s[i]) && IsUpper(s[i + 1]));
      }
    }
    InsertNoMarks(s, m);
  }

  lemma {:induction false} LowerOfUnderscored(words: seq<string>)
    requires |words| > 0
    ensures Lower(Underscored(words)) == "_" + SnakeCase(words)
  {
    var w := words[0];
    var head := "_" + w;
    var tail := Underscored(words[1..]);
    assert Underscored(words) == head + tail;
    LowerAppend(head, tail);
    LowerAppend("_", w);
    assert Lower("_") == "_";
    assert Lower(head) == "_" + Lower(w);
    if |words| > 1 {
      LowerOfUnderscored(words[1..]);
      assert Lower(tail) == "_" + SnakeCase(words[1..]);
      assert SnakeCase(words) == Lower(w) + "_" + SnakeCase(words[1..]);
    } else {
      assert tail == [];
      assert Lower(tail) == [];
    }
  }

  lemma {:induction false} SnakeCaseEnds(words: seq<string>)
    requires |words| > 0 && AllCapitalized(words)
    ensures var s := SnakeCase(words); |s| > 0 && IsLower(s[0]) && IsLower(s[|s| - 1])
  {
    var w := words[0];
    assert IsCapitalizedWord(w);
    LowerIsPointwise(w);
    if |words| > 1 {
      assert AllCapitalized(words[1..]) by {
        forall i | 0 <= i < |words[1..]|
          ensures IsCapitalizedWord(words[1..][i])
        {
          assert words[1..][i] == words[i + 1];
        }
      }
      SnakeCaseEnds(words[1..]);
    }
  }

  /** A name made of capitalised words and a seven-letter `viewset` suffix
      (in any case) derives to its words in snake case. */
  lemma PascalNameDerivesSnakeCase(words: seq<string>, suffix: string)
    requires |words| > 0 && AllCapitalized(words)
    requires |suffix| == 7 && Lower(suffix) == "viewset"
    ensures DerivePrefix(Concat(words) + suffix) == SnakeCase(words)
  {
    var name := Concat(words) + suffix;
    var u := Underscored(words);
    var s := SnakeCase(words);
    StripSevenLetterSuffix(Concat(words), suffix);
    SplitWordsOfWords(words);
    UnderscoredHasNoCapitalPair(words);
    SplitCapitalRunsKeeps(u);
    assert SplitCapitalRuns(SplitWords(StripViewSetSuffix(name))) == u;
    LowerOfUnderscored(words);
    SnakeCaseEnds(words);
    TrimSnake(s);
  }

  lemma TrimSnake(s: string)
    requires |s| > 0 && IsLower(s[0]) && IsLower(s[|s| - 1])
    ensures Trim("_" + s, IsUnderscore) == s
  {
    assert ("_" + s)[1..] == s;
    assert TrimStart("_" + s, IsUnderscore) == s;
    assert TrimEnd(s, IsUnderscore) == s;
  }
}
