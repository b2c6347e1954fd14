/** The string operations the merger and the release scripts rely on, with
    Python's meaning: `str.split` on one character, `str.join`,
    `str.strip`, the `in` substring test, `str.replace` of one character,
    `str.count` of one character, and the built-in ordering on strings that
    `sorted` uses (lexicographic by code point, a proper prefix first). */
module Text {

  // ---------------------------------------------------------------------
  // Whitespace and strip
  // ---------------------------------------------------------------------

  /** The characters `str.isspace` accepts, and so `str.strip()` removes:
      the ASCII controls 9-13 and 28-31, the space, NEL, the no-break
      space, the Ogham space mark, the spaces U+2000 to U+200A, the line
      and paragraph separators, the narrow no-break space, the medium
      mathematical space and the ideographic space. */
  predicate IsWhitespace(c: char) {
    || c in {' ', '\t', '\n', '\r', '\U{000B}', '\U{000C}', '\U{001C}', '\U{001D}',
             '\U{001E}', '\U{001F}', '\U{0085}', '\U{00A0}', '\U{1680}',
             '\U{2028}', '\U{2029}', '\U{202F}', '\U{205F}', '\U{3000}'}
    || '\U{2000}' <= c <= '\U{200A}'
  }

  predicate AllWhitespace(s: string) {
    forall i :: 0 <= i < |s| ==> IsWhitespace(s[i])
  }

  /** `str.strip()`: whitespace removed from both ends, nothing else. */
  function Strip(s: string): (r: string)
    ensures |r| <= |s|
    decreases |s|
  {
    if s == [] then s
    else if IsWhitespace(s[0]) then Strip(s[1..])
    else if IsWhitespace(s[|s| - 1]) then Strip(s[..|s| - 1])
    else s
  }

  /** Stripping leaves nothing exactly when the text is all whitespace,
      and what it leaves neither starts nor ends with whitespace. */
  lemma {:induction false} StripBlank(s: string)
    ensures Strip(s) == [] <==> AllWhitespace(s)
    ensures Strip(s) != [] ==> !IsWhitespace(Strip(s)[0]) && !IsWhitespace(Strip(s)[|Strip(s)| - 1])
    decreases |s|
  {
    if s != [] {
      if IsWhitespace(s[0]) {
        StripBlank(s[1..]);
        if AllWhitespace(s[1..]) {
          forall i | 1 <= i < |s| ensures IsWhitespace(s[i]) { assert s[i] == s[1..][i - 1]; }
        }
      } else if IsWhitespace(s[|s| - 1]) {
        StripBlank(s[..|s| - 1]);
        assert s[..|s| - 1][0] == s[0];
      }
    }
  }

  /** What is kept is a stretch of the original text, starting at `i`,
      and what is cut off on either side is whitespace only. */
  lemma {:induction false} StripSlice(s: string) returns (i: nat)
    ensures i + |Strip(s)| <= |s| && Strip(s) == s[i..i + |Strip(s)|]
    ensures forall k :: 0 <= k < i ==> IsWhitespace(s[k])
    ensures forall k :: i + |Strip(s)| <= k < |s| ==> IsWhitespace(s[k])
    decreases |s|
  {
    var r := Strip(s);
    if s == [] {
      i := 0;
    } else if IsWhitespace(s[0]) {
      var t := s[1..];
      var j := StripSlice(t);
      i := j + 1;
      assert r == t[j..j + |r|] == s[i..i + |r|];
      forall k | 0 < k < |s| ensures s[k] == t[k - 1] { }
    } else if IsWhitespace(s[|s| - 1]) {
      var t := s[..|s| - 1];
      i := StripSlice(t);
      assert r == t[i..i + |r|] == s[i..i + |r|];
      forall k | 0 <= k < |t| ensures s[k] == t[k] { }
    } else {
      i := 0;
    }
  }

  // ---------------------------------------------------------------------
  // Split and join
  // ---------------------------------------------------------------------

  /** `s.split(sep)` for a one-character separator: never empty, and
      `"a;;b"` gives `["a", "", "b"]`, `""` gives `[""]`. */
  function Split(s: string, sep: char): (r: seq<string>)
    ensures |r| >= 1
  {
    if s == [] then [""]
    else
      var rest := Split(s[1..], sep);
      if s[0] == sep then [""] + rest
      else [[s[0]] + rest[0]] + rest[1..]
  }

  /** `sep.join(parts)`. */
  function Join(sep: string, parts: seq<string>): string
  {
    if |parts| == 0 then ""
    else if |parts| == 1 then parts[0]
    else parts[0] + sep + Join(sep, parts[1..])
  }

  /** Joining the pieces of a split restores the string. */
  lemma {:induction false} JoinSplit(s: string, sep: char)
    ensures Join([sep], Split(s, sep)) == s
  {
    if s != [] {
      var rest := Split(s[1..], sep);
      JoinSplit(s[1..], sep);
      if s[0] == sep {
        assert Split(s, sep) == [""] + rest;
        assert (([""] + rest)[1..]) == rest;
        assert s == [sep] + s[1..];
      } else if |rest| == 1 {
        assert s == [s[0]] + s[1..];
      } else {
        var parts := Split(s, sep);
        assert parts[1..] == rest[1..];
        assert Join([sep], rest) == rest[0] + [sep] + Join([sep], rest[1..]);
        assert s == [s[0]] + s[1..];
      }
    }
  }

  /** One step of `Split`. */
  lemma SplitCons(c: char, t: string, sep: char)
    ensures Split([c] + t, sep) ==
      if c == sep then [""] + Split(t, sep) else [[c] + Split(t, sep)[0]] + Split(t, sep)[1..]
  {
    assert ([c] + t)[1..] == t;
  }

  /** Splitting a string that starts with a separator-free piece. */
  lemma {:induction false} SplitAfterPiece(a: string, b: string, sep: char)
    requires sep !in a
    ensures Split(a + b, sep) == [a + Split(b, sep)[0]] + Split(b, sep)[1..]
  {
    var sb := Split(b, sep);
    if a == [] {
      assert a + b == b;
      assert a + sb[0] == sb[0];
      assert sb == [sb[0]] + sb[1..];
    } else {
      assert a[0] != sep by { assert a[0] in a; }
      SplitAfterPiece(a[1..], b, sep);
      assert a + b == [a[0]] + (a[1..] + b);
      SplitCons(a[0], a[1..] + b, sep);
      assert [a[0]] + (a[1..] + sb[0]) == a + sb[0];
    }
  }

  /** Splitting what was joined gives back the parts, when no part holds
      the separator. */
  lemma {:induction false} SplitJoin(parts: seq<string>, sep: char)
    requires |parts| >= 1
    requires forall k :: 0 <= k < |parts| ==> sep !in parts[k]
    ensures Split(Join([sep], parts), sep) == parts
  {
    if |parts| == 1 {
      SplitAfterPiece(parts[0], "", sep);
      assert Split("", sep) == [""];
      assert parts[0] + "" == parts[0];
      assert Split(parts[0], sep) == [parts[0]];
    } else {
      var tail := Join([sep], parts[1..]);
      SplitJoin(parts[1..], sep);
      SplitAfterPiece(parts[0], [sep] + tail, sep);
      assert Join([sep], parts) == parts[0] + ([sep] + tail);
      assert ([sep] + tail)[1..] == tail;
      assert Split([sep] + tail, sep) == [""] + parts[1..];
      assert ([""] + parts[1..])[1..] == parts[1..];
      assert parts[0] + "" == parts[0];
      assert parts == [parts[0]] + parts[1..];
    }
  }

  /** No piece of a split holds the separator. */
  lemma {:induction false} SplitPiecesFree(s: string, sep: char)
    ensures forall k :: 0 <= k < |Split(s, sep)| ==> sep !in Split(s, sep)[k]
  {
    if s != [] {
      SplitPiecesFree(s[1..], sep);
      SplitCons(s[0], s[1..], sep);
      assert s == [s[0]] + s[1..];
    }
  }

  /** Joining two non-empty lists of parts puts one separator between them. */
  lemma {:induction false} JoinAppend(sep: string, p: seq<string>, q: seq<string>)
    requires |p| >= 1 && |q| >= 1
    ensures Join(sep, p + q) == Join(sep, p) + sep + Join(sep, q)
  {
    if |p| == 1 {
      assert (p + q)[1..] == q;
    } else {
      JoinAppend(sep, p[1..], q);
      assert (p + q)[1..] == p[1..] + q;
    }
  }

  /** Splitting two strings joined by a separator splits each of them. */
  lemma SplitConcat(a: string, b: string, sep: char)
    ensures Split(a + [sep] + b, sep) == Split(a, sep) + Split(b, sep)
  {
    var pa, pb := Split(a, sep), Split(b, sep);
    JoinSplit(a, sep);
    JoinSplit(b, sep);
    JoinAppend([sep], pa, pb);
    SplitPiecesFree(a, sep);
    SplitPiecesFree(b, sep);
    forall k | 0 <= k < |pa + pb| ensures sep !in (pa + pb)[k] {
      if k >= |pa| {
        assert (pa + pb)[k] == pb[k - |pa|];
      }
    }
    SplitJoin(pa + pb, sep);
  }

  /** `s.split(c)` has one piece more than `s` has separators. */
  lemma {:induction false} SplitCount(s: string, sep: char)
    ensures |Split(s, sep)| == CountChar(s, sep) + 1
  {
    if s != [] {
      SplitCount(s[1..], sep);
    }
  }

  // ---------------------------------------------------------------------
  // Substrings, replacement, counting
  // ---------------------------------------------------------------------

  /** Python's `sub in s`. */
  predicate Contains(s: string, sub: string)
    decreases |s|
  {
    if |s| < |sub| then false
    else s[..|sub|] == sub || Contains(s[1..], sub)
  }

  /** `s.split(c)[-1]`: the text after the last occurrence of `c`, or
      all of `s` when `c` does not occur. */
  function AfterLast(s: string, c: char): (r: string)
    ensures c !in r
    ensures |r| <= |s| && r == s[|s| - |r|..]
    ensures c in s ==> |r| < |s| && s[|s| - |r| - 1] == c
    ensures c !in s ==> r == s
  {
    if s == [] then []
    else if s[|s| - 1] == c then []
    else
      var r' := AfterLast(s[..|s| - 1], c);
      assert s == s[..|s| - 1] + [s[|s| - 1]];
      assert c in s[..|s| - 1] ==> c in s;
      r' + [s[|s| - 1]]
  }

  /** `s.endswith(suffix)`. */
  predicate EndsWith(s: string, suffix: string) {
    |suffix| <= |s| && s[|s| - |suffix|..] == suffix
  }

  /** A string whose last character differs from the suffix's does not
      end with it. */
  lemma NotEndsWith(s: string, suffix: string)
    requires |s| > 0 && |suffix| > 0 && s[|s| - 1] != suffix[|suffix| - 1]
    ensures !EndsWith(s, suffix)
  {
    if |suffix| <= |s| {
      assert s[|s| - |suffix|..][|suffix| - 1] == s[|s| - 1];
    }
  }

  /** Appending a suffix makes a string end with it. */
  lemma EndsWithAppended(s: string, suffix: string)
    ensures EndsWith(s + suffix, suffix)
  {
    assert (s + suffix)[|s + suffix| - |suffix|..] == suffix;
  }

  /** `s.replace(old, new)` for single characters. */
  function ReplaceChar(s: string, from: char, to: char): (r: string)
    ensures |r| == |s|
    ensures forall i :: 0 <= i < |s| ==> r[i] == if s[i] == from then to else s[i]
  {
    if s == [] then [] else [if s[0] == from then to else s[0]] + ReplaceChar(s[1..], from, to)
  }

  /** `s.count(c)`. */
  function CountChar(s: string, c: char): (n: nat)
    ensures n <= |s|
    ensures n == 0 <==> c !in s
  {
    if s == [] then 0 else (if s[0] == c then 1 else 0) + CountChar(s[1..], c)
  }

  // ---------------------------------------------------------------------
  // The ordering `sorted` uses on strings
  // ---------------------------------------------------------------------

  /** Python's `a < b` on strings. */
  predicate Below(a: string, b: string) {
    if a == [] then b != []
    else b != [] && (a[0] < b[0] || (a[0] == b[0] && Below(a[1..], b[1..])))
  }

  predicate LessEq(a: string, b: string) {
    a == b || Below(a, b)
  }

  lemma {:induction false} BelowIrreflexive(a: string)
    ensures !Below(a, a)
  {
    if a != [] { BelowIrreflexive(a[1..]); }
  }

  lemma {:induction false} BelowTransitive(a: string, b: string, c: string)
    requires Below(a, b) && Below(b, c)
    ensures Below(a, c)
  {
    if a != [] && b != [] && c != [] && a[0] == b[0] == c[0] {
      BelowTransitive(a[1..], b[1..], c[1..]);
    }
  }

  lemma {:induction false} BelowTotal(a: string, b: string)
    ensures a == b || Below(a, b) || Below(b, a)
  {
    if a != [] && b != [] && a[0] == b[0] {
      BelowTotal(a[1..], b[1..]);
      if a[1..] == b[1..] {
        assert a == [a[0]] + a[1..] && b == [b[0]] + b[1..];
      }
    }
  }

  lemma BelowAsymmetric(a: string, b: string)
    requires Below(a, b)
    ensures !Below(b, a)
  {
    if Below(b, a) {
      BelowTransitive(a, b, a);
      BelowIrreflexive(a);
    }
  }

  predicate IsLeast(m: string, s: set<string>) {
    m in s && forall k :: k in s ==> LessEq(m, k)
  }

  predicate IsGreatest(m: string, s: set<string>) {
    m in s && forall k :: k in s ==> LessEq(k, m)
  }

  lemma {:induction false} ExtremesExist(s: set<string>)
    requires s != {}
    ensures exists m :: IsLeast(m, s)
    ensures exists m :: IsGreatest(m, s)
  {
    var x :| x in s;
    if s == {x} {
      assert IsLeast(x, s) && IsGreatest(x, s);
    } else {
      var s' := s - {x};
      ExtremesExist(s');
      var lo :| IsLeast(lo, s');
      var hi :| IsGreatest(hi, s');
      BelowTotal(x, lo);
      BelowTotal(x, hi);
      if Below(x, lo) {
        forall k | k in s ensures LessEq(x, k) {
          if k != x && k != lo { assert k in s'; BelowTransitive(x, lo, k); }
        }
        assert IsLeast(x, s);
      } else {
        assert IsLeast(lo, s);
      }
      if Below(hi, x) {
        forall k | k in s ensures LessEq(k, x) {
          if k != x && k != hi { assert k in s'; BelowTransitive(k, hi, x); }
        }
        assert IsGreatest(x, s);
      } else {
        assert IsGreatest(hi, s);
      }
    }
  }

  lemma LeastUnique(m: string, n: string, s: set<string>)
    requires IsLeast(m, s) && IsLeast(n, s)
    ensures m == n
  {
    if m != n { BelowAsymmetric(m, n); }
  }

  lemma GreatestUnique(m: string, n: string, s: set<string>)
    requires IsGreatest(m, s) && IsGreatest(n, s)
    ensures m == n
  {
    if m != n { BelowAsymmetric(m, n); }
  }

  /** The first element of `sorted(s)`. */
  function Least(s: set<string>): (m: string)
    requires s != {}
    ensures IsLeast(m, s)
  {
    ExtremesExist(s);
    var m :| IsLeast(m, s);
    forall n | IsLeast(n, s) ensures n == m { LeastUnique(m, n, s); }
    m
  }

  /** The last element of `sorted(s)`. */
  function Greatest(s: set<string>): (m: string)
    requires s != {}
    ensures IsGreatest(m, s)
  {
    ExtremesExist(s);
    var m :| IsGreatest(m, s);
    forall n | IsGreatest(n, s) ensures n == m { GreatestUnique(m, n, s); }
    m
  }

  predicate Sorted(s: seq<string>) {
    forall i, j :: 0 <= i < j < |s| ==> LessEq(s[i], s[j])
  }

  function Insert(x: string, s: seq<string>): (r: seq<string>)
    requires Sorted(s)
    ensures Sorted(r)
    ensures multiset(r) == multiset(s) + multiset{x}
  {
    if s == [] then [x]
    else if LessEq(x, s[0]) then
      assert forall k :: 0 <= k < |s| ==> LessEq(x, s[k]) by {
        forall k | 0 <= k < |s| ensures LessEq(x, s[k]) {
          if x != s[0] && s[0] != s[k] { BelowTransitive(x, s[0], s[k]); }
        }
      }
      [x] + s
    else
      BelowTotal(x, s[0]);
      var r' := Insert(x, s[1..]);
      assert s == [s[0]] + s[1..];
      assert forall k :: 0 <= k < |r'| ==> LessEq(s[0], r'[k]) by {
        forall k | 0 <= k < |r'| ensures LessEq(s[0], r'[k]) {
          assert r'[k] in multiset(r');
          assert r'[k] == x || r'[k] in multiset(s[1..]);
          if r'[k] != x {
            var j :| 0 <= j < |s[1..]| && s[1..][j] == r'[k];
            assert s[j + 1] == r'[k];
          }
        }
      }
      [s[0]] + r'
  }

  /** `sorted(s)`: the elements of `s` in ascending order. */
  function Sort(s: seq<string>): (r: seq<string>)
    ensures Sorted(r)
    ensures multiset(r) == multiset(s)
  {
    if s == [] then []
    else
      assert s == [s[0]] + s[1..];
      Insert(s[0], Sort(s[1..]))
  }

  /** `sorted(s)` for a set: its elements, each once, in ascending order. */
  function Ordered(s: set<string>): (r: seq<string>)
    ensures forall x :: x in r <==> x in s
    ensures |r| == |s|
    ensures forall i, j :: 0 <= i < j < |r| ==> Below(r[i], r[j])
    decreases |s|
  {
    if s == {} then []
    else
      var m := Least(s);
      var rest := Ordered(s - {m});
      assert forall j :: 0 <= j < |rest| ==> Below(m, rest[j]) by {
        forall j | 0 <= j < |rest| ensures Below(m, rest[j]) {
          assert rest[j] in s - {m};
        }
      }
      [m] + rest
  }

  /** Strictly ascending sequences hold each element once. */
  lemma OrderedDistinct(s: set<string>, i: nat, j: nat)
    requires i < j < |Ordered(s)|
    ensures Ordered(s)[i] != Ordered(s)[j]
  {
    BelowIrreflexive(Ordered(s)[i]);
  }
}
