/**
  The Python 2 string built-ins the modelled scripts rely on: `int()` of a
  decimal slice, clamped slicing, `"%0Nd"` formatting, `s.split('.')[0]`,
  `str.startswith`, `os.path.join` and the ordering used by `sorted` on
  strings. Only ASCII digits are digits, as for byte strings in Python 2.
 */
module PyText {
  import opened Wrappers

  predicate IsDigit(c: char) { '0' <= c <= '9' }

  predicate AllDigits(s: string) { forall i :: 0 <= i < |s| ==> IsDigit(s[i]) }

  function DigitValue(c: char): nat
    requires IsDigit(c)
  {
    (c as int) - ('0' as int)
  }

  function DigitChar(d: nat): (c: char)
    requires d < 10
    ensures IsDigit(c) && DigitValue(c) == d
  {
    (('0' as int) + d) as char
  }

  /** The number a string of decimal digits denotes (most significant digit first). */
  function Value(s: string): nat
    requires AllDigits(s)
  {
    if s == [] then 0 else Value(s[..|s| - 1]) * 10 + DigitValue(s[|s| - 1])
  }

  function Pow10(w: nat): (p: nat)
    ensures p >= 1
  {
    if w == 0 then 1 else 10 * Pow10(w - 1)
  }

  /** Whitespace as Python's `int()` skips it: space, tab, newline, vertical tab, form feed, return. */
  predicate IsSpace(c: char) { c == ' ' || 9 <= c as int <= 13 }

  function StripLeft(s: string): (r: string)
    ensures |r| <= |s|
  {
    if s != [] && IsSpace(s[0]) then StripLeft(s[1..]) else s
  }

  function StripRight(s: string): (r: string)
    ensures |r| <= |s|
  {
    if s != [] && IsSpace(s[|s| - 1]) then StripRight(s[..|s| - 1]) else s
  }

  /**
    `int(s)` for a base-10 string: surrounding whitespace, an optional sign and
    at least one digit; anything else raises ValueError (None here).
   */
  function PyInt(s: string): (r: Option<int>)
    ensures AllDigits(s) && s != [] ==> r == Some(Value(s))
  {
    var t := StripRight(StripLeft(s));
    if t != [] && (t[0] == '+' || t[0] == '-') then
      if |t| > 1 && AllDigits(t[1..]) then
        var v: int := Value(t[1..]);
        Some(if t[0] == '-' then -v else v)
      else None
    else if t != [] && AllDigits(t) then Some(Value(t))
    else None
  }

  lemma {:induction false} Pow10Monotone(a: nat, b: nat)
    requires a <= b
    ensures Pow10(a) <= Pow10(b)
    decreases b
  {
    if a < b { Pow10Monotone(a, b - 1); }
  }

  /** w digits denote less than 10^w. */
  lemma {:induction false} ValueBound(s: string)
    requires AllDigits(s)
    ensures Value(s) < Pow10(|s|)
  {
    if s != [] {
      var init := s[..|s| - 1];
      assert AllDigits(init);
      ValueBound(init);
    }
  }

  /** What `int()` reads from a string of length w lies strictly between -10^w and 10^w. */
  lemma PyIntBound(s: string)
    requires PyInt(s).Some?
    ensures -(Pow10(|s|) as int) < PyInt(s).value < Pow10(|s|)
  {
    var t := StripRight(StripLeft(s));
    if t != [] && (t[0] == '+' || t[0] == '-') {
      ValueBound(t[1..]);
      Pow10Monotone(|t| - 1, |s|);
    } else {
      ValueBound(t);
      Pow10Monotone(|t|, |s|);
    }
  }

  /** `s[i:j]` for non-negative bounds: both ends are clamped to the length. */
  function Slice(s: string, i: nat, j: nat): (r: string)
    ensures j <= |s| && i <= j ==> r == s[i..j]
    ensures |r| <= if j < i then 0 else j - i
  {
    var lo := if i < |s| then i else |s|;
    var hi := if j < |s| then j else |s|;
    if hi < lo then [] else s[lo..hi]
  }

  /** `"%0*d" % (w, n)` for n >= 0: the decimal digits of n, zero-padded on the left to at least w characters. */
  function Pad(n: nat, w: nat): string
    decreases n + w
  {
    if n < 10 && w <= 1 then [DigitChar(n)]
    else Pad(n / 10, if w > 0 then w - 1 else 0) + [DigitChar(n % 10)]
  }

  /** The number of decimal digits of n ("%d" % n). */
  function NumDigits(n: nat): (k: nat)
    ensures k >= 1
  {
    if n < 10 then 1 else NumDigits(n / 10) + 1
  }

  /** Padding never changes the number a formatted string denotes. */
  lemma {:induction false} PadValue(n: nat, w: nat)
    ensures AllDigits(Pad(n, w)) && Value(Pad(n, w)) == n
    decreases n + w
  {
    var p := Pad(n, w);
    if n < 10 && w <= 1 {
      assert p[..|p| - 1] == [];
    } else {
      var w' := if w > 0 then w - 1 else 0;
      PadValue(n / 10, w');
      assert p[..|p| - 1] == Pad(n / 10, w');
    }
  }

  /** A number below 10^w is printed in exactly w characters. */
  lemma {:induction false} PadLength(n: nat, w: nat)
    requires w >= 1 && n < Pow10(w)
    ensures |Pad(n, w)| == w
    decreases w
  {
    if !(n < 10 && w <= 1) {
      PadLength(n / 10, w - 1);
    }
  }

  /** A number at least w digits wide is printed without padding. */
  lemma {:induction false} PadWide(n: nat, w: nat)
    requires w <= NumDigits(n)
    ensures Pad(n, w) == Pad(n, 0)
    decreases n
  {
    if n >= 10 {
      PadWide(n / 10, if w > 0 then w - 1 else 0);
      PadWide(n / 10, 0);
    }
  }

  /** A number of at least 10^k has more than k digits. */
  lemma {:induction false} NumDigitsLower(n: nat, k: nat)
    requires n >= Pow10(k)
    ensures NumDigits(n) >= k + 1
  {
    if k > 0 {
      NumDigitsLower(n / 10, k - 1);
    }
  }

  /** `s.split('.')[0]`: everything before the first '.'. */
  function BeforeDot(s: string): (r: string)
    ensures r <= s && '.' !in r
    ensures |r| < |s| ==> s[|r|] == '.'
  {
    if s == [] || s[0] == '.' then [] else [s[0]] + BeforeDot(s[1..])
  }

  lemma {:induction false} BeforeDotNoDot(s: string, rest: string)
    requires '.' !in s
    ensures BeforeDot(s + "." + rest) == s
  {
    if s != [] {
      assert (s + "." + rest)[1..] == s[1..] + "." + rest;
      BeforeDotNoDot(s[1..], rest);
    } else {
      assert (s + "." + rest)[0] == '.';
    }
  }

  predicate StartsWith(s: string, prefix: string) { prefix <= s }

  /** `os.path.join(a, b)` (posixpath): an absolute b replaces a; otherwise one '/' separates them. */
  function Join(a: string, b: string): string
  {
    if b != [] && b[0] == '/' then b
    else if a == [] || a[|a| - 1] == '/' then a + b
    else a + "/" + b
  }

  /** A path segment that is neither empty nor contains a '/'. */
  predicate Segment(s: string) { s != [] && '/' !in s }

  /** `os.path.join(a, b, c)` over plain segments is `a/b/c`. */
  lemma JoinPlain(a: string, b: string, c: string)
    requires Segment(a) && Segment(b) && Segment(c)
    ensures Join(Join(a, b), c) == a + "/" + b + "/" + c
  {
    assert b[0] in b && c[0] in c && a[|a| - 1] in a;
    var ab := a + "/" + b;
    assert ab[|ab| - 1] == b[|b| - 1] && b[|b| - 1] in b;
  }

  /** The position of the first c in s, or |s| when there is none. */
  function FirstIndex(s: string, c: char): (k: nat)
    ensures k <= |s|
  {
    if s == [] || s[0] == c then 0 else 1 + FirstIndex(s[1..], c)
  }

  lemma {:induction false} FirstSlash(a: string, b: string)
    requires '/' !in a
    ensures FirstIndex(a + "/" + b, '/') == |a|
  {
    if a != [] {
      assert (a + "/" + b)[0] == a[0] && a[0] in a;
      assert (a + "/" + b)[1..] == a[1..] + "/" + b;
      FirstSlash(a[1..], b);
    }
  }

  /** A path `a/b` with a free of '/' splits uniquely at its first '/'. */
  lemma SplitUnique(a1: string, b1: string, a2: string, b2: string)
    requires '/' !in a1 && '/' !in a2
    requires a1 + "/" + b1 == a2 + "/" + b2
    ensures a1 == a2 && b1 == b2
  {
    FirstSlash(a1, b1);
    FirstSlash(a2, b2);
    var s1, s2 := a1 + "/" + b1, a2 + "/" + b2;
    assert s1[..|a1|] == a1 && s2[..|a2|] == a2;
    assert s1[|a1| + 1..] == b1 && s2[|a2| + 1..] == b2;
  }

  /** `a < b` on Python strings: lexicographic by character code, a proper prefix first. */
  predicate Less(a: string, b: string)
  {
    if a == [] then b != []
    else if b == [] then false
    else if a[0] != b[0] then a[0] < b[0]
    else Less(a[1..], b[1..])
  }

  lemma {:induction false} LessIrreflexive(a: string)
    ensures !Less(a, a)
  {
    if a != [] { LessIrreflexive(a[1..]); }
  }

  lemma {:induction false} LessTransitive(a: string, b: string, c: string)
    requires Less(a, b) && Less(b, c)
    ensures Less(a, c)
  {
    if a != [] && b != [] && c != [] && a[0] == b[0] && b[0] == c[0] {
      LessTransitive(a[1..], b[1..], c[1..]);
    }
  }

  lemma {:induction false} LessTotal(a: string, b: string)
    requires a != b
    ensures Less(a, b) || Less(b, a)
  {
    if a != [] && b != [] && a[0] == b[0] {
      assert a == [a[0]] + a[1..] && b == [b[0]] + b[1..];
      LessTotal(a[1..], b[1..]);
    }
  }

  /** Strictly increasing: sorted and free of duplicates. */
  predicate StrictlySorted(s: seq<string>)
  {
    forall i, j :: 0 <= i < j < |s| ==> Less(s[i], s[j])
  }

  /** Inserts x into a strictly sorted list unless it is already there. */
  function Insert(s: seq<string>, x: string): (r: seq<string>)
    requires StrictlySorted(s)
    ensures StrictlySorted(r)
    ensures forall y :: y in r <==> y in s || y == x
  {
    if s == [] then [x]
    else if x == s[0] then s
    else if Less(x, s[0]) then
      assert forall j :: 0 < j < |s| ==> Less(x, s[j]) by {
        forall j | 0 < j < |s| ensures Less(x, s[j]) { LessTransitive(x, s[0], s[j]); }
      }
      [x] + s
    else
      LessTotal(x, s[0]);
      var t := Insert(s[1..], x);
      assert forall y :: y in t ==> Less(s[0], y) by {
        forall y | y in t ensures Less(s[0], y) {
          if y != x { var j :| 0 <= j < |s[1..]| && s[1..][j] == y; assert s[j + 1] == y; }
        }
      }
      [s[0]] + t
  }

  /** A strictly sorted list is determined by its elements, so it is the one `sorted` returns. */
  lemma {:induction false} SortedUnique(a: seq<string>, b: seq<string>)
    requires StrictlySorted(a) && StrictlySorted(b)
    requires forall x :: x in a <==> x in b
    ensures a == b
  {
    assert a != [] ==> a[0] in b;
    assert b != [] ==> b[0] in a;
    if a != [] && b != [] {
      if a[0] != b[0] {
        var i :| 0 <= i < |a| && a[i] == b[0];
        var j :| 0 <= j < |b| && b[j] == a[0];
        LessTransitive(a[0], b[0], a[0]);
        LessIrreflexive(a[0]);
      }
      forall x ensures x in a[1..] <==> x in b[1..] {
        if x in a[1..] {
          var i' :| 0 <= i' < |a[1..]| && a[1..][i'] == x;
          assert a[i' + 1] == x;
          LessIrreflexive(x);
          assert Less(a[0], x);
          assert x in a;
          var j :| 0 <= j < |b| && b[j] == x;
          assert j != 0;
        }
        if x in b[1..] {
          var j' :| 0 <= j' < |b[1..]| && b[1..][j'] == x;
          assert b[j' + 1] == x;
          LessIrreflexive(x);
          assert Less(b[0], x);
          assert x in b;
          var i :| 0 <= i < |a| && a[i] == x;
          assert i != 0;
        }
      }
      SortedUnique(a[1..], b[1..]);
      assert a == [a[0]] + a[1..] && b == [b[0]] + b[1..];
    }
  }

  predicate Distinct<T(==)>(s: seq<T>)
  {
    forall i, j :: 0 <= i < j < |s| ==> s[i] != s[j]
  }
}
