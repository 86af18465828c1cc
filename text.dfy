/**
 * The string operations the map page and the scrapers rely on, over
 * `string == seq<char>`: JavaScript's `Array.prototype.join`,
 * `String.prototype.split`, `trim`, `charAt(0).toUpperCase()`, and the decimal
 * renderings Python and JavaScript give to natural numbers.
 */
module Text {
  import opened Wrappers

  // ---------------------------------------------------------------------------
  // Joining and splitting
  // ---------------------------------------------------------------------------

  /** `xs.join(sep)` in JavaScript, `sep.join(xs)` in Python. */
  function Join(xs: seq<string>, sep: string): string
  {
    if |xs| == 0 then ""
    else if |xs| == 1 then xs[0]
    else xs[0] + sep + Join(xs[1..], sep)
  }

  /** `xs.join('')` */
  function Concat(xs: seq<string>): string
  {
    Join(xs, "")
  }

  /** Joining two lists with no separator is joining each and concatenating. */
  lemma {:induction false} ConcatAppend(a: seq<string>, b: seq<string>)
    ensures Concat(a + b) == Concat(a) + Concat(b)
  {
    if a == [] {
      assert a + b == b;
    } else {
      assert (a + b)[1..] == a[1..] + b;
      ConcatAppend(a[1..], b);
      ConcatCons(a + b);
      ConcatCons(a);
      AppendAssoc(a[0], Concat(a[1..]), Concat(b));
    }
  }

  lemma ConcatCons(xs: seq<string>)
    requires |xs| >= 1
    ensures Concat(xs) == xs[0] + Concat(xs[1..])
  {
    if |xs| >= 2 {
      assert xs[0] + "" + Join(xs[1..], "") == xs[0] + Join(xs[1..], "");
    }
  }

  /** `sep` occurs in `s` starting at index `i`. */
  predicate OccursAt(s: string, sep: string, i: nat)
  {
    i + |sep| <= |s| && s[i..i + |sep|] == sep
  }

  predicate Contains(s: string, sep: string)
  {
    exists i: nat :: i <= |s| && OccursAt(s, sep, i)
  }

  /** `s.indexOf(sep, from)`: the first occurrence of `sep` at or after `from`. */
  function IndexOf(s: string, sep: string, from: nat): (r: Option<nat>)
    requires |sep| > 0
    decreases |s| - from
    ensures r.Some? ==> from <= r.value && OccursAt(s, sep, r.value)
    ensures forall j: nat :: from <= j && (r.None? || j < r.value) ==> !OccursAt(s, sep, j)
  {
    if from + |sep| > |s| then None
    else if OccursAt(s, sep, from) then Some(from)
    else IndexOf(s, sep, from + 1)
  }

  /**
   * `s.split(sep)` for a non-empty separator: the pieces of `s` between the
   * occurrences of `sep`, found from left to right.
   */
  function Split(s: string, sep: string): (r: seq<string>)
    requires |sep| > 0
    decreases |s|
    ensures |r| >= 1
  {
    match IndexOf(s, sep, 0)
    case None => [s]
    case Some(i) => [s[..i]] + Split(s[i + |sep|..], sep)
  }

  /** `s.split(sep, limit)`: the first `limit` pieces of the unlimited split. */
  function SplitLimit(s: string, sep: string, limit: nat): (r: seq<string>)
    requires |sep| > 0
    ensures |r| == if |Split(s, sep)| < limit then |Split(s, sep)| else limit
    ensures r == Split(s, sep)[..|r|]
  {
    var all := Split(s, sep);
    if |all| <= limit then all else all[..limit]
  }

  lemma FirstOccurrence(s: string, sep: string, i: nat)
    requires |sep| > 0
    requires OccursAt(s, sep, i)
    requires forall j: nat :: j < i ==> !OccursAt(s, sep, j)
    ensures IndexOf(s, sep, 0) == Some(i)
  {
  }

  /** Joining the pieces of a split with the separator gives back the string. */
  lemma {:induction false} JoinSplit(s: string, sep: string)
    requires |sep| > 0
    ensures Join(Split(s, sep), sep) == s
    decreases |s|
  {
    match IndexOf(s, sep, 0)
    case None =>
    case Some(i) =>
      var rest := s[i + |sep|..];
      JoinSplit(rest, sep);
      JoinCons(s[..i], Split(rest, sep), sep);
      AroundOccurrence(s, sep, i);
  }

  /** Concatenation regroups freely; stated once so that proofs about long concatenations stay small. */
  lemma AppendAssoc<T>(a: seq<T>, b: seq<T>, c: seq<T>)
    ensures (a + b) + c == a + (b + c)
  {
  }

  lemma JoinCons(x: string, xs: seq<string>, sep: string)
    requires |xs| >= 1
    ensures Join([x] + xs, sep) == x + sep + Join(xs, sep)
  {
    assert ([x] + xs)[1..] == xs;
  }

  /**
   * The second piece of a split runs to the end of the string, or else up to
   * an occurrence of the separator.
   */
  lemma SplitSecondPiece(s: string, sep: string)
    requires |sep| > 0 && |Split(s, sep)| >= 2
    ensures var all := Split(s, sep);
      all[0] + sep + all[1] <= s
      && (all[0] + sep + all[1] == s || OccursAt(s, sep, |all[0]| + |sep| + |all[1]|))
  {
    JoinSplit(s, sep);
    JoinSecond(Split(s, sep), sep);
  }

  /** A join starts with its first two pieces, followed by nothing or by the separator. */
  lemma JoinSecond(xs: seq<string>, sep: string)
    requires |xs| >= 2
    ensures xs[0] + sep + xs[1] <= Join(xs, sep)
    ensures xs[0] + sep + xs[1] == Join(xs, sep) || OccursAt(Join(xs, sep), sep, |xs[0]| + |sep| + |xs[1]|)
  {
    var front := xs[0] + sep + xs[1];
    var tail := xs[1..];
    assert tail[0] == xs[1];
    if |xs| == 2 {
      assert Join(tail, sep) == xs[1];
    } else {
      assert Join(tail, sep) == xs[1] + sep + Join(tail[1..], sep);
      var rest := Join(tail[1..], sep);
      assert Join(xs, sep) == front + (sep + rest);
      assert Join(xs, sep)[|front|..|front| + |sep|] == sep;
    }
  }

  /** A string is what lies before an occurrence, the occurrence, and what follows. */
  lemma AroundOccurrence(s: string, sep: string, i: nat)
    requires OccursAt(s, sep, i)
    ensures s == s[..i] + sep + s[i + |sep|..]
  {
    assert s == s[..i] + s[i..i + |sep|] + s[i + |sep|..];
  }

  /** No piece of a split contains the separator. */
  lemma {:induction false} SplitPiecesFree(s: string, sep: string)
    requires |sep| > 0
    ensures forall k :: 0 <= k < |Split(s, sep)| ==> !Contains(Split(s, sep)[k], sep)
    decreases |s|
  {
    match IndexOf(s, sep, 0)
    case None =>
      assert Split(s, sep) == [s];
      assert !Contains(s, sep);
    case Some(i) =>
      var rest := s[i + |sep|..];
      SplitPiecesFree(rest, sep);
      forall j: nat | OccursAt(s[..i], sep, j)
        ensures false
      {
        assert s[..i][j..j + |sep|] == s[j..j + |sep|];
        assert OccursAt(s, sep, j);
      }
      assert !Contains(s[..i], sep);
  }

  /**
   * Splitting on a one-character separator undoes joining with it, when no
   * joined piece holds that character.
   */
  lemma {:induction false} SplitJoin(xs: seq<string>, c: char)
    requires |xs| >= 1
    requires forall k :: 0 <= k < |xs| ==> c !in xs[k]
    ensures Split(Join(xs, [c]), [c]) == xs
  {
    var s := Join(xs, [c]);
    if |xs| == 1 {
      forall j: nat | j < |s|
        ensures !OccursAt(s, [c], j)
      {
        assert s[j..j + 1] == [s[j]];
      }
      assert IndexOf(s, [c], 0) == None;
    } else {
      var rest := Join(xs[1..], [c]);
      var i := |xs[0]|;
      assert s == xs[0] + [c] + rest;
      assert s[i..i + 1] == [c];
      forall j: nat | j < i
        ensures !OccursAt(s, [c], j)
      {
        assert s[j..j + 1] == [xs[0][j]];
      }
      FirstOccurrence(s, [c], i);
      assert s[..i] == xs[0];
      assert s[i + 1..] == rest;
      SplitJoin(xs[1..], c);
    }
  }

  // ---------------------------------------------------------------------------
  // Trimming
  // ---------------------------------------------------------------------------

  /**
   * The code points JavaScript counts as WhiteSpace or LineTerminator: the
   * ones `String.prototype.trim` removes.
   */
  predicate IsJsSpace(c: char)
  {
    || c in {'\t', '\n', '\U{000B}', '\U{000C}', '\r', ' ', '\U{00A0}', '\U{1680}'}
    || ('\U{2000}' <= c <= '\U{200A}')
    || c in {'\U{2028}', '\U{2029}', '\U{202F}', '\U{205F}', '\U{3000}', '\U{FEFF}'}
  }

  predicate AllSpace(s: string)
  {
    forall i :: 0 <= i < |s| ==> IsJsSpace(s[i])
  }

  /** `s.trimStart()`: the longest suffix of `s` that does not start with white space. */
  function TrimStart(s: string): (r: string)
    ensures |r| <= |s| && r == s[|s| - |r|..]
    ensures AllSpace(s[..|s| - |r|])
    ensures |r| > 0 ==> !IsJsSpace(r[0])
  {
    if |s| > 0 && IsJsSpace(s[0]) then TrimStart(s[1..]) else s
  }

  /** `s.trimEnd()`: the longest prefix of `s` that does not end with white space. */
  function TrimEnd(s: string): (r: string)
    ensures |r| <= |s| && r == s[..|r|]
    ensures AllSpace(s[|r|..])
    ensures |r| > 0 ==> !IsJsSpace(r[|r| - 1])
  {
    if |s| > 0 && IsJsSpace(s[|s| - 1]) then TrimEnd(s[..|s| - 1]) else s
  }

  /** `s.trim()` */
  function Trim(s: string): (r: string)
    ensures |r| > 0 ==> !IsJsSpace(r[0]) && !IsJsSpace(r[|r| - 1])
  {
    TrimEnd(TrimStart(s))
  }

  lemma {:induction false} TrimStartSpaces(a: string, t: string)
    requires AllSpace(a)
    ensures TrimStart(a + t) == TrimStart(t)
    decreases |a|
  {
    if |a| > 0 {
      assert (a + t)[1..] == a[1..] + t;
      TrimStartSpaces(a[1..], t);
    } else {
      assert a + t == t;
    }
  }

  lemma {:induction false} TrimEndSpaces(t: string, b: string)
    requires AllSpace(b)
    ensures TrimEnd(t + b) == TrimEnd(t)
    decreases |b|
  {
    if |b| > 0 {
      assert (t + b)[..|t + b| - 1] == t + b[..|b| - 1];
      TrimEndSpaces(t, b[..|b| - 1]);
    } else {
      assert t + b == t;
    }
  }

  /**
   * Trimming removes exactly the surrounding white space: a string with no
   * white space at either end survives any padding with white space.
   */
  lemma TrimPadded(a: string, m: string, b: string)
    requires AllSpace(a) && AllSpace(b)
    requires |m| > 0 ==> !IsJsSpace(m[0]) && !IsJsSpace(m[|m| - 1])
    ensures Trim(a + m + b) == m
  {
    assert a + m + b == a + (m + b);
    TrimStartSpaces(a, m + b);
    if |m| == 0 {
      assert m + b == b;
      assert TrimStart(b) == "";
    } else {
      assert TrimStart(m + b) == m + b;
      TrimEndSpaces(m, b);
      assert TrimEnd(m) == m;
    }
  }

  /** Trimming twice is trimming once. */
  lemma TrimIdempotent(s: string)
    ensures Trim(Trim(s)) == Trim(s)
  {
    TrimPadded("", Trim(s), "");
    assert "" + Trim(s) + "" == Trim(s);
  }

  // ---------------------------------------------------------------------------
  // Upper-casing the first character
  // ---------------------------------------------------------------------------

  /** `String.prototype.toUpperCase` on one character, for the ASCII letters. */
  function UpperAscii(c: char): char
  {
    if 'a' <= c <= 'z' then (c as int - 32) as char else c
  }

  predicate IsUpperOrOther(c: char)
  {
    !('a' <= c <= 'z')
  }

  /** `s.charAt(0).toUpperCase() + s.slice(1)` */
  function CapitaliseFirst(s: string): (r: string)
    ensures |r| == |s|
    ensures |s| > 0 ==> IsUpperOrOther(r[0]) && r[1..] == s[1..]
    ensures |s| > 0 && !('a' <= s[0] <= 'z') ==> r == s
    ensures |s| > 0 && 'a' <= s[0] <= 'z' ==> r[0] as int == s[0] as int - ('a' as int - 'A' as int)
  {
    if |s| == 0 then "" else [UpperAscii(s[0])] + s[1..]
  }

  // ---------------------------------------------------------------------------
  // Decimal digits
  // ---------------------------------------------------------------------------

  predicate IsDigit(c: char)
  {
    '0' <= c <= '9'
  }

  predicate AllDigits(s: string)
  {
    forall i :: 0 <= i < |s| ==> IsDigit(s[i])
  }

  function DigitChar(d: nat): (c: char)
    requires d < 10
    ensures IsDigit(c)
  {
    ('0' as int + d) as char
  }

  function DigitValue(c: char): nat
    requires IsDigit(c)
  {
    c as int - '0' as int
  }

  function Pow10(w: nat): (r: nat)
    ensures r >= 1
  {
    if w == 0 then 1 else 10 * Pow10(w - 1)
  }

  /** Python's `int` on a string of ASCII digits. */
  function ValueOf(s: string): (v: nat)
    requires AllDigits(s)
    ensures v < Pow10(|s|)
  {
    if |s| == 0 then 0 else ValueOf(s[..|s| - 1]) * 10 + DigitValue(s[|s| - 1])
  }

  /** The last `width` decimal digits of `n`: `%0<width>d` for `n < 10^width`. */
  function PadDigits(n: nat, width: nat): (r: string)
    ensures |r| == width && AllDigits(r)
  {
    if width == 0 then "" else PadDigits(n / 10, width - 1) + [DigitChar(n % 10)]
  }

  /** `String(n)` in JavaScript, `str(n)` in Python. */
  function NatToString(n: nat): (r: string)
    ensures |r| >= 1 && AllDigits(r)
  {
    if n < 10 then [DigitChar(n)] else NatToString(n / 10) + [DigitChar(n % 10)]
  }

  /** Reading back a zero-padded rendering gives the number. */
  lemma {:induction false} ValueOfPadDigits(n: nat, width: nat)
    requires n < Pow10(width)
    ensures ValueOf(PadDigits(n, width)) == n
  {
    if width > 0 {
      var p := PadDigits(n, width);
      ValueOfPadDigits(n / 10, width - 1);
      assert p[..width - 1] == PadDigits(n / 10, width - 1);
    }
  }

  /** Reading back a decimal rendering gives the number. */
  lemma {:induction false} ValueOfNatToString(n: nat)
    ensures ValueOf(NatToString(n)) == n
  {
    if n >= 10 {
      var s := NatToString(n);
      ValueOfNatToString(n / 10);
      assert s[..|s| - 1] == NatToString(n / 10);
    }
  }

  /** Zero-padded renderings of numbers below `10^width` are distinct. */
  lemma PadDigitsInjective(a: nat, b: nat, width: nat)
    requires a < Pow10(width) && b < Pow10(width)
    requires PadDigits(a, width) == PadDigits(b, width)
    ensures a == b
  {
    ValueOfPadDigits(a, width);
    ValueOfPadDigits(b, width);
  }
}
