/**
 * The JavaScript string built-ins the diary code calls: `trim`, `includes`, `padStart`,
 * `split` with a one-character separator, `String(n)` for integers, and the order of `<`
 * on strings. Characters are Dafny `char`s (Unicode scalar values), so the order here is by
 * scalar value; it agrees with JavaScript's UTF-16 code-unit order on texts without
 * characters beyond U+FFFF, such as the digit and "-" texts it is used on.
 */
module JsString {

  /** WhiteSpace and LineTerminator code points, the characters `String.prototype.trim` strips. */
  predicate IsWhiteSpace(c: char) {
    || c == '\U{9}' || c == '\U{A}' || c == '\U{B}' || c == '\U{C}' || c == '\U{D}'
    || c == '\U{20}' || c == '\U{A0}' || c == '\U{1680}'
    || ('\U{2000}' <= c <= '\U{200A}')
    || c == '\U{2028}' || c == '\U{2029}' || c == '\U{202F}' || c == '\U{205F}'
    || c == '\U{3000}' || c == '\U{FEFF}'
  }

  /** `s` with its leading white space removed: a suffix of `s`. */
  function TrimStart(s: string): (r: string)
    ensures |r| <= |s| && r == s[|s| - |r|..]
    ensures forall k :: 0 <= k < |s| - |r| ==> IsWhiteSpace(s[k])
    ensures r != [] ==> !IsWhiteSpace(r[0])
  {
    if s != [] && IsWhiteSpace(s[0]) then TrimStart(s[1..]) else s
  }

  /** `s` with its trailing white space removed: a prefix of `s`. */
  function TrimEnd(s: string): (r: string)
    ensures |r| <= |s| && r == s[..|r|]
    ensures forall k :: |r| <= k < |s| ==> IsWhiteSpace(s[k])
    ensures r != [] ==> !IsWhiteSpace(r[|r| - 1])
  {
    if s != [] && IsWhiteSpace(s[|s| - 1]) then TrimEnd(s[..|s| - 1]) else s
  }

  /** A string that `trim` leaves alone: empty, or with a non-space at both ends. */
  predicate IsTrimmed(s: string) {
    s == [] || (!IsWhiteSpace(s[0]) && !IsWhiteSpace(s[|s| - 1]))
  }

  /** `r` is the slice of `s` at `i`, and everything of `s` around it is white space. */
  predicate IsCoreSlice(s: string, r: string, i: int) {
    && 0 <= i <= |s| - |r| && r == s[i..i + |r|]
    && (forall k :: 0 <= k < i ==> IsWhiteSpace(s[k]))
    && (forall k :: i + |r| <= k < |s| ==> IsWhiteSpace(s[k]))
  }

  /**
   * `String.prototype.trim`: the slice of `s` left after removing white space at both
   * ends; everything removed is white space and what remains does not start or end with it.
   */
  function Trim(s: string): (r: string)
    ensures IsTrimmed(r)
    ensures exists i :: IsCoreSlice(s, r, i)
  {
    var t := TrimStart(s);
    var r := TrimEnd(t);
    TrimShape(s, t, r);
    r
  }

  /** A prefix `r` of a suffix `t` of `s` is a slice of `s`, and what follows it in `s` is what follows it in `t`. */
  lemma PrefixOfSuffix(s: string, t: string, r: string)
    requires |t| <= |s| && t == s[|s| - |t|..]
    requires |r| <= |t| && r == t[..|r|]
    ensures r == s[|s| - |t|..|s| - |t| + |r|]
    ensures forall k :: |s| - |t| + |r| <= k < |s| ==> s[k] == t[k - (|s| - |t|)]
  {
  }

  /** What `trimStart` and then `trimEnd` promise makes their result the trimmed core of `s`. */
  lemma TrimShape(s: string, t: string, r: string)
    requires |t| <= |s| && t == s[|s| - |t|..]
    requires forall k :: 0 <= k < |s| - |t| ==> IsWhiteSpace(s[k])
    requires t != [] ==> !IsWhiteSpace(t[0])
    requires |r| <= |t| && r == t[..|r|]
    requires forall k :: |r| <= k < |t| ==> IsWhiteSpace(t[k])
    requires r != [] ==> !IsWhiteSpace(r[|r| - 1])
    ensures IsTrimmed(r)
    ensures IsCoreSlice(s, r, |s| - |t|)
  {
    PrefixOfSuffix(s, t, r);
    assert r != [] ==> r[0] == t[0];
  }

  lemma TrimmedIsFixed(s: string)
    requires IsTrimmed(s)
    ensures Trim(s) == s
  {
    assert TrimStart(s) == s;
    assert TrimEnd(s) == s;
  }

  /** Trimming twice is trimming once: stored, already-trimmed content keeps its length under `trim`. */
  lemma TrimIdempotent(s: string)
    ensures Trim(Trim(s)) == Trim(s)
  {
    TrimmedIsFixed(Trim(s));
  }

  /** Leading white space in front of a string that starts with a non-space is all `trimStart` removes. */
  lemma {:induction false} TrimStartSkips(pad: string, rest: string)
    requires forall k :: 0 <= k < |pad| ==> IsWhiteSpace(pad[k])
    requires rest == [] || !IsWhiteSpace(rest[0])
    ensures TrimStart(pad + rest) == rest
  {
    if pad == [] {
      assert pad + rest == rest;
    } else {
      assert (pad + rest)[1..] == pad[1..] + rest;
      TrimStartSkips(pad[1..], rest);
    }
  }

  /** Trailing white space after a string that ends with a non-space is all `trimEnd` removes. */
  lemma {:induction false} TrimEndSkips(rest: string, pad: string)
    requires forall k :: 0 <= k < |pad| ==> IsWhiteSpace(pad[k])
    requires rest == [] || !IsWhiteSpace(rest[|rest| - 1])
    ensures TrimEnd(rest + pad) == rest
  {
    if pad == [] {
      assert rest + pad == rest;
    } else {
      var shorter := pad[..|pad| - 1];
      assert (rest + pad)[..|rest + pad| - 1] == rest + shorter;
      TrimEndSkips(rest, shorter);
    }
  }

  /** Trimming a trimmed string wrapped in white space gives that string back. */
  lemma TrimPadded(before: string, core: string, after: string)
    requires forall k :: 0 <= k < |before| ==> IsWhiteSpace(before[k])
    requires forall k :: 0 <= k < |after| ==> IsWhiteSpace(after[k])
    requires IsTrimmed(core)
    ensures Trim(before + core + after) == core
  {
    if core == [] {
      var pad := before + after;
      assert before + core + after == pad + [];
      assert forall k :: 0 <= k < |pad| ==> IsWhiteSpace(pad[k]) by {
        forall k | 0 <= k < |pad|
          ensures IsWhiteSpace(pad[k])
        {
          if k >= |before| {
            assert pad[k] == after[k - |before|];
          }
        }
      }
      TrimStartSkips(pad, []);
    } else {
      assert before + core + after == before + (core + after);
      TrimStartSkips(before, core + after);
      TrimEndSkips(core, after);
    }
  }

  predicate StartsWith(s: string, p: string) {
    |p| <= |s| && s[..|p|] == p
  }

  /** `p` occurs in `s` starting at index `i`. */
  predicate OccursAt(s: string, p: string, i: int) {
    0 <= i <= |s| - |p| && s[i..i + |p|] == p
  }

  /** `String.prototype.includes`: `p` occurs in `s` at some position. */
  function Includes(s: string, p: string): (b: bool)
    ensures b <==> exists i :: OccursAt(s, p, i)
  {
    if StartsWith(s, p) then
      assert OccursAt(s, p, 0);
      true
    else if s == [] then
      assert forall i :: !OccursAt(s, p, i);
      false
    else
      var b := Includes(s[1..], p);
      assert !OccursAt(s, p, 0);
      assert forall i :: OccursAt(s[1..], p, i) ==> OccursAt(s, p, i + 1);
      assert forall i :: OccursAt(s, p, i) ==> OccursAt(s[1..], p, i - 1);
      b
  }

  /** A string that lacks some character of `p` cannot contain `p`. */
  lemma {:induction false} MissingCharExcludes(s: string, p: string, k: nat)
    requires k < |p| && p[k] !in s
    ensures !Includes(s, p)
  {
    forall i | 0 <= i <= |s| - |p|
      ensures !OccursAt(s, p, i)
    {
      assert s[i..i + |p|][k] == s[i + k];
    }
  }

  /** `padStart(width, fill)` with a one-character fill. */
  function PadStart(s: string, width: nat, fill: char): (r: string)
    ensures |r| == if |s| >= width then |s| else width
    ensures r[|r| - |s|..] == s
    ensures forall k :: 0 <= k < |r| - |s| ==> r[k] == fill
  {
    if |s| >= width then s else seq(width - |s|, _ => fill) + s
  }

  function DigitChar(d: nat): char
    requires d < 10
  {
    ['0', '1', '2', '3', '4', '5', '6', '7', '8', '9'][d]
  }

  predicate IsDigit(c: char) { '0' <= c <= '9' }

  predicate AllDigits(s: string) { forall k :: 0 <= k < |s| ==> IsDigit(s[k]) }

  /** The number a string of decimal digits denotes. */
  function DigitsValue(s: string): nat
    requires AllDigits(s)
  {
    if s == [] then 0 else DigitsValue(s[..|s| - 1]) * 10 + (s[|s| - 1] as int - '0' as int)
  }

  lemma DigitCharValue(d: nat)
    requires d < 10
    ensures IsDigit(DigitChar(d)) && DigitChar(d) as int - '0' as int == d
  {
  }

  /** `String(n)` for a non-negative integer: its decimal digits without leading zeros. */
  function NatString(n: nat): (r: string)
    ensures 1 <= |r| && AllDigits(r)
    ensures DigitsValue(r) == n
    ensures r[0] == '0' ==> n == 0
    ensures |r| > 1 ==> r[0] != '0'
  {
    DigitCharValue(n % 10);
    if n < 10 then
      assert [DigitChar(n)][..0] == [];
      [DigitChar(n)]
    else
      var r := NatString(n / 10) + [DigitChar(n % 10)];
      assert r[..|r| - 1] == NatString(n / 10);
      r
  }

  /** `String(n)` for any integer. */
  function IntString(n: int): (r: string)
    ensures n >= 0 ==> r == NatString(n)
    ensures n < 0 ==> r == "-" + NatString(-n)
  {
    if n >= 0 then NatString(n) else "-" + NatString(-n)
  }

  function Pow10(w: nat): (p: nat)
    ensures p >= 1
  {
    if w == 0 then 1 else 10 * Pow10(w - 1)
  }

  /** The last `w` decimal digits of `n`, most significant first. */
  function FixedDigits(n: nat, w: nat): (r: string)
    ensures |r| == w
  {
    if w == 0 then [] else FixedDigits(n / 10, w - 1) + [DigitChar(n % 10)]
  }

  /** A block is made of decimal digits only. */
  lemma {:induction false} FixedDigitsAreDigits(n: nat, w: nat)
    ensures AllDigits(FixedDigits(n, w))
  {
    if w > 0 {
      FixedDigitsAreDigits(n / 10, w - 1);
      DigitCharValue(n % 10);
    }
  }

  lemma {:induction false} FixedDigitsValue(n: nat, w: nat)
    requires n < Pow10(w)
    ensures AllDigits(FixedDigits(n, w)) && DigitsValue(FixedDigits(n, w)) == n
  {
    FixedDigitsAreDigits(n, w);
    if w > 0 {
      FixedDigitsValue(n / 10, w - 1);
      var r := FixedDigits(n, w);
      assert r[..|r| - 1] == FixedDigits(n / 10, w - 1);
      DigitCharValue(n % 10);
    }
  }

  /** A number with exactly `w` digits prints as its `w`-digit block. */
  lemma {:induction false} NatStringIsFixed(n: nat, w: nat)
    requires w >= 1 && Pow10(w - 1) <= n < Pow10(w)
    ensures NatString(n) == FixedDigits(n, w)
  {
    if w == 1 {
      assert FixedDigits(n, 1) == FixedDigits(n / 10, 0) + [DigitChar(n % 10)];
    } else {
      NatStringIsFixed(n / 10, w - 1);
    }
  }

  /** `padStart(2, "0")` of `String(n)` for 0 <= n < 100 is the two-digit block of n. */
  lemma PaddedTwoDigits(n: nat)
    requires n < 100
    ensures PadStart(NatString(n), 2, '0') == FixedDigits(n, 2)
  {
    if n < 10 {
      assert NatString(n) == [DigitChar(n)];
      assert FixedDigits(n, 2) == FixedDigits(n / 10, 1) + [DigitChar(n % 10)];
      assert FixedDigits(n / 10, 1) == FixedDigits(0, 0) + [DigitChar(0)];
    } else {
      NatStringIsFixed(n, 2);
    }
  }

  /** The order `<` puts on strings: lexicographic by character, a proper prefix first. */
  predicate LexLess(a: string, b: string) {
    if a == [] then b != []
    else if b == [] then false
    else if a[0] != b[0] then a[0] < b[0]
    else LexLess(a[1..], b[1..])
  }

  /** Comparing two concatenations whose first parts have equal length compares the first parts first. */
  lemma {:induction false} LexLessConcat(x1: string, x2: string, y1: string, y2: string)
    requires |x1| == |y1|
    ensures LexLess(x1 + x2, y1 + y2) <==> LexLess(x1, y1) || (x1 == y1 && LexLess(x2, y2))
  {
    if x1 != [] {
      assert (x1 + x2)[0] == x1[0] && (y1 + y2)[0] == y1[0];
      assert (x1 + x2)[1..] == x1[1..] + x2 && (y1 + y2)[1..] == y1[1..] + y2;
      LexLessConcat(x1[1..], x2, y1[1..], y2);
      if x1[0] == y1[0] {
        assert x1 == y1 <==> x1[1..] == y1[1..];
      }
    } else {
      assert x1 + x2 == x2 && y1 + y2 == y2;
    }
  }

  lemma LexLessSingle(c: char, d: char)
    ensures LexLess([c], [d]) <==> c < d
  {
    assert [c][1..] == [] && [d][1..] == [];
  }

  /** On digit blocks of the same width, string order is numeric order. */
  lemma {:induction false} FixedDigitsOrder(a: nat, b: nat, w: nat)
    requires a < Pow10(w) && b < Pow10(w)
    ensures LexLess(FixedDigits(a, w), FixedDigits(b, w)) <==> a < b
  {
    if w == 0 {
    } else {
      var da, db := FixedDigits(a / 10, w - 1), FixedDigits(b / 10, w - 1);
      LexLessConcat(da, [DigitChar(a % 10)], db, [DigitChar(b % 10)]);
      FixedDigitsOrder(a / 10, b / 10, w - 1);
      LexLessSingle(DigitChar(a % 10), DigitChar(b % 10));
      DigitCharValue(a % 10);
      DigitCharValue(b % 10);
      FixedDigitsValue(a / 10, w - 1);
      FixedDigitsValue(b / 10, w - 1);
      assert da == db <==> a / 10 == b / 10;
    }
  }

  /** `s.split(sep)` for a one-character separator: the pieces between separators, in order. */
  function Split(s: string, sep: char): (r: seq<string>)
    ensures |r| >= 1
    ensures forall k :: 0 <= k < |r| ==> sep !in r[k]
  {
    if s == [] then [""]
    else
      var rest := Split(s[1..], sep);
      if s[0] == sep then [""] + rest else [[s[0]] + rest[0]] + rest[1..]
  }

  /** `pieces.join(sep)`. */
  function Join(pieces: seq<string>, sep: char): string {
    if |pieces| <= 1 then (if pieces == [] then "" else pieces[0])
    else pieces[0] + [sep] + Join(pieces[1..], sep)
  }

  /** Joining the pieces of a split with the same separator gives the string back. */
  lemma {:induction false} JoinSplit(s: string, sep: char)
    ensures Join(Split(s, sep), sep) == s
  {
    if s != [] {
      var rest := Split(s[1..], sep);
      JoinSplit(s[1..], sep);
      if s[0] != sep {
        var r := [[s[0]] + rest[0]] + rest[1..];
        assert r[1..] == rest[1..];
        if |rest| > 1 {
          assert rest == [rest[0]] + rest[1..];
          assert Join(rest, sep) == rest[0] + [sep] + Join(rest[1..], sep);
        }
      }
    }
  }

  /** A piece followed by the separator splits off as the first piece. */
  lemma {:induction false} SplitAfterPiece(a: string, sep: char, b: string)
    requires sep !in a
    ensures Split(a + [sep] + b, sep) == [a] + Split(b, sep)
  {
    if a == [] {
      assert a + [sep] + b == [sep] + b;
      assert ([sep] + b)[1..] == b;
    } else {
      assert (a + [sep] + b)[1..] == a[1..] + [sep] + b;
      SplitAfterPiece(a[1..], sep, b);
      assert [a[0]] + a[1..] == a;
    }
  }

  /** A string without the separator splits into itself alone. */
  lemma {:induction false} SplitWhole(a: string, sep: char)
    requires sep !in a
    ensures Split(a, sep) == [a]
  {
    if a != [] {
      SplitWhole(a[1..], sep);
      assert [a[0]] + a[1..] == a;
    }
  }

  /** Three separator-free pieces joined by the separator split back into those pieces. */
  lemma SplitThree(a: string, b: string, c: string, sep: char)
    requires sep !in a && sep !in b && sep !in c
    ensures Split(a + [sep] + b + [sep] + c, sep) == [a, b, c]
  {
    assert a + [sep] + b + [sep] + c == a + [sep] + (b + [sep] + c);
    SplitAfterPiece(a, sep, b + [sep] + c);
    SplitAfterPiece(b, sep, c);
    SplitWhole(c, sep);
  }

  /** Four separator-free pieces joined by the separator split back into those pieces. */
  lemma SplitFour(a: string, b: string, c: string, d: string, sep: char)
    requires sep !in a && sep !in b && sep !in c && sep !in d
    ensures Split(a + [sep] + b + [sep] + c + [sep] + d, sep) == [a, b, c, d]
  {
    assert a + [sep] + b + [sep] + c + [sep] + d == a + [sep] + (b + [sep] + c + [sep] + d);
    SplitAfterPiece(a, sep, b + [sep] + c + [sep] + d);
    SplitThree(b, c, d, sep);
  }
}
