/**
 The few JavaScript string built-ins the menu planner relies on:
 `String.prototype.trim`, `String(n)` for a non-negative integer and
 `String.prototype.padStart` with a one-character filler.
 Strings are sequences of characters; the JavaScript white-space set lies
 entirely in the Basic Multilingual Plane, so UTF-16 code units and
 characters agree on every character `trim` looks at.
 */
module JsText {

  /** WhiteSpace and LineTerminator code points as ECMAScript defines them
      (sections 12.2 and 12.3 of ECMA-262); `trim` strips exactly these. */
  const WhiteSpace: set<char> := {
    '\U{0009}', '\U{000B}', '\U{000C}', ' ', '\U{00A0}', '\U{FEFF}', '\U{1680}',
    '\U{2000}', '\U{2001}', '\U{2002}', '\U{2003}', '\U{2004}', '\U{2005}',
    '\U{2006}', '\U{2007}', '\U{2008}', '\U{2009}', '\U{200A}',
    '\U{202F}', '\U{205F}', '\U{3000}',
    '\U{000A}', '\U{000D}', '\U{2028}', '\U{2029}'
  }

  predicate IsWhiteSpace(c: char) {
    c in WhiteSpace
  }

  predicate AllWhiteSpace(s: string) {
    forall k :: 0 <= k < |s| ==> IsWhiteSpace(s[k])
  }

  /** Neither end of `s` is white space. */
  predicate IsTrimmed(s: string) {
    s == [] || (!IsWhiteSpace(s[0]) && !IsWhiteSpace(s[|s| - 1]))
  }

  /** `r` is the slice of `s` starting at `i`, and only white space lies
      outside it. */
  predicate TrimmedSlice(s: string, i: int, r: string) {
    && 0 <= i && i + |r| <= |s|
    && r == s[i..i + |r|]
    && AllWhiteSpace(s[..i])
    && AllWhiteSpace(s[i + |r|..])
  }

  /** Drops the leading white space. */
  function TrimStart(s: string): (r: string)
    ensures |r| <= |s| && r == s[|s| - |r|..]
    ensures AllWhiteSpace(s[..|s| - |r|])
    ensures r == [] || !IsWhiteSpace(r[0])
    decreases |s|
  {
    if |s| > 0 && IsWhiteSpace(s[0]) then TrimStart(s[1..]) else s
  }

  /** Drops the trailing white space. */
  function TrimEnd(s: string): (r: string)
    ensures |r| <= |s| && r == s[..|r|]
    ensures AllWhiteSpace(s[|r|..])
    ensures r == [] || !IsWhiteSpace(r[|r| - 1])
    decreases |s|
  {
    if |s| > 0 && IsWhiteSpace(s[|s| - 1]) then TrimEnd(s[..|s| - 1]) else s
  }

  /** `String.prototype.trim`: both ends stripped of white space. */
  function Trim(s: string): (r: string)
    ensures IsTrimmed(r)
    ensures r == [] <==> AllWhiteSpace(s)
  {
    var t := TrimStart(s);
    assert s == s[..|s| - |t|] + t;
    TrimEnd(t)
  }

  /** What trimming keeps is a slice of the input with only white space
      around it. */
  lemma TrimIsSlice(s: string)
    ensures TrimmedSlice(s, |s| - |TrimStart(s)|, Trim(s))
  {
    var t := TrimStart(s);
    var r := Trim(s);
    var i := |s| - |t|;
    assert r == s[i..i + |r|];
    assert s[i + |r|..] == t[|r|..];
  }

  /** In a non-empty trimmed slice, `i` is the position of the first
      non-white character and `i + |r|` lies just past the last one. */
  lemma SliceBounds(s: string, i: int, r: string)
    requires TrimmedSlice(s, i, r) && IsTrimmed(r) && r != []
    ensures forall k :: 0 <= k < i ==> IsWhiteSpace(s[k])
    ensures !IsWhiteSpace(s[i]) && !IsWhiteSpace(s[i + |r| - 1])
    ensures forall k :: i + |r| <= k < |s| ==> IsWhiteSpace(s[k])
  {
    forall k | 0 <= k < i ensures IsWhiteSpace(s[k]) {
      assert s[..i][k] == s[k];
    }
    forall k | i + |r| <= k < |s| ensures IsWhiteSpace(s[k]) {
      assert s[i + |r|..][k - i - |r|] == s[k];
    }
    assert s[i] == r[0] && s[i + |r| - 1] == r[|r| - 1];
  }

  /** The result of trimming is determined by the two slicing conditions:
      any trimmed slice with only white space around it is `Trim(s)`. */
  lemma TrimSliceUnique(s: string, i: int, r: string)
    requires TrimmedSlice(s, i, r) && IsTrimmed(r)
    ensures r == Trim(s)
  {
    var q := Trim(s);
    var j := |s| - |TrimStart(s)|;
    TrimIsSlice(s);
    if r == [] {
      assert AllWhiteSpace(s) by {
        forall k | 0 <= k < |s| ensures IsWhiteSpace(s[k]) {
          if k < i { assert s[..i][k] == s[k]; } else { assert s[i..][k - i] == s[k]; }
        }
      }
    } else {
      SliceBounds(s, i, r);
      assert q != [] by {
        assert !IsWhiteSpace(s[i]);
      }
      SliceBounds(s, j, q);
      assert i == j;
      assert i + |r| == j + |q|;
    }
  }

  /** Trimming twice is trimming once. */
  lemma TrimIdempotent(s: string)
    ensures Trim(Trim(s)) == Trim(s)
  {
    var r := Trim(s);
    assert TrimmedSlice(r, 0, r);
    TrimSliceUnique(r, 0, r);
  }

  predicate IsDigit(c: char) {
    '0' <= c <= '9'
  }

  predicate AllDigits(s: string) {
    forall k :: 0 <= k < |s| ==> IsDigit(s[k])
  }

  function DigitChar(d: nat): (c: char)
    requires d < 10
    ensures IsDigit(c) && DigitValue(c) == d
  {
    ('0' as int + d) as char
  }

  function DigitValue(c: char): int {
    c as int - '0' as int
  }

  /** The number a string of decimal digits denotes. */
  function DecimalValue(s: string): nat
    requires AllDigits(s)
  {
    if s == [] then 0 else DecimalValue(s[..|s| - 1]) * 10 + DigitValue(s[|s| - 1])
  }

  /** `String(n)` for a non-negative integer: its shortest decimal form. */
  function DecimalString(n: nat): (r: string)
    ensures 1 <= |r| && AllDigits(r)
    ensures r[0] != '0' || n == 0
    ensures |r| == 1 <==> n < 10
  {
    if n < 10 then [DigitChar(n)] else DecimalString(n / 10) + [DigitChar(n % 10)]
  }

  /** The decimal form of `n` reads back as `n`. */
  lemma {:induction false} DecimalStringValue(n: nat)
    ensures DecimalValue(DecimalString(n)) == n
  {
    if n >= 10 {
      var r := DecimalString(n);
      assert r[..|r| - 1] == DecimalString(n / 10);
      DecimalStringValue(n / 10);
    }
  }

  function Repeat(c: char, n: nat): (r: string)
    ensures |r| == n
    ensures forall k :: 0 <= k < n ==> r[k] == c
  {
    if n == 0 then [] else [c] + Repeat(c, n - 1)
  }

  /** `s.padStart(target, fill)` with a one-character filler. */
  function PadStart(s: string, target: nat, fill: char): (r: string)
    ensures |r| == if |s| >= target then |s| else target
    ensures r[|r| - |s|..] == s
    ensures forall k :: 0 <= k < |r| - |s| ==> r[k] == fill
  {
    if |s| >= target then s else Repeat(fill, target - |s|) + s
  }

  /** A number below 100 as two decimal digits, tens first. */
  function PadTwo(n: nat): (r: string)
    requires n < 100
    ensures |r| == 2 && IsDigit(r[0]) && IsDigit(r[1])
    ensures DigitValue(r[0]) * 10 + DigitValue(r[1]) == n
  {
    [DigitChar(n / 10), DigitChar(n % 10)]
  }

  /** `PadTwo(n)` is what `String(n).padStart(2, '0')` yields: a number
      below ten gains one leading zero, a two-digit number is left alone. */
  lemma PadTwoIsPadStart(n: nat)
    requires n < 100
    ensures PadTwo(n) == PadStart(DecimalString(n), 2, '0')
  {
    if n >= 10 {
      assert DecimalString(n / 10) == [DigitChar(n / 10)];
    }
  }

}
