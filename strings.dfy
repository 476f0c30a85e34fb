/** The string operations of Rust's standard library that the core relies on:
    `join`, `str::replace`, decimal formatting with `{}`, `str::parse::<i32>` and
    ASCII lower-casing. Each is defined once here, with the facts the other
    modules use about it. */
module Strings {
  import opened Wrappers

  // ---------------------------------------------------------------------------
  // `[String]::join(sep)`

  /** The parts, in order, with `sep` between consecutive parts. */
  function Join(parts: seq<string>, sep: string): string
    decreases |parts|
  {
    if |parts| == 0 then ""
    else if |parts| == 1 then parts[0]
    else parts[0] + sep + Join(parts[1..], sep)
  }

  /** Total length of the parts plus one separator per gap. */
  function SumLengths(parts: seq<string>): nat
    decreases |parts|
  {
    if |parts| == 0 then 0 else |parts[0]| + SumLengths(parts[1..])
  }

  /** Joining two non-empty lists is joining each and putting one separator between them. */
  lemma {:induction false} JoinAppend(a: seq<string>, b: seq<string>, sep: string)
    requires |a| > 0 && |b| > 0
    ensures Join(a + b, sep) == Join(a, sep) + sep + Join(b, sep)
    decreases |a|
  {
    if |a| == 1 {
      assert (a + b)[1..] == b;
    } else {
      assert (a + b)[1..] == a[1..] + b;
      JoinAppend(a[1..], b, sep);
    }
  }

  /** A joined string is exactly as long as its parts and the separators between them. */
  lemma {:induction false} JoinLength(parts: seq<string>, sep: string)
    ensures |Join(parts, sep)| == SumLengths(parts) + (if |parts| == 0 then 0 else (|parts| - 1) * |sep|)
    decreases |parts|
  {
    if |parts| > 1 {
      JoinLength(parts[1..], sep);
    }
  }

  // ---------------------------------------------------------------------------
  // `str::replace(pat, rep)`: leftmost, non-overlapping occurrences, scanned left to right

  function ReplaceAll(s: string, pat: string, rep: string): string
    requires |pat| > 0
    decreases |s|
  {
    if |s| == 0 then ""
    else if pat <= s then rep + ReplaceAll(s[|pat|..], pat, rep)
    else [s[0]] + ReplaceAll(s[1..], pat, rep)
  }

  /** A string in which the pattern's first character never occurs is returned unchanged. */
  lemma {:induction false} ReplaceAllAbsent(s: string, pat: string, rep: string)
    requires |pat| > 0 && pat[0] !in s
    ensures ReplaceAll(s, pat, rep) == s
    decreases |s|
  {
    if |s| > 0 {
      assert s[0] != pat[0];
      assert s == [s[0]] + s[1..];
      ReplaceAllAbsent(s[1..], pat, rep);
    }
  }

  /** A replacement no longer than its pattern never makes the string longer. */
  lemma {:induction false} ReplaceAllShrinks(s: string, pat: string, rep: string)
    requires |pat| > 0 && |rep| <= |pat|
    ensures |ReplaceAll(s, pat, rep)| <= |s|
    decreases |s|
  {
    if |s| > 0 {
      if pat <= s {
        ReplaceAllShrinks(s[|pat|..], pat, rep);
      } else {
        ReplaceAllShrinks(s[1..], pat, rep);
      }
    }
  }

  /** Replacement distributes over a split at which no occurrence straddles:
      a prefix that the scan consumes whole and that ends exactly on a scan step. */
  lemma {:induction false} ReplaceAllPrefixed(pat: string, rep: string, rest: string)
    requires |pat| > 0
    ensures ReplaceAll(pat + rest, pat, rep) == rep + ReplaceAll(rest, pat, rep)
  {
    assert pat <= pat + rest;
    assert (pat + rest)[|pat|..] == rest;
  }

  /** A prefix in which the pattern's first character never occurs is copied through. */
  lemma {:induction false} ReplaceAllAfter(a: string, s: string, pat: string, rep: string)
    requires |pat| > 0 && pat[0] !in a
    ensures ReplaceAll(a + s, pat, rep) == a + ReplaceAll(s, pat, rep)
    decreases |a|
  {
    if |a| > 0 {
      assert (a + s)[0] == a[0] && (a + s)[1..] == a[1..] + s;
      assert !(pat <= a + s);
      ReplaceAllAfter(a[1..], s, pat, rep);
      assert a == [a[0]] + a[1..];
    } else {
      assert a + s == s;
    }
  }

  /** One occurrence of the pattern, with text on both sides in which the pattern's
      first character never occurs, is replaced and the rest kept. */
  lemma ReplaceAllOnce(a: string, pat: string, b: string, rep: string)
    requires |pat| > 0 && pat[0] !in a && pat[0] !in b
    ensures ReplaceAll(a + pat + b, pat, rep) == a + rep + b
  {
    assert a + pat + b == a + (pat + b);
    ReplaceAllAfter(a, pat + b, pat, rep);
    ReplaceAllPrefixed(pat, rep, b);
    ReplaceAllAbsent(b, pat, rep);
    assert a + (rep + b) == a + rep + b;
  }

  /** The character `c` is copied through when no occurrence of the pattern starts at it. */
  lemma ReplaceAllSkip(c: char, rest: string, pat: string, rep: string)
    requires |pat| > 0 && !(pat <= [c] + rest)
    ensures ReplaceAll([c] + rest, pat, rep) == [c] + ReplaceAll(rest, pat, rep)
  {
    assert ([c] + rest)[1..] == rest;
  }

  // ---------------------------------------------------------------------------
  // Decimal digits: `format!("{}", n)` for unsigned integers and the digit value of a string

  predicate IsDigit(c: char) { '0' <= c <= '9' }

  predicate AllDigits(s: string) { forall i :: 0 <= i < |s| ==> IsDigit(s[i]) }

  function DigitChar(d: nat): (c: char)
    requires d < 10
    ensures IsDigit(c)
  {
    ['0', '1', '2', '3', '4', '5', '6', '7', '8', '9'][d]
  }

  function DigitOf(c: char): nat
    requires IsDigit(c)
  {
    (c as int - '0' as int) as nat
  }

  lemma DigitRoundTrip(d: nat)
    requires d < 10
    ensures DigitOf(DigitChar(d)) == d
  {
  }

  /** `n` written in decimal, without leading zeros, as Rust's `{}` prints a `u64`. */
  function NatToString(n: nat): string
    decreases n
  {
    if n < 10 then [DigitChar(n)] else NatToString(n / 10) + [DigitChar(n % 10)]
  }

  /** The number a string of decimal digits denotes (most significant digit first). */
  function DigitsValue(s: string): nat
    requires AllDigits(s)
    decreases |s|
  {
    if |s| == 0 then 0 else DigitsValue(s[..|s| - 1]) * 10 + DigitOf(s[|s| - 1])
  }

  /** Printed numbers are non-empty strings of digits. */
  lemma {:induction false} NatToStringDigits(n: nat)
    ensures |NatToString(n)| > 0 && AllDigits(NatToString(n))
    decreases n
  {
    if n >= 10 {
      NatToStringDigits(n / 10);
    }
  }

  /** Reading back a printed number gives the number. */
  lemma {:induction false} NatToStringRoundTrip(n: nat)
    ensures AllDigits(NatToString(n)) && DigitsValue(NatToString(n)) == n
    decreases n
  {
    NatToStringDigits(n);
    var s := NatToString(n);
    if n < 10 {
      assert s[..0] == [];
      DigitRoundTrip(n);
    } else {
      NatToStringRoundTrip(n / 10);
      assert s[..|s| - 1] == NatToString(n / 10);
      DigitRoundTrip(n % 10);
    }
  }

  /** Printing is injective: distinct numbers give distinct strings. */
  lemma NatToStringInjective(m: nat, n: nat)
    requires NatToString(m) == NatToString(n)
    ensures m == n
  {
    NatToStringRoundTrip(m);
    NatToStringRoundTrip(n);
  }

  // ---------------------------------------------------------------------------
  // `str::parse::<i32>()`

  const I32Min: int := -0x8000_0000
  const I32Max: int := 0x7FFF_FFFF

  predicate InI32(v: int) { I32Min <= v <= I32Max }

  /** Rust's `i32`. */
  type int32 = v: int | I32Min <= v <= I32Max

  /** Rust's `n as i32` on a wider integer: the low 32 bits, read as two's complement. */
  function WrapI32(n: int): (r: int32)
    ensures InI32(n) ==> r == n
  {
    (n - I32Min) % 0x1_0000_0000 + I32Min
  }

  /** Rust's `i32::from_str`: an optional `+` or `-`, then at least one ASCII digit,
      and a value that fits in 32 bits; anything else is an error (here `None`). */
  function ParseI32(s: string): (r: Option<int>)
    ensures r.Some? ==> InI32(r.value)
    ensures r.Some? ==> |s| > 0
    ensures AllDigits(s) && |s| > 0 && DigitsValue(s) <= I32Max ==> r == Some(DigitsValue(s))
    ensures AllDigits(s) && DigitsValue(s) > I32Max ==> r == None
    ensures |s| > 0 && s[0] != '+' && s[0] != '-' && !AllDigits(s) ==> r == None
    ensures r.Some? && s[0] == '-' ==> |s| > 1 && AllDigits(s[1..]) && r.value == -(DigitsValue(s[1..]) as int)
  {
    if |s| == 0 then None
    else if s[0] == '+' || s[0] == '-' then
      var digits := s[1..];
      if |digits| == 0 || !AllDigits(digits) then None
      else
        var v := if s[0] == '-' then -(DigitsValue(digits) as int) else DigitsValue(digits);
        if InI32(v) then Some(v) else None
    else if !AllDigits(s) then None
    else if DigitsValue(s) <= I32Max then Some(DigitsValue(s) as int)
    else None
  }

  // ---------------------------------------------------------------------------
  // ASCII case

  function ToLowerChar(c: char): char {
    if 'A' <= c <= 'Z' then (c as int + 32) as char else c
  }

  function ToLowerAscii(s: string): (r: string)
    ensures |r| == |s|
    ensures forall i :: 0 <= i < |s| ==> r[i] == ToLowerChar(s[i])
  {
    seq(|s|, i requires 0 <= i < |s| => ToLowerChar(s[i]))
  }
}
