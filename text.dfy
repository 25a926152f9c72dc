/**
 * String helpers shared by the modules: ASCII case folding, substring search,
 * the `split` family of Rust's `str`, decimal formatting and parsing.
 */
module Text {
  import opened Wrappers

  /** ASCII case folding of one character (Rust's `to_lowercase` restricted to ASCII). */
  function LowerChar(c: char): char {
    if 'A' <= c <= 'Z' then (c as int + 32) as char else c
  }

  function ToLower(s: string): (r: string)
    ensures |r| == |s|
    ensures forall i :: 0 <= i < |s| ==> r[i] == LowerChar(s[i])
  {
    seq(|s|, i requires 0 <= i < |s| => LowerChar(s[i]))
  }

  lemma ToLowerIdempotent(s: string)
    ensures ToLower(ToLower(s)) == ToLower(s)
  {
  }

  /** A string without upper-case letters is its own lowercase form. */
  lemma ToLowerOfLower(s: string)
    requires forall i :: 0 <= i < |s| ==> !('A' <= s[i] <= 'Z')
    ensures ToLower(s) == s
  {
  }

  /** `haystack.contains(needle)`: some suffix of `haystack` starts with `needle`. */
  predicate Contains(haystack: string, needle: string)
    decreases |haystack|
  {
    needle <= haystack || (|haystack| > 0 && Contains(haystack[1..], needle))
  }

  /** An occurrence at position `i` makes `needle` contained. */
  lemma {:induction false} ContainsFrom(haystack: string, needle: string, i: nat)
    requires i <= |haystack| && needle <= haystack[i..]
    ensures Contains(haystack, needle)
    decreases i
  {
    if i == 0 {
      assert haystack[0..] == haystack;
    } else {
      assert haystack[1..][i - 1..] == haystack[i..];
      ContainsFrom(haystack[1..], needle, i - 1);
    }
  }

  /** A contained `needle` occurs at some position. */
  lemma {:induction false} ContainsFind(haystack: string, needle: string) returns (i: nat)
    requires Contains(haystack, needle)
    ensures i <= |haystack| - |needle| && needle <= haystack[i..]
    decreases |haystack|
  {
    if needle <= haystack {
      i := 0;
      assert haystack[0..] == haystack;
    } else {
      var j := ContainsFind(haystack[1..], needle);
      assert haystack[1..][j..] == haystack[j + 1..];
      i := j + 1;
    }
  }

  lemma ContainsAt(haystack: string, needle: string)
    ensures Contains(haystack, needle) <==>
      exists i :: 0 <= i <= |haystack| - |needle| && needle <= haystack[i..]
  {
    if Contains(haystack, needle) {
      var i := ContainsFind(haystack, needle);
    }
    if exists i :: 0 <= i <= |haystack| - |needle| && needle <= haystack[i..] {
      var i :| 0 <= i <= |haystack| - |needle| && needle <= haystack[i..];
      ContainsFrom(haystack, needle, i);
    }
  }

  /** An occurrence of `needle` brings along each of its characters. */
  lemma {:induction false} ContainsChar(haystack: string, needle: string, c: char)
    requires c in needle
    ensures Contains(haystack, needle) ==> c in haystack
    decreases |haystack|
  {
    if needle <= haystack {
      var k :| 0 <= k < |needle| && needle[k] == c;
      assert haystack[k] == c;
    } else if |haystack| > 0 {
      ContainsChar(haystack[1..], needle, c);
      if Contains(haystack[1..], needle) {
        var k :| 0 <= k < |haystack[1..]| && haystack[1..][k] == c;
        assert haystack[k + 1] == c;
      }
    }
  }

  /** Lower-casing works character by character, so it distributes over concatenation. */
  lemma ToLowerAppend(a: string, b: string)
    ensures ToLower(a + b) == ToLower(a) + ToLower(b)
  {
    assert forall i :: 0 <= i < |a + b| ==> ToLower(a + b)[i] == (ToLower(a) + ToLower(b))[i];
  }

  /** An occurrence in `a + [c] + b` lies in `a`, lies in `b`, or covers the `c`. */
  lemma ContainsAcross(a: string, c: char, b: string, needle: string)
    ensures Contains(a + [c] + b, needle) ==> Contains(a, needle) || Contains(b, needle) || c in needle
  {
    var s := a + [c] + b;
    if Contains(s, needle) {
      var i := ContainsFind(s, needle);
      if i + |needle| <= |a| {
        assert needle <= a[i..] by {
          assert forall k :: 0 <= k < |needle| ==> a[i..][k] == s[i..][k];
        }
        ContainsFrom(a, needle, i);
      } else if i > |a| {
        assert s[i..] == b[i - |a| - 1..];
        ContainsFrom(b, needle, i - |a| - 1);
      } else {
        assert needle[|a| - i] == s[|a|];
      }
    }
  }

  /**
   * `needle` is not in `a + [c] + b` when it skips the separator `c` and some letter
   * of it is missing from each side.
   */
  lemma NotContainsAcross(a: string, c: char, b: string, needle: string, inA: char, inB: char)
    requires c !in needle && inA in needle && inA !in a && inB in needle && inB !in b
    ensures !Contains(a + [c] + b, needle)
  {
    ContainsAcross(a, c, b, needle);
    ContainsChar(a, needle, inA);
    ContainsChar(b, needle, inB);
  }

  /** The same with two separators: some letter of `needle` is missing from each of the three pieces. */
  lemma NotContainsAcrossTwo(a: string, c: char, b: string, c': char, d: string, needle: string, inA: char, inB: char, inD: char)
    requires c !in needle && c' !in needle
    requires inA in needle && inA !in a && inB in needle && inB !in b && inD in needle && inD !in d
    ensures !Contains(a + [c] + (b + [c'] + d), needle)
  {
    NotContainsAcross(b, c', d, needle, inB, inD);
    ContainsAcross(a, c, b + [c'] + d, needle);
    ContainsChar(a, needle, inA);
  }

  /** Index of the first `c` in `s`, or -1. */
  function IndexOf(s: string, c: char): (r: int)
    ensures r == -1 <==> c !in s
    ensures r != -1 ==> 0 <= r < |s| && s[r] == c && c !in s[..r]
    decreases |s|
  {
    if s == [] then -1
    else if s[0] == c then 0
    else
      var k := IndexOf(s[1..], c);
      if k == -1 then -1 else k + 1
  }

  /** `s.split_once(c)`: the text before and after the first `c`. */
  function SplitOnce(s: string, c: char): (r: Option<(string, string)>)
    ensures r.None? <==> c !in s
    ensures r.Some? ==> s == r.value.0 + [c] + r.value.1 && c !in r.value.0
  {
    var k := IndexOf(s, c);
    if k == -1 then None
    else
      assert s == s[..k] + [c] + s[k + 1..];
      Some((s[..k], s[k + 1..]))
  }

  /** What a split breaks on: one given character, or any whitespace character. */
  datatype Separator = Exactly(c: char) | AnyWhitespace

  predicate IsSeparator(sep: Separator, x: char) {
    match sep
    case Exactly(c) => x == c
    case AnyWhitespace => IsWhitespace(x)
  }

  /** `s.split(..)`: the pieces between separators, always at least one. */
  function SplitBy(s: string, sep: Separator): (r: seq<string>)
    ensures |r| >= 1
    decreases |s|
  {
    if s == [] then [""]
    else
      var rest := SplitBy(s[1..], sep);
      if IsSeparator(sep, s[0]) then [""] + rest
      else [[s[0]] + rest[0]] + rest[1..]
  }

  function Split(s: string, c: char): (r: seq<string>)
    ensures |r| >= 1
  {
    SplitBy(s, Exactly(c))
  }

  /** Glue pieces back together with `c` between them. */
  function JoinWith(pieces: seq<string>, c: char): string
    requires |pieces| >= 1
    decreases |pieces|
  {
    if |pieces| == 1 then pieces[0] else pieces[0] + [c] + JoinWith(pieces[1..], c)
  }

  /** Splitting on `c` loses nothing and no piece holds a `c`. */
  lemma {:induction false} SplitJoin(s: string, c: char)
    ensures JoinWith(Split(s, c), c) == s
    ensures forall k :: 0 <= k < |Split(s, c)| ==> c !in Split(s, c)[k]
    decreases |s|
  {
    if s != [] {
      SplitJoin(s[1..], c);
      var rest := Split(s[1..], c);
      assert Split(s, c) == if s[0] == c then [""] + rest else [[s[0]] + rest[0]] + rest[1..];
      if s[0] == c {
        assert ([""] + rest)[1..] == rest;
        assert s == [s[0]] + s[1..];
      } else {
        var r := [[s[0]] + rest[0]] + rest[1..];
        if |rest| == 1 {
          assert JoinWith(r, c) == [s[0]] + rest[0];
        } else {
          assert r[1..] == rest[1..];
          assert JoinWith(rest, c) == rest[0] + [c] + JoinWith(rest[1..], c);
        }
        assert s == [s[0]] + s[1..];
        forall k | 0 <= k < |r| ensures c !in r[k] {
          if k > 0 { assert r[k] == rest[k]; }
        }
      }
    }
  }

  /** Splitting text that holds a separator splits each side and concatenates the pieces. */
  lemma {:induction false} SplitConcat(a: string, c: char, b: string)
    ensures Split(a + [c] + b, c) == Split(a, c) + Split(b, c)
    decreases |a|
  {
    var s := a + [c] + b;
    if a == [] {
      assert s[1..] == b;
    } else {
      assert s[1..] == a[1..] + [c] + b;
      SplitConcat(a[1..], c, b);
    }
  }

  /** Rust's `char::is_whitespace`, ASCII part. */
  predicate IsWhitespace(c: char) {
    c == ' ' || c == '\t' || c == '\n' || c == '\r' || c == '\U{000B}' || c == '\U{000C}'
  }

  function NonEmpty(pieces: seq<string>): (r: seq<string>)
    ensures forall k :: 0 <= k < |r| ==> r[k] != ""
    ensures |r| <= |pieces|
  {
    if pieces == [] then []
    else if pieces[0] == "" then NonEmpty(pieces[1..])
    else [pieces[0]] + NonEmpty(pieces[1..])
  }

  /** `s.split_whitespace()`: the non-empty runs between whitespace characters. */
  function SplitWhitespace(s: string): seq<string> {
    NonEmpty(SplitBy(s, AnyWhitespace))
  }

  predicate IsDigit(c: char) { '0' <= c <= '9' }

  predicate AllDigits(s: string) { forall i :: 0 <= i < |s| ==> IsDigit(s[i]) }

  function DigitChar(d: nat): (c: char)
    requires d < 10
    ensures IsDigit(c)
  {
    ('0' as int + d) as char
  }

  /** The numeric value of a string of decimal digits, read left to right. */
  function DecimalValue(s: string): nat
    requires AllDigits(s)
    decreases |s|
  {
    if s == [] then 0
    else DecimalValue(s[..|s| - 1]) * 10 + (s[|s| - 1] as int - '0' as int)
  }

  /** `format!("{}", n)`: decimal digits without leading zeros. */
  function NatToDecimal(n: nat): (r: string)
    ensures |r| >= 1 && AllDigits(r)
    decreases n
  {
    if n < 10 then [DigitChar(n)] else NatToDecimal(n / 10) + [DigitChar(n % 10)]
  }

  lemma {:induction false} DecimalRoundTrip(n: nat)
    ensures DecimalValue(NatToDecimal(n)) == n
    decreases n
  {
    if n >= 10 {
      DecimalRoundTrip(n / 10);
      var s := NatToDecimal(n);
      assert s[..|s| - 1] == NatToDecimal(n / 10);
    }
  }

  /** Distinct numbers print differently. */
  lemma NatToDecimalInjective(a: nat, b: nat)
    ensures NatToDecimal(a) == NatToDecimal(b) ==> a == b
  {
    DecimalRoundTrip(a);
    DecimalRoundTrip(b);
  }

  /** The text after the last `c` in `s` (all of `s` when there is none). */
  function AfterLast(s: string, c: char): string
    decreases |s|
  {
    if s == [] then []
    else if s[|s| - 1] == c then []
    else AfterLast(s[..|s| - 1], c) + [s[|s| - 1]]
  }

  lemma {:induction false} AfterLastOfJoin(a: string, c: char, b: string)
    requires c !in b
    ensures AfterLast(a + [c] + b, c) == b
    decreases |b|
  {
    var s := a + [c] + b;
    if b != [] {
      assert s[..|s| - 1] == a + [c] + b[..|b| - 1];
      AfterLastOfJoin(a, c, b[..|b| - 1]);
      assert b == b[..|b| - 1] + [b[|b| - 1]];
    }
  }

  const U32Max: nat := 0xFFFF_FFFF

  /**
   * `s.parse::<u32>()`: an optional leading '+', then at least one decimal digit,
   * and a value that fits in 32 bits.
   */
  function ParseU32(s: string): (r: Option<nat>)
    ensures r.Some? ==> r.value <= U32Max
  {
    var digits := if |s| > 0 && s[0] == '+' then s[1..] else s;
    if digits == [] || !AllDigits(digits) then None
    else
      var v := DecimalValue(digits);
      if v <= U32Max then Some(v) else None
  }

  lemma ParseU32OfDecimal(n: nat)
    requires n <= U32Max
    ensures ParseU32(NatToDecimal(n)) == Some(n)
  {
    DecimalRoundTrip(n);
  }
}
