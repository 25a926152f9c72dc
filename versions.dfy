/**
 * The updater's version comparison: a version string is split at '.', the pieces that
 * parse as u32 are kept, and the first three (missing ones as 0) decide.
 */
module Versions {
  import opened Wrappers
  import opened Text

  /** `filter_map(|s| s.parse().ok())`: the components that parse as u32, in order. */
  function NumericParts(pieces: seq<string>): (r: seq<nat>)
    ensures |r| <= |pieces|
    ensures forall k :: 0 <= k < |r| ==> r[k] <= U32Max
    decreases |pieces|
  {
    if pieces == [] then []
    else
      match ParseU32(pieces[0])
      case Some(n) => [n] + NumericParts(pieces[1..])
      case None => NumericParts(pieces[1..])
  }

  lemma {:induction false} NumericPartsAppend(p: seq<string>, q: seq<string>)
    ensures NumericParts(p + q) == NumericParts(p) + NumericParts(q)
    decreases |p|
  {
    if p == [] {
      assert p + q == q;
    } else {
      assert (p + q)[1..] == p[1..] + q;
      NumericPartsAppend(p[1..], q);
    }
  }

  function VersionParts(v: string): seq<nat> {
    NumericParts(Split(v, '.'))
  }

  /** `parts.get(i).unwrap_or(&0)`. */
  function Component(parts: seq<nat>, i: nat): nat {
    if i < |parts| then parts[i] else 0
  }

  /** The comparison loop, from index `i` up to 3. */
  function NewerFrom(current: seq<nat>, candidate: seq<nat>, i: nat): bool
    decreases 3 - i
  {
    if i >= 3 then false
    else if Component(candidate, i) > Component(current, i) then true
    else if Component(candidate, i) < Component(current, i) then false
    else NewerFrom(current, candidate, i + 1)
  }

  /** The reference order: the first three components, missing ones as 0, compared lexicographically. */
  predicate TripleGreater(a: seq<nat>, b: seq<nat>) {
    var a0, a1, a2 := Component(a, 0), Component(a, 1), Component(a, 2);
    var b0, b1, b2 := Component(b, 0), Component(b, 1), Component(b, 2);
    a0 > b0 || (a0 == b0 && (a1 > b1 || (a1 == b1 && a2 > b2)))
  }

  /** `is_newer_version`: the candidate beats the current version in the reference order. */
  function IsNewerVersion(current: string, candidate: string): (r: bool)
    ensures r <==> TripleGreater(VersionParts(candidate), VersionParts(current))
  {
    NewerFrom(VersionParts(current), VersionParts(candidate), 0)
  }

  /** The loop decides the reference order on the parsed components. */
  lemma IsNewerVersionOrder(current: string, candidate: string)
    ensures IsNewerVersion(current, candidate) <==> TripleGreater(VersionParts(candidate), VersionParts(current))
  {
  }

  lemma IsNewerIrreflexive(v: string)
    ensures !IsNewerVersion(v, v)
  {
    IsNewerVersionOrder(v, v);
  }

  lemma IsNewerAsymmetric(a: string, b: string)
    ensures !(IsNewerVersion(a, b) && IsNewerVersion(b, a))
  {
    IsNewerVersionOrder(a, b);
    IsNewerVersionOrder(b, a);
  }

  /** The order is transitive, so a chain of updates only ever moves forward. */
  lemma IsNewerTransitive(a: string, b: string, c: string)
    requires IsNewerVersion(a, b) && IsNewerVersion(b, c)
    ensures IsNewerVersion(a, c)
  {
    IsNewerVersionOrder(a, b);
    IsNewerVersionOrder(b, c);
    IsNewerVersionOrder(a, c);
  }

  /** Appending further dot-separated components to a version with three numeric ones changes nothing. */
  lemma ComponentsAfterThirdIgnored(v: string, extra: string, other: string)
    requires |VersionParts(v)| >= 3
    ensures IsNewerVersion(other, v + "." + extra) == IsNewerVersion(other, v)
    ensures IsNewerVersion(v + "." + extra, other) == IsNewerVersion(v, other)
  {
    SplitConcat(v, '.', extra);
    assert v + "." + extra == v + ['.'] + extra;
    NumericPartsAppend(Split(v, '.'), Split(extra, '.'));
    var p := VersionParts(v);
    var q := VersionParts(v + "." + extra);
    assert q == p + NumericParts(Split(extra, '.'));
    assert Component(q, 0) == Component(p, 0);
    assert Component(q, 1) == Component(p, 1);
    assert Component(q, 2) == Component(p, 2);
    IsNewerVersionOrder(other, v);
    IsNewerVersionOrder(other, v + "." + extra);
    IsNewerVersionOrder(v, other);
    IsNewerVersionOrder(v + "." + extra, other);
  }

  lemma {:induction false} SplitWithoutSeparator(s: string)
    requires '.' !in s
    ensures Split(s, '.') == [s]
    decreases |s|
  {
    if s != [] {
      SplitWithoutSeparator(s[1..]);
      assert s == [s[0]] + s[1..];
    }
  }

  lemma VersionOfDigits(x: string, y: string, z: string)
    requires '.' !in x && '.' !in y && '.' !in z
    ensures Split(x + "." + y + "." + z, '.') == [x, y, z]
  {
    assert x + "." + y + "." + z == x + ['.'] + (y + ['.'] + z);
    SplitConcat(x, '.', y + ['.'] + z);
    SplitConcat(y, '.', z);
    SplitWithoutSeparator(x);
    SplitWithoutSeparator(y);
    SplitWithoutSeparator(z);
  }

  lemma DigitsParse()
    ensures ParseU32("0") == Some(0) && ParseU32("1") == Some(1)
    ensures ParseU32("2") == Some(2) && ParseU32("9") == Some(9)
  {
    assert NatToDecimal(0) == "0" && NatToDecimal(1) == "1";
    assert NatToDecimal(2) == "2" && NatToDecimal(9) == "9";
    ParseU32OfDecimal(0);
    ParseU32OfDecimal(1);
    ParseU32OfDecimal(2);
    ParseU32OfDecimal(9);
  }

  lemma VersionPartsOfThree(v: string, x: string, y: string, z: string, a: nat, b: nat, c: nat)
    requires v == x + "." + y + "." + z
    requires '.' !in x && '.' !in y && '.' !in z
    requires ParseU32(x) == Some(a) && ParseU32(y) == Some(b) && ParseU32(z) == Some(c)
    ensures VersionParts(v) == [a, b, c]
  {
    VersionOfDigits(x, y, z);
    assert NumericParts([z]) == [c] by {
      assert [z][1..] == [];
    }
    assert NumericParts([y, z]) == [b, c] by {
      assert [y, z][1..] == [z];
    }
    assert [x, y, z][1..] == [y, z];
  }

  lemma ExampleVersionParts()
    ensures VersionParts("1.0.0") == [1, 0, 0] && VersionParts("1.0.1") == [1, 0, 1]
    ensures VersionParts("1.1.0") == [1, 1, 0] && VersionParts("2.0.0") == [2, 0, 0]
    ensures VersionParts("0.9.9") == [0, 9, 9]
  {
    DigitsParse();
    ExampleVersion("1.0.0", "1", "0", "0", 1, 0, 0);
    ExampleVersion("1.0.1", "1", "0", "1", 1, 0, 1);
    ExampleVersion("1.1.0", "1", "1", "0", 1, 1, 0);
    ExampleVersion("2.0.0", "2", "0", "0", 2, 0, 0);
    ExampleVersion("0.9.9", "0", "9", "9", 0, 9, 9);
  }

  lemma ExampleVersion(v: string, x: string, y: string, z: string, a: nat, b: nat, c: nat)
    requires |v| == 5 && |x| == 1 && |y| == 1 && |z| == 1
    requires v[0] == x[0] && v[1] == '.' && v[2] == y[0] && v[3] == '.' && v[4] == z[0]
    requires IsDigit(x[0]) && IsDigit(y[0]) && IsDigit(z[0])
    requires ParseU32(x) == Some(a) && ParseU32(y) == Some(b) && ParseU32(z) == Some(c)
    ensures VersionParts(v) == [a, b, c]
  {
    assert v == x + "." + y + "." + z;
    VersionPartsOfThree(v, x, y, z, a, b, c);
  }

  /** From version 1.0.0: 1.0.1, 1.1.0 and 2.0.0 are newer; 1.0.0 and 0.9.9 are not. */
  lemma VersionComparisonExamples()
    ensures IsNewerVersion("1.0.0", "1.0.1")
    ensures IsNewerVersion("1.0.0", "1.1.0")
    ensures IsNewerVersion("1.0.0", "2.0.0")
    ensures !IsNewerVersion("1.0.0", "1.0.0")
    ensures !IsNewerVersion("1.0.0", "0.9.9")
  {
    ExampleVersionParts();
    IsNewerVersionOrder("1.0.0", "1.0.1");
    IsNewerVersionOrder("1.0.0", "1.1.0");
    IsNewerVersionOrder("1.0.0", "2.0.0");
    IsNewerVersionOrder("1.0.0", "1.0.0");
    IsNewerVersionOrder("1.0.0", "0.9.9");
  }
}
