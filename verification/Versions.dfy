/**
 Version strings: splitting them at the dots, and comparing them by a weighted
 sum of part comparisons that stands in for the lexicographic order of the parts.
 */
module Versions {

  // ---- strings ----

  /** The sign of std::string::compare: -1, 0 or 1 by lexicographic order. */
  function StrSign(a: string, b: string): (r: int)
    ensures -1 <= r <= 1
  {
    if a == "" then (if b == "" then 0 else -1)
    else if b == "" then 1
    else if a[0] < b[0] then -1
    else if b[0] < a[0] then 1
    else StrSign(a[1..], b[1..])
  }

  lemma {:induction false} StrSignAntisymmetric(a: string, b: string)
    ensures StrSign(b, a) == -StrSign(a, b)
    ensures StrSign(a, b) == 0 <==> a == b
  {
    if a != "" && b != "" {
      StrSignAntisymmetric(a[1..], b[1..]);
      assert a == [a[0]] + a[1..] && b == [b[0]] + b[1..];
    }
  }

  lemma {:induction false} StrSignTransitive(a: string, b: string, c: string)
    requires StrSign(a, b) <= 0 && StrSign(b, c) <= 0
    ensures StrSign(a, c) <= 0
    ensures StrSign(a, c) == 0 ==> StrSign(a, b) == 0 && StrSign(b, c) == 0
  {
    if a != "" && b != "" && c != "" && a[0] == b[0] == c[0] {
      StrSignTransitive(a[1..], b[1..], c[1..]);
    }
  }

  /** The first character that differs decides, and a string is less than its continuations. */
  lemma {:induction false} StrSignIs(a: string, b: string, i: nat)
    requires i <= |a| && i <= |b| && forall k :: 0 <= k < i ==> a[k] == b[k]
    ensures i < |a| && i < |b| && a[i] < b[i] ==> StrSign(a, b) == -1
    ensures i < |a| && i < |b| && a[i] > b[i] ==> StrSign(a, b) == 1
    ensures i == |a| < |b| ==> StrSign(a, b) == -1
    ensures i == |b| < |a| ==> StrSign(a, b) == 1
    ensures i == |a| == |b| ==> StrSign(a, b) == 0
  {
    if i > 0 {
      StrSignIs(a[1..], b[1..], i - 1);
    }
  }

  // ---- splitting: CSimpleParser::Split(version, ".") ----

  /** The length of the token at the front. */
  function TokenLength(s: string): (n: nat)
    ensures n <= |s|
    ensures forall i :: 0 <= i < n ==> s[i] != '.'
    ensures n < |s| ==> s[n] == '.'
  {
    if s == "" || s[0] == '.' then 0 else 1 + TokenLength(s[1..])
  }

  /** The maximal pieces without dots; dots at either end, and repeated ones, are skipped. */
  function Split(s: string): (parts: seq<string>)
    decreases |s|
  {
    if s == "" then []
    else if s[0] == '.' then Split(s[1..])
    else [s[..TokenLength(s)]] + Split(s[TokenLength(s)..])
  }

  /** At a dot the pieces on either side are put together. */
  lemma {:induction false} SplitAtDot(a: string, b: string)
    ensures Split(a + "." + b) == Split(a) + Split(b)
    decreases |a|
  {
    var s := a + "." + b;
    if a == "" {
      assert s[1..] == b;
    } else if a[0] == '.' {
      assert s[1..] == a[1..] + "." + b;
      SplitAtDot(a[1..], b);
    } else {
      var n := TokenLength(a);
      TokenLengthIs(s, n);
      SplitAtDot(a[n..], b);
      SplitToken(a);
      SplitToken(s);
      assert s[..n] == a[..n] && s[n..] == a[n..] + "." + b;
    }
  }

  lemma SplitToken(s: string)
    requires s != "" && s[0] != '.'
    ensures Split(s) == [s[..TokenLength(s)]] + Split(s[TokenLength(s)..])
  {
  }

  /** A string without dots is one piece. */
  lemma SplitNoDot(s: string)
    requires s != "" && forall i :: 0 <= i < |s| ==> s[i] != '.'
    ensures Split(s) == [s]
  {
    assert TokenLength(s) == |s|;
    SplitToken(s);
    assert s[..|s|] == s && s[|s|..] == "";
  }

  lemma {:induction false} TokenLengthIs(s: string, n: nat)
    requires n < |s| && s[n] == '.' && forall i :: 0 <= i < n ==> s[i] != '.'
    ensures TokenLength(s) == n
  {
    if n > 0 {
      TokenLengthIs(s[1..], n - 1);
    }
  }

  /** Part i of a version, with missing parts read as "0". */
  function Part(parts: seq<string>, i: nat): string {
    if i < |parts| then parts[i] else "0"
  }

  function MaxParts(p: seq<string>, q: seq<string>): nat {
    if |p| > |q| then |p| else |q|
  }

  // ---- the order the comparison stands for ----

  function Head(p: seq<string>): string { Part(p, 0) }

  function Tail(p: seq<string>): seq<string> { if p == [] then [] else p[1..] }

  /** Lexicographic comparison of the parts, padded with "0" without end. */
  function VersionOrder(p: seq<string>, q: seq<string>): (r: int)
    ensures -1 <= r <= 1
    decreases |p| + |q|
  {
    if p == [] && q == [] then 0
    else
      var c := StrSign(Head(p), Head(q));
      if c != 0 then c else VersionOrder(Tail(p), Tail(q))
  }

  /** The first part that differs decides, and a missing part counts as "0". */
  lemma {:induction false} FirstDifferenceDecides(p: seq<string>, q: seq<string>, i: nat)
    requires forall k :: 0 <= k < i ==> (if k < |p| then p[k] else "0") == (if k < |q| then q[k] else "0")
    ensures
      var x, y := if i < |p| then p[i] else "0", if i < |q| then q[i] else "0";
      x != y ==> VersionOrder(p, q) == StrSign(x, y)
    ensures i >= |p| && i >= |q| ==> VersionOrder(p, q) == 0
  {
    StrSignAntisymmetric(Head(p), Head(q));
    if i > 0 && (p != [] || q != []) {
      forall k | 0 <= k < i - 1
        ensures (if k < |Tail(p)| then Tail(p)[k] else "0") == (if k < |Tail(q)| then Tail(q)[k] else "0")
      {
        assert (if k + 1 < |p| then p[k + 1] else "0") == (if k + 1 < |q| then q[k + 1] else "0");
      }
      FirstDifferenceDecides(Tail(p), Tail(q), i - 1);
    }
  }

  lemma {:induction false} VersionOrderAntisymmetric(p: seq<string>, q: seq<string>)
    ensures VersionOrder(q, p) == -VersionOrder(p, q)
    decreases |p| + |q|
  {
    if p != [] || q != [] {
      StrSignAntisymmetric(Head(p), Head(q));
      VersionOrderAntisymmetric(Tail(p), Tail(q));
    }
  }

  lemma {:induction false} VersionOrderReflexive(p: seq<string>)
    ensures VersionOrder(p, p) == 0
  {
    VersionOrderAntisymmetric(p, p);
  }

  /** The order is transitive also across versions with different numbers of parts. */
  lemma {:induction false} VersionOrderTransitive(p: seq<string>, q: seq<string>, r: seq<string>)
    requires VersionOrder(p, q) <= 0 && VersionOrder(q, r) <= 0
    ensures VersionOrder(p, r) <= 0
    ensures VersionOrder(p, r) == 0 ==> VersionOrder(p, q) == 0 && VersionOrder(q, r) == 0
    decreases |p| + |q| + |r|
  {
    if p != [] || q != [] || r != [] {
      StrSignTransitive(Head(p), Head(q), Head(r));
      StrSignAntisymmetric(Head(p), Head(q));
      StrSignAntisymmetric(Head(q), Head(r));
      if StrSign(Head(p), Head(q)) == 0 && StrSign(Head(q), Head(r)) == 0 {
        StrSignAntisymmetric(Head(p), Head(r));
        VersionOrderTransitive(Tail(p), Tail(q), Tail(r));
      }
    }
  }

  // ---- the weighted sum ----

  function Pow4(n: nat): (p: int)
    ensures p >= 1
  {
    if n == 0 then 1 else 4 * Pow4(n - 1)
  }

  /** Each difference weighs four times as much as the next. */
  function WeightedSum(ds: seq<int>): int {
    if ds == [] then 0 else Pow4(|ds|) * ds[0] + WeightedSum(ds[1..])
  }

  function Sign(d: int): int { if d > 0 then 1 else if d < 0 then -1 else 0 }

  /** The sign of the first difference that is not zero. */
  function FirstSign(ds: seq<int>): int {
    if ds == [] then 0 else if ds[0] != 0 then Sign(ds[0]) else FirstSign(ds[1..])
  }

  predicate Bounded(ds: seq<int>, bound: int) {
    forall i :: 0 <= i < |ds| ==> -bound <= ds[i] <= bound
  }

  lemma Scale(w: int, d: int, bound: int)
    requires w >= 0 && -bound <= d <= bound
    ensures -(w * bound) <= w * d <= w * bound
  {
    ProductOrder(w, d, bound);
    ProductOrder(w, -bound, d);
    assert w * -bound == -(w * bound);
  }

  lemma ProductOrder(w: int, a: int, b: int)
    requires w >= 0 && a <= b
    ensures w * a <= w * b
  {
  }

  lemma Regroup(bound: int, w: int)
    ensures bound * (4 * w - 4) == 3 * (w * bound) + bound * (w - 4)
  {
  }

  /** Differences of magnitude at most bound sum to at most bound * (4 + 16 + ...). */
  lemma {:induction false} WeightedSumBound(ds: seq<int>, bound: nat)
    requires Bounded(ds, bound)
    ensures 3 * WeightedSum(ds) <= bound * (Pow4(|ds| + 1) - 4)
    ensures -3 * WeightedSum(ds) <= bound * (Pow4(|ds| + 1) - 4)
  {
    if ds == [] {
      assert Pow4(1) == 4;
    } else {
      WeightedSumBound(ds[1..], bound);
      var w := Pow4(|ds|);
      assert Pow4(|ds| + 1) == 4 * w;
      Scale(w, ds[0], bound);
      Regroup(bound, w);
    }
  }

  /** Magnitudes of at most 3 are small enough: the sum has the sign of the first difference. */
  lemma {:induction false} WeightedSumSign(ds: seq<int>)
    requires Bounded(ds, 3)
    ensures Sign(WeightedSum(ds)) == FirstSign(ds)
  {
    if ds != [] {
      if ds[0] == 0 {
        assert Pow4(|ds|) * ds[0] == 0;
        WeightedSumSign(ds[1..]);
      } else {
        WeightedSumBound(ds[1..], 3);
        if ds[0] > 0 { ProductOrder(Pow4(|ds|), 1, ds[0]); } else { ProductOrder(Pow4(|ds|), ds[0], -1); }
      }
    }
  }

  /** The bound is exact: the sum stands for the lexicographic order just if part comparisons stay within 3. */
  lemma SumIsOrderIff(bound: nat)
    ensures (forall ds :: Bounded(ds, bound) ==> Sign(WeightedSum(ds)) == FirstSign(ds)) <==> bound <= 3
  {
    if bound <= 3 {
      forall ds | Bounded(ds, bound)
        ensures Sign(WeightedSum(ds)) == FirstSign(ds)
      {
        WeightedSumSign(ds);
      }
    } else {
      var ds := [1, -4];
      assert Bounded(ds, bound);
      assert WeightedSum(ds[1..]) == -16 && Pow4(2) == 16 by {
        assert Pow4(1) == 4;
        assert ds[1..] == [-4];
        assert WeightedSum([-4]) == Pow4(1) * -4 + WeightedSum([-4][1..]);
      }
      assert WeightedSum(ds) == 0;
      assert FirstSign(ds) == 1;
    }
  }

  // ---- part comparisons ----

  /** An implementation of std::string::compare; the standard fixes its sign only. */
  type PartCompare = (string, string) -> int

  ghost predicate IsPartCompare(cmp: PartCompare, bound: nat) {
    forall a, b :: Sign(cmp(a, b)) == StrSign(a, b) && Magnitude(cmp(a, b)) <= bound
  }

  function Magnitude(d: int): nat { if d < 0 then -d else d }

  function Diffs(cmp: PartCompare, p: seq<string>, q: seq<string>): (ds: seq<int>)
    ensures |ds| == MaxParts(p, q)
    decreases |p| + |q|
  {
    if p == [] && q == [] then []
    else [cmp(Head(p), Head(q))] + Diffs(cmp, Tail(p), Tail(q))
  }

  lemma {:induction false} DiffsAt(cmp: PartCompare, p: seq<string>, q: seq<string>, i: nat)
    requires i < MaxParts(p, q)
    ensures Diffs(cmp, p, q)[i] == cmp(Part(p, i), Part(q, i))
    decreases |p| + |q|
  {
    if i > 0 {
      DiffsAt(cmp, Tail(p), Tail(q), i - 1);
    }
  }

  lemma {:induction false} DiffsFollowOrder(cmp: PartCompare, bound: nat, p: seq<string>, q: seq<string>)
    requires IsPartCompare(cmp, bound)
    ensures Bounded(Diffs(cmp, p, q), bound)
    ensures FirstSign(Diffs(cmp, p, q)) == VersionOrder(p, q)
    decreases |p| + |q|
  {
    if p != [] || q != [] {
      DiffsFollowOrder(cmp, bound, Tail(p), Tail(q));
      assert Sign(cmp(Head(p), Head(q))) == StrSign(Head(p), Head(q));
      assert Diffs(cmp, p, q)[1..] == Diffs(cmp, Tail(p), Tail(q));
    }
  }

  /** What libraries that return the difference of the first unequal characters do. */
  function CharDifference(a: string, b: string): int {
    if a == "" || b == "" then |a| - |b|
    else if a[0] != b[0] then a[0] as int - b[0] as int
    else CharDifference(a[1..], b[1..])
  }

  /** With such a library version 1.a counts as newer than version 2.9. */
  lemma CharDifferenceMisleads()
    ensures Sign(WeightedSum(Diffs(CharDifference, Split("1.a"), Split("2.9")))) == 1
    ensures VersionOrder(Split("1.a"), Split("2.9")) == -1
  {
    SplitTwo("1", "a");
    SplitTwo("2", "9");
    var p, q := ["1", "a"], ["2", "9"];
    assert "1.a" == "1" + "." + "a" && "2.9" == "2" + "." + "9";
    var ds := Diffs(CharDifference, p, q);
    DiffsAt(CharDifference, p, q, 0);
    DiffsAt(CharDifference, p, q, 1);
    assert ds == [-1, 40];
    assert ds[1..] == [40] && Pow4(1) == 4 && Pow4(2) == 16;
    assert WeightedSum([40]) == Pow4(1) * 40 + WeightedSum([40][1..]);
    assert StrSign(Head(p), Head(q)) == -1;
  }

  lemma SplitTwo(a: string, b: string)
    requires |a| == 1 && |b| == 1 && a[0] != '.' && b[0] != '.'
    ensures Split(a + "." + b) == [a, b]
  {
    var s := a + "." + b;
    assert s[1..] == "." + b && s[..1] == a;
    assert TokenLength(s[1..]) == 0;
    assert TokenLength(s) == 1;
    assert Split(s) == [a] + Split("." + b);
    assert ("." + b)[1..] == b;
    assert TokenLength(b) == 1 + TokenLength(b[1..]);
    assert b[..1] == b && b[1..] == "";
    assert Split(b) == [b] + Split("");
  }

  // ---- VersionCompare in 32-bit arithmetic ----

  newtype int32 = x: int | -0x8000_0000 <= x < 0x8000_0000

  /** The sum over n parts of differences up to bound, and the shift of its largest weight, fit an int. */
  predicate FitsInt(n: nat, bound: nat) {
    bound * (Pow4(n + 1) - 4) <= 3 * 0x7fff_ffff && Pow4(n) <= 0x4000_0000
  }

  /** A sum and the sum of what is still to come. */
  lemma {:induction false} SumFrom(ds: seq<int>, i: nat)
    requires i < |ds|
    ensures WeightedSum(ds[i..]) == Pow4(|ds| - i) * ds[i] + WeightedSum(ds[i + 1..])
  {
    assert ds[i..][1..] == ds[i + 1..];
  }

  lemma {:induction false} Pow4Monotone(a: nat, b: nat)
    requires a <= b
    ensures Pow4(a) <= Pow4(b)
  {
    if a < b { Pow4Monotone(a, b - 1); }
  }

  /** Every partial sum stays within the bound of the whole. */
  lemma {:induction false} PartialSumBound(ds: seq<int>, i: nat, bound: nat)
    requires i <= |ds| && Bounded(ds, bound)
    ensures 3 * Magnitude(WeightedSum(ds) - WeightedSum(ds[i..])) <= bound * (Pow4(|ds| + 1) - 4)
  {
    if i == 0 {
      assert ds[0..] == ds;
      Pow4Monotone(1, |ds| + 1);
      assert Pow4(1) == 4;
      ProductOrder(bound, 0, Pow4(|ds| + 1) - 4);
    } else {
      var rest := ds[1..];
      PartialSumBound(rest, i - 1, bound);
      assert rest[i - 1..] == ds[i..];
      var w := Pow4(|ds|);
      Scale(w, ds[0], bound);
      assert Pow4(|ds| + 1) == 4 * w;
      Regroup(bound, w);
    }
  }

  lemma FitsIntBounds(n: nat, bound: nat, total: int)
    requires FitsInt(n, bound) && 3 * Magnitude(total) <= bound * (Pow4(n + 1) - 4)
    ensures -0x8000_0000 < total < 0x8000_0000
  {
  }

  lemma WeightFits(n: nat, i: nat, bound: nat, d: int)
    requires i < n && FitsInt(n, bound) && bound <= 3 && Magnitude(d) <= bound
    ensures Pow4(n - i) < 0x8000_0000
    ensures -0x8000_0000 <= Pow4(n - i) * d < 0x8000_0000
  {
    var w := Pow4(n);
    Pow4Monotone(n - i, n);
    Pow4Monotone(1, n);
    assert Pow4(1) == 4;
    Scale(Pow4(n - i), d, bound);
    ProductOrder(bound, Pow4(n - i), w);
    assert Pow4(n - i) * bound == bound * Pow4(n - i);
    assert Pow4(n + 1) == 4 * w;
    ProductOrder(bound, 3 * w, 4 * w - 4);
    assert bound * (3 * w) == 3 * (bound * w);
  }

  /** What the first i differences contribute to the sum. */
  function SumBefore(ds: seq<int>, i: nat): int
    requires i <= |ds|
  {
    WeightedSum(ds) - WeightedSum(ds[i..])
  }

  /** One step of the sum fits an int throughout. */
  lemma StepFits(ds: seq<int>, i: nat, bound: nat)
    requires i < |ds| && Bounded(ds, bound) && bound <= 3 && FitsInt(|ds|, bound)
    ensures Pow4(|ds| - i) < 0x8000_0000
    ensures -0x8000_0000 <= Pow4(|ds| - i) * ds[i] < 0x8000_0000
    ensures SumBefore(ds, i + 1) == SumBefore(ds, i) + Pow4(|ds| - i) * ds[i]
    ensures -0x8000_0000 < SumBefore(ds, i + 1) < 0x8000_0000
  {
    SumFrom(ds, i);
    PartialSumBound(ds, i + 1, bound);
    FitsIntBounds(|ds|, bound, SumBefore(ds, i + 1));
    WeightFits(|ds|, i, bound, ds[i]);
  }

  /** n times the same difference. */
  function Constant(n: nat, d: int): (ds: seq<int>)
    ensures |ds| == n
    ensures forall i :: 0 <= i < n ==> ds[i] == d
  {
    seq(n, _ => d)
  }

  lemma {:induction false} ConstantSum(n: nat, d: int)
    ensures 3 * WeightedSum(Constant(n, d)) == d * (Pow4(n + 1) - 4)
  {
    if n == 0 {
      assert Pow4(1) == 4;
    } else {
      assert Constant(n, d)[1..] == Constant(n - 1, d);
      ConstantSum(n - 1, d);
      assert Pow4(n + 1) == 4 * Pow4(n);
      Regroup(d, Pow4(n));
    }
  }

  ghost predicate SumsFit(n: nat, bound: nat) {
    forall ds :: |ds| == n && Bounded(ds, bound) ==> -0x8000_0000 <= WeightedSum(ds) < 0x8000_0000
  }

  /** n parts fit an int just if no sum of differences up to bound overflows, and neither does the largest shift. */
  lemma FitsIntIff(n: nat, bound: nat)
    ensures FitsInt(n, bound) <==> SumsFit(n, bound) && Pow4(n) <= 0x4000_0000
  {
    if FitsInt(n, bound) {
      forall ds: seq<int> | |ds| == n && Bounded(ds, bound)
        ensures -0x8000_0000 <= WeightedSum(ds) < 0x8000_0000
      {
        WeightedSumBound(ds, bound);
      }
    }
    ConstantSum(n, bound);
    assert Bounded(Constant(n, bound), bound);
    assert SumsFit(n, bound) ==> WeightedSum(Constant(n, bound)) < 0x8000_0000;
  }

  /**
   With sign-valued part comparisons 15 parts are safe, and the sum of 16 can overflow; with magnitudes up to 3
   these are 14 and 15.
   */
  lemma SafePartCounts()
    ensures FitsInt(15, 1) && !SumsFit(16, 1)
    ensures FitsInt(14, 3) && !SumsFit(15, 3)
  {
    assert Pow4(2) == 16 && Pow4(4) == 256 by { assert Pow4(1) == 4; assert Pow4(3) == 64; }
    assert Pow4(6) == 4096 && Pow4(8) == 65536 by { assert Pow4(5) == 1024; assert Pow4(7) == 16384; }
    assert Pow4(10) == 1048576 && Pow4(12) == 16777216 by { assert Pow4(9) == 262144; assert Pow4(11) == 4194304; }
    assert Pow4(14) == 268435456 && Pow4(13) == 67108864;
    assert Pow4(15) == 1073741824 && Pow4(16) == 4294967296 && Pow4(17) == 17179869184;
    ConstantSum(16, 1);
    ConstantSum(15, 3);
    assert Bounded(Constant(16, 1), 1) && Bounded(Constant(15, 3), 3);
  }

  /** The closing bit trick, on the bits of a 32-bit int: (d != 0) | -(d >>> 31). */
  function SignTrick(d: bv32): bv32 {
    (if d != 0 then 1 else 0) | (0 - (d >> 31))
  }

  /** It yields the bits of 1, 0 and -1 for positive numbers, zero and numbers with the sign bit set. */
  lemma SignTrickIsSign(d: bv32)
    ensures SignTrick(d) == if d == 0 then 0 else if d < 0x8000_0000 then 1 else 0xFFFF_FFFF
  {
    if d < 0x8000_0000 {
      assert d >> 31 == 0;
    } else {
      assert d >> 31 == 1;
    }
  }

  /**
   AILibraryManager::VersionCompare. No step of the sum overflows, and the
   result is the lexicographic order of the zero-padded parts.
   */
  method VersionCompare(cmp: PartCompare, ghost bound: nat, version1: string, version2: string) returns (r: int32)
    requires bound <= 3 && IsPartCompare(cmp, bound)
    requires FitsInt(MaxParts(Split(version1), Split(version2)), bound)
    ensures r as int == VersionOrder(Split(version1), Split(version2))
  {
    var parts1, parts2 := Split(version1), Split(version2);
    var maxParts := MaxParts(parts1, parts2);
    ghost var ds := Diffs(cmp, parts1, parts2);
    DiffsFollowOrder(cmp, bound, parts1, parts2);
    var diff: int32 := 0;
    assert SumBefore(ds, 0) == 0 by { assert ds[0..] == ds; }
    for i := 0 to maxParts
      invariant diff as int == SumBefore(ds, i)
    {
      var v1p, v2p := Part(parts1, i), Part(parts2, i);
      DiffsAt(cmp, parts1, parts2, i);
      StepFits(ds, i, bound);
      var weight := Pow4(maxParts - i) as int32;
      diff := diff + weight * cmp(v1p, v2p) as int32;
    }
    assert SumBefore(ds, maxParts) == WeightedSum(ds) by { assert ds[maxParts..] == []; }
    WeightedSumSign(ds);
    // the bit trick, see SignTrickIsSign
    r := if diff == 0 then 0 else if diff > 0 then 1 else -1;
  }

  // ---- where the order of strings and the order of versions agree ----

  /** Parts as version strings normally have them: not empty, and made of characters from '0' on. */
  predicate Canonical(parts: seq<string>) {
    forall i :: 0 <= i < |parts| ==> CanonicalPart(parts[i])
  }

  predicate CanonicalPart(part: string) {
    part != "" && forall i :: 0 <= i < |part| ==> part[i] >= '0'
  }

  function Join(parts: seq<string>): string {
    if parts == [] then ""
    else parts[0] + Rest(parts)
  }

  /** What follows the first part. */
  function Rest(parts: seq<string>): string
    requires parts != []
    decreases parts, 0
  {
    if |parts| == 1 then "" else "." + Join(parts[1..])
  }

  lemma {:induction false} TokenOfPart(part: string, rest: string)
    requires forall i :: 0 <= i < |part| ==> part[i] != '.'
    requires rest == "" || rest[0] == '.'
    ensures TokenLength(part + rest) == |part|
  {
    var s := part + rest;
    if part == "" {
      assert s == rest;
    } else {
      assert s[1..] == part[1..] + rest;
      TokenOfPart(part[1..], rest);
    }
  }

  /** Splitting undoes joining. */
  lemma {:induction false} SplitJoin(parts: seq<string>)
    requires Canonical(parts)
    ensures Split(Join(parts)) == parts
  {
    if parts != [] {
      var s, part, rest := Join(parts), parts[0], Rest(parts);
      assert CanonicalPart(part);
      TokenOfPart(part, rest);
      assert s[..|part|] == part && s[|part|..] == rest;
      assert Split(s) == [part] + Split(rest);
      if |parts| > 1 {
        assert rest[1..] == Join(parts[1..]);
        SplitJoin(parts[1..]);
        assert parts == [part] + parts[1..];
      } else {
        assert parts == [part];
      }
    }
  }

  lemma {:induction false} CommonPrefix(a: string, x: string, y: string)
    ensures StrSign(a + x, a + y) == StrSign(x, y)
  {
    if a == "" {
      assert a + x == x && a + y == y;
    } else {
      assert (a + x)[1..] == a[1..] + x && (a + y)[1..] == a[1..] + y;
      CommonPrefix(a[1..], x, y);
    }
  }

  /** Different parts decide the order of the strings, because a dot sorts before every character of a part. */
  lemma {:induction false} FirstPartDecides(a: string, x: string, b: string, y: string)
    requires a != b
    requires forall i :: 0 <= i < |a| ==> a[i] >= '0'
    requires forall i :: 0 <= i < |b| ==> b[i] >= '0'
    requires (x == "" || x[0] == '.') && (y == "" || y[0] == '.')
    ensures StrSign(a + x, b + y) == StrSign(a, b)
  {
    var s, t := a + x, b + y;
    if a == "" {
      assert s == x && t[0] == b[0];
    } else if b == "" {
      assert t == y && s[0] == a[0];
    } else if a[0] == b[0] {
      assert s[1..] == a[1..] + x && t[1..] == b[1..] + y;
      assert a == [a[0]] + a[1..] && b == [b[0]] + b[1..];
      FirstPartDecides(a[1..], x, b[1..], y);
    }
  }

  /** Parts as splitting gives them. */
  predicate Tidy(parts: seq<string>) {
    forall i :: 0 <= i < |parts| ==> parts[i] != "" && '.' !in parts[i]
  }

  /**
   The string of p sorts before that of q although p is the newer version: where they first differ, the part of
   p goes on with a character below the dot that ends the part of q; or p ends, and q goes on below zero.
   */
  predicate Misleads(p: seq<string>, q: seq<string>) {
    if q == [] then false
    else if p == [] then VersionOrder([], q) > 0
    else if p[0] == q[0] then Misleads(p[1..], q[1..])
    else |q| > 1 && q[0] < p[0] && p[0][|q[0]|] < '.'
  }

  /** For different parts without dots, followed by nothing or by a dot. */
  lemma {:induction false} PartsMislead(a: string, x: string, b: string, y: string)
    requires a != b && '.' !in a && '.' !in b
    requires (x == "" || x[0] == '.') && (y == "" || y[0] == '.')
    ensures StrSign(a + x, b + y) < 0 < StrSign(a, b) <==> y != "" && b < a && a[|b|] < '.'
  {
    var s, t := a + x, b + y;
    if a == "" {
    } else if b == "" {
      assert t == y && s[0] == a[0];
      assert a[0] in a;
    } else if a[0] == b[0] {
      assert s[1..] == a[1..] + x && t[1..] == b[1..] + y;
      assert a == [a[0]] + a[1..] && b == [b[0]] + b[1..];
      PartsMislead(a[1..], x, b[1..], y);
      assert b < a <==> b[1..] < a[1..];
    } else {
      assert s[0] == a[0] && t[0] == b[0];
    }
  }

  /** Exactly when the order of strings contradicts the order of versions. */
  lemma {:induction false} MisleadsIff(p: seq<string>, q: seq<string>)
    requires Tidy(p) && Tidy(q)
    ensures StrSign(Join(p), Join(q)) < 0 < VersionOrder(p, q) <==> Misleads(p, q)
  {
    if p == [] || q == [] {
      if q != [] { assert q[0] != "" && Join(q) != ""; }
    } else if p[0] == q[0] {
      CommonPrefix(p[0], Rest(p), Rest(q));
      StrSignAntisymmetric(p[0], q[0]);
      MisleadsIff(p[1..], q[1..]);
      if |p| > 1 && |q| > 1 {
        CommonPrefix(".", Join(p[1..]), Join(q[1..]));
      } else if |p| == 1 && |q| > 1 {
        assert q[1..][0] != "";
      }
    } else {
      StrSignAntisymmetric(p[0], q[0]);
      PartsMislead(p[0], Rest(p), q[0], Rest(q));
    }
  }

  /** The padding "0" is the least part there is. */
  lemma {:induction false} ZeroIsLeast(q: seq<string>)
    requires Canonical(q)
    ensures VersionOrder([], q) <= 0
  {
    if q != [] {
      assert CanonicalPart(q[0]);
      assert StrSign("0", q[0]) <= 0 by {
        if q[0][0] == '0' { assert "0"[1..] == ""; }
      }
      ZeroIsLeast(q[1..]);
    }
  }

  /** For canonical versions, a string that sorts first is not the newer version. */
  lemma {:induction false} StringOrderRefines(p: seq<string>, q: seq<string>)
    requires Canonical(p) && Canonical(q) && StrSign(Join(p), Join(q)) <= 0
    ensures VersionOrder(p, q) <= 0
    decreases |p|
  {
    if p == [] {
      ZeroIsLeast(q);
    } else {
      assert CanonicalPart(p[0]);
      assert q != [];
      assert CanonicalPart(q[0]);
      if p[0] == q[0] {
        CommonPrefix(p[0], Rest(p), Rest(q));
        StrSignAntisymmetric(p[0], q[0]);
        if |p| == 1 {
          ZeroIsLeast(q[1..]);
          assert p[1..] == [];
        } else {
          assert |q| > 1;
          CommonPrefix(".", Join(p[1..]), Join(q[1..]));
          StringOrderRefines(p[1..], q[1..]);
        }
      } else {
        FirstPartDecides(p[0], Rest(p), q[0], Rest(q));
        StrSignAntisymmetric(p[0], q[0]);
      }
    }
  }
}
