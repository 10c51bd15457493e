/**
 The forge's threads as polylines: points are found by their share of the arc length with a binary
 search over the cumulative lengths, and stretches are cut out between two shares.
 */
module ArcLength {

  datatype Pt = Pt(x: real, y: real)

  /** The sampled points and the length of the line up to each of them. */
  datatype Path = Path(pts: seq<Pt>, cum: seq<real>)

  function Len(p: Path): real
    requires p.cum != []
  {
    p.cum[|p.cum| - 1]
  }

  ghost predicate Rising(cum: seq<real>) {
    forall i, j :: 0 <= i <= j < |cum| ==> cum[i] <= cum[j]
  }

  ghost predicate IsPath(p: Path) {
    && |p.pts| == |p.cum| >= 1 && p.cum[0] == 0.0 && Rising(p.cum)
    && forall k :: 0 < k < |p.pts| && p.cum[k] == p.cum[k - 1] ==> p.pts[k] == p.pts[k - 1]
  }

  /** What is used of `Math.hypot`: it is not negative, and zero only between equal points. */
  ghost predicate IsDistance(dist: (Pt, Pt) -> real) {
    forall a, b :: dist(a, b) >= 0.0 && (dist(a, b) == 0.0 <==> a == b)
  }

  method Measure(pts: seq<Pt>, dist: (Pt, Pt) -> real) returns (path: Path)
    requires pts != [] && IsDistance(dist)
    ensures IsPath(path) && path.pts == pts
    ensures forall k :: 0 < k < |pts| ==> path.cum[k] - path.cum[k - 1] == dist(pts[k - 1], pts[k])
  {
    var cum := [0.0];
    for k := 1 to |pts|
      invariant |cum| == k && cum[0] == 0.0 && Rising(cum)
      invariant forall j :: 0 < j < k ==> cum[j] - cum[j - 1] == dist(pts[j - 1], pts[j])
    {
      cum := cum + [cum[k - 1] + dist(pts[k - 1], pts[k])];
    }
    path := Path(pts, cum);
  }

  function Clamp(v: real): real {
    if v < 0.0 then 0.0 else if v > 1.0 then 1.0 else v
  }

  function Lerp(a: Pt, b: Pt, f: real): Pt {
    Pt(a.x + (b.x - a.x) * f, a.y + (b.y - a.y) * f)
  }

  /** The first sample at or beyond an arc length, searched one by one; the last one if there is none. */
  function FirstAtLeast(cum: seq<real>, target: real, from: nat): (k: nat)
    requires from < |cum|
    ensures from <= k < |cum| && (k < |cum| - 1 ==> cum[k] >= target)
    ensures forall j :: from <= j < k ==> cum[j] < target
    decreases |cum| - from
  {
    if from == |cum| - 1 || cum[from] >= target then from else FirstAtLeast(cum, target, from + 1)
  }

  /** The share of the stretch before sample `k` that reaches an arc length; a stretch of no length counts as one. */
  function Fraction(cum: seq<real>, k: nat, target: real): real
    requires 0 < k <= |cum|
  {
    var gap := if k < |cum| && cum[k] != cum[k - 1] then cum[k] - cum[k - 1] else 1.0;
    (target - cum[k - 1]) / gap
  }

  function PointAt(p: Path, target: real): Pt
    requires |p.pts| == |p.cum| >= 1
  {
    var lo := FirstAtLeast(p.cum, target, 0);
    var k := if lo < 1 then 1 else lo;
    Lerp(p.pts[k - 1], if k < |p.pts| then p.pts[k] else p.pts[k - 1], Fraction(p.cum, k, target))
  }

  /** The binary search finds what the search one by one finds. */
  method Tp(p: Path, u: real) returns (pt: Pt)
    requires IsPath(p)
    ensures pt == PointAt(p, Clamp(u) * Len(p))
  {
    var target := Clamp(u) * Len(p);
    var lo, hi := 0, |p.cum| - 1;
    while lo < hi
      invariant 0 <= lo <= hi <= |p.cum| - 1
      invariant forall j :: 0 <= j < lo ==> p.cum[j] < target
      invariant hi < |p.cum| - 1 ==> p.cum[hi] >= target
    {
      var mid := (lo + hi) / 2;
      if p.cum[mid] < target {
        lo := mid + 1;
      } else {
        hi := mid;
      }
    }
    SearchesAgree(p.cum, target, lo);
    var k := if lo < 1 then 1 else lo;
    var f := Fraction(p.cum, k, target);
    pt := Lerp(p.pts[k - 1], if k < |p.pts| then p.pts[k] else p.pts[k - 1], f);
  }

  lemma SearchesAgree(cum: seq<real>, target: real, lo: nat)
    requires Rising(cum) && lo < |cum|
    requires forall j :: 0 <= j < lo ==> cum[j] < target
    requires lo < |cum| - 1 ==> cum[lo] >= target
    ensures FirstAtLeast(cum, target, 0) == lo
  {
  }

  /** The point found lies on the line, at exactly the arc length asked for. */
  lemma PointIsAtArcLength(p: Path, target: real) returns (k: nat, f: real)
    requires IsPath(p) && |p.pts| >= 2 && 0.0 <= target <= Len(p)
    ensures 1 <= k < |p.pts| && 0.0 <= f <= 1.0
    ensures PointAt(p, target) == Lerp(p.pts[k - 1], p.pts[k], f)
    ensures p.cum[k - 1] + (p.cum[k] - p.cum[k - 1]) * f == target
  {
    var lo := FirstAtLeast(p.cum, target, 0);
    k := if lo < 1 then 1 else lo;
    f := Fraction(p.cum, k, target);
    assert p.cum[k - 1] <= target <= p.cum[k];
    hide FirstAtLeast, Lerp;
    FractionMeans(p.cum, k, target);
  }

  /** The arc length of a share of the line; shares outside of it stand for its ends. */
  function LengthOf(u: real, length: real): real {
    if u <= 0.0 then 0.0 else if u >= 1.0 then length else u * length
  }

  /** So the search is asked for an arc length of the line, whatever the share. */
  lemma ShareIsOnLine(u: real, length: real)
    requires length >= 0.0
    ensures Clamp(u) * length == LengthOf(u, length)
    ensures 0.0 <= LengthOf(u, length) <= length
  {
  }

  lemma FractionMeans(cum: seq<real>, k: nat, target: real)
    requires 0 < k < |cum| && cum[k - 1] <= target <= cum[k]
    ensures var f := Fraction(cum, k, target); 0.0 <= f <= 1.0 && cum[k - 1] + (cum[k] - cum[k - 1]) * f == target
    ensures cum[k] == target && cum[k - 1] < target ==> Fraction(cum, k, target) == 1.0
    ensures cum[k - 1] == target ==> Fraction(cum, k, target) == 0.0
  {
    var gap, part := cum[k] - cum[k - 1], target - cum[k - 1];
    if gap > 0.0 {
      Share(part, gap);
    }
  }

  lemma Share(part: real, gap: real)
    requires 0.0 <= part <= gap && gap > 0.0
    ensures 0.0 <= part / gap <= 1.0 && gap * (part / gap) == part
    ensures part == gap ==> part / gap == 1.0
    ensures part == 0.0 ==> part / gap == 0.0
  {
  }

  /** At the arc length of a sample the line passes through that sample. */
  lemma SampleIsOnLine(p: Path, k: nat)
    requires IsPath(p) && k < |p.pts|
    ensures PointAt(p, p.cum[k]) == p.pts[k]
  {
    var target := p.cum[k];
    var lo := FirstAtLeast(p.cum, target, 0);
    assert lo <= k;
    SameLengthSamePoint(p, lo, k);
    if lo == 0 && |p.pts| > 1 {
      FractionMeans(p.cum, 1, target);
      LerpEnds(p.pts[0], p.pts[1]);
    } else if lo > 0 {
      assert p.cum[lo - 1] < target;
      FractionMeans(p.cum, lo, target);
      LerpEnds(p.pts[lo - 1], p.pts[lo]);
    }
  }

  lemma LerpEnds(a: Pt, b: Pt)
    ensures Lerp(a, b, 0.0) == a && Lerp(a, b, 1.0) == b
  {
  }

  lemma {:induction false} SameLengthSamePoint(p: Path, i: nat, k: nat)
    requires IsPath(p) && i <= k < |p.pts| && p.cum[i] >= p.cum[k]
    ensures p.pts[i] == p.pts[k] && p.cum[i] == p.cum[k]
    decreases k - i
  {
    if i < k {
      assert p.cum[i] <= p.cum[k - 1] <= p.cum[k];
      SameLengthSamePoint(p, i, k - 1);
    }
  }

  // ---------------------------------------------------------------- stretches

  /** The arc lengths that a stretch is drawn through: its ends and every sample strictly between them. */
  function Marks(cum: seq<real>, a: real, b: real): seq<real> {
    [a] + Inner(cum, a, b) + [b]
  }

  function Inner(cum: seq<real>, a: real, b: real): seq<real>
    decreases |cum|
  {
    if cum == [] then []
    else
      var last := cum[|cum| - 1];
      Inner(cum[..|cum| - 1], a, b) + (if a < last < b then [last] else [])
  }

  lemma {:induction false} InnerExactly(cum: seq<real>, a: real, b: real)
    requires Rising(cum)
    ensures Rising(Inner(cum, a, b))
    ensures forall c :: c in Inner(cum, a, b) <==> c in cum && a < c < b
    decreases |cum|
  {
    if cum != [] {
      var before, last := cum[..|cum| - 1], cum[|cum| - 1];
      InnerExactly(before, a, b);
      assert cum == before + [last];
      var inner := Inner(before, a, b);
      forall i | 0 <= i < |inner| ensures inner[i] <= last {
        assert inner[i] in inner;
        var j :| 0 <= j < |before| && before[j] == inner[i];
        assert cum[j] <= cum[|cum| - 1];
      }
    }
  }

  /** A stretch runs forward through every sample between its ends and misses none. */
  lemma MarksRise(p: Path, a: real, b: real)
    requires IsPath(p) && a <= b
    ensures Rising(Marks(p.cum, a, b))
    ensures forall k :: 0 <= k < |p.cum| && a < p.cum[k] < b ==> p.cum[k] in Marks(p.cum, a, b)
  {
    InnerExactly(p.cum, a, b);
    var inner := Inner(p.cum, a, b);
    assert forall i :: 0 <= i < |inner| ==> inner[i] in inner;
  }

  method Slice(p: Path, u0: real, u1: real) returns (out: seq<Pt>)
    requires IsPath(p)
    ensures var marks := Marks(p.cum, Clamp(u0) * Len(p), Clamp(u1) * Len(p));
            |out| == |marks| && forall i :: 0 <= i < |out| ==> out[i] == PointAt(p, marks[i])
  {
    hide PointAt;
    var first := Tp(p, u0);
    out := [first];
    var a, b := Clamp(u0) * Len(p), Clamp(u1) * Len(p);
    for k := 0 to |p.pts|
      invariant |out| == 1 + |Inner(p.cum[..k], a, b)|
      invariant out[0] == PointAt(p, a)
      invariant forall i :: 1 <= i < |out| ==> out[i] == PointAt(p, Inner(p.cum[..k], a, b)[i - 1])
    {
      assert p.cum[..k + 1][..k] == p.cum[..k];
      SampleIsOnLine(p, k);
      if p.cum[k] > a && p.cum[k] < b {
        out := out + [p.pts[k]];
      }
    }
    assert p.cum[..|p.pts|] == p.cum;
    var last := Tp(p, u1);
    out := out + [last];
  }
}
