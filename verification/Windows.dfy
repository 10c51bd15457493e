/** Filtering, and a queue of which only the first `w` elements are seen and may leave. */
module Windows {
  import opened Recency

  function Filter<T>(s: seq<T>, p: T -> bool): seq<T> {
    if s == [] then []
    else if p(s[0]) then [s[0]] + Filter(s[1..], p)
    else Filter(s[1..], p)
  }

  function Not<T>(p: T -> bool): T -> bool {
    x => !p(x)
  }

  function Drop<T>(s: seq<T>, n: nat): seq<T> {
    if |s| <= n then [] else s[n..]
  }

  /** What remains when the elements of the window that satisfy `p` leave. */
  function Drained<T>(s: seq<T>, p: T -> bool, w: nat): seq<T> {
    Filter(Take(s, w), Not(p)) + Drop(s, w)
  }

  lemma {:induction false} FilterMembers<T>(s: seq<T>, p: T -> bool)
    ensures |Filter(s, p)| <= |s|
    ensures forall x :: x in Filter(s, p) <==> x in s && p(x)
  {
    if s != [] {
      FilterMembers(s[1..], p);
      assert s == [s[0]] + s[1..];
    }
  }

  /** Taken are the elements in front of which fewer than `w` others pass. */
  lemma {:induction false} FilteredAndTaken<T>(s: seq<T>, p: T -> bool, w: nat, x: T)
    ensures x in Take(Filter(s, p), w) <==> exists i :: 0 <= i < |s| && s[i] == x && p(x) && |Filter(s[..i], p)| < w
    decreases |s|
  {
    if s != [] {
      var n := |s| - 1;
      var before := s[..n];
      FilteredAndTaken(before, p, w, x);
      assert s == before + [s[n]];
      FilterConcat(before, [s[n]], p);
      FilterCons(s[n], [], p);
      forall i | 0 <= i < n ensures before[..i] == s[..i] && before[i] == s[i] {}
    }
  }

  lemma {:induction false} FilterConcat<T>(a: seq<T>, b: seq<T>, p: T -> bool)
    ensures Filter(a + b, p) == Filter(a, p) + Filter(b, p)
  {
    if a == [] {
      assert a + b == b;
    } else {
      FilterConcat(a[1..], b, p);
      FilterCons(a[0], a[1..] + b, p);
      assert a + b == [a[0]] + (a[1..] + b);
    }
  }

  lemma FilterCons<T>(x: T, s: seq<T>, p: T -> bool)
    ensures Filter([x] + s, p) == if p(x) then [x] + Filter(s, p) else Filter(s, p)
  {
    assert ([x] + s)[1..] == s;
  }

  lemma {:induction false} FilterAll<T>(s: seq<T>, p: T -> bool)
    requires forall i :: 0 <= i < |s| ==> p(s[i])
    ensures Filter(s, p) == s && Filter(s, Not(p)) == []
  {
    if s != [] {
      FilterAll(s[1..], p);
    }
  }

  lemma {:induction false} FilterNone<T>(s: seq<T>, p: T -> bool)
    requires forall i :: 0 <= i < |s| ==> !p(s[i])
    ensures Filter(s, p) == []
  {
    if s != [] {
      FilterNone(s[1..], p);
    }
  }

  lemma {:induction false} FilterTwice<T>(s: seq<T>, p: T -> bool)
    ensures Filter(Filter(s, p), p) == Filter(s, p)
  {
    if s != [] {
      FilterTwice(s[1..], p);
      FilterCons(s[0], Filter(s[1..], p), p);
    }
  }

  lemma {:induction false} FilterAgrees<T>(s: seq<T>, p: T -> bool, q: T -> bool)
    requires forall i :: 0 <= i < |s| ==> p(s[i]) == q(s[i])
    ensures Filter(s, p) == Filter(s, q)
  {
    if s != [] {
      FilterAgrees(s[1..], p, q);
    }
  }

  /** Changing elements so that `p` holds of those that also satisfied `k`, untouched: filter by both. */
  lemma {:induction false} FilterChanged<T>(a: seq<T>, b: seq<T>, p: T -> bool, k: T -> bool)
    requires |a| == |b|
    requires forall i :: 0 <= i < |a| ==> (p(b[i]) <==> p(a[i]) && k(a[i]))
    requires forall i :: 0 <= i < |a| ==> p(b[i]) ==> a[i] == b[i]
    ensures Filter(b, p) == Filter(Filter(a, p), k)
  {
    if a != [] {
      FilterChanged(a[1..], b[1..], p, k);
      FilterCons(a[0], Filter(a[1..], p), k);
    }
  }

  /** If `k` drops exactly the `p` elements of the window, filtering by `k` drains the queue. */
  lemma FilterDrains<T>(s: seq<T>, p: T -> bool, k: T -> bool, w: nat)
    requires forall i :: 0 <= i < |s| && i < w ==> k(s[i]) == !p(s[i])
    requires forall i :: w <= i < |s| ==> k(s[i])
    ensures Filter(s, k) == Drained(s, p, w)
  {
    var seen, rest := Take(s, w), Drop(s, w);
    assert s == seen + rest;
    FilterConcat(seen, rest, k);
    FilterAgrees(seen, k, Not(p));
    forall i | 0 <= i < |rest| ensures k(rest[i]) {
      assert rest[i] == s[w + i];
    }
    FilterAll(rest, k);
  }

  /** An element behind the window moves up by the elements leaving it; those staying before it stay. */
  lemma MovesUp<T>(s: seq<T>, p: T -> bool, w: nat, at: nat) returns (to: nat)
    requires w <= at < |s|
    ensures to <= at && to < |Drained(s, p, w)| && Drained(s, p, w)[to] == s[at]
    ensures Filter(Drained(s, p, w)[..to], Not(p)) == Filter(s[..at], Not(p))
    ensures |Filter(s[..at], Not(p))| < w ==> to < at
  {
    var stay := Filter(s[..w], Not(p));
    FilterMembers(s[..w], Not(p));
    to := |stay| + at - w;
    assert Drained(s, p, w)[..to] == stay + s[w..at];
    assert s[..at] == s[..w] + s[w..at];
    FilterConcat(stay, s[w..at], Not(p));
    FilterConcat(s[..w], s[w..at], Not(p));
    FilterTwice(s[..w], Not(p));
  }
}
