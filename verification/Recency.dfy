/** Bounded recency lists: the first occurrences of a sequence, newest first, cut at a limit. */
module Recency {

  function Elems<T>(s: seq<T>): set<T> {
    set x | x in s
  }

  function Take<T>(s: seq<T>, n: nat): seq<T> {
    if |s| <= n then s else s[..n]
  }

  /** The elements of `s` outside `seen`, each at its first occurrence. */
  function Distinct<T(==)>(s: seq<T>, seen: set<T>): seq<T> {
    if s == [] then []
    else if s[0] in seen then Distinct(s[1..], seen)
    else [s[0]] + Distinct(s[1..], seen + {s[0]})
  }

  /** The position of the first `x` in `s`. */
  function First<T(==)>(s: seq<T>, x: T): (i: nat)
    requires x in s
    ensures i < |s| && s[i] == x && x !in s[..i]
  {
    if s[0] == x then 0
    else
      assert s == [s[0]] + s[1..];
      var i := 1 + First(s[1..], x);
      assert s[..i] == [s[0]] + s[1..][..i - 1];
      i
  }

  predicate NoRepeat<T(==)>(s: seq<T>) {
    forall i, j :: 0 <= i < j < |s| ==> s[i] != s[j]
  }

  lemma {:induction false} DistinctElems<T>(s: seq<T>, seen: set<T>)
    ensures Elems(Distinct(s, seen)) == Elems(s) - seen
    ensures NoRepeat(Distinct(s, seen))
  {
    if s != [] {
      assert s == [s[0]] + s[1..];
      assert Elems(s) == {s[0]} + Elems(s[1..]);
      if s[0] in seen {
        DistinctElems(s[1..], seen);
      } else {
        var rest := Distinct(s[1..], seen + {s[0]});
        DistinctElems(s[1..], seen + {s[0]});
        assert Distinct(s, seen) == [s[0]] + rest;
        assert Elems([s[0]] + rest) == {s[0]} + Elems(rest);
        forall i | 0 <= i < |rest| ensures rest[i] != s[0] {
          assert rest[i] in Elems(rest);
        }
      }
    }
  }

  lemma {:induction false} DistinctConcat<T>(a: seq<T>, b: seq<T>, seen: set<T>)
    ensures Distinct(a + b, seen) == Distinct(a, seen) + Distinct(b, seen + Elems(a))
  {
    if a == [] {
      assert a + b == b;
      assert seen + Elems(a) == seen;
    } else {
      assert (a + b)[1..] == a[1..] + b;
      var seen' := if a[0] in seen then seen else seen + {a[0]};
      DistinctConcat(a[1..], b, seen');
      assert a == [a[0]] + a[1..];
      assert seen' + Elems(a[1..]) == seen + Elems(a);
    }
  }

  /** Removing repetitions first, against fewer exclusions, changes nothing. */
  lemma {:induction false} DistinctAbsorbs<T>(s: seq<T>, fewer: set<T>, seen: set<T>)
    requires fewer <= seen
    ensures Distinct(Distinct(s, fewer), seen) == Distinct(s, seen)
  {
    if s != [] {
      if s[0] in fewer {
        DistinctAbsorbs(s[1..], fewer, seen);
      } else {
        var rest := Distinct(s[1..], fewer + {s[0]});
        assert Distinct(s, fewer)[1..] == rest;
        if s[0] in seen {
          DistinctAbsorbs(s[1..], fewer + {s[0]}, seen);
        } else {
          DistinctAbsorbs(s[1..], fewer + {s[0]}, seen + {s[0]});
        }
      }
    }
  }

  /** At most one element is lost per excluded value. */
  lemma {:induction false} DistinctLoss<T>(s: seq<T>, seen: set<T>)
    requires NoRepeat(s)
    ensures |Distinct(s, seen)| + |seen| >= |s|
  {
    if s != [] {
      if s[0] in seen {
        DistinctIgnores(s[1..], seen, s[0]);
        DistinctLoss(s[1..], seen - {s[0]});
      } else {
        DistinctIgnores(s[1..], seen + {s[0]}, s[0]);
        assert seen + {s[0]} - {s[0]} == seen;
        DistinctLoss(s[1..], seen);
      }
    }
  }

  lemma {:induction false} DistinctIgnores<T>(s: seq<T>, seen: set<T>, x: T)
    requires x !in s
    ensures Distinct(s, seen) == Distinct(s, seen - {x})
  {
    if s != [] {
      assert s[0] != x;
      assert x !in s[1..];
      if s[0] in seen {
        DistinctIgnores(s[1..], seen, x);
      } else {
        DistinctIgnores(s[1..], seen + {s[0]}, x);
        assert seen + {s[0]} - {x} == (seen - {x}) + {s[0]};
        assert Distinct(s[1..], seen + {s[0]}) == Distinct(s[1..], seen - {x} + {s[0]});
      }
    }
  }

  lemma {:induction false} NoRepeatSize<T>(s: seq<T>)
    requires NoRepeat(s)
    ensures |Elems(s)| == |s|
  {
    if s != [] {
      NoRepeatSize(s[1..]);
      assert s == [s[0]] + s[1..];
      assert s[0] !in s[1..];
      assert Elems(s) == {s[0]} + Elems(s[1..]);
    }
  }

  lemma SubsetSize<T>(a: set<T>, b: set<T>)
    requires a <= b
    ensures |a| <= |b|
  {
    assert b == a + (b - a);
  }

  lemma {:induction false} ElemsSize<T>(s: seq<T>)
    ensures |Elems(s)| <= |s|
  {
    if s != [] {
      ElemsSize(s[1..]);
      assert s == [s[0]] + s[1..];
      assert Elems(s) == {s[0]} + Elems(s[1..]);
    }
  }

  lemma TakeIgnoresTail<T>(a: seq<T>, b: seq<T>, tail: seq<T>, limit: nat)
    requires |a| + |b| >= limit
    ensures Take(a + b, limit) == Take(a + (b + tail), limit)
  {
    assert (a + (b + tail))[..limit] == (a + b)[..limit];
  }

  /** Pushing onto a truncated recency list is truncating the recency list of the full history. */
  lemma PushTruncated<T>(batch: seq<T>, history: seq<T>, limit: nat)
    ensures Take(Distinct(batch + Take(Distinct(history, {}), limit), {}), limit)
         == Take(Distinct(batch + history, {}), limit)
  {
    var recent, full := Distinct(batch, {}), Distinct(history, {});
    var seen := {} + Elems(batch);
    DistinctConcat(batch, Take(full, limit), {});
    DistinctConcat(batch, history, {});
    DistinctAbsorbs(history, {}, seen);
    if |full| > limit {
      var kept, lost := Distinct(full[..limit], seen), Distinct(full[limit..], seen + Elems(full[..limit]));
      assert Distinct(history, seen) == kept + lost by {
        assert full == full[..limit] + full[limit..];
        DistinctConcat(full[..limit], full[limit..], seen);
      }
      assert |recent| + |kept| >= limit by {
        DistinctElems(batch, {});
        DistinctElems(history, {});
        NoRepeatSize(recent);
        assert seen == Elems(recent);
        DistinctLoss(full[..limit], seen);
      }
      TakeIgnoresTail(recent, kept, lost, limit);
    }
  }

  /** A value survives truncation exactly when fewer than `limit` distinct values precede it. */
  lemma KeptExactly<T>(history: seq<T>, x: T, limit: nat)
    requires x in history
    ensures x in Take(Distinct(history, {}), limit) <==> |Elems(history[..First(history, x)])| < limit
  {
    var i := First(history, x);
    var before, full := Distinct(history[..i], {}), Distinct(history, {});
    DistinctElems(history[..i], {});
    DistinctElems(history, {});
    NoRepeatSize(before);
    assert history == history[..i] + history[i..];
    DistinctConcat(history[..i], history[i..], {});
    assert x !in Elems(history[..i]);
    assert Distinct(history[i..], {} + Elems(history[..i]))[0] == x;
    assert full[|before|] == x;
    assert Elems(history[..i]) - {} == Elems(history[..i]);
    if |full| > limit {
      if |before| < limit {
        assert full[..limit][|before|] == x;
      }
    }
  }
}
