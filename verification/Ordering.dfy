/**
 Array.prototype.sort with a comparator that is a total preorder: a stable sort. `localeCompare` on
 two strings is represented by the ranks that a collation gives them, and a comparator that falls
 back to a second field by a pair of ranks compared lexicographically.
 */
module Ordering {

  type Rank = (int, int)

  predicate Le(a: Rank, b: Rank) {
    a.0 < b.0 || (a.0 == b.0 && a.1 <= b.1)
  }

  function Insert<T>(x: T, xs: seq<T>, key: T -> Rank): seq<T> {
    if xs == [] then [x]
    else if Le(key(x), key(xs[0])) then [x] + xs
    else [xs[0]] + Insert(x, xs[1..], key)
  }

  /** Ascending by `key`, equal keys in their original order. */
  function Sort<T>(xs: seq<T>, key: T -> Rank): seq<T> {
    if xs == [] then [] else Insert(xs[0], Sort(xs[1..], key), key)
  }

  /** How many elements have a key at most (strictly below, if `strict`) `k`. */
  function CountUpTo<T>(xs: seq<T>, key: T -> Rank, k: Rank, strict: bool): (n: nat)
    ensures n <= |xs|
  {
    if xs == [] then 0
    else CountUpTo(xs[1..], key, k, strict)
         + (if Le(key(xs[0]), k) && !(strict && Le(k, key(xs[0]))) then 1 else 0)
  }

  /** Where a stable sort must put element `j`: behind everything smaller and every earlier equal. */
  function Place<T>(xs: seq<T>, key: T -> Rank, j: nat): nat
    requires j < |xs|
  {
    CountUpTo(xs[..j], key, key(xs[j]), false) + CountUpTo(xs[j + 1..], key, key(xs[j]), true)
  }

  ghost predicate Sorted<T>(xs: seq<T>, key: T -> Rank) {
    forall i, j :: 0 <= i < j < |xs| ==> Le(key(xs[i]), key(xs[j]))
  }

  lemma {:induction false} CountAll<T>(xs: seq<T>, key: T -> Rank, k: Rank)
    requires forall i :: 0 <= i < |xs| ==> Le(k, key(xs[i]))
    ensures CountUpTo(xs, key, k, true) == 0
  {
    if xs != [] {
      CountAll(xs[1..], key, k);
    }
  }

  /** In a sorted sequence the smaller keys come first, so their count is the insertion point. */
  lemma {:induction false} CountSplits<T>(xs: seq<T>, key: T -> Rank, k: Rank)
    requires Sorted(xs, key)
    ensures forall i :: 0 <= i < |xs| ==> (i < CountUpTo(xs, key, k, true) <==> !Le(k, key(xs[i])))
  {
    if xs != [] {
      if Le(k, key(xs[0])) {
        CountAll(xs, key, k);
      } else {
        CountSplits(xs[1..], key, k);
        forall i | 0 <= i < |xs| ensures i < CountUpTo(xs, key, k, true) <==> !Le(k, key(xs[i])) {
          if i > 0 {
            assert xs[1..][i - 1] == xs[i];
          }
        }
      }
    }
  }

  lemma {:induction false} InsertShape<T>(x: T, xs: seq<T>, key: T -> Rank, p: nat)
    requires p <= |xs|
    requires forall i :: 0 <= i < |xs| ==> (i < p <==> !Le(key(x), key(xs[i])))
    ensures Insert(x, xs, key) == xs[..p] + [x] + xs[p..]
  {
    if xs != [] && p > 0 {
      InsertShape(x, xs[1..], key, p - 1);
      assert xs[..p] == [xs[0]] + xs[1..][..p - 1];
    }
  }

  /** Insertion between the smaller keys and the rest keeps a sequence sorted. */
  lemma InsertedSorted<T>(x: T, xs: seq<T>, key: T -> Rank, p: nat)
    requires Sorted(xs, key) && p <= |xs|
    requires forall i :: 0 <= i < |xs| ==> (i < p <==> !Le(key(x), key(xs[i])))
    ensures Sorted(xs[..p] + [x] + xs[p..], key)
  {
    var ys := xs[..p] + [x] + xs[p..];
    forall i, j | 0 <= i < j < |ys| ensures Le(key(ys[i]), key(ys[j])) {
      if i == p {
        assert ys[j] == xs[j - 1];
      } else if j == p {
        assert ys[i] == xs[i];
      } else {
        assert ys[i] == xs[if i < p then i else i - 1];
        assert ys[j] == xs[if j < p then j else j - 1];
      }
    }
  }

  /** Insertion into a sorted sequence puts `x` after everything smaller and before the rest. */
  lemma InsertLands<T>(x: T, xs: seq<T>, key: T -> Rank)
    requires Sorted(xs, key)
    ensures var p := CountUpTo(xs, key, key(x), true);
            Insert(x, xs, key) == xs[..p] + [x] + xs[p..]
    ensures forall i :: 0 <= i < |xs| ==> (i < CountUpTo(xs, key, key(x), true) <==> !Le(key(x), key(xs[i])))
    ensures Sorted(Insert(x, xs, key), key)
  {
    hide Sorted, Le, Insert;
    var p := CountUpTo(xs, key, key(x), true);
    CountSplits(xs, key, key(x));
    InsertShape(x, xs, key, p);
    InsertedSorted(x, xs, key, p);
  }

  lemma {:induction false} CountInsert<T>(x: T, xs: seq<T>, key: T -> Rank, k: Rank, strict: bool)
    ensures CountUpTo(Insert(x, xs, key), key, k, strict) == CountUpTo([x] + xs, key, k, strict)
  {
    assert ([x] + xs)[1..] == xs;
    if xs != [] && !Le(key(x), key(xs[0])) {
      CountInsert(x, xs[1..], key, k, strict);
      assert ([x] + xs[1..])[1..] == xs[1..];
    }
  }

  lemma {:induction false} CountSort<T>(xs: seq<T>, key: T -> Rank, k: Rank, strict: bool)
    ensures CountUpTo(Sort(xs, key), key, k, strict) == CountUpTo(xs, key, k, strict)
  {
    if xs != [] {
      CountSort(xs[1..], key, k, strict);
      CountInsert(xs[0], Sort(xs[1..], key), key, k, strict);
      assert ([xs[0]] + Sort(xs[1..], key))[1..] == Sort(xs[1..], key);
    }
  }

  lemma {:induction false} SortIsSorted<T>(xs: seq<T>, key: T -> Rank)
    ensures Sorted(Sort(xs, key), key)
    ensures |Sort(xs, key)| == |xs|
  {
    if xs != [] {
      SortIsSorted(xs[1..], key);
      InsertLands(xs[0], Sort(xs[1..], key), key);
    }
  }

  lemma {:induction false} InsertAddsOne<T>(x: T, xs: seq<T>, key: T -> Rank)
    ensures multiset(Insert(x, xs, key)) == multiset{x} + multiset(xs)
  {
    hide Le;
    if xs != [] {
      InsertAddsOne(x, xs[1..], key);
      assert xs == [xs[0]] + xs[1..];
    }
  }

  lemma {:induction false} SortIsPermutation<T>(xs: seq<T>, key: T -> Rank)
    ensures multiset(Sort(xs, key)) == multiset(xs)
  {
    if xs != [] {
      SortIsPermutation(xs[1..], key);
      InsertAddsOne(xs[0], Sort(xs[1..], key), key);
      assert xs == [xs[0]] + xs[1..];
    }
  }

  lemma PlaceShift<T>(xs: seq<T>, key: T -> Rank, j: nat)
    requires 0 < j < |xs|
    ensures Place(xs, key, j) == Place(xs[1..], key, j - 1) + (if Le(key(xs[0]), key(xs[j])) then 1 else 0)
  {
    var rest := xs[1..];
    assert xs[..j] == [xs[0]] + rest[..j - 1];
    assert xs[..j][1..] == rest[..j - 1];
    assert rest[j..] == xs[j + 1..];
  }

  /** Every element is where stability and order demand; this determines the sorted sequence. */
  lemma {:induction false} SortPlaces<T>(xs: seq<T>, key: T -> Rank, j: nat)
    requires j < |xs|
    ensures Place(xs, key, j) < |xs| == |Sort(xs, key)|
    ensures Sort(xs, key)[Place(xs, key, j)] == xs[j]
  {
    var rest := Sort(xs[1..], key);
    SortIsSorted(xs, key);
    SortIsSorted(xs[1..], key);
    CountSort(xs[1..], key, key(xs[0]), true);
    InsertLands(xs[0], rest, key);
    hide Le, Sorted, Insert, CountUpTo;
    if j > 0 {
      SortPlaces(xs[1..], key, j - 1);
      PlaceShift(xs, key, j);
      LePairs(key(xs[0]), key(xs[j]));
      hide Place;
    } else {
      CountEmpty(xs[..0], key, key(xs[0]));
    }
  }

  lemma CountEmpty<T>(xs: seq<T>, key: T -> Rank, k: Rank)
    requires xs == []
    ensures CountUpTo(xs, key, k, false) == 0
  {
  }

  lemma LePairs(a: Rank, b: Rank)
    ensures Le(a, b) || Le(b, a)
  {
  }

  /** The head of the sorted sequence: no key is below it, and it is the first such element. */
  lemma SortHead<T>(xs: seq<T>, key: T -> Rank) returns (h: nat)
    requires xs != []
    ensures h < |xs| && |Sort(xs, key)| == |xs| && Sort(xs, key)[0] == xs[h]
    ensures forall i :: 0 <= i < |xs| ==> Le(key(xs[h]), key(xs[i]))
    ensures forall i :: 0 <= i < h ==> !Le(key(xs[i]), key(xs[h]))
  {
    h := SmallestIndex(xs, key);
    SortPlaces(xs, key, h);
    CountAll(xs[h + 1..], key, key(xs[h]));
    CountNone(xs[..h], key, key(xs[h]));
  }

  lemma {:induction false} CountNone<T>(xs: seq<T>, key: T -> Rank, k: Rank)
    requires forall i :: 0 <= i < |xs| ==> !Le(key(xs[i]), k)
    ensures CountUpTo(xs, key, k, false) == 0
  {
    if xs != [] {
      CountNone(xs[1..], key, k);
    }
  }

  lemma {:induction false} SmallestIndex<T>(xs: seq<T>, key: T -> Rank) returns (h: nat)
    requires xs != []
    ensures h < |xs|
    ensures forall i :: 0 <= i < |xs| ==> Le(key(xs[h]), key(xs[i]))
    ensures forall i :: 0 <= i < h ==> !Le(key(xs[i]), key(xs[h]))
  {
    if |xs| == 1 {
      h := 0;
    } else {
      var g := SmallestIndex(xs[1..], key);
      h := if Le(key(xs[0]), key(xs[g + 1])) then 0 else g + 1;
    }
  }
}
