/** How the unread backlog drains, tick by tick, and exactly which receipts never get their turn. */
module DeliveryProgress {
  import opened Text
  import opened Recency
  import opened Windows
  import opened FindDelivery

  predicate HasId(item: Item) {
    item.Receipt? && item.id.Text? && item.id.s != "" && Trimmed(item.id.s)
  }

  /** What the gateway guarantees of its views: trimmed, non-empty, pairwise distinct ids. */
  ghost predicate DistinctIds(items: seq<Item>) {
    && (forall i :: 0 <= i < |items| ==> HasId(items[i]))
    && (forall i, j :: 0 <= i < j < |items| ==> IdText(items[i]) != IdText(items[j]))
  }

  /** Distinct receipts, and no unread SUPPORT Find is in the delivered memory yet. */
  ghost predicate Good(s: State) {
    && DistinctIds(s.inbox)
    && forall x :: x in UnreadOf(s.inbox) && IsFind(x) ==> IdText(x) !in Cleaned(s.delivered)
  }

  const SMOOTH := Trouble(None, {})

  function Ticks(s: State, k: nat): State {
    if k == 0 then s else TickOf(Ticks(s, k - 1), SMOOTH)
  }

  function Window(s: State): seq<Item> {
    ListUnread(s.inbox, WINDOW)
  }

  function FindsOf(items: seq<Item>): seq<Item> {
    Filter(items, IsFind)
  }

  function NonFinds(items: seq<Item>): seq<Item> {
    Filter(items, Not(IsFind))
  }

  // ---------------------------------------------------------------- what marking does to the inbox

  predicate IsMarked(item: Item, ids: seq<string>) {
    HasId(item) && IdText(item) in ids && item.state != DISMISSED
  }

  lemma {:induction false} MarkAllPointwise(inbox: seq<Item>, ids: seq<string>, n: nat)
    requires n <= |ids|
    requires forall i :: 0 <= i < |inbox| ==> HasId(inbox[i])
    requires forall i :: 0 <= i < |ids| ==> Trimmed(ids[i])
    ensures |MarkAll(inbox, ids, {}, n)| == |inbox|
    ensures forall i :: 0 <= i < |inbox| ==>
      MarkAll(inbox, ids, {}, n)[i] == if IsMarked(inbox[i], ids[..n]) then inbox[i].(state := READ) else inbox[i]
    decreases n
  {
    if n > 0 {
      MarkAllPointwise(inbox, ids, n - 1);
      TrimIsTrimmed(ids[n - 1]);
      assert ids[..n] == ids[..n - 1] + [ids[n - 1]];
    }
  }

  function Outside(ids: seq<string>): Item -> bool {
    item => IdText(item) !in ids
  }

  lemma MarkAllHides(inbox: seq<Item>, ids: seq<string>)
    requires DistinctIds(inbox)
    requires forall i :: 0 <= i < |ids| ==> Trimmed(ids[i])
    ensures DistinctIds(MarkAll(inbox, ids, {}, |ids|))
    ensures UnreadOf(MarkAll(inbox, ids, {}, |ids|)) == Filter(UnreadOf(inbox), Outside(ids))
  {
    var marked := MarkAll(inbox, ids, {}, |ids|);
    MarkAllPointwise(inbox, ids, |ids|);
    assert ids[..|ids|] == ids;
    forall i | 0 <= i < |marked| ensures HasId(marked[i]) && IdText(marked[i]) == IdText(inbox[i]) {
      assert HasId(inbox[i]);
    }
    FilterChanged(inbox, marked, IsUnread, Outside(ids));
  }

  lemma {:induction false} FilteredAreDistinct(items: seq<Item>, p: Item -> bool)
    requires DistinctIds(items)
    ensures DistinctIds(Filter(items, p))
  {
    hide HasId, IdText;
    if items != [] {
      FilteredAreDistinct(items[1..], p);
      FilterMembers(items[1..], p);
      var rest := Filter(items[1..], p);
      forall i | 0 <= i < |rest| ensures HasId(rest[i]) && IdText(rest[i]) != IdText(items[0]) {
        assert rest[i] in rest;
        var j :| 0 <= j < |items[1..]| && items[1..][j] == rest[i];
        assert items[j + 1] == rest[i];
      }
    }
  }

  lemma UnreadIsDistinct(inbox: seq<Item>)
    requires DistinctIds(inbox)
    ensures DistinctIds(UnreadOf(inbox))
  {
    FilteredAreDistinct(inbox, IsUnread);
  }

  // ---------------------------------------------------------------- one smooth tick

  lemma IndexOfId(items: seq<Item>, id: string) returns (i: nat)
    requires id in IdTexts(items)
    ensures i < |items| && IdText(items[i]) == id && items[i] in items
  {
    i :| 0 <= i < |items| && IdTexts(items)[i] == id;
  }

  lemma IdListed(items: seq<Item>, x: Item)
    requires x in items
    ensures IdText(x) in IdTexts(items)
  {
    var i :| 0 <= i < |items| && items[i] == x;
    assert IdTexts(items)[i] == IdText(x);
  }

  /** Among unread receipts with distinct ids, dropping the window's delivered ids drains the list. */
  lemma DeliveredLeave(unread: seq<Item>)
    requires DistinctIds(unread)
    ensures Filter(unread, Outside(IdTexts(FindsOf(Take(unread, WINDOW))))) == Drained(unread, IsFind, WINDOW)
  {
    var window := Take(unread, WINDOW);
    var ids := IdTexts(FindsOf(window));
    FilterMembers(window, IsFind);
    forall i | 0 <= i < |unread| ensures IdText(unread[i]) in ids <==> i < WINDOW && IsFind(unread[i]) {
      if IdText(unread[i]) in ids {
        var k := IndexOfId(FindsOf(window), IdText(unread[i]));
        var j :| 0 <= j < |window| && window[j] == FindsOf(window)[k];
        assert unread[j] == window[j];
      }
      if i < WINDOW && IsFind(unread[i]) {
        assert unread[i] == window[i];
        IdListed(FindsOf(window), unread[i]);
      }
    }
    FilterDrains(unread, IsFind, Outside(ids), WINDOW);
  }

  lemma FreshSelection(s: State)
    requires Good(s)
    ensures Undelivered(Window(s), s.delivered) == FindsOf(Window(s))
    ensures forall id :: id in IdTexts(FindsOf(Window(s))) ==> id != "" && Trimmed(id)
  {
    var window, unread := Window(s), UnreadOf(s.inbox);
    FilterMembers(s.inbox, IsUnread);
    UnreadIsDistinct(s.inbox);
    forall i | 0 <= i < |window| ensures Deliverable(s.delivered)(window[i]) == IsFind(window[i]) {
      assert window[i] == unread[i] && unread[i] in unread;
    }
    FilterAgrees(window, Deliverable(s.delivered), IsFind);
    FilterMembers(window, IsFind);
    forall id | id in IdTexts(FindsOf(window)) ensures id != "" && Trimmed(id) {
      var i := IndexOfId(FindsOf(window), id);
      var j :| 0 <= j < |window| && window[j] == FindsOf(window)[i];
      assert window[j] == unread[j];
    }
  }

  /** Afterwards the memory holds nothing but what it held and what was just delivered. */
  lemma MemoryGrowsBy(delivered: seq<Field>, ids: seq<string>)
    requires forall id :: id in ids ==> id != "" && Trimmed(id)
    ensures var kept := Remember(delivered, Texts(ids), MEMORY);
            && Cleaned(Texts(kept)) == kept == Take(Distinct(ids + Cleaned(delivered), {}), MEMORY)
            && forall id :: id in kept ==> id in ids || id in Cleaned(delivered)
  {
    RememberedAreTrimmed(delivered, Texts(ids));
    CleanedConcat(Texts(ids), delivered);
    CleanedTexts(ids);
    var all := ids + Cleaned(delivered);
    DistinctElems(all, {});
    forall id | id in Remember(delivered, Texts(ids), MEMORY) ensures id in ids || id in Cleaned(delivered) {
      assert id in Elems(Distinct(all, {}));
    }
  }

  /** A trouble-free tick raises exactly the window's Finds, in order, and they leave the unread list. */
  lemma SmoothTick(s: State)
    requires Good(s)
    ensures UnreadOf(TickOf(s, SMOOTH).inbox) == Drained(UnreadOf(s.inbox), IsFind, WINDOW)
    ensures TickOf(s, SMOOTH).notified == s.notified + IdTexts(FindsOf(Window(s)))
    ensures Good(TickOf(s, SMOOTH))
  {
    var unread, next := UnreadOf(s.inbox), TickOf(s, SMOOTH);
    var ids := IdTexts(FindsOf(Window(s)));
    FreshSelection(s);
    MarkAllHides(s.inbox, ids);
    UnreadIsDistinct(s.inbox);
    DeliveredLeave(unread);
    assert ids[..|ids|] == ids;
    MemoryGrowsBy(s.delivered, ids);
    FilterMembers(unread, Outside(ids));
    forall x | x in UnreadOf(next.inbox) && IsFind(x) ensures IdText(x) !in Cleaned(next.delivered) {
      assert x in unread && IdText(x) !in ids;
    }
  }

  // ---------------------------------------------------------------- a backlog of Finds

  lemma WindowOfFinds(unread: seq<Item>, cut: nat)
    requires forall x :: x in unread ==> IsFind(x)
    ensures FindsOf(Take(Drop(unread, cut), WINDOW)) == Take(Drop(unread, cut), WINDOW)
    ensures Drained(Drop(unread, cut), IsFind, WINDOW) == Drop(unread, cut + WINDOW)
  {
    hide IsFind;
    var window := Take(Drop(unread, cut), WINDOW);
    forall i | 0 <= i < |window| ensures IsFind(window[i]) {
      assert window[i] == unread[cut + i];
    }
    FilterAll(window, IsFind);
    assert Drop(Drop(unread, cut), WINDOW) == Drop(unread, cut + WINDOW);
  }

  /** After k smooth ticks the first 40k receipts of the backlog have been raised, once and in order. */
  lemma {:induction false} BacklogDrains(s: State, k: nat)
    requires Good(s) && forall x :: x in UnreadOf(s.inbox) ==> IsFind(x)
    ensures Good(Ticks(s, k))
    ensures UnreadOf(Ticks(s, k).inbox) == Drop(UnreadOf(s.inbox), 40 * k)
    ensures Ticks(s, k).notified == s.notified + IdTexts(Take(UnreadOf(s.inbox), 40 * k))
  {
    hide TickOf, Good, IsFind, Drained, FindsOf, IdTexts, UnreadOf;
    if k == 0 {
      NothingTaken(s);
    } else {
      BacklogDrains(s, k - 1);
      SmoothTick(Ticks(s, k - 1));
      WindowOfFinds(UnreadOf(s.inbox), WINDOW * (k - 1));
      TakeInTwo(UnreadOf(s.inbox), WINDOW * (k - 1), WINDOW);
    }
  }

  lemma NothingTaken(s: State)
    ensures Drop(UnreadOf(s.inbox), 0) == UnreadOf(s.inbox)
    ensures s.notified + IdTexts(Take(UnreadOf(s.inbox), 0)) == s.notified
  {
  }

  lemma TakeInTwo(items: seq<Item>, a: nat, b: nat)
    ensures IdTexts(Take(items, a + b)) == IdTexts(Take(items, a)) + IdTexts(Take(Drop(items, a), b))
  {
    assert Take(items, a + b) == Take(items, a) + Take(Drop(items, a), b);
  }

  /** All n Finds of a backlog are raised exactly once, in listing order, in ceil(n / 40) ticks and no fewer. */
  lemma BacklogRaisedExactlyOnce(s: State, k: nat)
    requires Good(s) && forall x :: x in UnreadOf(s.inbox) ==> IsFind(x)
    ensures UnreadOf(Ticks(s, k).inbox) == [] <==> k >= (|UnreadOf(s.inbox)| + 40 - 1) / 40
    ensures UnreadOf(Ticks(s, k).inbox) == [] ==>
              Ticks(s, k).notified == s.notified + IdTexts(UnreadOf(s.inbox)) && NoRepeat(IdTexts(UnreadOf(s.inbox)))
  {
    BacklogDrains(s, k);
    UnreadIsDistinct(s.inbox);
  }

  // ---------------------------------------------------------------- receipts that are not Finds in the way

  /** A Find with at least 40 non-Finds listed before it is never raised, however many ticks pass. */
  lemma {:induction false} Starves(s: State, p: nat, k: nat) returns (q: nat)
    requires Good(s) && p < |UnreadOf(s.inbox)|
    requires |NonFinds(UnreadOf(s.inbox)[..p])| >= 40
    ensures Good(Ticks(s, k)) && q < |UnreadOf(Ticks(s, k).inbox)|
    ensures UnreadOf(Ticks(s, k).inbox)[q] == UnreadOf(s.inbox)[p]
    ensures NonFinds(UnreadOf(Ticks(s, k).inbox)[..q]) == NonFinds(UnreadOf(s.inbox)[..p])
    ensures IdText(UnreadOf(s.inbox)[p]) in Ticks(s, k).notified ==> IdText(UnreadOf(s.inbox)[p]) in s.notified
  {
    hide TickOf, Good, IsFind;
    if k == 0 {
      q := p;
    } else {
      var r := Starves(s, p, k - 1);
      var before := Ticks(s, k - 1);
      SmoothTick(before);
      FilterMembers(UnreadOf(before.inbox)[..r], Not(IsFind));
      q := MovesUp(UnreadOf(before.inbox), IsFind, WINDOW, r);
      BehindWindowNotRaised(before, r);
    }
  }

  lemma BehindWindowNotRaised(s: State, r: nat)
    requires Good(s) && WINDOW <= r < |UnreadOf(s.inbox)|
    ensures IdText(UnreadOf(s.inbox)[r]) !in IdTexts(FindsOf(Window(s)))
  {
    var unread := UnreadOf(s.inbox);
    UnreadIsDistinct(s.inbox);
    FilterMembers(Window(s), IsFind);
    forall i | 0 <= i < |IdTexts(FindsOf(Window(s)))| ensures IdTexts(FindsOf(Window(s)))[i] != IdText(unread[r]) {
      assert FindsOf(Window(s))[i] in FindsOf(Window(s));
      var j :| 0 <= j < |Window(s)| && Window(s)[j] == FindsOf(Window(s))[i];
      assert unread[j] == Window(s)[j];
    }
  }

  /** Otherwise it is raised within as many ticks as its position in the list. */
  lemma {:induction false} GetsItsTurn(s: State, p: nat) returns (k: nat)
    requires Good(s) && p < |UnreadOf(s.inbox)| && IsFind(UnreadOf(s.inbox)[p])
    requires |NonFinds(UnreadOf(s.inbox)[..p])| < 40
    ensures k <= p + 1
    ensures IdText(UnreadOf(s.inbox)[p]) in Ticks(s, k).notified
    decreases p
  {
    hide TickOf, Good, IsFind;
    var unread, next := UnreadOf(s.inbox), TickOf(s, SMOOTH);
    SmoothTick(s);
    if p < WINDOW {
      k := 1;
      TicksAfterOne(s, 0);
      assert Window(s)[p] == unread[p];
      FilterMembers(Window(s), IsFind);
      IdListed(FindsOf(Window(s)), unread[p]);
    } else {
      var q := MovesUp(unread, IsFind, WINDOW, p);
      var later := GetsItsTurn(next, q);
      k := later + 1;
      TicksAfterOne(s, later);
    }
  }

  lemma {:induction false} TicksAfterOne(s: State, k: nat)
    ensures Ticks(TickOf(s, SMOOTH), k) == Ticks(s, k + 1)
  {
    hide TickOf, Good, IsFind;
    if k > 0 {
      TicksAfterOne(s, k - 1);
    } else {
      assert Ticks(s, 0) == s;
    }
  }

  /** The exact condition: a waiting Find is ever raised if and only if fewer than 40 non-Finds precede it. */
  lemma EventuallyRaisedExactly(s: State, p: nat)
    requires Good(s) && p < |UnreadOf(s.inbox)| && IsFind(UnreadOf(s.inbox)[p])
    requires IdText(UnreadOf(s.inbox)[p]) !in s.notified
    ensures (exists k: nat :: IdText(UnreadOf(s.inbox)[p]) in Ticks(s, k).notified)
            <==> |NonFinds(UnreadOf(s.inbox)[..p])| < 40
  {
    hide TickOf, Good, IsFind;
    if |NonFinds(UnreadOf(s.inbox)[..p])| < WINDOW {
      var k := GetsItsTurn(s, p);
    } else {
      forall k: nat ensures IdText(UnreadOf(s.inbox)[p]) !in Ticks(s, k).notified {
        var q := Starves(s, p, k);
      }
    }
  }

  // ---------------------------------------------------------------- lost read marks

  function AfterTroubles(s: State, troubles: seq<Trouble>): State
    decreases |troubles|
  {
    if troubles == [] then s
    else TickOf(AfterTroubles(s, troubles[..|troubles| - 1]), troubles[|troubles| - 1])
  }

  lemma {:induction false} BlockedStays(s: State, troubles: seq<Trouble>)
    requires Undelivered(Window(s), s.delivered) == []
    ensures AfterTroubles(s, troubles) == s
    decreases |troubles|
  {
    if troubles != [] {
      BlockedStays(s, troubles[..|troubles| - 1]);
    }
  }

  /** Later ticks do nothing, whatever goes wrong or right in them, exactly when nothing in the window is deliverable. */
  lemma BlockedWindowIsForever(s: State)
    ensures (forall troubles :: AfterTroubles(s, troubles) == s) <==> Undelivered(Window(s), s.delivered) == []
  {
    if Undelivered(Window(s), s.delivered) == [] {
      forall troubles ensures AfterTroubles(s, troubles) == s {
        BlockedStays(s, troubles);
      }
    } else {
      var selected := Undelivered(Window(s), s.delivered);
      assert [SMOOTH][..0] == [];
      assert AfterTroubles(s, [SMOOTH]) == TickOf(s, SMOOTH);
      assert IdTexts(selected)[..|selected|] == IdTexts(selected);
      assert |TickOf(s, SMOOTH).notified| == |s.notified| + |selected|;
    }
  }

  lemma {:induction false} AlreadyDistinct(ids: seq<string>, seen: set<string>)
    requires NoRepeat(ids) && forall i :: 0 <= i < |ids| ==> ids[i] !in seen
    ensures Distinct(ids, seen) == ids
  {
    if ids != [] {
      AlreadyDistinct(ids[1..], seen + {ids[0]});
    }
  }

  /** A batch no larger than the memory is remembered whole. */
  lemma BatchRemembered(delivered: seq<Field>, ids: seq<string>)
    requires |ids| <= MEMORY && NoRepeat(ids)
    requires forall id :: id in ids ==> id != "" && Trimmed(id)
    ensures forall id :: id in ids ==> id in Cleaned(Texts(Remember(delivered, Texts(ids), MEMORY)))
  {
    MemoryGrowsBy(delivered, ids);
    AlreadyDistinct(ids, {});
    DistinctConcat(ids, Cleaned(delivered), {});
    var kept := Remember(delivered, Texts(ids), MEMORY);
    forall id | id in ids ensures id in kept {
      var i :| 0 <= i < |ids| && ids[i] == id;
      assert kept[i] == id;
    }
  }

  /**
   With trimmed ids, each at most once and at most 100 of them, what one delivery raised is in the
   memory afterwards exactly when no create failed, or the very first one did.
   */
  lemma RaisedAreRememberedExactly(s: State, list: seq<Item>, trouble: Trouble)
    requires var ids := IdTexts(Undelivered(list, s.delivered));
             |ids| <= 100 && NoRepeat(ids) && forall id :: id in ids ==> Trimmed(id)
    ensures var ids := IdTexts(Undelivered(list, s.delivered));
            var n := Created(|ids|, trouble);
            (forall i :: 0 <= i < n ==> ids[i] in Cleaned(Deliver(s, list, trouble).delivered)) <==> n == |ids| || n == 0
  {
    var selected := Undelivered(list, s.delivered);
    var ids := IdTexts(selected);
    var n := Created(|ids|, trouble);
    FilterMembers(list, Deliverable(s.delivered));
    forall i | 0 <= i < |ids| ensures ids[i] != "" && ids[i] !in Cleaned(s.delivered) && ids[i] in ids {
      assert selected[i] in selected;
    }
    forall id | id in ids ensures id != "" && Trimmed(id) {
      var i :| 0 <= i < |ids| && ids[i] == id;
    }
    BatchRemembered(s.delivered, ids);
    hide Undelivered, Remember, Distinct;
    if 0 < n < |ids| {
      assert ids[0] !in Cleaned(Deliver(s, list, trouble).delivered);
    }
  }

  /** The ids among the first `n` whose read mark succeeded. */
  function Marked(ids: seq<string>, fails: set<nat>, n: nat): (r: seq<string>)
    requires n <= |ids|
    ensures |r| <= n
    decreases n
  {
    if n == 0 then [] else Marked(ids, fails, n - 1) + (if n - 1 in fails then [] else [ids[n - 1]])
  }

  /** Trying only the marks that succeed leaves the same inbox. */
  lemma {:induction false} MarkAllIsMarked(inbox: seq<Item>, ids: seq<string>, fails: set<nat>, n: nat)
    requires n <= |ids|
    ensures var kept := Marked(ids, fails, n); MarkAll(inbox, ids, fails, n) == MarkAll(inbox, kept, {}, |kept|)
    decreases n
  {
    if n > 0 {
      MarkAllIsMarked(inbox, ids, fails, n - 1);
      var before := Marked(ids, fails, n - 1);
      if n - 1 in fails {
        assert before + [] == before;
      } else {
        MarkAllIgnoresRest(inbox, before, [ids[n - 1]], |before|);
      }
    }
  }

  lemma {:induction false} MarkAllIgnoresRest(inbox: seq<Item>, ids: seq<string>, more: seq<string>, n: nat)
    requires n <= |ids|
    ensures MarkAll(inbox, ids + more, {}, n) == MarkAll(inbox, ids, {}, n)
    decreases n
  {
    if n > 0 {
      MarkAllIgnoresRest(inbox, ids, more, n - 1);
    }
  }

  lemma {:induction false} MarkedMembers(ids: seq<string>, fails: set<nat>, n: nat)
    requires n <= |ids| && NoRepeat(ids)
    ensures forall id :: id in Marked(ids, fails, n) ==> id in ids[..n]
    ensures NoRepeat(Marked(ids, fails, n))
    decreases n
  {
    if n > 0 {
      MarkedMembers(ids, fails, n - 1);
      assert ids[..n] == ids[..n - 1] + [ids[n - 1]];
      var before := Marked(ids, fails, n - 1);
      forall i | 0 <= i < |before| ensures before[i] != ids[n - 1] {
        assert before[i] in ids[..n - 1];
      }
    }
  }

  lemma {:induction false} FilterSplits<T>(s: seq<T>, p: T -> bool)
    ensures |Filter(s, p)| + |Filter(s, Not(p))| == |s|
  {
    if s != [] {
      FilterSplits(s[1..], p);
    }
  }

  function Inside(ids: seq<string>): Item -> bool {
    item => IdText(item) in ids
  }

  /** Each id names one item of a list that has them all. */
  lemma InsideSize(items: seq<Item>, ids: seq<string>)
    requires DistinctIds(items) && NoRepeat(ids) && forall id :: id in ids ==> id in IdTexts(items)
    ensures |Filter(items, Inside(ids))| == |ids|
  {
    var found := Filter(items, Inside(ids));
    FilterMembers(items, Inside(ids));
    FilteredAreDistinct(items, Inside(ids));
    assert NoRepeat(IdTexts(found));
    assert Elems(IdTexts(found)) == Elems(ids) by {
      forall id | id in ids ensures id in IdTexts(found) {
        var i := IndexOfId(items, id);
        IdListed(found, items[i]);
      }
      forall id | id in IdTexts(found) ensures id in ids {
        var i := IndexOfId(found, id);
      }
    }
    NoRepeatSize(IdTexts(found));
    NoRepeatSize(ids);
  }

  /** The unread list after a tick whose creates succeed: what was marked leaves, what was not stays in front. */
  lemma UnreadAfterMarks(s: State, fails: set<nat>)
    requires Good(s)
    ensures var ids := IdTexts(FindsOf(Window(s)));
            var kept := Marked(ids, fails, |ids|);
            && UnreadOf(TickOf(s, Trouble(None, fails)).inbox)
               == Filter(Window(s), Outside(kept)) + Drop(UnreadOf(s.inbox), WINDOW)
            && |Filter(Window(s), Outside(kept))| + |kept| == |Window(s)|
  {
    var unread, window := UnreadOf(s.inbox), Window(s);
    var ids := IdTexts(FindsOf(window));
    var kept := Marked(ids, fails, |ids|);
    FreshSelection(s);
    WindowIds(s);
    MarkedMembers(ids, fails, |ids|);
    assert ids[..|ids|] == ids;
    MarkAllIsMarked(s.inbox, ids, fails, |ids|);
    forall i | 0 <= i < |kept| ensures Trimmed(kept[i]) {
      assert kept[i] in ids;
    }
    MarkAllHides(s.inbox, kept);
    UnreadIsDistinct(s.inbox);
    forall i | 0 <= i < |unread| ensures i < WINDOW || IdText(unread[i]) !in kept {
      if i >= WINDOW && IdText(unread[i]) in kept {
        BehindWindowNotRaised(s, i);
        assert false;
      }
    }
    FilterDrains(unread, Inside(kept), Outside(kept), WINDOW);
    FilterAgrees(window, Not(Inside(kept)), Outside(kept));
    FilterSplits(window, Inside(kept));
    WindowIsDistinct(s);
    InsideSize(window, kept);
  }

  lemma WindowIsDistinct(s: State)
    requires Good(s)
    ensures DistinctIds(Window(s))
  {
    UnreadIsDistinct(s.inbox);
    assert forall i :: 0 <= i < |Window(s)| ==> Window(s)[i] == UnreadOf(s.inbox)[i];
  }

  lemma WindowIds(s: State)
    requires Good(s)
    ensures NoRepeat(IdTexts(FindsOf(Window(s)))) && |IdTexts(FindsOf(Window(s)))| <= WINDOW
    ensures forall id :: id in IdTexts(FindsOf(Window(s))) ==> id in IdTexts(Window(s))
  {
    WindowIsDistinct(s);
    FilteredAreDistinct(Window(s), IsFind);
    FilterMembers(Window(s), IsFind);
    forall id | id in IdTexts(FindsOf(Window(s))) ensures id in IdTexts(Window(s)) {
      var i := IndexOfId(FindsOf(Window(s)), id);
      IdListed(Window(s), FindsOf(Window(s))[i]);
    }
  }

  /** The receipts that move into the window when `m` leave it. */
  function MovingIn(s: State, m: nat): seq<Item> {
    Take(Drop(UnreadOf(s.inbox), WINDOW), m)
  }

  /**
   A failed read mark is not tried again. After a tick whose creates succeed and whose marks fail as
   they may, no later tick does anything, whatever goes wrong or right in it, exactly when there is no
   Find among as many receipts behind the window as there were marks that succeeded.
   */
  lemma LostMarksStarve(s: State, fails: set<nat>)
    requires Good(s)
    ensures var once, ids := TickOf(s, Trouble(None, fails)), IdTexts(FindsOf(Window(s)));
            && once.notified == s.notified + ids
            && ((forall troubles :: AfterTroubles(once, troubles) == once)
                <==> FindsOf(MovingIn(s, |Marked(ids, fails, |ids|)|)) == [])
  {
    var once := TickOf(s, Trouble(None, fails));
    var window, ids := Window(s), IdTexts(FindsOf(Window(s)));
    var kept := Marked(ids, fails, |ids|);
    var stay, moving := Filter(window, Outside(kept)), MovingIn(s, |kept|);
    FreshSelection(s);
    UnreadAfterMarks(s, fails);
    WindowIds(s);
    assert ids[..|ids|] == ids;
    NextWindow(s, stay, |kept|);
    assert Window(once) == stay + moving;
    FilterConcat(stay, moving, Deliverable(once.delivered));
    BatchRemembered(s.delivered, ids);
    StayingAreRemembered(s, ids, kept, once.delivered);
    MovingAreNew(s, ids, |kept|);
    assert [] + FindsOf(moving) == FindsOf(moving);
    BlockedWindowIsForever(once);
  }

  lemma NextWindow(s: State, stay: seq<Item>, m: nat)
    requires |stay| + m == |Window(s)|
    ensures Take(stay + Drop(UnreadOf(s.inbox), WINDOW), WINDOW) == stay + MovingIn(s, m)
  {
    var rest := Drop(UnreadOf(s.inbox), WINDOW);
    if rest != [] && |rest| > m {
      assert (stay + rest)[..WINDOW] == stay + rest[..m];
    }
  }

  /** What stays of the window is no Find or was just delivered. */
  lemma StayingAreRemembered(s: State, ids: seq<string>, kept: seq<string>, delivered: seq<Field>)
    requires ids == IdTexts(FindsOf(Window(s))) && forall id :: id in ids ==> id in Cleaned(delivered)
    ensures Filter(Filter(Window(s), Outside(kept)), Deliverable(delivered)) == []
  {
    var stay := Filter(Window(s), Outside(kept));
    FilterMembers(Window(s), Outside(kept));
    FilterMembers(Window(s), IsFind);
    forall i | 0 <= i < |stay| ensures !IsUndelivered(stay[i], delivered) {
      assert stay[i] in stay;
      if IsFind(stay[i]) {
        IdListed(FindsOf(Window(s)), stay[i]);
      }
    }
    FilterNone(stay, Deliverable(delivered));
  }

  /** Of what moves in, exactly the Finds are deliverable. */
  lemma MovingAreNew(s: State, ids: seq<string>, m: nat)
    requires Good(s) && ids == IdTexts(FindsOf(Window(s)))
    ensures Filter(MovingIn(s, m), Deliverable(Texts(Remember(s.delivered, Texts(ids), MEMORY)))) == FindsOf(MovingIn(s, m))
    ensures ids == [] ==> Filter(MovingIn(s, m), Deliverable(s.delivered)) == FindsOf(MovingIn(s, m))
  {
    var unread, moving := UnreadOf(s.inbox), MovingIn(s, m);
    var after := Texts(Remember(s.delivered, Texts(ids), MEMORY));
    FreshSelection(s);
    MemoryGrowsBy(s.delivered, ids);
    FilterMembers(s.inbox, IsUnread);
    forall i | 0 <= i < |moving|
      ensures Deliverable(after)(moving[i]) == IsFind(moving[i]) == Deliverable(s.delivered)(moving[i])
    {
      assert moving[i] == unread[WINDOW + i] && unread[WINDOW + i] in unread;
      BehindWindowNotRaised(s, WINDOW + i);
    }
    FilterAgrees(moving, Deliverable(after), IsFind);
    FilterAgrees(moving, Deliverable(s.delivered), IsFind);
  }
}
