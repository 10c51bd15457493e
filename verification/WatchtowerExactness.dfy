/** What the watchtower reports over whole runs, stated without its sorting, maps and ledger. */
module WatchtowerExactness {
  import opened Text
  import opened Ordering
  import opened Recency
  import opened Windows
  import opened Missions
  import opened Watchtower

  ghost predicate DistinctIds(missions: seq<Mission>) {
    forall i, j :: 0 <= i < j < |missions| ==> missions[i].id != missions[j].id
  }

  /** Fewer than 100 well-formed missions are newer, or equally new and listed earlier. */
  ghost predicate AmongNewest(missions: seq<Mission>, collate: Collation, m: Mission) {
    var tracked := Tracked(missions);
    exists j :: 0 <= j < |tracked| && tracked[j] == m && Ahead(tracked, collate, j) < 100
  }

  /** The j-th listed mission is newer than the i-th, or as new and listed before it. */
  predicate InFront(missions: seq<Mission>, collate: Collation, j: nat, i: nat)
    requires i < |missions| && j < |missions|
  {
    var a, b := collate(OrEmpty(missions[j].createdAt)), collate(OrEmpty(missions[i].createdAt));
    a > b || (a == b && j < i)
  }

  /** How many missions are in front of the i-th. */
  ghost function Ahead(missions: seq<Mission>, collate: Collation, i: nat): nat
    requires i < |missions|
  {
    |set j | 0 <= j < |missions| && InFront(missions, collate, j, i)|
  }

  lemma {:induction false} PermutedNoRepeat<T>(a: seq<T>, b: seq<T>)
    requires multiset(a) == multiset(b) && NoRepeat(a)
    ensures NoRepeat(b)
  {
    forall x ensures multiset(a)[x] <= 1 {
      OccursOnce(a, x);
    }
    forall i, j | 0 <= i < j < |b| ensures b[i] != b[j] {
      assert b == b[..j] + b[j..];
      assert b[i] in b[..j] && b[j] in b[j..];
      assert multiset(b)[b[j]] == multiset(b[..j])[b[j]] + multiset(b[j..])[b[j]];
    }
  }

  lemma {:induction false} OccursOnce<T>(a: seq<T>, x: T)
    requires NoRepeat(a)
    ensures multiset(a)[x] <= 1
  {
    if a != [] {
      assert a == [a[0]] + a[1..];
      OccursOnce(a[1..], x);
      if a[0] == x {
        assert x !in a[1..];
      }
    }
  }

  lemma DistinctIdsNoRepeat(missions: seq<Mission>)
    requires DistinctIds(missions)
    ensures NoRepeat(missions)
  {
  }

  /** Sorting and cutting keeps exactly the newest 100, by counting. */
  lemma NewestExactly(missions: seq<Mission>, collate: Collation)
    requires DistinctIds(Tracked(missions))
    ensures forall m :: m in Newest(missions, collate) <==> AmongNewest(missions, collate, m)
    ensures DistinctIds(Newest(missions, collate))
  {
    var tracked, key := Tracked(missions), NewestFirst(collate);
    var sorted := Sort(tracked, key);
    SortIsPermutation(tracked, key);
    DistinctIdsNoRepeat(tracked);
    PermutedNoRepeat(tracked, sorted);
    SortIsSorted(tracked, key);
    forall j | 0 <= j < |tracked| ensures Place(tracked, key, j) == Ahead(tracked, collate, j) {
      PlaceCountsNewer(tracked, collate, j);
    }
    forall m ensures m in Take(sorted, MAX_TRACKED) <==> AmongNewest(missions, collate, m) {
      TakenExactly(tracked, key, m);
    }
    forall i, j | 0 <= i < j < |sorted| ensures sorted[i].id != sorted[j].id {
      assert sorted[i] in multiset(tracked) && sorted[j] in multiset(tracked);
      assert sorted[i] != sorted[j];
    }
  }

  lemma CountsInFront(missions: seq<Mission>, collate: Collation, i: nat, j: nat)
    requires i < |missions| && j < |missions| && j != i
    ensures var key := NewestFirst(collate);
            InFront(missions, collate, j, i) <==>
              if j < i then Counts(missions[..i], key, key(missions[i]), false, j)
              else Counts(missions[i + 1..], key, key(missions[i]), true, j - i - 1)
  {
  }

  /** The place of a mission in the sorted list counts those in front of it. */
  lemma PlaceCountsNewer(missions: seq<Mission>, collate: Collation, i: nat)
    requires i < |missions|
    ensures Place(missions, NewestFirst(collate), i) == Ahead(missions, collate, i)
  {
    var key := NewestFirst(collate);
    var k := key(missions[i]);
    var early, late := missions[..i], missions[i + 1..];
    CountIsSize(early, key, k, false, 0);
    CountIsSize(late, key, k, true, i + 1);
    var a := set j | 0 <= j < |early| && Counts(early, key, k, false, j) :: 0 + j;
    var b := set j | 0 <= j < |late| && Counts(late, key, k, true, j) :: i + 1 + j;
    var all := set j | 0 <= j < |missions| && InFront(missions, collate, j, i);
    assert !InFront(missions, collate, i, i);
    hide InFront, Counts, NewestFirst, CountUpTo;
    forall j | j in all ensures j in a + b {
      CountsInFront(missions, collate, i, j);
      if j > i {
        assert i + 1 + (j - i - 1) in b;
      } else {
        assert 0 + j in a;
      }
    }
    forall x | x in a ensures x in all {
      CountsInFront(missions, collate, i, x);
    }
    forall x | x in b ensures x in all {
      CountsInFront(missions, collate, i, x);
    }
    assert all == a + b && a * b == {};
  }

  predicate Counts<T>(xs: seq<T>, key: T -> Rank, k: Rank, strict: bool, j: nat)
    requires j < |xs|
  {
    if strict then !Le(k, key(xs[j])) else Le(key(xs[j]), k)
  }

  lemma {:induction false} CountIsSize<T>(xs: seq<T>, key: T -> Rank, k: Rank, strict: bool, from: nat)
    ensures CountUpTo(xs, key, k, strict) == |set j | 0 <= j < |xs| && Counts(xs, key, k, strict, j) :: from + j|
  {
    var all := set j | 0 <= j < |xs| && Counts(xs, key, k, strict, j) :: from + j;
    if xs == [] {
      assert all == {};
    } else {
      CountIsSize(xs[1..], key, k, strict, from + 1);
      CountedSplits(xs, key, k, strict, from);
    }
  }

  lemma CountedSplits<T>(xs: seq<T>, key: T -> Rank, k: Rank, strict: bool, from: nat)
    requires xs != []
    ensures var rest := set j | 0 <= j < |xs[1..]| && Counts(xs[1..], key, k, strict, j) :: from + 1 + j;
            && (set j | 0 <= j < |xs| && Counts(xs, key, k, strict, j) :: from + j)
               == (if Counts(xs, key, k, strict, 0) then {from} else {}) + rest
            && from !in rest
  {
    forall j | 0 <= j < |xs| - 1 ensures Counts(xs[1..], key, k, strict, j) == Counts(xs, key, k, strict, j + 1) {}
    hide Counts;
    var all := set j | 0 <= j < |xs| && Counts(xs, key, k, strict, j) :: from + j;
    var rest := set j | 0 <= j < |xs[1..]| && Counts(xs[1..], key, k, strict, j) :: from + 1 + j;
    forall x | x in all && x > from ensures x in rest {
      var j: nat :| 0 <= j < |xs| && Counts(xs, key, k, strict, j) && x == from + j;
      assert Counts(xs[1..], key, k, strict, j - 1) && x == from + 1 + (j - 1);
    }
    forall x | x in rest ensures x in all {
      assert from + (x - from - 1 + 1) in all;
    }
  }

  lemma TakenExactly<T>(xs: seq<T>, key: T -> Rank, x: T)
    requires NoRepeat(Sort(xs, key)) && multiset(Sort(xs, key)) == multiset(xs)
    ensures x in Take(Sort(xs, key), MAX_TRACKED)
            <==> exists j :: 0 <= j < |xs| && xs[j] == x && Place(xs, key, j) < MAX_TRACKED
  {
    hide Place, Sort, NoRepeat;
    var sorted := Sort(xs, key);
    forall j | 0 <= j < |xs| && xs[j] == x
      ensures x in Take(sorted, MAX_TRACKED) <==> Place(xs, key, j) < MAX_TRACKED
    {
      SortPlaces(xs, key, j);
      OnlyAt(sorted, Place(xs, key, j), MAX_TRACKED);
    }
    if x in Take(sorted, MAX_TRACKED) {
      assert x in multiset(sorted);
      assert x in xs;
    }
  }

  lemma OnlyAt<T>(s: seq<T>, p: nat, n: nat)
    requires NoRepeat(s) && p < |s|
    ensures s[p] in Take(s, n) <==> p < n
  {
    if p < n {
      assert Take(s, n)[p] == s[p];
    }
  }

  lemma {:induction false} RevisionKeys(missions: seq<Mission>)
    requires forall i :: 0 <= i < |missions| ==> IsTracked(missions[i])
    ensures forall id :: id in Revisions(missions) <==> exists m :: m in missions && m.id == Field.Text(id)
  {
    hide Revision;
    if missions != [] {
      RevisionKeys(missions[..|missions| - 1]);
      assert missions == missions[..|missions| - 1] + [missions[|missions| - 1]];
    }
  }

  lemma {:induction false} RevisionValues(missions: seq<Mission>, i: nat)
    requires forall i :: 0 <= i < |missions| ==> IsTracked(missions[i])
    requires DistinctIds(missions) && i < |missions|
    ensures IsTracked(missions[i]) && missions[i].id.s in Revisions(missions) && Revisions(missions)[missions[i].id.s] == Revision(missions[i])
  {
    hide Revision;
    var n := |missions| - 1;
    if i < n {
      RevisionValues(missions[..n], i);
      assert IsTracked(missions[i]) && IsTracked(missions[n]) && missions[i].id != missions[n].id;
      assert missions[..n][i] == missions[i];
    }
  }

  lemma RevisionsExactly(missions: seq<Mission>)
    requires forall i :: 0 <= i < |missions| ==> IsTracked(missions[i])
    requires DistinctIds(missions)
    ensures forall id :: id in Revisions(missions) <==> exists m :: m in missions && m.id == Field.Text(id)
    ensures forall m :: m in missions ==> m.id.s in Revisions(missions) && Revisions(missions)[m.id.s] == Revision(m)
  {
    hide Revision, Revisions;
    RevisionKeys(missions);
    forall m | m in missions ensures m.id.s in Revisions(missions) && Revisions(missions)[m.id.s] == Revision(m) {
      var i :| 0 <= i < |missions| && missions[i] == m;
      RevisionValues(missions, i);
    }
  }

  lemma {:induction false} TransitionsExactly(missions: seq<Mission>, known: map<string, string>, now: int)
    requires forall i :: 0 <= i < |missions| ==> IsTracked(missions[i])
    requires DistinctIds(missions)
    ensures forall e :: e in Transitions(missions, known, now)
                        <==> exists m :: m in missions && Changed(m, known) && e == EventOf(m, now)
    ensures forall i, j :: 0 <= i < j < |Transitions(missions, known, now)| ==>
      Transitions(missions, known, now)[i].missionId != Transitions(missions, known, now)[j].missionId
  {
    if missions != [] {
      hide Changed;
      var n := |missions| - 1;
      var last, before := missions[n], Transitions(missions[..n], known, now);
      TransitionsExactly(missions[..n], known, now);
      assert missions == missions[..n] + [last];
      forall i | 0 <= i < |before| ensures before[i].missionId != last.id.s {
        assert before[i] in before;
        var m :| m in missions[..n] && Changed(m, known) && before[i] == EventOf(m, now);
        var k :| 0 <= k < n && missions[..n][k] == m;
        assert missions[k] == m;
      }
    }
  }

  /** The mission is terminal now and its revision differs from the one it had in the earlier list. */
  ghost predicate NewlyTerminal(before: seq<Mission>, after: seq<Mission>, collate: Collation, m: Mission) {
    && IsTracked(m) && IsTerminal(m.status.s)
    && AmongNewest(after, collate, m)
    && exists b :: AmongNewest(before, collate, b) && b.id == m.id && IsTracked(b) && Revision(b) != Revision(m)
  }

  lemma {:induction false} ReportedExactly(before: seq<Mission>, after: seq<Mission>, collate: Collation, now: int)
    requires DistinctIds(Tracked(before)) && DistinctIds(Tracked(after))
    ensures var reported := Transitions(Newest(after, collate), Revisions(Newest(before, collate)), now);
            && (forall m :: NewlyTerminal(before, after, collate, m) ==> EventOf(m, now) in reported)
            && (forall e :: e in reported ==> exists m :: NewlyTerminal(before, after, collate, m) && e == EventOf(m, now))
            && forall i, j :: 0 <= i < j < |reported| ==> reported[i].missionId != reported[j].missionId
  {
    var known0, current := Newest(before, collate), Newest(after, collate);
    var known := Revisions(known0);
    NewestExactly(before, collate);
    NewestExactly(after, collate);
    RevisionsExactly(known0);
    TransitionsExactly(current, known, now);
    forall m | m in current ensures Changed(m, known) <==> NewlyTerminal(before, after, collate, m) {
      ChangedExactly(before, after, collate, m);
    }
  }

  lemma ChangedExactly(before: seq<Mission>, after: seq<Mission>, collate: Collation, m: Mission)
    requires DistinctIds(Tracked(before)) && DistinctIds(Tracked(after))
    requires IsTracked(m) && AmongNewest(after, collate, m)
    ensures Changed(m, Revisions(Newest(before, collate))) <==> NewlyTerminal(before, after, collate, m)
  {
    hide Revision, AmongNewest;
    var known0 := Newest(before, collate);
    NewestExactly(before, collate);
    RevisionsExactly(known0);
    if Changed(m, Revisions(known0)) {
      var b :| b in known0 && b.id == Field.Text(m.id.s);
      assert AmongNewest(before, collate, b) && b.id == m.id && IsTracked(b) && Revision(b) != Revision(m);
    }
  }

  lemma ReportsTransitions(missions: seq<Mission>, s: State, now: int, collate: Collation)
    requires s.initialized
    ensures Reconcile(missions, s, now, collate).1 == Transitions(Newest(missions, collate), s.known, now)
  {
  }

  // ---------------------------------------------------------------- the ledger

  ghost predicate DistinctEvents(events: seq<Event>) {
    forall i, j :: 0 <= i < j < |events| ==> events[i].id != events[j].id
  }

  ghost predicate GoodLedger(events: seq<Event>) {
    && |events| <= 20
    && (forall i :: 0 <= i < |events| ==> IsLedgerEvent(events[i]))
    && DistinctEvents(events)
  }

  /** ISO timestamps contain no letter `d`, the last letter of both terminal statuses. */
  predicate PlainTime(at: string) {
    'd' !in at
  }

  lemma TailWithoutD(head: string, at: string)
    requires PlainTime(at)
    ensures forall i :: |head| < i < |head + ":" + at| ==> (head + ":" + at)[i] != 'd'
  {
    var s := head + ":" + at;
    forall i | |head| < i < |s| ensures s[i] != 'd' {
      assert s[i] == at[i - |head| - 1];
    }
  }

  lemma StatusMark(id: string, status: string)
    requires IsTerminal(status)
    ensures var h := id + ":" + status;
            && h[|h| - 1] == 'd'
            && (h[|h| - 3] == 't' <==> status == COMPLETED)
            && id == h[..|h| - |status| - 1]
  {
    var h := id + ":" + status;
    assert h[|h| - 1] == status[|status| - 1] && h[|h| - 3] == status[|status| - 3];
  }

  /** Composed event ids identify the (mission, status, timestamp) triple. */
  lemma EventIdIsTriple(id1: string, st1: string, at1: string, id2: string, st2: string, at2: string)
    requires IsTerminal(st1) && IsTerminal(st2) && PlainTime(at1) && PlainTime(at2)
    ensures EventId(id1, st1, at1) == EventId(id2, st2, at2) <==> id1 == id2 && st1 == st2 && at1 == at2
  {
    var h1, h2 := id1 + ":" + st1, id2 + ":" + st2;
    var s := h1 + ":" + at1;
    TailWithoutD(h1, at1);
    TailWithoutD(h2, at2);
    StatusMark(id1, st1);
    StatusMark(id2, st2);
    if s == h2 + ":" + at2 {
      assert s[|h1| - 1] == 'd' && s[|h2| - 1] == 'd';
      assert |h1| == |h2|;
      assert h1 == s[..|h1|] == h2;
      assert at1 == s[|h1| + 1..] == at2;
    }
  }

  lemma {:induction false} FilterKeepsOrder(s: seq<Event>, p: Event -> bool)
    requires DistinctEvents(s)
    ensures DistinctEvents(Filter(s, p))
  {
    if s != [] {
      FilterKeepsOrder(s[1..], p);
      FilterMembers(s[1..], p);
      var rest := Filter(s[1..], p);
      forall i | 0 <= i < |rest| ensures rest[i].id != s[0].id {
        assert rest[i] in rest;
        var k :| 0 <= k < |s[1..]| && s[1..][k] == rest[i];
        assert s[k + 1] == rest[i];
      }
    }
  }

  lemma LedgerStaysGood(transitions: seq<Event>, events: seq<Event>)
    requires GoodLedger(events)
    requires DistinctEvents(transitions)
    ensures GoodLedger(Ledger(transitions, events))
  {
    var added := Filter(transitions, NotIn(EventIds(events)));
    var all := added + events;
    FilterKeepsOrder(transitions, NotIn(EventIds(events)));
    FilterMembers(transitions, NotIn(EventIds(events)));
    forall i, j | 0 <= i < |added| && 0 <= j < |events| ensures added[i].id != events[j].id {
      assert added[i] in added && events[j] in events;
      assert events[j].id in EventIds(events);
    }
    forall i, j | 0 <= i < j < |all| ensures all[i].id != all[j].id {
      if i < |added| <= j {
        assert all[j] == events[j - |added|];
      } else if |added| <= i {
        assert all[i] == events[i - |added|] && all[j] == events[j - |added|];
      }
    }
    FilterKeepsOrder(all, IsLedgerEvent);
    FilterMembers(all, IsLedgerEvent);
    var kept := Filter(all, IsLedgerEvent);
    forall i | 0 <= i < |kept| ensures IsLedgerEvent(kept[i]) {
      assert kept[i] in kept;
    }
  }

  /** The events whose ids the ledger does not have yet. */
  function Unlisted(transitions: seq<Event>, events: seq<Event>): seq<Event> {
    Filter(transitions, NotIn(EventIds(events)))
  }

  lemma UnlistedExactly(transitions: seq<Event>, events: seq<Event>)
    ensures forall e :: e in Unlisted(transitions, events) <==> e in transitions && forall other :: other in events ==> other.id != e.id
    ensures |Unlisted(transitions, events)| <= |transitions|
  {
    FilterMembers(transitions, NotIn(EventIds(events)));
  }

  /**
   The new ledger has the newly reported events in front, in the order of the report, and then the older
   ones in theirs; only the last of the older ones are cut, and only as many as there is no room for.
   */
  lemma LedgerExactly(transitions: seq<Event>, events: seq<Event>)
    requires GoodLedger(events) && forall e :: e in transitions ==> e.id != "" && (e.status == COMPLETED || e.status == FAILED)
    ensures var added, next := Unlisted(transitions, events), Ledger(transitions, events);
            if |added| <= 20 then
              next == added + events[..if |events| <= 20 - |added| then |events| else 20 - |added|]
            else next == added[..20]
  {
    var added := Unlisted(transitions, events);
    var all := added + events;
    UnlistedExactly(transitions, events);
    forall i | 0 <= i < |all| ensures IsLedgerEvent(all[i]) {
      if i < |added| {
        assert all[i] in added;
      }
    }
    FilterAll(all, IsLedgerEvent);
  }

  lemma {:induction false} TransitionsAreTerminal(missions: seq<Mission>, known: map<string, string>, now: int)
    requires forall i :: 0 <= i < |missions| ==> IsTracked(missions[i])
    ensures forall e :: e in Transitions(missions, known, now) ==> e.id != "" && (e.status == COMPLETED || e.status == FAILED)
  {
    hide Revision, TerminalTimestamp, SettlementCode;
    if missions != [] {
      TransitionsAreTerminal(missions[..|missions| - 1], known, now);
    }
  }

  function Least(a: nat, b: nat): nat {
    if a < b then a else b
  }

  /** What a snapshot reports, as far as it is not listed yet and there are at most 20 of it, is in front of the new ledger. */
  lemma ReportIsInLedger(missions: seq<Mission>, s: State, now: int, collate: Collation)
    requires GoodLedger(s.events)
    ensures var (next, reported) := Reconcile(missions, s, now, collate);
            var added := Unlisted(reported, s.events);
            |added| <= 20 ==>
              && added <= next.events && next.events[|added|..] <= s.events
              && |next.events| == Least(20, |added| + |s.events|)
  {
    TransitionsAreTerminal(Newest(missions, collate), s.known, now);
    LedgerExactly(Reconcile(missions, s, now, collate).1, s.events);
  }

  ghost predicate PlainTimes(missions: seq<Mission>) {
    forall m :: m in missions ==> PlainTime(TerminalTimestamp(m))
  }

  lemma ReportedIdsDistinct(newest: seq<Mission>, known: map<string, string>, now: int)
    requires forall i :: 0 <= i < |newest| ==> IsTracked(newest[i])
    requires DistinctIds(newest) && PlainTimes(newest)
    ensures DistinctEvents(Transitions(newest, known, now))
  {
    TransitionsExactly(newest, known, now);
    var r := Transitions(newest, known, now);
    forall i, j | 0 <= i < j < |r| ensures r[i].id != r[j].id {
      assert r[i] in r && r[j] in r;
      var a :| a in newest && Changed(a, known) && r[i] == EventOf(a, now);
      var b :| b in newest && Changed(b, known) && r[j] == EventOf(b, now);
      EventIdIsTriple(a.id.s, a.status.s, TerminalTimestamp(a), b.id.s, b.status.s, TerminalTimestamp(b));
    }
  }

  lemma NewestAreListed(missions: seq<Mission>, collate: Collation)
    ensures forall m :: m in Newest(missions, collate) ==> m in missions
  {
    var tracked := Tracked(missions);
    SortIsPermutation(tracked, NewestFirst(collate));
    FilterMembers(missions, IsTracked);
    forall m | m in Newest(missions, collate) ensures m in missions {
      assert m in multiset(Sort(tracked, NewestFirst(collate)));
      assert m in multiset(tracked);
    }
  }

  lemma ReconcileKeepsLedger(missions: seq<Mission>, s: State, now: int, collate: Collation)
    requires DistinctIds(Tracked(missions)) && PlainTimes(missions) && GoodLedger(s.events)
    ensures GoodLedger(Reconcile(missions, s, now, collate).0.events)
  {
    var newest := Newest(missions, collate);
    NewestExactly(missions, collate);
    NewestAreListed(missions, collate);
    assert PlainTimes(newest);
    if s.initialized {
      ReportedIdsDistinct(newest, s.known, now);
      LedgerStaysGood(Transitions(newest, s.known, now), s.events);
    } else {
      LedgerStaysGood([], s.events);
    }
  }

  /** Reading the same list again reports nothing and changes nothing. */
  lemma RepeatChangesNothing(missions: seq<Mission>, s: State, now: int, later: int, collate: Collation)
    requires DistinctIds(Tracked(missions)) && GoodLedger(Reconcile(missions, s, now, collate).0.events)
    ensures var once := Reconcile(missions, s, now, collate).0;
            Reconcile(missions, once, later, collate) == (once, [])
  {
    var newest := Newest(missions, collate);
    var once := Reconcile(missions, s, now, collate).0;
    NewestExactly(missions, collate);
    RevisionsExactly(newest);
    NothingChanged(newest, once.known, later);
    assert [] + once.events == once.events;
    FilterAll(once.events, IsLedgerEvent);
  }

  predicate Known(m: Mission, known: map<string, string>) {
    IsTracked(m) && m.id.s in known && known[m.id.s] == Revision(m)
  }

  lemma {:induction false} NothingChanged(missions: seq<Mission>, known: map<string, string>, now: int)
    requires forall i :: 0 <= i < |missions| ==> IsTracked(missions[i])
    requires forall i :: 0 <= i < |missions| ==> Known(missions[i], known)
    ensures Transitions(missions, known, now) == []
  {
    if missions != [] {
      NothingChanged(missions[..|missions| - 1], known, now);
    }
  }

  // ---------------------------------------------------------------- what a revision text stands for

  lemma FirstBar(a: string, b: string)
    requires '|' !in a
    ensures var s := a + "|" + b; s[|a|] == '|' && forall i :: 0 <= i < |a| ==> s[i] != '|'
  {
    var s := a + "|" + b;
    forall i | 0 <= i < |a| ensures s[i] != '|' {
      assert s[i] == a[i];
    }
  }

  lemma SplitAtBar(a: string, b: string, c: string, d: string)
    requires '|' !in a && '|' !in c
    ensures a + "|" + b == c + "|" + d <==> a == c && b == d
  {
    var s, t := a + "|" + b, c + "|" + d;
    FirstBar(a, b);
    FirstBar(c, d);
    if s == t {
      assert |a| == |c|;
      assert a == s[..|a|] == c;
      assert b == s[|a| + 1..] == d;
    }
  }

  predicate NoBars(m: Mission) {
    m.status.Text? && '|' !in m.status.s && '|' !in OrEmpty(m.executionPhase) && '|' !in TerminalTimestamp(m)
  }

  /** Two revisions are the same text exactly when status, phase and both times agree. */
  lemma RevisionMeans(m: Mission, n: Mission)
    requires IsTracked(m) && IsTracked(n) && NoBars(m) && NoBars(n)
    ensures Revision(m) == Revision(n) <==>
              && m.status == n.status
              && OrEmpty(m.executionPhase) == OrEmpty(n.executionPhase)
              && TerminalTimestamp(m) == TerminalTimestamp(n)
              && OrEmpty(FailureTime(m)) == OrEmpty(FailureTime(n))
  {
    SplitAtBar(TerminalTimestamp(m), OrEmpty(FailureTime(m)), TerminalTimestamp(n), OrEmpty(FailureTime(n)));
    var tail1 := TerminalTimestamp(m) + "|" + OrEmpty(FailureTime(m));
    var tail2 := TerminalTimestamp(n) + "|" + OrEmpty(FailureTime(n));
    SplitAtBar(OrEmpty(m.executionPhase), tail1, OrEmpty(n.executionPhase), tail2);
    SplitAtBar(m.status.s, OrEmpty(m.executionPhase) + "|" + tail1, n.status.s, OrEmpty(n.executionPhase) + "|" + tail2);
    assert Revision(m) == m.status.s + "|" + (OrEmpty(m.executionPhase) + "|" + tail1);
    assert Revision(n) == n.status.s + "|" + (OrEmpty(n.executionPhase) + "|" + tail2);
  }
}
