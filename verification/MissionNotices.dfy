/**
 One whole alarm tick of the service worker: Find delivery, watchtower reconciliation and mission
 notices, with the rule that keeps Kernel receipts and mission notices from announcing one Find twice.
 */
module MissionNotices {
  import opened Text
  import opened Recency
  import opened Windows
  import opened Missions
  import opened Surfaces
  import FD = FindDelivery
  import W = Watchtower
  import R = WatchtowerRuns
  import opened WatchtowerExactness

  // ---------------------------------------------------------------- covering receipts

  predicate NamesEvidence(item: FD.Item, ids: set<string>) {
    item.Receipt? && item.evidenceIds.Some? && exists f :: f in item.evidenceIds.value && TrimmedString(f) in ids
  }

  function Covers(m: Mission): FD.Item -> bool {
    (item: FD.Item) => FD.IsFind(item) && NamesEvidence(item, SupportedEvidence(m))
  }

  /** SUPPORT Find receipts, in any state, for evidence that this mission's rows support. */
  function Covering(receipts: seq<FD.Item>, m: Mission): seq<FD.Item> {
    if SupportedEvidence(m) == {} then [] else Filter(receipts, Covers(m))
  }

  predicate ShouldRaise(notice: Notice, covering: seq<FD.Item>) {
    notice.notify && !(covering != [] && (notice.kind == Find || notice.kind == Forged))
  }

  /** What one listed mission's transition raises. */
  predicate Raises(m: Mission, inbox: seq<Opportunity>, receipts: seq<FD.Item>, isHttp: UrlCheck, at: int)
    requires W.IsTracked(m)
  {
    ShouldRaise(NoticeOf(W.EventOf(m, at), inbox, m, isHttp), Covering(receipts, m))
  }

  /** The same receipts, each in whatever state. */
  ghost predicate SameButState(a: seq<FD.Item>, b: seq<FD.Item>) {
    && |a| == |b|
    && forall i :: 0 <= i < |a| ==> (a[i] == b[i] || (a[i].Receipt? && b[i].Receipt? && b[i] == a[i].(state := b[i].state)))
  }

  /** Reading or dismissing a receipt never uncovers a mission. */
  lemma {:induction false} CoveringIgnoresState(a: seq<FD.Item>, b: seq<FD.Item>, m: Mission)
    requires SameButState(a, b)
    ensures |Covering(a, m)| == |Covering(b, m)|
    ensures SameButState(Covering(a, m), Covering(b, m))
  {
    hide FD.IsFind, NamesEvidence, SupportedEvidence;
    if a != [] && SupportedEvidence(m) != {} {
      CoveringIgnoresState(a[1..], b[1..], m);
      CoversIgnoresState(a[0], b[0], m);
    }
  }

  lemma CoversIgnoresState(x: FD.Item, y: FD.Item, m: Mission)
    requires x == y || (x.Receipt? && y.Receipt? && y == x.(state := y.state))
    ensures Covers(m)(x) == Covers(m)(y)
  {
  }

  /** No receipt can silence the notice of a failed mission. */
  lemma FailedIsAlwaysRaised(m: Mission, inbox: seq<Opportunity>, receipts: seq<FD.Item>, isHttp: UrlCheck, at: int)
    requires W.IsTracked(m) && m.HasStatus(FAILED)
    ensures Raises(m, inbox, receipts, isHttp, at)
  {
    if SettlementCode(m) == Some(VERIFIED_WITHOUT_SUPPORT) {
      assert SupportedEvidence(m) == {};
    }
  }

  /** A completed mission is announced here exactly when it is forged and no receipt covers it. */
  lemma CompletedRaisedExactly(m: Mission, inbox: seq<Opportunity>, receipts: seq<FD.Item>, isHttp: UrlCheck, at: int)
    requires W.IsTracked(m) && m.HasStatus(COMPLETED)
    ensures Raises(m, inbox, receipts, isHttp, at) <==> m.IsForged() && Covering(receipts, m) == []
  {
  }

  lemma CoveringExactly(receipts: seq<FD.Item>, m: Mission)
    ensures Covering(receipts, m) != [] <==>
              exists item :: item in receipts && FD.IsFind(item) && NamesEvidence(item, SupportedEvidence(m))
  {
    FilterMembers(receipts, Covers(m));
    var found := Filter(receipts, Covers(m));
    if found != [] {
      assert found[0] in found;
    }
  }

  // ---------------------------------------------------------------- the tick

  datatype Raised = Raised(missionId: string, kind: Kind)

  datatype Worker = Worker(delivery: FD.State, tower: W.State, raised: seq<Raised>)

  /** What the Kernel answers during a tick; an absent list is a failed request. */
  datatype Answers = Answers(
    missions: Option<seq<Mission>>,
    opportunities: Option<seq<Opportunity>>,
    receipts: Option<seq<FD.Item>>,
    unread: Option<seq<FD.Item>>)

  function OrNone<T>(list: Option<seq<T>>): seq<T> {
    if list.Some? then list.value else []
  }

  /** `byId[transition.missionId]`: the last listed mission with that id. */
  function ById(missions: seq<Mission>, id: string): Option<Mission>
    decreases |missions|
  {
    if missions == [] then None
    else if missions[|missions| - 1].id == Field.Text(id) then Some(missions[|missions| - 1])
    else ById(missions[..|missions| - 1], id)
  }

  function Announce(e: W.Event, a: Answers, isHttp: UrlCheck): seq<Raised> {
    var found := ById(OrNone(a.missions), e.missionId);
    if found.None? then []
    else
      var notice := NoticeOf(e, OrNone(a.opportunities), found.value, isHttp);
      if ShouldRaise(notice, Covering(OrNone(a.receipts), found.value)) then [Raised(e.missionId, notice.kind)] else []
  }

  /** Notices in transition order until one cannot be created; the rest of the list is then dropped. */
  function AnnounceAll(events: seq<W.Event>, a: Answers, isHttp: UrlCheck, failsAt: Option<nat>, n: nat): seq<Raised>
    requires n <= |events|
  {
    if n == 0 then []
    else
      var before := AnnounceAll(events, a, isHttp, failsAt, n - 1);
      var next := Announce(events[n - 1], a, isHttp);
      if failsAt.Some? && |before| >= failsAt.value then before else before + next
  }

  /** The tick from its Kernel answers on; `read` is the watchtower state it read when it began. */
  function Inspect(s: Worker, read: W.State, a: Answers, trouble: FD.Trouble, noticeFailsAt: Option<nat>,
                   now: int, collate: W.Collation, isHttp: UrlCheck): Worker {
    if a.missions.None? then s
    else
      var delivery := if a.unread.Some? then FD.Deliver(s.delivery, a.unread.value, trouble) else s.delivery;
      var (tower, events) := W.Reconcile(a.missions.value, read, now, collate);
      Worker(delivery, tower, s.raised + AnnounceAll(events, a, isHttp, noticeFailsAt, |events|))
  }

  /** The service worker and the pages over one stored watchtower state. */
  class ServiceWorker {
    const courier: FD.Courier
    var tower: W.State
    var reading: Option<W.State>
    var pages: map<nat, W.State>
    var raised: seq<Raised>
    ghost var world: R.Tower

    ghost function Now(): Worker reads this, courier {
      Worker(courier.Now(), tower, raised)
    }

    /** The fields are those of the run of states that `world` records. */
    ghost predicate Valid() reads this {
      && world.stored.state == tower
      && (reading.Some? <==> world.reading.Some?) && (reading.Some? ==> world.reading.value.state == reading.value)
      && pages.Keys == world.pages.Keys && forall page :: page in pages ==> world.pages[page].state == pages[page]
    }

    constructor (inbox: seq<FD.Item>)
      ensures Now() == Worker(FD.State([], inbox, []), W.EMPTY, []) && Valid() && world == R.NEW
      ensures fresh(courier)
    {
      courier := new FD.Courier(inbox);
      tower, reading, pages, raised, world := W.EMPTY, None, map[], [], R.NEW;
    }

    method BeginTick(ghost collate: W.Collation)
      requires Valid()
      modifies this`reading, this`world
      ensures Valid() && world == R.Step(old(world), R.TickBegins, collate)
    {
      world := R.Step(world, R.TickBegins, collate);
      if reading.None? {
        reading := Some(tower);
      }
    }

    method InspectMissionTransitions(a: Answers, trouble: FD.Trouble, noticeFailsAt: Option<nat>,
                                     now: int, collate: W.Collation, isHttp: UrlCheck)
      requires Valid() && reading.Some?
      modifies this, courier
      ensures Now() == Inspect(old(Now()), old(reading).value, a, trouble, noticeFailsAt, now, collate, isHttp)
      ensures Valid() && world == R.Step(old(world), R.TickEnds(a.missions, now), collate)
    {
      hide W.Reconcile, R.HasUnread;
      world := R.Step(world, R.TickEnds(a.missions, now), collate);
      var read := reading.value;
      reading := None;
      if a.missions.None? {
        return;
      }
      if a.unread.Some? {
        var _ := courier.DeliverFinds(a.unread.value, trouble);
      }
      var state, transitions := W.ReconcileMissions(a.missions.value, read, now, collate);
      tower := state;
      RaiseNotices(transitions, a, isHttp, noticeFailsAt);
    }

    method OpenPage(page: nat, ghost collate: W.Collation)
      requires Valid()
      modifies this`pages, this`world
      ensures Valid() && world == R.Step(old(world), R.PageOpened(page), collate)
    {
      world := R.Step(world, R.PageOpened(page), collate);
      pages := pages[page := tower];
    }

    method OpenResult(page: nat, ghost collate: W.Collation)
      requires Valid() && page in pages
      modifies this`tower, this`pages, this`world
      ensures Valid() && world == R.Step(old(world), R.ResultOpened(page), collate)
    {
      world := R.Step(world, R.ResultOpened(page), collate);
      if R.HasUnread(pages[page]) {
        var read := W.MarkEventsRead(pages[page]);
        tower := read;
        pages := pages[page := read];
      }
    }

    method RaiseNotices(transitions: seq<W.Event>, a: Answers, isHttp: UrlCheck, noticeFailsAt: Option<nat>)
      modifies this`raised
      ensures raised == old(raised) + AnnounceAll(transitions, a, isHttp, noticeFailsAt, |transitions|)
    {
      hide Announce;
      var created := 0;
      for i := 0 to |transitions|
        invariant created == |AnnounceAll(transitions, a, isHttp, noticeFailsAt, i)|
        invariant raised == old(raised) + AnnounceAll(transitions, a, isHttp, noticeFailsAt, i)
      {
        var notices := Announce(transitions[i], a, isHttp);
        if noticeFailsAt.None? || created < noticeFailsAt.value {
          raised := raised + notices;
          created := created + |notices|;
        }
      }
    }
  }

  // ---------------------------------------------------------------- what a tick announces

  lemma {:induction false} ByIdFinds(missions: seq<Mission>, m: Mission)
    requires m in missions && m.id.Text?
    requires forall n :: n in missions && n.id == m.id ==> n == m
    ensures ById(missions, m.id.s) == Some(m)
    decreases |missions|
  {
    var n := |missions| - 1;
    assert missions == missions[..n] + [missions[n]];
    if missions[n].id != m.id {
      ByIdFinds(missions[..n], m);
    }
  }

  lemma {:induction false} AnnouncedExactly(events: seq<W.Event>, a: Answers, isHttp: UrlCheck, n: nat)
    requires n <= |events|
    ensures forall r :: r in AnnounceAll(events, a, isHttp, None, n)
                        <==> exists i :: 0 <= i < n && r in Announce(events[i], a, isHttp)
  {
    hide Announce;
    if n > 0 {
      AnnouncedExactly(events, a, isHttp, n - 1);
    }
  }

  /** One mission's transition announces it exactly when the covering rule lets it through. */
  lemma AnnounceOne(m: Mission, a: Answers, isHttp: UrlCheck, now: int)
    requires a.missions.Some? && m in a.missions.value && W.IsTracked(m)
    requires forall n :: n in a.missions.value && n.id == m.id ==> n == m
    ensures Announce(W.EventOf(m, now), a, isHttp)
         == if Raises(m, OrNone(a.opportunities), OrNone(a.receipts), isHttp, now)
            then [Raised(m.id.s, NoticeOf(W.EventOf(m, now), OrNone(a.opportunities), m, isHttp).kind)] else []
  {
    ByIdFinds(a.missions.value, m);
  }

  lemma NewestAreUnique(missions: seq<Mission>, collate: W.Collation, m: Mission)
    requires DistinctIds(missions) && AmongNewest(missions, collate, m)
    ensures m in missions && forall n :: n in missions && n.id == m.id ==> n == m
  {
    FilterMembers(missions, W.IsTracked);
    assert m in W.Tracked(missions);
  }

  lemma {:induction false} TrackedDistinct(missions: seq<Mission>)
    requires DistinctIds(missions)
    ensures DistinctIds(W.Tracked(missions))
  {
    if missions != [] {
      TrackedDistinct(missions[1..]);
      FilterMembers(missions[1..], W.IsTracked);
      var rest := W.Tracked(missions[1..]);
      forall i | 0 <= i < |rest| ensures rest[i].id != missions[0].id {
        assert rest[i] in rest;
        var k :| 0 <= k < |missions[1..]| && missions[1..][k] == rest[i];
        assert missions[k + 1] == rest[i];
      }
    }
  }

  /**
   In every run of ticks, pages and marks, what is due in a tick is exactly the missions newly terminal
   since the list behind the state it read that the covering rule lets through; it is announced up to the
   first create that fails.
   */
  lemma TickAnnouncesExactly(ops: seq<R.Op>, a: Answers, failsAt: Option<nat>, now: int, collate: W.Collation, isHttp: UrlCheck, r: Raised)
    requires a.missions.Some? && DistinctIds(a.missions.value)
    requires var w := R.Run(ops, collate);
             w.reading.Some? && w.reading.value.list.Some? && DistinctIds(w.reading.value.list.value)
    ensures var read := R.Run(ops, collate).reading.value;
            var events := W.Reconcile(a.missions.value, read.state, now, collate).1;
            var due := AnnounceAll(events, a, isHttp, None, |events|);
            && AnnounceAll(events, a, isHttp, failsAt, |events|) == Limited(due, failsAt)
            && (r in due <==>
                  exists m :: NewlyTerminal(read.list.value, a.missions.value, collate, m)
                    && Raises(m, OrNone(a.opportunities), OrNone(a.receipts), isHttp, now)
                    && r == Raised(m.id.s, NoticeOf(W.EventOf(m, now), OrNone(a.opportunities), m, isHttp).kind))
  {
    hide NoticeOf, Raises, W.Reconcile, W.EventOf;
    var after := a.missions.value;
    var before := R.Run(ops, collate).reading.value.list.value;
    var events := W.Reconcile(after, R.Run(ops, collate).reading.value.state, now, collate).1;
    TrackedDistinct(after);
    TrackedDistinct(before);
    R.ReportsSinceListRead(ops, after, now, collate);
    AnnouncedExactly(events, a, isHttp, |events|);
    AnnouncedUntilFailure(events, a, isHttp, failsAt, |events|);
    forall m | NewlyTerminal(before, after, collate, m)
      ensures r in Announce(W.EventOf(m, now), a, isHttp) <==>
                Raises(m, OrNone(a.opportunities), OrNone(a.receipts), isHttp, now)
                && r == Raised(m.id.s, NoticeOf(W.EventOf(m, now), OrNone(a.opportunities), m, isHttp).kind)
    {
      NewestAreUnique(after, collate, m);
      AnnounceOne(m, a, isHttp, now);
    }
    if r in AnnounceAll(events, a, isHttp, None, |events|) {
      var i :| 0 <= i < |events| && r in Announce(events[i], a, isHttp);
      assert events[i] in events;
      var m :| NewlyTerminal(before, after, collate, m) && events[i] == W.EventOf(m, now);
    }
    forall m | NewlyTerminal(before, after, collate, m) && r in Announce(W.EventOf(m, now), a, isHttp)
      ensures r in AnnounceAll(events, a, isHttp, None, |events|)
    {
      var i :| 0 <= i < |events| && events[i] == W.EventOf(m, now);
    }
  }

  // ---------------------------------------------------------------- notices that cannot be created

  function Limited(all: seq<Raised>, failsAt: Option<nat>): seq<Raised> {
    if failsAt.Some? then Take(all, failsAt.value) else all
  }

  /** When the k-th create fails, exactly the first k of the notices are raised. */
  lemma {:induction false} AnnouncedUntilFailure(events: seq<W.Event>, a: Answers, isHttp: UrlCheck, failsAt: Option<nat>, n: nat)
    requires n <= |events|
    ensures AnnounceAll(events, a, isHttp, failsAt, n) == Limited(AnnounceAll(events, a, isHttp, None, n), failsAt)
  {
    hide Announce;
    if n > 0 {
      AnnouncedUntilFailure(events, a, isHttp, failsAt, n - 1);
      OneNotice(events[n - 1], a, isHttp);
      LimitedGrows(AnnounceAll(events, a, isHttp, None, n - 1), Announce(events[n - 1], a, isHttp), failsAt);
    }
  }

  lemma LimitedGrows(all: seq<Raised>, next: seq<Raised>, failsAt: Option<nat>)
    requires |next| <= 1
    ensures var before := Limited(all, failsAt);
            Limited(all + next, failsAt) == if failsAt.Some? && |before| >= failsAt.value then before else before + next
  {
  }

  lemma OneNotice(e: W.Event, a: Answers, isHttp: UrlCheck)
    ensures |Announce(e, a, isHttp)| <= 1
  {
  }

  /** The notices of a tick in which every create succeeds. */
  function Due(read: W.State, a: Answers, now: int, collate: W.Collation, isHttp: UrlCheck): seq<Raised> {
    if a.missions.None? then []
    else
      var events := W.Reconcile(a.missions.value, read, now, collate).1;
      AnnounceAll(events, a, isHttp, None, |events|)
  }

  /** A tick raises what is due up to the first create that fails, and so all of it exactly when none of them does. */
  lemma RaisedExactly(s: Worker, read: W.State, a: Answers, trouble: FD.Trouble, failsAt: Option<nat>, now: int,
                      collate: W.Collation, isHttp: UrlCheck)
    ensures var due, after := Due(read, a, now, collate, isHttp), Inspect(s, read, a, trouble, failsAt, now, collate, isHttp);
            && after.raised == s.raised + Limited(due, failsAt)
            && (after.raised == s.raised + due <==> failsAt.None? || failsAt.value >= |due|)
  {
    hide W.Reconcile, AnnounceAll;
    if a.missions.Some? {
      var events := W.Reconcile(a.missions.value, read, now, collate).1;
      AnnouncedUntilFailure(events, a, isHttp, failsAt, |events|);
    }
    var due := Due(read, a, now, collate, isHttp);
    if failsAt.Some? && failsAt.value < |due| {
      assert |s.raised + Limited(due, failsAt)| < |s.raised + due|;
    }
  }

  /** A later tick, reading the state stored before it. */
  datatype Repeat = Repeat(a: Answers, trouble: FD.Trouble, failsAt: Option<nat>, now: int)

  function Repeated(s: Worker, repeats: seq<Repeat>, collate: W.Collation, isHttp: UrlCheck): Worker
    decreases |repeats|
  {
    if repeats == [] then s
    else
      var last := repeats[|repeats| - 1];
      var before := Repeated(s, repeats[..|repeats| - 1], collate, isHttp);
      Inspect(before, before.tower, last.a, last.trouble, last.failsAt, last.now, collate, isHttp)
  }

  ghost predicate SameMissions(repeats: seq<Repeat>, missions: seq<Mission>) {
    forall i :: 0 <= i < |repeats| ==> repeats[i].a.missions.None? || repeats[i].a.missions.value == missions
  }

  /**
   The state is stored before notices are created. So the notices lost to a failing create are exactly
   those after the first k, and no repeats of the snapshot, with whatever lists and troubles, raise them.
   */
  lemma LostNoticesStayLost(s: Worker, a: Answers, trouble: FD.Trouble, failsAt: Option<nat>, now: int,
                            repeats: seq<Repeat>, collate: W.Collation, isHttp: UrlCheck)
    requires a.missions.Some? && DistinctIds(a.missions.value) && PlainTimes(a.missions.value)
    requires GoodLedger(s.tower.events) && SameMissions(repeats, a.missions.value)
    ensures var once := Inspect(s, s.tower, a, trouble, failsAt, now, collate, isHttp);
            Repeated(once, repeats, collate, isHttp).raised
            == s.raised + Limited(Due(s.tower, a, now, collate, isHttp), failsAt)
  {
    var missions := a.missions.value;
    TrackedDistinct(missions);
    ReconcileKeepsLedger(missions, s.tower, now, collate);
    RaisedExactly(s, s.tower, a, trouble, failsAt, now, collate, isHttp);
    var once := Inspect(s, s.tower, a, trouble, failsAt, now, collate, isHttp);
    assert once.tower == W.Reconcile(missions, s.tower, now, collate).0;
    RepeatsRaiseNothing(once, s.tower, missions, now, repeats, collate, isHttp);
  }

  lemma {:induction false} RepeatsRaiseNothing(once: Worker, before: W.State, missions: seq<Mission>, now: int,
                                               repeats: seq<Repeat>, collate: W.Collation, isHttp: UrlCheck)
    requires DistinctIds(W.Tracked(missions)) && SameMissions(repeats, missions)
    requires once.tower == W.Reconcile(missions, before, now, collate).0 && GoodLedger(once.tower.events)
    ensures var s := Repeated(once, repeats, collate, isHttp); s.raised == once.raised && s.tower == once.tower
    decreases |repeats|
  {
    hide W.Reconcile, FD.Deliver;
    if repeats != [] {
      var last := repeats[|repeats| - 1];
      RepeatsRaiseNothing(once, before, missions, now, repeats[..|repeats| - 1], collate, isHttp);
      RepeatChangesNothing(missions, before, now, last.now, collate);
      var s := Repeated(once, repeats[..|repeats| - 1], collate, isHttp);
      RaisedExactly(s, s.tower, last.a, last.trouble, last.failsAt, last.now, collate, isHttp);
      assert s.raised + [] == s.raised;
    }
  }

  // ---------------------------------------------------------------- lost while the mission stays as it is

  /** Wherever this mission is looked at in the list, it has this revision. */
  ghost predicate HoldsRevision(missions: seq<Mission>, id: string, revision: string, collate: W.Collation) {
    forall m :: m in W.Newest(missions, collate) && m.id == Field.Text(id) ==> W.IsTracked(m) && W.Revision(m) == revision
  }

  ghost predicate AllHold(repeats: seq<Repeat>, id: string, revision: string, collate: W.Collation) {
    forall i :: 0 <= i < |repeats| && repeats[i].a.missions.Some? ==>
      HoldsRevision(repeats[i].a.missions.value, id, revision, collate)
  }

  predicate KnowsOnly(known: map<string, string>, id: string, revision: string) {
    id in known ==> known[id] == revision
  }

  lemma {:induction false} RevisionsHold(missions: seq<Mission>, id: string, revision: string)
    requires forall i :: 0 <= i < |missions| ==> W.IsTracked(missions[i])
    requires forall m :: m in missions && m.id == Field.Text(id) ==> W.Revision(m) == revision
    ensures KnowsOnly(W.Revisions(missions), id, revision)
  {
    hide W.Revision;
    if missions != [] {
      var n := |missions| - 1;
      assert missions == missions[..n] + [missions[n]];
      RevisionsHold(missions[..n], id, revision);
      assert missions[n] in missions;
    }
  }

  lemma {:induction false} TransitionsSpare(missions: seq<Mission>, known: map<string, string>, now: int, id: string, revision: string)
    requires forall i :: 0 <= i < |missions| ==> W.IsTracked(missions[i])
    requires forall m :: m in missions && m.id == Field.Text(id) ==> W.Revision(m) == revision
    requires KnowsOnly(known, id, revision)
    ensures forall e :: e in W.Transitions(missions, known, now) ==> e.missionId != id
  {
    hide W.Revision;
    if missions != [] {
      var n := |missions| - 1;
      assert missions == missions[..n] + [missions[n]];
      TransitionsSpare(missions[..n], known, now, id, revision);
      assert missions[n] in missions;
    }
  }

  lemma {:induction false} AnnouncesOnlyEvents(events: seq<W.Event>, a: Answers, isHttp: UrlCheck, failsAt: Option<nat>, n: nat, id: string)
    requires n <= |events| && forall e :: e in events ==> e.missionId != id
    ensures forall r :: r in AnnounceAll(events, a, isHttp, failsAt, n) ==> r.missionId != id
  {
    hide NoticeOf, ShouldRaise, Covering;
    if n > 0 {
      AnnouncesOnlyEvents(events, a, isHttp, failsAt, n - 1, id);
      assert events[n - 1] in events;
    }
  }

  ghost predicate SparesFrom(raised: seq<Raised>, n: nat, id: string) {
    n <= |raised| && forall i :: n <= i < |raised| ==> raised[i].missionId != id
  }

  lemma TickSpares(s: Worker, t: Repeat, n: nat, id: string, revision: string, collate: W.Collation, isHttp: UrlCheck)
    requires KnowsOnly(s.tower.known, id, revision) && SparesFrom(s.raised, n, id)
    requires t.a.missions.Some? ==> HoldsRevision(t.a.missions.value, id, revision, collate)
    ensures var v := Inspect(s, s.tower, t.a, t.trouble, t.failsAt, t.now, collate, isHttp);
            KnowsOnly(v.tower.known, id, revision) && SparesFrom(v.raised, n, id) && s.raised <= v.raised
  {
    hide W.Revision, W.Ledger, AnnounceAll, W.Newest, W.Transitions, W.Revisions, FD.Deliver;
    if t.a.missions.Some? {
      var newest := W.Newest(t.a.missions.value, collate);
      var (tower, events) := W.Reconcile(t.a.missions.value, s.tower, t.now, collate);
      RevisionsHold(newest, id, revision);
      TransitionsSpare(newest, s.tower.known, t.now, id, revision);
      AnnouncesOnlyEvents(events, t.a, isHttp, t.failsAt, |events|, id);
      var more := AnnounceAll(events, t.a, isHttp, t.failsAt, |events|);
      forall i | n <= i < |s.raised + more| ensures (s.raised + more)[i].missionId != id {
        if i >= |s.raised| {
          assert (s.raised + more)[i] in more;
        }
      }
    }
  }

  /**
   A mission stays unannounced through all later ticks, whatever else their lists hold and whatever goes
   wrong in them, for as long as it has the revision it had when its notice was lost.
   */
  lemma {:induction false} LostWhileUnchanged(once: Worker, repeats: seq<Repeat>, id: string, revision: string,
                                              collate: W.Collation, isHttp: UrlCheck)
    requires KnowsOnly(once.tower.known, id, revision) && AllHold(repeats, id, revision, collate)
    ensures var v := Repeated(once, repeats, collate, isHttp);
            KnowsOnly(v.tower.known, id, revision) && SparesFrom(v.raised, |once.raised|, id) && once.raised <= v.raised
    decreases |repeats|
  {
    hide Inspect, HoldsRevision, KnowsOnly, SparesFrom;
    if repeats == [] {
      NothingSpared(once.raised, id);
    } else {
      var before := Repeated(once, repeats[..|repeats| - 1], collate, isHttp);
      LostWhileUnchanged(once, repeats[..|repeats| - 1], id, revision, collate, isHttp);
      TickSpares(before, repeats[|repeats| - 1], |once.raised|, id, revision, collate, isHttp);
    }
  }

  lemma NothingSpared(raised: seq<Raised>, id: string)
    ensures SparesFrom(raised, |raised|, id)
  {
  }

  // ---------------------------------------------------------------- announced again

  lemma {:induction false} SameNoticesLater(events: seq<W.Event>, a: Answers, isHttp: UrlCheck, failsAt: Option<nat>, n: nat, later: int)
    requires n <= |events|
    ensures AnnounceAll(R.Retimed(events, later), a, isHttp, failsAt, n) == AnnounceAll(events, a, isHttp, failsAt, n)
  {
    hide Announce;
    if n > 0 {
      SameNoticesLater(events, a, isHttp, failsAt, n - 1, later);
      SameNotice(events[n - 1], a, isHttp, later);
    }
  }

  lemma SameNotice(e: W.Event, a: Answers, isHttp: UrlCheck, later: int)
    ensures Announce(e.(observedAt := later), a, isHttp) == Announce(e, a, isHttp)
  {
    hide Covering, FindCount, SettlementCode;
  }

  /**
   A result opened on a page that was opened before the tick writes the older state back. The next tick
   on the same answers then raises again all that was due in the first one, so nothing exactly when
   nothing was.
   */
  lemma AnnouncedAgainExactly(s: Worker, a: Answers, trouble: FD.Trouble, failsAt: Option<nat>, now: int,
                              again: FD.Trouble, later: int, collate: W.Collation, isHttp: UrlCheck)
    ensures var once := Inspect(s, s.tower, a, trouble, failsAt, now, collate, isHttp);
            var marked := once.(tower := W.MarkEventsRead(s.tower));
            Inspect(marked, marked.tower, a, again, None, later, collate, isHttp).raised
            == once.raised + Due(s.tower, a, now, collate, isHttp)
  {
    hide AnnounceAll, W.Ledger, W.Newest, W.Transitions, W.Revisions, FD.Deliver;
    if a.missions.Some? {
      var newest := W.Newest(a.missions.value, collate);
      var first := W.Reconcile(a.missions.value, s.tower, now, collate).1;
      R.SameTransitionsLater(newest, s.tower.known, now, later);
      SameNoticesLater(first, a, isHttp, None, |first|, later);
      assert W.Reconcile(a.missions.value, W.MarkEventsRead(s.tower), later, collate).1 == R.Retimed(first, later);
    }
    var once := Inspect(s, s.tower, a, trouble, failsAt, now, collate, isHttp);
    assert once.raised + [] == once.raised;
  }
}
