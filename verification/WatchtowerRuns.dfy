/**
 Runs of the watchtower's stored state. A tick reads it, awaits the Kernel and stores a new one; a page
 reads it when it opens and, when its result is opened, writes back that copy with the events read.
 */
module WatchtowerRuns {
  import opened Text
  import opened Ordering
  import opened Windows
  import opened Missions
  import opened Watchtower
  import opened WatchtowerExactness

  /** A state, the mission list whose revisions it holds, and the number of the tick that stored that list. */
  datatype Copy = Copy(state: State, list: Option<seq<Mission>>, tick: nat)

  /** What is stored, what the tick under way and each open page have read, and how many ticks have stored. */
  datatype Tower = Tower(stored: Copy, reading: Option<Copy>, pages: map<nat, Copy>, ticks: nat)

  const NEW := Tower(Copy(EMPTY, None, 0), None, map[], 0)

  datatype Op =
    | TickBegins
    | TickEnds(missions: Option<seq<Mission>>, now: int)
    | PageOpened(page: nat)
    | ResultOpened(page: nat)

  predicate HasUnread(s: State) {
    exists e :: e in s.events && e.unread
  }

  function AsRead(c: Copy): Copy {
    c.(state := MarkEventsRead(c.state))
  }

  function Step(w: Tower, op: Op, collate: Collation): Tower {
    match op
    case TickBegins => if w.reading.Some? then w else w.(reading := Some(w.stored))
    case TickEnds(missions, now) =>
      if w.reading.None? || missions.None? then w.(reading := None)
      else
        var next := Reconcile(missions.value, w.reading.value.state, now, collate).0;
        Tower(Copy(next, missions, w.ticks + 1), None, w.pages, w.ticks + 1)
    case PageOpened(page) => w.(pages := w.pages[page := w.stored])
    case ResultOpened(page) =>
      if page !in w.pages || !HasUnread(w.pages[page].state) then w
      else w.(stored := AsRead(w.pages[page]), pages := w.pages[page := AsRead(w.pages[page])])
  }

  /** A tick whose mission request failed is over and has stored nothing; the next one reads anew. */
  lemma FailedTickStoresNothing(w: Tower, now: int, collate: Collation)
    ensures var v := Step(w, TickEnds(None, now), collate);
            && v.stored == w.stored && v.pages == w.pages && v.ticks == w.ticks && v.reading == None
            && Step(v, TickBegins, collate).reading == Some(w.stored)
  {
  }

  function Run(ops: seq<Op>, collate: Collation): Tower
    decreases |ops|
  {
    if ops == [] then NEW else Step(Run(ops[..|ops| - 1], collate), ops[|ops| - 1], collate)
  }

  lemma RunOne(ops: seq<Op>, op: Op, collate: Collation)
    ensures Run(ops + [op], collate) == Step(Run(ops, collate), op, collate)
  {
    assert (ops + [op])[..|ops|] == ops;
  }

  /** The list of the latest tick that stored one. */
  function Latest(ops: seq<Op>, collate: Collation): Option<seq<Mission>>
    decreases |ops|
  {
    if ops == [] then None
    else
      var before, op := ops[..|ops| - 1], ops[|ops| - 1];
      if op.TickEnds? && op.missions.Some? && Run(before, collate).reading.Some? then op.missions
      else Latest(before, collate)
  }

  // ---------------------------------------------------------------- what every copy knows

  ghost predicate Knows(c: Copy, latest: Option<seq<Mission>>, ticks: nat, collate: Collation) {
    && (match c.list
        case None => !c.state.initialized && c.state.known == map[]
        case Some(missions) => c.state.initialized && c.state.known == Revisions(Newest(missions, collate)))
    && c.tick <= ticks
    && (c.tick == ticks ==> c.list == latest)
  }

  ghost predicate AllKnow(w: Tower, latest: Option<seq<Mission>>, collate: Collation) {
    && Knows(w.stored, latest, w.ticks, collate)
    && (w.reading.Some? ==> Knows(w.reading.value, latest, w.ticks, collate))
    && (forall page :: page in w.pages ==> Knows(w.pages[page], latest, w.ticks, collate))
  }

  lemma {:induction false} RunKnows(ops: seq<Op>, collate: Collation)
    ensures AllKnow(Run(ops, collate), Latest(ops, collate), collate)
    decreases |ops|
  {
    hide Revisions, Newest, Ledger, HasUnread;
    if ops != [] {
      RunKnows(ops[..|ops| - 1], collate);
    }
  }

  /** The first tick of a run to end reports nothing. */
  lemma FirstReportsNothing(ops: seq<Op>, after: seq<Mission>, now: int, collate: Collation)
    requires Run(ops, collate).reading.Some? && Run(ops, collate).reading.value.list.None?
    ensures Reconcile(after, Run(ops, collate).reading.value.state, now, collate).1 == []
  {
    RunKnows(ops, collate);
  }

  /** The events are those of the missions newly terminal from one list to the other, each once. */
  ghost predicate AreTransitions(reported: seq<Event>, before: seq<Mission>, after: seq<Mission>, now: int, collate: Collation) {
    && (forall m :: NewlyTerminal(before, after, collate, m) ==> EventOf(m, now) in reported)
    && (forall e :: e in reported ==> exists m :: NewlyTerminal(before, after, collate, m) && e == EventOf(m, now))
    && forall i, j :: 0 <= i < j < |reported| ==> reported[i].missionId != reported[j].missionId
  }

  /**
   In every run, with pages open and marks written as they may, a tick reports exactly the missions
   newly terminal since the list that the state it read had been made from.
   */
  lemma ReportsSinceListRead(ops: seq<Op>, after: seq<Mission>, now: int, collate: Collation)
    requires Run(ops, collate).reading.Some? && Run(ops, collate).reading.value.list.Some?
    requires DistinctIds(Tracked(after)) && DistinctIds(Tracked(Run(ops, collate).reading.value.list.value))
    ensures var read := Run(ops, collate).reading.value;
            AreTransitions(Reconcile(after, read.state, now, collate).1, read.list.value, after, now, collate)
  {
    hide Reconcile, Newest, NewlyTerminal, DistinctIds;
    RunKnows(ops, collate);
    var read := Run(ops, collate).reading.value;
    ReportsTransitions(after, read.state, now, collate);
    ReportedExactly(read.list.value, after, collate, now);
    assert Knows(read, Latest(ops, collate), Run(ops, collate).ticks, collate);
    var reported := Reconcile(after, read.state, now, collate).1;
    assert reported == Transitions(Newest(after, collate), Revisions(Newest(read.list.value, collate)), now);
  }

  predicate ReadsCurrent(w: Tower) {
    w.reading.Some? && w.reading.value.tick == w.ticks
  }

  /** Reading a current state, a tick reports exactly the missions newly terminal since the latest list. */
  lemma RunReportsExactly(ops: seq<Op>, after: seq<Mission>, now: int, collate: Collation)
    requires ReadsCurrent(Run(ops, collate)) && Latest(ops, collate).Some?
    requires DistinctIds(Tracked(after)) && DistinctIds(Tracked(Latest(ops, collate).value))
    ensures AreTransitions(Reconcile(after, Run(ops, collate).reading.value.state, now, collate).1,
                           Latest(ops, collate).value, after, now, collate)
  {
    hide Reconcile, AreTransitions, DistinctIds;
    RunKnows(ops, collate);
    ReportsSinceListRead(ops, after, now, collate);
  }

  // ---------------------------------------------------------------- when the state is current

  lemma {:induction false} PageKeepsTick(a: seq<Op>, b: seq<Op>, page: nat, collate: Collation)
    requires page in Run(a, collate).pages && PageOpened(page) !in b
    ensures page in Run(a + b, collate).pages
    ensures Run(a + b, collate).pages[page].tick == Run(a, collate).pages[page].tick
    ensures Run(a + b, collate).ticks >= Run(a, collate).ticks
    decreases |b|
  {
    hide HasUnread, MarkEventsRead;
    if b == [] {
      assert a + b == a;
    } else {
      var op := b[|b| - 1];
      assert op in b && a + b == a + b[..|b| - 1] + [op];
      PageKeepsTick(a, b[..|b| - 1], page, collate);
      hide Step;
      RunOne(a + b[..|b| - 1], op, collate);
      StepKeepsTick(Run(a + b[..|b| - 1], collate), op, page, collate);
    }
  }

  lemma StepKeepsTick(w: Tower, op: Op, page: nat, collate: Collation)
    requires page in w.pages && op != PageOpened(page)
    ensures var v := Step(w, op, collate);
            page in v.pages && v.pages[page].tick == w.pages[page].tick && v.ticks >= w.ticks
  {
    hide HasUnread, MarkEventsRead, Reconcile;
  }

  /**
   Opening a page's result makes the stored state the one captured when the page was opened; so it is
   current exactly when no tick has stored a list since the one that made the captured state.
   */
  lemma MarkKeepsCurrentExactly(a: seq<Op>, page: nat, b: seq<Op>, collate: Collation)
    requires PageOpened(page) !in b
    requires var w := Run(a + [PageOpened(page)] + b, collate); page in w.pages ==> HasUnread(w.pages[page].state)
    ensures var w, v := Run(a + [PageOpened(page)] + b, collate), Run(a + [PageOpened(page)] + b + [ResultOpened(page)], collate);
            v.stored.tick == v.ticks <==> w.ticks == Run(a, collate).stored.tick
  {
    hide HasUnread, MarkEventsRead;
    RunOne(a, PageOpened(page), collate);
    PageKeepsTick(a + [PageOpened(page)], b, page, collate);
    RunOne(a + [PageOpened(page)] + b, ResultOpened(page), collate);
  }

  /** Apart from such marks the stored state is always current: a tick makes it so, and nothing else changes it. */
  lemma OnlyMarksAge(w: Tower, op: Op, collate: Collation)
    requires w.stored.tick == w.ticks && !op.ResultOpened?
    ensures Step(w, op, collate).stored.tick == Step(w, op, collate).ticks
  {
  }

  /** A mark written while a tick is under way leaves no trace in what that tick stores. */
  lemma MarkUnderTickIsLost(w: Tower, page: nat, missions: seq<Mission>, now: int, collate: Collation)
    requires w.reading.Some?
    ensures Step(Step(w, ResultOpened(page), collate), TickEnds(Some(missions), now), collate).stored
         == Step(w, TickEnds(Some(missions), now), collate).stored
  {
    hide HasUnread, Reconcile;
  }

  // ---------------------------------------------------------------- reported again

  function Retimed(events: seq<Event>, now: int): seq<Event> {
    seq(|events|, i requires 0 <= i < |events| => events[i].(observedAt := now))
  }

  lemma {:induction false} SameTransitionsLater(missions: seq<Mission>, known: map<string, string>, now: int, later: int)
    requires forall i :: 0 <= i < |missions| ==> IsTracked(missions[i])
    ensures Transitions(missions, known, later) == Retimed(Transitions(missions, known, now), later)
  {
    hide Changed, Revision, TerminalTimestamp, SettlementCode;
    if missions != [] {
      SameTransitionsLater(missions[..|missions| - 1], known, now, later);
    }
  }

  /**
   The run that reports twice: a page is opened, a tick stores a list, the page's result is opened, and
   the next tick reads the same list. It reports again exactly what the first one reported, so nothing
   exactly when that was nothing; and the first tick's entries are gone from the ledger it read.
   */
  lemma ReportsAgainExactly(w: Tower, page: nat, missions: seq<Mission>, now: int, later: int, collate: Collation)
    requires w.reading.None? && w.stored.state.initialized && HasUnread(w.stored.state)
    ensures var started := Step(Step(w, PageOpened(page), collate), TickBegins, collate);
            var ticked := Step(started, TickEnds(Some(missions), now), collate);
            var v := Step(Step(ticked, ResultOpened(page), collate), TickBegins, collate);
            var first, second := Reconcile(missions, w.stored.state, now, collate).1,
                                 if v.reading.Some? then Reconcile(missions, v.reading.value.state, later, collate).1 else [];
            && v.reading.Some?
            && second == Retimed(first, later)
            && (second == [] <==> first == [])
            && v.reading.value.state.events == ReadEvents(w.stored.state.events)
  {
    hide HasUnread, Newest, Transitions, Revisions, Ledger, ReadEvents;
    SameTransitionsLater(Newest(missions, collate), w.stored.state.known, now, later);
  }

  lemma StoresOne(m: Mission, s: State, now: int, collate: Collation)
    requires IsTracked(m) && m.id.s != "" && s.initialized && s.events == [] && Changed(m, s.known)
    ensures var next := Reconcile([m], s, now, collate).0;
            next.initialized && next.known == map[m.id.s := Revision(m)] && HasUnread(next)
  {
    OneMission(m, s, now, collate);
    KnowsOne(m, collate);
    hide Changed, Revision, Newest, Revisions, Transitions, TerminalTimestamp, SettlementCode;
    var e := EventOf(m, now);
    assert NotIn(EventIds([]))(e) && IsLedgerEvent(e) by { EventIsKept(m, now, s.known); }
    FilterAll([e], NotIn(EventIds([])));
    assert [e] + [] == [e];
    FilterAll([e], IsLedgerEvent);
    assert Reconcile([m], s, now, collate).0.events == [e];
    assert e in [e] && e.unread;
  }

  lemma EventIsKept(m: Mission, now: int, known: map<string, string>)
    requires IsTracked(m) && m.id.s != "" && Changed(m, known)
    ensures IsLedgerEvent(EventOf(m, now))
  {
    hide Revision, TerminalTimestamp, SettlementCode;
  }

  lemma KnowsOne(m: Mission, collate: Collation)
    requires IsTracked(m)
    ensures Revisions(Newest([m], collate)) == map[m.id.s := Revision(m)]
  {
    hide Revision;
    assert [m][..0] == [] && [m][1..] == [];
    assert Filter([], IsTracked) == [];
    assert Tracked([m]) == [m];
    assert Sort([], NewestFirst(collate)) == [];
    assert Newest([m], collate) == [m];
    assert Revisions([]) == map[];
  }

  /** Two ticks over one mission, that ran and then failed; the failure is reported and still unread. */
  lemma FailureReported(collate: Collation)
    ensures var ops := [TickBegins, TickEnds(Some([Sample("m", "running")]), 1),
                        TickBegins, TickEnds(Some([Sample("m", FAILED)]), 2)];
            var w := Run(ops, collate);
            && w.reading.None? && w.stored.state.initialized && HasUnread(w.stored.state)
            && w.stored.state.known == map["m" := Revision(Sample("m", FAILED))]
  {
    hide Reconcile, Revision, HasUnread, Sample, Changed;
    var m1, m2 := Sample("m", "running"), Sample("m", FAILED);
    SampleIs("m", "running");
    SampleIs("m", FAILED);
    RunningIsNotFailed("m");
    FirstStored(m1, 1, collate);
    StoresOne(m2, Reconcile([m1], EMPTY, 1, collate).0, 2, collate);
    TwoTicks([m1], 1, [m2], 2, collate);
  }

  lemma SampleIs(id: string, status: string)
    ensures IsTracked(Sample(id, status)) && Sample(id, status).id.s == id
  {
  }

  lemma TwoTicks(first: seq<Mission>, now: int, second: seq<Mission>, later: int, collate: Collation)
    ensures var ops := [TickBegins, TickEnds(Some(first), now), TickBegins, TickEnds(Some(second), later)];
            var w := Run(ops, collate);
            w.reading.None?
            && w.stored.state == Reconcile(second, Reconcile(first, EMPTY, now, collate).0, later, collate).0
  {
    hide Reconcile, HasUnread;
    var a, b := TickEnds(Some(first), now), TickEnds(Some(second), later);
    RunOne([], TickBegins, collate);
    RunOne([TickBegins], a, collate);
    RunOne([TickBegins, a], TickBegins, collate);
    RunOne([TickBegins, a, TickBegins], b, collate);
    assert [] + [TickBegins] == [TickBegins] && [TickBegins] + [a] == [TickBegins, a];
    assert [TickBegins, a] + [TickBegins] == [TickBegins, a, TickBegins];
    assert [TickBegins, a, TickBegins] + [b] == [TickBegins, a, TickBegins, b];
  }

  lemma RunningIsNotFailed(id: string)
    ensures Revision(Sample(id, FAILED)) != Revision(Sample(id, "running"))
    ensures Changed(Sample(id, FAILED), map[id := Revision(Sample(id, "running"))])
  {
    assert Revision(Sample(id, "running"))[0] == 'r' && Revision(Sample(id, FAILED))[0] == 'f';
  }

  lemma FirstStored(m: Mission, now: int, collate: Collation)
    requires IsTracked(m)
    ensures var s := Reconcile([m], EMPTY, now, collate).0;
            s.initialized && s.known == map[m.id.s := Revision(m)] && s.events == []
  {
    KnowsOne(m, collate);
    hide Newest, Revisions, Revision;
    var none: seq<Event> := [];
    assert none + none == none && Filter(none, NotIn(EventIds(none))) == none && Filter(none, IsLedgerEvent) == none;
  }

  /**
   A whole run from the empty state: a mission runs and fails; the page is opened; it completes and this is
   reported; the page's result is opened; and the next tick reports the same completion again.
   */
  lemma CompletionReportedTwice(collate: Collation)
    ensures var done, page := Sample("m", COMPLETED), 0;
            var ops := [TickBegins, TickEnds(Some([Sample("m", "running")]), 1),
                        TickBegins, TickEnds(Some([Sample("m", FAILED)]), 2)];
            var w := Run(ops, collate);
            var ticked := Step(Step(Step(w, PageOpened(page), collate), TickBegins, collate), TickEnds(Some([done]), 3), collate);
            var v := Step(Step(ticked, ResultOpened(page), collate), TickBegins, collate);
            && Reconcile([done], w.stored.state, 3, collate).1 == [EventOf(done, 3)]
            && v.reading.Some? && Reconcile([done], v.reading.value.state, 4, collate).1 == [EventOf(done, 4)]
  {
    var done := Sample("m", COMPLETED);
    var w := Run([TickBegins, TickEnds(Some([Sample("m", "running")]), 1),
                  TickBegins, TickEnds(Some([Sample("m", FAILED)]), 2)], collate);
    FailureReported(collate);
    assert Revision(done)[0] == 'c' && Revision(Sample("m", FAILED))[0] == 'f';
    OneMission(done, w.stored.state, 3, collate);
    hide Reconcile, Run, HasUnread, Revision;
    ReportsAgainExactly(w, 0, [done], 3, 4, collate);
    assert Retimed([EventOf(done, 3)], 4) == [EventOf(done, 4)];
  }

  // ---------------------------------------------------------------- when an older state reports the same

  /** Some terminal mission with this id has this revision. */
  ghost predicate IsTerminalRevision(id: string, revision: string) {
    exists m :: IsTracked(m) && m.id == Field.Text(id) && IsTerminal(m.status.s) && Revision(m) == revision
  }

  ghost predicate AlikeFor(a: map<string, string>, b: map<string, string>, id: string) {
    && (id in a <==> id in b)
    && (id in a && id in b ==> a[id] == b[id] || (!IsTerminalRevision(id, a[id]) && !IsTerminalRevision(id, b[id])))
  }

  lemma {:induction false} TransitionsAgree(missions: seq<Mission>, a: map<string, string>, b: map<string, string>, now: int)
    requires forall i :: 0 <= i < |missions| ==> IsTracked(missions[i])
    requires forall id :: AlikeFor(a, b, id)
    ensures Transitions(missions, a, now) == Transitions(missions, b, now)
  {
    hide Revision, EventOf, AlikeFor;
    if missions != [] {
      var last := missions[|missions| - 1];
      TransitionsAgree(missions[..|missions| - 1], a, b, now);
      assert AlikeFor(a, b, last.id.s);
      ChangedAlike(last, a, b);
    }
  }

  lemma ChangedAlike(m: Mission, a: map<string, string>, b: map<string, string>)
    requires IsTracked(m) && AlikeFor(a, b, m.id.s)
    ensures Changed(m, a) <==> Changed(m, b)
  {
    hide Revision;
  }

  function Sample(id: string, status: string): Mission {
    Mission(Field.Text(id), None, Field.Text(status), None, None, None, None, None, None, None, None, None, None)
  }

  lemma OneMission(m: Mission, s: State, now: int, collate: Collation)
    requires IsTracked(m) && s.initialized
    ensures Reconcile([m], s, now, collate).1 == if Changed(m, s.known) then [EventOf(m, now)] else []
  {
    hide Changed, Revision;
    assert [m][..0] == [] && [m][1..] == [];
    assert Filter([], IsTracked) == [];
    assert Tracked([m]) == [m];
    assert Sort([], NewestFirst(collate)) == [];
    assert Newest([m], collate) == [m];
    assert Transitions([], s.known, now) == [];
  }

  /** A terminal mission whose revision is not the given one. */
  lemma OtherTerminal(id: string, revision: string) returns (m: Mission)
    ensures IsTracked(m) && m.id == Field.Text(id) && IsTerminal(m.status.s) && Revision(m) != revision
  {
    var c, f := Sample(id, COMPLETED), Sample(id, FAILED);
    assert Revision(c)[0] == 'c' && Revision(f)[0] == 'f';
    m := if Revision(c) == revision then f else c;
  }

  lemma DifferentReport(a: State, b: State, id: string, collate: Collation) returns (m: Mission)
    requires a.initialized && b.initialized && !AlikeFor(a.known, b.known, id)
    ensures IsTracked(m) && (Changed(m, a.known) <==> !Changed(m, b.known))
  {
    if id in a.known && id !in b.known {
      m := OtherTerminal(id, a.known[id]);
    } else if id in b.known && id !in a.known {
      m := OtherTerminal(id, b.known[id]);
    } else if IsTerminalRevision(id, a.known[id]) {
      m :| IsTracked(m) && m.id == Field.Text(id) && IsTerminal(m.status.s) && Revision(m) == a.known[id];
    } else {
      m :| IsTracked(m) && m.id == Field.Text(id) && IsTerminal(m.status.s) && Revision(m) == b.known[id];
    }
  }

  /**
   Reading an older state in place of another makes no difference to the report on any later list
   exactly when the two know the same missions, with the same revision wherever one of them is terminal.
   */
  lemma ReportsAlikeExactly(a: State, b: State, collate: Collation)
    requires a.initialized && b.initialized
    ensures (forall after, now :: Reconcile(after, a, now, collate).1 == Reconcile(after, b, now, collate).1)
            <==> forall id :: AlikeFor(a.known, b.known, id)
  {
    hide Reconcile, AlikeFor, Changed, Revision, EventOf;
    if forall id :: AlikeFor(a.known, b.known, id) {
      forall after, now ensures Reconcile(after, a, now, collate).1 == Reconcile(after, b, now, collate).1 {
        ReportsTransitions(after, a, now, collate);
        ReportsTransitions(after, b, now, collate);
        TransitionsAgree(Newest(after, collate), a.known, b.known, now);
      }
    } else {
      var id :| !AlikeFor(a.known, b.known, id);
      var m := DifferentReport(a, b, id, collate);
      OneMission(m, a, 0, collate);
      OneMission(m, b, 0, collate);
      assert Reconcile([m], a, 0, collate).1 != Reconcile([m], b, 0, collate).1;
    }
  }

  // ---------------------------------------------------------------- the ledger

  ghost predicate GoodOp(op: Op) {
    op.TickEnds? && op.missions.Some? ==> DistinctIds(Tracked(op.missions.value)) && PlainTimes(op.missions.value)
  }

  ghost predicate GoodLedgers(w: Tower) {
    && GoodLedger(w.stored.state.events)
    && (w.reading.Some? ==> GoodLedger(w.reading.value.state.events))
    && (forall page :: page in w.pages ==> GoodLedger(w.pages[page].state.events))
  }

  lemma ReadKeepsLedger(s: State)
    requires GoodLedger(s.events)
    ensures GoodLedger(MarkEventsRead(s).events)
  {
  }

  /** At most 20 ledger entries with distinct ids, in every stored, read or captured state of every run. */
  lemma {:induction false} RunKeepsLedger(ops: seq<Op>, collate: Collation)
    requires forall op :: op in ops ==> GoodOp(op)
    ensures GoodLedgers(Run(ops, collate))
    decreases |ops|
  {
    hide GoodLedger, Reconcile, HasUnread, MarkEventsRead, GoodOp;
    if ops == [] {
      NothingInLedger();
    } else {
      var before, op := Run(ops[..|ops| - 1], collate), ops[|ops| - 1];
      assert GoodOp(op);
      RunKeepsLedger(ops[..|ops| - 1], collate);
      if op.TickEnds? && op.missions.Some? && before.reading.Some? {
        GoodOpMeans(op);
        ReconcileKeepsLedger(op.missions.value, before.reading.value.state, op.now, collate);
      } else if op.ResultOpened? && op.page in before.pages {
        ReadKeepsLedger(before.pages[op.page].state);
      }
    }
  }

  /**
   In every run, what a tick reports is in the ledger that it stores: as far as it is not listed there yet
   and there are at most 20 of it, it stands in front of the older entries, of which only the last are cut.
   */
  lemma ReportEntersLedger(ops: seq<Op>, missions: seq<Mission>, now: int, collate: Collation)
    requires Run(ops, collate).reading.Some? && forall op :: op in ops ==> GoodOp(op)
    ensures var read := Run(ops, collate).reading.value.state;
            var reported := Reconcile(missions, read, now, collate).1;
            var added, stored := Unlisted(reported, read.events), Run(ops + [TickEnds(Some(missions), now)], collate).stored.state.events;
            |added| <= 20 ==> added <= stored && stored[|added|..] <= read.events && |stored| == Least(20, |added| + |read.events|)
  {
    hide GoodOp, Reconcile, Unlisted;
    RunKeepsLedger(ops, collate);
    RunOne(ops, TickEnds(Some(missions), now), collate);
    ReportIsInLedger(missions, Run(ops, collate).reading.value.state, now, collate);
  }

  lemma GoodOpMeans(op: Op)
    requires GoodOp(op) && op.TickEnds? && op.missions.Some?
    ensures DistinctIds(Tracked(op.missions.value)) && PlainTimes(op.missions.value)
  {
  }

  lemma NothingInLedger()
    ensures GoodLedger([])
  {
  }
}
