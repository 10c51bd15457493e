/**
 The mission watchtower: each snapshot of the mission list is compared with the revisions known from
 the previous one, terminal changes are returned as transitions and kept in a bounded ledger.
 */
module Watchtower {
  import opened Text
  import opened Ordering
  import opened Recency
  import opened Windows
  import opened Missions

  const MAX_TRACKED := 100
  const MAX_EVENTS := 20

  datatype Event = Event(
    id: string,
    missionId: string,
    status: string,
    executionPhase: Option<string>,
    workState: Option<string>,
    settlement: Option<string>,
    occurredAt: string,
    observedAt: int,
    unread: bool)

  datatype State = State(initialized: bool, known: map<string, string>, events: seq<Event>)

  const EMPTY := State(false, map[], [])

  /** Ranks of `createdAt` texts under the collation of `localeCompare`. */
  type Collation = string -> int

  function NewestFirst(collate: Collation): Mission -> Rank {
    (m: Mission) => (-collate(OrEmpty(m.createdAt)), 0)
  }

  predicate IsTracked(m: Mission) {
    m.id.Text? && m.status.Text?
  }

  function Tracked(missions: seq<Mission>): (r: seq<Mission>)
    ensures forall i :: 0 <= i < |r| ==> IsTracked(r[i])
  {
    FilterMembers(missions, IsTracked);
    assert forall i :: 0 <= i < |Filter(missions, IsTracked)| ==> Filter(missions, IsTracked)[i] in Filter(missions, IsTracked);
    Filter(missions, IsTracked)
  }

  predicate IsTerminal(status: string) {
    status == COMPLETED || status == FAILED
  }

  function Revision(m: Mission): string
    requires IsTracked(m)
  {
    m.status.s + "|" + (OrEmpty(m.executionPhase) + "|" + (TerminalTimestamp(m) + "|" + OrEmpty(FailureTime(m))))
  }

  function EventId(id: string, status: string, at: string): string {
    id + ":" + status + ":" + at
  }

  function EventOf(m: Mission, now: int): Event
    requires IsTracked(m)
  {
    Event(EventId(m.id.s, m.status.s, TerminalTimestamp(m)), m.id.s, m.status.s, m.executionPhase, m.workState,
          SettlementCode(m), TerminalTimestamp(m), now, true)
  }

  /** The newest 100 well-formed missions, newest first. */
  function Newest(missions: seq<Mission>, collate: Collation): (r: seq<Mission>)
    ensures forall i :: 0 <= i < |r| ==> IsTracked(r[i])
  {
    var sorted := Sort(Tracked(missions), NewestFirst(collate));
    SortIsPermutation(Tracked(missions), NewestFirst(collate));
    assert forall i :: 0 <= i < |sorted| ==> sorted[i] in multiset(sorted);
    Take(sorted, MAX_TRACKED)
  }

  predicate Changed(m: Mission, known: map<string, string>)
    requires IsTracked(m)
  {
    IsTerminal(m.status.s) && m.id.s in known && known[m.id.s] != Revision(m)
  }

  function Revisions(missions: seq<Mission>): map<string, string>
    requires forall i :: 0 <= i < |missions| ==> IsTracked(missions[i])
  {
    if missions == [] then map[]
    else
      var last := missions[|missions| - 1];
      assert IsTracked(last);
      Revisions(missions[..|missions| - 1])[last.id.s := Revision(last)]
  }

  function Transitions(missions: seq<Mission>, known: map<string, string>, now: int): (r: seq<Event>)
    requires forall i :: 0 <= i < |missions| ==> IsTracked(missions[i])
  {
    if missions == [] then []
    else
      var last := missions[|missions| - 1];
      Transitions(missions[..|missions| - 1], known, now) + (if Changed(last, known) then [EventOf(last, now)] else [])
  }

  function EventIds(events: seq<Event>): set<string> {
    set e | e in events :: e.id
  }

  function NotIn(ids: set<string>): Event -> bool {
    (e: Event) => e.id !in ids
  }

  predicate IsLedgerEvent(e: Event) {
    e.id != "" && IsTerminal(e.status)
  }

  function Ledger(transitions: seq<Event>, events: seq<Event>): seq<Event> {
    Take(Filter(Filter(transitions, NotIn(EventIds(events))) + events, IsLedgerEvent), MAX_EVENTS)
  }

  function Reconcile(missions: seq<Mission>, previous: State, now: int, collate: Collation): (State, seq<Event>) {
    var newest := Newest(missions, collate);
    var transitions := if previous.initialized then Transitions(newest, previous.known, now) else [];
    (State(true, Revisions(newest), Ledger(transitions, previous.events)), transitions)
  }

  method ReconcileMissions(missions: seq<Mission>, previous: State, now: int, collate: Collation)
    returns (state: State, transitions: seq<Event>)
    ensures (state, transitions) == Reconcile(missions, previous, now, collate)
  {
    var ordered := Newest(missions, collate);
    var nextKnown := map[];
    transitions := [];
    for i := 0 to |ordered|
      invariant nextKnown == Revisions(ordered[..i])
      invariant transitions == if previous.initialized then Transitions(ordered[..i], previous.known, now) else []
    {
      var mission := ordered[i];
      assert ordered[..i + 1][..i] == ordered[..i];
      nextKnown := nextKnown[mission.id.s := Revision(mission)];
      if previous.initialized && IsTerminal(mission.status.s) && mission.id.s in previous.known
         && previous.known[mission.id.s] != nextKnown[mission.id.s] {
        transitions := transitions + [EventOf(mission, now)];
      }
    }
    assert ordered[..|ordered|] == ordered;
    state := State(true, nextKnown, Ledger(transitions, previous.events));
  }

  /** An event tells of the mission it was made from, as it was at that moment. */
  lemma EventTellsMission(m: Mission, now: int)
    requires IsTracked(m)
    ensures var e := EventOf(m, now);
            && m.id == Field.Text(e.missionId) && m.status == Field.Text(e.status) && e.unread && e.observedAt == now
            && e.executionPhase == m.executionPhase && e.workState == m.workState
            && e.settlement == SettlementCode(m) && e.occurredAt == TerminalTimestamp(m)
  {
  }

  function ReadEvents(events: seq<Event>): seq<Event> {
    seq(|events|, i requires 0 <= i < |events| => events[i].(unread := false))
  }

  function MarkEventsRead(state: State): State {
    state.(events := ReadEvents(state.events))
  }

  /** Marking leaves every event where it is, read, and changes nothing else. */
  lemma MarkedReadExactly(state: State)
    ensures var marked := MarkEventsRead(state);
            && marked.initialized == state.initialized && marked.known == state.known && |marked.events| == |state.events|
            && forall i :: 0 <= i < |state.events| ==>
                 && !marked.events[i].unread
                 && (marked.events[i] == state.events[i] <==> !state.events[i].unread)
                 && marked.events[i].id == state.events[i].id && marked.events[i].status == state.events[i].status
  {
  }
}
