/**
 The agent-hub refresh loop: one timer, one refresh in flight, back-off after repeated failures. The
 await inside `run` splits it into a start and a finish, with any other event in between.
 */
module Refresher {
  import opened Text
  import opened Ordering

  const ACTIVE_MS := 1000
  const QUEUED_MS := 3000
  const IDLE_MS := 10000
  const UNREACHABLE_AFTER := 2

  datatype HubMission = HubMission(createdAt: Option<string>, status: string, executionPhase: Option<string>)

  type Collation = string -> int

  function NewestFirst(collate: Collation): HubMission -> Rank {
    (m: HubMission) => (-collate(if m.createdAt.Some? then m.createdAt.value else ""), 0)
  }

  function Newest(missions: seq<HubMission>, collate: Collation): Option<HubMission> {
    var sorted := Sort(missions, NewestFirst(collate));
    if sorted == [] then None else Some(sorted[0])
  }

  function RefreshDelay(missions: seq<HubMission>, collate: Collation): int {
    match Newest(missions, collate)
    case None => IDLE_MS
    case Some(m) =>
      if m.status == "running" || m.executionPhase == Some("verifying") then ACTIVE_MS
      else if m.status == "queued" || m.status == "waiting_for_agent" then QUEUED_MS
      else IDLE_MS
  }

  function CreatedAt(m: HubMission): string {
    if m.createdAt.Some? then m.createdAt.value else ""
  }

  /** No listed mission is newer than the h-th, and none as new is listed before it. */
  predicate IsNewest(missions: seq<HubMission>, collate: Collation, h: nat) {
    && h < |missions|
    && (forall i :: 0 <= i < |missions| ==> collate(CreatedAt(missions[i])) <= collate(CreatedAt(missions[h])))
    && (forall i :: 0 <= i < h ==> collate(CreatedAt(missions[i])) < collate(CreatedAt(missions[h])))
  }

  /** A second while the newest mission runs or is verified, three while it waits to start, ten otherwise. */
  lemma DelayOfNewest(missions: seq<HubMission>, collate: Collation)
    ensures missions == [] ==> RefreshDelay(missions, collate) == 10000
    ensures forall h: nat :: IsNewest(missions, collate, h) ==>
              var m := missions[h];
              && (RefreshDelay(missions, collate) == 1000 <==> m.status == "running" || m.executionPhase == Some("verifying"))
              && (RefreshDelay(missions, collate) == 3000 <==>
                    !(m.status == "running" || m.executionPhase == Some("verifying"))
                    && (m.status == "queued" || m.status == "waiting_for_agent"))
              && (RefreshDelay(missions, collate) == 1000 || RefreshDelay(missions, collate) == 3000
                  || RefreshDelay(missions, collate) == 10000)
    ensures missions != [] ==> exists h: nat :: IsNewest(missions, collate, h)
  {
    if missions != [] {
      var g := SortHead(missions, NewestFirst(collate));
      assert IsNewest(missions, collate, g);
      forall h: nat | IsNewest(missions, collate, h) ensures h == g {
        assert collate(CreatedAt(missions[g])) == collate(CreatedAt(missions[h]));
      }
    }
  }

  datatype Timer = Timer(id: nat, delay: int)

  /** The variables of `createAgentHubRefresher`, and the timers the browser still holds. */
  datatype Hub = Hub(
    timer: Option<Timer>,
    consecutiveFailures: nat,
    unreachable: bool,
    stopped: bool,
    refreshing: bool,
    missions: seq<HubMission>,
    visible: bool,
    live: set<Timer>,
    issued: nat,
    inFlight: nat,
    notices: seq<bool>)

  const IDLE := Hub(None, 0, false, true, false, [], true, {}, 0, 0, [])

  datatype Outcome = Failed | Refreshed(missions: Option<seq<HubMission>>)

  datatype Event =
    | Start(initial: Option<seq<HubMission>>)
    | Stop
    | VisibilityChanged(visible: bool)
    | TimerFires(timer: Timer)
    | RefreshEnds(outcome: Outcome)

  function CancelScheduled(h: Hub): Hub {
    h.(live := if h.timer.Some? then h.live - {h.timer.value} else h.live, timer := None)
  }

  function DelayNow(h: Hub, collate: Collation): int {
    if h.unreachable then IDLE_MS else RefreshDelay(h.missions, collate)
  }

  function Schedule(h: Hub, collate: Collation): Hub {
    var c := CancelScheduled(h);
    if c.stopped || !c.visible then c
    else
      var timer := Timer(c.issued, DelayNow(c, collate));
      c.(timer := Some(timer), live := c.live + {timer}, issued := c.issued + 1)
  }

  /** `run` up to its await. */
  function BeginRun(h: Hub): Hub {
    var c := h.(timer := None);
    if c.stopped || !c.visible || c.refreshing then c
    else c.(refreshing := true, inFlight := c.inFlight + 1)
  }

  /** What the outcome of a refresh says about the missions and the Kernel. */
  function Settled(h: Hub, outcome: Outcome): Hub {
    match outcome
    case Refreshed(next) =>
      h.(missions := if next.Some? then next.value else h.missions,
         consecutiveFailures := 0,
         unreachable := false,
         notices := if h.unreachable then h.notices + [true] else h.notices)
    case Failed =>
      var failures := h.consecutiveFailures + 1;
      var offline := !h.unreachable && failures >= UNREACHABLE_AFTER;
      h.(consecutiveFailures := failures,
         unreachable := h.unreachable || offline,
         notices := if offline then h.notices + [false] else h.notices)
  }

  /** `run` from its await on: success, failure and the `finally` block. */
  function EndRun(h: Hub, outcome: Outcome, collate: Collation): Hub {
    var c := Settled(h, outcome);
    Schedule(c.(refreshing := false, inFlight := if c.inFlight == 0 then 0 else c.inFlight - 1), collate)
  }

  /** The browser fires only timers it holds, and only a refresh in flight can end. */
  predicate Enabled(h: Hub, e: Event) {
    (e.TimerFires? ==> e.timer in h.live) && (e.RefreshEnds? ==> h.inFlight > 0)
  }

  function Step(h: Hub, e: Event, collate: Collation): Hub {
    match e
    case Start(initial) =>
      Schedule(h.(missions := if initial.Some? then initial.value else [], stopped := false), collate)
    case Stop => CancelScheduled(h.(stopped := true))
    case VisibilityChanged(visible) =>
      var c := CancelScheduled(h.(visible := visible));
      if !c.stopped && c.visible then BeginRun(c) else c
    case TimerFires(timer) => BeginRun(h.(live := h.live - {timer}))
    case RefreshEnds(outcome) => EndRun(h, outcome, collate)
  }

  /** Notices alternate, and the first one says offline. */
  predicate Alternating(notices: seq<bool>) {
    forall i :: 0 <= i < |notices| ==> notices[i] == (i % 2 == 1)
  }

  ghost predicate Inv(h: Hub, collate: Collation) {
    && h.live == (if h.timer.Some? then {h.timer.value} else {})
    && (h.timer.Some? ==> h.timer.value.id < h.issued && h.timer.value.delay == DelayNow(h, collate))
    && h.inFlight == (if h.refreshing then 1 else 0)
    && (h.stopped || !h.visible ==> h.timer.None?)
    && (!h.stopped && h.visible ==> h.timer.Some? || h.refreshing)
    && (h.unreachable <==> h.consecutiveFailures >= UNREACHABLE_AFTER)
    && Alternating(h.notices)
    && (h.unreachable <==> |h.notices| % 2 == 1)
  }

  lemma StepKeepsInv(h: Hub, e: Event, collate: Collation)
    requires Inv(h, collate) && Enabled(h, e)
    ensures Inv(Step(h, e, collate), collate)
  {
    hide RefreshDelay;
  }

  function Run(events: seq<Event>, collate: Collation): Hub
    decreases |events|
  {
    if events == [] then IDLE else Step(Run(events[..|events| - 1], collate), events[|events| - 1], collate)
  }

  ghost predicate Possible(events: seq<Event>, collate: Collation)
    decreases |events|
  {
    events == [] || (Possible(events[..|events| - 1], collate)
                     && Enabled(Run(events[..|events| - 1], collate), events[|events| - 1]))
  }

  lemma {:induction false} RunKeepsInv(events: seq<Event>, collate: Collation)
    requires Possible(events, collate)
    ensures Inv(Run(events, collate), collate)
    decreases |events|
  {
    hide Inv, Step, Enabled;
    if events != [] {
      RunKeepsInv(events[..|events| - 1], collate);
      StepKeepsInv(Run(events[..|events| - 1], collate), events[|events| - 1], collate);
    } else {
      IdleInv(collate);
    }
  }

  lemma IdleInv(collate: Collation)
    ensures Inv(IDLE, collate)
  {
  }

  /** In every interleaving: one timer, one refresh, none when stopped, never stalled when started and visible. */
  lemma NeverStalledNeverDoubled(events: seq<Event>, collate: Collation)
    requires Possible(events, collate)
    ensures var h := Run(events, collate);
            && |h.live| <= 1 && h.inFlight <= 1
            && (h.stopped ==> h.live == {})
            && (!h.stopped && h.visible ==> h.live != {} || h.inFlight == 1)
            && (forall timer :: timer in h.live ==> timer.delay == DelayNow(h, collate))
  {
    RunKeepsInv(events, collate);
  }

  // ---------------------------------------------------------------- reachability against the outcome history

  /** Outcomes of all finished refreshes, oldest first: true for a failure. */
  function Failures(events: seq<Event>): seq<bool> {
    if events == [] then []
    else
      var last := events[|events| - 1];
      Failures(events[..|events| - 1]) + (if last.RefreshEnds? then [last.outcome.Failed?] else [])
  }

  function TrailingFailures(outcomes: seq<bool>): nat {
    if outcomes == [] || !outcomes[|outcomes| - 1] then 0 else 1 + TrailingFailures(outcomes[..|outcomes| - 1])
  }

  lemma {:induction false} CountsTrailingFailures(events: seq<Event>, collate: Collation)
    ensures Run(events, collate).consecutiveFailures == TrailingFailures(Failures(events))
    decreases |events|
  {
    if events != [] {
      hide RefreshDelay;
      var n := |events| - 1;
      CountsTrailingFailures(events[..n], collate);
      if events[n].RefreshEnds? {
        var before := Failures(events[..n]);
        assert (before + [events[n].outcome.Failed?])[..|before|] == before;
      } else {
        assert Failures(events[..n]) + [] == Failures(events[..n]);
      }
    }
  }

  /**
   The hub is unreachable exactly when the last two finished refreshes failed, through any stops,
   restarts and visibility changes; the notices alternate offline, online, offline and so on, and
   the last one says which it is.
   */
  lemma ReachabilityTracksHistory(events: seq<Event>, collate: Collation)
    requires Possible(events, collate)
    ensures var h, past := Run(events, collate), Failures(events);
            && (h.unreachable <==> |past| >= 2 && past[|past| - 1] && past[|past| - 2])
            && Alternating(h.notices)
            && (h.unreachable <==> h.notices != [] && !h.notices[|h.notices| - 1])
  {
    RunKeepsInv(events, collate);
    CountsTrailingFailures(events, collate);
    TwoTrailing(Failures(events));
    ReachabilityOf(Run(events, collate), collate);
    hide Inv, Run, Failures;
  }

  /** The missions that the latest start or the latest successful refresh with a list brought. */
  function Loaded(events: seq<Event>): seq<HubMission> {
    if events == [] then []
    else
      match events[|events| - 1]
      case Start(initial) => if initial.Some? then initial.value else []
      case RefreshEnds(Refreshed(Some(missions))) => missions
      case _ => Loaded(events[..|events| - 1])
  }

  lemma {:induction false} MissionsAreLoaded(events: seq<Event>, collate: Collation)
    ensures Run(events, collate).missions == Loaded(events)
    decreases |events|
  {
    if events != [] {
      hide Step;
      MissionsAreLoaded(events[..|events| - 1], collate);
      StepLoads(Run(events[..|events| - 1], collate), events[|events| - 1], collate);
    }
  }

  lemma StepLoads(h: Hub, e: Event, collate: Collation)
    ensures Step(h, e, collate).missions == match e
                                            case Start(initial) => if initial.Some? then initial.value else []
                                            case RefreshEnds(Refreshed(Some(missions))) => missions
                                            case _ => h.missions
  {
    hide DelayNow;
  }

  /**
   A timer that waits was set to ten seconds if the last two refreshes failed, and by the newest of the
   missions last loaded otherwise.
   */
  lemma WaitsExactly(events: seq<Event>, collate: Collation, timer: Timer)
    requires Possible(events, collate) && timer in Run(events, collate).live
    ensures var past := Failures(events);
            timer.delay == if |past| >= 2 && past[|past| - 1] && past[|past| - 2] then 10000
                           else RefreshDelay(Loaded(events), collate)
  {
    NeverStalledNeverDoubled(events, collate);
    ReachabilityTracksHistory(events, collate);
    MissionsAreLoaded(events, collate);
    hide Run, Possible, RefreshDelay;
  }

  /** A refresh begins exactly when a timer fires or a started hub is shown, with none in flight. */
  lemma BeginsExactly(events: seq<Event>, e: Event, collate: Collation)
    requires Possible(events + [e], collate)
    ensures var h, r := Run(events, collate), Run(events + [e], collate);
            r.inFlight > h.inFlight <==>
              h.inFlight == 0 && (e.TimerFires? || (e == VisibilityChanged(true) && !h.stopped))
  {
    assert (events + [e])[..|events|] == events;
    RunKeepsInv(events, collate);
    hide Run, RefreshDelay;
  }

  lemma TwoTrailing(past: seq<bool>)
    ensures TrailingFailures(past) >= 2 <==> |past| >= 2 && past[|past| - 1] && past[|past| - 2]
  {
    if past != [] {
      var before := past[..|past| - 1];
      assert TrailingFailures(past) == if past[|past| - 1] then 1 + TrailingFailures(before) else 0;
      if before != [] {
        assert before[|before| - 1] == past[|past| - 2];
      }
    }
  }

  lemma FlightCount(h: Hub, collate: Collation)
    requires Inv(h, collate) && h.inFlight > 0
    ensures h.inFlight == 1 && h.refreshing
  {
  }

  lemma ReachabilityOf(h: Hub, collate: Collation)
    requires Inv(h, collate)
    ensures h.unreachable <==> h.consecutiveFailures >= UNREACHABLE_AFTER
    ensures Alternating(h.notices)
    ensures h.unreachable <==> h.notices != [] && !h.notices[|h.notices| - 1]
  {
  }

  // ---------------------------------------------------------------- the closure's variables

  class AgentHubRefresher {
    var timer: Option<Timer>
    var consecutiveFailures: nat
    var unreachable: bool
    var stopped: bool
    var refreshing: bool
    var missions: seq<HubMission>
    var visible: bool
    var live: set<Timer>
    var issued: nat
    var inFlight: nat
    var notices: seq<bool>
    const collate: Collation

    ghost function Now(): Hub reads this {
      Hub(timer, consecutiveFailures, unreachable, stopped, refreshing, missions, visible, live, issued, inFlight, notices)
    }

    constructor (collate: Collation)
      ensures Now() == IDLE && this.collate == collate && Inv(Now(), collate)
    {
      this.collate := collate;
      timer, consecutiveFailures, unreachable, stopped, refreshing := None, 0, false, true, false;
      missions, visible, live, issued, inFlight, notices := [], true, {}, 0, 0, [];
    }

    method Cancel()
      modifies this`timer, this`live
      ensures Now() == CancelScheduled(old(Now()))
    {
      if timer.Some? {
        live := live - {timer.value};
      }
      timer := None;
    }

    method Reschedule()
      modifies this`timer, this`live, this`issued
      ensures Now() == Schedule(old(Now()), collate)
    {
      Cancel();
      if stopped || !visible {
        return;
      }
      var delay := if unreachable then IDLE_MS else RefreshDelay(missions, collate);
      timer := Some(Timer(issued, delay));
      live := live + {timer.value};
      issued := issued + 1;
    }

    method RunToAwait()
      modifies this`timer, this`refreshing, this`inFlight
      ensures Now() == BeginRun(old(Now()))
    {
      timer := None;
      if stopped || !visible || refreshing {
        return;
      }
      refreshing := true;
      inFlight := inFlight + 1;
    }

    method StartHub(initial: Option<seq<HubMission>>)
      requires Inv(Now(), collate)
      modifies this
      ensures Now() == Step(old(Now()), Start(initial), collate) && Inv(Now(), collate)
    {
      StepKeepsInv(Now(), Start(initial), collate);
      missions := if initial.Some? then initial.value else [];
      stopped := false;
      Reschedule();
    }

    method StopHub()
      requires Inv(Now(), collate)
      modifies this
      ensures Now() == Step(old(Now()), Stop, collate) && Inv(Now(), collate)
    {
      StepKeepsInv(Now(), Stop, collate);
      stopped := true;
      Cancel();
    }

    method ChangeVisibility(nowVisible: bool)
      requires Inv(Now(), collate)
      modifies this
      ensures Now() == Step(old(Now()), VisibilityChanged(nowVisible), collate) && Inv(Now(), collate)
    {
      StepKeepsInv(Now(), VisibilityChanged(nowVisible), collate);
      visible := nowVisible;
      Cancel();
      if !stopped && visible {
        RunToAwait();
      }
    }

    method FireTimer(fired: Timer)
      requires Inv(Now(), collate) && fired in live
      modifies this
      ensures Now() == Step(old(Now()), TimerFires(fired), collate) && Inv(Now(), collate)
    {
      StepKeepsInv(Now(), TimerFires(fired), collate);
      live := live - {fired};
      RunToAwait();
    }

    method FinishRefresh(outcome: Outcome)
      requires Inv(Now(), collate) && inFlight > 0
      modifies this
      ensures Now() == Step(old(Now()), RefreshEnds(outcome), collate) && Inv(Now(), collate)
    {
      StepKeepsInv(Now(), RefreshEnds(outcome), collate);
      FlightCount(Now(), collate);
      hide Inv, Schedule, RefreshDelay, Settled;
      Settle(outcome);
      SettledKeepsFlight(old(Now()), outcome);
      refreshing := false;
      inFlight := inFlight - 1;
      Reschedule();
    }

    method Settle(outcome: Outcome)
      modifies this`missions, this`consecutiveFailures, this`unreachable, this`notices
      ensures Now() == Settled(old(Now()), outcome)
    {
      match outcome {
        case Refreshed(next) =>
          if next.Some? {
            missions := next.value;
          }
          consecutiveFailures := 0;
          if unreachable {
            unreachable := false;
            notices := notices + [true];
          }
        case Failed =>
          consecutiveFailures := consecutiveFailures + 1;
          if !unreachable && consecutiveFailures >= UNREACHABLE_AFTER {
            unreachable := true;
            notices := notices + [false];
          }
      }
    }
  }

  lemma SettledKeepsFlight(h: Hub, outcome: Outcome)
    ensures Settled(h, outcome).inFlight == h.inFlight
  {
  }
}
