/**
 The forge power cycle: read storage, read the Kernel, remember the finished Goal, start the next one,
 poll; and the power button. Every await is a phase that a later event ends, so presses, timers and
 the Kernel's own progress may come in between.
 */
module ForgeCycle {
  import opened Text
  import opened Ordering
  import opened Windows
  import opened Missions
  import opened Surfaces

  // ---------------------------------------------------------------- efesto-orb-state.js

  datatype Goal = Goal(id: string, status: string, priority: int, createdAt: Option<string>)

  type Collation = string -> int

  function Remaining(done: set<string>): Goal -> bool {
    (g: Goal) => g.status != "archived" && g.id !in done
  }

  function ByPriority(collate: Collation): Goal -> Rank {
    (g: Goal) => (-g.priority, collate(if g.createdAt.Some? then g.createdAt.value else ""))
  }

  /** The Goals still to forge: higher priority first, then older first, then as listed. */
  function Queue(goals: seq<Goal>, done: set<string>, collate: Collation): seq<Goal> {
    Sort(Filter(goals, Remaining(done)), ByPriority(collate))
  }

  function SelectNextGoal(goals: seq<Goal>, done: set<string>, collate: Collation): Option<Goal> {
    var queue := Queue(goals, done, collate);
    if queue == [] then None else Some(queue[0])
  }

  predicate IsActive(m: Option<Mission>) {
    m.Some? && (m.value.HasStatus("queued") || m.value.HasStatus("running"))
  }

  predicate IsWaiting(m: Option<Mission>) {
    m.Some? && m.value.HasStatus("waiting_for_agent")
  }

  predicate ShouldCreateMission(enabled: bool, kernelReady: bool, latest: Option<Mission>,
                                goals: seq<Goal>, done: set<string>, collate: Collation) {
    enabled && kernelReady && !IsActive(latest) && !IsWaiting(latest) && SelectNextGoal(goals, done, collate).Some?
  }

  // ---------------------------------------------------------------- central-forge-power-controller.js

  datatype Phase =
    | Idle
    | ReadingStore
    | ReadingKernel(done: set<string>)
    | SavingOff
    | SavingDone(kernelReady: bool, latest: Option<Mission>, goals: seq<Goal>, done: set<string>, at: int)
    | SavingEnd(kernelReady: bool, latest: Option<Mission>, at: int)
    | Starting
    | Restarting(kernelReady: bool)

  datatype Press = NoPress | PressReading | PressSaving(enable: bool)

  /** The `state` object, what storage holds, and the timers the browser still holds. */
  datatype Controller = Controller(
    phase: Phase,
    press: Press,
    failedShown: bool,
    timer: Option<nat>,
    live: set<nat>,
    issued: nat,
    enabled: bool,
    completed: set<string>,
    hasToken: bool,
    started: seq<string>,
    restarted: seq<string>)

  datatype KernelAnswer = Unreachable
                        | Answer(kernelReady: bool, hermesReady: bool, latest: Option<Mission>, goals: seq<Goal>, at: int)

  datatype Event =
    | TimerFires(id: nat)
    | StoreRead
    | KernelRead(answer: KernelAnswer)
    | Saved(ok: bool)
    | StartEnds(mission: Option<Mission>, at: int)
    | PressButton
    | PressStoreRead
    | PressSaved
    | PageShown
    | PageLeft

  function ClearTimer(c: Controller): Controller {
    c.(live := if c.timer.Some? then c.live - {c.timer.value} else c.live)
  }

  function Schedule(c: Controller): Controller {
    var d := ClearTimer(c);
    d.(timer := Some(d.issued), live := d.live + {d.issued}, issued := d.issued + 1)
  }

  /** `runCycle` up to its first await. */
  function BeginCycle(c: Controller): Controller {
    if c.phase != Idle then c else ClearTimer(c).(phase := ReadingStore)
  }

  /** The `catch` block: show the failure and try again later. */
  function Fail(c: Controller): Controller {
    Schedule(c.(failedShown := true)).(phase := Idle)
  }

  function Shows(c: Controller, enabled: bool, kernelReady: bool, latest: Option<Mission>, at: int): Controller {
    c.(failedShown := OrbState(enabled, kernelReady, latest, at) == "failed")
  }

  /** The Goal of a completed newest mission. */
  function Finished(latest: Option<Mission>): set<string> {
    if latest.Some? && latest.value.HasStatus(COMPLETED) && OrEmpty(latest.value.goalId) != ""
    then {latest.value.goalId.value} else {}
  }

  function AfterKernel(c: Controller, done: set<string>, a: KernelAnswer, collate: Collation): Controller
    requires a.Answer?
  {
    var shown := Shows(c, true, a.kernelReady, a.latest, a.at);
    if IsWaiting(a.latest) && a.hermesReady then
      shown.(phase := Restarting(a.kernelReady), restarted := shown.restarted + [OrEmpty(a.latest.value.goalId)])
    else if IsActive(a.latest) then Schedule(shown).(phase := Idle)
    else shown.(phase := SavingDone(a.kernelReady, a.latest, a.goals, done + Finished(a.latest), a.at))
  }

  function AfterSaved(c: Controller, p: Phase, collate: Collation): Controller
    requires p.SavingDone?
  {
    var saved := c.(completed := p.done);
    var next := SelectNextGoal(p.goals, p.done, collate);
    if !ShouldCreateMission(true, p.kernelReady, p.latest, p.goals, p.done, collate) then
      if next.None? then saved.(phase := SavingEnd(p.kernelReady, p.latest, p.at)) else saved.(phase := Idle)
    else saved.(failedShown := false, phase := Starting, started := saved.started + [next.value.id])
  }

  function Step(c: Controller, e: Event, collate: Collation): Controller {
    match e
    case TimerFires(id) => if id in c.live then BeginCycle(c.(live := c.live - {id})) else c
    case StoreRead =>
      if c.phase != ReadingStore then c
      else if !c.enabled then c.(failedShown := false, phase := Idle)
      else if !c.hasToken then c.(failedShown := false, phase := SavingOff)
      else c.(phase := ReadingKernel(c.completed))
    case KernelRead(answer) =>
      if !c.phase.ReadingKernel? then c
      else if answer.Unreachable? then Fail(c)
      else AfterKernel(c, c.phase.done, answer, collate)
    case Saved(ok) =>
      (match c.phase
       case SavingOff => if ok then c.(enabled := false, phase := Idle) else Fail(c)
       case SavingDone(_, _, _, _, _) => if ok then AfterSaved(c, c.phase, collate) else Fail(c)
       case SavingEnd(kernelReady, latest, at) =>
         if ok then Shows(c, true, kernelReady, latest, at).(enabled := false, completed := {}, phase := Idle) else Fail(c)
       case _ => c)
    case StartEnds(mission, at) =>
      if c.phase != Starting && !c.phase.Restarting? then c
      else if mission.None? then Fail(c)
      else Schedule(Shows(c, true, c.phase == Starting || c.phase.kernelReady, mission, at)).(phase := Idle)
    case PressButton =>
      if c.press != NoPress || c.phase != Idle then c else c.(press := PressReading)
    case PressStoreRead =>
      if c.press != PressReading then c else c.(press := PressSaving(c.failedShown || !c.enabled))
    case PressSaved =>
      if !c.press.PressSaving? then c
      else
        var enable := c.press.enable;
        var saved := c.(enabled := enable, failedShown := false, press := NoPress);
        if enable then BeginCycle(saved) else saved
    case PageShown => BeginCycle(c)
    case PageLeft => ClearTimer(c)
  }

  /** The page as `initialize` leaves it: with the forge on, the first cycle has begun. */
  function Initialized(enabled: bool, completed: set<string>, hasToken: bool): Controller {
    var c := Controller(Idle, NoPress, false, None, {}, 0, enabled, completed, hasToken, [], []);
    if enabled then BeginCycle(c) else c
  }

  /** A page opened with the forge on begins a cycle at once; opened with it off it waits, with neither cycle nor timer. */
  lemma OpensAwake(enabled: bool, completed: set<string>, hasToken: bool)
    ensures var c := Initialized(enabled, completed, hasToken);
            && (c.phase == ReadingStore <==> enabled) && (c.phase == Idle <==> !enabled)
            && c.live == {} && c.press == NoPress && !c.failedShown && c.started == [] && c.restarted == []
  {
  }

  function Run(c: Controller, events: seq<Event>, collate: Collation): Controller
    decreases |events|
  {
    if events == [] then c else Step(Run(c, events[..|events| - 1], collate), events[|events| - 1], collate)
  }

  lemma RunOne(c: Controller, events: seq<Event>, e: Event, collate: Collation)
    ensures Run(c, events + [e], collate) == Step(Run(c, events, collate), e, collate)
  {
    assert (events + [e])[..|events|] == events;
  }

  // ---------------------------------------------------------------- when a failure is shown

  /** What the cycle waits for fails: the Kernel does not answer, a save or a start does not succeed. */
  predicate Fails(c: Controller, e: Event) {
    || (c.phase.ReadingKernel? && e == KernelRead(Unreachable))
    || ((c.phase.SavingOff? || c.phase.SavingDone? || c.phase.SavingEnd?) && e == Saved(false))
    || ((c.phase.Starting? || c.phase.Restarting?) && e.StartEnds? && e.mission.None?)
  }

  /** The orb that the event brings, if it brings one. */
  function OrbOf(c: Controller, e: Event): Option<string> {
    match c.phase
    case ReadingKernel(_) =>
      if e.KernelRead? && e.answer.Answer? then Some(OrbState(true, e.answer.kernelReady, e.answer.latest, e.answer.at)) else None
    case SavingEnd(kernelReady, latest, at) => if e == Saved(true) then Some(OrbState(true, kernelReady, latest, at)) else None
    case Starting => if e.StartEnds? && e.mission.Some? then Some(OrbState(true, true, e.mission, e.at)) else None
    case Restarting(kernelReady) =>
      if e.StartEnds? && e.mission.Some? then Some(OrbState(true, kernelReady, e.mission, e.at)) else None
    case _ => None
  }

  /** A new beginning: the forge found off or without a token, a Goal started, or a press saved. */
  predicate Resets(c: Controller, e: Event, collate: Collation) {
    || (c.phase == ReadingStore && e == StoreRead && (!c.enabled || !c.hasToken))
    || (c.press.PressSaving? && e == PressSaved)
    || Step(c, e, collate).started != c.started
  }

  /**
   A failure is shown from the moment something fails, and then the next try is scheduled, or an orb says
   "failed", until another orb or a new beginning.
   */
  lemma FailureShownExactly(c: Controller, e: Event, collate: Collation)
    ensures var d := Step(c, e, collate);
            && (Fails(c, e) ==> d.failedShown && d.phase == Idle && d.timer.Some? && d.timer.value in d.live)
            && (OrbOf(c, e).Some? ==> d.failedShown == (OrbOf(c, e).value == "failed"))
            && (!Fails(c, e) && OrbOf(c, e).None? ==> d.failedShown == (c.failedShown && !Resets(c, e, collate)))
  {
    hide Step, Resets, Fails, OrbOf;
    if Fails(c, e) {
      FailureIsShown(c, e, collate);
      NoOrbOfFailure(c, e);
    } else if OrbOf(c, e).Some? {
      OrbIsShown(c, e, collate);
    } else {
      ShownUntilReset(c, e, collate);
    }
  }

  lemma NoOrbOfFailure(c: Controller, e: Event)
    requires Fails(c, e)
    ensures OrbOf(c, e).None?
  {
  }

  lemma FailureIsShown(c: Controller, e: Event, collate: Collation)
    requires Fails(c, e)
    ensures var d := Step(c, e, collate); d.failedShown && d.phase == Idle && d.timer.Some? && d.timer.value in d.live
  {
  }

  lemma OrbIsShown(c: Controller, e: Event, collate: Collation)
    requires OrbOf(c, e).Some?
    ensures Step(c, e, collate).failedShown == (OrbOf(c, e).value == "failed")
  {
    hide SelectNextGoal, OrbState;
  }

  lemma ShownUntilReset(c: Controller, e: Event, collate: Collation)
    requires !Fails(c, e) && OrbOf(c, e).None?
    ensures Step(c, e, collate).failedShown == (c.failedShown && !Resets(c, e, collate))
  {
    hide SelectNextGoal, OrbState;
    forall id ensures c.started + [id] != c.started {
      assert |c.started + [id]| == |c.started| + 1;
    }
  }

  // ---------------------------------------------------------------- single flight, in every interleaving

  /** At most one timer, and none while a cycle runs: timers never pile up and cycles never overlap. */
  ghost predicate OneAtATime(c: Controller) {
    && c.live <= (if c.timer.Some? then {c.timer.value} else {})
    && (c.phase != Idle ==> c.live == {})
    && (c.timer.Some? ==> c.timer.value < c.issued)
  }

  lemma StepKeepsOneAtATime(c: Controller, e: Event, collate: Collation)
    requires OneAtATime(c)
    ensures OneAtATime(Step(c, e, collate))
  {
    hide SelectNextGoal, OrbState;
    if e.KernelRead? || e.Saved? || e.StartEnds? {
      AnswerKeepsOneAtATime(c, e, collate);
    } else {
      hide Schedule, Fail, AfterKernel, AfterSaved, Shows;
    }
  }

  lemma AnswerKeepsOneAtATime(c: Controller, e: Event, collate: Collation)
    requires OneAtATime(c) && (e.KernelRead? || e.Saved? || e.StartEnds?)
    ensures OneAtATime(Step(c, e, collate))
  {
    hide SelectNextGoal, OrbState, IsActive, IsWaiting, BeginCycle;
  }

  /** In every run there is at most one timer, and none while a cycle is under way. */
  lemma {:induction false} RunKeepsOneAtATime(c: Controller, events: seq<Event>, collate: Collation)
    requires OneAtATime(c)
    ensures var d := Run(c, events, collate); OneAtATime(d) && |d.live| <= 1 && (d.phase != Idle ==> d.live == {})
    decreases |events|
  {
    if events != [] {
      hide Step, OneAtATime;
      RunKeepsOneAtATime(c, events[..|events| - 1], collate);
      StepKeepsOneAtATime(Run(c, events[..|events| - 1], collate), events[|events| - 1], collate);
    }
    AtMostOneTimer(Run(c, events, collate));
  }

  lemma AtMostOneTimer(c: Controller)
    requires OneAtATime(c)
    ensures |c.live| <= 1 && (c.phase != Idle ==> c.live == {})
  {
    if c.timer.Some? && c.live != {} {
      assert c.live == {c.timer.value};
    }
  }

  // ---------------------------------------------------------------- what each start and restart answers to

  predicate IsIdleAnswer(a: KernelAnswer) {
    a.Answer? && a.kernelReady && !IsActive(a.latest) && !IsWaiting(a.latest)
  }

  lemma StartingStep(c: Controller, e: Event, collate: Collation)
    ensures var d := Step(c, e, collate);
            d.started != c.started ==>
              && c.phase.SavingDone? && !IsActive(c.phase.latest) && !IsWaiting(c.phase.latest) && c.phase.kernelReady
              && SelectNextGoal(c.phase.goals, c.phase.done, collate).Some?
              && d.started == c.started + [SelectNextGoal(c.phase.goals, c.phase.done, collate).value.id]
  {
    hide SelectNextGoal, OrbState;
  }

  lemma SavingStep(c: Controller, e: Event, collate: Collation)
    ensures var d := Step(c, e, collate);
            d.phase.SavingDone? ==> d.phase == c.phase || TakesAnswer(c, e, d.phase)
  {
    hide SelectNextGoal, OrbState;
  }

  /** This event is the answer that the later phase was filled from. */
  predicate TakesAnswer(c: Controller, e: Event, saving: Phase) {
    && c.phase.ReadingKernel? && e.KernelRead? && e.answer.Answer?
    && saving == SavingDone(e.answer.kernelReady, e.answer.latest, e.answer.goals,
                            c.phase.done + Finished(e.answer.latest), e.answer.at)
  }

  /** The k-th event is the latest answer taken, and the finished Goals are still being saved. */
  ghost predicate AnsweredAt(c: Controller, events: seq<Event>, k: nat, collate: Collation) {
    && k < |events|
    && TakesAnswer(Run(c, events[..k], collate), events[k], Run(c, events, collate).phase)
    && forall j :: k < j <= |events| ==> Run(c, events[..j], collate).phase.SavingDone?
  }

  lemma {:induction false} SavingHasAnswer(c: Controller, events: seq<Event>, collate: Collation) returns (k: nat)
    requires !c.phase.SavingDone? && Run(c, events, collate).phase.SavingDone?
    ensures AnsweredAt(c, events, k, collate)
    decreases |events|
  {
    hide Step, TakesAnswer;
    var n := |events| - 1;
    var before := Run(c, events[..n], collate);
    SavingStep(before, events[n], collate);
    assert events[..|events|] == events;
    if TakesAnswer(before, events[n], Run(c, events, collate).phase) {
      k := n;
    } else {
      k := SavingHasAnswer(c, events[..n], collate);
      assert forall j :: 0 <= j <= n ==> events[..n][..j] == events[..j];
    }
  }

  /** The start follows the k-th event, an idle answer, and is of the first Goal in its queue of unfinished ones. */
  ghost predicate StartedFrom(c: Controller, events: seq<Event>, e: Event, k: nat, collate: Collation) {
    && AnsweredAt(c, events, k, collate) && IsIdleAnswer(events[k].answer)
    && var queue := Queue(events[k].answer.goals,
                          Run(c, events[..k], collate).phase.done + Finished(events[k].answer.latest), collate);
       queue != [] && Run(c, events + [e], collate).started == Run(c, events, collate).started + [queue[0].id]
  }

  /**
   In every run each start answers to one Kernel answer, the latest taken, whose newest mission was
   neither active nor waiting; it starts the first Goal in that answer's queue of unfinished ones.
   */
  lemma StartsFollowIdleAnswer(c: Controller, events: seq<Event>, e: Event, collate: Collation)
    requires !c.phase.SavingDone?
    ensures Run(c, events + [e], collate).started != Run(c, events, collate).started ==>
              exists k :: StartedFrom(c, events, e, k, collate)
  {
    hide Step, Queue;
    RunOne(c, events, e, collate);
    StartingStep(Run(c, events, collate), e, collate);
    if Run(c, events + [e], collate).started != Run(c, events, collate).started {
      var k := SavingHasAnswer(c, events, collate);
      assert StartedFrom(c, events, e, k, collate);
    }
  }

  /** The answers that cycles of the run took, in order. */
  function Heard(c: Controller, events: seq<Event>, collate: Collation): seq<KernelAnswer>
    decreases |events|
  {
    if events == [] then []
    else
      var before, e := events[..|events| - 1], events[|events| - 1];
      Heard(c, before, collate)
      + (if Run(c, before, collate).phase.ReadingKernel? && e.KernelRead? then [e.answer] else [])
  }

  predicate IsWaitingAnswer(a: KernelAnswer) {
    a.Answer? && a.hermesReady && IsWaiting(a.latest)
  }

  /** Goals of the missions found waiting for an agent that was ready. */
  function WaitingGoals(answers: seq<KernelAnswer>): seq<string> {
    if answers == [] then []
    else
      var last := answers[|answers| - 1];
      WaitingGoals(answers[..|answers| - 1]) + (if IsWaitingAnswer(last) then [OrEmpty(last.latest.value.goalId)] else [])
  }

  function CountIdle(answers: seq<KernelAnswer>): nat {
    if answers == [] then 0
    else CountIdle(answers[..|answers| - 1]) + (if IsIdleAnswer(answers[|answers| - 1]) then 1 else 0)
  }

  lemma RestartingStep(c: Controller, e: Event, collate: Collation)
    ensures var d := Step(c, e, collate);
            d.restarted == c.restarted + (if c.phase.ReadingKernel? && e.KernelRead? then WaitingGoals([e.answer]) else [])
  {
    hide SelectNextGoal, OrbState;
    assert c.restarted + [] == c.restarted;
    if e.KernelRead? {
      assert [e.answer][..0] == [];
      assert forall x: string :: [] + [x] == [x];
    }
  }

  lemma HeardOne(answers: seq<KernelAnswer>, a: KernelAnswer)
    ensures WaitingGoals(answers + [a]) == WaitingGoals(answers) + WaitingGoals([a])
    ensures CountIdle(answers + [a]) == CountIdle(answers) + CountIdle([a])
  {
    assert (answers + [a])[..|answers|] == answers;
    assert [a][..0] == [];
    assert forall x: string :: [] + [x] == [x];
  }

  /**
   The restarts of a run are exactly the missions that its answers found waiting for a ready agent, in
   order; and an answer is good for one start at most, so there are no more starts than idle answers.
   */
  lemma {:induction false} WorkIsAnswered(c: Controller, events: seq<Event>, collate: Collation)
    requires !c.phase.SavingDone?
    ensures var d, heard := Run(c, events, collate), Heard(c, events, collate);
            && d.restarted == c.restarted + WaitingGoals(heard)
            && |d.started| + (if IsReadyToStart(d.phase) then 1 else 0) <= |c.started| + CountIdle(heard)
    decreases |events|
  {
    hide Step, IsReadyToStart, WaitingGoals, CountIdle;
    if events == [] {
      NothingHeard();
      assert c.restarted + [] == c.restarted;
      NothingReady(c.phase);
    } else {
      var before, e := events[..|events| - 1], events[|events| - 1];
      var v, heard := Run(c, before, collate), Heard(c, before, collate);
      WorkIsAnswered(c, before, collate);
      RestartingStep(v, e, collate);
      ReadyStep(v, e, collate);
      if v.phase.ReadingKernel? && e.KernelRead? {
        HeardOne(heard, e.answer);
        assert c.restarted + (WaitingGoals(heard) + WaitingGoals([e.answer])) == c.restarted + WaitingGoals(heard) + WaitingGoals([e.answer]);
      } else {
        assert heard + [] == heard && v.restarted + [] == v.restarted;
      }
    }
  }

  /** The save that is under way will be followed by a start unless the queue is empty. */
  predicate IsReadyToStart(p: Phase) {
    p.SavingDone? && p.kernelReady && !IsActive(p.latest) && !IsWaiting(p.latest)
  }

  lemma NothingHeard()
    ensures WaitingGoals([]) == [] && CountIdle([]) == 0
  {
  }

  lemma NothingReady(p: Phase)
    requires !p.SavingDone?
    ensures !IsReadyToStart(p)
  {
  }

  lemma ReadyStep(c: Controller, e: Event, collate: Collation)
    ensures var d := Step(c, e, collate);
            |d.started| + (if IsReadyToStart(d.phase) then 1 else 0)
            <= |c.started| + (if IsReadyToStart(c.phase) then 1 else 0)
               + (if c.phase.ReadingKernel? && e.KernelRead? then CountIdle([e.answer]) else 0)
  {
    hide SelectNextGoal, OrbState;
    if e.KernelRead? {
      assert [e.answer][..0] == [];
    }
  }

  // ---------------------------------------------------------------- cycles that do not come back

  /** Switched on, but with neither a cycle nor a timer to begin one. */
  predicate IsAsleep(c: Controller) {
    c.enabled && c.phase == Idle && c.live == {}
  }

  lemma SleepingStep(c: Controller, e: Event, collate: Collation)
    requires OneAtATime(c) && !IsAsleep(c)
    ensures IsAsleep(Step(c, e, collate)) <==>
              || (c.enabled && c.phase.SavingDone? && e == Saved(true)
                  && Queue(c.phase.goals, c.phase.done, collate) != [] && !IsReadyToStart(c.phase))
              || (c.enabled && c.phase == Idle && e == PageLeft)
  {
    hide Queue, OrbState;
  }

  /**
   In every run there is one way only to fall asleep, besides leaving the page between two cycles: the
   finished Goals of a forge that is on were saved, a Goal is left, and the Kernel is not ready or its
   newest mission waits for its agent.
   */
  lemma SleepsExactly(c: Controller, events: seq<Event>, e: Event, collate: Collation)
    requires OneAtATime(c) && !c.phase.SavingDone? && !IsAsleep(Run(c, events, collate))
    ensures var v := Run(c, events, collate);
            IsAsleep(Run(c, events + [e], collate)) <==>
              || (v.enabled && v.phase.SavingDone? && e == Saved(true)
                  && Queue(v.phase.goals, v.phase.done, collate) != []
                  && (!v.phase.kernelReady || IsWaiting(v.phase.latest)))
              || (v.enabled && v.phase == Idle && e == PageLeft)
  {
    hide Step, Queue, IsAsleep, OneAtATime;
    var v := Run(c, events, collate);
    RunOne(c, events, e, collate);
    RunKeepsOneAtATime(c, events, collate);
    SleepingStep(v, e, collate);
    if v.phase.SavingDone? {
      var k := AnswerBehindSaving(c, events, collate);
    }
  }

  lemma AnswerBehindSaving(c: Controller, events: seq<Event>, collate: Collation) returns (k: nat)
    requires !c.phase.SavingDone? && Run(c, events, collate).phase.SavingDone?
    ensures AnsweredAt(c, events, k, collate)
    ensures var a := events[k].answer; !IsActive(a.latest) && !(IsWaiting(a.latest) && a.hermesReady)
  {
    hide Step;
    k := SavingHasAnswer(c, events, collate);
    RunOne(c, events[..k], events[k], collate);
    assert events[..k] + [events[k]] == events[..k + 1];
    AnswerNotActive(Run(c, events[..k], collate), events[k], collate);
  }

  /** The answer behind it showed a Kernel not ready, or a mission waiting for an agent that was not. */
  lemma SleepFollowsAnswer(c: Controller, events: seq<Event>, e: Event, collate: Collation) returns (k: nat)
    requires OneAtATime(c) && !c.phase.SavingDone?
    requires !IsAsleep(Run(c, events, collate)) && IsAsleep(Run(c, events + [e], collate)) && e != PageLeft
    ensures AnsweredAt(c, events, k, collate) && e == Saved(true)
    ensures var a := events[k].answer; !a.kernelReady || (IsWaiting(a.latest) && !a.hermesReady)
  {
    hide Step, Queue, IsAsleep, OneAtATime;
    SleepsExactly(c, events, e, collate);
    k := AnswerBehindSaving(c, events, collate);
  }

  lemma AnswerNotActive(c: Controller, e: Event, collate: Collation)
    requires c.phase.ReadingKernel? && e.KernelRead? && e.answer.Answer? && Step(c, e, collate).phase.SavingDone?
    ensures !IsActive(e.answer.latest) && !(IsWaiting(e.answer.latest) && e.answer.hermesReady)
  {
    hide OrbState;
  }

  /** A sleeping forge stays as it is through every sequence without a press and without the page being shown again. */
  lemma {:induction false} SleepsUntilPressedOrShown(c: Controller, events: seq<Event>, collate: Collation)
    requires IsAsleep(c) && c.press == NoPress && PressButton !in events && PageShown !in events
    ensures Run(c, events, collate) == c
    decreases |events|
  {
    hide SelectNextGoal, OrbState;
    if events != [] {
      assert events[|events| - 1] in events;
      SleepsUntilPressedOrShown(c, events[..|events| - 1], collate);
    }
  }

  /**
   Both end the sleep: showing the page begins a cycle at once; a press, once storage has answered it
   twice, begins one too when a failure is shown, and otherwise switches the forge off.
   */
  lemma WakesExactly(c: Controller, e: Event, collate: Collation)
    requires IsAsleep(c) && c.press == NoPress
    ensures Step(c, e, collate) != c <==> e == PressButton || e == PageShown
    ensures Step(c, PageShown, collate).phase == ReadingStore
    ensures var d := Step(Step(Step(c, PressButton, collate), PressStoreRead, collate), PressSaved, collate);
            if c.failedShown then d.enabled && d.phase == ReadingStore else !d.enabled && d.phase == Idle
  {
    hide SelectNextGoal, OrbState;
  }

  /** The run that ends asleep: one cycle of a page opened with the forge on while the Kernel is not ready. */
  lemma FallsAsleep(completed: set<string>, goals: seq<Goal>, hermesReady: bool, collate: Collation)
    requires Queue(goals, completed, collate) != []
    ensures var events := [StoreRead, KernelRead(Answer(false, hermesReady, None, goals, 0)), Saved(true)];
            IsAsleep(Run(Initialized(true, completed, true), events, collate))
  {
    hide Queue, OrbState;
    var c := Initialized(true, completed, true);
    var answer := KernelRead(Answer(false, hermesReady, None, goals, 0));
    RunOne(c, [], StoreRead, collate);
    RunOne(c, [StoreRead], answer, collate);
    RunOne(c, [StoreRead, answer], Saved(true), collate);
    assert [] + [StoreRead] == [StoreRead] && [StoreRead] + [answer] == [StoreRead, answer];
    assert [StoreRead, answer] + [Saved(true)] == [StoreRead, answer, Saved(true)];
    assert completed + {} == completed;
  }

  // ---------------------------------------------------------------- switched off under way

  predicate IsWorking(c: Controller) {
    c.phase != Idle && c.phase != ReadingStore && c.phase != SavingOff
  }

  predicate SavesOff(c: Controller, e: Event) {
    IsWorking(c) && e == PressSaved && c.press == PressSaving(false)
  }

  lemma WorkingStep(c: Controller, e: Event, collate: Collation)
    requires IsWorking(Step(c, e, collate)) && !Step(c, e, collate).enabled && !SavesOff(c, e)
    ensures IsWorking(c) && !c.enabled
  {
    hide SelectNextGoal, OrbState;
  }

  predicate IsOffUnderWay(c: Controller) {
    IsWorking(c) && !c.enabled
  }

  /** The k-th event saved a press that says off in the middle of the cycle that has been working ever since. */
  ghost predicate SavedOffAt(c: Controller, events: seq<Event>, k: nat, collate: Collation) {
    && k < |events| && SavesOff(Run(c, events[..k], collate), events[k])
    && forall j :: k < j <= |events| ==> IsWorking(Run(c, events[..j], collate))
  }

  lemma {:induction false} OffHasPress(c: Controller, events: seq<Event>, collate: Collation) returns (k: nat)
    requires !IsWorking(c) && IsOffUnderWay(Run(c, events, collate))
    ensures SavedOffAt(c, events, k, collate)
    decreases |events|
  {
    hide Step, IsWorking, SavesOff;
    var n := |events| - 1;
    var before := Run(c, events[..n], collate);
    assert events[..|events|] == events;
    if SavesOff(before, events[n]) {
      k := n;
    } else {
      WorkingStep(before, events[n], collate);
      k := OffHasPress(c, events[..n], collate);
      assert forall j :: 0 <= j <= n ==> events[..n][..j] == events[..j];
    }
  }

  lemma OffStays(c: Controller, e: Event, collate: Collation)
    requires c.press == NoPress && !c.enabled && IsWorking(c) && IsWorking(Step(c, e, collate))
    ensures Step(c, e, collate).press == NoPress && !Step(c, e, collate).enabled
  {
    hide SelectNextGoal, OrbState;
  }

  lemma SavingOffStops(c: Controller, e: Event, collate: Collation)
    requires SavesOff(c, e)
    ensures var d := Step(c, e, collate); IsWorking(d) && d.press == NoPress && !d.enabled
  {
  }

  /** No press can begin while a cycle works, so nothing switches the forge on again under it. */
  lemma {:induction false} StaysOff(c: Controller, events: seq<Event>, k: nat, collate: Collation)
    requires SavedOffAt(c, events, k, collate)
    ensures var d := Run(c, events, collate); IsOffUnderWay(d) && d.press == NoPress
    decreases |events|
  {
    hide Step, IsWorking, SavesOff;
    var n := |events| - 1;
    var before := Run(c, events[..n], collate);
    assert events[..|events|] == events;
    if k == n {
      SavingOffStops(before, events[n], collate);
    } else {
      assert forall j :: 0 <= j <= n ==> events[..n][..j] == events[..j];
      StaysOff(c, events[..n], k, collate);
      OffStays(before, events[n], collate);
    }
  }

  /**
   A cycle works on while the forge is off exactly when a press that says off was saved in the middle of
   that very cycle.
   */
  lemma OffUnderWayExactly(c: Controller, events: seq<Event>, collate: Collation)
    requires !IsWorking(c)
    ensures IsOffUnderWay(Run(c, events, collate)) <==> exists k :: SavedOffAt(c, events, k, collate)
  {
    hide Step, IsWorking, SavesOff, SavedOffAt;
    if IsOffUnderWay(Run(c, events, collate)) {
      var k := OffHasPress(c, events, collate);
    }
    forall k | SavedOffAt(c, events, k, collate) ensures IsOffUnderWay(Run(c, events, collate)) {
      StaysOff(c, events, k, collate);
    }
  }

  /** So a start happens while the forge is on if and only if no such press was saved in the middle of its cycle. */
  lemma StartsOnlyWhileOn(c: Controller, events: seq<Event>, e: Event, collate: Collation)
    requires !IsWorking(c)
    ensures Run(c, events + [e], collate).started != Run(c, events, collate).started ==>
              (Run(c, events, collate).enabled <==> !exists k :: SavedOffAt(c, events, k, collate))
  {
    hide Step, SavesOff, SavedOffAt;
    RunOne(c, events, e, collate);
    StartingStep(Run(c, events, collate), e, collate);
    OffUnderWayExactly(c, events, collate);
  }

  /** The run in which such a cycle starts a Goal after the forge was switched off. */
  lemma StartsWhileOff(c: Controller, goals: seq<Goal>, collate: Collation)
    requires c.phase == Idle && c.press == NoPress && c.enabled && c.hasToken && !c.failedShown
    requires c.timer.Some? && c.timer.value in c.live
    requires SelectNextGoal(goals, c.completed, collate).Some?
    ensures var events := [PressButton, PressStoreRead, TimerFires(c.timer.value), StoreRead, PressSaved,
                           KernelRead(Answer(true, true, None, goals, 0)), Saved(true)];
            var d := Run(c, events, collate);
            !d.enabled && d.started == c.started + [SelectNextGoal(goals, c.completed, collate).value.id]
  {
    hide SelectNextGoal, OrbState;
    var fires, answer := TimerFires(c.timer.value), KernelRead(Answer(true, true, None, goals, 0));
    var c1 := Step(c, PressButton, collate);
    var c2 := Step(c1, PressStoreRead, collate);
    var c3 := Step(c2, fires, collate);
    var c4 := Step(c3, StoreRead, collate);
    var c5 := Step(c4, PressSaved, collate);
    var c6 := Step(c5, answer, collate);
    assert c.completed + {} == c.completed;
    assert c6.phase.SavingDone? && c6.phase.done == c.completed;
    var c7 := Step(c6, Saved(true), collate);
    assert !c7.enabled && c7.started == c.started + [SelectNextGoal(goals, c.completed, collate).value.id];
    hide Step;
    assert [PressButton, PressStoreRead, fires, StoreRead, PressSaved, answer, Saved(true)]
        == [] + [PressButton] + [PressStoreRead] + [fires] + [StoreRead] + [PressSaved] + [answer] + [Saved(true)];
    RunOne(c, [], PressButton, collate);
    RunOne(c, [] + [PressButton], PressStoreRead, collate);
    RunOne(c, [] + [PressButton] + [PressStoreRead], fires, collate);
    RunOne(c, [] + [PressButton] + [PressStoreRead] + [fires], StoreRead, collate);
    RunOne(c, [] + [PressButton] + [PressStoreRead] + [fires] + [StoreRead], PressSaved, collate);
    RunOne(c, [] + [PressButton] + [PressStoreRead] + [fires] + [StoreRead] + [PressSaved], answer, collate);
    RunOne(c, [] + [PressButton] + [PressStoreRead] + [fires] + [StoreRead] + [PressSaved] + [answer], Saved(true), collate);
  }

  // ---------------------------------------------------------------- the closure's variables

  class ForgePowerController {
    var phase: Phase
    var press: Press
    var failedShown: bool
    var timer: Option<nat>
    var live: set<nat>
    var issued: nat
    var enabled: bool
    var completed: set<string>
    var hasToken: bool
    var started: seq<string>
    var restarted: seq<string>
    const collate: Collation

    ghost function Now(): Controller reads this {
      Controller(phase, press, failedShown, timer, live, issued, enabled, completed, hasToken, started, restarted)
    }

    constructor (enabled: bool, completed: set<string>, hasToken: bool, collate: Collation)
      ensures Now() == Initialized(enabled, completed, hasToken)
      ensures this.collate == collate && OneAtATime(Now())
    {
      phase, press, failedShown, timer, live, issued := Idle, NoPress, false, None, {}, 0;
      this.enabled, this.completed, this.hasToken, started, restarted := enabled, completed, hasToken, [], [];
      this.collate := collate;
      new;
      if enabled {
        RunCycle();
      }
    }

    method CancelTimer()
      modifies this`live
      ensures Now() == ClearTimer(old(Now()))
    {
      if timer.Some? {
        live := live - {timer.value};
      }
    }

    method ScheduleCycle()
      modifies this`live, this`timer, this`issued
      ensures Now() == Schedule(old(Now()))
    {
      CancelTimer();
      timer := Some(issued);
      live := live + {issued};
      issued := issued + 1;
    }

    /** What a timer calls, a press that says on, and the page when it is shown again. */
    method RunCycle()
      modifies this`live, this`phase
      ensures Now() == BeginCycle(old(Now())) == Step(old(Now()), PageShown, collate)
    {
      if phase != Idle {
        return;
      }
      CancelTimer();
      phase := ReadingStore;
    }

    /** The page is left: `stop`. */
    method StopTimer()
      modifies this`live
      ensures Now() == Step(old(Now()), PageLeft, collate)
    {
      CancelTimer();
    }

    method Catch()
      modifies this`live, this`timer, this`issued, this`failedShown, this`phase
      ensures Now() == Fail(old(Now()))
    {
      failedShown := true;
      ScheduleCycle();
      phase := Idle;
    }

    method KernelAnswered(answer: KernelAnswer)
      requires phase.ReadingKernel?
      modifies this
      ensures Now() == Step(old(Now()), KernelRead(answer), collate)
    {
      if answer.Unreachable? {
        Catch();
        return;
      }
      var done := phase.done;
      failedShown := OrbState(true, answer.kernelReady, answer.latest, answer.at) == "failed";
      if IsWaiting(answer.latest) && answer.hermesReady {
        restarted := restarted + [OrEmpty(answer.latest.value.goalId)];
        phase := Restarting(answer.kernelReady);
      } else if IsActive(answer.latest) {
        ScheduleCycle();
        phase := Idle;
      } else {
        if answer.latest.Some? && answer.latest.value.HasStatus(COMPLETED) && OrEmpty(answer.latest.value.goalId) != "" {
          done := done + {answer.latest.value.goalId.value};
        } else {
          assert done + {} == done;
        }
        phase := SavingDone(answer.kernelReady, answer.latest, answer.goals, done, answer.at);
      }
    }

    method CompletedSaved()
      requires phase.SavingDone?
      modifies this
      ensures Now() == Step(old(Now()), Saved(true), collate)
    {
      hide Queue, OrbState;
      var p := phase;
      completed := p.done;
      var next := SelectNextGoal(p.goals, p.done, collate);
      if !ShouldCreateMission(true, p.kernelReady, p.latest, p.goals, p.done, collate) {
        if next.None? {
          phase := SavingEnd(p.kernelReady, p.latest, p.at);
        } else {
          phase := Idle;
        }
        return;
      }
      failedShown := false;
      started := started + [next.value.id];
      phase := Starting;
    }

    method StartAnswered(mission: Option<Mission>, at: int)
      requires phase == Starting || phase.Restarting?
      modifies this
      ensures Now() == Step(old(Now()), StartEnds(mission, at), collate)
    {
      if mission.None? {
        Catch();
        return;
      }
      failedShown := OrbState(true, phase == Starting || phase.kernelReady, mission, at) == "failed";
      ScheduleCycle();
      phase := Idle;
    }

    method StoreAnswered()
      requires phase == ReadingStore
      modifies this
      ensures Now() == Step(old(Now()), StoreRead, collate)
    {
      if !enabled {
        failedShown := false;
        phase := Idle;
      } else if !hasToken {
        failedShown := false;
        phase := SavingOff;
      } else {
        phase := ReadingKernel(completed);
      }
    }

    method HandlePress()
      modifies this`press
      ensures Now() == Step(old(Now()), PressButton, collate)
    {
      if press != NoPress || phase != Idle {
        return;
      }
      press := PressReading;
    }

    method PressAnswered()
      requires press == PressReading
      modifies this`press
      ensures Now() == Step(old(Now()), PressStoreRead, collate)
    {
      press := PressSaving(failedShown || !enabled);
    }

    method PressStored()
      requires press.PressSaving?
      modifies this
      ensures Now() == Step(old(Now()), PressSaved, collate)
    {
      enabled := press.enable;
      failedShown := false;
      press := NoPress;
      if enabled {
        RunCycle();
      }
    }
  }
}
