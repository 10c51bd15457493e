/**
 The power cycle against a Kernel whose Goals stay fixed and whose started missions become the newest
 and complete: which Goals are started, in which order, and when the forge turns itself off.
 */
module ForgeCycleOrder {
  import opened Text
  import opened Ordering
  import opened Recency
  import opened Windows
  import opened Missions
  import opened Surfaces
  import opened ForgeCycle

  ghost predicate DistinctGoals(goals: seq<Goal>) {
    && (forall i :: 0 <= i < |goals| ==> goals[i].id != "")
    && (forall i, j :: 0 <= i < j < |goals| ==> goals[i].id != goals[j].id)
  }

  function GoalIds(goals: seq<Goal>): seq<string> {
    seq(|goals|, i requires 0 <= i < |goals| => goals[i].id)
  }

  // ---------------------------------------------------------------- taking the head of the queue

  lemma {:induction false} InsertSkips(x: Goal, xs: seq<Goal>, key: Goal -> Rank, p: Goal -> bool)
    requires Sorted(xs, key)
    ensures Filter(Insert(x, xs, key), p) == if p(x) then Insert(x, Filter(xs, p), key) else Filter(xs, p)
  {
    if xs == [] {
    } else if Le(key(x), key(xs[0])) {
      FilterCons(x, xs, p);
      if p(x) {
        FilterMembers(xs, p);
        InsertAtFront(x, Filter(xs, p), xs, key);
      }
    } else {
      InsertSkips(x, xs[1..], key, p);
      FilterCons(xs[0], Insert(x, xs[1..], key), p);
      if p(xs[0]) && p(x) {
        assert ([xs[0]] + Filter(xs[1..], p))[1..] == Filter(xs[1..], p);
      }
    }
  }

  lemma InsertAtFront(x: Goal, part: seq<Goal>, xs: seq<Goal>, key: Goal -> Rank)
    requires Sorted(xs, key) && xs != [] && Le(key(x), key(xs[0]))
    requires forall y :: y in part ==> y in xs
    ensures Insert(x, part, key) == [x] + part
  {
    if part != [] {
      assert part[0] in part;
      var i :| 0 <= i < |xs| && xs[i] == part[0];
      assert Le(key(xs[0]), key(xs[i]));
    }
  }

  /** A stable sort commutes with dropping elements. */
  lemma {:induction false} SortSkips(xs: seq<Goal>, key: Goal -> Rank, p: Goal -> bool)
    ensures Filter(Sort(xs, key), p) == Sort(Filter(xs, p), key)
  {
    if xs != [] {
      SortSkips(xs[1..], key, p);
      SortIsSorted(xs[1..], key);
      InsertSkips(xs[0], Sort(xs[1..], key), key, p);
      if p(xs[0]) {
        assert ([xs[0]] + Filter(xs[1..], p))[1..] == Filter(xs[1..], p);
      }
    }
  }

  function OtherThan(id: string): Goal -> bool {
    (g: Goal) => g.id != id
  }

  lemma {:induction false} FilterBoth(goals: seq<Goal>, done: set<string>, id: string)
    ensures Filter(goals, Remaining(done + {id})) == Filter(Filter(goals, Remaining(done)), OtherThan(id))
  {
    if goals != [] {
      FilterBoth(goals[1..], done, id);
      FilterCons(goals[0], Filter(goals[1..], Remaining(done)), OtherThan(id));
    }
  }

  lemma {:induction false} FilteredDistinct(goals: seq<Goal>, p: Goal -> bool)
    requires DistinctGoals(goals)
    ensures DistinctGoals(Filter(goals, p))
  {
    if goals != [] {
      FilteredDistinct(goals[1..], p);
      FilterMembers(goals[1..], p);
      var rest := Filter(goals[1..], p);
      forall i | 0 <= i < |rest| ensures rest[i].id != goals[0].id {
        assert rest[i] in rest;
        var k :| 0 <= k < |goals[1..]| && goals[1..][k] == rest[i];
        assert goals[k + 1] == rest[i];
      }
    }
  }

  lemma {:induction false} InsertDistinct(x: Goal, xs: seq<Goal>, key: Goal -> Rank)
    requires DistinctGoals(xs) && x.id != "" && forall i :: 0 <= i < |xs| ==> xs[i].id != x.id
    ensures DistinctGoals(Insert(x, xs, key))
    ensures forall g :: g in Insert(x, xs, key) <==> g == x || g in xs
  {
    hide Le;
    if xs != [] {
      assert xs == [xs[0]] + xs[1..];
      InsertDistinct(x, xs[1..], key);
      var rest := Insert(x, xs[1..], key);
      forall i | 0 <= i < |rest| ensures rest[i].id != xs[0].id {
        assert rest[i] in rest;
        if rest[i] != x {
          var k :| 0 <= k < |xs[1..]| && xs[1..][k] == rest[i];
          assert xs[k + 1] == rest[i];
        }
      }
    }
  }

  lemma {:induction false} SortDistinct(xs: seq<Goal>, key: Goal -> Rank)
    requires DistinctGoals(xs)
    ensures DistinctGoals(Sort(xs, key))
    ensures forall g :: g in Sort(xs, key) <==> g in xs
  {
    if xs != [] {
      var rest := Sort(xs[1..], key);
      SortDistinct(xs[1..], key);
      assert xs == [xs[0]] + xs[1..];
      forall i | 0 <= i < |rest| ensures rest[i].id != xs[0].id {
        assert rest[i] in xs[1..];
        var k :| 0 <= k < |xs[1..]| && xs[1..][k] == rest[i];
        assert xs[k + 1] == rest[i];
      }
      InsertDistinct(xs[0], rest, key);
    }
  }

  /** Finishing the Goal at the head of the queue leaves exactly the rest of the queue. */
  lemma HeadDone(goals: seq<Goal>, done: set<string>, collate: Collation)
    requires DistinctGoals(goals) && Queue(goals, done, collate) != []
    ensures var q := Queue(goals, done, collate); Queue(goals, done + {q[0].id}, collate) == q[1..]
  {
    var key, left := ByPriority(collate), Filter(goals, Remaining(done));
    var q := Queue(goals, done, collate);
    FilteredDistinct(goals, Remaining(done));
    SortDistinct(left, key);
    FilterBoth(goals, done, q[0].id);
    SortSkips(left, key, OtherThan(q[0].id));
    assert q == [q[0]] + q[1..];
    FilterCons(q[0], q[1..], OtherThan(q[0].id));
    FilterAll(q[1..], OtherThan(q[0].id));
  }

  // ---------------------------------------------------------------- the most urgent Goal

  function Created(g: Goal): string {
    if g.createdAt.Some? then g.createdAt.value else ""
  }

  /** The first Goal comes before the second: it has more priority, or as much and is older, or as old and is listed before. */
  predicate Precedes(goals: seq<Goal>, collate: Collation, i: nat, k: nat)
    requires i < |goals| && k < |goals|
  {
    || goals[i].priority > goals[k].priority
    || (goals[i].priority == goals[k].priority
        && (collate(Created(goals[i])) < collate(Created(goals[k]))
            || (collate(Created(goals[i])) == collate(Created(goals[k])) && i < k)))
  }

  predicate IsOpen(g: Goal, done: set<string>) {
    g.status != "archived" && g.id !in done
  }

  /** The i-th Goal is open and comes before every other open one. */
  ghost predicate IsMostUrgent(goals: seq<Goal>, done: set<string>, collate: Collation, i: nat) {
    && i < |goals| && IsOpen(goals[i], done)
    && forall k :: 0 <= k < |goals| && k != i && IsOpen(goals[k], done) ==> Precedes(goals, collate, i, k)
  }

  /** Where an element of a filtered sequence comes from, with what passed before it. */
  lemma {:induction false} FilterIndex<T>(s: seq<T>, p: T -> bool, h: nat) returns (i: nat)
    requires h < |Filter(s, p)|
    ensures i < |s| && s[i] == Filter(s, p)[h] && p(s[i]) && Filter(s[..i], p) == Filter(s, p)[..h]
  {
    if p(s[0]) && h == 0 {
      i := 0;
    } else {
      var j := FilterIndex(s[1..], p, if p(s[0]) then h - 1 else h);
      i := j + 1;
      assert s[..i] == [s[0]] + s[1..][..j];
      FilterCons(s[0], s[1..][..j], p);
    }
  }

  /** What is selected is the most urgent open Goal, and nothing is selected exactly when none is open. */
  lemma SelectedIsMostUrgent(goals: seq<Goal>, done: set<string>, collate: Collation)
    ensures match SelectNextGoal(goals, done, collate)
            case None => forall k :: 0 <= k < |goals| ==> !IsOpen(goals[k], done)
            case Some(g) => exists i :: 0 <= i < |goals| && goals[i] == g && IsMostUrgent(goals, done, collate, i)
  {
    var left, key := Filter(goals, Remaining(done)), ByPriority(collate);
    FilterMembers(goals, Remaining(done));
    if left == [] {
      forall k | 0 <= k < |goals| ensures !IsOpen(goals[k], done) {
        assert goals[k] in goals;
      }
      assert Sort(left, key) == [];
    } else {
      var h := SortHead(left, key);
      var i := FilterIndex(goals, Remaining(done), h);
      forall k | 0 <= k < |goals| && k != i && IsOpen(goals[k], done) ensures Precedes(goals, collate, i, k) {
        BeforeOrAfter(goals, done, collate, h, i, k);
      }
      assert IsMostUrgent(goals, done, collate, i);
    }
  }

  lemma BeforeOrAfter(goals: seq<Goal>, done: set<string>, collate: Collation, h: nat, i: nat, k: nat)
    requires var left, key := Filter(goals, Remaining(done)), ByPriority(collate);
             && h < |left| && i < |goals| && goals[i] == left[h] && Filter(goals[..i], Remaining(done)) == left[..h]
             && (forall j :: 0 <= j < |left| ==> Le(key(left[h]), key(left[j])))
             && (forall j :: 0 <= j < h ==> !Le(key(left[j]), key(left[h])))
    requires k < |goals| && k != i && IsOpen(goals[k], done)
    ensures Precedes(goals, collate, i, k)
  {
    var left := Filter(goals, Remaining(done));
    FilterMembers(goals, Remaining(done));
    FilterMembers(goals[..i], Remaining(done));
    assert goals[k] in left;
    var j :| 0 <= j < |left| && left[j] == goals[k];
    if k < i {
      assert goals[k] in goals[..i];
      var m :| 0 <= m < |left[..h]| && left[..h][m] == goals[k];
      assert left[m] == goals[k];
    }
  }

  // ---------------------------------------------------------------- the closed world

  datatype World = World(c: Controller, latest: Option<Mission>)

  /** The controller makes its next move, the newest mission moves on, or the page just waits. */
  datatype Move = Tick | MissionAdvances

  function StartedMission(id: string): Mission {
    Mission(Field.Text("mission"), Some(id), Field.Text("queued"), None, None, None, None, None, None, None, None, None, None)
  }

  /** A queued mission starts running; a running one completes, keeping its Goal. */
  function Advanced(latest: Option<Mission>): Option<Mission> {
    if latest.None? then None
    else if latest.value.HasStatus("queued") then Some(latest.value.(status := Field.Text("running")))
    else if latest.value.HasStatus("running") then Some(latest.value.(status := Field.Text(COMPLETED)))
    else latest
  }

  /** The event that ends the controller's current await, answered truthfully and without failures. */
  function NextEvent(w: World, goals: seq<Goal>): Event {
    match w.c.phase
    case Idle => TimerFires(if w.c.timer.Some? then w.c.timer.value else 0)
    case ReadingStore => StoreRead
    case ReadingKernel(_) => KernelRead(Answer(true, true, w.latest, goals, 0))
    case Starting => StartEnds(w.latest, 0)
    case Restarting(_) => StartEnds(w.latest, 0)
    case _ => Saved(true)
  }

  function Go(w: World, move: Move, goals: seq<Goal>, collate: Collation): World {
    match move
    case MissionAdvances => w.(latest := Advanced(w.latest))
    case Tick =>
      var c := Step(w.c, NextEvent(w, goals), collate);
      World(c, if |c.started| > |w.c.started| then Some(StartedMission(c.started[|c.started| - 1])) else w.latest)
  }

  function Run(w: World, moves: seq<Move>, goals: seq<Goal>, collate: Collation): World
    decreases |moves|
  {
    if moves == [] then w else Run(Go(w, moves[0], goals, collate), moves[1..], goals, collate)
  }

  /** Goals that are finished, or that the newest mission is finishing. */
  function Accounted(w: World): set<string> {
    w.c.completed + (if w.latest.Some? && OrEmpty(w.latest.value.goalId) != ""
                        && (IsActive(w.latest) || w.latest.value.HasStatus(COMPLETED))
                     then {w.latest.value.goalId.value} else {})
  }

  /** Powered on with a token, about to begin a cycle, and nothing waiting for an agent. */
  ghost predicate PoweredOn(w: World) {
    && w.c.enabled && w.c.hasToken && w.c.press == NoPress && w.c.started == []
    && w.c.phase == ReadingStore && OneAtATime(w.c)
    && !IsWaiting(w.latest)
  }

  predicate IsOff(w: World) {
    !w.c.enabled
  }

  ghost predicate Inv(w: World, goals: seq<Goal>, collate: Collation, plan: seq<string>) {
    var c := w.c;
    && c.hasToken && OneAtATime(c)
    && !IsWaiting(w.latest) && !c.phase.Restarting? && !c.phase.SavingOff?
    && (c.phase.ReadingKernel? ==> c.phase.done == c.completed)
    && (c.phase.SavingDone? ==>
          && c.phase.kernelReady && c.phase.goals == goals && c.phase.latest == w.latest && !IsActive(w.latest)
          && c.phase.done == Accounted(w))
    && (c.phase.SavingEnd? ==> c.enabled && !IsActive(w.latest) && c.completed == Accounted(w) && Queue(goals, c.completed, collate) == [])
    && (c.enabled ==> c.started + GoalIds(Queue(goals, Accounted(w), collate)) == plan)
    && (!c.enabled ==> c.phase == Idle && c.live == {} && c.started == plan && c.completed == {})
    && (c.enabled && c.phase == Idle ==> c.timer.Some? && c.live == {c.timer.value})
  }

  lemma GoKeepsInv(w: World, move: Move, goals: seq<Goal>, collate: Collation, plan: seq<string>)
    requires DistinctGoals(goals) && Inv(w, goals, collate, plan)
    ensures Inv(Go(w, move, goals, collate), goals, collate, plan)
  {
    hide Queue, OrbState;
    StepKeepsOneAtATime(w.c, NextEvent(w, goals), collate);
    if move == MissionAdvances {
      assert Accounted(Go(w, move, goals, collate)) == Accounted(w);
    } else if w.c.phase.SavingDone? {
      StartsHead(w, goals, collate, plan);
    } else if w.c.phase.SavingEnd? {
      assert GoalIds([]) == [];
    } else {
      TickKeepsQueue(w, goals, collate);
    }
  }

  lemma TickKeepsQueue(w: World, goals: seq<Goal>, collate: Collation)
    requires !w.c.phase.SavingDone? && !w.c.phase.SavingEnd?
    ensures var v := Go(w, Tick, goals, collate);
            v.latest == w.latest && v.c.completed == w.c.completed && v.c.started == w.c.started
            && Accounted(v) == Accounted(w)
  {
    hide Queue, OrbState;
  }

  /** Saving the finished Goals starts the head of the queue, or finds the queue empty. */
  lemma StartsHead(w: World, goals: seq<Goal>, collate: Collation, plan: seq<string>)
    requires DistinctGoals(goals) && Inv(w, goals, collate, plan) && w.c.phase.SavingDone?
    ensures Inv(Go(w, Tick, goals, collate), goals, collate, plan)
    ensures var q, v := Queue(goals, Accounted(w), collate), Go(w, Tick, goals, collate);
            if q == [] then v.c.phase.SavingEnd? else v.c.phase == Starting && v.c.started == w.c.started + [q[0].id]
  {
    hide Go, Queue, DistinctGoals, OneAtATime, StartedMission;
    var q := Queue(goals, Accounted(w), collate);
    SavedShape(w, goals, collate, plan);
    TickKeepsOneAtATime(w, goals, collate);
    if q != [] {
      HeadDone(goals, Accounted(w), collate);
      HeadHasId(goals, Accounted(w), collate);
      StartedIsAccounted(Go(w, Tick, goals, collate).c, q[0].id);
      hide IsActive, IsWaiting, Accounted;
      assert GoalIds(q) == [q[0].id] + GoalIds(q[1..]);
    }
  }

  lemma TickKeepsOneAtATime(w: World, goals: seq<Goal>, collate: Collation)
    requires OneAtATime(w.c)
    ensures OneAtATime(Go(w, Tick, goals, collate).c)
  {
    hide Step;
    StepKeepsOneAtATime(w.c, NextEvent(w, goals), collate);
  }

  lemma StartedIsAccounted(c: Controller, id: string)
    requires id != ""
    ensures Accounted(World(c, Some(StartedMission(id)))) == c.completed + {id}
    ensures !IsWaiting(Some(StartedMission(id)))
  {
    StartedMissionIsActive(id);
    hide StartedMission;
  }

  lemma StartedMissionIsActive(id: string)
    ensures var m := StartedMission(id); IsActive(Some(m)) && !IsWaiting(Some(m)) && m.goalId == Some(id)
  {
  }

  lemma HeadHasId(goals: seq<Goal>, done: set<string>, collate: Collation)
    requires DistinctGoals(goals) && Queue(goals, done, collate) != []
    ensures Queue(goals, done, collate)[0].id != ""
  {
    QueueIds(goals, done, collate);
  }

  lemma SavedShape(w: World, goals: seq<Goal>, collate: Collation, plan: seq<string>)
    requires Inv(w, goals, collate, plan) && w.c.phase.SavingDone?
    ensures var q, v, p := Queue(goals, Accounted(w), collate), Go(w, Tick, goals, collate), w.c.phase;
            v == if q == [] then
                   World(w.c.(completed := p.done, phase := SavingEnd(p.kernelReady, p.latest, p.at)), w.latest)
                 else
                   World(w.c.(completed := p.done, failedShown := false, phase := Starting, started := w.c.started + [q[0].id]),
                         Some(StartedMission(q[0].id)))
  {
    hide Queue, OrbState, GoalIds;
  }

  lemma QueueIds(goals: seq<Goal>, done: set<string>, collate: Collation)
    requires DistinctGoals(goals)
    ensures DistinctGoals(Queue(goals, done, collate))
    ensures forall g :: g in Queue(goals, done, collate) <==> g in goals && g.status != "archived" && g.id !in done
  {
    FilteredDistinct(goals, Remaining(done));
    FilterMembers(goals, Remaining(done));
    SortDistinct(Filter(goals, Remaining(done)), ByPriority(collate));
  }

  lemma {:induction false} RunKeepsInv(w: World, moves: seq<Move>, goals: seq<Goal>, collate: Collation, plan: seq<string>)
    requires DistinctGoals(goals) && Inv(w, goals, collate, plan)
    ensures Inv(Run(w, moves, goals, collate), goals, collate, plan)
    decreases |moves|
  {
    hide Inv, Go, Queue;
    if moves != [] {
      GoKeepsInv(w, moves[0], goals, collate, plan);
      RunKeepsInv(Go(w, moves[0], goals, collate), moves[1..], goals, collate, plan);
    }
  }

  lemma StartsInInv(w: World, goals: seq<Goal>, collate: Collation)
    requires PoweredOn(w)
    ensures Inv(w, goals, collate, GoalIds(Queue(goals, Accounted(w), collate)))
  {
    hide Queue;
  }

  /**
   Under every interleaving of polling and mission progress the started Goals are a prefix of the
   priority queue, each non-archived unfinished Goal once; the forge turns itself off only when the
   whole queue was started, and then the finished set is cleared.
   */
  lemma StartsFollowQueue(w: World, moves: seq<Move>, goals: seq<Goal>, collate: Collation)
    requires DistinctGoals(goals) && PoweredOn(w)
    ensures var v, plan := Run(w, moves, goals, collate), GoalIds(Queue(goals, Accounted(w), collate));
            && v.c.started <= plan
            && (IsOff(v) ==> v.c.started == plan && v.c.completed == {} && v.c.live == {})
            && NoRepeat(plan)
            && forall id :: id in plan <==> exists g :: g in goals && g.id == id && g.status != "archived" && id !in Accounted(w)
  {
    hide Inv, Queue, Go;
    var plan := GoalIds(Queue(goals, Accounted(w), collate));
    StartsInInv(w, goals, collate);
    RunKeepsInv(w, moves, goals, collate, plan);
    InvMeans(Run(w, moves, goals, collate), goals, collate, plan);
    QueueIds(goals, Accounted(w), collate);
    var q := Queue(goals, Accounted(w), collate);
    PlanMembers(q);
  }

  lemma InvMeans(v: World, goals: seq<Goal>, collate: Collation, plan: seq<string>)
    requires Inv(v, goals, collate, plan)
    ensures v.c.started <= plan
    ensures IsOff(v) ==> v.c.started == plan && v.c.completed == {} && v.c.live == {}
  {
    hide Queue;
  }

  /** In no interleaving is work started while the newest mission is still queued or running. */
  lemma NeverTwoAtOnce(w: World, moves: seq<Move>, goals: seq<Goal>, collate: Collation)
    requires DistinctGoals(goals) && PoweredOn(w)
    ensures var v := Run(w, moves, goals, collate);
            Go(v, Tick, goals, collate).c.started != v.c.started ==> !IsActive(v.latest) && v.c.enabled
  {
    hide Queue, OrbState, Run;
    var v, plan := Run(w, moves, goals, collate), GoalIds(Queue(goals, Accounted(w), collate));
    StartsInInv(w, goals, collate);
    RunKeepsInv(w, moves, goals, collate, plan);
    StartingStep(v.c, NextEvent(v, goals), collate);
  }

  lemma PlanMembers(q: seq<Goal>)
    requires DistinctGoals(q)
    ensures NoRepeat(GoalIds(q))
    ensures forall id :: id in GoalIds(q) <==> exists g :: g in q && g.id == id
  {
    forall g | g in q ensures g.id in GoalIds(q) {
      var i :| 0 <= i < |q| && q[i] == g;
      assert GoalIds(q)[i] == g.id;
    }
  }

  // ---------------------------------------------------------------- the whole queue is forged

  const ROUND := 13

  function PhasesLeft(p: Phase): nat {
    match p
    case Starting => 6
    case Idle => 5
    case ReadingStore => 4
    case ReadingKernel(_) => 3
    case SavingDone(_, _, _, _, _) => 2
    case _ => 1
  }

  /** Moves that must still happen before the forge is off; polling an active mission is not one of them. */
  function MovesLeft(w: World, goals: seq<Goal>, collate: Collation): nat {
    if IsOff(w) then 0
    else ROUND * |Queue(goals, Accounted(w), collate)| +
         (if !IsActive(w.latest) then PhasesLeft(w.c.phase)
          else if w.latest.value.HasStatus("queued") then 8 else 7)
  }

  /** The move the world is waiting for: the mission's, while it is active, else the controller's. */
  function Awaited(w: World): Move {
    if IsActive(w.latest) then MissionAdvances else Tick
  }

  lemma MoveNeverSetsBack(w: World, move: Move, goals: seq<Goal>, collate: Collation, plan: seq<string>)
    requires DistinctGoals(goals) && Inv(w, goals, collate, plan)
    ensures var before, after := MovesLeft(w, goals, collate), MovesLeft(Go(w, move, goals, collate), goals, collate);
            after <= before && (move == Awaited(w) && before > 0 ==> after < before)
    ensures move != Awaited(w) ==> Awaited(Go(w, move, goals, collate)) == Awaited(w)
  {
    hide Queue, OrbState;
    if move == MissionAdvances {
      assert Accounted(Go(w, move, goals, collate)) == Accounted(w);
    } else if w.c.phase.SavingDone? {
      SavedLowers(w, goals, collate, plan);
    } else if w.c.phase.SavingEnd? {
    } else {
      TickKeepsQueue(w, goals, collate);
    }
  }

  lemma SavedLowers(w: World, goals: seq<Goal>, collate: Collation, plan: seq<string>)
    requires DistinctGoals(goals) && Inv(w, goals, collate, plan) && w.c.phase.SavingDone?
    ensures !IsActive(w.latest)
    ensures MovesLeft(Go(w, Tick, goals, collate), goals, collate) < MovesLeft(w, goals, collate)
  {
    var q := Queue(goals, Accounted(w), collate);
    var v := Go(w, Tick, goals, collate);
    StartsHead(w, goals, collate, plan);
    if q != [] {
      HeadDone(goals, Accounted(w), collate);
      QueueIds(goals, Accounted(w), collate);
      hide Queue, OrbState;
      assert Accounted(v) == Accounted(w) + {q[0].id};
    } else {
      hide Queue, OrbState;
      assert Accounted(v) == Accounted(w);
    }
  }

  /** In a round both sides make at least one move, in any order and among any others. */
  predicate IsRound(moves: seq<Move>) {
    Tick in moves && MissionAdvances in moves
  }

  lemma {:induction false} AwaitedLowers(w: World, moves: seq<Move>, goals: seq<Goal>, collate: Collation, plan: seq<string>)
    requires DistinctGoals(goals) && Inv(w, goals, collate, plan)
    ensures var before, after := MovesLeft(w, goals, collate), MovesLeft(Run(w, moves, goals, collate), goals, collate);
            after <= before && (Awaited(w) in moves && before > 0 ==> after < before)
    decreases |moves|
  {
    hide Inv, Go, MovesLeft, Awaited;
    if moves != [] {
      var v := Go(w, moves[0], goals, collate);
      GoKeepsInv(w, moves[0], goals, collate, plan);
      MoveNeverSetsBack(w, moves[0], goals, collate, plan);
      AwaitedLowers(v, moves[1..], goals, collate, plan);
    }
  }

  function Joined(rounds: seq<seq<Move>>): seq<Move> {
    if rounds == [] then [] else rounds[0] + Joined(rounds[1..])
  }

  lemma {:induction false} RunJoins(w: World, first: seq<Move>, second: seq<Move>, goals: seq<Goal>, collate: Collation)
    ensures Run(w, first + second, goals, collate) == Run(Run(w, first, goals, collate), second, goals, collate)
    decreases |first|
  {
    hide Go;
    if first == [] {
      assert first + second == second;
    } else {
      assert (first + second)[1..] == first[1..] + second;
      RunJoins(Go(w, first[0], goals, collate), first[1..], second, goals, collate);
    }
  }

  lemma {:induction false} RoundsEmptyQueue(w: World, rounds: seq<seq<Move>>, goals: seq<Goal>, collate: Collation, plan: seq<string>)
    requires DistinctGoals(goals) && Inv(w, goals, collate, plan)
    requires forall i :: 0 <= i < |rounds| ==> IsRound(rounds[i])
    requires |rounds| >= MovesLeft(w, goals, collate)
    ensures MovesLeft(Run(w, Joined(rounds), goals, collate), goals, collate) == 0
    decreases |rounds|
  {
    hide Inv, Go, MovesLeft;
    if rounds != [] {
      var v := Run(w, rounds[0], goals, collate);
      AwaitedLowers(w, rounds[0], goals, collate, plan);
      RunKeepsInv(w, rounds[0], goals, collate, plan);
      RoundsEmptyQueue(v, rounds[1..], goals, collate, plan);
      RunJoins(w, rounds[0], Joined(rounds[1..]), goals, collate);
    }
  }

  lemma OffWhenNothingLeft(v: World, goals: seq<Goal>, collate: Collation)
    ensures MovesLeft(v, goals, collate) == 0 <==> IsOff(v)
  {
  }

  /**
   However polling and missions interleave, once both sides have had a round of moves per remaining
   step the forge has turned itself off with every queued Goal started, once and in order.
   */
  lemma WholeQueueIsForged(w: World, rounds: seq<seq<Move>>, goals: seq<Goal>, collate: Collation)
    requires DistinctGoals(goals) && PoweredOn(w)
    requires forall i :: 0 <= i < |rounds| ==> IsRound(rounds[i])
    requires |rounds| >= ROUND * (|Queue(goals, Accounted(w), collate)| + 1)
    ensures var v := Run(w, Joined(rounds), goals, collate);
            && IsOff(v) && v.c.completed == {}
            && v.c.started == GoalIds(Queue(goals, Accounted(w), collate))
  {
    hide Inv, Go, Queue, Joined, Run;
    StartsInInv(w, goals, collate);
    var plan := GoalIds(Queue(goals, Accounted(w), collate));
    RoundsEmptyQueue(w, rounds, goals, collate, plan);
    OffWhenNothingLeft(Run(w, Joined(rounds), goals, collate), goals, collate);
    RunKeepsInv(w, Joined(rounds), goals, collate, plan);
    InvMeans(Run(w, Joined(rounds), goals, collate), goals, collate, plan);
  }

  /**
   The once-only order rests on missions completing: a Goal whose mission ended in any other way is
   never remembered, so the next cycle starts it again.
   */
  lemma RetriedUnlessCompleted(w: World, goals: seq<Goal>, collate: Collation)
    requires DistinctGoals(goals) && Queue(goals, w.c.completed, collate) != []
    requires w.c.phase == ReadingStore && w.c.enabled && w.c.hasToken
    requires !IsActive(w.latest) && !IsWaiting(w.latest)
    requires w.latest.Some? && w.latest.value.goalId == Some(Queue(goals, w.c.completed, collate)[0].id)
    ensures var head, v := Queue(goals, w.c.completed, collate)[0].id, Run(w, [Tick, Tick, Tick], goals, collate);
            v.c.started == w.c.started + [head] <==> !w.latest.value.HasStatus(COMPLETED)
  {
    var q := Queue(goals, w.c.completed, collate);
    HeadDone(goals, w.c.completed, collate);
    SecondHead(goals, w.c.completed, collate);
    HeadHasId(goals, w.c.completed, collate);
    hide Queue, OrbState, DistinctGoals;
    var a := Go(w, Tick, goals, collate);
    var b := Go(a, Tick, goals, collate);
    var v := Go(b, Tick, goals, collate);
    assert Run(w, [Tick, Tick, Tick], goals, collate) == v by {
      hide Go;
      assert [Tick, Tick, Tick][1..] == [Tick, Tick];
      assert [Tick, Tick][1..] == [Tick];
    }
    assert w.c.completed + {} == w.c.completed;
    assert b.c.phase.SavingDone?;
  }

  lemma SecondHead(goals: seq<Goal>, done: set<string>, collate: Collation)
    requires DistinctGoals(goals)
    ensures var q := Queue(goals, done, collate); |q| > 1 ==> q[1].id != q[0].id
  {
    QueueIds(goals, done, collate);
  }

  // ---------------------------------------------------------------- a head that keeps failing

  /** As `Advanced`, but a running mission fails. */
  function Failing(latest: Option<Mission>): Option<Mission> {
    if latest.Some? && latest.value.HasStatus("running") then Some(latest.value.(status := Field.Text(FAILED)))
    else Advanced(latest)
  }

  function GoFailing(w: World, move: Move, goals: seq<Goal>, collate: Collation): World {
    match move
    case MissionAdvances => w.(latest := Failing(w.latest))
    case Tick => Go(w, Tick, goals, collate)
  }

  function RunFailing(w: World, moves: seq<Move>, goals: seq<Goal>, collate: Collation): World
    decreases |moves|
  {
    if moves == [] then w else RunFailing(GoFailing(w, moves[0], goals, collate), moves[1..], goals, collate)
  }

  /** Nothing is added to the finished Goals `done`, and nothing but the head of their queue is ever started. */
  ghost predicate StuckInv(w: World, goals: seq<Goal>, collate: Collation, done: set<string>, head: string) {
    var c := w.c;
    && c.enabled && c.hasToken && c.press == NoPress
    && !IsWaiting(w.latest) && !c.phase.Restarting? && !c.phase.SavingOff? && !c.phase.SavingEnd?
    && c.completed + Finished(w.latest) == done
    && (c.phase.ReadingKernel? ==> c.phase.done == c.completed)
    && (c.phase.SavingDone? ==>
          c.phase.done == done && c.phase.kernelReady && c.phase.goals == goals && c.phase.latest == w.latest && !IsActive(w.latest))
    && (c.phase == Idle ==> c.timer.Some?)
    && forall i :: 0 <= i < |c.started| ==> c.started[i] == head
  }

  lemma FailingAddsNothing(latest: Option<Mission>)
    requires !IsWaiting(latest)
    ensures Finished(Failing(latest)) == Finished(latest) && !IsWaiting(Failing(latest))
    ensures !IsActive(latest) ==> Failing(latest) == latest
  {
  }

  lemma NewMissionUnfinished(id: string)
    ensures Finished(Some(StartedMission(id))) == {} && !IsWaiting(Some(StartedMission(id)))
  {
  }

  lemma GoKeepsStuck(w: World, move: Move, goals: seq<Goal>, collate: Collation, done: set<string>, head: string)
    requires StuckInv(w, goals, collate, done, head)
    requires Queue(goals, done, collate) != [] && Queue(goals, done, collate)[0].id == head
    ensures StuckInv(GoFailing(w, move, goals, collate), goals, collate, done, head)
  {
    hide Queue, OrbState, StartedMission;
    if move == MissionAdvances {
      hide Failing, Finished;
      FailingAddsNothing(w.latest);
    } else if w.c.phase.SavingDone? {
      NewMissionUnfinished(head);
      hide Finished;
      assert done + {} == done;
    } else {
      hide Finished;
    }
  }

  lemma {:induction false} RunKeepsStuck(w: World, moves: seq<Move>, goals: seq<Goal>, collate: Collation, done: set<string>, head: string)
    requires StuckInv(w, goals, collate, done, head)
    requires Queue(goals, done, collate) != [] && Queue(goals, done, collate)[0].id == head
    ensures StuckInv(RunFailing(w, moves, goals, collate), goals, collate, done, head)
    decreases |moves|
  {
    hide Queue, GoFailing, StuckInv;
    if moves != [] {
      GoKeepsStuck(w, moves[0], goals, collate, done, head);
      RunKeepsStuck(GoFailing(w, moves[0], goals, collate), moves[1..], goals, collate, done, head);
    }
  }

  lemma PoweredOnIsStuck(w: World, goals: seq<Goal>, collate: Collation, head: string)
    requires PoweredOn(w)
    ensures StuckInv(w, goals, collate, w.c.completed + Finished(w.latest), head)
  {
    hide Finished;
  }

  /**
   Once the forge is switched on, while the missions of the Goal at the head of the queue keep failing,
   only that Goal is ever started, the forge never turns itself off, and no Goal is added to the finished
   ones: everything behind the head starves.
   */
  lemma FailingHeadStarvesQueue(w: World, moves: seq<Move>, goals: seq<Goal>, collate: Collation)
    requires PoweredOn(w) && Queue(goals, w.c.completed + Finished(w.latest), collate) != []
    ensures var done := w.c.completed + Finished(w.latest);
            var v := RunFailing(w, moves, goals, collate);
            && v.c.enabled && v.c.completed + Finished(v.latest) == done
            && (forall i :: 0 <= i < |v.c.started| ==> v.c.started[i] == Queue(goals, done, collate)[0].id)
            && exists i: nat :: IsMostUrgent(goals, done, collate, i) && goals[i] == Queue(goals, done, collate)[0]
  {
    SelectedIsMostUrgent(goals, w.c.completed + Finished(w.latest), collate);
    hide Queue, Finished, GoFailing;
    var done := w.c.completed + Finished(w.latest);
    var head := Queue(goals, done, collate)[0].id;
    PoweredOnIsStuck(w, goals, collate, head);
    RunKeepsStuck(w, moves, goals, collate, done, head);
  }

  // ---------------------------------------------------------------- starts in order of urgency

  /** The ids of the first Goals of the queue are done; then the next in the queue is the most urgent left. */
  lemma {:induction false} QueueIsByUrgency(goals: seq<Goal>, done: set<string>, collate: Collation, a: nat) returns (i: nat)
    requires DistinctGoals(goals) && a < |Queue(goals, done, collate)|
    ensures var q := Queue(goals, done, collate);
            i < |goals| && goals[i] == q[a] && IsMostUrgent(goals, done + Elems(GoalIds(q)[..a]), collate, i)
    decreases a
  {
    var q := Queue(goals, done, collate);
    if a == 0 {
      SelectedIsMostUrgent(goals, done, collate);
      assert done + Elems(GoalIds(q)[..0]) == done;
      i :| 0 <= i < |goals| && goals[i] == q[0] && IsMostUrgent(goals, done, collate, i);
    } else {
      HeadDone(goals, done, collate);
      i := QueueIsByUrgency(goals, done + {q[0].id}, collate, a - 1);
      assert GoalIds(q)[..a] == [q[0].id] + GoalIds(q[1..])[..a - 1];
      ElemsOfCons(q[0].id, GoalIds(q[1..])[..a - 1]);
      assert done + {q[0].id} + Elems(GoalIds(q[1..])[..a - 1]) == done + Elems(GoalIds(q)[..a]);
    }
  }

  lemma ElemsOfCons(x: string, s: seq<string>)
    ensures Elems([x] + s) == {x} + Elems(s)
  {
  }

  /**
   Over every run, each Goal that is started is the most urgent of those that are open, counting as done
   what was finished at first and what was started before: no open Goal has a higher priority, none of the
   same priority is older, and none as old is listed before it.
   */
  lemma StartsMostUrgentFirst(w: World, moves: seq<Move>, goals: seq<Goal>, collate: Collation, a: nat) returns (i: nat)
    requires DistinctGoals(goals) && PoweredOn(w) && a < |Run(w, moves, goals, collate).c.started|
    ensures var started := Run(w, moves, goals, collate).c.started;
            i < |goals| && goals[i].id == started[a]
            && IsMostUrgent(goals, Accounted(w) + Elems(started[..a]), collate, i)
  {
    hide Inv, Go, IsMostUrgent, DistinctGoals;
    var q := Queue(goals, Accounted(w), collate);
    var plan := GoalIds(q);
    StartsFollowQueue(w, moves, goals, collate);
    hide Queue, Run;
    var started := Run(w, moves, goals, collate).c.started;
    i := QueueIsByUrgency(goals, Accounted(w), collate, a);
    assert started[..a] == plan[..a];
    assert plan[a] == q[a].id;
  }
}
