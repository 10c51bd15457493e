/**
 Connecting in the product shell: one automatic restore loop at mount, and manual connects, pairings,
 local and extension connects and disconnects. Every await is a task that resumes later, in any order.
 */
module ProductShell {
  import opened Text

  const EXTENSION_TRANSPORT := "efesto-extension-transport-v1"
  const LOCAL_TRANSPORT := "efesto-local-transport-v1"
  const MAX_ROUNDS := 5

  datatype Connection = Connection(baseUrl: string, token: string)

  /** A connection to try; absent when its address does not normalize. */
  type Candidate = Option<Connection>

  datatype Next = Nothing | ThenExtension(round: nat) | ThenPause(round: nat)

  /** A suspended await. `Loading` is inside connectWith, the others inside its callers. */
  datatype Task =
    | DiscoverLocal(round: nat)
    | DiscoverExtension(round: nat)
    | Sleeping(round: nat)
    | Loading(auto: bool, attempt: nat, conn: Connection, remember: bool, next: Next)
    | ManualDiscover(attempt: nat)
    | Pairing(remember: bool)

  datatype Write = Installed(conn: Connection, auto: bool) | Cleared(auto: bool)

  datatype Shell = Shell(
    attempt: nat,
    paused: bool,
    unmounted: bool,
    connection: Option<Connection>,
    store: Option<Connection>,
    saved: Option<Connection>,
    tasks: map<nat, Task>,
    issued: nat,
    writes: seq<Write>)

  datatype Load = Online | Offline | LoadFailed

  datatype Event =
    | ConnectToken(candidate: Candidate, remember: bool)
    | ConnectWithoutToken
    | ConnectByCode(remember: bool)
    | ConnectDiscovered
    | Disconnect
    | Unmount
    | Discovered(task: nat, found: Option<Candidate>)
    | Paired(task: nat, found: Option<Candidate>)
    | LoadEnds(task: nat, load: Load)
    | TimerFires(task: nat)

  predicate IsManual(e: Event) {
    e.ConnectToken? || e.ConnectWithoutToken? || e.ConnectByCode? || e.ConnectDiscovered? || e.Disconnect?
  }

  function Add(s: Shell, task: Task): Shell {
    s.(tasks := s.tasks[s.issued := task], issued := s.issued + 1)
  }

  function Done(s: Shell, task: nat): Shell {
    s.(tasks := s.tasks - {task})
  }

  function Clear(s: Shell, auto: bool): Shell {
    s.(connection := None, store := None, saved := None, writes := s.writes + [Cleared(auto)])
  }

  function Install(s: Shell, conn: Connection, remember: bool, auto: bool): Shell {
    s.(connection := Some(conn), store := Some(conn),
       saved := if remember && conn.token != EXTENSION_TRANSPORT && conn.token != LOCAL_TRANSPORT then Some(conn) else None,
       writes := s.writes + [Installed(conn, auto)])
  }

  /** `restore()` from the start: give up, or look for the local Kernel. */
  function Restore(s: Shell, round: nat): Shell {
    if s.unmounted || s.paused || s.store.Some? then s else Add(s, DiscoverLocal(round))
  }

  /** What the restore loop does once a connectWith of its own has returned false. */
  function Continue(s: Shell, next: Next): Shell {
    match next
    case Nothing => s
    case ThenExtension(round) => Add(s, DiscoverExtension(round))
    case ThenPause(round) =>
      if !s.unmounted && !s.paused && round + 1 < MAX_ROUNDS then Add(s, Sleeping(round + 1)) else s
  }

  /** connectWith up to its await; an address that does not normalize fails in the same turn. */
  function ConnectWith(s: Shell, candidate: Candidate, remember: bool, auto: bool, next: Next): Shell {
    var numbered := s.(attempt := s.attempt + 1);
    if candidate.None? then Continue(Clear(numbered, auto), next)
    else Add(numbered, Loading(auto, numbered.attempt, candidate.value, remember, next))
  }

  /** connectWith from its await on. */
  function EndLoading(s: Shell, t: Task, load: Load): Shell
    requires t.Loading?
  {
    if t.attempt != s.attempt then Continue(s, t.next)
    else if load == Online then Install(s, t.conn, t.remember, t.auto)
    else Continue(Clear(s, t.auto), t.next)
  }

  predicate MayRestore(s: Shell) {
    !s.unmounted && !s.paused && s.store.None?
  }

  /** The mount effect: reconnect a remembered session, or start the restore loop. */
  function Mounted(saved: Option<Connection>, candidate: Candidate): Shell {
    var s := Shell(0, false, false, None, None, saved, map[], 0, []);
    if saved.Some? && saved.value.token != EXTENSION_TRANSPORT && saved.value.token != LOCAL_TRANSPORT
    then ConnectWith(s, candidate, true, true, Nothing)
    else Restore(s, 0)
  }

  /** Every manual action first pauses the restore loop and makes every earlier attempt stale. */
  function Manual(s: Shell): Shell {
    s.(paused := true, attempt := s.attempt + 1)
  }

  function Step(s: Shell, e: Event): Shell {
    match e
    case ConnectToken(candidate, remember) => ConnectWith(Manual(s), candidate, remember, false, Nothing)
    case ConnectWithoutToken => Manual(s)
    case ConnectByCode(remember) => Add(Manual(s), Pairing(remember))
    case ConnectDiscovered => Add(Manual(s), ManualDiscover(s.attempt + 1))
    case Disconnect => Clear(Manual(s), false)
    case Unmount =>
      s.(unmounted := true, attempt := s.attempt + 1,
         tasks := map id | id in s.tasks && !s.tasks[id].Sleeping? :: s.tasks[id])
    case Discovered(task, found) =>
      if task !in s.tasks then s
      else
        var d := Done(s, task);
        (match s.tasks[task]
         case DiscoverLocal(round) =>
           if found.Some? && MayRestore(d) then ConnectWith(d, found.value, false, true, ThenExtension(round))
           else Continue(d, ThenExtension(round))
         case DiscoverExtension(round) =>
           if found.Some? && MayRestore(d) then ConnectWith(d, found.value, false, true, ThenPause(round))
           else Continue(d, ThenPause(round))
         case ManualDiscover(attempt) =>
           if found.Some? && attempt == d.attempt then ConnectWith(d, found.value, false, false, Nothing) else d
         case _ => s)
    case Paired(task, found) =>
      if task !in s.tasks || !s.tasks[task].Pairing? then s
      else
        var d := Done(s, task);
        if found.Some? then ConnectWith(d, found.value, s.tasks[task].remember, false, Nothing) else d
    case LoadEnds(task, load) =>
      if task !in s.tasks || !s.tasks[task].Loading? then s else EndLoading(Done(s, task), s.tasks[task], load)
    case TimerFires(task) =>
      if task !in s.tasks || !s.tasks[task].Sleeping? then s else Restore(Done(s, task), s.tasks[task].round)
  }

  function Run(s: Shell, events: seq<Event>): Shell
    decreases |events|
  {
    if events == [] then s else Step(Run(s, events[..|events| - 1]), events[|events| - 1])
  }

  // ---------------------------------------------------------------- the invariant

  /** A task never carries a later number than the counter; while paused no automatic one is current. */
  predicate TaskOk(s: Shell, t: Task) {
    match t
    case Loading(auto, attempt, _, _, next) =>
      && attempt <= s.attempt
      && (auto && s.paused ==> attempt < s.attempt)
      && (next != Nothing ==> auto && next.round < MAX_ROUNDS)
    case ManualDiscover(attempt) => attempt <= s.attempt
    case Pairing(_) => true
    case DiscoverLocal(round) => round < MAX_ROUNDS
    case DiscoverExtension(round) => round < MAX_ROUNDS
    case Sleeping(round) => round < MAX_ROUNDS
  }

  ghost predicate Inv(s: Shell) {
    && (forall id :: id in s.tasks ==> TaskOk(s, s.tasks[id]))
    && s.connection == s.store
  }

  predicate NextOk(next: Next) {
    next != Nothing ==> next.round < MAX_ROUNDS
  }

  lemma ContinueKeeps(s: Shell, next: Next)
    requires Inv(s) && NextOk(next)
    ensures Inv(Continue(s, next)) && Continue(s, next).writes == s.writes
    ensures Continue(s, next).paused == s.paused && Continue(s, next).attempt == s.attempt
    ensures Continue(s, next).store == s.store
  {
  }

  lemma ConnectWithKeeps(s: Shell, candidate: Candidate, remember: bool, auto: bool, next: Next)
    requires Inv(s) && NextOk(next) && (next != Nothing ==> auto) && (auto ==> !s.paused)
    ensures var r := ConnectWith(s, candidate, remember, auto, next);
            && Inv(r) && r.paused == s.paused && r.attempt == s.attempt + 1
            && (r.writes == s.writes || r.writes == s.writes + [Cleared(auto)])
  {
    hide Continue;
    var numbered := s.(attempt := s.attempt + 1);
    if candidate.None? {
      ContinueKeeps(Clear(numbered, auto), next);
    }
  }

  lemma EndLoadingKeeps(s: Shell, t: Task, load: Load)
    requires Inv(s) && t.Loading? && TaskOk(s, t)
    ensures var r := EndLoading(s, t, load);
            && Inv(r) && r.paused == s.paused && r.attempt == s.attempt
            && (t.attempt != s.attempt ==> r.writes == s.writes && r.store == s.store)
            && (r.writes == s.writes || r.writes == s.writes + [Cleared(t.auto)]
                || r.writes == s.writes + [Installed(t.conn, t.auto)])
  {
    hide Continue;
    ContinueKeeps(s, t.next);
    ContinueKeeps(Clear(s, t.auto), t.next);
  }

  lemma DoneKeeps(s: Shell, task: nat)
    requires Inv(s)
    ensures Inv(Done(s, task))
  {
  }

  lemma ManualKeeps(s: Shell)
    requires Inv(s)
    ensures Inv(Manual(s))
  {
  }

  /** Every step keeps the invariant; once paused, it stays paused and writes nothing automatic. */
  lemma StepKeeps(s: Shell, e: Event)
    requires Inv(s)
    ensures Inv(Step(s, e))
    ensures s.paused || IsManual(e) ==> Step(s, e).paused
    ensures s.paused || IsManual(e) ==> OnlyManualSince(s, Step(s, e))
  {
    if IsManual(e) {
      ManualStepKeeps(s, e);
    } else if e.Unmount? {
    } else if e.task in s.tasks {
      ResumeKeeps(s, e);
    }
  }

  /** The writes of `r` extend those of `s` by manual ones. */
  ghost predicate OnlyManualSince(s: Shell, r: Shell) {
    && |s.writes| <= |r.writes| && r.writes[..|s.writes|] == s.writes
    && forall i :: |s.writes| <= i < |r.writes| ==> !r.writes[i].auto
  }

  lemma ManualStepKeeps(s: Shell, e: Event)
    requires Inv(s) && IsManual(e)
    ensures Inv(Step(s, e)) && Step(s, e).paused && OnlyManualSince(s, Step(s, e))
  {
    hide ConnectWith;
    ManualKeeps(s);
    if e.ConnectToken? {
      ConnectWithKeeps(Manual(s), e.candidate, e.remember, false, Nothing);
    }
  }

  lemma ResumeKeeps(s: Shell, e: Event)
    requires Inv(s) && !IsManual(e) && !e.Unmount? && e.task in s.tasks
    ensures Inv(Step(s, e))
    ensures s.paused ==> Step(s, e).paused && OnlyManualSince(s, Step(s, e))
  {
    hide ConnectWith, Continue, EndLoading;
    var d, t := Done(s, e.task), s.tasks[e.task];
    DoneKeeps(s, e.task);
    assert TaskOk(s, t);
    match e
    case Discovered(task, found) =>
      if t.DiscoverLocal? || t.DiscoverExtension? {
        var next := if t.DiscoverLocal? then ThenExtension(t.round) else ThenPause(t.round);
        ContinueKeeps(d, next);
        if found.Some? && MayRestore(d) {
          ConnectWithKeeps(d, found.value, false, true, next);
        }
      } else if t.ManualDiscover? && found.Some? {
        ConnectWithKeeps(d, found.value, false, false, Nothing);
      }
    case Paired(task, found) =>
      if found.Some? && t.Pairing? {
        ConnectWithKeeps(d, found.value, t.remember, false, Nothing);
      }
    case LoadEnds(task, load) =>
      if t.Loading? {
        EndLoadingKeeps(d, t, load);
      }
    case TimerFires(task) =>
  }

  lemma MountedInv(saved: Option<Connection>, candidate: Candidate)
    ensures Inv(Mounted(saved, candidate))
  {
  }

  lemma {:induction false} RunKeepsInv(s: Shell, events: seq<Event>)
    requires Inv(s)
    ensures Inv(Run(s, events))
    ensures s.paused ==> Run(s, events).paused && OnlyManualSince(s, Run(s, events))
    decreases |events|
  {
    hide Inv, Step;
    if events != [] {
      RunKeepsInv(s, events[..|events| - 1]);
      StepKeeps(Run(s, events[..|events| - 1]), events[|events| - 1]);
    }
  }

  /**
   After any manual action, in every interleaving, no automatic attempt begun before or after it ever
   installs or clears a connection.
   */
  lemma ManualBeatsAutomatic(saved: Option<Connection>, candidate: Candidate, before: seq<Event>, e: Event, after: seq<Event>)
    requires IsManual(e)
    ensures var s := Run(Mounted(saved, candidate), before);
            OnlyManualSince(s, Run(Step(s, e), after))
  {
    hide Inv, Step, IsManual;
    var s := Run(Mounted(saved, candidate), before);
    MountedInv(saved, candidate);
    RunKeepsInv(Mounted(saved, candidate), before);
    StepKeeps(s, e);
    RunKeepsInv(Step(s, e), after);
  }

  /** The restore loop is bounded: no task of it ever reaches a sixth round. */
  lemma RestoreIsBounded(saved: Option<Connection>, candidate: Candidate, events: seq<Event>, id: nat)
    ensures var s := Run(Mounted(saved, candidate), events);
            id in s.tasks && (s.tasks[id].DiscoverLocal? || s.tasks[id].Sleeping?) ==> s.tasks[id].round < MAX_ROUNDS
  {
    MountedInv(saved, candidate);
    RunKeepsInv(Mounted(saved, candidate), events);
  }

  // ---------------------------------------------------------------- a page that was left

  /** The page was left: every automatic load is stale and no pause of the restore loop is left. */
  ghost predicate IsLeft(s: Shell) {
    s.unmounted && forall id :: id in s.tasks ==>
      !s.tasks[id].Sleeping? && (s.tasks[id].Loading? && s.tasks[id].auto ==> s.tasks[id].attempt < s.attempt)
  }

  lemma LeavingLeaves(s: Shell)
    requires Inv(s)
    ensures IsLeft(Step(s, Unmount)) && OnlyManualSince(s, Step(s, Unmount))
  {
    assert forall id :: id in s.tasks ==> TaskOk(s, s.tasks[id]);
  }

  lemma StepKeepsLeft(s: Shell, e: Event)
    requires IsLeft(s)
    ensures IsLeft(Step(s, e)) && OnlyManualSince(s, Step(s, e))
  {
    if !IsManual(e) && !e.Unmount? && e.task in s.tasks {
      hide Continue, Install, Clear;
      var d := Done(s, e.task);
      forall next ensures LeftOn(d, Continue(d, next)) {
        ContinueLeft(d, next);
      }
      assert s.tasks[e.task].Loading? && s.tasks[e.task].attempt == s.attempt ==> !s.tasks[e.task].auto;
      ClearedLeft(d, s.tasks[e.task]);
    }
  }

  ghost predicate LeftOn(s: Shell, r: Shell) {
    IsLeft(s) ==> IsLeft(r) && r.writes == s.writes
  }

  lemma ContinueLeft(s: Shell, next: Next)
    ensures LeftOn(s, Continue(s, next))
  {
  }

  lemma ClearedLeft(s: Shell, t: Task)
    requires IsLeft(s)
    ensures IsLeft(Clear(s, false)) && OnlyManualSince(s, Clear(s, false))
    ensures t.Loading? ==> IsLeft(Install(s, t.conn, t.remember, false)) && OnlyManualSince(s, Install(s, t.conn, t.remember, false))
    ensures t.Loading? ==> IsLeft(Continue(Clear(s, false), t.next)) && OnlyManualSince(s, Continue(Clear(s, false), t.next))
  {
  }

  /** Once the page was left nothing automatic writes, whatever was under way, and no pause goes on. */
  lemma {:induction false} LeftPageWritesNothing(saved: Option<Connection>, candidate: Candidate, before: seq<Event>, after: seq<Event>)
    ensures var s := Run(Mounted(saved, candidate), before);
            var r := Run(Step(s, Unmount), after);
            IsLeft(r) && OnlyManualSince(s, r)
    decreases |after|
  {
    hide Inv, Step, IsLeft;
    var s := Run(Mounted(saved, candidate), before);
    if after == [] {
      MountedInv(saved, candidate);
      RunKeepsInv(Mounted(saved, candidate), before);
      LeavingLeaves(s);
    } else {
      LeftPageWritesNothing(saved, candidate, before, after[..|after| - 1]);
      StepKeepsLeft(Run(Step(s, Unmount), after[..|after| - 1]), after[|after| - 1]);
    }
  }

  // ---------------------------------------------------------------- what survives a disconnect

  /** Disconnected, and every suspended task but a pairing is stale or will not act. */
  ghost predicate Quiet(s: Shell) {
    && s.paused && s.store.None? && s.connection.None?
    && forall id :: id in s.tasks ==>
         match s.tasks[id]
         case Loading(_, attempt, _, _, _) => attempt < s.attempt
         case ManualDiscover(attempt) => attempt < s.attempt
         case Pairing(_) => false
         case _ => true
  }

  lemma DisconnectIsQuiet(s: Shell)
    requires Inv(s) && forall id :: id in s.tasks ==> !s.tasks[id].Pairing?
    ensures Quiet(Step(s, Disconnect))
  {
    assert forall id :: id in s.tasks ==> TaskOk(s, s.tasks[id]);
  }

  lemma QuietStep(s: Shell, e: Event)
    requires Quiet(s) && !IsManual(e)
    ensures Quiet(Step(s, e)) && Step(s, e).writes == s.writes
  {
  }

  lemma {:induction false} QuietRun(s: Shell, events: seq<Event>)
    requires Quiet(s) && forall i :: 0 <= i < |events| ==> !IsManual(events[i])
    ensures Quiet(Run(s, events)) && Run(s, events).writes == s.writes
    decreases |events|
  {
    hide Quiet, Step;
    if events != [] {
      QuietRun(s, events[..|events| - 1]);
      QuietStep(Run(s, events[..|events| - 1]), events[|events| - 1]);
    }
  }

  ghost predicate NoManual(events: seq<Event>) {
    forall i :: 0 <= i < |events| ==> !IsManual(events[i])
  }

  ghost predicate Numbered(s: Shell) {
    forall id :: id in s.tasks ==> id < s.issued
  }

  lemma NumberedStep(s: Shell, e: Event)
    requires Numbered(s)
    ensures Numbered(Step(s, e))
  {
  }

  lemma {:induction false} RunIsNumbered(s: Shell, events: seq<Event>)
    requires Numbered(s)
    ensures Numbered(Run(s, events))
    decreases |events|
  {
    hide Step, Numbered;
    if events != [] {
      RunIsNumbered(s, events[..|events| - 1]);
      NumberedStep(Run(s, events[..|events| - 1]), events[|events| - 1]);
    }
  }

  /**
   Pairing does not check the attempt counter. So after any run from the mount on, a disconnect can be
   undone without any further user action if and only if a pairing was in flight when it happened.
   */
  lemma DisconnectUndoneExactly(saved: Option<Connection>, candidate: Candidate, before: seq<Event>)
    ensures var s := Run(Mounted(saved, candidate), before);
            (exists events :: NoManual(events) && Run(Step(s, Disconnect), events).store.Some?)
            <==> exists id :: id in s.tasks && s.tasks[id].Pairing?
  {
    hide Inv, Step, Run;
    MountedInv(saved, candidate);
    RunKeepsInv(Mounted(saved, candidate), before);
    RunIsNumbered(Mounted(saved, candidate), before);
    UndoneExactly(Run(Mounted(saved, candidate), before));
  }

  lemma UndoneExactly(s: Shell)
    requires Inv(s) && Numbered(s)
    ensures (exists events :: NoManual(events) && Run(Step(s, Disconnect), events).store.Some?)
            <==> exists id :: id in s.tasks && s.tasks[id].Pairing?
  {
    var d := Step(s, Disconnect);
    if id :| id in s.tasks && s.tasks[id].Pairing? {
      var conn := Connection("", "");
      var paired := Paired(id, Some(Some(conn)));
      var loaded := LoadEnds(d.issued, Online);
      PairingInstalls(d, id, conn);
      assert NoManual([paired, loaded]);
    } else {
      DisconnectIsQuiet(s);
      forall events | NoManual(events) ensures Run(d, events).store.None? {
        QuietRun(d, events);
      }
    }
  }

  lemma PairingInstalls(d: Shell, id: nat, conn: Connection)
    requires id in d.tasks && d.tasks[id].Pairing?
    ensures Run(d, [Paired(id, Some(Some(conn))), LoadEnds(d.issued, Online)]).store == Some(conn)
  {
    var events := [Paired(id, Some(Some(conn))), LoadEnds(d.issued, Online)];
    assert events[..1] == [events[0]] && events[..1][..0] == [];
    assert Run(d, []) == d;
    assert Run(d, events[..1]) == Step(d, events[0]);
  }

  // ---------------------------------------------------------------- a manual connect does connect

  /** What makes an attempt under way stale: a manual action, leaving the page, or a pairing that found its connection. */
  predicate Supersedes(s: Shell, e: Event) {
    || IsManual(e) || e.Unmount?
    || (e.Paired? && e.found.Some? && e.task in s.tasks && s.tasks[e.task].Pairing?)
  }

  ghost predicate Superseded(s: Shell, events: seq<Event>) {
    exists k :: 0 <= k < |events| && Supersedes(Run(s, events[..k]), events[k])
  }

  /** The event that the task waits for. */
  predicate Answers(e: Event, id: nat) {
    (e.LoadEnds? || e.Discovered?) && e.task == id
  }

  predicate NeverAnswered(events: seq<Event>, id: nat) {
    forall i :: 0 <= i < |events| ==> !Answers(events[i], id)
  }

  /** The task of the manual attempt `n` is still there, and no other discovery has the same number. */
  ghost predicate Awaits(s: Shell, id: nat, n: nat, t: Task) {
    && id in s.tasks && s.tasks[id] == t && (t.Loading? || t.ManualDiscover?)
    && s.paused && n <= s.attempt && Numbered(s)
    && (s.attempt == n ==> forall x :: x in s.tasks && x != id && s.tasks[x].ManualDiscover? ==> s.tasks[x].attempt < n)
  }

  predicate Keeps(s: Shell, r: Shell, id: nat) {
    id in s.tasks && id in r.tasks && r.tasks[id] == s.tasks[id]
  }

  /** Whether the event ends this await. */
  predicate Resumes(e: Event, id: nat, t: Task) {
    match t
    case Pairing(_) => e.Paired? && e.task == id
    case Loading(_, _, _, _, _) => e.LoadEnds? && e.task == id
    case Sleeping(_) => e.Unmount? || (e.TimerFires? && e.task == id)
    case _ => e.Discovered? && e.task == id
  }

  lemma TaskStays(s: Shell, id: nat, e: Event)
    requires Numbered(s) && id in s.tasks && !Resumes(e, id, s.tasks[id])
    ensures Keeps(s, Step(s, e), id)
  {
    hide ConnectWith, Continue, EndLoading;
    if e.ConnectToken? {
      ConnectingKeepsTask(Manual(s), e.candidate, e.remember, false, Nothing, id);
    } else if !IsManual(e) && !e.Unmount? && e.task in s.tasks && e.task != id {
      var d, t := Done(s, e.task), s.tasks[e.task];
      match e
      case Discovered(task, found) =>
        var next := if t.DiscoverLocal? then ThenExtension(t.round) else if t.DiscoverExtension? then ThenPause(t.round) else Nothing;
        ContinuingKeepsTask(d, next, id);
        if found.Some? {
          ConnectingKeepsTask(d, found.value, false, next != Nothing, next, id);
        }
      case Paired(task, found) =>
        if found.Some? && t.Pairing? {
          ConnectingKeepsTask(d, found.value, t.remember, false, Nothing, id);
        }
      case LoadEnds(task, load) =>
        if t.Loading? {
          EndingKeepsTask(d, t, load, id);
        }
      case TimerFires(task) =>
    }
  }

  lemma ContinuingKeepsTask(s: Shell, next: Next, id: nat)
    requires id in s.tasks && id < s.issued
    ensures Keeps(s, Continue(s, next), id)
  {
  }

  lemma ConnectingKeepsTask(s: Shell, candidate: Candidate, remember: bool, auto: bool, next: Next, id: nat)
    requires id in s.tasks && id < s.issued
    ensures Keeps(s, ConnectWith(s, candidate, remember, auto, next), id)
  {
  }

  lemma EndingKeepsTask(s: Shell, t: Task, load: Load, id: nat)
    requires id in s.tasks && id < s.issued && t.Loading?
    ensures Keeps(s, EndLoading(s, t, load), id)
  {
  }

  lemma AttemptMoves(s: Shell, e: Event, id: nat, n: nat, t: Task)
    requires Awaits(s, id, n, t) && !Answers(e, id)
    ensures s.attempt == n ==> (Step(s, e).attempt == n <==> !Supersedes(s, e))
    ensures Step(s, e).attempt >= s.attempt && Step(s, e).paused
  {
  }

  lemma StepAwaits(s: Shell, e: Event, id: nat, n: nat, t: Task)
    requires Awaits(s, id, n, t) && !Answers(e, id)
    ensures Awaits(Step(s, e), id, n, t)
    ensures s.attempt == n ==> (Step(s, e).attempt == n <==> !Supersedes(s, e))
    ensures Step(s, e).attempt >= s.attempt
  {
    NumberedStep(s, e);
    AttemptMoves(s, e, id, n, t);
    TaskStays(s, id, e);
    if Step(s, e).attempt == n {
      NoNewDiscovery(s, e, n);
    }
  }

  ghost predicate AddsNoDiscovery(s: Shell, r: Shell) {
    forall x :: x in r.tasks && r.tasks[x].ManualDiscover? ==> x in s.tasks && s.tasks[x] == r.tasks[x]
  }

  lemma NoNewDiscovery(s: Shell, e: Event, n: nat)
    requires Step(s, e).attempt == n == s.attempt
    ensures AddsNoDiscovery(s, Step(s, e))
  {
    if e.LoadEnds? && e.task in s.tasks && s.tasks[e.task].Loading? {
      hide Continue;
      var d, t := Done(s, e.task), s.tasks[e.task];
      ContinuingAddsNoDiscovery(d, t.next);
      ContinuingAddsNoDiscovery(Clear(d, t.auto), t.next);
    } else if e.Discovered? && e.task in s.tasks {
      var d := Done(s, e.task);
      forall next ensures AddsNoDiscovery(d, Continue(d, next)) {
        ContinuingAddsNoDiscovery(d, next);
      }
      hide Continue;
    }
  }

  lemma ContinuingAddsNoDiscovery(s: Shell, next: Next)
    ensures AddsNoDiscovery(s, Continue(s, next))
    ensures Continue(s, next).attempt == s.attempt
  {
  }

  lemma {:induction false} RunAwaits(s: Shell, events: seq<Event>, id: nat, n: nat, t: Task)
    requires Awaits(s, id, n, t) && s.attempt == n && NeverAnswered(events, id)
    ensures Awaits(Run(s, events), id, n, t)
    ensures Run(s, events).attempt == n <==> !Superseded(s, events)
    decreases |events|
  {
    hide Step, Awaits, Supersedes;
    if events != [] {
      var m := |events| - 1;
      var before := events[..m];
      assert !Answers(events[m], id);
      RunAwaits(s, before, id, n, t);
      StepAwaits(Run(s, before), events[m], id, n, t);
      SupersededGrows(s, events);
      AwaitsIsLater(Run(s, before), id, n, t);
    }
  }

  lemma AwaitsIsLater(s: Shell, id: nat, n: nat, t: Task)
    requires Awaits(s, id, n, t)
    ensures s.attempt >= n
  {
  }

  lemma SupersededGrows(s: Shell, events: seq<Event>)
    requires events != []
    ensures var before, e := events[..|events| - 1], events[|events| - 1];
            Superseded(s, events) <==> Superseded(s, before) || Supersedes(Run(s, before), e)
  {
    hide Supersedes, Run;
    var m := |events| - 1;
    forall k | 0 <= k < m ensures events[..m][..k] == events[..k] && events[..m][k] == events[k] {}
    if Superseded(s, events[..m]) {
      var k :| 0 <= k < m && Supersedes(Run(s, events[..m][..k]), events[..m][k]);
      assert Supersedes(Run(s, events[..k]), events[k]);
    }
  }

  /** The connection is kept for the session exactly when that was asked for and it is not one of the two transports. */
  function KeptFor(conn: Connection, remember: bool): Option<Connection> {
    if remember && conn.token != EXTENSION_TRANSPORT && conn.token != LOCAL_TRANSPORT then Some(conn) else None
  }

  predicate SameConnection(s: Shell, r: Shell) {
    s.connection == r.connection && s.store == r.store && s.saved == r.saved
  }

  /** How a load acts: stale, it changes nothing; else it installs its connection or clears everything. */
  ghost predicate LoadActs(s: Shell, id: nat, conn: Connection, remember: bool, current: bool) {
    forall load :: var r := Step(s, LoadEnds(id, load));
      if !current then SameConnection(s, r)
      else if load == Online then
        r.connection == Some(conn) && r.store == Some(conn) && r.saved == KeptFor(conn, remember)
      else r.connection == None && r.store == None && r.saved == None
  }

  lemma ManualLoadActs(s: Shell, id: nat, n: nat, conn: Connection, remember: bool)
    requires id in s.tasks && s.tasks[id] == Loading(false, n, conn, remember, Nothing)
    ensures LoadActs(s, id, conn, remember, s.attempt == n)
  {
  }

  lemma ManualTaskAdded(s: Shell, e: Event)
    requires Inv(s) && Numbered(s)
    requires (e.ConnectToken? && e.candidate.Some?) || e == ConnectDiscovered
    ensures var w := Step(s, e);
            var t := if e.ConnectToken? then Loading(false, s.attempt + 2, e.candidate.value, e.remember, Nothing)
                     else ManualDiscover(s.attempt + 1);
            w.attempt == t.attempt && Awaits(w, s.issued, t.attempt, t)
  {
    assert forall id :: id in s.tasks ==> TaskOk(s, s.tasks[id]);
  }

  lemma RunIsOk(saved: Option<Connection>, candidate: Candidate, events: seq<Event>)
    ensures var s := Run(Mounted(saved, candidate), events); Inv(s) && Numbered(s)
  {
    MountedInv(saved, candidate);
    RunKeepsInv(Mounted(saved, candidate), events);
    RunIsNumbered(Mounted(saved, candidate), events);
  }

  /**
   After any run, a token connect does connect: through whatever happens before its load ends, that end
   installs the connection or clears everything, unless and only unless a manual action, leaving the page
   or a pairing came in between. Without a usable address everything is cleared at once.
   */
  lemma TokenConnectActsExactly(saved: Option<Connection>, candidate: Candidate, before: seq<Event>,
                                conn: Connection, remember: bool, others: seq<Event>)
    requires NeverAnswered(others, Run(Mounted(saved, candidate), before).issued)
    ensures var s := Run(Mounted(saved, candidate), before);
            var w := Step(s, ConnectToken(Some(conn), remember));
            LoadActs(Run(w, others), s.issued, conn, remember, !Superseded(w, others))
    ensures var w := Step(Run(Mounted(saved, candidate), before), ConnectToken(None, remember));
            w.connection == None && w.store == None && w.saved == None
  {
    var s := Run(Mounted(saved, candidate), before);
    RunIsOk(saved, candidate, before);
    ManualTaskAdded(s, ConnectToken(Some(conn), remember));
    var w := Step(s, ConnectToken(Some(conn), remember));
    var t := Loading(false, s.attempt + 2, conn, remember, Nothing);
    hide Run, Superseded, LoadActs, Inv, Numbered;
    RunAwaits(w, others, s.issued, t.attempt, t);
    AwaitedTask(Run(w, others), s.issued, t.attempt, t);
    ManualLoadActs(Run(w, others), s.issued, t.attempt, conn, remember);
  }

  lemma AwaitedTask(s: Shell, id: nat, n: nat, t: Task)
    requires Awaits(s, id, n, t)
    ensures id in s.tasks && s.tasks[id] == t && Numbered(s) && s.paused
  {
  }

  /**
   A local or extension connect waits for its discovery. If nothing superseded it, what is found is loaded
   as a token connect is, and never kept for the session; otherwise finding it changes nothing.
   */
  lemma DiscoveredConnectActsExactly(saved: Option<Connection>, candidate: Candidate, before: seq<Event>,
                                     conn: Connection, waiting: seq<Event>, loading: seq<Event>)
    requires var s := Run(Mounted(saved, candidate), before);
             NeverAnswered(waiting, s.issued) && NeverAnswered(loading, Run(Step(s, ConnectDiscovered), waiting).issued)
    ensures var s := Run(Mounted(saved, candidate), before);
            var w := Step(s, ConnectDiscovered);
            var v := Run(w, waiting);
            var d := Step(v, Discovered(s.issued, Some(Some(conn))));
            if Superseded(w, waiting) then d == Done(v, s.issued)
            else LoadActs(Run(d, loading), v.issued, conn, false, !Superseded(d, loading))
  {
    var s := Run(Mounted(saved, candidate), before);
    RunIsOk(saved, candidate, before);
    ManualTaskAdded(s, ConnectDiscovered);
    var w := Step(s, ConnectDiscovered);
    var t := ManualDiscover(s.attempt + 1);
    hide Run, Superseded, LoadActs, Inv, Numbered;
    RunAwaits(w, waiting, s.issued, t.attempt, t);
    var v := Run(w, waiting);
    FoundIsLoaded(v, s.issued, t.attempt, conn);
    if !Superseded(w, waiting) {
      var d := Step(v, Discovered(s.issued, Some(Some(conn))));
      var l := Loading(false, t.attempt + 1, conn, false, Nothing);
      RunAwaits(d, loading, v.issued, l.attempt, l);
      AwaitedTask(Run(d, loading), v.issued, l.attempt, l);
      ManualLoadActs(Run(d, loading), v.issued, l.attempt, conn, false);
    }
  }

  lemma FoundIsLoaded(v: Shell, id: nat, n: nat, conn: Connection)
    requires Awaits(v, id, n, ManualDiscover(n))
    ensures var d := Step(v, Discovered(id, Some(Some(conn))));
            if v.attempt == n then
              d.attempt == n + 1 && Awaits(d, v.issued, n + 1, Loading(false, n + 1, conn, false, Nothing))
            else d == Done(v, id)
  {
  }

  /**
   A code that was paired is loaded, whatever came before the answer: that load is a new attempt, which acts
   as the load of a token connect does. A code that was refused changes nothing.
   */
  lemma PairedConnectActsExactly(saved: Option<Connection>, candidate: Candidate, before: seq<Event>, remember: bool,
                                 conn: Connection, waiting: seq<Event>, loading: seq<Event>)
    requires var s := Run(Mounted(saved, candidate), before);
             && (forall i :: 0 <= i < |waiting| ==> !(waiting[i].Paired? && waiting[i].task == s.issued))
             && NeverAnswered(loading, Run(Step(s, ConnectByCode(remember)), waiting).issued)
    ensures var s := Run(Mounted(saved, candidate), before);
            var v := Run(Step(s, ConnectByCode(remember)), waiting);
            var d := Step(v, Paired(s.issued, Some(Some(conn))));
            && LoadActs(Run(d, loading), v.issued, conn, remember, !Superseded(d, loading))
            && Step(v, Paired(s.issued, None)) == Done(v, s.issued)
  {
    var s := Run(Mounted(saved, candidate), before);
    RunIsOk(saved, candidate, before);
    var w := Step(s, ConnectByCode(remember));
    NumberedStep(s, ConnectByCode(remember));
    StepKeeps(s, ConnectByCode(remember));
    hide Run, Superseded, LoadActs, Inv, Numbered;
    PairingWaits(w, s.issued, remember, waiting);
    var v := Run(w, waiting);
    PairedIsLoaded(v, s.issued, remember, conn);
    var d := Step(v, Paired(s.issued, Some(Some(conn))));
    var l := Loading(false, v.attempt + 1, conn, remember, Nothing);
    RunAwaits(d, loading, v.issued, l.attempt, l);
    AwaitedTask(Run(d, loading), v.issued, l.attempt, l);
    ManualLoadActs(Run(d, loading), v.issued, l.attempt, conn, remember);
  }

  lemma {:induction false} PairingWaits(s: Shell, id: nat, remember: bool, events: seq<Event>)
    requires Inv(s) && Numbered(s) && s.paused && id in s.tasks && s.tasks[id] == Pairing(remember)
    requires forall i :: 0 <= i < |events| ==> !(events[i].Paired? && events[i].task == id)
    ensures var r := Run(s, events); Inv(r) && Numbered(r) && r.paused && id in r.tasks && r.tasks[id] == Pairing(remember)
    decreases |events|
  {
    hide Inv, Numbered, Step;
    if events != [] {
      var r := Run(s, events[..|events| - 1]);
      PairingWaits(s, id, remember, events[..|events| - 1]);
      StepKeeps(r, events[|events| - 1]);
      NumberedStep(r, events[|events| - 1]);
      TaskStays(r, id, events[|events| - 1]);
    }
  }

  lemma PairedIsLoaded(v: Shell, id: nat, remember: bool, conn: Connection)
    requires Inv(v) && Numbered(v) && v.paused && id in v.tasks && v.tasks[id] == Pairing(remember)
    ensures var d := Step(v, Paired(id, Some(Some(conn))));
            && d.attempt == v.attempt + 1
            && Awaits(d, v.issued, v.attempt + 1, Loading(false, v.attempt + 1, conn, remember, Nothing))
    ensures Step(v, Paired(id, None)) == Done(v, id)
  {
    assert forall x :: x in v.tasks ==> TaskOk(v, v.tasks[x]);
  }

  // ---------------------------------------------------------------- the automatic restore does restore

  predicate IsQuiet(e: Event) {
    !IsManual(e) && !e.Unmount?
  }

  /** While nothing manual happens there is one automatic attempt at most, and it is the current one. */
  ghost predicate Chain(s: Shell) {
    && !s.paused && !s.unmounted && Numbered(s)
    && (forall x, y :: x in s.tasks && y in s.tasks ==> x == y)
    && (forall x :: x in s.tasks ==>
          && s.store.None? && !s.tasks[x].ManualDiscover? && !s.tasks[x].Pairing?
          && (s.tasks[x].Loading? ==> s.tasks[x].auto && s.tasks[x].attempt == s.attempt))
  }

  lemma StepKeepsChain(s: Shell, e: Event)
    requires Chain(s) && IsQuiet(e)
    ensures Chain(Step(s, e))
  {
    NumberedStep(s, e);
  }

  lemma {:induction false} RunKeepsChain(s: Shell, events: seq<Event>)
    requires Chain(s) && forall i :: 0 <= i < |events| ==> IsQuiet(events[i])
    ensures Chain(Run(s, events))
    decreases |events|
  {
    hide Chain, Step, IsQuiet;
    if events != [] {
      var n := |events| - 1;
      assert IsQuiet(events[n]);
      RunKeepsChain(s, events[..n]);
      StepKeepsChain(Run(s, events[..n]), events[n]);
    }
  }

  lemma MountedIsChain(saved: Option<Connection>, candidate: Candidate)
    ensures Chain(Mounted(saved, candidate))
  {
  }

  /** Nothing but the answer it waits for moves the one attempt. */
  lemma {:induction false} ChainWaits(s: Shell, id: nat, events: seq<Event>)
    requires Chain(s) && id in s.tasks
    requires forall i :: 0 <= i < |events| ==> IsQuiet(events[i]) && events[i].task != id
    ensures Run(s, events) == s
    decreases |events|
  {
    if events != [] {
      ChainWaits(s, id, events[..|events| - 1]);
      OtherTaskIgnored(s, id, events[|events| - 1]);
    }
  }

  lemma OtherTaskIgnored(s: Shell, id: nat, e: Event)
    requires Chain(s) && id in s.tasks && IsQuiet(e) && e.task != id
    ensures Step(s, e) == s
  {
  }

  lemma ChainLoadActs(s: Shell, id: nat)
    requires Chain(s) && id in s.tasks && s.tasks[id].Loading?
    ensures LoadActs(s, id, s.tasks[id].conn, s.tasks[id].remember, true)
  {
  }

  lemma ChainDiscovers(s: Shell, id: nat, conn: Connection)
    requires Chain(s) && id in s.tasks && (s.tasks[id].DiscoverLocal? || s.tasks[id].DiscoverExtension?)
    ensures var d := Step(s, Discovered(id, Some(Some(conn))));
            s.issued in d.tasks && d.tasks[s.issued].Loading? && d.tasks[s.issued].conn == conn && !d.tasks[s.issued].remember
  {
  }

  /**
   While nothing manual has happened, a Kernel that the restore loop finds is loaded, and the end of that
   load installs it, without keeping it for the session, or clears everything.
   */
  lemma RestoreConnects(saved: Option<Connection>, candidate: Candidate, before: seq<Event>, id: nat, conn: Connection,
                        loading: seq<Event>)
    requires forall i :: 0 <= i < |before| ==> IsQuiet(before[i])
    requires var s := Run(Mounted(saved, candidate), before);
             && id in s.tasks && (s.tasks[id].DiscoverLocal? || s.tasks[id].DiscoverExtension?)
             && forall i :: 0 <= i < |loading| ==> IsQuiet(loading[i]) && loading[i].task != s.issued
    ensures var s := Run(Mounted(saved, candidate), before);
            LoadActs(Run(Step(s, Discovered(id, Some(Some(conn)))), loading), s.issued, conn, false, true)
  {
    hide Chain, Run, LoadActs, Step;
    var s := Run(Mounted(saved, candidate), before);
    MountedIsChain(saved, candidate);
    RunKeepsChain(Mounted(saved, candidate), before);
    StepKeepsChain(s, Discovered(id, Some(Some(conn))));
    ChainDiscovers(s, id, conn);
    var d := Step(s, Discovered(id, Some(Some(conn))));
    ChainWaits(d, s.issued, loading);
    ChainLoadActs(d, s.issued);
  }

  /** A remembered session is loaded at once, and kept when its Kernel answers. */
  lemma RememberedConnects(remembered: Connection, conn: Connection, loading: seq<Event>)
    requires remembered.token != EXTENSION_TRANSPORT && remembered.token != LOCAL_TRANSPORT
    requires forall i :: 0 <= i < |loading| ==> IsQuiet(loading[i]) && loading[i].task != 0
    ensures LoadActs(Run(Mounted(Some(remembered), Some(conn)), loading), 0, conn, true, true)
  {
    var s := Mounted(Some(remembered), Some(conn));
    MountedIsChain(Some(remembered), Some(conn));
    ChainWaits(s, 0, loading);
    ChainLoadActs(s, 0);
  }

  // ---------------------------------------------------------------- the restore loop without a Kernel

  /** One look of the restore loop that does not lead to a connection. */
  datatype Look = Nobody | NoAddress | Unusable(conn: Connection, failed: bool)

  function LookEnd(s: Shell, id: nat, look: Look): Shell {
    match look
    case Nobody => Step(s, Discovered(id, None))
    case NoAddress => Step(s, Discovered(id, Some(None)))
    case Unusable(conn, failed) =>
      Step(Step(s, Discovered(id, Some(Some(conn)))), LoadEnds(s.issued, if failed then LoadFailed else Offline))
  }

  /** The latest task, if it is a pause, ends. */
  function PauseEnd(s: Shell): Shell {
    if s.issued > 0 then Step(s, TimerFires(s.issued - 1)) else s
  }

  function AfterLooks(candidate: Candidate, looks: seq<Look>): Shell
    decreases |looks|
  {
    if looks == [] then Mounted(None, candidate)
    else
      var s := AfterLooks(candidate, looks[..|looks| - 1]);
      if s.issued == 0 then s else PauseEnd(LookEnd(s, s.issued - 1, looks[|looks| - 1]))
  }

  /** What the k-th look waits for: five rounds of the local Kernel and then the extension, and nothing afterwards. */
  predicate LooksAt(s: Shell, k: nat) {
    if k >= 10 then s.tasks == map[]
    else s.issued > 0 && s.tasks == map[s.issued - 1 := if k % 2 == 0 then DiscoverLocal(k / 2) else DiscoverExtension(k / 2)]
  }

  predicate IsFree(s: Shell) {
    !s.paused && !s.unmounted && s.store.None?
  }

  /** A look that comes to nothing: the extension is looked for, or a pause or the end of the loop follows. */
  lemma LookEnds(s: Shell, k: nat, look: Look)
    requires IsFree(s) && k < 10 && LooksAt(s, k)
    ensures var r := LookEnd(s, s.issued - 1, look);
            && IsFree(r) && r.issued > 0
            && if k % 2 == 0 then r.tasks == map[r.issued - 1 := DiscoverExtension(k / 2)]
               else if k == 9 then r.tasks == map[]
               else r.tasks == map[r.issued - 1 := Sleeping(k / 2 + 1)]
  {
    var id := s.issued - 1;
    assert Done(s, id).tasks == map[];
    if look.Unusable? {
      var d := Step(s, Discovered(id, Some(Some(look.conn))));
      var l := Loading(true, s.attempt + 1, look.conn, false, if k % 2 == 0 then ThenExtension(k / 2) else ThenPause(k / 2));
      assert d.tasks == map[s.issued := l] && d.attempt == s.attempt + 1;
      assert Done(d, s.issued).tasks == map[];
    }
  }

  lemma LookIsTaken(s: Shell, k: nat, look: Look)
    requires IsFree(s) && k < 10 && LooksAt(s, k)
    ensures s.issued > 0
    ensures var r := PauseEnd(LookEnd(s, s.issued - 1, look)); LooksAt(r, k + 1) && IsFree(r)
  {
    LookEnds(s, k, look);
    var e := LookEnd(s, s.issued - 1, look);
    hide LookEnd;
    assert Done(e, e.issued - 1).tasks == map[];
  }

  /**
   Without a Kernel the restore loop looks ten times, in five rounds of the local one and the extension,
   however each look comes to nothing, and then it ends.
   */
  lemma {:induction false} RestoreLooksTenTimes(candidate: Candidate, looks: seq<Look>)
    requires |looks| <= 10
    ensures var s := AfterLooks(candidate, looks); LooksAt(s, |looks|) && IsFree(s)
    decreases |looks|
  {
    hide LookEnd, PauseEnd, LooksAt;
    if looks != [] {
      var n := |looks| - 1;
      RestoreLooksTenTimes(candidate, looks[..n]);
      LookIsTaken(AfterLooks(candidate, looks[..n]), n, looks[n]);
    } else {
      FirstLook(candidate);
    }
  }

  lemma FirstLook(candidate: Candidate)
    ensures var s := Mounted(None, candidate); LooksAt(s, 0) && IsFree(s)
  {
  }

  // ---------------------------------------------------------------- the component's refs and state

  class Component {
    var attempt: nat
    var paused: bool
    var unmounted: bool
    var connection: Option<Connection>
    var store: Option<Connection>
    var saved: Option<Connection>
    var tasks: map<nat, Task>
    var issued: nat
    var writes: seq<Write>

    ghost function Now(): Shell reads this {
      Shell(attempt, paused, unmounted, connection, store, saved, tasks, issued, writes)
    }

    constructor (remembered: Option<Connection>, candidate: Candidate)
      ensures Now() == Mounted(remembered, candidate)
    {
      attempt, paused, unmounted, connection, store := 0, false, false, None, None;
      saved, tasks, issued, writes := remembered, map[], 0, [];
      new;
      if saved.Some? && saved.value.token != EXTENSION_TRANSPORT && saved.value.token != LOCAL_TRANSPORT {
        StartConnect(candidate, true, true, Nothing);
      } else {
        StartRestore(0);
      }
    }

    method Suspend(task: Task)
      modifies this`tasks, this`issued
      ensures Now() == Add(old(Now()), task)
    {
      tasks := tasks[issued := task];
      issued := issued + 1;
    }

    method StartRestore(round: nat)
      modifies this`tasks, this`issued
      ensures Now() == Restore(old(Now()), round)
    {
      if unmounted || paused || store.Some? {
        return;
      }
      Suspend(DiscoverLocal(round));
    }

    method CarryOn(next: Next)
      modifies this`tasks, this`issued
      ensures Now() == Continue(old(Now()), next)
    {
      match next {
        case Nothing =>
        case ThenExtension(round) => Suspend(DiscoverExtension(round));
        case ThenPause(round) =>
          if !unmounted && !paused && round + 1 < MAX_ROUNDS {
            Suspend(Sleeping(round + 1));
          }
      }
    }

    method ClearAll(auto: bool)
      modifies this`connection, this`store, this`saved, this`writes
      ensures Now() == Clear(old(Now()), auto)
    {
      connection, store, saved := None, None, None;
      writes := writes + [Cleared(auto)];
    }

    method StartConnect(candidate: Candidate, remember: bool, auto: bool, next: Next)
      modifies this
      ensures Now() == ConnectWith(old(Now()), candidate, remember, auto, next)
    {
      attempt := attempt + 1;
      if candidate.None? {
        ClearAll(auto);
        CarryOn(next);
      } else {
        Suspend(Loading(auto, attempt, candidate.value, remember, next));
      }
    }

    method FinishLoading(t: Task, load: Load)
      requires t.Loading?
      modifies this
      ensures Now() == EndLoading(old(Now()), t, load)
    {
      if t.attempt != attempt {
        CarryOn(t.next);
      } else if load == Online {
        connection := Some(t.conn);
        store := Some(t.conn);
        if t.remember && t.conn.token != EXTENSION_TRANSPORT && t.conn.token != LOCAL_TRANSPORT {
          saved := Some(t.conn);
        } else {
          saved := None;
        }
        writes := writes + [Installed(t.conn, t.auto)];
      } else {
        ClearAll(t.auto);
        CarryOn(t.next);
      }
    }

    method BeginManual()
      modifies this`paused, this`attempt
      ensures Now() == Manual(old(Now()))
    {
      paused := true;
      attempt := attempt + 1;
    }

    method ConnectManually(candidate: Candidate, remember: bool)
      modifies this
      ensures Now() == Step(old(Now()), ConnectToken(candidate, remember))
    {
      BeginManual();
      StartConnect(candidate, remember, false, Nothing);
    }

    method PairWithCode(remember: bool)
      modifies this
      ensures Now() == Step(old(Now()), ConnectByCode(remember))
    {
      BeginManual();
      Suspend(Pairing(remember));
    }

    /** connectLocal and connectExtension. */
    method ConnectByDiscovery()
      modifies this
      ensures Now() == Step(old(Now()), ConnectDiscovered)
    {
      BeginManual();
      Suspend(ManualDiscover(attempt));
    }

    method DisconnectNow()
      modifies this
      ensures Now() == Step(old(Now()), Disconnect)
    {
      BeginManual();
      ClearAll(false);
    }

    method Resume(e: Event)
      requires !IsManual(e) && !e.Unmount?
      modifies this
      ensures Now() == Step(old(Now()), e)
    {
      if e.task !in tasks {
        return;
      }
      var t := tasks[e.task];
      if e.Discovered? && (t.DiscoverLocal? || t.DiscoverExtension?) {
        tasks := tasks - {e.task};
        var next := if t.DiscoverLocal? then ThenExtension(t.round) else ThenPause(t.round);
        if e.found.Some? && !unmounted && !paused && store.None? {
          StartConnect(e.found.value, false, true, next);
        } else {
          CarryOn(next);
        }
      } else if e.Discovered? && t.ManualDiscover? {
        tasks := tasks - {e.task};
        if e.found.Some? && t.attempt == attempt {
          StartConnect(e.found.value, false, false, Nothing);
        }
      } else if e.Paired? && t.Pairing? {
        tasks := tasks - {e.task};
        if e.found.Some? {
          StartConnect(e.found.value, t.remember, false, Nothing);
        }
      } else if e.LoadEnds? && t.Loading? {
        tasks := tasks - {e.task};
        FinishLoading(t, e.load);
      } else if e.TimerFires? && t.Sleeping? {
        tasks := tasks - {e.task};
        StartRestore(t.round);
      }
    }
  }
}
