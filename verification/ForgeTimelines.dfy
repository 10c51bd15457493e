/** What the scheduler keeps true over every sequence of updates. */
module ForgeTimelines {
  import opened ForgeScheduler
  import R = Recency

  /** The pipeline order of one record, and which times it has. */
  ghost predicate InOrder(rt: Runtime) {
    && rt.launchAt < rt.landAt
    && (rt.evidenceAt.At? <==> HasEvidence(rt.kind, rt.readFailed))
    && (rt.evidenceAt.At? ==> rt.evidenceAt.s >= rt.landAt + 0.45)
    && (rt.strikeAt.At? <==> rt.kind == Gold)
    && (rt.strikeAt.At? ==> rt.strikeAt.s >= rt.evidenceAt.s + 1.85 && rt.verdictAt == At(rt.strikeAt.s - 0.7))
    && (rt.verdictAt.At? <==> rt.kind == Gold || rt.kind == Ash)
  }

  /** Times of different records are at least `gap` apart, and none is past the cursor. */
  ghost predicate Spaced(m: Runtimes, stamp: Runtime -> Time, cursor: Time, gap: real) {
    && (forall id :: id in m && stamp(m[id]).At? ==> cursor.At? && stamp(m[id]).s <= cursor.s)
    && (forall a, b :: a in m && b in m && a != b && stamp(m[a]).At? && stamp(m[b]).At? ==>
          Apart(stamp(m[a]).s, stamp(m[b]).s, gap))
  }

  predicate Apart(x: real, y: real, gap: real) {
    x - y >= gap || y - x >= gap
  }

  function LaunchOf(rt: Runtime): Time { At(rt.launchAt) }
  function EvidenceOf(rt: Runtime): Time { rt.evidenceAt }
  function StrikeOf(rt: Runtime): Time { rt.strikeAt }
  function AshOf(rt: Runtime): Time { if rt.kind == Ash then rt.verdictAt else Never }

  ghost predicate Timed(m: Runtimes, c: Cursor) {
    && Spaced(m, LaunchOf, c.launch, 0.26)
    && Spaced(m, EvidenceOf, c.evidence, 0.3)
    && Spaced(m, StrikeOf, c.strike, 0.95)
    && Spaced(m, AshOf, c.ash, 0.16)
  }

  ghost predicate DistinctRecords(threads: seq<SceneThread>) {
    && (forall i :: 0 <= i < |threads| ==> threads[i].distance >= 0.0)
    && (forall i, j :: 0 <= i < j < |threads| ==> threads[i].id != threads[j].id)
  }

  /** The invariant of the scheduler. */
  ghost predicate Good(f: Forge) {
    && (forall id :: id in f.runtimes ==> InOrder(f.runtimes[id]))
    && Timed(f.runtimes, f.cursor)
    && (forall id :: id in f.runtimes <==> id in f.order)
    && (forall i, j :: 0 <= i < j < |f.order| ==> f.order[i] != f.order[j])
  }

  // ---------------------------------------------------------------- one record

  lemma PlacedInOrder(p: Previous, th: SceneThread, c: Cursor, start: real, t: real, narrow: bool)
    requires p.Had? ==> InOrder(p.rt)
    requires th.distance >= 0.0
    ensures InOrder(Placed(p, th, c, start, t, narrow).0)
  {
    assert FlightTime(th.distance) > 0.0;
  }

  /** A stamp that is dropped, carried over, or set past the cursor keeps the records apart. */
  lemma SpacedOneMore(m: Runtimes, id: string, rt: Runtime, stamp: Runtime -> Time, c: Time, c': Time, gap: real)
    requires gap >= 0.0 && Spaced(m, stamp, c, gap)
    requires || (c' == c && stamp(rt).Never?)
             || (c' == c && id in m && stamp(rt) == stamp(m[id]))
             || (c' == stamp(rt) && stamp(rt).At? && (c.At? ==> stamp(rt).s >= c.s + gap))
    ensures Spaced(m[id := rt], stamp, c', gap)
  {
  }

  lemma PlacedTimed(m: Runtimes, th: SceneThread, c: Cursor, start: real, t: real, narrow: bool)
    requires Timed(m, c)
    ensures var (rt, c') := Placed(Lookup(m, th.id), th, c, start, t, narrow);
            Timed(m[th.id := rt], c')
  {
    hide Spaced, FlightTime;
    var (rt, c') := Placed(Lookup(m, th.id), th, c, start, t, narrow);
    SpacedOneMore(m, th.id, rt, LaunchOf, c.launch, c'.launch, 0.26);
    SpacedOneMore(m, th.id, rt, EvidenceOf, c.evidence, c'.evidence, 0.3);
    SpacedOneMore(m, th.id, rt, StrikeOf, c.strike, c'.strike, 0.95);
    SpacedOneMore(m, th.id, rt, AshOf, c.ash, c'.ash, 0.16);
  }

  // ---------------------------------------------------------------- each time is as early as it may be

  /** The time is not before `a` nor `b`, and not closer than `gap` behind the cursor. */
  predicate Meets(x: real, a: real, cursor: Time, gap: real, b: real) {
    x >= a && x >= b && (cursor.At? ==> x >= cursor.s + gap)
  }

  /** The least time that does. */
  ghost predicate IsLeast(x: real, a: real, cursor: Time, gap: real, b: real) {
    Meets(x, a, cursor, gap, b) && forall y :: Meets(y, a, cursor, gap, b) ==> x <= y
  }

  predicate WantsEvidence(th: SceneThread) {
    th.kind == Thread || th.kind == Gold || (th.kind == Ash && !th.readFailed)
  }

  /** A new record is launched as early as it may be, and lands after its flight; the others fly on. */
  ghost predicate LaunchIsLeast(p: Previous, th: SceneThread, c: Cursor, c': Cursor, rt: Runtime, start: real, narrow: bool) {
    if p.NoRuntime? then
      && IsLeast(rt.launchAt, start, c.launch, if narrow then 0.34 else 0.26, start) && c'.launch == At(rt.launchAt)
      && rt.landAt == rt.launchAt + 0.75 + (if th.distance < 1100.0 then th.distance / 1100.0 else 1.0)
    else rt.launchAt == p.rt.launchAt && rt.landAt == p.rt.landAt && c'.launch == c.launch
  }

  /** Evidence starts as early as it may once the record has it, and then stays. */
  ghost predicate EvidenceIsLeast(p: Previous, th: SceneThread, c: Cursor, c': Cursor, rt: Runtime, t: real) {
    if !WantsEvidence(th) then rt.evidenceAt == Never && c'.evidence == c.evidence
    else if p.NoRuntime? || p.rt.evidenceAt.Never? then
      rt.evidenceAt.At? && c'.evidence == rt.evidenceAt
      && IsLeast(rt.evidenceAt.s, rt.landAt + 0.45, c.evidence, 0.3, t + 0.1)
    else rt.evidenceAt == p.rt.evidenceAt && c'.evidence == c.evidence
  }

  /** A record that changed its kind is struck or turns to ash as early as it may; the others keep their times. */
  ghost predicate VerdictIsLeast(p: Previous, th: SceneThread, c: Cursor, c': Cursor, rt: Runtime, t: real) {
    if p.Had? && p.rt.kind == th.kind then
      rt.strikeAt == p.rt.strikeAt && rt.verdictAt == p.rt.verdictAt && c'.strike == c.strike && c'.ash == c.ash
    else match th.kind
      case Gold =>
        && rt.strikeAt.At? && c'.strike == rt.strikeAt && c'.ash == c.ash && rt.verdictAt == At(rt.strikeAt.s - 0.7)
        && rt.evidenceAt.At? && IsLeast(rt.strikeAt.s, rt.evidenceAt.s + 1.85, c.strike, 0.95, t + 0.8)
      case Ash =>
        && rt.strikeAt == Never && rt.verdictAt.At? && c'.ash == rt.verdictAt && c'.strike == c.strike
        && (!th.readFailed ==> rt.evidenceAt.At?)
        && IsLeast(rt.verdictAt.s, if th.readFailed then rt.landAt + 0.7 else rt.evidenceAt.s + 1.95, c.ash, 0.16, t + 0.1)
      case _ => rt.strikeAt == Never && rt.verdictAt == Never && c'.strike == c.strike && c'.ash == c.ash
  }

  /** Everything that an update sets is the least time that meets its bounds; what it does not set it keeps. */
  lemma PlacedLeast(p: Previous, th: SceneThread, c: Cursor, start: real, t: real, narrow: bool)
    requires p.Had? ==> InOrder(p.rt)
    ensures var (rt, c') := Placed(p, th, c, start, t, narrow);
            && rt.kind == th.kind && rt.readFailed == th.readFailed
            && LaunchIsLeast(p, th, c, c', rt, start, narrow)
            && EvidenceIsLeast(p, th, c, c', rt, t)
            && VerdictIsLeast(p, th, c, c', rt, t)
  {
    hide Launched, Evidenced, Judged, LaunchIsLeast, EvidenceIsLeast, VerdictIsLeast;
    LaunchedLeast(p, th, c, start, narrow);
    LaunchedKeeps(p, th, c, start, narrow);
    var (rt0, c0) := Launched(p, th, c, start, narrow);
    EvidencedLeast(p, rt0, th, c0, t);
    EvidencedKeeps(p, rt0, th, c0, t);
    var (rt1, c1) := Evidenced(p, rt0, th, c0, t);
    JudgedLeast(p, rt1, th, c1, t);
    JudgedKeeps(p, rt1, th, c1, t);
    var (rt2, c') := Judged(p, rt1, th, c1, t);
    var rt := rt2.(kind := th.kind, readFailed := th.readFailed);
    LaunchStays(p, th, c, c0, c', rt0, rt, start, narrow);
    EvidenceStays(p, th, c, c0, c1, c', rt1, rt, t);
    VerdictStays(p, th, c, c1, c', rt2, t);
  }

  lemma LaunchStays(p: Previous, th: SceneThread, c: Cursor, c0: Cursor, c': Cursor, rt0: Runtime, rt: Runtime,
                    start: real, narrow: bool)
    requires LaunchIsLeast(p, th, c, c0, rt0, start, narrow)
    requires rt.launchAt == rt0.launchAt && rt.landAt == rt0.landAt && c'.launch == c0.launch
    ensures LaunchIsLeast(p, th, c, c', rt, start, narrow)
  {
    hide IsLeast;
  }

  lemma EvidenceStays(p: Previous, th: SceneThread, c: Cursor, c0: Cursor, c1: Cursor, c': Cursor, rt1: Runtime, rt: Runtime,
                      t: real)
    requires EvidenceIsLeast(p, th, c0, c1, rt1, t) && c0.evidence == c.evidence
    requires rt.evidenceAt == rt1.evidenceAt && rt.landAt == rt1.landAt && c'.evidence == c1.evidence
    ensures EvidenceIsLeast(p, th, c, c', rt, t)
  {
    hide IsLeast;
  }

  lemma VerdictStays(p: Previous, th: SceneThread, c: Cursor, c1: Cursor, c': Cursor, rt2: Runtime, t: real)
    requires VerdictIsLeast(p, th, c1, c', rt2, t) && c1.strike == c.strike && c1.ash == c.ash
    ensures VerdictIsLeast(p, th, c, c', rt2.(kind := th.kind, readFailed := th.readFailed), t)
  {
    hide IsLeast;
  }

  lemma LaunchedLeast(p: Previous, th: SceneThread, c: Cursor, start: real, narrow: bool)
    ensures var (rt, c') := Launched(p, th, c, start, narrow); LaunchIsLeast(p, th, c, c', rt, start, narrow)
  {
    FlightIs(th.distance);
    LeastIs(start, c.launch, if narrow then 0.34 else 0.26, start);
    hide FlightTime, IsLeast;
  }

  lemma LaunchedKeeps(p: Previous, th: SceneThread, c: Cursor, start: real, narrow: bool)
    ensures var (rt, c') := Launched(p, th, c, start, narrow);
            c'.evidence == c.evidence && c'.strike == c.strike && c'.ash == c.ash && (p.Had? ==> rt == p.rt)
            && (p.NoRuntime? ==> rt.strikeAt == Never && rt.verdictAt == Never)
  {
    hide FlightTime;
  }

  lemma EvidencedLeast(p: Previous, rt0: Runtime, th: SceneThread, c: Cursor, t: real)
    requires p.Had? ==> rt0 == p.rt
    ensures var (rt, c') := Evidenced(p, rt0, th, c, t); EvidenceIsLeast(p, th, c, c', rt, t)
  {
    LeastIs(rt0.landAt + 0.45, c.evidence, 0.3, t + 0.1);
    hide IsLeast;
  }

  lemma EvidencedKeeps(p: Previous, rt0: Runtime, th: SceneThread, c: Cursor, t: real)
    ensures var (rt, c') := Evidenced(p, rt0, th, c, t);
            && rt == rt0.(evidenceAt := rt.evidenceAt) && c' == c.(evidence := c'.evidence)
            && (WantsEvidence(th) <==> HasEvidence(th.kind, th.readFailed))
            && (HasEvidence(th.kind, th.readFailed) && (p.Had? && p.rt.evidenceAt.At? ==> rt0 == p.rt) ==> rt.evidenceAt.At?)
  {
  }

  lemma JudgedLeast(p: Previous, rt1: Runtime, th: SceneThread, c: Cursor, t: real)
    requires th.kind == Gold || (th.kind == Ash && !th.readFailed) ==> rt1.evidenceAt.At?
    requires p.Had? ==> rt1.strikeAt == p.rt.strikeAt && rt1.verdictAt == p.rt.verdictAt
    requires p.NoRuntime? ==> rt1.strikeAt == Never && rt1.verdictAt == Never
    requires p.Had? ==> InOrder(p.rt)
    ensures var (rt, c') := Judged(p, rt1, th, c, t); VerdictIsLeast(p, th, c, c', rt, t)
  {
    LeastIs(rt1.landAt + 0.7, c.ash, 0.16, t + 0.1);
    if rt1.evidenceAt.At? {
      LeastIs(rt1.evidenceAt.s + 1.85, c.strike, 0.95, t + 0.8);
      LeastIs(rt1.evidenceAt.s + 1.95, c.ash, 0.16, t + 0.1);
    }
    hide IsLeast;
  }

  lemma JudgedKeeps(p: Previous, rt1: Runtime, th: SceneThread, c: Cursor, t: real)
    requires th.kind == Gold || (th.kind == Ash && !th.readFailed) ==> rt1.evidenceAt.At?
    ensures var (rt, c') := Judged(p, rt1, th, c, t);
            rt.launchAt == rt1.launchAt && rt.landAt == rt1.landAt && rt.evidenceAt == rt1.evidenceAt
            && c'.launch == c.launch && c'.evidence == c.evidence
  {
  }

  lemma FlightIs(distance: real)
    ensures FlightTime(distance) == 0.75 + (if distance < 1100.0 then distance / 1100.0 else 1.0)
  {
    var share := distance / 1100.0;
    assert share * 1100.0 == distance;
  }

  lemma LeastIs(a: real, cursor: Time, gap: real, b: real)
    ensures IsLeast(Max(After(a, cursor, gap), b), a, cursor, gap, b)
  {
  }

  // ---------------------------------------------------------------- ash verdicts follow what was read

  /** A verdict of ash waits for the failed read, or for the Evidence to be drawn and cooled. */
  predicate VerdictInOrder(rt: Runtime) {
    rt.kind == Ash ==>
      rt.verdictAt.At? && (if rt.readFailed then rt.verdictAt.s >= rt.landAt + 0.7
                           else rt.evidenceAt.At? && rt.verdictAt.s >= rt.evidenceAt.s + 1.95)
  }

  /** An ash record whose read had failed is now said to have been read. */
  predicate Unfails(p: Previous, th: SceneThread) {
    p.Had? && p.rt.kind == Ash && p.rt.readFailed && th.kind == Ash && !th.readFailed
  }

  /**
   Every update keeps an ash verdict behind what was read, except that a failed read that turns into a
   successful one keeps its old verdict: it is then in order exactly if that was late enough.
   */
  lemma PlacedVerdictExactly(p: Previous, th: SceneThread, c: Cursor, start: real, t: real, narrow: bool)
    requires p.Had? ==> InOrder(p.rt) && VerdictInOrder(p.rt)
    ensures var rt := Placed(p, th, c, start, t, narrow).0;
            if Unfails(p, th) then
              rt.verdictAt == p.rt.verdictAt && rt.evidenceAt.At?
              && (VerdictInOrder(rt) <==> p.rt.verdictAt.At? && p.rt.verdictAt.s >= rt.evidenceAt.s + 1.95)
            else VerdictInOrder(rt)
  {
    PlacedLeast(p, th, c, start, t, narrow);
    hide Placed;
  }

  // ---------------------------------------------------------------- one update

  lemma {:induction false} PlacedAllKeys(before: Runtimes, threads: seq<SceneThread>, c: Cursor, start: real, t: real, narrow: bool)
    ensures forall id :: id in PlacedAll(before, threads, c, start, t, narrow).0 <==> id in Ids(threads)
  {
    if threads != [] {
      var n := |threads| - 1;
      PlacedAllKeys(before, threads[..n], c, start, t, narrow);
      assert Ids(threads) == Ids(threads[..n]) + [threads[n].id];
    }
  }

  lemma {:induction false} PlacedAllTimed(before: Runtimes, threads: seq<SceneThread>, c: Cursor, start: real, t: real, narrow: bool)
    requires Timed(before, c) && DistinctRecords(threads)
    requires forall id :: id in before ==> InOrder(before[id])
    ensures var (next, c') := PlacedAll(before, threads, c, start, t, narrow);
            && Timed(before + next, c')
            && forall id :: id in next ==> InOrder(next[id])
  {
    hide Timed, InOrder, Placed;
    if threads == [] {
      assert before + map[] == before;
    } else {
      var n := |threads| - 1;
      var th := threads[n];
      var (next, c') := PlacedAll(before, threads[..n], c, start, t, narrow);
      PlacedAllTimed(before, threads[..n], c, start, t, narrow);
      PlacedAllKeys(before, threads[..n], c, start, t, narrow);
      var (rt, c'') := Placed(Lookup(before, th.id), th, c', start, t, narrow);
      assert th.id !in next;
      assert Lookup(before + next, th.id) == Lookup(before, th.id);
      PlacedTimed(before + next, th, c', start, t, narrow);
      assert (before + next)[th.id := rt] == before + next[th.id := rt];
      PlacedInOrder(Lookup(before, th.id), th, c', start, t, narrow);
    }
  }

  lemma SpacedPart(m: Runtimes, part: Runtimes, stamp: Runtime -> Time, c: Time, gap: real)
    requires Spaced(m, stamp, c, gap)
    requires forall id :: id in part ==> id in m && m[id] == part[id]
    ensures Spaced(part, stamp, c, gap)
  {
  }

  lemma NothingTimed()
    ensures Timed(map[], NO_CURSOR)
  {
  }

  lemma TimedPart(m: Runtimes, part: Runtimes, c: Cursor)
    requires Timed(m, c) && forall id :: id in part ==> id in m && m[id] == part[id]
    ensures Timed(part, c)
  {
    hide Spaced;
    SpacedPart(m, part, LaunchOf, c.launch, 0.26);
    SpacedPart(m, part, EvidenceOf, c.evidence, 0.3);
    SpacedPart(m, part, StrikeOf, c.strike, 0.95);
    SpacedPart(m, part, AshOf, c.ash, 0.16);
  }

  /** Every update of every scene keeps the invariant; only distinct record ids are needed. */
  lemma UpdateKeepsGood(f: Forge, spec: SceneSpec, t: real)
    requires Good(f) && DistinctRecords(spec.threads)
    ensures Good(Updated(f, spec, t))
  {
    NothingTimed();
    hide PlacedAll, InOrder, Timed;
    var replay := IsReplay(f, spec);
    var before, c := if replay then map[] else f.runtimes, if replay then NO_CURSOR else f.cursor;
    var start := t + (if replay then 0.35 else 0.1);
    var (next, c') := PlacedAll(before, spec.threads, c, start, t, spec.narrow);
    PlacedAllTimed(before, spec.threads, c, start, t, spec.narrow);
    PlacedAllKeys(before, spec.threads, c, start, t, spec.narrow);
    TimedPart(before + next, next, c');
    assert Updated(f, spec, t) == Forge(next, Ids(spec.threads), c', Replayed(spec.replay));
  }

  datatype Change = Change(spec: SceneSpec, t: real)

  function Run(f: Forge, changes: seq<Change>): Forge
    decreases |changes|
  {
    if changes == [] then f
    else var last := changes[|changes| - 1]; Updated(Run(f, changes[..|changes| - 1]), last.spec, last.t)
  }

  /** Spacing and pipeline order after any sequence of updates, replays included. */
  lemma {:induction false} RunStaysGood(changes: seq<Change>)
    requires forall i :: 0 <= i < |changes| ==> DistinctRecords(changes[i].spec.threads)
    ensures Good(Run(COLD, changes))
    decreases |changes|
  {
    if changes != [] {
      hide Updated, DistinctRecords, Good;
      RunStaysGood(changes[..|changes| - 1]);
      UpdateKeepsGood(Run(COLD, changes[..|changes| - 1]), changes[|changes| - 1].spec, changes[|changes| - 1].t);
    } else {
      assert Good(COLD);
    }
  }

  /** On a replay the records are launched one gap after the other, the first 0.35 s from now. */
  lemma {:induction false} ReplayLaunches(threads: seq<SceneThread>, start: real, t: real, narrow: bool, i: nat)
    requires DistinctRecords(threads) && i < |threads|
    ensures var (next, c) := PlacedAll(map[], threads, NO_CURSOR, start, t, narrow);
            var gap := if narrow then 0.34 else 0.26;
            && threads[i].id in next && next[threads[i].id].launchAt == start + i as real * gap
            && c.launch == At(start + (|threads| - 1) as real * gap)
  {
    hide Judged, Evidenced, FlightTime;
    var n := |threads| - 1;
    var (before, c0) := PlacedAll(map[], threads[..n], NO_CURSOR, start, t, narrow);
    LaunchedNow(threads[n], c0, start, t, narrow);
    hide Placed;
    if n > 0 {
      ReplayLaunches(threads[..n], start, t, narrow, if i < n then i else 0);
    } else {
      assert threads[..0] == [];
    }
  }

  lemma LaunchedNow(th: SceneThread, c: Cursor, start: real, t: real, narrow: bool)
    ensures var (rt, c') := Placed(NoRuntime, th, c, start, t, narrow);
            && rt.launchAt == (if c.launch.At? && c.launch.s + (if narrow then 0.34 else 0.26) > start
                               then c.launch.s + (if narrow then 0.34 else 0.26) else start)
            && c'.launch == At(rt.launchAt)
  {
    hide FlightTime;
  }

  /** An update launches its new records from 0.1 s on, or from 0.35 s on when it replays the whole scene. */
  lemma UpdateLaunches(f: Forge, spec: SceneSpec, t: real, i: nat)
    requires DistinctRecords(spec.threads) && i < |spec.threads|
    ensures var id := spec.threads[i].id;
            id in Updated(f, spec, t).runtimes
            && var launch := Updated(f, spec, t).runtimes[id].launchAt;
               if f.lastReplay != Replayed(spec.replay) then launch == t + 0.35 + i as real * (if spec.narrow then 0.34 else 0.26)
               else if id !in f.runtimes then launch >= t + 0.1
               else launch == f.runtimes[id].launchAt
  {
    hide Judged, Evidenced, FlightTime, PlacedAll;
    if IsReplay(f, spec) {
      ReplayLaunches(spec.threads, t + 0.35, t, spec.narrow, i);
    } else {
      var ci := PlacedAt(f.runtimes, spec.threads, f.cursor, t + 0.1, t, spec.narrow, i);
      if spec.threads[i].id !in f.runtimes {
        LaunchedNow(spec.threads[i], ci, t + 0.1, t, spec.narrow);
      } else {
        KeptLaunch(f.runtimes[spec.threads[i].id], spec.threads[i], ci, t + 0.1, t, spec.narrow);
      }
    }
  }

  lemma KeptLaunch(rt: Runtime, th: SceneThread, c: Cursor, start: real, t: real, narrow: bool)
    ensures Placed(Had(rt), th, c, start, t, narrow).0.launchAt == rt.launchAt
  {
    hide FlightTime;
  }

  ghost predicate VerdictsInOrder(f: Forge) {
    forall id :: id in f.runtimes ==> VerdictInOrder(f.runtimes[id])
  }

  /** No failed read of the scene turns into a successful one. */
  ghost predicate KeepsFailures(f: Forge, spec: SceneSpec) {
    IsReplay(f, spec) || forall i :: 0 <= i < |spec.threads| ==> !Unfails(Lookup(f.runtimes, spec.threads[i].id), spec.threads[i])
  }

  lemma UpdateKeepsVerdicts(f: Forge, spec: SceneSpec, t: real)
    requires Good(f) && DistinctRecords(spec.threads) && VerdictsInOrder(f) && KeepsFailures(f, spec)
    ensures VerdictsInOrder(Updated(f, spec, t))
  {
    hide Placed, PlacedAll, InOrder, VerdictInOrder, Timed, Unfails;
    var replay := IsReplay(f, spec);
    var before, c := if replay then map[] else f.runtimes, if replay then NO_CURSOR else f.cursor;
    var start := t + (if replay then 0.35 else 0.1);
    var next := Updated(f, spec, t).runtimes;
    PlacedAllKeys(before, spec.threads, c, start, t, spec.narrow);
    forall id | id in next ensures VerdictInOrder(next[id]) {
      var i :| 0 <= i < |spec.threads| && Ids(spec.threads)[i] == id;
      var ci := PlacedAt(before, spec.threads, c, start, t, spec.narrow, i);
      var th := spec.threads[i];
      assert !Unfails(Lookup(before, th.id), th) by { NewNeverUnfails(th); }
      PlacedVerdictExactly(Lookup(before, th.id), th, ci, start, t, spec.narrow);
    }
  }

  lemma NewNeverUnfails(th: SceneThread)
    ensures !Unfails(NoRuntime, th)
  {
  }

  ghost predicate AllKeepFailures(changes: seq<Change>)
    decreases |changes|
  {
    changes == [] || (AllKeepFailures(changes[..|changes| - 1])
                      && KeepsFailures(Run(COLD, changes[..|changes| - 1]), changes[|changes| - 1].spec))
  }

  /** After every sequence of updates in which failed reads stay failed, every ash verdict follows what was read. */
  lemma {:induction false} RunKeepsVerdicts(changes: seq<Change>)
    requires forall i :: 0 <= i < |changes| ==> DistinctRecords(changes[i].spec.threads)
    requires AllKeepFailures(changes)
    ensures VerdictsInOrder(Run(COLD, changes))
    decreases |changes|
  {
    hide Updated, DistinctRecords, Good, VerdictsInOrder, KeepsFailures;
    if changes != [] {
      var n := |changes| - 1;
      RunStaysGood(changes[..n]);
      RunKeepsVerdicts(changes[..n]);
      UpdateKeepsVerdicts(Run(COLD, changes[..n]), changes[n].spec, changes[n].t);
    } else {
      assert VerdictsInOrder(COLD) by { ColdInOrder(); }
    }
  }

  lemma ColdInOrder()
    ensures VerdictsInOrder(COLD)
  {
  }

  // ---------------------------------------------------------------- stages over time

  lemma StageNeverFalls(rt: Runtime, t1: real, t2: real)
    requires t1 <= t2
    ensures StageRank(StageAt(rt, t1)) <= StageRank(StageAt(rt, t2))
  {
  }

  /** A record only moves forward: spark to thread to gold or ash; a failed read stays a failed read. */
  predicate Advances(rt: Runtime, kind: Kind, readFailed: bool) {
    match rt.kind
    case Spark => true
    case Thread => kind == Thread || kind == Gold || (kind == Ash && !readFailed)
    case Gold => kind == Gold
    case Ash => kind == Ash && readFailed == rt.readFailed
  }

  /** The scene keeps every record and only advances them, without a replay. */
  ghost predicate AdvancesAll(f: Forge, spec: SceneSpec) {
    && !IsReplay(f, spec)
    && DistinctRecords(spec.threads)
    && (forall id :: id in f.runtimes ==> exists i :: 0 <= i < |spec.threads| && spec.threads[i].id == id)
    && (forall i :: 0 <= i < |spec.threads| && spec.threads[i].id in f.runtimes ==>
          Advances(f.runtimes[spec.threads[i].id], spec.threads[i].kind, spec.threads[i].readFailed))
  }

  /** At the moment of an advancing update no stage falls, and a tempered ingot keeps its strike. */
  lemma PlacedNeverFalls(rt: Runtime, th: SceneThread, c: Cursor, start: real, t: real, narrow: bool)
    requires InOrder(rt) && Advances(rt, th.kind, th.readFailed) && th.distance >= 0.0
    ensures var rt' := Placed(Had(rt), th, c, start, t, narrow).0;
            && StageRank(StageAt(rt, t)) <= StageRank(StageAt(rt', t))
            && (rt.kind == Gold ==> rt'.kind == Gold && rt'.strikeAt == rt.strikeAt)
  {
  }

  lemma {:induction false} PlacedAt(before: Runtimes, threads: seq<SceneThread>, c: Cursor, start: real, t: real, narrow: bool, i: nat)
    returns (ci: Cursor)
    requires DistinctRecords(threads) && i < |threads|
    ensures threads[i].id in PlacedAll(before, threads, c, start, t, narrow).0
    ensures PlacedAll(before, threads, c, start, t, narrow).0[threads[i].id]
         == Placed(Lookup(before, threads[i].id), threads[i], ci, start, t, narrow).0
  {
    hide Placed;
    var n := |threads| - 1;
    if i == n {
      ci := PlacedAll(before, threads[..n], c, start, t, narrow).1;
    } else {
      ci := PlacedAt(before, threads[..n], c, start, t, narrow, i);
    }
  }

  lemma UpdateNeverFalls(f: Forge, spec: SceneSpec, t: real, id: string)
    requires Good(f) && AdvancesAll(f, spec) && id in f.runtimes
    ensures var g := Updated(f, spec, t);
            && id in g.runtimes
            && StageRank(StageAt(f.runtimes[id], t)) <= StageRank(StageAt(g.runtimes[id], t))
            && (f.runtimes[id].kind == Gold ==>
                  g.runtimes[id].kind == Gold && g.runtimes[id].strikeAt == f.runtimes[id].strikeAt)
  {
    hide Placed, PlacedAll, StageAt, InOrder, Advances, Timed;
    var i :| 0 <= i < |spec.threads| && spec.threads[i].id == id;
    var ci := PlacedAt(f.runtimes, spec.threads, f.cursor, t + 0.1, t, spec.narrow, i);
    PlacedNeverFalls(f.runtimes[id], spec.threads[i], ci, t + 0.1, t, spec.narrow);
  }

  /** Advancing updates in time order, all between `from` and `to`. */
  ghost predicate AdvancingRun(f: Forge, changes: seq<Change>, from: real, to: real)
    decreases |changes|
  {
    if changes == [] then from <= to
    else
      var n := |changes| - 1;
      && changes[n].t <= to
      && AdvancingRun(f, changes[..n], from, changes[n].t)
      && AdvancesAll(Run(f, changes[..n]), changes[n].spec)
  }

  /** Over any advancing run, a card's stage rank never falls as time passes. */
  lemma {:induction false} RankNeverFalls(f: Forge, changes: seq<Change>, from: real, to: real, id: string)
    requires Good(f) && id in f.runtimes && AdvancingRun(f, changes, from, to)
    ensures from <= to && Good(Run(f, changes)) && id in Run(f, changes).runtimes
    ensures StageRank(StageAt(f.runtimes[id], from)) <= StageRank(StageAt(Run(f, changes).runtimes[id], to))
    ensures f.runtimes[id].kind == Gold ==>
      Run(f, changes).runtimes[id].kind == Gold && Run(f, changes).runtimes[id].strikeAt == f.runtimes[id].strikeAt
    decreases |changes|
  {
    hide StageAt, Updated, Good;
    if changes == [] {
      StageNeverFalls(f.runtimes[id], from, to);
    } else {
      var n := |changes| - 1;
      var mid, last := Run(f, changes[..n]), changes[n];
      RankNeverFalls(f, changes[..n], from, last.t, id);
      UpdateNeverFalls(mid, last.spec, last.t, id);
      UpdateKeepsGood(mid, last.spec, last.t);
      StageNeverFalls(Updated(mid, last.spec, last.t).runtimes[id], last.t, to);
    }
  }

  /** Nor does the tray ever lose an ingot. */
  lemma TrayNeverFalls(f: Forge, changes: seq<Change>, from: real, to: real)
    requires Good(f) && AdvancingRun(f, changes, from, to)
    ensures TrayAt(f, from) <= TrayAt(Run(f, changes), to)
  {
    hide Good, AdvancingRun;
    var g := Run(f, changes);
    var a := set id | id in f.runtimes && HasIngot(f.runtimes[id], from);
    var b := set id | id in g.runtimes && HasIngot(g.runtimes[id], to);
    forall id | id in a ensures id in b {
      RankNeverFalls(f, changes, from, to, id);
    }
    R.SubsetSize(a, b);
  }

  // ---------------------------------------------------------------- playing and the settled frame

  ghost predicate DoneBy(rt: Runtime, t: real) {
    && t >= rt.landAt
    && (rt.evidenceAt.At? ==> t >= rt.evidenceAt.s + 0.85)
    && (rt.verdictAt.At? ==> t >= rt.verdictAt.s + 2.65)
    && (rt.strikeAt.At? ==> t >= rt.strikeAt.s + 2.2)
  }

  lemma LastOfExactly(rt: Runtime, sofar: Time, t: real)
    ensures LastOf(rt, sofar).At?
    ensures t >= LastOf(rt, sofar).s <==> DoneBy(rt, t) && (sofar.At? ==> t >= sofar.s)
  {
  }

  lemma {:induction false} LastEventExactly(runtimes: Runtimes, order: seq<string>, t: real)
    requires forall i :: 0 <= i < |order| ==> order[i] in runtimes
    ensures var last := LastEventAt(runtimes, order);
            !(last.At? && t < last.s) <==> forall i :: 0 <= i < |order| ==> DoneBy(runtimes[order[i]], t)
  {
    if order != [] {
      hide DoneBy, LastOf;
      var n := |order| - 1;
      LastEventExactly(runtimes, order[..n], t);
      LastOfExactly(runtimes[order[n]], LastEventAt(runtimes, order[..n]), t);
      assert forall i :: 0 <= i < n ==> order[..n][i] == order[i];
    }
  }

  /** Playing has ended exactly when every record is past all its own times. */
  lemma PlayingEndsExactly(f: Forge, t: real)
    requires forall i :: 0 <= i < |f.order| ==> f.order[i] in f.runtimes
    ensures !IsPlaying(f, t) <==> forall i :: 0 <= i < |f.order| ==> DoneBy(f.runtimes[f.order[i]], t)
  {
    LastEventExactly(f.runtimes, f.order, t);
  }

  lemma DoneIsSettled(rt: Runtime, t: real)
    requires InOrder(rt) && DoneBy(rt, t)
    ensures StageAt(rt, t) == SettledStage(rt)
    ensures HasIngot(rt, t) <==> rt.kind == Gold
  {
  }

  /** Once playing has ended every card shows its settled stage and the tray its settled count. */
  lemma SettledWhenDone(f: Forge, t: real)
    requires Good(f) && !IsPlaying(f, t)
    ensures forall id :: id in f.runtimes ==> StageAt(f.runtimes[id], t) == SettledStage(f.runtimes[id])
    ensures TrayAt(f, t) == SettledTray(f)
  {
    PlayingEndsExactly(f, t);
    forall id | id in f.runtimes
      ensures StageAt(f.runtimes[id], t) == SettledStage(f.runtimes[id])
      ensures HasIngot(f.runtimes[id], t) <==> f.runtimes[id].kind == Gold
    {
      var i :| 0 <= i < |f.order| && f.order[i] == id;
      DoneIsSettled(f.runtimes[id], t);
    }
    assert (set id | id in f.runtimes && HasIngot(f.runtimes[id], t)) == (set id | id in f.runtimes && f.runtimes[id].kind == Gold);
  }

  // ---------------------------------------------------------------- a timed frame after a settled one

  /** The moment from which a record's timed stage is its settled one. */
  ghost function SettlesAt(rt: Runtime): real
    requires InOrder(rt)
  {
    match rt.kind
    case Spark => rt.landAt
    case Thread => rt.evidenceAt.s + 0.85 * 0.55
    case Gold => rt.strikeAt.s
    case Ash => Max(rt.landAt, rt.verdictAt.s + 0.35)
  }

  lemma SettledFrom(rt: Runtime, t: real)
    requires InOrder(rt)
    ensures StageAt(rt, t) == SettledStage(rt) <==> t >= SettlesAt(rt)
    ensures StageRank(StageAt(rt, t)) < StageRank(SettledStage(rt)) <==> t < SettlesAt(rt)
  {
  }

  /** Advancing a record keeps every time that its old settled stage depends on. */
  lemma PlacedFallsExactly(rt: Runtime, th: SceneThread, c: Cursor, start: real, t: real, narrow: bool, u: real)
    requires InOrder(rt) && Advances(rt, th.kind, th.readFailed) && th.distance >= 0.0
    ensures StageRank(StageAt(Placed(Had(rt), th, c, start, t, narrow).0, u)) < StageRank(SettledStage(rt))
            <==> u < SettlesAt(rt)
  {
    PlacedInOrder(Had(rt), th, c, start, t, narrow);
  }

  /**
   After a settled frame, a timed frame of an advancing update lowers a card exactly when it is drawn
   before the moment the card settles, a moment that the times before the update already give.
   */
  lemma TimedAfterSettledFallsExactly(f: Forge, spec: SceneSpec, t: real, u: real, id: string)
    requires Good(f) && AdvancesAll(f, spec) && id in f.runtimes
    ensures id in Updated(f, spec, t).runtimes
    ensures StageRank(StageAt(Updated(f, spec, t).runtimes[id], u)) < StageRank(SettledStage(f.runtimes[id]))
            <==> u < SettlesAt(f.runtimes[id])
  {
    hide Placed, PlacedAll, StageAt, SettledStage, InOrder, Advances, Timed, SettlesAt;
    var i :| 0 <= i < |spec.threads| && spec.threads[i].id == id;
    var ci := PlacedAt(f.runtimes, spec.threads, f.cursor, t + 0.1, t, spec.narrow, i);
    PlacedFallsExactly(f.runtimes[id], spec.threads[i], ci, t + 0.1, t, spec.narrow, u);
  }
}
