/**
 The Forge transition scheduler: `update` gives each scene record its launch, landing, Evidence,
 verdict and strike times, and `emitStages` turns them into card stages and a tray count. Times are
 seconds; `Never` stands for an infinite time, and for a cursor that nothing has moved yet.
 */
module ForgeScheduler {

  datatype Kind = Spark | Thread | Gold | Ash

  datatype Time = Never | At(s: real)

  datatype SceneThread = SceneThread(id: string, kind: Kind, readFailed: bool, distance: real)

  datatype SceneSpec = SceneSpec(narrow: bool, threads: seq<SceneThread>, replay: int)

  datatype Runtime = Runtime(
    kind: Kind, readFailed: bool, launchAt: real, landAt: real, evidenceAt: Time, verdictAt: Time, strikeAt: Time)

  datatype Cursor = Cursor(launch: Time, evidence: Time, ash: Time, strike: Time)

  const NO_CURSOR := Cursor(Never, Never, Never, Never)

  const THREAD_DRAW := 0.85
  const WAVE := 0.7
  const COOL := 1.25
  const STRIKE_GAP := 0.95

  function Max(a: real, b: real): real {
    if a < b then b else a
  }

  function Min(a: real, b: real): real {
    if a < b then a else b
  }

  /** `Math.max(t, cursor + gap)` where an untouched cursor is minus infinity. */
  function After(t: real, cursor: Time, gap: real): real {
    if cursor.At? then Max(t, cursor.s + gap) else t
  }

  function FlightTime(distance: real): real {
    0.75 + Min(1.0, distance / 1100.0)
  }

  predicate HasEvidence(kind: Kind, readFailed: bool) {
    kind == Thread || kind == Gold || (kind == Ash && !readFailed)
  }

  datatype Previous = NoRuntime | Had(rt: Runtime)

  function LaunchGap(narrow: bool): real {
    if narrow then 0.34 else 0.26
  }

  function Launched(p: Previous, th: SceneThread, c: Cursor, start: real, narrow: bool): (Runtime, Cursor) {
    if p.Had? then (p.rt, c)
    else
      var launch := After(start, c.launch, LaunchGap(narrow));
      (Runtime(th.kind, th.readFailed, launch, launch + FlightTime(th.distance), Never, Never, Never),
       c.(launch := At(launch)))
  }

  function Evidenced(p: Previous, rt: Runtime, th: SceneThread, c: Cursor, t: real): (Runtime, Cursor) {
    if !HasEvidence(th.kind, th.readFailed) then (rt.(evidenceAt := Never), c)
    else if p.Had? && p.rt.evidenceAt.At? then (rt, c)
    else
      var evidence := Max(After(rt.landAt + 0.45, c.evidence, 0.3), t + 0.1);
      (rt.(evidenceAt := At(evidence)), c.(evidence := At(evidence)))
  }

  function Judged(p: Previous, rt: Runtime, th: SceneThread, c: Cursor, t: real): (Runtime, Cursor)
    requires th.kind == Gold || (th.kind == Ash && !th.readFailed) ==> rt.evidenceAt.At?
  {
    if p.Had? && p.rt.kind == th.kind then (rt, c)
    else if th.kind == Gold then
      var strike := Max(After(rt.evidenceAt.s + THREAD_DRAW + 1.0, c.strike, STRIKE_GAP), t + WAVE + 0.1);
      (rt.(strikeAt := At(strike), verdictAt := At(strike - WAVE)), c.(strike := At(strike)))
    else if th.kind == Ash then
      var after := if th.readFailed then rt.landAt + 0.7 else rt.evidenceAt.s + THREAD_DRAW + 1.1;
      var verdict := Max(After(after, c.ash, 0.16), t + 0.1);
      (rt.(strikeAt := Never, verdictAt := At(verdict)), c.(ash := At(verdict)))
    else (rt.(strikeAt := Never, verdictAt := Never), c)
  }

  /** The schedule of one record of the new scene, given its runtime in the old one. */
  function Placed(p: Previous, th: SceneThread, c: Cursor, start: real, t: real, narrow: bool): (Runtime, Cursor) {
    var (rt0, c0) := Launched(p, th, c, start, narrow);
    var (rt1, c1) := Evidenced(p, rt0, th, c0, t);
    var (rt2, c2) := Judged(p, rt1, th, c1, t);
    (rt2.(kind := th.kind, readFailed := th.readFailed), c2)
  }

  type Runtimes = map<string, Runtime>

  function Lookup(runtimes: Runtimes, id: string): Previous {
    if id in runtimes then Had(runtimes[id]) else NoRuntime
  }

  function PlacedAll(before: Runtimes, threads: seq<SceneThread>, c: Cursor, start: real, t: real, narrow: bool)
    : (Runtimes, Cursor)
  {
    if threads == [] then (map[], c)
    else
      var n := |threads| - 1;
      var (next, c') := PlacedAll(before, threads[..n], c, start, t, narrow);
      var (rt, c'') := Placed(Lookup(before, threads[n].id), threads[n], c', start, t, narrow);
      (next[threads[n].id := rt], c'')
  }

  function Ids(threads: seq<SceneThread>): seq<string> {
    seq(|threads|, i requires 0 <= i < |threads| => threads[i].id)
  }

  datatype Replay = NoReplay | Replayed(n: int)

  /** What `update` keeps between calls; `order` is the insertion order of the runtimes map. */
  datatype Forge = Forge(runtimes: Runtimes, order: seq<string>, cursor: Cursor, lastReplay: Replay)

  const COLD := Forge(map[], [], NO_CURSOR, NoReplay)

  predicate IsReplay(f: Forge, spec: SceneSpec) {
    f.lastReplay != Replayed(spec.replay)
  }

  function Updated(f: Forge, spec: SceneSpec, t: real): Forge {
    var replay := IsReplay(f, spec);
    var runtimes := if replay then map[] else f.runtimes;
    var cursor := if replay then NO_CURSOR else f.cursor;
    var (next, cursor') := PlacedAll(runtimes, spec.threads, cursor, t + (if replay then 0.35 else 0.1), t, spec.narrow);
    Forge(next, Ids(spec.threads), cursor', Replayed(spec.replay))
  }

  // ---------------------------------------------------------------- stages

  datatype Stage = Pending | Landed | InEvidence | InGold | InAsh

  function StageRank(s: Stage): nat {
    match s
    case Pending => 0
    case Landed => 1
    case InEvidence => 2
    case InGold => 3
    case InAsh => 3
  }

  predicate Reached(t: real, time: Time, delay: real) {
    time.At? && t >= time.s + delay
  }

  function StageAt(rt: Runtime, t: real): Stage {
    if t < rt.landAt then Pending
    else if rt.kind == Gold && Reached(t, rt.strikeAt, 0.0) then InGold
    else if rt.kind == Ash && Reached(t, rt.verdictAt, 0.35) then InAsh
    else if Reached(t, rt.evidenceAt, THREAD_DRAW * 0.55) then InEvidence
    else Landed
  }

  function SettledStage(rt: Runtime): Stage {
    match rt.kind
    case Spark => Landed
    case Thread => InEvidence
    case Gold => InGold
    case Ash => InAsh
  }

  function Later(a: Time, b: Time, delay: real): Time {
    if b.Never? then a
    else if a.Never? then At(b.s + delay)
    else At(Max(a.s, b.s + delay))
  }

  /** The last moment at which something of this record still moves. */
  function LastOf(rt: Runtime, sofar: Time): Time {
    Later(Later(Later(Later(sofar, At(rt.landAt), 0.0), rt.evidenceAt, THREAD_DRAW),
                rt.verdictAt, COOL + 1.4), rt.strikeAt, 2.2)
  }

  function LastEventAt(runtimes: Runtimes, order: seq<string>): Time
    requires forall i :: 0 <= i < |order| ==> order[i] in runtimes
  {
    if order == [] then Never
    else LastOf(runtimes[order[|order| - 1]], LastEventAt(runtimes, order[..|order| - 1]))
  }

  predicate IsPlaying(f: Forge, t: real)
    requires forall i :: 0 <= i < |f.order| ==> f.order[i] in f.runtimes
  {
    var last := LastEventAt(f.runtimes, f.order);
    last.At? && t < last.s
  }

  predicate HasIngot(rt: Runtime, t: real) {
    rt.kind == Gold && rt.strikeAt.At? && t - rt.strikeAt.s > 1.2
  }

  /** Ingots on the tray in a timed frame, and in the settled one. */
  function TrayAt(f: Forge, t: real): nat {
    |set id | id in f.runtimes && HasIngot(f.runtimes[id], t)|
  }

  function SettledTray(f: Forge): nat {
    |set id | id in f.runtimes && f.runtimes[id].kind == Gold|
  }
}
