/** Runs of updates and frames: what the stage callbacks of one card say over time. */
module ForgeFrames {
  import opened ForgeScheduler
  import opened ForgeTimelines
  import opened ForgeRenderer

  /** The schedule, the stages shown and the callbacks made so far. */
  datatype View = View(f: Forge, shown: map<string, Stage>, calls: seq<(string, Stage)>)

  datatype Act = Scene(spec: SceneSpec, t: real) | Frame(t: real, settled: bool)

  predicate Listed(f: Forge) {
    forall i :: 0 <= i < |f.order| ==> f.order[i] in f.runtimes
  }

  /** What `Update` and `EmitStages` do to the three. */
  function Step(v: View, a: Act): (w: View)
    requires Listed(v.f)
    ensures Listed(w.f)
  {
    match a
    case Scene(spec, t) =>
      UpdateLists(v.f, spec, t);
      View(Updated(v.f, spec, t), Carried(v.shown, v.f, spec, t), v.calls)
    case Frame(t, settled) =>
      View(v.f,
           map id | id in v.f.runtimes :: FrameStage(v.f.runtimes[id], t, settled),
           v.calls + StageCalls(v.f, v.f.order, v.shown, t, settled))
  }

  lemma UpdateLists(f: Forge, spec: SceneSpec, t: real)
    ensures Listed(Updated(f, spec, t))
  {
    hide PlacedAll;
    var replay := IsReplay(f, spec);
    PlacedAllKeys(if replay then map[] else f.runtimes, spec.threads, if replay then NO_CURSOR else f.cursor,
                  t + (if replay then 0.35 else 0.1), t, spec.narrow);
    var order := Ids(spec.threads);
    assert forall i :: 0 <= i < |order| ==> order[i] in order;
  }

  function Run(v: View, acts: seq<Act>): (w: View)
    requires Listed(v.f)
    ensures Listed(w.f)
    decreases |acts|
  {
    if acts == [] then v else Step(Run(v, acts[..|acts| - 1]), acts[|acts| - 1])
  }

  // ---------------------------------------------------------------- the callbacks of one frame

  predicate OncePerCard(calls: seq<(string, Stage)>) {
    forall i, j :: 0 <= i < j < |calls| ==> calls[i].0 != calls[j].0
  }

  /** One callback for each card whose stage differs from the one shown, with its stage. */
  lemma {:induction false} StageCallsExactly(f: Forge, order: seq<string>, shown: map<string, Stage>, t: real, settled: bool)
    requires forall i :: 0 <= i < |order| ==> order[i] in f.runtimes
    ensures forall c :: c in StageCalls(f, order, shown, t, settled) <==>
              c.0 in order && c.0 in f.runtimes && c.1 == FrameStage(f.runtimes[c.0], t, settled)
              && !(c.0 in shown && shown[c.0] == c.1)
  {
    hide FrameStage;
    if order != [] {
      StageCallsExactly(f, order[..|order| - 1], shown, t, settled);
      assert order == order[..|order| - 1] + [order[|order| - 1]];
    }
  }

  lemma {:induction false} CalledOnce(f: Forge, order: seq<string>, shown: map<string, Stage>, t: real, settled: bool)
    requires forall i :: 0 <= i < |order| ==> order[i] in f.runtimes
    requires forall i, j :: 0 <= i < j < |order| ==> order[i] != order[j]
    ensures OncePerCard(StageCalls(f, order, shown, t, settled))
  {
    hide FrameStage;
    if order != [] {
      var n := |order| - 1;
      var before := StageCalls(f, order[..n], shown, t, settled);
      CalledOnce(f, order[..n], shown, t, settled);
      StageCallsExactly(f, order[..n], shown, t, settled);
      forall i | 0 <= i < |before| ensures before[i].0 != order[n] {
        assert before[i] in before;
      }
    }
  }

  // ---------------------------------------------------------------- callbacks never fall

  function TimeOf(a: Act): real {
    a.t
  }

  /** Advancing updates and timed frames in time order, all between `from` and `to`. */
  ghost predicate Advancing(v: View, acts: seq<Act>, from: real, to: real)
    requires Listed(v.f)
    decreases |acts|
  {
    if acts == [] then from <= to
    else
      var n := |acts| - 1;
      && TimeOf(acts[n]) <= to
      && Advancing(v, acts[..n], from, TimeOf(acts[n]))
      && (match acts[n]
          case Scene(spec, _) => AdvancesAll(Run(v, acts[..n]).f, spec)
          case Frame(_, settled) => !settled)
  }

  predicate NotAbove(shown: map<string, Stage>, runtimes: Runtimes, t: real) {
    forall id :: id in shown ==> id in runtimes && StageRank(shown[id]) <= StageRank(StageAt(runtimes[id], t))
  }

  /** Every callback was for a card still shown, at no higher rank than it is shown now. */
  predicate Below(calls: seq<(string, Stage)>, shown: map<string, Stage>) {
    forall c :: c in calls ==> c.0 in shown && StageRank(c.1) <= StageRank(shown[c.0])
  }

  predicate NeverFalls(calls: seq<(string, Stage)>) {
    forall i, j :: 0 <= i < j < |calls| && calls[i].0 == calls[j].0 ==> StageRank(calls[i].1) <= StageRank(calls[j].1)
  }

  ghost predicate Inv(v: View, t: real) {
    Good(v.f) && NotAbove(v.shown, v.f.runtimes, t) && Below(v.calls, v.shown) && NeverFalls(v.calls)
  }

  lemma LaterInv(v: View, t: real, u: real)
    requires Inv(v, t) && t <= u
    ensures Inv(v, u)
  {
    hide StageAt, Good;
    forall id | id in v.shown ensures StageRank(v.shown[id]) <= StageRank(StageAt(v.f.runtimes[id], u)) {
      StageNeverFalls(v.f.runtimes[id], t, u);
    }
  }

  /** Calls of a frame say what it shows, which is nowhere lower than before. */
  lemma AppendCalls(calls: seq<(string, Stage)>, more: seq<(string, Stage)>, shown: map<string, Stage>, now: map<string, Stage>)
    requires Below(calls, shown) && NeverFalls(calls)
    requires OncePerCard(more)
    requires forall c :: c in more ==> c.0 in now && c.1 == now[c.0]
    requires forall id :: id in shown ==> id in now && StageRank(shown[id]) <= StageRank(now[id])
    ensures Below(calls + more, now) && NeverFalls(calls + more)
  {
    hide StageRank;
    var all := calls + more;
    forall i, j | |calls| <= i < j < |all| ensures all[i].0 != all[j].0 {
      assert all[i] == more[i - |calls|] && all[j] == more[j - |calls|];
    }
    forall i, j | 0 <= i < j < |all| && all[i].0 == all[j].0 ensures StageRank(all[i].1) <= StageRank(all[j].1) {
      if i < |calls| <= j {
        assert all[i] in calls && all[j] in more;
      }
    }
  }

  lemma FrameKeepsInv(v: View, t: real)
    requires Inv(v, t) && Listed(v.f)
    ensures Inv(Step(v, Frame(t, false)), t)
  {
    hide StageAt, StageRank, StageCalls, Below, NeverFalls, OncePerCard;
    var w := Step(v, Frame(t, false));
    var more := StageCalls(v.f, v.f.order, v.shown, t, false);
    StageCallsExactly(v.f, v.f.order, v.shown, t, false);
    CalledOnce(v.f, v.f.order, v.shown, t, false);
    hide Good;
    forall c | c in more ensures c.0 in w.shown && c.1 == w.shown[c.0] {
    }
    AppendCalls(v.calls, more, v.shown, w.shown);
  }

  lemma SceneKeepsInv(v: View, spec: SceneSpec, t: real)
    requires Inv(v, t) && Listed(v.f) && AdvancesAll(v.f, spec)
    ensures Inv(Step(v, Scene(spec, t)), t)
  {
    hide StageAt, StageRank, Updated, NeverFalls, PlacedAll;
    var w := Step(v, Scene(spec, t));
    UpdateKeepsGood(v.f, spec, t);
    forall id | id in v.shown
      ensures id in w.f.runtimes && StageRank(StageAt(v.f.runtimes[id], t)) <= StageRank(StageAt(w.f.runtimes[id], t))
    {
      UpdateNeverFalls(v.f, spec, t, id);
    }
    hide Good;
    assert w.shown == v.shown by {
      hide AdvancesAll;
      assert !IsReplay(v.f, spec);
    }
  }

  lemma {:induction false} RunKeepsInv(v: View, acts: seq<Act>, from: real, to: real)
    requires Listed(v.f) && Inv(v, from) && Advancing(v, acts, from, to)
    ensures Inv(Run(v, acts), to)
    decreases |acts|
  {
    hide Inv, Step, AdvancesAll;
    if acts == [] {
      LaterInv(v, from, to);
    } else {
      var n := |acts| - 1;
      var before := Run(v, acts[..n]);
      RunKeepsInv(v, acts[..n], from, TimeOf(acts[n]));
      match acts[n]
      case Scene(spec, t) =>
        SceneKeepsInv(before, spec, t);
        LaterInv(Run(v, acts), t, to);
      case Frame(t, _) =>
        FrameKeepsInv(before, t);
        LaterInv(Run(v, acts), t, to);
    }
  }

  /** Along every advancing run of updates and timed frames the callbacks of one card never fall. */
  lemma CallbacksNeverFall(f: Forge, acts: seq<Act>, from: real, to: real)
    requires Good(f) && Listed(f) && Advancing(View(f, map[], []), acts, from, to)
    ensures NeverFalls(Run(View(f, map[], []), acts).calls)
  {
    hide Good, Step;
    RunKeepsInv(View(f, map[], []), acts, from, to);
  }

  // ---------------------------------------------------------------- callbacks of a still scene

  /** A settled frame was drawn last. */
  predicate ShowsSettled(v: View) {
    v.shown == map id | id in v.f.runtimes :: SettledStage(v.f.runtimes[id])
  }

  ghost predicate FallsFor(calls: seq<(string, Stage)>, id: string, from: Stage) {
    exists c :: c in calls && c.0 == id && StageRank(c.1) < StageRank(from)
  }

  /**
   After a settled frame, an advancing update and its timed frame call a card back with a lower stage
   exactly when the frame is drawn before the moment the card settles.
   */
  lemma CallbackFallsExactly(v: View, spec: SceneSpec, t: real, u: real, id: string)
    requires Good(v.f) && Listed(v.f) && ShowsSettled(v) && AdvancesAll(v.f, spec) && id in v.f.runtimes
    ensures var w := Step(v, Scene(spec, t));
            FallsFor(StageCalls(w.f, w.f.order, w.shown, u, false), id, SettledStage(v.f.runtimes[id]))
            <==> u < SettlesAt(v.f.runtimes[id])
  {
    hide StageAt, SettledStage, StageCalls, Updated, SettlesAt, StageRank, InOrder, Timed, Advances, DistinctRecords;
    var w := Step(v, Scene(spec, t));
    TimedAfterSettledFallsExactly(v.f, spec, t, u, id);
    UpdateKeepsGood(v.f, spec, t);
    assert w.shown[id] == SettledStage(v.f.runtimes[id]);
    StageCallsExactly(w.f, w.f.order, w.shown, u, false);
    var c := (id, StageAt(w.f.runtimes[id], u));
    if u < SettlesAt(v.f.runtimes[id]) {
      assert c in StageCalls(w.f, w.f.order, w.shown, u, false);
    }
  }

  const STILL := SceneSpec(false, [SceneThread("a", Gold, false, 0.0)], 1)

  lemma StillTimes(t: real, u: real)
    requires t <= u < t + 1.1
    ensures var f := Updated(COLD, STILL, t);
            && f.order == ["a"] && "a" in f.runtimes
            && StageAt(f.runtimes["a"], t) == Pending && SettledStage(f.runtimes["a"]) == InGold
            && var g := Updated(f, STILL, u);
               g.order == ["a"] && "a" in g.runtimes && StageAt(g.runtimes["a"], u) == Pending
  {
    var threads := STILL.threads;
    assert threads[..0] == [];
    var f := Updated(COLD, STILL, t);
    assert PlacedAll(map[], threads, NO_CURSOR, t + 0.35, t, false)
        == (map["a" := f.runtimes["a"]], f.cursor) by {
      assert PlacedAll(map[], [], NO_CURSOR, t + 0.35, t, false) == (map[], NO_CURSOR);
    }
    assert f.runtimes["a"].landAt >= t + 1.1;
    assert PlacedAll(f.runtimes, [], f.cursor, u + 0.1, u, false) == (map[], f.cursor);
  }

  lemma OneCard(f: Forge, shown: map<string, Stage>, t: real, settled: bool)
    requires f.order == ["a"] && "a" in f.runtimes
    ensures var stage := FrameStage(f.runtimes["a"], t, settled);
            StageCalls(f, f.order, shown, t, settled) == if "a" in shown && shown["a"] == stage then [] else [("a", stage)]
  {
    hide FrameStage;
    assert f.order[..0] == [];
    assert StageCalls(f, [], shown, t, settled) == [];
  }

  lemma SceneKeepsShown(f: Forge, shown: map<string, Stage>, t: real)
    requires f.lastReplay == Replayed(STILL.replay) && "a" in Updated(f, STILL, t).runtimes
    ensures "a" in shown ==> "a" in Carried(shown, f, STILL, t) && Carried(shown, f, STILL, t)["a"] == shown["a"]
  {
    hide Updated;
  }

  /**
   A scene without motion draws a timed frame and then the settled one at every update. Its one gold
   card is called back as pending, as gold, and at the next update as pending again.
   */
  method StillSceneFallsBack(t: real, u: real) returns (calls: seq<(string, Stage)>)
    requires t <= u < t + 1.1
    ensures calls == [("a", Pending), ("a", InGold), ("a", Pending)]
  {
    hide StageAt, SettledStage, Updated, StageCalls, Good, Carried, SettledTray, TrayAt, IsPlaying, GoldStrikes, SortReals, Rising;
    StillTimes(t, u);
    var renderer := new ForgeRenderer();
    renderer.Update(STILL, t);
    ghost var f := renderer.Now();
    assert renderer.shown == map[] by { NothingCarried(t); }
    OneCard(f, map[], t, false);
    renderer.EmitStages(t, false);
    assert renderer.stageCalls == [("a", Pending)];
    OneCard(f, renderer.shown, t, true);
    renderer.EmitStages(t, true);
    assert renderer.stageCalls == [("a", Pending), ("a", InGold)];
    ReplayKept(t);
    SceneKeepsShown(f, renderer.shown, u);
    renderer.Update(STILL, u);
    OneCard(renderer.Now(), renderer.shown, u, false);
    renderer.EmitStages(u, false);
    calls := renderer.stageCalls;
  }

  lemma NothingCarried(t: real)
    ensures Carried(map[], COLD, STILL, t) == map[]
  {
  }

  lemma ReplayKept(t: real)
    ensures Updated(COLD, STILL, t).lastReplay == Replayed(STILL.replay)
  {
    hide PlacedAll;
  }
}
