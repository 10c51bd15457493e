/** The renderer's fields, changed in place by `update` and `emitStages`, against the schedule functions. */
module ForgeRenderer {
  import opened ForgeScheduler
  import opened ForgeTimelines

  // ---------------------------------------------------------------- the sorted strike list

  function InsertReal(x: real, xs: seq<real>): seq<real> {
    if xs == [] then [x] else if x <= xs[0] then [x] + xs else [xs[0]] + InsertReal(x, xs[1..])
  }

  function SortReals(xs: seq<real>): seq<real> {
    if xs == [] then [] else InsertReal(xs[|xs| - 1], SortReals(xs[..|xs| - 1]))
  }

  /** Strike times of the gold records, in insertion order. */
  function GoldStrikes(runtimes: Runtimes, order: seq<string>): seq<real>
    requires forall i :: 0 <= i < |order| ==> order[i] in runtimes && InOrder(runtimes[order[i]])
  {
    if order == [] then []
    else
      var rt := runtimes[order[|order| - 1]];
      assert InOrder(rt);
      GoldStrikes(runtimes, order[..|order| - 1]) + (if rt.kind == Gold then [rt.strikeAt.s] else [])
  }

  lemma NoStrikes(runtimes: Runtimes)
    ensures SortReals(GoldStrikes(runtimes, [])) == []
  {
  }

  lemma OneMoreStrike(runtimes: Runtimes, order: seq<string>, n: nat)
    requires forall i :: 0 <= i < |order| ==> order[i] in runtimes && InOrder(runtimes[order[i]])
    requires n < |order|
    ensures var rt, before := runtimes[order[n]], SortReals(GoldStrikes(runtimes, order[..n]));
            InOrder(rt) && SortReals(GoldStrikes(runtimes, order[..n + 1]))
                           == if rt.kind == Gold then InsertReal(rt.strikeAt.s, before) else before
  {
    var rt, gold := runtimes[order[n]], GoldStrikes(runtimes, order[..n]);
    assert order[..n + 1][..n] == order[..n];
    assert InOrder(rt);
    if rt.kind == Gold {
      assert (gold + [rt.strikeAt.s])[..|gold|] == gold;
    } else {
      assert gold + [] == gold;
    }
  }

  function CountLanded(strikes: seq<real>, t: real): nat {
    if strikes == [] then 0 else (if t - strikes[0] > 1.2 then 1 else 0) + CountLanded(strikes[1..], t)
  }

  ghost predicate Rising(xs: seq<real>, gap: real) {
    forall i, j :: 0 <= i < j < |xs| ==> xs[j] - xs[i] >= gap
  }

  lemma {:induction false} InsertMembers(x: real, xs: seq<real>)
    ensures |InsertReal(x, xs)| == |xs| + 1
    ensures forall y :: y in InsertReal(x, xs) <==> y == x || y in xs
  {
    if xs != [] && x > xs[0] {
      InsertMembers(x, xs[1..]);
      assert xs == [xs[0]] + xs[1..];
    }
  }

  lemma ConsRising(x: real, xs: seq<real>, gap: real)
    requires Rising(xs, gap) && forall y :: y in xs ==> y - x >= gap
    ensures Rising([x] + xs, gap)
  {
    var ys := [x] + xs;
    forall i, j | 0 <= i < j < |ys| ensures ys[j] - ys[i] >= gap {
      assert ys[j] == xs[j - 1] && xs[j - 1] in xs;
    }
  }

  lemma RisingHead(xs: seq<real>, gap: real)
    requires gap > 0.0 && Rising(xs, gap) && xs != []
    ensures Rising(xs[1..], gap)
    ensures forall y :: y in xs[1..] ==> y - xs[0] >= gap
  {
  }

  lemma {:induction false} InsertRising(x: real, xs: seq<real>, gap: real)
    requires gap > 0.0 && Rising(xs, gap) && forall y :: y in xs ==> Apart(x, y, gap)
    ensures Rising(InsertReal(x, xs), gap)
  {
    if xs != [] {
      RisingHead(xs, gap);
      assert xs[0] in xs;
      if x > xs[0] {
        InsertRising(x, xs[1..], gap);
        InsertMembers(x, xs[1..]);
        ConsRising(xs[0], InsertReal(x, xs[1..]), gap);
      } else {
        forall y | y in xs ensures y - x >= gap {
          assert y == xs[0] || y in xs[1..];
        }
        ConsRising(x, xs, gap);
      }
    }
  }

  lemma {:induction false} CountInserted(x: real, xs: seq<real>, t: real)
    ensures CountLanded(InsertReal(x, xs), t) == CountLanded(xs, t) + (if t - x > 1.2 then 1 else 0)
  {
    if xs == [] {
    } else if x <= xs[0] {
      assert ([x] + xs)[1..] == xs;
    } else {
      CountInserted(x, xs[1..], t);
      assert ([xs[0]] + InsertReal(x, xs[1..]))[1..] == InsertReal(x, xs[1..]);
    }
  }

  lemma {:induction false} StrikeListed(runtimes: Runtimes, order: seq<string>, y: real)
    requires forall i :: 0 <= i < |order| ==> order[i] in runtimes && InOrder(runtimes[order[i]])
    ensures y in GoldStrikes(runtimes, order) <==>
              exists i :: 0 <= i < |order| && runtimes[order[i]].kind == Gold && runtimes[order[i]].strikeAt == At(y)
  {
    if order != [] {
      var n := |order| - 1;
      StrikeListed(runtimes, order[..n], y);
      assert forall i :: 0 <= i < n ==> order[..n][i] == order[i];
      assert InOrder(runtimes[order[n]]);
    }
  }

  /** The stored strikes are in time order, at least 0.95 s apart, one per gold record. */
  lemma {:induction false} StrikesRise(runtimes: Runtimes, order: seq<string>, cursor: Time)
    requires Spaced(runtimes, StrikeOf, cursor, STRIKE_GAP)
    requires forall i :: 0 <= i < |order| ==> order[i] in runtimes && InOrder(runtimes[order[i]])
    requires forall i, j :: 0 <= i < j < |order| ==> order[i] != order[j]
    ensures Rising(SortReals(GoldStrikes(runtimes, order)), STRIKE_GAP)
    ensures forall y :: y in SortReals(GoldStrikes(runtimes, order)) <==> y in GoldStrikes(runtimes, order)
  {
    if order != [] {
      var n := |order| - 1;
      var rt, before := runtimes[order[n]], GoldStrikes(runtimes, order[..n]);
      StrikesRise(runtimes, order[..n], cursor);
      assert InOrder(rt);
      if rt.kind == Gold {
        var strikes := before + [rt.strikeAt.s];
        assert strikes[..|strikes| - 1] == before;
        var sorted := SortReals(before);
        forall y | y in sorted ensures Apart(rt.strikeAt.s, y, STRIKE_GAP) {
          StrikeListed(runtimes, order[..n], y);
          var k :| 0 <= k < n && runtimes[order[..n][k]].kind == Gold && runtimes[order[..n][k]].strikeAt == At(y);
          assert order[k] != order[n];
          assert StrikeOf(runtimes[order[k]]) == At(y) && StrikeOf(runtimes[order[n]]) == rt.strikeAt;
        }
        InsertMembers(rt.strikeAt.s, sorted);
        InsertRising(rt.strikeAt.s, sorted, STRIKE_GAP);
      } else {
        assert before + [] == before;
      }
    }
  }

  ghost function IngotIds(runtimes: Runtimes, order: seq<string>, t: real): set<string> {
    set id | id in order && id in runtimes && HasIngot(runtimes[id], t)
  }

  ghost function GoldIds(runtimes: Runtimes, order: seq<string>): set<string> {
    set id | id in order && id in runtimes && runtimes[id].kind == Gold
  }

  lemma IngotStep(runtimes: Runtimes, order: seq<string>, t: real)
    requires order != [] && order[|order| - 1] in runtimes && order[|order| - 1] !in order[..|order| - 1]
    ensures var n := |order| - 1;
            |IngotIds(runtimes, order, t)|
            == |IngotIds(runtimes, order[..n], t)| + (if HasIngot(runtimes[order[n]], t) then 1 else 0)
  {
    var n := |order| - 1;
    var rest := IngotIds(runtimes, order[..n], t);
    assert order == order[..n] + [order[n]];
    assert IngotIds(runtimes, order, t) == if HasIngot(runtimes[order[n]], t) then rest + {order[n]} else rest;
  }

  lemma IngotExactly(rt: Runtime, t: real)
    requires InOrder(rt)
    ensures HasIngot(rt, t) <==> rt.kind == Gold && t - rt.strikeAt.s > 1.2
  {
  }

  lemma SortedLast(xs: seq<real>, x: real)
    ensures SortReals(xs + [x]) == InsertReal(x, SortReals(xs))
  {
    assert (xs + [x])[..|xs|] == xs;
  }

  /** Counting landed strikes is counting the gold records whose ingot has reached the tray. */
  lemma {:induction false} LandedStrikes(runtimes: Runtimes, order: seq<string>, t: real)
    requires forall i :: 0 <= i < |order| ==> order[i] in runtimes && InOrder(runtimes[order[i]])
    requires forall i, j :: 0 <= i < j < |order| ==> order[i] != order[j]
    ensures CountLanded(SortReals(GoldStrikes(runtimes, order)), t)
         == |IngotIds(runtimes, order, t)|
  {
    if order == [] {
      assert IngotIds(runtimes, order, t) == {};
    } else {
      var n := |order| - 1;
      var rt, before := runtimes[order[n]], GoldStrikes(runtimes, order[..n]);
      LandedStrikes(runtimes, order[..n], t);
      assert InOrder(rt);
      IngotStep(runtimes, order, t);
      hide HasIngot, SortReals, IngotIds;
      IngotExactly(rt, t);
      if rt.kind == Gold {
        SortedLast(before, rt.strikeAt.s);
        CountInserted(rt.strikeAt.s, SortReals(before), t);
      } else {
        assert before + [] == before;
      }
    }
  }

  lemma {:induction false} AllStrikes(runtimes: Runtimes, order: seq<string>)
    requires forall i :: 0 <= i < |order| ==> order[i] in runtimes && InOrder(runtimes[order[i]])
    requires forall i, j :: 0 <= i < j < |order| ==> order[i] != order[j]
    ensures |SortReals(GoldStrikes(runtimes, order))| == |GoldIds(runtimes, order)|
  {
    SortedSize(GoldStrikes(runtimes, order));
    if order == [] {
      assert GoldIds(runtimes, order) == {};
    } else {
      var n := |order| - 1;
      AllStrikes(runtimes, order[..n]);
      SortedSize(GoldStrikes(runtimes, order[..n]));
      var rest := GoldIds(runtimes, order[..n]);
      assert order == order[..n] + [order[n]];
      assert order[n] !in order[..n];
      assert GoldIds(runtimes, order)
          == if runtimes[order[n]].kind == Gold then rest + {order[n]} else rest;
    }
  }

  lemma {:induction false} SortedSize(xs: seq<real>)
    ensures |SortReals(xs)| == |xs|
  {
    if xs != [] {
      SortedSize(xs[..|xs| - 1]);
      InsertMembers(xs[|xs| - 1], SortReals(xs[..|xs| - 1]));
    }
  }

  // ---------------------------------------------------------------- the renderer

  function FrameStage(rt: Runtime, t: real, settled: bool): Stage {
    if settled then SettledStage(rt) else StageAt(rt, t)
  }

  /** The stage callbacks of one frame: one for every record whose stage differs from the shown one. */
  function StageCalls(f: Forge, order: seq<string>, shown: map<string, Stage>, t: real, settled: bool): seq<(string, Stage)>
    requires forall i :: 0 <= i < |order| ==> order[i] in f.runtimes
  {
    if order == [] then []
    else
      var id := order[|order| - 1];
      var stage := FrameStage(f.runtimes[id], t, settled);
      StageCalls(f, order[..|order| - 1], shown, t, settled)
      + (if id in shown && shown[id] == stage then [] else [(id, stage)])
  }

  /** Stages already shown travel with the records that stay, unless the scene is replayed. */
  function Carried(shown: map<string, Stage>, f: Forge, spec: SceneSpec, t: real): map<string, Stage> {
    map id | id in shown && !IsReplay(f, spec) && id in Updated(f, spec, t).runtimes :: shown[id]
  }

  function ShownAfter(f: Forge, order: seq<string>, shown: map<string, Stage>, t: real, settled: bool): map<string, Stage>
    requires forall i :: 0 <= i < |order| ==> order[i] in f.runtimes
  {
    if order == [] then shown
    else
      var id := order[|order| - 1];
      ShownAfter(f, order[..|order| - 1], shown, t, settled)[id := FrameStage(f.runtimes[id], t, settled)]
  }

  lemma {:induction false} ShownExactly(f: Forge, order: seq<string>, shown: map<string, Stage>, t: real, settled: bool)
    requires forall i :: 0 <= i < |order| ==> order[i] in f.runtimes
    ensures forall id :: id in ShownAfter(f, order, shown, t, settled) <==> id in shown || id in order
    ensures forall id :: id in shown && id !in order ==> ShownAfter(f, order, shown, t, settled)[id] == shown[id]
    ensures forall id :: id in order ==>
      id in f.runtimes && ShownAfter(f, order, shown, t, settled)[id] == FrameStage(f.runtimes[id], t, settled)
  {
    hide FrameStage;
    if order != [] {
      ShownExactly(f, order[..|order| - 1], shown, t, settled);
      assert order == order[..|order| - 1] + [order[|order| - 1]];
    }
  }

  lemma StrikesOfGood(f: Forge)
    requires Good(f)
    ensures forall i :: 0 <= i < |f.order| ==> f.order[i] in f.runtimes && InOrder(f.runtimes[f.order[i]])
    ensures Rising(SortReals(GoldStrikes(f.runtimes, f.order)), STRIKE_GAP)
  {
    assert forall i :: 0 <= i < |f.order| ==> f.order[i] in f.order;
    StrikesRise(f.runtimes, f.order, f.cursor.strike);
  }

  /** What drawing one more record does to the shown stages and to the callbacks. */
  lemma FrameStep(f: Forge, order: seq<string>, shown: map<string, Stage>, t: real, settled: bool, i: nat)
    requires i < |order| && forall k :: 0 <= k < |order| ==> order[k] in f.runtimes
    requires forall k :: 0 <= k < i ==> order[k] != order[i]
    ensures var id, stage, was := order[i], FrameStage(f.runtimes[order[i]], t, settled), ShownAfter(f, order[..i], shown, t, settled);
            && (id in was && was[id] == stage <==> id in shown && shown[id] == stage)
            && ShownAfter(f, order[..i + 1], shown, t, settled) == was[id := stage]
            && StageCalls(f, order[..i + 1], shown, t, settled)
               == StageCalls(f, order[..i], shown, t, settled)
                  + (if id in shown && shown[id] == stage then [] else [(id, stage)])
  {
    hide FrameStage;
    ShownExactly(f, order[..i], shown, t, settled);
    assert order[..i + 1][..i] == order[..i];
    assert order[i] !in order[..i];
  }

  lemma NothingShown(f: Forge, shown: map<string, Stage>, t: real, settled: bool)
    ensures ShownAfter(f, [], shown, t, settled) == shown && StageCalls(f, [], shown, t, settled) == []
  {
  }

  lemma RecordsInOrder(f: Forge)
    requires Good(f)
    ensures forall id :: id in f.runtimes ==> InOrder(f.runtimes[id])
  {
  }

  class ForgeRenderer {
    var runtimes: Runtimes
    var order: seq<string>
    var strikes: seq<real>
    var cursor: Cursor
    var lastReplay: Replay
    var shown: map<string, Stage>
    var playing: bool
    var trayLanded: int
    var stageCalls: seq<(string, Stage)>

    ghost function Now(): Forge reads this {
      Forge(runtimes, order, cursor, lastReplay)
    }

    ghost predicate Valid() reads this {
      && Good(Now())
      && (forall id :: id in runtimes ==> InOrder(runtimes[id]))
      && strikes == SortReals(GoldStrikes(runtimes, order))
      && shown.Keys <= runtimes.Keys
    }

    constructor ()
      ensures Valid() && Now() == COLD && shown == map[] && stageCalls == []
    {
      runtimes, order, strikes, cursor, lastReplay := map[], [], [], NO_CURSOR, NoReplay;
      shown, playing, trayLanded, stageCalls := map[], false, -1, [];
    }

    /** The scheduling part of `update`; the frame it then draws is `EmitStages`. */
    method Update(spec: SceneSpec, t: real)
      requires Valid() && DistinctRecords(spec.threads)
      modifies this
      ensures Valid() && Now() == Updated(old(Now()), spec, t)
      ensures Rising(strikes, STRIKE_GAP)
      ensures shown == Carried(old(shown), old(Now()), spec, t)
      ensures stageCalls == old(stageCalls)
    {
      hide Good, DistinctRecords, Updated, InOrder, Rising, GoldStrikes, SortReals, IsReplay, Carried, FrameStage;
      UpdateKeepsGood(Now(), spec, t);
      Reschedule(spec, t);
      CollectStrikes();
      RecordsInOrder(Now());
    }

    method Reschedule(spec: SceneSpec, t: real)
      modifies this`runtimes, this`order, this`cursor, this`lastReplay, this`shown
      ensures Now() == Updated(old(Now()), spec, t)
      ensures shown == Carried(old(shown), old(Now()), spec, t)
      ensures shown.Keys <= runtimes.Keys
    {
      hide PlacedAll;
      var replay := lastReplay != Replayed(spec.replay);
      lastReplay := Replayed(spec.replay);
      if replay {
        runtimes := map[];
        cursor := NO_CURSOR;
        shown := map[];
      }
      PlaceThreads(spec, t + (if replay then 0.35 else 0.1), t);
      shown := map id | id in shown && id in runtimes :: shown[id];
    }

    method PlaceThreads(spec: SceneSpec, start: real, t: real)
      modifies this`runtimes, this`order, this`cursor
      ensures (runtimes, cursor) == PlacedAll(old(runtimes), spec.threads, old(cursor), start, t, spec.narrow)
      ensures order == Ids(spec.threads)
    {
      hide Placed;
      var next: Runtimes := map[];
      var keys := [];
      for i := 0 to |spec.threads|
        invariant runtimes == old(runtimes)
        invariant (next, cursor) == PlacedAll(old(runtimes), spec.threads[..i], old(cursor), start, t, spec.narrow)
        invariant keys == Ids(spec.threads[..i])
      {
        var thread := spec.threads[i];
        assert spec.threads[..i + 1][..i] == spec.threads[..i];
        var (rt, c) := Placed(Lookup(runtimes, thread.id), thread, cursor, start, t, spec.narrow);
        cursor := c;
        next := next[thread.id := rt];
        keys := keys + [thread.id];
      }
      assert spec.threads[..|spec.threads|] == spec.threads;
      runtimes, order := next, keys;
    }

    method CollectStrikes()
      requires Good(Now())
      modifies this`strikes
      ensures forall i :: 0 <= i < |order| ==> order[i] in runtimes && InOrder(runtimes[order[i]])
      ensures strikes == SortReals(GoldStrikes(runtimes, order))
      ensures Rising(strikes, STRIKE_GAP)
    {
      StrikesOfGood(Now());
      hide Good, InOrder, Rising, IsReplay, SortReals, InsertReal, GoldStrikes;
      ghost var all, keys := runtimes, order;
      NoStrikes(all);
      strikes := [];
      for i := 0 to |order|
        invariant runtimes == all && order == keys
        invariant strikes == SortReals(GoldStrikes(all, keys[..i]))
      {
        var rt := runtimes[order[i]];
        OneMoreStrike(all, keys, i);
        if rt.kind == Gold {
          strikes := InsertReal(rt.strikeAt.s, strikes);
        }
      }
      assert order[..|order|] == order;
    }

    method LastEvent() returns (last: Time)
      requires Valid()
      ensures forall i :: 0 <= i < |order| ==> order[i] in runtimes
      ensures last == LastEventAt(runtimes, order)
    {
      hide Timed, InOrder, LastOf, GoldStrikes, SortReals;
      assert forall i :: 0 <= i < |order| ==> order[i] in order;
      last := Never;
      for i := 0 to |order|
        invariant last == LastEventAt(runtimes, order[..i])
      {
        assert order[..i + 1][..i] == order[..i];
        last := LastOf(runtimes[order[i]], last);
      }
      assert order[..|order|] == order;
    }

    /** One frame's callbacks: every card's stage, whether anything still plays, and the tray. */
    method EmitStages(t: real, settled: bool)
      requires Valid()
      modifies this`shown, this`stageCalls, this`playing, this`trayLanded
      ensures Valid()
      ensures forall i :: 0 <= i < |order| ==> order[i] in runtimes
      ensures shown == map id | id in runtimes :: FrameStage(runtimes[id], t, settled)
      ensures stageCalls == old(stageCalls) + StageCalls(Now(), order, old(shown), t, settled)
      ensures playing <==> !settled && IsPlaying(Now(), t)
      ensures trayLanded == if settled then SettledTray(Now()) else TrayAt(Now(), t)
    {
      hide Timed, InOrder, FrameStage, StageCalls, GoldStrikes, SortReals, TrayAt, SettledTray;
      assert forall i :: 0 <= i < |order| ==> order[i] in order;
      ShowStages(t, settled);
      var last := LastEvent();
      playing := !settled && last.At? && t < last.s;
      TrayIsCount(t);
      if settled {
        trayLanded := |strikes|;
      } else {
        trayLanded := LandedNow(t);
      }
    }

    method ShowStages(t: real, settled: bool)
      requires forall i :: 0 <= i < |order| ==> order[i] in runtimes
      requires forall i, j :: 0 <= i < j < |order| ==> order[i] != order[j]
      requires forall id :: id in runtimes <==> id in order
      requires shown.Keys <= runtimes.Keys
      modifies this`shown, this`stageCalls
      ensures shown == map id | id in runtimes :: FrameStage(runtimes[id], t, settled)
      ensures stageCalls == old(stageCalls) + StageCalls(Now(), order, old(shown), t, settled)
    {
      hide FrameStage, ShownAfter, StageCalls;
      assert order[..0] == [];
      NothingShown(Now(), shown, t, settled);
      for i := 0 to |order|
        invariant shown == ShownAfter(Now(), order[..i], old(shown), t, settled)
        invariant stageCalls == old(stageCalls) + StageCalls(Now(), order[..i], old(shown), t, settled)
      {
        var id := order[i];
        var stage := FrameStage(runtimes[id], t, settled);
        FrameStep(Now(), order, old(shown), t, settled, i);
        if id !in shown || shown[id] != stage {
          shown := shown[id := stage];
          stageCalls := stageCalls + [(id, stage)];
        }
      }
      assert order[..|order|] == order;
      ShownExactly(Now(), order, old(shown), t, settled);
    }

    lemma TrayIsCount(t: real)
      requires Valid()
      ensures CountLanded(strikes, t) == TrayAt(Now(), t)
      ensures |strikes| == SettledTray(Now())
    {
      LandedStrikes(runtimes, order, t);
      AllStrikes(runtimes, order);
      assert IngotIds(runtimes, order, t) == (set id | id in runtimes && HasIngot(runtimes[id], t));
      assert GoldIds(runtimes, order) == (set id | id in runtimes && runtimes[id].kind == Gold);
    }

    method LandedNow(t: real) returns (n: nat)
      ensures n == CountLanded(strikes, t)
    {
      n := 0;
      var i := 0;
      while i < |strikes|
        invariant 0 <= i <= |strikes|
        invariant n + CountLanded(strikes[i..], t) == CountLanded(strikes, t)
      {
        assert strikes[i..][1..] == strikes[i + 1..];
        if t - strikes[i] > 1.2 {
          n := n + 1;
        }
        i := i + 1;
      }
    }
  }
}
