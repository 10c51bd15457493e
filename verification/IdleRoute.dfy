/**
 The idle crawler's wander: a list of timed segments that is extended ahead of the clock and trimmed
 behind it.
 */
module IdleRoute {
  import opened Text

  datatype Kind = Walk | Pause | Hide

  datatype Seg = Seg(kind: Kind, a: nat, b: nat, t0: real, t1: real)

  /** What `idleNext` decides after a segment: shares are random numbers below one, lengths are distances. */
  datatype Choice =
    | Think(share: real)
    | Vanish(to: nat, share: real)
    | Relocate(found: Option<nat>)
    | Go(to: nat, length: real)

  const SHORTEST := 0.3
  const LOOK_AHEAD := 1.0
  const LOOK_BACK := 1.5
  const GUARD := 64

  predicate IsChoice(c: Choice) {
    match c
    case Think(share) => 0.0 <= share < 1.0
    case Vanish(_, share) => 0.0 <= share < 1.0
    case Relocate(_) => true
    case Go(_, length) => length >= 0.0
  }

  function Next(prev: Seg, c: Choice, speed: real): Seg
    requires speed > 0.0
  {
    var at, t := prev.b, prev.t1;
    match c
    case Think(share) => Seg(Pause, at, at, t, t + 1.3 + share * 1.7)
    case Vanish(to, share) => Seg(Hide, at, to, t, t + 2.4 + share * 1.4)
    case Relocate(found) => Seg(Hide, at, if found.Some? then found.value else at, t, t + 2.2)
    case Go(to, length) => Seg(Walk, at, to, t, t + if length / speed > SHORTEST then length / speed else SHORTEST)
  }

  /** Segments follow each other without a gap in time or in place, and none is instantaneous. */
  ghost predicate Contiguous(segs: seq<Seg>) {
    && segs != []
    && (forall i :: 0 <= i < |segs| ==> segs[i].t1 >= segs[i].t0 + SHORTEST)
    && (forall i :: 0 <= i < |segs| - 1 ==> segs[i].t1 == segs[i + 1].t0 && segs[i].b == segs[i + 1].a)
  }

  predicate Holds(g: Seg, t: real) {
    g.t0 <= t < g.t1
  }

  lemma {:induction false} TimesRise(segs: seq<Seg>, i: nat, j: nat)
    requires Contiguous(segs) && i < j < |segs|
    ensures segs[i].t1 <= segs[j].t0
    decreases j - i
  {
    if i + 1 < j {
      TimesRise(segs, i, j - 1);
      assert segs[j - 1].t1 == segs[j - 1 + 1].t0;
    } else {
      assert segs[i].t1 == segs[i + 1].t0;
    }
  }

  /** Each moment between the first start and the last end lies in exactly one segment. */
  lemma {:induction false} MomentHasOneSegment(segs: seq<Seg>, t: real)
    requires Contiguous(segs) && segs[0].t0 <= t < segs[|segs| - 1].t1
    ensures exists i :: 0 <= i < |segs| && Holds(segs[i], t) && forall j :: 0 <= j < |segs| && Holds(segs[j], t) ==> j == i
    decreases |segs|
  {
    var n := |segs| - 1;
    var at := n;
    if t < segs[n].t0 {
      assert segs[n - 1].t1 == segs[n - 1 + 1].t0;
      MomentHasOneSegment(segs[..n], t);
      var i :| 0 <= i < n && Holds(segs[..n][i], t);
      at := i;
    }
    forall j | 0 <= j < |segs| && Holds(segs[j], t) ensures j == at {
      if j < at {
        TimesRise(segs, j, at);
      } else if at < j {
        TimesRise(segs, at, j);
      }
    }
  }

  lemma NextFollows(segs: seq<Seg>, c: Choice, speed: real)
    requires Contiguous(segs) && speed > 0.0 && IsChoice(c)
    ensures Contiguous(segs + [Next(segs[|segs| - 1], c, speed)])
  {
    var more := segs + [Next(segs[|segs| - 1], c, speed)];
    forall i | 0 <= i < |more| - 1 ensures more[i].t1 == more[i + 1].t0 && more[i].b == more[i + 1].a {
      if i < |segs| - 1 {
        assert segs[i].t1 == segs[i + 1].t0;
      }
    }
  }

  /**
   How long the crawler does what was chosen: it thinks for 1.3 to 3 seconds, hides for 2.2 or for 2.4 to 3.8,
   and walks at its speed, only slower when the way is too short for the shortest leg.
   */
  lemma LegsLast(prev: Seg, c: Choice, speed: real)
    requires speed > 0.0 && IsChoice(c)
    ensures var g := Next(prev, c, speed);
            var lasts := g.t1 - g.t0;
            && g.a == prev.b && g.t0 == prev.t1
            && (g.kind == Pause <==> c.Think?) && (g.kind == Walk <==> c.Go?)
            && match c
               case Think(_) => 1.3 <= lasts < 3.0 && g.b == g.a
               case Vanish(to, _) => 2.4 <= lasts < 3.8 && g.b == to
               case Relocate(found) => lasts == 2.2 && (found.None? ==> g.b == g.a) && (found.Some? ==> g.b == found.value)
               case Go(to, length) =>
                 && g.b == to && lasts >= 0.3 && length <= lasts * speed
                 && (length >= 0.3 * speed ==> length == lasts * speed)
  {
    if c.Go? {
      assert c.length / speed * speed == c.length;
    }
  }

  class IdleCrawler {
    var segs: seq<Seg>
    var key: string
    ghost var seeded: real

    /** The route of the last frame: contiguous, and reaching back to its seed or far enough. */
    ghost predicate Valid(now: real) reads this {
      segs != [] ==>
        && Contiguous(segs) && seeded <= now && segs[0].t0 >= seeded - 0.6
        && (segs[0].t0 == seeded - 0.6 || segs[0].t0 <= now - LOOK_BACK)
    }

    constructor ()
      ensures segs == []
    {
      segs, key := [], "";
    }

    /**
     Drawn at times that never go back, the route always holds the moment and the second ahead of it; the
     look back that the legs need is there exactly from nine tenths of a second after the last placement.
     */
    method Extend(now: real, scene: string, start: Option<nat>, choose: (Seg, nat) -> Choice, speed: real) returns (ok: bool)
      requires Valid(now) && speed > 0.0
      requires forall g, k :: IsChoice(choose(g, k))
      modifies this
      ensures Valid(now)
      ensures ok ==> segs != [] && key == scene && segs[|segs| - 1].t1 >= now + LOOK_AHEAD && segs[0].t0 <= now
      ensures ok ==> (segs[0].t0 <= now - LOOK_BACK <==> now >= seeded + 0.9)
      ensures ok && |segs| > 2 ==> segs[1].t1 >= now - LOOK_BACK
      ensures ok ==> seeded == old(seeded) || seeded == now
      ensures !ok ==> segs == old(segs) && seeded == old(seeded) && start.None?
    {
      if key != scene || segs == [] || segs[|segs| - 1].t1 < now - 2.0 {
        key := scene;
        if start.None? {
          return false;
        }
        segs := [Seg(Hide, start.value, start.value, now - 0.6, now + 0.6)];
        seeded := now;
      }
      var guard := 0;
      while segs[|segs| - 1].t1 < now + LOOK_AHEAD && guard < GUARD
        invariant Contiguous(segs) && Valid(now) && key == scene && (seeded == old(seeded) || seeded == now)
        invariant 0 <= guard <= GUARD && segs[|segs| - 1].t1 >= now - 2.0 + guard as real * SHORTEST
        decreases GUARD - guard
      {
        var last := segs[|segs| - 1];
        NextFollows(segs, choose(last, guard), speed);
        segs := segs + [Next(last, choose(last, guard), speed)];
        guard := guard + 1;
      }
      while |segs| > 2 && segs[1].t1 < now - LOOK_BACK
        invariant Contiguous(segs) && Valid(now) && key == scene && (seeded == old(seeded) || seeded == now)
        invariant segs[|segs| - 1].t1 >= now + LOOK_AHEAD
        decreases |segs|
      {
        assert segs[0].t1 == segs[0 + 1].t0;
        segs := segs[1..];
      }
      ok := true;
    }
  }
}
