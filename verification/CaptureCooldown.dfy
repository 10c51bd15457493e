/**
 Automatic captures and their cooldown: the stored map forgets captures older than the cooldown, and
 each capture writes back the map it read before its awaits.
 */
module CaptureCooldown {
  import opened Text

  const COOLDOWN := 30 * 60 * 1000

  type Store = map<string, int>

  /** A capture that was remembered, and when. */
  datatype Entry = Entry(key: string, at: int)

  function Remember(previous: Store, key: string, now: int): Store {
    (map k | k in previous && now - previous[k] < COOLDOWN :: previous[k])[key := now]
  }

  method RememberAutoCapture(previous: Store, key: string, now: int) returns (kept: Store)
    ensures kept == Remember(previous, key, now)
  {
    kept := map[];
    var rest := previous.Keys;
    while rest != {}
      invariant rest <= previous.Keys
      invariant kept == map k | k in previous && k !in rest && now - previous[k] < COOLDOWN :: previous[k]
    {
      var url :| url in rest;
      if now - previous[url] < COOLDOWN {
        kept := kept[url := previous[url]];
      }
      rest := rest - {url};
    }
    kept := kept[key := now];
  }

  /** The cooldown test on the pruned map. */
  predicate OnCooldown(store: Store, key: string, now: int) {
    var last := if key in store then store[key] else 0;
    last > 0 && now - last < COOLDOWN
  }

  /** The same question asked of every capture ever remembered: was the page captured in the last half hour? */
  predicate CapturedLately(history: seq<Entry>, key: string, now: int) {
    exists i :: 0 <= i < |history| && history[i].key == key && now - history[i].at < 1_800_000
  }

  // ---------------------------------------------------------------- captures in flight

  /** What one capture read before its awaits, and the page it is sending once it was allowed. */
  datatype Flight = Flight(read: Store, sending: Option<string>)

  datatype Worker = Worker(stored: Store, flights: map<nat, Flight>, history: seq<Entry>, clock: int)

  datatype Event =
    | StoreRead(id: nat)
    | PageRead(id: nat, key: string, permitted: bool, now: int)
    | PageFailed(id: nat)
    | SendEnds(id: nat, ok: bool, now: int)

  predicate Permits(f: Flight, e: Event)
    requires e.PageRead?
  {
    e.permitted && !OnCooldown(f.read, e.key, e.now)
  }

  function Step(w: Worker, e: Event): Worker {
    match e
    case StoreRead(id) =>
      if id in w.flights then w else w.(flights := w.flights[id := Flight(w.stored, None)])
    case PageFailed(id) =>
      if id in w.flights && w.flights[id].sending.None? then w.(flights := w.flights - {id}) else w
    case PageRead(id, key, _, now) =>
      if id !in w.flights || w.flights[id].sending.Some? then w.(clock := now)
      else if Permits(w.flights[id], e) then
        w.(flights := w.flights[id := w.flights[id].(sending := Some(key))], clock := now)
      else w.(flights := w.flights - {id}, clock := now)
    case SendEnds(id, ok, now) =>
      if id !in w.flights || w.flights[id].sending.None? then w.(clock := now)
      else if !ok then w.(flights := w.flights - {id}, clock := now)
      else
        var key := w.flights[id].sending.value;
        Worker(Remember(w.flights[id].read, key, now), w.flights - {id}, w.history + [Entry(key, now)], now)
  }

  const FRESH := Worker(map[], map[], [], 1)

  function Run(events: seq<Event>): Worker
    decreases |events|
  {
    if events == [] then FRESH else Step(Run(events[..|events| - 1]), events[|events| - 1])
  }

  predicate Forward(w: Worker, e: Event) {
    (e.PageRead? || e.SendEnds?) ==> e.now >= w.clock
  }

  predicate Timely(events: seq<Event>)
    decreases |events|
  {
    events == [] || (Timely(events[..|events| - 1]) && Forward(Run(events[..|events| - 1]), events[|events| - 1]))
  }

  /** No capture starts while another is under way. */
  predicate OneByOne(events: seq<Event>)
    decreases |events|
  {
    events == [] || (OneByOne(events[..|events| - 1])
                     && (events[|events| - 1].StoreRead? ==> Run(events[..|events| - 1]).flights == map[]))
  }

  // ---------------------------------------------------------------- the pruned map answers for the history

  /** Now and at every later time the store gives the answers of the whole history. */
  ghost predicate DecidesAlike(store: Store, history: seq<Entry>, now: int) {
    forall key, at :: at >= now ==> (OnCooldown(store, key, at) <==> CapturedLately(history, key, at))
  }

  ghost predicate OnlyReal(store: Store, history: seq<Entry>) {
    forall key :: key in store ==> store[key] > 0 && Entry(key, store[key]) in history
  }

  ghost predicate Past(history: seq<Entry>, now: int) {
    forall i :: 0 <= i < |history| ==> 0 < history[i].at <= now
  }

  predicate Covers(store: Store, e: Entry, now: int) {
    now - e.at >= COOLDOWN || (e.key in store && store[e.key] >= e.at)
  }

  ghost predicate CoversAll(store: Store, history: seq<Entry>, now: int) {
    forall i :: 0 <= i < |history| ==> Covers(store, history[i], now)
  }

  lemma AlikeExactly(store: Store, history: seq<Entry>, now: int)
    requires OnlyReal(store, history) && Past(history, now)
    ensures DecidesAlike(store, history, now) <==> CoversAll(store, history, now)
  {
    if DecidesAlike(store, history, now) {
      forall i | 0 <= i < |history| ensures Covers(store, history[i], now) {
        var e := history[i];
        if now - e.at < COOLDOWN {
          assert CapturedLately(history, e.key, e.at + COOLDOWN - 1);
          assert OnCooldown(store, e.key, e.at + COOLDOWN - 1);
        }
      }
    }
    if CoversAll(store, history, now) {
      forall key, at | at >= now ensures OnCooldown(store, key, at) <==> CapturedLately(history, key, at) {
        if OnCooldown(store, key, at) {
          var i :| 0 <= i < |history| && history[i] == Entry(key, store[key]);
        }
        if CapturedLately(history, key, at) {
          var i :| 0 <= i < |history| && history[i].key == key && at - history[i].at < COOLDOWN;
          assert Covers(store, history[i], now);
        }
      }
    }
  }

  /**
   A capture writes back what it read. The new map answers for the whole history exactly when every
   capture of another page, remembered before or since that read, is in it or past the cooldown.
   */
  lemma WriteExactly(read: Store, before: seq<Entry>, since: seq<Entry>, key: string, now: int)
    requires OnlyReal(read, before) && Past(before + since, now) && now > 0
    ensures var history := before + since;
            DecidesAlike(Remember(read, key, now), history + [Entry(key, now)], now)
            <==> forall i :: 0 <= i < |history| && history[i].key != key ==> Covers(read, history[i], now)
  {
    var older := before + since;
    var store, history := Remember(read, key, now), older + [Entry(key, now)];
    assert history[|older|] == Entry(key, now);
    forall k | k in store ensures store[k] > 0 && Entry(k, store[k]) in history {
      if k != key {
        assert Entry(k, store[k]) in before;
      }
    }
    AlikeExactly(store, history, now);
    forall i | 0 <= i < |older|
      ensures history[i] == older[i] && (Covers(store, older[i], now) <==> older[i].key == key || Covers(read, older[i], now))
    {
    }
  }

  ghost predicate Spaced(history: seq<Entry>) {
    forall i, j :: 0 <= i < j < |history| && history[i].key == history[j].key ==> history[j].at - history[i].at >= 1_800_000
  }

  // ---------------------------------------------------------------- captures one by one

  ghost predicate Exact(w: Worker) {
    && w.clock > 0 && |w.flights| <= 1
    && OnlyReal(w.stored, w.history) && Past(w.history, w.clock) && CoversAll(w.stored, w.history, w.clock)
    && Spaced(w.history)
    && forall id :: id in w.flights ==>
         && w.flights[id].read == w.stored
         && (w.flights[id].sending.Some? ==> !CapturedLately(w.history, w.flights[id].sending.value, w.clock))
  }

  lemma StepKeepsExact(w: Worker, e: Event)
    requires Exact(w) && Forward(w, e) && (e.StoreRead? ==> w.flights == map[])
    ensures Exact(Step(w, e))
  {
    hide Remember, OnCooldown, CapturedLately, Covers;
    var v := Step(w, e);
    if e.SendEnds? && v.history != w.history {
      Remembered(w, e.id, e.now);
    } else if e.PageRead? {
      CoversLater(w.stored, w.history, w.clock, e.now);
      AlikeExactly(w.stored, w.history, e.now);
      LaterStays(w, e.now);
    } else if e.SendEnds? {
      CoversLater(w.stored, w.history, w.clock, e.now);
      LaterStays(w, e.now);
    }
  }

  /**
   Answered, a capture is over. It is remembered exactly when it was sent; turned away, refused or failed
   it leaves the map and the history as they are.
   */
  lemma CaptureEndsExactly(events: seq<Event>, id: nat, now: int, ok: bool, key: string, permitted: bool)
    requires id in Run(events).flights
    ensures var w := Run(events);
            var f := w.flights[id];
            var sent, read := Step(w, SendEnds(id, ok, now)), Step(w, PageRead(id, key, permitted, now));
            && (f.sending.Some? ==>
                  && sent.flights == w.flights - {id}
                  && sent.history == w.history + (if ok then [Entry(f.sending.value, now)] else [])
                  && (!ok ==> sent.stored == w.stored))
            && (f.sending.None? ==>
                  && read.stored == w.stored && read.history == w.history
                  && (id in read.flights <==> permitted && !OnCooldown(f.read, key, now))
                  && (id in read.flights ==> read.flights[id] == Flight(f.read, Some(key)))
                  && Step(w, PageFailed(id)) == w.(flights := w.flights - {id}))
  {
    hide Remember, OnCooldown, Run;
    assert Run(events).history + [] == Run(events).history;
  }

  lemma LaterStays(w: Worker, now: int)
    requires now >= w.clock
    ensures forall key :: !CapturedLately(w.history, key, w.clock) ==> !CapturedLately(w.history, key, now)
  {
  }

  lemma CoversLater(store: Store, history: seq<Entry>, now: int, later: int)
    requires CoversAll(store, history, now) && later >= now && Past(history, now)
    ensures CoversAll(store, history, later) && Past(history, later)
  {
    assert forall i :: 0 <= i < |history| ==> Covers(store, history[i], now);
  }

  lemma Remembered(w: Worker, id: nat, now: int)
    requires Exact(w) && now >= w.clock && id in w.flights && w.flights[id].sending.Some?
    ensures Exact(Step(w, SendEnds(id, true, now)))
  {
    var key := w.flights[id].sending.value;
    var entry := Entry(key, now);
    CoversLater(w.stored, w.history, w.clock, now);
    assert w.history + [] == w.history;
    assert forall i :: 0 <= i < |w.history| ==> Covers(w.stored, w.history[i], now);
    WriteExactly(w.stored, w.history, [], key, now);
    var v := Step(w, SendEnds(id, true, now));
    assert forall k :: k in v.stored ==> Entry(k, v.stored[k]) in w.history || Entry(k, v.stored[k]) == entry;
    assert v.history[|w.history|] == entry;
    AlikeExactly(v.stored, v.history, now);
    OnlyFlight(w.flights, id);
    forall i | 0 <= i < |w.history| && w.history[i].key == key ensures now - w.history[i].at >= COOLDOWN {
      assert !CapturedLately(w.history, key, w.clock);
    }
  }

  lemma OnlyFlight(flights: map<nat, Flight>, id: nat)
    requires |flights| <= 1 && id in flights
    ensures flights - {id} == map[]
  {
    assert |flights.Keys| == |flights|;
    assert |flights.Keys - {id}| == 0;
    assert (flights - {id}).Keys == flights.Keys - {id};
  }

  /**
   Captures that do not overlap: at every point of every run the pruned map decides, now and later, as
   the full history would, and two remembered captures of one page are at least the cooldown apart.
   */
  lemma {:induction false} PruningIsExact(events: seq<Event>)
    requires Timely(events) && OneByOne(events)
    ensures var w := Run(events); DecidesAlike(w.stored, w.history, w.clock) && Spaced(w.history) && Exact(w)
    decreases |events|
  {
    if events == [] {
      AlikeExactly(map[], [], 1);
    } else {
      var w, e := Run(events[..|events| - 1]), events[|events| - 1];
      PruningIsExact(events[..|events| - 1]);
      StepKeepsExact(w, e);
      AlikeExactly(Step(w, e).stored, Step(w, e).history, Step(w, e).clock);
    }
  }

  // ---------------------------------------------------------------- overlapping captures

  ghost predicate Real(w: Worker) {
    && w.clock > 0 && OnlyReal(w.stored, w.history) && Past(w.history, w.clock)
    && forall id :: id in w.flights ==> OnlyReal(w.flights[id].read, w.history)
  }

  lemma OnlyRealGrows(store: Store, history: seq<Entry>, e: Entry)
    requires OnlyReal(store, history)
    ensures OnlyReal(store, history + [e])
  {
  }

  lemma WriteIsReal(read: Store, history: seq<Entry>, e: Entry)
    requires OnlyReal(read, history) && e.at > 0
    ensures OnlyReal(Remember(read, e.key, e.at), history + [e])
  {
    assert (history + [e])[|history|] == e;
  }

  lemma StepKeepsReal(w: Worker, e: Event)
    requires Real(w) && Forward(w, e)
    ensures Real(Step(w, e))
  {
    var v := Step(w, e);
    if v.history != w.history {
      var read, entry := w.flights[e.id].read, Entry(w.flights[e.id].sending.value, e.now);
      WriteIsReal(read, w.history, entry);
      forall id | id in w.flights ensures OnlyReal(w.flights[id].read, v.history) {
        OnlyRealGrows(w.flights[id].read, w.history, entry);
      }
      hide OnlyReal, Remember, OnCooldown;
    } else {
      hide OnlyReal, Remember, OnCooldown;
    }
  }

  lemma {:induction false} RunStaysReal(events: seq<Event>)
    requires Timely(events)
    ensures Real(Run(events))
    decreases |events|
  {
    if events != [] {
      RunStaysReal(events[..|events| - 1]);
      StepKeepsReal(Run(events[..|events| - 1]), events[|events| - 1]);
    }
  }

  /** Overlaps only ever let captures through: a permitted page is turned away only if it was captured lately. */
  lemma NeverBlockedWithoutCause(events: seq<Event>, id: nat, key: string, now: int)
    requires Timely(events) && now >= Run(events).clock
    requires id in Run(events).flights && OnCooldown(Run(events).flights[id].read, key, now)
    ensures CapturedLately(Run(events).history, key, now)
  {
    RunStaysReal(events);
    var read, history := Run(events).flights[id].read, Run(events).history;
    var i :| 0 <= i < |history| && history[i] == Entry(key, read[key]);
  }

  /** The map read has every capture of this page that was remembered before the read and is young. */
  predicate CoversPage(read: Store, before: seq<Entry>, key: string, now: int) {
    forall i :: 0 <= i < |before| && before[i].key == key ==> Covers(read, before[i], now)
  }

  /**
   A page is decided from the map read before the page's own awaits. The answer is wrong exactly when
   that map lets the page pass although it was captured lately: since the read, or before it by a capture
   that an earlier overlap has lost from the map.
   */
  lemma DecisionExactly(read: Store, before: seq<Entry>, since: seq<Entry>, key: string, now: int)
    requires OnlyReal(read, before) && Past(before + since, now)
    ensures (OnCooldown(read, key, now) <==> CapturedLately(before + since, key, now))
            <==> (CapturedLately(since, key, now) || !CoversPage(read, before, key, now) ==> OnCooldown(read, key, now))
  {
    var history := before + since;
    forall i | 0 <= i < |before| ensures history[i] == before[i] {}
    forall i | 0 <= i < |since| ensures history[|before| + i] == since[i] {}
    assert CapturedLately(history, key, now) <==> CapturedLately(before, key, now) || CapturedLately(since, key, now);
    if OnCooldown(read, key, now) {
      var i :| 0 <= i < |before| && before[i] == Entry(key, read[key]);
      assert CapturedLately(before, key, now);
    } else {
      UncoveredExactly(read, before, key, now);
    }
  }

  /** A map that lets a page pass covers it exactly when it was not captured lately before the read. */
  lemma UncoveredExactly(read: Store, before: seq<Entry>, key: string, now: int)
    requires OnlyReal(read, before) && !OnCooldown(read, key, now)
    ensures CoversPage(read, before, key, now) <==> !CapturedLately(before, key, now)
  {
  }

  /**
   The capture of a page that the map read lets pass keeps the captures of each page the cooldown apart
   exactly when this page was not captured lately since the read, and no earlier overlap has lost a young
   capture of it from the map.
   */
  lemma SpacedExactly(read: Store, before: seq<Entry>, since: seq<Entry>, key: string, decided: int, sent: int)
    requires OnlyReal(read, before) && !OnCooldown(read, key, decided) && decided <= sent && Spaced(before + since)
    ensures Spaced(before + since + [Entry(key, sent)])
            <==> !CapturedLately(since, key, sent) && CoversPage(read, before, key, sent)
  {
    var older := before + since;
    UncoveredExactly(read, before, key, sent);
    forall i | 0 <= i < |before| ensures older[i] == before[i] {}
    forall i | 0 <= i < |since| ensures older[|before| + i] == since[i] {}
    assert CapturedLately(older, key, sent) <==> CapturedLately(before, key, sent) || CapturedLately(since, key, sent);
    SpacedAppend(older, key, sent);
  }

  lemma SpacedAppend(history: seq<Entry>, key: string, at: int)
    requires Spaced(history)
    ensures Spaced(history + [Entry(key, at)]) <==> !CapturedLately(history, key, at)
  {
    var all := history + [Entry(key, at)];
    assert all[|history|] == Entry(key, at);
    forall i | 0 <= i < |history| ensures all[i] == history[i] {}
    if CapturedLately(history, key, at) {
      var i :| 0 <= i < |history| && history[i].key == key && at - history[i].at < COOLDOWN;
      assert all[|history|].at - all[i].at < COOLDOWN;
    }
  }

  ghost predicate HistoryGrew(events: seq<Event>, k: nat) {
    k <= |events| && Run(events[..k]).history <= Run(events).history
  }

  lemma {:induction false} HistoryGrows(events: seq<Event>, k: nat)
    requires k <= |events|
    ensures HistoryGrew(events, k)
    decreases |events|
  {
    hide Remember, Permits;
    assert events[..|events|] == events;
    if k < |events| {
      HistoryGrows(events[..|events| - 1], k);
      assert events[..|events| - 1][..k] == events[..k];
    }
  }

  /** When the k-th state of the run was read; a page being sent was let pass by it, and still would be. */
  ghost predicate ReadAt(events: seq<Event>, id: nat, k: nat) {
    && id in Run(events).flights && HistoryGrew(events, k)
    && Run(events).flights[id].read == Run(events[..k]).stored
    && (Run(events).flights[id].sending.Some? ==>
          !OnCooldown(Run(events).flights[id].read, Run(events).flights[id].sending.value, Run(events).clock))
  }

  lemma FlightStep(w: Worker, e: Event, id: nat)
    requires Forward(w, e) && id in Step(w, e).flights
    ensures var f := Step(w, e).flights[id];
            if id in w.flights then
              && f.read == w.flights[id].read
              && (w.flights[id].sending.Some? ==> f == w.flights[id])
              && (w.flights[id].sending.None? && f.sending.Some? ==> !OnCooldown(f.read, f.sending.value, Step(w, e).clock))
            else f == Flight(w.stored, None)
    ensures Step(w, e).clock >= w.clock
  {
    hide Remember, OnCooldown;
  }

  lemma PassesLater(store: Store, key: string, now: int, later: int)
    requires !OnCooldown(store, key, now) && later >= now
    ensures !OnCooldown(store, key, later)
  {
  }

  lemma {:induction false} FlightReadAt(events: seq<Event>, id: nat) returns (k: nat)
    requires Timely(events) && id in Run(events).flights
    ensures ReadAt(events, id, k)
    decreases |events|
  {
    hide Step, OnCooldown;
    var n := |events| - 1;
    var w := Run(events[..n]);
    FlightStep(w, events[n], id);
    if id in w.flights {
      k := FlightReadAt(events[..n], id);
      assert events[..n][..k] == events[..k];
      var f := w.flights[id];
      if f.sending.Some? {
        PassesLater(f.read, f.sending.value, w.clock, Run(events).clock);
      }
    } else {
      k := n;
    }
    HistoryGrows(events, k);
  }

  /**
   In every run, with captures overlapping as they may: remembering one more capture keeps the captures of
   each page the cooldown apart exactly when they were, when its page was not captured lately since its
   read, and when the map it read still covered its page.
   */
  lemma RememberedExactly(events: seq<Event>, id: nat, now: int) returns (k: nat)
    requires Timely(events) && now >= Run(events).clock
    requires id in Run(events).flights && Run(events).flights[id].sending.Some?
    ensures ReadAt(events, id, k)
    ensures var w, before := Run(events), Run(events[..k]).history;
            var key := w.flights[id].sending.value;
            Spaced(Step(w, SendEnds(id, true, now)).history)
            <==> Spaced(w.history) && !CapturedLately(w.history[|before|..], key, now)
                 && CoversPage(w.flights[id].read, before, key, now)
  {
    k := FlightReadAt(events, id);
    var w, before := Run(events), Run(events[..k]).history;
    var f := w.flights[id];
    PrefixIsTimely(events, k);
    RunStaysReal(events[..k]);
    var since := w.history[|before|..];
    assert w.history == before + since;
    if Spaced(w.history) {
      SpacedExactly(f.read, before, since, f.sending.value, w.clock, now);
    } else {
      var i, j :| 0 <= i < j < |w.history| && w.history[i].key == w.history[j].key && w.history[j].at - w.history[i].at < COOLDOWN;
      var all := Step(w, SendEnds(id, true, now)).history;
      assert all[i] == w.history[i] && all[j] == w.history[j];
    }
  }

  lemma {:induction false} PrefixIsTimely(events: seq<Event>, k: nat)
    requires Timely(events) && k <= |events|
    ensures Timely(events[..k])
    decreases |events|
  {
    if k < |events| {
      PrefixIsTimely(events[..|events| - 1], k);
      assert events[..|events| - 1][..k] == events[..k];
    } else {
      assert events[..k] == events;
    }
  }

  /**
   Whatever happened before, two captures of one page that both read the store before either is
   remembered are both remembered, with no cooldown between them.
   */
  lemma OverlapIsNotSpaced(w: Worker, a: nat, b: nat, page: string, now: int)
    requires a != b && a !in w.flights && b !in w.flights && !OnCooldown(w.stored, page, now)
    ensures var w1 := Step(Step(w, StoreRead(a)), StoreRead(b));
            var w2 := Step(Step(w1, PageRead(a, page, true, now)), PageRead(b, page, true, now));
            var w3 := Step(Step(w2, SendEnds(a, true, now)), SendEnds(b, true, now));
            w3.history == w.history + [Entry(page, now), Entry(page, now)] && !Spaced(w3.history)
  {
    TwoSent(w, a, b, page, page, now);
    var history, n := w.history + [Entry(page, now), Entry(page, now)], |w.history|;
    assert history[n] == history[n + 1] == Entry(page, now);
  }

  /**
   Nor need captures of one page overlap. Whatever happened before: of two overlapping captures of
   different pages the second writes back a map without the first one's page. A third capture then reads
   alone, finds nothing, and captures that page again at once.
   */
  lemma LostCaptureIsNotSpaced(w: Worker, a: nat, b: nat, c: nat, page: string, other: string, now: int)
    requires a != b && a != c && b != c && a !in w.flights && b !in w.flights && c !in w.flights
    requires page != other && !OnCooldown(w.stored, page, now) && !OnCooldown(w.stored, other, now)
    ensures var w1 := Step(Step(w, StoreRead(a)), StoreRead(b));
            var w2 := Step(Step(w1, PageRead(a, page, true, now)), PageRead(b, other, true, now));
            var w3 := Step(Step(w2, SendEnds(a, true, now)), SendEnds(b, true, now));
            var w4 := Step(w3, StoreRead(c));
            var w5 := Step(Step(w4, PageRead(c, page, true, now)), SendEnds(c, true, now));
            && w3.flights == w.flights
            && !OnCooldown(w4.flights[c].read, page, now) && CapturedLately(w4.history, page, now)
            && w5.history == w.history + [Entry(page, now), Entry(other, now), Entry(page, now)] && !Spaced(w5.history)
  {
    var w1 := Step(Step(w, StoreRead(a)), StoreRead(b));
    TwoSent(w, a, b, page, other, now);
    hide OnCooldown, Remember;
    var w2 := Step(Step(w1, PageRead(a, page, true, now)), PageRead(b, other, true, now));
    var w3 := Step(Step(w2, SendEnds(a, true, now)), SendEnds(b, true, now));
    LostFromMap(w.stored, page, other, now);
    var n := |w.history|;
    assert w3.history[n] == Entry(page, now);
    var w4 := Step(w3, StoreRead(c));
    var w5 := Step(Step(w4, PageRead(c, page, true, now)), SendEnds(c, true, now));
    assert w5.history == w.history + [Entry(page, now), Entry(other, now), Entry(page, now)];
    assert w5.history[n] == w5.history[n + 2] == Entry(page, now);
  }

  lemma LostFromMap(stored: Store, page: string, other: string, now: int)
    requires page != other && !OnCooldown(stored, page, now)
    ensures !OnCooldown(Remember(stored, other, now), page, now)
  {
  }

  lemma TwoSent(w: Worker, a: nat, b: nat, page: string, other: string, now: int)
    requires a != b && a !in w.flights && b !in w.flights
    requires !OnCooldown(w.stored, page, now) && !OnCooldown(w.stored, other, now)
    ensures var w1 := Step(Step(w, StoreRead(a)), StoreRead(b));
            var w2 := Step(Step(w1, PageRead(a, page, true, now)), PageRead(b, other, true, now));
            var w3 := Step(Step(w2, SendEnds(a, true, now)), SendEnds(b, true, now));
            && w3.flights == w.flights && w3.stored == Remember(w.stored, other, now)
            && w3.history == w.history + [Entry(page, now), Entry(other, now)]
  {
    hide OnCooldown, Remember;
    var w1 := Step(Step(w, StoreRead(a)), StoreRead(b));
    var w2 := Step(Step(w1, PageRead(a, page, true, now)), PageRead(b, other, true, now));
    assert w2.flights[a] == Flight(w.stored, Some(page)) && w2.flights[b] == Flight(w.stored, Some(other));
    var w3 := Step(Step(w2, SendEnds(a, true, now)), SendEnds(b, true, now));
    assert w2.flights - {a} - {b} == w.flights;
  }

  class CaptureWorker {
    var stored: Store
    var flights: map<nat, Flight>
    ghost var history: seq<Entry>
    ghost var clock: int

    ghost function Now(): Worker reads this {
      Worker(stored, flights, history, clock)
    }

    constructor ()
      ensures Now() == FRESH
    {
      stored, flights, history, clock := map[], map[], [], 1;
    }

    method Begin(id: nat)
      requires id !in flights
      modifies this`flights
      ensures Now() == Step(old(Now()), StoreRead(id))
    {
      flights := flights[id := Flight(stored, None)];
    }

    method Evaluate(id: nat, key: string, permitted: bool, now: int) returns (allowed: bool)
      requires id in flights && flights[id].sending.None?
      modifies this`flights, this`clock
      ensures allowed == Permits(old(flights)[id], PageRead(id, key, permitted, now))
      ensures Now() == Step(old(Now()), PageRead(id, key, permitted, now))
    {
      clock := now;
      var read := flights[id].read;
      var lastCapturedAt := if key in read then read[key] else 0;
      allowed := permitted && !(lastCapturedAt > 0 && now - lastCapturedAt < COOLDOWN);
      if allowed {
        flights := flights[id := Flight(read, Some(key))];
      } else {
        flights := flights - {id};
      }
    }

    method Delivered(id: nat, ok: bool, now: int)
      requires id in flights && flights[id].sending.Some?
      modifies this
      ensures Now() == Step(old(Now()), SendEnds(id, ok, now))
    {
      clock := now;
      if ok {
        var key := flights[id].sending.value;
        stored := RememberAutoCapture(flights[id].read, key, now);
        history := history + [Entry(key, now)];
      }
      flights := flights - {id};
    }
  }
}
