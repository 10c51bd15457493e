/**
 The dashboard bridge: each connected port may make one request, whose response is forwarded in small
 pieces; a timer, a disconnection, a second message or a storage change stops a port at any await.
 */
module DashboardBridge {

  const MAX_RESPONSE := 8_388_608
  const PIECE := 16_384
  const MAX_PORTS := 32

  type Byte = b: int | 0 <= b < 256

  datatype Message = Headers(status: nat) | Chunk(bytes: seq<Byte>) | Done | Error

  datatype Phase = Quiet | AwaitingStore | AwaitingFetch | Reading(total: nat) | Over

  /** One port: the closure's flags, its pending await, what it posted, and what the body gave it. */
  datatype Port = Port(started: bool, finished: bool, phase: Phase, posted: seq<Message>, received: seq<Byte>, bodyEnded: bool)

  datatype Read = Value(bytes: seq<Byte>) | End | Failure

  datatype PortEvent =
    | Request(allowed: bool)
    | StoreRead(paired: bool)
    | FetchFails
    | FetchEnds(status: nat, hasBody: bool)
    | ReadEnds(read: Read)
    | Stop

  const OPENED := Port(false, false, Quiet, [], [], false)

  /** The pieces that one read is posted in. */
  function Pieces(bytes: seq<Byte>): seq<Message> {
    if bytes == [] then []
    else if |bytes| <= PIECE then [Chunk(bytes)]
    else [Chunk(bytes[..PIECE])] + Pieces(bytes[PIECE..])
  }

  /** The catch block: tell the dashboard, unless the port is finished. */
  function Fail(p: Port): Port {
    p.(phase := Over, posted := if p.finished then p.posted else p.posted + [Error])
  }

  function Complete(p: Port): Port {
    p.(phase := Over, bodyEnded := true, posted := if p.finished then p.posted else p.posted + [Done])
  }

  function ReadStep(p: Port, read: Read): Port
    requires p.phase.Reading?
  {
    match read
    case Failure => Fail(p)
    case End => Complete(p)
    case Value(bytes) =>
      var q := p.(received := p.received + bytes);
      var total := p.phase.total + |bytes|;
      if p.finished then q.(phase := Over)
      else if total > MAX_RESPONSE then Fail(q)
      else q.(phase := Reading(total), posted := p.posted + Pieces(bytes))
  }

  function PortStep(p: Port, e: PortEvent): Port {
    match e
    case Stop => p.(finished := true)
    case Request(allowed) =>
      if p.finished then p
      else if p.started then p.(finished := true)
      else if !allowed then Fail(p.(started := true))
      else p.(started := true, phase := AwaitingStore)
    case StoreRead(paired) =>
      if p.phase != AwaitingStore then p
      else if !paired || p.finished then Fail(p)
      else p.(phase := AwaitingFetch)
    case FetchFails => if p.phase != AwaitingFetch then p else Fail(p)
    case FetchEnds(status, hasBody) =>
      if p.phase != AwaitingFetch then p
      else if p.finished then p.(phase := Over)
      else
        var q := p.(posted := p.posted + [Headers(status)]);
        if hasBody then q.(phase := Reading(0)) else Complete(q)
    case ReadEnds(read) => if p.phase.Reading? then ReadStep(p, read) else p
  }

  // ---------------------------------------------------------------- what one port posts

  function Bytes(posted: seq<Message>): seq<Byte> {
    if posted == [] then []
    else (if posted[0].Chunk? then posted[0].bytes else []) + Bytes(posted[1..])
  }

  lemma {:induction false} BytesConcat(a: seq<Message>, b: seq<Message>)
    ensures Bytes(a + b) == Bytes(a) + Bytes(b)
  {
    if a == [] {
      assert a + b == b;
    } else {
      assert (a + b)[1..] == a[1..] + b;
      BytesConcat(a[1..], b);
    }
  }

  /** Small non-empty pieces that put together are exactly the bytes read. */
  lemma {:induction false} PiecesExactly(bytes: seq<Byte>)
    ensures Bytes(Pieces(bytes)) == bytes
    ensures forall m :: m in Pieces(bytes) ==> m.Chunk? && 1 <= |m.bytes| <= 16_384
  {
    if |bytes| > PIECE {
      PiecesExactly(bytes[PIECE..]);
      assert ([Chunk(bytes[..PIECE])] + Pieces(bytes[PIECE..]))[1..] == Pieces(bytes[PIECE..]);
      assert bytes == bytes[..PIECE] + bytes[PIECE..];
    } else if bytes != [] {
      assert Bytes([Chunk(bytes)]) == bytes + Bytes([Chunk(bytes)][1..]);
    }
  }

  predicate IsLast(m: Message) {
    m == Done || m == Error
  }

  /** Headers only first, `done` and `error` only last, and every chunk small. */
  ghost predicate WellPosted(posted: seq<Message>) {
    forall i :: 0 <= i < |posted| ==>
      && (posted[i].Headers? ==> i == 0)
      && (posted[i].Chunk? ==> i > 0 && posted[0].Headers? && 1 <= |posted[i].bytes| <= PIECE)
      && (posted[i] == Done ==> i > 0)
      && (IsLast(posted[i]) ==> i == |posted| - 1)
  }

  predicate Ended(posted: seq<Message>) {
    posted != [] && IsLast(posted[|posted| - 1])
  }

  ghost predicate GoodPort(p: Port) {
    && WellPosted(p.posted)
    && Bytes(p.posted) <= p.received && |Bytes(p.posted)| <= MAX_RESPONSE
    && (p.phase.Quiet? || p.phase.AwaitingStore? || p.phase.AwaitingFetch? ==> p.posted == [] && p.received == [])
    && (p.phase.Quiet? <==> !p.started)
    && (p.phase.Reading? ==> p.posted != [] && p.posted[0].Headers? && !Ended(p.posted)
                             && Bytes(p.posted) == p.received && p.phase.total == |p.received|)
    && (p.phase.Over? && !p.finished ==> Ended(p.posted))
    && (Done in p.posted ==> p.bodyEnded && Bytes(p.posted) == p.received)
    && (p.bodyEnded ==> p.phase.Over?)
  }

  lemma AppendOne(posted: seq<Message>, m: Message)
    requires WellPosted(posted) && !Ended(posted)
    requires match m case Headers(_) => posted == [] case Error => true case Done => posted != []
                     case Chunk(bytes) => posted != [] && posted[0].Headers? && 1 <= |bytes| <= PIECE
    ensures WellPosted(posted + [m]) && Bytes(posted + [m]) == Bytes(posted) + (if m.Chunk? then m.bytes else [])
    ensures Ended(posted + [m]) == IsLast(m)
    ensures Done in posted + [m] <==> m == Done
  {
    BytesConcat(posted, [m]);
    assert Bytes([m]) == (if m.Chunk? then m.bytes else []) + Bytes([m][1..]);
    NoDoneYet(posted);
  }

  lemma {:induction false} AppendPieces(posted: seq<Message>, bytes: seq<Byte>)
    requires WellPosted(posted) && !Ended(posted) && posted != [] && posted[0].Headers? && Done !in posted
    ensures var all := posted + Pieces(bytes);
            WellPosted(all) && !Ended(all) && all != [] && all[0].Headers? && Bytes(all) == Bytes(posted) + bytes && Done !in all
  {
    PiecesExactly(bytes);
    BytesConcat(posted, Pieces(bytes));
    hide Pieces, Bytes;
    AppendChunks(posted, Pieces(bytes));
  }

  lemma AppendChunks(posted: seq<Message>, more: seq<Message>)
    requires WellPosted(posted) && !Ended(posted) && posted != [] && posted[0].Headers? && Done !in posted
    requires forall m :: m in more ==> m.Chunk? && 1 <= |m.bytes| <= PIECE
    ensures var all := posted + more; WellPosted(all) && !Ended(all) && all != [] && all[0].Headers? && Done !in all
  {
    var all := posted + more;
    forall i | |posted| <= i < |all| ensures all[i].Chunk? && 1 <= |all[i].bytes| <= PIECE {
      assert all[i] in more;
    }
  }

  lemma NoDoneYet(posted: seq<Message>)
    requires WellPosted(posted) && !Ended(posted)
    ensures Done !in posted
  {
  }

  lemma StepKeepsGoodPort(p: Port, e: PortEvent)
    requires GoodPort(p)
    ensures GoodPort(PortStep(p, e))
    ensures p.posted <= PortStep(p, e).posted
    ensures p.finished ==> PortStep(p, e).posted == p.posted && PortStep(p, e).finished
  {
    hide WellPosted, Pieces, Bytes, Ended;
    NothingPosted();
    if p.phase.Reading? {
      NoDoneYet(p.posted);
      AppendOne(p.posted, Error);
      AppendOne(p.posted, Done);
      if e.ReadEnds? && e.read.Value? {
        AppendPieces(p.posted, e.read.bytes);
      }
    } else if !p.phase.Over? {
      AppendOne([], Error);
      if e.FetchEnds? {
        AppendOne([], Headers(e.status));
        AppendOne([] + [Headers(e.status)], Done);
      }
    }
  }

  lemma NothingPosted()
    ensures WellPosted([]) && !Ended([]) && Bytes([]) == [] && GoodPort(OPENED)
  {
  }

  function RunPort(p: Port, events: seq<PortEvent>): Port
    decreases |events|
  {
    if events == [] then p else PortStep(RunPort(p, events[..|events| - 1]), events[|events| - 1])
  }

  lemma {:induction false} RunKeepsGoodPort(events: seq<PortEvent>)
    ensures GoodPort(RunPort(OPENED, events))
    decreases |events|
  {
    hide GoodPort;
    if events == [] {
      NothingPosted();
    } else {
      RunKeepsGoodPort(events[..|events| - 1]);
      StepKeepsGoodPort(RunPort(OPENED, events[..|events| - 1]), events[|events| - 1]);
    }
  }

  /**
   Whatever happens in whatever order: the pieces posted make up a prefix of the bytes read, at most
   8 MiB, each piece small; `done` is posted only when the body ended and all of it was posted, and is
   the last message.
   */
  lemma ForwardsAPrefix(events: seq<PortEvent>, i: nat)
    requires i < |RunPort(OPENED, events).posted|
    ensures var p := RunPort(OPENED, events);
            && Bytes(p.posted) <= p.received && |Bytes(p.posted)| <= 8_388_608
            && (p.posted[i].Chunk? ==> 1 <= |p.posted[i].bytes| <= 16_384)
            && (p.posted[i] == Done ==> p.bodyEnded && Bytes(p.posted) == p.received && i == |p.posted| - 1)
            && (p.posted[i] == Error ==> i == |p.posted| - 1)
  {
    RunKeepsGoodPort(events);
    hide Bytes;
  }

  // ---------------------------------------------------------------- what a port answers to

  ghost predicate Happened(events: seq<PortEvent>, e: PortEvent) {
    exists i :: 0 <= i < |events| && events[i] == e
  }

  lemma HappenedGrows(events: seq<PortEvent>, e: PortEvent)
    requires events != []
    ensures Happened(events, e) <==> Happened(events[..|events| - 1], e) || events[|events| - 1] == e
  {
  }

  ghost predicate IsConsented(p: Port, events: seq<PortEvent>) {
    && (p.phase.AwaitingStore? ==> Happened(events, Request(true)))
    && (p.phase.AwaitingFetch? || p.phase.Reading? || Posts(p) ==> Happened(events, Request(true)) && Happened(events, StoreRead(true)))
  }

  /** Something was posted that tells of the Kernel's response. */
  predicate Posts(p: Port) {
    exists i :: 0 <= i < |p.posted| && p.posted[i] != Error
  }

  /** Nothing of a response reaches the dashboard without a request that is allowed and a paired store. */
  lemma {:induction false} ResponseNeedsConsent(events: seq<PortEvent>)
    ensures IsConsented(RunPort(OPENED, events), events)
    decreases |events|
  {
    if events != [] {
      var before, e := events[..|events| - 1], events[|events| - 1];
      ResponseNeedsConsent(before);
      HappenedGrows(events, Request(true));
      HappenedGrows(events, StoreRead(true));
      hide Happened, Pieces;
      StepPosts(RunPort(OPENED, before), e);
    }
  }

  lemma StepPosts(p: Port, e: PortEvent)
    ensures Posts(PortStep(p, e)) ==> Posts(p) || p.phase.AwaitingFetch? || p.phase.Reading?
  {
    if !p.phase.AwaitingFetch? && !p.phase.Reading? && Posts(PortStep(p, e)) {
      var i :| 0 <= i < |PortStep(p, e).posted| && PortStep(p, e).posted[i] != Error;
      assert p.posted[i] != Error;
    }
  }

  predicate IsRequest(e: PortEvent) {
    e.Request?
  }

  /** One message is all a port takes: the second stops it, whatever came in between. */
  lemma {:induction false} SecondMessageStops(events: seq<PortEvent>)
    ensures var p := RunPort(OPENED, events);
            && ((exists i :: 0 <= i < |events| && IsRequest(events[i])) ==> p.started || p.finished)
            && ((exists i, j :: 0 <= i < j < |events| && IsRequest(events[i]) && IsRequest(events[j])) ==> p.finished)
    decreases |events|
  {
    if events != [] {
      SecondMessageStops(events[..|events| - 1]);
      hide Pieces;
    }
  }

  /** What goes wrong while the port is live: a request or a store that refuses, a fetch or a read that fails, or too much. */
  predicate GoesWrong(p: Port, e: PortEvent) {
    match e
    case Request(allowed) => !allowed && !p.started
    case StoreRead(paired) => !paired && p.phase.AwaitingStore?
    case FetchFails => p.phase.AwaitingFetch?
    case ReadEnds(read) => p.phase.Reading? && (read.Failure? || (read.Value? && |p.received| + |read.bytes| > 8_388_608))
    case _ => false
  }

  /** A live port is told of an error exactly when something goes wrong, and then it is over. */
  lemma ErrorExactly(events: seq<PortEvent>, e: PortEvent)
    requires !RunPort(OPENED, events).finished
    ensures var p := RunPort(OPENED, events);
            var q := PortStep(p, e);
            && (q.posted == p.posted + [Error] <==> GoesWrong(p, e))
            && (GoesWrong(p, e) ==> q.phase.Over?)
  {
    RunKeepsGoodPort(events);
    var p := RunPort(OPENED, events);
    assert (p.posted + [Error])[|p.posted|] == Error;
    if e.ReadEnds? && e.read.Value? && p.phase.Reading? {
      PiecesExactly(e.read.bytes);
      var pieces := Pieces(e.read.bytes);
      if pieces != [] {
        assert (p.posted + pieces)[|p.posted|] == pieces[0] && pieces[0] in pieces;
      }
    } else if e.FetchEnds? {
      assert (p.posted + [Headers(e.status)])[|p.posted|] == Headers(e.status);
    } else if e == ReadEnds(End) {
      assert (p.posted + [Done])[|p.posted|] == Done;
    }
    hide Pieces, Bytes, WellPosted, RunPort;
  }

  // ---------------------------------------------------------------- an undisturbed response

  function ReadAll(p: Port, parts: seq<seq<Byte>>): Port
    decreases |parts|
  {
    if parts == [] then p else PortStep(ReadAll(p, parts[..|parts| - 1]), ReadEnds(Value(parts[|parts| - 1])))
  }

  function Joined(parts: seq<seq<Byte>>): seq<Byte>
    decreases |parts|
  {
    if parts == [] then [] else Joined(parts[..|parts| - 1]) + parts[|parts| - 1]
  }

  lemma {:induction false} ReadsAreForwarded(p: Port, parts: seq<seq<Byte>>)
    requires GoodPort(p) && p.phase == Reading(0) && !p.finished && p.received == []
    ensures var q := ReadAll(p, parts);
            && GoodPort(q) && !q.finished && !q.bodyEnded
            && (|Joined(parts)| <= MAX_RESPONSE ==> q.phase.Reading? && q.received == Joined(parts))
            && (|Joined(parts)| > MAX_RESPONSE ==> q.phase == Over && q.posted != [] && q.posted[|q.posted| - 1] == Error)
    decreases |parts|
  {
    if parts == [] {
    } else {
      var before := ReadAll(p, parts[..|parts| - 1]);
      ReadsAreForwarded(p, parts[..|parts| - 1]);
      hide Pieces, Bytes, WellPosted;
      StepKeepsGoodPort(before, ReadEnds(Value(parts[|parts| - 1])));
    }
  }

  /**
   For every way the body is cut into reads: a body of at most 8 MiB is forwarded whole and followed by
   `done`; a longer one is never announced as done and ends in an error.
   */
  lemma BodyIsForwardedExactly(status: nat, parts: seq<seq<Byte>>)
    ensures var p := RunPort(OPENED, [Request(true), StoreRead(true), FetchEnds(status, true)]);
            var q := PortStep(ReadAll(p, parts), ReadEnds(End));
            && q.posted != [] && q.posted[0] == Headers(status)
            && (|Joined(parts)| <= 8_388_608 <==> q.posted[|q.posted| - 1] == Done)
            && (|Joined(parts)| <= 8_388_608 ==> Bytes(q.posted) == Joined(parts))
            && (|Joined(parts)| > 8_388_608 ==> q.posted[|q.posted| - 1] == Error)
  {
    OpenedForReading(status);
    var p := RunPort(OPENED, [Request(true), StoreRead(true), FetchEnds(status, true)]);
    hide Pieces, Bytes, WellPosted, RunPort;
    ReadsAreForwarded(p, parts);
    HeadersStay(p, parts);
    StepKeepsGoodPort(ReadAll(p, parts), ReadEnds(End));
  }

  lemma OpenedForReading(status: nat)
    ensures var p := RunPort(OPENED, [Request(true), StoreRead(true), FetchEnds(status, true)]);
            p == OPENED.(started := true, phase := Reading(0), posted := [Headers(status)]) && GoodPort(p)
  {
    var events := [Request(true), StoreRead(true), FetchEnds(status, true)];
    assert events[..2] == [Request(true), StoreRead(true)] && [Request(true), StoreRead(true)][..1] == [Request(true)];
    assert [Request(true)][..0] == [];
    assert [] + [Headers(status)] == [Headers(status)];
    assert RunPort(OPENED, [Request(true)]) == PortStep(OPENED, Request(true));
    assert RunPort(OPENED, [Request(true), StoreRead(true)]) == OPENED.(started := true, phase := AwaitingFetch);
    assert RunPort(OPENED, events) == OPENED.(started := true, phase := Reading(0), posted := [Headers(status)]);
    RunKeepsGoodPort(events);
  }

  lemma {:induction false} HeadersStay(p: Port, parts: seq<seq<Byte>>)
    requires p.posted != []
    ensures var q := ReadAll(p, parts); q.posted != [] && q.posted[0] == p.posted[0]
    decreases |parts|
  {
    if parts != [] {
      HeadersStay(p, parts[..|parts| - 1]);
    }
  }

  // ---------------------------------------------------------------- every port together

  datatype Bridge = Bridge(ports: map<nat, Port>, active: set<nat>)

  datatype Event = Connect(id: nat, approved: bool) | OnPort(id: nat, event: PortEvent) | SettingsChanged

  function StopAll(b: Bridge): Bridge {
    Bridge(map id | id in b.ports :: if id in b.active then PortStep(b.ports[id], Stop) else b.ports[id], {})
  }

  function Step(b: Bridge, e: Event): Bridge {
    match e
    case Connect(id, approved) =>
      if id in b.ports || !approved || |b.active| >= MAX_PORTS then b
      else Bridge(b.ports[id := OPENED], b.active + {id})
    case OnPort(id, event) =>
      if id !in b.ports then b
      else
        var p := PortStep(b.ports[id], event);
        Bridge(b.ports[id := p], if p.finished then b.active - {id} else b.active)
    case SettingsChanged => StopAll(b)
  }

  function Run(events: seq<Event>): Bridge
    decreases |events|
  {
    if events == [] then Bridge(map[], {}) else Step(Run(events[..|events| - 1]), events[|events| - 1])
  }

  ghost predicate GoodBridge(b: Bridge) {
    && |b.active| <= MAX_PORTS
    && (forall id :: id in b.active <==> id in b.ports && !b.ports[id].finished)
    && (forall id :: id in b.ports ==> GoodPort(b.ports[id]))
  }

  lemma StepKeepsGoodBridge(b: Bridge, e: Event)
    requires GoodBridge(b)
    ensures GoodBridge(Step(b, e))
  {
    hide GoodPort;
    match e
    case Connect(id, _) => NothingPosted();
    case OnPort(id, event) => PortEventKeepsGood(b, id, event);
    case SettingsChanged => StopAllKeepsGood(b);
  }

  lemma PortEventKeepsGood(b: Bridge, id: nat, event: PortEvent)
    requires GoodBridge(b)
    ensures GoodBridge(Step(b, OnPort(id, event)))
  {
    hide GoodPort, PortStep;
    if id in b.ports {
      StepKeepsGoodPort(b.ports[id], event);
      OneFewer(b.active, id);
    }
  }

  lemma StopAllKeepsGood(b: Bridge)
    requires GoodBridge(b)
    ensures GoodBridge(StopAll(b))
  {
    hide GoodPort, PortStep;
    forall id | id in b.ports ensures GoodPort(PortStep(b.ports[id], Stop)) && PortStep(b.ports[id], Stop).finished {
      StepKeepsGoodPort(b.ports[id], Stop);
      StopFinishes(b.ports[id]);
    }
  }

  lemma StopFinishes(p: Port)
    ensures PortStep(p, Stop) == p.(finished := true)
  {
  }

  lemma OneFewer(s: set<nat>, x: nat)
    ensures |s - {x}| <= |s|
  {
    if x in s {
      assert |s - {x}| == |s| - 1;
    } else {
      assert s - {x} == s;
    }
  }

  /**
   In every interleaving at most 32 ports are live, exactly those not stopped, and the port guarantees
   hold of all of them; a settings change stops every one of them.
   */
  lemma {:induction false} PortsStayBounded(events: seq<Event>)
    ensures GoodBridge(Run(events)) && |Run(events).active| <= 32
    ensures Step(Run(events), SettingsChanged).active == {}
    ensures forall id :: id in Run(events).ports ==> Step(Run(events), SettingsChanged).ports[id].finished
    decreases |events|
  {
    hide GoodPort;
    if events != [] {
      PortsStayBounded(events[..|events| - 1]);
      StepKeepsGoodBridge(Run(events[..|events| - 1]), events[|events| - 1]);
    }
  }

  /** Every port was approved when it connected; an approved one is taken exactly while fewer than 32 are live. */
  lemma {:induction false} PortsAreApproved(events: seq<Event>, id: nat)
    ensures id in Run(events).ports ==> Connect(id, true) in events
    ensures id !in Run(events).ports ==>
              forall approved :: id in Step(Run(events), Connect(id, approved)).active <==> approved && |Run(events).active| < 32
    decreases |events|
  {
    PortsStayBounded(events);
    if events != [] {
      PortsAreApproved(events[..|events| - 1], id);
      hide PortStep, GoodPort;
    }
  }

  class DashboardBridge {
    var ports: map<nat, Port>
    var active: set<nat>

    ghost function Now(): Bridge reads this {
      Bridge(ports, active)
    }

    constructor ()
      ensures Now() == Run([])
    {
      ports, active := map[], {};
    }

    method OnConnect(id: nat, approved: bool)
      requires id !in ports
      modifies this
      ensures Now() == Step(old(Now()), Connect(id, approved))
    {
      if !approved || |active| >= MAX_PORTS {
        return;
      }
      ports := ports[id := OPENED];
      active := active + {id};
    }

    method StopPort(id: nat)
      requires id in ports
      modifies this
      ensures Now() == Step(old(Now()), OnPort(id, Stop))
    {
      ports := ports[id := ports[id].(finished := true)];
      active := active - {id};
    }

    method OnSettingsChanged()
      requires forall id :: id in active ==> id in ports
      modifies this
      ensures Now() == Step(old(Now()), SettingsChanged)
    {
      while active != {}
        invariant active <= old(active) && forall id :: id in old(active) ==> id in ports
        invariant ports == map id | id in old(ports) ::
                    if id in old(active) && id !in active then PortStep(old(ports)[id], Stop) else old(ports)[id]
        decreases active
      {
        var id :| id in active;
        StopPort(id);
      }
    }

    method Post(id: nat, m: Message)
      requires id in ports
      modifies this`ports
      ensures ports == old(ports)[id := old(ports)[id].(posted := old(ports)[id].posted + [m])]
    {
      ports := ports[id := ports[id].(posted := ports[id].posted + [m])];
    }

    method End(id: nat, last: Message)
      requires id in ports && IsLast(last)
      modifies this`ports
      ensures ports == old(ports)[id := old(ports)[id].(phase := Over,
                posted := if old(ports)[id].finished then old(ports)[id].posted else old(ports)[id].posted + [last])]
    {
      if !ports[id].finished {
        Post(id, last);
      }
      ports := ports[id := ports[id].(phase := Over)];
    }

    method OnMessage(id: nat, allowed: bool)
      requires id in active && id in ports && !ports[id].finished
      modifies this
      ensures Now() == Step(old(Now()), OnPort(id, Request(allowed)))
    {
      if ports[id].started {
        StopPort(id);
        return;
      }
      ports := ports[id := ports[id].(started := true)];
      if allowed {
        ports := ports[id := ports[id].(phase := AwaitingStore)];
      } else {
        End(id, Error);
      }
    }

    method OnFetched(id: nat, status: nat, hasBody: bool)
      requires id in ports && ports[id].phase == AwaitingFetch && (ports[id].finished <==> id !in active)
      modifies this`ports
      ensures Now() == Step(old(Now()), OnPort(id, FetchEnds(status, hasBody)))
    {
      if ports[id].finished {
        ports := ports[id := ports[id].(phase := Over)];
        assert active - {id} == active;
        return;
      }
      Post(id, Headers(status));
      if hasBody {
        ports := ports[id := ports[id].(phase := Reading(0))];
      } else {
        OnBodyEnd(id);
      }
    }

    method OnBodyEnd(id: nat)
      requires id in ports
      modifies this`ports
      ensures ports == old(ports)[id := Complete(old(ports)[id])]
    {
      ports := ports[id := ports[id].(bodyEnded := true)];
      End(id, Done);
    }

    /** One read of the response body, and the loop that posts it in pieces. */
    method OnRead(id: nat, bytes: seq<Byte>)
      requires id in ports && ports[id].phase.Reading? && (!ports[id].finished ==> id in active)
      requires ports[id].finished ==> id !in active
      modifies this`ports
      ensures Now() == Step(old(Now()), OnPort(id, ReadEnds(Value(bytes))))
    {
      hide Pieces;
      var p := ports[id];
      var total := p.phase.total + |bytes|;
      ports := ports[id := p.(received := p.received + bytes)];
      if p.finished {
        ports := ports[id := ports[id].(phase := Over)];
        assert active - {id} == active;
        return;
      }
      if total > MAX_RESPONSE {
        Post(id, Error);
        ports := ports[id := ports[id].(phase := Over)];
        return;
      }
      PostPieces(id, bytes);
      ports := ports[id := ports[id].(phase := Reading(total))];
    }

    method PostPieces(id: nat, bytes: seq<Byte>)
      requires id in ports
      modifies this`ports
      ensures ports == old(ports)[id := old(ports)[id].(posted := old(ports)[id].posted + Pieces(bytes))]
    {
      hide Pieces;
      var p := ports[id];
      var i := 0;
      while i < |bytes|
        invariant 0 <= i && id in ports
        invariant ports == old(ports)[id := p.(posted := ports[id].posted)]
        invariant p.posted + Pieces(bytes) == ports[id].posted + Pieces(bytes[if i < |bytes| then i else |bytes|..])
      {
        var end := if i + PIECE < |bytes| then i + PIECE else |bytes|;
        assert bytes[i..][..end - i] == bytes[i..end];
        assert bytes[i..][end - i..] == bytes[end..];
        PiecesStep(bytes[i..]);
        ghost var posted := ports[id].posted;
        Post(id, Chunk(bytes[i..end]));
        assert posted + ([Chunk(bytes[i..end])] + Pieces(bytes[end..])) == ports[id].posted + Pieces(bytes[end..]);
        i := i + PIECE;
      }
      NoPieces();
      assert bytes[|bytes|..] == [];
      assert ports[id].posted + [] == ports[id].posted;
    }
  }

  lemma NoPieces()
    ensures Pieces([]) == []
  {
  }

  lemma PiecesStep(bytes: seq<Byte>)
    requires bytes != []
    ensures var n := if PIECE < |bytes| then PIECE else |bytes|;
            Pieces(bytes) == [Chunk(bytes[..n])] + Pieces(bytes[n..])
  {
    assert bytes[..|bytes|] == bytes;
  }
}
