/**
 The dashboard's connection gate: connects, reloads and disconnects around awaited Kernel reads, with
 a request counter that lets only the latest request act. Each request has a start and a finish, and
 finishes may come in any order.
 */
module ConnectionGate {
  import opened Text

  datatype Connection = Connection(baseUrl: string, token: string)

  datatype Overview = Overview(online: bool, body: string)

  /** A loaded overview together with the connection whose client fetched it. */
  datatype Snapshot = Snapshot(from: Connection, overview: Overview)

  datatype Request = Connecting(conn: Connection) | Reloading(conn: Connection)

  datatype Problem = Unauthorized | OtherProblem

  datatype Outcome = Loaded(overview: Overview) | Failed(problem: Problem)

  datatype Gate = Gate(
    mounted: bool,
    requestId: nat,
    controller: Option<nat>,
    store: Option<Connection>,
    snapshot: Option<Snapshot>,
    error: Option<Problem>,
    connecting: bool,
    pending: map<nat, Request>,
    aborted: set<nat>)

  const FRESH := Gate(true, 0, None, None, None, None, false, map[], {})

  datatype Event =
    | Mount
    | Unmount
    | Connect(normalized: Option<Connection>)
    | Reload
    | Disconnect
    | Finish(id: nat, outcome: Outcome)

  function AbortCurrent(g: Gate): Gate {
    g.(aborted := if g.controller.Some? then g.aborted + {g.controller.value} else g.aborted)
  }

  /** Abort the previous request, take the next number, and start reading. */
  function Begin(g: Gate, request: Request): Gate {
    var a := AbortCurrent(g);
    var id := a.requestId + 1;
    a.(requestId := id, controller := Some(id), pending := a.pending[id := request])
  }

  predicate IsCurrent(g: Gate, id: nat) {
    g.mounted && id == g.requestId
  }

  function Rejected(g: Gate, problem: Problem): Gate {
    g.(store := None, snapshot := None, error := Some(problem))
  }

  function Release(g: Gate, id: nat): Gate {
    g.(controller := if g.controller == Some(id) then None else g.controller, pending := g.pending - {id})
  }

  function FinishConnect(g: Gate, id: nat, conn: Connection, outcome: Outcome): Gate {
    if !IsCurrent(g, id) then g
    else
      var acted := match outcome
        case Loaded(overview) =>
          if overview.online then g.(store := Some(conn), snapshot := Some(Snapshot(conn, overview)))
          else Rejected(g, OtherProblem)
        case Failed(problem) => Rejected(g, problem);
      acted.(connecting := false)
  }

  function FinishReload(g: Gate, id: nat, conn: Connection, outcome: Outcome): Gate {
    if !IsCurrent(g, id) then g
    else match outcome
      case Loaded(overview) => g.(snapshot := Some(Snapshot(conn, overview)))
      case Failed(Unauthorized) => Rejected(g, Unauthorized)
      case Failed(OtherProblem) => g
  }

  function Step(g: Gate, e: Event): Gate {
    match e
    case Mount => g.(mounted := true)
    case Unmount =>
      AbortCurrent(g).(mounted := false, requestId := g.requestId + 1, controller := None, store := None)
    case Connect(normalized) =>
      // An invalid address fails before the first await, in the same turn.
      var conn := if normalized.Some? then normalized.value else Connection("", "");
      var begun := Begin(g, Connecting(conn)).(connecting := true, error := None);
      if normalized.Some? then begun
      else Release(FinishConnect(begun, begun.requestId, conn, Failed(OtherProblem)), begun.requestId)
    case Reload => if g.store.None? then g else Begin(g, Reloading(g.store.value))
    case Disconnect => AbortCurrent(g).(requestId := g.requestId + 1, store := None, snapshot := None)
    case Finish(id, outcome) =>
      if id !in g.pending then g
      else match g.pending[id]
        case Connecting(conn) => Release(FinishConnect(g, id, conn, outcome), id)
        case Reloading(conn) => Release(FinishReload(g, id, conn, outcome), id)
  }

  function Run(g: Gate, events: seq<Event>): Gate
    decreases |events|
  {
    if events == [] then g else Step(Run(g, events[..|events| - 1]), events[|events| - 1])
  }

  predicate Shown(g: Gate) {
    g.store.Some? && g.snapshot.Some?
  }

  ghost predicate Inv(g: Gate) {
    && (forall id :: id in g.pending ==> id <= g.requestId)
    && (g.store.Some? ==> g.mounted && g.snapshot.Some? && g.snapshot.value.from == g.store.value)
    && (g.requestId in g.pending && g.pending[g.requestId].Reloading? ==> g.store == Some(g.pending[g.requestId].conn))
    && (forall id :: id in g.pending && id !in g.aborted ==> g.controller == Some(id) && id == g.requestId)
  }

  lemma BeginKeepsInv(g: Gate, request: Request)
    requires Inv(g) && (request.Reloading? ==> g.store == Some(request.conn))
    ensures Inv(Begin(g, request))
  {
    var a := AbortCurrent(g);
    assert forall id :: id in g.pending ==> id in a.aborted;
  }

  lemma ActingKeepsInv(g: Gate, id: nat, conn: Connection, outcome: Outcome)
    requires Inv(g) && id in g.pending
    ensures g.pending[id] == Connecting(conn) ==> Inv(Release(FinishConnect(g, id, conn, outcome), id))
    ensures g.pending[id] == Reloading(conn) ==> Inv(Release(FinishReload(g, id, conn, outcome), id))
  {
  }

  lemma QuietKeepsInv(g: Gate, e: Event)
    requires Inv(g) && (e.Mount? || e.Unmount? || e.Disconnect?)
    ensures Inv(Step(g, e))
  {
    assert forall id :: id in g.pending ==> id in AbortCurrent(g).aborted;
  }

  lemma StepKeepsInv(g: Gate, e: Event)
    requires Inv(g)
    ensures Inv(Step(g, e))
  {
    if e.Mount? || e.Unmount? || e.Disconnect? {
      QuietKeepsInv(g, e);
    } else {
      hide Inv, Begin, FinishConnect, FinishReload, Release, AbortCurrent;
      match e
      case Connect(normalized) =>
        var conn := if normalized.Some? then normalized.value else Connection("", "");
        BeginKeepsInv(g, Connecting(conn));
        BusyIsFree(Begin(g, Connecting(conn)));
        if normalized.None? {
          NewestPending(g, Connecting(conn));
          var begun := Begin(g, Connecting(conn)).(connecting := true, error := None);
          ActingKeepsInv(begun, begun.requestId, conn, Failed(OtherProblem));
        }
      case Reload =>
        if g.store.Some? {
          BeginKeepsInv(g, Reloading(g.store.value));
        }
      case Finish(id, outcome) =>
        if id in g.pending {
          ActingKeepsInv(g, id, g.pending[id].conn, outcome);
        }
      case _ =>
    }
  }

  lemma BusyIsFree(g: Gate)
    requires Inv(g)
    ensures Inv(g.(connecting := true, error := None))
  {
  }

  lemma NewestPending(g: Gate, request: Request)
    ensures var b := Begin(g, request); b.requestId in b.pending && b.pending[b.requestId] == request
  {
  }

  lemma {:induction false} RunKeepsInv(events: seq<Event>)
    ensures Inv(Run(FRESH, events))
    decreases |events|
  {
    if events != [] {
      hide Step, Inv;
      RunKeepsInv(events[..|events| - 1]);
      StepKeepsInv(Run(FRESH, events[..|events| - 1]), events[|events| - 1]);
    } else {
      assert Inv(FRESH);
    }
  }

  /** What is shown was fetched with exactly the stored connection, in every interleaving. */
  lemma ShownIsStored(events: seq<Event>)
    ensures var g := Run(FRESH, events);
            && (Shown(g) ==> g.snapshot.value.from == g.store.value)
            && (g.store.Some? ==> Shown(g))
            && (!g.mounted ==> g.store.None?)
  {
    RunKeepsInv(events);
  }

  /** Every superseded request that is still in flight has been aborted. */
  lemma SupersededAreAborted(events: seq<Event>)
    ensures var g := Run(FRESH, events); forall id :: id in g.pending && id != g.requestId ==> id in g.aborted
  {
    RunKeepsInv(events);
  }

  // ---------------------------------------------------------------- latest request wins

  predicate SameView(g: Gate, h: Gate) {
    g.store == h.store && g.snapshot == h.snapshot && g.error == h.error && g.connecting == h.connecting
  }

  /** Finishing a request changes what is stored or shown only if it is the latest, while mounted. */
  lemma OnlyLatestActs(g: Gate, id: nat, outcome: Outcome)
    ensures !IsCurrent(g, id) ==> SameView(g, Step(g, Finish(id, outcome)))
  {
  }

  lemma {:induction false} NumbersOnlyGrow(g: Gate, events: seq<Event>)
    ensures Run(g, events).requestId >= g.requestId
    decreases |events|
  {
    if events != [] {
      NumbersOnlyGrow(g, events[..|events| - 1]);
    }
  }

  /** No request begun before a disconnect (or any later request) can change anything afterwards. */
  lemma NothingFromBefore(g: Gate, cut: Event, after: seq<Event>, id: nat, outcome: Outcome)
    requires Inv(g) && id in g.pending
    requires cut == Disconnect || cut == Unmount || cut.Connect? || (cut == Reload && g.store.Some?)
    ensures var h := Run(Step(g, cut), after); SameView(h, Step(h, Finish(id, outcome)))
  {
    NumbersOnlyGrow(Step(g, cut), after);
    OnlyLatestActs(Run(Step(g, cut), after), id, outcome);
  }

  /**
   The latest connect does act: while it is awaited the form is busy and shows no error; an online Kernel is
   stored and shown; anything else clears store and snapshot and is told. So is, at once, an address that
   does not normalize.
   */
  lemma LatestConnectActs(g: Gate, conn: Connection, others: seq<Event>, outcome: Outcome)
    requires Inv(g) && g.mounted
    requires forall i :: 0 <= i < |others| ==> others[i].Finish? && others[i].id <= g.requestId
    ensures var h := Run(Step(g, Connect(Some(conn))), others);
            var r := Step(h, Finish(g.requestId + 1, outcome));
            && h.connecting && h.error == None && !r.connecting
            && match outcome
               case Loaded(overview) =>
                 if overview.online then r.store == Some(conn) && r.snapshot == Some(Snapshot(conn, overview)) && r.error == None
                 else r.store == None && r.snapshot == None && r.error == Some(OtherProblem)
               case Failed(problem) => r.store == None && r.snapshot == None && r.error == Some(problem)
    ensures var r := Step(g, Connect(None)); !r.connecting && r.store == None && r.snapshot == None && r.error == Some(OtherProblem)
  {
    var begun := Step(g, Connect(Some(conn)));
    StaysLatest(begun, g.requestId + 1, others);
    OlderChangeNothing(begun, g.requestId + 1, others);
  }

  /** Mounted again after it was left, the page connects as a fresh one does. */
  lemma RemountedConnects(events: seq<Event>, conn: Connection, body: string)
    ensures var g := Run(FRESH, events + [Unmount, Mount]);
            var r := Step(Step(g, Connect(Some(conn))), Finish(g.requestId + 1, Loaded(Overview(true, body))));
            g.mounted && g.store == None && r.store == Some(conn) && r.snapshot == Some(Snapshot(conn, Overview(true, body)))
  {
    var all := events + [Unmount, Mount];
    assert all[..|all| - 1] == events + [Unmount] && (events + [Unmount])[..|events|] == events;
    RunKeepsInv(all);
    assert Run(Step(Run(FRESH, all), Connect(Some(conn))), []) == Step(Run(FRESH, all), Connect(Some(conn)));
    LatestConnectActs(Run(FRESH, all), conn, [], Loaded(Overview(true, body)));
  }

  /** After a disconnect nothing is stored or shown, whatever finishes, until a connect. */
  lemma {:induction false} DisconnectedUntilConnect(g: Gate, after: seq<Event>)
    requires Inv(g) && forall i :: 0 <= i < |after| ==> !after[i].Connect?
    ensures var r := Run(Step(g, Disconnect), after);
            && r.store == None && r.snapshot == None
            && forall id :: id in r.pending ==> id < r.requestId
    decreases |after|
  {
    if after != [] {
      DisconnectedUntilConnect(g, after[..|after| - 1]);
    }
  }

  /**
   The latest reload does act: it shows what it loaded, fetched with the stored connection; unauthorized it
   clears store and snapshot; any other failure leaves both as they are.
   */
  lemma LatestReloadActs(g: Gate, others: seq<Event>, outcome: Outcome)
    requires Inv(g) && g.mounted && g.store.Some?
    requires forall i :: 0 <= i < |others| ==> others[i].Finish? && others[i].id <= g.requestId
    ensures var r := Step(Run(Step(g, Reload), others), Finish(g.requestId + 1, outcome));
            match outcome
            case Loaded(overview) => r.store == g.store && r.snapshot == Some(Snapshot(g.store.value, overview))
            case Failed(Unauthorized) => r.store == None && r.snapshot == None && r.error == Some(Unauthorized)
            case Failed(OtherProblem) => r.store == g.store && r.snapshot == g.snapshot
  {
    var begun := Step(g, Reload);
    StaysLatest(begun, g.requestId + 1, others);
    OlderChangeNothing(begun, g.requestId + 1, others);
  }

  lemma {:induction false} OlderChangeNothing(g: Gate, id: nat, others: seq<Event>)
    requires g.mounted && g.requestId == id && id in g.pending
    requires forall i :: 0 <= i < |others| ==> others[i].Finish? && others[i].id < id
    ensures SameView(Run(g, others), g)
    decreases |others|
  {
    if others != [] {
      var n := |others| - 1;
      OlderChangeNothing(g, id, others[..n]);
      StaysLatest(g, id, others[..n]);
      OnlyLatestActs(Run(g, others[..n]), others[n].id, others[n].outcome);
    }
  }

  lemma {:induction false} StaysLatest(g: Gate, id: nat, others: seq<Event>)
    requires g.mounted && g.requestId == id && id in g.pending
    requires forall i :: 0 <= i < |others| ==> others[i].Finish? && others[i].id < id
    ensures var h := Run(g, others); h.mounted && h.requestId == id && id in h.pending && h.pending[id] == g.pending[id]
    decreases |others|
  {
    if others != [] {
      StaysLatest(g, id, others[..|others| - 1]);
    }
  }

  // ---------------------------------------------------------------- the form's busy state

  /** What the rendered page offers: the form while nothing is shown, disconnect and reload otherwise. */
  predicate Offered(g: Gate, e: Event) {
    match e
    case Mount => false
    case Connect(_) => g.mounted && !Shown(g) && !g.connecting
    case Disconnect => g.mounted && Shown(g)
    case _ => true
  }

  ghost predicate BusyInv(g: Gate) {
    && Inv(g)
    && (g.mounted ==> (g.connecting <==> g.requestId in g.pending && g.pending[g.requestId].Connecting?))
    && (g.mounted && g.connecting ==> g.store.None?)
  }

  lemma OfferedStep(g: Gate, e: Event)
    requires BusyInv(g) && Offered(g, e)
    ensures BusyInv(Step(g, e))
  {
    StepKeepsInv(g, e);
  }

  /** Every event was on offer when it came. */
  predicate AllOffered(events: seq<Event>)
    decreases |events|
  {
    events == [] || (AllOffered(events[..|events| - 1]) && Offered(Run(FRESH, events[..|events| - 1]), events[|events| - 1]))
  }

  lemma {:induction false} OfferedRunKeepsBusy(events: seq<Event>)
    requires AllOffered(events)
    ensures BusyInv(Run(FRESH, events))
    decreases |events|
  {
    hide Inv, Step, Offered;
    if events != [] {
      OfferedRunKeepsBusy(events[..|events| - 1]);
      OfferedStep(Run(FRESH, events[..|events| - 1]), events[|events| - 1]);
    } else {
      RunKeepsInv([]);
    }
  }

  /**
   Used through the page, from a fresh page on, the form is disabled exactly while its own connect is in
   flight, and nothing is stored meanwhile: it is never stuck.
   */
  lemma BusyWhileConnecting(events: seq<Event>)
    requires AllOffered(events)
    ensures var g := Run(FRESH, events);
            g.mounted ==>
              && (g.connecting <==> g.requestId in g.pending && g.pending[g.requestId].Connecting?)
              && (g.connecting ==> g.store.None?)
  {
    OfferedRunKeepsBusy(events);
  }

  // ---------------------------------------------------------------- the component

  class Component {
    var mounted: bool
    var requestId: nat
    var controller: Option<nat>
    var store: Option<Connection>
    var snapshot: Option<Snapshot>
    var error: Option<Problem>
    var connecting: bool
    var pending: map<nat, Request>
    var aborted: set<nat>

    ghost function Now(): Gate reads this {
      Gate(mounted, requestId, controller, store, snapshot, error, connecting, pending, aborted)
    }

    constructor ()
      ensures Now() == FRESH
    {
      mounted, requestId, controller, store, snapshot := true, 0, None, None, None;
      error, connecting, pending, aborted := None, false, map[], {};
    }

    method Abort()
      modifies this`aborted
      ensures Now() == AbortCurrent(old(Now()))
    {
      if controller.Some? {
        aborted := aborted + {controller.value};
      }
    }

    method BeginRequest(request: Request) returns (id: nat)
      modifies this`aborted, this`requestId, this`controller, this`pending
      ensures Now() == Begin(old(Now()), request) && id == requestId
    {
      Abort();
      id := requestId + 1;
      requestId := id;
      controller := Some(id);
      pending := pending[id := request];
    }

    method Reject(problem: Problem)
      modifies this`store, this`snapshot, this`error
      ensures Now() == Rejected(old(Now()), problem)
    {
      store := None;
      snapshot := None;
      error := Some(problem);
    }

    method Finally(id: nat)
      modifies this`controller, this`pending
      ensures Now() == Release(old(Now()), id)
    {
      if controller == Some(id) {
        controller := None;
      }
      pending := pending - {id};
    }

    method EndConnect(id: nat, conn: Connection, outcome: Outcome)
      modifies this`store, this`snapshot, this`error, this`connecting
      ensures Now() == FinishConnect(old(Now()), id, conn, outcome)
    {
      var current := mounted && id == requestId;
      if !current {
        return;
      }
      if outcome.Failed? {
        Reject(outcome.problem);
      } else if !outcome.overview.online {
        Reject(OtherProblem);
      } else {
        store := Some(conn);
        snapshot := Some(Snapshot(conn, outcome.overview));
      }
      connecting := false;
    }

    method ConnectTo(normalized: Option<Connection>)
      modifies this
      ensures Now() == Step(old(Now()), Connect(normalized))
    {
      var conn := if normalized.Some? then normalized.value else Connection("", "");
      var id := BeginRequest(Connecting(conn));
      connecting := true;
      error := None;
      if normalized.None? {
        EndConnect(id, conn, Failed(OtherProblem));
        Finally(id);
      }
    }

    method ReloadNow()
      modifies this
      ensures Now() == Step(old(Now()), Reload)
    {
      if store.None? {
        return;
      }
      var _ := BeginRequest(Reloading(store.value));
    }

    method DisconnectNow()
      modifies this
      ensures Now() == Step(old(Now()), Disconnect)
    {
      Abort();
      requestId := requestId + 1;
      store := None;
      snapshot := None;
    }

    method UnmountNow()
      modifies this
      ensures Now() == Step(old(Now()), Unmount)
    {
      Abort();
      mounted := false;
      requestId := requestId + 1;
      controller := None;
      store := None;
    }

    method FinishRequest(id: nat, outcome: Outcome)
      modifies this
      ensures Now() == Step(old(Now()), Finish(id, outcome))
    {
      if id !in pending {
        return;
      }
      match pending[id] {
        case Connecting(conn) =>
          EndConnect(id, conn, outcome);
        case Reloading(conn) =>
          if mounted && id == requestId {
            if outcome.Loaded? {
              snapshot := Some(Snapshot(conn, outcome.overview));
            } else if outcome.problem == Unauthorized {
              Reject(Unauthorized);
            }
          }
      }
      Finally(id);
    }
  }
}
