/**
 Delivery of Kernel SUPPORT Find receipts as OS notifications: the Kernel inbox, the extension's
 bounded memory of delivered ids, and one alarm tick over both. Creating a notification and marking
 a receipt read may each fail.
 */
module FindDelivery {
  import opened Text
  import opened Recency
  import opened Windows

  const MEMORY := 100
  const WINDOW := 40

  datatype Item = NotObject
                | Receipt(sourceType: Field, dedupeKey: Field, id: Field, title: Field,
                          evidenceIds: Option<seq<Field>>, state: Field)

  const UNREAD := Field.Text("unread")
  const READ := Field.Text("read")
  const DISMISSED := Field.Text("dismissed")

  predicate HasText(fields: seq<Field>) {
    exists f :: f in fields && TextOf(f) != ""
  }

  predicate IsFind(item: Item) {
    && item.Receipt?
    && item.sourceType == Field.Text("opportunity")
    && "find:supported:" <= TextOf(item.dedupeKey)
    && TextOf(item.id) != ""
    && TextOf(item.title) != ""
    && item.evidenceIds.Some? && HasText(item.evidenceIds.value)
  }

  function IdText(item: Item): string {
    if item.Receipt? && item.id.Text? then item.id.s else ""
  }

  function Cleaned(fields: seq<Field>): seq<string> {
    if fields == [] then []
    else (if TextOf(fields[0]) == "" then [] else [TextOf(fields[0])]) + Cleaned(fields[1..])
  }

  predicate IsUnread(item: Item) {
    item.Receipt? && item.state == UNREAD
  }

  /** Raised by a tick: an unread SUPPORT Find whose raw id is not among the cleaned memory. */
  predicate IsUndelivered(item: Item, delivered: seq<Field>) {
    IsFind(item) && IsUnread(item) && IdText(item) !in Cleaned(delivered)
  }

  function Deliverable(delivered: seq<Field>): Item -> bool {
    item => IsUndelivered(item, delivered)
  }

  function Undelivered(items: seq<Item>, delivered: seq<Field>): seq<Item> {
    Filter(items, Deliverable(delivered))
  }

  function IdTexts(items: seq<Item>): (r: seq<string>)
    ensures |r| == |items|
  {
    seq(|items|, i requires 0 <= i < |items| => IdText(items[i]))
  }

  function Texts(ids: seq<string>): seq<Field> {
    seq(|ids|, i requires 0 <= i < |ids| => Field.Text(ids[i]))
  }

  function Remember(previous: seq<Field>, newly: seq<Field>, limit: nat): seq<string> {
    Take(Distinct(Cleaned(newly + previous), {}), if limit == 0 then 1 else limit)
  }

  method RememberDelivered(previous: seq<Field>, newly: seq<Field>, limit: nat := MEMORY) returns (next: seq<string>)
    ensures next == Remember(previous, newly, limit)
  {
    hide TextOf;
    next := [];
    var seen: set<string> := {};
    var all := newly + previous;
    var i := 0;
    ghost var goal := Distinct(Cleaned(all), {});
    assert all[0..] == all;
    while i < |all|
      invariant 0 <= i <= |all|
      invariant next == [] || |next| < limit
      invariant goal == next + Distinct(Cleaned(all[i..]), seen)
    {
      var id := all[i];
      i := i + 1;
      assert all[i - 1..] == [id] + all[i..];
      assert ([TextOf(id)] + Cleaned(all[i..]))[1..] == Cleaned(all[i..]);
      if TextOf(id) == "" || TextOf(id) in seen {
        assert [] + Cleaned(all[i..]) == Cleaned(all[i..]);
        continue;
      }
      seen := seen + {TextOf(id)};
      next := next + [TextOf(id)];
      if |next| >= limit { break; }
    }
  }

  // ---------------------------------------------------------------- the Kernel inbox

  /** `list({ state: 'unread', limit })`: filter, then cut. The inbox is in listing order. */
  function UnreadOf(inbox: seq<Item>): seq<Item> {
    Filter(inbox, IsUnread)
  }

  function ListUnread(inbox: seq<Item>, limit: nat): seq<Item> {
    Take(UnreadOf(inbox), limit)
  }

  /** The request carries the trimmed id; the gateway compares it exactly and never revives a dismissed one. */
  function MarkedItem(item: Item, id: string): Item {
    if item.Receipt? && item.id == Field.Text(Trim(id)) && item.state != DISMISSED then item.(state := READ) else item
  }

  function MarkRead(inbox: seq<Item>, id: string): (r: seq<Item>)
    ensures |r| == |inbox|
  {
    seq(|inbox|, i requires 0 <= i < |inbox| => MarkedItem(inbox[i], id))
  }

  // ---------------------------------------------------------------- one delivery

  /** What goes wrong in a tick: the first notification that cannot be created, and failed read marks. */
  datatype Trouble = Trouble(createFailsAt: Option<nat>, markFails: set<nat>)

  datatype State = State(delivered: seq<Field>, inbox: seq<Item>, notified: seq<string>)

  function Created(selected: nat, trouble: Trouble): (n: nat)
    ensures n <= selected
  {
    if trouble.createFailsAt.Some? && trouble.createFailsAt.value < selected
    then trouble.createFailsAt.value else selected
  }

  /** The inbox after the first `n` ids were marked, except those whose mark fails. */
  function MarkAll(inbox: seq<Item>, ids: seq<string>, fails: set<nat>, n: nat): seq<Item>
    requires n <= |ids|
    decreases n
  {
    if n == 0 then inbox
    else
      var before := MarkAll(inbox, ids, fails, n - 1);
      if n - 1 in fails then before else MarkRead(before, ids[n - 1])
  }

  function Deliver(s: State, list: seq<Item>, trouble: Trouble): State {
    var selected := Undelivered(list, s.delivered);
    var n := Created(|selected|, trouble);
    State(
      if selected == [] || n < |selected| then s.delivered
      else Texts(Remember(s.delivered, Texts(IdTexts(selected)), MEMORY)),
      MarkAll(s.inbox, IdTexts(selected), trouble.markFails, n),
      s.notified + IdTexts(selected)[..n])
  }

  /** The service worker's storage, the Kernel inbox and the notifications raised so far. */
  class Courier {
    var delivered: seq<Field>
    var inbox: seq<Item>
    var notified: seq<string>

    ghost function Now(): State reads this {
      State(delivered, inbox, notified)
    }

    constructor (inbox: seq<Item>)
      ensures Now() == State([], inbox, [])
    {
      this.delivered, this.inbox, this.notified := [], inbox, [];
    }

    /** Raise and mark the ids in order; the count is short exactly when a create failed. */
    method RaiseEach(ids: seq<string>, trouble: Trouble) returns (n: nat)
      modifies this`inbox, this`notified
      ensures n == Created(|ids|, trouble)
      ensures inbox == MarkAll(old(inbox), ids, trouble.markFails, n)
      ensures notified == old(notified) + ids[..n]
    {
      n := 0;
      while n < |ids|
        invariant n <= Created(|ids|, trouble)
        invariant inbox == MarkAll(old(inbox), ids, trouble.markFails, n)
        invariant notified == old(notified) + ids[..n]
      {
        if trouble.createFailsAt == Some(n) {
          return;
        }
        notified := notified + [ids[n]];
        if n !in trouble.markFails {
          inbox := MarkRead(inbox, ids[n]);
        }
        n := n + 1;
      }
    }

    method DeliverFinds(list: seq<Item>, trouble: Trouble) returns (any: bool)
      modifies this
      ensures Now() == Deliver(old(Now()), list, trouble)
      ensures any <==> Undelivered(list, old(delivered)) != []
                       && Created(|Undelivered(list, old(delivered))|, trouble) == |Undelivered(list, old(delivered))|
    {
      var selected := Undelivered(list, delivered);
      if selected == [] {
        return false;
      }
      var n := RaiseEach(IdTexts(selected), trouble);
      if n < |selected| {
        return false;
      }
      var remembered := RememberDelivered(delivered, Texts(IdTexts(selected)));
      delivered := Texts(remembered);
      return true;
    }

    /** The delivery half of an alarm tick: list the unread window, then deliver it. */
    method Tick(trouble: Trouble)
      modifies this
      ensures Now() == TickOf(old(Now()), trouble)
    {
      var _ := DeliverFinds(ListUnread(inbox, WINDOW), trouble);
    }
  }

  function TickOf(s: State, trouble: Trouble): State {
    Deliver(s, ListUnread(s.inbox, WINDOW), trouble)
  }

  // ---------------------------------------------------------------- at most once, over every run

  datatype Round = Round(list: seq<Item>, trouble: Trouble)

  function Run(s: State, rounds: seq<Round>): State
    decreases |rounds|
  {
    if rounds == [] then s
    else var last := rounds[|rounds| - 1];
         Deliver(Run(s, rounds[..|rounds| - 1]), last.list, last.trouble)
  }

  /** Trimmed ids of the batches whose every notification was created, newest batch first. */
  function History(s: State, rounds: seq<Round>): seq<string>
    decreases |rounds|
  {
    if rounds == [] then []
    else
      var before := rounds[..|rounds| - 1];
      var last := rounds[|rounds| - 1];
      var selected := Undelivered(last.list, Run(s, before).delivered);
      (if Created(|selected|, last.trouble) == |selected| then Cleaned(Texts(IdTexts(selected))) else []) + History(s, before)
  }

  lemma {:induction false} CleanedConcat(a: seq<Field>, b: seq<Field>)
    ensures Cleaned(a + b) == Cleaned(a) + Cleaned(b)
  {
    if a == [] {
      assert a + b == b;
    } else {
      assert (a + b)[1..] == a[1..] + b;
      CleanedConcat(a[1..], b);
    }
  }

  lemma {:induction false} CleanedAreTrimmed(fields: seq<Field>)
    ensures forall id :: id in Cleaned(fields) ==> id != "" && Trimmed(id)
  {
    if fields != [] {
      CleanedAreTrimmed(fields[1..]);
      if fields[0].Text? {
        TrimIsTrimmed(fields[0].s);
      }
    }
  }

  lemma {:induction false} CleanedTexts(ids: seq<string>)
    requires forall id :: id in ids ==> id != "" && Trimmed(id)
    ensures Cleaned(Texts(ids)) == ids
  {
    if ids != [] {
      forall id | id in ids[1..] ensures id != "" && Trimmed(id) {
        assert id in ids;
      }
      assert Texts(ids)[1..] == Texts(ids[1..]);
      CleanedTexts(ids[1..]);
      TrimIsTrimmed(ids[0]);
    }
  }

  lemma RememberedAreTrimmed(previous: seq<Field>, newly: seq<Field>)
    ensures Cleaned(Texts(Remember(previous, newly, MEMORY))) == Remember(previous, newly, MEMORY)
  {
    CleanedAreTrimmed(newly + previous);
    var all := Distinct(Cleaned(newly + previous), {});
    DistinctElems(Cleaned(newly + previous), {});
    forall id | id in Remember(previous, newly, MEMORY) ensures id != "" && Trimmed(id) {
      assert id in Elems(all);
    }
    CleanedTexts(Remember(previous, newly, MEMORY));
  }

  /** The bounded memory is exactly the latest 100 distinct ids of the whole delivery history. */
  lemma {:induction false} MemoryIsLatestHundred(s: State, rounds: seq<Round>)
    requires s.delivered == []
    ensures Cleaned(Run(s, rounds).delivered) == Take(Distinct(History(s, rounds), {}), 100)
    decreases |rounds|
  {
    if rounds != [] {
      var before := rounds[..|rounds| - 1];
      var last := rounds[|rounds| - 1];
      MemoryIsLatestHundred(s, before);
      var prior := Run(s, before);
      var selected := Undelivered(last.list, prior.delivered);
      if selected == [] || Created(|selected|, last.trouble) < |selected| {
        assert History(s, rounds) == History(s, before);
      } else {
        CleanedConcat(Texts(IdTexts(selected)), prior.delivered);
        RememberedAreTrimmed(prior.delivered, Texts(IdTexts(selected)));
        PushTruncated(Cleaned(Texts(IdTexts(selected))), History(s, before), MEMORY);
      }
    }
  }

  /**
   A receipt already in the history, offered again unread, is raised again exactly when at least 100
   distinct other ids were delivered in front of it: in its own batch or in later ones.
   */
  lemma RaisedAgainExactly(s: State, rounds: seq<Round>, item: Item)
    requires s.delivered == [] && item.Receipt? && item.state == UNREAD
    ensures var history := History(s, rounds);
            IsFind(item) && IdText(item) in history ==>
              (IsUndelivered(item, Run(s, rounds).delivered)
               <==> |Elems(history[..First(history, IdText(item))])| >= 100)
  {
    MemoryIsLatestHundred(s, rounds);
    if IdText(item) in History(s, rounds) {
      KeptExactly(History(s, rounds), IdText(item), MEMORY);
    }
  }

  /** An id with outer white space never matches the cleaned memory: exactly those are never suppressed. */
  lemma UntrimmedIsNeverSuppressed(item: Item)
    requires IsFind(item) && item.state == UNREAD
    ensures (forall delivered :: IsUndelivered(item, delivered)) <==> !Trimmed(item.id.s)
  {
    var memory := [item.id];
    TrimIsTrimmed(item.id.s);
    if Trimmed(item.id.s) {
      assert Cleaned(memory) == [item.id.s];
      assert !IsUndelivered(item, memory);
    } else {
      forall delivered ensures IsUndelivered(item, delivered) {
        CleanedAreTrimmed(delivered);
      }
    }
  }

  /**
   The i-th receipt of the inbox is unread, fewer than 40 unread ones are listed before it, it is a SUPPORT
   Find with an id, a title and a piece of evidence, and no delivered id, trimmed, is its own.
   */
  ghost predicate IsDue(inbox: seq<Item>, delivered: seq<Field>, i: nat)
    requires i < |inbox|
  {
    var item := inbox[i];
    && item.Receipt? && item.state == Field.Text("unread") && |UnreadOf(inbox[..i])| < 40
    && item.sourceType == Field.Text("opportunity")
    && item.dedupeKey.Text? && "find:supported:" <= Trim(item.dedupeKey.s)
    && item.id.Text? && Trim(item.id.s) != "" && item.title.Text? && Trim(item.title.s) != ""
    && item.evidenceIds.Some? && (exists f :: f in item.evidenceIds.value && f.Text? && Trim(f.s) != "")
    && (forall d :: d in delivered && d.Text? ==> Trim(d.s) != item.id.s)
  }

  /** A tick raises exactly the receipts that are due. */
  lemma RaisedExactly(s: State, x: Item)
    ensures x in Undelivered(ListUnread(s.inbox, WINDOW), s.delivered)
            <==> exists i :: 0 <= i < |s.inbox| && s.inbox[i] == x && IsDue(s.inbox, s.delivered, i)
  {
    FilterMembers(ListUnread(s.inbox, WINDOW), Deliverable(s.delivered));
    FilteredAndTaken(s.inbox, IsUnread, WINDOW, x);
    CleanedMembers(s.delivered);
    forall i | 0 <= i < |s.inbox| && s.inbox[i] == x
      ensures IsDue(s.inbox, s.delivered, i) <==> IsUndelivered(x, s.delivered) && |UnreadOf(s.inbox[..i])| < 40
    {
      hide UnreadOf, Cleaned, Trim;
    }
  }

  lemma {:induction false} CleanedMembers(fields: seq<Field>)
    ensures forall id :: id in Cleaned(fields) <==> id != "" && exists f :: f in fields && f.Text? && Trim(f.s) == id
  {
    if fields != [] {
      CleanedMembers(fields[1..]);
      assert fields == [fields[0]] + fields[1..];
      hide Trim;
    }
  }

  function SampleFind(id: string): Item {
    Receipt(Field.Text("opportunity"), Field.Text("find:supported:x"), Field.Text(id), Field.Text("A lead"),
            Some([Field.Text("evidence:x")]), UNREAD)
  }

  lemma SampleIsFind(id: string)
    requires TextOf(Field.Text(id)) != ""
    ensures IsFind(SampleFind(id))
  {
    assert TextOf(Field.Text("evidence:x")) == "evidence:x";
    assert Field.Text("evidence:x") in SampleFind(id).evidenceIds.value;
    assert TextOf(Field.Text("find:supported:x")) == "find:supported:x";
    assert TextOf(Field.Text("A lead")) == "A lead";
  }

  lemma TwoFinds(a: Item, b: Item)
    requires IsFind(a) && a.state == UNREAD && IsFind(b) && b.state == UNREAD
    ensures UnreadOf([a, b]) == [a, b] && Undelivered([a, b], []) == [a, b]
  {
    FilterAll([a, b], IsUnread);
    FilterAll([a, b], Deliverable([]));
  }

  lemma SecondCreateFails(a: Item, b: Item, log: seq<string>)
    requires IsFind(a) && a.state == UNREAD && IsFind(b) && b.state == UNREAD
    ensures TickOf(State([], [a, b], log), Trouble(Some(1), {0})) == State([], [a, b], log + [IdText(a)])
  {
    TwoFinds(a, b);
    var ids := IdTexts([a, b]);
    assert ids[..1] == [IdText(a)];
    assert MarkAll([a, b], ids, {0}, 1) == MarkAll([a, b], ids, {0}, 0);
  }

  /**
   When a later create in the batch fails, the ids already raised are forgotten: with the read mark
   lost as well, the very next tick raises the first receipt a second time.
   */
  lemma CreateFailureForgetsBatch()
    ensures var trouble := Trouble(Some(1), {0});
            var once := TickOf(State([], [SampleFind("a"), SampleFind("b")], []), trouble);
            once.notified == ["a"] && once.delivered == [] && TickOf(once, trouble).notified == ["a", "a"]
  {
    var a, b := SampleFind("a"), SampleFind("b");
    SampleIsFind("a");
    SampleIsFind("b");
    SecondCreateFails(a, b, []);
    SecondCreateFails(a, b, ["a"]);
  }
}
