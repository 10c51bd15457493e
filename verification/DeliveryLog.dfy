/** The log of raised notifications over whole runs: how far apart two notifications of one receipt are. */
module DeliveryLog {
  import opened Text
  import opened Recency
  import opened Windows
  import opened FindDelivery
  import opened DeliveryProgress

  /** A listing of at most 40 receipts with distinct trimmed ids, whose notifications can all be created. */
  ghost predicate IsSmooth(r: Round) {
    r.trouble.createFailsAt.None? && |r.list| <= 40 && DistinctIds(r.list)
  }

  ghost predicate AllSmooth(rounds: seq<Round>) {
    forall i :: 0 <= i < |rounds| ==> IsSmooth(rounds[i])
  }

  const NOTHING_SENT := State([], [], [])

  function Selected(before: State, r: Round): seq<string> {
    IdTexts(Undelivered(r.list, before.delivered))
  }

  lemma SelectedShape(before: State, r: Round)
    requires IsSmooth(r)
    ensures var ids := Selected(before, r);
            && NoRepeat(ids) && |ids| <= WINDOW
            && Cleaned(Texts(ids)) == ids
            && Deliver(before, r.list, r.trouble).notified == before.notified + ids
            && forall id :: id in ids ==> id !in Cleaned(before.delivered)
  {
    var found := Undelivered(r.list, before.delivered);
    var ids := IdTexts(found);
    FilterMembers(r.list, Deliverable(before.delivered));
    FilteredAreDistinct(r.list, Deliverable(before.delivered));
    forall id | id in ids ensures id != "" && Trimmed(id) && id !in Cleaned(before.delivered) {
      var i := IndexOfId(found, id);
      assert HasId(found[i]);
    }
    CleanedTexts(ids);
    assert ids[..|ids|] == ids;
  }

  /** The latest receipts of the log that may precede position `i` in its own batch, and all after it. */
  function Since(log: seq<string>, i: nat): seq<string>
    requires i < |log|
  {
    log[if i < 40 then 0 else i - 39..]
  }

  lemma FirstIs(s: seq<string>, x: string, k: nat)
    requires k < |s| && s[k] == x && x !in s[..k]
    ensures First(s, x) == k
  {
    var i := First(s, x);
    assert forall m :: 0 <= m < k ==> s[..k][m] == s[m];
    assert forall m :: 0 <= m < i ==> s[..i][m] == s[m];
  }

  lemma FirstOfConcat(a: seq<string>, b: seq<string>, x: string)
    requires x in a + b
    ensures x in a ==> First(a + b, x) == First(a, x)
    ensures x !in a ==> First(a + b, x) == |a| + First(b, x)
  {
    hide First;
    if x in a {
      var k := First(a, x);
      assert (a + b)[..k] == a[..k];
      FirstIs(a + b, x, k);
    } else {
      var k := First(b, x);
      assert (a + b)[..|a| + k] == a + b[..k];
      FirstIs(a + b, x, |a| + k);
    }
  }

  /** In the delivery history, what is in front of a logged id was raised since its own batch began. */
  lemma {:induction false} InFrontIsRecent(rounds: seq<Round>, i: nat)
    requires AllSmooth(rounds) && i < |Run(NOTHING_SENT, rounds).notified|
    ensures var log, history := Run(NOTHING_SENT, rounds).notified, History(NOTHING_SENT, rounds);
            log[i] in history && Elems(history[..First(history, log[i])]) <= Elems(Since(log, i)) - {log[i]}
    decreases |rounds|
  {
    var before, r := rounds[..|rounds| - 1], rounds[|rounds| - 1];
    assert IsSmooth(r);
    var v := Run(NOTHING_SENT, before);
    var ids, past := Selected(v, r), History(NOTHING_SENT, before);
    SelectedShape(v, r);
    var log := v.notified + ids;
    var x := log[i];
    hide Deliver, IsSmooth, Undelivered;
    if i < |v.notified| {
      assert AllSmooth(before);
      InFrontIsRecent(before, i);
      OlderInFront(v.notified, ids, past, i);
    } else {
      NewerInFront(v.notified, ids, past, i);
    }
    assert History(NOTHING_SENT, rounds) == ids + past by {
      HistoryGrows(rounds);
    }
  }

  lemma HistoryGrows(rounds: seq<Round>)
    requires rounds != [] && IsSmooth(rounds[|rounds| - 1])
    ensures var before, r := rounds[..|rounds| - 1], rounds[|rounds| - 1];
            History(NOTHING_SENT, rounds) == Selected(Run(NOTHING_SENT, before), r) + History(NOTHING_SENT, before)
  {
    SelectedShape(Run(NOTHING_SENT, rounds[..|rounds| - 1]), rounds[|rounds| - 1]);
  }

  lemma NewerInFront(log: seq<string>, ids: seq<string>, history: seq<string>, i: nat)
    requires |log| <= i < |log| + |ids| && NoRepeat(ids) && |ids| <= WINDOW
    ensures var all, x := log + ids, ids[i - |log|];
            all[i] == x && x in ids + history
            && Elems((ids + history)[..First(ids + history, x)]) <= Elems(Since(all, i)) - {x}
  {
    var all, k := log + ids, i - |log|;
    var x := ids[k];
    FirstOfConcat(ids, history, x);
    assert First(ids, x) == k;
    assert (ids + history)[..k] == ids[..k];
    forall y | y in ids[..k] ensures y in Since(all, i) && y != x {
      var m :| 0 <= m < k && ids[m] == y;
      assert Since(all, i)[|log| + m - (|all| - |Since(all, i)|)] == y;
    }
  }

  lemma OlderInFront(log: seq<string>, ids: seq<string>, history: seq<string>, i: nat)
    requires i < |log| && log[i] in history
    requires Elems(history[..First(history, log[i])]) <= Elems(Since(log, i)) - {log[i]}
    ensures var all, x := log + ids, log[i];
            all[i] == x && x in ids + history
            && Elems((ids + history)[..First(ids + history, x)]) <= Elems(Since(all, i)) - {x}
  {
    var all, x := log + ids, log[i];
    var front := (ids + history)[..First(ids + history, x)];
    assert Since(all, i) == Since(log, i) + ids;
    FirstOfConcat(ids, history, x);
    forall y | y in front ensures y in Since(all, i) && y != x {
      if x in ids {
        assert front == ids[..First(ids, x)];
        assert y in ids;
      } else {
        var before := history[..First(history, x)];
        assert front == ids + before;
        assert y in ids || y in Elems(before);
      }
    }
  }

  /** A receipt of the next batch that was raised before has 100 distinct other ids since its earlier batch began. */
  lemma RaisedAgainAfterHundred(rounds: seq<Round>, r: Round, i: nat)
    requires AllSmooth(rounds) && IsSmooth(r)
    requires i < |Run(NOTHING_SENT, rounds).notified|
    requires Run(NOTHING_SENT, rounds).notified[i] in Selected(Run(NOTHING_SENT, rounds), r)
    ensures var log := Run(NOTHING_SENT, rounds).notified; |Elems(Since(log, i)) - {log[i]}| >= MEMORY
  {
    var v, history := Run(NOTHING_SENT, rounds), History(NOTHING_SENT, rounds);
    var x := v.notified[i];
    InFrontIsRecent(rounds, i);
    SelectedShape(v, r);
    MemoryIsLatestHundred(NOTHING_SENT, rounds);
    KeptExactly(history, x, MEMORY);
    SubsetSize(Elems(history[..First(history, x)]), Elems(Since(v.notified, i)) - {x});
  }

  /**
   Over every run from an empty memory whose creates succeed, marks failing as they may: between two
   notifications of one receipt there are 100 distinct others, counting those that preceded the first
   one in its own batch, and so at least 61 strictly between the two.
   */
  lemma {:induction false} NotifiedFarApart(rounds: seq<Round>, i: nat, j: nat)
    requires AllSmooth(rounds)
    requires i < j < |Run(NOTHING_SENT, rounds).notified|
    requires Run(NOTHING_SENT, rounds).notified[i] == Run(NOTHING_SENT, rounds).notified[j]
    ensures var log := Run(NOTHING_SENT, rounds).notified;
            && |Elems(Since(log[..j], i)) - {log[i]}| >= 100
            && |Elems(log[i + 1..j]) - {log[i]}| >= 61
    decreases |rounds|
  {
    var before, r := rounds[..|rounds| - 1], rounds[|rounds| - 1];
    assert IsSmooth(r) && AllSmooth(before);
    var v := Run(NOTHING_SENT, before);
    var ids := Selected(v, r);
    var log := v.notified + ids;
    SelectedShape(v, r);
    hide Deliver, IsSmooth, Undelivered;
    assert Run(NOTHING_SENT, rounds).notified == log by { LogGrows(rounds); }
    if j < |v.notified| {
      NotifiedFarApart(before, i, j);
      assert log[..j] == v.notified[..j] && log[i + 1..j] == v.notified[i + 1..j];
    } else {
      assert i < |v.notified|;
      RaisedAgainAfterHundred(before, r, i);
      CountBetween(v.notified, ids, i, j);
    }
  }

  lemma LogGrows(rounds: seq<Round>)
    requires rounds != [] && IsSmooth(rounds[|rounds| - 1])
    ensures var before, r := rounds[..|rounds| - 1], rounds[|rounds| - 1];
            Run(NOTHING_SENT, rounds).notified
            == Run(NOTHING_SENT, before).notified + Selected(Run(NOTHING_SENT, before), r)
  {
    SelectedShape(Run(NOTHING_SENT, rounds[..|rounds| - 1]), rounds[|rounds| - 1]);
  }

  lemma CountBetween(older: seq<string>, ids: seq<string>, i: nat, j: nat)
    requires i < |older| <= j < |older| + |ids|
    requires |Elems(Since(older, i)) - {older[i]}| >= MEMORY
    ensures var log := older + ids;
            && |Elems(Since(log[..j], i)) - {older[i]}| >= MEMORY
            && |Elems(log[i + 1..j]) - {older[i]}| >= MEMORY - (WINDOW - 1)
  {
    var log, x := older + ids, older[i];
    var lo := if i < WINDOW then 0 else i - (WINDOW - 1);
    assert Since(log[..j], i) == Since(older, i) + ids[..j - |older|];
    SubsetSize(Elems(Since(older, i)) - {x}, Elems(Since(log[..j], i)) - {x});
    var head, tail := log[lo..i], log[i + 1..j];
    assert Since(log[..j], i) == head + [x] + tail;
    ElemsSize(head);
    assert Elems(Since(log[..j], i)) - {x} <= Elems(head) + (Elems(tail) - {x});
    SubsetSize(Elems(Since(log[..j], i)) - {x}, Elems(head) + (Elems(tail) - {x}));
    UnionSize(Elems(head), Elems(tail) - {x});
  }

  lemma UnionSize<T>(a: set<T>, b: set<T>)
    ensures |a + b| <= |a| + |b|
  {
  }
}
