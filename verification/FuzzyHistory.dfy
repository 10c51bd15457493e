/**
 The Auto Radar's duplicate check and retry queue: keys and fingerprints of recent pages live in
 maps that are pruned while they are walked.
 */
module FuzzyHistory {
  import opened Windows

  const MAX_AGE := 5 * 60 * 1000
  const THRESHOLD := 0.5

  /** What `isDuplicate` derives from a page; the address may not parse. */
  datatype Page = Page(parses: bool, canonical: string, contentHash: string, domainTitle: string, tokens: set<string>)

  datatype Key = Url(s: string) | Hash(s: string) | DomainTitle(s: string)

  datatype Print = Print(expiry: int, tokens: set<string>)

  datatype Memory = Memory(analysis: map<Key, int>, prints: map<string, Print>)

  datatype Verdict = Unparsed | Novel | Duplicate(reason: string)

  function Jaccard(a: set<string>, b: set<string>): real {
    if |a + b| == 0 then 0.0 else |a * b| as real / |a + b| as real
  }

  /** At least half of all their words are in both. */
  predicate HalfAlike(a: set<string>, b: set<string>) {
    a + b != {} && 2 * |a * b| >= |a + b|
  }

  /** That is what the threshold on the similarity comes to, in whole numbers. */
  lemma JaccardExactly(a: set<string>, b: set<string>)
    ensures Jaccard(a, b) >= THRESHOLD <==> HalfAlike(a, b)
  {
    if |a + b| > 0 {
      HalfOf(|a * b|, |a + b|);
    } else {
      assert a + b == {};
    }
  }

  lemma HalfOf(n: nat, m: nat)
    requires m > 0
    ensures n as real / m as real >= 0.5 <==> 2 * n >= m
  {
    var share, size := n as real / m as real, m as real;
    assert share * size == n as real;
    Halves(share, size);
    assert n as real >= 0.5 * size <==> 2 * n >= m;
  }

  lemma Halves(share: real, m: real)
    requires m > 0.0
    ensures share >= 0.5 <==> share * m >= 0.5 * m
  {
  }

  function LiveKeys(analysis: map<Key, int>, now: int): map<Key, int> {
    map k | k in analysis && now - analysis[k] <= MAX_AGE :: analysis[k]
  }

  function LivePrints(prints: map<string, Print>, now: int): map<string, Print> {
    map k | k in prints && now - prints[k].expiry <= 0 :: prints[k]
  }

  predicate Resembles(prints: map<string, Print>, tokens: set<string>) {
    exists k :: k in prints && prints[k].tokens != {} && HalfAlike(tokens, prints[k].tokens)
  }

  function Admit(m: Memory, p: Page, now: int): Memory {
    var expiry := now + MAX_AGE;
    Memory(m.analysis[Url(p.canonical) := expiry][Hash(p.contentHash) := expiry][DomainTitle(p.domainTitle) := expiry],
           m.prints[p.contentHash := Print(expiry, p.tokens)])
  }

  /** One duplicate check; `later` is the second reading of the clock. */
  function Visit(m: Memory, p: Page, now: int, later: int): (Memory, Verdict) {
    var keys := LiveKeys(m.analysis, now);
    var a := m.(analysis := keys);
    if !p.parses then (a, Unparsed)
    else if Url(p.canonical) in keys then (a, Duplicate("url"))
    else if Hash(p.contentHash) in keys then (a, Duplicate("hash"))
    else if DomainTitle(p.domainTitle) in keys then (a, Duplicate("domain-title"))
    else
      var b := if p.tokens == {} then a else a.(prints := LivePrints(a.prints, later));
      if p.tokens != {} && Resembles(b.prints, p.tokens) then (b, Duplicate("fuzzy"))
      else (Admit(b, p, now), Novel)
  }

  // ---------------------------------------------------------------- Jaccard similarity

  lemma AlikeIsSymmetric(a: set<string>, b: set<string>)
    ensures HalfAlike(a, b) == HalfAlike(b, a)
  {
    assert a * b == b * a && a + b == b + a;
  }

  lemma SameIsAlike(a: set<string>)
    requires a != {}
    ensures HalfAlike(a, a)
  {
    assert a * a == a && a + a == a;
  }

  // ---------------------------------------------------------------- stored fingerprints stay apart

  ghost predicate SpreadOut(prints: map<string, Print>) {
    forall j, k :: j in prints && k in prints && j != k && prints[j].tokens != {} && prints[k].tokens != {} ==>
      !HalfAlike(prints[j].tokens, prints[k].tokens)
  }

  lemma VisitKeepsSpread(m: Memory, p: Page, now: int, later: int)
    requires SpreadOut(m.prints)
    ensures SpreadOut(Visit(m, p, now, later).0.prints)
  {
    var live := LivePrints(m.prints, later);
    if p.tokens != {} && !Resembles(live, p.tokens) {
      forall k | k in live && live[k].tokens != {}
        ensures !HalfAlike(p.tokens, live[k].tokens) && !HalfAlike(live[k].tokens, p.tokens)
      {
        AlikeIsSymmetric(p.tokens, live[k].tokens);
      }
    }
    hide HalfAlike;
  }

  // ---------------------------------------------------------------- the simple form: the whole log of admitted pages

  datatype Admission = Admission(page: Page, at: int)

  datatype Check = Check(page: Page, now: int, later: int)

  function Keys(p: Page): set<Key> {
    {Url(p.canonical), Hash(p.contentHash), DomainTitle(p.domainTitle)}
  }

  /** An admitted page had this key at most twice the maximum age ago. */
  predicate SeenKey(log: seq<Admission>, key: Key, now: int) {
    exists i :: 0 <= i < |log| && key in Keys(log[i].page) && now - log[i].at <= 600_000
  }

  /** An admitted page at most the maximum age old has similar content. */
  predicate SeenContent(log: seq<Admission>, tokens: set<string>, now: int) {
    exists i :: 0 <= i < |log| && now - log[i].at <= 300_000 && log[i].page.tokens != {} && HalfAlike(tokens, log[i].page.tokens)
  }

  function Expected(log: seq<Admission>, c: Check): Verdict {
    var p := c.page;
    if !p.parses then Unparsed
    else if SeenKey(log, Url(p.canonical), c.now) then Duplicate("url")
    else if SeenKey(log, Hash(p.contentHash), c.now) then Duplicate("hash")
    else if SeenKey(log, DomainTitle(p.domainTitle), c.now) then Duplicate("domain-title")
    else if p.tokens != {} && SeenContent(log, p.tokens, c.later) then Duplicate("fuzzy")
    else Novel
  }

  function Run(checks: seq<Check>): Memory
    decreases |checks|
  {
    if checks == [] then Memory(map[], map[])
    else
      var c := checks[|checks| - 1];
      Visit(Run(checks[..|checks| - 1]), c.page, c.now, c.later).0
  }

  /** The pages that the simple form admits. */
  function Log(checks: seq<Check>): seq<Admission>
    decreases |checks|
  {
    if checks == [] then []
    else
      var c, before := checks[|checks| - 1], Log(checks[..|checks| - 1]);
      if Expected(before, c) == Novel then before + [Admission(c.page, c.now)] else before
  }

  predicate Timely(checks: seq<Check>) {
    && (forall i :: 0 <= i < |checks| ==> checks[i].now <= checks[i].later)
    && (forall i :: 0 <= i < |checks| - 1 ==> checks[i].later <= checks[i + 1].now)
  }

  ghost predicate MirrorsKeys(analysis: map<Key, int>, log: seq<Admission>, clock: int) {
    && (forall k :: k in analysis ==>
          exists i :: 0 <= i < |log| && k in Keys(log[i].page) && analysis[k] == log[i].at + MAX_AGE)
    && (forall i, k :: 0 <= i < |log| && k in Keys(log[i].page) && clock - log[i].at <= 2 * MAX_AGE ==>
          k in analysis && analysis[k] >= log[i].at + MAX_AGE)
  }

  ghost predicate MirrorsPrints(prints: map<string, Print>, log: seq<Admission>, clock: int) {
    && (forall k :: k in prints ==>
          exists i :: 0 <= i < |log| && log[i].page.contentHash == k && prints[k] == Print(log[i].at + MAX_AGE, log[i].page.tokens))
    && (forall i :: 0 <= i < |log| && clock - log[i].at <= MAX_AGE ==>
          log[i].page.contentHash in prints && prints[log[i].page.contentHash] == Print(log[i].at + MAX_AGE, log[i].page.tokens))
  }

  ghost predicate Mirrors(m: Memory, log: seq<Admission>, clock: int) {
    MirrorsKeys(m.analysis, log, clock) && MirrorsPrints(m.prints, log, clock)
  }

  lemma KeysPruned(analysis: map<Key, int>, log: seq<Admission>, clock: int, now: int)
    requires MirrorsKeys(analysis, log, clock) && now >= clock
    ensures MirrorsKeys(LiveKeys(analysis, now), log, now)
    ensures forall k :: k in LiveKeys(analysis, now) ==> SeenKey(log, k, now)
    ensures forall k :: SeenKey(log, k, now) ==> k in LiveKeys(analysis, now)
  {
    var live := LiveKeys(analysis, now);
    forall k | k in live ensures SeenKey(log, k, now) {
      var i :| 0 <= i < |log| && k in Keys(log[i].page) && analysis[k] == log[i].at + MAX_AGE;
    }
    forall k | SeenKey(log, k, now) ensures k in live {
      var i :| 0 <= i < |log| && k in Keys(log[i].page) && now - log[i].at <= 2 * MAX_AGE;
    }
  }

  lemma PrintsPruned(prints: map<string, Print>, log: seq<Admission>, clock: int, now: int)
    requires MirrorsPrints(prints, log, clock) && now >= clock
    ensures MirrorsPrints(LivePrints(prints, now), log, now)
    ensures forall tokens :: Resembles(LivePrints(prints, now), tokens) <==> SeenContent(log, tokens, now)
  {
    hide HalfAlike;
    var live := LivePrints(prints, now);
    forall tokens ensures Resembles(live, tokens) <==> SeenContent(log, tokens, now) {
      if Resembles(live, tokens) {
        var k :| k in live && live[k].tokens != {} && HalfAlike(tokens, live[k].tokens);
        var i :| 0 <= i < |log| && log[i].page.contentHash == k && prints[k] == Print(log[i].at + MAX_AGE, log[i].page.tokens);
      }
      if SeenContent(log, tokens, now) {
        var i :| 0 <= i < |log| && now - log[i].at <= MAX_AGE && log[i].page.tokens != {} && HalfAlike(tokens, log[i].page.tokens);
        assert log[i].page.contentHash in live;
      }
    }
  }

  lemma AdmitSetsKeys(m: Memory, p: Page, now: int)
    ensures var after := Admit(m, p, now).analysis;
            && (forall k :: k in after <==> k in Keys(p) || k in m.analysis)
            && (forall k :: k in after ==> after[k] == if k in Keys(p) then now + MAX_AGE else m.analysis[k])
  {
  }

  lemma KeysAdmitted(m: Memory, log: seq<Admission>, p: Page, now: int, clock: int)
    requires MirrorsKeys(m.analysis, log, clock)
    requires forall i :: 0 <= i < |log| ==> log[i].at <= now
    ensures MirrorsKeys(Admit(m, p, now).analysis, log + [Admission(p, now)], clock)
  {
    hide Admit, Keys;
    AdmitSetsKeys(m, p, now);
    var longer := log + [Admission(p, now)];
    assert longer[|log|] == Admission(p, now);
    forall k | k in Admit(m, p, now).analysis
      ensures exists i :: 0 <= i < |longer| && k in Keys(longer[i].page) && Admit(m, p, now).analysis[k] == longer[i].at + MAX_AGE
    {
      if k in Keys(p) {
        assert k in Keys(longer[|log|].page);
      } else {
        var i :| 0 <= i < |log| && k in Keys(log[i].page) && m.analysis[k] == log[i].at + MAX_AGE;
        assert longer[i] == log[i];
      }
    }
  }

  lemma PrintsAdmitted(m: Memory, log: seq<Admission>, p: Page, now: int, clock: int)
    requires MirrorsPrints(m.prints, log, clock) && !SeenKey(log, Hash(p.contentHash), now) && now <= clock
    ensures MirrorsPrints(Admit(m, p, now).prints, log + [Admission(p, now)], clock)
  {
    var longer := log + [Admission(p, now)];
    forall k | k in Admit(m, p, now).prints
      ensures exists i :: 0 <= i < |longer| && longer[i].page.contentHash == k
                          && Admit(m, p, now).prints[k] == Print(longer[i].at + MAX_AGE, longer[i].page.tokens)
    {
      if k == p.contentHash {
        assert longer[|log|] == Admission(p, now);
      } else {
        var i :| 0 <= i < |log| && log[i].page.contentHash == k && m.prints[k] == Print(log[i].at + MAX_AGE, log[i].page.tokens);
        assert longer[i] == log[i];
      }
    }
    forall i | 0 <= i < |log| && clock - log[i].at <= MAX_AGE ensures log[i].page.contentHash != p.contentHash {
      assert Hash(log[i].page.contentHash) in Keys(log[i].page);
    }
  }

  lemma VisitMirrors(m: Memory, log: seq<Admission>, c: Check, clock: int)
    requires Mirrors(m, log, clock) && clock <= c.now <= c.later
    requires forall i :: 0 <= i < |log| ==> log[i].at <= clock
    ensures var (after, verdict) := Visit(m, c.page, c.now, c.later);
            verdict == Expected(log, c) &&
            Mirrors(after, if verdict == Novel then log + [Admission(c.page, c.now)] else log, c.later)
  {
    hide LiveKeys, LivePrints, SeenKey, SeenContent, Resembles, Keys;
    KeysPruned(m.analysis, log, clock, c.now);
    PrintsPruned(m.prints, log, clock, c.later);
    var keys := LiveKeys(m.analysis, c.now);
    MirrorsLater(keys, m.prints, log, clock, c);
    var (after, verdict) := Visit(m, c.page, c.now, c.later);
    if verdict == Novel {
      var pruned := Memory(keys, if c.page.tokens == {} then m.prints else LivePrints(m.prints, c.later));
      KeysAdmitted(pruned, log, c.page, c.now, c.later);
      PrintsAdmitted(pruned, log, c.page, c.now, c.later);
      hide MirrorsKeys, MirrorsPrints, Admit;
    } else {
      hide MirrorsKeys, MirrorsPrints, Admit;
    }
  }

  lemma MirrorsLater(keys: map<Key, int>, prints: map<string, Print>, log: seq<Admission>, clock: int, c: Check)
    requires clock <= c.now <= c.later && MirrorsKeys(keys, log, c.now) && MirrorsPrints(prints, log, clock)
    ensures MirrorsKeys(keys, log, c.later) && MirrorsPrints(prints, log, c.later)
  {
  }

  function Clock(checks: seq<Check>, start: int): int {
    if checks == [] then start else checks[|checks| - 1].later
  }

  /** In every run the pruned maps mirror the log, stay spread out, and the log holds no future page. */
  lemma {:induction false} RunMirrors(checks: seq<Check>, start: int)
    requires Timely(checks) && (checks != [] ==> start <= checks[0].now)
    ensures Mirrors(Run(checks), Log(checks), Clock(checks, start)) && SpreadOut(Run(checks).prints)
    ensures forall i :: 0 <= i < |Log(checks)| ==> Log(checks)[i].at <= Clock(checks, start)
    decreases |checks|
  {
    hide Mirrors, SpreadOut, Expected;
    if checks == [] {
      NothingSeen(start);
    } else {
      var before, c := checks[..|checks| - 1], checks[|checks| - 1];
      RunMirrors(before, start);
      VisitMirrors(Run(before), Log(before), c, Clock(before, start));
      VisitKeepsSpread(Run(before), c.page, c.now, c.later);
    }
  }

  lemma NothingSeen(start: int)
    ensures Mirrors(Memory(map[], map[]), [], start) && SpreadOut(map[])
  {
  }

  /**
   The duplicate check answers, with its reason, exactly as a search of every page ever admitted:
   a key counts for twice the maximum age, similar content for the maximum age.
   */
  lemma VerdictExactly(checks: seq<Check>, c: Check)
    requires Timely(checks + [c])
    ensures Visit(Run(checks), c.page, c.now, c.later).1 == Expected(Log(checks), c)
  {
    var all := checks + [c];
    assert all[..|checks|] == checks && all[|checks|] == c;
    assert Timely(checks) by {
      forall i | 0 <= i < |checks| ensures all[i] == checks[i] {}
    }
    if checks != [] {
      assert all[|checks| - 1].later <= all[|checks| - 1 + 1].now;
    }
    RunMirrors(checks, if checks == [] then c.now else checks[0].now);
    hide Mirrors, Visit, Expected, SpreadOut;
    VisitMirrors(Run(checks), Log(checks), c, if checks == [] then c.now else checks[|checks| - 1].later);
  }

  /** Non-empty fingerprints in memory are pairwise below the threshold, after every run. */
  lemma PrintsStayApart(checks: seq<Check>, j: string, k: string)
    requires Timely(checks)
    requires j != k && j in Run(checks).prints && k in Run(checks).prints
    requires Run(checks).prints[j].tokens != {} && Run(checks).prints[k].tokens != {}
    ensures !HalfAlike(Run(checks).prints[j].tokens, Run(checks).prints[k].tokens)
  {
    hide HalfAlike;
    RunMirrors(checks, if checks == [] then 0 else checks[0].now);
  }

  /**
   Repeating the content of a live, non-empty fingerprint is reported as a duplicate exactly when the
   page's address parses.
   */
  lemma RepeatReportedExactly(m: Memory, k: string, p: Page, now: int, later: int)
    requires k in m.prints && m.prints[k].tokens == p.tokens != {} && later <= m.prints[k].expiry
    ensures Visit(m, p, now, later).1.Duplicate? <==> p.parses
  {
    hide HalfAlike;
    SameIsAlike(p.tokens);
    var live := LivePrints(m.prints, later);
    assert k in live && live[k].tokens != {} && HalfAlike(p.tokens, live[k].tokens);
  }

  // ---------------------------------------------------------------- the retry queue

  const MAX_RETRY := 3

  datatype Item = Item(url: string, title: string, timestamp: int, retryCount: nat)

  function Young(now: int): Item -> bool {
    (i: Item) => now - i.timestamp <= 300_000
  }

  ghost predicate GoodQueue(q: seq<Item>) {
    && (forall i, j :: 0 <= i < j < |q| ==> q[i].url != q[j].url)
    && (forall i :: 0 <= i < |q| ==> 1 <= q[i].retryCount <= MAX_RETRY)
  }

  lemma {:induction false} FilterKeepsQueue(q: seq<Item>, p: Item -> bool)
    requires GoodQueue(q)
    ensures GoodQueue(Filter(q, p))
  {
    if q != [] {
      FilterKeepsQueue(q[1..], p);
      var rest := Filter(q[1..], p);
      FilterMembers(q[1..], p);
      forall i | 0 <= i < |rest| ensures rest[i].url != q[0].url {
        assert rest[i] in rest;
        var j :| 0 <= j < |q[1..]| && q[1..][j] == rest[i];
        assert q[j + 1] == rest[i];
      }
    }
  }

  class AutoRadar {
    var analysisHistory: map<Key, int>
    var fuzzyHistory: map<string, Print>
    var queue: seq<Item>

    ghost function Now(): Memory reads this {
      Memory(analysisHistory, fuzzyHistory)
    }

    constructor ()
      ensures Now() == Run([]) && queue == []
    {
      analysisHistory, fuzzyHistory, queue := map[], map[], [];
    }

    method FuzzyDuplicate(tokens: set<string>, now: int) returns (found: bool)
      modifies this`fuzzyHistory
      ensures fuzzyHistory == if tokens == {} then old(fuzzyHistory) else LivePrints(old(fuzzyHistory), now)
      ensures found == (tokens != {} && Resembles(fuzzyHistory, tokens))
    {
      hide HalfAlike;
      if tokens == {} {
        return false;
      }
      var rest := fuzzyHistory.Keys;
      while rest != {}
        invariant rest <= fuzzyHistory.Keys
        invariant fuzzyHistory == map k | k in old(fuzzyHistory) && (k in rest || now - old(fuzzyHistory)[k].expiry <= 0)
                                  :: old(fuzzyHistory)[k]
      {
        var key :| key in rest;
        rest := rest - {key};
        if now - fuzzyHistory[key].expiry > 0 {
          fuzzyHistory := fuzzyHistory - {key};
        }
      }
      assert fuzzyHistory == LivePrints(old(fuzzyHistory), now);
      rest := fuzzyHistory.Keys;
      while rest != {}
        invariant rest <= fuzzyHistory.Keys && fuzzyHistory == LivePrints(old(fuzzyHistory), now)
        invariant forall k :: k in fuzzyHistory && k !in rest ==>
          fuzzyHistory[k].tokens == {} || !HalfAlike(tokens, fuzzyHistory[k].tokens)
      {
        var key :| key in rest;
        rest := rest - {key};
        JaccardExactly(tokens, fuzzyHistory[key].tokens);
        if fuzzyHistory[key].tokens != {} && Jaccard(tokens, fuzzyHistory[key].tokens) >= THRESHOLD {
          return true;
        }
      }
      found := false;
    }

    method IsDuplicate(page: Page, now: int, later: int) returns (verdict: Verdict)
      modifies this`analysisHistory, this`fuzzyHistory
      ensures (Now(), verdict) == Visit(old(Now()), page, now, later)
    {
      hide Resembles, LivePrints;
      var rest := analysisHistory.Keys;
      while rest != {}
        invariant rest <= analysisHistory.Keys && fuzzyHistory == old(fuzzyHistory)
        invariant analysisHistory == map k | k in old(analysisHistory) && (k in rest || now - old(analysisHistory)[k] <= MAX_AGE)
                                     :: old(analysisHistory)[k]
      {
        var key :| key in rest;
        rest := rest - {key};
        if now - analysisHistory[key] > MAX_AGE {
          analysisHistory := analysisHistory - {key};
        }
      }
      assert analysisHistory == LiveKeys(old(analysisHistory), now);
      if !page.parses {
        return Unparsed;
      }
      var keys := [(Url(page.canonical), "url"), (Hash(page.contentHash), "hash"), (DomainTitle(page.domainTitle), "domain-title")];
      for i := 0 to |keys|
        invariant forall j :: 0 <= j < i ==> keys[j].0 !in analysisHistory
      {
        if keys[i].0 in analysisHistory {
          assert i > 0 ==> keys[0].0 !in analysisHistory;
          assert i > 1 ==> keys[1].0 !in analysisHistory;
          return Duplicate(keys[i].1);
        }
      }
      assert keys[0].0 !in analysisHistory && keys[1].0 !in analysisHistory && keys[2].0 !in analysisHistory;
      var similar := FuzzyDuplicate(page.tokens, later);
      if similar {
        return Duplicate("fuzzy");
      }
      var expiry := now + MAX_AGE;
      analysisHistory := analysisHistory[Url(page.canonical) := expiry];
      analysisHistory := analysisHistory[Hash(page.contentHash) := expiry];
      analysisHistory := analysisHistory[DomainTitle(page.domainTitle) := expiry];
      fuzzyHistory := fuzzyHistory[page.contentHash := Print(expiry, page.tokens)];
      verdict := Novel;
    }

    /** A failed address is queued once; further failures count up to the limit and then change nothing. */
    method EnqueueForRetry(url: string, title: string, now: int)
      requires GoodQueue(queue)
      modifies this`queue
      ensures GoodQueue(queue)
      ensures (forall i :: 0 <= i < |old(queue)| ==> old(queue)[i].url != url) ==> queue == old(queue) + [Item(url, title, now, 1)]
      ensures forall i :: 0 <= i < |old(queue)| && old(queue)[i].url == url ==>
        queue == if old(queue)[i].retryCount < MAX_RETRY
                 then old(queue)[i := old(queue)[i].(retryCount := old(queue)[i].retryCount + 1, timestamp := now)]
                 else old(queue)
    {
      var at := 0;
      while at < |queue| && queue[at].url != url
        invariant 0 <= at <= |queue| && forall i :: 0 <= i < at ==> queue[i].url != url
      {
        at := at + 1;
      }
      if at < |queue| {
        if queue[at].retryCount < MAX_RETRY {
          queue := queue[at := queue[at].(retryCount := queue[at].retryCount + 1, timestamp := now)];
        }
      } else {
        queue := queue + [Item(url, title, now, 1)];
      }
    }

    /** Splicing backwards while walking the queue keeps exactly the young entries, in order. */
    method ProcessQueue(enabled: bool, now: int)
      requires GoodQueue(queue)
      modifies this`queue
      ensures queue == if enabled then Filter(old(queue), Young(now)) else old(queue)
      ensures GoodQueue(queue)
    {
      if !enabled || queue == [] {
        return;
      }
      var i := |queue|;
      assert queue[i..] == [];
      while i > 0
        invariant 0 <= i <= |queue| && i <= |old(queue)|
        invariant queue == old(queue)[..i] + Filter(old(queue)[i..], Young(now))
      {
        i := i - 1;
        ghost var kept := Filter(old(queue)[i + 1..], Young(now));
        assert old(queue)[i..][1..] == old(queue)[i + 1..];
        assert queue == old(queue)[..i] + [old(queue)[i]] + kept;
        var item := queue[i];
        if now - item.timestamp > MAX_AGE {
          queue := queue[..i] + queue[i + 1..];
        }
      }
      assert old(queue)[0..] == old(queue);
      FilterKeepsQueue(old(queue), Young(now));
    }
  }
}
