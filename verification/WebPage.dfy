/**
 Fetching a public page: the body is assembled from bounded reads, redirects are followed hop by hop,
 and transient failures are tried again.
 */
module WebPage {
  import opened Text

  const MAX_REDIRECTS := 5

  type Byte = b: int | 0 <= b < 256

  // ---------------------------------------------------------------- assembling the body

  datatype Body = TooLarge | Body(bytes: seq<Byte>)

  function Joined(parts: seq<seq<Byte>>): seq<Byte>
    decreases |parts|
  {
    if parts == [] then [] else Joined(parts[..|parts| - 1]) + parts[|parts| - 1]
  }

  lemma {:induction false} JoinedGrows(parts: seq<seq<Byte>>, n: nat)
    requires n <= |parts|
    ensures |Joined(parts[..n])| <= |Joined(parts)|
    decreases |parts| - n
  {
    if n < |parts| {
      assert parts[..n + 1][..n] == parts[..n];
      JoinedGrows(parts, n + 1);
    } else {
      assert parts[..n] == parts;
    }
  }

  /** Only the length of the whole body and the declared length decide; the cuts between reads do not. */
  method ReadBounded(declared: Option<nat>, parts: seq<seq<Byte>>, maximum: nat) returns (body: Body)
    ensures body.TooLarge? <==> (declared.Some? && declared.value > maximum) || |Joined(parts)| > maximum
    ensures body.Body? ==> body.bytes == Joined(parts)
  {
    if declared.Some? && declared.value > maximum {
      return TooLarge;
    }
    var size := 0;
    var chunks: seq<seq<Byte>> := [];
    for i := 0 to |parts|
      invariant chunks == parts[..i] && size == |Joined(chunks)| <= maximum
    {
      assert parts[..i + 1] == parts[..i] + [parts[i]] && parts[..i + 1][..i] == parts[..i];
      size := size + |parts[i]|;
      if size > maximum {
        JoinedGrows(parts, i + 1);
        return TooLarge;
      }
      chunks := chunks + [parts[i]];
    }
    assert chunks == parts;
    var raw := new Byte[size](_ => 0);
    var offset := 0;
    for i := 0 to |chunks|
      invariant offset == |Joined(chunks[..i])| <= raw.Length && raw[..offset] == Joined(chunks[..i])
    {
      assert chunks[..i + 1][..i] == chunks[..i];
      JoinedGrows(chunks, i + 1);
      Set(raw, chunks[i], offset);
      offset := offset + |chunks[i]|;
    }
    assert chunks[..|chunks|] == chunks;
    assert raw[..offset] == raw[..];
    body := Body(raw[..]);
  }

  /** `TypedArray.prototype.set` */
  method Set(raw: array<Byte>, chunk: seq<Byte>, offset: nat)
    requires offset + |chunk| <= raw.Length
    modifies raw
    ensures raw[..offset] == old(raw[..offset])
    ensures raw[..offset + |chunk|] == old(raw[..offset]) + chunk
  {
    for k := 0 to |chunk|
      invariant raw[..offset + k] == old(raw[..offset]) + chunk[..k]
    {
      raw[offset + k] := chunk[k];
    }
    assert chunk[..|chunk|] == chunk;
    assert raw[..offset] == raw[..offset + |chunk|][..offset];
  }

  // ---------------------------------------------------------------- redirects

  datatype Location = Missing | Unparsable | To(url: string)

  /** One hop: whether its host resolved to public addresses only, and what the request brought, if it did not fail. */
  datatype Hop = Hop(isPublic: bool, answer: Option<Answer>)

  datatype Answer = Answer(status: nat, location: Location)

  datatype Fetched =
    | BadAddress
    | Answered(hop: nat)
    | NotPublic(hop: nat)
    | RequestFailed(hop: nat)
    | NoLocation(hop: nat)
    | BadLocation(hop: nat)
    | TooManyRedirects

  predicate IsRedirect(status: nat) {
    status == 301 || status == 302 || status == 303 || status == 307 || status == 308
  }

  /** The hop was asked and answered with a redirect. */
  predicate Redirects(h: Hop) {
    h.isPublic && h.answer.Some? && IsRedirect(h.answer.value.status)
  }

  /** The address parses, and the hops before this one were redirects that said where to go. */
  predicate Reaches(parses: bool, hops: nat -> Hop, k: nat) {
    parses && forall i :: 0 <= i < k ==> Redirects(hops(i)) && hops(i).answer.value.location.To?
  }

  /** What ends the chain at a hop that it reaches. */
  predicate Ends(hop: Hop, last: bool, r: Fetched) {
    match r
    case NotPublic(_) => !hop.isPublic
    case RequestFailed(_) => hop.isPublic && hop.answer.None?
    case Answered(_) => hop.isPublic && hop.answer.Some? && !IsRedirect(hop.answer.value.status)
    case NoLocation(_) => Redirects(hop) && hop.answer.value.location.Missing?
    case TooManyRedirects => Redirects(hop) && !hop.answer.value.location.Missing? && last
    case BadLocation(_) => Redirects(hop) && hop.answer.value.location.Unparsable? && !last
    case BadAddress => false
  }

  /** Where the chain ended. */
  function EndOf(r: Fetched): nat
    requires !r.BadAddress?
  {
    if r.TooManyRedirects? then MAX_REDIRECTS else r.hop
  }

  /**
   At most six hosts are asked, in redirect order and each checked first. The chain ends at one hop that
   it reaches, for the one reason that this hop gives.
   */
  method FetchOnce(parses: bool, hops: nat -> Hop) returns (r: Fetched, requested: seq<nat>)
    ensures r.BadAddress? <==> !parses
    ensures !r.BadAddress? ==>
      EndOf(r) <= MAX_REDIRECTS && Reaches(parses, hops, EndOf(r)) && Ends(hops(EndOf(r)), EndOf(r) == MAX_REDIRECTS, r)
    ensures |requested| == if r.BadAddress? then 0 else if r.NotPublic? then r.hop else EndOf(r) + 1
    ensures forall i :: 0 <= i < |requested| ==> requested[i] == i && hops(i).isPublic
  {
    requested := [];
    if !parses {
      return BadAddress, [];
    }
    var redirects := 0;
    while redirects <= MAX_REDIRECTS
      invariant 0 <= redirects <= MAX_REDIRECTS && Reaches(parses, hops, redirects)
      invariant |requested| == redirects && forall i :: 0 <= i < redirects ==> requested[i] == i
    {
      var hop := hops(redirects);
      if !hop.isPublic {
        r := NotPublic(redirects);
        return;
      }
      requested := requested + [redirects];
      if hop.answer.None? {
        r := RequestFailed(redirects);
        return;
      }
      if !IsRedirect(hop.answer.value.status) {
        r := Answered(redirects);
        return;
      }
      var location := hop.answer.value.location;
      if location.Missing? {
        r := NoLocation(redirects);
        return;
      }
      if redirects == MAX_REDIRECTS {
        r := TooManyRedirects;
        return;
      }
      if location.Unparsable? {
        r := BadLocation(redirects);
        return;
      }
      redirects := redirects + 1;
    }
  }

  /** No two outcomes fit the same hops, so each has exactly its cause. */
  lemma OneOutcome(parses: bool, hops: nat -> Hop, r: Fetched, s: Fetched)
    requires !r.BadAddress? && EndOf(r) <= MAX_REDIRECTS && Reaches(parses, hops, EndOf(r))
             && Ends(hops(EndOf(r)), EndOf(r) == MAX_REDIRECTS, r)
    requires !s.BadAddress? && EndOf(s) <= MAX_REDIRECTS && Reaches(parses, hops, EndOf(s))
             && Ends(hops(EndOf(s)), EndOf(s) == MAX_REDIRECTS, s)
    ensures r == s
  {
    EndsBehindReach(parses, hops, EndOf(s), EndOf(r), r);
    EndsBehindReach(parses, hops, EndOf(r), EndOf(s), s);
  }

  /** A hop that passes the chain on does not end it. */
  lemma EndsBehindReach(parses: bool, hops: nat -> Hop, k: nat, end: nat, r: Fetched)
    requires Reaches(parses, hops, k) && k <= MAX_REDIRECTS && Ends(hops(end), end == MAX_REDIRECTS, r)
    ensures k <= end
  {
  }

  // ---------------------------------------------------------------- retries

  datatype Attempt = Document(status: nat) | Throws(transient: bool)

  predicate IsTransientStatus(status: nat) {
    status == 429 || status == 502 || status == 503 || status == 504
  }

  predicate MayRetry(a: Attempt) {
    match a case Document(status) => IsTransientStatus(status) case Throws(transient) => transient
  }

  function Retries(option: Option<int>): (n: nat)
    ensures n <= 3
  {
    var wanted := if option.Some? then option.value else 1;
    if wanted < 0 then 0 else if wanted > 3 then 3 else wanted
  }

  /**
   The outcome is always that of the last attempt made: the first one that may not be tried again, or
   the last one allowed.
   */
  method Fetch(option: Option<int>, attempts: nat -> Attempt) returns (outcome: Attempt, made: nat)
    ensures 1 <= made <= Retries(option) + 1 && outcome == attempts(made - 1)
    ensures forall k :: 0 <= k < made - 1 ==> MayRetry(attempts(k))
    ensures made == Retries(option) + 1 || !MayRetry(outcome)
  {
    var retries := Retries(option);
    var lastError := Throws(true);
    made := 0;
    while made <= retries
      invariant made <= retries + 1
      invariant forall k :: 0 <= k < made ==> MayRetry(attempts(k))
      invariant made == retries + 1 ==> lastError == attempts(retries)
    {
      var attempt := made;
      outcome := attempts(attempt);
      made := made + 1;
      match outcome {
        case Document(status) =>
          if !IsTransientStatus(status) || attempt >= retries {
            return;
          }
          lastError := Throws(true);
        case Throws(transient) =>
          lastError := outcome;
          if !transient {
            return;
          }
      }
    }
    outcome := lastError;
  }
}
