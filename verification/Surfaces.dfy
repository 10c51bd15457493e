/**
 The separately written functions that decide whether a mission looks successful: the central orb,
 the Living Forge, the journey stages, the watchtower notice and the mission card. Copy and layout
 are dropped; every branch that selects them is kept.
 */
module Surfaces {
  import opened Text
  import opened Windows
  import opened Missions
  import W = Watchtower

  // ---------------------------------------------------------------- find-presentation.js

  datatype Opportunity = Opportunity(title: Field, evidenceId: Field, sourceUrl: Field, status: Field, supported: bool)

  /** Whether a text parses as an http or https URL. */
  type UrlCheck = string -> bool

  function RowEvidence(row: Row): string {
    if row.Row? then TextOf(row.evidenceId) else ""
  }

  predicate SupportsEvidence(m: Mission, evidenceId: string) {
    m.rows.Some? && exists row :: row in m.rows.value && IsSupported(row) && RowEvidence(row) == evidenceId
  }

  predicate MissionSupportsEvidence(evidenceId: string, missions: seq<Mission>) {
    evidenceId != "" && exists m :: m in missions && SupportsEvidence(m, evidenceId)
  }

  method FindSupportingRow(evidenceId: string, missions: seq<Mission>) returns (found: bool)
    ensures found == MissionSupportsEvidence(evidenceId, missions)
  {
    if evidenceId == "" {
      return false;
    }
    for i := 0 to |missions|
      invariant forall k :: 0 <= k < i ==> !SupportsEvidence(missions[k], evidenceId)
    {
      if missions[i].rows.Some? {
        var rows := missions[i].rows.value;
        for j := 0 to |rows|
          invariant forall k :: 0 <= k < j ==> !(IsSupported(rows[k]) && RowEvidence(rows[k]) == evidenceId)
        {
          if IsSupported(rows[j]) && RowEvidence(rows[j]) == evidenceId {
            assert rows[j] in missions[i].rows.value;
            assert SupportsEvidence(missions[i], evidenceId);
            return true;
          }
        }
      }
    }
    return false;
  }

  predicate IsKernelSupportedFind(item: Opportunity, missions: seq<Mission>, isHttp: UrlCheck) {
    && TextOf(item.title) != "" && TextOf(item.evidenceId) != "" && TextOf(item.sourceUrl) != ""
    && item.status != Field.Text("dismissed")
    && isHttp(TextOf(item.sourceUrl))
    && (item.supported || MissionSupportsEvidence(TextOf(item.evidenceId), missions))
  }

  function ProvedBy(m: Mission, isHttp: UrlCheck): Opportunity -> bool {
    (item: Opportunity) => IsKernelSupportedFind(item, [m], isHttp) && TextOf(item.evidenceId) in SupportedEvidence(m)
  }

  /** Inbox Finds proved by this mission's own rows. */
  function FindsForMission(inbox: seq<Opportunity>, m: Mission, isHttp: UrlCheck): seq<Opportunity> {
    if SupportedEvidence(m) == {} then [] else Filter(inbox, ProvedBy(m, isHttp))
  }

  function Max(a: nat, b: nat): nat {
    if a < b then b else a
  }

  function FindCount(inbox: seq<Opportunity>, m: Mission, isHttp: UrlCheck): nat {
    Max(|FindsForMission(inbox, m, isHttp)|, SupportedFinds(m))
  }

  /** A count above the bound is reported as zero. */
  function Bounded(n: nat, bound: nat): nat {
    if n <= bound then n else 0
  }

  // ---------------------------------------------------------------- efesto-orb-state.js

  const MAX_ATTEMPTS := 3
  const ORB_BOUND := 200
  const CARD_BOUND := 20

  predicate LeaseExpired(m: Mission, now: int) {
    m.HasStatus("running") && m.leaseExpiresAt.Some? && m.leaseExpiresAt.value <= now
  }

  predicate Exhausted(m: Mission) {
    m.attempt.Some? && m.attempt.value >= MAX_ATTEMPTS && !m.HasStatus(COMPLETED)
  }

  predicate OrbReadWithoutSupport(m: Mission) {
    && m.HasStatus(FAILED)
    && m.lastFailure.Some? && m.lastFailure.value.code == Some(VERIFIED_WITHOUT_SUPPORT)
    && Bounded(SupportedFinds(m), ORB_BOUND) == 0
  }

  function OrbState(enabled: bool, kernelReady: bool, mission: Option<Mission>, now: int): string {
    if !kernelReady then "offline"
    else if !enabled then "idle"
    else if mission.None? then "starting"
    else
      var m := mission.value;
      if m.HasStatus("waiting_for_agent") then "failed"
      else if OrbReadWithoutSupport(m) then "research_completed"
      else if m.HasStatus(FAILED) || LeaseExpired(m, now) || Exhausted(m) then "failed"
      else if m.InPhase(VERIFYING) then "verifying"
      else if m.InPhase(SYNCING) then "syncing"
      else if m.HasStatus("running") then "researching"
      else if m.HasStatus("queued") then "queued"
      else if m.HasStatus(COMPLETED) && m.IsForged() then
        if Bounded(SupportedFinds(m), ORB_BOUND) > 0 then "completed" else "research_completed"
      else if m.HasStatus(COMPLETED) then "completed_without_forge"
      else "idle"
  }

  // ---------------------------------------------------------------- mission-presentation.js

  function CardSettlement(m: Mission): Option<string> {
    if !m.HasStatus(FAILED) || Bounded(SupportedFinds(m), CARD_BOUND) > 0 || m.lastFailure.None? then None
    else
      var code := m.lastFailure.value.code;
      if code == Some(VERIFIED_WITHOUT_SUPPORT) || code == Some(WEB_READ_FAILED) then code else None
  }

  datatype CardLabel = VerifyingMaterial | SupportForged(finds: nat) | ResearchCompleted | EndedWithoutEvidence
                     | ReadWithoutSupport | PagesUnreadable | StatusCopy(status: Field)

  function CardStatus(m: Mission): CardLabel {
    if m.InPhase(VERIFYING) then VerifyingMaterial
    else if m.HasStatus(COMPLETED) && m.IsForged() then
      var finds := Bounded(SupportedFinds(m), CARD_BOUND);
      if finds > 0 then SupportForged(finds) else ResearchCompleted
    else if m.HasStatus(COMPLETED) then EndedWithoutEvidence
    else if CardSettlement(m) == Some(VERIFIED_WITHOUT_SUPPORT) then ReadWithoutSupport
    else if CardSettlement(m) == Some(WEB_READ_FAILED) then PagesUnreadable
    else StatusCopy(m.status)
  }

  // ---------------------------------------------------------------- forge-activity.js

  function LivingTone(mission: Option<Mission>, inbox: seq<Opportunity>, isHttp: UrlCheck): string {
    if mission.None? then "idle"
    else
      var m := mission.value;
      if m.InPhase(VERIFYING) then "verifying"
      else if m.HasStatus("running") then "working"
      else if m.HasStatus("waiting_for_agent") then "error"
      else if m.HasStatus("queued") then "queued"
      else if m.HasStatus(COMPLETED) && m.IsForged() then
        if FindCount(inbox, m, isHttp) > 0 then "success" else "idle"
      else if m.HasStatus(COMPLETED) then "idle"
      else if CardSettlement(m).Some? then "idle"
      else if m.HasStatus(FAILED) then "error"
      else "idle"
  }

  // ---------------------------------------------------------------- product-journey.js

  /** Verification rows when there is an array of them, the surface's own count otherwise. */
  function JourneyFinds(m: Mission): nat {
    if m.rows.Some? then CountSupported(m.rows.value)
    else if m.findCount.Some? then m.findCount.value
    else 0
  }

  predicate JourneyReadWithoutSupport(m: Mission) {
    && m.HasStatus(FAILED)
    && m.lastFailure.Some? && m.lastFailure.value.code == Some(VERIFIED_WITHOUT_SUPPORT)
    && JourneyFinds(m) == 0
  }

  predicate ForgedWithSupport(m: Mission) {
    m.IsForged() && JourneyFinds(m) > 0
  }

  function ActiveStage(m: Mission): nat {
    if JourneyReadWithoutSupport(m) || m.InPhase(VERIFYING) then 2
    else if m.HasStatus("queued") || m.HasStatus("running") then 1
    else if m.HasStatus(COMPLETED) then (if ForgedWithSupport(m) then 3 else 2)
    else if m.HasStatus(FAILED) then
      var attempt := if m.attempt.Some? then m.attempt.value else 1;
      if attempt < 2 then attempt else 2
    else 0
  }

  const FORGED_STAGE := 3

  function StageState(m: Mission, index: nat): string {
    if JourneyReadWithoutSupport(m) then (if index < 3 then "complete" else "pending")
    else if m.HasStatus(FAILED) && index == ActiveStage(m) then "error"
    else if index < ActiveStage(m) || (m.HasStatus(COMPLETED) && (ForgedWithSupport(m) || index != FORGED_STAGE)) then "complete"
    else if index == ActiveStage(m) then "active"
    else "pending"
  }

  // ---------------------------------------------------------------- mission-watchtower.js: the notice

  datatype Kind = Silent | Find | Forged | Attention

  datatype Notice = Notice(notify: bool, kind: Kind, finds: nat)

  predicate ForgedComplete(status: Field, phase: Option<string>, work: Option<string>) {
    status == Field.Text(COMPLETED) && (phase == Some(FORGED) || work == Some(FORGED))
  }

  function NoticeOf(e: W.Event, inbox: seq<Opportunity>, m: Mission, isHttp: UrlCheck): Notice {
    if e.status == FAILED then
      var settlement := OrElse(e.settlement, SettlementCode(m));
      if settlement == Some(VERIFIED_WITHOUT_SUPPORT) then Notice(true, Forged, 0)
      else Notice(true, Attention, 0)
    else if e.status == COMPLETED
         && (ForgedComplete(Field.Text(e.status), e.executionPhase, e.workState)
             || ForgedComplete(m.status, m.executionPhase, m.workState)) then
      var finds := FindCount(inbox, m, isHttp);
      if finds > 0 then Notice(true, Find, finds) else Notice(true, Forged, 0)
    else Notice(false, Silent, 0)
  }

  // ---------------------------------------------------------------- agreement

  /** Completed, forged, and some verification row is supported. */
  ghost predicate Succeeded(m: Mission) {
    && m.HasStatus(COMPLETED) && m.IsForged()
    && m.rows.Some? && exists row :: row in m.rows.value && IsSupported(row)
  }

  ghost predicate OrbSays(m: Mission, now: int) {
    OrbState(true, true, Some(m), now) == "completed"
  }

  ghost predicate LivingSays(m: Mission, inbox: seq<Opportunity>, isHttp: UrlCheck) {
    LivingTone(Some(m), inbox, isHttp) == "success"
  }

  ghost predicate JourneySays(m: Mission) {
    StageState(m, FORGED_STAGE) == "complete"
  }

  ghost predicate NoticeSays(m: Mission, inbox: seq<Opportunity>, isHttp: UrlCheck, at: int)
    requires W.IsTracked(m)
  {
    NoticeOf(W.EventOf(m, at), inbox, m, isHttp).kind == Find
  }

  ghost predicate CardSays(m: Mission) {
    CardStatus(m).SupportForged?
  }

  /** The inbox can raise the count but never create a success that the rows do not prove. */
  lemma InboxCannotMint(m: Mission, inbox: seq<Opportunity>, isHttp: UrlCheck)
    ensures FindCount(inbox, m, isHttp) > 0 <==> SupportedFinds(m) > 0
    ensures FindCount(inbox, m, isHttp) >= SupportedFinds(m)
  {
  }

  lemma OrbExactly(m: Mission, now: int)
    ensures OrbSays(m, now) <==>
              Succeeded(m) && SupportedFinds(m) <= ORB_BOUND && !m.InPhase(VERIFYING) && !m.InPhase(SYNCING)
  {
  }

  /**
   The orb says failed exactly for a mission that waits for its agent, or that failed, whose lease ran out
   or whose attempts are used up, unless the Kernel settled it as read without SUPPORT.
   */
  lemma OrbFailedExactly(enabled: bool, kernelReady: bool, mission: Option<Mission>, now: int)
    ensures OrbState(enabled, kernelReady, mission, now) == "failed" <==>
              && enabled && kernelReady && mission.Some?
              && var m := mission.value;
                 || m.status == Field.Text("waiting_for_agent")
                 || (&& (|| m.status == Field.Text("failed")
                         || (m.status == Field.Text("running") && m.leaseExpiresAt.Some? && m.leaseExpiresAt.value <= now)
                         || (m.attempt.Some? && m.attempt.value >= 3 && m.status != Field.Text("completed")))
                     && !(&& m.status == Field.Text("failed") && m.lastFailure.Some?
                          && m.lastFailure.value.code == Some("verified_without_support")
                          && (SupportedFinds(m) == 0 || SupportedFinds(m) > 200)))
  {
  }

  lemma LivingExactly(m: Mission, inbox: seq<Opportunity>, isHttp: UrlCheck)
    ensures LivingSays(m, inbox, isHttp) <==> Succeeded(m) && !m.InPhase(VERIFYING)
  {
    InboxCannotMint(m, inbox, isHttp);
  }

  lemma NoticeExactly(m: Mission, inbox: seq<Opportunity>, isHttp: UrlCheck, at: int)
    requires W.IsTracked(m)
    ensures NoticeSays(m, inbox, isHttp, at) <==> Succeeded(m)
  {
    InboxCannotMint(m, inbox, isHttp);
  }

  lemma CardExactly(m: Mission)
    ensures CardSays(m) <==> Succeeded(m) && SupportedFinds(m) <= CARD_BOUND && !m.InPhase(VERIFYING)
  {
  }

  lemma JourneyExactly(m: Mission)
    ensures JourneySays(m) <==> Succeeded(m) || (m.HasStatus(COMPLETED) && m.IsForged() && m.rows.None? && JourneyFinds(m) > 0)
  {
  }

  ghost predicate AllAgree(m: Mission, inbox: seq<Opportunity>, isHttp: UrlCheck, now: int, at: int)
    requires W.IsTracked(m)
  {
    OrbSays(m, now) == LivingSays(m, inbox, isHttp) == JourneySays(m) == NoticeSays(m, inbox, isHttp, at) == CardSays(m)
  }

  /**
   For every mission and inbox the five surfaces agree if and only if the mission is not a forged
   completion with more than 20 supported rows, or with supported rows while verifying or syncing,
   or with a surface count standing in for missing rows.
   */
  lemma SurfacesAgreeExactly(m: Mission, inbox: seq<Opportunity>, isHttp: UrlCheck, now: int, at: int)
    requires W.IsTracked(m)
    ensures AllAgree(m, inbox, isHttp, now, at) <==>
              !(m.HasStatus(COMPLETED) && m.IsForged()
                && (if SupportedFinds(m) > 0
                    then SupportedFinds(m) > CARD_BOUND || m.InPhase(VERIFYING) || m.InPhase(SYNCING)
                    else m.rows.None? && JourneyFinds(m) > 0))
  {
    hide OrbSays, LivingSays, JourneySays, NoticeSays, CardSays;
    OrbExactly(m, now);
    LivingExactly(m, inbox, isHttp);
    JourneyExactly(m);
    NoticeExactly(m, inbox, isHttp, at);
    CardExactly(m);
  }

  /** With an array of at most 20 rows and no phase in progress, all five mean exactly `Succeeded`. */
  lemma SurfacesMeanSuccess(m: Mission, inbox: seq<Opportunity>, isHttp: UrlCheck, now: int, at: int)
    requires W.IsTracked(m) && m.rows.Some? && |m.rows.value| <= CARD_BOUND
    requires !m.InPhase(VERIFYING) && !m.InPhase(SYNCING)
    ensures AllAgree(m, inbox, isHttp, now, at) && (CardSays(m) <==> Succeeded(m))
  {
    SurfacesAgreeExactly(m, inbox, isHttp, now, at);
    CardExactly(m);
  }

  /** What the local Kernel's missions look like: few rows, no count of their own, completions forged or without a phase. */
  predicate IsKernelMission(m: Mission) {
    && m.id.Text? && m.status.Text? && m.findCount.None?
    && (m.rows.Some? ==> |m.rows.value| <= CARD_BOUND)
    && (m.HasStatus(COMPLETED) ==> m.executionPhase.None? || m.InPhase(FORGED))
  }

  /** On those missions all five surfaces agree and mean exactly `Succeeded`, whatever the inbox holds. */
  lemma KernelMissionsAgree(m: Mission, inbox: seq<Opportunity>, isHttp: UrlCheck, now: int, at: int)
    requires IsKernelMission(m)
    ensures AllAgree(m, inbox, isHttp, now, at) && (CardSays(m) <==> Succeeded(m))
  {
    hide OrbSays, LivingSays, JourneySays, NoticeSays, CardSays;
    SurfacesAgreeExactly(m, inbox, isHttp, now, at);
    CardExactly(m);
  }

  // ---------------------------------------------------------------- what every other label means

  /** The Kernel read pages for it and none passed SUPPORT; a count above 200 reads as none. */
  predicate SettledWithoutSupport(m: Mission) {
    && m.status == Field.Text("failed") && m.lastFailure.Some? && m.lastFailure.value.code == Some("verified_without_support")
    && (SupportedFinds(m) == 0 || SupportedFinds(m) > 200)
  }

  /** Failed, out of lease or out of attempts. */
  predicate InTrouble(m: Mission, now: int) {
    || m.status == Field.Text("failed")
    || (m.status == Field.Text("running") && m.leaseExpiresAt.Some? && m.leaseExpiresAt.value <= now)
    || (m.attempt.Some? && m.attempt.value >= 3 && m.status != Field.Text("completed"))
  }

  /** Neither waiting for its agent, nor settled, nor in trouble: the orb shows how far the mission is. */
  predicate GoesWell(m: Mission, now: int) {
    m.status != Field.Text("waiting_for_agent") && !SettledWithoutSupport(m) && !InTrouble(m, now)
  }

  predicate IsBetween(m: Mission) {
    m.executionPhase != Some("verifying") && m.executionPhase != Some("syncing")
  }

  /** The orb over every mission: each of its states has its own condition. */
  lemma OrbStatesExactly(m: Mission, now: int)
    ensures var state, status, phase := OrbState(true, true, Some(m), now), m.status, m.executionPhase;
            && (state == "verifying" <==> GoesWell(m, now) && phase == Some("verifying"))
            && (state == "syncing" <==> GoesWell(m, now) && phase == Some("syncing"))
            && (state == "researching" <==> GoesWell(m, now) && IsBetween(m) && status == Field.Text("running"))
            && (state == "queued" <==> GoesWell(m, now) && IsBetween(m) && status == Field.Text("queued"))
            && (state == "completed_without_forge" <==>
                  GoesWell(m, now) && IsBetween(m) && status == Field.Text("completed")
                  && phase != Some("forged") && m.workState != Some("forged"))
            && (state == "research_completed" <==>
                  status != Field.Text("waiting_for_agent")
                  && (SettledWithoutSupport(m)
                      || (GoesWell(m, now) && IsBetween(m) && status == Field.Text("completed")
                          && (phase == Some("forged") || m.workState == Some("forged"))
                          && (SupportedFinds(m) == 0 || SupportedFinds(m) > 200))))
            && (state == "idle" <==>
                  GoesWell(m, now) && IsBetween(m) && status != Field.Text("running") && status != Field.Text("queued")
                  && status != Field.Text("completed"))
  {
  }

  /** Without a ready Kernel the orb is offline, off it is idle, and without a mission it is starting. */
  lemma OrbWithoutMission(enabled: bool, kernelReady: bool, mission: Option<Mission>, now: int)
    ensures OrbState(enabled, kernelReady, mission, now) == "offline" <==> !kernelReady
    ensures kernelReady && !enabled ==> OrbState(enabled, kernelReady, mission, now) == "idle"
    ensures OrbState(enabled, kernelReady, mission, now) == "starting" <==> kernelReady && enabled && mission.None?
  {
  }

  /** The other tones of the Living Forge; settled missions are calm, other failures and a missing agent are errors. */
  lemma LivingTonesExactly(m: Mission, inbox: seq<Opportunity>, isHttp: UrlCheck)
    ensures var tone, status, verifying := LivingTone(Some(m), inbox, isHttp), m.status, m.executionPhase == Some("verifying");
            && (tone == "verifying" <==> verifying)
            && (tone == "working" <==> !verifying && status == Field.Text("running"))
            && (tone == "queued" <==> !verifying && status == Field.Text("queued"))
            && (tone == "error" <==>
                  !verifying && (status == Field.Text("waiting_for_agent") || (status == Field.Text("failed") && CardSettlement(m).None?)))
    ensures LivingTone(None, inbox, isHttp) == "idle"
  {
  }

  /** A failed mission without supported rows, counts above 20 reading as none, is settled by one of two codes. */
  lemma SettlementExactly(m: Mission)
    ensures CardSettlement(m).Some? <==>
              && m.status == Field.Text("failed") && (SupportedFinds(m) == 0 || SupportedFinds(m) > 20)
              && m.lastFailure.Some?
              && (m.lastFailure.value.code == Some("verified_without_support") || m.lastFailure.value.code == Some("web_read_failed"))
    ensures CardSettlement(m).Some? ==> CardSettlement(m) == m.lastFailure.value.code
    ensures SettlementCode(m).Some? <==> CardSettlement(m).Some? && SupportedFinds(m) == 0
    ensures SettlementCode(m).Some? ==> SettlementCode(m) == m.lastFailure.value.code
  {
  }

  /** The other labels of the mission card, and the number of Finds it names. */
  lemma CardLabelsExactly(m: Mission)
    ensures var shown, status, verifying := CardStatus(m), m.status, m.executionPhase == Some("verifying");
            var forged := m.executionPhase == Some("forged") || m.workState == Some("forged");
            && (shown.VerifyingMaterial? <==> verifying)
            && (shown.SupportForged? ==> shown.finds == SupportedFinds(m) > 0)
            && (shown.ResearchCompleted? <==>
                  !verifying && status == Field.Text("completed") && forged && (SupportedFinds(m) == 0 || SupportedFinds(m) > 20))
            && (shown.EndedWithoutEvidence? <==> !verifying && status == Field.Text("completed") && !forged)
            && (shown.ReadWithoutSupport? <==> !verifying && CardSettlement(m) == Some("verified_without_support"))
            && (shown.PagesUnreadable? <==> !verifying && CardSettlement(m) == Some("web_read_failed"))
            && (shown.StatusCopy? ==> shown.status == m.status)
  {
  }

  /** What the journey of a mission has got to. */
  function Reached(m: Mission): nat {
    if (m.status == Field.Text("failed") && m.lastFailure.Some?
        && m.lastFailure.value.code == Some("verified_without_support") && JourneyFinds(m) == 0)
       || m.executionPhase == Some("verifying") then 2
    else if m.status == Field.Text("queued") || m.status == Field.Text("running") then 1
    else if m.status == Field.Text("completed") then (if m.IsForged() && JourneyFinds(m) > 0 then 3 else 2)
    else if m.status == Field.Text("failed") then (if m.attempt.Some? && m.attempt.value < 2 then m.attempt.value
                                                   else if m.attempt.None? then 1 else 2)
    else 0
  }

  /**
   The four stages of every journey are complete up to the stage reached and pending behind it. That
   stage itself is complete for a completed mission that is not still verified without SUPPORT, and for a
   read settled without SUPPORT; it is an error for any other failure, and active otherwise.
   */
  lemma JourneyShape(m: Mission, index: nat)
    requires index < 4
    ensures var state, reached := StageState(m, index), Reached(m);
            var settled := m.status == Field.Text("failed") && m.lastFailure.Some?
                           && m.lastFailure.value.code == Some("verified_without_support") && JourneyFinds(m) == 0;
            && (index < reached ==> state == "complete")
            && (index == reached ==>
                  state == if settled || m.status == Field.Text("completed") then "complete"
                           else if m.status == Field.Text("failed") then "error" else "active")
            && (index > reached && !(m.status == Field.Text("completed") && m.IsForged() && JourneyFinds(m) > 0) ==> state == "pending")
  {
  }

  /** The other kinds of notice, and the number of Finds that a Find notice names. */
  lemma NoticesExactly(e: W.Event, inbox: seq<Opportunity>, m: Mission, isHttp: UrlCheck)
    ensures var notice := NoticeOf(e, inbox, m, isHttp);
            && (notice.notify <==> notice.kind != Silent)
            && (notice.kind == Find ==> notice.finds == FindCount(inbox, m, isHttp) > 0)
            && (notice.kind == Attention <==>
                  e.status == "failed" && OrElse(e.settlement, SettlementCode(m)) != Some("verified_without_support"))
            && (notice.kind == Silent <==>
                  e.status != "failed"
                  && !(e.status == "completed"
                       && (e.executionPhase == Some("forged") || e.workState == Some("forged")
                           || (m.status == Field.Text("completed") && m.IsForged()))))
  {
  }

  /** The event of a failed mission keeps its settlement: what becomes of the mission later does not change the notice. */
  lemma EventKeepsSettlement(m: Mission, later: Mission, inbox: seq<Opportunity>, isHttp: UrlCheck, at: int)
    requires W.IsTracked(m) && m.HasStatus(FAILED) && SettlementCode(m).Some?
    ensures NoticeOf(W.EventOf(m, at), inbox, later, isHttp) == NoticeOf(W.EventOf(m, at), inbox, m, isHttp)
    ensures NoticeOf(W.EventOf(m, at), inbox, later, isHttp).kind == Forged
            <==> m.lastFailure.value.code == Some("verified_without_support")
  {
    SettlementExactly(m);
  }

  /** The inbox items that count for a mission: live leads with a web source and evidence that its own supported rows name. */
  lemma InboxFindsExactly(inbox: seq<Opportunity>, m: Mission, isHttp: UrlCheck, item: Opportunity)
    ensures item in FindsForMission(inbox, m, isHttp) <==>
              && item in inbox && item.status != Field.Text("dismissed")
              && TextOf(item.title) != "" && TextOf(item.sourceUrl) != "" && isHttp(TextOf(item.sourceUrl))
              && TextOf(item.evidenceId) != ""
              && m.rows.Some? && exists row :: row in m.rows.value && row.Row? && row.supported
                                              && TextOf(row.evidenceId) == TextOf(item.evidenceId)
    ensures var found, counted := |FindsForMission(inbox, m, isHttp)|, FindCount(inbox, m, isHttp);
            counted >= found && counted >= SupportedFinds(m) && (counted == found || counted == SupportedFinds(m))
  {
    FilterMembers(inbox, ProvedBy(m, isHttp));
    if m.rows.Some? && exists row :: row in m.rows.value && row.Row? && row.supported && TextOf(row.evidenceId) == TextOf(item.evidenceId) {
      var row :| row in m.rows.value && row.Row? && row.supported && TextOf(row.evidenceId) == TextOf(item.evidenceId);
      assert TextOf(item.evidenceId) != "" ==> TextOf(item.evidenceId) in SupportedEvidence(m);
      assert TextOf(item.evidenceId) != "" ==> SupportsEvidence(m, TextOf(item.evidenceId));
      assert m in [m];
    }
  }
}
