# Efesto: state machines and fast forms

Efesto is a research assistant: a local Kernel runs missions for a user's Goals, a browser extension
polls it and notifies, and a dashboard shows the forge at work. This project models the parts of the
extension, the dashboard and the web connector that are protocols, schedules or optimised forms of
something simpler, and proves what they keep over whole runs.

Code that changes fields is a class whose methods are proved against a step function on values; the
properties are then lemmas about every run of that step function. An await is two steps with any other
event in between. Times are `real`, clocks never go back, and an infinite time is `Never`.

| module | models |
|---|---|
| Text, Ordering, Recency, Windows | trimming, stable sorting by rank, bounded recency lists, filtered windows |
| FindDelivery, DeliveryProgress, DeliveryLog | SUPPORT Find receipts as OS notifications: memory, marks, progress, spacing |
| Missions, Watchtower, WatchtowerExactness, WatchtowerRuns, MissionNotices | mission snapshots, transitions, ledger, stored state over ticks and pages, one whole alarm tick |
| Surfaces | the five places that decide whether a mission looks successful |
| ForgeScheduler, ForgeTimelines, ForgeRenderer, ForgeFrames, ArcLength | transition times, stages, tray, callbacks over runs, thread geometry by arc length |
| SpatialGrid, IdleRoute | nearest background node, the idle crawler's route |
| Refresher, ConnectionGate, ProductShell | refresh loop, latest request wins, every way of connecting |
| ForgeCycle, ForgeCycleOrder | the power cycle and the order in which Goals are forged |
| CaptureCooldown, FuzzyHistory | automatic capture cooldown, duplicate check and retry queue |
| LineReader, ChatRuns | the chat stream read line by line; the chat while threads are opened, chats begun and sends repeated |
| Entities, WebPage | character references; body assembly, redirects and retries |
| DashboardBridge | forwarding Kernel responses to the dashboard in pieces |

`dafny verify dfyconfig.toml` checks everything.

## Where the code does not do what is expected of it

Each of these is proved in the members named, with its exact condition or with the run that shows it.

- When one create in a batch fails, the ids already raised are not remembered, unless nothing was raised before it (`DeliveryProgress.RaisedAreRememberedExactly`, `FindDelivery.CreateFailureForgetsBatch`).
- Lost read marks are never tried again: they stop later ticks exactly when no Find moves into the window (`DeliveryProgress.LostMarksStarve`).
- Mission notices from the first failing create on are lost while their missions stay as they are (`MissionNotices.RaisedExactly`, `MissionNotices.LostNoticesStayLost`, `MissionNotices.LostWhileUnchanged`).
- The popup writes back the watchtower state it read when it opened. With a tick in between, that tick's missions are reported and announced again and its ledger entries are gone (`WatchtowerRuns.MarkKeepsCurrentExactly`, `WatchtowerRuns.ReportsAgainExactly`, `WatchtowerRuns.CompletionReportedTwice`, `MissionNotices.AnnouncedAgainExactly`); a mark written under a tick is lost (`WatchtowerRuns.MarkUnderTickIsLost`).
- In a `still` scene every update draws a timed frame before the settled one, so a card shown settled before its time falls back (`ForgeTimelines.TimedAfterSettledFallsExactly`, `ForgeFrames.CallbackFallsExactly`, `ForgeFrames.StillSceneFallsBack`).
- A pairing in flight undoes a disconnect (`ProductShell.DisconnectUndoneExactly`), and one that succeeds makes a connect begun after it stale (`ProductShell.TokenConnectActsExactly`).
- An ash record whose failed read later succeeds keeps its verdict, even if that is before its new Evidence is read (`ForgeTimelines.PlacedVerdictExactly`).
- A Goal whose mission did not complete is started again by the next cycle (`ForgeCycleOrder.RetriedUnlessCompleted`); if it keeps failing, every Goal behind it starves (`ForgeCycleOrder.FailingHeadStarvesQueue`).
- The power cycle can go to sleep while switched on, until the page is shown again or the button pressed (`ForgeCycle.SleepsExactly`, `ForgeCycle.FallsAsleep`, `ForgeCycle.WakesExactly`), and a press that says off does not stop a cycle that began after it (`ForgeCycle.StartsOnlyWhileOn`, `ForgeCycle.StartsWhileOff`).
- Overlapping automatic captures forget each other's cooldown (`CaptureCooldown.RememberedExactly`, `CaptureCooldown.OverlapIsNotSpaced`), and a later capture that overlaps nothing still suffers from it (`CaptureCooldown.DecisionExactly`, `CaptureCooldown.LostCaptureIsNotSpaced`).
- The duplicate check's stored times are already expiry times, so keys count for twice the maximum age; that age is five minutes, where the comment at apps/extension/src/auto-radar.js:98 says five hours (`FuzzyHistory.VerdictExactly`).
- Opening another thread while a reply streams appends the rest of it to that thread (`ChatRuns.EachListGetsItsPart`, `ChatRuns.SwitchSplitsReply`).
- The last line of a chat stream is lost when it has no line end and something to show (`LineReader.LastLineLostExactly`).
- The name table is a plain object, so `&constructor;` and six more references decode to the text of a function (`Entities.ReplacementGrowsExactly`). A numeric reference to NUL becomes U+FFFD (`Entities.BodyMeans`).
- A freshly placed idle crawler has 0.6 s of past, not the 1.5 s its comment promises (`IdleRoute.IdleCrawler.Extend`).

## Robustness beyond what this Kernel sends

The extension's functions accept more than the repository's own Kernel and callers give them. These
statements are about such inputs; they are not failures of the system as it is.

- A receipt whose id has outer white space is never suppressed (`FindDelivery.UntrimmedIsNeverSuppressed`), but the gateway makes every id of a fixed prefix and 24 hexadecimal digits (packages/kernel/src/notification/notification-gateway.ts:28).
- Forty unread receipts that are not Finds in front of a Find block it for good (`DeliveryProgress.EventuallyRaisedExactly`); the contract has other kinds of receipts (packages/kernel/src/notification/notification-contract.ts:2), but the one producer queues SUPPORT Finds only (apps/local-kernel/supported-find-notifier.mjs:29-41).
- The surfaces disagree beyond 20 supported rows, while verifying or syncing, and when only the journey's own count says there are Finds (`Surfaces.SurfacesAgreeExactly`). This Kernel verifies at most 20 candidates of a mission (apps/local-kernel/agent-mission-executor.mjs:6, 44), completes it in phase forged or, without candidates, in no phase (apps/local-kernel/mission-search-candidate-verifier.mjs:145-150, apps/local-kernel/agent-mission-executor.mjs:65-72), never sets `syncing`, and sends no count of its own; on such missions all five agree (`Surfaces.KernelMissionsAgree`).
- A repeat is missed when its address does not parse (`FuzzyHistory.RepeatReportedExactly`), but the radar refuses such an address before it asks (apps/extension/src/auto-radar.js:478-481).

## Model

| member | source | states |
|---|---|---|
| FindDelivery.RememberDelivered | apps/extension/src/kernel-supported-find-notify.js:62-72 | The loop returns the trimmed non-empty ids, new ones before old ones, each once, cut at the limit (at least one). |
| FindDelivery.Courier.RaiseEach | apps/extension/src/background.js:277-294 | Notifications are created and marks attempted in order until the first create that fails; a failed mark stops nothing. |
| FindDelivery.Courier.DeliverFinds | apps/extension/src/background.js:274-302 | One delivery: what is raised, marked and remembered, and that memory is kept unchanged when a create fails. |
| FindDelivery.Courier.Tick | apps/extension/src/background.js:245-254 | One tick lists the first 40 unread receipts, then delivers them. |
| FindDelivery.MemoryIsLatestHundred | apps/extension/src/kernel-supported-find-notify.js:62-72 | Over every run of ticks, with any marks and creates failing, the memory is the latest 100 distinct ids of the whole delivery history. |
| FindDelivery.RaisedExactly | apps/extension/src/kernel-supported-find-notify.js:29-60 | A tick raises exactly the receipts that are unread with fewer than 40 unread ones in front, are SUPPORT Finds with an id, a title and a piece of evidence, and whose id is no delivered id trimmed. |
| FindDelivery.RaisedAgainExactly | apps/extension/src/kernel-supported-find-notify.js:53-60 | A delivered receipt offered again unread is raised again if and only if at least 100 distinct other ids were delivered in front of it. |
| FindDelivery.UntrimmedIsNeverSuppressed | apps/extension/src/kernel-supported-find-notify.js:53-60 | Raw ids are compared with trimmed ones: a receipt is raised whatever the memory holds if and only if its id has outer white space. |
| FindDelivery.CreateFailureForgetsBatch | apps/extension/src/background.js:277-300 | A concrete run in which a later create fails, the earlier ids are not remembered, and the next tick raises the first receipt twice. |
| DeliveryProgress.RaisedAreRememberedExactly | apps/extension/src/background.js:277-300 | What one delivery raised is remembered afterwards if and only if no create failed, or the very first one did. |
| DeliveryProgress.SmoothTick | apps/extension/src/background.js:245-302 | A trouble-free tick raises exactly the Finds of the window in order, and exactly those leave the unread list. |
| DeliveryProgress.BacklogDrains | apps/extension/src/background.js:245-302 | After k ticks a backlog of Finds has lost its first 40k entries, and exactly those were raised, in order. |
| DeliveryProgress.BacklogRaisedExactlyOnce | apps/extension/src/background.js:245-302 | n waiting Finds are all raised once, in listing order, after ceil(n/40) ticks and no fewer. |
| DeliveryProgress.GetsItsTurn | apps/extension/src/background.js:245-302 | With fewer than 40 other receipts in front a Find is raised within its position plus one ticks. |
| DeliveryProgress.Starves | apps/extension/src/background.js:245-302 | With 40 or more unread receipts that are not Finds in front, a Find is raised by no number of ticks. |
| DeliveryProgress.EventuallyRaisedExactly | apps/extension/src/background.js:245-302 | A waiting Find is ever raised if and only if fewer than 40 unread receipts that are not Finds precede it. |
| DeliveryProgress.BlockedWindowIsForever | apps/extension/src/background.js:245-276 | Every later tick is without effect, whatever fails or succeeds in it, if and only if nothing in the window is deliverable. |
| DeliveryProgress.LostMarksStarve | apps/extension/src/background.js:277-300 | After a tick with any marks lost, no later tick does anything if and only if no Find is among as many receipts behind the window as there were marks that succeeded. |
| DeliveryProgress.UnreadAfterMarks | apps/extension/src/background.js:277-294 | After a tick the unread list is the window without what was marked, then the rest. |
| DeliveryLog.NotifiedFarApart | apps/extension/src/background.js:274-302 | Between two notifications of one receipt, creates succeeding and marks failing as they may, there are 100 distinct others counting those before the first in its own batch, so at least 61 strictly between. |
| Watchtower.ReconcileMissions | apps/extension/src/mission-watchtower.js:7-42 | The loop over the newest 100 well-formed missions yields the new revision map, the transitions and the merged ledger. |
| WatchtowerExactness.NewestExactly | apps/extension/src/mission-watchtower.js:13-16 | The missions looked at are exactly those with fewer than 100 others in front of them, counted on createdAt: newer, or as new and listed earlier. |
| WatchtowerExactness.ReportedExactly | apps/extension/src/mission-watchtower.js:13-35 | A transition is returned exactly for missions among the newest 100 of both lists whose revision changed and that are now terminal, each once. |
| WatchtowerRuns.FirstReportsNothing | apps/extension/src/mission-watchtower.js:19-23 | A tick that read a state no list was ever stored in reports nothing. |
| WatchtowerRuns.FailedTickStoresNothing | apps/extension/src/background.js:208-259 | A tick whose mission request failed is over and has stored nothing; the next one reads anew. |
| WatchtowerRuns.ReportsSinceListRead | apps/extension/src/mission-watchtower.js:7-42 | In every run of ticks that await, pages and marks, a tick reports exactly the missions newly terminal since the list behind the state it read. |
| WatchtowerRuns.RunReportsExactly | apps/extension/src/mission-watchtower.js:7-42 | A tick that read a current state reports exactly the missions newly terminal since the latest list stored. |
| WatchtowerRuns.MarkKeepsCurrentExactly | apps/extension/src/popup.js:123-135 | Opening a result makes the stored state current if and only if no tick has stored a list since the one behind the state captured when its page was opened. |
| WatchtowerRuns.OnlyMarksAge | apps/extension/src/popup.js:123-135 | Nothing but such a mark makes a stored state older than the latest list. |
| WatchtowerRuns.MarkUnderTickIsLost | apps/extension/src/background.js:216-259 | A mark written while a tick is under way leaves no trace in what the tick stores. |
| WatchtowerRuns.ReportsAgainExactly | apps/extension/src/popup.js:123-135 | A page opened before a tick and its result opened after it: the next tick on the same list reports again exactly what the first reported, which is gone from the ledger it read. |
| WatchtowerRuns.CompletionReportedTwice | apps/extension/src/popup.js:123-135 | Such a run from the empty state, in which one completion is reported by two ticks. |
| WatchtowerRuns.ReportsAlikeExactly | apps/extension/src/mission-watchtower.js:19-23 | Reading one state in place of another changes no later report if and only if both know the same missions, with the same revision wherever one of them is terminal. |
| WatchtowerExactness.EventIdIsTriple | apps/extension/src/mission-watchtower.js:25 | Composed event ids are equal exactly when mission, status and timestamp are, for timestamps without the letter d. |
| WatchtowerRuns.RunKeepsLedger | apps/extension/src/mission-watchtower.js:37-41 | In every run the stored ledger, and every copy of it read by a tick or a page, holds at most 20 terminal entries with distinct ids. |
| WatchtowerExactness.RepeatChangesNothing | apps/extension/src/mission-watchtower.js:7-42 | Repeating a snapshot returns nothing and leaves the state unchanged. |
| WatchtowerExactness.LedgerExactly | apps/extension/src/mission-watchtower.js:37-41 | The new ledger is the new entries in their order, then the older ones in theirs, cut behind the 20th; so up to 20 new events with ids are all in it, in front of every older entry, and only the last older ones are dropped. |
| WatchtowerExactness.ReportIsInLedger | apps/extension/src/mission-watchtower.js:25-41 | What a snapshot reports is in the ledger it stores, in front, each report but one whose id the ledger already had. |
| WatchtowerRuns.ReportEntersLedger | apps/extension/src/mission-watchtower.js:7-42 | In every run of ticks, pages and marks: what a tick reports is in the ledger that this tick stores. |
| Watchtower.EventTellsMission | apps/extension/src/mission-watchtower.js:24-34 | An event holds the mission's id, status, phase, work state, settlement and time as they were, unread. |
| Watchtower.MarkedReadExactly | apps/extension/src/mission-watchtower.js:44-46 | Marking leaves every event where it is, read, and changes nothing else. |
| WatchtowerExactness.RevisionMeans | apps/extension/src/mission-watchtower.js:197-205 | Two revision texts are equal exactly when status, phase, terminal time and failure time are, for fields without a bar. |
| MissionNotices.ServiceWorker.BeginTick | apps/extension/src/background.js:208-218 | A tick reads the watchtower state before its awaits, one tick at a time. |
| MissionNotices.ServiceWorker.InspectMissionTransitions | apps/extension/src/background.js:220-272 | The rest of the tick, from the state read at its beginning: delivery, reconciliation, stored state, then mission notices; a failed mission request stores nothing. |
| MissionNotices.ServiceWorker.OpenPage | apps/extension/src/popup.js:78-91 | A page captures the state stored when it opens. |
| MissionNotices.ServiceWorker.OpenResult | apps/extension/src/popup.js:130-135 | Opening the result writes the captured state back with its events read. |
| MissionNotices.ServiceWorker.RaiseNotices | apps/extension/src/background.js:260-268 | Notices are raised in transition order until one cannot be created. |
| MissionNotices.CoveringIgnoresState | apps/extension/src/kernel-supported-find-notify.js:79-90 | Reading or dismissing receipts never changes which missions they cover. |
| MissionNotices.CoveringExactly | apps/extension/src/kernel-supported-find-notify.js:79-90 | A mission is covered exactly when some SUPPORT Find receipt names evidence that its own rows support. |
| MissionNotices.FailedIsAlwaysRaised | apps/extension/src/kernel-supported-find-notify.js:112-128 | No inbox and no receipt can silence the notice of a failed mission. |
| MissionNotices.CompletedRaisedExactly | apps/extension/src/kernel-supported-find-notify.js:112-128 | A completed mission is announced exactly when it is forged and no receipt covers it. |
| MissionNotices.TickAnnouncesExactly | apps/extension/src/background.js:258-268 | In every run of ticks, pages and marks, what is due is exactly the missions newly terminal since the list behind the state read that the covering rule lets through, each with its kind; it is announced up to the first create that fails. |
| MissionNotices.AnnouncedUntilFailure | apps/extension/src/background.js:260-268 | When the k-th create fails exactly the first k of the notices due are raised. |
| MissionNotices.RaisedExactly | apps/extension/src/background.js:258-268 | A tick raises all that is due if and only if no create fails among them. |
| MissionNotices.LostNoticesStayLost | apps/extension/src/background.js:258-268 | The state is stored first: the notices after the first k stay lost over any number of repeats of the snapshot, with any other lists and troubles in them. |
| MissionNotices.LostWhileUnchanged | apps/extension/src/background.js:258-268 | Over any later undisturbed ticks, whatever their lists, a mission stays unannounced as long as it keeps the revision it was stored with. |
| MissionNotices.AnnouncedAgainExactly | apps/extension/src/popup.js:130-135 | After an older state was written back, the next tick on the same answers raises again exactly all that was due in the tick before. |
| Missions.CountSupportedFinds | apps/extension/src/mission-presentation.js:131-139 | The counting loop counts exactly the rows with supported set to true. |
| Missions.EndedAtExactly | apps/extension/src/mission-watchtower.js:203-205 | A mission ended when it was forged, else completed, else failed, else when it was created. |
| Surfaces.FindSupportingRow | apps/extension/src/find-presentation.js:18-29 | The nested search finds a supporting row of some mission exactly when there is one. |
| Surfaces.InboxCannotMint | apps/extension/src/forge-activity.js:28-39 | The inbox may raise a mission's Find count but never makes it positive without a supported row. |
| Surfaces.OrbExactly | apps/extension/src/efesto-orb-state.js:12-67 | The orb says completed exactly for a success of at most 200 supported rows that is neither verifying nor syncing. |
| Surfaces.OrbFailedExactly | apps/extension/src/efesto-orb-state.js:12-30 | With the forge on and the Kernel ready the orb says failed exactly for a mission that waits for an agent, or that failed, outlived its lease or used up three attempts without completing, except for a failure verified without support. |
| Surfaces.OrbStatesExactly | apps/extension/src/efesto-orb-state.js:12-67 | The other states of the orb, each with its exact condition on status, phase, work state and supported rows. |
| Surfaces.OrbWithoutMission | apps/extension/src/efesto-orb-state.js:12-16 | Offline without a ready Kernel, idle when off, starting exactly without a mission. |
| Surfaces.LivingExactly | apps/extension/src/forge-activity.js:13-74 | The Living Forge shows success exactly for a success that is not verifying, whatever the inbox holds. |
| Surfaces.LivingTonesExactly | apps/extension/src/forge-activity.js:13-74 | The other tones: an error exactly for a missing agent or a failure that is not settled, both unless verifying. |
| Surfaces.InboxFindsExactly | apps/extension/src/find-presentation.js:36-67 | The inbox items counted for a mission are exactly its live ones with a title, a web source and evidence that a supported row of the mission names; the count is the greater of their number and that of the supported rows. |
| Surfaces.NoticeExactly | apps/extension/src/mission-watchtower.js:62-124 | The watchtower notice is of kind find exactly for a success. |
| Surfaces.NoticesExactly | apps/extension/src/mission-watchtower.js:62-124 | The other notices: attention exactly for a failure not verified without support, silence exactly for an event neither failed nor forged. |
| Surfaces.EventKeepsSettlement | apps/extension/src/mission-watchtower.js:24-34 | The event of a settled failure decides its notice: what becomes of the mission later does not change it. |
| Surfaces.SettlementExactly | apps/extension/src/mission-presentation.js:38-62 | A failure is settled exactly when it has no supported rows and one of two codes. |
| Surfaces.CardExactly | apps/extension/src/mission-presentation.js:38-62 | The card says SUPPORT exactly for a success of at most 20 supported rows that is not verifying. |
| Surfaces.CardLabelsExactly | apps/extension/src/mission-presentation.js:38-62 | The other labels of the card, each with its exact condition, and the number of Finds it names. |
| Surfaces.JourneyExactly | apps/extension/src/product-journey.js:24-60 | The Forged stage is complete exactly for a success, or a forged completion without rows whose own count is positive. |
| Surfaces.JourneyShape | apps/extension/src/product-journey.js:24-60 | Stages before the one reached are complete and those behind it pending; the one reached is complete, an error or active as the mission ended or goes on. |
| Surfaces.SurfacesAgreeExactly | apps/extension/src/product-journey.js:24-60 | For every mission and inbox the five surfaces agree if and only if the mission is outside three named families of forged completions. |
| Surfaces.SurfacesMeanSuccess | apps/extension/src/find-presentation.js:57-67 | With an array of at most 20 rows and no phase in progress all five say yes exactly when the mission is completed, forged and supported. |
| Surfaces.KernelMissionsAgree | apps/extension/src/find-presentation.js:57-67 | On missions as the local Kernel makes them all five surfaces agree and say yes exactly for a completed, forged and supported one, whatever the inbox holds. |
| ForgeTimelines.PlacedInOrder | apps/dashboard/components/forge/forge-renderer.ts:153-186 | Whatever its history, a record gets launch before landing, Evidence at least 0.45 s later, strike at least 1.85 s after that, verdict 0.7 s before the strike. |
| ForgeTimelines.PlacedLeast | apps/dashboard/components/forge/forge-renderer.ts:153-186 | Each time an update sets is the least that meets its bounds, written out in seconds: launch, landing, Evidence 0.45 s behind landing, strike 1.85 s behind Evidence, ash verdict 0.7 s behind landing when its read failed and 1.95 s behind Evidence otherwise, each its own spacing behind the record before it; what is not set is kept. |
| ForgeTimelines.PlacedVerdictExactly | apps/dashboard/components/forge/forge-renderer.ts:171-183 | After an update an ash verdict is at least 0.7 s behind landing when its read failed and 1.95 s behind Evidence otherwise; a record whose failed read now succeeds keeps its old verdict, which meets this if and only if it was late enough. |
| ForgeTimelines.RunKeepsVerdicts | apps/dashboard/components/forge/forge-renderer.ts:129-188 | Over every run of updates in which no failed read later succeeds, every ash verdict keeps those bounds. |
| ForgeTimelines.UpdateLaunches | apps/dashboard/components/forge/forge-renderer.ts:129-152 | After a replay the i-th card is launched exactly i gaps of 0.26 s, or 0.34 s on a narrow scene, behind 0.35 s; otherwise a new card is launched at least 0.1 s behind the update and a known one keeps its time. |
| ForgeTimelines.UpdateKeepsGood | apps/dashboard/components/forge/forge-renderer.ts:129-188 | Every update of every scene keeps pipeline order, spacing between records and the cursors' bounds. |
| ForgeTimelines.RunStaysGood | apps/dashboard/components/forge/forge-renderer.ts:129-188 | After any sequence of updates, replays included, launches are at least 0.26 s, Evidence starts 0.3 s, strikes 0.95 s and ash verdicts 0.16 s apart, and no later than their cursors. |
| ForgeTimelines.UpdateNeverFalls | apps/dashboard/components/forge/forge-renderer.ts:153-186 | At the moment of an advancing update no card falls, and a gold record keeps its strike time. |
| ForgeTimelines.RankNeverFalls | apps/dashboard/components/forge/forge-renderer.ts:347-357 | Over any number of advancing updates a card's stage rank never falls as time passes. |
| ForgeTimelines.TrayNeverFalls | apps/dashboard/components/forge/forge-renderer.ts:360-361 | Nor does the tray ever lose an ingot. |
| ForgeTimelines.PlayingEndsExactly | apps/dashboard/components/forge/forge-renderer.ts:223-231 | Playing has ended exactly when every record is past all its own times, written out in seconds. |
| ForgeTimelines.SettledWhenDone | apps/dashboard/components/forge/forge-renderer.ts:347-362 | Once playing has ended every stage and the tray count equal those of the settled frame. |
| ForgeTimelines.SettledFrom | apps/dashboard/components/forge/forge-renderer.ts:347-357 | Each record has a moment, given by its times, from which its timed stage is the settled one, and before which it is lower. |
| ForgeTimelines.TimedAfterSettledFallsExactly | apps/dashboard/components/forge/forge-renderer.ts:189-221 | After a settled frame a timed frame of an advancing update shows a card lower exactly when it is drawn before the moment, known before the update, at which that card settles. |
| ForgeFrames.CallbacksNeverFall | apps/dashboard/components/forge/forge-renderer.ts:347-357 | Along every advancing run of updates and timed frames the stage callbacks of one card never fall. |
| ForgeFrames.StageCallsExactly | apps/dashboard/components/forge/forge-renderer.ts:348-357 | A frame calls back exactly the cards whose stage differs from the one shown, with their stage. |
| ForgeFrames.CallbackFallsExactly | apps/dashboard/components/forge/forge-renderer.ts:189-221 | After a settled frame, an advancing update calls a card back with a lower stage exactly when its timed frame is drawn before that card settles. |
| ForgeFrames.StillSceneFallsBack | apps/dashboard/components/forge/forge-renderer.ts:189-221 | Driven through Update and EmitStages, the one gold card of a scene without motion is called back as pending, gold, and pending again. |
| ForgeRenderer.ForgeRenderer.Update | apps/dashboard/components/forge/forge-renderer.ts:129-189 | The fields change as the schedule says and keep the invariant; shown stages survive with their records unless replayed. |
| ForgeRenderer.ForgeRenderer.PlaceThreads | apps/dashboard/components/forge/forge-renderer.ts:152-185 | The loop over the threads computes the schedule of the whole scene and moves the cursors. |
| ForgeRenderer.ForgeRenderer.CollectStrikes | apps/dashboard/components/forge/forge-renderer.ts:187 | The stored strikes are one per gold record, in time order, at least 0.95 s apart. |
| ForgeRenderer.ForgeRenderer.LastEvent | apps/dashboard/components/forge/forge-renderer.ts:223-229 | The loop finds the last moment at which anything moves. |
| ForgeRenderer.ForgeRenderer.EmitStages | apps/dashboard/components/forge/forge-renderer.ts:347-362 | A frame leaves every card at its stage, calls back exactly for the cards that changed, and shows the right tray count. |
| ForgeRenderer.StrikesRise | apps/dashboard/components/forge/forge-renderer.ts:187 | Sorting the gold strikes gives a list that rises by at least 0.95 s. |
| ForgeRenderer.LandedStrikes | apps/dashboard/components/forge/forge-renderer.ts:360 | Counting strikes older than 1.2 s counts exactly the gold records whose ingot has landed. |
| ArcLength.Measure | apps/dashboard/components/forge/forge-renderer.ts:263-264 | The cumulative lengths start at zero, never fall, and differ by the length of each stretch. |
| ArcLength.Tp | apps/dashboard/components/forge/forge-renderer.ts:274-283 | The binary search finds the point that a search sample by sample finds. |
| ArcLength.PointIsAtArcLength | apps/dashboard/components/forge/forge-renderer.ts:274-283 | For every share the point lies on the line, between two neighbouring samples, at exactly that arc length. |
| ArcLength.ShareIsOnLine | apps/dashboard/components/forge/forge-renderer.ts:274-283 | The search is asked for an arc length of the line, whatever the share: shares outside of it stand for its ends. |
| ArcLength.SampleIsOnLine | apps/dashboard/components/forge/forge-renderer.ts:274-283 | At the arc length of a sample the line passes through that sample, repeated samples included. |
| ArcLength.Slice | apps/dashboard/components/forge/forge-renderer.ts:285-291 | A stretch is the two end points and every sample strictly between them, each at its own arc length. |
| ArcLength.MarksRise | apps/dashboard/components/forge/forge-renderer.ts:285-291 | Those arc lengths never go back and miss no sample. |
| Refresher.DelayOfNewest | apps/extension/src/agent-hub-refresh.js:1-12 | The delay is 1000 ms exactly while the newest mission runs or is verified, 3000 ms exactly while it otherwise is queued or waits for an agent, and else 10000 ms; newest is the one with the latest createdAt, the first listed of equally new ones. |
| Refresher.MissionsAreLoaded | apps/extension/src/agent-hub-refresh.js:50-54 | In every run the missions are those of the latest start or of the latest successful refresh with a list. |
| Refresher.WaitsExactly | apps/extension/src/agent-hub-refresh.js:40-44 | In every run a timer that waits was set to ten seconds if the last two refreshes failed, and otherwise to the delay of the missions last loaded. |
| Refresher.BeginsExactly | apps/extension/src/agent-hub-refresh.js:46-49 | In every run a refresh begins exactly when a timer fires or a started hub is shown while none is in flight. |
| Refresher.StepKeepsInv | apps/extension/src/agent-hub-refresh.js:22-90 | Every event keeps the invariant of timer, flight, failures and notices. |
| Refresher.NeverStalledNeverDoubled | apps/extension/src/agent-hub-refresh.js:22-90 | In every interleaving: at most one live timer and one refresh, no timer when stopped, and a timer or a refresh whenever started and visible. |
| Refresher.CountsTrailingFailures | apps/extension/src/agent-hub-refresh.js:50-65 | The failure counter is the number of failures since the last success, through stops and restarts. |
| Refresher.ReachabilityTracksHistory | apps/extension/src/agent-hub-refresh.js:50-73 | The hub is unreachable exactly when the last two refreshes failed; notices alternate starting with offline and the last one tells which. |
| Refresher.AgentHubRefresher.Reschedule | apps/extension/src/agent-hub-refresh.js:40-44 | The old timer is cancelled and a new one set only while started and visible. |
| Refresher.AgentHubRefresher.StartHub | apps/extension/src/agent-hub-refresh.js:76-80 | Starting loads the initial missions, schedules, and keeps the invariant. |
| Refresher.AgentHubRefresher.StopHub | apps/extension/src/agent-hub-refresh.js:81-84 | Stopping cancels the timer and keeps the invariant. |
| Refresher.AgentHubRefresher.ChangeVisibility | apps/extension/src/agent-hub-refresh.js:85-88 | Hiding cancels; showing refreshes at once unless one is in flight. |
| Refresher.AgentHubRefresher.FireTimer | apps/extension/src/agent-hub-refresh.js:46-49 | A timer begins a refresh at most once. |
| Refresher.AgentHubRefresher.FinishRefresh | apps/extension/src/agent-hub-refresh.js:50-69 | A finished refresh updates missions, failures and notices, then reschedules. |
| ConnectionGate.StepKeepsInv | apps/dashboard/components/connection-gate.tsx:26-108 | Every connect, reload, disconnect, mount, unmount and finish keeps the gate's invariant. |
| ConnectionGate.ShownIsStored | apps/dashboard/components/connection-gate.tsx:37-108 | In every interleaving a shown snapshot has a stored connection and was fetched with exactly that connection; nothing is stored while unmounted. |
| ConnectionGate.SupersededAreAborted | apps/dashboard/components/connection-gate.tsx:46-50 | Every superseded request still in flight has been aborted. |
| ConnectionGate.OnlyLatestActs | apps/dashboard/components/connection-gate.tsx:51-69 | Finishing any request but the latest changes nothing stored or shown. |
| ConnectionGate.NothingFromBefore | apps/dashboard/components/connection-gate.tsx:37-108 | No request begun before a disconnect, an unmount or a newer request can change anything afterwards, in any continuation. |
| ConnectionGate.LatestConnectActs | apps/dashboard/components/connection-gate.tsx:37-71 | The latest connect does act, however many older requests finish first: an online Kernel is stored and shown, anything else clears both and is told, and so is at once an address that does not normalize; meanwhile the form is busy and shows no error. |
| ConnectionGate.LatestReloadActs | apps/dashboard/components/connection-gate.tsx:73-101 | The latest reload shows what it loaded; unauthorized it clears store and snapshot and is told; any other failure leaves both. |
| ConnectionGate.DisconnectedUntilConnect | apps/dashboard/components/connection-gate.tsx:103-108 | After a disconnect nothing is stored or shown, whatever finishes, is reloaded or mounted, until a connect. |
| ConnectionGate.RemountedConnects | apps/dashboard/components/connection-gate.tsx:26-71 | After any run, a page left and mounted again connects as a fresh one does. |
| ConnectionGate.BusyWhileConnecting | apps/dashboard/components/connection-gate.tsx:52-71 | From a fresh page, through any run of what the page offers, the form is busy exactly while its own connect is in flight. |
| ConnectionGate.Component.ConnectTo | apps/dashboard/components/connection-gate.tsx:37-71 | Connecting aborts, takes the next number and starts; an invalid address is rejected in the same turn. |
| ConnectionGate.Component.ReloadNow | apps/dashboard/components/connection-gate.tsx:73-101 | Reloading does nothing without a stored connection, and otherwise starts a request with it. |
| ConnectionGate.Component.DisconnectNow | apps/dashboard/components/connection-gate.tsx:103-108 | Disconnecting aborts, invalidates the current number and clears store and snapshot. |
| ConnectionGate.Component.FinishRequest | apps/dashboard/components/connection-gate.tsx:52-101 | Each way a request can finish has its effect on store, snapshot, error and controller. |
| ConnectionGate.Component.UnmountNow | apps/dashboard/components/connection-gate.tsx:26-35 | Unmounting aborts, invalidates and clears the store. |
| ProductShell.StepKeeps | apps/dashboard/components/efesto-product-shell.tsx:175-207 | Every step keeps the numbering of attempts; once paused, nothing automatic is written. |
| ProductShell.ManualBeatsAutomatic | apps/dashboard/components/efesto-product-shell.tsx:175-207 | After any manual action no automatic attempt, begun before or after it, installs or clears a connection, in every interleaving. |
| ProductShell.RestoreIsBounded | apps/dashboard/components/efesto-product-shell.tsx:179-195 | The restore loop never reaches a sixth round. |
| ProductShell.RestoreLooksTenTimes | apps/dashboard/components/efesto-product-shell.tsx:179-195 | Without a Kernel the restore loop looks exactly ten times, in five rounds of the local Kernel and then the extension, whichever way each look comes to nothing. |
| ProductShell.RestoreConnects | apps/dashboard/components/efesto-product-shell.tsx:179-195 | While nothing manual has happened, a Kernel that the restore loop finds is loaded; the end of that load installs it, not kept for the session, or clears everything. |
| ProductShell.RememberedConnects | apps/dashboard/components/efesto-product-shell.tsx:196-203 | A remembered session is loaded at once and kept when its Kernel answers; otherwise everything is cleared. |
| ProductShell.TokenConnectActsExactly | apps/dashboard/components/efesto-product-shell.tsx:341-364 | After any run, the end of a token connect's load installs exactly its connection, kept for the session exactly when that was asked for and it is no transport token, or clears everything, if and only if no manual action, unmount or successful pairing came in between; without a usable address everything is cleared at once. |
| ProductShell.DiscoveredConnectActsExactly | apps/dashboard/components/efesto-product-shell.tsx:430-452 | What a local or extension connect finds is loaded under the same condition, and that load acts the same way but is never kept for the session. |
| ProductShell.PairedConnectActsExactly | apps/dashboard/components/efesto-product-shell.tsx:366-396 | A code that was paired is loaded whatever came before the answer, and that load acts under the same condition; a refused code changes nothing. |
| ProductShell.LeftPageWritesNothing | apps/dashboard/components/efesto-product-shell.tsx:175-207 | Once the page was left, in every interleaving, nothing automatic installs or clears a connection and no pause of the restore loop goes on. |
| ProductShell.DisconnectUndoneExactly | apps/dashboard/components/efesto-product-shell.tsx:366-396 | After any run from the mount on, a disconnect can be undone without further user action if and only if a pairing was in flight: pairing does not check the attempt number. |
| ProductShell.PairingInstalls | apps/dashboard/components/efesto-product-shell.tsx:366-396 | The run in which a pairing that outlives a disconnect installs its connection. |
| ProductShell.Component.constructor | apps/dashboard/components/efesto-product-shell.tsx:175-207 | Mounting reconnects a remembered session or starts the restore loop. |
| ProductShell.Component.StartConnect | apps/dashboard/components/efesto-product-shell.tsx:398-403 | connectWith takes a number and waits, or clears when the address does not normalize. |
| ProductShell.Component.FinishLoading | apps/dashboard/components/efesto-product-shell.tsx:410-427 | A finished load is ignored unless its number is current; otherwise it installs or clears. |
| ProductShell.Component.ConnectManually | apps/dashboard/components/efesto-product-shell.tsx:341-364 | A token connect pauses the restore loop and starts. |
| ProductShell.Component.PairWithCode | apps/dashboard/components/efesto-product-shell.tsx:366-396 | Pairing pauses the restore loop and waits without remembering a number. |
| ProductShell.Component.ConnectByDiscovery | apps/dashboard/components/efesto-product-shell.tsx:430-452 | Local and extension connects pause the restore loop and wait with the new number. |
| ProductShell.Component.DisconnectNow | apps/dashboard/components/efesto-product-shell.tsx:454-463 | Disconnecting pauses the restore loop, takes a number and clears everything. |
| ProductShell.Component.Resume | apps/dashboard/components/efesto-product-shell.tsx:179-195 | What each suspended await does when it ends. |
| ForgeCycle.RunKeepsOneAtATime | apps/extension/src/central-forge-power-controller.js:58-156 | In every run of presses, timers, answers and the page being shown and left there is at most one timer, and none while a cycle is under way. |
| ForgeCycle.StartsFollowIdleAnswer | apps/extension/src/central-forge-power-controller.js:86-138 | In every run each start answers to the latest Kernel answer taken, whose newest mission was neither active nor waiting, and starts the first Goal of its queue of unfinished ones. |
| ForgeCycle.WorkIsAnswered | apps/extension/src/central-forge-power-controller.js:86-141 | The restarts of a run are exactly the missions its answers found waiting for a ready agent, in order, and no answer is good for more than one start. |
| ForgeCycle.SleepsExactly | apps/extension/src/central-forge-power-controller.js:58-156 | In every run the forge falls asleep, on but with neither cycle nor timer, exactly by the page being left between cycles, or by saving the finished Goals with a Goal left and the Kernel not ready or its newest mission waiting. |
| ForgeCycle.SleepFollowsAnswer | apps/extension/src/central-forge-power-controller.js:86-133 | Behind every sleep of a page not left is an answer that showed the Kernel not ready, or a mission waiting for an agent that was not. |
| ForgeCycle.FailureShownExactly | apps/extension/src/central-forge-power-controller.js:58-156 | A failure is shown from the moment a Kernel answer, a save or a start fails, with the next try scheduled, or an orb says failed, until another orb, a saved press or a new beginning. |
| ForgeCycle.OpensAwake | apps/extension/src/central-forge-power-controller.js:19-25 | A page opened with the forge on begins a cycle at once, and otherwise waits with neither cycle nor timer. |
| ForgeCycle.FallsAsleep | apps/extension/src/central-forge-power-controller.js:58-133 | The run that falls asleep: a page opened with the forge on while the Kernel is not ready. |
| ForgeCycle.SleepsUntilPressedOrShown | apps/extension/src/central-forge-power-controller.js:58-156 | A sleeping forge is unchanged by every sequence of events without a press and without the page being shown again. |
| ForgeCycle.WakesExactly | apps/extension/src/central-forge-power.js:18-22 | Of all events exactly a press and the page being shown change it: showing the page begins a cycle; the press begins one when a failure is shown and otherwise ends with the forge off. |
| ForgeCycle.ForgePowerController.StopTimer | apps/extension/src/central-forge-power-controller.js:156 | Leaving the page clears the timer and nothing else. |
| ForgeCycle.ForgePowerController.RunCycle | apps/extension/src/central-forge-power-controller.js:58-61 | A cycle begins, and clears the timer, unless one is under way. |
| ForgeCycle.OffUnderWayExactly | apps/extension/src/central-forge-power-controller.js:34-149 | In every run a cycle works on while the forge is off if and only if a press that says off was saved in the middle of that very cycle. |
| ForgeCycle.StartsOnlyWhileOn | apps/extension/src/central-forge-power-controller.js:34-138 | A start happens while the forge is on if and only if no such press was saved in the middle of its cycle. |
| ForgeCycle.StartsWhileOff | apps/extension/src/central-forge-power-controller.js:34-138 | The run in which such a cycle starts a Goal after the forge was switched off. |
| ForgeCycle.ForgePowerController.StoreAnswered | apps/extension/src/central-forge-power-controller.js:63-84 | A cycle stops when off, turns the forge off without a token, and otherwise reads the Kernel. |
| ForgeCycle.ForgePowerController.KernelAnswered | apps/extension/src/central-forge-power-controller.js:86-115 | A waiting mission is restarted, an active one polled, a completed one's Goal remembered. |
| ForgeCycle.ForgePowerController.CompletedSaved | apps/extension/src/central-forge-power-controller.js:117-138 | The next Goal is started, or with none left the forge begins to turn off. |
| ForgeCycle.ForgePowerController.StartAnswered | apps/extension/src/central-forge-power-controller.js:138-146 | A started mission schedules the next poll; a failed start shows the failure and tries later. |
| ForgeCycle.ForgePowerController.ScheduleCycle | apps/extension/src/central-forge-power-controller.js:151-154 | Scheduling replaces the timer. |
| ForgeCycle.ForgePowerController.constructor | apps/extension/src/central-forge-power-controller.js:19-25 | With the forge on a new page begins its first cycle. |
| ForgeCycle.ForgePowerController.HandlePress | apps/extension/src/central-forge-power-controller.js:41-42 | A press is ignored while another press or a cycle is under way. |
| ForgeCycle.ForgePowerController.PressAnswered | apps/extension/src/central-forge-power-controller.js:45-47 | The press means on when a failure is shown once the storage has answered, and the opposite of the stored choice otherwise. |
| ForgeCycle.ForgePowerController.PressStored | apps/extension/src/central-forge-power-controller.js:48-55 | A stored press switches the forge and, when on, begins a cycle. |
| ForgeCycleOrder.HeadDone | apps/extension/src/efesto-orb-state.js:75-80 | Finishing the Goal at the head of the priority queue leaves exactly the rest of the queue. |
| ForgeCycleOrder.SelectedIsMostUrgent | apps/extension/src/efesto-orb-state.js:75-80 | The Goal selected is listed, not archived and not finished, and no other such Goal has a higher priority, is older at the same priority, or is listed earlier at the same priority and age; none is selected exactly when there is no such Goal. |
| ForgeCycleOrder.QueueIsByUrgency | apps/extension/src/efesto-orb-state.js:75-80 | Each Goal in the queue is the most urgent one, in this sense, once those in front of it are finished. |
| ForgeCycleOrder.StartsHead | apps/extension/src/central-forge-power-controller.js:113-138 | Saving the finished Goals starts the head of the queue, or finds it empty and turns off. |
| ForgeCycleOrder.RunKeepsInv | apps/extension/src/central-forge-power-controller.js:58-141 | Started Goals followed by the remaining queue are the original queue, in every state of every run. |
| ForgeCycleOrder.StartsFollowQueue | apps/extension/src/central-forge-power-controller.js:58-141 | Under every interleaving the started Goals are a prefix of the queue of unfinished non-archived Goals, each once; off means all of them, with the finished set cleared. |
| ForgeCycleOrder.StartsMostUrgentFirst | apps/extension/src/central-forge-power-controller.js:58-141 | In every run, under every interleaving, each started Goal is the most urgent one, in this sense, of those neither finished before nor started before it. |
| ForgeCycleOrder.NeverTwoAtOnce | apps/extension/src/central-forge-power-controller.js:108-138 | In no interleaving is a Goal started while the newest mission is queued or running, or the forge off. |
| ForgeCycleOrder.WholeQueueIsForged | apps/extension/src/central-forge-power-controller.js:58-141 | Once the controller and the missions have each had a move in 13 rounds per queued Goal plus 13, the forge is off with the whole queue started in order. |
| ForgeCycleOrder.MoveNeverSetsBack | apps/extension/src/central-forge-power-controller.js:58-141 | The count of moves left never grows and falls with every awaited move. |
| ForgeCycleOrder.RetriedUnlessCompleted | apps/extension/src/central-forge-power-controller.js:113-138 | A Goal whose mission ended is started again by the next cycle if and only if that mission did not complete. |
| ForgeCycleOrder.FailingHeadStarvesQueue | apps/extension/src/central-forge-power-controller.js:58-141 | Over every run in which started missions fail, only the most urgent Goal is started, the forge stays on and no Goal is finished. |
| SpatialGrid.BackgroundGrid.Build | apps/dashboard/components/forge/forge-crawler-renderer.ts:344-345 | After the build every bucket holds exactly the nodes with its key, in order. |
| SpatialGrid.BackgroundGrid.NearestNode | apps/dashboard/components/forge/forge-crawler-renderer.ts:988-996 | For every node set, cell size, point and radius the box search answers as a scan of all nodes: none exactly when no node is strictly within, else one at minimum distance. |
| SpatialGrid.BackgroundGrid.ScanBucket | apps/dashboard/components/forge/forge-crawler-renderer.ts:992-993 | One bucket is scanned without losing a nearer node. |
| SpatialGrid.NodeWithin | apps/dashboard/components/forge/forge-crawler-renderer.ts:990 | A node within the radius lies in the box of cells that is searched. |
| SpatialGrid.KeysCollide | apps/dashboard/components/forge/forge-crawler-renderer.ts:430 | Neighbouring columns share a key exactly 4096 rows apart. |
| IdleRoute.IdleCrawler.Extend | apps/dashboard/components/forge/forge-crawler-renderer.ts:911-923 | The route stays contiguous, holds the moment and a second ahead (64 extensions always suffice); it looks back 1.5 s exactly from 0.9 s after the last placement. |
| IdleRoute.MomentHasOneSegment | apps/dashboard/components/forge/forge-crawler-renderer.ts:924-927 | Each moment of the route lies in exactly one segment. |
| IdleRoute.LegsLast | apps/dashboard/components/forge/forge-crawler-renderer.ts:880-909 | How long each choice lasts, and that a walk is at the crawler's speed unless the way is too short for the shortest leg. |
| CaptureCooldown.RememberAutoCapture | apps/extension/src/auto-capture-policy.js:62-70 | The loop keeps exactly the entries younger than the cooldown, then sets the page. |
| CaptureCooldown.PruningIsExact | apps/extension/src/auto-capture-policy.js:37-41 | For captures that do not overlap, in every state of every run, the pruned map decides now and later as the full history, and captures of one page are at least the cooldown apart. |
| CaptureCooldown.CaptureEndsExactly | apps/extension/src/background.js:158-192 | A capture is remembered exactly when it was sent, and turned away, refused or failed leaves map and history as they are; either way it is over. |
| CaptureCooldown.AlikeExactly | apps/extension/src/auto-capture-policy.js:37-41 | A map decides as the history from now on if and only if it covers every capture younger than the cooldown. |
| CaptureCooldown.WriteExactly | apps/extension/src/background.js:185-188 | Writing back the map read before the awaits agrees with the history from then on if and only if every young capture of another page, before or since the read, is in that map. |
| CaptureCooldown.DecisionExactly | apps/extension/src/background.js:172-178 | A decision is wrong exactly when the map read lets the page pass although it was captured lately, since the read or before it by a capture that an earlier overlap lost from the map. |
| CaptureCooldown.NeverBlockedWithoutCause | apps/extension/src/background.js:172-178 | In every interleaving a capture turned away for the cooldown really was captured lately. |
| CaptureCooldown.SpacedExactly | apps/extension/src/background.js:172-188 | A capture that the map read lets pass keeps captures of each page the cooldown apart if and only if its page was not captured lately since the read and the map still has every young earlier capture of it. |
| CaptureCooldown.RememberedExactly | apps/extension/src/background.js:158-192 | In every run, with any overlaps: remembering one more capture keeps that spacing under exactly this condition on what was remembered before and since its read. |
| CaptureCooldown.LostCaptureIsNotSpaced | apps/extension/src/background.js:158-192 | After any past: two overlapping captures of different pages, then a third that reads alone and captures the first page again at once. |
| CaptureCooldown.OverlapIsNotSpaced | apps/extension/src/background.js:158-192 | Two captures of one page that read the store before either is remembered are both remembered at once, after any past. |
| CaptureCooldown.CaptureWorker.Begin | apps/extension/src/background.js:158-162 | A capture reads the stored map before its awaits. |
| CaptureCooldown.CaptureWorker.Evaluate | apps/extension/src/background.js:172-178 | A page is allowed exactly when permitted and off cooldown in the map read. |
| CaptureCooldown.CaptureWorker.Delivered | apps/extension/src/background.js:180-191 | Only a successful send is remembered, on top of the map read. |
| ChatRuns.Conversation.Send | apps/dashboard/components/control-center.tsx:125-185 | An undisturbed send: for every way of cutting the stream into chunks the reply is the deltas of the non-blank complete lines up to the first malformed one; earlier messages stay, failures are told unless the request was aborted, and the buffer ends as the text after the last line end. |
| ChatRuns.Conversation.BeginSend | apps/dashboard/components/control-center.tsx:125-141 | A send without text, model or connection sends nothing, and only the second is told. |
| ChatRuns.Conversation.OpenThread | apps/dashboard/components/control-center.tsx:108-123 | An opened thread replaces the messages shown; one that cannot be read leaves them and is told. |
| ChatRuns.Conversation.BeginNewChat | apps/dashboard/components/control-center.tsx:98-106 | A new chat keeps the messages as a thread under their first question, cut at 34 characters, and clears messages and prompt. |
| ChatRuns.NewChatKeepsThread | apps/dashboard/components/control-center.tsx:98-106 | A new chat keeps what was shown, if anything, in front of the other threads, which stay in their order for the rest of every run. |
| ChatRuns.TitleIsFirstQuestion | apps/dashboard/components/control-center.tsx:98-106 | A thread goes under the first 34 characters of its first question. |
| ChatRuns.ToldExactly | apps/dashboard/components/control-center.tsx:108-185 | In every run the user is told exactly when a question had no model, a line was malformed, a stream failed, or a thread could not be read. |
| ChatRuns.EachListGetsItsPart | apps/dashboard/components/control-center.tsx:98-177 | With threads opened and chats begun while a reply streams, each list of messages gets exactly the part of the reply that comes while it is shown, at the end of its last message. |
| ChatRuns.OwnReply | apps/dashboard/components/control-center.tsx:125-177 | Until a thread is opened or a chat begun, the reply's own message holds the deltas of all complete lines read, and earlier messages stay. |
| ChatRuns.SwitchSplitsReply | apps/dashboard/components/control-center.tsx:108-177 | A thread opened meanwhile splits the reply: its own message keeps what had come, the rest goes to the end of the thread's last message; the own message has it all if and only if that thread is still as it was opened. |
| ChatRuns.Conversation.ReadChunk | apps/dashboard/components/control-center.tsx:162-177 | One read goes to the last message shown and leaves its unfinished line; a malformed line ends the stream and is told. |
| ChatRuns.Conversation.DrainBuffer | apps/dashboard/components/control-center.tsx:165-176 | The inner loop terminates, appends the deltas of the complete lines in the buffer and leaves the rest. |
| ChatRuns.Conversation.EndStream | apps/dashboard/components/control-center.tsx:178-184 | The end of a stream is told exactly when it failed without being aborted. |
| LineReader.DrainInTwo | apps/dashboard/components/control-center.tsx:161-177 | Draining the buffer before more text arrives changes nothing. |
| LineReader.DrainExactly | apps/dashboard/components/control-center.tsx:165-176 | Cutting at the first line end again and again meets exactly the complete lines of the text. |
| LineReader.LinesRebuild | apps/dashboard/components/control-center.tsx:165-168 | Complete lines and the rest rebuild the text and contain no line end. |
| LineReader.LaterTextExtends | apps/dashboard/components/control-center.tsx:161-177 | More text only extends what is shown; text without a line end shows nothing. |
| LineReader.LastLineLostExactly | apps/dashboard/components/control-center.tsx:161-177 | A last line without its line end costs nothing if and only if a malformed line came before it or it has nothing to show. |
| FuzzyHistory.AutoRadar.IsDuplicate | apps/extension/src/auto-radar.js:323-367 | The check, pruning its map while walking it, changes memory and answers as the step function says. |
| FuzzyHistory.AutoRadar.FuzzyDuplicate | apps/extension/src/auto-radar.js:304-321 | Expired fingerprints are dropped, and a resemblance is found exactly when a live non-empty one is at least half alike. |
| FuzzyHistory.JaccardExactly | apps/extension/src/auto-radar.js:313-318 | The similarity of two token sets reaches the threshold if and only if they are not both empty and at least half of all their words are in both. |
| FuzzyHistory.VerdictExactly | apps/extension/src/auto-radar.js:323-367 | After any run the answer and its reason are those of a search of every page ever admitted: keys count for twice the maximum age, similar content for once. |
| FuzzyHistory.PrintsStayApart | apps/extension/src/auto-radar.js:304-321 | In every state of every run no two non-empty fingerprints have half of all their words in common. |
| FuzzyHistory.VisitKeepsSpread | apps/extension/src/auto-radar.js:304-367 | Any check, with any clock, keeps the fingerprints apart. |
| FuzzyHistory.RepeatReportedExactly | apps/extension/src/auto-radar.js:335-366 | Repeating the content of a live non-empty fingerprint is reported as a duplicate if and only if the address parses. |
| FuzzyHistory.AutoRadar.EnqueueForRetry | apps/extension/src/auto-radar.js:576-602 | A failed address is queued once; its count grows to three and then nothing changes; addresses stay distinct. |
| FuzzyHistory.AutoRadar.ProcessQueue | apps/extension/src/auto-radar.js:608-640 | Splicing backwards while walking keeps exactly the young entries, in order. |
| Entities.DecodeInvertsEscape | packages/connectors/src/web-page.ts:333-345 | Escaping &, <, > and " by name and then decoding gives every text back. |
| Entities.DecodeInvertsEncode | packages/connectors/src/web-page.ts:333-345 | So does every mixture of raw characters, names, decimal and hexadecimal references. |
| Entities.BodyMeans | packages/connectors/src/web-page.ts:336-341 | A character survives as a decimal or hexadecimal reference exactly when it is not NUL. |
| Entities.DecodeReference | packages/connectors/src/web-page.ts:333-345 | A reference is replaced and the text after it is decoded on its own; output is never read again. |
| Entities.DecimalsExactly | packages/connectors/src/web-page.ts:333-345 | A decimal reference of one to seven digits becomes one character; without digits or with more it stays. |
| Entities.HexadecimalsExactly | packages/connectors/src/web-page.ts:333-345 | A hexadecimal reference of one to six digits becomes one character; without digits or with more it stays. |
| Entities.DecodePlain | packages/connectors/src/web-page.ts:333-345 | Text without & is unchanged. |
| Entities.ReplacementGrowsExactly | packages/connectors/src/web-page.ts:343 | A replacement is longer than its reference exactly for the seven names inherited from Object.prototype. |
| Entities.DecodeNeverLengthens | packages/connectors/src/web-page.ts:333-345 | Decoding never lengthens, in UTF-16 units, a text without a reference to one of those names. |
| Entities.FunctionTextIsLong | packages/connectors/src/web-page.ts:343 | The text of an inherited function is longer than the reference it replaces. |
| WebPage.ReadBounded | packages/connectors/src/web-page.ts:95-114 | The body is refused exactly when its declared or real length exceeds the limit; otherwise the buffer holds exactly the bytes read, however they were cut. |
| WebPage.Set | packages/connectors/src/web-page.ts:114 | Setting a chunk at an offset writes exactly that stretch. |
| WebPage.FetchOnce | packages/connectors/src/web-page.ts:45-72 | At most six hosts are asked, each checked first, in redirect order; the chain ends at one hop it reaches, for the reason that hop gives: refused, failed, answered, no or bad Location, or too many redirects. |
| WebPage.OneOutcome | packages/connectors/src/web-page.ts:45-72 | No two outcomes fit the same hops, so each outcome has exactly its cause. |
| WebPage.Fetch | packages/connectors/src/web-page.ts:27-43 | The outcome is that of the last attempt made: the first that may not be retried, or the last of at most four allowed. |
| DashboardBridge.ForwardsAPrefix | apps/extension/src/dashboard-bridge.js:98-109 | Whatever happens in whatever order the posted pieces, each of at most 16384 bytes, make up a prefix of the body of at most 8 MiB; done is last and only after the whole body. |
| DashboardBridge.BodyIsForwardedExactly | apps/extension/src/dashboard-bridge.js:96-109 | For every split of the body into reads: at most 8 MiB is forwarded whole and followed by done; more ends in an error. |
| DashboardBridge.PiecesExactly | apps/extension/src/dashboard-bridge.js:106 | The pieces of one read are small, not empty, and put together are exactly that read. |
| DashboardBridge.StepKeepsGoodPort | apps/extension/src/dashboard-bridge.js:69-112 | Every event keeps the shape of the transcript; a stopped port posts nothing more. |
| DashboardBridge.PortsStayBounded | apps/extension/src/dashboard-bridge.js:63-80 | In every interleaving at most 32 ports are live, exactly those not stopped; a settings change stops them all. |
| DashboardBridge.PortsAreApproved | apps/extension/src/dashboard-bridge.js:63-75 | Every port was approved when it connected, and an approved one is taken exactly while fewer than 32 are live. |
| DashboardBridge.ResponseNeedsConsent | apps/extension/src/dashboard-bridge.js:81-99 | Nothing of a response is posted before a request that is allowed and a store that is paired. |
| DashboardBridge.SecondMessageStops | apps/extension/src/dashboard-bridge.js:81-83 | A second message stops the port, whatever came in between. |
| DashboardBridge.ErrorExactly | apps/extension/src/dashboard-bridge.js:81-111 | A live port is told of an error exactly when a request or the store refuses, a fetch or a read fails, or the body exceeds 8 MiB; then it is over. |
| DashboardBridge.DashboardBridge.OnRead | apps/extension/src/dashboard-bridge.js:100-107 | One read is counted, refused when too much, or posted in pieces. |
| DashboardBridge.DashboardBridge.PostPieces | apps/extension/src/dashboard-bridge.js:106 | The loop posts exactly the pieces of the read. |
| DashboardBridge.DashboardBridge.OnSettingsChanged | apps/extension/src/dashboard-bridge.js:42-46 | The loop stops every live port. |
| DashboardBridge.DashboardBridge.OnConnect | apps/extension/src/dashboard-bridge.js:63-80 | A port is taken only when approved and fewer than 32 are live. |
| DashboardBridge.DashboardBridge.OnMessage | apps/extension/src/dashboard-bridge.js:81-86 | A second message stops the port; a request that is not allowed is an error. |
| DashboardBridge.DashboardBridge.OnFetched | apps/extension/src/dashboard-bridge.js:96-99 | Headers are posted once, then the body is read or the response is done. |
| Ordering.SortPlaces | apps/extension/src/mission-watchtower.js:13-15 | Stable sorting puts each element at the place found by counting those before it. |

## Left out

- The Kernel itself: only its list, mark-read and start-mission answers appear, as inputs.
- React rendering, DOM, CSS, canvas drawing and easing: times, stages, cursors and indexes are kept.
- `fetch`, chrome APIs, DNS, zlib and TextDecoder: their results are inputs (success, failure, chunk, text).
- URL parsing, `JSON.parse`, host checks and page-text regular expressions: abstract functions or flags; `localeCompare` is a rank.
- Floating-point rounding, NaN and non-finite stored times; Goal priorities are integers.
- Mission ids that name properties of Object.prototype; the revision map is an ordinary map.
- The end of the chat stream's text decoder, which is never flushed; chunks are decoded text.
- The power controller's await inside `initialize`, and storage reads and press writes that fail.
- A chunk of an aborted chat reply that was already read when it was aborted, and the sending of provider, model and messages.
- Persisted Auto Radar history: token sets do not survive storage, so runs start empty.
- Auto Radar's content hash and tokeniser: hash and token set of a page are inputs.
- In the product shell, `refresh` and the poller, which write the snapshot without the attempt counter, and the remount of a component under React's StrictMode.
- Which of several nodes at the same minimum distance `nearestNode` returns.
- The choice of the next crawler segment: its kind, length and target are inputs.
- Easy or finite parts: i18n, copy tables, exporters, id and sender checks, the wallpaper, private address ranges, the goal-surface parser, the review checklist.
- ForgeCycleOrder.WholeQueueIsForged: assumes every Kernel read, save and start succeeds and every started mission completes; RetriedUnlessCompleted says what happens otherwise.
- ForgeCycleOrder.StartsFollowQueue: the newest mission is the one last started; the search for it in a list is not part of this theorem.
- CaptureCooldown.PruningIsExact: no capture of the whole run overlaps another; WriteExactly, DecisionExactly, RememberedExactly and NeverBlockedWithoutCause say what holds when some do or did.
- MissionNotices.LostNoticesStayLost: the later ticks read the state stored before them; an older state written back in between raises notices again, as AnnouncedAgainExactly says.
- SpatialGrid.BackgroundGrid.NearestNode: the comparison with the full scan is for radii of zero or more; for a negative radius only what is returned is bounded.
- DeliveryProgress.BacklogRaisedExactlyOnce: no receipt arrives meanwhile, receipts have distinct trimmed ids, and creates and marks succeed.
- Entities.DecodeNeverLengthens: says when a text is not lengthened; a text with an inherited name may still be shortened by its other references.
