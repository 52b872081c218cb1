# Open E2EE client protocols in Dafny

This project models the local protocols of the TypeScript client of an end-to-end
encrypted messenger and proves properties of them. The environment of each protocol
(the Relay, the store, the application hooks, the clock) is a parameter or an
event, so every result holds for every answer of the environment and, where runs are
modelled, for every interleaving, throw, crash and replay that the events allow.

Check the whole project with `dafny verify dfyconfig.toml`. Nothing is executed.

| file | what it models |
|---|---|
| Prelude.dfy | optional values, filters of sequences, ordered entries, decimal text |
| GroupReceiveRecord.dfy, GroupFetchModel.dfy | the receive record of a group and each atomic step of the group fetcher |
| GroupRecords.dfy, GroupFetchWindows.dfy | what each step does to the record of one group; attempts, windows and heads over runs |
| GroupEviction.dfy, GroupFetchClaims.dfy | the cap on unverified groups; claims, denials and the fetch budget over runs |
| GroupFreshness.dfy, GroupFetcher.dfy | one call for fresh state between the steps of others, and the fetcher as a class |
| DeviceSets.dfy, DeviceSetMerge.dfy, DeviceSetPhase.dfy | device keys, the merge of refusals, the bounded reconciliation loop |
| GroupIntents.dfy, GroupSealedSender.dfy, GroupDeviceSet.dfy | the stored intent and its writes, the shared body, the reread of device lists |
| DeclaredGroupSend.dfy, DeclaredSendRuns.dfy, DeclaredGroupSending.dfy | what a pass posts, runs of passes, repairs and replays, and the call as a class |
| JsonText.dfy, JsonCodecExample.dfy | JSON objects as ordered members, the laws of the codecs, and codecs that satisfy them |
| ContentAdapter.dfy, ContentLaws.dfy, GroupContextRoundTrip.dfy, DistributionStripping.dfy | the default content adapter, what its context functions do to every text, round trips, and the stripping of distributions |
| DeliveryStatus.dfy, DeliveryAnnouncing.dfy, DeliveryStatusTracker.dfy | delivery sources, announcing them under crashes, and the tracker as a class |
| DeliveryError.dfy | the error and recovery hooks of a failed envelope |
| KeySyncLedger.dfy, KeySyncPass.dfy | markers against deletions, and a pass over the groups |
| PendingReceives.dfy | the paged listing and its cursor |
| PreKeyPublication.dfy | the replacement of prekeys by uploads |

Code that changes state step by step is a class or a method with loops, proved
against a function of the old state; the results over runs are lemmas about those
functions. What the functions do is also stated from the stored data alone, without
naming them, so that another body would fail a lemma. `Enabled` names what a step
needs, `Next` is the step, and `ValidRun` and `Run` are sequences of steps.

Where the code does not do what its comments or a first reading promise, the model
follows the code, and a lemma gives the exact condition or the failing case:

- A refused admission can delete groups, but only when the sender device was above the cap before (`RefusalChangesNothingIff`).
- The fetch budget and the cap each need two steps to be one (`StaleDecisionFetchesAgain`, `InterleavedAdmissionsPassTheCap`).
- A device key splits back only when the user ID holds no NUL (`SplitKeyInvertsIff`).
- A repair while the shared body is given up leaves a stored body that a replay splits (`UnsealedRepairIsWholeIff`, `RepairWhileIdentifiedSplitsOnReplay`).
- The write after the pre-messages can remove a device of the shared body, also when another pre-message throws. A call that ends before the body is sealed again, by a crash or by a throw, leaves a body that a replay misdeclares (`RemovalIsWholeIff`, `ThrowAfterTheRemovalLeavesAStaleBody`).
- The inspection of a content with a context reports something else when the content is itself a sent transcript (`InspectionReportsTheContext`).
- Stripping keeps a distribution inside a transcript when it removes one beside it (`KeptTextCarriesOnlyHidden`).
- A source or an error is marked without a hook when none is registered, and a mark does not look at the creation time of its intent (`AnnouncedMeansTheHookReturned`, `MarkedMeansReturned`, `MarkCountsReturnedIff`, `ReplacedIntentLosesAnAnnouncement`).
- A key sync mark survives a fault between the mark and its check, and a re-creation of the record before it (`FaultAfterTheMarkLeavesIt`, `RecreationKeepsTheMark`).
- The cursor of a record with a negative arrival number, which a store accepts, is rejected by the next page (`CursorParsesBackIff`, `FollowAllPages`).

## Model

| member | source | states |
|---|---|---|
| GroupReceiveRecord.BackoffGrowsToItsBound | internal/groups/receive-record.ts:113-118 | The backoff of failed fetches never shrinks with more attempts, starts at one window, and stops at one hour from the seventh attempt on. |
| GroupFetching.GroupFetcher.RaiseInFlight | client/group-fetcher.ts:208-211 | A fetch in flight notes the highest claim raised while it runs, and nothing else changes. |
| GroupFetching.GroupFetcher.Claim | client/group-fetcher.ts:193-201 | One call is the claim step: the record requires at least the claimed revision and the running fetch notes it. |
| GroupFetching.GroupFetcher.AdmitContext | client/group-fetcher.ts:225-253 | One call is the admission step: it stores key and record, or makes room first, or refuses. |
| GroupFetching.GroupFetcher.AdmitSync | client/group-fetcher.ts:268-297 | One call is the admission of a sync: it verifies the group and raises its claim; it tells whether it wrote. |
| GroupFetching.GroupFetcher.UpdateReceiveRecord | internal/groups/sdk-store.ts:218-244 | Writing a record indexes the group and leaves the key and the state of the group. |
| GroupFetching.GroupFetcher.CollectOwn | client/group-fetcher.ts:307-317 | The loop collects exactly the unverified groups of the sender device other than the admitted one, in store order. |
| GroupFetching.GroupFetcher.EvictInOrder | client/group-fetcher.ts:322-337 | The loop deletes the evictable candidates from the front until the excess is gone, and returns the excess that stays. |
| GroupFetching.GroupFetcher.MakeRoomFor | client/group-fetcher.ts:303-338 | One call evicts oldest first and tells whether the new group has room. |
| GroupFetching.GroupFetcher.DecideFor | client/group-fetcher.ts:447-499 | One read gives the decision of the model: answer from the store, fetch, or only apply a carried change, with the time to wait. `DecisionIff` says exactly when each is decided. |
| GroupFetching.GroupFetcher.EnsureFresh | client/group-fetcher.ts:348-390 | The loop of at most three rounds joins a running fetch and decides again, answers from the store, or starts a fetch and answers from its end or from the deadline, whatever steps others take while it reads and waits. `CallFetchesIff`, `RoundFetchesIff` and `OwnFetchAnswers` say which fetch it starts and what it answers. |
| GroupFetching.GroupFetcher.RecordOutcome | client/group-fetcher.ts:574-641 | Recording an outcome is one step: the window, the claims, the required revision, the attempts and the denial. `TheLastFetchDecidesTheWindow` and `FailuresBackOff` say over runs what it writes. |
| GroupEviction.SortByAgeSorts | client/group-fetcher.ts:321 | The candidates are tried oldest first, and sorting keeps each of them. |
| GroupEviction.EvictedIsAPrefix | client/group-fetcher.ts:321-337 | The eviction takes the evictable groups of a prefix of the candidates, at most the excess, and fewer only when it tried all. |
| GroupEviction.AdmissionSparesItsGroup | client/group-fetcher.ts:308-310 | An admission never evicts the group that it admits. |
| GroupEviction.DeletedAreEvictable | client/group-fetcher.ts:321-335 | Only unverified groups of the sender device with no fetch in flight and no waiting content are evicted. |
| GroupEviction.MakeRoomTakesTheOldest | client/group-fetcher.ts:303-338 | An admission evicts the oldest evictable groups, exactly as many as the cap needs; it refuses if and only if too few are evictable, and has then evicted each of them. |
| GroupEviction.RefusalChangesNothingIff | client/group-fetcher.ts:225-253 | A refused admission changes nothing if and only if the device has no evictable group, which holds whenever the device is within the cap. |
| GroupEviction.CapIsKept | client/group-fetcher.ts:225-253 | Every step keeps at most 100 unverified groups for each sender device. |
| GroupEviction.NoDevicePassesTheCap | client/group-fetcher.ts:225-253 | In every run of admissions, claims, syncs, outcomes, deletions and crashes, no sender device owns more than 100 unverified groups. |
| GroupEviction.InterleavedAdmissionsPassTheCap | client/group-fetcher.ts:303-338 | Two admissions that both make room before either writes pass the cap, so admissions must run one at a time. |
| GroupFetchClaims.OnlyServerSyncLowers | client/group-fetcher.ts:594-605 | Only a recorded server sync lowers a required revision, and it sets it to the maximum of its head and the highest claim raised while it ran. |
| GroupFetchClaims.ClaimReachesRecordAndFlight | client/group-fetcher.ts:193-211 | A claim reaches the record and the running fetch in one step. |
| GroupFetchClaims.NoClaimIsLost | client/group-fetcher.ts:514-566 | Through every interleaving the record requires at least a known claim, until a server fetch that started after the claim records its sync. |
| GroupFetchClaims.NoClaimOfARunIsLost | client/group-fetcher.ts:193-211 | The same for each claim of a run, from the event that applies it. |
| GroupFetchClaims.DenialHolds | client/group-fetcher.ts:632-638 | A denial holds, and the record with it, through failed fetches, carried changes, lower claims and every other event that does not end it. |
| GroupFetchClaims.DenialEnds | client/group-fetcher.ts:605-615 | An event other than a new denial ends a denial if and only if it is a higher claim, a recorded budgeted sync, a deletion or an eviction of the group. |
| GroupFetchClaims.DenialAnswersExactlyTheKnownClaims | client/group-fetcher.ts:617-631 | A refused fetch leaves the group denied if and only if no claim raised while it ran is above every claim known at its start. |
| GroupFetchClaims.BudgetIsKept | client/group-fetcher.ts:447-499 | Every budgeted step keeps at most 16 distinct fetched claims in each window, and an unrecorded server fetch in an open window has a target that the window did not fetch. That at most one fetch of a group is in flight is the guard of a start. |
| GroupFetchClaims.BudgetHoldsThroughout | client/group-fetcher.ts:348-390 | The budget holds at the end of every budgeted run. |
| GroupFetchClaims.AWindowFetchesEachClaimOnce | client/group-fetcher.ts:447-499 | While a window stays open, the server fetches that it records add exactly their targets to its claims, each distinct claim at most once and at most 16 in all. A fetch that a crash ends before its record is not counted. |
| GroupFetchClaims.AnotherClaimDoesNotDecide | client/group-fetcher.ts:447-499 | A message is decided on its own claim: a higher claim of another sender changes neither the answer nor the target. |
| GroupFetchClaims.CarriedChangeLeavesTheWindow | client/group-fetcher.ts:507-568 | A carried change leaves the window, the claims, the required revision and the denial. |
| GroupFetchClaims.StaleDecisionFetchesAgain | client/group-fetcher.ts:348-390 | A start that follows an earlier decision can fetch a claim that the window already fetched, so the decision and the start must be one step. |
| GroupFreshness.CallIsARun | client/group-fetcher.ts:348-390 | The steps of one call, its own and those of others, are a run, so every result about runs holds for calls. |
| GroupFreshness.AnswersComeFromTheRun | client/group-fetcher.ts:348-499 | Each answer of a call was true at some moment of it: fresh means a verified state at the claim, at the head of the open window that fetched the claim, or at the head that a fetch recorded; denied means a standing denial or a recorded refusal with that reason; a failed update means an open window that fetched the claim or is full, with its time to wait, or a recorded failure; and pending means a fetch of the group in flight. |
| GroupFreshness.CallKeepsBudget | client/group-fetcher.ts:348-390 | A call whose decision and start are not interleaved keeps the fetch budget, when the steps of others keep it. |
| GroupReceiveRecord.BackoffDoubles | internal/groups/receive-record.ts:112-118 | Each failed fetch doubles the backoff of the one before it, from 30 seconds up to one hour. |
| GroupReceiveRecord.ReceiveStatusIff | internal/groups/receive-record.ts:101-110 | A denial at or above the required revision decides the status, else the stored revision against the required one does. |
| GroupRecords.OtherGroupsStay | client/group-fetcher.ts:193-338 | A step changes no other group, but for the groups that an admission evicts. |
| GroupRecords.KeyIff | client/group-fetcher.ts:225-297 | A group has a key if and only if it had one and the step does not remove it, or the step admits it. |
| GroupRecords.StateIff | internal/groups/sdk-store.ts:218-244 | A group has the state that was stored last, until it is removed. |
| GroupRecords.UnverifiedIff | client/group-fetcher.ts:225-297 | A group is unverified if and only if a context with room created it, or it was, and no sync of an own device and no fetch verified it since. |
| GroupRecords.RequiredIff | client/group-fetcher.ts:193-211 | Every step but a recorded server sync raises the required revision to the claim that it applies, or leaves it; a removed group requires nothing. |
| GroupRecords.ClaimIff | client/group-fetcher.ts:193-297 | A step applies a claim exactly when it is a claim, the sync of a group with no key, or a context that is admitted or whose group has a key. |
| GroupRecords.SourceIff | client/group-fetcher.ts:225-297 | A record keeps the source that created it. |
| GroupRecords.FlightIff | client/group-fetcher.ts:507-568 | A fetch is in flight from its start to its end or a crash, with the target and the requirement of its start and the highest claim raised since. |
| GroupRecords.RecordsIff | client/group-fetcher.ts:514-544 | What a fetch in flight can record, once: after a server call anything but a carried change below its target, and else only a carried change at it. |
| GroupFetchWindows.TheWindowStays | client/group-fetcher.ts:574-641 | Attempts, window end, head and fetched claims of a group change in no run that records no server fetch of the group and keeps the record. |
| GroupFetchWindows.TheLastFetchDecidesTheWindow | client/group-fetcher.ts:582-639 | After any run, the last recorded server fetch decides the window: a sync sets the attempts to 0, the end to 30 seconds after it and the head to its head; a failure or refusal adds one attempt, ends the window after the backoff of that count and forgets the head; and each counts its target once among the claims of an open window. |
| GroupFetchWindows.FailuresBackOff | client/group-fetcher.ts:586-592 | After n failures or refusals in a row, with any other events between them, the attempts grew by n and the window ends at the last of them plus the backoff of that count. |
| GroupFetchWindows.TheHeadIsOfTheLastSync | client/group-fetcher.ts:589-615 | While the record lives, the window knows a head if and only if the last recorded server fetch was a sync, and it is the head of that sync. |
| GroupFreshness.DecisionIff | client/group-fetcher.ts:447-499 | A read decides to fetch the claim if and only if the group has no standing denial, its state is absent or below the claim, and no open window fetched the claim or holds 16 claims; it decides to apply if and only if only the full window stands against it and a change is carried; every other read answers from the store. |
| GroupFreshness.CallFetchesIff | client/group-fetcher.ts:348-390 | A call that finds no fetch in flight starts a server fetch of its claim as its first step if and only if the group has no standing denial, its state is absent or below the claim, and no open window fetched the claim or holds 16 claims; it starts to apply a carried change if and only if only the full window stands against that, and else takes no step. |
| GroupFreshness.RoundFetchesIff | client/group-fetcher.ts:348-390 | In each round, also when others act while it reads, a call joins a fetch in flight, answers from the store, or starts exactly that fetch. |
| GroupFreshness.OwnFetchAnswers | client/group-fetcher.ts:370-384 | A call that started a fetch answers what the fetch recorded: the head of a sync, the reason of a refusal, or the time to wait after a failure; a fetch that did not end in time is pending. |
| GroupFreshness.EndOfIff | client/group-fetcher.ts:507-568 | A fetch ended in the steps of others if and only if one of them finished it or stopped the client, with the outcome that was recorded last before that. |
| DeviceSets.DeviceKeyInjective | client/device-set-reconciliation.ts:322-324 | Two devices with one key are one device, for all user IDs. |
| DeviceSets.SplitKeyInvertsIff | client/group-outbox.ts:1279-1297 | Splitting a device key gives its device back if and only if the user ID contains no NUL. |
| DeviceSets.SortedIdsAscend | client/device-set-reconciliation.ts:256-266 | The sorted list of a set ascends strictly and has the elements of the set. |
| DeviceSets.AscendingIsSorted | client/device-set-reconciliation.ts:256-266 | An ascending list is the sorted list of its set. |
| DeviceSetMerge.MergeDeviceSetRefusals | client/device-set-reconciliation.ts:230-267 | The loops over refusals and accounts compute the merge. |
| DeviceSetMerge.RepairIsTheUnions | client/device-set-reconciliation.ts:230-267 | The repair of an account holds the union of all extras, and the unions of the missing and of the stale devices without them, each list strictly ascending. |
| DeviceSetMerge.MergeRepairsEachAccountOnce | client/device-set-reconciliation.ts:230-267 | The merge gives one repair for each account that a refusal names, and no other repair. |
| DeviceSetMerge.PermutingRefusalsKeepsRepairs | client/device-set-reconciliation.ts:230-267 | Permuting the refusals changes at most the order of the accounts. |
| DeviceSetPhase.CollectAccepted | client/device-set-reconciliation.ts:382-385 | The accepted devices grow by exactly the devices that the pass accepted, each once. |
| DeviceSetPhase.CollectUnresolved | client/device-set-reconciliation.ts:361-369 | The unresolved devices are those that failed in the last pass or that a repair names, and that no pass accepted, each once. |
| DeviceSetPhase.LongestWaitOfTenRepairs | client/device-set-reconciliation.ts:26-36 | Ten repairs that each miss a bundle wait 8750 milliseconds in all. |
| DeviceSetPhase.RunDeviceSetPhase | client/device-set-reconciliation.ts:342-444 | A run from stored count r <= 10 makes at most 11 - r passes, waits at most 8750 milliseconds, ends by the first rule that applies, accounts for every device, and reports a last refusal on each exhausted end and on an expired end exactly when it made more than one pass. |
| DeviceSetPhase.AtMostTenRepairs | local/store/reliability.ts:747-753 | Over any crashes, resumes and interleaved runs, one phase commits at most ten repairs. |
| DeviceSetMerge.RepairNamesTheRefused | client/device-set-reconciliation.ts:245-265 | Told by the refusals alone: a device is in the repair as extra if and only if some refusal names it extra for the account, and as missing or stale if and only if some refusal names it so and none names it extra. |
| DeviceSetMerge.RepairsKeepTheOrder | client/device-set-reconciliation.ts:237-257 | The repairs come in the order in which the refusals first name their accounts. |
| DeviceSetPhase.RuleIff | client/device-set-reconciliation.ts:386-422 | The order of the rules, told by the errors of the posts: a stop throws first; then an expired post ends a phase that restarted, and never one that did not; then a pass with no refusal throws its first failure; and a refused pass repairs until ten restarts are used up. |
| DeviceSetPhase.WaitsDouble | client/device-set-reconciliation.ts:32-36 | The wait doubles with each miss in a row, from 250 milliseconds up to one second. |
| DeviceSetPhase.NamedDevicesIff | client/device-set-reconciliation.ts:415-420 | The named devices are exactly the missing and the stale devices of the repairs. |
| DeviceSetPhase.NamedByIff | client/device-set-reconciliation.ts:386-420 | Told by the posts: an exhausted end names a device if and only if a refused post names it missing or stale, and none names it extra. |
| DeviceSetPhase.LastRefusalNames | client/device-set-reconciliation.ts:269-284 | A reported refusal is a mismatch if and only if one of the refusals of the pass is, and names the repairs. |
| DeviceSetPhase.BundleRefusalNames | client/device-set-reconciliation.ts:431-441 | A missing bundle is reported as a refusal that names exactly the devices without one, each account once. |
| DeviceSetPhase.Round | client/device-set-reconciliation.ts:381-443 | One pass and its repair either end the phase by its rule, or go on with one more repair, the wait of the misses in a row, and the refusal to report. |
| DeviceSetPhase.RepairCommitsIff | local/store/reliability.ts:750-753 | A repair commits if and only if no other run committed one since this run read the count. |
| GroupSealedSender.PrepareGroupSharedMessage | client/group-sealed-sender.ts:34-129 | The members split into those of accounts with a known identity and the others, losing none, and the first are grouped by account. |
| GroupSealedSender.PreparedBodyHoldsWholeAccounts | client/group-sealed-sender.ts:42-114 | Each account is wholly in the body or wholly out of it, by its identity. |
| GroupSealedSender.GroupedFinds | client/group-sealed-sender.ts:83-109 | Grouping gives each account once, with all of its devices in order. |
| GroupSealedSender.BodyDevicesMembers | client/group-device-set.ts:97-109 | The devices of a body are exactly those that its accounts name. |
| GroupIntents.AppendTargets | local/store/reliability.ts:1288-1306 | Appending gives one message for each device of both lists. |
| GroupIntents.AppendDisjoint | local/store/reliability.ts:1288-1306 | New messages of other devices are all appended, in order. |
| GroupIntents.ReconciledTargets | local/store/reliability.ts:641-684 | A change leaves the targets that it does not remove and adds those of its new messages, each once. |
| DeclaredGroupSends.PassIsRightIff | client/group-outbox.ts:1265-1375 | A pass posts each stored device exactly once, splits no account and declares exactly the stored devices of each account, if and only if the body names exactly the stored devices of each of its accounts. |
| DeclaredGroupSends.PostedOnce | client/group-outbox.ts:1265-1345 | A pass posts no device twice, and posts exactly the devices of the body and those with a stored message. |
| DeclaredGroupSends.OwnPosts | client/group-outbox.ts:1341-1345 | A device gets its own post if and only if it has a message and the body does not name it. |
| DeclaredSendRuns.ResealedIsWhole | client/group-outbox.ts:1113-1130 | Sealing the body again gives whole accounts of the messages after the repair. |
| DeclaredSendRuns.NewSendIsWhole | client/group-outbox.ts:2043-2050 | The body of a new send holds whole accounts. |
| DeclaredSendRuns.DispatchKeeps | client/group-outbox.ts:599-669 | The write after the pre-messages, of a pass that completes or of a call that throws, keeps whole every account that lost no device, leaves no pre-message when it completes, and touches no account of an accepted body. |
| DeclaredSendRuns.ReplaceKeeps | client/group-outbox.ts:610-624 | Sealing a pending pre-message again keeps its device and the coherent intent. |
| DeclaredSendRuns.RenewKeeps | client/group-outbox.ts:1222-1264 | Renewing the refreshed devices, with the body sealed again when it names a touched account, makes every account whole. |
| DeclaredSendRuns.RepairKeeps | client/group-outbox.ts:1402-1467 | A repair keeps every account whole, given that no refusal names an account of an accepted body. |
| DeclaredSendRuns.RunKeepsCoherent | client/group-outbox.ts:1170-1484 | Every run of passes, throws, repairs and replays keeps the stored intent coherent, when each replay starts from whole accounts. |
| DeclaredSendRuns.EveryPassIsRight | client/group-outbox.ts:1204-1467 | In every pass of every run from a new send, with repairs, removals, given-up bodies, throws, and replays that start from whole accounts, each stored device is posted exactly once, no account is split and each account declares exactly its stored devices. |
| DeclaredSendRuns.RemovalIsWholeIff | client/group-outbox.ts:652-668 | The write after the pre-messages leaves a whole stored body whole if and only if no removed device with a message is of an account that the body names. |
| DeclaredSendRuns.UnsealedRepairIsWholeIff | client/group-outbox.ts:1440-1449 | A repair after the body was given up keeps the stored body whole if and only if it adds and drops no device of an account of the body. |
| DeclaredSendRuns.ReplayIsRightIff | client/group-outbox.ts:1653-1661 | A replay of a stored intent posts a right pass if and only if the stored body holds whole accounts. |
| DeclaredSendRuns.RepairWhileIdentifiedSplitsOnReplay | client/group-outbox.ts:1202-1442 | In a run from a new send, a repair while the body is given up keeps the stored body, and the first pass of the replay splits an account. |
| DeclaredSendRuns.ThrowAfterTheRemovalLeavesAStaleBody | client/group-outbox.ts:652-668 | In a run from a new send, the write removes a device of the body, another pre-message throws, and the first pass of the replay declares the removed device. |
| DeclaredGroupSending.SortIdsSorts | client/group-outbox.ts:1303-1354 | Sorting a declared list of unique IDs gives the ascending list of the same IDs. |
| DeclaredGroupSending.DeclaredFinds | client/group-outbox.ts:1295-1306 | A declaration names each account of its devices with all of its device IDs, ascending. |
| DeclaredGroupSending.DeclareKeys | client/group-outbox.ts:1295-1306 | The declaration that is read back from device keys is that of the devices. |
| DeclaredGroupSending.MessagesBeside | client/group-outbox.ts:1341-1345 | The filter by device key leaves exactly the messages of devices that the body does not name. |
| DeclaredGroupSending.PostOwn | client/group-outbox.ts:1346-1375 | Each own post declares the posted devices of its account. |
| DeclaredGroupSending.DeclaredGroupSend.PostBody | client/group-outbox.ts:1265-1338 | The body is posted, or its receipt is reused, or it is given up, or the call throws: it throws if and only if the body must go out sealed and there is no transport or authorization for it; a receipt is never lost, and a body is given up only without transport or authorization. |
| DeclaredGroupSending.DeclaredGroupSend.PostPass | client/group-outbox.ts:1265-1399 | The posts of a pass are those of the model: the body, the devices beside it, and one refusal for each account that has no post; it throws exactly when the post of the body does. |
| DeclaredGroupSending.DeclaredGroupSend.SettlePreMessages | client/group-outbox.ts:1218-1264 | The two writes after the pre-messages are the confirm and renew steps of the model, and a throw of a pre-message leaves the first write only. `ConfirmKeepsTheOpenMessages`, `SettleStores` and `SettleSealsAgain` say what they store. |
| DeclaredGroupSending.DeclaredGroupSend.Repair | client/group-outbox.ts:1402-1467 | One repair is one commit of the model, with the body sealed again exactly when it is open and names a repaired account. |
| DeclaredGroupSending.BodyDeclaresTheStoredDevices | client/group-outbox.ts:1295-1306 | The body of a right pass declares exactly the stored devices of each account. |
| DeclaredGroupSending.DevicePostsDeclareTheStoredDevices | client/group-outbox.ts:1346-1362 | Each own post of a right pass declares exactly the stored devices of its account. |
| GroupDeviceSet.ListedGroupDeviceChange | client/group-device-set.ts:54-73 | The unlisted devices are the stored targets that the read does not list, each once, and the added ones are the listed devices that no device message targets, in list order. |
| GroupDeviceSet.OwnChangeMembers | client/group-device-set.ts:80-90 | The own change names exactly the sync copies of unlisted devices and the listed own devices with no copy. |
| GroupDeviceSet.RereadTargetsTheListedDevices | client/group-outbox.ts:1696-1769 | After a reread the device messages target exactly the listed devices of the other members, and no pre-message targets an unlisted device. |
| GroupDeviceSet.SecondReadIsEmpty | client/group-outbox.ts:1744-1745 | A second identical read of the member lists changes nothing. |
| GroupDeviceSet.WritesKeepOwnApart | client/group-outbox.ts:2044-2059 | From a new send on, through rereads, renewals, repairs, syncs and settled pre-messages, no pre-message and no device message targets an own device, and every sync copy does. |
| GroupDeviceSet.RereadSyncsTheListedOwnDevices | client/group-outbox.ts:1780-1823 | A reread at any point of a send keeps the sync copies of the listed own devices and adds those that it built, so the copies target exactly the listed own devices if and only if each missing copy was built. |
| GroupDeviceSet.SecondOwnReadIsEmpty | client/group-outbox.ts:1786-1790 | A second identical read of the own list then changes nothing. |
| GroupIntents.AppendedMembers | local/store/reliability.ts:1288-1306 | The appended list starts with the stored messages and holds exactly the messages of both lists. |
| GroupIntents.AppendFailsIff | local/store/reliability.ts:1294-1300 | An append throws if and only if two different messages of one device would be stored. |
| GroupIntents.ReconciledMessages | local/store/reliability.ts:656-673 | Each list holds exactly the messages of devices that are not removed, in their order, and then the new ones; so a device that is removed and added holds the new message. The body changes as the change says, and nothing else changes. |
| GroupIntents.RepairCommitsOnce | local/store/reliability.ts:750-753 | A repair commits if and only if its count is the next one and its messages can be appended; the same count never commits twice. |
| GroupIntents.ConfirmKeepsTheOpenMessages | local/store/reliability.ts:1330-1336 | The write after the pre-messages keeps a pre-message if and only if its device is not removed and it has no ID or an unsettled one, keeps exactly the device messages and sync copies of devices that are not removed, each list in its order, and changes nothing else. |
| DeclaredSendRuns.PreMessagesIff | client/group-outbox.ts:599-669 | After each step a pre-message is stored if and only if it was and the step does not settle, replace, remove or renew it, or the step brings it as a replacement or as the handoff of a repair. |
| DeclaredSendRuns.PreMessageStays | client/group-outbox.ts:599-669 | In every run, also over throws and replays, a pre-message stays stored until it is settled or replaced, or its device is removed or renewed. |
| DeclaredSendRuns.ResealedAccountsIff | client/group-outbox.ts:1118-1129 | A body that is sealed again names exactly the accounts of the old body that have a message and a known identity. |
| DeclaredSendRuns.ClosedBodyStays | client/group-outbox.ts:1203-1442 | Once the Relay accepted the body, or the call gave it up, no step before a replay changes the stored body. |
| DeclaredGroupSending.BodyPostsIff | client/group-outbox.ts:1275-1324 | The posts of a pass hold one for each device of the body, with the outcome of the body, and no other such post. |
| DeclaredGroupSending.OwnPostsIff | client/group-outbox.ts:1343-1354 | A device gets its own post if and only if it has a message and the body does not cover it, and the post declares, ascending, exactly the devices of its account that get one. |
| DeclaredGroupSending.NoSessionPostsIff | client/group-outbox.ts:1377-1398 | An account is refused in the pass if and only if it has devices without a bundle and no post addresses it, and it is then refused as missing exactly those devices. |
| DeclaredGroupSending.DeclaredGroupSend.PostBeside | client/group-outbox.ts:1341-1398 | The posts beside those of the body are the own posts and the refusals of accounts with no post. |
| DeclaredGroupSending.SettleStores | client/group-outbox.ts:1218-1261 | What both writes after the pre-messages store, told by the stored messages: which pre-messages, device messages and sync copies stay, and which device messages are renewed. |
| DeclaredGroupSending.SettleSealsAgain | client/group-outbox.ts:1237-1249 | After them an open body that names an account of a refreshed or removed device is sealed again: it holds whole accounts, and exactly those with a known identity and a message. |
| DeclaredGroupSending.RenewalSealsAgain | client/group-outbox.ts:1237-1249 | The same for one renewal, told by the devices and accounts that it touches. |
| DeclaredGroupSending.RepairStores | client/group-outbox.ts:1416-1458 | What a committed repair stores, told by the repaired accounts: removed devices lose every message, each ready device gets its new message, the handoffs are stored, and the body stays unless it is open and names a repaired account. |
| DeclaredGroupSending.RepairSealsAgain | client/group-outbox.ts:1440-1449 | A repair seals an open body that names a repaired account again: it holds whole accounts, and exactly those with a known identity and a message. |
| GroupDeviceSet.WriteStores | local/store/reliability.ts:656-672 | What each write of a send stores: a settled pre-message goes, a removed device loses every message, and any other write adds the messages of its change. |
| GroupDeviceSet.OthersIff | client/group-device-set.ts:59 | The other devices are the listed ones of other accounts. |
| ContentAdapter.InnerTextIsShorter | client/content-adapter.ts:311-317 | The decoded inner content is shorter than its wrapper, so the recursion through transcripts ends. |
| GroupContextRoundTrip.ContextReadsBack | client/content-adapter.ts:353-370 | A group context comes back from its own encoding. |
| GroupContextRoundTrip.MembersCarryBoth | client/content-adapter.ts:394-415 | A content with a context is a well-formed object that carries the context, and exactly the content is beside it. |
| GroupContextRoundTrip.RemovingGivesBack | client/content-adapter.ts:394-441 | Adding a context and removing it gives back the lossless text of the content, for all bytes and contexts. `TextWithoutAContextStays`, `ContextAtTheTopGoesOut` and `ContextInsideGoesOut` say what removing does to every other text. |
| GroupContextRoundTrip.RemovingThroughATranscript | client/content-adapter.ts:418-441 | Removing the context through a sent transcript gives exactly the transcript of the content. |
| GroupContextRoundTrip.InspectionReportsTheContext | client/content-adapter.ts:384-391 | The inspection reports the context for every content that is not itself a sent transcript; for such a content it reports what the transcript reports alone. |
| GroupContextRoundTrip.TranscriptReportsTheContext | client/content-adapter.ts:384-391 | Inside a sent transcript the inspection reports the context of every content. |
| GroupContextRoundTrip.TranscriptsAreSentTranscripts | client/content-adapter.ts:831-845 | Every transcript of a text content takes a context in place, so it is such an exception. |
| GroupContextRoundTrip.ContextOnATranscriptIsNotReported | client/content-adapter.ts:384-391 | A context on the transcript of a text content is not what the inspection reports. |
| GroupContextRoundTrip.TranscriptParts | client/content-adapter.ts:831-845 | A transcript holds its content, and rewrapping replaces just that. |
| DistributionStripping.StrippingChangesOnlyCarriers | client/content-adapter.ts:448-471 | Stripping leaves a text unchanged, character for character, if and only if no level of it carries a distribution. `NothingIsKeptIff` and `KeptTextIsStripped` say what becomes of a text that carries one. |
| DistributionStripping.StrippingCommutesWithWrapping | client/content-adapter.ts:448-471 | Stripping a transcript is stripping its text and wrapping what is kept; distribution-only content gives null. |
| DistributionStripping.StrippingCommutesAtEveryDepth | client/content-adapter.ts:448-471 | The same for any number of nested transcripts. |
| DistributionStripping.StrippingATranscriptOfBytes | client/content-adapter.ts:458-471 | The transcript of any bytes: it changes if and only if the bytes decode to a text that carries a distribution. |
| DistributionStripping.KeptTextCarriesOnlyHidden | client/content-adapter.ts:451-454 | What is kept carries a distribution if and only if the outermost distribution was beside a transcript that carried another one. |
| DistributionStripping.DistributionInsideStays | client/content-adapter.ts:451-454 | A distribution beside the transcript of a carrier is removed and the one inside stays. |
| JsonCodecExample.LawfulCodecsExist | client/content-adapter.ts:311-339 | There are codecs that satisfy every law that these results assume. |
| ContentLaws.InnerTextIff | client/content-adapter.ts:302-317 | A payload has an inner text if and only if it is a sent transcript whose content is the base64 of that UTF-8 text. |
| ContentLaws.LosslessTextTellsTheBytes | client/content-adapter.ts:329-339 | The lossless text of bytes is their UTF-8 text when that gives the bytes back, and their base64 otherwise. |
| ContentLaws.DecodesToAContextIff | client/content-adapter.ts:363-370 | A value decodes to a context if and only if it is an object with a base64 key, a number as revision and a base64 change or none; every other value is malformed. |
| ContentLaws.BesideIff | client/content-adapter.ts:377-381 | The content beside a context is the bytes of the content member when it has one, null when that does not decode, and else the printed object of exactly the other members. |
| ContentLaws.ContextGoesIn | client/content-adapter.ts:394-415 | A context goes behind the members of a content that is a printed object with neither member, and every other content goes as base64 beside the context. |
| ContentLaws.TextWithoutAContextStays | client/content-adapter.ts:418-428 | A text that is no object, or with no context in it or in the object inside its transcript, comes back unchanged, character for character. |
| ContentLaws.ContextAtTheTopGoesOut | client/content-adapter.ts:421-424 | A text with a context at its top, whoever printed it, gives the lossless text of the content beside it, and comes back unchanged when that content does not decode. |
| ContentLaws.OtherMembersStay | client/content-adapter.ts:379-380 | With no content member, the result parses to the object of exactly the other members, in their order with their values. |
| ContentLaws.ContextInsideGoesOut | client/content-adapter.ts:425-440 | A text with a context inside its transcript gives the same transcript with just the content of the carrier in its place, and comes back unchanged when that content does not decode. |
| ContentLaws.InspectionIff | client/content-adapter.ts:383-391 | An inspection reports a context if and only if the object that it reads, that inside a transcript or else the text itself, has that context beside content that decodes; every other context is malformed. |
| ContentLaws.NothingIsReportedIff | client/content-adapter.ts:384-388 | No context is reported if and only if that object has none, or the text is no object. |
| ContentLaws.TranscriptNamesItsMessage | client/content-adapter.ts:831-845 | A transcript names its conversation, its recipient, if it has one, and its time. |
| JsonText.WithoutIsTheRest | client/content-adapter.ts:379 | Removing a member leaves exactly the other members, in their order with their values. |
| JsonText.WithIsSameBut | client/content-adapter.ts:431-440 | Setting a member changes its value and nothing else. |
| DistributionStripping.NothingIsKeptIff | client/content-adapter.ts:448-460 | Stripping gives null if and only if the outermost level with a distribution, at any depth of transcripts, holds nothing else. |
| DistributionStripping.KeptTextIsStripped | client/content-adapter.ts:451-470 | What is kept, at every depth: a level with a distribution keeps exactly its other members, in their order with their values, and each transcript around it changes only its content. |
| DeliveryStatus.ArriveGrows | client/delivery-status.ts:196-213 | A receipt adds its source at most once and drops nothing. |
| DeliveryStatus.MarkGrows | client/delivery-status.ts:185-192 | A mark moves the announced count forward, at most to the number of sources, and never back. |
| DeliveryStatus.UnannouncedIsExactlyWhatIsLeft | client/delivery-status.ts:54-78 | A list holds exactly one event for each source of each device that is not announced. |
| DeliveryAnnouncing.RunKeepsSound | client/delivery-status.ts:80-218 | Every interleaving of receipts, releases, announcers, throws, crashes and replaced intents whose marks are backed keeps the invariant. |
| DeliveryAnnouncing.MarkCountsReturnedIff | client/delivery-status.ts:185-192 | A mark counts only sources whose hook returned or that had no hook, if and only if the message ID is gone, has the intent of the event, does not count further, or the last source that the mark counts is such a source. |
| DeliveryAnnouncing.NeverReplacingIsBacked | client/delivery-status.ts:169-192 | In a run that commits no intent under a message ID while an event of it waits, every mark is backed. |
| DeliveryAnnouncing.AnnouncedMeansTheHookReturned | client/delivery-status.ts:169-192 | With a registered hook and backed marks, a device with announced count k has unique sources, k of them at most, and the hook has returned for each of the first k under this intent. |
| DeliveryAnnouncing.HooksRunInOrder | client/delivery-status.ts:169-178 | In a run of backed marks, when the hook of a source runs, the hook of every earlier source of the device has returned. |
| DeliveryAnnouncing.StatusOnlyGrows | client/delivery-status.ts:185-213 | In every run, while the intent is kept, sources are never dropped or doubled and the announced count never goes back. |
| DeliveryAnnouncing.SendsAreCounted | client/delivery-status.ts:87-96 | The counter of a message is the number of its open sends since the last crash. |
| DeliveryAnnouncing.NoListDuringASend | client/delivery-status.ts:151-158 | No list of events is built before the message has a result or while a send of it is open. |
| DeliveryAnnouncing.TheRestIsAnnouncedAgain | client/delivery-status.ts:160-192 | After the first events of a list were marked, the next list of the message is exactly the rest. |
| DeliveryAnnouncing.ReplacedIntentLosesAnAnnouncement | client/delivery-status.ts:185-192 | A run from the empty world, with every hook registered and returning, in which the intent of a message ID is replaced during its announcement: the mark counts a source of the new intent whose hook never ran. |
| DeliveryStatusTracking.DeliveryStatusTracker.BeginSend | client/delivery-status.ts:87-89 | A send is counted. |
| DeliveryStatusTracking.DeliveryStatusTracker.EndSend | client/delivery-status.ts:92-96 | A send is counted down, and the last one removes the counter. |
| DeliveryStatusTracking.DeliveryStatusTracker.CollectUnannounced | client/delivery-status.ts:54-78 | The loops build exactly the list of events that are left. |
| DeliveryStatusTracking.DeliveryStatusTracker.Apply | client/delivery-status.ts:195-217 | One source of a receipt is one step of the model, with its list of events. |
| DeliveryStatusTracking.DeliveryStatusTracker.Release | client/delivery-status.ts:151-158 | A release gives the list of the message, and nothing while a send is counted. |
| DeliveryStatusTracking.DeliveryStatusTracker.MarkAnnounced | client/delivery-status.ts:185-192 | A mark is one step of the model. |
| DeliveryStatusTracking.DeliveryStatusTracker.Announce | client/delivery-status.ts:169-178 | An announcement marks exactly the events before the first hook that throws, and every event when no hook is registered. |
| DeliveryStatus.ReceiptWrites | client/delivery-status.ts:202-212 | A receipt counts if and only if it names a recipient of a kept message; it then adds its source behind those of the device, once, the first receipt sets the time, nothing is announced by it, and no other delivery changes. |
| DeliveryStatus.MarkWrites | client/delivery-status.ts:185-192 | A mark moves the announced count of its device to the number of its sources, at most to that of the stored ones and never back, and changes nothing else. |
| DeliveryStatus.EventTells | client/delivery-status.ts:61-73 | What an event tells: the source and every one before it, whether a decryption is confirmed, and the message. |
| DeliveryStatus.NothingToAnnounce | client/delivery-status.ts:202-214 | Nothing is to announce before a result, during a counted send, or for a receipt that names no recipient. |
| DeliveryAnnouncing.QueueIff | client/delivery-status.ts:169-178 | A list joins its announcement behind the events that wait, a mark takes the first event, only a throw or a crash drops events, and the log grows by exactly the source whose hook returned. |
| DeliveryAnnouncing.AnUndisturbedReleaseAnnouncesAll | client/delivery-status.ts:151-192 | A release whose announcement nothing disturbs runs exactly the hooks of the unannounced sources and leaves nothing to announce. |
| DeliveryError.DeliveryErrorReports.ReportDeliveryError | client/delivery-error.ts:102-119 | One report is one step of the model; a later check time is after now; a report that needs no check means shown, Implicit or fulfilled. |
| DeliveryError.DeliveryErrorReports.ReportDeliveryRecovered | client/delivery-error.ts:142-158 | One report is one step of the model. |
| DeliveryError.MarksFollowTheHooks | client/delivery-error.ts:58-158 | In every run, with crashes also between the return of a hook and its mark, a mark follows its hook, recovery follows a shown error, every error call precedes every recovery call, a Resendable envelope waits for its deadline, and an Implicit one gets neither hook. |
| DeliveryError.MarkedMeansReturned | client/delivery-error.ts:112-158 | With both hooks registered, a mark means that its hook returned. |
| DeliveryError.NoErrorAfterItsMark | client/delivery-error.ts:61-68 | After the error is marked, the error hook runs no more, in this and every later attempt. |
| DeliveryError.NothingAfterTheRecoveryMark | client/delivery-error.ts:148-149 | After the recovery is marked, neither hook runs again. |
| DeliveryError.ErrorIsReportedUntilItsHookReturns | client/delivery-error.ts:82-119 | The error hook runs at least once: after any run, the error is marked after a hook that returned, or every report from the deadline on runs the hook, while the record lasts and the content is not there. |
| DeliveryError.RecoveryIsReportedUntilItsHookReturns | client/delivery-error.ts:121-158 | The recovery hook runs at least once in the same way, while the records of the request and of the content last. |
| DeliveryError.ErrorRunsIff | client/delivery-error.ts:58-112 | The error hook runs if and only if the record lasts, is not shown and can be shown, the application does not have the content, and the error is due: at once, or one hour after the envelope came. |
| DeliveryError.FieldsAfter | local/store/reliability.ts:2441-2459 | Field by field, what each event writes: a request gives facts that no later event changes, an attempt clears the failures, and content that came or was finished stays so while its record lasts. |
| DeliveryError.CauseIff | client/delivery-error.ts:69-79 | The cause: a rate limit before an ended request, before a deadline, before the content hint. |
| DeliveryError.RecoveryRunsIff | client/delivery-error.ts:148-152 | The recovery hook runs if and only if the record lasts, the error was shown, the recovery was not, and the application finished the content. |
| DeliveryError.ReportWrites | client/delivery-error.ts:107-118 | A report whose hook runs logs one call with its time and cause, and marks the record if and only if the client reached the mark while the record lasted; every other report changes nothing. |
| KeySyncLedger.EveryMarkIsVouched | client/group-key-sync.ts:257-292 | In every run of sends that resolve, fail or stop after any copies, of receives, marks and deletions, a mark exists only for a device whose copy the Relay accepted or that itself sent the key. |
| KeySyncLedger.NoMarkOutlivesTheRecord | client/group-key-sync.ts:280-292 | Once all markers and deletions ended and the group has no record, no mark is left, in every interleaving, also with re-creations in between. |
| KeySyncLedger.FaultAfterTheMarkLeavesIt | client/group-key-sync.ts:285-292 | A marker that stops between its mark and its check leaves the mark. |
| KeySyncLedger.RecreationKeepsTheMark | client/group-key-sync.ts:285-292 | A mark survives when the record is created again before the check. |
| KeySyncLedger.ConcurrentMarksAreKept | internal/groups/key-sync-ledger.ts:102-124 | The compare and set loses no mark of another marker. |
| KeySyncLedger.MarkedMarks | internal/groups/key-sync-ledger.ts:110-118 | Marking a list marks each device with its last registration in the list. |
| KeySyncPass.PassSendsToUnmarkedOnly | client/group-key-sync.ts:183-226 | A pass that knows an own device sends each group at most once, and only to devices that were not marked before it. |
| KeySyncPass.CompletePassSyncsAll | client/group-key-sync.ts:183-226 | A pass that knows an own device and whose copies are all accepted marks every device for every group that sends a key. |
| KeySyncPass.StartAfterACompleteRunSendsNone | client/group-key-sync.ts:183-226 | A start after a complete run sends none. |
| KeySyncPass.ListReadingPassSends | client/group-key-sync.ts:183-226 | A pass that knows no own device sends the first group to each own device, and then each later group at most once, only to devices that were not marked before; an empty list ends it after that one send. |
| KeySyncPass.CompleteListReadingPassSyncsAll | client/group-key-sync.ts:183-226 | Such a pass whose copies are all accepted marks every listed device for every group that sends a key. |
| KeySyncPass.StartAfterACompleteListReadingRunSendsNone | client/group-key-sync.ts:183-226 | A start after such a complete pass sends none. |
| KeySyncPass.GroupKeySync.Mark | client/group-key-sync.ts:285-292 | A mark fills the ledger entry, and the mark of a group with no record is deleted again. |
| KeySyncPass.GroupKeySync.CollectUnmarked | client/group-key-sync.ts:206-217 | The loop collects exactly the devices that the ledger does not mark with their registration. |
| KeySyncPass.GroupKeySync.SendUnmarked | client/group-key-sync.ts:183-226 | The loop over the groups, up to a stop, sends and marks what the model pass does. |
| KeySyncLedger.EndedSendMarksTheAccepted | client/group-key-sync.ts:263-280 | A send that resolves or fails marks exactly the devices whose copy was accepted, and marks none when there is none. |
| KeySyncLedger.SwapsIff | internal/groups/key-sync-ledger.ts:109-122 | A mark sets the ledger value if and only if nothing changed it since the read, and reads again otherwise. |
| KeySyncLedger.UndisturbedMark | client/group-key-sync.ts:285-292 | A mark that nothing disturbs ends with its devices in the ledger of a group with a record, and with no ledger value of a group without one. |
| KeySyncLedger.UndisturbedSend | client/group-key-sync.ts:259-292 | A send that nothing disturbs ends with exactly the accepted devices marked in a group with a record. |
| KeySyncLedger.ReceiptIsMarked | client/group-key-sync.ts:130-139 | A received key marks its sender, when the session names a registration, and else nothing. |
| KeySyncPass.PassSendsIff | client/group-key-sync.ts:183-226 | A pass that knows an own device sends the key of a group if and only if the group sends one and some device is unmarked, and then to exactly the unmarked devices, in their order. |
| KeySyncPass.MarkWrites | internal/groups/key-sync-ledger.ts:110-118 | A mark gives each device its last registration in the list and keeps every other mark; a group with no record keeps no mark. |
| KeySyncPass.PassMarks | client/group-key-sync.ts:183-226 | A pass marks, for each group that it sends, exactly what the Relay accepted of that send, and changes no other mark. |
| PendingReceives.CursorParsesBackIff | client/client.ts:2408-2432 | The printed cursor of an accepted record parses back, also with a colon in the work ID, if and only if its arrival number is not negative. |
| PendingReceives.MatchingIsTheEnd | local/store/receive-work.ts:134-166 | What a query finds behind any cursor is the end of the listing. |
| PendingReceives.MatchingContinues | local/store/receive-work.ts:150-166 | The cursor of a found record continues right behind it. |
| PendingReceives.CollectPage | client/client.ts:2418-2435 | The loop over store pages collects exactly the first pending records behind the cursor, up to the limit, however many it skips. |
| PendingReceives.ListPendingReceives | client/client.ts:2400-2435 | A page holds exactly the first pending records behind the cursor, up to the limit; it has a next cursor exactly when it is full, and else ends the listing; a bad limit or cursor is an error. |
| PendingReceives.FollowAllPages | client/client.ts:2400-2435 | Following next lists every record that is not receipt-due exactly once, in order, for every limit from 1, if and only if the first page is not full or does not end with a record whose arrival number is negative; the second page is refused otherwise. |
| PendingReceives.AllPendingIff | client/client.ts:2420-2428 | The pending records are exactly those that are not receipt-due, and that wait for their completion when only ready ones are asked for. |
| PendingReceives.MatchingIff | local/store/receive-work.ts:134-160 | A query behind a cursor finds exactly the records that come later, by arrival and then by work ID. |
| PreKeyPublication.ConvertUploads | client/hosted-prekey-publication.ts:307-331 | The uploads of a type convert if and only if each of them is valid. |
| PreKeyPublication.SpliceAndPush | client/hosted-prekey-publication.ts:347-360 | The backward splice removes exactly the prekeys of the algorithm and keeps the order of the others. |
| PreKeyPublication.IdentifierNames | client/hosted-prekey-publication.ts:366-372 | Two prekeys have one identifier if and only if they have one algorithm and key ID. |
| PreKeyPublication.ReplaceBoth | client/hosted-prekey-publication.ts:339-358 | Replacing type after type gives the prekeys of the classes without uploads in their order, and then the uploads by type. |
| PreKeyPublication.ReplacedIsIdempotent | client/hosted-prekey-publication.ts:333-377 | Applying the same uploads again changes nothing. |
| PreKeyPublication.ApplyPreKeyUploads | client/hosted-prekey-publication.ts:333-377 | It fails if and only if an upload is invalid or an identifier repeats in a list, and else replaces exactly the classes that have uploads, in upload order. |
| PreKeyPublication.ValidIff | client/hosted-prekey-publication.ts:310-329 | An upload is valid if and only if its key ID is a safe integer from 0, its key decodes, and it has a signature that decodes, or none for a one-time EC prekey. |
| PreKeyPublication.UploadedPreKey | client/hosted-prekey-publication.ts:322-330 | The prekey of a valid upload: its algorithm by type, its ID, its decoded key and signature. |
| PreKeyPublication.ReplacementsInOrder | client/hosted-prekey-publication.ts:345-347 | The replacements of a type are the prekeys of its uploads, in upload order. |
| PreKeyPublication.ReplacedIff | client/hosted-prekey-publication.ts:337-361 | The replaced list holds exactly the prekeys whose algorithm has no upload of the types of the list, and the prekeys of the uploads of those types. |

## Left out

- BudgetHoldsThroughout: covers runs in which a start follows its decision in one step and no `sync()` runs, because a manual sync bypasses the decision; the counterexample of a late start is `StaleDecisionFetchesAgain`.
- NoDevicePassesTheCap: covers runs whose admissions are one step each, because two interleaved admissions pass the cap (`InterleavedAdmissionsPassTheCap`).
- EveryPassIsRight: covers repairs that name no account of an accepted body, because the Relay checked the accepted body, and replays that start from whole accounts; `RemovalIsWholeIff` and `UnsealedRepairIsWholeIff` say exactly which writes leave whole accounts, `ReplayIsRightIff` says exactly which replays are right, and both excluded replays have a failing run. A repair gives new messages only to devices of the refused accounts that have no message or lose it in the same write, because another write of a listed device throws.
- AnnouncedMeansTheHookReturned: covers runs whose marks are backed; `MarkCountsReturnedIff` is the exact condition of one mark, `NeverReplacingIsBacked` shows that replacing no intent during its announcement is enough, and `ReplacedIntentLosesAnAnnouncement` is the failing run. A later intent of a message ID has a later creation time.
- NoMarkOutlivesTheRecord: covers runs in which no fault stops a marker after its mark or a deletion before its second write; `FaultAfterTheMarkLeavesIt` is the failing case.
- RereadTargetsTheListedDevices: is about rereads whose write succeeds; a read that lists one device twice, or a handoff that differs from a stored pre-message of its device, makes the write throw.
- ErrorIsReportedUntilItsHookReturns: a report is one step, so a request attempt that starts while a hook runs comes before or after the whole report.
- EnsureFresh: a fetch whose outcome cannot be stored ends as one with no outcome, and the store read after a failed fetch is at the end of the wait.
- WritesKeepOwnApart: a refusal names recipients of the refused post, so no repair is of the own account; the client does not check that.
- StrippingCommutesAtEveryDepth: is about texts that UTF-8 gives back; for the transcript of any other bytes `StrippingATranscriptOfBytes` says exactly what happens.
- PostBody: user IDs hold no NUL, because a device key does not split back otherwise (`SplitKeyInvertsIff`).
- ConvertUploads: says when it fails and not which of several invalid uploads is named first.
- Announce: the stop signal of the client is one of the ways in which a hook throws.
- Cryptography, sealing, ratchets and credentials: the body of a group message is the list of the devices that it names.
- Base64, UTF-8 and the JSON grammar: codecs that satisfy the laws of `Lawful`. JSON numbers are integers, so values that the printer changes (a number out of range, a revision that is not a number) are not modelled. Text is a sequence of code units.
- The order in which JavaScript lists the recipients and devices of a delivery status: the entries keep insertion order.
- Registration IDs in a shared body and in the posted map: the model keeps the devices only.
- `applyE2eeReceipt`, the loop over the messages of a Relay receipt, and the send log: each message is one `Apply`.
- `start`, `groupJoined`, `devicesFirstSeen` and the job queue of the key sync: they call the modelled pass and mark.
- The store's own sorting of receive records: the listing starts from the records in store order.
- The sync phase of a declared send, its transcripts, and the undeclared send path.
- `asDeviceSetFailure`, routes, receipts and the result of a send: they only carry values.
- Timers, locks, logging, `stop()`, HTTP and WebSocket transport, configuration.
- `storedPreKey`, `registrationPreKey`, `publicationMatchesStatus`, `receiveRefusal`, `uncheckedDeclaredPost`: each is one branch or one field copy.
- The per-type field checks of `inspectPayload`: only the group context of an inspection is modelled.
