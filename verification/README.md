# Dinero, modelled and proved in Dafny

This project models the parts of Dinero whose correctness depends on more than
one function: the llama.cpp sidecar's lifecycle, the licensing backend, the
resumable model download, the toast and task stores of the desktop front end,
and the ledger and consent reads. `dafny verify dfyconfig.toml` checks all of it.

Each component has the same shape. A record of values holds its state, small
functions give each critical section, handler or event, and runs are folds of one
transition function over arbitrary event sequences; an event that is not possible
in a state leaves it unchanged. Where the source updates an object in place, a
class holds the object's fields and its methods, loops included, are proved to
compute exactly those functions and to keep, as the class's `Valid()`, what the
theorems about runs say every run keeps. What each operation answers and writes is
stated once more without its functions: over rows by position, in literal constants,
or by what one more row changes.

| file | component |
|---|---|
| `SlotSizing.dfy` | parallel slot ceilings, grants and calibration |
| `Sidecar.dfy`, `SidecarRuns.dfy` | the server's protected record; every interleaving of requests, start tasks, permits, shutdowns and time |
| `LicensingData.dfy`, `LicensingHandlers.dfy`, `LicensingStore.dfy` | tables, endpoints as functions, endpoints as statements over mutable tables |
| `LicensingAnswers.dfy` | what each endpoint answers and writes, said of the rows alone |
| `LicensingTokens.dfy`, `LicensingTrials.dfy`, `LicensingSubscriptions.dfy`, `LicensingInvariant.dfy` | what every run of mixed requests keeps, and the four aspects of it together |
| `RateLimit.dfy` | the activation rate gate with interleaved attempts |
| `Download.dfy` | streaming download with digest check and marker |
| `Toasts.dfy`, `Tasks.dfy` | the front-end stores |
| `SourceLog.dfy`, `Ledger.dfy`, `Consent.dfy` | the log and its scan, the aggregates, the consent table |

## What was found

Some properties one would expect hold only under a condition; each is stated with
the exact condition, and with the case in which it fails.

- A canceled subscription stays canceled under every operation except a fresh
  Razorpay webhook that writes that row (`StatusesWindUnlessWebhook`).
- Reactivating reports success whatever the status, as long as the period is not
  over, but restores access exactly when the subscription was not canceled
  (`ReactivationRestoresExactlyWhen`); after an immediate cancellation it succeeds
  and leaves the row canceled (`ReactivationOfCanceled`).
- A cut off account gets no token from refresh or reissue, but still does from
  exactly three requests (`CutOffIssuesExactlyWhen`); one of them is any trial
  request from a device still bound to it (`BoundDeviceKeepsIssuing`). It stays cut
  off exactly while no row is added for it and no fresh webhook writes its row
  (`CutOffExactlyWhenLeftAlone`).
- One bound device per account is broken by exactly one request: a trial that
  completes for an account already holding a binding (`ApplyKeepsTokens`, and over
  runs `OnlyNewestBoundExactlyWhen`). A reissue is refused by the unique column
  exactly when an older row of the account holds the device
  (`ReissueCollidesExactlyWhen`), which such a trial brings about
  (`DoubledBindingCollides`, reached from nothing in `DoubledBindingIsReached`).
- An activation binds the device to the account that paid exactly when no row, or
  one of its own, held the device (`ActivationBindsPayerExactlyWhen`); otherwise it
  reports success and the device stays the other account's
  (`SecondPayerIsUnbound`).
- An allowed trial stops midway exactly when its device is still bound to a
  trialing licence, and leaves a trialing row behind
  (`TrialStopsMidwayExactlyWhen`); support can bring that about
  (`ReissuedTrialStrandsTheNext`, reached from nothing in `StrandedTrialIsReached`).
- The `revokedAt: null` of activation's upsert never clears anything: a bound row is
  never revoked, so a released device always gets a new row
  (`ActivationReusesOnlyBoundRows`). The comment at
  `licensing-backend/api/license/activate.ts:164-166` says otherwise.
- A `.verified` marker is left beside a file that fails the check exactly when it was
  there before, the attempt ended without a check and what was received fails it
  (`MarkerLiesExactlyWhen`, `MarkerCanLieOnlyIfPresent`).
- Against a server that honours Range an undisturbed attempt verifies exactly when
  the file is not already complete (`ResumeVerifiesUnlessComplete`); so a download
  cut off between its last byte and its check never completes
  (`CompleteUncheckedFileIsStuck`).
- The single start task holds exactly when no shutdown meets a start under way
  (`OneStartExactlyWhen`): such a shutdown does not stop the start. k of them allow,
  and can leave, k + 1 starts and processes (`StormIsExtreme`).
- The failure cooldown is kept exactly when no request finds the state NotStarted, or
  Ready with something else, within 60 s of a failure (`CooldownKeptExactlyWhen`); a
  shutdown brings that about (`ShutdownVoidsCooldown`).
- A slot count granted for one model is safe with another exactly when asking again
  would grant no fewer (`GrantCarriesOverExactlyWhen`); the source does not ask again.
- A toast's flag and timers stay in step exactly when no update opens a toast whose
  auto-dismiss has fired or closes one whose removal is not queued
  (`StagedExactlyWhenNeverBroken`); such an update exists
  (`UpdateCanCloseWithoutRemoval`).
- A task can be unfinished and yet carry a completion time, exactly when some event
  dated its end and the last status is running or cancelling
  (`DatedInFlightExactlyWhen`); asking to cancel does it (`CancelRequestMarks`).
- Looking up a message in the scan log shows its own entry exactly when its preview
  holds no separator line and no earlier entry names it
  (`LookupFindsOwnEntryExactlyWhen`). An earlier entry does if its id is longer and
  starts with the wanted one, or if its sender put the marker into the subject
  (`ShadowedLookup`).
- The month range of December 9999 is empty as text (`MonthRangeOrdered`).
- The comment on consent withdrawal speaks of an appended event; the code stamps the
  existing row, which is what is modelled.

## Model

| member | source | states |
|---|---|---|
| `SlotSizing.CalibrationIsLargestFit` | src-tauri/src/llama_sidecar.rs:100-116 | n slots survive calibration exactly when n is 1 or n bursts fit the slowdown budget; the result is in 1..requested |
| `SlotSizing.CalibrationIsMonotone` | src-tauri/src/llama_sidecar.rs:93-116 | more contention never yields more slots; a larger request or a slower solo run never fewer |
| `SlotSizing.TimeoutIsLeastCover` | src-tauri/src/llama_sidecar.rs:118-128 | the calibrated timeout is the least one covering the floor and the burst with its margin |
| `SlotSizing.GrantIsLargestFit` | src-tauri/src/commands/llm.rs:254-275 | the granted count is the largest within the request that fits model, reserve and slots in RAM, or one; the recommendation obeys the same ceiling; storing a grant never changes it |
| `SlotSizing.StoredSlotsIsNearest` | src-tauri/src/llama_sidecar.rs:30-32 | the stored count is the nearest to the request within 1..10 |
| `Sidecar.SidecarState.EnsureServerReady` | src-tauri/src/llama_sidecar.rs:416-461 | serves exactly a ready server with the model and slots asked for; starts one exactly when there is none, it serves something else, or the last failure is 60 s old; otherwise says why and changes nothing |
| `Sidecar.SidecarState.StartSucceeded` | src-tauri/src/llama_sidecar.rs:380-392 | the record after a calibrated start, with a new permit generation, is consistent; the replaced handle is dropped |
| `Sidecar.SidecarState.Shutdown` | src-tauri/src/llama_sidecar.rs:404-410 | the held process is killed and the state reset |
| `SidecarRuns.StepKeepsInv` | src-tauri/src/llama_sidecar.rs:283-461 | every step keeps the lifecycle, slot, cooldown and permit invariants together |
| `SidecarRuns.ReadyMeansServing` | src-tauri/src/llama_sidecar.rs:380-461 | in every run, processes and starts never exceed by more than one the shutdowns that met a start under way; Ready means the held child is the process on that port, with 1 <= effective <= parallel <= 10 |
| `SidecarRuns.AtMostOneServer` | src-tauri/src/llama_sidecar.rs:416-461 | unless a shutdown meets a start under way: at most one start task, Starting exactly when there is one, at most one live process |
| `SidecarRuns.OneStartExactlyWhen` | src-tauri/src/llama_sidecar.rs:403-461 | throughout a run there is at most one start task, with Starting exactly then, if and only if no shutdown meets a start under way |
| `SidecarRuns.StormIsExtreme` | src-tauri/src/llama_sidecar.rs:403-410 | for every k, some run with k such shutdowns has k + 1 starts and processes, so the bound is exact |
| `SidecarRuns.CompletionsWithinEffectiveSlots` | src-tauri/src/llama_sidecar.rs:577-590 | completions holding a generation's permits never exceed its effective slots, across any later restarts |
| `SidecarRuns.PermitGrantedExactlyWhen` | src-tauri/src/llama_sidecar.rs:577-590 | in every run a waiting completion proceeds exactly when fewer completions of its generation are in flight than it has permits |
| `SidecarRuns.EndedCompletionFreesPermit` | src-tauri/src/llama_sidecar.rs:629-653 | when a completion ends, one waiting for the same generation can proceed |
| `SidecarRuns.NoStartDuringCooldown` | src-tauri/src/llama_sidecar.rs:448-460 | without a shutdown, no start within 60 s after any earlier failure, whatever was requested |
| `SidecarRuns.StartDespiteFailureExactlyWhen` | src-tauri/src/llama_sidecar.rs:416-461 | in every run, a request less than 60 s after a failure starts a server exactly from NotStarted, or from Ready with another model or slot count |
| `SidecarRuns.CooldownKeptExactlyWhen` | src-tauri/src/llama_sidecar.rs:403-461 | in every run, each start lies 60 s after each earlier failure exactly when no such request occurs |
| `SidecarRuns.RequestDoes` | src-tauri/src/llama_sidecar.rs:416-461 | in every run a request starts exactly one server with the model and slots asked for, is served, or changes nothing, by the state alone; a failure 60 s old blocks nothing |
| `SidecarRuns.StartedServerServes` | src-tauri/src/llama_sidecar.rs:380-392 | a start that succeeds installs its process, and the next request for its model and slots waits for its permits |
| `SidecarRuns.FailedStartIsReported` | src-tauri/src/llama_sidecar.rs:393-400 | a start that fails is recorded with its time and its process is gone |
| `SidecarRuns.CalibratedServerStays` | src-tauri/src/llama_sidecar.rs:188-195 | requests for the same model that read the same requested slots never restart a server, however far it was calibrated down |
| `SidecarRuns.ServersFitInMemory` | src-tauri/src/commands/llm.rs:259-274 | if slots are only granted for models at least as large as those asked for, every server has one slot or fits in RAM with its own model |
| `SidecarRuns.GrantCarriesOverExactlyWhen` | src-tauri/src/commands/llm.rs:259-274 | a grant for one model is safe with another exactly when the other would be granted no fewer slots |
| `Download.Destination.HashExisting` | src-tauri/src/llm_manager.rs:198-206 | reading a file in buffers hashes exactly its contents |
| `Download.Destination.Stream` | src-tauri/src/llm_manager.rs:220-256 | after any chunking the hasher is the hash of the file and the counter its length; unless cancelled, every chunk was appended |
| `Download.Destination.DownloadFileWithHash` | src-tauri/src/llm_manager.rs:158-295 | exactly when each outcome occurs, and file and marker after it: a mismatch removes the file, a cancellation both, an interruption keeps all that arrived |
| `Download.FileStaysPrefix` | src-tauri/src/llm_manager.rs:168-263 | over any attempts and deletions the file is absent or a prefix of the body |
| `Download.MarkerAppearsOnlyVerified` | src-tauri/src/llm_manager.rs:279-292 | whenever a marker appears the file is the whole body and passes the check |
| `Download.MismatchStartsOver` | src-tauri/src/llm_manager.rs:279-287 | after a mismatch, whatever came before, the next attempt keeps only what it delivers itself |
| `Download.MarkerLiesExactlyWhen` | src-tauri/src/llm_manager.rs:211-292 | exactly when an attempt leaves a marker beside a file that fails the check |
| `Download.MarkerCanLieOnlyIfPresent` | src-tauri/src/llm_manager.rs:211-213 | some attempt can leave a marker beside a failing file exactly when the marker was there before |
| `Download.UninterruptedAttemptVerifies` | src-tauri/src/llm_manager.rs:181-292 | one undisturbed attempt completes any interrupted download |
| `Download.ResumeVerifiesUnlessComplete` | src-tauri/src/llm_manager.rs:170-181 | against a server honouring Range (RFC 9110, sections 14.2, 15.3.7, 15.5.17) an undisturbed attempt verifies exactly when the file is not already complete |
| `Download.CompleteUncheckedFileIsStuck` | src-tauri/src/llm_manager.rs:170-179 | a complete but unchecked file is never changed by further attempts |
| `LicensingStore.Store.CountRecentEvents` | licensing-backend/lib/audit.ts:46-55 | the loop counts exactly the matching rows of the window |
| `LicensingStore.Store.FindOrCreateAccount` | licensing-backend/lib/db.ts:25-32 | an account for the e-mail, created only if absent |
| `LicensingStore.Store.ActivateLicense` | licensing-backend/api/license/activate.ts:77-202 | succeeds exactly past the four gates, and then the device is bound, unrevoked and renewed for 48 hours; the tables' invariant is kept and the log only grows |
| `LicensingStore.Store.DeactivateLicense` | licensing-backend/api/license/deactivate.ts:42-74 | succeeds exactly for a bound device, after which no row is bound to it; the invariant is kept |
| `LicensingStore.Store.ResetDeviceBinding` | licensing-backend/api/admin/support_reset_binding.ts:49-82 | after success the account's newest row is bound to no device; the invariant is kept |
| `LicensingStore.Store.ReissueToken` | licensing-backend/api/admin/support_reissue_token.ts:59-138 | after success the device is bound to the account by its newest row; the invariant is kept, the unique column's refusal included |
| `LicensingStore.Store.GatherDecision` | licensing-backend/lib/trial_guard.ts:39-54 | the eligibility decision over the three gathered facts |
| `LicensingStore.Store.CompleteTrial` | licensing-backend/api/license/start-trial.ts:127-174 | the writes of an allowed trial, stopping midway when the device is bound |
| `LicensingStore.Store.BeginTrial` | licensing-backend/api/license/start-trial.ts:60-175 | succeeds exactly when recognized or granted, then issues exactly that token and leaves the device bound; the invariant is kept, the midway stop included |
| `LicensingStore.Store.RefreshLicenseToken` | licensing-backend/api/license/refresh-token.ts:47-107 | succeeds only for a bound device's own token and then issues one more; the invariant is kept |
| `LicensingStore.Store.CancelSubscription` | licensing-backend/api/billing/cancel.ts:35-58 | an immediate cancellation cuts the account off at its newest row; the invariant is kept |
| `LicensingStore.Store.ReactivateSubscription` | licensing-backend/api/billing/cancel.ts:66-95 | succeeds exactly within the period of the newest row and changes no status; the invariant is kept |
| `LicensingStore.Store.RefundAccount` | licensing-backend/api/billing/refund.ts:43-82 | an accepted refund cuts the account off at its newest row; the invariant is kept |
| `LicensingStore.Store.RunBillingReconciliation` | licensing-backend/jobs/billing_reconciliation.ts:43-90 | checked counts the active and past-due rows, drifted = corrected <= checked, one audit row per correction, and no row drifts afterwards |
| `LicensingStore.Store.ProcessWebhookEvent` | licensing-backend/api/license/webhooks/razorpay.ts:142-158 | tables and answer of one webhook; a processed event is seen ever after, duplicates ignored; the invariant is kept |
| `LicensingAnswers.ActivationAnswers` | licensing-backend/api/license/activate.ts:84-138 | each refusal exactly when: five attempts in the hour, a payment not fetched or not signed, an unknown interval, a newest row naming another device; success otherwise |
| `LicensingAnswers.ActivationWrites` | licensing-backend/api/license/activate.ts:140-193 | account, subscription, device row, plan of the interval, 48 hour claims and log of a successful activation |
| `LicensingAnswers.ActivatingAgainRenews` | licensing-backend/api/license/activate.ts:130-177 | in every run, activating the same device again within the rate limit succeeds, adds no row and renews only the device's |
| `LicensingAnswers.DeactivationAnswers` | licensing-backend/api/license/deactivate.ts:42-66 | a bound device's row alone is unbound and revoked now; any other device is refused |
| `LicensingAnswers.ResetAnswers` | licensing-backend/api/admin/support_reset_binding.ts:49-82 | the account's newest row alone is unbound and revoked now |
| `LicensingAnswers.ResetRefusals` | licensing-backend/api/admin/support_reset_binding.ts:45-58 | a blank reason or an unknown e-mail is refused |
| `LicensingAnswers.ReissueAnswers` | licensing-backend/api/admin/support_reissue_token.ts:73-117 | refused exactly when another account or an older row holds the device, or the newest subscription is absent or canceled |
| `LicensingAnswers.ReissueWrites` | licensing-backend/api/admin/support_reissue_token.ts:89-138 | the account's newest row alone is rebound from scratch, or a first one added; claims carry the subscription's plan |
| `LicensingAnswers.TrialGuardDecides` | licensing-backend/lib/trial_guard.ts:39-54 | the four outcomes over the rows, the device's history before the e-mail's |
| `LicensingAnswers.RecognitionWrites` | licensing-backend/api/license/start-trial.ts:94-114 | a recognized device gets claims of the subscription behind its binding, and one log row is written |
| `LicensingAnswers.BlockedTrialAnswers` | licensing-backend/api/license/start-trial.ts:115-123 | a blocked request is refused and only logged |
| `LicensingAnswers.TrialWrites` | licensing-backend/api/license/start-trial.ts:125-174 | account marked, 14 day subscription, 48 hour binding and claims, one started event |
| `LicensingAnswers.MidwayTrialWrites` | licensing-backend/api/license/start-trial.ts:125-153 | what an allowed trial on a bound device leaves |
| `LicensingAnswers.RefreshAnswers` | licensing-backend/api/license/refresh-token.ts:51-89 | succeeds exactly for the device's own token, at most 48 hours expired, with a row bound and its account's newest subscription not canceled |
| `LicensingAnswers.RefreshWrites` | licensing-backend/api/license/refresh-token.ts:91-107 | one new token with the subject kept and the subscription's plan |
| `LicensingAnswers.CancelAnswers` | licensing-backend/api/billing/cancel.ts:35-58 | the newest row alone: flagged and kept as it is, or canceled at once |
| `LicensingAnswers.ReactivateAnswers` | licensing-backend/api/billing/cancel.ts:66-95 | the newest row alone loses the flag, exactly until its period is over |
| `LicensingAnswers.RefundAnswers` | licensing-backend/api/billing/refund.ts:43-75 | the guards over account, subscription and newest charge; then the newest row alone is canceled |
| `LicensingAnswers.ReconciliationFollowsWords` | licensing-backend/jobs/billing_reconciliation.ts:17-75 | a checked row ends active, past due or canceled by the provider's word, or as it was |
| `LicensingAnswers.ReconciliationDecidesAccess` | licensing-backend/jobs/billing_reconciliation.ts:17-22 | a bound device's current token is refused afterwards exactly for the words cancelled and completed |
| `LicensingAnswers.InvoiceWrites` | licensing-backend/api/license/webhooks/razorpay.ts:98-126 | a paid invoice makes the row behind its id active to the billed end, a failed payment past due; no other row changes |
| `LicensingAnswers.CreationWrites` | licensing-backend/api/license/webhooks/razorpay.ts:78-93 | a created subscription is recorded and makes the account's newest row active |
| `LicensingAnswers.OtherWebhooksWrite` | licensing-backend/api/license/webhooks/razorpay.ts:142-158 | a repeated event changes nothing, an unknown one only the log |
| `LicensingHandlers.ActivateEnds` | licensing-backend/api/license/activate.ts:84-202 | an activation ends untouched, logged only, with its account created, or fully carried out, the last exactly past its four gates |
| `LicensingInvariant.ApplyKeepsSane` | licensing-backend/lib/audit.ts:17-34 | every request keeps all four aspects of the invariant at once and only appends to the audit log |
| `LicensingInvariant.RunKeepsSane` | licensing-backend/lib/audit.ts:17-34 | so all four hold in every reachable state |
| `LicensingInvariant.ActivationBindsPayerExactlyWhen` | licensing-backend/api/license/activate.ts:125-177 | a passed activation binds the device to the paying account exactly when no row, or one of its own, held it; otherwise it stays the holder's |
| `LicensingInvariant.SecondPayerIsUnbound` | licensing-backend/api/license/activate.ts:167-177 | two activations from empty tables after which the second payer holds nothing |
| `LicensingTokens.ApplyKeepsTokens` | licensing-backend/api/license/start-trial.ts:145-153 | every request keeps fingerprints unique and rows bound or revoked, and keeps "only the newest row is bound" exactly when it is not a trial completing on an account with a binding |
| `LicensingTokens.RunKeepsSound` | licensing-backend/api/license/deactivate.ts:56-59 | in every run: fingerprint null exactly when revoked and exactly when unbound; no device bound twice |
| `LicensingTokens.OneBoundTokenPerAccount` | licensing-backend/api/admin/support_reset_binding.ts:62-73 | without such a trial, each account has at most one bound token, its newest |
| `LicensingTokens.OnlyNewestBoundExactlyWhen` | licensing-backend/api/license/start-trial.ts:145-153 | throughout a run only newest rows are bound, if and only if no such trial completes |
| `LicensingTokens.ReissueCollidesExactlyWhen` | licensing-backend/api/admin/support_reissue_token.ts:59-128 | a reissue is refused by the unique column exactly when it is well-formed, the subscription is live and an older row of the account holds the device |
| `LicensingTokens.ReissueNeverCollides` | licensing-backend/api/admin/support_reissue_token.ts:73-128 | hence never in such a run |
| `LicensingTokens.DoubledBindingCollides` | licensing-backend/api/admin/support_reissue_token.ts:103-117 | after such a trial, reissuing back to the first device is refused |
| `LicensingTokens.DoubledBindingIsReached` | licensing-backend/api/admin/support_reissue_token.ts:103-117 | an activation and a trial from empty tables lead there |
| `LicensingTokens.ActivationReusesOnlyBoundRows` | licensing-backend/api/license/activate.ts:164-177 | activation updates only rows that were not revoked and gives an unbound device a fresh row of its account |
| `LicensingTokens.ReleasedDeviceCannotRefresh` | licensing-backend/lib/api_helpers.ts:54-78 | after deactivation no presented token can be refreshed on that device |
| `LicensingTrials.TrialsAreOneToOne` | licensing-backend/api/license/start-trial.ts:155-162 | over every run, two started trials differ in e-mail and in device |
| `LicensingTrials.ReturningDeviceChangesOnlyTheLog` | licensing-backend/api/license/start-trial.ts:94-114 | exactly when a device is recognized, its binding and a subscription past trial exist, and only the audit log changes |
| `LicensingTrials.TrialStopsMidwayExactlyWhen` | licensing-backend/api/license/start-trial.ts:134-153 | in every run, exactly when an allowed trial is cut short, and what it leaves behind |
| `LicensingTrials.ReissuedTrialStrandsTheNext` | licensing-backend/api/admin/support_reissue_token.ts:87-117 | a reissue that makes the next trial on that device stop midway |
| `LicensingTrials.StrandedTrialIsReached` | licensing-backend/api/admin/support_reissue_token.ts:87-117 | a trial and a reissue from empty tables lead there |
| `LicensingSubscriptions.StatusesWindUnlessWebhook` | licensing-backend/api/license/webhooks/razorpay.ts:78-126 | a canceled row stays canceled and a trialing row only becomes canceled, exactly unless a fresh webhook writes it |
| `LicensingSubscriptions.CancellationCutsOff` | licensing-backend/api/license/refresh-token.ts:87-106 | after a cancellation left alone, refresh and reissue never succeed again and every token they issued expires within 48 hours |
| `LicensingSubscriptions.CutOffExactlyWhenLeftAlone` | licensing-backend/api/license/webhooks/razorpay.ts:78-126 | an account stays cut off throughout a run exactly when no row is added for it and no fresh webhook writes its row |
| `LicensingSubscriptions.CutOffIssuesExactlyWhen` | licensing-backend/api/license/start-trial.ts:94-114 | a cut off account is issued a token by exactly a passed activation, a trial request from a device bound to it, or a trial it is still owed |
| `LicensingSubscriptions.RunKeepsSubscribed` | licensing-backend/api/license/activate.ts:145-177 | in every run each licence token belongs to an account with a subscription |
| `LicensingSubscriptions.ImmediateEndCutsOff` | licensing-backend/api/billing/refund.ts:53-67 | an immediate cancellation or accepted refund cancels exactly the newest row |
| `LicensingSubscriptions.ReactivationUndoesScheduling` | licensing-backend/api/billing/cancel.ts:44-90 | within the paid period, and only then, reactivation restores what scheduling a cancellation changed |
| `LicensingSubscriptions.ReactivationOfCanceled` | licensing-backend/api/billing/cancel.ts:66-95 | after an immediate cancellation, reactivation reports success exactly within the period and leaves the row canceled |
| `LicensingSubscriptions.ReactivationRestoresExactlyWhen` | licensing-backend/api/billing/cancel.ts:66-95 | a successful reactivation leaves the account's devices refreshable exactly when the newest row was not canceled |
| `LicensingSubscriptions.RefreshWindow` | licensing-backend/api/license/refresh-token.ts:66-107 | an issued token is refreshable by its own device until exactly 96 hours after issue |
| `LicensingSubscriptions.WebhookIsIdempotent` | licensing-backend/api/license/webhooks/razorpay.ts:62-73 | a repeated event changes nothing |
| `LicensingSubscriptions.ReconciliationConverges` | licensing-backend/jobs/billing_reconciliation.ts:43-90 | checked, fetchable, mapped rows agree with the provider, all others are untouched, one log row per correction, a second run changes nothing |
| `LicensingSubscriptions.CheckedCountMeans` | licensing-backend/jobs/billing_reconciliation.ts:47-49 | the checked count is the number of active and past-due rows |
| `RateLimit.AtMostFivePass` | licensing-backend/api/license/activate.ts:84-99 | under any interleaving, at most five attempts for one e-mail with both steps in one hour pass |
| `RateLimit.FiveInTurnPass` | licensing-backend/api/license/activate.ts:59-62 | five attempts in turn do pass |
| `RateLimit.ActivationIsLogThenCount` | licensing-backend/api/license/activate.ts:87-99 | an activation alone is these two steps, and is refused exactly when five attempts were already logged within the hour |
| `Toasts.ToastStore.RaiseToast` | src/hooks/use-toast.ts:205-238 | the new toast first, the others behind it in order, three at most, auto-dismiss due in 6000 ms, invariant kept unless the id wraps |
| `Toasts.ToastStore.UpdateToast` | src/hooks/use-toast.ts:135-139 | order, ids, ages and all other toasts are kept, and so is the invariant, whatever is written |
| `Toasts.ToastStore.DismissOne` | src/hooks/use-toast.ts:143-165 | the toast is closed and its removal queued, invariant kept |
| `Toasts.ToastStore.DismissEvery` | src/hooks/use-toast.ts:148-165 | every toast is closed and queued, invariant kept |
| `Toasts.ToastStore.AutoDismissFires` | src/hooks/use-toast.ts:112-115 | the timer is forgotten and the removal queued, invariant kept |
| `Toasts.ToastStore.RemovalFires` | src/hooks/use-toast.ts:91-97 | the timer is forgotten and exactly that toast is gone, invariant kept |
| `Toasts.EveryToastLeavesOnTime` | src/hooks/use-toast.ts:77-238 | at most three toasts, distinct ids, none older than 6300 ms, whatever updates do |
| `Toasts.OpenAwaitsDismissClosedAwaitsRemoval` | src/hooks/use-toast.ts:126-178 | in such runs open toasts are due at creation + 6000 ms, closed ones within 6300 ms |
| `Toasts.StagedExactlyWhenNeverBroken` | src/hooks/use-toast.ts:135-139 | throughout a run open toasts await auto-dismiss and closed ones removal, exactly when no update sets a flag against its toast's timers |
| `Toasts.StepKeepsInv` | src/hooks/use-toast.ts:126-178 | every event keeps the invariant, and the flags in step exactly when it is no such update |
| `Toasts.RemovalIsNeverPostponed` | src/hooks/use-toast.ts:80-100 | no event delays a pending removal |
| `Toasts.ClockProgresses` | src/hooks/use-toast.ts:91-115 | finitely many due timers stand between any state and the next instant |
| `Tasks.FoldKeepsLastSupplied` | src/stores/mergeTask.ts:84-127 | folding any events gives, per field, the last value supplied |
| `Tasks.LastGivenMeans` | src/stores/mergeTask.ts:30-32 | the last supplied value is some event's, with none supplied after it |
| `Tasks.DatedInFlightExactlyWhen` | src/stores/mergeTask.ts:67-75 | exactly when a folded task is in flight and yet carries a completion time |
| `Tasks.FoldUnitesMeta` | src/stores/mergeTask.ts:123-125 | meta is the right-biased union of all contributions |
| `Tasks.ProgressInRange` | src/stores/mergeTask.ts:41-44 | progress stays in 0..100 for sensible inputs and follows the counters |
| `Tasks.ProgressMeans` | src/stores/mergeTask.ts:41-44 | an explicit percentage as it is, else the ratio to the nearest whole percent and at most 100, else what was shown |
| `Tasks.NotificationStore.AddOrUpdateTask` | src/stores/useNotificationStore.ts:122-137 | the record is merged under its own id, late running events dropped, all other records kept |
| `Tasks.NotificationStore.RemoveTask` | src/stores/useNotificationStore.ts:139-144 | the task is unknown afterwards and every other record is as it was |
| `Tasks.NotificationStore.CancelTask` | src/stores/useNotificationStore.ts:153-175 | the task is marked cancelling; the scan account to stop is the one its meta names |
| `Tasks.NotificationStore.ClearCompletedTasks` | src/stores/useNotificationStore.ts:209-218 | exactly the tasks in flight remain |
| `Tasks.NotificationStore.AddNotification` | src/stores/useNotificationStore.ts:177-193 | newest first, cut to thirty |
| `Tasks.CancelRequestMarks` | src/stores/useNotificationStore.ts:153-163 | what a cancellation request changes and keeps |
| `Tasks.CancellationEndsExactlyWhen` | src/stores/useNotificationStore.ts:114-137 | a cancelling task stops being so exactly on an explicit final status or removal |
| `Tasks.CancellationPersists` | src/stores/useNotificationStore.ts:114-137 | hence it persists through any other operations |
| `Tasks.RunningEventsAreIgnored` | src/stores/useNotificationStore.ts:126-128 | running events leave a cancelling record exactly as it was |
| `Tasks.StoreFoldsEachTask` | src/stores/useNotificationStore.ts:122-137 | each record is the fold of its own heeded events: those not running while the last heeded status is cancelling |
| `Tasks.NothingDropped` | src/stores/useNotificationStore.ts:126-128 | without a cancelling event of the task every event is heeded |
| `Tasks.FeedHoldsNewest` | src/stores/useNotificationStore.ts:188-193 | the feed is the newest thirty notifications, newest first |
| `SourceLog.FetchSourceLog` | src-tauri/src/commands/data.rs:1726-1759 | the block around the first line naming the message, or an error exactly when there is none |
| `SourceLog.BlockIsUnique` | src-tauri/src/commands/data.rs:1732-1754 | the description determines the answer |
| `SourceLog.BlockHasOneMessage` | src-tauri/src/commands/data.rs:1733-1749 | the block holds the naming line and no separator but its own two |
| `SourceLog.ContainsMeans` | src-tauri/src/commands/data.rs:1746-1748 | the substring search finds the marker exactly when it occurs |
| `SourceLog.SeparatorMeans` | src-tauri/src/commands/data.rs:1729-1733 | a separator is a line starting with eighty equals signs |
| `SourceLog.OwnBlockExactlyWhen` | src-tauri/src/commands/data.rs:1726-1759 | in any log the scan returns a message's own block exactly when no line before that block names it too |
| `SourceLog.LookupFindsOwnEntryExactlyWhen` | src-tauri/src/ingestion/message_processor.rs:1259-1292 | of the entries the scanner wrote, a lookup returns the wanted one, from separator to separator, exactly when its preview holds no separator line and no earlier entry names it |
| `SourceLog.WrittenIsNamed` | src-tauri/src/ingestion/message_processor.rs:1260-1263 | the lookup of a written message always finds some line |
| `SourceLog.ShadowedLookup` | src-tauri/src/ingestion/message_processor.rs:1261-1270 | an earlier entry with a longer id, or with the marker in its subject, keeps the wanted one from being returned |
| `Ledger.BoundsTile` | src-tauri/src/commands/data.rs:1193-1204 | each month's range ends where the next begins, December included |
| `Ledger.MonthText` | src-tauri/src/commands/data.rs:1194-1203 | how the first instant of a month is written |
| `Ledger.MonthRangeOrdered` | src-tauri/src/commands/data.rs:1193-1204 | a month's text range is non-empty exactly while its end has a four-digit year |
| `Ledger.RangeSplits` | src-tauri/src/commands/data.rs:1217 | every time of a joined range is in exactly one of its two parts |
| `Ledger.TextLessMeans` | src-tauri/src/commands/data.rs:1217 | text order is decided at the first difference, the shorter text first |
| `Ledger.FetchCategorySpend` | src-tauri/src/commands/data.rs:1206-1253 | one row per live category with exactly its debits of the month; an error exactly when the text does not parse or the month's end is no date |
| `Ledger.RowAfterTransaction` | src-tauri/src/commands/data.rs:1213-1223 | one more transaction moves a category's total by a hundredth of its amount if it is a live debit of the category, in range and in no open cluster, and otherwise not at all |
| `Ledger.SpendConcat` | src-tauri/src/commands/data.rs:1213 | a sum does not depend on where its transactions stand |
| `Ledger.MonthsConserveSpend` | src-tauri/src/commands/data.rs:1211-1226 | spend over consecutive months is the spend of the whole range |
| `Ledger.ReportConservesMoney` | src-tauri/src/commands/data.rs:1206-1253 | all categories over all months add up to the qualifying debits, each counted once |
| `Ledger.FetchSpendTrend` | src-tauri/src/commands/data.rs:1278-1326 | over 30, 84 or 365 days: periods strictly increase, points add up to the qualifying total, each is exact and none is empty; an error exactly for an unknown granularity or an undatable row |
| `Ledger.SkippedLeavesTrend` | src-tauri/src/commands/data.rs:1297-1307 | a credit, a deleted transaction, one in an open cluster or one before the window leaves the trend as it was |
| `Ledger.DebitRaisesItsPeriod` | src-tauri/src/commands/data.rs:1297-1309 | any other adds its amount to its own period alone |
| `Ledger.WindowMeans` | src-tauri/src/commands/data.rs:1283-1292 | formats and lengths of the three windows |
| `Consent.ConsentLog.InsertConsentEvent` | src-tauri/src/auth/consent.rs:21-32 | the type's active rows gain the new one, every other type's stay |
| `Consent.ConsentLog.WithdrawConsentEvent` | src-tauri/src/auth/consent.rs:38-49 | the type's active rows lose their newest, if there is one, and every other type's stay |
| `Consent.ConsentLog.HasActiveConsent` | src-tauri/src/auth/consent.rs:52-59 | true exactly when an active row of the type exists |
| `Consent.ConsentLog.FetchConsentHistory` | src-tauri/src/auth/consent.rs:62-77 | one page of the history, newest first |
| `Consent.TableRefinesStack` | src-tauri/src/auth/consent.rs:21-59 | active rows are the contents of a stack pushed by inserts and popped by withdrawals |
| `Consent.HistoryOnlyGrows` | src-tauri/src/auth/consent.rs:34-49 | rows are never lost or rewritten, only stamped once |
| `Consent.PagesJoin` | src-tauri/src/auth/consent.rs:62-77 | consecutive pages join into one |
| `Consent.PageAt` | src-tauri/src/auth/consent.rs:62-77 | what each entry of a page is |

## Left out

- HTTP plumbing, Prisma, Razorpay and e-mail calls: payment checks, refunds and remote
  statuses are parameters; uniqueness and foreign keys are answers of the handlers.
- Cryptography: a token is its claims, a refresh sees them or a failed check; SHA-256 is
  any hasher obeying the streaming law.
- Licensing requests are not interleaved with one another, except at the rate gate.
- `validate`, metrics, fraud heuristics, plan and order endpoints: read-only or without
  invariants of their own; `validate` issues tokens whatever the subscription's status.
- E-mail addresses compare as plain strings, not case-insensitively as the column does.
- Row order and ids are positions; rows are never deleted, so account deletion is not modelled.
- Cancellation of a Rust future between two awaits, kill failures, file-system errors and a
  crash between deleting a file and its marker.
- The order in which waiting completions get permits; any order is allowed.
- `get_model_path`, `resolve_active_model` and the download registry: selections and a map
  without run properties.
- Timers fire on time; listeners and rendering of toasts are not modelled.
- Event adapters that translate backend payloads into task updates.
- Floating point: latencies, RAM, percentages and money are exact.
- Ledger.FetchCategorySpend: the date parser and the last year dates can have are
  parameters, and the categories are given in name order.
- Ledger.FetchSpendTrend: `strftime` and the time formatter are parameters, so which period
  a time falls in is whatever they say.
- SourceLog.LookupFindsOwnEntryExactlyWhen: each header field is one line; a log line that
  is not UTF-8 ends the scan.
- The lifetime windows of `Number.MAX_SAFE_INTEGER` milliseconds at
  `licensing-backend/lib/trial_guard.ts:96` and
  `licensing-backend/api/license/webhooks/razorpay.ts:71` mean all history here; as
  JavaScript dates they would lie before the earliest one.
- Toasts.EveryToastLeavesOnTime: assumes fewer events than the id counter's modulus, so
  ids do not wrap.
- The reconciliation engine, extraction ladder, statement pipeline, crash reporting,
  diagnostics, updater and the React components.
