# Hermes Fleet Manager: a verified model

Hermes Fleet Manager runs a control plane that hands jobs to Host Agents under leases,
rolls releases out over many instances, keeps backups of its own database, streams chat
output, stores chat artifacts under quotas, and publishes instances through Cloudflare.
This project models the parts of it that are state machines or caches, and proves what
they keep. Code that the program runs step by step is modelled as classes and methods
with loops, each proved against a specification; protocols with several parties are
value-level state machines whose runs are sequences of events in any order, and the main
results quantify over all of those runs.

`dafny verify dfyconfig.toml` checks everything (Dafny 4.11). Apart from the shared `option.dfy`
no file depends on another, except `update_protocol.dfy`, which uses the workflow of
`update_workflow.dfy`.

| file | what it models |
|---|---|
| `update_workflow.dfy` | one attempt at a Hermes update, as the Host Agent runs it |
| `update_protocol.dfy` | any number of attempts at one update job, against the control plane's recovery point and the host's data |
| `lease_clock.dfy` | the lease renewal loop and its deadlines |
| `policy_rollout.dfy` | policy rollouts: canary, waves, pause, resume, cancel |
| `campaign.dfy` | campaigns with bounded concurrency |
| `event_hub.dfy`, `chat_stream.dfy` | the lossy wake-up channel, and the chat stream over it |
| `backup.dfy` | the backup directory, crash by crash |
| `artifact_store.dfy`, `artifact_listing.dfy` | the artifact store's index and lifecycle, and its pages |
| `ingress_merge.dfy`, `route_pass.dfy` | the merge of tunnel rules, and a whole pass over the published routes |
| `keyed_mutex.dfy` | the reference-counted lock per key |
| `preview.dfy` | spreadsheet column names and table previews |

## What the results say

**Updates.** Over every interleaving of crashed, fenced and reclaimed attempts the target
release is installed only while the recovery point is READY, and every archive that is
published, or put back by a rollback, holds pre-install data. An attempt that holds the
lease archives the instance only while the point is not READY, whichever archives have the
same digest: an upload is committed only under its own lease. An attempt that has lost the
lease, and does not know yet, can start an archive later (`FencedAttemptMayCapture`), but
its upload is not let in. A single attempt reports the status that its answers call for,
both ways, and the image and run state that the host really has; `Stopped` has one
exception, a failed stop or start whose effect the agent cannot see. Unless it is fenced it
leaves nothing undone that would put the instance back, and once it is it makes no call. The early return at `internal/agent/client.go:1121-1124` is unreachable
for instances that were running or stopped.

**Leases.** An execution is cancelled before the control plane's lease runs out exactly
if the safety window exceeds twice the request timeout plus timer lateness. The defaults
have 20 seconds to spare; the chat setting never has the guarantee. A renewal answered with anything but a
204, a 408, 429 or 5xx loses the lease in that turn.

**Rollouts.** One target at a time, the canary first, nothing after a cancel, whatever
metadata snapshot a pass holds. That nothing starts after a setback until an operator
resumes needs a fresh snapshot: `StaleStartExactly` says which other snapshots start a
target, and `StalePassIgnoresPause` has a run in which one does. So does the accuracy of
the outcome after a cancel (`StaleSuccessExactly`, `StalePassReportsSuccess`). A canary
that failed or was refused holds back every fresh pass of a run until the rollout has been
resumed since it last paused itself, and no longer; pausing and resuming before the first
pass therefore acknowledges a canary failure in advance (`EarlyResumeSkipsCanaryGate`).

**Backups.** The code rolls the retention window: it publishes the new backup and then
removes the oldest. `README.md:499-501` of the repository says creation is refused at the
limit; the model follows the code.

**Previews.** The truncation flag is right except in one case: a heading followed by
exactly fifty rows, all of them shown, is reported as truncated
(`FullTableIsReportedTruncated`).

## What is taken as given

- Update executor: `Attempt.Execute` states what each executor step may do to the host
  (an install that answers STOPPED has put the original image back, and so on). A request's
  lease check comes first, and what it then does at any later time, lease or not. The one
  exception is the end of an upload, which checks the lease again
  (`internal/recovery/manager.go:421-447`, `internal/api/server.go:2150-2159`); that check
  and the publication are one step, since the lock held over both keeps everyone from
  reading the point in between. Archives with one SHA-256 have one content; different
  captures may have the same. A capture made under the lease holds what the data is, one
  made without it anything. Nobody deletes a recovery point while its job runs.
- Lease clock: requests take at most `timeout`, timers are at most `jitter` late, clocks
  run at the same rate.
- Rollouts and campaigns: store writes succeed, a pass is not cut by a crash.
- Backups: single renames and removals are atomic; a failed removal is not modelled except
  where it is the state shown by `UndoStateLosesBackup`. Ids of new backups are unused.
- Artifact store: removals of content and writes of manifests may fail anywhere, and content
  files may change between any two calls. Manifests on disk are valid ones.
- Ingress merge: no two live rules speak of one hostname, wanted hostnames are normal
  forms and their services trimmed; the ledger's unique index makes it a map. Hostnames
  are ASCII. Of several rules without a hostname the merge keeps the last, as the code
  does; no result speaks of the others.
- Route pass: what the zone lists, what its API answers and what probes find is arbitrary,
  as anyone may edit the zone at any time. How the tunnel's rules come out is an input
  here and the subject of `ingress_merge.dfy`.

## Model

| member | source | states |
|---|---|---|
| UpdateWorkflow.OnlyDeeper | internal/agent/client.go:945-1131 | each call of an attempt lies deeper in the workflow than the ones before it, so none is made twice |
| UpdateWorkflow.TouchFollowsBackup | internal/agent/client.go:967-1131 | every call from the install on comes after a backup the control plane had, or verified for this attempt |
| UpdateWorkflow.InstallFollowsBackup | internal/agent/client.go:967-1028 | an install follows an accepted INSTALLING report and a backup that the control plane had, or that was uploaded, verified and decrypted |
| UpdateWorkflow.RollbackFollowsFailedStart | internal/agent/client.go:1057-1084 | the archive is put back only after the installed target failed to start and was stopped |
| UpdateWorkflow.StopFollowsPrepare | internal/agent/client.go:945-961 | an instance is stopped as the fourth call, after two accepted reports and with the target image ready |
| UpdateWorkflow.CaptureFollowsStop | internal/agent/client.go:957-982 | an instance is archived only stopped, and after a download found no backup |
| UpdateWorkflow.StatusOfLast | internal/agent/client.go:927-943 | RUNNING iff some start succeeded, FAILED iff a start, stop, restore or install failed for good, no state iff the install was refused locally, each or the untouched original; STOPPED in all other cases: true of the answers of any whole attempt |
| UpdateWorkflow.EndIsNotAbandoned | internal/agent/client.go:1028-1111 | at the end of the workflow an instance that was running has been started again, or a rollback begun, wherever the original image is still or the target failed to start |
| UpdateWorkflow.ResultFits | internal/agent/client.go:1028-1131 | status, image and success of a result against all the answers of the attempt |
| UpdateWorkflow.Attempt.SendReport | internal/agent/client.go:889-898 | a 409 is the only answer that marks the lease as lost, and the mark stays |
| UpdateWorkflow.Attempt.Execute | internal/agent/client.go:900-916 | a step is refused locally if the lease is known lost or the attempt cancelled, and only then; what each step may do to image and run state |
| UpdateWorkflow.Attempt.RestoreOriginalState | internal/agent/client.go:927-943 | Running iff the start succeeded, Failed iff it was tried and did not; Stopped, with no call made, for an instance that was not running and for a fenced attempt; the image stays |
| UpdateWorkflow.Attempt.BackUp | internal/agent/client.go:967-1019 | leaves image and run state alone and succeeds only at the point where INSTALLING may be reported |
| UpdateWorkflow.Attempt.CreateBackUp | internal/agent/client.go:981-1018 | the same for a backup made by the attempt itself |
| UpdateWorkflow.Attempt.HandOver | internal/agent/client.go:1003-1018 | upload, verification and decryption succeed together or the attempt has a failure on record |
| UpdateWorkflow.Attempt.PrepareAndStop | internal/agent/client.go:945-965 | the instance is stopped and untouched, or the attempt ends with the result its last answer calls for, and that is true of the host |
| UpdateWorkflow.Attempt.Install | internal/agent/client.go:1028-1041 | the result its last answer calls for, true of the host, whatever follows the install |
| UpdateWorkflow.Attempt.RestoreRunState | internal/agent/client.go:1042-1131 | the same from the installed target on; the guarded early return needs an unknown original state |
| UpdateWorkflow.Attempt.StartTargetRuntime | internal/agent/client.go:1048-1119 | either the target runs and the attempt goes on, or it ends without success and with a true report |
| UpdateWorkflow.Attempt.RollBack | internal/agent/client.go:1067-1117 | a rollback that is not fenced goes on to its end; it never reports success or an image, and Running only for the original image, running |
| UpdateWorkflow.Attempt.RestoreBackup | internal/agent/client.go:1083-1111 | the same from the stopped target on |
| UpdateWorkflow.Attempt.ExecuteWorkflow | internal/agent/client.go:945-1131 | the attempt call by call: it follows the workflow to its end unless it is fenced, and no call comes after a 409 or a local refusal |
| UpdateWorkflow.Attempt.ExecuteHermesUpdate | internal/agent/client.go:874-1132 | for a first attempt: the status the answers call for (see StatusOfLast); success implies the original run state on the installed image, and an installed target without success a fence or a failed start; an image is reported iff the target is installed and no rollback began, and is the host's; no image with a known state means the original image; no call after a 409; nothing left undone unless fenced; early return unreachable; no success only if a call failed or the attempt was cancelled |
| UpdateProtocol.RunKeepsInv | internal/api/server.go:2071-2265 | what every interleaving of attempts keeps about point, data, archives and requests under way |
| UpdateProtocol.InstallOnlyAfterReady | internal/agent/client.go:1028-1028 | an install starts only while the point is READY and with its pre-install archive at hand, fenced or not |
| UpdateProtocol.CaptureOnlyBeforeReady | internal/agent/client.go:971-981 | while the lease holder makes an archive, from its start to its end, the point is not READY and the data untouched, for any digests and late requests |
| UpdateProtocol.ArchiveIsPreInstall | internal/api/server.go:2125-2166 | every archive published, or put back by a rollback, is of pre-install data |
| UpdateProtocol.TouchedDataHasBackup | internal/api/server.go:2071-2123 | data touched by the target release has a READY pre-install backup |
| UpdateProtocol.RollbackRestores | internal/agent/client.go:1083-1096 | a restore that completes leaves pre-install data, in any run, lease or not |
| UpdateProtocol.RollbackIsReached | internal/agent/client.go:945-1111 | a run from the start in which data is touched by the target and put back by a rollback |
| UpdateProtocol.ReadyIsFinal | internal/recovery/manager.go:551-565 | a READY point keeps its archive for the rest of the run |
| UpdateProtocol.FencedAttemptMayCapture | internal/agent/client.go:971-981 | a run in which an attempt without the lease starts an archive while the point is READY |
| UpdateProtocol.LateCaptureMayBeTouched | internal/agent/client.go:971-998 | a run in which such an attempt ends up with an archive of touched data |
| LeaseClock.Delays | internal/agent/client.go:1649-1669 | for any configuration: the pause is the configured one, but 5 s at most for chat; the retry delay a quarter of it, the window a fifth of the lease but no more than the pause, each within its bounds; and these are what the clock is specified with |
| LeaseClock.RunLeaseRenewalLoop | internal/agent/client.go:1648-1706 | the loop is the specified clock, turn by turn, and says how it ended |
| LeaseClock.TurnExactly | internal/agent/client.go:1675-1703 | a turn leaves the loop renewing iff it was a 204, or a transport error, 408, 429 or 5xx with a retry before the safety deadline; only a 204 moves the deadline, and always does |
| LeaseClock.RenewsExactly | internal/agent/client.go:1671-1712 | over all turn sequences the loop renews iff it survived every turn in that sense |
| LeaseClock.EndsAt | internal/agent/client.go:1681-1699 | the first other turn ends it, in that turn, as a lost lease unless the execution was over; a 409 does at once |
| LeaseClock.TimerBeforeSafetyDeadline | internal/agent/client.go:1685-1703 | while it renews, the timer is due before the safety deadline and the deadline is at most one request late |
| LeaseClock.FailuresAreBounded | internal/agent/client.go:1681-1698 | failures since the last renewal fit between first delay and safety deadline, so they end the loop |
| LeaseClock.WideWindowIsSafe | internal/agent/client.go:1663-1703 | a window over 2T plus lateness cancels before the server's lease expires, for all environments |
| LeaseClock.NarrowWindowIsUnsafe | internal/agent/client.go:1663-1703 | with any narrower window, a retry delay within the timeout and room for one retry, there is an environment in which it does not |
| LeaseClock.SafeExactly | internal/agent/client.go:1648-1706 | both directions as one condition, under the same two conditions |
| LeaseClock.DefaultsAreSafe | internal/agent/client.go:133-138 | the defaults are safe for timers under 20 seconds late; chat runs are not |
| PolicyRollout.Rollout.Reconcile | internal/api/policies.go:537-635 | the loops over rows amount to the specified pass |
| PolicyRollout.Rollout.ObserveChildren | internal/api/policies.go:549-575 | finished children are recorded on running targets only, and failures noticed |
| PolicyRollout.Rollout.BlockPendingRows | internal/store/policies.go:254-267 | exactly the pending rows become blocked |
| PolicyRollout.Rollout.TryAutoPause | internal/api/policies.go:813-845 | pauses exactly if something is pending under an active snapshot, and the store takes it only if its control is active |
| PolicyRollout.Rollout.StartNextRow | internal/api/policies.go:609-634 | one target at most is queued, the canary first |
| PolicyRollout.Rollout.Finish | internal/api/policies.go:699-736 | the outcome for these targets and this snapshot; a closed operation keeps its own |
| PolicyRollout.PassFacts | internal/api/policies.go:537-635 | any pass moves targets forwards only and leaves at most one running |
| PolicyRollout.PassFate | internal/api/policies.go:549-575 | one target in any pass: a running one takes its child's end, failed if it cannot be read, and runs on while the child does; a pending one that is taken becomes what queueing it answered, or blocked by a cancel |
| PolicyRollout.FateExactly | internal/api/policies.go:549-575 | over every run, any snapshots: SUCCEEDED iff a pass saw its child succeed while it ran or was told on queueing that it is current; FAILED iff a pass saw its child failed or unavailable; BLOCKED iff it was at first, was refused or was canceled |
| PolicyRollout.FailureIsSeen | internal/api/policies.go:555-573 | the failure a pass reacts to is that of some running target's child |
| PolicyRollout.PausesExactly | internal/api/policies.go:590-629 | exactly when a pass pauses the rollout: open and active, something still pending, and a child failed, a stopped canary is unacknowledged with nothing running, or a target was refused |
| PolicyRollout.OpenExactly | internal/api/policies.go:576-579 | over every run the operation is open iff some target is pending or running |
| PolicyRollout.ControlFollowsRequests | internal/api/policies.go:334-381 | which operator requests are honoured, and what the stored control is then; others change nothing |
| PolicyRollout.StartFacts | internal/api/policies.go:595-629 | a pass that starts a target had nothing running, was allowed to, saw no failure, had the canary done or starting, and takes the first pending one |
| PolicyRollout.OneAtATime | internal/api/policies.go:599-608 | at most one target runs, in every reachable state, for any snapshots |
| PolicyRollout.CanaryFirst | internal/api/policies.go:609-617 | no other target starts before the canary is done, for any snapshots |
| PolicyRollout.CancelingHasNoPending | internal/api/policies.go:371-376 | once cancelling, nothing is pending and the cancel stands |
| PolicyRollout.CancelIsFinal | internal/api/policies.go:580-589 | after a cancel no target starts, even under a stale snapshot |
| PolicyRollout.ChangesAreBounded | internal/api/policies.go:537-635 | twice pending plus running pays for every change, so a rollout of n targets changes at most 2n times |
| PolicyRollout.OutcomeIsAccurate | internal/api/policies.go:699-721 | with fresh snapshots SUCCEEDED iff every target succeeded and it was not cancelling |
| PolicyRollout.NoStartAfterSetback | internal/api/policies.go:590-598 | with fresh snapshots nothing starts after a failed or unreadable child, a refused target or an operator's pause until a later resume |
| PolicyRollout.StoppedCanaryHolds | internal/api/policies.go:609-629 | over any fresh run, after the canary failed or was refused no pass starts a target unless the rollout was resumed since it last paused itself |
| PolicyRollout.RefusedCanaryHolds | internal/api/policies.go:612-615 | so none does if nobody has resumed the run |
| PolicyRollout.StoppedCanaryHoldsExactly | internal/api/policies.go:612-615 | in a reachable state that otherwise allows a start, a fresh pass starts a target iff the rollout was so resumed |
| PolicyRollout.AcknowledgedExactly | internal/api/policies.go:355-357 | the stored acknowledgement is exactly that history |
| PolicyRollout.EarlyResumeSkipsCanaryGate | internal/api/policies.go:355-357 | a fresh run in which an early pause and resume lets the next wave start after a refused canary |
| PolicyRollout.StartsExactly | internal/api/policies.go:576-629 | when a pass that can start a target does so, for any state and snapshot, by children seen and statuses |
| PolicyRollout.StaleStartExactly | internal/api/policies.go:521-533 | after a setback of a fresh run a pass starts a target iff its snapshot is active and, if the canary stopped, acknowledged; an active snapshot is then stale |
| PolicyRollout.StalePassIgnoresPause | internal/api/policies.go:521-533 | a run from creation with a setback, after which a pass that read its metadata earlier starts a target |
| PolicyRollout.StaleSuccessExactly | internal/api/policies.go:699-721 | after a cancel a pass reports success iff every target succeeded and its snapshot does not know of the cancel |
| PolicyRollout.StalePassReportsSuccess | internal/api/policies.go:706-715 | a run from creation with a cancel, after which a pass that read its metadata earlier reports success |
| Campaign.SettleFacts | internal/api/campaigns.go:248-266 | settling moves running targets only, each as its instance was seen, and frees places |
| Campaign.StartFacts | internal/api/campaigns.go:277-288 | starting takes pending targets only |
| Campaign.StartFills | internal/api/campaigns.go:271-288 | places are filled up to the concurrency, and one is left free only if nothing is pending |
| Campaign.StartsInOrder | internal/api/campaigns.go:277-288 | behind a target that stays pending none is started |
| Campaign.PassFacts | internal/api/campaigns.go:230-294 | a pass keeps within the concurrency and only moves targets forwards |
| Campaign.PassFate | internal/api/campaigns.go:248-288 | one target in any pass: succeeded iff an observation received at or after its request is there and none is pending; failed iff its instance is gone, its request superseded or its time up; a queued one is what queueing answered |
| Campaign.SucceedsExactly | internal/api/campaigns.go:259-260 | over any run a target has succeeded iff some pass found it running and saw that; a running one was queued by an earlier pass with its request and time |
| Campaign.IdleExactly | internal/api/campaigns.go:248-288 | a pass changes nothing iff no running target settles and nothing can be started |
| Campaign.RipePassAdvances | internal/api/campaigns.go:263-264 | a pass after the timeout that can read every running target lowers 2*pending + running |
| Campaign.RunIsBounded | internal/api/campaigns.go:271-288 | over any run, running stays within the concurrency, targets go pending, running, done, and pending, running and completed add up to n |
| Campaign.RunEndsBy | internal/api/campaigns.go:230-294 | after 2n such passes every target is done |
| Campaign.SucceededExactly | internal/api/campaigns.go:376-384 | no failed or blocked target iff all succeeded |
| Campaign.Reconciler.Counts | internal/api/campaigns.go:349-362 | completed, running and failed are the numbers of such targets |
| Campaign.Reconciler.Settle | internal/api/campaigns.go:248-266 | the first loop in place |
| Campaign.Reconciler.Start | internal/api/campaigns.go:271-288 | the second loop in place |
| Campaign.Reconciler.Reconcile | internal/api/campaigns.go:230-294 | the specified pass; once all targets are done, success iff every one succeeded |
| EventHub.Channel.Offer | internal/events/hub.go:45-58 | the subscriber is told the newest revision, and the second default is never taken, whenever its reader runs |
| EventHub.Hub.Publish | internal/events/hub.go:37-60 | every subscriber is told of the new revision and no send is given up |
| EventHub.Hub.Subscribe | internal/events/hub.go:62-77 | a new, empty channel under an unused id |
| EventHub.Hub.Unsubscribe | internal/events/hub.go:69-76 | only that subscription goes, its channel is closed once and keeps what is waiting; the channels left, which Publish sends on, are open |
| ChatStream.AfterGrows | internal/store/chat.go:482-490 | a longer log has the earlier entries after a cursor in the same places |
| ChatStream.Resume | internal/api/chat.go:783-795 | listing from the last entry written continues exactly where the stream stopped |
| ChatStream.ListedAll | internal/api/chat.go:796-798 | a page shorter than the limit reaches the end of the log |
| ChatStream.RunKeepsInv | internal/api/chat.go:779-823 | what every interleaving of appends, publishes and the stream keeps |
| ChatStream.StreamIsLossless | internal/api/chat.go:779-823 | the client has been sent a first part of the log after its cursor: ascending, no gap, no duplicate |
| ChatStream.WaitingMeansCaughtUp | internal/api/chat.go:807-815 | idle with an empty channel, everything appended before the last Publish has been sent |
| ChatStream.WakesArePublished | internal/api/chat.go:807-815 | in every run each wake-up uses up a Publish of its own |
| ChatStream.Stream.Drain | internal/api/chat.go:781-800 | everything in the log when the drain began has been sent when it ends |
| ChatStream.Stream.ChatEvents | internal/api/chat.go:747-823 | the same for serving a client through any number of wake-ups |
| Backup.SweepStep | internal/backup/manager.go:107-140 | one visit of the cleanup keeps every complete pair, in any order of visits |
| Backup.CrashRecovery | internal/backup/manager.go:95-142 | a crash state has one torn deletion at most, and its complete pairs are exactly its published backups |
| Backup.Manager.CrashAndRestart | internal/backup/manager.go:95-214 | a creation or deletion cut short anywhere, cleanups cut short anywhere, then a restart: at most two runs, exactly the pairs published at the crash are left, and never fewer than min(n, max) around a creation |
| Backup.DeletionWithin | internal/backup/manager.go:336-358 | every state a deletion passes through can be cleaned up and touches no other backup |
| Backup.CreationStates | internal/backup/manager.go:144-191 | every state a creation passes through can be cleaned up, and holds the old backups, and the new one iff its metadata is published |
| Backup.RetentionFloor | internal/backup/manager.go:192-214 | never fewer than min(n, max) pairs on disk, and min(n+1, max) at the end |
| Backup.KeptAreNewest | internal/backup/manager.go:205-214 | the backups kept beside a new one are max-1 at most, and none that goes is newer than one that stays |
| Backup.UndoStateLosesBackup | internal/backup/manager.go:349-351 | the undo path's state is not such a state: either visiting order loses the backup |
| Backup.Manager.Cleanup | internal/backup/manager.go:95-142 | one run, in any order, keeps all pairs; if it fails, a torn deletion is finished |
| Backup.Manager.Restart | internal/backup/manager.go:65-93 | after at most one run more than torn deletions the directory holds exactly the complete pairs |
| Backup.Manager.List | internal/backup/manager.go:222-266 | all published backups, newest first; refused iff a pair is incomplete |
| Backup.Manager.DeleteLocked | internal/backup/manager.go:336-358 | exactly this backup goes, through the states of a deletion |
| Backup.Manager.PruneOldestLocked | internal/backup/manager.go:205-214 | exactly the oldest beyond the limit go, one at a time |
| Backup.Manager.Create | internal/backup/manager.go:144-203 | ends with the newest min(n+1, max), the new one with its own content and time, through crash states only; a failed snapshot changes nothing |
| ArtifactStore.AddKeepsExact | internal/chatartifacts/manager.go:522-532 | counting a manifest that becomes ready keeps the index equal to the sums |
| ArtifactStore.RemoveKeepsExact | internal/chatartifacts/manager.go:534-538 | discounting one that stops being ready does too, and no clamp at zero bites |
| ArtifactStore.CompatibleIsNotTransitive | internal/chatartifacts/manager.go:619-625 | three manifests, neighbours compatible, ends not |
| ArtifactStore.ReconcileIsIdempotent | internal/chatartifacts/manager.go:361-451 | reconciling again at the same instant rewrites nothing, whichever removals failed |
| ArtifactStore.Store.Serve | internal/chatartifacts/manager.go:161-451 | over any sequence of reads, Put, Record, reconciliations and DeleteArtifact, with writes failing and content changing: nothing ever moves backwards or disappears, an artifact becomes ready only in a Put whose staged body had exactly its size and digest, and the index and quotas hold from any exact state on until a call fails on the disk |
| ArtifactStore.Store.ServeOne | internal/chatartifacts/registry.go:48-239 | the same for one call, with the answer it gives |
| ArtifactStore.ExactFromReconcileOn | internal/chatartifacts/manager.go:361-451 | from a successful reconciliation on the index is exact and quotas hold until a call fails on the disk |
| ArtifactStore.StaysExactExtends | internal/chatartifacts/manager.go:247-258 | one more call keeps exactness and quotas from every earlier exact state |
| ArtifactStore.ReadyOnce | internal/chatartifacts/manager.go:176-186 | in every served run an artifact that was ready and is not will never be again |
| ArtifactStore.PublishIsPermitted | internal/chatartifacts/manager.go:247-258 | an upload that passes the quota check keeps all three quotas |
| ArtifactStore.AcceptsExactly | internal/chatartifacts/manager.go:161-258 | exactly when an upload is accepted, by its fields: declared in order, nothing stored against it, and ready already, or within the three quotas, staged, of the declared size and digest, under the lease |
| ArtifactStore.RefusalIsTrue | internal/chatartifacts/manager.go:167-224 | each refusal of an upload has the reason it names |
| ArtifactStore.PublishedIs | internal/chatartifacts/manager.go:225-236 | what is published: the declared content, dated by what was stored, and its expiry |
| ArtifactStore.StatusExactly | internal/chatartifacts/manager.go:298-336 | the status a reader and a reconciliation make of a manifest, by expiry, content and age; nothing else of it changes |
| ArtifactStore.RecordedExactly | internal/chatartifacts/registry.go:48-101 | what a report comes to, field by field, and why one is refused |
| ArtifactStore.AmendedAdvances | internal/chatartifacts/registry.go:63-93 | a report never takes a manifest backwards, changes what is known of its content, or makes it ready |
| ArtifactStore.Store.GetLocked | internal/chatartifacts/manager.go:298-336 | reading marks expired and missing content and keeps the index exact unless the write fails |
| ArtifactStore.Store.Receive | internal/chatartifacts/manager.go:187-244 | content is published iff it fits, was staged, matches and the lease holds; else nothing changes |
| ArtifactStore.Store.Put | internal/chatartifacts/manager.go:161-245 | success, exactly under the stated conditions, means the declared content is ready: what becomes ready was staged with exactly the size and digest of its manifest, under the lease; otherwise the first reason that applies; nothing else changes; quotas and index kept |
| ArtifactStore.Store.Record | internal/chatartifacts/registry.go:48-101 | the answer for every stored and reported status; nothing becomes ready; index kept |
| ArtifactStore.Store.Reconcile | internal/chatartifacts/manager.go:355-451 | every manifest as it should be at that instant, index exact whatever it was; if cut short, still nothing moves backwards |
| ArtifactStore.Store.DeleteArtifact | internal/chatartifacts/registry.go:190-239 | the one artifact of that id is deleted for good and its content gone; refused if there is none or two; index kept |
| ArtifactStore.Store.DeleteSession | internal/chatartifacts/manager.go:338-353 | nothing of the session is left, no other session loses anything, index exact |
| ArtifactListing.SortedFacts | internal/chatartifacts/registry.go:137-145 | the order is strict and total: sorting loses and repeats nothing |
| ArtifactListing.List | internal/chatartifacts/registry.go:103-166 | the page after the cursor's position: creation times do not increase, ties go by descending session and id; with its next cursor; refused iff the limit is not 1 to 100 or the cursor is absent |
| ArtifactListing.PageAt | internal/chatartifacts/registry.go:146-165 | a page is a slice of the listing and its next cursor the slice's last item, unless the listing ends |
| ArtifactListing.WalkIsComplete | internal/chatartifacts/registry.go:103-166 | whatever changes between requests, a walk shows items newest first, strictly, and a finished one every item that was there throughout |
| ArtifactListing.NeverRefusedWithoutRemovals | internal/chatartifacts/registry.go:147-158 | insertions alone never get a walk refused |
| ArtifactListing.QuietWalk | internal/chatartifacts/registry.go:159-164 | without changes a walk shows the listing and stops after exactly the pages needed |
| ArtifactListing.PagesIsCeiling | internal/chatartifacts/registry.go:159-164 | the pages needed are n/limit rounded up, and one for none |
| IngressMerge.Consider | internal/cloudflare/routes.go:458-495 | one live rule's effect on everything gathered, or a refusal |
| IngressMerge.MergeLive | internal/cloudflare/routes.go:458-495 | the loop gathers body, conflicts, applied and fallback of the whole list, up to the first refusal |
| IngressMerge.MergeOwnedIngress | internal/cloudflare/routes.go:451-517 | the merge; refused iff some live rule's hostname is in the ledger, not wanted, and its service not the ledger's, naming the first such; a wanted hostname conflicts iff a live rule for it is not as the ledger has it for that instance |
| IngressMerge.ConflictsExactly | internal/cloudflare/routes.go:469-484 | the conflicts of any list of rules and their reasons, read off the wire rules |
| IngressMerge.NormalizeExactly | internal/cloudflare/manager.go:477-479 | a hostname is read without surrounding spaces, without one trailing dot, and in small letters, character by character |
| IngressMerge.DesiredIsPartitioned | internal/cloudflare/routes.go:469-502 | every wanted hostname is applied or a conflict, and not both |
| IngressMerge.OthersAreUntouched | internal/cloudflare/routes.go:471-494 | all rules but those applied or withdrawn stay unchanged and in order |
| IngressMerge.MergedListIsSound | internal/cloudflare/routes.go:488-506 | one fallback, at the end; one rule per hostname; none for a withdrawn hostname |
| IngressMerge.AppliedIsPublished | internal/cloudflare/routes.go:481-502 | an applied hostname has a rule with the wanted service and the other fields of the live rule it had |
| IngressMerge.FallbackIsKept | internal/cloudflare/routes.go:462-465 | the merged list ends with the last live rule without hostname, unchanged, or the default one |
| IngressMerge.RecordableExactly | internal/store/store.go:2740-2754 | the ledger can record the result iff no wanted hostname without a live rule still belongs to another instance |
| IngressMerge.MergeIsFixedPoint | internal/cloudflare/routes.go:157-211 | if the result can be recorded, merging it again against the updated ledger gives the same list and conflicts and withdraws nothing |
| IngressMerge.UnrecordableConflicts | internal/cloudflare/routes.go:177-185 | if it cannot, the next merge reports the hostname another instance holds as a conflict |
| RoutePass.DeletesOnlyItsOwn | internal/cloudflare/routes.go:406-423 | every record deleted was created by the fleet, is in its ledger for that hostname, and was read with the fleet's name, target and comment |
| RoutePass.DropsOnlyWhatIsGone | internal/cloudflare/routes.go:191-203 | every dropped row was withdrawn when its record was deleted or not listed, and after that, and after every deletion, the zone was read again and showed no trace of it |
| RoutePass.ConflictExactly | internal/cloudflare/routes.go:373-386 | none iff the one listed record is this instance's row of the ledger, as the fleet wrote it; which conflict otherwise |
| RoutePass.OutcomeOf | internal/cloudflare/routes.go:275-289 | what the end of a pass reports of a route, for any observation before: published, mismatched, failing or protected, by what was seen |
| RoutePass.Manager.Create | internal/cloudflare/routes.go:388-404 | a row is noted only for a record the zone answered for, and never over another instance's row |
| RoutePass.Manager.EnsureOne | internal/cloudflare/routes.go:370-405 | one hostname: the conflict its listed records make, or a record created and noted |
| RoutePass.Manager.EnsureWanted | internal/cloudflare/routes.go:369-405 | conflicts are exactly the hostnames whose listed records are not the fleet's as written; a hostname without records gets one that is noted, or a failed creation |
| RoutePass.Manager.RemoveStale | internal/cloudflare/routes.go:406-425 | the listed records of all unwanted rows are deleted, unless one was changed, which stops the pass |
| RoutePass.Manager.VerifyRemoved | internal/cloudflare/routes.go:196-203 | rows are dropped once the new reading shows no trace of their records |
| RoutePass.Manager.NoteDns | internal/cloudflare/routes.go:131-145 | the observation of every route after the DNS step |
| RoutePass.Manager.NoteVerification | internal/cloudflare/routes.go:217-252 | the observation of every route after the second readings, and which routes to probe |
| RoutePass.Manager.Probe | internal/cloudflare/routes.go:254-271 | published are exactly the probed routes found reachable |
| RoutePass.Manager.Publish | internal/cloudflare/routes.go:213-272 | the published set is exactly the routes observed as published, which are those with record, rule and endpoint seen now; every route is reported by what was seen of it |
| RoutePass.Manager.Reconcile | internal/cloudflare/routes.go:82-273 | the same for a whole pass from any earlier observations; the record of a published route is the one of this instance's ledger row, or was created for it in this pass; after a failed pass no route is observed as published, after a successful one no unwanted row is left; ledger and history stay sound |
| KeyedMutex.StepKeepsInv | internal/api/server.go:122-146 | each of the four steps of a call keeps counts, ownership and the map in agreement |
| KeyedMutex.MutualExclusion | internal/api/server.go:135-137 | in every run two calls never hold one key together |
| KeyedMutex.MapIsExact | internal/api/server.go:123-145 | in every run the map has exactly the keys in use, and calls for a key share one entry that counts them |
| KeyedMutex.WaiterMayEnter | internal/api/server.go:135-137 | a waiting call can go on iff no call holds its key |
| KeyedMutex.Locks.EntryFor | internal/api/server.go:124-131 | the map's entry for a key, or a new one, and no other change |
| KeyedMutex.Locks.Register | internal/api/server.go:123-133 | is the registering step, with the map's entry or a new one |
| KeyedMutex.Locks.Acquire | internal/api/server.go:135-135 | is the acquiring step |
| KeyedMutex.Locks.Unlock | internal/api/server.go:137-137 | is the unlocking step |
| KeyedMutex.Locks.Deregister | internal/api/server.go:139-144 | is the deregistering step; the last call for a key removes it |
| ArtifactPreview.ColumnName | internal/chatpreview/preview.go:411-420 | a non-empty upper-case name whose value is the column's number plus one |
| ArtifactPreview.CellColumn | internal/chatpreview/preview.go:774-791 | the value of the leading letters of either case, and whether there are any |
| ArtifactPreview.LettersExactly | internal/chatpreview/preview.go:774-783 | the letters read are the leading ones of either case, in upper case |
| ArtifactPreview.ValueOfName | internal/chatpreview/preview.go:411-420 | the name of a number has that number as its value |
| ArtifactPreview.NameOfValue | internal/chatpreview/preview.go:774-791 | the value of a name names it again |
| ArtifactPreview.NamesAreUnique | internal/chatpreview/preview.go:411-420 | equal values iff equal names |
| ArtifactPreview.FirstNames | internal/chatpreview/preview.go:411-420 | A, Z, AA, ZZ and AAA are the names of 0, 25, 26, 701 and 702 |
| ArtifactPreview.NameRoundTrip | internal/chatpreview/preview.go:774-791 | reading a column's name followed by anything but a letter gives the column |
| ArtifactPreview.ReferenceRoundTrip | internal/chatpreview/preview.go:411-420 | naming the column read from a reference gives its letters |
| ArtifactPreview.ValueIsBounded | internal/chatpreview/preview.go:784-784 | k letters stay below 26/25 of 26 to the k, so thirteen letters fit in 63 bits |
| ArtifactPreview.Collect | internal/chatpreview/preview.go:91-111 | the first 52 records, each cut to its first 50 cells, numbered from one, with the true total |
| ArtifactPreview.FinalizeTable | internal/chatpreview/preview.go:199-243 | the rows read behind the heading, at most 50, each with its own number and filled up to the width of the columns; without a heading the columns are named by their numbers; total and flag |
| ArtifactPreview.ShownRowsAreRead | internal/chatpreview/preview.go:204-240 | the same of what is cut out of the padded rows |
| ArtifactPreview.FlagIsTruthfulExactly | internal/chatpreview/preview.go:204-241 | the flag means rows are missing, except for a heading with exactly fifty rows |
| ArtifactPreview.FullTableIsReportedTruncated | internal/chatpreview/preview.go:204-241 | the smallest such table, as a concrete input |

## Left out

- HTTP handlers, JSON, headers, SSE framing, Docker and cloudflared calls, clocks and random ids: inputs or arbitrary results here.
- CaptureOnlyBeforeReady: speaks of the holder of the lease, because for an attempt that lost it unnoticed the claim is false (`FencedAttemptMayCapture`).
- Exact contents of archives, SHA-256 and encryption: an archive is its digest and whether it is of pre-install data.
- A second attempt's result: a reclaimed attempt that fails early reports the original status unseen, so result and host are compared for a first attempt only.
- Operator deletion of a recovery point, and its retention, while an update job runs.
- Store failures inside a rollout or campaign pass, and crashes between two writes of one pass.
- Queueing checks of a rollout or campaign target (agent version, eligibility, host reachability): one of their outcomes is an input.
- Progress texts, stages and reasons shown to operators.
- `stateEvents`, which takes its snapshot before it subscribes.
- Lost connections, and decryption errors of single chat events: both end the stream.
- Verification of backup contents, and failed removals inside a deletion other than the state `UndoStateLosesBackup` shows.
- Manifests that are invalid or have no status or expiry (written by older versions), staging files, and `deleted_at`.
- ArtifactStore.Store.GetLocked: leaves the index too low when its write fails, as the source does; `Store.Reconcile` repairs it.
- Filters and search of the artifact listing: a view is what passes them; an item that leaves the filter counts as removed.
- Non-ASCII hostnames, and rules that share a hostname.
- Crashes between a change in Cloudflare and the ledger write that follows it: the code reports a conflict afterwards.
- The ledger as a list: both Cloudflare modules keep one row per hostname in a map, as its unique index does.
- Ingress rows of the ledger within `RoutePass`: their update is `IngressMerge.After`.
- The zone name check, admin hostname check and instance lookup of a pass: inputs that stop it.
- The Cloudflare endpoint probe's retries: its last answer is an input.
- Header detection and header names of previews: an input; that header names are unique is not true of the code (`a`, `a`, `a (2)`).
- ArtifactPreview.CellColumn: integers are unbounded here; with 64 bits a reference of more than thirteen letters may wrap around.
- Cell texts: cutting them to 512 characters, and CSV, text and XLSX parsing.
- The aliasing of `finalizeTable`'s padding with rows it does not show (`append` may share memory).
- Legacy Cloudflare modes, OAuth, configuration, CLI commands, field validators, address block lists, metrics.
