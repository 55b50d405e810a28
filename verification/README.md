# CypherPanel, modelled in Dafny

CypherPanel is a control plane with agents that dial home. This project models the parts
of it whose correctness is hard to see from one function: protocols that a crash can cut
anywhere, objects whose compact state must agree with a full history, interleaved state
machines, and codecs and validators that must undo or repeat themselves exactly.

Each component has a step machine or reference definition on values, the theorems about
every run or every input, and, where the source works by changing things step by step, a
class or loop proved against that machine.

| file | component |
|---|---|
| `SelfUpdate.dfy`, `Updater.dfy`, `Releases.dfy` | agent self-update: staging, boot marker, two-slot swap, probation, rollback, and the releases an agent moves between |
| `IdentityStore.dfy`, `Keeper.dfy`, `Renewal.dfy` | the agent's certificate: two-slot files, in-memory pair, renewal times |
| `RateLimit.dfy`, `SignIn.dfy` | sliding-window limiter, throttle and sign-in |
| `Histogram.dfy`, `PathTable.dfy`, `RequestCounts.dfy`, `OtherRows.dfy`, `Backlog.dfy`, `BacklogRuns.dfy` | latency histograms, request counters, capped path table and its published cut, bucket backlog |
| `Cron.dfy`, `CronFires.dfy`, `CronRunner.dfy` | scheduled tasks |
| `Dns.dfy`, `DnsConverge.dfy`, `DnsWanted.dfy`, `DnsRoutes.dfy`, `DnsBackoff.dfy`, `DnsSweeper.dfy` | DNS reconciler: what it may touch, when it gets there, when it tries again, how it can fail |
| `Alerts.dfy`, `AlertRuns.dfy` | alert evaluator |
| `Text.dfy`, `Versions.dfy`, `Applications.dfy`, `AppService.dfy` | release tags and their order, application rules, create and update |
| `PullMarker.dfy`, `AuditText.dfy` | image pull markers, bounded audit text |

Conventions: an event that the program counter does not allow leaves a machine where it
is, so the theorems quantify over all event lists without side conditions. Provider,
database and bus answers, clocks and crashes are events or free choices. Times are integer
nanoseconds unless a file says otherwise. Comments next to a member give its meaning;
`hide` statements only keep definitions out of proofs that do not need them.

## Where the code does less, or other, than its comments say

Each of these is proved, with a failing input and the exact condition.

- A crash between writing the update marker and relinking `.prev` is not harmless, although
  agent/updater/updater.go:483-486 says so: the later rollback restores an older image
  (`SelfUpdate.StaleSlotRollsBackTooFar`). The rollback restores the image the marker names
  exactly when the slot was refilled after the marker or held that image already
  (`SelfUpdate.RollbackRestores`).
- The copy fallback of the swap (agent/updater/swap.go:143) is safe unless a rollback reads a
  slot whose copy was cut; then, and when an update begins while a rollback is under way, a
  file that was never vetted can reach the binary path (`SelfUpdate.BinaryAlwaysVetted`,
  `SelfUpdate.CopySlotCanTear`, `SelfUpdate.OverlapCanTear`).
- Without the rollback flag an agent can still end on a lower release, in three ways: a
  rollback from a stale slot; an artifact whose build stamp is below the tag it is published
  under, which the pre-flight accepts because it only looks for the tag inside what the
  artifact prints; and an artifact whose stamp contains the tag but is no version, after
  which every older release is taken up (`Releases.StaleSlotRunsLower`,
  `Releases.StampRunsLower`, `Releases.PreReleaseForRelease`, `Releases.UnreadableRunsLower`,
  `Releases.UnreadablePasses`). A step leaves the level exactly by one of them
  (`Releases.LowersIff`), and no run without them ever goes lower (`Releases.NeverLower`).
- Enrolling is not all or nothing. Over an identity in the alternate slot a cut before
  identity.json leaves the old pair beside the new CA; over one in the primary slot it can
  leave the old certificate beside the new key (`IdentityStore.SaveIsAtomicIff`,
  `IdentityStore.SaveOverPrimaryTears`, `IdentityStore.SaveAtEveryCut`). A renewed certificate
  that does not belong to its key is committed to disk before anything notices
  (`Keeper.MismatchSurvivesOnDisk`).
- `RetryAfter` is too short for a key that holds more than `max` failures, which overlapping
  sign-ins can produce (`RateLimit.RetryExact`, `RateLimit.RetryTooShort`,
  `SignIn.InFlightBoundReached`).
- A schedule with no occurrence ahead fires on every pass (`Cron.DeadScheduleFiresEveryPass`).
  A task edited while a pass runs can fire twice for one minute (`Cron.EditedTaskFiresTwice`):
  a re-armed task has an occurrence between its two firings whenever the first occurrence
  after the clock reading of the Sync comes after the first firing
  (`Cron.RearmedOccurrence`).
- The update branch of the DNS reconciler is dead, because the due list has present rows only
  while they store no record id (`Dns.NeverUpdates`). A changed address therefore never
  reaches the provider once the record is marked, nor when it changes while the row is queued
  for its first creation (`Dns.ContentChangeIsLost`, `DnsRoutes.ChangeAfterMark`,
  `DnsRoutes.ChangeWhileQueued`). `DnsWanted.AppearsIff` is the exact condition under which
  the sweeper can still make the wanted record appear.
- A tombstone's record can be left behind for good: by a tombstone that comes before the mark
  of the record, and by the eighth failed delete (`Dns.TombstoneDuringCreateLeaks`,
  `DnsRoutes.TombstoneBeforeMark`, `DnsRoutes.RefusedToTheEnd`). Exactly these two steps put a
  tombstone out of reach (`DnsConverge.PutAwayIff`), and exactly the others can still be
  reaped (`DnsConverge.ReapableIff`).
- core/dns/reconcile.go:24-27 speaks of a broken record that is retried roughly hourly and not
  abandoned. The backoff and the limit of eight never bind a wanted row, because every sweep
  first upserts it (`DnsConverge.WantedIsDue`), and a tombstone is abandoned.
- A firing held back by the re-arm delay still announces its recovery, although
  core/alerts/alerts.go:359-360 says otherwise (`Alerts.RecoveryWasAnnounced`,
  `Alerts.HeldFiringAnnouncesRecovery`).
- core/alerts/alerts.go:271-272 says that a day of silence is news once. The notice is given
  again each day while the silence lasts (`AlertRuns.NoticeIff`).
- A rule that is fine again can have open episodes, because resolve closes only the newest. While
  the store's writes succeed it happens exactly when a breach came while the rule was
  flapping, or after a gap with an episode still open (`Alerts.FineIsResolvedIff`,
  `Alerts.FineHasNoneOpen`, `Alerts.GapLeavesEpisodeOpen`, `Alerts.FlappingLeavesEpisodeOpen`);
  a write that fails after the episode is opened is a further way
  (`Alerts.FailedWriteLeavesEpisodeOpen`).
- Numbered pre-releases compare as text, not by section 11 of Semantic Versioning 2.0.0
  (`Versions.TenBeforeNine`, `Versions.EqualLengthNumbersAgree`,
  `Versions.ShorterNumbersAgreeIff`), and the two version parsers differ on text with a space
  after the "v" (`Versions.ParsersDifferBySpace`, `Versions.SpaceAfterV`).
- The published path rows can hold two rows labelled "(other)". Every cut of a table does
  exactly when fewer than twenty other rows have at least as many requests as the cap's own
  row, and some cut does exactly when fewer than twenty have more (`OtherRows.TwoOthersIff`,
  `PathTable.RushPublishesTwoOthers`).

## Model

| member | source | states |
|---|---|---|
| SelfUpdate.BinaryAlwaysVetted | agent/updater/updater.go:421-499 | At every point of every run of updates, crashes, restarts and rollbacks, with hard links or copies, in which no update begins during a rollback and no rollback reads a slot whose copy was cut, the file at the binary path is complete and is the first image or one that passed digest and pre-flight |
| SelfUpdate.LinksNeverTear | agent/updater/swap.go:139-146 | On hard links no slot is ever torn |
| SelfUpdate.RollbackRestores | agent/updater/swap.go:134-168 | A finished rollback, however often interrupted and repeated, has put back the image whose process wrote the marker exactly when the slot was refilled after that marker or held that image already, and otherwise what the slot held at the marker |
| SelfUpdate.OneRecordedAttempt | agent/updater/updater.go:245-273 | In every reachable state the marker's attempt count is the number of starts that recorded an attempt and is at most one, and the marker names the build of the image that wrote it |
| SelfUpdate.SecondStartRollsBack | agent/updater/updater.go:245-273 | From every reachable state the next start that still sees a marker whose attempt is spent wants the rollback; undisturbed from there, with the slot refilled, it restores exactly the image the marker names and clears the marker |
| SelfUpdate.ProbationRollsBack | agent/updater/updater.go:278-322 | From every reachable state on probation the expired timer wants the rollback exactly when the process has not dialled home; undisturbed from there, with the slot refilled, it restores the image that wrote the marker |
| SelfUpdate.MarkerNamesTarget | agent/updater/updater.go:475-496 | In every run the marker, from its writing on, names the version being installed |
| SelfUpdate.RollbackCompletes | agent/updater/swap.go:156-168 | From every wanted rollback whose slot was refilled there is a run that restores the image that wrote the marker and clears the marker |
| SelfUpdate.NoMarkerNoRollback | agent/updater/updater.go:330-344 | Once the marker is gone, over every run in which no update writes a new one, no start rolls back or arms probation |
| SelfUpdate.StaleSlotRollsBackTooFar | agent/updater/updater.go:483-499 | For all images and versions the guard and the vetting allow there is a run in which a crash after the marker ends with an older image than the marker names |
| SelfUpdate.CopySlotCanTear | agent/updater/swap.go:134-151 | Without hard links a crash during the copy ends in a rollback to a file that is neither the first image nor vetted |
| SelfUpdate.OverlapCanTear | agent/updater/updater.go:278-322 | An update begun during a rollback of the same process can install a file that was never vetted |
| Updater.Agent.Recover | agent/updater/updater.go:245-273 | Rolls back exactly when a readable marker has its attempts used up; otherwise records the attempt and arms probation; moves only through machine states |
| Updater.Agent.DialedHome | agent/updater/updater.go:330-344 | Only the first call of a process clears the marker |
| Updater.Agent.ProbationExpired | agent/updater/updater.go:278-298 | The expired timer rolls back exactly a process that has not dialled home |
| Updater.Agent.Rollback | agent/updater/swap.go:156-168 | Puts the slot's contents at the binary path exactly when the slot exists and the copy and the rename succeed, and leaves the binary alone otherwise |
| Updater.Agent.RollNow | agent/updater/updater.go:300-322 | Ends the process exactly when the rollback restored the slot, with the marker cleared if that succeeded |
| Updater.Agent.Stage | agent/updater/swap.go:71-121 | Keeps the staged file exactly when every write succeeds, the streamed bytes have the listed digest and the file reports the version; the live files and the marker are untouched |
| Updater.Agent.Swap | agent/updater/swap.go:134-151 | Over a hard link or a copy, the binary becomes the staged file and the slot the old binary exactly when the old slot can be removed and refilled and the rename succeeds; otherwise the binary is as it was |
| Updater.Agent.Update | agent/updater/updater.go:421-499 | Installs exactly the permitted and vetted bodies whose file operations succeed, the marker's among them, with the old binary in the slot and the marker down; otherwise the binary is as it was, and what is refused before the marker changes neither slot nor marker; begun outside a rollback the binary stays good |
| Updater.Agent.MarkAndSwap | agent/updater/updater.go:475-496 | The marker before the swap, and both taken back when either fails |
| SelfUpdate.FilesAlways | agent/updater/swap.go:71-189 | In every run, regular or not, each name names a whole file and the staged file shares no inode with the others |
| Updater.Agent.GiveUp | agent/updater/updater.go:468-495 | Every error path removes the staged file and takes the marker back, as far as the removals succeed, and leaves binary and slot alone |
| Releases.NeverLower | agent/updater/updater.go:348-361 | Over every run of updates, crashes, restarts and rollbacks without the rollback flag, in which every rollback finds its slot right and every installed image is stamped no lower than its tag, an agent settles on nothing lower than before and never has a lower release at its binary path |
| Releases.LowersIff | agent/updater/swap.go:134-168 | One step leaves something that is not known to be at least the settled release exactly when it installs an image whose stamp is lower than the running one or is no version, or restores a slot that was not refilled after the marker and held such an image |
| Releases.StampBoundIsExact | agent/updater/updater.go:348-361 | For every tag and stamp, every release that may take up the tag is followed by one that is not lower exactly when the stamp is a version and not below the tag |
| Releases.PreReleaseForRelease | agent/updater/swap.go:105-121 | An agent on one pre-release of a version may take the version up, and the pre-flight for it accepts a lower pre-release |
| Releases.StampRunsLower | agent/updater/swap.go:105-121 | For all images an artifact listed for the tag and stamped below the running build is installed by a run |
| Releases.UnreadablePasses | agent/updater/swap.go:105-121 | For every release tag there is a stamp that passes its pre-flight and is no version |
| Releases.UnreadableRunsLower | agent/updater/version.go:98-105 | For all images a release whose stamp is no version is followed by one lower than the first |
| Releases.StaleSlotRunsLower | agent/updater/updater.go:483-499 | For all images a crash after the marker can end on the release before the settled one |
| RateLimit.PruneAgrees | core/auth/ratelimit.go:121-140 | What pruning leaves answers every later window exactly as the full history of failures since the last Reset |
| RateLimit.ThrottledIff | core/auth/ratelimit.go:43-50 | A key is throttled exactly when at least max of its operations are failures stamped inside the window with no Reset after them |
| RateLimit.Limiter.Allow | core/auth/ratelimit.go:43-50 | True exactly when fewer than max failures since the last Reset stand in the window, counted on the history of the key |
| RateLimit.Limiter.RetryAfter | core/auth/ratelimit.go:56-69 | Zero for a key that is not throttled, and otherwise exactly the time until the oldest failure still counted leaves the window; the key is throttled until then and free at it while it holds max |
| RateLimit.Limiter.Fail | core/auth/ratelimit.go:72-79 | Adds one failure to the key's history and keeps every key in agreement with its history |
| RateLimit.Limiter.Reset | core/auth/ratelimit.go:82-90 | Empties the key's history and no other |
| RateLimit.Limiter.Refuse | core/auth/ratelimit.go:100-117 | True exactly when the key is throttled and its throttle episode had no refusal yet |
| RateLimit.FilterInPlace | core/auth/ratelimit.go:121-128 | Filtering over the slice's own array keeps exactly the entries after the cutoff, in order |
| RateLimit.OnceAtMost | core/auth/ratelimit.go:100-117 | Within one throttle episode Refuse answers true at most once |
| RateLimit.OnceAtLeast | core/auth/ratelimit.go:100-117 | Every refused attempt belongs to an episode in which Refuse did answer true no later |
| RateLimit.EpisodeHasNoGap | core/auth/ratelimit.go:100-117 | Between two neighbouring operations of an episode the key was throttled at every instant |
| RateLimit.RetryExact | core/auth/ratelimit.go:56-69 | The key stays throttled until the promised moment; at that moment it is free exactly when all but max-1 kept failures share the oldest time, so always while it holds max |
| RateLimit.RetryTooShort | core/auth/ratelimit.go:56-69 | A key over max can be promised too short a wait |
| RateLimit.RetryAfterSeconds | core/auth/ratelimit.go:161-167 | The least whole number of seconds, at least one, that covers the wait |
| SignIn.Throttle | core/auth/ratelimit.go:171-193 | Refuses exactly when some key is throttled, with the longest wait among the throttled keys: each is throttled until its own wait is over and free after the longest one if it holds at most max failures; the flag says whether an episode began; no other key moves |
| SignIn.SecondsAreEnough | core/auth/ratelimit.go:158-193 | A key that the wait frees is free from the header's whole seconds on |
| SignIn.Login | core/auth/service.go:144-195 | Throttled attempts are answered first, with that wait; each other answer comes exactly from its outcome; exactly the wrong credentials count as failures on every key, a sign-in clears them, and no other key moves |
| SignIn.InFlightBound | core/auth/service.go:144-195 | With at most k attempts in flight a key holds at most max-1+k failures, in any interleaving |
| SignIn.Door.Bounded | core/auth/service.go:144-195 | The bound holds of the slice a real limiter keeps for the key |
| SignIn.Door.Enter | core/auth/service.go:144-195 | An attempt that passes the throttle moves the limiter's slice and the count in flight as the machine does |
| SignIn.Door.Look | core/auth/ratelimit.go:171-193 | A refused attempt that looks at the key again moves it as the machine does |
| SignIn.Door.LeaveFailed | core/auth/service.go:144-195 | So does one that ends in a failure |
| SignIn.InFlightBoundReached | core/auth/service.go:144-195 | The bound is reached by two overlapping attempts |
| IdentityStore.RotateIsAtomic | agent/identity/identity.go:152-182 | A rotation cut after any file operation leaves a loadable directory that holds the new pair exactly when the cut came after the rename of identity.json, and otherwise the old pair |
| IdentityStore.AnyRotations | agent/identity/identity.go:152-217 | After any number of rotations, each cut anywhere, Load returns the enrolled coordinates with exactly the last committed pair |
| IdentityStore.LoadReads | agent/identity/identity.go:185-217 | Load reads exactly the files that identity.json names and, where it names none, agent-cert.pem and agent-key.pem |
| IdentityStore.SlotsAlternate | agent/identity/identity.go:66-86 | A committed rotation moves from either slot to the other, with the new pair whole in it |
| IdentityStore.SaveAtEveryCut | agent/identity/identity.go:110-143 | Enrolling over any identity, cut after any file operation: the whole identity that Load then returns |
| IdentityStore.SaveIsAtomicIff | agent/identity/identity.go:110-143 | Over the alternate slot it is all or nothing for the pair, and for the identity exactly when the CA does not change or nothing else does |
| IdentityStore.SaveCommits | agent/identity/identity.go:110-143 | Enrolling into any directory ends with exactly the given identity |
| IdentityStore.SaveOverPrimaryTears | agent/identity/identity.go:110-143 | Over the primary slot a cut leaves the old certificate beside the new key, and the pair is all or nothing exactly when one of the two does not change |
| Keeper.MemoryWasCommitted | agent/identity/keeper.go:109-114 | In every run of renewals, crashes and starts the pair in memory was committed to disk before and is usable, and disk holds the pair committed last |
| Keeper.RenewalsAdvance | agent/identity/renew.go:192-231 | With matching certificates each committed pair expires strictly later than the one before and a running process holds the last |
| Keeper.MismatchSurvivesOnDisk | agent/identity/keeper.go:109-114 | A committed certificate of another key is on disk; the process keeps its old pair, and the host starts again exactly when the pair on disk matches |
| Keeper.Store.Rotate | agent/identity/identity.go:152-182 | The file operations in the source's order reach exactly the state of the cut rotation, and report success exactly from the commit on |
| Keeper.Keeper.RenewOnce | agent/identity/renew.go:192-231 | Disk, then memory: succeeds exactly for a certificate that expires later, is written through its commit and belongs to its key; failure leaves the pair in memory alone |
| Renewal.RenewAt | agent/identity/renew.go:135-141 | Two thirds of the validity window, truncated, and inside it |
| Renewal.RetryIn | agent/identity/renew.go:124-133 | A quarter of the time left, between 30 s and 1 h |
| Renewal.FailingRun | agent/identity/renew.go:149-187 | With a plane that never answers the attempts begin when due, follow the retry schedule and stop only at expiry |
| Renewal.ThreeMoreAttempts | agent/identity/renew.go:124-187 | A failure with at least 120 s left is followed by at least three more attempts |
| Renewal.Spacing | agent/identity/renew.go:124-187 | Attempts are 30 s to 1 h apart |
| Renewal.AttemptsBounded | agent/identity/renew.go:149-187 | The attempts before expiry number at most one per 30 s left at the first and at least one per hour of it |
| PullMarker.DecodeEncode | agent/driver/driver.go:83-121 | Decoding undoes encoding for every byte string, in the alphabet of section 6 of RFC 4648, lower case and unpadded |
| PullMarker.EncodeIs | agent/driver/driver.go:83-103 | Each character of the code is the letter of its digit in the alphabet a to z, 2 to 7 |
| PullMarker.DigitsAreBase32 | agent/driver/driver.go:83-103 | The digits are the base-32 digits of the bytes, read as one number and shifted to fill the last digit |
| PullMarker.AcceptsUpTo151 | agent/driver/driver.go:94-103 | A marker exists exactly for a legal application id and 1 to 151 bytes |
| PullMarker.MarkerRoundTrip | agent/driver/driver.go:94-121 | Every marker parses back to exactly its application and source, and its name uses legal characters |
| PullMarker.MarkersDistinct | agent/driver/driver.go:94-121 | Distinct pairs get distinct markers |
| Histogram.LatencySlot | agent/metrics/bucket.go:197-204 | The first bound that holds the duration, or the overflow slot |
| Histogram.MergeHistograms | core/domain/metrics.go:170-182 | Element-wise sum, in place when the destination is long enough and in a grown copy otherwise |
| Histogram.MergeLosesNothing | core/domain/metrics.go:170-182 | However durations are split into buckets, the merged histogram is the histogram of all of them |
| Histogram.Percentile | core/domain/metrics.go:145-165 | The two loops compute the percentile of the histogram, of any length |
| Histogram.PercentileExact | core/domain/metrics.go:145-182 | The percentile of merged histograms is the least bound with at least fraction p of the durations at or below it, the last finite bound if there is none, and zero for no durations |
| PathTable.Bucket.AddRequest | agent/metrics/bucket.go:129-179 | Adds one request to one resource and to no other, so that the counters of each resource are always those of its own requests |
| RequestCounts.StatusCounts | agent/metrics/bucket.go:129-156 | After any requests: requests, redirects, 2xx, 3xx, 4xx and 5xx are the numbers of the requests of that kind, redirects apart, and the bytes their sum |
| RequestCounts.RateIsLargest | agent/metrics/bucket.go:137-139 | The sample rate kept is the largest seen and at least one |
| RequestCounts.SlotCounts | agent/metrics/bucket.go:156-157 | Each latency slot counts the requests above the bound before it and not above its own |
| RequestCounts.CapHitIff | agent/metrics/bucket.go:160-173 | The cap is hit exactly when the requests have more than 200 distinct paths; up to there exactly the paths seen have rows |
| RequestCounts.FirstCome | agent/metrics/bucket.go:160-173 | A path has a row exactly when fewer than 200 others came before its first request |
| RequestCounts.RowIsItsPath | agent/metrics/bucket.go:163-179 | Every row but the shared one counts all requests of its path, in each measure, and no other |
| RequestCounts.OtherRowIsTheRest | agent/metrics/bucket.go:165-179 | The shared row counts exactly the requests whose path has no row |
| PathTable.TableShape | agent/metrics/bucket.go:160-173 | The table holds at most 200 rows, or 201 with "(other)" among them |
| PathTable.TableConserves | agent/metrics/bucket.go:129-179 | However the table is ranged over, its rows add up to the non-redirect requests with a path, for requests, 5xx and each latency slot |
| PathTable.TotalsCount | agent/metrics/bucket.go:129-158 | The resource's totals count every non-redirect request |
| PathTable.SelectTop | agent/metrics/collector.go:563-579 | The partial selection permutes the rows in place and puts the largest first |
| PathTable.TopPaths | agent/metrics/collector.go:563-595 | The rows, ranked, or the busiest twenty and one "(other)" row that holds exactly the rest |
| PathTable.CutConserves | agent/metrics/collector.go:563-595 | Whatever may be published adds up to the table, in as many rows or in 21 |
| OtherRows.TwoOthersIff | agent/metrics/collector.go:563-595 | For every cut table with an "(other)" row of its own: every publishable cut has two rows labelled so exactly when fewer than twenty other rows have at least as many requests, and some cut has exactly when fewer than twenty have more |
| PathTable.RushPublishesTwoOthers | agent/metrics/collector.go:563-595 | Whatever is published after 202 paths once each has two such rows |
| PathTable.PublishedReconciles | agent/metrics/collector.go:563-595 | For every request sequence the published rows add up to the pathed requests, to the totals when all have a path, and every kept row is at least as large as every folded one |
| Backlog.NothingLost | agent/metrics/collector.go:192-210 | Over every run each bucket made is in exactly one of open, backlog, in flight, refused, published or dropped, and together the buckets count each item as often as it was folded in |
| Backlog.AlwaysOrdered | agent/metrics/collector.go:461-488 | The backlog has at most twelve buckets in sealing order, each dropped bucket is older than each of them, and older than those in flight unless the backlog is full |
| Backlog.SealedForever | agent/metrics/collector.go:435-488 | A sealed bucket keeps its contents and its number in every later state, and published and dropped are final |
| Backlog.InItsInterval | agent/metrics/collector.go:192-210 | Everything in a bucket was counted in the bucket's own interval |
| BacklogRuns.InsideInterval | agent/metrics/collector.go:192-193 | Whatever a bucket holds was counted between its start, a whole number of intervals after the zero time, and the next start |
| BacklogRuns.OneBucketPerInterval | agent/metrics/collector.go:192-210 | While the clock does not go back and the length stays the same, of two buckets the one made later begins later, so no interval has two |
| Backlog.NothingDroppedWithinCap | agent/metrics/collector.go:192-210 | A run in which never more than twelve buckets wait to be published drops nothing, however many publishes are refused |
| BacklogRuns.DropsOnlyTheExcess | agent/metrics/collector.go:201-207 | In every run a step that drops buckets leaves twelve: only the excess goes |
| Backlog.Collector.BucketFor | agent/metrics/collector.go:192-210 | Rotates the open bucket at a boundary and drops the oldest beyond twelve |
| Backlog.Collector.SealIfDue | agent/metrics/collector.go:461-488 | Undisturbed, it publishes what the bus accepts, puts the rest back in order and drops nothing more |
| Cron.NeverTwiceAtOnce | agent/cron/cron.go:149-181 | However Syncs, passes and completions interleave, a task id never executes twice at once |
| Cron.OccurrenceBetween | agent/cron/cron.go:149-171 | Two consecutive firings of one entry have a scheduled occurrence after the first and no later than the second, exactly when the schedule still has one |
| Cron.UnchangedKeepsEntry | agent/cron/cron.go:90-130 | A task that every Sync lists unchanged keeps one entry, and all its firings are that entry's, although Syncs swap the map while passes advance entries |
| Cron.UnchangedFiresOnOccurrences | agent/cron/cron.go:90-181 | Between two consecutive firings of such a task there is an occurrence exactly when the schedule still has one |
| CronFires.FiresIff | agent/cron/cron.go:149-171 | In every run a pass fires an armed task exactly when no execution of it is under way and an occurrence came after its entry's last firing, or its arming, and no later than the pass, or the schedule has none ahead |
| CronFires.SyncArms | agent/cron/cron.go:90-118 | In every run, whatever comes between its sections, a finished Sync has armed exactly the listed tasks that parse or were armed just so, each as last listed |
| Cron.DeadScheduleFiresEveryPass | agent/cron/cron.go:149-171 | A schedule with no occurrence ahead is due on every pass |
| Cron.EditedTaskFiresTwice | agent/cron/cron.go:90-118 | A run in which an edited task fires twice for one occurrence |
| Cron.RearmedOccurrence | agent/cron/cron.go:90-171 | Consecutive firings of a task by different entries: the second fires for an occurrence after the clock reading of the Sync that armed it, so there is one after the first firing whenever that one is, and in any case when the Sync read the clock no earlier than the first firing |
| CronRunner.Runner.FireDue | agent/cron/cron.go:149-171 | Collects each due task exactly once and moves the shared entries as the machine does |
| CronRunner.Runner.MatchNext | agent/cron/cron.go:90-130 | An unchanged task keeps its entry object, any other gets a new one or is skipped, as the machine does |
| CronRunner.Runner.Finish | agent/cron/cron.go:176-182 | The end of an execution frees the task id |
| CronRunner.Runner.SyncAll | agent/cron/cron.go:90-118 | An undisturbed Sync is one begin, one match per task and one swap |
| Dns.TouchesOnlyItsOwn | core/dns/reconcile.go:248-293 | Over every run, whatever record the reconciler changes or removes is stored on the row it converges and was created by it or adopted when the record found was the one wanted |
| Dns.RowsGoLast | core/dns/reconcile.go:249-261 | A row disappears only when it stores a record id whose record is gone from the provider |
| Dns.NoOrphans | core/dns/reconcile.go:286-293 | With no cut between a create and its mark, every created record that still exists is stored on a row or about to be |
| Dns.NeverUpdates | core/store/queries/dns.sql:98-108 | The update branch is never reached |
| Dns.NeverConvergedAgain | core/store/queries/dns.sql:98-117 | A row that stores an id and is present, or absent with no next attempt, is never converged again until it is tombstoned while present |
| Dns.ContentChangeIsLost | core/store/queries/dns.sql:98-117 | For every row that stores a record id and every new content, the row wants it and the record at the provider stays as it was, over every run until the row is tombstoned or somebody edits the record |
| Dns.TombstoneDuringCreateLeaks | core/store/queries/dns.sql:110-117 | For every run in which a row is tombstoned before the mark of its record, the record stays at the provider and the row absent, over every run until its name is wanted again or somebody edits the record |
| Dns.MarkSettles | core/store/queries/dns.sql:110-117 | Marking settles the row, whatever became of it since it was listed |
| Dns.SettledForGood | core/dns/reconcile.go:248-293 | No step of any run touches a settled row's record id or its record |
| DnsConverge.ReapableIff | core/dns/reconcile.go:249-261 | For every reachable tombstone that stores a record id: some continuation in which its name is not wanted again removes the record and then the row, exactly when it is not settled |
| DnsConverge.PutAwayIff | core/dns/reconcile.go:248-309 | A step puts a tombstone out of reach exactly when it is the mark of its record or the eighth failure of its turn |
| DnsConverge.WantedIsDue | core/dns/reconcile.go:190-245 | Whatever its attempts so far, a row that the first half of a sweep upserts and nothing after buries is due in that sweep while it stores no id |
| DnsBackoff.BackoffIs | core/dns/reconcile.go:28-34 | Thirty seconds, doubled with each attempt, at most an hour |
| DnsBackoff.QuietUntilDue | core/dns/reconcile.go:298-309 | In every run a row whose n-th failure, n below eight, is recorded is touched by nothing and taken up by no list until its backoff is over, unless it is derived or tombstoned anew, and is due from then on |
| DnsWanted.AppearsIff | core/dns/reconcile.go:248-293 | For every reachable present row: some sweeper-only continuation makes the record it stores the wanted one, exactly when it already is, or the row stores none, has a next attempt, and the zone holds the wanted record, or every record under the name belongs to a tombstone that can still be reaped, or the create with that content is next |
| DnsRoutes.ChangeAfterMark | core/dns/reconcile.go:264-293 | An address changed after the mark is lost |
| DnsRoutes.ChangeWhileQueued | core/dns/reconcile.go:264-293 | An address changed while the row is queued for its creation is lost |
| DnsRoutes.TombstoneBeforeMark | core/dns/reconcile.go:286-293 | A tombstone before the mark leaves the record behind |
| DnsRoutes.RefusedToTheEnd | core/dns/reconcile.go:298-309 | From every idle state with a tombstone, deletes refused to the last attempt leave its record behind |
| DnsRoutes.TombstoneAfterMark | core/dns/reconcile.go:248-293 | A tombstone of a created record reaches such a state |
| DnsSweeper.Sweeper.Converge | core/dns/reconcile.go:248-293 | Converges the head row by the source's calls, through machine states only; an error leaves it at the head |
| DnsSweeper.Sweeper.Fail | core/dns/reconcile.go:298-309 | Counts the attempt, sets the next one after the backoff unless it was the eighth, and moves on to the next row |
| DnsSweeper.Sweeper.SweepDue | core/dns/reconcile.go:190-223 | Derives and reaps, lists at most fifty due rows, all of them if they are fewer, and gives every listed row exactly one turn in order; every wanted row without an id is among them |
| DnsSweeper.Sweeper.ListDue | core/store/queries/dns.sql:98-107 | Due rows, each once and at most fifty; all of them if they are fewer |
| Alerts.Evaluate | core/alerts/alerts.go:142-166 | Breached exactly when the window is whole and all above, clear exactly when whole and all below, never both; the peak is the largest value or zero |
| Alerts.ThreeAnHour | core/alerts/alerts.go:291-337 | Over every run any closed hour has at most three delivered firings, plus one for each whose count could not be read |
| AlertRuns.SentIff | core/alerts/alerts.go:303-337 | For every run and every breach outside firing whose count is read and whose writes succeed: it opens an episode, sent exactly when fewer than three began within the last hour and every return to fine is at least fifteen minutes and twice the window ago; the rule flaps exactly when three or more began |
| AlertRuns.HeldIff | core/domain/alert.go:203-209 | The hold is over exactly when every return to fine is at least fifteen minutes and twice the window ago |
| AlertRuns.SettlesIff | core/alerts/alerts.go:339-346 | A flapping rule settles at an all-clear exactly when its last breach is an hour old, and is otherwise left as it is |
| AlertRuns.RecoveryCloses | core/alerts/alerts.go:339-357 | A rule that fires or sees no data is fine at the first all-clear; its newest open episode is closed then and no other changes |
| AlertRuns.PeakOfFiring | core/alerts/alerts.go:291-301 | While a rule fires every reading since its episode began was a breach, and the episode's peak is the largest of them |
| AlertRuns.NoticeIff | core/alerts/alerts.go:269-282 | An unknown reading gives notice exactly when the silence is a day old and no notice of it is younger than a day |
| Alerts.UnreadCountDeliversFourth | core/alerts/alerts.go:305-309 | A run in which an unread count lets a fourth firing through within the hour |
| Alerts.NoneWhileRearming | core/alerts/alerts.go:339-364 | No firing is delivered sooner after a recorded resolve than fifteen minutes, nor than twice the window |
| Alerts.OnlyAllClearCloses | core/alerts/alerts.go:255-364 | An episode is closed by an all-clear reading, at its time, and by nothing else |
| Alerts.RecoveryWasAnnounced | core/alerts/alerts.go:339-364 | A recovery is announced for an announced firing exactly when the firing did not start inside the re-arm delay |
| Alerts.HeldFiringAnnouncesRecovery | core/alerts/alerts.go:339-364 | A run in which a firing that was held back announces its recovery |
| Alerts.FineIsResolvedIff | core/alerts/alerts.go:255-364 | While the store's writes succeed: when a rule is fine again, every episode since it was last fine with none open is resolved exactly when no breach came while it was flapping or after a gap with one open |
| Alerts.FineHasNoneOpen | core/alerts/alerts.go:255-364 | While the store's writes succeed, over a whole run without such a breach a rule that is fine has no open episode |
| Alerts.FailedWriteLeavesEpisodeOpen | core/alerts/alerts.go:314-326 | From every fine state a failed state write after the episode is opened leaves a fine rule with an episode open |
| Alerts.GapLeavesEpisodeOpen | core/alerts/alerts.go:269-364 | From every firing state a gap, a breach and an all-clear leave an episode open |
| Alerts.FlappingLeavesEpisodeOpen | core/alerts/alerts.go:291-364 | From every flapping state a breach and an all-clear do |
| Alerts.FiringIsReached | core/alerts/alerts.go:291-337 | A first breach reaches a firing state |
| Alerts.FlappingIsReached | core/alerts/alerts.go:291-337 | Three breaches and recoveries and a fourth breach reach such a state |
| Alerts.Evaluator.EvaluateRule | core/alerts/alerts.go:255-267 | One reading and the row and episode changes that follow from it |
| Alerts.Evaluator.FireTick | core/alerts/alerts.go:291-337 | Opens an episode exactly outside firing; when the count is read it is sent exactly with fewer than three episodes in the last hour and no hold in force, and the rule flaps exactly with three or more |
| Alerts.Evaluator.NoDataTick | core/alerts/alerts.go:269-289 | Enters the no-data state, or stamps and gives the notice that is due |
| Alerts.Evaluator.ResolveTick | core/alerts/alerts.go:339-364 | Closes the newest open episode and announces exactly from firing |
| Applications.GitRemoteTwice | core/applications/applications.go:850-872 | A normalised remote is accepted again unchanged |
| Applications.ShorthandGetsHttps | core/applications/applications.go:820-867 | Every host of dotted labels with a path becomes that text after "https://" |
| Applications.RelativeRefused | core/applications/applications.go:820-872 | A relative value, whose first segment has no dot, is refused |
| Applications.GitRemoteIs | core/applications/applications.go:850-872 | An accepted remote is the trimmed text, or that after "https://"; an absolute path and a named transport are kept as they are |
| Applications.ValidatedIsFixed | core/applications/applications.go:874-1061 | Re-validating an accepted application accepts it and changes nothing |
| Applications.CheckPorts | core/applications/applications.go:63-89 | Accepts exactly lists of at most 20 mappings between ports 1 and 65535 over tcp, udp or the default, with no host port twice for one protocol, and writes the default protocol in place |
| Applications.CheckVolumes | core/applications/applications.go:93-114 | Accepts exactly lists of at most 20 safe names and absolute paths, none twice |
| Applications.CheckComponent | core/applications/applications.go:803-819 | Accepts exactly lower-case segments with single separators inside |
| AppService.ValidateAndDefault | core/applications/applications.go:874-1061 | Accepts exactly the acceptable inputs and returns them with each field trimmed, normalised or defaulted as named |
| AppService.StoredAppsAreSafe | core/applications/applications.go:355-454 | After any run of creates, updates and deletes no two applications on one server hold a domain in any letter case, and more than one replica means no volume and no port |
| AppService.EmptyPatchChangesNothing | core/applications/applications.go:355-454 | An empty patch to a stored application is accepted and changes nothing |
| AppService.PatchReplacesItsSections | core/applications/applications.go:355-454 | After any run an accepted patch replaces exactly the sections it holds, in their default form, with the server as it was, and touches no other application |
| AppService.Service.CheckDomainFree | core/applications/applications.go:701-716 | Free exactly when no other application on the server holds the domain |
| AppService.Service.Create | core/applications/applications.go:227-306 | Stores the input with its defaults, field by field, exactly when it is acceptable, allowed and its domain free; no other application changes |
| AppService.Service.Update | core/applications/applications.go:355-454 | Stores each section the patch holds, in its default form, and keeps every other section and the server, exactly when the result is acceptable, allowed and its domain free; no other application changes |
| Versions.ParseText | agent/updater/version.go:40-67 | The loop over the parts reads exactly three numbers and the suffix |
| Versions.ParsersAgreeOnTags | core/agentupdates/version.go:24-50 | On every tag of the release shape both parsers read the same three numbers and suffix |
| Versions.PrintedParses | agent/updater/version.go:40-67 | Any three numbers that fit an int, printed in decimal with any suffix that does not end in a space, are read back as they are by both parsers; larger numbers are refused |
| Versions.ValidTagParses | core/agentupdates/agentupdates.go:391-396 | Every valid tag parses, the same way on both sides |
| Versions.ParsersDifferBySpace | core/agentupdates/version.go:24-28 | On any text the parsers agree, except that the agent refuses a space after the "v" |
| Versions.SpaceAfterV | core/agentupdates/version.go:24-28 | Text that is a version to the plane and none to the agent |
| Versions.Compare | agent/updater/version.go:71-92 | The major number decides, then the minor, then the patch, then a suffix below none, then the suffixes at their first difference; zero exactly for equal versions |
| Versions.DowngradeIff | agent/updater/version.go:98-105 | On release tags a step is backwards exactly when the numbers, read as one with six digits a part, are smaller, or are equal and the suffix is below |
| Versions.MajorDecides | agent/updater/version.go:98-105 | A smaller major number is below whatever else the tags hold |
| Versions.GateIff | agent/updater/updater.go:348-361 | Without the flag a tag is taken up exactly when it is spelled differently and is not below |
| Versions.BeforeTotal | core/agentupdates/version.go:52-73 | The order is irreflexive, antisymmetric and total |
| Versions.BeforeTransitive | core/agentupdates/version.go:52-73 | The order is transitive |
| Versions.TenBeforeNine | agent/updater/version.go:80-91 | rc.10 comes before rc.9 |
| Versions.EqualLengthNumbersAgree | agent/updater/version.go:80-91 | Numbered pre-releases with numbers of equal length are ordered as numbers |
| Versions.ShorterNumbersAgreeIff | agent/updater/version.go:80-91 | With numbers of different length they are exactly when the longer does not begin with smaller text |
| Versions.ConvergedNeverRefuses | core/agentupdates/agentupdates.go:201-205 | The plane's derived rollback flag is set exactly when an agent on the channel's version would call the next one a downgrade |
| AuditText.Truncate | core/audit/audit.go:428-453 | The result is well-formed and within the cap; what fits is unchanged, and otherwise it is the longest well-formed beginning that leaves room for the marker, and the marker when the cap can hold it |
| AuditText.CutAt | core/audit/audit.go:445-452 | The loop finds the longest well-formed beginning within the budget |
| AuditText.RepairValid | core/audit/audit.go:429-431 | Repaired text is well-formed by section 4 of RFC 3629 |
| AuditText.ValidIff | core/audit/audit.go:429-431 | Well-formed bytes are exactly the concatenated encodings, by section 3 of RFC 3629, of text |
| AuditText.RepairRun | core/audit/audit.go:429-431 | Each longest run of bytes that belong to no character becomes exactly one replacement character, and the text before it stays |
| AuditText.ByteLenIs | core/applications/applications.go:875-877 | The length that limits are measured in is that of the encoding |
| AuditText.RepairKeepsRunes | core/audit/audit.go:429-431 | Repair loses no character and adds none but the replacement |

## Left out

- SelfUpdate.BinaryAlwaysVetted: excludes runs that rolled back from a slot whose copy was cut or began an update during a rollback, because there the statement is false, as `SelfUpdate.CopySlotCanTear` and `SelfUpdate.OverlapCanTear` show.
- Releases.NeverLower: excludes the same runs, and speaks of versions that parse; a development build is compared with nothing.
- Backlog.SealedForever: buckets are values with a number, so a write through a shared pointer after sealing could not show; every write in the source is made under the lock to the open bucket.
- Backlog.Collector.SealIfDue: no fold comes between its sections; interleaving is what the separate methods and the machine are for.
- CronRunner.Runner.SyncAll: the same, for Sync.
- Alerts.ThreeAnHour: counts firings handed to the notifier; whether the notifier delivers them is not modelled.
- Cron.OccurrenceBetween: the schedule library is abstract; it is taken to return the first occurrence after a time, or the zero time when there is none within its search limit.
- SignIn.Throttle: does not say that the wait frees a key that holds more than max failures, because it need not; `RateLimit.RetryExact` says when it does.
- AlertRuns.SentIff: takes a clock that does not go back; episodes are kept in opening order, which then is the order of their start times.
- Dns.NoOrphans: speaks of runs in which no create loses its answer, its mark or the process before the mark; the other records are exactly the ones the history calls lost.
- AppService.StoredAppsAreSafe: creates and updates do not overlap; the domain check and the write are two statements with no constraint behind them.
- float64 rounding, and overflow of uint64, int64 and uint32 counters.
- Cryptography: digests, signatures and certificates are abstract predicates.
- Fetching and parsing release manifests, the jitter and quiet wait before an update, the status fields and the rolled-back note.
- How Recover is wired: agent/cmd/cypher-agent/main.go:141-160 calls it after the identity is loaded.
- Non-ASCII upper-casing in ParsePullMarker, and JSON and protobuf encodings.
- Container samples, disk readings and host totals inside a bucket, and the access-log sampling rate.
- Which zone a host belongs to, domain verification, the order of the due list, and two sweepers at once.
- Disk, memory and latency series behind an alert's values, and the texts of its messages.
- The inbox notice on entering flapping.
- The messages of validation errors; environment, installation, registry and server checks are one answer from outside.
- Promote's gate, artifact bases and the panel-version check of a channel.
- The audit log's sanitising of details beyond the text bound, and its retention sweep.
- Image builds, relays, streams, compose stacks, the proxy, the bus and the store-backed services: plumbing or easy members.
