# Cloud operator: verified model of its state-keeping parts

The operator runs in a Kubernetes cluster, mirrors it to a server, brings configured objects to the
cluster and collects flow records from node logs. This project models the parts of it that keep
state over time, and proves what each of them is for.

- **Log tailing** (`LogLines`, `ActiveRead`, `LogReader`, `Rotation`, `RotationName`, `Tailing`,
  `TailingPremises`, `Poller`). A poller reads an append-only node log that is rotated, compressed,
  pruned and sometimes replaced under it. `Tailing` is the protocol as a machine of atomic steps,
  with safety over every run; the classes of `Poller` and `LogReader` follow the collector's control
  flow, and a ghost trace shows that a poll is a run of that machine. `ActiveRead.Read` is a closed
  form of one read of the active file that mentions neither chunks nor buffers.
- **Desired and actual state** (`CacheKey`, `ObjectCache`, `ConfigStream`, `WatchModel`, `Watcher`,
  `Reconciler`, `Convergence`, `Settling`). Two caches with one-slot notification channels, fed by a
  snapshot-then-mutations stream and by a list and watch of the cluster, and a reconciler between
  them. `Convergence` is the whole as a machine of atomic steps; `Settling` shows that, left alone,
  it always comes to rest.
- **Flow cache** (`FlowModel`, `FlowCache`): a map and a queue sorted by start time, with eviction by
  capacity and by expiry.
- **Log buffer** (`LogBuffer`) and **retry loop** (`Retry`).

Where the source changes things in place the model is a class or a method with loops, proved against
a function or a predicate on values; the lemmas are about those. What the environment decides
(chunking, failures, which branch of a select is taken, map iteration order) is a parameter or a
nondeterministic choice, so every theorem holds for all of it. Failures it causes are counted in ghost
fields (failed requests, refused records, cancelled senders), so that contracts can say that an
operation fails for no other reason.

## Premises

- Log tailing: `Tailing.Orderly` says what a run must respect for no record to be lost silently: no
  rotation falls between listing the directory and reading the active file; the generation behind
  the checkpoint is still listed; a file that was replaced in place is read before it is rotated and
  does not repeat the old record at the old offset. `TailingPremises` gives a losing run for each.
  `Tailing.Undisturbed` says what else is needed for exactly-once: no failure with output, no
  pruning, records of the active file shorter than the overlap, honest answers to range requests.
  The latter are those of sections 14.2, 15.3.7 and 15.5.17 of RFC 9110: a range is honoured,
  ignored (200), or refused (416) when it begins past the end.
- Rotation IDs are timestamps that strictly increase, a generation keeps its content, and no other
  name in the log directory reads like a generation's. MD5 is an uninterpreted function.
- A watch delivers the events after the version it was opened with, in order; versions increase and
  are not empty. Server-side apply is idealised: the cluster then holds exactly the applied object,
  and a change is an event of the watch. The `cluster` of `Convergence` is the part that the operator
  manages or mirrors, which is what list and watch let through (`Watchers`, `WatchModel`).

## Findings

- Records are compared without a trailing carriage return and without empty ones: rotated files are
  read through `bufio.Scanner`, which drops both, while the active file keeps them
  (`internal/controller/stream/flows/awsautomode/client.go:404-432`). A record over 1 MiB of the
  active file is handed over empty.
- A rotated file with a line that is longer than 1 MiB together with its newline fails every poll
  until it is pruned, and only such a line keeps the checkpoint where it is:
  `TailingPremises.StopsIffOverlong`, with a run that gets there, `TailingPremises.ReachesOverlong`.
  A last line of just 1 MiB without a newline may go either way, as the scanner may or may not have
  seen the end of the file by then.
- A log replaced in place and rotated before the next poll loses its beginning silently
  (`TailingPremises.RotatedWhileStale`), as the offset is applied to a rotated file unchecked. So
  does one whose new content has the same record at the same offset
  (`TailingPremises.SameBoundaryRecord`).
- For a base name whose extension is ".gz", and only then, an uncompressed generation is not
  recognised (`RotationName.RoundTrip`).
- The number of flows lost when the flow cache is cancelled has no fixed bound: after cancellation
  the event loop may still choose its timer, and each interrupted sweep drops a flow
  (`FlowModel.NoFixedBound`; `FlowModel.LossesAreExact` counts them).
- A flow cache that is run again with flows still in it waits a full timeout before its first sweep
  (`internal/controller/stream/flows/cache/cache.go:66`). It keeps expired flows until then exactly if
  the oldest of them started before the loop was begun (`FlowModel.BegunInTime`, with the input
  `FlowModel.RestartsLate`).
- Log entries overtake buffered ones exactly when one is sent past a buffer that the flush before it
  did not empty (`LogModel.OrderIsExact`). That happens if a failed Send is followed by one that
  succeeds, or if the connection stops being ready between a write and the flush inside it
  (`LogModel.OvertakesAfterFailure`, `LogModel.OvertakesUnstable`), and not otherwise
  (`LogModel.RunInOrder`).
- The retry loop resets its count before it reports it, so the error of a loop that gives up always
  says "failed 0 times" (`internal/controller/stream/retry.go:117-119`).
- A snapshot whose takeover is cancelled is in the cache all the same, but not announced
  (`internal/controller/stream/config/cache/cache.go:103-117`, `ObjectCaches.ObjectCache.ReplaceAll`);
  it may even have discarded the announcement of an earlier change
  (`CacheModel.CancelledReplacementLoses`).

## Model

| member | source | states |
|---|---|---|
| LogReader.ScanRecord | internal/controller/stream/flows/awsautomode/logreader.go:178-220 | for every chunking and buffer size: the bytes up to the next newline, all of them if they are at most 1 MiB and none otherwise, the exact number consumed, whether a newline was seen, and the error only without one |
| LogReader.ApplyRecord | internal/controller/stream/flows/awsautomode/logreader.go:117-166 | keeps the account of a read: emitted are exactly the complete lines after the offset so far, nothing before the boundary record was confirmed; stops only if the file is not a continuation, having emitted nothing |
| LogReader.StreamActive | internal/controller/stream/flows/awsautomode/logreader.go:59-110 | a complete read is exactly `Read`: all complete lines after the offset in order, offset and digest of the last, observed size; or a reset that emitted nothing; a body that breaks off succeeds only with a reset it has seen enough to conclude; it fails only if a record was refused or the body broke off |
| LogReader.ConclusiveReset | internal/controller/stream/flows/awsautomode/logreader.go:140-154 | a reset concluded from a body that broke off holds for the whole file |
| LogReader.FullyRead | internal/controller/stream/flows/awsautomode/logreader.go:96-109 | at the end of the stream the account amounts to `Read`: reset iff no complete line ends at the offset with the stored digest (other than a leading fragment) |
| ActiveRead.ContinuesIff | internal/controller/stream/flows/awsautomode/logreader.go:117-166 | a read goes on iff the offset is 0 or some line, not the leading fragment of a ranged body, ends exactly at the offset and has the stored digest |
| ActiveRead.ReadGives | internal/controller/stream/flows/awsautomode/logreader.go:59-110 | then it gives the lines up to the last newline, which joined are the bytes after the offset, each in full if at most 1 MiB and empty otherwise, where the last ends, its digest and the file size |
| ActiveRead.RangedRefinesWhole | internal/controller/stream/flows/awsautomode/client.go:453-491 | a ranged body that does not reset gives the same records, offset, digest and size as the whole file; it continues iff the whole file does and a newline precedes the boundary record inside the body |
| ActiveRead.OverlapSuffices | internal/controller/stream/flows/awsautomode/client.go:50-56 | a boundary record shorter than the overlap is always re-validated by the ranged read |
| LogLines.LinesOfPrefix | internal/controller/stream/flows/awsautomode/logreader.go:25-29 | appending to a file changes no record that was complete, so a trailing partial line can be left for the next read |
| LogLines.LinesAre | internal/controller/stream/flows/awsautomode/logreader.go:168-172 | lines hold no newline, and joined by newlines they are the bytes up to the last one |
| Rotation.SortRotations | internal/controller/stream/flows/awsautomode/rotation.go:130-134 | sorted strictly by ID, the same files |
| Rotation.DedupRotations | internal/controller/stream/flows/awsautomode/rotation.go:100-126 | one file for each listed ID, uncompressed if one is listed, for every order of the listing and of map iteration |
| Rotation.UnseenRotations | internal/controller/stream/flows/awsautomode/rotation.go:139-151 | strictly increasing, one preferred file for exactly the listed IDs after the last one |
| Rotation.NewestRotationID | internal/controller/stream/flows/awsautomode/rotation.go:155-162 | a listed ID that no listed ID exceeds, or empty |
| Rotation.FindRotationByID | internal/controller/stream/flows/awsautomode/rotation.go:167-175 | found iff listed, the preferred file of that ID |
| Rotation.Resumable | internal/controller/stream/flows/awsautomode/rotation.go:136-151 | after committing the i-th unseen generation, exactly the later ones are unseen |
| Rotation.UnseenUnique | internal/controller/stream/flows/awsautomode/rotation.go:95-126 | the unseen files do not depend on the order of the listing |
| Rotation.NothingAfterNewest | internal/controller/stream/flows/awsautomode/client.go:232-242 | bootstrapping at the newest ID leaves nothing unseen |
| RotationName.ParseFormat | internal/controller/stream/flows/awsautomode/rotation.go:14 | every valid timestamp is parsed back from its format |
| RotationName.FormatExample | internal/controller/stream/flows/awsautomode/rotation.go:14 | a timestamp prints as its layout says, by example |
| RotationName.ValidIs | internal/controller/stream/flows/awsautomode/rotation.go:14 | the timestamps are all dates of the calendar with all times of the day to the millisecond |
| RotationName.FormatParse | internal/controller/stream/flows/awsautomode/rotation.go:14 | whatever parses is the format of what it is parsed to |
| RotationName.FormatOrder | internal/controller/stream/flows/awsautomode/rotation.go:128-134 | string order of IDs is chronological order, both ways |
| RotationName.RoundTrip | internal/controller/stream/flows/awsautomode/rotation.go:37-89 | a generation's name parses to its ID and compression for every base name, and exactly how this fails for the extension ".gz" |
| RotationName.OnlyGenerations | internal/controller/stream/flows/awsautomode/rotation.go:55-89 | only names of generations parse, and to the timestamp and compression they were made from |
| RotationName.NamesDiffer | internal/controller/stream/flows/awsautomode/rotation.go:46-54 | different generations or compressions have different names |
| RotationName.ActiveRejected | internal/controller/stream/flows/awsautomode/rotation.go:46-54 | the name of the active file never parses |
| Poller.NameExample | internal/controller/stream/flows/awsautomode/rotation.go:50-54 | the plain and the compressed name of a generation parse as documented, by example |
| Tailing.NoSilentLoss | internal/controller/stream/flows/awsautomode/client.go:187-191 | over every orderly run, with any failures, resets and replacements: every record behind the checkpoint was handed over, in order, or lies in a generation reported as a gap |
| Tailing.ExactlyOnce | internal/controller/stream/flows/awsautomode/client.go:191-491 | over every orderly and undisturbed run, what was handed over since the first poll is exactly what lies behind the checkpoint, in order, each record once |
| Tailing.CaughtUp | internal/controller/stream/flows/awsautomode/client.go:191-491 | a run that ends with a successful read has handed over every generation since the first poll and all complete lines of the active file, exactly once |
| Tailing.EverythingIsAllLines | internal/controller/stream/flows/awsautomode/client.go:191-491 | of logs without empty, overlong or carriage-return-terminated lines, what a calm run has delivered is all their lines as they are |
| Tailing.NeverDiverges | internal/controller/stream/flows/awsautomode/client.go:453-491 | a file that is only appended to is never taken for a replaced one, however the server answers the range request |
| Tailing.CommittedOnce | internal/controller/stream/flows/awsautomode/client.go:266-311 | generations are committed in increasing order, none twice |
| Tailing.TruncateKeeps | internal/controller/stream/flows/awsautomode/client.go:445-451 | replacing the active file in place, in any way, loses nothing of the generations behind the checkpoint |
| Tailing.AnythingMayHappen | internal/controller/stream/flows/awsautomode/client.go:185-191 | appending, replacing, rotating, compressing, pruning and failing are possible at any time |
| TailingPremises.PrunedTooEarly | internal/controller/stream/flows/awsautomode/client.go:276-287 | a concrete run that loses a record silently because the generation behind the checkpoint was no longer listed |
| TailingPremises.RotatedInsidePoll | internal/controller/stream/flows/awsautomode/client.go:202-219 | a concrete run that loses a record silently because of a rotation between list and fetch |
| TailingPremises.RotatedWhileStale | internal/controller/stream/flows/awsautomode/client.go:276-287 | a concrete run that loses a record silently because a replaced file was rotated before it was read |
| TailingPremises.SameBoundaryRecord | internal/controller/stream/flows/awsautomode/logreader.go:140-149 | a concrete run that loses a record silently because a replaced file has the same record at the same offset |
| TailingPremises.StopsIffOverlong | internal/controller/stream/flows/awsautomode/client.go:404-432 | the checkpoint stays at a generation in every orderly run that does not prune it iff the generation still has a line that with its newline exceeds the scanner's buffer |
| TailingPremises.ReachesOverlong | internal/controller/stream/flows/awsautomode/client.go:404-407 | a concrete run (append a line of just 1 MiB, rotate) that gets there |
| Poller.CheckpointStore.Get | internal/controller/stream/flows/awsautomode/checkpoint.go:84-95 | the stored checkpoint, or a zero one that is then stored; nothing else changes |
| Poller.CheckpointStore.Set | internal/controller/stream/flows/awsautomode/checkpoint.go:100-105 | stores exactly this checkpoint |
| Poller.CheckpointStore.Retain | internal/controller/stream/flows/awsautomode/checkpoint.go:109-126 | drops exactly the nodes that are gone and names them; the others keep their progress |
| Poller.ProcessReader | internal/controller/stream/flows/awsautomode/client.go:404-439 | success hands over exactly the non-empty lines from the offset on, of a clean stream whose lines all fit; of a clean stream whose lines surely fit it fails only if a record is refused |
| Poller.LineScanner.Scan | internal/controller/stream/flows/awsautomode/client.go:404-408 | the next line without one carriage return, with its newline within the buffer; no error on a clean stream whose lines surely fit |
| Poller.AutoModeClient.List | internal/controller/stream/flows/awsautomode/fetcher.go:234-265 | the parsed names are exactly the files of the generations present, whatever else is in the directory |
| Poller.Locate | internal/controller/stream/flows/awsautomode/client.go:207-209 | the unseen files are, in order, generations from the checkpoint on; all of them if none was pruned |
| Poller.AutoModeClient.OpenGeneration | internal/controller/stream/flows/awsautomode/client.go:336-372 | opens the right generation though it may be compressed meanwhile; a gap is reported only for a generation that is gone; it fails only if a request failed or broke off or a file vanished |
| Poller.AutoModeClient.RecoverRotatedFile | internal/controller/stream/flows/awsautomode/client.go:336-398 | recovered: exactly the records from the offset on were handed over; a gap: none, and the generation is gone; a failure has a cause: a request, a refused record or a line that need not fit |
| Poller.AutoModeClient.ReadActiveOnce | internal/controller/stream/flows/awsautomode/client.go:497-551 | success is `Read` of the file as it was when fetched, or a reset with nothing handed over; failure means that the request failed or broke off or a record was refused |
| Poller.AutoModeClient.ProcessActive | internal/controller/stream/flows/awsautomode/client.go:453-491 | asks for the tail from one overlap before the offset, and for the whole file iff that was a reset; yields the checkpoint of a protocol step whose records are those handed over; fails only for a cause |
| Poller.AutoModeClient.BootstrapNode | internal/controller/stream/flows/awsautomode/client.go:236-264 | starts after all listed generations; a failure leaves the node unknown |
| Poller.AutoModeClient.DrainRotations | internal/controller/stream/flows/awsautomode/client.go:273-311 | commits generation after generation in order, the first from the stored offset; a failure keeps what was committed and has a cause |
| Poller.AutoModeClient.RecoverRotations | internal/controller/stream/flows/awsautomode/client.go:273-323 | drains the unseen generations, then reads the active file; the checkpoint's rotation ID never goes back |
| Poller.AutoModeClient.PollNode | internal/controller/stream/flows/awsautomode/client.go:191-230 | one poll against a changing directory is a run of the protocol, orderly under the stated premises; then nothing is lost silently, and a successful undisturbed one has delivered everything exactly once; it fails only if a request failed or broke off, a file vanished, a record was refused or a line need not fit, so a calm poll succeeds |
| CacheKeys.CacheKeyInjective | internal/convert/policy.go:101-106 | equal keys iff equal kind, namespace and name |
| CacheKeys.CacheKeyIsNotAll | internal/convert/policy.go:101-106 | no key is the notification for every key |
| ConfigProtocol.KeyIsIdentity | internal/convert/policy.go:109-116 | objects of supported kinds share a key only if they are the same object |
| CacheModel.NoLostWakeup | internal/controller/stream/config/cache/cache.go:103-181 | in every run of producers and consumer without a cancelled sender, a key whose value is not what the consumer last read is announced or still owed a look |
| CacheModel.ProducersKeepNotified | internal/controller/stream/config/cache/cache.go:122-140 | no step of a producer loses an announcement, though a replacement discards queued keys |
| CacheModel.CancelledReplacementLoses | internal/controller/stream/config/cache/cache.go:131-140 | a concrete run in which a replacement discards a queued key and is then cancelled, so that nothing announces the change |
| CacheModel.ReplaceNeverWaits | internal/controller/stream/config/cache/cache.go:122-140 | a replacement can always send or drain, and after a drain it can send |
| ObjectCaches.ObjectCache.Insert | internal/controller/stream/config/cache/cache.go:147-162 | stores the object; a change is queued or already received unless cancelled, and no change is announced otherwise; an error means a cancellation |
| ObjectCaches.ObjectCache.Delete | internal/controller/stream/config/cache/cache.go:166-181 | removes the object; announced iff it was there; an error means a cancellation |
| ObjectCaches.ObjectCache.ReplaceAll | internal/controller/stream/config/cache/cache.go:103-143 | takes the caller's map over, becomes ready, and ends with the announcement queued or received, without the consumer's help; it fails only if cancelled, and then has taken the map over and announced nothing, and at most what was queued before was received |
| ConfigClients.ConfigClient.HandleUpdate | internal/controller/stream/config/client.go:79-164 | refuses exactly objects and ends of a snapshot after its end, mutations before it, and unknown messages; the cache stays a replay of the last completed snapshot |
| ConfigClients.ConfigClient.HandleData | internal/controller/stream/config/client.go:84-102 | puts the object under its key into the pending snapshot, unless its kind is not supported |
| ConfigClients.ConfigClient.HandleMutation | internal/controller/stream/config/client.go:182-208 | stores or removes the object under its key, even if the announcement is cancelled; only then is there an error |
| ConfigClients.ConfigClient.HandleComplete | internal/controller/stream/config/client.go:110-124 | the snapshot's map becomes the cache's own, never to be written as a snapshot again |
| ConfigClients.ConfigClient.Run | internal/controller/stream/config/client.go:43-75 | accepts the longest prefix that is in order, or a shorter one only if an announcement was cancelled; before the snapshot is complete the cache does not change |
| ConfigClients.ConfigClient.Connections | internal/controller/stream/config/client.go:43-164 | across any connections, each accepting the longest prefix in order unless cancelled, the cache is what looking back gives: the last connection that completed its snapshot, the last message about each key |
| WatchModel.MirrorIs | internal/controller/stream/resources/client.go:332-382 | the mirror holds exactly the keys adopted and not deleted since, each with the last value seen |
| WatchModel.KeysAreIndependent | internal/controller/stream/resources/client.go:193-202 | a key depends on its own events alone, so the interleaving of watches is immaterial |
| WatchModel.AnyInterleaving | internal/controller/stream/resources/client.go:186-194 | if the events of a key come in its own watch's order among those of the others, its entry is as if that watch were alone |
| WatchModel.HandOver | internal/controller/stream/resources/client.go:161-202 | a list that shows its objects as they are at its version, and every event after it, mirror exactly the objects listed or seen to be managed since, as they are now |
| WatchModel.ManagedHandOver | internal/controller/stream/resources/client.go:161-202 | an object listed whenever it is there and always managed is mirrored exactly |
| WatchModel.PositionAfter | internal/controller/stream/resources/watcher.go:254-256 | resuming at an event's version goes on with the next event |
| Watchers.SnapshotIs | internal/controller/stream/resources/client.go:332-382 | the snapshot holds an object iff it is listed, converts, is of a supported kind, and is managed or was mirrored |
| Watchers.Watcher.List | internal/controller/stream/resources/watcher.go:145-201 | sends every object that converts, in order, and sets aside that snapshot; it fails only if a send does, having sent the objects before |
| Watchers.ConvertedIs | internal/controller/stream/resources/watcher.go:162-185 | what is sent is exactly what converts |
| Watchers.Watcher.HandleRuntime | internal/controller/stream/resources/client.go:332-382 | changes the runtime cache as the mirror prescribes for one event, ignoring what is neither managed nor mirrored; a changed entry is announced unless cancelled, and only then is there an error |
| Watchers.Watcher.ProcessMutation | internal/controller/stream/resources/watcher.go:420-444 | sends exactly this event's mutation and mirrors it |
| Watchers.Watcher.WatchEvents | internal/controller/stream/resources/watcher.go:204-276 | over any closes, errors, bookmarks and conversion failures, exactly the events from the list version to the last version were sent and mirrored, in order, once each: as many as were taken; the watch is opened again whenever it is over and at no other time, and the loop ends only when the version has expired, a watch is refused or the context is done |
| Watchers.Watcher.Run | internal/controller/stream/resources/client.go:110-202 | list, hand-over and watch: when the list shows the cluster at its version, the runtime cache is the managed or adopted part of the cluster at the last version: no object is in it that the operator has no claim to, and what is listed as managed is; the events in between were sent once each; it fails only if a send or the hand-over does |
| Reconciling.Reconciler.ReconcileObject | internal/controller/reconciler/reconciler.go:171-190 | at most one call, exactly if the entries differ and it can be made; no other key is touched |
| Reconciling.Reconciler.ReconcileAll | internal/controller/reconciler/reconciler.go:195-220 | exactly one call for each differing key that can be called for, in any order of keys; each key ends as its own answer decides; the errors are exactly the keys that failed |
| Reconciling.CallsAre | internal/controller/reconciler/reconciler.go:171-190 | an object is applied iff it is configured and not in the runtime cache like that, and deleted iff it is in the runtime cache and not configured |
| Reconciling.OutcomeIs | internal/controller/reconciler/reconciler.go:171-190 | a key becomes as configured if its call is accepted, and stays as it is without a call or if that has no effect |
| Reconciling.Reconciler.ProcessResourceChange | internal/controller/reconciler/reconciler.go:154-166 | reconciles exactly the keys a notification covers |
| Reconciling.OrderIsImmaterial | internal/controller/reconciler/reconciler.go:211-217 | any two passes over the same caches make the same calls |
| Reconciling.OnePassSuffices | internal/controller/reconciler/reconciler.go:192-220 | if every call is accepted and the runtime cache mirrored the cluster, the cluster is as configured and another pass makes no call |
| Convergence.RunInvariant | internal/controller/reconciler/reconciler.go:58-220 | in every run: a key on which the caches differ is announced, attended to or lost, or an event in flight differs; and delivering all events would complete the mirror |
| Convergence.WaitsForBoth | internal/controller/reconciler/reconciler.go:86-150 | until both the configuration has completed a snapshot and the cluster has been listed, the reconciler has not started, no call is possible and the cluster is what others made of it |
| Convergence.CallsAre | internal/controller/reconciler/reconciler.go:171-190 | a call is made only if the values read differ, and sets the cluster to the configured one |
| Convergence.AnythingMayHappen | internal/controller/reconciler/reconciler.go:58-122 | others may change configuration and cluster, the stream may break, a sender be cancelled and a call end in any way, at any time |
| Convergence.QuiescentAgrees | internal/controller/reconciler/reconciler.go:58-190 | at rest, configuration, mirror and cluster agree on every key not lost since the last full reconciliation began |
| Convergence.MirrorsKept | internal/controller/stream/resources/client.go:110-202 | every step, relisting included, keeps the mirror complete up to the events in flight |
| Convergence.AttendedKept | internal/controller/stream/config/cache/cache.go:103-181 | every step keeps each differing key attended to |
| Settling.OwnDescends | internal/controller/reconciler/reconciler.go:100-121 | every step of the operator on its own brings it closer to rest |
| Settling.SomeMove | internal/controller/stream/config/cache/cache.go:134-140 | there is no deadlock: short of rest some step is possible, the watch being needed only when no sender waits |
| Settling.OwnRunKeeps | internal/controller/reconciler/reconciler.go:58-122 | every sequence of the operator's own enabled steps keeps the invariant and the configuration and loses nothing more |
| Settling.Settles | internal/controller/reconciler/reconciler.go:58-122 | a sequence of own steps that cannot be extended has come to rest, with the cluster as configured on every key not lost before |
| Settling.CanSettle | internal/controller/reconciler/reconciler.go:58-122 | every sequence of own steps can be extended to one that has come to rest like that |
| Settling.NoEndlessRun | internal/controller/reconciler/reconciler.go:100-121 | no sequence of own steps goes on forever |
| Settling.StartsUp | internal/controller/reconciler/reconciler.go:58-122 | from the start, for every cluster and configuration, there is a run that ends at rest with the cluster as configured |
| Settling.TimerHeals | internal/controller/reconciler/reconciler.go:104-111 | after any run in which the periodic timer fires, own steps that cannot be extended end with every key as configured, failed and cancelled ones included |
| Settling.TimerCanHeal | internal/controller/reconciler/reconciler.go:104-111 | and there are such steps |
| FlowModel.RunValid | internal/controller/stream/flows/cache/cache.go:65-106 | in every run: sorted by start time with ties in order of acceptance, one flow per key, never over capacity |
| FlowModel.SweepIsExact | internal/controller/stream/flows/cache/cache.go:108-143 | sweeping the front finds exactly the flows at or before the cutoff |
| FlowModel.SweepOutputsExpired | internal/controller/stream/flows/cache/cache.go:108-143 | an uninterrupted sweep outputs exactly the expired flows, oldest first, and keeps the others |
| FlowModel.SweepInterrupted | internal/controller/stream/flows/cache/cache.go:108-143 | an interrupted sweep outputs the flows before the interruption, loses one and keeps the rest |
| FlowModel.EvictsMinimum | internal/controller/stream/flows/cache/cache.go:155-182 | making room outputs the flow that started first (of several, the one accepted first) and admits the new one |
| FlowModel.RunConserves | internal/controller/stream/flows/cache/cache.go:65-106 | every flow received is skipped, cached, output or lost, exactly once |
| FlowModel.LossesAreExact | internal/controller/stream/flows/cache/cache.go:131-181 | flows are lost one by each interrupted sweep and two by an interrupted arrival |
| FlowModel.NoFixedBound | internal/controller/stream/flows/cache/cache.go:75-91 | any number of cached flows can be lost to ticks after cancellation, each at its deadline |
| FlowModel.StepArms | internal/controller/stream/flows/cache/cache.go:212-226 | after a tick and after each accepted flow the timer is set to the expiry of the oldest flow |
| FlowModel.NotYetExpired | internal/controller/stream/flows/cache/cache.go:212-226 | before a timer set no later than the expiry of the oldest flow fires, no cached flow has expired |
| FlowModel.RunArms | internal/controller/stream/flows/cache/cache.go:80-104 | after every run that goes on, the timer is set to the expiry of the oldest flow iff it was so at the beginning or a tick or an accepted flow has set it |
| FlowModel.ExpiryIsExact | internal/controller/stream/flows/cache/cache.go:65-106 | no run keeps an expired flow before its timer fires iff the cache begins empty or with a timer no later than the expiry of its oldest flow |
| FlowModel.BegunInTime | internal/controller/stream/flows/cache/cache.go:65-66 | for an event loop that begins with flows cached: iff the oldest did not start before the loop |
| FlowModel.RestartsLate | internal/controller/stream/flows/cache/cache.go:65-66 | a concrete restart that keeps a flow beyond its expiry |
| FlowCacheImpl.ArrivalOnMap | internal/controller/stream/flows/cache/cache.go:92-103 | as a finite map: an arrival adds its flow under a new key, replaces nothing, and makes room by removing the minimum iff the map is full |
| FlowCacheImpl.SweepOnMap | internal/controller/stream/flows/cache/cache.go:108-143 | as a finite map: an uninterrupted sweep leaves exactly the flows that start after the cutoff |
| FlowCacheImpl.IndexSize | internal/controller/stream/flows/cache/cache.go:151-153 | the map has as many entries as the queue, so its size is what capacity is about |
| FlowCacheImpl.FlowCache.AddFlowToCache | internal/controller/stream/flows/cache/cache.go:188-210 | inserts after the last flow that does not start later, in queue and map |
| FlowCacheImpl.FlowCache.EvictExpiredFlows | internal/controller/stream/flows/cache/cache.go:108-143 | removes the expired front, outputting all of it or up to the interruption |
| FlowCacheImpl.FlowCache.EvictOldestFlow | internal/controller/stream/flows/cache/cache.go:155-182 | removes the front from queue and map, output unless interrupted |
| FlowCacheImpl.FlowCache.HandleFlow | internal/controller/stream/flows/cache/cache.go:92-103 | an arrival takes the model's step: duplicates skipped, room made, timer set |
| FlowCacheImpl.FlowCache.HandleTick | internal/controller/stream/flows/cache/cache.go:80-90 | a tick takes the model's step |
| FlowCacheImpl.FlowCache.Run | internal/controller/stream/flows/cache/cache.go:65-106 | the event loop follows the model over every sequence of choices, map and queue agreeing throughout |
| LogModel.RunConserves | internal/controller/logging/grpc_logger.go:104-237 | in every run: entries written are those sent, buffered and dropped, each once; the dropped are those counted as lost or reported; the buffer respects a capacity that never changes |
| LogModel.OrderIsExact | internal/controller/logging/grpc_logger.go:212-237 | for distinct entries, sent followed by buffered is an in-order subsequence of written iff no entry was sent past a buffer that its flush did not empty |
| LogModel.RunInOrder | internal/controller/logging/grpc_logger.go:212-237 | with sticky failures and stable readiness no entry is, so the order is kept |
| LogModel.OvertakesAfterFailure | internal/controller/logging/grpc_logger.go:222-228 | a concrete run that breaks the order when a Send succeeds after one failed |
| LogModel.OvertakesUnstable | internal/controller/logging/grpc_logger.go:219-228 | a concrete run that breaks the order when readiness changes within a write |
| LogModel.LossesWaitForReport | internal/controller/logging/grpc_logger.go:109-131 | while reports can be encoded, losses are pending only behind a full buffer, so the next flush reports them |
| LogModel.HealthyFlush | internal/controller/logging/grpc_logger.go:104-153 | a flush over a healthy stream sends everything in order and reports all losses; a report that cannot be encoded stays pending and holds nothing up |
| LogModel.HealthyWrite | internal/controller/logging/grpc_logger.go:212-237 | a write over a healthy stream sends the entry behind all that was buffered |
| LogModel.Waits | internal/controller/logging/grpc_logger.go:219-236 | without a ready connection an entry is buffered as long as there is room, and counted as lost otherwise |
| LogModel.Reconnects | internal/controller/logging/grpc_logger.go:251-257 | a new client at once gets all that was buffered |
| LogSyncer.BufferedSyncer.ShiftDown | internal/controller/logging/grpc_logger.go:146-152 | moves the unsent entries to the front in place |
| LogSyncer.BufferedSyncer.SendBuffered | internal/controller/logging/grpc_logger.go:133-152 | sends the longest prefix the stream takes and keeps exactly the rest |
| LogSyncer.BufferedSyncer.Flush | internal/controller/logging/grpc_logger.go:104-153 | takes the model's step on the shared array |
| LogSyncer.BufferedSyncer.Write | internal/controller/logging/grpc_logger.go:212-237 | takes the model's step: sent behind the buffer, buffered or counted as lost |
| LogSyncer.BufferedSyncer.UpdateClient | internal/controller/logging/grpc_logger.go:251-257 | takes the model's step on a changed client |
| Retry.Retrier.Run | internal/controller/stream/retry.go:66-123 | gives up exactly at the first attempt that ends a streak of threshold + 1 failures none but the first of which ran long, barring a stop; each wait is the promised one, between the initial and the capped exponential backoff and no less than what jitter leaves of the latter |
| Retry.NthIsStreak | internal/controller/stream/retry.go:89-106 | counting failures with resets finds exactly the streaks |
| Retry.AlwaysFailing | internal/controller/stream/retry.go:89-119 | an action that always fails at once is given up at the attempt after the threshold |
| Retry.StreaksBreak | internal/controller/stream/retry.go:73-96 | a success or a failure after a long run starts the count anew |
| Retry.SleepInBounds | internal/controller/stream/retry.go:125-135 | the wait after the j-th failure lies between the initial backoff and the capped exponential one |
| Retry.SleepGrows | internal/controller/stream/retry.go:125-135 | jitter takes off no more than its share of the capped exponential backoff, and nothing if it is zero |
| Retry.NextBackoff | internal/controller/stream/retry.go:132-133 | capping after every multiplication equals capping the power |
| Retry.Retrier.AddBackoff | internal/controller/stream/retry.go:125-135 | counts a failure, sets the jittered and clamped wait and the next backoff |

## Left out

- HTTP, gRPC, TLS, the Kubernetes client, request building and the parsing of Content-Range: a fetch is a choice among whole, ranged, refused and failed answers; the check of a range start against the largest int is not modelled.
- gzip, MD5 and `time.Parse` internals: a compressed generation has the same bytes, and only fixed-width timestamps are IDs (`time.Parse` also accepts a one-digit hour and a comma before the fraction). A compressed file still being written fails to open or breaks off.
- Parsing of flow records and the counting of flows: a sink takes records or fails.
- `pollAllNodes` (`internal/controller/stream/flows/awsautomode/client.go:118-174`): polls are per node and share only the checkpoint store.
- Replacement of the active file in place during a poll: the machine allows it at any step, the classes only between polls.
- Concurrency in the classes: they are sequential, with interference at the points where another process, producer or consumer can act; the interleavings themselves are those of the machines.
- Field-by-field converters of objects, ownership detection from managed fields (a flag of an event here) and apply-then-read-back of an object.
- Kinds that are unavailable at list time or lost while watched, and the counters and health flags of the resource stream.
- Watchers.Watcher.Run: models one watch on the cache at a time; `WatchModel.AnyInterleaving` says why interleaving several does not matter.
- `ObjectCache.Close`, `Values` and overlapping runs of the flow cache during a reconnect.
- The keepalives and the goroutine wiring of streams, and what is done with log levels.
- Rounding of durations to whole nanoseconds: waits are reals. The reset configuration, whose initial backoff exceeds its maximum, is outside `Retry.Sane`.
- `lostLogEntriesErr`, the cause named in a loss report.
