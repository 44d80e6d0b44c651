# vismod: models and proofs of its stateful core

vismod takes moderation jobs from a queue, evaluates their frames, writes one verdict per job to its sinks and
chains every decision into an audit log. This project models the protocols that carry its guarantees and proves
what holds of them over every run, not just of one call.

| files | what they model |
|---|---|
| `QueueTypes`, `Sequences` | shared values; bytes and regrouping of concatenations |
| `RedisProtocol` | the Redis driver as a transition system: one event per Redis command of one goroutine of one replica; commands may fail, take effect with the reply lost, or be followed by a crash |
| `RedisNoLoss`, `RedisConservation`, `RedisReaping`, `RedisLateReplica`, `RedisOrder`, `RedisFate`, `RedisHandlings`, `RedisRepeats`, `RedisTiming` | invariants over all interleavings of that system, and runs that show where they stop |
| `RedisPasses`, `RedisProgress` | what a worker, a mover and a reaper achieve undisturbed, and that no failed command stops them |
| `MemqProtocol`, `MemqCounters`, `MemqHandlings`, `MemqFate`, `MemqPasses`, `MemqStates` | the in-process driver: one event per channel operation or counter update of one goroutine; its bounded table of job states |
| `Fate` | the retry policy both drivers promise, free of any driver |
| `AuditEncoding`, `AuditEntry` | the bytes an audit entry is hashed over, a parser for them, and which inputs share an encoding |
| `AuditUtf8`, `AuditMinimal`, `AuditFormat` | those bytes against definitions of their own: UTF-8 by scalar values, the shortest JSON text, the layout byte by byte |
| `AuditChain`, `AuditLog`, `AuditRuns` | records, chain, anchor, append, verify, open; whole runs with crashes |
| `ResultStore`, `ResultRuns`, `ResultProgress` | the LRU/TTL job-status cache and what pollers may rely on |
| `Sinks`, `SinkMemory` | the claim set, the routed sink, the fan-out and the catch-all rule; how long a sink remembers |
| `Backpressure` | the readiness gate with hysteresis |
| `StderrScanner` | the chunked scanner on the extraction tool's error stream |
| `Moderation`, `Thresholds`, `Rollup`, `Dedup`, `Pipeline` | threshold resolution and merging, verdict roll-up, near-duplicate filtering, dispositions and their audit trail |
| `EndToEnd`, `WholeSystem` | one replica from evaluation through its sinks and its log to the ack; the queue shared by such replicas |

Objects that the program updates in place are classes whose methods are specified by functions on values
(`Store`, `Dedupe`, `Sink`, `Disk`, `Log`, `JobTable`, `Scanner`, `Gate`, `ListPair`); the run theorems are about those
functions. The two queue drivers are concurrent, so they are transition systems with a program counter per goroutine.

How the hardest results are shaped:

- **No job is lost in Redis.** Give a copy with k attempts level 2k in the retry set and 2k + 1 in a list. A worker
  about to LREM, and a retry mover about to ZREM, each carry the obligation that a strictly higher level exists, so no
  step lowers a job's highest level. Nothing is assumed about which crash comes when.
- **Reaping conserves.** Every step moves at most one list entry, and `RedisConservation.StepFlows` says which. Over
  any run, with everyone else at work, a dead replica's list is what is left of it followed by what was drained.
- **Reaping is safe** exactly as long as no scan for stale instances names a live replica; timely heartbeats are one
  way to see to it.
- **Handlings are counted.** In Redis the handler sees each attempt of a job once per enqueue, plus once for each event
  that puts a copy into play twice; in memory at most MaxRetries + 1 times per accepted job, without exception.
- **Both drivers follow one policy.** For a handler given as a function of job and attempt, every ack and every dead
  letter of any run of either driver, crashes and lost replies included, is the one `Fate.FateOf` computes, and once
  a run has nothing left to do every job has it.
- **The audit log** opens after a run exactly when no record was written by a process that had survived a failed
  anchor write, or with a payload whose digest does not survive reading back; otherwise it never opens again.
- **Tampering.** Nothing is assumed of the hash: a log accepted against an honest anchor either agrees with the honest
  log or hands over two different byte strings with the same digest.
- **Backpressure and the status cache** are compared with definitions over the history alone. What a read returns is the
  first document at the furthest stage recorded since the job's record was created; what is evicted is the record
  whose last touch is the oldest.
- **The bytes that are hashed** hold every string as the shortest text that reads back alike, and the only one of that
  length, save three bytes for every line separator U+2028 or U+2029, which the encoder escapes without need.
- **Verdicts and answers.** Each verdict and each answer to the queue has its condition on frames, scores, resolved
  boundaries and failures, in both directions.

## What the code does where its comments say otherwise

- `drainProcessing` says it keeps arrival order; right-to-right moves reverse the list
  (`RedisOrder.ArrivalOrderKept` gives the exact condition).
- The anchor is said to lag by at most one record. Every write without its anchor adds one
  (`AuditRuns.AnchorLag`), so it can be any number behind (`AuditRuns.AnchorFarBehind`).
- An anchor write that fails without ending the process leaves that process one number behind its own file. The next
  record it writes breaks the log for good (`AuditRuns.FailedAnchorThenAppendBreaks`).
- "Idempotent per job id" fails in the same case: the failed append returns an error and the job is dead-lettered, but
  its decision is on disk and not remembered. Delivered again to the same process the job is acked with two decision
  records, in a log that no longer opens (`Pipeline.OrphanedJobIsDecidedTwice`). This is the only way it fails
  (`Pipeline.AckedJobsAreRecorded`).
- A payload string that is not well-formed UTF-8 is hashed as the escape of U+FFFD but read back as the character,
  so the log no longer opens (`AuditLog.ReadableIffWellFormed`).
- The canonical form is said to be RFC 8785 with minimal escaping. The encoder also escapes U+2028 and U+2029; its text is
  the shortest one exactly for strings without them (`AuditMinimal.ShortestIff`).
- memq's queue depth can be negative for a moment (`MemqCounters.DepthCanBeNegative`).
- A redelivered job's final state can vanish from memq's table the moment it is set
  (`MemqStates.JustFinishedIsHeldIff`, `MemqStates.JustFinishedCanVanish`).
- Predicate categories are all required, where the documentation asks for any; the two readings agree exactly for
  predicates with at most one category (`Sinks.ReadingsAgreeIff`).
- Labels listed without a boundary are inert only in override mode (`Thresholds.UnarmedLabels`).
- Two replicas' retry movers can both promote one due retry, with nothing failing: neither looks at what its removal
  did. The job is then handled more than MaxRetries + 1 times (`RedisRepeats.RacingMoversRepeat`).
- A fan-out that fails halfway and is retried can leave one sink with another verdict than the audit log
  (`EndToEnd.RetryChangesVerdict`); `EndToEnd.VerdictsAgreeIff` says exactly when they agree.
- A line over 64 KiB is scanned whole or cut depending on how the stream was split
  (`StderrScanner.AgreesIffHarmless`).
- A replica that is only late can have its claims taken while it works on them, be deregistered, and go on to claim
  where no reaper looks (`RedisLateReplica`). This threatens exactly the runs in which a scan names a live replica
  (`RedisReaping.HarmlessIffSparing`).

## Model

| member | source | states |
|---|---|---|
| `RedisNoLoss.NoJobLost` | internal/queue/redisq.go:335-464 | after any interleaving with crashes between any two commands, every successfully enqueued job is acked, dead-lettered, or in pending, a processing list or retry |
| `RedisNoLoss.LevelNeverDrops` | internal/queue/redisq.go:397-464 | the furthest a job has got (list over retry, more attempts over fewer) at any point of a run is still reached, or the job is settled, at every later point |
| `RedisNoLoss.StepKeeps` | internal/queue/redisq.go:397-464 | every single step keeps every job's highest level when workers and movers are only about to delete copies that have been overtaken |
| `RedisNoLoss.OwnObligation` | internal/queue/redisq.go:397-433 | a worker reaches its LREM only with the job acked, dead, or present at a higher level |
| `RedisNoLoss.MoverObligation` | internal/queue/redisq.go:453-461 | the mover reaches its ZREM only after a copy at a higher level exists |
| `RedisNoLoss.RunInv` | internal/queue/redisq.go:153-464 | these obligations hold in every reachable state, including from a legacy processing list |
| `RedisReaping.EveryClaimReapable` | internal/queue/redisq.go:242-333 | as long as no scan named a live replica, every non-empty processing list belongs to a registered instance |
| `RedisReaping.LiveClaimsUntouched` | internal/queue/redisq.go:304-333 | after such a run no other replica's step changes a live replica's list, and no live replica is deregistered |
| `RedisReaping.RunRegistry` | internal/queue/redisq.go:176-333 | the registration invariant behind both, over every run without such a scan |
| `RedisReaping.TimelyRunSpares` | internal/queue/redisq.go:242-333 | heartbeats within the reclaim window keep every scan off live replicas, so all of this holds of timely runs |
| `RedisReaping.ScanDooms` | internal/queue/redisq.go:304-333 | after a scan that names a live replica, that reaper's own steps can leave it running with its claims and registration gone |
| `RedisReaping.HarmlessIffSparing` | internal/queue/redisq.go:304-333 | no point of a run leaves a live replica so exposed if and only if no scan of it named a live replica |
| `RedisLateReplica.LateReplicaIsDrained` | internal/queue/redisq.go:304-333 | a run from an empty Redis in which a late but live replica loses the claim its worker is handling |
| `RedisLateReplica.DeregisteredReplicaStrands` | internal/queue/redisq.go:304-360 | and goes on, deregistered, to claim into a list no reaper looks at |
| `RedisConservation.StepFlows` | internal/queue/redisq.go:153-464 | every step of every goroutine changes the lists by exactly one arrival, claim, return or removal, or not at all |
| `RedisConservation.DeadListDrains` | internal/queue/redisq.go:227-240 | over any run whatever, a dead replica's list is what is left of it followed by what was drained, each entry put on pending by the command that took it |
| `RedisConservation.ReapersConserve` | internal/queue/redisq.go:304-333 | what any set of dead lists loses over any run is what was returned from them |
| `RedisConservation.PendingLedger` | internal/queue/redisq.go:153-464 | over any run pending gains arrivals and returns and loses claims, and nothing else |
| `RedisConservation.ReapedIntoPending` | internal/queue/redisq.go:304-333 | once the dead lists are empty, pending has gained exactly their entries beside the run's other flows |
| `RedisConservation.DrainMovesReverse` | internal/queue/redisq.go:227-240 | n drain steps of a reaper do to the two Redis lists what the drain loop does |
| `RedisOrder.ClaimsAreEnqueuePrefix` | internal/queue/redisq.go:345-348 | without retries and reaps the claims of all replicas together are a prefix of the enqueues |
| `RedisOrder.ListPair.DrainProcessing` | internal/queue/redisq.go:227-240 | moves n entries tail first: pending gains the reverse of the list's end, also when it stops on an error |
| `RedisOrder.DrainedComeFirst` | internal/queue/redisq.go:225-239 | after a drain the recovered jobs are handed out before everything pending, latest claim first |
| `RedisOrder.ArrivalOrderKept` | internal/queue/redisq.go:225-239 | the promised arrival order holds exactly for palindromic lists, which for distinct entries means length at most one |
| `RedisFate.AttemptsBounded` | internal/queue/redisq.go:376-395 | in every run, whatever an older release left behind, no worker holds a copy past MaxRetries completed attempts unless it is such a leftover, and dead letters report 1 to MaxRetries + 1 attempts or one more than a leftover |
| `RedisHandlings.AttemptHandledOnce` | internal/queue/redisq.go:335-464 | in every run the handler sees attempt k of a job at most once per enqueue, plus once per drain or doubled promotion of an attempt up to k |
| `RedisHandlings.HandledWithinLimit` | internal/queue/redisq.go:376-395 | so all handlings of a job number at most MaxRetries + 1 for each enqueue and each such event |
| `RedisHandlings.UndisturbedWithinLimit` | internal/queue/redisq.go:376-395 | with nothing drained and every promotion removed in turn: at most MaxRetries + 1 handlings per enqueue |
| `RedisRepeats.LateJobHandledTwice` | internal/queue/redisq.go:304-360 | a run in which a drained late replica handles a job twice with no retries allowed |
| `RedisRepeats.RacingMoversRepeat` | internal/queue/redisq.go:435-464 | a run without any failure in which two movers promote one retry and the job is handled once too often |
| `RedisTiming.RetryWaitsItsTime` | internal/queue/redisq.go:417-464 | in every run a retry that a mover is about to push was scheduled for that time or before, and its handler had asked for it at least the backoff times its attempts earlier |
| `RedisTiming.FullQueueRefuses` | internal/queue/redisq.go:153-174 | over any run intake has pushed exactly the jobs offered at a dead-letter depth below the cap whose command took effect, and accepted exactly those that were told so |
| `RedisPasses.AckPass` | internal/queue/redisq.go:335-401 | a worker alone can claim the next job and settle it: acked, off its list, every other list unchanged |
| `RedisPasses.RetryPass` | internal/queue/redisq.go:376-433 | within the limit it leaves instead a retry with one more attempt, due after the backoff times its attempts |
| `RedisPasses.BuryPass` | internal/queue/redisq.go:376-415 | and otherwise a dead letter with that attempt counted |
| `RedisPasses.PassPromotes` | internal/queue/redisq.go:435-464 | one pass of a mover puts its page on pending behind what is there, by ready time, and leaves no due retry unless the page was full |
| `RedisPasses.ReapReturnsWork` | internal/queue/redisq.go:304-333 | one reap with nothing failing empties and deregisters exactly the instances silent for a minute, hands their jobs to the claiming end of pending, and leaves no other list touched |
| `RedisProgress.NobodyWaits` | internal/queue/redisq.go:276-464 | over every run a worker with a claim, a mover with a page and a keeper that boots or reaps can always take its next step |
| `RedisProgress.WorkerLeadsOn` | internal/queue/redisq.go:397-433 | and whatever is replied that step leads it on: a worker is idle again after at most three |
| `RedisProgress.MoverLeadsOn` | internal/queue/redisq.go:453-461 | a mover is at the end of its page after at most two for each member and one more |
| `RedisProgress.KeeperLeadsOn` | internal/queue/redisq.go:213-333 | a keeper comes, in the order of phase, instances left and jobs left, down to beating, unless its boot fails |
| `RedisProgress.FailureChangesNothing` | internal/queue/redisq.go:153-464 | no failed command of any goroutine changes Redis or what is settled |
| `RedisProgress.LegacyAges` | internal/queue/redisq.go:256-272 | over every run the older release's list keeps the date it was first registered with until it is deregistered, however many replicas start |
| `RedisProgress.DatesArePast` | internal/queue/redisq.go:242-246 | over every run no registration is dated ahead of the clock |
| `RedisFate.StepMarked` | internal/queue/redisq.go:335-464 | any property of copies that new jobs have and handler answers respect is kept by every step, in Redis and in every goroutine |
| `RedisFate.RedisFollowsPolicy` | internal/queue/redisq.go:376-433 | every copy acked and every dead letter of any run is the policy's outcome, attempts included, for a beginning of that job, new or left over |
| `RedisFate.DrainedJobsHaveTheirFate` | internal/queue/redisq.go:335-464 | when a run, crashes included, has left nothing to do, every enqueued job has exactly its fate and no other trace |
| `Fate.FateByFirstAnswer` | internal/queue/memq.go:176-189 | the recursive policy in closed form: the first answer that is not Retry decides, within the limit |
| `Fate.AckedIff` | internal/queue/queue.go:22-31 | a job is acked at attempt n exactly when answer n is Ack, all before are Retry and n is within the limit |
| `MemqFate.MemqFollowsPolicy` | internal/queue/memq.go:164-189 | the same for any interleaving of the in-process driver |
| `MemqFate.RestingJobsHaveTheirFate` | internal/queue/memq.go:149-238 | when a run has come to rest, every accepted copy of a job has exactly its fate |
| `MemqFate.DriversAgree` | internal/queue/queue.go:22-31 | a job both drivers took is acked by both after the same attempts or dead-lettered by both with the same entry, in any two finished runs |
| `MemqCounters.CountersExact` | internal/queue/memq.go:113-287 | pending is channel length plus waiting retries, plus decrements still owed, minus increments still owed; active is the number of goroutines in a handler: in every interleaving, Close included |
| `MemqCounters.DepthExactIff` | internal/queue/memq.go:242-244 | QueueDepth is buffered plus waiting exactly when as many increments as decrements are still to come |
| `MemqCounters.DepthExactWhenSettled` | internal/queue/memq.go:242-244 | in particular when no goroutine is between a channel operation and its update |
| `MemqCounters.DepthCanBeNegative` | internal/queue/memq.go:129-158 | a run in which QueueDepth is -1 |
| `MemqCounters.NoCopyLost` | internal/queue/memq.go:149-287 | every accepted copy is in exactly one place, and lost ones exist only after Close or a dead-letter sink failure |
| `MemqCounters.TakesArePrefixOfSends` | internal/queue/memq.go:129-158 | receives, by whichever goroutine, are a prefix of sends |
| `MemqHandlings.HandledWithinLimit` | internal/queue/memq.go:164-230 | in every interleaving, Close included, and whatever the handler answers, a job is handled at most MaxRetries + 1 times per time it was accepted |
| `MemqPasses.FullQueueRefuses` | internal/queue/memq.go:113-136 | in every interleaving a job is accepted only by a caller that had found the queue open and then been told a depth below the cap, and only while the channel has room |
| `MemqPasses.BufferBounded` | internal/queue/memq.go:128-136 | in every interleaving the channel is within its capacity |
| `MemqPasses.EnqueuePass` | internal/queue/memq.go:113-136 | an undisturbed Enqueue puts the job on the channel and counts it exactly when open, below the cap and not full, and changes nothing otherwise |
| `MemqPasses.RetryPass` | internal/queue/memq.go:164-230 | a retry within the limit is pending again, one attempt on, with a timer of its own |
| `MemqPasses.BuryPass` | internal/queue/memq.go:176-190 | any other answer than Ack, and a retry at the limit, leaves a dead letter with the attempt counted |
| `MemqPasses.ClosePass` | internal/queue/memq.go:276-287 | Close takes every job still on the channel, gives it up and counts it out |
| `MemqStates.JobTable.SetState` | internal/queue/memq.go:82-100 | the mutating method computes the value-level transition |
| `MemqStates.InFlightNeverDropped` | internal/queue/memq.go:82-100 | after any calls: held states are the last set, in-flight jobs are held, finished ones are queued, the queue is capped |
| `MemqStates.FinishedBounded` | internal/queue/memq.go:42-53 | at most 500 distinct finished ids are held |
| `MemqStates.QueueIsLastEnded` | internal/queue/memq.go:89-100 | after any calls the ageing queue is the last 500 finishes in order |
| `MemqStates.HeldUntilItsTurn` | internal/queue/memq.go:90-100 | a finished job is held through calls for other jobs exactly until the finishes after it have used up its first place in that queue |
| `MemqStates.JustFinishedIsHeldIff` | internal/queue/memq.go:90-99 | a just-finished job is held unless the full queue's oldest entry is its own earlier finish |
| `MemqStates.JustFinishedCanVanish` | internal/queue/memq.go:92-99 | a run in which that happens |
| `AuditEncoding.BodyRoundTrip` | internal/audit/audit.go:296-305 | parsing an encoded string returns its runes, with one mark per malformed byte, for every byte string |
| `AuditEncoding.StringRoundTrip` | internal/audit/audit.go:296-305 | the same for the quoted string, whatever follows it |
| `AuditEncoding.SortedKeysUnique` | internal/audit/audit.go:272-277 | every sorted listing of the keys is the same one, so map iteration order is immaterial |
| `AuditEncoding.ObjectRoundTrip` | internal/audit/audit.go:272-294 | a parser of the canonical object returns all members in key order, for every map |
| `AuditUtf8.RuneExactly` | internal/audit/audit.go:296-305 | what is taken for a character is exactly the UTF-8 of a Unicode scalar value |
| `AuditUtf8.WellFormedIff` | internal/audit/audit.go:296-305 | a string is well-formed exactly when it is the UTF-8 of some scalar values |
| `AuditMinimal.PlainTextIsCopied` | internal/audit/audit.go:296-305 | well-formed text without control characters, quotes, backslashes and line separators is hashed as it is, angle brackets and ampersands included |
| `AuditMinimal.AsciiIsCopied` | internal/audit/audit.go:296-305 | so is every printable ASCII string without quote and backslash |
| `AuditMinimal.EscapesByTable` | internal/audit/audit.go:296-305 | control characters, quote and backslash are written with two characters where JSON has such an escape, else as four lower-case hex digits |
| `AuditMinimal.NothingShorter` | internal/audit/audit.go:269-271 | no text that reads back alike is shorter than what is hashed, up to three bytes for each line separator |
| `AuditMinimal.ShortestIsUnique` | internal/audit/audit.go:269-271 | without line separators no other text that reads back alike is as short |
| `AuditMinimal.ShortestIff` | internal/audit/audit.go:269-271 | the encoding is a shortest text exactly when the string holds no line separator |
| `AuditMinimal.KeyOrder` | internal/audit/audit.go:272-277 | the key order is byte order: a proper prefix first, else the first byte that differs decides |
| `AuditMinimal.ObjectText` | internal/audit/audit.go:278-293 | an object is its braces around members in that order, colon and comma, without spaces |
| `AuditEntry.StringCollision` | internal/audit/audit.go:296-305 | two strings share an encoding exactly when they read back alike mark by mark |
| `AuditEntry.MalformedBytesCollide` | internal/audit/audit.go:296-305 | different malformed strings do share one |
| `AuditEntry.CanonicalCollision` | internal/audit/audit.go:272-294 | two maps share a canonical form exactly when their sorted members carry the same marks |
| `AuditEntry.DecodeCanonical` | internal/audit/audit.go:272-305 | decoding a canonical form gives the map a JSON reader gets back |
| `AuditEntry.LastMemberCounts` | internal/audit/audit.go:453-475 | of members that read back to one key the last in the file is the one decoded |
| `AuditEntry.ReencodesIffWellFormed` | internal/audit/audit.go:272-305 | the map read back has the same canonical form exactly when the original is well-formed UTF-8 |
| `AuditEntry.EntryRoundTrip` | internal/audit/audit.go:243-270 | the hashed bytes parse back to sequence number, timestamp, previous hash and payload |
| `AuditEntry.EntryBytesDetermine` | internal/audit/audit.go:243-270 | equal hashed bytes have equal fields, sequence numbers modulo 2^64, and equal canonical payloads |
| `AuditFormat.EntryLayout` | internal/audit/audit.go:243-270 | the hashed bytes at each offset: big-endian sequence number and length, timestamp, previous digest, big-endian length, canonical payload |
| `AuditFormat.HexAt` | internal/audit/audit.go:164-170 | digests are written as two lower-case hex digits for each byte, the high half first |
| `AuditEntry.CanonicalInjective` | internal/audit/audit.go:272-305 | on well-formed maps the canonical form is injective |
| `AuditChain.HexRoundTrip` | internal/audit/audit.go:115-115 | the hash decoded from a record is the one encoded into it |
| `AuditChain.VerifyRecords` | internal/audit/audit.go:321-337 | the loop reports valid, broken or anchor mismatch exactly when chain and anchor say so, and stops at the first broken link |
| `AuditChain.ReplayRecords` | internal/audit/audit.go:109-119 | Open's loop rebuilds sequence number, previous hash and seen set of a valid chain and refuses any other |
| `AuditFormat.AnchorExactly` | internal/audit/audit.go:343-365 | an anchor is contradicted exactly when the record it names is missing or has another hash; no anchor, or number zero, contradicts nothing |
| `AuditChain.Log.Append` | internal/audit/audit.go:157-198 | what an append leaves on disk and in memory for each failing file operation |
| `AuditChain.Log.RecordDecision` | internal/audit/audit.go:135-143 | a seen id appends nothing; any other appends once |
| `AuditChain.AppendExtendsChain` | internal/audit/audit.go:157-185 | the appended record extends a valid chain |
| `AuditChain.ReplayAppended` | internal/audit/audit.go:193-197 | replaying the file with that record gives the fields the appending process sets |
| `AuditChain.BrokenStaysBroken` | internal/audit/audit.go:433-451 | one bad link refuses the log, whatever follows |
| `AuditChain.SameHistory` | internal/audit/audit.go:433-451 | two valid chains with the same entry hash at n agree on the first n records, or two entries share a digest |
| `AuditLog.VerifyWith` | internal/audit/audit.go:316-341 | verification of a file as read from disk, with the exact condition for each outcome |
| `AuditLog.Open` | internal/audit/audit.go:104-132 | opens exactly the logs that verify against their anchor, with the replayed fields |
| `AuditLog.AnchoredHistoryIsIntact` | internal/audit/audit.go:316-365 | a file accepted against an honest anchor (n, h) has the honest first n records in every field, or exhibits a collision |
| `AuditLog.ReadableIffSameSum` | internal/audit/audit.go:433-451 | an appended record can be read again exactly when the payload read back has the same digest |
| `AuditLog.ReadableIffWellFormed` | internal/audit/audit.go:157-185 | hence exactly when the payload is well-formed UTF-8, or the hash collides |
| `AuditRuns.LogOpensIff` | internal/audit/audit.go:104-198 | after any run, survived failures and malformed payloads included, the log opens exactly when no record was written by a process behind its file or with a payload that does not reread |
| `AuditRuns.UnopenableForGood` | internal/audit/audit.go:104-132 | a log that does not open never opens again, whatever follows |
| `AuditRuns.LogReopensIff` | internal/audit/audit.go:104-198 | with well-formed payloads: exactly when no process wrote after surviving a failed anchor write; then opening restores the replay of the records |
| `AuditRuns.CrashLosesNothing` | internal/audit/audit.go:180-198 | a crash between record and anchor loses nothing: reopening gives the fields the dead process was about to set |
| `AuditRuns.AnchorLag` | internal/audit/audit.go:186-192 | after every run the anchor is behind by the writes without their anchor since the last one that caught up, and a process by the anchor failures it survived |
| `AuditRuns.AnchorFarBehind` | internal/audit/audit.go:339-342 | for every n some run puts the anchor n records behind a log that still opens |
| `AuditRuns.FailedAnchorThenAppendBreaks` | internal/audit/audit.go:189-193 | surviving a failed anchor write leaves a log that opens; after one more record from that process no continuation opens it |
| `ResultStore.Store.Record` | internal/cli/resultapi.go:121-142 | list and index stay linked and the list becomes the recorded recency sequence |
| `ResultStore.Store.Get` | internal/cli/resultapi.go:148-166 | the document and the new recency sequence, expired and absent cases included |
| `ResultStore.Store.Drop` | internal/cli/resultapi.go:180-183 | removes one record from list and index |
| `ResultStore.Store.Len` | internal/cli/resultapi.go:170-177 | counts the records held, never above max |
| `ResultRuns.RunKept` | internal/cli/resultapi.go:121-166 | in every run no id is held twice, the cap holds and no record outlives its time to live |
| `ResultRuns.NeverWalksBack` | internal/cli/resultapi.go:69-78 | while unexpired and unevicted, a record's rank never drops, equal rank means the same record, and a terminal one never changes |
| `ResultRuns.SurvivesUnless` | internal/cli/resultapi.go:138-141 | a record is not evicted before it expires while fewer than max other jobs were touched ahead of it |
| `ResultRuns.PollsAgree` | internal/cli/resultapi.go:148-166 | two polls before expiry with fewer than max other jobs in between see the same job moving forward only |
| `ResultProgress.PutThenRead` | internal/cli/resultapi.go:121-166 | after a put at a later stage, or of a job that was not readable, the next read returns it until its time to live ends; after any other put it returns what it would have |
| `ResultProgress.FurthestStageIsRead` | internal/cli/resultapi.go:50-166 | over every run a read returns the first document at the furthest stage recorded since the job's record was created, within its time to live |
| `ResultProgress.RecencyOrder` | internal/cli/resultapi.go:121-166 | over every run the list is in the order of last touches: reads that found their job and puts that were not refused |
| `ResultProgress.OnlyOldestGoes` | internal/cli/resultapi.go:134-166 | a record goes only when a read finds it expired, or when a new job finds the cache full and this record's last touch is the oldest |
| `Sinks.Dedupe.Claim` | internal/result/dedupe.go:71-84 | exactly one owner per remembered id, after the sweep |
| `Sinks.Dedupe.Sweep` | internal/result/dedupe.go:95-106 | forgets exactly the claims older than the retention window, at most once per interval |
| `Sinks.Sink.Write` | internal/result/sink.go:73-89 | claim, write, release on failure, with the exact error condition |
| `Sinks.WriteAll` | internal/result/multi.go:34-49 | every sink is attempted whatever the others do; the first failure is reported |
| `Sinks.AtMostOncePerWindow` | internal/result/dedupe.go:71-106 | over any deliveries a sink's emissions of one id are more than a retention window apart |
| `SinkMemory.EmittedAgain` | internal/result/dedupe.go:71-106 | over any deliveries an id whose emissions are all older than the window and a minute is emitted again |
| `SinkMemory.EmitsIff` | internal/result/sink.go:73-89 | a write reaches the file exactly when the route matches, writing works and the id is not remembered, or a sweep is due and its claim older than the window |
| `SinkMemory.RouteExactly` | internal/result/predicate.go:104-152 | what a route takes, group by group, in terms of verdict, source kind and scores; a job without a result is an error without scores |
| `Sinks.SuccessMeansEmitted` | internal/result/sink.go:73-89 | a delivery without error leaves the id emitted by a matching sink |
| `Sinks.NoErrorMeansDelivered` | internal/result/multi.go:34-49 | a fan-out without error leaves the id emitted by every matching sink, and by at least one under the catch-all rule |
| `Sinks.ValidateRoutes` | internal/config/config.go:756-758 | a configuration passes exactly when some sink is unconditional or unrouted results were accepted |
| `Sinks.OneOfTwoIsRefused` | internal/result/predicate.go:111-115 | an envelope that meets one of two listed categories is refused |
| `Sinks.ReadingsAgreeIff` | internal/result/predicate.go:19-36 | the documented any-of reading and the code agree on every envelope exactly when at most one category is listed |
| `Backpressure.Gate.Record` | internal/observe/observe.go:153-185 | counters, gate and outcome list after one outcome |
| `Backpressure.Gate.Prune` | internal/observe/observe.go:187-196 | drops the stale front of the outcome list |
| `Backpressure.PrunedIsWindow` | internal/observe/observe.go:187-196 | in time order that is dropping everything stale |
| `Backpressure.WindowExactly` | internal/observe/observe.go:187-196 | the window holds each outcome after the cut as often as it occurred and no other |
| `Backpressure.RateHighIff` | internal/observe/observe.go:169-185 | the rate trips on ten or more outcomes of which at least the given percentage failed |
| `Backpressure.TrackerIsHistory` | internal/observe/observe.go:153-203 | counters, gate and list equal trailing runs, gate and windowed history since the last recovery, defined on the history alone |
| `Backpressure.Hysteresis` | internal/observe/observe.go:121-125 | ready means fewer than N trailing errors, not ready fewer than M trailing successes, and a shut gate opens exactly on the M-th success in a row |
| `StderrScanner.Scanner.Write` | internal/frames/stderrscan.go:42-61 | one chunk's effect on timestamps, unterminated line and tail |
| `StderrScanner.Scanner.Flush` | internal/frames/stderrscan.go:97-102 | scans a non-empty unterminated line once |
| `StderrScanner.TailIsLastBytes` | internal/frames/stderrscan.go:84-93 | for every splitting the tail is the last 8192 bytes of the stream |
| `StderrScanner.LinesJoin` | internal/frames/stderrscan.go:46-60 | the reference lines and rest rejoin to the text and contain no newline |
| `StderrScanner.ReferenceExactly` | internal/frames/stderrscan.go:42-102 | reading the whole text gives, in order, the timestamps of exactly the lines that carry one |
| `StderrScanner.SplittingIrrelevant` | internal/frames/stderrscan.go:42-82 | for every splitting the timestamps are those of the whole text line by line, if no cut changes a line's timestamp |
| `StderrScanner.ShortLinesAgree` | internal/frames/stderrscan.go:42-82 | in particular when every line is at most 64 KiB |
| `StderrScanner.AgreesIffHarmless` | internal/frames/stderrscan.go:42-102 | a whole stream reads alike under every splitting exactly when the 64 KiB cut is harmless to every line and to the rest |
| `Thresholds.ResolveFor` | internal/config/config.go:169-190 | field by field: label, else category, else default |
| `Thresholds.LabelThenCategoryThenDefault` | internal/config/config.go:161-190 | each boundary is the label's if that sets it, else the category's, else the default's |
| `Thresholds.KeysFoldCase` | internal/config/config.go:62-67 | two labels share a key exactly when they differ in nothing but case |
| `Thresholds.Merge` | internal/config/config.go:127-150 | the merged table, whatever order the label map is ranged in |
| `Thresholds.HybridKeepsUnlisted` | internal/config/config.go:127-150 | hybrid merging leaves the resolution of every unlisted label unchanged |
| `Thresholds.UnarmedLabels` | internal/config/config.go:142-147 | unarmed labels have no boundary in override mode and inherit the category's in hybrid mode |
| `Thresholds.ListedLabels` | internal/config/config.go:127-150 | a listed label has the boundaries listed for it; what they leave out is inherited in hybrid mode and absent in override mode |
| `Thresholds.OffChangesNothing` | internal/config/config.go:127-138 | with the mode off the table stays as it was |
| `Thresholds.OverrideDisarmsUnlisted` | internal/config/config.go:127-150 | in override mode an unlisted label has no boundary |
| `Rollup.ApplyThresholds` | internal/pipeline/rollup.go:14-30 | gives each category its resolved flag boundary and flags it exactly when its score reaches it; nothing else changes |
| `Rollup.RollupFrames` | internal/pipeline/rollup.go:35-94 | verdict by strict precedence, the maximum score and the first category that carries it |
| `Rollup.BlockExactly` | internal/pipeline/rollup.go:70-73 | block exactly when some evaluated frame has a category whose score is at least the block boundary resolved for it |
| `Rollup.ErrorExactly` | internal/pipeline/rollup.go:74-77 | error exactly when nothing blocks and there is no frame, a frame failed or no score exists |
| `Rollup.FlagExactly` | internal/pipeline/rollup.go:78-80 | flag exactly when the evidence is complete, some score reaches its flag boundary and none its block boundary |
| `Rollup.ThresholdsStamp` | internal/pipeline/rollup.go:14-30 | categories that went through ApplyThresholds carry the flags these conditions rest on |
| `Rollup.AllowExactly` | internal/pipeline/rollup.go:35-94 | allow exactly when there are frames, all are evaluated, some score exists and none reaches its flag or block boundary |
| `Rollup.OrderIrrelevant` | internal/pipeline/rollup.go:35-94 | permuting frames changes neither verdict nor maximum |
| `Rollup.ErroredFrameNeverPasses` | internal/pipeline/rollup.go:70-90 | missing or partial evidence is block or error, never allow or flag |
| `Dedup.DedupFrames` | internal/frames/dedup.go:30-61 | kept frames, renumbered from zero, files deleted and counts conserved |
| `Dedup.StaysMeaning` | internal/frames/dedup.go:36-56 | unhashable frames stay, kept hashable ones are pairwise farther than the threshold, a dropped one is near an earlier kept one |
| `Dedup.NearExactly` | internal/frames/dedup.go:45-50 | near means both hashable and at most threshold bits in which the hashes differ |
| `Dedup.FirstStays` | internal/frames/dedup.go:36-56 | a non-empty input keeps its first frame |
| `Dedup.SelectedInOrder` | internal/frames/dedup.go:36-56 | the output is the input at strictly increasing positions |
| `Dedup.Idempotent` | internal/frames/dedup.go:30-61 | filtering again with the remaining files changes nothing |
| `Dedup.Effective` | internal/pipeline/pipeline.go:374-390 | a job may tighten or turn off the filter, never exceed the operator's ceiling |
| `Dedup.WideOpenCollapses` | internal/pipeline/pipeline.go:378-383 | at 64 every hashable frame after the first hashable one is dropped |
| `Dedup.FramesToScan` | internal/pipeline/pipeline.go:374-407 | what reaches the fan-out: a prefix of the filtered frames within the cap, never empty for a non-empty video |
| `Pipeline.ProcessJob` | internal/pipeline/pipeline.go:154-228 | answer, log file, anchor and fields after one delivery, for every sink outcome and failing log write: retry iff the sink refused, dead-letter iff a write that was due failed or the sink took an error, and the record that is appended |
| `Pipeline.DispositionExactly` | internal/pipeline/pipeline.go:154-228 | retry exactly when the sink refused; no answer exactly when the process died in the append; dead-letter exactly when the append failed otherwise or the sink took an error; ack exactly in the remaining cases |
| `Pipeline.DecisionBinds` | internal/audit/audit.go:209-238 | a decision record names job, asset, adapter, model version, configuration, evidence digest and verdict, each under its own key, and nothing else |
| `Pipeline.SkipBinds` | internal/pipeline/pipeline.go:159-164 | an override is noted with event, job, asset, adapter and configuration, and no verdict |
| `Pipeline.LogIsRun` | internal/pipeline/pipeline.go:154-228 | the pipeline's log goes through a run of the audit log |
| `Pipeline.AckedJobsAreRecorded` | internal/pipeline/pipeline.go:154-228 | over redeliveries, crashes, restarts and failed writes: acked jobs are named; no id has two decision records exactly when no job went back to a process that had orphaned it; the log opens exactly when no process wrote behind it; while it opens decisions are single |
| `Pipeline.OrphanedJobIsDecidedTwice` | internal/pipeline/pipeline.go:214-219 | from any running process: a failed anchor write and a redelivery ack the job with two decision records in a log that no longer opens |
| `Pipeline.FirstJobDecidedTwice` | internal/audit/audit.go:189-193 | the first process of an empty log is such a run |
| `Pipeline.AckNeedsEvidence` | internal/pipeline/pipeline.go:168-228 | without complete evidence a job is acked only by the audited skip override or with verdict block |
| `EndToEnd.AckedMeansDelivered` | internal/pipeline/pipeline.go:205-228 | over any run of a replica a job acked after evaluation is named in the log, and every sink that matches its envelope has emitted the job, at least one under the catch-all rule |
| `EndToEnd.DeliveryEmits` | internal/pipeline/pipeline.go:190-214 | what one delivery writes: nothing for a skipped job, else id, source, frames and their verdict to every matching sink that works and does not remember the id |
| `EndToEnd.RestartEmitsAgain` | internal/result/dedupe.go:40-49 | from any stopped replica whose log opens: after a restart the next delivery is written again by every matching sink that works |
| `EndToEnd.VerdictsAgreeIff` | internal/pipeline/pipeline.go:205-228 | over any run the verdicts the sinks wrote of a job and the one in its decision record agree exactly when every delivery a sink wrote evaluated as the recorded one did |
| `EndToEnd.SteadyJobsAgree` | internal/pipeline/pipeline.go:205-228 | in particular when the job evaluates the same every time |
| `EndToEnd.RetryChangesVerdict` | internal/pipeline/pipeline.go:206-214 | a run in which a half-failed fan-out and a retry leave a sink and the log with different verdicts |
| `WholeSystem.QueueAckIsEvidenced` | internal/queue/redisq.go:376-401 | over any queue run whose acks come from the replicas' pipelines, a job the queue acked is named in some replica's log and there skipped on the record or written by every matching sink |
| `WholeSystem.EnqueuedJobIsAccountedFor` | internal/queue/redisq.go:153-464 | every enqueued job is at all times in Redis, dead-lettered, or evidenced so |

## Left out

- HTTP intake, read API routes, authentication, UI, commands, metrics registration: plumbing around the modelled state.
- Vendor adapters, the fetcher, FFmpeg, image decoding and hashing: a frame's hash is an arbitrary optional 64-bit value per path, an evaluation an arbitrary result.
- SHA-256 is an arbitrary function to 32 bytes; a directory entry, a torn line and a partial write are not modelled.
- The string parser of `AuditEncoding` knows the escapes the encoder can write and hex digits in lower case; JSON's other escapes, none shorter than the text it stands for, are not read.
- Signatures and their verifier, and the 4 MiB limit on one log line.
- Running with auditing or events turned off: the pipeline model always has a log.
- `WholeSystem` ties the Redis driver to the pipelines through its acks: retries and dead letters may be answered arbitrarily, and a replica's past is one sequence, not interleaved with the queue's steps. The in-process driver is not tied in.
- The run theorems of `Pipeline` and `EndToEnd` are for jobs whose ids and references are well-formed UTF-8; `AuditRuns.LogOpensIff` covers the rest.
- The undecodable-payload path of the Redis worker, whose dead letter carries no job.
- One clock for all replicas: skew between replicas is not modelled; heartbeat scores may lie in the past but not in the future.
- Redis jobs are tracked by value: two enqueues of an identical job are one job to the no-loss theorem.
- The in-process driver's setState calls are modelled in `MemqStates` as an arbitrary sequence, not interleaved with `MemqProtocol`.
- A retry's backoff in the in-process driver: `MemqProtocol` has no clock, so its timers may fire at any time; the Redis driver's is `RedisTiming.RetryWaitsItsTime`.
- Close's wait for workers and timers may end at any time in `MemqProtocol`, as its drain timeout allows; the error it returns is not modelled.
- The dead-letter depth an Enqueue reads is an arbitrary number, since operators may remove entries.
- Concurrent deliveries to one sink: deliveries are sequential. Webhook and stdout sinks are represented by the JSON-lines sink.
- Lower-casing covers ASCII letters, and the source kind is given in lower case.
- Duplicate frame paths: `Dedup` is stated for frames with distinct paths, as extraction produces them.
- The parallel fan-out over frames, the sort of its outcomes and the raw-evidence digest.
- Rounding: scores, timestamps and the error rate are reals; NaN does not occur.
- The nil status store, which ignores every call.
- List elements of the status store are reached through their position; pointer-level unlinking inside the list package is not modelled.
- JobTracker, Limiter, Discord formatting, metadata compaction and configuration parsing: they would add easy members.
