# Verified model of the email verification platform

This project models the algorithms and state machines of the platform and proves properties of them over all
inputs or all runs. Redis, Postgres, the job queue and sockets appear as small abstract state that changes in
atomic steps; what the network, the clock, random numbers and other services answer is a parameter of the step.

`dafny verify dfyconfig.toml` checks everything. There is one module per component:

| module | component | main results |
|---|---|---|
| `Strings` | split, join, trim, lower-case, last index | the laws the others build on |
| `EditDistance` | two-row Levenshtein | computes the length of the shortest edit script; a metric |
| `Lookalike` | look-alike domains | what is flagged, exactly; every short typo and every disguise is |
| `Domain` | normalising and registrable domains | suffix, idempotence and stability below subdomains, exactly when |
| `EmailSyntax` | address syntax | accepts exactly a restricted RFC 5321 grammar, with true reasons; unique split |
| `Blocklist` | blocklist file and lookup | print and read round trip; lookup against its meaning |
| `SmtpProbe` | SMTP reply stream | chunking is irrelevant; the verdict, exactly |
| `Limiter` | concurrency pool | slots, FIFO grants, no lost wake-up, `runWithConcurrency` is a map |
| `RateLimit` | INCR/EXPIRE window | per-lifetime and per-span bounds under every interleaving |
| `MxCache` | bounded TTL cache | hits against history, survival of entries, exactly |
| `BulkJob` | resumable bulk job | crashes and resumes refine one run; verdicts and counters; billing once, exactly |
| `AgentRun` | draft, approve, send | at most one send, only the approved draft, cancelled is final |
| `Enrollment` | enrolling leads | exclusivity, membership and counts |
| `SequenceEnrollment` | sequence ticks | order, delays, at most once, quiet ends, mailbox reuse, daily limits |
| `Webhook` | delivery and retry chain | bounded POSTs, one pending job, counters, termination, delays |
| `LeaseLock` | NX/PX lease lock | mutual exclusion and exactly where the two-command release breaks it |
| `FailureBackoff` | monitor and agent back-off | streak, pause at the fifth, next check, exactly |
| `FinderBilling` | two-pool billing | path independence, exact affordability, no overspending |

State machines come as a function `Step` on values, with theorems about every run of it, and a class whose methods
change their fields as the source does and are proved to take exactly that step.

## Where the code does not do what it or its comments say

Each of these is stated with the condition under which it holds, and most with an input on which it fails.

- `extractLocal` lower-cases but does not trim: it recovers the local part exactly when no white space precedes
  the address (`EmailSyntax.ExtractionRecovers`, `EmailSyntax.PaddedLocalIsMissed`).
- `getRegistrableDomain` is not idempotent on `a..`. It is exactly when the trimmed name does not end in a dot after
  another dot or white space and no kept label that follows a dropped one opens with white space, so on every host
  the syntax check accepts (`Domain.RegistrableIdempotentIff`, `Domain.IdempotentUnlessDoubleDot`,
  `Domain.NotIdempotentOnDoubleDot`, `EmailSyntax.RegistrableIdempotentOnHosts`).
- Prepending labels keeps the registrable domain exactly when the domain has two labels or more and is not a known
  two-part top-level domain (`Domain.SubdomainStableIff`).
- A blocklist of wildcards only detects nothing, although the comments give wildcards a step of their own
  (`Blocklist.WildcardsNeedAnExactEntry`, `Blocklist.WildcardAloneIsMissed`). A refreshed file always holds exact
  entries, so after a refresh the lookup is the list's meaning (`Blocklist.DisposableAfterRefresh`).
- A cache entry that overwrites a key in place keeps that key's place and can be evicted early
  (`MxCache.SlackAfterSet`, `MxCache.SurvivesExactly`; from an empty cache, `MxCache.OverwrittenIsEvictedEarly`).
- A bulk job that stopped for a cancel and is taken up again is billed again for all it has processed
  (`BulkJob.CancelledTwice`). Every processed row is billed once exactly when no earlier attempt that stopped had
  anything processed (`BulkJob.RunDespiteCrashes`).
- A handler that throws between creating a campaign or sequence and storing its id lets the next approval create
  another (`AgentRun.UnrecordedIsRepeated`). Over events whose handlers store what they create there is at most one
  (`AgentRun.AtMostOneCreation`); a run can create no more exactly when it has an id, is cancelled, or has a
  configuration that does not parse (`AgentRun.NothingMoreExactly`, `AgentRun.StaysAtOneExactly`).
- A sequence step goes out a second time exactly when the send just before was of that step and its enrollment could
  not be updated (`SequenceEnrollment.RepeatsExactlyAfterUnstored`, `SequenceEnrollment.UnstoredIsResent`), and a
  skipped last step leaves its enrollment active for ever (`SequenceEnrollment.SkippedLastStepStrands`).
- The lease lock is released by a GET and then a DEL: a lease that ends between them takes another worker's lock
  away; equal lock values, which take equal process ids and equal readings of the clock, defeat even a one-step
  release (`LeaseLock.LateDelBreaksExclusion`, `LeaseLock.EqualValuesBreakExclusion`).
- Retry delays increase for every jitter exactly through the fifth (`Webhook.DelaysIncreaseThroughTheFifth`).
- In any 60 seconds fewer than twice the limit are admitted, one better than the fixed-window bound, and no better
  bound holds (`RateLimit.FewerThanTwiceLimitPerSpan`, `RateLimit.BoundIsMet`).
- A limiter of no slots grants nothing, and `runWithConcurrency` over it stays open for ever
  (`Limiter.AllGrantedWhenAllSettled`, `Limiter.RunWithConcurrency`).
- A quota skip, a recheck or a changed interval reschedules without an outcome, so the bound on the next check runs
  from the last scheduling (`FailureBackoff.NextCheckIsNear`). From the last outcome it holds exactly when the event
  that last wrote the schedule came soon enough after it (`FailureBackoff.NearOutcomeExactly`,
  `FailureBackoff.ActiveHasLastWrite`): a skip whatever its jitter within `max(0, 24 - 1.1 * interval)` hours
  (`FailureBackoff.SkipKeepsBoundExactly`), a new interval `i` within `max(0.1 * i, 24 - i)`
  (`FailureBackoff.IntervalKeepsBoundExactly`). A daily monitor breaks it (`FailureBackoff.BoundFromOutcomeFails`).

## Model

| member | source | states |
|---|---|---|
| `EditDistance.NoShorterScript` | src/engine/lookalike.ts:64-87 | no script of insertions, deletions and substitutions is shorter than the recurrence says |
| `EditDistance.ShortestScript` | src/engine/lookalike.ts:64-87 | some script is exactly that long |
| `EditDistance.DistIsEditDistance` | src/engine/lookalike.ts:64-87 | the recurrence is the minimum script length |
| `EditDistance.EditDistanceIsDist` | src/engine/lookalike.ts:64-87 | the minimum script length is unique |
| `EditDistance.EditDistanceIsAMetric` | src/engine/lookalike.ts:64-87 | the edit distance is symmetric, zero exactly on equal strings, and obeys the triangle inequality |
| `EditDistance.FillRow` | src/engine/lookalike.ts:75-83 | one pass turns the row of a prefix into the row of the prefix one longer |
| `EditDistance.TwoRows` | src/engine/lookalike.ts:69-86 | the swapped rows end with the distance of the whole strings |
| `EditDistance.Levenshtein` | src/engine/lookalike.ts:64-87 | returns the minimum length of any edit script |
| `Lookalike.ReplacementsDoNotChain` | src/engine/lookalike.ts:35-62 | replacing one homoglyph after another equals mapping each character once |
| `Lookalike.SplitJoinReplaces` | src/engine/lookalike.ts:53-62 | split and join replaces every occurrence and nothing else |
| `Lookalike.NormalizeHomoglyphs` | src/engine/lookalike.ts:53-62 | the skeleton of a string: mapped characters, then rn to m and vv to w |
| `Lookalike.IsNear` | src/engine/lookalike.ts:143-148 | near means some script within the threshold turns the domain into the protected one |
| `Lookalike.Check` | src/engine/lookalike.ts:105-159 | the verdict: protected, then nesting, then the first protected domain it resembles, with its reason |
| `Lookalike.CheckLookalike` | src/engine/lookalike.ts:105-159 | the same for the protected domains and brands of the source |
| `Lookalike.FlaggedIff` | src/engine/lookalike.ts:105-159 | flagged exactly when unprotected and nesting a brand or resembling a protected domain |
| `Lookalike.EveryTypoIsFlagged` | src/engine/lookalike.ts:138-148 | every unprotected domain that a script within the threshold turns into a protected one is flagged |
| `Lookalike.EveryDisguiseIsFlagged` | src/engine/lookalike.ts:150-155 | every unprotected name that spells a protected domain with a digit or sign for a letter, `rn` for m or `vv` for w is flagged |
| `Lookalike.NestsIff` | src/engine/lookalike.ts:125-135 | a name nests exactly when the brand that opens the protected domain stands in it between dots and it is not under that domain |
| `Domain.NormalIffCleanEnds` | src/engine/domain.ts:28-30 | a lower-case name is normal exactly when it is trimmed and has no final dot |
| `Domain.RegistrableIsSuffix` | src/engine/domain.ts:59-74 | the registrable domain is a lower-case suffix of the normalised domain |
| `Domain.RegistrableLabels` | src/engine/domain.ts:59-74 | it has two labels, or three ending in a known two-part top-level domain |
| `Domain.RegistrableIdempotentIff` | src/engine/domain.ts:59-74 | taking it twice changes nothing exactly when the trimmed name does not end in a dot after a dot or white space and is not cut just before white space |
| `Domain.IdempotentUnlessDoubleDot` | src/engine/domain.ts:59-74 | without inner white space it is idempotent exactly when the trimmed name does not end in two dots |
| `Domain.NotIdempotentOnDoubleDot` | src/engine/domain.ts:59-74 | a name on which `getRegistrableDomain` is not idempotent |
| `Domain.SubdomainStableIff` | src/engine/domain.ts:59-74 | prepended labels keep it exactly when the domain has two labels or more and is no two-part top-level domain |
| `EmailSyntax.DotStringIff` | src/engine/syntax.ts:103-118 | the rules about dots and characters accept exactly the Dot-strings of the grammar |
| `EmailSyntax.QuotedStringIff` | src/engine/syntax.ts:80-101 | the scan accepts exactly the non-empty Quoted-strings of the grammar |
| `EmailSyntax.RenderIsInjective` | src/engine/syntax.ts:86-101 | quoted content has one reading only |
| `EmailSyntax.ScanQuoted` | src/engine/syntax.ts:86-100 | the escape-skipping loop decides scannability, and its reason is true of the content |
| `EmailSyntax.ValidateLocal` | src/engine/syntax.ts:73-119 | accepts exactly the local parts of the grammar within their length; the reason is true |
| `EmailSyntax.HostIff` | src/engine/syntax.ts:126-171 | the checks on labels accept exactly the hosts of the grammar |
| `EmailSyntax.CheckLabels` | src/engine/syntax.ts:147-161 | the loop accepts exactly when every label is one of the grammar |
| `EmailSyntax.ValidateDomain` | src/engine/syntax.ts:126-171 | accepts exactly the hosts of the grammar within their length; the reason is true |
| `EmailSyntax.MailboxPassesScreens` | src/engine/syntax.ts:27-52 | no mailbox of the grammar is turned away by the conditions checked before its parts are read |
| `EmailSyntax.CheckSyntax` | src/engine/syntax.ts:22-64 | accepts exactly the addresses whose trimmed form is a mailbox; a rejection's reason is true of the address |
| `EmailSyntax.SplitIsUnique` | src/engine/syntax.ts:50-55 | one local part and one host, even with at-signs inside the quotes |
| `EmailSyntax.ExtractionRecovers` | src/engine/domain.ts:17-41 | extraction from the untrimmed address recovers the host always, the local part exactly without leading white space |
| `EmailSyntax.PaddedLocalIsMissed` | src/engine/domain.ts:35-41 | a padded address whose local part is not recovered |
| `EmailSyntax.RegistrableIdempotentOnHosts` | src/engine/domain.ts:59-74 | on every host of the grammar the registrable domain is its own registrable domain |
| `Blocklist.SortedDistinctSorts` | src/lib/disposableListRefresh.ts:56-57 | the sorted set is ascending and has the same members |
| `Blocklist.ReadBack` | src/lib/disposableListRefresh.ts:48-73 | reading the written file back gives exactly the merged entries |
| `Blocklist.Loader.Read` | src/engine/disposable.ts:38-78 | the two sets are the exact and the wildcard entries of the text; none without a file |
| `Blocklist.Loader.Load` | src/engine/disposable.ts:23-27 | only the first call reads |
| `Blocklist.RefreshAndReload` | src/engine/disposable.ts:34-36 | after a refresh and reload the sets are the merged list, split into exact and wildcard |
| `Blocklist.Lookup` | src/engine/disposable.ts:94-112 | the search equals its meaning: the domain, its registrable domain, or a wildcard parent is listed |
| `Blocklist.Loader.IsDisposable` | src/engine/disposable.ts:88-113 | listed, provided some exact entry is loaded |
| `Blocklist.DisposableAfterRefresh` | src/engine/disposable.ts:88-113 | after a refresh and reload a domain is disposable exactly when the merged list says so |
| `Blocklist.ListedIsDisposable` | src/engine/disposable.ts:52-59 | a domain on a line of the fetched text, in any case and with white space around it, is disposable after a refresh and reload, in any case it is asked for |
| `Blocklist.WildcardIsDisposable` | src/engine/disposable.ts:103-110 | so is every name below a domain listed after `*.` |
| `Blocklist.MergedIsLower` | src/lib/disposableListRefresh.ts:51-57 | every merged entry is in lower case and trimmed |
| `Blocklist.ListingCoversSubdomains` | src/engine/disposable.ts:94-101 | listing a registrable domain that is no two-part top-level domain lists every subdomain |
| `Blocklist.ListingATldCoversOnlyItself` | src/engine/disposable.ts:94-101 | listing a top-level domain of one or two parts lists nothing below it |
| `Blocklist.WildcardsNeedAnExactEntry` | src/engine/disposable.ts:88-113 | the early exit is harmless exactly when an exact entry exists or no wildcard applies |
| `Blocklist.WildcardAloneIsMissed` | src/engine/disposable.ts:88-113 | one wildcard that covers a subdomain, with no exact entry loaded |
| `SmtpProbe.CutInPieces` | src/engine/smtp.ts:313-317 | cutting lines from a text in pieces gives the lines of the whole, also when CR and LF part |
| `SmtpProbe.CutSpells` | src/engine/smtp.ts:316-317 | lines with their ends and the rest spell the text |
| `SmtpProbe.CutIsTheSplit` | src/engine/smtp.ts:316-317 | the cut is the only way to write the text as lines and rest with no line end inside any piece |
| `SmtpProbe.CodeIsThreeDigits` | src/engine/smtp.ts:321-321 | the parsed code is a given three-digit number exactly when those digits are there |
| `SmtpProbe.SpelledReply` | src/engine/smtp.ts:319-323 | three digits, alone or before a space and any text, act as the number they spell |
| `SmtpProbe.SpelledSilence` | src/engine/smtp.ts:319-323 | a shorter line, or one with anything but a space after three characters, changes nothing |
| `SmtpProbe.FirstLine` | src/engine/smtp.ts:325-327 | a banner line with a space after 220 is answered with EHLO, one with a hyphen with nothing |
| `SmtpProbe.Probe.HandleLine` | src/engine/smtp.ts:319-338 | one line moves the machine as specified: by the code its three digits spell, and not at all if it ends no reply |
| `SmtpProbe.Probe.OnData` | src/engine/smtp.ts:313-339 | one data event is the specified feed of its text; as the first one it settles what the lines of its text decide |
| `SmtpProbe.Probe.OnTimeout` | src/engine/smtp.ts:341-341 | a timeout settles only an open probe |
| `SmtpProbe.Probe.OnError` | src/engine/smtp.ts:342-342 | an error settles only an open probe |
| `SmtpProbe.ChunkingIsIrrelevant` | src/engine/smtp.ts:313-339 | buffer, dialogue, commands and verdict depend only on the concatenated text |
| `SmtpProbe.FeedsText` | src/engine/smtp.ts:313-339 | the state is that of the whole text's complete lines, the rest in the buffer |
| `SmtpProbe.UndecidedOrDecided` | src/engine/smtp.ts:325-337 | before a verdict, exactly the commands whose expected replies came were sent, a prefix of EHLO, MAIL, RCPT |
| `SmtpProbe.SettledIff` | src/engine/smtp.ts:300-306 | a probe settles on a result exactly when some reply ends an undecided dialogue with it; later replies change nothing |
| `SmtpProbe.SettledByText` | src/engine/smtp.ts:313-339 | over the lines of the text: settled on a result exactly when one of them ends the dialogue with it |
| `SmtpProbe.CommandsByText` | src/engine/smtp.ts:325-333 | before that, each command follows the reply that calls for it |
| `SmtpProbe.AcceptedIff` | src/engine/smtp.ts:325-337 | however the text is cut into chunks, accepted exactly when its lines say 220, then some time 250, then 250, then 250 or 251, each at the end of a reply |
| `SmtpProbe.SmtpProbeWithFallback` | src/engine/smtp.ts:51-68 | the answer of the first of three attempts that is definitive or finds the relay down, else of the last |
| `Limiter.PoolInvariant` | src/lib/concurrencyLimiter.ts:12-36 | over every interleaving: slots in use are granted unreleased tasks, at most the maximum; waiting means full; FIFO grants |
| `Limiter.AllGrantedWhenAllSettled` | src/lib/concurrencyLimiter.ts:12-36 | no lost wake-up: once every granted task settled, all were granted, exactly when there is a slot |
| `Limiter.SomeoneCanSettle` | src/lib/concurrencyLimiter.ts:12-36 | while a task is unsettled some running task can settle |
| `Limiter.SettlingProgresses` | src/lib/concurrencyLimiter.ts:29-34 | settling, with success or failure, lowers the number of unsettled tasks |
| `Limiter.ConcurrencyLimiter.StartNext` | src/lib/concurrencyLimiter.ts:16-22 | grants the head of the queue if a slot is free |
| `Limiter.ConcurrencyLimiter.Enter` | src/lib/concurrencyLimiter.ts:24-28 | an arrival queues and lets the head start |
| `Limiter.ConcurrencyLimiter.Leave` | src/lib/concurrencyLimiter.ts:29-34 | a task frees its slot whether it succeeded or not |
| `Limiter.RunWithConcurrency` | src/lib/concurrencyLimiter.ts:43-57 | for every schedule, result i is that of item i, and items start once each, in order; without a slot it never settles |
| `RateLimit.Invariant` | src/plugins/rateLimit.ts:14-33 | over every interleaving and clock: an owed EXPIRE lands in its own lifetime, lifetimes begin a window apart |
| `RateLimit.AtMostLimitPerLifetime` | src/plugins/rateLimit.ts:14-33 | at most `limit` requests are admitted per lifetime of the key |
| `RateLimit.ExactlyTheFirstAreAdmitted` | src/plugins/rateLimit.ts:22-32 | exactly the first `limit` hits of a lifetime are admitted, each told what remains |
| `RateLimit.FarLivesAreFarApart` | src/plugins/rateLimit.ts:17-20 | hits two lifetimes apart are at least a window apart |
| `RateLimit.FewerThanTwiceLimitPerSpan` | src/plugins/rateLimit.ts:14-33 | in any 60 seconds fewer than twice `limit` are admitted |
| `RateLimit.BoundIsMet` | src/plugins/rateLimit.ts:14-33 | for every limit some run admits twice the limit less one in 60 seconds |
| `RateLimit.RateLimiter.Increment` | src/plugins/rateLimit.ts:15-15 | INCR counts on, or from one on a key that is gone |
| `RateLimit.RateLimiter.SetTtl` | src/plugins/rateLimit.ts:17-20 | a present key keeps its count and lasts a window from now; a key that is gone stays gone |
| `RateLimit.RateLimiter.Decide` | src/plugins/rateLimit.ts:22-32 | rejects above the limit, else answers what remains |
| `MxCache.RunAgrees` | src/engine/mx.ts:122-139 | after any run every entry is the latest set of its key, keys are distinct, and the size is within the cap |
| `MxCache.HitIsLatestSet` | src/engine/mx.ts:122-139 | a hit is the value of the latest set, no more than the TTL ago; the size never passes the cap |
| `MxCache.BothCachesAreFresh` | src/plugins/auth.ts:76-96 | at their configured sizes, MX answers are at most five minutes old and keys one |
| `MxCache.SlackAfterSet` | src/engine/mx.ts:132-139 | how many sets a new entry is sure to outlive: all but one of the cap, or those of the entry it overwrote in place |
| `MxCache.Survives` | src/engine/mx.ts:122-139 | an entry outlives as many sets as its slack, whatever other lookups and sets happen |
| `MxCache.SetAfterMissSurvives` | src/engine/mx.ts:28-35 | a set after a miss is found until it expires, through fewer than the cap of later sets |
| `MxCache.SurvivesExactly` | src/engine/mx.ts:132-139 | through sets of fresh keys an entry lasts exactly as long as its slack |
| `MxCache.OverwrittenIsEvictedEarly` | src/engine/mx.ts:132-139 | a run in which the latest entry of a domain, set in place, is evicted after two more sets |
| `MxCache.Cache.GetCached` | src/engine/mx.ts:122-130 | finds an unexpired entry and deletes an expired one |
| `MxCache.Cache.SetCached` | src/engine/mx.ts:132-139 | evicts the first key of a full map, then sets in place or at the end |
| `MxCache.Cache.LookupMx` | src/engine/mx.ts:28-35 | answers a fresh entry of the history, or what the resolver said, which it sets after the miss |
| `BulkJob.ResumeRefines` | src/workers/bulkWorker.ts:155-163 | from any point on the way the remaining work ends in the same rows |
| `BulkJob.RecountOneMore` | src/workers/bulkWorker.ts:241-310 | one verdict moves the recount by that verdict |
| `BulkJob.RecountBalances` | src/workers/bulkWorker.ts:171-176 | processed equals valid plus invalid plus risky plus unknown plus error |
| `BulkJob.RecountCountsRows` | src/workers/bulkWorker.ts:171-176 | each counter is the number of processed rows, duplicates apart, that have its status |
| `BulkJob.OnTheWayTells` | src/workers/bulkWorker.ts:228-306 | column by column: a row is as it was, or was pending and is processed with the status its verdict names |
| `BulkJob.AllVerifiedEndsRight` | src/workers/bulkWorker.ts:155-176 | so at the end: every pending row carries its verdict, no other row changed, and the counters count the rows |
| `BulkJob.ToVerifyIsPending` | src/workers/bulkWorker.ts:162-162 | the rows to verify are exactly the pending ones, in row order |
| `BulkJob.DoneAndToDo` | src/workers/bulkWorker.ts:161-163 | already done plus to verify is the number of non-duplicates |
| `BulkJob.AttemptKeepsPromises` | src/workers/bulkWorker.ts:155-333 | wherever an attempt stops: rows on the way, progress not lower, no row with a verdict verified again |
| `BulkJob.Job.Flush` | src/workers/bulkWorker.ts:435-493 | one transaction writes all accumulated updates |
| `BulkJob.Job.VerifyChunk` | src/workers/bulkWorker.ts:222-310 | one update per row of the chunk, with the status its verdict names, and each counter raised by the number of verdicts of its kind |
| `BulkJob.Job.WriteProgress` | src/workers/bulkWorker.ts:312-327 | rows, then counters, with a crash possible before either |
| `BulkJob.Job.RunChunk` | src/workers/bulkWorker.ts:205-328 | every chunk is flushed, so the accumulator is empty at every chunk boundary |
| `BulkJob.Job.RunChunks` | src/workers/bulkWorker.ts:205-328 | the chunk loop ends done, cancelled or dead at a point that keeps the promises |
| `BulkJob.Job.StopForCancel` | src/workers/bulkWorker.ts:211-220 | a cancel at a boundary loses no verdict and bills what is processed |
| `BulkJob.Job.Complete` | src/workers/bulkWorker.ts:391-415 | the completing write and the one bill |
| `BulkJob.Job.EndAttempt` | src/workers/bulkWorker.ts:211-220 | what is billed and stored for each way the loop ended |
| `BulkJob.Job.ProcessBulkJob` | src/workers/bulkWorker.ts:85-415 | one attempt, finished, cancelled or dead at any write, keeps its promises; finished, every row has the status of its verdict and every counter counts its rows; a death bills nothing |
| `BulkJob.Job.RecoverStalled` | src/workers/bulkWorker.ts:657-694 | a job left processing is queued again with its counts |
| `BulkJob.StoredIsNotVerifiedAgain` | src/workers/bulkWorker.ts:155-163 | over a history of attempts, a row whose verdict an earlier attempt stored is not verified by a later one and keeps its verdict |
| `BulkJob.RunDespiteCrashes` | src/workers/bulkWorker.ts:657-694 | after any crashes, cancels and sweeps: such a history; completed, the rows and counters of one uninterrupted run, with every verdict in place and counted; nothing billed by a death; each processed row billed once exactly when no earlier stop had anything processed; progress never lower |
| `BulkJob.CancelledTwice` | src/workers/bulkWorker.ts:211-220 | a job stopped, taken up again and stopped again is billed twice |
| `AgentRun.RunKeepsInv` | src/workers/agentRunWorker.ts:392-566 | what every run keeps, over any order of events |
| `AgentRun.CreatedExactly` | src/routes/agentRuns/index.ts:554-612 | creations are the stored id plus those that went unrecorded |
| `AgentRun.AtMostOneCreation` | src/routes/agentRuns/index.ts:554-612 | over events whose handlers store what they create, at most one campaign or sequence, and none while waiting |
| `AgentRun.NothingMoreExactly` | src/workers/agentRunWorker.ts:403-409 | no later events create anything exactly when the row has an id, is cancelled or does not parse |
| `AgentRun.StaysAtOneExactly` | src/workers/agentRunWorker.ts:403-409 | after the first creation there is never a second exactly when the id was stored or the run cancelled |
| `AgentRun.PendingMeansDraftUnsent` | src/workers/agentRunWorker.ts:392-469 | waiting for approval implies a draft and no id, and nothing created over events whose handlers store what they create |
| `AgentRun.NothingWithoutApproval` | src/workers/agentRunWorker.ts:484-566 | outbound and reviewed nurture runs create nothing without an approval |
| `AgentRun.DraftStays` | src/workers/agentRunWorker.ts:403-409 | a stored draft is never replaced |
| `AgentRun.ApprovedIsTheDraft` | src/lib/nurtureAgent.ts:15-42 | what an approval creates is built of exactly the draft that was waiting |
| `AgentRun.BuiltTellsTheDraft` | src/lib/outboundAgent.ts:34-67 | the campaign or sequence rows keep all of the draft: equal rows, equal drafts |
| `AgentRun.BuiltCarries` | src/lib/outboundAgent.ts:34-67 | what is created has the draft's text and the configuration's sender and audience, its steps numbered in order with their delays |
| `AgentRun.StoredRun.Build` | src/lib/outboundAgent.ts:34-67 | the rows written, steps numbered in order with their delays |
| `AgentRun.ApprovalSends` | src/routes/agentRuns/index.ts:554-612 | approving a waiting run completes it, stores the id and creates its draft |
| `AgentRun.ResumedRunWaitsAgain` | src/workers/agentRunWorker.ts:403-409 | pause, resume and kick bring a waiting run back with the same draft and nothing created |
| `AgentRun.PauseAndResume` | src/routes/agentRuns/index.ts:500-511 | pausing makes a run paused and resuming makes it active, and they change nothing else |
| `AgentRun.PausedDoesNothing` | src/workers/agentRunWorker.ts:129-148 | a paused run creates nothing and drafts nothing until it is resumed |
| `AgentRun.KickInWords` | src/workers/agentRunWorker.ts:392-469 | a kick moves only an active run, and ends waiting, failed, running or completed exactly under their conditions |
| `AgentRun.SentIsFinal` | src/workers/agentRunWorker.ts:403-409 | after a stored id nothing more is created |
| `AgentRun.CancelledIsAbsorbing` | src/routes/agentRuns/index.ts:525-545 | no event changes a cancelled run |
| `AgentRun.UnrecordedIsRepeated` | src/routes/agentRuns/index.ts:595-602 | a creation that goes unrecorded is followed by a second one |
| `AgentRun.StoredRun.ProcessKick` | src/workers/agentRunWorker.ts:129-148 | kick and tick take exactly the specified step |
| `AgentRun.StoredRun.PatchRun` | src/routes/agentRuns/index.ts:478-522 | pause and resume, with the status and mark they set, rejected exactly when cancelled |
| `AgentRun.StoredRun.CancelRun` | src/routes/agentRuns/index.ts:525-545 | cancelling is idempotent |
| `AgentRun.StoredRun.ApproveRun` | src/routes/agentRuns/index.ts:554-612 | approval acts exactly on a pending run with a valid configuration and a draft |
| `AgentRun.StoredRun.TriggerRun` | src/routes/agentRuns/index.ts:617-635 | a trigger enqueues only for an active run and changes nothing |
| `Enrollment.EnrolledIsExclusive` | src/lib/outboundAgent.ts:73-91 | enrolling never makes an address active twice |
| `Enrollment.MembersAreTheFree` | src/lib/outboundAgent.ts:73-91 | the new sequence holds exactly the leads none of whose rows is active |
| `Enrollment.ConflictsAreHeld` | src/lib/outboundAgent.ts:81-85 | the conflicts are the leads whose address some row holds active |
| `Enrollment.Account.EnrollLeads` | src/lib/outboundAgent.ts:69-93 | the rows added, and enrolled, skipped and conflicts, which add up to the leads |
| `SequenceEnrollment.Select` | src/workers/sequenceWorker.ts:291-316 | the chosen mailbox is available, and there is one exactly when any is |
| `SequenceEnrollment.SelectPrefers` | src/workers/sequenceWorker.ts:291-316 | of the mailboxes that can send: the recorded one for a follow-up, else the own one, else the best ranked; none only when none can |
| `SequenceEnrollment.StepsGoOutInOrder` | src/workers/sequenceWorker.ts:188-393 | over any run the step never falls or passes the end, and email steps go out in order |
| `SequenceEnrollment.AdvanceSchedules` | src/workers/sequenceWorker.ts:373-389 | a stored send, a skip and a finished task advance by one step and schedule the next after its own delay; nothing else moves either |
| `SequenceEnrollment.SendKeepsDelay` | src/workers/sequenceWorker.ts:96-101 | over any run a send comes no earlier than its delay after the event that brought its step up |
| `SequenceEnrollment.DelaysAreKept` | src/workers/sequenceWorker.ts:373-389 | and from a new enrollment there is such an event for every step after the first, which waits for its own time |
| `SequenceEnrollment.AtMostOnceWhenStored` | src/workers/sequenceWorker.ts:373-393 | from a new enrollment, over ticks whose updates are stored, every step goes out at most once, in order |
| `SequenceEnrollment.RepeatsExactlyAfterUnstored` | src/workers/sequenceWorker.ts:373-413 | a tick repeats a step exactly when the last send was of it and could not be stored |
| `SequenceEnrollment.UnstoredIsResent` | src/workers/sequenceWorker.ts:385-413 | over any run: after a send whose update failed, the next tick that finds nothing against it sends the step again |
| `SequenceEnrollment.Quiet` | src/workers/sequenceWorker.ts:96-101 | ended, parked and unscheduled enrollments change no more |
| `SequenceEnrollment.SkippedLastStepStrands` | src/workers/sequenceWorker.ts:206-219 | skipping the last step leaves the enrollment active for ever |
| `SequenceEnrollment.NothingWhileSuppressed` | src/workers/sequenceWorker.ts:130-137 | nothing is sent to an address that ticks find suppressed |
| `SequenceEnrollment.ThreadKeepsItsMailbox` | src/workers/sequenceWorker.ts:294-305 | a recorded mailbox stays, and follow-ups use it while it is available |
| `SequenceEnrollment.SendsKeepLimits` | src/workers/sequenceWorker.ts:291-348 | a send that counts leaves the mailbox within its daily limit |
| `SequenceEnrollment.RunKeepsLimits` | src/workers/sequenceWorker.ts:291-348 | over any run no send pushes a mailbox past its limit |
| `SequenceEnrollment.SendIsCharged` | src/workers/sequenceWorker.ts:344-393 | a send is charged to its mailbox and to no other, and the first stored one records it |
| `SequenceEnrollment.TickEndsIn` | src/workers/sequenceWorker.ts:126-237 | when a tick ends a due enrollment, and how, when it parks it, and when it sends |
| `SequenceEnrollment.TaskEndsIn` | src/routes/sequences/index.ts:710-726 | a finished task ends the enrollment exactly when its step was the last |
| `SequenceEnrollment.SequenceStore.SelectMailbox` | src/workers/sequenceWorker.ts:291-316 | selects as specified |
| `SequenceEnrollment.SequenceStore.SendStep` | src/workers/sequenceWorker.ts:323-393 | the send, the mailbox count and the enrollment update, with the next send after the delay of the next step |
| `SequenceEnrollment.SequenceStore.HandleEnrollment` | src/workers/sequenceWorker.ts:126-414 | one due enrollment takes exactly the specified step; if it advances, the next send is after the delay of the next step |
| `SequenceEnrollment.SequenceStore.ProcessSequenceTick` | src/workers/sequenceWorker.ts:87-417 | a tick is a run of such steps |
| `SequenceEnrollment.SequenceStore.CompleteManualTask` | src/routes/sequences/index.ts:691-730 | a finished task moves exactly a parked enrollment on, its next send after the delay of the next step |
| `Webhook.DispatchKeepsInv` | src/lib/webhooks.ts:97-150 | a dispatch keeps one delivery per event and enqueues a first job of a new id |
| `Webhook.DispatchInWords` | src/lib/webhooks.ts:97-150 | a dispatch adds one undecided delivery and its first job, unless its event id was dispatched before |
| `Webhook.RetryEnqueues` | src/workers/webhookWorker.ts:329-350 | a retry's job id is new, so the queue takes it |
| `Webhook.AttemptKeepsInv` | src/workers/webhookWorker.ts:244-350 | an attempt keeps chain, ids, POST counts and counters |
| `Webhook.AttemptInWords` | src/workers/webhookWorker.ts:244-350 | delivered exactly when the POST succeeded, failed for good exactly when it failed as the last one allowed, else the next job is pending; the counters follow |
| `Webhook.DecidedByItsAttempts` | src/workers/webhookWorker.ts:244-289 | over any run: delivered exactly when one of its attempts succeeded, failed for good exactly when all allowed were made and none did |
| `Webhook.SuccessIsLast` | src/workers/webhookWorker.ts:149-165 | no attempt of a delivery follows a successful one |
| `Webhook.PostsAreBounded` | src/workers/webhookWorker.ts:149-165 | at most `maxAttempts` POSTs, one per attempt; never both delivered and failed; failed means all were used |
| `Webhook.PendingIffUndecided` | src/workers/webhookWorker.ts:329-350 | exactly one pending job exactly while undecided |
| `Webhook.CountersTellTheOutcomes` | src/workers/webhookWorker.ts:261-308 | total is success plus failure, the successes are the attempts whose POST succeeded, the streak is the trailing failures, job ids never repeat |
| `Webhook.ChainsTerminate` | src/workers/webhookWorker.ts:278-350 | no more attempts are possible than remain |
| `Webhook.EmptyQueueMeansDecided` | src/workers/webhookWorker.ts:329-350 | the queue is empty exactly when all is decided |
| `Webhook.DelayRange` | src/workers/webhookWorker.ts:109-114 | a delay lies within a fifth of its base, and under the cap |
| `Webhook.DelaysInSeconds` | src/workers/webhookWorker.ts:98-114 | the delays of the five attempts and beyond, in milliseconds |
| `Webhook.DelaysIncreaseThroughTheFifth` | src/workers/webhookWorker.ts:98-114 | delays strictly increase for all jitters exactly through the fifth |
| `Webhook.Endpoint.DeliverToEndpoint` | src/lib/webhooks.ts:97-150 | deduplicates by event and creates delivery and first job |
| `Webhook.Endpoint.ProcessWebhookDelivery` | src/workers/webhookWorker.ts:136-350 | one attempt takes exactly the specified step: delivered on a successful POST, given up on the last failed one, else queued again |
| `LeaseLock.Invariant` | src/workers/monitorWorker.ts:176-186 | a worker in its lease owns the lock, and a live lock has such an owner |
| `LeaseLock.MutualExclusion` | src/workers/monitorWorker.ts:176-186 | of two busy workers one overran its lease |
| `LeaseLock.OverrunIsHarmless` | src/workers/agentRunWorker.ts:198-203 | with a one-step release and distinct values no worker takes another's lock |
| `LeaseLock.GetEndsOnAnothers` | src/workers/monitorWorker.ts:301-307 | with values never used before, a GET on another's live lock ends the release, so a GET and a DEL with no time between take nobody else's lock |
| `LeaseLock.DelTakesAnothersExactly` | src/workers/monitorWorker.ts:301-307 | a DEL takes another's lock exactly when its lease is over and someone else is in theirs |
| `LeaseLock.LateDelBreaksExclusion` | src/workers/monitorWorker.ts:301-307 | a run in which it does, and two workers then hold leases at once |
| `LeaseLock.EqualValuesBreakExclusion` | src/workers/monitorWorker.ts:177-178 | equal lock values defeat the comparison |
| `LeaseLock.RedisLock.TryAcquire` | src/workers/monitorWorker.ts:182-186 | SET NX PX succeeds exactly on a free or expired key |
| `LeaseLock.RedisLock.CheckOwn` | src/workers/monitorWorker.ts:303-304 | the GET and its comparison |
| `LeaseLock.RedisLock.Delete` | src/workers/monitorWorker.ts:305-305 | the key goes, whoever owns it, and only this worker stops being busy |
| `FailureBackoff.BackoffRange` | src/workers/monitorWorker.ts:275-280 | back-off starts from the interval and doubles with each failure up to 24 hours |
| `FailureBackoff.JitteredRange` | src/workers/monitorWorker.ts:359-364 | the jittered interval stays within a tenth |
| `FailureBackoff.StreakAndPause` | src/workers/monitorWorker.ts:262-300 | failures are the current streak; active means fewer than five; five means paused |
| `FailureBackoff.PausesAtTheFifth` | src/workers/agentRunWorker.ts:349-384 | a failure pauses exactly when it is the fifth in a row, and schedules its back-off |
| `FailureBackoff.NextCheckIsNear` | src/workers/monitorWorker.ts:201-293 | an active record's next check lies between its last scheduling and max(1.1 interval, 24h) after it |
| `FailureBackoff.NextCheckAfterOutcome` | src/workers/monitorWorker.ts:240-293 | after an outcome the next check lies strictly ahead, at most max(1.1 interval, 24h), through any waits and rechecks, or is due |
| `FailureBackoff.NearOutcomeExactly` | src/workers/monitorWorker.ts:199-293 | the next check is within that bound of the last outcome exactly when the last event that wrote the schedule came soon enough after it |
| `FailureBackoff.ActiveHasLastWrite` | src/workers/monitorWorker.ts:199-293 | over any history an active record has the schedule it was created with, or an event that last wrote it |
| `FailureBackoff.SkipKeepsBoundExactly` | src/workers/monitorWorker.ts:199-206 | a quota skip keeps the bound for every jitter exactly when the outcome is at most max(0, 24 - 1.1 interval) hours ago |
| `FailureBackoff.IntervalKeepsBoundExactly` | src/routes/monitor/index.ts:379-398 | a new interval keeps it exactly when the outcome is at most max(0.1 interval, 24 - interval) hours ago |
| `FailureBackoff.BoundFromOutcomeFails` | src/workers/monitorWorker.ts:199-206 | a daily monitor that breaks the bound by a skip, or by setting its interval again |
| `FailureBackoff.WatchRow.RecordSuccess` | src/workers/monitorWorker.ts:240-250 | a success resets the streak and reschedules within a tenth of the interval |
| `FailureBackoff.WatchRow.RecordFailure` | src/workers/agentRunWorker.ts:349-376 | a failure counts, backs off and pauses at five |
| `FailureBackoff.WatchRow.SkipForQuota` | src/workers/monitorWorker.ts:199-206 | a quota skip moves the next check to a jittered interval from now and changes nothing else |
| `FailureBackoff.WatchRow.RequestRecheck` | src/routes/monitor/index.ts:442-475 | a manual recheck makes exactly an active monitor due now |
| `FailureBackoff.WatchRow.PatchRow` | src/routes/monitor/index.ts:379-398 | resume, deactivate and interval changes, for monitors and agent runs, with the next check one new interval on |
| `FinderBilling.BillsAdd` | src/plugins/usageMeter.ts:277-314 | billing twice is billing the sum |
| `FinderBilling.BillingIsPathIndependent` | src/plugins/usageMeter.ts:277-314 | a month's bill depends only on the number of leads |
| `FinderBilling.BillInWords` | src/plugins/usageMeter.ts:277-314 | leads within the allowance cost one of it each, every lead beyond it two verifications |
| `FinderBilling.AffordableInWords` | src/plugins/usageMeter.ts:244-268 | a count is affordable exactly when the allowance covers it or two verifications are left for each lead beyond it |
| `FinderBilling.AffordableDropsByTheCount` | src/plugins/usageMeter.ts:244-268 | what remains affordable is less by the count, down to nothing, despite the floor |
| `FinderBilling.AffordableMeansWithinLimits` | src/plugins/usageMeter.ts:244-314 | a key stays within its limits exactly when the bill was affordable |
| `FinderBilling.NoCounterPasses` | src/plugins/usageMeter.ts:277-314 | an affordable bill moves no counter past its limit, whatever the key's state |
| `FinderBilling.AllowanceIsGuaranteed` | src/plugins/usageMeter.ts:204-216 | plain verification never reduces the Finder allowance |
| `FinderBilling.KeyRow.Affordability` | src/plugins/usageMeter.ts:244-268 | the two pools and their sum |
| `FinderBilling.KeyRow.IncrementUsageBy` | src/plugins/usageMeter.ts:204-216 | adds a positive count, ignores others, and leaves the Finder allowance alone |
| `FinderBilling.KeyRow.IncrementFinderUsage` | src/plugins/usageMeter.ts:277-314 | bills the allowance first, the rest at two for one |
| `FinderBilling.KeyRow.SearchSize` | src/workers/agentRunWorker.ts:602-610 | a search asks for no more than is affordable, and for something if anything is |
| `FinderBilling.KeyRow.ProcessFound` | src/workers/agentRunWorker.ts:689-759 | a batch within the affordable is billed for what the engine answered, and never overspends |

## Left out

- Network, DNS, TLS, IMAP, SES, Apify, Anthropic, Salesforce and Supabase calls: their results are parameters.
- Email HTML, logging, Sentry, configuration, route schemas, OAuth, HMAC, DKIM and tokens: no state of their own here.
- `scorer.ts` and the table of free email providers: a finite table.
- Characters outside ASCII: lower-casing touches A to Z only, and text is a sequence of characters, not UTF-16 units or
  bytes; so a multi-byte character cut by a chunk boundary, which the probe decodes wrongly, does not arise, and the
  sort order of the blocklist file is by character.
- The wording of the syntax reasons: they are an enumeration, proved true of the address, not proved to be the first
  that applies.
- Subdomain nesting in `checkLookalike` is modelled as written; that a real subdomain of a brand is never flagged is
  false for brands with several protected domains and is not claimed.
- `rawResponse` of the probe, which does depend on chunking, and the sockets' destruction.
- Liveness of the pool beyond a measure that every settling lowers.
- Redis failing open and the reconnect retry of the rate limiter; its reset time and retry-after headers.
- The retries of an uncached MX lookup, and clearing the cache.
- Bulk rows being created, the CSV export, and crashes after the completing write, between it and the bill.
- BulkJob.Job.ProcessBulkJob: a cancel is read only before a chunk, so a job with nothing left to verify completes even
  if cancelled; a crash inside a chunk counts as one before its first write.
- BulkJob.RunDespiteCrashes: whether a stopped job is taken up again is a parameter of the run, not read off the
  status its last write left; the half hour the sweep waits is not modelled.
- Overlapping executions of one handler: each agent-run, webhook and enrollment handler is one step, so a cancel that
  arrives while a draft is being written, which the draft's write would undo, is not seen.
- A crash, as opposed to an exception, between creating and storing on an automatic send leaves the agent run's source
  row `running`; the model ends that step failed.
- Agent-run pillars other than nurture and outbound, except their failure streak.
- Webhook deliveries whose first job could not be enqueued, redelivered jobs, the manual retry route, alerts, and the
  stored `nextRetryAt`, which draws its own jitter.
- Sequence steps edited during a run, replies, subsequences and the content of the emails.
- FailureBackoff.NextCheckIsNear: time is a real number of hours, and the bound runs from the last scheduling, which is
  later than the last outcome after a quota skip, a recheck or a changed interval; FailureBackoff.NearOutcomeExactly
  says when it holds from the outcome.
- Real-number rounding of delays beyond `Math.round`, which is modelled.
- Delivery completeness of campaigns: the worker's quota trimming and fixed stride do not give it.
