# Verified model of the bot runtime

The bot runtime receives chat events for contact+conversation pairs, collects the events
of a pair in a debounce window, sends the collected message to an AI processor and posts
the answer back in parts. This project models its core in Dafny and proves the properties
its design relies on.

| files | what they model |
|---|---|
| `Machine.dfy` | one pair as a machine of atomic steps: every store call, every operation on the `entries` map and every cancel call of every goroutine of every instance, in any interleaving, with failures (also failures that took effect), panics, crashes, lock expiry after a crash and clock ticks |
| `MachineSafety.dfy` | invariants of all interleavings, any number of instances: a window pays for one AI turn, quiet period, what a launch carries, mutual exclusion |
| `MachineSingle.dfy` | one instance with crashes and restarts: a generation is launched once, entry and persisted turn agree, recovery |
| `MachineLive.dfy`, `MachineOverlap.dfy` | one live pipeline per pair: exactly when it holds, under which discipline, and the runs of the raw code in which it fails |
| `MachineWindow.dfy` | whether a stored window keeps its entry: exactly when, and a run that loses a message |
| `MachineSolo.dfy`, `MachinePrograms.dfy`, `Turns.dfy` | what the steps of one goroutine do alone: an event, an expiry, a reply, recovery and `Cancel`, with success and with failures; what one event does by stage and any number of events to a window |
| `Keys.dfy`, `Repository.dfy`, `Debounce.dfy`, `Pipeline.dfy` | key codecs; repository, debounce engine and pipeline service as classes over one flat key space, with recovery and the polling pass |
| `Sequences.dfy`, `Text.dfy`, `Segmentation.dfy` | the greedy word packer and the merge pass |
| `Media.dfy`, `MediaLinks.dfy`, `MediaTrim.dfy`, `MediaAgain.dfy`, `MediaExamples.dfy` | extraction of media URLs by lexing, repeated replacement and trimming, and extraction from what it leaves |
| `Dispatch.dfy` | the interruptible send loop |
| `Backoff.dfy`, `Retry.dfy`, `RetryOutcome.dfy` | the wrapping backoff shift, the retry loop under its ceiling, and what a call reports |
| `Attachments.dfy`, `Base64.dfy` | the attachment budget |

How the parts connect. `Machine` has one pair; `Repository` proves that every store
operation leaves the data of all other pairs alone, which is why one pair is the general
case. `MachineSolo` proves that the machine's `Process` and `advanceToAI`, run alone and
without failures, do exactly what `Turns` says, and the classes in `Pipeline` are proved
against the same functions of `Turns`.

## Where the code does not keep a law

For each of these there is a lemma with a failing input or run, and a lemma with the exact
condition (an "if and only if") under which the law holds.

- "A pair has at most one live pipeline". A generation is live while its context is not
  cancelled and it is the pair's entry or has a goroutine of its reply under way. In a run of
  one instance the law holds if and only if no entry is stored while an uncancelled reply of
  the pair is under way (`MachineLive.OneLiveExactly`). It fails in two ways: a cancelled turn
  that had finished sending deletes the entry of its successor
  (`MachineOverlap.TwoLivePipelines`), and an event is processed between the two steps of
  `Cancel` (`MachineOverlap.CancelOverlaps`). It holds in every run without these two
  (`MachineLive.OneLiveUnlessForeign`), hence under the discipline that the source's comments ask
  for (`MachineLive.OneLivePipeline`).
- "A stored debounce window has its entry, so the poller serves it". The last step of an
  earlier turn can delete the entry of a window opened after that turn cleared the pair
  (`MachineWindow.LostWindow`); `MachineWindow.WatchedExactly` is the condition, and
  `MachineWindow.OrphaningSteps` names the program points that can break it.
- "The repeated replacement removes exactly the media links". It cuts text out of the wrong
  link when a link that is not media contains the text of a later media URL
  (`MediaExamples.ShadowedPicture`; `Media.ReplaceIsCut`).
- "Extracting again from the residual text finds no media". A shadowed media URL always stays
  in the text (`MediaExamples.ShadowedPicture`), and `strings.TrimSpace` removes white space that
  `\s` of the URL expression does not match, such as a no-break space, which can uncover an
  extension (`MediaExamples.TrimUncoversPicture`). There is no third way (`MediaAgain.ExtractAgain`).
- "The AI call reports a cancellation only if the caller cancelled". The overall ceiling is
  computed in 64 bits and can overflow (`Retry.LongTimeoutCancels`; `Retry.CancelsOnlyOnRequest`).
- "A cancelled AI call reports the cancellation". It reports a failure instead when the
  cancellation arrives while the body of a final answer is read
  (`Retry.CancelledWhileReading`; `Retry.CancelledOutcome`), and the failure branch then clears the
  pair.
- "The backoff is min(base * 2^(attempt-1), 5 s)". The shift falls back under the cap for some
  very large bases (`Backoff.LargeBaseFallsBack`; `Backoff.SaturatesUnlessFallsBack`).
- "Recovery finds every stored pair while there are at most 10000". `ScanStates` counts keys that
  SCAN returns twice, so another pair's key can use the limit up, whatever it is
  (`Repository.RepeatedKeysCrowdOut`; `Repository.ScanFinds`).

## Model

| member | source | states |
|---|---|---|
| MachineSafety.WindowsPayOnce | pkg/pipeline/service/pipeline_service.go:117-333 | in every interleaving of any number of instances, no two AI launches spend the same debounce window or zero-debounce turn, so launches never exceed windows opened plus zero-debounce turns |
| MachineSafety.QuietPeriod | pkg/pipeline/service/pipeline_service.go:273-333 | at every launch by `advanceToAI` the timer set last has run its whole TTL or was removed by `ClearState`, and no message was appended between the timer check and the launch |
| MachineSafety.LaunchCarriesTheBuffer | pkg/pipeline/service/pipeline_service.go:226-256 | in every interleaving the message of an AI launch is exactly the contents appended since the last clear before the buffer was read, in order, its media likewise or none if that read failed, and nothing but clears came between the reads and the launch |
| MachineSafety.MutualExclusion | pkg/pipeline/service/pipeline_service.go:117-122 | two goroutines are never inside the locked sections of a pair together |
| MachineSafety.ActionKeeps | pkg/pipeline/service/pipeline_service.go:117-534 | every step of every goroutine, crash, tick and lock expiry keeps the invariant that ties lock holder, stage, program counters and spent windows together |
| MachineSingle.LaunchedOnce | pkg/pipeline/service/pipeline_service.go:338-358 | with one instance, one stored entry is launched into AI at most once, whatever old goroutines overwrite or delete |
| MachineSingle.EntryIsPersisted | pkg/pipeline/service/pipeline_service.go:160-194 | with one instance, while the stored stage is debounce an entry in memory carries exactly the persisted config, URLs, API key and metadata |
| MachineSingle.CrashRecovers | pkg/pipeline/service/pipeline_service.go:84-103 | a crash at any reachable point of a debounce window followed by `Start` rebuilds an unlaunched entry equal to the lost one and leaves the stored data as it was |
| MachineSingle.RestartRebuilds | pkg/pipeline/service/pipeline_service.go:84-103 | the rebuilt entry is the persisted turn under a new generation, also when memory had no entry |
| MachineLive.OneLiveExactly | pkg/pipeline/service/pipeline_service.go:129-156 | in a run of one instance a pair never has two live generations if and only if no entry is stored, by `Process` or by recovery, while an uncancelled reply of the pair is under way |
| MachineLive.OneLiveUnlessForeign | pkg/pipeline/service/pipeline_service.go:129-156 | in a run in which `Cancel` stays out of locked sections and no turn deletes the entry of another turn whose reply is under way, there are never two live generations, even when cancelled goroutines go on writing |
| MachineLive.OwnedExactly | pkg/pipeline/service/pipeline_service.go:514-527 | in a run of one instance every uncancelled generation with a reply under way stays where `cancelPair` finds it (or is being cancelled) if and only if no finished turn deletes the entry of another such generation |
| MachineLive.ForeignDropBreaks | pkg/pipeline/service/pipeline_service.go:526-527 | such a deletion always leaves a live generation that no canceller can reach |
| MachineLive.NothingForeign | pkg/pipeline/service/pipeline_service.go:592-605 | when cancelled goroutines write nothing and `Cancel` stays out of locked sections, no such deletion is possible |
| MachineLive.OneLivePipeline | pkg/pipeline/service/pipeline_service.go:129-156 | under that discipline a pair never has two uncancelled generations debouncing, calling AI or dispatching, and the one it has is its entry or has just been taken to be cancelled |
| MachineOverlap.TwoLivePipelines | pkg/pipeline/service/pipeline_service.go:504-527 | the raw code does reach a state with two live pipelines for one pair |
| MachineOverlap.CancelOverlaps | pkg/pipeline/service/pipeline_service.go:592-605 | so does an event processed between the two steps of `Cancel`, while no reply has taken a step and every live reply is still findable |
| MachineWindow.LosesExactly | pkg/pipeline/service/pipeline_service.go:551-568 | step by step, a stored window loses its entry exactly by the steps that take it away, open a window without one, or end a recovery that passed it over |
| MachineWindow.WatchedExactly | pkg/pipeline/service/pipeline_service.go:551-568 | in a run of one instance every stored window has its entry while the instance is up, so the poller serves it, if and only if there is no such step |
| MachineWindow.OrphaningSteps | pkg/pipeline/service/pipeline_service.go:172-194 | in reachable states only the last step of a turn, `Cancel`, the abort of a window stored despite a reported error, a window opened behind a deleted entry, and a recovery that failed to read the state can do this |
| MachineWindow.LostWindow | pkg/pipeline/service/pipeline_service.go:526-527 | the raw code does reach a state with a stored window, no entry and no goroutine left: the message is waited for by nobody |
| MachineSolo.SoloIsSequential | pkg/pipeline/service/pipeline_service.go:117-158 | the atomic steps of `Process`, run alone from any state with a free lock, have the sequential effect on data, entry, cancelled contexts and launches |
| MachineSolo.SoloAdvances | pkg/pipeline/service/pipeline_service.go:273-333 | the atomic steps of `advanceToAI`, run alone with a free lock, move the pair to AI and launch its entry just when the window is due |
| MachinePrograms.InterruptedReply | pkg/pipeline/service/pipeline_service.go:405-411 | a reply whose AI call or dispatch is interrupted ends without a write: data, entries, contexts and lock stay as they were |
| MachinePrograms.InterruptedForGood | pkg/pipeline/service/pipeline_service.go:493-502 | in every interleaving such a reply changes nothing then and makes no step ever after |
| MachinePrograms.SuccessfulReply | pkg/pipeline/service/pipeline_service.go:435-534 | a successful reply passes through the stages dispatch and done and leaves a cleared pair without its entry |
| MachinePrograms.FailedReply | pkg/pipeline/service/pipeline_service.go:412-433 | a failed AI call or dispatch clears the pair and keeps the entry |
| MachinePrograms.UnmarkedReply | pkg/pipeline/service/pipeline_service.go:438-450 | so does a reply whose dispatch stage cannot be written |
| MachinePrograms.PanickedReply | pkg/pipeline/service/pipeline_service.go:631-643 | a panic in a reply clears the pair and takes its entry away |
| MachinePrograms.AbortedTurn | pkg/pipeline/service/pipeline_service.go:173-194 | a store operation that fails behind the new entry undoes the entry, cancels its context and releases the lock without a launch |
| MachinePrograms.BrokenSection | pkg/pipeline/service/pipeline_service.go:117-147 | any other store operation that fails in a locked section ends it with nothing changed but the lock |
| MachinePrograms.LockedOut | pkg/pipeline/service/pipeline_service.go:118-121 | a lock that cannot be had ends `Process` and `advanceToAI` at once |
| MachinePrograms.MediaUnread | pkg/pipeline/service/pipeline_service.go:305-315 | media that cannot be read cost the turn its media and nothing else |
| MachinePrograms.SoloCancels | pkg/pipeline/service/pipeline_service.go:592-605 | the steps of `Cancel` alone cancel the pair's context, take its entry away and clear its data |
| MachinePrograms.SoloRecovers | pkg/pipeline/service/pipeline_service.go:84-110 | the steps of recovery for a stored window leave an entry, the old one or one with the persisted turn, and when the timer is gone its AI call with the buffered message and media |
| MachinePrograms.PassedOver | pkg/pipeline/service/pipeline_service.go:84-88 | recovery leaves a pair in any other stage alone, and the instance is up behind it |
| Keys.ItoaParse | pkg/pipeline/service/pipeline_service.go:737-750 | parsing the decimal text of any int64 gives it back without error |
| Keys.PairKeyInverts | pkg/pipeline/service/pipeline_service.go:737-750 | `parsePairKey` undoes `pairKey` for all pairs of int64 |
| Keys.PairKeyInjective | pkg/pipeline/service/pipeline_service.go:737-739 | different pairs never share an entry key |
| Keys.StateKeyInverts | pkg/pipeline/repository/redis_pipeline_repository.go:149-159 | the parser of `ScanStates` undoes `stateKey` |
| Keys.RedisKeyInjective | pkg/pipeline/repository/redis_pipeline_repository.go:175-197 | the state, buffer, attach, lock and timer keys are injective and mutually disjoint |
| Keys.KeysInRedis | pkg/pipeline/repository/redis_pipeline_repository.go:173-197 | the texts of the keys of one pair |
| Keys.ParseIntExactly | pkg/pipeline/repository/redis_pipeline_repository.go:154-155 | the identifiers accepted are exactly rows of digits, perhaps behind a sign, of 64 bits, with the number they denote |
| Keys.ParseStateKeyExactly | pkg/pipeline/repository/redis_pipeline_repository.go:149-159 | a scanned key stands for a pair if and only if it has four parts whose last two are the pair's numbers |
| Repository.SetIsLocal | pkg/pipeline/repository/redis_pipeline_repository.go:29-36 | writing any key of a pair changes that part of its data, its other parts and all other pairs staying as they were |
| Repository.ClearIsLocal | pkg/pipeline/repository/redis_pipeline_repository.go:53-61 | `ClearState` leaves no data of the pair, keeps its lock and touches no other pair |
| Repository.UnlockIsLocal | pkg/pipeline/repository/redis_pipeline_repository.go:124-132 | releasing a pair's lock frees that pair only and keeps all data |
| Repository.RedisRepository.AppendToBuffer | pkg/pipeline/repository/redis_pipeline_repository.go:63-65 | the text goes behind the pair's buffer; every other key of every pair keeps its value |
| Repository.RedisRepository.AppendAttachments | pkg/pipeline/repository/redis_pipeline_repository.go:73-91 | the media go behind the pair's media list in order, an empty list writing nothing |
| Repository.RedisRepository.AcquireLock | pkg/pipeline/repository/redis_pipeline_repository.go:124-132 | one try: it succeeds exactly when the lock was free, and a failure changes nothing |
| Repository.RedisRepository.ScanStates | pkg/pipeline/repository/redis_pipeline_repository.go:134-167 | the parsable pairs in scan order, across all pages, cut at the limit |
| Repository.ScanIsComplete | pkg/pipeline/repository/redis_pipeline_repository.go:134-167 | every pair whose state key was returned is among the results while the keys returned, repetitions included, fit the limit |
| Repository.ScanFinds | pkg/pipeline/repository/redis_pipeline_repository.go:134-167 | a pair is among the results if and only if some key that stands for it comes before as many parsable keys as the limit, repetitions included |
| Repository.RepeatedKeysCrowdOut | pkg/pipeline/repository/redis_pipeline_repository.go:142-148 | for every limit, 10000 included, and any two pairs, repetitions of one pair's key leave the other one out |
| Debounce.DebounceEngine.Start | pkg/debounce/service/debounce_engine.go:31-45 | text and media are appended and the timer is armed for the full time, for this pair only |
| Debounce.DebounceEngine.Reset | pkg/debounce/service/debounce_engine.go:47-61 | the same as Start: the timer begins anew with every event |
| Turns.OneMoreEvent | pkg/pipeline/service/pipeline_service.go:129-142 | one more event inside a window has the same effect on buffer, media, timer and stage in either branch |
| Turns.EventByStage | pkg/pipeline/service/pipeline_service.go:129-157 | what one event does to buffer, media, timer, stage and persisted turn, stage by stage: interrupting a reply starts afresh, the stage done changes nothing |
| Turns.AdvanceByTimer | pkg/pipeline/service/pipeline_service.go:283-325 | a debounce pair whose timer is gone moves to AI and keeps its buffers; any other pair is left as it is |
| Turns.MessageGrows | pkg/debounce/service/debounce_engine.go:63-69 | the message is empty, the one content, or what it was, a blank line and the new content |
| Turns.MessageSplits | pkg/debounce/service/debounce_engine.go:63-69 | splitting the message at blank lines gives the contents back, when none contains one or, but for the last, ends in a line break |
| Sequences.JoinConcat | pkg/debounce/service/debounce_engine.go:68 | joining two lists with any separator is joining each with one separator between |
| Turns.WindowAccumulates | pkg/debounce/service/debounce_engine.go:31-69 | any number of events in any mix of branches pile up in lock order under the last event's timer |
| Turns.BranchesAgree | pkg/pipeline/service/pipeline_service.go:129-142 | which branch each event of a window meets makes no difference but for the persisted turn |
| Turns.WindowMessage | pkg/pipeline/service/pipeline_service.go:260-269 | from a cleared pair, the buffer holds all contents since the clear in lock order, they can be read off the message, and it is due exactly once the last event's debounce seconds are over |
| Pipeline.PipelineService.Process | pkg/pipeline/service/pipeline_service.go:117-158 | for a free pair the data, entry, cancelled contexts and AI calls change exactly as the specification of one event demands; for a locked pair nothing changes; other pairs never notice |
| Pipeline.PipelineService.AdvanceToAI | pkg/pipeline/service/pipeline_service.go:273-333 | a due, free pair moves to AI with one call carrying its whole buffer and media; any other pair is left as it was |
| Pipeline.PipelineService.Start | pkg/pipeline/service/pipeline_service.go:74-115 | after recovery every scanned debounce pair has an entry with its persisted turn, exactly the due and free ones are in AI with one call each, even if scanned twice, and nothing else has changed |
| Pipeline.RecoveryReachesAll | pkg/pipeline/service/pipeline_service.go:77-84 | every stored pair is among those that recovery visits while the keys returned fit 10000 |
| Pipeline.RecoveryReachesExactly | pkg/pipeline/service/pipeline_service.go:77-84 | recovery visits exactly the pairs with a key before the 10000th parsable key of the scan |
| Pipeline.RecoveryGrows | pkg/pipeline/service/pipeline_service.go:84-110 | visiting one more pair keeps what recovery promises of the pairs visited, new or repeated |
| Pipeline.PipelineService.PollOnce | pkg/pipeline/service/pipeline_service.go:551-588 | one pass moves exactly the due and free pairs of uncancelled entries to AI, one call each with their own data, and leaves all other pairs' data alone |
| Pipeline.PollGrows | pkg/pipeline/service/pipeline_service.go:551-588 | visiting one more entry keeps what the pass promises of the entries visited |
| Pipeline.WatchedExactly | pkg/pipeline/service/pipeline_service.go:551-571 | a pass looks at exactly the pairs with an uncancelled entry, but for a contact numbered 0 |
| Pipeline.CanonicalKept | pkg/pipeline/service/pipeline_service.go:592-599 | every key of the entries map stays the key of the pair it parses to |
| Pipeline.PipelineService.Cancel | pkg/pipeline/service/pipeline_service.go:592-605 | the pair's context is cancelled and no other, its entry and data are gone, its lock and all other pairs stay as they were |
| Segmentation.PackWords | pkg/dispatch/service/dispatch_engine.go:201-223 | the greedy loop produces the packing characterised by the lemmas below |
| Segmentation.PackIsTightCut | pkg/dispatch/service/dispatch_engine.go:201-223 | the groups are a cut of the words, each within the limit or one over-long word, and none had room for the next word |
| Segmentation.PackIsTheOnlyOne | pkg/dispatch/service/dispatch_engine.go:201-223 | no other list of groups has these three properties |
| Segmentation.PackIsOptimal | pkg/dispatch/service/dispatch_engine.go:201-223 | no cut of the words into groups that fit has fewer groups |
| Segmentation.MergeShortParts | pkg/dispatch/service/dispatch_engine.go:225-243 | the merge loop, on any parts, limit and minimum size, computes the fold that MergeIsIdentity is about |
| Segmentation.MergeIsIdentity | pkg/dispatch/service/dispatch_engine.go:225-243 | behind the packer the merge pass changes nothing, for every content, limit and minimum size |
| Segmentation.SegmentContent | pkg/dispatch/service/dispatch_engine.go:190-244 | with all its branches it returns the content itself when segmentation is off, its limit is not positive or there is no word, and otherwise the greedy packing |
| Segmentation.SegmentsOptimal | pkg/dispatch/service/dispatch_engine.go:187-244 | a reply is never cut into more parts than necessary |
| Segmentation.SegmentsLossless | pkg/dispatch/service/dispatch_engine.go:187-244 | the words of the parts, in order, are exactly the words of the content |
| Segmentation.SegmentsBounded | pkg/dispatch/service/dispatch_engine.go:187-244 | every part is non-empty and within the limit or a single over-long word |
| Segmentation.SegmentsStable | pkg/dispatch/service/dispatch_engine.go:187-244 | segmenting the space-joined parts again returns the same parts |
| Media.ExtractMediaURLs | pkg/dispatch/service/dispatch_engine.go:279-291 | the attachments are the media among all URL matches in order, and the residual is the trimmed text after their first-occurrence replacements |
| MediaLinks.LinkExactly | pkg/dispatch/service/dispatch_engine.go:256 | a text is one match if and only if it is http:// or https:// followed by something, free of white space, angle brackets and quotes |
| MediaLinks.LexExactly | pkg/dispatch/service/dispatch_engine.go:281 | the matches found are exactly the links, each as long as it can be, leftmost first, and none is missed |
| MediaLinks.LinkIsFound | pkg/dispatch/service/dispatch_engine.go:279-291 | a link that stands by itself in a text is attached between what is found before and behind it |
| MediaLinks.MediaTypeExactly | pkg/dispatch/service/dispatch_engine.go:259-310 | a URL has a file type if and only if its last path segment ends in one of the extensions of that type, in any letter case, whatever query or fragment follows |
| MediaLinks.ListedLinkIsAttached | pkg/dispatch/service/dispatch_engine.go:282-287 | a link with a listed extension is sent on with its file type and without the punctuation behind it |
| MediaLinks.PictureLink | pkg/dispatch/service/dispatch_engine.go:256 | https://a/x.png is sent on as an image |
| MediaLinks.SoundLink | pkg/dispatch/service/dispatch_engine.go:264-266 | a sound file in capital letters with a query, at the end of a sentence, is sent on as audio |
| MediaLinks.ReplaceFirstExactly | pkg/dispatch/service/dispatch_engine.go:288 | each replacement cuts out the leftmost occurrence, and nothing if there is none |
| MediaLinks.TrimSpaceExactly | pkg/dispatch/service/dispatch_engine.go:290 | the final trim takes all white space away at both ends and nothing else |
| Media.ReplaceIsCut | pkg/dispatch/service/dispatch_engine.go:279-291 | the repeated replacement equals cutting exactly the media matches out of the text if and only if no media URL's text occurs inside an earlier non-media match |
| Media.CutHasNoMedia | pkg/dispatch/service/dispatch_engine.go:279-291 | cutting the media matches out never makes a new match: lexing again finds the other pieces and no media |
| MediaAgain.CutOrFound | pkg/dispatch/service/dispatch_engine.go:281-289 | the replacements either cut exactly the media matches or leave a media match in the text: the last URL whose replacement took effect before its own place stays there untouched |
| MediaAgain.MediaSurvivesTrim | pkg/dispatch/service/dispatch_engine.go:277-295 | a media URL stays media when the white space at its end is trimmed away |
| MediaAgain.ExtractAgain | pkg/dispatch/service/dispatch_engine.go:279-291 | for every text, extraction from the residual finds no media if and only if no media URL's text occurs inside an earlier non-media match and the final trim uncovers no media |
| MediaExamples.ShadowedPicture | pkg/dispatch/service/dispatch_engine.go:287-288 | a page link containing a later picture's URL is the one that loses the text, and the picture's link stays and is found again |
| MediaExamples.TrimUncoversPicture | pkg/dispatch/service/dispatch_engine.go:290 | a picture URL followed by a no-break space stays in the text and is media once trimmed |
| Dispatch.DispatchEngine.Dispatch | pkg/dispatch/service/dispatch_engine.go:68-150 | acknowledged postbacks are a prefix of the plan, nil is returned exactly when the whole plan was acknowledged, at most one postback is delivered after a cancellation or without acknowledgement, and a context cancelled beforehand delivers nothing |
| Dispatch.DispatchEngine.SendParts | pkg/dispatch/service/dispatch_engine.go:92-131 | the loop over the parts ends with all of them acknowledged or with a final report, an interruption always leaving something unsent |
| Dispatch.SeveralAreFull | pkg/dispatch/service/dispatch_engine.go:92-97 | of several parts none is empty, so the skip of empty parts only concerns a reply without text |
| Dispatch.SigningKeepsWords | pkg/dispatch/service/dispatch_engine.go:83-88 | writing the signature before the first part is writing it before the text: no word is lost, doubled or moved |
| Dispatch.PlanKeepsWords | pkg/dispatch/service/dispatch_engine.go:78-150 | the texts of a complete reply carry exactly the words of the signature and the answer without its media links |
| Dispatch.WithoutSegmentation | pkg/dispatch/service/dispatch_engine.go:191-193 | with segmentation off or a limit that is not positive, a reply is one text with the signature and the text left of the answer verbatim, and then the media |
| Dispatch.WithSegmentation | pkg/dispatch/service/dispatch_engine.go:78-142 | with segmentation on, the texts are the parts in order, the first behind the signature, without attachments, and the media follow alone |
| Dispatch.SuccessDeliversEveryWord | pkg/dispatch/service/dispatch_engine.go:68-150 | when nil is returned, exactly these words were delivered, each once |
| Backoff.BackoffDelay | pkg/ai/service/ai_adapter.go:286-294 | for any base and any random draw the delay lies between half of the capped value, rounded down, and that value, which is at most 5 s |
| Backoff.WholeMillisecondsSaturate | pkg/ai/service/ai_adapter.go:286-294 | for every attempt and every base of whole milliseconds up to about 137 s the wrapping shift equals min(base * 2^(attempt-1), 5 s) |
| Backoff.SaturatesUnlessFallsBack | pkg/ai/service/ai_adapter.go:286-290 | for every 64-bit base and every shift that equality holds if and only if the bits surviving the overflow do not make a value between 0 and the cap |
| Backoff.LargeBaseFallsBack | pkg/ai/service/ai_adapter.go:286-290 | with a base of 197912093 ms the cap before jitter of the 23rd retry is about 1.3 s instead of 5 s |
| Retry.NewAdapter | pkg/ai/service/ai_adapter.go:84-97 | the timeout is taken as it is, a negative number of retries as none, and a base that is not positive as 200 ms |
| Retry.DeadlinesInSeconds | pkg/ai/service/ai_adapter.go:160-173 | when it fits, each attempt has the configured seconds and the call ends after (retries + 2) timeouts and retries * 5 s at the latest |
| Retry.ConfiguredBackoff | pkg/ai/service/ai_adapter.go:84-97 | with any configured base up to about 137 s (200 ms when none is given) the wait before retry n lies between half of min(base * 2^(n-1), 5 s), rounded down, and that value |
| Retry.Call | pkg/ai/service/ai_adapter.go:159-202 | the loop carries out the execution that the lemmas below are about, attempt by attempt on the clock |
| RetryOutcome.SucceedsExactly | pkg/ai/service/ai_adapter.go:159-265 | a call succeeds if and only if some attempt gets a complete, well-formed 200 before its deadline and the end of the context, while every attempt before it failed on the network or got 429, 500, 502, 503 or 504 |
| RetryOutcome.TimesOutExactly | pkg/ai/service/ai_adapter.go:228-240 | a call times out if and only if some attempt's deadline passes before any status while the context lives; it is not retried |
| RetryOutcome.RefusedExactly | pkg/ai/service/ai_adapter.go:243-250 | any other status is final and reported as it came |
| RetryOutcome.GarbledExactly | pkg/ai/service/ai_adapter.go:252-255 | so is a 200 whose body is malformed or cut off |
| RetryOutcome.EveryRunEnds | pkg/ai/service/ai_adapter.go:159-202 | how every run ends follows from the schedule of its exchanges, up to the attempts being used up |
| Retry.StopsAtTheFirstFinalAnswer | pkg/ai/service/ai_adapter.go:177-202 | at most maxRetries + 1 attempts; all but the last failed with a network error or one of five statuses; the run reports its last attempt unless it was cut short while waiting |
| Retry.EndsBeforeTheCeiling | pkg/ai/service/ai_adapter.go:162-175 | with a ceiling that fits in 64 bits every run ends strictly before it, and reports cancellation only after the caller cancelled |
| Retry.CancelsOnlyOnRequest | pkg/ai/service/ai_adapter.go:162-190 | no run reports a cancellation the caller did not ask for if and only if there is no ceiling, or no attempt, or the ceiling fits in 64 bits |
| Retry.LongTimeoutCancels | pkg/ai/service/ai_adapter.go:84-97 | with a timeout of 4611686019 s and no retries some run nobody cancelled reports a cancellation |
| Retry.CancellationIsPrompt | pkg/ai/service/ai_adapter.go:186-194 | whatever the loop is doing, the call is over when the caller cancels |
| Retry.CancelledOutcome | pkg/ai/service/ai_adapter.go:159-250 | for every moment of a cancellation: a call over before is unaffected; otherwise it ends then and reports the cancellation unless it was reading the body of a final answer, which it reports as a bad body or a bad status |
| Retry.CancelledWhileReading | pkg/ai/service/ai_adapter.go:243-248 | a cancellation between the headers and the end of the body of a good answer is reported as a malformed body |
| Attachments.DownloadAttachment | pkg/ai/service/ai_adapter.go:501-526 | a body is delivered whole exactly when it is within the limit; it is never truncated |
| Attachments.BuildFileParts | pkg/ai/service/ai_adapter.go:335-426 | the forwarded parts are the picked attachments in order, and bytes forwarded plus budget left is always 20 MiB |
| Attachments.PicksInOrder | pkg/ai/service/ai_adapter.go:349-424 | the forwarded files are an order-preserving subsequence of the usable attachments |
| Attachments.PicksWithinBudget | pkg/ai/service/ai_adapter.go:373-408 | each file is at most 15 MiB and together they are within the budget |
| Attachments.DroppedForAReason | pkg/ai/service/ai_adapter.go:363-383 | a usable attachment stays behind only when the time was up, the byte budget was used up, or it was larger than the cap or than what earlier files had left |
| Attachments.EndIsFinal | pkg/ai/service/ai_adapter.go:363-383 | once the time or the bytes are used up at an allowed attachment, nothing behind it is forwarded |
| Attachments.EncodedWithin | pkg/ai/service/ai_adapter.go:409-416 | k files of n bytes take at most (4n + 8k) / 3 base64 letters (section 4 of RFC 4648) |
| Attachments.AttachmentAccount | pkg/ai/service/ai_adapter.go:335-426 | the whole account of a turn with its 15 MiB and 20 MiB: every forwarded file passed the host check in time, and its part has its URL, its media type and, decoded, its complete body |
| Base64.DecodeEncode | pkg/ai/service/ai_adapter.go:414 | the encoding of a file loses nothing |
| Base64.EncodedLength | pkg/ai/service/ai_adapter.go:414 | every started group of three bytes takes four letters |
| Base64.AlphabetInRuns | pkg/ai/service/ai_adapter.go:414 | the alphabet of section 4 of RFC 4648 |
| Base64.TestVectors | pkg/ai/service/ai_adapter.go:414 | the encodings given in section 10 of RFC 4648 |

## Left out

- HTTP clients and servers, Gin routing, JSON encoding, Redis and redsync internals: a call is a step with an arbitrary outcome, the store a map, the lock a flag with an owner.
- Expiry of the lock under a live holder, and the TTL of the attachment list: not modelled; a lock left by a crashed or finished goroutine does expire.
- More than one pair in `Machine`: pairs share no key (`Keys.RedisKeyInjective`, `Repository.SetIsLocal`), so their machines are independent.
- Faults and interference in the class `PipelineService`: they are in `Machine`; the class has one call at a time and no failing store.
- The poller's reads before `advanceToAI`: in `Machine` any instance that is up may call `advanceToAI` at any time, which allows more than the code does; `Pipeline.PipelineService.PollOnce` has the reads.
- When an AI or dispatch call is interrupted: in `Machine` it may be at any time, which allows more than the code does. A cancellation during a POST surfaces as a plain send error in the code and in `Dispatch` (outcome SendFailed).
- OneLivePipeline: an entry taken out of the map but not yet cancelled still counts as live, because `cancelPair` takes and cancels in two steps.
- The AI stage's second look at the entries map for the URL, the API key and the metadata: a launch carries the entry's turn.
- The text of the failure notice and its dispatch: only its panic is in `Machine`, since it has a context of its own.
- An event that meets the stage done is dropped without being buffered; this is what the code does, and the model follows it.
- Liveness under contention: `Process` fails at once when the lock is taken, so the code does not promise that every accepted event is answered.
- "Exactly one postback" of test/e2e/e2e_test.go: it depends on the timing of that test.
- `resolveMimeType`, `attachmentName`, the URL and redirect checks of media downloads, identifiers dug out of the metadata, `extractResponseText`, `SecretMiddleware`: lookups and guards of one branch, which enter as parameters.
- Text that is not valid UTF-8: text is a sequence of runes; words, limits and delays count runes.
- The length of the pause between parts: a pause ends by itself or because the context is cancelled.
- Overheads between the steps of the retry loop: an attempt takes at most its timeout and a wait exactly its delay; when a deadline and the end of a wait coincide, the deadline wins.
- Configuration, logging, wiring and deployment files.
