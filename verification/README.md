# Verified models of the gateway's protocols

This project states and proves, in Dafny 4.11, what the gateway's most delicate code promises: crash-safe
removal of model checkouts, incremental scanners that must agree with simple ones, admission control,
fitting a conversation into a context window, rolling summaries and their cache, validators of untrusted
input, event and startup protocols, and the orchestration of media. `dafny verify dfyconfig.toml` checks
everything.

Each component has a specification in functions, and the routines that work step by step in the source are
methods and classes proved against it. What the source leaves to others is a parameter: tokenizers and
templates are arbitrary cost functions, JSON and UTF-8 decoders are functions, hashes are functions that the
theorems assume to be collision free, and summary models are oracles that may answer anything or fail.
A timeout, a crash or a cancellation is a step that may be taken at any time.

## How the files fit together

- `Cleanup`, `CleanupProofs`, `CleanupRuns`, `CleanupVolume`: a directory tree by inode, a write-ahead journal, one atomic
  step per file system call, a producer that writes between any two steps, crashes, and recoveries that may
  crash themselves. `CleanupRuns` says what is removed and when, and `CleanupVolume` has the two routines as they
  run undisturbed.
- `Text`, `Characters`, `Sanitizer`, `SanitizerForms`, `Streaming`: the text primitives and character classes, the stateless sanitizer, what its
  patterns match, and the streaming one.
- `Dsml`, `DsmlProofs`, `DsmlExact`, `DeepSeek`, `DeepSeekForms`, `DeepSeekOutput`, `DeepSeekJson`: tool-call blocks,
  which of them are accepted, the push parsers, which outputs they accept, and their parser objects.
- `Admission`, `AdmissionGates`: N requests over shared gates as interleaved steps, and the gate objects.
- `Turns`, `Selection`, `Summaries`, `Budget`, `Vision`: dropping whole turns, choosing what to summarize,
  the summary cache, the way from a request to an output budget, and the canonical order of tool results.
- `Safetensors`, `DepthScan`, `ProtoString`, `ProtoText`, `ProtoReader`, `ProtoLex`, `ProtoNumbers`: the validators
  and readers.
- `Responses`, `Startup`: the event stream and the two-thread handshake.
- `PdfSlots`, `PdfPages`, `MediaReduce`, `Frames`: placeholders and pages, windows, halving, reducing, sampling.

Where a promise is false of the code, the code is modelled as it is, a lemma gives the input, and another one
says exactly when the promise is kept:

- A checkout moved away while its metadata is staged counts as removed, and the staged files are dropped
  (`CleanupProofs.RelocationLosesMetadata`). A step loses something exactly when it drops the only copy of a
  file (`LossExactly`); a recovery drops exactly what `AtRisk` names on the disk it starts from
  (`RecoveryDropsExactly`); and nothing is lost in any run that moves the checkout only while no removal is
  under way in it and none of its files are staged (`NothingIsLost`).
- Compression may drop the surplus that covered the remaining media, after which no budget fits
  (`Budget.TruncationMayOverrun`). `TruncatedBudget`, `SummarizedBudget` and `FallbackBudget` say for each
  input that is compressed whether it gets a budget. With costs by item, every prepared conversation gets one exactly if no kind of media is estimated
  below its placeholder while another one is estimated above (`OneSidedExactly`).

## Model

| member | source | states |
|---|---|---|
| CleanupProofs.InvStep | gateway/model_cleanup.py:116-322 | every step of remover, recovery, producer, operator, crash or fault keeps staged files journalled and what the remover relies on at its next call; and unless it drops the only copy of a file, that a live directory with its staged files is what the producers left |
| CleanupProofs.LossExactly | gateway/model_cleanup.py:191-206 | a step loses something a producer wrote exactly when recovery drops a staged file of a directory that lives and lacks that name |
| CleanupProofs.NothingIsLost | gateway/model_cleanup.py:239-322 | in every interleaving that moves the checkout only when it may be moved: no entry a producer wrote is lost, a directory is removed only while its whole content is the admitted inventory, and with no stage left live directories are as if no cleanup had run |
| CleanupProofs.TornJournalCoversNothing | gateway/model_cleanup.py:131-148 | in every run a missing or partly written journal has no staged file under it, so discarding it is safe |
| CleanupProofs.MetadataSurvives | gateway/model_cleanup.py:191-213 | once no stage remains, the checkout was removed while empty, or holds each inventoried name as the original file or a producer's newer one |
| CleanupProofs.OnlyProducersWrite | gateway/model_cleanup.py:239-322 | no step of remover or recovery changes what a directory ought to hold |
| CleanupProofs.QuietRun | gateway/model_cleanup.py:116-217 | any run of recoveries and crashes, with the producer quiet and nothing to refuse, stays on the way to one and the same disk |
| CleanupProofs.RecoveryFinishes | gateway/model_cleanup.py:116-217 | left alone, recovery finishes from wherever earlier crashes left it, in the settled disk |
| CleanupProofs.RecoveryConverges | gateway/model_cleanup.py:116-236 | every crash and restart sequence that empties the stage reaches the disk of one uninterrupted run, and any change on disk is progress |
| CleanupProofs.RecoveryDropsExactly | gateway/model_cleanup.py:174-206 | a recovery, whatever crashes it goes through, drops a name of a live directory exactly if it was staged, missing from the directory, and the checkout counted as gone before it started |
| CleanupProofs.RelocatingLoses | gateway/model_cleanup.py:174-206 | from every state in which a checkout lacks one of its staged files, moving it and crashing leads to the loss of that file |
| CleanupProofs.RelocationLosesMetadata | gateway/model_cleanup.py:178-189 | counterexample: moving the checkout away while its metadata is staged makes recovery drop the staged file |
| CleanupRuns.OnlyEmptyGoes | gateway/model_cleanup.py:282-292 | in any state and step, a directory disappears only from under its name, while it is empty, at the call of `rmdir` |
| CleanupRuns.RemovalWasDecided | gateway/model_cleanup.py:273-292 | in every run, a removal was preceded in the same pass by the answer that the model is not active, given with everything staged |
| CleanupRuns.ActiveIsNeverRemoved | gateway/model_cleanup.py:282-283 | in every run whose looks at the links find the model active, no directory is removed |
| CleanupRuns.VersionsAreNeverRemoved | gateway/model_cleanup.py:249-253 | in every run, no directory that held a subdirectory when it was admitted is removed |
| CleanupRuns.UndisturbedRun | gateway/model_cleanup.py:239-322 | from any idle state with a checkout of files, the remover on its own ends in the disk without the checkout if the model is inactive, and in the disk it started from if it is active |
| CleanupRuns.FailureLeavesNoTrace | gateway/model_cleanup.py:300-315 | a failure before the journal counts is undone: the stage is taken apart and no directory has changed |
| CleanupRuns.FailurePutsBack | gateway/model_cleanup.py:300-304 | a failure behind the journal leads to recovery, which ends in the disk settled from there |
| CleanupRuns.RemovalCompletes | gateway/model_cleanup.py:284-304 | once the checkout is removed the removal can be completed, with the marker, even if the checkout has been made anew meanwhile |
| CleanupRuns.RemoverComesToRest | gateway/model_cleanup.py:116-322 | from every state of every run, remover or recovery comes to its end if it is left alone |
| CleanupRuns.DoubtfulStays | gateway/model_cleanup.py:148-176 | a stage whose journal is torn, foreign or incomplete is left as it is by every run of recoveries and crashes |
| CleanupVolume.Volume.RecoverStage | gateway/model_cleanup.py:116-217 | the routine in place: it refuses exactly the stages it must, those with an unreadable or foreign journal included, and otherwise reaches the settled disk |
| CleanupVolume.Volume.StageAll | gateway/model_cleanup.py:273-281 | the renaming loop moves the whole inventory under a journal that names it |
| CleanupVolume.Volume.RemoveEmptyCheckout | gateway/model_cleanup.py:239-322 | undisturbed, it removes an inactive checkout without subdirectories and otherwise restores every directory |
| Sanitizer.FindChatMarkerIndex | gateway/sanitizer.py:191-206 | three searches combined find the first position at which any kind of marker starts |
| Sanitizer.Trim | gateway/sanitizer.py:113-136 | the paragraph loop cuts at the first repetition, and the cursor it leaves lies before every break that is still open |
| Sanitizer.Sanitize | gateway/sanitizer.py:209-229 | the stateless sanitizer from the cleaned text on |
| SanitizerForms.RoleLineExactly | gateway/sanitizer.py:22-25 | a role line is exactly blanks, perhaps a bracket, a role in any case, perhaps a bracket and a colon, blanks |
| SanitizerForms.RoleExactly | gateway/sanitizer.py:22-25 | a role marker starts exactly where a line starts that is such a role line and is completed |
| SanitizerForms.LeakExactly | gateway/sanitizer.py:26-29 | a leaked prompt starts exactly where space, `user`, at most 160 characters of its line, space from the end of the line on, and the word `/no_think` are put together |
| SanitizerForms.JudgeExactly | gateway/sanitizer.py:119-132 | a paragraph break is judged by the texts around its run of spaces: head of 80 characters, tail of 32, equal over the first 96 |
| SanitizerForms.RepetitionExactly | gateway/sanitizer.py:113-132 | text is repeated at a break exactly if it is such a head, a run of spaces with two newlines, and a tail that echoes the head |
| SanitizerForms.StatelessExactly | gateway/sanitizer.py:209-229 | the answer is the text before its first repetition, up to the first marker in that, stripped at the cut; it stops exactly if something was cut or stopped before |
| SanitizerForms.CleanTextPasses | gateway/sanitizer.py:209-229 | text without repetitions and markers passes as it is |
| SanitizerForms.RoleLineCuts | gateway/sanitizer.py:191-229 | what is left of a text is what stands before its first role line, stripped |
| Streaming.DiffersForever | gateway/sanitizer.py:113-136 | a rejected paragraph break stays rejected whatever text follows |
| Streaming.ScanFromCursor | gateway/sanitizer.py:113-136 | a repetition scan from the cursor finds what a scan of the whole text finds |
| Streaming.NewLiteral | gateway/sanitizer.py:159-169 | a literal marker not in the previous text starts in the overlap or later |
| Streaming.NewRole | gateway/sanitizer.py:171-177 | a new role marker lies on the last incomplete line or later and needs a new newline |
| Streaming.LeakFromCursor | gateway/sanitizer.py:178-189 | a new leaked prompt is found from the cursor, up to blank text in front of it |
| Streaming.CursorCutAgrees | gateway/sanitizer.py:159-189 | cutting at the marker found from the cursors is cutting at the first marker of the whole text |
| Streaming.StreamingSanitizer.Prepare | gateway/sanitizer.py:155-157 | a text that does not extend the previous one starts all scans afresh |
| Streaming.StreamingSanitizer.MarkerIndex | gateway/sanitizer.py:159-189 | the cursor search, and cursors that describe the new text afterwards |
| Streaming.StreamingSanitizer.Sanitize | gateway/sanitizer.py:209-229 | answers as the stateless sanitizer does, unless it stopped at a prefix of the text: then its answer is frozen |
| Streaming.SanitizeStream | gateway/sanitizer.py:139-229 | on every growing stream: the stateless answers up to and including the first stop, and that answer ever after |
| Dsml.FindEndCalls | gateway/deepseek.py:29 | the first closing calls tag, or none anywhere |
| DsmlProofs.ValidatePrinted | gateway/deepseek.py:176-213 | validating any printed nonempty list of calls to declared tools, with distinct legal names and marker-free values, yields exactly those calls and typed arguments, for any spacing |
| DsmlExact.FindBlock | gateway/deepseek.py:176-213 | what validation accepts is the printed form of the calls it answers |
| DsmlExact.ValidExactly | gateway/deepseek.py:176-213 | validation accepts exactly the printed blocks: nonempty lists of calls to declared tools with distinct legal parameters and marker-free values, under one word |
| DeepSeek.StepExtends | gateway/deepseek.py:221-261 | a step that can be taken is the same step whatever text follows |
| DeepSeek.ParseExtends | gateway/deepseek.py:215-262 | parsing a text whose rest arrives later is parsing it at once |
| DeepSeek.ChunksDoNotMatter | gateway/deepseek.py:215-262 | two ways of cutting one output both fail, or push the same text, accept the same calls and end in the same state |
| DeepSeek.FedAllKeepsText | gateway/deepseek.py:215-262 | until it stops, the parser has pushed or still holds every character fed, in order |
| DeepSeekForms.OutputTells | gateway/deepseek.py:215-262 | for any cutting of an output written as plain text, ends of the reasoning, printed blocks and an ending: the text up to the ending is pushed, with the end marker if there is one, the calls of the blocks are expected in order, and the flags are as written |
| DeepSeekForms.EveryOutput | gateway/deepseek.py:215-262 | every output is written as such pieces and an ending |
| DeepSeekForms.FailsExactly | gateway/deepseek.py:215-262 | an output fails exactly if its pieces end in text behind tool calls, in a second opening of the reasoning, in a stray service token, or in a block that is no printed one |
| DeepSeekForms.OutputFinishes | gateway/deepseek.py:264-285 | how such an output ends: cut, with tool calls, or stopped, each exactly when; nothing may be held back without a cut, and required calls must be there |
| DeepSeekObject.RunAtOnce | gateway/deepseek.py:225-235 | pushing a run of plain text at once is pushing it character by character, the check for text after tools included |
| DeepSeekObject.DeepSeekOutput.ReadParameters | gateway/deepseek.py:190-209 | the parameter loop computes the specified arguments and end |
| DeepSeekObject.DeepSeekOutput.ReadInvokes | gateway/deepseek.py:183-210 | the invoke loop computes the specified calls |
| DeepSeekObject.DeepSeekOutput.ValidateBlock | gateway/deepseek.py:176-213 | a block is validated as specified, and its calls join the expected ones |
| DeepSeekObject.DeepSeekOutput.TakeRound | gateway/deepseek.py:220-261 | one round of the loop: fails, waits, or makes progress exactly as the specification does |
| DeepSeekObject.DeepSeekOutput.Feed | gateway/deepseek.py:215-262 | the loop reaches the specified state, or fails where the specification fails |
| DeepSeekObject.DeepSeekOutput.Finish | gateway/deepseek.py:264-285 | the end of an output, with the released calls compared to the expected ones |
| DeepSeekObject.ChunksDoNotMatterToTheEnd | gateway/deepseek.py:264-285 | the outcome of the whole output does not depend on its chunks |
| DeepSeekJson.ChunksDoNotMatter | gateway/deepseek.py:307-339 | two ways of cutting one output end in the same state, held-back text included, or both fail |
| DeepSeekJson.PassesOnTheDocument | gateway/deepseek.py:307-339 | exactly the text before the first `<` outside a string is passed on; what starts there ends the output, is held back, or fails |
| DeepSeekJson.DeepSeekJsonOutput.ScanText | gateway/deepseek.py:315-337 | the scanning loop computes the specified string and escape state and the visible text |
| DeepSeekJson.DeepSeekJsonOutput.Feed | gateway/deepseek.py:307-339 | one feed reaches the specified state and returns exactly the new content |
| Admission.InvStep | gateway/admission.py:102-151 | every arrival, wakeup, timeout and return keeps the gates balanced and loses no wakeup |
| Admission.AdmissionIsSafe | gateway/admission.py:48-151 | in every reachable state a gate counts exactly its unreturned leases and its waiters, within its limits; a waiter holds no slot; a sleeping waiter has a full gate and a lease that will notify it |
| Admission.StepsRunOut | gateway/admission.py:80-151 | every enabled step brings the requests closer to their end, so no run of them is endless |
| Admission.NobodyIsLeftBehind | gateway/admission.py:80-151 | when no wakeup and no return is possible any more, nobody waits, nobody holds a slot, and every gate is empty |
| Admission.AdmissionTells | gateway/admission.py:102-151 | in every reachable state, who arrives or wakes is admitted exactly if fewer leases than slots are out at both gates; an arrival waits otherwise if both queues have places, and is rejected if not; a return wakes every waiter |
| AdmissionGates.BoundedGate.Release | gateway/admission.py:48-53 | gives one slot back and never goes below zero |
| AdmissionGates.Arrive | gateway/admission.py:121-132 | both budgets are reserved, or both queues joined, or nothing changes and a full queue is named |
| AdmissionGates.LeaveQueues | gateway/admission.py:141-144 | ending a wait leaves each queue once |
| AdmissionGates.AdmissionLease.Release | gateway/admission.py:87-93 | returns each gate once; a second release changes nothing |
| AdmissionGates.LeaseRoundTrip | gateway/admission.py:80-151 | an admission and its release, repeated or not, leave every gate as it was |
| Turns.FindTurn | gateway/prompt.py:364-388 | the span of the oldest turn before the latest user message, if there is one |
| Turns.OldestRemovableTurn | gateway/prompt.py:364-394 | exactly the messages of the oldest turn, in order; none exactly when no turn may be dropped |
| Turns.KeptTwice | gateway/prompt.py:318-324 | dropping `k` turns and then `j` is dropping `k + j` |
| Turns.GoneTwice | gateway/context_compression.py:735-745 | what successive drops take away is, in order, the messages of the oldest turns |
| Turns.Fit | gateway/prompt.py:278-324 | for any cost function: drops the fewest oldest turns that make the prompt fit, counts the dropped messages, and fails exactly when even dropping all would not do |
| Turns.DroppingPartitions | gateway/prompt.py:364-394 | kept and dropped messages partition the conversation in order; system messages and all from the latest user message on survive; a turn goes whole or stays whole |
| Selection.ProtectedIndices | gateway/context_compression.py:748-769 | exactly the last messages of the history, as many as asked for |
| Selection.ProtectionIs | gateway/context_compression.py:719-734 | the oldest turn touches a protected message exactly when too little history would be left |
| Selection.SelectSource | gateway/context_compression.py:687-745 | removes the least number of turns, at least one, that fits, and returns retained and removed messages in order |
| Selection.SelectionIsLeast | gateway/context_compression.py:687-745 | it succeeds exactly when some admissible number of turns fits, and then takes the least |
| Selection.ProtectedSurvive | gateway/context_compression.py:748-769 | protected, system and latest messages are never removed |
| Summaries.FramingInjective | gateway/context_compression.py:859-873 | the length-framed bytes determine the list of messages |
| Summaries.BoundaryHashes | gateway/context_compression.py:859-873 | the running digest after each message is the hash of that prefix |
| Summaries.SummaryCache.Get | gateway/context_compression.py:876-898 | the entry of the longest cached prefix, moved to the end of the order |
| Summaries.SummaryCache.Put | gateway/context_compression.py:901-915 | stores as newest and evicts the oldest beyond the size |
| Summaries.OthersInOrder | gateway/context_compression.py:876-915 | taking an entry out leaves the order of the others, so the oldest are evicted first |
| Summaries.StripTrims | gateway/context_compression.py:590 | stripping an answer takes away the spaces at both ends and nothing else |
| Summaries.Roll | gateway/context_compression.py:587-607 | each call is told the summary so far; an empty or missing answer fails |
| Summaries.Lookup | gateway/context_compression.py:529-560 | with a collision-free hash the cached summary found derives from exactly that prefix |
| Summaries.Summarize | gateway/context_compression.py:493-646 | there is an answer exactly if the summary of all removed messages is cached and fits, or if the chunks of the uncovered rest are within the limit, each is answered, and the last answer fits; the entries afterwards in each case; what is returned or cached is a fold of generator calls over exactly the removed messages |
| Summaries.SummarizeAgain | gateway/context_compression.py:529-560 | with a cache that stores anything, the same messages are answered again with the same text and without a call |
| Summaries.EachMessageOnce | gateway/context_compression.py:918-932 | every summarized message went into exactly one round, in order, under its own number |
| Budget.BudgetExactly | gateway/token_budget.py:105-116 | a budget is chosen exactly when the request is within the cap and prompt, media, margin and the output wanted fit; it is the one requested, or the largest that the default, the cap and the window allow |
| Budget.PrepareResponses | gateway/generation.py:177-196 | drops the fewest turns for which prompt, media, reserve and margin fit, re-measuring each time |
| Budget.SummarizeContext | gateway/context_compression.py:493-646 | the least selection with the summary injected, if it meets the target |
| Budget.PrepareConversation | gateway/context_compression.py:302-428 | the routine computes which of unchanged, truncated, summarized, fallback or failure comes out |
| Budget.ConversationFits | gateway/context_compression.py:302-428 | every success meets the prompt limit, whatever came out, and an unchanged outcome is the input |
| Budget.ConversationActs | gateway/context_compression.py:302-428 | below the trigger, or within the limit where nothing is summarized, a conversation passes unchanged; a summarized one meets the target ratio; falling back passes it unchanged exactly if it fits |
| Budget.Prepare | gateway/generation.py:530-569 | the choice between the two paths and its reserve |
| Budget.PreparedFits | gateway/generation.py:530-569 | what a success guarantees on each path; with room and no requested limit nothing is changed |
| Budget.PreparedByRoom | gateway/generation.py:537-569 | with room and no requested limit nothing is done, unless the prompt is empty; otherwise the output wanted is reserved, and a Responses request or DeepSeek images to truncate take the path that measures media again |
| Budget.ChooseOutput | gateway/generation.py:530-633 | a chosen budget is within the cap and fits with the prompt and the media of the prepared conversation; after a successful preparation one is chosen for text-only requests, unchanged conversations and the Responses path |
| Budget.TruncatedBudget | gateway/generation.py:556-629 | a conversation to truncate gets a budget exactly if the least number of dropped turns, chosen by the media of all, leaves turns that fit with their own media |
| Budget.SummarizedBudget | gateway/generation.py:556-629 | a conversation to summarize gets a budget exactly if the kept turns with the summary fit with their own media |
| Budget.FallbackBudget | gateway/context_compression.py:302-428 | without a usable summary a conversation gets a budget exactly if falling back is allowed and it fits the limit as it is, or what truncation leaves fits with its own media |
| Budget.ShrinkingMediaSuffice | gateway/generation.py:556-629 | if dropping turns never raises the media beyond the prompt, every successful preparation leads to a budget |
| Budget.OneSidedExactly | gateway/generation.py:142-168 | with costs by item, every successful preparation leads to a budget exactly if no kind of media is estimated below its placeholder while another is estimated above |
| Budget.TruncationMayOverrun | gateway/generation.py:556-629 | for any other costs by item: a request that is truncated with success and gets no budget |
| Vision.SortSorts | gateway/deepseek_vision.py:86-90 | the tool results of a group are sorted by rank, kept, and stable |
| Vision.ArrangedIs | gateway/deepseek_vision.py:82-92 | a group keeps its messages and all but its tool slots, and arranging it again changes nothing |
| Vision.Canonicalize | gateway/deepseek_vision.py:64-92 | the loop over groups computes the canonical order |
| Vision.CanonicalIsStable | gateway/deepseek_vision.py:64-92 | canonical order permutes tool slots only and is idempotent |
| Vision.MeasuresAgree | gateway/deepseek_vision.py:95-125 | prompt tokens and additional image tokens agree for a conversation and its canonical form |
| Vision.ExtraTokensExactly | gateway/deepseek_vision.py:115-125 | the additional tokens are known exactly if the prompt has one token per image, and raise each image to the most it can take |
| Vision.DeepSeekAgrees | gateway/generation.py:598-628 | so the budget's guarantees hold with canonicalization in between |
| Safetensors.CheckSize | backends/vllm_deepseek/checkpoint_preflight.py:240-252 | the bounded running product gives the verdict of the plain size check |
| Safetensors.SpansTile | backends/vllm_deepseek/checkpoint_preflight.py:257-264 | sorted spans chain exactly when they hold each byte once and empty spans sit on boundaries, in whatever order they are listed |
| Safetensors.CheckSpans | backends/vllm_deepseek/checkpoint_preflight.py:257-264 | the cursor loop accepts exactly the tilings of the payload |
| Safetensors.ValidateTensors | backends/vllm_deepseek/checkpoint_preflight.py:228-264 | a header passes exactly when each tensor fills its span and the spans tile the payload |
| Safetensors.CheckClosure | backends/vllm_deepseek/checkpoint_preflight.py:372-393 | accepted exactly when each shard holds what the index assigns to it; no tensor is then in two shards, and all indexed ones are found |
| DepthScan.CheckDepth | backends/vllm_deepseek/checkpoint_preflight.py:104-120 | the scanning loop gives the specified verdict |
| DepthScan.DepthIsBounded | backends/vllm_deepseek/checkpoint_preflight.py:104-120 | a text passes exactly when nowhere more brackets than the limit are open outside strings |
| DepthScan.DocumentsPass | backends/vllm_deepseek/checkpoint_preflight.py:101-134 | a printed document passes exactly when its brackets nest no deeper than the limit, whatever its strings hold |
| ProtoString.StringBytes | gateway/model_config.py:43-70 | the decoding loop computes the specified bytes, or fails |
| ProtoString.DecodeInverts | gateway/model_config.py:43-70 | decoding inverts writing for every legal choice of escapes |
| ProtoString.EveryByteStringReads | gateway/model_config.py:43-70 | every byte string can be written and is read back exactly |
| ProtoString.NamedExactly | gateway/model_config.py:48-49 | the one-letter escapes are exactly those of the table |
| ProtoString.Utf8Exactly | gateway/model_config.py:62-63 | the bytes written for a code point are exactly those that carry it in the shortest form; surrogates and numbers beyond the range have none |
| ProtoText.ReadPrinted | gateway/model_config.py:96-163 | the tokens of any printed document say exactly what its top-level fields say, if it nests within the limit, and fail otherwise |
| ProtoText.OnlyOne | gateway/model_config.py:151-156 | a duplicate always fails, and what is read is the value of the one top-level field |
| ProtoReader.Reader.ReadValue | gateway/model_config.py:102-135 | the routine over the shared position reads what is specified and leaves the identity alone |
| ProtoReader.Reader.ReadFields | gateway/model_config.py:137-162 | likewise for fields, with their effect on the identity |
| ProtoReader.ReadConfig | gateway/model_config.py:96-163 | the reader on tokens gives the specified identity or fails |
| ProtoLex.Tokenize | gateway/model_config.py:81-95 | the token loop gives the specified tokens or fails |
| ProtoLex.NumberStable | gateway/model_config.py:85-87 | a number is cut the same whatever may follow it |
| ProtoNumbers.NumberExactly | gateway/model_config.py:85-87 | a text is one number exactly if it is a sign or none, and hexadecimal digits, or a mantissa with or without a power, or a word, these with or without a suffix |
| Characters.ClassesAre | gateway/model_config.py:81-88 | the character classes of the patterns are exactly the ones written out |
| ProtoLex.LexRendered | gateway/model_config.py:81-95 | written tokens are cut as themselves, whatever blanks and comments stand between them |
| ProtoLex.QuotedShaped | gateway/model_config.py:81-95 | a literal written with any legal escapes is one string token |
| ProtoLex.FilesReadBack | gateway/model_config.py:73-163 | reading the text of any document, however written, with any blanks and comments, gives what its top-level fields say |
| Responses.OneTerminal | gateway/responses_stream.py:85-110 | a stream that replays to its end has exactly one terminal event, its last |
| Responses.ResponseEvents.AddText | gateway/responses_stream.py:53-66 | a message is added once, before its part and deltas, and grows by each delta |
| Responses.ResponseEvents.AddCall | gateway/responses_stream.py:67-84 | a call is added once, at the end, under the id and name of its first piece, which must bring both; its arguments grow by each delta |
| Responses.FirstPieceNames | gateway/responses_stream.py:67-79 | the item that a call's index leads to has the id and the name that its first piece brought |
| Responses.ResponseEvents.CloseItems | gateway/responses_stream.py:88-99 | each item is reported done once, after its content has been, with payloads equal to what its deltas add up to |
| Responses.ResponseEvents.FailStream | gateway/responses_stream.py:101-110 | an error event, then a failed snapshot with every item incomplete |
| Responses.ResponseEvents.Run | gateway/responses_stream.py:19-112 | for any backend stream a client can replay all events and ends with the final snapshot; it succeeds exactly if the stream ends, gives a reason and names every call in its first piece; the items are then those that deliveries opened, in order and under their names, with exactly the text and arguments delivered; usage and reason are the last ones read |
| Startup.InvEngine | backends/vllm_deepseek/policy.py:111-165 | every step of the coroutine keeps the handshake's invariant |
| Startup.NoLatePublication | backends/vllm_deepseek/policy.py:98-134 | once a timeout is stored no engine has been, is, or ever will be published |
| Startup.SuccessMeansPublished | backends/vllm_deepseek/policy.py:94-109 | initialization succeeds only after a publication and before any abort |
| Startup.FirstErrorWins | backends/vllm_deepseek/policy.py:98-165 | the first error recorded is the one raised and is never replaced |
| Startup.NothingPublishedAfterAbort | backends/vllm_deepseek/policy.py:123-134 | after an abort, whoever asked for it, nothing further is published |
| Startup.DecidedMeansFinishing | backends/vllm_deepseek/policy.py:94-109 | once the outcome is known each step of the initializing thread brings it closer to its end, so no wakeup is lost |
| Startup.EndedMeansDecided | backends/vllm_deepseek/policy.py:158-165 | however the coroutine ends, the outcome is known and its engine is withdrawn |
| Startup.RaisedMeansAborted | backends/vllm_deepseek/policy.py:103-109 | once initialization has raised its error the coroutine is told to stop, and nothing new is published |
| Startup.CoroutineEnds | backends/vllm_deepseek/policy.py:111-165 | each step of a running coroutine brings it closer to its end, unless it waits for the lock |
| Startup.WaitsAsleep | backends/vllm_deepseek/policy.py:94-102 | with nothing decided and time left the thread sleeps until a notice or the deadline |
| Startup.RaisedIsReported | backends/vllm_deepseek/policy.py:98-165 | what initialization raises is its timeout, the early exit of the coroutine, or an error raised in the coroutine |
| Startup.PublicationIsPossible | backends/vllm_deepseek/policy.py:111-134 | in every reachable state, an engine can still be published exactly if nothing is aborted and the coroutine is on its way there |
| Startup.SuccessIsPossible | backends/vllm_deepseek/policy.py:86-134 | there is a run in which initialization succeeds with a live engine |
| Startup.Handshake.Publish | backends/vllm_deepseek/policy.py:127-134 | the publishing section under the lock |
| Startup.Handshake.Record | backends/vllm_deepseek/policy.py:139-155 | the recording sections keep the first error |
| Startup.Handshake.End | backends/vllm_deepseek/policy.py:158-165 | the final section withdraws the engine and decides if nothing else did |
| Startup.Handshake.TimeOut | backends/vllm_deepseek/policy.py:98-101 | the timeout branch |
| PdfSlots.StartsOfJoin | backends/vllm_multimodal/utils/media.py:334-381 | the markers of a joined text are exactly those put there, because no known marker overlaps itself |
| PdfSlots.CutAndJoin | backends/vllm_multimodal/utils/media.py:352-381 | a prompt is its pieces joined by its markers, and no piece holds one |
| PdfPages.MarkersAreUnbordered | backends/vllm_multimodal/utils/media.py:545-557 | no known marker ends the way it begins |
| PdfPages.DetectMarker | backends/vllm_multimodal/utils/media.py:545-557 | of the known markers that the prompt holds, the one listed first |
| PdfPages.ListedInOrder | backends/vllm_multimodal/utils/media.py:560-563 | each entry of a media order stands for an image slot, a PDF slot or none, in any case, in order |
| PdfPages.SlotsFollow | backends/vllm_multimodal/utils/media.py:344-346 | a media order with an image or a PDF is followed; otherwise the images come before the PDFs |
| PdfPages.Prepare | backends/vllm_multimodal/utils/media.py:358-368 | the replacement of each PDF slot's marker; fails exactly for a PDF without pages |
| PdfPages.Replace | backends/vllm_multimodal/utils/media.py:370-381 | the loop over the matches repeats exactly the PDFs' markers |
| PdfPages.Expand | backends/vllm_multimodal/utils/media.py:334-381 | succeeds exactly for matching counts, enough markers and pages, and repeats each marker as its slot says |
| PdfPages.Merge | backends/vllm_multimodal/utils/media.py:566-595 | the merging loop gives the images in slot order, or fails |
| PdfPages.MergedExactly | backends/vllm_multimodal/utils/media.py:566-595 | merging succeeds exactly when the slots match the images and the PDFs |
| PdfPages.MergedBlock | backends/vllm_multimodal/utils/media.py:566-595 | from a slot's offset on the merged images are the slot's image or pages |
| PdfPages.PlaceIs | backends/vllm_multimodal/utils/media.py:370-381 | a slot's markers start where its marker stood, moved by exactly the markers added before it |
| PdfPages.ExpandedMarkers | backends/vllm_multimodal/utils/media.py:334-381 | the slot's markers stand where its marker stood, from the slot's offset on in the list of all markers, and their number grows by the pages less one of each PDF |
| PdfPages.Build | backends/vllm_multimodal/utils/media.py:207-227 | succeeds exactly when slots, inputs and markers match; the new prompt is the old one with each slot's marker repeated, and the k-th marker, the k-th image and the k-th origin belong together |
| MediaReduce.WindowEnd | gateway/vllm_media.py:700-704 | a window is never empty, is bounded, and ends at a break in its second half if it can |
| MediaReduce.PageChunks | gateway/vllm_media.py:684-711 | windows end at the last break in their second half or at full size, the next starts the overlap before that end but further on; they hold every character, and the chunks are their texts |
| MediaReduce.SplitText | gateway/vllm_media.py:943-959 | the chunks hold every character that is no space, once and in order |
| MediaReduce.HalvingPartitions | gateway/vllm_media.py:429-477 | for any model the summaries partition the items in order, each written for its part; a failure is due to one stretch |
| MediaReduce.ReduceGroups | gateway/vllm_media.py:791-821 | note k of a round is written from the k-th group of consecutive notes, under its label; there are fewer of them, and a round fails only where the model fails on such a group |
| MediaReduce.RoundAccounts | gateway/vllm_media.py:791-821 | a round keeps account of the inputs: each note is made from inputs by calls of the model alone, and every input is used once and in order |
| MediaReduce.BlocksTile | gateway/vllm_media.py:745-822 | so each note stands for a block of the inputs that is not empty, and the blocks lie one behind the other |
| MediaReduce.Reduce | gateway/vllm_media.py:745-822 | ends for any sizes and any model, within the limits, after exactly as many rounds as the notes need; the notes account for all inputs, and it fails only where the model fails on a group of a round that was reached |
| Frames.RoundedGrows | gateway/media_preprocessing.py:482-487 | positions more than one apart round to different frames |
| Frames.TargetCount | gateway/media_preprocessing.py:474-480 | at least one frame, at most as many as there are and as are allowed |
| Frames.TargetIsLeast | gateway/media_preprocessing.py:474-480 | the least number of frames that reach the sampled length of the clip, unless the clip or the limit has fewer |
| Frames.FramesAreNearest | gateway/media_preprocessing.py:482-487 | each position is the integer nearest to its ideal place, the even one from halfway |
| Frames.FramesAreEven | gateway/media_preprocessing.py:474-487 | exactly the target number of strictly increasing frames, from first to last, with no gap beyond the ideal step plus one |

## Left out

- Durability below the call: each file system call counts as durable when it returns, and listing a directory as atomic.
- CleanupProofs.NothingIsLost: a checkout may be moved while no removal is under way in it and none of its files are staged; `LossExactly` covers all other runs. Producers add or replace entries under new inodes, never delete them, and inode numbers are not reused.
- CleanupProofs.RecoveryConverges: assumes what recovery itself checks, that the stage names this checkout, holds admitted names only and no directory; otherwise recovery refuses and leaves all in place.
- Several stages for one checkout: nothing is started while a stage awaits recovery, as the watcher script arranges.
- `retire_model_copy`, its grace period, its marker file and the scan for users of a checkout.
- Removing reasoning blocks, leading role noise and echoed prompts (`gateway/sanitizer.py:43-110`): the sanitizers start from the cleaned text. Case folding is that of ASCII.
- Streaming.StreamingSanitizer.Sanitize: the cursors are promised to be valid for the text, not to have moved as far as they could; how much scanning they save is not modelled.
- The external recipe processor: an append-only buffer that has finished when the end marker is pushed; how it puts tool calls together is a parameter of `Finish`, and argument order is disregarded there as the source's sorted comparison does.
- The final JSON check of `DeepSeekJsonOutput.finish`.
- Metrics, tracing, logging, HTTP and gRPC transport, environment and configuration readers.
- Admission: which of two timeouts is reported, and waiting times; policies are those the readers produce, with room for at least one request.
- Tokenizers, templates, image and video estimates: arbitrary functions. Ratios are exact reals, where the source uses floats.
- Summaries.Summarize: the text splitter is a function that returns at least one chunk; that its chunks restore the text is not claimed, since the source decodes and strips them. Selecting verbatim evidence is a function of the removed messages; its tokens are part of the estimate.
- Vision: loading and enforcing the vision policy; roles other than system, user, assistant and tool.
- Safetensors: reading files, JSON parsing, name and type checks of header entries, limits on counts and lengths, and the identity of shard files.
- ProtoLex.FilesReadBack: text is ASCII; other bytes enter through escapes. Reading the file and its identity checks are left out.
- Responses: telemetry, identifiers (a function of the item's position) and cancellation of the stream.
- Startup: notes added to an error, joining threads, the second cleanup of the caller, and the deadline arithmetic; a deadline may pass at any look at the clock.
- Media decoding, retrieval by embeddings, the embedding cache, concurrency of map calls, and the prompts sent to the models.
- MediaReduce.Reduce: assumes that no notes cost no more than the budget, without which the source would not end on no notes.
- Frames.FramesAreEven: exact rational arithmetic with half-even rounding in place of floats.
- Rerank strategies, sparse embeddings, schema validators and build scripts: outside the hard core.
