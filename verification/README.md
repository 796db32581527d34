# Verified model of the gateway's protocol core

The gateway turns chat APIs into JSON-RPC 2.0 over stdio to agent subprocesses. This project models the
parts of it whose correctness is decided by code rather than by wiring, and proves what those parts keep
over every input, every interleaving and every operation sequence. `dafny verify dfyconfig.toml` checks
everything.

| file | subject |
|---|---|
| `Options.dfy`, `Sequences.dfy`, `GoStrings.dfy` | an optional value; suffixes of sequences; the string functions of Go's library that the code calls |
| `JsonText.dfy` | concrete JSON syntax (RFC 8259, sections 2 to 7) with its printer: the specification the text scanners are measured against |
| `ToolCallScan.dfy`, `ToolCallExtract.dfy`, `ToolCallRepair.dfy`, `ToolCallLimits.dfy` | the one-pass brace/string scanner that finds `{"tool_call": ...}` objects in model output, its loop, truncation repair, and where it stops |
| `ToolCallWrappers.dfy`, `Fences.dfy`, `ToolCallNaming.dfy`, `ToolCallTiers.dfy`, `ToolCallReplies.dfy` | wrapper extraction, its read-only classifier, in-place coercion of a response, code fences; which call an object asks for and how a reply is classified, said on their fields; from printed reply to calls |
| `AcpDispatcher.dfy`, `AcpStream.dfy`, `PromptSlot.dfy` | response correlation, the per-prompt stream and the active-stream slot as interleaved atomic steps |
| `EngineRun.dfy` | a request from PreHooks to PostHooks, with both recoveries |
| `LogTail.dfy`, `TailRing.dfy`, `TailFanout.dfy`, `SseFrames.dfy`, `LogPipeline.dfy` | the log viewer: history window and partial-line carry, line ring, fan-out to viewers, event framing, and one system from the growing file to browser events, with the tailer's restarts |
| `CaptureRing.dfy`, `CaptureRace.dfy` | UTF-8 clipping, the capture ring and its on/off gate; the gate under racing callers |
| `RedactAssign.dfy`, `RedactLayout.dfy`, `RedactTree.dfy` | redaction of captured text, what an assignment looks like in it, and redaction of captured JSON trees |

How the model is laid out:

- Loops and objects of the program are methods and classes with the program's own fields. Each is proved
  equal to a specification function (or step function), and the properties are proved about that function.
- What such a function computes is also said without it, on the characters of the text or the fields of the value:
  which objects are read (`ToolCallReplies`), which call an object asks for (`ToolCallNaming`), how a reply is classified
  (`ToolCallTiers`), where an assignment and its value lie (`RedactLayout`), which numeral an id is (`AcpDispatcher`).
- Concurrent parts are state machines in which one critical section, one channel operation or one unlock
  is one step; results quantify over all runs, so over all interleavings.
- Calls into code outside the model are arguments: `parse`/`decode` for `encoding/json`, `clock` for the
  wall clock, `secret` for the secret-name test, `patterns` for regular expressions, a `Script` for everything
  the engine asks of hooks, agent and context. Results hold for every such argument.
- Automatic induction is switched off on every lemma, so each inductive argument is spelled out.
- Text is a `string` with one `char` per byte; UTF-8 clipping works on bytes 0 to 255.

Where the code and its comments or natural expectations part, the model follows the code:

- `StripFences` panics when the opening and the closing fence share their newline. `PanicsExactlyOnSharedNewline`
  gives the exact set of inputs, `FencedBodyComesBack` the good case.
- A guarded run looks at the agent's replies with the same fence removal and nothing recovers there, so a reply that
  is a fence around nothing makes `Run` panic: no handle and no error, no cancel of its own, no release of the hold,
  no PostHook, no protocol event; only the armed watchdog is left. `EngineRun.Panics` is the exact condition, proved
  for `Run` and `Collect`, with `ObserverPanicsExactly` and `ExtractorPanicsExactly` for the two functions and
  `EmptyFencePanics` for the reply. The guarantees on hooks, cancels and events hold on every other path.
- `Stream.Result` waits for `done` only, which closes before the result is merged. `ResultIsRightExactlyWhen` says
  when what it reports is right, `DoneAloneIsEarly` that every known stop reason and every error has a moment at
  which it is not, and `ConsumerSeesFinalResult` what a consumer that saw `Chunks` closed can rely on.
- A failing send in `Prompt` clears the active stream unconditionally. `OverlapLosesTheSlot` shows a newer prompt
  losing its slot; `NewestHoldsSlotExactly` says over whole runs that nothing else takes it.
- Redaction of `name = value` text resumes after a replaced value, so a secret name inside that value is not seen:
  `secret: token: abc123` comes out as `secret: [REDACTED] abc123` (`SecretAfterSecretIsWrittenOut`).
  `EverySecretIsReplacedExactly` says for which texts every value is replaced, `AllHiddenExactly` for which texts
  nothing of any value is written out, `ValueIsHiddenExactly` the same for each single value.
- The tailer stops with its last viewer and starts again at the end of the file. `SessionsLoseNothingExactly` says
  when such a restart loses lines, `RestartLoses` which ones.
- The lines the tailer emits can depend on how reads cut the bytes. `CutsMatterExactly` gives the exact condition:
  they do not if and only if every terminated record fits the cap and the unfinished line is shorter than two
  caps and two bytes.
- Capturing a frame tests the gate and writes the ring in two steps. `StraysExactly` says when a call outlives a
  Clear or Enable that came after its test; `StrayOutlivesDisableAndClear` and `NoOrderLeavesIt` show that no order of
  indivisible operations explains such a run.
- `drainAll` guards against a full channel. With fresh ids a pending channel is always empty (`SendsNeverBlock`), so
  that branch is never taken.

## Model

| member | source | states |
|---|---|---|
| `ToolCallScan.PrintedValueIsFound` | internal/engine/coerce.go:709-835 | for every JSON value printed within the budgets, after prose without `"` or `{` and before prose without `{`, the decoder is handed exactly the printed text of every object with a direct `tool_call` key, in closing order, up to 32 accepted objects; nothing inside strings matters |
| `ToolCallScan.CollectIsTake` | internal/engine/coerce.go:784-794 | the objects collected from a list of candidates are the first 32 of those that decode as they are or, failing that, after raw control characters in their strings are escaped; what decodes neither way leaves no trace |
| `ToolCallScan.RunWithinBudgets` | internal/engine/coerce.go:740-803 | on any text the open-object stack never exceeds 64, every frame points into the scanned prefix and accepted objects never exceed 32 |
| `ToolCallScan.OutputBounded` | internal/engine/coerce.go:784-835 | on any text at most 32 objects come out |
| `ToolCallScan.SpacesShowColon` | internal/engine/coerce.go:854-866 | JSON white space followed by a colon is recognised as a key position |
| `ToolCallScan.SpacesArePassed` | internal/engine/coerce.go:854-866 | the look-ahead from before a run of white space and from after it agree: spaces neither hide nor invent a colon |
| `ToolCallExtract.ExtractToolCallObjects` | internal/engine/coerce.go:709-835 | the loop with its stacks, counters and early exits computes the reference scan on every text and returns at most 32 objects; what that scan finds in a reply is `ToolCallReplies.PrintedObjectsAreRead`, `ToolCallReplies.RestoredObjectIsRead` and `ToolCallLimits` |
| `ToolCallExtract.InString` | internal/engine/coerce.go:742-762 | one byte inside a string: escapes, the closing quote, and marking the top object for the key `tool_call` only |
| `ToolCallExtract.CloseBrace` | internal/engine/coerce.go:777-795 | a closing brace pops one object; a marked one is decoded as it is, then with raw control characters escaped, and the 32nd hit stops the scan |
| `ToolCallExtract.OutsideString` | internal/engine/coerce.go:764-802 | any other byte outside strings: opening quotes, opening braces up to depth 64, last meaningful byte |
| `ToolCallExtract.RepairTruncation` | internal/engine/coerce.go:805-828 | the end-of-text repair picks the innermost marked open object and closes it as the reference does |
| `ToolCallExtract.RepairControlCharsLoop` | internal/engine/coerce.go:623-657 | the byte loop with its two flags equals the specification transducer |
| `ToolCallExtract.RepairOfPrinted` | internal/engine/coerce.go:623-657 | repairing any printed JSON value yields the print of the same value with raw newlines, returns and tabs in strings escaped, everything outside strings untouched |
| `ToolCallExtract.EscapeKeepsMeaning` | internal/engine/coerce.go:618-657 | escaping keeps a string body well formed, keeps what it denotes character by character, and is idempotent |
| `ToolCallRepair.ClosingRestoresText` | internal/engine/coerce.go:809-828 | an object cut after a complete member value, plus as many closing braces as were open, is the original object's text |
| `ToolCallRepair.TruncatedObjectIsRestored` | internal/engine/coerce.go:740-828 | a truncated printed object yields its complete inner wrappers and then, exactly when depth is at most 8 and size at most 64 KiB, the restored text of the innermost open object with a `tool_call` key |
| `ToolCallReplies.PrintedObjectsAreRead` | internal/engine/coerce.go:777-795 | of a JSON value in prose each object with a direct `tool_call` key contributes what the decoder reads in its text, or else in the text of the same object with raw newlines, returns and tabs in strings escaped, or else nothing, in closing order, the first 32 |
| `ToolCallReplies.RestoredObjectIsRead` | internal/engine/coerce.go:805-828 | the same for a value that lost its closing braces: after the complete objects the innermost open one is read as it was before the cut, exactly when at most 8 objects are open in it and its text has at most 64 KiB |
| `ToolCallReplies.RawNewlineBecomesItsCall` | internal/engine/coerce.go:784-794 | a wrapper with a raw newline in an argument, rejected by the decoder as it stands, becomes its one call with the newline in the argument |
| `ToolCallLimits.BeyondBudgetIsIgnored` | internal/engine/coerce.go:721-728 | what follows the first MiB of a text does not change what is found |
| `ToolCallLimits.TooDeepEndsTheScan` | internal/engine/coerce.go:767-775 | with 64 objects open another brace ends the scan: whatever follows, only the wrapper objects complete by then are found and no open one is restored |
| `ToolCallLimits.CutInStringRestoresNothing` | internal/engine/coerce.go:805-809 | a text that ends inside a string, perhaps right after a backslash, gives the complete wrapper objects and restores none |
| `ToolCallWrappers.PickBestTool` | internal/engine/coerce.go:208-232 | returns the first tool of maximal overlap between argument names and schema properties, or none exactly when every overlap is zero |
| `ToolCallWrappers.ScoreTool` | internal/engine/coerce.go:212-222 | a tool's score is the overlap of argument names with its schema properties, zero without any |
| `ToolCallWrappers.CountShared` | internal/engine/coerce.go:217-222 | the counting loop yields the number of argument names that are schema properties |
| `ToolCallWrappers.Classify` | internal/engine/coerce.go:392-429 | the classifier loop over candidates computes the specified disposition, embedded or not |
| `ToolCallWrappers.ObserveToolCallWrappers` | internal/engine/coerce.go:368-465 | the observer's tiers (whole text, fenced text, embedded objects) equal the specification, panics included |
| `ToolCallWrappers.WholePanicsExactly` | internal/engine/coerce.go:568-574 | decoding a reply as a whole panics if and only if it does not decode and is a shared-newline fence |
| `ToolCallWrappers.ObserverPanicsExactly` | internal/engine/coerce.go:431-438 | the observer panics if and only if, besides, the reply is within the scan budget |
| `ToolCallWrappers.ExtractorPanicsExactly` | internal/engine/coerce.go:568-574 | the extractor panics if and only if the reply does not decode and is a shared-newline fence, whatever its length |
| `ToolCallWrappers.PushWrappers` | internal/engine/coerce.go:517-616 | the extraction loop appends exactly one call per resolvable wrapper, in order |
| `ToolCallWrappers.ExtractToolCallWrappers` | internal/engine/coerce.go:476-616 | the extractor's tiers equal the specification, panics included; which calls these are is `ToolCallNaming.ExtractionIsWhatIsAsked` |
| `ToolCallWrappers.ClassifierPredictsExtractor` | internal/engine/coerce.go:368-616 | up to 1 MiB: both panic together; `none` means no calls; `direct` means one call per wrapper under its own name and arguments; `dispatcher_exact` means each call is the dispatcher wrapping inner name and arguments |
| `ToolCallWrappers.ExtractedCallsAreOffered` | internal/engine/coerce.go:553-564 | every extracted call names an offered tool; its id is `call_`, the clock and the call's number, so ids within one extraction are pairwise distinct whatever the clock does |
| `ToolCallWrappers.IdsDiffer` | internal/engine/coerce.go:553-564 | minted ids with different positions differ for every clock |
| `ToolCallNaming.CallIsWhatTheObjectAsks` | internal/engine/coerce.go:517-564 | an object becomes a call if and only if it asks for it, said on its fields: it needs a `tool_call` object with a non-empty name; an offered name is called with the wrapper's own arguments, an object or a JSON string of one, or none; an unknown name in a bare wrapper that is the whole reply goes to a declared dispatcher; any other unknown name goes to the first tool that shares most argument names, if one shares any |
| `ToolCallNaming.BestSharesMost` | internal/engine/coerce.go:208-232 | the tool picked is the first of those that declare most of the argument names as properties, and none is picked exactly when no tool declares any |
| `ToolCallNaming.TierCalls` | internal/engine/coerce.go:594-616 | the calls made of a list of objects stand in the order of the objects that ask for them, and every other object asks for nothing |
| `ToolCallNaming.ExtractionIsWhatIsAsked` | internal/engine/coerce.go:566-616 | the calls of a reply are those the objects of the whole reply ask for or, only if these ask for nothing, those the objects found in the text ask for, in order |
| `ToolCallNaming.UnknownNameGoesToBestMatch` | internal/engine/coerce.go:546-551 | a reply whose only wrapper has a name that is not offered and does not go to the dispatcher: there is a call if and only if some tool declares a property that is a key of the arguments; then it is the only one, names the first tool with the largest number of such keys, and has the wrapper's own arguments, also when they came as a JSON string |
| `ToolCallNaming.BareArgumentsGoToBestMatch` | internal/engine/coerce.go:138-187 | a reply without calls that is, raw or fenced, one JSON object becomes a call if and only if some tool declares a property that is a key of it: a call of the first tool that shares most, with the object as arguments; any other such reply becomes none |
| `ToolCallTiers.FenceExactly` | internal/engine/coerce.go:337-350 | a fence is removed if and only if the normalised text is that fence around the result |
| `ToolCallTiers.WholeExactly` | internal/engine/coerce.go:568-574 | a reply as a whole decodes to its raw text's value, only failing that to the value of what stands in its fence, else to nothing |
| `ToolCallTiers.CandidatesExactly` | internal/engine/coerce.go:576-589 | the objects a decoded reply offers are itself or, of a list, exactly the items that are objects, in order |
| `ToolCallTiers.ClassificationExactly` | internal/engine/coerce.go:392-429 | `none` without a wrapper; more than one embedded wrapper is malformed; `direct` if and only if every wrapper names an offered tool; a dispatcher disposition if and only if every wrapper is a bare one with an unknown name and object arguments and a dispatcher is declared; malformed otherwise |
| `ToolCallTiers.ObservedExactly` | internal/engine/coerce.go:431-465 | the disposition of a reply is that of the whole reply if it offers a wrapper, else that of the objects in the text; without any it is malformed exactly when the literal `{"tool_call"` stands in the first MiB; a reply over the scan budget is judged by its text alone |
| `ToolCallReplies.ReplyBecomesCalls` | internal/engine/coerce.go:476-835 | for a printed JSON value in prose whose objects the decoder reads back, as they stand or with raw control characters escaped: unless the reply as a whole yields calls, the calls are those of the first 32 objects with a `tool_call` key in closing order |
| `ToolCallReplies.WrapperBecomesCall` | internal/engine/coerce.go:476-835 | a wrapper printed in prose, raw control characters in its strings or not, becomes exactly the one call it spells out, if its tool is offered |
| `ToolCallReplies.WantedAreTexts` | internal/engine/coerce.go:777-795 | the slices handed to the parser are the prints of the objects with a `tool_call` key, and these are well formed |
| `ToolCallWrappers.FindText` | internal/engine/coerce.go:117-130 | finds the first text part |
| `ToolCallWrappers.RecoverCalls` | internal/engine/coerce.go:131-187 | wrappers first, then the single best schema match, on fenced or plain text |
| `ToolCallWrappers.CoerceToolCall` | internal/engine/coerce.go:105-191 | true exactly when calls are recovered; then the first text part is emptied, everything else kept, and the response gets exactly the recovered calls, all naming offered tools; otherwise the response is unchanged |
| `Fences.PanicsExactlyOnSharedNewline` | internal/engine/coerce.go:337-350 | slice bounds cross if and only if the trimmed text is an opening fence whose newline also starts the closing fence |
| `Fences.SharedNewlinePanics` | internal/engine/coerce.go:341-346 | a concrete panicking input |
| `Fences.FencedBodyComesBack` | internal/engine/coerce.go:337-350 | for every body and any surrounding white space, stripping returns the body with CRLF collapsed; a carriage return right before the closing fence belongs to the line ending there |
| `AcpDispatcher.Dispatcher.Register` | internal/acp/dispatcher.go:70-76 | hands out a new empty channel and maps the id to it; a step of the interleaving model |
| `AcpDispatcher.Dispatcher.Cancel` | internal/acp/dispatcher.go:80-84 | forgets the id and nothing else |
| `AcpDispatcher.Dispatcher.Route` | internal/acp/dispatcher.go:100-130 | a frame is passed on if and only if it has a method, whatever its id; one without takes the channel of the pending request whose decimal numeral its id is, whatever its error and result, and that request leaves the map before the lock is released; every other frame changes nothing |
| `AcpDispatcher.Dispatcher.Send` | internal/acp/dispatcher.go:131-133 | the send after unlocking fills the empty channel |
| `AcpDispatcher.Dispatcher.DrainAll` | internal/acp/dispatcher.go:146-157 | every pending channel that is empty gets the close sentinel, the map is emptied, nothing else changes |
| `AcpDispatcher.OneFittingFramePerChannel` | internal/acp/dispatcher.go:70-157 | over every run with fresh ids a channel is sent at most one frame, carrying its own id or the close sentinel |
| `AcpDispatcher.SendsNeverBlock` | internal/acp/dispatcher.go:100-157 | in every reachable state every route holding a channel can send, and every pending channel is empty |
| `AcpDispatcher.DrainSettlesEveryone` | internal/acp/dispatcher.go:146-157 | after a drain, and for ever after, each earlier registration has its frame, was cancelled, or is held by a route about to deliver |
| `AcpDispatcher.EchoReachesItsCaller` | internal/acp/dispatcher.go:100-135 | a frame without a method, an error or a result, whose id is a pending id in decimal is delivered to that request's own channel, and a frame that reaches a channel has that channel's id |
| `AcpDispatcher.ParsesExactly` | internal/acp/dispatcher.go:110-121 | an id is read as a number if and only if it is a run of digits that stands for that number below 2^64; the decimal numeral of a number is read as that number |
| `AcpDispatcher.NotifiedExactly` | internal/acp/dispatcher.go:100-106 | over every run the frames passed on are exactly the routed frames with a method, in order, whatever their ids |
| `AcpStream.NeverSendsOnClosedChannel` | internal/acp/stream.go:148-202 | in every interleaving of pushes and close nothing is sent on the closed chunk channel |
| `AcpStream.CloseIsNeverStuck` | internal/acp/stream.go:148-202 | while close waits, every push holding the read lock has an enabled step that releases it, and some progress step is always enabled |
| `AcpStream.WorkIsBounded` | internal/acp/stream.go:178-202 | progress steps never exceed the rank, in any run from a closing state |
| `AcpStream.CloseCompletes` | internal/acp/stream.go:178-202 | from any reachable closing state at most `Rank` progress steps happen, and after that many close has finished |
| `AcpStream.CloseCanFinish` | internal/acp/stream.go:178-202 | from every state in which close was called it can run to its end by its own steps and those of pushes that see `done`, without the consumer and without any push's context |
| `AcpStream.PushDelivers` | internal/acp/stream.go:148-166 | while close was not called and fewer than 64 chunks wait, a push can run to its end by itself, and then its chunk is the last in the channel, counted once, and nothing else changed |
| `AcpStream.SelectExactly` | internal/acp/stream.go:155-166 | in any reachable state a push in its select can send if and only if fewer than 64 chunks wait, and sees `done` if and only if close was called |
| `AcpStream.NothingAfterTheFlag` | internal/acp/stream.go:148-202 | once the closed flag is set, whatever runs, no further chunk is accepted or counted |
| `AcpStream.ConsumerSeesFinalResult` | internal/acp/stream.go:148-251 | a consumer that read the channel to closure received every pushed chunk in push order, and Result then reports that count, the stop reason and error of the first close and the denials before it; later pushes and closes change nothing |
| `AcpStream.ResultIsRightExactlyWhen` | internal/acp/stream.go:178-225 | once `done` is closed, stop reason and error are those of the first close if and only if they are already merged or blank; a caller that saw `Chunks` closed is past the merge, and then every accepted chunk is counted |
| `AcpStream.DoneAloneIsEarly` | internal/acp/stream.go:184-216 | for every known stop reason or error there is a reachable state with `done` closed, `Chunks` open and a wrong result |
| `PromptSlot.ChunksComeFromTheirSession` | internal/acp/client.go:1332-1366 | over every run, a chunk a stream received belongs to that stream's session: the session of the stream or of the update is unknown, or they are the same |
| `PromptSlot.UpdatesReachTheirSession` | internal/acp/client.go:1332-1366 | an update matched while a stream is active goes in flight to that stream if and only if one of the two sessions is unknown or they are the same; its push then appends it there and changes nothing else, or drops it |
| `PromptSlot.NewestPromptKeepsItsSlot` | internal/acp/client.go:1004-1114 | without overlapping Prompt calls the newest prompt owns the slot exactly while it is sending or awaiting: no older finaliser clears it |
| `PromptSlot.OverlapLosesTheSlot` | internal/acp/client.go:1024-1026 | a run of overlapping prompts after which an awaiting prompt has lost its slot |
| `PromptSlot.SendFailureTakesNewerSlot` | internal/acp/client.go:1024-1026 | a failing send takes another prompt's slot if and only if a newer prompt exists and a stream is active |
| `PromptSlot.NewestHoldsSlotExactly` | internal/acp/client.go:1004-1114 | over every run after a prompt was published, however calls overlap, without a later publication or a teardown: it holds the slot if and only if it is sending or awaiting and no other prompt's send has failed since |
| `EngineRun.Run` | internal/engine/engine.go:205-411 | a handle comes back exactly when nothing in the script stops the request, and the call panics exactly when a reply it looks at is a shared-newline fence that does not decode; otherwise, after NewSession an error means exactly one cancel on that session, the hold released exactly once and the watchdog stopped, while a handle comes without cancel, its hold released or passed on to the live stream; at most two prompts, all effects on that session; a guarded run that returns reports one protocol event whose corrective count equals the corrective prompts sent; a panic leaves no cancel, release, PostHook or event |
| `EngineRun.PreHooks` | internal/engine/engine.go:226-258 | short-circuits exactly when some hook answers after all earlier ones continued; a failure after a success still runs the PostHooks |
| `EngineRun.RunSession` | internal/engine/engine.go:267-330 | model and prompt-sequence failures leave the session cancelled once, reported and cleaned up; handle and panic exactly as for Run |
| `EngineRun.RunPrompt` | internal/engine/engine.go:331-411 | the first prompt, the watchdog and the choice of recovery keep the run contract, panics included |
| `EngineRun.Fail` | internal/engine/engine.go:533-556 | the failure path stops an armed watchdog, releases a hold, cancels once, runs every PostHook and reports once |
| `EngineRun.Succeed` | internal/engine/engine.go:555-559 | a fully buffered attempt releases the hold at once, a live one passes it on; one outcome is reported for a guarded run |
| `EngineRun.RecoverToolProtocol` | internal/engine/engine.go:522-623 | a corrective prompt goes out exactly when the first attempt was rejected and the context is alive; a rejected attempt is never released; looking at a reply may panic |
| `EngineRun.RecoverToolResultProtocol` | internal/engine/engine.go:413-520 | the same, except that a rejected correction falls back to the buffered first attempt unless the context ended; needing correction and being final prose are computed from the reply |
| `EngineRun.CorrectToolProtocol` | internal/engine/engine.go:584-623 | the corrective prompt and its attempt: released when accepted or live, failed otherwise, panicking with the extractor |
| `EngineRun.CorrectToolResultProtocol` | internal/engine/engine.go:477-520 | the corrective prompt after a tool result: final prose is released, anything else falls back, panicking with the observer only when the reply gets that far |
| `EngineRun.CorrectionIsDueExactly` | internal/engine/engine.go:465-583 | a correction is due, said on the first reply, exactly when a buffered tool attempt was not accepted and did not make the extractor panic, or when a buffered answer to a tool result is a refusal without a native call in which the observer sees no wrapper |
| `EngineRun.ReleasedRepliesAreSound` | internal/engine/engine.go:465-623 | what reaches the caller, said on the replies: a buffered tool attempt only if accepted, a buffered corrected answer only if it is prose without native call, wrapper or refusal, a first answer that needed correction only as the fallback after one; each under its own outcome |
| `EngineRun.Observe` | internal/engine/engine.go:470-470 | the observer panics exactly on an undecodable shared-newline fence within the scan budget, else says whether there is a wrapper |
| `EngineRun.Extract` | internal/engine/tool_protocol.go:290-290 | the extractor called in classification panics exactly on an undecodable shared-newline fence |
| `EngineRun.EmptyFencePanics` | internal/engine/engine.go:574-574 | for every guarded run that sent its prompt, the reply of a fence around nothing makes it panic, unless it decodes |
| `EngineRun.RunPostHooks` | internal/engine/engine.go:655-665 | every hook runs once and in order whatever single hooks do, and the first failure is reported |
| `EngineRun.Collect` | internal/engine/collect.go:45-256 | on every path each PostHook runs exactly once, or not at all for a nil request, a failing first PreHook or, exactly when Run panics, a panic; success exactly when hooks are clean and the request was answered or served and read to its end; at most one cancel |
| `EngineRun.CollectFromRun` | internal/engine/collect.go:85-256 | a handle that cannot be read to its end is cancelled once; PostHooks run once on every path |
| `LogTail.ReadLines` | internal/admin/tail.go:670-722 | the read loop over a tick emits exactly the lines the tick completes, capped, and carries the rest |
| `LogTail.ReadString` | internal/admin/tail.go:673-674 | a buffered read returns the text up to and including the next newline, or the rest at end of file |
| `LogTail.ReadInitialBackfill` | internal/admin/tail_backfill.go:15-91 | window, alignment, carry and size equal the specification, also for empty files and non-positive limits |
| `LogTail.WindowHistory` | internal/admin/tail_backfill.go:60-91 | the record loop yields the newest complete lines of the window and its unfinished tail |
| `LogTail.CutPartial` | internal/admin/tail_backfill.go:60-70 | splits a window at its last newline: complete records on one side, exactly the unfinished tail on the other |
| `LogTail.CleanRecords` | internal/admin/tail_backfill.go:79-89 | the record loop keeps the newest records, each without its carriage return and within the cap |
| `LogTail.AlignedIsSuffix` | internal/admin/tail_backfill.go:29-58 | the aligned window is a suffix of the file starting at its first line boundary, dropping no more than the partial first line, and is empty when there is no boundary |
| `LogTail.ReplayIsExact` | internal/admin/tail.go:670-722 | if every line is within the cap, the emitted lines and the carry depend on the bytes only, not on how ticks cut them: every line once, whole |
| `LogTail.HistoryThenTailIsExact` | internal/admin/tail_backfill.go:15-91 | history plus live lines are exactly the tail of the file's lines: none lost, repeated or split |
| `LogTail.NothingExceedsCap` | internal/admin/tail.go:670-722 | on any file, cuts and carry within the cap, no history line, live line or kept fragment is longer than the cap, and there are at most as many history lines as asked for |
| `LogTail.RecordComesOut` | internal/admin/tail.go:670-722 | a record of any length that ends within a tick comes out in its place, without its line feed or CRLF, cut to the cap |
| `LogTail.OverlongRecordDependsOnTicks` | internal/admin/tail.go:684-712 | a record over the cap gives one more emitted line when a read ends before its newline |
| `LogTail.ReplayBelowLimits` | internal/admin/tail.go:670-722 | below the limits every way of cutting emits the records once each, plus one flush of an unfinished line over the cap |
| `LogTail.CutsMatterExactly` | internal/admin/tail.go:670-722 | for every text and carry within the cap, all cuts emit the same lines if and only if every terminated record fits the cap and the unfinished line is shorter than 2 * cap + 2 |
| `TailRing.RingBuffer.Push` | internal/admin/tail.go:96-131 | the ring remembers the pushed line, forgetting the oldest when full |
| `TailRing.RingBuffer.Copy` | internal/admin/tail.go:135-154 | returns exactly the last `cap` lines ever pushed, oldest first |
| `TailRing.UnwoundPush` | internal/admin/tail.go:96-131 | writing at the head slot and moving it on appends to the unwound contents and drops the oldest entry of a full buffer |
| `TailFanout.Tailer.Attach` | internal/admin/tail.go:236-257 | new record, ring snapshot and status taken in one step |
| `TailFanout.Tailer.Unsubscribe` | internal/admin/tail.go:265-285 | removes and closes a listed record once, does nothing to others, stops the run with the last one |
| `TailFanout.Tailer.Close` | internal/admin/tail.go:274-277 | marks the record closed and closes its channels; a second close would panic |
| `TailFanout.Tailer.PublishStatus` | internal/admin/tail.go:290-311 | an unchanged status is not sent; a new one replaces every open mailbox |
| `TailFanout.Tailer.PublishInitialBackfill` | internal/admin/tail.go:376-399 | history is pushed and sent once |
| `TailFanout.Tailer.PushAll` | internal/admin/tail.go:382-384 | all history lines are pushed in order |
| `TailFanout.Tailer.Broadcast` | internal/admin/tail.go:802-818 | the line is pushed and offered to every listed record |
| `TailFanout.Tailer.SendAll` | internal/admin/tail.go:806-817 | the loop over the list equals offering to all listed records at once |
| `TailFanout.EveryRunKeepsInv` | internal/admin/tail.go:236-311 | every interleaving of attach, unsubscribe, status, history, broadcast and viewer steps keeps the invariant |
| `TailFanout.ViewersSeePushOrder` | internal/admin/sse.go:194-243 | on every run: no send on a closed channel; a viewer's wire plus what is on its way is its snapshot and the pushes since, in push order without gap or duplicate except dropped ones; mailbox or last-read status equals the current status; without drops it is one contiguous piece of the log |
| `TailFanout.DropsExactlyWhenFull` | internal/admin/tail.go:802-818 | over a whole run, a push is missing for a viewer if and only if it was broadcast while the viewer was listed and 16 earlier lines were still waiting for it |
| `TailFanout.BatchOnceNeverDropped` | internal/admin/tail.go:376-399 | the history batch reaches every current viewer whole and is never sent again |
| `TailFanout.MovedKeepsText` | internal/admin/sse.go:194-243 | each step of the event loop moves text from pending to the wire in order, history before any live line |
| `TailFanout.EveryRunWrites` | internal/admin/sse.go:181-243 | on every run the events written for a viewer contain exactly its lines in order, and the last status event is the last status it read |
| `TailFanout.StatusIsLastPublished` | internal/admin/tail.go:290-311 | over every run the current status is the last one published, or the opening one, always under the tailer's own level |
| `TailFanout.ViewerCatchesUp` | internal/admin/sse.go:194-243 | a subscribed viewer that still listens can, by steps of its own loop alone, put everything it is owed on the wire and read the current status |
| `SseFrames.WriteSSELine` | internal/admin/sse.go:285-307 | writes exactly the event, data and blank lines of the frame |
| `SseFrames.TwoPassesNormalise` | internal/admin/sse.go:293-298 | collapsing CRLF and then replacing CR normalises every mix of line endings |
| `SseFrames.FrameIsOneEvent` | internal/admin/sse.go:285-307 | one frame parses, by sections 9.2.5 and 9.2.6 of the HTML Living Standard, to one event with the given name and normalised payload |
| `SseFrames.StreamRoundTrips` | internal/admin/sse.go:285-307 | any concatenation of frames parses to one event per frame, in order, for every payload |
| `LogPipeline.ViewerHasTailOfFile` | internal/admin/tail.go:520-722 | without a restart, a viewer that lost nothing has, written or on its way, exactly the newest published lines of the file |
| `LogPipeline.ViewerHasSessions` | internal/admin/tail.go:236-722 | over every run, restarts included, a viewer that lost nothing has a contiguous end of everything pushed, and what came after its snapshot is all from the current session |
| `LogPipeline.SessionIsItsLines` | internal/admin/tail.go:540-580 | a first session hands on its history, at most 500 lines and only those that start in the last 8 MiB, and the lines that ended since, together the newest of all lines up to where it ends; a later one exactly the lines that end in the bytes it read |
| `LogPipeline.RestartLoses` | internal/admin/tail.go:563-580 | the lines that end between two sessions are lost, and the first line after a restart loses what was written of it before |
| `LogPipeline.RestartLosesNothingExactly` | internal/admin/tail.go:563-580 | a restart loses nothing if and only if no line ended in the gap and either none has ended since or nothing of a line was open, a carriage return before its newline aside |
| `LogPipeline.SessionsLoseNothingExactly` | internal/admin/tail.go:563-580 | the same for two consecutive sessions of one file |
| `LogPipeline.EveryRunKeepsInv` | internal/admin/tail.go:236-722 | over every run with stops and restarts, what was pushed and what is due are together what the tailer's sessions read, in order, and the viewers of the moment came after all past sessions |
| `LogPipeline.DueIsEnabled` | internal/admin/tail.go:540-722 | the tailer is never stuck with a publication: live lines come only after the history |
| `LogPipeline.BrowserReadsTailOfFile` | internal/admin/sse.go:171-307 | over every run, restarts included, parsing what the event loop wrote for such a viewer gives log events that are its lines in order, and without a restart these are the newest published lines of the file |
| `LogPipeline.BrowserReadsWire` | internal/admin/sse.go:171-307 | for any viewer, drops or not, the written events parse back to its lines with line endings normalised |
| `CaptureRing.TruncateUTF8` | internal/capture/ring.go:108-117 | for any bytes, the backward loop stops at the last rune start within the cap |
| `CaptureRing.ClipKeepsWholeCharacters` | internal/capture/ring.go:108-117 | for every encoded character sequence (section 3 of RFC 3629) the clip is the longest whole-character prefix within the cap, at most three bytes short of it |
| `CaptureRing.Ring.Record` | internal/capture/ring.go:51-66 | appends the numbered, clipped frame with its original length |
| `CaptureRing.Ring.Snapshot` | internal/capture/ring.go:69-81 | the last `size` frames in order, sequence numbers consecutive and ending at the number recorded |
| `CaptureRing.Ring.Clear` | internal/capture/ring.go:85-91 | empties the ring and restarts its numbering |
| `CaptureRing.Controller.Record` | internal/capture/controller.go:28-32 | run on its own, records exactly while enabled |
| `CaptureRing.Controller.Enable` | internal/capture/controller.go:35-38 | starts a fresh capture |
| `CaptureRing.Controller.Disable` | internal/capture/controller.go:41-41 | closes the gate and keeps the frames |
| `CaptureRing.Controller.Clear` | internal/capture/controller.go:44-44 | empties the ring and leaves the gate |
| `CaptureRing.Controller.Snapshot` | internal/capture/controller.go:60-60 | the last frames of the current capture |
| `CaptureRing.CapturedSinceReset` | internal/capture/controller.go:28-44 | after any operations that do not overlap, the captured calls are exactly those made while the gate was on since the last Clear or Enable |
| `CaptureRace.RingHoldsSurvivors` | internal/capture/controller.go:28-44 | after any interleaving of gate tests, ring writes, clears and stores the ring holds, in write order, exactly the calls that found the gate open and were written after the last clear |
| `CaptureRace.StraysExactly` | internal/capture/controller.go:28-44 | a call outlives a clear that came after its gate test if and only if the clear fell between test and write and none followed the write |
| `CaptureRace.StrayOutlivesDisableAndClear` | internal/capture/controller.go:28-44 | for every call, the run in which Disable and Clear come between its test and its write leaves it in the ring with the gate off |
| `CaptureRace.NoOrderLeavesIt` | internal/capture/controller.go:28-44 | wherever an indivisible Record falls around Disable and then Clear, the ring ends up empty |
| `CaptureRace.SerialIsAtomic` | internal/capture/controller.go:28-44 | operations that do not overlap behave as the indivisible ones |
| `RedactAssign.StructuredAssignmentValue` | internal/admin/capture_redact.go:365-400 | the bracket-and-quote loop computes the specified span, falling back to the line end on mismatch |
| `RedactAssign.AssignmentValue` | internal/admin/capture_redact.go:337-363 | quoted, structured and bare values get the specified span and replacement |
| `RedactAssign.PrintedValueIsTheSpan` | internal/admin/capture_redact.go:337-400 | a printed JSON string, array or object is spanned exactly, whatever text follows; a scalar too when the text ends or a delimiter follows |
| `RedactAssign.NextName` | internal/admin/capture_redact.go:294-325 | one turn of the scan recognises a whole name and, after a secret one, where its value starts |
| `RedactAssign.PassSeparator` | internal/admin/capture_redact.go:309-325 | an optional quote, a colon or equals sign and the spaces around them are passed, or none found; which texts these are is `RedactLayout.AssignmentExactly` |
| `RedactAssign.RedactNamedAssignments` | internal/admin/capture_redact.go:290-335 | terminates on every text; the output is the input with ordered disjoint spans replaced and every other byte kept; which spans these are is `RedactLayout.AssignmentExactly` and `RedactLayout.ValueExactly` |
| `RedactAssign.EverySecretIsReplacedExactly` | internal/admin/capture_redact.go:290-335 | the value of every secret assignment of a text is replaced if and only if no secret name begins inside the value of another |
| `RedactAssign.OwnValueIsReplacedExactly` | internal/admin/capture_redact.go:290-335 | the value of one secret assignment is replaced if and only if its name does not begin inside a replaced value |
| `RedactAssign.ValueIsHiddenExactly` | internal/admin/capture_redact.go:290-335 | nothing of a secret value is written out if and only if a replaced value its name begins in, if any, reaches as far as the value itself or the value is empty |
| `RedactAssign.AllHiddenExactly` | internal/admin/capture_redact.go:290-335 | no byte of any secret value is written out if and only if every secret name with a non-empty value that begins inside a secret value begins inside one that reaches as far as its own: a condition on the text alone |
| `RedactAssign.SecretAfterSecretIsWrittenOut` | internal/admin/capture_redact.go:290-335 | on `secret: token: abc123` the only replaced value is `token:`, and `abc123`, the value of `token`, is written out |
| `RedactAssign.OnlySecretsAreReplaced` | internal/admin/capture_redact.go:290-335 | every replaced span is the value of a secret assignment |
| `RedactAssign.PrintedSecretIsReplaced` | internal/admin/capture_redact.go:290-400 | a secret name before a printed value: that value, all of it and no more, is replaced if and only if the name does not begin inside a replaced value |
| `RedactLayout.AssignmentExactly` | internal/admin/capture_redact.go:290-325 | a secret assignment is found at a place if and only if there, where no longer name runs, stand a secret name, white space, at most one quote, white space, a colon or equals sign and white space, and its value starts right after |
| `RedactLayout.ValueExactly` | internal/admin/capture_redact.go:337-400 | the span replaced is exactly the value laid out there: from a quote to its unescaped partner, from a bracket to the matching one outside strings, else to the line's end; otherwise the characters up to a white space, `&`, `,`, `;`, `}` or `]` |
| `RedactLayout.LaidOutSecretExactly` | internal/admin/capture_redact.go:290-335 | a secret assignment and its value, given by their layout in the text: the value, all of it and no more, is replaced if and only if its name does not begin inside a replaced value; nothing of it is written out if and only if no replaced value its name begins in stops short of it, or it is empty |
| `RedactLayout.ReplacedIsLaidOut` | internal/admin/capture_redact.go:290-335 | conversely every replaced span is the value of a secret assignment so laid out |
| `RedactLayout.FirstSecretIsReplaced` | internal/admin/capture_redact.go:290-335 | for the first secret assignment laid out in a text everything before its value is kept, the value becomes the marker, in its opening quote if it has one and also in its closing one if that is there, and the scan goes on behind it |
| `RedactLayout.PlainPairIsHidden` | internal/admin/capture_redact.go:290-335 | a text that is one secret name, a colon or equals sign and a bare word, such as `password=hunter2`, becomes the name, the sign and `[REDACTED]` |
| `RedactTree.ClearPathCommutes` | internal/admin/capture_redact.go:216-269 | along a path with no secret name and within the limits, also through decoded strings, redaction commutes with walking down |
| `RedactTree.BlockedPathMeetsMarker` | internal/admin/capture_redact.go:216-269 | any other path meets the marker at its end or on the way, except one that ends in an overlong string whose whole text is a number, boolean or null |
| `RedactTree.EverySecretMeetsMarker` | internal/admin/capture_redact.go:216-269 | every secret-named member reached through objects, arrays and decodable strings is behind the marker |
| `RedactTree.SecretsLeaveNoTrace` | internal/admin/capture_redact.go:216-269 | trees that differ only behind secret names, also inside decodable strings, or below the depth limit become the same tree: the output does not depend on a secret member's value or shape |
| `RedactTree.ClearPathsKeepValues` | internal/admin/capture_redact.go:216-269 | with the same exception, numbers, booleans and nulls are preserved if and only if their path is clear, also as the whole text of a string; objects keep their keys and arrays their length |
| `RedactTree.TextsAreScrubbed` | internal/admin/capture_redact.go:249-288 | on a clear path a string that is no JSON, or is overlong and does not look like JSON, comes out with ordered disjoint spans replaced; the value of a secret assignment in it is one of them, and is hidden, exactly under the conditions for plain text |
| `RedactTree.PlainPathIsClear` | internal/admin/capture_redact.go:216-247 | over objects and arrays a path is clear if and only if it names no secret and has at most eight steps |
| `RedactTree.HasEscapedSecretAssignment` | internal/admin/capture_redact.go:169-200 | true if and only if the text holds, between two escaped quotes, a secret name without an escaped quote in it, followed by white space and a colon or an equals sign: earlier quotes cannot hide a later key |
| `RedactTree.IsAssigned` | internal/admin/capture_redact.go:182-190 | decides whether the key opened by one escaped quote is a secret one that is assigned |
| `RedactTree.RedactParams` | internal/admin/capture_redact.go:145-167 | text that does not decode is marked when an escaped secret shows and scrubbed otherwise; text that decodes becomes the encoding of the redacted tree, and the invalid marker exactly when that does not encode |

## Left out

- `encoding/json` itself: parsing and encoding are arguments. The tree results use three facts about them, stated in `RedactTree.Lawful`: a redacted decoded text that encodes decodes to the same tree, the marker is not JSON, and the text of a string, array or object starts with its quote or bracket.
- Unicode white space in `strings.TrimSpace` and multi-byte characters in scanned text: trimming is ASCII, text is bytes.
- ToolCallWrappers.ObserveToolCallWrappers: no claim about the extractor for the dispositions that report a rejected or mixed wrapper, because the source promises none.
- The uint64 request-id counter's wrap-around: ids are fresh naturals, and id parsing is bounded by 2^64.
- A request registered after the last drain: it waits until its own context ends, so the drain result covers earlier registrations.
- The permission-request arm of `handleNotification` and the denial notices it sends; denials enter the stream model as a recorded count.
- Pool, session registry, subprocess start and kill, pipes, timers and reconnects.
- The text of prompts, blocks and corrective messages, and the assembly of the chat response from chunks in `collect.go`: the engine model tracks effects and outcomes.
- EngineRun.Run: the watchdog's own cancel when the context ends, also after a panic, is not counted, because it runs on another goroutine; what is captured, the reasons for correcting a tool attempt and the refusal test are answers of the script, and panics of callbacks outside the engine are not modelled.
- Stream and prompt slot are state machines on values rather than classes, because their point is interleaving; locks and channels are part of the state.
- File rotation, truncation, stat and errors on open: the file only grows. A viewer that attaches while the old tailer is still ending would start a second one beside it; `LogPipeline.CanStep` rules that moment out, and panic recovery of the tailer is not modelled.
- CaptureRing.Controller.Record: one step in this class, so its contract is about calls that do not overlap other operations; the two-step form is `CaptureRace.dfy`.
- The capture ring's uint64 sequence number is a natural number.
- The two regular expressions and the camel-case word splitter of redaction, and the shared-redactor variants: what the patterns leave of a text is the argument `patterns`, the name test the argument `secret`.
- Admin pages, metrics, configuration, middleware, tray application and protocol adapters: field copies and handler plumbing without reasoning of their own.
