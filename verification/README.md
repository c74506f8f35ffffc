# TinyG controller engine, modelled in Dafny

This project models the engine of the TinyG serial controller (`src/tinyg-controller.js`). The engine sends G-code and JSON commands to a TinyG CNC board and tracks the machine's state. It has six parts, each modelled as a pure function over an immutable `Controller` record (`sendqueue.dfy`):

- **Credit send queue** (`SendQueue`). The board buffers four lines. `linesToSend` counts the remaining credit. `_doSend` releases queued lines only while credit remains. The control characters `!`, `%` and `~` are written bare and cost no credit. Each line sent is paired with an optional response waiter; the caller's promise becomes a numbered waiter whose settlement is recorded in a map.
- **G-code side-effect predictor** (`Predictor`). `_checkGCodeUpdateState` maps the words of a line to a deferred state change (a tagged `Effect`). For a program end it also returns follow-up commands. The change runs only if the board accepts the line.
- **FIFO response correlator** (`Receive`). Each `r` frame restores one credit and answers the oldest line in flight. The status code `f[1]` decides whether that line's waiter resolves or rejects.
- **Status-report merger and run-state table** (`StatusReport`). `_updateStatusReport` records changed values, copies the tracked variables into the machine state, decodes the `stat` code into run flags, and raises at most one `statusUpdate`.
- **Line framer** (`Framer`). The `data` handler splits reads on CR/LF, carries a partial line over to the next read, trims lines and drops blank ones.
- **`waitSync`** (`Sync`). It settles once the machine is idle or in error.

Connection set-up (`Init`) covers the `_fetchStatus` variable list, the `_initMachine` command sequence and the `_setupSerial` reset.

Foreign code becomes parameters:
- `JSON.parse` is a `FrameParser`.
- The `gcode-parser` word extraction is the `gparse` argument of `GcodePredictor`.
- Promise settlement order is given as input: the `Settlement` and `Reply` sequences, and the machine states `waitSync` sees.

Numbers are `real`s, so `28.1` and `92.3` are exact. The serial port is the `written` log. Emitted events are the `events` log.

Promise callbacks run only after the synchronous `data` handler returns. The closure of a line accepted during a read therefore waits in `pendingEffects` and runs in acknowledgement order once the whole read is handled (`Receive.FlushEffects`, `ReceiveProperties.FlushInOrder`). `ReceiveProperties.AnswerRunsClosure` follows one G20 line's answer through the `data` handler to the units it selects. A status report later in the same read is merged before that closure runs.

Where the code and its comments or documentation disagree, the model follows the code:
- At the status-request answer, `waitSync` checks "idle" before "error". Its `statusUpdate` handler checks "error" first. A machine that is idle and in error at once therefore makes `waitSync` resolve at the answer (`SyncProperties.CheckOrderDiffers`).
- The position keys are `mpox` … `mpoc`.
- `_initMachine` sends `js` before `ee`.
- A `stat` code outside 0 … 9 throws in the middle of an `r` frame. The frame then restores no credit and pops no waiter (`ReceiveProperties.FailedMergeLeavesLineInFlight`).
- `_waitingForSync` is never set to true anywhere in the engine. The model keeps it as a field, and the lemmas cover both values.

## Model

| member | source | states |
|---|---|---|
| SendQueue.Wire | src/tinyg-controller.js:106-111 | A control character reaches the port trimmed and bare. Any other line reaches it trimmed, with one trailing newline. |
| SendQueue.SendControl | src/tinyg-controller.js:109-111 | A control character costs no credit and adds nothing in flight. An attached waiter is rejected with INVALID_ARGUMENT. |
| SendQueue.SendCounted | src/tinyg-controller.js:113-130 | A counted line spends exactly one credit and appends exactly one in-flight entry, carrying its waiter and its predicted closure. Follow-up commands go to the front of the send queue. Machine state and waiters are untouched. |
| SendQueue.SendImmediate | src/tinyg-controller.js:105-133 | Both cases of `_sendImmediate`. Control characters keep the credit, the in-flight list and the queues, and reject their waiter. Other lines spend one credit and add one entry with their waiter. Queue alignment (corrected mode) and the credit balance are preserved. |
| SendQueue.UnshiftFollowUpsAsWritten | src/tinyg-controller.js:119 | As written: the follow-ups go in front of the send queue only. An aligned pair of queues becomes misaligned whenever there is a follow-up. |
| SendQueue.UnshiftFollowUps | src/tinyg-controller.js:116-120 | Corrected: each follow-up is queued with a null waiter. The old waiters stay behind them, and alignment is preserved. |
| SendQueue.PumpTurn | src/tinyg-controller.js:89-91 | One loop turn strictly decreases the loop measure (credit, then queue length) and keeps alignment and the credit balance. |
| SendQueue.Pump | src/tinyg-controller.js:88-93 | `_doSend` changes nothing while a sync is awaited. Otherwise it stops only when credit is below one or the queue is empty. It preserves alignment and the credit balance. |
| SendQueue.Enqueue | src/tinyg-controller.js:137-138 | Exactly one item is pushed onto each queue. Credit and the in-flight list are unchanged, and alignment is kept. |
| SendQueue.EnqueueWaiting | src/tinyg-controller.js:97-99 | A fresh waiter is registered as pending and pushed beside the line. Nothing is written. |
| SendQueue.EnqueueWaitingKeepsBook | src/tinyg-controller.js:97-99 | With numbers handed out once, the fresh waiter's number is carried by no queued or in-flight line, and numbers stay unique and below the next one. |
| SendQueue.EnqueueRetires | src/tinyg-controller.js:137-138 | Queueing a line for `send` queues no waiter. |
| SendQueue.Construct | src/tinyg-controller.js:20-33 | A new controller has empty queues, no credit, nothing in flight, no sync awaited, an empty report and planner queue, and no waiter handed out. |
| SendQueue.PumpTurnRetires | src/tinyg-controller.js:89-91 | One loop turn moves the front waiter into flight, or rejects it for a control character. It queues no waiter and registers only the rejected one. |
| SendQueue.PumpRetires | src/tinyg-controller.js:88-93 | The same over the whole `_doSend` loop. |
| SendQueue.PumpKeepsWaiterBook | src/tinyg-controller.js:88-93 | `_doSend` keeps waiter numbers unique and below the next number. |
| SendQueue.OldestRetires | src/tinyg-controller.js:329-338 | Answering the oldest line in flight only removes its waiter, and registers only that waiter. |
| SendQueue.Send | src/tinyg-controller.js:136-140 | `send` keeps the queues aligned and the credit balanced. It queues no waiter and registers none, so waiter numbers stay unique. |
| SendQueue.SendWait | src/tinyg-controller.js:96-102 | `sendWait` returns the next waiter number. With numbers handed out once, that number is not registered yet and no queued or in-flight line carries it, and numbers stay unique afterwards. The queues stay aligned and the credit balanced. |
| SendQueue.GcodePredictorOk | src/tinyg-controller.js:114 | Every closure the engine's predictor attaches can run on a well-formed machine state. |
| SendQueue.PumpKeepsEvents | src/tinyg-controller.js:132 | Pumping keeps the earlier writes and events as prefixes. Every appended event is a `sent` event, one per line written. |
| SendQueueProperties.PumpIsFifo | src/tinyg-controller.js:88-93 | Without follow-ups, `_doSend` writes exactly a prefix of the queue, in order, and leaves exactly the rest queued. |
| SendQueueProperties.SendIsFifo | src/tinyg-controller.js:136-140 | Without follow-ups, `send(line)` writes a prefix of the old queue with `line` at its back, in order, and the rest stays queued. |
| SendQueueProperties.SendWaitIsFifo | src/tinyg-controller.js:96-102 | The same for `sendWait(line)`. |
| SendQueueProperties.PumpSendsUpToCredit | src/tinyg-controller.js:89-91 | With only counted lines, `_doSend` sends min(credit, queue length) lines, spending that much credit and adding that many in-flight entries. |
| SendQueueProperties.PumpNeverOverdraws | src/tinyg-controller.js:89 | Credit never goes negative. |
| SendQueueProperties.AtMostFourInFlight | src/tinyg-controller.js:129-130 | With the credit balanced, at most four lines are ever in flight. |
| SendQueueProperties.SendWhileSyncing | src/tinyg-controller.js:88 | While a sync is awaited, `send` and `sendWait` only queue: nothing is written, and the new waiter is pending at the back. |
| SendQueueProperties.SendWaitWritesWhenFree | src/tinyg-controller.js:96-102 | With free credit and an empty queue, `sendWait` writes its line at once. The line goes in flight carrying the new, pending waiter. |
| SendQueueProperties.ScenarioOutcome | src/tinyg-controller.js:113-130 | After a program end, the follow-up sent next carries whatever waiter the queueing mode left at the front of the waiter queue. |
| SendQueueProperties.MisalignedWaiterCounterexample | src/tinyg-controller.js:119 | As written, the waiter queued for the line after a program end is attached to the `{"coor":null}` follow-up. |
| SendQueueProperties.AlignedWaiterScenario | src/tinyg-controller.js:25 | Corrected, that waiter stays with its own line, and the follow-up carries none. |
| SendQueueProperties.M2ScenarioApplies | src/tinyg-controller.js:243-254 | With a parser that reads `M2`, the scenario's premises hold: `M2` is a program end and its first follow-up is inert. |
| Predictor.AxisValues | src/tinyg-controller.js:168-178 | For each axis, the value of its word if and only if the line carries that word. |
| Predictor.BranchEffect | src/tinyg-controller.js:168-267 | Every closure a branch builds can run. Only the coolant branch builds one that raises no `statusUpdate`. Exactly G10 L2, G28.1/G30.1, G28.2/G28.3, G92, G92.1 and program end touch the axis arrays. |
| Predictor.Winner | src/tinyg-controller.js:168-267 | The branch whose closure survives matches the line, and no later branch matches. There is none exactly when no branch matches. |
| Predictor.Predict | src/tinyg-controller.js:146-271 | Corrected predictor: null exactly when `gparse` fails or no branch matches. Otherwise it gives a closure, and follow-ups exactly for a program end. |
| Predictor.PredictAsWritten | src/tinyg-controller.js:261 | As written: throws a ReferenceError exactly when the line parses and its M word is neither 7 nor 8. |
| Predictor.WriteAxes | src/tinyg-controller.js:213-223 | Each axis the line names takes its value; every other axis keeps its own. |
| Predictor.WriteCoordOffsets | src/tinyg-controller.js:168-178 | G10 L2 writes only row P−1 (created when missing). Every other row is kept, and the named axes get their values. |
| Predictor.MarkAxesHomed | src/tinyg-controller.js:192-200 | An axis is homed afterwards if and only if the line names it or it was homed before. |
| Predictor.ApplyToAxes | src/tinyg-controller.js:168-267 | Per closure, which axis arrays change and how. G10 L2 writes its row as `WriteCoordOffsets` says. G28.1 and G30.1 store the machine position. G28.2/G28.3 marks the named axes homed. G92 writes the named offsets. G92.1 and program end zero the offset. No closure moves the machine position, and every other array is kept. |
| Predictor.ApplyToScalars | src/tinyg-controller.js:179-267 | Per closure, the one scalar field it assigns (units, distance mode, coordinate system, spindle, coolant, offset flag). Program end resets all of them. |
| Predictor.ApplyEffect | src/tinyg-controller.js:169-266 | Running a closure keeps the state well formed and never touches the status report or run flags. It raises `statusUpdate` unless it is the coolant closure. |
| PredictorProperties.UnitsMapping | src/tinyg-controller.js:179-184 | G20 selects inches and G21 millimetres, with no follow-ups. |
| PredictorProperties.DistanceMapping | src/tinyg-controller.js:207-212 | G90 makes distances absolute and G91 incremental. |
| PredictorProperties.CoordSysMapping | src/tinyg-controller.js:201-206 | An integral G54 … G59 selects system G−54. G59.1 matches nothing. |
| PredictorProperties.ProgramEndMapping | src/tinyg-controller.js:243-254 | M2 and M30 always yield the program-end closure and the `{"coor":null}`, `{"unit":null}` follow-ups, whatever G word is on the line. |
| PredictorProperties.FollowUpsOnlyAtProgramEnd | src/tinyg-controller.js:253 | Follow-up commands come only with a program end. |
| PredictorProperties.LastBranchWins | src/tinyg-controller.js:255-260 | With G20 and M3 on one line, the later spindle branch's closure is kept. |
| PredictorProperties.PredictedEffectsApplicable | src/tinyg-controller.js:269-270 | Every closure returned can run on a well-formed state. |
| PredictorProperties.CoolantMapping | src/tinyg-controller.js:261-267 | Corrected M7, M8 and M9 set mist, flood and off, with no `statusUpdate`. |
| PredictorProperties.AsWrittenAgreesWhenItReturns | src/tinyg-controller.js:261 | Whenever the predictor as written returns, it agrees with the corrected one. |
| PredictorProperties.WordmaoCounterexample | src/tinyg-controller.js:261 | A plain `G20` line makes the predictor as written throw. The corrected one selects inches. |
| Receive.StatusCode | src/tinyg-controller.js:327 | A missing or falsy `f` gives 0. Otherwise the code is element 1 of `f`. |
| Receive.Correlate | src/tinyg-controller.js:327-338 | One credit back. The oldest in-flight line is popped and its waiter resolved (code exactly 0) or rejected with the code. Its closure is kept only on acceptance. Nothing else changes. |
| Receive.CorrelateRetires | src/tinyg-controller.js:329-338 | An answer queues no waiter and registers only the one it settles, so waiter numbers stay unique. |
| Receive.MergeFrame | src/tinyg-controller.js:325-341 | The merge's state and error are adopted, and `statusUpdate` is emitted once exactly when the merge announces a change. Nothing else changes. |
| Receive.AnswerFrame | src/tinyg-controller.js:327-339 | After an answer the queue is pumped until credit or queue runs out. Alignment and the credit balance (for a solicited answer) survive. |
| Receive.MergeAndAnswer | src/tinyg-controller.js:298-342 | A failed merge or a frame without `r` answers nothing. Otherwise the answer is correlated and the queue pumped. |
| Receive.HandleFrame | src/tinyg-controller.js:298-342 | A primitive `r` throws a TypeError and changes nothing. The only errors are TypeError and an unknown `stat`. |
| Receive.HandleLine | src/tinyg-controller.js:294-343 | Every line is first announced as `received`. PARSE_ERROR is raised exactly when the line does not start with `{`. A syntax error is raised exactly when JSON parsing fails. Neither error changes the state. |
| Receive.HandleLines | src/tinyg-controller.js:552-561 | Handling lines in turn keeps validity and alignment and only appends events, at least one per line. |
| Receive.LineStep | src/tinyg-controller.js:555-559 | A line is announced first. An error it throws is emitted, not propagated. |
| Receive.FlushEffects | src/tinyg-controller.js:123-124 | The accepted closures run and the list empties. A single closure leaves exactly the machine state it computes. One `statusUpdate` is emitted per closure except a coolant change. Nothing but the machine state and the events changes. |
| Receive.ReceiveData | src/tinyg-controller.js:540-562 | One read: the buffer carried over is the framer's remainder, no closure is left pending, and alignment is kept. |
| ReceiveProperties.AnswersPopInOrder | src/tinyg-controller.js:329-330 | n answers return n credits and pop exactly the n oldest in-flight lines. |
| ReceiveProperties.AnswersKeepAcceptedClosures | src/tinyg-controller.js:123-124 | Exactly the closures of accepted lines are kept, in sending order. |
| ReceiveProperties.AnswersSettleWaiters | src/tinyg-controller.js:330-338 | The i-th answer settles the waiter of the i-th oldest line, and no other waiter changes. |
| ReceiveProperties.AnswersSettleInOrder | src/tinyg-controller.js:329-338 | The FIFO correlation, all at once: credits, pops, kept closures and settled waiters. |
| ReceiveProperties.AnswerConservesCredit | src/tinyg-controller.js:129-130 | An answer to a line in flight keeps credit plus in-flight equal to four. |
| ReceiveProperties.UnsolicitedAnswerOverCredits | src/tinyg-controller.js:329 | An `r` frame with nothing in flight still adds a credit, so the credit exceeds four and the balance breaks. |
| ReceiveProperties.AnswerReleasesOneLine | src/tinyg-controller.js:327-339 | With all credit spent, a clean answer sends exactly the next queued line. |
| ReceiveProperties.RejectedLineDropsClosure | src/tinyg-controller.js:333-337 | A rejected line's closure never runs, and its waiter is rejected with the status code. |
| ReceiveProperties.FailedMergeLeavesLineInFlight | src/tinyg-controller.js:325 | An unknown `stat` in an `r` frame throws before correlation: no credit, no pop, no settlement. |
| ReceiveProperties.ZeroStatusAccepts | src/tinyg-controller.js:333-334 | Footer `[1,0,8]` resolves the waiter with the frame. |
| ReceiveProperties.NonzeroStatusRejects | src/tinyg-controller.js:335-336 | Footer `[1,20,8]` rejects with code 20. |
| ReceiveProperties.MissingFooterAccepts | src/tinyg-controller.js:327 | Without `f` the status code is 0, so the line is accepted. |
| ReceiveProperties.TextualZeroRejects | src/tinyg-controller.js:333 | The string `"0"` is not strictly equal to 0, so the line is rejected. |
| ReceiveProperties.StatusVarsByPrecedence | src/tinyg-controller.js:298-323 | Each status variable takes the value of the highest-precedence source that has it: `r.qr`, `r.n`, `r.sr`, `r` echoes, top-level echoes, `qr`, `sr`. No other keys appear. |
| ReceiveProperties.EchoedByPrecedence | src/tinyg-controller.js:299-310 | The echoed part of `statusVars`: a key echoed inside `r` beats one echoed at the top level, which beats the top-level `qr`, then the top-level `sr`. |
| ReceiveProperties.ReplyByPrecedence | src/tinyg-controller.js:311-323 | The reply part: `r.qr` beats `r.n`, which beats `r.sr`. |
| ReceiveProperties.BookedWaitersDistinct | src/tinyg-controller.js:96-102 | With waiter numbers handed out once, no two lines in flight carry the same waiter. This gives the distinctness the settlement lemmas assume. |
| ReceiveProperties.FlushInOrder | src/tinyg-controller.js:123-124 | Running closures `es1 + es2` is running `es1`, then `es2` on the state `es1` left. |
| ReceiveProperties.AnsweredFrame | src/tinyg-controller.js:325-339 | An `r` frame whose status merges cleanly keeps the oldest line's closure exactly when the line was accepted. |
| ReceiveProperties.AnsweredLineTurn | src/tinyg-controller.js:294-343 | The same for the handler's turn on that frame's line. |
| ReceiveProperties.AnswerRunsClosure | src/tinyg-controller.js:540-562 | A read answering a line in flight whose closure selects inches (G20) leaves the machine in inches when the code is 0, and leaves the units alone otherwise. |
| ReceiveProperties.G20AnswerSelectsInches | src/tinyg-controller.js:327-334 | The answer `{"r":{},"f":[1,0,8]}` to the G20 line in flight selects inches. |
| ReceiveProperties.EveryLineHandled | src/tinyg-controller.js:552-561 | Every line is announced, in order, whatever earlier lines did. |
| ReceiveProperties.BadLineDoesNotStopNext | src/tinyg-controller.js:552-561 | A non-JSON line raises PARSE_ERROR, and the next line is still handled. |
| StatusReport.StatFlags | src/tinyg-controller.js:389-455 | The run-state table: the flags for each code 0 … 9. Code 2 sets the error and defaults `errorData` to `alarm` only when unset. Codes 6, 7 and 9 leave `programRunning` alone. |
| StatusReport.Record | src/tinyg-controller.js:349-354 | Every reported value is recorded. Other keys keep theirs. |
| StatusReport.PatchAxes | src/tinyg-controller.js:359-362 | Each axis takes its reported `prefix`+axis value, or keeps its own. |
| StatusReport.PatchHomed | src/tinyg-controller.js:363 | A reported `hom`+axis is coerced to a boolean. Otherwise the flag is kept. |
| StatusReport.PatchOffsetRow | src/tinyg-controller.js:364-368 | Per axis of row `csys`: the reported `g5(4+csys)`+axis value, else the row's old entry, else a hole when the row is new. |
| StatusReport.MergeAxes | src/tinyg-controller.js:357-369 | Per axis, `mpo`, `g92`, `g28` and `g30` take the reported value or keep the old one. `hom` is coerced to a boolean. The coordinate-system rows are patched. |
| StatusReport.DecodeStat | src/tinyg-controller.js:389-453 | A recognised code is exactly the label of the run state it decodes to, and every label decodes to its own state. |
| StatusReport.PatchCoordSysOffsets | src/tinyg-controller.js:364-368 | Rows G54 … G59 each exist afterwards and are patched as `PatchOffsetRow` says. Every other row is kept. |
| StatusReport.ReportedCoordSys | src/tinyg-controller.js:371-373 | `coor` 0 means none. Any other value `v` selects `v−1`. Absent, it is unchanged. |
| StatusReport.ReportedUnits | src/tinyg-controller.js:374-376 | A reported `unit` selects millimetres exactly when truthy, otherwise inches. |
| StatusReport.ReportedValue | src/tinyg-controller.js:377-388 | `feed`, `n` and `qr` are copied when reported and kept otherwise. |
| StatusReport.ReportedFlag | src/tinyg-controller.js:380-382 | `dist` is coerced to a boolean when reported. |
| StatusReport.MergeFields | src/tinyg-controller.js:357-388 | The axis arrays are merged. `coor`, `unit`, `feed`, `dist`, `n` and `qr` each take their reported value, converted, or keep the old one. Flags, report, spindle, coolant and planner size stay. |
| StatusReport.Merge | src/tinyg-controller.js:346-459 | Fails exactly on an unknown `stat`. Notifies exactly when asked to and some value differs strictly. Every reported value ends up recorded, and the flags follow the table. The rest of the state is the tracked-variable copy of the old one. |
| StatusReportProperties.DecodeStatAcceptsZeroToNine | src/tinyg-controller.js:390-453 | The switch accepts exactly the integers 0 … 9. |
| StatusReportProperties.UnknownStatRejected | src/tinyg-controller.js:452-458 | Any other code throws, keeps the flags and raises no notification. |
| StatusReportProperties.RecordIdempotent | src/tinyg-controller.js:349-354 | Recording the same primitive values twice changes nothing. |
| StatusReportProperties.MergeAxesIdempotent | src/tinyg-controller.js:357-369 | Copying the same axis values twice is copying them once. |
| StatusReportProperties.MergeFieldsIdempotent | src/tinyg-controller.js:357-388 | Copying the same tracked variables twice is copying them once. |
| StatusReportProperties.StatFlagsIdempotent | src/tinyg-controller.js:389-455 | Re-applying a status code changes no flag. |
| StatusReportProperties.MergeIdempotent | src/tinyg-controller.js:346-459 | Merging the same primitive report again changes nothing and raises no `statusUpdate`. |
| StatusReportProperties.PositionAndRunFragment | src/tinyg-controller.js:427-433 | `{mpox:1, stat:5}` moves axis x to 1, sets ready, moving and running, clears paused and error, and notifies. |
| Sync.Listen | src/tinyg-controller.js:281-290 | The handler stays registered exactly while it waits. It waits exactly when no update so far is in error or idle. |
| Sync.WaitSync | src/tinyg-controller.js:273-292 | A rejected status request rejects. At the answer, idle resolves, then error rejects, else the handler listens. Only a listening handler stays registered. |
| SyncProperties.ListenResolvesIff | src/tinyg-controller.js:285-287 | The handler resolves if and only if the first decisive update is idle and not in error. |
| SyncProperties.ListenRejectsIff | src/tinyg-controller.js:282-284 | The handler rejects with a state's error data if and only if that state is the first decisive one and is in error. |
| SyncProperties.WaitSyncResolvesOnlyWhenIdle | src/tinyg-controller.js:277-287 | `waitSync` resolves only after its request was answered and at some observed state that was idle. |
| SyncProperties.CheckOrderDiffers | src/tinyg-controller.js:277-284 | An idle machine in error satisfies the check at the answer but is rejected by the handler. |
| SyncProperties.BusyMachineKeepsWaiting | src/tinyg-controller.js:279-290 | If no state is idle or in error, `waitSync` keeps waiting with its handler registered. |
| Init.AxisVars | src/tinyg-controller.js:467-470 | Eleven variables per axis. |
| Init.FetchVars | src/tinyg-controller.js:463-472 | The seven scalar variables first, then eleven per axis. |
| Init.Collect | src/tinyg-controller.js:477-483 | The assembled report has exactly the requested variables. |
| Init.FirstUnanswered | src/tinyg-controller.js:487-490 | The first request not answered successfully: all before it were answered. |
| Init.FetchStatus | src/tinyg-controller.js:461-491 | Succeeds exactly when every request is answered. It then merges the collected report. It fails exactly on a failed request with no pending one before it, with that failure. |
| Init.ReportInterval | src/tinyg-controller.js:504 | A truthy configured interval is used; otherwise 250. |
| Init.InitCommands | src/tinyg-controller.js:494-511 | The six commands in order: `js`, `ee`, `jv`, `sv`, `si`, then `sr` enabling exactly the report fields. |
| Init.FinishInit | src/tinyg-controller.js:515 | The planner size becomes the free count, so the idle test reduces to "not moving". |
| Init.FirstUnaccepted | src/tinyg-controller.js:494-511 | The first command whose answer is not a success. |
| Init.InitMachine | src/tinyg-controller.js:493-516 | The first rejected command rejects the set-up with its error, and the first pending one leaves it waiting there. Completion happens exactly when all commands and the fetch succeed, and it then sets the planner size to the free count. |
| Init.SetupSerial | src/tinyg-controller.js:532-538 | Queues empty, nothing in flight, four credits, no sync awaited, an empty report and buffer. Settled waiters and the write log are kept. Queued waiters are dropped, so waiter numbers stay unique. |
| InitProperties.AxesVarsMembers | src/tinyg-controller.js:465-471 | A name is fetched for the axes if and only if it is one of the eleven prefixes plus an axis letter. |
| InitProperties.FetchVarsAreTracked | src/tinyg-controller.js:463-472 | The fetch asks for exactly the variables the status merger reads. |
| InitProperties.UntrackedKeyIgnored | src/tinyg-controller.js:355-455 | The merger reads nothing the fetch does not ask for. |
| InitProperties.ReportFieldsAreFetched | src/tinyg-controller.js:507-508 | Every automatic-report field is fetched. |
| InitProperties.IntervalDefaults | src/tinyg-controller.js:504 | Unset or 0 becomes 250. 100 stays 100. |
| InitProperties.CollectLastWrite | src/tinyg-controller.js:478-479 | A variable's collected value is its last answer's `r[name]`. |
| InitProperties.FetchRefreshesPlanner | src/tinyg-controller.js:512-515 | A full set-up fetch raises no notification and takes the planner's free count from the `qr` answer. |
| InitProperties.ResetAdmitsFourLines | src/tinyg-controller.js:532-538 | After the reset, the first four queued lines are written in order and the rest wait. |
| Framer.Emit | src/tinyg-controller.js:553-554 | A fragment yields its trimmed text if and only if that is not blank. |
| Framer.Clean | src/tinyg-controller.js:552-554 | No handled line is empty. |
| Framer.FrameChunk | src/tinyg-controller.js:540-562 | The carried-over buffer is well formed, and no delivered line is empty. |
| Framer.FrameAll | src/tinyg-controller.js:540-562 | No delivered line is empty. After at least one read the carried-over buffer is well formed. With no reads nothing is delivered. |
| Framer.OneLineRead | src/tinyg-controller.js:540-562 | A read of one line and its newline, with nothing carried over, delivers that line trimmed and carries nothing over. |
| Framer.ReferenceIsSplit | src/tinyg-controller.js:542 | A character-at-a-time framer agrees with the split-based description. |
| Framer.FrameChunkIsReference | src/tinyg-controller.js:540-562 | One read delivers exactly the reference framer's lines. |
| Framer.ReferenceConcat | src/tinyg-controller.js:541 | Reading `a` then `b` is reading `a + b`. |
| Framer.ReferenceRespectsLeadingSpace | src/tinyg-controller.js:543-549 | A carried-over line matters only after its leading white space. |
| Framer.FrameAllIsReference | src/tinyg-controller.js:540-562 | Over any sequence of reads, the same lines as one read of everything. |
| Framer.ChunkingIsInvisible | src/tinyg-controller.js:540-562 | Two ways of cutting the same byte stream into reads deliver the same lines. |
| Text.TrimStart | src/tinyg-controller.js:106 | Removes exactly a maximal white-space prefix. |
| Text.TrimEnd | src/tinyg-controller.js:106 | Removes exactly a maximal white-space suffix. |
| Text.TrimEmptyIffAllSpace | src/tinyg-controller.js:553-554 | A line trims to nothing if and only if it is all white space. |
| Text.Split | src/tinyg-controller.js:542 | Fragments contain no CR/LF. A leading break yields an empty first fragment. A break-free string is one fragment. |
| Text.SplitAfterPlainPrefix | src/tinyg-controller.js:541-542 | Break-free text in front is glued onto the first fragment. |

## Left out

- Serial-port opening, option merging, and the `error` and `close` handlers (`initConnection`, lines 519-530) are I/O. The port is modelled as the `written` log.
- `pasync` waiters and promises are left out. Waiters are numbered `Pending`, `Resolved` or `Rejected` entries. The continuations that callers attach are not modelled.
- The EventEmitter is left out. Emitted events are appended to `events`, and listeners are not modelled except `waitSync`'s own. An `'error'` listener is assumed to be registered. Without one, Node's `emit('error')` throws, and the throw inside the catch at line 558 would end the rest of the read. `Receive.LineStep`, `ReceiveProperties.EveryLineHandled` and `ReceiveProperties.BadLineDoesNotStopNext` rely on the read going on.
- UTF-8 decoding of each read (`buf.toString('utf8')`) is left out. Reads arrive as strings.
- `JSON.parse` and the `gcode-parser` library are foreign code. They enter as the `FrameParser` and `gparse` parameters.
- `JSON.stringify` of object commands is left out. Commands such as `{"coor":null}` are queued as their text.
- The `Controller` base class (src/controller.js) is not part of this model. Its fields (`mpos`, `offset`, `homed`, `coordSysOffsets`, `storedPositions`, `units`, …) appear in `Machine` with one slot per axis, and lemmas hold for any well-formed state.
- The `sent` event's argument is recorded, but no listener is modelled.
- `_fetchStatus` sends all its requests at once. The model assumes their answers settle in request order (answers correlate first in, first out).
- The engine's send side uses the corrected predictor (`Predict`) and the corrected follow-up queueing (`AlignedMode`). The as-written forms are modelled alongside, for the findings.
- A throw from the predictor as written would propagate out of `_sendImmediate` and `_doSend` after the line was shifted off the queue. The model records the throw (`PredictAsWritten`) but does not thread it through the send path, which uses the corrected predictor.
- `Json.Props`: `for…in` over arrays and strings, and `in` on arrays, are approximated. Only object properties are enumerated; an array or a string enumerates nothing, so its indices are not seen.
- Floating point: G-code and report numbers are exact reals.
- `Json.ToNumber`: strings and arrays convert to NaN. JavaScript would convert `"3" - 1` and `[3] - 1` to 2; the model does not, so a `coor` reported as a numeric string selects NaN here.

## Findings

| source | as written | input that shows it | evidently intended | confidence | as-written member | corrected member |
|---|---|---|---|---|---|---|
| src/tinyg-controller.js:261 | The M9 test reads `wordmao.M`, an undeclared name, so every parsed line whose M word is not 7 or 8 throws a ReferenceError | the line `G20` | `wordmap.M === 9`: M9 turns coolant off, and other lines are unaffected | high; not executed | Predictor.PredictAsWritten, PredictorProperties.WordmaoCounterexample | Predictor.Predict, PredictorProperties.CoolantMapping |
| src/tinyg-controller.js:119 | Follow-ups are unshifted onto `sendQueue` without matching `responseWaiterQueue` entries, breaking the index alignment promised at line 25. The defect is latent as written: every `M2` line first throws at line 261 | with line 261 corrected, and no credit free: `send("M2")` and `sendWait(line)` are queued, then two answers arrive. The waiter of `line` is attached to `{"coor":null}`. With two credits free at once, it lands on `{"unit":null}` instead. | queue one null waiter per follow-up so each waiter stays with its line | high once line 261 is corrected, latent before; not executed | SendQueue.UnshiftFollowUpsAsWritten, SendQueueProperties.MisalignedWaiterCounterexample | SendQueue.UnshiftFollowUps, SendQueueProperties.AlignedWaiterScenario |
