# Verified models of a coding agent's terminal and process core

A Dafny model of the parts of the repository in which a mistake would show only after a particular history: the
inline terminal renderer, the fullscreen viewport, overlay selection, the ANSI text engine, terminal input, the
agent loop with its event-sourced state, and the capture of a shell's output with the threads and handles around it.
`dafny verify dfyconfig.toml` checks everything.

| file | models |
|---|---|
| `Basics.dfy` | shared vocabulary: sequences, occurrences |
| `Terminal.dfy`, `Frames.dfy`, `InlineSpec.dfy`, `InlineRenderer.dfy` | the inline differential renderer against a terminal with a scrollback |
| `SelectionRegions.dfy` | selectable columns under a stack of overlays |
| `Fullscreen.dfy` | the fullscreen viewport and its row by row repaint |
| `AgentEvents.dfy`, `AgentShape.dfy`, `AgentLoop.dfy`, `Agent.dfy`, `PendingMessages.dfy` | the agent loop, the shape of its events, the state reduced from them, the message queues |
| `OutputCapture.dfy`, `OutputFence.dfy`, `Completion.dfy`, `KillReap.dfy`, `JobProcess.dfy` | bounded capture, the completion marker, the reporter and watcher threads, killing against reaping, the lifetime of process handles |
| `AnsiScanner.dfy`, `AnsiTracker.dfy`, `AnsiCodes.dfy`, `AnsiWrap.dfy` | escape sequences (ECMA-48, sections 5.4, 5.6 and 8.3.117), what they mean, styles, wrapping |
| `InputTokens.dfy`, `StdinBuffer.dfy`, `InputSequences.dfy` | splitting terminal input, bracketed paste, which sequences there are |

Objects that the program updates in place are classes whose methods are proved against functions on values; what
the program promises is then proved about those functions, over every run. Protocols between threads are state
machines with one step per critical section, over every schedule. Whatever the program cannot control (terminal
sizes, model streams, tools, hooks, the abort signal, the operating system) is an arbitrary answer at each step.

## What the proofs found

- The inline renderer is right after a frame if and only if the frame is paintable (`InlineSpec.Paintable`). Two
  families are not: a frame that is edited down to no lines leaves its last line on screen, and a cursor marker that
  is still looked for above the first visible line after a shrink makes a relative move that the terminal cuts short.
  Both are reached from a clean start (`EmptyFrameIsNotPaintable`, `MarkerAboveScreenIsNotPaintable`). A forced frame,
  a resize to another size or a redraw on shrinking repairs the screen (`RepaintRepairs`).
- Three branches of the differential path cannot be taken as long as the screen agrees with the bookkeeping: the
  catch-up scroll before the first changed line, the repaint for more removed lines than the screen has rows, and
  the move down to the end of the old content after an edit.
- Terminal input means the same for every chunking if and only if no escape sequence reaches into a paste marker.
  A marker right behind ESC O does not stand free. A paste that has begun is delivered the same for every chunking.
  An unfinished sequence in front of a marker is thrown away; over any chunking that is all that is ever lost.
- A message can be drained from a queue and reach neither the transcript nor the queue again, in two ways, and both
  need the abort signal. Raised before the poll that drained it has answered, it makes the poll lose its answer
  (`AgentLoop.Run.LoseSteering`); raised after that and before the next turn, it makes the loop throw with the message
  left to inject (`AgentLoop.Run.LeaveSteering`). Only what was polled last is affected, and no turn follows.
- Without the lock that only Windows takes, a kill can signal a process group whose id has been freed: from the end of
  the wait for the shell until the flag is set, and after that if the call had looked at the flag before.
- A wrapped line is wider than allowed if and only if some grapheme is.
- The second test of a mouse report can never succeed after the first has failed.
- A status delivered on the status channel wins over the exit code in every schedule, also when the shell dies while
  its output is being drained.

## Model

| member | source | states |
|---|---|---|
| `InlineRenderer.Tui.PlaySession` | packages/tui/src/tui.ts:1535-1991 | every session of renders, resizes, forced and viewport-preserving requests and visits to the alternate screen, up to the first edit of a frame that is not on screen: after each render the bookkeeping is that of the specification, and if and only if the frame was paintable the terminal shows it, the real cursor is `hardwareCursorRow - previousViewportTop` and no relative move was cut short; the cursor was sent to the marker |
| `InlineRenderer.Tui.PlayPlainSession` | packages/tui/src/tui.ts:1535-1991 | on the terminal: with redraw-on-shrink on and no overlays, a session that ends in a frame leaves exactly the last lines of it that fit; lines without marker, tab or AM vowel are there with their own text and the reset behind it |
| `InlineRenderer.Tui.Perform` | packages/tui/src/tui.ts:632-733 | one step of such a session, whatever the terminal leaves after a resize, moves the display as `InlineSpec.After` says, with screen and memory together as far as it says they agree |
| `InlineRenderer.Tui.RenderInline` | packages/tui/src/tui.ts:1535-1708 | one inline frame, on a screen that shows the last one or is going to be cleared: the bookkeeping is `NextFrame`; screen and bookkeeping agree if and only if the request was paintable; the scrollback grew by exactly what had to scroll off; the cursor was sent to the marker |
| `InlineRenderer.Tui.RenderPrepared` | packages/tui/src/tui.ts:1540-1708 | the choice between first render, full repaint, shrink repaint and editing, with the outcome of each |
| `InlineRenderer.Tui.RenderDifference` | packages/tui/src/tui.ts:1709-1952 | a frame that differs by its lines alone, whether it is left as is, repainted, cut or edited |
| `InlineRenderer.Tui.RenderRemoval` | packages/tui/src/tui.ts:1745-1807 | lines were only removed at the end: the deletion path or a full repaint gives the next frame |
| `InlineRenderer.Tui.RenderVisibleChange` | packages/tui/src/tui.ts:1808-1952 | a change at or below the first visible row is edited in place, one above it is repainted |
| `InlineRenderer.Tui.DeleteTail` | packages/tui/src/tui.ts:1746-1806 | clearing the removed rows leaves the new frame on screen, with the cursor on its last line; wrong exactly for a frame that becomes empty |
| `InlineRenderer.Tui.RenderChanged` | packages/tui/src/tui.ts:1816-1952 | the differential path scrolls by exactly the growth of the viewport top and leaves every row right |
| `InlineRenderer.Tui.Redraw` | packages/tui/src/tui.ts:1594-1670 | clearing and writing the window, or everything on the first frame, shows the last lines that fit |
| `InlineRenderer.Tui.RepaintViewport` | packages/tui/src/tui.ts:1575-1635 | the repaint that keeps the scrollback rewrites only the rows of the screen |
| `InlineRenderer.Tui.FullRender` | packages/tui/src/tui.ts:1575-1670 | both kinds of full repaint show the same frame |
| `InlineRenderer.Tui.PositionHardwareCursor` | packages/tui/src/tui.ts:1960-1991 | the cursor reaches the marker line exactly when that line is on screen, otherwise the move is cut short; the column is that of the marker either way |
| `InlineRenderer.Tui.DoRender` | packages/tui/src/tui.ts:1535-1708 | inline rendering is suspended on the alternate screen and otherwise follows the specification, also for a frame that is not paintable |
| `InlineRenderer.Tui.RequestRender` | packages/tui/src/tui.ts:632-668 | a forced request forgets width, cursor and high-water mark so that the next frame repaints everything |
| `InlineRenderer.Tui.EnterFullscreen` | packages/tui/src/tui.ts:681-706 | the inline state is put aside unchanged |
| `InlineRenderer.Tui.ExitFullscreen` | packages/tui/src/tui.ts:712-733 | the inline display resumes from the state it was left in and is brought up to date |
| `InlineRenderer.FindChanges` | packages/tui/src/tui.ts:1711-1735 | the first changed line is the length of the common prefix, and no line differs after the last changed one |
| `InlineRenderer.DiffBuffer` | packages/tui/src/tui.ts:1816-1900 | the operations of the differential path turn the old screen into the new one |
| `InlineRenderer.CatchUp` | packages/tui/src/tui.ts:1821-1835 | when the first line to write lies below the screen, the screen is scrolled by exactly as many lines as put it on the bottom row, the lines that leave it going to the scrollback in order; otherwise nothing |
| `InlineRenderer.RemovedLinesFit` | packages/tui/src/tui.ts:1762-1768 | while screen and bookkeeping agree, more removed lines than the screen has rows are never left for the deletion path to refuse |
| `InlineSpec.SessionShowsTail` | packages/tui/src/tui.ts:681-733 | with redraw-on-shrink on and no overlays, every frame of every session shows exactly the last lines that fit |
| `InlineSpec.PlainLinesShown` | packages/tui/src/tui.ts:1343-1354 | a screen that shows a frame of plain lines holds in each row the text of its line and the reset, and nothing below the last line |
| `InlineSpec.RepaintRepairs` | packages/tui/src/tui.ts:1575-1700 | whatever was on screen, a frame that is written anew agrees with it afterwards: a forced one, one after a resize to another size, or a redraw on shrinking |
| `InlineSpec.ResizeRepaints` | packages/tui/src/tui.ts:1575-1590 | after a resize to another number of columns or rows the next frame is a repaint |
| `InlineSpec.ShrinkRedraws` | packages/tui/src/tui.ts:1693-1708 | with redraw-on-shrink, a frame without overlays is written anew if any frame since the last repaint had more lines; a repaint starts the count again |
| `InlineSpec.EditShowsWhatRedrawShows` | packages/tui/src/tui.ts:1575-1708 | after any such session, editing the old frame and repainting everything show the same lines in the same rows |
| `InlineSpec.StreamingKeepsTranscript` | packages/tui/src/tui.ts:1816-1952 | while a transcript streams in, the scrollback followed by the screen is the whole transcript, nothing lost or written twice |
| `InlineSpec.EmptyFrameIsNotPaintable` | packages/tui/src/tui.ts:1746-1777 | after a first frame of any lines, an empty frame is painted right if and only if there were no lines or more than fit; with redraw-on-shrink it always is |
| `InlineSpec.MarkerAboveScreenIsNotPaintable` | packages/tui/src/tui.ts:1457-1475 | an overfull transcript cut back to as many lines as the screen has rows, with a cursor marker: painted right if and only if the marker is on a line that is still shown |
| `Frames.ExtractCursorPosition` | packages/tui/src/tui.ts:1457-1475 | the lowest line with a marker among the last `height` lines gives the cursor, and its marker is taken out |
| `Frames.MarkerCut` | packages/tui/src/tui.ts:1457-1475 | the cursor is where the lowest marker among the bottom lines stood; the marker is cut out with the text on both sides kept, and no other line changes |
| `Frames.MarkerAbove` | packages/tui/src/tui.ts:1457-1475 | a marker above the bottom lines is not looked at |
| `Frames.ApplyLineResets` | packages/tui/src/tui.ts:1343-1354 | every line is normalized and ends in a reset |
| `Frames.TabsAndVowels` | packages/tui/src/utils.ts:313-334 | between any two texts a tab becomes three spaces and each of the two AM vowels two characters; other text stays |
| `Frames.PlainPrepared` | packages/tui/src/tui.ts:1343-1354 | a line without tab or AM vowel, in a frame without marker, is painted as its text followed by the reset |
| `Terminal.WriteLinePaints` | packages/tui/src/tui.ts:1594-1670 | writing the next line, scrolling at the bottom, keeps the painted part of the screen right |
| `SelectionRegions.SelectionMap.SubtractSelectionCoverage` | packages/tui/src/tui.ts:1319-1341 | splicing backwards replaces every region by its pieces, none skipped and none looked at twice |
| `SelectionRegions.CoveredColumns` | packages/tui/src/tui.ts:1319-1341 | exactly the covered columns stop being selectable |
| `SelectionRegions.PiecesStayDisjoint` | packages/tui/src/tui.ts:1331-1339 | regions that share no column still share none |
| `SelectionRegions.SelectionMap.CompositeOverlays` | packages/tui/src/tui.ts:1257-1297 | the region list after the whole overlay stack, with the padding and the placement of each overlay |
| `SelectionRegions.SelectionMap.Composite` | packages/tui/src/tui.ts:1286-1292 | one overlay line covers first and offers its own span afterwards |
| `SelectionRegions.SelectableAfter` | packages/tui/src/tui.ts:1278-1295 | a column is selectable exactly when it was and no overlay covers it, or when an overlay offers it and no later one covers it |
| `SelectionRegions.SelectableUnderOverlays` | packages/tui/src/tui.ts:1202-1297 | for whole overlays in focus order and the rows they are composited as, for all columns at once, without any column in two regions |
| `SelectionRegions.SelectableOnScreen` | packages/tui/src/tui.ts:1202-1297 | in terms of where the overlays stand: an overlay counts its rows from the top of the screen or ends with the content; a column can be selected exactly when it could and no overlay is over it, or when a focused overlay has something to select there and no later one is over it |
| `SelectionRegions.SelectionMap.CreateDockSelectionRegions` | packages/tui/src/tui.ts:1304-1317 | the dock offers exactly the content spans of its lines, as disjoint regions |
| `Fullscreen.FullscreenViewport.ComposeFrame` | packages/tui/src/fullscreen.ts:99-132 | a frame has exactly `height` rows: the transcript window, blanks, then the end of the dock; the scroll position stays within bounds |
| `Fullscreen.FullscreenViewport.Paint` | packages/tui/src/fullscreen.ts:640-672 | whatever rows are skipped, every row of the screen is the row of the frame, cut off at the edge without splitting a wide grapheme, and the cursor is where it is asked for |
| `Fullscreen.FullscreenViewport.PaintRows` | packages/tui/src/fullscreen.ts:657-663 | the row loop: rows above are the new frame, rows below still the old one |
| `Fullscreen.SliceByColumn` | packages/tui/src/utils.ts:1194-1240 | the columns of a line up to a width: the longest beginning that fits, stopping as soon as it is full |
| `Fullscreen.CutWhenFull` | packages/tui/src/utils.ts:1194-1240 | a line that is too wide is cut as soon as it is full, or before the first grapheme that would reach over the edge |
| `Fullscreen.FullscreenViewport.PlaySession` | packages/tui/src/fullscreen.ts:99-132 | over any run of frames, scrolls, resizes and resets the remembered frame is the one on screen; when the run ends in a frame, the top rows show its transcript from the scroll position on |
| `Fullscreen.FullscreenViewport.Perform` | packages/tui/src/fullscreen.ts:640-694 | each step of such a run, with scroll position, following and window size after it; after a render the top rows show the transcript from the scroll position on and the others the whole dock, or its end if it would leave fewer than three rows |
| `Fullscreen.FullscreenViewport.RenderFrame` | packages/tui/src/fullscreen.ts:99-132 | one composed and painted frame: window over the transcript, dock below it |
| `Fullscreen.FullscreenViewport.ScrollBy` | packages/tui/src/fullscreen.ts:679-684 | scrolling is clamped, and following resumes exactly at the bottom |
| `Fullscreen.FullscreenViewport.ScrollToTop` | packages/tui/src/fullscreen.ts:686-689 | the top is followed only when there is nothing to scroll |
| `Fullscreen.FullscreenViewport.RenderGrowing` | packages/tui/src/fullscreen.ts:99-132 | while not following, a transcript that grows in any number of renders changes none of its lines on screen, as long as the dock keeps its rows |
| `Fullscreen.FullscreenViewport.RenderFollowing` | packages/tui/src/fullscreen.ts:99-132 | while following, the screen shows the end of the transcript after a render |
| `Fullscreen.RowPainted` | packages/tui/src/fullscreen.ts:660-662 | an addressed, erased and rewritten row changes that row only |
| `AgentLoop.Run.RunAgentLoop` | packages/agent/src/agent-loop.ts:247-270 | a run that returns has emitted `agent_start`, one or more well-shaped turns and one `agent_end`; the context is the initial one followed by exactly the returned messages; every later turn was due, and the run had a reason to end. A run that throws, or is still under way, has emitted complete turns and part of one more; if it throws, what was polled has been injected, unless the signal was raised |
| `AgentLoop.Run.FinishedRunsItsCalls` | packages/agent/src/agent-loop.ts:322-373 | over the parts of the messages of a finished run: every answer that neither failed nor was aborted, the last one unless the signal was raised, starts exactly its calls, in order, with one result for each; one that failed or was aborted is the last and runs none |
| `AgentLoop.Run.RunAgentLoopContinue` | packages/agent/src/agent-loop.ts:272-295 | the same without prompts; refused without any event on an empty transcript or after an assistant message |
| `AgentLoop.Run.RunLoop` | packages/agent/src/agent-loop.ts:304-449 | for every environment and abort timing: shape, context, accounting of polled messages and order of polls at the end of every run, and the shape and accounting of what has been emitted wherever it is broken off, where messages are left to inject only if the signal was raised; it ends only after a failed or aborted answer, an abort, a stop check, or when tool results, steering, follow-ups and continuations are all exhausted |
| `AgentLoop.Run.Advance` | packages/agent/src/agent-loop.ts:322-416 | one turn and the checks after it |
| `AgentLoop.Run.RunTurn` | packages/agent/src/agent-loop.ts:322-373 | injected messages, one assistant message and its tool batch make one turn; the loop goes on with tool results exactly when there are some and not all of them ask to end (`AgentShape.TurnRunsItsCalls`) |
| `AgentLoop.Run.Act` | packages/agent/src/agent-loop.ts:343-373 | a failed or aborted answer runs no tool; otherwise the calls of the answer are run, and their results join transcript and turn in call order |
| `AgentLoop.Run.AfterTurn` | packages/agent/src/agent-loop.ts:375-415 | stop checks and steering poll: nothing that was polled is discarded by a stop |
| `AgentLoop.Run.AfterTurns` | packages/agent/src/agent-loop.ts:418-446 | follow-ups are polled only when no tool call and no steering is left, continuations only when follow-ups were empty |
| `AgentLoop.Run.InjectPending` | packages/agent/src/agent-loop.ts:330-338 | pending messages enter transcript, context and trace once each, in order |
| `AgentLoop.Run.StreamAssistantResponse` | packages/agent/src/agent-loop.ts:451-583 | however the stream ends or the signal is raised, one message is opened once, only updated, closed once, and is the last of the context; a stream that throws leaves it opened and updated at most |
| `AgentLoop.Run.PollMessages` | packages/agent/src/agent-loop.ts:167-175 | a poll drains its queue only while the signal is not raised; its answer is lost exactly if the race with the signal is, and no poll or turn follows |
| `AgentLoop.Run.LoseSteering` | packages/agent/src/agent-loop.ts:397-404 | such a loss exists after every turn: a message is queued and drained, the signal is raised before the answer is there, and the run ends properly without it |
| `AgentLoop.Run.LeaveSteering` | packages/agent/src/agent-loop.ts:317-322 | the other way to lose messages: after any turn the poll has brought some, and the signal is raised before they are injected; the run throws with them in neither queue nor transcript |
| `AgentLoop.Run.FinishAbortedMessage` | packages/agent/src/agent-loop.ts:460-471 | an aborted answer still closes its message with the parts that had arrived, opening it first if it never began |
| `AgentLoop.Run.ExecuteToolCallsSequential` | packages/agent/src/agent-loop.ts:607-665 | a prefix of the calls, each from its start to the delivery of its result before the next starts; all of them unless the signal was raised |
| `AgentLoop.Run.ExecuteToolCallsParallel` | packages/agent/src/agent-loop.ts:667-721 | in every interleaving each call starts once, updates, ends once; one result per call, in call order; nothing stays pending |
| `AgentLoop.Run.RunPreparedToolCalls` | packages/agent/src/agent-loop.ts:691-710 | any schedule of updates and endings of prepared calls keeps them interleaved correctly until all are over |
| `AgentLoop.Run.ExecutePreparedToolCall` | packages/agent/src/agent-loop.ts:827-881 | a started call is only updated until it settles; if the signal is up it settles at once with an error |
| `AgentEvents.BatchGrows` | packages/agent/src/agent-loop.ts:619-662 | appending one complete call to a sequential batch gives a complete batch |
| `AgentEvents.BatchUnfinished` | packages/agent/src/agent-loop.ts:607-665 | a sequential batch broken off in the middle: complete calls, then one that has started |
| `AgentEvents.StartCall` | packages/agent/src/agent-loop.ts:677-690 | starting the next call keeps an interleaving |
| `AgentEvents.EndCall` | packages/agent/src/agent-loop.ts:691-703 | ending any open call keeps an interleaving, also when ids repeat |
| `AgentEvents.Deliver` | packages/agent/src/agent-loop.ts:711-716 | delivering results in call order completes the calls one by one |
| `AgentEvents.EndedFound` | packages/agent/src/agent-loop.ts:167-175 | the messages read off a trace are those of its `message_end` events, one for one |
| `AgentEvents.BegunFound` | packages/agent/src/agent-loop.ts:607-726 | the calls read off a trace are those of its `tool_execution_start` events, one for one |
| `AgentShape.EndedTurns` | packages/agent/src/agent-loop.ts:255-268 | the messages that end in a run are exactly those its turns add, and no tool call stays open |
| `AgentShape.TurnRunsItsCalls` | packages/agent/src/agent-loop.ts:343-373 | the calls that start in a turn are exactly the calls among the parts of its answer, in order; the i-th result has id and name of the i-th call; the model is to see the results unless every one of them asks to end |
| `AgentShape.StoppedTurnRunsNothing` | packages/agent/src/agent-loop.ts:343-347 | an answer that failed or was aborted starts no call and has no result |
| `AgentShape.TurnInOrder` | packages/agent/src/agent-loop.ts:322-373 | each event of a turn is in its place: `turn_start`, a start and an end for each injected message, start, updates and end of the answer, the batch, `turn_end` with answer and results |
| `AgentShape.EndedBrokenOff` | packages/agent/src/agent-loop.ts:247-295 | wherever a run is broken off, the messages that have ended are those of its turns and what the open one has added, and the prompts come first |
| `AgentShape.BatchEvents` | packages/agent/src/agent-loop.ts:607-726 | a tool batch emits nothing but tool events and result messages |
| `AgentShape.PollAdded` | packages/agent/src/agent-loop.ts:397-446 | one more poll keeps the order of polls and adds its messages to those accounted for |
| `AgentState.StateAtTurnEnd` | packages/agent/src/agent.ts:556-595 | at every `turn_end` the transcript is the one before the run followed by what the turns added, no tool call is pending, and the error is the last one reported |
| `AgentState.ReducedReads` | packages/agent/src/agent.ts:556-583 | for any trace: transcript and pending tool calls of the reduced state can be read off the trace |
| `AgentState.StateReads` | packages/agent/src/agent.ts:556-595 | for any trace: what is streaming is what the last event about a message opened or updated; a call is pending exactly if it has started and not ended since; the error is the one a turn reported last |
| `AgentState.Agent.RunWithLifecycle` | packages/agent/src/agent.ts:495-546 | one run at a time; afterwards the transcript has grown by exactly the returned messages, or by what the complete turns and the broken one had added and one failure message, the prompts first either way; nothing streams or is pending; what the queues handed out is in the transcript but for what the last poll lost or the crash left to inject, and either needs the signal |
| `AgentState.Agent.RunLoop` | packages/agent/src/agent.ts:434-493 | what a run drains from the two queues is exactly what its polls brought and what its last poll lost to the signal; what was brought enters the transcript in order, or, only if the signal was raised, is left to inject when the run throws |
| `AgentState.Agent.Continue` | packages/agent/src/agent.ts:354-403 | continuing turns queued messages into prompts, steering first; they come first in what the run adds to the transcript, whether it returns or crashes, and a crash leaves messages to inject only if the signal was raised; it refuses only when busy or when nothing is queued after an empty transcript or an assistant message |
| `AgentState.Agent.TakeQueued` | packages/agent/src/agent.ts:360-372 | steering messages come before follow-ups, and only one of the queues is drained |
| `AgentState.Agent.ProcessEvents` | packages/agent/src/agent.ts:556-595 | each event reduces the state as specified |
| `AgentState.Agent.HandleRunFailure` | packages/agent/src/agent.ts:520-539 | a failed run leaves one assistant message with the error |
| `PendingMessages.PendingMessageQueue.Enqueue` | packages/agent/src/agent.ts:124-129 | a non-empty batch waits behind all others |
| `PendingMessages.PendingMessageQueue.Drain` | packages/agent/src/agent.ts:135-148 | everything that waits, or the batch that has waited longest; drained batches come out in the order they went in |
| `PendingMessages.PendingMessageQueue.Clear` | packages/agent/src/agent.ts:150-152 | what waits is cleared and nothing else changes |
| `PendingMessages.PendingMessageQueue.RemoveWhere` | packages/agent/src/agent.ts:154-166 | exactly the waiting batches with a matching message are removed, as a whole, and returned; the others keep waiting in order |
| `PendingMessages.SelectDrainsFirst` | packages/agent/src/agent.ts:141-147 | draining the longest waiting batch appends it to the drained ones |
| `PendingMessages.SelectSettled` | packages/agent/src/agent.ts:136-139 | draining all appends the waiting batches to the drained ones in order |
| `BoundedBuffer.Buffer.Write` | prime-agent-runtime/src/rlm/bash.py:70-91 | after any write the buffer holds exactly the first bytes, the last bytes of the rest, and the count of the missing ones |
| `BoundedBuffer.Buffer.GetText` | prime-agent-runtime/src/rlm/bash.py:97-105 | the text depends only on the stream, not on its chunks |
| `BoundedBuffer.Buffer.WriteAll` | prime-agent-runtime/src/rlm/bash.py:70-105 | any chunking of a stream leaves the same buffer |
| `BoundedBuffer.TextOfStream` | prime-agent-runtime/src/rlm/bash.py:93-105 | a stream of up to 2 MiB is shown whole; of a longer one the first 512 KiB and the last 1536 KiB are, and the number of bytes between them |
| `OutputFence.Fence.ConsumeAll` | prime-agent-runtime/src/rlm/bash.py:327-357 | for any chunking the marker is found at its first occurrence in the whole stream, the snapshot is the text before it, and exactly that occurrence is missing from the capture; without it the capture is the stream |
| `OutputFence.Fence.ConsumeOutput` | prime-agent-runtime/src/rlm/bash.py:327-349 | each chunk keeps the invariant: the pending bytes are the longest end of the stream that begins the marker |
| `OutputFence.Fence.AbandonCompletion` | prime-agent-runtime/src/rlm/bash.py:351-357 | what was held back is output after all, unless the marker was found |
| `OutputFence.Retained` | prime-agent-runtime/src/rlm/bash.py:341-349 | the longest beginning of the marker that the data ends with |
| `OutputFence.Detected` | prime-agent-runtime/src/rlm/bash.py:331-340 | the marker occurs in the held bytes and the chunk exactly where it first occurs in the whole stream |
| `OutputFence.FencedUnique` | prime-agent-runtime/src/rlm/bash.py:327-357 | capture, held bytes and snapshot are determined by the stream alone |
| `Completion.EveryScheduleSettles` | prime-agent-runtime/src/rlm/bash.py:363-405 | in every schedule the result is set at most once, a delivered status wins over the exit code, and every callback is waiting or has run exactly once |
| `Completion.BothEnded` | prime-agent-runtime/src/rlm/bash.py:363-405 | when both threads have ended, the result is set, and every callback has run as often as it was registered, but for those registered since that are about to run |
| `Completion.ResultIs` | prime-agent-runtime/src/rlm/bash.py:363-405 | in every schedule the result is the status that came over the channel, or without one the exit code of the shell, and it is not there before the output is complete |
| `Completion.EveryScheduleCanEnd` | prime-agent-runtime/src/rlm/bash.py:363-405 | nothing gets stuck: every schedule can be continued until both threads have ended, with a result |
| `Completion.ResultIsFinal` | prime-agent-runtime/src/rlm/bash.py:496-509 | a result never changes again |
| `Completion.NextKeepsCallback` | prime-agent-runtime/src/rlm/bash.py:496-516 | each step keeps the count of every callback |
| `KillReap.NoKillAfterReap` | prime-agent-runtime/src/rlm/bash.py:263-280 | with the lock (Windows), for any number of calls of `kill`: none terminates anything once the group is being reaped; the job is open and the process id is not free |
| `KillReap.EveryKillDecided` | prime-agent-runtime/src/rlm/bash.py:263-290 | with and without the lock: a call that has returned has acted once or found the flag set, none acts twice, and a reaped group has lost its job and its process handle |
| `KillReap.SomebodyMoves` | prime-agent-runtime/src/rlm/bash.py:263-290 | the lock is never held for ever: while a call or the watching thread is not done, one of them can go on |
| `KillReap.LateUnlessFlagged` | prime-agent-runtime/src/rlm/bash.py:263-290 | without it (elsewhere), after any run: a kill can still signal a group whose id has been freed if and only if the flag is not set yet or a call had looked at it before |
| `KillReap.LateKill` | prime-agent-runtime/src/rlm/bash.py:269-290 | such schedules exist before the flag is set and after it |
| `JobProcess.EveryScheduleSafe` | prime-agent-runtime/src/rlm/_winjob.py:166-265 | in every schedule of waits, polls, kills, resumes and closes: handles are closed at most once and never used afterwards, waiters are counted exactly, and all exit codes returned agree |
| `JobProcess.NextSafe` | prime-agent-runtime/src/rlm/_winjob.py:180-265 | each lock-atomic step keeps these |
| `JobProcess.EveryAnswer` | prime-agent-runtime/src/rlm/_winjob.py:214-265 | after every schedule: a poll that is signaled and can read the code answers the exit code, and once it has been read every poll, wait and kill knows it; a poll says that the process still runs only if its wait timed out; a closed handle without a code and a kill that fails while the process runs are errors |
| `JobProcess.History` | prime-agent-runtime/src/rlm/_winjob.py:180-265 | after every schedule the cached code is the exit code if some call could read it, and the thread handle is open until that or a successful resume |
| `JobProcess.Process.WaitEnd` | prime-agent-runtime/src/rlm/_winjob.py:240-257 | the end of a blocking wait, as a step of the protocol |
| `JobProcess.Process.Poll` | prime-agent-runtime/src/rlm/_winjob.py:214-226 | a poll, as a step of the protocol; what it answers is `JobProcess.EveryAnswer` |
| `JobProcess.Process.Close` | prime-agent-runtime/src/rlm/_winjob.py:189-193 | a close request, deferred while waits are in flight |
| `JobProcess.Process.Resume` | prime-agent-runtime/src/rlm/_winjob.py:180-187 | resuming closes the thread handle |
| `JobProcess.Process.Kill` | prime-agent-runtime/src/rlm/_winjob.py:259-265 | terminating the process, as a step of the protocol |
| `AnsiScanner.Extractor.ExtractAll` | packages/tui/src/utils.ts:449-452 | for every text and every sequence of positions the extractor with its cache answers what the scan without one answers |
| `AnsiScanner.Extractor.ExtractAnsiEndAt` | packages/tui/src/utils.ts:397-436 | one query, cached or not, gives the end of the escape sequence |
| `AnsiScanner.CacheControlStringEnds` | packages/tui/src/utils.ts:346-371 | the backward pass records the right end for every control string it passes |
| `AnsiScanner.EndFromFirsts` | packages/tui/src/utils.ts:346-395 | a control string ends at the first terminator after its introducer, whichever way it is looked for |
| `AnsiCodes.ExtractedSequences` | packages/tui/src/utils.ts:397-436 | what is extracted at a place is exactly the control sequence or control string that begins there, by parameter, intermediate and final bytes or up to the first terminator |
| `AnsiTracker.TrackerRoundTrip` | packages/tui/src/utils.ts:512-684 | whatever text a tracker has been fed, the codes it writes put a cleared tracker into exactly the same state |
| `AnsiTracker.ActiveCodesReadBack` | packages/tui/src/utils.ts:666-684 | the same for every style a tracker can hold |
| `AnsiTracker.AnsiCodeTracker.ProcessCode` | packages/tui/src/utils.ts:512-541 | the tracker follows the code, whether rendition, hyperlink or neither |
| `AnsiTracker.AnsiCodeTracker.ProcessParts` | packages/tui/src/utils.ts:543-644 | parameters are taken one by one, extended colours several at a time |
| `AnsiTracker.AnsiCodeTracker.UpdateFromText` | packages/tui/src/utils.ts:720-732 | the tracker follows every escape sequence of a text |
| `AnsiTracker.LinkCodeReadBack` | packages/tui/src/utils.ts:467-493 | a formatted hyperlink is scanned and parsed back, with parameters and terminator |
| `AnsiTracker.CodesReadBack` | packages/tui/src/utils.ts:666-684 | attributes and colours survive writing and reading |
| `AnsiCodes.RenditionsInOrder` | packages/tui/src/utils.ts:523-644 | a rendition sequence of any parameters: each number turns on and off what it should, each extended colour is kept as written, one after the other; without parameters it is a reset |
| `AnsiCodes.HyperlinkMeans` | packages/tui/src/utils.ts:467-493 | a hyperlink command with an address opens a link with its parameters and terminator, one without closes it |
| `AnsiCodes.OthersLeaveStyle` | packages/tui/src/utils.ts:512-530 | every other control sequence leaves the style as it is |
| `AnsiCodes.StringsLeaveStyle` | packages/tui/src/utils.ts:467-516 | every other control string does |
| `AnsiCodes.SegmentResetClears` | packages/tui/src/tui.ts:1343-1350 | the reset behind a painted line leaves a clear style and no link, whatever was in force |
| `AnsiWrap.WrapTextWithAnsi` | packages/tui/src/utils.ts:797-817 | the lines show the whole text in order and in style, except for spaces after the end of a line; they are no wider than allowed if and only if no grapheme is, and never wider than the widest grapheme otherwise; every line of the text is broken only where it must be (`AnsiWrap.WrapsWith`), and one that fits is not broken |
| `AnsiWrap.WrapSingleLine` | packages/tui/src/utils.ts:819-896 | the same for one line: with the next word a broken-off line would be too wide, or it is full in the middle of a word wider than a line; it ends without underline and link; no line of a broken one ends with a space, and none but the first begins with one unless an escape sequence stands next to a space |
| `AnsiWrap.BreaksStay` | packages/tui/src/utils.ts:836-884 | a break that is needed stays needed whatever words follow |
| `AnsiWrap.ResetCloses` | packages/tui/src/utils.ts:702-717 | the reset at the end of a line ends underline and link and keeps everything else |
| `AnsiWrap.OverwideShows` | packages/tui/src/utils.ts:993-1001 | lines that show a text cannot all be narrower than its widest grapheme |
| `AnsiWrap.WrapToken` | packages/tui/src/utils.ts:836-884 | one word: broken, moved to the next line or appended, with every break needed |
| `AnsiWrap.BreakLongWord` | packages/tui/src/utils.ts:946-1014 | a word wider than a line, broken between graphemes with its style carried over, each line full |
| `AnsiWrap.SplitIntoTokens` | packages/tui/src/utils.ts:737-788 | runs of spaces and runs of other graphemes alternate and make up the text; without graphemes it is one token |
| `AnsiWrap.Reopened` | packages/tui/src/utils.ts:666-684 | reopening a style on a new line gives that style |
| `AnsiWrap.RenderedStyle` | packages/tui/src/utils.ts:720-732 | reading a text as a string gives the style its escape sequences say |
| `StdinBuffer.CutsMatterOnlyAtMarkers` | packages/tui/src/stdin-buffer.ts:239-349 | an input reads the same however it is cut into chunks exactly when every paste marker in it stands free of the sequences before it |
| `StdinBuffer.TerminalInputCuts` | packages/tui/src/stdin-buffer.ts:239-349 | the same with the escape sequences the program recognizes |
| `StdinBuffer.CutsDoNotMatter` | packages/tui/src/stdin-buffer.ts:239-333 | any cut of such an input leaves the same state and finds the same keys and pastes |
| `StdinBuffer.CutShowsSomewhere` | packages/tui/src/stdin-buffer.ts:281-311 | a marker that is not free can be cut so that the events differ |
| `StdinBuffer.MarkerBehindSingleShift` | packages/tui/src/stdin-buffer.ts:58-60 | such an input exists: a single-shift prefix takes the first character of the marker |
| `StdinBuffer.FoundAndHeld` | packages/tui/src/stdin-buffer.ts:239-333 | of an input read at once, keys, pastes and held text are the input with exactly the unfinished sequences that stood right before a paste marker taken out |
| `StdinBuffer.ChunkHeld` | packages/tui/src/stdin-buffer.ts:239-333 | one chunk read in any state: what is found and held is what was held and what came in, with exactly such sequences taken out |
| `StdinBuffer.ChunksHeld` | packages/tui/src/stdin-buffer.ts:239-333 | the same over any chunking: nothing else is ever lost |
| `StdinBuffer.DroppedOnlyAsDuplicate` | packages/tui/src/stdin-buffer.ts:336-349 | only the plain character right after its own Kitty encoding is dropped |
| `InputEvents.KittyCodepointIs` | packages/tui/src/stdin-buffer.ts:155-163 | exactly ESC `[`, a number, optional subparameters and `u` has a code point: the value of the number, if it is printable |
| `InputEvents.KittyThenCharacter` | packages/tui/src/stdin-buffer.ts:336-349 | a key in the Kitty encoding followed by the same character is one event |
| `InputEvents.DecimalValue` | packages/tui/src/stdin-buffer.ts:155-163 | digits are read as a decimal number |
| `StdinBuffer.StdinBuffer.Process` | packages/tui/src/stdin-buffer.ts:239-333 | one chunk, also when it holds pastes and what follows them; the recursion ends |
| `StdinBuffer.StdinBuffer.ProcessAll` | packages/tui/src/stdin-buffer.ts:239-349 | from the start, a whole input in chunks emits exactly the events of the whole input if its markers stand free; in a paste, any chunks at all deliver exactly the text up to the first end marker first |
| `StdinBuffer.StdinBuffer.EmitDataSequence` | packages/tui/src/stdin-buffer.ts:336-349 | one sequence is emitted or dropped as a duplicate |
| `StdinBuffer.PasteThrough` | packages/tui/src/stdin-buffer.ts:261-311 | an input read at once: the keys before the paste, the paste, and then whatever the rest reads as |
| `InputEvents.PasteIsOneEvent` | packages/tui/src/stdin-buffer.ts:239-311 | the text between the two markers is delivered as one paste, and the input is read on behind it |
| `StdinBuffer.PasteDelivered` | packages/tui/src/stdin-buffer.ts:239-311 | once in a paste, for every chunking and whatever follows, the delivered paste is exactly the text up to the first end marker; nothing is delivered before it is complete |
| `InputTokens.TokensCompose` | packages/tui/src/stdin-buffer.ts:171-207 | input can be taken apart piece by piece if what is unfinished stays in front |
| `InputTokens.TokensMakeUpInput` | packages/tui/src/stdin-buffer.ts:171-207 | tokens and remainder concatenate to the input |
| `InputTokens.TokensUnique` | packages/tui/src/stdin-buffer.ts:171-207 | there is only one way to take an input apart into shortest complete sequences |
| `InputTokens.TokensAreTokens` | packages/tui/src/stdin-buffer.ts:171-207 | every token is one character or a shortest complete sequence |
| `InputTokens.ExtractCompleteSequences` | packages/tui/src/stdin-buffer.ts:171-207 | the two loops compute tokens and remainder; which sequences are tokens is `InputSequences.ShortestSequences` |
| `InputSequences.ShortestSequences` | packages/tui/src/stdin-buffer.ts:30-146 | the recognized sequences in terms of their text: control sequences with parameters and one final byte, SGR and six-character mouse reports, control strings up to their first terminator, ESC O with one character, ESC with any other; nothing else |
| `InputSequences.SequenceIsKey` | packages/tui/src/stdin-buffer.ts:171-207 | such a sequence is the first token of every input that begins with it, and each proper beginning of it is held back |
| `InputSequences.TokensAreSequences` | packages/tui/src/stdin-buffer.ts:171-207 | every token is one of them or a single character |
| `InputGrammar.MouseTestsAgree` | packages/tui/src/stdin-buffer.ts:91-101 | the second test of a mouse report accepts nothing the first one refuses |

## Left out

- Kitty images, Termux, synchronized output and cursor visibility: they do not affect which line is in which row.
- The crash on an over-wide line: lines are values that the terminal shows whole; widths are not part of the inline model.
- Starting on a screen that is not clean, which the renderer cannot notice.
- InlineRenderer.Tui.PlaySession: after a frame that was not paintable, and after resizing there and back without a render between, what an edit makes of the screen is not modelled, until a frame is written anew; a terminal that restores the screen is not told apart from one that does not.
- InlineRenderer.Tui.RequestRender: the reset of the fullscreen viewport and the scheduling of the frame are not modelled.
- Leaving fullscreen without leaving the alternate screen, `stop`, and the field `cursorRow`, which nothing reads back.
- Render throttling, timers, debug output: a render is an explicit step.
- Text of composited overlay lines, overlays anchored to a marker, and overlay layout: only columns and rows of selections are modelled.
- Table and transcript text selection, hyperlinks under the mouse, image placeholders, the follow hint.
- Fullscreen.FullscreenViewport.Paint: a row is what has been written to it; the style that a line cut off at the edge may leave open for the next row is not modelled.
- Frames.ExtractCursorPosition: the column is the position of the marker in the line; that text before it can be wider or narrower is not modelled.
- AgentState.Agent.RunWithLifecycle: reduces the events of a run after the run instead of one by one, which is the same because the loop does not read the state; listeners and the normalization of prompts are not modelled.
- AgentLoop.Run.PollMessages: others queue and clear messages between two polls; removing queued messages during a run is not interleaved, and only the continuation hook, not the queues, brings messages from outside.
- Provider streams that begin twice, argument validation, tool lookup and hook arguments: their outcomes are arbitrary answers.
- `EventStream`: a run's events are one list.
- BoundedBuffer.Buffer.GetText: gives the bytes and the number of dropped ones; UTF-8 decoding and the wording of the gap are not modelled.
- Completion.EveryScheduleSettles: the threads are a state machine on values rather than methods on an object; callbacks are taken not to raise (one that did would end its thread and drop the callbacks behind it); draining and the journal are left out.
- KillReap.NoKillAfterReap: whether a termination succeeds, the fallbacks when it does not, and the timer that calls `kill` again are not told apart; a kill is one action on the group.
- JobProcess.EveryScheduleSafe: the kernel is a set of open handles with arbitrary answers; job objects and process creation are left out.
- AnsiTracker.AnsiCodeTracker.ProcessCode: the fields of the tracker are one record.
- AnsiWrap.WrapTextWithAnsi: the text is a sequence of escape sequences and graphemes with widths; tabs, other white space and broken escape sequences are not lexed, graphemes of width zero and how graphemes are found are left out.
- `truncateToWidth`, `sliceByColumn`, `visibleWidth` and the Unicode tables.
- StdinBuffer.StdinBuffer.Process: the time limit that flushes an unfinished sequence, `flush`, `clear` and the conversion of a lone high byte are left out; code units are characters.
