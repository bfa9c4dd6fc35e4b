/** The agent loop (packages/agent/src/agent-loop.ts). The model, the tools, the hooks and the abort signal are an
    environment that may answer anything at any time; the budget says how far a run is followed, and every
    statement holds for every budget.
 */
module AgentLoop {
  import opened Basics
  import opened AgentEvents
  import opened AgentShape
  import PendingMessages

  // Completed, interrupted by the abort signal, ended by an exception, or still under way when the budget is spent.
  datatype Status = Completed | Interrupted | Threw | UnderWay

  // One step of a provider's stream: partial messages, then a final one, or a silent end.
  datatype StreamEvent = Begins(partial: Message) | Delta(partial: Message) | Terminal | Done

  class Run {
    var messages: seq<Message>
    var newMessages: seq<Message>
    var aborted: bool
    var trace: Trace
    var budget: nat
    var skipInitialSteeringPoll: bool
    const steering: PendingMessages.PendingMessageQueue<Message>
    const followUps: PendingMessages.PendingMessageQueue<Message>

    ghost var initial: seq<Message>
    ghost var prompts: seq<Message>
    ghost var turns: seq<Turn>
    ghost var polls: seq<Poll>
    ghost var stopRequested: bool
    ghost var steeringBefore: seq<Message>
    ghost var followUpsBefore: seq<Message>
    ghost var lost: Option<Poll>       // the poll that lost its race with the signal
    ghost var rest: Rest               // where a run was broken off, and what was then left to inject
    ghost var left: seq<Message>

    constructor (context: seq<Message>, signalled: bool, skipSteering: bool, steps: nat,
                 steeringQueue: PendingMessages.PendingMessageQueue<Message>,
                 followUpQueue: PendingMessages.PendingMessageQueue<Message>)
      ensures steering == steeringQueue && followUps == followUpQueue && skipInitialSteeringPoll == skipSteering
      ensures steeringBefore == steering.drained && followUpsBefore == followUps.drained
      ensures messages == initial == context && newMessages == prompts == [] && trace == [] && aborted == signalled
      ensures turns == [] && polls == [] && !stopRequested && lost == None && budget == steps
    {
      messages, initial := context, context;
      newMessages, prompts, trace, aborted, budget := [], [], [], signalled, steps;
      turns, polls, stopRequested := [], [], false;
      steering, followUps, skipInitialSteeringPoll := steeringQueue, followUpQueue, skipSteering;
      steeringBefore, followUpsBefore := steeringQueue.drained, followUpQueue.drained;
      lost, rest, left := None, Idle, [];
    }

    method Emit(event: Event)
      modifies `trace
      ensures trace == old(trace) + [event]
    {
      trace := trace + [event];
    }

    // While the loop waits, the signal may be raised; it is never lowered.
    method Await()
      modifies `aborted
      ensures old(aborted) ==> aborted
    {
      if * {
        aborted := true;
      }
    }

    // ---------- Tool calls ----------

    // An unknown tool, bad arguments, a veto or a failing hook answer for the tool at once.
    method PrepareToolCall(call: ToolCall) returns (immediate: Option<Outcome>)
      modifies `aborted
      ensures old(aborted) ==> aborted
      ensures immediate.Some? ==> immediate.value.isError && !immediate.value.terminate
    {
      Await();
      if * {
        var reason: string := *;
        immediate := Some(Outcome(reason, false, true));
      } else {
        immediate := None;
      }
    }

    // The tool's own result or an error, after the hook that may change it.
    method FinalizeToolCall() returns (outcome: Outcome)
      modifies `aborted
      ensures old(aborted) ==> aborted
    {
      Await();
      outcome := *;
    }

    method EmitToolResult(call: ToolCall, outcome: Outcome) returns (result: Message)
      modifies `trace
      ensures result == ResultOf(call, outcome) && trace == old(trace) + Pair(result)
    {
      result := ResultOf(call, outcome);
      Emit(MessageStart(result));
      Emit(MessageEnd(result));
      assert trace == old(trace) + Pair(result);
    }

    // Updates come in until the tool settles; once the signal is raised they are dropped.
    method ExecutePreparedToolCall(call: ToolCall) returns (status: Status, outcome: Outcome, ghost log: Trace)
      modifies `trace, `aborted, `budget
      ensures trace == old(trace) + log && (old(aborted) ==> aborted) && budget <= old(budget)
      ensures status in {Completed, UnderWay}
      ensures Running([ToolStart(call)] + log, call)
      ensures old(aborted) ==> status == Completed && log == [] && outcome.isError
    {
      log := [];
      outcome := Outcome("Tool execution aborted", false, true);
      if aborted {
        return Completed, outcome, log;
      }
      while true
        invariant trace == old(trace) + log && budget <= old(budget)
        invariant old(aborted) ==> aborted
        invariant Running([ToolStart(call)] + log, call)
        decreases budget
      {
        if budget == 0 {
          return UnderWay, outcome, log;
        }
        budget := budget - 1;
        Await();
        if * {
          break;
        }
        if !aborted {
          var partial: string := *;
          Emit(ToolUpdate(call, partial));
          RunningGrows([ToolStart(call)] + log, call, partial);
          log := log + [ToolUpdate(call, partial)];
          assert [ToolStart(call)] + log == [ToolStart(call)] + log[..|log| - 1] + [ToolUpdate(call, partial)];
        }
      }
      outcome := FinalizeToolCall();
      status := Completed;
    }

    // The end of a call and the delivery of its result.
    method EndSequentialCall(call: ToolCall, outcome: Outcome, ghost base: Trace, ghost log: Trace)
        returns (result: Message, ghost log': Trace)
      requires trace == base + log && Running(log, call)
      modifies `trace
      ensures trace == base + log' && Ran(log', call, outcome) && result == ResultOf(call, outcome)
    {
      hide Running, Over, Ran, Pair;
      OverAfterRunning(log, call, outcome);
      Emit(ToolEnd(call, outcome));
      log' := log + [ToolEnd(call, outcome)];
      ConcatAssociates(base, log, [ToolEnd(call, outcome)]);
      RanAfterOver(log', call, outcome);
      result := EmitToolResult(call, outcome);
      ConcatAssociates(base, log', Pair(result));
      log' := log' + Pair(result);
    }

    // One call of a sequential batch, from its start to the delivery of its result.
    method RunToolCall(call: ToolCall) returns (status: Status, outcome: Outcome, result: Message, ghost log: Trace)
      modifies `trace, `aborted, `budget
      ensures trace == old(trace) + log && (old(aborted) ==> aborted) && budget <= old(budget)
      ensures status in {Completed, UnderWay}
      ensures status == Completed ==> Ran(log, call, outcome) && result == ResultOf(call, outcome)
      ensures status == UnderWay ==> Running(log, call)
    {
      hide Running, Over, Ran, Pair;
      Emit(ToolStart(call));
      log := [ToolStart(call)];
      result := ResultOf(call, Outcome("", false, true));
      RunningStarts(call);
      var preparation := PrepareToolCall(call);
      if preparation.Some? {
        status, outcome := Completed, preparation.value;
      } else {
        ghost var updates;
        status, outcome, updates := ExecutePreparedToolCall(call);
        ConcatAssociates(old(trace), log, updates);
        log := log + updates;
      }
      if status == Completed {
        result, log := EndSequentialCall(call, outcome, old(trace), log);
      }
    }

    method ExecuteToolCallsSequential(calls: seq<ToolCall>)
        returns (status: Status, outcomes: seq<Outcome>, results: seq<Message>, ghost log: Trace,
                 ghost schedule: seq<nat>, ghost delivered: nat, ghost known: seq<Option<Outcome>>)
      modifies `trace, `aborted, `budget
      ensures trace == old(trace) + log && (old(aborted) ==> aborted) && budget <= old(budget)
      ensures status in {Completed, UnderWay}
      ensures status == Completed ==>
        && |outcomes| <= |calls| && (|outcomes| < |calls| ==> aborted)
        && Batch(calls[..|outcomes|], outcomes, results, log, schedule) && OneByOne(schedule)
      ensures status == UnderWay ==> Unfinished(calls, delivered, known, log, schedule)
    {
      hide Batch, Running, Ran, Unfinished;
      NoTools();
      outcomes, results, log, schedule, delivered, known := [], [], [], [], 0, [];
      for i := 0 to |calls|
        invariant OneByOne(schedule) && forall j :: 0 <= j < |schedule| ==> schedule[j] < i
        invariant trace == old(trace) + log && (old(aborted) ==> aborted) && budget <= old(budget)
        invariant |outcomes| == i && Batch(calls[..i], outcomes, results, log, schedule)
      {
        if aborted {
          break;
        }
        var outcome, result;
        ghost var one;
        status, outcome, result, one := RunToolCall(calls[i]);
        if status == UnderWay {
          BatchUnfinished(calls, outcomes, results, log, schedule, one);
          log, schedule, delivered, known := log + one, schedule + Only(|one|, i), i, Known(outcomes) + [None];
          return;
        }
        BatchGrows(calls[..i], outcomes, results, log, schedule, calls[i], outcome, one);
        TakeNext(calls, i);
        outcomes, results := outcomes + [outcome], results + [result];
        log, schedule := log + one, schedule + Only(|one|, i);
        if aborted {
          break;
        }
      }
      status := Completed;
    }

    // A call is started and prepared; if it is answered at once, it ends at once.
    method StartToolCall(calls: seq<ToolCall>, outcomes: seq<Option<Outcome>>,
                         ghost base: Trace, ghost log: Trace, ghost schedule: seq<nat>)
        returns (outcomes': seq<Option<Outcome>>, ghost log': Trace, ghost schedule': seq<nat>)
      requires Interleaved(calls, outcomes, log, schedule) && |outcomes| < |calls| && trace == base + log
      modifies `trace, `aborted
      ensures (old(aborted) ==> aborted) && trace == base + log'
      ensures |outcomes'| == |outcomes| + 1 && Interleaved(calls, outcomes', log', schedule')
    {
      var i := |outcomes|;
      StartCall(calls, outcomes, log, schedule);
      Emit(ToolStart(calls[i]));
      outcomes', log', schedule' := outcomes + [None], log + [ToolStart(calls[i])], schedule + [i];
      var preparation := PrepareToolCall(calls[i]);
      if preparation.Some? {
        outcomes', log', schedule' := EndToolCall(calls, outcomes', i, preparation.value, base, log', schedule');
      }
    }

    method EndToolCall(calls: seq<ToolCall>, outcomes: seq<Option<Outcome>>, k: nat, outcome: Outcome,
                       ghost base: Trace, ghost log: Trace, ghost schedule: seq<nat>)
        returns (outcomes': seq<Option<Outcome>>, ghost log': Trace, ghost schedule': seq<nat>)
      requires Interleaved(calls, outcomes, log, schedule) && trace == base + log
      requires k < |outcomes| && outcomes[k] == None
      modifies `trace
      ensures trace == base + log'
      ensures |outcomes'| == |outcomes| && Interleaved(calls, outcomes', log', schedule')
    {
      EndCall(calls, outcomes, log, schedule, k, outcome);
      Emit(ToolEnd(calls[k], outcome));
      outcomes' := outcomes[k := Some(outcome)];
      log', schedule' := log + [ToolEnd(calls[k], outcome)], schedule + [k];
    }

    method UpdateToolCall(calls: seq<ToolCall>, k: nat, partial: string, ghost outcomes: seq<Option<Outcome>>,
                          ghost base: Trace, ghost log: Trace, ghost schedule: seq<nat>)
        returns (ghost log': Trace, ghost schedule': seq<nat>)
      requires Interleaved(calls, outcomes, log, schedule) && trace == base + log
      requires k < |outcomes| && outcomes[k] == None
      modifies `trace
      ensures trace == base + log' && Interleaved(calls, outcomes, log', schedule')
    {
      UpdateCall(calls, outcomes, log, schedule, k, partial);
      Emit(ToolUpdate(calls[k], partial));
      log', schedule' := log + [ToolUpdate(calls[k], partial)], schedule + [k];
    }

    // Prepared calls run side by side: at each step any of them delivers an update, settles, or ends.
    method RunPreparedToolCalls(calls: seq<ToolCall>, started: seq<Option<Outcome>>,
                                ghost base: Trace, ghost before: Trace, ghost scheduled: seq<nat>)
        returns (status: Status, outcomes: seq<Option<Outcome>>, ghost log: Trace, ghost schedule: seq<nat>)
      requires |started| == |calls| && Interleaved(calls, started, before, scheduled) && trace == base + before
      modifies `trace, `aborted, `budget
      ensures trace == base + log && (old(aborted) ==> aborted) && budget <= old(budget)
        && status in {Completed, UnderWay}
      ensures |outcomes| == |calls| && Interleaved(calls, outcomes, log, schedule)
      ensures status == Completed ==> forall k :: 0 <= k < |outcomes| ==> outcomes[k].Some?
    {
      outcomes, log, schedule := started, before, scheduled;
      var accepting := seq(|calls|, i => true);
      while exists k :: 0 <= k < |outcomes| && outcomes[k].None?
        invariant trace == base + log && (old(aborted) ==> aborted) && budget <= old(budget)
        invariant |accepting| == |outcomes| == |calls| && Interleaved(calls, outcomes, log, schedule)
        decreases budget
      {
        if budget == 0 {
          return UnderWay, outcomes, log, schedule;
        }
        budget := budget - 1;
        Await();
        var k: int := *;
        if 0 <= k < |calls| && outcomes[k].None? {
          var settles: bool := *;
          if accepting[k] && settles {
            accepting := accepting[k := false];
          } else if accepting[k] && !aborted {
            var partial: string := *;
            log, schedule := UpdateToolCall(calls, k, partial, outcomes, base, log, schedule);
          } else if !accepting[k] {
            var outcome := FinalizeToolCall();
            outcomes, log, schedule := EndToolCall(calls, outcomes, k, outcome, base, log, schedule);
          }
        }
      }
      status := Completed;
    }

    // The results of a finished batch, in the order of the calls.
    method DeliverToolResults(calls: seq<ToolCall>, outcomes: seq<Outcome>,
                              ghost base: Trace, ghost before: Trace, ghost scheduled: seq<nat>)
        returns (results: seq<Message>, ghost log: Trace, ghost schedule: seq<nat>)
      requires Delivering(calls, outcomes, 0, before, scheduled) && Ended(before) == [] && trace == base + before
      modifies `trace
      ensures trace == base + log && Batch(calls, outcomes, results, log, schedule)
    {
      results, log, schedule := [], before, scheduled;
      for i := 0 to |calls|
        invariant trace == base + log && |results| == i && Ended(log) == results
        invariant forall k :: 0 <= k < i ==> results[k] == ResultOf(calls[k], outcomes[k])
        invariant Delivering(calls, outcomes, i, log, schedule)
      {
        Deliver(calls, outcomes, i, log, schedule);
        var result := EmitToolResult(calls[i], outcomes[i]);
        EndedPair(log, result, {});
        results, log, schedule := results + [result], log + Pair(result), schedule + Only(2, i);
      }
    }

    method ExecuteToolCallsParallel(calls: seq<ToolCall>)
        returns (status: Status, outcomes: seq<Outcome>, results: seq<Message>, ghost log: Trace,
                 ghost schedule: seq<nat>, ghost delivered: nat, ghost known: seq<Option<Outcome>>)
      modifies `trace, `aborted, `budget
      ensures trace == old(trace) + log && (old(aborted) ==> aborted) && budget <= old(budget)
      ensures status in {Completed, UnderWay}
      ensures status == Completed ==> |outcomes| == |calls| && Batch(calls, outcomes, results, log, schedule)
      ensures status == UnderWay ==> Unfinished(calls, delivered, known, log, schedule)
    {
      outcomes, results, log, schedule, delivered, known := [], [], [], [], 0, [];
      var finalizedCalls: seq<Option<Outcome>> := [];
      for i := 0 to |calls|
        invariant trace == old(trace) + log && (old(aborted) ==> aborted) && budget == old(budget)
        invariant |finalizedCalls| == i && Interleaved(calls, finalizedCalls, log, schedule)
      {
        finalizedCalls, log, schedule := StartToolCall(calls, finalizedCalls, old(trace), log, schedule);
      }
      status, finalizedCalls, log, schedule := RunPreparedToolCalls(calls, finalizedCalls, old(trace), log, schedule);
      if status == Completed {
        outcomes := seq(|calls|, k requires 0 <= k < |finalizedCalls| && finalizedCalls[k].Some? =>
          finalizedCalls[k].value);
        AllOver(calls, finalizedCalls, log, schedule, outcomes);
        results, log, schedule := DeliverToolResults(calls, outcomes, old(trace), log, schedule);
      } else {
        InterleavedUnfinished(calls, finalizedCalls, log, schedule);
        known := finalizedCalls;
      }
    }

    // Sequential if the configuration or one of the tools asks for it.
    method ExecuteToolCalls(calls: seq<ToolCall>)
        returns (status: Status, outcomes: seq<Outcome>, results: seq<Message>, ghost log: Trace,
                 ghost schedule: seq<nat>, ghost delivered: nat, ghost known: seq<Option<Outcome>>)
      modifies `trace, `aborted, `budget
      ensures trace == old(trace) + log && (old(aborted) ==> aborted) && budget <= old(budget)
      ensures status in {Completed, UnderWay}
      ensures status == Completed ==>
        && |outcomes| <= |calls| && (|outcomes| < |calls| ==> aborted)
        && Batch(calls[..|outcomes|], outcomes, results, log, schedule)
      ensures status == UnderWay ==> Unfinished(calls, delivered, known, log, schedule)
    {
      if * {
        status, outcomes, results, log, schedule, delivered, known := ExecuteToolCallsSequential(calls);
      } else {
        status, outcomes, results, log, schedule, delivered, known := ExecuteToolCallsParallel(calls);
        assert calls[..|calls|] == calls;
      }
    }

    // ---------- The assistant's message ----------

    // Closes the message with what is known of it, or opens and closes it if it never began.
    method FinishMessage(message: Message, addedPartial: bool, ghost begun: Message, ghost partials: seq<Message>,
                         ghost base: Trace, ghost before: seq<Message>)
        returns (ghost begun': Message)
      requires Speaking(addedPartial, begun, partials, base, before)
      modifies `messages, `trace
      ensures messages == before + [message] && trace == base + Spoken(begun', partials, message)
    {
      begun' := begun;
      if addedPartial {
        messages := messages[|messages| - 1 := message];
      } else {
        messages := messages + [message];
        Emit(MessageStart(message));
        begun' := message;
      }
      Emit(MessageEnd(message));
    }

    // What is known of the message so far.
    function Latest(begun: Message, partials: seq<Message>): Message {
      if partials == [] then begun else partials[|partials| - 1]
    }

    // Before the message begins nothing has happened; then it is the last one of the context, as far as it is known.
    ghost predicate Speaking(addedPartial: bool, begun: Message, partials: seq<Message>, base: Trace,
                             before: seq<Message>)
      reads this
    {
      if addedPartial
      then messages == before + [Latest(begun, partials)]
           && trace == base + [MessageStart(begun)] + Updates(partials)
      else messages == before && trace == base && partials == []
    }

    method FinishAbortedMessage(partial: Option<Message>, addedPartial: bool, ghost begun: Message,
                                ghost partials: seq<Message>, ghost base: Trace, ghost before: seq<Message>)
        returns (message: Message, ghost begun': Message)
      requires Speaking(addedPartial, begun, partials, base, before)
      requires partial == if addedPartial then Some(Latest(begun, partials)) else None
      modifies `messages, `trace
      ensures message.Assistant? && message.stopReason == Aborted && message.errorMessage.Some?
      ensures message.parts == if addedPartial && Latest(begun, partials).Assistant? then Latest(begun, partials).parts
                               else [Text("")]
      ensures messages == before + [message] && trace == base + Spoken(begun', partials, message)
    {
      var parts := if partial.Some? && partial.value.Assistant? then partial.value.parts else [Text("")];
      message := Assistant(parts, Aborted, Some("Request was aborted"));
      begun' := FinishMessage(message, addedPartial, begun, partials, base, before);
    }

    // Something awaited in a race with the signal: it completes, loses the race, or fails.
    method Race() returns (status: Status)
      modifies `aborted
      ensures (old(aborted) ==> aborted) && status in {Completed, Interrupted, Threw}
      ensures (old(aborted) ==> status == Interrupted) && (status == Interrupted ==> aborted)
    {
      var succeeds: bool := *;
      status := Settle(succeeds);
    }

    // The end of a race with something that succeeds or fails.
    method Settle(succeeds: bool) returns (status: Status)
      modifies `aborted
      ensures (old(aborted) ==> aborted) && status in {Completed, Interrupted, Threw}
      ensures (old(aborted) ==> status == Interrupted) && (status == Interrupted ==> aborted)
      ensures status != Interrupted ==> status == if succeeds then Completed else Threw
    {
      if aborted {
        return Interrupted;
      }
      Await();
      var loses: bool := *;
      if aborted && loses {
        return Interrupted;
      }
      status := if succeeds then Completed else Threw;
    }

    method AnyAssistantMessage() returns (message: Message)
      ensures message.Assistant?
    {
      var parts: seq<Part>, stopReason: StopReason, errorMessage: Option<string> := *, *, *;
      message := Assistant(parts, stopReason, errorMessage);
    }

    // The partial message is the latest one.
    predicate IsLatest(partialMessage: Option<Message>, begun: Message, partials: seq<Message>) {
      partialMessage.Some? ==> partialMessage.value == Latest(begun, partials)
    }

    // One partial message. A stream begins at most once, and a delta before it began is ignored.
    method StreamPartial(event: StreamEvent, partialMessage: Option<Message>, ghost begun: Message,
                         ghost partials: seq<Message>, ghost base: Trace, ghost before: seq<Message>)
        returns (partialMessage': Option<Message>, ghost begun': Message, ghost partials': seq<Message>)
      requires Speaking(partialMessage.Some?, begun, partials, base, before) && (event.Begins? || event.Delta?)
      requires IsLatest(partialMessage, begun, partials)
      modifies `messages, `trace
      ensures Speaking(partialMessage'.Some?, begun', partials', base, before)
      ensures IsLatest(partialMessage', begun', partials')
    {
      partialMessage', begun', partials' := partialMessage, begun, partials;
      if event.Begins? && partialMessage == None {
        partialMessage' := Some(event.partial);
        begun' := event.partial;
        messages := messages + [event.partial];
        Emit(MessageStart(event.partial));
        assert Updates([]) == [];
      } else if event.Delta? && partialMessage.Some? {
        partialMessage' := Some(event.partial);
        partials' := partials + [event.partial];
        messages := messages[|messages| - 1 := event.partial];
        Emit(MessageUpdate(event.partial));
        assert Updates(partials') == Updates(partials) + [MessageUpdate(event.partial)];
      }
    }

    // However the stream ends or the signal is raised, one message is opened and closed, and it is the last one
    // of the context.
    method StreamAssistantResponse()
        returns (status: Status, message: Message, ghost begun: Message, ghost partials: seq<Message>,
                 ghost spoke: bool)
      modifies `messages, `trace, `aborted, `budget
      ensures (old(aborted) ==> aborted) && budget <= old(budget) && status in {Completed, Threw, UnderWay}
      ensures status == Completed ==>
        && message.Assistant? && messages == old(messages) + [message]
        && trace == old(trace) + Spoken(begun, partials, message)
      ensures status != Completed ==> Speaking(spoke, begun, partials, old(trace), old(messages))
    {
      ghost var base, before := trace, messages;
      var partialMessage: Option<Message> := None;
      message, begun, partials, spoke := Input("", false), Input("", false), [], false;
      status := Race();
      while status == Completed
        invariant (old(aborted) ==> aborted) && budget <= old(budget)
        invariant status in {Completed, Interrupted, Threw}
        invariant Speaking(partialMessage.Some?, begun, partials, base, before)
        invariant IsLatest(partialMessage, begun, partials)
        decreases budget, status == Completed
      {
        status := Race();
        if status != Completed {
          break;
        }
        if budget == 0 {
          return UnderWay, message, begun, partials, partialMessage.Some?;
        }
        budget := budget - 1;
        var event: StreamEvent := *;
        if event.Begins? || event.Delta? {
          partialMessage, begun, partials := StreamPartial(event, partialMessage, begun, partials, base, before);
        } else {
          message := AnyAssistantMessage();
          status := Race();
          if status == Completed {
            message := AnyAssistantMessage();
          }
          if status == Completed || (status == Interrupted && event.Terminal?) {
            begun := FinishMessage(message, partialMessage.Some?, begun, partials, base, before);
            return Completed, message, begun, partials, true;
          }
          break;
        }
      }
      if status == Interrupted {
        message, begun := FinishAbortedMessage(partialMessage, partialMessage.Some?, begun, partials, base, before);
        status := Completed;
      }
      spoke := partialMessage.Some?;
    }

    // ---------- Polls ----------

    // What has been drained from the queues since the run began is what the polls of the loop brought, and what
    // the last poll had drained if it lost its race with the signal.
    ghost predicate Linked()
      reads `polls, `lost, `steeringBefore, `followUpsBefore, steering, followUps
    {
      && steering != followUps && steering.Valid() && followUps.Valid()
      && steering.drained == steeringBefore + PolledFrom(polls, Steering) + LostBy(lost, Steering)
      && followUps.drained == followUpsBefore + PolledFrom(polls, FollowUps) + LostBy(lost, FollowUps)
    }

    // Only the signal makes a poll lose its race, and no turn begins after that.
    ghost predicate LostLast()
      reads `lost, `turns, `aborted
    {
      lost.Some? ==> aborted && lost.value.turn == |turns|
    }

    // Between two polls anyone may queue more messages or clear the queue.
    method OthersUse(queue: PendingMessages.PendingMessageQueue<Message>)
      requires queue.Valid()
      modifies queue
      ensures queue.Valid() && queue.drained == old(queue.drained)
    {
      var times: int := *;
      for i := 0 to Max(times, 0)
        invariant queue.Valid() && queue.drained == old(queue.drained)
      {
        if * {
          var batch: seq<Message> := *;
          queue.Enqueue(batch);
        } else {
          queue.Clear();
        }
      }
    }

    // Where the answer to a poll comes from: the queues, or the continuation hook.
    method Ask(source: Source) returns (messages: seq<Message>)
      requires steering != followUps && steering.Valid() && followUps.Valid()
      modifies `skipInitialSteeringPoll, steering, followUps
      ensures steering.Valid() && followUps.Valid()
      ensures steering.drained == old(steering.drained) + if source == Steering then messages else []
      ensures followUps.drained == old(followUps.drained) + if source == FollowUps then messages else []
    {
      match source
      case Steering =>
        if skipInitialSteeringPoll {
          skipInitialSteeringPoll := false;
          messages := [];
        } else {
          messages := steering.Drain();
        }
      case FollowUps => messages := followUps.Drain();
      case Continuations => messages := *;
    }

    // Nothing is asked once the signal is raised; an answer that loses the race with it is lost.
    method PollMessages(source: Source) returns (status: Status, answer: seq<Message>)
      requires Linked() && lost == None
      modifies `aborted, `lost, `skipInitialSteeringPoll, steering, followUps
      ensures (old(aborted) ==> aborted) && status in {Completed, Interrupted, Threw}
      ensures status == Interrupted <==> lost.Some?
      ensures lost.Some? ==> lost.value.source == source && (old(aborted) ==> source == Continuations)
      ensures if status == Completed then Brought(source, answer) else Linked() && LostLast()
    {
      answer := [];
      if aborted && source != Continuations {
        return Completed, answer;
      }
      OthersUse(steering);
      OthersUse(followUps);
      var answers: bool := *;
      var messages := [];
      if answers {
        messages := Ask(source);
      }
      status := Settle(answers);
      if status == Completed {
        answer := messages;
      } else if status == Interrupted {
        LoseAnswer(source, messages);
      }
    }

    ghost method LoseAnswer(source: Source, messages: seq<Message>)
      requires Brought(source, messages) && aborted
      modifies `lost
      ensures Linked() && LostLast() && lost == Some(Poll(source, |turns|, messages))
    {
      lost := Some(Poll(source, |turns|, messages));
    }

    // The queues have been asked, and the poll is about to be recorded.
    ghost predicate Brought(source: Source, answer: seq<Message>)
      reads `polls, `lost, `steeringBefore, `followUpsBefore, steering, followUps
    {
      && steering != followUps && steering.Valid() && followUps.Valid() && lost == None
      && steering.drained == steeringBefore + PolledFrom(polls, Steering) + (if source == Steering then answer else [])
      && followUps.drained
         == followUpsBefore + PolledFrom(polls, FollowUps) + (if source == FollowUps then answer else [])
    }

    // ---------- Turns ----------

    // The context is what it was at first, then all new messages; nothing that was polled is missing.
    ghost predicate Kept(open: seq<Message>, injected: seq<Message>, pending: seq<Message>)
      reads `messages, `newMessages, `initial, `prompts, `turns, `polls
    {
      && newMessages == AllAdded(turns) + open && messages == initial + newMessages && Accounted(injected, pending)
    }

    ghost predicate Accounted(injected: seq<Message>, pending: seq<Message>)
      reads `prompts, `turns, `polls
    {
      && prompts + Polled(polls) == AllInjected(turns) + injected + pending
      && Disciplined(polls, turns) && Lead(prompts, turns, injected)
    }

    // The run was broken off here, with these messages still to be injected.
    ghost predicate Stranded()
      reads `trace, `prompts, `turns, `polls, `rest, `left
    {
      BrokenOff(trace, prompts, turns, polls, rest, left)
    }

    ghost method Strand(here: Rest, pending: seq<Message>)
      requires BrokenOff(trace, prompts, turns, polls, here, pending)
      modifies `rest, `left
      ensures Stranded() && rest == here && left == pending
    {
      rest, left := here, pending;
    }

    ghost method StrandOpen(injected: seq<Message>, pending: seq<Message>)
      requires Open(injected, pending)
      modifies `rest, `left
      ensures Stranded() && !rest.Acting? && left == pending
    {
      hide Settled, Disciplined, Lead;
      Strand(Opened(injected), pending);
    }

    ghost method StrandBetween(pending: seq<Message>)
      requires Between(pending)
      modifies `rest, `left
      ensures Stranded() && !rest.Acting? && left == pending
    {
      hide Settled, Disciplined, Lead;
      assert [AgentStart] + AllEvents(turns) + [] == [AgentStart] + AllEvents(turns);
      Strand(Idle, pending);
    }

    ghost method StrandReady(firstTurn: bool, pending: seq<Message>)
      requires Ready(firstTurn, pending)
      modifies `rest, `left
      ensures Stranded() && !rest.Acting? && left == pending
    {
      hide Open, Between;
      if firstTurn {
        StrandOpen(prompts, pending);
      } else {
        StrandBetween(pending);
      }
    }

    // A turn has been opened and messages have been injected into it.
    ghost predicate Open(injected: seq<Message>, pending: seq<Message>)
      reads `messages, `newMessages, `trace, `initial, `prompts, `turns, `polls
    {
      && trace == [AgentStart] + AllEvents(turns) + ([TurnStart] + Pairs(injected))
      && Settled(turns) && Due(turns, injected, pending) && Kept(injected, injected, pending)
    }

    // All turns are over, and another one may follow.
    ghost predicate Shut()
      reads `trace, `turns, `newMessages, `messages, `initial
    {
      && trace == [AgentStart] + AllEvents(turns) && Settled(turns)
      && newMessages == AllAdded(turns) + [] && messages == initial + newMessages
    }

    ghost predicate Between(pending: seq<Message>)
      reads `messages, `newMessages, `trace, `initial, `prompts, `turns, `polls
    {
      Shut() && Accounted([], pending)
    }

    // The last turn is over; it may have failed or been cut short.
    ghost predicate Over()
      reads `messages, `newMessages, `trace, `aborted, `initial, `prompts, `turns, `polls
    {
      && trace == [AgentStart] + AllEvents(turns) && turns != []
      && GoodTurns(turns) && (Complete(turns[|turns| - 1]) || Stopped(turns[|turns| - 1].message) || aborted)
      && Kept([], [], [])
    }

    // A run ends when the answer failed, the signal was raised, a stop check said so, or when there is nothing
    // left to do: no tool results, no steering, no follow-ups and no continuations.
    ghost predicate Concluded()
      reads `aborted, `turns, `polls, `stopRequested
    {
      && turns != []
      && (aborted || stopRequested || Stopped(turns[|turns| - 1].message)
          || (polls != [] && polls[|polls| - 1] == Poll(Continuations, |turns|, [])))
    }

    /** A finished run: `agent_start`, the turns, one `agent_end`; every message is accounted for, and there was a
        reason to end. */
    ghost predicate Finished()
      reads `messages, `newMessages, `trace, `aborted, `initial, `prompts, `turns, `polls, `stopRequested
    {
      && Concluded()
      && trace == [AgentStart] + AllEvents(turns) + [AgentEnd(newMessages)] && turns != []
      && GoodTurns(turns) && (Complete(turns[|turns| - 1]) || Stopped(turns[|turns| - 1].message) || aborted)
      && Kept([], [], [])
    }

    /** In a finished run every answer that neither failed nor was aborted has run its calls, the last one unless the
        signal was raised; and one that failed or was aborted is the last. */
    lemma FinishedRunsItsCalls(i: nat) returns (at: seq<nat>)
      requires Finished() && i < |turns|
      ensures i < |turns| - 1 || !aborted ==>
        var reason := turns[i].message.stopReason;
        reason != Failed && reason != StopReason.Aborted ==> RunsItsCalls(turns[i], at)
      ensures turns[i].message.stopReason == Failed || turns[i].message.stopReason == StopReason.Aborted ==>
        i == |turns| - 1 && Begun(TurnEvents(turns[i])) == [] && turns[i].results == []
    {
      hide RunsItsCalls, Batch, TurnEvents;
      at := [];
      var t := turns[i];
      if t.message.stopReason == Failed || t.message.stopReason == StopReason.Aborted {
        StoppedTurnRunsNothing(t);
      } else if i < |turns| - 1 || !aborted {
        at := TurnRunsItsCalls(t);
      }
    }

    method EndRun()
      requires Over() && Concluded()
      modifies `trace
      ensures Finished()
    {
      hide GoodTurns, Disciplined, Concluded;
      Emit(AgentEnd(newMessages));
    }

    method InjectMessage(message: Message, ghost injected: seq<Message>, ghost rest: seq<Message>)
      requires Open(injected, [message] + rest)
      modifies `messages, `newMessages, `trace
      ensures Open(injected + [message], rest)
    {
      hide Settled, Disciplined;
      Emit(MessageStart(message));
      Emit(MessageEnd(message));
      messages := messages + [message];
      newMessages := newMessages + [message];
      OpenGrows([AgentStart] + AllEvents(turns), injected, message);
      AccountGrows(AllInjected(turns), injected, message, rest);
      AccountGrows(AllAdded(turns), injected, message, []);
      AccountGrows(initial, old(newMessages), message, []);
      LeadGrows(prompts, turns, injected, message);
    }

    method InjectPending(pending: seq<Message>, ghost injected: seq<Message>)
      requires Open(injected, pending)
      modifies `messages, `newMessages, `trace
      ensures Open(injected + pending, [])
    {
      hide Open;
      assert injected + pending[..0] == injected && pending[0..] == pending;
      for i := 0 to |pending|
        invariant Open(injected + pending[..i], pending[i..])
      {
        assert pending[i..] == [pending[i]] + pending[i + 1..];
        TakeNext(pending, i);
        ConcatAssociates(injected, pending[..i], [pending[i]]);
        InjectMessage(pending[i], injected + pending[..i], pending[i + 1..]);
      }
      assert pending[..|pending|] == pending && pending[|pending|..] == [];
    }

    // The assistant has answered in the open turn.
    ghost predicate Answered(injected: seq<Message>, begun: Message, partials: seq<Message>, message: Message)
      reads `messages, `newMessages, `trace, `initial, `prompts, `turns, `polls
    {
      && trace == [AgentStart] + AllEvents(turns) + ([TurnStart] + Pairs(injected)) + Spoken(begun, partials, message)
      && newMessages == AllAdded(turns) + injected + [message] && messages == initial + newMessages
      && Settled(turns) && Due(turns, injected, []) && Accounted(injected, []) && message.Assistant?
    }

    method Answer(ghost injected: seq<Message>)
        returns (status: Status, message: Message, ghost begun: Message, ghost partials: seq<Message>)
      requires Open(injected, [])
      modifies `messages, `newMessages, `trace, `aborted, `budget, `rest, `left
      ensures (old(aborted) ==> aborted) && budget <= old(budget) && status in {Completed, Threw, UnderWay}
      ensures status == Completed ==> Answered(injected, begun, partials, message)
      ensures status != Completed ==> Stranded() && !rest.Acting? && left == []
    {
      hide Settled, Disciplined, Lead;
      ghost var base := trace;
      ghost var spoke;
      status, message, begun, partials, spoke := StreamAssistantResponse();
      if status == Completed {
        newMessages := newMessages + [message];
        ConcatAssociates(initial, old(newMessages), [message]);
      } else {
        StrandAnswer(injected, spoke, begun, partials);
      }
    }

    ghost method StrandAnswer(injected: seq<Message>, spoke: bool, begun: Message, partials: seq<Message>)
      requires Settled(turns) && Accounted(injected, [])
      requires var base := [AgentStart] + AllEvents(turns) + ([TurnStart] + Pairs(injected));
        trace == if spoke then base + [MessageStart(begun)] + Updates(partials) else base
      modifies `rest, `left
      ensures Stranded() && !rest.Acting? && left == []
    {
      hide Settled, Disciplined, Lead;
      if spoke {
        ghost var head, open := [AgentStart] + AllEvents(turns), [TurnStart] + Pairs(injected);
        ConcatAssociates(head, open, [MessageStart(begun)]);
        ConcatAssociates(head, open + [MessageStart(begun)], Updates(partials));
        Strand(Rest.Speaking(injected, begun, partials), []);
      } else {
        Strand(Opened(injected), []);
      }
    }

    method AddResults(results: seq<Message>)
      modifies `messages, `newMessages
      ensures messages == old(messages) + results && newMessages == old(newMessages) + results
    {
      for i := 0 to |results|
        invariant messages == old(messages) + results[..i] && newMessages == old(newMessages) + results[..i]
      {
        TakeNext(results, i);
        messages := messages + [results[i]];
        newMessages := newMessages + [results[i]];
      }
      assert results[..|results|] == results;
    }

    // The results join the transcript and the turn ends.
    method CloseTurn(message: Message, results: seq<Message>, ghost t: Turn)
      requires Good(t) && t.message == message && t.results == results
      requires trace == [AgentStart] + AllEvents(turns) + ([TurnStart] + Pairs(t.injected))
                        + Spoken(t.begun, t.partials, t.message) + t.toolEvents
      requires newMessages == AllAdded(turns) + t.injected + [t.message] && messages == initial + newMessages
      requires Settled(turns) && Due(turns, t.injected, []) && Accounted(t.injected, [])
      requires Complete(t) || Stopped(t.message) || aborted
      modifies `messages, `newMessages, `trace, `turns
      ensures turns == old(turns) + [t] && Over()
    {
      AddResults(results);
      ConcatAssociates(initial, old(newMessages), results);
      Emit(TurnEnd(message, results));
      RecordTurn(t);
    }

    ghost method RecordTurn(t: Turn)
      requires Good(t) && Settled(turns) && Due(turns, t.injected, []) && Accounted(t.injected, [])
      requires trace == [AgentStart] + AllEvents(turns) + ([TurnStart] + Pairs(t.injected))
                        + Spoken(t.begun, t.partials, t.message) + t.toolEvents + [TurnEnd(t.message, t.results)]
      requires newMessages == AllAdded(turns) + t.injected + [t.message] + t.results
        && messages == initial + newMessages
      requires Complete(t) || Stopped(t.message) || aborted
      modifies `turns
      ensures turns == old(turns) + [t] && Over()
    {
      hide Good, Complete, Stopped, Settled, Disciplined, Lead, Due;
      TurnCloses(turns, t);
      TurnAdded(turns, t);
      GoodTurnAdded(turns, t);
      TurnKeepsPolls(polls, turns, t);
      LeadStays(prompts, turns, t);
      turns := turns + [t];
      assert AllAdded(turns) + [] == AllAdded(turns);
      assert AllInjected(turns) + [] + [] == AllInjected(turns);
      assert AllInjected(old(turns)) + t.injected + [] == AllInjected(turns);
    }

    // The first turn is opened with the prompts, before the loop begins.
    ghost predicate Ready(firstTurn: bool, pending: seq<Message>)
      reads `messages, `newMessages, `trace, `initial, `prompts, `turns, `polls
    {
      if firstTurn then Open(prompts, pending) && turns == []
      else Between(pending) && turns != [] && Due(turns, [], pending)
    }

    method StartTurn(firstTurn: bool, pending: seq<Message>)
      requires Ready(firstTurn, pending)
      modifies `trace
      ensures Open(if firstTurn then prompts else [], pending)
    {
      if !firstTurn {
        Emit(TurnStart);
        assert AllAdded(turns) + [] == AllAdded(turns);
        assert [TurnStart] + Pairs([]) == [TurnStart];
      }
    }

    // The tool calls of the answer, or none if it failed or was aborted.
    method Act(message: Message, ghost injected: seq<Message>, ghost begun: Message, ghost partials: seq<Message>)
        returns (status: Status, hasMoreToolCalls: bool)
      requires Answered(injected, begun, partials, message)
      modifies `messages, `newMessages, `trace, `turns, `aborted, `budget, `rest, `left
      ensures (old(aborted) ==> aborted) && budget <= old(budget) && status in {Completed, UnderWay}
      ensures status == UnderWay ==> Stranded() && left == []
      ensures status == Completed ==>
        && |turns| == |old(turns)| + 1 && turns[|turns| - 1].message == message && Over()
        && hasMoreToolCalls == More(turns[|turns| - 1])
    {
      if Stopped(message) {
        NoTools();
        hasMoreToolCalls := false;
        CloseTurn(message, [], Turn(injected, begun, partials, message, [], [], [], []));
        status := Completed;
      } else {
        status, hasMoreToolCalls := RunTools(message, injected, begun, partials);
      }
    }

    method RunTools(message: Message, ghost injected: seq<Message>, ghost begun: Message, ghost partials: seq<Message>)
        returns (status: Status, hasMoreToolCalls: bool)
      requires Answered(injected, begun, partials, message) && !Stopped(message)
      modifies `messages, `newMessages, `trace, `turns, `aborted, `budget, `rest, `left
      ensures (old(aborted) ==> aborted) && budget <= old(budget) && status in {Completed, UnderWay}
      ensures status == UnderWay ==> Stranded() && left == []
      ensures status == Completed ==>
        && |turns| == |old(turns)| + 1 && turns[|turns| - 1].message == message && Over()
        && hasMoreToolCalls == More(turns[|turns| - 1])
    {
      hide Disciplined, Settled, Over;
      var toolCalls := ToolCalls(message.parts);
      var outcomes, toolResults;
      ghost var log, schedule, delivered, known;
      status, outcomes, toolResults, log, schedule, delivered, known := RunBatch(toolCalls);
      hasMoreToolCalls := |toolCalls| > 0 && !Terminates(outcomes);
      if status == Completed {
        CloseTurn(message, toolResults, Turn(injected, begun, partials, message, outcomes, toolResults, log, schedule));
      } else {
        StrandBatch(Acting(injected, begun, partials, message, delivered, known, log, schedule));
      }
    }

    ghost method StrandBatch(here: Rest)
      requires here.Acting? && GoodRest(here) && Settled(turns) && Accounted(here.injected, [])
      requires trace == [AgentStart] + AllEvents(turns) + ([TurnStart] + Pairs(here.injected))
                        + Spoken(here.begun, here.partials, here.message) + here.toolEvents
      modifies `rest, `left
      ensures Stranded() && left == []
    {
      hide Settled, Disciplined, Lead, GoodRest;
      ghost var head, open := [AgentStart] + AllEvents(turns), [TurnStart] + Pairs(here.injected);
      ghost var said := Spoken(here.begun, here.partials, here.message);
      ConcatAssociates(head, open, said);
      ConcatAssociates(head, open + said, here.toolEvents);
      Strand(here, []);
    }

    method RunBatch(calls: seq<ToolCall>)
        returns (status: Status, outcomes: seq<Outcome>, results: seq<Message>, ghost log: Trace,
                 ghost schedule: seq<nat>, ghost delivered: nat, ghost known: seq<Option<Outcome>>)
      modifies `trace, `aborted, `budget
      ensures trace == old(trace) + log && (old(aborted) ==> aborted) && budget <= old(budget)
      ensures status in {Completed, UnderWay}
      ensures status == Completed ==>
        && |outcomes| <= |calls| && (|outcomes| < |calls| ==> aborted)
        && Batch(calls[..|outcomes|], outcomes, results, log, schedule)
      ensures status == UnderWay ==> Unfinished(calls, delivered, known, log, schedule)
    {
      if |calls| > 0 {
        status, outcomes, results, log, schedule, delivered, known := ExecuteToolCalls(calls);
      } else {
        NoTools();
        status, outcomes, results, log, schedule, delivered, known := Completed, [], [], [], [], 0, [];
      }
    }

    method RunTurn(firstTurn: bool, pending: seq<Message>)
        returns (status: Status, message: Message, hasMoreToolCalls: bool)
      requires Ready(firstTurn, pending)
      modifies `messages, `newMessages, `trace, `turns, `aborted, `budget, `rest, `left
      ensures (old(aborted) ==> aborted) && budget <= old(budget) && status in {Completed, Threw, UnderWay}
      ensures status != Completed ==> Stranded() && left == [] && (status == Threw ==> !rest.Acting?)
      ensures status == Completed ==>
        && turns != [] && turns[|turns| - 1].message == message && Over()
        && hasMoreToolCalls == More(turns[|turns| - 1])
    {
      hide Over, Open, Between, Answered;
      message, hasMoreToolCalls := Input("", false), true;
      ghost var injected := if firstTurn then prompts else [];
      StartTurn(firstTurn, pending);
      InjectPending(pending, injected);
      ghost var begun, partials;
      status, message, begun, partials := Answer(injected + pending);
      if status == Completed {
        status, hasMoreToolCalls := Act(message, injected + pending, begun, partials);
      }
    }

    // ---------- Between turns ----------

    ghost method RecordPoll(source: Source, answer: seq<Message>)
      requires Accounted([], []) && Brought(source, answer)
      requires InTurn(polls + [Poll(source, |turns|, answer)], |polls|, turns)
      modifies `polls
      ensures Accounted([], answer) && Linked() && lost == None && polls == old(polls) + [Poll(source, |turns|, answer)]
    {
      PollAdded(polls, Poll(source, |turns|, answer), turns);
      ConcatAssociates(prompts, Polled(polls), answer);
      assert AllInjected(turns) + [] + [] == AllInjected(turns) + [];
      LinkPoll(source, answer);
    }

    ghost method LinkPoll(source: Source, answer: seq<Message>)
      requires Brought(source, answer)
      modifies `polls
      ensures Linked() && lost == None && polls == old(polls) + [Poll(source, |turns|, answer)]
    {
      hide PolledFrom, PendingMessages.PendingMessageQueue.Valid;
      var poll := Poll(source, |turns|, answer);
      PolledFromSnoc(polls, poll, Steering);
      PolledFromSnoc(polls, poll, FollowUps);
      ConcatAssociates(steeringBefore, PolledFrom(polls, Steering), answer);
      ConcatAssociates(followUpsBefore, PolledFrom(polls, FollowUps), answer);
      polls := polls + [poll];
    }

    method ShouldStop() returns (stops: bool)
      modifies `stopRequested
      ensures stopRequested <==> old(stopRequested) || stops
    {
      stops := *;
      stopRequested := stopRequested || stops;
    }

    // A run may end between two turns.
    method EndBetween()
      requires Between([]) && Concluded()
      modifies `trace
      ensures Finished()
    {
      EndRun();
    }

    method PollSteering() returns (status: Status, pending: seq<Message>)
      requires Between([]) && turns != [] && Linked() && lost == None
      modifies `polls, `aborted, `lost, `skipInitialSteeringPoll, steering, followUps
      ensures (old(aborted) ==> aborted) && status in {Completed, Interrupted, Threw}
        && (status == Interrupted ==> aborted)
      ensures Between(if status == Completed then pending else [])
      ensures status == Completed ==> polls == old(polls) + [Poll(Steering, |turns|, pending)]
      ensures Linked() && LostLast() && (status == Interrupted <==> lost.Some?)
    {
      hide Shut, Accounted, Brought, Linked;
      status, pending := PollMessages(Steering);
      if status == Completed {
        RecordPoll(Steering, pending);
      }
    }

    method StopsAfterTurn() returns (status: Status, stops: bool)
      requires Between([])
      modifies `aborted, `stopRequested
      ensures (old(aborted) ==> aborted) && status in {Completed, Interrupted, Threw}
        && (status == Interrupted ==> stops)
      ensures Between([]) && (stops ==> aborted || stopRequested)
    {
      hide Settled, Disciplined;
      status := Race();
      stops := ShouldStop();
      stops := stops || status == Interrupted;
    }

    // What is polled here owns the turn boundary: the run stops only if it was nothing.
    method SteerAfterTurn() returns (status: Status, ended: bool, pending: seq<Message>)
      requires Between([]) && turns != [] && Linked() && lost == None
      modifies `trace, `polls, `aborted, `lost, `stopRequested, `skipInitialSteeringPoll, steering, followUps
      ensures (old(aborted) ==> aborted) && status in {Completed, Threw}
      ensures status == Completed && ended ==> Finished()
      ensures status == Completed && !ended ==> Between(pending)
      ensures status == Completed && !ended ==> polls != [] && polls[|polls| - 1] == Poll(Steering, |turns|, pending)
      ensures status == Threw ==> Between([])
      ensures Linked() && LostLast() && (lost.Some? ==> status == Completed && ended)
    {
      hide Between, Finished, Linked, LostLast;
      ended := false;
      status, pending := PollSteering();
      if status == Threw {
        return;
      }
      var stops := pending == [];
      if stops {
        stops := ShouldStop();
      }
      if status == Interrupted || stops {
        EndBetween();
        return Completed, true, [];
      }
    }

    // The stop checks after a turn, and the steering poll between them.
    method AfterTurn() returns (status: Status, ended: bool, pending: seq<Message>)
      requires Between([]) && turns != [] && Linked() && lost == None
      modifies `trace, `polls, `aborted, `lost, `stopRequested, `skipInitialSteeringPoll, steering, followUps
      ensures (old(aborted) ==> aborted) && status in {Completed, Threw}
      ensures status == Completed && ended ==> Finished()
      ensures status == Completed && !ended ==> Between(pending)
      ensures status == Completed && !ended ==> polls != [] && polls[|polls| - 1] == Poll(Steering, |turns|, pending)
      ensures status == Threw ==> Between([])
      ensures Linked() && LostLast() && (lost.Some? ==> status == Completed && ended)
    {
      hide Between, Finished, Linked;
      pending := [];
      status, ended := StopsAfterTurn();
      if status != Threw {
        if ended {
          EndBetween();
          status := Completed;
        } else {
          status, ended, pending := SteerAfterTurn();
        }
      }
    }

    /** How messages get lost: after any turn, one is queued and drained by the poll, and the signal is raised before
        the answer is there. The run ends as it should, without it. */
    method LoseSteering(message: Message)
      requires Between([]) && turns != [] && Linked() && lost == None
      modifies `trace, `aborted, `lost, steering
      ensures Finished() && Linked() && turns == old(turns) && polls == old(polls)
      ensures lost.Some? && lost.value.source == Steering && lost.value.messages != []
    {
      hide Between, Finished, PolledFrom, PendingMessages.PendingMessageQueue.Valid;
      steering.Enqueue([message]);
      assert steering.fates[|steering.fates| - 1] == PendingMessages.Waiting;
      var messages := steering.Drain();
      aborted := true;
      LoseAnswer(Steering, messages);
      EndBetween();
    }

    /** Or the poll has answered, and the signal is raised before the next turn begins: the loop throws, with the
        messages in neither the queue nor the transcript. */
    method LeaveSteering(message: Message) returns (status: Status)
      requires Between([]) && turns != [] && Linked() && lost == None
      modifies `aborted, `polls, `rest, `left, steering
      ensures status == Threw && Stranded() && Overtaken(rest, left, aborted, lost) && Linked()
      ensures turns == old(turns) && lost == None
      ensures left != [] && polls == old(polls) + [Poll(Steering, |turns|, left)]
    {
      hide Shut, Stranded, Accounted, InTurn, PolledFrom, PendingMessages.PendingMessageQueue.Valid;
      steering.Enqueue([message]);
      assert steering.fates[|steering.fates| - 1] == PendingMessages.Waiting;
      var messages := steering.Drain();
      RecordPoll(Steering, messages);
      aborted := true;
      StrandBetween(messages);
      status := Threw;
    }

    // ---------- After the last turn ----------

    // No tool call and no steering is left; the follow-ups are next.
    ghost predicate Drained()
      reads `messages, `newMessages, `trace, `initial, `prompts, `turns, `polls
    {
      && Between([]) && turns != [] && !More(turns[|turns| - 1])
      && polls != [] && polls[|polls| - 1] == Poll(Steering, |turns|, [])
    }

    method PollFollowUps() returns (status: Status, answer: seq<Message>)
      requires Drained() && Linked() && lost == None
      modifies `polls, `aborted, `lost, `skipInitialSteeringPoll, steering, followUps
      ensures (old(aborted) ==> aborted) && status in {Completed, Interrupted, Threw}
        && (status == Interrupted ==> aborted)
      ensures Between(if status == Completed then answer else [])
      ensures status == Completed ==> polls == old(polls) + [Poll(FollowUps, |turns|, answer)]
      ensures Linked() && LostLast() && (status == Interrupted <==> lost.Some?)
    {
      hide Shut, Accounted, More, InTurn, Brought, Linked;
      status, answer := PollMessages(FollowUps);
      if status == Completed {
        FollowUpsInTurn(polls, turns, answer);
        RecordPoll(FollowUps, answer);
      }
    }

    method PollContinuations() returns (status: Status, answer: seq<Message>)
      requires Between([]) && turns != [] && polls != [] && polls[|polls| - 1] == Poll(FollowUps, |turns|, [])
      requires Linked() && lost == None
      modifies `polls, `aborted, `lost, `skipInitialSteeringPoll, steering, followUps
      ensures (old(aborted) ==> aborted) && status in {Completed, Interrupted, Threw}
        && (status == Interrupted ==> aborted)
      ensures Between(if status == Completed then answer else [])
      ensures status == Completed ==> polls == old(polls) + [Poll(Continuations, |turns|, answer)]
      ensures Linked() && LostLast() && (status == Interrupted <==> lost.Some?)
    {
      hide Shut, Accounted, Brought, Linked;
      status, answer := PollMessages(Continuations);
      if status == Completed {
        RecordPoll(Continuations, answer);
      }
    }

    // Follow-ups, then continuations; with neither, the run ends.
    method AfterTurns() returns (status: Status, ended: bool, pending: seq<Message>)
      requires Drained() && Linked() && lost == None
      modifies `trace, `polls, `aborted, `lost, `stopRequested, `skipInitialSteeringPoll, steering, followUps
      ensures (old(aborted) ==> aborted) && status in {Completed, Threw}
      ensures status == Completed ==> if ended then Finished() else Between(pending) && pending != []
      ensures status == Threw ==> Between([])
      ensures Linked() && LostLast() && (lost.Some? ==> status == Completed && ended)
    {
      hide Between, Finished, Linked, More;
      ended, pending := true, [];
      var stops := ShouldStop();
      if !stops {
        status, pending := PollFollowUps();
        if status == Threw {
          return;
        }
        if status == Completed && |pending| > 0 {
          return Completed, false, pending;
        }
        if status == Completed {
          stops := ShouldStop();
        }
        if status == Completed && !stops {
          status, pending := PollContinuations();
          if status == Threw {
            return;
          }
          if status == Completed && |pending| > 0 {
            return Completed, false, pending;
          }
        }
      }
      EndBetween();
      status := Completed;
    }

    // One turn and what follows it, up to the next turn or the end of the run.
    method Advance(firstTurn: bool, pending: seq<Message>)
        returns (status: Status, ended: bool, pending': seq<Message>, hasMoreToolCalls: bool)
      requires Ready(firstTurn, pending) && Linked() && lost == None
      modifies `messages, `newMessages, `trace, `turns, `polls, `aborted, `budget, `stopRequested
      modifies `rest, `left, `lost, `skipInitialSteeringPoll, steering, followUps
      ensures (old(aborted) ==> aborted) && budget <= old(budget) && status in {Completed, Threw, UnderWay}
      ensures status == Completed ==> if ended then Finished() else Between(pending') && turns != []
      ensures status == Completed && !ended && hasMoreToolCalls ==> More(turns[|turns| - 1])
      ensures status == Completed && !ended && !hasMoreToolCalls && pending' == [] ==> Drained()
      ensures status != Completed ==> Stranded() && (status == Threw ==> Overtaken(rest, left, aborted, lost))
      ensures Linked() && LostLast() && (lost.Some? ==> status == Completed && ended)
    {
      hide Finished, Over, Accounted, Shut, Stranded;
      ended, pending' := true, [];
      var message;
      status, message, hasMoreToolCalls := RunTurn(firstTurn, pending);
      if status != Completed {
        return;
      }
      if Stopped(message) || aborted {
        EndRun();
        return;
      }
      TurnIsShut();
      status, ended, pending' := AfterTurn();
      if status == Threw {
        StrandBetween([]);
      }
    }

    lemma TurnIsShut()
      requires Over() && !aborted && !Stopped(turns[|turns| - 1].message)
      ensures Between([])
    {
    }

    method RunLoop() returns (status: Status)
      requires Open(prompts, []) && turns == [] && polls == [] && !stopRequested && Linked() && lost == None
      modifies `messages, `newMessages, `trace, `turns, `polls, `aborted, `budget, `stopRequested
      modifies `rest, `left, `lost, `skipInitialSteeringPoll, steering, followUps
      ensures (old(aborted) ==> aborted) && status in {Completed, Threw, UnderWay}
      ensures status == Completed ==> Finished()
      ensures status != Completed ==> Stranded() && (status == Threw ==> Overtaken(rest, left, aborted, lost))
      ensures Linked() && LostLast()
    {
      hide Finished, Between, Open, Linked, LostLast, More, Stranded;
      var firstTurn := true;
      var pendingMessages;
      status, pendingMessages := PollFirstSteering();
      if status != Completed {
        StrandOpen(prompts, []);
        return Threw;
      }
      var ended := false;
      while !ended
        invariant Linked() && LostLast() && (lost == None || ended) && (Ready(firstTurn, pendingMessages) || ended)
        invariant old(aborted) ==> aborted
        invariant ended ==> Finished()
        decreases budget, !ended
      {
        if aborted {
          StrandReady(firstTurn, pendingMessages);
          return Threw;
        }
        var hasMoreToolCalls := true;
        ghost var left := budget;
        while !ended && (hasMoreToolCalls || |pendingMessages| > 0)
          invariant Linked() && LostLast() && (lost == None || ended)
          invariant ended || (firstTurn ==> hasMoreToolCalls && Ready(true, pendingMessages))
          invariant ended || firstTurn || (Between(pendingMessages) && turns != [])
          invariant ended || (hasMoreToolCalls ==> Due(turns, [], pendingMessages))
          invariant old(aborted) ==> aborted
          invariant ended ==> Finished()
          invariant !ended && !hasMoreToolCalls && pendingMessages == [] ==> Drained()
          invariant budget <= left && (hasMoreToolCalls || ended || budget < left)
          decreases budget
        {
          if aborted || budget == 0 {
            StrandReady(firstTurn, pendingMessages);
            return if aborted then Threw else UnderWay;
          }
          budget := budget - 1;
          status, ended, pendingMessages, hasMoreToolCalls := Advance(firstTurn, pendingMessages);
          if status != Completed {
            return;
          }
          firstTurn := false;
        }
        if !ended {
          status, ended, pendingMessages := AfterTurns();
          if status != Completed {
            StrandBetween([]);
            return;
          }
        }
      }
      status := Completed;
    }

    // The steering poll before the first turn; to lose the race with the signal here is an exception.
    method PollFirstSteering() returns (status: Status, pending: seq<Message>)
      requires Open(prompts, []) && turns == [] && polls == [] && Linked() && lost == None
      modifies `polls, `aborted, `lost, `skipInitialSteeringPoll, steering, followUps
      ensures (old(aborted) ==> aborted) && status in {Completed, Interrupted, Threw}
      ensures Open(prompts, if status == Completed then pending else [])
      ensures Linked() && LostLast() && (status == Interrupted <==> lost.Some?)
    {
      hide Open, Linked, Brought;
      status, pending := PollMessages(Steering);
      if status == Completed {
        RecordFirstPoll(pending);
      }
    }

    ghost method RecordFirstPoll(pending: seq<Message>)
      requires Open(prompts, []) && turns == [] && polls == [] && Brought(Steering, pending)
      modifies `polls
      ensures Open(prompts, pending) && Linked() && lost == None
    {
      hide Settled, Linked, Brought, Lead;
      ConcatAssociates(prompts, Polled(polls), pending);
      PollAdded(polls, Poll(Steering, 0, pending), turns);
      LinkPoll(Steering, pending);
    }

    // ---------- A run ----------

    ghost predicate Fresh(context: seq<Message>)
      reads this
    {
      && messages == initial == context && newMessages == prompts == [] && trace == []
      && turns == [] && polls == [] && !stopRequested
    }

    /** A run from prompts. When it returns, it has emitted a well-shaped trace and returns exactly the messages of
        that trace; the context is the initial one followed by them. */
    method RunAgentLoop(newPrompts: seq<Message>) returns (status: Status)
      requires Fresh(messages) && Linked() && lost == None
      modifies `messages, `newMessages, `trace, `prompts, `turns, `polls, `aborted, `budget, `stopRequested
      modifies `rest, `left, `lost, `skipInitialSteeringPoll, steering, followUps
      ensures status in {Completed, Threw, UnderWay} && prompts == newPrompts && Linked() && LostLast()
      ensures status == Completed ==> Finished()
      ensures status != Completed ==> Stranded() && (status == Threw ==> Overtaken(rest, left, aborted, lost))
    {
      hide Finished, Linked, LostLast, Stranded, Open;
      Emit(AgentStart);
      Emit(TurnStart);
      FirstTurnOpens();
      EmitPrompts(newPrompts);
      status := RunLoop();
    }

    /** A run that continues a transcript that does not end in an assistant message. */
    method RunAgentLoopContinue() returns (status: Status)
      requires Fresh(messages) && Linked() && lost == None
      modifies `messages, `newMessages, `trace, `prompts, `turns, `polls, `aborted, `budget, `stopRequested
      modifies `rest, `left, `lost, `skipInitialSteeringPoll, steering, followUps
      ensures status in {Completed, Threw, UnderWay} && prompts == [] && Linked() && LostLast()
      ensures var refused := old(messages) == [] || old(messages)[|old(messages)| - 1].Assistant?;
        if refused then status == Threw && trace == [] && polls == [] && lost == None
        else (status == Completed ==> Finished())
             && (status != Completed ==> Stranded() && (status == Threw ==> Overtaken(rest, left, aborted, lost)))
    {
      hide Finished, Linked, Stranded, Open;
      if |messages| == 0 || messages[|messages| - 1].Assistant? {
        return Threw;
      }
      Emit(AgentStart);
      Emit(TurnStart);
      FirstTurnOpens();
      status := RunLoop();
    }

    lemma FirstTurnOpens()
      requires trace == [AgentStart, TurnStart] && newMessages == prompts == [] && messages == initial
      requires turns == [] && polls == []
      ensures Open([], [])
    {
      assert [AgentStart] + AllEvents([]) + ([TurnStart] + Pairs([])) == [AgentStart, TurnStart];
      assert messages + [] == messages;
    }

    // The prompts are new messages from the start; their events follow.
    method EmitPrompts(newPrompts: seq<Message>)
      requires Open([], []) && prompts == [] && turns == [] && polls == []
      modifies `messages, `newMessages, `trace, `prompts
      ensures Open(prompts, []) && prompts == newPrompts
    {
      hide Settled, Disciplined;
      ghost var head := [AgentStart] + AllEvents(turns);
      messages := messages + newPrompts;
      newMessages := newPrompts;
      for i := 0 to |newPrompts|
        invariant messages == old(messages) + newPrompts && newMessages == newPrompts && prompts == []
        invariant trace == head + ([TurnStart] + Pairs(newPrompts[..i]))
      {
        TakeNext(newPrompts, i);
        OpenGrows(head, newPrompts[..i], newPrompts[i]);
        Emit(MessageStart(newPrompts[i]));
        Emit(MessageEnd(newPrompts[i]));
      }
      assert newPrompts[..|newPrompts|] == newPrompts;
      prompts := newPrompts;
      assert newPrompts + [] == newPrompts && [] + newPrompts == newPrompts;
    }
  }
}
