/** The agent's state is a reduction of the events of its runs (packages/agent/src/agent.ts). */
module AgentState {
  import opened Basics
  import opened AgentEvents
  import opened AgentShape
  import AgentLoop
  import PendingMessages

  datatype State = State(
    messages: seq<Message>, isStreaming: bool, streamingMessage: Option<Message>,
    pendingToolCalls: set<string>, errorMessage: Option<string>)

  function ErrorOf(message: Message): Option<string> {
    if message.Assistant? && message.errorMessage.Some? && message.errorMessage.value != "" then message.errorMessage
    else None
  }

  function Reduce(s: State, event: Event): State {
    match event
    case MessageStart(message) => s.(streamingMessage := Some(message))
    case MessageUpdate(message) => s.(streamingMessage := Some(message))
    case MessageEnd(message) => s.(streamingMessage := None, messages := s.messages + [message])
    case ToolStart(call) => s.(pendingToolCalls := s.pendingToolCalls + {call.id})
    case ToolEnd(call, _) => s.(pendingToolCalls := s.pendingToolCalls - {call.id})
    case TurnEnd(message, _) => if ErrorOf(message).Some? then s.(errorMessage := ErrorOf(message)) else s
    case AgentEnd(_) => s.(streamingMessage := None)
    case _ => s
  }

  function ReduceAll(s: State, trace: Trace): State {
    if trace == [] then s else Reduce(ReduceAll(s, trace[..|trace| - 1]), trace[|trace| - 1])
  }

  lemma {:induction false} ReduceConcat(s: State, a: Trace, b: Trace)
    ensures ReduceAll(s, a + b) == ReduceAll(ReduceAll(s, a), b)
  {
    if b == [] {
      assert a + b == a;
    } else {
      assert (a + b)[..|a + b| - 1] == a + b[..|b| - 1];
      ReduceConcat(s, a, b[..|b| - 1]);
    }
  }

  // The transcript grows by the messages that end; the open tool calls are those of the trace.
  lemma {:induction false} ReducedReads(s: State, trace: Trace)
    ensures var r := ReduceAll(s, trace);
      && r.messages == s.messages + Ended(trace) && r.pendingToolCalls == Pending(trace, s.pendingToolCalls)
      && r.isStreaming == s.isStreaming
  {
    if trace != [] {
      ReducedReads(s, trace[..|trace| - 1]);
    }
  }

  // The last error a turn reported, or the one there was.
  function LastError(turns: seq<Turn>, before: Option<string>): Option<string> {
    if turns == [] then before
    else
      var last := ErrorOf(turns[|turns| - 1].message);
      if last.Some? then last else LastError(turns[..|turns| - 1], before)
  }

  lemma {:induction false} OnlyTurnsReport(s: State, trace: Trace)
    requires forall i :: 0 <= i < |trace| ==> !trace[i].TurnEnd?
    ensures ReduceAll(s, trace).errorMessage == s.errorMessage
  {
    if trace != [] {
      OnlyTurnsReport(s, trace[..|trace| - 1]);
    }
  }

  lemma {:induction false} PairsReportNothing(messages: seq<Message>, i: nat)
    requires i < |Pairs(messages)|
    ensures !Pairs(messages)[i].TurnEnd?
  {
    var before := Pairs(messages[..|messages| - 1]);
    if i < |before| {
      PairsReportNothing(messages[..|messages| - 1], i);
    }
  }

  lemma TurnReports(s: State, t: Turn)
    requires Good(t)
    ensures ReduceAll(s, TurnEvents(t)).errorMessage
         == if ErrorOf(t.message).Some? then ErrorOf(t.message) else s.errorMessage
  {
    var head := [TurnStart] + Pairs(t.injected);
    var said := Spoken(t.begun, t.partials, t.message);
    forall i | 0 <= i < |Pairs(t.injected)| ensures !Pairs(t.injected)[i].TurnEnd? {
      PairsReportNothing(t.injected, i);
    }
    var calls := ToolCalls(t.message.parts);
    forall i | 0 <= i < |t.toolEvents| ensures !t.toolEvents[i].TurnEnd? {
      BatchEvents(calls[..|t.outcomes|], t.outcomes, t.results, t.toolEvents, t.schedule, i);
    }
    var before := head + said + t.toolEvents;
    OnlyTurnsReport(s, before);
    assert (before + [TurnEnd(t.message, t.results)])[..|before|] == before;
  }

  lemma {:induction false} TurnsReport(s: State, turns: seq<Turn>)
    requires forall i :: 0 <= i < |turns| ==> Good(turns[i])
    ensures ReduceAll(s, AllEvents(turns)).errorMessage == LastError(turns, s.errorMessage)
  {
    if turns != [] {
      var n := |turns| - 1;
      TurnsReport(s, turns[..n]);
      ReduceConcat(s, AllEvents(turns[..n]), TurnEvents(turns[n]));
      TurnReports(ReduceAll(s, AllEvents(turns[..n])), turns[n]);
    }
  }

  /** After every turn of a run, the transcript is the one before the run followed by what the turns added, and no
      tool call is shown as pending. */
  lemma StateAtTurnEnd(s: State, turns: seq<Turn>)
    requires (forall i :: 0 <= i < |turns| ==> Good(turns[i])) && s.pendingToolCalls == {}
    ensures var r := ReduceAll(s, [AgentStart] + AllEvents(turns));
      && r.messages == s.messages + AllAdded(turns) && r.pendingToolCalls == {}
      && r.errorMessage == LastError(turns, s.errorMessage)
  {
    EndedTurns(turns);
    ReadsNothing(AgentStart);
    ReadsConcat([AgentStart], [], AllEvents(turns), AllAdded(turns));
    assert [] + AllAdded(turns) == AllAdded(turns);
    ReducedReads(s, [AgentStart] + AllEvents(turns));
    ReduceConcat(s, [AgentStart], AllEvents(turns));
    assert [AgentStart][..0] == [];
    TurnsReport(s, turns);
  }

  // ---------- What the state shows after any trace ----------

  predicate AboutMessage(event: Event) {
    event.MessageStart? || event.MessageUpdate? || event.MessageEnd? || event.AgentEnd?
  }

  ghost predicate LastAbout(trace: Trace, i: int) {
    0 <= i < |trace| && AboutMessage(trace[i]) && forall j :: i < j < |trace| ==> !AboutMessage(trace[j])
  }

  // What is streaming is what the last event about a message opened or updated.
  ghost predicate Streams(before: Option<Message>, trace: Trace, now: Option<Message>) {
    && ((forall i :: 0 <= i < |trace| ==> !AboutMessage(trace[i])) ==> now == before)
    && forall i :: LastAbout(trace, i) ==>
         now == if trace[i].MessageStart? || trace[i].MessageUpdate? then Some(trace[i].message) else None
  }

  predicate Starts(event: Event, id: string) { event.ToolStart? && event.toolCall.id == id }

  predicate Ends(event: Event, id: string) { event.ToolEnd? && event.toolCall.id == id }

  // A call is pending that has started and not ended since.
  ghost predicate IsOpen(before: set<string>, trace: Trace, id: string) {
    || (id in before && forall j :: 0 <= j < |trace| ==> !Ends(trace[j], id))
    || exists i :: 0 <= i < |trace| && Starts(trace[i], id) && forall j :: i < j < |trace| ==> !Ends(trace[j], id)
  }

  predicate ReportsError(event: Event) {
    event.TurnEnd? && event.message.Assistant? && event.message.errorMessage.Some?
    && event.message.errorMessage.value != ""
  }

  ghost predicate LastReport(trace: Trace, i: int) {
    0 <= i < |trace| && ReportsError(trace[i]) && forall j :: i < j < |trace| ==> !ReportsError(trace[j])
  }

  // The error is the one that a turn reported last.
  ghost predicate Reports(before: Option<string>, trace: Trace, now: Option<string>) {
    && ((forall i :: 0 <= i < |trace| ==> !ReportsError(trace[i])) ==> now == before)
    && forall i :: LastReport(trace, i) ==> now == trace[i].message.errorMessage
  }

  lemma StreamsOn(before: Option<Message>, trace: Trace, now: Option<Message>, event: Event)
    requires Streams(before, trace, now)
    ensures Streams(before, trace + [event],
                    if event.MessageStart? || event.MessageUpdate? then Some(event.message)
                    else if AboutMessage(event) then None else now)
  {
    var longer := trace + [event];
    assert longer[|trace|] == event && forall i :: 0 <= i < |trace| ==> longer[i] == trace[i];
    if !AboutMessage(event) {
      forall i | LastAbout(longer, i) ensures LastAbout(trace, i) && longer[i] == trace[i] {
        assert forall j :: i < j < |trace| ==> !AboutMessage(longer[j]);
      }
    }
  }

  lemma ReportsOn(before: Option<string>, trace: Trace, now: Option<string>, event: Event)
    requires Reports(before, trace, now)
    ensures Reports(before, trace + [event], if ReportsError(event) then event.message.errorMessage else now)
  {
    var longer := trace + [event];
    assert longer[|trace|] == event && forall i :: 0 <= i < |trace| ==> longer[i] == trace[i];
    if !ReportsError(event) {
      forall i | LastReport(longer, i) ensures LastReport(trace, i) && longer[i] == trace[i] {
        assert forall j :: i < j < |trace| ==> !ReportsError(longer[j]);
      }
    }
  }

  lemma OpenOn(before: set<string>, trace: Trace, event: Event, id: string)
    ensures IsOpen(before, trace + [event], id)
       <==> Starts(event, id) || (IsOpen(before, trace, id) && !Ends(event, id))
  {
    var longer := trace + [event];
    assert longer[|trace|] == event && forall i :: 0 <= i < |trace| ==> longer[i] == trace[i];
    if i :| 0 <= i < |trace| && Starts(trace[i], id) && forall j :: i < j < |trace| ==> !Ends(trace[j], id) {
      assert Starts(longer[i], id);
    }
  }

  // What an event does to these three.
  lemma EventReads(s: State, event: Event)
    ensures var r := Reduce(s, event);
      && r.streamingMessage == (if event.MessageStart? || event.MessageUpdate? then Some(event.message)
                                else if AboutMessage(event) then None else s.streamingMessage)
      && (forall id :: id in r.pendingToolCalls <==>
            Starts(event, id) || (id in s.pendingToolCalls && !Ends(event, id)))
      && r.errorMessage == if ReportsError(event) then event.message.errorMessage else s.errorMessage
  {
  }

  // What a state shows after some events.
  ghost predicate ShowsAfter(before: State, trace: Trace, now: State) {
    && Streams(before.streamingMessage, trace, now.streamingMessage)
    && (forall id :: id in now.pendingToolCalls <==> IsOpen(before.pendingToolCalls, trace, id))
    && Reports(before.errorMessage, trace, now.errorMessage)
  }

  lemma ShowsNext(before: State, trace: Trace, now: State, event: Event)
    requires ShowsAfter(before, trace, now)
    ensures ShowsAfter(before, trace + [event], Reduce(now, event))
  {
    hide Streams, Reports, IsOpen, Reduce, AboutMessage, ReportsError, Starts, Ends;
    EventReads(now, event);
    StreamsOn(before.streamingMessage, trace, now.streamingMessage, event);
    ReportsOn(before.errorMessage, trace, now.errorMessage, event);
    forall id
      ensures id in Reduce(now, event).pendingToolCalls <==> IsOpen(before.pendingToolCalls, trace + [event], id)
    {
      OpenOn(before.pendingToolCalls, trace, event, id);
    }
  }

  lemma NothingHappened(s: State)
    ensures ShowsAfter(s, [], s)
  {
  }

  /** After any events: what is streaming, which calls are pending and which error is shown. */
  lemma {:induction false} StateReads(s: State, trace: Trace)
    ensures ShowsAfter(s, trace, ReduceAll(s, trace))
  {
    hide ShowsAfter, Reduce;
    if trace == [] {
      NothingHappened(s);
    } else {
      var n := |trace| - 1;
      StateReads(s, trace[..n]);
      ShowsNext(s, trace[..n], ReduceAll(s, trace[..n]), trace[n]);
      assert trace == trace[..n] + [trace[n]];
    }
  }

  // ---------- The life of a run ----------

  datatype Result = Busy | NothingToContinue | Finished(returned: seq<Message>) | Crashed | UnderWay

  // Well-shaped turns that begin with the prompts, and nothing polled from the queues missing from them.
  ghost predicate Accounts(prompts: seq<Message>, turns: seq<Turn>, polls: seq<Poll>)
  {
    && GoodTurns(turns) && turns != [] && Lead(prompts, turns, [])
    && prompts + Polled(polls) == AllInjected(turns) && Disciplined(polls, turns)
  }

  lemma AccountsGood(prompts: seq<Message>, turns: seq<Turn>, polls: seq<Poll>)
    requires Accounts(prompts, turns, polls)
    ensures GoodTurns(turns)
  {
  }

  // The shape of a run that was broken off; the prompts come first in what it had added.
  ghost predicate Broke(events: Trace, prompts: seq<Message>, turns: seq<Turn>, polls: seq<Poll>, rest: Rest,
                        left: seq<Message>) {
    && BrokenOff(events, prompts, turns, polls, rest, left)
    && Ended(events) == AllAdded(turns) + RestAdded(rest) && prompts <= Ended(events)
  }

  lemma BreaksOff(events: Trace, prompts: seq<Message>, turns: seq<Turn>, polls: seq<Poll>, rest: Rest,
                  left: seq<Message>)
    requires BrokenOff(events, prompts, turns, polls, rest, left)
    ensures Broke(events, prompts, turns, polls, rest, left)
  {
    hide BrokenOff, Ended, AllAdded, RestAdded;
    EndedBrokenOff(events, prompts, turns, polls, rest, left);
  }

  class Agent {
    var state: State
    var active: bool
    const steeringQueue: PendingMessages.PendingMessageQueue<Message>
    const followUpQueue: PendingMessages.PendingMessageQueue<Message>

    // Between runs nothing is streaming and no tool call is pending.
    ghost predicate Valid()
      reads this, steeringQueue, followUpQueue
    {
      && (!active ==> !state.isStreaming && state.streamingMessage == None && state.pendingToolCalls == {})
      && steeringQueue != followUpQueue && steeringQueue.Valid() && followUpQueue.Valid()
    }

    constructor (messages: seq<Message>, steeringMode: PendingMessages.Mode, followUpMode: PendingMessages.Mode)
      ensures Valid() && !active && state.messages == messages && fresh(steeringQueue) && fresh(followUpQueue)
    {
      state := State(messages, false, None, {}, None);
      active := false;
      steeringQueue := new PendingMessages.PendingMessageQueue<Message>(steeringMode);
      followUpQueue := new PendingMessages.PendingMessageQueue<Message>(followUpMode);
    }

    method ProcessEvents(event: Event)
      modifies `state
      ensures state == Reduce(old(state), event)
    {
      match event
      case MessageStart(message) => state := state.(streamingMessage := Some(message));
      case MessageUpdate(message) => state := state.(streamingMessage := Some(message));
      case MessageEnd(message) =>
        state := state.(streamingMessage := None);
        state := state.(messages := state.messages + [message]);
      case ToolStart(call) =>
        var pendingToolCalls := state.pendingToolCalls;
        pendingToolCalls := pendingToolCalls + {call.id};
        state := state.(pendingToolCalls := pendingToolCalls);
      case ToolEnd(call, _) =>
        var pendingToolCalls := state.pendingToolCalls;
        pendingToolCalls := pendingToolCalls - {call.id};
        state := state.(pendingToolCalls := pendingToolCalls);
      case TurnEnd(message, _) =>
        if message.Assistant? && message.errorMessage.Some? && message.errorMessage.value != "" {
          state := state.(errorMessage := message.errorMessage);
        }
      case AgentEnd(_) => state := state.(streamingMessage := None);
      case _ =>
    }

    method ProcessAll(trace: Trace)
      modifies `state
      ensures state == ReduceAll(old(state), trace)
    {
      for i := 0 to |trace|
        invariant state == ReduceAll(old(state), trace[..i])
      {
        TakeNext(trace, i);
        ReduceConcat(old(state), trace[..i], [trace[i]]);
        assert [trace[i]][..0] == [];
        ProcessEvents(trace[i]);
      }
      assert trace[..|trace|] == trace;
    }

    // A failed run leaves an assistant message that says so.
    method HandleRunFailure(error: string, aborted: bool) returns (failure: Message)
      modifies `state
      ensures failure == Assistant([Text("")], if aborted then StopReason.Aborted else StopReason.Failed, Some(error))
      ensures state.messages == old(state.messages) + [failure] && state.errorMessage == Some(error)
    {
      failure := Assistant([Text("")], if aborted then StopReason.Aborted else StopReason.Failed, Some(error));
      state := state.(errorMessage := failure.errorMessage);
      ProcessEvents(MessageStart(failure));
      ProcessEvents(MessageEnd(failure));
      ProcessEvents(AgentEnd([failure]));
    }

    method FinishRun()
      modifies `state, `active
      ensures state == old(state).(isStreaming := false, streamingMessage := None, pendingToolCalls := {}) && !active
    {
      state := state.(isStreaming := false, streamingMessage := None, pendingToolCalls := {});
      active := false;
    }

    // What the queues have handed out is what the polls brought, and what the last one lost to the signal.
    twostate predicate Delivered(polls: seq<Poll>, new lost: Option<Poll>)
      reads this, steeringQueue, followUpQueue
    {
      && steeringQueue.drained == old(steeringQueue.drained) + PolledFrom(polls, Steering) + LostBy(lost, Steering)
      && followUpQueue.drained == old(followUpQueue.drained) + PolledFrom(polls, FollowUps) + LostBy(lost, FollowUps)
    }

    // The loop refuses to continue a transcript that is empty or ends in an answer.
    predicate Refused(continues: bool, messages: seq<Message>) {
      continues && (messages == [] || messages[|messages| - 1].Assistant?)
    }

    // The loop on a snapshot of the transcript, with the events it emits.
    method RunLoop(prompts: seq<Message>, continues: bool, skipSteering: bool, steps: nat)
        returns (status: AgentLoop.Status, returned: seq<Message>, events: Trace, aborted: bool, ghost turns: seq<Turn>,
                 ghost polls: seq<Poll>, ghost lost: Option<Poll>, ghost rest: Rest, ghost left: seq<Message>)
      requires steeringQueue != followUpQueue && steeringQueue.Valid() && followUpQueue.Valid()
      modifies steeringQueue, followUpQueue
      ensures steeringQueue.Valid() && followUpQueue.Valid()
      ensures status in {AgentLoop.Completed, AgentLoop.Threw, AgentLoop.UnderWay}
      ensures Delivered(polls, lost) && (lost.Some? ==> aborted && lost.value.turn == |turns|)
      ensures var first := if continues then [] else prompts;
        if status == AgentLoop.Completed then
          events == [AgentStart] + AllEvents(turns) + [AgentEnd(returned)] && returned == AllAdded(turns)
          && Accounts(first, turns, polls)
        else if Refused(continues, state.messages) then status == AgentLoop.Threw && events == []
        else
          && BrokenOff(events, first, turns, polls, rest, left)
          && (status == AgentLoop.Threw ==> Overtaken(rest, left, aborted, lost))
    {
      hide GoodTurns, Disciplined, Lead, BrokenOff, AgentLoop.Run.Finished;
      var run := new AgentLoop.Run(state.messages, false, skipSteering, steps, steeringQueue, followUpQueue);
      NothingPolled(run);
      if continues {
        status := run.RunAgentLoopContinue();
      } else {
        status := run.RunAgentLoop(prompts);
      }
      returned, events, aborted, turns, polls := run.newMessages, run.trace, run.aborted, run.turns, run.polls;
      lost, rest, left := run.lost, run.rest, run.left;
      if status == AgentLoop.Completed {
        RunOver(run);
      }
    }

    // The events are reduced, a failure is recorded, and the agent is free again.
    method Settle(status: AgentLoop.Status, returned: seq<Message>, events: Trace, aborted: bool, error: string,
                  ghost turns: seq<Turn>)
        returns (result: Result)
      requires status in {AgentLoop.Completed, AgentLoop.Threw, AgentLoop.UnderWay}
      requires active && state.pendingToolCalls == {} && state.errorMessage == None
      requires status == AgentLoop.Completed ==>
        && GoodTurns(turns) && returned == AllAdded(turns)
        && events == [AgentStart] + AllEvents(turns) + [AgentEnd(returned)]
      modifies `state, `active
      ensures active <==> result == UnderWay
      ensures !active ==> !state.isStreaming && state.streamingMessage == None && state.pendingToolCalls == {}
      ensures result == match status
                        case Completed => Finished(returned)
                        case Threw => Crashed
                        case _ => UnderWay
      ensures status == AgentLoop.Completed ==>
        state.messages == old(state.messages) + returned && state.errorMessage == LastError(turns, None)
      ensures status == AgentLoop.Threw ==>
        && state.messages != [] && state.errorMessage == Some(error)
        && state.messages[..|state.messages| - 1] == old(state.messages) + Ended(events)
        && state.messages[|state.messages| - 1].Assistant?
    {
      hide GoodTurns, ReduceAll, Ended, Pending;
      ghost var before := state;
      ProcessAll(events);
      ReducedReads(before, events);
      if status == AgentLoop.UnderWay {
        return UnderWay;
      }
      if status == AgentLoop.Threw {
        var failure := HandleRunFailure(error, aborted);
        result := Crashed;
      } else {
        AfterRun(before, turns, returned);
        result := Finished(returned);
      }
      FinishRun();
    }

    /** One run of the loop and everything the agent does around it. Only one run is active at a time; when it is
        over, the transcript has grown by exactly the returned messages, or, if it crashed, by what its turns and the
        one that was broken off had added, and a failure. The prompts come first either way. */
    method RunWithLifecycle(prompts: seq<Message>, continues: bool, skipSteering: bool, error: string, steps: nat)
        returns (result: Result, events: Trace, aborted: bool, ghost turns: seq<Turn>, ghost polls: seq<Poll>,
                 ghost lost: Option<Poll>, ghost rest: Rest, ghost left: seq<Message>)
      requires Valid()
      modifies this, steeringQueue, followUpQueue
      ensures Valid() && (result == Busy <==> old(active)) && (active <==> result == Busy || result == UnderWay)
      ensures result == Busy ==> state == old(state)
      ensures result != NothingToContinue
      ensures Delivered(polls, lost) && (lost.Some? ==> aborted && lost.value.turn == |turns|)
      ensures result.Finished? ==>
        && events == [AgentStart] + AllEvents(turns) + [AgentEnd(result.returned)] && result.returned == AllAdded(turns)
        && Accounts(if continues then [] else prompts, turns, polls)
        && state.messages == old(state.messages) + result.returned && state.errorMessage == LastError(turns, None)
      ensures result == Crashed ==>
        && state.messages != [] && state.errorMessage == Some(error)
        && state.messages[..|state.messages| - 1] == old(state.messages) + Ended(events)
        && state.messages[|state.messages| - 1].Assistant?
      ensures result == Crashed || result == UnderWay ==>
        if Refused(continues, old(state.messages)) then result == Crashed && events == []
        else
          && Broke(events, if continues then [] else prompts, turns, polls, rest, left)
          && (result == Crashed ==> Overtaken(rest, left, aborted, lost))
    {
      hide GoodTurns, Lead, Accounts, Broke, BrokenOff, ReduceAll, Ended, AllAdded, AllEvents;
      hide PendingMessages.PendingMessageQueue.Valid;
      events, aborted, turns, polls, lost, rest, left := [], false, [], [], None, Idle, [];
      if active {
        NothingDelivered();
        result := Busy;
        return;
      }
      active := true;
      state := state.(isStreaming := true, streamingMessage := None, errorMessage := None);
      var status, returned;
      status, returned, events, aborted, turns, polls, lost, rest, left :=
        RunLoop(prompts, continues, skipSteering, steps);
      if status == AgentLoop.Completed {
        AccountsGood(if continues then [] else prompts, turns, polls);
      } else if !Refused(continues, state.messages) {
        BreaksOff(events, if continues then [] else prompts, turns, polls, rest, left);
      }
      result := Settle(status, returned, events, aborted, error, turns);
    }

    twostate lemma NothingDelivered()
      requires unchanged(steeringQueue) && unchanged(followUpQueue)
      ensures Delivered([], None)
    {
    }

    // The messages of a queue become the prompts of the next run.
    method TakeQueued() returns (prompts: seq<Message>, source: Option<Source>)
      requires steeringQueue != followUpQueue && steeringQueue.Valid() && followUpQueue.Valid()
      modifies steeringQueue, followUpQueue
      ensures steeringQueue.Valid() && followUpQueue.Valid() && (source == None ==> prompts == [])
      ensures source == if old(steeringQueue.Busy()) then Some(Steering)
                        else if old(followUpQueue.Busy()) then Some(FollowUps) else None
      ensures steeringQueue.drained == old(steeringQueue.drained) + if source == Some(Steering) then prompts else []
      ensures followUpQueue.drained == old(followUpQueue.drained) + if source == Some(FollowUps) then prompts else []
    {
      prompts := steeringQueue.Drain();
      if |prompts| > 0 {
        return prompts, Some(Steering);
      }
      prompts := followUpQueue.Drain();
      if |prompts| > 0 {
        return prompts, Some(FollowUps);
      }
      source := None;
    }

    /** Continues the transcript: where it does not end in a message for the model, with what is queued. Messages
        that were queued are not lost: they are the prompts of the run, and come first in what it adds, whether it
        returns or crashes. */
    method Continue(error: string, steps: nat)
        returns (result: Result, events: Trace, aborted: bool, prompts: seq<Message>, source: Option<Source>,
                 ghost turns: seq<Turn>, ghost polls: seq<Poll>, ghost lost: Option<Poll>, ghost rest: Rest,
                 ghost left: seq<Message>)
      requires Valid()
      modifies this, steeringQueue, followUpQueue
      ensures Valid() && (result == Busy <==> old(active)) && (source == None ==> prompts == [])
      ensures DeliveredAfter(source, prompts, polls, lost) && (lost.Some? ==> aborted && lost.value.turn == |turns|)
      ensures result == NothingToContinue ==>
        && state == old(state) && source == None && !old(steeringQueue.Busy()) && !old(followUpQueue.Busy())
        && steeringQueue.drained == old(steeringQueue.drained) && followUpQueue.drained == old(followUpQueue.drained)
        && (state.messages == [] || state.messages[|state.messages| - 1].Assistant?)
      ensures result.Finished? ==>
        && events == [AgentStart] + AllEvents(turns) + [AgentEnd(result.returned)] && result.returned == AllAdded(turns)
        && Accounts(prompts, turns, polls) && state.messages == old(state.messages) + result.returned
      ensures result == Crashed || result == UnderWay ==>
        Broke(events, prompts, turns, polls, rest, left)
      ensures result == Crashed ==>
        && Overtaken(rest, left, aborted, lost)
        && state.messages != [] && state.messages[..|state.messages| - 1] == old(state.messages) + Ended(events)
        && state.errorMessage == Some(error)
    {
      hide Accounts, Broke, Ended, AllEvents, AllAdded;
      hide PendingMessages.PendingMessageQueue.Valid, PendingMessages.PendingMessageQueue.Busy;
      events, aborted, prompts, source, turns, polls := [], false, [], None, [], [];
      lost, rest, left := None, Idle, [];
      if active {
        result := Busy;
        return;
      }
      var n := |state.messages|;
      var ends := n == 0 || state.messages[n - 1].Assistant?;
      if ends || (state.messages[n - 1].Input? && state.messages[n - 1].custom) {
        prompts, source := TakeQueued();
      }
      if source.Some? {
        result, events, aborted, turns, polls, lost, rest, left :=
          RunWithLifecycle(prompts, false, source == Some(Steering), error, steps);
      } else if ends {
        result := NothingToContinue;
      } else {
        result, events, aborted, turns, polls, lost, rest, left := RunWithLifecycle([], true, false, error, steps);
      }
    }

    twostate predicate DeliveredAfter(source: Option<Source>, prompts: seq<Message>, polls: seq<Poll>,
                                      new lost: Option<Poll>)
      reads this, steeringQueue, followUpQueue
    {
      && steeringQueue.drained
         == old(steeringQueue.drained) + (if source == Some(Steering) then prompts else [])
            + PolledFrom(polls, Steering) + LostBy(lost, Steering)
      && followUpQueue.drained
         == old(followUpQueue.drained) + (if source == Some(FollowUps) then prompts else [])
            + PolledFrom(polls, FollowUps) + LostBy(lost, FollowUps)
    }
  }

  lemma NothingPolled(run: AgentLoop.Run)
    requires run.polls == [] && run.lost == None && run.steering != run.followUps && run.steering.Valid()
      && run.followUps.Valid()
    requires run.steering.drained == run.steeringBefore && run.followUps.drained == run.followUpsBefore
    ensures run.Linked()
  {
    assert run.steeringBefore + [] == run.steeringBefore && run.followUpsBefore + [] == run.followUpsBefore;
  }

  lemma RunOver(run: AgentLoop.Run)
    requires run.Finished()
    ensures GoodTurns(run.turns) && run.turns != []
    ensures run.trace == [AgentStart] + AllEvents(run.turns) + [AgentEnd(run.newMessages)]
    ensures run.newMessages == AllAdded(run.turns)
    ensures run.prompts + Polled(run.polls) == AllInjected(run.turns) && Disciplined(run.polls, run.turns)
    ensures Lead(run.prompts, run.turns, [])
  {
    assert AllInjected(run.turns) + [] + [] == AllInjected(run.turns);
    assert AllAdded(run.turns) + [] == AllAdded(run.turns);
  }

  lemma AfterRun(s: State, turns: seq<Turn>, returned: seq<Message>)
    requires GoodTurns(turns) && s.pendingToolCalls == {} && s.errorMessage == None && returned == AllAdded(turns)
    ensures var r := ReduceAll(s, [AgentStart] + AllEvents(turns) + [AgentEnd(returned)]);
      r.messages == s.messages + returned && r.errorMessage == LastError(turns, None)
  {
    StateAtTurnEnd(s, turns);
    var trace := [AgentStart] + AllEvents(turns);
    assert (trace + [AgentEnd(returned)])[..|trace|] == trace;
  }
}
