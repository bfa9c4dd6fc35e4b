/** The events of an agent run (packages/agent/src/types.ts), the shape they have, and what can be read off them. */
module AgentEvents {
  import opened Basics

  datatype ToolCall = ToolCall(id: string, name: string, args: string)

  datatype Part = Text(text: string) | Call(toolCall: ToolCall)

  datatype StopReason = Stop | Length | ToolUse | Failed | Aborted

  datatype Message =
    | Input(text: string, custom: bool)
    | Assistant(parts: seq<Part>, stopReason: StopReason, errorMessage: Option<string>)
    | ToolResult(toolCallId: string, toolName: string, content: string, isError: bool)

  // What a tool, or an error in its place, came to.
  datatype Outcome = Outcome(content: string, terminate: bool, isError: bool)

  datatype Event =
    | AgentStart
    | AgentEnd(messages: seq<Message>)
    | TurnStart
    | TurnEnd(message: Message, toolResults: seq<Message>)
    | MessageStart(message: Message)
    | MessageUpdate(message: Message)
    | MessageEnd(message: Message)
    | ToolStart(toolCall: ToolCall)
    | ToolUpdate(toolCall: ToolCall, partial: string)
    | ToolEnd(toolCall: ToolCall, outcome: Outcome)

  type Trace = seq<Event>

  function ToolCalls(parts: seq<Part>): seq<ToolCall> {
    if parts == [] then []
    else
      var before, last := parts[..|parts| - 1], parts[|parts| - 1];
      ToolCalls(before) + if last.Call? then [last.toolCall] else []
  }

  function ResultOf(call: ToolCall, outcome: Outcome): Message {
    ToolResult(call.id, call.name, outcome.content, outcome.isError)
  }

  // A batch ends the run when it ran anything and everything it ran asked for that.
  predicate Terminates(outcomes: seq<Outcome>) {
    |outcomes| > 0 && forall k :: 0 <= k < |outcomes| ==> outcomes[k].terminate
  }

  // ---------- Reading a trace ----------

  // The messages that have ended, in order.
  function Ended(trace: Trace): seq<Message> {
    if trace == [] then []
    else
      var before, last := trace[..|trace| - 1], trace[|trace| - 1];
      Ended(before) + if last.MessageEnd? then [last.message] else []
  }

  // The tool calls that have started, in order.
  function Begun(trace: Trace): seq<ToolCall> {
    if trace == [] then []
    else
      var before, last := trace[..|trace| - 1], trace[|trace| - 1];
      Begun(before) + if last.ToolStart? then [last.toolCall] else []
  }

  function PendingAfter(pending: set<string>, event: Event): set<string> {
    if event.ToolStart? then pending + {event.toolCall.id}
    else if event.ToolEnd? then pending - {event.toolCall.id}
    else pending
  }

  // The tool calls shown as running, by their ids.
  function Pending(trace: Trace, pending: set<string>): set<string> {
    if trace == [] then pending
    else
      var before, last := Pending(trace[..|trace| - 1], pending), trace[|trace| - 1];
      PendingAfter(before, last)
  }

  lemma {:induction false} EndedConcat(a: Trace, b: Trace)
    ensures Ended(a + b) == Ended(a) + Ended(b)
  {
    if b == [] {
      assert a + b == a;
    } else {
      var n := |b| - 1;
      assert (a + b)[..|a + b| - 1] == a + b[..n];
      EndedConcat(a, b[..n]);
    }
  }

  lemma {:induction false} PendingConcat(a: Trace, b: Trace, pending: set<string>)
    ensures Pending(a + b, pending) == Pending(b, Pending(a, pending))
  {
    if b == [] {
      assert a + b == a;
    } else {
      var n := |b| - 1;
      assert (a + b)[..|a + b| - 1] == a + b[..n];
      PendingConcat(a, b[..n], pending);
    }
  }

  lemma {:induction false} BegunConcat(a: Trace, b: Trace)
    ensures Begun(a + b) == Begun(a) + Begun(b)
  {
    if b == [] {
      assert a + b == a;
    } else {
      var n := |b| - 1;
      assert (a + b)[..|a + b| - 1] == a + b[..n];
      BegunConcat(a, b[..n]);
    }
  }

  lemma BegunSnoc(trace: Trace, event: Event)
    ensures Begun(trace + [event]) == Begun(trace) + if event.ToolStart? then [event.toolCall] else []
  {
    assert (trace + [event])[..|trace|] == trace;
  }

  lemma EndedSnoc(trace: Trace, event: Event)
    ensures Ended(trace + [event]) == Ended(trace) + if event.MessageEnd? then [event.message] else []
  {
    assert (trace + [event])[..|trace|] == trace;
  }

  lemma PendingSnoc(trace: Trace, event: Event, pending: set<string>)
    ensures Pending(trace + [event], pending) == PendingAfter(Pending(trace, pending), event)
  {
    assert (trace + [event])[..|trace|] == trace;
  }

  // `at` lists the places where messages end, and `ended` those messages.
  ghost predicate EndsAt(trace: Trace, at: seq<nat>, ended: seq<Message>) {
    && |at| == |ended| && (forall i :: 0 <= i < |trace| ==> (trace[i].MessageEnd? <==> i in at))
    && (forall k :: 0 <= k < |at| ==> at[k] < |trace| && trace[at[k]] == MessageEnd(ended[k]))
    && (forall j, k :: 0 <= j < k < |at| ==> at[j] < at[k])
  }

  lemma EndsAtNext(trace: Trace, at: seq<nat>, ended: seq<Message>, event: Event)
    requires EndsAt(trace, at, ended)
    ensures if event.MessageEnd? then EndsAt(trace + [event], at + [|trace|], ended + [event.message])
            else EndsAt(trace + [event], at, ended + [])
  {
    assert |trace| !in at && ended + [] == ended;
  }

  // The messages that have ended are those of the events, one for one.
  lemma {:induction false} EndedFound(trace: Trace) returns (at: seq<nat>)
    ensures EndsAt(trace, at, Ended(trace))
  {
    at := [];
    if trace != [] {
      var n := |trace| - 1;
      var before := EndedFound(trace[..n]);
      EndsAtNext(trace[..n], before, Ended(trace[..n]), trace[n]);
      assert trace == trace[..n] + [trace[n]];
      at := if trace[n].MessageEnd? then before + [n] else before;
    }
  }

  // `at` lists the places where calls start, and `begun` those calls.
  ghost predicate StartsAt(trace: Trace, at: seq<nat>, begun: seq<ToolCall>) {
    && |at| == |begun| && (forall i :: 0 <= i < |trace| ==> (trace[i].ToolStart? <==> i in at))
    && (forall k :: 0 <= k < |at| ==> at[k] < |trace| && trace[at[k]] == ToolStart(begun[k]))
    && (forall j, k :: 0 <= j < k < |at| ==> at[j] < at[k])
  }

  lemma StartsAtNext(trace: Trace, at: seq<nat>, begun: seq<ToolCall>, event: Event)
    requires StartsAt(trace, at, begun)
    ensures if event.ToolStart? then StartsAt(trace + [event], at + [|trace|], begun + [event.toolCall])
            else StartsAt(trace + [event], at, begun + [])
  {
    assert |trace| !in at && begun + [] == begun;
  }

  lemma {:induction false} BegunFound(trace: Trace) returns (at: seq<nat>)
    ensures StartsAt(trace, at, Begun(trace))
  {
    at := [];
    if trace != [] {
      var n := |trace| - 1;
      var before := BegunFound(trace[..n]);
      StartsAtNext(trace[..n], before, Begun(trace[..n]), trace[n]);
      assert trace == trace[..n] + [trace[n]];
      at := if trace[n].ToolStart? then before + [n] else before;
    }
  }

  // ---------- Messages ----------

  function Pair(message: Message): Trace { [MessageStart(message), MessageEnd(message)] }

  function Pairs(messages: seq<Message>): Trace {
    if messages == [] then [] else Pairs(messages[..|messages| - 1]) + Pair(messages[|messages| - 1])
  }

  lemma EndedPair(trace: Trace, message: Message, pending: set<string>)
    ensures Ended(trace + Pair(message)) == Ended(trace) + [message]
    ensures Pending(trace + Pair(message), pending) == Pending(trace, pending)
    ensures Begun(trace + Pair(message)) == Begun(trace)
  {
    BegunSnoc(trace, MessageStart(message));
    BegunSnoc(trace + [MessageStart(message)], MessageEnd(message));
    EndedSnoc(trace, MessageStart(message));
    EndedSnoc(trace + [MessageStart(message)], MessageEnd(message));
    PendingSnoc(trace, MessageStart(message), pending);
    PendingSnoc(trace + [MessageStart(message)], MessageEnd(message), pending);
    assert trace + Pair(message) == trace + [MessageStart(message)] + [MessageEnd(message)];
  }

  lemma {:induction false} EndedPairs(messages: seq<Message>, pending: set<string>)
    ensures Ended(Pairs(messages)) == messages && Pending(Pairs(messages), pending) == pending
  {
    if messages != [] {
      var n := |messages| - 1;
      EndedPairs(messages[..n], pending);
      EndedPair(Pairs(messages[..n]), messages[n], pending);
    }
  }

  // The assistant's message: opened once, then only updated, then closed.
  function Updates(partials: seq<Message>): Trace {
    seq(|partials|, i requires 0 <= i < |partials| => MessageUpdate(partials[i]))
  }

  function Spoken(begun: Message, partials: seq<Message>, message: Message): Trace {
    [MessageStart(begun)] + Updates(partials) + [MessageEnd(message)]
  }

  lemma {:induction false} UpdatesEndNothing(partials: seq<Message>, pending: set<string>)
    ensures Ended(Updates(partials)) == [] && Pending(Updates(partials), pending) == pending
  {
    if partials != [] {
      var n := |partials| - 1;
      UpdatesEndNothing(partials[..n], pending);
      assert Updates(partials)[..n] == Updates(partials[..n]);
    }
  }

  lemma EndedSpoken(begun: Message, partials: seq<Message>, message: Message, pending: set<string>)
    ensures Ended(Spoken(begun, partials, message)) == [message]
    ensures Pending(Spoken(begun, partials, message), pending) == pending
  {
    UpdatesEndNothing(partials, pending);
    EndedConcat([MessageStart(begun)], Updates(partials));
    PendingConcat([MessageStart(begun)], Updates(partials), pending);
    EndedSnoc([], MessageStart(begun));
    PendingSnoc([], MessageStart(begun), pending);
    assert [] + [MessageStart(begun)] == [MessageStart(begun)];
    EndedSnoc([MessageStart(begun)] + Updates(partials), MessageEnd(message));
    PendingSnoc([MessageStart(begun)] + Updates(partials), MessageEnd(message), pending);
  }

  // ---------- Tool calls ----------

  // The events that belong to call k, when schedule tells whose each event is.
  function Project(events: Trace, schedule: seq<nat>, k: nat): Trace
    requires |events| == |schedule|
  {
    if events == [] then []
    else
      var n := |events| - 1;
      Project(events[..n], schedule[..n], k) + if schedule[n] == k then [events[n]] else []
  }

  lemma ProjectSnoc(events: Trace, schedule: seq<nat>, event: Event, j: nat, k: nat)
    requires |events| == |schedule|
    ensures Project(events + [event], schedule + [j], k)
         == if j == k then Project(events, schedule, k) + [event] else Project(events, schedule, k)
  {
    assert (events + [event])[..|events|] == events && (schedule + [j])[..|schedule|] == schedule;
  }

  function Only(n: nat, k: nat): seq<nat> { seq(n, i => k) }

  lemma {:induction false} ProjectLog(events: Trace, schedule: seq<nat>, log: Trace, j: nat, k: nat)
    requires |events| == |schedule|
    ensures Project(events + log, schedule + Only(|log|, j), k)
         == if j == k then Project(events, schedule, k) + log else Project(events, schedule, k)
  {
    if log == [] {
      assert events + log == events && schedule + Only(0, j) == schedule;
    } else {
      hide Project;
      var n := |log| - 1;
      ProjectLog(events, schedule, log[..n], j, k);
      ProjectSnoc(events + log[..n], schedule + Only(n, j), log[n], j, k);
      assert log == log[..n] + [log[n]] && Only(n + 1, j) == Only(n, j) + [j];
      ConcatAssociates(events, log[..n], [log[n]]);
      ConcatAssociates(schedule, Only(n, j), [j]);
      if j == k {
        ConcatAssociates(Project(events, schedule, k), log[..n], [log[n]]);
      }
    }
  }

  lemma {:induction false} ProjectNone(events: Trace, schedule: seq<nat>, k: nat)
    requires |events| == |schedule| && k !in schedule
    ensures Project(events, schedule, k) == []
  {
    if events != [] {
      var n := |events| - 1;
      ProjectNone(events[..n], schedule[..n], k);
    }
  }

  // Started, and perhaps updated.
  ghost predicate Running(log: Trace, call: ToolCall) {
    && |log| >= 1 && log[0] == ToolStart(call)
    && forall i :: 1 <= i < |log| ==> log[i].ToolUpdate? && log[i].toolCall == call
  }

  // Started, perhaps updated, and ended once.
  ghost predicate Over(log: Trace, call: ToolCall, outcome: Outcome) {
    |log| >= 2 && log[|log| - 1] == ToolEnd(call, outcome) && Running(log[..|log| - 1], call)
  }

  // Over, with its result delivered as a message.
  ghost predicate Ran(log: Trace, call: ToolCall, outcome: Outcome) {
    && |log| >= 4 && log[|log| - 2..] == Pair(ResultOf(call, outcome)) && Over(log[..|log| - 2], call, outcome)
  }

  // A batch in which every call ran, interleaved in any way, with the results in the order of the calls.
  ghost predicate Batch(calls: seq<ToolCall>, outcomes: seq<Outcome>, results: seq<Message>, events: Trace,
                        schedule: seq<nat>) {
    && |calls| == |outcomes| == |results| && |events| == |schedule|
    && (forall i :: 0 <= i < |schedule| ==> schedule[i] < |calls|)
    && (forall k :: 0 <= k < |calls| ==>
          results[k] == ResultOf(calls[k], outcomes[k]) && Ran(Project(events, schedule, k), calls[k], outcomes[k]))
    && Begun(events) == calls && Ended(events) == results && Pending(events, {}) == {}
  }

  // All events of a call come before those of the next one.
  ghost predicate OneByOne(schedule: seq<nat>) {
    forall i, j :: 0 <= i < j < |schedule| ==> schedule[i] <= schedule[j]
  }

  lemma RanAlone(log: Trace, call: ToolCall, outcome: Outcome)
    requires Ran(log, call, outcome)
    ensures Begun(log) == [call] && Ended(log) == [ResultOf(call, outcome)] && Pending(log, {}) == {}
  {
    var n := |log| - 2;
    var running := log[..n - 1];
    StartedAlone(running, call);
    assert log[..n] == running + [ToolEnd(call, outcome)];
    BegunSnoc(running, ToolEnd(call, outcome));
    EndedSnoc(running, ToolEnd(call, outcome));
    PendingSnoc(running, ToolEnd(call, outcome), {});
    EndedPair(log[..n], ResultOf(call, outcome), {});
    assert log == log[..n] + Pair(ResultOf(call, outcome));
  }

  lemma {:induction false} StartedAlone(log: Trace, call: ToolCall)
    requires Running(log, call)
    ensures Begun(log) == [call] && Ended(log) == [] && Pending(log, {}) == {call.id}
  {
    var n := |log| - 1;
    if n == 0 {
      assert log[..0] == [];
    } else {
      StartedAlone(log[..n], call);
    }
  }

  // One call after another.
  lemma BatchGrows(calls: seq<ToolCall>, outcomes: seq<Outcome>, results: seq<Message>, events: Trace,
                   schedule: seq<nat>, call: ToolCall, outcome: Outcome, log: Trace)
    requires Batch(calls, outcomes, results, events, schedule) && Ran(log, call, outcome)
    ensures Batch(calls + [call], outcomes + [outcome], results + [ResultOf(call, outcome)], events + log,
                  schedule + Only(|log|, |calls|))
  {
    hide Project, Running, Over, Ran;
    var n := |calls|;
    var schedule' := schedule + Only(|log|, n);
    forall k | 0 <= k <= n
      ensures Project(events + log, schedule', k) == if k == n then log else Project(events, schedule, k)
    {
      ProjectLog(events, schedule, log, n, k);
      if k == n {
        ProjectNone(events, schedule, n);
      }
    }
    RanAlone(log, call, outcome);
    BegunConcat(events, log);
    EndedConcat(events, log);
    PendingConcat(events, log, {});
  }

  // ---------- Calls that run side by side ----------

  ghost predicate Active(calls: seq<ToolCall>, outcomes: seq<Option<Outcome>>, id: string) {
    exists k :: 0 <= k < |outcomes| && k < |calls| && outcomes[k] == None && calls[k].id == id
  }

  // The first calls have started, in order; some of them are over.
  ghost predicate Interleaved(calls: seq<ToolCall>, outcomes: seq<Option<Outcome>>, events: Trace, schedule: seq<nat>) {
    && |outcomes| <= |calls| && |events| == |schedule|
    && (forall i :: 0 <= i < |schedule| ==> schedule[i] < |outcomes|)
    && (forall k :: 0 <= k < |outcomes| ==>
          match outcomes[k]
          case None => Running(Project(events, schedule, k), calls[k])
          case Some(outcome) => Over(Project(events, schedule, k), calls[k], outcome))
    && Begun(events) == calls[..|outcomes|] && Ended(events) == []
    && (forall id :: id in Pending(events, {}) ==> Active(calls, outcomes, id))
  }

  lemma ActiveGrows(calls: seq<ToolCall>, outcomes: seq<Option<Outcome>>, id: string)
    requires |outcomes| < |calls| && (Active(calls, outcomes, id) || calls[|outcomes|].id == id)
    ensures Active(calls, outcomes + [None], id)
  {
    if calls[|outcomes|].id == id {
      assert (outcomes + [None])[|outcomes|] == None;
    } else {
      var k :| 0 <= k < |outcomes| && k < |calls| && outcomes[k] == None && calls[k].id == id;
      assert (outcomes + [None])[k] == None;
    }
  }

  lemma RunningGrows(log: Trace, call: ToolCall, partial: string)
    requires Running(log, call)
    ensures Running(log + [ToolUpdate(call, partial)], call)
  {
  }

  lemma RunningStarts(call: ToolCall)
    ensures Running([ToolStart(call)], call)
  {
  }

  lemma OverAfterRunning(log: Trace, call: ToolCall, outcome: Outcome)
    requires Running(log, call)
    ensures Over(log + [ToolEnd(call, outcome)], call, outcome)
  {
    assert (log + [ToolEnd(call, outcome)])[..|log|] == log;
  }

  lemma RanAfterOver(log: Trace, call: ToolCall, outcome: Outcome)
    requires Over(log, call, outcome)
    ensures Ran(log + Pair(ResultOf(call, outcome)), call, outcome)
  {
    var pair := Pair(ResultOf(call, outcome));
    assert (log + pair)[|log|..] == pair && (log + pair)[..|log|] == log;
  }

  lemma StartCall(calls: seq<ToolCall>, outcomes: seq<Option<Outcome>>, events: Trace, schedule: seq<nat>)
    requires Interleaved(calls, outcomes, events, schedule) && |outcomes| < |calls|
    ensures Interleaved(calls, outcomes + [None], events + [ToolStart(calls[|outcomes|])], schedule + [|outcomes|])
  {
    hide Project, Begun, Ended, Pending;
    var n := |outcomes|;
    var event := ToolStart(calls[n]);
    forall k | 0 <= k <= n
      ensures Project(events + [event], schedule + [n], k) == if k == n then [event] else Project(events, schedule, k)
    {
      ProjectSnoc(events, schedule, event, n, k);
      if k == n {
        ProjectNone(events, schedule, n);
      }
    }
    TakeNext(calls, n);
    BegunSnoc(events, event);
    EndedSnoc(events, event);
    PendingSnoc(events, event, {});
    forall id | id in Pending(events + [event], {}) ensures Active(calls, outcomes + [None], id) {
      ActiveGrows(calls, outcomes, id);
    }
  }

  lemma UpdateCall(calls: seq<ToolCall>, outcomes: seq<Option<Outcome>>, events: Trace, schedule: seq<nat>, j: nat,
                   partial: string)
    requires Interleaved(calls, outcomes, events, schedule) && j < |outcomes| && outcomes[j] == None
    ensures Interleaved(calls, outcomes, events + [ToolUpdate(calls[j], partial)], schedule + [j])
  {
    var event := ToolUpdate(calls[j], partial);
    forall k | 0 <= k < |outcomes|
      ensures Project(events + [event], schedule + [j], k)
           == if j == k then Project(events, schedule, k) + [event] else Project(events, schedule, k)
    {
      ProjectSnoc(events, schedule, event, j, k);
    }
    RunningGrows(Project(events, schedule, j), calls[j], partial);
    BegunSnoc(events, event);
    EndedSnoc(events, event);
    PendingSnoc(events, event, {});
  }

  lemma EndCall(calls: seq<ToolCall>, outcomes: seq<Option<Outcome>>, events: Trace, schedule: seq<nat>, j: nat,
                outcome: Outcome)
    requires Interleaved(calls, outcomes, events, schedule) && j < |outcomes| && outcomes[j] == None
    ensures Interleaved(calls, outcomes[j := Some(outcome)], events + [ToolEnd(calls[j], outcome)], schedule + [j])
  {
    var event := ToolEnd(calls[j], outcome);
    forall k | 0 <= k < |outcomes|
      ensures Project(events + [event], schedule + [j], k)
           == if j == k then Project(events, schedule, k) + [event] else Project(events, schedule, k)
    {
      ProjectSnoc(events, schedule, event, j, k);
    }
    var log := Project(events, schedule, j);
    assert (log + [event])[..|log|] == log;
    BegunSnoc(events, event);
    EndedSnoc(events, event);
    PendingSnoc(events, event, {});
    var outcomes' := outcomes[j := Some(outcome)];
    forall id | id in Pending(events + [event], {}) ensures Active(calls, outcomes', id) {
      var k :| 0 <= k < |outcomes| && k < |calls| && outcomes[k] == None && calls[k].id == id;
      assert k != j;
      assert outcomes'[k] == None;
    }
  }

  // All the calls are over, and the results of the first m have been delivered.
  ghost predicate Delivering(calls: seq<ToolCall>, outcomes: seq<Outcome>, m: nat, events: Trace, schedule: seq<nat>) {
    && |calls| == |outcomes| && m <= |calls| && |events| == |schedule|
    && (forall i :: 0 <= i < |schedule| ==> schedule[i] < |calls|)
    && (forall k :: 0 <= k < m ==> Ran(Project(events, schedule, k), calls[k], outcomes[k]))
    && (forall k :: m <= k < |calls| ==> Over(Project(events, schedule, k), calls[k], outcomes[k]))
    && Begun(events) == calls && Pending(events, {}) == {}
  }

  lemma AllOver(calls: seq<ToolCall>, outcomes: seq<Option<Outcome>>, events: Trace, schedule: seq<nat>,
                final: seq<Outcome>)
    requires Interleaved(calls, outcomes, events, schedule) && |outcomes| == |calls| == |final|
    requires forall k :: 0 <= k < |calls| ==> outcomes[k] == Some(final[k])
    ensures Delivering(calls, final, 0, events, schedule) && Ended(events) == []
  {
    assert calls[..|calls|] == calls;
  }

  lemma Deliver(calls: seq<ToolCall>, outcomes: seq<Outcome>, m: nat, events: Trace, schedule: seq<nat>)
    requires Delivering(calls, outcomes, m, events, schedule) && m < |calls|
    ensures Delivering(calls, outcomes, m + 1, events + Pair(ResultOf(calls[m], outcomes[m])), schedule + Only(2, m))
  {
    var pair := Pair(ResultOf(calls[m], outcomes[m]));
    RanAfterOver(Project(events, schedule, m), calls[m], outcomes[m]);
    forall k | 0 <= k < |calls|
      ensures var log := Project(events + pair, schedule + Only(2, m), k);
        if k <= m then Ran(log, calls[k], outcomes[k]) else Over(log, calls[k], outcomes[k])
    {
      ProjectLog(events, schedule, pair, m, k);
    }
    EndedPair(events, ResultOf(calls[m], outcomes[m]), {});
  }

  // ---------- A batch that is not over ----------

  // The results of the first calls have been delivered; the others that have started run on, or wait for delivery.
  ghost predicate Unfinished(calls: seq<ToolCall>, delivered: nat, outcomes: seq<Option<Outcome>>, events: Trace,
                             schedule: seq<nat>) {
    && delivered <= |outcomes| <= |calls| && |events| == |schedule|
    && (forall i :: 0 <= i < |schedule| ==> schedule[i] < |outcomes|)
    && (forall k :: 0 <= k < |outcomes| ==>
          match outcomes[k]
          case None => delivered <= k && Running(Project(events, schedule, k), calls[k])
          case Some(outcome) =>
            if k < delivered then Ran(Project(events, schedule, k), calls[k], outcome)
            else Over(Project(events, schedule, k), calls[k], outcome))
    && Begun(events) == calls[..|outcomes|] && |Ended(events)| == delivered
    && (forall k :: 0 <= k < delivered ==>
          outcomes[k].Some? && Ended(events)[k] == ResultOf(calls[k], outcomes[k].value))
  }

  function Known(outcomes: seq<Outcome>): seq<Option<Outcome>> {
    seq(|outcomes|, k requires 0 <= k < |outcomes| => Some(outcomes[k]))
  }

  lemma InterleavedUnfinished(calls: seq<ToolCall>, outcomes: seq<Option<Outcome>>, events: Trace, schedule: seq<nat>)
    requires Interleaved(calls, outcomes, events, schedule)
    ensures Unfinished(calls, 0, outcomes, events, schedule)
  {
  }

  // A call runs after others that are over.
  lemma BatchUnfinished(calls: seq<ToolCall>, outcomes: seq<Outcome>, results: seq<Message>, events: Trace,
                        schedule: seq<nat>, log: Trace)
    requires |outcomes| < |calls| && Batch(calls[..|outcomes|], outcomes, results, events, schedule)
    requires Running(log, calls[|outcomes|])
    ensures Unfinished(calls, |outcomes|, Known(outcomes) + [None], events + log, schedule + Only(|log|, |outcomes|))
  {
    hide Project, Running, Over, Ran, Pending;
    var n := |outcomes|;
    var schedule' := schedule + Only(|log|, n);
    forall k | 0 <= k <= n
      ensures Project(events + log, schedule', k) == if k == n then log else Project(events, schedule, k)
    {
      ProjectLog(events, schedule, log, n, k);
      if k == n {
        ProjectNone(events, schedule, n);
      }
    }
    StartedAlone(log, calls[n]);
    BegunConcat(events, log);
    EndedConcat(events, log);
    TakeNext(calls, n);
  }
}
