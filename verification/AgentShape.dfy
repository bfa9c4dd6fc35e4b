/** The shape of an agent run: turns, each with injected messages, one assistant message, and its tool batch. */
module AgentShape {
  import opened Basics
  import opened AgentEvents

  datatype Turn = Turn(
    injected: seq<Message>,
    begun: Message, partials: seq<Message>, message: Message,
    outcomes: seq<Outcome>, results: seq<Message>, toolEvents: Trace, schedule: seq<nat>)

  predicate Stopped(message: Message) { message.Assistant? && message.stopReason in {Failed, Aborted} }

  function TurnEvents(t: Turn): Trace {
    [TurnStart] + Pairs(t.injected) + Spoken(t.begun, t.partials, t.message) + t.toolEvents
    + [TurnEnd(t.message, t.results)]
  }

  // The messages a turn adds to the transcript.
  function Added(t: Turn): seq<Message> { t.injected + [t.message] + t.results }

  // Calls are executed in order, each once; a message that failed or was aborted executes none.
  ghost predicate Good(t: Turn) {
    && t.message.Assistant?
    && var calls := ToolCalls(t.message.parts);
       && |t.outcomes| <= |calls|
       && Batch(calls[..|t.outcomes|], t.outcomes, t.results, t.toolEvents, t.schedule)
       && (Stopped(t.message) ==> t.outcomes == [])
  }

  // Every call was executed.
  predicate Complete(t: Turn) { t.message.Assistant? && |t.outcomes| == |ToolCalls(t.message.parts)| }

  // The model is to see tool results.
  predicate More(t: Turn) {
    t.message.Assistant? && !Stopped(t.message) && ToolCalls(t.message.parts) != [] && !Terminates(t.outcomes)
  }

  function AllEvents(turns: seq<Turn>): Trace {
    if turns == [] then [] else AllEvents(turns[..|turns| - 1]) + TurnEvents(turns[|turns| - 1])
  }

  function AllAdded(turns: seq<Turn>): seq<Message> {
    if turns == [] then [] else AllAdded(turns[..|turns| - 1]) + Added(turns[|turns| - 1])
  }

  function AllInjected(turns: seq<Turn>): seq<Message> {
    if turns == [] then [] else AllInjected(turns[..|turns| - 1]) + turns[|turns| - 1].injected
  }

  // A turn is due at the start, when the model is to see tool results, or when there are messages to inject.
  predicate Due(turns: seq<Turn>, injected: seq<Message>, pending: seq<Message>) {
    turns == [] || More(turns[|turns| - 1]) || injected != [] || pending != []
  }

  // Every turn was due; only the last one can have failed or have left calls out.
  ghost predicate GoodTurns(turns: seq<Turn>) {
    && (forall i :: 0 <= i < |turns| ==> Good(turns[i]))
    && (forall i :: 0 <= i < |turns| - 1 ==> !Stopped(turns[i].message) && Complete(turns[i]))
    && (forall i :: 0 < i < |turns| ==> More(turns[i - 1]) || turns[i].injected != [])
  }

  // The last turn leaves room for another one.
  ghost predicate Settled(turns: seq<Turn>) {
    GoodTurns(turns) && (turns != [] ==> !Stopped(turns[|turns| - 1].message) && Complete(turns[|turns| - 1]))
  }

  lemma TurnAdded(turns: seq<Turn>, t: Turn)
    ensures AllEvents(turns + [t]) == AllEvents(turns) + TurnEvents(t)
    ensures AllAdded(turns + [t]) == AllAdded(turns) + Added(t)
    ensures AllInjected(turns + [t]) == AllInjected(turns) + t.injected
  {
    assert (turns + [t])[..|turns|] == turns;
  }

  lemma GoodTurnAdded(turns: seq<Turn>, t: Turn)
    requires Settled(turns) && Good(t) && Due(turns, t.injected, [])
    ensures GoodTurns(turns + [t]) && (!Stopped(t.message) && Complete(t) ==> Settled(turns + [t]))
  {
  }

  // A trace that ends these messages and leaves no tool call open.
  ghost predicate Reads(trace: Trace, ended: seq<Message>) { Ended(trace) == ended && Pending(trace, {}) == {} }

  lemma ReadsConcat(a: Trace, x: seq<Message>, b: Trace, y: seq<Message>)
    requires Reads(a, x) && Reads(b, y)
    ensures Reads(a + b, x + y)
  {
    EndedConcat(a, b);
    PendingConcat(a, b, {});
  }

  lemma ReadsNothing(event: Event)
    requires event.TurnStart? || event.TurnEnd? || event.AgentStart? || event.AgentEnd?
    ensures Reads([event], [])
  {
    assert [event][..0] == [];
  }

  lemma EndedTurn(t: Turn)
    requires Good(t)
    ensures Reads(TurnEvents(t), Added(t))
  {
    ReadsNothing(TurnStart);
    ReadsNothing(TurnEnd(t.message, t.results));
    EndedPairs(t.injected, {});
    EndedSpoken(t.begun, t.partials, t.message, {});
    var head := [TurnStart] + Pairs(t.injected);
    ReadsConcat([TurnStart], [], Pairs(t.injected), t.injected);
    assert [] + t.injected == t.injected;
    ReadsConcat(head, t.injected, Spoken(t.begun, t.partials, t.message), [t.message]);
    var said := head + Spoken(t.begun, t.partials, t.message);
    ReadsConcat(said, t.injected + [t.message], t.toolEvents, t.results);
    ReadsConcat(said + t.toolEvents, Added(t), [TurnEnd(t.message, t.results)], []);
    assert Added(t) + [] == Added(t);
  }

  /** The messages that have ended are exactly those the turns added, and no tool call stays open. */
  lemma {:induction false} EndedTurns(turns: seq<Turn>)
    requires forall i :: 0 <= i < |turns| ==> Good(turns[i])
    ensures Reads(AllEvents(turns), AllAdded(turns))
  {
    if turns != [] {
      var n := |turns| - 1;
      EndedTurns(turns[..n]);
      EndedTurn(turns[n]);
      ReadsConcat(AllEvents(turns[..n]), AllAdded(turns[..n]), TurnEvents(turns[n]), Added(turns[n]));
    }
  }

  // ---------- Which calls a turn runs ----------

  // `at` lists the places of the tool calls in a message, and `calls` the calls there.
  ghost predicate CallsAt(parts: seq<Part>, at: seq<nat>, calls: seq<ToolCall>) {
    && |at| == |calls| && (forall i :: 0 <= i < |parts| ==> (parts[i].Call? <==> i in at))
    && (forall k :: 0 <= k < |at| ==> at[k] < |parts| && parts[at[k]] == Call(calls[k]))
    && (forall j, k :: 0 <= j < k < |at| ==> at[j] < at[k])
  }

  lemma {:induction false} CallsFound(parts: seq<Part>) returns (at: seq<nat>)
    ensures CallsAt(parts, at, ToolCalls(parts))
  {
    if parts == [] {
      at := [];
    } else {
      var n := |parts| - 1;
      var before := CallsFound(parts[..n]);
      CallsAtNext(parts[..n], before, ToolCalls(parts[..n]), parts[n]);
      assert parts == parts[..n] + [parts[n]];
      at := if parts[n].Call? then before + [n] else before;
    }
  }

  lemma CallsAtNext(parts: seq<Part>, at: seq<nat>, calls: seq<ToolCall>, part: Part)
    requires CallsAt(parts, at, calls)
    ensures if part.Call? then CallsAt(parts + [part], at + [|parts|], calls + [part.toolCall])
            else CallsAt(parts + [part], at, calls + [])
  {
    assert |parts| !in at && calls + [] == calls;
  }

  lemma BegunPairs(messages: seq<Message>)
    ensures Begun(Pairs(messages)) == []
  {
    if messages != [] {
      var n := |messages| - 1;
      BegunPairs(messages[..n]);
      EndedPair(Pairs(messages[..n]), messages[n], {});
    }
  }

  lemma {:induction false} BegunUpdates(partials: seq<Message>)
    ensures Begun(Updates(partials)) == []
  {
    if partials != [] {
      var n := |partials| - 1;
      BegunUpdates(partials[..n]);
      assert Updates(partials)[..n] == Updates(partials[..n]);
    }
  }

  // The calls that start in a turn are those of its batch.
  lemma BegunTurn(t: Turn)
    ensures Begun(TurnEvents(t)) == Begun(t.toolEvents)
  {
    var spoken := Spoken(t.begun, t.partials, t.message);
    BegunPairs(t.injected);
    BegunUpdates(t.partials);
    BegunSnoc([], TurnStart);
    BegunSnoc([], MessageStart(t.begun));
    assert [] + [TurnStart] == [TurnStart] && [] + [MessageStart(t.begun)] == [MessageStart(t.begun)];
    BegunConcat([TurnStart], Pairs(t.injected));
    BegunConcat([MessageStart(t.begun)], Updates(t.partials));
    BegunSnoc([MessageStart(t.begun)] + Updates(t.partials), MessageEnd(t.message));
    BegunConcat([TurnStart] + Pairs(t.injected), spoken);
    BegunConcat([TurnStart] + Pairs(t.injected) + spoken, t.toolEvents);
    BegunSnoc([TurnStart] + Pairs(t.injected) + spoken + t.toolEvents, TurnEnd(t.message, t.results));
  }

  // What a turn with this answer does when nothing keeps it from running its calls.
  ghost predicate RunsItsCalls(t: Turn, at: seq<nat>) {
    && t.message.Assistant? && CallsAt(t.message.parts, at, Begun(TurnEvents(t)))
    && |t.results| == |t.outcomes| == |at|
    && (forall k :: 0 <= k < |at| && at[k] < |t.message.parts| && t.message.parts[at[k]].Call? ==>
          var call := t.message.parts[at[k]].toolCall;
          t.results[k] == ToolResult(call.id, call.name, t.outcomes[k].content, t.outcomes[k].isError))
  }

  /** When nothing keeps it from running its calls, exactly the calls among the parts of the answer start, in order,
      and each has its result in the same place; the model is to see them unless there is none or every one asks to
      end the run. */
  lemma TurnRunsItsCalls(t: Turn) returns (at: seq<nat>)
    requires Good(t) && Complete(t) && t.message.stopReason != Failed && t.message.stopReason != Aborted
    ensures RunsItsCalls(t, at)
    ensures More(t) <==> exists k :: 0 <= k < |t.outcomes| && !t.outcomes[k].terminate
  {
    at := CallsFound(t.message.parts);
    BegunTurn(t);
    var calls := ToolCalls(t.message.parts);
    assert calls[..|calls|] == calls;
  }

  // A failed or aborted answer runs none.
  lemma StoppedTurnRunsNothing(t: Turn)
    requires Good(t) && (t.message.stopReason == Failed || t.message.stopReason == Aborted)
    ensures Begun(TurnEvents(t)) == [] && t.results == [] && !More(t)
  {
    BegunTurn(t);
    assert ToolCalls(t.message.parts)[..0] == [];
  }

  // ---------- A run that is not over ----------

  // What has been emitted since the last turn ended: nothing, injected messages, part of an answer, or an answer
  // and part of its batch.
  datatype Rest =
    | Idle
    | Opened(injected: seq<Message>)
    | Speaking(injected: seq<Message>, begun: Message, partials: seq<Message>)
    | Acting(injected: seq<Message>, begun: Message, partials: seq<Message>, message: Message,
             delivered: nat, outcomes: seq<Option<Outcome>>, toolEvents: Trace, schedule: seq<nat>)
  {
    function Injected(): seq<Message> { if Idle? then [] else injected }
  }

  function RestEvents(rest: Rest): Trace {
    match rest
    case Idle => []
    case Opened(injected) => [TurnStart] + Pairs(injected)
    case Speaking(injected, begun, partials) =>
      [TurnStart] + Pairs(injected) + [MessageStart(begun)] + Updates(partials)
    case Acting(injected, begun, partials, message, _, _, toolEvents, _) =>
      [TurnStart] + Pairs(injected) + Spoken(begun, partials, message) + toolEvents
  }

  ghost predicate GoodRest(rest: Rest) {
    rest.Acting? ==>
      && rest.message.Assistant? && !Stopped(rest.message)
      && Unfinished(ToolCalls(rest.message.parts), rest.delivered, rest.outcomes, rest.toolEvents, rest.schedule)
  }

  // The messages that have ended since.
  function RestAdded(rest: Rest): seq<Message> {
    rest.Injected() + if rest.Acting? then [rest.message] + Ended(rest.toolEvents) else []
  }

  // The prompts come first in the first turn.
  predicate Lead(prompts: seq<Message>, turns: seq<Turn>, injected: seq<Message>) {
    prompts <= if turns == [] then injected else turns[0].injected
  }

  /** The trace of a run that has been broken off, or is still under way, after any number of turns; `left` is what
      has been polled and not injected yet. */
  ghost predicate BrokenOff(trace: Trace, prompts: seq<Message>, turns: seq<Turn>, polls: seq<Poll>,
                            rest: Rest, left: seq<Message>) {
    && trace == [AgentStart] + AllEvents(turns) + RestEvents(rest)
    && Settled(turns) && GoodRest(rest)
    && prompts + Polled(polls) == AllInjected(turns) + rest.Injected() + left
    && Disciplined(polls, turns) && Lead(prompts, turns, rest.Injected())
  }

  lemma EndedRest(rest: Rest)
    ensures Ended(RestEvents(rest)) == RestAdded(rest)
  {
    match rest
    case Idle =>
    case Opened(injected) => EndedOpening(injected);
    case Speaking(injected, begun, partials) =>
      EndedOpening(injected);
      EndedSnoc([TurnStart] + Pairs(injected), MessageStart(begun));
      UpdatesEndNothing(partials, {});
      EndedConcat([TurnStart] + Pairs(injected) + [MessageStart(begun)], Updates(partials));
    case Acting(injected, begun, partials, message, _, _, toolEvents, _) =>
      EndedOpening(injected);
      EndedSpoken(begun, partials, message, {});
      EndedConcat([TurnStart] + Pairs(injected), Spoken(begun, partials, message));
      EndedConcat([TurnStart] + Pairs(injected) + Spoken(begun, partials, message), toolEvents);
      ConcatAssociates(injected, [message], Ended(toolEvents));
  }

  lemma EndedOpening(injected: seq<Message>)
    ensures Ended([TurnStart] + Pairs(injected)) == injected
  {
    ReadsNothing(TurnStart);
    EndedPairs(injected, {});
    EndedConcat([TurnStart], Pairs(injected));
  }

  /** The messages that had ended are those of the turns and what the open one had added; the prompts come first. */
  lemma EndedBrokenOff(trace: Trace, prompts: seq<Message>, turns: seq<Turn>, polls: seq<Poll>, rest: Rest,
                       left: seq<Message>)
    requires BrokenOff(trace, prompts, turns, polls, rest, left)
    ensures Ended(trace) == AllAdded(turns) + RestAdded(rest) && prompts <= Ended(trace)
  {
    hide Disciplined, Ended, Pending, RestEvents, RestAdded, AllEvents, GoodTurns;
    assert Ended([AgentStart] + AllEvents(turns)) == AllAdded(turns) by { EndedSoFar(turns); }
    EndedRest(rest);
    EndedConcat([AgentStart] + AllEvents(turns), RestEvents(rest));
    LeadAdded(prompts, turns, rest);
  }

  lemma EndedSoFar(turns: seq<Turn>)
    requires Settled(turns)
    ensures Ended([AgentStart] + AllEvents(turns)) == AllAdded(turns)
  {
    EndedTurns(turns);
    ReadsNothing(AgentStart);
    EndedConcat([AgentStart], AllEvents(turns));
  }

  lemma LeadAdded(prompts: seq<Message>, turns: seq<Turn>, rest: Rest)
    requires Lead(prompts, turns, rest.Injected())
    ensures prompts <= AllAdded(turns) + RestAdded(rest)
  {
    if turns == [] {
      assert AllAdded(turns) + RestAdded(rest) == RestAdded(rest);
    } else {
      FirstAdded(turns);
    }
  }

  // What the first turn adds comes first.
  lemma {:induction false} FirstAdded(turns: seq<Turn>)
    requires turns != []
    ensures turns[0].injected <= AllAdded(turns)
  {
    var n := |turns| - 1;
    if n == 0 {
      assert turns[..0] == [];
      assert Added(turns[0]) == turns[0].injected + ([turns[0].message] + turns[0].results);
    } else {
      FirstAdded(turns[..n]);
    }
  }

  // ---------- Polls ----------

  datatype Source = Steering | FollowUps | Continuations

  // What a poll brought, and after how many turns it was made.
  datatype Poll = Poll(source: Source, turn: nat, messages: seq<Message>)

  function Polled(polls: seq<Poll>): seq<Message> {
    if polls == [] then [] else Polled(polls[..|polls| - 1]) + polls[|polls| - 1].messages
  }

  // What the polls of one source brought.
  function PolledFrom(polls: seq<Poll>, source: Source): seq<Message> {
    if polls == [] then []
    else
      var before, last := PolledFrom(polls[..|polls| - 1], source), polls[|polls| - 1];
      if last.source == source then before + last.messages else before
  }

  lemma PolledFromSnoc(polls: seq<Poll>, poll: Poll, source: Source)
    ensures PolledFrom(polls + [poll], source)
         == if poll.source == source then PolledFrom(polls, source) + poll.messages else PolledFrom(polls, source)
  {
    assert (polls + [poll])[..|polls|] == polls;
  }

  // What a poll of this source had drained when it lost its race with the signal.
  function LostBy(lost: Option<Poll>, source: Source): seq<Message> {
    if lost.Some? && lost.value.source == source then lost.value.messages else []
  }

  // How a run can throw: with no tool running, and with polled messages left to inject only if the signal has been
  // raised since, and then nothing else is lost.
  predicate Overtaken(rest: Rest, left: seq<Message>, aborted: bool, lost: Option<Poll>) {
    !rest.Acting? && (left != [] ==> aborted && lost == None)
  }

  // Follow-ups are asked for only after a turn without further tool calls and an empty steering poll,
  // continuations only after empty follow-ups.
  ghost predicate InTurn(polls: seq<Poll>, i: int, turns: seq<Turn>)
    requires 0 <= i < |polls|
  {
    match polls[i].source
    case Steering => true
    case FollowUps =>
      && i > 0 && polls[i - 1] == Poll(Steering, polls[i].turn, [])
      && 0 < polls[i].turn <= |turns| && !More(turns[polls[i].turn - 1])
    case Continuations => i > 0 && polls[i - 1] == Poll(FollowUps, polls[i].turn, [])
  }

  ghost predicate Disciplined(polls: seq<Poll>, turns: seq<Turn>) {
    && (forall i :: 0 <= i < |polls| ==> InTurn(polls, i, turns) && polls[i].turn <= |turns|)
    && (forall i, j :: 0 <= i < j < |polls| ==> polls[i].turn <= polls[j].turn)
  }

  lemma PollAdded(polls: seq<Poll>, poll: Poll, turns: seq<Turn>)
    requires Disciplined(polls, turns) && poll.turn == |turns| && InTurn(polls + [poll], |polls|, turns)
    ensures Disciplined(polls + [poll], turns) && Polled(polls + [poll]) == Polled(polls) + poll.messages
  {
    assert (polls + [poll])[..|polls|] == polls;
    forall i | 0 <= i < |polls| ensures InTurn(polls + [poll], i, turns) {
      assert InTurn(polls, i, turns);
    }
  }

  lemma FollowUpsInTurn(polls: seq<Poll>, turns: seq<Turn>, answer: seq<Message>)
    requires polls != [] && polls[|polls| - 1] == Poll(Steering, |turns|, [])
    requires turns != [] && !More(turns[|turns| - 1])
    ensures InTurn(polls + [Poll(FollowUps, |turns|, answer)], |polls|, turns)
  {
  }

  lemma TurnKeepsPolls(polls: seq<Poll>, turns: seq<Turn>, t: Turn)
    requires Disciplined(polls, turns)
    ensures Disciplined(polls, turns + [t])
  {
    forall i | 0 <= i < |polls| ensures InTurn(polls, i, turns + [t]) {
      assert InTurn(polls, i, turns);
    }
  }

  // ---------- One more message ----------

  lemma OpenGrows(head: Trace, injected: seq<Message>, message: Message)
    ensures head + ([TurnStart] + Pairs(injected)) + [MessageStart(message)] + [MessageEnd(message)]
         == head + ([TurnStart] + Pairs(injected + [message]))
  {
    assert (injected + [message])[..|injected|] == injected;
    var open := [TurnStart] + Pairs(injected);
    assert [TurnStart] + (Pairs(injected) + Pair(message)) == open + Pair(message);
    assert head + open + [MessageStart(message)] + [MessageEnd(message)] == head + (open + Pair(message));
  }

  lemma AccountGrows(before: seq<Message>, injected: seq<Message>, message: Message, rest: seq<Message>)
    ensures before + injected + ([message] + rest) == before + (injected + [message]) + rest
    ensures before + injected + [message] == before + (injected + [message])
  {
    ConcatAssociates(before + injected, [message], rest);
    ConcatAssociates(before, injected, [message]);
  }

  lemma LeadGrows(prompts: seq<Message>, turns: seq<Turn>, injected: seq<Message>, message: Message)
    requires Lead(prompts, turns, injected)
    ensures Lead(prompts, turns, injected + [message])
  {
  }

  lemma LeadStays(prompts: seq<Message>, turns: seq<Turn>, t: Turn)
    requires Lead(prompts, turns, t.injected)
    ensures Lead(prompts, turns + [t], [])
  {
  }

  lemma TurnCloses(turns: seq<Turn>, t: Turn)
    ensures [AgentStart] + AllEvents(turns) + ([TurnStart] + Pairs(t.injected)) + Spoken(t.begun, t.partials, t.message)
            + t.toolEvents + [TurnEnd(t.message, t.results)]
         == [AgentStart] + AllEvents(turns + [t])
    ensures AllAdded(turns) + t.injected + [t.message] + t.results == AllAdded(turns + [t])
  {
    TurnAdded(turns, t);
    var head, open := [AgentStart] + AllEvents(turns), [TurnStart] + Pairs(t.injected);
    var said, end := Spoken(t.begun, t.partials, t.message), [TurnEnd(t.message, t.results)];
    ConcatAssociates(head, open, said);
    ConcatAssociates(head, open + said, t.toolEvents);
    ConcatAssociates(head, open + said + t.toolEvents, end);
    ConcatAssociates([AgentStart], AllEvents(turns), TurnEvents(t));
    ConcatAssociates(AllAdded(turns), t.injected, [t.message]);
    ConcatAssociates(AllAdded(turns), t.injected + [t.message], t.results);
  }

  lemma NoTools()
    ensures Batch([], [], [], [], [])
  {
  }

  // ---------- What a tool batch can emit ----------

  predicate BatchEvent(event: Event) {
    || event.ToolStart? || event.ToolUpdate? || event.ToolEnd?
    || (event.MessageStart? && event.message.ToolResult?) || (event.MessageEnd? && event.message.ToolResult?)
  }

  lemma {:induction false} EventOfItsCall(events: Trace, schedule: seq<nat>, i: nat)
    requires |events| == |schedule| && i < |events|
    ensures events[i] in Project(events, schedule, schedule[i])
  {
    var n := |events| - 1;
    if i < n {
      EventOfItsCall(events[..n], schedule[..n], i);
    } else {
      var log := Project(events, schedule, schedule[n]);
      assert log[|log| - 1] == events[n];
    }
  }

  lemma RanEvents(log: Trace, call: ToolCall, outcome: Outcome, i: nat)
    requires Ran(log, call, outcome) && i < |log|
    ensures BatchEvent(log[i])
  {
    var n := |log| - 2;
    if i >= n {
      assert log[i] == log[n..][i - n];
    } else if i == n - 1 {
      assert log[i] == log[..n][i];
    } else {
      assert log[i] == log[..n][..n - 1][i];
    }
  }

  // A batch emits nothing but tool events and result messages.
  lemma BatchEvents(calls: seq<ToolCall>, outcomes: seq<Outcome>, results: seq<Message>, events: Trace,
                    schedule: seq<nat>, i: nat)
    requires Batch(calls, outcomes, results, events, schedule) && i < |events|
    ensures BatchEvent(events[i])
  {
    EventOfItsCall(events, schedule, i);
    var k := schedule[i];
    var log := Project(events, schedule, k);
    var j :| 0 <= j < |log| && log[j] == events[i];
    RanEvents(log, calls[k], outcomes[k], j);
  }

  lemma {:induction false} PairsInOrder(messages: seq<Message>)
    ensures |Pairs(messages)| == 2 * |messages|
    ensures forall k :: 0 <= k < |messages| ==>
      Pairs(messages)[2 * k] == MessageStart(messages[k]) && Pairs(messages)[2 * k + 1] == MessageEnd(messages[k])
  {
    if messages != [] {
      PairsInOrder(messages[..|messages| - 1]);
    }
  }

  // Nothing but the events of a batch.
  ghost predicate BatchOnly(trace: Trace) { forall i :: 0 <= i < |trace| ==> BatchEvent(trace[i]) }

  /** The events of a turn, in their places: it opens, each injected message begins and ends, the answer begins, is
      updated and ends, the batch runs, and the turn closes with the answer and the results. */
  lemma TurnInOrder(t: Turn)
    requires Good(t)
    ensures var e := TurnEvents(t);
      var n := 1 + 2 * |t.injected|;
      var m := n + |t.partials| + 1;
      && |e| == m + 1 + |t.toolEvents| + 1
      && e[0] == TurnStart && e[|e| - 1] == TurnEnd(t.message, t.results)
      && (forall k :: 0 <= k < |t.injected| ==>
            e[1 + 2 * k] == MessageStart(t.injected[k]) && e[2 + 2 * k] == MessageEnd(t.injected[k]))
      && e[n] == MessageStart(t.begun) && e[m] == MessageEnd(t.message)
      && (forall k :: 0 <= k < |t.partials| ==> e[n + 1 + k] == MessageUpdate(t.partials[k]))
      && BatchOnly(e[m + 1..|e| - 1])
  {
    PairsInOrder(t.injected);
    var calls := ToolCalls(t.message.parts);
    forall i | 0 <= i < |t.toolEvents| ensures BatchEvent(t.toolEvents[i]) {
      BatchEvents(calls[..|t.outcomes|], t.outcomes, t.results, t.toolEvents, t.schedule, i);
    }
    hide Pairs, Good, BatchEvent;
    TurnPlaces(t);
  }

  lemma TurnPlaces(t: Turn)
    requires |Pairs(t.injected)| == 2 * |t.injected|
    ensures var e, pairs := TurnEvents(t), Pairs(t.injected);
      var n := 1 + |pairs|;
      var m := n + |t.partials| + 1;
      && |e| == m + 1 + |t.toolEvents| + 1
      && e[0] == TurnStart && e[|e| - 1] == TurnEnd(t.message, t.results)
      && (forall k :: 0 <= k < |pairs| ==> e[1 + k] == pairs[k])
      && e[n] == MessageStart(t.begun) && e[m] == MessageEnd(t.message)
      && (forall k :: 0 <= k < |t.partials| ==> e[n + 1 + k] == MessageUpdate(t.partials[k]))
      && e[m + 1..|e| - 1] == t.toolEvents
  {
    hide Pairs;
  }
}
