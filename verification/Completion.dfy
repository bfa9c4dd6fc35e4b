/** How a shell command's result is settled.  One thread reads the foreground status from the status channel,
    another watches for the death of the shell, a third moves the output; callbacks are registered from
    anywhere.  Each step is one region under a lock, or one wait that has ended.
 */
module Completion {
  import opened Basics

  type Callback = int

  // Where the reporting thread is; `status` is what it has read from the channel.
  datatype Reporter =
    | Reading
    | Storing(status: Option<int>)
    | Signaling(status: Option<int>)
    | AwaitingCompletion(code: int)
    | ReportFinalizing(code: int)
    | ReportCalling(callbacks: seq<Callback>)
    | ReporterEnded

  // Where the watching thread is; `code` is the exit code of the shell process.
  datatype Watcher =
    | Waiting
    | AwaitingStatus(code: int)
    | Comparing(code: int, delivered: Option<int>)
    | WatchFinalizing(code: int)
    | WatchCalling(callbacks: seq<Callback>)
    | Reaping
    | WatcherEnded

  datatype Handle = Handle(
    status: Option<int>,           // delivered on the status channel
    statusKnown: bool,
    completionTerminal: bool,      // the output fence was seen or given up
    result: Option<int>,
    done: bool,
    callbacks: seq<Callback>,      // registered, to be run when done
    reporter: Reporter,
    watcher: Watcher,
    immediate: multiset<Callback>, // registered after the fact, about to be run
    registered: multiset<Callback>,
    ran: multiset<Callback>,
    finalizations: nat)
  {
    // The region that sets the result, unless it is set already; what comes back is to be run.
    function Finalize(code: int): (Handle, seq<Callback>) {
      if done then (this, [])
      else (this.(result := Some(code), done := true, callbacks := [], finalizations := finalizations + 1), callbacks)
    }

    function RunFirst(pending: seq<Callback>): Handle
      requires pending != []
    {
      this.(ran := ran + multiset{pending[0]})
    }
  }

  datatype Step =
    | ReadStatus(status: Option<int>)
    | ReadFails                       // an exception ends the thread after it has signaled
    | StoreStatus
    | SignalStatus
    | CompletionSeen
    | ReportFinalize
    | ReportCall
    | ShellExits(code: int)
    | StatusSeen
    | Compare
    | WatchFinalize
    | WatchCall
    | Reap                            // see KillReap.dfy
    | FenceReached                    // the output thread sees the marker or the end of the output
    | AddDoneCallback(callback: Callback)
    | RunImmediately(callback: Callback)

  predicate Possible(h: Handle, step: Step) {
    match step
    case ReadStatus(_) => h.reporter.Reading?
    case ReadFails => h.reporter.Reading?
    case StoreStatus => h.reporter.Storing?
    case SignalStatus => h.reporter.Signaling?
    case CompletionSeen => h.reporter.AwaitingCompletion? && h.completionTerminal
    case ReportFinalize => h.reporter.ReportFinalizing?
    case ReportCall => h.reporter.ReportCalling?
    case ShellExits(_) => h.watcher.Waiting?
    case StatusSeen => h.watcher.AwaitingStatus? && h.statusKnown
    case Compare => h.watcher.Comparing?
    case WatchFinalize => h.watcher.WatchFinalizing?
    case WatchCall => h.watcher.WatchCalling?
    case Reap => h.watcher.Reaping?
    case FenceReached => true
    case AddDoneCallback(_) => true
    case RunImmediately(c) => c in h.immediate
  }

  function Next(h: Handle, step: Step): Handle
    requires Possible(h, step)
  {
    match step
    case ReadStatus(status) => h.(reporter := Storing(status))
    case ReadFails => h.(reporter := Signaling(None))
    case StoreStatus => h.(status := h.reporter.status, reporter := Signaling(h.reporter.status))
    case SignalStatus =>
      h.(statusKnown := true,
         reporter := if h.reporter.status.Some? then AwaitingCompletion(h.reporter.status.value) else ReporterEnded)
    case CompletionSeen => h.(reporter := ReportFinalizing(h.reporter.code))
    case ReportFinalize =>
      var (settled, pending) := h.Finalize(h.reporter.code);
      settled.(reporter := ReportCalling(pending))
    case ReportCall =>
      if h.reporter.callbacks == [] then h.(reporter := ReporterEnded)
      else h.RunFirst(h.reporter.callbacks).(reporter := ReportCalling(h.reporter.callbacks[1..]))
    case ShellExits(code) => h.(watcher := AwaitingStatus(code))
    case StatusSeen => h.(watcher := Comparing(h.watcher.code, h.status))
    case Compare =>
      if h.watcher.delivered == None && !h.done then
        h.(completionTerminal := true, watcher := WatchFinalizing(h.watcher.code))
      else h.(watcher := Reaping)
    case WatchFinalize =>
      var (settled, pending) := h.Finalize(h.watcher.code);
      settled.(watcher := WatchCalling(pending))
    case WatchCall =>
      if h.watcher.callbacks == [] then h.(watcher := Reaping)
      else h.RunFirst(h.watcher.callbacks).(watcher := WatchCalling(h.watcher.callbacks[1..]))
    case Reap => h.(watcher := WatcherEnded)
    case FenceReached => h.(completionTerminal := true)
    case AddDoneCallback(c) =>
      var added := h.(registered := h.registered + multiset{c});
      if h.done then added.(immediate := h.immediate + multiset{c}) else added.(callbacks := h.callbacks + [c])
    case RunImmediately(c) => h.(immediate := h.immediate - multiset{c}, ran := h.ran + multiset{c})
  }

  function Spawned(): Handle {
    Handle(None, false, false, None, false, [], Reading, Waiting, multiset{}, multiset{}, multiset{}, 0)
  }

  predicate Feasible(h: Handle, steps: seq<Step>)
    decreases steps, 0
  {
    steps == [] ||
    (Feasible(h, steps[..|steps| - 1]) && Possible(Run(h, steps[..|steps| - 1]), steps[|steps| - 1]))
  }

  function Run(h: Handle, steps: seq<Step>): Handle
    requires Feasible(h, steps)
    decreases steps, 1
  {
    if steps == [] then h else Next(Run(h, steps[..|steps| - 1]), steps[|steps| - 1])
  }

  // ---------- What every schedule keeps ----------

  ghost predicate ReporterConsistent(h: Handle) {
    match h.reporter
    case Reading => h.status == None && !h.statusKnown
    case Storing(_) => h.status == None && !h.statusKnown
    case Signaling(status) => h.status == status && !h.statusKnown
    case AwaitingCompletion(code) => h.status == Some(code) && h.statusKnown
    case ReportFinalizing(code) => h.status == Some(code) && h.statusKnown
    case ReportCalling(_) => h.status.Some? && h.statusKnown && h.done
    case ReporterEnded => h.statusKnown && (h.status.Some? ==> h.done)
  }

  ghost predicate WatcherConsistent(h: Handle) {
    match h.watcher
    case Comparing(_, delivered) => h.statusKnown && delivered == h.status
    case WatchFinalizing(_) => h.statusKnown && h.status == None
    case WatchCalling(_) => h.statusKnown && h.done
    case Reaping => h.statusKnown && (h.status == None ==> h.done)
    case WatcherEnded => h.statusKnown && (h.status == None ==> h.done)
    case _ => true
  }

  // Everything but the callbacks.
  ghost predicate Settling(h: Handle) {
    && (h.done <==> h.result.Some?) && h.finalizations == (if h.done then 1 else 0)
    && (h.done ==> h.statusKnown)
    && ReporterConsistent(h) && WatcherConsistent(h)
    && (h.status.Some? && h.done ==> h.result == h.status)
  }

  function Occurrences(callbacks: seq<Callback>, c: Callback): nat { multiset(callbacks)[c] }

  // In how many places a callback is waiting to be run.
  function Pending(h: Handle, c: Callback): nat {
    Occurrences(h.callbacks, c)
    + (if h.reporter.ReportCalling? then Occurrences(h.reporter.callbacks, c) else 0)
    + (if h.watcher.WatchCalling? then Occurrences(h.watcher.callbacks, c) else 0)
    + h.immediate[c]
  }

  // Each registration of a callback is waiting to be run in exactly one place, or has been run.
  ghost predicate CallbackKept(h: Handle, c: Callback) {
    && (!h.done ==> h.ran[c] == 0 && h.immediate[c] == 0)
    && (h.done ==> h.callbacks == [])
    && h.registered[c] == Pending(h, c) + h.ran[c]
  }

  lemma NextSettling(h: Handle, step: Step)
    requires Settling(h) && Possible(h, step)
    ensures Settling(Next(h, step))
    ensures h.done ==> Next(h, step).result == h.result
  {
  }

  lemma FirstAndRest(callbacks: seq<Callback>, c: Callback)
    ensures callbacks != [] ==>
              Occurrences(callbacks, c) == (if callbacks[0] == c then 1 else 0) + Occurrences(callbacks[1..], c)
  {
    if callbacks != [] {
      assert callbacks == [callbacks[0]] + callbacks[1..];
    }
  }

  lemma CallKeepsCallback(h: Handle, step: Step, c: Callback)
    requires h.done && CallbackKept(h, c) && Possible(h, step) && (step.ReportCall? || step.WatchCall?)
    ensures CallbackKept(Next(h, step), c)
  {
    if step.ReportCall? {
      FirstAndRest(h.reporter.callbacks, c);
    } else {
      FirstAndRest(h.watcher.callbacks, c);
    }
  }

  lemma FinalizeKeepsCallback(h: Handle, step: Step, c: Callback)
    requires CallbackKept(h, c) && Possible(h, step) && (step.ReportFinalize? || step.WatchFinalize?)
    ensures CallbackKept(Next(h, step), c)
  {
  }

  lemma RegisterKeepsCallback(h: Handle, step: Step, c: Callback)
    requires CallbackKept(h, c) && Possible(h, step) && (step.AddDoneCallback? || step.RunImmediately?)
    ensures CallbackKept(Next(h, step), c)
  {
    if step.AddDoneCallback? {
      assert Occurrences(h.callbacks + [step.callback], c)
          == Occurrences(h.callbacks, c) + (if step.callback == c then 1 else 0);
    }
  }

  lemma NextKeepsCallback(h: Handle, step: Step, c: Callback)
    requires h.reporter.ReportCalling? || h.watcher.WatchCalling? ==> h.done
    requires CallbackKept(h, c) && Possible(h, step)
    ensures CallbackKept(Next(h, step), c)
  {
    match step
    case ReportCall => CallKeepsCallback(h, step, c);
    case WatchCall => CallKeepsCallback(h, step, c);
    case ReportFinalize => FinalizeKeepsCallback(h, step, c);
    case WatchFinalize => FinalizeKeepsCallback(h, step, c);
    case AddDoneCallback(_) => RegisterKeepsCallback(h, step, c);
    case RunImmediately(_) => RegisterKeepsCallback(h, step, c);
    case _ =>
  }

  /** Over all schedules the result is settled at most once and never replaced, a status delivered on the
      channel wins over the exit code of the shell, and no callback is lost, run twice, or run before
      the result is there. */
  lemma {:induction false} EveryScheduleSettles(steps: seq<Step>, c: Callback)
    requires Feasible(Spawned(), steps)
    ensures Settling(Run(Spawned(), steps)) && CallbackKept(Run(Spawned(), steps), c)
  {
    if steps != [] {
      EveryScheduleSettles(steps[..|steps| - 1], c);
      NextSettling(Run(Spawned(), steps[..|steps| - 1]), steps[|steps| - 1]);
      NextKeepsCallback(Run(Spawned(), steps[..|steps| - 1]), steps[|steps| - 1], c);
    }
  }

  /** Once both threads have ended the result is there, and with nothing left to run every callback has run
      exactly as often as it was registered. */
  lemma BothEnded(steps: seq<Step>, c: Callback)
    requires Feasible(Spawned(), steps)
    ensures var h := Run(Spawned(), steps);
            h.reporter.ReporterEnded? && h.watcher.WatcherEnded? ==>
              && h.result.Some? && h.finalizations == 1
              && (h.status.Some? ==> h.result == h.status)
              && h.ran[c] + h.immediate[c] == h.registered[c]
  {
    EveryScheduleSettles(steps, c);
  }

  // A result once settled survives every continuation of the schedule.
  lemma {:induction false} ResultIsFinal(h: Handle, steps: seq<Step>)
    requires Settling(h) && h.done && Feasible(h, steps)
    ensures Settling(Run(h, steps)) && Run(h, steps).done && Run(h, steps).result == h.result
  {
    if steps != [] {
      ResultIsFinal(h, steps[..|steps| - 1]);
      NextSettling(Run(h, steps[..|steps| - 1]), steps[|steps| - 1]);
    }
  }

  // ---------- Which result ----------

  // What has been read from the status channel, and what code the shell process has exited with.
  function Reported(steps: seq<Step>): Option<int> {
    if steps == [] then None
    else
      var last := steps[|steps| - 1];
      if last.ReadStatus? then last.status else Reported(steps[..|steps| - 1])
  }

  function Exited(steps: seq<Step>): Option<int> {
    if steps == [] then None
    else
      var last := steps[|steps| - 1];
      if last.ShellExits? then Some(last.code) else Exited(steps[..|steps| - 1])
  }

  // The threads carry these two along, and nothing settles the result before the output is complete.
  ghost predicate Carries(h: Handle, reported: Option<int>, exited: Option<int>) {
    && (match h.reporter
        case Reading => reported == None
        case Storing(status) => status == reported
        case _ => h.status == reported)
    && (match h.watcher
        case Waiting => exited == None
        case AwaitingStatus(code) => exited == Some(code)
        case Comparing(code, _) => exited == Some(code)
        case WatchFinalizing(code) => exited == Some(code) && h.completionTerminal
        case _ => true)
    && (h.reporter.ReportFinalizing? ==> h.completionTerminal)
    && (h.done ==> h.completionTerminal && h.result == if reported.Some? then reported else exited)
  }

  lemma NextCarries(h: Handle, step: Step, reported: Option<int>, exited: Option<int>)
    requires Settling(h) && Carries(h, reported, exited) && Possible(h, step)
    ensures Carries(Next(h, step), if step.ReadStatus? then step.status else reported,
                    if step.ShellExits? then Some(step.code) else exited)
  {
  }

  lemma {:induction false} RunCarries(steps: seq<Step>)
    requires Feasible(Spawned(), steps)
    ensures Settling(Run(Spawned(), steps)) && Carries(Run(Spawned(), steps), Reported(steps), Exited(steps))
  {
    if steps != [] {
      var before := steps[..|steps| - 1];
      RunCarries(before);
      NextSettling(Run(Spawned(), before), steps[|steps| - 1]);
      NextCarries(Run(Spawned(), before), steps[|steps| - 1], Reported(before), Exited(before));
    }
  }

  /** The result is the status that came over the channel, or without one the exit code of the shell, and it is not
      there before the output is complete. */
  lemma ResultIs(steps: seq<Step>)
    requires Feasible(Spawned(), steps)
    ensures var h := Run(Spawned(), steps);
      h.done ==>
        && h.completionTerminal && h.result.Some?
        && h.result == if Reported(steps).Some? then Reported(steps) else Exited(steps)
  {
    RunCarries(steps);
  }

  // ---------- Nothing gets stuck ----------

  // How much the two threads still have to do, once the shell has exited and the output is complete.
  function ReporterWork(h: Handle): nat {
    match h.reporter
    case Reading => 6 + |h.callbacks|
    case Storing(_) => 5 + |h.callbacks|
    case Signaling(_) => 4 + |h.callbacks|
    case AwaitingCompletion(_) => 3 + |h.callbacks|
    case ReportFinalizing(_) => 2 + |h.callbacks|
    case ReportCalling(callbacks) => 1 + |callbacks|
    case ReporterEnded => 0
  }

  function WatcherWork(h: Handle): nat {
    match h.watcher
    case Waiting => 6 + |h.callbacks|
    case AwaitingStatus(_) => 5 + |h.callbacks|
    case Comparing(_, _) => 4 + |h.callbacks|
    case WatchFinalizing(_) => 3 + |h.callbacks|
    case WatchCalling(callbacks) => 2 + |callbacks|
    case Reaping => 1
    case WatcherEnded => 0
  }

  function Work(h: Handle): nat { ReporterWork(h) + WatcherWork(h) + if h.completionTerminal then 0 else 1 }

  predicate Ended(h: Handle) { h.reporter.ReporterEnded? && h.watcher.WatcherEnded? }

  // The step that is next: the output is completed, the status is read, the shell exits.
  function Forward(h: Handle): Step
    requires !Ended(h)
  {
    if !h.completionTerminal then FenceReached
    else match h.reporter
      case Reading => ReadStatus(None)
      case Storing(_) => StoreStatus
      case Signaling(_) => SignalStatus
      case AwaitingCompletion(_) => CompletionSeen
      case ReportFinalizing(_) => ReportFinalize
      case ReportCalling(_) => ReportCall
      case ReporterEnded =>
        match h.watcher
        case Waiting => ShellExits(0)
        case AwaitingStatus(_) => StatusSeen
        case Comparing(_, _) => Compare
        case WatchFinalizing(_) => WatchFinalize
        case WatchCalling(_) => WatchCall
        case _ => Reap
  }

  lemma ForwardWorks(h: Handle)
    requires Settling(h) && !Ended(h)
    ensures Possible(h, Forward(h)) && Work(Next(h, Forward(h))) < Work(h)
  {
  }

  lemma {:induction false} RunConcat(h: Handle, a: seq<Step>, b: seq<Step>)
    requires Feasible(h, a) && Feasible(Run(h, a), b)
    ensures Feasible(h, a + b) && Run(h, a + b) == Run(Run(h, a), b)
  {
    if b == [] {
      assert a + b == a;
    } else {
      assert (a + b)[..|a + b| - 1] == a + b[..|b| - 1];
      RunConcat(h, a, b[..|b| - 1]);
    }
  }

  /** From wherever any schedule has led, both threads can still come to their end. */
  lemma {:induction false} CanEnd(h: Handle) returns (more: seq<Step>)
    requires Settling(h)
    ensures Feasible(h, more) && Ended(Run(h, more))
    decreases Work(h)
  {
    if Ended(h) {
      more := [];
    } else {
      hide Work, Settling, Next, Possible, Forward, Ended;
      ForwardWorks(h);
      NextSettling(h, Forward(h));
      var rest := CanEnd(Next(h, Forward(h)));
      var first := [Forward(h)];
      assert first[..0] == [] && first[0] == Forward(h);
      RunConcat(h, first, rest);
      more := first + rest;
    }
  }

  lemma EveryScheduleCanEnd(steps: seq<Step>) returns (more: seq<Step>)
    requires Feasible(Spawned(), steps)
    ensures Feasible(Spawned(), steps + more) && Ended(Run(Spawned(), steps + more))
    ensures Run(Spawned(), steps + more).result.Some?
  {
    RunCarries(steps);
    more := CanEnd(Run(Spawned(), steps));
    RunConcat(Spawned(), steps, more);
    BothEnded(steps + more, 0);
  }
}
