/** The lifetime of a Windows process handle shared by any number of threads that poll, wait, kill, resume
    and close.  Every call is a sequence of regions that hold the lock, with the blocking wait outside of it;
    the schedule of the regions is arbitrary, and so are the answers of the kernel.
 */
module JobProcess {
  import opened Basics

  // ---------- The kernel side: two handles and the process behind them ----------

  datatype Kernel = Kernel(
    processOpen: bool, threadOpen: bool,
    processCloses: nat, threadCloses: nat,
    exit: Option<int>,          // set once the process has exited
    misused: bool)              // a handle was used after it had been closed
  {
    function UseProcess(): Kernel { this.(misused := misused || !processOpen) }
    function UseThread(): Kernel { this.(misused := misused || !threadOpen) }
    function CloseProcess(): Kernel {
      UseProcess().(processOpen := false, processCloses := processCloses + 1)
    }
    function CloseThread(): Kernel {
      UseThread().(threadOpen := false, threadCloses := threadCloses + 1)
    }
  }

  // What WaitForSingleObject reports; a wait can also end in an exception.
  datatype WaitResult = Signaled | TimedOut | WaitFailed | Interrupted

  // How a call ends: with an exit code, with nothing to report yet, with its time over, with an error, or not at all
  // yet.
  datatype Outcome = Code(code: int) | Nothing | Expired | Error | Done(ok: bool) | InFlight

  type Tid = int

  datatype Action =
    | Exit(code: int)                                        // the process exits
    | Resume(resumed: bool)
    | Close
    | Poll(result: WaitResult, codeRead: bool)
    | WaitBegin(tid: Tid)
    | WaitEnd(tid: Tid, result: WaitResult, codeRead: bool)  // the blocking wait is over
    | WaitReturn(tid: Tid)
    | Kill(tid: Tid, terminated: bool)
    | KillPoll(tid: Tid, result: WaitResult, codeRead: bool)

  // ---------- The state and what one region does to it ----------

  datatype State = State(
    kernel: Kernel,
    hprocess: bool,             // the field holds the handle
    hthread: bool,
    exitCode: Option<int>,
    waiters: int,
    closeRequested: bool,
    waiting: set<Tid>,          // threads inside the blocking wait
    woken: map<Tid, WaitResult>,// threads between the blocking wait and the return
    killing: set<Tid>,          // threads whose termination request failed
    returned: seq<int>)         // all exit codes returned so far
  {
    function Returning(o: Outcome): State {
      if o.Code? then this.(returned := returned + [o.code]) else this
    }

    function CloseIfRequested(): State {
      if closeRequested && waiters == 0 && hprocess then this.(kernel := kernel.CloseProcess(), hprocess := false)
      else this
    }

    // Reads the exit code and lets go of the thread handle; on failure nothing changes but the use.
    function CacheExitCode(codeRead: bool): (State, bool) {
      var used := this.(kernel := kernel.UseProcess());
      if !codeRead || kernel.exit == None then (used, false)
      else
        var cached := used.(exitCode := kernel.exit);
        (if hthread then cached.(kernel := cached.kernel.CloseThread(), hthread := false) else cached, true)
    }

    function PollStep(result: WaitResult, codeRead: bool): (State, Outcome) {
      if exitCode.Some? then (this, Code(exitCode.value))
      else if !hprocess then (this, Error)
      else
        var used := this.(kernel := kernel.UseProcess());
        match result
        case TimedOut => (used, Nothing)
        case Signaled =>
          var (cached, ok) := used.CacheExitCode(codeRead);
          (cached, if ok then Code(cached.exitCode.value) else Error)
        case _ => (used, Error)
    }
  }

  // The kernel reports a signaled process only once it has exited.
  predicate Possible(s: State, a: Action) {
    match a
    case Exit(_) => s.kernel.exit == None
    case Poll(result, _) => result == Signaled ==> s.kernel.exit.Some?
    case WaitBegin(t) => t !in s.waiting && t !in s.woken && t !in s.killing
    case WaitEnd(t, result, _) => t in s.waiting && (result == Signaled ==> s.kernel.exit.Some?)
    case WaitReturn(t) => t in s.woken
    case Kill(t, _) => t !in s.waiting && t !in s.woken && t !in s.killing
    case KillPoll(t, result, _) => t in s.killing && (result == Signaled ==> s.kernel.exit.Some?)
    case _ => true
  }

  function Next(s: State, a: Action): (State, Outcome)
    requires Possible(s, a)
  {
    match a
    case Exit(code) => (s.(kernel := s.kernel.(exit := Some(code))), Nothing)
    case Resume(resumed) =>
      if !s.hthread then (s, Done(false))
      else
        var used := s.(kernel := s.kernel.UseThread());
        if !resumed then (used, Done(false))
        else (used.(kernel := used.kernel.CloseThread(), hthread := false), Done(true))
    case Close => (s.(closeRequested := true).CloseIfRequested(), Nothing)
    case Poll(result, codeRead) =>
      var (polled, o) := s.PollStep(result, codeRead);
      (polled.Returning(o), o)
    case WaitBegin(t) =>
      if s.exitCode.Some? then (s.Returning(Code(s.exitCode.value)), Code(s.exitCode.value))
      else if !s.hprocess then (s, Error)
      else (s.(waiters := s.waiters + 1, waiting := s.waiting + {t}), InFlight)
    case WaitEnd(t, result, codeRead) =>
      var used := s.(kernel := s.kernel.UseProcess());
      var (cached, ok) :=
        if result == Signaled && s.exitCode == None then used.CacheExitCode(codeRead) else (used, true);
      var left := cached.(waiters := cached.waiters - 1, waiting := cached.waiting - {t}).CloseIfRequested();
      if ok && result != Interrupted then (left.(woken := left.woken[t := result]), InFlight) else (left, Error)
    case WaitReturn(t) =>
      var gone := s.(woken := s.woken - {t});
      if s.exitCode.Some? then (gone.Returning(Code(s.exitCode.value)), Code(s.exitCode.value))
      else (gone, if s.woken[t] == TimedOut then Expired else Error)
    case Kill(t, terminated) =>
      if s.exitCode.Some? || !s.hprocess then (s, Nothing)
      else
        var used := s.(kernel := s.kernel.UseProcess());
        if terminated then (used, Nothing) else (used.(killing := used.killing + {t}), InFlight)
    case KillPoll(t, result, codeRead) =>
      var (polled, o) := s.PollStep(result, codeRead);
      (polled.(killing := polled.killing - {t}), if o.Code? then Nothing else Error)
  }

  function Run(s: State, actions: seq<Action>): (r: State)
    requires Feasible(s, actions)
    decreases actions, 1
  {
    if actions == [] then s else Next(Run(s, actions[..|actions| - 1]), actions[|actions| - 1]).0
  }

  predicate Feasible(s: State, actions: seq<Action>)
    decreases actions, 0
  {
    actions == [] ||
    (Feasible(s, actions[..|actions| - 1]) && Possible(Run(s, actions[..|actions| - 1]), actions[|actions| - 1]))
  }

  function Created(): State {
    State(Kernel(true, true, 0, 0, None, false), true, true, None, 0, false, {}, map[], {}, [])
  }

  // ---------- What every schedule keeps ----------

  ghost predicate Safe(s: State) {
    && !s.kernel.misused
    && s.hprocess == s.kernel.processOpen && s.kernel.processCloses == (if s.hprocess then 0 else 1)
    && s.hthread == s.kernel.threadOpen && s.kernel.threadCloses == (if s.hthread then 0 else 1)
    && s.waiters == |s.waiting|
    && (s.hprocess <==> !(s.closeRequested && s.waiting == {}))
    && (s.exitCode.Some? ==> s.exitCode == s.kernel.exit)
    && forall i :: 0 <= i < |s.returned| ==> s.exitCode == Some(s.returned[i])
  }

  lemma CacheSafe(s: State, codeRead: bool)
    requires Safe(s) && s.hprocess && s.exitCode == None
    ensures var (cached, ok) := s.CacheExitCode(codeRead);
            && Safe(cached) && cached.waiting == s.waiting && cached.closeRequested == s.closeRequested
            && (ok ==> cached.exitCode == s.kernel.exit != None) && (!ok ==> cached == s)
  {
  }

  lemma PollSafe(s: State, result: WaitResult, codeRead: bool)
    requires Safe(s)
    ensures var (polled, o) := s.PollStep(result, codeRead);
            && Safe(polled) && (o.Code? ==> polled.exitCode == Some(o.code))
  {
    if s.exitCode == None && s.hprocess {
      assert s.(kernel := s.kernel.UseProcess()) == s;
      CacheSafe(s, codeRead);
    }
  }

  lemma WaitEndSafe(s: State, t: Tid, result: WaitResult, codeRead: bool)
    requires Safe(s) && Possible(s, WaitEnd(t, result, codeRead))
    ensures Safe(Next(s, WaitEnd(t, result, codeRead)).0)
  {
    assert s.hprocess;
    assert s.(kernel := s.kernel.UseProcess()) == s;
    var cached := s;
    if result == Signaled && s.exitCode == None {
      CacheSafe(s, codeRead);
      cached := s.CacheExitCode(codeRead).0;
    }
    assert |cached.waiting - {t}| == |cached.waiting| - 1;
  }

  lemma NextSafe(s: State, a: Action)
    requires Safe(s) && Possible(s, a)
    ensures Safe(Next(s, a).0)
    ensures Next(s, a).1.Code? ==> s.kernel.exit == Some(Next(s, a).1.code)
  {
    match a
    case Poll(result, codeRead) => PollSafe(s, result, codeRead);
    case KillPoll(t, result, codeRead) => PollSafe(s, result, codeRead);
    case WaitEnd(t, result, codeRead) => WaitEndSafe(s, t, result, codeRead);
    case WaitBegin(t) => assert |s.waiting + {t}| == |s.waiting| + 1;
    case _ =>
  }

  /** Over every interleaving of any number of calls: the waiter count is the number of blocking waits in
      flight, each handle is closed at most once and never used after it, once closing has been requested
      and no wait is in flight the process handle is closed (and not before), and every exit code
      returned is the one the process exited with. */
  lemma {:induction false} EveryScheduleSafe(actions: seq<Action>)
    requires Feasible(Created(), actions)
    ensures Safe(Run(Created(), actions))
  {
    if actions != [] {
      EveryScheduleSafe(actions[..|actions| - 1]);
      NextSafe(Run(Created(), actions[..|actions| - 1]), actions[|actions| - 1]);
    }
  }

  // ---------- What the calls answer, read off the schedule ----------

  // The code the process exited with.
  function Exited(actions: seq<Action>): Option<int> {
    if actions == [] then None
    else
      var last := actions[|actions| - 1];
      if last.Exit? then Some(last.code) else Exited(actions[..|actions| - 1])
  }

  // Some call found the process exited and could read the code from the open handle.
  predicate WasRead(actions: seq<Action>)
    requires Feasible(Created(), actions)
  {
    actions != [] &&
    (WasRead(actions[..|actions| - 1])
     || (Run(Created(), actions[..|actions| - 1]).hprocess && Reads(actions[|actions| - 1])))
  }

  predicate Reads(a: Action) {
    match a
    case Poll(result, codeRead) => result == Signaled && codeRead
    case KillPoll(_, result, codeRead) => result == Signaled && codeRead
    case WaitEnd(_, result, codeRead) => result == Signaled && codeRead
    case _ => false
  }

  // A close was asked for, and no wait keeps the handle open.
  predicate Closed(actions: seq<Action>)
    requires Feasible(Created(), actions)
  {
    Close in actions && Run(Created(), actions).waiting == {}
  }

  // What a poll answers after these actions.
  function PollAnswer(actions: seq<Action>, result: WaitResult, codeRead: bool): Outcome
    requires Feasible(Created(), actions)
  {
    if WasRead(actions) || (!Closed(actions) && result == Signaled && codeRead) then
      match Exited(actions)
      case Some(code) => Code(code)
      case None => Error
    else if !Closed(actions) && result == TimedOut then Nothing
    else Error
  }

  // What one action adds to the history.
  ghost predicate Follows(s: State, a: Action, s': State) {
    && s'.kernel.exit == (if a.Exit? then Some(a.code) else s.kernel.exit)
    && s'.exitCode == (if s.exitCode == None && s.hprocess && Reads(a) then s.kernel.exit else s.exitCode)
    && s'.hthread == (s.hthread && a != Resume(true) && !(s.exitCode == None && s.hprocess && Reads(a)))
    && s'.closeRequested == (s.closeRequested || a == Close)
    && (Reads(a) ==> s.kernel.exit.Some?) && (a.Exit? ==> s.kernel.exit == None)
  }

  lemma StepFollows(s: State, a: Action)
    requires Safe(s) && Possible(s, a)
    ensures Follows(s, a, Next(s, a).0)
  {
    match a
    case Poll(result, codeRead) => PollFollows(s, result, codeRead);
    case KillPoll(t, result, codeRead) => PollFollows(s, result, codeRead);
    case WaitEnd(t, result, codeRead) =>
    case _ =>
  }

  lemma PollFollows(s: State, result: WaitResult, codeRead: bool)
    requires Safe(s) && Possible(s, Poll(result, codeRead))
    ensures Follows(s, Poll(result, codeRead), s.PollStep(result, codeRead).0)
  {
  }

  // The fields hold what the history says.
  ghost predicate Recorded(s: State, actions: seq<Action>)
    requires Feasible(Created(), actions)
  {
    && s.kernel.exit == Exited(actions)
    && s.exitCode == (if WasRead(actions) then Exited(actions) else None)
    && (WasRead(actions) ==> Exited(actions).Some?)
    && (s.hthread <==> !WasRead(actions) && Resume(true) !in actions)
    && (s.closeRequested <==> Close in actions)
  }

  lemma {:induction false} History(actions: seq<Action>)
    requires Feasible(Created(), actions)
    ensures Recorded(Run(Created(), actions), actions)
  {
    if actions != [] {
      var before, last := actions[..|actions| - 1], actions[|actions| - 1];
      History(before);
      EveryScheduleSafe(before);
      StepFollows(Run(Created(), before), last);
      assert forall a :: a in actions <==> a in before || a == last by { assert actions == before + [last]; }
      RecordedNext(before, last, actions);
    }
  }

  lemma RecordedNext(before: seq<Action>, last: Action, actions: seq<Action>)
    requires Feasible(Created(), actions) && actions != [] && before == actions[..|actions| - 1]
    requires last == actions[|actions| - 1] && forall a :: a in actions <==> a in before || a == last
    requires Recorded(Run(Created(), before), before)
    requires Follows(Run(Created(), before), last, Run(Created(), actions))
    ensures Recorded(Run(Created(), actions), actions)
  {
    hide Run, Feasible;
  }

  // What a call must answer after these actions.
  predicate Answers(actions: seq<Action>, a: Action, answer: Outcome)
    requires Feasible(Created(), actions) && Possible(Run(Created(), actions), a)
  {
    match a
    case Poll(result, codeRead) => answer == PollAnswer(actions, result, codeRead)
    case WaitBegin(_) =>
      if WasRead(actions) then answer.Code? && Exited(actions) == Some(answer.code)
      else answer == if Closed(actions) then Error else InFlight
    case WaitEnd(_, result, codeRead) =>
      answer == if result == Interrupted || (result == Signaled && !codeRead && !WasRead(actions)) then Error
                else InFlight
    case WaitReturn(t) =>
      if WasRead(actions) then answer.Code? && Exited(actions) == Some(answer.code)
      else answer == if Run(Created(), actions).woken[t] == TimedOut then Expired else Error
    case Kill(_, terminated) =>
      answer == if terminated || WasRead(actions) || Closed(actions) then Nothing else InFlight
    case KillPoll(_, result, codeRead) =>
      answer == if PollAnswer(actions, result, codeRead).Code? then Nothing else Error
    case Resume(resumed) => answer == Done(resumed && !WasRead(actions) && Resume(true) !in actions)
    case _ => answer == Nothing
  }

  /** After every schedule each call answers what it must: the exit code from the first time it could be read, and
      before that whether the process still runs, or an error if that cannot be told. */
  lemma EveryAnswer(actions: seq<Action>, a: Action)
    requires Feasible(Created(), actions) && Possible(Run(Created(), actions), a)
    ensures Answers(actions, a, Next(Run(Created(), actions), a).1)
  {
    History(actions);
    EveryScheduleSafe(actions);
  }

  // ---------- The object: each method is one region under the lock ----------

  class Process {
    var kernel: Kernel
    var hprocess: bool
    var hthread: bool
    var exitCode: Option<int>
    var waiters: int
    var closeRequested: bool
    ghost var waiting: set<Tid>
    ghost var woken: map<Tid, WaitResult>
    ghost var killing: set<Tid>
    ghost var returned: seq<int>

    ghost function Abstract(): State reads this {
      State(kernel, hprocess, hthread, exitCode, waiters, closeRequested, waiting, woken, killing, returned)
    }

    constructor ()
      ensures Abstract() == Created()
    {
      kernel, hprocess, hthread := Kernel(true, true, 0, 0, None, false), true, true;
      exitCode, waiters, closeRequested := None, 0, false;
      waiting, woken, killing, returned := {}, map[], {}, [];
    }

    method Resume(resumed: bool) returns (o: Outcome)
      modifies this
      ensures (Abstract(), o) == Next(old(Abstract()), Action.Resume(resumed))
    {
      if !hthread {
        return Done(false);
      }
      kernel := kernel.UseThread();
      if !resumed {
        return Done(false);
      }
      kernel := kernel.CloseThread();
      hthread := false;
      return Done(true);
    }

    method CloseHprocessLocked()
      modifies `kernel, `hprocess
      ensures Abstract() == old(Abstract()).CloseIfRequested()
    {
      if closeRequested && waiters == 0 && hprocess {
        kernel := kernel.CloseProcess();
        hprocess := false;
      }
    }

    method Close() returns (o: Outcome)
      modifies this
      ensures (Abstract(), o) == Next(old(Abstract()), Action.Close)
    {
      closeRequested := true;
      CloseHprocessLocked();
      return Nothing;
    }

    method CacheExitCodeLocked(codeRead: bool) returns (ok: bool)
      modifies `kernel, `exitCode, `hthread
      ensures (Abstract(), ok) == old(Abstract()).CacheExitCode(codeRead)
    {
      kernel := kernel.UseProcess();
      if !codeRead || kernel.exit == None {
        return false;
      }
      exitCode := kernel.exit;
      if hthread {
        kernel := kernel.CloseThread();
        hthread := false;
      }
      return true;
    }

    // What poll and the poll inside kill do.
    method PollLocked(result: WaitResult, codeRead: bool) returns (o: Outcome)
      modifies `kernel, `exitCode, `hthread
      ensures (Abstract(), o) == old(Abstract()).PollStep(result, codeRead)
    {
      if exitCode.Some? {
        return Code(exitCode.value);
      }
      if !hprocess {
        return Error;
      }
      kernel := kernel.UseProcess();
      if result == TimedOut {
        return Nothing;
      }
      if result != Signaled {
        return Error;
      }
      var ok := CacheExitCodeLocked(codeRead);
      return if ok then Code(exitCode.value) else Error;
    }

    method Poll(result: WaitResult, codeRead: bool) returns (o: Outcome)
      requires Possible(Abstract(), Action.Poll(result, codeRead))
      modifies this
      ensures (Abstract(), o) == Next(old(Abstract()), Action.Poll(result, codeRead))
    {
      o := PollLocked(result, codeRead);
      returned := if o.Code? then returned + [o.code] else returned;
    }

    // The first region of wait: the thread registers before it blocks.
    method WaitBegin(tid: Tid) returns (o: Outcome)
      requires Possible(Abstract(), Action.WaitBegin(tid))
      modifies this
      ensures (Abstract(), o) == Next(old(Abstract()), Action.WaitBegin(tid))
    {
      if exitCode.Some? {
        returned := returned + [exitCode.value];
        return Code(exitCode.value);
      }
      if !hprocess {
        return Error;
      }
      waiters := waiters + 1;
      waiting := waiting + {tid};
      return InFlight;
    }

    // The blocking wait has used the handle it was given; the region after it runs on every way out.
    method WaitEnd(tid: Tid, result: WaitResult, codeRead: bool) returns (o: Outcome)
      requires Possible(Abstract(), Action.WaitEnd(tid, result, codeRead))
      modifies this
      ensures (Abstract(), o) == Next(old(Abstract()), Action.WaitEnd(tid, result, codeRead))
    {
      kernel := kernel.UseProcess();
      var ok := true;
      if result == Signaled && exitCode == None {
        ok := CacheExitCodeLocked(codeRead);
      }
      waiters := waiters - 1;
      waiting := waiting - {tid};
      CloseHprocessLocked();
      if !ok || result == Interrupted {
        return Error;
      }
      woken := woken[tid := result];
      return InFlight;
    }

    // A code cached during the wait wins over any other result.
    method WaitReturn(tid: Tid, result: WaitResult) returns (o: Outcome)
      requires Possible(Abstract(), Action.WaitReturn(tid)) && result == woken[tid]
      modifies this
      ensures (Abstract(), o) == Next(old(Abstract()), Action.WaitReturn(tid))
    {
      woken := woken - {tid};
      if exitCode.Some? {
        returned := returned + [exitCode.value];
        return Code(exitCode.value);
      }
      if result == TimedOut {
        return Expired;
      }
      return Error;
    }

    method Kill(tid: Tid, terminated: bool) returns (o: Outcome)
      requires Possible(Abstract(), Action.Kill(tid, terminated))
      modifies this
      ensures (Abstract(), o) == Next(old(Abstract()), Action.Kill(tid, terminated))
    {
      if exitCode.Some? || !hprocess {
        return Nothing;
      }
      kernel := kernel.UseProcess();
      if terminated {
        return Nothing;
      }
      killing := killing + {tid};
      return InFlight;
    }

    method KillPoll(tid: Tid, result: WaitResult, codeRead: bool) returns (o: Outcome)
      requires Possible(Abstract(), Action.KillPoll(tid, result, codeRead))
      modifies this
      ensures (Abstract(), o) == Next(old(Abstract()), Action.KillPoll(tid, result, codeRead))
    {
      var polled := PollLocked(result, codeRead);
      killing := killing - {tid};
      return if polled.Code? then Nothing else Error;
    }
  }
}
