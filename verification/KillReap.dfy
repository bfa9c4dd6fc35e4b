/** Killing a shell command against reaping it (bash.py). Any number of threads call `kill` at any time, also from
    its timer, while the watching thread waits for the shell, reaps the process group once and then sets a flag. On
    Windows a kill and the reap exclude each other by a lock; elsewhere a kill looks at the flag and then signals the
    group. Once the shell has been waited for, nothing but other members keeps the group, and its id can be freed at
    any time. Each step is one action that other threads can see.
 */
module KillReap {

  // Where a call of `kill` is.
  datatype Killer = Entering | Queued | Locked | Acting | Unlocking | Signaling | Left

  // Where the watching thread is; between `Terminating` and `GivingLock` it owns the lock.
  datatype Watcher =
    Waiting | Locking | Terminating | ClosingJob | Marking | ClosingProcess | GivingLock | Gone

  datatype Owner = Nobody | TheWatcher | TheKiller(k: nat)

  // A kill, and how things stood when it acted.
  datatype Act = Act(k: nat, reaped: bool, jobOpen: bool, freed: bool)

  datatype Shell = Shell(
    posix: bool,
    reaped: bool,                  // the flag
    jobOpen: bool,
    processOpen: bool,             // an open process handle keeps the process id
    freed: bool,                   // the id may be in use again
    owner: Owner, killers: seq<Killer>, watcher: Watcher, acts: seq<Act>)

  datatype Step = Call | Kill(k: nat) | Watch | GroupEnds

  function Spawned(posix: bool): Shell { Shell(posix, false, !posix, !posix, false, Nobody, [], Waiting, []) }

  predicate Possible(h: Shell, step: Step) {
    match step
    case Call => true
    case Kill(k) => k < |h.killers| && !h.killers[k].Left? && (h.killers[k].Queued? ==> h.owner == Nobody)
    case Watch => !h.watcher.Gone? && (h.watcher.Locking? ==> h.owner == Nobody)
    case GroupEnds => !h.processOpen && !h.watcher.Waiting?
  }

  // Where a call goes next.
  function Moved(h: Shell, killer: Killer): Killer {
    match killer
    case Entering => if h.reaped then Left else if h.posix then Signaling else Queued
    case Queued => Locked
    case Locked => if h.reaped then Unlocking else Acting
    case Acting => Unlocking
    case _ => Left
  }

  function KillStep(h: Shell, k: nat): Shell
    requires Possible(h, Kill(k))
  {
    var killer := h.killers[k];
    h.(killers := h.killers[k := Moved(h, killer)],
       owner := if killer.Queued? then TheKiller(k) else if killer.Unlocking? then Nobody else h.owner,
       acts := if killer.Acting? || killer.Signaling? then h.acts + [Act(k, h.reaped, h.jobOpen, h.freed)] else h.acts)
  }

  function WatchStep(h: Shell): Shell {
    match h.watcher
    case Waiting => h.(watcher := Locking)
    case Locking => h.(owner := TheWatcher, watcher := Terminating)
    case Terminating => h.(watcher := ClosingJob)
    case ClosingJob => h.(jobOpen := false, watcher := Marking)
    case Marking => h.(reaped := true, watcher := ClosingProcess)
    case ClosingProcess => h.(processOpen := false, watcher := GivingLock)
    case GivingLock => h.(owner := Nobody, watcher := Gone)
    case Gone => h
  }

  function Next(h: Shell, step: Step): Shell
    requires Possible(h, step)
  {
    match step
    case Call => h.(killers := h.killers + [Entering])
    case Kill(k) => KillStep(h, k)
    case Watch => WatchStep(h)
    case GroupEnds => h.(freed := true)
  }

  predicate Feasible(h: Shell, steps: seq<Step>)
    decreases steps, 0
  {
    steps == [] ||
    (Feasible(h, steps[..|steps| - 1]) && Possible(Run(h, steps[..|steps| - 1]), steps[|steps| - 1]))
  }

  function Run(h: Shell, steps: seq<Step>): Shell
    requires Feasible(h, steps)
    decreases steps, 1
  {
    if steps == [] then h else Next(Run(h, steps[..|steps| - 1]), steps[|steps| - 1])
  }

  lemma RunSnoc(h: Shell, steps: seq<Step>, step: Step)
    requires Feasible(h, steps) && Possible(Run(h, steps), step)
    ensures Feasible(h, steps + [step]) && Run(h, steps + [step]) == Next(Run(h, steps), step)
  {
    assert (steps + [step])[..|steps|] == steps;
  }

  // ---------- Under the lock ----------

  predicate Inside(killer: Killer) { killer.Locked? || killer.Acting? || killer.Unlocking? }

  predicate InTime(act: Act) { !act.reaped && act.jobOpen && !act.freed }

  // One owner at a time; what has not been reaped still has its handles when somebody else may look.
  ghost predicate Guarded(h: Shell) {
    && (forall k :: 0 <= k < |h.killers| ==>
          !h.killers[k].Signaling? && (Inside(h.killers[k]) <==> h.owner == TheKiller(k)))
    && (h.owner.TheKiller? ==> h.owner.k < |h.killers|)
    && (h.owner == TheWatcher <==> !h.watcher.Waiting? && !h.watcher.Locking? && !h.watcher.Gone?)
    && (h.watcher.Waiting? || h.watcher.Locking? ==> !h.reaped && h.jobOpen)
    && (h.watcher.ClosingProcess? || h.watcher.GivingLock? || h.watcher.Gone? ==> h.reaped)
    && (h.processOpen || h.reaped) && (h.freed ==> !h.processOpen)
    && (forall k :: 0 <= k < |h.killers| && h.killers[k].Acting? ==> !h.reaped)
    && (forall i :: 0 <= i < |h.acts| ==> InTime(h.acts[i]))
  }

  lemma NextGuarded(h: Shell, step: Step)
    requires !h.posix && Guarded(h) && Possible(h, step)
    ensures Guarded(Next(h, step)) && !Next(h, step).posix
  {
    match step
    case Call =>
    case Kill(k) => KillGuarded(h, k);
    case Watch => WatchGuarded(h);
    case GroupEnds =>
  }

  lemma KillGuarded(h: Shell, k: nat)
    requires !h.posix && Guarded(h) && Possible(h, Kill(k))
    ensures Guarded(KillStep(h, k))
  {
    var h' := KillStep(h, k);
    assert forall i :: 0 <= i < |h.killers| && i != k ==> h'.killers[i] == h.killers[i];
  }

  lemma WatchGuarded(h: Shell)
    requires !h.posix && Guarded(h) && Possible(h, Watch)
    ensures Guarded(WatchStep(h))
  {
  }

  /** Under the lock, no kill ever acts on a group that is being reaped or has been: whatever it terminates, the job is
      still open and the process id has not been freed. */
  lemma {:induction false} NoKillAfterReap(steps: seq<Step>)
    requires Feasible(Spawned(false), steps)
    ensures var h := Run(Spawned(false), steps);
      Guarded(h) && !h.posix && forall i :: 0 <= i < |h.acts| ==> InTime(h.acts[i])
  {
    if steps != [] {
      NoKillAfterReap(steps[..|steps| - 1]);
      NextGuarded(Run(Spawned(false), steps[..|steps| - 1]), steps[|steps| - 1]);
    }
  }

  // ---------- Without it ----------

  // A kill has looked and will signal, whatever happens meanwhile.
  predicate Committed(h: Shell) { exists k :: 0 <= k < |h.killers| && h.killers[k].Signaling? }

  // Signals after the id has been freed.
  ghost predicate Late(h: Shell, h': Shell) { exists i :: |h.acts| <= i < |h'.acts| && h'.acts[i].freed }

  // No call ever waits for the lock or owns it, and the flag is set only after the shell has been waited for.
  ghost predicate Unlocked(h: Shell) {
    && h.posix && !h.processOpen && (h.reaped ==> !h.watcher.Waiting?)
    && forall k :: 0 <= k < |h.killers| ==> !h.killers[k].Queued? && !Inside(h.killers[k])
  }

  lemma NextUnlocked(h: Shell, step: Step)
    requires Unlocked(h) && Possible(h, step)
    ensures Unlocked(Next(h, step))
    ensures h.reaped && !Committed(h) ==> var h' := Next(h, step); h'.reaped && !Committed(h') && h'.acts == h.acts
  {
  }

  lemma {:induction false} RunsUnlocked(steps: seq<Step>)
    requires Feasible(Spawned(true), steps)
    ensures Unlocked(Run(Spawned(true), steps))
  {
    if steps != [] {
      RunsUnlocked(steps[..|steps| - 1]);
      NextUnlocked(Run(Spawned(true), steps[..|steps| - 1]), steps[|steps| - 1]);
    }
  }

  /** Elsewhere a kill can signal a group whose id has been freed. After any run that can still happen exactly if the
      flag is not set yet, or a call had looked at it before it was. */
  lemma LateUnlessFlagged(steps: seq<Step>)
    requires Feasible(Spawned(true), steps)
    ensures var h := Run(Spawned(true), steps);
      !h.reaped || Committed(h) <==> exists more :: Feasible(h, more) && Late(h, Run(h, more))
  {
    var h := Run(Spawned(true), steps);
    RunsUnlocked(steps);
    if !h.reaped || Committed(h) {
      var more := SignalLate(h);
      assert exists late :: Feasible(h, late) && Late(h, Run(h, late));
    } else {
      forall more | Feasible(h, more) ensures !Late(h, Run(h, more)) {
        NeverLate(h, more);
      }
    }
  }

  // The shell is waited for, its group ends, and a call that has looked, if need be a new one, signals.
  lemma SignalLate(h: Shell) returns (steps: seq<Step>)
    requires Unlocked(h) && (!h.reaped || Committed(h))
    ensures Feasible(h, steps) && Late(h, Run(h, steps))
  {
    steps := [];
    if h.watcher.Waiting? {
      RunSnoc(h, steps, Watch);
      steps := steps + [Watch];
    }
    RunSnoc(h, steps, GroupEnds);
    steps := steps + [GroupEnds];
    var k := |h.killers|;
    if Committed(h) {
      k :| 0 <= k < |h.killers| && h.killers[k].Signaling?;
    } else {
      RunSnoc(h, steps, Call);
      steps := steps + [Call];
      RunSnoc(h, steps, Kill(k));
      steps := steps + [Kill(k)];
    }
    RunSnoc(h, steps, Kill(k));
    steps := steps + [Kill(k)];
    assert Run(h, steps).acts[|h.acts|].freed;
  }

  lemma NeverLate(h: Shell, steps: seq<Step>)
    requires Unlocked(h) && h.reaped && !Committed(h) && Feasible(h, steps)
    ensures !Late(h, Run(h, steps))
  {
    NothingLate(h, steps);
  }

  lemma {:induction false} NothingLate(h: Shell, steps: seq<Step>)
    requires Unlocked(h) && h.reaped && !Committed(h) && Feasible(h, steps)
    ensures var h' := Run(h, steps); Unlocked(h') && h'.reaped && !Committed(h') && h'.acts == h.acts
  {
    if steps != [] {
      NothingLate(h, steps[..|steps| - 1]);
      NextUnlocked(Run(h, steps[..|steps| - 1]), steps[|steps| - 1]);
    }
  }

  /** Such schedules exist, both before the flag is set and after it: a call looks, the id is freed, the flag may be
      set, the call signals. */
  lemma LateKill(flagged: bool)
    ensures exists steps ::
      Feasible(Spawned(true), steps) && Run(Spawned(true), steps).acts == [Act(0, flagged, false, true)]
  {
    var h, steps := Spawned(true), [];
    var looked := h.(killers := [Signaling], watcher := Locking, freed := true);
    var script := [Call, Kill(0), Watch, GroupEnds];
    for i := 0 to 4
      invariant Feasible(h, steps)
      invariant Run(h, steps) == match i
        case 0 => h
        case 1 => h.(killers := [Entering])
        case 2 => h.(killers := [Signaling])
        case 3 => h.(killers := [Signaling], watcher := Locking)
        case _ => looked
    {
      RunSnoc(h, steps, script[i]);
      steps := steps + [script[i]];
    }
    if flagged {
      var marked := looked.(reaped := true, owner := TheWatcher, watcher := ClosingProcess);
      for i := 0 to 4
        invariant Feasible(h, steps)
        invariant Run(h, steps) == match i
          case 0 => looked
          case 1 => looked.(owner := TheWatcher, watcher := Terminating)
          case 2 => looked.(owner := TheWatcher, watcher := ClosingJob)
          case 3 => looked.(owner := TheWatcher, watcher := Marking)
          case _ => marked
      {
        RunSnoc(h, steps, Watch);
        steps := steps + [Watch];
      }
    }
    RunSnoc(h, steps, Kill(0));
    assert Run(h, steps + [Kill(0)]).acts == [Act(0, flagged, false, true)];
  }

  // ---------- Every kill is decided ----------

  ghost predicate Acted(h: Shell, k: nat) { exists i :: 0 <= i < |h.acts| && h.acts[i].k == k }

  // A call that is done has acted, unless the flag is set; before that it has not.
  ghost predicate DecidedOn(h: Shell, k: nat)
    requires k < |h.killers|
  {
    if h.killers[k].Left? || h.killers[k].Unlocking? then h.reaped || Acted(h, k) else !Acted(h, k)
  }

  ghost predicate Decided(h: Shell) {
    && (forall i :: 0 <= i < |h.acts| ==> h.acts[i].k < |h.killers|)
    && (forall i, j :: 0 <= i < j < |h.acts| ==> h.acts[i].k != h.acts[j].k)
    && (forall k :: 0 <= k < |h.killers| ==> DecidedOn(h, k))
  }

  // The lock belongs to somebody who will give it back, and what the watching thread closes is closed.
  ghost predicate Orderly(h: Shell) {
    && (h.owner.TheKiller? ==> h.owner.k < |h.killers| && Inside(h.killers[h.owner.k]))
    && (h.owner == TheWatcher ==> !h.watcher.Waiting? && !h.watcher.Locking? && !h.watcher.Gone?)
    && (h.watcher.Marking? ==> !h.jobOpen) && (h.watcher.ClosingProcess? ==> h.reaped && !h.jobOpen)
    && (h.watcher.GivingLock? || h.watcher.Gone? ==> h.reaped && !h.jobOpen && !h.processOpen)
  }

  lemma ActsMore(h: Shell, h': Shell, act: Act, k: nat)
    requires h'.acts == h.acts + [act]
    ensures Acted(h', k) <==> Acted(h, k) || act.k == k
  {
    assert h'.acts[|h.acts|] == act;
    if Acted(h, k) {
      var i :| 0 <= i < |h.acts| && h.acts[i].k == k;
      assert h'.acts[i].k == k;
    }
  }

  lemma ActsSame(h: Shell, h': Shell, k: nat)
    requires h'.acts == h.acts
    ensures Acted(h', k) <==> Acted(h, k)
  {
  }

  predicate Done(killer: Killer) { killer.Left? || killer.Unlocking? }

  lemma DecidedByActing(h: Shell, h': Shell, k: nat, killer: Killer, act: Act)
    requires Decided(h) && k < |h.killers| && !Done(h.killers[k]) && Done(killer) && act.k == k
    requires h'.killers == h.killers[k := killer] && h'.acts == h.acts + [act] && h'.reaped == h.reaped
    ensures Decided(h')
  {
    assert DecidedOn(h, k);
    assert forall i :: 0 <= i < |h.acts| ==> h.acts[i].k != k;
    hide Acted;
    forall j | 0 <= j < |h'.killers| ensures DecidedOn(h', j) {
      assert DecidedOn(h, j);
      ActsMore(h, h', act, j);
    }
  }

  lemma DecidedOtherwise(h: Shell, h': Shell, k: nat, killer: Killer)
    requires Decided(h) && k < |h.killers| && (Done(killer) ==> h.reaped || Done(h.killers[k]))
    requires Done(h.killers[k]) ==> Done(killer)
    requires h'.killers == h.killers[k := killer] && h'.acts == h.acts && h'.reaped == h.reaped
    ensures Decided(h')
  {
    hide Acted;
    assert DecidedOn(h, k);
    forall j | 0 <= j < |h'.killers| ensures DecidedOn(h', j) {
      assert DecidedOn(h, j);
      ActsSame(h, h', j);
    }
  }

  lemma KillDecided(h: Shell, k: nat)
    requires Decided(h) && Possible(h, Kill(k))
    ensures Decided(KillStep(h, k))
  {
    hide Decided;
    var h' := KillStep(h, k);
    if h.killers[k].Acting? || h.killers[k].Signaling? {
      DecidedByActing(h, h', k, h'.killers[k], Act(k, h.reaped, h.jobOpen, h.freed));
    } else {
      DecidedOtherwise(h, h', k, h'.killers[k]);
    }
  }

  lemma OthersDecide(h: Shell, h': Shell)
    requires Decided(h) && h'.acts == h.acts && (h.reaped ==> h'.reaped)
    requires h'.killers == h.killers || h'.killers == h.killers + [Entering]
    ensures Decided(h')
  {
    hide Acted;
    assert !Acted(h, |h.killers|) by { NeverActed(h, |h.killers|); }
    forall j | 0 <= j < |h'.killers| ensures DecidedOn(h', j) {
      ActsSame(h, h', j);
      if j < |h.killers| {
        assert DecidedOn(h, j);
      }
    }
  }

  lemma NeverActed(h: Shell, k: nat)
    requires forall i :: 0 <= i < |h.acts| ==> h.acts[i].k < k
    ensures !Acted(h, k)
  {
  }

  lemma NextDecided(h: Shell, step: Step)
    requires Decided(h) && Possible(h, step)
    ensures Decided(Next(h, step))
  {
    hide Decided;
    if step.Kill? {
      KillDecided(h, step.k);
    } else {
      OthersDecide(h, Next(h, step));
    }
  }

  lemma KillOrderly(h: Shell, k: nat)
    requires Orderly(h) && Possible(h, Kill(k))
    ensures Orderly(KillStep(h, k))
  {
  }

  lemma WatchOrderly(h: Shell)
    requires Orderly(h) && Possible(h, Watch)
    ensures Orderly(WatchStep(h))
  {
  }

  lemma NextOrderly(h: Shell, step: Step)
    requires Orderly(h) && Possible(h, step)
    ensures Orderly(Next(h, step))
  {
    match step
    case Kill(k) => KillOrderly(h, k);
    case Watch => WatchOrderly(h);
    case _ =>
  }

  lemma {:induction false} RunsDecided(posix: bool, steps: seq<Step>)
    requires Feasible(Spawned(posix), steps)
    ensures Decided(Run(Spawned(posix), steps)) && Orderly(Run(Spawned(posix), steps))
  {
    if steps != [] {
      RunsDecided(posix, steps[..|steps| - 1]);
      NextDecided(Run(Spawned(posix), steps[..|steps| - 1]), steps[|steps| - 1]);
      NextOrderly(Run(Spawned(posix), steps[..|steps| - 1]), steps[|steps| - 1]);
    }
  }

  /** With the lock and without it: a call that has returned has acted, or the flag was set; no call acts twice; and a
      group that has been reaped has lost its job and its process handle. */
  lemma EveryKillDecided(posix: bool, steps: seq<Step>)
    requires Feasible(Spawned(posix), steps)
    ensures var h := Run(Spawned(posix), steps);
      && (forall k :: 0 <= k < |h.killers| && h.killers[k].Left? ==> h.reaped || exists i ::
            0 <= i < |h.acts| && h.acts[i].k == k)
      && (forall i, j :: 0 <= i < j < |h.acts| ==> h.acts[i].k != h.acts[j].k)
      && (h.watcher.Gone? ==> h.reaped && !h.jobOpen && !h.processOpen)
  {
    RunsDecided(posix, steps);
    var h := Run(Spawned(posix), steps);
    forall k | 0 <= k < |h.killers| && h.killers[k].Left?
      ensures h.reaped || exists i :: 0 <= i < |h.acts| && h.acts[i].k == k
    {
      assert DecidedOn(h, k);
    }
  }

  /** Nobody waits for ever: while a call or the watching thread is not done, one of them can go on. */
  lemma SomebodyMoves(posix: bool, steps: seq<Step>) returns (step: Step)
    requires Feasible(Spawned(posix), steps)
    requires var h := Run(Spawned(posix), steps);
      !h.watcher.Gone? || exists k :: 0 <= k < |h.killers| && !h.killers[k].Left?
    ensures Possible(Run(Spawned(posix), steps), step) && (step.Kill? || step.Watch?)
  {
    RunsDecided(posix, steps);
    var h := Run(Spawned(posix), steps);
    if h.owner.TheKiller? {
      step := Kill(h.owner.k);
    } else if !h.watcher.Gone? {
      step := Watch;
    } else {
      var k: nat :| k < |h.killers| && !h.killers[k].Left?;
      step := Kill(k);
    }
  }
}
