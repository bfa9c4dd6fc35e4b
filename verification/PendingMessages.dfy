/** The queues of messages waiting to be injected (packages/agent/src/agent.ts). Every batch that was ever put in
    waits, or has been drained, removed or cleared; drained batches come out in the order they went in.
 */
module PendingMessages {
  import opened Basics

  type Batch<T> = seq<T>

  datatype Mode = OneAtATime | All

  datatype Fate = Waiting | Drained | Removed | Cleared

  // The batches with a given fate, in the order they were put in.
  function Select<T>(log: seq<Batch<T>>, fates: seq<Fate>, fate: Fate): seq<Batch<T>>
    requires |log| == |fates|
  {
    if log == [] then []
    else
      var n := |log| - 1;
      var before := Select(log[..n], fates[..n], fate);
      if fates[n] == fate then before + [log[n]] else before
  }

  // Nothing is drained past a waiting batch.
  ghost predicate FirstInFirstOut(fates: seq<Fate>) {
    forall i, j :: 0 <= i < j < |fates| && fates[i] == Waiting ==> fates[j] != Drained
  }

  lemma SelectSnoc<T>(log: seq<Batch<T>>, fates: seq<Fate>, batch: Batch<T>, f: Fate, fate: Fate)
    requires |log| == |fates|
    ensures Select(log + [batch], fates + [f], fate)
         == if f == fate then Select(log, fates, fate) + [batch] else Select(log, fates, fate)
  {
    assert (log + [batch])[..|log|] == log && (fates + [f])[..|log|] == fates;
  }

  // The fates when everything that waits gets another fate.
  function Settle(fates: seq<Fate>, fate: Fate): (settled: seq<Fate>)
    ensures |settled| == |fates|
  {
    seq(|fates|, i requires 0 <= i < |fates| => if fates[i] == Waiting then fate else fates[i])
  }

  lemma {:induction false} SelectSettled<T>(log: seq<Batch<T>>, fates: seq<Fate>, fate: Fate)
    requires |log| == |fates| && FirstInFirstOut(fates) && fate != Waiting
    ensures Select(log, Settle(fates, fate), Waiting) == []
    ensures Select(log, Settle(fates, Drained), Drained) == Select(log, fates, Drained) + Select(log, fates, Waiting)
    ensures fate != Drained ==> Select(log, Settle(fates, fate), Drained) == Select(log, fates, Drained)
  {
    if log != [] {
      var n := |log| - 1;
      SelectSettled(log[..n], fates[..n], fate);
      assert Settle(fates, fate)[..n] == Settle(fates[..n], fate);
      assert Settle(fates, Drained)[..n] == Settle(fates[..n], Drained);
      if fates[n] == Drained {
        NoneWaits(log[..n], fates[..n]);
      }
    }
  }

  lemma {:induction false} NoneWaits<T>(log: seq<Batch<T>>, fates: seq<Fate>)
    requires |log| == |fates| && forall i :: 0 <= i < |fates| ==> fates[i] != Waiting
    ensures Select(log, fates, Waiting) == []
  {
    if log != [] {
      NoneWaits(log[..|log| - 1], fates[..|log| - 1]);
    }
  }

  // The batch that has waited longest.
  function FirstWaiting(fates: seq<Fate>): (i: nat)
    ensures i <= |fates| && (forall j :: 0 <= j < i ==> fates[j] != Waiting) && (i < |fates| ==> fates[i] == Waiting)
  {
    if fates == [] then 0
    else
      var n := |fates| - 1;
      var i := FirstWaiting(fates[..n]);
      if i < n then i else if fates[n] == Waiting then n else n + 1
  }

  lemma {:induction false} SelectDrainsFirst<T>(log: seq<Batch<T>>, fates: seq<Fate>)
    requires |log| == |fates| && FirstInFirstOut(fates)
    ensures var i := FirstWaiting(fates);
      var waiting := Select(log, fates, Waiting);
      if i == |fates| then waiting == []
      else && waiting != [] && waiting[0] == log[i]
           && Select(log, fates[i := Drained], Waiting) == waiting[1..]
           && Select(log, fates[i := Drained], Drained) == Select(log, fates, Drained) + [log[i]]
  {
    if log != [] {
      var n := |log| - 1;
      var i := FirstWaiting(fates);
      SelectDrainsFirst(log[..n], fates[..n]);
      NoneDrainedAfter(log, fates, i);
      if i < n {
        assert fates[i := Drained][..n] == fates[..n][i := Drained];
      } else if i == n {
        assert fates[n := Drained][..n] == fates[..n];
      }
    }
  }

  lemma NoneDrainedAfter<T>(log: seq<Batch<T>>, fates: seq<Fate>, i: nat)
    requires |log| == |fates| && FirstInFirstOut(fates) && i == FirstWaiting(fates) && fates != []
    ensures i < |fates| - 1 ==> fates[|fates| - 1] != Drained
  {
  }

  lemma {:induction false} SelectNonEmpty<T>(log: seq<Batch<T>>, fates: seq<Fate>, fate: Fate)
    requires |log| == |fates| && forall i :: 0 <= i < |log| ==> log[i] != []
    ensures Flatten(Select(log, fates, fate)) == [] ==> Select(log, fates, fate) == []
  {
    if log != [] {
      SelectNonEmpty(log[..|log| - 1], fates[..|log| - 1], fate);
    }
  }

  predicate Matches<T>(batch: Batch<T>, wanted: T -> bool) { exists i :: 0 <= i < |batch| && wanted(batch[i]) }

  function Filter<T>(batches: seq<Batch<T>>, wanted: T -> bool, matching: bool): seq<Batch<T>> {
    if batches == [] then []
    else
      var n := |batches| - 1;
      var before := Filter(batches[..n], wanted, matching);
      if Matches(batches[n], wanted) == matching then before + [batches[n]] else before
  }

  // The fates when the waiting batches that match are removed.
  function Remove<T>(log: seq<Batch<T>>, fates: seq<Fate>, wanted: T -> bool): (left: seq<Fate>)
    requires |log| == |fates|
    ensures |left| == |fates|
  {
    seq(|fates|, i requires 0 <= i < |fates| =>
      if fates[i] == Waiting && Matches(log[i], wanted) then Removed else fates[i])
  }

  lemma FilterSnoc<T>(batches: seq<Batch<T>>, batch: Batch<T>, wanted: T -> bool, matching: bool)
    ensures Filter(batches + [batch], wanted, matching)
         == (if Matches(batch, wanted) == matching then Filter(batches, wanted, matching) + [batch]
             else Filter(batches, wanted, matching))
  {
    assert (batches + [batch])[..|batches|] == batches;
  }

  lemma {:induction false} SelectRemoved<T>(log: seq<Batch<T>>, fates: seq<Fate>, wanted: T -> bool)
    requires |log| == |fates|
    ensures Select(log, Remove(log, fates, wanted), Waiting) == Filter(Select(log, fates, Waiting), wanted, false)
    ensures Select(log, Remove(log, fates, wanted), Drained) == Select(log, fates, Drained)
  {
    if log != [] {
      var n := |log| - 1;
      SelectRemoved(log[..n], fates[..n], wanted);
      assert Remove(log, fates, wanted)[..n] == Remove(log[..n], fates[..n], wanted);
      if fates[n] == Waiting {
        FilterSnoc(Select(log[..n], fates[..n], Waiting), log[n], wanted, false);
      }
    }
  }

  class PendingMessageQueue<T> {
    var batches: seq<Batch<T>>
    var mode: Mode

    // Every batch ever put in, what became of it, and everything drained so far.
    ghost var log: seq<Batch<T>>
    ghost var fates: seq<Fate>
    ghost var drained: seq<T>

    ghost predicate Valid()
      reads this
    {
      && |log| == |fates| && batches == Select(log, fates, Waiting) && drained == Flatten(Select(log, fates, Drained))
      && FirstInFirstOut(fates) && (forall i :: 0 <= i < |log| ==> log[i] != [])
    }

    // Some batch waits.
    ghost predicate Busy()
      reads this
    {
      FirstWaiting(fates) < |fates|
    }

    constructor (initialMode: Mode)
      ensures Valid() && log == [] && drained == [] && mode == initialMode
    {
      batches, mode := [], initialMode;
      log, fates, drained := [], [], [];
    }

    // An empty batch is not a batch.
    method Enqueue(message: Batch<T>)
      requires Valid()
      modifies `batches, `log, `fates
      ensures Valid()
      ensures if message == [] then log == old(log) && fates == old(fates)
              else log == old(log) + [message] && fates == old(fates) + [Waiting]
    {
      if |message| > 0 {
        SelectSnoc(log, fates, message, Waiting, Waiting);
        SelectSnoc(log, fates, message, Waiting, Drained);
        batches := batches + [message];
        log, fates := log + [message], fates + [Waiting];
      }
    }

    method HasItems() returns (has: bool)
      requires Valid()
      ensures has <==> Busy()
    {
      has := |batches| > 0;
      SelectDrainsFirst(log, fates);
    }

    // Everything that waits, or the batch that has waited longest.
    method Drain() returns (messages: seq<T>)
      requires Valid()
      modifies `batches, `fates, `drained
      ensures Valid() && log == old(log) && drained == old(drained) + messages && (messages != [] <==> old(Busy()))
      ensures mode == All ==> fates == Settle(old(fates), Drained)
      ensures mode == OneAtATime ==>
        var i := FirstWaiting(old(fates));
        if i == |old(fates)| then messages == [] && fates == old(fates)
        else messages == log[i] && fates == old(fates)[i := Drained]
    {
      if mode == All {
        messages := DrainAll();
        return;
      }
      SelectDrainsFirst(log, fates);
      if |batches| == 0 {
        return [];
      }
      messages := DrainFirst();
    }

    method DrainAll() returns (messages: seq<T>)
      requires Valid()
      modifies `batches, `fates, `drained
      ensures Valid() && drained == old(drained) + messages && fates == Settle(old(fates), Drained)
      ensures messages != [] <==> old(Busy())
    {
      SelectDrainsFirst(log, fates);
      SelectNonEmpty(log, fates, Waiting);
      SelectSettled(log, fates, Drained);
      FlattenConcat(Select(log, fates, Drained), batches);
      messages := Flatten(batches);
      batches := [];
      fates, drained := Settle(fates, Drained), drained + messages;
    }

    method DrainFirst() returns (messages: seq<T>)
      requires Valid() && batches != []
      modifies `batches, `fates, `drained
      ensures Valid() && drained == old(drained) + messages
      ensures var i := FirstWaiting(old(fates));
        i < |old(fates)| && messages == log[i] != [] && fates == old(fates)[i := Drained]
    {
      SelectDrainsFirst(log, fates);
      messages := batches[0];
      FlattenSnoc(Select(log, fates, Drained), messages);
      batches := batches[1..];
      fates, drained := fates[FirstWaiting(fates) := Drained], drained + messages;
    }

    method Clear()
      requires Valid()
      modifies `batches, `fates
      ensures Valid() && log == old(log) && drained == old(drained) && fates == Settle(old(fates), Cleared)
    {
      SelectSettled(log, fates, Cleared);
      batches := [];
      fates := Settle(fates, Cleared);
    }

    // A batch goes as a whole when any of its messages matches.
    method RemoveWhere(wanted: T -> bool) returns (removed: seq<T>)
      requires Valid()
      modifies `batches, `fates
      ensures Valid() && log == old(log) && drained == old(drained)
      ensures |fates| == |log| && forall i :: 0 <= i < |log| ==>
        fates[i] == if old(fates)[i] == Waiting && exists j :: 0 <= j < |log[i]| && wanted(log[i][j]) then Removed
                    else old(fates)[i]
      ensures removed == Flatten(Filter(Select(log, old(fates), Waiting), wanted, true))
    {
      removed := [];
      var retained: seq<Batch<T>> := [];
      for i := 0 to |batches|
        modifies {}
        invariant removed == Flatten(Filter(batches[..i], wanted, true))
        invariant retained == Filter(batches[..i], wanted, false)
      {
        var batch := batches[i];
        TakeNext(batches, i);
        FilterSnoc(batches[..i], batch, wanted, true);
        FilterSnoc(batches[..i], batch, wanted, false);
        if exists j :: 0 <= j < |batch| && wanted(batch[j]) {
          FlattenSnoc(Filter(batches[..i], wanted, true), batch);
          removed := removed + batch;
        } else {
          retained := retained + [batch];
        }
      }
      assert batches[..|batches|] == batches;
      SelectRemoved(log, fates, wanted);
      batches := retained;
      fates := Remove(log, fates, wanted);
    }
  }
}
