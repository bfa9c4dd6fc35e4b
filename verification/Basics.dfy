/** Small shared vocabulary. */
module Basics {

  datatype Option<+T> = None | Some(value: T)

  function Max(a: int, b: int): int { if a < b then b else a }

  function Min(a: int, b: int): int { if a < b then a else b }

  lemma TakeNext<T>(s: seq<T>, i: nat)
    requires i < |s|
    ensures s[..i + 1] == s[..i] + [s[i]]
  {
  }

  lemma CutConcat<T>(s: seq<T>, t: seq<T>, n: nat)
    requires n <= |s|
    ensures (s + t)[..n] == s[..n] && (s + t)[n..] == s[n..] + t
  {
  }

  lemma TakeBehind<T>(s: seq<T>, t: seq<T>, n: nat)
    requires n <= |t|
    ensures (s + t)[..|s| + n] == s + t[..n]
  {
  }

  lemma SliceBehind<T>(s: seq<T>, t: seq<T>, a: nat, b: nat)
    requires a <= b <= |t|
    ensures (s + t)[|s| + a..|s| + b] == t[a..b]
  {
  }

  lemma DropNone<T>(s: seq<T>)
    ensures s[0..] == s
  {
  }

  lemma ConcatAssociates<T>(a: seq<T>, b: seq<T>, c: seq<T>)
    ensures a + b + c == a + (b + c)
  {
  }

  lemma TakeDrop<T>(s: seq<T>, n: nat)
    requires n <= |s|
    ensures s[..n] + s[n..] == s
  {
  }

  lemma CutTwice<T>(s: seq<T>, n: nat, m: nat)
    requires n + m <= |s|
    ensures s[n..][m..] == s[n + m..] && s[n..][..m] == s[n..n + m] && s[..n + m] == s[..n] + s[n..n + m]
  {
  }

  lemma CutAcross<T>(s: seq<T>, t: seq<T>, n: nat, i: nat)
    requires n <= |s| && n <= i <= |s + t|
    ensures (s + t)[..i] == s[..n] + (s[n..] + t)[..i - n]
  {
    CutConcat(s, t, n);
    CutTwice(s + t, n, i - n);
  }

  lemma SliceOfSlice<T>(s: seq<T>, a: nat, b: nat, c: nat, d: nat)
    requires a <= b <= |s| && c <= d <= b - a
    ensures s[a..b][c..d] == s[a + c..a + d]
  {
    var left, right := s[a..b][c..d], s[a + c..a + d];
    assert forall i :: 0 <= i < |left| ==> left[i] == right[i];
  }

  // All the elements of a sequence of sequences, in order.
  function Flatten<T>(parts: seq<seq<T>>): seq<T> {
    if parts == [] then [] else Flatten(parts[..|parts| - 1]) + parts[|parts| - 1]
  }

  lemma FlattenSnoc<T>(parts: seq<seq<T>>, last: seq<T>)
    ensures Flatten(parts + [last]) == Flatten(parts) + last
  {
    assert (parts + [last])[..|parts|] == parts;
  }

  lemma {:induction false} FlattenConcat<T>(a: seq<seq<T>>, b: seq<seq<T>>)
    ensures Flatten(a + b) == Flatten(a) + Flatten(b)
  {
    if b == [] {
      assert a + b == a;
    } else {
      FlattenConcat(a, b[..|b| - 1]);
      assert (a + b)[..|a + b| - 1] == a + b[..|b| - 1];
    }
  }
}

/** Occurrences of one sequence inside another. */
module Search {
  import opened Basics


  predicate OccursAt<T(==)>(s: seq<T>, m: seq<T>, i: int) {
    0 <= i && i + |m| <= |s| && s[i..i + |m|] == m
  }

  predicate Occurs<T(==)>(s: seq<T>, m: seq<T>) {
    exists i :: 0 <= i <= |s| && OccursAt(s, m, i)
  }

  // Where `m` first occurs in `s` at or after `from`, or -1.
  function IndexFrom<T(==)>(s: seq<T>, m: seq<T>, from: nat): (r: int)
    ensures r == -1 || (from <= r && OccursAt(s, m, r))
    ensures forall i :: from <= i < (if r == -1 then |s| + 1 else r) ==> !OccursAt(s, m, i)
    decreases |s| - from
  {
    if from + |m| > |s| then -1
    else if OccursAt(s, m, from) then from
    else IndexFrom(s, m, from + 1)
  }

  function IndexOf<T(==)>(s: seq<T>, m: seq<T>): (r: int)
    ensures r == -1 || (0 <= r <= |s| && OccursAt(s, m, r))
    ensures forall i :: 0 <= i < (if r == -1 then |s| + 1 else r) ==> !OccursAt(s, m, i)
  {
    IndexFrom(s, m, 0)
  }

  // A first occurrence stays the first one.
  lemma FirstStaysFirst<T>(s: seq<T>, more: seq<T>, m: seq<T>)
    requires IndexOf(s, m) != -1
    ensures IndexOf(s + more, m) == IndexOf(s, m)
  {
    var at, later := IndexOf(s, m), IndexOf(s + more, m);
    assert (s + more)[at..at + |m|] == s[at..at + |m|];
    assert OccursAt(s + more, m, at);
    if later < at {
      assert s[later..later + |m|] == (s + more)[later..later + |m|];
      assert OccursAt(s, m, later);
    }
  }

  lemma CutAtFirst<T>(s: seq<T>, more: seq<T>, m: seq<T>)
    requires IndexOf(s, m) != -1
    ensures var at := IndexOf(s, m);
      && IndexOf(s + more, m) == at
      && (s + more)[..at] == s[..at] && (s + more)[at + |m|..] == s[at + |m|..] + more
  {
    FirstStaysFirst(s, more, m);
    CutConcat(s, more, IndexOf(s, m));
    CutConcat(s, more, IndexOf(s, m) + |m|);
  }

  lemma OccursInPrefix<T>(s: seq<T>, more: seq<T>, m: seq<T>, i: int)
    requires 0 <= i && i + |m| <= |s|
    ensures OccursAt(s + more, m, i) <==> OccursAt(s, m, i)
  {
    assert s[i..i + |m|] == (s + more)[i..i + |m|];
  }

  // Occurrences in a suffix are occurrences in the whole, n places later.
  lemma OccursInSuffix<T>(s: seq<T>, m: seq<T>, n: nat, i: int)
    requires n <= |s| && 0 <= i
    ensures OccursAt(s[n..], m, i) <==> OccursAt(s, m, n + i)
  {
    if n + i + |m| <= |s| {
      assert s[n..][i..i + |m|] == s[n + i..n + i + |m|];
    }
  }

  lemma IndexInSuffix<T>(s: seq<T>, m: seq<T>, n: nat)
    requires n <= |s| && (IndexOf(s, m) == -1 || n <= IndexOf(s, m))
    ensures IndexOf(s[n..], m) == if IndexOf(s, m) == -1 then -1 else IndexOf(s, m) - n
  {
    var at, inner := IndexOf(s, m), IndexOf(s[n..], m);
    if inner != -1 {
      OccursInSuffix(s, m, n, inner);
    }
    if at != -1 {
      OccursInSuffix(s, m, n, at - n);
    }
  }
}
