/** Where escape sequences end: control sequences (section 5.4 of ECMA-48) and control strings, with a
    cache of control string ends that is filled backwards after a scan has run to the end of the text.
 */
module AnsiScanner {
  import opened Basics

  const ESC: char := '\U{1b}'
  const BEL: char := '\U{07}'

  // ---------- Without a cache ----------

  predicate TerminatorAt(s: string, j: nat) {
    j + 1 < |s| && s[j] == ESC && s[j + 1] == '\\'
  }

  // The end of a control string whose text starts at j.
  function ControlStringEnd(s: string, j: nat, allowBel: bool): (end: Option<int>)
    ensures end.Some? ==> j < end.value <= |s|
    decreases |s| - j
  {
    if j >= |s| then None
    else if allowBel && s[j] == BEL then Some(j + 1)
    else if TerminatorAt(s, j) then Some(j + 2)
    else ControlStringEnd(s, j + 1, allowBel)
  }

  // Parameter bytes, then intermediate bytes, then one final byte.
  function ControlSequenceEnd(s: string, j: nat, hasIntermediate: bool): (end: Option<int>)
    ensures end.Some? ==> j < end.value <= |s|
    decreases |s| - j
  {
    if j >= |s| then None
    else if '0' <= s[j] <= '?' && !hasIntermediate then ControlSequenceEnd(s, j + 1, false)
    else if ' ' <= s[j] <= '/' then ControlSequenceEnd(s, j + 1, true)
    else if '@' <= s[j] <= '~' then Some(j + 1)
    else None
  }

  // Operating system commands and application program commands may also end with BEL.
  predicate BelAllowed(c: char) { c == ']' || c == '_' }

  predicate StartsControlString(c: char) { BelAllowed(c) || c == 'P' || c == '^' || c == 'X' }

  // The end of the escape sequence at pos, if there is one.
  function EndAt(s: string, pos: nat): (end: Option<int>)
    ensures end.Some? ==> pos + 2 < end.value <= |s|
  {
    if pos + 1 >= |s| || s[pos] != ESC then None
    else if s[pos + 1] == '[' then ControlSequenceEnd(s, pos + 2, false)
    else if StartsControlString(s[pos + 1]) then ControlStringEnd(s, pos + 2, BelAllowed(s[pos + 1]))
    else None
  }

  // ---------- With the cache ----------

  function FirstBel(s: string, i: nat): int
    decreases |s| - i
  {
    if i >= |s| then -1 else if s[i] == BEL then i else FirstBel(s, i + 1)
  }

  function FirstTerminator(s: string, i: nat): int
    decreases |s| - i
  {
    if i >= |s| then -1 else if TerminatorAt(s, i) then i else FirstTerminator(s, i + 1)
  }

  // The end of the control string at i, from the first terminators after its introducer.
  function EndFrom(allowBel: bool, nextBel: int, nextSt: int): Option<int> {
    if allowBel && nextBel != -1 && (nextSt == -1 || nextBel < nextSt) then Some(nextBel + 1)
    else if nextSt == -1 then None
    else Some(nextSt + 2)
  }

  lemma {:induction false} EndFromFirsts(s: string, j: nat, allowBel: bool)
    ensures ControlStringEnd(s, j, allowBel) == EndFrom(allowBel, FirstBel(s, j), FirstTerminator(s, j))
    ensures FirstBel(s, j) == -1 || j <= FirstBel(s, j)
    ensures FirstTerminator(s, j) == -1 || j <= FirstTerminator(s, j)
    decreases |s| - j
  {
    if j < |s| {
      EndFromFirsts(s, j + 1, allowBel);
    }
  }

  predicate ControlStringAt(s: string, i: nat) {
    i + 1 < |s| && s[i] == ESC && StartsControlString(s[i + 1])
  }

  lemma EndAtControlString(s: string, i: nat)
    requires ControlStringAt(s, i)
    ensures EndAt(s, i) == EndFrom(BelAllowed(s[i + 1]), FirstBel(s, i), FirstTerminator(s, i))
  {
    EndFromFirsts(s, i + 2, BelAllowed(s[i + 1]));
    assert FirstBel(s, i + 1) == FirstBel(s, i + 2) && FirstTerminator(s, i + 1) == FirstTerminator(s, i + 2);
  }

  type Ends = map<nat, Option<int>>

  ghost predicate EndsAgree(s: string, ends: Ends) {
    forall i :: i in ends ==> ControlStringAt(s, i) && ends[i] == EndAt(s, i)
  }

  ghost predicate EndsCover(s: string, from: int, ends: Ends) {
    forall i: nat :: from <= i && ControlStringAt(s, i) ==> i in ends
  }

  // One pass from the end of the text back to `from`.
  method CacheControlStringEnds(s: string, from: nat) returns (ends: Ends)
    requires from <= |s|
    ensures EndsAgree(s, ends) && EndsCover(s, from, ends)
  {
    ends := map[];
    var nextBel, nextSt := -1, -1;
    var i := |s|;
    while i > from
      invariant from <= i <= |s|
      invariant nextBel == FirstBel(s, i) && nextSt == FirstTerminator(s, i)
      invariant EndsAgree(s, ends) && EndsCover(s, i, ends)
    {
      i := i - 1;
      if s[i] == BEL {
        nextBel := i;
      }
      if s[i] == ESC && i + 1 < |s| {
        if s[i + 1] == '\\' {
          nextSt := i;
        } else if StartsControlString(s[i + 1]) {
          EndAtControlString(s, i);
          ends := ends[i := EndFrom(BelAllowed(s[i + 1]), nextBel, nextSt)];
        }
      }
    }
  }

  class Extractor {
    const text: string
    var controlStringEnds: Option<Ends>

    ghost predicate Valid() reads this {
      controlStringEnds.Some? ==> EndsAgree(text, controlStringEnds.value)
    }

    constructor (text: string)
      ensures Valid() && this.text == text
    {
      this.text := text;
      controlStringEnds := None;
    }

    method ExtractControlStringEnd(pos: nat, allowBel: bool) returns (end: Option<int>)
      requires Valid() && pos + 1 < |text| && text[pos] == ESC
      requires StartsControlString(text[pos + 1]) && allowBel == BelAllowed(text[pos + 1])
      modifies this
      ensures Valid() && end == EndAt(text, pos)
    {
      if controlStringEnds.Some? && pos in controlStringEnds.value {
        return controlStringEnds.value[pos];
      }
      var j := pos + 2;
      while j < |text|
        modifies {}
        invariant pos + 2 <= j
        invariant ControlStringEnd(text, pos + 2, allowBel) == ControlStringEnd(text, j, allowBel)
      {
        if allowBel && text[j] == BEL {
          return Some(j + 1);
        }
        if text[j] == ESC && j + 1 < |text| && text[j + 1] == '\\' {
          return Some(j + 2);
        }
        j := j + 1;
      }
      var ends := CacheControlStringEnds(text, pos);
      controlStringEnds := Some(ends);
      return None;
    }

    // The same answer as without the cache, whatever has been asked before.
    method ExtractAnsiEndAt(pos: nat) returns (end: Option<int>)
      requires Valid()
      modifies this
      ensures Valid() && end == EndAt(text, pos)
    {
      if pos >= |text| || text[pos] != ESC || pos + 1 >= |text| {
        return None;
      }
      var next := text[pos + 1];
      if next == '[' {
        var j := pos + 2;
        var hasIntermediate := false;
        while j < |text|
          modifies {}
          invariant pos + 2 <= j
          invariant ControlSequenceEnd(text, pos + 2, false) == ControlSequenceEnd(text, j, hasIntermediate)
        {
          var byte := text[j];
          if '0' <= byte <= '?' && !hasIntermediate {
            j := j + 1;
          } else if ' ' <= byte <= '/' {
            hasIntermediate := true;
            j := j + 1;
          } else if '@' <= byte <= '~' {
            return Some(j + 1);
          } else {
            return None;
          }
        }
        return None;
      }
      if StartsControlString(next) {
        end := ExtractControlStringEnd(pos, BelAllowed(next));
        return;
      }
      return None;
    }

    // Any sequence of queries, in any order, gets the answers of the scan without a cache.
    method ExtractAll(positions: seq<nat>) returns (answers: seq<Option<int>>)
      requires Valid()
      modifies this
      ensures Valid() && |answers| == |positions|
      ensures forall k :: 0 <= k < |positions| ==> answers[k] == EndAt(text, positions[k])
    {
      answers := [];
      for k := 0 to |positions|
        invariant Valid() && |answers| == k
        invariant forall i :: 0 <= i < k ==> answers[i] == EndAt(text, positions[i])
      {
        var end := ExtractAnsiEndAt(positions[k]);
        answers := answers + [end];
      }
    }
  }
}
