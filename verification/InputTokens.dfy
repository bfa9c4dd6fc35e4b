/** Which terminal input is a complete escape sequence (sections 5.4 and 5.6 of ECMA-48, and xterm mouse reports). */
module InputGrammar {
  import opened AnsiScanner
  import opened AnsiTracker
  import opened Basics

  datatype Status = Complete | Incomplete | NotEscape

  predicate EndsWithString(s: string, end: string) { |end| <= |s| && s[|s| - |end|..] == end }

  function DigitsEnd(s: string, i: nat): (end: nat)
    requires i <= |s|
    ensures i <= end <= |s| && Digits(s[i..end]) && (end < |s| ==> !Digit(s[end]))
    decreases |s| - i
  {
    if i < |s| && Digit(s[i]) then
      var end := DigitsEnd(s, i + 1);
      assert s[i..end] == [s[i]] + s[i + 1..end];
      end
    else i
  }

  predicate FinalByte(c: char) { '@' <= c <= '~' }

  predicate MouseButton(c: char) { c == 'M' || c == 'm' }

  // "<", three numbers with semicolons between them, and one letter.
  predicate MouseReport(payload: string) {
    && |payload| > 0 && payload[0] == '<'
    && var i := DigitsEnd(payload, 1);
       1 < i < |payload| && payload[i] == ';'
       && var j := DigitsEnd(payload, i + 1);
          i + 1 < j < |payload| && payload[j] == ';'
          && var k := DigitsEnd(payload, j + 1);
             j + 1 < k && k + 1 == |payload| && MouseButton(payload[k])
  }

  // The second test of a mouse report takes the text between the first and the last character apart.
  predicate MouseParts(payload: string)
    requires payload != ""
  {
    && MouseButton(payload[|payload| - 1]) && |payload| > 1
    && var parts := Split(payload[1..|payload| - 1]);
       |parts| == 3 && forall p :: 0 <= p < 3 ==> parts[p] != "" && Digits(parts[p])
  }

  function CsiStatus(data: string): Status {
    if |data| < 3 then Incomplete
    else
      var payload := data[2..];
      if !FinalByte(payload[|payload| - 1]) then Incomplete
      else if payload[0] != '<' then Complete
      else if MouseReport(payload) then Complete
      else if MouseParts(payload) then Complete
      else Incomplete
  }

  // ECMA-48, section 5.6: a control string ends with ST; this reader also lets BEL end an OSC.
  function StringStatus(data: string, allowBel: bool): Status {
    if EndsWithString(data, "\U{1b}\\") || (allowBel && EndsWithString(data, "\U{07}")) then Complete else Incomplete
  }

  function SequenceStatus(data: string): Status {
    if data == "" || data[0] != ESC then NotEscape
    else if |data| == 1 then Incomplete
    else if data[1] == '[' then
      if |data| > 2 && data[2] == 'M' then (if |data| >= 6 then Complete else Incomplete) else CsiStatus(data)
    else if data[1] == ']' then StringStatus(data, true)
    else if data[1] == 'P' || data[1] == '_' then StringStatus(data, false)
    else if data[1] == 'O' then (if |data| >= 3 then Complete else Incomplete)
    else Complete
  }

  // ---------- The second mouse test adds nothing to the first ----------

  lemma {:induction false} SplitTakesApart(s: string)
    ensures var parts := Split(s);
      if |parts| == 1 then s == parts[0]
      else
        && |parts[0]| < |s| && s[..|parts[0]|] == parts[0] && s[|parts[0]|] == ';'
        && Split(s[|parts[0]| + 1..]) == parts[1..]
  {
    if s != "" {
      SplitTakesApart(s[1..]);
      var parts, rest := Split(s), Split(s[1..]);
      if s[0] == ';' {
        assert s[1..] == s[|parts[0]| + 1..];
      } else if |rest| > 1 {
        assert s[1..][|rest[0]| + 1..] == s[|parts[0]| + 1..];
        assert parts[1..] == rest[1..];
      }
    }
  }

  lemma {:induction false} DigitsRun(s: string, i: nat, end: nat)
    requires i <= end <= |s| && Digits(s[i..end]) && (end < |s| ==> !Digit(s[end]))
    ensures DigitsEnd(s, i) == end
    decreases end - i
  {
    if i < end {
      assert s[i..end][0] == s[i];
      assert s[i + 1..end] == s[i..end][1..];
      DigitsRun(s, i + 1, end);
    }
  }

  lemma ThreeNumbers(payload: string, i: nat, j: nat)
    requires 1 < i && i + 1 < j && j + 1 < |payload| - 1
    requires payload[0] == '<' && payload[i] == ';' && payload[j] == ';' && MouseButton(payload[|payload| - 1])
    requires Digits(payload[1..i]) && Digits(payload[i + 1..j]) && Digits(payload[j + 1..|payload| - 1])
    ensures MouseReport(payload)
  {
    DigitsRun(payload, 1, i);
    DigitsRun(payload, i + 1, j);
    DigitsRun(payload, j + 1, |payload| - 1);
  }

  lemma SplitInThree(s: string)
    requires |Split(s)| == 3
    ensures var parts := Split(s);
      var i := |parts[0]|;
      var j := i + 1 + |parts[1]|;
      j < |s| && s[i] == ';' && s[j] == ';' && s[..i] == parts[0] && s[i + 1..j] == parts[1] && s[j + 1..] == parts[2]
  {
    hide Split;
    var parts := Split(s);
    var i := |parts[0]|;
    SplitTakesApart(s);
    var more := s[i + 1..];
    SplitTakesApart(more);
    CutTwice(s, i + 1, |parts[1]|);
    CutTwice(s, i + 1, |parts[1]| + 1);
    SplitTakesApart(more[|parts[1]| + 1..]);
  }

  lemma MouseTestsAgree(payload: string)
    requires payload != "" && payload[0] == '<' && MouseParts(payload)
    ensures MouseReport(payload)
  {
    hide Split, MouseReport;
    var n := |payload| - 1;
    var body := payload[1..n];
    var parts := Split(body);
    SplitInThree(body);
    var i, j := 1 + |parts[0]|, 2 + |parts[0]| + |parts[1]|;
    SliceOfSlice(payload, 1, n, 0, |parts[0]|);
    SliceOfSlice(payload, 1, n, i, j - 1);
    SliceOfSlice(payload, 1, n, j, |body|);
    ThreeNumbers(payload, i, j);
  }
}

/** Splitting terminal input into keys and escape sequences, for any way of telling complete sequences from
    incomplete ones.
 */
module InputTokens {
  import opened AnsiScanner
  import opened Basics
  import opened InputGrammar

  type Grammar = string -> Status

  lemma JoinedStep(first: string, more: seq<string>, rest: string)
    ensures Joined([first] + more) + rest == first + (Joined(more) + rest)
  {
    assert ([first] + more)[1..] == more;
    ConcatAssociates(first, Joined(more), rest);
  }

  function Joined(parts: seq<string>): string {
    if parts == [] then "" else parts[0] + Joined(parts[1..])
  }

  // The shortest prefix, of length n or more, that is not incomplete; one more than the length if there is none.
  function PrefixEnd(g: Grammar, s: string, n: nat): (end: nat)
    requires n <= |s| + 1
    ensures n <= end <= |s| + 1
    decreases |s| - n
  {
    if n > |s| || g(s[..n]) != Incomplete then n else PrefixEnd(g, s, n + 1)
  }

  lemma {:induction false} PrefixEndShortest(g: Grammar, s: string, n: nat)
    requires n <= |s| + 1
    ensures PrefixEnd(g, s, n) <= |s| ==> g(s[..PrefixEnd(g, s, n)]) != Incomplete
    ensures forall m :: n <= m < PrefixEnd(g, s, n) ==> g(s[..m]) == Incomplete
    decreases |s| + 1 - n
  {
    if n <= |s| && g(s[..n]) == Incomplete {
      PrefixEndShortest(g, s, n + 1);
    }
  }

  function TokenEnd(g: Grammar, s: string): (end: nat)
    requires s != ""
    ensures 1 <= end <= |s| + 1
  {
    if s[0] != ESC then 1 else PrefixEnd(g, s, 1)
  }

  // The keys and complete escape sequences of an input, and the start of a sequence that it leaves unfinished.
  function Tokens(g: Grammar, s: string): seq<string> {
    if s == "" || TokenEnd(g, s) > |s| then [] else [s[..TokenEnd(g, s)]] + Tokens(g, s[TokenEnd(g, s)..])
  }

  function Rest(g: Grammar, s: string): (rest: string)
    ensures |rest| <= |s|
  {
    if s == "" || TokenEnd(g, s) > |s| then s else Rest(g, s[TokenEnd(g, s)..])
  }

  // The part of an input that its tokens take up.
  function Taken(g: Grammar, s: string): nat { |s| - |Rest(g, s)| }

  lemma {:induction false} RestAfterTaken(g: Grammar, s: string)
    ensures s[Taken(g, s)..] == Rest(g, s)
    decreases |s|
  {
    if s != "" && TokenEnd(g, s) <= |s| {
      var more := s[TokenEnd(g, s)..];
      RestAfterTaken(g, more);
      CutTwice(s, TokenEnd(g, s), Taken(g, more));
    }
  }

  lemma {:induction false} PrefixEndStable(g: Grammar, s: string, t: string, n: nat)
    requires n <= |s| + 1
    ensures PrefixEnd(g, s + t, n)
      == if PrefixEnd(g, s, n) <= |s| then PrefixEnd(g, s, n) else PrefixEnd(g, s + t, |s| + 1)
    decreases |s| + 1 - n
  {
    if n <= |s| {
      assert (s + t)[..n] == s[..n];
      if g(s[..n]) == Incomplete {
        PrefixEndStable(g, s, t, n + 1);
      }
    }
  }

  lemma TokenEndStable(g: Grammar, s: string, t: string)
    requires s != "" && TokenEnd(g, s) <= |s|
    ensures TokenEnd(g, s + t) == TokenEnd(g, s)
  {
    PrefixEndStable(g, s, t, 1);
  }

  lemma TokensComposeStep(g: Grammar, s: string, t: string)
    requires s != "" && TokenEnd(g, s) <= |s|
    requires var more := s[TokenEnd(g, s)..];
      Tokens(g, more + t) == Tokens(g, more) + Tokens(g, Rest(g, more) + t)
        && Rest(g, more + t) == Rest(g, Rest(g, more) + t)
    ensures Tokens(g, s + t) == Tokens(g, s) + Tokens(g, Rest(g, s) + t) && Rest(g, s + t) == Rest(g, Rest(g, s) + t)
  {
    var end := TokenEnd(g, s);
    TokenEndStable(g, s, t);
    CutConcat(s, t, end);
    TokensStep(g, s + t);
    TokensStep(g, s);
    ConcatAssociates([s[..end]], Tokens(g, s[end..]), Tokens(g, Rest(g, s) + t));
  }

  // Input can be taken apart piece by piece, as long as what is unfinished stays in front of what comes next.
  lemma {:induction false} TokensCompose(g: Grammar, s: string, t: string)
    ensures Tokens(g, s + t) == Tokens(g, s) + Tokens(g, Rest(g, s) + t) && Rest(g, s + t) == Rest(g, Rest(g, s) + t)
    decreases |s|
  {
    if s == "" {
      assert s + t == t;
    } else if TokenEnd(g, s) <= |s| {
      TokensCompose(g, s[TokenEnd(g, s)..], t);
      TokensComposeStep(g, s, t);
    }
  }

  lemma TokensStep(g: Grammar, s: string)
    requires s != "" && TokenEnd(g, s) <= |s|
    ensures Tokens(g, s) == [s[..TokenEnd(g, s)]] + Tokens(g, s[TokenEnd(g, s)..])
      && Rest(g, s) == Rest(g, s[TokenEnd(g, s)..])
  {
  }

  /** Nothing is lost, invented or reordered: tokens and remainder make up the input. */
  lemma {:induction false} TokensMakeUpInput(g: Grammar, s: string)
    ensures Joined(Tokens(g, s)) + Rest(g, s) == s
    decreases |s|
  {
    if s != "" && TokenEnd(g, s) <= |s| {
      var end := TokenEnd(g, s);
      TokensMakeUpInput(g, s[end..]);
      TokensStep(g, s);
      JoinedStep(s[..end], Tokens(g, s[end..]), Rest(g, s));
      TakeDrop(s, end);
    }
  }

  // A token is one ordinary character, or a complete escape sequence of which no shorter prefix is complete.
  ghost predicate Token(g: Grammar, t: string) {
    || (|t| == 1 && t[0] != ESC)
    || (|t| >= 1 && t[0] == ESC && g(t) != Incomplete && forall m :: 1 <= m < |t| ==> g(t[..m]) == Incomplete)
  }

  ghost predicate Unfinished(g: Grammar, s: string) {
    s != "" ==> s[0] == ESC && forall m :: 1 <= m <= |s| ==> g(s[..m]) == Incomplete
  }

  lemma TokenIsFirst(g: Grammar, t: string, more: string)
    requires Token(g, t)
    ensures TokenEnd(g, t + more) == |t| && (t + more)[..|t|] == t && (t + more)[|t|..] == more
  {
    assert t[..|t|] == t;
    if t[0] == ESC {
      PrefixEndShortest(g, t, 1);
      TokenEndStable(g, t, more);
    }
  }

  lemma UnfinishedIsRest(g: Grammar, rest: string)
    requires Unfinished(g, rest)
    ensures Tokens(g, rest) == [] && Rest(g, rest) == rest
  {
    if rest != "" {
      PrefixEndShortest(g, rest, 1);
    }
  }

  // There is only one way to take an input apart like this.
  lemma {:induction false} TokensUnique(g: Grammar, tokens: seq<string>, rest: string)
    requires (forall i :: 0 <= i < |tokens| ==> Token(g, tokens[i])) && Unfinished(g, rest)
    ensures Tokens(g, Joined(tokens) + rest) == tokens && Rest(g, Joined(tokens) + rest) == rest
  {
    if tokens == [] {
      assert Joined(tokens) + rest == rest;
      UnfinishedIsRest(g, rest);
    } else {
      var first, more := tokens[0], Joined(tokens[1..]) + rest;
      assert [first] + tokens[1..] == tokens;
      TokensUnique(g, tokens[1..], rest);
      JoinedStep(first, tokens[1..], rest);
      TokenIsFirst(g, first, more);
      TokensStep(g, first + more);
    }
  }

  lemma {:induction false} TokensAreTokens(g: Grammar, s: string)
    ensures (forall i :: 0 <= i < |Tokens(g, s)| ==> Token(g, Tokens(g, s)[i])) && Unfinished(g, Rest(g, s))
    decreases |s|
  {
    if s != "" {
      var end := TokenEnd(g, s);
      if end <= |s| {
        TokensAreTokens(g, s[end..]);
        forall m | 1 <= m < end ensures s[..end][..m] == s[..m] {
        }
      }
      if s[0] == ESC {
        PrefixEndShortest(g, s, 1);
      }
    }
  }

  lemma TakenAlone(g: Grammar, s: string)
    ensures Tokens(g, s[..Taken(g, s)]) == Tokens(g, s) && Rest(g, s[..Taken(g, s)]) == ""
  {
    TokensMakeUpInput(g, s);
    TokensAreTokens(g, s);
    RestAfterTaken(g, s);
    TokensUnique(g, Tokens(g, s), "");
    var joined := Joined(Tokens(g, s));
    assert joined + "" == joined;
    CutConcat(joined, Rest(g, s), |joined|);
    assert joined[..|joined|] == joined;
  }

  // Any cut after the tokens of s splits the tokens of a longer input.
  lemma TokensCutAfter(g: Grammar, s: string, t: string, i: nat)
    requires Taken(g, s) <= i <= |s + t|
    ensures Tokens(g, (s + t)[..i]) == Tokens(g, s) + Tokens(g, (Rest(g, s) + t)[..i - Taken(g, s)])
  {
    var n := Taken(g, s);
    var taken, rest := s[..n], (Rest(g, s) + t)[..i - n];
    TakenAlone(g, s);
    RestAfterTaken(g, s);
    CutAcross(s, t, n, i);
    TokensCompose(g, taken, rest);
    assert "" + rest == rest;
  }

  // ---------- The loops ----------

  method ExtractCompleteSequences(buffer: string) returns (sequences: seq<string>, remainder: string)
    ensures sequences == Tokens(SequenceStatus, buffer) && remainder == Rest(SequenceStatus, buffer)
  {
    hide SequenceStatus, PrefixEnd;
    sequences := [];
    var pos := 0;
    while pos < |buffer|
      invariant 0 <= pos <= |buffer|
      invariant sequences + Tokens(SequenceStatus, buffer[pos..]) == Tokens(SequenceStatus, buffer)
      invariant Rest(SequenceStatus, buffer[pos..]) == Rest(SequenceStatus, buffer)
    {
      var remaining := buffer[pos..];
      if remaining[0] == ESC {
        var seqEnd := FirstSequence(remaining);
        if seqEnd > |remaining| {
          remainder := remaining;
          return;
        }
        TokensStep(SequenceStatus, remaining);
        CutTwice(buffer, pos, seqEnd);
        ConcatAssociates(sequences, [remaining[..seqEnd]], Tokens(SequenceStatus, remaining[seqEnd..]));
        sequences := sequences + [remaining[..seqEnd]];
        pos := pos + seqEnd;
      } else {
        TokensStep(SequenceStatus, remaining);
        CutTwice(buffer, pos, 1);
        assert remaining[..1] == [remaining[0]];
        ConcatAssociates(sequences, [[remaining[0]]], Tokens(SequenceStatus, remaining[1..]));
        sequences := sequences + [[remaining[0]]];
        pos := pos + 1;
      }
    }
    assert buffer[|buffer|..] == "";
    remainder := "";
  }

  // The inner loop: longer and longer candidates until one is complete.
  method FirstSequence(remaining: string) returns (seqEnd: nat)
    requires remaining != "" && remaining[0] == ESC
    ensures seqEnd == TokenEnd(SequenceStatus, remaining)
  {
    seqEnd := 1;
    while seqEnd <= |remaining|
      invariant 1 <= seqEnd <= |remaining| + 1
      invariant PrefixEnd(SequenceStatus, remaining, seqEnd) == PrefixEnd(SequenceStatus, remaining, 1)
    {
      var candidate := remaining[..seqEnd];
      var status := SequenceStatus(candidate);
      if status == Complete {
        break;
      } else if status == Incomplete {
        seqEnd := seqEnd + 1;
      } else {
        break;
      }
    }
  }
}
