/** Which sequences terminal input is taken apart into, in terms of their text (sections 5.4, 5.5 and 5.6 of ECMA-48 and
    xterm's mouse reports).
 */
module InputSequences {
  import opened AnsiScanner
  import opened AnsiTracker
  import opened Basics
  import opened InputGrammar
  import opened InputTokens

  // Parameters and one final byte. Mouse reports have forms of their own.
  predicate ControlSequence(t: string) {
    && |t| >= 3 && t[..2] == "\U{1b}[" && t[2] != '<' && t[2] != 'M' && '@' <= t[|t| - 1] <= '~'
    && forall i :: 2 <= i < |t| - 1 ==> !('@' <= t[i] <= '~')
  }

  predicate Number(s: string) { s != "" && Digits(s) }

  ghost predicate SgrMouseReport(t: string) {
    exists a, b, c, end :: SgrMouse(t, a, b, c, end)
  }

  predicate SgrMouse(t: string, button: string, x: string, y: string, end: char) {
    && Number(button) && Number(x) && Number(y) && (end == 'M' || end == 'm')
    && t == "\U{1b}[<" + (button + (";" + (x + (";" + (y + [end])))))
  }

  // Three characters after the introducer, whatever they are.
  predicate X10MouseReport(t: string) { |t| == 6 && t[..3] == "\U{1b}[M" }

  // Nothing in the text ends the control string.
  predicate Open(body: string, belEnds: bool) {
    forall i :: 0 <= i < |body| ==>
      !(belEnds && body[i] == '\U{07}') && !(i + 1 < |body| && body[i] == '\U{1b}' && body[i + 1] == '\\')
  }

  // From the introducer to the first ST, or to the first BEL if it comes before that and ends the string too.
  ghost predicate ControlString(t: string, introducer: string, belEnds: bool) {
    exists body :: Open(body, belEnds)
      && (t == introducer + body + "\U{1b}\\" || (belEnds && t == introducer + body + "\U{07}"))
  }

  predicate SingleShift(t: string) { |t| == 3 && t[..2] == "\U{1b}O" }

  // ESC with any other character.
  predicate Meta(t: string) { |t| == 2 && t[0] == '\U{1b}' && t[1] !in "[]P_O" }

  ghost predicate Sequence(t: string) {
    || ControlSequence(t) || SgrMouseReport(t) || X10MouseReport(t) || SingleShift(t) || Meta(t)
    || ControlString(t, "\U{1b}]", true) || ControlString(t, "\U{1b}P", false) || ControlString(t, "\U{1b}_", false)
  }

  // ---------- These are the sequences that are recognized ----------

  // A shortest complete sequence.
  ghost predicate Shortest(t: string) { |t| >= 1 && t[0] == ESC && Token(SequenceStatus, t) }

  lemma ShortSequences(t: string)
    ensures X10MouseReport(t) ==> Shortest(t)
    ensures SingleShift(t) || Meta(t) ==> Shortest(t)
  {
    assert X10MouseReport(t) ==> t[0] == t[..3][0] && t[1] == t[..3][1] && t[2] == t[..3][2];
    assert SingleShift(t) ==> t[0] == t[..2][0] && t[1] == t[..2][1];
  }

  lemma ControlSequenceShortest(t: string)
    requires ControlSequence(t)
    ensures Shortest(t)
  {
    assert t[0] == t[..2][0] && t[1] == t[..2][1];
    forall m | 1 <= m < |t| ensures SequenceStatus(t[..m]) == Incomplete {
      assert 3 <= m ==> t[..m][2..][m - 3] == t[m - 1];
    }
    assert t[2..][|t| - 3] == t[|t| - 1];
  }

  lemma SgrMouseTaken(t: string, button: string, x: string, y: string, end: char)
    requires SgrMouse(t, button, x, y, end)
    ensures var i, j, n := 3 + |button|, 4 + |button| + |x|, |t| - 1;
      && |t| >= 9 && t[..3] == "\U{1b}[<" && t[3..i] == button && t[i] == ';' && t[i + 1..j] == x && t[j] == ';'
      && t[j + 1..n] == y && t[n] == end && n == j + 1 + |y|
      && Number(button) && Number(x) && Number(y) && (end == 'M' || end == 'm')
  {
  }

  lemma SgrMouseShortest(t: string, button: string, x: string, y: string, end: char)
    requires SgrMouse(t, button, x, y, end)
    ensures Shortest(t)
  {
    SgrMouseComplete(t, button, x, y, end);
    hide MouseReport, MouseParts, SgrMouse;
    forall m | 1 <= m < |t| ensures SequenceStatus(t[..m]) == Incomplete {
      if 3 <= m {
        SgrMouseInside(t, button, x, y, end, m - 1);
        assert t[..m][2..][m - 3] == t[m - 1];
      }
    }
  }

  lemma SgrMouseComplete(t: string, button: string, x: string, y: string, end: char)
    requires SgrMouse(t, button, x, y, end)
    ensures |t| >= 9 && t[0] == ESC && t[1] == '[' && t[2] == '<' && SequenceStatus(t) == Complete
  {
    var payload := "<" + (button + (";" + (x + (";" + (y + [end])))));
    assert t == "\U{1b}[" + payload;
    hide MouseReport, MouseParts, SgrMouse;
    PartsReported(payload, button, x, y, end);
    assert t[2..] == payload && payload[|payload| - 1] == end;
  }

  lemma PartsReported(payload: string, button: string, x: string, y: string, end: char)
    requires Number(button) && Number(x) && Number(y) && (end == 'M' || end == 'm')
    requires payload == "<" + (button + (";" + (x + (";" + (y + [end])))))
    ensures MouseReport(payload)
  {
    hide MouseReport;
    var i, j := 1 + |button|, 2 + |button| + |x|;
    assert payload[1..i] == button && payload[i + 1..j] == x && payload[j + 1..|payload| - 1] == y;
    ThreeNumbers(payload, i, j);
  }

  lemma SgrMouseInside(t: string, button: string, x: string, y: string, end: char, k: nat)
    requires SgrMouse(t, button, x, y, end) && 2 <= k < |t| - 1
    ensures !('@' <= t[k] <= '~')
  {
    SgrMouseTaken(t, button, x, y, end);
    var i, j, n := 3 + |button|, 4 + |button| + |x|, |t| - 1;
    assert t[2] == t[..3][2];
    if 3 <= k < i {
      assert t[k] == button[k - 3];
    } else if i < k < j {
      assert t[k] == x[k - i - 1];
    } else if j < k {
      assert t[k] == y[k - j - 1];
    }
  }

  lemma EndsMeans(s: string)
    ensures EndsWithString(s, "\U{1b}\\") <==> |s| >= 2 && s[|s| - 2] == '\U{1b}' && s[|s| - 1] == '\\'
    ensures EndsWithString(s, "\U{07}") <==> |s| >= 1 && s[|s| - 1] == '\U{07}'
  {
    assert |s| >= 2 ==> s[|s| - 2..] == [s[|s| - 2], s[|s| - 1]];
    assert |s| >= 1 ==> s[|s| - 1..] == [s[|s| - 1]];
  }

  // A control string ends after m characters.
  predicate StringEnds(t: string, m: nat)
    requires 2 <= m <= |t|
  {
    || (t[m - 2] == '\U{1b}' && t[m - 1] == '\\')
    || (t[1] == ']' && t[m - 1] == '\U{07}')
  }

  lemma StringStatusMeans(t: string, m: nat)
    requires 2 <= m <= |t| && t[0] == ESC && t[1] in "]P_"
    ensures SequenceStatus(t[..m]) == if StringEnds(t, m) then Complete else Incomplete
  {
    EndsMeans(t[..m]);
    assert t[..m][m - 1] == t[m - 1] && t[..m][m - 2] == t[m - 2];
  }

  lemma ShortestString(t: string)
    requires |t| >= 2 && t[0] == ESC && t[1] in "]P_"
    ensures Shortest(t) <==> StringEnds(t, |t|) && forall m :: 2 <= m < |t| ==> !StringEnds(t, m)
  {
    hide StringEnds;
    forall m | 2 <= m <= |t| ensures SequenceStatus(t[..m]) == if StringEnds(t, m) then Complete else Incomplete {
      StringStatusMeans(t, m);
    }
    assert t[..|t|] == t;
    assert |t| > 1 ==> SequenceStatus(t[..1]) == Incomplete;
  }

  lemma ControlStringShortest(t: string, introducer: string, belEnds: bool)
    requires ControlString(t, introducer, belEnds)
    requires if belEnds then introducer == "\U{1b}]" else introducer == "\U{1b}P" || introducer == "\U{1b}_"
    ensures Shortest(t)
  {
    hide Shortest;
    var body :| Open(body, belEnds)
      && (t == introducer + body + "\U{1b}\\" || (belEnds && t == introducer + body + "\U{07}"));
    var end := 2 + |body|;
    assert t[0] == introducer[0] && t[1] == introducer[1];
    assert forall k :: 2 <= k < end ==> t[k] == body[k - 2];
    assert if |t| == end + 2 then t[end] == ESC && t[end + 1] == '\\' else t[end] == BEL && |t| == end + 1;
    ShortestString(t);
  }

  // Conversely, a shortest complete sequence has one of these forms.
  lemma ShortestControlString(t: string)
    requires Shortest(t) && |t| >= 2 && t[1] in "]P_"
    ensures ControlString(t, [ESC, t[1]], t[1] == ']')
  {
    ShortestString(t);
    hide Shortest;
    assert StringEnds(t, |t|);
    var bel := t[1] == ']' && t[|t| - 1] == BEL;
    var end := if bel then |t| - 1 else |t| - 2;
    var body := t[2..end];
    forall i | 0 <= i < |body|
      ensures !(t[1] == ']' && body[i] == BEL) && !(i + 1 < |body| && body[i] == ESC && body[i + 1] == '\\')
    {
      assert !StringEnds(t, i + 3);
      assert i + 1 < |body| ==> !StringEnds(t, i + 4);
    }
    assert t == [ESC, t[1]] + body + t[end..];
    assert if bel then t[end..] == "\U{07}" else t[end..] == "\U{1b}\\";
  }

  lemma ShortestCsi(t: string)
    requires Shortest(t) && |t| >= 2 && t[1] == '['
    ensures ControlSequence(t) || SgrMouseReport(t) || X10MouseReport(t)
  {
    assert t[..2] == [ESC, '['];
    if |t| > 2 && t[2] == 'M' {
      assert t[..3] == [ESC, '[', 'M'];
      assert |t| > 6 ==> SequenceStatus(t[..6]) == Incomplete;
    } else if t[2] == '<' {
      ShortestSgrMouse(t);
    } else {
      assert t[2..][|t| - 3] == t[|t| - 1];
      forall i | 2 <= i < |t| - 1 ensures !('@' <= t[i] <= '~') {
        assert SequenceStatus(t[..i + 1]) == Incomplete;
        assert t[..i + 1][2..][i - 2] == t[i] && t[..i + 1][2] == t[2];
      }
    }
  }

  lemma ShortestSgrMouse(t: string)
    requires Shortest(t) && |t| >= 3 && t[1] == '[' && t[2] == '<'
    ensures SgrMouseReport(t)
  {
    var payload := t[2..];
    assert SequenceStatus(t) == CsiStatus(t) != Incomplete;
    if MouseParts(payload) {
      MouseTestsAgree(payload);
    }
    hide Shortest, SgrMouse;
    var button, x, y, end := MouseReportParts(payload);
    assert t == "\U{1b}[" + payload;
    assert "\U{1b}[" + ("<" + (button + (";" + (x + (";" + (y + [end])))))) ==
           "\U{1b}[<" + (button + (";" + (x + (";" + (y + [end])))));
    IsSgrMouse(t, button, x, y, end);
  }

  lemma IsSgrMouse(t: string, button: string, x: string, y: string, end: char)
    requires Number(button) && Number(x) && Number(y) && (end == 'M' || end == 'm')
    requires t == "\U{1b}[<" + (button + (";" + (x + (";" + (y + [end])))))
    ensures SgrMouse(t, button, x, y, end)
  {
  }

  lemma MouseReportParts(payload: string) returns (button: string, x: string, y: string, end: char)
    requires MouseReport(payload)
    ensures Number(button) && Number(x) && Number(y) && (end == 'M' || end == 'm')
    ensures payload == "<" + (button + (";" + (x + (";" + (y + [end])))))
  {
    var i := DigitsEnd(payload, 1);
    var j := DigitsEnd(payload, i + 1);
    var k := DigitsEnd(payload, j + 1);
    button, x, y, end := payload[1..i], payload[i + 1..j], payload[j + 1..k], payload[k];
    assert y + [end] == payload[j + 1..];
    assert x + (";" + payload[j + 1..]) == payload[i + 1..];
    assert button + (";" + payload[i + 1..]) == payload[1..];
  }

  /** The shortest complete sequences are exactly those of these forms. */
  lemma ShortestSequences(t: string)
    ensures Shortest(t) <==> Sequence(t)
  {
    hide Shortest, Sequence;
    if Sequence(t) {
      SequenceShortest(t);
    }
    if Shortest(t) {
      ShortestSequence(t);
    }
  }

  lemma ShortestSequence(t: string)
    requires Shortest(t)
    ensures Sequence(t)
  {
    assert [ESC, ']'] == "\U{1b}]" && [ESC, 'P'] == "\U{1b}P" && [ESC, '_'] == "\U{1b}_";
    assert |t| == 1 ==> SequenceStatus(t) == Incomplete;
    if t[1] == '[' {
      ShortestCsi(t);
    } else if t[1] in "]P_" {
      ShortestControlString(t);
    } else {
      ShortestOther(t);
    }
  }

  lemma SequenceShortest(t: string)
    requires Sequence(t)
    ensures Shortest(t)
  {
    hide Shortest;
    ShortSequences(t);
    if ControlSequence(t) {
      ControlSequenceShortest(t);
    } else if SgrMouseReport(t) {
      var button, x, y, end :| SgrMouse(t, button, x, y, end);
      SgrMouseShortest(t, button, x, y, end);
    } else if ControlString(t, "\U{1b}]", true) {
      ControlStringShortest(t, "\U{1b}]", true);
    } else if ControlString(t, "\U{1b}P", false) {
      ControlStringShortest(t, "\U{1b}P", false);
    } else if ControlString(t, "\U{1b}_", false) {
      ControlStringShortest(t, "\U{1b}_", false);
    }
  }

  lemma ShortestOther(t: string)
    requires Shortest(t) && |t| >= 2 && t[1] != '[' && t[1] !in "]P_"
    ensures SingleShift(t) || Meta(t)
  {
    if t[1] == 'O' {
      assert |t| > 3 ==> SequenceStatus(t[..3]) == Incomplete;
      assert t[..2] == [ESC, 'O'];
    } else {
      assert |t| > 2 ==> SequenceStatus(t[..2]) == Incomplete;
    }
  }

  /** Such a sequence is read as one key whatever follows it, and every beginning of it is held back. */
  lemma SequenceIsKey(t: string, more: string, m: nat)
    requires Sequence(t) && 0 < m < |t|
    ensures Tokens(SequenceStatus, t + more) == [t] + Tokens(SequenceStatus, more)
    ensures Rest(SequenceStatus, t + more) == Rest(SequenceStatus, more)
    ensures Tokens(SequenceStatus, t[..m]) == [] && Rest(SequenceStatus, t[..m]) == t[..m]
  {
    ShortestSequences(t);
    TokenIsFirst(SequenceStatus, t, more);
    TokensStep(SequenceStatus, t + more);
    forall k | 1 <= k <= m ensures SequenceStatus(t[..m][..k]) == Incomplete {
      assert t[..m][..k] == t[..k];
    }
    UnfinishedIsRest(SequenceStatus, t[..m]);
  }

  /** Every input is taken apart into characters and such sequences, and what is held back begins none of them that
      is complete. */
  lemma TokensAreSequences(s: string, i: nat)
    ensures i < |Tokens(SequenceStatus, s)| ==>
      var t := Tokens(SequenceStatus, s)[i]; (|t| == 1 && t[0] != '\U{1b}') || Sequence(t)
    ensures var rest := Rest(SequenceStatus, s);
      rest != "" ==> rest[0] == '\U{1b}' && (1 <= i <= |rest| ==> !Sequence(rest[..i]))
  {
    TokensAreTokens(SequenceStatus, s);
    var rest := Rest(SequenceStatus, s);
    if i < |Tokens(SequenceStatus, s)| {
      ShortestSequences(Tokens(SequenceStatus, s)[i]);
    }
    if rest != "" && 1 <= i <= |rest| {
      ShortestSequences(rest[..i]);
      assert SequenceStatus(rest[..i]) == Incomplete;
    }
  }
}

/** What the program makes of such sequences: keys in the Kitty encoding, and bracketed paste. */
module InputEvents {
  import opened AnsiScanner
  import opened AnsiTracker
  import opened Basics
  import opened InputGrammar
  import opened InputSequences
  import opened InputTokens
  import opened Search
  import opened StdinBuffer

  // ESC [, a number, at most two subparameters of which the second is not empty, u.
  ghost predicate KittyKey(t: string, number: string, sub: string) {
    Number(number) && KittySubparameters(sub) && t == "\U{1b}[" + (number + (sub + "u"))
  }

  ghost predicate KittySubparameters(sub: string) {
    || sub == ""
    || (exists a :: OneField(sub, a))
    || (exists a, b :: TwoFields(sub, a, b))
  }

  predicate OneField(sub: string, a: string) { Digits(a) && sub == ":" + a }

  predicate TwoFields(sub: string, a: string, b: string) { Digits(a) && Number(b) && sub == ":" + a + ":" + b }

  lemma {:induction false} DecimalValue(digits: string, last: char)
    requires Digits(digits) && '0' <= last <= '9'
    ensures Value("") == 0 && Value(digits + [last]) == 10 * Value(digits) + (last as int - 48)
  {
    assert (digits + [last])[..|digits|] == digits;
  }

  lemma OneSubparameter(a: string)
    requires Digits(a)
    ensures Subparameters(":" + a)
  {
    var sub := ":" + a;
    assert sub[1..|sub|] == a;
    DigitsRun(sub, 1, |sub|);
  }

  lemma TwoSubparameters(a: string, b: string)
    requires Digits(a) && Number(b)
    ensures Subparameters(":" + a + ":" + b)
  {
    var sub := ":" + a + ":" + b;
    assert sub[1..1 + |a|] == a && sub[2 + |a|..|sub|] == b;
    DigitsRun(sub, 1, 1 + |a|);
    DigitsRun(sub, 2 + |a|, |sub|);
  }

  lemma SubparametersTaken(sub: string)
    requires Subparameters(sub)
    ensures KittySubparameters(sub)
  {
    if sub != "" {
      var i := DigitsEnd(sub, 1);
      var a := sub[1..i];
      if i == |sub| {
        assert OneField(sub, a);
      } else {
        var b := sub[i + 1..];
        assert DigitsEnd(sub, i + 1) == |sub| && sub[i + 1..|sub|] == b;
        assert TwoFields(sub, a, b);
      }
    }
  }

  lemma SubparametersMean(sub: string)
    ensures Subparameters(sub) <==> KittySubparameters(sub)
  {
    assert Subparameters("");
    hide Subparameters;
    if Subparameters(sub) {
      SubparametersTaken(sub);
    } else {
      forall a ensures !OneField(sub, a) {
        if Digits(a) {
          OneSubparameter(a);
        }
      }
      forall a, b ensures !TwoFields(sub, a, b) {
        if Digits(a) && Number(b) {
          TwoSubparameters(a, b);
        }
      }
    }
  }

  lemma KittyKeyRead(t: string, number: string, sub: string)
    requires KittyKey(t, number, sub)
    ensures |t| >= 4 && t[2..|t| - 1] == number + sub && DigitsEnd(number + sub, 0) == |number|
    ensures (number + sub)[0..|number|] == number && (number + sub)[|number|..] == sub && Subparameters(sub)
    ensures t[0] == ESC && t[1] == '[' && t[|t| - 1] == 'u'
  {
    SubparametersMean(sub);
    var body := number + sub;
    assert body[0..|number|] == number && body[|number|..] == sub;
    DigitsRun(body, 0, |number|);
  }

  lemma KittyKeyFound(t: string)
    requires KittyCodepoint(t).Some?
    ensures exists number, sub :: KittyKey(t, number, sub)
  {
    var body := t[2..|t| - 1];
    var i := DigitsEnd(body, 0);
    SubparametersMean(body[i..]);
    assert t == "\U{1b}[" + (body[0..i] + (body[i..] + "u"));
    assert KittyKey(t, body[0..i], body[i..]);
  }

  /** Exactly such keys have a code point, the value of the number, if it is that of a printable character. */
  lemma KittyCodepointIs(t: string, number: string, sub: string)
    ensures KittyKey(t, number, sub) ==>
      KittyCodepoint(t) == if Value(number) >= 32 then Some(Value(number)) else None
    ensures KittyCodepoint(t).Some? ==> exists n, s :: KittyKey(t, n, s)
  {
    hide KittyKey, Subparameters;
    if KittyKey(t, number, sub) {
      KittyKeyRead(t, number, sub);
    }
    if KittyCodepoint(t).Some? {
      KittyKeyFound(t);
    }
  }

  lemma TwoKeys(first: string, second: string)
    ensures Events([Key(first), Key(second)], None)
         == Event1(None, Key(first)) + Event1(PendingAfter(None, Key(first)), Key(second))
  {
    hide Event1, PendingAfter;
    var keys := [Key(first), Key(second)];
    assert keys[..1] == [Key(first)] && [Key(first)][..0] == [];
    assert [] + Event1(None, Key(first)) == Event1(None, Key(first));
    assert Events([], None) == [] && Pending([], None) == None;
    assert Events(keys[..1], None) == Event1(None, Key(first));
    assert Pending(keys[..1], None) == PendingAfter(None, Key(first));
  }

  /** A printable key that is reported in the Kitty encoding and then again as its character is one event. */
  lemma KittyThenCharacter(t: string, number: string, sub: string, c: char)
    requires KittyKey(t, number, sub)
    ensures Events([Key(t), Key([c])], None)
         == if Value(number) >= 32 && Value(number) == c as int then [Data(t)] else [Data(t), Data([c])]
  {
    KittyCodepointIs(t, number, sub);
    assert |t| > 1;
    hide KittyKey, KittyCodepoint, Value, Events;
    TwoKeys(t, [c]);
  }

  /** What stands between the two markers is one paste, and the input is read on behind it. */
  lemma PasteIsOneEvent(content: string, rest: string)
    requires !Occurs(content + "\U{1b}[201", "\U{1b}[201~")
    ensures Whole(SequenceStatus, "\U{1b}[200~" + content + "\U{1b}[201~" + rest)
         == Prepend([PasteBegins, PasteEnds(content)], Whole(SequenceStatus, rest))
    ensures Events([PasteBegins, PasteEnds(content)], None) == [Paste(content)]
  {
    EndMarkerFirst(content);
    assert Pasted("", content) + rest == "\U{1b}[200~" + content + "\U{1b}[201~" + rest;
    StartMarkerFirst();
    PasteThrough(SequenceStatus, "", content, rest);
    assert FoundIn(SequenceStatus, "", content) == [PasteBegins, PasteEnds(content)] by {
      assert Keys(Tokens(SequenceStatus, "")) == [];
      assert [] + [PasteBegins] + [PasteEnds(content)] == [PasteBegins, PasteEnds(content)];
    }
    PasteEvents(content);
  }

  lemma PasteEvents(content: string)
    ensures Events([PasteBegins, PasteEnds(content)], None) == [Paste(content)]
  {
    assert [PasteBegins, PasteEnds(content)][..1] == [PasteBegins] && [PasteBegins][..0] == [];
  }

  lemma StartMarkerFirst()
    ensures IndexOf("" + PASTE_START, PASTE_START) == 0
  {
    var s := "" + PASTE_START;
    assert s[0..6] == PASTE_START;
    assert OccursAt(s, PASTE_START, 0);
  }

  lemma EndMarkerFirst(content: string)
    requires !Occurs(content + "\U{1b}[201", "\U{1b}[201~")
    ensures IndexOf(content + "\U{1b}[201~", PASTE_END) == |content|
  {
    var head, s := content + "\U{1b}[201", content + "\U{1b}[201~";
    assert s[|content|..|content| + 6] == PASTE_END;
    assert OccursAt(s, PASTE_END, |content|);
    var at := IndexOf(s, PASTE_END);
    if at < |content| {
      assert head[at..at + 6] == s[at..at + 6];
      assert OccursAt(head, PASTE_END, at);
    }
  }
}
