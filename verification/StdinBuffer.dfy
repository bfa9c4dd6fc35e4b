/** Input arriving in chunks, with bracketed paste. What it means does not depend on how it is cut, exactly
    when no escape sequence reaches into a paste marker.
 */
module StdinBuffer {
  import opened AnsiScanner
  import opened AnsiTracker
  import opened Basics
  import opened InputGrammar
  import opened InputTokens
  import opened Search

  const PASTE_START: string := "\U{1b}[200~"
  const PASTE_END: string := "\U{1b}[201~"

  // ---------- Events ----------

  datatype Event = Data(sequence: string) | Paste(content: string)

  // What the reader recognizes, before duplicate keys are dropped.
  datatype Found = Key(sequence: string) | PasteBegins | PasteEnds(content: string)

  // A printable key in the Kitty encoding, without modifiers: ESC [ number, two optional subparameters, u.
  function KittyCodepoint(sequence: string): Option<int> {
    if |sequence| < 4 || sequence[0] != ESC || sequence[1] != '[' || sequence[|sequence| - 1] != 'u' then None
    else
      var body := sequence[2..|sequence| - 1];
      var i := DigitsEnd(body, 0);
      if i == 0 || !Subparameters(body[i..]) then None
      else
        var codepoint := Value(body[0..i]);
        if codepoint >= 32 then Some(codepoint) else None
  }

  // Nothing, one field that may be empty, or two fields of which the second may not.
  predicate Subparameters(s: string) {
    || s == ""
    || (s[0] == ':' && var i := DigitsEnd(s, 1);
        || i == |s|
        || (s[i] == ':' && i + 1 < |s| && DigitsEnd(s, i + 1) == |s|))
  }

  function PendingAfter(pending: Option<int>, found: Found): Option<int> {
    match found
    case Key(sequence) => if Duplicate(pending, sequence) then None else KittyCodepoint(sequence)
    case _ => None
  }

  predicate Duplicate(pending: Option<int>, sequence: string) {
    |sequence| == 1 && pending == Some(sequence[0] as int)
  }

  function Event1(pending: Option<int>, found: Found): seq<Event> {
    match found
    case Key(sequence) => if Duplicate(pending, sequence) then [] else [Data(sequence)]
    case PasteBegins => []
    case PasteEnds(content) => [Paste(content)]
  }

  function Pending(found: seq<Found>, pending: Option<int>): Option<int> {
    if found == [] then pending else PendingAfter(Pending(found[..|found| - 1], pending), found[|found| - 1])
  }

  function Events(found: seq<Found>, pending: Option<int>): seq<Event> {
    if found == [] then []
    else
      var before, last := found[..|found| - 1], found[|found| - 1];
      Events(before, pending) + Event1(Pending(before, pending), last)
  }

  lemma {:induction false} EventsCompose(a: seq<Found>, b: seq<Found>, pending: Option<int>)
    ensures Pending(a + b, pending) == Pending(b, Pending(a, pending))
    ensures Events(a + b, pending) == Events(a, pending) + Events(b, Pending(a, pending))
  {
    hide KittyCodepoint, Event1;
    if b == [] {
      assert a + b == a;
    } else {
      var n := |b| - 1;
      assert (a + b)[..|a + b| - 1] == a + b[..n];
      EventsCompose(a, b[..n], pending);
    }
  }

  /** Only the plain character that comes right after its own Kitty encoding is dropped. */
  lemma DroppedOnlyAsDuplicate(found: seq<Found>, key: string)
    ensures Events(found + [Key(key)], None) == Events(found, None)
            <==> |key| == 1 && found != [] && found[|found| - 1].Key?
                 && KittyCodepoint(found[|found| - 1].sequence) == Some(key[0] as int)
  {
    assert (found + [Key(key)])[..|found|] == found;
  }

  // ---------- One chunk ----------

  datatype State = State(buffer: string, pasting: bool, pasteBuffer: string)

  const IDLE := State("", false, "")

  function Keys(sequences: seq<string>): seq<Found> {
    seq(|sequences|, i requires 0 <= i < |sequences| => Key(sequences[i]))
  }

  function Prepend(found: seq<Found>, so: (State, seq<Found>)): (State, seq<Found>) { (so.0, found + so.1) }

  // What is found after what has been found so far.
  function Then(g: Grammar, so: (State, seq<Found>), str: string): (State, seq<Found>) {
    Prepend(so.1, Chunk(g, so.0, str))
  }

  lemma PrependTwice(a: seq<Found>, b: seq<Found>, so: (State, seq<Found>))
    ensures Prepend(a, Prepend(b, so)) == Prepend(a + b, so)
  {
    ConcatAssociates(a, b, so.1);
  }

  function Chunk(g: Grammar, st: State, str: string): (State, seq<Found>)
    decreases |st.buffer| + |st.pasteBuffer| + |str|, 1
  {
    if str == "" && st.buffer == "" then (st, [Key("")])
    else
      var buffer := st.buffer + str;
      if st.pasting then Pasting(g, st.pasteBuffer + buffer)
      else
        var start := IndexOf(buffer, PASTE_START);
        if start == -1 then (State(Rest(g, buffer), false, st.pasteBuffer), Keys(Tokens(g, buffer)))
        else Prepend(Keys(Tokens(g, buffer[..start])) + [PasteBegins], Pasting(g, buffer[start + |PASTE_START|..]))
  }

  function Pasting(g: Grammar, pasteBuffer: string): (State, seq<Found>)
    decreases |pasteBuffer|, 0
  {
    var end := IndexOf(pasteBuffer, PASTE_END);
    if end == -1 then (State("", true, pasteBuffer), [])
    else Prepend([PasteEnds(pasteBuffer[..end])], Whole(g, pasteBuffer[end + |PASTE_END|..]))
  }

  // A whole input, read at once from the start.
  function Whole(g: Grammar, s: string): (State, seq<Found>)
    decreases |s|, 2
  {
    if s == "" then (IDLE, []) else Chunk(g, IDLE, s)
  }

  function Chunks(g: Grammar, st: State, chunks: seq<string>): (State, seq<Found>) {
    if chunks == [] then (st, [])
    else
      var n := |chunks| - 1;
      Then(g, Chunks(g, st, chunks[..n]), chunks[n])
  }

  // ---------- When the cuts do not matter ----------

  // All of a paste marker but its last character.
  const ALMOST: string := "\U{1b}[200"

  // Read after the text, the marker still stands free: no sequence that the text begins swallows its start.
  predicate Free(g: Grammar, text: string) { |Rest(g, text + ALMOST)| >= |ALMOST| }

  // Every paste marker outside a paste stands free.
  predicate Clean(g: Grammar, s: string)
    decreases |s|
  {
    var start := IndexOf(s, PASTE_START);
    start == -1 || (Free(g, s[..start]) && CleanPaste(g, s[start + |PASTE_START|..]))
  }

  predicate CleanPaste(g: Grammar, s: string)
    decreases |s|
  {
    var end := IndexOf(s, PASTE_END);
    end == -1 || Clean(g, s[end + |PASTE_END|..])
  }

  lemma {:induction false} CleanPrefix(g: Grammar, s: string, t: string)
    requires Clean(g, s + t)
    ensures Clean(g, s)
    decreases |s|, 1
  {
    var start := IndexOf(s, PASTE_START);
    if start != -1 {
      CutAtFirst(s, t, PASTE_START);
      CleanPastePrefix(g, s[start + |PASTE_START|..], t);
    }
  }

  lemma {:induction false} CleanPastePrefix(g: Grammar, s: string, t: string)
    requires CleanPaste(g, s + t)
    ensures CleanPaste(g, s)
    decreases |s|, 0
  {
    var end := IndexOf(s, PASTE_END);
    if end != -1 {
      CutAtFirst(s, t, PASTE_END);
      CleanPrefix(g, s[end + |PASTE_END|..], t);
    }
  }

  lemma PlainChunk(g: Grammar, st: State, str: string)
    requires !st.pasting && st.buffer + str != "" && IndexOf(st.buffer + str, PASTE_START) == -1
    ensures Chunk(g, st, str)
         == (State(Rest(g, st.buffer + str), false, st.pasteBuffer), Keys(Tokens(g, st.buffer + str)))
  {
  }

  lemma MarkedChunk(g: Grammar, st: State, str: string)
    requires !st.pasting && st.buffer + str != "" && IndexOf(st.buffer + str, PASTE_START) != -1
    ensures var buffer := st.buffer + str;
      var i := IndexOf(buffer, PASTE_START);
      Chunk(g, st, str) == Prepend(Keys(Tokens(g, buffer[..i])) + [PasteBegins],
                                   Pasting(g, buffer[i + |PASTE_START|..]))
  {
  }

  lemma MarkedWhole(g: Grammar, s: string)
    requires IndexOf(s, PASTE_START) != -1
    ensures var i := IndexOf(s, PASTE_START);
      Whole(g, s) == Prepend(Keys(Tokens(g, s[..i])) + [PasteBegins], Pasting(g, s[i + |PASTE_START|..]))
  {
    assert "" + s == s;
    MarkedChunk(g, IDLE, s);
  }

  lemma PastingChunk(g: Grammar, p: string, t: string)
    requires t != ""
    ensures Chunk(g, State("", true, p), t) == Pasting(g, p + t)
  {
    assert "" + t == t;
  }

  // The state after an input without markers.
  function Plain(g: Grammar, s: string): (State, seq<Found>) { (State(Rest(g, s), false, ""), Keys(Tokens(g, s))) }

  lemma PlainStep(g: Grammar, s: string, t: string)
    requires t != "" && IndexOf(s + t, PASTE_START) == -1
    ensures Plain(g, s + t) == Then(g, Plain(g, s), t)
  {
    RestAfterTaken(g, s);
    CutConcat(s, t, Taken(g, s));
    IndexInSuffix(s + t, PASTE_START, Taken(g, s));
    PlainChunk(g, State(Rest(g, s), false, ""), t);
    TokensCompose(g, s, t);
    KeysConcat(Tokens(g, s), Tokens(g, Rest(g, s) + t));
  }

  lemma KeysConcat(a: seq<string>, b: seq<string>)
    ensures Keys(a + b) == Keys(a) + Keys(b)
  {
  }

  // A marker that begins at i is read up to its last character when s is, or s ends in the middle of it.
  lemma AlmostRead(s: string, t: string, i: nat)
    requires OccursAt(s + t, PASTE_START, i) && |s| <= i + |ALMOST|
    ensures (s + t)[..i] + ALMOST == s + (s + t)[|s|..i + |ALMOST|]
  {
    var all, n := s + t, i + |ALMOST|;
    assert ALMOST == PASTE_START[..|ALMOST|] == all[i..i + |PASTE_START|][..|ALMOST|] == all[i..n];
    CutTwice(all, i, |ALMOST|);
    CutTwice(all, |s|, n - |s|);
    CutConcat(s, t, |s|);
    assert s[..|s|] == s;
  }

  // The first marker after s lies behind the tokens of s.
  lemma MarkerBehindTokens(g: Grammar, s: string, t: string)
    requires IndexOf(s, PASTE_START) == -1 && IndexOf(s + t, PASTE_START) != -1
    requires Free(g, (s + t)[..IndexOf(s + t, PASTE_START)])
    ensures Taken(g, s) <= IndexOf(s + t, PASTE_START)
  {
    var i := IndexOf(s + t, PASTE_START);
    if i + |PASTE_START| <= |s| {
      OccursInPrefix(s, t, PASTE_START, i);
    }
    AlmostRead(s, t, i);
    TokensCompose(g, s, (s + t)[|s|..i + |ALMOST|]);
  }

  lemma MarkerStep(g: Grammar, s: string, t: string)
    requires t != "" && IndexOf(s + t, PASTE_START) != -1 && Taken(g, s) <= IndexOf(s + t, PASTE_START)
    ensures Whole(g, s + t) == Then(g, Plain(g, s), t)
  {
    var found, paste := MarkerInNextChunk(g, s, t);
    MarkerInWhole(g, s, t, found, paste);
    PrependTwice(Keys(Tokens(g, s)), found, paste);
  }

  lemma MarkerInWhole(g: Grammar, s: string, t: string, found: seq<Found>, paste: (State, seq<Found>))
    requires t != "" && IndexOf(s + t, PASTE_START) != -1 && Taken(g, s) <= IndexOf(s + t, PASTE_START)
    requires found == Keys(Tokens(g, (Rest(g, s) + t)[..IndexOf(s + t, PASTE_START) - Taken(g, s)])) + [PasteBegins]
    requires paste == Pasting(g, (s + t)[IndexOf(s + t, PASTE_START) + |PASTE_START|..])
    ensures Whole(g, s + t) == Prepend(Keys(Tokens(g, s)) + found, paste)
  {
    hide Whole, Pasting, Chunk, Tokens, Rest, IndexOf;
    KeysOfCut(g, s, t, IndexOf(s + t, PASTE_START));
    MarkedWhole(g, s + t);
  }

  lemma MarkerInNextChunk(g: Grammar, s: string, t: string) returns (found: seq<Found>, paste: (State, seq<Found>))
    requires t != "" && IndexOf(s + t, PASTE_START) != -1 && Taken(g, s) <= IndexOf(s + t, PASTE_START)
    ensures found == Keys(Tokens(g, (Rest(g, s) + t)[..IndexOf(s + t, PASTE_START) - Taken(g, s)])) + [PasteBegins]
    ensures paste == Pasting(g, (s + t)[IndexOf(s + t, PASTE_START) + |PASTE_START|..])
    ensures Chunk(g, State(Rest(g, s), false, ""), t) == Prepend(found, paste)
  {
    hide Tokens, Rest, Pasting, Chunk, IndexOf, Keys;
    var i := IndexOf(s + t, PASTE_START);
    found := Keys(Tokens(g, (Rest(g, s) + t)[..i - Taken(g, s)])) + [PasteBegins];
    paste := Pasting(g, (s + t)[i + |PASTE_START|..]);
    MarkerInRest(g, s, t);
    MarkedChunk(g, State(Rest(g, s), false, ""), t);
  }

  lemma KeysOfCut(g: Grammar, s: string, t: string, i: nat)
    requires Taken(g, s) <= i <= |s + t|
    ensures Keys(Tokens(g, (s + t)[..i])) + [PasteBegins]
         == Keys(Tokens(g, s)) + (Keys(Tokens(g, (Rest(g, s) + t)[..i - Taken(g, s)])) + [PasteBegins])
  {
    TokensCutAfter(g, s, t, i);
    var more := Tokens(g, (Rest(g, s) + t)[..i - Taken(g, s)]);
    KeysConcat(Tokens(g, s), more);
    ConcatAssociates(Keys(Tokens(g, s)), Keys(more), [PasteBegins]);
  }

  lemma MarkerInRest(g: Grammar, s: string, t: string)
    requires IndexOf(s + t, PASTE_START) != -1 && Taken(g, s) <= IndexOf(s + t, PASTE_START)
    ensures var i, buffer := IndexOf(s + t, PASTE_START), Rest(g, s) + t;
      && IndexOf(buffer, PASTE_START) == i - Taken(g, s)
      && buffer[i - Taken(g, s) + |PASTE_START|..] == (s + t)[i + |PASTE_START|..]
  {
    var i, n := IndexOf(s + t, PASTE_START), Taken(g, s);
    RestAfterTaken(g, s);
    CutConcat(s, t, n);
    IndexInSuffix(s + t, PASTE_START, n);
    CutTwice(s + t, n, i - n + |PASTE_START|);
  }

  lemma {:induction false} PastingStep(g: Grammar, p: string, t: string)
    requires t != "" && CleanPaste(g, p + t)
    ensures Pasting(g, p + t) == Then(g, Pasting(g, p), t)
    decreases |p|, 0
  {
    var end := IndexOf(p, PASTE_END);
    if end != -1 {
      CutAtFirst(p, t, PASTE_END);
      var rest := p[end + |PASTE_END|..];
      WholeStep(g, rest, t);
      PrependTwice([PasteEnds(p[..end])], Whole(g, rest).1, Chunk(g, Whole(g, rest).0, t));
    } else {
      PastingChunk(g, p, t);
      assert [] + Pasting(g, p + t).1 == Pasting(g, p + t).1;
    }
  }

  // One more chunk continues what the input so far has left.
  lemma {:induction false} WholeStep(g: Grammar, s: string, t: string)
    requires t != "" && Clean(g, s + t)
    ensures Whole(g, s + t) == Then(g, Whole(g, s), t)
    decreases |s|, 1
  {
    if s == "" {
      assert s + t == t;
      assert [] + Chunk(g, IDLE, t).1 == Chunk(g, IDLE, t).1;
    } else if IndexOf(s, PASTE_START) != -1 {
      MarkedStep(g, s, t);
    } else {
      assert "" + s == s && "" + (s + t) == s + t;
      PlainChunk(g, IDLE, s);
      assert Whole(g, s) == Plain(g, s);
      if IndexOf(s + t, PASTE_START) == -1 {
        PlainChunk(g, IDLE, s + t);
        PlainStep(g, s, t);
      } else {
        MarkerBehindTokens(g, s, t);
        MarkerStep(g, s, t);
      }
    }
  }

  lemma {:induction false} MarkedStep(g: Grammar, s: string, t: string)
    requires t != "" && Clean(g, s + t) && IndexOf(s, PASTE_START) != -1
    ensures Whole(g, s + t) == Then(g, Whole(g, s), t)
    decreases |s|, 0
  {
    var start := IndexOf(s, PASTE_START);
    CutAtFirst(s, t, PASTE_START);
    var p := s[start + |PASTE_START|..];
    MarkedWhole(g, s);
    MarkedWhole(g, s + t);
    PastingStep(g, p, t);
    PrependTwice(Keys(Tokens(g, s[..start])) + [PasteBegins], Pasting(g, p).1, Chunk(g, Pasting(g, p).0, t));
  }

  // ---------- Every cut ----------

  ghost predicate Cuts(chunks: seq<string>, s: string) {
    Flatten(chunks) == s && forall i :: 0 <= i < |chunks| ==> chunks[i] != ""
  }

  lemma {:induction false} CutsDoNotMatter(g: Grammar, chunks: seq<string>, s: string)
    requires Cuts(chunks, s) && Clean(g, s)
    ensures Chunks(g, IDLE, chunks) == Whole(g, s)
  {
    if chunks != [] {
      var n := |chunks| - 1;
      CleanPrefix(g, Flatten(chunks[..n]), chunks[n]);
      CutsDoNotMatter(g, chunks[..n], Flatten(chunks[..n]));
      WholeStep(g, Flatten(chunks[..n]), chunks[n]);
    }
  }

  // ---------- A paste in chunks ----------

  // An input that goes on in the middle of a paste.
  function Resumed(g: Grammar, p: string, chunks: seq<string>): (State, seq<Found>) {
    Chunks(g, State("", true, p), chunks)
  }

  /** Once in a paste, every chunking delivers exactly the text up to the first end marker, whatever follows it;
      until the marker has come in whole, nothing is delivered and everything is held. */
  lemma {:induction false} PasteDelivered(g: Grammar, p: string, chunks: seq<string>)
    requires IndexOf(p, PASTE_END) == -1 && forall i :: 0 <= i < |chunks| ==> chunks[i] != ""
    ensures var s, so := p + Flatten(chunks), Resumed(g, p, chunks);
      var end := IndexOf(s, PASTE_END);
      if end == -1 then so == (State("", true, s), [])
      else so.1 != [] && so.1[0] == PasteEnds(s[..end])
  {
    if chunks == [] {
      assert p + [] == p;
    } else {
      var n := |chunks| - 1;
      PasteDelivered(g, p, chunks[..n]);
      PasteGoesOn(g, p + Flatten(chunks[..n]), Resumed(g, p, chunks[..n]), chunks[n]);
      ConcatAssociates(p, Flatten(chunks[..n]), chunks[n]);
    }
  }

  lemma PasteGoesOn(g: Grammar, s: string, so: (State, seq<Found>), t: string)
    requires t != ""
    requires var end := IndexOf(s, PASTE_END);
      if end == -1 then so == (State("", true, s), []) else so.1 != [] && so.1[0] == PasteEnds(s[..end])
    ensures var end, after := IndexOf(s + t, PASTE_END), Then(g, so, t);
      if end == -1 then after == (State("", true, s + t), [])
      else after.1 != [] && after.1[0] == PasteEnds((s + t)[..end])
  {
    if IndexOf(s, PASTE_END) == -1 {
      PastingChunk(g, s, t);
    } else {
      CutAtFirst(s, t, PASTE_END);
    }
  }

  // ---------- A cut that matters ----------

  // The events tell the input a + b from the chunks a and b.
  ghost predicate CutShows(g: Grammar, a: string, b: string) {
    Events(Then(g, Whole(g, a), b).1, None) != Events(Whole(g, a + b).1, None)
  }

  // A text, the marker after it, a paste, and the marker that ends it.
  function Pasted(text: string, content: string): string { text + PASTE_START + (content + PASTE_END) }

  ghost predicate FirstMarkers(text: string, content: string) {
    IndexOf(text + PASTE_START, PASTE_START) == |text| && IndexOf(content + PASTE_END, PASTE_END) == |content|
  }

  function FoundIn(g: Grammar, text: string, content: string): seq<Found> {
    Keys(Tokens(g, text)) + [PasteBegins] + [PasteEnds(content)]
  }

  lemma PasteThrough(g: Grammar, text: string, content: string, rest: string)
    requires FirstMarkers(text, content)
    ensures Whole(g, Pasted(text, content) + rest) == Prepend(FoundIn(g, text, content), Whole(g, rest))
  {
    var head, pasted := text + PASTE_START, content + PASTE_END;
    ConcatAssociates(head, pasted, rest);
    CutAtFirst(head, pasted + rest, PASTE_START);
    CutAtFirst(pasted, rest, PASTE_END);
    assert head[..|text|] == text && head[|text| + |PASTE_START|..] == "" && "" + (pasted + rest) == pasted + rest;
    assert pasted[..|content|] == content && pasted[|content| + |PASTE_END|..] == "" && "" + rest == rest;
    MarkedWhole(g, head + (pasted + rest));
    PrependTwice(Keys(Tokens(g, text)) + [PasteBegins], [PasteEnds(content)], Whole(g, rest));
  }

  // Different results stay different behind the same paste.
  lemma CutShowsLater(g: Grammar, text: string, content: string, a: string, b: string)
    requires FirstMarkers(text, content) && CutShows(g, a, b)
    ensures CutShows(g, Pasted(text, content) + a, b)
  {
    var before, found := Pasted(text, content), FoundIn(g, text, content);
    PasteThrough(g, text, content, a);
    PasteThrough(g, text, content, a + b);
    ConcatAssociates(before, a, b);
    PrependTwice(found, Whole(g, a).1, Chunk(g, Whole(g, a).0, b));
    EventsBehindPaste(Keys(Tokens(g, text)) + [PasteBegins], content, Whole(g, a + b).1);
    EventsBehindPaste(Keys(Tokens(g, text)) + [PasteBegins], content, Then(g, Whole(g, a), b).1);
    SameAfterPrefix(Events(found, None), Events(Whole(g, a + b).1, None), Events(Then(g, Whole(g, a), b).1, None));
  }

  lemma SameAfterPrefix(a: seq<Event>, b: seq<Event>, c: seq<Event>)
    ensures a + b == a + c ==> b == c
  {
    assert b == (a + b)[|a|..] && c == (a + c)[|a|..];
  }

  lemma EventsBehindPaste(found: seq<Found>, content: string, more: seq<Found>)
    ensures Events(found + [PasteEnds(content)] + more, None)
      == Events(found + [PasteEnds(content)], None) + Events(more, None)
  {
    var pasted := found + [PasteEnds(content)];
    assert pasted[..|found|] == found;
    EventsCompose(pasted, more, None);
  }

  // An unfinished sequence that does not leave the marker free takes its first character with it.
  lemma Swallows(g: Grammar, text: string) returns (keys: seq<string>)
    requires g([ESC]) == Incomplete && !Free(g, text)
    ensures keys != [] && |keys[0]| >= 2 && Tokens(g, text + ALMOST) == Tokens(g, text) + keys
  {
    TokensAreTokens(g, text);
    TokensCompose(g, text, ALMOST);
    var y := Rest(g, text) + ALMOST;
    keys := Tokens(g, y);
    assert y[0] == ESC && y[..1] == [ESC];
  }

  lemma CutShowsFirst(g: Grammar, s: string)
    requires g([ESC]) == Incomplete && IndexOf(s, PASTE_START) != -1 && !Free(g, s[..IndexOf(s, PASTE_START)])
    ensures var k := IndexOf(s, PASTE_START) + |ALMOST|;
      CutShows(g, s[..k], s[k..])
  {
    var i := IndexOf(s, PASTE_START);
    var k := i + |ALMOST|;
    var keys := Swallows(g, s[..i]);
    ReadAlmost(s);
    PlainWhole(g, s[..k]);
    KeysConcat(Tokens(g, s[..i]), keys);
    MarkedWhole(g, s);
    TakeDrop(s, k);
    var before := Keys(Tokens(g, s[..i]));
    var cut := Chunk(g, Whole(g, s[..k]).0, s[k..]).1;
    KeyNotPaste(before, keys, cut, Pasting(g, s[i + |PASTE_START|..]).1);
  }

  lemma ReadAlmost(s: string)
    requires IndexOf(s, PASTE_START) != -1
    ensures var i := IndexOf(s, PASTE_START);
      s[..i + |ALMOST|] == s[..i] + ALMOST && IndexOf(s[..i + |ALMOST|], PASTE_START) == -1
  {
    var i := IndexOf(s, PASTE_START);
    var head, tail := s[..i + |ALMOST|], s[i + |ALMOST|..];
    TakeDrop(s, i + |ALMOST|);
    if IndexOf(head, PASTE_START) != -1 {
      FirstStaysFirst(head, tail, PASTE_START);
    }
    assert ALMOST == PASTE_START[..|ALMOST|] == s[i..i + |PASTE_START|][..|ALMOST|] == s[i..i + |ALMOST|];
    CutTwice(s, i, |ALMOST|);
  }

  lemma PlainWhole(g: Grammar, s: string)
    requires s != "" && IndexOf(s, PASTE_START) == -1
    ensures Whole(g, s) == Plain(g, s)
  {
    assert "" + s == s;
    PlainChunk(g, IDLE, s);
  }

  ghost predicate PasteFirst(found: seq<Found>) { found != [] ==> found[0].PasteEnds? }

  // A paste that is found first is emitted first, whatever key was pending.
  lemma PasteIsFirst(found: seq<Found>, pending: Option<int>)
    ensures found != [] && found[0].PasteEnds? ==> [Paste(found[0].content)] <= Events(found, pending)
  {
    if found != [] {
      assert found == [found[0]] + found[1..] && [found[0]][..0] == [];
      EventsCompose([found[0]], found[1..], pending);
    }
  }

  lemma EventAfter(before: seq<Found>, found: Found, more: seq<Found>)
    ensures var pending := Pending(before, None);
      Events(before + [found] + more, None)
      == Events(before, None) + (Event1(pending, found) + Events(more, PendingAfter(pending, found)))
  {
    EventsCompose(before + [found], more, None);
    assert (before + [found])[..|before|] == before;
    ConcatAssociates(Events(before, None), Event1(Pending(before, None), found),
                     Events(more, PendingAfter(Pending(before, None), found)));
  }

  lemma PasteLeads(paste: seq<Found>)
    requires PasteFirst(paste)
    ensures Events(paste, None) == [] || Events(paste, None)[0].Paste?
  {
    if paste != [] {
      EventAfter([], paste[0], paste[1..]);
      assert [] + [paste[0]] + paste[1..] == paste;
    }
  }

  // One reading delivers a key where the other delivers a paste or nothing.
  lemma KeyNotPaste(before: seq<Found>, keys: seq<string>, cut: seq<Found>, paste: seq<Found>)
    requires keys != [] && |keys[0]| >= 2 && PasteFirst(paste)
    ensures Events(before + Keys(keys) + cut, None) != Events(before + [PasteBegins] + paste, None)
  {
    var key, more := Key(keys[0]), Keys(keys)[1..] + cut;
    assert before + Keys(keys) + cut == before + [key] + more;
    EventAfter(before, key, more);
    EventAfter(before, PasteBegins, paste);
    PasteLeads(paste);
    var pending := Pending(before, None);
    var left := [Data(keys[0])] + Events(more, PendingAfter(pending, key));
    assert left[0] == Data(keys[0]);
    assert [] + Events(paste, None) == Events(paste, None);
    SameAfterPrefix(Events(before, None), left, Events(paste, None));
  }

  // A marker that is not free can be cut off from the sequence that swallows it.
  lemma {:induction false} CutShowsSomewhere(g: Grammar, s: string) returns (a: string, b: string)
    requires g([ESC]) == Incomplete && !Clean(g, s)
    ensures a != "" && b != "" && a + b == s && CutShows(g, a, b)
    decreases |s|
  {
    var i := IndexOf(s, PASTE_START);
    if !Free(g, s[..i]) {
      CutShowsFirst(g, s);
      var k := i + |ALMOST|;
      TakeDrop(s, k);
      a, b := s[..k], s[k..];
    } else {
      a, b := CutShowsSomewhere(g, AfterPaste(s));
      var text, content := SplitAtPaste(s);
      CutShowsLater(g, text, content, a, b);
      ConcatAssociates(Pasted(text, content), a, b);
      a := Pasted(text, content) + a;
    }
  }

  function AfterPaste(s: string): (rest: string)
    requires var i := IndexOf(s, PASTE_START);
      i != -1 && IndexOf(s[i + |PASTE_START|..], PASTE_END) != -1
    ensures |rest| < |s|
  {
    var p := s[IndexOf(s, PASTE_START) + |PASTE_START|..];
    p[IndexOf(p, PASTE_END) + |PASTE_END|..]
  }

  lemma SplitAtPaste(s: string) returns (text: string, content: string)
    requires var i := IndexOf(s, PASTE_START);
      i != -1 && IndexOf(s[i + |PASTE_START|..], PASTE_END) != -1
    ensures FirstMarkers(text, content) && s == Pasted(text, content) + AfterPaste(s)
  {
    var i := IndexOf(s, PASTE_START);
    var p := s[i + |PASTE_START|..];
    FirstEndsPrefix(s, PASTE_START);
    FirstEndsPrefix(p, PASTE_END);
    text, content := s[..i], p[..IndexOf(p, PASTE_END)];
    ConcatAssociates(text + PASTE_START, content + PASTE_END, AfterPaste(s));
  }

  lemma FirstEndsPrefix(s: string, m: string)
    requires IndexOf(s, m) != -1 && m != ""
    ensures var i := IndexOf(s, m);
      s == s[..i] + m + s[i + |m|..] && IndexOf(s[..i] + m, m) == i
  {
    var i := IndexOf(s, m);
    var head, tail := s[..i + |m|], s[i + |m|..];
    CutTwice(s, i, |m|);
    assert head == s[..i] + m;
    TakeDrop(s, i + |m|);
    OccursInPrefix(head, tail, m, i);
    FirstStaysFirst(head, tail, m);
  }

  /** For any way of telling complete sequences: an input reads the same however it is cut into chunks exactly
      when every paste marker in it stands free of the sequences before it. */
  lemma CutsMatterOnlyAtMarkers(g: Grammar, s: string)
    requires g([ESC]) == Incomplete
    ensures Clean(g, s)
      <==> forall chunks :: Cuts(chunks, s) ==> Events(Chunks(g, IDLE, chunks).1, None) == Events(Whole(g, s).1, None)
  {
    if Clean(g, s) {
      forall chunks | Cuts(chunks, s) ensures Chunks(g, IDLE, chunks) == Whole(g, s) {
        CutsDoNotMatter(g, chunks, s);
      }
    } else {
      var a, b := CutShowsSomewhere(g, s);
      TwoChunks(g, a, b);
      assert Cuts([a, b], s);
    }
  }

  lemma TerminalInputCuts(s: string)
    ensures Clean(SequenceStatus, s)
      <==> forall chunks :: Cuts(chunks, s) ==>
             Events(Chunks(SequenceStatus, IDLE, chunks).1, None) == Events(Whole(SequenceStatus, s).1, None)
  {
    CutsMatterOnlyAtMarkers(SequenceStatus, s);
  }

  lemma TwoChunks(g: Grammar, a: string, b: string)
    requires a != "" && b != ""
    ensures Cuts([a, b], a + b) && Chunks(g, IDLE, [a, b]) == Then(g, Whole(g, a), b)
  {
    OneChunk(g, a);
    assert [a, b][..1] == [a];
  }

  lemma OneChunk(g: Grammar, a: string)
    requires a != ""
    ensures Flatten([a]) == a && Chunks(g, IDLE, [a]) == Whole(g, a)
  {
    assert [a][..0] == [] && [] + a == a;
    assert [] + Chunk(g, IDLE, a).1 == Chunk(g, IDLE, a).1;
  }

  // The control string of a single-shift key swallows the first character of a marker right behind it.
  lemma MarkerBehindSingleShift()
    ensures !Clean(SequenceStatus, "\U{1b}O" + PASTE_START)
  {
    var s := "\U{1b}O" + PASTE_START;
    var y := "\U{1b}O" + ALMOST;
    assert OccursAt(s, PASTE_START, 2);
    assert s[0..6] != PASTE_START by { assert s[0..6][1] == 'O'; }
    assert s[1..7] != PASTE_START by { assert s[1..7][0] == 'O'; }
    assert IndexOf(s, PASTE_START) == 2;
    assert s[..2] + ALMOST == y;
    assert y[..1] == "\U{1b}" && y[..2] == "\U{1b}O" && |y[..3]| == 3 && y[..3][0] == ESC && y[..3][1] == 'O';
    assert PrefixEnd(SequenceStatus, y, 3) == 3;
    assert PrefixEnd(SequenceStatus, y, 2) == 3;
    assert TokenEnd(SequenceStatus, y) == 3;
    assert |Rest(SequenceStatus, y)| <= |y| - 3;
  }

  // ---------- What is lost ----------

  function Source(found: seq<Found>): string {
    if found == [] then ""
    else
      Source(found[..|found| - 1])
      + match found[|found| - 1]
        case Key(sequence) => sequence
        case PasteBegins => PASTE_START
        case PasteEnds(content) => content + PASTE_END
  }

  function Held(st: State): string { if st.pasting then st.pasteBuffer else st.buffer }

  // An input taken apart into what is kept of it and what is thrown away.
  datatype Pieces = End(kept: string) | Cut(kept: string, lost: string, rest: Pieces)

  function Input(p: Pieces): string {
    match p
    case End(kept) => kept
    case Cut(kept, lost, rest) => kept + (lost + Input(rest))
  }

  function KeptOf(p: Pieces): string {
    match p
    case End(kept) => kept
    case Cut(kept, _, rest) => kept + KeptOf(rest)
  }

  // What is thrown away is an unfinished sequence, and it stood right before a paste marker.
  ghost predicate Sparing(g: Grammar, p: Pieces) {
    p.Cut? ==> p.lost != "" && Rest(g, p.lost) == p.lost && PASTE_START <= p.rest.kept && Sparing(g, p.rest)
  }

  function Behind(s: string, p: Pieces): Pieces { p.(kept := s + p.kept) }

  // Text up to a paste marker, and the pieces from there on.
  function UpToMarker(g: Grammar, text: string, p: Pieces): Pieces {
    var marked := Behind(PASTE_START, p);
    if Rest(g, text) == "" then Behind(text, marked) else Cut(Joined(Tokens(g, text)), Rest(g, text), marked)
  }

  function Parts(g: Grammar, s: string): Pieces
    decreases |s|, 1
  {
    var start := IndexOf(s, PASTE_START);
    if start == -1 then End(s) else UpToMarker(g, s[..start], PastedParts(g, s[start + |PASTE_START|..]))
  }

  function PastedParts(g: Grammar, p: string): Pieces
    decreases |p|, 0
  {
    var end := IndexOf(p, PASTE_END);
    if end == -1 then End(p) else Behind(p[..end] + PASTE_END, Parts(g, p[end + |PASTE_END|..]))
  }

  lemma SourceSnoc(found: seq<Found>, last: Found)
    ensures Source(found + [last]) == Source(found) + Source([last])
  {
    assert (found + [last])[..|found|] == found && [last][..0] == [];
  }

  lemma {:induction false} SourceConcat(a: seq<Found>, b: seq<Found>)
    ensures Source(a + b) == Source(a) + Source(b)
  {
    if b == [] {
      assert a + b == a;
    } else {
      var n := |b| - 1;
      SourceConcat(a, b[..n]);
      hide Source;
      SourceSnoc(a + b[..n], b[n]);
      SourceSnoc(b[..n], b[n]);
      ConcatAssociates(a, b[..n], [b[n]]);
      assert b == b[..n] + [b[n]];
      ConcatAssociates(Source(a), Source(b[..n]), Source([b[n]]));
    }
  }

  lemma SourceOfOne(found: Found)
    ensures Source([found]) == match found
      case Key(sequence) => sequence
      case PasteBegins => PASTE_START
      case PasteEnds(content) => content + PASTE_END
  {
    assert [found][..0] == [];
  }

  lemma {:induction false} SourceOfKeys(sequences: seq<string>)
    ensures Source(Keys(sequences)) == Joined(sequences)
  {
    if sequences != [] {
      SourceOfKeys(sequences[1..]);
      SourceConcat([Key(sequences[0])], Keys(sequences[1..]));
      SourceOfOne(Key(sequences[0]));
      assert Keys(sequences) == [Key(sequences[0])] + Keys(sequences[1..]);
    }
  }

  lemma SourceOfText(g: Grammar, text: string)
    ensures Source(Keys(Tokens(g, text)) + [PasteBegins]) == Joined(Tokens(g, text)) + PASTE_START
  {
    SourceOfKeys(Tokens(g, text));
    SourceOfOne(PasteBegins);
    SourceConcat(Keys(Tokens(g, text)), [PasteBegins]);
  }

  function Total(so: (State, seq<Found>)): string { Source(so.1) + Held(so.0) }

  lemma TotalPrepend(found: seq<Found>, so: (State, seq<Found>))
    ensures Total(Prepend(found, so)) == Source(found) + Total(so)
  {
    SourceConcat(found, so.1);
    ConcatAssociates(Source(found), Source(so.1), Held(so.0));
  }

  // The input ends in what is held, and what is held begins behind the last paste marker.
  ghost predicate Ends(p: Pieces, held: string) {
    match p
    case End(kept) => |held| <= |kept| && kept[|kept| - |held|..] == held
    case Cut(_, _, rest) => Ends(rest, held) && (rest.End? ==> |PASTE_START| + |held| <= |rest.kept|)
  }

  // The input, what is kept of it, and what is held at its end.
  ghost predicate Apart(g: Grammar, p: Pieces, s: string, kept: string, held: string) {
    Input(p) == s && KeptOf(p) == kept && Sparing(g, p) && Ends(p, held)
  }

  lemma BehindApart(g: Grammar, t: string, p: Pieces, s: string, kept: string, held: string)
    requires Apart(g, p, s, kept, held)
    ensures Apart(g, Behind(t, p), t + s, t + kept, held)
  {
    var q := Behind(t, p);
    match p
    case End(k) => assert (t + k)[|t + k| - |held|..] == k[|k| - |held|..];
    case Cut(k, l, rest) =>
      ConcatAssociates(t, k, l + Input(rest));
      ConcatAssociates(t, k, KeptOf(rest));
  }

  lemma UpToMarkerApart(g: Grammar, text: string, p: Pieces, s: string, kept: string, held: string)
    requires Apart(g, p, s, kept, held)
    ensures Apart(g, UpToMarker(g, text, p), text + (PASTE_START + s),
                  Joined(Tokens(g, text)) + (PASTE_START + kept), held)
  {
    hide Tokens, Rest, Joined, IndexOf;
    var marked := Behind(PASTE_START, p);
    var said, lost := Joined(Tokens(g, text)), Rest(g, text);
    BehindApart(g, PASTE_START, p, s, kept, held);
    TokensMakeUpInput(g, text);
    if lost == "" {
      assert said + "" == said;
      BehindApart(g, text, marked, PASTE_START + s, PASTE_START + kept, held);
    } else {
      TokensCompose(g, text, "");
      assert text + "" == text && lost + "" == lost;
      ConcatAssociates(said, lost, PASTE_START + s);
      assert PASTE_START <= marked.kept;
    }
  }

  /** What has been found and what is still held are the input with exactly the unfinished sequences that stood right
      before a paste marker taken out. */
  lemma {:induction false} FoundAndHeld(g: Grammar, s: string)
    ensures Apart(g, Parts(g, s), s, Total(Whole(g, s)), Held(Whole(g, s).0))
    decreases |s|, 1
  {
    var i := IndexOf(s, PASTE_START);
    if s == "" {
    } else if i == -1 {
      PlainWhole(g, s);
      TokensMakeUpInput(g, s);
      SourceOfKeys(Tokens(g, s));
    } else {
      var text, p := s[..i], s[i + |PASTE_START|..];
      MarkedWhole(g, s);
      FirstEndsPrefix(s, PASTE_START);
      ConcatAssociates(text, PASTE_START, p);
      PasteHeld(g, p);
      UpToMarkerApart(g, text, PastedParts(g, p), p, Total(Pasting(g, p)), Held(Pasting(g, p).0));
      SourceOfText(g, text);
      TotalPrepend(Keys(Tokens(g, text)) + [PasteBegins], Pasting(g, p));
      ConcatAssociates(Joined(Tokens(g, text)), PASTE_START, Total(Pasting(g, p)));
    }
  }

  lemma {:induction false} PasteHeld(g: Grammar, p: string)
    ensures Apart(g, PastedParts(g, p), p, Total(Pasting(g, p)), Held(Pasting(g, p).0))
    decreases |p|, 0
  {
    var j := IndexOf(p, PASTE_END);
    if j != -1 {
      var rest := p[j + |PASTE_END|..];
      FoundAndHeld(g, rest);
      FirstEndsPrefix(p, PASTE_END);
      BehindApart(g, p[..j] + PASTE_END, Parts(g, rest), rest, Total(Whole(g, rest)), Held(Whole(g, rest).0));
      SourceOfOne(PasteEnds(p[..j]));
      TotalPrepend([PasteEnds(p[..j])], Whole(g, rest));
    }
  }

  // ---------- What is lost from chunk to chunk ----------

  // The states that a buffer can be in.
  ghost predicate Proper(st: State) {
    if st.pasting then st.buffer == "" && IndexOf(st.pasteBuffer, PASTE_END) == -1 else st.pasteBuffer == ""
  }

  function PartsIn(g: Grammar, st: State, str: string): Pieces {
    if st.pasting then PastedParts(g, st.pasteBuffer + (st.buffer + str)) else Parts(g, st.buffer + str)
  }

  lemma {:induction false} WholeProper(g: Grammar, s: string)
    ensures Proper(Whole(g, s).0)
    decreases |s|, 1
  {
    if s != "" {
      if IndexOf(s, PASTE_START) == -1 {
        PlainWhole(g, s);
      } else {
        MarkedWhole(g, s);
        PastingProper(g, s[IndexOf(s, PASTE_START) + |PASTE_START|..]);
      }
    }
  }

  lemma {:induction false} PastingProper(g: Grammar, p: string)
    ensures Proper(Pasting(g, p).0)
    decreases |p|, 0
  {
    if IndexOf(p, PASTE_END) != -1 {
      WholeProper(g, p[IndexOf(p, PASTE_END) + |PASTE_END|..]);
    }
  }

  // A chunk in plain text reads like the whole of what is held and the chunk.
  lemma TextChunk(g: Grammar, st: State, str: string)
    requires !st.pasting && st.pasteBuffer == "" && st.buffer + str != ""
    ensures Chunk(g, st, str) == Whole(g, st.buffer + str)
  {
    var buffer := st.buffer + str;
    if IndexOf(buffer, PASTE_START) == -1 {
      PlainChunk(g, st, str);
      PlainWhole(g, buffer);
    } else {
      MarkedChunk(g, st, str);
      MarkedWhole(g, buffer);
    }
  }

  /** What was held and what comes in is found or held, with exactly such sequences taken out. */
  lemma ChunkHeld(g: Grammar, st: State, str: string)
    requires Proper(st)
    ensures var so := Chunk(g, st, str);
      Proper(so.0) && Apart(g, PartsIn(g, st, str), Held(st) + str, Total(so), Held(so.0))
  {
    assert "" + str == str;
    if st.buffer + str == "" {
      assert st.pasteBuffer + ("" + "") == st.pasteBuffer && Held(st) + "" == Held(st);
      SourceOfOne(Key(""));
    } else if st.pasting {
      PastingChunk(g, st.pasteBuffer, str);
      PastingProper(g, st.pasteBuffer + str);
      PasteHeld(g, st.pasteBuffer + str);
    } else {
      TextChunk(g, st, str);
      WholeProper(g, st.buffer + str);
      FoundAndHeld(g, st.buffer + str);
    }
  }

  // What is held at the end is taken apart again together with what comes in.
  function Graft(p: Pieces, held: nat, more: Pieces): Pieces {
    match p
    case End(kept) => Behind(kept[..Max(0, |kept| - held)], more)
    case Cut(kept, lost, rest) => Cut(kept, lost, Graft(rest, held, more))
  }

  function PartsOver(g: Grammar, st: State, chunks: seq<string>): Pieces {
    if chunks == [] then End(Held(st))
    else
      var n := |chunks| - 1;
      var before := Chunks(g, st, chunks[..n]).0;
      Graft(PartsOver(g, st, chunks[..n]), |Held(before)|, PartsIn(g, before, chunks[n]))
  }

  lemma {:induction false} GraftApart(g: Grammar, p: Pieces, s: string, found: string, held: string,
                                      q: Pieces, t: string, kept: string, held': string)
    requires Apart(g, p, s, found + held, held) && Apart(g, q, held + t, kept, held')
    ensures Apart(g, Graft(p, |held|, q), s + t, found + kept, held')
    decreases p, 1
  {
    match p
    case End(k) =>
      var before := k[..|k| - |held|];
      TakeDrop(k, |k| - |held|);
      assert before == found by { assert (found + held)[..|found|] == found; }
      BehindApart(g, before, q, held + t, kept, held');
      ConcatAssociates(before, held, t);
    case Cut(k, l, rest) =>
      GraftInside(g, p, s, found, held, q, t, kept, held');
  }

  lemma {:induction false} GraftInside(g: Grammar, p: Pieces, s: string, found: string, held: string,
                                       q: Pieces, t: string, kept: string, held': string)
    requires p.Cut? && Apart(g, p, s, found + held, held) && Apart(g, q, held + t, kept, held')
    ensures Apart(g, Graft(p, |held|, q), s + t, found + kept, held')
    decreases p, 0
  {
    var rest := p.rest;
    HeldIsKept(rest, held);
    var inner := KeptOf(rest)[..|KeptOf(rest)| - |held|];
    TakeDrop(KeptOf(rest), |KeptOf(rest)| - |held|);
    assert found == p.kept + inner by {
      ConcatAssociates(p.kept, inner, held);
      assert (found + held)[..|found|] == found && (p.kept + inner + held)[..|p.kept + inner|] == p.kept + inner;
    }
    GraftApart(g, rest, Input(rest), inner, held, q, t, kept, held');
    GraftKeepsMarker(rest, held, q);
    ConcatAssociates(p.kept, inner, kept);
    ConcatAssociates(p.lost, Input(rest), t);
    ConcatAssociates(p.kept, p.lost + Input(rest), t);
  }

  lemma {:induction false} HeldIsKept(p: Pieces, held: string)
    requires Ends(p, held)
    ensures |held| <= |KeptOf(p)| && KeptOf(p)[|KeptOf(p)| - |held|..] == held
  {
    if p.Cut? {
      HeldIsKept(p.rest, held);
      var inner := KeptOf(p.rest);
      assert (p.kept + inner)[|p.kept + inner| - |held|..] == inner[|inner| - |held|..];
    }
  }

  lemma GraftKeepsMarker(rest: Pieces, held: string, q: Pieces)
    requires PASTE_START <= rest.kept && Ends(rest, held) && (rest.End? ==> |PASTE_START| + |held| <= |rest.kept|)
    ensures var grafted := Graft(rest, |held|, q);
      PASTE_START <= grafted.kept && (grafted.End? ==> |PASTE_START| + |q.kept| <= |grafted.kept|)
  {
  }

  /** Over any chunking, what has been found and what is held are the input with exactly such sequences taken out. */
  lemma {:induction false} ChunksHeld(g: Grammar, st: State, chunks: seq<string>)
    requires Proper(st)
    ensures var so := Chunks(g, st, chunks);
      Proper(so.0) && Apart(g, PartsOver(g, st, chunks), Held(st) + Flatten(chunks), Total(so), Held(so.0))
  {
    if chunks == [] {
      assert Held(st) + [] == Held(st) && Source([]) + Held(st) == Held(st);
    } else {
      var n := |chunks| - 1;
      var before := Chunks(g, st, chunks[..n]);
      var after := Chunk(g, before.0, chunks[n]);
      ChunksHeld(g, st, chunks[..n]);
      ChunkHeld(g, before.0, chunks[n]);
      GraftApart(g, PartsOver(g, st, chunks[..n]), Held(st) + Flatten(chunks[..n]), Source(before.1), Held(before.0),
                 PartsIn(g, before.0, chunks[n]), chunks[n], Total(after), Held(after.0));
      TotalPrepend(before.1, after);
      ConcatAssociates(Held(st), Flatten(chunks[..n]), chunks[n]);
    }
  }

  // ---------- The buffer ----------

  class StdinBuffer {
    var buffer: string
    var pasteMode: bool
    var pasteBuffer: string
    var pendingKittyPrintableCodepoint: Option<int>
    var emitted: seq<Event>

    constructor ()
      ensures Current() == IDLE && pendingKittyPrintableCodepoint == None && emitted == []
    {
      buffer, pasteMode, pasteBuffer := "", false, "";
      pendingKittyPrintableCodepoint := None;
      emitted := [];
    }

    function Current(): State reads this { State(buffer, pasteMode, pasteBuffer) }

    // What was emitted before, then the events of what has been found since.
    ghost predicate Emitted(before: seq<Event>, pending: Option<int>, found: seq<Found>)
      reads this
    {
      && emitted == before + Events(found, pending)
      && pendingKittyPrintableCodepoint == Pending(found, pending)
    }

    ghost method Continue(before: seq<Event>, pending: Option<int>, found: seq<Found>, last: Found)
      requires emitted == before + Events(found, pending) + Event1(Pending(found, pending), last)
      requires pendingKittyPrintableCodepoint == PendingAfter(Pending(found, pending), last)
      ensures Emitted(before, pending, found + [last])
    {
      assert (found + [last])[..|found|] == found;
    }

    ghost method Extend(before: seq<Event>, pending: Option<int>, found: seq<Found>, more: seq<Found>)
      requires Emitted(before + Events(found, pending), Pending(found, pending), more)
      ensures Emitted(before, pending, found + more)
    {
      EventsCompose(found, more, pending);
      ConcatAssociates(before, Events(found, pending), Events(more, Pending(found, pending)));
    }

    method EmitDataSequence(sequence: string)
      modifies `pendingKittyPrintableCodepoint, `emitted
      ensures emitted == old(emitted) + Event1(old(pendingKittyPrintableCodepoint), Key(sequence))
      ensures pendingKittyPrintableCodepoint == PendingAfter(old(pendingKittyPrintableCodepoint), Key(sequence))
    {
      var rawCodepoint := if |sequence| == 1 then Some(sequence[0] as int) else None;
      if rawCodepoint != None && rawCodepoint == pendingKittyPrintableCodepoint {
        pendingKittyPrintableCodepoint := None;
        return;
      }
      pendingKittyPrintableCodepoint := KittyCodepoint(sequence);
      emitted := emitted + [Data(sequence)];
    }

    method EmitAll(sequences: seq<string>)
      modifies `pendingKittyPrintableCodepoint, `emitted
      ensures Emitted(old(emitted), old(pendingKittyPrintableCodepoint), Keys(sequences))
    {
      for i := 0 to |sequences|
        invariant Emitted(old(emitted), old(pendingKittyPrintableCodepoint), Keys(sequences[..i]))
      {
        TakeNext(sequences, i);
        assert Keys(sequences[..i + 1]) == Keys(sequences[..i]) + [Key(sequences[i])];
        EmitDataSequence(sequences[i]);
        Continue(old(emitted), old(pendingKittyPrintableCodepoint), Keys(sequences[..i]), Key(sequences[i]));
      }
      assert sequences[..|sequences|] == sequences;
    }

    // One chunk of input. What follows a paste in the same chunk is processed like a new chunk.
    method Process(str: string)
      modifies this
      ensures var (after, found) := Chunk(SequenceStatus, old(Current()), str);
        Current() == after && Emitted(old(emitted), old(pendingKittyPrintableCodepoint), found)
      decreases |buffer| + |pasteBuffer| + |str|, 1
    {
      if |str| == 0 && |buffer| == 0 {
        EmitDataSequence("");
        Continue(old(emitted), old(pendingKittyPrintableCodepoint), [], Key(""));
        assert [] + [Key("")] == [Key("")];
        return;
      }
      buffer := buffer + str;
      if pasteMode {
        pasteBuffer := pasteBuffer + buffer;
        buffer := "";
        DeliverPaste();
        return;
      }
      var startIndex := IndexOf(buffer, PASTE_START);
      if startIndex != -1 {
        StartPaste(startIndex);
        return;
      }
      var sequences, remainder := ExtractCompleteSequences(buffer);
      buffer := remainder;
      EmitAll(sequences);
    }

    // The keys before the marker; an unfinished sequence among them is dropped.
    method StartPaste(startIndex: nat)
      requires !pasteMode && IndexOf(buffer, PASTE_START) == startIndex
      modifies this
      ensures var so := Prepend(Keys(Tokens(SequenceStatus, old(buffer)[..startIndex])) + [PasteBegins],
                                Pasting(SequenceStatus, old(buffer)[startIndex + |PASTE_START|..]));
        Current() == so.0 && Emitted(old(emitted), old(pendingKittyPrintableCodepoint), so.1)
      decreases |buffer| + |pasteBuffer|, 0
    {
      hide SequenceStatus, Pasting, Chunk, Whole, Keys, Tokens, IndexOf;
      ghost var keys := Keys(Tokens(SequenceStatus, buffer[..startIndex]));
      EmitBefore(startIndex);
      pendingKittyPrintableCodepoint := None;
      Continue(old(emitted), old(pendingKittyPrintableCodepoint), keys, PasteBegins);
      buffer := buffer[startIndex + |PASTE_START|..];
      pasteMode := true;
      pasteBuffer := buffer;
      buffer := "";
      ghost var found := Pasting(SequenceStatus, pasteBuffer).1;
      DeliverPaste();
      Extend(old(emitted), old(pendingKittyPrintableCodepoint), keys + [PasteBegins], found);
    }

    method EmitBefore(startIndex: nat)
      requires startIndex <= |buffer|
      modifies `pendingKittyPrintableCodepoint, `emitted
      ensures Emitted(old(emitted), old(pendingKittyPrintableCodepoint),
                      Keys(Tokens(SequenceStatus, buffer[..startIndex])))
    {
      if startIndex > 0 {
        var beforePaste := buffer[..startIndex];
        var sequences, remainder := ExtractCompleteSequences(beforePaste);
        EmitAll(sequences);
      }
    }

    method DeliverPaste()
      requires pasteMode && buffer == ""
      modifies this
      ensures var so := Pasting(SequenceStatus, old(pasteBuffer));
        Current() == so.0 && Emitted(old(emitted), old(pendingKittyPrintableCodepoint), so.1)
      decreases |pasteBuffer|, 0
    {
      var endIndex := IndexOf(pasteBuffer, PASTE_END);
      if endIndex != -1 {
        var pastedContent := pasteBuffer[..endIndex];
        var remaining := pasteBuffer[endIndex + |PASTE_END|..];
        EmitPaste(pastedContent);
        ProcessRest(remaining);
        Extend(old(emitted), old(pendingKittyPrintableCodepoint), [PasteEnds(pastedContent)],
               Whole(SequenceStatus, remaining).1);
      }
    }

    method EmitPaste(pastedContent: string)
      modifies this
      ensures Current() == old(Current()).(pasting := false, pasteBuffer := "")
      ensures Emitted(old(emitted), old(pendingKittyPrintableCodepoint), [PasteEnds(pastedContent)])
    {
      pasteMode := false;
      pasteBuffer := "";
      pendingKittyPrintableCodepoint := None;
      emitted := emitted + [Paste(pastedContent)];
      Continue(old(emitted), old(pendingKittyPrintableCodepoint), [], PasteEnds(pastedContent));
      assert [] + [PasteEnds(pastedContent)] == [PasteEnds(pastedContent)];
    }

    method ProcessRest(remaining: string)
      requires Current() == IDLE
      modifies this
      ensures var so := Whole(SequenceStatus, remaining);
        Current() == so.0 && Emitted(old(emitted), old(pendingKittyPrintableCodepoint), so.1)
      decreases |remaining|, 2
    {
      if |remaining| > 0 {
        Process(remaining);
      }
    }

    /** An input cut into chunks in any way. From the start, when its markers stand free, exactly the events of the
        whole input are emitted and exactly its unfinished end is held. In a paste, the first event is the paste, and
        it is exactly the text up to the first end marker. */
    method ProcessAll(chunks: seq<string>)
      modifies this
      ensures var (after, found) := Chunks(SequenceStatus, old(Current()), chunks);
        Current() == after && Emitted(old(emitted), old(pendingKittyPrintableCodepoint), found)
      ensures forall s :: old(Current()) == IDLE && Cuts(chunks, s) && Clean(SequenceStatus, s) ==>
        Current() == Whole(SequenceStatus, s).0
        && Emitted(old(emitted), old(pendingKittyPrintableCodepoint), Whole(SequenceStatus, s).1)
      ensures forall p, s :: old(Current()) == State("", true, p) && IndexOf(p, PASTE_END) == -1 && Cuts(chunks, s) ==>
        var end := IndexOf(p + s, PASTE_END);
        if end == -1 then Current() == State("", true, p + s) && emitted == old(emitted)
        else old(emitted) + [Paste((p + s)[..end])] <= emitted
    {
      for i := 0 to |chunks|
        invariant Current() == Chunks(SequenceStatus, old(Current()), chunks[..i]).0
        invariant Emitted(old(emitted), old(pendingKittyPrintableCodepoint),
                          Chunks(SequenceStatus, old(Current()), chunks[..i]).1)
      {
        TakeNext(chunks, i);
        ghost var found := Chunks(SequenceStatus, old(Current()), chunks[..i]);
        Process(chunks[i]);
        Extend(old(emitted), old(pendingKittyPrintableCodepoint), found.1, Chunk(SequenceStatus, found.0, chunks[i]).1);
      }
      assert chunks[..|chunks|] == chunks;
      forall s | Cuts(chunks, s) && Clean(SequenceStatus, s)
        ensures Chunks(SequenceStatus, IDLE, chunks) == Whole(SequenceStatus, s)
      {
        CutsDoNotMatter(SequenceStatus, chunks, s);
      }
      forall p, s | old(Current()) == State("", true, p) && IndexOf(p, PASTE_END) == -1 && Cuts(chunks, s)
        ensures var end := IndexOf(p + s, PASTE_END);
          if end == -1 then Current() == State("", true, p + s) && emitted == old(emitted)
          else old(emitted) + [Paste((p + s)[..end])] <= emitted
      {
        PasteDelivered(SequenceStatus, p, chunks);
        PasteIsFirst(Resumed(SequenceStatus, p, chunks).1, old(pendingKittyPrintableCodepoint));
      }
    }
  }
}
