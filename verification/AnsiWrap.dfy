/** Wrapping styled text: only a grapheme that is wider itself makes a line wider than allowed, nothing visible is
    lost but spaces at the ends of lines, and every line, read on its own from a clear style, shows its graphemes in
    the style and with the hyperlink they had in the text.

    A text is a sequence of escape sequences and graphemes; the width of a grapheme is given with it, and the
    space is the only white space.
 */
module AnsiWrap {
  import opened Basics
  import opened AnsiScanner
  import opened AnsiTracker

  datatype Item = Code(code: string) | Glyph(text: string, width: nat)
  {
    predicate Space() { Glyph? && text == " " }
    function Width(): nat { if Glyph? then width else 0 }
  }

  type Text = seq<Item>

  // A grapheme in its style.
  datatype Inked = Inked(text: string, width: nat, style: Style)

  type Shown = seq<Inked>

  function Width(items: Text): nat {
    if items == [] then 0 else Width(items[..|items| - 1]) + items[|items| - 1].Width()
  }

  function StyleAfter(items: Text, s: Style): Style {
    if items == [] then s
    else
      var before := StyleAfter(items[..|items| - 1], s);
      if items[|items| - 1].Code? then Process(before, items[|items| - 1].code) else before
  }

  // What a text shows when its first item is met in style s.
  function Ink(items: Text, s: Style): Shown {
    if items == [] then []
    else
      var before, last := items[..|items| - 1], items[|items| - 1];
      Ink(before, s) + if last.Glyph? then [Inked(last.text, last.width, StyleAfter(before, s))] else []
  }

  // What separate lines show, each of them read from a clear style and followed by its gap.
  function Rejoined(lines: seq<Text>, gaps: seq<Shown>): Shown
    requires |lines| == |gaps|
  {
    if lines == [] then []
    else
      var n := |lines| - 1;
      Rejoined(lines[..n], gaps[..n]) + Ink(lines[n], CLEAR) + gaps[n]
  }

  predicate Blank(shown: Shown) { forall i :: 0 <= i < |shown| ==> shown[i].text == " " }

  // The lines show all of it, in order and in style, except for spaces after the end of a line.
  ghost predicate Shows(lines: seq<Text>, shown: Shown) {
    exists gaps: seq<Shown> :: ShowsWith(lines, gaps, shown)
  }

  ghost predicate ShowsWith(lines: seq<Text>, gaps: seq<Shown>, shown: Shown) {
    && |lines| == |gaps| && (forall i :: 0 <= i < |gaps| ==> Blank(gaps[i]))
    && Rejoined(lines, gaps) == shown
  }

  function TrimEnd(items: Text): Text {
    if items != [] && items[|items| - 1].Space() then TrimEnd(items[..|items| - 1]) else items
  }

  function AsItems(codes: seq<string>): Text {
    seq(|codes|, i requires 0 <= i < |codes| => Code(codes[i]))
  }

  // What reopens a style at the start of a line, and what closes it at the end of one.
  function ActiveItems(s: Style): Text { AsItems(SgrCodes(s) + LinkCodes(s)) }

  function LineEndReset(s: Style): (codes: Text)
    ensures forall i :: 0 <= i < |codes| ==> codes[i].Code?
  {
    (if s.underline then [Code("\U{1b}[24m")] else [])
    + (if s.link.Some? then [Code(FormatClose(s.link.value.bel))] else [])
  }

  // Escape sequences are complete, and graphemes have a width; that of the space is one.
  ghost predicate Sound(items: Text) {
    forall i :: 0 <= i < |items| ==>
      match items[i]
      case Code(code) => EndAt(code, 0) == Some(|code|)
      case Glyph(text, w) => 1 <= w && (text == " " ==> w == 1)
  }

  // The width of the widest grapheme.
  function Widest(items: Text): nat {
    if items == [] then 0 else Max(Widest(items[..|items| - 1]), items[|items| - 1].Width())
  }

  // Every grapheme fits on a line of this width.
  ghost predicate WellFormed(items: Text, width: int) {
    Sound(items) && forall i :: 0 <= i < |items| ==> items[i].Width() <= width
  }

  lemma {:induction false} WidestIsWide(items: Text, width: int)
    requires Sound(items) && Widest(items) <= width
    ensures WellFormed(items, width)
  {
    if items != [] {
      WidestIsWide(items[..|items| - 1], width);
    }
  }

  ghost predicate Fits(lines: seq<Text>, width: int) {
    forall i :: 0 <= i < |lines| ==> Width(lines[i]) <= width
  }

  // ---------- How these measures compose ----------

  lemma {:induction false} WidthConcat(a: Text, b: Text)
    ensures Width(a + b) == Width(a) + Width(b)
  {
    if b == [] {
      assert a + b == a;
    } else {
      assert (a + b)[..|a + b| - 1] == a + b[..|b| - 1];
      WidthConcat(a, b[..|b| - 1]);
    }
  }

  lemma {:induction false} StyleConcat(a: Text, b: Text, s: Style)
    ensures StyleAfter(a + b, s) == StyleAfter(b, StyleAfter(a, s))
  {
    if b == [] {
      assert a + b == a;
    } else {
      assert (a + b)[..|a + b| - 1] == a + b[..|b| - 1];
      StyleConcat(a, b[..|b| - 1], s);
    }
  }

  lemma {:induction false} InkConcat(a: Text, b: Text, s: Style)
    ensures Ink(a + b, s) == Ink(a, s) + Ink(b, StyleAfter(a, s))
  {
    if b == [] {
      assert a + b == a;
    } else {
      assert (a + b)[..|a + b| - 1] == a + b[..|b| - 1];
      InkConcat(a, b[..|b| - 1], s);
      StyleConcat(a, b[..|b| - 1], s);
    }
  }

  lemma {:induction false} RejoinedConcat(a: seq<Text>, ga: seq<Shown>, b: seq<Text>, gb: seq<Shown>)
    requires |a| == |ga| && |b| == |gb|
    ensures Rejoined(a + b, ga + gb) == Rejoined(a, ga) + Rejoined(b, gb)
  {
    hide Ink;
    if b == [] {
      assert a + b == a && ga + gb == ga;
    } else {
      var n := |b| - 1;
      assert (a + b)[..|a + b| - 1] == a + b[..n] && (ga + gb)[..|ga + gb| - 1] == ga + gb[..n];
      RejoinedConcat(a, ga, b[..n], gb[..n]);
    }
  }

  // Escape sequences show nothing and take no room.
  lemma {:induction false} CodesOnly(items: Text, s: Style)
    requires forall i :: 0 <= i < |items| ==> items[i].Code?
    ensures Width(items) == 0 && Ink(items, s) == []
  {
    if items != [] {
      CodesOnly(items[..|items| - 1], s);
    }
  }

  predicate AllSpaces(items: Text) { forall i :: 0 <= i < |items| ==> items[i].Space() }

  lemma {:induction false} SpacesOnly(items: Text, s: Style)
    requires AllSpaces(items)
    ensures StyleAfter(items, s) == s && Blank(Ink(items, s)) && TrimEnd(items) == []
  {
    if items != [] {
      SpacesOnly(items[..|items| - 1], s);
    }
  }

  // Trimming takes away a blank end and nothing else.
  lemma {:induction false} TrimKeepsInk(items: Text, s: Style) returns (cut: Shown)
    ensures Blank(cut) && Ink(items, s) == Ink(TrimEnd(items), s) + cut
    ensures StyleAfter(TrimEnd(items), s) == StyleAfter(items, s)
    ensures Width(TrimEnd(items)) <= Width(items)
  {
    if items != [] && items[|items| - 1].Space() {
      var n := |items| - 1;
      cut := TrimKeepsInk(items[..n], s);
      cut := cut + [Inked(items[n].text, items[n].width, StyleAfter(items[..n], s))];
    } else {
      cut := [];
    }
  }

  lemma {:induction false} StyleOfCodes(codes: seq<string>, s: Style)
    ensures StyleAfter(AsItems(codes), s) == ProcessAll(s, codes)
  {
    if codes != [] {
      var before := codes[..|codes| - 1];
      assert AsItems(codes)[..|codes| - 1] == AsItems(before);
      StyleOfCodes(before, s);
      assert before + [codes[|codes| - 1]] == codes;
      ProcessAllConcat(s, before, [codes[|codes| - 1]]);
      ProcessAtMostOne(ProcessAll(s, before), [codes[|codes| - 1]]);
    }
  }

  // A reopened style is the style itself.
  lemma Reopened(s: Style)
    requires Good(s)
    ensures StyleAfter(ActiveItems(s), CLEAR) == s && Width(ActiveItems(s)) == 0 && Ink(ActiveItems(s), CLEAR) == []
  {
    StyleOfCodes(SgrCodes(s) + LinkCodes(s), CLEAR);
    ProcessAllConcat(CLEAR, SgrCodes(s), LinkCodes(s));
    SgrCodesRestore(s);
    LinkCodesRestore(s);
    CodesOnly(ActiveItems(s), CLEAR);
  }

  lemma {:induction false} StyleStaysGood(items: Text, width: int, s: Style)
    requires Good(s) && WellFormed(items, width)
    ensures Good(StyleAfter(items, s))
  {
    if items != [] {
      StyleStaysGood(items[..|items| - 1], width, s);
      var last := items[|items| - 1];
      if last.Code? {
        assert last.code[0..|last.code|] == last.code;
        ProcessKeepsGood(StyleAfter(items[..|items| - 1], s), last.code, 0);
      }
    }
  }

  lemma Snoc(items: Text, item: Item, s: Style)
    ensures Width(items + [item]) == Width(items) + item.Width()
    ensures Ink(items + [item], s)
      == Ink(items, s) + if item.Glyph? then [Inked(item.text, item.width, StyleAfter(items, s))] else []
    ensures StyleAfter(items + [item], s)
         == if item.Code? then Process(StyleAfter(items, s), item.code) else StyleAfter(items, s)
  {
    assert (items + [item])[..|items|] == items;
  }

  lemma ResetShowsNothing(items: Text, s: Style)
    ensures Ink(items + LineEndReset(s), CLEAR) == Ink(items, CLEAR) && Width(items + LineEndReset(s)) == Width(items)
  {
    InkConcat(items, LineEndReset(s), CLEAR);
    WidthConcat(items, LineEndReset(s));
    CodesOnly(LineEndReset(s), StyleAfter(items, CLEAR));
  }

  // ---------- Words ----------

  ghost predicate Visible(items: Text) { exists i :: 0 <= i < |items| && items[i].Glyph? }

  // All the graphemes of a word are spaces, or none is.
  ghost predicate Word(token: Text, space: bool) {
    && Visible(token)
    && (forall i :: 0 <= i < |token| && token[i].Glyph? ==> token[i].Space() == space)
  }

  ghost predicate Words(tokens: seq<Text>) {
    && (forall k :: 0 <= k < |tokens| ==> Word(tokens[k], true) || Word(tokens[k], false))
    && (forall k :: 0 < k < |tokens| ==> (Word(tokens[k], true) <==> Word(tokens[k - 1], false)))
  }

  lemma WordGrows(token: Text, codes: Text, glyph: Item)
    requires token == [] || Word(token, glyph.Space())
    requires (forall i :: 0 <= i < |codes| ==> codes[i].Code?) && glyph.Glyph?
    ensures Word(token + codes + [glyph], glyph.Space())
  {
    assert (token + codes + [glyph])[|token| + |codes|] == glyph;
  }

  // Words so far, the word being read, and the escape sequences that go with the next grapheme.
  ghost predicate Splitting(tokens: seq<Text>, current: Text, pending: Text, space: bool, consumed: Text) {
    && Flatten(tokens) + current + pending == consumed
    && (forall j :: 0 <= j < |pending| ==> pending[j].Code?)
    && Words(tokens)
    && (current == [] ==> tokens == [])
    && (current != [] ==> Word(current, space))
    && (current != [] && tokens != [] ==> Word(tokens[|tokens| - 1], !space))
  }

  lemma WordConcat(a: Text, b: Text, c: Text, d: Text)
    ensures a + (b + c + d) + [] == a + b + c + d
    ensures a + (b + c) + [] == a + b + c
  {
    assert a + (b + c) == a + b + c;
    var bc := b + c;
    assert a + (bc + d) == a + bc + d;
  }

  lemma GlyphJoins(tokens: seq<Text>, current: Text, pending: Text, item: Item, consumed: Text)
    requires Flatten(tokens) + current + pending == consumed && Words(tokens) && item.Glyph?
    requires forall j :: 0 <= j < |pending| ==> pending[j].Code?
    requires current == [] || Word(current, item.Space())
    requires tokens != [] ==> Word(tokens[|tokens| - 1], !item.Space())
    ensures Splitting(tokens, current + pending + [item], [], item.Space(), consumed + [item])
  {
    WordGrows(current, pending, item);
    WordConcat(Flatten(tokens), current, pending, [item]);
  }

  lemma CodesJoin(tokens: seq<Text>, current: Text, pending: Text, space: bool, consumed: Text)
    requires Splitting(tokens, current, pending, space, consumed) && current != []
    ensures Splitting(tokens, current + pending, [], space, consumed)
  {
    var i :| 0 <= i < |current| && current[i].Glyph?;
    assert (current + pending)[i].Glyph?;
    WordConcat(Flatten(tokens), current, pending, []);
  }

  lemma CodePends(tokens: seq<Text>, current: Text, pending: Text, space: bool, consumed: Text, item: Item)
    requires Splitting(tokens, current, pending, space, consumed) && item.Code?
    ensures Splitting(tokens, current, pending + [item], space, consumed + [item])
  {
    assert Flatten(tokens) + current + (pending + [item]) == Flatten(tokens) + current + pending + [item];
  }

  lemma LastWord(tokens: seq<Text>, current: Text, pending: Text, space: bool, consumed: Text)
    requires Splitting(tokens, current, pending, space, consumed) && current != []
    ensures Words(tokens + [current])
  {
    assert Word(current, true) <==> space;
  }

  method PushToken(tokens: seq<Text>, current: Text, ghost pending: Text, ghost space: bool, ghost consumed: Text)
      returns (longer: seq<Text>)
    requires Splitting(tokens, current, pending, space, consumed) && current != []
    ensures longer == tokens + [current] && Words(longer) && Word(current, space)
      && Flatten(longer) + pending == consumed
  {
    longer := tokens + [current];
    FlattenSnoc(tokens, current);
    LastWord(tokens, current, pending, space, consumed);
  }

  // A grapheme of the other kind ends the word being read.
  method ReadGlyph(tokens: seq<Text>, current: Text, pending: Text, inWhitespace: bool, item: Item,
                   ghost consumed: Text)
      returns (tokens': seq<Text>, current': Text)
    requires Splitting(tokens, current, pending, inWhitespace, consumed) && item.Glyph?
    ensures current' != [] && Splitting(tokens', current', [], item.Space(), consumed + [item])
  {
    tokens', current' := tokens, current;
    if item.Space() != inWhitespace && current != [] {
      tokens' := PushToken(tokens, current, pending, inWhitespace, consumed);
      current' := [];
    }
    GlyphJoins(tokens', current', pending, item, consumed);
    current' := current' + pending;
    current' := current' + [item];
  }

  // Runs of spaces and runs of other graphemes; an escape sequence goes with the grapheme after it, or with the last
  // one. Without graphemes everything is one token.
  method SplitIntoTokens(items: Text) returns (tokens: seq<Text>)
    ensures Flatten(tokens) == items
    ensures if Visible(items) then Words(tokens) else tokens == if items == [] then [] else [items]
  {
    tokens := [];
    var current: Text, pending: Text := [], [];
    var inWhitespace := false;
    for i := 0 to |items|
      invariant Splitting(tokens, current, pending, inWhitespace, items[..i])
      invariant current == [] <==> forall j :: 0 <= j < i ==> items[j].Code?
    {
      var item := items[i];
      TakeNext(items, i);
      if item.Code? {
        CodePends(tokens, current, pending, inWhitespace, items[..i], item);
        pending := pending + [item];
      } else {
        tokens, current := ReadGlyph(tokens, current, pending, inWhitespace, item, items[..i]);
        pending := [];
        inWhitespace := item.Space();
      }
    }
    assert items[..|items|] == items;
    if current != [] {
      CodesJoin(tokens, current, pending, inWhitespace, items);
      LastWord(tokens, current + pending, [], inWhitespace, items);
    } else {
      assert [] + [] + pending == pending;
    }
    current := current + pending;
    if current != [] {
      FlattenSnoc(tokens, current);
      tokens := tokens + [current];
    }
  }

  // ---------- Where lines may break ----------

  predicate Sp(x: Inked) { x.text == " " }

  function InkWidth(shown: Shown): nat {
    if shown == [] then 0 else InkWidth(shown[..|shown| - 1]) + shown[|shown| - 1].width
  }

  // All of it is spaces, or none of it.
  predicate OneKind(shown: Shown, space: bool) { forall i :: 0 <= i < |shown| ==> Sp(shown[i]) == space }

  // How many graphemes from the start on are spaces, or are not.
  function RunLength(shown: Shown, space: bool): (n: nat)
    ensures n <= |shown| && OneKind(shown[..n], space) && (n < |shown| ==> Sp(shown[n]) != space)
  {
    if shown == [] || Sp(shown[0]) != space then 0 else 1 + RunLength(shown[1..], space)
  }

  // Between two words, or at an end.
  predicate Boundary(shown: Shown, p: nat)
    requires p <= |shown|
  {
    p == 0 || p == |shown| || Sp(shown[p - 1]) != Sp(shown[p])
  }

  // The word, or the spaces, that begin at p.
  function NextRun(shown: Shown, p: nat): (end: nat)
    requires p <= |shown|
    ensures p <= end <= |shown|
  {
    if p == |shown| then p else p + RunLength(shown[p..], Sp(shown[p]))
  }

  // A part of one word that is wider than a line, with both places in it.
  ghost predicate LongRun(shown: Shown, q: nat, p: nat, width: int) {
    exists a: nat, b: nat :: LongRunAt(shown, q, p, width, a, b)
  }

  predicate LongRunAt(shown: Shown, q: nat, p: nat, width: int, a: nat, b: nat) {
    a <= q <= p < b <= |shown| && OneKind(shown[a..b], Sp(shown[p])) && InkWidth(shown[a..b]) > width
  }

  // A line from q on may break at p: with the next word it would be too wide; or the word itself is, and the line is
  // full.
  ghost predicate BreaksAt(shown: Shown, q: nat, p: nat, width: int) {
    && q <= p <= |shown|
    && if Boundary(shown, p) then InkWidth(shown[q..NextRun(shown, p)]) > width
       else InkWidth(shown[q..p + 1]) > width && LongRun(shown, q, p, width)
  }

  // Where line i begins in what the lines show.
  function StartOf(lines: seq<Text>, gaps: seq<Shown>, i: nat): nat
    requires |lines| == |gaps| && i <= |lines|
  {
    |Rejoined(lines[..i], gaps[..i])|
  }

  // All breaks up to the start of line n are needed.
  ghost predicate Tight(lines: seq<Text>, gaps: seq<Shown>, shown: Shown, n: nat, width: int)
    requires |lines| == |gaps| && n <= |lines|
  {
    forall i :: 0 < i <= n ==> TightAt(lines, gaps, shown, i, width)
  }

  ghost predicate TightAt(lines: seq<Text>, gaps: seq<Shown>, shown: Shown, i: nat, width: int)
    requires |lines| == |gaps| && 0 < i <= |lines|
  {
    BreaksAt(shown, StartOf(lines, gaps, i - 1), StartOf(lines, gaps, i), width)
  }

  /** The lines show the text, but for spaces after their ends. Every break between them is needed, and every line but
      the last ends without underlining and without a link. */
  ghost predicate WrapsWith(lines: seq<Text>, gaps: seq<Shown>, shown: Shown, width: int) {
    && lines != [] && ShowsWith(lines, gaps, shown)
    && Tight(lines, gaps, shown, |lines| - 1, width) && AllClosed(lines[..|lines| - 1])
  }

  // What the line shows begins with a space.
  predicate Leads(line: Text) { Ink(line, CLEAR) != [] && Sp(Ink(line, CLEAR)[0]) }

  // No line but the first begins with a space.
  ghost predicate NoneLeads(lines: seq<Text>) { forall i :: 0 < i < |lines| ==> !Leads(lines[i]) }

  predicate Trimmed(line: Text) { line == [] || !line[|line| - 1].Space() }

  ghost predicate AllTrimmed(lines: seq<Text>) { forall i :: 0 <= i < |lines| ==> Trimmed(lines[i]) }

  // No escape sequence next to a space; with one among them, spaces are taken for a word.
  ghost predicate PlainSpaces(items: Text) {
    forall i :: 0 < i < |items| ==>
      !(items[i].Space() && items[i - 1].Code?) && !(items[i].Code? && items[i - 1].Space())
  }

  lemma SpacesOfPlain(token: Text)
    requires Word(token, true) && PlainSpaces(token)
    ensures AllSpaces(token)
  {
    var g :| 0 <= g < |token| && token[g].Glyph?;
    for k := g + 1 to |token|
      invariant forall m :: g <= m < k ==> token[m].Space()
    {
      assert token[k - 1].Space() ==> !token[k].Code?;
    }
    for k := g downto 0
      invariant forall m :: k <= m < |token| ==> token[m].Space()
    {
      assert token[k + 1].Space() ==> !token[k].Code?;
    }
  }

  // Of a line that begins with no space, what shows the beginning of the same does not either.
  lemma LeadStays(line: Text, other: Text, cut: Shown)
    requires Ink(line, CLEAR) == Ink(other, CLEAR) + cut
    ensures Leads(other) ==> Leads(line)
  {
  }

  lemma {:induction false} WordNeverLeads(lines: seq<Text>, i: nat)
    requires i < |lines| && OneKind(Rejoined(lines, NoGaps(|lines|)), false)
    ensures !Leads(lines[i])
  {
    var n := |lines| - 1;
    assert NoGaps(|lines|)[..n] == NoGaps(n);
    var before := Rejoined(lines[..n], NoGaps(n));
    var all := Rejoined(lines, NoGaps(|lines|));
    assert all == before + Ink(lines[n], CLEAR);
    if i < n {
      assert forall k :: 0 <= k < |before| ==> before[k] == all[k];
      WordNeverLeads(lines[..n], i);
    } else if Ink(lines[n], CLEAR) != [] {
      assert all[|before|] == Ink(lines[n], CLEAR)[0];
    }
  }

  // Where the first lines begin does not depend on those behind them.
  lemma StartsStay(lines: seq<Text>, gaps: seq<Shown>, more: seq<Text>, moreGaps: seq<Shown>, i: nat)
    requires |lines| == |gaps| && |more| == |moreGaps| && i <= |lines|
    ensures StartOf(lines + more, gaps + moreGaps, i) == StartOf(lines, gaps, i)
  {
    CutConcat(lines, more, i);
    CutConcat(gaps, moreGaps, i);
  }

  lemma StartOfLast(lines: seq<Text>, gaps: seq<Shown>)
    requires |lines| == |gaps|
    ensures StartOf(lines, gaps, |lines|) == |Rejoined(lines, gaps)|
  {
    assert lines[..|lines|] == lines && gaps[..|gaps|] == gaps;
  }

  lemma StartBehind(lines: seq<Text>, gaps: seq<Shown>, more: seq<Text>, moreGaps: seq<Shown>, k: nat)
    requires |lines| == |gaps| && |more| == |moreGaps| && k <= |more|
    ensures StartOf(lines + more, gaps + moreGaps, |lines| + k) == |Rejoined(lines, gaps)| + StartOf(more, moreGaps, k)
  {
    hide Rejoined, Ink;
    TakeBehind(lines, more, k);
    TakeBehind(gaps, moreGaps, k);
    RejoinedConcat(lines, gaps, more[..k], moreGaps[..k]);
    assert |gaps| + k == |lines| + k;
  }

  lemma TightStays(lines: seq<Text>, gaps: seq<Shown>, shown: Shown, more: Shown, width: int)
    requires |lines| == |gaps| && Tight(lines, gaps, shown, |lines|, width)
    requires shown != [] && more != [] ==> Sp(shown[|shown| - 1]) != Sp(more[0])
    ensures Tight(lines, gaps, shown + more, |lines|, width)
  {
    hide BreaksAt, StartOf;
    forall i | 0 < i <= |lines| ensures TightAt(lines, gaps, shown + more, i, width) {
      assert TightAt(lines, gaps, shown, i, width);
      BreaksStay(shown, more, StartOf(lines, gaps, i - 1), StartOf(lines, gaps, i), width);
    }
  }

  lemma TightWith(lines: seq<Text>, gaps: seq<Shown>, more: seq<Text>, moreGaps: seq<Shown>, shown: Shown, width: int)
    requires |lines| == |gaps| && |more| == |moreGaps| && Tight(lines, gaps, shown, |lines|, width)
    ensures Tight(lines + more, gaps + moreGaps, shown, |lines|, width)
  {
    hide BreaksAt, StartOf;
    forall i | 0 < i <= |lines| ensures TightAt(lines + more, gaps + moreGaps, shown, i, width) {
      assert TightAt(lines, gaps, shown, i, width);
      StartsStay(lines, gaps, more, moreGaps, i - 1);
      StartsStay(lines, gaps, more, moreGaps, i);
    }
  }

  // One more line, and a break behind it.
  lemma TightNext(lines: seq<Text>, gaps: seq<Shown>, line: Text, gap: Shown, shown: Shown, width: int)
    requires |lines| == |gaps| && Tight(lines, gaps, shown, |lines|, width)
    requires var q := |Rejoined(lines, gaps)|; BreaksAt(shown, q, q + |Ink(line, CLEAR)| + |gap|, width)
    ensures Tight(lines + [line], gaps + [gap], shown, |lines| + 1, width)
  {
    TightWith(lines, gaps, [line], [gap], shown, width);
    LineAdded(lines, gaps, line, gap);
    StartOfLast(lines, gaps);
    StartOfLast(lines + [line], gaps + [gap]);
    StartsStay(lines, gaps, [line], [gap], |lines|);
    hide BreaksAt, StartOf, Rejoined, Ink;
    assert TightAt(lines + [line], gaps + [gap], shown, |lines| + 1, width);
  }

  predicate OtherKind(shown: Shown, space: bool) { shown != [] ==> Sp(shown[|shown| - 1]) != space }

  lemma {:induction false} WholeRun(ink: Shown, space: bool)
    requires OneKind(ink, space)
    ensures RunLength(ink, space) == |ink|
  {
    if ink != [] {
      WholeRun(ink[1..], space);
    }
  }

  lemma NextWord(shown: Shown, ink: Shown, space: bool)
    requires ink != [] && OneKind(ink, space) && OtherKind(shown, space)
    ensures Boundary(shown + ink, |shown|) && NextRun(shown + ink, |shown|) == |shown + ink|
  {
    assert (shown + ink)[|shown|..] == ink;
    WholeRun(ink, space);
  }

  // A break before a word with which the line would be too wide.
  lemma BreaksBeforeWord(shown: Shown, ink: Shown, q: nat, space: bool, width: int)
    requires q <= |shown| && ink != [] && OneKind(ink, space) && OtherKind(shown, space)
    requires InkWidth(shown[q..]) + InkWidth(ink) > width
    ensures BreaksAt(shown + ink, q, |shown|, width)
  {
    hide InkWidth, NextRun, Boundary, LongRun;
    var all := shown + ink;
    NextWord(shown, ink, space);
    InkWidthConcat(shown[q..], ink);
    assert all[q..|all|] == shown[q..] + ink;
  }

  // A break behind spaces that do not fit any more.
  lemma BreaksAtEnd(shown: Shown, q: nat, width: int)
    requires q <= |shown| && InkWidth(shown[q..]) > width
    ensures BreaksAt(shown, q, |shown|, width)
  {
    assert shown[q..|shown|] == shown[q..];
  }

  // The breaks inside a word that is too wide itself.
  lemma LongWordTight(lines: seq<Text>, gaps: seq<Shown>, broken: seq<Text>, shown: Shown, ink: Shown, space: bool,
                      width: int)
    requires |lines| == |gaps| && |Rejoined(lines, gaps)| == |shown| && Tight(lines, gaps, shown + ink, |lines|, width)
    requires ink != [] && OneKind(ink, space) && OtherKind(shown, space) && InkWidth(ink) > width
    requires Full(broken, ink, width)
    ensures Tight(lines + broken, gaps + NoGaps(|broken|), shown + ink, |lines + broken|, width)
  {
    hide BreaksAt, StartOf, InkWidth, Rejoined;
    var all, n := shown + ink, |broken|;
    TightWith(lines, gaps, broken, NoGaps(n), all, width);
    forall i | 0 < i <= |lines + broken| ensures TightAt(lines + broken, gaps + NoGaps(n), all, i, width) {
      if i > |lines| {
        var k := i - |lines|;
        StartBehind(lines, gaps, broken, NoGaps(n), k - 1);
        StartBehind(lines, gaps, broken, NoGaps(n), k);
        assert FullAt(broken, ink, k, width);
        BreaksInside(shown, ink, StartOf(broken, NoGaps(n), k - 1), StartOf(broken, NoGaps(n), k), space, width);
      } else {
        assert TightAt(lines + broken, gaps + NoGaps(n), all, i, width);
      }
    }
  }

  lemma BreaksInside(shown: Shown, ink: Shown, q: nat, p: nat, space: bool, width: int)
    requires q <= p < |ink| && OneKind(ink, space) && OtherKind(shown, space)
    requires InkWidth(ink) > width && InkWidth(ink[q..p + 1]) > width
    ensures BreaksAt(shown + ink, |shown| + q, |shown| + p, width)
  {
    hide InkWidth, NextRun, BreaksAt;
    if p == 0 {
      assert shown[|shown|..] == [];
      assert InkWidth([]) == 0 by { NoInk(); }
      BreaksBeforeWord(shown, ink, |shown|, space, width);
    } else {
      BreaksWithin(shown, ink, q, p, width);
    }
  }

  lemma NoInk()
    ensures InkWidth([]) == 0
  {
  }

  lemma BreaksInRun(shown: Shown, q: nat, p: nat, width: int, a: nat, b: nat)
    requires LongRunAt(shown, q, p, width, a, b) && !Boundary(shown, p) && InkWidth(shown[q..p + 1]) > width
    ensures BreaksAt(shown, q, p, width)
  {
    hide InkWidth, NextRun, OneKind, Boundary, Sp;
  }

  lemma SameWord(shown: Shown, ink: Shown, p: nat)
    requires 0 < p < |ink| && Sp(ink[p - 1]) == Sp(ink[p])
    ensures (shown + ink)[|shown| + p] == ink[p] && !Boundary(shown + ink, |shown| + p)
  {
    assert (shown + ink)[|shown| + p - 1] == ink[p - 1];
  }

  lemma BreaksWithin(shown: Shown, ink: Shown, q: nat, p: nat, width: int)
    requires q <= p < |ink| && p > 0 && OneKind(ink, Sp(ink[p])) && Sp(ink[p - 1]) == Sp(ink[p])
    requires InkWidth(ink) > width && InkWidth(ink[q..p + 1]) > width
    ensures BreaksAt(shown + ink, |shown| + q, |shown| + p, width)
  {
    hide InkWidth, NextRun, OneKind, BreaksAt, Boundary, Sp;
    var all, b := shown + ink, |shown|;
    SameWord(shown, ink, p);
    SliceBehind(shown, ink, q, p + 1);
    SliceBehind(shown, ink, 0, |ink|);
    assert ink[0..|ink|] == ink;
    BreaksInRun(all, b + q, b + p, width, b, |all|);
  }

  lemma {:induction false} InkWidthConcat(a: Shown, b: Shown)
    ensures InkWidth(a + b) == InkWidth(a) + InkWidth(b)
  {
    if b == [] {
      assert a + b == a;
    } else {
      assert (a + b)[..|a + b| - 1] == a + b[..|b| - 1];
      InkWidthConcat(a, b[..|b| - 1]);
    }
  }

  lemma {:induction false} InkHasWidth(items: Text, s: Style)
    ensures InkWidth(Ink(items, s)) == Width(items)
  {
    if items != [] {
      var n := |items| - 1;
      InkHasWidth(items[..n], s);
      if items[n].Glyph? {
        var x := Inked(items[n].text, items[n].width, StyleAfter(items[..n], s));
        InkWidthConcat(Ink(items[..n], s), [x]);
        assert [x][..0] == [];
      } else {
        assert Ink(items, s) == Ink(items[..n], s);
      }
    }
  }

  lemma {:induction false} InkOfWord(token: Text, s: Style, space: bool)
    requires Word(token, space)
    ensures Ink(token, s) != [] && OneKind(Ink(token, s), space)
  {
    var n := |token| - 1;
    var before := token[..n];
    hide StyleAfter, Process;
    if Visible(before) {
      assert Word(before, space);
      InkOfWord(before, s, space);
    } else {
      assert forall i :: 0 <= i < n ==> before[i].Code?;
      CodesOnly(before, s);
    }
  }

  lemma WiderSlice(shown: Shown, q: nat, e: nat, f: nat)
    requires q <= e <= f <= |shown|
    ensures InkWidth(shown[q..e]) <= InkWidth(shown[q..f])
  {
    assert shown[q..e] + shown[e..f] == shown[q..f];
    InkWidthConcat(shown[q..e], shown[e..f]);
  }

  lemma {:induction false} RunGrows(shown: Shown, more: Shown, space: bool)
    ensures RunLength(shown, space) <= RunLength(shown + more, space)
  {
    if shown != [] && Sp(shown[0]) == space {
      assert (shown + more)[1..] == shown[1..] + more;
      RunGrows(shown[1..], more, space);
    }
  }

  lemma RunBreakStays(shown: Shown, more: Shown, q: nat, p: nat, width: int)
    requires q <= p <= |shown| && LongRun(shown, q, p, width)
    ensures LongRun(shown + more, q, p, width)
  {
    var all := shown + more;
    var a: nat, b: nat :| LongRunAt(shown, q, p, width, a, b);
    assert all[a..b] == shown[a..b];
    assert LongRunAt(all, q, p, width, a, b);
  }

  lemma NextRunGrows(shown: Shown, more: Shown, p: nat)
    requires p <= |shown|
    ensures NextRun(shown, p) <= NextRun(shown + more, p)
  {
    if p < |shown| {
      assert (shown + more)[p..] == shown[p..] + more;
      RunGrows(shown[p..], more, Sp(shown[p]));
    }
  }

  // What is shown further on makes no break unnecessary, as long as it does not go on with the word before a last
  // break.
  lemma BreaksStay(shown: Shown, more: Shown, q: nat, p: nat, width: int)
    requires BreaksAt(shown, q, p, width)
    requires shown != [] && more != [] ==> Sp(shown[|shown| - 1]) != Sp(more[0])
    ensures BreaksAt(shown + more, q, p, width)
  {
    hide LongRun, InkWidth, NextRun;
    var all := shown + more;
    if Boundary(shown, p) {
      var e := NextRun(shown, p);
      NextRunGrows(shown, more, p);
      WiderSlice(all, q, e, NextRun(all, p));
      assert all[q..e] == shown[q..e];
    } else {
      assert all[q..p + 1] == shown[q..p + 1];
      RunBreakStays(shown, more, q, p, width);
    }
  }

  // ---------- One line ----------

  method UpdateTrackerFromText(items: Text, tracker: AnsiCodeTracker)
    modifies tracker
    ensures tracker.style == StyleAfter(items, old(tracker.style))
  {
    for i := 0 to |items|
      invariant tracker.style == StyleAfter(items[..i], old(tracker.style))
    {
      TakeNext(items, i);
      Snoc(items[..i], items[i], old(tracker.style));
      if items[i].Code? {
        tracker.ProcessCode(items[i].code);
      }
    }
    assert items[..|items|] == items;
  }

  function NoGaps(n: nat): seq<Shown> { seq(n, i => []) }

  // At its end nothing is underlined and no link is open.
  predicate Closed(line: Text) { var end := StyleAfter(line, CLEAR); !end.underline && end.link == None }

  ghost predicate AllClosed(lines: seq<Text>) { forall i :: 0 <= i < |lines| ==> Closed(lines[i]) }

  // The reset ends underlining and link, and leaves everything else as it is.
  lemma ResetCloses(line: Text, now: Style)
    requires now == StyleAfter(line, CLEAR)
    ensures StyleAfter(line + LineEndReset(now), CLEAR) == now.(underline := false, link := None)
  {
    StyleConcat(line, LineEndReset(now), CLEAR);
    ResetSeen(now);
  }

  lemma ResetSeen(now: Style)
    ensures StyleAfter(LineEndReset(now), now) == now.(underline := false, link := None)
  {
    var underlineEnd := if now.underline then [Code("\U{1b}[24m")] else [];
    var linkEnd := if now.link.Some? then [Code(FormatClose(now.link.value.bel))] else [];
    StyleConcat(underlineEnd, linkEnd, now);
    UnderlineOff(now);
    var between := now.(underline := false);
    if now.underline {
      assert underlineEnd[..0] == [];
    }
    if now.link.Some? {
      LinkOff(between, now.link.value.bel);
      assert linkEnd[..0] == [];
    }
  }

  lemma UnderlineOff(s: Style)
    ensures Process(s, "\U{1b}[24m") == s.(underline := false)
  {
    hide Process, SgrParams, ParseOsc8;
    assert "\U{1b}[" + "24" + "m" == "\U{1b}[24m";
    SgrCodeReadBack(s, "24", "");
    SplitDigits("24");
    assert Value("24") == 24 by { assert "24"[..1] == "2" && "2"[..0] == ""; }
    assert ["24"][1..] == [];
    assert ApplyParts(s, ["24"]) == Standard(s, 24);
  }

  // A line being filled, after the finished lines of a text begun in style s.
  ghost predicate Filling(lines: seq<Text>, line: Text, consumed: Text, s: Style, now: Style, width: int) {
    && now == StyleAfter(consumed, s) == StyleAfter(line, CLEAR) && Good(now)
    && Rejoined(lines, NoGaps(|lines|)) + Ink(line, CLEAR) == Ink(consumed, s)
    && Fits(lines, width) && AllClosed(lines)
  }

  lemma FillingStarts(s: Style, width: int)
    requires Good(s)
    requires 0 <= width
    ensures Breaking([], ActiveItems(s), 0, [], s, s, width)
  {
    Reopened(s);
  }

  lemma CodeKeepsGood(now: Style, item: Item, width: int)
    requires Good(now) && item.Code? && WellFormed([item], width)
    ensures Good(Process(now, item.code))
  {
    assert [item][0] == item;
    assert item.code[0..|item.code|] == item.code;
    ProcessKeepsGood(now, item.code, 0);
  }

  lemma FillingGrows(lines: seq<Text>, line: Text, consumed: Text, s: Style, now: Style, width: int, item: Item)
    requires Filling(lines, line, consumed, s, now, width) && WellFormed([item], width)
    ensures Filling(lines, line + [item], consumed + [item], s,
                    if item.Code? then Process(now, item.code) else now, width)
  {
    hide Process, Ink, StyleAfter, Rejoined, Good, WellFormed;
    Snoc(line, item, CLEAR);
    Snoc(consumed, item, s);
    if item.Code? {
      CodeKeepsGood(now, item, width);
      assert Ink(line + [item], CLEAR) == Ink(line, CLEAR) && Ink(consumed + [item], s) == Ink(consumed, s);
    } else {
      ConcatAssociates(Rejoined(lines, NoGaps(|lines|)), Ink(line, CLEAR), [Inked(item.text, item.width, now)]);
    }
  }

  lemma FillingBreaks(lines: seq<Text>, line: Text, consumed: Text, s: Style, now: Style, width: int)
    requires Filling(lines, line, consumed, s, now, width) && Width(line) <= width
    ensures Filling(lines + [line + LineEndReset(now)], ActiveItems(now), consumed, s, now, width)
  {
    hide Ink, StyleAfter, LineEndReset, ActiveItems, Good, Width, Rejoined;
    ResetShowsNothing(line, now);
    ResetCloses(line, now);
    Reopened(now);
    LineAdded(lines, NoGaps(|lines|), line + LineEndReset(now), []);
    assert NoGaps(|lines|) + [[]] == NoGaps(|lines| + 1);
    assert Rejoined(lines, NoGaps(|lines|)) + Ink(line, CLEAR) + [] + [] == Ink(consumed, s);
  }

  lemma LineAdded(lines: seq<Text>, gaps: seq<Shown>, line: Text, gap: Shown)
    requires |lines| == |gaps|
    ensures Rejoined(lines + [line], gaps + [gap]) == Rejoined(lines, gaps) + Ink(line, CLEAR) + gap
  {
    var n := |lines|;
    assert (lines + [line])[..n] == lines && (gaps + [gap])[..n] == gaps;
  }

  ghost predicate Breaking(lines: seq<Text>, line: Text, lineWidth: int, word: Text, s: Style, now: Style, width: int) {
    && Filling(lines, line, word, s, now, width)
    && 0 <= lineWidth == Width(line) <= width
    && (Width(word) > 0 ==> lineWidth > 0)
  }

  // Every line of a long word is full: the next grapheme would reach over the edge.
  ghost predicate Full(lines: seq<Text>, ink: Shown, width: int) {
    forall i :: 0 < i <= |lines| ==> FullAt(lines, ink, i, width)
  }

  predicate FullAt(lines: seq<Text>, ink: Shown, i: nat, width: int)
    requires 0 < i <= |lines|
  {
    var q, p := StartOf(lines, NoGaps(|lines|), i - 1), StartOf(lines, NoGaps(|lines|), i);
    q <= p < |ink| && InkWidth(ink[q..p + 1]) > width
  }

  lemma FullStays(lines: seq<Text>, ink: Shown, more: Shown, width: int)
    requires Full(lines, ink, width)
    ensures Full(lines, ink + more, width)
  {
    hide StartOf, InkWidth;
    forall i | 0 < i <= |lines| ensures FullAt(lines, ink + more, i, width) {
      assert FullAt(lines, ink, i, width);
      var q, p := StartOf(lines, NoGaps(|lines|), i - 1), StartOf(lines, NoGaps(|lines|), i);
      assert (ink + more)[q..p + 1] == ink[q..p + 1];
    }
  }

  lemma FullBreaks(lines: seq<Text>, line: Text, consumed: Text, s: Style, now: Style, limit: int, item: Item,
                   width: int)
    requires Filling(lines, line, consumed, s, now, limit) && Full(lines, Ink(consumed, s), width)
    requires item.Glyph? && Width(line) + item.width > width
    ensures Full(lines + [line + LineEndReset(now)], Ink(consumed + [item], s), width)
  {
    hide Ink, StyleAfter, Rejoined, LineEndReset, Good, Closed, Full, Width;
    var glyph := Inked(item.text, item.width, StyleAfter(consumed, s));
    Snoc(consumed, item, s);
    ResetShowsNothing(line, now);
    InkHasWidth(line, CLEAR);
    InkWidthConcat(Ink(line, CLEAR), [glyph]);
    assert [glyph][..0] == [];
    FullNext(lines, line + LineEndReset(now), Ink(consumed, s), glyph, width);
  }

  lemma NextStart(lines: seq<Text>, closed: Text)
    ensures var n, longer := |lines|, lines + [closed];
      && StartOf(longer, NoGaps(n + 1), n + 1) == |Rejoined(lines, NoGaps(n))| + |Ink(closed, CLEAR)|
      && StartOf(longer, NoGaps(n + 1), n) == |Rejoined(lines, NoGaps(n))|
      && forall i :: 0 <= i <= n ==> StartOf(longer, NoGaps(n + 1), i) == StartOf(lines, NoGaps(n), i)
  {
    var n := |lines|;
    assert NoGaps(n) + [[]] == NoGaps(n + 1);
    LineAdded(lines, NoGaps(n), closed, []);
    StartOfLast(lines, NoGaps(n));
    StartOfLast(lines + [closed], NoGaps(n + 1));
    hide Ink, Rejoined, StartOf;
    forall i | 0 <= i <= n ensures StartOf(lines + [closed], NoGaps(n + 1), i) == StartOf(lines, NoGaps(n), i) {
      StartsStay(lines, NoGaps(n), [closed], [[]], i);
    }
  }

  lemma FullNext(lines: seq<Text>, closed: Text, ink: Shown, glyph: Inked, width: int)
    requires Full(lines, ink, width) && Rejoined(lines, NoGaps(|lines|)) + Ink(closed, CLEAR) == ink
    requires InkWidth(Ink(closed, CLEAR) + [glyph]) > width
    ensures Full(lines + [closed], ink + [glyph], width)
  {
    hide Ink, InkWidth, Rejoined, StartOf;
    var n := |lines|;
    NextStart(lines, closed);
    FullStays(lines, ink, [glyph], width);
    var q := |Rejoined(lines, NoGaps(n))|;
    assert (ink + [glyph])[q..|ink| + 1] == Ink(closed, CLEAR) + [glyph];
    forall i | 0 < i <= n + 1 ensures FullAt(lines + [closed], ink + [glyph], i, width) {
      if i <= n {
        assert FullAt(lines, ink + [glyph], i, width);
      }
    }
  }

  // A grapheme of a long word goes on the current line if there is room, and on a new one if there is not.
  method AddGrapheme(lines: seq<Text>, currentLine: Text, currentWidth: int, item: Item, width: int,
                     tracker: AnsiCodeTracker, ghost consumed: Text, ghost s: Style, ghost limit: int)
      returns (lines': seq<Text>, currentLine': Text, currentWidth': int)
    requires item.Glyph? && WellFormed([item], limit) && width <= limit
    requires Breaking(lines, currentLine, currentWidth, consumed, s, tracker.style, limit)
    requires Full(lines, Ink(consumed, s), width)
    ensures Full(lines', Ink(consumed + [item], s), width)
    ensures Breaking(lines', currentLine', currentWidth', consumed + [item], s, tracker.style, limit)
  {
    hide Process, Ink, StyleAfter, SgrCodes, LinkCodes, Full;
    lines', currentLine', currentWidth' := lines, currentLine, currentWidth;
    if currentWidth + item.width > width {
      FullBreaks(lines, currentLine, consumed, s, tracker.style, limit, item, width);
      FillingBreaks(lines, currentLine, consumed, s, tracker.style, limit);
      Reopened(tracker.style);
      currentLine' := currentLine' + LineEndReset(tracker.style);
      lines' := lines' + [currentLine'];
      currentLine' := ActiveItems(tracker.style);
      currentWidth' := 0;
    }
    if lines' == lines {
      Snoc(consumed, item, s);
      FullStays(lines, Ink(consumed, s), [Inked(item.text, item.width, StyleAfter(consumed, s))], width);
    }
    Snoc(currentLine', item, CLEAR);
    FillingGrows(lines', currentLine', consumed, s, tracker.style, limit, item);
    currentLine' := currentLine' + [item];
    currentWidth' := currentWidth' + item.width;
  }

  method AddCode(currentLine: Text, item: Item, ghost limit: int, tracker: AnsiCodeTracker,
                 ghost lines: seq<Text>, ghost lineWidth: int, ghost consumed: Text, ghost s: Style)
      returns (currentLine': Text)
    requires item.Code? && WellFormed([item], limit)
    requires Breaking(lines, currentLine, lineWidth, consumed, s, tracker.style, limit)
    modifies tracker
    ensures Breaking(lines, currentLine', lineWidth, consumed + [item], s, tracker.style, limit)
  {
    Snoc(consumed, item, s);
    Snoc(currentLine, item, CLEAR);
    FillingGrows(lines, currentLine, consumed, s, tracker.style, limit, item);
    currentLine' := currentLine + [item];
    tracker.ProcessCode(item.code);
  }

  ghost predicate Broken(lines: seq<Text>, word: Text, s: Style, now: Style, width: int) {
    && lines != []
    && var n := |lines| - 1;
       0 < Width(lines[n]) <= width && Filling(lines[..n], lines[n], word, s, now, width)
  }

  lemma LastLineEnds(lines: seq<Text>, line: Text, lineWidth: int, word: Text, s: Style, now: Style, width: int)
    requires Breaking(lines, line, lineWidth, word, s, now, width) && Width(word) > 0
    ensures line != [] && Broken(lines + [line], word, s, now, width)
  {
    assert (lines + [line])[..|lines|] == lines;
  }

  // A word wider than a line, broken between any two graphemes.
  method BreakLongWord(word: Text, width: int, tracker: AnsiCodeTracker, ghost limit: int) returns (lines: seq<Text>)
    requires WellFormed(word, limit) && Good(tracker.style) && Width(word) > width >= 1 && width <= limit
    modifies tracker
    ensures Broken(lines, word, old(tracker.style), tracker.style, limit)
    ensures Full(lines[..|lines| - 1], Ink(word, old(tracker.style)), width)
  {
    ghost var s := tracker.style;
    lines := [];
    var currentLine := ActiveItems(tracker.style);
    var currentWidth := 0;
    FillingStarts(s, limit);
    assert word[..0] == [];
    for i := 0 to |word|
      invariant Breaking(lines, currentLine, currentWidth, word[..i], s, tracker.style, limit)
      invariant Full(lines, Ink(word[..i], s), width)
    {
      var item := word[i];
      TakeNext(word, i);
      assert WellFormed([item], limit);
      if item.Code? {
        Snoc(word[..i], item, s);
        assert Ink(word[..i], s) + [] == Ink(word[..i], s);
        currentLine := AddCode(currentLine, item, limit, tracker, lines, currentWidth, word[..i], s);
      } else {
        lines, currentLine, currentWidth :=
          AddGrapheme(lines, currentLine, currentWidth, item, width, tracker, word[..i], s, limit);
      }
    }
    assert word[..|word|] == word;
    LastLineEnds(lines, currentLine, currentWidth, word, s, tracker.style, limit);
    assert (lines + [currentLine])[..|lines|] == lines;
    if currentLine != [] {
      lines := lines + [currentLine];
    }
  }

  ghost predicate TrimFits(lines: seq<Text>, width: int) {
    forall i :: 0 <= i < |lines| ==> Width(TrimEnd(lines[i])) <= width
  }

  // Finished lines and a line being filled, after `consumed`. Lines are trimmed only at the very end.
  ghost predicate Wrapping(lines: seq<Text>, gaps: seq<Shown>, line: Text, consumed: Text, now: Style, width: int) {
    && |lines| == |gaps| && (forall i :: 0 <= i < |gaps| ==> Blank(gaps[i]))
    && now == StyleAfter(consumed, CLEAR) == StyleAfter(line, CLEAR) && Good(now)
    && Rejoined(lines, gaps) + Ink(line, CLEAR) == Ink(consumed, CLEAR)
    && TrimFits(lines, width) && AllClosed(lines)
  }

  // Finished lines only.
  ghost predicate Settled(lines: seq<Text>, gaps: seq<Shown>, consumed: Text, now: Style, width: int) {
    && |lines| == |gaps| && (forall i :: 0 <= i < |gaps| ==> Blank(gaps[i]))
    && now == StyleAfter(consumed, CLEAR) && Good(now)
    && Rejoined(lines, gaps) == Ink(consumed, CLEAR)
    && TrimFits(lines, width) && AllClosed(lines)
  }

  // Only spaces at the very start of a text can be wider than a line.
  ghost predicate LineFits(line: Text, width: int) { Width(line) <= width || AllSpaces(line) }

  lemma TrimmedEndFits(line: Text, now: Style, width: int)
    requires LineFits(line, width) && now == StyleAfter(line, CLEAR) && 0 <= width
    ensures Width(TrimEnd(line + LineEndReset(now))) <= width
    ensures Width(TrimEnd(TrimEnd(line) + LineEndReset(now))) <= width
  {
    var trimmed := TrimEnd(line);
    var _ := TrimKeepsInk(line, CLEAR);
    if Width(line) <= width {
      ResetShowsNothing(line, now);
      ResetShowsNothing(trimmed, now);
      var _ := TrimKeepsInk(line + LineEndReset(now), CLEAR);
      var _ := TrimKeepsInk(trimmed + LineEndReset(now), CLEAR);
    } else {
      SpacesOnly(line, CLEAR);
      assert LineEndReset(now) == [];
      assert line + [] == line && trimmed + [] == trimmed;
    }
  }

  lemma CloseLine(lines: seq<Text>, gaps: seq<Shown>, line: Text, consumed: Text, now: Style, width: int)
    requires Wrapping(lines, gaps, line, consumed, now, width) && LineFits(line, width) && 0 <= width
    ensures Settled(lines + [line + LineEndReset(now)], gaps + [[]], consumed, now, width)
  {
    TrimmedEndFits(line, now, width);
    ResetShowsNothing(line, now);
    ResetCloses(line, now);
    LineAdded(lines, gaps, line + LineEndReset(now), []);
  }

  // The spaces cut from the end of the line and those that would start the next one fall into the gap.
  lemma CloseTrimmed(lines: seq<Text>, gaps: seq<Shown>, line: Text, dropped: Text, consumed: Text, now: Style,
                     width: int)
      returns (gap: Shown)
    requires Wrapping(lines, gaps, line, consumed, now, width) && LineFits(line, width) && 0 <= width
    requires AllSpaces(dropped)
    ensures Settled(lines + [TrimEnd(line) + LineEndReset(now)], gaps + [gap], consumed + dropped, now, width)
    ensures Ink(TrimEnd(line) + LineEndReset(now), CLEAR) + gap == Ink(line, CLEAR) + Ink(dropped, now)
  {
    hide Ink, StyleAfter, Rejoined, LineEndReset, Good, Width, TrimEnd, AllSpaces, LineFits;
    TrimmedEndFits(line, now, width);
    var cut := TrimKeepsInk(line, CLEAR);
    ResetShowsNothing(TrimEnd(line), now);
    ResetCloses(TrimEnd(line), now);
    SpacesOnly(dropped, now);
    InkConcat(consumed, dropped, CLEAR);
    StyleConcat(consumed, dropped, CLEAR);
    gap := cut + Ink(dropped, now);
    LineAdded(lines, gaps, TrimEnd(line) + LineEndReset(now), gap);
    Regrouped(Rejoined(lines, gaps), Ink(TrimEnd(line), CLEAR), cut, Ink(dropped, now));
  }

  lemma Regrouped(a: Shown, b: Shown, c: Shown, d: Shown)
    ensures a + b + (c + d) == a + (b + c) + d
  {
  }

  lemma Restart(lines: seq<Text>, gaps: seq<Shown>, consumed: Text, now: Style, width: int)
    requires Settled(lines, gaps, consumed, now, width)
    ensures Wrapping(lines, gaps, ActiveItems(now), consumed, now, width) && Width(ActiveItems(now)) == 0
  {
    Reopened(now);
  }

  lemma TokenAppended(lines: seq<Text>, gaps: seq<Shown>, line: Text, token: Text, consumed: Text, now: Style,
                      width: int)
    requires Wrapping(lines, gaps, line, consumed, now, width) && WellFormed(token, width)
    ensures Wrapping(lines, gaps, line + token, consumed + token, StyleAfter(token, now), width)
    ensures Width(line + token) == Width(line) + Width(token)
  {
    hide Process, Ink, StyleAfter;
    InkConcat(line, token, CLEAR);
    StyleConcat(line, token, CLEAR);
    InkConcat(consumed, token, CLEAR);
    StyleConcat(consumed, token, CLEAR);
    WidthConcat(line, token);
    StyleStaysGood(token, width, now);
  }

  lemma BrokenAppended(lines: seq<Text>, gaps: seq<Shown>, broken: seq<Text>, token: Text, consumed: Text,
                       now: Style, after: Style, width: int)
    requires Settled(lines, gaps, consumed, now, width) && Broken(broken, token, now, after, width)
    ensures var n := |broken| - 1;
      Wrapping(lines + broken[..n], gaps + NoGaps(n), broken[n], consumed + token, after, width)
  {
    hide Process, Ink, StyleAfter;
    var n := |broken| - 1;
    RejoinedConcat(lines, gaps, broken[..n], NoGaps(n));
    InkConcat(consumed, token, CLEAR);
    StyleConcat(consumed, token, CLEAR);
    forall i | 0 <= i < n ensures Width(TrimEnd(broken[i])) <= width {
      assert broken[..n][i] == broken[i];
      var _ := TrimKeepsInk(broken[i], CLEAR);
    }
  }

  lemma {:induction false} WordWidth(token: Text, width: int, space: bool)
    requires Word(token, space) && WellFormed(token, width)
    ensures Width(token) > 0 && token != []
  {
    var n := |token| - 1;
    if !token[n].Glyph? {
      assert Word(token[..n], space);
      WordWidth(token[..n], width, space);
    }
  }

  // After a word: the line is at most full, and it is only empty when spaces have just been dropped.
  ghost predicate AfterWord(line: Text, lineWidth: int, token: Text, width: int) {
    && lineWidth == Width(line) && LineFits(line, width)
    && (lineWidth == 0 ==> Word(token, true))
  }

  // All breaks so far are needed by what has been consumed.
  ghost predicate Needed(lines: seq<Text>, gaps: seq<Shown>, consumed: Text, width: int) {
    |lines| == |gaps| && Tight(lines, gaps, Ink(consumed, CLEAR), |lines|, width)
  }

  lemma NeededStays(lines: seq<Text>, gaps: seq<Shown>, consumed: Text, token: Text, space: bool, width: int)
    requires Needed(lines, gaps, consumed, width)
    requires Word(token, space) && OtherKind(Ink(consumed, CLEAR), space)
    ensures Needed(lines, gaps, consumed + token, width)
  {
    InkOfWord(token, StyleAfter(consumed, CLEAR), space);
    InkConcat(consumed, token, CLEAR);
    TightStays(lines, gaps, Ink(consumed, CLEAR), Ink(token, StyleAfter(consumed, CLEAR)), width);
  }

  // What a word adds.
  lemma WordInk(consumed: Text, token: Text, now: Style, space: bool)
    requires Word(token, space) && now == StyleAfter(consumed, CLEAR)
    ensures Ink(consumed + token, CLEAR) == Ink(consumed, CLEAR) + Ink(token, now)
    ensures Ink(token, now) != [] && OneKind(Ink(token, now), space) && InkWidth(Ink(token, now)) == Width(token)
  {
    InkOfWord(token, now, space);
    InkConcat(consumed, token, CLEAR);
    InkHasWidth(token, now);
  }

  // A break before a word: the line is finished with what shows the same.
  lemma NeededBeforeWord(lines: seq<Text>, gaps: seq<Shown>, line: Text, finished: Text, gap: Shown, consumed: Text,
                         token: Text, now: Style, space: bool, width: int)
    requires Needed(lines, gaps, consumed, width) && Rejoined(lines, gaps) + Ink(line, CLEAR) == Ink(consumed, CLEAR)
    requires Ink(finished, CLEAR) + gap == Ink(line, CLEAR) && now == StyleAfter(consumed, CLEAR)
    requires Word(token, space) && OtherKind(Ink(consumed, CLEAR), space) && Width(line) + Width(token) > width
    ensures Needed(lines + [finished], gaps + [gap], consumed + token, width)
  {
    hide Ink, InkWidth, Rejoined, Tight, OneKind, OtherKind, StyleAfter, Width, Word;
    WordInk(consumed, token, now, space);
    InkHasWidth(line, CLEAR);
    TightBefore(lines, gaps, finished, gap, Ink(consumed, CLEAR), Ink(token, now), space, width);
  }

  lemma KindsDiffer(shown: Shown, ink: Shown, space: bool)
    requires ink != [] && OneKind(ink, space) && OtherKind(shown, space)
    ensures shown != [] ==> Sp(shown[|shown| - 1]) != Sp(ink[0])
  {
  }

  lemma TightBefore(lines: seq<Text>, gaps: seq<Shown>, finished: Text, gap: Shown, shown: Shown, ink: Shown,
                    space: bool, width: int)
    requires |lines| == |gaps| && Tight(lines, gaps, shown, |lines|, width)
    requires Rejoined(lines, gaps) + (Ink(finished, CLEAR) + gap) == shown
    requires ink != [] && OneKind(ink, space) && OtherKind(shown, space)
    requires InkWidth(Ink(finished, CLEAR) + gap) + InkWidth(ink) > width
    ensures Tight(lines + [finished], gaps + [gap], shown + ink, |lines| + 1, width)
  {
    hide Ink, InkWidth, Rejoined, Tight, BreaksAt, OneKind, OtherKind, Sp;
    KindsDiffer(shown, ink, space);
    var q := |Rejoined(lines, gaps)|;
    assert shown[q..] == Ink(finished, CLEAR) + gap;
    TightStays(lines, gaps, shown, ink, width);
    BreaksBeforeWord(shown, ink, q, space, width);
    TightNext(lines, gaps, finished, gap, shown + ink, width);
  }

  // A break behind spaces that are dropped.
  lemma NeededBehindSpaces(lines: seq<Text>, gaps: seq<Shown>, line: Text, finished: Text, gap: Shown, consumed: Text,
                           spaces: Text, now: Style, width: int)
    requires Needed(lines, gaps, consumed, width) && Rejoined(lines, gaps) + Ink(line, CLEAR) == Ink(consumed, CLEAR)
    requires Ink(finished, CLEAR) + gap == Ink(line, CLEAR) + Ink(spaces, now) && now == StyleAfter(consumed, CLEAR)
    requires Word(spaces, true) && OtherKind(Ink(consumed, CLEAR), true) && Width(line) + Width(spaces) > width
    ensures Needed(lines + [finished], gaps + [gap], consumed + spaces, width)
  {
    hide Ink, InkWidth, Rejoined, Tight, OneKind, OtherKind, StyleAfter, Width, Word;
    WordInk(consumed, spaces, now, true);
    InkHasWidth(line, CLEAR);
    InkWidthConcat(Ink(line, CLEAR), Ink(spaces, now));
    ConcatAssociates(Rejoined(lines, gaps), Ink(line, CLEAR), Ink(spaces, now));
    assert Needed(lines, gaps, consumed + spaces, width) by { NeededStays(lines, gaps, consumed, spaces, true, width); }
    TightBehind(lines, gaps, finished, gap, Ink(consumed, CLEAR) + Ink(spaces, now), width);
  }

  lemma TightBehind(lines: seq<Text>, gaps: seq<Shown>, finished: Text, gap: Shown, shown: Shown, width: int)
    requires |lines| == |gaps| && Tight(lines, gaps, shown, |lines|, width)
    requires Rejoined(lines, gaps) + (Ink(finished, CLEAR) + gap) == shown
    requires InkWidth(Ink(finished, CLEAR) + gap) > width
    ensures Tight(lines + [finished], gaps + [gap], shown, |lines| + 1, width)
  {
    hide Ink, InkWidth, Rejoined, Tight, BreaksAt;
    var q := |Rejoined(lines, gaps)|;
    assert shown[q..] == Ink(finished, CLEAR) + gap;
    BreaksAtEnd(shown, q, width);
    TightNext(lines, gaps, finished, gap, shown, width);
  }

  // The breaks inside a long word.
  lemma NeededInWord(lines: seq<Text>, gaps: seq<Shown>, broken: seq<Text>, consumed: Text, token: Text, now: Style,
                     space: bool, width: int)
    requires Needed(lines, gaps, consumed + token, width) && Rejoined(lines, gaps) == Ink(consumed, CLEAR)
    requires now == StyleAfter(consumed, CLEAR) && Full(broken, Ink(token, now), width)
    requires Word(token, space) && OtherKind(Ink(consumed, CLEAR), space) && Width(token) > width
    ensures Needed(lines + broken, gaps + NoGaps(|broken|), consumed + token, width)
  {
    InkConcat(consumed, token, CLEAR);
    InkOfWord(token, now, space);
    InkHasWidth(token, now);
    LongWordTight(lines, gaps, broken, Ink(consumed, CLEAR), Ink(token, now), space, width);
  }

  lemma NothingOnLine(lines: seq<Text>, gaps: seq<Shown>, consumed: Text, now: Style, limit: int)
    requires Wrapping(lines, gaps, [], consumed, now, limit)
    ensures Settled(lines, gaps, consumed, now, limit)
  {
    assert Rejoined(lines, gaps) + [] == Rejoined(lines, gaps);
  }

  lemma BrokenShows(broken: seq<Text>, token: Text, now: Style, after: Style, limit: int)
    requires Broken(broken, token, now, after, limit)
    ensures Rejoined(broken, NoGaps(|broken|)) == Ink(token, now)
  {
    var n := |broken| - 1;
    hide Ink, Rejoined, StyleAfter, Good, Fits, AllClosed;
    LineAdded(broken[..n], NoGaps(n), broken[n], []);
    assert broken[..n] + [broken[n]] == broken;
    assert NoGaps(n) + [[]] == NoGaps(n + 1);
    assert Ink(token, now) + [] == Ink(token, now);
  }

  lemma LinesAddedLead(wrapped: seq<Text>, line: Text, settled: seq<Text>, closed: Text, broken: seq<Text>)
    requires NoneLeads(wrapped + [line]) && (settled == wrapped || settled == wrapped + [closed])
    requires (Leads(closed) ==> Leads(line)) && forall i :: 0 <= i < |broken| ==> !Leads(broken[i])
    ensures NoneLeads(settled + broken)
  {
    hide Leads;
    var all, longer := wrapped + [line], settled + broken;
    forall i | 0 < i < |longer| ensures !Leads(longer[i]) {
      if i < |settled| {
        assert !Leads(all[i]);
      }
    }
  }

  // The lines of a long word begin with what is in it.
  lemma LongWordLeads(wrapped: seq<Text>, line: Text, settled: seq<Text>, broken: seq<Text>, token: Text, now: Style,
                      after: Style, space: bool, limit: int)
    requires Broken(broken, token, now, after, limit) && Word(token, space)
    requires settled == wrapped || settled == wrapped + [line + LineEndReset(now)]
    ensures !space && NoneLeads(wrapped + [line]) ==>
      NoneLeads(settled + broken[..|broken| - 1] + [broken[|broken| - 1]])
  {
    var n := |broken| - 1;
    assert settled + broken[..n] + [broken[n]] == settled + broken;
    BrokenShows(broken, token, now, after, limit);
    hide Ink, LineEndReset, Broken, Rejoined, StyleAfter, NoneLeads, Word;
    if !space && NoneLeads(wrapped + [line]) {
      InkOfWord(token, now, false);
      ResetShowsNothing(line, now);
      forall i | 0 <= i < |broken| ensures !Leads(broken[i]) {
        WordNeverLeads(broken, i);
      }
      LinesAddedLead(wrapped, line, settled, line + LineEndReset(now), broken);
    }
  }

  method WrapLongWord(wrapped: seq<Text>, currentLine: Text, token: Text, width: int, tracker: AnsiCodeTracker,
                      ghost gaps: seq<Shown>, ghost consumed: Text, ghost space: bool, ghost limit: int)
      returns (wrapped': seq<Text>, currentLine': Text, visible': int, ghost gaps': seq<Shown>)
    requires Wrapping(wrapped, gaps, currentLine, consumed, tracker.style, limit) && LineFits(currentLine, limit)
    requires WellFormed(token, limit) && Width(token) > width >= 1 && width <= limit
    requires Word(token, space) && OtherKind(Ink(consumed, CLEAR), space) && Needed(wrapped, gaps, consumed, width)
    modifies tracker
    ensures !space && NoneLeads(wrapped + [currentLine]) ==> NoneLeads(wrapped' + [currentLine'])
    ensures Needed(wrapped', gaps', consumed + token, width)
    ensures Wrapping(wrapped', gaps', currentLine', consumed + token, tracker.style, limit)
    ensures AfterWord(currentLine', visible', token, limit)
  {
    ghost var now := tracker.style;
    hide Needed, Full, OtherKind, Word, Ink, StyleAfter, Rejoined, NoneLeads;
    wrapped', currentLine', gaps' := wrapped, currentLine, gaps;
    if currentLine' != [] {
      CloseLine(wrapped, gaps, currentLine, consumed, now, limit);
      ResetShowsNothing(currentLine, now);
      assert Ink(currentLine, CLEAR) + [] == Ink(currentLine, CLEAR);
      NeededBeforeWord(wrapped, gaps, currentLine, currentLine + LineEndReset(now), [], consumed, token, now, space,
                       width);
      currentLine' := currentLine' + LineEndReset(tracker.style);
      wrapped' := wrapped' + [currentLine'];
      gaps' := gaps' + [[]];
    } else {
      NothingOnLine(wrapped, gaps, consumed, now, limit);
      NeededStays(wrapped, gaps, consumed, token, space, width);
    }
    var broken := BreakLongWord(token, width, tracker, limit);
    LongWordLeads(wrapped, currentLine, wrapped', broken, token, now, tracker.style, space, limit);
    BrokenAppended(wrapped', gaps', broken, token, consumed, now, tracker.style, limit);
    NeededInWord(wrapped', gaps', broken[..|broken| - 1], consumed, token, now, space, width);
    wrapped' := wrapped' + broken[..|broken| - 1];
    gaps' := gaps' + NoGaps(|broken| - 1);
    currentLine' := broken[|broken| - 1];
    visible' := Width(currentLine');
  }

  method WrapOntoNextLine(wrapped: seq<Text>, currentLine: Text, token: Text, isWhitespace: bool, width: int,
                          tracker: AnsiCodeTracker, ghost gaps: seq<Shown>, ghost consumed: Text, ghost space: bool,
                          ghost limit: int)
      returns (wrapped': seq<Text>, currentLine': Text, visible': int, ghost gaps': seq<Shown>)
    requires Wrapping(wrapped, gaps, currentLine, consumed, tracker.style, limit) && LineFits(currentLine, limit)
    requires WellFormed(token, limit) && Word(token, space) && limit >= 1
    requires OtherKind(Ink(consumed, CLEAR), space) && Needed(wrapped, gaps, consumed, width)
    requires Width(currentLine) + Width(token) > width
    requires if isWhitespace then AllSpaces(token) else Width(token) <= limit
    modifies tracker
    ensures (space ==> isWhitespace) && NoneLeads(wrapped + [currentLine]) ==> NoneLeads(wrapped' + [currentLine'])
    ensures Needed(wrapped', gaps', consumed + token, width)
    ensures Wrapping(wrapped', gaps', currentLine', consumed + token, tracker.style, limit)
    ensures AfterWord(currentLine', visible', token, limit)
  {
    hide Needed, OtherKind;
    var now := tracker.style;
    ghost var dropped := if isWhitespace then token else [];
    ghost var gap := CloseTrimmed(wrapped, gaps, currentLine, dropped, consumed, now, limit);
    var lineToWrap := TrimEnd(currentLine);
    lineToWrap := lineToWrap + LineEndReset(tracker.style);
    wrapped' := wrapped + [lineToWrap];
    gaps' := gaps + [gap];
    assert consumed + [] == consumed;
    Restart(wrapped', gaps', consumed + dropped, now, limit);
    if isWhitespace {
      currentLine' := ActiveItems(tracker.style);
      visible' := 0;
      SpacesOnly(token, now);
      assert Word(token, true) && space;
      NeededBehindSpaces(wrapped, gaps, currentLine, lineToWrap, gap, consumed, token, now, width);
    } else {
      assert Ink(currentLine, CLEAR) + Ink([], now) == Ink(currentLine, CLEAR);
      NeededBeforeWord(wrapped, gaps, currentLine, lineToWrap, gap, consumed, token, now, space, width);
      currentLine' := ActiveItems(tracker.style) + token;
      visible' := Width(token);
      TokenAppended(wrapped', gaps', ActiveItems(now), token, consumed, now, limit);
      WordWidth(token, limit, space);
    }
    NextLineLeads(wrapped, currentLine, gap, consumed, now, token, isWhitespace, space);
    UpdateTrackerFromText(token, tracker);
  }

  lemma TokenLeads(now: Style, token: Text, space: bool)
    requires Good(now) && Word(token, space)
    ensures !Leads(ActiveItems(now)) && (!space ==> !Leads(ActiveItems(now) + token))
  {
    Reopened(now);
    InkConcat(ActiveItems(now), token, CLEAR);
    InkOfWord(token, now, space);
  }

  lemma NextLineLeads(wrapped: seq<Text>, line: Text, gap: Shown, consumed: Text, now: Style, token: Text,
                      isWhitespace: bool, space: bool)
    requires Good(now) && Word(token, space)
    ensures (space ==> isWhitespace) && NoneLeads(wrapped + [line]) ==>
      NoneLeads(wrapped + [TrimEnd(line) + LineEndReset(now)]
                + [if isWhitespace then ActiveItems(now) else ActiveItems(now) + token])
  {
    var cut := TrimKeepsInk(line, CLEAR);
    ResetShowsNothing(TrimEnd(line), now);
    LeadStays(line, TrimEnd(line) + LineEndReset(now), cut);
    TokenLeads(now, token, space);
    var all, longer := wrapped + [line], wrapped + [TrimEnd(line) + LineEndReset(now)];
    hide Leads, TrimEnd, LineEndReset, ActiveItems;
    if NoneLeads(all) {
      forall i | 0 < i < |longer| ensures !Leads(longer[i]) {
        assert !Leads(all[i]);
      }
    }
  }

  lemma AppendedLeads(wrapped: seq<Text>, line: Text, token: Text, space: bool)
    requires Word(token, space) && (Width(line) == 0 && space ==> wrapped == [])
    ensures NoneLeads(wrapped + [line]) ==> NoneLeads(wrapped + [line + token])
  {
    InkConcat(line, token, CLEAR);
    InkOfWord(token, StyleAfter(line, CLEAR), space);
    InkHasWidth(line, CLEAR);
    assert wrapped != [] && Leads(line + token) ==> Leads(line);
    hide Leads, Width, Word, InkWidth;
    var all, longer := wrapped + [line], wrapped + [line + token];
    if NoneLeads(all) {
      forall i | 0 < i < |longer| ensures !Leads(longer[i]) {
        assert !Leads(all[i]);
      }
    }
  }

  // One word of the line. Spaces never follow dropped spaces, so they start a line only at the very start.
  method WrapToken(wrapped: seq<Text>, currentLine: Text, visible: int, token: Text, width: int,
                   tracker: AnsiCodeTracker, ghost gaps: seq<Shown>, ghost consumed: Text, ghost space: bool,
                   ghost limit: int)
      returns (wrapped': seq<Text>, currentLine': Text, visible': int, ghost gaps': seq<Shown>)
    requires Wrapping(wrapped, gaps, currentLine, consumed, tracker.style, limit)
    requires visible == Width(currentLine) && LineFits(currentLine, limit)
    requires WellFormed(token, limit) && Word(token, space) && 1 <= width <= limit
    requires visible == 0 && Word(token, true) ==> currentLine == [] && wrapped == []
    requires OtherKind(Ink(consumed, CLEAR), space) && Needed(wrapped, gaps, consumed, width)
    modifies tracker
    ensures (space ==> AllSpaces(token)) && NoneLeads(wrapped + [currentLine]) ==>
      NoneLeads(wrapped' + [currentLine'])
    ensures Needed(wrapped', gaps', consumed + token, width)
    ensures Wrapping(wrapped', gaps', currentLine', consumed + token, tracker.style, limit)
    ensures AfterWord(currentLine', visible', token, limit)
  {
    var tokenVisibleLength := Width(token);
    var isWhitespace := AllSpaces(token);
    if tokenVisibleLength > width && !isWhitespace {
      wrapped', currentLine', visible', gaps' :=
        WrapLongWord(wrapped, currentLine, token, width, tracker, gaps, consumed, space, limit);
      return;
    }
    var totalNeeded := visible + tokenVisibleLength;
    if totalNeeded > width && visible > 0 {
      wrapped', currentLine', visible', gaps' :=
        WrapOntoNextLine(wrapped, currentLine, token, isWhitespace, width, tracker, gaps, consumed, space,
                         limit);
    } else {
      NeededStays(wrapped, gaps, consumed, token, space, width);
      AppendedLeads(wrapped, currentLine, token, space);
      TokenAppended(wrapped, gaps, currentLine, token, consumed, tracker.style, limit);
      WordWidth(token, limit, space);
      wrapped', gaps' := wrapped, gaps;
      currentLine' := currentLine + token;
      visible' := visible + tokenVisibleLength;
      if visible' > limit {
        assert Word(token, true);
        assert currentLine' == token;
      }
      UpdateTrackerFromText(token, tracker);
    }
  }

  lemma {:induction false} WordsOfLine(tokens: seq<Text>, k: nat, width: int)
    requires k < |tokens| && WellFormed(Flatten(tokens), width)
    ensures WellFormed(tokens[k], width)
  {
    var n := |tokens| - 1;
    var before, last := Flatten(tokens[..n]), tokens[n];
    assert forall i :: 0 <= i < |last| ==> last[i] == Flatten(tokens)[|before| + i];
    assert forall i :: 0 <= i < |before| ==> before[i] == Flatten(tokens)[i];
    if k < n {
      WordsOfLine(tokens[..n], k, width);
    }
  }

  lemma {:induction false} PlainOfLine(tokens: seq<Text>, k: nat)
    requires k < |tokens| && PlainSpaces(Flatten(tokens))
    ensures PlainSpaces(tokens[k])
  {
    var n := |tokens| - 1;
    var all, before, last := Flatten(tokens), Flatten(tokens[..n]), tokens[n];
    if k < n {
      assert forall i :: 0 <= i < |before| ==> before[i] == all[i];
      PlainOfLine(tokens[..n], k);
    } else {
      assert forall i :: 0 <= i < |last| ==> last[i] == all[|before| + i];
      forall i | 0 < i < |last|
        ensures !(last[i].Space() && last[i - 1].Code?) && !(last[i].Code? && last[i - 1].Space())
      {
        assert last[i - 1] == all[|before| + i - 1];
      }
    }
  }

  lemma StartsNext(lines: seq<Text>, gaps: seq<Shown>, line: Text, gap: Shown, wrapped: seq<Text>, wide: seq<Shown>,
                   i: nat)
    requires |lines| == |gaps| == i < |wrapped| == |wide|
    requires Rejoined(lines + [line], gaps + [gap]) == Rejoined(wrapped[..i + 1], wide[..i + 1])
    requires forall j :: 0 <= j <= i ==> StartOf(lines, gaps, j) == StartOf(wrapped, wide, j)
    ensures forall j :: 0 <= j <= i + 1 ==> StartOf(lines + [line], gaps + [gap], j) == StartOf(wrapped, wide, j)
  {
    StartOfLast(lines + [line], gaps + [gap]);
    hide Rejoined;
    assert StartOf(wrapped, wide, i + 1) == |Rejoined(wrapped[..i + 1], wide[..i + 1])|;
    hide StartOf;
    forall j | 0 <= j <= i ensures StartOf(lines + [line], gaps + [gap], j) == StartOf(wrapped, wide, j) {
      StartsStay(lines, gaps, [line], [gap], j);
    }
  }

  lemma {:induction false} EndTrimmed(line: Text)
    ensures Trimmed(TrimEnd(line))
  {
    if line != [] {
      EndTrimmed(line[..|line| - 1]);
    }
  }

  // The first lines trimmed: they show what they did, break where they did, and end and begin as cleanly.
  ghost predicate Trimming(lines: seq<Text>, gaps': seq<Shown>, wrapped: seq<Text>, gaps: seq<Shown>, limit: int) {
    && |lines| == |gaps'| <= |wrapped| == |gaps| && Fits(lines, limit) && AllTrimmed(lines)
    && ShowsWith(lines, gaps', Rejoined(wrapped[..|lines|], gaps[..|lines|]))
    && (forall j :: 0 <= j <= |lines| ==> StartOf(lines, gaps', j) == StartOf(wrapped, gaps, j))
    && (forall j :: 0 <= j < |lines| && Closed(wrapped[j]) ==> Closed(lines[j]))
    && (forall j :: 0 <= j < |lines| && Leads(lines[j]) ==> Leads(wrapped[j]))
  }

  lemma TrimShows(lines: seq<Text>, gaps': seq<Shown>, shown: Shown, line: Text, gap: Shown, cut: Shown)
    requires ShowsWith(lines, gaps', shown) && Blank(gap) && Blank(cut)
    requires Ink(line, CLEAR) == Ink(TrimEnd(line), CLEAR) + cut
    ensures ShowsWith(lines + [TrimEnd(line)], gaps' + [cut + gap], shown + Ink(line, CLEAR) + gap)
  {
    hide Ink, TrimEnd, Rejoined;
    LineAdded(lines, gaps', TrimEnd(line), cut + gap);
    Regrouped(shown, Ink(TrimEnd(line), CLEAR), cut, gap);
  }

  lemma TrimNext(lines: seq<Text>, gaps': seq<Shown>, wrapped: seq<Text>, gaps: seq<Shown>, limit: int)
      returns (gap: Shown)
    requires Trimming(lines, gaps', wrapped, gaps, limit) && |lines| < |wrapped|
    requires Blank(gaps[|lines|]) && Width(TrimEnd(wrapped[|lines|])) <= limit
    ensures Trimming(lines + [TrimEnd(wrapped[|lines|])], gaps' + [gap], wrapped, gaps, limit)
  {
    var i := |lines|;
    var line := wrapped[i];
    hide Ink, TrimEnd, Rejoined, StartOf, Width, StyleAfter, ShowsWith, Leads, Trimmed;
    var cut := TrimKeepsInk(line, CLEAR);
    gap := cut + gaps[i];
    LeadStays(line, TrimEnd(line), cut);
    EndTrimmed(line);
    TakeNext(wrapped, i);
    TakeNext(gaps, i);
    LineAdded(wrapped[..i], gaps[..i], line, gaps[i]);
    TrimShows(lines, gaps', Rejoined(wrapped[..i], gaps[..i]), line, gaps[i], cut);
    TrimRejoins(lines + [TrimEnd(line)], gaps' + [gap], Rejoined(wrapped[..i + 1], gaps[..i + 1]));
    StartsNext(lines, gaps', TrimEnd(line), gap, wrapped, gaps, i);
    TrimStep(lines, gaps', wrapped, gaps, limit, TrimEnd(line), gap);
  }

  lemma TrimStep(lines: seq<Text>, gaps': seq<Shown>, wrapped: seq<Text>, gaps: seq<Shown>, limit: int, line: Text,
                 gap: Shown)
    requires Trimming(lines, gaps', wrapped, gaps, limit) && |lines| < |wrapped|
    requires Width(line) <= limit && Trimmed(line) && (Closed(wrapped[|lines|]) ==> Closed(line))
    requires Leads(line) ==> Leads(wrapped[|lines|])
    requires ShowsWith(lines + [line], gaps' + [gap], Rejoined(wrapped[..|lines| + 1], gaps[..|lines| + 1]))
    requires forall j :: 0 <= j <= |lines| + 1 ==>
      StartOf(lines + [line], gaps' + [gap], j) == StartOf(wrapped, gaps, j)
    ensures Trimming(lines + [line], gaps' + [gap], wrapped, gaps, limit)
  {
    hide Rejoined, StartOf, Width, Closed, Leads, Trimmed, ShowsWith, StyleAfter;
    var longer := lines + [line];
    assert longer[|lines|] == line && forall j :: 0 <= j < |lines| ==> longer[j] == lines[j];
  }

  lemma TrimRejoins(lines: seq<Text>, gaps: seq<Shown>, shown: Shown)
    requires ShowsWith(lines, gaps, shown)
    ensures Rejoined(lines, gaps) == shown
  {
  }

  // Trailing spaces can be wider than the line.
  method TrimLines(wrapped: seq<Text>, ghost limit: int, ghost gaps: seq<Shown>)
      returns (lines: seq<Text>, ghost gaps': seq<Shown>)
    requires |wrapped| == |gaps| && (forall i :: 0 <= i < |gaps| ==> Blank(gaps[i])) && TrimFits(wrapped, limit)
    ensures Trimming(lines, gaps', wrapped, gaps, limit) && |lines| == |wrapped|
  {
    lines, gaps' := [], [];
    for i := 0 to |wrapped|
      invariant |lines| == i && Trimming(lines, gaps', wrapped, gaps, limit)
    {
      hide Trimming;
      ghost var gap := TrimNext(lines, gaps', wrapped, gaps, limit);
      lines := lines + [TrimEnd(wrapped[i])];
      gaps' := gaps' + [gap];
    }
  }

  lemma OneLineWraps(line: Text, width: int)
    ensures WrapsWith([line], [[]], Ink(line, CLEAR), width)
  {
    assert Rejoined([line], [[]]) == Ink(line, CLEAR);
    assert [line][..0] == [];
  }

  // Words alternate with spaces.
  lemma KindChanges(tokens: seq<Text>, k: nat)
    requires Words(tokens) && k < |tokens|
    ensures OtherKind(Ink(Flatten(tokens[..k]), CLEAR), Word(tokens[k], true))
  {
    if k > 0 {
      var before, last := Flatten(tokens[..k - 1]), tokens[k - 1];
      TakeNext(tokens, k - 1);
      FlattenSnoc(tokens[..k - 1], last);
      WordInk(before, last, StyleAfter(before, CLEAR), Word(last, true));
      var ink := Ink(last, StyleAfter(before, CLEAR));
      assert Sp(ink[|ink| - 1]) == Word(last, true);
    }
  }

  // No line is wider than the limit: the width asked for, or a grapheme that is wider than that.
  method WrapSingleLine(line: Text, width: int, ghost limit: int) returns (lines: seq<Text>, ghost gaps: seq<Shown>)
    requires WellFormed(line, limit) && 1 <= width <= limit
    ensures Fits(lines, limit) && WrapsWith(lines, gaps, Ink(line, CLEAR), width)
    ensures if Width(line) <= width then lines == [line] else AllTrimmed(lines)
    ensures PlainSpaces(line) ==> NoneLeads(lines)
  {
    if line == [] {
      OneLineWraps([], width);
      return [[]], [[]];
    }
    if Width(line) <= width {
      OneLineWraps(line, width);
      return [line], [[]];
    }
    var wrapped: seq<Text> := [];
    gaps := [];
    var tracker := new AnsiCodeTracker();
    if !Visible(line) {
      CodesOnly(line, CLEAR);
    }
    var tokens := SplitIntoTokens(line);
    var currentLine: Text := [];
    var currentVisibleLength := 0;
    for k := 0 to |tokens|
      invariant fresh(tracker)
      invariant Wrapping(wrapped, gaps, currentLine, Flatten(tokens[..k]), tracker.style, limit)
      invariant Needed(wrapped, gaps, Flatten(tokens[..k]), width)
      invariant currentVisibleLength == Width(currentLine) && LineFits(currentLine, limit)
      invariant PlainSpaces(line) ==> NoneLeads(wrapped + [currentLine])
      invariant if k == 0 then currentLine == [] && wrapped == []
                else currentVisibleLength == 0 ==> Word(tokens[k - 1], true)
    {
      TakeNext(tokens, k);
      FlattenSnoc(tokens[..k], tokens[k]);
      WordsOfLine(tokens, k, limit);
      if k > 0 && currentVisibleLength == 0 {
        assert !Word(tokens[k - 1], false);
      }
      ghost var space := Word(tokens[k], true);
      KindChanges(tokens, k);
      if PlainSpaces(line) && space {
        PlainOfLine(tokens, k);
        SpacesOfPlain(tokens[k]);
      }
      wrapped, currentLine, currentVisibleLength, gaps :=
        WrapToken(wrapped, currentLine, currentVisibleLength, tokens[k], width, tracker, gaps, Flatten(tokens[..k]),
                  space, limit);
    }
    assert tokens[..|tokens|] == tokens;
    lines, gaps := FinishLine(wrapped, currentLine, width, limit, gaps, line, tracker.style);
  }

  // Trimming moves no break.
  lemma TrimmedWraps(wrapped: seq<Text>, gaps: seq<Shown>, all: seq<Text>, allGaps: seq<Shown>, lines: seq<Text>,
                     gaps': seq<Shown>, shown: Shown, width: int)
    requires |wrapped| == |gaps| && Tight(wrapped, gaps, shown, |wrapped|, width) && AllClosed(wrapped)
    requires all != [] && |all| == |allGaps| == |lines| == |gaps'| && |all| <= |wrapped| + 1
    requires wrapped <= all && gaps <= allGaps
    requires ShowsWith(lines, gaps', shown)
    requires forall i :: 0 <= i <= |lines| ==> StartOf(lines, gaps', i) == StartOf(all, allGaps, i)
    requires forall i :: 0 <= i < |lines| && Closed(all[i]) ==> Closed(lines[i])
    ensures WrapsWith(lines, gaps', shown, width)
  {
    var n := |wrapped|;
    assert all == wrapped + all[n..] && allGaps == gaps + allGaps[n..];
    TightWith(wrapped, gaps, all[n..], allGaps[n..], shown, width);
    hide StartOf, BreaksAt, Closed, ShowsWith;
    forall i | 0 < i <= |lines| - 1 ensures TightAt(lines, gaps', shown, i, width) {
      assert TightAt(all, allGaps, shown, i, width);
    }
    forall i | 0 <= i < |lines| - 1 ensures Closed(lines[i]) {
      assert all[i] == wrapped[i];
    }
  }

  lemma LastLineJoins(wrapped: seq<Text>, gaps: seq<Shown>, currentLine: Text, line: Text, now: Style, limit: int,
                      all: seq<Text>, allGaps: seq<Shown>)
    requires Wrapping(wrapped, gaps, currentLine, line, now, limit) && LineFits(currentLine, limit) && limit >= 1
    requires all == if currentLine == [] then wrapped else wrapped + [currentLine]
    requires allGaps == if currentLine == [] then gaps else gaps + [[]]
    ensures |wrapped| == |gaps| && |all| == |allGaps| <= |wrapped| + 1 && wrapped <= all && gaps <= allGaps
    ensures Rejoined(all, allGaps) == Ink(line, CLEAR) && TrimFits(all, limit) && AllClosed(wrapped)
    ensures forall i :: 0 <= i < |allGaps| ==> Blank(allGaps[i])
    ensures NoneLeads(wrapped + [currentLine]) ==> NoneLeads(all)
  {
    hide Ink, StyleAfter, Leads, TrimEnd;
    var _ := TrimKeepsInk(currentLine, CLEAR);
    if Width(currentLine) > limit {
      SpacesOnly(currentLine, CLEAR);
    }
    hide Rejoined, Width, LineFits;
    if currentLine == [] {
      NothingInked();
      assert forall i :: 0 <= i < |wrapped| ==> (wrapped + [currentLine])[i] == wrapped[i];
    } else {
      LineAdded(wrapped, gaps, currentLine, []);
    }
  }

  lemma NothingInked()
    ensures Ink([], CLEAR) == []
  {
  }

  lemma NothingRejoined()
    ensures Rejoined([], []) == []
  {
  }

  lemma OneLineClean(limit: int)
    requires limit >= 0
    ensures NoneLeads([[]]) && Fits([[]], limit) && AllTrimmed([[]])
  {
  }

  lemma TrimmingDone(all: seq<Text>, gaps: seq<Shown>, lines: seq<Text>, gaps': seq<Shown>, limit: int)
    requires Trimming(lines, gaps', all, gaps, limit) && |lines| == |all|
    ensures ShowsWith(lines, gaps', Rejoined(all, gaps)) && (NoneLeads(all) ==> NoneLeads(lines))
    ensures Fits(lines, limit) && AllTrimmed(lines)
    ensures forall i :: 0 <= i <= |lines| ==> StartOf(lines, gaps', i) == StartOf(all, gaps, i)
    ensures forall i :: 0 <= i < |lines| && Closed(all[i]) ==> Closed(lines[i])
  {
    hide Leads, Rejoined, StartOf, Closed;
    assert all[..|all|] == all && gaps[..|all|] == gaps;
  }

  // The last line is not reset; it is trimmed like the others.
  method FinishLine(wrapped: seq<Text>, currentLine: Text, ghost width: int, ghost limit: int,
                    ghost gaps: seq<Shown>, ghost line: Text, ghost now: Style)
      returns (lines: seq<Text>, ghost gaps': seq<Shown>)
    requires Wrapping(wrapped, gaps, currentLine, line, now, limit) && LineFits(currentLine, limit) && limit >= 1
    requires Needed(wrapped, gaps, line, width)
    ensures Fits(lines, limit) && WrapsWith(lines, gaps', Ink(line, CLEAR), width)
    ensures AllTrimmed(lines) && (NoneLeads(wrapped + [currentLine]) ==> NoneLeads(lines))
  {
    var all := wrapped;
    ghost var allGaps := gaps;
    if currentLine != [] {
      all := all + [currentLine];
      allGaps := allGaps + [[]];
    }
    LastLineJoins(wrapped, gaps, currentLine, line, now, limit, all, allGaps);
    hide Wrapping, Rejoined, Ink, NoneLeads, AllTrimmed, TrimFits, Tight, Fits, Trimming;
    if all == [] {
      NothingRejoined();
      NothingInked();
      OneLineWraps([], width);
      OneLineClean(limit);
      return [[]], [[]];
    }
    lines, gaps' := TrimLines(all, limit, allGaps);
    TrimmingDone(all, allGaps, lines, gaps', limit);
    TrimmedWraps(wrapped, gaps, all, allGaps, lines, gaps', Ink(line, CLEAR), width);
  }

  // ---------- A text of several lines ----------

  lemma ShowsConcat(a: seq<Text>, x: Shown, b: seq<Text>, y: Shown)
    requires Shows(a, x) && Shows(b, y)
    ensures Shows(a + b, x + y)
  {
    var ga :| ShowsWith(a, ga, x);
    var gb :| ShowsWith(b, gb, y);
    RejoinedConcat(a, ga, b, gb);
    assert ShowsWith(a + b, ga + gb, x + y);
  }

  ghost predicate Wrapped(result: seq<Text>, consumed: Text, now: Style, width: int) {
    && now == StyleAfter(consumed, CLEAR) && Good(now)
    && Fits(result, width) && Shows(result, Ink(consumed, CLEAR))
  }

  lemma LineWrapped(result: seq<Text>, before: Text, now: Style, line: Text, wrapped: seq<Text>, width: int)
    requires Wrapped(result, before, now, width) && WellFormed(line, width)
    requires Fits(wrapped, width) && Shows(wrapped, Ink(line, now))
    ensures Wrapped(result + wrapped, before + line, StyleAfter(line, now), width)
  {
    ShowsConcat(result, Ink(before, CLEAR), wrapped, Ink(line, now));
    InkConcat(before, line, CLEAR);
    StyleConcat(before, line, CLEAR);
    StyleStaysGood(line, width, now);
  }

  // ---------- What cannot fit ----------

  lemma {:induction false} InkedNarrow(items: Text, s: Style, k: nat)
    requires k < |Ink(items, s)|
    ensures Ink(items, s)[k].width <= Width(items)
  {
    var before := items[..|items| - 1];
    if k < |Ink(before, s)| {
      InkedNarrow(before, s, k);
    }
  }

  // Of what separate lines show, only blanks can be wider than they are.
  lemma {:induction false} RejoinedNarrow(lines: seq<Text>, gaps: seq<Shown>, width: int, k: nat)
    requires |lines| == |gaps| && Fits(lines, width) && k < |Rejoined(lines, gaps)|
    requires forall i :: 0 <= i < |gaps| ==> Blank(gaps[i])
    ensures Rejoined(lines, gaps)[k].width <= width || Rejoined(lines, gaps)[k].text == " "
  {
    var n := |lines| - 1;
    var before, ink := Rejoined(lines[..n], gaps[..n]), Ink(lines[n], CLEAR);
    assert Rejoined(lines, gaps) == before + (ink + gaps[n]);
    if k < |before| {
      RejoinedNarrow(lines[..n], gaps[..n], width, k);
    } else if k < |before| + |ink| {
      InkedNarrow(lines[n], CLEAR, k - |before|);
    } else {
      assert Blank(gaps[n]) && Rejoined(lines, gaps)[k] == gaps[n][k - |before| - |ink|];
    }
  }

  lemma {:induction false} WidestInked(items: Text, s: Style) returns (k: nat)
    requires Sound(items) && Widest(items) > 0
    ensures k < |Ink(items, s)| && Ink(items, s)[k].width == Widest(items)
    ensures Ink(items, s)[k].text == " " ==> Widest(items) == 1
  {
    var n := |items| - 1;
    if Widest(items[..n]) == Widest(items) {
      k := WidestInked(items[..n], s);
    } else {
      k := |Ink(items[..n], s)|;
    }
  }

  // Lines that show a text cannot be narrower than its widest grapheme.
  lemma OverwideShows(result: seq<Text>, items: Text, width: int)
    requires Sound(items) && Fits(result, width) && width >= 1 && Shows(result, Ink(items, CLEAR))
    ensures Widest(items) <= width
  {
    if Widest(items) > 0 {
      var k := WidestInked(items, CLEAR);
      var gaps :| ShowsWith(result, gaps, Ink(items, CLEAR));
      RejoinedNarrow(result, gaps, width, k);
    }
  }

  /** What becomes of one line of the text, which begins in the style that the lines before it left: it is broken only
      where it has to be, and a line that fits is not broken. */
  ghost predicate LineWraps(block: seq<Text>, before: Text, line: Text, width: int) {
    && (exists gaps :: WrapsWith(block, gaps, Ink(line, StyleAfter(before, CLEAR)), width))
    && (Width(line) <= width ==> |block| == 1) && (Width(line) > width ==> AllTrimmed(block))
    && (PlainBehind(line, StyleAfter(before, CLEAR)) ==> NoneLeads(block))
  }

  // Nor is a style reopened right before spaces.
  ghost predicate PlainBehind(line: Text, s: Style) {
    PlainSpaces(line) && (line != [] && line[0].Space() ==> s == CLEAR)
  }

  lemma PrefixPlain(prefix: Text, line: Text, s: Style)
    requires PlainBehind(line, s) && (prefix == ActiveItems(s) || prefix == [])
    ensures PlainSpaces(prefix + line)
  {
    hide ActiveItems;
    NothingActive();
    assert forall i :: 0 <= i < |prefix| ==> prefix[i].Code? by { ActiveAreCodes(s); }
    CodesBefore(prefix, line);
  }

  lemma CodesBefore(prefix: Text, line: Text)
    requires PlainSpaces(line) && forall i :: 0 <= i < |prefix| ==> prefix[i].Code?
    requires prefix != [] && line != [] ==> !line[0].Space()
    ensures PlainSpaces(prefix + line)
  {
    var all := prefix + line;
    forall i | 0 < i < |all|
      ensures !(all[i].Space() && all[i - 1].Code?) && !(all[i].Code? && all[i - 1].Space())
    {
      if i > |prefix| {
        var k := i - |prefix|;
        assert all[i] == line[k] && all[i - 1] == line[k - 1];
      } else {
        assert all[i - 1] == prefix[i - 1];
      }
    }
  }

  lemma NothingActive()
    ensures ActiveItems(CLEAR) == [] && Good(CLEAR)
  {
  }

  lemma ActiveAreCodes(s: Style)
    ensures forall i :: 0 <= i < |ActiveItems(s)| ==> ActiveItems(s)[i].Code?
  {
  }

  ghost predicate LinesWrap(blocks: seq<seq<Text>>, inputLines: seq<Text>, width: int) {
    && |blocks| <= |inputLines|
    && forall i :: 0 <= i < |blocks| ==> LineWraps(blocks[i], Flatten(inputLines[..i]), inputLines[i], width)
  }

  lemma BlockWraps(block: seq<Text>, gaps: seq<Shown>, before: Text, line: Text, width: int)
    requires WrapsWith(block, gaps, Ink(line, StyleAfter(before, CLEAR)), width)
    requires if Width(line) <= width then |block| == 1 else AllTrimmed(block)
    requires PlainBehind(line, StyleAfter(before, CLEAR)) ==> NoneLeads(block)
    ensures LineWraps(block, before, line, width)
    ensures Shows(block, Ink(line, StyleAfter(before, CLEAR))) && block != []
  {
    hide Ink, StyleAfter, Width, Tight, AllClosed, Rejoined;
  }

  lemma BlockAdded(blocks: seq<seq<Text>>, inputLines: seq<Text>, block: seq<Text>, width: int)
    requires LinesWrap(blocks, inputLines, width) && |blocks| < |inputLines|
    requires LineWraps(block, Flatten(inputLines[..|blocks|]), inputLines[|blocks|], width)
    ensures LinesWrap(blocks + [block], inputLines, width) && Flatten(blocks + [block]) == Flatten(blocks) + block
  {
    hide Flatten, LineWraps;
    FlattenSnoc(blocks, block);
    var longer := blocks + [block];
    forall i | 0 <= i < |longer| ensures LineWraps(longer[i], Flatten(inputLines[..i]), inputLines[i], width) {
      if i < |blocks| {
        assert longer[i] == blocks[i];
      }
    }
  }

  // The first lines of a text, and what they have become.
  ghost predicate TextWrapped(result: seq<Text>, blocks: seq<seq<Text>>, inputLines: seq<Text>, now: Style, width: int,
                              limit: int) {
    && LinesWrap(blocks, inputLines, width) && result == Flatten(blocks) && |result| >= |blocks|
    && Wrapped(result, Flatten(inputLines[..|blocks|]), now, limit)
    && (blocks == [] ==> now == CLEAR)
  }

  function Prefix(result: seq<Text>, now: Style): Text { if |result| > 0 then ActiveItems(now) else [] }

  lemma LineReady(result: seq<Text>, blocks: seq<seq<Text>>, inputLines: seq<Text>, now: Style, width: int, limit: int)
    requires TextWrapped(result, blocks, inputLines, now, width, limit) && |blocks| < |inputLines| && 0 <= limit
    requires WellFormed(Flatten(inputLines), limit)
    ensures var prefix, line := Prefix(result, now), inputLines[|blocks|];
      && Ink(prefix + line, CLEAR) == Ink(line, now) && Width(prefix + line) == Width(line)
      && WellFormed(prefix + line, limit) && WellFormed(line, limit)
      && (PlainBehind(line, now) ==> PlainSpaces(prefix + line))
  {
    hide Ink, Width, StyleAfter, ActiveItems, Good, LinesWrap, Shows, Fits, PlainBehind, PlainSpaces, WellFormed;
    var prefix, line := Prefix(result, now), inputLines[|blocks|];
    if result == [] {
      assert blocks == [];
      NothingActive();
    }
    WordsOfLine(inputLines, |blocks|, limit);
    PrefixShowsNothing(prefix, line, now, limit);
    if PlainBehind(line, now) {
      PrefixPlain(prefix, line, now);
    }
  }

  lemma LineJoins(result: seq<Text>, blocks: seq<seq<Text>>, inputLines: seq<Text>, now: Style, wrapped: seq<Text>,
                  gaps: seq<Shown>, width: int, limit: int)
    requires TextWrapped(result, blocks, inputLines, now, width, limit) && |blocks| < |inputLines|
    requires WellFormed(inputLines[|blocks|], limit) && Fits(wrapped, limit)
    requires var line := inputLines[|blocks|];
      && WrapsWith(wrapped, gaps, Ink(line, now), width)
      && (if Width(line) <= width then |wrapped| == 1 else AllTrimmed(wrapped))
      && (PlainBehind(line, now) ==> NoneLeads(wrapped))
    ensures TextWrapped(result + wrapped, blocks + [wrapped], inputLines, StyleAfter(inputLines[|blocks|], now), width,
                        limit)
  {
    hide Ink, Width, StyleAfter, WrapsWith, Good, LinesWrap, Shows, Fits, PlainBehind, AllTrimmed, NoneLeads,
         LineWraps, WellFormed;
    var before, line := Flatten(inputLines[..|blocks|]), inputLines[|blocks|];
    TakeNext(inputLines, |blocks|);
    FlattenSnoc(inputLines[..|blocks|], line);
    BlockWraps(wrapped, gaps, before, line, width);
    BlockAdded(blocks, inputLines, wrapped, width);
    LineWrapped(result, before, now, line, wrapped, limit);
  }

  lemma NothingWrapped(inputLines: seq<Text>, width: int, limit: int)
    ensures TextWrapped([], [], inputLines, CLEAR, width, limit)
  {
    assert ShowsWith([], [], []);
    assert inputLines[..0] == [];
  }

  lemma AllWrapped(result: seq<Text>, blocks: seq<seq<Text>>, inputLines: seq<Text>, now: Style, width: int, limit: int)
    requires TextWrapped(result, blocks, inputLines, now, width, limit) && |blocks| == |inputLines|
    requires width >= 1 && Sound(Flatten(inputLines))
    ensures Fits(result, limit) && Shows(result, Ink(Flatten(inputLines), CLEAR))
    ensures Fits(result, width) ==> Widest(Flatten(inputLines)) <= width
    ensures result == Flatten(blocks) && |result| >= |blocks| && LinesWrap(blocks, inputLines, width)
  {
    assert inputLines[..|inputLines|] == inputLines;
    hide Ink, Width, StyleAfter, Good, LinesWrap, Shows, Fits, Sound, Widest;
    if Fits(result, width) {
      OverwideShows(result, Flatten(inputLines), width);
    }
  }

  /** Everything is shown, whatever the widths, and every line is broken only where it has to be. The lines fit exactly
      if every grapheme does; a wider one makes a line of its own. */
  method WrapTextWithAnsi(inputLines: seq<Text>, width: int) returns (result: seq<Text>, ghost blocks: seq<seq<Text>>)
    requires inputLines != [] && width >= 1 && Sound(Flatten(inputLines))
    ensures |result| >= |inputLines| && Shows(result, Ink(Flatten(inputLines), CLEAR))
    ensures Fits(result, Max(width, Widest(Flatten(inputLines))))
    ensures Fits(result, width) <==> Widest(Flatten(inputLines)) <= width
    ensures result == Flatten(blocks) && |blocks| == |inputLines| && LinesWrap(blocks, inputLines, width)
  {
    hide WellFormed, Ink, Width, WrapsWith, StyleAfter, PlainBehind, PlainSpaces, NoneLeads, AllTrimmed, Fits, Sound,
         ActiveItems, Widest, Flatten, TextWrapped, Shows, LinesWrap;
    ghost var limit := Max(width, Widest(Flatten(inputLines)));
    WidestIsWide(Flatten(inputLines), limit);
    result, blocks := [], [];
    var tracker := new AnsiCodeTracker();
    NothingWrapped(inputLines, width, limit);
    for i := 0 to |inputLines|
      invariant fresh(tracker) && |blocks| == i
      invariant TextWrapped(result, blocks, inputLines, tracker.style, width, limit)
    {
      var inputLine := inputLines[i];
      var prefix := if |result| > 0 then ActiveItems(tracker.style) else [];
      LineReady(result, blocks, inputLines, tracker.style, width, limit);
      var wrapped, gaps := WrapSingleLine(prefix + inputLine, width, limit);
      LineJoins(result, blocks, inputLines, tracker.style, wrapped, gaps, width, limit);
      result := result + wrapped;
      blocks := blocks + [wrapped];
      UpdateTrackerFromText(inputLine, tracker);
    }
    AllWrapped(result, blocks, inputLines, tracker.style, width, limit);
  }

  lemma PrefixShowsNothing(prefix: Text, line: Text, s: Style, width: int)
    requires Good(s) && WellFormed(line, width) && 0 <= width
    requires prefix == ActiveItems(s) || (prefix == [] && s == CLEAR)
    ensures Ink(prefix + line, CLEAR) == Ink(line, s) && WellFormed(prefix + line, width)
    ensures Width(prefix + line) == Width(line)
  {
    hide Ink, Width, StyleAfter, ActiveItems, Good;
    NothingActive();
    Reopened(s);
    ActiveItemsComplete(s);
    ActiveAreCodes(s);
    InkConcat(prefix, line, CLEAR);
    WidthConcat(prefix, line);
    assert [] + Ink(line, s) == Ink(line, s);
  }

  // What a tracker writes is made of complete escape sequences.
  lemma ActiveItemsComplete(s: Style)
    requires Good(s)
    ensures Sound(ActiveItems(s))
  {
    hide Codes, FormatLink, Process, EndAt, GoodLink;
    if Codes(s) != [] {
      StyleCodesAreParams(s);
      CodesAreParams(Codes(s));
      SgrCodeReadBack(CLEAR, Join(Codes(s)), "");
      assert SgrCode(s) + "" == SgrCode(s);
    }
    if s.link.Some? {
      LinkCodeReadBack(s.link.value);
    }
  }

  // ---------- The text as a string ----------

  function Render(items: Text): string {
    if items == [] then ""
    else (match items[0] case Code(code) => code case Glyph(text, _) => text) + Render(items[1..])
  }

  lemma {:induction false} StringEndStable(s: string, t: string, j: nat, allowBel: bool)
    requires ControlStringEnd(s, j, allowBel).Some?
    ensures ControlStringEnd(s + t, j, allowBel) == ControlStringEnd(s, j, allowBel)
    decreases |s| - j
  {
    if !(allowBel && s[j] == BEL) && !TerminatorAt(s, j) {
      StringEndStable(s, t, j + 1, allowBel);
    }
  }

  lemma {:induction false} SequenceEndStable(s: string, t: string, j: nat, hasIntermediate: bool)
    requires ControlSequenceEnd(s, j, hasIntermediate).Some?
    ensures ControlSequenceEnd(s + t, j, hasIntermediate) == ControlSequenceEnd(s, j, hasIntermediate)
    decreases |s| - j
  {
    if '0' <= s[j] <= '?' && !hasIntermediate {
      SequenceEndStable(s, t, j + 1, false);
    } else if ' ' <= s[j] <= '/' {
      SequenceEndStable(s, t, j + 1, true);
    }
  }

  lemma EndStable(s: string, t: string)
    requires EndAt(s, 0).Some?
    ensures EndAt(s + t, 0) == EndAt(s, 0)
  {
    if s[1] == '[' {
      SequenceEndStable(s, t, 2, false);
    } else {
      StringEndStable(s, t, 2, BelAllowed(s[1]));
    }
  }

  lemma {:induction false} NoCodesInPlain(text: string, rest: string, i: nat)
    requires ESC !in text && i <= |text|
    ensures CodesIn(text + rest, i) == CodesIn(rest, 0)
    decreases |text| - i
  {
    if i == |text| {
      CodesShift(text, rest, 0);
    } else {
      assert (text + rest)[i] == text[i];
      NoCodesInPlain(text, rest, i + 1);
    }
  }

  // Reading the string gives the escape sequences of the text back, so the style a text leaves behind is the
  // one a tracker decodes from the string.
  lemma {:induction false} RenderedStyle(items: Text, s: Style, width: int)
    requires WellFormed(items, width)
    requires forall i :: 0 <= i < |items| && items[i].Glyph? ==> ESC !in items[i].text
    ensures Decode(Render(items), s) == StyleAfter(items, s)
  {
    if items != [] {
      var first, rest := items[0], items[1..];
      assert items == [first] + rest;
      StyleConcat([first], rest, s);
      Snoc([], first, s);
      assert [] + [first] == [first];
      if first.Code? {
        EndStable(first.code, Render(rest));
        FirstCode(first.code, Render(rest));
        RenderedStyle(rest, Process(s, first.code), width);
        assert ([first.code] + CodesIn(Render(rest), 0))[1..] == CodesIn(Render(rest), 0);
      } else {
        NoCodesInPlain(first.text, Render(rest), 0);
        RenderedStyle(rest, s, width);
      }
    }
  }
}
