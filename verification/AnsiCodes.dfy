/** What escape sequences are and what they do to a style, in terms of their text (sections 5.4, 5.6 and 8.3.117 of
    ECMA-48).
 */
module AnsiCodes {
  import opened AnsiScanner
  import opened AnsiTracker
  import opened Basics
  import opened Frames

  // ---------- Which sequences are recognized ----------

  // Parameter bytes, intermediate bytes, and one final byte.
  predicate ControlSequence(t: string, params: nat, n: nat) {
    && 2 <= params <= n == |t| - 1 && t[..2] == "\U{1b}["
    && (forall i :: 2 <= i < params ==> '\U{30}' <= t[i] <= '\U{3f}')
    && (forall i :: params <= i < n ==> '\U{20}' <= t[i] <= '\U{2f}')
    && '\U{40}' <= t[n] <= '\U{7e}'
  }

  // ST ends a control string; BEL ends an operating system command and an application program command as well.
  predicate Ends(t: string, j: nat) {
    || (j + 1 < |t| && t[j] == '\U{1b}' && t[j + 1] == '\\')
    || (j < |t| && t[j] == '\U{07}' && |t| > 1 && (t[1] == ']' || t[1] == '_'))
  }

  // From its introducer to the first terminator, which begins at j.
  predicate ControlString(t: string, j: nat) {
    && 2 <= j < |t| && t[0] == '\U{1b}' && t[1] in "P]X^_"
    && Ends(t, j) && |t| == (if t[j] == '\U{07}' then j + 1 else j + 2)
    && forall i :: 2 <= i < j ==> !Ends(t, i)
  }

  ghost predicate EscapeSequence(t: string) {
    (exists params, n :: ControlSequence(t, params, n)) || (exists j :: ControlString(t, j))
  }

  lemma {:induction false} SequenceScanned(s: string, pos: nat, j: nat, params: nat, n: nat, intermediate: bool)
    requires pos + 2 <= j <= pos + n && params <= n && pos + n < |s|
    requires forall i :: j <= i < pos + params ==> '0' <= s[i] <= '?'
    requires forall i :: pos + params <= i < pos + n ==> ' ' <= s[i] <= '/'
    requires '@' <= s[pos + n] <= '~' && (intermediate ==> pos + params <= j)
    ensures ControlSequenceEnd(s, j, intermediate) == Some(pos + n + 1)
    decreases pos + n - j
  {
    if j < pos + n {
      SequenceScanned(s, pos, j + 1, params, n, pos + params <= j);
    }
  }

  lemma {:induction false} SequenceSplit(s: string, j: nat, intermediate: bool) returns (params: nat)
    requires ControlSequenceEnd(s, j, intermediate).Some?
    ensures var n := ControlSequenceEnd(s, j, intermediate).value - 1;
      && j <= params <= n < |s| && (intermediate ==> params == j) && '@' <= s[n] <= '~'
      && (forall i :: j <= i < params ==> '0' <= s[i] <= '?')
      && (forall i :: params <= i < n ==> ' ' <= s[i] <= '/')
    decreases |s| - j
  {
    if '0' <= s[j] <= '?' && !intermediate {
      params := SequenceSplit(s, j + 1, false);
    } else if ' ' <= s[j] <= '/' {
      var _ := SequenceSplit(s, j + 1, true);
      params := j;
    } else {
      params := j;
    }
  }

  lemma {:induction false} StringScanned(s: string, j: nat, end: nat, bel: bool)
    requires j <= end
    requires forall i :: j <= i < end ==> !TerminatorAt(s, i) && !(bel && i < |s| && s[i] == BEL)
    ensures ControlStringEnd(s, j, bel) == ControlStringEnd(s, end, bel) || end > |s|
    decreases end - j
  {
    if j < end && j < |s| {
      StringScanned(s, j + 1, end, bel);
    }
  }

  lemma {:induction false} StringSplit(s: string, j: nat, bel: bool) returns (end: nat)
    requires ControlStringEnd(s, j, bel).Some?
    ensures j <= end < |s| && (forall i :: j <= i < end ==> !TerminatorAt(s, i) && !(bel && s[i] == BEL))
    ensures if bel && s[end] == BEL then ControlStringEnd(s, j, bel) == Some(end + 1)
            else TerminatorAt(s, end) && ControlStringEnd(s, j, bel) == Some(end + 2)
    decreases |s| - j
  {
    if (bel && s[j] == BEL) || TerminatorAt(s, j) {
      end := j;
    } else {
      end := StringSplit(s, j + 1, bel);
    }
  }

  lemma SequenceExtracted(s: string, pos: nat, end: nat, params: nat, n: nat)
    requires pos <= end <= |s| && ControlSequence(s[pos..end], params, n)
    ensures EndAt(s, pos) == Some(end)
  {
    var t := s[pos..end];
    assert t[0] == t[..2][0] && t[1] == t[..2][1];
    assert forall i :: 0 <= i < |t| ==> t[i] == s[pos + i];
    assert forall i :: pos <= i < end ==> s[i] == t[i - pos];
    SequenceScanned(s, pos, pos + 2, params, n, false);
  }

  lemma StringExtracted(s: string, pos: nat, end: nat, j: nat)
    requires pos <= end <= |s| && ControlString(s[pos..end], j)
    ensures EndAt(s, pos) == Some(end)
  {
    var t := s[pos..end];
    var bel := BelAllowed(t[1]);
    assert s[pos] == t[0] && s[pos + 1] == t[1] && s[pos + j] == t[j];
    forall i | pos + 2 <= i < pos + j ensures !TerminatorAt(s, i) && !(bel && s[i] == BEL) {
      assert !Ends(t, i - pos);
      assert s[i] == t[i - pos] && s[i + 1] == t[i + 1 - pos];
    }
    StringScanned(s, pos + 2, pos + j, bel);
    if t[j] != BEL {
      assert s[pos + j + 1] == t[j + 1];
    }
  }

  lemma ExtractedIsSequence(s: string, pos: nat)
    requires EndAt(s, pos).Some?
    ensures EscapeSequence(s[pos..EndAt(s, pos).value])
  {
    var t := s[pos..EndAt(s, pos).value];
    assert forall i :: 0 <= i < |t| ==> t[i] == s[pos + i];
    if s[pos + 1] == '[' {
      var params := SequenceSplit(s, pos + 2, false);
      assert t[..2] == [t[0], t[1]];
      assert ControlSequence(t, params - pos, |t| - 1);
    } else {
      var bel := BelAllowed(s[pos + 1]);
      var j := StringSplit(s, pos + 2, bel);
      forall i | 2 <= i < j - pos ensures !Ends(t, i) {
        assert !TerminatorAt(s, pos + i) && !(bel && s[pos + i] == BEL);
      }
      assert ControlString(t, j - pos);
    }
  }

  /** What is extracted at a place is the escape sequence that begins there, and nothing else is. */
  lemma ExtractedSequences(s: string, pos: nat, end: nat)
    ensures EndAt(s, pos) == Some(end) <==> pos <= end <= |s| && EscapeSequence(s[pos..end])
  {
    if EndAt(s, pos) == Some(end) {
      ExtractedIsSequence(s, pos);
    }
    if pos <= end <= |s| && EscapeSequence(s[pos..end]) {
      var t := s[pos..end];
      if exists params, n :: ControlSequence(t, params, n) {
        var params, n :| ControlSequence(t, params, n);
        SequenceExtracted(s, pos, end, params, n);
      } else {
        var j :| ControlString(t, j);
        StringExtracted(s, pos, end, j);
      }
    }
  }

  // ---------- What they do to a style ----------

  // What one number means: which attributes it turns on and off, and which colours it sets.
  function Rendition(s: Style, n: nat): Style {
    Style(n == 1 || (s.bold && n !in {0, 21, 22}),
          n == 2 || (s.dim && n !in {0, 22}),
          n == 3 || (s.italic && n !in {0, 23}),
          n == 4 || (s.underline && n !in {0, 24}),
          n == 5 || (s.blink && n !in {0, 25}),
          n == 7 || (s.inverse && n !in {0, 27}),
          n == 8 || (s.hidden && n !in {0, 28}),
          n == 9 || (s.strikethrough && n !in {0, 29}),
          if 30 <= n <= 37 || 90 <= n <= 97 then Some(Decimal(n)) else if n in {0, 39} then None else s.fgColor,
          if 40 <= n <= 47 || 100 <= n <= 107 then Some(Decimal(n)) else if n in {0, 49} then None else s.bgColor,
          s.link)
  }

  // A number of at most three digits.
  function Decimal(n: nat): string
    requires n < 1000
  {
    var digits := "0123456789";
    if n < 10 then [digits[n]]
    else if n < 100 then [digits[n / 10], digits[n % 10]]
    else [digits[n / 100], digits[n / 10 % 10], digits[n % 10]]
  }

  // One parameter of a rendition sequence: a number, or a colour of the palette or of three components.
  datatype Parameter =
    | Plain(number: string)
    | Palette(back: bool, index: string)
    | Rgb(back: bool, r: string, g: string, b: string)
  {
    predicate Valid() {
      match this
      case Plain(number) => Digits(number) && Value(number) != 38 && Value(number) != 48
      case Palette(_, index) => Digits(index)
      case Rgb(_, r, g, b) => Digits(r) && Digits(g) && Digits(b)
    }

    function Text(): string
      requires Valid()
    {
      match this
      case Plain(number) => number
      case Palette(back, index) => (if back then "48" else "38") + (";5;" + index)
      case Rgb(back, r, g, b) => (if back then "48" else "38") + (";2;" + (r + (";" + (g + (";" + b)))))
    }

    function Meaning(s: Style): Style
      requires Valid()
    {
      match this
      case Plain(number) => if number == "" then s else Rendition(s, Value(number))
      case _ => if back then s.(bgColor := Some(Text())) else s.(fgColor := Some(Text()))
    }
  }

  predicate AllValid(ps: seq<Parameter>) { forall i :: 0 <= i < |ps| ==> ps[i].Valid() }

  function Texts(ps: seq<Parameter>): seq<string>
    requires AllValid(ps)
  {
    seq(|ps|, i requires 0 <= i < |ps| => ps[i].Text())
  }

  function Meanings(s: Style, ps: seq<Parameter>): Style
    requires AllValid(ps)
    decreases |ps|
  {
    if ps == [] then s else Meanings(ps[0].Meaning(s), ps[1..])
  }

  lemma DigitWritten(n: nat)
    requires n < 10
    ensures DigitChar(n) == "0123456789"[n] && ToString(n) == ["0123456789"[n]]
  {
  }

  lemma DecimalWritten(n: nat)
    requires n < 1000
    ensures ToString(n) == Decimal(n)
  {
    DigitWritten(n % 10);
    DigitWritten(n / 10 % 10);
    DigitWritten(n / 100);
    hide DigitChar;
    if n >= 10 {
      assert ToString(n) == ToString(n / 10) + [DigitChar(n % 10)];
      if n >= 100 {
        assert n / 10 / 10 == n / 100;
        assert ToString(n / 10) == ToString(n / 100) + [DigitChar(n / 10 % 10)];
      }
    }
  }

  lemma RenditionIs(s: Style, n: nat)
    ensures Standard(s, n) == Rendition(s, n)
  {
    hide Decimal, ToString;
    if n < 1000 {
      DecimalWritten(n);
    }
  }

  lemma PlainRead(s: Style, number: string, rest: seq<string>)
    requires Plain(number).Valid()
    ensures ApplyParts(s, AllParts([number] + rest)) == ApplyParts(Plain(number).Meaning(s), AllParts(rest))
  {
    RenditionIs(s, Value(number));
    SplitDigits(number);
    assert ([number] + rest)[1..] == rest;
    var parts := AllParts([number] + rest);
    assert parts[0] == number && parts[1..] == AllParts(rest);
  }

  lemma LeadIs(back: bool)
    ensures ParseInt("48") == 48 && ParseInt("38") == 38
    ensures Split(if back then "48" else "38") == [if back then "48" else "38"]
    ensures Split("5") == ["5"] && Split("2") == ["2"]
  {
    DecimalWritten(48);
    DecimalWritten(38);
    assert Decimal(48) == "48" && Decimal(38) == "38";
    ToStringValue(48);
    ToStringValue(38);
    SplitDigits("48");
    SplitDigits("38");
    SplitDigits("5");
    SplitDigits("2");
  }

  function ColorParts(p: Parameter): seq<string>
    requires !p.Plain?
  {
    var lead := if p.back then "48" else "38";
    if p.Palette? then [lead, "5", p.index] else [lead, "2", p.r, p.g, p.b]
  }

  lemma ColorPartsTaken(p: Parameter)
    requires p.Valid() && !p.Plain?
    ensures var parts := ColorParts(p);
      parts != [] && Parts(parts) && ColorLength(parts) == |parts| && ParseInt(parts[0]) == if p.back then 48 else 38
  {
    LeadIs(p.back);
    hide ParseInt;
  }

  lemma ColorIsExtended(p: Parameter)
    requires p.Valid() && !p.Plain?
    ensures Extended(p.Text(), if p.back then 48 else 38)
  {
    hide ColorParts, Parameter.Text, Extended;
    ColorPartsTaken(p);
    PartsJoin(p);
    JoinedColorIsExtended(ColorParts(p));
  }

  lemma ThreeJoin(a: string, b: string, c: string)
    ensures Join([a, b, c]) == a + (";" + (b + (";" + c)))
  {
    JoinStep([a, b, c]);
    JoinStep([b, c]);
    assert [a, b, c][1..] == [b, c] && [b, c][1..] == [c];
    assert a + ";" + (b + ";" + c) == a + (";" + (b + (";" + c)));
  }

  lemma FiveJoin(a: string, b: string, c: string, d: string, e: string)
    ensures Join([a, b, c, d, e]) == a + (";" + (b + (";" + (c + (";" + (d + (";" + e)))))))
  {
    var tail := [c, d, e];
    ThreeJoin(c, d, e);
    hide Join;
    JoinStep([a, b, c, d, e]);
    JoinStep([b, c, d, e]);
    assert [a, b, c, d, e][1..] == [b, c, d, e] && [b, c, d, e][1..] == tail;
    Regrouped(a, b, Join(tail));
  }

  lemma Regrouped(a: string, b: string, c: string)
    ensures a + ";" + (b + ";" + c) == a + (";" + (b + (";" + c)))
  {
  }

  lemma PartsJoin(p: Parameter)
    requires p.Valid() && !p.Plain?
    ensures Join(ColorParts(p)) == p.Text()
  {
    hide Join;
    if p.Palette? {
      ThreeJoin(if p.back then "48" else "38", "5", p.index);
      MarkJoins("5", p.index);
    } else {
      FiveJoin(if p.back then "48" else "38", "2", p.r, p.g, p.b);
      MarkJoins("2", p.r + (";" + (p.g + (";" + p.b))));
    }
  }

  lemma MarkJoins(mark: string, tail: string)
    requires mark == "5" || mark == "2"
    ensures ";" + (mark + (";" + tail)) == (if mark == "5" then ";5;" else ";2;") + tail
  {
    assert ";" + mark + ";" == if mark == "5" then ";5;" else ";2;";
    assert ";" + (mark + (";" + tail)) == (";" + mark + ";") + tail;
  }

  lemma ParameterRead(s: Style, p: Parameter, rest: seq<string>)
    requires p.Valid()
    ensures ApplyParts(s, AllParts([p.Text()] + rest)) == ApplyParts(p.Meaning(s), AllParts(rest))
  {
    if p.Plain? {
      PlainRead(s, p.number, rest);
    } else {
      ColorIsExtended(p);
      hide ApplyParts, AllParts, Parameter.Text;
      ExtendedReadBack(s, p.Text(), rest);
    }
  }

  lemma {:induction false} ParametersRead(s: Style, ps: seq<Parameter>)
    requires AllValid(ps)
    ensures ApplyParts(s, AllParts(Texts(ps))) == Meanings(s, ps)
    decreases |ps|
  {
    if ps != [] {
      hide AllParts, Parameter.Text, Parameter.Meaning, ColorLength, ParseInt, WithColor, Standard, Join;
      assert Texts(ps) == [ps[0].Text()] + Texts(ps[1..]);
      ParameterRead(s, ps[0], Texts(ps[1..]));
      ParametersRead(ps[0].Meaning(s), ps[1..]);
    }
  }

  lemma TextIsParams(p: Parameter)
    requires p.Valid()
    ensures ParamChars(p.Text()) && (p != Plain("") ==> p.Text() != "")
  {
    if !p.Plain? {
      ColorIsExtended(p);
    }
  }

  lemma {:induction false} TextsAreParams(ps: seq<Parameter>)
    requires AllValid(ps)
    ensures ParamCodes(Texts(ps)) && ParamChars(Join(Texts(ps)))
    ensures ps != [] && ps != [Plain("")] ==> Join(Texts(ps)) != ""
    decreases |ps|
  {
    hide Parameter.Text;
    if ps != [] {
      TextIsParams(ps[0]);
      assert Texts(ps)[1..] == Texts(ps[1..]);
      TextsAreParams(ps[1..]);
      CodesAreParams(Texts(ps));
    }
  }

  lemma ZeroAlone(s: Style)
    ensures ApplyParts(s, Split("0")) == CLEAR.(link := s.link)
  {
    SplitDigits("0");
    assert "0"[..0] == "" && ["0"][1..] == [];
    RenditionIs(s, 0);
  }

  /** A rendition sequence: each parameter has its meaning, one after the other; without any it is a reset. */
  lemma RenditionsInOrder(s: Style, ps: seq<Parameter>)
    requires AllValid(ps) && ps != [] && ps != [Plain("")]
    ensures Process(s, "\U{1b}[" + Join(Texts(ps)) + "m") == Meanings(s, ps)
    ensures Process(s, "\U{1b}[m") == CLEAR.(link := s.link)
  {
    hide Process;
    var texts := Texts(ps);
    TextsAreParams(ps);
    SgrCodeReadBack(s, Join(texts), "");
    assert "\U{1b}[" + "" + "m" == "\U{1b}[m";
    SgrCodeReadBack(s, "", "");
    ParametersRead(s, ps);
    SplitJoinedCodes(texts);
    ZeroAlone(s);
  }

  /** A hyperlink command opens a link, or closes the open one if it gives no address. */
  lemma HyperlinkMeans(s: Style, params: string, url: string)
    requires ';' !in params
    ensures Process(s, "\U{1b}]8;" + params + ";" + url + "\U{1b}\\")
      == s.(link := if url == "" then None else Some(Hyperlink(params, url, false)))
    ensures Process(s, "\U{1b}]8;" + params + ";" + url + "\U{07}")
      == s.(link := if url == "" then None else Some(Hyperlink(params, url, true)))
  {
    hide Process;
    LinkParsed(params, url, false);
    LinkParsed(params, url, true);
    LinkFollows(s, "\U{1b}]8;" + params + ";" + url + "\U{1b}\\");
    LinkFollows(s, "\U{1b}]8;" + params + ";" + url + "\U{07}");
  }

  lemma LinkFollows(s: Style, code: string)
    requires ParseOsc8(code) != NotOsc8
    ensures Process(s, code) == s.(link := if ParseOsc8(code) == CloseLink then None else Some(ParseOsc8(code).link))
  {
  }

  lemma LinkParsed(params: string, url: string, bel: bool)
    requires ';' !in params
    ensures ParseOsc8("\U{1b}]8;" + params + ";" + url + (if bel then "\U{07}" else "\U{1b}\\"))
      == if url == "" then CloseLink else OpenLink(Hyperlink(params, url, bel))
  {
    var end := if bel then "\U{07}" else "\U{1b}\\";
    var code := "\U{1b}]8;" + params + ";" + url + end;
    var body := params + ";" + url;
    assert code[|code| - 1] == end[|end| - 1];
    assert code[4..|code| - |end|] == body;
    hide FirstSemicolon;
    FirstOfLink(params, url);
  }

  lemma FirstOfLink(params: string, url: string)
    requires ';' !in params
    ensures var body := params + ";" + url;
      FirstSemicolon(body) == |params| && body[..|params|] == params && body[|params| + 1..] == url
  {
    var body := params + ";" + url;
    var i := FirstSemicolon(body);
    assert body[|params|] == ';' && forall k :: 0 <= k < |params| ==> body[k] == params[k];
  }

  lemma {:induction false} NothingFound(t: string, i: nat)
    requires forall k :: i <= k < |t| ==> t[k] != ESC
    ensures SgrParams(t, i) == None
    decreases |t| - i
  {
    if i + 2 <= |t| {
      NothingFound(t, i + 1);
    }
  }

  lemma NoParams(t: string, params: nat, n: nat)
    requires ControlSequence(t, params, n) && t[n] == 'm' && !ParamChars(t[2..n])
    ensures SgrParams(t, 0) == None
  {
    var end := ParamsEnd(t, 2);
    assert !(end < |t| && t[end] == 'm');
    NothingFound(t, 1);
  }

  /** No other control sequence, and no control string but a hyperlink command, touches the style. */
  lemma OthersLeaveStyle(s: Style, t: string, params: nat, n: nat)
    requires ControlSequence(t, params, n) && !(t[n] == 'm' && ParamChars(t[2..n]))
    ensures Process(s, t) == s
  {
    hide SgrParams;
    assert t[1] == t[..2][1] == '[';
    assert Process(s, t) == if EndsWith(t, 'm') && SgrParams(t, 0) != None then Process(s, t) else s;
    if t[n] == 'm' {
      NoParams(t, params, n);
    }
  }

  lemma StringsLeaveStyle(s: Style, t: string, j: nat)
    requires ControlString(t, j) && !("\U{1b}]8;" <= t && j >= 4 && ';' in t[4..j])
    ensures Process(s, t) == s
  {
    assert t[|t| - 1] == if t[j] == BEL then BEL else '\\';
    if OSC8 <= t {
      assert t[2] == '8' && t[3] == ';';
      assert t[4..j] == t[4..|t| - |Terminator(EndsWith(t, BEL))|];
    }
  }

  lemma ResetRead(s: Style)
    ensures EndAt("\U{1b}[0m" + "\U{1b}]8;;\U{07}", 0) == Some(4) && Process(s, "\U{1b}[0m") == CLEAR.(link := s.link)
  {
    assert "\U{1b}[" + "0" + "m" == "\U{1b}[0m";
    SgrCodeReadBack(s, "0", "\U{1b}]8;;\U{07}");
  }

  lemma LinkEndRead(s: Style)
    ensures EndAt("\U{1b}]8;;\U{07}", 0) == Some(6) && Process(s, "\U{1b}]8;;\U{07}") == s.(link := None)
  {
    assert "\U{1b}]8;" + ";" + "\U{07}" == "\U{1b}]8;" + "" + ";" + "" + "\U{07}" == "\U{1b}]8;;\U{07}";
    LinkCodeScanned(";", [BEL]);
    HyperlinkMeans(s, "", "");
  }

  /** The reset at the end of a painted line leaves nothing behind, neither style nor link. */
  lemma SegmentResetClears(s: Style)
    ensures Decode("\U{1b}[0m\U{1b}]8;;\U{07}", s) == CLEAR && SEGMENT_RESET == "\U{1b}[0m\U{1b}]8;;\U{07}"
  {
    hide Process;
    ResetRead(s);
    LinkEndRead(CLEAR.(link := s.link));
    var reset, close := "\U{1b}[0m", "\U{1b}]8;;\U{07}";
    assert reset + close == "\U{1b}[0m\U{1b}]8;;\U{07}";
    FirstCode(reset, close);
    assert close + "" == close;
    FirstCode(close, "");
    ProcessAllConcat(s, [reset], [close]);
    ProcessAtMostOne(s, [reset]);
    ProcessAtMostOne(CLEAR.(link := s.link), [close]);
    assert CodesIn("", 0) == [];
    assert [reset] + ([close] + []) == [reset] + [close];
  }
}
