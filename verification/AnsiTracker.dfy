/** The style and hyperlink in force at a point of a text, as a tracker of the escape sequences before it
    (the graphic rendition codes are those of section 8.3.117 of ECMA-48).
 */
module AnsiTracker {
  import opened Basics
  import opened AnsiScanner

  datatype Hyperlink = Hyperlink(params: string, url: string, bel: bool)

  datatype Style = Style(
    bold: bool, dim: bool, italic: bool, underline: bool,
    blink: bool, inverse: bool, hidden: bool, strikethrough: bool,
    fgColor: Option<string>,
    bgColor: Option<string>,
    link: Option<Hyperlink>)

  const CLEAR := Style(false, false, false, false, false, false, false, false, None, None, None)

  // ---------- Strings ----------

  predicate Digit(c: char) { '0' <= c <= '9' }

  predicate Digits(s: string) { forall i :: 0 <= i < |s| ==> Digit(s[i]) }

  predicate ParamChars(s: string) { forall i :: 0 <= i < |s| ==> Digit(s[i]) || s[i] == ';' }

  // The parts between semicolons.
  function Split(s: string): (parts: seq<string>)
    ensures parts != []
  {
    if s == "" then [""]
    else
      var rest := Split(s[1..]);
      if s[0] == ';' then [""] + rest else [[s[0]] + rest[0]] + rest[1..]
  }

  function Join(parts: seq<string>): string {
    if parts == [] then "" else if |parts| == 1 then parts[0] else parts[0] + ";" + Join(parts[1..])
  }

  predicate Parts(parts: seq<string>) { forall i :: 0 <= i < |parts| ==> Digits(parts[i]) }

  function Value(digits: string): nat
    requires Digits(digits)
  {
    if digits == "" then 0 else 10 * Value(digits[..|digits| - 1]) + (digits[|digits| - 1] - '0') as nat
  }

  // An empty part is not a number.
  function ParseInt(part: string): int {
    if part != "" && Digits(part) then Value(part) else -1
  }

  function DigitChar(n: nat): char
    requires n < 10
  {
    '0' + n as char
  }

  function ToString(n: nat): string {
    if n < 10 then [DigitChar(n)] else ToString(n / 10) + [DigitChar(n % 10)]
  }

  // ---------- Graphic renditions ----------

  function Reset(s: Style): Style { CLEAR.(link := s.link) }

  predicate Foreground(code: int) { 30 <= code <= 37 || 90 <= code <= 97 }

  predicate Background(code: int) { 40 <= code <= 47 || 100 <= code <= 107 }

  // An attribute is turned on by one code and off by another or by a reset.
  function Switched(on: bool, code: int, turnsOn: int, turnsOff: int): bool {
    code == turnsOn || (on && code != turnsOff && code != 0)
  }

  function ForegroundAfter(c: Option<string>, code: int): Option<string> {
    if code == 0 || code == 39 then None else if Foreground(code) then Some(ToString(code)) else c
  }

  function BackgroundAfter(c: Option<string>, code: int): Option<string> {
    if code == 0 || code == 49 then None else if Background(code) then Some(ToString(code)) else c
  }

  // What a single code does to each attribute.
  function Standard(s: Style, code: int): Style {
    Style(Switched(s.bold, code, 1, 22) && code != 21, Switched(s.dim, code, 2, 22),
          Switched(s.italic, code, 3, 23), Switched(s.underline, code, 4, 24),
          Switched(s.blink, code, 5, 25), Switched(s.inverse, code, 7, 27),
          Switched(s.hidden, code, 8, 28), Switched(s.strikethrough, code, 9, 29),
          ForegroundAfter(s.fgColor, code), BackgroundAfter(s.bgColor, code), s.link)
  }

  // How many parts an extended colour takes up, or 0 if none begins here.
  function ColorLength(parts: seq<string>): nat {
    if parts == [] || (ParseInt(parts[0]) != 38 && ParseInt(parts[0]) != 48) then 0
    else if |parts| >= 3 && parts[1] == "5" then 3
    else if |parts| >= 5 && parts[1] == "2" then 5
    else 0
  }

  function WithColor(s: Style, parts: seq<string>): Style
    requires parts != []
  {
    if ParseInt(parts[0]) == 38 then s.(fgColor := Some(Join(parts))) else s.(bgColor := Some(Join(parts)))
  }

  // The parameters of one sequence, from left to right.
  function ApplyParts(s: Style, parts: seq<string>): Style
    decreases |parts|
  {
    if parts == [] then s
    else
      var n := ColorLength(parts);
      if n != 0 then ApplyParts(WithColor(s, parts[..n]), parts[n..])
      else ApplyParts(Standard(s, ParseInt(parts[0])), parts[1..])
  }

  // The end of the parameter characters from i on.
  function ParamsEnd(s: string, i: nat): (end: nat)
    requires i <= |s|
    ensures i <= end <= |s| && ParamChars(s[i..end])
    ensures end < |s| ==> !Digit(s[end]) && s[end] != ';'
    decreases |s| - i
  {
    if i < |s| && (Digit(s[i]) || s[i] == ';') then
      var end := ParamsEnd(s, i + 1);
      assert s[i..end] == [s[i]] + s[i + 1..end];
      end
    else i
  }

  // The parameters of the first rendition sequence in the code.
  function SgrParams(code: string, i: nat): (params: Option<string>)
    ensures params.Some? ==> ParamChars(params.value)
    decreases |code| - i
  {
    if i + 2 > |code| then None
    else if code[i] == ESC && code[i + 1] == '[' then
      var end := ParamsEnd(code, i + 2);
      if end < |code| && code[end] == 'm' then Some(code[i + 2..end]) else SgrParams(code, i + 1)
    else SgrParams(code, i + 1)
  }

  // ---------- Hyperlinks ----------

  datatype Osc8 = NotOsc8 | CloseLink | OpenLink(link: Hyperlink)

  function FirstSemicolon(s: string): (i: int)
    ensures i == -1 || (0 <= i < |s| && s[i] == ';' && forall j :: 0 <= j < i ==> s[j] != ';')
    ensures i == -1 ==> forall j :: 0 <= j < |s| ==> s[j] != ';'
  {
    if s == "" then -1
    else if s[0] == ';' then 0
    else
      var i := FirstSemicolon(s[1..]);
      if i == -1 then -1 else i + 1
  }

  const OSC8: string := "\U{1b}]8;"
  const ST: string := "\U{1b}\\"

  function Terminator(bel: bool): string { if bel then [BEL] else ST }

  predicate EndsWith(s: string, c: char) { s != "" && s[|s| - 1] == c }

  function ParseOsc8(code: string): Osc8 {
    if !(OSC8 <= code) then NotOsc8
    else
      var bel := EndsWith(code, BEL);
      var bodyEnd := |code| - |Terminator(bel)|;
      var body := if 4 <= bodyEnd then code[4..bodyEnd] else "";
      var separator := FirstSemicolon(body);
      if separator == -1 then NotOsc8
      else if body[separator + 1..] == "" then CloseLink
      else OpenLink(Hyperlink(body[..separator], body[separator + 1..], bel))
  }

  function LinkBody(link: Hyperlink): string { link.params + ";" + link.url }

  function FormatLink(link: Hyperlink): string { OSC8 + LinkBody(link) + Terminator(link.bel) }

  function FormatClose(bel: bool): string { OSC8 + ";" + Terminator(bel) }

  // ---------- One escape sequence ----------

  function ProcessSgr(s: Style, params: string): Style {
    if params == "" || params == "0" then Reset(s) else ApplyParts(s, Split(params))
  }

  function Process(s: Style, code: string): Style {
    match ParseOsc8(code)
    case CloseLink => s.(link := None)
    case OpenLink(link) => s.(link := Some(link))
    case NotOsc8 =>
      if !EndsWith(code, 'm') then s
      else
        match SgrParams(code, 0)
        case None => s
        case Some(params) => ProcessSgr(s, params)
  }

  // The escape sequences of a text, from left to right.
  function CodesIn(text: string, pos: nat): seq<string>
    decreases |text| - pos
  {
    if pos >= |text| then []
    else
      match EndAt(text, pos)
      case Some(end) => [text[pos..end]] + CodesIn(text, end)
      case None => CodesIn(text, pos + 1)
  }

  function ProcessAll(s: Style, codes: seq<string>): Style
    decreases |codes|
  {
    if codes == [] then s else ProcessAll(Process(s, codes[0]), codes[1..])
  }

  // The style after a text.
  function Decode(text: string, s: Style): Style { ProcessAll(s, CodesIn(text, 0)) }

  // ---------- Writing a style ----------

  function Flag(on: bool, code: string): seq<string> { if on then [code] else [] }

  function OptionalCode(code: Option<string>): seq<string> { if code.Some? then [code.value] else [] }

  function Codes(s: Style): seq<string> {
    Flag(s.bold, "1") + (Flag(s.dim, "2") + (Flag(s.italic, "3") + (Flag(s.underline, "4")
    + (Flag(s.blink, "5") + (Flag(s.inverse, "7") + (Flag(s.hidden, "8") + (Flag(s.strikethrough, "9")
    + (OptionalCode(s.fgColor) + OptionalCode(s.bgColor)))))))))
  }

  function SgrCode(s: Style): string {
    if Codes(s) == [] then "" else "\U{1b}[" + Join(Codes(s)) + "m"
  }

  function LinkCode(s: Style): string {
    if s.link.Some? then FormatLink(s.link.value) else ""
  }

  function ActiveCodes(s: Style): string { SgrCode(s) + LinkCode(s) }

  // ---------- The styles a tracker can reach ----------

  predicate Extended(c: string, lead: int) {
    var parts := Split(c);
    ParamChars(c) && ColorLength(parts) == |parts| && ParseInt(parts[0]) == lead
  }

  predicate ForegroundColor(c: string) {
    (Digits(c) && Foreground(ParseInt(c)) && ToString(ParseInt(c)) == c) || Extended(c, 38)
  }

  predicate BackgroundColor(c: string) {
    (Digits(c) && Background(ParseInt(c)) && ToString(ParseInt(c)) == c) || Extended(c, 48)
  }

  predicate GoodForeground(c: Option<string>) { c.Some? ==> ForegroundColor(c.value) }

  predicate GoodBackground(c: Option<string>) { c.Some? ==> BackgroundColor(c.value) }

  ghost predicate Unterminated(body: string) {
    forall i :: 0 <= i < |body| ==> body[i] != BEL && !TerminatorAt(body, i)
  }

  ghost predicate GoodLink(link: Hyperlink) {
    && link.url != ""
    && (forall i :: 0 <= i < |link.params| ==> link.params[i] != ';')
    && Unterminated(LinkBody(link))
  }

  ghost predicate Good(s: Style) {
    && GoodForeground(s.fgColor) && GoodBackground(s.bgColor)
    && (s.link.Some? ==> GoodLink(s.link.value))
  }

  // ---------- Splitting and joining ----------

  lemma {:induction false} SplitAtSemicolon(a: string, b: string)
    ensures Split(a + ";" + b) == Split(a) + Split(b)
  {
    if a == "" {
      assert a + ";" + b == ";" + b;
      assert (";" + b)[1..] == b;
    } else {
      assert (a + ";" + b)[1..] == a[1..] + ";" + b;
      SplitAtSemicolon(a[1..], b);
    }
  }

  lemma {:induction false} SplitDigits(s: string)
    requires Digits(s)
    ensures Split(s) == [s]
  {
    if s != "" {
      SplitDigits(s[1..]);
      assert [s[0]] + s[1..] == s;
    }
  }

  lemma {:induction false} SplitJoin(parts: seq<string>)
    requires parts != [] && Parts(parts)
    ensures Split(Join(parts)) == parts
    ensures ParamChars(Join(parts))
  {
    SplitDigits(parts[0]);
    if |parts| > 1 {
      SplitJoin(parts[1..]);
      SplitAtSemicolon(parts[0], Join(parts[1..]));
      assert [parts[0]] + parts[1..] == parts;
    } else {
      assert parts == [parts[0]];
    }
  }

  lemma {:induction false} SplitParts(s: string)
    requires ParamChars(s)
    ensures Parts(Split(s)) && Join(Split(s)) == s
  {
    if s != "" {
      SplitParts(s[1..]);
      var rest := Split(s[1..]);
      if s[0] == ';' {
        assert ([""] + rest)[1..] == rest;
        assert [s[0]] + s[1..] == s;
      } else {
        var parts := Split(s);
        assert parts[1..] == rest[1..];
        assert [s[0]] + s[1..] == s;
      }
    }
  }

  lemma {:induction false} ToStringValue(n: nat)
    ensures Digits(ToString(n)) && ToString(n) != "" && Value(ToString(n)) == n && ParseInt(ToString(n)) == n
  {
    if n < 10 {
      assert ToString(n)[..0] == "";
    } else {
      ToStringValue(n / 10);
      var s := ToString(n);
      assert s[..|s| - 1] == ToString(n / 10);
    }
  }

  // ---------- Written renditions are read back ----------

  // The parts of several codes joined with semicolons.
  function AllParts(codes: seq<string>): seq<string> {
    if codes == [] then [] else Split(codes[0]) + AllParts(codes[1..])
  }

  lemma {:induction false} SplitJoinedCodes(codes: seq<string>)
    requires codes != []
    ensures Split(Join(codes)) == AllParts(codes)
  {
    if |codes| > 1 {
      SplitAtSemicolon(codes[0], Join(codes[1..]));
      SplitJoinedCodes(codes[1..]);
    } else {
      assert codes[1..] == [];
    }
  }

  lemma FlagReadBack(s: Style, on: bool, code: string, rest: seq<string>)
    requires Digits(code) && code != "" && Value(code) < 10
    ensures ApplyParts(s, AllParts(Flag(on, code) + rest)) ==
              ApplyParts(if on then Standard(s, Value(code)) else s, AllParts(rest))
  {
    var codes := Flag(on, code) + rest;
    if on {
      SplitDigits(code);
      assert codes[1..] == rest;
      var parts := AllParts(codes);
      assert parts[0] == code && parts[1..] == AllParts(rest);
      assert ColorLength(parts) == 0;
    } else {
      assert codes == rest;
    }
  }

  lemma StandardReadBack(s: Style, c: string, rest: seq<string>)
    requires Digits(c) && c != "" && (Foreground(ParseInt(c)) || Background(ParseInt(c)))
    ensures ApplyParts(s, AllParts([c] + rest)) == ApplyParts(Standard(s, ParseInt(c)), AllParts(rest))
  {
    SplitDigits(c);
    assert ([c] + rest)[1..] == rest;
    var parts := AllParts([c] + rest);
    assert parts[0] == c && parts[1..] == AllParts(rest);
  }

  lemma ExtendedReadBack(s: Style, c: string, rest: seq<string>)
    requires Extended(c, 38) || Extended(c, 48)
    ensures ApplyParts(s, AllParts([c] + rest)) ==
              ApplyParts(if Extended(c, 38) then s.(fgColor := Some(c)) else s.(bgColor := Some(c)), AllParts(rest))
  {
    assert ([c] + rest)[1..] == rest;
    var own := Split(c);
    var parts := own + AllParts(rest);
    SplitParts(c);
    assert parts[..|own|] == own && parts[|own|..] == AllParts(rest);
    assert ColorLength(parts) == |own|;
  }

  lemma ForegroundReadBack(s: Style, c: Option<string>, rest: seq<string>)
    requires s.fgColor == None && GoodForeground(c)
    ensures ApplyParts(s, AllParts(OptionalCode(c) + rest)) == ApplyParts(s.(fgColor := c), AllParts(rest))
  {
    if c == None {
      assert OptionalCode(c) + rest == rest;
    } else if Extended(c.value, 38) {
      ExtendedReadBack(s, c.value, rest);
    } else {
      StandardReadBack(s, c.value, rest);
    }
  }

  lemma BackgroundReadBack(s: Style, c: Option<string>, rest: seq<string>)
    requires s.bgColor == None && GoodBackground(c)
    ensures ApplyParts(s, AllParts(OptionalCode(c) + rest)) == ApplyParts(s.(bgColor := c), AllParts(rest))
  {
    if c == None {
      assert OptionalCode(c) + rest == rest;
    } else if Extended(c.value, 48) {
      ExtendedReadBack(s, c.value, rest);
    } else {
      StandardReadBack(s, c.value, rest);
    }
  }

  lemma ColorsReadBack(s: Style, fg: Option<string>, bg: Option<string>)
    requires GoodForeground(fg) && GoodBackground(bg) && s.fgColor == None && s.bgColor == None
    ensures ApplyParts(s, AllParts(OptionalCode(fg) + OptionalCode(bg))) == s.(fgColor := fg, bgColor := bg)
  {
    ForegroundReadBack(s, fg, OptionalCode(bg));
    var t := s.(fgColor := fg);
    BackgroundReadBack(t, bg, []);
    assert OptionalCode(bg) + [] == OptionalCode(bg);
    assert AllParts([]) == [];
  }

  lemma FlagValues()
    ensures Value("1") == 1 && Value("2") == 2 && Value("3") == 3 && Value("4") == 4
    ensures Value("5") == 5 && Value("7") == 7 && Value("8") == 8 && Value("9") == 9
  {
    assert "1"[..0] == "" && "2"[..0] == "" && "3"[..0] == "" && "4"[..0] == "";
    assert "5"[..0] == "" && "7"[..0] == "" && "8"[..0] == "" && "9"[..0] == "";
  }

  lemma FirstFlagsReadBack(t: Style, rest: seq<string>)
    ensures ApplyParts(CLEAR, AllParts(Flag(t.bold, "1") + (Flag(t.dim, "2") + (Flag(t.italic, "3")
                                       + (Flag(t.underline, "4") + rest))))) ==
              ApplyParts(CLEAR.(bold := t.bold, dim := t.dim, italic := t.italic, underline := t.underline),
                         AllParts(rest))
  {
    FlagValues();
    var c4 := Flag(t.underline, "4") + rest;
    var c3 := Flag(t.italic, "3") + c4;
    FlagReadBack(CLEAR, t.bold, "1", Flag(t.dim, "2") + c3);
    FlagReadBack(CLEAR.(bold := t.bold), t.dim, "2", c3);
    FlagReadBack(CLEAR.(bold := t.bold, dim := t.dim), t.italic, "3", c4);
    FlagReadBack(CLEAR.(bold := t.bold, dim := t.dim, italic := t.italic), t.underline, "4", rest);
  }

  lemma BlinkInverseReadBack(s: Style, t: Style, rest: seq<string>)
    requires !s.blink && !s.inverse
    ensures ApplyParts(s, AllParts(Flag(t.blink, "5") + (Flag(t.inverse, "7") + rest))) ==
              ApplyParts(s.(blink := t.blink, inverse := t.inverse), AllParts(rest))
  {
    FlagValues();
    FlagReadBack(s, t.blink, "5", Flag(t.inverse, "7") + rest);
    FlagReadBack(s.(blink := t.blink), t.inverse, "7", rest);
  }

  lemma HiddenStrikethroughReadBack(s: Style, t: Style, rest: seq<string>)
    requires !s.hidden && !s.strikethrough
    ensures ApplyParts(s, AllParts(Flag(t.hidden, "8") + (Flag(t.strikethrough, "9") + rest))) ==
              ApplyParts(s.(hidden := t.hidden, strikethrough := t.strikethrough), AllParts(rest))
  {
    FlagValues();
    FlagReadBack(s, t.hidden, "8", Flag(t.strikethrough, "9") + rest);
    FlagReadBack(s.(hidden := t.hidden), t.strikethrough, "9", rest);
  }

  // All parameters of a written style, read from a clear style, restore it up to the hyperlink.
  lemma CodesReadBack(t: Style)
    requires Good(t)
    ensures ApplyParts(CLEAR, AllParts(Codes(t))) == t.(link := None)
  {
    var colors := OptionalCode(t.fgColor) + OptionalCode(t.bgColor);
    var last := Flag(t.hidden, "8") + (Flag(t.strikethrough, "9") + colors);
    var s := CLEAR.(bold := t.bold, dim := t.dim, italic := t.italic, underline := t.underline);
    FirstFlagsReadBack(t, Flag(t.blink, "5") + (Flag(t.inverse, "7") + last));
    BlinkInverseReadBack(s, t, last);
    s := s.(blink := t.blink, inverse := t.inverse);
    HiddenStrikethroughReadBack(s, t, colors);
    ColorsReadBack(s.(hidden := t.hidden, strikethrough := t.strikethrough), t.fgColor, t.bgColor);
  }

  // ---------- A written style is one rendition sequence and one hyperlink sequence ----------

  predicate ParamCodes(codes: seq<string>) {
    codes == [] || (ParamChars(codes[0]) && ParamCodes(codes[1..]))
  }

  lemma {:induction false} CodesAreParams(codes: seq<string>)
    requires ParamCodes(codes)
    ensures ParamChars(Join(codes))
  {
    if |codes| > 1 {
      CodesAreParams(codes[1..]);
    }
  }

  lemma FlagIsParams(on: bool, code: string, rest: seq<string>)
    requires ParamChars(code) && ParamCodes(rest)
    ensures ParamCodes(Flag(on, code) + rest)
  {
    var codes := Flag(on, code) + rest;
    assert if on then codes[1..] == rest else codes == rest;
  }

  lemma ColorIsParams(c: Option<string>, rest: seq<string>)
    requires ParamCodes(rest) && (c.Some? ==> ForegroundColor(c.value) || BackgroundColor(c.value))
    ensures ParamCodes(OptionalCode(c) + rest)
  {
    var codes := OptionalCode(c) + rest;
    assert if c.Some? then codes[1..] == rest else codes == rest;
  }

  lemma ColorsAreParams(t: Style)
    requires Good(t)
    ensures ParamCodes(OptionalCode(t.fgColor) + OptionalCode(t.bgColor))
  {
    ColorIsParams(t.bgColor, []);
    assert OptionalCode(t.bgColor) + [] == OptionalCode(t.bgColor);
    ColorIsParams(t.fgColor, OptionalCode(t.bgColor));
  }

  lemma FlagsAreParams(on1: bool, code1: string, on2: bool, code2: string, rest: seq<string>)
    requires ParamChars(code1) && ParamChars(code2) && ParamCodes(rest)
    ensures ParamCodes(Flag(on1, code1) + (Flag(on2, code2) + rest))
  {
    FlagIsParams(on2, code2, rest);
    FlagIsParams(on1, code1, Flag(on2, code2) + rest);
  }

  lemma StyleCodesAreParams(t: Style)
    requires Good(t)
    ensures ParamCodes(Codes(t))
  {
    ColorsAreParams(t);
    var colors := OptionalCode(t.fgColor) + OptionalCode(t.bgColor);
    FlagsAreParams(t.hidden, "8", t.strikethrough, "9", colors);
    var last := Flag(t.hidden, "8") + (Flag(t.strikethrough, "9") + colors);
    FlagsAreParams(t.blink, "5", t.inverse, "7", last);
    var middle := Flag(t.blink, "5") + (Flag(t.inverse, "7") + last);
    FlagsAreParams(t.italic, "3", t.underline, "4", middle);
    FlagsAreParams(t.bold, "1", t.dim, "2", Flag(t.italic, "3") + (Flag(t.underline, "4") + middle));
  }

  // Parameter characters run up to the final byte.
  lemma {:induction false} ParamsScanned(s: string, j: nat, end: nat)
    requires j <= end < |s| && ParamChars(s[j..end]) && s[end] == 'm'
    ensures ControlSequenceEnd(s, j, false) == Some(end + 1)
    ensures ParamsEnd(s, j) == end
    decreases end - j
  {
    if j < end {
      assert s[j..end][0] == s[j];
      assert s[j..end][1..] == s[j + 1..end];
      ParamsScanned(s, j + 1, end);
    }
  }

  lemma SgrCodeReadBack(s: Style, params: string, rest: string)
    requires ParamChars(params)
    ensures var code := "\U{1b}[" + params + "m";
            EndAt(code + rest, 0) == Some(|code|) && Process(s, code) == ProcessSgr(s, params)
  {
    var code := "\U{1b}[" + params + "m";
    assert (code + rest)[2..2 + |params|] == params && code[2..2 + |params|] == params;
    ParamsScanned(code + rest, 2, 2 + |params|);
    ParamsScanned(code, 2, 2 + |params|);
    assert code[1] == '[' && !(OSC8 <= code);
    assert SgrParams(code, 0) == Some(params);
  }

  // Nothing before j ends the control string.
  lemma {:induction false} UnterminatedScanned(s: string, i: nat, j: nat)
    requires i <= j <= |s|
    requires forall k :: i <= k < j ==> s[k] != BEL && !TerminatorAt(s, k)
    ensures ControlStringEnd(s, i, true) == ControlStringEnd(s, j, true)
    decreases j - i
  {
    if i < j {
      UnterminatedScanned(s, i + 1, j);
    }
  }

  lemma LinkCodeScanned(body: string, terminator: string)
    requires Unterminated(body) && (terminator == [BEL] || terminator == ST)
    ensures EndAt(OSC8 + body + terminator, 0) == Some(4 + |body| + |terminator|)
  {
    var code, bodyEnd := OSC8 + body + terminator, 4 + |body|;
    forall k | 2 <= k < bodyEnd
      ensures code[k] != BEL && !TerminatorAt(code, k)
    {
      if 4 <= k {
        assert code[k] == body[k - 4] != BEL && !TerminatorAt(body, k - 4);
        assert k + 1 < bodyEnd ==> code[k + 1] == body[k + 1 - 4];
      }
    }
    UnterminatedScanned(code, 2, bodyEnd);
    assert code[bodyEnd] == terminator[0];
    assert terminator == ST ==> code[bodyEnd + 1] == terminator[1];
  }

  lemma LinkBodyParsed(link: Hyperlink)
    requires GoodLink(link)
    ensures var body := LinkBody(link);
            && FirstSemicolon(body) == |link.params|
            && body[..|link.params|] == link.params && body[|link.params| + 1..] == link.url
  {
    var body := LinkBody(link);
    assert body[|link.params|] == ';';
    assert forall j :: 0 <= j < |link.params| ==> body[j] == link.params[j];
  }

  lemma LinkCodeReadBack(link: Hyperlink)
    requires GoodLink(link)
    ensures EndAt(FormatLink(link), 0) == Some(|FormatLink(link)|)
    ensures ParseOsc8(FormatLink(link)) == OpenLink(link)
  {
    var body := LinkBody(link);
    var code := FormatLink(link);
    LinkCodeScanned(body, Terminator(link.bel));
    LinkBodyParsed(link);
    assert code[4..4 + |body|] == body;
  }

  // ---------- Scanning does not depend on what comes before ----------

  function Shifted(end: Option<int>, n: int): Option<int> {
    if end.Some? then Some(end.value + n) else None
  }

  lemma {:induction false} SequenceShifts(a: string, b: string, j: nat, hasIntermediate: bool)
    ensures ControlSequenceEnd(a + b, |a| + j, hasIntermediate)
      == Shifted(ControlSequenceEnd(b, j, hasIntermediate), |a|)
    decreases |b| - j
  {
    if j < |b| {
      assert (a + b)[|a| + j] == b[j];
      assert |a| + (j + 1) == |a| + j + 1;
      SequenceShifts(a, b, j + 1, false);
      SequenceShifts(a, b, j + 1, true);
    }
  }

  lemma {:induction false} StringShifts(a: string, b: string, j: nat, allowBel: bool)
    ensures ControlStringEnd(a + b, |a| + j, allowBel) == Shifted(ControlStringEnd(b, j, allowBel), |a|)
    decreases |b| - j
  {
    if j < |b| {
      assert (a + b)[|a| + j] == b[j];
      assert j + 1 < |b| ==> (a + b)[|a| + j + 1] == b[j + 1];
      assert |a| + (j + 1) == |a| + j + 1;
      StringShifts(a, b, j + 1, allowBel);
    }
  }

  lemma EndShifts(a: string, b: string, pos: nat)
    ensures EndAt(a + b, |a| + pos) == Shifted(EndAt(b, pos), |a|)
  {
    if pos + 1 < |b| {
      assert (a + b)[|a| + pos] == b[pos] && (a + b)[|a| + pos + 1] == b[pos + 1];
      assert |a| + (pos + 2) == |a| + pos + 2;
      SequenceShifts(a, b, pos + 2, false);
      StringShifts(a, b, pos + 2, BelAllowed(b[pos + 1]));
    }
  }

  lemma {:induction false} CodesShift(a: string, b: string, pos: nat)
    ensures CodesIn(a + b, |a| + pos) == CodesIn(b, pos)
    decreases |b| - pos
  {
    if pos < |b| {
      EndShifts(a, b, pos);
      match EndAt(b, pos)
      case Some(end) =>
        assert (a + b)[|a| + pos..|a| + end] == b[pos..end];
        CodesShift(a, b, end);
      case None =>
        assert |a| + (pos + 1) == |a| + pos + 1;
        CodesShift(a, b, pos + 1);
    }
  }

  lemma FirstCode(code: string, rest: string)
    requires EndAt(code + rest, 0) == Some(|code|)
    ensures CodesIn(code + rest, 0) == [code] + CodesIn(rest, 0)
  {
    assert (code + rest)[0..|code|] == code;
    CodesShift(code, rest, 0);
  }

  lemma CodesInActive(t: Style)
    requires Good(t)
    ensures CodesIn(ActiveCodes(t), 0) == SgrCodes(t) + LinkCodes(t)
  {
    if t.link.Some? {
      LinkCodeReadBack(t.link.value);
      assert LinkCode(t) + "" == LinkCode(t);
      FirstCode(LinkCode(t), "");
    }
    if Codes(t) == [] {
      assert ActiveCodes(t) == LinkCode(t);
    } else {
      StyleCodesAreParams(t);
      CodesAreParams(Codes(t));
      SgrCodeReadBack(CLEAR, Join(Codes(t)), LinkCode(t));
      FirstCode(SgrCode(t), LinkCode(t));
    }
  }

  // The empty parameter list and the single zero both mean a reset, which a clear style does not feel.
  lemma ClearStaysClear()
    ensures ApplyParts(CLEAR, Split("")) == CLEAR && ApplyParts(CLEAR, Split("0")) == CLEAR
  {
    SplitDigits("");
    SplitDigits("0");
    assert "0"[..0] == "";
  }

  lemma SgrRestores(t: Style)
    requires Good(t) && Codes(t) != []
    ensures Process(CLEAR, SgrCode(t)) == t.(link := None)
  {
    var params := Join(Codes(t));
    StyleCodesAreParams(t);
    CodesAreParams(Codes(t));
    SgrCodeReadBack(CLEAR, params, "");
    SplitJoinedCodes(Codes(t));
    CodesReadBack(t);
    ClearStaysClear();
  }

  lemma NoCodesNoStyle(t: Style)
    requires Good(t) && Codes(t) == []
    ensures t.(link := None) == CLEAR
  {
    CodesReadBack(t);
  }

  function SgrCodes(t: Style): seq<string> { if Codes(t) == [] then [] else [SgrCode(t)] }

  function LinkCodes(t: Style): seq<string> { if t.link == None then [] else [LinkCode(t)] }

  lemma SgrCodesRestore(t: Style)
    requires Good(t)
    ensures ProcessAll(CLEAR, SgrCodes(t)) == t.(link := None)
  {
    ProcessAtMostOne(CLEAR, SgrCodes(t));
    if Codes(t) == [] {
      NoCodesNoStyle(t);
    } else {
      SgrRestores(t);
    }
  }

  lemma LinkCodesRestore(t: Style)
    requires Good(t)
    ensures ProcessAll(t.(link := None), LinkCodes(t)) == t
  {
    ProcessAtMostOne(t.(link := None), LinkCodes(t));
    if t.link.Some? {
      LinkRestores(t.(link := None), t.link.value);
    }
  }

  /** Reading back the codes written for a style, from a clear style, restores exactly that style. */
  lemma ActiveCodesReadBack(t: Style)
    requires Good(t)
    ensures Decode(ActiveCodes(t), CLEAR) == t
  {
    CodesInActive(t);
    ProcessAllConcat(CLEAR, SgrCodes(t), LinkCodes(t));
    SgrCodesRestore(t);
    LinkCodesRestore(t);
  }

  lemma ProcessAtMostOne(s: Style, codes: seq<string>)
    requires |codes| <= 1
    ensures ProcessAll(s, codes) == if codes == [] then s else Process(s, codes[0])
  {
    if codes != [] {
      assert codes[1..] == [];
    }
  }

  lemma {:induction false} ProcessAllConcat(s: Style, a: seq<string>, b: seq<string>)
    ensures ProcessAll(s, a + b) == ProcessAll(ProcessAll(s, a), b)
    decreases |a|
  {
    if a == [] {
      assert a + b == b;
    } else {
      assert (a + b)[1..] == a[1..] + b;
      ProcessAllConcat(Process(s, a[0]), a[1..], b);
    }
  }

  lemma LinkRestores(s: Style, link: Hyperlink)
    requires GoodLink(link)
    ensures Process(s, FormatLink(link)) == s.(link := Some(link))
  {
    LinkCodeReadBack(link);
  }

  lemma LinkOff(s: Style, bel: bool)
    ensures Process(s, FormatClose(bel)) == s.(link := None)
  {
    assert ParseOsc8(FormatClose(bel)) == CloseLink by { CloseParsed(bel); }
  }

  lemma CloseParsed(bel: bool)
    ensures ParseOsc8(FormatClose(bel)) == CloseLink
  {
    var code := FormatClose(bel);
    assert code[|code| - 1] == if bel then BEL else '\\';
    assert code[4..|code| - |Terminator(bel)|] == ";" && ";"[1..] == "";
  }

  // ---------- What a tracker reaches is good ----------

  lemma JoinedColorIsExtended(parts: seq<string>)
    requires Parts(parts) && parts != [] && ColorLength(parts) == |parts|
    ensures Extended(Join(parts), ParseInt(parts[0]))
  {
    SplitJoin(parts);
  }

  lemma NumberIsColor(code: int)
    requires Foreground(code) || Background(code)
    ensures if Foreground(code) then ForegroundColor(ToString(code)) else BackgroundColor(ToString(code))
  {
    ToStringValue(code);
  }

  lemma StandardKeepsGood(s: Style, code: int)
    requires Good(s)
    ensures Good(Standard(s, code)) && Standard(s, code).link == s.link
  {
    if Foreground(code) || Background(code) {
      NumberIsColor(code);
    }
  }

  lemma ColorKeepsGood(s: Style, parts: seq<string>)
    requires Good(s) && Parts(parts) && parts != [] && ColorLength(parts) == |parts|
    ensures Good(WithColor(s, parts)) && WithColor(s, parts).link == s.link
  {
    JoinedColorIsExtended(parts);
    var c := Join(parts);
    assert if ParseInt(parts[0]) == 38 then ForegroundColor(c) else BackgroundColor(c);
  }

  lemma {:induction false} PartsKeepGood(s: Style, parts: seq<string>)
    requires Good(s) && Parts(parts)
    ensures Good(ApplyParts(s, parts)) && ApplyParts(s, parts).link == s.link
    decreases |parts|
  {
    if parts != [] {
      var n := ColorLength(parts);
      if n != 0 {
        assert ColorLength(parts[..n]) == n;
        ColorKeepsGood(s, parts[..n]);
        PartsKeepGood(WithColor(s, parts[..n]), parts[n..]);
      } else {
        StandardKeepsGood(s, ParseInt(parts[0]));
        PartsKeepGood(Standard(s, ParseInt(parts[0])), parts[1..]);
      }
    }
  }

  lemma SgrKeepsGood(s: Style, params: string)
    requires Good(s) && ParamChars(params)
    ensures Good(ProcessSgr(s, params))
  {
    if params != "" && params != "0" {
      SplitParts(params);
      PartsKeepGood(s, Split(params));
    }
  }

  // A control string runs up to its first terminator.
  lemma {:induction false} FirstTerminatorEnds(s: string, j: nat)
    requires ControlStringEnd(s, j, true).Some?
    ensures var end := ControlStringEnd(s, j, true).value;
            var e := if s[end - 1] == BEL then end - 1 else end - 2;
            j <= e && (s[e] == BEL || TerminatorAt(s, e))
            && forall k :: j <= k < e ==> s[k] != BEL && !TerminatorAt(s, k)
    decreases |s| - j
  {
    if s[j] != BEL && !TerminatorAt(s, j) {
      FirstTerminatorEnds(s, j + 1);
    }
  }

  // The text of an extracted command lies before its terminator.
  lemma ExtractedBody(text: string, pos: nat)
    requires pos < |text| && EndAt(text, pos).Some? && OSC8 <= text[pos..EndAt(text, pos).value]
    ensures var code := text[pos..EndAt(text, pos).value];
            var bodyEnd := |code| - |Terminator(EndsWith(code, BEL))|;
            4 <= bodyEnd && Unterminated(code[4..bodyEnd])
  {
    var end := EndAt(text, pos).value;
    var code := text[pos..end];
    assert code[1] == text[pos + 1] == ']' && code[2] == text[pos + 2] == '8' && code[3] == text[pos + 3] == ';';
    FirstTerminatorEnds(text, pos + 2);
    assert code[|code| - 1] == text[end - 1];
    var e := if text[end - 1] == BEL then end - 1 else end - 2;
    SliceOfSlice(text, pos, end, 4, e - pos);
    UnterminatedSlice(text, pos + 4, e);
  }

  lemma UnterminatedSlice(text: string, from: nat, to: nat)
    requires from <= to <= |text| && forall k :: from <= k < to ==> text[k] != BEL && !TerminatorAt(text, k)
    ensures Unterminated(text[from..to])
  {
    var body := text[from..to];
    forall i | 0 <= i < |body|
      ensures body[i] != BEL && !TerminatorAt(body, i)
    {
      assert text[from + i] != BEL && !TerminatorAt(text, from + i);
    }
  }

  lemma LinkKeepsGood(code: string)
    requires OSC8 <= code
    requires var bodyEnd := |code| - |Terminator(EndsWith(code, BEL))|; 4 <= bodyEnd && Unterminated(code[4..bodyEnd])
    ensures ParseOsc8(code).OpenLink? ==> GoodLink(ParseOsc8(code).link)
  {
    if ParseOsc8(code).OpenLink? {
      var link := ParseOsc8(code).link;
      var body := code[4..|code| - |Terminator(EndsWith(code, BEL))|];
      var i := FirstSemicolon(body);
      assert LinkBody(link) == body[..i] + ";" + body[i + 1..] == body;
    }
  }

  lemma ProcessKeepsGood(s: Style, text: string, pos: nat)
    requires Good(s) && pos < |text| && EndAt(text, pos).Some?
    ensures Good(Process(s, text[pos..EndAt(text, pos).value]))
  {
    var code := text[pos..EndAt(text, pos).value];
    if OSC8 <= code {
      ExtractedBody(text, pos);
      LinkKeepsGood(code);
    }
    if SgrParams(code, 0).Some? {
      SgrKeepsGood(s, SgrParams(code, 0).value);
    }
  }

  lemma {:induction false} CodesKeepGood(s: Style, text: string, pos: nat)
    requires Good(s)
    ensures Good(ProcessAll(s, CodesIn(text, pos)))
    decreases |text| - pos
  {
    if pos < |text| {
      match EndAt(text, pos)
      case Some(end) =>
        ProcessKeepsGood(s, text, pos);
        FirstOfCodes(s, text, pos, end);
        CodesKeepGood(Process(s, text[pos..end]), text, end);
      case None => CodesKeepGood(s, text, pos + 1);
    }
  }

  lemma FirstOfCodes(s: Style, text: string, pos: nat, end: int)
    requires pos < |text| && EndAt(text, pos) == Some(end)
    ensures ProcessAll(s, CodesIn(text, pos)) == ProcessAll(Process(s, text[pos..end]), CodesIn(text, end))
  {
    assert ([text[pos..end]] + CodesIn(text, end))[1..] == CodesIn(text, end);
  }

  /** Whatever text a tracker has been fed, the codes it writes put a cleared tracker into exactly the same
      state: every attribute, both colours, and the hyperlink with its parameters and terminator. */
  lemma TrackerRoundTrip(text: string)
    ensures Decode(ActiveCodes(Decode(text, CLEAR)), CLEAR) == Decode(text, CLEAR)
    ensures Good(Decode(text, CLEAR))
  {
    CodesKeepGood(CLEAR, text, 0);
    ActiveCodesReadBack(Decode(text, CLEAR));
  }

  // ---------- The tracker ----------

  class AnsiCodeTracker {
    var style: Style

    constructor ()
      ensures style == CLEAR
    {
      style := CLEAR;
    }

    method ProcessCode(code: string)
      modifies this
      ensures style == Process(old(style), code)
    {
      var hyperlink := ParseOsc8(code);
      if hyperlink != NotOsc8 {
        style := style.(link := if hyperlink.OpenLink? then Some(hyperlink.link) else None);
        return;
      }
      if !EndsWith(code, 'm') {
        return;
      }
      var matched := SgrParams(code, 0);
      if matched == None {
        return;
      }
      var params := matched.value;
      if params == "" || params == "0" {
        style := Reset(style);
        return;
      }
      ProcessParts(Split(params));
    }

    // Extended colours take up several parts.
    method ProcessParts(parts: seq<string>)
      modifies this
      ensures style == ApplyParts(old(style), parts)
    {
      var i := 0;
      while i < |parts|
        invariant 0 <= i <= |parts|
        invariant ApplyParts(old(style), parts) == ApplyParts(style, parts[i..])
      {
        var code := ParseInt(parts[i]);
        var rest := parts[i..];
        if code == 38 || code == 48 {
          if i + 2 < |parts| && parts[i + 1] == "5" {
            SetColor(code, parts[i] + ";" + (parts[i + 1] + ";" + parts[i + 2]), rest, 3);
            assert rest[3..] == parts[i + 3..];
            i := i + 3;
            continue;
          } else if i + 4 < |parts| && parts[i + 1] == "2" {
            SetColor(code, parts[i] + ";"
                     + (parts[i + 1] + ";" + (parts[i + 2] + ";" + (parts[i + 3] + ";" + parts[i + 4]))),
                     rest, 5);
            assert rest[5..] == parts[i + 5..];
            i := i + 5;
            continue;
          }
        }
        style := Standard(style, code);
        assert rest[1..] == parts[i + 1..];
        i := i + 1;
      }
    }

    method SetColor(code: int, color: string, ghost parts: seq<string>, ghost n: nat)
      requires n == ColorLength(parts) && n != 0 && code == ParseInt(parts[0])
      requires color == if n == 3 then parts[0] + ";" + (parts[1] + ";" + parts[2])
                        else parts[0] + ";" + (parts[1] + ";" + (parts[2] + ";" + (parts[3] + ";" + parts[4])))
      modifies this
      ensures style == WithColor(old(style), parts[..n])
    {
      JoinedColor(parts, n);
      if code == 38 {
        style := style.(fgColor := Some(color));
      } else {
        style := style.(bgColor := Some(color));
      }
    }

    // Every escape sequence of a text.
    method UpdateFromText(text: string)
      modifies this
      ensures style == Decode(text, old(style))
    {
      var extract := new Extractor(text);
      var i := 0;
      while i < |text|
        invariant extract.Valid() && extract.text == text && fresh(extract)
        invariant ProcessAll(style, CodesIn(text, i)) == Decode(text, old(style))
        decreases |text| - i
      {
        var end := extract.ExtractAnsiEndAt(i);
        if end.Some? {
          FirstOfCodes(style, text, i, end.value);
          ProcessCode(text[i..end.value]);
          i := end.value;
        } else {
          i := i + 1;
        }
      }
    }
  }

  lemma JoinedColor(parts: seq<string>, n: nat)
    requires n == ColorLength(parts) && n != 0
    ensures Join(parts[..n]) == if n == 3 then parts[0] + ";" + (parts[1] + ";" + parts[2])
                                else parts[0] + ";" + (parts[1] + ";" + (parts[2] + ";" + (parts[3] + ";" + parts[4])))
  {
    var own := parts[..n];
    JoinStep(own);
    JoinStep(own[1..]);
    if n == 5 {
      JoinStep(own[2..]);
      JoinStep(own[3..]);
      assert own[1..][1..] == own[2..] && own[2..][1..] == own[3..] && own[3..][1..] == own[4..] == [parts[4]];
    } else {
      assert own[1..][1..] == own[2..] == [parts[2]];
    }
  }

  lemma JoinStep(parts: seq<string>)
    requires |parts| > 1
    ensures Join(parts) == parts[0] + ";" + Join(parts[1..])
  {
  }
}
