/** What happens to the component output before it is compared with the previous frame: the cursor
    marker is taken out and every line is closed with a style and hyperlink reset.
 */
module Frames {
  import opened Basics
  import opened Search

  const CURSOR_MARKER: string := "\U{1b}_pi:c\U{07}"
  const SEGMENT_RESET: string := "\U{1b}[0m\U{1b}]8;;\U{07}"

  datatype CursorPos = CursorPos(row: int, col: int)

  // Thai and Lao AM vowels are decomposed, and a tab becomes three spaces.
  function NormalizeChar(c: char): string {
    if c == '\U{0e33}' then "\U{0e4d}\U{0e32}"
    else if c == '\U{0eb3}' then "\U{0ecd}\U{0eb2}"
    else if c == '\t' then "   "
    else [c]
  }

  function Normalize(line: string): string {
    if line == "" then "" else NormalizeChar(line[0]) + Normalize(line[1..])
  }

  function WithReset(line: string): (r: string)
    ensures r != ""
  {
    Normalize(line) + SEGMENT_RESET
  }

  // The last row at or below `low` that holds the marker, or -1.
  function MarkerRow(lines: seq<string>, low: nat): (row: int)
    ensures row == -1 || (low <= row < |lines| && Occurs(lines[row], CURSOR_MARKER))
    ensures forall i :: Max(low, row + 1) <= i < |lines| ==> !Occurs(lines[i], CURSOR_MARKER)
  {
    if |lines| <= low then -1
    else if IndexOf(lines[|lines| - 1], CURSOR_MARKER) != -1 then |lines| - 1
    else MarkerRow(lines[..|lines| - 1], low)
  }

  function WithoutMarker(line: string): string {
    var at := IndexOf(line, CURSOR_MARKER);
    if at == -1 then line else line[..at] + line[at + |CURSOR_MARKER|..]
  }

  // The cursor lies where the marker was; only the bottom `height` lines are looked at.
  function CursorOf(lines: seq<string>, height: nat): (pos: Option<CursorPos>)
    ensures pos.Some? ==> Max(0, |lines| - height) <= pos.value.row < |lines|
  {
    var row := MarkerRow(lines, Max(0, |lines| - height));
    if row == -1 then None else Some(CursorPos(row, IndexOf(lines[row], CURSOR_MARKER)))
  }

  function Stripped(lines: seq<string>, height: nat): (r: seq<string>)
    ensures |r| == |lines|
  {
    var row := MarkerRow(lines, Max(0, |lines| - height));
    if row == -1 then lines else lines[row := WithoutMarker(lines[row])]
  }

  // The lines that are compared and painted.
  function Prepared(lines: seq<string>, height: nat): (r: seq<string>)
    ensures |r| == |lines|
    ensures forall i :: 0 <= i < |r| ==> r[i] != ""
  {
    var stripped := Stripped(lines, height);
    seq(|stripped|, i requires 0 <= i < |stripped| => WithReset(stripped[i]))
  }

  lemma {:induction false} MarkerRowIs(lines: seq<string>, low: nat, row: int)
    requires row == -1 || (low <= row < |lines| && Occurs(lines[row], CURSOR_MARKER))
    requires forall i :: Max(low, row + 1) <= i < |lines| ==> !Occurs(lines[i], CURSOR_MARKER)
    ensures MarkerRow(lines, low) == row
  {
    var found := MarkerRow(lines, low);
    assert found != -1 ==> found < Max(low, row + 1);
    assert row != -1 ==> row < Max(low, found + 1);
  }

  method ExtractCursorPosition(lines: seq<string>, height: nat) returns (stripped: seq<string>, pos: Option<CursorPos>)
    ensures stripped == Stripped(lines, height) && pos == CursorOf(lines, height)
  {
    var viewportTop := Max(0, |lines| - height);
    var row := |lines| - 1;
    while row >= viewportTop
      invariant viewportTop - 1 <= row < |lines|
      invariant forall i :: row < i < |lines| ==> !Occurs(lines[i], CURSOR_MARKER)
    {
      var line := lines[row];
      var markerIndex := IndexOf(line, CURSOR_MARKER);
      if markerIndex != -1 {
        MarkerRowIs(lines, viewportTop, row);
        stripped := lines[row := line[..markerIndex] + line[markerIndex + |CURSOR_MARKER|..]];
        return stripped, Some(CursorPos(row, markerIndex));
      }
      row := row - 1;
    }
    MarkerRowIs(lines, viewportTop, -1);
    return lines, None;
  }

  method ApplyLineResets(lines: seq<string>) returns (r: seq<string>)
    ensures r == seq(|lines|, i requires 0 <= i < |lines| => WithReset(lines[i]))
  {
    r := lines;
    for i := 0 to |lines|
      invariant |r| == |lines|
      invariant forall j :: 0 <= j < i ==> r[j] == WithReset(lines[j])
      invariant forall j :: i <= j < |lines| ==> r[j] == lines[j]
    {
      r := r[i := WithReset(r[i])];
    }
  }

  // ---------- What the lines carry ----------

  // No tab, and no vowel that is taken apart.
  predicate PlainText(line: string) {
    forall i :: 0 <= i < |line| ==> line[i] != '\t' && line[i] != '\U{0e33}' && line[i] != '\U{0eb3}'
  }

  predicate Unmarked(line: string) { !Occurs(line, "\U{1b}_pi:c\U{07}") }

  lemma {:induction false} NormalizeConcat(a: string, b: string)
    ensures Normalize(a + b) == Normalize(a) + Normalize(b)
  {
    if a == "" {
      assert a + b == b;
    } else {
      assert (a + b)[1..] == a[1..] + b;
      NormalizeConcat(a[1..], b);
      ConcatAssociates(NormalizeChar(a[0]), Normalize(a[1..]), Normalize(b));
    }
  }

  lemma {:induction false} PlainNormalized(line: string)
    requires PlainText(line)
    ensures Normalize(line) == line
  {
    if line != "" {
      PlainNormalized(line[1..]);
      assert [line[0]] + line[1..] == line;
    }
  }

  lemma NormalizeBetween(a: string, c: char, b: string)
    ensures Normalize(a + [c] + b) == Normalize(a) + NormalizeChar(c) + Normalize(b)
  {
    NormalizeConcat(a + [c], b);
    NormalizeConcat(a, [c]);
    assert NormalizeChar(c) + "" == NormalizeChar(c);
  }

  /** Between any two texts a tab becomes three spaces, and the two vowels come apart; plain text stays as it is. */
  lemma TabsAndVowels(a: string, b: string)
    ensures Normalize(a + ['\t'] + b) == Normalize(a) + "   " + Normalize(b)
    ensures Normalize(a + ['\U{0e33}'] + b) == Normalize(a) + "\U{0e4d}\U{0e32}" + Normalize(b)
    ensures Normalize(a + ['\U{0eb3}'] + b) == Normalize(a) + "\U{0ecd}\U{0eb2}" + Normalize(b)
    ensures PlainText(a) ==> Normalize(a + b) == a + Normalize(b)
  {
    hide Normalize;
    NormalizeBetween(a, '\t', b);
    NormalizeBetween(a, '\U{0e33}', b);
    NormalizeBetween(a, '\U{0eb3}', b);
    if PlainText(a) {
      NormalizeConcat(a, b);
      PlainNormalized(a);
    }
  }

  // A line is painted with its text and the reset.
  lemma PlainPrepared(lines: seq<string>, height: nat, i: nat)
    requires i < |lines| && PlainText(lines[i])
    requires forall k :: 0 <= k < |lines| ==> Unmarked(lines[k])
    ensures Prepared(lines, height)[i] == lines[i] + "\U{1b}[0m\U{1b}]8;;\U{07}"
    ensures CursorOf(lines, height) == None
  {
    MarkerRowIs(lines, Max(0, |lines| - height), -1);
    PlainNormalized(lines[i]);
  }

  /** The marker says where the cursor is and is cut out, with the text on both sides kept; the other lines stay. */
  lemma MarkerCut(lines: seq<string>, height: nat, row: nat, a: string, b: string)
    requires row < |lines| && |lines| - height <= row && lines[row] == a + "\U{1b}_pi:c\U{07}" + b
    requires Unmarked(a + "\U{1b}_pi:c") && forall k :: row < k < |lines| ==> Unmarked(lines[k])
    ensures CursorOf(lines, height) == Some(CursorPos(row, |a|))
    ensures Stripped(lines, height) == lines[row := a + b]
    ensures Prepared(lines, height) == seq(|lines|, i requires 0 <= i < |lines| =>
      Normalize(if i == row then a + b else lines[i]) + "\U{1b}[0m\U{1b}]8;;\U{07}")
  {
    MarkedAt(a, b);
    MarkerRowIs(lines, Max(0, |lines| - height), row);
    var line := lines[row];
    assert line[..|a|] == a && line[|a| + |CURSOR_MARKER|..] == b;
  }

  // Above the bottom `height` lines no marker is looked for.
  lemma MarkerAbove(lines: seq<string>, height: nat)
    requires forall k :: Max(0, |lines| - height) <= k < |lines| ==> Unmarked(lines[k])
    ensures CursorOf(lines, height) == None && Stripped(lines, height) == lines
  {
    MarkerRowIs(lines, Max(0, |lines| - height), -1);
  }

  lemma MarkedAt(a: string, b: string)
    requires Unmarked(a + "\U{1b}_pi:c")
    ensures IndexOf(a + "\U{1b}_pi:c\U{07}" + b, CURSOR_MARKER) == |a|
  {
    var head, line := a + "\U{1b}_pi:c", a + "\U{1b}_pi:c\U{07}" + b;
    assert line[|a|..|a| + |CURSOR_MARKER|] == CURSOR_MARKER;
    assert OccursAt(line, CURSOR_MARKER, |a|);
    var at := IndexOf(line, CURSOR_MARKER);
    if at < |a| {
      assert head[at..at + |CURSOR_MARKER|] == line[at..at + |CURSOR_MARKER|];
      assert OccursAt(head, CURSOR_MARKER, at);
    }
  }
}
