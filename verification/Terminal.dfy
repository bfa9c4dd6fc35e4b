/** A terminal screen and the few control sequences the inline renderer writes to it.

    A row holds the text written to it since it was last cleared.  Relative moves stop at the
    screen edges, and a move that had to be cut short is remembered in `clamped` until the
    screen is cleared.  A line feed on the bottom row pushes the top row into the scrollback.
 */
module Terminal {

  datatype Screen = Screen(
    scrollback: seq<string>,
    rows: seq<string>,
    row: int,
    col: int,
    clamped: bool)
  {
    ghost predicate Valid() {
      0 <= row < |rows| && 0 <= col
    }

    predicate Blank() {
      forall r :: 0 <= r < |rows| ==> rows[r] == ""
    }
  }

  datatype Op =
    | Up(n: int)              // ESC [ n A
    | Down(n: int)            // ESC [ n B
    | Column(n: int)          // ESC [ n G, counted from 1
    | Return                  // CR
    | NewLine                 // CR LF
    | ClearLine               // ESC [ 2 K
    | ClearScreen             // ESC [ 2 J ESC [ H
    | Text(text: string)

  // A relative move with a count of zero still moves by one.
  function Count(n: int): int {
    if n < 1 then 1 else n
  }

  // `text` written from column `col` replaces the cells it covers.
  function Overwrite(row: string, col: nat, text: string): string {
    var padded := if |row| < col then row + seq(col - |row|, _ => ' ') else row;
    padded[..col] + text + (if col + |text| < |padded| then padded[col + |text|..] else "")
  }

  function Apply(s: Screen, op: Op): (r: Screen)
    requires s.Valid()
    ensures r.Valid() && |r.rows| == |s.rows|
    ensures s.scrollback <= r.scrollback
  {
    match op
    case Up(n) =>
      if Count(n) <= s.row then s.(row := s.row - Count(n)) else s.(row := 0, clamped := true)
    case Down(n) =>
      if s.row + Count(n) < |s.rows| then s.(row := s.row + Count(n))
      else s.(row := |s.rows| - 1, clamped := true)
    case Column(n) => s.(col := Count(n) - 1)
    case Return => s.(col := 0)
    case NewLine =>
      if s.row + 1 < |s.rows| then s.(row := s.row + 1, col := 0)
      else s.(scrollback := s.scrollback + [s.rows[0]], rows := s.rows[1..] + [""], col := 0)
    case ClearLine => s.(rows := s.rows[s.row := ""])
    case ClearScreen => s.(rows := seq(|s.rows|, _ => ""), row := 0, col := 0, clamped := false)
    case Text(text) =>
      s.(rows := s.rows[s.row := Overwrite(s.rows[s.row], s.col, text)], col := s.col + |text|)
  }

  // The screen after the terminal has received a whole buffer.
  function Play(s: Screen, ops: seq<Op>): (r: Screen)
    requires s.Valid()
    ensures r.Valid() && |r.rows| == |s.rows|
    ensures s.scrollback <= r.scrollback
  {
    if ops == [] then s else Apply(Play(s, ops[..|ops| - 1]), ops[|ops| - 1])
  }

  lemma PlayOne(s: Screen, ops: seq<Op>, op: Op)
    requires s.Valid()
    ensures Play(s, ops + [op]) == Apply(Play(s, ops), op)
  {
    assert (ops + [op])[..|ops|] == ops;
  }

  /** Row r of the screen shows line `top + r` of `lines` as far as `painted`, and further down
      what it showed when line `base` was on the top row. */
  ghost predicate Painted(s: Screen, lines: seq<string>, base: int, top: int, painted: int, under: seq<string>) {
    && s.Valid()
    && 0 <= base <= top && painted <= |lines| && |s.rows| == |under|
    && forall r :: 0 <= r < |s.rows| ==>
         s.rows[r] == if top + r < painted then lines[top + r]
                      else if top + r - base < |under| then under[top + r - base]
                      else ""
  }

  // Going to the next line after painting up to it scrolls exactly when it lies below the screen.
  lemma NextLine(s: Screen, lines: seq<string>, base: int, top: int, painted: int, under: seq<string>)
    requires Painted(s, lines, base, top, painted, under)
    requires s.row == painted - 1 - top
    ensures var top' := if painted - top < |s.rows| then top else top + 1;
            var s' := Apply(s, NewLine);
            && Painted(s', lines, base, top', painted, under)
            && s'.row == painted - top' && s'.col == 0 && s'.clamped == s.clamped
            && s'.scrollback == s.scrollback + lines[top..top']
  {
    var s' := Apply(s, NewLine);
    if painted - top < |s.rows| {
      assert lines[top..top] == [];
    } else {
      assert s.rows[0] == lines[top];
      assert lines[top..top + 1] == [lines[top]];
      forall r | 0 <= r < |s'.rows|
        ensures s'.rows[r] == if top + 1 + r < painted then lines[top + 1 + r]
                              else if top + 1 + r - base < |under| then under[top + 1 + r - base]
                              else ""
      {
        if r + 1 < |s.rows| {
          assert s'.rows[r] == s.rows[r + 1];
          assert top + (r + 1) == top + 1 + r;
        }
      }
    }
  }

  // Writing the next line onto a row that is empty, or cleared first, shows exactly that line.
  lemma PaintLine(s: Screen, lines: seq<string>, base: int, top: int, painted: int, under: seq<string>)
    requires Painted(s, lines, base, top, painted, under)
    requires painted < |lines| && s.row == painted - top && s.col == 0
    ensures var c := Apply(s, ClearLine);
            var s' := Apply(c, Text(lines[painted]));
            && Painted(s', lines, base, top, painted + 1, under)
            && s'.row == s.row && s'.clamped == s.clamped && s'.scrollback == s.scrollback
    ensures s.rows[s.row] == "" ==> Apply(s, ClearLine) == s
  {
    if s.rows[s.row] == "" {
      assert s.rows[s.row := ""] == s.rows;
    }
  }

  // What writing one more line does: go to the next row unless it is the first, and write on an empty row.
  function WriteLine(s: Screen, first: bool, line: string): (r: Screen)
    requires s.Valid()
    ensures r.Valid() && |r.rows| == |s.rows|
  {
    Apply(Apply(if first then s else Apply(s, NewLine), ClearLine), Text(line))
  }

  lemma SliceJoin(text: seq<string>, lines: seq<string>, a: int, b: int, c: int)
    requires 0 <= a <= b <= c <= |lines|
    ensures text + lines[a..b] + lines[b..c] == text + lines[a..c]
  {
    assert lines[a..b] + lines[b..c] == lines[a..c];
  }

  lemma WriteLinePaints(s: Screen, first: bool, lines: seq<string>, base: int, top: int, painted: int,
                        under: seq<string>)
    requires Painted(s, lines, base, top, painted, under)
    requires painted < |lines|
    requires if first then s.row == painted - top && s.col == 0 else s.row == painted - 1 - top
    ensures var top' := if first || painted - top < |under| then top else top + 1;
            var s' := WriteLine(s, first, lines[painted]);
            && Painted(s', lines, base, top', painted + 1, under)
            && s'.row == painted - top' && s'.clamped == s.clamped
            && s'.scrollback == s.scrollback + lines[top..top']
  {
    if first {
      PaintLine(s, lines, base, top, painted, under);
      assert lines[top..top] == [];
    } else {
      NextLine(s, lines, base, top, painted, under);
      var top' := if painted - top < |under| then top else top + 1;
      PaintLine(Apply(s, NewLine), lines, base, top', painted, under);
    }
  }
}
