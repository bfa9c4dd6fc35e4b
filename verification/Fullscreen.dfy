/** The fullscreen viewport (packages/tui/src/fullscreen.ts): a scrolled window over a transcript above a dock, and a
    row by row repaint of the screen with absolute addressing. A line is a sequence of escape sequences and of
    graphemes with their widths.
 */
module Fullscreen {
  import opened Basics
  import AnsiWrap

  type Line = AnsiWrap.Text

  const MIN_TRANSCRIPT_ROWS := 3

  function Width(line: Line): nat { AnsiWrap.Width(line) }

  lemma WidthNext(line: Line, n: nat)
    requires n < |line|
    ensures Width(line[..n + 1]) == Width(line[..n]) + line[n].Width()
  {
    assert line[..n + 1][..n] == line[..n];
  }

  // Where a line is cut off: as soon as it is full, or before a grapheme that would reach over the edge.
  function CutFrom(line: Line, width: nat, n: nat): (cut: nat)
    requires n <= |line| && Width(line[..n]) <= width
    ensures n <= cut <= |line| && Width(line[..cut]) <= width
    ensures cut < |line| ==> Width(line[..cut]) == width || Width(line[..cut + 1]) > width
    ensures forall m :: n <= m < cut ==> Width(line[..m]) < width
    decreases |line| - n
  {
    if n == |line| || Width(line[..n]) >= width || Width(line[..n + 1]) > width then n
    else CutFrom(line, width, n + 1)
  }

  function Clamp(line: Line, width: nat): (clamped: Line)
    ensures Width(clamped) <= width && clamped <= line && (Width(line) <= width ==> clamped == line)
  {
    if Width(line) > width then line[..CutFrom(line, width, 0)] else line
  }

  // A line that is too wide is cut as late as it can be, but as soon as it is full.
  lemma CutWhenFull(line: Line, width: nat)
    requires Width(line) > width
    ensures var cut := Clamp(line, width);
      && |cut| < |line| && cut == line[..|cut|] && (Width(cut) == width || Width(line[..|cut| + 1]) > width)
      && forall m :: 0 <= m < |cut| ==> Width(line[..m]) < width
  {
    assert line[..|line|] == line;
  }

  // The columns of a line up to a width; a wide grapheme is not split.
  method SliceByColumn(line: Line, length: nat) returns (result: Line)
    ensures result == line[..CutFrom(line, length, 0)]
  {
    result := [];
    if length <= 0 {
      return;
    }
    var currentCol := 0;
    for i := 0 to |line|
      invariant result == line[..i] && currentCol == Width(result) < length
      invariant CutFrom(line, length, 0) == CutFrom(line, length, i)
    {
      WidthNext(line, i);
      TakeNext(line, i);
      if line[i].Code? {
        result := result + [line[i]];
      } else {
        if currentCol + line[i].width <= length {
          result := result + [line[i]];
        }
        currentCol := currentCol + line[i].width;
        if currentCol >= length {
          return;
        }
      }
    }
  }

  // ---------- The screen ----------

  datatype PaintOp = ClearAll | MoveTo(row: int, col: int) | EraseLine | Print(line: Line)

  // A row holds what has been written to it since it was erased. What runs over the edge, or is not written to an
  // erased row from its start, shears the grid.
  datatype Grid = Grid(rows: seq<Line>, width: nat, row: nat, col: nat, sheared: bool)

  function ClampTo(x: int, n: nat): nat { if x < 0 || n == 0 then 0 else if x >= n then n - 1 else x }

  function Empty(n: nat): (rows: seq<Line>)
    ensures |rows| == n
  {
    seq(n, i => [])
  }

  function Apply(g: Grid, op: PaintOp): Grid {
    match op
    case ClearAll => g.(rows := Empty(|g.rows|))
    case MoveTo(row, col) => g.(row := ClampTo(row, |g.rows|), col := ClampTo(col, g.width))
    case EraseLine => if g.row < |g.rows| then g.(rows := g.rows[g.row := []]) else g
    case Print(line) =>
      if g.row >= |g.rows| || g.rows[g.row] != [] || g.col != 0 || Width(line) > g.width then g.(sheared := true)
      else g.(rows := g.rows[g.row := line], col := Width(line))
  }

  function Play(g: Grid, ops: seq<PaintOp>): Grid {
    if ops == [] then g else Apply(Play(g, ops[..|ops| - 1]), ops[|ops| - 1])
  }

  lemma {:induction false} PlayConcat(g: Grid, a: seq<PaintOp>, b: seq<PaintOp>)
    ensures Play(g, a + b) == Play(Play(g, a), b)
  {
    if b == [] {
      assert a + b == a;
    } else {
      assert (a + b)[..|a + b| - 1] == a + b[..|b| - 1];
      PlayConcat(g, a, b[..|b| - 1]);
    }
  }

  // One row rewritten: only that row changes.
  lemma RowPainted(g: Grid, row: nat, line: Line)
    requires row < |g.rows| && Width(line) <= g.width
    ensures var h := Play(g, [MoveTo(row, 0), EraseLine, Print(line)]);
      && h.rows == g.rows[row := line] && h.width == g.width && h.sheared == g.sheared
  {
    var move, erase, text := MoveTo(row, 0), EraseLine, Print(line);
    hide Play;
    PlayThree(g, move, erase, text);
    assert Apply(g, move) == g.(row := row, col := 0);
    var erased := g.rows[row := []];
    assert Apply(Apply(g, move), erase) == g.(rows := erased, row := row, col := 0);
    assert erased[row := line] == g.rows[row := line];
  }

  lemma PlayThree(g: Grid, a: PaintOp, b: PaintOp, c: PaintOp)
    ensures Play(g, [a, b, c]) == Apply(Apply(Apply(g, a), b), c)
  {
    PlaySnoc(g, [], a);
    PlaySnoc(g, [a], b);
    PlaySnoc(g, [a, b], c);
    assert [] + [a] == [a] && [a] + [b] == [a, b] && [a, b] + [c] == [a, b, c];
  }

  lemma PlaySnoc(g: Grid, ops: seq<PaintOp>, op: PaintOp)
    ensures Play(g, ops + [op]) == Apply(Play(g, ops), op)
  {
    assert (ops + [op])[..|ops|] == ops;
  }

  // ---------- Frames ----------

  // Row r of a frame; a frame taller than the screen loses its top, a shorter one is blank below.
  function FrameRow(frame: seq<Line>, height: nat, r: nat): Line {
    var from := Max(0, |frame| - height);
    if from + r < |frame| then frame[from + r] else []
  }

  lemma FrameFits(frame: seq<Line>, height: nat)
    requires |frame| <= height
    ensures forall r :: 0 <= r < |frame| ==> FrameRow(frame, height, r) == frame[r]
  {
  }

  // Only the end of a frame that is too tall is looked at.
  lemma FrameCut(frame: seq<Line>, lines: seq<Line>, height: nat)
    requires lines == if |frame| > height then frame[|frame| - height..] else frame
    ensures lines == frame[Max(0, |frame| - height)..]
    ensures forall r :: 0 <= r < height ==> FrameRow(frame, height, r) == FrameRow(lines, height, r)
  {
  }

  ghost predicate Shows(g: Grid, frame: seq<Line>, width: nat, height: nat) {
    && |g.rows| == height && g.width == width && !g.sheared
    && forall r :: 0 <= r < height ==> g.rows[r] == Clamp(FrameRow(frame, height, r), width)
  }

  // The rows of the dock on a screen: the transcript keeps some.
  function DockRows(dock: seq<Line>, height: nat): nat { Min(|dock|, Max(0, height - MIN_TRANSCRIPT_ROWS)) }

  // The window over the transcript from `top` on, blank where that ends, and the end of the dock.
  ghost predicate Composed(frame: seq<Line>, transcript: seq<Line>, dock: seq<Line>, height: nat, top: int,
                           window: int) {
    && |frame| == height && 0 <= top && window == height - DockRows(dock, height)
    && (forall r :: 0 <= r < window ==> frame[r] == Window(transcript, top, r))
    && frame[window..] == dock[|dock| - DockRows(dock, height)..]
  }

  class FullscreenViewport {
    var scrollTop: int
    var following: bool
    var prevFrame: seq<Line>
    var prevWidth: nat
    var prevHeight: nat
    var lastMaxScroll: int
    var lastWindowHeight: int

    // The scroll position is within bounds; following means being at the bottom.
    predicate Valid()
      reads this
    {
      && 0 <= scrollTop <= lastMaxScroll && (following ==> scrollTop == lastMaxScroll)
      && |prevFrame| <= prevHeight
    }

    constructor ()
      ensures Valid() && following && prevFrame == [] && lastMaxScroll == 0
    {
      scrollTop, following, prevFrame, prevWidth, prevHeight := 0, true, [], 0, 0;
      lastMaxScroll, lastWindowHeight := 0, 0;
    }

    /** A frame of exactly `height` rows: the window over the transcript, blank where it ends, and the end of the
        dock. Following pins the window to the end of the transcript; otherwise it stays where it is if it can. */
    method ComposeFrame(transcript: seq<Line>, dock: seq<Line>, height: nat) returns (frame: seq<Line>)
      requires Valid()
      modifies `scrollTop, `lastMaxScroll, `lastWindowHeight
      ensures Valid() && |frame| == height
      ensures lastWindowHeight == height - DockRows(dock, height)
      ensures lastMaxScroll == Max(0, |transcript| - lastWindowHeight)
      ensures scrollTop == if following then lastMaxScroll else Min(old(scrollTop), lastMaxScroll)
      ensures Composed(frame, transcript, dock, height, scrollTop, lastWindowHeight)
    {
      var dockLines := dock;
      var dockHeight := Min(|dockLines|, Max(0, height - MIN_TRANSCRIPT_ROWS));
      if |dockLines| > dockHeight {
        dockLines := dockLines[|dockLines| - dockHeight..];
      }
      var windowHeight := height - |dockLines|;
      var maxScroll := Max(0, |transcript| - windowHeight);
      if following {
        scrollTop := maxScroll;
      } else {
        scrollTop := Max(0, Min(scrollTop, maxScroll));
      }
      lastMaxScroll := maxScroll;
      lastWindowHeight := windowHeight;
      var window := transcript[scrollTop..Min(scrollTop + windowHeight, |transcript|)];
      while |window| < windowHeight
        modifies {}
        invariant |window| <= windowHeight
        invariant forall r :: 0 <= r < |window| ==> window[r] == Window(transcript, scrollTop, r)
        invariant scrollTop + |window| < |transcript| ==> |window| == windowHeight
      {
        window := window + [[]];
      }
      frame := window + dockLines;
    }

    // Scrolling up stops following, reaching the bottom resumes it.
    method ScrollBy(delta: int)
      requires Valid()
      modifies `scrollTop, `following
      ensures Valid() && scrollTop == Max(0, Min(old(scrollTop) + delta, lastMaxScroll))
      ensures following <==> scrollTop == lastMaxScroll
    {
      var base := if following then lastMaxScroll else scrollTop;
      scrollTop := Max(0, Min(base + delta, lastMaxScroll));
      following := scrollTop >= lastMaxScroll;
    }

    method ScrollToTop()
      requires Valid()
      modifies `scrollTop, `following
      ensures Valid() && scrollTop == 0 && (following <==> scrollTop == lastMaxScroll)
    {
      scrollTop := 0;
      following := lastMaxScroll == 0;
    }

    method ScrollToBottom()
      requires Valid()
      modifies `scrollTop, `following
      ensures Valid() && scrollTop == lastMaxScroll && following
    {
      scrollTop := lastMaxScroll;
      following := true;
    }

    // What the screen shows if nothing else has written to it; after a reset nothing is known.
    ghost predicate Coupled(g: Grid)
      reads this
    {
      prevFrame == [] || Shows(g, prevFrame, prevWidth, prevHeight)
    }

    method Reset()
      requires Valid()
      modifies `prevFrame
      ensures Valid() && forall g :: Coupled(g)
    {
      prevFrame := [];
    }

    /** Whatever was skipped, the screen shows the new frame afterwards. A screen of another size than the last one
        may hold anything beforehand. */
    method Paint(frame: seq<Line>, width: nat, height: nat, cursorPos: Option<(nat, nat)>, ghost g: Grid)
        returns (buffer: seq<PaintOp>)
      requires Valid() && g.width == width && |g.rows| == height && !g.sheared
      requires width == prevWidth && height == prevHeight ==> Coupled(g)
      modifies `prevFrame, `prevWidth, `prevHeight
      ensures Valid() && Shows(Play(g, buffer), frame, width, height) && Coupled(Play(g, buffer))
      ensures prevFrame == frame[Max(0, |frame| - height)..] && prevWidth == width && prevHeight == height
      ensures cursorPos.Some? && height > 0 ==>
        var h := Play(g, buffer);
        h.row == Min(cursorPos.value.0, height - 1) && h.col == ClampTo(cursorPos.value.1, width)
    {
      hide Clamp, FrameRow;
      var lines := if |frame| > height then frame[|frame| - height..] else frame;
      buffer := [];
      if width != prevWidth || height != prevHeight || |prevFrame| == 0 {
        buffer := [ClearAll, MoveTo(0, 0)];
        prevFrame := [];
        Cleared(g);
      }
      FrameFits(prevFrame, prevHeight);
      buffer := PaintRows(lines, width, height, buffer, g);
      if cursorPos.Some? {
        var move := MoveTo(Min(cursorPos.value.0, height - 1), cursorPos.value.1);
        PlayConcat(g, buffer, [move]);
        assert [move][..0] == [];
        buffer := buffer + [move];
      }
      prevFrame, prevWidth, prevHeight := lines, width, height;
      FrameCut(frame, lines, height);
    }

    // Rows that have not changed are skipped.
    method PaintRows(lines: seq<Line>, width: nat, height: nat, before: seq<PaintOp>, ghost g: Grid)
        returns (buffer: seq<PaintOp>)
      requires |lines| <= height && |prevFrame| <= height
      requires var h := Play(g, before);
        |h.rows| == height && h.width == width && !h.sheared
        && forall r :: 0 <= r < |prevFrame| ==> h.rows[r] == Clamp(prevFrame[r], width)
      ensures Shows(Play(g, buffer), lines, width, height)
    {
      hide Clamp, Play;
      buffer := before;
      for row := 0 to height
        invariant PaintedTo(Play(g, buffer), prevFrame, lines, width, height, row)
      {
        var line := if row < |lines| then lines[row] else [];
        if row < |prevFrame| && prevFrame[row] == line {
          continue;
        }
        buffer := PaintRow(lines, width, height, row, buffer, g);
      }
    }

    // An overwide line would wrap and shear the grid; it is cut off instead.
    method PaintRow(lines: seq<Line>, width: nat, height: nat, row: nat, before: seq<PaintOp>, ghost g: Grid)
        returns (buffer: seq<PaintOp>)
      requires row < height && PaintedTo(Play(g, before), prevFrame, lines, width, height, row)
      requires |lines| <= height
      ensures PaintedTo(Play(g, buffer), prevFrame, lines, width, height, row + 1)
    {
      var line := if row < |lines| then lines[row] else [];
      var text := line;
      if Width(line) > width {
        text := SliceByColumn(line, width);
      }
      assert text == Clamp(FrameRow(lines, height, row), width);
      hide Clamp, Play, FrameRow, Width;
      var ops := [MoveTo(row, 0), EraseLine, Print(text)];
      PlayConcat(g, before, ops);
      RowPainted(Play(g, before), row, text);
      RowDone(Play(g, before), Play(g, before + ops), prevFrame, lines, width, height, row);
      buffer := before + ops;
    }

    // What a composed frame shows, row by row.
    lemma FrameShown(g: Grid, frame: seq<Line>, width: nat, height: nat)
      requires Shows(g, frame, width, height) && |frame| == height
      ensures |g.rows| == height && g.width == width && !g.sheared
      ensures forall r :: 0 <= r < height ==> g.rows[r] == Clamp(frame[r], width)
    {
      hide Clamp;
      forall r | 0 <= r < height ensures g.rows[r] == Clamp(frame[r], width) {
        assert FrameRow(frame, height, r) == frame[r];
      }
    }

    lemma DockRow(frame: seq<Line>, dock: seq<Line>, from: nat)
      requires from <= |frame| <= from + |dock| && frame[from..] == dock[|dock| - (|frame| - from)..]
      ensures forall r :: from <= r < |frame| ==> frame[r] == dock[|dock| - |frame| + r]
    {
      forall r | from <= r < |frame| ensures frame[r] == dock[|dock| - |frame| + r] {
        assert frame[r] == frame[from..][r - from];
      }
    }

    lemma RowsShown(g: Grid, frame: seq<Line>, action: Action, top: nat, window: nat)
      requires action.Render? && Shows(g, frame, action.width, action.height)
      requires Composed(frame, action.transcript, action.dock, action.height, top, window)
      ensures |g.rows| == action.height && g.width == action.width && !g.sheared
      ensures forall r :: 0 <= r < window ==> g.rows[r] == Clamp(Window(action.transcript, top, r), action.width)
      ensures forall r :: window <= r < action.height ==>
        g.rows[r] == Clamp(action.dock[|action.dock| - action.height + r], action.width)
    {
      hide Clamp, Window, Shows;
      FrameShown(g, frame, action.width, action.height);
      DockRow(frame, action.dock, window);
    }

    // The window over the transcript, and below it the whole dock, or its end if it would leave less than three rows.
    method RenderFrame(action: Action, ghost g: Grid) returns (ghost g': Grid)
      requires action.Render? && Valid() && Coupled(g) && !g.sheared
      requires prevFrame != [] ==> |g.rows| == prevHeight && g.width == prevWidth
      modifies this
      ensures Valid() && Coupled(g') && !g'.sheared && |g'.rows| == prevHeight && g'.width == prevWidth
      ensures Shows(g', prevFrame, action.width, action.height) && |prevFrame| == |g'.rows| == action.height
      ensures following == old(following) && lastWindowHeight == action.height - DockRows(action.dock, action.height)
        && lastMaxScroll == Max(0, |action.transcript| - lastWindowHeight)
        && scrollTop == (if following then lastMaxScroll else Min(old(scrollTop), lastMaxScroll))
      ensures forall r :: 0 <= r < lastWindowHeight ==>
        g'.rows[r] == Clamp(Window(action.transcript, scrollTop, r), action.width)
      ensures if |action.dock| + 3 <= action.height then lastWindowHeight == action.height - |action.dock|
              else lastWindowHeight == Min(3, action.height)
      ensures forall r :: lastWindowHeight <= r < action.height ==>
        g'.rows[r] == Clamp(action.dock[|action.dock| - action.height + r], action.width)
    {
      hide Clamp, Play, Window, Shows, Empty, Composed;
      var width, height := action.width, action.height;
      var frame := ComposeFrame(action.transcript, action.dock, height);
      ghost var top, window, found := scrollTop, lastWindowHeight, g;
      if width != prevWidth || height != prevHeight || prevFrame == [] {
        ghost var contents: seq<Line> := *;
        found := Grid(if |contents| == height then contents else Empty(height), width, 0, 0, false);
      }
      var buffer := Paint(frame, width, height, action.cursorPos, found);
      g' := Play(found, buffer);
      DropNone(frame);
      RowsShown(g', frame, action, top, window);
    }

    /** Any step of a session: composing and painting, scrolling, or starting over because something else has
        written to the screen. A screen of a new size may hold anything. */
    method Perform(action: Action, ghost g: Grid) returns (ghost g': Grid)
      requires Valid() && Coupled(g) && !g.sheared
      requires prevFrame != [] ==> |g.rows| == prevHeight && g.width == prevWidth
      modifies this
      ensures Valid() && Coupled(g') && !g'.sheared
      ensures prevFrame != [] ==> |g'.rows| == prevHeight && g'.width == prevWidth
      ensures action.Render? ==>
        && Shows(g', prevFrame, action.width, action.height) && |prevFrame| == |g'.rows| == action.height
        && following == old(following) && lastWindowHeight == action.height - DockRows(action.dock, action.height)
        && lastMaxScroll == Max(0, |action.transcript| - lastWindowHeight)
        && scrollTop == (if following then lastMaxScroll else Min(old(scrollTop), lastMaxScroll))
        && (forall r :: 0 <= r < lastWindowHeight ==>
              g'.rows[r] == Clamp(Window(action.transcript, scrollTop, r), action.width))
        && (if |action.dock| + 3 <= action.height then lastWindowHeight == action.height - |action.dock|
            else lastWindowHeight == Min(3, action.height))
        && (forall r :: lastWindowHeight <= r < action.height ==>
              g'.rows[r] == Clamp(action.dock[|action.dock| - action.height + r], action.width))
      ensures action.Scroll? ==>
        && scrollTop == Max(0, Min(old(scrollTop) + action.delta, lastMaxScroll))
        && (following <==> scrollTop == lastMaxScroll)
      ensures action.ToTop? ==> scrollTop == 0 && (following <==> lastMaxScroll == 0)
      ensures action.ToBottom? ==> scrollTop == lastMaxScroll && following
      ensures action.StartOver? ==> scrollTop == old(scrollTop) && following == old(following)
      ensures !action.Render? ==> lastMaxScroll == old(lastMaxScroll)
    {
      hide Clamp, Window;
      g' := g;
      match action
      case Render(_, _, _, _, _) => g' := RenderFrame(action, g);
      case Scroll(delta) => ScrollBy(delta);
      case ToTop => ScrollToTop();
      case ToBottom => ScrollToBottom();
      case StartOver => Reset();
    }

    /** Any run of such steps; when it ends in a render, the screen shows the window over its transcript. */
    method PlaySession(actions: seq<Action>, ghost g: Grid) returns (ghost g': Grid)
      requires Valid() && prevFrame == [] && !g.sheared
      modifies this
      ensures Valid() && Coupled(g') && !g'.sheared
      ensures prevFrame != [] ==> |g'.rows| == prevHeight && g'.width == prevWidth
      ensures actions != [] && actions[|actions| - 1].Render? ==> ShowsWindow(g', actions[|actions| - 1])
    {
      g' := g;
      for i := 0 to |actions|
        invariant Valid() && Coupled(g') && !g'.sheared
        invariant prevFrame != [] ==> |g'.rows| == prevHeight && g'.width == prevWidth
        invariant i > 0 && actions[i - 1].Render? ==> ShowsWindow(g', actions[i - 1])
      {
        g' := Perform(actions[i], g');
      }
    }

    // The top rows of the screen show the transcript from the scroll position on.
    ghost predicate ShowsWindow(g: Grid, render: Action)
      requires render.Render?
      reads this
    {
      && 0 <= scrollTop <= lastMaxScroll && (following ==> scrollTop == lastMaxScroll)
      && lastWindowHeight == render.height - DockRows(render.dock, render.height)
      && lastMaxScroll == Max(0, |render.transcript| - lastWindowHeight)
      && |g.rows| == render.height
      && (forall r :: 0 <= r < lastWindowHeight ==>
            g.rows[r] == Clamp(Window(render.transcript, scrollTop, r), render.width))
    }

    // The window shows these lines of a transcript at this place, and does not follow.
    ghost predicate FrozenOn(g: Grid, shown: Action, top: int)
      requires shown.Render?
      reads this
    {
      && Valid() && Coupled(g) && !g.sheared && !following
      && (prevFrame != [] ==> |g.rows| == prevHeight && g.width == prevWidth)
      && lastWindowHeight == shown.height - DockRows(shown.dock, shown.height) && |g.rows| == shown.height
      && scrollTop == top <= Max(0, |shown.transcript| - lastWindowHeight)
      && (forall r :: 0 <= r < lastWindowHeight && top + r < |shown.transcript| ==>
            g.rows[r] == Clamp(shown.transcript[top + r], shown.width))
    }

    // One more render, of a transcript that has grown: the window stays where it is and shows the same lines.
    method RenderMore(shown: Action, render: Action, ghost g: Grid) returns (ghost g': Grid)
      requires shown.Render? && render.Render? && Grows(shown, render) && FrozenOn(g, shown, scrollTop)
      modifies this
      ensures FrozenOn(g', shown, old(scrollTop)) && ShowsWindow(g', render)
    {
      hide Shows, Coupled, Clamp;
      ghost var more := render.transcript[|shown.transcript|..];
      assert render.transcript == shown.transcript + more;
      FrozenWindow(shown.transcript, more, scrollTop, lastWindowHeight);
      g' := Perform(render, g);
    }

    /** While the viewport does not follow, a transcript that grows in any number of renders changes none of its
        lines on screen, as long as the dock keeps its rows. */
    method RenderGrowing(renders: seq<Action>, ghost g: Grid) returns (ghost first: Grid, ghost last: Grid)
      requires Valid() && Coupled(g) && !g.sheared && !following && renders != []
      requires prevFrame != [] ==> |g.rows| == prevHeight && g.width == prevWidth
      requires forall i :: 0 <= i < |renders| ==> renders[i].Render?
      requires forall i :: 0 <= i < |renders| ==> Grows(renders[0], renders[i])
      modifies this
      ensures scrollTop == Min(old(scrollTop), Max(0, |renders[0].transcript| - lastWindowHeight))
      ensures FrozenOn(last, renders[0], scrollTop) && |first.rows| == |last.rows|
      ensures forall r :: 0 <= r < lastWindowHeight && scrollTop + r < |renders[0].transcript| ==>
        last.rows[r] == first.rows[r]
      ensures ShowsWindow(last, renders[|renders| - 1])
    {
      hide Shows, Coupled, Clamp;
      first := Perform(renders[0], g);
      last := first;
      ghost var top, window := scrollTop, lastWindowHeight;
      for i := 1 to |renders|
        invariant scrollTop == top && lastWindowHeight == window
        invariant |first.rows| == |last.rows| && !following
        invariant FrozenOn(last, renders[0], top) && ShowsWindow(last, renders[i - 1])
      {
        last := RenderMore(renders[0], renders[i], last);
      }
    }

    /** While the viewport follows, a render shows the end of the transcript. */
    method RenderFollowing(render: Action, ghost g: Grid) returns (ghost g': Grid)
      requires Valid() && Coupled(g) && !g.sheared && following && render.Render?
      requires prevFrame != [] ==> |g.rows| == prevHeight && g.width == prevWidth
      modifies this
      ensures Valid() && Coupled(g') && following && lastWindowHeight <= render.height == |g'.rows|
      ensures var shown := Min(lastWindowHeight, |render.transcript|);
        forall r :: 0 <= r < shown ==>
          g'.rows[r] == Clamp(render.transcript[|render.transcript| - shown + r], render.width)
    {
      hide Clamp, Shows, Coupled, Window;
      g' := Perform(render, g);
      var shown := Min(lastWindowHeight, |render.transcript|);
      forall r | 0 <= r < shown
        ensures g'.rows[r] == Clamp(render.transcript[|render.transcript| - shown + r], render.width)
      {
        WindowAtEnd(render.transcript, lastWindowHeight, r);
      }
    }
  }

  datatype Action =
    | Render(transcript: seq<Line>, dock: seq<Line>, width: nat, height: nat, cursorPos: Option<(nat, nat)>)
    | Scroll(delta: int) | ToTop | ToBottom | StartOver

  // The rows above are painted, those from `row` on still show the previous frame.
  ghost predicate PaintedTo(h: Grid, prevFrame: seq<Line>, lines: seq<Line>, width: nat, height: nat, row: nat) {
    && |h.rows| == height && h.width == width && !h.sheared && |prevFrame| <= height
    && (forall r :: 0 <= r < row && r < height ==> h.rows[r] == Clamp(FrameRow(lines, height, r), width))
    && (forall r :: row <= r < |prevFrame| ==> h.rows[r] == Clamp(prevFrame[r], width))
  }

  lemma RowDone(h: Grid, h': Grid, prevFrame: seq<Line>, lines: seq<Line>, width: nat, height: nat, row: nat)
    requires PaintedTo(h, prevFrame, lines, width, height, row) && row < height
    requires h'.rows == h.rows[row := Clamp(FrameRow(lines, height, row), width)]
    requires h'.width == h.width && h'.sheared == h.sheared
    ensures PaintedTo(h', prevFrame, lines, width, height, row + 1)
  {
    hide Clamp, FrameRow;
  }

  /** While the window does not follow, appending to the transcript changes no line that it shows. */
  lemma FrozenWindow(transcript: seq<Line>, more: seq<Line>, top: int, windowHeight: int)
    requires 0 <= top <= Max(0, |transcript| - windowHeight) && 0 <= windowHeight
    ensures Min(top, Max(0, |transcript + more| - windowHeight)) == top
    ensures forall r :: 0 <= r < windowHeight && top + r < |transcript| ==>
      Window(transcript + more, top, r) == Window(transcript, top, r)
    ensures |transcript| >= windowHeight ==> forall r :: 0 <= r < windowHeight ==>
      Window(transcript + more, top, r) == Window(transcript, top, r)
  {
  }

  // Scrolled down as far as it goes, the window shows the end.
  lemma WindowAtEnd(transcript: seq<Line>, window: int, r: nat)
    requires r < Min(window, |transcript|)
    ensures Window(transcript, Max(0, |transcript| - window), r)
         == transcript[|transcript| - Min(window, |transcript|) + r]
  {
  }

  // A later render of the same screen, with lines appended to the transcript.
  predicate Grows(a: Action, b: Action)
    requires a.Render? && b.Render?
  {
    && a.width == b.width && a.height == b.height && DockRows(a.dock, a.height) == DockRows(b.dock, b.height)
    && a.transcript <= b.transcript
  }

  function Window(transcript: seq<Line>, scrollTop: int, r: nat): Line
    requires 0 <= scrollTop
  {
    if scrollTop + r < |transcript| then transcript[scrollTop + r] else []
  }

  lemma Cleared(g: Grid)
    ensures Play(g, [ClearAll, MoveTo(0, 0)])
         == Grid(Empty(|g.rows|), g.width, 0, 0, g.sheared)
  {
    PlaySnoc(g, [], ClearAll);
    PlaySnoc(g, [ClearAll], MoveTo(0, 0));
    assert [] + [ClearAll] == [ClearAll] && [ClearAll] + [MoveTo(0, 0)] == [ClearAll, MoveTo(0, 0)];
  }
}
