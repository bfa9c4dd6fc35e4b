/** The inline differential renderer: every frame is written with relative moves, line feeds and
    line clears only, and touches just the rows that changed.
 */
module InlineRenderer {
  import opened Basics
  import opened Frames
  import opened InlineSpec
  import opened Terminal

  // One more control sequence for the buffer that is written in one go.
  method Emit(ghost start: Screen, buffer: seq<Op>, op: Op) returns (longer: seq<Op>)
    requires start.Valid()
    ensures longer == buffer + [op]
    ensures Play(start, longer) == Apply(Play(start, buffer), op)
  {
    longer := buffer + [op];
    PlayOne(start, buffer, op);
  }

  // The screen after a relative move by `diff` rows.
  function Moved(s: Screen, diff: int): Screen {
    s.(row := Max(0, Min(s.row + diff, |s.rows| - 1)),
       clamped := s.clamped || !(0 <= s.row + diff < |s.rows|))
  }

  // Moves by `diff` rows: down when positive, up when negative.
  method EmitMove(ghost start: Screen, buffer: seq<Op>, diff: int) returns (longer: seq<Op>)
    requires start.Valid()
    ensures Play(start, longer) == Moved(Play(start, buffer), diff)
  {
    longer := buffer;
    if diff > 0 {
      longer := Emit(start, longer, Down(diff));
    } else if diff < 0 {
      longer := Emit(start, longer, Up(-diff));
    }
  }

  /** The first and the last line that differ, a line past the end counting as empty.  The last
      result says that nothing but new lines at the end is to be written. */
  method FindChanges(previous: seq<string>, lines: seq<string>)
    returns (firstChanged: int, lastChanged: int, appendStart: bool)
    requires NonEmptyLines(previous) && NonEmptyLines(lines)
    ensures firstChanged == -1 <==> previous == lines
    ensures previous != lines ==> firstChanged == CommonPrefix(previous, lines)
    ensures previous != lines ==> firstChanged <= lastChanged < Max(|previous|, |lines|)
    ensures forall i :: lastChanged < i < Max(|previous|, |lines|) ==> LineAt(previous, i) == LineAt(lines, i)
    ensures |previous| < |lines| ==> lastChanged == |lines| - 1
    ensures appendStart <==> |previous| < |lines| && firstChanged == |previous| && firstChanged > 0
  {
    firstChanged, lastChanged := -1, -1;
    var maxLines := Max(|lines|, |previous|);
    for i := 0 to maxLines
      invariant -1 <= firstChanged <= lastChanged < i
      invariant firstChanged == -1 <==> lastChanged == -1
      invariant forall j :: 0 <= j < (if firstChanged == -1 then i else firstChanged) ==>
        LineAt(previous, j) == LineAt(lines, j)
      invariant firstChanged != -1 ==> LineAt(previous, firstChanged) != LineAt(lines, firstChanged)
      invariant lastChanged != -1 ==> LineAt(previous, lastChanged) != LineAt(lines, lastChanged)
      invariant forall j :: lastChanged < j < i ==> LineAt(previous, j) == LineAt(lines, j)
    {
      if LineAt(previous, i) != LineAt(lines, i) {
        if firstChanged == -1 {
          firstChanged := i;
        }
        lastChanged := i;
      }
    }
    if firstChanged == -1 {
      AllSame(previous, lines);
    } else {
      FirstDifference(previous, lines, firstChanged);
    }
    var appendedLines := |lines| > |previous|;
    if appendedLines {
      if firstChanged == -1 {
        firstChanged := |previous|;
      }
      lastChanged := |lines| - 1;
    }
    appendStart := appendedLines && firstChanged == |previous| && firstChanged > 0;
  }

  lemma AllSame(a: seq<string>, b: seq<string>)
    requires NonEmptyLines(a) && NonEmptyLines(b)
    requires forall j :: 0 <= j < Max(|a|, |b|) ==> LineAt(a, j) == LineAt(b, j)
    ensures a == b
  {
    var pastA, pastB := LineAt(b, |a|), LineAt(a, |b|);
    assert |a| == |b|;
    assert forall j :: 0 <= j < |a| ==> a[j] == LineAt(a, j) == LineAt(b, j) == b[j];
  }

  lemma FirstDifference(a: seq<string>, b: seq<string>, k: int)
    requires NonEmptyLines(a) && NonEmptyLines(b)
    requires 0 <= k && LineAt(a, k) != LineAt(b, k)
    requires forall j :: 0 <= j < k ==> LineAt(a, j) == LineAt(b, j)
    ensures k <= |a| && k <= |b| && CommonPrefix(a, b) == k
  {
    var n := CommonPrefix(a, b);
    var pastA, pastB, atN := LineAt(b, |a|), LineAt(a, |b|), LineAt(a, n) == LineAt(b, n);
    assert k <= |a| && k <= |b|;
    assert forall j :: 0 <= j < n ==> a[j] == a[..n][j] == b[..n][j] == b[j];
    assert n <= k;
  }

  // The control sequences for one line: go to the next row unless it is the first, and write there.
  method EmitLine(ghost start: Screen, buffer: seq<Op>, line: string, first: bool, clearFirst: bool)
    returns (longer: seq<Op>)
    requires start.Valid()
    requires clearFirst || OnEmptyRow(Play(start, buffer), first)
    ensures Play(start, longer) == WriteLine(Play(start, buffer), first, line)
  {
    longer := buffer;
    if !first {
      longer := Emit(start, longer, NewLine);
    }
    if clearFirst {
      longer := Emit(start, longer, ClearLine);
    }
    longer := Emit(start, longer, Text(line));
  }

  ghost predicate OnEmptyRow(s: Screen, first: bool)
    requires s.Valid()
  {
    var t := if first then s else Apply(s, NewLine);
    Apply(t, ClearLine) == t
  }

  // Rows below the painted ones are empty on a screen that started out blank.
  lemma BlankBelow(s: Screen, first: bool, lines: seq<string>, base: int, top: int, painted: int, under: seq<string>)
    requires Painted(s, lines, base, top, painted, under)
    requires if first then s.row == painted - top else s.row == painted - 1 - top
    requires forall r :: 0 <= r < |under| ==> under[r] == ""
    ensures OnEmptyRow(s, first)
  {
    if first {
      assert s.rows[s.row := ""] == s.rows;
    } else {
      var t := Apply(s, NewLine);
      assert t.rows[t.row := ""] == t.rows;
    }
  }

  // Line i, right below the lines painted so far.
  method EmitNextLine(ghost start: Screen, buffer: seq<Op>, lines: seq<string>, i: int, first: bool, clearFirst: bool,
                      ghost s: Screen, ghost base: int, ghost top: int, ghost under: seq<string>)
    returns (longer: seq<Op>, ghost after: Screen, ghost top': int)
    requires start.Valid() && s == Play(start, buffer) && i < |lines|
    requires Painted(s, lines, base, top, i, under)
    requires if first then s.row == i - top && s.col == 0 else s.row == i - 1 - top
    requires clearFirst || forall r :: 0 <= r < |under| ==> under[r] == ""
    ensures after == Play(start, longer)
    ensures top' == Max(top, i + 1 - |under|)
    ensures Painted(after, lines, base, top', i + 1, under)
    ensures after.row == i - top' && after.clamped == s.clamped
    ensures after.scrollback == s.scrollback + lines[top..top']
  {
    hide Apply, Play, OnEmptyRow, WriteLine;
    if !clearFirst {
      BlankBelow(s, first, lines, base, top, i, under);
    }
    WriteLinePaints(s, first, lines, base, top, i, under);
    longer := EmitLine(start, buffer, lines[i], first, clearFirst);
    after := Play(start, longer);
    top' := Max(top, i + 1 - |under|);
  }

  /** Writes lines `from` to `to` one below the other, starting on the cursor's row. */
  method EmitLines(ghost start: Screen, buffer: seq<Op>, lines: seq<string>, from: int, to: int, clearFirst: bool,
                   ghost before: Screen, ghost base: int, ghost top: int, ghost under: seq<string>)
    returns (longer: seq<Op>, ghost after: Screen, ghost top': int)
    requires start.Valid() && before == Play(start, buffer) && 0 <= from <= to <= |lines|
    requires Painted(before, lines, base, top, from, under)
    requires before.row == from - top && before.col == 0
    requires clearFirst || forall r :: 0 <= r < |under| ==> under[r] == ""
    ensures after == Play(start, longer)
    ensures top' == Max(top, to - |under|)
    ensures Painted(after, lines, base, top', to, under)
    ensures if to == from then after == before else after.row == to - 1 - top'
    ensures after.clamped == before.clamped
    ensures after.scrollback == before.scrollback + lines[top..top']
  {
    hide Apply, Play, OnEmptyRow;
    longer, after, top' := buffer, before, top;
    for i := from to to
      invariant after == Play(start, longer)
      invariant top' == Max(top, i - |under|)
      invariant Painted(after, lines, base, top', i, under)
      invariant if i == from then after == before else after.row == i - 1 - top'
      invariant after.clamped == before.clamped
      invariant after.scrollback == before.scrollback + lines[top..top']
    {
      ghost var last := top';
      longer, after, top' := EmitNextLine(start, longer, lines, i, i == from, clearFirst, after, base, top', under);
      SliceJoin(before.scrollback, lines, top, last, top');
    }
  }

  // Clears the `count` rows below the cursor and leaves the cursor on the last of them.
  method EmitClearBelow(ghost start: Screen, buffer: seq<Op>, count: int) returns (longer: seq<Op>)
    requires start.Valid() && 0 <= count && Play(start, buffer).row + count < |start.rows|
    ensures var before, after := Play(start, buffer), Play(start, longer);
            && after.row == before.row + count && (count == 0 ==> after == before)
            && (before.col == 0 ==> after.col == 0)
            && after.clamped == before.clamped && after.scrollback == before.scrollback
            && forall r :: 0 <= r < |start.rows| ==>
                 after.rows[r] == if before.row < r <= before.row + count then "" else before.rows[r]
  {
    longer := buffer;
    ghost var before := Play(start, buffer);
    for i := 0 to count
      invariant var after := Play(start, longer);
                && after.row == before.row + i && (i == 0 ==> after == before)
                && (before.col == 0 ==> after.col == 0)
                && after.clamped == before.clamped && after.scrollback == before.scrollback
      invariant forall r :: 0 <= r < |start.rows| ==>
                  Play(start, longer).rows[r] == if before.row < r <= before.row + i then "" else before.rows[r]
    {
      longer := Emit(start, longer, NewLine);
      longer := Emit(start, longer, ClearLine);
    }
  }

  // To the first column of the top row of the screen.
  method EmitHome(ghost start: Screen, screenRow: int) returns (buffer: seq<Op>)
    requires start.Valid() && start.row == screenRow
    ensures Play(start, buffer) == start.(row := 0, col := 0)
  {
    buffer := [];
    if screenRow > 0 {
      buffer := Emit(start, buffer, Up(screenRow));
    }
    buffer := Emit(start, buffer, Return);
  }

  // The last lines that fit, from the top row of the screen down; with no lines, an empty top row.
  method EmitWindow(ghost start: Screen, buffer: seq<Op>, newLines: seq<string>, windowStart: int)
    returns (longer: seq<Op>)
    requires start.Valid() && windowStart == TailTop(newLines, |start.rows|)
    requires var s := Play(start, buffer); s.row == 0 && s.col == 0
    ensures var before, after, shown := Play(start, buffer), Play(start, longer), |newLines| - windowStart;
            && after.row == Max(0, shown - 1) && (shown == 0 ==> after.col == 0)
            && after.clamped == before.clamped && after.scrollback == before.scrollback
            && (forall r :: 0 <= r < |start.rows| ==>
                  after.rows[r] == if r < shown then newLines[windowStart + r]
                                   else if r < 1 then "" else before.rows[r])
  {
    hide Play;
    longer := buffer;
    ghost var s := Play(start, buffer);
    if |newLines| - windowStart == 0 {
      longer := Emit(start, longer, ClearLine);
    } else {
      ghost var top;
      longer, s, top := EmitLines(start, longer, newLines, windowStart, |newLines|, true, s, windowStart, windowStart,
                                  s.rows);
      assert newLines[windowStart..top] == [];
    }
  }

  /** Rewrites the visible rows in place: the new window, then the rows the old one used below it. */
  method RepaintBuffer(ghost start: Screen, newLines: seq<string>, height: int, prevScreenRows: int, screenRow: int)
    returns (buffer: seq<Op>)
    requires start.Valid() && height == |start.rows| && start.row == screenRow
    requires 1 <= prevScreenRows <= height
    requires forall r :: prevScreenRows <= r < height ==> start.rows[r] == ""
    ensures var s, top := Play(start, buffer), TailTop(newLines, height);
            && Shows(s, newLines, top) && s.row == Max(0, |newLines| - 1) - top
            && (newLines == [] ==> s.col == 0)
            && s.clamped == start.clamped && s.scrollback == start.scrollback
  {
    var windowStart := Max(0, |newLines| - height);
    var visibleCount := |newLines| - windowStart;
    buffer := EmitHome(start, screenRow);
    buffer := EmitWindow(start, buffer, newLines, windowStart);
    ghost var s := Play(start, buffer);
    if visibleCount < prevScreenRows {
      var leftover := prevScreenRows - Max(visibleCount, 1);
      buffer := EmitClearBelow(start, buffer, leftover);
      buffer := EmitMove(start, buffer, -leftover);
    }
  }

  method EmitBlank(ghost start: Screen, clear: bool) returns (buffer: seq<Op>)
    requires start.Valid() && (clear || (start.Blank() && start.row == 0 && start.col == 0))
    ensures var s := Play(start, buffer);
            && s.Valid() && s.Blank() && s.row == 0 && s.col == 0 && |s.rows| == |start.rows|
            && s.clamped == (!clear && start.clamped) && s.scrollback == start.scrollback
  {
    buffer := [];
    if clear {
      buffer := Emit(start, buffer, ClearScreen);
    }
  }

  lemma NothingPainted(s: Screen, lines: seq<string>, base: int)
    requires s.Valid() && 0 <= base <= |lines|
    ensures Painted(s, lines, base, base, base, s.rows)
  {
  }

  // The frame from line `renderStart` on, on a clean screen.
  method RedrawBuffer(ghost start: Screen, clear: bool, newLines: seq<string>, renderStart: int, height: int)
    returns (buffer: seq<Op>)
    requires start.Valid() && height == |start.rows|
    requires renderStart == 0 || renderStart == TailTop(newLines, height)
    requires clear || (start.Blank() && start.row == 0 && start.col == 0)
    ensures var s, top := Play(start, buffer), TailTop(newLines, height);
            && Shows(s, newLines, top) && s.row == Max(0, |newLines| - 1) - top
            && (newLines == [] ==> s.col == 0)
            && s.clamped == (!clear && start.clamped)
            && s.scrollback == start.scrollback + newLines[renderStart..top]
  {
    hide Play, Painted;
    buffer := EmitBlank(start, clear);
    ghost var blank := Play(start, buffer);
    NothingPainted(blank, newLines, renderStart);
    ghost var s, top;
    buffer, s, top := EmitLines(start, buffer, newLines, renderStart, |newLines|, false, blank, renderStart,
                                renderStart, blank.rows);
    PaintedShows(s, newLines, renderStart, top, blank.rows);
  }

  lemma PaintedShows(s: Screen, lines: seq<string>, base: int, top: int, under: seq<string>)
    requires Painted(s, lines, base, top, |lines|, under)
    requires forall r :: 0 <= r < |under| ==> under[r] == ""
    ensures Shows(s, lines, top)
  {
  }

  // Like `start`, but with `count` rows below `row` cleared and the cursor `down` rows below `row`.
  ghost predicate Erased(s: Screen, start: Screen, row: int, count: int, down: int) {
    && s.Valid() && |s.rows| == |start.rows|
    && s.row == row + down && s.clamped == start.clamped && s.scrollback == start.scrollback
    && forall r :: 0 <= r < |start.rows| ==> s.rows[r] == if row < r <= row + count then "" else start.rows[r]
  }

  lemma EraseRow(s: Screen, start: Screen, row: int, count: int)
    requires 0 <= count && Erased(s, start, row, count, count + 1)
    ensures var t := Apply(Apply(s, Return), ClearLine);
            && Erased(t, start, row, count + 1, count + 1)
            && (row + count + 2 < |start.rows| ==> Erased(Apply(t, Down(1)), start, row, count + 1, count + 2))
            && (row + count + 2 >= |start.rows| ==> Apply(t, Down(1)).clamped)
  {
  }

  // Clears the cursor's row and, unless it is the last one, goes down to the next.
  method EmitErase(ghost start: Screen, buffer: seq<Op>, last: bool, ghost row: int, ghost i: int)
      returns (longer: seq<Op>)
    requires start.Valid() && 0 <= i
    requires Play(start, buffer).clamped || Erased(Play(start, buffer), start, row, i, i + 1)
    ensures Play(start, buffer).clamped ==> Play(start, longer).clamped
    ensures Play(start, longer).scrollback == Play(start, buffer).scrollback
    ensures Erased(Play(start, buffer), start, row, i, i + 1) ==>
              if last then Erased(Play(start, longer), start, row, i + 1, i + 1)
              else if row + i + 2 < |start.rows| then Erased(Play(start, longer), start, row, i + 1, i + 2)
              else Play(start, longer).clamped
  {
    ghost var s := Play(start, buffer);
    if Erased(s, start, row, i, i + 1) {
      EraseRow(s, start, row, i);
    }
    longer := Emit(start, buffer, Return);
    longer := Emit(start, longer, ClearLine);
    if !last {
      longer := Emit(start, longer, Down(1));
    }
  }

  /** Clears `extraLines` rows below the target row without scrolling, and comes back up.  With too few
      rows below, a move is cut short. */
  method DeleteBuffer(ghost start: Screen, lineDiff: int, extraLines: int) returns (buffer: seq<Op>)
    requires start.Valid() && !start.clamped
    requires 0 <= start.row + lineDiff < |start.rows| && 1 <= extraLines
    ensures var s, row := Play(start, buffer), start.row + lineDiff;
            && s.scrollback == start.scrollback
            && if row + extraLines < |start.rows| then Erased(s, start, row, extraLines, 0) else s.clamped
  {
    buffer := EmitMove(start, [], lineDiff);
    buffer := Emit(start, buffer, Return);
    ghost var row := start.row + lineDiff;
    if extraLines > 0 {
      buffer := Emit(start, buffer, Down(1));
    }
    for i := 0 to extraLines
      invariant Play(start, buffer).clamped || Erased(Play(start, buffer), start, row, i, Min(i + 1, extraLines))
      invariant Play(start, buffer).clamped ==> row + extraLines >= |start.rows|
      invariant Play(start, buffer).scrollback == start.scrollback
    {
      buffer := EmitErase(start, buffer, i == extraLines - 1, row, i);
    }
    if extraLines > 0 {
      buffer := Emit(start, buffer, Up(extraLines));
    }
  }

  // `s` is `start` scrolled up by some lines.
  ghost predicate Scrolled(s: Screen, start: Screen, count: int) {
    && 0 <= count && |s.rows| == |start.rows| && |s.scrollback| == |start.scrollback| + count
    && (forall r :: 0 <= r < |s.rows| ==> s.rows[r] == LineAt(start.rows, r + count))
    && s.scrollback[..|start.scrollback|] == start.scrollback
    && (forall i :: 0 <= i < count ==> s.scrollback[|start.scrollback| + i] == LineAt(start.rows, i))
  }

  lemma MovedOnly(start: Screen, diff: int)
    ensures Scrolled(Moved(start, diff), start, 0)
  {
  }

  lemma ScrollsOn(s: Screen, start: Screen, count: int)
    requires s.Valid() && Scrolled(s, start, count) && s.row == |s.rows| - 1
    ensures Scrolled(Apply(s, NewLine), start, count + 1)
  {
  }

  /** When the target line lies below the screen, scrolls until it is on the bottom row. */
  method CatchUp(ghost start: Screen, moveTargetRow: int, prevViewportTop: int, hardwareCursorRow: int, height: int)
    returns (buffer: seq<Op>, viewportTop: int, cursorLine: int)
    requires start.Valid() && height == |start.rows| && start.row == hardwareCursorRow - prevViewportTop
    ensures viewportTop == Max(prevViewportTop, moveTargetRow - height + 1)
    ensures var s := Play(start, buffer);
            && s.row == cursorLine - viewportTop && s.clamped == start.clamped
            && Scrolled(s, start, viewportTop - prevViewportTop)
    ensures viewportTop == prevViewportTop ==> buffer == [] && cursorLine == hardwareCursorRow
  {
    hide Scrolled;
    buffer, viewportTop, cursorLine := [], prevViewportTop, hardwareCursorRow;
    assert Play(start, []) == Moved(start, 0);
    MovedOnly(start, 0);
    var prevViewportBottom := prevViewportTop + height - 1;
    if moveTargetRow > prevViewportBottom {
      var currentScreenRow := Max(0, Min(height - 1, hardwareCursorRow - prevViewportTop));
      buffer := EmitMove(start, buffer, height - 1 - currentScreenRow);
      MovedOnly(start, height - 1 - currentScreenRow);
      var scroll := moveTargetRow - prevViewportBottom;
      for i := 0 to scroll
        invariant var s := Play(start, buffer);
                  && s.row == height - 1 && s.clamped == start.clamped && Scrolled(s, start, i)
      {
        ScrollsOn(Play(start, buffer), start, i);
        buffer := Emit(start, buffer, NewLine);
      }
      viewportTop := viewportTop + scroll;
      cursorLine := moveTargetRow;
    }
  }

  // The previous frame on screen is the new one up to the first change.
  lemma SamePrefixPainted(s: Screen, previous: seq<string>, lines: seq<string>, top: int, firstChanged: int)
    requires s.Valid() && Shows(s, previous, top) && 0 <= top
    requires 0 <= firstChanged <= |previous| && firstChanged <= |lines|
      && previous[..firstChanged] == lines[..firstChanged]
    ensures Painted(s, lines, top, top, firstChanged, s.rows)
  {
    forall r | 0 <= r < |s.rows| && top + r < firstChanged
      ensures s.rows[r] == lines[top + r]
    {
      assert previous[..firstChanged][top + r] == lines[..firstChanged][top + r];
    }
  }

  // The lines past the last change are already on screen, except for removed ones.
  lemma SameSuffixShown(s: Screen, previous: seq<string>, lines: seq<string>, base: int, top: int, last: int,
                        under: seq<string>)
    requires -1 <= last && Painted(s, lines, base, top, last + 1, under)
    requires forall r :: 0 <= r < |under| ==> under[r] == LineAt(previous, base + r)
    requires |previous| <= base + |under|
    requires forall i :: last < i < |lines| ==> LineAt(previous, i) == lines[i]
    ensures forall r :: 0 <= r < |s.rows| && (top + r < |lines| || |previous| <= top + r) ==>
              s.rows[r] == LineAt(lines, top + r)
  {
    forall r | 0 <= r < |s.rows| && (top + r < |lines| || |previous| <= top + r)
      ensures s.rows[r] == LineAt(lines, top + r)
    {
      if top + r > last && top + r - base < |under| {
        assert under[top + r - base] == LineAt(previous, base + (top + r - base));
      } else if top + r > last {
        assert LineAt(previous, top + r) == "";
      }
    }
  }

  // To the first column of the first line to write; an appended line may need the screen to scroll.
  method EmitToFirst(ghost start: Screen, ghost previous: seq<string>, newLines: seq<string>, firstChanged: int,
                     appendStart: bool, prevViewportTop: int, hardwareCursorRow: int, height: int)
    returns (buffer: seq<Op>, viewportTop: int, ghost top: int)
    requires start.Valid() && height == |start.rows| && Shows(start, previous, prevViewportTop)
    requires start.row == hardwareCursorRow - prevViewportTop
    requires TailTop(previous, height) <= prevViewportTop <= firstChanged <= |previous| && firstChanged <= |newLines|
    requires previous[..firstChanged] == newLines[..firstChanged]
    requires appendStart ==> firstChanged == |previous| && prevViewportTop < firstChanged
    requires !appendStart ==> firstChanged < |previous|
    ensures viewportTop == prevViewportTop
    ensures top == Max(prevViewportTop, firstChanged - height + 1)
    ensures var s := Play(start, buffer);
            && Painted(s, newLines, prevViewportTop, top, firstChanged, start.rows)
            && s.row == firstChanged - top && s.col == 0 && s.clamped == start.clamped
            && s.scrollback == start.scrollback + newLines[prevViewportTop..top]
  {
    hide Scrolled;
    SamePrefixPainted(start, previous, newLines, prevViewportTop, firstChanged);
    var moveTargetRow := if appendStart then firstChanged - 1 else firstChanged;
    var cursorLine;
    buffer, viewportTop, cursorLine := CatchUp(start, moveTargetRow, prevViewportTop, hardwareCursorRow, height);
    buffer := EmitMove(start, buffer, moveTargetRow - viewportTop - (cursorLine - viewportTop));
    top := prevViewportTop;
    ghost var s := Play(start, buffer);
    assert Painted(s, newLines, prevViewportTop, top, firstChanged, start.rows);
    if appendStart {
      NextLine(s, newLines, prevViewportTop, top, firstChanged, start.rows);
      top := Max(prevViewportTop, firstChanged - height + 1);
      buffer := Emit(start, buffer, NewLine);
    } else {
      buffer := Emit(start, buffer, Return);
    }
  }

  // Clears the rows of removed lines below the last line and comes back to it.
  method EmitRemoved(ghost start: Screen, buffer: seq<Op>, oldCount: int, newCount: int, renderEnd: int)
    returns (longer: seq<Op>, finalCursorRow: int)
    requires start.Valid()
    requires newCount < oldCount ==> renderEnd == newCount - 1
    requires newCount < oldCount ==> Play(start, buffer).row + (oldCount - newCount) < |start.rows|
    ensures finalCursorRow == renderEnd
    ensures var before, after := Play(start, buffer), Play(start, longer);
            && after.row == before.row && after.clamped == before.clamped && after.scrollback == before.scrollback
            && forall r :: 0 <= r < |start.rows| ==>
                 after.rows[r] == if before.row < r <= before.row + (oldCount - newCount) then "" else before.rows[r]
  {
    longer, finalCursorRow := buffer, renderEnd;
    if oldCount > newCount {
      if renderEnd < newCount - 1 {
        longer := longer + [Down(newCount - 1 - renderEnd)];
        finalCursorRow := newCount - 1;
      }
      var extraLines := oldCount - newCount;
      longer := EmitClearBelow(start, longer, extraLines);
      longer := EmitMove(start, longer, -extraLines);
    }
  }

  // The changed lines, in place; what scrolls off the top are lines of the new frame.
  method EmitChanged(ghost start: Screen, ghost previous: seq<string>, newLines: seq<string>, firstChanged: int,
                     renderEnd: int, appendStart: bool, prevViewportTop: int, hardwareCursorRow: int, height: int)
    returns (buffer: seq<Op>, viewportTop: int, ghost top: int)
    requires start.Valid() && height == |start.rows| && Shows(start, previous, prevViewportTop)
    requires start.row == hardwareCursorRow - prevViewportTop
    requires TailTop(previous, height) <= prevViewportTop <= firstChanged <= |previous|
    requires firstChanged <= renderEnd < |newLines|
    requires previous[..firstChanged] == newLines[..firstChanged]
    requires forall i :: renderEnd < i < |newLines| ==> LineAt(previous, i) == newLines[i]
    requires appendStart ==> firstChanged == |previous| && prevViewportTop < firstChanged
    requires !appendStart ==> firstChanged < |previous|
    ensures viewportTop == prevViewportTop && top == Max(prevViewportTop, renderEnd + 1 - height)
    ensures var s := Play(start, buffer);
            && s.row == renderEnd - top && s.clamped == start.clamped
            && s.scrollback == start.scrollback + newLines[prevViewportTop..top]
            && forall r :: 0 <= r < |s.rows| && (top + r < |newLines| || |previous| <= top + r) ==>
                 s.rows[r] == LineAt(newLines, top + r)
  {
    hide Apply, Play, Painted;
    buffer, viewportTop, top := EmitToFirst(start, previous, newLines, firstChanged, appendStart,
                                            prevViewportTop, hardwareCursorRow, height);
    ghost var s := Play(start, buffer);
    ghost var from := top;
    buffer, s, top := EmitLines(start, buffer, newLines, firstChanged, renderEnd + 1, true,
                                s, prevViewportTop, top, start.rows);
    SliceJoin(start.scrollback, newLines, prevViewportTop, from, top);
    SameSuffixShown(s, previous, newLines, prevViewportTop, top, renderEnd, start.rows);
  }

  // With the rows of removed lines cleared, the whole new frame is on screen.
  lemma RemovedShown(before: Screen, after: Screen, previous: seq<string>, lines: seq<string>, top: int, renderEnd: int)
    requires before.row == renderEnd - top && |after.rows| == |before.rows|
    requires |lines| < |previous| ==> renderEnd == |lines| - 1
    requires forall r :: 0 <= r < |before.rows| && (top + r < |lines| || |previous| <= top + r) ==>
               before.rows[r] == LineAt(lines, top + r)
    requires forall r :: 0 <= r < |before.rows| ==>
               after.rows[r] == if before.row < r <= before.row + (|previous| - |lines|) then "" else before.rows[r]
    ensures Shows(after, lines, top)
  {
    forall r | 0 <= r < |after.rows|
      ensures after.rows[r] == LineAt(lines, top + r)
    {
      assert after.rows[r] == if before.row < r <= before.row + (|previous| - |lines|) then "" else before.rows[r];
    }
  }

  /** Writes the changed lines only, and clears the rows of lines that are gone.  The screen scrolls by as
      many lines as the new frame is longer than what fits below the old first row. */
  method DiffBuffer(ghost start: Screen, previous: seq<string>, newLines: seq<string>, firstChanged: int,
                    lastChanged: int, appendStart: bool, prevViewportTop: int, hardwareCursorRow: int, height: int)
    returns (buffer: seq<Op>, finalCursorRow: int, viewportTop: int)
    requires start.Valid() && height == |start.rows| && Shows(start, previous, prevViewportTop)
    requires start.row == hardwareCursorRow - prevViewportTop
    requires TailTop(previous, height) <= prevViewportTop <= firstChanged <= |previous|
    requires firstChanged < |newLines| && firstChanged <= lastChanged < Max(|previous|, |newLines|)
    requires previous[..firstChanged] == newLines[..firstChanged]
    requires forall i :: lastChanged < i < Max(|previous|, |newLines|) ==> LineAt(previous, i) == LineAt(newLines, i)
    requires |previous| < |newLines| ==> lastChanged == |newLines| - 1
    requires |previous| > |newLines| ==> lastChanged >= |newLines|
    requires appendStart <==> |previous| < |newLines| && firstChanged == |previous|
    requires appendStart ==> prevViewportTop < firstChanged
    ensures viewportTop == Max(prevViewportTop, |newLines| - height) && viewportTop <= finalCursorRow < |newLines|
    ensures var s := Play(start, buffer);
            && Shows(s, newLines, viewportTop) && s.row == finalCursorRow - viewportTop && s.clamped == start.clamped
            && s.scrollback == start.scrollback + newLines[prevViewportTop..viewportTop]
  {
    var renderEnd := Min(lastChanged, |newLines| - 1);
    var scrolledTop;
    ghost var top;
    buffer, scrolledTop, top := EmitChanged(start, previous, newLines, firstChanged, renderEnd, appendStart,
                                            prevViewportTop, hardwareCursorRow, height);
    ghost var changed := Play(start, buffer);
    buffer, finalCursorRow := EmitRemoved(start, buffer, |previous|, |newLines|, renderEnd);
    RemovedShown(changed, Play(start, buffer), previous, newLines, top, renderEnd);
    viewportTop := Max(scrolledTop, finalCursorRow - height + 1);
  }

  // By `rowDelta` rows to column `col`; the move is cut short exactly when it leaves the screen.
  method EmitCursor(ghost start: Screen, rowDelta: int, col: int) returns (buffer: seq<Op>)
    requires start.Valid()
    ensures var s := Play(start, buffer);
            && s.Valid() && s.rows == start.rows && s.scrollback == start.scrollback
            && s.row == Moved(start, rowDelta).row && s.clamped == Moved(start, rowDelta).clamped
            && (0 <= col ==> s.col == col)
  {
    buffer := EmitMove(start, [], rowDelta);
    buffer := Emit(start, buffer, Column(col + 1));
  }

  lemma RemovedRowsCleared(before: Screen, after: Screen, previous: seq<string>, lines: seq<string>, top: int, row: int)
    requires Shows(before, previous, top) && 0 <= top
    requires |lines| <= |previous| && lines == previous[..|lines|] && row == |lines| - 1 - top
    requires Erased(after, before, row, |previous| - |lines|, 0)
    ensures Shows(after, lines, top)
  {
    forall r | 0 <= r < |after.rows|
      ensures after.rows[r] == LineAt(lines, top + r)
    {
      assert before.rows[r] == LineAt(previous, top + r);
    }
  }

  // When lines were removed, the last change is the last old line.
  lemma LastChangeOfShrink(previous: seq<string>, lines: seq<string>, last: int)
    requires NonEmptyLines(previous)
    requires forall i :: last < i < Max(|previous|, |lines|) ==> LineAt(previous, i) == LineAt(lines, i)
    ensures |lines| < |previous| ==> |previous| - 1 <= last
  {
    var end := LineAt(previous, |previous| - 1) == LineAt(lines, |previous| - 1);
  }

  // Clearing the rows of removed lines leaves the new frame, unless there is no line left to stop at.
  lemma AfterDelete(before: Screen, after: Screen, previous: seq<string>, lines: seq<string>, top: int)
    requires before.Valid() && !before.clamped && Shows(before, previous, top)
    requires NonEmptyLines(previous) && |lines| < |previous| && lines == previous[..|lines|]
    requires 0 <= top <= Max(0, |lines| - 1) && |previous| <= top + |before.rows|
      && |previous| - |lines| <= |before.rows|
    requires var row, extra := Max(0, |lines| - 1) - top, |previous| - |lines|;
             if row + extra < |before.rows| then Erased(after, before, row, extra, 0) else after.clamped
    ensures lines != [] ==>
      Erased(after, before, |lines| - 1 - top, |previous| - |lines|, 0) && Shows(after, lines, top)
    ensures lines == [] ==> top == 0 && (after.clamped || !Shows(after, lines, top))
  {
    if lines != [] {
      RemovedRowsCleared(before, after, previous, lines, top, |lines| - 1 - top);
    } else if !after.clamped {
      assert after.rows[0] == before.rows[0] == LineAt(previous, top + 0);
      assert LineAt(lines, top + 0) == "";
    }
  }

  // The renderer's memory of what it left on screen.
  datatype InlineState = InlineState(
    previousLines: seq<string>,
    previousWidth: int,           // 0 before the first frame, -1 when a full repaint is forced
    previousHeight: int,          // 0 before the first frame
    hardwareCursorRow: int,       // the line the terminal cursor is on
    maxLinesRendered: int,
    previousViewportTop: int)     // the line on the first row of the screen
  {
    function CurrentFrame(): Frame { Frame(previousLines, previousViewportTop, maxLinesRendered) }

    function Remembered(): Memory { Memory(CurrentFrame(), previousWidth, previousHeight) }
  }

  ghost predicate KnownScreen(screen: Screen, columns: int) {
    screen.Valid() && !screen.clamped && 0 < columns
  }

  // The screen shows the remembered frame, and the cursor is where the bookkeeping says.
  ghost predicate InSync(screen: Screen, columns: int, st: InlineState) {
    && KnownScreen(screen, columns)
    && NonEmptyLines(st.previousLines)
    && Shows(screen, st.previousLines, st.previousViewportTop)
    && TailTop(st.previousLines, |screen.rows|) <= st.previousViewportTop <= Max(0, |st.previousLines| - 1)
    && screen.row == st.hardwareCursorRow - st.previousViewportTop
    && 0 <= st.hardwareCursorRow <= Max(0, |st.previousLines| - 1)
    && |st.previousLines| <= st.maxLinesRendered
    && (st.previousLines == [] ==> screen.col == 0)
    && (st.previousLines != [] ==> st.previousWidth == columns && st.previousHeight == |screen.rows|)
  }

  // Lines removed at the end of a frame were all on screen if the rest of it reaches up to the first row.
  lemma RemovedLinesFit(screen: Screen, columns: int, st: InlineState, newLines: seq<string>)
    requires InSync(screen, columns, st)
    requires |newLines| < |st.previousLines| && st.previousViewportTop <= Max(0, |newLines| - 1)
    ensures |st.previousLines| - |newLines| <= |screen.rows|
  {
  }

  predicate SizeChanged(screen: Screen, columns: int, st: InlineState) {
    || (st.previousWidth != 0 && st.previousWidth != columns)
    || (st.previousHeight != 0 && st.previousHeight != |screen.rows|)
  }

  // If it is said to be there, and the next frame does not repaint everything anyway, the remembered one is on screen.
  ghost predicate SettledScreen(screen: Screen, columns: int, st: InlineState, agrees: bool) {
    && screen.Valid() && 0 < columns
    && NonEmptyLines(st.previousLines)
    && (agrees && !SizeChanged(screen, columns, st) ==> InSync(screen, columns, st))
    && (st.previousWidth == 0 ==> st == InlineState([], 0, 0, 0, st.maxLinesRendered, 0) && 0 <= st.maxLinesRendered)
    && (st.previousWidth > 0 ==> st.previousHeight > 0)
  }

  class Tui {
    var screen: Screen            // the primary screen of the terminal
    var columns: int
    var previousLines: seq<string>
    var previousWidth: int        // 0 before the first frame, -1 when a full repaint is forced
    var previousHeight: int       // 0 before the first frame
    var hardwareCursorRow: int    // the line the terminal cursor is on
    var maxLinesRendered: int
    var previousViewportTop: int  // the line on the first row of the screen
    var clearOnShrink: bool
    var preserveViewportOnNextRender: bool
    var fullscreen: Option<InlineState>   // what to resume from when the alternate screen is left
    ghost var agrees: bool                // the last frame was painted right, and nothing has disturbed it

    ghost function State(): InlineState reads this {
      InlineState(previousLines, previousWidth, previousHeight, hardwareCursorRow, maxLinesRendered,
                  previousViewportTop)
    }

    ghost function CurrentFrame(): Frame reads this { State().CurrentFrame() }

    function Rows(): int reads this { |screen.rows| }

    ghost predicate Known() reads this { KnownScreen(screen, columns) }

    ghost predicate Coupled() reads this { InSync(screen, columns, State()) }

    predicate Resized() reads this {
      || (previousWidth != 0 && previousWidth != columns)
      || (previousHeight != 0 && previousHeight != Rows())
    }

    predicate Fitted() reads this { previousWidth == columns && previousHeight == Rows() }

    ghost predicate Settled() reads this { SettledScreen(screen, columns, State(), agrees) }

    // The frame on screen is known, or is going to be cleared.
    ghost predicate Approachable(count: int, overlays: bool) reads this {
      || Coupled() || Resized()
      || (previousLines != [] && clearOnShrink && count < maxLinesRendered && !overlays
          && !preserveViewportOnNextRender)
    }

    // The terminal cursor has been sent to the marker.
    predicate Pointed(cursorPos: Option<CursorPos>) reads `screen, `hardwareCursorRow {
      cursorPos.Some? ==> hardwareCursorRow == cursorPos.value.row && screen.col == Max(0, cursorPos.value.col)
    }

    ghost function RequestFor(rendered: seq<string>, overlays: bool): Request reads this {
      Request(Prepared(rendered, Rows()), CursorOf(rendered, Rows()), Rows(), Resized(), overlays, clearOnShrink)
    }

    // First frame: the screen is clean and the cursor is in its top left corner.
    constructor (clean: Screen, columns: int)
      requires clean.Valid() && clean.Blank() && clean.row == 0 && clean.col == 0 && !clean.clamped
      requires 0 < columns
      ensures Coupled() && !Resized()
      ensures screen == clean && this.columns == columns
      ensures State() == InlineState([], 0, 0, 0, 0, 0) && fullscreen == None && agrees
    {
      screen, this.columns := clean, columns;
      previousLines, previousWidth, previousHeight := [], 0, 0;
      hardwareCursorRow, maxLinesRendered, previousViewportTop := 0, 0, 0;
      clearOnShrink, preserveViewportOnNextRender, fullscreen, agrees := false, false, None, true;
    }

    /** Puts the terminal cursor on the marker's line.  The move is cut short exactly when that line
        has scrolled off the top. */
    method PositionHardwareCursor(cursorPos: Option<CursorPos>, totalLines: int)
      requires screen.Valid()
      requires cursorPos.Some? ==> 0 <= cursorPos.value.row < totalLines <= previousViewportTop + Rows()
      requires cursorPos.Some? ==> screen.row == hardwareCursorRow - previousViewportTop
      modifies `screen, `hardwareCursorRow
      ensures screen.Valid() && screen.rows == old(screen.rows) && screen.scrollback == old(screen.scrollback)
      ensures cursorPos == None ==> screen == old(screen) && hardwareCursorRow == old(hardwareCursorRow)
      ensures Pointed(cursorPos)
      ensures cursorPos.Some? ==>
        (screen.row == hardwareCursorRow - previousViewportTop <==> previousViewportTop <= hardwareCursorRow)
      ensures !old(screen).clamped ==> (screen.clamped <==> cursorPos.Some? && hardwareCursorRow < previousViewportTop)
    {
      if cursorPos == None || totalLines <= 0 {
        return;
      }
      var targetRow := Max(0, Min(cursorPos.value.row, totalLines - 1));
      var targetCol := Max(0, cursorPos.value.col);
      var buffer := EmitCursor(screen, targetRow - hardwareCursorRow, targetCol);
      screen := Play(screen, buffer);
      hardwareCursorRow := targetRow;
    }

    // The bookkeeping after a frame has been written with the cursor left on line `cursorLine`.
    method Adopt(newLines: seq<string>, cursorPos: Option<CursorPos>, viewportTop: int, cursorLine: int, maxLines: int)
      requires Known() && NonEmptyLines(newLines) && Shows(screen, newLines, viewportTop)
      requires TailTop(newLines, Rows()) <= viewportTop <= cursorLine <= Max(0, |newLines| - 1)
      requires screen.row == cursorLine - viewportTop && (newLines == [] ==> screen.col == 0)
      requires |newLines| <= maxLines
      requires cursorPos.Some? ==> 0 <= cursorPos.value.row < |newLines|
      modifies `screen, `previousLines, `previousWidth, `previousHeight
      modifies `hardwareCursorRow, `maxLinesRendered, `previousViewportTop
      ensures previousLines == newLines && previousViewportTop == viewportTop && maxLinesRendered == maxLines
      ensures Rows() == old(Rows())
      ensures Fitted()
      ensures screen.Valid() && screen.scrollback == old(screen.scrollback)
      ensures Coupled() <==> (cursorPos.Some? ==> viewportTop <= cursorPos.value.row)
      ensures Pointed(cursorPos)
    {
      hardwareCursorRow := cursorLine;
      maxLinesRendered := maxLines;
      previousViewportTop := viewportTop;
      PositionHardwareCursor(cursorPos, |newLines|);
      previousLines := newLines;
      previousWidth, previousHeight := columns, Rows();
    }

    /** Rewrites the visible rows in place.  Nothing scrolls. */
    method RepaintViewport(newLines: seq<string>, cursorPos: Option<CursorPos>, prevViewportTop: int)
      requires Coupled() && previousLines != [] && prevViewportTop == previousViewportTop
      requires NonEmptyLines(newLines)
      requires cursorPos.Some? ==> TailTop(newLines, Rows()) <= cursorPos.value.row < |newLines|
      modifies `screen, `previousLines, `previousWidth, `previousHeight
      modifies `hardwareCursorRow, `maxLinesRendered, `previousViewportTop
      ensures Coupled() && Fitted() && previousLines == newLines
      ensures previousViewportTop == TailTop(newLines, Rows()) && maxLinesRendered == |newLines|
      ensures Rows() == old(Rows()) && screen.scrollback == old(screen.scrollback)
      ensures columns == old(columns) && clearOnShrink == old(clearOnShrink)
      ensures Pointed(cursorPos)
    {
      var height := Rows();
      var prevScreenRows := Min(height, |previousLines|);
      var screenRow := Max(0, Min(prevScreenRows - 1, hardwareCursorRow - prevViewportTop));
      assert forall r :: 0 <= r < height ==> screen.rows[r] == LineAt(previousLines, prevViewportTop + r);
      var buffer := RepaintBuffer(screen, newLines, height, prevScreenRows, screenRow);
      screen := Play(screen, buffer);
      Adopt(newLines, cursorPos, Max(0, |newLines| - height), Max(0, |newLines| - 1), |newLines|);
    }

    /** Writes the frame from the top of a cleared screen, or, without `clear`, of a clean one.  Only a
        frame with no predecessor is written from its first line on, and may scroll. */
    method Redraw(clear: bool, newLines: seq<string>, cursorPos: Option<CursorPos>)
      requires screen.Valid() && 0 < columns && NonEmptyLines(newLines)
      requires !clear ==> previousLines == [] && Clean(screen)
      requires cursorPos.Some? ==> TailTop(newLines, Rows()) <= cursorPos.value.row < |newLines|
      modifies `screen, `previousLines, `previousWidth, `previousHeight
      modifies `hardwareCursorRow, `maxLinesRendered, `previousViewportTop
      ensures Coupled() && Fitted() && previousLines == newLines
      ensures previousViewportTop == TailTop(newLines, Rows())
      ensures maxLinesRendered == if clear then |newLines| else Max(old(maxLinesRendered), |newLines|)
      ensures Rows() == old(Rows())
      ensures screen.scrollback == old(screen.scrollback) +
                (if old(previousLines) == [] then newLines[..TailTop(newLines, Rows())] else [])
      ensures Pointed(cursorPos)
    {
      var height := Rows();
      var renderStart := if clear && |previousLines| > 0 then Max(0, |newLines| - height) else 0;
      var buffer := RedrawBuffer(screen, clear, newLines, renderStart, height);
      screen := Play(screen, buffer);
      var bufferLength := Max(height, |newLines|);
      Adopt(newLines, cursorPos, Max(0, bufferLength - height), Max(0, |newLines| - 1),
            if clear then |newLines| else Max(maxLinesRendered, |newLines|));
    }

    method FullRender(clear: bool, preserveViewport: bool, newLines: seq<string>, cursorPos: Option<CursorPos>,
                      prevViewportTop: int)
      requires screen.Valid() && 0 < columns && NonEmptyLines(newLines)
      requires !clear ==> previousLines == [] && Clean(screen)
      requires preserveViewport ==> Coupled() && prevViewportTop == previousViewportTop
      requires cursorPos.Some? ==> TailTop(newLines, Rows()) <= cursorPos.value.row < |newLines|
      modifies `screen, `previousLines, `previousWidth, `previousHeight
      modifies `hardwareCursorRow, `maxLinesRendered, `previousViewportTop
      ensures Coupled() && Fitted() && previousLines == newLines
      ensures previousViewportTop == TailTop(newLines, Rows())
      ensures maxLinesRendered == if clear then |newLines| else Max(old(maxLinesRendered), |newLines|)
      ensures Rows() == old(Rows())
      ensures screen.scrollback == old(screen.scrollback) +
                (if old(previousLines) == [] then newLines[..TailTop(newLines, Rows())] else [])
      ensures Pointed(cursorPos)
    {
      if preserveViewport && |previousLines| > 0 {
        RepaintViewport(newLines, cursorPos, prevViewportTop);
        return;
      }
      Redraw(clear, newLines, cursorPos);
    }

    // All changes are in removed lines: nothing is written, the rows are just cleared.
    method DeleteTail(newLines: seq<string>, cursorPos: Option<CursorPos>)
      requires Coupled() && !Resized() && NonEmptyLines(newLines)
      requires |newLines| < |previousLines| && newLines == previousLines[..|newLines|]
      requires previousViewportTop <= Max(0, |newLines| - 1) && |previousLines| - |newLines| <= Rows()
      requires cursorPos.Some? ==> 0 <= cursorPos.value.row < |newLines|
      modifies `screen, `previousLines, `previousWidth, `previousHeight
      modifies `hardwareCursorRow, `maxLinesRendered, `previousViewportTop
      ensures previousLines == newLines && previousViewportTop == old(previousViewportTop)
      ensures maxLinesRendered == old(maxLinesRendered)
      ensures Rows() == old(Rows())
      ensures Fitted() && screen.Valid()
      ensures screen.scrollback == old(screen.scrollback)
      ensures Coupled() <==> newLines != [] && (cursorPos.Some? ==> previousViewportTop <= cursorPos.value.row)
      ensures Pointed(cursorPos)
    {
      hide Apply, Play;
      var targetRow := Max(0, |newLines| - 1);
      var extraLines := |previousLines| - |newLines|;
      var buffer := DeleteBuffer(screen, targetRow - hardwareCursorRow, extraLines);
      AfterDelete(screen, Play(screen, buffer), previousLines, newLines, previousViewportTop);
      screen := Play(screen, buffer);
      hardwareCursorRow := targetRow;
      PositionHardwareCursor(cursorPos, |newLines|);
      previousLines := newLines;
      previousWidth, previousHeight := columns, Rows();
    }

    // Changed lines that are all on screen or right below it.
    method RenderChanged(newLines: seq<string>, cursorPos: Option<CursorPos>, firstChanged: int, lastChanged: int,
                         appendStart: bool)
      requires Coupled() && !Resized() && NonEmptyLines(newLines) && previousLines != []
      requires previousLines != newLines && firstChanged == CommonPrefix(previousLines, newLines) <= lastChanged
      requires previousViewportTop <= firstChanged < |newLines| && lastChanged < Max(|previousLines|, |newLines|)
      requires forall i :: lastChanged < i < Max(|previousLines|, |newLines|) ==>
        LineAt(previousLines, i) == LineAt(newLines, i)
      requires |previousLines| < |newLines| ==> lastChanged == |newLines| - 1
      requires appendStart <==> |previousLines| < |newLines| && firstChanged == |previousLines| && firstChanged > 0
      requires cursorPos.Some? ==> 0 <= cursorPos.value.row < |newLines|
      modifies `screen, `previousLines, `previousWidth, `previousHeight
      modifies `hardwareCursorRow, `maxLinesRendered, `previousViewportTop
      ensures previousLines == newLines && previousViewportTop == Max(old(previousViewportTop), |newLines| - Rows())
      ensures maxLinesRendered == Max(old(maxLinesRendered), |newLines|)
      ensures Rows() == old(Rows())
      ensures Fitted() && screen.Valid()
      ensures screen.scrollback
        == old(screen.scrollback) + Between(newLines, old(previousViewportTop), previousViewportTop)
      ensures Coupled() <==> (cursorPos.Some? ==> previousViewportTop <= cursorPos.value.row)
      ensures Pointed(cursorPos)
    {
      LastChangeOfShrink(previousLines, newLines, lastChanged);
      var buffer, finalCursorRow, viewportTop :=
        DiffBuffer(screen, previousLines, newLines, firstChanged, lastChanged, appendStart,
                   previousViewportTop, hardwareCursorRow, Rows());
      screen := Play(screen, buffer);
      Adopt(newLines, cursorPos, viewportTop, finalCursorRow, Max(maxLinesRendered, |newLines|));
    }

    // The bookkeeping is that of the next frame, the screen agrees with it exactly when the request was
    // paintable, and the scrollback has grown by what had to scroll off.
    ghost predicate FollowsFrom(f: Frame, q: Request, scrollback: seq<string>) reads this {
      && CurrentFrame() == NextFrame(f, q) && screen.Valid() && NonEmptyLines(previousLines)
      && Fitted()
      && (Coupled() <==> Paintable(f, q))
      && screen.scrollback == scrollback + ScrolledOff(f, q)
      && Pointed(q.cursor)
    }

    ghost function DifferenceRequest(newLines: seq<string>, cursorPos: Option<CursorPos>,
                                     overlays: bool): Request reads this {
      Request(newLines, cursorPos, Rows(), false, overlays, clearOnShrink)
    }

    method RenderRemoval(newLines: seq<string>, cursorPos: Option<CursorPos>, ghost overlays: bool,
                         preserveViewport: bool)
      requires Coupled() && !Resized() && NonEmptyLines(newLines)
      requires !(clearOnShrink && |newLines| < maxLinesRendered && !overlays)
      requires |newLines| < |previousLines| && CommonPrefix(previousLines, newLines) == |newLines|
      requires cursorPos.Some? ==> TailTop(newLines, Rows()) <= cursorPos.value.row < |newLines|
      modifies `screen, `previousLines, `previousWidth, `previousHeight
      modifies `hardwareCursorRow, `maxLinesRendered, `previousViewportTop
      ensures Rows() == old(Rows())
      ensures FollowsFrom(old(CurrentFrame()), old(DifferenceRequest(newLines, cursorPos, overlays)),
                          old(screen.scrollback))
    {
      var targetRow := Max(0, |newLines| - 1);
      var extraLines := |previousLines| - |newLines|;
      if targetRow < previousViewportTop || extraLines > Rows() {
        FullRender(true, preserveViewport, newLines, cursorPos, previousViewportTop);
        return;
      }
      DeleteTail(newLines, cursorPos);
    }

    method RenderVisibleChange(newLines: seq<string>, cursorPos: Option<CursorPos>, ghost overlays: bool,
                               preserveViewport: bool, firstChanged: int, lastChanged: int, appendStart: bool)
      requires Coupled() && !Resized() && NonEmptyLines(newLines) && previousLines != []
      requires !(clearOnShrink && |newLines| < maxLinesRendered && !overlays)
      requires previousLines != newLines && firstChanged == CommonPrefix(previousLines, newLines)
      requires firstChanged < |newLines| && firstChanged <= lastChanged < Max(|previousLines|, |newLines|)
      requires forall i :: lastChanged < i < Max(|previousLines|, |newLines|) ==>
        LineAt(previousLines, i) == LineAt(newLines, i)
      requires |previousLines| < |newLines| ==> lastChanged == |newLines| - 1
      requires appendStart <==> |previousLines| < |newLines| && firstChanged == |previousLines| && firstChanged > 0
      requires cursorPos.Some? ==> TailTop(newLines, Rows()) <= cursorPos.value.row < |newLines|
      modifies `screen, `previousLines, `previousWidth, `previousHeight
      modifies `hardwareCursorRow, `maxLinesRendered, `previousViewportTop
      ensures Rows() == old(Rows())
      ensures FollowsFrom(old(CurrentFrame()), old(DifferenceRequest(newLines, cursorPos, overlays)),
                          old(screen.scrollback))
    {
      if firstChanged < previousViewportTop {
        var preserveScrollback := |newLines| > Rows() && |newLines| >= |previousLines|;
        FullRender(true, preserveScrollback || preserveViewport, newLines, cursorPos, previousViewportTop);
        return;
      }
      RenderChanged(newLines, cursorPos, firstChanged, lastChanged, appendStart);
    }

    /** The frame differs from the one on screen only by its lines. */
    method RenderDifference(newLines: seq<string>, cursorPos: Option<CursorPos>, ghost overlays: bool,
                            preserveViewport: bool)
      requires Coupled() && !Resized() && previousLines != [] && NonEmptyLines(newLines)
      requires !(clearOnShrink && |newLines| < maxLinesRendered && !overlays)
      requires cursorPos.Some? ==> TailTop(newLines, Rows()) <= cursorPos.value.row < |newLines|
      modifies `screen, `previousLines, `previousWidth, `previousHeight
      modifies `hardwareCursorRow, `maxLinesRendered, `previousViewportTop
      ensures Rows() == old(Rows())
      ensures FollowsFrom(old(CurrentFrame()), old(DifferenceRequest(newLines, cursorPos, overlays)),
                          old(screen.scrollback))
    {
      var firstChanged, lastChanged, appendStart := FindChanges(previousLines, newLines);
      if firstChanged == -1 {
        PositionHardwareCursor(cursorPos, |newLines|);
        previousHeight := Rows();
        return;
      }
      if firstChanged >= |newLines| {
        RenderRemoval(newLines, cursorPos, overlays, preserveViewport);
        return;
      }
      RenderVisibleChange(newLines, cursorPos, overlays, preserveViewport, firstChanged, lastChanged, appendStart);
    }

    method RenderPrepared(newLines: seq<string>, cursorPos: Option<CursorPos>, ghost overlays: bool, shrinkRedraw: bool,
                          preserveViewport: bool)
      requires Settled() && NonEmptyLines(newLines)
      requires Coupled() || Resized() || (previousLines != [] && shrinkRedraw && !preserveViewport)
      requires shrinkRedraw <==> clearOnShrink && |newLines| < maxLinesRendered && !overlays
      requires cursorPos.Some? ==> TailTop(newLines, Rows()) <= cursorPos.value.row < |newLines|
      modifies `screen, `previousLines, `previousWidth, `previousHeight
      modifies `hardwareCursorRow, `maxLinesRendered, `previousViewportTop
      ensures Rows() == old(Rows())
      ensures FollowsFrom(old(CurrentFrame()),
                          old(DifferenceRequest(newLines, cursorPos, overlays).(resized := Resized())),
                          old(screen.scrollback))
    {
      var height := Rows();
      var resized := Resized();
      var heightChanged := previousHeight != 0 && previousHeight != height;
      var previousBufferLength := if previousHeight > 0 then previousViewportTop + previousHeight else height;
      var prevViewportTop := if heightChanged then Max(0, previousBufferLength - height) else previousViewportTop;
      if |previousLines| == 0 && !resized {
        FullRender(false, false, newLines, cursorPos, prevViewportTop);
      } else if resized {
        FullRender(true, false, newLines, cursorPos, prevViewportTop);
      } else if shrinkRedraw {
        FullRender(true, preserveViewport, newLines, cursorPos, prevViewportTop);
      } else {
        RenderDifference(newLines, cursorPos, overlays, preserveViewport);
      }
    }

    /** One frame of the inline display. */
    method RenderInline(rendered: seq<string>, overlays: bool)
      requires Settled() && Approachable(|rendered|, overlays)
      modifies `screen, `previousLines, `previousWidth, `previousHeight, `preserveViewportOnNextRender
      modifies `hardwareCursorRow, `maxLinesRendered, `previousViewportTop
      ensures Rows() == old(Rows()) && !preserveViewportOnNextRender
      ensures FollowsFrom(old(CurrentFrame()), old(RequestFor(rendered, overlays)), old(screen.scrollback))
    {
      var preserveViewport := preserveViewportOnNextRender;
      preserveViewportOnNextRender := false;
      var stripped, cursorPos := ExtractCursorPosition(rendered, Rows());
      var newLines := ApplyLineResets(stripped);
      RenderPrepared(newLines, cursorPos, overlays, clearOnShrink && |newLines| < maxLinesRendered && !overlays,
                     preserveViewport);
    }

    // ---------- Sessions ----------

    ghost function Resumes(): InlineState reads this {
      if fullscreen.Some? then fullscreen.value else State()
    }

    ghost predicate Ready() reads this { SettledScreen(screen, columns, Resumes(), agrees) }

    ghost function Abstract(): Display reads this {
      Display(State().Remembered(), columns, Rows(), screen.scrollback, clearOnShrink, preserveViewportOnNextRender,
              agrees, if fullscreen.Some? then Some(fullscreen.value.Remembered()) else None)
    }

    // On the alternate screen nothing of the inline display changes.
    method DoRender(rendered: seq<string>, overlays: bool)
      requires Ready() && AdmitsRender(Abstract(), rendered, overlays)
      modifies `screen, `previousLines, `previousWidth, `previousHeight, `preserveViewportOnNextRender
      modifies `hardwareCursorRow, `maxLinesRendered, `previousViewportTop, `agrees
      ensures Ready() && Abstract() == AfterRender(old(Abstract()), rendered, overlays)
      ensures fullscreen == None ==> (Coupled() <==> agrees) && Pointed(CursorOf(rendered, Rows()))
    {
      hide InSync, Shows, NextFrame, ScrolledOff, Paintable, CursorOf, Prepared, NonEmptyLines;
      if fullscreen.Some? {
        preserveViewportOnNextRender := false;
        return;
      }
      ghost var paintable := Paintable(CurrentFrame(), RequestFor(rendered, overlays));
      RenderInline(rendered, overlays);
      agrees := paintable;
    }

    method RequestRender(force: bool)
      requires Ready()
      modifies `previousWidth, `hardwareCursorRow, `maxLinesRendered
      ensures Ready() && Abstract() == if force then After(old(Abstract()), ForceRender) else old(Abstract())
    {
      if force {
        previousWidth := -1;
        hardwareCursorRow := 0;
        maxLinesRendered := 0;
      }
    }

    method EnterFullscreen()
      requires Ready()
      modifies `fullscreen
      ensures Ready() && Abstract() == After(old(Abstract()), Step.EnterFullscreen)
    {
      if fullscreen.Some? {
        return;
      }
      fullscreen := Some(InlineState(previousLines, previousWidth, previousHeight,
                                     hardwareCursorRow, maxLinesRendered, previousViewportTop));
    }

    // The inline display takes up where it was left.
    method Resume()
      requires Ready() && fullscreen.Some?
      modifies `fullscreen, `previousLines, `previousWidth, `previousHeight
      modifies `hardwareCursorRow, `maxLinesRendered, `previousViewportTop
      ensures Ready() && fullscreen == None
      ensures Abstract() == After(old(Abstract()), Step.ExitFullscreen(None))
    {
      var inlineState := fullscreen.value;
      fullscreen := None;
      previousLines := inlineState.previousLines;
      previousWidth, previousHeight := inlineState.previousWidth, inlineState.previousHeight;
      hardwareCursorRow := inlineState.hardwareCursorRow;
      maxLinesRendered := inlineState.maxLinesRendered;
      previousViewportTop := inlineState.previousViewportTop;
    }

    // By default the inline display is brought up to date at once.
    method ExitFullscreen(flush: Option<(seq<string>, bool)>)
      requires Ready() && Admits(Abstract(), Step.ExitFullscreen(flush))
      modifies this
      ensures Ready() && Abstract() == After(old(Abstract()), Step.ExitFullscreen(flush))
      ensures old(fullscreen).Some? && flush.Some? ==> (Coupled() <==> agrees)
    {
      if fullscreen == None {
        return;
      }
      Resume();
      if flush.Some? {
        DoRender(flush.value.0, flush.value.1);
      }
    }

    // The terminal has been resized. Before the first frame a clean screen is all there is to know.
    method Resize(resized: Screen, newColumns: int)
      requires Ready() && Admits(Abstract(), Step.Resize(resized, newColumns))
      modifies `screen, `columns, `agrees
      ensures Ready() && Abstract() == After(old(Abstract()), Step.Resize(resized, newColumns))
    {
      agrees := Resumes().previousWidth == 0 && Clean(resized);
      screen, columns := resized, newColumns;
    }

    method Perform(step: Step)
      requires Ready() && Admits(Abstract(), step)
      modifies this
      ensures Ready() && Abstract() == After(old(Abstract()), step)
      ensures step.Render? && fullscreen == None ==> (Coupled() <==> agrees) && Pointed(CursorOf(step.lines, Rows()))
    {
      hide InSync, SettledScreen, AfterRender, CursorOf;
      match step
      case Render(lines, overlays) => DoRender(lines, overlays);
      case ForceRender => RequestRender(true);
      case PreserveViewport => preserveViewportOnNextRender := true;
      case SetClearOnShrink(enabled) => clearOnShrink := enabled;
      case Resize(resized, newColumns) => Resize(resized, newColumns);
      case EnterFullscreen => EnterFullscreen();
      case ExitFullscreen(flush) => ExitFullscreen(flush);
    }

    /** Every session, up to the first edit of a frame that is not on screen: after each render screen and bookkeeping
        agree exactly if its frame was paintable, with the cursor sent to the marker. A resize that goes unnoticed and
        an unpaintable frame disturb the screen; a forced frame, a resize or a redraw on shrinking repair it. */
    method PlaySession(steps: seq<Step>)
      requires Ready() && AdmitsAll(Abstract(), steps)
      modifies this
      ensures Ready() && Abstract() == AfterAll(old(Abstract()), steps)
      ensures steps != [] && steps[|steps| - 1].Render? && fullscreen == None ==>
        (Coupled() <==> agrees) && Pointed(CursorOf(steps[|steps| - 1].lines, Rows()))
    {
      if steps == [] {
        return;
      }
      PlaySession(steps[..|steps| - 1]);
      Perform(steps[|steps| - 1]);
    }

    /** With redraw-on-shrink on and no overlays, a session that ends in a frame on the inline display leaves exactly
        the last lines that fit on the terminal. */
    method PlayPlainSession(steps: seq<Step>)
      requires Ready() && TailShown(Abstract()) && AdmitsAll(Abstract(), steps)
      requires forall i :: 0 <= i < |steps| ==> Plain(steps[i])
      requires steps != [] && steps[|steps| - 1].Render?
      modifies this
      ensures Ready() && Abstract() == AfterAll(old(Abstract()), steps)
      ensures fullscreen == None ==>
        && previousLines == Prepared(steps[|steps| - 1].lines, Rows())
        && Shows(screen, previousLines, TailTop(previousLines, Rows()))
        && (PlainLines(steps[|steps| - 1].lines) ==> ShowsText(screen, steps[|steps| - 1].lines))
    {
      hide PlainLines, ShowsText, Prepared, Ready;
      ghost var before := AfterAll(Abstract(), steps[..|steps| - 1]);
      SessionShowsTail(Abstract(), steps[..|steps| - 1]);
      RenderShowsTail(before, steps[|steps| - 1].lines);
      PlaySession(steps);
      if fullscreen == None && PlainLines(steps[|steps| - 1].lines) {
        PlainLinesShown(screen, steps[|steps| - 1].lines);
      }
    }
  }
}
