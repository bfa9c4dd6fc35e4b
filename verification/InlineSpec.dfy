/** What the inline display must show after every frame, independent of how a frame is painted, and
    what follows from that over whole sessions.
 */
module InlineSpec {
  import opened Basics
  import opened Frames
  import Search
  import opened Terminal

  // The transcript on screen: `lines`, of which line `top` is shown on the first row.
  datatype Frame = Frame(lines: seq<string>, top: int, maxLines: int)

  // One frame to render: the prepared lines, and what the terminal and the options look like.
  datatype Request = Request(
    lines: seq<string>,
    cursor: Option<CursorPos>,
    height: int,
    resized: bool,
    overlays: bool,
    clearOnShrink: bool)

  function LineAt(lines: seq<string>, i: int): string {
    if 0 <= i < |lines| then lines[i] else ""
  }

  function CommonPrefix(a: seq<string>, b: seq<string>): (n: nat)
    ensures n <= |a| && n <= |b| && a[..n] == b[..n]
    ensures n < |a| && n < |b| ==> a[n] != b[n]
  {
    if a == [] || b == [] || a[0] != b[0] then 0
    else
      var n := CommonPrefix(a[1..], b[1..]);
      assert a[..n + 1] == [a[0]] + a[1..][..n];
      assert b[..n + 1] == [b[0]] + b[1..][..n];
      n + 1
  }

  // The line shown on the first row when the last `height` lines fill the screen.
  function TailTop(lines: seq<string>, height: int): int { Max(0, |lines| - height) }

  /** The frames that cannot be reached by editing what is on screen: the first one, a resized
      screen, a shrink that must not leave blank rows, and changes above the first visible row. */
  predicate Redraws(f: Frame, q: Request) {
    || f.lines == []
    || q.resized
    || (q.clearOnShrink && |q.lines| < f.maxLines && !q.overlays)
    || (f.lines != q.lines
        && var same := CommonPrefix(f.lines, q.lines);
           if same == |q.lines| then Max(0, |q.lines| - 1) < f.top || |f.lines| - |q.lines| > q.height
           else same < f.top)
  }

  function NextFrame(f: Frame, q: Request): Frame {
    if Redraws(f, q) then
      Frame(q.lines, TailTop(q.lines, q.height),
            if f.lines == [] && !q.resized then Max(f.maxLines, |q.lines|) else |q.lines|)
    else
      Frame(q.lines, Max(f.top, |q.lines| - q.height), Max(f.maxLines, |q.lines|))
  }

  /** The requests after which screen and bookkeeping agree again: a cursor marker must be on
      screen, and a frame must not become empty by editing alone. */
  predicate Paintable(f: Frame, q: Request) {
    && (q.cursor.Some? ==> NextFrame(f, q).top <= q.cursor.value.row)
    && (q.lines == [] ==> Redraws(f, q))
  }

  function Between(lines: seq<string>, from: int, to: int): seq<string> {
    if 0 <= from <= to <= |lines| then lines[from..to] else []
  }

  // What a frame pushes into the scrollback: nothing, or lines of the new frame.
  function ScrolledOff(f: Frame, q: Request): seq<string> {
    if !Redraws(f, q) then Between(q.lines, f.top, NextFrame(f, q).top)
    else if f.lines == [] then Between(q.lines, 0, TailTop(q.lines, q.height))
    else []
  }

  ghost predicate NonEmptyLines(lines: seq<string>) {
    forall i :: 0 <= i < |lines| ==> lines[i] != ""
  }

  ghost predicate Shows(s: Screen, lines: seq<string>, top: int) {
    forall r :: 0 <= r < |s.rows| ==> s.rows[r] == LineAt(lines, top + r)
  }

  // The screen shows the last lines that fit, each with a reset behind its text, and is empty below them.
  ghost predicate ShowsText(s: Screen, lines: seq<string>) {
    var top := Max(0, |lines| - |s.rows|);
    forall r :: 0 <= r < |s.rows| ==>
      s.rows[r] == if top + r < |lines| then lines[top + r] + "\U{1b}[0m\U{1b}]8;;\U{07}" else ""
  }

  // Lines whose text goes to the screen as it is.
  ghost predicate PlainLines(lines: seq<string>) {
    forall i :: 0 <= i < |lines| ==> PlainText(lines[i]) && Unmarked(lines[i])
  }

  lemma PlainLinesShown(s: Screen, lines: seq<string>)
    requires PlainLines(lines) && Shows(s, Prepared(lines, |s.rows|), TailTop(lines, |s.rows|))
    ensures ShowsText(s, lines)
  {
    var prepared, top := Prepared(lines, |s.rows|), TailTop(lines, |s.rows|);
    forall i | 0 <= i < |lines| ensures prepared[i] == lines[i] + "\U{1b}[0m\U{1b}]8;;\U{07}" {
      PlainPrepared(lines, |s.rows|, i);
    }
    forall r | 0 <= r < |s.rows|
      ensures s.rows[r] == if top + r < |lines| then lines[top + r] + "\U{1b}[0m\U{1b}]8;;\U{07}" else ""
    {
      assert s.rows[r] == LineAt(prepared, top + r);
    }
  }

  // ---------- Sessions ----------

  // A remembered frame with the terminal size it was written for: 0 before the first frame, and
  // width -1 when a full repaint has been forced.
  datatype Memory = Memory(frame: Frame, width: int, height: int)

  // Everything that decides what the next frame looks like.
  datatype Display = Display(
    memory: Memory,
    columns: int,
    rows: int,
    scrollback: seq<string>,
    clearOnShrink: bool,
    preserves: bool,               // the next frame is to leave the scrollback alone
    agrees: bool,                  // the memory is what is on screen, as far as the size has not changed
    fullscreen: Option<Memory>)
  {
    // The memory the inline display resumes from.
    function Inline(): Memory { if fullscreen.Some? then fullscreen.value else memory }
  }

  datatype Step =
    | Render(lines: seq<string>, overlays: bool)
    | ForceRender
    | PreserveViewport
    | SetClearOnShrink(enabled: bool)
    | Resize(screen: Screen, columns: int)          // the terminal decides what is left on screen
    | EnterFullscreen
    | ExitFullscreen(flush: Option<(seq<string>, bool)>)

  // Nothing has been written to the screen.
  predicate Clean(screen: Screen) { screen.Blank() && screen.row == 0 && screen.col == 0 && !screen.clamped }

  function SizeDiffers(m: Memory, columns: int, rows: int): bool {
    (m.width != 0 && m.width != columns) || (m.height != 0 && m.height != rows)
  }

  function RequestOn(d: Display, lines: seq<string>, overlays: bool): Request {
    Request(Prepared(lines, Max(0, d.rows)), CursorOf(lines, Max(0, d.rows)), d.rows,
            SizeDiffers(d.memory, d.columns, d.rows), overlays, d.clearOnShrink)
  }

  function AfterRender(d: Display, lines: seq<string>, overlays: bool): Display {
    if d.fullscreen.Some? then d.(preserves := false)
    else
      var q := RequestOn(d, lines, overlays);
      d.(memory := Memory(NextFrame(d.memory.frame, q), d.columns, d.rows),
         scrollback := d.scrollback + ScrolledOff(d.memory.frame, q),
         preserves := false,
         agrees := Paintable(d.memory.frame, q))
  }

  function After(d: Display, step: Step): Display {
    match step
    case Render(lines, overlays) => AfterRender(d, lines, overlays)
    case ForceRender => d.(memory := d.memory.(width := -1, frame := d.memory.frame.(maxLines := 0)))
    case PreserveViewport => d.(preserves := true)
    case SetClearOnShrink(enabled) => d.(clearOnShrink := enabled)
    case Resize(screen, columns) =>
      d.(columns := columns, rows := |screen.rows|, scrollback := screen.scrollback,
         agrees := d.Inline().width == 0 && Clean(screen))
    case EnterFullscreen => if d.fullscreen.Some? then d else d.(fullscreen := Some(d.memory))
    case ExitFullscreen(flush) =>
      if d.fullscreen == None then d
      else
        var resumed := d.(memory := d.fullscreen.value, fullscreen := None);
        if flush.Some? then AfterRender(resumed, flush.value.0, flush.value.1) else resumed
  }

  function AfterAll(d: Display, steps: seq<Step>): Display {
    if steps == [] then d else After(AfterAll(d, steps[..|steps| - 1]), steps[|steps| - 1])
  }

  ghost predicate Renders(d: Display, lines: seq<string>, overlays: bool) {
    d.fullscreen.Some? || Paintable(d.memory.frame, RequestOn(d, lines, overlays))
  }

  // The frame is written anew, whatever is on screen: after a resize, when forced, or to redraw on shrinking.
  predicate Repaints(d: Display, lines: seq<string>, overlays: bool) {
    || SizeDiffers(d.memory, d.columns, d.rows)
    || (d.memory.frame.lines != [] && d.clearOnShrink && |lines| < d.memory.frame.maxLines && !overlays && !d.preserves)
  }

  // A frame that is not on screen is not to be edited.
  predicate AdmitsRender(d: Display, lines: seq<string>, overlays: bool) {
    d.fullscreen.Some? || d.agrees || Repaints(d, lines, overlays)
  }

  /** The steps the display can take. A terminal that is resized leaves an arbitrary screen, and the display only
      notices if its size differs from that of the last frame. */
  predicate Admits(d: Display, step: Step) {
    match step
    case Render(lines, overlays) => AdmitsRender(d, lines, overlays)
    case Resize(screen, columns) => 0 <= screen.row < |screen.rows| && 0 <= screen.col && 0 < columns
    case ExitFullscreen(Some(flush)) =>
      d.fullscreen.Some? ==> AdmitsRender(d.(memory := d.fullscreen.value, fullscreen := None), flush.0, flush.1)
    case _ => true
  }

  ghost predicate AdmitsAll(d: Display, steps: seq<Step>) {
    steps == [] ||
    (AdmitsAll(d, steps[..|steps| - 1]) && Admits(AfterAll(d, steps[..|steps| - 1]), steps[|steps| - 1]))
  }

  /** Whatever was on screen, a frame that repaints it agrees with it afterwards; a forced frame always repaints, and so
      does one after a resize to another size. */
  lemma RepaintRepairs(d: Display, lines: seq<string>, overlays: bool)
    requires d.fullscreen == None && 0 < d.columns && 0 < d.rows
    ensures Repaints(d, lines, overlays) ==> AfterRender(d, lines, overlays).agrees
    ensures AfterRender(After(d, ForceRender), lines, overlays).agrees
    ensures forall screen: Screen, columns :: SizeDiffers(d.memory, columns, |screen.rows|) ==>
      Repaints(After(d, Resize(screen, columns)), lines, overlays)
  {
    var forced := After(d, ForceRender);
    assert Repaints(forced, lines, overlays);
    assert AfterRender(forced, lines, overlays).agrees;
  }

  /** A terminal that has got another number of columns or rows since a frame makes the next frame repaint. */
  lemma ResizeRepaints(d: Display, lines: seq<string>, overlays: bool, screen: Screen, columns: int,
                       next: seq<string>, nextOverlays: bool)
    requires d.fullscreen == None && 0 < d.columns && 0 < d.rows
    requires columns != d.columns || |screen.rows| != d.rows
    ensures Repaints(After(AfterRender(d, lines, overlays), Resize(screen, columns)), next, nextOverlays)
  {
  }

  // Frames that are edited one into the other.
  ghost predicate Edits(f: Frame, qs: seq<Request>) {
    qs == [] || (Edits(f, qs[..|qs| - 1]) && !Redraws(NextFrames(f, qs[..|qs| - 1]), qs[|qs| - 1]))
  }

  function NextFrames(f: Frame, qs: seq<Request>): Frame {
    if qs == [] then f else NextFrame(NextFrames(f, qs[..|qs| - 1]), qs[|qs| - 1])
  }

  /** With redraw-on-shrink, a frame without overlays is written anew if any frame since the last repaint had more
      lines, and edited otherwise if nothing else is against it; a repaint starts the count again. */
  lemma {:induction false} ShrinkRedraws(f: Frame, qs: seq<Request>, q: Request)
    requires Edits(f, qs) && q.clearOnShrink && !q.overlays
    ensures |q.lines| < f.maxLines || (exists i :: 0 <= i < |qs| && |q.lines| < |qs[i].lines|) ==>
      Redraws(NextFrames(f, qs), q)
    ensures f.maxLines <= |q.lines| && (forall i :: 0 <= i < |qs| ==> |qs[i].lines| <= |q.lines|) ==>
      NextFrames(f, qs).maxLines <= |q.lines|
    ensures Redraws(NextFrames(f, qs), q) && NextFrames(f, qs).lines != [] ==>
      NextFrame(NextFrames(f, qs), q).maxLines == |q.lines|
  {
    hide CommonPrefix;
    HighWater(f, qs);
  }

  lemma {:induction false} HighWater(f: Frame, qs: seq<Request>)
    requires Edits(f, qs)
    ensures f.maxLines <= NextFrames(f, qs).maxLines
    ensures forall i :: 0 <= i < |qs| ==> |qs[i].lines| <= NextFrames(f, qs).maxLines
    ensures NextFrames(f, qs).maxLines == f.maxLines
            || exists i :: 0 <= i < |qs| && NextFrames(f, qs).maxLines == |qs[i].lines|
  {
    hide CommonPrefix;
    if qs != [] {
      HighWater(f, qs[..|qs| - 1]);
    }
  }

  // ---------- What whole sessions keep ----------

  // The frame shows the last lines that fit the screen it was written for.
  ghost predicate ShowsTail(m: Memory) {
    && m.frame.top == TailTop(m.frame.lines, m.height)
    && (m.frame.lines != [] ==> m.width != 0 && m.height != 0)
    && (m.width == -1 || |m.frame.lines| <= m.frame.maxLines)
  }

  ghost predicate TailShown(d: Display) {
    && d.clearOnShrink && 0 < d.columns && 0 < d.rows
    && ShowsTail(d.memory) && (d.fullscreen.Some? ==> ShowsTail(d.fullscreen.value))
  }

  // Overlays are never up, and the option to redraw on shrinking stays on.
  predicate Plain(step: Step) {
    match step
    case Render(_, overlays) => !overlays
    case SetClearOnShrink(enabled) => enabled
    case ExitFullscreen(Some(flush)) => !flush.1
    case _ => true
  }

  lemma RenderShowsTail(d: Display, lines: seq<string>)
    requires TailShown(d)
    ensures TailShown(AfterRender(d, lines, false))
    ensures Renders(d, lines, false)
    ensures d.fullscreen == None ==>
              var frame := AfterRender(d, lines, false).memory.frame;
              frame.lines == Prepared(lines, Max(0, d.rows)) && frame.top == TailTop(frame.lines, d.rows)
  {
    if d.fullscreen == None {
      var q := RequestOn(d, lines, false);
      assert NextFrame(d.memory.frame, q).top == TailTop(q.lines, d.rows);
    }
  }

  /** With redraw-on-shrink on and no overlays, every frame shows exactly the last lines that fit, through
      any resizes, forced frames and visits to the alternate screen. */
  lemma {:induction false} SessionShowsTail(d: Display, steps: seq<Step>)
    requires TailShown(d) && AdmitsAll(d, steps)
    requires forall i :: 0 <= i < |steps| ==> Plain(steps[i])
    ensures TailShown(AfterAll(d, steps))
  {
    if steps != [] {
      var before := AfterAll(d, steps[..|steps| - 1]);
      SessionShowsTail(d, steps[..|steps| - 1]);
      var step := steps[|steps| - 1];
      match step
      case Render(lines, overlays) => RenderShowsTail(before, lines);
      case ExitFullscreen(Some(flush)) =>
        if before.fullscreen.Some? {
          RenderShowsTail(before.(memory := before.fullscreen.value, fullscreen := None), flush.0);
        }
      case _ =>
    }
  }

  /** Then the screen does not depend on how it came about: editing the old frame and repainting all of
      it show the same lines in the same rows. */
  lemma EditShowsWhatRedrawShows(d: Display, steps: seq<Step>, lines: seq<string>)
    requires TailShown(d) && AdmitsAll(d, steps)
    requires forall i :: 0 <= i < |steps| ==> Plain(steps[i])
    ensures var before := AfterAll(d, steps);
            var edited, redrawn :=
              AfterRender(before, lines, false), AfterRender(After(before, ForceRender), lines, false);
            && Renders(before, lines, false)
            && (before.fullscreen == None ==>
                  && edited.memory.frame.lines == redrawn.memory.frame.lines == Prepared(lines, Max(0, before.rows))
                  && edited.memory.frame.top == redrawn.memory.frame.top
                    == TailTop(edited.memory.frame.lines, before.rows))
  {
    SessionShowsTail(d, steps);
    RenderShowsTail(AfterAll(d, steps), lines);
    RenderShowsTail(After(AfterAll(d, steps), ForceRender), lines);
  }

  // A transcript that only grows, and changes nothing that has already scrolled off.
  ghost predicate Streams(d: Display, lines: seq<string>) {
    var q := RequestOn(d, lines, false);
    && d.fullscreen == None && !q.resized
    && |d.memory.frame.lines| <= |q.lines|
    && d.memory.frame.top <= CommonPrefix(d.memory.frame.lines, q.lines)
  }

  ghost predicate StreamsAll(d: Display, frames: seq<seq<string>>) {
    frames == [] ||
    (StreamsAll(d, frames[..|frames| - 1]) && Streams(AfterFrames(d, frames[..|frames| - 1]), frames[|frames| - 1]))
  }

  function AfterFrames(d: Display, frames: seq<seq<string>>): Display {
    if frames == [] then d else AfterRender(AfterFrames(d, frames[..|frames| - 1]), frames[|frames| - 1], false)
  }

  ghost predicate TranscriptKept(d: Display, base: seq<string>) {
    var f := d.memory.frame;
    && 0 < d.rows && d.fullscreen == None && f.maxLines <= |f.lines|
    && (f.lines == [] ==> f.top == 0)
    && TailTop(f.lines, d.rows) <= f.top <= |f.lines|
    && d.scrollback == base + f.lines[..f.top]
  }

  /** While a transcript streams in, nothing of it is lost or written twice: the scrollback followed by
      the lines on screen is the whole transcript. */
  lemma {:induction false} StreamingKeepsTranscript(d: Display, frames: seq<seq<string>>, base: seq<string>)
    requires TranscriptKept(d, base) && StreamsAll(d, frames)
    ensures TranscriptKept(AfterFrames(d, frames), base)
    ensures var last := AfterFrames(d, frames);
            last.scrollback + last.memory.frame.lines[last.memory.frame.top..] == base + last.memory.frame.lines
  {
    if frames != [] {
      StreamingKeepsTranscript(d, frames[..|frames| - 1], base);
      StreamedFrame(AfterFrames(d, frames[..|frames| - 1]), frames[|frames| - 1], base);
    }
    WholeTranscript(AfterFrames(d, frames), base);
  }

  lemma WholeTranscript(d: Display, base: seq<string>)
    requires TranscriptKept(d, base)
    ensures d.scrollback + d.memory.frame.lines[d.memory.frame.top..] == base + d.memory.frame.lines
  {
    var f := d.memory.frame;
    SliceJoin(base, f.lines, 0, f.top, |f.lines|);
    assert f.lines[0..|f.lines|] == f.lines;
  }

  lemma StreamedFrame(d: Display, lines: seq<string>, base: seq<string>)
    requires TranscriptKept(d, base) && Streams(d, lines)
    ensures TranscriptKept(AfterRender(d, lines, false), base)
  {
    var f, q := d.memory.frame, RequestOn(d, lines, false);
    var next := NextFrame(f, q);
    if f.lines == [] {
      assert base + q.lines[..0] == base;
    } else {
      SamePrefix(f.lines, q.lines, f.top);
      SliceJoin(base, q.lines, 0, f.top, next.top);
    }
  }

  lemma SamePrefix(a: seq<string>, b: seq<string>, n: int)
    requires 0 <= n <= CommonPrefix(a, b)
    ensures a[..n] == b[..n]
  {
    var same := CommonPrefix(a, b);
    assert a[..n] == a[..same][..n] == b[..same][..n] == b[..n];
  }

  // ---------- Requests the renderer does not get right ----------

  // A clean terminal on which nothing has been rendered, with redrawing on shrink off.
  function Start(columns: int, rows: int): Display {
    Display(Memory(Frame([], 0, 0), 0, 0), columns, rows, [], false, false, true, None)
  }

  /** Editing a frame down to nothing leaves its first line on screen. After a first frame that is exactly what
      happens to any frame that fits the screen. */
  lemma EmptyFrameIsNotPaintable(columns: int, rows: int, lines: seq<string>)
    requires 0 < columns && 0 < rows
    ensures Renders(Start(columns, rows), lines, false)
    ensures var shown := AfterRender(Start(columns, rows), lines, false);
      && (Renders(shown, [], false) <==> lines == [] || |lines| > rows)
      && Renders(shown.(clearOnShrink := true), [], false)
  {
    var shown := AfterRender(Start(columns, rows), lines, false);
    assert shown.memory.frame == Frame(Prepared(lines, rows), TailTop(lines, rows), |lines|);
    assert CommonPrefix(shown.memory.frame.lines, []) == 0;
  }

  /** After a shrink the first line on screen can lie below a marker that is still looked for: when a transcript
      that overfills the screen is cut back to as many lines as there are rows, the cursor must be on one of the
      lines that are still shown. */
  lemma MarkerAboveScreenIsNotPaintable(columns: int, rows: nat, lines: seq<string>, row: nat)
    requires 0 < columns && row < rows < |lines| < 2 * rows
    requires forall i :: 0 <= i < |lines| ==> |lines[i]| < |CURSOR_MARKER|
    ensures var shown := AfterRender(Start(columns, rows), lines, false);
      && Renders(Start(columns, rows), lines, false)
      && (Renders(shown, lines[..rows][row := CURSOR_MARKER + lines[row]], false) <==> |lines| - rows <= row)
  {
    var cut := lines[..rows];
    PreparedPlain(lines, rows);
    PreparedMarked(cut, row);
    var long, short := Prepared(lines, rows), Prepared(cut[row := CURSOR_MARKER + cut[row]], rows);
    assert long[..rows] == short;
    hide Prepared, CursorOf, WithReset, Paintable;
    var shown := AfterRender(Start(columns, rows), lines, false);
    assert shown.memory.frame == Frame(long, |lines| - rows, |lines|);
    CutBackToRows(long, rows, row);
    FirstFrameRenders(columns, rows, lines);
  }

  lemma FirstFrameRenders(columns: int, rows: nat, lines: seq<string>)
    requires 0 < rows
    ensures Renders(Start(columns, rows), lines, false)
  {
  }

  lemma CutBackToRows(long: seq<string>, rows: nat, row: nat)
    requires row < rows < |long| < 2 * rows
    ensures Paintable(Frame(long, |long| - rows, |long|),
                      Request(long[..rows], Some(CursorPos(row, 0)), rows, false, false, false))
       <==> |long| - rows <= row
  {
    PrefixInCommon(long, long[..rows]);
  }

  lemma PreparedPlain(lines: seq<string>, height: nat)
    requires forall i :: 0 <= i < |lines| ==> |lines[i]| < |CURSOR_MARKER|
    ensures CursorOf(lines, height) == None
    ensures Prepared(lines, height) == seq(|lines|, i requires 0 <= i < |lines| => WithReset(lines[i]))
  {
  }

  // A marker put in front of a line that is looked at sets the cursor there and is taken out again.
  lemma PreparedMarked(lines: seq<string>, row: nat)
    requires row < |lines| && forall i :: 0 <= i < |lines| ==> |lines[i]| < |CURSOR_MARKER|
    ensures var marked := lines[row := CURSOR_MARKER + lines[row]];
      && CursorOf(marked, |lines|) == Some(CursorPos(row, 0))
      && Prepared(marked, |lines|) == seq(|lines|, i requires 0 <= i < |lines| => WithReset(lines[i]))
  {
    var marked := lines[row := CURSOR_MARKER + lines[row]];
    assert marked[row][..|CURSOR_MARKER|] == CURSOR_MARKER;
    assert Search.IndexOf(marked[row], CURSOR_MARKER) == 0;
    MarkerRowIs(marked, 0, row);
    assert WithoutMarker(marked[row]) == lines[row];
    assert Stripped(marked, |lines|) == lines;
  }

  lemma {:induction false} PrefixInCommon(a: seq<string>, b: seq<string>)
    requires |b| <= |a| && a[..|b|] == b
    ensures CommonPrefix(a, b) == |b|
  {
    assert forall i :: 0 <= i < |b| ==> a[i] == a[..|b|][i];
  }
}
