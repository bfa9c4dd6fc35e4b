/** Which columns of a frame can be selected under a stack of overlays (packages/tui/src/tui.ts). */
module SelectionRegions {
  import opened Basics

  datatype Region = Region(line: int, col: int, width: int)
  {
    predicate Has(l: int, x: int) { l == line && col <= x < col + width }
  }

  // Columns from (inclusive) to (exclusive).
  datatype Span = Span(from: int, to: int)

  ghost predicate Selectable(regions: seq<Region>, l: int, x: int) {
    exists k :: 0 <= k < |regions| && regions[k].Has(l, x)
  }

  ghost predicate Apart(a: Region, b: Region) {
    a.line == b.line ==> a.col + a.width <= b.col || b.col + b.width <= a.col
  }

  // No region is empty, and no column belongs to two of them.
  ghost predicate Disjoint(regions: seq<Region>) {
    && (forall k :: 0 <= k < |regions| ==> regions[k].width > 0)
    && (forall j, k :: 0 <= j < k < |regions| ==> Apart(regions[j], regions[k]))
  }

  // The part of an overlay on one line: what it covers, and what can be selected of it.
  datatype Row = Row(line: int, col: int, width: nat, span: Option<Span>)
  {
    predicate Covers(l: int, x: int) { l == line && col <= x < col + width }

    predicate Offers(l: int, x: int) { span.Some? && l == line && col + span.value.from <= x < col + span.value.to }

    ghost predicate Valid() { span.Some? ==> 0 <= span.value.from < span.value.to <= width }

    function Offer(): seq<Region> {
      if span.Some? then [Region(line, col + span.value.from, span.value.to - span.value.from)] else []
    }
  }

  // ---------- Covering columns ----------

  // What is left of a region, from left to right.
  function Pieces(region: Region, line: int, coverStart: int, coverEnd: int): seq<Region> {
    var end := region.col + region.width;
    if region.line != line || coverEnd <= region.col || coverStart >= end then [region]
    else
      (if region.col < coverStart then [Region(line, region.col, coverStart - region.col)] else [])
      + (if coverEnd < end then [Region(line, coverEnd, end - coverEnd)] else [])
  }

  function AllPieces(regions: seq<Region>, line: int, coverStart: int, coverEnd: int): seq<Region> {
    if regions == [] then []
    else Pieces(regions[0], line, coverStart, coverEnd) + AllPieces(regions[1..], line, coverStart, coverEnd)
  }

  lemma PieceColumns(region: Region, line: int, coverStart: int, coverEnd: int, l: int, x: int)
    requires coverStart <= coverEnd
    ensures Selectable(Pieces(region, line, coverStart, coverEnd), l, x)
       <==> region.Has(l, x) && !(l == line && coverStart <= x < coverEnd)
  {
    var pieces := Pieces(region, line, coverStart, coverEnd);
    var end := region.col + region.width;
    if region.line == line && coverEnd > region.col && coverStart < end {
      if region.col < coverStart {
        assert pieces[0] == Region(line, region.col, coverStart - region.col);
      }
      if coverEnd < end {
        assert pieces[|pieces| - 1] == Region(line, coverEnd, end - coverEnd);
      }
    } else {
      assert pieces[0] == region;
    }
  }

  lemma SelectableConcat(a: seq<Region>, b: seq<Region>, l: int, x: int)
    ensures Selectable(a + b, l, x) <==> Selectable(a, l, x) || Selectable(b, l, x)
  {
    if Selectable(a, l, x) {
      var k :| 0 <= k < |a| && a[k].Has(l, x);
      assert (a + b)[k].Has(l, x);
    }
    if Selectable(b, l, x) {
      var k :| 0 <= k < |b| && b[k].Has(l, x);
      assert (a + b)[|a| + k].Has(l, x);
    }
  }

  /** Exactly the covered columns are gone. */
  lemma {:induction false} CoveredColumns(regions: seq<Region>, line: int, coverStart: int, coverEnd: int, l: int,
                                          x: int)
    requires coverStart <= coverEnd
    ensures Selectable(AllPieces(regions, line, coverStart, coverEnd), l, x)
       <==> Selectable(regions, l, x) && !(l == line && coverStart <= x < coverEnd)
  {
    if regions != [] {
      PieceColumns(regions[0], line, coverStart, coverEnd, l, x);
      CoveredColumns(regions[1..], line, coverStart, coverEnd, l, x);
      SelectableConcat(Pieces(regions[0], line, coverStart, coverEnd),
                       AllPieces(regions[1..], line, coverStart, coverEnd), l, x);
      SelectableConcat([regions[0]], regions[1..], l, x);
      assert [regions[0]] + regions[1..] == regions;
      assert [regions[0]][0] == regions[0];
    }
  }

  // A piece lies inside a region of the list it comes from.
  ghost predicate Inside(a: Region, b: Region) {
    a.line == b.line && b.col <= a.col && a.col + a.width <= b.col + b.width && a.width > 0
  }

  ghost predicate ComesFrom(piece: Region, regions: seq<Region>) {
    exists k :: 0 <= k < |regions| && Inside(piece, regions[k])
  }

  lemma PiecesInside(region: Region, line: int, coverStart: int, coverEnd: int)
    requires region.width > 0 && coverStart <= coverEnd
    ensures var pieces := Pieces(region, line, coverStart, coverEnd);
      && Disjoint(pieces) && forall i :: 0 <= i < |pieces| ==> Inside(pieces[i], region)
  {
  }

  lemma {:induction false} PiecesStayDisjoint(regions: seq<Region>, line: int, coverStart: int, coverEnd: int)
    requires Disjoint(regions) && coverStart <= coverEnd
    ensures var pieces := AllPieces(regions, line, coverStart, coverEnd);
      Disjoint(pieces) && forall i :: 0 <= i < |pieces| ==> ComesFrom(pieces[i], regions)
  {
    if regions != [] {
      var first, rest := Pieces(regions[0], line, coverStart, coverEnd),
        AllPieces(regions[1..], line, coverStart, coverEnd);
      PiecesInside(regions[0], line, coverStart, coverEnd);
      PiecesStayDisjoint(regions[1..], line, coverStart, coverEnd);
      forall i | 0 <= i < |first + rest| ensures ComesFrom((first + rest)[i], regions) {
        if i < |first| {
          assert Inside(first[i], regions[0]);
        } else {
          var k :| 0 <= k < |regions[1..]| && Inside(rest[i - |first|], regions[1..][k]);
          assert Inside(rest[i - |first|], regions[k + 1]);
        }
      }
      forall i, j | 0 <= i < |first| && 0 <= j < |rest| ensures Apart(first[i], rest[j]) {
        var k :| 0 <= k < |regions[1..]| && Inside(rest[j], regions[1..][k]);
        assert Apart(regions[0], regions[k + 1]);
      }
      DisjointConcat(first, rest);
    }
  }

  lemma DisjointConcat(a: seq<Region>, b: seq<Region>)
    requires Disjoint(a) && Disjoint(b) && forall i, j :: 0 <= i < |a| && 0 <= j < |b| ==> Apart(a[i], b[j])
    ensures Disjoint(a + b)
  {
    forall j, k | 0 <= j < k < |a + b| ensures Apart((a + b)[j], (a + b)[k]) {
      if j < |a| && k >= |a| {
        assert Apart(a[j], b[k - |a|]);
      }
    }
  }

  class SelectionMap {
    var regions: seq<Region>

    constructor ()
      ensures regions == []
    {
      regions := [];
    }

    // Goes through the list backwards and replaces each region by its pieces, so that no region is skipped and no
    // piece is looked at again.
    method SubtractSelectionCoverage(line: int, coverStart: int, coverEnd: int)
      modifies this
      ensures regions == AllPieces(old(regions), line, coverStart, coverEnd)
    {
      var i := |regions| - 1;
      while i >= 0
        invariant -1 <= i < |old(regions)|
        invariant regions == old(regions)[..i + 1] + AllPieces(old(regions)[i + 1..], line, coverStart, coverEnd)
      {
        var region := regions[i];
        ghost var done := old(regions)[i + 1..];
        assert old(regions)[i..] == [region] + done;
        var regionStart, regionEnd := region.col, region.col + region.width;
        if region.line != line || coverEnd <= regionStart || coverStart >= regionEnd {
          SpliceAt(old(regions), i, [region], done, line, coverStart, coverEnd);
          i := i - 1;
          continue;
        }
        var replacements: seq<Region> := [];
        if regionStart < coverStart {
          replacements := replacements + [Region(line, regionStart, coverStart - regionStart)];
        }
        if coverEnd < regionEnd {
          replacements := replacements + [Region(line, coverEnd, regionEnd - coverEnd)];
        }
        SpliceAt(old(regions), i, replacements, done, line, coverStart, coverEnd);
        regions := regions[..i] + replacements + regions[i + 1..];
        i := i - 1;
      }
      assert old(regions)[0..] == old(regions);
    }

    // One line of an overlay: it covers what is under it, then offers what it shows itself.
    method Composite(row: Row)
      requires row.Valid()
      modifies this
      ensures regions == After(old(regions), [row])
    {
      SubtractSelectionCoverage(row.line, row.col, row.col + row.width);
      var span := row.span;
      if span.Some? {
        regions := regions + [Region(row.line, row.col + span.value.from, span.value.to - span.value.from)];
      }
      assert [row][..0] == [];
    }

    /** The regions of all overlays, from the lowest to the topmost: a row of the frame takes part when it lies in
        the frame. The frame is padded to the height of the terminal and to the lowest overlay. */
    method CompositeOverlays(overlays: seq<Overlay>, frameLines: nat, termHeight: nat) returns (workingHeight: nat)
      requires forall k :: 0 <= k < |overlays| ==> overlays[k].Valid()
      modifies this
      ensures workingHeight == WorkingHeight(overlays, frameLines, termHeight)
      ensures regions == After(old(regions), AllRows(overlays, workingHeight, termHeight))
    {
      var minLinesNeeded: int := frameLines;
      for k := 0 to |overlays|
        invariant minLinesNeeded == LinesNeeded(overlays[..k], frameLines)
        invariant regions == old(regions)
      {
        TakeNext(overlays, k);
        minLinesNeeded := Max(minLinesNeeded, overlays[k].row + |overlays[k].spans|);
      }
      assert overlays[..|overlays|] == overlays;
      workingHeight := Max(Max(frameLines, termHeight), minLinesNeeded);
      for k := 0 to |overlays|
        invariant regions == After(old(regions), AllRows(overlays[..k], workingHeight, termHeight))
      {
        TakeNext(overlays, k);
        ghost var before := AllRows(overlays[..k], workingHeight, termHeight);
        AllRowsSnoc(overlays[..k], overlays[k], workingHeight, termHeight);
        AfterConcat(old(regions), before, overlays[k].Rows(|overlays[k].spans|, workingHeight, termHeight));
        CompositeOverlay(overlays[k], workingHeight, termHeight);
      }
      assert overlays[..|overlays|] == overlays;
    }

    method CompositeOverlay(overlay: Overlay, workingHeight: nat, termHeight: nat)
      requires overlay.Valid()
      modifies this
      ensures regions == After(old(regions), overlay.Rows(|overlay.spans|, workingHeight, termHeight))
    {
      var overlayStart := overlay.Start(workingHeight, termHeight);
      for i := 0 to |overlay.spans|
        invariant regions == After(old(regions), overlay.Rows(i, workingHeight, termHeight))
      {
        var idx := overlayStart + overlay.row + i;
        if idx >= 0 && idx < workingHeight {
          var row := Row(idx, overlay.col, overlay.width, overlay.Shown(i));
          AfterConcat(old(regions), overlay.Rows(i, workingHeight, termHeight), [row]);
          Composite(row);
        }
      }
    }

    // The dock: one region for each line with something on it.
    method CreateDockSelectionRegions(spans: seq<Option<Span>>, transcriptWindowHeight: int)
      requires forall k :: 0 <= k < |spans| && spans[k].Some? ==> spans[k].value.from < spans[k].value.to
      requires regions == []
      modifies this
      ensures Disjoint(regions)
      ensures forall l, x :: (Selectable(regions, l, x) <==>
        0 <= l < |spans| && transcriptWindowHeight <= l && spans[l].Some?
          && spans[l].value.from <= x < spans[l].value.to)
    {
      var row := Max(0, transcriptWindowHeight);
      while row < |spans|
        invariant 0 <= row && (transcriptWindowHeight <= row) && Disjoint(regions)
        invariant forall k :: 0 <= k < |regions| ==> regions[k].line < row
        invariant forall l, x :: (Selectable(regions, l, x) <==>
          0 <= l < |spans| && transcriptWindowHeight <= l < row && spans[l].Some?
          && spans[l].value.from <= x < spans[l].value.to)
      {
        if spans[row].Some? {
          var span := spans[row].value;
          ghost var before := regions;
          var region := Region(row, span.from, span.to - span.from);
          regions := regions + [region];
          assert [region][0] == region;
          forall l, x ensures Selectable(regions, l, x) <==> Selectable(before, l, x) || region.Has(l, x) {
            SelectableConcat(before, [region], l, x);
          }
        }
        row := row + 1;
      }
    }
  }

  // ---------- Stacks of overlays ----------

  // The regions after some rows have been composited, one after another.
  function After(regions: seq<Region>, rows: seq<Row>): seq<Region> {
    if rows == [] then regions
    else
      Composited(After(regions, rows[..|rows| - 1]), rows[|rows| - 1])
  }

  function Composited(regions: seq<Region>, row: Row): seq<Region> {
    AllPieces(regions, row.line, row.col, row.col + row.width) + row.Offer()
  }

  lemma CompositedColumns(regions: seq<Region>, row: Row, l: int, x: int)
    requires row.Valid()
    ensures Selectable(Composited(regions, row), l, x)
       <==> (Selectable(regions, l, x) && !row.Covers(l, x)) || row.Offers(l, x)
  {
    CoveredColumns(regions, row.line, row.col, row.col + row.width, l, x);
    SelectableConcat(AllPieces(regions, row.line, row.col, row.col + row.width), row.Offer(), l, x);
    if row.span.Some? {
      assert row.Offer()[0].Has(l, x) <==> row.Offers(l, x);
    }
  }

  lemma CompositedDisjoint(regions: seq<Region>, row: Row)
    requires Disjoint(regions) && row.Valid()
    ensures Disjoint(Composited(regions, row))
  {
    var pieces := AllPieces(regions, row.line, row.col, row.col + row.width);
    PiecesStayDisjoint(regions, row.line, row.col, row.col + row.width);
    forall i, j | 0 <= i < |pieces| && 0 <= j < |row.Offer()| ensures Apart(pieces[i], row.Offer()[j]) {
      ApartFromCover(regions, row, i);
    }
    DisjointConcat(pieces, row.Offer());
  }

  lemma {:induction false} AfterConcat(regions: seq<Region>, a: seq<Row>, b: seq<Row>)
    ensures After(regions, a + b) == After(After(regions, a), b)
  {
    if b == [] {
      assert a + b == a;
    } else {
      assert (a + b)[..|a + b| - 1] == a + b[..|b| - 1];
      AfterConcat(regions, a, b[..|b| - 1]);
    }
  }

  ghost predicate CoveredFrom(rows: seq<Row>, from: nat, l: int, x: int) {
    exists j :: from <= j < |rows| && rows[j].Covers(l, x)
  }

  /** After any stack: a column can be selected exactly when it could be before and no overlay covers it, or when
      an overlay offers it and no later one covers it. */
  lemma {:induction false} SelectableAfter(regions: seq<Region>, rows: seq<Row>, l: int, x: int)
    requires forall k :: 0 <= k < |rows| ==> rows[k].Valid()
    ensures Selectable(After(regions, rows), l, x)
       <==> (Selectable(regions, l, x) && !CoveredFrom(rows, 0, l, x))
            || Offered(rows, l, x)
  {
    if rows != [] {
      var n := |rows| - 1;
      var before, row := rows[..n], rows[n];
      assert forall k :: 0 <= k < n ==> before[k] == rows[k];
      SelectableAfter(regions, before, l, x);
      CompositedColumns(After(regions, before), row, l, x);
      OneMoreRow(rows, l, x);
      OfferedByOneMore(rows, l, x);
    }
  }

  lemma OneMoreRow(rows: seq<Row>, l: int, x: int)
    requires rows != []
    ensures var n := |rows| - 1;
      forall k: nat :: k <= n ==>
        (CoveredFrom(rows, k, l, x) <==> CoveredFrom(rows[..n], k, l, x) || rows[n].Covers(l, x))
    ensures !CoveredFrom(rows, |rows|, l, x)
  {
    var n := |rows| - 1;
    forall k: nat | k <= n
      ensures CoveredFrom(rows, k, l, x) <==> CoveredFrom(rows[..n], k, l, x) || rows[n].Covers(l, x)
    {
      if CoveredFrom(rows[..n], k, l, x) {
        var j :| k <= j < n && rows[..n][j].Covers(l, x);
        assert rows[j].Covers(l, x);
      }
      if CoveredFrom(rows, k, l, x) && !rows[n].Covers(l, x) {
        var j :| k <= j < |rows| && rows[j].Covers(l, x);
        assert rows[..n][j].Covers(l, x);
      }
    }
  }

  // Some row offers the column and no later one covers it.
  ghost predicate Offered(rows: seq<Row>, l: int, x: int) {
    exists k :: 0 <= k < |rows| && rows[k].Offers(l, x) && !CoveredFrom(rows, k + 1, l, x)
  }

  lemma OfferedByOneMore(rows: seq<Row>, l: int, x: int)
    requires rows != []
    ensures var n := |rows| - 1;
      Offered(rows, l, x) <==> rows[n].Offers(l, x) || (Offered(rows[..n], l, x) && !rows[n].Covers(l, x))
  {
    var n := |rows| - 1;
    OneMoreRow(rows, l, x);
    if Offered(rows[..n], l, x) && !rows[n].Covers(l, x) {
      var k :| 0 <= k < n && rows[..n][k].Offers(l, x) && !CoveredFrom(rows[..n], k + 1, l, x);
      assert rows[k].Offers(l, x) && !CoveredFrom(rows, k + 1, l, x);
    }
    if Offered(rows, l, x) && !rows[n].Offers(l, x) {
      var k :| 0 <= k < |rows| && rows[k].Offers(l, x) && !CoveredFrom(rows, k + 1, l, x);
      assert rows[..n][k].Offers(l, x) && !CoveredFrom(rows[..n], k + 1, l, x);
    }
  }

  lemma {:induction false} DisjointAfter(regions: seq<Region>, rows: seq<Row>)
    requires Disjoint(regions) && forall k :: 0 <= k < |rows| ==> rows[k].Valid()
    ensures Disjoint(After(regions, rows))
  {
    if rows != [] {
      var n := |rows| - 1;
      DisjointAfter(regions, rows[..n]);
      CompositedDisjoint(After(regions, rows[..n]), rows[n]);
    }
  }

  // What is left of the regions has no column in common with the cover.
  lemma ApartFromCover(regions: seq<Region>, row: Row, i: nat)
    requires Disjoint(regions) && row.Valid() && row.span.Some?
    requires i < |AllPieces(regions, row.line, row.col, row.col + row.width)|
    ensures Apart(AllPieces(regions, row.line, row.col, row.col + row.width)[i], row.Offer()[0])
  {
    var piece, offer := AllPieces(regions, row.line, row.col, row.col + row.width)[i], row.Offer()[0];
    PiecesStayDisjoint(regions, row.line, row.col, row.col + row.width);
    if !Apart(piece, offer) {
      var x := Max(piece.col, offer.col);
      assert piece.Has(row.line, x) && row.Covers(row.line, x);
      CoveredColumns(regions, row.line, row.col, row.col + row.width, row.line, x);
    }
  }

  // ---------- Placement ----------

  // A rendered overlay: for each of its lines what can be selected on it.
  datatype Overlay = Overlay(spans: seq<Option<Span>>, row: int, col: int, width: nat, scrollback: bool, focused: bool)
  {
    ghost predicate Valid() {
      forall i :: 0 <= i < |spans| && spans[i].Some? ==> 0 <= spans[i].value.from < spans[i].value.to <= width
    }

    // Rows count from the top of the screen, or from the end of the content.
    function Start(workingHeight: int, termHeight: int): int {
      if scrollback then Max(0, workingHeight - (row + |spans|)) else Max(0, workingHeight - termHeight)
    }

    // Only the focused component's text can be selected.
    function Shown(i: nat): Option<Span>
      requires i < |spans|
    {
      if focused then spans[i] else None
    }

    // Its first n lines, as far as they lie in the frame.
    function Rows(n: nat, workingHeight: int, termHeight: int): seq<Row>
      requires n <= |spans|
    {
      if n == 0 then []
      else
        var idx := Start(workingHeight, termHeight) + row + n - 1;
        var before := Rows(n - 1, workingHeight, termHeight);
        if 0 <= idx < workingHeight then before + [Row(idx, col, width, Shown(n - 1))] else before
    }
  }

  function LinesNeeded(overlays: seq<Overlay>, frameLines: int): (n: int)
    ensures frameLines <= n && forall k :: 0 <= k < |overlays| ==> overlays[k].row + |overlays[k].spans| <= n
    ensures n == frameLines || exists k :: 0 <= k < |overlays| && n == overlays[k].row + |overlays[k].spans|
  {
    if overlays == [] then frameLines
    else
      var n := |overlays| - 1;
      Max(LinesNeeded(overlays[..n], frameLines), overlays[n].row + |overlays[n].spans|)
  }

  function WorkingHeight(overlays: seq<Overlay>, frameLines: nat, termHeight: nat): nat {
    Max(Max(frameLines, termHeight), LinesNeeded(overlays, frameLines))
  }

  lemma AllRowsSnoc(overlays: seq<Overlay>, overlay: Overlay, workingHeight: int, termHeight: int)
    ensures AllRows(overlays + [overlay], workingHeight, termHeight)
         == AllRows(overlays, workingHeight, termHeight) + overlay.Rows(|overlay.spans|, workingHeight, termHeight)
  {
    assert (overlays + [overlay])[..|overlays|] == overlays;
  }

  function AllRows(overlays: seq<Overlay>, workingHeight: int, termHeight: int): seq<Row> {
    if overlays == [] then []
    else
      var n := |overlays| - 1;
      AllRows(overlays[..n], workingHeight, termHeight)
        + overlays[n].Rows(|overlays[n].spans|, workingHeight, termHeight)
  }

  lemma SpliceAt(regions: seq<Region>, i: nat, pieces: seq<Region>, done: seq<Region>, line: int, coverStart: int,
                 coverEnd: int)
    requires i < |regions| && done == regions[i + 1..] && pieces == Pieces(regions[i], line, coverStart, coverEnd)
    ensures var rest := AllPieces(done, line, coverStart, coverEnd);
      var now := regions[..i + 1] + rest;
      && now[..i] + pieces + now[i + 1..] == regions[..i] + AllPieces(regions[i..], line, coverStart, coverEnd)
      && (pieces == [regions[i]] ==> now == regions[..i] + AllPieces(regions[i..], line, coverStart, coverEnd))
  {
    var rest := AllPieces(done, line, coverStart, coverEnd);
    assert regions[i..][1..] == done;
    TakeNext(regions, i);
    ConcatAssociates(regions[..i], pieces, rest);
    var now := regions[..i + 1] + rest;
    assert now[..i] == regions[..i] && now[i + 1..] == rest;
  }

  lemma {:induction false} RowsValid(overlay: Overlay, n: nat, workingHeight: int, termHeight: int)
    requires overlay.Valid() && n <= |overlay.spans|
    ensures forall k :: 0 <= k < |overlay.Rows(n, workingHeight, termHeight)| ==>
      overlay.Rows(n, workingHeight, termHeight)[k].Valid()
  {
    if n > 0 {
      RowsValid(overlay, n - 1, workingHeight, termHeight);
    }
  }

  lemma {:induction false} AllRowsValid(overlays: seq<Overlay>, workingHeight: int, termHeight: int)
    requires forall k :: 0 <= k < |overlays| ==> overlays[k].Valid()
    ensures forall k :: 0 <= k < |AllRows(overlays, workingHeight, termHeight)| ==>
      AllRows(overlays, workingHeight, termHeight)[k].Valid()
  {
    if overlays != [] {
      var n := |overlays| - 1;
      AllRowsValid(overlays[..n], workingHeight, termHeight);
      RowsValid(overlays[n], |overlays[n].spans|, workingHeight, termHeight);
    }
  }

  /** What can be selected under a stack of overlays: what could be selected before and is not covered by any of
      them, and what the focused overlay shows and no later one covers; no column twice. */
  lemma SelectableUnderOverlays(regions: seq<Region>, overlays: seq<Overlay>, workingHeight: int, termHeight: int)
    requires forall k :: 0 <= k < |overlays| ==> overlays[k].Valid()
    ensures var rows := AllRows(overlays, workingHeight, termHeight);
      && (forall l, x :: (Selectable(After(regions, rows), l, x) <==>
            (Selectable(regions, l, x) && !CoveredFrom(rows, 0, l, x)) || Offered(rows, l, x)))
      && (Disjoint(regions) ==> Disjoint(After(regions, rows)))
  {
    var rows := AllRows(overlays, workingHeight, termHeight);
    AllRowsValid(overlays, workingHeight, termHeight);
    forall l, x
      ensures Selectable(After(regions, rows), l, x) <==>
        (Selectable(regions, l, x) && !CoveredFrom(rows, 0, l, x)) || Offered(rows, l, x)
    {
      SelectableAfter(regions, rows, l, x);
    }
    if Disjoint(regions) {
      DisjointAfter(regions, rows);
    }
  }

  // ---------- Overlays on the screen ----------

  // Which line of an overlay is on line l of the frame. Its rows count from the top of the screen, which shows the end
  // of the frame, or it ends where the content ends.
  function LineOn(o: Overlay, l: int, workingHeight: int, termHeight: int): int {
    l - o.row - if o.scrollback then Max(0, workingHeight - o.row - |o.spans|) else Max(0, workingHeight - termHeight)
  }

  // The overlay is over this column of the frame.
  predicate Over(o: Overlay, l: int, x: int, workingHeight: int, termHeight: int) {
    && 0 <= l < workingHeight && 0 <= LineOn(o, l, workingHeight, termHeight) < |o.spans|
    && o.col <= x < o.col + o.width
  }

  // And has the focus and something to select there.
  predicate Selects(o: Overlay, l: int, x: int, workingHeight: int, termHeight: int) {
    && Over(o, l, x, workingHeight, termHeight) && o.focused
    && var span := o.spans[LineOn(o, l, workingHeight, termHeight)];
       span.Some? && o.col + span.value.from <= x < o.col + span.value.to
  }

  ghost predicate OverFrom(overlays: seq<Overlay>, from: nat, l: int, x: int, workingHeight: int, termHeight: int) {
    exists j :: from <= j < |overlays| && Over(overlays[j], l, x, workingHeight, termHeight)
  }

  ghost predicate OnTop(overlays: seq<Overlay>, l: int, x: int, workingHeight: int, termHeight: int) {
    exists k :: 0 <= k < |overlays| && Selects(overlays[k], l, x, workingHeight, termHeight)
      && !OverFrom(overlays, k + 1, l, x, workingHeight, termHeight)
  }

  // The first n lines of one overlay.
  lemma {:induction false} RowsOnScreen(regions: seq<Region>, o: Overlay, n: nat, workingHeight: int, termHeight: int,
                                        l: int, x: int)
    requires o.Valid() && n <= |o.spans|
    ensures var i := LineOn(o, l, workingHeight, termHeight);
      Selectable(After(regions, o.Rows(n, workingHeight, termHeight)), l, x) <==>
        (Selectable(regions, l, x) && !(i < n && Over(o, l, x, workingHeight, termHeight)))
        || (i < n && Selects(o, l, x, workingHeight, termHeight))
  {
    hide Selectable, LineOn;
    if n > 0 {
      hide Over, Selects, After, Composited, Overlay.Rows, Row.Covers, Row.Offers, Row.Valid;
      RowsOnScreen(regions, o, n - 1, workingHeight, termHeight, l, x);
      RowOnScreen(o, n - 1, workingHeight, termHeight, l, x);
      LineComposited(regions, o, n, workingHeight, termHeight, l, x);
    }
  }

  lemma LineComposited(regions: seq<Region>, o: Overlay, n: nat, workingHeight: int, termHeight: int, l: int, x: int)
    requires o.Valid() && 0 < n <= |o.spans|
    ensures var idx := o.Start(workingHeight, termHeight) + o.row + n - 1;
      var row := Row(idx, o.col, o.width, o.Shown(n - 1));
      var before := After(regions, o.Rows(n - 1, workingHeight, termHeight));
      Selectable(After(regions, o.Rows(n, workingHeight, termHeight)), l, x) <==>
        if 0 <= idx < workingHeight then (Selectable(before, l, x) && !row.Covers(l, x)) || row.Offers(l, x)
        else Selectable(before, l, x)
  {
    hide Selectable, Composited, Row.Covers, Row.Offers;
    var idx := o.Start(workingHeight, termHeight) + o.row + n - 1;
    if 0 <= idx < workingHeight {
      var before, row := o.Rows(n - 1, workingHeight, termHeight), Row(idx, o.col, o.width, o.Shown(n - 1));
      AfterSnoc(regions, before, row);
      CompositedColumns(After(regions, before), row, l, x);
    }
  }

  lemma AfterSnoc(regions: seq<Region>, rows: seq<Row>, row: Row)
    ensures After(regions, rows + [row]) == Composited(After(regions, rows), row)
  {
    assert (rows + [row])[..|rows|] == rows;
  }

  // One line of an overlay, which may lie outside of the frame.
  lemma RowOnScreen(o: Overlay, i: nat, workingHeight: int, termHeight: int, l: int, x: int)
    requires o.Valid() && i < |o.spans|
    ensures var idx := o.Start(workingHeight, termHeight) + o.row + i;
      var row := Row(idx, o.col, o.width, o.Shown(i));
      var here := LineOn(o, l, workingHeight, termHeight) == i;
      if 0 <= idx < workingHeight then
        && row.Valid() && (row.Covers(l, x) <==> here && Over(o, l, x, workingHeight, termHeight))
        && (row.Offers(l, x) <==> here && Selects(o, l, x, workingHeight, termHeight))
      else here ==> !Over(o, l, x, workingHeight, termHeight) && !Selects(o, l, x, workingHeight, termHeight)
  {
  }

  lemma OverlayOnScreen(regions: seq<Region>, o: Overlay, workingHeight: int, termHeight: int, l: int, x: int)
    requires o.Valid()
    ensures Selectable(After(regions, o.Rows(|o.spans|, workingHeight, termHeight)), l, x) <==>
      (Selectable(regions, l, x) && !Over(o, l, x, workingHeight, termHeight))
      || Selects(o, l, x, workingHeight, termHeight)
  {
    RowsOnScreen(regions, o, |o.spans|, workingHeight, termHeight, l, x);
  }

  lemma OneMoreOverlay(overlays: seq<Overlay>, l: int, x: int, workingHeight: int, termHeight: int)
    requires overlays != []
    ensures var n := |overlays| - 1;
      && (forall k: nat :: k <= n ==>
            (OverFrom(overlays, k, l, x, workingHeight, termHeight) <==>
               OverFrom(overlays[..n], k, l, x, workingHeight, termHeight)
               || Over(overlays[n], l, x, workingHeight, termHeight)))
      && !OverFrom(overlays, |overlays|, l, x, workingHeight, termHeight)
  {
    var n := |overlays| - 1;
    hide Over;
    forall k: nat | k <= n
      ensures OverFrom(overlays, k, l, x, workingHeight, termHeight) <==>
        OverFrom(overlays[..n], k, l, x, workingHeight, termHeight)
        || Over(overlays[n], l, x, workingHeight, termHeight)
    {
      if OverFrom(overlays[..n], k, l, x, workingHeight, termHeight) {
        var j :| k <= j < n && Over(overlays[..n][j], l, x, workingHeight, termHeight);
        assert Over(overlays[j], l, x, workingHeight, termHeight);
      }
      if OverFrom(overlays, k, l, x, workingHeight, termHeight) && !Over(overlays[n], l, x, workingHeight, termHeight) {
        var j :| k <= j < |overlays| && Over(overlays[j], l, x, workingHeight, termHeight);
        assert Over(overlays[..n][j], l, x, workingHeight, termHeight);
      }
    }
  }

  lemma OnTopOfOneMore(overlays: seq<Overlay>, l: int, x: int, workingHeight: int, termHeight: int)
    requires overlays != []
    ensures var n := |overlays| - 1;
      OnTop(overlays, l, x, workingHeight, termHeight) <==>
        Selects(overlays[n], l, x, workingHeight, termHeight)
        || (OnTop(overlays[..n], l, x, workingHeight, termHeight)
            && !Over(overlays[n], l, x, workingHeight, termHeight))
  {
    var n := |overlays| - 1;
    OneMoreOverlay(overlays, l, x, workingHeight, termHeight);
    hide Over, Selects, OverFrom;
    if OnTop(overlays[..n], l, x, workingHeight, termHeight) && !Over(overlays[n], l, x, workingHeight, termHeight) {
      var k :| 0 <= k < n && Selects(overlays[..n][k], l, x, workingHeight, termHeight)
        && !OverFrom(overlays[..n], k + 1, l, x, workingHeight, termHeight);
      assert Selects(overlays[k], l, x, workingHeight, termHeight);
    }
    if OnTop(overlays, l, x, workingHeight, termHeight) && !Selects(overlays[n], l, x, workingHeight, termHeight) {
      var k :| 0 <= k < |overlays| && Selects(overlays[k], l, x, workingHeight, termHeight)
        && !OverFrom(overlays, k + 1, l, x, workingHeight, termHeight);
      assert Selects(overlays[..n][k], l, x, workingHeight, termHeight);
    }
  }

  /** On the screen: a column can be selected exactly when it could be and no overlay is over it, or when a focused
      overlay has something to select there and no later one is over it. */
  lemma {:induction false} SelectableOnScreen(regions: seq<Region>, overlays: seq<Overlay>, workingHeight: int,
                                              termHeight: int, l: int, x: int)
    requires forall k :: 0 <= k < |overlays| ==> overlays[k].Valid()
    ensures Selectable(After(regions, AllRows(overlays, workingHeight, termHeight)), l, x) <==>
      (Selectable(regions, l, x) && !OverFrom(overlays, 0, l, x, workingHeight, termHeight))
      || OnTop(overlays, l, x, workingHeight, termHeight)
  {
    if overlays != [] {
      hide Over, Selects, OverFrom, OnTop, Selectable, Overlay.Rows;
      var n := |overlays| - 1;
      var before, rows := AllRows(overlays[..n], workingHeight, termHeight),
        overlays[n].Rows(|overlays[n].spans|, workingHeight, termHeight);
      SelectableOnScreen(regions, overlays[..n], workingHeight, termHeight, l, x);
      AfterConcat(regions, before, rows);
      OverlayOnScreen(After(regions, before), overlays[n], workingHeight, termHeight, l, x);
      OneMoreOverlay(overlays, l, x, workingHeight, termHeight);
      OnTopOfOneMore(overlays, l, x, workingHeight, termHeight);
    }
  }
}
