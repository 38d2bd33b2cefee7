/** The scrollbar beside the chat. */
module Scrollbar {
  import opened Lines

  const SCROLLBAR_WIDTH := 1
  const TRACK_GLYPH := '\U{2502}'
  const THUMB_GLYPH := '\U{2503}'
  const TOP_GLYPH := '\U{2577}'
  const BOTTOM_GLYPH := '\U{2575}'

  predicate HasOverflow(height: int, lines: int) {
    height > 0 && lines > height
  }

  function ThumbSize(height: int, lines: int): int
    requires lines > 0
  {
    var size := (height * height) / lines;
    if size < 1 then 1 else if size > height then height else size
  }

  function Clamp(offset: int, max: int): int {
    if offset < 0 then 0 else if offset > max then max else offset
  }

  function MaxOffset(height: int, lines: int): int {
    if lines - height <= 0 then 1 else lines - height
  }

  function ThumbTop(height: int, lines: int, offset: int): int
    requires lines > 0
  {
    var space := height - ThumbSize(height, lines);
    if space > 0 then (Clamp(offset, MaxOffset(height, lines)) * space) / MaxOffset(height, lines) else 0
  }

  lemma DivMonotone(a: int, b: int, d: int)
    requires 0 <= a <= b && d > 0
    ensures 0 <= a / d <= b / d
  {
    if a / d > b / d {
      assert a / d >= b / d + 1;
      MulMonotone(b / d + 1, a / d, d);
    }
  }

  lemma MulMonotone(a: int, b: int, d: int)
    requires a <= b && d >= 0
    ensures a * d <= b * d
  {
  }

  lemma DivExact(a: int, d: int)
    requires d > 0
    ensures (d * a) / d == a
  {
    var q := (d * a) / d;
    assert d * a == q * d + (d * a) % d;
    if q < a {
      MulMonotone(q, a - 1, d);
    } else if q > a {
      MulMonotone(a + 1, q, d);
    }
  }

  lemma SquareBelow(height: int, lines: int)
    requires 0 < height < lines
    ensures (height * height) / lines < height
  {
    var size := (height * height) / lines;
    if size >= height {
      assert size * lines <= height * height;
      MulMonotone(height, size, lines);
      MulMonotone(height + 1, lines, height);
    }
  }

  /** The thumb has at least one row; it leaves at least one when there is more to see than fits. */
  lemma ThumbFits(height: int, lines: int)
    requires height > 0 && lines > 0
    ensures 1 <= ThumbSize(height, lines) <= height
    ensures 1 < height < lines ==> ThumbSize(height, lines) < height
    ensures lines <= height ==> ThumbSize(height, lines) == height
  {
    if lines <= height {
      MulMonotone(lines, height, height);
      DivMonotone(lines * height, height * height, lines);
      DivExact(height, lines);
    } else if height > 1 {
      SquareBelow(height, lines);
    }
  }

  /** The thumb lies inside the track; it is at the top for the first offset and touches the bottom
    row for the last one and beyond. */
  lemma ThumbInTrack(height: int, lines: int, offset: int)
    requires height > 0 && lines > 0
    ensures var (top, size) := (ThumbTop(height, lines, offset), ThumbSize(height, lines));
            && 0 <= top && 0 < size && top + size <= height
            && (offset <= 0 ==> top == 0)
            && (offset >= MaxOffset(height, lines) ==> top + size == height)
  {
    ThumbFits(height, lines);
    var (size, max) := (ThumbSize(height, lines), MaxOffset(height, lines));
    var (space, at) := (height - size, Clamp(offset, max));
    MulMonotone(at, max, space);
    MulMonotone(0, at, space);
    DivMonotone(at * space, max * space, max);
    DivExact(space, max);
    DivExact(0, max);
  }

  lemma DivBounds(a: int, d: int)
    requires d > 0
    ensures (a / d) * d <= a < (a / d + 1) * d
  {
  }

  /** The thumb takes the share of the track that the viewport takes of the content, and lies as far down
    as the offset does, both rounded down to whole rows, with one row for the smallest thumb. */
  lemma ThumbIsProportional(height: int, lines: int, offset: int)
    requires 0 < height < lines && 0 <= offset <= lines - height
    ensures var (top, size) := (ThumbTop(height, lines, offset), ThumbSize(height, lines));
            && (size == 1 || size * lines <= height * height) && height * height < (size + 1) * lines
            && top * (lines - height) <= offset * (height - size) < (top + 1) * (lines - height)
  {
    ThumbFits(height, lines);
    var (size, max) := (ThumbSize(height, lines), lines - height);
    DivBounds(height * height, lines);
    DivBounds(offset * (height - size), max);
    if height > 1 {
      SquareBelow(height, lines);
    }
    if (height * height) / lines < 1 {
      MulMonotone(1, size + 1, lines);
    }
  }

  /** Scrolling down never moves the thumb up. */
  lemma ThumbMonotone(height: int, lines: int, a: int, b: int)
    requires height > 0 && lines > 0 && a <= b
    ensures ThumbTop(height, lines, a) <= ThumbTop(height, lines, b)
  {
    ThumbFits(height, lines);
    var max := MaxOffset(height, lines);
    var space := height - ThumbSize(height, lines);
    MulMonotone(Clamp(a, max), Clamp(b, max), space);
    MulMonotone(0, Clamp(a, max), space);
    DivMonotone(Clamp(a, max) * space, Clamp(b, max) * space, max);
  }

  /** What each row shows, for a thumb of `size` rows from `top`. */
  function Glyph(row: int, height: int, top: int, size: int): char {
    if top <= row < top + size then THUMB_GLYPH
    else if row == 0 then TOP_GLYPH
    else if row == height - 1 then BOTTOM_GLYPH
    else TRACK_GLYPH
  }

  /** The column left of the scrollbar: the two fill the width exactly, unless there is one column only. */
  function ViewportWidth(height: int, lines: int, total: int): (w: int)
    ensures 0 <= w && (total > 0 ==> 0 < w <= total)
    ensures total > SCROLLBAR_WIDTH ==> w + (if HasOverflow(height, lines) then SCROLLBAR_WIDTH else 0) == total
  {
    if total <= 0 then 0
    else if HasOverflow(height, lines) && total > SCROLLBAR_WIDTH then total - SCROLLBAR_WIDTH
    else total
  }

  /** Draws the scrollbar of a viewport of the given height in `rows` rows. */
  method RenderScrollbarHeight(height: int, contentLines: int, offset: int, rows: int) returns (out: string)
    ensures !HasOverflow(height, contentLines) || rows <= 0 ==> out == ""
    ensures HasOverflow(height, contentLines) && rows > 0 ==>
      var (top, size) := (ThumbTop(rows, contentLines, offset), ThumbSize(rows, contentLines));
      && 0 <= top && 0 < size && top + size <= rows
      && |Rows(out)| == rows
      && (forall r :: 0 <= r < rows ==> Rows(out)[r] == [Glyph(r, rows, top, size)])
      && (offset <= 0 ==> Rows(out)[0] == [THUMB_GLYPH])
      && (offset >= MaxOffset(rows, contentLines) ==> Rows(out)[rows - 1] == [THUMB_GLYPH])
  {
    out := "";
    if !HasOverflow(height, contentLines) || rows <= 0 || contentLines <= 0 {
      return;
    }
    ThumbInTrack(rows, contentLines, offset);
    var thumbSize := (rows * rows) / contentLines;
    if thumbSize < 1 {
      thumbSize := 1;
    }
    if thumbSize > rows {
      thumbSize := rows;
    }
    var trackSpace := rows - thumbSize;
    var maxOffset := contentLines - rows;
    if maxOffset <= 0 {
      maxOffset := 1;
    }
    var yOffset := offset;
    if yOffset < 0 {
      yOffset := 0;
    }
    if yOffset > maxOffset {
      yOffset := maxOffset;
    }
    var thumbTop := 0;
    if trackSpace > 0 {
      thumbTop := (yOffset * trackSpace) / maxOffset;
    }
    out := DrawRows(rows, thumbTop, thumbSize);
  }

  /** The loop that writes the rows. */
  method DrawRows(rows: int, thumbTop: int, thumbSize: int) returns (out: string)
    requires rows > 0
    ensures |Rows(out)| == rows
    ensures forall r :: 0 <= r < rows ==> Rows(out)[r] == [Glyph(r, rows, thumbTop, thumbSize)]
  {
    hide Rows;
    out := "";
    NoRows();
    var thumbBottom := thumbTop + thumbSize - 1;
    for row := 0 to rows
      invariant |Rows(out)| == if row < rows then row + 1 else rows
      invariant forall r :: 0 <= r < row ==> Rows(out)[r] == [Glyph(r, rows, thumbTop, thumbSize)]
      invariant row < rows ==> Rows(out)[row] == ""
    {
      var glyph;
      if row >= thumbTop && row <= thumbBottom {
        glyph := THUMB_GLYPH;
      } else if row == 0 {
        glyph := TOP_GLYPH;
      } else if row == rows - 1 {
        glyph := BOTTOM_GLYPH;
      } else {
        glyph := TRACK_GLYPH;
      }
      RowsExtend(out, [glyph]);
      assert "" + [glyph] == [glyph];
      out := out + [glyph];
      if row < rows - 1 {
        RowsBreak(out);
        out := out + "\n";
      }
    }
  }
}
