/** Sprite drawing as the source does it: each of the `n` sprite rows read
    from memory is an 8-pixel byte, most significant bit leftmost; a set bit
    complements one cell of the 32-bit video buffer, found with a row stride
    of VIDEO_WIDTH (640) cells. */
module Sprites {
  import opened MachineState

  /** Column `col` of a sprite row is set: bit 7 - col of the byte, the
      most significant bit being the leftmost column. */
  predicate PixelOn(spriteByte: uint8, col: nat)
    requires col < 8
  {
    Bit(spriteByte, 7 - col)
  }

  /** The test as the draw loop writes it, `spriteByte & (0x80 >> col)`,
      is non-zero exactly when the column is set. */
  lemma PixelOnAsWritten(spriteByte: uint8, col: nat)
    requires col < 8
    ensures BitAnd(spriteByte, ShiftRight(0x80, col)) != 0 <==> PixelOn(spriteByte, col)
  {
    assert Pow2(7) == 0x80;
    ShiftRightPow2(7, col);
    AndBitsPow2(spriteByte, 7 - col, 8);
  }

  /** The video cell that column `col` of sprite row `row` lands on when the
      sprite is drawn at (x, y): `x + col + (y + row) * VIDEO_WIDTH`. */
  function Cell(x: nat, y: nat, row: nat, col: nat): (c: nat)
    ensures x + col < VIDEO_WIDTH ==> c % VIDEO_WIDTH == x + col && c / VIDEO_WIDTH == y + row
  {
    assert x + col + (y + row) * VIDEO_WIDTH == (y + row) * VIDEO_WIDTH + (x + col);
    x + col + (y + row) * VIDEO_WIDTH
  }

  /** Every cell the draw loop addresses, for all `n` rows and 8 columns,
      lies inside the video buffer. */
  predicate DrawInBounds(x: nat, y: nat, n: nat) {
    n == 0 || Cell(x, y, n - 1, 7) < VIDEO_CELLS
  }

  /** The draw loop visits (row, col) as step number row * 8 + col. Cell k
      is covered within the first `done` steps when a set sprite bit among
      them lands on it. The row and column are recovered from the offset of
      k from the origin by division by the stride. */
  predicate CoversUpTo(sprite: seq<uint8>, x: nat, y: nat, k: int, done: nat) {
    var d := k - (x + y * VIDEO_WIDTH);
    0 <= d && d % VIDEO_WIDTH < 8 && d / VIDEO_WIDTH < |sprite| &&
    d / VIDEO_WIDTH * 8 + d % VIDEO_WIDTH < done &&
    PixelOn(sprite[d / VIDEO_WIDTH], d % VIDEO_WIDTH)
  }

  /** Cell k is complemented by drawing the whole sprite at (x, y). */
  predicate Covers(sprite: seq<uint8>, x: nat, y: nat, k: int) {
    CoversUpTo(sprite, x, y, k, 8 * |sprite|)
  }

  /** Complement the cells covered within the first `done` steps. */
  function DrawnUpTo(video: seq<bv32>, sprite: seq<uint8>, x: nat, y: nat, done: nat): (r: seq<bv32>)
    ensures |r| == |video|
  {
    seq(|video|, k requires 0 <= k < |video| =>
      if CoversUpTo(sprite, x, y, k, done) then video[k] ^ PIXEL_ON else video[k])
  }

  /** The video buffer after drawing the whole sprite at (x, y). */
  function Drawn(video: seq<bv32>, sprite: seq<uint8>, x: nat, y: nat): (r: seq<bv32>)
    ensures |r| == |video|
  {
    DrawnUpTo(video, sprite, x, y, 8 * |sprite|)
  }

  /** Some set sprite bit among the first `done` steps lands on a lit cell. */
  predicate CollidesUpTo(video: seq<bv32>, sprite: seq<uint8>, x: nat, y: nat, done: nat) {
    exists k :: 0 <= k < |video| && CoversUpTo(sprite, x, y, k, done) && video[k] == PIXEL_ON
  }

  /** Drawing the whole sprite turns some lit cell off. */
  predicate Collides(video: seq<bv32>, sprite: seq<uint8>, x: nat, y: nat) {
    CollidesUpTo(video, sprite, x, y, 8 * |sprite|)
  }

  /** The cell of a step has that step's row and column as quotient and
      remainder of its offset from the origin. */
  lemma {:induction false} CellOffset(x: nat, y: nat, row: nat, col: nat)
    requires col < 8
    ensures var d := Cell(x, y, row, col) - (x + y * VIDEO_WIDTH);
      d / VIDEO_WIDTH == row && d % VIDEO_WIDTH == col
  {
    var d := Cell(x, y, row, col) - (x + y * VIDEO_WIDTH);
    assert d == row * VIDEO_WIDTH + col;
  }

  /** One step of the draw loop adds at most its own cell to the covered
      ones, and adds it exactly when its sprite bit is set. */
  lemma {:induction false} CoversUpToStep(sprite: seq<uint8>, x: nat, y: nat, row: nat, col: nat, k: int)
    requires row < |sprite| && col < 8
    ensures CoversUpTo(sprite, x, y, k, row * 8 + col + 1) <==>
      CoversUpTo(sprite, x, y, k, row * 8 + col) ||
      (k == Cell(x, y, row, col) && PixelOn(sprite[row], col))
  {
    CellOffset(x, y, row, col);
    var d := k - (x + y * VIDEO_WIDTH);
    if 0 <= d && d % VIDEO_WIDTH < 8 && d / VIDEO_WIDTH * 8 + d % VIDEO_WIDTH == row * 8 + col {
      assert d / VIDEO_WIDTH == row && d % VIDEO_WIDTH == col;
      assert d == d / VIDEO_WIDTH * VIDEO_WIDTH + d % VIDEO_WIDTH;
    }
  }

  /** Within the first `done` steps nothing past step `done` is covered. */
  lemma {:induction false} CoversUpToBefore(sprite: seq<uint8>, x: nat, y: nat, row: nat, col: nat)
    requires row < |sprite| && col < 8
    ensures !CoversUpTo(sprite, x, y, Cell(x, y, row, col), row * 8 + col)
  {
    CellOffset(x, y, row, col);
  }

  /** The collision flag grows by one step exactly as the draw loop sets it:
      step number `done - 1` is the one at (row, col). */
  lemma {:induction false} CollidesUpToStep(video: seq<bv32>, sprite: seq<uint8>, x: nat, y: nat, row: nat, col: nat, done: nat)
    requires row < |sprite| && col < 8 && done == row * 8 + col + 1
    requires Cell(x, y, row, col) < |video|
    ensures CollidesUpTo(video, sprite, x, y, done) <==>
      CollidesUpTo(video, sprite, x, y, done - 1) ||
      (PixelOn(sprite[row], col) && video[Cell(x, y, row, col)] == PIXEL_ON)
  {
    var c := Cell(x, y, row, col);
    forall k | 0 <= k < |video|
      ensures CoversUpTo(sprite, x, y, k, done) <==>
        CoversUpTo(sprite, x, y, k, done - 1) || (k == c && PixelOn(sprite[row], col))
    {
      CoversUpToStep(sprite, x, y, row, col, k);
    }
    if PixelOn(sprite[row], col) && video[c] == PIXEL_ON {
      assert CoversUpTo(sprite, x, y, c, done);
    }
    if CollidesUpTo(video, sprite, x, y, done - 1) {
      var k :| 0 <= k < |video| && CoversUpTo(sprite, x, y, k, done - 1) && video[k] == PIXEL_ON;
      assert CoversUpTo(sprite, x, y, k, done);
    }
  }

  /** One step of the draw loop on the buffer: from `current` (the first
      `row * 8 + col` steps drawn) to `next` (one more step), the cell of the
      step is complemented exactly when its sprite bit is set and every other
      cell is left alone; the cell of the step still holds its value from
      before the drawing. */
  lemma {:induction false} DrawnUpToStep(video: seq<bv32>, sprite: seq<uint8>, x: nat, y: nat, row: nat, col: nat,
                                         current: seq<bv32>, next: seq<bv32>)
    requires row < |sprite| && col < 8
    requires Cell(x, y, row, col) < |video|
    requires current == DrawnUpTo(video, sprite, x, y, row * 8 + col)
    requires next == DrawnUpTo(video, sprite, x, y, row * 8 + col + 1)
    ensures current[Cell(x, y, row, col)] == video[Cell(x, y, row, col)]
    ensures forall k :: 0 <= k < |video| ==>
      next[k] == if k == Cell(x, y, row, col) && PixelOn(sprite[row], col) then current[k] ^ PIXEL_ON else current[k]
  {
    CoversUpToBefore(sprite, x, y, row, col);
    forall k | 0 <= k < |video|
      ensures next[k] == if k == Cell(x, y, row, col) && PixelOn(sprite[row], col) then current[k] ^ PIXEL_ON else current[k]
    {
      CoversUpToStep(sprite, x, y, row, col, k);
    }
  }

  /** One step of the draw loop, at sprite row `row` and column `col`: when
      the sprite bit is set, the cell is complemented, and the collision flag
      is raised if the cell was lit. */
  function DrawStep(current: seq<bv32>, hit: bool, sprite: seq<uint8>, x: nat, y: nat, row: nat, col: nat): (r: (seq<bv32>, bool))
    requires row < |sprite| && col < 8 && Cell(x, y, row, col) < |current|
    ensures |r.0| == |current|
  {
    if PixelOn(sprite[row], col) then
      var c := Cell(x, y, row, col);
      (current[c := current[c] ^ PIXEL_ON], hit || current[c] == PIXEL_ON)
    else (current, hit)
  }

  /** The draw loop as the source runs it: the buffer after rows
      0 .. row - 1 and the first `col` columns of row `row`, and whether one
      of those steps found its cell lit in the buffer as it was at that
      step. */
  function DrawLoop(video: seq<bv32>, sprite: seq<uint8>, x: nat, y: nat, row: nat, col: nat): (r: (seq<bv32>, bool))
    requires |video| == VIDEO_CELLS && DrawInBounds(x, y, |sprite|)
    requires row <= |sprite| && col <= 8 && (col > 0 ==> row < |sprite|)
    ensures |r.0| == |video|
    decreases row, col
  {
    if col == 0 then
      if row == 0 then (video, false) else DrawLoop(video, sprite, x, y, row - 1, 8)
    else
      var previous := DrawLoop(video, sprite, x, y, row, col - 1);
      DrawStep(previous.0, previous.1, sprite, x, y, row, col - 1)
  }

  /** One step of the draw loop changes at most its own cell: that cell is
      complemented when the sprite bit is set, and the flag is raised when
      the complemented cell was lit. */
  lemma DrawStepEffect(current: seq<bv32>, hit: bool, sprite: seq<uint8>, x: nat, y: nat, row: nat, col: nat)
    requires row < |sprite| && col < 8 && Cell(x, y, row, col) < |current|
    ensures var r, c := DrawStep(current, hit, sprite, x, y, row, col), Cell(x, y, row, col);
      (forall k :: 0 <= k < |current| && k != c ==> r.0[k] == current[k]) &&
      r.0[c] == (if PixelOn(sprite[row], col) then current[c] ^ PIXEL_ON else current[c]) &&
      (r.1 <==> hit || (PixelOn(sprite[row], col) && current[c] == PIXEL_ON))
  {
  }

  /** Every state of the draw loop keeps a buffer whose cells are all 0 or
      all-ones in that form. */
  lemma {:induction false} DrawLoopKeepsMonochrome(video: seq<bv32>, sprite: seq<uint8>, x: nat, y: nat, row: nat, col: nat)
    requires |video| == VIDEO_CELLS && DrawInBounds(x, y, |sprite|)
    requires row <= |sprite| && col <= 8 && (col > 0 ==> row < |sprite|)
    requires forall k :: 0 <= k < |video| ==> video[k] == 0 || video[k] == PIXEL_ON
    ensures var r := DrawLoop(video, sprite, x, y, row, col).0;
      forall k :: 0 <= k < |r| ==> r[k] == 0 || r[k] == PIXEL_ON
    decreases row, col
  {
    if col == 0 {
      if row > 0 {
        DrawLoopKeepsMonochrome(video, sprite, x, y, row - 1, 8);
      }
    } else {
      var previous := DrawLoop(video, sprite, x, y, row, col - 1);
      DrawLoopKeepsMonochrome(video, sprite, x, y, row, col - 1);
      DrawLoopStep(video, sprite, x, y, row, col - 1);
      DrawStepEffect(previous.0, previous.1, sprite, x, y, row, col - 1);
    }
  }

  /** One column of the draw loop. */
  lemma DrawLoopStep(video: seq<bv32>, sprite: seq<uint8>, x: nat, y: nat, row: nat, col: nat)
    requires |video| == VIDEO_CELLS && DrawInBounds(x, y, |sprite|)
    requires row < |sprite| && col < 8
    ensures Cell(x, y, row, col) < VIDEO_CELLS
    ensures DrawLoop(video, sprite, x, y, row, col + 1) ==
      DrawStep(DrawLoop(video, sprite, x, y, row, col).0, DrawLoop(video, sprite, x, y, row, col).1, sprite, x, y, row, col)
  {
  }

  /** The end of a row of the draw loop is the start of the next. */
  lemma DrawLoopNextRow(video: seq<bv32>, sprite: seq<uint8>, x: nat, y: nat, row: nat)
    requires |video| == VIDEO_CELLS && DrawInBounds(x, y, |sprite|) && row < |sprite|
    ensures DrawLoop(video, sprite, x, y, row + 1, 0) == DrawLoop(video, sprite, x, y, row, 8)
  {
  }

  /** The buffer the draw loop leaves after `done` steps (all of rows
      0 .. row - 1 and `col` steps of row `row`) has exactly the cells covered
      by those steps complemented. */
  lemma {:induction false} DrawLoopBuffer(video: seq<bv32>, sprite: seq<uint8>, x: nat, y: nat, row: nat, col: nat, done: nat)
    requires |video| == VIDEO_CELLS && DrawInBounds(x, y, |sprite|)
    requires row <= |sprite| && col <= 8 && (col > 0 ==> row < |sprite|)
    requires done == row * 8 + col
    ensures DrawLoop(video, sprite, x, y, row, col).0 == DrawnUpTo(video, sprite, x, y, done)
    decreases row, col
  {
    if col == 0 {
      if row == 0 {
        assert DrawnUpTo(video, sprite, x, y, 0) == video;
      } else {
        DrawLoopBuffer(video, sprite, x, y, row - 1, 8, done);
      }
    } else {
      var previous := DrawLoop(video, sprite, x, y, row, col - 1);
      DrawLoopBuffer(video, sprite, x, y, row, col - 1, done - 1);
      DrawLoopStep(video, sprite, x, y, row, col - 1);
      DrawnUpToNext(video, sprite, x, y, row, col - 1, previous.1, done);
    }
  }

  /** The closed form after one more step, the one at (row, col), is that
      step applied to the closed form before it. */
  lemma DrawnUpToNext(video: seq<bv32>, sprite: seq<uint8>, x: nat, y: nat, row: nat, col: nat, hit: bool, done: nat)
    requires row < |sprite| && col < 8 && Cell(x, y, row, col) < |video|
    requires done == row * 8 + col + 1
    ensures DrawStep(DrawnUpTo(video, sprite, x, y, done - 1), hit, sprite, x, y, row, col).0 ==
      DrawnUpTo(video, sprite, x, y, done)
  {
    var current := DrawnUpTo(video, sprite, x, y, done - 1);
    var next := DrawnUpTo(video, sprite, x, y, done);
    DrawnUpToStep(video, sprite, x, y, row, col, current, next);
    DrawStepComplements(current, next, hit, sprite, x, y, row, col);
  }

  /** The collision flag of the draw loop after `done` steps is set exactly
      when one of the cells covered by those steps was lit before the
      drawing. */
  lemma {:induction false} DrawLoopFlag(video: seq<bv32>, sprite: seq<uint8>, x: nat, y: nat, row: nat, col: nat, done: nat)
    requires |video| == VIDEO_CELLS && DrawInBounds(x, y, |sprite|)
    requires row <= |sprite| && col <= 8 && (col > 0 ==> row < |sprite|)
    requires done == row * 8 + col
    ensures DrawLoop(video, sprite, x, y, row, col).1 <==> CollidesUpTo(video, sprite, x, y, done)
    decreases row, col
  {
    if col == 0 {
      if row > 0 {
        DrawLoopFlag(video, sprite, x, y, row - 1, 8, done);
      }
    } else {
      var c := Cell(x, y, row, col - 1);
      DrawLoopFlag(video, sprite, x, y, row, col - 1, done - 1);
      DrawLoopBuffer(video, sprite, x, y, row, col - 1, done - 1);
      DrawLoopStep(video, sprite, x, y, row, col - 1);
      CoversUpToBefore(sprite, x, y, row, col - 1);
      assert DrawLoop(video, sprite, x, y, row, col - 1).0[c] == video[c];
      CollidesUpToStep(video, sprite, x, y, row, col - 1, done);
    }
  }

  /** A buffer that differs from `current` only by the complement of the
      cell of step (row, col), when its sprite bit is set, is what that
      step of the draw loop makes of `current`. */
  lemma DrawStepComplements(current: seq<bv32>, next: seq<bv32>, hit: bool, sprite: seq<uint8>, x: nat, y: nat, row: nat, col: nat)
    requires row < |sprite| && col < 8 && Cell(x, y, row, col) < |current| && |next| == |current|
    requires forall k :: 0 <= k < |current| ==>
      next[k] == if k == Cell(x, y, row, col) && PixelOn(sprite[row], col) then current[k] ^ PIXEL_ON else current[k]
    ensures DrawStep(current, hit, sprite, x, y, row, col).0 == next
  {
  }

  /** The cells a draw complements are exactly the cells
      `x + col + (y + row) * VIDEO_WIDTH` of the set sprite bits. */
  lemma {:induction false} CoversExactly(sprite: seq<uint8>, x: nat, y: nat, k: int)
    ensures Covers(sprite, x, y, k) <==>
      exists row: nat, col: nat :: row < |sprite| && col < 8 &&
        PixelOn(sprite[row], col) && k == Cell(x, y, row, col)
  {
    var d := k - (x + y * VIDEO_WIDTH);
    if Covers(sprite, x, y, k) {
      var row, col := d / VIDEO_WIDTH, d % VIDEO_WIDTH;
      assert k == Cell(x, y, row, col);
    }
    if exists row: nat, col: nat :: row < |sprite| && col < 8 &&
        PixelOn(sprite[row], col) && k == Cell(x, y, row, col) {
      var row: nat, col: nat :| row < |sprite| && col < 8 &&
        PixelOn(sprite[row], col) && k == Cell(x, y, row, col);
      CellOffset(x, y, row, col);
    }
  }

  /** Drawing the same sprite at the same place twice restores the video
      buffer: XOR with all-ones is its own inverse. */
  lemma DrawnTwice(video: seq<bv32>, sprite: seq<uint8>, x: nat, y: nat)
    ensures Drawn(Drawn(video, sprite, x, y), sprite, x, y) == video
  {
  }

  /** A buffer whose every cell is 0 or all-ones keeps that property. */
  lemma DrawnKeepsMonochrome(video: seq<bv32>, sprite: seq<uint8>, x: nat, y: nat)
    requires forall k :: 0 <= k < |video| ==> video[k] == 0 || video[k] == PIXEL_ON
    ensures var r := Drawn(video, sprite, x, y);
      forall k :: 0 <= k < |r| ==> r[k] == 0 || r[k] == PIXEL_ON
  {
  }

  /** Redrawing a sprite collides exactly when its first drawing lit a cell,
      that is, when some covered cell was 0 before the first drawing. */
  lemma {:induction false} RedrawCollides(video: seq<bv32>, sprite: seq<uint8>, x: nat, y: nat)
    ensures Collides(Drawn(video, sprite, x, y), sprite, x, y) <==>
      exists k :: 0 <= k < |video| && Covers(sprite, x, y, k) && video[k] == 0
  {
    var once := Drawn(video, sprite, x, y);
    forall k | 0 <= k < |video| && Covers(sprite, x, y, k)
      ensures once[k] == PIXEL_ON <==> video[k] == 0
    {
      assert once[k] == video[k] ^ PIXEL_ON;
    }
  }
}
