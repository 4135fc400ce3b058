/**
 * The writer that owns the memory-mapped text buffer: a column on the bottom row, a fixed
 * attribute byte and the 25x80 cell array, updated in place. Each method is proved against the
 * matching step function of module TextGrid.
 */
module VgaBuffer {
  import opened ColorCodes
  import opened TextGrid

  /** The contents of a buffer array as a value, row by row. */
  ghost function GridOf(buffer: array2<ScreenChar>): (g: Grid)
    reads buffer
    ensures |g| == buffer.Length0
    ensures forall r :: 0 <= r < |g| ==> |g[r]| == buffer.Length1
    ensures forall r, c :: 0 <= r < buffer.Length0 && 0 <= c < buffer.Length1 ==> g[r][c] == buffer[r, c]
  {
    seq(buffer.Length0, r requires 0 <= r < buffer.Length0 reads buffer =>
      seq(buffer.Length1, c requires 0 <= c < buffer.Length1 reads buffer => buffer[r, c]))
  }

  /** A buffer array has the hardware's 25 rows of 80 cells. */
  ghost predicate IsBuffer(buffer: array2<ScreenChar>) {
    buffer.Length0 == BUFFER_HEIGHT && buffer.Length1 == BUFFER_WIDTH
  }

  class Writer {
    /** The column on the bottom row where the next glyph goes. */
    var columnPosition: nat
    /** The attribute byte of every cell this writer writes; it never changes. */
    const colorCode: ColorCode
    /** The text buffer this writer has exclusive use of. */
    const buffer: array2<ScreenChar>

    ghost predicate Valid()
      reads this
    {
      IsBuffer(buffer)
    }

    /** The writer's state as a value. */
    ghost function Model(): (st: State)
      reads this, buffer
      requires Valid()
      ensures IsGrid(st.grid)
    {
      State(GridOf(buffer), columnPosition)
    }

    /** A writer over `buffer`, at the given column, writing in attribute `colorCode`. */
    constructor (columnPosition: nat, colorCode: ColorCode, buffer: array2<ScreenChar>)
      requires IsBuffer(buffer)
      ensures Valid()
      ensures this.columnPosition == columnPosition && this.colorCode == colorCode && this.buffer == buffer
    {
      this.columnPosition := columnPosition;
      this.colorCode := colorCode;
      this.buffer := buffer;
    }

    /** The line-feed handler, still an empty stub in this version. */
    method NewLine()
      requires Valid()
      modifies this, buffer
      ensures Valid()
      ensures Model() == NewLineState(old(Model()))
    {
    }

    /** Writes one byte; `Panicked` marks the out-of-bounds index that a full line leads to. */
    method WriteByte(b: byte) returns (outcome: Outcome)
      requires Valid()
      modifies this, buffer
      ensures Valid()
      ensures Step(outcome, Model()) == WriteByteStep(old(Model()), colorCode, b)
      ensures old(columnPosition) <= BUFFER_WIDTH ==> columnPosition <= BUFFER_WIDTH
    {
      if columnPosition <= BUFFER_WIDTH {
        WriteByteColumnBound(Model(), colorCode, b);
      }
      if b == NEWLINE {
        NewLine();
        return Completed;
      }
      if columnPosition >= BUFFER_WIDTH {
        NewLine();
      }
      var row := BUFFER_HEIGHT - 1;
      var col := columnPosition;
      if col >= BUFFER_WIDTH {
        // the index below is out of bounds: the store panics before anything is written
        return Panicked;
      }
      ghost var before := GridOf(buffer);
      buffer[row, col] := ScreenChar(b, colorCode);
      columnPosition := columnPosition + 1;
      assert GridOf(buffer) == before[BOTTOM := before[BOTTOM][col := ScreenChar(b, colorCode)]] by {
        var after := GridOf(buffer);
        var expected := before[BOTTOM := before[BOTTOM][col := ScreenChar(b, colorCode)]];
        forall r | 0 <= r < BUFFER_HEIGHT
          ensures after[r] == expected[r]
        {
          assert |after[r]| == |expected[r]| == BUFFER_WIDTH;
          forall c | 0 <= c < BUFFER_WIDTH
            ensures after[r][c] == expected[r][c]
          {
          }
        }
      }
      return Completed;
    }

    /** Writes a byte string, filtering each byte; the first panic ends the write. */
    method WriteString(s: seq<byte>) returns (outcome: Outcome)
      requires Valid()
      modifies this, buffer
      ensures Valid()
      ensures Step(outcome, Model()) == WriteStringStep(old(Model()), colorCode, s)
      ensures old(columnPosition) <= BUFFER_WIDTH ==> columnPosition <= BUFFER_WIDTH
    {
      if columnPosition <= BUFFER_WIDTH {
        WriteStringColumnBound(Model(), colorCode, s);
      }
      for i := 0 to |s|
        invariant Step(Completed, Model()) == WriteStringStep(old(Model()), colorCode, s[..i])
      {
        outcome := WriteByte(Sanitize(s[i]));
        assert s[..i + 1][..i] == s[..i];
        if outcome == Panicked {
          PanicIsFinal(old(Model()), colorCode, s[..i + 1], s[i + 1..]);
          assert s[..i + 1] + s[i + 1..] == s;
          return;
        }
      }
      assert s[..|s|] == s;
      return Completed;
    }
  }

  /**
   * The demonstration routine: a writer at column 0 in yellow on black writes 'H', "ello " and
   * "Wörld!" into `buffer`. The bottom row then starts with GLYPHS and the rest is untouched.
   */
  method PrintSomething(buffer: array2<ScreenChar>)
    requires IsBuffer(buffer)
    modifies buffer
    ensures GridOf(buffer) == Typed(State(old(GridOf(buffer)), 0), YELLOW_ON_BLACK, GLYPHS).grid
  {
    PrintSomethingResult(GridOf(buffer));
    var writer := new Writer(0, NewColorCode(Yellow, Black), buffer);
    var outcome := writer.WriteByte(0x48);
    // a panic would end the routine at this point
    if outcome == Panicked {
      return;
    }
    outcome := writer.WriteString(ELLO);
    if outcome == Panicked {
      return;
    }
    outcome := writer.WriteString(WORLD);
  }
}
