/**
 * The text buffer as a value: 25 rows of 80 cells plus the writer's column on the bottom row,
 * the byte filter applied to strings, and the effect of writing one byte and a whole byte string.
 * The writer class in module VgaBuffer is proved against the step functions defined here.
 */
module TextGrid {
  import opened ColorCodes

  type byte = bv8

  const BUFFER_HEIGHT: nat := 25
  const BUFFER_WIDTH: nat := 80
  /** The only row the writer ever writes to. */
  const BOTTOM: nat := BUFFER_HEIGHT - 1

  const NEWLINE: byte := 0x0A
  /** The glyph that stands in for every byte outside printable ASCII. */
  const SENTINEL: byte := 0xFE

  /** One cell of the text buffer: a glyph byte and its attribute byte. */
  datatype ScreenChar = ScreenChar(asciiCharacter: byte, colorCode: ColorCode)

  type Grid = seq<seq<ScreenChar>>

  /** A grid has the fixed shape of the hardware buffer. */
  predicate IsGrid(g: Grid) {
    |g| == BUFFER_HEIGHT && forall r :: 0 <= r < |g| ==> |g[r]| == BUFFER_WIDTH
  }

  /** What the writer's operations act on: the buffer contents and the writer's column. */
  datatype State = State(grid: Grid, column: nat)

  /** `Panicked` stands for the index-out-of-bounds panic; the state is the one at that moment. */
  datatype Outcome = Completed | Panicked

  datatype Step = Step(outcome: Outcome, state: State)

  /** The line-feed handler of this version: an empty body, so nothing moves and nothing resets. */
  function NewLineState(st: State): (r: State)
    ensures r.grid == st.grid && r.column == st.column
  {
    st
  }

  /**
   * Writing one byte. A line feed only calls the line-feed handler. Any other byte first calls
   * it when the line is full, then stores the byte at the current column of the bottom row and
   * advances the column; a column outside the row makes that store an out-of-bounds index.
   */
  function WriteByteStep(st: State, cc: ColorCode, b: byte): (r: Step)
    requires IsGrid(st.grid)
    ensures IsGrid(r.state.grid)
  {
    if b == NEWLINE then Step(Completed, NewLineState(st))
    else
      var st1 := if st.column >= BUFFER_WIDTH then NewLineState(st) else st;
      if st1.column >= BUFFER_WIDTH then Step(Panicked, st1)
      else
        var row := st1.grid[BOTTOM];
        Step(Completed, State(st1.grid[BOTTOM := row[st1.column := ScreenChar(b, cc)]], st1.column + 1))
  }

  /** Printable ASCII and the line feed are the bytes a string passes through unchanged. */
  predicate IsForwarded(b: byte) {
    (0x20 <= b && b <= 0x7E) || b == NEWLINE
  }

  /** The byte a string hands to the byte writer in place of `b`. */
  function Sanitize(b: byte): (r: byte)
    ensures IsForwarded(b) ==> r == b
    ensures !IsForwarded(b) ==> r == SENTINEL
    ensures r == b <==> IsForwarded(b) || b == SENTINEL
    ensures IsForwarded(r) || r == SENTINEL
    ensures r == NEWLINE <==> b == NEWLINE
  {
    if IsForwarded(b) then b else SENTINEL
  }

  /** Filtering a byte a second time changes nothing. */
  lemma SanitizeIdempotent(b: byte)
    ensures Sanitize(Sanitize(b)) == Sanitize(b)
  {
  }

  /**
   * Writing a byte string: each byte, filtered, goes to the byte writer in order, and the first
   * panic ends the whole write.
   */
  function WriteStringStep(st: State, cc: ColorCode, s: seq<byte>): (r: Step)
    requires IsGrid(st.grid)
    ensures IsGrid(r.state.grid)
    decreases |s|
  {
    if s == [] then Step(Completed, st)
    else
      var prev := WriteStringStep(st, cc, s[..|s| - 1]);
      if prev.outcome == Panicked then prev
      else WriteByteStep(prev.state, cc, Sanitize(s[|s| - 1]))
  }

  /** A panic ends the write: whatever bytes follow, the outcome and the state stay those of the panic. */
  lemma {:induction false} PanicIsFinal(st: State, cc: ColorCode, s: seq<byte>, t: seq<byte>)
    requires IsGrid(st.grid) && WriteStringStep(st, cc, s).outcome == Panicked
    ensures WriteStringStep(st, cc, s + t) == WriteStringStep(st, cc, s)
    decreases |t|
  {
    if t != [] {
      var init := t[..|t| - 1];
      PanicIsFinal(st, cc, s, init);
      assert (s + t)[..|s + t| - 1] == s + init;
    } else {
      assert s + t == s;
    }
  }

  /** The glyphs a byte string puts on the screen, in order: line feeds drop out, the rest are filtered. */
  function Printed(s: seq<byte>): (v: seq<byte>)
    ensures |v| <= |s|
    ensures forall i :: 0 <= i < |v| ==> v[i] != NEWLINE && (IsForwarded(v[i]) || v[i] == SENTINEL)
    decreases |s|
  {
    if s == [] then []
    else Printed(s[..|s| - 1]) + (if s[|s| - 1] == NEWLINE then [] else [Sanitize(s[|s| - 1])])
  }

  /** The cells that show the glyphs `v` in the attribute `cc`. */
  function Cells(v: seq<byte>, cc: ColorCode): (cells: seq<ScreenChar>)
    ensures |cells| == |v|
    ensures forall i :: 0 <= i < |v| ==> cells[i] == ScreenChar(v[i], cc)
  {
    seq(|v|, i requires 0 <= i < |v| => ScreenChar(v[i], cc))
  }

  /**
   * Reference definition of typing the glyphs `v` at the current column: the bottom row gets
   * `Cells(v, cc)` from that column on, every other cell keeps its value, and the column moves
   * past them.
   */
  function Typed(st: State, cc: ColorCode, v: seq<byte>): (r: State)
    requires IsGrid(st.grid) && st.column + |v| <= BUFFER_WIDTH
    ensures IsGrid(r.grid)
  {
    var row := st.grid[BOTTOM];
    State(st.grid[BOTTOM := row[..st.column] + Cells(v, cc) + row[st.column + |v|..]], st.column + |v|)
  }

  // ---------------------------------------------------------------------------------------------
  // Writing one byte

  /** A line feed changes neither the grid nor the column. */
  lemma NewlineChangesNothing(st: State, cc: ColorCode)
    requires IsGrid(st.grid)
    ensures WriteByteStep(st, cc, NEWLINE) == Step(Completed, st)
  {
  }

  /** Any other byte panics exactly when the column is at or past the end of the row, and a panic changes nothing. */
  lemma WriteBytePanicsIff(st: State, cc: ColorCode, b: byte)
    requires IsGrid(st.grid) && b != NEWLINE
    ensures WriteByteStep(st, cc, b).outcome == Panicked <==> st.column >= BUFFER_WIDTH
    ensures WriteByteStep(st, cc, b).outcome == Panicked ==> WriteByteStep(st, cc, b).state == st
  {
  }

  /**
   * Any other byte written at a column inside the row lands in that cell of the bottom row with
   * the writer's attribute, moves the column one on, and leaves every other cell as it was.
   */
  lemma WriteByteWritesOneCell(st: State, cc: ColorCode, b: byte)
    requires IsGrid(st.grid) && b != NEWLINE && st.column < BUFFER_WIDTH
    ensures var r := WriteByteStep(st, cc, b);
      && r.outcome == Completed
      && r.state.column == st.column + 1
      && r.state.grid[BOTTOM][st.column] == ScreenChar(b, cc)
      && forall row, col ::
           0 <= row < BUFFER_HEIGHT && 0 <= col < BUFFER_WIDTH && !(row == BOTTOM && col == st.column)
           ==> r.state.grid[row][col] == st.grid[row][col]
  {
  }

  /** The same step, stated against the reference definition. */
  lemma WriteByteTyped(st: State, cc: ColorCode, b: byte)
    requires IsGrid(st.grid) && b != NEWLINE && st.column < BUFFER_WIDTH
    ensures WriteByteStep(st, cc, b) == Step(Completed, Typed(st, cc, [b]))
  {
    TypedNothing(st, cc);
    TypedAppend(st, cc, [], b);
    assert [] + [b] == [b];
  }

  /** Typing no glyphs leaves the state as it is. */
  lemma TypedNothing(st: State, cc: ColorCode)
    requires IsGrid(st.grid) && st.column <= BUFFER_WIDTH
    ensures Typed(st, cc, []) == st
  {
    var row := st.grid[BOTTOM];
    assert row[..st.column] + Cells([], cc) + row[st.column..] == row;
    assert st.grid[BOTTOM := row] == st.grid;
  }

  /** Typing one more glyph is storing it in the next cell and moving the column on. */
  lemma TypedAppend(st: State, cc: ColorCode, v: seq<byte>, x: byte)
    requires IsGrid(st.grid) && st.column + |v| < BUFFER_WIDTH
    ensures var t := Typed(st, cc, v);
      Typed(st, cc, v + [x]) == State(t.grid[BOTTOM := t.grid[BOTTOM][t.column := ScreenChar(x, cc)]], t.column + 1)
  {
    var row := st.grid[BOTTOM];
    var c, n := st.column, |v|;
    var longer := row[..c] + Cells(v + [x], cc) + row[c + n + 1..];
    var stored := (row[..c] + Cells(v, cc) + row[c + n..])[c + n := ScreenChar(x, cc)];
    assert |longer| == |stored| == BUFFER_WIDTH;
    forall k | 0 <= k < BUFFER_WIDTH
      ensures longer[k] == stored[k]
    {
      if k < c {
      } else if k < c + n {
        assert longer[k] == Cells(v + [x], cc)[k - c];
      } else if k == c + n {
      } else {
        assert longer[k] == row[k];
      }
    }
    assert longer == stored;
  }

  /** The step keeps the column within the row: it never passes the width. */
  lemma WriteByteColumnBound(st: State, cc: ColorCode, b: byte)
    requires IsGrid(st.grid) && st.column <= BUFFER_WIDTH
    ensures WriteByteStep(st, cc, b).state.column <= BUFFER_WIDTH
  {
  }

  /** The writer's attribute never changes: every cell a step changes carries it. */
  lemma WriteByteUsesWriterColor(st: State, cc: ColorCode, b: byte, row: nat, col: nat)
    requires IsGrid(st.grid) && row < BUFFER_HEIGHT && col < BUFFER_WIDTH
    requires WriteByteStep(st, cc, b).state.grid[row][col] != st.grid[row][col]
    ensures WriteByteStep(st, cc, b).state.grid[row][col].colorCode == cc
  {
  }

  // ---------------------------------------------------------------------------------------------
  // Writing a byte string

  /** The empty string changes neither the grid nor the column. */
  lemma EmptyStringChangesNothing(st: State, cc: ColorCode)
    requires IsGrid(st.grid)
    ensures WriteStringStep(st, cc, []) == Step(Completed, st)
  {
  }

  /** A byte string without line feeds puts every one of its bytes, filtered, on the screen. */
  lemma {:induction false} PrintedWithoutNewlines(s: seq<byte>)
    requires forall i :: 0 <= i < |s| ==> s[i] != NEWLINE
    ensures |Printed(s)| == |s|
    ensures forall i :: 0 <= i < |s| ==> Printed(s)[i] == Sanitize(s[i])
    decreases |s|
  {
    if s != [] {
      var init := s[..|s| - 1];
      PrintedWithoutNewlines(init);
      assert Printed(s) == Printed(init) + [Sanitize(s[|s| - 1])];
    }
  }

  /**
   * The whole effect of writing a byte string from a column inside the row: the glyphs it prints
   * are typed from that column on. When they do not fit, the first glyph past the end panics,
   * with exactly the glyphs that fit typed.
   */
  lemma {:induction false} WriteStringEffect(st: State, cc: ColorCode, s: seq<byte>)
    requires IsGrid(st.grid) && st.column <= BUFFER_WIDTH
    ensures var v := Printed(s);
      WriteStringStep(st, cc, s) ==
        if st.column + |v| <= BUFFER_WIDTH then Step(Completed, Typed(st, cc, v))
        else Step(Panicked, Typed(st, cc, v[..BUFFER_WIDTH - st.column]))
    decreases |s|
  {
    if s == [] {
      TypedNothing(st, cc);
    } else {
      var init, b := s[..|s| - 1], s[|s| - 1];
      WriteStringEffect(st, cc, init);
      var v := Printed(init);
      var room := BUFFER_WIDTH - st.column;
      assert Printed(s) == v + (if b == NEWLINE then [] else [Sanitize(b)]);
      if st.column + |v| > BUFFER_WIDTH {
        assert Printed(s)[..room] == v[..room];
      } else if b == NEWLINE {
        assert Printed(s) == v;
      } else if st.column + |v| < BUFFER_WIDTH {
        TypedAppend(st, cc, v, Sanitize(b));
      } else {
        assert Printed(s)[..room] == v;
      }
    }
  }

  /**
   * A byte string without line feeds that fits in the rest of the row completes, leaves its
   * filtered bytes in order from the starting column, leaves every other cell alone and moves
   * the column past them.
   */
  lemma WriteStringFits(st: State, cc: ColorCode, s: seq<byte>)
    requires IsGrid(st.grid) && st.column + |s| <= BUFFER_WIDTH
    requires forall i :: 0 <= i < |s| ==> s[i] != NEWLINE
    ensures var r := WriteStringStep(st, cc, s);
      && r.outcome == Completed
      && r.state.column == st.column + |s|
      && (forall i :: 0 <= i < |s| ==> r.state.grid[BOTTOM][st.column + i] == ScreenChar(Sanitize(s[i]), cc))
      && forall row, col ::
           0 <= row < BUFFER_HEIGHT && 0 <= col < BUFFER_WIDTH && !(row == BOTTOM && st.column <= col < st.column + |s|)
           ==> r.state.grid[row][col] == st.grid[row][col]
  {
    PrintedWithoutNewlines(s);
    WriteStringEffect(st, cc, s);
    var r := WriteStringStep(st, cc, s);
    forall i | 0 <= i < |s|
      ensures r.state.grid[BOTTOM][st.column + i] == ScreenChar(Sanitize(s[i]), cc)
    {
      assert r.state.grid[BOTTOM][st.column + i] == Cells(Printed(s), cc)[i];
    }
  }

  /** Writing a byte string from a column inside the row never moves the column past the width. */
  lemma WriteStringColumnBound(st: State, cc: ColorCode, s: seq<byte>)
    requires IsGrid(st.grid) && st.column <= BUFFER_WIDTH
    ensures WriteStringStep(st, cc, s).state.column <= BUFFER_WIDTH
  {
    WriteStringEffect(st, cc, s);
  }

  /** Typing two runs of glyphs one after the other is typing them together. */
  lemma TypedConcat(st: State, cc: ColorCode, v: seq<byte>, w: seq<byte>)
    requires IsGrid(st.grid) && st.column + |v| + |w| <= BUFFER_WIDTH
    ensures Typed(Typed(st, cc, v), cc, w) == Typed(st, cc, v + w)
  {
    var row := st.grid[BOTTOM];
    var c, n, m := st.column, |v|, |w|;
    var mid := row[..c] + Cells(v, cc) + row[c + n..];
    var twice := mid[..c + n] + Cells(w, cc) + mid[c + n + m..];
    var once := row[..c] + Cells(v + w, cc) + row[c + n + m..];
    assert |twice| == |once| == BUFFER_WIDTH;
    forall k | 0 <= k < BUFFER_WIDTH
      ensures twice[k] == once[k]
    {
      if k < c {
      } else if k < c + n {
        assert twice[k] == mid[k] == Cells(v, cc)[k - c];
      } else if k < c + n + m {
        assert twice[k] == Cells(w, cc)[k - c - n];
      } else {
        assert twice[k] == mid[k] == row[k];
      }
    }
    assert twice == once;
  }

  // ---------------------------------------------------------------------------------------------
  // The demonstration routine

  /** Yellow on black, the attribute the demonstration routine writes with. */
  const YELLOW_ON_BLACK: ColorCode := NewColorCode(Yellow, Black)
  /** "ello " */
  const ELLO: seq<byte> := [0x65, 0x6C, 0x6C, 0x6F, 0x20]
  /** "Wörld!" encoded in UTF-8: the o-umlaut is the two bytes 0xC3 0xB6. */
  const WORLD: seq<byte> := [0x57, 0xC3, 0xB6, 0x72, 0x6C, 0x64, 0x21]
  /** What the routine leaves on the bottom row: "Hello W", two sentinels, "rld!". */
  const GLYPHS: seq<byte> := [0x48, 0x65, 0x6C, 0x6C, 0x6F, 0x20, 0x57, 0xFE, 0xFE, 0x72, 0x6C, 0x64, 0x21]

  /** The demonstration routine on a fresh writer at column 0: 'H', then "ello ", then "Wörld!". */
  function PrintSomethingStep(g: Grid): (r: Step)
    requires IsGrid(g)
    ensures IsGrid(r.state.grid) && r.state.column <= BUFFER_WIDTH
  {
    var s1 := WriteByteStep(State(g, 0), YELLOW_ON_BLACK, 0x48);
    WriteByteColumnBound(State(g, 0), YELLOW_ON_BLACK, 0x48);
    if s1.outcome == Panicked then s1
    else
      var s2 := WriteStringStep(s1.state, YELLOW_ON_BLACK, ELLO);
      WriteStringColumnBound(s1.state, YELLOW_ON_BLACK, ELLO);
      if s2.outcome == Panicked then s2
      else
        WriteStringColumnBound(s2.state, YELLOW_ON_BLACK, WORLD);
        WriteStringStep(s2.state, YELLOW_ON_BLACK, WORLD)
  }

  /**
   * The routine completes; the bottom row holds "Hello W", two sentinels and "rld!" in columns
   * 0..12, all in attribute 0x0E; everything else is untouched; the column ends at 13.
   */
  lemma PrintSomethingResult(g: Grid)
    requires IsGrid(g)
    ensures YELLOW_ON_BLACK.value == 0x0E
    ensures PrintSomethingStep(g) == Step(Completed, Typed(State(g, 0), YELLOW_ON_BLACK, GLYPHS))
    ensures Typed(State(g, 0), YELLOW_ON_BLACK, GLYPHS).column == 13
  {
    var st := State(g, 0);
    var cc := YELLOW_ON_BLACK;
    WriteByteTyped(st, cc, 0x48);
    var s1 := Typed(st, cc, [0x48]);
    PrintedWithoutNewlines(ELLO);
    assert Printed(ELLO) == ELLO;
    WriteStringEffect(s1, cc, ELLO);
    TypedConcat(st, cc, [0x48], ELLO);
    var s2 := Typed(st, cc, [0x48] + ELLO);
    PrintedWithoutNewlines(WORLD);
    assert Printed(WORLD) == [0x57, 0xFE, 0xFE, 0x72, 0x6C, 0x64, 0x21];
    WriteStringEffect(s2, cc, WORLD);
    TypedConcat(st, cc, [0x48] + ELLO, Printed(WORLD));
    assert [0x48] + ELLO + Printed(WORLD) == GLYPHS;
  }
}
