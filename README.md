# VGA text-mode writer, modelled in Dafny

This project models the text-mode display writer of the hyperml kernel (`hyperml_os/src/vga_buffer.rs`).
The display is a 25×80 grid of cells. Each cell holds a glyph byte and an attribute byte. The attribute
byte packs a background colour (high nibble) and a foreground colour (low nibble) from a fixed
16-colour palette. A `Writer` keeps a column on the bottom row and a fixed attribute byte, and owns the grid. `write_byte` puts
one byte at that column and moves the column on. `write_string` filters every byte of a string
(printable ASCII and line feed pass, anything else becomes the sentinel glyph 0xFE) and hands it to
`write_byte`.

In this version of the code the line-feed handler `new_line` is an empty stub. The model follows
the code, not the intended design:

- a line feed changes nothing: no scroll and no column reset;
- a non-line-feed byte at column 80 or beyond takes the wrap branch, which does nothing, and then
  indexes past the end of the row. That is a Rust index-out-of-bounds panic.

The panic is an explicit outcome, `Panicked`. The state it carries is the state at the moment of the panic.
The bounds check fails before the store, so nothing has been written for that byte. A panic ends the
rest of a string's write.

Files and modules:

- `colors.dfy`, module `ColorCodes`: the palette `Color`, the attribute byte `ColorCode`, packing
  (`NewColorCode`) and unpacking (`Foreground`, `Background`). Bytes are `bv8`, and the packing is
  the same 8-bit shift-and-or as the source.
- `grid.dfy`, module `TextGrid`: the cell `ScreenChar`, the grid as a value (`seq<seq<ScreenChar>>`,
  checked by `IsGrid`), the writer state `State(grid, column)`, and the step functions
  `WriteByteStep` and `WriteStringStep`. It also holds the filter `Sanitize`, the printed
  glyphs of a string `Printed`, and an independent reference definition `Typed` (the glyphs laid into
  the bottom row from the current column). The lemmas connect the step functions to `Typed`. The
  demonstration routine `print_something` is the function `PrintSomethingStep` and the lemma
  `PrintSomethingResult`.
- `writer.dfy`, module `VgaBuffer`: the class `Writer`. Its fields are `columnPosition`,
  `colorCode` and `buffer`, and `buffer` is an `array2<ScreenChar>` updated in place. `WriteByte`,
  `WriteString` and `NewLine` are proved to produce exactly the state and outcome of the matching
  step function on `Model()`. `PrintSomething` runs the demonstration on a caller-supplied buffer.

The comments in vga_buffer.rs describe more than its code does. The model follows the code:

- The comment at vga_buffer.rs:73 says the writer shifts lines up when a line is full or on a line
  feed, and the comment at line 90 says `new_line` is to be implemented later. In the code,
  `new_line` is an empty stub (vga_buffer.rs:135): there is no scroll and no column reset.
- The comments at vga_buffer.rs:94-97 say a full line wraps. Because the wrap calls that stub, the
  81st byte other than a line feed written on the bottom row from column 0 panics. Line feeds do
  not count towards the 81, since they change nothing (`WriteBytePanicsIff`, `WriteStringEffect`).

## Model

| member | source | states |
|---|---|---|
| `ColorCodes.Value` | hyperml_os/src/vga_buffer.rs:9-26 | each colour's hardware code is below 16 |
| `ColorCodes.ColorOf` | hyperml_os/src/vga_buffer.rs:9-26 | every code 0..15 names a colour whose code is exactly that value |
| `ColorCodes.ValueRoundTrip` | hyperml_os/src/vga_buffer.rs:9-26 | decoding a colour's code gives the same colour back, so the 16 codes are distinct |
| `ColorCodes.Foreground` | hyperml_os/src/vga_buffer.rs:36-43 | the foreground colour is the one whose code is the low nibble of the attribute byte |
| `ColorCodes.Background` | hyperml_os/src/vga_buffer.rs:36-43 | the background colour is the one whose code is the high nibble of the attribute byte |
| `ColorCodes.NewColorCode` | hyperml_os/src/vga_buffer.rs:41-43 | the packed byte equals 16·background + foreground, and its low and high nibbles decode to exactly the foreground and the background, for all 16×16 pairs |
| `ColorCodes.DecodeRoundTrip` | hyperml_os/src/vga_buffer.rs:41-43 | every attribute byte is the packing of the colours its two nibbles name |
| `ColorCodes.NewColorCodeInjective` | hyperml_os/src/vga_buffer.rs:41-43 | two colour pairs give the same attribute byte only when they are the same pair |
| `TextGrid.NewLineState` | hyperml_os/src/vga_buffer.rs:135 | the line-feed handler of this version leaves the grid and the column exactly as they were |
| `TextGrid.WriteByteStep` | hyperml_os/src/vga_buffer.rs:88-117 | writing one byte keeps the 25×80 shape of the grid; what it does to cells and column is stated by the lemmas below |
| `TextGrid.NewlineChangesNothing` | hyperml_os/src/vga_buffer.rs:88-91 | because `new_line` (line 135) is a stub, writing a line feed completes and leaves the grid and the column unchanged |
| `TextGrid.WriteBytePanicsIff` | hyperml_os/src/vga_buffer.rs:95-108 | a non-line-feed byte panics if and only if the column is at least 80, and a panic leaves the state unchanged |
| `TextGrid.WriteByteWritesOneCell` | hyperml_os/src/vga_buffer.rs:101-114 | a non-line-feed byte at column c < 80 completes, sets cell [24][c] to the byte with the writer's attribute, makes the column c + 1 and leaves every other cell unchanged |
| `TextGrid.WriteByteTyped` | hyperml_os/src/vga_buffer.rs:101-114 | the same step equals the reference definition of typing the one glyph at the current column |
| `TextGrid.WriteByteColumnBound` | hyperml_os/src/vga_buffer.rs:95-114 | from a column of at most 80, the column stays at most 80 after any byte |
| `TextGrid.WriteByteUsesWriterColor` | hyperml_os/src/vga_buffer.rs:104-111 | every cell a byte write changes carries the writer's attribute byte |
| `TextGrid.Sanitize` | hyperml_os/src/vga_buffer.rs:125-130 | printable ASCII and the line feed are passed through unchanged and every other byte becomes the sentinel 0xFE; so a byte is passed through unchanged exactly when it is printable ASCII, a line feed or the sentinel itself; every result is printable ASCII, a line feed or the sentinel; the result is a line feed exactly when the input is |
| `TextGrid.SanitizeIdempotent` | hyperml_os/src/vga_buffer.rs:125-130 | filtering a filtered byte changes nothing |
| `TextGrid.WriteStringStep` | hyperml_os/src/vga_buffer.rs:120-133 | writing a string keeps the 25×80 shape of the grid |
| `TextGrid.Printed` | hyperml_os/src/vga_buffer.rs:120-133 | the glyphs a string puts on screen are no more than its bytes, and none of them is a line feed or a byte outside printable ASCII other than the sentinel |
| `TextGrid.PanicIsFinal` | hyperml_os/src/vga_buffer.rs:123-132 | once a write panics, the bytes after it change neither the outcome nor the state |
| `TextGrid.EmptyStringChangesNothing` | hyperml_os/src/vga_buffer.rs:120-133 | writing the empty string completes and changes neither the grid nor the column |
| `TextGrid.PrintedWithoutNewlines` | hyperml_os/src/vga_buffer.rs:123-130 | for a string without line feeds, the printed glyphs are the filter applied to each byte, in order |
| `TextGrid.WriteStringEffect` | hyperml_os/src/vga_buffer.rs:120-133 | from a column c ≤ 80, a string's write completes with its printed glyphs laid into row 24 from column c, when they fit; otherwise it panics with exactly the first 80 − c glyphs laid there |
| `TextGrid.WriteStringFits` | hyperml_os/src/vga_buffer.rs:120-133 | a string s of n bytes without line feeds with c + n ≤ 80 completes, cells [24][c..c+n] hold the filtered bytes in order with the writer's attribute, every other cell is unchanged, and the column is c + n |
| `TextGrid.WriteStringColumnBound` | hyperml_os/src/vga_buffer.rs:120-133 | from a column of at most 80, the column stays at most 80 after any string |
| `TextGrid.PrintSomethingStep` | hyperml_os/src/vga_buffer.rs:139-148 | the routine's three writes, chained so that a panic ends it, keep the grid's shape and leave the column at most 80; its exact result is stated by `PrintSomethingResult` |
| `TextGrid.PrintSomethingResult` | hyperml_os/src/vga_buffer.rs:139-148 | 'H', "ello " and the UTF-8 bytes of "Wörld!" from column 0 complete; row 24, columns 0..12, holds H e l l o ␠ W 0xFE 0xFE r l d ! in attribute 0x0E (yellow on black); nothing else changes; the column ends at 13 |
| `VgaBuffer.Writer.Model` | hyperml_os/src/vga_buffer.rs:75-82 | the writer's state as a value: the buffer's cells as a 25×80 grid of `ScreenChar` (vga_buffer.rs:53-56) and the column |
| `VgaBuffer.Writer.constructor` | hyperml_os/src/vga_buffer.rs:140-144 | a writer holds the given column, attribute byte and buffer |
| `VgaBuffer.Writer.NewLine` | hyperml_os/src/vga_buffer.rs:135 | the line-feed handler leaves the grid and the column as they were |
| `VgaBuffer.Writer.WriteByte` | hyperml_os/src/vga_buffer.rs:88-117 | the in-place update of the cell array and column, with its outcome, equals `WriteByteStep` on the writer's previous state; the buffer keeps its shape, and a column of at most 80 stays at most 80 |
| `VgaBuffer.Writer.WriteString` | hyperml_os/src/vga_buffer.rs:120-133 | the byte-by-byte loop leaves the cell array, the column and the outcome that `WriteStringStep` gives for the previous state; the buffer keeps its shape, and a column of at most 80 stays at most 80 |
| `VgaBuffer.PrintSomething` | hyperml_os/src/vga_buffer.rs:139-149 | on any 25×80 buffer, the routine leaves row 24 starting with the 13 glyphs above in yellow on black and every other cell unchanged |

## Left out

- Volatile access (`Volatile<ScreenChar>` and its `write`): cell writes are plain array updates. Ordering and elision are compiler concerns.
- The binding of the buffer to physical address 0xb8000: `PrintSomething` takes the buffer as a parameter instead. The binding is a trusted hardware fact.
- The `repr(u8)`, `repr(transparent)` and `repr(C)` layouts and the `Debug`/`Clone`/`Copy`/`PartialEq` derives: the model keeps the values (a glyph byte and an attribute byte per cell), not their memory layout.
- `ColorCodes.NewColorCode` does not state "below 256" as a contract: the attribute byte is a `bv8`, so the bound holds by its type.
- `Buffer` as a separate struct: the writer holds the 25×80 `array2` directly, because the struct has only that one field.
- The column is a `nat` rather than a `usize`. It is incremented only when it is below 80, so no overflow can occur.
- Rust's UTF-8 guarantee for `&str`: strings are arbitrary byte sequences, the form that `s.bytes()` yields.
- Scroll-up, the global spin-locked writer, the `print!`/`println!` macros and formatted output: none of them exists in vga_buffer.rs, where `new_line` is an empty stub.
- hyperml_os/src/main.rs (the entry point, the panic handler, the endless loops): startup plumbing, and the `println!` it calls is not defined in the modelled file.
- What a Rust panic does after the out-of-bounds index (unwinding, the panic handler): the model stops at the `Panicked` outcome.
