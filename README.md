# noansi in Dafny

noansi reads ANSI art: bytes in IBM code page 437, interleaved with the CSI
control sequences of ECMA-48 (section 5.4) that MS-DOS ANSI.SYS understood.
It draws them on a screen of 1024 rows by 80 columns. It then prints the
screen as plain ASCII, with mIRC colour codes (the byte 0x03 followed by
`fg` or `fg,bg`). The program makes five passes over one screen array:

1. `clear_screen` fills every cell with the default cell. This is a space,
   white on black, carrying the private "unchanged" flag.
2. `read_ansi` interprets the input byte by byte. It tracks:
   - the cursor (a row and a column);
   - a saved position;
   - the current rendition (foreground, background and one style flag);
   - the wrapping switch.

   It understands the CSI final bytes `m`, `J`, `h`, `H`, `s`, `u`, `A`,
   `B`, `C` and `D`. Every malformed or unsupported sequence reaches
   `doerror`, which aborts the program.
3. `cp437_to_ascii` replaces each glyph by an ASCII look-alike. Four glyphs
   also flip flags. The inverse smiley face 0x02, the dark shade 0xb2 and
   the full block 0xdb flip inverse and bright background. The medium shade
   0xb1 flips bold.
4. `normalize` folds the bold flags into bright colours and inverse into
   swapped colours. It then clears all flags except on untouched cells.
5. `output_mirc` prints a window of rows. The window starts at `START` and
   stops before `END`, or one row after the last written row,
   whichever comes first. Each row is cut after its last written cell, and
   a colour code is emitted whenever the colours change.

A cell is a datatype (glyph, foreground, background, set of flags). The
packing into the 32-bit `achar_t` is written out as arithmetic (`Cells.Pack`)
and proved injective, so comparing cells is comparing words. The screen is
an `array2<Cell>` in the methods and a `seq<seq<Cell>>` in the specification.

The module layout:

- `Cells`: the cell type, its packing, the screen and `clear_screen`.
- `Interpreter`: `read_ansi` and `handle_sgr`. The functions `Put`, `Step`,
  `Scan`, `Perform` and `Run` are the specification. The class `Terminal`
  holds the locals of `read_ansi` that persist between bytes. The methods
  `ReadSequence` and `ReadAnsi` hold the two loops, with the arrays `nbuf`
  and `params` of the original.
- `Charset`: the code page 437 table and `cp437_to_ascii`.
- `Normalizer`: `normalize`.
- `Renderer`: `output_mirc`. The output is returned as a byte sequence
  instead of being written to stdout.
- `Pipeline`: the passes in the order `main` runs them.
- `SgrProperties`, `TermProperties` and `RunProperties`: lemmas about the
  interpreter.
- `Scenarios`: two inputs followed through every pass to the bytes printed.

The input is a byte sequence; end of file is its end. The `-t` (expand
tabs) and `-z` (do not stop at 0x1A) switches are a `Config` value. The row
window `START-END` is a pair of parameters.

## Model

| member | source | states |
|---|---|---|
| Cells.Unpack | noansi.c:53-62 | ACCHAR, ACFG, ACBG and ACFLAGS of a packed cell give back its glyph, colours and flags |
| Cells.PackInjective | noansi.c:53-62 | two cells pack to the same word exactly when they are equal |
| Cells.FlagBits | noansi.c:40-46 | the bit of each ACF_ flag is set in the packed word exactly when the cell has that flag |
| Cells.DefaultWord | noansi.c:73 | default_char is the word 0x200720 |
| Cells.ZeroWord | noansi.c:538 | the only cell whose word is 0 is glyph 0, black on black, with no flags |
| Cells.Blank | noansi.c:138-145 | the cleared screen is 1024 by 80 cells, all equal to default_char |
| Cells.Write | noansi.c:170 | writing a cell changes that cell and no other |
| Cells.ClearScreen | noansi.c:138-145 | after the pass the array is the cleared screen |
| Cells.Check | noansi.c:534-543 | the result is true exactly when no cell packs to 0 |
| Charset.Cp437 | noansi.c:394-428 | every byte maps to printable ASCII (0x20 to 0x7e) |
| Charset.Toggle | noansi.c:436-439 | XOR of one flag: that flag flips and every other flag stays |
| Charset.TranslateCell | noansi.c:433-441 | the glyph becomes its table entry, the colours stay, and a flag is set exactly when it was set XOR the glyph flips it (inverse and bright background for 0x02, 0xb2 and 0xdb, bold for 0xb1) |
| Charset.CpToAscii | noansi.c:429-444 | the array after the pass is every cell of the old array translated |
| Charset.TranslateDefault | noansi.c:433-441 | the translation leaves default_char as it is |
| Charset.TranslateKeepsUnchanged | noansi.c:433-441 | the unchanged flag survives the translation, so a written cell never becomes default_char |
| Normalizer.Bright | noansi.c:457-462 | OR 8 gives a bright colour with the same base colour |
| Normalizer.NormalizeCell | noansi.c:450-474 | default_char stays; any other cell keeps its glyph, shows its bold and inverse effects in its colours and loses all flags; the result is default_char exactly when the input is |
| Normalizer.Normalize | noansi.c:446-477 | the array after the pass is every old cell normalised |
| Normalizer.ResolveResolves | noansi.c:446-477 | after the pass no written cell carries a flag |
| Normalizer.NormalizeCellIdempotent | noansi.c:450-474 | normalising a normalised cell changes nothing |
| Normalizer.ResolveIdempotent | noansi.c:446-477 | running the pass twice is the same as running it once |
| Interpreter.Clamp | noansi.c:272-280 | MAX(0, MIN(v, hi)) is v inside the range and the nearer bound outside it |
| Interpreter.U8 | noansi.c:147 | the unsigned char conversion gives a value below 256 and keeps values already below 256 |
| Interpreter.HandleSgr | noansi.c:89-137 | code 0 resets; only 0 and 30-37, 39 change the foreground; only 0 and 40-47 change the background; only 0, 1, 4, 5, 7 change the flags; 1, 4, 5 and 7 set exactly bold, underline, blink or inverse; 30+n and 40+n set the foreground or background to n; 39 restores the white foreground; unknown codes change nothing; a rendition with at most one style flag keeps that shape |
| Interpreter.Put | noansi.c:156-179 | a byte outside a sequence keeps the cursor on the screen |
| Interpreter.Decimal | noansi.c:207-208 | atoi of n digits is below 10 to the n |
| Interpreter.Flush | noansi.c:206-210 | the locals stay within the bounds of nbuf and params after a flush |
| Interpreter.Step | noansi.c:191-221 | one byte of a sequence lengthens it by one, stops it with an error or 0x1A, or ends it on a final byte that is no digit, `?` or `;` (nor 0x1A without -z) |
| Interpreter.Scan | noansi.c:190-221 | a completed sequence ends inside the input, on a final byte that is no digit, `?` or `;` (nor 0x1A without -z) |
| Interpreter.Perform | noansi.c:211-375 | a command that succeeds keeps the cursor on the screen and the saved slot in range |
| Interpreter.Run | noansi.c:151-379 | a run that finishes leaves the cursor on the screen |
| Interpreter.Terminal.constructor | noansi.c:147-150 | the locals start at row 0, column 0, nothing saved (255), white on black, no flags, wrapping on |
| Interpreter.Terminal.PutByte | noansi.c:156-179 | the new state is Put of the old one, and it reports a stop exactly when Put stops the run |
| Interpreter.Terminal.WriteGlyph | noansi.c:170-178 | writes the glyph at the cursor with the current rendition and advances the cursor, wrapping to the next row or staying at the last column |
| Interpreter.Terminal.SelectRendition | noansi.c:222-234 | the rendition becomes handle_sgr applied to each parameter in turn, or to 0 when there is none |
| Interpreter.Terminal.MoveCursor | noansi.c:303-370 | A, B, C and D move the cursor by delta, stopping at row 0, row 1023, column 79 and column 0 |
| Interpreter.Terminal.SetPosition | noansi.c:263-282 | H homes with no parameter; with one it sets the row, or the column after a `;`; with two it sets both, clamped to the screen; with three it does nothing |
| Interpreter.Terminal.Execute | noansi.c:211-375 | it reports an error exactly when Perform fails, the same error, and otherwise the new state is Perform of the old one |
| Interpreter.PushDigit | noansi.c:203 | the digit is appended to nbuf |
| Interpreter.FlushDigits | noansi.c:206-210 | nbuf and params afterwards hold what Flush says |
| Interpreter.Absorb | noansi.c:191-221 | the arrays and counters afterwards hold what Step says, or it returns how the sequence stopped or ended |
| Interpreter.ReadSequence | noansi.c:190-221 | the loop over a sequence returns what Scan says |
| Interpreter.ReadAnsi | noansi.c:146-379 | it aborts exactly when Run aborts, with the same error, and otherwise leaves on the screen the grid of Run's final state |
| SgrProperties.ApplySgrsAppend | noansi.c:230-232 | applying two lists of codes is applying the first, then the second |
| SgrProperties.ResetForgets | noansi.c:92-96 | a 0 among the codes forgets everything before it |
| SgrProperties.IgnoredCodes | noansi.c:121-135 | codes outside the known set leave the rendition unchanged |
| SgrProperties.ApplySgrsPlain | noansi.c:97-108 | any list of codes leaves at most one style flag set |
| SgrProperties.FlagCodesReplace | noansi.c:97-108 | of two style codes (1, 4, 5, 7) in a row only the second counts, and any code given twice acts as once |
| SgrProperties.ColourCodes | noansi.c:109-119 | 30+n sets the foreground to n and changes nothing else, 40+n the same for the background |
| TermProperties.PutGlyph | noansi.c:170-178 | a glyph is written at the cursor with the current rendition, nothing else on the screen changes, the written cell differs from default_char, and the cursor advances or wraps |
| TermProperties.NextTabStop | noansi.c:165 | the next tab stop lies 1 to 8 columns ahead on a multiple of 8 |
| TermProperties.MaskTab | noansi.c:165 | `(y + 8) & 0xf8` is the next tab stop |
| TermProperties.PutControl | noansi.c:157-166 | LF moves to column 0 of the next row (at most row 1023), CR to column 0, TAB with -t to the next tab stop (at most column 79); the screen and the rest stay |
| TermProperties.PutSub | noansi.c:167-169 | 0x1A stops the run exactly when -z is off |
| TermProperties.PutSane | noansi.c:156-179 | a byte keeps the invariant of every reachable state: cursor on the screen, wrapping on, at most one style flag, and no written cell carrying the unchanged flag |
| TermProperties.PerformSane | noansi.c:211-375 | a command keeps the same invariant |
| TermProperties.Erase | noansi.c:235-250 | `CSI 2 J` clears the screen and homes the cursor, keeps the rest, and doing it twice is doing it once |
| TermProperties.SaveRestore | noansi.c:283-302 | `s` then `u` restores the row modulo 256 and the column, and fails when that row is 255 |
| TermProperties.RestoreFirst | noansi.c:291-302 | `u` in any state whose saved row or column is still 255 is an error, and `u` with `?` or a parameter is the "invalid form" error |
| TermProperties.OnlySaveSaves | noansi.c:156-374 | a byte outside a sequence and every command but `s` leave the saved row and column as they were |
| TermProperties.WrapOn | noansi.c:251-262 | `h` is accepted exactly as `CSI ? 7 h`, which turns wrapping on and changes nothing else (nothing at all in a reachable state) |
| TermProperties.CursorPosition | noansi.c:263-282 | `H` with no parameter homes the cursor; with p;q, with ;p, with p and with three parameters it moves the cursor as documented (parameter 0 counts as 1) |
| TermProperties.MoveAmount | noansi.c:311-312 | a move by a multiple of 256 does nothing, because delta is an unsigned char |
| TermProperties.MovesUndo | noansi.c:303-370 | a move that is not clamped is undone by the opposite move |
| TermProperties.MovesClamp | noansi.c:303-370 | each move by p < 10000 goes by p modulo 256 and lands on the clamped row or column |
| TermProperties.MoveDefault | noansi.c:303-370 | a move without a parameter is a move by 1, and it changes only the cursor |
| TermProperties.PerformFails | noansi.c:211-375 | a command fails exactly in the cases where doerror is reached |
| RunProperties.RunKeepsSane | noansi.c:151-379 | a finished run keeps that invariant |
| RunProperties.InitialSane | noansi.c:147-150 | the initial state on a cleared screen satisfies the invariant |
| RunProperties.ScanLength | noansi.c:191-195 | a completed sequence is shorter than 64 bytes |
| RunProperties.ScanBounded | noansi.c:191-195 | a sequence cut off by the end of input had fewer than 64 bytes, counting those already read |
| RunProperties.SemicolonsTooLong | noansi.c:191-195 | 63 bytes that are `;`, or `?` before any parameter, abort with "sequence too long" from any point of the sequence |
| RunProperties.QuestionMark | noansi.c:212-218 | `?` after a parameter or a pending number aborts with "invalid sequence"; otherwise it sets the question flag and the scan goes on |
| RunProperties.SubInSequence | noansi.c:196-198 | 0x1A inside a sequence interrupts it without -z, and is its final byte with -z |
| RunProperties.SubEnds | noansi.c:167-169 | 0x1A outside a sequence ends the run with the state before it without -z, and is written as a glyph with -z |
| RunProperties.DigitStep | noansi.c:199-204 | a digit is appended to nbuf |
| RunProperties.DecimalOne | noansi.c:207-208 | atoi of one digit is its value |
| RunProperties.SemicolonFlushes | noansi.c:206-221 | a `;` after a digit stores the number as the next parameter |
| RunProperties.SlotStep | noansi.c:199-221 | a digit followed by `;` fills the next parameter slot |
| RunProperties.KeepStep | noansi.c:199-221 | with all three slots full, digits are kept in nbuf across `;` |
| RunProperties.OverflowStep | noansi.c:199-202 | a fifth digit in nbuf aborts with "number too large" |
| RunProperties.FinalStep | noansi.c:206-221 | a final byte ends the sequence; a pending number is stored as a parameter first |
| RunProperties.SequenceStep | noansi.c:181-377 | a complete sequence whose command succeeds continues the run after its final byte |
| RunProperties.ColumnOnlyScan | noansi.c:190-221 | `d;H` reads as one parameter with one semicolon |
| RunProperties.ColumnOnly | noansi.c:263-282 | `ESC [ d ; H` moves to row 0 and column d |
| RunProperties.BareEscape | noansi.c:181-186 | at any position, ESC at the end of input aborts with "EOF reached after ESC", and ESC not followed by `[` aborts naming that byte |
| RunProperties.SequenceAborts | noansi.c:190-374 | a sequence refused while it is read, or whose command is refused, aborts the pass with that same error |
| RunProperties.ScanStopsAt | noansi.c:190-221 | an ESC inside a sequence is a final byte: reading stops there or earlier, unless the sequence is refused first |
| RunProperties.RestoreReached | noansi.c:291-299 | `ESC [ u` with the saved slot empty aborts with "CSI u before a CSI s" |
| RunProperties.SequenceBeforeRestore | noansi.c:181-374 | a sequence with no `s` before a later ESC aborts or hands the pass on, at that ESC or earlier, with the saved slot unchanged |
| RunProperties.RestoreBeforeAnySave | noansi.c:283-302 | `ESC [ u` after any bytes holding no `s` (and no 0x1A without -z), from a state with the slot empty, always aborts the pass |
| RunProperties.LongNumber | noansi.c:199-202 | five digits in a row abort with "number too large" |
| RunProperties.FiveDigits | noansi.c:199-202 | `ESC [ 12345 m` aborts with "number too large" |
| RunProperties.DigitsAccumulate | noansi.c:199-210 | once three parameters are stored, single digits separated by `;` pile up in nbuf until the fifth aborts |
| RunProperties.SlotsFill | noansi.c:199-221 | n pairs of digit and `;` fill n parameter slots |
| RunProperties.PileUpScan | noansi.c:199-210 | the sequence `1;2;3;4;5;6;7;8m` aborts with "number too large": the last five one-digit numbers pile up in nbuf |
| RunProperties.DigitsPileUp | noansi.c:199-210 | the whole run on `ESC [ 1;2;3;4;5;6;7;8m` aborts with "number too large" |
| RunProperties.CutShort | noansi.c:190-198 | for any input, a sequence cut off by end of input or by 0x1A (without -z) ends the run normally with the state before it |
| Renderer.SgrToMirc | noansi.c:48-51 | the colour table gives an mIRC colour below 16 |
| Renderer.TwoDigits | noansi.c:520-522 | `%02d` of a number below 100 gives two digits that read back as the number |
| Renderer.Escape | noansi.c:510-524 | empty exactly when the colours are unchanged; `^C fg,bg` exactly when the background changes; `^C fg` exactly when only the foreground changes |
| Renderer.Stop | noansi.c:492-498 | every cell from the stop index on is default_char, and the cell before it is not |
| Renderer.Highest | noansi.c:480-487 | the last row that is not all default_char, or -1 |
| Renderer.Window | noansi.c:488 | the window end lies within the screen |
| Renderer.OutputMirc | noansi.c:478-533 | the bytes printed are Render of the screen |
| Renderer.LastRow | noansi.c:479-488 | the first loop and the MIN give the window end |
| Renderer.PrintRow | noansi.c:490-531 | the bytes printed for a row are RowOut of that row |
| Renderer.StopIndex | noansi.c:492-498 | stopidx is one before the stop index |
| Renderer.CellEscape | noansi.c:500-524 | the escape printed before a cell is Escape from the current colours, which become the cell's |
| Renderer.FirstCellEscape | noansi.c:490-524 | the first cell of a printed row always carries a full `^C fg,bg` code, because curfg and curbg start at 65535 |
| Renderer.EscapePerChange | noansi.c:510-524 | a row prints one 0x03 per colour change |
| Renderer.EscapeBytes | noansi.c:518-524 | an escape holds one 0x03 if not empty, and no newline |
| Renderer.CellsNoNewline | noansi.c:499-528 | cells without a newline glyph print no newline |
| Renderer.RowsLines | noansi.c:489-532 | printing rows lo up to hi prints hi - lo newlines |
| Renderer.RenderLines | noansi.c:478-533 | the output has one newline per row in the window |
| Renderer.EscapeText | noansi.c:518-524 | an escape is made of 0x03, digits and commas |
| Renderer.CellsText | noansi.c:499-528 | printable glyphs print as printable text and escapes |
| Renderer.RowsText | noansi.c:489-532 | a printable screen prints only printable ASCII, 0x03 and newlines |
| Pipeline.NoAnsi | noansi.c:583-588 | the passes on one array give Convert of the input: the rendered screen, or the error of read_ansi |
| Pipeline.FinalPrintable | noansi.c:429-477 | after cp437_to_ascii and normalize every glyph is printable ASCII |
| Pipeline.OutputLines | noansi.c:583-588 | the output has one line per row from START up to the window end, which is at most END |
| Pipeline.OutputText | noansi.c:583-588 | the output holds only printable ASCII, 0x03 and newlines |
| Pipeline.FinalBlank | noansi.c:429-477 | the last two passes leave a cleared screen as it is |
| Pipeline.BlankWindow | noansi.c:480-488 | a cleared screen has its window end at MIN(END, 1) |
| Pipeline.BlankLine | noansi.c:490-531 | a cleared row prints as an empty line |
| Pipeline.EmptyInput | noansi.c:583-588 | an empty input prints one empty line, or nothing when END is 0 |
| Scenarios.FinalCells | noansi.c:429-477 | after the last two passes each cell is its translation normalised, and an unwritten cell stays default_char |
| Scenarios.FirstRowOnly | noansi.c:478-533 | a screen written only in its first row prints that row alone, or nothing when END is 0 |
| Scenarios.TwoCellRow | noansi.c:490-531 | a row with two written cells prints the full colour pair, the first glyph, the escape for the change and the second glyph |
| Scenarios.SolidBlock | noansi.c:433-474 | the full block in white on black becomes a space in bright black on white, mIRC 14 on 15 |
| Scenarios.BlockRun | noansi.c:170-178 | the input 0xDB writes it at the top left corner in the default rendition |
| Scenarios.BlockRender | noansi.c:478-533 | the screen holding only that block prints `^C14,15`, a space and a newline |
| Scenarios.BlockInput | noansi.c:583-588 | the input 0xDB prints `^C14,15`, a space and a newline |
| Scenarios.BoldRedScan | noansi.c:190-221 | `1;31m` is read as the parameters 1 and 31 |
| Scenarios.ResetScan | noansi.c:199-221 | `0m` is read as the parameter 0 |
| Scenarios.BoldRedRendition | noansi.c:89-137 | SGR 1 then 31 gives red with the bold flag |
| Scenarios.BoldRedRun | noansi.c:151-379 | `ESC [ 1 ; 31 m A ESC [ 0 m B` writes a bold red A and a plain B side by side on the first row |
| Scenarios.BoldRedCells | noansi.c:450-474 | the bold red A becomes bright red and the plain B keeps its colours |
| Scenarios.BoldRedRow | noansi.c:490-531 | the row holding the bright red A and then the B prints `^C13,01A^C15B` and a newline |
| Scenarios.BoldRedRender | noansi.c:478-533 | that screen prints `^C13,01A^C15B` and a newline: only the foreground code before B, because the background is the same |
| Scenarios.BoldRed | noansi.c:583-588 | the whole program prints that line for that input |

## Left out

- The command line (`getopt`, `sscanf` of `START-END`, `usage`) is not modelled. The switches and the window are parameters. Without an argument, `main` uses START 0 and END 80 (noansi.c:555), not the screen height.
- Reading from stdin (`fgetc`) is a byte sequence, and EOF is its end.
- Printing to stdout is a returned byte sequence. The message about a failed `fputc` is not modelled.
- `doerror` is an abort carrying an `Error` value. The messages it prints, the stream positions from `ftell` and the `errors` counter are not modelled. The counter is never incremented, so every call aborts.
- The warning that `handle_sgr` prints for an unknown code (noansi.c:133) is not modelled. The code's effect (nothing changes) is.
- After an abort, the model says nothing about the screen. Nothing is printed after an abort anyway.
- The test for 0x1A right after `ESC` (noansi.c:187) is not written. It sits behind `d != '['` and can never be true.
- A 0x1A without -z inside a sequence, and end of input inside a sequence, both end the run normally, as the code does.
- Numbers are limited to four digits because `nbuf` has five bytes: the fifth digit aborts.
- `Check` (noansi.c:534-543) is modelled although `main` never calls it.
- Interpreter.Put, Interpreter.Perform, Interpreter.Run: their own contracts only keep the cursor in range. What each byte and command does is stated by the lemmas in TermProperties (PutGlyph, PutControl, PutSub, Erase, WrapOn, SaveRestore, RestoreFirst, OnlySaveSaves, CursorPosition, MovesClamp, MoveDefault, PerformFails) and RunProperties (SubEnds, CutShort, SequenceStep, BareEscape, SequenceAborts, RestoreBeforeAnySave), and by the methods of Terminal.
- Interpreter.Flush, Interpreter.Scan: their own contracts only bound the locals. The effect of digits, `;`, `?`, 0x1A and final bytes is stated by the lemmas in RunProperties (DigitStep, SemicolonFlushes, SlotStep, KeepStep, OverflowStep, QuestionMark, SubInSequence, FinalStep, ScanBounded).
- SemicolonsTooLong: the 63 bytes are `;` or `?` before any parameter, the bytes that neither end the sequence nor store a number. Digits are covered by OverflowStep and LongNumber, which abort sooner. ScanBounded gives the length bound for every input.
- RestoreBeforeAnySave: the bytes before the `u` may hold no byte `s` at all, not merely no complete `CSI s`. A glyph `s` outside a sequence also leaves the slot empty, but the lemma does not cover such inputs. OnlySaveSaves gives the frame for any single step.
