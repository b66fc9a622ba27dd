# Capability-boundary probes: a verified model of their output

Two bare-metal programs for an ARM guest under seL4 write diagnostics to a
polled UART. The diagnostics show where string reads start to fail across
capability (frame) boundaries.

- `minimal_main_test_boundaries.c` prints the addresses and contents of
  three strings. It then walks the long string byte by byte, with offset
  labels and a 4 KB marker, and probes the first 32 bytes of guest RAM at a
  stride of 4. It ends in an endless loop that prints numbered passes.
- `minimal_main_debug.c` dumps strings with `uart_puts_debug`. A dump shows
  the hex address and at most 32 characters, with a `|` after every fourth.
  The file runs four access tests and then an endless loop that dumps a
  greeting on every pass.

The model keeps everything written to the UART data register in one
sequence, `Uart.out`. Each C function becomes a method on that state, and
its contract says exactly which text it appends. Specification functions
describe that text. Lemmas about them state the promised properties:

- which characters appear, and at which positions;
- how many labels and separators there are;
- that some markers never appear;
- that labels and hex digits read back to the offset or address;
- that the loops read no memory beyond their bounds.

Memory the programs read is a parameter: a string region is the characters
its reads return, and guest RAM is the bytes its reads return. An address
obtained by casting a pointer to `unsigned int` is a separate `u32`
parameter.

Modules:

- `CString`: what a `while (*s)` scan and a capped scan see.
- `Format`: hex and decimal digit rendering and parsing.
- `UartDriver`: the `Uart` class.
- `Periodic`: the numbered-pass loop both programs end with.
- `BoundaryProbe`: `minimal_main_test_boundaries.c`.
- `DebugProbe`: `minimal_main_debug.c`.

Offset labels are not of fixed width. Both printers add a leading `0`
only below 10, and each loop prints its own labels:

- The byte walk labels every sixteenth offset: `000`, then `16`, `32`, …
  `96`. Its printer writes the tens digit only below 100, so from 100 on it
  would write the units digit alone. The walk stops before 100, though.
- The memory probe labels offsets `000`, `004`, `008`, then `12`, `16`, …
  `28`. Its printer writes `'0' + offset / 10` with no guard, so from 100 on
  that character would not be a digit (`:` at 100). The probe stops at 28,
  though.

`WalkOffsetDigits`, `FrameOffsetDigits` and their lemmas state these widths.

In the boundary test, `print_hex_addr` prepends `0x` itself (`HexAddrText`).
The bare eight-digit loop is `Uart.PutHex32`.

## Model

| member | source | states |
|---|---|---|
| CString.StrLen | qemu-arm-virt/freertos_build/minimal_main_test_boundaries.c:9 | the number of characters `while (*s)` accepts: all of them non-NUL, and the scan stops on a NUL inside `s` exactly when `s` holds one |
| CString.CStr | qemu-arm-virt/freertos_build/minimal_main_test_boundaries.c:8-13 | the characters a C string denotes: a NUL-free prefix of `s`, followed in `s` by the NUL when there is one |
| CString.ScanLen | qemu-arm-virt/freertos_build/minimal_main_debug.c:31 | what `i < cap && s[i] != '\0'` accepts: at most `cap` and at most strlen, equal to one of them (their minimum), and when below `cap` it stops on a NUL inside `s` |
| CString.ScanReads | qemu-arm-virt/freertos_build/minimal_main_debug.c:31 | how many characters the capped scan reads: the accepted ones, plus at most the one that stops the scan, so never past the NUL (at most strlen + 1), never past the region and never more than `cap`, because `i < cap` is tested before `s[i]` is read |
| CString.StrLenDependsOnTerminatedPrefix | qemu-arm-virt/freertos_build/minimal_main_test_boundaries.c:8-13 | uart_puts_safe reads nothing past the first NUL: a region that agrees with `s` up to and including it denotes the same string |
| CString.ScanDependsOnReadPrefix | qemu-arm-virt/freertos_build/minimal_main_debug.c:31 | the capped scan depends only on the characters it reads: a region agreeing on them is accepted identically |
| Format.ShrNibble | qemu-arm-virt/freertos_build/minimal_main_test_boundaries.c:18 | shifting right by four more bits drops exactly one hex digit |
| Format.HexChar | qemu-arm-virt/freertos_build/minimal_main_test_boundaries.c:19 | `hex < 10 ? '0' + hex : 'A' + hex - 10` is an upper-case hex digit, and a decimal digit exactly when `hex < 10` |
| Format.HexDigits | qemu-arm-virt/freertos_build/minimal_main_test_boundaries.c:17-20 | the low `n` nibbles of a value, as exactly `n` characters from 0-9A-F |
| Format.ParseHexDigits | qemu-arm-virt/freertos_build/minimal_main_test_boundaries.c:17-20 | reading the digits back, most significant first, gives the value whenever it fits in `n` digits |
| Format.Hex32RoundTrip | qemu-arm-virt/freertos_build/minimal_main_test_boundaries.c:17-20 | eight digits give back every 32-bit address |
| Format.HexDeadBeef | qemu-arm-virt/freertos_build/minimal_main_test_boundaries.c:15-21 | 0xDEADBEEF renders as `DEADBEEF` |
| Format.DigitChar | qemu-arm-virt/freertos_build/minimal_main_test_boundaries.c:58 | `'0' + d` is a decimal digit whose value is `d` |
| UartDriver.Uart.constructor | qemu-arm-virt/freertos_build/minimal_main_test_boundaries.c:1 | nothing has been sent yet |
| UartDriver.Uart.Putc | qemu-arm-virt/freertos_build/minimal_main_test_boundaries.c:3-6 | uart_putc appends exactly its character (minimal_main_debug.c:5-8 is the same function) |
| UartDriver.Uart.PutsSafe | qemu-arm-virt/freertos_build/minimal_main_test_boundaries.c:8-13 | uart_puts_safe appends exactly the characters before the first NUL, in order, and nothing else (minimal_main_debug.c:10-16 is the same function) |
| UartDriver.Uart.Puts | qemu-arm-virt/freertos_build/minimal_main_test_boundaries.c:16 | uart_puts_safe of a NUL-terminated literal appends the literal |
| UartDriver.Uart.PutHex32 | qemu-arm-virt/freertos_build/minimal_main_test_boundaries.c:17-20 | the loop from bit 28 down to 0 appends the eight hex digits of the address, most significant first (the same loop as minimal_main_debug.c:23-26) |
| Periodic.IterationTrace | qemu-arm-virt/freertos_build/minimal_main_test_boundaries.c:115-127 | `k` passes of a numbered loop send `k` blocks of equal width |
| Periodic.IterationTraceLayout | qemu-arm-virt/freertos_build/minimal_main_test_boundaries.c:116-123 | every pass sends the same block except its label, and the label at position `j` belongs to pass `j / width + 1` |
| Periodic.IterationTraceLabel | qemu-arm-virt/freertos_build/minimal_main_debug.c:87-93 | pass `p` sends its label right after its prefix |
| BoundaryProbe.HexAddrText | qemu-arm-virt/freertos_build/minimal_main_test_boundaries.c:15-21 | print_hex_addr's text: 10 characters, `0x` followed by 8 characters from 0-9A-F that parse back to the address |
| BoundaryProbe.PrintHexAddr | qemu-arm-virt/freertos_build/minimal_main_test_boundaries.c:15-21 | print_hex_addr appends that text |
| BoundaryProbe.HexAddrDeadBeef | qemu-arm-virt/freertos_build/minimal_main_test_boundaries.c:15-21 | 0xDEADBEEF is printed as `0xDEADBEEF` |
| BoundaryProbe.WalkOffsetDigits | qemu-arm-virt/freertos_build/minimal_main_test_boundaries.c:56-58 | the walk's offset label is all digits: 3 of them below 10, 2 below 100, 1 from 100 on |
| BoundaryProbe.WalkOffsetValue | qemu-arm-virt/freertos_build/minimal_main_test_boundaries.c:56-58 | a walk label reads back as its offset below 100, and as the units digit from 100 on |
| BoundaryProbe.WalkLen | qemu-arm-virt/freertos_build/minimal_main_test_boundaries.c:53 | the walk makes min(100, strlen) passes: every character it passes is non-NUL, and it stops at the cap or on the NUL |
| BoundaryProbe.WalkLayout | qemu-arm-virt/freertos_build/minimal_main_test_boundaries.c:53-67 | below 4096 characters the walk is exactly: n + ceil(n/16) items, the label for offset 16g at item 17g, and at every other item j the character j - j/17 - 1 |
| BoundaryProbe.WalkNeverMarks | qemu-arm-virt/freertos_build/minimal_main_test_boundaries.c:64-66 | the 4 KB marker is never sent, because `(i + 1) % 4096 == 0` cannot hold below 100 |
| BoundaryProbe.WalkLabelCount | qemu-arm-virt/freertos_build/minimal_main_test_boundaries.c:54-60 | a walk over n characters sends ceil(n/16) labels |
| BoundaryProbe.WalkCharacters | qemu-arm-virt/freertos_build/minimal_main_test_boundaries.c:61 | the walk sends character k of the string as item k + k/16 + 1, so in index order with one label before each group of 16 |
| BoundaryProbe.WalkReadsBounded | qemu-arm-virt/freertos_build/minimal_main_test_boundaries.c:53 | the walk reads at most 100 characters and at most strlen + 1, so none past the NUL, and a region agreeing on the characters read is walked identically |
| BoundaryProbe.TestBoundaryCrossing | qemu-arm-virt/freertos_build/minimal_main_test_boundaries.c:24-69 | test_4kb_boundary_crossing sends its heading, three string reports, the walk heading and the walk report, in that order |
| BoundaryProbe.ReportString | qemu-arm-virt/freertos_build/minimal_main_test_boundaries.c:32-36 | one report: name, ` string addr: `, the `0x` address, ` = "`, the C string and `"` with a newline |
| BoundaryProbe.ByteWalk | qemu-arm-virt/freertos_build/minimal_main_test_boundaries.c:52-68 | the walk sends `Long string bytes: [`, the rendering of its min(100, strlen) passes and `]` with a newline |
| BoundaryProbe.WalkOnce | qemu-arm-virt/freertos_build/minimal_main_test_boundaries.c:54-66 | one pass sends the label when `i % 16 == 0`, then the character, then the marker when `(i + 1) % 4096 == 0` |
| BoundaryProbe.PutWalkLabel | qemu-arm-virt/freertos_build/minimal_main_test_boundaries.c:55-59 | the label is a newline, `Offset `, the offset's digits and `: ` |
| BoundaryProbe.FrameOffsetDigits | qemu-arm-virt/freertos_build/minimal_main_test_boundaries.c:85-87 | the probe label is all digits: 3 of them for offsets below 10 (`000`, `004`, `008`), 2 otherwise (`12` … `28`) |
| BoundaryProbe.FrameOffsetValue | qemu-arm-virt/freertos_build/minimal_main_test_boundaries.c:85-87 | a probe label reads back as its offset |
| BoundaryProbe.OffsetLabelsAgree | qemu-arm-virt/freertos_build/minimal_main_test_boundaries.c:85-87 | for offsets below 32, the probe's label printer and the walk's label printer print the same digits |
| BoundaryProbe.ValueChar | qemu-arm-virt/freertos_build/minimal_main_test_boundaries.c:92 | `'0' + (b & 0xF)` lies in `'0'`..`'?'` (ASCII 48..63), and its distance from `'0'` is the byte's low nibble |
| BoundaryProbe.TestCapdlFramePattern | qemu-arm-virt/freertos_build/minimal_main_test_boundaries.c:72-100 | test_capdl_frame_pattern sends its five banner lines, `Memory probe test:` and then the eight probe lines |
| BoundaryProbe.ProbeLoop | qemu-arm-virt/freertos_build/minimal_main_test_boundaries.c:83-99 | the loop over offsets 0, 4, …, 28 sends exactly one line per offset, in order |
| BoundaryProbe.ProbeOnce | qemu-arm-virt/freertos_build/minimal_main_test_boundaries.c:84-98 | one pass reads the byte at the offset and sends its line |
| BoundaryProbe.PutProbeLabel | qemu-arm-virt/freertos_build/minimal_main_test_boundaries.c:84-88 | the label is `Offset `, the offset's digits and `: ` |
| BoundaryProbe.ProbeLineShape | qemu-arm-virt/freertos_build/minimal_main_test_boundaries.c:95-97 | no probe line carries the 4 KB boundary banner: each is the label, the value character, a space and a newline, 15 characters for the 3-digit labels and 14 for the others |
| BoundaryProbe.ProbeOutputShape | qemu-arm-virt/freertos_build/minimal_main_test_boundaries.c:83-99 | the first `k` lines contain no bar character at all and hold 14k + min(k, 3) characters |
| BoundaryProbe.ProbeReadsProbedOffsets | qemu-arm-virt/freertos_build/minimal_main_test_boundaries.c:91 | the probe reads guest RAM only at offsets 0, 4, …, 28: two regions that agree there give the same lines |
| BoundaryProbe.IterationLabel | qemu-arm-virt/freertos_build/minimal_main_test_boundaries.c:119 | the pass label `'0' + (iteration % 10)` is always a decimal digit, whose value is the counter modulo 10 |
| BoundaryProbe.ObservationLoop | qemu-arm-virt/freertos_build/minimal_main_test_boundaries.c:115-127 | `k` passes of main's final loop send `k` blocks, `\nIteration `, the label, `: ` and `OK` |
| BoundaryProbe.ObservationLayout | qemu-arm-virt/freertos_build/minimal_main_test_boundaries.c:117-123 | each pass is the 16 characters `\nIteration d: OK`, where d, at position 11 of pass p, is the digit of p % 10 |
| DebugProbe.DumpLen | qemu-arm-virt/freertos_build/minimal_main_debug.c:31 | the dump shows min(32, strlen) characters: all of them non-NUL, and it stops at 32 or on the NUL |
| DebugProbe.DumpLayout | qemu-arm-virt/freertos_build/minimal_main_debug.c:30-40 | the dump body is exact: character k at position k + k/4, the j-th bar separator at 5j + 4, n + n/4 characters in all, so n/4 separators |
| DebugProbe.SeparatorAfter | qemu-arm-virt/freertos_build/minimal_main_debug.c:34-39 | after the k-th character sent comes the bar separator when `k % 4 == 0`, and otherwise directly the next character |
| DebugProbe.DebugLineFields | qemu-arm-virt/freertos_build/minimal_main_debug.c:18-42 | uart_puts_debug's line is `DEBUG: String addr=0x`, eight hex digits that parse to the address, ` content=[`, the dump body and `]` with a newline |
| DebugProbe.PutsDebug | qemu-arm-virt/freertos_build/minimal_main_debug.c:18-42 | uart_puts_debug appends exactly that line |
| DebugProbe.DumpOnce | qemu-arm-virt/freertos_build/minimal_main_debug.c:32-39 | one pass sends the character, then the bar separator when the new count is a multiple of 4; the `break` on NUL cannot be reached because the loop condition excludes a NUL |
| DebugProbe.DumpReadsBounded | qemu-arm-virt/freertos_build/minimal_main_debug.c:31 | the dump reads at most 32 characters, so nothing at index 32 or beyond, and at most strlen + 1, so none past the NUL; a region agreeing on the characters read is dumped identically |
| DebugProbe.DumpHi | qemu-arm-virt/freertos_build/minimal_main_debug.c:30-40 | `Hi` is dumped as `Hi`, without a separator |
| DebugProbe.TestMemoryAccessPatterns | qemu-arm-virt/freertos_build/minimal_main_debug.c:44-69 | the four tests send, in order: a dump of the static string, the same string between `Before: ` and ` :After`, a dump of the stack string, and its first five characters followed by ` <- Individual chars` |
| DebugProbe.IndividualAccess | qemu-arm-virt/freertos_build/minimal_main_debug.c:63-67 | Test 4 sends characters 0 to 4 of the string, in order |
| DebugProbe.IndividualAccessHello | qemu-arm-virt/freertos_build/minimal_main_debug.c:46-67 | Test 4 on the program's static string sends `Hello` |
| DebugProbe.DebugIterationLabel | qemu-arm-virt/freertos_build/minimal_main_debug.c:91-92 | the pass label is the counter's digit below 10, and is `X` exactly from 10 on |
| DebugProbe.IterationLabelsAgree | qemu-arm-virt/freertos_build/minimal_main_debug.c:91-92 | the two programs give a pass the same label exactly below 10 (modulo 10 against `X`) |
| DebugProbe.PeriodicTests | qemu-arm-virt/freertos_build/minimal_main_debug.c:86-100 | `k` passes of main's final loop send `k` blocks, `Iteration `, the label, `: ` and the greeting's debug line |
| DebugProbe.PeriodicLabel | qemu-arm-virt/freertos_build/minimal_main_debug.c:88-93 | every pass has the same width, and pass p is labelled, after `Iteration `, with its digit up to pass 9 and with `X` exactly from pass 10 on |

## Left out

- The UART is write-only here. The fixed data-register address is not modelled, and the flag register `UART0_FR` is never used.
- The busy-wait delays have no observable effect. This covers the settle loop in `uart_putc`, the delay in each pass, and `delay()` in the debug program.
- The endless `while (1)` loops at the end of both `main` functions are modelled as `rounds` passes.
- The banner lines that both `main` functions print around the tests are fixed strings with nothing to verify. The order in which `main` calls the tests is not modelled.
- `minimal_main_virt.c` is not part of this model.
- Real pointers are not modelled: the fixed guest-RAM base `0x40000000`, the link-time placement of the test strings, and the addresses a cast yields. Guest RAM is the sequence of bytes read from that base, and addresses are parameters.
- A read that faults or traps at a capability boundary is not modelled. Every read returns a value.
- C `char` is modelled as a Dafny `char`. Only the low nibble of a probed byte is printed, so its signedness does not matter.
- Each test takes its strings as parameters and not as the programs' fixed literals. It needs only what its loops read: a NUL for uart_puts_safe, a NUL or 32 characters for the dump, and five characters for Test 4. `ReportString` takes the name printed before ` string addr: ` as a parameter.
- BoundaryProbe.ObservationLoop: the pass counter is unbounded. The C `int` would overflow after 2^31 - 1 passes.
- DebugProbe.PeriodicTests: the pass counter is unbounded. The C `int` would overflow after 2^31 - 1 passes.
