/**
 The capability-boundary test program: the hex address printer, the
 byte-by-byte walk over a long string with offset labels and a 4 KB
 marker, the probe of the first bytes of guest RAM, and the observation
 loop. Memory that the program reads is a parameter: a string region as
 the characters its reads return, guest RAM as the bytes its reads return;
 where the program casts a pointer to `unsigned int` the address is a
 separate parameter.
 */
module BoundaryProbe {
  import opened CString
  import opened Format
  import opened UartDriver
  import Periodic

  /* ---------------- print_hex_addr ---------------- */

  /** What print_hex_addr sends: "0x" and the eight hex digits of `addr`. */
  function HexAddrText(addr: u32): (r: string)
    ensures |r| == 10 && r[..2] == "0x"
    ensures forall k :: 2 <= k < 10 ==> IsHexChar(r[k])
    ensures ParseHex(r[2..]) == addr as nat
  {
    Hex32RoundTrip(addr);
    assert ("0x" + HexDigits(addr as nat, 8))[2..] == HexDigits(addr as nat, 8);
    "0x" + HexDigits(addr as nat, 8)
  }

  method PrintHexAddr(u: Uart, addr: u32)
    modifies u
    ensures u.out == old(u.out) + HexAddrText(addr)
  {
    u.Puts("0x");
    u.PutHex32(addr);
  }

  lemma HexAddrDeadBeef()
    ensures HexAddrText(0xDEADBEEF) == "0xDEADBEEF"
  {
    HexDeadBeef();
  }

  /* ---------------- test_4kb_boundary_crossing ---------------- */

  /** The most characters the walk sends. */
  const WalkCap := 100

  /** The digits of an offset label in the walk: a '0' below 10, the tens
      digit below 100, then the units digit. */
  function WalkOffsetDigits(i: nat): (r: string)
    ensures AllDigits(r)
    ensures |r| == if i < 10 then 3 else if i < 100 then 2 else 1
  {
    (if i < 10 then "0" else "") + (if i < 100 then [DigitChar(i / 10)] else []) + [DigitChar(i % 10)]
  }

  /** Read back, a walk label gives its offset (below 100, where the walk
      stays; from 100 on only the units digit would be left). */
  lemma WalkOffsetValue(i: nat)
    ensures ParseDecimal(WalkOffsetDigits(i)) == if i < 100 then i else i % 10
  {
    var high := (if i < 10 then "0" else "") + (if i < 100 then [DigitChar(i / 10)] else []);
    assert WalkOffsetDigits(i) == high + [DigitChar(i % 10)];
    ParseDecimalPush(high, DigitChar(i % 10));
    if i < 10 {
      ParseDecimalPush("0", DigitChar(i / 10));
      ParseDecimalPush([], '0');
    } else if i < 100 {
      ParseDecimalPush([], DigitChar(i / 10));
    }
  }

  /** What the walk produces, one item per action of its loop body. */
  datatype WalkItem =
    | Label(offset: nat)    // "\nOffset NN: " before every 16th character
    | Byte(c: char)         // one character of the string
    | Marker                // "|4KB|" after a character whose successor is 4096-aligned

  function WalkItemText(it: WalkItem): string
  {
    match it
    case Label(i) => "\nOffset " + WalkOffsetDigits(i) + ": "
    case Byte(c) => [c]
    case Marker => "|4KB|"
  }

  function WalkText(items: seq<WalkItem>): string
  {
    if items == [] then [] else WalkText(items[..|items| - 1]) + WalkItemText(items[|items| - 1])
  }

  lemma {:induction false} WalkTextAppend(a: seq<WalkItem>, b: seq<WalkItem>)
    ensures WalkText(a + b) == WalkText(a) + WalkText(b)
  {
    if b != [] {
      var b' := b[..|b| - 1];
      WalkTextAppend(a, b');
      assert (a + b)[..|a + b| - 1] == a + b';
    } else {
      assert a + b == a;
    }
  }

  /** What one pass of the loop body produces for character `i`. */
  function WalkStep(s: seq<char>, i: nat): seq<WalkItem>
    requires i < |s|
  {
    (if i % 16 == 0 then [Label(i)] else []) + [Byte(s[i])] + (if (i + 1) % 4096 == 0 then [Marker] else [])
  }

  /** What the first `n` passes of the loop produce. */
  function WalkItems(s: seq<char>, n: nat): seq<WalkItem>
    requires n <= |s|
  {
    if n == 0 then [] else WalkItems(s, n - 1) + WalkStep(s, n - 1)
  }

  /** The number of passes: the loop stops at the first NUL or at the cap. */
  function WalkLen(s: seq<char>): (n: nat)
    requires CapReadable(s, WalkCap)
    ensures n <= WalkCap && n <= |s|
    ensures n == WalkCap || (n < |s| && s[n] == '\0')
    ensures forall k :: 0 <= k < n ==> s[k] != '\0'
  {
    ScanLen(s, WalkCap)
  }

  /** Within 4095 characters the walk is labels and characters only: the
      label for offset 16g sits at position 17g and character k right after
      its group's label, at position k + k/16 + 1. */
  lemma {:induction false} WalkLayout(s: seq<char>, n: nat)
    requires n <= |s| && n < 4096
    ensures |WalkItems(s, n)| == n + (n + 15) / 16
    ensures forall j :: 0 <= j < |WalkItems(s, n)| ==>
      WalkItems(s, n)[j] == if j % 17 == 0 then Label(16 * (j / 17)) else Byte(s[j - j / 17 - 1])
  {
    if n > 0 {
      var m := n - 1;
      WalkLayout(s, m);
      var w0, w := WalkItems(s, m), WalkItems(s, n);
      assert (m + 1) % 4096 != 0;
      if m % 16 == 0 {
        assert w == w0 + [Label(m), Byte(s[m])];
        assert |w0| == 17 * (m / 16);
      } else {
        assert w == w0 + [Byte(s[m])];
        assert |w0| == m + m / 16 + 1;
        Periodic.DivModUnique(|w0|, 17, m / 16, m % 16 + 1);
      }
    }
  }

  /** Hence no "|4KB|" marker is ever sent by the walk. */
  lemma WalkNeverMarks(s: seq<char>, n: nat)
    requires n <= |s| && n <= WalkCap
    ensures Marker !in WalkItems(s, n)
  {
    WalkLayout(s, n);
  }

  function LabelCount(items: seq<WalkItem>): nat
  {
    if items == [] then 0
    else LabelCount(items[..|items| - 1]) + if items[|items| - 1].Label? then 1 else 0
  }

  /** The walk sends ceil(n / 16) labels. */
  lemma {:induction false} WalkLabelCount(s: seq<char>, n: nat)
    requires n <= |s| && n <= WalkCap
    ensures LabelCount(WalkItems(s, n)) == (n + 15) / 16
  {
    if n > 0 {
      var m := n - 1;
      WalkLabelCount(s, m);
      var w0 := WalkItems(s, m);
      if m % 16 == 0 {
        assert WalkItems(s, n) == w0 + [Label(m)] + [Byte(s[m])];
        assert (w0 + [Label(m)])[..|w0|] == w0;
      } else {
        assert WalkItems(s, n) == w0 + [Byte(s[m])];
      }
    }
  }

  /** The characters the walk sends are those of the string, in order:
      character k right after its group's label. */
  lemma WalkCharacters(s: seq<char>, n: nat)
    requires n <= |s| && n <= WalkCap
    ensures |WalkItems(s, n)| == n + (n + 15) / 16
    ensures forall k :: 0 <= k < n ==> WalkItems(s, n)[k + k / 16 + 1] == Byte(s[k])
  {
    WalkLayout(s, n);
    var w := WalkItems(s, n);
    forall k | 0 <= k < n ensures w[k + k / 16 + 1] == Byte(s[k]) {
      Periodic.DivModUnique(k + k / 16 + 1, 17, k / 16, k % 16 + 1);
    }
  }

  /** The walk reads only offsets below ScanReads(s, WalkCap), never index
      100 or beyond: a region that agrees with `s` there is walked
      identically. */
  lemma WalkReadsBounded(s: seq<char>, t: seq<char>)
    requires CapReadable(s, WalkCap)
    requires ScanReads(s, WalkCap) <= |t| && s[..ScanReads(s, WalkCap)] == t[..ScanReads(s, WalkCap)]
    ensures ScanReads(s, WalkCap) <= WalkCap && ScanReads(s, WalkCap) <= StrLen(s) + 1
    ensures CapReadable(t, WalkCap) && WalkLen(t) == WalkLen(s)
    ensures WalkItems(t, WalkLen(t)) == WalkItems(s, WalkLen(s))
  {
    ScanDependsOnReadPrefix(s, t, WalkCap);
    WalkItemsPrefix(s, t, WalkLen(s));
  }

  lemma {:induction false} WalkItemsPrefix(s: seq<char>, t: seq<char>, n: nat)
    requires n <= |s| && n <= |t| && s[..n] == t[..n]
    ensures WalkItems(s, n) == WalkItems(t, n)
  {
    if n > 0 {
      assert s[..n - 1] == s[..n][..n - 1];
      assert t[..n - 1] == t[..n][..n - 1];
      assert s[n - 1] == s[..n][n - 1];
      WalkItemsPrefix(s, t, n - 1);
    }
  }

  /** What one string report of test_4kb_boundary_crossing sends. */
  function StringReport(name: string, s: seq<char>, addr: u32): string
    requires '\0' in s
  {
    name + " string addr: " + HexAddrText(addr) + " = \"" + CStr(s) + "\"\n"
  }

  /** What the byte-by-byte part of test_4kb_boundary_crossing sends. */
  function WalkReport(s: seq<char>): string
    requires CapReadable(s, WalkCap)
  {
    "Long string bytes: [" + WalkText(WalkItems(s, WalkLen(s))) + "]\n"
  }

  /** test_4kb_boundary_crossing: prints the address and contents of three
      strings, then walks the long one byte by byte. */
  method TestBoundaryCrossing(u: Uart, shortStr: seq<char>, shortAddr: u32,
                              mediumStr: seq<char>, mediumAddr: u32,
                              longStr: seq<char>, longAddr: u32)
    requires '\0' in shortStr && '\0' in mediumStr && '\0' in longStr
    modifies u
    ensures u.out == old(u.out) + "=== Testing 4KB Boundary Crossing ===\n"
      + StringReport("Short", shortStr, shortAddr)
      + StringReport("Medium", mediumStr, mediumAddr)
      + StringReport("Long", longStr, longAddr)
      + "\n=== Byte-by-byte Analysis ===\n" + WalkReport(longStr)
  {
    u.Puts("=== Testing 4KB Boundary Crossing ===\n");
    ReportString(u, "Short", shortStr, shortAddr);
    ReportString(u, "Medium", mediumStr, mediumAddr);
    ReportString(u, "Long", longStr, longAddr);
    u.Puts("\n=== Byte-by-byte Analysis ===\n");
    ByteWalk(u, longStr);
  }

  /** The address line of one string. */
  method ReportString(u: Uart, name: string, s: seq<char>, addr: u32)
    requires NulFree(name) && '\0' in s
    modifies u
    ensures u.out == old(u.out) + StringReport(name, s, addr)
  {
    u.Puts(name + " string addr: ");
    PrintHexAddr(u, addr);
    u.Puts(" = \"");
    u.PutsSafe(s);
    u.Puts("\"\n");
  }

  /** The byte-by-byte loop over the long string. */
  method ByteWalk(u: Uart, s: seq<char>)
    requires CapReadable(s, WalkCap)
    modifies u
    ensures u.out == old(u.out) + WalkReport(s)
  {
    u.Puts("Long string bytes: [");
    ghost var start := u.out;
    var i := 0;
    while i < 100 && s[i] != '\0'
      invariant 0 <= i <= WalkLen(s)
      invariant u.out == start + WalkText(WalkItems(s, i))
    {
      assert i < WalkLen(s);
      WalkOnce(u, s, i);
      WalkExtend(s, i, start);
      i := i + 1;
    }
    assert i == WalkLen(s);
    u.Puts("]\n");
    ConcatAssoc(old(u.out), "Long string bytes: [" + WalkText(WalkItems(s, i)), "]\n");
    ConcatAssoc(old(u.out), "Long string bytes: [", WalkText(WalkItems(s, i)));
  }

  /** One pass of the walk's loop body: the label when `i` starts a group of
      16, the character itself, and the marker when `i + 1` is 4096-aligned. */
  method WalkOnce(u: Uart, s: seq<char>, i: nat)
    requires i < |s|
    modifies u
    ensures u.out == old(u.out) + WalkText(WalkStep(s, i))
  {
    ghost var labelText: string := [];
    if i % 16 == 0 {
      PutWalkLabel(u, i);
      labelText := WalkItemText(Label(i));
    }
    assert u.out == old(u.out) + labelText;
    u.Putc(s[i]);
    ghost var sent := u.out;
    ghost var mark: string := [];
    if (i + 1) % 4096 == 0 {
      u.Puts("|4KB|");
      mark := "|4KB|";
    }
    assert u.out == sent + mark;
    WalkStepText(s, i);
    ConcatAssoc(old(u.out) + labelText, [s[i]], mark);
    ConcatAssoc(old(u.out), labelText, [s[i]] + mark);
    ConcatAssoc(labelText, [s[i]], mark);
  }

  /** The offset label the walk sends before every 16th character. */
  method PutWalkLabel(u: Uart, i: nat)
    modifies u
    ensures u.out == old(u.out) + WalkItemText(Label(i))
  {
    u.Puts("\nOffset ");
    ghost var digitsFrom := u.out;
    if i < 10 { u.Putc('0'); }
    if i < 100 { u.Putc(DigitChar(i / 10)); }
    u.Putc(DigitChar(i % 10));
    assert u.out == digitsFrom + WalkOffsetDigits(i);
    u.Puts(": ");
    ConcatAssoc(old(u.out), "\nOffset ", WalkOffsetDigits(i));
    ConcatAssoc(old(u.out), "\nOffset " + WalkOffsetDigits(i), ": ");
  }

  /** One pass of the loop body extends the walk's output by one step. */
  lemma WalkExtend(s: seq<char>, i: nat, start: string)
    requires i < |s|
    ensures start + WalkText(WalkItems(s, i)) + WalkText(WalkStep(s, i)) == start + WalkText(WalkItems(s, i + 1))
  {
    var done, step := WalkItems(s, i), WalkStep(s, i);
    assert WalkItems(s, i + 1) == done + step;
    WalkTextAppend(done, step);
    ConcatAssoc(start, WalkText(done), WalkText(step));
  }

  lemma WalkStepText(s: seq<char>, i: nat)
    requires i < |s|
    ensures WalkText(WalkStep(s, i)) ==
      (if i % 16 == 0 then WalkItemText(Label(i)) else [])
      + [s[i]] + (if (i + 1) % 4096 == 0 then "|4KB|" else [])
  {
    var l := if i % 16 == 0 then [Label(i)] else [];
    var m := if (i + 1) % 4096 == 0 then [Marker] else [];
    assert WalkStep(s, i) == l + [Byte(s[i])] + m;
    WalkTextAppend(l + [Byte(s[i])], m);
    WalkTextAppend(l, [Byte(s[i])]);
    WalkTextSingle(Byte(s[i]));
    if l != [] {
      WalkTextSingle(Label(i));
    }
    if m != [] {
      WalkTextSingle(Marker);
    }
  }

  lemma WalkTextSingle(it: WalkItem)
    ensures WalkText([it]) == WalkItemText(it)
  {
    assert [it][..0] == [];
  }

  /* ---------------- test_capdl_frame_pattern ---------------- */

  /** The offsets the probe loop visits lie below 32. */
  type ProbeOffset = off: nat | off < 32

  /** The digits of a probe's offset label: a '0' below 10, then the tens
      and the units digit. */
  function FrameOffsetDigits(off: ProbeOffset): (r: string)
    ensures AllDigits(r)
    ensures |r| == if off < 10 then 3 else 2
  {
    (if off < 10 then "0" else "") + [DigitChar(off / 10), DigitChar(off % 10)]
  }

  /** Read back, a probe label gives its offset. */
  lemma FrameOffsetValue(off: ProbeOffset)
    ensures ParseDecimal(FrameOffsetDigits(off)) == off
  {
    var high := (if off < 10 then "0" else "") + [DigitChar(off / 10)];
    assert FrameOffsetDigits(off) == high + [DigitChar(off % 10)];
    ParseDecimalPush(high, DigitChar(off % 10));
    if off < 10 {
      ParseDecimalPush("0", DigitChar(off / 10));
      ParseDecimalPush([], '0');
    } else {
      ParseDecimalPush([], DigitChar(off / 10));
    }
  }

  /** Both label printers agree wherever both are used. */
  lemma OffsetLabelsAgree(off: ProbeOffset)
    ensures FrameOffsetDigits(off) == WalkOffsetDigits(off)
  {
  }

  /** `'0' + (test_byte & 0xF)`: one of the 16 characters '0' .. '?'. */
  function ValueChar(b: byte): (c: char)
    ensures '0' <= c <= '?'
    ensures c as int - '0' as int == b as int % 16
  {
    ('0' as int + b as int % 16) as char
  }

  /** The number of probes: offsets 0, 4, ..., 28. */
  const ProbeCount := 8

  /** The guest RAM the probe reads reaches at least its last offset. */
  predicate ProbeReadable(ram: seq<byte>)
  {
    |ram| > 4 * (ProbeCount - 1)
  }

  /** test_capdl_frame_pattern: a fixed preamble, then one line per probed
      offset of guest RAM. */
  method TestCapdlFramePattern(u: Uart, ram: seq<byte>)
    requires ProbeReadable(ram)
    modifies u
    ensures u.out == old(u.out)
      + "\n=== Testing CapDL Frame Pattern ===\n"
      + "Based on vm_minimal.cdl analysis:\n"
      + "- First 8 frames: 4KB each (32768->40960 offset)\n"
      + "- Later frames: 64KB each\n"
      + "- String likely in early 4KB frames\n\n"
      + "Memory probe test:\n"
      + ProbeOutput(ram, ProbeCount)
  {
    FrameBannerNulFree();
    u.Puts("\n=== Testing CapDL Frame Pattern ===\n");
    u.Puts("Based on vm_minimal.cdl analysis:\n");
    u.Puts("- First 8 frames: 4KB each (32768->40960 offset)\n");
    u.Puts("- Later frames: 64KB each\n");
    u.Puts("- String likely in early 4KB frames\n\n");
    u.Puts("Memory probe test:\n");
    ProbeLoop(u, ram);
  }

  /** The longest banner line is a literal without NUL. */
  lemma FrameBannerNulFree()
    ensures NulFree("- First 8 frames: 4KB each (32768->40960 offset)\n")
  {
    NulFreeConcat("- First 8 frames: 4KB each", " (32768->40960 offset)\n");
    assert "- First 8 frames: 4KB each" + " (32768->40960 offset)\n"
        == "- First 8 frames: 4KB each (32768->40960 offset)\n";
  }

  /** The text of the line for offset `off`, as the loop body sends it. */
  function ProbeLine(ram: seq<byte>, off: ProbeOffset): string
    requires off < |ram|
  {
    "Offset " + FrameOffsetDigits(off) + ": " + [ValueChar(ram[off])] + " "
      + (if (off + 4) % 4096 == 0 then "| 4KB boundary |" else "") + "\n"
  }

  /** The text of the first `k` lines. */
  function ProbeOutput(ram: seq<byte>, k: nat): string
    requires k <= ProbeCount && ProbeReadable(ram)
  {
    if k == 0 then [] else ProbeOutput(ram, k - 1) + ProbeLine(ram, 4 * (k - 1))
  }

  /** The loop of test_capdl_frame_pattern over offsets 0, 4, ..., 28. */
  method ProbeLoop(u: Uart, ram: seq<byte>)
    requires ProbeReadable(ram)
    modifies u
    ensures u.out == old(u.out) + ProbeOutput(ram, ProbeCount)
  {
    ghost var start := u.out;
    var offset := 0;
    ghost var k := 0;
    while offset < 32
      invariant 0 <= k <= ProbeCount && offset == 4 * k
      invariant u.out == start + ProbeOutput(ram, k)
    {
      ProbeOnce(u, ram, offset);
      ConcatAssoc(start, ProbeOutput(ram, k), ProbeLine(ram, offset));
      offset, k := offset + 4, k + 1;
    }
    assert k == ProbeCount;
  }

  /** One pass of the probe loop body: read the byte at `offset` and report it. */
  method ProbeOnce(u: Uart, ram: seq<byte>, offset: ProbeOffset)
    requires offset < |ram|
    modifies u
    ensures u.out == old(u.out) + ProbeLine(ram, offset)
  {
    PutProbeLabel(u, offset);
    var testByte := ram[offset];
    u.Putc(ValueChar(testByte));
    u.Puts(" ");
    ghost var mark: string := [];
    if (offset + 4) % 4096 == 0 {
      u.Puts("| 4KB boundary |");
      mark := "| 4KB boundary |";
    }
    u.Puts("\n");
    ProbeLineSent(ram, offset, old(u.out), mark, u.out);
  }

  /** The characters one pass of the loop body sends form its line. */
  lemma ProbeLineSent(ram: seq<byte>, off: ProbeOffset, before: string, mark: string, after: string)
    requires off < |ram|
    requires mark == if (off + 4) % 4096 == 0 then "| 4KB boundary |" else ""
    requires after == before + "Offset " + FrameOffsetDigits(off) + ": " + [ValueChar(ram[off])] + " " + mark + "\n"
    ensures after == before + ProbeLine(ram, off)
  {
  }

  /** No probe line carries the boundary marker: `offset + 4` is never a
      multiple of 4096 below 32, so each line is the label, the value
      character, a space and the line end, 15 characters for the three
      3-digit labels and 14 for the others. */
  lemma ProbeLineShape(ram: seq<byte>, off: ProbeOffset)
    requires off < |ram|
    ensures ProbeLine(ram, off) == "Offset " + FrameOffsetDigits(off) + ": " + [ValueChar(ram[off])] + " \n"
    ensures |ProbeLine(ram, off)| == if off < 10 then 15 else 14
    ensures '|' !in ProbeLine(ram, off)
  {
    assert (off + 4) % 4096 != 0;
    var d := FrameOffsetDigits(off);
    assert ProbeLine(ram, off) == "Offset " + d + ": " + [ValueChar(ram[off])] + " " + "" + "\n";
  }

  /** The whole probe output: no boundary marker anywhere, and 14 characters
      per line plus one for each of the labels 000, 004 and 008. */
  lemma {:induction false} ProbeOutputShape(ram: seq<byte>, k: nat)
    requires k <= ProbeCount && ProbeReadable(ram)
    ensures |ProbeOutput(ram, k)| == 14 * k + (if k < 3 then k else 3)
    ensures '|' !in ProbeOutput(ram, k)
  {
    if k > 0 {
      ProbeOutputShape(ram, k - 1);
      ProbeLineShape(ram, 4 * (k - 1));
    }
  }

  /** The probe reads guest RAM only at offsets 0, 4, ..., 28: two regions
      that agree there are reported identically. */
  lemma {:induction false} ProbeReadsProbedOffsets(ram: seq<byte>, other: seq<byte>, k: nat)
    requires k <= ProbeCount && ProbeReadable(ram) && ProbeReadable(other)
    requires forall off :: 0 <= off < 4 * k && off % 4 == 0 ==> ram[off] == other[off]
    ensures ProbeOutput(ram, k) == ProbeOutput(other, k)
  {
    if k > 0 {
      ProbeReadsProbedOffsets(ram, other, k - 1);
      assert ram[4 * (k - 1)] == other[4 * (k - 1)];
    }
  }

  /** The "Offset NN: " part of a probe line. */
  method PutProbeLabel(u: Uart, off: ProbeOffset)
    modifies u
    ensures u.out == old(u.out) + "Offset " + FrameOffsetDigits(off) + ": "
  {
    u.Puts("Offset ");
    ghost var digitsFrom := u.out;
    if off < 10 { u.Putc('0'); }
    u.Putc(DigitChar(off / 10));
    u.Putc(DigitChar(off % 10));
    assert u.out == digitsFrom + FrameOffsetDigits(off);
    u.Puts(": ");
  }


  /* ---------------- main: the observation loop ---------------- */

  /** `'0' + (iteration % 10)`: the last decimal digit of the counter, so
      always a digit, repeating with period 10. */
  function IterationLabel(n: nat): (c: char)
    ensures '0' <= c <= '9'
    ensures c as int - '0' as int == n % 10
  {
    DigitChar(n % 10)
  }

  /** What the first `k` passes of the observation loop send. */
  function ObservationTrace(k: nat): string
  {
    Periodic.IterationTrace(k, "\nIteration ", IterationLabel, "OK")
  }

  /** `k` passes of the endless loop at the end of main (the delay between
      passes is not modelled). */
  method ObservationLoop(u: Uart, rounds: nat)
    modifies u
    ensures u.out == old(u.out) + ObservationTrace(rounds)
  {
    var iteration := 0;
    while iteration < rounds
      invariant iteration <= rounds
      invariant u.out == old(u.out) + ObservationTrace(iteration)
    {
      iteration := iteration + 1;
      u.Puts("\nIteration ");
      u.Putc(IterationLabel(iteration));
      u.Puts(": ");
      u.Puts("OK");
      Periodic.IterationTraceStep(old(u.out), iteration, "\nIteration ", IterationLabel, "OK");
    }
  }

  /** Every pass is the 16 characters "\nIteration d: OK", where d, at
      position 11 of pass number p (from 1), is the digit of p % 10. */
  lemma ObservationLayout(k: nat)
    ensures |ObservationTrace(k)| == 16 * k
    ensures forall j :: 0 <= j < 16 * k ==>
      ObservationTrace(k)[j] == if j % 16 == 11 then IterationLabel(j / 16 + 1) else "\nIteration ?: OK"[j % 16]
  {
    Periodic.IterationTraceLayout(k, "\nIteration ", IterationLabel, "OK");
    assert |"\nIteration "| + 3 + |"OK"| == 16;
    assert Periodic.Template("\nIteration ", "OK") == "\nIteration ?: OK";
  }
}
