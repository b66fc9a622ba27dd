/**
 The memory-access debug program: a string dump that prints the string's
 address in hex and at most 32 of its characters with a `|` after every
 fourth, the four access tests built on it, and the periodic loop that
 dumps a greeting on every pass. As in the boundary test, memory is a
 parameter (the characters the reads return) and a pointer cast to
 `unsigned int` is a separate address parameter.
 */
module DebugProbe {
  import opened CString
  import opened Format
  import opened UartDriver
  import Periodic
  import BoundaryProbe

  /* ---------------- uart_puts_debug ---------------- */

  /** The most characters a dump shows. */
  const DumpCap := 32

  /** The characters the dump loop accepts: it stops at the first NUL or
      after 32 characters, whichever comes first. */
  function DumpLen(s: seq<char>): (n: nat)
    requires CapReadable(s, DumpCap)
    ensures n <= DumpCap && n <= |s|
    ensures n == DumpCap || (n < |s| && s[n] == '\0')
    ensures forall k :: 0 <= k < n ==> s[k] != '\0'
  {
    ScanLen(s, DumpCap)
  }

  /** What the dump loop sends for the first `n` characters: each character,
      then a `|` whenever the count of characters sent is a multiple of 4. */
  function DumpBody(s: seq<char>, n: nat): string
    requires n <= |s|
  {
    if n == 0 then []
    else DumpBody(s, n - 1) + [s[n - 1]] + (if n % 4 == 0 then "|" else "")
  }

  /** The dump, exactly: character k of the string sits at position
      k + k/4, and the j-th `|` at 5j + 4; these positions fill the body,
      which so holds n characters and n/4 separators. */
  lemma {:induction false} DumpLayout(s: seq<char>, n: nat)
    requires n <= |s|
    ensures |DumpBody(s, n)| == n + n / 4
    ensures forall k :: 0 <= k < n ==> DumpBody(s, n)[k + k / 4] == s[k]
    ensures forall j :: 0 <= j < n / 4 ==> DumpBody(s, n)[5 * j + 4] == '|'
  {
    if n > 0 {
      DumpLayout(s, n - 1);
      var d := DumpBody(s, n - 1);
      var r := DumpBody(s, n);
      var sep := if n % 4 == 0 then "|" else "";
      assert r == d + [s[n - 1]] + sep;
      forall k | 0 <= k < n
        ensures r[k + k / 4] == s[k]
      {
        if k < n - 1 {
          assert r[k + k / 4] == d[k + k / 4];
        }
      }
      forall j | 0 <= j < n / 4
        ensures r[5 * j + 4] == '|'
      {
        if j < (n - 1) / 4 {
          assert r[5 * j + 4] == d[5 * j + 4];
        }
      }
    }
  }

  /** What follows the k-th character sent (counting from 1): a `|` when
      k is a multiple of 4, otherwise directly the next character. */
  lemma SeparatorAfter(s: seq<char>, n: nat, k: nat)
    requires n <= |s| && 1 <= k <= n
    ensures |DumpBody(s, n)| == n + n / 4
    ensures k % 4 == 0 ==> DumpBody(s, n)[k + (k - 1) / 4] == '|'
    ensures k % 4 != 0 && k < n ==> DumpBody(s, n)[k + (k - 1) / 4] == s[k]
  {
    DumpLayout(s, n);
    if k % 4 == 0 {
      assert k + (k - 1) / 4 == 5 * (k / 4 - 1) + 4;
    } else if k < n {
      assert k + (k - 1) / 4 == k + k / 4;
    }
  }

  /** The line uart_puts_debug sends for `s` at address `addr`. */
  function DebugLine(s: seq<char>, addr: u32): string
    requires CapReadable(s, DumpCap)
  {
    "DEBUG: String addr=0x" + HexDigits(addr as nat, 8) + " content=[" + DumpBody(s, DumpLen(s)) + "]\n"
  }

  /** The fields of a debug line read back: the fixed header, eight hex
      digits that parse to the address, the fixed opening, the dump of the
      string's first min(32, strlen) characters, and the closing. */
  lemma DebugLineFields(s: seq<char>, addr: u32)
    requires CapReadable(s, DumpCap)
    ensures var r, n := DebugLine(s, addr), DumpLen(s);
      && |r| == 41 + n + n / 4
      && r[..21] == "DEBUG: String addr=0x"
      && (forall k :: 21 <= k < 29 ==> IsHexChar(r[k]))
      && ParseHex(r[21..29]) == addr as nat
      && r[29..39] == " content=["
      && r[39..|r| - 2] == DumpBody(s, n)
      && r[|r| - 2..] == "]\n"
  {
    var h := HexDigits(addr as nat, 8);
    var b := DumpBody(s, DumpLen(s));
    var r := DebugLine(s, addr);
    Hex32RoundTrip(addr);
    DumpLayout(s, DumpLen(s));
    assert r == "DEBUG: String addr=0x" + h + " content=[" + b + "]\n";
    assert r[21..29] == h;
    assert r[39..|r| - 2] == b;
  }

  /** uart_puts_debug: header, address, the capped dump and the closing. */
  method PutsDebug(u: Uart, s: seq<char>, addr: u32)
    requires CapReadable(s, DumpCap)
    modifies u
    ensures u.out == old(u.out) + DebugLine(s, addr)
  {
    u.Puts("DEBUG: String addr=0x");
    u.PutHex32(addr);
    u.Puts(" content=[");
    ghost var start := u.out;
    var i := 0;
    while i < 32 && s[i] != '\0'
      invariant 0 <= i <= DumpLen(s)
      invariant u.out == start + DumpBody(s, i)
    {
      assert i < DumpLen(s);
      DumpOnce(u, s, i);
      DumpExtend(start, s, i + 1);
      i := i + 1;
    }
    u.Puts("]\n");
    DebugLineSent(old(u.out), s, addr, u.out);
  }

  /** One pass of the dump loop: the character, the dead NUL check, the
      count, and the separator. */
  method DumpOnce(u: Uart, s: seq<char>, i: nat)
    requires i < |s| && s[i] != '\0'
    modifies u
    ensures u.out == old(u.out) + [s[i]] + (if (i + 1) % 4 == 0 then "|" else "")
  {
    u.Putc(s[i]);
    if s[i] == '\0' {
      // The loop condition has already excluded a NUL here.
      assert false;
      return;
    }
    var next := i + 1;
    if next % 4 == 0 {
      u.Puts("|");
    }
  }

  lemma DumpExtend(start: string, s: seq<char>, n: nat)
    requires 1 <= n <= |s|
    ensures start + DumpBody(s, n - 1) + [s[n - 1]] + (if n % 4 == 0 then "|" else "")
         == start + DumpBody(s, n)
  {
    var sep := if n % 4 == 0 then "|" else "";
    ConcatAssoc(start + DumpBody(s, n - 1), [s[n - 1]], sep);
    ConcatAssoc(start, DumpBody(s, n - 1), [s[n - 1]] + sep);
    ConcatAssoc(DumpBody(s, n - 1), [s[n - 1]], sep);
  }

  lemma DebugLineSent(before: string, s: seq<char>, addr: u32, after: string)
    requires CapReadable(s, DumpCap)
    requires after == before + "DEBUG: String addr=0x" + HexDigits(addr as nat, 8) + " content=["
      + DumpBody(s, DumpLen(s)) + "]\n"
    ensures after == before + DebugLine(s, addr)
  {
    var h, b := HexDigits(addr as nat, 8), DumpBody(s, DumpLen(s));
    ConcatAssoc(before, "DEBUG: String addr=0x", h);
    ConcatAssoc(before, "DEBUG: String addr=0x" + h, " content=[");
    ConcatAssoc(before, "DEBUG: String addr=0x" + h + " content=[", b);
    ConcatAssoc(before, "DEBUG: String addr=0x" + h + " content=[" + b, "]\n");
  }

  /** The dump reads only the characters the loop tests: another region
      that agrees with `s` on them gets the same dump. In particular no
      character at index 32 or beyond is read. */
  lemma DumpReadsBounded(s: seq<char>, t: seq<char>)
    requires CapReadable(s, DumpCap)
    requires ScanReads(s, DumpCap) <= |t| && s[..ScanReads(s, DumpCap)] == t[..ScanReads(s, DumpCap)]
    ensures ScanReads(s, DumpCap) <= DumpCap && ScanReads(s, DumpCap) <= StrLen(s) + 1
    ensures CapReadable(t, DumpCap) && DumpLen(t) == DumpLen(s)
    ensures DumpBody(t, DumpLen(t)) == DumpBody(s, DumpLen(s))
  {
    ScanDependsOnReadPrefix(s, t, DumpCap);
    DumpBodyPrefix(s, t, DumpLen(s));
  }

  lemma {:induction false} DumpBodyPrefix(s: seq<char>, t: seq<char>, n: nat)
    requires n <= |s| && n <= |t| && s[..n] == t[..n]
    ensures DumpBody(s, n) == DumpBody(t, n)
  {
    if n > 0 {
      assert s[n - 1] == s[..n][n - 1] == t[..n][n - 1] == t[n - 1];
      assert s[..n - 1] == s[..n][..n - 1];
      assert t[..n - 1] == t[..n][..n - 1];
      DumpBodyPrefix(s, t, n - 1);
    }
  }

  /** A two-character string is dumped as is, with no separator. */
  lemma DumpHi()
    ensures DumpLen("Hi\0") == 2
    ensures DumpBody("Hi\0", DumpLen("Hi\0")) == "Hi"
  {
    assert StrLen("Hi\0") == 2 by {
      StrLenOfTerminated("Hi", []);
    }
  }

  /* ---------------- test_memory_access_patterns ---------------- */

  /** The four tests: a dump of the static string, the same string through
      uart_puts_safe, a dump of the stack string, and the first five
      characters of the static string one read at a time. */
  method TestMemoryAccessPatterns(u: Uart, testStr: seq<char>, testAddr: u32, stackStr: seq<char>, stackAddr: u32)
    requires '\0' in testStr && |testStr| >= 5
    requires CapReadable(stackStr, DumpCap)
    modifies u
    ensures u.out == old(u.out)
      + "=== Test 1: Static String ===\n" + DebugLine(testStr, testAddr)
      + "=== Test 2: Direct uart_puts ===\n" + "Before: " + CStr(testStr) + " :After\n"
      + "=== Test 3: Stack Array ===\n" + DebugLine(stackStr, stackAddr)
      + "=== Test 4: Individual Access ===\n" + testStr[..5] + " <- Individual chars\n"
  {
    assert NulFree("=== Test 1: Static String ===\n") && NulFree("=== Test 2: Direct uart_puts ===\n");
    assert NulFree("Before: ") && NulFree(" :After\n") && NulFree("=== Test 3: Stack Array ===\n");
    assert NulFree("=== Test 4: Individual Access ===\n") && NulFree(" <- Individual chars\n");
    u.Puts("=== Test 1: Static String ===\n");
    PutsDebug(u, testStr, testAddr);
    u.Puts("=== Test 2: Direct uart_puts ===\n");
    u.Puts("Before: ");
    u.PutsSafe(testStr);
    u.Puts(" :After\n");
    u.Puts("=== Test 3: Stack Array ===\n");
    PutsDebug(u, stackStr, stackAddr);
    u.Puts("=== Test 4: Individual Access ===\n");
    IndividualAccess(u, testStr);
    u.Puts(" <- Individual chars\n");
  }

  /** Test 4: five single-character reads, indices 0 to 4. */
  method IndividualAccess(u: Uart, s: seq<char>)
    requires |s| >= 5
    modifies u
    ensures u.out == old(u.out) + s[..5]
  {
    u.Putc(s[0]);
    u.Putc(s[1]);
    u.Putc(s[2]);
    u.Putc(s[3]);
    u.Putc(s[4]);
    assert [s[0]] + [s[1]] + [s[2]] + [s[3]] + [s[4]] == s[..5];
  }

  /** Test 4 on the static string of test_memory_access_patterns sends
      "Hello". */
  method IndividualAccessHello(u: Uart)
    modifies u
    ensures u.out == old(u.out) + "Hello"
  {
    IndividualAccess(u, "Hello World Debug Test!\0");
    assert "Hello World Debug Test!\0"[..5] == "Hello";
  }

  /* ---------------- main: the periodic tests ---------------- */

  /** `iteration < 10 ? '0' + iteration : 'X'`: the counter's digit up to 9,
      and `X` from 10 on. */
  function DebugIterationLabel(n: nat): (c: char)
    ensures n < 10 ==> '0' <= c <= '9' && c as int - '0' as int == n
    ensures n >= 10 <==> c == 'X'
  {
    if n < 10 then DigitChar(n) else 'X'
  }

  /** The two programs label the same passes alike exactly up to pass 9:
      from pass 10 on one shows the last digit and the other `X`. */
  lemma IterationLabelsAgree(n: nat)
    ensures DebugIterationLabel(n) == BoundaryProbe.IterationLabel(n) <==> n < 10
  {
    if n >= 10 {
      assert BoundaryProbe.IterationLabel(n) != 'X';
    }
  }

  /** What the first `k` passes of the periodic loop send, the greeting
      `hello` being at address `helloAddr`. */
  function PeriodicTrace(k: nat, hello: seq<char>, helloAddr: u32): string
    requires CapReadable(hello, DumpCap)
  {
    Periodic.IterationTrace(k, "Iteration ", DebugIterationLabel, DebugLine(hello, helloAddr))
  }

  /** `k` passes of the endless loop at the end of main (the delay between
      passes is not modelled). */
  method PeriodicTests(u: Uart, hello: seq<char>, helloAddr: u32, rounds: nat)
    requires CapReadable(hello, DumpCap)
    modifies u
    ensures u.out == old(u.out) + PeriodicTrace(rounds, hello, helloAddr)
  {
    var iteration := 0;
    while iteration < rounds
      invariant iteration <= rounds
      invariant u.out == old(u.out) + PeriodicTrace(iteration, hello, helloAddr)
    {
      iteration := iteration + 1;
      u.Puts("Iteration ");
      if iteration < 10 {
        u.Putc(DigitChar(iteration));
      } else {
        u.Putc('X');
      }
      u.Puts(": ");
      PutsDebug(u, hello, helloAddr);
      Periodic.IterationTraceStep(old(u.out), iteration, "Iteration ", DebugIterationLabel, DebugLine(hello, helloAddr));
    }
  }

  /** Pass p (from 1) is labelled with its digit up to pass 9 and with
      `X` from pass 10 on; the label sits after the 10 characters of
      "Iteration " in a pass of fixed width. */
  lemma PeriodicLabel(k: nat, hello: seq<char>, helloAddr: u32, p: nat)
    requires CapReadable(hello, DumpCap) && 1 <= p <= k
    ensures var r, w := PeriodicTrace(k, hello, helloAddr), 13 + |DebugLine(hello, helloAddr)|;
      && |r| == k * w
      && (p - 1) * w + 10 < |r|
      && r[(p - 1) * w + 10] == DebugIterationLabel(p)
      && (r[(p - 1) * w + 10] == 'X' <==> p >= 10)
  {
    Periodic.IterationTraceLabel(k, "Iteration ", DebugIterationLabel, DebugLine(hello, helloAddr), p);
  }
}
