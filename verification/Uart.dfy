/**
 The polled UART transmitter both probes share. Writing the data register
 sends one character; the model keeps everything sent so far in `out`.
 The settle delay after each write has no observable effect and is not
 modelled.
 */
module UartDriver {
  import opened CString
  import opened Format

  class Uart {
    /** Every character written to the data register, oldest first. */
    var out: seq<char>

    constructor ()
      ensures out == []
    {
      out := [];
    }

    /** uart_putc: one write of the data register. */
    method Putc(c: char)
      modifies this
      ensures out == old(out) + [c]
    {
      out := out + [c];
    }

    /** uart_puts_safe: sends every character before the first NUL, advancing
        the pointer one character at a time; `p` is the pointer's distance
        from where it started. The NUL itself is read but not sent. */
    method PutsSafe(s: seq<char>)
      requires '\0' in s
      modifies this
      ensures out == old(out) + CStr(s)
    {
      var p := 0;
      while s[p] != '\0'
        invariant 0 <= p <= StrLen(s)
        invariant out == old(out) + s[..p]
        decreases StrLen(s) - p
      {
        Putc(s[p]);
        p := p + 1;
      }
    }

    /** uart_puts_safe applied to a string literal, which the compiler
        terminates with a NUL. */
    method Puts(lit: string)
      requires NulFree(lit)
      modifies this
      ensures out == old(out) + lit
    {
      StrLenOfTerminated(lit, []);
      PutsSafe(lit + ['\0']);
    }

    /** The loop `for (i = 28; i >= 0; i -= 4)` that sends the nibble
        `(addr >> i) & 0xF` of a 32-bit address as a hex digit. */
    method PutHex32(addr: u32)
      modifies this
      ensures out == old(out) + HexDigits(addr as nat, 8)
    {
      var i: int := 28;
      while i >= 0
        invariant -4 <= i <= 28 && i % 4 == 0
        invariant out == old(out) + HexDigits(Shr(addr as nat, i + 4), (28 - i) / 4)
      {
        var hex := Shr(addr as nat, i) % 16;
        ShrNibble(addr as nat, i);
        Putc(HexChar(hex));
        i := i - 4;
      }
    }
  }
}
