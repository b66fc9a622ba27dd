/**
 Character-level rendering shared by both probes: hexadecimal digits of a
 32-bit address and single decimal digits, with the parsers that read them
 back.
 */
module Format {

  /** The C `unsigned int` of the target: a 32-bit address or value. */
  newtype u32 = x: int | 0 <= x < 0x1_0000_0000

  /** A C `unsigned char`: one byte of guest memory. */
  newtype byte = x: int | 0 <= x < 0x100

  /** `a >> n` on an unsigned value: n halvings, each dropping the low bit. */
  function Shr(a: nat, n: nat): nat
  {
    if n == 0 then a else Shr(a, n - 1) / 2
  }

  /** Shifting four bits further drops exactly one hexadecimal digit. */
  lemma ShrNibble(a: nat, n: nat)
    ensures Shr(a, n + 4) == Shr(a, n) / 16
  {
    calc {
      Shr(a, n + 4);
      Shr(a, n + 3) / 2;
      Shr(a, n + 2) / 2 / 2;
      Shr(a, n + 1) / 2 / 2 / 2;
      Shr(a, n) / 2 / 2 / 2 / 2;
      Shr(a, n) / 16;
    }
  }

  predicate IsHexChar(c: char)
  {
    '0' <= c <= '9' || 'A' <= c <= 'F'
  }

  /** `hex < 10 ? '0' + hex : 'A' + hex - 10`: an upper-case hex digit. */
  function HexChar(d: nat): (c: char)
    requires d < 16
    ensures IsHexChar(c)
    ensures d < 10 <==> '0' <= c <= '9'
  {
    if d < 10 then ('0' as int + d) as char else ('A' as int + d - 10) as char
  }

  /** The value of an upper-case hex digit. */
  function HexValue(c: char): (d: nat)
    requires IsHexChar(c)
    ensures d < 16
  {
    if c <= '9' then c as int - '0' as int else c as int - 'A' as int + 10
  }

  lemma HexCharRoundTrip(d: nat)
    requires d < 16
    ensures HexValue(HexChar(d)) == d
  {
  }

  /** The low `n` hexadecimal digits of `v`, most significant first. */
  function HexDigits(v: nat, n: nat): (r: seq<char>)
    ensures |r| == n
    ensures forall k :: 0 <= k < n ==> IsHexChar(r[k])
  {
    if n == 0 then [] else HexDigits(v / 16, n - 1) + [HexChar(v % 16)]
  }

  /** Reads hexadecimal digits most significant first. */
  function ParseHex(s: seq<char>): nat
    requires forall k :: 0 <= k < |s| ==> IsHexChar(s[k])
  {
    if s == [] then 0 else ParseHex(s[..|s| - 1]) * 16 + HexValue(s[|s| - 1])
  }

  function Pow16(n: nat): (r: nat)
    ensures r >= 1
  {
    if n == 0 then 1 else 16 * Pow16(n - 1)
  }

  /** Rendering in `n` digits loses nothing when `v` fits in `n` digits. */
  lemma {:induction false} ParseHexDigits(v: nat, n: nat)
    requires v < Pow16(n)
    ensures ParseHex(HexDigits(v, n)) == v
  {
    if n > 0 {
      var r := HexDigits(v, n);
      ParseHexDigits(v / 16, n - 1);
      assert r[..n - 1] == HexDigits(v / 16, n - 1);
      HexCharRoundTrip(v % 16);
    }
  }

  /** Eight hex digits are exactly enough for any 32-bit value. */
  lemma Hex32RoundTrip(a: u32)
    ensures |HexDigits(a as nat, 8)| == 8
    ensures ParseHex(HexDigits(a as nat, 8)) == a as nat
  {
    assert Pow16(8) == 0x1_0000_0000;
    ParseHexDigits(a as nat, 8);
  }

  /** An example address. */
  lemma HexDeadBeef()
    ensures HexDigits(0xDEADBEEF, 8) == "DEADBEEF"
  {
    assert HexDigits(0xD, 1) == "D";
    assert HexDigits(0xDE, 2) == "DE";
    assert HexDigits(0xDEA, 3) == "DEA";
    assert HexDigits(0xDEAD, 4) == "DEAD";
    assert HexDigits(0xDEADB, 5) == "DEADB";
    assert HexDigits(0xDEADBE, 6) == "DEADBE";
    assert HexDigits(0xDEADBEE, 7) == "DEADBEE";
  }

  /** `'0' + d` for a single decimal digit. */
  function DigitChar(d: nat): (c: char)
    requires d < 10
    ensures '0' <= c <= '9'
    ensures c as int - '0' as int == d
  {
    ('0' as int + d) as char
  }

  predicate AllDigits(s: seq<char>)
  {
    forall k :: 0 <= k < |s| ==> '0' <= s[k] <= '9'
  }

  /** Reads decimal digits most significant first. */
  function ParseDecimal(s: seq<char>): nat
    requires AllDigits(s)
  {
    if s == [] then 0 else ParseDecimal(s[..|s| - 1]) * 10 + (s[|s| - 1] as int - '0' as int)
  }

  /** Appending a digit multiplies the value read so far by ten. */
  lemma ParseDecimalPush(s: seq<char>, c: char)
    requires AllDigits(s) && '0' <= c <= '9'
    ensures AllDigits(s + [c])
    ensures ParseDecimal(s + [c]) == ParseDecimal(s) * 10 + (c as int - '0' as int)
  {
    assert (s + [c])[..|s|] == s;
  }

  lemma ConcatAssoc(a: string, b: string, c: string)
    ensures a + b + c == a + (b + c)
  {
  }
}
