/**
 Null-terminated character strings as the probes see them: a region of
 memory, given as the sequence of characters a read at each offset returns.
 The region may run on past the terminator; nothing says how far.
 */
module CString {

  /** The number of characters before the first NUL of `s` (all of `s` when
      it holds none). On a terminated string this is `strlen`. */
  function StrLen(s: seq<char>): (n: nat)
    ensures n <= |s|
    ensures forall k :: 0 <= k < n ==> s[k] != '\0'
    ensures n < |s| ==> s[n] == '\0'
    ensures n < |s| <==> '\0' in s
  {
    if s == [] || s[0] == '\0' then 0 else 1 + StrLen(s[1..])
  }

  /** The characters of `s` before its first NUL: what a C string denotes. */
  function CStr(s: seq<char>): (r: seq<char>)
    ensures '\0' !in r
    ensures r <= s
    ensures '\0' in s ==> r + ['\0'] <= s
  {
    s[..StrLen(s)]
  }

  /** A scan capped at `cap` characters can run without leaving `s`: either
      `s` holds at least `cap` characters or a NUL stops the scan first. */
  predicate CapReadable(s: seq<char>, cap: nat)
  {
    cap <= |s| || '\0' in s
  }

  /** How many characters a scan `i < cap && s[i] != '\0'` accepts. */
  function ScanLen(s: seq<char>, cap: nat): (n: nat)
    ensures n <= cap && n <= StrLen(s)
    ensures n == cap || n == StrLen(s)
    ensures CapReadable(s, cap) ==> n < cap ==> n < |s| && s[n] == '\0'
  {
    if StrLen(s) < cap then StrLen(s) else cap
  }

  /** The number of characters the capped scan reads: the accepted ones plus
      the NUL that stops it, when it is a NUL and not the cap that stops it.
      The cap is tested first, so index `cap` itself is never read. */
  function ScanReads(s: seq<char>, cap: nat): (n: nat)
    requires CapReadable(s, cap)
    ensures n <= |s| && n <= cap
    ensures ScanLen(s, cap) <= n <= ScanLen(s, cap) + 1 && n <= StrLen(s) + 1
  {
    if ScanLen(s, cap) < cap then ScanLen(s, cap) + 1 else cap
  }

  /** No character of `s` is a NUL: a C string literal's characters. */
  predicate NulFree(s: seq<char>)
  {
    forall k :: 0 <= k < |s| ==> s[k] != '\0'
  }

  /** Two NUL-free pieces make a NUL-free literal. */
  lemma NulFreeConcat(a: seq<char>, b: seq<char>)
    requires NulFree(a) && NulFree(b)
    ensures NulFree(a + b)
  {
    forall k | 0 <= k < |a + b|
      ensures (a + b)[k] != '\0'
    {
      if k < |a| {
        assert (a + b)[k] == a[k];
      } else {
        assert (a + b)[k] == b[k - |a|];
      }
    }
  }

  /** A terminated string: its characters followed by the terminator. */
  lemma {:induction false} StrLenOfTerminated(lit: seq<char>, rest: seq<char>)
    requires NulFree(lit)
    ensures StrLen(lit + ['\0'] + rest) == |lit|
    ensures CStr(lit + ['\0'] + rest) == lit
  {
    var s := lit + ['\0'] + rest;
    assert s[|lit|] == '\0';
  }

  /** Only the characters up to and including the first NUL decide the
      string: two regions that agree there denote the same string. */
  lemma StrLenDependsOnTerminatedPrefix(s: seq<char>, t: seq<char>)
    requires '\0' in s
    requires StrLen(s) < |t| && s[..StrLen(s) + 1] == t[..StrLen(s) + 1]
    ensures '\0' in t && StrLen(t) == StrLen(s) && CStr(t) == CStr(s)
  {
    var n := StrLen(s);
    forall k | 0 <= k <= n ensures t[k] == s[k] {
      assert t[..n + 1][k] == s[..n + 1][k];
    }
    assert CStr(t) == t[..n] == t[..n + 1][..n];
  }

  /** The capped scan reads only its first ScanReads(s, cap) characters:
      another region that agrees with `s` on them is scanned identically. */
  lemma ScanDependsOnReadPrefix(s: seq<char>, t: seq<char>, cap: nat)
    requires CapReadable(s, cap)
    requires ScanReads(s, cap) <= |t| && s[..ScanReads(s, cap)] == t[..ScanReads(s, cap)]
    ensures CapReadable(t, cap)
    ensures ScanLen(t, cap) == ScanLen(s, cap)
    ensures ScanReads(t, cap) == ScanReads(s, cap)
    ensures t[..ScanLen(t, cap)] == s[..ScanLen(s, cap)]
  {
    var r := ScanReads(s, cap);
    var n := ScanLen(s, cap);
    forall k | 0 <= k < r ensures t[k] == s[k] {
      assert t[..r][k] == s[..r][k];
    }
    if n < cap {
      assert t[n] == '\0';
    }
    assert t[..n] == t[..r][..n];
  }
}
