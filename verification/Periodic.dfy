/**
 The observation loop both programs end with: each pass increments an
 iteration counter from 1, sends a prefix, one label character derived from
 the counter, ": " and a fixed body, then waits. The wait is not modelled;
 `k` passes of the otherwise endless loop are.
 */
module Periodic {

  /** What `k` passes of the loop send. */
  function IterationTrace(k: nat, prefix: string, labelOf: nat -> char, body: string): (r: string)
    ensures |r| == k * (|prefix| + 3 + |body|)
  {
    if k == 0 then []
    else IterationTrace(k - 1, prefix, labelOf, body) + prefix + [labelOf(k)] + ": " + body
  }

  /** Sending one more pass extends the trace by that pass. */
  lemma IterationTraceStep(start: string, k: nat, prefix: string, labelOf: nat -> char, body: string)
    requires k >= 1
    ensures start + IterationTrace(k - 1, prefix, labelOf, body) + prefix + [labelOf(k)] + ": " + body
         == start + IterationTrace(k, prefix, labelOf, body)
  {
  }

  /** One pass with the label character written as `?`. */
  function Template(prefix: string, body: string): string
  {
    prefix + "?: " + body
  }

  /** Every pass sends the same block except for its label, and the label at
      position j is that of pass j / width + 1. */
  lemma IterationTraceLayout(k: nat, prefix: string, labelOf: nat -> char, body: string)
    ensures var r, w := IterationTrace(k, prefix, labelOf, body), |prefix| + 3 + |body|;
      forall j :: 0 <= j < |r| ==>
        r[j] == if j % w == |prefix| then labelOf(j / w + 1) else Template(prefix, body)[j % w]
  {
    forall j | 0 <= j < |IterationTrace(k, prefix, labelOf, body)| {
      IterationTraceAt(k, prefix, labelOf, body, j);
    }
  }

  /** One position of the trace, by induction on the number of passes. */
  lemma {:induction false} IterationTraceAt(k: nat, prefix: string, labelOf: nat -> char, body: string, j: nat)
    requires j < |IterationTrace(k, prefix, labelOf, body)|
    ensures var r, w := IterationTrace(k, prefix, labelOf, body), |prefix| + 3 + |body|;
      r[j] == if j % w == |prefix| then labelOf(j / w + 1) else Template(prefix, body)[j % w]
  {
    var w := |prefix| + 3 + |body|;
    var r0 := IterationTrace(k - 1, prefix, labelOf, body);
    assert IterationTrace(k, prefix, labelOf, body) == r0 + prefix + [labelOf(k)] + ": " + body;
    if j < |r0| {
      IterationTraceAt(k - 1, prefix, labelOf, body, j);
    } else {
      var i := j - |r0|;
      DivModUnique(j, w, k - 1, i);
      LastPass(k, prefix, labelOf, body, i);
    }
  }

  /** Position i of the last of k passes: the label or the template. */
  lemma LastPass(k: nat, prefix: string, labelOf: nat -> char, body: string, i: nat)
    requires k >= 1 && i < |prefix| + 3 + |body|
    ensures var r, w := IterationTrace(k, prefix, labelOf, body), |prefix| + 3 + |body|;
      (k - 1) * w + i < |r| &&
      r[(k - 1) * w + i] == if i == |prefix| then labelOf(k) else Template(prefix, body)[i]
  {
    var w := |prefix| + 3 + |body|;
    var r0 := IterationTrace(k - 1, prefix, labelOf, body);
    var block := prefix + [labelOf(k)] + ": " + body;
    assert IterationTrace(k, prefix, labelOf, body) == r0 + block;
    assert |r0| == (k - 1) * w;
    if i != |prefix| {
      assert block[i] == Template(prefix, body)[i];
    }
  }

  /** The label of pass p (from 1) sits right after that pass's prefix. */
  lemma IterationTraceLabel(k: nat, prefix: string, labelOf: nat -> char, body: string, p: nat)
    requires 1 <= p <= k
    ensures var r, w := IterationTrace(k, prefix, labelOf, body), |prefix| + 3 + |body|;
      (p - 1) * w + |prefix| < |r| && r[(p - 1) * w + |prefix|] == labelOf(p)
  {
    var w := |prefix| + 3 + |body|;
    var j := (p - 1) * w + |prefix|;
    IterationTraceLayout(k, prefix, labelOf, body);
    MulMonotone(p, k, w);
    assert j < p * w;
    DivModUnique(j, w, p - 1, |prefix|);
  }

  lemma MulMonotone(a: nat, b: nat, w: nat)
    requires a <= b
    ensures a * w <= b * w
  {
  }

  /** Euclidean division is unique: a quotient and a remainder in range are
      the quotient and the remainder. */
  lemma DivModUnique(j: int, w: int, q: int, i: int)
    requires w > 0 && 0 <= i < w && j == q * w + i
    ensures j / w == q && j % w == i
  {
    var d, m := j / w, j % w;
    assert (q - d) * w == m - i;
    if q - d >= 1 {
      MulAtLeast(q - d, w);
      assert false;
    } else if d - q >= 1 {
      MulAtLeast(d - q, w);
      assert false;
    }
  }

  lemma MulAtLeast(x: int, w: int)
    requires x >= 1 && w > 0
    ensures x * w >= w
  {
  }
}
