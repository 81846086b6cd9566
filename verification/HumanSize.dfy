/** Rendering a byte count with a binary unit. */
module HumanSize {

  /** Plain bytes, a count divided by div with a suffix, or the index panic behind the last suffix. */
  datatype Size = Bytes(n: int) | Scaled(count: int, div: int, suffix: char) | IndexPanic

  /** The most that a probe of a rule-set file reads: 32 << 20 bytes. */
  const PROBE_LIMIT := 32 * 1024 * 1024

  function Pow1024(e: nat): (p: int)
    ensures p >= 1
  {
    if e == 0 then 1 else 1024 * Pow1024(e - 1)
  }

  lemma {:induction false} PowGrows(a: nat, b: nat)
    requires a <= b
    ensures Pow1024(a) <= Pow1024(b)
  {
    if a == b {
    } else {
      PowGrows(a, b - 1);
    }
  }

  lemma {:induction false} MulMonotone(a: int, x: int, y: int)
    requires a >= 0 && x <= y
    ensures a * x <= a * y
  {
  }

  /** One round of the loop: the next quotient bounds the count by the next power. */
  lemma {:induction false} NextQuotient(b: int, div: int, n: int)
    requires div >= 1 && n >= 0 && div * n <= b < div * (n + 1)
    ensures (1024 * div) * (n / 1024) <= b < (1024 * div) * (n / 1024 + 1)
  {
    var m := n / 1024;
    MulMonotone(div, 1024 * m, n);
    MulMonotone(div, n + 1, 1024 * (m + 1));
    Regroup(div, m);
    Regroup(div, m + 1);
  }

  lemma {:induction false} Regroup(div: int, m: int)
    ensures (1024 * div) * m == div * (1024 * m)
  {
  }

  /** The bounds when the loop ends, as facts about the count alone. */
  lemma {:induction false} LoopEnds(b: int, div: int, n: int, exp: nat)
    requires 1 <= n < 1024 && div == Pow1024(exp + 1) && div * n <= b < div * (n + 1)
    ensures div <= b < 1024 * div
    ensures exp < 4 <==> b < 0x4_0000_0000_0000
    ensures b <= PROBE_LIMIT ==> exp < 2
  {
    MulMonotone(div, 1, n);
    MulMonotone(div, n + 1, 1024);
    assert Pow1024(2) == 1024 * 1024 && Pow1024(4) == 1024 * 1024 * Pow1024(2) && Pow1024(5) == 1024 * Pow1024(4);
    if exp < 2 {
      PowGrows(exp + 1, 2);
    } else if exp < 4 {
      PowGrows(exp + 1, 4);
      PowGrows(3, exp + 1);
      assert Pow1024(3) == 1024 * Pow1024(2);
    } else {
      PowGrows(5, exp + 1);
      PowGrows(3, 5);
    }
  }

  /**
   From 1024 on the divisor is the power of 1024 that leaves a mantissa of at least one and below
   1024, so it never exceeds the count; the suffix exists exactly below 1024 to the fifth, which the
   size of a probed file never reaches.
   */
  method HumanSize(b: int) returns (r: Size)
    ensures b < 1024 ==> r == Bytes(b)
    ensures b <= PROBE_LIMIT ==> r.Bytes? || (r.Scaled? && (r.suffix == 'K' || r.suffix == 'M'))
    ensures r.IndexPanic? <==> b >= 0x4_0000_0000_0000
    ensures r.Scaled? ==> r.count == b && r.div <= b < 1024 * r.div
    ensures r.Scaled? ==> exists e :: 0 <= e < 4 && r.div == Pow1024(e + 1) && r.suffix == "KMGT"[e]
  {
    if b < 1024 {
      return Bytes(b);
    }
    var div, exp := 1024, 0;
    var n := b / 1024;
    while n >= 1024
      invariant exp >= 0 && n >= 1 && div == Pow1024(exp + 1)
      invariant div * n <= b < div * (n + 1)
      decreases n
    {
      NextQuotient(b, div, n);
      div := div * 1024;
      exp := exp + 1;
      n := n / 1024;
    }
    LoopEnds(b, div, n, exp);
    r := if exp < 4 then Scaled(b, div, "KMGT"[exp]) else IndexPanic;
  }
}
