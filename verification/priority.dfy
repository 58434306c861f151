/** Logical and hardware priorities: more urgent is higher in logical numbers, lower in hardware ones. */
module Priority {
  import opened Ticks

  function Pow2(n: nat): (p: nat)
    ensures p > 0
  {
    if n == 0 then 1 else 2 * Pow2(n - 1)
  }

  /**
  `cortex_logical2hw` on `u8`; the shift drops bits beyond the eighth.  It is only meant for
  1 to 7 priority bits and logical priorities up to `Pow2(bits)`.
  */
  function Encode(logical: nat, bits: nat): nat {
    if bits <= 8 && logical <= Pow2(bits) then ((Pow2(bits) - logical) * Pow2(8 - bits)) % 256 else 0
  }

  lemma {:induction false} PowersMultiply(a: nat, b: nat)
    ensures Pow2(a) * Pow2(b) == Pow2(a + b)
  {
    if a == 0 {
    } else {
      PowersMultiply(a - 1, b);
      assert Pow2(a) * Pow2(b) == 2 * (Pow2(a - 1) * Pow2(b));
    }
  }

  /** Priority 0, which no handler has, encodes to 0; the others are not truncated. */
  lemma EncodeValue(logical: nat, bits: nat)
    requires 1 <= bits <= 7 && logical <= Pow2(bits)
    ensures logical == 0 ==> Encode(logical, bits) == 0
    ensures logical > 0 ==> Encode(logical, bits) == (Pow2(bits) - logical) * Pow2(8 - bits) < 256
    ensures 0 < logical < Pow2(bits) ==> Encode(logical, bits) > 0
    ensures logical == Pow2(bits) ==> Encode(logical, bits) == 0
  {
    var k := Pow2(8 - bits);
    PowersMultiply(bits, 8 - bits);
    assert Pow2(8) == 256;
    var x := (Pow2(bits) - logical) * k;
    if logical > 0 {
      MulOrder(Pow2(bits) - logical, Pow2(bits), k);
      if logical < Pow2(bits) { MulOrder(0, Pow2(bits) - logical, k); }
    }
  }

  lemma MulOrder(a: int, b: int, k: nat)
    requires k > 0 && a < b
    ensures a * k < b * k
  {
  }

  /** The encoding reverses the order. */
  lemma EncodeReverses(p: nat, q: nat, bits: nat)
    requires 1 <= bits <= 7 && 0 < p <= Pow2(bits) && 0 < q <= Pow2(bits)
    ensures p < q <==> Encode(p, bits) > Encode(q, bits)
    ensures p == q <==> Encode(p, bits) == Encode(q, bits)
  {
    EncodeValue(p, bits);
    EncodeValue(q, bits);
    OrderOfProducts(Pow2(bits) - p, Pow2(bits) - q, Pow2(8 - bits));
  }

  lemma OrderOfProducts(a: int, b: int, k: nat)
    requires k > 0
    ensures a < b <==> a * k < b * k
    ensures a == b <==> a * k == b * k
  {
    if a < b { MulOrder(a, b, k); }
    if b < a { MulOrder(b, a, k); }
  }

  /** A core with so many bits implements the upper ones only: the encoding uses no other, and can be undone. */
  lemma EncodeUsesTheUpperBits(p: nat, bits: nat)
    requires 1 <= bits <= 7 && 0 < p <= Pow2(bits)
    ensures Encode(p, bits) < 256 && Encode(p, bits) % Pow2(8 - bits) == 0
    ensures Pow2(bits) - Encode(p, bits) / Pow2(8 - bits) == p
  {
    EncodeValue(p, bits);
    DivideBack(Pow2(8 - bits), Encode(p, bits), Pow2(bits) - p, 0);
  }

  /**
  What the locks rely on: a table of hardware priorities, one per logical priority, that is zero
  for priority 0 and the highest one, positive in between, and strictly decreasing from 1 on.
  */
  ghost predicate OrderReversing(hw: seq<nat>, levels: nat) {
    && |hw| == levels + 1 && levels > 0
    && hw[0] == 0 && hw[levels] == 0
    && (forall p :: 0 < p < levels ==> hw[p] > 0)
    && (forall p, q :: 0 < p < q <= levels ==> hw[p] > hw[q])
  }

  function HwTable(bits: nat): seq<nat> {
    seq(Pow2(bits) + 1, (p: nat) => Encode(p, bits))
  }

  /** The encoding of every core with 1 to 7 priority bits is such a table. */
  lemma EncodingIsOrderReversing(bits: nat)
    requires 1 <= bits <= 7
    ensures OrderReversing(HwTable(bits), Pow2(bits))
  {
    var levels := Pow2(bits);
    forall p | 0 <= p <= levels ensures HwTable(bits)[p] == Encode(p, bits) { }
    EncodeValue(0, bits);
    EncodeValue(levels, bits);
    forall p | 0 < p < levels ensures Encode(p, bits) > 0 { EncodeValue(p, bits); }
    forall p, q | 0 < p < q <= levels ensures Encode(p, bits) > Encode(q, bits) { EncodeReverses(p, q, bits); }
  }
}
