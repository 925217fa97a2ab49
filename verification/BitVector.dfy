/** The bit-vector macros of elfcopy/symbols.c over a byte array. */
module BitVector {

  function Mask(k: nat): bv8
    requires k < 8
  {
    if k == 0 then 1 else if k == 1 then 2 else if k == 2 then 4 else if k == 3 then 8
    else if k == 4 then 16 else if k == 5 then 32 else if k == 6 then 64 else 128
  }

  predicate Bit(b: bv8, k: nat)
    requires k < 8
  {
    b & Mask(k) != 0
  }

  function WithBit(b: bv8, k: nat): bv8
    requires k < 8
  {
    b | Mask(k)
  }

  lemma MaskBits(b: bv8, j: nat, k: nat)
    requires j < 8 && k < 8
    ensures Bit(WithBit(b, k), j) <==> j == k || Bit(b, j)
  {
  }

  function Clear(n: nat): (v: seq<bv8>)
    ensures |v| == (n + 7) / 8
    ensures forall i :: 0 <= i < n ==> !IsSet(v, i)
  {
    seq((n + 7) / 8, _ => 0)
  }

  predicate IsSet(v: seq<bv8>, n: nat)
    requires n < 8 * |v|
  {
    Bit(v[n / 8], n % 8)
  }

  function Set(v: seq<bv8>, n: nat): (w: seq<bv8>)
    requires n < 8 * |v|
    ensures |w| == |v|
  {
    v[n / 8 := WithBit(v[n / 8], n % 8)]
  }

  lemma SetOne(v: seq<bv8>, n: nat, i: nat)
    requires n < 8 * |v| && i < 8 * |v|
    ensures IsSet(Set(v, n), i) <==> i == n || IsSet(v, i)
  {
    hide Bit, WithBit, Mask;
    if i / 8 == n / 8 {
      MaskBits(v[n / 8], i % 8, n % 8);
    }
  }

  /** `BIT_SET` turns on bit `n` and no other. */
  lemma SetAll(v: seq<bv8>, n: nat)
    requires n < 8 * |v|
    ensures forall i :: 0 <= i < 8 * |v| ==> (IsSet(Set(v, n), i) <==> i == n || IsSet(v, i))
  {
    forall i | 0 <= i < 8 * |v|
      ensures IsSet(Set(v, n), i) <==> i == n || IsSet(v, i)
    {
      SetOne(v, n, i);
    }
  }
}
