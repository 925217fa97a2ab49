/** Bytes, NUL-terminated strings and fixed-width integers, as the C code lays them out. */
module Bytes {

  type byte = x: int | 0 <= x < 256
  type Word = x: int | 0 <= x < WORD_MOD

  const WORD_MOD := 0x1_0000_0000

  /** A C string without its terminator. */
  type Name = s: seq<byte> | 0 !in s

  datatype Option<+T> = None | Some(value: T)

  /** What `strcmp` and friends see at `buf + off`: the bytes up to the first NUL. */
  function CStr(buf: seq<byte>, off: nat): (s: Name)
    requires off <= |buf|
    decreases |buf| - off
  {
    if off == |buf| || buf[off] == 0 then [] else [buf[off]] + CStr(buf, off + 1)
  }

  /** `s` and its terminator lie at `off`, wholly inside `buf`. */
  predicate Holds(buf: seq<byte>, off: nat, s: Name) {
    off + |s| < |buf| && buf[off..off + |s|] == s && buf[off + |s|] == 0
  }

  lemma {:induction false} CStrOfHeld(buf: seq<byte>, off: nat, s: Name)
    requires Holds(buf, off, s)
    ensures CStr(buf, off) == s
    decreases |s|
  {
    if s != [] {
      var t: seq<byte> := s[1..];
      assert forall x :: x in t ==> x in s;
      assert buf[off] == buf[off..off + |s|][0];
      assert buf[off + 1..off + 1 + |t|] == buf[off..off + |s|][1..];
      CStrOfHeld(buf, off + 1, t);
      assert s == [s[0]] + t;
    }
  }

  /** A string held in a buffer stays held when bytes are added on either side. */
  lemma HoldsFramed(pre: seq<byte>, buf: seq<byte>, post: seq<byte>, off: nat, s: Name)
    requires Holds(buf, off, s)
    ensures Holds(pre + buf + post, |pre| + off, s)
  {
    var all := pre + buf + post;
    assert all[|pre| + off..|pre| + off + |s|] == buf[off..off + |s|];
  }

  // ---------- numbers as bytes ----------

  function Pow256(n: nat): nat
    ensures Pow256(n) > 0
  {
    if n == 0 then 1 else 256 * Pow256(n - 1)
  }

  /** The low `n` bytes of `num`, most significant first. */
  function ToBE(num: nat, n: nat): (bs: seq<byte>)
    ensures |bs| == n
  {
    if n == 0 then [] else ToBE(num / 256, n - 1) + [num % 256]
  }

  /** The number whose big-endian bytes these are. */
  function FromBE(bs: seq<byte>): nat {
    if bs == [] then 0 else FromBE(bs[..|bs| - 1]) * 256 + bs[|bs| - 1]
  }

  /** A number survives being written with `n` bytes exactly when it fits them. */
  lemma {:induction false} FromToBE(num: nat, n: nat)
    ensures FromBE(ToBE(num, n)) <= num && FromBE(ToBE(num, n)) < Pow256(n)
    ensures FromBE(ToBE(num, n)) == num <==> num < Pow256(n)
  {
    if n > 0 {
      FromToBE(num / 256, n - 1);
      assert ToBE(num, n)[..n - 1] == ToBE(num / 256, n - 1);
    }
  }

  /** The low `n` bytes of `num`, least significant first. */
  function ToLE(v: nat, n: nat): (s: seq<byte>)
    ensures |s| == n
  {
    if n == 0 then [] else [v % 256] + ToLE(v / 256, n - 1)
  }

  function FromLE(s: seq<byte>): nat {
    if s == [] then 0 else s[0] + 256 * FromLE(s[1..])
  }

  lemma {:induction false} FromToLE(v: nat, n: nat)
    requires v < Pow256(n)
    ensures FromLE(ToLE(v, n)) == v
  {
    if n > 0 {
      FromToLE(v / 256, n - 1);
      assert ToLE(v, n)[1..] == ToLE(v / 256, n - 1);
    }
  }
}
