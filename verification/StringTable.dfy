/** The string buffer of elfcopy/symbols.c (`struct strimpl`): one growing byte buffer and a
    65536-way hash of offsets into it, used to store every symbol name once. */
module StringTable {
  import opened Bytes

  const STHASHSIZE := 65536

  type Bucket = h: int | 0 <= h < STHASHSIZE

  /** `str_hash`: FNV-1a over the (signed) characters, cut to 16 bits. */
  function Fnv(s: Name, h: bv32): bv32 {
    if s == [] then h
    else
      var c: bv32 := if s[0] < 128 then s[0] as bv32 else 0xFFFF_FF00 | (s[0] as bv32);
      assert forall x :: x in s[1..] ==> x in s;
      Fnv(s[1..], (h ^ c) * 16777619)
  }

  function StrHash(s: Name): Bucket {
    (Fnv(s, 2166136261) & 0xFFFF) as int % STHASHSIZE
  }

  /** The names laid end to end, each with its NUL. */
  ghost function Flatten(names: seq<Name>): seq<byte> {
    if names == [] then [] else Flatten(names[..|names| - 1]) + names[|names| - 1] + [0]
  }

  /** `off` is where a name of bucket `h` was stored. */
  ghost predicate Stored(hf: Name -> Bucket, names: seq<Name>, offs: seq<nat>, h: Bucket, off: nat)
    requires |names| == |offs|
  {
    exists k :: 0 <= k < |names| && off == offs[k] && hf(names[k]) == h
  }

  /** Every chain entry stands for a stored name of its bucket, and every stored name has one. */
  ghost predicate Indexed(hf: Name -> Bucket, names: seq<Name>, offs: seq<nat>, hash: seq<seq<nat>>) {
    && |hash| == STHASHSIZE && |names| == |offs|
    && (forall h: Bucket, j :: 0 <= j < |hash[h]| ==> Stored(hf, names, offs, h, hash[h][j]))
    && (forall k :: 0 <= k < |names| ==> offs[k] in hash[hf(names[k])])
  }

  ghost predicate AllHeld(buf: seq<byte>, names: seq<Name>, offs: seq<nat>) {
    |names| == |offs| && forall k :: 0 <= k < |names| ==> Holds(buf, offs[k], names[k])
  }

  lemma AppendKeepsHeld(buf: seq<byte>, more: seq<byte>, names: seq<Name>, offs: seq<nat>)
    requires AllHeld(buf, names, offs)
    ensures AllHeld(buf + more, names, offs)
  {
    forall k | 0 <= k < |names|
      ensures Holds(buf + more, offs[k], names[k])
    {
      HoldsFramed([], buf, more, offs[k], names[k]);
      assert [] + buf + more == buf + more;
    }
  }

  /** The buffer is the leading bytes followed by distinct non-empty names, each with its NUL. */
  ghost predicate Packed(lead: seq<byte>, buf: seq<byte>, names: seq<Name>) {
    && buf == lead + Flatten(names)
    && (forall i, j :: 0 <= i < j < |names| ==> names[i] != names[j])
    && (forall i :: 0 <= i < |names| ==> names[i] != [])
  }

  lemma AppendKeepsPacked(lead: seq<byte>, buf: seq<byte>, names: seq<Name>, name: Name)
    requires Packed(lead, buf, names)
    requires name != [] && name !in names
    ensures Packed(lead, buf + (name + [0]), names + [name])
  {
    assert (names + [name])[..|names|] == names;
    assert lead + Flatten(names) + (name + [0]) == lead + (Flatten(names) + name + [0]);
  }

  /** The string read at a chain entry is the name that was stored there. */
  lemma ReadsStored(hf: Name -> Bucket, buf: seq<byte>, names: seq<Name>, offs: seq<nat>, h: Bucket, off: nat)
    requires AllHeld(buf, names, offs) && Stored(hf, names, offs, h, off)
    ensures off <= |buf| && CStr(buf, off) in names && Holds(buf, off, CStr(buf, off))
    ensures forall k :: 0 <= k < |names| && offs[k] == off ==> names[k] == CStr(buf, off)
  {
    var k :| 0 <= k < |names| && off == offs[k] && hf(names[k]) == h;
    assert Holds(buf, off, names[k]);
    CStrOfHeld(buf, off, names[k]);
    forall m | 0 <= m < |names| && offs[m] == off
      ensures names[m] == CStr(buf, off)
    {
      CStrOfHeld(buf, off, names[m]);
    }
  }

  lemma InsertKeepsIndexed(hf: Name -> Bucket, names: seq<Name>, offs: seq<nat>, hash: seq<seq<nat>>,
                           name: Name, off: nat)
    requires Indexed(hf, names, offs, hash)
    ensures var h := hf(name);
            Indexed(hf, names + [name], offs + [off], hash[h := [off] + hash[h]])
  {
    var h, names', offs' := hf(name), names + [name], offs + [off];
    var hash' := hash[h := [off] + hash[h]];
    forall i: Bucket, j | 0 <= j < |hash'[i]|
      ensures Stored(hf, names', offs', i, hash'[i][j])
    {
      if i == h && j == 0 {
        assert off == offs'[|names|] && hf(names'[|names|]) == h;
      } else {
        var was := if i == h then j - 1 else j;
        var k :| 0 <= k < |names| && hash[i][was] == offs[k] && hf(names[k]) == i;
        assert hash'[i][j] == offs'[k] && hf(names'[k]) == i;
      }
    }
    forall k | 0 <= k < |names'|
      ensures offs'[k] in hash'[hf(names'[k])]
    {
      if k < |names| {
        assert offs[k] in hash[hf(names[k])];
      } else {
        assert hash'[h][0] == off;
      }
    }
  }

  /** Bytes handed out by `realloc` beyond the old size are unspecified. */
  method Uninitialised(n: nat) returns (s: seq<byte>)
    ensures |s| == n
  {
    s := seq(n, _ => 0);
  }

  class StringTable {
    var buf: seq<byte>
    var sz: nat
    var cap: nat
    var hash: seq<seq<nat>>
    const lead: seq<byte>
    const hf: Name -> Bucket
    ghost var names: seq<Name>
    ghost var offs: seq<nat>

    ghost function Contents(): seq<byte>
      reads this
    {
      if sz <= |buf| then buf[..sz] else buf
    }

    /** The index is exact: what a lookup needs. */
    ghost predicate Searchable()
      reads this
    {
      && |buf| == cap && sz < cap
      && Indexed(hf, names, offs, hash)
      && AllHeld(Contents(), names, offs)
    }

    ghost predicate Valid()
      reads this
    {
      && Searchable()
      && Packed(lead, Contents(), names)
    }

    constructor (cap: nat, lead: seq<byte>, hf: Name -> Bucket)
      requires |lead| < cap
      requires forall x :: x in lead ==> x == 0
      ensures Valid() && names == [] && this.lead == lead && sz == |lead| && Contents() == lead
    {
      buf := lead + seq(cap - |lead|, _ => 0);
      sz := |lead|;
      this.cap := cap;
      hash := seq(STHASHSIZE, _ => []);
      this.lead := lead;
      this.hf := hf;
      names, offs := [], [];
    }

    /** `lookup_exact_string`. */
    method Lookup(s: Name) returns (pos: int)
      requires Searchable()
      ensures pos == -1 <==> s !in names
      ensures pos != -1 ==> pos >= 0 && Holds(Contents(), pos, s)
    {
      hide CStr;
      var chain := hash[hf(s)];
      AppendKeepsHeld(Contents(), buf[sz..], names, offs);
      assert Contents() + buf[sz..] == buf;
      var i := 0;
      while i < |chain|
        invariant 0 <= i <= |chain|
        invariant forall k :: 0 <= k < |names| && names[k] == s ==> offs[k] !in chain[..i]
      {
        assert Stored(hf, names, offs, hf(s), chain[i]);
        ReadsStored(hf, buf, names, offs, hf(s), chain[i]);
        if CStr(buf, chain[i]) == s {
          ReadsStored(hf, Contents(), names, offs, hf(s), chain[i]);
          return chain[i];
        }
        i := i + 1;
      }
      assert chain[..i] == chain;
      return -1;
    }

    /** Enough room for a name of length `len` at `sz`: the growth loop of `_ADDSYM`. */
    method Grow(len: nat)
      requires Valid()
      modifies this
      ensures Valid() && sz + len < cap - 1
      ensures names == old(names) && offs == old(offs) && hash == old(hash)
      ensures Contents() == old(Contents()) && sz == old(sz)
    {
      while sz + len >= cap - 1
        invariant Valid() && sz == old(sz) && names == old(names) && offs == old(offs) && hash == old(hash)
        invariant Contents() == old(Contents())
        decreases sz + len + 2 - cap
      {
        cap := cap * 2;
        var tail := Uninitialised(cap - |buf|);
        ghost var before := Contents();
        buf := buf + tail;
        assert Contents() == before;
      }
    }

    /** Link the offset at the head of the name's chain and copy the name in. */
    method Store(name: Name) returns (off: nat)
      requires Valid() && name != [] && name !in names && sz + |name| < cap - 1
      modifies this
      ensures Valid() && names == old(names) + [name]
      ensures Holds(Contents(), off, name) && Contents() == old(Contents()) + (name + [0])
    {
      hide Flatten, Stored;
      ghost var contents := Contents();
      InsertKeepsIndexed(hf, names, offs, hash, name, sz);
      AppendKeepsPacked(lead, contents, names, name);
      AppendKeepsHeld(contents, name + [0], names, offs);
      HoldsFramed(contents, name + [0], [], 0, name);
      assert contents + (name + [0]) + [] == contents + (name + [0]);
      off := sz;
      var h := hf(name);
      hash := hash[h := [off] + hash[h]];
      buf := buf[..sz] + (name + [0]) + buf[sz + |name| + 1..];
      sz := sz + |name| + 1;
      names, offs := names + [name], offs + [off];
      assert Contents() == contents + (name + [0]);
    }

    /** The string half of `_ADDSYM`: the offset of a non-empty name, stored at most once. */
    method Add(name: Name) returns (off: nat)
      requires Valid() && name != []
      modifies this
      ensures Valid()
      ensures Holds(Contents(), off, name) && old(Contents()) <= Contents()
      ensures sz <= old(sz) + |name| + 1
      ensures names == if name in old(names) then old(names) else old(names) + [name]
    {
      var pos := Lookup(name);
      if pos != -1 {
        off := pos;
      } else {
        Grow(|name|);
        off := Store(name);
      }
    }
  }
}
