/** The data sections both text readers build, and the ordered (address, byte) stream they stand for. */
module DataSections {
  import opened Bytes

  datatype Sec = Sec(addr: nat, data: seq<byte>)

  /** A section of the ELF file being converted. */
  datatype ElfSec = ElfSec(alloc: bool, nobits: bool, addr: nat, data: seq<byte>)

  /** The sections the writers emit. */
  predicate Emitted(s: ElfSec) {
    s.alloc && !s.nobits && s.data != [] && s.addr <= 0xFFFF_FFFF
  }

  /** A data record either continues the current section or starts a new one. */
  function Append(secs: seq<Sec>, addr: nat, data: seq<byte>): seq<Sec> {
    if secs == [] || secs[|secs| - 1].addr + |secs[|secs| - 1].data| != addr then secs + [Sec(addr, data)]
    else secs[..|secs| - 1] + [Sec(secs[|secs| - 1].addr, secs[|secs| - 1].data + data)]
  }

  /** The emitted sections, with sections that touch run together. */
  function Coalesce(secs: seq<ElfSec>): seq<Sec> {
    if secs == [] then []
    else
      var front, s := Coalesce(secs[..|secs| - 1]), secs[|secs| - 1];
      if Emitted(s) then Append(front, s.addr, s.data) else front
  }

  ghost function Cells(addr: nat, data: seq<byte>): seq<(nat, byte)> {
    seq(|data|, i requires 0 <= i < |data| => (addr + i, data[i]))
  }

  ghost function Stream(secs: seq<Sec>): seq<(nat, byte)> {
    if secs == [] then []
    else Stream(secs[..|secs| - 1]) + Cells(secs[|secs| - 1].addr, secs[|secs| - 1].data)
  }

  /** The stream of the ELF file itself. */
  ghost function Source(secs: seq<ElfSec>): seq<(nat, byte)> {
    if secs == [] then []
    else
      var front, s := Source(secs[..|secs| - 1]), secs[|secs| - 1];
      if Emitted(s) then front + Cells(s.addr, s.data) else front
  }

  lemma CellsConcat(addr: nat, a: seq<byte>, b: seq<byte>)
    ensures Cells(addr, a + b) == Cells(addr, a) + Cells(addr + |a|, b)
  {
  }

  lemma StreamAppend(secs: seq<Sec>, addr: nat, data: seq<byte>)
    ensures Stream(Append(secs, addr, data)) == Stream(secs) + Cells(addr, data)
  {
    var secs' := Append(secs, addr, data);
    if |secs'| == |secs| + 1 {
      assert secs'[..|secs|] == secs;
    } else {
      var last := secs[|secs| - 1];
      assert secs'[..|secs| - 1] == secs[..|secs| - 1];
      CellsConcat(last.addr, last.data, data);
    }
  }

  /** Splitting a chunk in two and appending both halves is appending the chunk. */
  lemma AppendTwice(secs: seq<Sec>, addr: nat, a: seq<byte>, b: seq<byte>)
    ensures Append(Append(secs, addr, a), addr + |a|, b) == Append(secs, addr, a + b)
  {
    var secs' := Append(secs, addr, a);
    assert secs'[|secs'| - 1].addr + |secs'[|secs'| - 1].data| == addr + |a|;
    if |secs'| == |secs| + 1 {
      assert secs'[..|secs|] == secs;
    } else {
      var last := secs[|secs| - 1];
      assert last.data + a + b == last.data + (a + b);
    }
  }

  /** Coalescing keeps every byte at its address, in order. */
  lemma {:induction false} CoalesceStream(secs: seq<ElfSec>)
    ensures Stream(Coalesce(secs)) == Source(secs)
  {
    if secs != [] {
      var front, s := secs[..|secs| - 1], secs[|secs| - 1];
      CoalesceStream(front);
      if Emitted(s) {
        StreamAppend(Coalesce(front), s.addr, s.data);
      }
    }
  }

  /** Neighbouring sections of the result never touch, so it is split at address gaps only. */
  ghost predicate SplitAtGaps(secs: seq<Sec>) {
    && (forall i :: 0 <= i < |secs| ==> secs[i].data != [])
    && (forall i :: 0 < i < |secs| ==> secs[i - 1].addr + |secs[i - 1].data| != secs[i].addr)
  }

  lemma {:induction false} CoalesceSplits(secs: seq<ElfSec>)
    ensures SplitAtGaps(Coalesce(secs))
  {
    if secs != [] {
      CoalesceSplits(secs[..|secs| - 1]);
    }
  }

  ghost predicate Differ(a: seq<(nat, byte)>, b: seq<(nat, byte)>) {
    exists n :: 0 <= n < |a| && n < |b| && a[n] != b[n]
  }

  lemma DifferGrows(a: seq<(nat, byte)>, b: seq<(nat, byte)>, a': seq<(nat, byte)>, b': seq<(nat, byte)>)
    requires Differ(a, b) && a <= a' && b <= b'
    ensures Differ(a', b')
  {
    var n :| 0 <= n < |a| && n < |b| && a[n] != b[n];
    assert a'[n] == a[n] && b'[n] == b[n];
  }

  /** Bytes put at another address than they belong. */
  lemma FirstCellWrong(before: seq<(nat, byte)>, at: nat, chunk: seq<byte>, addr: nat, data: seq<byte>,
                       got: seq<(nat, byte)>)
    requires at != addr && chunk != [] && data != [] && before + Cells(at, chunk) <= got
    ensures Differ(got, before + Cells(addr, data))
  {
    var want := before + Cells(addr, data);
    assert got[|before|] == (before + Cells(at, chunk))[|before|] == (at, chunk[0]);
    assert want[|before|] == (addr, data[0]);
  }

  lemma DifferMeansUnequal(a: seq<(nat, byte)>, b: seq<(nat, byte)>)
    requires Differ(a, b)
    ensures a != b
  {
  }

  // ---------- what the writers leave out ----------

  /** A loaded section with contents in the file, starting below 4 GB, holds `b` at address `a`. */
  ghost predicate HoldsByte(secs: seq<ElfSec>, a: nat, b: byte) {
    exists i, j :: 0 <= i < |secs| && 0 <= j < |secs[i].data| && secs[i].alloc && !secs[i].nobits
                   && secs[i].addr <= 0xFFFF_FFFF && a == secs[i].addr + j && b == secs[i].data[j]
  }

  /** The stream of the file is made of exactly these bytes. */
  lemma {:induction false} SourceHolds(secs: seq<ElfSec>, a: nat, b: byte)
    ensures (a, b) in Source(secs) <==> HoldsByte(secs, a, b)
  {
    if secs != [] {
      var n := |secs| - 1;
      var front, s := secs[..n], secs[n];
      SourceHolds(front, a, b);
      if (a, b) in Cells(s.addr, s.data) && Emitted(s) {
        var j :| 0 <= j < |s.data| && Cells(s.addr, s.data)[j] == (a, b);
        assert secs[n] == s && a == secs[n].addr + j && b == secs[n].data[j];
      }
      if i, j :| 0 <= i < |front| && 0 <= j < |front[i].data| && front[i].alloc && !front[i].nobits
                 && front[i].addr <= 0xFFFF_FFFF && a == front[i].addr + j && b == front[i].data[j] {
        assert secs[i] == front[i];
      }
      if i, j :| 0 <= i < |secs| && 0 <= j < |secs[i].data| && secs[i].alloc && !secs[i].nobits
                 && secs[i].addr <= 0xFFFF_FFFF && a == secs[i].addr + j && b == secs[i].data[j] {
        if i < n {
          assert front[i] == secs[i];
        } else {
          assert Cells(s.addr, s.data)[j] == (a, b);
        }
      }
    }
  }

  /** Sections that are not written: not loaded, without contents in the file, or empty. */
  predicate NotWritten(s: ElfSec) { !s.alloc || s.nobits || s.data == [] }
}
