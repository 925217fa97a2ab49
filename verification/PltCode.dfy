/** The finalisation of .got.plt, .plt and .rela.plt in ld/amd64.c, down to the bytes written, and what
    the processor does with them. */
module PltCode {
  import opened Bytes
  import opened GotPlt

  // ---------- little-endian words ----------

  /** The `int32_t` conversions of the source: the bits kept, and the number they stand for. */
  function U32(x: int): (u: nat)
    ensures u < WORD_MOD
  {
    x % WORD_MOD
  }

  function S32(u: nat): int
    requires u < WORD_MOD
  {
    if u < 0x8000_0000 then u else u - WORD_MOD
  }

  predicate FitsInt32(x: int) { -0x8000_0000 <= x < 0x8000_0000 }

  function Le32(x: int): (s: seq<byte>)
    ensures |s| == 4
  {
    ToLE(U32(x), 4)
  }

  function Get32(s: seq<byte>): int
    requires |s| == 4
  {
    S32(FromLE(s) % WORD_MOD)
  }

  lemma Limits()
    ensures Pow256(4) == WORD_MOD && Pow256(8) == WORD_MOD * WORD_MOD
  {
    assert Pow256(2) == 65536;
    assert Pow256(4) == WORD_MOD;
    assert Pow256(6) == WORD_MOD * 65536;
  }

  lemma Get32Le32(x: int)
    requires FitsInt32(x)
    ensures Get32(Le32(x)) == x
  {
    hide ToLE, FromLE;
    Limits();
    FromToLE(U32(x), 4);
  }

  function Le64(x: nat): (s: seq<byte>)
    ensures |s| == 8
  {
    ToLE(x, 8)
  }

  lemma NoTruncation(x: int)
    requires FitsInt32(x)
    ensures S32(U32(x)) == x
  {
  }

  // ---------- the sections as written ----------

  /** PLT0: push GOT+8, jump through GOT+16, pad. */
  function Plt0(pltgot: int): (s: seq<byte>)
    ensures |s| == 16
  {
    [0xff, 0x35] + Le32(pltgot - 6 + 8) + ([0xff, 0x25] + Le32(pltgot - 12 + 16)) + [0x0f, 0x1f, 0x40, 0x00]
  }

  /** Entry `k`: jump through its GOT slot, push its index, jump to PLT0. */
  function PltEntry(pltgot: int, k: nat): (s: seq<byte>)
    ensures |s| == 16
  {
    [0xff, 0x25] + Le32(pltgot + (k + 3) * 8 - (k + 1) * 16 - 6) + ([0x68] + Le32(k)) + ([0xe9] + Le32(-(k + 2) * 16))
  }

  function PltImage(pltgot: int, n: nat): (s: seq<byte>)
    ensures |s| == 16 * (n + 1)
  {
    if n == 0 then Plt0(pltgot) else PltImage(pltgot, n - 1) + PltEntry(pltgot, n - 1)
  }

  function Zeros(n: nat): (s: seq<byte>)
    ensures |s| == n
  {
    if n == 0 then [] else Zeros(n - 1) + [0]
  }

  /** _DYNAMIC, two words for the dynamic linker, then the address of each entry's push. */
  function GotImage(dynamic: nat, pltAddr: nat, n: nat): (s: seq<byte>)
    ensures |s| == 8 * (n + 3)
  {
    if n == 0 then Le64(dynamic) + Zeros(16)
    else GotImage(dynamic, pltAddr, n - 1) + Le64(EntryAddress(pltAddr, n - 1) + 6)
  }

  // ---------- writing them ----------

  method Put(buf: array<byte>, at: nat, bytes: seq<byte>) returns (next: nat)
    requires at + |bytes| <= buf.Length
    modifies buf
    ensures next == at + |bytes| && buf[..next] == old(buf[..at]) + bytes
    ensures buf[next..] == old(buf[next..])
  {
    for i := 0 to |bytes|
      invariant buf[..at + i] == old(buf[..at]) + bytes[..i]
      invariant buf[at + |bytes|..] == old(buf[at + |bytes|..])
    {
      buf[at + i] := bytes[i];
      assert buf[..at + i + 1] == buf[..at + i] + [bytes[i]];
      assert bytes[..i + 1] == bytes[..i] + [bytes[i]];
    }
    assert bytes[..|bytes|] == bytes;
    next := at + |bytes|;
  }

  method WritePlt0(plt: array<byte>, pltgot: int) returns (p: nat)
    requires plt.Length >= 16
    modifies plt
    ensures p == 16 && plt[..16] == Plt0(pltgot)
  {
    hide Le32;
    p := Put(plt, 0, [0xff, 0x35]);
    p := Put(plt, p, Le32(pltgot - 6 + 8));
    p := Put(plt, p, [0xff, 0x25]);
    p := Put(plt, p, Le32(pltgot - 12 + 16));
    p := Put(plt, p, [0x0f, 0x1f, 0x40, 0x00]);
    assert plt[..16] == Plt0(pltgot);
  }

  method WritePltEntry(plt: array<byte>, at: nat, pltgot: int, i: nat, j: nat) returns (p: nat)
    requires at + 16 <= plt.Length && i == j + 3
    modifies plt
    ensures p == at + 16 && plt[..p] == old(plt[..at]) + PltEntry(pltgot, j)
  {
    hide Le32;
    p := Put(plt, at, [0xff, 0x25]);
    p := Put(plt, p, Le32(pltgot + i * 8 - (i - 2) * 16 - 6));
    p := Put(plt, p, [0x68]);
    p := Put(plt, p, Le32(j));
    p := Put(plt, p, [0xe9]);
    p := Put(plt, p, Le32(-(i - 1) * 16));
    assert plt[..p] == old(plt[..at]) + PltEntry(pltgot, j);
  }

  /** `off` is the address of the PLT entry of a relocation against `s`. */
  ghost predicate PltOffOf(relocs: seq<Dyn>, pltAddr: nat, s: SymId, off: nat) {
    exists k :: 0 <= k < |relocs| && relocs[k].sym == s && off == EntryAddress(pltAddr, k)
  }

  function EntryAddress(pltAddr: nat, k: nat): nat { pltAddr + (k + 1) * 16 }

  /** The first `n` relocations have given their symbols an entry's address. */
  ghost predicate PltOffsOk(relocs: seq<Dyn>, pltAddr: nat, n: nat, pltOff: map<SymId, nat>) {
    && n <= |relocs| && (forall k :: 0 <= k < n ==> relocs[k].sym in pltOff)
    && (forall s :: s in pltOff ==> PltOffOf(relocs, pltAddr, s, pltOff[s]))
  }

  /** The first `n` relocations point to their GOT words, nothing else about them has changed. */
  ghost predicate Relocated(was: seq<Dyn>, now: seq<Dyn>, n: nat, gotAddr: nat) {
    && |now| == |was|
    && (forall k :: 0 <= k < |was| ==> now[k] == if k < n then was[k].(offset := gotAddr + (k + 3) * 8) else was[k])
  }

  lemma PltOffsStep(relocs: seq<Dyn>, pltAddr: nat, j: nat, pltOff: map<SymId, nat>)
    requires PltOffsOk(relocs, pltAddr, j, pltOff) && j < |relocs|
    ensures PltOffsOk(relocs, pltAddr, j + 1, pltOff[relocs[j].sym := pltAddr + (j + 1) * 16])
  {
    var pltOff' := pltOff[relocs[j].sym := pltAddr + (j + 1) * 16];
    assert PltOffOf(relocs, pltAddr, relocs[j].sym, EntryAddress(pltAddr, j));
    forall s | s in pltOff'
      ensures PltOffOf(relocs, pltAddr, s, pltOff'[s])
    {
    }
  }

  lemma RelocatedStep(was: seq<Dyn>, now: seq<Dyn>, j: nat, gotAddr: nat)
    requires Relocated(was, now, j, gotAddr) && j < |was|
    ensures |now| == |was| && now[j] == was[j]
    ensures Relocated(was, now[j := now[j].(offset := gotAddr + (j + 3) * 8)], j + 1, gotAddr)
  {
  }

  lemma ImageStep(dynamic: nat, pltAddr: nat, pltgot: int, j: nat)
    ensures GotImage(dynamic, pltAddr, j + 1) == GotImage(dynamic, pltAddr, j) + Le64(EntryAddress(pltAddr, j) + 6)
    ensures PltImage(pltgot, j + 1) == PltImage(pltgot, j) + PltEntry(pltgot, j)
  {
  }

  lemma Starts(was: seq<Dyn>, pltAddr: nat, gotAddr: nat, dynamic: nat, pltgot: int)
    ensures GotImage(dynamic, pltAddr, 0) == Le64(dynamic) + Zeros(16) && PltImage(pltgot, 0) == Plt0(pltgot)
    ensures Relocated(was, was, 0, gotAddr) && PltOffsOk(was, pltAddr, 0, map[])
  {
  }

  /** One entry of each section. */
  method WriteEntry(got: array<byte>, plt: array<byte>, gp: nat, pp: nat, pltgot: int, pltAddr: nat, i: nat, j: nat)
    returns (g: nat, p: nat)
    requires got != plt && i == j + 3 && gp == 8 * i && pp == 16 * (j + 1)
    requires gp + 8 <= got.Length && pp + 16 <= plt.Length
    modifies got, plt
    ensures g == gp + 8 && p == pp + 16
    ensures got[..g] == old(got[..gp]) + Le64(EntryAddress(pltAddr, j) + 6)
    ensures plt[..p] == old(plt[..pp]) + PltEntry(pltgot, j)
  {
    hide PltEntry, Le64;
    p := WritePltEntry(plt, pp, pltgot, i, j);
    g := Put(got, gp, Le64(pltAddr + (i - 2) * 16 + 6));
  }

  /** `_finalize_got_and_plt` from the first .got.plt word on; `relocs` is the .rela.plt list. */
  method FinalizePlt(got: array<byte>, plt: array<byte>, relocs: array<Dyn>, gotAddr: nat, pltAddr: nat, dynamic: nat)
    returns (pltOff: map<SymId, nat>)
    requires got != plt && got.Length == 8 * (3 + relocs.Length) && plt.Length == 16 * (1 + relocs.Length)
    modifies got, plt, relocs
    ensures got[..] == GotImage(dynamic, pltAddr, relocs.Length)
    ensures plt[..] == PltImage(S32(U32(gotAddr - pltAddr)), relocs.Length)
    ensures Relocated(old(relocs[..]), relocs[..], relocs.Length, gotAddr)
    ensures PltOffsOk(old(relocs[..]), pltAddr, relocs.Length, pltOff)
  {
    hide Plt0, PltEntry, Le64, U32, S32, GotImage, PltImage, Relocated, PltOffsOk;
    ghost var was := relocs[..];
    Starts(was, pltAddr, gotAddr, dynamic, S32(U32(gotAddr - pltAddr)));
    var gp := Put(got, 0, Le64(dynamic));
    gp := Put(got, gp, Zeros(16));
    var pltgot := S32(U32(gotAddr - pltAddr));
    var pp := WritePlt0(plt, pltgot);
    var i, j := 3, 0;
    pltOff := map[];
    while j < relocs.Length
      invariant j <= relocs.Length && i == j + 3 && gp == 8 * i && pp == 16 * (j + 1)
      invariant got[..gp] == GotImage(dynamic, pltAddr, j)
      invariant plt[..pp] == PltImage(pltgot, j)
      invariant Relocated(was, relocs[..], j, gotAddr)
      invariant PltOffsOk(was, pltAddr, j, pltOff)
    {
      PltOffsStep(was, pltAddr, j, pltOff);
      RelocatedStep(was, relocs[..], j, gotAddr);
      pltOff := pltOff[relocs[j].sym := pltAddr + (i - 2) * 16];
      relocs[j] := relocs[j].(offset := gotAddr + i * 8);
      ImageStep(dynamic, pltAddr, pltgot, j);
      gp, pp := WriteEntry(got, plt, gp, pp, pltgot, pltAddr, i, j);
      i, j := i + 1, j + 1;
    }
    assert relocs[..] == relocs[..relocs.Length];
    assert gp == got.Length && pp == plt.Length;
    assert got[..gp] == got[..] && plt[..pp] == plt[..];
  }

  /** Finalising what the scans reserved: the buffers have the sections' sizes, so the end-of-buffer
      checks hold, and every symbol with a PLT entry gets an entry of its own. */
  method FinalizeReserved(l: Linker, got: array<byte>, plt: array<byte>, relocs: array<Dyn>,
                          gotAddr: nat, pltAddr: nat, dynamic: nat)
    returns (pltOff: map<SymId, nat>)
    requires l.Valid() && l.plts != [] && RelaPlt in l.rela && relocs[..] == l.rela[RelaPlt]
    requires l.plt.Some? && plt.Length == l.plt.value.size && l.gotplt.Some? && got.Length == l.gotplt.value.size
    requires got != plt && FitsInt32(gotAddr - pltAddr)
    modifies got, plt, relocs
    ensures got[..] == GotImage(dynamic, pltAddr, |l.plts|) && plt[..] == PltImage(gotAddr - pltAddr, |l.plts|)
    ensures Relocated(l.rela[RelaPlt], relocs[..], relocs.Length, gotAddr)
    ensures forall s :: s in l.syms && l.syms[s].plt ==> s in pltOff && PltOffOf(l.rela[RelaPlt], pltAddr, s, pltOff[s])
  {
    hide Linker.Valid, GotImage, PltImage, S32, U32, PltOffOf;
    PltSectionSizes(l);
    assert relocs.Length == |relocs[..]|;
    NoTruncation(gotAddr - pltAddr);
    ghost var was := relocs[..];
    pltOff := FinalizePlt(got, plt, relocs, gotAddr, pltAddr, dynamic);
    forall s | s in l.syms && l.syms[s].plt
      ensures s in pltOff
    {
      var k :| 0 <= k < |l.plts| && l.rela[RelaPlt][k].sym == s;
      assert was[k].sym in pltOff;
    }
  }

  // ---------- what the processor makes of them ----------

  datatype Insn = JumpMem(addr: int) | PushMem(addr: int) | PushImm(value: int) | Jump(addr: int)

  /** The four instruction forms a PLT uses, at offset `o` of code loaded at `base`. */
  function Decode(code: seq<byte>, base: nat, o: nat): Option<(Insn, nat)> {
    if o + 6 <= |code| && code[o] == 0xff && code[o + 1] == 0x25 then
      Some((JumpMem(base + o + 6 + Get32(code[o + 2..o + 6])), 6))
    else if o + 6 <= |code| && code[o] == 0xff && code[o + 1] == 0x35 then
      Some((PushMem(base + o + 6 + Get32(code[o + 2..o + 6])), 6))
    else if o + 5 <= |code| && code[o] == 0x68 then Some((PushImm(Get32(code[o + 1..o + 5])), 5))
    else if o + 5 <= |code| && code[o] == 0xe9 then Some((Jump(base + o + 5 + Get32(code[o + 1..o + 5])), 5))
    else None
  }

  /** Everything a PLT run can see: the code, the .got.plt contents as words, and where they are. */
  datatype Machine = Machine(code: seq<byte>, base: nat, words: seq<nat>, gotAddr: nat)

  datatype Cpu = Cpu(pc: int, stack: seq<int>)

  function Load(m: Machine, addr: int): Option<nat> {
    if m.gotAddr <= addr < m.gotAddr + 8 * |m.words| && (addr - m.gotAddr) % 8 == 0
    then Some(m.words[(addr - m.gotAddr) / 8]) else None
  }

  function Step(m: Machine, c: Cpu): Option<Cpu> {
    if c.pc < m.base || Decode(m.code, m.base, c.pc - m.base).None? then None
    else
      var (insn, len) := Decode(m.code, m.base, c.pc - m.base).value;
      match insn
      case JumpMem(a) => (match Load(m, a) case Some(w) => Some(c.(pc := w)) case None => None)
      case PushMem(a) =>
        (match Load(m, a) case Some(w) => Some(Cpu(c.pc + len, c.stack + [w])) case None => None)
      case PushImm(v) => Some(Cpu(c.pc + len, c.stack + [v]))
      case Jump(a) => Some(c.(pc := a))
  }

  function Steps(m: Machine, c: Cpu, n: nat): Option<Cpu>
    decreases n
  {
    if n == 0 then Some(c)
    else match Step(m, c)
      case Some(d) => Steps(m, d, n - 1)
      case None => None
  }

  /** The 64-bit words of a byte image. */
  function Words(s: seq<byte>): (ws: seq<nat>)
    requires |s| % 8 == 0
    ensures |ws| == |s| / 8
  {
    if s == [] then [] else Words(s[..|s| - 8]) + [FromLE(s[|s| - 8..])]
  }

  lemma WordsSnoc(s: seq<byte>, w: seq<byte>)
    requires |s| % 8 == 0 && |w| == 8
    ensures Words(s + w) == Words(s) + [FromLE(w)]
  {
    var t := s + w;
    assert t[..|t| - 8] == s && t[|t| - 8..] == w;
  }

  lemma {:induction false} GotWords(dynamic: nat, pltAddr: nat, n: nat, k: nat)
    requires k < n && pltAddr + n * 16 + 6 < WORD_MOD * WORD_MOD
    ensures Words(GotImage(dynamic, pltAddr, n))[k + 3] == EntryAddress(pltAddr, k) + 6
  {
    hide Words, FromLE, ToLE;
    WordsSnoc(GotImage(dynamic, pltAddr, n - 1), Le64(EntryAddress(pltAddr, n - 1) + 6));
    if k < n - 1 {
      GotWords(dynamic, pltAddr, n - 1, k);
    } else {
      Limits();
      FromToLE(EntryAddress(pltAddr, n - 1) + 6, 8);
    }
  }

  lemma {:induction false} EntryAt(pltgot: int, n: nat, k: nat)
    requires k < n
    ensures PltImage(pltgot, n)[..16] == Plt0(pltgot)
    ensures PltImage(pltgot, n)[(k + 1) * 16..(k + 2) * 16] == PltEntry(pltgot, k)
  {
    hide Plt0, PltEntry;
    var before := PltImage(pltgot, n - 1);
    assert PltImage(pltgot, n)[..16] == before[..16];
    if k < n - 1 {
      EntryAt(pltgot, n - 1, k);
      assert PltImage(pltgot, n)[(k + 1) * 16..(k + 2) * 16] == before[(k + 1) * 16..(k + 2) * 16];
    } else {
      Plt0First(pltgot, n - 1);
    }
  }

  lemma {:induction false} Plt0First(pltgot: int, n: nat)
    ensures PltImage(pltgot, n)[..16] == Plt0(pltgot)
  {
    if n > 0 {
      Plt0First(pltgot, n - 1);
      assert PltImage(pltgot, n)[..16] == PltImage(pltgot, n - 1)[..16];
    }
  }

  /** Code found inside a larger piece decodes alike. */
  lemma DecodeWithin(code: seq<byte>, base: nat, at: nat, part: seq<byte>, o: nat)
    requires at + |part| <= |code| && code[at..at + |part|] == part && Decode(part, base + at, o).Some?
    ensures Decode(code, base, at + o) == Decode(part, base + at, o)
  {
    hide Get32;
    assert forall i :: 0 <= i < |part| ==> code[at + i] == part[i];
    if o + 6 <= |part| {
      assert code[at + o + 2..at + o + 6] == part[o + 2..o + 6];
    }
    if o + 5 <= |part| {
      assert code[at + o + 1..at + o + 5] == part[o + 1..o + 5];
    }
  }

  /** All displacements of a PLT with `n` entries can be encoded. */
  predicate InReach(gotAddr: nat, pltAddr: nat, n: nat) {
    && FitsInt32(gotAddr - pltAddr) && FitsInt32(gotAddr - pltAddr + 10)
    && FitsInt32(gotAddr - pltAddr - 8 * n - 6) && FitsInt32(-(n + 1) * 16)
  }

  lemma EntryDecodes(gotAddr: nat, pltAddr: nat, n: nat, k: nat)
    requires k < n && InReach(gotAddr, pltAddr, n)
    ensures var e, at := PltEntry(gotAddr - pltAddr, k), EntryAddress(pltAddr, k);
            && Decode(e, at, 0) == Some((JumpMem(gotAddr + (k + 3) * 8), 6))
            && Decode(e, at, 6) == Some((PushImm(k), 5))
            && Decode(e, at, 11) == Some((Jump(pltAddr), 5))
  {
    hide Le32, Get32;
    var pltgot := gotAddr - pltAddr;
    var d := pltgot + (k + 3) * 8 - (k + 1) * 16 - 6;
    Get32Le32(d);
    Get32Le32(k);
    Get32Le32(-(k + 2) * 16);
    var e := PltEntry(pltgot, k);
    assert e[2..6] == Le32(d);
    assert e[7..11] == Le32(k);
    assert e[12..16] == Le32(-(k + 2) * 16);
  }

  lemma Plt0Decodes(gotAddr: nat, pltAddr: nat)
    requires InReach(gotAddr, pltAddr, 0)
    ensures var e := Plt0(gotAddr - pltAddr);
            && Decode(e, pltAddr, 0) == Some((PushMem(gotAddr + 8), 6))
            && Decode(e, pltAddr, 6) == Some((JumpMem(gotAddr + 16), 6))
  {
    hide Le32, Get32;
    var pltgot := gotAddr - pltAddr;
    Get32Le32(pltgot - 6 + 8);
    Get32Le32(pltgot - 12 + 16);
    var e := Plt0(pltgot);
    assert e[2..6] == Le32(pltgot - 6 + 8);
    assert e[8..12] == Le32(pltgot - 12 + 16);
  }

  /** The PLT of a finalised output, with .got.plt as the dynamic linker has left it. */
  ghost predicate Loaded(m: Machine, pltAddr: nat, n: nat) {
    && m.base == pltAddr && |m.words| == n + 3 && InReach(m.gotAddr, pltAddr, n)
    && m.code == PltImage(m.gotAddr - pltAddr, n)
  }

  /** A call through PLT entry `k` goes where GOT slot `k + 3` says, whatever that is. */
  lemma CallGoesThroughSlot(m: Machine, pltAddr: nat, n: nat, k: nat, stack: seq<int>)
    requires k < n && Loaded(m, pltAddr, n)
    ensures Step(m, Cpu(EntryAddress(pltAddr, k), stack)) == Some(Cpu(m.words[k + 3], stack))
  {
    hide Decode, PltEntry, PltImage, Plt0, Get32;
    var e := PltEntry(m.gotAddr - pltAddr, k);
    EntryAt(m.gotAddr - pltAddr, n, k);
    EntryDecodes(m.gotAddr, pltAddr, n, k);
    DecodeWithin(m.code, pltAddr, (k + 1) * 16, e, 0);
  }

  /** From its push on, an entry pushes its index and the second GOT word, and enters the third. */
  lemma PushReachesResolver(m: Machine, pltAddr: nat, n: nat, k: nat, stack: seq<int>)
    requires k < n && Loaded(m, pltAddr, n)
    ensures Steps(m, Cpu(EntryAddress(pltAddr, k) + 6, stack), 4)
            == Some(Cpu(m.words[2], stack + [k] + [m.words[1]]))
  {
    hide Decode, PltEntry, PltImage, Plt0, Get32;
    var d := m.gotAddr - pltAddr;
    EntryAt(d, n, k);
    EntryDecodes(m.gotAddr, pltAddr, n, k);
    DecodeWithin(m.code, pltAddr, (k + 1) * 16, PltEntry(d, k), 6);
    DecodeWithin(m.code, pltAddr, (k + 1) * 16, PltEntry(d, k), 11);
    Plt0Decodes(m.gotAddr, pltAddr);
    DecodeWithin(m.code, pltAddr, 0, Plt0(d), 0);
    DecodeWithin(m.code, pltAddr, 0, Plt0(d), 6);
    var c0 := Cpu(EntryAddress(pltAddr, k) + 6, stack);
    var c1 := Cpu(EntryAddress(pltAddr, k) + 11, stack + [k]);
    var c2 := Cpu(pltAddr, stack + [k]);
    var c3 := Cpu(pltAddr + 6, stack + [k] + [m.words[1]]);
    var c4 := Cpu(m.words[2], stack + [k] + [m.words[1]]);
    assert Step(m, c0) == Some(c1);
    assert Step(m, c1) == Some(c2);
    assert Load(m, m.gotAddr + 8) == Some(m.words[1]);
    assert Step(m, c2) == Some(c3);
    assert Load(m, m.gotAddr + 16) == Some(m.words[2]);
    assert Step(m, c3) == Some(c4);
    FourSteps(m, c0, c1, c2, c3, c4);
  }

  lemma FourSteps(m: Machine, c0: Cpu, c1: Cpu, c2: Cpu, c3: Cpu, c4: Cpu)
    requires Step(m, c0) == Some(c1) && Step(m, c1) == Some(c2) && Step(m, c2) == Some(c3) && Step(m, c3) == Some(c4)
    ensures Steps(m, c0, 4) == Some(c4)
  {
    hide Step;
    assert Steps(m, c3, 1) == Some(c4);
    assert Steps(m, c2, 2) == Some(c4);
    assert Steps(m, c1, 3) == Some(c4);
  }

  /** The first call of each function, before its slot is bound, reaches the dynamic linker's entry with
      the index of its own JUMP_SLOT and the linker's word on the stack: only words 1 and 2 of .got.plt
      need to have been filled in. */
  lemma FirstCallResolves(m: Machine, pltAddr: nat, n: nat, k: nat, stack: seq<int>, dynamic: nat)
    requires k < n && Loaded(m, pltAddr, n) && pltAddr + n * 16 + 6 < WORD_MOD * WORD_MOD
    requires m.words[3..] == Words(GotImage(dynamic, pltAddr, n))[3..]
    ensures Steps(m, Cpu(EntryAddress(pltAddr, k), stack), 5) == Some(Cpu(m.words[2], stack + [k] + [m.words[1]]))
  {
    hide Step, GotImage, Words, Loaded;
    GotWords(dynamic, pltAddr, n, k);
    assert |m.words| == n + 3 by {
      Sizes(m, pltAddr, n);
    }
    assert m.words[k + 3] == m.words[3..][k];
    CallGoesThroughSlot(m, pltAddr, n, k, stack);
    PushReachesResolver(m, pltAddr, n, k, stack);
  }

  lemma Sizes(m: Machine, pltAddr: nat, n: nat)
    requires Loaded(m, pltAddr, n)
    ensures |m.words| == n + 3
  {
  }

  // ---------- .got ----------

  function Slot(buf: seq<byte>, off: nat): seq<byte>
    requires off + 8 <= |buf|
  {
    buf[off..off + 8]
  }

  /** Every RELATIVE symbol among the first `n` entries has its value in its slot. */
  ghost predicate Filled(l: Linker, buf: seq<byte>, es: seq<Dyn>, n: nat, value: SymId -> nat)
    requires n <= |es|
    reads l
  {
    forall i :: 0 <= i < n && es[i].rtype == R_RELATIVE ==> SlotFilled(l, buf, es[i].sym, value)
  }

  ghost predicate SlotFilled(l: Linker, buf: seq<byte>, s: SymId, value: SymId -> nat)
    reads l
  {
    s in l.syms && l.syms[s].gotOff + 8 <= |buf| && Slot(buf, l.syms[s].gotOff) == Le64(value(s))
  }

  /** Byte `p` belongs to the slot of a RELATIVE symbol. */
  ghost predicate InRelative(l: Linker, es: seq<Dyn>, n: nat, p: nat)
    requires n <= |es|
    reads l
  {
    exists i :: 0 <= i < n && es[i].rtype == R_RELATIVE && es[i].sym in l.syms
                && l.syms[es[i].sym].gotOff <= p < l.syms[es[i].sym].gotOff + 8
  }

  lemma GotRelocBounds(l: Linker, e: Dyn)
    requires l.Valid() && e in Entries(l.rela, RelaGot)
    ensures e.sym in l.syms && l.syms[e.sym].got && l.got.Some?
    ensures l.syms[e.sym].gotOff + 8 <= l.got.value.size
  {
    hide Slots, Linker.PltValid;
    var es := Entries(l.rela, RelaGot);
    var i :| 0 <= i < |es| && es[i] == e;
    assert GotRelocOk(l.syms, es[i]);
    assert OwnerOk(l.syms, l.gots, l.at, l.at[e.sym]);
    SlotsSplit(l.gots, l.at[e.sym]);
  }

  /** Filling one slot leaves the others as they were. */
  lemma OneSlot(l: Linker, before: seq<byte>, after: seq<byte>, es: seq<Dyn>, n: nat, value: SymId -> nat)
    requires l.Valid() && es == Entries(l.rela, RelaGot) && n < |es| && es[n].rtype == R_RELATIVE
    requires l.got.Some? && |before| == |after| == l.got.value.size && Filled(l, before, es, n, value)
    requires SlotFilled(l, after, es[n].sym, value)
    requires var off := l.syms[es[n].sym].gotOff; after[..off] == before[..off] && after[off + 8..] == before[off + 8..]
    ensures Filled(l, after, es, n + 1, value)
  {
    hide Linker.Valid, Le64;
    forall i | 0 <= i < n + 1 && es[i].rtype == R_RELATIVE
      ensures SlotFilled(l, after, es[i].sym, value)
    {
      var s, t := es[i].sym, es[n].sym;
      if s != t {
        assert SlotFilled(l, before, s, value);
        assert es[i] in es && es[n] in es;
        GotRelocBounds(l, es[i]);
        GotRelocBounds(l, es[n]);
        SlotRangesDisjoint(l, s, t);
        SameSlot(before, after, l.syms[s].gotOff, l.syms[t].gotOff);
      }
    }
  }

  lemma SameSlot(before: seq<byte>, after: seq<byte>, s: nat, t: nat)
    requires |before| == |after| && s + 8 <= |before| && t + 8 <= |before| && (s + 8 <= t || t + 8 <= s)
    requires after[..t] == before[..t] && after[t + 8..] == before[t + 8..]
    ensures Slot(after, s) == Slot(before, s)
  {
    if s + 8 <= t {
      assert after[s..s + 8] == after[..t][s..s + 8];
      assert before[s..s + 8] == before[..t][s..s + 8];
    } else {
      assert after[s..s + 8] == after[t + 8..][s - t - 8..s - t];
      assert before[s..s + 8] == before[t + 8..][s - t - 8..s - t];
    }
  }

  /** The .got half of `_finalize_got_and_plt`: all words zero but those of the RELATIVE entries. */
  method FinalizeGot(l: Linker, buf: array<byte>, value: SymId -> nat)
    requires l.Valid() && buf.Length == if l.got.Some? then l.got.value.size else 0
    modifies buf
    ensures var es := Entries(l.rela, RelaGot);
            && Filled(l, buf[..], es, |es|, value)
            && forall p :: 0 <= p < buf.Length && !InRelative(l, es, |es|, p) ==> buf[p] == 0
  {
    hide Linker.Valid, Le64, Slot;
    var es := Entries(l.rela, RelaGot);
    var _ := Put(buf, 0, Zeros(buf.Length));
    ZerosAreZero(buf.Length);
    assert forall p :: 0 <= p < buf.Length ==> buf[p] == buf[..buf.Length][p];
    for i := 0 to |es|
      invariant Filled(l, buf[..], es, i, value)
      invariant forall p :: 0 <= p < buf.Length && !InRelative(l, es, i, p) ==> buf[p] == 0
    {
      if es[i].rtype == R_RELATIVE {
        assert es[i] in es;
        GotRelocBounds(l, es[i]);
        FillSlot(l, buf, es, i, value);
      }
    }
  }

  lemma {:induction false} ZerosAreZero(n: nat)
    ensures forall p :: 0 <= p < n ==> Zeros(n)[p] == 0
  {
    if n > 0 {
      ZerosAreZero(n - 1);
    }
  }

  method FillSlot(l: Linker, buf: array<byte>, es: seq<Dyn>, i: nat, value: SymId -> nat)
    requires l.Valid() && l.got.Some? && buf.Length == l.got.value.size
    requires es == Entries(l.rela, RelaGot) && i < |es| && es[i].rtype == R_RELATIVE
    requires Filled(l, buf[..], es, i, value)
    requires forall p :: 0 <= p < buf.Length && !InRelative(l, es, i, p) ==> buf[p] == 0
    modifies buf
    ensures Filled(l, buf[..], es, i + 1, value)
    ensures forall p :: 0 <= p < buf.Length && !InRelative(l, es, i + 1, p) ==> buf[p] == 0
  {
    hide Linker.Valid, Le64, Filled;
    ghost var before := buf[..];
    assert es[i] in es;
    GotRelocBounds(l, es[i]);
    var off := l.syms[es[i].sym].gotOff;
    var next := Put(buf, off, Le64(value(es[i].sym)));
    ghost var after := buf[..];
    assert after[..off] == before[..off] by {
      assert after[..off] == buf[..next][..off];
    }
    assert after[off + 8..] == before[off + 8..] by {
      assert after[off + 8..] == buf[next..];
    }
    assert Slot(after, off) == buf[..next][off..];
    OneSlot(l, before, after, es, i, value);
    forall p | 0 <= p < buf.Length && !InRelative(l, es, i + 1, p)
      ensures buf[p] == 0
    {
      assert !InRelative(l, es, i, p);
      if p < off {
        assert buf[p] == after[..off][p] == before[p];
      } else {
        assert p >= off + 8;
        assert buf[p] == after[off + 8..][p - off - 8] == before[p];
      }
    }
  }
}
