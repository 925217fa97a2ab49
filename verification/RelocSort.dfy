/** Joining and sorting dynamic relocations: ld/ld_reloc.c, and the DT_RELACOUNT promise. */
module RelocSort {
  import opened Bytes
  import opened GotPlt
  import opened ListSort

  /** What `_cmp_reloc` looks up: where the section a relocation applies to starts in memory, and the .dynsym
      index of its symbol. */
  datatype Lookup = Lookup(base: Place -> nat, dynIndex: SymId -> int)

  /** `_reloc_addr`, in 64 bits. */
  function Addr(look: Lookup, e: Dyn): nat { (look.base(e.place) + e.offset) % 0x1_0000_0000_0000_0000 }

  /** Relocation numbers of the AMD64 ABI, which `lre_type` holds. */
  function Code(t: RelType): nat {
    match t
    case R_NONE => 0 case R_64 => 1 case R_PC32 => 2 case R_GOT32 => 3 case R_PLT32 => 4 case R_COPY => 5
    case R_GLOB_DAT => 6 case R_JUMP_SLOT => 7 case R_RELATIVE => 8 case R_GOTPCREL => 9 case R_32 => 10
    case R_32S => 11 case R_16 => 12 case R_PC16 => 13 case R_8 => 14 case R_PC8 => 15 case R_DTPMOD64 => 16
    case R_DTPOFF64 => 17 case R_TPOFF64 => 18 case R_TLSGD => 19 case R_TLSLD => 20 case R_DTPOFF32 => 21
    case R_GOTTPOFF => 22 case R_TPOFF32 => 23 case R_PC64 => 24 case R_GOTOFF64 => 25 case R_GOTPC32 => 26
    case R_GOTPC32_TLSDESC => 34 case R_TLSDESC_CALL => 35 case R_OTHER(c) => c
  }

  /** The named types have numbers of their own below 27, but for the two of TLS descriptors. */
  lemma CodesDiffer(t: RelType, u: RelType)
    requires !t.R_OTHER? && !u.R_OTHER?
    ensures Code(t) == Code(u) ==> t == u
    ensures Code(t) < 27 || (t.R_GOTPC32_TLSDESC? && Code(t) == 34) || (t.R_TLSDESC_CALL? && Code(t) == 35)
  {
  }

  /** `_cmp_reloc`. */
  function CmpReloc(look: Lookup, a: Dyn, b: Dyn): int {
    if a.rtype.R_RELATIVE? && !b.rtype.R_RELATIVE? then -1
    else if !a.rtype.R_RELATIVE? && b.rtype.R_RELATIVE? then 1
    else if a.rtype.R_RELATIVE? then
      if Addr(look, a) < Addr(look, b) then -1 else if Addr(look, a) > Addr(look, b) then 1 else 0
    else if look.dynIndex(a.sym) < look.dynIndex(b.sym) then -1
    else if look.dynIndex(a.sym) > look.dynIndex(b.sym) then 1
    else if Code(a.rtype) < Code(b.rtype) then -1
    else if Code(a.rtype) > Code(b.rtype) then 1
    else 0
  }

  function Order(look: Lookup): Cmp<Dyn> { (a, b) => CmpReloc(look, a, b) }

  lemma CmpRelocIsTotal(look: Lookup)
    ensures TotalPreorder(Order(look))
  {
    hide Code, Addr;
    var cmp := Order(look);
    forall a, b
      ensures Le(cmp, a, b) || Le(cmp, b, a)
    {
    }
    forall a, b, c | Le(cmp, a, b) && Le(cmp, b, c)
      ensures Le(cmp, a, c)
    {
    }
  }

  // ---------- counting ----------

  lemma {:induction false} CountApp(a: seq<Dyn>, b: seq<Dyn>)
    ensures CountRelative(a + b) == CountRelative(a) + CountRelative(b)
  {
    if b == [] {
      assert a + b == a;
    } else {
      CountApp(a, b[..|b| - 1]);
      assert (a + b)[..|a + b| - 1] == a + b[..|b| - 1];
    }
  }

  lemma {:induction false} CountWithout(s: seq<Dyn>, k: nat)
    requires k < |s|
    ensures CountRelative(s) == CountRelative(s[..k] + s[k + 1..]) + (if s[k].rtype.R_RELATIVE? then 1 else 0)
  {
    assert s == s[..k] + [s[k]] + s[k + 1..];
    CountApp(s[..k] + [s[k]], s[k + 1..]);
    CountSnoc(s[..k], s[k]);
    CountApp(s[..k], s[k + 1..]);
  }

  /** Taking the last element of one list out of a rearrangement of it. */
  lemma TakeOut(a: seq<Dyn>, b: seq<Dyn>) returns (k: nat)
    requires multiset(a) == multiset(b) && a != []
    ensures k < |b| && b[k] == a[|a| - 1] && multiset(a[..|a| - 1]) == multiset(b[..k] + b[k + 1..])
  {
    var n := |a| - 1;
    assert a == a[..n] + [a[n]];
    assert a[n] in multiset(b);
    k :| 0 <= k < |b| && b[k] == a[n];
    assert b == b[..k] + [b[k]] + b[k + 1..];
    assert multiset(a) == multiset(a[..n]) + multiset{a[n]};
    assert multiset(b) == multiset(b[..k] + b[k + 1..]) + multiset{a[n]};
    Cancel(multiset(a[..n]), multiset(b[..k] + b[k + 1..]), a[n]);
  }

  lemma Cancel(x: multiset<Dyn>, y: multiset<Dyn>, e: Dyn)
    requires x + multiset{e} == y + multiset{e}
    ensures x == y
  {
    forall z
      ensures x[z] == y[z]
    {
      assert (x + multiset{e})[z] == (y + multiset{e})[z];
    }
  }

  /** A rearrangement has as many RELATIVE entries. */
  lemma {:induction false} CountPermutes(a: seq<Dyn>, b: seq<Dyn>)
    requires multiset(a) == multiset(b)
    ensures CountRelative(a) == CountRelative(b)
    decreases |a|
  {
    assert |multiset(a)| == |a| && |multiset(b)| == |b|;
    if a != [] {
      var k := TakeOut(a, b);
      CountPermutes(a[..|a| - 1], b[..k] + b[k + 1..]);
      CountWithout(b, k);
    }
  }

  /** In a sorted list the RELATIVE entries are the first ones, as many as there are. */
  lemma {:induction false} RelativeFirst(look: Lookup, s: seq<Dyn>)
    requires Sorted(Order(look), s)
    ensures CountRelative(s) <= |s|
    ensures forall i :: 0 <= i < |s| ==> (s[i].rtype == R_RELATIVE <==> i < CountRelative(s))
  {
    if s != [] {
      var n := |s| - 1;
      RelativeFirst(look, s[..n]);
      if s[n].rtype.R_RELATIVE? {
        forall i | 0 <= i < n
          ensures s[i].rtype.R_RELATIVE?
        {
          assert Le(Order(look), s[i], s[n]);
        }
        AllRelativeCount(s[..n]);
      }
    }
  }

  lemma {:induction false} AllRelativeCount(s: seq<Dyn>)
    requires forall i :: 0 <= i < |s| ==> s[i].rtype.R_RELATIVE?
    ensures CountRelative(s) == |s|
  {
    if s != [] {
      AllRelativeCount(s[..|s| - 1]);
    }
  }

  // ---------- joining ----------

  /** The input relocation sections that go to the one sorted output section, in the order of its input list. */
  ghost predicate Complete(rela: map<RelaName, seq<Dyn>>, names: seq<RelaName>) {
    && (forall i, j :: 0 <= i < j < |names| ==> names[i] != names[j])
    && RelaPlt !in names
    && (forall n :: n in rela && n != RelaPlt ==> n in names)
  }

  function Joined(rela: map<RelaName, seq<Dyn>>, names: seq<RelaName>): seq<Dyn> {
    if names == [] then []
    else Joined(rela, names[..|names| - 1]) + Entries(rela, names[|names| - 1])
  }

  function If(b: bool, n: nat): nat { if b then n else 0 }

  function Share(rela: map<RelaName, seq<Dyn>>, names: seq<RelaName>, n: RelaName): nat {
    If(n in names, RelativeIn(rela, n))
  }

  lemma ShareSnoc(rela: map<RelaName, seq<Dyn>>, names: seq<RelaName>, k: nat, n: RelaName)
    requires k == |names| - 1 && names[k] !in names[..k]
    ensures Share(rela, names, n) == Share(rela, names[..k], n) + If(n == names[k], RelativeIn(rela, n))
  {
    hide RelativeIn;
    assert names == names[..k] + [names[k]];
  }

  function Total(rela: map<RelaName, seq<Dyn>>, names: seq<RelaName>): nat {
    Share(rela, names, RelaPlt) + Share(rela, names, RelaGot) + Share(rela, names, RelaBss)
    + Share(rela, names, DataRelLocal) + Share(rela, names, DataRelRoLocal) + Share(rela, names, DataRel)
    + Share(rela, names, DataRelRo)
  }

  lemma {:induction false} JoinedCount(rela: map<RelaName, seq<Dyn>>, names: seq<RelaName>)
    requires forall i, j :: 0 <= i < j < |names| ==> names[i] != names[j]
    ensures CountRelative(Joined(rela, names)) == Total(rela, names)
  {
    hide RelativeIn, Entries, Share;
    if names == [] {
      Nothing(rela);
    } else {
      var k := |names| - 1;
      JoinedCount(rela, names[..k]);
      CountApp(Joined(rela, names[..k]), Entries(rela, names[k]));
      EntriesCounted(rela, names[k]);
      ShareSnoc(rela, names, k, RelaPlt);
      ShareSnoc(rela, names, k, RelaGot);
      ShareSnoc(rela, names, k, RelaBss);
      ShareSnoc(rela, names, k, DataRelLocal);
      ShareSnoc(rela, names, k, DataRelRoLocal);
      ShareSnoc(rela, names, k, DataRel);
      ShareSnoc(rela, names, k, DataRelRo);
    }
  }

  lemma Nothing(rela: map<RelaName, seq<Dyn>>)
    ensures Total(rela, []) == 0 && CountRelative([]) == 0
  {
  }

  lemma EntriesCounted(rela: map<RelaName, seq<Dyn>>, n: RelaName)
    ensures RelativeIn(rela, n) == CountRelative(Entries(rela, n))
  {
  }

  lemma {:induction false} NoRelativeJumpSlots(plts: seq<SymId>)
    ensures CountRelative(JumpSlots(plts)) == 0
  {
    if plts != [] {
      var n := |plts| - 1;
      NoRelativeJumpSlots(plts[..n]);
      JumpSlotsSnoc(plts[..n], plts[n]);
      assert plts[..n] + [plts[n]] == plts;
      CountSnoc(JumpSlots(plts[..n]), Dyn(R_JUMP_SLOT, plts[n], Nowhere, 0, 0));
    }
  }

  /** `ls_relative_reloc` counts the joined section's RELATIVE entries. */
  lemma CounterIsExact(l: Linker, names: seq<RelaName>)
    requires l.Valid() && Complete(l.rela, names)
    ensures CountRelative(Joined(l.rela, names)) == l.relativeReloc
  {
    hide Joined, CountRelative, JumpSlots, Linker.GotValid, Logged, RelaGotOk;
    JoinedCount(l.rela, names);
    NoRelativeJumpSlots(l.plts);
    NoEntries(l.rela);
    assert RelativeIn(l.rela, RelaPlt) == 0;
    forall n: RelaName | n != RelaPlt
      ensures Share(l.rela, names, n) == RelativeIn(l.rela, n)
    {
    }
  }

  lemma NoEntries(rela: map<RelaName, seq<Dyn>>)
    ensures forall n: RelaName :: n !in rela ==> RelativeIn(rela, n) == 0
    ensures CountRelative([]) == 0
  {
  }

  /** `ld_reloc_join` for each input section, then `ld_reloc_sort`. */
  method JoinAndSort(l: Linker, look: Lookup, names: seq<RelaName>) returns (relocs: seq<Dyn>)
    requires l.Valid() && Complete(l.rela, names)
    ensures StablePermutation(Order(look), Joined(l.rela, names), relocs)
    ensures l.relativeReloc <= |relocs|
    ensures forall i :: 0 <= i < |relocs| ==> (relocs[i].rtype == R_RELATIVE <==> i < l.relativeReloc)
    ensures forall i, j :: 0 <= i < j < l.relativeReloc ==>
              (look.base(relocs[i].place) + relocs[i].offset) % 0x1_0000_0000_0000_0000
              <= (look.base(relocs[j].place) + relocs[j].offset) % 0x1_0000_0000_0000_0000
    ensures forall i, j :: l.relativeReloc <= i < j < |relocs| ==>
              && look.dynIndex(relocs[i].sym) <= look.dynIndex(relocs[j].sym)
              && (look.dynIndex(relocs[i].sym) == look.dynIndex(relocs[j].sym) ==>
                    Code(relocs[i].rtype) <= Code(relocs[j].rtype))
  {
    hide Linker.Valid, Entries, CountRelative, Equals, Complete, Code, Addr;
    var joined := [];
    for i := 0 to |names|
      invariant joined == Joined(l.rela, names[..i])
    {
      assert names[..i + 1][..i] == names[..i];
      joined := joined + Entries(l.rela, names[i]);
    }
    assert names[..|names|] == names;
    CmpRelocIsTotal(look);
    relocs := Sort(Order(look), joined);
    CounterIsExact(l, names);
    CountPermutes(joined, relocs);
    RelativeFirst(look, relocs);
    OrderedRuns(look, relocs, l.relativeReloc);
    forall e: Dyn
      ensures Addr(look, e) == (look.base(e.place) + e.offset) % 0x1_0000_0000_0000_0000
    {
      AddrIs(look, e);
    }
  }

  lemma AddrIs(look: Lookup, e: Dyn)
    ensures Addr(look, e) == (look.base(e.place) + e.offset) % 0x1_0000_0000_0000_0000
  {
  }

  lemma OrderedRuns(look: Lookup, s: seq<Dyn>, n: nat)
    requires Sorted(Order(look), s) && n <= |s|
    requires forall i :: 0 <= i < |s| ==> (s[i].rtype == R_RELATIVE <==> i < n)
    ensures forall i, j :: 0 <= i < j < n ==> Addr(look, s[i]) <= Addr(look, s[j])
    ensures forall i, j :: n <= i < j < |s| ==>
              && look.dynIndex(s[i].sym) <= look.dynIndex(s[j].sym)
              && (look.dynIndex(s[i].sym) == look.dynIndex(s[j].sym) ==> Code(s[i].rtype) <= Code(s[j].rtype))
  {
    hide Code, Addr;
    forall i, j | 0 <= i < j < |s|
      ensures j < n ==> Addr(look, s[i]) <= Addr(look, s[j])
      ensures n <= i ==>
                && look.dynIndex(s[i].sym) <= look.dynIndex(s[j].sym)
                && (look.dynIndex(s[i].sym) == look.dynIndex(s[j].sym) ==> Code(s[i].rtype) <= Code(s[j].rtype))
    {
      assert Le(Order(look), s[i], s[j]);
    }
  }
}
