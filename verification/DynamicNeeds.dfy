/** Which symbols get PLT entries, copy relocations and GOT entries, and which data gets dynamic relocations:
    the outcome of a whole run of scans in ld/amd64.c, in terms of what kind of object is linked and how each
    symbol is defined. */
module DynamicNeeds {
  import opened Bytes
  import opened GotPlt

  type Symbols = map<SymId, Symbol>

  // ---------- kinds of relocations and symbols ----------

  predicate Absolute(t: RelType) { t == R_64 || t == R_32 || t == R_32S || t == R_16 || t == R_8 }

  predicate PcRelative(t: RelType) { t == R_PC64 || t == R_PC32 || t == R_PC16 || t == R_PC8 }

  /** In a shared object another definition may take the symbol's place at run time. */
  predicate Preemptible(opt: Options, y: Symbol) { opt.dso && (y.undef || y.visible) }

  /** A function that is reached through the PLT: one of a DSO, or one that may be replaced. */
  predicate ReachedByPlt(opt: Options, y: Symbol) { !y.local && y.func && (y.inDso || Preemptible(opt, y)) }

  /** An object of a DSO that an executable gets a copy of. */
  predicate Copyable(opt: Options, y: Symbol) { !y.local && !y.func && opt.exec && y.inDso && !y.copyReloc }

  /** A call that is bound at link time: to a definition in the executable itself. */
  predicate BoundCall(opt: Options, y: Symbol) { opt.exec && !y.undef && !y.inDso }

  // ---------- one scan ----------

  /** Relocations that refer to the symbol itself, rather than to an entry made for it. */
  predicate Addresses(t: RelType) { Absolute(t) || PcRelative(t) }

  /** Relocations that want a PLT entry, if the symbol is reached by one. */
  predicate Calls(opt: Options, y: Symbol, t: RelType) { Addresses(t) || (t == R_PLT32 && !BoundCall(opt, y)) }

  lemma PltWanted(opt: Options, y: Symbol, t: RelType)
    ensures WantsPlt(opt, y, t) <==> ReachedByPlt(opt, y) && Calls(opt, y, t)
  {
  }

  lemma CopyWanted(opt: Options, y: Symbol, t: RelType)
    ensures Copies(opt, y, t) <==> Copyable(opt, y) && Addresses(t)
  {
  }

  /** What a scan does to the definition and the entries of its symbol. */
  lemma ScanMeans(opt: Options, y: Symbol, y': Symbol, t: RelType)
    requires Evolves(opt, y, y', t)
    ensures y'.local == y.local && y'.func == y.func && y'.visible == y.visible && y'.prot == y.prot
    ensures y'.plt <==> y.plt || (ReachedByPlt(opt, y) && Calls(opt, y, t))
    ensures y'.funcAddr <==> y.funcAddr || (ReachedByPlt(opt, y) && Absolute(t))
    ensures y'.copyReloc <==> y.copyReloc || (Copyable(opt, y) && Addresses(t))
    ensures y'.copyReloc && !y.copyReloc ==> !y'.inDso && !y'.undef
    ensures y'.copyReloc == y.copyReloc ==> y'.inDso == y.inDso && y'.undef == y.undef && y'.copyOff == y.copyOff
    ensures (y.got ==> y'.got && y'.gotOff == y.gotOff) && y'.got == (y.got || SlotsWanted(opt, y, t) > 0)
  {
    PltWanted(opt, y, t);
    CopyWanted(opt, y, t);
    assert Absolute(t) ==> Calls(opt, y, t);
    hide SlotsWanted, WantsPlt, Copies, Addresses, ReachedByPlt, Calls;
  }

  // ---------- what one scan adds ----------

  function Jump(s: SymId): Dyn { Dyn(R_JUMP_SLOT, s, Nowhere, 0, 0) }

  /** The entry for a 64-bit address in data. */
  function InData(t: RelType, r: Reloc): Dyn { Dyn(t, r.sym, Input(r.section), r.offset, r.addend) }

  function DataSection(local: bool, writable: bool): RelaName {
    match (local, writable)
    case (true, true) => DataRelLocal
    case (true, false) => DataRelRoLocal
    case (false, true) => DataRel
    case (false, false) => DataRelRo
  }

  /** A 64-bit address that is not known before run time: the output may move, or the symbol be replaced. */
  predicate Unsettled(opt: Options, y: Symbol) {
    if y.local then opt.pie || opt.dso else !y.inDso && (Preemptible(opt, y) || opt.pie || opt.dso)
  }

  /** RELATIVE when only the output moves. */
  function DataType(opt: Options, y: Symbol): RelType {
    if !y.local && Preemptible(opt, y) then R_64 else R_RELATIVE
  }

  /** The address in a GOT entry is looked up at run time: it is defined elsewhere, or in a shared object can be
      replaced or is protected. */
  predicate LookedUp(opt: Options, y: Symbol) { y.undef || y.inDso || (opt.dso && (y.visible || y.prot)) }

  /** Defined in the executable being linked, so its thread offset is known. */
  predicate KnownHere(opt: Options, y: Symbol) { !opt.dynamicLink || (!opt.dso && !y.undef && !y.inDso) }

  /** The GOT entries a relocation asks for, at `off`. */
  function GotOwed(opt: Options, y: Symbol, s: SymId, t: RelType, off: nat): seq<Dyn> {
    if t == R_GOT32 || t == R_GOTPCREL then
      [Dyn(if LookedUp(opt, y) then R_GLOB_DAT else R_RELATIVE, s, InGot, off, 0)]
    else if KnownHere(opt, y) then []
    else if t == R_GOTTPOFF || (t == R_TLSGD && !opt.dso) then [Dyn(R_TPOFF64, s, InGot, off, 0)]
    else if t == R_TLSGD then [Dyn(R_DTPMOD64, s, InGot, off, 0), Dyn(R_DTPOFF64, s, InGot, off + 8, 0)]
    else if t == R_TLSLD then [Dyn(R_DTPMOD64, s, InGot, off, 0)]
    else []
  }

  lemma GotOwedIs(opt: Options, y: Symbol, s: SymId, t: RelType, off: nat)
    ensures Holding(KindWanted(opt, y, t), s, off) == GotOwed(opt, y, s, t, off)
    ensures SlotsWanted(opt, y, t) == 0 <==> GotOwed(opt, y, s, t, off) == []
  {
    WidthOfKinds(opt, y, t);
    hide SlotsWanted;
    LookUps(opt, y);
    hide RequireGlobDat, LookedUp;
  }

  lemma LookUps(opt: Options, y: Symbol)
    ensures RequireGlobDat(opt, y) <==> LookedUp(opt, y)
  {
  }

  predicate OfData(n: RelaName) { n == DataRelLocal || n == DataRelRoLocal || n == DataRel || n == DataRelRo }

  lemma PltParts(opt: Options, y: Symbol, s: SymId, n: RelaName)
    ensures Of(PltEntries(opt, y, s), n) == if n == RelaPlt && RequirePlt(opt, y) && !y.plt then [Jump(s)] else []
  {
    hide RequirePlt;
    OfOne((RelaPlt, Jump(s)), n);
  }

  lemma CopyParts(opt: Options, y: Symbol, s: SymId, off: nat, n: RelaName)
    ensures Of(CopyEntries(opt, y, s, off), n)
            == if n == RelaBss && RequireCopy(opt, y) && !y.copyReloc then [Dyn(R_COPY, s, InDynbss, off, 0)] else []
  {
    hide RequireCopy;
    OfOne((RelaBss, Dyn(R_COPY, s, InDynbss, off, 0)), n);
  }

  lemma LocalParts(opt: Options, y: Symbol, r: Reloc, n: RelaName)
    requires y.local
    ensures Of(LocalEntries(opt, y, r), n)
            == if r.rtype == R_64 && Unsettled(opt, y) && n == DataSection(true, r.writable)
               then [InData(R_RELATIVE, r)] else []
  {
    OfOne((DataSection(true, r.writable), InData(R_RELATIVE, r)), n);
  }

  lemma AddressParts(opt: Options, y: Symbol, r: Reloc, off: nat, n: RelaName)
    requires !y.local
    ensures Of(AddressEntries(opt, y, r, off), n)
            == if n == RelaBss && Copyable(opt, y) then [Dyn(R_COPY, r.sym, InDynbss, off, 0)]
               else if r.rtype == R_64 && Unsettled(opt, y) && n == DataSection(false, r.writable)
               then [InData(DataType(opt, y), r)] else []
  {
    CopyParts(opt, y, r.sym, off, n);
    OfOne((DataSection(false, r.writable), InData(DataType(opt, y), r)), n);
    hide Of;
  }

  /** Everything one scan adds, section by section. */
  ghost predicate Owed(opt: Options, y: Symbol, y': Symbol, r: Reloc, es: seq<Entry>) {
    && Of(es, RelaPlt) == (if ReachedByPlt(opt, y) && Calls(opt, y, r.rtype) && !y.plt then [Jump(r.sym)] else [])
    && Of(es, RelaBss)
       == (if Copyable(opt, y) && Addresses(r.rtype) then [Dyn(R_COPY, r.sym, InDynbss, y'.copyOff, 0)] else [])
    && (forall n :: OfData(n) ==>
          Of(es, n) == if r.rtype == R_64 && Unsettled(opt, y) && n == DataSection(y.local, r.writable)
                       then [InData(DataType(opt, y), r)] else [])
    && Of(es, RelaGot) == if y.got then [] else GotOwed(opt, y, r.sym, r.rtype, y'.gotOff)
  }

  lemma CreatedIsOwed(opt: Options, y: Symbol, r: Reloc, y': Symbol)
    ensures Owed(opt, y, y', r, Created(opt, y, r, y'))
  {
    hide Created, Of, WantsPlt, RequirePlt, RequireCopy,
         ReachedByPlt, Unsettled, GotOwed, GotEntries, AddressEntries, PltEntries,
      CopyEntries, LocalEntries, Holding, KindWanted;
    CreatedHolds(opt, y, r, y');
    GotOwedIs(opt, y, r.sym, r.rtype, y'.gotOff);
    hide SlotsWanted;
    forall n: RelaName | n != RelaGot
      ensures Of(Created(opt, y, r, y'), n) == OwedIn(opt, y, r, y', n)
    {
      CreatedIn(opt, y, r, y', n);
    }
  }

  /** The same outside .rela.got. */
  function OwedIn(opt: Options, y: Symbol, r: Reloc, y': Symbol, n: RelaName): seq<Dyn> {
    if n == RelaPlt then (if ReachedByPlt(opt, y) && Calls(opt, y, r.rtype) && !y.plt then [Jump(r.sym)] else [])
    else if n == RelaBss then
      (if Copyable(opt, y) && Addresses(r.rtype) then [Dyn(R_COPY, r.sym, InDynbss, y'.copyOff, 0)] else [])
    else if r.rtype == R_64 && Unsettled(opt, y) && n == DataSection(y.local, r.writable)
         then [InData(DataType(opt, y), r)]
    else []
  }

  lemma CreatedIn(opt: Options, y: Symbol, r: Reloc, y': Symbol, n: RelaName)
    requires n != RelaGot
    ensures Of(Created(opt, y, r, y'), n) == OwedIn(opt, y, r, y', n)
  {
    hide Of, Unsettled, WantsPlt, GotEntries, AddressEntries, PltEntries, CopyEntries, LocalEntries;
    var plt, copy := PltEntries(opt, y, r.sym), CopyEntries(opt, y, r.sym, y'.copyOff);
    PltWanted(opt, y, r.rtype);
    PltParts(opt, y, r.sym, n);
    CopyParts(opt, y, r.sym, y'.copyOff, n);
    OfApp(plt, copy, n);
    OfApp(plt, AddressEntries(opt, y, r, y'.copyOff), n);
    OfOne((RelaPlt, Jump(r.sym)), n);
    if y.local {
      LocalParts(opt, y, r, n);
    } else {
      AddressParts(opt, y, r, y'.copyOff, n);
    }
    GotElsewhere(opt, y, r.sym, r.rtype, y'.gotOff, n);
    RequiredMeans(opt, y);
    hide RequirePlt, RequireCopy, ReachedByPlt;
  }

  lemma RequiredMeans(opt: Options, y: Symbol)
    ensures ReachedByPlt(opt, y) <==> !y.local && RequirePlt(opt, y)
    ensures Copyable(opt, y) <==> !y.local && RequireCopy(opt, y) && !y.copyReloc
  {
  }

  lemma GotElsewhere(opt: Options, y: Symbol, s: SymId, t: RelType, off: nat, n: RelaName)
    requires n != RelaGot
    ensures Of(GotEntries(opt, y, s, t, off), n) == []
  {
    hide Of, RequireGlobDat, SlotsWanted;
    OfOne(GotEntry(R_GLOB_DAT, s, off), n);
    OfOne(GotEntry(R_RELATIVE, s, off), n);
    OfOne(GotEntry(R_TPOFF64, s, off), n);
    OfOne(GotEntry(R_DTPMOD64, s, off), n);
    OfOne(GotEntry(R_DTPOFF64, s, off + 8), n);
    OfTwo(GotEntry(R_DTPMOD64, s, off), GotEntry(R_DTPOFF64, s, off + 8), n);
  }

  // ---------- a run of scans ----------

  /** What relocation `i` of a run adds: exactly what the definition of its symbol at that point calls for. */
  lemma RelocationAdds(opt: Options, trace: seq<Symbols>, rs: seq<Reloc>, added: seq<seq<Entry>>, i: nat)
    requires Traced(opt, trace, rs, added) && i < |rs|
    ensures rs[i].sym in trace[i] && rs[i].sym in trace[i + 1]
    ensures Owed(opt, trace[i][rs[i].sym], trace[i + 1][rs[i].sym], rs[i], added[i])
  {
    hide Owed, Evolves, Created, Symbolic;
    assert OneScan(opt, trace[i], trace[i + 1], rs[i], added[i]);
    CreatedIsOwed(opt, trace[i][rs[i].sym], rs[i], trace[i + 1][rs[i].sym]);
  }

  /** Some relocation among the first `n` refers to `s` by its address. */
  ghost predicate Addressed(rs: seq<Reloc>, s: SymId, n: nat)
    requires n <= |rs|
  {
    exists i :: 0 <= i < n && rs[i].sym == s && Addresses(rs[i].rtype)
  }

  /** Some relocation among the first `n` refers to function `y` other than by a call bound at link time. */
  ghost predicate NeedsPlt(opt: Options, y: Symbol, rs: seq<Reloc>, s: SymId, n: nat)
    requires n <= |rs|
  {
    exists i :: 0 <= i < n && rs[i].sym == s && Calls(opt, y, rs[i].rtype)
  }

  lemma OneMoreAddress(rs: seq<Reloc>, s: SymId, n: nat)
    requires n < |rs|
    ensures Addressed(rs, s, n + 1) <==> Addressed(rs, s, n) || (rs[n].sym == s && Addresses(rs[n].rtype))
  {
    hide Addresses;
  }

  lemma OneMoreCall(opt: Options, y: Symbol, rs: seq<Reloc>, s: SymId, n: nat)
    requires n < |rs|
    ensures NeedsPlt(opt, y, rs, s, n + 1)
            <==> NeedsPlt(opt, y, rs, s, n) || (rs[n].sym == s && Calls(opt, y, rs[n].rtype))
  {
    hide Calls;
  }

  /** What no scan changes, and what a copy does to a definition. */
  lemma {:induction false} DefinitionAlong(opt: Options, trace: seq<Symbols>, rs: seq<Reloc>, added: seq<seq<Entry>>,
                                           s: SymId, n: nat)
    requires Traced(opt, trace, rs, added) && s in trace[0] && n <= |rs|
    ensures s in trace[n]
    ensures var y, z, copied := trace[0][s], trace[n][s], Copyable(opt, trace[0][s]) && Addressed(rs, s, n);
            && z.local == y.local && z.func == y.func && z.visible == y.visible && z.prot == y.prot
            && z.copyReloc == (y.copyReloc || copied)
            && z.inDso == (y.inDso && !copied) && z.undef == (y.undef && !copied)
  {
    hide Evolves, Created, Symbolic, Addressed, Addresses;
    if n == 0 {
      NoneAddressed(rs, s);
    } else {
      DefinitionAlong(opt, trace, rs, added, s, n - 1);
      OneMoreAddress(rs, s, n - 1);
      assert OneScan(opt, trace[n - 1], trace[n], rs[n - 1], added[n - 1]);
      if rs[n - 1].sym == s {
        ScanMeans(opt, trace[n - 1][s], trace[n][s], rs[n - 1].rtype);
      }
    }
  }

  lemma NoneAddressed(rs: seq<Reloc>, s: SymId)
    ensures !Addressed(rs, s, 0)
  {
  }

  /** After any run a symbol has a PLT entry exactly when it had one, or is a function of a DSO or one that may
      be replaced, and some relocation refers to it other than by a call bound at link time. */
  lemma {:induction false} FunctionsGetPlt(opt: Options, trace: seq<Symbols>, rs: seq<Reloc>, added: seq<seq<Entry>>,
                                           s: SymId, n: nat)
    requires Traced(opt, trace, rs, added) && s in trace[0] && n <= |rs|
    ensures s in trace[n]
    ensures trace[n][s].plt <==>
              trace[0][s].plt || (ReachedByPlt(opt, trace[0][s]) && NeedsPlt(opt, trace[0][s], rs, s, n))
  {
    hide Evolves, Created, Symbolic, NeedsPlt, Addressed, Addresses;
    DefinitionAlong(opt, trace, rs, added, s, n);
    if n == 0 {
      NothingCalled(opt, trace[0][s], rs, s);
    } else {
      FunctionsGetPlt(opt, trace, rs, added, s, n - 1);
      DefinitionAlong(opt, trace, rs, added, s, n - 1);
      OneMoreCall(opt, trace[0][s], rs, s, n - 1);
      assert OneScan(opt, trace[n - 1], trace[n], rs[n - 1], added[n - 1]);
      if rs[n - 1].sym == s {
        ScanMeans(opt, trace[n - 1][s], trace[n][s], rs[n - 1].rtype);
      }
    }
  }

  lemma NothingCalled(opt: Options, y: Symbol, rs: seq<Reloc>, s: SymId)
    ensures !NeedsPlt(opt, y, rs, s, 0)
  {
  }

  /** Its PLT entry becomes its address exactly when some absolute relocation refers to it. */
  lemma {:induction false} FunctionAddressTaken(opt: Options, trace: seq<Symbols>, rs: seq<Reloc>,
                                               added: seq<seq<Entry>>, s: SymId, n: nat)
    requires Traced(opt, trace, rs, added) && s in trace[0] && n <= |rs|
    ensures s in trace[n]
    ensures trace[n][s].funcAddr <==>
              || trace[0][s].funcAddr
              || (ReachedByPlt(opt, trace[0][s]) && exists i :: 0 <= i < n && rs[i].sym == s && Absolute(rs[i].rtype))
  {
    hide Evolves, OneScan, Addressed, Addresses, Absolute, Calls;
    DefinitionAlong(opt, trace, rs, added, s, n);
    if n > 0 {
      FunctionAddressTaken(opt, trace, rs, added, s, n - 1);
      DefinitionAlong(opt, trace, rs, added, s, n - 1);
      StepFor(opt, trace, rs, added, s, n - 1);
      if rs[n - 1].sym == s {
        ScanMeans(opt, trace[n - 1][s], trace[n][s], rs[n - 1].rtype);
      }
    }
  }

  /** And then it has one JUMP_SLOT, and otherwise none. */
  lemma PltMeansJumpSlot(l: Linker, s: SymId)
    requires l.Valid() && s in l.syms
    ensures ForSym(Entries(l.rela, RelaPlt), s) == if l.syms[s].plt then [Jump(s)] else []
  {
    hide Linker.GotValid, Linker.RelaValid, ForSym, JumpSlots;
    if l.plts == [] {
      ForSymOne(Jump(s), s);
    } else {
      JumpsOf(l.plts, s);
    }
  }

  lemma {:induction false} JumpsOf(plts: seq<SymId>, s: SymId)
    requires forall i, j :: 0 <= i < j < |plts| ==> plts[i] != plts[j]
    ensures ForSym(JumpSlots(plts), s) == if s in plts then [Jump(s)] else []
  {
    hide JumpSlots;
    if plts == [] {
      JumpSlotsSnoc(plts, 0);
    } else {
      var n := |plts| - 1;
      JumpsOf(plts[..n], s);
      JumpSlotsSnoc(plts[..n], plts[n]);
      assert plts[..n] + [plts[n]] == plts;
      ForSymApp(JumpSlots(plts[..n]), [Jump(plts[n])], s);
      ForSymOne(Jump(plts[n]), s);
    }
  }

  /** A PLT32 stays one exactly when its function is reached through the PLT and the call is not bound. */
  lemma CallsBound(opt: Options, trace: seq<Symbols>, rs: seq<Reloc>, added: seq<seq<Entry>>, i: nat)
    requires Traced(opt, trace, rs, added) && i < |rs| && rs[i].sym in trace[0]
    ensures var r, y := Processed(opt, trace[i], rs[i]), trace[0][rs[i].sym];
            && (rs[i].rtype == R_PLT32 ==>
                  r.rtype == if ReachedByPlt(opt, y) && !BoundCall(opt, y) then R_PLT32 else R_PC32)
            && (rs[i].rtype != R_PLT32 ==> r.rtype == rs[i].rtype)
            && r == rs[i].(rtype := r.rtype)
  {
    hide Evolves, Created, Symbolic, WantsPlt, Addressed, Addresses;
    DefinitionAlong(opt, trace, rs, added, rs[i].sym, i);
    PltWanted(opt, trace[i][rs[i].sym], R_PLT32);
    assert !Addresses(R_PLT32) by {
      NotAnAddress();
    }
  }

  lemma NotAnAddress()
    ensures !Addresses(R_PLT32)
  {
  }

  // ---------- the sections after a run ----------

  /** One relocation more, as far as section `n` and symbol `s` are concerned. */
  lemma OneMoreEntry(added: seq<seq<Entry>>, k: nat, n: RelaName, s: SymId)
    requires k < |added|
    ensures Of(Flat(added[..k + 1]), n) == Of(Flat(added[..k]), n) + Of(added[k], n)
    ensures ForSym(Of(Flat(added[..k + 1]), n), s) == ForSym(Of(Flat(added[..k]), n), s) + ForSym(Of(added[k], n), s)
    ensures Flat(added[..0]) == [] && Of([], n) == [] && ForSym([], s) == []
  {
    hide Of, ForSym;
    assert added[..k + 1][..k] == added[..k] && added[..0] == [];
    OfApp(Flat(added[..k]), added[k], n);
    ForSymApp(Of(Flat(added[..k]), n), Of(added[k], n), s);
    OfOne((n, Jump(s)), n);
    ForSymOne(Jump(s), s);
  }

  lemma NoEntries(added: seq<seq<Entry>>, n: RelaName, s: SymId)
    ensures Flat(added[..0]) == [] && Of(Flat(added[..0]), n) == [] && ForSym(Of(Flat(added[..0]), n), s) == []
  {
    assert added[..0] == [];
  }

  /** One scan as it concerns symbol `s`. */
  lemma StepFor(opt: Options, trace: seq<Symbols>, rs: seq<Reloc>, added: seq<seq<Entry>>, s: SymId, k: nat)
    requires Traced(opt, trace, rs, added) && k < |rs| && s in trace[k]
    ensures s in trace[k + 1] && (rs[k].sym != s ==> trace[k + 1][s] == trace[k][s])
    ensures rs[k].sym == s ==> Evolves(opt, trace[k][s], trace[k + 1][s], rs[k].rtype)
  {
    hide Evolves, Created, Symbolic;
    assert OneScan(opt, trace[k], trace[k + 1], rs[k], added[k]);
  }

  lemma CopyStep(opt: Options, trace: seq<Symbols>, rs: seq<Reloc>, added: seq<seq<Entry>>, s: SymId, k: nat)
    requires Traced(opt, trace, rs, added) && k < |rs| && s in trace[k] && s in trace[k + 1]
    ensures ForSym(Of(added[k], RelaBss), s)
            == if rs[k].sym == s && Copyable(opt, trace[k][s]) && Addresses(rs[k].rtype)
               then [Dyn(R_COPY, s, InDynbss, trace[k + 1][s].copyOff, 0)] else []
  {
    hide OneScan, Addresses, Copyable, Of, ForSym, GotOwed, Unsettled, ReachedByPlt, Calls;
    RelocationAdds(opt, trace, rs, added, k);
    ForSymOne(Dyn(R_COPY, rs[k].sym, InDynbss, trace[k + 1][rs[k].sym].copyOff, 0), s);
  }

  lemma GotStep(opt: Options, trace: seq<Symbols>, rs: seq<Reloc>, added: seq<seq<Entry>>, s: SymId, k: nat)
    requires Traced(opt, trace, rs, added) && k < |rs| && s in trace[k] && s in trace[k + 1]
    ensures ForSym(Of(added[k], RelaGot), s)
            == if rs[k].sym == s && !trace[k][s].got
               then GotOwed(opt, trace[k][s], s, rs[k].rtype, trace[k + 1][s].gotOff)
               else []
    ensures trace[k][s].got ==> trace[k + 1][s].got && trace[k + 1][s].gotOff == trace[k][s].gotOff
    ensures !trace[k][s].got && !trace[k + 1][s].got ==> ForSym(Of(added[k], RelaGot), s) == []
  {
    hide OneScan, Addresses, Copyable, Of, ForSym, GotOwed, Unsettled, ReachedByPlt, Calls, Evolves;
    RelocationAdds(opt, trace, rs, added, k);
    StepFor(opt, trace, rs, added, s, k);
    GotOwedTo(opt, trace[k][rs[k].sym], rs[k].sym, rs[k].rtype, trace[k + 1][rs[k].sym].gotOff, s);
    ForSymOne(Jump(s), s);
    if rs[k].sym == s {
      ScanMeans(opt, trace[k][s], trace[k + 1][s], rs[k].rtype);
      GotOwedIs(opt, trace[k][s], s, rs[k].rtype, trace[k + 1][s].gotOff);
    }
  }

  /** An object gets one COPY entry, for the place it was given, exactly when it is one of a DSO that an
      executable refers to by its address. */
  lemma {:induction false} CopiesOnce(opt: Options, trace: seq<Symbols>, rs: seq<Reloc>,
                                      added: seq<seq<Entry>>, s: SymId, n: nat)
    requires Traced(opt, trace, rs, added) && s in trace[0] && n <= |rs|
    ensures s in trace[n]
    ensures ForSym(Of(Flat(added[..n]), RelaBss), s)
            == if Copyable(opt, trace[0][s]) && Addressed(rs, s, n)
               then [Dyn(R_COPY, s, InDynbss, trace[n][s].copyOff, 0)] else []
  {
    hide Evolves, OneScan, Addressed, Addresses, Of, ForSym, Flat, GotOwed, Unsettled, ReachedByPlt;
    DefinitionAlong(opt, trace, rs, added, s, n);
    if n == 0 {
      NoEntries(added, RelaBss, s);
      NoneAddressed(rs, s);
    } else {
      CopiesOnce(opt, trace, rs, added, s, n - 1);
      DefinitionAlong(opt, trace, rs, added, s, n - 1);
      OneMoreAddress(rs, s, n - 1);
      OneMoreEntry(added, n - 1, RelaBss, s);
      StepFor(opt, trace, rs, added, s, n - 1);
      CopyStep(opt, trace, rs, added, s, n - 1);
      if rs[n - 1].sym == s {
        ScanMeans(opt, trace[n - 1][s], trace[n][s], rs[n - 1].rtype);
      }
    }
  }

  /** The entries for 64-bit addresses that a data relocation section gets, in the order of the relocations. */
  ghost function DataFor(opt: Options, trace: seq<Symbols>, rs: seq<Reloc>, n: RelaName, k: nat): seq<Dyn>
    requires k <= |rs| < |trace|
  {
    if k == 0 then []
    else
      var r := rs[k - 1];
      DataFor(opt, trace, rs, n, k - 1)
      + if r.sym in trace[k - 1] && r.rtype == R_64 && Unsettled(opt, trace[k - 1][r.sym])
           && n == DataSection(trace[k - 1][r.sym].local, r.writable)
        then [InData(DataType(opt, trace[k - 1][r.sym]), r)] else []
  }

  lemma {:induction false} DataAfter(opt: Options, trace: seq<Symbols>, rs: seq<Reloc>,
                                     added: seq<seq<Entry>>, n: RelaName, k: nat)
    requires Traced(opt, trace, rs, added) && k <= |rs| && OfData(n)
    ensures Of(Flat(added[..k]), n) == DataFor(opt, trace, rs, n, k)
  {
    hide Evolves, Created, Symbolic, Of, ForSym, Flat,
         GotOwed, Unsettled, ReachedByPlt, Copyable, Addresses, Calls, OneScan;
    if k == 0 {
      NoEntries(added, n, 0);
    } else {
      DataAfter(opt, trace, rs, added, n, k - 1);
      OneMoreEntry(added, k - 1, n, 0);
      RelocationAdds(opt, trace, rs, added, k - 1);
    }
  }

  lemma GotOwedTo(opt: Options, y: Symbol, s: SymId, t: RelType, off: nat, x: SymId)
    ensures ForSym(GotOwed(opt, y, s, t, off), x) == if x == s then GotOwed(opt, y, s, t, off) else []
  {
    hide ForSym, KindWanted, Holding;
    GotOwedIs(opt, y, s, t, off);
    HoldingForSym(KindWanted(opt, y, t), s, off, x);
  }

  /** A symbol without an entry has no relocation in .rela.got. */
  lemma {:induction false} GotUntouched(opt: Options, trace: seq<Symbols>, rs: seq<Reloc>,
                                        added: seq<seq<Entry>>, s: SymId, n: nat)
    requires Traced(opt, trace, rs, added) && s in trace[0] && n <= |rs|
    ensures s in trace[n] && (!trace[n][s].got ==> !trace[0][s].got && ForSym(Of(Flat(added[..n]), RelaGot), s) == [])
  {
    hide Evolves, OneScan, Addressed, Addresses, Of, ForSym, Flat, GotOwed, Unsettled, ReachedByPlt, Copyable, Calls;
    if n == 0 {
      NoEntries(added, RelaGot, s);
    } else {
      GotUntouched(opt, trace, rs, added, s, n - 1);
      OneMoreEntry(added, n - 1, RelaGot, s);
      StepFor(opt, trace, rs, added, s, n - 1);
      GotStep(opt, trace, rs, added, s, n - 1);
    }
  }

  /** The first relocation that makes an entry for its symbol decides what the GOT holds for it: its
      relocations after the whole run are those that one calls for, by its symbol's definition at that point. */
  lemma {:induction false} FirstDecides(opt: Options, trace: seq<Symbols>, rs: seq<Reloc>,
                                        added: seq<seq<Entry>>, i: nat, n: nat)
    requires Traced(opt, trace, rs, added) && i < n <= |rs| && rs[i].sym in trace[0]
    requires rs[i].sym in trace[i] && rs[i].sym in trace[i + 1]
             && !trace[i][rs[i].sym].got && trace[i + 1][rs[i].sym].got
    ensures var s := rs[i].sym;
            && s in trace[n] && trace[n][s].got && trace[n][s].gotOff == trace[i + 1][s].gotOff
            && ForSym(Of(Flat(added[..n]), RelaGot), s) == GotOwed(opt, trace[i][s], s, rs[i].rtype, trace[n][s].gotOff)
  {
    hide Evolves, OneScan, Addressed, Addresses, Of, ForSym, Flat, GotOwed, Unsettled, ReachedByPlt, Copyable, Calls;
    var s := rs[i].sym;
    OneMoreEntry(added, n - 1, RelaGot, s);
    if n == i + 1 {
      GotUntouched(opt, trace, rs, added, s, i);
    } else {
      FirstDecides(opt, trace, rs, added, i, n - 1);
    }
    StepFor(opt, trace, rs, added, s, n - 1);
    GotStep(opt, trace, rs, added, s, n - 1);
  }

  /** A relocation makes an entry exactly when its symbol has none and it calls for one. */
  lemma EntryMade(opt: Options, trace: seq<Symbols>, rs: seq<Reloc>, added: seq<seq<Entry>>, i: nat)
    requires Traced(opt, trace, rs, added) && i < |rs|
    ensures var s := rs[i].sym;
            && s in trace[i] && s in trace[i + 1]
            && trace[i + 1][s].got
               == (trace[i][s].got || GotOwed(opt, trace[i][s], s, rs[i].rtype, trace[i + 1][s].gotOff) != [])
  {
    hide Evolves, Created, Symbolic, GotOwed;
    assert OneScan(opt, trace[i], trace[i + 1], rs[i], added[i]);
    var s := rs[i].sym;
    ScanMeans(opt, trace[i][s], trace[i + 1][s], rs[i].rtype);
    GotOwedIs(opt, trace[i][s], s, rs[i].rtype, trace[i + 1][s].gotOff);
  }
}
