/** The relocation scan of ld/amd64.c: reserving .got, .got.plt and .plt entries, creating dynamic
    relocations, and what applying the relocations later relies on. */
module GotPlt {
  import opened Bytes

  type SymId = nat

  datatype Options = Options(dynamicLink: bool, dso: bool, pie: bool, exec: bool)

  /** A resolved `ld_symbol`. `inDso`: its defining object is a DSO; `undef`: its section index is
      SHN_UNDEF; `visible`: STV_DEFAULT and not made local by a version script. */
  datatype Symbol = Symbol(
    local: bool, func: bool, visible: bool, prot: bool, undef: bool, inDso: bool,
    got: bool, gotOff: nat, plt: bool, funcAddr: bool, copyReloc: bool, copyOff: nat,
    tlsLd: bool, dynrel: bool)

  datatype RelType =
    | R_NONE | R_64 | R_32 | R_32S | R_16 | R_8
    | R_PLT32 | R_PC64 | R_PC32 | R_PC16 | R_PC8
    | R_GOTOFF64 | R_GOTPC32 | R_GOT32 | R_GOTPCREL
    | R_TLSGD | R_TLSLD | R_DTPOFF32 | R_GOTTPOFF | R_TPOFF32
    | R_GOTPC32_TLSDESC | R_TLSDESC_CALL | R_OTHER(code: nat)
    | R_RELATIVE | R_JUMP_SLOT | R_GLOB_DAT | R_COPY | R_DTPMOD64 | R_DTPOFF64 | R_TPOFF64

  /** A relocation entry at an offset of input section `section`; `writable`: that section has SHF_WRITE. */
  datatype Reloc = Reloc(rtype: RelType, sym: SymId, section: nat, offset: nat, addend: int, writable: bool)

  datatype Section = Section(entsize: nat, size: nat)

  datatype RelaName = RelaPlt | RelaGot | RelaBss | DataRelLocal | DataRelRoLocal | DataRel | DataRelRo

  /** The section a dynamic relocation applies to; PLT relocations get theirs at the end. */
  datatype Place = Input(section: nat) | InGot | InDynbss | Nowhere

  datatype Dyn = Dyn(rtype: RelType, sym: SymId, place: Place, offset: nat, addend: int)

  datatype Relax = RELAX_NONE | INIT_EXEC | LOCAL_EXEC

  // ---------- which entries a relocation requires ----------

  predicate IsAbsolute(t: RelType) {
    t.R_64? || t.R_32? || t.R_32S? || t.R_16? || t.R_8?
  }

  /** Relocations that refer to the symbol's own address. */
  predicate Direct(t: RelType) {
    IsAbsolute(t) || t.R_PC64? || t.R_PC32? || t.R_PC16? || t.R_PC8?
  }

  predicate Overridden(opt: Options, y: Symbol) { opt.dso && y.visible }

  predicate InRegular(y: Symbol) { !y.inDso }

  predicate RequirePlt(opt: Options, y: Symbol) {
    y.func && (y.inDso || (opt.dso && (y.undef || Overridden(opt, y))))
  }

  predicate RequireCopy(opt: Options, y: Symbol) { !y.func && opt.exec && y.inDso }

  predicate RequireGlobDat(opt: Options, y: Symbol) {
    y.undef || y.inDso || (opt.dso && Overridden(opt, y)) || (opt.dso && y.prot)
  }

  predicate RequireDynamic(opt: Options, y: Symbol, t: RelType) {
    && !y.inDso
    && ((opt.dso && (y.undef || Overridden(opt, y))) || ((opt.pie || opt.dso) && IsAbsolute(t)))
  }

  predicate RelativeRelax(opt: Options, y: Symbol) {
    && (opt.pie || opt.dso) && !y.inDso
    && !(opt.dso && (y.undef || Overridden(opt, y)))
  }

  /** `_tls_check_relax`. */
  function TlsCheckRelax(opt: Options, y: Symbol, t: RelType): (x: Relax)
    ensures x == INIT_EXEC ==> t == R_TLSGD
  {
    if !opt.dynamicLink then LOCAL_EXEC
    else if opt.dso then RELAX_NONE
    else if !y.undef && InRegular(y) then LOCAL_EXEC
    else if t == R_TLSGD then INIT_EXEC
    else RELAX_NONE
  }

  /** GOT slots whose address or contents `_process_reloc` uses for a relocation. */
  function SlotsUsed(opt: Options, y: Symbol, t: RelType): nat {
    match t
    case R_GOTPCREL => 1
    case R_TLSGD => (match TlsCheckRelax(opt, y, t) case RELAX_NONE => 2 case INIT_EXEC => 1 case LOCAL_EXEC => 0)
    case R_TLSLD => if TlsCheckRelax(opt, y, t) == RELAX_NONE then 2 else 0
    case R_GOTTPOFF => if TlsCheckRelax(opt, y, t) == RELAX_NONE then 1 else 0
    case _ => 0
  }

  /** GOT slots the scan wants for it. */
  function SlotsWanted(opt: Options, y: Symbol, t: RelType): nat {
    if t == R_GOT32 then 1 else SlotsUsed(opt, y, t)
  }

  /** Whether the scan of a relocation leaves its symbol with a PLT entry. */
  predicate WantsPlt(opt: Options, y: Symbol, t: RelType) {
    && !y.local && RequirePlt(opt, y)
    && (Direct(t)
        || (t.R_PLT32? && !(opt.exec && !y.undef && InRegular(y))))
  }

  // ---------- the shape of the sections ----------

  function Slots(gots: seq<(SymId, nat)>): nat {
    if gots == [] then 0 else Slots(gots[..|gots| - 1]) + gots[|gots| - 1].1
  }

  lemma {:induction false} SlotsSplit(gots: seq<(SymId, nat)>, i: nat)
    requires i < |gots|
    ensures Slots(gots[..i]) + gots[i].1 <= Slots(gots)
  {
    var n := |gots| - 1;
    if i < n {
      SlotsSplit(gots[..n], i);
      assert gots[..n][..i] == gots[..i];
    }
  }

  lemma SlotsSnoc(gots: seq<(SymId, nat)>, s: SymId, w: nat)
    ensures Slots(gots + [(s, w)]) == Slots(gots) + w
    ensures forall i :: 0 <= i <= |gots| ==> (gots + [(s, w)])[..i] == gots[..i]
  {
    assert (gots + [(s, w)])[..|gots|] == gots;
  }

  /** `gots` lists who owns which run of GOT slots, in address order; `at` finds a symbol's run. */
  ghost predicate GotOk(syms: map<SymId, Symbol>, got: Option<Section>, gots: seq<(SymId, nat)>, at: map<SymId, nat>) {
    && (got.None? ==> gots == [])
    && (got.Some? ==> got.value == Section(8, 8 * Slots(gots)))
    && (forall i :: 0 <= i < |gots| ==> OwnerOk(syms, gots, at, i))
    && (forall s :: s in syms && syms[s].got ==> s in at && at[s] < |gots| && gots[at[s]].0 == s)
  }

  ghost predicate OwnerOk(syms: map<SymId, Symbol>, gots: seq<(SymId, nat)>, at: map<SymId, nat>, i: nat)
    requires i < |gots|
  {
    var (s, w) := gots[i];
    w > 0 && s in syms && syms[s].got && syms[s].gotOff == 8 * Slots(gots[..i]) && s in at && at[s] == i
  }

  ghost predicate PltOk(syms: map<SymId, Symbol>, plt: Option<Section>, gotplt: Option<Section>,
                        rela: map<RelaName, seq<Dyn>>, plts: seq<SymId>) {
    && (forall s :: s in syms ==> (syms[s].plt <==> s in plts))
    && (forall i :: 0 <= i < |plts| ==> plts[i] in syms)
    && (forall i, j :: 0 <= i < j < |plts| ==> plts[i] != plts[j])
    && (if plts == [] then plt.None? && gotplt.None? && RelaPlt !in rela
        else
          && gotplt == Some(Section(8, 8 * (3 + |plts|)))
          && plt == Some(Section(16, 16 * (1 + |plts|)))
          && RelaPlt in rela && rela[RelaPlt] == JumpSlots(plts))
  }

  function JumpSlots(plts: seq<SymId>): (r: seq<Dyn>)
    ensures |r| == |plts|
  {
    seq(|plts|, i requires 0 <= i < |plts| => Dyn(R_JUMP_SLOT, plts[i], Nowhere, 0, 0))
  }

  /** Every .rela.got entry fills a slot its symbol owns; RELATIVE and GLOB_DAT fill the first. */
  ghost predicate GotRelocOk(syms: map<SymId, Symbol>, e: Dyn) {
    && e.place == InGot && e.sym in syms && syms[e.sym].got
    && (e.offset == syms[e.sym].gotOff || e.offset == syms[e.sym].gotOff + 8)
    && (e.rtype != R_DTPOFF64 ==> e.offset == syms[e.sym].gotOff)
  }

  ghost predicate RelaGotOk(syms: map<SymId, Symbol>, rela: map<RelaName, seq<Dyn>>) {
    RelaGot in rela ==> forall i :: 0 <= i < |rela[RelaGot]| ==> GotRelocOk(syms, rela[RelaGot][i])
  }

  function Entries(rela: map<RelaName, seq<Dyn>>, name: RelaName): seq<Dyn> {
    if name in rela then rela[name] else []
  }

  function CountRelative(es: seq<Dyn>): nat {
    if es == [] then 0
    else CountRelative(es[..|es| - 1]) + (if es[|es| - 1].rtype.R_RELATIVE? then 1 else 0)
  }

  function RelativeIn(rela: map<RelaName, seq<Dyn>>, name: RelaName): nat { CountRelative(Entries(rela, name)) }

  /** RELATIVE entries over all dynamic relocation sections. */
  function AllRelative(rela: map<RelaName, seq<Dyn>>): nat {
    RelativeIn(rela, RelaPlt) + RelativeIn(rela, RelaGot) + RelativeIn(rela, RelaBss) + RelativeIn(rela, DataRelLocal)
    + RelativeIn(rela, DataRelRoLocal) + RelativeIn(rela, DataRel) + RelativeIn(rela, DataRelRo)
  }

  lemma CountSnoc(es: seq<Dyn>, e: Dyn)
    ensures CountRelative(es + [e]) == CountRelative(es) + (if e.rtype.R_RELATIVE? then 1 else 0)
  {
    assert (es + [e])[..|es|] == es;
  }

  /** How one scan may change the symbol it looks at. A copy relocation redefines the symbol in .dynbss,
      so it counts as defined in a regular object from then on. */
  ghost predicate Evolves(opt: Options, y: Symbol, y': Symbol, t: RelType) {
    && y'.local == y.local && y'.func == y.func && y'.visible == y.visible && y'.prot == y.prot
    && y'.plt == (y.plt || WantsPlt(opt, y, t))
    && y'.got == (y.got || SlotsWanted(opt, y, t) > 0)
    && (y.got ==> y'.gotOff == y.gotOff)
    && y'.funcAddr == (y.funcAddr || (IsAbsolute(t) && WantsPlt(opt, y, t)))
    && y'.tlsLd == (y.tlsLd || (t.R_TLSLD? && SlotsWanted(opt, y, t) > 0 && !y.got))
    && DefinedAs(y', Redefined(opt, y, t)) && (y'.copyReloc == y.copyReloc ==> y'.copyOff == y.copyOff)
  }

  ghost predicate DefinedAs(y: Symbol, z: Symbol) {
    y.inDso == z.inDso && y.undef == z.undef && y.copyReloc == z.copyReloc
  }

  /** Whether the scan of a relocation gives its symbol a copy relocation. */
  predicate Copies(opt: Options, y: Symbol, t: RelType) {
    !y.local && Direct(t) && RequireCopy(opt, y) && !y.copyReloc
  }

  /** The symbol as it is defined after the scan. */
  function Redefined(opt: Options, y: Symbol, t: RelType): Symbol {
    if Copies(opt, y, t) then y.(copyReloc := true, undef := false, inDso := false) else y
  }

  /** The PLT32 of a call that needs no PLT entry becomes a PC32. */
  function Rewritten(opt: Options, y: Symbol, t: RelType): RelType {
    if t == R_PLT32 && !WantsPlt(opt, y, t) then R_PC32 else t
  }

  // ---------- steps on the tables ----------

  lemma GotReserved(syms: map<SymId, Symbol>, got: Section, gots: seq<(SymId, nat)>, at: map<SymId, nat>, s: SymId,
                    w: nat)
    requires GotOk(syms, Some(got), gots, at) && s in syms && !syms[s].got && w > 0
    ensures got.size == 8 * Slots(gots) && got.entsize == 8
    ensures var y := syms[s].(got := true, gotOff := got.size);
            GotOk(syms[s := y], Some(got.(size := got.size + w * got.entsize)), gots + [(s, w)], at[s := |gots|])
  {
    hide Slots;
    var y := syms[s].(got := true, gotOff := got.size);
    var syms', gots', at' := syms[s := y], gots + [(s, w)], at[s := |gots|];
    SlotsSnoc(gots, s, w);
    forall i | 0 <= i < |gots'|
      ensures OwnerOk(syms', gots', at', i)
    {
      if i < |gots| {
        assert OwnerOk(syms, gots, at, i);
        assert gots'[..i] == gots[..i];
      } else {
        assert gots'[..i] == gots;
      }
    }
  }

  /** The GOT does not care about a symbol's other fields. */
  lemma GotFrame(syms: map<SymId, Symbol>, got: Option<Section>, gots: seq<(SymId, nat)>, at: map<SymId, nat>,
                 s: SymId, y: Symbol)
    requires GotOk(syms, got, gots, at) && s in syms && y.got == syms[s].got && (y.got ==> y.gotOff == syms[s].gotOff)
    ensures GotOk(syms[s := y], got, gots, at)
  {
    hide Slots;
    var syms' := syms[s := y];
    forall i | 0 <= i < |gots|
      ensures OwnerOk(syms', gots, at, i)
    {
      assert OwnerOk(syms, gots, at, i);
    }
  }

  lemma RelaGotFrame(syms: map<SymId, Symbol>, rela: map<RelaName, seq<Dyn>>, s: SymId, y: Symbol)
    requires RelaGotOk(syms, rela) && s in syms
    requires syms[s].got ==> y.got && y.gotOff == syms[s].gotOff
    ensures RelaGotOk(syms[s := y], rela)
  {
    if RelaGot in rela {
      var syms' := syms[s := y];
      forall i | 0 <= i < |rela[RelaGot]|
        ensures GotRelocOk(syms', rela[RelaGot][i])
      {
        assert GotRelocOk(syms, rela[RelaGot][i]);
      }
    }
  }

  lemma PltFrame(syms: map<SymId, Symbol>, plt: Option<Section>, gotplt: Option<Section>, rela: map<RelaName, seq<Dyn>>,
                 plts: seq<SymId>, s: SymId, y: Symbol)
    requires PltOk(syms, plt, gotplt, rela, plts) && s in syms && y.plt == syms[s].plt
    ensures PltOk(syms[s := y], plt, gotplt, rela, plts)
  {
  }

  lemma JumpSlotsSnoc(plts: seq<SymId>, s: SymId)
    ensures JumpSlots(plts + [s]) == JumpSlots(plts) + [Dyn(R_JUMP_SLOT, s, Nowhere, 0, 0)] && JumpSlots([]) == []
  {
  }

  lemma EntryCounted(rela: map<RelaName, seq<Dyn>>, name: RelaName, e: Dyn, n: RelaName)
    ensures RelativeIn(rela[name := Entries(rela, name) + [e]], n)
            == RelativeIn(rela, n) + (if n == name && e.rtype.R_RELATIVE? then 1 else 0)
  {
    hide CountRelative;
    CountSnoc(Entries(rela, name), e);
  }

  lemma EntryAdded(syms: map<SymId, Symbol>, rela: map<RelaName, seq<Dyn>>, name: RelaName, e: Dyn)
    requires RelaGotOk(syms, rela) && (name == RelaGot ==> GotRelocOk(syms, e))
    ensures var rela' := rela[name := Entries(rela, name) + [e]];
            && RelaGotOk(syms, rela')
            && AllRelative(rela') == AllRelative(rela) + (if e.rtype.R_RELATIVE? then 1 else 0)
  {
    hide RelativeIn, GotRelocOk;
    var rela' := rela[name := Entries(rela, name) + [e]];
    if RelaGot in rela' {
      forall i | 0 <= i < |rela'[RelaGot]|
        ensures GotRelocOk(syms, rela'[RelaGot][i])
      {
      }
    }
    EntryCounted(rela, name, e, RelaPlt);
    EntryCounted(rela, name, e, RelaGot);
    EntryCounted(rela, name, e, RelaBss);
    EntryCounted(rela, name, e, DataRelLocal);
    EntryCounted(rela, name, e, DataRelRoLocal);
    EntryCounted(rela, name, e, DataRel);
    EntryCounted(rela, name, e, DataRelRo);
  }

  /** A section grown by one entry, after `reserved` entries at its creation. */
  function OneMore(o: Option<Section>, entsize: nat, reserved: nat): Option<Section> {
    var sec := if o.Some? then o.value else Section(entsize, reserved * entsize);
    Some(sec.(size := sec.size + sec.entsize))
  }

  lemma PltReserved(syms: map<SymId, Symbol>, plt: Option<Section>, gotplt: Option<Section>,
                    rela: map<RelaName, seq<Dyn>>, plts: seq<SymId>, s: SymId, y: Symbol)
    requires PltOk(syms, plt, gotplt, rela, plts) && s in syms && !syms[s].plt && y.plt
    ensures PltOk(syms[s := y], OneMore(plt, 16, 1), OneMore(gotplt, 8, 3),
                  rela[RelaPlt := Entries(rela, RelaPlt) + [Dyn(R_JUMP_SLOT, s, Nowhere, 0, 0)]], plts + [s])
  {
    hide JumpSlots;
    JumpSlotsSnoc(plts, s);
    assert Entries(rela, RelaPlt) == JumpSlots(plts);
    var syms', plts' := syms[s := y], plts + [s];
    forall x | x in syms'
      ensures syms'[x].plt <==> x in plts'
    {
    }
  }

  // ---------- which dynamic relocations a scan creates ----------

  type Entry = (RelaName, Dyn)

  function PltEntries(opt: Options, y: Symbol, s: SymId): seq<Entry> {
    if RequirePlt(opt, y) && !y.plt then [(RelaPlt, Dyn(R_JUMP_SLOT, s, Nowhere, 0, 0))] else []
  }

  function CopyEntries(opt: Options, y: Symbol, s: SymId, off: nat): seq<Entry> {
    if RequireCopy(opt, y) && !y.copyReloc then [(RelaBss, Dyn(R_COPY, s, InDynbss, off, 0))] else []
  }

  /** Dynamic relocations of data go to one of four sections. */
  function DataName(local: bool, writable: bool): RelaName {
    if local then (if writable then DataRelLocal else DataRelRoLocal) else (if writable then DataRel else DataRelRo)
  }

  function AddressEntries(opt: Options, y: Symbol, r: Reloc, off: nat): seq<Entry> {
    if RequireCopy(opt, y) && !y.copyReloc then CopyEntries(opt, y, r.sym, off)
    else if RequireDynamic(opt, y, r.rtype) && r.rtype == R_64 then
      var t := if RelativeRelax(opt, y) then R_RELATIVE else R_64;
      [(DataName(y.local, r.writable), Dyn(t, r.sym, Input(r.section), r.offset, r.addend))]
    else []
  }

  function LocalEntries(opt: Options, y: Symbol, r: Reloc): seq<Entry> {
    if (opt.pie || opt.dso) && r.rtype == R_64
    then [(DataName(y.local, r.writable), Dyn(R_RELATIVE, r.sym, Input(r.section), r.offset, r.addend))] else []
  }

  function GotEntry(t: RelType, s: SymId, off: nat): Entry { (RelaGot, Dyn(t, s, InGot, off, 0)) }

  /** The relocations that fill a symbol's new GOT slots. */
  function GotEntries(opt: Options, y: Symbol, s: SymId, t: RelType, off: nat): seq<Entry> {
    if y.got || SlotsWanted(opt, y, t) == 0 then []
    else if t.R_GOT32? || t.R_GOTPCREL? then
      [GotEntry(if RequireGlobDat(opt, y) then R_GLOB_DAT else R_RELATIVE, s, off)]
    else if SlotsWanted(opt, y, t) == 1 then [GotEntry(R_TPOFF64, s, off)]
    else if t.R_TLSGD? then [GotEntry(R_DTPMOD64, s, off), GotEntry(R_DTPOFF64, s, off + 8)]
    else [GotEntry(R_DTPMOD64, s, off)]
  }

  /** Everything one scan creates, `y'` being the symbol afterwards. */
  function Created(opt: Options, y: Symbol, r: Reloc, y': Symbol): seq<Entry> {
    if IsAbsolute(r.rtype) then
      if y.local then LocalEntries(opt, y, r) else PltEntries(opt, y, r.sym) + AddressEntries(opt, y, r, y'.copyOff)
    else if Direct(r.rtype) then
      if y.local then [] else PltEntries(opt, y, r.sym) + CopyEntries(opt, y, r.sym, y'.copyOff)
    else if r.rtype.R_PLT32? then
      if WantsPlt(opt, y, R_PLT32) then PltEntries(opt, y, r.sym) else []
    else GotEntries(opt, y, r.sym, r.rtype, y'.gotOff)
  }

  /** Whether any of them names its symbol, as all but RELATIVE ones do. */
  predicate Symbolic(es: seq<Entry>) {
    exists i :: 0 <= i < |es| && !es[i].1.rtype.R_RELATIVE?
  }

  lemma SymbolicOne(e: Entry, es: seq<Entry>)
    ensures Symbolic([e] + es) <==> !e.1.rtype.R_RELATIVE? || Symbolic(es)
    ensures Symbolic([e]) <==> !e.1.rtype.R_RELATIVE?
    ensures !Symbolic([])
  {
    if Symbolic(es) {
      var i :| 0 <= i < |es| && !es[i].1.rtype.R_RELATIVE?;
      assert ([e] + es)[i + 1] == es[i];
    }
    assert ([e] + es)[0] == e && [e][0] == e;
  }

  /** The entries of one section, in the order they were created. */
  function Of(log: seq<Entry>, name: RelaName): seq<Dyn> {
    if log == [] then []
    else Of(log[..|log| - 1], name) + (if log[|log| - 1].0 == name then [log[|log| - 1].1] else [])
  }

  ghost predicate Logged(log: seq<Entry>, rela: map<RelaName, seq<Dyn>>) {
    forall n: RelaName :: Entries(rela, n) == Of(log, n)
  }

  lemma LoggedAdds(log: seq<Entry>, rela: map<RelaName, seq<Dyn>>, name: RelaName, e: Dyn)
    requires Logged(log, rela)
    ensures Logged(log + [(name, e)], rela[name := Entries(rela, name) + [e]])
  {
    var log' := log + [(name, e)];
    assert log'[..|log'| - 1] == log;
    forall n: RelaName
      ensures Entries(rela[name := Entries(rela, name) + [e]], n) == Of(log', n)
    {
      assert Entries(rela, n) == Of(log, n);
    }
  }

  /** Only symbol `s` differs. */
  ghost predicate Touched(before: map<SymId, Symbol>, after: map<SymId, Symbol>, s: SymId) {
    s in after && after.Keys == before.Keys && forall x :: x in before && x != s ==> after[x] == before[x]
  }

  /** A symbol that got a copy relocation if it required one, or no more than a dynamic one. */
  ghost predicate Imported(opt: Options, y: Symbol, y': Symbol) {
    if RequireCopy(opt, y) && !y.copyReloc
    then y' == y.(copyReloc := true, copyOff := y'.copyOff, undef := false, inDso := false, dynrel := true)
    else y' == y.(dynrel := y'.dynrel)
  }

  ghost predicate PltTaken(y: Symbol, y': Symbol) {
    y' == y.(plt := true, funcAddr := y'.funcAddr, dynrel := y'.dynrel)
  }

  lemma AddressTaken(y: Symbol, y1: Symbol)
    requires PltTaken(y, y1)
    ensures PltTaken(y, y1.(funcAddr := true))
  {
  }

  lemma AddressEvolves(opt: Options, y: Symbol, y1: Symbol, y2: Symbol, t: RelType)
    requires !y.local && Direct(t)
    requires if RequirePlt(opt, y) then PltTaken(y, y1) else y1 == y
    requires y1.funcAddr == (y.funcAddr || (IsAbsolute(t) && RequirePlt(opt, y)))
    requires Imported(opt, y1, y2)
    ensures Evolves(opt, y, y2, t) && WantsPlt(opt, y, t) == RequirePlt(opt, y) && SlotsWanted(opt, y, t) == 0
  {
    hide SlotsWanted, Direct, Evolves, Imported;
    DirectWantsNoSlot(opt, y, t);
    if RequirePlt(opt, y) {
      FunctionEvolves(opt, y, y1, y2, t);
    } else {
      ObjectEvolves(opt, y, y2, t);
    }
  }

  /** A new PLT entry does not change what else the symbol needs. */
  lemma SameEntries(opt: Options, y: Symbol, y1: Symbol, r: Reloc, off: nat)
    requires if RequirePlt(opt, y) then PltTaken(y, y1) else y1 == y
    ensures AddressEntries(opt, y1, r, off) == AddressEntries(opt, y, r, off)
    ensures CopyEntries(opt, y1, r.sym, off) == CopyEntries(opt, y, r.sym, off)
    ensures RequireCopy(opt, y1) == RequireCopy(opt, y) && y1.copyReloc == y.copyReloc
  {
  }

  lemma CreatedForLocal(opt: Options, y: Symbol, r: Reloc, y': Symbol)
    requires IsAbsolute(r.rtype) && y.local
    ensures Created(opt, y, r, y') == LocalEntries(opt, y, r) && !Symbolic(Created(opt, y, r, y'))
  {
    CreatedSymbolic(opt, y, r, y');
  }

  lemma CreatedForAddress(opt: Options, y: Symbol, r: Reloc, y': Symbol, log: seq<Entry>)
    requires IsAbsolute(r.rtype) && !y.local
    ensures log + Created(opt, y, r, y')
            == (if RequirePlt(opt, y) && !y.plt then log + [(RelaPlt, Dyn(R_JUMP_SLOT, r.sym, Nowhere, 0, 0))] else log)
               + AddressEntries(opt, y, r, y'.copyOff)
  {
  }

  lemma CreatedSymbolic(opt: Options, y: Symbol, r: Reloc, y': Symbol)
    ensures IsAbsolute(r.rtype) && y.local ==> !Symbolic(Created(opt, y, r, y'))
    ensures IsAbsolute(r.rtype) && !y.local ==>
              (Symbolic(Created(opt, y, r, y'))
               <==> (RequirePlt(opt, y) && !y.plt) || Symbolic(AddressEntries(opt, y, r, y'.copyOff)))
    ensures !IsAbsolute(r.rtype) && Direct(r.rtype) ==>
              (Symbolic(Created(opt, y, r, y'))
               <==> !y.local && ((RequirePlt(opt, y) && !y.plt) || (RequireCopy(opt, y) && !y.copyReloc)))
    ensures r.rtype.R_PLT32? ==> (Symbolic(Created(opt, y, r, y')) <==> WantsPlt(opt, y, R_PLT32) && !y.plt)
    ensures !Direct(r.rtype) && !r.rtype.R_PLT32? ==>
              (Symbolic(Created(opt, y, r, y'))
               <==> !y.got && SlotsWanted(opt, y, r.rtype) > 0
                    && ((r.rtype.R_GOT32? || r.rtype.R_GOTPCREL?) ==> RequireGlobDat(opt, y)))
  {
    hide Symbolic, SlotsWanted, RequireCopy, RequirePlt, RequireGlobDat, RequireDynamic, RelativeRelax;
    var plt, copy := PltEntries(opt, y, r.sym), AddressEntries(opt, y, r, y'.copyOff);
    SymbolicOne((RelaPlt, Dyn(R_JUMP_SLOT, r.sym, Nowhere, 0, 0)), []);
    SymbolicOne((RelaPlt, Dyn(R_JUMP_SLOT, r.sym, Nowhere, 0, 0)), copy);
    SymbolicOne((RelaPlt, Dyn(R_JUMP_SLOT, r.sym, Nowhere, 0, 0)), CopyEntries(opt, y, r.sym, y'.copyOff));
    SymbolicOne((RelaBss, Dyn(R_COPY, r.sym, InDynbss, y'.copyOff, 0)), []);
    SymbolicOne((DataName(y.local, r.writable), Dyn(R_RELATIVE, r.sym, Input(r.section), r.offset, r.addend)), []);
    assert [] + copy == copy && [] + CopyEntries(opt, y, r.sym, y'.copyOff) == CopyEntries(opt, y, r.sym, y'.copyOff);
    GotSymbolic(opt, y, r.sym, r.rtype, y'.gotOff);
  }

  lemma AddressSymbolic(opt: Options, y: Symbol, r: Reloc, off: nat)
    ensures Symbolic(AddressEntries(opt, y, r, off))
            <==> if RequireCopy(opt, y) && !y.copyReloc then true
                 else RequireDynamic(opt, y, r.rtype) && r.rtype == R_64 && !RelativeRelax(opt, y)
  {
    hide Symbolic, RequireCopy, RequireDynamic, RelativeRelax;
    SymbolicOne((RelaBss, Dyn(R_COPY, r.sym, InDynbss, off, 0)), []);
    SymbolicOne((DataName(y.local, r.writable), Dyn(R_RELATIVE, r.sym, Input(r.section), r.offset, r.addend)), []);
    SymbolicOne((DataName(y.local, r.writable), Dyn(R_64, r.sym, Input(r.section), r.offset, r.addend)), []);
  }

  lemma CreatedForPc(opt: Options, y: Symbol, r: Reloc, y': Symbol, log: seq<Entry>)
    requires r.rtype.R_PC64? || r.rtype.R_PC32? || r.rtype.R_PC16? || r.rtype.R_PC8?
    ensures y.local ==> log + Created(opt, y, r, y') == log
    ensures !y.local ==>
              log + Created(opt, y, r, y')
              == (if RequirePlt(opt, y) && !y.plt then log + [(RelaPlt, Dyn(R_JUMP_SLOT, r.sym, Nowhere, 0, 0))]
                  else log)
                 + CopyEntries(opt, y, r.sym, y'.copyOff)
  {
  }

  /** The steps of a PC-relative scan together: `y1` after the PLT entry, `y2` after the copy relocation. */
  lemma PcScanned(opt: Options, y: Symbol, y1: Symbol, y2: Symbol, r: Reloc, log: seq<Entry>)
    requires !y.local && (r.rtype.R_PC64? || r.rtype.R_PC32? || r.rtype.R_PC16? || r.rtype.R_PC8?)
    requires if RequirePlt(opt, y) then PltTaken(y, y1) else y1 == y
    requires y1.funcAddr == y.funcAddr && Imported(opt, y1, y2)
    ensures Evolves(opt, y, y2, r.rtype) && WantsPlt(opt, y, r.rtype) == RequirePlt(opt, y)
    ensures SlotsWanted(opt, y, r.rtype) == 0
    ensures log + Created(opt, y, r, y2)
            == (if RequirePlt(opt, y) && !y.plt then log + [(RelaPlt, Dyn(R_JUMP_SLOT, r.sym, Nowhere, 0, 0))] else log)
               + CopyEntries(opt, y1, r.sym, y2.copyOff)
    ensures Symbolic(Created(opt, y, r, y2))
            <==> (RequirePlt(opt, y) && !y.plt) || (RequireCopy(opt, y1) && !y1.copyReloc)
  {
    hide Evolves, RequirePlt, RequireCopy, WantsPlt, SlotsWanted, Imported, PltTaken, Created, Symbolic, CopyEntries;
    AddressEvolves(opt, y, y1, y2, r.rtype);
    SameEntries(opt, y, y1, r, y2.copyOff);
    CreatedForPc(opt, y, r, y2, log);
    CreatedSymbolic(opt, y, r, y2);
  }

  lemma CreatedForTls(opt: Options, y: Symbol, r: Reloc, y': Symbol)
    requires r.rtype.R_TLSGD? || r.rtype.R_TLSLD? || r.rtype.R_GOTTPOFF?
    ensures var n, off := SlotsWanted(opt, y, r.rtype), y'.gotOff;
            Created(opt, y, r, y') == if y.got || n == 0 then []
                                      else if n == 1 then [GotEntry(R_TPOFF64, r.sym, off)]
                                      else if r.rtype.R_TLSGD?
                                      then [GotEntry(R_DTPMOD64, r.sym, off), GotEntry(R_DTPOFF64, r.sym, off + 8)]
                                      else [GotEntry(R_DTPMOD64, r.sym, off)]
  {
    hide SlotsWanted;
  }

  lemma GotSymbolic(opt: Options, y: Symbol, s: SymId, t: RelType, off: nat)
    ensures Symbolic(GotEntries(opt, y, s, t, off))
            <==> !y.got && SlotsWanted(opt, y, t) > 0
                 && ((t.R_GOT32? || t.R_GOTPCREL?) ==> RequireGlobDat(opt, y))
  {
    hide SlotsWanted, RequireGlobDat, Symbolic;
    SymbolicOne(GotEntry(R_GLOB_DAT, s, off), []);
    SymbolicOne(GotEntry(R_RELATIVE, s, off), []);
    SymbolicOne(GotEntry(R_TPOFF64, s, off), []);
    SymbolicOne(GotEntry(R_DTPMOD64, s, off), [GotEntry(R_DTPOFF64, s, off + 8)]);
    assert [GotEntry(R_DTPMOD64, s, off)] + [GotEntry(R_DTPOFF64, s, off + 8)]
        == [GotEntry(R_DTPMOD64, s, off), GotEntry(R_DTPOFF64, s, off + 8)];
  }

  lemma FunctionEvolves(opt: Options, y: Symbol, y1: Symbol, y2: Symbol, t: RelType)
    requires RequirePlt(opt, y) && WantsPlt(opt, y, t) && SlotsWanted(opt, y, t) == 0
    requires y1.funcAddr == (y.funcAddr || IsAbsolute(t))
    requires PltTaken(y, y1) && Imported(opt, y1, y2)
    ensures Evolves(opt, y, y2, t)
  {
    hide SlotsWanted, WantsPlt;
    assert y2 == y1.(dynrel := y2.dynrel) && Redefined(opt, y, t) == y;
  }

  lemma ObjectEvolves(opt: Options, y: Symbol, y2: Symbol, t: RelType)
    requires !y.local && Direct(t) && !WantsPlt(opt, y, t) && SlotsWanted(opt, y, t) == 0 && Imported(opt, y, y2)
    ensures Evolves(opt, y, y2, t)
  {
    hide SlotsWanted, WantsPlt, RequireCopy, Direct, Evolves;
    if RequireCopy(opt, y) && !y.copyReloc {
      CopiedEvolves(opt, y, y2, t);
    } else {
      KeptEvolves(opt, y, y2, t);
    }
  }

  lemma KeptEvolves(opt: Options, y: Symbol, y2: Symbol, t: RelType)
    requires !WantsPlt(opt, y, t) && SlotsWanted(opt, y, t) == 0 && !Copies(opt, y, t) && y2 == y.(dynrel := y2.dynrel)
    ensures Evolves(opt, y, y2, t)
  {
    hide SlotsWanted, WantsPlt, Copies;
  }

  lemma CopiedEvolves(opt: Options, y: Symbol, y2: Symbol, t: RelType)
    requires !WantsPlt(opt, y, t) && SlotsWanted(opt, y, t) == 0 && Copies(opt, y, t) && !y.copyReloc
    requires y2 == y.(copyReloc := true, copyOff := y2.copyOff, undef := false, inDso := false, dynrel := true)
    ensures Evolves(opt, y, y2, t)
  {
    hide SlotsWanted, WantsPlt, Copies;
  }

  lemma DirectWantsNoSlot(opt: Options, y: Symbol, t: RelType)
    requires Direct(t)
    ensures SlotsWanted(opt, y, t) == 0 && t != R_PLT32
  {
  }

  lemma LocalEvolves(opt: Options, y: Symbol, y': Symbol, t: RelType)
    requires y' == y.(dynrel := y'.dynrel) && y.local && Direct(t)
    ensures Evolves(opt, y, y', t) && !WantsPlt(opt, y, t) && SlotsWanted(opt, y, t) == 0
  {
    hide Evolves;
    DirectWantsNoSlot(opt, y, t);
    KeptEvolves(opt, y, y', t);
  }

  ghost predicate GotTaken(y: Symbol, y': Symbol) {
    && y' == y.(got := true, gotOff := y'.gotOff, dynrel := y'.dynrel, tlsLd := y'.tlsLd)
    && (y.got ==> y' == y)
  }

  lemma GotEvolves(opt: Options, y: Symbol, y': Symbol, t: RelType)
    requires t.R_GOT32? || t.R_GOTPCREL? || t.R_TLSGD? || t.R_TLSLD? || t.R_GOTTPOFF?
    requires if SlotsWanted(opt, y, t) > 0 then GotTaken(y, y') else y' == y
    requires y'.tlsLd == (y.tlsLd || (t.R_TLSLD? && SlotsWanted(opt, y, t) > 0 && !y.got))
    ensures Evolves(opt, y, y', t) && !WantsPlt(opt, y, t)
  {
    hide SlotsWanted;
    assert Redefined(opt, y, t) == y;
  }

  lemma FitsSlots(syms: map<SymId, Symbol>, s: SymId, t: RelType)
    requires s in syms && syms[s].got
    ensures GotRelocOk(syms, Dyn(t, s, InGot, syms[s].gotOff, 0))
    ensures GotRelocOk(syms, Dyn(R_DTPOFF64, s, InGot, syms[s].gotOff + 8, 0))
  {
  }

  lemma TlsSlots(opt: Options, y: Symbol, t: RelType)
    requires t.R_TLSGD? || t.R_TLSLD? || t.R_GOTTPOFF?
    ensures var x := TlsCheckRelax(opt, y, t);
            && (x == INIT_EXEC ==> t == R_TLSGD)
            && SlotsWanted(opt, y, t)
               == (if x == LOCAL_EXEC then 0 else if x == INIT_EXEC || t == R_GOTTPOFF then 1 else 2)
  {
  }

  class Linker {
    const opt: Options
    var syms: map<SymId, Symbol>
    var got: Option<Section>
    var gotplt: Option<Section>
    var plt: Option<Section>
    var rela: map<RelaName, seq<Dyn>>
    var relativeReloc: nat
    ghost var gots: seq<(SymId, nat)>
    ghost var at: map<SymId, nat>
    ghost var plts: seq<SymId>
    ghost var log: seq<Entry>

    ghost predicate GotValid()
      reads `syms, `got, `gots, `at
    {
      GotOk(syms, got, gots, at)
    }

    ghost function GotNow(): GotState
      reads `syms, `gots, `rela
    {
      GotState(syms, gots, Entries(rela, RelaGot))
    }

    ghost predicate PltValid()
      reads `syms, `gotplt, `plt, `rela, `plts
    {
      PltOk(syms, plt, gotplt, rela, plts)
    }

    ghost predicate RelaValid()
      reads `syms, `rela, `relativeReloc, `log
    {
      RelaGotOk(syms, rela) && relativeReloc == AllRelative(rela) && Logged(log, rela)
    }

    ghost predicate Valid()
      reads this
    {
      GotValid() && PltValid() && RelaValid()
    }

    constructor (opt: Options, syms: map<SymId, Symbol>)
      requires forall s :: s in syms ==> !syms[s].got && !syms[s].plt && !syms[s].copyReloc
      ensures Valid() && this.opt == opt && this.syms == syms
      ensures plts == [] && gots == [] && log == [] && relativeReloc == 0
    {
      this.opt, this.syms := opt, syms;
      got, gotplt, plt := None, None, None;
      rela, relativeReloc := map[], 0;
      gots, at, plts, log := [], map[], [], [];
    }

    /** `ld_reloc_create_entry`. */
    method CreateEntry(name: RelaName, e: Dyn)
      requires RelaValid() && (name == RelaGot ==> GotRelocOk(syms, e))
      modifies `rela, `relativeReloc, `log
      ensures RelaValid() && rela == old(rela)[name := Entries(old(rela), name) + [e]]
      ensures log == old(log) + [(name, e)]
    {
      hide RelaGotOk, AllRelative, Entries, GotRelocOk, Logged;
      EntryAdded(syms, rela, name, e);
      LoggedAdds(log, rela, name, e);
      log := log + [(name, e)];
      rela := rela[name := Entries(rela, name) + [e]];
      if e.rtype.R_RELATIVE? {
        relativeReloc := relativeReloc + 1;
      }
    }

    /** `_find_and_create_got_section` with `create` set. */
    method FindOrCreateGot()
      requires GotValid()
      modifies `got
      ensures GotValid() && got.Some?
    {
      if got.None? {
        got := Some(Section(8, 0));
      }
    }

    /** `_reserve_got_entry`. */
    method ReserveGot(s: SymId, num: nat)
      requires GotValid() && RelaValid() && PltValid() && s in syms && !syms[s].got && num > 0
      modifies `got, `syms, `gots, `at
      ensures GotValid() && RelaValid() && PltValid() && gots == old(gots) + [(s, num)]
      ensures Touched(old(syms), syms, s)
      ensures syms[s] == old(syms[s]).(got := true, gotOff := syms[s].gotOff)
    {
      hide GotOk, PltOk, Logged, RelaGotOk, AllRelative, Slots;
      FindOrCreateGot();
      GotReserved(syms, got.value, gots, at, s, num);
      var y := syms[s].(got := true, gotOff := got.value.size);
      RelaGotFrame(syms, rela, s, y);
      PltFrame(syms, plt, gotplt, rela, plts, s, y);
      got := Some(got.value.(size := got.value.size + num * got.value.entsize));
      at := at[s := |gots|];
      gots := gots + [(s, num)];
      syms := syms[s := y];
    }

    /** Changes to a symbol that leave its GOT and PLT entries alone. */
    method Update(s: SymId, y: Symbol)
      requires Valid() && s in syms && y.got == syms[s].got && y.gotOff == syms[s].gotOff && y.plt == syms[s].plt
      modifies `syms
      ensures Valid() && Touched(old(syms), syms, s) && syms[s] == y
    {
      hide GotOk, PltOk, Logged, RelaGotOk, AllRelative;
      GotFrame(syms, got, gots, at, s, y);
      RelaGotFrame(syms, rela, s, y);
      PltFrame(syms, plt, gotplt, rela, plts, s, y);
      syms := syms[s := y];
    }

    /** A symbol that some dynamic relocation names is marked so. */
    method Mark(s: SymId, named: bool)
      requires Valid() && s in syms
      modifies `syms
      ensures Valid() && Touched(old(syms), syms, s)
      ensures syms[s] == old(syms[s]).(dynrel := old(syms[s]).dynrel || named)
    {
      hide Valid;
      if named {
        Update(s, syms[s].(dynrel := true));
      }
    }

    /** An entry of a section other than .rela.plt. */
    method CreateOther(name: RelaName, e: Dyn)
      requires Valid() && name != RelaPlt && (name == RelaGot ==> GotRelocOk(syms, e))
      modifies `rela, `relativeReloc, `log
      ensures Valid() && log == old(log) + [(name, e)]
    {
      hide GotOk, PltOk, Logged, RelaGotOk, AllRelative, GotRelocOk, Entries;
      ghost var before := rela;
      ghost var es := Entries(rela, name) + [e];
      CreateEntry(name, e);
      PltOther(syms, plt, gotplt, before, name, es, plts);
    }

    /** `_create_got_reloc`; the .got section must exist already. */
    method CreateGotReloc(s: SymId, t: RelType, offset: nat)
      requires Valid() && s in syms && syms[s].got && GotRelocOk(syms, Dyn(t, s, InGot, offset, 0))
      modifies `rela, `relativeReloc, `log, `syms
      ensures Valid() && plts == old(plts) && gots == old(gots)
      ensures Touched(old(syms), syms, s) && syms[s] == old(syms[s]).(dynrel := syms[s].dynrel)
      ensures log == old(log) + [GotEntry(t, s, offset)] && syms[s].dynrel == (old(syms[s]).dynrel || !t.R_RELATIVE?)
    {
      hide Valid, GotRelocOk;
      CreateOther(RelaGot, Dyn(t, s, InGot, offset, 0));
      Mark(s, !t.R_RELATIVE?);
    }

    /** One more .got.plt word; the first three are set aside when the section is created. */
    method GrowGotPlt()
      modifies `gotplt
      ensures gotplt == OneMore(old(gotplt), 8, 3)
    {
      if gotplt.None? {
        gotplt := Some(Section(8, 3 * 8));
      }
      gotplt := Some(gotplt.value.(size := gotplt.value.size + gotplt.value.entsize));
    }

    /** One more .plt entry, after the one set aside at the section's creation. */
    method GrowPlt()
      modifies `plt
      ensures plt == OneMore(old(plt), 16, 1)
    {
      if plt.None? {
        plt := Some(Section(16, 16));
      }
      plt := Some(plt.value.(size := plt.value.size + plt.value.entsize));
    }

    /** `_reserve_gotplt_entry` and `_reserve_plt_entry`, which are always called together. */
    method ReservePlt(s: SymId)
      requires Valid() && s in syms && !syms[s].plt
      modifies `gotplt, `plt, `rela, `relativeReloc, `log, `syms, `plts
      ensures Valid() && plts == old(plts) + [s] && gots == old(gots)
      ensures Touched(old(syms), syms, s) && syms[s] == old(syms[s]).(plt := true, dynrel := true)
      ensures log == old(log) + [(RelaPlt, Dyn(R_JUMP_SLOT, s, Nowhere, 0, 0))]
    {
      hide GotOk, PltOk, Logged, RelaGotOk, AllRelative, Entries, OneMore;
      var y := syms[s].(plt := true, dynrel := true);
      PltReserved(syms, plt, gotplt, rela, plts, s, y);
      GrowGotPlt();
      CreateEntry(RelaPlt, Dyn(R_JUMP_SLOT, s, Nowhere, 0, 0));
      GrowPlt();
      GotFrame(syms, got, gots, at, s, y);
      RelaGotFrame(syms, rela, s, y);
      syms := syms[s := y];
      plts := plts + [s];
    }

    /** `_create_copy_reloc`: the symbol moves into .dynbss, at an offset chosen there. */
    method CreateCopyReloc(s: SymId)
      requires Valid() && s in syms
      modifies `rela, `relativeReloc, `log, `syms
      ensures Valid() && plts == old(plts) && gots == old(gots) && Touched(old(syms), syms, s)
      ensures syms[s] == old(syms[s]).(copyReloc := true, copyOff := syms[s].copyOff, undef := false,
                                                    inDso := false, dynrel := true)
      ensures log == old(log) + [(RelaBss, Dyn(R_COPY, s, InDynbss, syms[s].copyOff, 0))]
    {
      hide Valid;
      var offset: nat := *;
      CreateOther(RelaBss, Dyn(R_COPY, s, InDynbss, offset, 0));
      Update(s, syms[s].(copyReloc := true, copyOff := offset, undef := false, inDso := false, dynrel := true));
    }

    /** `_create_dynamic_reloc`. */
    method CreateDynamicReloc(r: Reloc, t: RelType)
      requires Valid() && r.sym in syms
      modifies `rela, `relativeReloc, `log, `syms
      ensures Valid() && plts == old(plts) && gots == old(gots) && Touched(old(syms), syms, r.sym)
      ensures syms[r.sym] == old(syms[r.sym]).(dynrel := syms[r.sym].dynrel)
      ensures log == old(log) + [(DataName(old(syms[r.sym]).local, r.writable),
                                  Dyn(t, r.sym, Input(r.section), r.offset, r.addend))]
      ensures syms[r.sym].dynrel == (old(syms[r.sym]).dynrel || !t.R_RELATIVE?)
    {
      hide Valid;
      var name := DataName(syms[r.sym].local, r.writable);
      CreateOther(name, Dyn(t, r.sym, Input(r.section), r.offset, r.addend));
      Mark(r.sym, !t.R_RELATIVE?);
    }

    /** Reserving a PLT entry once per symbol. */
    method NeedPlt(s: SymId)
      requires Valid() && s in syms
      modifies `gotplt, `plt, `rela, `relativeReloc, `log, `syms, `plts
      ensures Valid() && gots == old(gots) && Touched(old(syms), syms, s)
      ensures plts == if old(syms[s]).plt then old(plts) else old(plts) + [s]
      ensures PltTaken(old(syms[s]), syms[s]) && syms[s].funcAddr == old(syms[s]).funcAddr
      ensures log == if old(syms[s]).plt then old(log) else old(log) + [(RelaPlt, Dyn(R_JUMP_SLOT, s, Nowhere, 0, 0))]
      ensures syms[s].dynrel == (old(syms[s]).dynrel || !old(syms[s]).plt)
    {
      hide Valid;
      if !syms[s].plt {
        ReservePlt(s);
      }
    }

    /** What one scan does to the tables, whatever it does to the symbol's bookkeeping flags. */
    twostate predicate Scanned(r: Reloc)
      reads this
    {
      var s, t := r.sym, r.rtype;
      && s in old(syms) && Touched(old(syms), syms, s) && Evolves(opt, old(syms[s]), syms[s], t)
      && plts == (if WantsPlt(opt, old(syms[s]), t) && !old(syms[s]).plt then old(plts) + [s] else old(plts))
      && gots == (if SlotsWanted(opt, old(syms[s]), t) > 0 && !old(syms[s]).got
                  then old(gots) + [(s, SlotsWanted(opt, old(syms[s]), t))] else old(gots))
      && log == old(log) + Created(opt, old(syms[s]), r, syms[s])
      && syms[s].dynrel == (old(syms[s]).dynrel || Symbolic(Created(opt, old(syms[s]), r, syms[s])))
    }

    /** A function whose address is taken: its PLT entry becomes its address. */
    method PltForAddress(s: SymId)
      requires Valid() && s in syms
      modifies `gotplt, `plt, `rela, `relativeReloc, `log, `syms, `plts
      ensures Valid() && gots == old(gots) && Touched(old(syms), syms, s)
      ensures plts == if old(syms[s]).plt then old(plts) else old(plts) + [s]
      ensures PltTaken(old(syms[s]), syms[s]) && syms[s].funcAddr
      ensures log == if old(syms[s]).plt then old(log) else old(log) + [(RelaPlt, Dyn(R_JUMP_SLOT, s, Nowhere, 0, 0))]
      ensures syms[s].dynrel == (old(syms[s]).dynrel || !old(syms[s]).plt)
    {
      hide Valid, PltTaken;
      NeedPlt(s);
      AddressTaken(old(syms[s]), syms[s]);
      Update(s, syms[s].(funcAddr := true));
    }

    /** A copy relocation for an object of a DSO, once per symbol. */
    method NeedCopy(s: SymId) returns (required: bool)
      requires Valid() && s in syms
      modifies `rela, `relativeReloc, `log, `syms
      ensures Valid() && plts == old(plts) && gots == old(gots) && Touched(old(syms), syms, s)
      ensures Imported(opt, old(syms[s]), syms[s]) && (!required ==> syms == old(syms))
      ensures required == (RequireCopy(opt, old(syms[s])) && !old(syms[s]).copyReloc)
      ensures log == old(log) + CopyEntries(opt, old(syms[s]), s, syms[s].copyOff)
      ensures syms[s].dynrel == (old(syms[s]).dynrel || required)
    {
      hide Valid;
      required := RequireCopy(opt, syms[s]) && !syms[s].copyReloc;
      if required {
        CreateCopyReloc(s);
      }
    }

    /** The copy or dynamic relocation of an absolute relocation against a global symbol. */
    method AddressAtRuntime(r: Reloc)
      requires Valid() && r.sym in syms && IsAbsolute(r.rtype)
      modifies `rela, `relativeReloc, `log, `syms
      ensures Valid() && plts == old(plts) && gots == old(gots) && Touched(old(syms), syms, r.sym)
      ensures Imported(opt, old(syms[r.sym]), syms[r.sym])
      ensures log == old(log) + AddressEntries(opt, old(syms[r.sym]), r, syms[r.sym].copyOff)
      ensures syms[r.sym].dynrel
              == (old(syms[r.sym]).dynrel || Symbolic(AddressEntries(opt, old(syms[r.sym]), r, syms[r.sym].copyOff)))
    {
      hide Valid, Symbolic;
      ghost var y := syms[r.sym];
      var copied := NeedCopy(r.sym);
      AddressSymbolic(opt, y, r, syms[r.sym].copyOff);
      if !copied && RequireDynamic(opt, syms[r.sym], r.rtype) {
        if r.rtype == R_64 {
          CreateDynamicReloc(r, if RelativeRelax(opt, syms[r.sym]) then R_RELATIVE else R_64);
        }
      }
    }

    /** The RELATIVE relocation of a 64-bit address that may move. */
    method RelativeIfMoved(r: Reloc)
      requires Valid() && r.sym in syms && syms[r.sym].local
      modifies `rela, `relativeReloc, `log, `syms
      ensures Valid() && plts == old(plts) && gots == old(gots)
      ensures Touched(old(syms), syms, r.sym) && syms[r.sym] == old(syms[r.sym])
      ensures log == old(log) + LocalEntries(opt, old(syms[r.sym]), r)
    {
      hide Valid;
      if (opt.pie || opt.dso) && r.rtype == R_64 {
        CreateDynamicReloc(r, R_RELATIVE);
      }
    }

    /** Absolute relocations against a local symbol. */
    method ScanLocalAbsolute(r: Reloc)
      requires Valid() && r.sym in syms && IsAbsolute(r.rtype) && syms[r.sym].local
      modifies `rela, `relativeReloc, `log, `syms
      ensures Valid() && Scanned(r)
    {
      hide Valid, Evolves, RequirePlt, WantsPlt, SlotsWanted, Created, Symbolic, IsAbsolute, LocalEntries;
      RelativeIfMoved(r);
      LocalEvolves(opt, old(syms[r.sym]), syms[r.sym], r.rtype);
      CreatedForLocal(opt, old(syms[r.sym]), r, syms[r.sym]);
    }

    /** Absolute relocations: a PLT entry for a function of a DSO, then a copy or a dynamic relocation. */
    method ScanAbsolute(r: Reloc)
      requires Valid() && r.sym in syms && IsAbsolute(r.rtype)
      modifies `gotplt, `plt, `rela, `relativeReloc, `log, `syms, `plts
      ensures Valid() && Scanned(r)
    {
      hide Valid, Evolves, RequirePlt, WantsPlt, SlotsWanted, Imported, PltTaken, IsAbsolute, AddressEntries, Created;
      if syms[r.sym].local {
        ScanLocalAbsolute(r);
      } else {
        if RequirePlt(opt, syms[r.sym]) {
          PltForAddress(r.sym);
        }
        ghost var y := syms[r.sym];
        AddressAtRuntime(r);
        AddressEvolves(opt, old(syms[r.sym]), y, syms[r.sym], r.rtype);
        SameEntries(opt, old(syms[r.sym]), y, r, syms[r.sym].copyOff);
        CreatedForAddress(opt, old(syms[r.sym]), r, syms[r.sym], old(log));
        CreatedSymbolic(opt, old(syms[r.sym]), r, syms[r.sym]);
      }
    }

    /** PC-relative relocations: a PLT entry for a function, a copy of an object. */
    method ScanPcRelative(r: Reloc)
      requires Valid() && r.sym in syms && (r.rtype.R_PC64? || r.rtype.R_PC32? || r.rtype.R_PC16? || r.rtype.R_PC8?)
      modifies `gotplt, `plt, `rela, `relativeReloc, `log, `syms, `plts
      ensures Valid() && Scanned(r)
    {
      hide Valid, Evolves, RequirePlt, WantsPlt, SlotsWanted, Created, Symbolic;
      if syms[r.sym].local {
        LocalEvolves(opt, old(syms[r.sym]), syms[r.sym], r.rtype);
        CreatedForPc(opt, old(syms[r.sym]), r, syms[r.sym], old(log));
        CreatedSymbolic(opt, old(syms[r.sym]), r, syms[r.sym]);
      } else {
        ScanGlobalPc(r);
      }
    }

    method ScanGlobalPc(r: Reloc)
      requires Valid() && r.sym in syms && (r.rtype.R_PC64? || r.rtype.R_PC32? || r.rtype.R_PC16? || r.rtype.R_PC8?)
      requires !syms[r.sym].local
      modifies `gotplt, `plt, `rela, `relativeReloc, `log, `syms, `plts
      ensures Valid() && Scanned(r)
    {
      hide Valid, Evolves, RequirePlt, RequireCopy, WantsPlt, SlotsWanted, Imported, PltTaken, Created, Symbolic,
        CopyEntries;
      var s := r.sym;
      if RequirePlt(opt, syms[s]) {
        NeedPlt(s);
      }
      ghost var y := syms[s];
      var _ := NeedCopy(s);
      PcScanned(opt, old(syms[s]), y, syms[s], r, old(log));
    }

    method ScanPlt32(r: Reloc) returns (r': Reloc)
      requires Valid() && r.sym in syms && r.rtype == R_PLT32
      modifies this
      ensures Valid() && Scanned(r) && r' == r.(rtype := Rewritten(opt, old(syms[r.sym]), R_PLT32))
    {
      hide GotValid, PltValid, RelaValid;
      var y := syms[r.sym];
      if y.local || !RequirePlt(opt, y) {
        return r.(rtype := R_PC32);
      }
      if opt.exec && !y.undef && InRegular(y) {
        return r.(rtype := R_PC32);
      }
      NeedPlt(r.sym);
      CreatedSymbolic(opt, y, r, syms[r.sym]);
      return r;
    }

    /** New GOT slots, with a dynamic relocation for the first. */
    method NewGot(s: SymId, num: nat, t: RelType)
      requires Valid() && s in syms && !syms[s].got && num > 0 && t != R_DTPOFF64
      modifies `got, `gots, `at, `rela, `relativeReloc, `log, `syms
      ensures Valid() && plts == old(plts) && Touched(old(syms), syms, s)
      ensures gots == old(gots) + [(s, num)]
      ensures syms[s] == old(syms[s]).(got := true, gotOff := syms[s].gotOff, dynrel := syms[s].dynrel)
      ensures log == old(log) + [GotEntry(t, s, syms[s].gotOff)]
      ensures syms[s].dynrel == (old(syms[s]).dynrel || !t.R_RELATIVE?)
    {
      hide GotValid, PltValid, RelaValid, GotEntry, GotRelocOk;
      assert GotValid() && PltValid() && RelaValid();
      ReserveGot(s, num);
      FitsSlots(syms, s, t);
      CreateGotReloc(s, t, syms[s].gotOff);
    }

    /** Reserving `num` GOT slots once per symbol, with a dynamic relocation for the first. */
    method NeedGot(s: SymId, num: nat, t: RelType)
      requires Valid() && s in syms && num > 0 && t != R_DTPOFF64
      modifies `got, `gots, `at, `rela, `relativeReloc, `log, `syms
      ensures Valid() && plts == old(plts) && Touched(old(syms), syms, s)
      ensures gots == if old(syms[s]).got then old(gots) else old(gots) + [(s, num)]
      ensures GotTaken(old(syms[s]), syms[s]) && syms[s].tlsLd == old(syms[s]).tlsLd
      ensures log == if old(syms[s]).got then old(log) else old(log) + [GotEntry(t, s, syms[s].gotOff)]
      ensures syms[s].dynrel == (old(syms[s]).dynrel || (!old(syms[s]).got && !t.R_RELATIVE?))
    {
      hide Valid, GotEntry;
      if !syms[s].got {
        NewGot(s, num, t);
      }
    }

    /** `_create_tls_gd_reloc`: two slots, and a relocation for each. */
    method NeedGotPair(s: SymId)
      requires Valid() && s in syms
      modifies `got, `gots, `at, `rela, `relativeReloc, `log, `syms
      ensures Valid() && plts == old(plts) && Touched(old(syms), syms, s)
      ensures gots == if old(syms[s]).got then old(gots) else old(gots) + [(s, 2)]
      ensures GotTaken(old(syms[s]), syms[s]) && syms[s].tlsLd == old(syms[s]).tlsLd
      ensures var off := syms[s].gotOff;
              log == if old(syms[s]).got then old(log)
                     else old(log) + [GotEntry(R_DTPMOD64, s, off), GotEntry(R_DTPOFF64, s, off + 8)]
      ensures syms[s].dynrel == (old(syms[s]).dynrel || !old(syms[s]).got)
    {
      hide Valid, GotEntry, GotRelocOk;
      if !syms[s].got {
        NeedGot(s, 2, R_DTPMOD64);
        FitsSlots(syms, s, R_DTPOFF64);
        CreateGotReloc(s, R_DTPOFF64, syms[s].gotOff + 8);
      }
    }

    method ScanGot(r: Reloc)
      requires Valid() && r.sym in syms && (r.rtype.R_GOT32? || r.rtype.R_GOTPCREL?)
      modifies this
      ensures Valid() && Scanned(r)
    {
      hide Valid, Evolves, WantsPlt, GotTaken;
      NeedGot(r.sym, 1, if RequireGlobDat(opt, syms[r.sym]) then R_GLOB_DAT else R_RELATIVE);
      GotEvolves(opt, old(syms[r.sym]), syms[r.sym], r.rtype);
      CreatedSymbolic(opt, old(syms[r.sym]), r, syms[r.sym]);
    }

    /** TLS relocations; the relaxations the source calls invalid never come up. */
    method ScanTls(r: Reloc)
      requires Valid() && r.sym in syms && (r.rtype.R_TLSGD? || r.rtype.R_TLSLD? || r.rtype.R_GOTTPOFF?)
      modifies this
      ensures Valid() && Scanned(r)
    {
      hide Valid, Evolves, TlsCheckRelax, WantsPlt, GotTaken, SlotsWanted, Created, Symbolic, GotEntry;
      var s := r.sym;
      TlsSlots(opt, syms[s], r.rtype);
      var tr := TlsCheckRelax(opt, syms[s], r.rtype);
      if tr == INIT_EXEC {
        NeedGot(s, 1, R_TPOFF64);
      } else if tr == RELAX_NONE {
        if r.rtype == R_TLSGD {
          NeedGotPair(s);
        } else if r.rtype == R_TLSLD {
          ScanLocalDynamic(s);
        } else {
          NeedGot(s, 1, R_TPOFF64);
        }
      }
      GotEvolves(opt, old(syms[s]), syms[s], r.rtype);
      CreatedForTls(opt, old(syms[s]), r, syms[s]);
      CreatedSymbolic(opt, old(syms[s]), r, syms[s]);
    }

    /** `_create_tls_ld_reloc`. */
    method ScanLocalDynamic(s: SymId)
      requires Valid() && s in syms
      modifies this
      ensures Valid() && plts == old(plts) && Touched(old(syms), syms, s)
      ensures gots == if old(syms[s]).got then old(gots) else old(gots) + [(s, 2)]
      ensures GotTaken(old(syms[s]), syms[s]) && syms[s].tlsLd == (old(syms[s]).tlsLd || !old(syms[s]).got)
      ensures log == if old(syms[s]).got then old(log) else old(log) + [GotEntry(R_DTPMOD64, s, syms[s].gotOff)]
      ensures syms[s].dynrel == (old(syms[s]).dynrel || !old(syms[s]).got)
    {
      hide Valid;
      if !syms[s].got {
        NeedGot(s, 2, R_DTPMOD64);
        Update(s, syms[s].(tlsLd := true));
      }
    }

    /** `_scan_reloc`. */
    method Scan(r: Reloc) returns (r': Reloc)
      requires Valid() && r.sym in syms
      modifies this
      ensures Valid() && Scanned(r)
      ensures r' == r.(rtype := Rewritten(opt, old(syms[r.sym]), r.rtype))
    {
      hide GotValid, PltValid, RelaValid;
      r' := r;
      match r.rtype {
        case R_64 | R_32 | R_32S | R_16 | R_8 => ScanAbsolute(r);
        case R_PLT32 => r' := ScanPlt32(r);
        case R_PC64 | R_PC32 | R_PC16 | R_PC8 => ScanPcRelative(r);
        case R_GOTOFF64 | R_GOTPC32 =>
          assert GotValid();
          FindOrCreateGot();
        case R_GOT32 | R_GOTPCREL => ScanGot(r);
        case R_TLSGD | R_TLSLD | R_GOTTPOFF => ScanTls(r);
        case _ =>
      }
    }
  }

  lemma PltOther(syms: map<SymId, Symbol>, plt: Option<Section>, gotplt: Option<Section>, rela: map<RelaName, seq<Dyn>>,
                 name: RelaName, es: seq<Dyn>, plts: seq<SymId>)
    requires PltOk(syms, plt, gotplt, rela, plts) && name != RelaPlt
    ensures PltOk(syms, plt, gotplt, rela[name := es], plts)
  {
  }

  // ---------- whole runs ----------

  /** What processing a scanned relocation relies on: a GOT entry when it uses one, a PLT entry when
      it is still a PLT32. */
  ghost predicate Settled(opt: Options, syms: map<SymId, Symbol>, r: Reloc) {
    && r.sym in syms
    && (SlotsUsed(opt, syms[r.sym], r.rtype) > 0 ==> syms[r.sym].got)
    && (r.rtype == R_PLT32 ==> syms[r.sym].plt)
  }

  /** Later scans only ever make a symbol need fewer slots. */
  lemma EvolvesKeepsNeeds(opt: Options, y: Symbol, y': Symbol, t: RelType, u: RelType)
    requires Evolves(opt, y, y', t)
    ensures SlotsUsed(opt, y', u) <= SlotsUsed(opt, y, u)
    ensures y.got ==> y'.got && y'.gotOff == y.gotOff
    ensures y.plt ==> y'.plt
  {
  }

  lemma SettledByScan(opt: Options, y: Symbol, y': Symbol, t: RelType)
    requires Evolves(opt, y, y', t)
    ensures SlotsUsed(opt, y', Rewritten(opt, y, t)) > 0 ==> y'.got
    ensures Rewritten(opt, y, t) == R_PLT32 ==> y'.plt
  {
    EvolvesKeepsNeeds(opt, y, y', t, Rewritten(opt, y, t));
  }

  lemma SettledStays(opt: Options, before: map<SymId, Symbol>, after: map<SymId, Symbol>, s: SymId, t: RelType,
                     r: Reloc)
    requires s in before && Touched(before, after, s) && Evolves(opt, before[s], after[s], t)
    requires Settled(opt, before, r)
    ensures Settled(opt, after, r)
  {
    hide Evolves, SlotsUsed;
    EvolvesKeepsNeeds(opt, before[s], after[s], t, r.rtype);
  }

  /** Slots reserved for a symbol. */
  function WidthIn(gots: seq<(SymId, nat)>, s: SymId): nat {
    if gots == [] then 0
    else if gots[|gots| - 1].0 == s then gots[|gots| - 1].1
    else WidthIn(gots[..|gots| - 1], s)
  }

  lemma {:induction false} WidthOfOwner(gots: seq<(SymId, nat)>, i: nat)
    requires i < |gots| && forall a, b :: 0 <= a < b < |gots| ==> gots[a].0 != gots[b].0
    ensures WidthIn(gots, gots[i].0) == gots[i].1
  {
    if i < |gots| - 1 {
      WidthOfOwner(gots[..|gots| - 1], i);
    }
  }

  lemma {:induction false} WidthOfOthers(gots: seq<(SymId, nat)>, s: SymId)
    requires forall a :: 0 <= a < |gots| ==> gots[a].0 != s
    ensures WidthIn(gots, s) == 0
  {
    if gots != [] {
      WidthOfOthers(gots[..|gots| - 1], s);
    }
  }

  lemma GotMeansWidth(syms: map<SymId, Symbol>, got: Option<Section>, gots: seq<(SymId, nat)>, at: map<SymId, nat>,
                      s: SymId)
    requires GotOk(syms, got, gots, at) && s in syms
    ensures syms[s].got <==> WidthIn(gots, s) > 0
    ensures syms[s].got ==> s in at && at[s] < |gots| && gots[at[s]] == (s, WidthIn(gots, s))
  {
    forall a, b | 0 <= a < b < |gots|
      ensures gots[a].0 != gots[b].0
    {
      assert OwnerOk(syms, gots, at, a) && OwnerOk(syms, gots, at, b);
    }
    if syms[s].got {
      assert OwnerOk(syms, gots, at, at[s]);
      WidthOfOwner(gots, at[s]);
    } else {
      forall a | 0 <= a < |gots|
        ensures gots[a].0 != s
      {
        assert OwnerOk(syms, gots, at, a);
      }
      WidthOfOthers(gots, s);
    }
  }

  // ---------- what GOT entries hold ----------

  /** An entry with the symbol's address, its thread offset, its module and offset, or its module only. */
  datatype GotKind = NoSlots | Address(symbolic: bool) | ThreadOffset | ModuleAndOffset | ModuleOnly

  function Width(k: GotKind): nat {
    match k
    case NoSlots => 0
    case Address(_) => 1
    case ThreadOffset => 1
    case ModuleAndOffset => 2
    case ModuleOnly => 2
  }

  /** The entry the scan of a relocation wants for its symbol. */
  function KindWanted(opt: Options, y: Symbol, t: RelType): GotKind {
    match t
    case R_GOT32 => Address(RequireGlobDat(opt, y))
    case R_GOTPCREL => Address(RequireGlobDat(opt, y))
    case R_TLSGD =>
      (match TlsCheckRelax(opt, y, t)
       case RELAX_NONE => ModuleAndOffset
       case INIT_EXEC => ThreadOffset
       case LOCAL_EXEC => NoSlots)
    case R_TLSLD => if TlsCheckRelax(opt, y, t) == RELAX_NONE then ModuleOnly else NoSlots
    case R_GOTTPOFF => if TlsCheckRelax(opt, y, t) == RELAX_NONE then ThreadOffset else NoSlots
    case _ => NoSlots
  }

  /** The entry its processing reads. */
  function KindUsed(opt: Options, y: Symbol, t: RelType): GotKind {
    if t == R_GOT32 then NoSlots else KindWanted(opt, y, t)
  }

  lemma WidthOfKinds(opt: Options, y: Symbol, t: RelType)
    ensures SlotsWanted(opt, y, t) == Width(KindWanted(opt, y, t))
    ensures SlotsUsed(opt, y, t) == Width(KindUsed(opt, y, t))
    ensures SlotsWanted(opt, y, t) == 0 <==> KindWanted(opt, y, t).NoSlots?
  {
  }

  /** The dynamic relocations of an entry. */
  function Holding(k: GotKind, s: SymId, off: nat): seq<Dyn> {
    match k
    case NoSlots => []
    case Address(symbolic) => [GotEntry(if symbolic then R_GLOB_DAT else R_RELATIVE, s, off).1]
    case ThreadOffset => [GotEntry(R_TPOFF64, s, off).1]
    case ModuleAndOffset => [GotEntry(R_DTPMOD64, s, off).1, GotEntry(R_DTPOFF64, s, off + 8).1]
    case ModuleOnly => [GotEntry(R_DTPMOD64, s, off).1]
  }

  function ForSym(es: seq<Dyn>, s: SymId): seq<Dyn> {
    if es == [] then []
    else ForSym(es[..|es| - 1], s) + (if es[|es| - 1].sym == s then [es[|es| - 1]] else [])
  }

  lemma {:induction false} ForSymApp(a: seq<Dyn>, b: seq<Dyn>, s: SymId)
    ensures ForSym(a + b, s) == ForSym(a, s) + ForSym(b, s)
  {
    if b == [] {
      assert a + b == a;
    } else {
      var n := |b| - 1;
      ForSymApp(a, b[..n], s);
      assert (a + b)[..|a + b| - 1] == a + b[..n];
    }
  }

  lemma {:induction false} OfApp(a: seq<Entry>, b: seq<Entry>, name: RelaName)
    ensures Of(a + b, name) == Of(a, name) + Of(b, name)
  {
    if b == [] {
      assert a + b == a;
    } else {
      var n := |b| - 1;
      OfApp(a, b[..n], name);
      assert (a + b)[..|a + b| - 1] == a + b[..n];
    }
  }

  lemma OfOne(e: Entry, name: RelaName)
    ensures Of([], name) == [] && Of([e], name) == if e.0 == name then [e.1] else []
  {
    assert [e][..0] == [];
  }

  lemma ForSymOne(e: Dyn, s: SymId)
    ensures ForSym([], s) == [] && ForSym([e], s) == if e.sym == s then [e] else []
  {
    assert [e][..0] == [];
  }

  lemma OfTwo(d: Entry, e: Entry, name: RelaName)
    ensures Of([d, e], name) == Of([d], name) + Of([e], name)
  {
    assert [d, e] == [d] + [e];
    OfApp([d], [e], name);
  }

  /** Other relocations than those for the GOT go elsewhere. */
  lemma AddressOutsideGot(opt: Options, y: Symbol, r: Reloc, off: nat)
    ensures Of(PltEntries(opt, y, r.sym), RelaGot) == [] && Of(AddressEntries(opt, y, r, off), RelaGot) == []
    ensures Of(CopyEntries(opt, y, r.sym, off), RelaGot) == [] && Of(LocalEntries(opt, y, r), RelaGot) == []
  {
    hide Of, RequireCopy, RequirePlt, RequireDynamic, RelativeRelax;
    OfOne((RelaPlt, Dyn(R_JUMP_SLOT, r.sym, Nowhere, 0, 0)), RelaGot);
    OfOne((RelaBss, Dyn(R_COPY, r.sym, InDynbss, off, 0)), RelaGot);
    forall e: Entry | e.0 != RelaGot
      ensures Of([e], RelaGot) == []
    {
      OfOne(e, RelaGot);
    }
  }

  lemma GotEntriesHold(opt: Options, y: Symbol, s: SymId, t: RelType, off: nat)
    ensures Of(GotEntries(opt, y, s, t, off), RelaGot) == if y.got then [] else Holding(KindWanted(opt, y, t), s, off)
  {
    hide Of, RequireGlobDat, TlsCheckRelax, SlotsWanted, KindWanted;
    KindsOfEntries(opt, y, t);
    OfOne(GotEntry(R_GLOB_DAT, s, off), RelaGot);
    OfOne(GotEntry(R_RELATIVE, s, off), RelaGot);
    OfOne(GotEntry(R_TPOFF64, s, off), RelaGot);
    OfOne(GotEntry(R_DTPMOD64, s, off), RelaGot);
    OfOne(GotEntry(R_DTPOFF64, s, off + 8), RelaGot);
    OfTwo(GotEntry(R_DTPMOD64, s, off), GotEntry(R_DTPOFF64, s, off + 8), RelaGot);
  }

  lemma KindsOfEntries(opt: Options, y: Symbol, t: RelType)
    ensures KindWanted(opt, y, t)
            == if SlotsWanted(opt, y, t) == 0 then NoSlots
               else if t.R_GOT32? || t.R_GOTPCREL? then Address(RequireGlobDat(opt, y))
               else if SlotsWanted(opt, y, t) == 1 then ThreadOffset
               else if t.R_TLSGD? then ModuleAndOffset
               else ModuleOnly
  {
    hide RequireGlobDat;
  }

  lemma CreatedHolds(opt: Options, y: Symbol, r: Reloc, y': Symbol)
    ensures Of(Created(opt, y, r, y'), RelaGot)
            == if y.got then [] else Holding(KindWanted(opt, y, r.rtype), r.sym, y'.gotOff)
  {
    hide Of, Holding, GotEntries, PltEntries, AddressEntries, CopyEntries, LocalEntries, WantsPlt;
    AddressOutsideGot(opt, y, r, y'.copyOff);
    GotEntriesHold(opt, y, r.sym, r.rtype, y'.gotOff);
    OfApp(PltEntries(opt, y, r.sym), AddressEntries(opt, y, r, y'.copyOff), RelaGot);
    OfApp(PltEntries(opt, y, r.sym), CopyEntries(opt, y, r.sym, y'.copyOff), RelaGot);
    OfOne((RelaPlt, Dyn(R_JUMP_SLOT, r.sym, Nowhere, 0, 0)), RelaGot);
    if Direct(r.rtype) || r.rtype.R_PLT32? {
      NoEntryForDirect(opt, y, r.rtype, r.sym, y'.gotOff);
    }
  }

  lemma NoEntryForDirect(opt: Options, y: Symbol, t: RelType, s: SymId, off: nat)
    requires Direct(t) || t.R_PLT32?
    ensures Holding(KindWanted(opt, y, t), s, off) == []
  {
  }

  lemma HoldingForSym(k: GotKind, s: SymId, off: nat, x: SymId)
    ensures ForSym(Holding(k, s, off), x) == if x == s then Holding(k, s, off) else []
  {
    hide ForSym;
    ForSymOne(GotEntry(R_GLOB_DAT, s, off).1, x);
    ForSymOne(GotEntry(R_RELATIVE, s, off).1, x);
    ForSymOne(GotEntry(R_TPOFF64, s, off).1, x);
    ForSymOne(GotEntry(R_DTPMOD64, s, off).1, x);
    ForSymOne(GotEntry(R_DTPOFF64, s, off + 8).1, x);
    var d, e := GotEntry(R_DTPMOD64, s, off).1, GotEntry(R_DTPOFF64, s, off + 8).1;
    assert [d, e] == [d] + [e];
    ForSymApp([d], [e], x);
  }

  // ---------- whose request decides ----------

  /** Equal in all that decides what a relocation needs. */
  ghost predicate Alike(y: Symbol, z: Symbol) {
    && y.local == z.local && y.func == z.func && y.visible == z.visible && y.prot == z.prot
    && DefinedAs(y, z)
  }

  lemma AlikeNeeds(opt: Options, y: Symbol, z: Symbol, t: RelType)
    requires Alike(y, z)
    ensures KindWanted(opt, y, t) == KindWanted(opt, z, t) && KindUsed(opt, y, t) == KindUsed(opt, z, t)
    ensures Alike(Redefined(opt, y, t), Redefined(opt, z, t))
  {
  }

  lemma EvolvesAlike(opt: Options, y: Symbol, y': Symbol, t: RelType)
    requires Evolves(opt, y, y', t)
    ensures Alike(y', Redefined(opt, y, t))
    ensures y'.got == (y.got || !KindWanted(opt, y, t).NoSlots?) && (y.got ==> y'.gotOff == y.gotOff)
  {
    WidthOfKinds(opt, y, t);
  }

  /** A symbol as the relocations `rs` leave it defined: copy relocations bring it into the executable. */
  function DefAfter(opt: Options, y: Symbol, rs: seq<Reloc>, s: SymId): Symbol {
    if rs == [] then y
    else
      var r := rs[|rs| - 1];
      var z := DefAfter(opt, y, rs[..|rs| - 1], s);
      if r.sym == s then Redefined(opt, z, r.rtype) else z
  }

  /** The entry wanted by the first of the relocations against `s` that wants any. */
  function FirstKind(opt: Options, y: Symbol, rs: seq<Reloc>, s: SymId): GotKind {
    if rs == [] then NoSlots
    else
      var n := |rs| - 1;
      var k := FirstKind(opt, y, rs[..n], s);
      if k.NoSlots? && rs[n].sym == s then KindWanted(opt, DefAfter(opt, y, rs[..n], s), rs[n].rtype) else k
  }

  /** All that the scans keep about GOT entries. */
  datatype GotState = GotState(syms: map<SymId, Symbol>, gots: seq<(SymId, nat)>, rela: seq<Dyn>)

  ghost predicate HeldFor(opt: Options, was: GotState, now: GotState, rs: seq<Reloc>, s: SymId)
    requires s in was.syms && s in now.syms
  {
    var y, y', k := was.syms[s], now.syms[s], FirstKind(opt, was.syms[s], rs, s);
    && Alike(y', DefAfter(opt, y, rs, s))
    && (if y.got || k.NoSlots? then
          && y'.got == y.got && (y.got ==> y'.gotOff == y.gotOff)
          && WidthIn(now.gots, s) == WidthIn(was.gots, s) && ForSym(now.rela, s) == ForSym(was.rela, s)
        else y'.got && WidthIn(now.gots, s) == Width(k) && ForSym(now.rela, s) == Holding(k, s, y'.gotOff))
  }

  /** Every symbol has the entry it had, or the one the first relocation to want some asked for, with as many
      slots and with just the relocations of its kind. */
  ghost predicate Held(opt: Options, was: GotState, now: GotState, rs: seq<Reloc>) {
    now.syms.Keys == was.syms.Keys && forall s :: s in was.syms ==> HeldFor(opt, was, now, rs, s)
  }

  lemma OneReloc(opt: Options, y: Symbol, r: Reloc, s: SymId)
    ensures FirstKind(opt, y, [r], s) == if r.sym == s then KindWanted(opt, y, r.rtype) else NoSlots
    ensures DefAfter(opt, y, [r], s) == if r.sym == s then Redefined(opt, y, r.rtype) else y
    ensures FirstKind(opt, y, [], s) == NoSlots && DefAfter(opt, y, [], s) == y
  {
    assert [r][..0] == [];
  }

  lemma SnocReloc(opt: Options, y: Symbol, rs: seq<Reloc>, r: Reloc, s: SymId)
    ensures FirstKind(opt, y, rs + [r], s)
            == var k := FirstKind(opt, y, rs, s);
               if k.NoSlots? && r.sym == s then KindWanted(opt, DefAfter(opt, y, rs, s), r.rtype) else k
    ensures DefAfter(opt, y, rs + [r], s)
            == var z := DefAfter(opt, y, rs, s);
               if r.sym == s then Redefined(opt, z, r.rtype) else z
  {
    assert (rs + [r])[..|rs|] == rs;
  }

  lemma HeldSnoc(opt: Options, was: GotState, mid: GotState, now: GotState, rs: seq<Reloc>, r: Reloc)
    requires Held(opt, was, mid, rs) && Held(opt, mid, now, [r])
    ensures Held(opt, was, now, rs + [r])
  {
    hide KindWanted, Redefined, FirstKind, DefAfter, WidthIn, ForSym, Holding;
    forall s | s in was.syms
      ensures HeldFor(opt, was, now, rs + [r], s)
    {
      assert HeldFor(opt, was, mid, rs, s) && HeldFor(opt, mid, now, [r], s);
      OneReloc(opt, mid.syms[s], r, s);
      SnocReloc(opt, was.syms[s], rs, r, s);
      AlikeNeeds(opt, mid.syms[s], DefAfter(opt, was.syms[s], rs, s), r.rtype);
    }
  }

  lemma {:induction false} NoGotNoEntries(syms: map<SymId, Symbol>, es: seq<Dyn>, s: SymId)
    requires s in syms && !syms[s].got && forall i :: 0 <= i < |es| ==> GotRelocOk(syms, es[i])
    ensures ForSym(es, s) == []
  {
    if es != [] {
      NoGotNoEntries(syms, es[..|es| - 1], s);
      assert GotRelocOk(syms, es[|es| - 1]);
    }
  }

  /** One scan as far as the GOT is concerned. */
  lemma HeldByScan(opt: Options, was: GotState, now: GotState, got: Option<Section>, at: map<SymId, nat>, r: Reloc)
    requires GotOk(was.syms, got, was.gots, at) && r.sym in was.syms && Touched(was.syms, now.syms, r.sym)
    requires forall i :: 0 <= i < |was.rela| ==> GotRelocOk(was.syms, was.rela[i])
    requires var y, w := was.syms[r.sym], SlotsWanted(opt, was.syms[r.sym], r.rtype);
             && Evolves(opt, y, now.syms[r.sym], r.rtype)
             && now.gots == (if w > 0 && !y.got then was.gots + [(r.sym, w)] else was.gots)
             && now.rela == was.rela + Of(Created(opt, y, r, now.syms[r.sym]), RelaGot)
    ensures Held(opt, was, now, [r])
  {
    hide GotOk, GotRelocOk, SlotsWanted, Evolves, Created, Of, ForSym, Holding, KindWanted, Redefined, WidthIn,
      FirstKind, DefAfter;
    var y, y' := was.syms[r.sym], now.syms[r.sym];
    WidthOfKinds(opt, y, r.rtype);
    EvolvesAlike(opt, y, y', r.rtype);
    CreatedHolds(opt, y, r, y');
    forall s | s in was.syms
      ensures HeldFor(opt, was, now, [r], s)
    {
      OneReloc(opt, was.syms[s], r, s);
      GotMeansWidth(was.syms, got, was.gots, at, s);
      WidthSnoc(was.gots, r.sym, SlotsWanted(opt, y, r.rtype), s);
      ForSymApp(was.rela, Of(Created(opt, y, r, y'), RelaGot), s);
      HoldingForSym(KindWanted(opt, y, r.rtype), r.sym, y'.gotOff, s);
      ForSymNone(was.rela, s);
      if !was.syms[s].got {
        NoGotNoEntries(was.syms, was.rela, s);
      }
      NoKindHoldsNothing(r.sym, y'.gotOff);
    }
  }

  lemma NoKindHoldsNothing(s: SymId, off: nat)
    ensures Holding(NoSlots, s, off) == []
  {
  }

  lemma ForSymNone(es: seq<Dyn>, s: SymId)
    ensures ForSym([], s) == [] && es + [] == es
    ensures ForSym(es, s) + [] == ForSym(es, s) && [] + ForSym(es, s) == ForSym(es, s)
  {
  }

  lemma WidthSnoc(gots: seq<(SymId, nat)>, s: SymId, w: nat, x: SymId)
    ensures WidthIn(gots + [(s, w)], x) == if x == s then w else WidthIn(gots, x)
  {
    assert (gots + [(s, w)])[..|gots|] == gots;
  }

  /** One scan in a run: the symbols before and after it, and the dynamic relocations it creates. */
  ghost predicate OneScan(opt: Options, before: map<SymId, Symbol>, after: map<SymId, Symbol>,
                          r: Reloc, es: seq<Entry>) {
    && r.sym in before && Touched(before, after, r.sym)
    && Evolves(opt, before[r.sym], after[r.sym], r.rtype) && es == Created(opt, before[r.sym], r, after[r.sym])
    && after[r.sym].dynrel == (before[r.sym].dynrel || Symbolic(es))
  }

  /** A run of scans: `trace[i]` are the symbols before relocation `i`, `added[i]` is what it adds. */
  ghost predicate Traced(opt: Options, trace: seq<map<SymId, Symbol>>, rs: seq<Reloc>, added: seq<seq<Entry>>) {
    && |trace| == |rs| + 1 && |added| == |rs|
    && forall i :: 0 <= i < |rs| ==> OneScan(opt, trace[i], trace[i + 1], rs[i], added[i])
  }

  ghost function Flat(added: seq<seq<Entry>>): seq<Entry> {
    if added == [] then [] else Flat(added[..|added| - 1]) + added[|added| - 1]
  }

  lemma TracedSnoc(opt: Options, trace: seq<map<SymId, Symbol>>, rs: seq<Reloc>, added: seq<seq<Entry>>,
                   after: map<SymId, Symbol>, r: Reloc, es: seq<Entry>)
    requires Traced(opt, trace, rs, added) && OneScan(opt, trace[|rs|], after, r, es)
    ensures Traced(opt, trace + [after], rs + [r], added + [es]) && Flat(added + [es]) == Flat(added) + es
  {
    hide OneScan;
    var trace', rs', added' := trace + [after], rs + [r], added + [es];
    assert added'[..|added|] == added;
    forall i | 0 <= i < |rs'|
      ensures OneScan(opt, trace'[i], trace'[i + 1], rs'[i], added'[i])
    {
      if i < |rs| {
        assert trace'[i] == trace[i] && trace'[i + 1] == trace[i + 1] && rs'[i] == rs[i] && added'[i] == added[i];
      }
    }
  }

  method ScanAt(l: Linker, relocs: array<Reloc>, i: nat, ghost done: seq<Reloc>) returns (ghost es: seq<Entry>)
    requires l.Valid() && i < relocs.Length && relocs[i].sym in l.syms
    requires forall k :: 0 <= k < |done| ==> Settled(l.opt, l.syms, done[k])
    modifies l, relocs
    ensures l.Valid() && l.syms.Keys == old(l.syms.Keys)
    ensures forall k :: 0 <= k < relocs.Length && k != i ==> relocs[k] == old(relocs[k])
    ensures OneScan(l.opt, old(l.syms), l.syms, old(relocs[i]), es) && l.log == old(l.log) + es
    ensures relocs[i]
            == old(relocs[i]).(rtype := Rewritten(l.opt, old(l.syms)[old(relocs[i]).sym], old(relocs[i]).rtype))
    ensures Settled(l.opt, l.syms, relocs[i])
    ensures forall k :: 0 <= k < |done| ==> Settled(l.opt, l.syms, done[k])
    ensures old(l.plts) <= l.plts && old(l.gots) <= l.gots
    ensures Held(l.opt, old(l.GotNow()), l.GotNow(), [old(relocs[i])])
  {
    hide GotOk, PltOk, RelaGotOk, AllRelative, Entries, Evolves, Settled, Held, Rewritten, SlotsWanted, WantsPlt,
      Created, Of, Symbolic;
    ghost var syms, was, got, at := l.syms, l.GotNow(), l.got, l.at;
    GotEntriesOk(l);
    assert was.rela == Of(l.log, RelaGot);
    var r := relocs[i];
    var r' := l.Scan(r);
    es := Created(l.opt, syms[r.sym], r, l.syms[r.sym]);
    OfApp(old(l.log), Created(l.opt, syms[r.sym], r, l.syms[r.sym]), RelaGot);
    assert l.GotNow().rela == Of(l.log, RelaGot);
    HeldByScan(l.opt, was, l.GotNow(), got, at, r);
    relocs[i] := r';
    ScanSettles(l.opt, syms, l.syms, r);
    forall k | 0 <= k < |done|
      ensures Settled(l.opt, l.syms, done[k])
    {
      SettledStays(l.opt, syms, l.syms, r.sym, r.rtype, done[k]);
    }
  }

  lemma GotEntriesOk(l: Linker)
    requires l.RelaValid()
    ensures forall i :: 0 <= i < |l.GotNow().rela| ==> GotRelocOk(l.syms, l.GotNow().rela[i])
  {
  }

  lemma ScanSettles(opt: Options, before: map<SymId, Symbol>, after: map<SymId, Symbol>, r: Reloc)
    requires r.sym in before && r.sym in after && Evolves(opt, before[r.sym], after[r.sym], r.rtype)
    ensures Settled(opt, after, r.(rtype := Rewritten(opt, before[r.sym], r.rtype)))
  {
    hide Evolves, SlotsUsed, Rewritten;
    SettledByScan(opt, before[r.sym], after[r.sym], r.rtype);
  }

  /** Scanning any relocations, in place, in any order and over any number of calls. */
  method ScanAll(l: Linker, relocs: array<Reloc>)
    returns (ghost trace: seq<map<SymId, Symbol>>, ghost added: seq<seq<Entry>>)
    requires l.Valid() && forall i :: 0 <= i < relocs.Length ==> relocs[i].sym in l.syms
    modifies l, relocs
    ensures l.Valid() && l.syms.Keys == old(l.syms.Keys)
    ensures Traced(l.opt, trace, old(relocs[..]), added) && trace[0] == old(l.syms) && trace[relocs.Length] == l.syms
    ensures l.log == old(l.log) + Flat(added)
    ensures forall i :: 0 <= i < relocs.Length ==>
              relocs[i] == Processed(l.opt, trace[i], old(relocs[i]))
    ensures forall i :: 0 <= i < relocs.Length ==> Settled(l.opt, l.syms, relocs[i])
    ensures old(l.plts) <= l.plts && old(l.gots) <= l.gots
    ensures Held(l.opt, old(l.GotNow()), l.GotNow(), old(relocs[..]))
  {
    hide Linker.Valid, Settled, Held, Linker.GotNow, OneScan, Flat, Rewritten, Traced;
    ghost var was := relocs[..];
    NothingHeld(l.opt, l.GotNow());
    trace, added := [l.syms], [];
    NothingTraced(l.opt, l.syms);
    for i := 0 to relocs.Length
      invariant l.Valid() && l.syms.Keys == old(l.syms.Keys)
      invariant |trace| == i + 1 && trace[0] == old(l.syms) && trace[i] == l.syms
      invariant forall k :: 0 <= k <= i ==> trace[k].Keys == l.syms.Keys
      invariant Traced(l.opt, trace, was[..i], added) && l.log == old(l.log) + Flat(added)
      invariant forall k :: 0 <= k < i ==> relocs[k] == Processed(l.opt, trace[k], was[k])
      invariant forall k :: i <= k < relocs.Length ==> relocs[k] == was[k]
      invariant forall k :: 0 <= k < i ==> Settled(l.opt, l.syms, relocs[k])
      invariant old(l.plts) <= l.plts && old(l.gots) <= l.gots
      invariant Held(l.opt, old(l.GotNow()), l.GotNow(), was[..i])
    {
      ghost var done, mid := relocs[..i], l.GotNow();
      ghost var es := ScanAt(l, relocs, i, done);
      assert forall k :: 0 <= k < i ==> relocs[k] == done[k];
      HeldSnoc(l.opt, old(l.GotNow()), mid, l.GotNow(), was[..i], was[i]);
      assert was[..i] + [was[i]] == was[..i + 1] && |was[..i]| == i;
      TracedSnoc(l.opt, trace, was[..i], added, l.syms, was[i], es);
      trace, added := trace + [l.syms], added + [es];
    }
    assert was[..relocs.Length] == was;
  }

  /** The relocation as it is handed to processing. */
  ghost function Processed(opt: Options, syms: map<SymId, Symbol>, r: Reloc): Reloc {
    if r.sym in syms then r.(rtype := Rewritten(opt, syms[r.sym], r.rtype)) else r
  }

  lemma NothingTraced(opt: Options, syms: map<SymId, Symbol>)
    ensures Traced(opt, [syms], [], []) && Flat([]) == []
  {
  }

  lemma NothingHeld(opt: Options, now: GotState)
    ensures Held(opt, now, now, [])
  {
  }

  // ---------- what the scans leave behind ----------

  lemma {:induction false} SlotsMonotone(gots: seq<(SymId, nat)>, i: nat, j: nat)
    requires i < j <= |gots|
    ensures Slots(gots[..i]) + gots[i].1 <= Slots(gots[..j])
  {
    SlotsSplit(gots[..j], i);
    assert gots[..j][..i] == gots[..i];
  }

  /** Slots reserved for different symbols never overlap, and all of them lie in .got. */
  lemma SlotRangesDisjoint(l: Linker, s: SymId, t: SymId)
    requires l.Valid() && s in l.syms && t in l.syms && s != t && l.syms[s].got && l.syms[t].got
    ensures l.got.Some? && WidthIn(l.gots, s) > 0 && WidthIn(l.gots, t) > 0
    ensures l.syms[s].gotOff + 8 * WidthIn(l.gots, s) <= l.got.value.size
    ensures || l.syms[s].gotOff + 8 * WidthIn(l.gots, s) <= l.syms[t].gotOff
            || l.syms[t].gotOff + 8 * WidthIn(l.gots, t) <= l.syms[s].gotOff
  {
    hide WidthIn, Slots, Linker.PltValid, Linker.RelaValid;
    GotMeansWidth(l.syms, l.got, l.gots, l.at, s);
    GotMeansWidth(l.syms, l.got, l.gots, l.at, t);
    var i, j := l.at[s], l.at[t];
    assert OwnerOk(l.syms, l.gots, l.at, i) && OwnerOk(l.syms, l.gots, l.at, j);
    SlotsSplit(l.gots, i);
    if i < j {
      SlotsMonotone(l.gots, i, j);
    } else {
      SlotsMonotone(l.gots, j, i);
    }
  }

  /** With `n` PLT symbols: three reserved .got.plt entries and one each, PLT0 and one each, and one
      JUMP_SLOT each, in the same order. */
  lemma PltSectionSizes(l: Linker)
    requires l.Valid() && l.plts != []
    ensures var n := |l.plts|;
            && l.gotplt == Some(Section(8, 8 * (3 + n))) && l.plt == Some(Section(16, 16 * (1 + n)))
            && RelaPlt in l.rela && |l.rela[RelaPlt]| == n
            && (forall s :: s in l.syms ==> (l.syms[s].plt <==> exists k :: 0 <= k < n && l.rela[RelaPlt][k].sym == s))
            && (forall j, k :: 0 <= j < k < n ==> l.rela[RelaPlt][j].sym != l.rela[RelaPlt][k].sym)
            && (forall k :: 0 <= k < n ==> l.rela[RelaPlt][k].rtype == R_JUMP_SLOT)
  {
    hide Linker.GotValid, Linker.RelaValid;
    var es, n := l.rela[RelaPlt], |l.plts|;
    forall s | s in l.syms
      ensures l.syms[s].plt <==> exists k :: 0 <= k < n && es[k].sym == s
    {
      if s in l.plts {
        var k :| 0 <= k < n && l.plts[k] == s;
        assert es[k].sym == s;
      }
    }
  }

  /** What may happen to a symbol between the scans and the processing: anything that keeps its entries
      and does not take its definition out of the regular objects. */
  ghost predicate Later(y: Symbol, y': Symbol) {
    && y'.got == y.got && y'.gotOff == y.gotOff && y'.plt == y.plt
    && (!y.undef && InRegular(y) ==> !y'.undef && InRegular(y'))
  }

  /** Processing never asks for the GOT offset of a symbol without an entry, nor a PLT32 for a missing
      PLT entry; the address it uses is that of an 8-byte slot inside .got. */
  lemma GotNeverMissing(l: Linker, r: Reloc, y: Symbol)
    requires l.Valid() && Settled(l.opt, l.syms, r) && Later(l.syms[r.sym], y)
    ensures SlotsUsed(l.opt, y, r.rtype) > 0 ==>
              y.got && l.got.Some? && y.gotOff + 8 <= l.got.value.size && y.gotOff % 8 == 0
    ensures r.rtype == R_PLT32 ==> y.plt && l.plt.Some?
  {
    hide Slots, Linker.GotValid, Linker.PltValid, Linker.RelaValid, SlotsUsed;
    var was := l.syms[r.sym];
    LaterNeedsNoMore(l.opt, was, y, r.rtype);
    if was.got {
      SlotInside(l, r.sym);
    }
    PltThere(l, r.sym);
  }

  lemma LaterNeedsNoMore(opt: Options, y: Symbol, y': Symbol, t: RelType)
    requires Later(y, y')
    ensures SlotsUsed(opt, y', t) <= SlotsUsed(opt, y, t)
  {
  }

  lemma SlotInside(l: Linker, s: SymId)
    requires l.GotValid() && s in l.syms && l.syms[s].got
    ensures l.got.Some? && l.syms[s].gotOff + 8 <= l.got.value.size && l.syms[s].gotOff % 8 == 0
  {
    hide Slots;
    assert OwnerOk(l.syms, l.gots, l.at, l.at[s]);
    SlotsSplit(l.gots, l.at[s]);
  }

  lemma PltThere(l: Linker, s: SymId)
    requires l.PltValid() && s in l.syms
    ensures l.syms[s].plt ==> l.plt.Some?
  {
  }

  /** A definition that leaves the regular objects after the scan is the one thing that breaks this:
      a local-dynamic access scanned while its symbol was defined in the executable has no slot. */
  lemma DefinitionMustStay()
    ensures var opt := Options(true, false, false, true);
            var y := Symbol(false, false, true, false, false, false, false, 0, false, false, false, 0, false, false);
            && SlotsWanted(opt, y, R_TLSLD) == 0
            && SlotsUsed(opt, y.(undef := true), R_TLSLD) == 2
  {
  }

  // ---------- whether entries suffice ----------

  /** Relocation `k`'s symbol when that relocation is scanned. */
  function At(opt: Options, syms: map<SymId, Symbol>, rs: seq<Reloc>, k: nat): Symbol
    requires k < |rs| && rs[k].sym in syms
  {
    DefAfter(opt, syms[rs[k].sym], rs[..k], rs[k].sym)
  }

  predicate Known(syms: map<SymId, Symbol>, rs: seq<Reloc>) { forall k :: 0 <= k < |rs| ==> rs[k].sym in syms }

  /** Relocation `i` is the first against its symbol to want an entry. */
  ghost predicate First(opt: Options, syms: map<SymId, Symbol>, rs: seq<Reloc>, i: nat)
    requires Known(syms, rs)
  {
    && i < |rs| && !KindWanted(opt, At(opt, syms, rs, i), rs[i].rtype).NoSlots?
    && forall k :: 0 <= k < i && rs[k].sym == rs[i].sym ==> KindWanted(opt, At(opt, syms, rs, k), rs[k].rtype).NoSlots?
  }

  lemma {:induction false} FirstKindIs(opt: Options, syms: map<SymId, Symbol>, rs: seq<Reloc>, i: nat)
    requires Known(syms, rs) && First(opt, syms, rs, i)
    ensures FirstKind(opt, syms[rs[i].sym], rs, rs[i].sym) == KindWanted(opt, At(opt, syms, rs, i), rs[i].rtype)
  {
    hide KindWanted, DefAfter;
    var n := |rs| - 1;
    Shorter(opt, syms, rs, n);
    if i < n {
      assert First(opt, syms, rs[..n], i);
      FirstKindIs(opt, syms, rs[..n], i);
    } else {
      NoneFirst(opt, syms, rs[..n], rs[i].sym);
    }
  }

  lemma Shorter(opt: Options, syms: map<SymId, Symbol>, rs: seq<Reloc>, n: nat)
    requires Known(syms, rs) && n <= |rs|
    ensures Known(syms, rs[..n])
    ensures forall k :: 0 <= k < n ==> At(opt, syms, rs[..n], k) == At(opt, syms, rs, k)
  {
    hide DefAfter;
    forall k | 0 <= k < n
      ensures At(opt, syms, rs[..n], k) == At(opt, syms, rs, k)
    {
      assert rs[..n][..k] == rs[..k];
    }
  }

  lemma {:induction false} NoneFirst(opt: Options, syms: map<SymId, Symbol>, rs: seq<Reloc>, s: SymId)
    requires Known(syms, rs) && s in syms
    requires forall k :: 0 <= k < |rs| && rs[k].sym == s ==> KindWanted(opt, At(opt, syms, rs, k), rs[k].rtype).NoSlots?
    ensures FirstKind(opt, syms[s], rs, s).NoSlots?
  {
    hide KindWanted, DefAfter;
    if rs != [] {
      var n := |rs| - 1;
      Shorter(opt, syms, rs, n);
      assert forall k :: 0 <= k < n && rs[..n][k].sym == s ==> rs[k].sym == s;
      NoneFirst(opt, syms, rs[..n], s);
      if rs[n].sym == s {
        assert At(opt, syms, rs, n) == DefAfter(opt, syms[s], rs[..n], s);
      }
    }
  }

  /** The first request is at or before any other. */
  lemma FindFirst(opt: Options, syms: map<SymId, Symbol>, rs: seq<Reloc>, j: nat) returns (i: nat)
    requires Known(syms, rs) && j < |rs| && !KindWanted(opt, At(opt, syms, rs, j), rs[j].rtype).NoSlots?
    ensures i <= j && rs[i].sym == rs[j].sym && First(opt, syms, rs, i)
    decreases j
  {
    hide KindWanted, At;
    if k :| 0 <= k < j && rs[k].sym == rs[j].sym && !KindWanted(opt, At(opt, syms, rs, k), rs[k].rtype).NoSlots? {
      i := FindFirst(opt, syms, rs, k);
    } else {
      i := j;
    }
  }

  lemma RedefinedNeedsNoMore(opt: Options, y: Symbol, t: RelType, u: RelType)
    ensures var k, k' := KindUsed(opt, y, u), KindUsed(opt, Redefined(opt, y, t), u);
            k'.NoSlots? || k' == k || (k.Address? && k'.Address?)
  {
  }

  predicate SameUse(k: GotKind, k': GotKind) { k == k' || (k.Address? && k'.Address?) }

  /** What a relocation reads at the end it wanted when it was scanned. */
  lemma {:induction false} UsedWasWanted(opt: Options, y: Symbol, rs: seq<Reloc>, s: SymId, n: nat, u: RelType)
    requires n <= |rs| && !KindUsed(opt, DefAfter(opt, y, rs, s), u).NoSlots?
    ensures SameUse(KindUsed(opt, DefAfter(opt, y, rs[..n], s), u), KindUsed(opt, DefAfter(opt, y, rs, s), u))
  {
    hide KindUsed, Redefined;
    if n < |rs| {
      var m := |rs| - 1;
      RedefinedNeedsNoMore(opt, DefAfter(opt, y, rs[..m], s), rs[m].rtype, u);
      UsedWasWanted(opt, y, rs[..m], s, n, u);
      assert rs[..m][..n] == rs[..n];
    } else {
      assert rs[..n] == rs;
    }
  }

  /** The entry relocation `j` reads when it is processed after all scans. */
  function UsedAtEnd(opt: Options, syms: map<SymId, Symbol>, rs: seq<Reloc>, j: nat): GotKind
    requires j < |rs| && rs[j].sym in syms
  {
    KindUsed(opt, DefAfter(opt, syms[rs[j].sym], rs, rs[j].sym), rs[j].rtype)
  }

  lemma UserHasFirst(opt: Options, syms: map<SymId, Symbol>, rs: seq<Reloc>, j: nat) returns (i: nat)
    requires Known(syms, rs) && j < |rs| && !UsedAtEnd(opt, syms, rs, j).NoSlots?
    ensures i <= j && rs[i].sym == rs[j].sym && First(opt, syms, rs, i)
    ensures SameUse(KindWanted(opt, At(opt, syms, rs, j), rs[j].rtype), UsedAtEnd(opt, syms, rs, j))
  {
    hide KindWanted, DefAfter, First;
    UsedWasWanted(opt, syms[rs[j].sym], rs, rs[j].sym, j, rs[j].rtype);
    i := FindFirst(opt, syms, rs, j);
  }

  /** A general- or local-dynamic access to a symbol whose entry was made with one slot, for an earlier one. */
  ghost predicate Short(opt: Options, syms: map<SymId, Symbol>, rs: seq<Reloc>, i: nat, j: nat)
    requires Known(syms, rs)
  {
    && i < j < |rs| && rs[i].sym == rs[j].sym && First(opt, syms, rs, i)
    && Width(KindWanted(opt, At(opt, syms, rs, i), rs[i].rtype)) == 1 && Width(UsedAtEnd(opt, syms, rs, j)) == 2
  }

  /** In every link mode each relocation has all the slots it uses exactly when no symbol is first asked
      for one slot by one relocation and used with two by a later one. */
  lemma SlotsSufficeIff(opt: Options, was: GotState, now: GotState, rs: seq<Reloc>)
    requires Held(opt, was, now, rs) && Known(was.syms, rs) && forall s :: s in was.syms ==> !was.syms[s].got
    ensures (forall j :: 0 <= j < |rs| ==>
               SlotsUsed(opt, now.syms[rs[j].sym], rs[j].rtype) <= WidthIn(now.gots, rs[j].sym))
            <==> !exists i, j :: Short(opt, was.syms, rs, i, j)
  {
    hide First, KindWanted, KindUsed, SlotsUsed, WidthIn, FirstKind, DefAfter, At, ForSym, Holding;
    forall j | 0 <= j < |rs|
      ensures SlotsUsed(opt, now.syms[rs[j].sym], rs[j].rtype) == Width(UsedAtEnd(opt, was.syms, rs, j))
    {
      AtEnd(opt, was, now, rs, j);
    }
    if i, j :| Short(opt, was.syms, rs, i, j) {
      EntryFrom(opt, was, now, rs, i);
    } else {
      forall j | 0 <= j < |rs|
        ensures Width(UsedAtEnd(opt, was.syms, rs, j)) <= WidthIn(now.gots, rs[j].sym)
      {
        if !UsedAtEnd(opt, was.syms, rs, j).NoSlots? {
          var i := UserHasFirst(opt, was.syms, rs, j);
          EntryFrom(opt, was, now, rs, i);
          assert !Short(opt, was.syms, rs, i, j);
        }
      }
    }
  }

  predicate WantsOne(t: RelType) { t.R_GOT32? || t.R_GOTPCREL? || t.R_GOTTPOFF? }

  predicate WantsTwo(t: RelType) { t.R_TLSGD? || t.R_TLSLD? }

  /** In a shared object the types of the relocations decide this. */
  lemma ShortInDso(opt: Options, syms: map<SymId, Symbol>, rs: seq<Reloc>, i: nat, j: nat)
    requires Known(syms, rs) && opt.dynamicLink && opt.dso
    ensures Short(opt, syms, rs, i, j)
            <==> (&& i < j < |rs| && rs[i].sym == rs[j].sym && WantsOne(rs[i].rtype) && WantsTwo(rs[j].rtype)
                  && forall k :: 0 <= k < i && rs[k].sym == rs[i].sym ==>
                    !WantsOne(rs[k].rtype) && !WantsTwo(rs[k].rtype))
  {
    hide KindWanted, DefAfter, At;
    forall y, t
      ensures Width(KindWanted(opt, y, t)) == if WantsOne(t) then 1 else if WantsTwo(t) then 2 else 0
      ensures Width(KindWanted(opt, y, t)) == 0 <==> KindWanted(opt, y, t).NoSlots?
    {
      WidthInDso(opt, y, t);
    }
  }

  lemma WidthInDso(opt: Options, y: Symbol, t: RelType)
    requires opt.dynamicLink && opt.dso
    ensures Width(KindWanted(opt, y, t)) == if WantsOne(t) then 1 else if WantsTwo(t) then 2 else 0
    ensures Width(KindWanted(opt, y, t)) == 0 <==> KindWanted(opt, y, t).NoSlots?
  {
  }

  /** In an executable it takes a local-dynamic access to a symbol that stays outside the regular objects,
      behind a first request of any other kind. */
  lemma ShortInExecutable(opt: Options, syms: map<SymId, Symbol>, rs: seq<Reloc>, i: nat, j: nat)
    requires Known(syms, rs) && opt.dynamicLink && !opt.dso
    ensures Short(opt, syms, rs, i, j)
            <==> (&& i < j < |rs| && rs[i].sym == rs[j].sym && First(opt, syms, rs, i)
                  && !rs[i].rtype.R_TLSLD? && rs[j].rtype.R_TLSLD?
                  && var y := DefAfter(opt, syms[rs[j].sym], rs, rs[j].sym);
                     y.undef || y.inDso)
  {
    hide DefAfter;
  }

  lemma AtEnd(opt: Options, was: GotState, now: GotState, rs: seq<Reloc>, j: nat)
    requires Held(opt, was, now, rs) && Known(was.syms, rs) && j < |rs|
    ensures KindUsed(opt, now.syms[rs[j].sym], rs[j].rtype) == UsedAtEnd(opt, was.syms, rs, j)
    ensures SlotsUsed(opt, now.syms[rs[j].sym], rs[j].rtype) == Width(UsedAtEnd(opt, was.syms, rs, j))
  {
    hide KindUsed, KindWanted, SlotsUsed, DefAfter, WidthIn, FirstKind, ForSym, Holding;
    var s := rs[j].sym;
    assert HeldFor(opt, was, now, rs, s);
    AlikeNeeds(opt, now.syms[s], DefAfter(opt, was.syms[s], rs, s), rs[j].rtype);
    WidthOfKinds(opt, now.syms[s], rs[j].rtype);
  }

  /** The entry a symbol ends up with is the one its first request asked for. */
  lemma EntryFrom(opt: Options, was: GotState, now: GotState, rs: seq<Reloc>, i: nat)
    requires Held(opt, was, now, rs) && Known(was.syms, rs) && First(opt, was.syms, rs, i) && !was.syms[rs[i].sym].got
    ensures var k, s := KindWanted(opt, At(opt, was.syms, rs, i), rs[i].rtype), rs[i].sym;
            && now.syms[s].got && WidthIn(now.gots, s) == Width(k) && Width(k) > 0
            && ForSym(now.rela, s) == Holding(k, s, now.syms[s].gotOff)
  {
    hide KindWanted, WidthIn, FirstKind, DefAfter, At, ForSym, Holding;
    FirstKindIs(opt, was.syms, rs, i);
    assert HeldFor(opt, was, now, rs, rs[i].sym);
  }

  /** The relocations of an entry at `off` are those an access of kind `k` needs there. */
  ghost predicate Serves(es: seq<Dyn>, s: SymId, off: nat, k: GotKind) {
    match k
    case NoSlots => true
    case Address(_) => es == Holding(Address(true), s, off) || es == Holding(Address(false), s, off)
    case _ => es == Holding(k, s, off)
  }

  lemma ServesIff(k: GotKind, used: GotKind, s: SymId, off: nat)
    requires !k.NoSlots? && !used.NoSlots?
    ensures Serves(Holding(k, s, off), s, off, used) <==> SameUse(k, used)
  {
    assert GotEntry(R_TPOFF64, s, off).1.rtype.R_TPOFF64? && GotEntry(R_DTPMOD64, s, off).1.rtype.R_DTPMOD64?;
    assert Holding(used, s, off)[0] == Holding(k, s, off)[0] || Holding(used, s, off) != Holding(k, s, off);
  }

  /** An access to a symbol whose entry was made for another kind of access. */
  ghost predicate Mixed(opt: Options, syms: map<SymId, Symbol>, rs: seq<Reloc>, i: nat, j: nat)
    requires Known(syms, rs)
  {
    && i < j < |rs| && rs[i].sym == rs[j].sym && First(opt, syms, rs, i)
    && !UsedAtEnd(opt, syms, rs, j).NoSlots?
    && !SameUse(KindWanted(opt, At(opt, syms, rs, i), rs[i].rtype), UsedAtEnd(opt, syms, rs, j))
  }

  /** In every link mode each relocation finds its slots filled as its kind of access needs exactly when no
      symbol is first asked for one kind of entry and later used as another. */
  lemma SlotsServeIff(opt: Options, was: GotState, now: GotState, rs: seq<Reloc>)
    requires Held(opt, was, now, rs) && Known(was.syms, rs) && forall s :: s in was.syms ==> !was.syms[s].got
    ensures (forall j :: 0 <= j < |rs| ==>
               var s := rs[j].sym;
               Serves(ForSym(now.rela, s), s, now.syms[s].gotOff, KindUsed(opt, now.syms[s], rs[j].rtype)))
            <==> !exists i, j :: Mixed(opt, was.syms, rs, i, j)
  {
    hide First, KindWanted, KindUsed, WidthIn, FirstKind, DefAfter, At, ForSym, Holding, Serves, HeldFor;
    forall j | 0 <= j < |rs|
      ensures KindUsed(opt, now.syms[rs[j].sym], rs[j].rtype) == UsedAtEnd(opt, was.syms, rs, j)
    {
      AtEnd(opt, was, now, rs, j);
    }
    if i, j :| Mixed(opt, was.syms, rs, i, j) {
      EntryServes(opt, was, now, rs, i, UsedAtEnd(opt, was.syms, rs, j));
    } else {
      forall j | 0 <= j < |rs|
        ensures var s := rs[j].sym;
                Serves(ForSym(now.rela, s), s, now.syms[s].gotOff, UsedAtEnd(opt, was.syms, rs, j))
      {
        if UsedAtEnd(opt, was.syms, rs, j).NoSlots? {
          NothingToServe(ForSym(now.rela, rs[j].sym), rs[j].sym, now.syms[rs[j].sym].gotOff);
        } else {
          var i := UserHasFirst(opt, was.syms, rs, j);
          EntryServes(opt, was, now, rs, i, UsedAtEnd(opt, was.syms, rs, j));
          assert !Mixed(opt, was.syms, rs, i, j);
        }
      }
    }
  }

  lemma NothingToServe(es: seq<Dyn>, s: SymId, off: nat)
    ensures Serves(es, s, off, NoSlots)
  {
  }

  lemma EntryServes(opt: Options, was: GotState, now: GotState, rs: seq<Reloc>, i: nat, used: GotKind)
    requires Held(opt, was, now, rs) && Known(was.syms, rs) && !used.NoSlots?
    requires i < |rs| && First(opt, was.syms, rs, i) && !was.syms[rs[i].sym].got
    ensures var k, s := KindWanted(opt, At(opt, was.syms, rs, i), rs[i].rtype), rs[i].sym;
            Serves(ForSym(now.rela, s), s, now.syms[s].gotOff, used) <==> SameUse(k, used)
  {
    hide KindWanted, WidthIn, FirstKind, DefAfter, At, ForSym, Holding, Serves, HeldFor, First;
    EntryFrom(opt, was, now, rs, i);
    FirstWants(opt, was.syms, rs, i);
    ServesIff(KindWanted(opt, At(opt, was.syms, rs, i), rs[i].rtype), used, rs[i].sym, now.syms[rs[i].sym].gotOff);
  }

  lemma FirstWants(opt: Options, syms: map<SymId, Symbol>, rs: seq<Reloc>, i: nat)
    requires Known(syms, rs) && First(opt, syms, rs, i)
    ensures !KindWanted(opt, At(opt, syms, rs, i), rs[i].rtype).NoSlots?
  {
  }

  // ---------- inputs on which they do not ----------

  /** A global that another object may define. */
  function Undefined(): Symbol {
    Symbol(false, false, true, false, true, false, false, 0, false, false, false, 0, false, false)
  }

  function Two(t: RelType, u: RelType): seq<Reloc> {
    [Reloc(t, 0, 0, 0, 0, false), Reloc(u, 0, 0, 8, 0, false)]
  }

  lemma TwoRelocs(opt: Options, t: RelType, u: RelType)
    requires !Direct(t) && !Direct(u) && !KindWanted(opt, Undefined(), t).NoSlots?
    ensures var syms, rs := map[0 := Undefined()], Two(t, u);
            && Known(syms, rs) && First(opt, syms, rs, 0) && At(opt, syms, rs, 0) == Undefined()
            && UsedAtEnd(opt, syms, rs, 1) == KindUsed(opt, Undefined(), u)
  {
    hide KindWanted, KindUsed;
    var rs := Two(t, u);
    SnocReloc(opt, Undefined(), [rs[0]], rs[1], 0);
    OneReloc(opt, Undefined(), rs[0], 0);
    assert [rs[0]] + [rs[1]] == rs && rs[..0] == [];
  }

  /** In a shared object an initial-exec access before a general-dynamic one, in an executable an
      initial-exec access before a local-dynamic one: one slot is reserved where two are used. */
  lemma OneSlotForTwo()
    ensures var syms := map[0 := Undefined()];
            && Known(syms, Two(R_GOTTPOFF, R_TLSGD)) && Known(syms, Two(R_GOTTPOFF, R_TLSLD))
            && Short(Options(true, true, false, false), syms, Two(R_GOTTPOFF, R_TLSGD), 0, 1)
            && Short(Options(true, false, false, true), syms, Two(R_GOTTPOFF, R_TLSLD), 0, 1)
  {
    TwoRelocs(Options(true, true, false, false), R_GOTTPOFF, R_TLSGD);
    TwoRelocs(Options(true, false, false, true), R_GOTTPOFF, R_TLSLD);
  }

  /** A general-dynamic access before an initial-exec one has slots enough, but the second reads a module
      number for a thread offset. */
  lemma ModuleForOffset()
    ensures var opt, syms, rs := Options(true, true, false, false), map[0 := Undefined()], Two(R_TLSGD, R_GOTTPOFF);
            Known(syms, rs) && Mixed(opt, syms, rs, 0, 1) && !Short(opt, syms, rs, 0, 1)
  {
    TwoRelocs(Options(true, true, false, false), R_TLSGD, R_GOTTPOFF);
  }

  /** Without dynamic linking there is nothing to mix: no relocation needs more than an address. */
  lemma StaticNeverMixes(opt: Options, syms: map<SymId, Symbol>, rs: seq<Reloc>, i: nat, j: nat)
    requires Known(syms, rs) && !opt.dynamicLink
    ensures !Mixed(opt, syms, rs, i, j) && !Short(opt, syms, rs, i, j)
  {
    hide DefAfter;
  }
}
