/** What the options of strip and elfcopy mean for a symbol, in terms of its fields, its section and who
    names it: elfcopy/symbols.c, `is_remove_symbol` and the first loop of `generate_symbols`, read off the
    written tables. */
module SymbolRules {
  import opened Bytes
  import opened SymbolTable

  // ---------- what is known about an input symbol ----------

  function Binding(s: InSym): nat { s.sym.info / 16 }

  function Kind(s: InSym): nat { s.sym.info % 16 }

  /** STB_GLOBAL, STB_WEAK or STB_GNU_UNIQUE. */
  predicate External(s: InSym) { Binding(s) == 1 || Binding(s) == 2 || Binding(s) == 10 }

  /** A section or a file symbol. */
  predicate ForDebugging(s: InSym) { Kind(s) == 3 || Kind(s) == 4 }

  /** Undefined, absolute or common, or defined in a section that stays. */
  predicate SectionStays(obj: Object, s: InSym)
    requires s.sym.shndx < 0xff00 ==> s.sym.shndx < |obj.secndx|
  {
    s.sym.shndx == 0 || s.sym.shndx >= 0xff00 || obj.secndx[s.sym.shndx] != 0
  }

  ghost predicate InReloc(obj: Object, i: nat) {
    exists k, j :: 0 <= k < |obj.rels| && 0 <= j < |obj.rels[k].rels| && !obj.rels[k].removed && obj.rels[k].forSymtab
                   && obj.rels[k].rels[j].info / 0x1_0000_0000 == i
  }

  ghost predicate InGroup(obj: Object, i: nat) {
    exists k :: 0 <= k < |obj.groups| && !obj.groups[k].removed && obj.groups[k].sym == i
  }

  /** Something in the output refers to it, or may do so later. */
  ghost predicate Wanted(o: Options, obj: Object, i: nat)
    requires i < |obj.syms|
  {
    InReloc(obj, i) || InGroup(obj, i) || (o.relocatable && External(obj.syms[i]))
  }

  // ---------- which symbols are written ----------

  /** The bindings that are read: local, global, weak and unique ones. */
  lemma BindingsAllowed(obj: Object, s: InSym)
    requires s.sym.shndx < 0xff00 ==> s.sym.shndx < |obj.secndx|
    ensures SymOk(obj, s) <==> Binding(s) == 0 || External(s)
  {
  }

  /** What `generate_symbols` ensures. */
  ghost predicate Outcome(o: Options, obj: Object, r: Option<Output>)
    requires WellFormed(o, obj)
  {
    && (r.None? <==> |Picks(o, obj, |obj.syms|, true)| <= 1 && Picks(o, obj, |obj.syms|, false) == [])
    && (r.Some? ==> Faithful(o, obj, r.value))
  }

  /** The index map leads from symbol `i` to an entry of its own; entry 0 is the reserved one. */
  predicate Written(r: Option<Output>, i: nat) {
    r.Some? && i < |r.value.symndx| && 0 < r.value.symndx[i] < |r.value.symtab|
  }

  /** A symbol of the input behind the reserved one, which has no name and is not asked to become global. */
  ghost predicate Case(o: Options, obj: Object, r: Option<Output>, i: nat) {
    WellFormed(o, obj) && Outcome(o, obj, r) && 0 < i < |obj.syms| && SymOk(obj, obj.syms[i]) && !o.globalize([])
  }

  lemma ReservedStays(o: Options, obj: Object)
    requires WellFormed(o, obj) && obj.syms != [] && !o.globalize([])
    ensures SymOk(obj, obj.syms[0]) && Kept(o, obj, 0) && IsLocal(NewInfo(o, obj.syms[0]))
  {
    assert SymOk(obj, obj.syms[0]);
  }

  lemma FirstPicked(o: Options, obj: Object)
    requires WellFormed(o, obj) && obj.syms != [] && !o.globalize([])
    ensures var p := Picks(o, obj, |obj.syms|, true); |p| > 0 && p[0] == 0
  {
    hide NewInfo, Removed, WellFormed, SymOk, IsLocal;
    var p := Picks(o, obj, |obj.syms|, true);
    ReservedStays(o, obj);
    assert 0 in p;
    var j :| 0 <= j < |p| && p[j] == 0;
    OnlyFirstIsZero(p, j);
  }

  lemma OnlyFirstIsZero(p: seq<nat>, j: nat)
    requires j < |p| && forall i, k :: 0 <= i < k < |p| ==> p[i] < p[k]
    ensures p[j] == 0 ==> j == 0
  {
    if j > 0 {
      assert p[0] < p[j];
    }
  }

  lemma PickedAt(p: seq<nat>, i: nat) returns (j: nat)
    requires i in p
    ensures j < |p| && p[j] == i
  {
    j :| 0 <= j < |p| && p[j] == i;
  }

  /** The filter alone decides what is written. */
  lemma WrittenIsKept(o: Options, obj: Object, r: Option<Output>, i: nat)
    requires Case(o, obj, r, i)
    ensures Written(r, i) <==> Kept(o, obj, i)
  {
    hide NewInfo, Removed, WellFormed, SymOk, Kept, Picks, IsLocal, Denotes, SectionSyms;
    FirstPicked(o, obj);
    var p, q := Picks(o, obj, |obj.syms|, true), Picks(o, obj, |obj.syms|, false);
    if Kept(o, obj, i) {
      assert i in p || i in q;
      if i in p {
        var j := PickedAt(p, i);
      } else {
        var j := PickedAt(q, i);
      }
    }
  }

  // ---------- the filter, option by option ----------

  lemma NamedMeans(obj: Object, i: nat)
    requires 0 < i
    ensures NamedByReloc(obj, i) <==> InReloc(obj, i)
    ensures NamedByGroup(obj, i) <==> InGroup(obj, i)
  {
    if NamedByReloc(obj, i) {
      var k :| 0 <= k < |obj.rels| && !obj.rels[k].removed && obj.rels[k].forSymtab && NamedInRels(obj.rels[k].rels, i);
      var j :| 0 <= j < |obj.rels[k].rels| && RSym(obj.rels[k].rels[j].info) == i;
      assert obj.rels[k].rels[j].info / 0x1_0000_0000 == i;
    }
    if InReloc(obj, i) {
      var k, j :| 0 <= k < |obj.rels| && 0 <= j < |obj.rels[k].rels| && !obj.rels[k].removed && obj.rels[k].forSymtab
                  && obj.rels[k].rels[j].info / 0x1_0000_0000 == i;
      assert RSym(obj.rels[k].rels[j].info) == i;
      assert NamedInRels(obj.rels[k].rels, i);
    }
  }

  /** Without an option that drops symbols, exactly those of removed sections go. */
  lemma NothingAsked(o: Options, obj: Object, r: Option<Output>, i: nat)
    requires Case(o, obj, r, i) && !o.strip.StripAll? && !o.strip.StripUnneeded? && !o.strip.StripDebug?
    requires !o.stripSym(obj.syms[i].name) && !o.discardLocal && !o.discardLLabel
    ensures Written(r, i) <==> SectionStays(obj, obj.syms[i])
  {
    hide WellFormed, NamedByReloc, NamedByGroup;
    WrittenIsKept(o, obj, r, i);
  }

  /** --strip-debug drops, besides, the section and file symbols that nothing wants. */
  lemma StripDebugDrops(o: Options, obj: Object, r: Option<Output>, i: nat)
    requires Case(o, obj, r, i) && o.strip.StripDebug?
    requires !o.stripSym(obj.syms[i].name) && !o.discardLocal && !o.discardLLabel
    ensures Written(r, i)
            <==> SectionStays(obj, obj.syms[i])
                 && (!ForDebugging(obj.syms[i]) || Wanted(o, obj, i) || o.keep(obj.syms[i].name))
  {
    hide WellFormed, NamedByReloc, NamedByGroup, InReloc, InGroup;
    NamedMeans(obj, i);
    WrittenIsKept(o, obj, r, i);
  }

  /** --strip-unneeded leaves the wanted symbols and those of -K, whatever -x and -X say. */
  lemma StripUnneededKeeps(o: Options, obj: Object, r: Option<Output>, i: nat)
    requires Case(o, obj, r, i) && o.strip.StripUnneeded? && !o.stripSym(obj.syms[i].name)
    ensures Written(r, i)
            <==> SectionStays(obj, obj.syms[i]) && (Wanted(o, obj, i) || o.keep(obj.syms[i].name))
  {
    hide WellFormed, NamedByReloc, NamedByGroup, InReloc, InGroup;
    NamedMeans(obj, i);
    WrittenIsKept(o, obj, r, i);
  }

  /** --strip-all leaves those of -K only. */
  lemma StripAllKeeps(o: Options, obj: Object, r: Option<Output>, i: nat)
    requires Case(o, obj, r, i) && o.strip.StripAll?
    ensures Written(r, i) <==> SectionStays(obj, obj.syms[i]) && o.keep(obj.syms[i].name)
  {
    hide WellFormed, NamedByReloc, NamedByGroup;
    WrittenIsKept(o, obj, r, i);
  }

  /** -N drops a symbol unless a relocation names it or -K does; a group does not save it. */
  lemma NamedToBeStripped(o: Options, obj: Object, r: Option<Output>, i: nat)
    requires Case(o, obj, r, i) && !o.strip.StripAll? && o.stripSym(obj.syms[i].name)
    ensures Written(r, i)
            <==> SectionStays(obj, obj.syms[i]) && (InReloc(obj, i) || o.keep(obj.syms[i].name))
  {
    hide WellFormed, NamedByReloc, NamedByGroup, InReloc, InGroup;
    NamedMeans(obj, i);
    WrittenIsKept(o, obj, r, i);
  }

  /** -x drops the unwanted local symbols but for section and file symbols; -X of those only the ones whose
      names begin with ".L". */
  lemma DiscardDrops(o: Options, obj: Object, r: Option<Output>, i: nat)
    requires Case(o, obj, r, i) && !o.strip.StripAll? && !o.strip.StripUnneeded? && !o.strip.StripDebug?
    requires !o.stripSym(obj.syms[i].name)
    ensures var s := obj.syms[i];
            Written(r, i)
            <==> && SectionStays(obj, s)
                 && (|| Binding(s) != 0 || ForDebugging(s) || Wanted(o, obj, i) || o.keep(s.name)
                     || (!o.discardLocal && !(o.discardLLabel && [0x2e, 0x4c] <= s.name)))
  {
    hide WellFormed, NamedByReloc, NamedByGroup, InReloc, InGroup;
    NamedMeans(obj, i);
    WrittenIsKept(o, obj, r, i);
    DotL(obj.syms[i].name);
  }

  lemma DotL(name: Name)
    ensures IsLocalLabel(name) <==> [0x2e, 0x4c] <= name
  {
  }

  /** With both, a symbol goes when either says so. */
  lemma StripDebugAndDiscard(o: Options, obj: Object, r: Option<Output>, i: nat)
    requires Case(o, obj, r, i) && o.strip.StripDebug? && !o.stripSym(obj.syms[i].name)
    ensures var s := obj.syms[i];
            Written(r, i)
            <==> && SectionStays(obj, s)
                 && (|| Wanted(o, obj, i) || o.keep(s.name)
                     || (!ForDebugging(s)
                         && (Binding(s) != 0 || (!o.discardLocal && !(o.discardLLabel && [0x2e, 0x4c] <= s.name)))))
  {
    hide WellFormed, NamedByReloc, NamedByGroup, InReloc, InGroup;
    NamedMeans(obj, i);
    WrittenIsKept(o, obj, r, i);
    DotL(obj.syms[i].name);
  }

  // ---------- what is written of a symbol ----------

  /** Asked to become local, and defined: undefined symbols never do. */
  predicate MadeLocal(o: Options, s: InSym) {
    && External(s) && s.sym.shndx != 0
    && (|| o.localize(s.name) || (o.keepGlobalOnly && !o.keepGlobal(s.name))
        || (o.localizeHidden && (s.sym.other % 4 == 1 || s.sym.other % 4 == 2)))
  }

  /** The name after --redefine-sym and --prefix-symbols. */
  predicate Named(o: Options, s: InSym, name: seq<byte>) {
    var base: seq<byte> := if o.redef(s.name).Some? then o.redef(s.name).value else s.name;
    name == if o.prefix.Some? && base != [] then o.prefix.value + base else base
  }

  lemma EntryDenotes(o: Options, obj: Object, r: Option<Output>, i: nat)
    requires Case(o, obj, r, i) && Written(r, i)
    ensures Denotes(o, obj, r.value, r.value.symndx[i], i)
  {
    hide WellFormed, NewInfo, Picks, Faithful, Denotes;
    WrittenIsKept(o, obj, r, i);
    KeptSymbolFound(o, obj, r.value, i);
  }

  /** The entry of a written symbol: its fields, its section in the output, its name read from .strtab. */
  lemma EntryFields(o: Options, obj: Object, r: Option<Output>, i: nat)
    requires Case(o, obj, r, i) && Written(r, i)
    ensures var s, e := obj.syms[i].sym, r.value.symtab[r.value.symndx[i]];
            && e.value == (if o.class32 then s.value % 0x1_0000_0000 else s.value)
            && e.size == (if o.class32 then s.size % 0x1_0000_0000 else s.size)
            && e.other == s.other && e.info % 16 == Kind(obj.syms[i])
            && e.shndx == (if s.shndx == 0 || s.shndx >= 0xff00 then s.shndx else obj.secndx[s.shndx] % 0x1_0000)
            && e.name < |r.value.strtab| && Named(o, obj.syms[i], CStr(r.value.strtab, e.name))
  {
    hide WellFormed, Faithful, Outcome, NewName, Named;
    EntryDenotes(o, obj, r, i);
    BindingsStay(o, obj.syms[i]);
    NewNames(o, obj.syms[i]);
    hide NewInfo;
  }

  lemma NewNames(o: Options, s: InSym)
    ensures Named(o, s, NewName(o, s.name))
  {
  }

  /** When it is the given binding that a symbol ends up with: local if it was and is not to become global,
      or if it is made local; weak if it was or is to be weakened; and else as it was, or global. */
  ghost predicate BindingOk(o: Options, s: InSym, b: nat) {
    && (b == 0 <==> (Binding(s) == 0 && !o.globalize(s.name)) || MadeLocal(o, s))
    && (b == 2 <==> External(s) && !MadeLocal(o, s) && (o.weakenAll || o.weaken(s.name) || Binding(s) == 2))
    && (b == 10 <==> Binding(s) == 10 && !MadeLocal(o, s) && !o.weakenAll && !o.weaken(s.name))
    && (b == 1 <==> || (Binding(s) == 0 && o.globalize(s.name))
                    || (Binding(s) == 1 && !MadeLocal(o, s) && !o.weakenAll && !o.weaken(s.name)))
  }

  lemma InfoSplits(bind: nat, typ: nat)
    requires bind < 16 && typ < 16
    ensures Info(bind, typ) / 16 == bind
  {
  }

  lemma NewBinding(o: Options, s: InSym)
    requires IsLocal(s.sym.info) || IsGlobal(s.sym.info) || IsWeak(s.sym.info)
    ensures BindingOk(o, s, NewInfo(o, s) / 16)
  {
    var typ := Type(s.sym.info);
    InfoSplits(STB_WEAK, typ);
    InfoSplits(STB_LOCAL, typ);
    InfoSplits(STB_GLOBAL, typ);
    hide Info;
    if External(s) {
      assert NewInfo(o, s) == if MadeLocal(o, s) then Info(STB_LOCAL, typ)
                              else if o.weakenAll || o.weaken(s.name) then Info(STB_WEAK, typ) else s.sym.info;
    } else {
      assert NewInfo(o, s) == if o.globalize(s.name) then Info(STB_GLOBAL, typ) else s.sym.info;
    }
    hide NewInfo;
  }

  lemma EntryBinding(o: Options, obj: Object, r: Option<Output>, i: nat)
    requires Case(o, obj, r, i) && Written(r, i)
    ensures BindingOk(o, obj.syms[i], r.value.symtab[r.value.symndx[i]].info / 16)
  {
    hide WellFormed, Faithful, Outcome, NewName, Remap, NewInfo, BindingOk;
    EntryDenotes(o, obj, r, i);
    NewBinding(o, obj.syms[i]);
  }

  // ---------- section symbols ----------

  /** Some written symbol, or the reserved one, is the section symbol of output section `ndx`. */
  ghost predicate HasOne(obj: Object, r: Option<Output>, ndx: nat) {
    exists i :: 0 <= i < |obj.syms| && (i == 0 || Written(r, i)) && Kind(obj.syms[i]) == 3
                && obj.syms[i].sym.shndx < 0xff00 && obj.syms[i].sym.shndx < |obj.secndx|
                && obj.secndx[obj.syms[i].sym.shndx] == ndx
  }

  /** Sections that are to have a section symbol of their own. */
  predicate Eligible(o: Options, sec: OutSec) {
    !sec.pseudo && !sec.special && (o.relocatable ==> !sec.isReloc)
  }

  lemma HasOneMeans(o: Options, obj: Object, r: Option<Output>, ndx: nat)
    requires WellFormed(o, obj) && Outcome(o, obj, r) && !o.globalize([])
    ensures HasOne(obj, r, ndx) <==> HasSectionSym(o, obj, |obj.syms|, ndx)
  {
    hide Outcome, Written, NewInfo, Removed;
    assert forall i :: 0 <= i < |obj.syms| ==> SymOk(obj, obj.syms[i]);
    forall i | 0 < i < |obj.syms|
      ensures Written(r, i) <==> Kept(o, obj, i)
    {
      WrittenIsKept(o, obj, r, i);
    }
    if obj.syms != [] {
      ReservedStays(o, obj);
    }
    hide Kept, WellFormed, SymOk;
    if HasOne(obj, r, ndx) {
      var i :| 0 <= i < |obj.syms| && (i == 0 || Written(r, i)) && Kind(obj.syms[i]) == 3
               && obj.syms[i].sym.shndx < 0xff00 && obj.syms[i].sym.shndx < |obj.secndx|
               && obj.secndx[obj.syms[i].sym.shndx] == ndx;
      assert StandsFor(o, obj, i, ndx);
    }
    if HasSectionSym(o, obj, |obj.syms|, ndx) {
      var i :| 0 <= i < |obj.syms| && StandsFor(o, obj, i, ndx);
      assert (i == 0 || Written(r, i)) && Kind(obj.syms[i]) == 3;
    }
  }

  /** The generated symbol of a section. */
  function Fresh(o: Options, sec: OutSec): Sym {
    Sym(0, if o.class32 then sec.vma % 0x1_0000_0000 else sec.vma, 0, 3, 0, sec.ndx % 0x1_0000)
  }

  lemma {:induction false} FreshAt(o: Options, obj: Object, n: nat, m: nat) returns (k: nat)
    requires WellFormed(o, obj) && m < n <= |obj.secs| && NeedsSym(o, obj, obj.secs[m])
    ensures k < |SectionSyms(o, obj, n)| && SectionSyms(o, obj, n)[k] == Fresh(o, obj.secs[m])
    decreases n
  {
    hide NeedsSym, WellFormed;
    if m < n - 1 {
      k := FreshAt(o, obj, n - 1, m);
    } else {
      k := |SectionSyms(o, obj, n - 1)|;
    }
  }

  lemma {:induction false} FreshFrom(o: Options, obj: Object, n: nat, k: nat) returns (m: nat)
    requires WellFormed(o, obj) && n <= |obj.secs| && k < |SectionSyms(o, obj, n)|
    ensures m < n && NeedsSym(o, obj, obj.secs[m]) && SectionSyms(o, obj, n)[k] == Fresh(o, obj.secs[m])
    decreases n
  {
    hide NeedsSym, WellFormed;
    if k < |SectionSyms(o, obj, n - 1)| {
      m := FreshFrom(o, obj, n - 1, k);
    } else {
      m := n - 1;
    }
  }

  /** Every eligible section without a section symbol gets one. */
  lemma SectionsGetSymbols(o: Options, obj: Object, r: Option<Output>, m: nat) returns (k: nat)
    requires WellFormed(o, obj) && Outcome(o, obj, r) && r.Some? && !o.globalize([]) && m < |obj.secs|
    requires Eligible(o, obj.secs[m]) && !HasOne(obj, r, obj.secs[m].ndx)
    ensures k < r.value.shInfo <= |r.value.symtab| && r.value.symtab[k] == Fresh(o, obj.secs[m])
  {
    hide WellFormed, HasOne, HasSectionSym, Picks, SectionSyms, Denotes;
    HasOneMeans(o, obj, r, obj.secs[m].ndx);
    k := FreshAt(o, obj, |obj.secs|, m);
    k := |Picks(o, obj, |obj.syms|, true)| + k;
  }

  /** Entry `k` is the one the index map gives symbol `i`. */
  predicate EntryOf(r: Option<Output>, k: nat, i: nat) { Written(r, i) && r.value.symndx[i] == k }

  /** Entry `k` was generated for section `m`, which had no section symbol. */
  ghost predicate EntryFor(o: Options, obj: Object, r: Option<Output>, k: nat, m: nat) {
    && m < |obj.secs| && Eligible(o, obj.secs[m]) && !HasOne(obj, r, obj.secs[m].ndx)
    && r.Some? && k < |r.value.symtab| && r.value.symtab[k] == Fresh(o, obj.secs[m])
  }

  /** And there is no entry but the reserved one, those of the written symbols, and these. */
  lemma EveryEntryHasOrigin(o: Options, obj: Object, r: Option<Output>, k: nat)
    requires WellFormed(o, obj) && Outcome(o, obj, r) && r.Some? && !o.globalize([]) && 0 < k < |r.value.symtab|
    ensures (exists i :: 0 < i < |obj.syms| && EntryOf(r, k, i)) || exists m :: EntryFor(o, obj, r, k, m)
  {
    hide WellFormed, HasOne, HasSectionSym, Picks, SectionSyms, Denotes, Kept, Eligible, NeedsSym, EntryFor;
    var p, q := Picks(o, obj, |obj.syms|, true), Picks(o, obj, |obj.syms|, false);
    if k < |p| {
      OnlyFirstIsZero(p, k);
      assert EntryOf(r, k, p[k]);
    } else if k < r.value.shInfo {
      var m := FreshEntry(o, obj, r, k);
    } else {
      GlobalNotFirst(o, obj, q, k - r.value.shInfo);
      assert EntryOf(r, k, q[k - r.value.shInfo]);
    }
  }

  lemma FreshEntry(o: Options, obj: Object, r: Option<Output>, k: nat) returns (m: nat)
    requires WellFormed(o, obj) && Outcome(o, obj, r) && r.Some? && !o.globalize([])
    requires |Picks(o, obj, |obj.syms|, true)| <= k < r.value.shInfo
    ensures EntryFor(o, obj, r, k, m)
  {
    hide WellFormed, HasOne, HasSectionSym, Picks, SectionSyms, Denotes, Kept, Fresh;
    var p := Picks(o, obj, |obj.syms|, true);
    m := FreshFrom(o, obj, |obj.secs|, k - |p|);
    HasOneMeans(o, obj, r, obj.secs[m].ndx);
    assert r.value.symtab[|p| + (k - |p|)] == SectionSyms(o, obj, |obj.secs|)[k - |p|];
  }

  lemma GlobalNotFirst(o: Options, obj: Object, q: seq<nat>, k: nat)
    requires WellFormed(o, obj) && !o.globalize([])
    requires q == Picks(o, obj, |obj.syms|, false) && k < |q|
    ensures 0 < q[k] < |obj.syms|
  {
    hide WellFormed, NewInfo, Kept, IsLocal;
    ReservedStays(o, obj);
  }
}
