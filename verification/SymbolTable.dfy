/** Rewriting .symtab and .strtab (elfcopy/symbols.c) and the relocations that index them
    (`update_reloc` in elfcopy/sections.c). */
module SymbolTable {
  import opened Bytes
  import opened BitVector
  import ST = StringTable

  const STB_LOCAL := 0
  const STB_GLOBAL := 1
  const STB_WEAK := 2
  const STB_GNU_UNIQUE := 10
  const STT_SECTION := 3
  const STT_FILE := 4
  const STV_INTERNAL := 1
  const STV_HIDDEN := 2
  const SHN_UNDEF := 0
  const SHN_LORESERVE := 0xff00

  /** `_ST_NAME_EMPTY_l` and `_ST_NAME_EMPTY_g`: the st_name given to unnamed symbols. */
  const EMPTY_LOCAL: Word := 0
  const EMPTY_GLOBAL: Word := 0xFFFF_FFFF

  datatype Sym = Sym(name: Word, value: nat, size: nat, info: byte, other: byte, shndx: nat)

  const RESERVED := Sym(0, 0, 0, 0, 0, 0)

  /** An input symbol with its name already fetched from the input .strtab. */
  datatype InSym = InSym(sym: Sym, name: Name)

  datatype Strip = StripNone | StripAll | StripDebug | StripDwo | StripNonDebug | StripNonDwo | StripUnneeded

  /** Command-line options; the symbol lists (with their wildcards) are given as functions. */
  datatype Options = Options(
    strip: Strip, relocatable: bool, discardLocal: bool, discardLLabel: bool,
    weakenAll: bool, keepGlobalOnly: bool, localizeHidden: bool, class32: bool,
    keep: Name -> bool, stripSym: Name -> bool, weaken: Name -> bool, localize: Name -> bool,
    keepGlobal: Name -> bool, globalize: Name -> bool, redef: Name -> Option<Name>, prefix: Option<Name>)

  datatype Rel = Rel(offset: nat, info: nat, addend: int)

  /** A relocation section: whether it is left out of the output, and whether it indexes .symtab. */
  datatype RelSec = RelSec(removed: bool, forSymtab: bool, rels: seq<Rel>)

  datatype Group = Group(removed: bool, sym: nat)

  /** An output section, as the section-symbol loop sees it. */
  datatype OutSec = OutSec(ndx: nat, vma: nat, pseudo: bool, special: bool, isReloc: bool)

  datatype Object = Object(
    syms: seq<InSym>, rels: seq<RelSec>, groups: seq<Group>, secndx: seq<nat>, secs: seq<OutSec>, nos: nat)

  datatype Output = Output(symtab: seq<Sym>, strtab: seq<byte>, shInfo: nat, symndx: seq<nat>)

  function Bind(info: byte): nat { info / 16 }
  function Type(info: byte): nat { info % 16 }
  function Info(bind: nat, typ: nat): byte
    requires bind < 16 && typ < 16
  {
    bind * 16 + typ
  }

  predicate IsLocal(info: byte) { Bind(info) == STB_LOCAL }
  predicate IsGlobal(info: byte) { Bind(info) == STB_GLOBAL || Bind(info) == STB_GNU_UNIQUE }
  predicate IsWeak(info: byte) { Bind(info) == STB_WEAK }
  predicate IsDebug(info: byte) { Type(info) == STT_SECTION || Type(info) == STT_FILE }
  predicate IsHidden(other: byte) { other % 4 == STV_HIDDEN || other % 4 == STV_INTERNAL }
  predicate IsLocalLabel(name: Name) { |name| >= 2 && name[0] == '.' as int && name[1] == 'L' as int }

  function RSym(info: nat): nat { info / WORD_MOD }
  function RType(info: nat): nat { info % WORD_MOD }
  function RInfo(sym: nat, typ: nat): nat { sym * WORD_MOD + typ % WORD_MOD }

  // ---------- what the options ask for ----------

  predicate SectionRemoved(secndx: seq<nat>, s: Sym)
    requires s.shndx < SHN_LORESERVE ==> s.shndx < |secndx|
  {
    s.shndx != SHN_UNDEF && s.shndx < SHN_LORESERVE && secndx[s.shndx] == 0
  }

  /** `is_needed_symbol`, with the two bit vectors already read. */
  predicate Needed(o: Options, s: Sym, inReloc: bool, inGroup: bool) {
    inReloc || inGroup || (o.relocatable && (IsGlobal(s.info) || IsWeak(s.info)))
  }

  /** `is_remove_symbol`. */
  predicate Removed(o: Options, secndx: seq<nat>, i: nat, s: InSym, inReloc: bool, inGroup: bool)
    requires s.sym.shndx < SHN_LORESERVE ==> s.sym.shndx < |secndx|
  {
    if i == 0 && s.sym == RESERVED then false
    else if SectionRemoved(secndx, s.sym) then true
    else if o.keep(s.name) then false
    else if o.strip.StripAll? then true
    else if o.stripSym(s.name) then !inReloc
    else if Needed(o, s.sym, inReloc, inGroup) then false
    else if o.strip.StripUnneeded? then true
    else if o.discardLocal && IsLocal(s.sym.info) && !IsDebug(s.sym.info) then true
    else if o.discardLLabel && IsLocal(s.sym.info) && !IsDebug(s.sym.info) && IsLocalLabel(s.name) then true
    else o.strip.StripDebug? && IsDebug(s.sym.info)
  }

  /** The binding changes of `generate_symbols`, in order. */
  function NewInfo(o: Options, s: InSym): byte {
    var i0, typ, defined := s.sym.info, Type(s.sym.info), s.sym.shndx != SHN_UNDEF;
    if IsGlobal(i0) || IsWeak(i0) then
      var i1 := if o.weakenAll || o.weaken(s.name) then Info(STB_WEAK, typ) else i0;
      if defined && (o.localize(s.name)
                     || (o.keepGlobalOnly && !o.keepGlobal(s.name))
                     || (o.localizeHidden && IsHidden(s.sym.other)))
      then Info(STB_LOCAL, typ) else i1
    else if o.globalize(s.name) then Info(STB_GLOBAL, typ) else i0
  }

  function Concat(a: Name, b: Name): Name {
    a + b
  }

  function NewName(o: Options, name: Name): Name {
    var n := match o.redef(name) case Some(r) => r case None => name;
    if o.prefix.Some? && n != [] then Concat(o.prefix.value, n) else n
  }

  function Narrow(o: Options, v: nat): nat { if o.class32 then v % WORD_MOD else v }

  /** Section index in the output; special indices are left alone. */
  function Remap(secndx: seq<nat>, shndx: nat): nat
    requires shndx < SHN_LORESERVE ==> shndx < |secndx|
  {
    if shndx == SHN_UNDEF || shndx >= SHN_LORESERVE then shndx else secndx[shndx] % 65536
  }

  /** What the input demands: valid section indices, the four bindings, the reserved symbol first. */
  ghost predicate WellFormed(o: Options, obj: Object) {
    && |obj.secndx| > 0
    && (forall i :: 0 <= i < |obj.secndx| ==> obj.secndx[i] < obj.nos)
    && (forall i :: 0 <= i < |obj.syms| ==> SymOk(obj, obj.syms[i]))
    && (forall k :: 0 <= k < |obj.secs| ==> obj.secs[k].ndx < obj.nos)
    && (obj.syms != [] ==> obj.syms[0] == InSym(RESERVED, []))
    && NameBytes(o, obj.syms) < 0x7FFF_FFF0
  }

  ghost predicate SymOk(obj: Object, s: InSym) {
    && (s.sym.shndx < SHN_LORESERVE ==> s.sym.shndx < |obj.secndx|)
    && (IsLocal(s.sym.info) || IsGlobal(s.sym.info) || IsWeak(s.sym.info))
  }

  /** Room for all output names; offsets are kept in an `int`. */
  ghost function NameBytes(o: Options, syms: seq<InSym>): nat {
    if syms == [] then 1
    else NameBytes(o, syms[..|syms| - 1]) + |NewName(o, syms[|syms| - 1].name)| + 1
  }

  ghost predicate NamedInRels(rels: seq<Rel>, i: nat) {
    exists j :: 0 <= j < |rels| && RSym(rels[j].info) == i
  }

  ghost predicate NamedInSecs(secs: seq<RelSec>, i: nat) {
    exists k :: 0 <= k < |secs| && !secs[k].removed && secs[k].forSymtab && NamedInRels(secs[k].rels, i)
  }

  ghost predicate NamedInGroups(groups: seq<Group>, i: nat) {
    exists k :: 0 <= k < |groups| && !groups[k].removed && groups[k].sym == i
  }

  /** Symbol `i` is named by a relocation of a surviving .symtab relocation section. */
  ghost predicate NamedByReloc(obj: Object, i: nat) {
    0 < i && NamedInSecs(obj.rels, i)
  }

  ghost predicate NamedByGroup(obj: Object, i: nat) {
    0 < i && NamedInGroups(obj.groups, i)
  }

  ghost predicate Kept(o: Options, obj: Object, i: nat)
    requires i < |obj.syms| && SymOk(obj, obj.syms[i])
  {
    !Removed(o, obj.secndx, i, obj.syms[i], NamedByReloc(obj, i), NamedByGroup(obj, i))
  }

  // ---------- the output, as a function of the input ----------

  /** The kept symbols among the first `n` that end up local (or not), in input order. */
  ghost function Picks(o: Options, obj: Object, n: nat, local: bool): (p: seq<nat>)
    requires WellFormed(o, obj) && n <= |obj.syms|
    ensures forall j :: 0 <= j < |p| ==> p[j] < n && Kept(o, obj, p[j]) && IsLocal(NewInfo(o, obj.syms[p[j]])) == local
    ensures forall i, j :: 0 <= i < j < |p| ==> p[i] < p[j]
    ensures forall i :: 0 <= i < n && Kept(o, obj, i) && IsLocal(NewInfo(o, obj.syms[i])) == local ==> i in p
  {
    hide NewInfo, Removed;
    if n == 0 then []
    else
      var p := Picks(o, obj, n - 1, local);
      if Kept(o, obj, n - 1) && IsLocal(NewInfo(o, obj.syms[n - 1])) == local then p + [n - 1] else p
  }

  /** Symbol `i` as written, whatever its st_name. */
  ghost predicate SameFields(o: Options, obj: Object, e: Sym, i: nat)
    requires i < |obj.syms| && SymOk(obj, obj.syms[i])
  {
    var s := obj.syms[i].sym;
    && e.value == Narrow(o, s.value) && e.size == Narrow(o, s.size)
    && e.info == NewInfo(o, obj.syms[i]) && e.other == s.other
    && e.shndx == Remap(obj.secndx, s.shndx)
  }

  /** `off` is the st_name of `name` in `buf`, or the marker for unnamed symbols. */
  ghost predicate NameAt(buf: seq<byte>, off: Word, empty: Word, name: Name) {
    if name == [] then off == empty else Holds(buf, off, name)
  }

  /** Entry `j` of a buffer is symbol `p[j]`, and `symndx` sends that symbol to it. */
  ghost predicate Filled(o: Options, obj: Object, tab: seq<Sym>, buf: seq<byte>, empty: Word, p: seq<nat>,
                         symndx: seq<nat>)
    requires WellFormed(o, obj)
  {
    && |symndx| == |obj.syms| && |p| <= |tab|
    && forall j :: 0 <= j < |p| ==>
         && p[j] < |symndx| && symndx[p[j]] == j
         && SameFields(o, obj, tab[j], p[j])
         && NameAt(buf, tab[j].name, empty, NewName(o, obj.syms[p[j]].name))
  }

  lemma NameAtGrows(buf: seq<byte>, more: seq<byte>, off: Word, empty: Word, name: Name)
    requires NameAt(buf, off, empty, name)
    ensures NameAt(buf + more, off, empty, name)
  {
    if name != [] {
      HoldsFramed([], buf, more, off, name);
      assert [] + buf + more == buf + more;
    }
  }

  /** Earlier entries stay good when entries and string bytes are added and other map slots change. */
  lemma FilledGrows(o: Options, obj: Object, tab: seq<Sym>, buf: seq<byte>, empty: Word, p: seq<nat>, symndx: seq<nat>,
                    tab': seq<Sym>, buf': seq<byte>, symndx': seq<nat>)
    requires WellFormed(o, obj) && Filled(o, obj, tab, buf, empty, p, symndx)
    requires tab <= tab' && buf <= buf' && |symndx'| == |symndx|
    requires forall j :: 0 <= j < |p| ==> p[j] < |symndx| && symndx'[p[j]] == symndx[p[j]]
    ensures Filled(o, obj, tab', buf', empty, p, symndx')
  {
    forall j | 0 <= j < |p|
      ensures SameFields(o, obj, tab'[j], p[j])
      ensures NameAt(buf', tab'[j].name, empty, NewName(o, obj.syms[p[j]].name))
    {
      assert tab'[j] == tab[j];
      NameAtGrows(buf, buf'[|buf|..], tab[j].name, empty, NewName(o, obj.syms[p[j]].name));
      assert buf + buf'[|buf|..] == buf';
    }
  }

  /** `BIT_SET` on one of the marking vectors. */
  method Mark(v: seq<bv8>, n: nat) returns (w: seq<bv8>)
    requires n < 8 * |v|
    ensures |w| == |v|
    ensures forall i :: 0 <= i < 8 * |v| ==> (IsSet(w, i) <==> i == n || IsSet(v, i))
  {
    SetAll(v, n);
    w := Set(v, n);
  }

  /** The inner loop of `mark_reloc_symbols`; out-of-range indices are only warned about. */
  method MarkRels(rels: seq<Rel>, sc: nat, v: seq<bv8>) returns (w: seq<bv8>)
    requires |v| == (sc + 7) / 8
    ensures |w| == |v|
    ensures forall i :: 0 < i < sc ==> (IsSet(w, i) <==> IsSet(v, i) || NamedInRels(rels, i))
  {
    w := v;
    for j := 0 to |rels|
      invariant |w| == |v|
      invariant forall i :: 0 < i < sc ==> (IsSet(w, i) <==> IsSet(v, i) || NamedInRels(rels[..j], i))
    {
      var n := RSym(rels[j].info);
      forall i: nat
        ensures NamedInRels(rels[..j + 1], i) <==> NamedInRels(rels[..j], i) || i == n
      {
        assert rels[..j + 1][j] == rels[j];
        assert forall k :: 0 <= k < j ==> rels[..j + 1][k] == rels[..j][k];
      }
      if 0 < n < sc {
        w := Mark(w, n);
      }
    }
    assert rels[..|rels|] == rels;
  }

  /** `mark_reloc_symbols`. */
  method MarkRelocSymbols(obj: Object) returns (v: seq<bv8>)
    ensures |v| == (|obj.syms| + 7) / 8
    ensures forall i :: 0 < i < |obj.syms| ==> (IsSet(v, i) <==> NamedByReloc(obj, i))
  {
    v := Clear(|obj.syms|);
    for k := 0 to |obj.rels|
      invariant |v| == (|obj.syms| + 7) / 8
      invariant forall i :: 0 < i < |obj.syms| ==> (IsSet(v, i) <==> NamedInSecs(obj.rels[..k], i))
    {
      var s := obj.rels[k];
      forall i: nat
        ensures NamedInSecs(obj.rels[..k + 1], i) <==>
          NamedInSecs(obj.rels[..k], i) || (!s.removed && s.forSymtab && NamedInRels(s.rels, i))
      {
        assert obj.rels[..k + 1][k] == s;
        assert forall j :: 0 <= j < k ==> obj.rels[..k + 1][j] == obj.rels[..k][j];
      }
      if !s.removed && s.forSymtab {
        v := MarkRels(s.rels, |obj.syms|, v);
      }
    }
    assert obj.rels[..|obj.rels|] == obj.rels;
  }

  /** `mark_section_group_symbols`. */
  method MarkGroupSymbols(obj: Object) returns (v: seq<bv8>)
    ensures |v| == (|obj.syms| + 7) / 8
    ensures forall i :: 0 < i < |obj.syms| ==> (IsSet(v, i) <==> NamedByGroup(obj, i))
  {
    v := Clear(|obj.syms|);
    for k := 0 to |obj.groups|
      invariant |v| == (|obj.syms| + 7) / 8
      invariant forall i :: 0 < i < |obj.syms| ==> (IsSet(v, i) <==> NamedInGroups(obj.groups[..k], i))
    {
      var g := obj.groups[k];
      forall i: nat
        ensures NamedInGroups(obj.groups[..k + 1], i) <==>
          NamedInGroups(obj.groups[..k], i) || (!g.removed && i == g.sym)
      {
        assert obj.groups[..k + 1][k] == g;
        assert forall j :: 0 <= j < k ==> obj.groups[..k + 1][j] == obj.groups[..k][j];
      }
      if !g.removed && 0 < g.sym < |obj.syms| {
        v := Mark(v, g.sym);
      }
    }
    assert obj.groups[..|obj.groups|] == obj.groups;
  }

  /** The st_name of a symbol: its name's offset, or the marker of its buffer when it has none. */
  method Intern(t: ST.StringTable, name: Name, empty: Word) returns (off: Word)
    requires t.Valid() && t.sz + |name| < 0x7FFF_FFF0
    modifies t
    ensures t.Valid() && t.sz <= old(t.sz) + |name| + 1
    ensures old(t.Contents()) <= t.Contents() && NameAt(t.Contents(), off, empty, name)
    ensures name == [] ==> t.sz == old(t.sz) && t.Contents() == old(t.Contents())
  {
    hide ST.Packed, ST.Indexed, ST.AllHeld;
    if name == [] {
      off := empty;
    } else {
      off := t.Add(name);
    }
  }

  class Builder {
    const l: ST.StringTable
    const g: ST.StringTable
    var ls: seq<Sym>
    var gs: seq<Sym>

    ghost predicate Valid()
      reads this, l, g
    {
      l != g && l.Valid() && g.Valid() && l.lead == [0] && g.lead == []
    }

    constructor ()
      ensures Valid() && fresh(l) && fresh(g)
      ensures ls == [] && gs == [] && Bytes() == 1
    {
      hide ST.StringTable.Valid, ST.StringTable.Contents;
      l := new ST.StringTable(64, [0], ST.StrHash);
      g := new ST.StringTable(256, [], ST.StrHash);
      ls, gs := [], [];
    }

    ghost function Bytes(): nat
      reads this, l, g
    {
      l.sz + g.sz
    }

    /** The two string buffers, laid one after the other, form a string table. */
    lemma Strings()
      requires Valid()
      ensures l.sz <= |l.buf| && g.sz <= |g.buf|
      ensures l.Contents() == l.buf[..l.sz] && g.Contents() == g.buf[..g.sz]
      ensures l.sz > 0 && l.buf[0] == 0 && l.buf[l.sz - 1] == 0
      ensures StoredOnce(l.Contents() + g.Contents())
    {
      EndsInNul([0], l.Contents(), l.names);
      assert l.Contents()[0] == ([0] + ST.Flatten(l.names))[0];
      assert [] + ST.Flatten(g.names) == ST.Flatten(g.names);
    }

    /** `add_to_symtab`: append to the local or the global buffer. `s.name` is ignored. */
    method AddSym(name: Name, s: Sym)
      requires Valid() && Bytes() + |name| < 0x7FFF_FFF0
      modifies this, l, g
      ensures Valid() && Bytes() <= old(Bytes()) + |name| + 1
      ensures name == [] ==>
                Bytes() == old(Bytes()) && l.Contents() == old(l.Contents()) && g.Contents() == old(g.Contents())
      ensures old(l.Contents()) <= l.Contents() && old(g.Contents()) <= g.Contents()
      ensures old(ls) <= ls && old(gs) <= gs
      ensures IsLocal(s.info) ==>
                && |ls| == |old(ls)| + 1 && gs == old(gs)
                && ls[|old(ls)|] == s.(name := ls[|old(ls)|].name)
                && NameAt(l.Contents(), ls[|old(ls)|].name, EMPTY_LOCAL, name)
      ensures !IsLocal(s.info) ==>
                && |gs| == |old(gs)| + 1 && ls == old(ls)
                && gs[|old(gs)|] == s.(name := gs[|old(gs)|].name)
                && NameAt(g.Contents(), gs[|old(gs)|].name, EMPTY_GLOBAL, name)
    {
      hide NameAt, ST.StringTable.Valid, ST.StringTable.Contents;
      if IsLocal(s.info) {
        var off := Intern(l, name, EMPTY_LOCAL);
        ls := ls + [s.(name := off)];
      } else {
        var off := Intern(g, name, EMPTY_GLOBAL);
        gs := gs + [s.(name := off)];
      }
    }
  }

  /** Some kept STT_SECTION symbol among the first `n` stands for output section `ndx`. */
  ghost predicate HasSectionSym(o: Options, obj: Object, n: nat, ndx: nat)
    requires WellFormed(o, obj) && n <= |obj.syms|
  {
    exists i :: 0 <= i < n && StandsFor(o, obj, i, ndx)
  }

  ghost predicate StandsFor(o: Options, obj: Object, i: nat, ndx: nat)
    requires WellFormed(o, obj) && i < |obj.syms|
  {
    var s := obj.syms[i].sym;
    Kept(o, obj, i) && Type(s.info) == STT_SECTION && s.shndx < SHN_LORESERVE && obj.secndx[s.shndx] == ndx
  }

  lemma BindingsStay(o: Options, s: InSym)
    requires IsLocal(s.sym.info) || IsGlobal(s.sym.info) || IsWeak(s.sym.info)
    ensures var n := NewInfo(o, s);
            Type(n) == Type(s.sym.info) && (IsLocal(n) <==> !(IsGlobal(n) || IsWeak(n)))
  {
  }

  /** What the filtering loop has established after the first `i` symbols. */
  ghost predicate Copied(o: Options, obj: Object, i: nat, ls: seq<Sym>, gs: seq<Sym>, lbuf: seq<byte>, gbuf: seq<byte>,
                         symndx: seq<nat>, gsym: seq<bv8>, vsec: seq<bv8>)
    requires WellFormed(o, obj) && i <= |obj.syms|
  {
    var p, q := Picks(o, obj, i, true), Picks(o, obj, i, false);
    && |ls| == |p| && |gs| == |q|
    && Filled(o, obj, ls, lbuf, EMPTY_LOCAL, p, symndx)
    && Filled(o, obj, gs, gbuf, EMPTY_GLOBAL, q, symndx)
    && (forall k :: 0 <= k < |obj.syms| && k !in p && k !in q ==> symndx[k] == 0)
    && |gsym| == (|obj.syms| + 7) / 8 && |vsec| == (obj.nos + 7) / 8
    && (forall k :: 0 <= k < |obj.syms| ==> (IsSet(gsym, k) <==> k in q))
    && (forall n :: 0 <= n < obj.nos ==> (IsSet(vsec, n) <==> HasSectionSym(o, obj, i, n)))
  }

  /** The symbol handed to `add_to_symtab` for input symbol `i`. */
  function Image(o: Options, secndx: seq<nat>, s: InSym): Sym
    requires s.sym.shndx < SHN_LORESERVE ==> s.sym.shndx < |secndx|
  {
    Sym(0, Narrow(o, s.sym.value), Narrow(o, s.sym.size), NewInfo(o, s), s.sym.other, Remap(secndx, s.sym.shndx))
  }

  /** A symbol that is filtered out changes nothing. */
  lemma CopiedSkips(o: Options, obj: Object, i: nat, ls: seq<Sym>, gs: seq<Sym>, lbuf: seq<byte>, gbuf: seq<byte>,
                    symndx: seq<nat>, gsym: seq<bv8>, vsec: seq<bv8>)
    requires WellFormed(o, obj) && i < |obj.syms| && !Kept(o, obj, i)
    requires Copied(o, obj, i, ls, gs, lbuf, gbuf, symndx, gsym, vsec)
    ensures Copied(o, obj, i + 1, ls, gs, lbuf, gbuf, symndx, gsym, vsec)
  {
    hide IsSet, NewInfo, Removed, NamedByReloc, NamedByGroup, NewName, NameAt, SameFields, Kept, Filled;
    SectionSymStep(o, obj, i);
    assert forall n: nat :: !StandsFor(o, obj, i, n);
  }

  /** One buffer after symbol `i` was appended to it and the index map pointed at the new entry. */
  lemma FilledAppends(o: Options, obj: Object, i: nat, tab: seq<Sym>, buf: seq<byte>, empty: Word, p: seq<nat>,
                      symndx: seq<nat>, tab': seq<Sym>, buf': seq<byte>)
    requires WellFormed(o, obj) && i < |obj.syms| && Filled(o, obj, tab, buf, empty, p, symndx) && |tab| == |p|
    requires forall j :: 0 <= j < |p| ==> p[j] < i
    requires |tab'| == |tab| + 1 && tab <= tab' && buf <= buf'
    requires tab'[|tab|] == Image(o, obj.secndx, obj.syms[i]).(name := tab'[|tab|].name)
    requires NameAt(buf', tab'[|tab|].name, empty, NewName(o, obj.syms[i].name))
    ensures Filled(o, obj, tab', buf', empty, p + [i], symndx[i := |tab|])
  {
    FilledGrows(o, obj, tab, buf, empty, p, symndx, tab', buf', symndx[i := |tab|]);
  }

  lemma PicksStep(o: Options, obj: Object, i: nat)
    requires WellFormed(o, obj) && i < |obj.syms| && Kept(o, obj, i)
    ensures var local := IsLocal(NewInfo(o, obj.syms[i]));
            && Picks(o, obj, i + 1, local) == Picks(o, obj, i, local) + [i]
            && Picks(o, obj, i + 1, !local) == Picks(o, obj, i, !local)
    ensures forall b :: i !in Picks(o, obj, i, b)
  {
  }

  lemma SectionSymStep(o: Options, obj: Object, i: nat)
    requires WellFormed(o, obj) && i < |obj.syms|
    ensures forall n: nat :: HasSectionSym(o, obj, i + 1, n) <==> HasSectionSym(o, obj, i, n) || StandsFor(o, obj, i, n)
  {
    forall n: nat
      ensures HasSectionSym(o, obj, i + 1, n) <==> HasSectionSym(o, obj, i, n) || StandsFor(o, obj, i, n)
    {
      if HasSectionSym(o, obj, i, n) {
        var k :| 0 <= k < i && StandsFor(o, obj, k, n);
        assert 0 <= k < i + 1;
      }
    }
  }

  lemma CopiedAdds(o: Options, obj: Object, i: nat, ls: seq<Sym>, gs: seq<Sym>, lbuf: seq<byte>, gbuf: seq<byte>,
                   symndx: seq<nat>, gsym: seq<bv8>, vsec: seq<bv8>,
                   ls': seq<Sym>, gs': seq<Sym>, lbuf': seq<byte>, gbuf': seq<byte>, gsym': seq<bv8>, vsec': seq<bv8>)
    requires WellFormed(o, obj) && i < |obj.syms| && Kept(o, obj, i)
    requires Copied(o, obj, i, ls, gs, lbuf, gbuf, symndx, gsym, vsec)
    requires ls <= ls' && gs <= gs' && lbuf <= lbuf' && gbuf <= gbuf'
    requires |gsym'| == |gsym| && |vsec'| == |vsec|
    requires var local := IsLocal(NewInfo(o, obj.syms[i]));
             var im, name := Image(o, obj.secndx, obj.syms[i]), NewName(o, obj.syms[i].name);
             && (local ==> |ls'| == |ls| + 1 && gs' == gs && ls'[|ls|] == im.(name := ls'[|ls|].name)
                           && NameAt(lbuf', ls'[|ls|].name, EMPTY_LOCAL, name))
             && (!local ==> |gs'| == |gs| + 1 && ls' == ls && gs'[|gs|] == im.(name := gs'[|gs|].name)
                            && NameAt(gbuf', gs'[|gs|].name, EMPTY_GLOBAL, name))
             && (forall k :: 0 <= k < |obj.syms| ==> (IsSet(gsym', k) <==> IsSet(gsym, k) || (k == i && !local)))
    requires forall n :: 0 <= n < obj.nos ==> (IsSet(vsec', n) <==> IsSet(vsec, n) || StandsFor(o, obj, i, n))
    ensures Copied(o, obj, i + 1, ls', gs', lbuf', gbuf',
                   symndx[i := if IsLocal(NewInfo(o, obj.syms[i])) then |ls| else |gs|], gsym', vsec')
  {
    hide IsSet, NewInfo, Removed, NamedByReloc, NamedByGroup, NewName, NameAt, SameFields, Picks, Kept, Image;
    var p, q := Picks(o, obj, i, true), Picks(o, obj, i, false);
    var local := IsLocal(NewInfo(o, obj.syms[i]));
    var symndx' := symndx[i := if local then |ls| else |gs|];
    PicksStep(o, obj, i);
    if local {
      FilledAppends(o, obj, i, ls, lbuf, EMPTY_LOCAL, p, symndx, ls', lbuf');
      FilledGrows(o, obj, gs, gbuf, EMPTY_GLOBAL, q, symndx, gs', gbuf', symndx');
    } else {
      FilledAppends(o, obj, i, gs, gbuf, EMPTY_GLOBAL, q, symndx, gs', gbuf');
      FilledGrows(o, obj, ls, lbuf, EMPTY_LOCAL, p, symndx, ls', lbuf', symndx');
    }
    SectionSymStep(o, obj, i);
  }

  lemma NameBytesPrefix(o: Options, syms: seq<InSym>, i: nat)
    requires i <= |syms|
    ensures NameBytes(o, syms[..i]) <= NameBytes(o, syms)
    decreases |syms|
  {
    if i == |syms| {
      assert syms[..i] == syms;
    } else {
      assert syms[..|syms| - 1][..i] == syms[..i];
      NameBytesPrefix(o, syms[..|syms| - 1], i);
    }
  }

  /** The loop body for a symbol that is kept: place it, mark it, mark the section it stands for. */
  method CopyOne(o: Options, obj: Object, b: Builder, i: nat, symndx0: seq<nat>, gsym0: seq<bv8>, vsec0: seq<bv8>)
    returns (symndx: seq<nat>, gsym: seq<bv8>, vsec: seq<bv8>)
    requires WellFormed(o, obj) && i < |obj.syms| && Kept(o, obj, i) && b.Valid()
    requires Copied(o, obj, i, b.ls, b.gs, b.l.Contents(), b.g.Contents(), symndx0, gsym0, vsec0)
    requires b.Bytes() + |NewName(o, obj.syms[i].name)| < 0x7FFF_FFF0
    modifies b, b.l, b.g
    ensures b.Valid() && b.Bytes() <= old(b.Bytes()) + |NewName(o, obj.syms[i].name)| + 1
    ensures Copied(o, obj, i + 1, b.ls, b.gs, b.l.Contents(), b.g.Contents(), symndx, gsym, vsec)
  {
    hide NewName, SameFields, NameAt, Kept, IsSet, ST.StringTable.Valid, ST.StringTable.Contents;
    var s := obj.syms[i];
    BindingsStay(o, s);
    ghost var ls, gs, lbuf, gbuf := b.ls, b.gs, b.l.Contents(), b.g.Contents();
    var info := NewInfo(o, s);
    gsym, vsec := gsym0, vsec0;
    if IsGlobal(info) || IsWeak(info) {
      gsym := Mark(gsym0, i);
      symndx := symndx0[i := |b.gs|];
    } else {
      symndx := symndx0[i := |b.ls|];
    }
    b.AddSym(NewName(o, s.name), Image(o, obj.secndx, s));
    if Type(info) == STT_SECTION && s.sym.shndx < SHN_LORESERVE {
      vsec := Mark(vsec0, obj.secndx[s.sym.shndx]);
    }
    CopiedAdds(o, obj, i, ls, gs, lbuf, gbuf, symndx0, gsym0, vsec0,
               b.ls, b.gs, b.l.Contents(), b.g.Contents(), gsym, vsec);
  }

  /** The bit vectors decide as the relocations and groups do; symbol 0 never depends on them. */
  lemma KeptByBits(o: Options, obj: Object, i: nat, inReloc: bool, inGroup: bool)
    requires WellFormed(o, obj) && i < |obj.syms|
    requires i > 0 ==> (inReloc <==> NamedByReloc(obj, i)) && (inGroup <==> NamedByGroup(obj, i))
    ensures SymOk(obj, obj.syms[i])
    ensures Removed(o, obj.secndx, i, obj.syms[i], inReloc, inGroup) <==> !Kept(o, obj, i)
  {
  }

  lemma CopiedInit(o: Options, obj: Object, lbuf: seq<byte>, gbuf: seq<byte>)
    requires WellFormed(o, obj)
    ensures Copied(o, obj, 0, [], [], lbuf, gbuf, seq(|obj.syms|, _ => 0), Clear(|obj.syms|), Clear(obj.nos))
  {
  }

  /** The filtering loop of `generate_symbols`. */
  method CopySymbols(o: Options, obj: Object, b: Builder) returns (symndx: seq<nat>, gsym: seq<bv8>, vsec: seq<bv8>)
    requires WellFormed(o, obj)
    requires b.Valid() && b.ls == [] && b.gs == [] && b.Bytes() <= 1
    modifies b, b.l, b.g
    ensures b.Valid() && Copied(o, obj, |obj.syms|, b.ls, b.gs, b.l.Contents(), b.g.Contents(), symndx, gsym, vsec)
    ensures b.Bytes() <= NameBytes(o, obj.syms)
  {
    hide IsSet, NewInfo, Removed, NamedByReloc, NamedByGroup, NewName, Copied, SameFields, NameAt, Kept,
      ST.StringTable.Valid, ST.StringTable.Contents;
    var vrel := MarkRelocSymbols(obj);
    var vgrp := MarkGroupSymbols(obj);
    symndx, gsym, vsec := seq(|obj.syms|, _ => 0), Clear(|obj.syms|), Clear(obj.nos);
    CopiedInit(o, obj, b.l.Contents(), b.g.Contents());
    for i := 0 to |obj.syms|
      invariant b.Valid()
      invariant Copied(o, obj, i, b.ls, b.gs, b.l.Contents(), b.g.Contents(), symndx, gsym, vsec)
      invariant b.Bytes() <= NameBytes(o, obj.syms[..i])
    {
      assert SymOk(obj, obj.syms[i]);
      assert obj.syms[..i + 1][..i] == obj.syms[..i];
      NameBytesPrefix(o, obj.syms, i + 1);
      var remove := Removed(o, obj.secndx, i, obj.syms[i], IsSet(vrel, i), IsSet(vgrp, i));
      KeptByBits(o, obj, i, IsSet(vrel, i), IsSet(vgrp, i));
      if remove {
        CopiedSkips(o, obj, i, b.ls, b.gs, b.l.Contents(), b.g.Contents(), symndx, gsym, vsec);
      } else {
        symndx, gsym, vsec := CopyOne(o, obj, b, i, symndx, gsym, vsec);
      }
    }
    assert obj.syms[..|obj.syms|] == obj.syms;
  }

  // ---------- section symbols, patching, assembly ----------

  /** An output section that gets a fresh STT_SECTION symbol. */
  ghost predicate NeedsSym(o: Options, obj: Object, sec: OutSec)
    requires WellFormed(o, obj)
  {
    && !sec.pseudo && !sec.special && !(o.relocatable && sec.isReloc)
    && !HasSectionSym(o, obj, |obj.syms|, sec.ndx)
  }

  function SectionSym(o: Options, sec: OutSec): Sym {
    Sym(EMPTY_LOCAL, Narrow(o, sec.vma), 0, Info(STB_LOCAL, STT_SECTION), 0, sec.ndx % 65536)
  }

  ghost function SectionSyms(o: Options, obj: Object, n: nat): seq<Sym>
    requires WellFormed(o, obj) && n <= |obj.secs|
  {
    if n == 0 then []
    else
      var front := SectionSyms(o, obj, n - 1);
      if NeedsSym(o, obj, obj.secs[n - 1]) then front + [SectionSym(o, obj.secs[n - 1])] else front
  }

  method AddSectionSym(o: Options, sec: OutSec, b: Builder)
    requires b.Valid() && b.Bytes() < 0x7FFF_FFF0
    modifies b, b.l, b.g
    ensures b.Valid() && b.Bytes() == old(b.Bytes()) && b.gs == old(b.gs)
    ensures b.ls == old(b.ls) + [SectionSym(o, sec)]
    ensures b.l.Contents() == old(b.l.Contents()) && b.g.Contents() == old(b.g.Contents())
  {
    hide ST.StringTable.Valid, ST.StringTable.Contents;
    b.AddSym([], SectionSym(o, sec));
  }

  method AddSectionSyms(o: Options, obj: Object, b: Builder, vsec: seq<bv8>)
    requires WellFormed(o, obj) && b.Valid() && b.Bytes() < 0x7FFF_FFF0
    requires |vsec| == (obj.nos + 7) / 8
    requires forall n :: 0 <= n < obj.nos ==> (IsSet(vsec, n) <==> HasSectionSym(o, obj, |obj.syms|, n))
    modifies b, b.l, b.g
    ensures b.Valid() && b.Bytes() == old(b.Bytes()) && b.gs == old(b.gs)
    ensures b.ls == old(b.ls) + SectionSyms(o, obj, |obj.secs|)
    ensures b.l.Contents() == old(b.l.Contents()) && b.g.Contents() == old(b.g.Contents())
  {
    hide IsSet, HasSectionSym, SymOk, NameBytes, SectionSym, ST.StringTable.Valid, ST.StringTable.Contents;
    for k := 0 to |obj.secs|
      invariant b.Valid() && b.Bytes() == old(b.Bytes()) && b.gs == old(b.gs)
      invariant b.ls == old(b.ls) + SectionSyms(o, obj, k)
      invariant b.l.Contents() == old(b.l.Contents()) && b.g.Contents() == old(b.g.Contents())
    {
      var sec := obj.secs[k];
      if !sec.pseudo && !sec.special && !(o.relocatable && sec.isReloc) {
        if !IsSet(vsec, sec.ndx) {
          AddSectionSym(o, sec, b);
        }
      }
    }
  }

  /** The last loop of `generate_symbols`: globals follow locals in both tables, so their st_name and
      their index shift. `q` lists the marked symbols. */
  method PatchGlobals(gs0: seq<Sym>, symndx0: seq<nat>, gsym: seq<bv8>, lsz: nat, nls: nat, ghost q: seq<nat>)
    returns (gs: seq<Sym>, symndx: seq<nat>)
    requires |gs0| == |q| && |symndx0| <= 8 * |gsym|
    requires forall j :: 0 <= j < |q| ==> q[j] < |symndx0| && symndx0[q[j]] == j
    requires forall i :: 0 <= i < |symndx0| ==> (IsSet(gsym, i) <==> i in q)
    ensures |gs| == |gs0| && |symndx| == |symndx0|
    ensures forall j :: 0 <= j < |q| ==> gs[j] == gs0[j].(name := (gs0[j].name + lsz) % WORD_MOD)
    ensures forall j :: 0 <= j < |q| ==> symndx[q[j]] == nls + j
    ensures forall i :: 0 <= i < |symndx| && i !in q ==> symndx[i] == symndx0[i]
  {
    hide IsSet;
    gs, symndx := gs0, symndx0;
    for i := 0 to |symndx0|
      invariant |gs| == |gs0| && |symndx| == |symndx0|
      invariant forall j :: 0 <= j < |q| ==>
                  && gs[j] == (if q[j] < i then gs0[j].(name := (gs0[j].name + lsz) % WORD_MOD) else gs0[j])
                  && symndx[q[j]] == (if q[j] < i then nls + j else j)
      invariant forall k :: 0 <= k < |symndx| && k !in q ==> symndx[k] == symndx0[k]
    {
      if IsSet(gsym, i) {
        ghost var j :| 0 <= j < |q| && q[j] == i;
        var ndx := symndx[i];
        gs := gs[ndx := gs[ndx].(name := (gs[ndx].name + lsz) % WORD_MOD)];
        symndx := symndx[i := ndx + nls];
      }
    }
  }

  /** Entry `k` of the written table is input symbol `i`: every field, and the name read back from .strtab. */
  ghost predicate Denotes(o: Options, obj: Object, out: Output, k: nat, i: nat)
    requires WellFormed(o, obj) && i < |obj.syms|
  {
    && k < |out.symtab| && SameFields(o, obj, out.symtab[k], i)
    && out.symtab[k].name < |out.strtab|
    && CStr(out.strtab, out.symtab[k].name) == NewName(o, obj.syms[i].name)
  }

  /** The written tables: kept locals, fresh section symbols, kept globals, with the map to prove it. */
  ghost predicate Faithful(o: Options, obj: Object, out: Output)
    requires WellFormed(o, obj)
  {
    var n := |obj.syms|;
    var p, q, ss := Picks(o, obj, n, true), Picks(o, obj, n, false), SectionSyms(o, obj, |obj.secs|);
    && |out.symndx| == n
    && out.shInfo == |p| + |ss| && |out.symtab| == out.shInfo + |q|
    && (forall j :: 0 <= j < |p| ==> out.symndx[p[j]] == j && Denotes(o, obj, out, j, p[j]))
    && (forall j :: 0 <= j < |ss| ==> out.symtab[|p| + j] == ss[j])
    && (forall j :: 0 <= j < |q| ==>
          out.symndx[q[j]] == out.shInfo + j && Denotes(o, obj, out, out.shInfo + j, q[j]))
    && (forall i :: 0 <= i < n && !Kept(o, obj, i) ==> out.symndx[i] == 0)
  }

  lemma EndsInNul(lead: seq<byte>, buf: seq<byte>, names: seq<Name>)
    requires ST.Packed(lead, buf, names) && |lead| > 0 && lead[|lead| - 1] == 0
    ensures |buf| > 0 && buf[|buf| - 1] == 0
  {
    if names != [] {
      var last := names[|names| - 1];
      assert buf == lead + ST.Flatten(names[..|names| - 1]) + last + [0];
    }
  }

  lemma LocalNameReads(lbuf: seq<byte>, gbuf: seq<byte>, off: Word, name: Name)
    requires NameAt(lbuf, off, EMPTY_LOCAL, name) && |lbuf| > 0 && lbuf[0] == 0
    ensures off < |lbuf + gbuf| && CStr(lbuf + gbuf, off) == name
  {
    assert Holds(lbuf, off, name);
    HoldsFramed([], lbuf, gbuf, off, name);
    assert [] + lbuf + gbuf == lbuf + gbuf;
    CStrOfHeld(lbuf + gbuf, off, name);
  }

  lemma WrapsBelow(n: nat)
    requires 0 < n < WORD_MOD
    ensures (EMPTY_GLOBAL + n) % WORD_MOD == n - 1
  {
  }

  lemma StaysBelow(n: nat)
    requires n < WORD_MOD
    ensures n % WORD_MOD == n
  {
  }

  /** After the shift by the size of the local strings a global name reads back; the marker of an
      unnamed global, all ones, wraps onto the last local NUL and reads as the empty name. */
  lemma GlobalNameReads(lbuf: seq<byte>, gbuf: seq<byte>, off: Word, name: Name)
    requires NameAt(gbuf, off, EMPTY_GLOBAL, name)
    requires |lbuf| > 0 && lbuf[|lbuf| - 1] == 0 && |lbuf| + |gbuf| < WORD_MOD
    ensures var final := (off + |lbuf|) % WORD_MOD;
            final < |lbuf + gbuf| && CStr(lbuf + gbuf, final) == name
  {
    if name == [] {
      UnnamedReads(lbuf, gbuf);
    } else {
      StaysBelow(off + |lbuf|);
      HoldsFramed(lbuf, gbuf, [], off, name);
      assert lbuf + gbuf + [] == lbuf + gbuf;
      CStrOfHeld(lbuf + gbuf, |lbuf| + off, name);
    }
  }

  lemma UnnamedReads(lbuf: seq<byte>, gbuf: seq<byte>)
    requires 0 < |lbuf| < WORD_MOD && lbuf[|lbuf| - 1] == 0
    ensures (EMPTY_GLOBAL + |lbuf|) % WORD_MOD == |lbuf| - 1 && CStr(lbuf + gbuf, |lbuf| - 1) == []
  {
    WrapsBelow(|lbuf|);
    assert (lbuf + gbuf)[|lbuf| - 1] == 0;
  }

  /** `finalize_external_symtab` maps the marker to 0 instead of letting it wrap; names read back the same. */
  function FinalizeExternal(off: Word, lsz: nat): nat {
    if off == EMPTY_GLOBAL then 0 else (off + lsz) % WORD_MOD
  }

  lemma ExternalNameReads(lbuf: seq<byte>, gbuf: seq<byte>, off: Word, name: Name)
    requires NameAt(gbuf, off, EMPTY_GLOBAL, name)
    requires |lbuf| > 0 && lbuf[0] == 0 && lbuf[|lbuf| - 1] == 0 && |lbuf| + |gbuf| < WORD_MOD
    ensures var final := FinalizeExternal(off, |lbuf|);
            final < |lbuf + gbuf| && CStr(lbuf + gbuf, final) == name
  {
    if name != [] {
      GlobalNameReads(lbuf, gbuf, off, name);
    } else {
      assert (lbuf + gbuf)[0] == 0;
    }
  }

  lemma DenotesLocal(o: Options, obj: Object, lbuf: seq<byte>, gbuf: seq<byte>, out: Output, k: nat, i: nat)
    requires WellFormed(o, obj) && i < |obj.syms| && k < |out.symtab| && out.strtab == lbuf + gbuf
    requires SameFields(o, obj, out.symtab[k], i) && |lbuf| > 0 && lbuf[0] == 0
    requires NameAt(lbuf, out.symtab[k].name, EMPTY_LOCAL, NewName(o, obj.syms[i].name))
    ensures Denotes(o, obj, out, k, i)
  {
    hide WellFormed, SameFields, NewName, NameAt;
    LocalNameReads(lbuf, gbuf, out.symtab[k].name, NewName(o, obj.syms[i].name));
  }

  lemma DenotesGlobal(o: Options, obj: Object, lbuf: seq<byte>, gbuf: seq<byte>, out: Output, e: Sym, k: nat, i: nat)
    requires WellFormed(o, obj) && i < |obj.syms| && k < |out.symtab| && out.strtab == lbuf + gbuf
    requires SameFields(o, obj, e, i)
    requires |lbuf| > 0 && lbuf[|lbuf| - 1] == 0 && |lbuf| + |gbuf| < WORD_MOD
    requires NameAt(gbuf, e.name, EMPTY_GLOBAL, NewName(o, obj.syms[i].name))
    requires out.symtab[k] == e.(name := (e.name + |lbuf|) % WORD_MOD)
    ensures Denotes(o, obj, out, k, i)
  {
    hide WellFormed, NewName, NameAt;
    GlobalNameReads(lbuf, gbuf, e.name, NewName(o, obj.syms[i].name));
  }

  lemma LocalsDenote(o: Options, obj: Object, ls0: seq<Sym>, lbuf: seq<byte>, gbuf: seq<byte>, symndx0: seq<nat>,
                     out: Output, p: seq<nat>)
    requires WellFormed(o, obj) && Filled(o, obj, ls0, lbuf, EMPTY_LOCAL, p, symndx0)
    requires |lbuf| > 0 && lbuf[0] == 0 && out.strtab == lbuf + gbuf
    requires |p| <= |out.symtab| && forall j :: 0 <= j < |p| ==> out.symtab[j] == ls0[j]
    ensures forall j :: 0 <= j < |p| ==> Denotes(o, obj, out, j, p[j])
  {
    hide WellFormed, SameFields, NewName, NameAt, Denotes;
    forall j | 0 <= j < |p|
      ensures Denotes(o, obj, out, j, p[j])
    {
      DenotesLocal(o, obj, lbuf, gbuf, out, j, p[j]);
    }
  }

  lemma GlobalsDenote(o: Options, obj: Object, gs0: seq<Sym>, lbuf: seq<byte>, gbuf: seq<byte>, symndx0: seq<nat>,
                      out: Output, q: seq<nat>)
    requires WellFormed(o, obj) && Filled(o, obj, gs0, gbuf, EMPTY_GLOBAL, q, symndx0)
    requires |lbuf| > 0 && lbuf[|lbuf| - 1] == 0 && |lbuf| + |gbuf| < WORD_MOD && out.strtab == lbuf + gbuf
    requires |out.symtab| == out.shInfo + |gs0|
    requires forall j :: 0 <= j < |gs0| ==>
               out.symtab[out.shInfo + j] == gs0[j].(name := (gs0[j].name + |lbuf|) % WORD_MOD)
    ensures forall j :: 0 <= j < |q| ==> Denotes(o, obj, out, out.shInfo + j, q[j])
  {
    hide WellFormed, SameFields, NewName, NameAt, Denotes;
    forall j | 0 <= j < |q|
      ensures Denotes(o, obj, out, out.shInfo + j, q[j])
    {
      DenotesGlobal(o, obj, lbuf, gbuf, out, gs0[j], out.shInfo + j, q[j]);
    }
  }

  lemma PicksApart(o: Options, obj: Object, p: seq<nat>, q: seq<nat>)
    requires WellFormed(o, obj)
    requires p == Picks(o, obj, |obj.syms|, true) && q == Picks(o, obj, |obj.syms|, false)
    ensures forall j :: 0 <= j < |p| ==> p[j] < |obj.syms| && p[j] !in q
    ensures forall i :: 0 <= i < |obj.syms| && !Kept(o, obj, i) ==> i !in p && i !in q
  {
    hide NewInfo, Kept;
    forall j | 0 <= j < |p|
      ensures p[j] !in q
    {
      assert IsLocal(NewInfo(o, obj.syms[p[j]]));
    }
  }

  /** What the three phases leave behind, put together. */
  lemma Assemble(o: Options, obj: Object, ls0: seq<Sym>, gs0: seq<Sym>, lbuf: seq<byte>, gbuf: seq<byte>,
                 symndx0: seq<nat>, gsym: seq<bv8>, vsec: seq<bv8>, out: Output)
    requires WellFormed(o, obj)
    requires Copied(o, obj, |obj.syms|, ls0, gs0, lbuf, gbuf, symndx0, gsym, vsec)
    requires |lbuf| > 0 && lbuf[0] == 0 && lbuf[|lbuf| - 1] == 0 && |lbuf| + |gbuf| < WORD_MOD
    requires out.strtab == lbuf + gbuf && |out.symndx| == |symndx0|
    requires out.shInfo == |ls0| + |SectionSyms(o, obj, |obj.secs|)| && |out.symtab| == out.shInfo + |gs0|
    requires out.symtab[..out.shInfo] == ls0 + SectionSyms(o, obj, |obj.secs|)
    requires forall j :: 0 <= j < |gs0| ==>
               out.symtab[out.shInfo + j] == gs0[j].(name := (gs0[j].name + |lbuf|) % WORD_MOD)
    requires var q := Picks(o, obj, |obj.syms|, false);
             && (forall j :: 0 <= j < |q| ==> q[j] < |out.symndx| && out.symndx[q[j]] == out.shInfo + j)
             && (forall i :: 0 <= i < |symndx0| && i !in q ==> out.symndx[i] == symndx0[i])
    ensures Faithful(o, obj, out)
  {
    hide WellFormed, SameFields, NewInfo, NewName, Picks, SectionSyms, NameAt, IsSet, HasSectionSym, Denotes, Kept;
    var n := |obj.syms|;
    var p, q, ss := Picks(o, obj, n, true), Picks(o, obj, n, false), SectionSyms(o, obj, |obj.secs|);
    var front := out.symtab[..out.shInfo];
    assert forall k :: 0 <= k < out.shInfo ==> out.symtab[k] == front[k];
    assert forall j :: 0 <= j < |p| ==> out.symtab[j] == ls0[j];
    LocalsDenote(o, obj, ls0, lbuf, gbuf, symndx0, out, p);
    GlobalsDenote(o, obj, gs0, lbuf, gbuf, symndx0, out, q);
    PicksApart(o, obj, p, q);
  }

  /** No name is stored twice in either half of the string table. */
  ghost predicate StoredOnce(strtab: seq<byte>) {
    exists ln, gn :: ST.Packed([0], [0] + ST.Flatten(ln), ln) && ST.Packed([], ST.Flatten(gn), gn)
                     && strtab == [0] + ST.Flatten(ln) + ST.Flatten(gn)
  }

  lemma PicksIndexed(o: Options, obj: Object, ls: seq<Sym>, gs: seq<Sym>, lbuf: seq<byte>, gbuf: seq<byte>,
                     symndx: seq<nat>, gsym: seq<bv8>, vsec: seq<bv8>, q: seq<nat>)
    requires WellFormed(o, obj) && Copied(o, obj, |obj.syms|, ls, gs, lbuf, gbuf, symndx, gsym, vsec)
    requires q == Picks(o, obj, |obj.syms|, false)
    ensures |ls| == |Picks(o, obj, |obj.syms|, true)| && |q| == |gs|
    ensures |symndx| == |obj.syms| && forall j :: 0 <= j < |q| ==> q[j] < |symndx| && symndx[q[j]] == j
    ensures |vsec| == (obj.nos + 7) / 8 && |symndx| <= 8 * |gsym| && NameBytes(o, obj.syms) < 0x7FFF_FFF0
    ensures forall n :: 0 <= n < obj.nos ==> (IsSet(vsec, n) <==> HasSectionSym(o, obj, |obj.syms|, n))
    ensures forall i :: 0 <= i < |symndx| ==> (IsSet(gsym, i) <==> i in q)
  {
  }

  /** `generate_symbols`; None when nothing but the reserved symbol is left. */
  method GenerateSymbols(o: Options, obj: Object) returns (r: Option<Output>)
    requires WellFormed(o, obj)
    ensures r.None? <==> |Picks(o, obj, |obj.syms|, true)| <= 1 && Picks(o, obj, |obj.syms|, false) == []
    ensures r.Some? ==> Faithful(o, obj, r.value) && StoredOnce(r.value.strtab)
  {
    hide Kept, NewInfo, NewName, Picks, SectionSyms, NameAt, IsSet, HasSectionSym, Filled, Faithful, SymOk, Copied,
      WellFormed, StoredOnce, ST.StringTable.Valid, ST.StringTable.Contents;
    var b := new Builder();
    var symndx0, gsym, vsec := CopySymbols(o, obj, b);
    ghost var ls0, gs0, q := b.ls, b.gs, Picks(o, obj, |obj.syms|, false);
    PicksIndexed(o, obj, ls0, gs0, b.l.Contents(), b.g.Contents(), symndx0, gsym, vsec, q);
    if |b.ls| <= 1 && |b.gs| == 0 {
      return None;
    }
    AddSectionSyms(o, obj, b, vsec);
    b.Strings();
    var gs, symndx := PatchGlobals(b.gs, symndx0, gsym, b.l.sz, |b.ls|, q);
    var out := Output(b.ls + gs, b.l.buf[..b.l.sz] + b.g.buf[..b.g.sz], |b.ls|, symndx);
    assert out.symtab[..out.shInfo] == b.ls;
    Assemble(o, obj, ls0, gs0, b.l.Contents(), b.g.Contents(), symndx0, gsym, vsec, out);
    r := Some(out);
  }

  // ---------- what the written tables guarantee ----------

  lemma PickIndex(o: Options, obj: Object, i: nat) returns (j: nat)
    requires WellFormed(o, obj) && i < |obj.syms| && Kept(o, obj, i)
    ensures var p := Picks(o, obj, |obj.syms|, IsLocal(NewInfo(o, obj.syms[i])));
            j < |p| && p[j] == i
  {
    hide WellFormed, Kept, NewInfo, Picks;
    var p := Picks(o, obj, |obj.syms|, IsLocal(NewInfo(o, obj.syms[i])));
    assert i in p;
    j :| 0 <= j < |p| && p[j] == i;
  }

  /** Every kept symbol is at `symndx[i]`, below sh_info exactly when it is local. */
  lemma KeptSymbolFound(o: Options, obj: Object, out: Output, i: nat)
    requires WellFormed(o, obj) && Faithful(o, obj, out) && i < |obj.syms| && Kept(o, obj, i)
    ensures Denotes(o, obj, out, out.symndx[i], i)
    ensures out.symndx[i] < out.shInfo <==> IsLocal(NewInfo(o, obj.syms[i]))
  {
    hide WellFormed, Denotes, Kept, NewInfo, Picks, SectionSyms;
    var j := PickIndex(o, obj, i);
  }

  /** Two kept symbols never share an entry. */
  lemma IndexMapInjective(o: Options, obj: Object, out: Output, i: nat, k: nat)
    requires WellFormed(o, obj) && Faithful(o, obj, out)
    requires i < k < |obj.syms| && Kept(o, obj, i) && Kept(o, obj, k)
    ensures out.symndx[i] != out.symndx[k]
  {
    hide WellFormed, Denotes, Kept, NewInfo, Picks, SectionSyms;
    var a := PickIndex(o, obj, i);
    var b := PickIndex(o, obj, k);
  }

  /** All local entries come first and sh_info is their number (gABI chapter 4, "Symbol Table"). */
  lemma LocalsComeFirst(o: Options, obj: Object, out: Output, k: nat)
    requires WellFormed(o, obj) && Faithful(o, obj, out) && k < |out.symtab|
    ensures IsLocal(out.symtab[k].info) <==> k < out.shInfo
  {
    var p, q := Picks(o, obj, |obj.syms|, true), Picks(o, obj, |obj.syms|, false);
    if k < |p| {
      assert Denotes(o, obj, out, k, p[k]);
    } else if k < out.shInfo {
      SectionSymsLocal(o, obj, |obj.secs|, k - |p|);
      assert out.symtab[|p| + (k - |p|)] == SectionSyms(o, obj, |obj.secs|)[k - |p|];
    } else {
      assert Denotes(o, obj, out, out.shInfo + (k - out.shInfo), q[k - out.shInfo]);
    }
  }

  lemma {:induction false} SectionSymsLocal(o: Options, obj: Object, n: nat, k: nat)
    requires WellFormed(o, obj) && n <= |obj.secs| && k < |SectionSyms(o, obj, n)|
    ensures IsLocal(SectionSyms(o, obj, n)[k].info)
    decreases n
  {
    hide WellFormed, NeedsSym;
    if n > 0 && k < |SectionSyms(o, obj, n - 1)| {
      SectionSymsLocal(o, obj, n - 1, k);
    }
  }

  /** Unless everything is stripped, a symbol that a surviving relocation names stays exactly when its
      section does. */
  lemma RelocatedSymbolStays(o: Options, obj: Object, i: nat)
    requires WellFormed(o, obj) && i < |obj.syms| && NamedByReloc(obj, i) && !o.strip.StripAll?
    ensures Kept(o, obj, i) <==> !SectionRemoved(obj.secndx, obj.syms[i].sym)
  {
    assert SymOk(obj, obj.syms[i]);
  }

  function UpdateRel(r: Rel, symndx: seq<nat>): Rel
    requires RSym(r.info) < |symndx|
  {
    r.(info := RInfo(symndx[RSym(r.info)], RType(r.info)))
  }

  /** `update_reloc`, on one relocation section that indexes .symtab. */
  method UpdateReloc(rels: array<Rel>, symndx: seq<nat>)
    requires forall i :: 0 <= i < rels.Length ==> RSym(rels[i].info) < |symndx|
    modifies rels
    ensures forall i :: 0 <= i < rels.Length ==>
              RSym(old(rels[i].info)) < |symndx| && rels[i] == UpdateRel(old(rels[i]), symndx)
  {
    for i := 0 to rels.Length
      invariant forall k :: i <= k < rels.Length ==> rels[k] == old(rels[k])
      invariant forall k :: 0 <= k < i ==>
                  RSym(old(rels[k].info)) < |symndx| && rels[k] == UpdateRel(old(rels[k]), symndx)
    {
      rels[i] := UpdateRel(rels[i], symndx);
    }
  }

  lemma InfoParts(sym: nat, typ: nat)
    requires typ < WORD_MOD
    ensures RSym(RInfo(sym, typ)) == sym && RType(RInfo(sym, typ)) == typ
  {
  }

  /** Every surviving .symtab relocation keeps its place, type and addend, and denotes the symbol it
      denoted before; it falls back to symbol 0 exactly when that symbol's section was removed. */
  lemma RelocationsKeepMeaning(o: Options, obj: Object, out: Output, s: RelSec, r: Rel)
    requires WellFormed(o, obj) && Faithful(o, obj, out) && !o.strip.StripAll?
    requires s in obj.rels && !s.removed && s.forSymtab && r in s.rels && RSym(r.info) < |obj.syms|
    ensures var r', i := UpdateRel(r, out.symndx), RSym(r.info);
            && r'.offset == r.offset && r'.addend == r.addend && RType(r'.info) == RType(r.info)
            && (SectionRemoved(obj.secndx, obj.syms[i].sym) ==> RSym(r'.info) == 0)
            && (!SectionRemoved(obj.secndx, obj.syms[i].sym) ==> Denotes(o, obj, out, RSym(r'.info), i))
  {
    var i := RSym(r.info);
    InfoParts(out.symndx[i], RType(r.info));
    assert SymOk(obj, obj.syms[i]);
    if i > 0 {
      var k :| 0 <= k < |obj.rels| && obj.rels[k] == s;
      var j :| 0 <= j < |s.rels| && s.rels[j] == r;
      assert NamedInRels(s.rels, i);
      assert NamedByReloc(obj, i);
      RelocatedSymbolStays(o, obj, i);
    }
    if Kept(o, obj, i) {
      KeptSymbolFound(o, obj, out, i);
    }
  }
}
