/** The number of program headers: predicted in ld/ld_layout.c before layout, written in ld/ld_output.c. */
module ProgramHeaders {
  import opened Bytes

  datatype OutSec = OutSec(empty: bool, alloc: bool, write: bool, exec: bool, tls: bool, nobits: bool, note: bool,
                           off: nat, addr: nat, size: nat, align: nat)

  /** What else decides which headers there are; `elf64` is the output class. */
  datatype Link = Link(elf64: bool, dsoNeeded: nat, dso: bool, interp: Option<OutSec>, dynamic: Option<OutSec>,
                       phdrNote: bool, ehframeHdr: Option<OutSec>, gnustack: bool)

  /** Of the headers other than PT_LOAD only the type is kept. */
  datatype Phdr = Load(off: int, addr: int, filesz: int, memsz: int)
                | PhdrSelf | Interp | Dynamic | Note | Tls | EhFrame | GnuStack

  function One(b: bool): nat { if b then 1 else 0 }

  // ---------- segments of a section list ----------

  /** Loaded sections fall into segments: a new one at every change of SHF_WRITE and after a section that is
      not loaded. */
  datatype Split = Split(start: bool, write: bool, loads: nat, tls: bool)

  function SplitStep(s: Split, os: OutSec): Split {
    if os.empty then s
    else if !os.alloc then s.(start := true)
    else
      var t :=
        if os.write != s.write || s.start then s.(start := false, loads := s.loads + 1, write := os.write) else s;
      t.(tls := s.tls || os.tls)
  }

  function SplitAll(oss: seq<OutSec>): Split {
    if oss == [] then Split(true, false, 0, false) else SplitStep(SplitAll(oss[..|oss| - 1]), oss[|oss| - 1])
  }

  predicate HasNote(oss: seq<OutSec>) { exists i :: 0 <= i < |oss| && oss[i].note }

  /** Headers counted by the layout pass. */
  function Predicted(l: Link, oss: seq<OutSec>): nat {
    SplitAll(oss).loads + One(SplitAll(oss).tls) + (if l.dsoNeeded > 0 then 1 + One(!l.dso) else 0)
    + One(l.interp.Some?) + One(l.phdrNote) + One(l.ehframeHdr.Some?) + One(l.gnustack)
  }

  /** Headers the output pass steps through. */
  function Emitted(l: Link, oss: seq<OutSec>): nat {
    One(l.dsoNeeded > 0 && !l.dso) + One(l.interp.Some?) + SplitAll(oss).loads + One(l.dynamic.Some?)
    + One(HasNote(oss)) + One(SplitAll(oss).tls) + One(l.ehframeHdr.Some?) + One(l.gnustack)
  }

  predicate Loaded(os: OutSec) { !os.empty && os.alloc }

  /** What `ld_dynamic_create` leaves behind: a dynamic section when DSOs are needed, and for executables an
      interpreter section, which is loaded. */
  ghost predicate Prepared(l: Link, oss: seq<OutSec>) {
    && (l.dynamic.Some? <==> l.dsoNeeded > 0)
    && (l.interp.Some? <==> l.dsoNeeded > 0 && !l.dso)
    && (l.interp.Some? ==> l.interp.value in oss && Loaded(l.interp.value))
  }

  /** Prediction and emission agree exactly when the note flag says whether there is a note section. */
  lemma PredictionExactIff(l: Link, oss: seq<OutSec>)
    requires Prepared(l, oss)
    ensures Predicted(l, oss) == Emitted(l, oss) <==> l.phdrNote == HasNote(oss)
    ensures Predicted(l, oss) + One(HasNote(oss)) == Emitted(l, oss) + One(l.phdrNote)
  {
    hide SplitAll, HasNote;
  }

  // ---------- where section types and the note flag come from ----------

  datatype InType = NullType | NoteType | OtherType

  /** An input section put into output section number `os`. */
  datatype Placed = Placed(os: nat, typ: InType)

  /** An output section takes the type of the first input section that has one. */
  function TypeOf(ins: seq<Placed>, os: nat): InType {
    if ins == [] then NullType
    else
      var t, last := TypeOf(ins[..|ins| - 1], os), ins[|ins| - 1];
      if t.NullType? && last.os == os then last.typ else t
  }

  /** Any note section put anywhere sets the flag. */
  function NoteFlag(ins: seq<Placed>): bool {
    ins != [] && (NoteFlag(ins[..|ins| - 1]) || ins[|ins| - 1].typ.NoteType?)
  }

  /** The type and flag updates of `_insert_input_to_output`, over all placements. */
  method PlaceAll(ins: seq<Placed>, n: nat) returns (types: seq<InType>, flag: bool)
    requires forall k :: 0 <= k < |ins| ==> ins[k].os < n
    ensures |types| == n && forall o :: 0 <= o < n ==> types[o] == TypeOf(ins, o)
    ensures flag == NoteFlag(ins)
  {
    types, flag := seq(n, _ => NullType), false;
    for k := 0 to |ins|
      invariant |types| == n && forall o :: 0 <= o < n ==> types[o] == TypeOf(ins[..k], o)
      invariant flag == NoteFlag(ins[..k])
    {
      var o := ins[k].os;
      assert ins[..k + 1][..k] == ins[..k];
      if types[o].NullType? {
        types := types[o := ins[k].typ];
      }
      if ins[k].typ.NoteType? {
        flag := true;
      }
    }
    assert ins[..|ins|] == ins;
  }

  /** The output sections have these types, but for those in `made`, whose type the linker sets itself. */
  ghost predicate Typed(l: Link, oss: seq<OutSec>, ins: seq<Placed>, made: set<nat>) {
    && l.phdrNote == NoteFlag(ins)
    && (forall k :: 0 <= k < |ins| ==> ins[k].os < |oss|)
    && (forall o :: 0 <= o < |oss| ==> (oss[o].note <==> o !in made && TypeOf(ins, o).NoteType?))
  }

  lemma {:induction false} FlagMeansNote(ins: seq<Placed>)
    ensures NoteFlag(ins) <==> exists k :: 0 <= k < |ins| && ins[k].typ.NoteType?
  {
    if ins != [] {
      var n := |ins| - 1;
      FlagMeansNote(ins[..n]);
      if k :| 0 <= k < |ins| && ins[k].typ.NoteType? && k < n {
        assert ins[..n][k].typ.NoteType?;
      }
      if k :| 0 <= k < n && ins[..n][k].typ.NoteType? {
        assert ins[k].typ.NoteType?;
      }
    }
  }

  lemma {:induction false} TypeComesFrom(ins: seq<Placed>, os: nat)
    ensures !TypeOf(ins, os).NullType? ==> exists k :: 0 <= k < |ins| && ins[k] == Placed(os, TypeOf(ins, os))
  {
    if ins != [] {
      var n := |ins| - 1;
      TypeComesFrom(ins[..n], os);
      if !TypeOf(ins[..n], os).NullType? {
        var k :| 0 <= k < n && ins[..n][k] == Placed(os, TypeOf(ins[..n], os));
        assert ins[k] == Placed(os, TypeOf(ins, os));
      } else {
        assert !TypeOf(ins, os).NullType? ==> ins[n] == Placed(os, TypeOf(ins, os));
      }
    }
  }

  /** The prediction is never too small and at most one too large; it is exact exactly when no note section
      was put anywhere or some output section got its type from one. */
  lemma PredictionFromInputs(l: Link, oss: seq<OutSec>, ins: seq<Placed>, made: set<nat>)
    requires Prepared(l, oss) && Typed(l, oss, ins, made)
    ensures Emitted(l, oss) <= Predicted(l, oss) <= Emitted(l, oss) + 1
    ensures Predicted(l, oss) == Emitted(l, oss)
            <==> (|| (forall k :: 0 <= k < |ins| ==> !ins[k].typ.NoteType?)
                  || exists o :: 0 <= o < |oss| && o !in made && TypeOf(ins, o).NoteType?)
  {
    hide Predicted, Emitted, Prepared, TypeOf, NoteFlag;
    PredictionExactIff(l, oss);
    FlagMeansNote(ins);
    if HasNote(oss) {
      var o :| 0 <= o < |oss| && oss[o].note;
      assert TypeOf(ins, o).NoteType?;
      TypeComesFrom(ins, o);
    } else {
      forall o | 0 <= o < |oss| && o !in made
        ensures !TypeOf(ins, o).NoteType?
      {
        assert !oss[o].note;
      }
    }
  }

  /** A note section put behind another one in an output section: a header is predicted and not written. */
  lemma OneHeaderTooMany()
    ensures var oss := [OutSec(false, true, false, false, false, false, false, 0x1000, 0x1000, 0x100, 8)];
            var l := Link(true, 0, false, None, None, true, None, false);
            var ins := [Placed(0, OtherType), Placed(0, NoteType)];
            Prepared(l, oss) && Typed(l, oss, ins, {}) && Predicted(l, oss) == 2 && Emitted(l, oss) == 1
  {
    var oss := [OutSec(false, true, false, false, false, false, false, 0x1000, 0x1000, 0x100, 8)];
    var ins := [Placed(0, OtherType), Placed(0, NoteType)];
    assert oss[..0] == [] && SplitAll([]) == Split(true, false, 0, false);
    assert ins[..1] == [Placed(0, OtherType)] && ins[..1][..0] == [];
    assert TypeOf([], 0) == NullType && !NoteFlag([]);
    assert TypeOf(ins[..1], 0) == OtherType;
  }

  // ---------- the layout pass ----------

  /** Sizes of the ELF header and of one program header, by class. */
  function EhdrSize(elf64: bool): nat { if elf64 then 64 else 52 }

  function PhdrSize(elf64: bool): nat { if elf64 then 56 else 32 }

  /** `ld_layout_calc_header_size`; `known` is the number found by an earlier call, `scripted` the number of
      entries in a PHDRS command, if there is one. */
  method CalcHeaderSize(l: Link, oss: seq<OutSec>, relocatable: bool, known: nat, scripted: nat)
    returns (size: nat, num: nat)
    ensures num == if relocatable then 0 else if scripted > 0 then scripted
                   else if known > 0 then known else Predicted(l, oss)
    ensures size == if l.elf64 then 64 + num * 56 else 52 + num * 32
  {
    size := EhdrSize(l.elf64);
    if relocatable {
      return size, 0;
    }
    if scripted > 0 {
      num := scripted;
    } else if known > 0 {
      num := known;
    } else {
      num := CountHeaders(l, oss);
    }
    size := size + num * PhdrSize(l.elf64);
  }

  method CountHeaders(l: Link, oss: seq<OutSec>) returns (num: nat)
    ensures num == Predicted(l, oss)
  {
    hide SplitStep;
    num := 0;
    var start, w, tls := true, false, false;
    for i := 0 to |oss|
      invariant num >= One(tls) && SplitAll(oss[..i]) == Split(start, w, num - One(tls), tls)
    {
      assert oss[..i + 1][..i] == oss[..i];
      StepIs(SplitAll(oss[..i]), oss[i]);
      if !oss[i].empty {
        if !oss[i].alloc {
          start := true;
        } else {
          if oss[i].write != w || start {
            start, num, w := false, num + 1, oss[i].write;
          }
          if oss[i].tls && !tls {
            tls, num := true, num + 1;
          }
        }
      }
    }
    assert oss[..|oss|] == oss;
    if l.dsoNeeded > 0 {
      num := num + 1;
      if !l.dso {
        num := num + 1;
      }
    }
    if l.interp.Some? {
      num := num + 1;
    }
    if l.phdrNote {
      num := num + 1;
    }
    if l.ehframeHdr.Some? {
      num := num + 1;
    }
    if l.gnustack {
      num := num + 1;
    }
  }

  lemma StepIs(s: Split, os: OutSec)
    ensures SplitStep(s, os) ==
            if os.empty then s else if !os.alloc then s.(start := true)
            else if os.write != s.write || s.start then Split(false, os.write, s.loads + 1, s.tls || os.tls)
            else s.(tls := s.tls || os.tls)
  {
  }

  // ---------- the segments written ----------

  /** The PT_LOAD entries so far, the last one still growing. */
  datatype Loads = Loads(segs: seq<Phdr>, start: bool, write: bool)

  function Grown(p: Phdr, os: OutSec): Phdr
    requires p.Load?
  {
    var memsz := os.addr + os.size - p.addr;
    p.(memsz := memsz, filesz := if os.nobits then p.filesz else memsz)
  }

  /** The first segment begins at the start of the object, the others at their first section. */
  function NewSegment(segs: seq<Phdr>, base: int, os: OutSec): (p: Phdr)
    ensures p.Load?
  {
    if segs == [] then Load(0, base, 0, 0) else Load(os.off, os.addr, 0, 0)
  }

  ghost predicate AllLoads(segs: seq<Phdr>) { forall i :: 0 <= i < |segs| ==> segs[i].Load? }

  function LoadStep(s: Loads, base: int, os: OutSec): (t: Loads)
    requires AllLoads(s.segs) && (s.segs == [] ==> s.start)
    ensures AllLoads(t.segs) && (t.segs == [] ==> t.start)
  {
    if os.empty then s
    else if !os.alloc then s.(start := true)
    else
      var t := if os.write != s.write || s.start
               then Loads(s.segs + [NewSegment(s.segs, base, os)], false, os.write) else s;
      t.(segs := t.segs[|t.segs| - 1 := Grown(t.segs[|t.segs| - 1], os)])
  }

  function LoadAll(oss: seq<OutSec>, base: int): (t: Loads)
    ensures AllLoads(t.segs) && (t.segs == [] ==> t.start)
  {
    if oss == [] then Loads([], true, false) else LoadStep(LoadAll(oss[..|oss| - 1], base), base, oss[|oss| - 1])
  }

  lemma {:induction false} LoadsCounted(oss: seq<OutSec>, base: int)
    ensures |LoadAll(oss, base).segs| == SplitAll(oss).loads
    ensures LoadAll(oss, base).start == SplitAll(oss).start && LoadAll(oss, base).write == SplitAll(oss).write
  {
    if oss != [] {
      LoadsCounted(oss[..|oss| - 1], base);
    }
  }

  /** Loaded sections follow each other in memory, from the start of the object on. */
  ghost predicate Ascending(oss: seq<OutSec>, base: int) {
    && (forall i :: 0 <= i < |oss| && Loaded(oss[i]) ==> base <= oss[i].addr)
    && (forall i, j :: 0 <= i < j < |oss| && Loaded(oss[i]) && Loaded(oss[j]) ==>
          oss[i].addr + oss[i].size <= oss[j].addr)
  }

  ghost predicate Holds(p: Phdr, os: OutSec)
    requires p.Load?
  {
    && p.addr <= os.addr && os.addr + os.size <= p.addr + p.memsz
    && (!os.nobits ==> os.addr + os.size <= p.addr + p.filesz)
  }

  ghost predicate Covered(segs: seq<Phdr>, os: OutSec)
    requires AllLoads(segs)
  {
    exists i :: 0 <= i < |segs| && Holds(segs[i], os)
  }

  /** Every loaded section lies in one of the PT_LOAD segments, and its contents in the file part of it. */
  lemma {:induction false} EverySectionCovered(oss: seq<OutSec>, base: int, k: nat)
    requires Ascending(oss, base) && k < |oss| && Loaded(oss[k])
    ensures Covered(LoadAll(oss, base).segs, oss[k])
  {
    var n := |oss| - 1;
    var s, t := LoadAll(oss[..n], base), LoadAll(oss, base);
    if k < n {
      EverySectionCovered(oss[..n], base, k);
      var i :| 0 <= i < |s.segs| && Holds(s.segs[i], oss[k]);
      assert Holds(t.segs[i], oss[k]);
    } else {
      LastStartsBelow(oss, base);
      assert Holds(t.segs[|t.segs| - 1], oss[k]);
    }
  }

  /** The segment that a loaded section joins, or begins, reaches to its end in memory; in the file too if it has
      contents there, and else only as far as before. */
  lemma SegmentReaches(oss: seq<OutSec>, base: int)
    requires oss != [] && Loaded(oss[|oss| - 1])
    ensures var os, s, t := oss[|oss| - 1], LoadAll(oss[..|oss| - 1], base), LoadAll(oss, base);
            && t.segs != [] && (|t.segs| == |s.segs| || |t.segs| == |s.segs| + 1)
            && var p := t.segs[|t.segs| - 1];
               && p.addr + p.memsz == os.addr + os.size
               && p.filesz == (if !os.nobits then p.memsz
                               else if |t.segs| > |s.segs| then 0 else s.segs[|s.segs| - 1].filesz)
  {
  }

  /** A new segment begins at the section, but the first at the start of the object. */
  lemma SegmentBegins(oss: seq<OutSec>, base: int)
    requires oss != [] && |LoadAll(oss, base).segs| > |LoadAll(oss[..|oss| - 1], base).segs|
    ensures var os, t := oss[|oss| - 1], LoadAll(oss, base).segs;
            var p := t[|t| - 1];
            if |t| == 1 then p.off == 0 && p.addr == base else p.off == os.off && p.addr == os.addr
  {
  }

  /** The growing segment begins no later than any section to come. */
  lemma {:induction false} LastStartsBelow(oss: seq<OutSec>, base: int)
    requires Ascending(oss, base)
    ensures var segs := LoadAll(oss, base).segs;
            segs != [] ==> segs[|segs| - 1].addr == base
                           || exists j :: 0 <= j < |oss| && Loaded(oss[j]) && segs[|segs| - 1].addr == oss[j].addr
  {
    if oss != [] {
      var n := |oss| - 1;
      LastStartsBelow(oss[..n], base);
      assert forall j :: 0 <= j < n ==> oss[..n][j] == oss[j];
    }
  }

  // ---------- the output pass ----------

  function Self(l: Link): seq<Phdr> { if l.dsoNeeded > 0 && !l.dso then [PhdrSelf] else [] }

  function If(b: bool, p: Phdr): seq<Phdr> { if b then [p] else [] }

  /** Headers in front of the segments, and these. The loop's closing write goes to the last header even when
      there is no segment. */
  function FrontAndLoads(l: Link, oss: seq<OutSec>, base: int): seq<Phdr> {
    var front, segs := Self(l) + If(l.interp.Some?, Interp), LoadAll(oss, base).segs;
    if segs == [] && front != [] then front[|front| - 1 := Load(0, base, 0, 0)] else front + segs
  }

  function Headers(l: Link, oss: seq<OutSec>, base: int): (r: seq<Phdr>)
    ensures |r| == Emitted(l, oss)
  {
    LoadsCounted(oss, base);
    FrontAndLoads(l, oss, base) + If(l.dynamic.Some?, Dynamic) + If(HasNote(oss), Note) + If(SplitAll(oss).tls, Tls)
    + If(l.ehframeHdr.Some?, EhFrame) + If(l.gnustack, GnuStack)
  }

  /** The closing write of the loop never costs a header: whenever there are some in front of the segments,
      the interpreter section is loaded, so there is a segment too. */
  lemma FrontSurvives(l: Link, oss: seq<OutSec>, base: int)
    requires Prepared(l, oss)
    ensures FrontAndLoads(l, oss, base) == Self(l) + If(l.interp.Some?, Interp) + LoadAll(oss, base).segs
  {
    SegmentsIff(oss, base);
    hide LoadAll;
    if l.interp.Some? {
      var i :| 0 <= i < |oss| && oss[i] == l.interp.value;
      assert Loaded(oss[i]);
    }
  }

  lemma {:induction false} SegmentsIff(oss: seq<OutSec>, base: int)
    ensures LoadAll(oss, base).segs != [] <==> exists i :: 0 <= i < |oss| && Loaded(oss[i])
  {
    if oss != [] {
      var n := |oss| - 1;
      SegmentsIff(oss[..n], base);
      if i :| 0 <= i < n && Loaded(oss[..n][i]) {
        assert Loaded(oss[i]);
      }
      if i :| 0 <= i < |oss| && Loaded(oss[i]) && i < n {
        assert Loaded(oss[..n][i]);
      }
    }
  }

  /** The array holds `done` at its front and `i` is the last index used. */
  ghost predicate Wrote(phdrs: array<Phdr>, i: int, done: seq<Phdr>)
    reads phdrs
  {
    i + 1 == |done| && |done| <= phdrs.Length && phdrs[..i + 1] == done
  }

  /** One more header when `b` holds. */
  method WriteIf(phdrs: array<Phdr>, i: int, b: bool, p: Phdr, ghost done: seq<Phdr>) returns (j: int)
    requires Wrote(phdrs, i, done) && |done + If(b, p)| <= phdrs.Length
    modifies phdrs
    ensures Wrote(phdrs, j, done + If(b, p))
  {
    j := i;
    if b {
      j := j + 1;
      phdrs[j] := p;
      assert phdrs[..j + 1] == old(phdrs[..i + 1]) + [p];
    }
  }

  lemma Prefixes(f: seq<Phdr>, d: seq<Phdr>, n: seq<Phdr>, t: seq<Phdr>, e: seq<Phdr>, g: seq<Phdr>)
    ensures var all := f + d + n + t + e + g;
            |f + d| <= |f + d + n| <= |f + d + n + t| <= |f + d + n + t + e| <= |all|
  {
  }

  lemma FrontSize(l: Link, oss: seq<OutSec>, base: int)
    ensures |FrontAndLoads(l, oss, base)| == |Self(l) + If(l.interp.Some?, Interp)| + SplitAll(oss).loads
    ensures |Self(l) + If(l.interp.Some?, Interp)| >= |Self(l)|
    ensures |FrontAndLoads(l, oss, base)| <= Emitted(l, oss)
  {
    hide SplitAll, LoadAll, HasNote;
    LoadsCounted(oss, base);
  }

  /** `_create_phdr`, when there is room for as many headers as the sections call for: no write leaves the
      array, the two checks for room never fail, and the closing check finds every entry used. */
  method CreatePhdr(l: Link, oss: seq<OutSec>, base: int, num: nat) returns (ok: bool, phdrs: array<Phdr>)
    requires num == Emitted(l, oss)
    ensures ok && fresh(phdrs) && phdrs[..] == Headers(l, oss, base)
  {
    hide LoadAll, SplitAll, HasNote, If, Headers, Emitted;
    FrontSize(l, oss, base);
    phdrs := new Phdr[num](_ => GnuStack);
    var i := -1;
    SelfIs(l);
    i := WriteIf(phdrs, i, l.dsoNeeded > 0 && !l.dso, PhdrSelf, []);
    i := WriteIf(phdrs, i, l.interp.Some?, Interp, Self(l));
    var tls;
    ok, i, tls := WriteLoads(phdrs, i, oss, base, Self(l) + If(l.interp.Some?, Interp));
    if !ok {
      return;
    }
    ok, i := WriteTail(phdrs, i, l, oss, base, tls);
    assert i + 1 == num;
    assert phdrs[..num] == phdrs[..];
  }

  lemma SelfIs(l: Link)
    ensures [] + If(l.dsoNeeded > 0 && !l.dso, PhdrSelf) == Self(l)
  {
  }

  /** Everything behind the segments. */
  method WriteTail(phdrs: array<Phdr>, at: int, l: Link, oss: seq<OutSec>, base: int, tls: bool)
    returns (ok: bool, i: int)
    requires Wrote(phdrs, at, FrontAndLoads(l, oss, base))
    requires phdrs.Length == Emitted(l, oss) && tls == SplitAll(oss).tls
    modifies phdrs
    ensures ok && Wrote(phdrs, i, Headers(l, oss, base)) && i + 1 == phdrs.Length
  {
    hide LoadAll, SplitAll, HasNote, If, Emitted, FrontAndLoads, Wrote;
    ghost var f, d, n := FrontAndLoads(l, oss, base), If(l.dynamic.Some?, Dynamic), If(HasNote(oss), Note);
    ghost var t, e, g := If(tls, Tls), If(l.ehframeHdr.Some?, EhFrame), If(l.gnustack, GnuStack);
    Prefixes(f, d, n, t, e, g);
    assert f + d + n + t + e + g == Headers(l, oss, base);
    i := WriteIf(phdrs, at, l.dynamic.Some?, Dynamic, f);
    ok, i := WriteNote(phdrs, i, oss, f + d);
    i := WriteIf(phdrs, i, tls, Tls, f + d + n);
    i := WriteIf(phdrs, i, l.ehframeHdr.Some?, EhFrame, f + d + n + t);
    i := WriteIf(phdrs, i, l.gnustack, GnuStack, f + d + n + t + e);
    WroteAll(phdrs, i, Headers(l, oss, base));
  }

  lemma WroteAll(phdrs: array<Phdr>, i: int, done: seq<Phdr>)
    requires Wrote(phdrs, i, done)
    ensures i + 1 == |done|
  {
  }

  /** The first note section, if any, gets a PT_NOTE. */
  method WriteNote(phdrs: array<Phdr>, i: int, oss: seq<OutSec>, ghost done: seq<Phdr>) returns (ok: bool, j: int)
    requires Wrote(phdrs, i, done) && |done + If(HasNote(oss), Note)| <= phdrs.Length
    modifies phdrs
    ensures ok && Wrote(phdrs, j, done + If(HasNote(oss), Note))
  {
    ok, j := true, i;
    for k := 0 to |oss|
      invariant forall m :: 0 <= m < k ==> !oss[m].note
      invariant j == i && Wrote(phdrs, i, done)
    {
      if oss[k].note {
        assert HasNote(oss);
        j := j + 1;
        if j >= phdrs.Length {
          ok := false;
          return;
        }
        phdrs[j] := Note;
        assert phdrs[..j + 1] == phdrs[..i + 1] + [Note];
        return;
      }
    }
    assert !HasNote(oss);
    assert done + [] == done;
  }

  /** All segments but the growing one, `cur`, are in the array; `i` is where that one will go. */
  ghost predicate Growing(phdrs: array<Phdr>, i: int, front: seq<Phdr>, segs: seq<Phdr>, cur: Phdr, first: bool)
    reads phdrs
  {
    && i + 1 == |front| + |segs| <= phdrs.Length && phdrs[..|front|] == front && first == (segs == [])
    && (segs != [] ==> cur == segs[|segs| - 1] && phdrs[|front|..i] == segs[..|segs| - 1])
  }

  lemma {:induction false} Monotone(oss: seq<OutSec>, k: nat)
    requires k <= |oss|
    ensures SplitAll(oss[..k]).loads <= SplitAll(oss).loads
    decreases |oss|
  {
    if k == |oss| {
      assert oss[..k] == oss;
    } else {
      Monotone(oss[..|oss| - 1], k);
      assert oss[..|oss| - 1][..k] == oss[..k];
    }
  }

  lemma StepsOf(oss: seq<OutSec>, base: int, k: nat)
    requires k < |oss|
    ensures LoadAll(oss[..k + 1], base) == LoadStep(LoadAll(oss[..k], base), base, oss[k])
    ensures SplitAll(oss[..k + 1]) == SplitStep(SplitAll(oss[..k]), oss[k])
  {
    assert oss[..k + 1][..k] == oss[..k];
  }

  lemma Nothing(oss: seq<OutSec>, base: int)
    ensures LoadAll(oss[..0], base) == Loads([], true, false) && !SplitAll(oss[..0]).tls
  {
    assert oss[..0] == [];
  }

  /** Room for the next segment: the current one is stored first, if there is one. */
  method NextSegment(phdrs: array<Phdr>, at: int, first: bool, cur: Phdr, ghost front: seq<Phdr>, ghost segs: seq<Phdr>,
                     os: OutSec, base: int)
    returns (ok: bool, i: int, next: Phdr)
    requires Growing(phdrs, at, front, segs, cur, first) && |front| + |segs| < phdrs.Length
    requires AllLoads(segs) && (first ==> cur == Load(0, base, 0, 0))
    modifies phdrs
    ensures ok && next == NewSegment(segs, base, os) && Growing(phdrs, i, front, segs + [next], next, false)
  {
    ok, i, next := true, at, cur;
    if !first {
      phdrs[i] := cur;
    }
    i := i + 1;
    if i >= phdrs.Length {
      ok := false;
      return;
    }
    if !first {
      next := Load(os.off, os.addr, 0, 0);
      assert phdrs[|front|..i] == phdrs[|front|..at] + [cur];
    }
    assert phdrs[..|front|] == front;
    assert (segs + [next])[..|segs|] == segs;
  }

  /** The PT_LOAD loop; a segment is written when the next one begins and at the end. */
  method WriteLoads(phdrs: array<Phdr>, at: int, oss: seq<OutSec>, base: int, ghost front: seq<Phdr>)
    returns (ok: bool, i: int, tls: bool)
    requires Wrote(phdrs, at, front) && |front| + SplitAll(oss).loads <= phdrs.Length
    modifies phdrs
    ensures ok && tls == SplitAll(oss).tls
    ensures var segs := LoadAll(oss, base).segs;
            Wrote(phdrs, i, if segs == [] && front != [] then front[|front| - 1 := Load(0, base, 0, 0)]
                            else front + segs)
  {
    hide SplitAll, LoadAll, Growing, SplitStep, LoadStep, Wrote;
    ok, i, tls := true, at, false;
    var start, w, first, cur := true, false, true, Load(0, base, 0, 0);
    Nothing(oss, base);
    GrowingNothing(phdrs, i, front, cur);
    for k := 0 to |oss|
      invariant SplitAll(oss[..k]).tls == tls && (first ==> cur == Load(0, base, 0, 0))
      invariant LoadAll(oss[..k], base).start == start && LoadAll(oss[..k], base).write == w
      invariant Growing(phdrs, i, front, LoadAll(oss[..k], base).segs, cur, first)
    {
      LoadsCounted(oss[..k + 1], base);
      Monotone(oss, k + 1);
      StepsOf(oss, base, k);
      TlsStep(SplitAll(oss[..k]), oss[k]);
      ok, i, start, w, first, cur := LoadOne(phdrs, i, start, w, first, cur, oss[k], base, front,
          LoadAll(oss[..k], base));
      if !oss[k].empty && oss[k].alloc {
        tls := tls || oss[k].tls;
      }
    }
    assert oss[..|oss|] == oss;
    WriteLast(phdrs, i, front, LoadAll(oss, base).segs, cur, first, base);
  }

  lemma TlsStep(s: Split, os: OutSec)
    ensures SplitStep(s, os).tls == (s.tls || (!os.empty && os.alloc && os.tls))
  {
  }

  /** One section of the loop. */
  method LoadOne(phdrs: array<Phdr>, at: int, start0: bool, w0: bool, first0: bool, cur0: Phdr, os: OutSec, base: int,
                 ghost front: seq<Phdr>, ghost s: Loads)
    returns (ok: bool, i: int, start: bool, w: bool, first: bool, cur: Phdr)
    requires AllLoads(s.segs) && (s.segs == [] ==> s.start) && s.start == start0 && s.write == w0
    requires Growing(phdrs, at, front, s.segs, cur0, first0) && (first0 ==> cur0 == Load(0, base, 0, 0))
    requires |front| + |LoadStep(s, base, os).segs| <= phdrs.Length
    modifies phdrs
    ensures ok && start == LoadStep(s, base, os).start && w == LoadStep(s, base, os).write
    ensures Growing(phdrs, i, front, LoadStep(s, base, os).segs, cur, first) && (first ==> cur == Load(0, base, 0, 0))
  {
    hide Growing, Grown, NewSegment, LoadStep;
    ok, i, start, w, first, cur := true, at, start0, w0, first0, cur0;
    if !Loaded(os) {
      StepSkips(s, base, os);
    } else {
      StepGrows(s, base, os);
    }
    if os.empty {
      return;
    }
    if !os.alloc {
      start := true;
      return;
    }
    GrowingFirst(phdrs, at, front, s.segs, cur, first);
    ghost var segs := s.segs;
    if os.write != w || start {
      start, w := false, os.write;
      ok, i, cur := NextSegment(phdrs, i, first, cur, front, segs, os, base);
      first, segs := false, segs + [cur];
    }
    GrowingLast(phdrs, i, front, segs, cur, first, Grown(cur, os));
    cur := Grown(cur, os);
  }

  lemma StepSkips(s: Loads, base: int, os: OutSec)
    requires AllLoads(s.segs) && (s.segs == [] ==> s.start) && !Loaded(os)
    ensures LoadStep(s, base, os) == if os.empty then s else s.(start := true)
  {
  }

  lemma StepGrows(s: Loads, base: int, os: OutSec)
    requires AllLoads(s.segs) && (s.segs == [] ==> s.start) && Loaded(os)
    ensures var more := if os.write != s.write || s.start then s.segs + [NewSegment(s.segs, base, os)] else s.segs;
            && more != [] && AllLoads(more)
            && LoadStep(s, base, os) == Loads(more[|more| - 1 := Grown(more[|more| - 1], os)], false, os.write)
  {
    hide Grown, NewSegment;
  }

  lemma GrowingFirst(phdrs: array<Phdr>, i: int, front: seq<Phdr>, segs: seq<Phdr>, cur: Phdr, first: bool)
    requires Growing(phdrs, i, front, segs, cur, first) && AllLoads(segs)
    ensures first == (segs == []) && (segs != [] ==> cur == segs[|segs| - 1] && cur.Load?)
  {
  }

  lemma GrowingNothing(phdrs: array<Phdr>, i: int, front: seq<Phdr>, cur: Phdr)
    requires Wrote(phdrs, i, front)
    ensures Growing(phdrs, i, front, [], cur, true)
  {
  }

  lemma GrowingLast(phdrs: array<Phdr>, i: int, front: seq<Phdr>, segs: seq<Phdr>, cur: Phdr, first: bool, next: Phdr)
    requires Growing(phdrs, i, front, segs, cur, first) && segs != []
    ensures cur == segs[|segs| - 1] && !first
    ensures Growing(phdrs, i, front, segs[|segs| - 1 := next], next, first)
  {
    assert segs[|segs| - 1 := next][..|segs| - 1] == segs[..|segs| - 1];
  }

  /** The write after the loop. */
  method WriteLast(phdrs: array<Phdr>, i: int, ghost front: seq<Phdr>, ghost segs: seq<Phdr>, cur: Phdr, first: bool,
                   ghost base: int)
    requires Growing(phdrs, i, front, segs, cur, first) && (first ==> cur == Load(0, base, 0, 0))
    modifies phdrs
    ensures Wrote(phdrs, i, if segs == [] && front != [] then front[|front| - 1 := Load(0, base, 0, 0)]
                            else front + segs)
  {
    if i >= 0 {
      phdrs[i] := cur;
      if segs == [] {
        assert phdrs[..i + 1] == front[|front| - 1 := cur];
      } else {
        assert phdrs[..i + 1] == front + segs[..|segs| - 1] + [cur];
        assert segs == segs[..|segs| - 1] + [cur];
      }
    }
  }
}
