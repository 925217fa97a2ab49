/** Section address changes inside segments: elfcopy/segments.c, VMA passes of `adjust_addr`, and the
    sorted section list of each segment. */
module SegmentMove {
  import opened Bytes

  const MOD64: int := 0x1_0000_0000_0000_0000

  type U64 = x: int | 0 <= x < MOD64

  function Wrap(x: int): U64 { x % MOD64 }

  // ---------- what one move does to a segment's sections ----------

  datatype Sec = Sec(off: U64, vma: U64, sz: nat)

  function Lowered(s: Sec, dl: nat): Sec { s.(vma := Wrap(s.vma - dl)) }

  function Raised(s: Sec, dl: nat): Sec { s.(vma := Wrap(s.vma + dl)) }

  function PushedBack(s: Sec, dl: nat): Sec { s.(off := Wrap(s.off + dl)) }

  /** Section `i` goes to `vma`. Down: it and those before it get lower addresses, those after it higher
      offsets. Up: it and those after it get higher addresses, and higher offsets unless it is the first. */
  function Moved(ss: seq<Sec>, i: nat, vma: U64): (r: seq<Sec>)
    requires i < |ss|
    ensures |r| == |ss|
  {
    if vma < ss[i].vma then
      var dl := ss[i].vma - vma;
      seq(|ss|, k requires 0 <= k < |ss| => if k <= i then Lowered(ss[k], dl) else PushedBack(ss[k], dl))
    else
      var dl := vma - ss[i].vma;
      seq(|ss|, k requires 0 <= k < |ss| =>
        if k < i then ss[k] else if i == 0 then Raised(ss[k], dl) else PushedBack(Raised(ss[k], dl), dl))
  }

  /** Distance between file offset and address, and how two sections differ in it. */
  function Slide(s: Sec): int { s.off - s.vma }

  function Gap(a: Sec, b: Sec): U64 { Wrap(Slide(a) - Slide(b)) }

  lemma SameWrap(x: int, y: int)
    requires Wrap(x) == Wrap(y)
    ensures (x - y) / MOD64 * MOD64 == x - y
  {
  }

  lemma WrapPlus(y: int, k: int)
    ensures Wrap(y + k * MOD64) == Wrap(y)
  {
  }

  /** Every section's slide changes by the same amount, modulo 2^64. */
  function SlideChange(ss: seq<Sec>, i: nat, vma: U64): int
    requires i < |ss|
  {
    if vma < ss[i].vma then ss[i].vma - vma else if i == 0 then ss[i].vma - vma else 0
  }

  lemma MovedSlides(ss: seq<Sec>, i: nat, vma: U64, k: nat)
    requires i < |ss| && k < |ss|
    ensures Wrap(Slide(Moved(ss, i, vma)[k])) == Wrap(Slide(ss[k]) + SlideChange(ss, i, vma))
  {
    hide Wrap;
    var s, d := ss[k], vma - ss[i].vma;
    WrapInside(s.off, s.vma + d);
    WrapInside(s.off - d, s.vma);
    WrapOutside(s.off - d, s.vma);
    WrapBoth(s.off + d, s.vma + d);
  }

  lemma WrapInside(x: int, y: int)
    ensures Wrap(x - Wrap(y)) == Wrap(x - y)
  {
    WrapPlus(x - y, y / MOD64);
  }

  lemma WrapOutside(x: int, y: int)
    ensures Wrap(Wrap(x) - y) == Wrap(x - y)
  {
    WrapPlus(x - y, -(x / MOD64));
  }

  lemma WrapBoth(x: int, y: int)
    ensures Wrap(Wrap(x) - Wrap(y)) == Wrap(x - y)
  {
    WrapInside(Wrap(x), y);
    WrapOutside(x, y);
  }

  ghost predicate SameGaps(ss: seq<Sec>, tt: seq<Sec>) {
    |ss| == |tt| && forall a, b :: 0 <= a < |ss| && 0 <= b < |ss| ==> Gap(tt[a], tt[b]) == Gap(ss[a], ss[b])
  }

  lemma EqualSlidesKeepGaps(a: Sec, b: Sec, a': Sec, b': Sec, c: int)
    requires Wrap(Slide(a')) == Wrap(Slide(a) + c) && Wrap(Slide(b')) == Wrap(Slide(b) + c)
    ensures Gap(a', b') == Gap(a, b)
  {
    hide Wrap;
    GapArithmetic(Slide(a), Slide(b), Slide(a'), Slide(b'), c);
  }

  lemma GapArithmetic(x: int, y: int, x': int, y': int, c: int)
    requires Wrap(x') == Wrap(x + c) && Wrap(y') == Wrap(y + c)
    ensures Wrap(x' - y') == Wrap(x - y)
  {
    SameWrap(x', x + c);
    SameWrap(y', y + c);
    var j, k := (x' - (x + c)) / MOD64, (y' - (y + c)) / MOD64;
    assert x' - y' == (x - y) + (j - k) * MOD64;
    WrapPlus(x - y, j - k);
  }

  /** Moving a section keeps all file-to-address differences within its segment. */
  lemma MoveKeepsGaps(ss: seq<Sec>, i: nat, vma: U64)
    requires i < |ss|
    ensures SameGaps(ss, Moved(ss, i, vma))
  {
    hide Wrap, Slide, Gap, Moved;
    var tt := Moved(ss, i, vma);
    forall a, b | 0 <= a < |ss| && 0 <= b < |ss|
      ensures Gap(tt[a], tt[b]) == Gap(ss[a], ss[b])
    {
      MovedSlides(ss, i, vma, a);
      MovedSlides(ss, i, vma, b);
      EqualSlidesKeepGaps(ss[a], ss[b], tt[a], tt[b], SlideChange(ss, i, vma));
    }
  }

  // ---------- order and disjointness ----------

  /** Sections follow each other in memory without overlap. */
  ghost predicate Ordered(ss: seq<Sec>) {
    forall i, j :: 0 <= i < j < |ss| ==> ss[i].vma + ss[i].sz <= ss[j].vma
  }

  /** No address leaves the 64-bit range: the first section's on the way down, the last one's on the way up. */
  predicate NoWrap(ss: seq<Sec>, i: nat, vma: U64)
    requires i < |ss|
  {
    if vma < ss[i].vma then ss[i].vma - vma <= ss[0].vma
    else ss[|ss| - 1].vma + (vma - ss[i].vma) < MOD64
  }

  /** A move keeps the sections of an ordered segment in order and disjoint exactly when nothing wraps. */
  lemma MoveKeepsOrderIff(ss: seq<Sec>, i: nat, vma: U64)
    requires i < |ss| && Ordered(ss)
    ensures Ordered(Moved(ss, i, vma)) <==> NoWrap(ss, i, vma)
  {
    if NoWrap(ss, i, vma) {
      NoWrapKeepsOrder(ss, i, vma);
    } else {
      WrapBreaksOrder(ss, i, vma);
    }
  }

  lemma NoWrapKeepsOrder(ss: seq<Sec>, i: nat, vma: U64)
    requires i < |ss| && Ordered(ss) && NoWrap(ss, i, vma)
    ensures Ordered(Moved(ss, i, vma))
  {
    var tt := Moved(ss, i, vma);
    forall k | 0 <= k < |ss|
      ensures tt[k].vma == NewVma(ss, i, vma, k)
    {
      NewVmaFits(ss, i, vma, k);
    }
    forall a, b | 0 <= a < b < |ss|
      ensures tt[a].vma + tt[a].sz <= tt[b].vma
    {
      assert ss[a].vma + ss[a].sz <= ss[b].vma;
    }
  }

  function NewVma(ss: seq<Sec>, i: nat, vma: U64, k: nat): int
    requires i < |ss| && k < |ss|
  {
    if vma < ss[i].vma then (if k <= i then ss[k].vma - (ss[i].vma - vma) else ss[k].vma)
    else if k < i then ss[k].vma else ss[k].vma + (vma - ss[i].vma)
  }

  lemma NewVmaFits(ss: seq<Sec>, i: nat, vma: U64, k: nat)
    requires i < |ss| && Ordered(ss) && NoWrap(ss, i, vma) && k < |ss|
    ensures Moved(ss, i, vma)[k].vma == NewVma(ss, i, vma, k)
  {
    hide Wrap;
    assert k > 0 ==> ss[0].vma <= ss[k].vma;
    assert k < |ss| - 1 ==> ss[k].vma <= ss[|ss| - 1].vma;
    InRange(NewVma(ss, i, vma, k));
  }

  lemma InRange(x: int)
    ensures 0 <= x < MOD64 ==> Wrap(x) == x
  {
  }

  lemma WrapBreaksOrder(ss: seq<Sec>, i: nat, vma: U64)
    requires i < |ss| && Ordered(ss) && !NoWrap(ss, i, vma)
    ensures !Ordered(Moved(ss, i, vma))
  {
    var tt, last := Moved(ss, i, vma), |ss| - 1;
    if vma < ss[i].vma {
      assert i > 0;
      assert tt[0].vma == ss[0].vma - (ss[i].vma - vma) + MOD64 && tt[i].vma == vma;
      assert !(tt[0].vma + tt[0].sz <= tt[i].vma);
    } else {
      assert i < last;
      assert tt[last].vma == ss[last].vma + (vma - ss[i].vma) - MOD64 && tt[i].vma == vma;
      assert !(tt[i].vma + tt[i].sz <= tt[last].vma);
    }
  }

  /** The source's own check on the way down compares with the segment's address as first read. */
  predicate EnoughSpace(segVaddr: U64, s: U64, vma: U64) { !(vma < Wrap(s - segVaddr)) }

  /** While the segment still starts at or below its first section, that check is enough. */
  lemma CheckSufficesOnce(ss: seq<Sec>, i: nat, vma: U64, segVaddr: U64)
    requires i < |ss| && Ordered(ss) && vma < ss[i].vma && segVaddr <= ss[0].vma
    requires EnoughSpace(segVaddr, ss[i].vma, vma)
    ensures NoWrap(ss, i, vma)
  {
    assert i > 0 ==> ss[0].vma <= ss[i].vma;
  }

  /** The source's check on the way up: the end of the segment, moved along, must not fall below its start. */
  predicate RoomAbove(segVaddr: U64, msz: U64, s: U64, vma: U64, first: bool) {
    var start, end := if first then vma else segVaddr, Wrap(vma + Wrap(segVaddr + msz - s));
    !(end < start)
  }

  /** While the sections still lie in the segment as first read, the check lets an address wrap exactly when
      the section is not the first, the move and the segment's size together reach 2^64, and the last section
      is within reach of it. */
  lemma CheckAboveFailsIff(ss: seq<Sec>, i: nat, vma: U64, segVaddr: U64, msz: U64)
    requires i < |ss| && Ordered(ss) && vma > ss[i].vma && segVaddr <= ss[0].vma
    requires ss[|ss| - 1].vma < segVaddr + msz <= MOD64
    ensures var d := vma - ss[i].vma;
            RoomAbove(segVaddr, msz, ss[i].vma, vma, i == 0) && !NoWrap(ss, i, vma)
            <==> i > 0 && msz + d >= MOD64 && ss[|ss| - 1].vma + d >= MOD64
  {
    assert i > 0 ==> ss[0].vma <= ss[i].vma;
    assert i < |ss| - 1 ==> ss[i].vma <= ss[|ss| - 1].vma;
    var e := segVaddr + msz + (vma - ss[i].vma);
    InRange(segVaddr + msz - ss[i].vma);
    assert Wrap(vma + Wrap(segVaddr + msz - ss[i].vma)) == if e < MOD64 then e else e - MOD64 by {
      OnceAround(e);
    }
    hide Wrap;
  }

  /** A segment that reaches the end of the address space: its end wraps past its start, and so does the
      last section. */
  lemma MoveUpCanWrap()
    ensures var ss := [Sec(0x1000, 0x1000, 0x10), Sec(0x2000, 0x2000, 0x10), Sec(0x3000, MOD64 - 0x100, 0x10)];
            && Ordered(ss) && RoomAbove(0x1000, MOD64 - 0x1000, 0x2000, 0x3000, false)
            && !Ordered(Moved(ss, 1, 0x3000))
  {
    var ss := [Sec(0x1000, 0x1000, 0x10), Sec(0x2000, 0x2000, 0x10), Sec(0x3000, MOD64 - 0x100, 0x10)];
    CheckAboveFailsIff(ss, 1, 0x3000, 0x1000, MOD64 - 0x1000);
    MoveKeepsOrderIff(ss, 1, 0x3000);
  }

  lemma OnceAround(x: int)
    requires 0 <= x < 2 * MOD64
    ensures Wrap(x) == if x < MOD64 then x else x - MOD64
  {
  }

  /** After one move down it need not be: the second move passes the check and wraps the first section. */
  lemma SecondMoveCanWrap()
    ensures var ss := [Sec(0x1000, 0x1000, 0x10), Sec(0x1800, 0x1800, 0x10), Sec(0x2000, 0x2000, 0x10)];
            var tt := Moved(ss, 1, 0x900);
            && Ordered(ss) && EnoughSpace(0x1000, ss[1].vma, 0x900) && Ordered(tt) && tt[0].vma == 0x100
            && EnoughSpace(0x1000, tt[2].vma, 0x1100) && !Ordered(Moved(tt, 2, 0x1100))
  {
    var ss := [Sec(0x1000, 0x1000, 0x10), Sec(0x1800, 0x1800, 0x10), Sec(0x2000, 0x2000, 0x10)];
    MoveKeepsOrderIff(ss, 1, 0x900);
    MoveKeepsOrderIff(Moved(ss, 1, 0x900), 2, 0x1100);
  }

  // ---------- sections and segments ----------

  class Section {
    const name: string
    const sz: nat
    const align: nat
    const loadable: bool
    var off: U64
    var vma: U64
    var seg: Segment?

    constructor (name: string, off: U64, sz: nat, align: nat, vma: U64, loadable: bool)
      ensures this.name == name && this.off == off && this.sz == sz && this.align == align
      ensures this.vma == vma && this.loadable == loadable && seg == null
    {
      this.name, this.off, this.sz, this.align := name, off, sz, align;
      this.vma, this.loadable, seg := vma, loadable, null;
    }

    ghost function Value(): Sec
      reads this
    {
      Sec(off, vma, sz)
    }
  }

  class Segment {
    const load: bool
    const vaddr: U64
    const msz: U64
    var vsec: seq<Section>

    constructor (load: bool, vaddr: U64, msz: U64)
      ensures this.load == load && this.vaddr == vaddr && this.msz == msz && vsec == []
    {
      this.load, this.vaddr, this.msz, vsec := load, vaddr, msz, [];
    }

    ghost function View(): (ss: seq<Sec>)
      reads this, vsec
      ensures |ss| == |vsec|
    {
      seq(|vsec|, k requires 0 <= k < |vsec| reads this, vsec => vsec[k].Value())
    }

    /** The list holds each of its sections once, and every one of them points back here. */
    ghost predicate Tied()
      reads this, vsec`seg
    {
      && (forall i :: 0 <= i < |vsec| ==> vsec[i].seg == this && vsec[i].loadable)
      && (forall i, j :: 0 <= i < j < |vsec| ==> vsec[i] != vsec[j])
    }

    ghost predicate ByOffset()
      reads this, vsec
    {
      OffsetsSorted(vsec)
    }

    /** `insert_to_inseg_list`: the array grows by one and larger offsets shift up from the end. */
    method Insert(sec: Section) returns (ghost k: nat)
      requires ByOffset()
      modifies this
      ensures k <= |old(vsec)| && vsec == old(vsec)[..k] + [sec] + old(vsec)[k..]
      ensures ByOffset() && Between(old(vsec), k, sec)
    {
      hide Hole, OffsetsSorted, Above;
      ghost var was := vsec;
      var v: seq<Section> := vsec + [sec];
      var i: nat := |v| - 1;
      HoleAtEnd(was, sec);
      assert v == was + [sec] && i == |was|;
      while i > 0
        invariant i <= |was| && |v| == |was| + 1 && Hole(was, v, i) && Above(was, i, sec)
      {
        HoleMoves(was, v, i);
        var s := v[i - 1];
        if sec.off >= s.off {
          break;
        }
        AboveMore(was, i, sec);
        v := v[i := s];
        i := i - 1;
      }
      k := i;
      HoleFilled(was, v, i, sec);
      InsertedByOffset(was, i, sec);
      vsec := v[i := sec];
    }

    /** The address update for section `s`, number `i` of this segment, once the move is known to be viable. */
    method Shift(s: Section, vma: U64, ghost i: nat)
      requires Tied() && i < |vsec| && vsec[i] == s && s.vma != vma
      modifies vsec`off, vsec`vma
      ensures Tied() && View() == Moved(old(View()), i, vma)
    {
      hide Wrap, Lowered, Raised, PushedBack;
      if vma < s.vma {
        ShiftDown(s, s.vma - vma, i);
      } else {
        ShiftUp(s, vma - s.vma, i);
      }
    }

    method ShiftDown(s: Section, dl: nat, ghost i: nat)
      requires Tied() && i < |vsec| && vsec[i] == s
      modifies vsec`off, vsec`vma
      ensures Tied()
      ensures forall j :: 0 <= j < |vsec| ==>
                vsec[j].Value()
                == if j <= i then Lowered(old(vsec[j].Value()), dl) else PushedBack(old(vsec[j].Value()), dl)
    {
      hide Wrap, Lowered, PushedBack;
      var k := Lower(s, dl, i);
      ghost var mid := View();
      k := k + 1;
      while k < |vsec|
        invariant i < k <= |vsec| && Tied()
        invariant forall j :: 0 <= j < |vsec| ==>
                    vsec[j].Value() == if i < j < k then PushedBack(mid[j], dl) else mid[j]
      {
        PushedBackIs(mid[k], dl);
        vsec[k].off := Wrap(vsec[k].off + dl);
        k := k + 1;
      }
    }

    /** The first loop of a move down; it stops at `s`. */
    method Lower(s: Section, dl: nat, ghost i: nat) returns (k: nat)
      requires Tied() && i < |vsec| && vsec[i] == s
      modifies vsec`off, vsec`vma
      ensures k == i && Tied()
      ensures forall j :: 0 <= j < |vsec| ==>
                vsec[j].Value() == if j <= i then Lowered(old(vsec[j].Value()), dl) else old(vsec[j].Value())
    {
      hide Wrap, Lowered;
      ghost var was := View();
      k := 0;
      while k < |vsec|
        invariant k <= i && Tied()
        invariant forall j :: 0 <= j < |vsec| ==> vsec[j].Value() == if j < k then Lowered(was[j], dl) else was[j]
      {
        LoweredIs(was[k], dl);
        vsec[k].vma := Wrap(vsec[k].vma - dl);
        if vsec[k] == s {
          break;
        }
        k := k + 1;
      }
    }

    method ShiftUp(s: Section, dl: nat, ghost i: nat)
      requires Tied() && i < |vsec| && vsec[i] == s
      modifies vsec`off, vsec`vma
      ensures Tied()
      ensures forall j :: 0 <= j < |vsec| ==>
                vsec[j].Value() == if j < i then old(vsec[j].Value())
                                   else if i == 0 then Raised(old(vsec[j].Value()), dl)
                                   else PushedBack(Raised(old(vsec[j].Value()), dl), dl)
    {
      hide Wrap;
      var k: nat := 0;
      while k < |vsec|
        invariant k <= i
      {
        if vsec[k] == s {
          break;
        }
        k := k + 1;
      }
      while k < |vsec|
        invariant i <= k <= |vsec| && Tied()
        invariant forall j :: 0 <= j < |vsec| ==>
                    vsec[j].Value() == if j < i || k <= j then old(vsec[j].Value())
                                       else if i == 0 then Raised(old(vsec[j].Value()), dl)
                                       else PushedBack(Raised(old(vsec[j].Value()), dl), dl)
      {
        vsec[k].vma := Wrap(vsec[k].vma + dl);
        if s != vsec[0] {
          vsec[k].off := Wrap(vsec[k].off + dl);
        }
        k := k + 1;
      }
    }
  }

  lemma LoweredIs(s: Sec, dl: nat)
    ensures Lowered(s, dl) == Sec(s.off, Wrap(s.vma - dl), s.sz)
  {
  }

  lemma PushedBackIs(s: Sec, dl: nat)
    ensures PushedBack(s, dl) == Sec(Wrap(s.off + dl), s.vma, s.sz)
  {
  }

  /** The array while one place is being freed: element `i` is the one to be overwritten. */
  ghost predicate Hole(was: seq<Section>, now: seq<Section>, i: nat) {
    i <= |was| && |now| == |was| + 1 && now == was[..i] + [now[i]] + was[i..]
  }

  lemma HoleAtEnd(was: seq<Section>, x: Section)
    ensures Hole(was, was + [x], |was|) && Above(was, |was|, x)
  {
  }

  lemma HoleFilled(was: seq<Section>, now: seq<Section>, i: nat, x: Section)
    requires Hole(was, now, i)
    ensures i < |now| && i <= |was|
    ensures now[i := x] == was[..i] + [x] + was[i..] && (i > 0 ==> now[i - 1] == was[i - 1])
  {
    assert i > 0 ==> now[i - 1] == (was[..i] + [now[i]] + was[i..])[i - 1];
  }

  lemma HoleMoves(was: seq<Section>, now: seq<Section>, i: nat)
    requires Hole(was, now, i) && i > 0
    ensures |now| == |was| + 1 && i < |now| && now[i - 1] == was[i - 1]
    ensures Hole(was, now[i := now[i - 1]], i - 1)
  {
    assert now[i - 1] == (was[..i] + [now[i]] + was[i..])[i - 1];
    var next := now[i := now[i - 1]];
    assert next == was[..i - 1] + [next[i - 1]] + was[i - 1..];
  }

  ghost predicate OffsetsSorted(vs: seq<Section>)
    reads vs
  {
    forall i, j :: 0 <= i < j < |vs| ==> vs[i].off <= vs[j].off
  }

  ghost predicate Above(vs: seq<Section>, k: nat, sec: Section)
    reads vs, sec
  {
    forall i :: k <= i < |vs| ==> vs[i].off > sec.off
  }

  /** `k` is the place for `sec`: behind all offsets not above its own, before the others. */
  ghost predicate Between(vs: seq<Section>, k: nat, sec: Section)
    requires k <= |vs|
    reads vs, sec
  {
    (forall i :: 0 <= i < k ==> vs[i].off <= sec.off) && Above(vs, k, sec)
  }

  lemma AboveMore(vs: seq<Section>, k: nat, sec: Section)
    requires 0 < k <= |vs| && Above(vs, k, sec) && sec.off < vs[k - 1].off
    ensures Above(vs, k - 1, sec)
  {
  }

  /** A section put behind all with an offset not above its own leaves the list sorted. */
  lemma InsertedByOffset(vs: seq<Section>, k: nat, sec: Section)
    requires k <= |vs| && OffsetsSorted(vs) && Above(vs, k, sec)
    requires k > 0 ==> vs[k - 1].off <= sec.off
    ensures OffsetsSorted(vs[..k] + [sec] + vs[k..]) && Between(vs, k, sec)
  {
    assert forall i :: 0 <= i < k ==> vs[i].off <= vs[k - 1].off || i == k - 1;
  }

  // ---------- requests ----------

  /** What the command line asks of a section: a new address, an adjustment, or both. */
  datatype Action = Action(setVma: Option<U64>, adjust: int)

  function Target(vma: U64, a: Action): U64 {
    Wrap((if a.setVma.Some? then a.setVma.value else vma) + a.adjust)
  }

  function Step(ss: seq<Sec>, i: nat, a: Action): (r: seq<Sec>)
    requires i < |ss|
    ensures |r| == |ss|
  {
    var vma := Target(ss[i].vma, a);
    if vma == ss[i].vma then ss else Moved(ss, i, vma)
  }

  type Request = (nat, Action)

  predicate InBounds(n: nat, rs: seq<Request>) { forall k :: 0 <= k < |rs| ==> rs[k].0 < n }

  /** A segment's sections after requests for some of them, by number. */
  function Run(ss: seq<Sec>, rs: seq<Request>): (r: seq<Sec>)
    requires InBounds(|ss|, rs)
    ensures |r| == |ss|
  {
    if rs == [] then ss
    else
      var m := |rs| - 1;
      Step(Run(ss, rs[..m]), rs[m].0, rs[m].1)
  }

  /** No request makes an address wrap. */
  predicate Fits(ss: seq<Sec>, rs: seq<Request>)
    requires InBounds(|ss|, rs)
  {
    rs == [] ||
    var m := |rs| - 1;
    var tt, i := Run(ss, rs[..m]), rs[m].0;
    Fits(ss, rs[..m]) && NoWrap(tt, i, Target(tt[i].vma, rs[m].1))
  }

  lemma StepKeepsGaps(ss: seq<Sec>, i: nat, a: Action)
    requires i < |ss|
    ensures SameGaps(ss, Step(ss, i, a))
  {
    hide Moved, Gap;
    MoveKeepsGaps(ss, i, Target(ss[i].vma, a));
  }

  /** Any requests keep all file-to-address differences. */
  lemma {:induction false} RunKeepsGaps(ss: seq<Sec>, rs: seq<Request>)
    requires InBounds(|ss|, rs)
    ensures SameGaps(ss, Run(ss, rs))
  {
    hide Step, Gap;
    if rs != [] {
      var m := |rs| - 1;
      RunKeepsGaps(ss, rs[..m]);
      StepKeepsGaps(Run(ss, rs[..m]), rs[m].0, rs[m].1);
      GapsTrans(ss, Run(ss, rs[..m]), Run(ss, rs));
    }
  }

  lemma StepKeepsOrderIff(ss: seq<Sec>, i: nat, a: Action)
    requires i < |ss| && Ordered(ss)
    ensures Ordered(Step(ss, i, a)) <==> NoWrap(ss, i, Target(ss[i].vma, a))
  {
    hide Moved, Ordered, Target;
    MoveKeepsOrderIff(ss, i, Target(ss[i].vma, a));
  }

  /** An ordered segment is ordered after each request exactly when none makes an address wrap. */
  lemma {:induction false} RunKeepsOrderIff(ss: seq<Sec>, rs: seq<Request>)
    requires InBounds(|ss|, rs) && Ordered(ss)
    ensures (forall m :: 0 <= m <= |rs| ==> Ordered(Run(ss, rs[..m]))) <==> Fits(ss, rs)
  {
    hide Ordered, Step, NoWrap, Target;
    if rs == [] {
      assert forall m :: 0 <= m <= |rs| ==> rs[..m] == [];
    } else {
      var n := |rs| - 1;
      RunKeepsOrderIff(ss, rs[..n]);
      assert forall m :: 0 <= m <= n ==> rs[..n][..m] == rs[..m];
      assert rs[..|rs|] == rs;
      if Ordered(Run(ss, rs[..n])) {
        StepKeepsOrderIff(Run(ss, rs[..n]), rs[n].0, rs[n].1);
      }
    }
  }

  lemma {:induction false} FitsPrefix(ss: seq<Sec>, rs: seq<Request>, m: nat)
    requires InBounds(|ss|, rs) && m <= |rs| && Fits(ss, rs)
    ensures Fits(ss, rs[..m])
  {
    hide NoWrap, Target;
    if m < |rs| {
      FitsPrefix(ss, rs[..|rs| - 1], m);
      assert rs[..|rs| - 1][..m] == rs[..m];
    } else {
      assert rs[..m] == rs;
    }
  }

  // ---------- the change of all addresses ----------

  function Changed(s: Sec, change: int): Sec { s.(vma := Wrap(s.vma + change)) }

  function AllChanged(ss: seq<Sec>, change: int): (r: seq<Sec>)
    ensures |r| == |ss|
  {
    seq(|ss|, k requires 0 <= k < |ss| => Changed(ss[k], change))
  }

  lemma NotChanged(s: Sec)
    ensures Changed(s, 0) == s
  {
  }

  /** All addresses leave the 64-bit range equally often, in the usual case never. */
  predicate SameTurn(ss: seq<Sec>, change: int) {
    forall i :: 0 <= i < |ss| ==> (ss[i].vma + change) / MOD64 == (ss[0].vma + change) / MOD64
  }

  lemma ChangeKeepsGaps(ss: seq<Sec>, change: int)
    ensures SameGaps(ss, AllChanged(ss, change))
  {
    hide Gap;
    var tt := AllChanged(ss, change);
    forall a, b | 0 <= a < |ss| && 0 <= b < |ss|
      ensures Gap(tt[a], tt[b]) == Gap(ss[a], ss[b])
    {
      WrapInside(ss[a].off, ss[a].vma + change);
      WrapInside(ss[b].off, ss[b].vma + change);
      EqualSlidesKeepGaps(ss[a], ss[b], tt[a], tt[b], -change);
    }
  }

  lemma Turns(x: int)
    ensures Wrap(x) == x - x / MOD64 * MOD64
  {
  }

  lemma TurnsOrdered(x: int, y: int)
    requires x <= y
    ensures x / MOD64 <= y / MOD64
  {
  }

  /** Changing all addresses keeps an ordered segment ordered exactly when they wrap together. */
  lemma ChangeKeepsOrderIff(ss: seq<Sec>, change: int)
    requires Ordered(ss)
    ensures Ordered(AllChanged(ss, change)) <==> SameTurn(ss, change)
  {
    hide Wrap;
    var tt := AllChanged(ss, change);
    forall k | 0 <= k < |ss|
      ensures tt[k].vma == ss[k].vma + change - (ss[k].vma + change) / MOD64 * MOD64
    {
      Turns(ss[k].vma + change);
    }
    if SameTurn(ss, change) {
      forall i, j | 0 <= i < j < |ss|
        ensures tt[i].vma + tt[i].sz <= tt[j].vma
      {
        assert ss[i].vma + ss[i].sz <= ss[j].vma;
      }
    } else {
      var j :| 0 <= j < |ss| && (ss[j].vma + change) / MOD64 != (ss[0].vma + change) / MOD64;
      assert ss[0].vma + ss[0].sz <= ss[j].vma;
      TurnsOrdered(ss[0].vma + change, ss[j].vma + change);
      assert tt[j].vma - tt[0].vma < 0;
    }
  }

  lemma GapsTrans(a: seq<Sec>, b: seq<Sec>, c: seq<Sec>)
    requires SameGaps(a, b) && SameGaps(b, c)
    ensures SameGaps(a, c)
  {
  }

  /** Everything asked of one segment: the change, then the requests. */
  function Adjusted(ss: seq<Sec>, change: int, rs: seq<Request>): (r: seq<Sec>)
    requires InBounds(|ss|, rs)
    ensures |r| == |ss|
  {
    Run(AllChanged(ss, change), rs)
  }

  predicate Harmless(ss: seq<Sec>, change: int, rs: seq<Request>)
    requires InBounds(|ss|, rs)
  {
    SameTurn(ss, change) && Fits(AllChanged(ss, change), rs)
  }

  lemma AdjustedKeepsGaps(ss: seq<Sec>, change: int, rs: seq<Request>)
    requires InBounds(|ss|, rs)
    ensures SameGaps(ss, Adjusted(ss, change, rs))
  {
    hide SameGaps, Run, AllChanged;
    ChangeKeepsGaps(ss, change);
    RunKeepsGaps(AllChanged(ss, change), rs);
    GapsTrans(ss, AllChanged(ss, change), Adjusted(ss, change, rs));
  }

  /** An ordered segment stays ordered and disjoint after the change and after each request exactly when
      the addresses wrap together or not at all in the change, and none wraps in a request. */
  lemma AdjustedOrderIff(ss: seq<Sec>, change: int, rs: seq<Request>)
    requires InBounds(|ss|, rs) && Ordered(ss)
    ensures (forall m :: 0 <= m <= |rs| ==> Ordered(Adjusted(ss, change, rs[..m]))) <==> Harmless(ss, change, rs)
  {
    hide Ordered, SameTurn, AllChanged;
    ChangeKeepsOrderIff(ss, change);
    assert rs[..0] == [] && Adjusted(ss, change, []) == AllChanged(ss, change);
    if Ordered(AllChanged(ss, change)) {
      RunKeepsOrderIff(AllChanged(ss, change), rs);
    }
  }

  lemma HarmlessPrefix(ss: seq<Sec>, change: int, rs: seq<Request>, first: seq<Request>)
    requires InBounds(|ss|, rs) && Ordered(ss) && Harmless(ss, change, rs) && first <= rs
    ensures InBounds(|ss|, first) && Ordered(Adjusted(ss, change, first))
  {
    hide Ordered, Adjusted, Harmless;
    AdjustedOrderIff(ss, change, rs);
    assert rs[..|first|] == first;
  }

  // ---------- which requests the source carries out ----------

  /** First and last address of the segment if its section `i` goes to `vma`, from the extent as first read. */
  function NewExtent(g: Segment, ss: seq<Sec>, i: nat, vma: U64): (U64, U64)
    requires i < |ss|
  {
    if vma < ss[i].vma then
      var start := Wrap(vma - Wrap(ss[i].vma - g.vaddr));
      (start, if i == |ss| - 1 then Wrap(start + g.msz) else Wrap(g.vaddr + g.msz))
    else
      (if i == 0 then vma else g.vaddr, Wrap(vma + Wrap(g.vaddr + g.msz - ss[i].vma)))
  }

  /** No other PT_LOAD segment, as first read, meets the extent. */
  predicate Apart(segs: seq<Segment>, g: Segment, extent: (U64, U64)) {
    forall k :: 0 <= k < |segs| && segs[k] != g && segs[k].load ==>
      extent.0 > Wrap(segs[k].vaddr + segs[k].msz) || extent.1 < segs[k].vaddr
  }

  /** The checks before a move of section `i` of segment `g`. */
  predicate Viable(segs: seq<Segment>, g: Segment, ss: seq<Sec>, i: nat, align: nat, a: Action)
    requires i < |ss| && align > 0
  {
    var vma := Target(ss[i].vma, a);
    vma == ss[i].vma ||
    (&& vma % align == 0
     && (if vma < ss[i].vma then EnoughSpace(g.vaddr, ss[i].vma, vma)
         else RoomAbove(g.vaddr, g.msz, ss[i].vma, vma, i == 0))
     && Apart(segs, g, NewExtent(g, ss, i, vma)))
  }

  /** A move down by less than the room below, without other segments and alignment, passes. */
  lemma FreeMoveDown(g: Segment, ss: seq<Sec>, i: nat, vma: U64)
    requires i < |ss| && vma < ss[i].vma && EnoughSpace(g.vaddr, ss[i].vma, vma)
    ensures Viable([g], g, ss, i, 1, Action(Some(vma), 0)) && Step(ss, i, Action(Some(vma), 0)) == Moved(ss, i, vma)
  {
    hide EnoughSpace, NewExtent, Moved;
    InRange(vma);
  }

  lemma RunSnoc(ss: seq<Sec>, rs: seq<Request>, r: Request)
    requires InBounds(|ss|, rs) && r.0 < |ss|
    ensures InBounds(|ss|, rs + [r]) && Run(ss, rs + [r]) == Step(Run(ss, rs), r.0, r.1) && Run(ss, []) == ss
  {
    hide Step;
    assert (rs + [r])[..|rs|] == rs;
  }

  lemma TwoRequests(ss: seq<Sec>, r: Request, q: Request)
    requires r.0 < |ss| && q.0 < |ss|
    ensures InBounds(|ss|, [r, q]) && Run(ss, [r, q]) == Step(Step(ss, r.0, r.1), q.0, q.1)
  {
    hide Step, Run;
    RunSnoc(ss, [], r);
    RunSnoc(ss, [r], q);
    assert [] + [r] == [r] && [r] + [q] == [r, q];
  }

  /** Two moves down that pass every check, the second of which wraps the first section's address. */
  lemma ChecksPassOrderLost(g: Segment)
    requires g.vaddr == 0x1000
    ensures var ss := [Sec(0x1000, 0x1000, 0x10), Sec(0x1800, 0x1800, 0x10), Sec(0x2000, 0x2000, 0x10)];
            var a, b := Action(Some(0x900), 0), Action(Some(0x1100), 0);
            && Ordered(ss) && Viable([g], g, ss, 1, 1, a) && Viable([g], g, Step(ss, 1, a), 2, 1, b)
            && !Ordered(Run(ss, [(1, a), (2, b)]))
  {
    hide Ordered, Viable, Moved, Step, EnoughSpace, Run;
    var ss := [Sec(0x1000, 0x1000, 0x10), Sec(0x1800, 0x1800, 0x10), Sec(0x2000, 0x2000, 0x10)];
    SecondMoveCanWrap();
    StaysLast(ss);
    FreeMoveDown(g, ss, 1, 0x900);
    FreeMoveDown(g, Moved(ss, 1, 0x900), 2, 0x1100);
    TwoRequests(ss, (1, Action(Some(0x900), 0)), (2, Action(Some(0x1100), 0)));
  }

  lemma StaysLast(ss: seq<Sec>)
    requires |ss| == 3 && ss[1].vma == 0x1800 && ss[2].vma == 0x2000
    ensures Moved(ss, 1, 0x900)[2].vma == 0x2000
  {
  }

  function Index(vs: seq<Section>, s: Section): (i: nat)
    requires s in vs
    ensures i < |vs| && vs[i] == s
  {
    if vs[0] == s then 0 else 1 + Index(vs[1..], s)
  }

  predicate Asked(s: Section, acts: map<string, Action>) { s.loadable && s.name in acts }

  /** The requests that reach the segment with list `vs` while the sections `done` are gone through. */
  function Requests(done: seq<Section>, vs: seq<Section>, acts: map<string, Action>): (rs: seq<Request>)
    ensures InBounds(|vs|, rs)
  {
    if done == [] then []
    else
      var m := |done| - 1;
      Requests(done[..m], vs, acts)
      + if done[m] in vs && Asked(done[m], acts) then [(Index(vs, done[m]), acts[done[m].name])] else []
  }

  lemma {:induction false} RequestsPrefix(sections: seq<Section>, n: nat, vs: seq<Section>, acts: map<string, Action>)
    requires n <= |sections|
    ensures Requests(sections[..n], vs, acts) <= Requests(sections, vs, acts)
  {
    if n < |sections| {
      var m := |sections| - 1;
      RequestsPrefix(sections[..m], n, vs, acts);
      assert sections[..m][..n] == sections[..n];
    } else {
      assert sections[..n] == sections;
    }
  }

  /** A list that ends with a request for one section more. */
  lemma RequestsSnoc(sections: seq<Section>, k: nat, vs: seq<Section>, acts: map<string, Action>)
    requires k < |sections|
    ensures Requests(sections[..k + 1], vs, acts)
            == Requests(sections[..k], vs, acts)
               + if sections[k] in vs && Asked(sections[k], acts)
                 then [(Index(vs, sections[k]), acts[sections[k].name])] else []
  {
    assert sections[..k + 1][..k] == sections[..k];
  }

  lemma AdjustedSnoc(ss: seq<Sec>, change: int, rs: seq<Request>, r: Request)
    requires InBounds(|ss|, rs) && r.0 < |ss|
    ensures InBounds(|ss|, rs + [r])
    ensures Adjusted(ss, change, rs + [r]) == Step(Adjusted(ss, change, rs), r.0, r.1)
  {
    hide Step, AllChanged, Run;
    RunSnoc(AllChanged(ss, change), rs, r);
  }

  /** A loadable section outside all segments just takes its new address. */
  function LooseAfter(s: Section, v: Sec, change: int, acts: map<string, Action>, reached: bool): Sec {
    if !s.loadable then v
    else
      var c := Changed(v, change);
      if reached && s.name in acts then
        var a := acts[s.name];
        c.(vma := ((if a.setVma.Some? then a.setVma.value else c.vma) + a.adjust) % 0x1_0000_0000_0000_0000)
      else c
  }

  // ---------- all requests ----------

  /** The object's sections and segments: each section is listed once, and is in the list of the PT_LOAD
      segment it points to and of no other. */
  ghost predicate World(sections: seq<Section>, segs: seq<Segment>)
    reads sections`seg, segs
  {
    && (forall i, j :: 0 <= i < j < |sections| ==> sections[i] != sections[j])
    && (forall g, i :: g in segs && g.load && 0 <= i < |g.vsec| ==>
          g.vsec[i] in sections && g.vsec[i].seg == g && g.vsec[i].loadable)
    && (forall g, i, j :: g in segs && g.load && 0 <= i < j < |g.vsec| ==> g.vsec[i] != g.vsec[j])
    && (forall s :: s in sections && s.seg != null ==> s.seg in segs && s.seg.load && s in s.seg.vsec && s.loadable)
  }

  /** Sections of segments that are asked to move have an alignment to check the new address against. */
  predicate Alignable(sections: seq<Section>, acts: map<string, Action>)
    reads sections`seg
  {
    forall s :: s in sections && s.seg != null && Asked(s, acts) ==> s.align > 0
  }

  lemma InWorld(sections: seq<Section>, segs: seq<Segment>, s: Section)
    requires World(sections, segs) && s in sections
    ensures s.seg != null ==> s.seg in segs && s.seg.load && s in s.seg.vsec && s.seg.Tied()
    ensures s.seg != null ==> s.loadable
    ensures forall g, e :: g in segs && g.load && e in g.vsec ==> e in sections && e.seg == g
  {
  }

  /** The checks for section `s` with the addresses as they are. */
  ghost predicate Accepted(sections: seq<Section>, segs: seq<Segment>, s: Section, a: Action)
    requires World(sections, segs) && s in sections && (s.seg != null ==> s.align > 0)
    reads sections, segs
  {
    InWorld(sections, segs, s);
    s.seg != null ==> Viable(segs, s.seg, s.seg.View(), Index(s.seg.vsec, s), s.align, a)
  }

  /** The loop over all segments that looks for an overlap with the new extent. */
  method CheckApart(segs: seq<Segment>, g: Segment, start: U64, end: U64) returns (ok: bool)
    ensures ok == Apart(segs, g, (start, end))
  {
    hide Wrap;
    for k := 0 to |segs|
      invariant forall j :: 0 <= j < k && segs[j] != g && segs[j].load ==>
                  start > Wrap(segs[j].vaddr + segs[j].msz) || end < segs[j].vaddr
    {
      var seg := segs[k];
      if seg != g && seg.load && !(start > Wrap(seg.vaddr + seg.msz)) && !(end < seg.vaddr) {
        return false;
      }
    }
    return true;
  }

  /** Whether section `s` of segment `g` may go to `vma`. */
  method CheckMove(segs: seq<Segment>, g: Segment, s: Section, vma: U64, ghost a: Action) returns (ok: bool)
    requires g.Tied() && s in g.vsec && s.align > 0 && vma == Target(s.vma, a) && vma != s.vma
    ensures ok == Viable(segs, g, g.View(), Index(g.vsec, s), s.align, a)
  {
    hide Wrap, Apart, Target;
    ghost var i := Index(g.vsec, s);
    assert g.View()[i] == s.Value();
    if vma % s.align != 0 {
      return false;
    }
    var start: U64, end: U64;
    if vma < s.vma {
      if vma < Wrap(s.vma - g.vaddr) {
        return false;
      }
      start := Wrap(vma - Wrap(s.vma - g.vaddr));
      end := if s == g.vsec[|g.vsec| - 1] then Wrap(start + g.msz) else Wrap(g.vaddr + g.msz);
    } else {
      start := if s == g.vsec[0] then vma else g.vaddr;
      end := Wrap(vma + Wrap(g.vaddr + g.msz - s.vma));
      if end < start {
        return false;
      }
    }
    assert (start, end) == NewExtent(g, g.View(), i, vma);
    ok := CheckApart(segs, g, start, end);
  }

  /** One request: refused with nothing changed, or the section goes where it is asked to, its segment
      moves with it, and nothing else does. */
  method MoveOne(sections: seq<Section>, segs: seq<Segment>, s: Section, a: Action) returns (ok: bool)
    requires World(sections, segs) && s in sections && (s.seg != null ==> s.align > 0)
    modifies sections`off, sections`vma
    ensures World(sections, segs)
    ensures ok <==> old(Accepted(sections, segs, s, a))
    ensures !ok ==> forall e :: e in sections ==> e.Value() == old(e.Value())
    ensures ok ==> s.vma == Target(old(s.vma), a)
    ensures ok && s.seg != null ==> s in s.seg.vsec && s.seg.View() == Step(old(s.seg.View()), Index(s.seg.vsec, s), a)
    ensures forall e :: e in sections && e != s && (s.seg == null || e.seg != s.seg) ==> e.Value() == old(e.Value())
    ensures forall g :: g in segs && g.load && g != s.seg ==> g.View() == old(g.View())
    ensures s.seg == null ==> ok && s.off == old(s.off)
  {
    hide Moved, Viable, World, Segment.Tied, Target, Index;
    InWorld(sections, segs, s);
    var vma := Target(s.vma, a);
    if s.seg == null {
      s.vma := vma;
      return true;
    }
    var g := s.seg;
    ghost var i, was := Index(g.vsec, s), g.View();
    assert was[i] == s.Value();
    if vma == s.vma {
      StayingIsViable(segs, g, was, i, s.align, a);
      return true;
    }
    ok := CheckMove(segs, g, s, vma, a);
    if ok {
      g.Shift(s, vma, i);
      assert g.View()[i] == s.Value();
      MovedThere(was, i, vma);
    }
  }

  lemma TargetIs(vma: U64, a: Action)
    ensures Target(vma, a) == ((if a.setVma.Some? then a.setVma.value else vma) + a.adjust) % 0x1_0000_0000_0000_0000
  {
  }

  lemma StayingIsViable(segs: seq<Segment>, g: Segment, ss: seq<Sec>, i: nat, align: nat, a: Action)
    requires i < |ss| && align > 0 && Target(ss[i].vma, a) == ss[i].vma
    ensures Viable(segs, g, ss, i, align, a)
  {
  }

  lemma MovedThere(ss: seq<Sec>, i: nat, vma: U64)
    requires i < |ss|
    ensures Moved(ss, i, vma)[i].vma == vma
  {
  }

  /** The first pass: every loadable section moves by the same amount, its offset stays. */
  method ChangeAll(sections: seq<Section>, segs: seq<Segment>, change: int)
    requires World(sections, segs)
    modifies sections`off, sections`vma
    ensures World(sections, segs)
    ensures forall s :: s in sections ==>
              s.Value() == if s.loadable then Changed(old(s.Value()), change) else old(s.Value())
    ensures forall g :: g in segs && g.load ==> g.View() == AllChanged(old(g.View()), change)
  {
    hide Wrap;
    ghost var was := map s | s in sections :: s.Value();
    for k := 0 to |sections|
      invariant World(sections, segs)
      invariant forall j :: 0 <= j < |sections| ==>
                  sections[j].Value()
                  == if j < k && sections[j].loadable then Changed(was[sections[j]], change) else was[sections[j]]
    {
      if sections[k].loadable && change != 0 {
        sections[k].vma := Wrap(sections[k].vma + change);
      } else {
        NotChanged(sections[k].Value());
      }
    }
    forall g | g in segs && g.load
      ensures g.View() == AllChanged(old(g.View()), change)
    {
      forall i | 0 <= i < |g.vsec|
        ensures g.View()[i] == Changed(old(g.View())[i], change)
      {
        assert g.vsec[i] in sections;
      }
    }
  }

  /** The records of all sections, and those of each PT_LOAD segment in the order of its list. */
  datatype Snapshot = Snapshot(views: map<Segment, seq<Sec>>, records: map<Section, Sec>)

  ghost function Snap(sections: seq<Section>, segs: seq<Segment>): (now: Snapshot)
    requires World(sections, segs)
    reads sections, segs
    ensures Covers(now, sections, segs)
    ensures forall g :: g in segs && g.load ==> (InWorldList(sections, segs, g); now.views[g] == g.View())
    ensures forall s :: s in sections ==> now.records[s] == s.Value()
  {
    Snapshot(map g | g in segs && g.load :: (InWorldList(sections, segs, g); g.View()),
             map s | s in sections :: s.Value())
  }

  ghost predicate Covers(now: Snapshot, sections: seq<Section>, segs: seq<Segment>)
    reads segs
  {
    && (forall g :: g in segs && g.load ==> g in now.views && |now.views[g]| == |g.vsec|)
    && (forall s :: s in sections ==> s in now.records)
  }

  lemma InWorldList(sections: seq<Section>, segs: seq<Segment>, g: Segment)
    requires World(sections, segs) && g in segs && g.load
    ensures forall e :: e in g.vsec ==> e in sections && e.seg == g
  {
  }

  /** Whether the request of section `k`, if any, passes the checks once those before it are carried out. */
  ghost predicate Granted(sections: seq<Section>, segs: seq<Segment>, start: Snapshot,
                          change: int, acts: map<string, Action>, k: nat)
    requires World(sections, segs) && k < |sections| && Covers(start, sections, segs) && Alignable(sections, acts)
    reads sections`seg, segs
  {
    InWorld(sections, segs, sections[k]);
    var s := sections[k];
    s.seg != null && Asked(s, acts) ==>
      Viable(segs, s.seg, Adjusted(start.views[s.seg], change, Requests(sections[..k], s.seg.vsec, acts)),
             Index(s.seg.vsec, s), s.align, acts[s.name])
  }

  /** What the change and the first `k` sections' requests make of the sections as they were. */
  ghost predicate Done(sections: seq<Section>, segs: seq<Segment>, start: Snapshot, now: Snapshot,
                       change: int, acts: map<string, Action>, k: nat)
    requires k <= |sections| && Covers(start, sections, segs) && Covers(now, sections, segs)
    reads sections`seg, segs
  {
    && (forall g :: g in segs && g.load ==>
          now.views[g] == Adjusted(start.views[g], change, Requests(sections[..k], g.vsec, acts)))
    && (forall j :: 0 <= j < |sections| && sections[j].seg == null ==>
          now.records[sections[j]] == LooseAfter(sections[j], start.records[sections[j]], change, acts, j < k))
  }

  /** Passing over a section that asks for nothing. */
  lemma NotAsked(sections: seq<Section>, segs: seq<Segment>, start: Snapshot, now: Snapshot,
                 change: int, acts: map<string, Action>, k: nat)
    requires k < |sections| && Covers(start, sections, segs) && Covers(now, sections, segs)
    requires Done(sections, segs, start, now, change, acts, k) && !Asked(sections[k], acts)
    ensures Done(sections, segs, start, now, change, acts, k + 1)
  {
    hide Adjusted, Requests, Target, Changed;
    forall g | g in segs && g.load
      ensures Requests(sections[..k + 1], g.vsec, acts) == Requests(sections[..k], g.vsec, acts)
    {
      RequestsSnoc(sections, k, g.vsec, acts);
      assert Requests(sections[..k], g.vsec, acts) + [] == Requests(sections[..k], g.vsec, acts);
    }
  }

  /** One request carried out, as `MoveOne` states it. */
  ghost predicate Carried(sections: seq<Section>, segs: seq<Segment>, was: Snapshot, now: Snapshot, s: Section,
                          a: Action)
    requires s in sections && Covers(was, sections, segs) && Covers(now, sections, segs)
    reads sections`seg, segs
  {
    && now.records[s].vma == Target(was.records[s].vma, a)
    && (s.seg == null ==> now.records[s] == was.records[s].(vma := now.records[s].vma))
    && (forall e :: e in sections && e != s && (s.seg == null || e.seg != s.seg) ==> now.records[e] == was.records[e])
    && (forall g :: g in segs && g.load ==>
          if g == s.seg then s in g.vsec && now.views[g] == Step(was.views[g], Index(g.vsec, s), a)
          else now.views[g] == was.views[g])
  }

  lemma OneDone(sections: seq<Section>, segs: seq<Segment>, start: Snapshot, was: Snapshot, now: Snapshot,
                change: int, acts: map<string, Action>, k: nat)
    requires World(sections, segs) && k < |sections| && Asked(sections[k], acts)
    requires Covers(start, sections, segs) && Covers(was, sections, segs) && Covers(now, sections, segs)
    requires Done(sections, segs, start, was, change, acts, k)
    requires Carried(sections, segs, was, now, sections[k], acts[sections[k].name])
    ensures Done(sections, segs, start, now, change, acts, k + 1)
  {
    hide World, Adjusted, Requests, Target, Step, Index, Changed;
    var s, a := sections[k], acts[sections[k].name];
    TargetIs(was.records[s].vma, a);
    Distinct(sections, segs);
    forall g | g in segs && g.load
      ensures now.views[g] == Adjusted(start.views[g], change, Requests(sections[..k + 1], g.vsec, acts))
    {
      RequestsSnoc(sections, k, g.vsec, acts);
      InWorldList(sections, segs, g);
      if s.seg == g {
        AdjustedSnoc(start.views[g], change, Requests(sections[..k], g.vsec, acts), (Index(g.vsec, s), a));
      } else {
        assert s !in g.vsec;
        assert Requests(sections[..k], g.vsec, acts) + [] == Requests(sections[..k], g.vsec, acts);
      }
    }
  }

  lemma Distinct(sections: seq<Section>, segs: seq<Segment>)
    requires World(sections, segs)
    ensures forall i, j :: 0 <= i < j < |sections| ==> sections[i] != sections[j]
  {
  }

  /** After the first pass no request is carried out yet. */
  lemma NoneDone(sections: seq<Section>, segs: seq<Segment>, start: Snapshot, now: Snapshot,
                 change: int, acts: map<string, Action>)
    requires Covers(start, sections, segs) && Covers(now, sections, segs)
    requires forall s :: s in sections ==>
               now.records[s] == if s.loadable then Changed(start.records[s], change) else start.records[s]
    requires forall g :: g in segs && g.load ==> now.views[g] == AllChanged(start.views[g], change)
    ensures Done(sections, segs, start, now, change, acts, 0)
  {
  }

  /** Whether section `k`'s request is granted shows in the state its predecessors' requests leave. */
  lemma GrantedNow(sections: seq<Section>, segs: seq<Segment>, start: Snapshot,
                   change: int, acts: map<string, Action>, k: nat)
    requires World(sections, segs) && k < |sections| && Covers(start, sections, segs) && Alignable(sections, acts)
    requires Done(sections, segs, start, Snap(sections, segs), change, acts, k)
    ensures Granted(sections, segs, start, change, acts, k)
            <==> (Asked(sections[k], acts) ==> Accepted(sections, segs, sections[k], acts[sections[k].name]))
  {
    hide World, Viable, Adjusted, Requests, Index;
    InWorld(sections, segs, sections[k]);
  }

  /** The request of section `k`, if any, in the second pass. */
  method Visit(sections: seq<Section>, segs: seq<Segment>, acts: map<string, Action>, k: nat) returns (ok: bool)
    requires World(sections, segs) && k < |sections| && Alignable(sections, acts)
    modifies sections`off, sections`vma
    ensures World(sections, segs)
    ensures ok <==> (Asked(sections[k], acts) ==> old(Accepted(sections, segs, sections[k], acts[sections[k].name])))
    ensures ok && Asked(sections[k], acts) ==>
              Carried(sections, segs, old(Snap(sections, segs)), Snap(sections, segs), sections[k],
                      acts[sections[k].name])
    ensures !ok || !Asked(sections[k], acts) ==> Snap(sections, segs) == old(Snap(sections, segs))
  {
    hide World, Step, Index, Accepted, Target;
    ok := true;
    if Asked(sections[k], acts) {
      ok := MoveOne(sections, segs, sections[k], acts[sections[k].name]);
      forall g | g in segs && g.load
        ensures !ok ==> g.View() == old(g.View())
      {
        InWorldList(sections, segs, g);
      }
    }
  }

  /** The VMA passes of `adjust_addr`: a change of all addresses, then the request of each section in turn,
      up to the first one that is refused. Whatever is requested and wherever it stops, the distances between
      file offsets and addresses agree within each segment as before; and a segment whose own requests are
      harmless stays ordered and disjoint. */
  method AdjustAddr(sections: seq<Section>, segs: seq<Segment>, change: int, acts: map<string, Action>)
    returns (ok: bool, n: nat)
    requires World(sections, segs) && Alignable(sections, acts)
    modifies sections`off, sections`vma
    ensures World(sections, segs)
    ensures n <= |sections| && (ok <==> n == |sections|)
    ensures forall k :: 0 <= k < n ==> Granted(sections, segs, old(Snap(sections, segs)), change, acts, k)
    ensures !ok ==> !Granted(sections, segs, old(Snap(sections, segs)), change, acts, n)
    ensures Done(sections, segs, old(Snap(sections, segs)), Snap(sections, segs), change, acts, n)
    ensures forall g :: g in segs && g.load ==> SameGaps(old(g.View()), g.View())
    ensures forall g :: g in segs && g.load
                        && Ordered(old(g.View())) && Harmless(old(g.View()), change, Requests(sections, g.vsec, acts))
                        ==> Ordered(g.View())
  {
    hide SameGaps, Ordered, World, Adjusted, Viable, Harmless, Target, Index, Requests, Done, Carried, Accepted,
      Granted;
    ghost var start := Snap(sections, segs);
    ChangeAll(sections, segs, change);
    NoneDone(sections, segs, start, Snap(sections, segs), change, acts);
    ok, n := SecondPass(sections, segs, start, change, acts);
    forall g | g in segs && g.load
      ensures SameGaps(old(g.View()), g.View())
      ensures Ordered(old(g.View())) && Harmless(old(g.View()), change, Requests(sections, g.vsec, acts)) ==>
                Ordered(g.View())
    {
      KeptBy(sections, segs, start, Snap(sections, segs), change, acts, n, g);
    }
  }

  method SecondPass(sections: seq<Section>, segs: seq<Segment>, ghost start: Snapshot, ghost change: int,
                    acts: map<string, Action>)
    returns (ok: bool, n: nat)
    requires World(sections, segs) && Covers(start, sections, segs) && Alignable(sections, acts)
    requires Done(sections, segs, start, Snap(sections, segs), change, acts, 0)
    modifies sections`off, sections`vma
    ensures World(sections, segs)
    ensures n <= |sections| && (ok <==> n == |sections|)
    ensures forall k :: 0 <= k < n ==> Granted(sections, segs, start, change, acts, k)
    ensures !ok ==> !Granted(sections, segs, start, change, acts, n)
    ensures Done(sections, segs, start, Snap(sections, segs), change, acts, n)
  {
    hide World, Done, Carried, Accepted, Granted, Snap;
    ok, n := true, 0;
    while n < |sections|
      invariant n <= |sections| && ok && World(sections, segs)
      invariant Done(sections, segs, start, Snap(sections, segs), change, acts, n)
      invariant forall k :: 0 <= k < n ==> Granted(sections, segs, start, change, acts, k)
    {
      ghost var before := Snap(sections, segs);
      GrantedNow(sections, segs, start, change, acts, n);
      ok := Visit(sections, segs, acts, n);
      if !ok {
        break;
      }
      if Asked(sections[n], acts) {
        OneDone(sections, segs, start, before, Snap(sections, segs), change, acts, n);
      } else {
        NotAsked(sections, segs, start, before, change, acts, n);
      }
      n := n + 1;
    }
  }

  /** What the requests carried out keep in one segment. */
  lemma KeptBy(sections: seq<Section>, segs: seq<Segment>, start: Snapshot, now: Snapshot,
               change: int, acts: map<string, Action>, n: nat, g: Segment)
    requires n <= |sections| && Covers(start, sections, segs) && Covers(now, sections, segs) && g in segs && g.load
    requires Done(sections, segs, start, now, change, acts, n)
    ensures SameGaps(start.views[g], now.views[g])
    ensures Ordered(start.views[g]) && Harmless(start.views[g], change, Requests(sections, g.vsec, acts)) ==>
              Ordered(now.views[g])
  {
    hide SameGaps, Ordered, Adjusted, Harmless, Requests;
    AdjustedKeepsGaps(start.views[g], change, Requests(sections[..n], g.vsec, acts));
    RequestsPrefix(sections, n, g.vsec, acts);
    if Ordered(start.views[g]) && Harmless(start.views[g], change, Requests(sections, g.vsec, acts)) {
      HarmlessPrefix(start.views[g], change, Requests(sections, g.vsec, acts), Requests(sections[..n], g.vsec, acts));
    }
  }
}
