/** Removing duplicate CIEs from the input .eh_frame sections (ld/ld_ehframe.c): the scan that packs
    each section in place and redirects every FDE to the CIE that was kept. Entries follow section
    6.4.1 of DWARF 4, with 32-bit lengths. */
module EhFrame {
  import opened Bytes

  // ---------- 32-bit fields ----------

  function Enc32(big: bool, v: Word): (s: seq<byte>)
    ensures |s| == 4
  {
    if big then ToBE(v, 4) else ToLE(v, 4)
  }

  /** READ_32 in the byte order of the output. */
  function Read32(big: bool, s: seq<byte>, p: nat): Word
    requires p + 4 <= |s|
  {
    if big then Join(s[p + 3], s[p + 2], s[p + 1], s[p]) else Join(s[p], s[p + 1], s[p + 2], s[p + 3])
  }

  function Join(b0: int, b1: int, b2: int, b3: int): Word
    requires 0 <= b0 < 256 && 0 <= b1 < 256 && 0 <= b2 < 256 && 0 <= b3 < 256
  {
    b0 + b1 * 256 + b2 * 65536 + b3 * 16777216
  }

  lemma JoinDigits(v: Word)
    ensures v / 256 / 256 / 256 < 256
    ensures Join(v % 256, v / 256 % 256, v / 256 / 256 % 256, v / 256 / 256 / 256) == v
  {
    var w, x := v / 256, v / 256 / 256;
    assert v == 256 * w + v % 256 && w == 256 * x + w % 256 && x == 256 * (x / 256) + x % 256;
  }

  lemma EncBytes(big: bool, v: Word)
    ensures var b0, b1, b2, b3 := v % 256, v / 256 % 256, v / 256 / 256 % 256, v / 256 / 256 / 256 % 256;
            Enc32(big, v) == if big then [b3, b2, b1, b0] else [b0, b1, b2, b3]
  {
    var w, x := v / 256, v / 256 / 256;
    var y := x / 256;
    assert ToBE(y, 1) == [y % 256] && ToLE(y, 1) == [y % 256] by {
      assert ToBE(y / 256, 0) == [] && ToLE(y / 256, 0) == [];
    }
    assert ToBE(x, 2) == ToBE(y, 1) + [x % 256] && ToLE(x, 2) == [x % 256] + ToLE(y, 1);
    assert ToBE(w, 3) == ToBE(x, 2) + [w % 256] && ToLE(w, 3) == [w % 256] + ToLE(x, 2);
  }

  lemma ReadEnc(big: bool, v: Word, pre: seq<byte>, post: seq<byte>)
    ensures Read32(big, pre + Enc32(big, v) + post, |pre|) == v
  {
    hide Join, Enc32;
    var s, e := pre + Enc32(big, v) + post, Enc32(big, v);
    JoinDigits(v);
    EncBytes(big, v);
    assert s[|pre|] == e[0] && s[|pre| + 1] == e[1] && s[|pre| + 2] == e[2] && s[|pre| + 3] == e[3];
  }

  // ---------- entries ----------

  /** A CIE (`id == 0`) or an FDE, whose id is the distance back to its CIE. */
  datatype Entry = Entry(id: Word, rest: seq<byte>)

  predicate Sized(e: Entry) { |e.rest| + 4 < 0xFFFF_FFFF }

  function Encode(big: bool, e: Entry): (s: seq<byte>)
    requires Sized(e)
    ensures |s| == 8 + |e.rest|
  {
    Enc32(big, 4 + |e.rest|) + Enc32(big, e.id) + e.rest
  }

  ghost predicate AllSized(es: seq<Entry>) {
    forall i :: 0 <= i < |es| ==> Sized(es[i])
  }

  ghost function Flatten(big: bool, es: seq<Entry>): seq<byte>
    requires AllSized(es)
  {
    if es == [] then [] else Flatten(big, es[..|es| - 1]) + Encode(big, es[|es| - 1])
  }

  /** Offset of entry `i` in its section. */
  ghost function Pos(big: bool, es: seq<Entry>, i: nat): nat
    requires AllSized(es) && i <= |es|
  {
    |Flatten(big, es[..i])|
  }

  lemma {:induction false} FlattenConcat(big: bool, a: seq<Entry>, b: seq<Entry>)
    requires AllSized(a) && AllSized(b)
    ensures Flatten(big, a + b) == Flatten(big, a) + Flatten(big, b)
  {
    hide Encode;
    if b == [] {
      assert a + b == a;
    } else {
      assert (a + b)[..|a + b| - 1] == a + b[..|b| - 1];
      FlattenConcat(big, a, b[..|b| - 1]);
    }
  }

  lemma FlattenOne(big: bool, e: Entry)
    requires Sized(e)
    ensures Flatten(big, [e]) == Encode(big, e)
  {
    hide Encode;
    assert [e][..0] == [];
  }

  // ---------- the scan of one section, as a function ----------

  /** A CIE kept earlier: its offset in the packed output and its bytes. */
  datatype Known = Known(off: nat, bytes: seq<byte>)

  /** A CIE of the section being scanned: original offset, bytes, and where it now is. */
  datatype Cie = Cie(orig: nat, bytes: seq<byte>, target: nat, kept: bool)

  datatype Scan = Scan(out: seq<Entry>, cies: seq<Cie>)

  ghost function FindKnown(known: seq<Known>, bytes: seq<byte>): (k: nat)
    ensures k <= |known|
    ensures k < |known| ==> known[k].bytes == bytes
    ensures forall i :: 0 <= i < k ==> known[i].bytes != bytes
  {
    if known == [] || known[0].bytes == bytes then 0 else 1 + FindKnown(known[1..], bytes)
  }

  ghost function FindCie(cies: seq<Cie>, orig: int): (k: nat)
    ensures k <= |cies|
    ensures k < |cies| ==> cies[k].orig == orig
    ensures forall i :: 0 <= i < k ==> cies[i].orig != orig
  {
    if cies == [] || cies[0].orig == orig then 0 else 1 + FindCie(cies[1..], orig)
  }

  /** The new CIE pointer of an FDE that now stands at output offset `at`. */
  function Pointer(at: nat, target: nat): Word {
    (at + 4 - target) % WORD_MOD
  }

  ghost function ScanSection(big: bool, es: seq<Entry>, known: seq<Known>, reloff: nat): (st: Scan)
    requires AllSized(es)
    ensures AllSized(st.out)
  {
    if es == [] then Scan([], [])
    else
      var n := |es| - 1;
      var st := ScanSection(big, es[..n], known, reloff);
      ScanEntry(big, es[n], Pos(big, es, n), st, known, reloff)
  }

  ghost function ScanEntry(big: bool, e: Entry, origOff: nat, st: Scan, known: seq<Known>, reloff: nat): (st': Scan)
    requires Sized(e) && AllSized(st.out)
    ensures AllSized(st'.out)
  {
    var at := reloff + |Flatten(big, st.out)|;
    if e.id == 0 then
      var bytes := Encode(big, e);
      var k := FindKnown(known, bytes);
      if k < |known| then st.(cies := st.cies + [Cie(origOff, bytes, known[k].off, false)])
      else Scan(st.out + [e], st.cies + [Cie(origOff, bytes, at, true)])
    else
      var k := FindCie(st.cies, origOff + 4 - e.id);
      if k < |st.cies| then st.(out := st.out + [e.(id := Pointer(at, st.cies[k].target))])
      else st.(out := st.out + [e])
  }

  // ---------- what a scan guarantees ----------

  ghost predicate HeldAt(buf: seq<byte>, off: nat, bytes: seq<byte>) {
    off + |bytes| <= |buf| && buf[off..off + |bytes|] == bytes
  }

  ghost predicate AllKnown(buf: seq<byte>, known: seq<Known>) {
    forall k :: 0 <= k < |known| ==> HeldAt(buf, known[k].off, known[k].bytes)
  }

  lemma HeldExtends(buf: seq<byte>, buf': seq<byte>, off: nat, bytes: seq<byte>)
    requires HeldAt(buf, off, bytes) && buf <= buf'
    ensures HeldAt(buf', off, bytes)
  {
    assert buf'[off..off + |bytes|] == buf[off..off + |bytes|];
  }

  ghost predicate AllTargets(buf: seq<byte>, cies: seq<Cie>) {
    forall k :: 0 <= k < |cies| ==> HeldAt(buf, cies[k].target, cies[k].bytes)
  }

  /** Every CIE seen so far, kept or replaced, is found byte for byte at its target. */
  lemma {:induction false} TargetsHold(big: bool, es: seq<Entry>, known: seq<Known>, before: seq<byte>)
    requires AllSized(es) && AllKnown(before, known)
    ensures var st := ScanSection(big, es, known, |before|);
            AllTargets(before + Flatten(big, st.out), st.cies)
  {
    hide Encode, HeldAt, ScanEntry;
    if es != [] {
      var n := |es| - 1;
      TargetsHold(big, es[..n], known, before);
      EntryTargets(big, es[n], Pos(big, es, n), ScanSection(big, es[..n], known, |before|), known, before);
    }
  }

  lemma EntryTargets(big: bool, e: Entry, origOff: nat, st: Scan, known: seq<Known>, before: seq<byte>)
    requires Sized(e) && AllSized(st.out) && AllKnown(before, known)
    requires AllTargets(before + Flatten(big, st.out), st.cies)
    ensures var st' := ScanEntry(big, e, origOff, st, known, |before|);
            AllTargets(before + Flatten(big, st'.out), st'.cies)
  {
    hide Encode, Pointer, HeldAt, Flatten;
    var st' := ScanEntry(big, e, origOff, st, known, |before|);
    var buf, buf' := before + Flatten(big, st.out), before + Flatten(big, st'.out);
    FlattenSnoc(big, st.out, st'.out);
    forall k | 0 <= k < |st'.cies|
      ensures HeldAt(buf', st'.cies[k].target, st'.cies[k].bytes)
    {
      if k < |st.cies| {
        HeldExtends(buf, buf', st.cies[k].target, st.cies[k].bytes);
      } else if st'.cies[k].kept {
        assert buf' == buf + Encode(big, e);
        HeldAtEnd(buf, Encode(big, e));
      } else {
        HeldExtends(before, buf', st'.cies[k].target, st'.cies[k].bytes);
      }
    }
  }

  lemma FlattenSnoc(big: bool, a: seq<Entry>, b: seq<Entry>)
    requires AllSized(a) && AllSized(b) && (b == a || (|b| == |a| + 1 && b[..|a|] == a))
    ensures Flatten(big, a) <= Flatten(big, b)
    ensures b != a ==> Flatten(big, b) == Flatten(big, a) + Encode(big, b[|a|])
  {
    hide Encode;
  }

  lemma HeldAtEnd(buf: seq<byte>, bytes: seq<byte>)
    ensures HeldAt(buf + bytes, |buf|, bytes)
  {
  }

  /** The recorded CIEs are exactly the CIE entries, at their original offsets. */
  lemma {:induction false} CieRecorded(big: bool, es: seq<Entry>, known: seq<Known>, reloff: nat, i: nat)
    requires AllSized(es) && i < |es| && es[i].id == 0
    ensures exists k :: 0 <= k < |ScanSection(big, es, known, reloff).cies|
                        && ScanSection(big, es, known, reloff).cies[k].orig == Pos(big, es, i)
  {
    hide Encode, Pointer, FindKnown, FindCie, Flatten;
    var n := |es| - 1;
    var st := ScanSection(big, es, known, reloff);
    if i < n {
      CieRecorded(big, es[..n], known, reloff, i);
      var st0 := ScanSection(big, es[..n], known, reloff);
      var k :| 0 <= k < |st0.cies| && st0.cies[k].orig == Pos(big, es[..n], i);
      assert es[..n][..i] == es[..i];
      assert st.cies[k].orig == Pos(big, es, i);
    } else {
      assert st.cies[|st.cies| - 1].orig == Pos(big, es, i);
    }
  }

  lemma {:induction false} CieSource(big: bool, es: seq<Entry>, known: seq<Known>, reloff: nat, k: nat) returns (i: nat)
    requires AllSized(es) && k < |ScanSection(big, es, known, reloff).cies|
    ensures var c := ScanSection(big, es, known, reloff).cies[k];
            i < |es| && es[i].id == 0 && c.orig == Pos(big, es, i) && c.bytes == Encode(big, es[i])
  {
    hide Encode, Pointer, FindKnown, FindCie, Flatten;
    var n := |es| - 1;
    var st0 := ScanSection(big, es[..n], known, reloff);
    if k < |st0.cies| {
      i := CieSource(big, es[..n], known, reloff, k);
      assert es[..n][..i] == es[..i];
    } else {
      i := n;
    }
  }

  lemma {:induction false} PosIncreases(big: bool, es: seq<Entry>, i: nat, j: nat)
    requires AllSized(es) && i < j <= |es|
    ensures Pos(big, es, i) + 8 <= Pos(big, es, j)
    decreases j
  {
    hide Encode;
    assert es[..j][..j - 1] == es[..j - 1];
    if i < j - 1 {
      PosIncreases(big, es, i, j - 1);
    }
  }

  lemma {:induction false} OutGrows(big: bool, es: seq<Entry>, known: seq<Known>, reloff: nat, j: nat)
    requires AllSized(es) && j <= |es|
    ensures ScanSection(big, es[..j], known, reloff).out <= ScanSection(big, es, known, reloff).out
  {
    hide Encode, Pointer, FindKnown, FindCie, Flatten;
    if j == |es| {
      assert es[..j] == es;
    } else {
      assert es[..|es| - 1][..j] == es[..j];
      OutGrows(big, es[..|es| - 1], known, reloff, j);
    }
  }

  lemma FlattenPrefix(big: bool, a: seq<Entry>, b: seq<Entry>)
    requires AllSized(a) && AllSized(b) && a <= b
    ensures Flatten(big, a) <= Flatten(big, b)
  {
    assert b == a + b[|a|..];
    FlattenConcat(big, a, b[|a|..]);
  }

  /** Bytes dropped so far: the CIEs that were not kept. */
  ghost function Shrink(cies: seq<Cie>): nat {
    if cies == [] then 0
    else Shrink(cies[..|cies| - 1]) + if cies[|cies| - 1].kept then 0 else |cies[|cies| - 1].bytes|
  }

  /** The section shrinks by exactly the CIEs that were dropped. */
  lemma {:induction false} SizeAccounts(big: bool, es: seq<Entry>, known: seq<Known>, reloff: nat)
    requires AllSized(es)
    ensures var st := ScanSection(big, es, known, reloff);
            |Flatten(big, st.out)| + Shrink(st.cies) == |Flatten(big, es)|
  {
    hide Encode, ScanEntry, Flatten;
    if es == [] {
      assert Flatten(big, es) == [] by { FlattenNone(big); }
      assert ScanSection(big, es, known, reloff) == Scan([], []);
    } else {
      var n := |es| - 1;
      SizeAccounts(big, es[..n], known, reloff);
      EntrySize(big, es[n], Pos(big, es, n), ScanSection(big, es[..n], known, reloff), known, reloff);
      FlattenSnoc(big, es[..n], es);
    }
  }

  lemma FlattenNone(big: bool)
    ensures Flatten(big, []) == []
  {
  }

  lemma EntrySize(big: bool, e: Entry, origOff: nat, st: Scan, known: seq<Known>, reloff: nat)
    requires Sized(e) && AllSized(st.out)
    ensures var st' := ScanEntry(big, e, origOff, st, known, reloff);
            |Flatten(big, st'.out)| + Shrink(st'.cies) == |Flatten(big, st.out)| + Shrink(st.cies) + |Encode(big, e)|
  {
    hide Pointer, Flatten, FindKnown, FindCie;
    var st' := ScanEntry(big, e, origOff, st, known, reloff);
    FlattenSnoc(big, st.out, st'.out);
    assert st'.cies != st.cies ==> st'.cies[..|st'.cies| - 1] == st.cies;
  }

  /** A CIE is dropped exactly when an earlier section kept one with the same bytes. */
  lemma {:induction false} DroppedIffKnown(big: bool, es: seq<Entry>, known: seq<Known>, reloff: nat, k: nat)
    requires AllSized(es) && k < |ScanSection(big, es, known, reloff).cies|
    ensures var c := ScanSection(big, es, known, reloff).cies[k];
            !c.kept <==> exists i :: 0 <= i < |known| && known[i].bytes == c.bytes
  {
    hide Encode, Pointer, Flatten, FindCie;
    var n := |es| - 1;
    var st0 := ScanSection(big, es[..n], known, reloff);
    if k < |st0.cies| {
      DroppedIffKnown(big, es[..n], known, reloff, k);
    }
  }

  /** `es[j]` is an FDE and `es[i]` the CIE its pointer leads back to. */
  ghost predicate RefersTo(big: bool, es: seq<Entry>, j: nat, i: nat)
    requires AllSized(es)
  {
    i < j < |es| && es[j].id != 0 && es[i].id == 0 && Pos(big, es, i) == Pos(big, es, j) + 4 - es[j].id
  }

  /** Entry `m` of the packed section is an FDE with this tail whose pointer leads to these bytes. */
  ghost predicate PointsAt(big: bool, buf: seq<byte>, reloff: nat, out: seq<Entry>, m: nat, rest: seq<byte>,
                           cie: seq<byte>)
    requires AllSized(out)
  {
    && m < |out| && out[m].rest == rest && out[m].id != 0
    && var at := reloff + Pos(big, out, m);
       HeldAt(buf, at, Encode(big, out[m])) && out[m].id <= at + 4 && HeldAt(buf, at + 4 - out[m].id, cie)
  }

  /** Scanning an FDE finds the CIE it refers to and appends the FDE with a new pointer. */
  lemma FdeFinds(big: bool, es: seq<Entry>, known: seq<Known>, reloff: nat, j: nat, i: nat) returns (c: Cie)
    requires AllSized(es) && RefersTo(big, es, j, i)
    ensures var st0, st := ScanSection(big, es[..j], known, reloff), ScanSection(big, es[..j + 1], known, reloff);
            && c in st0.cies && c.bytes == Encode(big, es[i])
            && st.out == st0.out + [es[j].(id := Pointer(reloff + |Flatten(big, st0.out)|, c.target))]
  {
    hide Encode, FindKnown, FindCie, Flatten, Pointer, ScanSection;
    var st0 := ScanSection(big, es[..j], known, reloff);
    ScanStep(big, es, known, reloff, j);
    CieRecorded(big, es[..j], known, reloff, i);
    assert es[..j][..i] == es[..i];
    var k := FindCie(st0.cies, Pos(big, es, j) + 4 - es[j].id);
    var s := CieSource(big, es[..j], known, reloff, k);
    assert es[..j][..s] == es[..s];
    SamePos(big, es, s, i);
    c := st0.cies[k];
  }

  lemma ScanStep(big: bool, es: seq<Entry>, known: seq<Known>, reloff: nat, j: nat)
    requires AllSized(es) && j < |es|
    ensures ScanSection(big, es[..j + 1], known, reloff) ==
            ScanEntry(big, es[j], Pos(big, es, j), ScanSection(big, es[..j], known, reloff), known, reloff)
  {
    hide ScanEntry, Flatten;
    assert es[..j + 1][..j] == es[..j];
  }

  lemma SamePos(big: bool, es: seq<Entry>, s: nat, i: nat)
    requires AllSized(es) && s < |es| && i < |es| && Pos(big, es, s) == Pos(big, es, i)
    ensures s == i
  {
    if s < i {
      PosIncreases(big, es, s, i);
    } else if i < s {
      PosIncreases(big, es, i, s);
    }
  }

  /** The packed prefix is no longer than the original one. */
  lemma StaysShort(big: bool, es: seq<Entry>, known: seq<Known>, reloff: nat, j: nat)
    requires AllSized(es) && j < |es|
    ensures |Flatten(big, ScanSection(big, es[..j], known, reloff).out)| + 8 <= |Flatten(big, es)|
  {
    hide Encode, Flatten, ScanSection;
    SizeAccounts(big, es[..j], known, reloff);
    PosIncreases(big, es, j, |es|);
    assert es[..|es|] == es;
  }

  /** The FDE just scanned, in the packed section so far. */
  lemma FdeJustScanned(big: bool, es: seq<Entry>, known: seq<Known>, before: seq<byte>, j: nat, i: nat)
    requires AllSized(es) && AllKnown(before, known) && RefersTo(big, es, j, i)
    requires |before| + |Flatten(big, es)| < WORD_MOD
    ensures var st0, st := ScanSection(big, es[..j], known, |before|), ScanSection(big, es[..j + 1], known, |before|);
            PointsAt(big, before + Flatten(big, st.out), |before|, st.out, |st0.out|, es[j].rest, Encode(big, es[i]))
  {
    hide Encode, HeldAt, Flatten, ScanSection, Pointer;
    var st0 := ScanSection(big, es[..j], known, |before|);
    var st := ScanSection(big, es[..j + 1], known, |before|);
    var buf0, buf := before + Flatten(big, st0.out), before + Flatten(big, st.out);
    var c := FdeFinds(big, es, known, |before|, j, i);
    TargetsHold(big, es[..j], known, before);
    StaysShort(big, es, known, |before|, j);
    TargetBelow(big, buf0, c.target, es[i]);
    PointerExact(|buf0|, c.target);
    FlattenSnoc(big, st0.out, st.out);
    assert st.out[..|st0.out|] == st0.out;
    HeldAtEnd(buf0, Encode(big, st.out[|st0.out|]));
    assert buf0 + Encode(big, st.out[|st0.out|]) == buf;
    HeldExtends(buf0, buf, c.target, c.bytes);
  }

  lemma TargetBelow(big: bool, buf: seq<byte>, target: nat, e: Entry)
    requires Sized(e) && HeldAt(buf, target, Encode(big, e))
    ensures target + 8 <= |buf|
  {
  }

  lemma PointerExact(at: nat, target: nat)
    requires target <= at && at + 4 < WORD_MOD
    ensures Pointer(at, target) == at + 4 - target
  {
  }

  /** Every FDE of a scanned section, wherever its CIE went, leads to the bytes of the CIE it named. */
  lemma FdeResolves(big: bool, es: seq<Entry>, known: seq<Known>, before: seq<byte>, after: seq<byte>, j: nat, i: nat)
    requires AllSized(es) && AllKnown(before, known) && RefersTo(big, es, j, i)
    requires |before| + |Flatten(big, es)| < WORD_MOD
    ensures var st0, st := ScanSection(big, es[..j], known, |before|), ScanSection(big, es, known, |before|);
            PointsAt(big, before + Flatten(big, st.out) + after, |before|, st.out, |st0.out|, es[j].rest,
                     Encode(big, es[i]))
  {
    hide Encode, HeldAt, ScanSection, Flatten;
    FdeJustScanned(big, es, known, before, j, i);
    OutGrows(big, es, known, |before|, j + 1);
    OutGrows(big, es[..j + 1], known, |before|, j);
    assert es[..j + 1][..j] == es[..j];
    var m := |ScanSection(big, es[..j], known, |before|).out|;
    var out1, out := ScanSection(big, es[..j + 1], known, |before|).out, ScanSection(big, es, known, |before|).out;
    FlattenPrefix(big, out1, out);
    assert out1[..m] == out[..m];
    var buf1, buf := before + Flatten(big, out1), before + Flatten(big, out) + after;
    var at := |before| + Pos(big, out, m);
    HeldExtends(buf1, buf, at, Encode(big, out1[m]));
    HeldExtends(buf1, buf, at + 4 - out1[m].id, Encode(big, es[i]));
  }

  // ---------- the scan, in place ----------

  /** An entry of `ld_cie`: where the kept CIE lies in its own section buffer, and in the output. */
  datatype CieRec = CieRec(buf: array<byte>, at: nat, size: nat, off: nat)

  /** An entry of `cie_h`: the CIEs of the section being scanned. `dup` is its twin in `ld_cie`. */
  datatype LocalCie = LocalCie(off: nat, offOrig: nat, size: nat, dup: Option<CieRec>)

  ghost function Abstract(recs: seq<CieRec>): (known: seq<Known>)
    reads set r | r in recs :: r.buf
    ensures |known| == |recs|
  {
    seq(|recs|, i requires 0 <= i < |recs| reads set r | r in recs :: r.buf =>
      Known(recs[i].off, Slice(recs[i].buf[..], recs[i].at, recs[i].size)))
  }

  function Slice(s: seq<byte>, at: nat, size: nat): seq<byte> {
    if at + size <= |s| then s[at..at + size] else []
  }

  ghost predicate RecsOk(recs: seq<CieRec>, buf: array<byte>) {
    forall r :: r in recs ==> r.buf != buf && r.at + r.size <= r.buf.Length
  }

  /** The `memcmp` loop over `ld_cie`. Entries of different sizes differ in their first four bytes. */
  method FindDuplicate(recs: seq<CieRec>, buf: array<byte>, et: nat, es: nat) returns (k: nat)
    requires RecsOk(recs, buf) && et + es <= buf.Length
    ensures k == FindKnown(Abstract(recs), buf[et..et + es])
  {
    k := 0;
    ghost var known, bytes := Abstract(recs), buf[et..et + es];
    while k < |recs|
      invariant k <= |recs|
      invariant FindKnown(known, bytes) == k + FindKnown(known[k..], bytes)
    {
      var r := recs[k];
      assert r in recs;
      if r.buf[r.at..r.at + r.size] == buf[et..et + es] {
        assert known[k..][0] == known[k];
        return;
      }
      assert known[k..][0] == known[k] && known[k..][1..] == known[k + 1..];
      k := k + 1;
    }
  }

  /** `memmove(et, et + es, remain - es)`. */
  method MoveDown(buf: array<byte>, et: nat, es: nat, n: nat)
    requires et + es + n <= buf.Length
    modifies buf
    ensures buf[..et] == old(buf[..et])
    ensures buf[et..et + n] == old(buf[et + es..et + es + n])
  {
    for i := 0 to n
      invariant buf[..et] == old(buf[..et])
      invariant forall k :: et <= k < et + i ==> buf[k] == old(buf[k + es])
      invariant forall k :: et + i <= k < buf.Length ==> buf[k] == old(buf[k])
    {
      buf[et + i] := buf[et + i + es];
    }
  }

  method Write32(big: bool, buf: array<byte>, p: nat, v: Word)
    requires p + 4 <= buf.Length
    modifies buf
    ensures buf[..p] == old(buf[..p]) && buf[p..p + 4] == Enc32(big, v) && buf[p + 4..] == old(buf[p + 4..])
  {
    var e := Enc32(big, v);
    buf[p], buf[p + 1], buf[p + 2], buf[p + 3] := e[0], e[1], e[2], e[3];
  }

  /** A section ends with its last entry or with a zero length word (and whatever follows it). */
  ghost predicate Terminated(tail: seq<byte>) {
    tail == [] || (|tail| >= 4 && tail[0] == tail[1] == tail[2] == tail[3] == 0)
  }

  ghost predicate SameCie(c: LocalCie, s: Cie, reloff: nat) {
    && c.offOrig == s.orig && c.size == |s.bytes| && (c.dup.None? <==> s.kept)
    && s.target == (if c.dup.Some? then c.dup.value.off else reloff + c.off)
  }

  ghost predicate SameCies(cies: seq<LocalCie>, st: seq<Cie>, reloff: nat) {
    |cies| == |st| && forall k :: 0 <= k < |st| ==> SameCie(cies[k], st[k], reloff)
  }

  /** The loop state before entry `k`: packed entries, then the untouched rest of the section. */
  ghost predicate AtEntry(big: bool, es: seq<Entry>, tail: seq<byte>, known: seq<Known>, reloff: nat, k: nat,
                          b: seq<byte>, p: nat, remain: nat, offOrig: nat, shrink: nat, size: nat)
    requires AllSized(es) && k <= |es|
  {
    var st := ScanSection(big, es[..k], known, reloff);
    && p + remain <= |b| && b[..p] == Flatten(big, st.out) && b[p..p + remain] == Flatten(big, es[k..]) + tail
    && offOrig == Pos(big, es, k) && shrink == Shrink(st.cies) && p + remain + shrink == size
  }

  lemma FlattenCons(big: bool, es: seq<Entry>, k: nat)
    requires AllSized(es) && k < |es|
    ensures Flatten(big, es[k..]) == Encode(big, es[k]) + Flatten(big, es[k + 1..])
  {
    hide Encode, Flatten;
    assert es[k..] == [es[k]] + es[k + 1..];
    FlattenConcat(big, [es[k]], es[k + 1..]);
    FlattenOne(big, es[k]);
  }

  /** What the two header reads see at entry `k`. */
  lemma Header(big: bool, e: Entry, b: seq<byte>, p: nat, rest: seq<byte>)
    requires Sized(e) && p + 8 + |e.rest| + |rest| <= |b|
    requires b[p..p + 8 + |e.rest| + |rest|] == Encode(big, e) + rest
    ensures Read32(big, b, p) == 4 + |e.rest| && Read32(big, b, p + 4) == e.id
    ensures b[p..p + 8 + |e.rest|] == Encode(big, e)
    ensures b[p + 8 + |e.rest|..p + 8 + |e.rest| + |rest|] == rest
  {
    hide Read32, Enc32;
    var len, id := Enc32(big, 4 + |e.rest|), Enc32(big, e.id);
    WindowParts(b, p, len, id, e.rest, rest);
    ReadAtWindow(big, 4 + |e.rest|, b, p, 4);
    ReadAtWindow(big, e.id, b, p + 4, 4);
  }

  /** The pieces of a window, each where it begins. */
  lemma WindowParts(b: seq<byte>, p: nat, len: seq<byte>, id: seq<byte>, body: seq<byte>, rest: seq<byte>)
    requires |len| == 4 && |id| == 4 && p + 8 + |body| + |rest| <= |b|
    requires b[p..p + 8 + |body| + |rest|] == len + id + body + rest
    ensures b[p..p + 4] == len && b[p + 4..p + 8] == id && b[p..p + 8 + |body|] == len + id + body
    ensures b[p + 8 + |body|..p + 8 + |body| + |rest|] == rest
  {
    var w := b[p..p + 8 + |body| + |rest|];
    assert forall i :: 0 <= i < |w| ==> w[i] == b[p + i];
    assert b[p..p + 4] == w[..4];
    assert b[p + 4..p + 8] == w[4..8] && w[4..8] == id;
    assert b[p..p + 8 + |body|] == w[..8 + |body|];
    assert b[p + 8 + |body|..p + 8 + |body| + |rest|] == w[8 + |body|..];
  }

  lemma ReadAtWindow(big: bool, v: Word, b: seq<byte>, p: nat, n: nat)
    requires n == 4 && p + n <= |b| && b[p..p + n] == Enc32(big, v)
    ensures Read32(big, b, p) == v
  {
    hide Read32, Enc32;
    assert b == b[..p] + Enc32(big, v) + b[p + n..];
    ReadEnc(big, v, b[..p], b[p + n..]);
  }

  /** `STAILQ_FOREACH(cie, &cie_h, ...)`: the CIE an FDE refers to, by original offset. A pointer that
      would lead before the section wraps in the source and matches nothing there either. */
  method FindLocal(cies: seq<LocalCie>, ghost st: seq<Cie>, reloff: nat, want: int) returns (k: nat)
    requires SameCies(cies, st, reloff)
    ensures k == FindCie(st, want)
  {
    k := 0;
    while k < |cies|
      invariant k <= |cies| && FindCie(st, want) == k + FindCie(st[k..], want)
    {
      assert st[k..][0] == st[k] && SameCie(cies[k], st[k], reloff);
      if cies[k].offOrig == want {
        return;
      }
      assert st[k..][1..] == st[k + 1..];
      k := k + 1;
    }
  }

  lemma OneMore(big: bool, es: seq<Entry>, known: seq<Known>, reloff: nat, k: nat)
    requires AllSized(es) && k < |es|
    ensures Pos(big, es, k + 1) == Pos(big, es, k) + |Encode(big, es[k])|
  {
    hide Encode;
    assert es[..k + 1][..k] == es[..k];
  }

  /** A CIE that is a duplicate: the rest of the section moves down over it. */
  lemma StepDropped(big: bool, es: seq<Entry>, tail: seq<byte>, known: seq<Known>, reloff: nat, k: nat,
                    b: seq<byte>, p: nat, remain: nat, offOrig: nat, shrink: nat, size: nat, b': seq<byte>)
    requires AllSized(es) && k < |es| && AtEntry(big, es, tail, known, reloff, k, b, p, remain, offOrig, shrink, size)
    requires var st0, st := ScanSection(big, es[..k], known, reloff), ScanSection(big, es[..k + 1], known, reloff);
             st.out == st0.out && Shrink(st.cies) == Shrink(st0.cies) + |Encode(big, es[k])|
    requires var n := |Encode(big, es[k])|;
             && n <= remain && |b'| == |b| && b'[..p] == b[..p] && b'[p..p + (remain - n)] == b[p + n..p + remain]
    ensures var n := |Encode(big, es[k])|;
            AtEntry(big, es, tail, known, reloff, k + 1, b', p, remain - n, offOrig + n, shrink + n, size)
  {
    hide Encode, Flatten, ScanSection;
    var n := |Encode(big, es[k])|;
    OneMore(big, es, known, reloff, k);
    FlattenCons(big, es, k);
    assert b[p + n..p + remain] == b[p..p + remain][n..];
  }

  /** Any entry that stays, with the bytes it has after a possible rewrite. */
  lemma StepStays(big: bool, es: seq<Entry>, tail: seq<byte>, known: seq<Known>, reloff: nat, k: nat,
                  b: seq<byte>, p: nat, remain: nat, offOrig: nat, shrink: nat, size: nat, b': seq<byte>, e: Entry)
    requires AllSized(es) && k < |es| && AtEntry(big, es, tail, known, reloff, k, b, p, remain, offOrig, shrink, size)
    requires Sized(e) && |Encode(big, e)| == |Encode(big, es[k])| <= remain
    requires var st0, st := ScanSection(big, es[..k], known, reloff), ScanSection(big, es[..k + 1], known, reloff);
             st.out == st0.out + [e] && Shrink(st.cies) == Shrink(st0.cies)
    requires var n := |Encode(big, e)|;
             && |b'| == |b| && b'[..p] == b[..p] && b'[p..p + n] == Encode(big, e)
             && b'[p + n..p + remain] == b[p + n..p + remain]
    ensures var n := |Encode(big, e)|;
            AtEntry(big, es, tail, known, reloff, k + 1, b', p + n, remain - n, offOrig + n, shrink, size)
  {
    hide Encode, Flatten, ScanSection;
    var n := |Encode(big, e)|;
    OneMore(big, es, known, reloff, k);
    FlattenCons(big, es, k);
    var st0, st := ScanSection(big, es[..k], known, reloff), ScanSection(big, es[..k + 1], known, reloff);
    FlattenSnoc(big, st0.out, st.out);
    assert st.out[..|st0.out|] == st0.out;
    assert b'[..p + n] == b'[..p] + b'[p..p + n];
    assert b[p + n..p + remain] == b[p..p + remain][n..];
  }

  ghost function Kept(cies: seq<Cie>): seq<Known> {
    if cies == [] then []
    else
      var front, c := Kept(cies[..|cies| - 1]), cies[|cies| - 1];
      if c.kept then front + [Known(c.target, c.bytes)] else front
  }

  lemma ScanCie(big: bool, es: seq<Entry>, known: seq<Known>, reloff: nat, k: nat)
    requires AllSized(es) && k < |es| && es[k].id == 0
    ensures var st0, st := ScanSection(big, es[..k], known, reloff), ScanSection(big, es[..k + 1], known, reloff);
            var bytes, pos := Encode(big, es[k]), Pos(big, es, k);
            var d := FindKnown(known, bytes);
            && (d < |known| ==>
                  && st.out == st0.out && Shrink(st.cies) == Shrink(st0.cies) + |bytes|
                  && st.cies == st0.cies + [Cie(pos, bytes, known[d].off, false)])
            && (d == |known| ==>
                  && st.out == st0.out + [es[k]] && Shrink(st.cies) == Shrink(st0.cies)
                  && st.cies == st0.cies + [Cie(pos, bytes, reloff + |Flatten(big, st0.out)|, true)])
  {
    hide Encode, Flatten, ScanSection, FindKnown;
    ScanStep(big, es, known, reloff, k);
    var st0, st := ScanSection(big, es[..k], known, reloff), ScanSection(big, es[..k + 1], known, reloff);
    assert st.cies[..|st0.cies|] == st0.cies;
  }

  lemma ScanFde(big: bool, es: seq<Entry>, known: seq<Known>, reloff: nat, k: nat)
    requires AllSized(es) && k < |es| && es[k].id != 0
    ensures var st0, st := ScanSection(big, es[..k], known, reloff), ScanSection(big, es[..k + 1], known, reloff);
            var c := FindCie(st0.cies, Pos(big, es, k) + 4 - es[k].id);
            && st.cies == st0.cies
            && st.out == st0.out + [if c == |st0.cies| then es[k]
                                    else es[k].(id := Pointer(reloff + |Flatten(big, st0.out)|, st0.cies[c].target))]
  {
    hide Encode, Flatten, ScanSection, FindCie, Pointer;
    ScanStep(big, es, known, reloff, k);
  }

  /** One CIE: drop it over its twin, or keep it. */
  method DoCie(big: bool, buf: array<byte>, recs: seq<CieRec>, et: nat, n: nat, remain: nat, offOrig: nat,
               ghost es: seq<Entry>, ghost tail: seq<byte>, ghost known: seq<Known>, ghost reloff: nat, ghost k: nat,
               ghost shrink: nat, ghost size: nat)
    returns (dup: Option<CieRec>)
    requires AllSized(es) && k < |es| && es[k].id == 0 && n == |Encode(big, es[k])| <= remain
    requires RecsOk(recs, buf) && known == Abstract(recs)
    requires AtEntry(big, es, tail, known, reloff, k, buf[..], et, remain, offOrig, shrink, size)
    requires buf[et..et + n] == Encode(big, es[k])
    modifies buf
    ensures Abstract(recs) == known
    ensures dup.Some? ==> dup.value in recs
    ensures var st0, st := ScanSection(big, es[..k], known, reloff), ScanSection(big, es[..k + 1], known, reloff);
            |st.cies| == |st0.cies| + 1 && st.cies[..|st0.cies|] == st0.cies
            && SameCie(LocalCie(et, offOrig, n, dup), st.cies[|st0.cies|], reloff)
    ensures dup.Some? ==>
              AtEntry(big, es, tail, known, reloff, k + 1, buf[..], et, remain - n, offOrig + n, shrink + n, size)
    ensures dup.None? ==>
              AtEntry(big, es, tail, known, reloff, k + 1, buf[..], et + n, remain - n, offOrig + n, shrink, size)
  {
    hide Encode, Flatten, ScanSection, FindKnown, AtEntry;
    EntryPlace(big, es, tail, known, reloff, k, buf[..], et, remain, offOrig, shrink, size);
    var d := FindDuplicate(recs, buf, et, n);
    ScanCie(big, es, known, reloff, k);
    ghost var b := buf[..];
    if d < |recs| {
      MoveDown(buf, et, n, remain - n);
      assert Abstract(recs) == known;
      StepDropped(big, es, tail, known, reloff, k, b, et, remain, offOrig, shrink, size, buf[..]);
      dup := Some(recs[d]);
    } else {
      StepStays(big, es, tail, known, reloff, k, b, et, remain, offOrig, shrink, size, b, es[k]);
      dup := None;
    }
  }

  lemma EntryPlace(big: bool, es: seq<Entry>, tail: seq<byte>, known: seq<Known>, reloff: nat, k: nat,
                   b: seq<byte>, p: nat, remain: nat, offOrig: nat, shrink: nat, size: nat)
    requires AllSized(es) && k <= |es| && AtEntry(big, es, tail, known, reloff, k, b, p, remain, offOrig, shrink, size)
    ensures p + remain <= |b| && p + remain + shrink == size
    ensures p == |Flatten(big, ScanSection(big, es[..k], known, reloff).out)| && offOrig == Pos(big, es, k)
  {
    hide Flatten, ScanSection;
  }

  /** The new pointer, from section offsets for a kept CIE and from output offsets for a replaced one. */
  function CiePointer(c: LocalCie, off: nat, reloff: nat): Word {
    match c.dup
    case Some(twin) => (off + 4 + reloff - twin.off) % WORD_MOD
    case None => (off + 4 - c.off) % WORD_MOD
  }

  lemma PointerAgrees(c: LocalCie, s: Cie, off: nat, reloff: nat)
    requires SameCie(c, s, reloff)
    ensures CiePointer(c, off, reloff) == Pointer(reloff + off, s.target)
  {
    assert off + 4 + reloff - s.target == reloff + off + 4 - s.target;
  }

  /** Overwriting the id word of an encoded entry encodes the entry with that id. */
  lemma Rewritten(big: bool, e: Entry, id: Word, b: seq<byte>, b': seq<byte>, p: nat, remain: nat)
    requires Sized(e) && |Encode(big, e)| <= remain && p + remain <= |b| == |b'|
    requires b[p..p + |Encode(big, e)|] == Encode(big, e)
    requires b'[..p + 4] == b[..p + 4] && b'[p + 4..p + 8] == Enc32(big, id) && b'[p + 8..] == b[p + 8..]
    ensures var n := |Encode(big, e)|;
            && b'[..p] == b[..p] && b'[p..p + n] == Encode(big, e.(id := id))
            && b'[p + n..p + remain] == b[p + n..p + remain]
  {
    hide Enc32;
    var n := |Encode(big, e)|;
    assert b'[..p] == b'[..p + 4][..p] && b[..p] == b[..p + 4][..p];
    assert b'[p..p + 4] == b'[..p + 4][p..] == b[..p + 4][p..] == Encode(big, e)[..4];
    assert b'[p + 8..p + n] == b'[p + 8..][..n - 8] == b[p + 8..][..n - 8] == Encode(big, e)[8..];
    assert b'[p..p + n] == b'[p..p + 4] + b'[p + 4..p + 8] + b'[p + 8..p + n];
    assert b'[p + n..p + remain] == b'[p + 8..][n - 8..remain - 8];
    assert b[p + n..p + remain] == b[p + 8..][n - 8..remain - 8];
  }

  /** One FDE: point it at its CIE's new place, or leave it alone when it has none. */
  method DoFde(big: bool, buf: array<byte>, cies: seq<LocalCie>, et: nat, n: nat, remain: nat, offOrig: nat,
               reloff: nat,
               cieId: Word, ghost es: seq<Entry>, ghost tail: seq<byte>, ghost known: seq<Known>, ghost k: nat,
               ghost shrink: nat, ghost size: nat)
    requires AllSized(es) && k < |es| && es[k].id == cieId != 0 && n == |Encode(big, es[k])| <= remain
    requires AtEntry(big, es, tail, known, reloff, k, buf[..], et, remain, offOrig, shrink, size)
    requires SameCies(cies, ScanSection(big, es[..k], known, reloff).cies, reloff)
    requires buf[et..et + n] == Encode(big, es[k])
    modifies buf
    ensures ScanSection(big, es[..k + 1], known, reloff).cies == ScanSection(big, es[..k], known, reloff).cies
    ensures AtEntry(big, es, tail, known, reloff, k + 1, buf[..], et + n, remain - n, offOrig + n, shrink, size)
  {
    hide Flatten, ScanSection, AtEntry, Enc32, Encode, FindCie, Pointer, CiePointer;
    ghost var st0 := ScanSection(big, es[..k], known, reloff);
    EntryPlace(big, es, tail, known, reloff, k, buf[..], et, remain, offOrig, shrink, size);
    ScanFde(big, es, known, reloff, k);
    var c := FindLocal(cies, st0.cies, reloff, offOrig + 4 - cieId);
    ghost var b, e := buf[..], es[k];
    if c < |cies| {
      assert SameCie(cies[c], st0.cies[c], reloff);
      PointerAgrees(cies[c], st0.cies[c], et, reloff);
      var pointer := CiePointer(cies[c], et, reloff);
      e := es[k].(id := pointer);
      if cieId != pointer {
        Write32(big, buf, et + 4, pointer);
        Rewritten(big, es[k], pointer, b, buf[..], et, remain);
      }
    }
    StepStays(big, es, tail, known, reloff, k, b, et, remain, offOrig, shrink, size, buf[..], e);
  }

  /** Where the kept CIEs lie in the packed section itself. */
  lemma {:induction false} KeptHere(big: bool, es: seq<Entry>, known: seq<Known>, reloff: nat, k: nat)
    requires AllSized(es) && k < |ScanSection(big, es, known, reloff).cies|
    ensures var st := ScanSection(big, es, known, reloff);
            st.cies[k].kept ==>
              reloff <= st.cies[k].target && HeldAt(Flatten(big, st.out), st.cies[k].target - reloff, st.cies[k].bytes)
  {
    hide Encode, Flatten, ScanEntry;
    var n := |es| - 1;
    var st0, st := ScanSection(big, es[..n], known, reloff), ScanSection(big, es, known, reloff);
    OutGrows(big, es, known, reloff, n);
    FlattenPrefix(big, st0.out, st.out);
    CiesGrow(big, es[n], Pos(big, es, n), st0, known, reloff);
    if k < |st0.cies| {
      KeptHere(big, es[..n], known, reloff, k);
      if st0.cies[k].kept {
        HeldExtends(Flatten(big, st0.out), Flatten(big, st.out), st.cies[k].target - reloff, st.cies[k].bytes);
      }
    } else if st.cies[k].kept {
      FlattenSnoc(big, st0.out, st.out);
      HeldAtEnd(Flatten(big, st0.out), Encode(big, es[n]));
    }
  }

  lemma CiesGrow(big: bool, e: Entry, origOff: nat, st: Scan, known: seq<Known>, reloff: nat)
    requires Sized(e) && AllSized(st.out)
    ensures var st' := ScanEntry(big, e, origOff, st, known, reloff);
            && st.cies <= st'.cies && |st'.cies| <= |st.cies| + 1
            && (|st'.cies| > |st.cies| && st'.cies[|st.cies|].kept ==>
                  && st'.out == st.out + [e]
                  && st'.cies[|st.cies|].target == reloff + |Flatten(big, st.out)|
                  && st'.cies[|st.cies|].bytes == Encode(big, e))
  {
    hide Encode, Flatten, Pointer;
  }

  lemma HeldInFront(b: seq<byte>, front: seq<byte>, off: nat, bytes: seq<byte>)
    requires |front| <= |b| && b[..|front|] == front && HeldAt(front, off, bytes)
    ensures off + |bytes| <= |b| && Slice(b, off, |bytes|) == bytes
  {
    assert b[off..off + |bytes|] == b[..|front|][off..off + |bytes|];
  }

  /** The last loop: hand the kept CIEs over to `ld_cie`, at their output offsets. */
  method PublishKept(big: bool, buf: array<byte>, recs: seq<CieRec>, cies: seq<LocalCie>, reloff: nat,
                     ghost es: seq<Entry>, ghost known: seq<Known>)
    returns (recs': seq<CieRec>)
    requires AllSized(es) && RecsOk(recs, buf) && known == Abstract(recs)
    requires var st := ScanSection(big, es, known, reloff);
             && SameCies(cies, st.cies, reloff)
             && |Flatten(big, st.out)| <= buf.Length && buf[..|Flatten(big, st.out)|] == Flatten(big, st.out)
    ensures forall r :: r in recs' ==> r in recs || r.buf == buf
    ensures forall r :: r in recs' ==> r.at + r.size <= r.buf.Length
    ensures Abstract(recs') == known + Kept(ScanSection(big, es, known, reloff).cies)
  {
    hide Encode, Flatten, ScanSection;
    ghost var st := ScanSection(big, es, known, reloff);
    recs' := recs;
    for k := 0 to |cies|
      invariant forall r :: r in recs' ==> r in recs || r.buf == buf
      invariant forall r :: r in recs' ==> r.at + r.size <= r.buf.Length
      invariant Abstract(recs') == known + Kept(st.cies[..k])
    {
      assert st.cies[..k + 1][..k] == st.cies[..k];
      assert SameCie(cies[k], st.cies[k], reloff);
      if cies[k].dup.None? {
        KeptHere(big, es, known, reloff, k);
        HeldInFront(buf[..], Flatten(big, st.out), cies[k].off, st.cies[k].bytes);
        var r := CieRec(buf, cies[k].off, cies[k].size, cies[k].off + reloff);
        ghost var was := recs';
        recs' := recs' + [r];
        assert Abstract(recs') == Abstract(was) + [Known(st.cies[k].target, st.cies[k].bytes)];
      }
    }
    assert st.cies[..|cies|] == st.cies;
  }

  /** `_process_ehframe_section` with its relocation bookkeeping left aside. */
  method ProcessSection(big: bool, buf: array<byte>, size: nat, reloff: nat, recs: seq<CieRec>,
                        ghost es: seq<Entry>, ghost tail: seq<byte>)
    returns (newSize: nat, recs': seq<CieRec>)
    requires AllSized(es) && Terminated(tail) && size <= buf.Length && buf[..size] == Flatten(big, es) + tail
    requires RecsOk(recs, buf)
    modifies buf
    ensures var st := ScanSection(big, es, old(Abstract(recs)), reloff);
            && newSize + Shrink(st.cies) == size && newSize <= buf.Length
            && buf[..newSize] == Flatten(big, st.out) + tail
            && Abstract(recs') == old(Abstract(recs)) + Kept(st.cies)
    ensures forall r :: r in recs' ==> (r in recs || r.buf == buf) && r.at + r.size <= r.buf.Length
  {
    hide Encode, Flatten, ScanSection, Read32, AtEntry, SameCie, Abstract, Terminated;
    ghost var known := Abstract(recs);
    var et: nat, remain: nat, offOrig: nat, shrink: nat := 0, size, 0, 0;
    var cies: seq<LocalCie> := [];
    ghost var k := 0;
    AtStart(big, es, tail, known, reloff, buf[..], size);
    while remain > 0
      invariant k <= |es| && Abstract(recs) == known
      invariant AtEntry(big, es, tail, known, reloff, k, buf[..], et, remain, offOrig, shrink, size)
      invariant SameCies(cies, ScanSection(big, es[..k], known, reloff).cies, reloff)
      invariant forall c :: c in cies && c.dup.Some? ==> c.dup.value in recs
      decreases remain
    {
      EntryHeader(big, es, tail, known, reloff, k, buf[..], et, remain, offOrig, shrink, size);
      var length: nat := Read32(big, buf[..], et);
      if length == 0 {
        break;
      }
      var n := length + 4;
      var cieId := Read32(big, buf[..], et + 4);
      if cieId == 0 {
        var dup := DoCie(big, buf, recs, et, n, remain, offOrig, es, tail, known, reloff, k, shrink, size);
        cies := cies + [LocalCie(et, offOrig, n, dup)];
        if dup.Some? {
          shrink := shrink + n;
        } else {
          et := et + n;
        }
      } else {
        DoFde(big, buf, cies, et, n, remain, offOrig, reloff, cieId, es, tail, known, k, shrink, size);
        et := et + n;
      }
      offOrig, remain := offOrig + n, remain - n;
      k := k + 1;
    }
    AtEnd(big, es, tail, known, reloff, k, buf[..], et, remain, offOrig, shrink, size);
    recs' := PublishKept(big, buf, recs, cies, reloff, es, known);
    newSize := size - shrink;
  }

  lemma AtStart(big: bool, es: seq<Entry>, tail: seq<byte>, known: seq<Known>, reloff: nat, b: seq<byte>, size: nat)
    requires AllSized(es) && size <= |b| && b[..size] == Flatten(big, es) + tail
    ensures AtEntry(big, es, tail, known, reloff, 0, b, 0, size, 0, 0, size)
    ensures ScanSection(big, es[..0], known, reloff) == Scan([], [])
  {
    assert es[0..] == es && es[..0] == [];
  }

  /** Either the terminator is next, or an entry whose header reads as it was encoded. */
  lemma EntryHeader(big: bool, es: seq<Entry>, tail: seq<byte>, known: seq<Known>, reloff: nat, k: nat,
                    b: seq<byte>, p: nat, remain: nat, offOrig: nat, shrink: nat, size: nat)
    requires AllSized(es) && k <= |es| && Terminated(tail) && remain > 0
    requires AtEntry(big, es, tail, known, reloff, k, b, p, remain, offOrig, shrink, size)
    ensures p + 4 <= |b|
    ensures Read32(big, b, p) == 0 <==> k == |es|
    ensures k < |es| ==>
              var n := |Encode(big, es[k])|;
              && Read32(big, b, p) + 4 == n && n <= remain && p + remain <= |b|
              && Read32(big, b, p + 4) == es[k].id && b[p..p + n] == Encode(big, es[k])
  {
    hide ScanSection, Flatten, Encode, Read32;
    if k < |es| {
      FlattenCons(big, es, k);
      var rest := Flatten(big, es[k + 1..]) + tail;
      assert b[p..p + remain] == Encode(big, es[k]) + rest;
      Header(big, es[k], b, p, rest);
    } else {
      assert es[k..] == [];
      FlattenNone(big);
      TailHeader(big, tail, b, p, remain);
    }
  }

  lemma TailHeader(big: bool, tail: seq<byte>, b: seq<byte>, p: nat, remain: nat)
    requires Terminated(tail) && remain > 0 && p + remain <= |b| && b[p..p + remain] == tail
    ensures p + 4 <= |b| && Read32(big, b, p) == 0
  {
    assert forall i :: 0 <= i < 4 ==> b[p + i] == b[p..p + remain][i] == tail[i];
  }

  lemma AtEnd(big: bool, es: seq<Entry>, tail: seq<byte>, known: seq<Known>, reloff: nat, k: nat,
              b: seq<byte>, p: nat, remain: nat, offOrig: nat, shrink: nat, size: nat)
    requires AllSized(es) && k <= |es| && (remain > 0 ==> k == |es|)
    requires AtEntry(big, es, tail, known, reloff, k, b, p, remain, offOrig, shrink, size)
    ensures k == |es| && es[..k] == es && size - shrink == p + remain <= |b|
    ensures var st := ScanSection(big, es, known, reloff);
            && shrink == Shrink(st.cies) && b[..p + remain] == Flatten(big, st.out) + tail
            && |Flatten(big, st.out)| <= |b| && b[..|Flatten(big, st.out)|] == Flatten(big, st.out)
  {
    hide ScanSection;
    if k < |es| {
      FlattenCons(big, es, k);
    }
    assert es[k..] == [] && es[..k] == es;
    assert b[..p + remain] == b[..p] + b[p..p + remain];
  }

  // ---------- the scan of all input sections ----------

  datatype Section = Section(entries: seq<Entry>, tail: seq<byte>)

  datatype Packed = Packed(out: seq<byte>, known: seq<Known>)

  ghost predicate SectionsOk(secs: seq<Section>) {
    forall k :: 0 <= k < |secs| ==> AllSized(secs[k].entries) && Terminated(secs[k].tail)
  }

  /** Section `s` as the scan leaves it, given what came before. */
  ghost function SectionOut(big: bool, secs: seq<Section>, s: nat): Scan
    requires SectionsOk(secs) && s < |secs|
    decreases s
  {
    var before := ScanAll(big, secs[..s]);
    ScanSection(big, secs[s].entries, before.known, |before.out|)
  }

  /** All sections packed one after another, and the CIEs kept. */
  ghost function ScanAll(big: bool, secs: seq<Section>): Packed
    requires SectionsOk(secs)
    decreases |secs|
  {
    if secs == [] then Packed([], [])
    else
      var n := |secs| - 1;
      var before := ScanAll(big, secs[..n]);
      var st := ScanSection(big, secs[n].entries, before.known, |before.out|);
      Packed(before.out + Flatten(big, st.out) + secs[n].tail, before.known + Kept(st.cies))
  }

  lemma {:induction false} KeptHeld(buf: seq<byte>, cies: seq<Cie>)
    requires AllTargets(buf, cies)
    ensures AllKnown(buf, Kept(cies))
  {
    hide HeldAt;
    if cies != [] {
      KeptHeld(buf, cies[..|cies| - 1]);
    }
  }

  lemma KnownExtends(buf: seq<byte>, buf': seq<byte>, known: seq<Known>)
    requires AllKnown(buf, known) && buf <= buf'
    ensures AllKnown(buf', known)
  {
    forall k | 0 <= k < |known|
      ensures HeldAt(buf', known[k].off, known[k].bytes)
    {
      HeldExtends(buf, buf', known[k].off, known[k].bytes);
    }
  }

  /** Every kept CIE is found, byte for byte, at its recorded output offset. */
  lemma {:induction false} KeptCiesStay(big: bool, secs: seq<Section>)
    requires SectionsOk(secs)
    ensures AllKnown(ScanAll(big, secs).out, ScanAll(big, secs).known)
  {
    hide HeldAt, Flatten, ScanSection, Kept;
    if secs != [] {
      var n := |secs| - 1;
      KeptCiesStay(big, secs[..n]);
      var before, all := ScanAll(big, secs[..n]), ScanAll(big, secs);
      var st := ScanSection(big, secs[n].entries, before.known, |before.out|);
      TargetsHold(big, secs[n].entries, before.known, before.out);
      var mid := before.out + Flatten(big, st.out);
      KeptHeld(mid, st.cies);
      KnownExtends(before.out, all.out, before.known);
      KnownExtends(mid, all.out, Kept(st.cies));
    }
  }

  lemma {:induction false} OutputGrows(big: bool, secs: seq<Section>, s: nat)
    requires SectionsOk(secs) && s <= |secs|
    ensures ScanAll(big, secs[..s]).out <= ScanAll(big, secs).out
  {
    hide Flatten, ScanSection, Kept;
    if s == |secs| {
      assert secs[..s] == secs;
    } else {
      assert secs[..|secs| - 1][..s] == secs[..s];
      OutputGrows(big, secs[..|secs| - 1], s);
    }
  }

  /** In the packed output every FDE of every section leads to the bytes of the CIE it named in its own
      input section, whether that CIE was kept or replaced by a twin from an earlier section. */
  lemma EveryFdeResolves(big: bool, secs: seq<Section>, s: nat, j: nat, i: nat)
    requires SectionsOk(secs) && s < |secs| && RefersTo(big, secs[s].entries, j, i)
    requires |ScanAll(big, secs[..s]).out| + |Flatten(big, secs[s].entries)| < WORD_MOD
    ensures var before := ScanAll(big, secs[..s]);
            var m := |ScanSection(big, secs[s].entries[..j], before.known, |before.out|).out|;
            PointsAt(big, ScanAll(big, secs).out, |before.out|, SectionOut(big, secs, s).out, m,
                     secs[s].entries[j].rest, Encode(big, secs[s].entries[i]))
  {
    hide Encode, HeldAt, Flatten, ScanSection, Kept, RefersTo, PointsAt;
    var before, es := ScanAll(big, secs[..s]), secs[s].entries;
    var st := ScanSection(big, es, before.known, |before.out|);
    KeptCiesStay(big, secs[..s]);
    OutputGrows(big, secs, s + 1);
    assert secs[..s + 1][..s] == secs[..s];
    var mid := before.out + Flatten(big, st.out);
    assert ScanAll(big, secs[..s + 1]).out == mid + secs[s].tail;
    var after := ScanAll(big, secs).out[|mid|..];
    assert ScanAll(big, secs).out == mid + after;
    FdeResolves(big, es, before.known, before.out, after, j, i);
  }

  ghost function InputBytes(big: bool, secs: seq<Section>): nat
    requires SectionsOk(secs)
  {
    if secs == [] then 0
    else
      var n := |secs| - 1;
      InputBytes(big, secs[..n]) + |Flatten(big, secs[n].entries)| + |secs[n].tail|
  }

  ghost function DroppedBytes(big: bool, secs: seq<Section>): nat
    requires SectionsOk(secs)
  {
    if secs == [] then 0
    else
      var n := |secs| - 1;
      DroppedBytes(big, secs[..n]) + Shrink(SectionOut(big, secs, n).cies)
  }

  /** The output is smaller than the input by exactly the CIEs that were dropped. */
  lemma {:induction false} TotalShrinks(big: bool, secs: seq<Section>)
    requires SectionsOk(secs)
    ensures |ScanAll(big, secs).out| + DroppedBytes(big, secs) == InputBytes(big, secs)
  {
    hide Flatten, ScanSection, Kept, Shrink;
    if secs != [] {
      var n := |secs| - 1;
      TotalShrinks(big, secs[..n]);
      var before := ScanAll(big, secs[..n]);
      SizeAccounts(big, secs[n].entries, before.known, |before.out|);
    }
  }

  ghost predicate Loaded(big: bool, buf: array<byte>, size: nat, sec: Section)
    requires AllSized(sec.entries)
    reads buf
  {
    size <= buf.Length && buf[..size] == Flatten(big, sec.entries) + sec.tail
  }

  /** Section `k`'s buffer holds its packed content, placed right after the sections before it. */
  ghost predicate PackedAt(big: bool, buf: array<byte>, newSize: nat, reloff: nat, secs: seq<Section>, k: nat)
    requires SectionsOk(secs) && k < |secs|
    reads buf
  {
    && reloff == |ScanAll(big, secs[..k]).out| && newSize <= buf.Length
    && buf[..newSize] == Flatten(big, SectionOut(big, secs, k).out) + secs[k].tail
  }

  lemma ScanAllStep(big: bool, secs: seq<Section>, k: nat)
    requires SectionsOk(secs) && k < |secs|
    ensures var before, st := ScanAll(big, secs[..k]), SectionOut(big, secs, k);
            ScanAll(big, secs[..k + 1]) ==
            Packed(before.out + Flatten(big, st.out) + secs[k].tail, before.known + Kept(st.cies))
  {
    assert secs[..k + 1][..k] == secs[..k];
  }

  /** The section loop of `ld_ehframe_scan`: packed sections and their offsets in the output. */
  method ScanSections(big: bool, bufs: seq<array<byte>>, sizes: seq<nat>, ghost secs: seq<Section>)
    returns (newSizes: seq<nat>, reloffs: seq<nat>)
    requires SectionsOk(secs) && |bufs| == |sizes| == |secs|
    requires forall i, j :: 0 <= i < j < |bufs| ==> bufs[i] != bufs[j]
    requires forall k :: 0 <= k < |bufs| ==> Loaded(big, bufs[k], sizes[k], secs[k])
    modifies set k | 0 <= k < |bufs| :: bufs[k]
    ensures |newSizes| == |reloffs| == |bufs|
    ensures forall k :: 0 <= k < |bufs| ==> PackedAt(big, bufs[k], newSizes[k], reloffs[k], secs, k)
  {
    hide ScanAll, SectionOut, Abstract;
    newSizes, reloffs := [], [];
    var off: nat, recs: seq<CieRec> := 0, [];
    assert secs[..0] == [] && ScanAll(big, []) == Packed([], []) by { ScanNone(big); }
    for k := 0 to |bufs|
      invariant |newSizes| == |reloffs| == k
      invariant off == |ScanAll(big, secs[..k]).out| && Abstract(recs) == ScanAll(big, secs[..k]).known
      invariant forall r :: r in recs ==> r.buf in bufs[..k] && r.at + r.size <= r.buf.Length
      invariant forall i :: k <= i < |bufs| ==> Loaded(big, bufs[i], sizes[i], secs[i])
      invariant forall i :: 0 <= i < k ==> PackedAt(big, bufs[i], newSizes[i], reloffs[i], secs, i)
    {
      newSizes, reloffs, recs := OneSection(big, bufs, sizes, secs, k, newSizes, reloffs, recs, off);
      off := off + newSizes[k];
    }
  }

  lemma ScanNone(big: bool)
    ensures ScanAll(big, []) == Packed([], []) && Abstract([]) == []
  {
  }

  /** The body of the section loop. */
  method OneSection(big: bool, bufs: seq<array<byte>>, sizes: seq<nat>, ghost secs: seq<Section>, k: nat,
                    newSizes0: seq<nat>, reloffs0: seq<nat>, recs0: seq<CieRec>, off: nat)
    returns (newSizes: seq<nat>, reloffs: seq<nat>, recs: seq<CieRec>)
    requires SectionsOk(secs) && |bufs| == |sizes| == |secs| && k < |secs|
    requires forall i, j :: 0 <= i < j < |bufs| ==> bufs[i] != bufs[j]
    requires Loaded(big, bufs[k], sizes[k], secs[k])
    requires off == |ScanAll(big, secs[..k]).out| && Abstract(recs0) == ScanAll(big, secs[..k]).known
    requires forall r :: r in recs0 ==> r.buf in bufs[..k] && r.at + r.size <= r.buf.Length
    modifies bufs[k]
    ensures |newSizes| == |newSizes0| + 1 && newSizes[..|newSizes0|] == newSizes0
    ensures |reloffs| == |reloffs0| + 1 && reloffs[..|reloffs0|] == reloffs0
    ensures PackedAt(big, bufs[k], newSizes[|newSizes0|], reloffs[|reloffs0|], secs, k)
    ensures off + newSizes[|newSizes0|] == |ScanAll(big, secs[..k + 1]).out|
    ensures Abstract(recs) == ScanAll(big, secs[..k + 1]).known
    ensures forall r :: r in recs ==> r.buf in bufs[..k + 1] && r.at + r.size <= r.buf.Length
  {
    hide ScanAll, ScanSection, Flatten, Kept, Shrink, Abstract, Terminated;
    assert forall r :: r in recs0 ==> r.buf != bufs[k];
    var newSize;
    newSize, recs := ProcessSection(big, bufs[k], sizes[k], off, recs0, secs[k].entries, secs[k].tail);
    newSizes, reloffs := newSizes0 + [newSize], reloffs0 + [off];
    ScanAllStep(big, secs, k);
    assert bufs[..k + 1] == bufs[..k] + [bufs[k]];
  }
}
