/** File offsets of output sections: elfcopy/sections.c, `insert_to_sec_list` and `resync_sections`. */
module FileLayout {
  import opened Bytes

  datatype Kind = BITS | NOBITS | NULL

  /** `tls`: it belongs to a TLS segment. `pad`: bytes of padding behind it. `size`: `sh_size` as written. */
  datatype Sec = Sec(off: nat, sz: nat, align: nat, kind: Kind, pseudo: bool, loadable: bool, tls: bool,
                     pad: nat, size: nat)

  datatype Flags = Flags(relocatable: bool, gapFill: bool)

  // ---------- sorted insertion ----------

  ghost predicate SortedByOff(v: seq<Sec>) {
    forall i, j :: 0 <= i < j < |v| ==> v[i].off <= v[j].off
  }

  class SecList {
    var v: seq<Sec>
    var nos: nat

    constructor ()
      ensures v == [] && nos == 0
    {
      v, nos := [], 0;
    }

    /** `insert_to_sec_list`: at the end when asked to or when it belongs there, else before the first
        section with a larger offset. */
    method Insert(sec: Sec, tail: bool) returns (ghost k: nat)
      modifies this
      ensures k <= |old(v)| && v == old(v)[..k] + [sec] + old(v)[k..]
      ensures tail ==> k == |old(v)|
      ensures nos == old(nos) + (if sec.pseudo then 0 else 1)
      ensures !tail && SortedByOff(old(v)) ==> SortedByOff(v)
      ensures k < |old(v)| <==> !tail && old(v) != [] && sec.off < old(v)[|old(v)| - 1].off
      ensures k < |old(v)| ==> sec.off < old(v)[k].off && forall j :: 0 <= j < k ==> old(v)[j].off <= sec.off
    {
      ghost var was := v;
      if tail || v == [] || v[|v| - 1].off <= sec.off {
        v := v + [sec];
        k := |was|;
        assert v == was[..k] + [sec] + was[k..];
      } else {
        var i: nat := 0;
        while !(sec.off < v[i].off)
          invariant i < |v| && v == was
          invariant forall j :: 0 <= j < i ==> v[j].off <= sec.off
          decreases |v| - i
        {
          i := i + 1;
        }
        v := v[..i] + [sec] + v[i..];
        k := i;
      }
      if !sec.pseudo {
        nos := nos + 1;
      }
    }
  }

  // ---------- layout ----------

  function Roundup(x: nat, a: nat): (r: nat)
    requires a > 0
    ensures r >= x && r % a == 0 && r < x + a
  {
    RoundupOk(x, a);
    (x + a - 1) / a * a
  }

  lemma RoundupOk(x: nat, a: nat)
    requires a > 0
    ensures var r := (x + a - 1) / a * a; r >= x && r % a == 0 && r < x + a
  {
    var q, m := (x + a - 1) / a, (x + a - 1) % a;
    assert q * a + m == x + a - 1;
    MultipleOf(q, a);
  }

  lemma MultipleOf(q: nat, a: nat)
    requires a > 0
    ensures (q * a) % a == 0
  {
    var d, m := (q * a) / a, (q * a) % a;
    assert q * a == d * a + m;
    assert (q - d) * a == q * a - d * a;
    FarFromZero(q - d, a);
  }

  lemma FarFromZero(k: int, a: nat)
    ensures k != 0 ==> k * a >= a || k * a <= -(a as int)
  {
  }

  /** Bytes of contents in the file. */
  function FileSize(s: Sec): nat { if s.pseudo || s.kind == BITS then s.sz else 0 }

  /** TLS sections without contents or place are left alone. */
  predicate Ignored(s: Sec) { s.tls && s.kind == NOBITS && s.off == 0 }

  /** Where the next section may start: behind the contents and the padding asked for by --pad-to. */
  function Next(s: Sec, off: nat): nat { off + FileSize(s) + (if s.pseudo then 0 else s.pad) }

  /** One past the last byte of the section, padding included; padding lies behind its size. */
  function End(s: Sec): nat {
    if !s.pseudo && s.pad > 0 then s.off + s.sz + s.pad else s.off + FileSize(s)
  }

  /** --pad-to pads sections with contents. */
  ghost predicate PadsOk(secs: seq<Sec>) {
    forall i :: 0 <= i < |secs| && secs[i].pad > 0 ==> secs[i].kind == BITS || secs[i].pseudo
  }

  function Align(s: Sec): (a: nat)
    ensures a > 0
  {
    if s.align == 0 then 1 else s.align
  }

  /** What placing behind `off` does: a section that is not loadable, or in a relocatable object, or overrun
      goes to the least multiple of its alignment from there on; every other section stays where it was. */
  ghost predicate PlacedOk(flags: Flags, was: Sec, now: Sec, off: nat) {
    && now == was.(off := now.off, align := Align(was), pad := now.pad, size := now.size)
    && (if !was.loadable || flags.relocatable || off > was.off
        then off <= now.off < off + now.align && now.off % now.align == 0
        else now.off == was.off)
  }

  /** `offs[i]` is the running offset before section `i`. */
  ghost predicate Running(was: seq<Sec>, now: seq<Sec>, offs: seq<nat>, n: nat) {
    && n <= |was| == |now| && |offs| == n + 1 && (was != [] ==> offs[0] == was[0].off)
    && forall i :: 0 <= i < n ==> offs[i + 1] == if Ignored(was[i]) then offs[i] else Next(was[i], now[i].off)
  }

  /** The first `n` sections are placed. */
  ghost predicate PlacedUpTo(flags: Flags, was: seq<Sec>, now: seq<Sec>, offs: seq<nat>, n: nat) {
    && Running(was, now, offs, n)
    && (forall i :: 0 <= i < n ==>
          if Ignored(was[i]) then now[i] == was[i] else PlacedOk(flags, was[i], now[i], offs[i]))
    && (forall i :: n <= i < |was| ==> now[i] == was[i])
  }

  /** In list order and disjoint, and all before the running offset. */
  ghost predicate Apart(was: seq<Sec>, now: seq<Sec>, off: nat, n: nat)
    requires n <= |was| == |now|
  {
    && (forall i, j :: 0 <= i < j < n && !Ignored(was[i]) && !Ignored(was[j]) ==> End(now[i]) <= now[j].off)
    && (forall i :: 0 <= i < n && !Ignored(was[i]) ==> End(now[i]) <= off)
  }

  /** The first section after `a` and before `n` that is not ignored. */
  ghost function Following(was: seq<Sec>, a: nat, n: nat): (r: Option<nat>)
    requires n <= |was|
    ensures r.Some? ==> a < r.value < n && !Ignored(was[r.value]) && forall k :: a < k < r.value ==> Ignored(was[k])
    ensures r.None? ==> forall k :: a < k < n ==> Ignored(was[k])
  {
    if n <= a + 1 then None
    else
      var r := Following(was, a, n - 1);
      if r.None? && !Ignored(was[n - 1]) then Some(n - 1) else r
  }

  /** The size written for section `a` counts its padding, unless the next section is a pseudo section, which
      makes the code forget about it; gap filling leaves no gap up to the next real section. */
  ghost predicate SizeOk(flags: Flags, was: seq<Sec>, now: seq<Sec>, a: nat, n: nat)
    requires a < n <= |was| == |now|
  {
    match Following(was, a, n)
    case None => now[a].size == was[a].sz && now[a].pad == was[a].pad
    case Some(j) =>
      && now[a].size == was[a].sz + (if was[j].pseudo then 0 else now[a].pad)
      && (was[a].pad > 0 || was[j].pseudo || !flags.gapFill ==> now[a].pad == was[a].pad)
      && (flags.gapFill && !was[j].pseudo && was[a].pad == 0 ==>
            now[a].pad == if now[a].off + was[a].sz < now[j].off then now[j].off - (now[a].off + was[a].sz) else 0)
  }

  ghost predicate SizesOk(flags: Flags, was: seq<Sec>, now: seq<Sec>, n: nat)
    requires n <= |was| == |now|
  {
    forall a :: 0 <= a < n && !Ignored(was[a]) && !was[a].pseudo ==> SizeOk(flags, was, now, a, n)
  }

  /** `ps`: the last section placed, unless that is a pseudo section. */
  ghost predicate Previous(was: seq<Sec>, n: nat, ps: Option<nat>)
    requires n <= |was|
  {
    && (ps.Some? ==>
          && ps.value < n && !Ignored(was[ps.value]) && !was[ps.value].pseudo
          && Following(was, ps.value, n).None?)
    && forall a :: 0 <= a < n && !Ignored(was[a]) && !was[a].pseudo && Following(was, a, n).None? ==> ps == Some(a)
  }

  lemma PlacedStep(flags: Flags, was: seq<Sec>, now: seq<Sec>, offs: seq<nat>, n: nat, t: Sec)
    requires PlacedUpTo(flags, was, now, offs, n) && Apart(was, now, offs[n], n) && PadsOk(was) && n < |was|
    requires !Ignored(was[n]) && PlacedOk(flags, was[n], t, offs[n]) && t.pad == was[n].pad
    ensures var now', off' := now[n := t], Next(was[n], t.off);
            PlacedUpTo(flags, was, now', offs + [off'], n + 1) && Apart(was, now', off', n + 1)
  {
    var now', off' := now[n := t], Next(was[n], t.off);
    assert End(t) <= off';
    assert forall i :: 0 <= i < n ==> now'[i] == now[i];
  }

  lemma IgnoredPlaced(flags: Flags, was: seq<Sec>, now: seq<Sec>, offs: seq<nat>, n: nat)
    requires PlacedUpTo(flags, was, now, offs, n) && Apart(was, now, offs[n], n) && n < |was| && Ignored(was[n])
    ensures PlacedUpTo(flags, was, now, offs + [offs[n]], n + 1) && Apart(was, now, offs[n], n + 1)
  {
    hide PlacedOk, End;
  }

  lemma IgnoredStep(flags: Flags, was: seq<Sec>, now: seq<Sec>, offs: seq<nat>, n: nat, ps: Option<nat>)
    requires PlacedUpTo(flags, was, now, offs, n) && Apart(was, now, offs[n], n) && n < |was| && Ignored(was[n])
    requires SizesOk(flags, was, now, n) && Previous(was, n, ps)
    ensures PlacedUpTo(flags, was, now, offs + [offs[n]], n + 1) && Apart(was, now, offs[n], n + 1)
    ensures SizesOk(flags, was, now, n + 1) && Previous(was, n + 1, ps)
  {
    IgnoredPlaced(flags, was, now, offs, n);
    hide PlacedUpTo, Apart;
    forall a | 0 <= a < n && !Ignored(was[a]) && !was[a].pseudo
      ensures SizeOk(flags, was, now, a, n + 1)
    {
      assert SizeOk(flags, was, now, a, n);
    }
  }

  /** A real section behind `ps`: `now` has it placed, `p` is the previous one with its padding settled. */
  lemma SettledStep(flags: Flags, was: seq<Sec>, now: seq<Sec>, n: nat, ps: Option<nat>, t: Sec, now': seq<Sec>)
    requires n < |was| == |now| && SizesOk(flags, was, now, n) && Previous(was, n, ps)
    requires !Ignored(was[n]) && t.size == was[n].sz && t.pad == was[n].pad && |now'| == |now| && now'[n] == t
    requires forall i :: 0 <= i < n && Some(i) != ps ==> now'[i] == now[i]
    requires ps.Some? && was[n].pseudo ==> now'[ps.value] == now[ps.value]
    requires ps.Some? && !was[n].pseudo ==> now'[ps.value] == Settle(flags, now[ps.value], t.off)
    requires ps.Some? ==> now[ps.value].sz == was[ps.value].sz
    ensures SizesOk(flags, was, now', n + 1) && Previous(was, n + 1, if was[n].pseudo then None else Some(n))
  {
    forall a | 0 <= a < n + 1 && !Ignored(was[a]) && !was[a].pseudo
      ensures SizeOk(flags, was, now', a, n + 1)
    {
      if a < n {
        assert SizeOk(flags, was, now, a, n);
        if Following(was, a, n).Some? {
          var j := Following(was, a, n).value;
          assert ps.Some? ==> a != ps.value;
          assert ps == Some(j) ==> now'[j].off == now[j].off;
        }
      }
    }
  }

  /** What happens to the previous section once the next one is at `off`. */
  function Settle(flags: Flags, s: Sec, off: nat): Sec {
    if s.pad > 0 then s.(size := s.sz + s.pad)
    else if flags.gapFill && s.off + s.sz < off then
      s.(pad := off - (s.off + s.sz), size := s.sz + (off - (s.off + s.sz)))
    else s
  }

  lemma SettleKeeps(flags: Flags, was: seq<Sec>, now: seq<Sec>, offs: seq<nat>, n: nat, p: nat)
    requires PlacedUpTo(flags, was, now, offs, n + 1) && Apart(was, now, offs[n + 1], n + 1) && n < |was| && p < n
    requires !Ignored(was[p]) && !Ignored(was[n]) && Following(was, p, n).None?
    ensures var now' := now[p := Settle(flags, now[p], now[n].off)];
            PlacedUpTo(flags, was, now', offs, n + 1) && Apart(was, now', offs[n + 1], n + 1)
  {
    SettledApart(flags, was, now, offs[n + 1], n, p);
    hide Apart, Following, End, Next;
    var now' := now[p := Settle(flags, now[p], now[n].off)];
    assert forall i :: 0 <= i < |was| ==> now'[i].off == now[i].off && (i != p ==> now'[i] == now[i]);
  }

  lemma SettledApart(flags: Flags, was: seq<Sec>, now: seq<Sec>, off: nat, n: nat, p: nat)
    requires n < |was| == |now| && p < n && Apart(was, now, off, n + 1)
    requires !Ignored(was[p]) && !Ignored(was[n]) && Following(was, p, n).None?
    ensures Apart(was, now[p := Settle(flags, now[p], now[n].off)], off, n + 1)
  {
    hide Ignored;
    var now' := now[p := Settle(flags, now[p], now[n].off)];
    assert now[n].off <= End(now[n]) <= off && End(now[p]) <= now[n].off;
    SettledEnd(flags, now[p], now[n].off);
    hide Settle, End;
    forall i, j | 0 <= i < j < n + 1 && !Ignored(was[i]) && !Ignored(was[j])
      ensures End(now'[i]) <= now'[j].off
    {
      assert End(now[i]) <= now[j].off;
    }
  }

  lemma SettledEnd(flags: Flags, s: Sec, off: nat)
    requires End(s) <= off
    ensures End(Settle(flags, s, off)) <= off && Settle(flags, s, off).off == s.off
  {
  }

  method PlaceOne(flags: Flags, s: Sec, off: nat) returns (t: Sec)
    ensures t == s.(off := t.off, align := Align(s)) && PlacedOk(flags, s, t, off)
  {
    t := s.(align := Align(s));
    if off <= t.off {
      if !t.loadable || flags.relocatable {
        t := t.(off := Roundup(off, t.align));
      }
    } else {
      t := t.(off := Roundup(off, t.align));
    }
  }

  /** The sizes once the last section's padding is written too. */
  ghost predicate FinalSize(flags: Flags, was: seq<Sec>, now: seq<Sec>, a: nat)
    requires a < |was| == |now|
  {
    match Following(was, a, |was|)
    case None => now[a].size == was[a].sz + now[a].pad && now[a].pad == was[a].pad
    case Some(j) => SizeOk(flags, was, now, a, |was|)
  }

  lemma Begin(flags: Flags, was: seq<Sec>, offs: seq<nat>)
    requires |offs| == 1 && (was != [] ==> offs[0] == was[0].off)
    ensures PlacedUpTo(flags, was, was, offs, 0) && Apart(was, was, offs[0], 0)
    ensures SizesOk(flags, was, was, 0) && Previous(was, 0, None)
  {
  }

  /** What the predicates say about the section coming up and the previous one. */
  lemma StillThere(flags: Flags, was: seq<Sec>, now: seq<Sec>, offs: seq<nat>, n: nat, ps: Option<nat>)
    requires PlacedUpTo(flags, was, now, offs, n) && n <= |was| && Previous(was, n, ps)
    ensures |now| == |was| && |offs| == n + 1
    ensures (n < |was| ==> now[n] == was[n]) && (was != [] ==> offs[0] == was[0].off)
    ensures ps.Some? ==> ps.value < n && !Ignored(was[ps.value]) && Following(was, ps.value, n).None?
    ensures ps.Some? ==> now[ps.value].sz == was[ps.value].sz
  {
  }

  /** Section `i` behind `off`, and the padding of the one before it. */
  method PlaceAt(secs: array<Sec>, flags: Flags, i: nat, off: nat, ps: Option<nat>, ghost offs: seq<nat>,
                 ghost was: seq<Sec>)
    returns (next: nat)
    requires i < secs.Length == |was| && |offs| == i + 1 && off == offs[i] && PadsOk(was)
    requires PlacedUpTo(flags, was, secs[..], offs, i) && Apart(was, secs[..], offs[i], i)
    requires SizesOk(flags, was, secs[..], i) && Previous(was, i, ps) && !Ignored(secs[i])
    modifies secs
    ensures PlacedUpTo(flags, was, secs[..], offs + [next], i + 1) && Apart(was, secs[..], next, i + 1)
    ensures SizesOk(flags, was, secs[..], i + 1) && secs[i].pseudo == was[i].pseudo
    ensures Previous(was, i + 1, if was[i].pseudo then None else Some(i))
  {
    hide PlacedUpTo, Apart, SizesOk, Previous, Following, PlacedOk, PadsOk, Settle;
    ghost var now := secs[..];
    StillThere(flags, was, now, offs, i, ps);
    var t := PlaceOne(flags, secs[i], off);
    PlacedOkSize(flags, was[i], t, off);
    next := t.off;
    if t.pseudo || t.kind == BITS {
      next := next + t.sz;
    }
    t := t.(size := t.sz);
    PlacedStep(flags, was, now, offs, i, t);
    secs[i] := t;
    assert secs[..] == now[i := t];
    if t.pseudo {
      SettledStep(flags, was, now, i, ps, t, secs[..]);
      return;
    }
    next := next + t.pad;
    if ps.Some? {
      var p := ps.value;
      SettleKeeps(flags, was, secs[..], offs + [next], i, p);
      SettleIs(flags, secs[p], t.off);
      assert secs[p] == now[p];
      if secs[p].pad > 0 {
        secs[p] := secs[p].(size := secs[p].sz + secs[p].pad);
      } else if flags.gapFill && secs[p].off + secs[p].sz < t.off {
        secs[p] := secs[p].(pad := t.off - (secs[p].off + secs[p].sz));
        secs[p] := secs[p].(size := secs[p].sz + secs[p].pad);
      }
      assert secs[..] == now[i := t][p := Settle(flags, now[p], t.off)];
    }
    SettledStep(flags, was, now, i, ps, t, secs[..]);
  }

  lemma PlacedOkSize(flags: Flags, was: Sec, now: Sec, off: nat)
    requires PlacedOk(flags, was, now, off)
    ensures PlacedOk(flags, was, now.(size := now.sz), off)
  {
  }

  lemma SettleIs(flags: Flags, s: Sec, off: nat)
    ensures Settle(flags, s, off) ==
            if s.pad > 0 then s.(size := s.sz + s.pad)
            else if flags.gapFill && s.off + s.sz < off
            then s.(pad := off - (s.off + s.sz), size := s.sz + (off - (s.off + s.sz))) else s
  {
  }

  /** Sizes do not matter to the layout. */
  lemma LastPlaced(flags: Flags, was: seq<Sec>, now: seq<Sec>, offs: seq<nat>, last: seq<Sec>)
    requires PlacedUpTo(flags, was, now, offs, |was|) && Apart(was, now, offs[|was|], |was|)
    requires |last| == |now| && forall i :: 0 <= i < |now| ==> last[i] == now[i].(size := last[i].size)
    requires forall i :: 0 <= i < |now| && Ignored(was[i]) ==> last[i] == now[i]
    ensures PlacedUpTo(flags, was, last, offs, |was|) && Apart(was, last, offs[|was|], |was|)
  {
    hide Ignored, Next;
    assert forall i :: 0 <= i < |now| ==> End(last[i]) == End(now[i]) && last[i].off == now[i].off;
  }

  lemma LastOne(flags: Flags, was: seq<Sec>, now: seq<Sec>, offs: seq<nat>, ps: Option<nat>, last: seq<Sec>)
    requires PlacedUpTo(flags, was, now, offs, |was|) && Apart(was, now, offs[|was|], |was|)
    requires SizesOk(flags, was, now, |was|) && Previous(was, |was|, ps)
    requires |last| == |now| && forall i :: 0 <= i < |now| ==>
               last[i] == if ps == Some(i) && now[i].pad > 0 then now[i].(size := now[i].sz + now[i].pad) else now[i]
    ensures PlacedUpTo(flags, was, last, offs, |was|) && Apart(was, last, offs[|was|], |was|)
    ensures forall a :: 0 <= a < |was| && !Ignored(was[a]) && !was[a].pseudo ==> FinalSize(flags, was, last, a)
  {
    LastPlaced(flags, was, now, offs, last);
    hide Following, Apart, PlacedUpTo;
    forall a | 0 <= a < |was| && !Ignored(was[a]) && !was[a].pseudo
      ensures FinalSize(flags, was, last, a)
    {
      assert SizeOk(flags, was, now, a, |was|);
    }
  }

  /** `resync_sections`. */
  method Resync(secs: array<Sec>, flags: Flags) returns (ghost offs: seq<nat>)
    requires PadsOk(secs[..])
    modifies secs
    ensures PlacedUpTo(flags, old(secs[..]), secs[..], offs, secs.Length)
    ensures Apart(old(secs[..]), secs[..], offs[secs.Length], secs.Length)
    ensures forall a :: 0 <= a < secs.Length && !Ignored(old(secs[a])) && !old(secs[a]).pseudo ==>
              FinalSize(flags, old(secs[..]), secs[..], a)
  {
    hide PlacedUpTo, Apart, SizesOk, Previous, Following, PlacedOk, PadsOk, Settle, FinalSize;
    ghost var was := secs[..];
    var ps: Option<nat>, first, off := None, true, 0;
    offs := [if was == [] then 0 else was[0].off];
    Begin(flags, was, offs);
    for i := 0 to secs.Length
      invariant |offs| == i + 1 && first == (i == 0) && (!first ==> off == offs[i])
      invariant PlacedUpTo(flags, was, secs[..], offs, i) && Apart(was, secs[..], offs[i], i)
      invariant SizesOk(flags, was, secs[..], i) && Previous(was, i, ps)
    {
      StillThere(flags, was, secs[..], offs, i, ps);
      if first {
        off, first := secs[i].off, false;
      }
      if Ignored(secs[i]) {
        IgnoredStep(flags, was, secs[..], offs, i, ps);
        offs := offs + [offs[i]];
      } else {
        off := PlaceAt(secs, flags, i, off, ps, offs, was);
        ps := if secs[i].pseudo then None else Some(i);
        offs := offs + [off];
      }
    }
    ghost var now := secs[..];
    StillThere(flags, was, now, offs, secs.Length, ps);
    if ps.Some? && secs[ps.value].pad > 0 {
      secs[ps.value] := secs[ps.value].(size := secs[ps.value].sz + secs[ps.value].pad);
    }
    LastOne(flags, was, now, offs, ps, secs[..]);
  }

  lemma IgnoredAtZero(s: Sec)
    ensures Ignored(s) ==> s.off == 0
  {
  }

  /** A loadable section of a final object that moved was overrun by the section before it. */
  lemma MovedMeansOverrun(flags: Flags, was: seq<Sec>, now: seq<Sec>, offs: seq<nat>, k: nat) returns (p: nat)
    requires PlacedUpTo(flags, was, now, offs, |was|) && k < |was| && !Ignored(was[k])
    requires was[k].loadable && !flags.relocatable && now[k].off != was[k].off
    ensures p < k && !Ignored(was[p]) && (forall q :: p < q < k ==> Ignored(was[q]))
    ensures Next(was[p], now[p].off) > was[k].off
  {
    hide Ignored;
    assert offs[k] > was[k].off;
    var i := k;
    while i > 0 && Ignored(was[i - 1])
      invariant 0 <= i <= k && offs[i] == offs[k] && forall q :: i <= q < k ==> Ignored(was[q])
    {
      i := i - 1;
    }
    if i == 0 && k > 0 {
      IgnoredAtZero(was[0]);
    }
    p := i - 1;
  }

  // ---------- the layout, spelled out ----------

  /** TLS sections without contents that have no place in the file. */
  predicate Outside(s: Sec) { s.tls && s.kind == NOBITS && s.off == 0 }

  /** Bytes a section takes in the file, with the padding asked for behind it. */
  function Taken(s: Sec): nat {
    if s.pseudo then s.sz else (if s.kind == BITS then s.sz else 0) + s.pad
  }

  /** `k` is the next section after `p` that has a place. */
  ghost predicate Follows(was: seq<Sec>, p: nat, k: nat) {
    p < k < |was| && !Outside(was[p]) && !Outside(was[k]) && forall q :: p < q < k ==> Outside(was[q])
  }

  /** The place of a section behind `e`: the least multiple of its alignment when it is not loadable, in a
      relocatable object, or overrun; and else where it was. */
  ghost predicate PlacedBehind(flags: Flags, was: Sec, now: Sec, e: nat) {
    var a := if was.align == 0 then 1 else was.align;
    && now.align == a && now.sz == was.sz && now.kind == was.kind
    && (if !was.loadable || flags.relocatable || e > was.off then e <= now.off < e + a && now.off % a == 0
        else now.off == was.off)
  }

  lemma {:induction false} SameOffset(flags: Flags, was: seq<Sec>, now: seq<Sec>, offs: seq<nat>, i: nat, k: nat)
    requires PlacedUpTo(flags, was, now, offs, |was|) && i <= k <= |was|
    requires forall q :: i <= q < k ==> Ignored(was[q])
    ensures offs[k] == offs[i]
  {
    hide Ignored, PlacedOk;
    if i < k {
      SameOffset(flags, was, now, offs, i, k - 1);
    }
  }

  /** Every section is placed behind the end of the one before it that has a place. */
  lemma EachPlaced(flags: Flags, was: seq<Sec>, now: seq<Sec>, offs: seq<nat>, p: nat, k: nat)
    requires PlacedUpTo(flags, was, now, offs, |was|) && Follows(was, p, k)
    ensures PlacedBehind(flags, was[k], now[k], now[p].off + Taken(was[p]))
  {
    assert forall q :: p < q < k ==> Ignored(was[q]);
    SameOffset(flags, was, now, offs, p + 1, k);
    assert PlacedOk(flags, was[k], now[k], offs[k]);
    assert offs[p + 1] == Next(was[p], now[p].off);
  }

  /** The first one that has a place is placed behind where the first section of all was. */
  lemma FirstPlaced(flags: Flags, was: seq<Sec>, now: seq<Sec>, offs: seq<nat>, k: nat)
    requires PlacedUpTo(flags, was, now, offs, |was|) && k < |was| && !Outside(was[k])
    requires forall q :: 0 <= q < k ==> Outside(was[q])
    ensures PlacedBehind(flags, was[k], now[k], was[0].off)
  {
    assert forall q :: 0 <= q < k ==> Ignored(was[q]);
    SameOffset(flags, was, now, offs, 0, k);
    assert PlacedOk(flags, was[k], now[k], offs[k]);
  }

  /** File extents are in list order and disjoint, with the padding, asked for or filled in. */
  lemma ExtentsApart(flags: Flags, was: seq<Sec>, now: seq<Sec>, offs: seq<nat>, i: nat, j: nat)
    requires PlacedUpTo(flags, was, now, offs, |was|) && Apart(was, now, offs[|was|], |was|)
    requires i < j < |was| && !Outside(was[i]) && !Outside(was[j])
    ensures now[i].off + (if was[i].pseudo || was[i].kind == BITS then was[i].sz else 0) <= now[j].off
    ensures !was[i].pseudo && now[i].pad > 0 ==> now[i].off + was[i].sz + now[i].pad <= now[j].off
  {
    assert !Ignored(was[i]) && !Ignored(was[j]);
    assert End(now[i]) <= now[j].off;
    assert PlacedOk(flags, was[i], now[i], offs[i]);
  }

  lemma {:induction false} FollowingIs(was: seq<Sec>, a: nat, n: nat, k: nat)
    requires n <= |was| && Follows(was, a, k)
    ensures k < n ==> Following(was, a, n) == Some(k)
  {
    if k < n {
      if k < n - 1 {
        FollowingIs(was, a, n - 1, k);
      } else {
        assert Following(was, a, k).None? by {
          NoneFollows(was, a, k);
        }
      }
    }
  }

  lemma {:induction false} NoneFollows(was: seq<Sec>, a: nat, n: nat)
    requires a < n <= |was| && forall q :: a < q < n ==> Ignored(was[q])
    ensures Following(was, a, n).None?
  {
    if a + 1 < n {
      NoneFollows(was, a, n - 1);
    }
  }

  /** The size written: what --pad-to asks for, or the gap up to the next section when gaps are filled; nothing
      more in front of a pseudo section. */
  lemma SizesWritten(flags: Flags, was: seq<Sec>, now: seq<Sec>, a: nat, k: nat)
    requires |now| == |was| && a < |was| && FinalSize(flags, was, now, a) && Follows(was, a, k)
    ensures now[a].size == if was[k].pseudo then was[a].sz
                           else if was[a].pad > 0 then was[a].sz + was[a].pad
                           else if flags.gapFill && now[a].off + was[a].sz < now[k].off then now[k].off - now[a].off
                           else was[a].sz
  {
    FollowingIs(was, a, |was|, k);
  }

  /** --pad-to padding in front of a pseudo section is accounted for in the layout but never written. */
  lemma PaddingLostBeforePseudo(flags: Flags, was: seq<Sec>, now: seq<Sec>, a: nat)
    requires a < |was| == |now| && FinalSize(flags, was, now, a) && was[a].pad > 0
    ensures now[a].size == was[a].sz + was[a].pad <==>
            !(Following(was, a, |was|).Some? && was[Following(was, a, |was|).value].pseudo)
  {
  }

  /** Eight bytes of padding behind a section of four, in front of a pseudo section. */
  lemma PaddingLost(flags: Flags, now: seq<Sec>)
    requires |now| == 2
    requires var was := [Sec(64, 4, 1, BITS, false, true, false, 8, 0),
                         Sec(128, 16, 1, BITS, true, false, false, 0, 0)];
             FinalSize(flags, was, now, 0)
    ensures now[0].size != 12
  {
    var was := [Sec(64, 4, 1, BITS, false, true, false, 8, 0), Sec(128, 16, 1, BITS, true, false, false, 0, 0)];
    assert Following(was, 0, 1) == None;
    PaddingLostBeforePseudo(flags, was, now, 0);
  }
}
