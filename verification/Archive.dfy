/** Archives as elfcopy/archive.c and ar/write.c write them: symbol offsets, the string table of long
    names, and the layout of members. Header blocks and C longs are those of the library and the host. */
module Archive {
  import opened Bytes
  import StringTable

  const ARMAG_LEN := 8
  const ARHDR_LEN := 60
  const MAXNAMELEN_SVR4 := 15
  const MAXNAMELEN_BSD := 16

  function Armag(): (s: seq<byte>)
    ensures |s| == ARMAG_LEN
  {
    [0x21, 0x3c, 0x61, 0x72, 0x63, 0x68, 0x3e, 0x0a]
  }

  datatype Kind = SVR4 | BSD

  /** A member: its name, its contents, and the global and weak symbols they define. */
  datatype Member = Member(name: Name, data: seq<byte>, syms: seq<Name>)

  /** The symbols that are looked at: libelf has no image of an empty file. */
  function SymsIn(m: Member): seq<Name> { if m.data == [] then [] else m.syms }

  /** The 60-byte header the archive library makes for a name and a size. */
  type Header = (Name, nat) -> seq<byte>

  /** How the host lays out a C long. */
  type Long = nat -> seq<byte>

  ghost predicate Fits(h: Header, long: Long) {
    (forall n: Name, sz: nat :: |h(n, sz)| == ARHDR_LEN) && forall x: nat :: |long(x)| == 8
  }

  // ---------- members ----------

  predicate LongName(kind: Kind, name: Name) {
    match kind
    case SVR4 => |name| > MAXNAMELEN_SVR4
    case BSD => |name| > MAXNAMELEN_BSD || 0x20 in name
  }

  /** A BSD archive keeps a long name in front of the contents. */
  function Inline(kind: Kind, m: Member): seq<byte> {
    if kind.BSD? && LongName(kind, m.name) then m.name else []
  }

  function Extent(kind: Kind, m: Member): nat {
    var sz := |Inline(kind, m)| + |m.data|;
    ARHDR_LEN + sz + sz % 2
  }

  function MemberBytes(kind: Kind, h: Header, m: Member): seq<byte> {
    var body := Inline(kind, m) + m.data;
    h(m.name, |m.data|) + body + (if |body| % 2 == 1 then [0x0a] else [])
  }

  function Extents(kind: Kind, ms: seq<Member>): nat {
    if ms == [] then 0 else Extents(kind, ms[..|ms| - 1]) + Extent(kind, ms[|ms| - 1])
  }

  function Bodies(kind: Kind, h: Header, ms: seq<Member>): seq<byte> {
    if ms == [] then [] else Bodies(kind, h, ms[..|ms| - 1]) + MemberBytes(kind, h, ms[|ms| - 1])
  }

  lemma {:induction false} BodiesSize(kind: Kind, h: Header, long: Long, ms: seq<Member>)
    requires Fits(h, long)
    ensures |Bodies(kind, h, ms)| == Extents(kind, ms)
  {
    if ms != [] {
      BodiesSize(kind, h, long, ms[..|ms| - 1]);
    }
  }

  /** Member `i` lies behind the extents of those before it. */
  lemma {:induction false} BodyAt(kind: Kind, h: Header, long: Long, ms: seq<Member>, i: nat)
    requires Fits(h, long) && i < |ms|
    ensures var p := Extents(kind, ms[..i]);
            && p + Extent(kind, ms[i]) <= |Bodies(kind, h, ms)|
            && Bodies(kind, h, ms)[p..p + Extent(kind, ms[i])] == MemberBytes(kind, h, ms[i])
  {
    hide MemberBytes, Extent;
    var n := |ms| - 1;
    var before, last := Bodies(kind, h, ms[..n]), MemberBytes(kind, h, ms[n]);
    BodiesSize(kind, h, long, ms[..n]);
    MemberSize(kind, h, long, ms[n]);
    if i < n {
      BodyAt(kind, h, long, ms[..n], i);
      assert ms[..n][..i] == ms[..i];
      SliceOfPrefix(before, last, Extents(kind, ms[..i]), Extent(kind, ms[i]));
    } else {
      SliceOfSuffix(before, last);
    }
  }

  lemma MemberSize(kind: Kind, h: Header, long: Long, m: Member)
    requires Fits(h, long)
    ensures |MemberBytes(kind, h, m)| == Extent(kind, m)
  {
  }

  lemma SliceOfPrefix(a: seq<byte>, b: seq<byte>, p: nat, n: nat)
    requires p + n <= |a|
    ensures (a + b)[p..p + n] == a[p..p + n]
  {
  }

  lemma SliceOfSuffix(a: seq<byte>, b: seq<byte>)
    ensures (a + b)[|a|..|a| + |b|] == b
  {
  }

  // ---------- symbols ----------

  /** A symbol and the number of its member. */
  datatype ArSym = ArSym(member: nat, name: Name)

  function Tagged(i: nat, syms: seq<Name>): (r: seq<ArSym>)
    ensures |r| == |syms| && forall j :: 0 <= j < |r| ==> r[j] == ArSym(i, syms[j])
  {
    seq(|syms|, j requires 0 <= j < |syms| => ArSym(i, syms[j]))
  }

  function SymsOf(ms: seq<Member>): seq<ArSym> {
    if ms == [] then [] else SymsOf(ms[..|ms| - 1]) + Tagged(|ms| - 1, SymsIn(ms[|ms| - 1]))
  }

  function NamesOf(ms: seq<Member>): seq<Name> {
    if ms == [] then [] else NamesOf(ms[..|ms| - 1]) + SymsIn(ms[|ms| - 1])
  }

  function Repeat(w: Word, n: nat): (r: seq<Word>)
    ensures |r| == n && forall j :: 0 <= j < n ==> r[j] == w
  {
    seq(n, _ => w)
  }

  /** Each symbol's offset, when the first member is at `base`. */
  function OffsetsOf(kind: Kind, ms: seq<Member>, base: nat): seq<Word> {
    if ms == [] then []
    else OffsetsOf(kind, ms[..|ms| - 1], base)
         + Repeat((base + Extents(kind, ms[..|ms| - 1])) % WORD_MOD, |SymsIn(ms[|ms| - 1])|)
  }

  /** The three lists run in parallel. */
  lemma {:induction false} OffsetOf(kind: Kind, ms: seq<Member>, base: nat)
    ensures |OffsetsOf(kind, ms, base)| == |SymsOf(ms)| == |NamesOf(ms)|
    ensures forall k :: 0 <= k < |SymsOf(ms)| ==> SymsOf(ms)[k].member < |ms| && NamesOf(ms)[k] == SymsOf(ms)[k].name
    ensures forall k :: 0 <= k < |SymsOf(ms)| ==>
              OffsetsOf(kind, ms, base)[k] == (base + Extents(kind, ms[..SymsOf(ms)[k].member])) % WORD_MOD
  {
    hide Extents, SymsIn, Tagged, Repeat;
    if ms != [] {
      var n := |ms| - 1;
      var front, w := ms[..n], (base + Extents(kind, ms[..n])) % WORD_MOD;
      OffsetOf(kind, front, base);
      var syms, names, offs := SymsOf(front), NamesOf(front), OffsetsOf(kind, front, base);
      var more := SymsIn(ms[n]);
      assert SymsOf(ms) == syms + Tagged(n, more) && NamesOf(ms) == names + more;
      assert OffsetsOf(kind, ms, base) == offs + Repeat(w, |more|);
      hide SymsOf, NamesOf, OffsetsOf;
      forall k | 0 <= k < |SymsOf(ms)|
        ensures SymsOf(ms)[k].member < |ms| && NamesOf(ms)[k] == SymsOf(ms)[k].name
        ensures OffsetsOf(kind, ms, base)[k] == (base + Extents(kind, ms[..SymsOf(ms)[k].member])) % WORD_MOD
      {
        if k < |syms| {
          assert front[..syms[k].member] == ms[..syms[k].member];
        }
      }
    }
  }

  lemma OffsetsShift(kind: Kind, ms: seq<Member>, base: nat, k: nat)
    requires k < |OffsetsOf(kind, ms, 0)|
    ensures k < |OffsetsOf(kind, ms, base)|
    ensures OffsetsOf(kind, ms, base)[k] == (OffsetsOf(kind, ms, 0)[k] + base) % WORD_MOD
  {
    hide Extents, OffsetsOf, SymsOf;
    OffsetOf(kind, ms, 0);
    OffsetOf(kind, ms, base);
    ModShift(Extents(kind, ms[..SymsOf(ms)[k].member]), base);
  }

  lemma ModShift(x: nat, base: nat)
    ensures (base + x) % WORD_MOD == (x % WORD_MOD + base) % WORD_MOD
  {
    assert base + x == (x % WORD_MOD + base) + WORD_MOD * (x / WORD_MOD);
  }

  // ---------- the tables being built ----------

  /** Long names, each ended by a slash and a newline. */
  function LongNames(kind: Kind, ms: seq<Member>): seq<byte> {
    if ms == [] then []
    else
      var m := ms[|ms| - 1];
      LongNames(kind, ms[..|ms| - 1]) + (if LongName(kind, m.name) then m.name + [0x2f, 0x0a] else [])
  }

  predicate AnyLong(kind: Kind, ms: seq<Member>) {
    exists i :: 0 <= i < |ms| && LongName(kind, ms[i].name)
  }

  function StrTab(kind: Kind, ms: seq<Member>): Option<seq<byte>> {
    if kind.SVR4? && AnyLong(kind, ms) then Some(LongNames(kind, ms)) else None
  }

  class Tables {
    var strs: Option<seq<byte>>
    var so: seq<Word>
    var sn: seq<byte>
    var relaOff: nat

    constructor ()
      ensures strs == None && so == [] && sn == [] && relaOff == 0
    {
      strs, so, sn, relaOff := None, [], [], 0;
    }

    /** `add_to_ar_str_table`. */
    method AddStr(name: Name)
      modifies `strs
      ensures strs == Some((if old(strs).Some? then old(strs).value else []) + name + [0x2f, 0x0a])
    {
      if strs.None? {
        strs := Some([]);
      }
      strs := Some(strs.value + name + [0x2f, 0x0a]);
    }

    /** `add_to_ar_sym_table`. */
    method AddSym(name: Name)
      modifies `so, `sn
      ensures so == old(so) + [relaOff % WORD_MOD] && sn == old(sn) + (name + [0])
    {
      so := so + [relaOff % WORD_MOD];
      sn := sn + name;
      sn := sn + [0];
      assert old(sn) + name + [0] == old(sn) + (name + [0]);
    }

    /** The symbols of one member. */
    method AddSyms(syms: seq<Name>)
      modifies `so, `sn
      ensures so == old(so) + Repeat(relaOff % WORD_MOD, |syms|) && sn == old(sn) + StringTable.Flatten(syms)
    {
      assert syms[..0] == [];
      for j := 0 to |syms|
        invariant so == old(so) + Repeat(relaOff % WORD_MOD, j)
        invariant sn == old(sn) + StringTable.Flatten(syms[..j])
      {
        assert syms[..j + 1][..j] == syms[..j];
        AddSym(syms[j]);
        assert StringTable.Flatten(syms[..j + 1]) == StringTable.Flatten(syms[..j]) + (syms[j] + [0]);
      }
      assert syms[..|syms|] == syms;
    }

    /** Fresh tables filled from the members, in order. */
    method Gather(kind: Kind, ms: seq<Member>)
      requires strs == None && so == [] && sn == [] && relaOff == 0
      modifies this
      ensures Filled(kind, ms)
    {
      hide LongName, Extent;
      assert ms[..0] == [];
      for i := 0 to |ms|
        invariant Filled(kind, ms[..i])
      {
        GatherOne(kind, ms[i], ms[..i]);
        assert ms[..i] + [ms[i]] == ms[..i + 1];
      }
      assert ms[..|ms|] == ms;
    }

    /** Padding the two tables, then turning offsets between members into offsets in the archive:
        `sync_ar`, and the same steps in ar's `write_objs`. */
    method Sync(kind: Kind, ghost ms: seq<Member>)
      requires Filled(kind, ms)
      modifies this
      ensures Synced(kind, ms)
    {
      hide Padded, StringTable.Flatten, OffsetsOf, NamesOf, StrTab, SymSize;
      OffsetOf(kind, ms, 0);
      ghost var names := StringTable.Flatten(NamesOf(ms));
      PaddedIs(names, 0);
      if |so| != 0 && |sn| % 2 != 0 {
        sn := sn + [0];
      }
      NoSymsNoText(NamesOf(ms));
      if strs.Some? {
        PaddedIs(strs.value, 0x0a);
        if |strs.value| % 2 != 0 {
          strs := Some(strs.value + [0x0a]);
        }
      }
      if |so| != 0 {
        var pm := ARMAG_LEN + (ARHDR_LEN + SymSize(kind, |so|, |sn|));
        if strs.Some? {
          pm := pm + ARHDR_LEN + |strs.value|;
        }
        Relocate(kind, pm, ms);
      } else {
        OffsetOf(kind, ms, Start(kind, ms));
        assert so == OffsetsOf(kind, ms, Start(kind, ms));
      }
    }

    method Relocate(kind: Kind, pm: nat, ghost ms: seq<Member>)
      requires so == OffsetsOf(kind, ms, 0)
      modifies `so
      ensures so == OffsetsOf(kind, ms, pm)
    {
      hide OffsetsOf;
      ghost var was, want := so, OffsetsOf(kind, ms, pm);
      OffsetOf(kind, ms, 0);
      OffsetOf(kind, ms, pm);
      for i := 0 to |so|
        invariant |so| == |was| == |want| && so[..i] == want[..i] && so[i..] == was[i..]
      {
        assert so[i] == so[i..][0];
        OffsetsShift(kind, ms, pm, i);
        so := so[i := (so[i] + pm) % WORD_MOD];
      }
    }

    ghost predicate Synced(kind: Kind, ms: seq<Member>)
      reads this
    {
      && strs == PaddedStrTab(kind, ms) && so == OffsetsOf(kind, ms, Start(kind, ms))
      && sn == Padded(StringTable.Flatten(NamesOf(ms)), 0)
    }

    ghost predicate Filled(kind: Kind, ms: seq<Member>)
      reads this
    {
      && strs == StrTab(kind, ms) && relaOff == Extents(kind, ms)
      && so == OffsetsOf(kind, ms, 0) && sn == StringTable.Flatten(NamesOf(ms))
    }

    method GatherOne(kind: Kind, m: Member, ghost done: seq<Member>)
      requires Filled(kind, done)
      modifies this
      ensures Filled(kind, done + [m])
    {
      hide LongName, Extent, StringTable.Flatten, StrTab, OffsetsOf, NamesOf, Extents;
      AddSyms(SymsIn(m));
      FlattenApp(NamesOf(done), SymsIn(m));
      if kind.SVR4? && LongName(kind, m.name) {
        AddStr(m.name);
      }
      LongStep(kind, done, m);
      GatherStep(kind, done, m);
      relaOff := relaOff + Extent(kind, m);
    }
  }

  lemma GatherStep(kind: Kind, done: seq<Member>, m: Member)
    ensures var all := done + [m];
            && Extents(kind, all) == Extents(kind, done) + Extent(kind, m)
            && NamesOf(all) == NamesOf(done) + SymsIn(m)
            && OffsetsOf(kind, all, 0) == OffsetsOf(kind, done, 0) + Repeat(Extents(kind, done) % WORD_MOD, |SymsIn(m)|)
  {
    var all := done + [m];
    assert all[..|all| - 1] == done;
  }

  lemma LongStep(kind: Kind, done: seq<Member>, m: Member)
    ensures var was := if StrTab(kind, done).Some? then StrTab(kind, done).value else [];
            StrTab(kind, done + [m])
            == if kind.SVR4? && LongName(kind, m.name) then Some(was + m.name + [0x2f, 0x0a]) else StrTab(kind, done)
  {
    hide LongName;
    var all := done + [m];
    assert all[..|all| - 1] == done && all[|done|] == m;
    assert forall i :: 0 <= i < |done| ==> all[i] == done[i];
    assert AnyLong(kind, all) <==> AnyLong(kind, done) || LongName(kind, m.name) by {
      AnyLongSnoc(kind, done, m);
    }
    if !AnyLong(kind, done) {
      NoLong(kind, done);
    }
    hide AnyLong;
    var was := if StrTab(kind, done).Some? then StrTab(kind, done).value else [];
    assert was + m.name + [0x2f, 0x0a] == was + (m.name + [0x2f, 0x0a]);
    assert kind.SVR4? ==> was == LongNames(kind, done);
    assert LongNames(kind, done) + [] == LongNames(kind, done);
    assert LongNames(kind, all)
        == LongNames(kind, done) + (if LongName(kind, m.name) then m.name + [0x2f, 0x0a] else []);
  }

  lemma AnyLongSnoc(kind: Kind, done: seq<Member>, m: Member)
    ensures AnyLong(kind, done + [m]) <==> AnyLong(kind, done) || LongName(kind, m.name)
  {
    hide LongName;
    var all := done + [m];
    if i :| 0 <= i < |done| && LongName(kind, done[i].name) {
      assert all[i] == done[i];
    }
    assert all[|done|] == m;
  }

  lemma {:induction false} NoLong(kind: Kind, ms: seq<Member>)
    requires !AnyLong(kind, ms)
    ensures LongNames(kind, ms) == []
  {
    if ms != [] {
      NoLong(kind, ms[..|ms| - 1]);
    }
  }

  lemma FlattenOneMore(a: seq<Name>, x: Name)
    ensures StringTable.Flatten(a + [x]) == StringTable.Flatten(a) + StringTable.Flatten([x])
    ensures StringTable.Flatten([]) == []
  {
    assert (a + [x])[..|a|] == a && [x][..0] == [];
  }

  lemma {:induction false} FlattenApp(a: seq<Name>, b: seq<Name>)
    ensures StringTable.Flatten(a + b) == StringTable.Flatten(a) + StringTable.Flatten(b)
  {
    hide StringTable.Flatten;
    if b == [] {
      assert a + b == a;
      FlattenOneMore(a, []);
    } else {
      var front, x := b[..|b| - 1], b[|b| - 1];
      FlattenApp(a, front);
      assert a + b == (a + front) + [x] && front + [x] == b;
      FlattenOneMore(a + front, x);
      FlattenOneMore(front, x);
    }
  }

  // ---------- the symbol table ----------

  function Padded(s: seq<byte>, pad: byte): seq<byte> { if |s| % 2 == 1 then s + [pad] else s }

  function Be32s(ws: seq<Word>): (s: seq<byte>)
    ensures |s| == 4 * |ws|
  {
    if ws == [] then [] else Be32s(ws[..|ws| - 1]) + ToBE(ws[|ws| - 1], 4)
  }

  /** SVR4: a count, the offsets, the names; all numbers big-endian. */
  function Svr4Body(so: seq<Word>, sn: seq<byte>): seq<byte> {
    ToBE(|so| % WORD_MOD, 4) + Be32s(so) + sn
  }

  /** BSD: (name position, member offset) pairs and the names, each part after its size. */
  ghost function Ranlibs(long: Long, so: seq<Word>, names: seq<Name>, n: nat): seq<byte>
    requires n <= |so| && n <= |names|
  {
    if n == 0 then []
    else Ranlibs(long, so, names, n - 1) + (long(|StringTable.Flatten(names[..n - 1])|) + long(so[n - 1]))
  }

  ghost function BsdBody(long: Long, so: seq<Word>, names: seq<Name>, sn: seq<byte>): seq<byte>
    requires |so| <= |names|
  {
    long(|so| * 16) + Ranlibs(long, so, names, |so|) + long(|sn|) + sn
  }

  /** Name `i` sits behind the names before it, ended by a NUL. */
  lemma {:induction false} NameHeld(names: seq<Name>, post: seq<byte>, i: nat)
    requires i < |names|
    ensures Holds(StringTable.Flatten(names) + post, |StringTable.Flatten(names[..i])|, names[i])
  {
    var n := |names| - 1;
    var before := StringTable.Flatten(names[..n]);
    if i < n {
      NameHeld(names[..n], names[n] + [0] + post, i);
      assert names[..n][..i] == names[..i];
      assert before + (names[n] + [0] + post) == StringTable.Flatten(names) + post;
    } else {
      var all := before + names[n] + [0] + post;
      assert all[|before|..|before| + |names[n]|] == names[n];
    }
  }

  /** `write_bsd_symtab_entry`; `s` walks over the names to find where each begins. */
  method WriteBsdSymtab(long: Long, so: seq<Word>, sn: seq<byte>, ghost names: seq<Name>) returns (out: seq<byte>)
    requires |so| == |names| && sn == Padded(StringTable.Flatten(names), 0)
    ensures out == BsdBody(long, so, names, sn)
  {
    hide StringTable.Flatten;
    ghost var post := if |StringTable.Flatten(names)| % 2 == 1 then [0] else [];
    assert sn == StringTable.Flatten(names) + post;
    out := long(|so| * 16);
    var s: nat := 0;
    FlattenNone(names);
    for i := 0 to |so|
      invariant s == |StringTable.Flatten(names[..i])|
      invariant out == long(|so| * 16) + Ranlibs(long, so, names, i)
    {
      out := out + (long(s) + long(so[i]));
      NameHeld(names, post, i);
      s := SkipName(sn, s, names[i]);
      FlattenNext(names, i);
    }
    out := out + long(|sn|) + sn;
  }

  lemma FlattenNone(names: seq<Name>)
    ensures StringTable.Flatten(names[..0]) == []
  {
    assert names[..0] == [];
  }

  lemma FlattenNext(names: seq<Name>, i: nat)
    requires i < |names|
    ensures |StringTable.Flatten(names[..i + 1])| == |StringTable.Flatten(names[..i])| + |names[i]| + 1
  {
    assert names[..i + 1][..i] == names[..i];
  }

  /** Past the NUL that ends the name at `at`. */
  method SkipName(sn: seq<byte>, at: nat, ghost name: Name) returns (s: nat)
    requires Holds(sn, at, name)
    ensures s == at + |name| + 1
  {
    s := at;
    assert forall j :: 0 <= j < |name| ==> name[j] == sn[at + j] && name[j] in name by {
      ghost var text := sn[at..at + |name|];
      assert forall j :: 0 <= j < |name| ==> text[j] == sn[at + j];
    }
    while sn[s] != 0
      invariant at <= s <= at + |name|
      decreases at + |name| - s
    {
      s := s + 1;
    }
    s := s + 1;
  }

  lemma {:induction false} Be32At(ws: seq<Word>, i: nat)
    requires i < |ws|
    ensures Be32s(ws)[4 * i..4 * i + 4] == ToBE(ws[i], 4)
  {
    hide ToBE;
    var n := |ws| - 1;
    if i < n {
      Be32At(ws[..n], i);
      SliceOfPrefix(Be32s(ws[..n]), ToBE(ws[n], 4), 4 * i, 4);
    }
  }

  function Be32Dec(b: seq<byte>, p: nat): nat
    requires p + 4 <= |b|
  {
    FromBE(b[p..p + 4])
  }

  lemma Be32DecEnc(w: Word)
    ensures FromBE(ToBE(w, 4)) == w
  {
    FromToBE(w, 4);
    assert Pow256(2) == 65536;
    assert Pow256(4) == WORD_MOD;
  }

  lemma Svr4Parts(so: seq<Word>, names: seq<Name>, i: nat)
    requires |so| == |names| < WORD_MOD
    ensures var body := Svr4Body(so, Padded(StringTable.Flatten(names), 0));
            && |body| >= 4 + 4 * |so| && Be32Dec(body, 0) == |so|
            && (i < |so| ==> Be32Dec(body, 4 + 4 * i) == so[i])
            && (i < |so| ==> Holds(body, 4 + 4 * |so| + |StringTable.Flatten(names[..i])|, names[i]))
  {
    hide StringTable.Flatten, ToBE, FromBE;
    var text := StringTable.Flatten(names);
    var post: seq<byte> := if |text| % 2 == 1 then [0] else [];
    var cnt, offs := ToBE(|so|, 4), Be32s(so);
    var body := cnt + offs + (text + post);
    assert body == Svr4Body(so, Padded(text, 0));
    assert body[0..4] == cnt;
    Be32DecEnc(|so|);
    if i < |so| {
      assert body[4 + 4 * i..4 + 4 * i + 4] == offs[4 * i..4 * i + 4];
      Be32At(so, i);
      Be32DecEnc(so[i]);
      NameHeld(names, post, i);
      HoldsFramed(cnt + offs, text + post, [], |StringTable.Flatten(names[..i])|, names[i]);
      assert cnt + offs + (text + post) + [] == body;
    }
  }

  /** The archive symbol parse of `ac_print_ar`: count, offsets, then names by their terminators. */
  method ParseArsym(body: seq<byte>, ghost so: seq<Word>, ghost names: seq<Name>)
    returns (offs: seq<nat>, syms: seq<Name>)
    requires |so| == |names| < WORD_MOD && body == Svr4Body(so, Padded(StringTable.Flatten(names), 0))
    ensures offs == so && syms == names
  {
    hide StringTable.Flatten, Svr4Body, Be32Dec;
    Svr4Parts(so, names, 0);
    var cnt := Be32Dec(body, 0);
    offs, syms := [], [];
    var b: nat := 4;
    for i := 0 to cnt
      invariant cnt == |so| && b == 4 + 4 * i && offs == so[..i]
    {
      Svr4Parts(so, names, i);
      offs := offs + [Be32Dec(body, b)];
      b := b + 4;
    }
    FlattenNone(names);
    for i := 0 to cnt
      invariant cnt == |so| && b == 4 + 4 * |so| + |StringTable.Flatten(names[..i])| && syms == names[..i]
    {
      Svr4Parts(so, names, i);
      CStrOfHeld(body, b, names[i]);
      var name := CStr(body, b);
      syms := syms + [name];
      b := b + |name| + 1;
      FlattenNext(names, i);
    }
  }

  // ---------- the whole archive ----------

  /** Size of the symbol table body; a C long has eight bytes. */
  function SymSize(kind: Kind, cnt: nat, snSz: nat): nat {
    match kind
    case SVR4 => 4 + cnt * 4 + snSz
    case BSD => 2 * 8 + cnt * 2 * 8 + snSz
  }

  function PaddedStrTab(kind: Kind, ms: seq<Member>): Option<seq<byte>> {
    match StrTab(kind, ms)
    case Some(t) => Some(Padded(t, 0x0a))
    case None => None
  }

  /** Where the first member goes when there is a symbol table. */
  ghost function Start(kind: Kind, ms: seq<Member>): nat {
    var strs := PaddedStrTab(kind, ms);
    ARMAG_LEN + ARHDR_LEN + SymSize(kind, |NamesOf(ms)|, |Padded(StringTable.Flatten(NamesOf(ms)), 0)|)
    + (if strs.Some? then ARHDR_LEN + |strs.value| else 0)
  }

  lemma PaddedIs(s: seq<byte>, pad: byte)
    ensures Padded(s, pad) == (if |s| % 2 != 0 then s + [pad] else s) && |Padded(s, pad)| % 2 == 0
  {
  }

  lemma NoSymsNoText(names: seq<Name>)
    ensures names == [] ==> StringTable.Flatten(names) == []
  {
  }

  /** One archive entry as the library writes it. */
  function Entry(h: Header, name: Name, body: seq<byte>): seq<byte> {
    h(name, |body|) + body + (if |body| % 2 == 1 then [0x0a] else [])
  }

  const SYMTAB_SVR4: Name := [0x2f]
  const STRTAB_SVR4: Name := [0x2f, 0x2f]
  const SYMTAB_BSD: Name := [0x5f, 0x5f, 0x2e, 0x53, 0x59, 0x4d, 0x44, 0x45, 0x46]

  ghost function SymBody(kind: Kind, long: Long, ms: seq<Member>): seq<byte> {
    OffsetOf(kind, ms, Start(kind, ms));
    var so, sn := OffsetsOf(kind, ms, Start(kind, ms)), Padded(StringTable.Flatten(NamesOf(ms)), 0);
    match kind
    case SVR4 => Svr4Body(so, sn)
    case BSD => BsdBody(long, so, NamesOf(ms), sn)
  }

  function SymName(kind: Kind): Name { if kind.BSD? then SYMTAB_BSD else SYMTAB_SVR4 }

  /** Everything before the first member. */
  ghost function Prefix(kind: Kind, h: Header, long: Long, ms: seq<Member>, tabled: bool): seq<byte> {
    var strs := PaddedStrTab(kind, ms);
    Armag() + (if tabled then Entry(h, SymName(kind), SymBody(kind, long, ms)) else [])
    + (if strs.Some? then Entry(h, STRTAB_SVR4, strs.value) else [])
  }

  lemma {:induction false} RanlibsSize(h: Header, long: Long, so: seq<Word>, names: seq<Name>, n: nat)
    requires Fits(h, long) && n <= |so| && n <= |names|
    ensures |Ranlibs(long, so, names, n)| == 16 * n
  {
    if n > 0 {
      RanlibsSize(h, long, so, names, n - 1);
    }
  }

  lemma BodySizes(h: Header, long: Long, so: seq<Word>, names: seq<Name>, sn: seq<byte>)
    requires Fits(h, long) && |so| == |names|
    ensures |Svr4Body(so, sn)| == SymSize(SVR4, |names|, |sn|)
    ensures |BsdBody(long, so, names, sn)| == SymSize(BSD, |names|, |sn|)
  {
    hide Ranlibs, Be32s, ToBE;
    RanlibsSize(h, long, so, names, |names|);
  }

  lemma SymBodySize(kind: Kind, h: Header, long: Long, ms: seq<Member>)
    requires Fits(h, long)
    ensures |SymBody(kind, long, ms)| == SymSize(kind, |NamesOf(ms)|, |Padded(StringTable.Flatten(NamesOf(ms)), 0)|)
    ensures |SymBody(kind, long, ms)| % 2 == 0
  {
    hide Padded, OffsetsOf, NamesOf, StringTable.Flatten, Start, Svr4Body, BsdBody, SymBody, SymSize;
    var so, sn := OffsetsOf(kind, ms, Start(kind, ms)), Padded(StringTable.Flatten(NamesOf(ms)), 0);
    PaddedIs(StringTable.Flatten(NamesOf(ms)), 0);
    SymBodyCases(kind, long, ms);
    BodySizes(h, long, so, NamesOf(ms), sn);
    SymSizeEven(kind, |NamesOf(ms)|, |sn|);
  }

  lemma SymSizeEven(kind: Kind, cnt: nat, snSz: nat)
    requires snSz % 2 == 0
    ensures SymSize(kind, cnt, snSz) % 2 == 0
  {
    if kind == SVR4 {
      EvenSum(2 + cnt * 2, snSz / 2);
    } else {
      EvenSum(8 + cnt * 8, snSz / 2);
    }
  }

  lemma EvenSum(a: nat, b: nat)
    ensures (2 * a + 2 * b) % 2 == 0
  {
  }

  lemma PrefixSize(kind: Kind, h: Header, long: Long, ms: seq<Member>)
    requires Fits(h, long)
    ensures |Prefix(kind, h, long, ms, true)| == Start(kind, ms)
  {
    hide SymBody, SymSize, StrTab, Padded, NamesOf, StringTable.Flatten;
    SymBodySize(kind, h, long, ms);
    if StrTab(kind, ms).Some? {
      PaddedIs(StrTab(kind, ms).value, 0x0a);
    }
  }

  /** Each symbol's offset is where its member's header begins in the archive as written, modulo 2^32. */
  lemma OffsetIsPosition(kind: Kind, h: Header, long: Long, ms: seq<Member>, k: nat)
    requires Fits(h, long) && k < |SymsOf(ms)|
    ensures |OffsetsOf(kind, ms, Start(kind, ms))| == |SymsOf(ms)| && SymsOf(ms)[k].member < |ms|
    ensures var i, out := SymsOf(ms)[k].member, Prefix(kind, h, long, ms, true) + Bodies(kind, h, ms);
            var p := Start(kind, ms) + Extents(kind, ms[..i]);
            && OffsetsOf(kind, ms, Start(kind, ms))[k] == p % WORD_MOD
            && p + Extent(kind, ms[i]) <= |out|
            && out[p..p + Extent(kind, ms[i])] == MemberBytes(kind, h, ms[i])
  {
    hide Prefix, Start, Bodies, MemberBytes, Extent, Extents, OffsetsOf, SymsOf;
    OffsetOf(kind, ms, Start(kind, ms));
    PrefixSize(kind, h, long, ms);
    var i := SymsOf(ms)[k].member;
    BodyAt(kind, h, long, ms, i);
    var q, n := Extents(kind, ms[..i]), Extent(kind, ms[i]);
    var a, b := Prefix(kind, h, long, ms, true), Bodies(kind, h, ms);
    assert (a + b)[|a| + q..|a| + q + n] == b[q..q + n];
  }

  /** `ac_create_ar`: fresh tables, their offsets fixed up, then everything written in order. */
  method CreateAr(h: Header, long: Long, ms: seq<Member>) returns (out: seq<byte>)
    requires Fits(h, long)
    ensures out == Prefix(SVR4, h, long, ms, true) + Bodies(SVR4, h, ms)
  {
    hide SymBody, PaddedStrTab, Entry, MemberBytes, OffsetsOf, NamesOf, StringTable.Flatten, Padded, Start;
    var t := new Tables();
    t.Gather(SVR4, ms);
    t.Sync(SVR4, ms);
    SymBodyIs(long, ms);
    out := Armag() + Entry(h, SYMTAB_SVR4, Svr4Body(t.so, t.sn));
    if t.strs.Some? {
      out := out + Entry(h, STRTAB_SVR4, t.strs.value);
    }
    assert out == Prefix(SVR4, h, long, ms, true);
    out := WriteMembers(SVR4, h, out, ms, false);
  }

  lemma SymBodyIs(long: Long, ms: seq<Member>)
    ensures SymBody(SVR4, long, ms) ==
            Svr4Body(OffsetsOf(SVR4, ms, Start(SVR4, ms)), Padded(StringTable.Flatten(NamesOf(ms)), 0))
  {
  }

  /** Members whose image can be had: those that are not empty. */
  function Written(ms: seq<Member>): seq<Member> {
    if ms == [] then []
    else Written(ms[..|ms| - 1]) + (if ms[|ms| - 1].data != [] then [ms[|ms| - 1]] else [])
  }

  lemma {:induction false} AllWritten(ms: seq<Member>)
    requires forall i :: 0 <= i < |ms| ==> ms[i].data != []
    ensures Written(ms) == ms
  {
    if ms != [] {
      AllWritten(ms[..|ms| - 1]);
    }
  }

  /** The writing loop; ar leaves out members of which `elf_rawfile` has no image. */
  method WriteMembers(kind: Kind, h: Header, start: seq<byte>, ms: seq<Member>, skip: bool) returns (out: seq<byte>)
    ensures out == start + Bodies(kind, h, if skip then Written(ms) else ms)
  {
    hide MemberBytes, Bodies, Chosen;
    out := start;
    ChosenNone(kind, h, ms, skip);
    for i := 0 to |ms|
      invariant out == start + Bodies(kind, h, Chosen(ms[..i], skip))
    {
      ChosenStep(ms, i, skip);
      if !skip || ms[i].data != [] {
        BodiesSnoc(kind, h, Chosen(ms[..i], skip), ms[i]);
        out := out + MemberBytes(kind, h, ms[i]);
      }
    }
    ChosenAll(ms, skip);
  }

  function Chosen(ms: seq<Member>, skip: bool): seq<Member> { if skip then Written(ms) else ms }

  lemma ChosenNone(kind: Kind, h: Header, ms: seq<Member>, skip: bool)
    ensures Bodies(kind, h, Chosen(ms[..0], skip)) == []
  {
    assert ms[..0] == [];
  }

  lemma ChosenAll(ms: seq<Member>, skip: bool)
    ensures Chosen(ms[..|ms|], skip) == if skip then Written(ms) else ms
  {
    assert ms[..|ms|] == ms;
  }

  lemma ChosenStep(ms: seq<Member>, i: nat, skip: bool)
    requires i < |ms|
    ensures Chosen(ms[..i + 1], skip) ==
            if !skip || ms[i].data != [] then Chosen(ms[..i], skip) + [ms[i]] else Chosen(ms[..i], skip)
  {
    assert ms[..i + 1][..i] == ms[..i];
    assert Written(ms[..i]) + [] == Written(ms[..i]);
  }

  lemma BodiesSnoc(kind: Kind, h: Header, ms: seq<Member>, m: Member)
    ensures Bodies(kind, h, ms + [m]) == Bodies(kind, h, ms) + MemberBytes(kind, h, m)
  {
    assert (ms + [m])[..|ms|] == ms;
  }

  /** Members whose symbols are not to be listed (`ar -S`). */
  function Stripped(ms: seq<Member>): seq<Member> {
    seq(|ms|, i requires 0 <= i < |ms| => ms[i].(syms := []))
  }

  /** `write_objs` of ar, in either variant; `noTable` and `forceTable` are its options -S and -s. */
  method WriteObjs(kind: Kind, noTable: bool, forceTable: bool, h: Header, long: Long, ms: seq<Member>)
    returns (out: seq<byte>)
    requires Fits(h, long)
    ensures var listed := if noTable then Stripped(ms) else ms;
            var tabled := (NamesOf(listed) != [] && !noTable) || forceTable;
            out == Prefix(kind, h, long, listed, tabled) + Bodies(kind, h, Written(ms))
  {
    hide SymBody, PaddedStrTab, Entry, Bodies, OffsetsOf, NamesOf, StringTable.Flatten, Padded, Start, Svr4Body,
      BsdBody;
    var listed := if noTable then Stripped(ms) else ms;
    var t := new Tables();
    t.Gather(kind, listed);
    t.Sync(kind, listed);
    OffsetOf(kind, listed, Start(kind, listed));
    out := Armag();
    ghost var tabled := (|t.so| != 0 && !noTable) || forceTable;
    if (|t.so| != 0 && !noTable) || forceTable {
      SymBodyCases(kind, long, listed);
      var body;
      if kind == BSD {
        body := WriteBsdSymtab(long, t.so, t.sn, NamesOf(listed));
      } else {
        body := Svr4Body(t.so, t.sn);
      }
      out := out + Entry(h, SymName(kind), body);
    }
    if t.strs.Some? {
      out := out + Entry(h, STRTAB_SVR4, t.strs.value);
    }
    assert out == Prefix(kind, h, long, listed, tabled);
    out := WriteMembers(kind, h, out, ms, true);
  }

  lemma SymBodyCases(kind: Kind, long: Long, ms: seq<Member>)
    ensures |OffsetsOf(kind, ms, Start(kind, ms))| == |NamesOf(ms)|
    ensures var so, sn := OffsetsOf(kind, ms, Start(kind, ms)), Padded(StringTable.Flatten(NamesOf(ms)), 0);
            SymBody(kind, long, ms) == if kind.BSD? then BsdBody(long, so, NamesOf(ms), sn) else Svr4Body(so, sn)
  {
    OffsetOf(kind, ms, Start(kind, ms));
  }

  lemma {:induction false} WrittenAt(ms: seq<Member>, i: nat)
    requires i < |ms| && ms[i].data != []
    ensures var w := |Written(ms[..i])|;
            w < |Written(ms)| && Written(ms)[w] == ms[i] && Written(ms)[..w] == Written(ms[..i])
  {
    var n := |ms| - 1;
    if i < n {
      WrittenAt(ms[..n], i);
      assert ms[..n][..i] == ms[..i];
    }
  }

  lemma WrittenSnoc(ms: seq<Member>, m: Member)
    ensures Written([]) == [] && Written(ms + [m]) == if m.data != [] then Written(ms) + [m] else Written(ms)
  {
    assert (ms + [m])[..|ms|] == ms;
    assert Written(ms) + [] == Written(ms);
  }

  lemma {:induction false} WrittenExtents(kind: Kind, ms: seq<Member>)
    ensures Extents(kind, Written(ms)) <= Extents(kind, ms)
    ensures Extents(kind, Written(ms)) == Extents(kind, ms) <==> forall j :: 0 <= j < |ms| ==> ms[j].data != []
  {
    hide Extent, Extents, Written;
    if ms == [] {
      assert Written(ms) == ms by {
        AllWritten(ms);
      }
    } else {
      var n := |ms| - 1;
      var front, m := ms[..n], ms[n];
      assert front + [m] == ms;
      WrittenExtents(kind, front);
      WrittenSnoc(front, m);
      ExtentsSnoc(kind, Written(front), m);
      ExtentsSnoc(kind, front, m);
      assert forall j :: 0 <= j < n ==> front[j] == ms[j];
    }
  }

  lemma ExtentsSnoc(kind: Kind, ms: seq<Member>, m: Member)
    ensures Extents(kind, ms + [m]) == Extents(kind, ms) + Extent(kind, m) && Extent(kind, m) > 0
  {
    assert (ms + [m])[..|ms|] == ms;
  }

  /** In ar's output a written member stands where its symbols' offsets say exactly when no member before
      it is empty. */
  lemma ArOffsetRightIff(kind: Kind, h: Header, long: Long, ms: seq<Member>, i: nat)
    requires Fits(h, long) && i < |ms| && ms[i].data != []
    ensures var start, p := Start(kind, ms), Extents(kind, Written(ms[..i]));
            var out := Prefix(kind, h, long, ms, true) + Bodies(kind, h, Written(ms));
            && start + p + Extent(kind, ms[i]) <= |out|
            && out[start + p..start + p + Extent(kind, ms[i])] == MemberBytes(kind, h, ms[i])
            && (start + p == start + Extents(kind, ms[..i]) <==> forall j :: 0 <= j < i ==> ms[j].data != [])
  {
    hide Prefix, Start, Bodies, MemberBytes, Extent, Extents, Written;
    PrefixSize(kind, h, long, ms);
    WrittenAt(ms, i);
    BodyAt(kind, h, long, Written(ms), |Written(ms[..i])|);
    WrittenExtents(kind, ms[..i]);
    var q, n := Extents(kind, Written(ms[..i])), Extent(kind, ms[i]);
    var a, b := Prefix(kind, h, long, ms, true), Bodies(kind, h, Written(ms));
    assert (a + b)[|a| + q..|a| + q + n] == b[q..q + n];
    assert forall j :: 0 <= j < i ==> ms[..i][j] == ms[j];
  }

  lemma LeftOutExtents()
    ensures var a, b := Member([97], [], []), Member([98], [4], [[102]]);
            && [a, b][..1] == [a] && Written([a]) == [] && Written([a, b]) == [b]
            && Extents(SVR4, []) == 0 && Extents(SVR4, [a]) == 60 && Extents(SVR4, [b]) == 62 && Extent(SVR4, b) == 62
  {
    var a, b := Member([97], [], []), Member([98], [4], [[102]]);
    assert [a, b][..1] == [a] && [a][..0] == [] && [b][..0] == [];
    assert Extent(SVR4, a) == 60 && Extent(SVR4, b) == 62;
  }

  /** An empty member in front: the one behind it stands 60 bytes before its symbols' offset. */
  lemma OffsetTooLarge(h: Header, long: Long)
    requires Fits(h, long)
    ensures var ms := [Member([97], [], []), Member([98], [4], [[102]])];
            var out, at := Prefix(SVR4, h, long, ms, true) + Bodies(SVR4, h, Written(ms)), Start(SVR4, ms);
            && at + 62 == |out| && out[at..] == MemberBytes(SVR4, h, ms[1])
            && Start(SVR4, ms) + Extents(SVR4, ms[..1]) == at + 60
  {
    hide Prefix, Start, Bodies, MemberBytes, Extents, Extent, Written;
    var ms := [Member([97], [], []), Member([98], [4], [[102]])];
    LeftOutExtents();
    PrefixSize(SVR4, h, long, ms);
    BodiesSize(SVR4, h, long, [ms[1]]);
    ArOffsetRightIff(SVR4, h, long, ms, 1);
    var out, at := Prefix(SVR4, h, long, ms, true) + Bodies(SVR4, h, Written(ms)), Start(SVR4, ms);
    assert out[at..] == out[at..at + 62];
  }

  // ---------- names, symbols and the magic string ----------

  lemma MagicIs()
    ensures |Armag()| == 8 && forall i :: 0 <= i < 8 ==> Armag()[i] == "!<arch>\n"[i] as int
  {
  }

  lemma {:induction false} LongNameHeld(kind: Kind, ms: seq<Member>, i: nat) returns (off: nat)
    requires i < |ms| && LongName(kind, ms[i].name)
    ensures off + |ms[i].name| + 2 <= |LongNames(kind, ms)|
    ensures LongNames(kind, ms)[off..off + |ms[i].name| + 2] == ms[i].name + [0x2f, 0x0a]
  {
    hide LongName;
    var n := |ms| - 1;
    if i < n {
      off := LongNameHeld(kind, ms[..n], i);
    } else {
      off := |LongNames(kind, ms[..n])|;
    }
  }

  /** SVR4: names of more than 15 bytes are in the name table, each with a slash and a newline, and there is a
      table only for them. */
  lemma NameTableHolds(ms: seq<Member>)
    ensures (exists i :: 0 <= i < |ms| && |ms[i].name| > 15) <==> StrTab(SVR4, ms).Some?
    ensures forall i :: 0 <= i < |ms| && |ms[i].name| > 15 ==>
              exists off {:trigger HeldIn(StrTab(SVR4, ms), ms[i].name, off)} ::
                HeldIn(StrTab(SVR4, ms), ms[i].name, off)
  {
    forall i | 0 <= i < |ms| && |ms[i].name| > 15
      ensures exists off {:trigger HeldIn(StrTab(SVR4, ms), ms[i].name, off)} ::
                HeldIn(StrTab(SVR4, ms), ms[i].name, off)
    {
      assert LongName(SVR4, ms[i].name);
      var off := LongNameHeld(SVR4, ms, i);
      assert HeldIn(StrTab(SVR4, ms), ms[i].name, off);
    }
  }

  ghost predicate HeldIn(table: Option<seq<byte>>, name: Name, off: int) {
    && table.Some? && 0 <= off && off + |name| + 2 <= |table.value|
    && table.value[off..off + |name| + 2] == name + [0x2f, 0x0a]
  }

  /** The bytes of a member: its header, in BSD archives a name of more than 16 bytes or with a space in it, its
      contents, and a newline to an even length. */
  lemma MemberOnDisk(kind: Kind, h: Header, m: Member)
    ensures var name := if kind.BSD? && (|m.name| > 16 || 0x20 in m.name) then m.name else [];
            MemberBytes(kind, h, m)
            == h(m.name, |m.data|) + name + m.data + (if (|name| + |m.data|) % 2 == 1 then [0x0a] else [])
  {
    var name := if kind.BSD? && (|m.name| > 16 || 0x20 in m.name) then m.name else [];
    assert Inline(kind, m) == name;
  }

  /** The symbols listed are those of the members that are not empty. */
  lemma {:induction false} SymbolsListed(ms: seq<Member>, x: Name)
    ensures x in NamesOf(ms) <==> exists i :: 0 <= i < |ms| && ms[i].data != [] && x in ms[i].syms
  {
    if ms != [] {
      var n := |ms| - 1;
      SymbolsListed(ms[..n], x);
      if i :| 0 <= i < n && ms[..n][i].data != [] && x in ms[..n][i].syms {
        assert ms[i].data != [] && x in ms[i].syms;
      }
      if i :| 0 <= i < |ms| && ms[i].data != [] && x in ms[i].syms {
        if i < n {
          assert ms[..n][i].data != [] && x in ms[..n][i].syms;
        }
      }
    }
  }
}
