/** Motorola S-records: the writer `create_srec` and the reader `create_elf_from_srec`
    (elfcopy/ascii.c). */
module SRecord {
  import opened Bytes
  import opened HexText
  import opened DataSections

  const NAME_MAX := 505

  // ---------- one record ----------

  /** `srec_write`'s address size: anything it does not know is four bytes. */
  function AddrSize(typ: char): nat {
    if typ == '0' || typ == '1' || typ == '5' || typ == '9' then 2
    else if typ == '2' || typ == '8' then 3
    else 4
  }

  /** The types `srec_read` accepts. */
  predicate Known(typ: char) {
    '0' <= typ <= '9' && typ != '4' && typ != '6'
  }

  predicate HasData(typ: char) { '0' <= typ <= '3' }

  function Body(typ: char, addr: nat, data: seq<byte>): seq<byte> {
    [(AddrSize(typ) + |data| + 1) % 256] + ToBE(addr, AddrSize(typ)) + data
  }

  /** `~checksum & 0xFF`. */
  function Invert(sum: nat): byte { 255 - sum % 256 }

  function Line(typ: char, addr: nat, data: seq<byte>): string {
    var body := Body(typ, addr, data);
    "S" + [typ] + Hex(body + [Invert(Sum(body))]) + "\r\n"
  }

  /** `srec_write`. */
  method SrecWrite(typ: char, addr: nat, buf: seq<byte>) returns (line: string)
    ensures line == Line(typ, addr, buf)
  {
    hide ToBE, Sum, Hex, Check, AddrSize;
    var asz := AddrSize(typ);
    var checksum := 0;
    line := "S" + [typ];
    line, checksum := WriteNum(line, asz + |buf| + 1, 1, checksum);
    line, checksum := WriteNum(line, addr, asz, checksum);
    line, checksum := WriteBuf(line, checksum, buf);
    ghost var count := [(asz + |buf| + 1) % 256];
    LowByte(asz + |buf| + 1);
    HexConcat(count, ToBE(addr, asz));
    HexConcat(count + ToBE(addr, asz), buf);
    SumConcat(count, ToBE(addr, asz));
    SumConcat(count + ToBE(addr, asz), buf);
    CheckFolds(0, Sum(count), Sum(ToBE(addr, asz)));
    CheckFolds(0, Sum(count) + Sum(ToBE(addr, asz)), Sum(buf));
    ghost var body := Body(typ, addr, buf);
    assert line == "S" + [typ] + Hex(body) && checksum == Check(0, Sum(body));
    InvertCheck(Sum(body));
    var ck, _ := WriteNum(line, Invert(checksum), 1, 0);
    OneByte(Invert(checksum));
    HexConcat(body, [Invert(checksum)]);
    line := ck + "\r\n";
  }

  /** A record as it is written: S, the type, the digits of the bytes, and a line end. The bytes are the number of
      those that follow, the address, the most significant byte first, the data, and one that makes them all add up
      to 255 modulo 256. */
  lemma LineOnTheWire(typ: char, addr: nat, data: seq<byte>) returns (bs: seq<byte>)
    ensures var a := if typ == '0' || typ == '1' || typ == '5' || typ == '9' then 2
                     else if typ == '2' || typ == '8' then 3 else 4;
            && |bs| == a + |data| + 2 && bs[0] == (|bs| - 1) % 256 && bs[1..1 + a] == ToBE(addr, a)
            && bs[1 + a..1 + a + |data|] == data && Sum(bs) % 256 == 255
    ensures var line := Line(typ, addr, data);
            && |line| == 2 * |bs| + 4 && line[..2] == ['S', typ] && line[2 * |bs| + 2..] == "\r\n"
            && forall k :: 0 <= k < |bs| ==> line[2 * k + 2] == DIGITS[bs[k] / 16] &&
                                                line[2 * k + 3] == DIGITS[bs[k] % 16]
  {
    hide Sum, Hex, ToBE;
    var body := Body(typ, addr, data);
    bs := body + [Invert(Sum(body))];
    SumSnoc(body, Invert(Sum(body)));
    AddsTo255(Sum(body));
    hide Invert;
    forall k | 0 <= k < |bs|
      ensures var line := Line(typ, addr, data);
              line[2 * k + 2] == DIGITS[bs[k] / 16] && line[2 * k + 3] == DIGITS[bs[k] % 16]
    {
      HexAt(bs, k);
    }
  }

  lemma AddsTo255(sum: nat)
    ensures (sum + Invert(sum)) % 256 == 255
  {
  }

  lemma LowByte(n: nat)
    ensures ToBE(n, 1) == [n % 256]
  {
    assert ToBE(n / 256, 0) == [];
  }

  lemma InvertCheck(sum: nat)
    ensures Invert(Check(0, sum)) == Invert(sum)
  {
  }

  datatype Rec = Rec(typ: char, addr: nat, data: seq<byte>)

  /** Data bytes announced by `count`; an impossible count wraps around as `uint64_t` does. */
  function DataLen(typ: char, count: nat): nat {
    if !HasData(typ) then 0
    else if count >= AddrSize(typ) + 1 then count - (AddrSize(typ) + 1)
    else count + 0x1_0000_0000_0000_0000 - (AddrSize(typ) + 1)
  }

  /** Count, address, data and checksum bytes of a record, in order; None when malformed. */
  function Fields(line: string): Option<seq<byte>> {
    var typ := At(line, 1);
    if !Known(typ) then None
    else match (ReadBytes(line, 2, 1), ReadBytes(line, 4, AddrSize(typ)))
    case (Some(count), Some(addr)) =>
      (
        var pos, n := 4 + 2 * AddrSize(typ), DataLen(typ, count[0]);
        match (ReadBytes(line, pos, n), ReadBytes(line, pos + 2 * n, 1))
        case (Some(data), Some(ck)) => Some(count + addr + data + ck)
        case _ => None
      )
    case _ => None
  }

  /** `srec_read`. */
  function Parse(line: string): Option<Rec> {
    match Fields(line)
    case None => None
    case Some(f) =>
      var typ, a := At(line, 1), AddrSize(At(line, 1));
      if |f| < a + 2 || f[|f| - 1] != Invert(Sum(f[..|f| - 1])) then None
      else Some(Rec(typ, FromBE(f[1..1 + a]), f[1 + a..|f| - 1]))
  }

  method SrecRead(line: string) returns (r: Option<Rec>)
    ensures r == Parse(line)
  {
    hide Sum, FromBE, ReadBytes, Check, AddrSize, Known;
    var typ := At(line, 1);
    var ok, len, count, sum := ReadNum(line, 2, 1, 0);
    if !ok { return None; }
    if !Known(typ) { return None; }
    OneOf(line, 2);
    var asz := AddrSize(typ);
    var ok2, addr;
    ok2, len, addr, sum := ReadNum(line, len, asz, sum);
    if !ok2 { return None; }
    var n := DataLen(typ, count);
    var ok3, data;
    ok3, len, data, sum := ReadData(line, len, n, sum);
    if !ok3 { return None; }
    var ok4, len4, ck, sum4 := ReadNum(line, len, 1, 0);
    if !ok4 { return None; }
    OneOf(line, 4 + 2 * asz + 2 * n);
    ghost var countB, addrB := ReadBytes(line, 2, 1).value, ReadBytes(line, 4, asz).value;
    SumOfFields(countB, addrB, data);
    FieldsApart(countB, addrB, data, ReadBytes(line, 4 + 2 * asz + 2 * n, 1).value);
    InvertCheck(Sum(countB + addrB + data));
    if ck != Invert(sum) { return None; }
    r := Some(Rec(typ, addr, data));
  }

  /** Where the address and the data stand among the fields. */
  lemma FieldsApart(count: seq<byte>, addr: seq<byte>, data: seq<byte>, ck: seq<byte>)
    requires |count| == 1 && |ck| == 1
    ensures var f := count + addr + data + ck;
            && |f| == 1 + |addr| + |data| + 1 && f[|f| - 1] == ck[0] && f[..|f| - 1] == count + addr + data
            && f[1..1 + |addr|] == addr && f[1 + |addr|..|f| - 1] == data
  {
  }

  lemma SumOfFields(count: seq<byte>, addr: seq<byte>, data: seq<byte>)
    ensures Check(Check(Check(0, Sum(count)), Sum(addr)), Sum(data)) == Check(0, Sum(count + addr + data))
  {
    hide Sum, Check;
    SumConcat(count, addr);
    SumConcat(count + addr, data);
    CheckFolds(0, Sum(count), Sum(addr));
    CheckFolds(0, Sum(count) + Sum(addr), Sum(data));
  }

  lemma FieldsOfLine(typ: char, addr: nat, data: seq<byte>)
    requires Known(typ) && AddrSize(typ) + |data| + 1 < 256 && (data != [] ==> HasData(typ))
    ensures var body := Body(typ, addr, data);
            var line := Line(typ, addr, data);
            Fields(line) == Some(body + [Invert(Sum(body))]) && At(line, 1) == typ
  {
    hide Sum, Invert, Hex, ReadBytes, ToBE, AddrSize, HasData, Known;
    var body, a := Body(typ, addr, data), AddrSize(typ);
    var all := body + [Invert(Sum(body))];
    var line := "S" + [typ] + Hex(all) + "\r\n";
    ReadsHex("S" + [typ], all, "\r\n");
    SubRead(line, 2, all, 0, 1);
    SubRead(line, 2, all, 1, a);
    SubRead(line, 2, all, 1 + a, |data|);
    SubRead(line, 2, all, 1 + a + |data|, 1);
    assert DataLen(typ, all[0]) == |data|;
    assert all == all[0..1] + all[1..1 + a] + all[1 + a..1 + a + |data|] + all[1 + a + |data|..1 + a + |data| + 1];
  }

  /** A written record is accepted and read back; the address keeps exactly the bytes it was given. */
  lemma ParseOfLine(typ: char, addr: nat, data: seq<byte>)
    requires Known(typ) && AddrSize(typ) + |data| + 1 < 256 && (data != [] ==> HasData(typ))
    ensures Parse(Line(typ, addr, data)) == Some(Rec(typ, FromBE(ToBE(addr, AddrSize(typ))), data))
  {
    hide Fields, Invert, Line, Body, ToBE, FromBE, Sum, AddrSize, HasData, Known;
    FieldsOfLine(typ, addr, data);
    PartsOfLine(typ, addr, data);
  }

  lemma PartsOfLine(typ: char, addr: nat, data: seq<byte>)
    ensures var body, a := Body(typ, addr, data), AddrSize(typ);
            var f := body + [Invert(Sum(body))];
            |f| == a + |data| + 2 && f[..|f| - 1] == body && f[1..1 + a] == ToBE(addr, a) && f[1 + a..|f| - 1] == data
  {
    hide Invert, ToBE, Sum, AddrSize;
    var body := Body(typ, addr, data);
    var f := body + [Invert(Sum(body))];
    assert f[..|f| - 1] == body;
  }

  // ---------- the data buffer ----------

  const DATA_BUFSZ := 256

  /** Hex pairs in a row from `pos`, up to `n`: the bytes that the data loop stores before it ends. */
  function Pairs(line: string, pos: nat, n: nat): (k: nat)
    ensures k <= n
    decreases n
  {
    if n == 0 || ReadPair(line, pos).None? then 0 else 1 + Pairs(line, pos + 2, n - 1)
  }

  lemma {:induction false} PairsUpTo(line: string, pos: nat, n: nat, m: nat)
    requires n <= m
    ensures Pairs(line, pos, n) == if Pairs(line, pos, m) < n then Pairs(line, pos, m) else n
    decreases n
  {
    hide ReadPair;
    if n > 0 && ReadPair(line, pos).Some? {
      PairsUpTo(line, pos + 2, n - 1, m - 1);
    }
  }

  /** The data loop stays within its buffer exactly when the count covers address and checksum, or the line
      has no more data pairs than the buffer holds. */
  lemma DataFitsIff(line: string, count: byte)
    requires ReadPair(line, 2) == Some(count) && HasData(At(line, 1))
    requires ReadBytes(line, 4, AddrSize(At(line, 1))).Some?
    ensures var typ, pos := At(line, 1), 4 + 2 * AddrSize(At(line, 1));
            Pairs(line, pos, DataLen(typ, count)) <= DATA_BUFSZ
            <==> count >= AddrSize(typ) + 1 || Pairs(line, pos, DATA_BUFSZ + 1) <= DATA_BUFSZ
  {
    hide ReadPair, ReadBytes, Pairs;
    var typ, pos := At(line, 1), 4 + 2 * AddrSize(At(line, 1));
    if count < AddrSize(typ) + 1 {
      PairsUpTo(line, pos, DATA_BUFSZ + 1, DataLen(typ, count));
    }
  }

  lemma {:induction false} ZeroPairs(line: string, pos: nat, n: nat)
    requires forall i :: pos <= i < pos + 2 * n ==> At(line, i) == '0'
    ensures Pairs(line, pos, n) == n
    decreases n
  {
    if n > 0 {
      assert At(line, pos) == '0' && At(line, pos + 1) == '0';
      ZeroPairs(line, pos + 2, n - 1);
    }
  }

  /** A count of zero before more data pairs than the buffer holds. */
  lemma CountTooSmall(digits: string)
    requires |digits| == 6 + 2 * (DATA_BUFSZ + 1) && forall i :: 0 <= i < |digits| ==> digits[i] == '0'
    ensures var line := "S1" + digits;
            && ReadPair(line, 2) == Some(0) && At(line, 1) == '1'
            && Pairs(line, 8, DataLen('1', 0)) > DATA_BUFSZ
  {
    hide Pairs, DataLen;
    var line := "S1" + digits;
    forall i | 2 <= i < |line|
      ensures At(line, i) == '0'
    {
      assert line[i] == digits[i - 2];
    }
    ZeroPairs(line, 8, DATA_BUFSZ + 1);
    LongCount();
    PairsUpTo(line, 8, DATA_BUFSZ + 1, DataLen('1', 0));
  }

  lemma LongCount()
    ensures DataLen('1', 0) > DATA_BUFSZ + 1
  {
  }

  // ---------- single-byte damage ----------

  lemma FieldPairs(line: string, k: nat)
    requires Fields(line).Some? && k < |Fields(line).value|
    ensures ReadPair(line, 2 + 2 * k) == Some(Fields(line).value[k])
  {
    hide ReadPair, ReadBytes, AddrSize, HasData, Known;
    var a := AddrSize(At(line, 1));
    var count, addr := ReadBytes(line, 2, 1).value, ReadBytes(line, 4, a).value;
    var n := DataLen(At(line, 1), count[0]);
    var data, ck := ReadBytes(line, 4 + 2 * a, n).value, ReadBytes(line, 4 + 2 * a + 2 * n, 1).value;
    var f := Fields(line).value;
    assert f == count + addr + data + ck;
    if k == 0 {
      ReadBytesEach(line, 2, 1, count);
      assert 2 + 2 * 0 == 2 + 2 * k;
    } else if k < 1 + a {
      ReadBytesEach(line, 4, a, addr);
      assert f[k] == addr[k - 1] && 4 + 2 * (k - 1) == 2 + 2 * k;
    } else if k < 1 + a + n {
      ReadBytesEach(line, 4 + 2 * a, n, data);
      assert f[k] == data[k - 1 - a] && 4 + 2 * a + 2 * (k - 1 - a) == 2 + 2 * k;
    } else {
      ReadBytesEach(line, 4 + 2 * a + 2 * n, 1, ck);
      assert f[k] == ck[0] && 4 + 2 * a + 2 * n + 2 * 0 == 2 + 2 * k;
    }
  }

  lemma FieldCount(line: string)
    requires Fields(line).Some?
    ensures ReadPair(line, 2).Some?
    ensures |Fields(line).value| == AddrSize(At(line, 1)) + DataLen(At(line, 1), ReadPair(line, 2).value) + 2
  {
    hide DataLen, AddrSize, Known;
    OneOf(line, 2);
  }

  /** Changing one pair of characters behind the count changes just that byte. */
  lemma OneByteDiffers(line: string, line': string, k: nat)
    requires Fields(line).Some? && Fields(line').Some? && 0 < k < |Fields(line).value|
    requires forall i :: 0 <= i && i != 2 + 2 * k && i != 3 + 2 * k ==> At(line', i) == At(line, i)
    requires ReadPair(line', 2 + 2 * k) != ReadPair(line, 2 + 2 * k)
    ensures |Fields(line').value| == |Fields(line).value|
    ensures Fields(line').value[k] != Fields(line).value[k]
    ensures Fields(line').value == Fields(line).value[k := Fields(line').value[k]]
  {
    hide Fields, DataLen, HexValue, IsHexDigit, AddrSize;
    var f, f' := Fields(line).value, Fields(line').value;
    FieldCount(line);
    FieldCount(line');
    assert ReadPair(line', 2) == ReadPair(line, 2);
    forall j | 0 <= j < |f|
      ensures j != k ==> f'[j] == f[j]
      ensures j == k ==> f'[j] != f[j]
    {
      FieldPairs(line, j);
      FieldPairs(line', j);
      if j != k {
        assert ReadPair(line', 2 + 2 * j) == ReadPair(line, 2 + 2 * j);
      }
    }
    assert f' == f[k := f'[k]];
  }

  /** An accepted record with one address, data or checksum byte changed is rejected. */
  lemma DamageIsRejected(line: string, line': string, k: nat)
    requires Parse(line).Some? && 0 < k < |Fields(line).value|
    requires forall i :: 0 <= i && i != 2 + 2 * k && i != 3 + 2 * k ==> At(line', i) == At(line, i)
    requires ReadPair(line', 2 + 2 * k) != ReadPair(line, 2 + 2 * k)
    ensures Parse(line').None?
  {
    hide Fields, Sum, AddrSize, ReadPair, Invert;
    if Fields(line').Some? {
      OneByteDiffers(line, line', k);
      var f, f' := Fields(line).value, Fields(line').value;
      var m := |f| - 1;
      if k < m {
        assert f'[..m] == f[..m][k := f'[k]];
        SumUpdate(f[..m], k, f'[k]);
        NotBothInverse(Sum(f[..m]), Sum(f'[..m]));
      } else {
        assert f'[..m] == f[..m];
      }
    }
  }

  lemma NotBothInverse(a: nat, b: nat)
    requires 0 < (if a < b then b - a else a - b) < 256
    ensures Invert(a) != Invert(b)
  {
  }

  // ---------- the writer ----------

  /** The largest section address decides the record type, unless S3 is forced. */
  function MaxAddr(secs: seq<ElfSec>): nat {
    if secs == [] then 0
    else
      var m, s := MaxAddr(secs[..|secs| - 1]), secs[|secs| - 1];
      if s.alloc && !s.nobits && s.data != [] && s.addr > m then s.addr else m
  }

  function DataType(secs: seq<ElfSec>, forceS3: bool): char {
    if forceS3 then '3'
    else if MaxAddr(secs) <= 0xFFFF then '1'
    else if MaxAddr(secs) <= 0xFF_FFFF then '2'
    else '3'
  }

  /** The record length: 16, or the requested one brought into range; it always fits the count byte. */
  function RecLen(forced: Option<nat>, dr: char): (n: nat)
    requires '1' <= dr <= '3'
    ensures 1 <= n <= 255 - (AddrSize(dr) + 1)
  {
    var a := (dr - '0') as nat + 1;
    if forced.None? then 16
    else if forced.value < 1 then 1
    else if forced.value + a + 1 > 255 then 255 - (a + 1)
    else forced.value
  }

  /** `srec_write_Sd`. */
  function DataLines(dr: char, addr: nat, data: seq<byte>, rlen: nat): seq<string>
    requires rlen > 0
    decreases |data|
  {
    if data == [] then []
    else if |data| < rlen then [Line(dr, addr, data)]
    else [Line(dr, addr, data[..rlen])] + DataLines(dr, addr + rlen, data[rlen..], rlen)
  }

  function SectionLines(dr: char, secs: seq<ElfSec>, rlen: nat): seq<string>
    requires rlen > 0
  {
    if secs == [] then []
    else
      var front, s := SectionLines(dr, secs[..|secs| - 1], rlen), secs[|secs| - 1];
      if Emitted(s) then front + DataLines(dr, s.addr, s.data, rlen) else front
  }

  /** `srec_write_Se`. */
  function EndLines(entry: nat, forceS3: bool): seq<string> {
    if entry > 0xFFFF_FFFF then []
    else [Line(if forceS3 || entry > 0xFF_FFFF then '7' else if entry > 0xFFFF then '8' else '9', entry, [])]
  }

  method WriteData(out0: seq<string>, dr: char, addr0: nat, data: seq<byte>, rlen: nat) returns (out: seq<string>)
    requires rlen > 0
    ensures out == out0 + DataLines(dr, addr0, data, rlen)
  {
    hide Line;
    var addr: nat, p: nat := addr0, 0;
    out := out0;
    while |data| - p >= rlen
      invariant p <= |data|
      invariant out + DataLines(dr, addr, data[p..], rlen) == out0 + DataLines(dr, addr0, data, rlen)
    {
      ghost var rest := data[p..];
      assert rest[..rlen] == data[p..p + rlen] && rest[rlen..] == data[p + rlen..];
      var line := SrecWrite(dr, addr, data[p..p + rlen]);
      out := out + [line];
      addr, p := addr + rlen, p + rlen;
    }
    if |data| - p > 0 {
      var line := SrecWrite(dr, addr, data[p..]);
      out := out + [line];
    }
  }

  /** `create_srec`, without the symbol block of the `symbolsrec` target. */
  method CreateSrec(name: seq<byte>, secs: seq<ElfSec>, entry: nat, forceS3: bool, forced: Option<nat>)
    returns (out: seq<string>)
    ensures var dr := DataType(secs, forceS3);
            out == [Line('0', 0, name)] + SectionLines(dr, secs, RecLen(forced, dr)) + EndLines(entry, forceS3)
  {
    hide Line, DataLines;
    var max := 0;
    for i := 0 to |secs|
      invariant max == MaxAddr(secs[..i])
    {
      var s := secs[i];
      assert secs[..i + 1][..i] == secs[..i];
      if s.alloc && !s.nobits && s.data != [] && s.addr > max {
        max := s.addr;
      }
    }
    assert secs[..|secs|] == secs;
    var dr := if forceS3 then '3' else if max <= 0xFFFF then '1' else if max <= 0xFF_FFFF then '2' else '3';
    var rlen := RecLen(forced, dr);
    var s0 := SrecWrite('0', 0, name);
    out := [s0];
    for i := 0 to |secs|
      invariant out == [s0] + SectionLines(dr, secs[..i], rlen)
    {
      assert secs[..i + 1][..i] == secs[..i];
      if Emitted(secs[i]) {
        out := WriteData(out, dr, secs[i].addr, secs[i].data, rlen);
      }
    }
    assert secs[..|secs|] == secs;
    if entry <= 0xFFFF_FFFF {
      var er := if forceS3 then '7' else if entry <= 0xFFFF then '9' else if entry <= 0xFF_FFFF then '8' else '7';
      var last := SrecWrite(er, entry, []);
      out := out + [last];
    }
  }

  // ---------- the reader ----------

  /** `inSym`: inside a `$$` symbol block, which the first scan skips. */
  datatype Reader = Reader(secs: seq<Sec>, entry: nat, inSym: bool)

  const START := Reader([], 0, false)

  function StepRec(st: Reader, r: Rec): Reader {
    if '1' <= r.typ <= '3' then (if r.data == [] then st else st.(secs := Append(st.secs, r.addr, r.data)))
    else if '7' <= r.typ <= '9' then st.(entry := r.addr)
    else st
  }

  function StepLine(st: Reader, line: string): Reader {
    var dollars := At(line, 0) == '$' && At(line, 1) == '$';
    if st.inSym then (if dollars then st.(inSym := false) else st)
    else if At(line, 0) == '\r' || At(line, 0) == '\n' then st
    else if dollars then st.(inSym := true)
    else if At(line, 0) != 'S' || !('0' <= At(line, 1) <= '9') then st
    else match Parse(line) case None => st case Some(r) => StepRec(st, r)
  }

  /** The first scan of `create_elf_from_srec`. */
  method ReadSrec(text: string) returns (secs: seq<Sec>, entry: nat)
    ensures var st := Fold(StepLine, START, Lines(text)); secs == st.secs && entry == st.entry
  {
    hide Parse, LineLen;
    var st, rest := START, text;
    ghost var read: seq<string> := [];
    while rest != []
      invariant Lines(text) == read + Lines(rest) && st == Fold(StepLine, START, read)
      decreases |rest|
    {
      var line := rest[..LineLen(rest)];
      rest := rest[LineLen(rest)..];
      assert (read + [line])[..|read|] == read;
      ghost var was := read;
      read := read + [line];
      assert Lines(text) == was + ([line] + Lines(rest)) == read + Lines(rest);
      var dollars := At(line, 0) == '$' && At(line, 1) == '$';
      if st.inSym {
        if dollars {
          st := st.(inSym := false);
        }
        continue;
      }
      if At(line, 0) == '\r' || At(line, 0) == '\n' {
        continue;
      }
      if dollars {
        st := st.(inSym := true);
        continue;
      }
      if At(line, 0) != 'S' || !('0' <= At(line, 1) <= '9') {
        continue;
      }
      var r := SrecRead(line);
      if r.Some? {
        st := StepRec(st, r.value);
      }
    }
    assert read + Lines(rest) == read;
    secs, entry := st.secs, st.entry;
  }

  // ---------- reading back what was written ----------

  lemma StepWritten(st: Reader, typ: char, addr: nat, data: seq<byte>)
    requires !st.inSym && Known(typ) && AddrSize(typ) + |data| + 1 < 256 && (data != [] ==> HasData(typ))
    ensures StepLine(st, Line(typ, addr, data)) ==
            StepRec(st, Rec(typ, FromBE(ToBE(addr, AddrSize(typ))), data))
  {
    hide Parse, FromBE, ToBE, AddrSize, StepRec, HasData, Body, Invert, Sum, Hex;
    ParseOfLine(typ, addr, data);
  }

  lemma Powers()
    ensures Pow256(2) == 0x1_0000 && Pow256(3) == 0x100_0000 && Pow256(4) == 0x1_0000_0000
  {
    assert Pow256(1) == 256;
  }

  /** The end record always carries the whole entry point; beyond 32 bits there is none. */
  lemma StepEnd(st: Reader, entry: nat, forceS3: bool)
    requires !st.inSym
    ensures Fold(StepLine, st, EndLines(entry, forceS3))
            == st.(entry := if entry > 0xFFFF_FFFF then st.entry else entry)
  {
    hide StepLine, Line, FromBE, ToBE;
    if entry <= 0xFFFF_FFFF {
      var er := if forceS3 || entry > 0xFF_FFFF then '7' else if entry > 0xFFFF then '8' else '9';
      StepWritten(st, er, entry, []);
      FoldOne(StepLine, st, Line(er, entry, []));
      FromToBE(entry, AddrSize(er));
      Powers();
    }
  }

  /** The S0 record is passed over, whatever its count byte says. */
  lemma StepHeader(st: Reader, name: seq<byte>)
    requires !st.inSym
    ensures StepLine(st, Line('0', 0, name)) == st
  {
    hide Fields, Body, Invert, Sum, Hex;
    assert At(Line('0', 0, name), 1) == '0';
  }

  /** Every chunk of a section starts at an address the record type can hold. */
  predicate ChunksFit(dr: char, addr: nat, n: nat, rlen: nat)
    requires rlen > 0
    decreases n
  {
    n == 0 || (addr < Pow256(AddrSize(dr)) && (n > rlen ==> ChunksFit(dr, addr + rlen, n - rlen, rlen)))
  }

  predicate Fits(dr: char, secs: seq<ElfSec>, rlen: nat)
    requires rlen > 0
  {
    secs == [] ||
    var s := secs[|secs| - 1];
    Fits(dr, secs[..|secs| - 1], rlen) && (Emitted(s) ==> ChunksFit(dr, s.addr, |s.data|, rlen))
  }

  /** A chunk whose start fits lands at its address; one that does not lands elsewhere. */
  lemma StepChunk(st: Reader, dr: char, addr: nat, chunk: seq<byte>)
    requires !st.inSym && '1' <= dr <= '3' && chunk != [] && AddrSize(dr) + |chunk| + 1 < 256
    ensures StepLine(st, Line(dr, addr, chunk)) ==
            st.(secs := Append(st.secs, FromBE(ToBE(addr, AddrSize(dr))), chunk))
    ensures FromBE(ToBE(addr, AddrSize(dr))) == addr <==> addr < Pow256(AddrSize(dr))
  {
    hide StepLine, Line, FromBE, ToBE, AddrSize, Append, Pow256;
    StepWritten(st, dr, addr, chunk);
    FromToBE(addr, AddrSize(dr));
  }

  lemma StepGrows(st: Reader, line: string)
    ensures Stream(st.secs) <= Stream(StepLine(st, line).secs)
  {
    hide Parse, Append, Stream;
    var p := Parse(line);
    if p.Some? {
      StreamAppend(st.secs, p.value.addr, p.value.data);
    }
  }

  lemma StreamGrows(st: Reader, lines: seq<string>)
    ensures Stream(st.secs) <= Stream(Fold(StepLine, st, lines).secs)
  {
    hide StepLine, Stream, Fold;
    forall s: Reader, line: string
      ensures Stream(s.secs) <= Stream(StepLine(s, line).secs)
    {
      StepGrows(s, line);
    }
    FoldGrows(StepLine, (s: Reader) => Stream(s.secs), st, lines);
  }

  /** One section: an exact run when its chunks fit, a misplaced byte when one does not. */
  lemma {:induction false} RunData(st: Reader, dr: char, addr: nat, data: seq<byte>, rlen: nat)
    requires !st.inSym && '1' <= dr <= '3' && 1 <= rlen <= 255 - (AddrSize(dr) + 1) && data != []
    ensures var st' := Fold(StepLine, st, DataLines(dr, addr, data, rlen));
            && !st'.inSym && st'.entry == st.entry
            && (ChunksFit(dr, addr, |data|, rlen) ==> st'.secs == Append(st.secs, addr, data))
            && (!ChunksFit(dr, addr, |data|, rlen) ==>
                  Differ(Stream(st'.secs), Stream(st.secs) + Cells(addr, data)))
    decreases |data|
  {
    hide Fold, StepLine, Line, Append, AddrSize, Stream, Differ, FromBE, ToBE, Pow256;
    var chunk := if |data| < rlen then data else data[..rlen];
    var rest := data[|chunk|..];
    var line, more := Line(dr, addr, chunk), DataLines(dr, addr + |chunk|, rest, rlen);
    assert DataLines(dr, addr, data, rlen) == [line] + more;
    FoldConcat(StepLine, st, [line], more);
    FoldOne(StepLine, st, line);
    StepChunk(st, dr, addr, chunk);
    var at := FromBE(ToBE(addr, AddrSize(dr)));
    var st1 := Fold(StepLine, st, [line]);
    StreamAppend(st.secs, at, chunk);
    assert chunk + rest == data;
    CellsConcat(addr, chunk, rest);
    if rest == [] {
      FoldNone(StepLine, st1);
      assert chunk == data && more == [];
    } else {
      RunData(st1, dr, addr + |chunk|, rest, rlen);
      AppendTwice(st.secs, addr, chunk, rest);
    }
    if at != addr {
      StreamGrows(st1, more);
      FirstCellWrong(Stream(st.secs), at, chunk, addr, data, Stream(Fold(StepLine, st1, more).secs));
    } else if rest != [] && !ChunksFit(dr, addr + |chunk|, |rest|, rlen) {
      assert Stream(st1.secs) + Cells(addr + |chunk|, rest) == Stream(st.secs) + Cells(addr, data);
    }
  }

  lemma {:induction false} RunSections(st: Reader, dr: char, secs: seq<ElfSec>, rlen: nat)
    requires st == START && '1' <= dr <= '3' && 1 <= rlen <= 255 - (AddrSize(dr) + 1)
    ensures var st' := Fold(StepLine, st, SectionLines(dr, secs, rlen));
            && !st'.inSym && st'.entry == 0
            && (Fits(dr, secs, rlen) ==> st'.secs == Coalesce(secs))
            && (!Fits(dr, secs, rlen) ==> Differ(Stream(st'.secs), Source(secs)))
  {
    hide Fold, StepLine, Line, DataLines, Append, AddrSize, Stream, Differ;
    if secs == [] {
      FoldNone(StepLine, st);
    } else {
      var front, s := secs[..|secs| - 1], secs[|secs| - 1];
      RunSections(st, dr, front, rlen);
      CoalesceStream(front);
      if Emitted(s) {
        var st1, lines := Fold(StepLine, st, SectionLines(dr, front, rlen)), DataLines(dr, s.addr, s.data, rlen);
        FoldConcat(StepLine, st, SectionLines(dr, front, rlen), lines);
        RunData(st1, dr, s.addr, s.data, rlen);
        if !Fits(dr, front, rlen) {
          StreamGrows(st1, lines);
          DifferGrows(Stream(st1.secs), Source(front), Stream(Fold(StepLine, st1, lines).secs), Source(secs));
        }
      }
    }
  }

  lemma LineIsOneLine(typ: char, addr: nat, data: seq<byte>)
    requires typ != '\n' && |data| <= NAME_MAX && (AddrSize(typ) == 2 || |data| <= 255)
    ensures OneLine(Line(typ, addr, data))
  {
    hide Invert, Sum, Hex, ToBE;
    var body := Body(typ, addr, data);
    var all := body + [Invert(Sum(body))];
    HexHasNoNewline(all);
    var line := Line(typ, addr, data);
    assert line[..|line| - 1] == "S" + [typ] + Hex(all) + "\r";
  }

  lemma {:induction false} DataLinesAreLines(dr: char, addr: nat, data: seq<byte>, rlen: nat)
    requires '1' <= dr <= '3' && 0 < rlen < 256
    ensures AllOneLine(DataLines(dr, addr, data, rlen))
    decreases |data|
  {
    hide OneLine, Line, AddrSize;
    if 0 < |data| < rlen {
      LineIsOneLine(dr, addr, data);
    } else if |data| >= rlen {
      LineIsOneLine(dr, addr, data[..rlen]);
      DataLinesAreLines(dr, addr + rlen, data[rlen..], rlen);
    }
  }

  lemma {:induction false} SectionLinesAreLines(dr: char, secs: seq<ElfSec>, rlen: nat)
    requires '1' <= dr <= '3' && 0 < rlen < 256
    ensures AllOneLine(SectionLines(dr, secs, rlen))
  {
    hide OneLine, DataLines;
    if secs != [] {
      var s := secs[|secs| - 1];
      SectionLinesAreLines(dr, secs[..|secs| - 1], rlen);
      DataLinesAreLines(dr, s.addr, s.data, rlen);
    }
  }

  /** Reading the written file gives the same ordered (address, byte) stream exactly when every chunk
      address fits the chosen record type; then the result is the coalesced sections. The entry point
      comes back in any case, or reads as 0 when it is beyond 32 bits. */
  lemma RoundTrip(name: seq<byte>, secs: seq<ElfSec>, entry: nat, forceS3: bool, forced: Option<nat>)
    requires |name| <= NAME_MAX
    ensures var dr := DataType(secs, forceS3);
            var rlen := RecLen(forced, dr);
            var file := [Line('0', 0, name)] + SectionLines(dr, secs, rlen) + EndLines(entry, forceS3);
            var st := Fold(StepLine, START, Lines(Join(file)));
            && (Stream(st.secs) == Source(secs) <==> Fits(dr, secs, rlen))
            && (Fits(dr, secs, rlen) ==> st.secs == Coalesce(secs))
            && st.entry == if entry > 0xFFFF_FFFF then 0 else entry
  {
    hide StepLine, SectionLines, Fold, Stream, Line, Differ, Fits, MaxAddr, EndLines;
    var dr := DataType(secs, forceS3);
    var rlen := RecLen(forced, dr);
    var head, data, end := [Line('0', 0, name)], SectionLines(dr, secs, rlen), EndLines(entry, forceS3);
    LineIsOneLine('0', 0, name);
    SectionLinesAreLines(dr, secs, rlen);
    EndLinesAreLines(entry, forceS3);
    LinesOfJoin(head + data + end);
    FoldConcat(StepLine, START, head, data);
    FoldConcat(StepLine, START, head + data, end);
    FoldOne(StepLine, START, head[0]);
    StepHeader(START, name);
    RunSections(START, dr, secs, rlen);
    CoalesceStream(secs);
    var st := Fold(StepLine, START, data);
    StepEnd(st, entry, forceS3);
    if !Fits(dr, secs, rlen) {
      DifferMeansUnequal(Stream(st.secs), Source(secs));
    }
  }

  lemma EndLinesAreLines(entry: nat, forceS3: bool)
    ensures AllOneLine(EndLines(entry, forceS3))
  {
    hide OneLine, Line;
    LineIsOneLine('7', entry, []);
    LineIsOneLine('8', entry, []);
    LineIsOneLine('9', entry, []);
  }

  /** The type goes by where sections start: the second record of this one does not fit S1. */
  lemma EndTooHigh(data: seq<byte>)
    requires |data| == 32
    ensures var secs := [ElfSec(true, false, 0xFFF0, data)];
            DataType(secs, false) == '1' && !Fits('1', secs, RecLen(None, '1'))
  {
    var s := ElfSec(true, false, 0xFFF0, data);
    assert [s][..0] == [];
    assert MaxAddr([]) == 0 && MaxAddr([s]) == 0xFFF0;
    Powers();
    hide Pow256;
    assert !ChunksFit('1', 0x1_0000, 16, 16);
  }

  /** A section that ends within the address range of the record type fits, whatever the record length. */
  lemma {:induction false} WholeSectionFits(dr: char, addr: nat, n: nat, rlen: nat)
    requires rlen > 0 && addr + n <= Pow256(AddrSize(dr))
    ensures ChunksFit(dr, addr, n, rlen)
    decreases n
  {
    if n > rlen {
      WholeSectionFits(dr, addr + rlen, n - rlen, rlen);
    }
  }

  // ---------- records the writer does not make ----------

  predicate Dollars(line: string) { |line| >= 2 && line[0] == '$' && line[1] == '$' }

  lemma {:induction false} BlockStays(st: Reader, inside: seq<string>)
    requires st.inSym && forall i :: 0 <= i < |inside| ==> !Dollars(inside[i])
    ensures Fold(StepLine, st, inside) == st
  {
    hide Parse;
    if inside != [] {
      BlockStays(st, inside[..|inside| - 1]);
    }
  }

  /** Lines between two that start with two dollar signs are passed over, whatever they hold. */
  lemma SymbolBlockSkipped(st: Reader, open: string, inside: seq<string>, close: string)
    requires !st.inSym && Dollars(open) && Dollars(close) && forall i :: 0 <= i < |inside| ==> !Dollars(inside[i])
    ensures Fold(StepLine, st, [open] + inside + [close]) == st
  {
    hide Parse;
    var st1 := st.(inSym := true);
    assert StepLine(st, open) == st1 && StepLine(st1, close) == st;
    hide StepLine;
    FoldConcat(StepLine, st, [open] + inside, [close]);
    FoldConcat(StepLine, st, [open], inside);
    FoldOne(StepLine, st, open);
    BlockStays(st1, inside);
    FoldOne(StepLine, st1, close);
  }

  /** Each kind of record: data, entry point, and those that are passed over. */
  lemma RecordsRead(st: Reader, typ: char, addr: nat, data: seq<byte>)
    requires !st.inSym && typ in ['0', '1', '2', '3', '5', '7', '8', '9']
    requires AddrSize(typ) + |data| + 1 < 256 && (data != [] ==> HasData(typ))
    ensures var a := FromBE(ToBE(addr, AddrSize(typ)));
            StepLine(st, Line(typ, addr, data))
            == if typ == '7' || typ == '8' || typ == '9' then st.(entry := a)
               else if (typ == '1' || typ == '2' || typ == '3') && data != [] then st.(secs := Append(st.secs, a, data))
               else st
  {
    hide StepLine, Line, FromBE, ToBE, Append, AddrSize;
    StepWritten(st, typ, addr, data);
  }

  lemma KnownType(line: string)
    ensures Fields(line).Some? ==> Known(At(line, 1))
  {
    hide ReadBytes;
  }

  /** No other type is accepted, and a line that is not accepted changes nothing outside a symbol block. */
  lemma OthersRefused(st: Reader, line: string)
    requires !st.inSym && (At(line, 0) != '$' || At(line, 1) != '$')
    ensures Parse(line).Some? ==> At(line, 1) in ['0', '1', '2', '3', '5', '7', '8', '9']
    ensures StepLine(st, line) != st ==> At(line, 0) == 'S' && Parse(line).Some? && At(line, 1) !in ['0', '5']
  {
    KnownType(line);
    hide Fields, Sum, FromBE, Append;
  }

  // ---------- which sections are written ----------

  /** Taking out a section that is not loaded, has no contents or is empty changes no line and not the type. */
  lemma {:induction false} NotWrittenLeavesNoTrace(a: seq<ElfSec>, s: ElfSec, b: seq<ElfSec>, dr: char, rlen: nat)
    requires NotWritten(s) && rlen > 0
    ensures SectionLines(dr, a + [s] + b, rlen) == SectionLines(dr, a + b, rlen)
            && MaxAddr(a + [s] + b) == MaxAddr(a + b)
    decreases |b|
  {
    hide DataLines;
    if b == [] {
      assert (a + [s])[..|a|] == a && a + [s] + [] == a + [s] && a + [] == a;
    } else {
      var front := b[..|b| - 1];
      NotWrittenLeavesNoTrace(a, s, front, dr, rlen);
      assert (a + [s] + b)[..|a + [s] + b| - 1] == a + [s] + front && (a + b)[..|a + b| - 1] == a + front;
    }
  }

  lemma {:induction false} MaxAddrIs(secs: seq<ElfSec>, limit: nat)
    ensures MaxAddr(secs) <= limit
            <==> forall i :: 0 <= i < |secs| && secs[i].alloc && !secs[i].nobits && secs[i].data != [] ==>
                   secs[i].addr <= limit
  {
    if secs != [] {
      var n := |secs| - 1;
      MaxAddrIs(secs[..n], limit);
      assert forall i :: 0 <= i < n ==> secs[..n][i] == secs[i];
    }
  }

  ghost predicate StartsWithin(secs: seq<ElfSec>, limit: nat) {
    forall i :: 0 <= i < |secs| && secs[i].alloc && !secs[i].nobits && secs[i].data != [] ==> secs[i].addr <= limit
  }

  /** The type is the smallest that holds every start address, or S3 when that is asked for. */
  lemma TypeChosen(secs: seq<ElfSec>, forceS3: bool)
    ensures DataType(secs, forceS3) == '1' <==> !forceS3 && StartsWithin(secs, 0xFFFF)
    ensures DataType(secs, forceS3) == '2' <==> !forceS3 && !StartsWithin(secs, 0xFFFF) && StartsWithin(secs, 0xFF_FFFF)
    ensures DataType(secs, forceS3) == '3' <==> forceS3 || !StartsWithin(secs, 0xFF_FFFF)
  {
    MaxAddrIs(secs, 0xFFFF);
    MaxAddrIs(secs, 0xFF_FFFF);
    hide MaxAddr;
  }

  /** The length asked for is used when a record can have it; the default is 16. */
  lemma LengthChosen(forced: Option<nat>, dr: char)
    requires '1' <= dr <= '3'
    ensures var most := 255 - (if dr == '1' then 2 else if dr == '2' then 3 else 4) - 1;
            && (forced.None? ==> RecLen(forced, dr) == 16)
            && (forced.Some? && 1 <= forced.value <= most ==> RecLen(forced, dr) == forced.value)
            && (forced.Some? && forced.value > most ==> RecLen(forced, dr) == most)
            && (forced == Some(0) ==> RecLen(forced, dr) == 1)
  {
  }

  /** For loaded sections that end within the range of the type used the bytes read back are exactly theirs. */
  lemma LoadedBytesComeBack(name: seq<byte>, secs: seq<ElfSec>, entry: nat, forceS3: bool, forced: Option<nat>)
    requires |name| <= NAME_MAX
    requires var top := if forceS3 || !StartsWithin(secs, 0xFF_FFFF) then 0x1_0000_0000
                        else if StartsWithin(secs, 0xFFFF) then 0x1_0000 else 0x100_0000;
             forall i :: 0 <= i < |secs| && secs[i].alloc && !secs[i].nobits && secs[i].addr <= 0xFFFF_FFFF ==>
               secs[i].addr + |secs[i].data| <= top
    ensures var dr := DataType(secs, forceS3);
            var file := [Line('0', 0, name)] + SectionLines(dr, secs, RecLen(forced, dr)) + EndLines(entry, forceS3);
            var st := Fold(StepLine, START, Lines(Join(file)));
            forall a: nat, b: byte :: (a, b) in Stream(st.secs) <==> HoldsByte(secs, a, b)
  {
    hide StepLine, SectionLines, Fold, Stream, Line, EndLines, Fits, MaxAddr, StartsWithin, RecLen;
    var dr := DataType(secs, forceS3);
    var rlen := RecLen(forced, dr);
    RoundTrip(name, secs, entry, forceS3, forced);
    TypeChosen(secs, forceS3);
    Powers();
    hide Pow256;
    AllFit(dr, secs, rlen);
    forall a: nat, b: byte
      ensures (a, b) in Source(secs) <==> HoldsByte(secs, a, b)
    {
      SourceHolds(secs, a, b);
    }
  }

  lemma {:induction false} AllFit(dr: char, secs: seq<ElfSec>, rlen: nat)
    requires rlen > 0
    requires forall i :: 0 <= i < |secs| && secs[i].alloc && !secs[i].nobits && secs[i].addr <= 0xFFFF_FFFF ==>
               secs[i].addr + |secs[i].data| <= Pow256(AddrSize(dr))
    ensures Fits(dr, secs, rlen)
  {
    hide Pow256, ChunksFit;
    if secs != [] {
      var n := |secs| - 1;
      assert forall i :: 0 <= i < n ==> secs[..n][i] == secs[i];
      AllFit(dr, secs[..n], rlen);
      if Emitted(secs[n]) {
        WholeSectionFits(dr, secs[n].addr, |secs[n].data|, rlen);
      }
    }
  }
}
