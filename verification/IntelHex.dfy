/** Intel HEX: the writer `create_ihex` and the reader `create_elf_from_ihex` (elfcopy/ascii.c). */
module IntelHex {
  import opened Bytes
  import opened HexText
  import opened DataSections

  // ---------- one record ----------

  function Body(typ: nat, addr: nat, payload: seq<byte>): seq<byte>
    requires typ < 6 && |payload| <= 16
  {
    [|payload|] + ToBE(addr, 2) + [typ] + payload
  }

  /** `(~checksum + 1) & 0xFF`. */
  function Complement(sum: nat): byte {
    (256 - sum % 256) % 256
  }

  function Line(typ: nat, addr: nat, payload: seq<byte>): string
    requires typ < 6 && |payload| <= 16
  {
    var body := Body(typ, addr, payload);
    ":" + Hex(body + [Complement(Sum(body))]) + "\r\n"
  }

  /** A line as it is written: a colon, the digits of the bytes, and a line end. The bytes are the number of payload
      bytes, the low address bytes, the type, the payload, and one that makes them add up to a multiple of 256. */
  lemma LineOnTheWire(typ: nat, addr: nat, payload: seq<byte>) returns (bs: seq<byte>)
    requires typ < 6 && |payload| <= 16
    ensures |bs| == |payload| + 5 && bs[0] == |payload| && bs[1] == addr / 256 % 256 && bs[2] == addr % 256
    ensures bs[3] == typ && bs[4..|payload| + 4] == payload && Sum(bs) % 256 == 0
    ensures var line := Line(typ, addr, payload);
            && |line| == 2 * |bs| + 3 && line[0] == ':' && line[2 * |bs| + 1..] == "\r\n"
            && forall k :: 0 <= k < |bs| ==> line[2 * k + 1] == DIGITS[bs[k] / 16] &&
                                                line[2 * k + 2] == DIGITS[bs[k] % 16]
  {
    hide Sum, Hex, Complement;
    var body := Body(typ, addr, payload);
    bs := body + [Complement(Sum(body))];
    PartsOfLine(typ, addr, payload);
    TwoBytes(addr);
    hide ToBE;
    forall k | 0 <= k < |bs|
      ensures var line := Line(typ, addr, payload);
              line[2 * k + 1] == DIGITS[bs[k] / 16] && line[2 * k + 2] == DIGITS[bs[k] % 16]
    {
      HexAt(bs, k);
    }
  }

  lemma TwoBytes(addr: nat)
    ensures ToBE(addr, 2) == [addr / 256 % 256, addr % 256]
  {
    assert ToBE(addr / 256, 1) == ToBE(addr / 256 / 256, 0) + [addr / 256 % 256];
  }

  datatype Rec = Rec(typ: char, addr: nat, num: nat, data: seq<byte>)

  /** How many payload bytes a record of this type and count has, if it may. */
  function PayloadLen(typ: char, count: nat): Option<nat> {
    if typ == '0' then Some(count)
    else if typ == '1' then (if count == 0 then Some(0) else None)
    else if typ == '2' || typ == '4' then (if count == 2 then Some(2) else None)
    else if typ == '3' || typ == '5' then (if count == 4 then Some(4) else None)
    else None
  }

  /** The bytes of a record, in order, with the type as its low digit; None when malformed. */
  function Fields(line: string): Option<seq<byte>> {
    match (ReadBytes(line, 1, 1), ReadBytes(line, 3, 2))
    case (Some(count), Some(addr)) =>
      if At(line, 7) != '0' then None
      else (
        match PayloadLen(At(line, 8), count[0])
        case None => None
        case Some(n) =>
          match (ReadBytes(line, 9, n), ReadBytes(line, 9 + 2 * n, 1))
          case (Some(payload), Some(ck)) =>
            Some(count + addr + [(At(line, 8) - '0') as nat] + payload + ck)
          case _ => None
      )
    case _ => None
  }

  /** `ihex_read`. */
  function Parse(line: string): Option<Rec> {
    match Fields(line)
    case None => None
    case Some(f) =>
      if |f| < 5 || Sum(f) % 256 != 0 then None
      else
        var typ, payload := At(line, 8), f[4..|f| - 1];
        if typ == '0' then Some(Rec(typ, FromBE(f[1..3]), 0, payload))
        else Some(Rec(typ, FromBE(f[1..3]), FromBE(payload), []))
  }

  lemma {:induction false} FieldsOfLine(typ: nat, addr: nat, payload: seq<byte>)
    requires typ < 6 && |payload| <= 16 && PayloadLen('0' + typ as char, |payload|) == Some(|payload|)
    ensures var body := Body(typ, addr, payload);
            var line := Line(typ, addr, payload);
            Fields(line) == Some(body + [Complement(Sum(body))]) && At(line, 8) == '0' + typ as char
  {
    hide Sum, Complement, Hex, ReadBytes, ToBE;
    var body := Body(typ, addr, payload);
    var all := body + [Complement(Sum(body))];
    var line := ":" + Hex(all) + "\r\n";
    ReadsHex(":", all, "\r\n");
    SubRead(line, 1, all, 0, 1);
    SubRead(line, 1, all, 1, 2);
    SubRead(line, 1, all, 4, |payload|);
    SubRead(line, 1, all, 4 + |payload|, 1);
    HexPairs(all, 3);
    assert At(line, 7) == Hex(all)[6] && At(line, 8) == Hex(all)[7];
    assert all == all[0..1] + all[1..3] + [typ] + all[4..4 + |payload|] + all[4 + |payload|..4 + |payload| + 1];
  }

  lemma ComplementBalances(sum: nat)
    ensures (sum + Complement(sum)) % 256 == 0
  {
  }

  /** A record that was written is accepted and read back field by field; the address keeps 16 bits. */
  lemma ParseOfLine(typ: nat, addr: nat, payload: seq<byte>)
    requires typ < 6 && |payload| <= 16 && PayloadLen('0' + typ as char, |payload|) == Some(|payload|)
    ensures Parse(Line(typ, addr, payload)) ==
            Some(if typ == 0 then Rec('0', addr % 65536, 0, payload)
                 else Rec('0' + typ as char, addr % 65536, FromBE(payload), []))
  {
    hide Fields, Complement, Line, ToBE, FromBE, Sum, Body, PayloadLen;
    FieldsOfLine(typ, addr, payload);
    PartsOfLine(typ, addr, payload);
    LowTwo(addr);
  }

  lemma PartsOfLine(typ: nat, addr: nat, payload: seq<byte>)
    requires typ < 6 && |payload| <= 16
    ensures var body := Body(typ, addr, payload);
            var f := body + [Complement(Sum(body))];
            |f| == 5 + |payload| && Sum(f) % 256 == 0 && f[1..3] == ToBE(addr, 2) && f[4..|f| - 1] == payload
  {
    hide Complement, ToBE, Sum;
    var body := Body(typ, addr, payload);
    SumSnoc(body, Complement(Sum(body)));
    ComplementBalances(Sum(body));
  }

  lemma LowTwo(addr: nat)
    ensures FromBE(ToBE(addr, 2)) == addr % 65536
  {
    assert ToBE(addr, 2) == [addr / 256 % 256, addr % 256];
    assert FromBE([addr / 256 % 256]) == addr / 256 % 256 by {
      assert [addr / 256 % 256][..0] == [];
    }
    assert [addr / 256 % 256, addr % 256][..1] == [addr / 256 % 256];
  }

  /** `ihex_write`: `buf` when given, else `num` in `sz` bytes. */
  method IhexWrite(typ: nat, addr: nat, num: nat, buf: Option<seq<byte>>, sz: nat) returns (line: string)
    requires typ < 6 && sz <= 16 && (buf.Some? ==> |buf.value| == sz)
    ensures line == Line(typ, addr, if buf.Some? then buf.value else ToBE(num, sz))
  {
    hide ToBE, Sum, Hex, Check, Complement;
    ghost var payload := if buf.Some? then buf.value else ToBE(num, sz);
    var checksum := 0;
    line := ":";
    line, checksum := WriteNum(line, sz, 1, checksum);
    line, checksum := WriteNum(line, addr, 2, checksum);
    line, checksum := WriteNum(line, typ, 1, checksum);
    ghost var head := [sz] + ToBE(addr, 2) + [typ];
    OneByte(sz);
    OneByte(typ);
    HexConcat([sz], ToBE(addr, 2));
    HexConcat([sz] + ToBE(addr, 2), [typ]);
    SumConcat([sz], ToBE(addr, 2));
    SumConcat([sz] + ToBE(addr, 2), [typ]);
    CheckFolds(0, sz, Sum(ToBE(addr, 2)));
    CheckFolds(0, sz + Sum(ToBE(addr, 2)), typ);
    assert line == ":" + Hex(head) && checksum == Check(0, Sum(head));
    line, checksum := WritePayload(line, checksum, num, buf, sz);
    HexConcat(head, payload);
    SumConcat(head, payload);
    CheckFolds(0, Sum(head), Sum(payload));
    assert head + payload == Body(typ, addr, payload);
    ghost var body := Body(typ, addr, payload);
    assert line == ":" + Hex(body) && checksum == Check(0, Sum(body));
    var ck, _ := WriteNum(line, Complement(checksum), 1, 0);
    OneByte(Complement(checksum));
    HexConcat(body, [Complement(checksum)]);
    ComplementOfCheck(Sum(body));
    line := ck + "\r\n";
  }

  lemma ComplementOfCheck(sum: nat)
    ensures Complement(Check(0, sum)) == Complement(sum)
  {
  }

  method WritePayload(line0: string, checksum0: nat, num: nat, buf: Option<seq<byte>>, sz: nat)
    returns (line: string, checksum: nat)
    requires checksum0 < 256 && (buf.Some? ==> |buf.value| == sz)
    ensures var payload := if buf.Some? then buf.value else ToBE(num, sz);
            line == line0 + Hex(payload) && checksum == Check(checksum0, Sum(payload))
  {
    if buf.None? {
      line, checksum := WriteNum(line0, num, sz, checksum0);
    } else {
      line, checksum := WriteBuf(line0, checksum0, buf.value);
    }
  }

  /** `ihex_read`: the checksum is accumulated field by field and must come out as zero. */
  method IhexRead(line: string) returns (r: Option<Rec>)
    ensures r == Parse(line)
  {
    hide Sum, FromBE, ReadBytes, Check;
    var ok, len, count, sum := ReadNum(line, 1, 1, 0);
    if !ok { return None; }
    var addr, ok2;
    ok2, len, addr, sum := ReadNum(line, len, 2, sum);
    if !ok2 { return None; }
    if At(line, len) != '0' { return None; }
    var typ := At(line, len + 1);
    len := len + 2;
    OneField(line, 1);
    var n := PayloadLen(typ, count);
    if n.None? { return None; }
    ghost var head := ReadBytes(line, 1, 1).value + ReadBytes(line, 3, 2).value;
    sum := Check(sum, (typ - '0') as nat);
    var ok3, num, data;
    ok3, len, num, data, sum := ReadPayload(line, len, n.value, typ == '0', sum);
    if !ok3 { return None; }
    var ok4, ck;
    ok4, len, ck, sum := ReadNum(line, len, 1, sum);
    if !ok4 { return None; }
    ghost var payload, last := ReadBytes(line, 9, n.value).value, ReadBytes(line, 9 + 2 * n.value, 1).value;
    SumOfFields(ReadBytes(line, 1, 1).value, ReadBytes(line, 3, 2).value, (typ - '0') as nat, payload, last);
    FieldsApart(ReadBytes(line, 1, 1).value, ReadBytes(line, 3, 2).value, (typ - '0') as nat, payload, last);
    if sum != 0 { return None; }
    r := Some(Rec(typ, addr, num, data));
  }

  /** Where the address and the payload stand among the fields. */
  lemma FieldsApart(count: seq<byte>, addr: seq<byte>, typ: byte, payload: seq<byte>, ck: seq<byte>)
    requires |count| == 1 && |addr| == 2 && |ck| == 1
    ensures var f := count + addr + [typ] + payload + ck;
            |f| == |payload| + 5 && f[1..3] == addr && f[4..|f| - 1] == payload
  {
  }

  lemma OneField(line: string, pos: nat)
    requires ReadBytes(line, pos, 1).Some?
    ensures FromBE(ReadBytes(line, pos, 1).value) == ReadBytes(line, pos, 1).value[0]
  {
    var bs := ReadBytes(line, pos, 1).value;
    assert bs[..0] == [];
  }

  /** Accumulating the fields one after another is the sum of them all. */
  lemma SumOfFields(count: seq<byte>, addr: seq<byte>, typ: byte, payload: seq<byte>, ck: seq<byte>)
    ensures var f := count + addr + [typ] + payload + ck;
            Check(Check(Check(Check(Check(0, Sum(count)), Sum(addr)), typ), Sum(payload)), Sum(ck)) == Sum(f) % 256
  {
    hide Sum;
    SumConcat(count, addr);
    SumSnoc(count + addr, typ);
    SumFiveFolds(Sum(count), Sum(addr), typ, Sum(payload), Sum(ck));
    SumConcat(count + addr + [typ], payload);
    SumConcat(count + addr + [typ] + payload, ck);
  }

  lemma SumFiveFolds(a: nat, b: nat, c: nat, d: nat, e: nat)
    ensures Check(Check(Check(Check(Check(0, a), b), c), d), e) == (a + b + c + d + e) % 256
  {
    CheckFolds(0, a, b);
    CheckFolds(0, a + b, c);
    CheckFolds(0, a + b + c, d);
    CheckFolds(0, a + b + c + d, e);
  }

  /** The payload switch of `ihex_read`: data bytes one by one, or one number. */
  method ReadPayload(line: string, pos: nat, n: nat, isData: bool, sum0: nat)
    returns (ok: bool, pos': nat, num: nat, data: seq<byte>, sum: nat)
    requires sum0 < 256
    ensures ok <==> ReadBytes(line, pos, n).Some?
    ensures ok ==> var bs := ReadBytes(line, pos, n).value;
                   && pos' == pos + 2 * n && sum == Check(sum0, Sum(bs))
                   && num == (if isData then 0 else FromBE(bs)) && data == (if isData then bs else [])
  {
    if isData {
      num := 0;
      ok, pos', data, sum := ReadData(line, pos, n, sum0);
    } else {
      data := [];
      ok, pos', num, sum := ReadNum(line, pos, n, sum0);
    }
  }

  // ---------- the writer ----------

  function Hi(addr: nat): nat { addr / 65536 % 65536 }

  function Line04(hi: nat): string { Line(4, 0, ToBE(hi, 2)) }

  /** `ihex_write_00`: sixteen bytes a record; a 04 record each time the high half of the address moves. */
  function DataLines(addr: nat, data: seq<byte>): seq<string>
    decreases |data|
  {
    if data == [] then []
    else if |data| < 16 then [Line(0, addr, data)]
    else
      [Line(0, addr, data[..16])]
      + (if Hi(addr + 16) != Hi(addr) then [Line04(Hi(addr + 16))] else [])
      + DataLines(addr + 16, data[16..])
  }

  /** `old_addr_hi` after these sections: the last non-zero high half seen. */
  function OldHi(secs: seq<ElfSec>): nat {
    if secs == [] then 0
    else
      var s := secs[|secs| - 1];
      if Emitted(s) && Hi(s.addr) > 0 then Hi(s.addr) else OldHi(secs[..|secs| - 1])
  }

  predicate StartsWith04(secs: seq<ElfSec>, s: ElfSec) {
    Hi(s.addr) > 0 && Hi(s.addr) != OldHi(secs)
  }

  function SectionLines(secs: seq<ElfSec>): seq<string> {
    if secs == [] then []
    else
      var front, s := secs[..|secs| - 1], secs[|secs| - 1];
      if !Emitted(s) then SectionLines(front)
      else SectionLines(front) + (if StartsWith04(front, s) then [Line04(Hi(s.addr))] else [])
           + DataLines(s.addr, s.data)
  }

  function EndLines(entry: nat): seq<string> {
    (if entry > 0xFFFF_FFFF then [] else [Line(5, 0, ToBE(entry, 4))]) + [Line(1, 0, [])]
  }

  /** `ihex_write_00` as the loop it is. */
  method WriteData(out0: seq<string>, addr0: nat, data: seq<byte>) returns (out: seq<string>)
    ensures out == out0 + DataLines(addr0, data)
  {
    hide Line, Line04, Hi;
    var addr, p, oldHi := addr0, 0, Hi(addr0);
    out := out0;
    while |data| - p >= 16
      invariant p <= |data| && oldHi == Hi(addr)
      invariant out + DataLines(addr, data[p..]) == out0 + DataLines(addr0, data)
    {
      ghost var rest := data[p..];
      assert rest[..16] == data[p..p + 16] && rest[16..] == data[p + 16..];
      var line := IhexWrite(0, addr, 0, Some(data[p..p + 16]), 16);
      ghost var out1 := out;
      out := out + [line];
      addr, p := addr + 16, p + 16;
      if Hi(addr) != oldHi {
        oldHi := Hi(addr);
        var line04 := IhexWrite(4, 0, oldHi, None, 2);
        Line04Is(oldHi);
        out := out + [line04];
      }
    }
    if |data| - p > 0 {
      var line := IhexWrite(0, addr, 0, Some(data[p..]), |data| - p);
      out := out + [line];
    }
  }

  lemma Line04Is(hi: nat)
    ensures Line04(hi) == Line(4, 0, ToBE(hi, 2))
  {
  }

  /** `create_ihex`: the lines written for an ELF file. */
  method CreateIhex(secs: seq<ElfSec>, entry: nat) returns (out: seq<string>)
    ensures out == SectionLines(secs) + EndLines(entry)
  {
    hide Line, Line04, Hi, DataLines;
    out := [];
    var oldHi := 0;
    for i := 0 to |secs|
      invariant out == SectionLines(secs[..i]) && oldHi == OldHi(secs[..i])
    {
      var s := secs[i];
      assert secs[..i + 1][..i] == secs[..i] && secs[..i + 1][i] == s;
      if Emitted(s) {
        var hi := Hi(s.addr);
        if hi > 0 && hi != oldHi {
          oldHi := hi;
          var line04 := IhexWrite(4, 0, hi, None, 2);
          Line04Is(hi);
          out := out + [line04];
        }
        out := WriteData(out, s.addr, s.data);
      }
    }
    assert secs[..|secs|] == secs;
    if entry <= 0xFFFF_FFFF {
      var line05 := IhexWrite(5, 0, entry, None, 4);
      out := out + [line05];
    }
    var line01 := IhexWrite(1, 0, 0, None, 0);
    assert ToBE(0, 0) == [];
    out := out + [line01];
  }

  // ---------- the reader ----------

  datatype Reader = Reader(base: nat, secs: seq<Sec>, entry: nat, done: bool)

  const START := Reader(0, [], 0, false)

  /** One accepted record. A type-02 record takes its base from the address field, as the code does. */
  function StepRec(st: Reader, r: Rec): Reader {
    if r.typ == '0' then (if r.data == [] then st else st.(secs := Append(st.secs, st.base + r.addr, r.data)))
    else if r.typ == '1' then st.(done := true)
    else if r.typ == '2' then st.(base := r.addr * 16)
    else if r.typ == '4' then st.(base := r.num * 65536)
    else if r.typ == '5' then st.(entry := r.num)
    else st
  }

  function StepLine(st: Reader, line: string): Reader {
    if st.done || At(line, 0) == '\r' || At(line, 0) == '\n' || At(line, 0) != ':' then st
    else match Parse(line) case None => st case Some(r) => StepRec(st, r)
  }

  /** The record loop of `create_elf_from_ihex`. */
  method ReadIhex(text: string) returns (secs: seq<Sec>, entry: nat)
    ensures var st := Fold(StepLine, START, Lines(text)); secs == st.secs && entry == st.entry
  {
    hide Parse, LineLen;
    var st := START;
    var rest := text;
    ghost var read: seq<string> := [];
    while rest != [] && !st.done
      invariant Lines(text) == read + Lines(rest) && st == Fold(StepLine, START, read)
      decreases |rest|
    {
      var line := rest[..LineLen(rest)];
      rest := rest[LineLen(rest)..];
      assert (read + [line])[..|read|] == read;
      ghost var was := read;
      read := read + [line];
      assert Lines(text) == was + ([line] + Lines(rest)) == read + Lines(rest);
      if At(line, 0) == '\r' || At(line, 0) == '\n' || At(line, 0) != ':' {
        continue;
      }
      var r := IhexRead(line);
      if r.None? {
        continue;
      }
      st := StepRec(st, r.value);
    }
    DoneStays(st, Lines(rest));
    FoldConcat(StepLine, START, read, Lines(rest));
    secs, entry := st.secs, st.entry;
  }

  lemma {:induction false} DoneStays(st: Reader, lines: seq<string>)
    requires st.done || lines == []
    ensures Fold(StepLine, st, lines) == st
  {
    if lines != [] {
      DoneStays(st, lines[..|lines| - 1]);
    }
  }

  // ---------- reading back what was written ----------

  /** A written record takes effect as the record it was written for. */
  lemma StepWritten(st: Reader, typ: nat, addr: nat, payload: seq<byte>)
    requires !st.done && typ < 6 && |payload| <= 16
    requires PayloadLen('0' + typ as char, |payload|) == Some(|payload|)
    ensures StepLine(st, Line(typ, addr, payload)) ==
            StepRec(st, if typ == 0 then Rec('0', addr % 65536, 0, payload)
                        else Rec('0' + typ as char, addr % 65536, FromBE(payload), []))
  {
    hide Parse, Line, FromBE, PayloadLen, StepRec;
    ParseOfLine(typ, addr, payload);
    StartsWithColon(typ, addr, payload);
  }

  lemma Step00(st: Reader, addr: nat, data: seq<byte>)
    requires !st.done && 0 < |data| <= 16
    ensures StepLine(st, Line(0, addr, data)) == st.(secs := Append(st.secs, st.base + addr % 65536, data))
  {
    hide StepLine, Line, FromBE, Append;
    StepWritten(st, 0, addr, data);
  }

  lemma Step04(st: Reader, hi: nat)
    requires !st.done && hi < 65536
    ensures StepLine(st, Line04(hi)) == st.(base := hi * 65536)
  {
    hide StepLine, Line, FromBE, ToBE;
    StepWritten(st, 4, 0, ToBE(hi, 2));
    LowTwo(hi);
  }

  lemma StartsWithColon(typ: nat, addr: nat, payload: seq<byte>)
    requires typ < 6 && |payload| <= 16
    ensures At(Line(typ, addr, payload), 0) == ':'
  {
  }

  lemma StepEnd(st: Reader, entry: nat)
    requires !st.done
    ensures Fold(StepLine, st, EndLines(entry))
            == st.(entry := if entry > 0xFFFF_FFFF then st.entry else entry, done := true)
  {
    hide StepLine, Line, FromBE, ToBE, Fold;
    StepWritten(st, 1, 0, []);
    FoldOne(StepLine, st, Line(1, 0, []));
    if entry <= 0xFFFF_FFFF {
      var line := Line(5, 0, ToBE(entry, 4));
      StepWritten(st, 5, 0, ToBE(entry, 4));
      FromToBE(entry, 4);
      PowFour();
      FoldConcat(StepLine, st, [line], [Line(1, 0, [])]);
      FoldOne(StepLine, st, line);
      StepWritten(StepLine(st, line), 1, 0, []);
      FoldOne(StepLine, StepLine(st, line), Line(1, 0, []));
    } else {
      assert EndLines(entry) == [Line(1, 0, [])];
    }
  }

  lemma PowFour()
    ensures Pow256(4) == 0x1_0000_0000 && Pow256(3) == 0x100_0000 && Pow256(2) == 0x1_0000
  {
    assert Pow256(1) == 256;
  }

  /** The reader's base once a section written at its proper base is over. */
  function EndBase(addr: nat, n: nat): nat { Hi(addr + n / 16 * 16) * 65536 }

  /** A section written with the right base in force comes back as one appended run, even where
      its records straddle 64K boundaries. */
  lemma {:induction false} RunData(st: Reader, addr: nat, data: seq<byte>)
    requires !st.done && st.base == Hi(addr) * 65536 && addr + |data| <= 0x1_0000_0000 && data != []
    ensures Fold(StepLine, st, DataLines(addr, data)) ==
            st.(secs := Append(st.secs, addr, data), base := EndBase(addr, |data|))
    decreases |data|
  {
    hide Fold, StepLine, Line, Line04, Append;
    assert Hi(addr) * 65536 + addr % 65536 == addr;
    if |data| < 16 {
      FoldOne(StepLine, st, Line(0, addr, data));
      Step00(st, addr, data);
      assert |data| / 16 == 0;
    } else {
      var chunk, rest := data[..16], data[16..];
      var line := Line(0, addr, chunk);
      var st1 := st.(secs := Append(st.secs, addr, chunk));
      FoldOne(StepLine, st, line);
      Step00(st, addr, chunk);
      var moved := if Hi(addr + 16) != Hi(addr) then [Line04(Hi(addr + 16))] else [];
      var st2 := st1.(base := Hi(addr + 16) * 65536);
      assert Fold(StepLine, st1, moved) == st2 by {
        if moved == [] {
          FoldNone(StepLine, st1);
        } else {
          FoldOne(StepLine, st1, Line04(Hi(addr + 16)));
          Step04(st1, Hi(addr + 16));
        }
      }
      FoldConcat(StepLine, st, [line], moved);
      FoldConcat(StepLine, st, [line] + moved, DataLines(addr + 16, rest));
      assert (|data| - 16) / 16 * 16 + 16 == |data| / 16 * 16;
      assert chunk + rest == data;
      if rest == [] {
        FoldNone(StepLine, st2);
        assert chunk == data && |data| == 16 && DataLines(addr + 16, rest) == [];
      } else {
        RunData(st2, addr + 16, rest);
        AppendTwice(st.secs, addr, chunk, rest);
      }
    }
  }

  // ---------- when the skipped 04 records are safe ----------

  /** The reader's base after these sections, as long as each was written at its proper base. */
  function BaseAfter(secs: seq<ElfSec>): nat {
    if secs == [] then 0
    else
      var s := secs[|secs| - 1];
      if Emitted(s) then EndBase(s.addr, |s.data|) else BaseAfter(secs[..|secs| - 1])
  }

  /** Every section that gets no 04 record finds the base it needs already in force. */
  predicate Safe(secs: seq<ElfSec>) {
    secs == [] ||
    var front, s := secs[..|secs| - 1], secs[|secs| - 1];
    Safe(front) && (Emitted(s) && !StartsWith04(front, s) ==> BaseAfter(front) == Hi(s.addr) * 65536)
  }

  ghost predicate Within4G(secs: seq<ElfSec>) {
    forall i :: 0 <= i < |secs| && Emitted(secs[i]) ==> secs[i].addr + |secs[i].data| <= 0x1_0000_0000
  }

  lemma {:induction false} RunSafe(secs: seq<ElfSec>)
    requires Within4G(secs) && Safe(secs)
    ensures Fold(StepLine, START, SectionLines(secs)) == START.(secs := Coalesce(secs), base := BaseAfter(secs))
  {
    hide StepLine, DataLines, Line04, Append, EndBase;
    if secs != [] {
      var front, s := secs[..|secs| - 1], secs[|secs| - 1];
      RunSafe(front);
      var st := START.(secs := Coalesce(front), base := BaseAfter(front));
      if Emitted(s) {
        var st1 := st.(base := Hi(s.addr) * 65536);
        var head := if StartsWith04(front, s) then [Line04(Hi(s.addr))] else [];
        assert Fold(StepLine, st, head) == st1 by {
          if head == [] {
            FoldNone(StepLine, st);
          } else {
            FoldOne(StepLine, st, Line04(Hi(s.addr)));
            Step04(st, Hi(s.addr));
          }
        }
        FoldConcat(StepLine, START, SectionLines(front), head);
        FoldConcat(StepLine, START, SectionLines(front) + head, DataLines(s.addr, s.data));
        RunData(st1, s.addr, s.data);
      }
    }
  }

  lemma StepGrows(st: Reader, line: string)
    ensures Stream(st.secs) <= Stream(StepLine(st, line).secs)
  {
    hide Parse, Append, Stream;
    var p := Parse(line);
    if p.Some? {
      StreamAppend(st.secs, st.base + p.value.addr, p.value.data);
    }
  }

  lemma StreamGrows(st: Reader, lines: seq<string>)
    ensures Stream(st.secs) <= Stream(Fold(StepLine, st, lines).secs)
  {
    hide StepLine, Stream, Fold;
    forall s: Reader, line: string
      ensures Stream(s.secs) <= Stream(StepLine(s, line).secs)
    {
      StepGrows(s, line);
    }
    FoldGrows(StepLine, (s: Reader) => Stream(s.secs), st, lines);
  }

  lemma DataLinesHead(addr: nat, data: seq<byte>)
    requires data != []
    ensures var chunk := if |data| < 16 then data else data[..16];
            DataLines(addr, data) != [] && DataLines(addr, data)[0] == Line(0, addr, chunk)
  {
    hide Line, Line04;
  }

  lemma HiAndLow(addr: nat)
    requires addr < 0x1_0000_0000
    ensures addr == Hi(addr) * 65536 + addr % 65536
  {
  }

  /** The first section that lacks the 04 record it needs lands at the wrong address. */
  lemma MisplacedData(st: Reader, addr: nat, data: seq<byte>, before: seq<(nat, byte)>)
    requires !st.done && data != [] && addr < 0x1_0000_0000 && st.base != Hi(addr) * 65536
    requires Stream(st.secs) == before
    ensures Differ(Stream(Fold(StepLine, st, DataLines(addr, data)).secs), before + Cells(addr, data))
  {
    hide StepLine, Line, DataLines, Append, Fold, Stream, Hi, Cells, Differ;
    var chunk := if |data| < 16 then data else data[..16];
    var line, lines := Line(0, addr, chunk), DataLines(addr, data);
    DataLinesHead(addr, data);
    assert lines == [line] + lines[1..];
    FoldConcat(StepLine, st, [line], lines[1..]);
    FoldOne(StepLine, st, line);
    Step00(st, addr, chunk);
    var st1 := Fold(StepLine, st, [line]);
    StreamAppend(st.secs, st.base + addr % 65536, chunk);
    StreamGrows(st1, lines[1..]);
    HiAndLow(addr);
    var want := before + Cells(addr, data);
    FirstCellWrong(before, st.base + addr % 65536, chunk, addr, data, Stream(st1.secs));
    DifferGrows(Stream(st1.secs), want, Stream(Fold(StepLine, st, lines).secs), want);
  }

  lemma {:induction false} RunUnsafe(secs: seq<ElfSec>)
    requires Within4G(secs) && !Safe(secs)
    ensures Differ(Stream(Fold(StepLine, START, SectionLines(secs)).secs), Source(secs))
  {
    hide StepLine, DataLines, Line04, Append, EndBase, Fold, Stream, Differ;
    var front, s := secs[..|secs| - 1], secs[|secs| - 1];
    var st := Fold(StepLine, START, SectionLines(front));
    if !Safe(front) {
      RunUnsafe(front);
      var more := SectionLines(secs)[|SectionLines(front)|..];
      assert SectionLines(secs) == SectionLines(front) + more;
      FoldConcat(StepLine, START, SectionLines(front), more);
      StreamGrows(st, more);
      DifferGrows(Stream(st.secs), Source(front), Stream(Fold(StepLine, st, more).secs), Source(secs));
    } else {
      RunSafe(front);
      CoalesceStream(front);
      assert SectionLines(secs) == SectionLines(front) + DataLines(s.addr, s.data);
      FoldConcat(StepLine, START, SectionLines(front), DataLines(s.addr, s.data));
      MisplacedData(st, s.addr, s.data, Source(front));
    }
  }

  lemma LineIsOneLine(typ: nat, addr: nat, payload: seq<byte>)
    requires typ < 6 && |payload| <= 16
    ensures OneLine(Line(typ, addr, payload))
  {
    hide Complement, Sum, Hex;
    var body := Body(typ, addr, payload);
    var all := body + [Complement(Sum(body))];
    HexHasNoNewline(all);
    var line := Line(typ, addr, payload);
    assert line[..|line| - 1] == ":" + Hex(all) + "\r";
  }

  lemma {:induction false} DataLinesAreLines(addr: nat, data: seq<byte>)
    ensures AllOneLine(DataLines(addr, data))
    decreases |data|
  {
    hide OneLine, Line;
    if 0 < |data| < 16 {
      LineIsOneLine(0, addr, data);
    } else if |data| >= 16 {
      LineIsOneLine(0, addr, data[..16]);
      LineIsOneLine(4, 0, ToBE(Hi(addr + 16), 2));
      DataLinesAreLines(addr + 16, data[16..]);
    }
  }

  lemma {:induction false} SectionLinesAreLines(secs: seq<ElfSec>)
    ensures AllOneLine(SectionLines(secs))
  {
    hide OneLine, Line;
    if secs != [] {
      var s := secs[|secs| - 1];
      SectionLinesAreLines(secs[..|secs| - 1]);
      LineIsOneLine(4, 0, ToBE(Hi(s.addr), 2));
      DataLinesAreLines(s.addr, s.data);
    }
  }

  /** Reading the written file gives the same ordered (address, byte) stream exactly when every skipped
      04 record was safe to skip; then the sections and the entry point come back too. An entry point
      beyond 32 bits is not written, and reads as 0. */
  lemma RoundTrip(secs: seq<ElfSec>, entry: nat)
    requires Within4G(secs)
    ensures var st := Fold(StepLine, START, Lines(Join(SectionLines(secs) + EndLines(entry))));
            && (Stream(st.secs) == Source(secs) <==> Safe(secs))
            && (Safe(secs) ==> st.secs == Coalesce(secs))
            && st.entry == if entry > 0xFFFF_FFFF then 0 else entry
  {
    hide StepLine, SectionLines, Fold, Stream, Line, Differ, Safe;
    var lines := SectionLines(secs) + EndLines(entry);
    SectionLinesAreLines(secs);
    LineIsOneLine(5, 0, ToBE(entry, 4));
    LineIsOneLine(1, 0, []);
    LinesOfJoin(lines);
    FoldConcat(StepLine, START, SectionLines(secs), EndLines(entry));
    var st := Fold(StepLine, START, SectionLines(secs));
    DataKeepsEntry(secs);
    StepEnd(st, entry);
    if Safe(secs) {
      RunSafe(secs);
      CoalesceStream(secs);
    } else {
      RunUnsafe(secs);
      DifferMeansUnequal(Stream(st.secs), Source(secs));
    }
  }

  /** Data and 04 records neither end the file nor set the entry point. */
  lemma {:induction false} DataKeepsEntry(secs: seq<ElfSec>)
    ensures var st := Fold(StepLine, START, SectionLines(secs)); !st.done && st.entry == 0
  {
    hide StepLine, Line04, DataLines, Fold;
    if secs == [] {
      FoldNone(StepLine, START);
    } else {
      var front, s := secs[..|secs| - 1], secs[|secs| - 1];
      DataKeepsEntry(front);
      if Emitted(s) {
        var st := Fold(StepLine, START, SectionLines(front));
        var head := if StartsWith04(front, s) then [Line04(Hi(s.addr))] else [];
        FoldConcat(StepLine, START, SectionLines(front), head);
        FoldConcat(StepLine, START, SectionLines(front) + head, DataLines(s.addr, s.data));
        if head == [] {
          FoldNone(StepLine, st);
        } else {
          FoldOne(StepLine, st, Line04(Hi(s.addr)));
          Step04(st, Hi(s.addr));
        }
        LinesKeepEntry(Fold(StepLine, st, head), s.addr, s.data);
      }
    }
  }

  lemma {:induction false} LinesKeepEntry(st: Reader, addr: nat, data: seq<byte>)
    requires !st.done
    ensures var st' := Fold(StepLine, st, DataLines(addr, data)); !st'.done && st'.entry == st.entry
    decreases |data|
  {
    hide StepLine, Line, Line04, Fold, Append;
    if data == [] {
      FoldNone(StepLine, st);
    } else if |data| < 16 {
      FoldOne(StepLine, st, Line(0, addr, data));
      Step00(st, addr, data);
    } else {
      var line, rest := Line(0, addr, data[..16]), DataLines(addr + 16, data[16..]);
      var moved := if Hi(addr + 16) != Hi(addr) then [Line04(Hi(addr + 16))] else [];
      FoldConcat(StepLine, st, [line], moved);
      FoldConcat(StepLine, st, [line] + moved, rest);
      FoldOne(StepLine, st, line);
      Step00(st, addr, data[..16]);
      var st1 := Fold(StepLine, st, [line]);
      if moved == [] {
        FoldNone(StepLine, st1);
      } else {
        FoldOne(StepLine, st1, Line04(Hi(addr + 16)));
        Step04(st1, Hi(addr + 16));
      }
      LinesKeepEntry(Fold(StepLine, st1, moved), addr + 16, data[16..]);
    }
  }

  // ---------- records the writer does not make ----------

  /** A data record behind a segment record (type 02) lands at sixteen times what that has in its address field,
      plus its own address; one behind a linear record (type 04) at 64K times what that has as its payload. */
  lemma BasesRead(st: Reader, typ: nat, seg: nat, payload: seq<byte>, addr: nat, data: seq<byte>)
    requires !st.done && (typ == 2 || typ == 4) && |payload| == 2 && 0 < |data| <= 16
    ensures var high: nat, low: nat := payload[0], payload[1];
            var base := if typ == 2 then seg % 65536 * 16 else (high * 256 + low) * 65536;
            Fold(StepLine, st, [Line(typ, seg, payload), Line(0, addr, data)])
            == st.(base := base, secs := Append(st.secs, base + addr % 65536, data))
  {
    hide StepLine, Line, FromBE, Append;
    StepWritten(st, typ, seg, payload);
    assert payload[..1] == [payload[0]] && payload[..1][..0] == [];
    FromTwo(payload);
    var st1 := StepLine(st, Line(typ, seg, payload));
    Step00(st1, addr, data);
    FoldConcat(StepLine, st, [Line(typ, seg, payload)], [Line(0, addr, data)]);
    FoldOne(StepLine, st, Line(typ, seg, payload));
    FoldOne(StepLine, st1, Line(0, addr, data));
    assert [Line(typ, seg, payload)] + [Line(0, addr, data)] == [Line(typ, seg, payload), Line(0, addr, data)];
  }

  lemma FromTwo(bs: seq<byte>)
    requires |bs| == 2
    ensures var high: nat, low: nat := bs[0], bs[1]; FromBE(bs) == high * 256 + low
  {
    assert bs[..1] == [bs[0]] && bs[..1][..0] == [];
    assert FromBE(bs[..1]) == bs[0];
  }

  /** A start segment record (type 03) changes nothing, and behind an end record (type 01) nothing is read. */
  lemma OthersRead(st: Reader, addr: nat, payload: seq<byte>, more: seq<string>)
    requires !st.done && |payload| == 4
    ensures StepLine(st, Line(3, addr, payload)) == st
    ensures Fold(StepLine, st, [Line(1, addr, [])] + more) == st.(done := true)
  {
    hide StepLine, Line, FromBE;
    StepWritten(st, 3, addr, payload);
    StepWritten(st, 1, addr, []);
    FoldConcat(StepLine, st, [Line(1, addr, [])], more);
    FoldOne(StepLine, st, Line(1, addr, []));
    DoneStays(st.(done := true), more);
  }

  // ---------- which sections are written ----------

  /** Taking out a section that is not loaded, has no contents or is empty changes no line. */
  lemma {:induction false} NotWrittenLeavesNoTrace(a: seq<ElfSec>, s: ElfSec, b: seq<ElfSec>)
    requires NotWritten(s)
    ensures SectionLines(a + [s] + b) == SectionLines(a + b) && OldHi(a + [s] + b) == OldHi(a + b)
  {
    hide Hi, Line04, DataLines;
    if b == [] {
      assert (a + [s])[..|a|] == a && a + [s] + [] == a + [s] && a + [] == a;
    } else {
      var front := b[..|b| - 1];
      NotWrittenLeavesNoTrace(a, s, front);
      assert (a + [s] + b)[..|a + [s] + b| - 1] == a + [s] + front && (a + b)[..|a + b| - 1] == a + front;
    }
  }

  /** Loaded sections follow each other in memory. */
  ghost predicate LoadedAscend(secs: seq<ElfSec>) {
    forall i, j :: 0 <= i < j < |secs| && secs[i].alloc && secs[j].alloc && !secs[i].nobits && !secs[j].nobits ==>
      secs[i].addr + |secs[i].data| <= secs[j].addr
  }

  /** For loaded sections that end within 4 GB the bytes read back are exactly theirs, if skipping records is
      safe, and so whenever they ascend. */
  lemma LoadedBytesComeBack(secs: seq<ElfSec>, entry: nat)
    requires forall i :: 0 <= i < |secs| && secs[i].alloc && !secs[i].nobits ==>
               secs[i].addr + |secs[i].data| <= 0x1_0000_0000
    requires Safe(secs) || LoadedAscend(secs)
    ensures var st := Fold(StepLine, START, Lines(Join(SectionLines(secs) + EndLines(entry))));
            forall a: nat, b: byte :: (a, b) in Stream(st.secs) <==> HoldsByte(secs, a, b)
  {
    hide StepLine, SectionLines, Fold, Stream, Line, Safe, EndLines;
    RoundTrip(secs, entry);
    if LoadedAscend(secs) {
      AscendingIsSafe(secs);
    }
    forall a: nat, b: byte
      ensures (a, b) in Source(secs) <==> HoldsByte(secs, a, b)
    {
      SourceHolds(secs, a, b);
    }
  }

  // ---------- ascending, disjoint sections are safe ----------

  ghost predicate Ascending(secs: seq<ElfSec>) {
    forall i, j :: 0 <= i < j < |secs| && Emitted(secs[i]) && Emitted(secs[j]) ==>
      secs[i].addr + |secs[i].data| <= secs[j].addr
  }

  ghost predicate EndBefore(secs: seq<ElfSec>, x: nat) {
    forall i :: 0 <= i < |secs| && Emitted(secs[i]) ==> secs[i].addr + |secs[i].data| <= x
  }

  lemma HiMonotone(x: nat, y: nat)
    requires x <= y < 0x1_0000_0000
    ensures Hi(x) <= Hi(y)
  {
  }

  /** The invariant: last recorded high half <= the reader's base <= high half of what comes next. */
  lemma {:induction false} BaseBetween(secs: seq<ElfSec>, x: nat)
    requires Ascending(secs) && EndBefore(secs, x) && x < 0x1_0000_0000
    ensures OldHi(secs) * 65536 <= BaseAfter(secs) <= Hi(x) * 65536
  {
    hide Hi;
    if secs != [] {
      var front, s := secs[..|secs| - 1], secs[|secs| - 1];
      assert Ascending(front) && EndBefore(front, x);
      if Emitted(s) {
        assert s.addr + |s.data| <= x;
        assert EndBefore(front, s.addr);
        BaseBetween(front, s.addr);
        var e := s.addr + |s.data| / 16 * 16;
        HiMonotone(s.addr, e);
        HiMonotone(e, x);
      } else {
        BaseBetween(front, x);
      }
    }
  }

  lemma {:induction false} AscendingIsSafe(secs: seq<ElfSec>)
    requires Ascending(secs)
    ensures Safe(secs)
  {
    hide Hi, BaseAfter, OldHi;
    if secs != [] {
      var front, s := secs[..|secs| - 1], secs[|secs| - 1];
      assert Ascending(front);
      AscendingIsSafe(front);
      if Emitted(s) && !StartsWith04(front, s) {
        assert EndBefore(front, s.addr);
        BaseBetween(front, s.addr);
      }
    }
  }

  /** Two one-byte sections in descending order: the second, below 64K, gets no 04 record. */
  lemma DescendingIsUnsafe()
    ensures var secs := [ElfSec(true, false, 0x1_0000, [1]), ElfSec(true, false, 0, [2])];
            Within4G(secs) && !Safe(secs)
  {
    var s0, s1 := ElfSec(true, false, 0x1_0000, [1]), ElfSec(true, false, 0, [2]);
    var secs := [s0, s1];
    assert secs[..1] == [s0];
    assert BaseAfter([s0]) == 65536;
  }

  // ---------- single-byte damage ----------

  /** Byte `k` of an accepted record stands at hex pair `1 + 2k`; the type (k == 3) is a digit. */
  lemma FieldPairs(line: string, k: nat)
    requires Fields(line).Some? && k < |Fields(line).value| && k != 3
    ensures ReadPair(line, 1 + 2 * k) == Some(Fields(line).value[k])
  {
    hide ReadPair, ReadBytes;
    var count, addr := ReadBytes(line, 1, 1).value, ReadBytes(line, 3, 2).value;
    var n := PayloadLen(At(line, 8), count[0]).value;
    var payload, ck := ReadBytes(line, 9, n).value, ReadBytes(line, 9 + 2 * n, 1).value;
    var f := Fields(line).value;
    assert f == count + addr + [(At(line, 8) - '0') as nat] + payload + ck;
    if k == 0 {
      ReadBytesEach(line, 1, 1, count);
    } else if k < 3 {
      ReadBytesEach(line, 3, 2, addr);
      assert f[k] == addr[k - 1];
    } else if k < 4 + n {
      ReadBytesEach(line, 9, n, payload);
      assert f[k] == payload[k - 4] && 9 + 2 * (k - 4) == 1 + 2 * k;
    } else {
      ReadBytesEach(line, 9 + 2 * n, 1, ck);
      assert f[k] == ck[0] && 9 + 2 * n + 2 * 0 == 1 + 2 * k;
    }
  }

  lemma FieldCount(line: string)
    requires Fields(line).Some?
    ensures var n := PayloadLen(At(line, 8), ReadPair(line, 1).value);
            ReadPair(line, 1).Some? && n.Some? && |Fields(line).value| == 5 + n.value
    ensures Fields(line).value[3] == (At(line, 8) - '0') as nat
  {
    hide PayloadLen;
    OneOf(line, 1);
  }

  /** Changing one pair of characters behind the count, but for the type, changes just that byte. */
  lemma OneByteDiffers(line: string, line': string, k: nat)
    requires Fields(line).Some? && Fields(line').Some? && 0 < k < |Fields(line).value| && k != 3
    requires forall i :: 0 <= i && i != 1 + 2 * k && i != 2 + 2 * k ==> At(line', i) == At(line, i)
    requires ReadPair(line', 1 + 2 * k) != ReadPair(line, 1 + 2 * k)
    ensures |Fields(line').value| == |Fields(line).value|
    ensures Fields(line').value[k] != Fields(line).value[k]
    ensures Fields(line').value == Fields(line).value[k := Fields(line').value[k]]
  {
    hide Fields, PayloadLen, HexValue, IsHexDigit;
    var f, f' := Fields(line).value, Fields(line').value;
    FieldCount(line);
    FieldCount(line');
    assert ReadPair(line', 1) == ReadPair(line, 1);
    forall j | 0 <= j < |f|
      ensures j != k ==> f'[j] == f[j]
      ensures j == k ==> f'[j] != f[j]
    {
      if j != 3 {
        FieldPairs(line, j);
        FieldPairs(line', j);
        if j != k {
          assert ReadPair(line', 1 + 2 * j) == ReadPair(line, 1 + 2 * j);
        }
      }
    }
    assert f' == f[k := f'[k]];
  }

  /** An accepted record with one address, data or checksum byte changed is rejected. */
  lemma DamageIsRejected(line: string, line': string, k: nat)
    requires Parse(line).Some? && 0 < k < |Fields(line).value| && k != 3
    requires forall i :: 0 <= i && i != 1 + 2 * k && i != 2 + 2 * k ==> At(line', i) == At(line, i)
    requires ReadPair(line', 1 + 2 * k) != ReadPair(line, 1 + 2 * k)
    ensures Parse(line').None?
  {
    hide Fields, Sum, ReadPair;
    if Fields(line').Some? {
      OneByteDiffers(line, line', k);
      var f, f' := Fields(line).value, Fields(line').value;
      SumUpdate(f, k, f'[k]);
      NotBothBalanced(Sum(f), Sum(f'));
    }
  }

  lemma NotBothBalanced(a: nat, b: nat)
    requires a % 256 == 0 && 0 < (if a < b then b - a else a - b) < 256
    ensures b % 256 != 0
  {
  }
}
