/** Hexadecimal digits, big-endian numbers and text lines, shared by both text formats
    (elfcopy/ascii.c). */
module HexText {
  import opened Bytes

  const LINE_BUFSZ := 1024

  function HexDigit(n: nat): char
    requires n < 16
  {
    if n < 10 then '0' + n as char else 'A' + (n - 10) as char
  }

  predicate IsHexDigit(c: char) {
    '0' <= c <= '9' || 'a' <= c <= 'f' || 'A' <= c <= 'F'
  }

  function HexValue(c: char): nat
    requires IsHexDigit(c)
    ensures HexValue(c) < 16
  {
    if '0' <= c <= '9' then (c - '0') as nat
    else if 'a' <= c <= 'f' then (c - 'a') as nat + 10
    else (c - 'A') as nat + 10
  }

  lemma DigitRoundTrip(n: nat)
    requires n < 16
    ensures IsHexDigit(HexDigit(n)) && HexValue(HexDigit(n)) == n && HexDigit(n) != '\n'
  {
  }

  /** A C string is followed by its NUL. */
  function At(line: string, i: nat): char {
    if i < |line| then line[i] else '\0'
  }

  function ReadPair(line: string, pos: nat): Option<byte> {
    if IsHexDigit(At(line, pos)) && IsHexDigit(At(line, pos + 1))
    then Some(HexValue(At(line, pos)) * 16 + HexValue(At(line, pos + 1)))
    else None
  }

  /** `n` hex pairs from `pos`. */
  function ReadBytes(line: string, pos: nat, n: nat): (r: Option<seq<byte>>)
    ensures r.Some? ==> |r.value| == n
  {
    if n == 0 then Some([])
    else match ReadBytes(line, pos, n - 1)
      case None => None
      case Some(front) =>
        match ReadPair(line, pos + 2 * (n - 1))
        case None => None
        case Some(b) => Some(front + [b])
  }

  function Sum(bs: seq<byte>): nat {
    if bs == [] then 0 else Sum(bs[..|bs| - 1]) + bs[|bs| - 1]
  }

  /** The 8-bit running checksum. */
  function Check(c: nat, s: nat): (r: nat)
    ensures r < 256
  {
    (c + s) % 256
  }

  lemma CheckFolds(c: nat, a: nat, b: nat)
    ensures Check(Check(c, a), b) == Check(c, a + b)
  {
  }

  lemma CheckZero(c: nat)
    requires c < 256
    ensures Check(c, 0) == c
  {
  }

  function Hex(bs: seq<byte>): (s: string)
    ensures |s| == 2 * |bs|
  {
    if bs == [] then []
    else Hex(bs[..|bs| - 1]) + [HexDigit(bs[|bs| - 1] / 16), HexDigit(bs[|bs| - 1] % 16)]
  }

  /** `num >> (8 * n)`. */
  function DropBytes(num: nat, n: nat): nat {
    if n == 0 then num else DropBytes(num, n - 1) / 256
  }

  lemma SumSnoc(bs: seq<byte>, b: byte)
    ensures Sum(bs + [b]) == Sum(bs) + b
  {
    assert (bs + [b])[..|bs|] == bs;
  }

  lemma {:induction false} SumConcat(a: seq<byte>, b: seq<byte>)
    ensures Sum(a + b) == Sum(a) + Sum(b)
  {
    if b == [] {
      assert a + b == a;
    } else {
      assert (a + b)[..|a + b| - 1] == a + b[..|b| - 1];
      SumConcat(a, b[..|b| - 1]);
    }
  }

  lemma {:induction false} ReadBytesEach(line: string, pos: nat, n: nat, bs: seq<byte>)
    requires |bs| == n
    ensures ReadBytes(line, pos, n) == Some(bs) <==>
            forall k :: 0 <= k < n ==> ReadPair(line, pos + 2 * k) == Some(bs[k])
  {
    if n > 0 {
      hide ReadPair;
      ReadBytesEach(line, pos, n - 1, bs[..n - 1]);
      assert bs == bs[..n - 1] + [bs[n - 1]];
    }
  }

  /** Any stretch of the bytes reads back on its own. */
  lemma SubRead(line: string, pos: nat, bs: seq<byte>, i: nat, m: nat)
    requires ReadBytes(line, pos, |bs|) == Some(bs) && i + m <= |bs|
    ensures ReadBytes(line, pos + 2 * i, m) == Some(bs[i..i + m])
  {
    hide ReadPair, ReadBytes;
    ReadBytesEach(line, pos, |bs|, bs);
    forall k | 0 <= k < m
      ensures ReadPair(line, pos + 2 * i + 2 * k) == Some(bs[i..i + m][k])
    {
      assert pos + 2 * i + 2 * k == pos + 2 * (i + k);
      assert ReadPair(line, pos + 2 * (i + k)) == Some(bs[i + k]);
    }
    ReadBytesEach(line, pos + 2 * i, m, bs[i..i + m]);
  }

  lemma {:induction false} HexPairs(bs: seq<byte>, k: nat)
    requires k < |bs|
    ensures Hex(bs)[2 * k] == HexDigit(bs[k] / 16) && Hex(bs)[2 * k + 1] == HexDigit(bs[k] % 16)
    decreases |bs|
  {
    if k < |bs| - 1 {
      HexPairs(bs[..|bs| - 1], k);
    }
  }

  lemma ReadsHexPair(pre: string, bs: seq<byte>, post: string, k: nat)
    requires k < |bs|
    ensures ReadPair(pre + Hex(bs) + post, |pre| + 2 * k) == Some(bs[k])
  {
    hide HexDigit, HexValue, IsHexDigit, Hex;
    var line := pre + Hex(bs) + post;
    HexPairs(bs, k);
    DigitRoundTrip(bs[k] / 16);
    DigitRoundTrip(bs[k] % 16);
    assert line[|pre| + 2 * k] == Hex(bs)[2 * k] && line[|pre| + 2 * k + 1] == Hex(bs)[2 * k + 1];
  }

  /** What `write_num` put down, `read_num` picks up, wherever in the line it stands. */
  lemma ReadsHex(pre: string, bs: seq<byte>, post: string)
    ensures ReadBytes(pre + Hex(bs) + post, |pre|, |bs|) == Some(bs)
  {
    hide ReadPair, Hex;
    forall k | 0 <= k < |bs|
      ensures ReadPair(pre + Hex(bs) + post, |pre| + 2 * k) == Some(bs[k])
    {
      ReadsHexPair(pre, bs, post, k);
    }
    ReadBytesEach(pre + Hex(bs) + post, |pre|, |bs|, bs);
  }

  lemma {:induction false} HexHasNoNewline(bs: seq<byte>)
    ensures '\n' !in Hex(bs)
  {
    if bs != [] {
      HexHasNoNewline(bs[..|bs| - 1]);
      DigitRoundTrip(bs[|bs| - 1] / 16);
      DigitRoundTrip(bs[|bs| - 1] % 16);
    }
  }

  lemma SumUpdate(bs: seq<byte>, k: nat, b: byte)
    requires k < |bs|
    ensures Sum(bs[k := b]) == Sum(bs) - bs[k] + b
  {
    hide Sum;
    var pre, post := bs[..k], bs[k + 1..];
    assert bs == pre + [bs[k]] + post && bs[k := b] == pre + [b] + post;
    SumConcat(pre + [bs[k]], post);
    SumConcat(pre + [b], post);
    SumSnoc(pre, bs[k]);
    SumSnoc(pre, b);
  }

  // ---------- the two loops ----------

  lemma OneMoreByte(num: nat, n: nat, k: nat)
    requires n > 0
    ensures var b := DropBytes(num, n - 1) % 256;
            var shorter, longer := ToBE(DropBytes(num, n), k), ToBE(DropBytes(num, n - 1), k + 1);
            && Hex(longer) == Hex(shorter) + [HexDigit(b / 16), HexDigit(b % 16)]
            && Sum(longer) == Sum(shorter) + b
  {
    var longer := ToBE(DropBytes(num, n - 1), k + 1);
    assert longer[..k] == ToBE(DropBytes(num, n), k);
  }

  lemma NoByteYet(num: nat, n: nat)
    ensures Hex(ToBE(DropBytes(num, n), 0)) == [] && Sum(ToBE(DropBytes(num, n), 0)) == 0 && DropBytes(num, 0) == num
  {
  }

  /** `write_num`: append `sz` bytes of `num` and fold them into the checksum. */
  method WriteNum(line: string, num: nat, sz: nat, checksum: nat) returns (line': string, checksum': nat)
    requires checksum < 256
    ensures line' == line + Hex(ToBE(num, sz))
    ensures checksum' == Check(checksum, Sum(ToBE(num, sz)))
  {
    hide Check, HexDigit, Hex, Sum, ToBE, DropBytes;
    NoByteYet(num, sz);
    line', checksum' := line, checksum;
    CheckZero(checksum);
    var n := sz;
    while n > 0
      invariant 0 <= n <= sz && checksum' < 256
      invariant line' == line + Hex(ToBE(DropBytes(num, n), sz - n))
      invariant checksum' == Check(checksum, Sum(ToBE(DropBytes(num, n), sz - n)))
    {
      var b := DropBytes(num, n - 1) % 256;
      OneMoreByte(num, n, sz - n);
      line' := line' + [HexDigit(b / 16), HexDigit(b % 16)];
      CheckFolds(checksum, Sum(ToBE(DropBytes(num, n), sz - n)), b);
      checksum' := Check(checksum', b);
      n := n - 1;
    }
  }

  /** `read_num`. */
  method ReadNum(line: string, pos: nat, sz: nat, checksum: nat)
    returns (ok: bool, pos': nat, num: nat, checksum': nat)
    requires checksum < 256
    ensures ok <==> ReadBytes(line, pos, sz).Some?
    ensures ok ==> var bs := ReadBytes(line, pos, sz).value;
                   pos' == pos + 2 * sz && num == FromBE(bs) && checksum' == Check(checksum, Sum(bs))
  {
    hide Check, ReadPair;
    ok, pos', num, checksum' := true, pos, 0, checksum;
    CheckZero(checksum);
    ghost var bs: seq<byte> := [];
    var i := 0;
    while i < sz
      invariant i <= sz && pos' == pos + 2 * i && checksum' < 256
      invariant ReadBytes(line, pos, i) == Some(bs)
      invariant num == FromBE(bs) && checksum' == Check(checksum, Sum(bs))
    {
      var p := ReadPair(line, pos');
      if p.None? {
        NoneStays(line, pos, i + 1, sz);
        return false, pos', num, checksum';
      }
      bs := bs + [p.value];
      assert bs[..|bs| - 1] + [p.value] == bs;
      num := num * 256 + p.value;
      pos' := pos' + 2;
      CheckFolds(checksum, Sum(bs[..|bs| - 1]), p.value);
      checksum' := Check(checksum', p.value);
      i := i + 1;
    }
  }

  lemma {:induction false} NoneStays(line: string, pos: nat, m: nat, n: nat)
    requires m <= n && ReadBytes(line, pos, m).None?
    ensures ReadBytes(line, pos, n).None?
    decreases n
  {
    if m < n {
      NoneStays(line, pos, m, n - 1);
    }
  }

  lemma {:induction false} HexConcat(a: seq<byte>, b: seq<byte>)
    ensures Hex(a + b) == Hex(a) + Hex(b)
  {
    if b == [] {
      assert a + b == a;
    } else {
      assert (a + b)[..|a + b| - 1] == a + b[..|b| - 1];
      HexConcat(a, b[..|b| - 1]);
    }
  }

  const DIGITS := "0123456789ABCDEF"

  lemma DigitIs(n: nat)
    requires n < 16
    ensures HexDigit(n) == DIGITS[n]
  {
  }

  const LOWER := "0123456789abcdef"

  /** A digit read as `n` is one of the two that stand for it. */
  lemma DigitReads(c: char, n: nat)
    requires n < 16
    ensures IsHexDigit(c) && HexValue(c) == n <==> c == DIGITS[n] || c == LOWER[n]
  {
    DigitIs(n);
  }

  /** Digits are read in either case, the high one first, and nothing else is. */
  lemma PairReads(line: string, pos: nat, b: byte)
    ensures ReadPair(line, pos) == Some(b)
            <==> (At(line, pos) == DIGITS[b / 16] || At(line, pos) == LOWER[b / 16])
                 && (At(line, pos + 1) == DIGITS[b % 16] || At(line, pos + 1) == LOWER[b % 16])
  {
    hide IsHexDigit, HexValue, At;
    DigitReads(At(line, pos), b / 16);
    DigitReads(At(line, pos + 1), b % 16);
  }

  /** Byte `k` is written as two upper-case digits, the high one first. */
  lemma HexAt(bs: seq<byte>, k: nat)
    requires k < |bs|
    ensures Hex(bs)[2 * k] == DIGITS[bs[k] / 16] && Hex(bs)[2 * k + 1] == DIGITS[bs[k] % 16]
  {
    hide HexDigit;
    HexPairs(bs, k);
    DigitIs(bs[k] / 16);
    DigitIs(bs[k] % 16);
  }

  lemma OneByte(b: byte)
    ensures ToBE(b, 1) == [b] && Sum([b]) == b
  {
    assert ToBE(b, 1) == ToBE(b / 256, 0) + [b % 256];
    assert [b][..0] == [];
  }

  lemma AddByte(bs: seq<byte>, b: byte)
    ensures Hex(bs + [b]) == Hex(bs) + Hex(ToBE(b, 1)) && Sum(bs + [b]) == Sum(bs) + Sum(ToBE(b, 1))
  {
    OneByte(b);
    HexConcat(bs, [b]);
    SumConcat(bs, [b]);
  }

  /** The loop of both writers over a data buffer. */
  method WriteBuf(line0: string, checksum0: nat, buf: seq<byte>) returns (line: string, checksum: nat)
    requires checksum0 < 256
    ensures line == line0 + Hex(buf) && checksum == Check(checksum0, Sum(buf))
  {
    hide Check, ToBE;
    line, checksum := line0, checksum0;
    CheckZero(checksum0);
    for i := 0 to |buf|
      invariant checksum < 256
      invariant line == line0 + Hex(buf[..i]) && checksum == Check(checksum0, Sum(buf[..i]))
    {
      assert buf[..i + 1] == buf[..i] + [buf[i]];
      AddByte(buf[..i], buf[i]);
      CheckFolds(checksum0, Sum(buf[..i]), Sum(ToBE(buf[i], 1)));
      line, checksum := WriteNum(line, buf[i], 1, checksum);
    }
    assert buf[..|buf|] == buf;
  }

  /** The loop of both readers over data bytes. */
  method ReadData(line: string, pos: nat, n: nat, sum0: nat)
    returns (ok: bool, pos': nat, data: seq<byte>, sum: nat)
    requires sum0 < 256
    ensures ok <==> ReadBytes(line, pos, n).Some?
    ensures ok ==> pos' == pos + 2 * n && data == ReadBytes(line, pos, n).value && sum == Check(sum0, Sum(data))
  {
    hide Check, ReadPair;
    ok, pos', data, sum := true, pos, [], sum0;
    CheckZero(sum0);
    for i := 0 to n
      invariant ok && pos' == pos + 2 * i && sum < 256
      invariant ReadBytes(line, pos, i) == Some(data) && sum == Check(sum0, Sum(data))
    {
      var got, num, was := true, 0, sum;
      got, pos', num, sum := ReadNum(line, pos', 1, sum);
      OneOf(line, pos + 2 * i);
      if !got {
        NoneStays(line, pos, i + 1, n);
        return false, pos', data, sum;
      }
      SumSnoc(data, num);
      CheckFolds(sum0, Sum(data), num);
      data := data + [num];
    }
  }

  lemma OneOf(line: string, pos: nat)
    ensures ReadBytes(line, pos, 1).Some? <==> ReadPair(line, pos).Some?
    ensures ReadBytes(line, pos, 1).Some? ==>
              var bs := ReadBytes(line, pos, 1).value;
              bs == [ReadPair(line, pos).value] && FromBE(bs) == bs[0] && Sum(bs) == bs[0]
  {
    hide ReadPair;
    assert ReadBytes(line, pos, 0) == Some([]);
    if ReadPair(line, pos).Some? {
      var bs := [ReadPair(line, pos).value];
      assert bs[..0] == [];
    }
  }

  // ---------- reading record by record ----------

  /** The state of a record loop after these lines. */
  function Fold<S>(step: (S, string) -> S, st: S, lines: seq<string>): S {
    if lines == [] then st else step(Fold(step, st, lines[..|lines| - 1]), lines[|lines| - 1])
  }

  lemma FoldNone<S>(step: (S, string) -> S, st: S)
    ensures Fold(step, st, []) == st
  {
  }

  lemma FoldOne<S>(step: (S, string) -> S, st: S, line: string)
    ensures Fold(step, st, [line]) == step(st, line)
  {
    assert [line][..0] == [];
  }

  lemma {:induction false} FoldConcat<S>(step: (S, string) -> S, st: S, a: seq<string>, b: seq<string>)
    ensures Fold(step, st, a + b) == Fold(step, Fold(step, st, a), b)
  {
    if b == [] {
      assert a + b == a;
    } else {
      assert (a + b)[..|a + b| - 1] == a + b[..|b| - 1];
      FoldConcat(step, st, a, b[..|b| - 1]);
    }
  }

  /** What every line extends, all lines extend. */
  lemma {:induction false} FoldGrows<S, T>(step: (S, string) -> S, view: S -> seq<T>, st: S, lines: seq<string>)
    requires forall s, line :: view(s) <= view(step(s, line))
    ensures view(st) <= view(Fold(step, st, lines))
  {
    if lines != [] {
      FoldGrows(step, view, st, lines[..|lines| - 1]);
    }
  }

  // ---------- fgets ----------

  /** How much one `fgets` takes: through the newline, or what fits the buffer. */
  function LineLen(text: string): (n: nat)
    ensures n <= |text| && (text != [] ==> n > 0)
  {
    if |text| <= 1 then |text|
    else if text[0] == '\n' then 1
    else Cap(1 + LineLen(text[1..]))
  }

  function Cap(n: nat): nat { if n < LINE_BUFSZ then n else LINE_BUFSZ - 1 }

  function Lines(text: string): seq<string> {
    if text == [] then [] else [text[..LineLen(text)]] + Lines(text[LineLen(text)..])
  }

  function Join(lines: seq<string>): string {
    if lines == [] then [] else lines[0] + Join(lines[1..])
  }

  /** A line as both writers produce it: one newline, at the end, and short enough for the reader. */
  ghost predicate OneLine(line: string) {
    0 < |line| < LINE_BUFSZ && line[|line| - 1] == '\n' && '\n' !in line[..|line| - 1]
  }

  ghost predicate AllOneLine(lines: seq<string>) {
    forall i :: 0 <= i < |lines| ==> OneLine(lines[i])
  }

  lemma {:induction false} LineLenOfLine(line: string, rest: string)
    requires OneLine(line)
    ensures LineLen(line + rest) == |line|
    decreases |line|
  {
    if |line| > 1 {
      assert line[0] == line[..|line| - 1][0];
      assert line[1..][..|line| - 2] == line[1..|line| - 1];
      assert line[..|line| - 1] == [line[0]] + line[1..|line| - 1];
      LineLenOfLine(line[1..], rest);
      assert (line + rest)[1..] == line[1..] + rest;
    }
  }

  /** Reading line by line gives back the lines that were written. */
  lemma {:induction false} LinesOfJoin(lines: seq<string>)
    requires forall i :: 0 <= i < |lines| ==> OneLine(lines[i])
    ensures Lines(Join(lines)) == lines
  {
    if lines != [] {
      LineLenOfLine(lines[0], Join(lines[1..]));
      LinesOfJoin(lines[1..]);
      assert Join(lines)[..|lines[0]|] == lines[0] && Join(lines)[|lines[0]|..] == Join(lines[1..]);
    }
  }

  lemma {:induction false} JoinConcat(a: seq<string>, b: seq<string>)
    ensures Join(a + b) == Join(a) + Join(b)
  {
    if a == [] {
      assert a + b == b;
    } else {
      JoinConcat(a[1..], b);
      assert (a + b)[1..] == a[1..] + b;
    }
  }
}
