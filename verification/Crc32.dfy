/** The table-driven CRC-32 of elfcopy/sections.c against the bit-at-a-time definition of section 8 of
    RFC 1952. */
module Crc32 {

  const POLY: bv32 := 0xEDB88320

  // ---------- one bit at a time ----------

  function Xor(x: bv32, y: bv32): bv32 { x ^ y }

  function Half(x: bv32): bv32 { x >> 1 }

  predicate Odd(x: bv32) { x & 1 == 1 }

  /** Bit `k` of a byte, as a word. */
  function Bit(b: bv8, k: nat): bv32
    requires k < 8
  {
    Down(b as bv32, k) & 1
  }

  function Down(x: bv32, k: nat): bv32 {
    if k == 0 then x else Half(Down(x, k - 1))
  }

  /** One message bit enters: the register shifts right, and the polynomial is folded in when the bit
      shifted out differs from it. */
  function BitIn(crc: bv32, bit: bv32): bv32 {
    if Odd(Xor(crc, bit)) then Xor(Half(crc), POLY) else Half(crc)
  }

  /** The first `k` bits of a byte, least significant first. */
  function BitsIn(crc: bv32, b: bv8, k: nat): bv32
    requires k <= 8
  {
    if k == 0 then crc else BitIn(BitsIn(crc, b, k - 1), Bit(b, k - 1))
  }

  function BytesIn(crc: bv32, s: seq<bv8>): bv32 {
    if s == [] then crc else BitsIn(BytesIn(crc, s[..|s| - 1]), s[|s| - 1], 8)
  }

  /** CRC-32 of a byte string: all ones to begin with, complemented at the end. */
  function CrcOf(s: seq<bv8>): bv32 {
    Xor(BytesIn(0xFFFFFFFF, s), 0xFFFFFFFF)
  }

  // ---------- the table ----------

  /** `crctable`, in rows of sixteen. */
  function CrcTable(i: bv8): bv32 {
    var j := i & 0xF;
    match i >> 4
    case 0 => Row0(j)
    case 1 => Row1(j)
    case 2 => Row2(j)
    case 3 => Row3(j)
    case 4 => Row4(j)
    case 5 => Row5(j)
    case 6 => Row6(j)
    case 7 => Row7(j)
    case 8 => Row8(j)
    case 9 => Row9(j)
    case 10 => RowA(j)
    case 11 => RowB(j)
    case 12 => RowC(j)
    case 13 => RowD(j)
    case 14 => RowE(j)
    case 15 => RowF(j)
  }

  function Row0(j: bv8): bv32 {
    match j
    case 0 => 0x00000000 case 1 => 0x77073096 case 2 => 0xEE0E612C case 3 => 0x990951BA
    case 4 => 0x076DC419 case 5 => 0x706AF48F case 6 => 0xE963A535 case 7 => 0x9E6495A3
    case 8 => 0x0EDB8832 case 9 => 0x79DCB8A4 case 10 => 0xE0D5E91E case 11 => 0x97D2D988
    case 12 => 0x09B64C2B case 13 => 0x7EB17CBD case 14 => 0xE7B82D07 case 15 => 0x90BF1D91
    case _ => 0
  }

  function Row1(j: bv8): bv32 {
    match j
    case 0 => 0x1DB71064 case 1 => 0x6AB020F2 case 2 => 0xF3B97148 case 3 => 0x84BE41DE
    case 4 => 0x1ADAD47D case 5 => 0x6DDDE4EB case 6 => 0xF4D4B551 case 7 => 0x83D385C7
    case 8 => 0x136C9856 case 9 => 0x646BA8C0 case 10 => 0xFD62F97A case 11 => 0x8A65C9EC
    case 12 => 0x14015C4F case 13 => 0x63066CD9 case 14 => 0xFA0F3D63 case 15 => 0x8D080DF5
    case _ => 0
  }

  function Row2(j: bv8): bv32 {
    match j
    case 0 => 0x3B6E20C8 case 1 => 0x4C69105E case 2 => 0xD56041E4 case 3 => 0xA2677172
    case 4 => 0x3C03E4D1 case 5 => 0x4B04D447 case 6 => 0xD20D85FD case 7 => 0xA50AB56B
    case 8 => 0x35B5A8FA case 9 => 0x42B2986C case 10 => 0xDBBBC9D6 case 11 => 0xACBCF940
    case 12 => 0x32D86CE3 case 13 => 0x45DF5C75 case 14 => 0xDCD60DCF case 15 => 0xABD13D59
    case _ => 0
  }

  function Row3(j: bv8): bv32 {
    match j
    case 0 => 0x26D930AC case 1 => 0x51DE003A case 2 => 0xC8D75180 case 3 => 0xBFD06116
    case 4 => 0x21B4F4B5 case 5 => 0x56B3C423 case 6 => 0xCFBA9599 case 7 => 0xB8BDA50F
    case 8 => 0x2802B89E case 9 => 0x5F058808 case 10 => 0xC60CD9B2 case 11 => 0xB10BE924
    case 12 => 0x2F6F7C87 case 13 => 0x58684C11 case 14 => 0xC1611DAB case 15 => 0xB6662D3D
    case _ => 0
  }

  function Row4(j: bv8): bv32 {
    match j
    case 0 => 0x76DC4190 case 1 => 0x01DB7106 case 2 => 0x98D220BC case 3 => 0xEFD5102A
    case 4 => 0x71B18589 case 5 => 0x06B6B51F case 6 => 0x9FBFE4A5 case 7 => 0xE8B8D433
    case 8 => 0x7807C9A2 case 9 => 0x0F00F934 case 10 => 0x9609A88E case 11 => 0xE10E9818
    case 12 => 0x7F6A0DBB case 13 => 0x086D3D2D case 14 => 0x91646C97 case 15 => 0xE6635C01
    case _ => 0
  }

  function Row5(j: bv8): bv32 {
    match j
    case 0 => 0x6B6B51F4 case 1 => 0x1C6C6162 case 2 => 0x856530D8 case 3 => 0xF262004E
    case 4 => 0x6C0695ED case 5 => 0x1B01A57B case 6 => 0x8208F4C1 case 7 => 0xF50FC457
    case 8 => 0x65B0D9C6 case 9 => 0x12B7E950 case 10 => 0x8BBEB8EA case 11 => 0xFCB9887C
    case 12 => 0x62DD1DDF case 13 => 0x15DA2D49 case 14 => 0x8CD37CF3 case 15 => 0xFBD44C65
    case _ => 0
  }

  function Row6(j: bv8): bv32 {
    match j
    case 0 => 0x4DB26158 case 1 => 0x3AB551CE case 2 => 0xA3BC0074 case 3 => 0xD4BB30E2
    case 4 => 0x4ADFA541 case 5 => 0x3DD895D7 case 6 => 0xA4D1C46D case 7 => 0xD3D6F4FB
    case 8 => 0x4369E96A case 9 => 0x346ED9FC case 10 => 0xAD678846 case 11 => 0xDA60B8D0
    case 12 => 0x44042D73 case 13 => 0x33031DE5 case 14 => 0xAA0A4C5F case 15 => 0xDD0D7CC9
    case _ => 0
  }

  function Row7(j: bv8): bv32 {
    match j
    case 0 => 0x5005713C case 1 => 0x270241AA case 2 => 0xBE0B1010 case 3 => 0xC90C2086
    case 4 => 0x5768B525 case 5 => 0x206F85B3 case 6 => 0xB966D409 case 7 => 0xCE61E49F
    case 8 => 0x5EDEF90E case 9 => 0x29D9C998 case 10 => 0xB0D09822 case 11 => 0xC7D7A8B4
    case 12 => 0x59B33D17 case 13 => 0x2EB40D81 case 14 => 0xB7BD5C3B case 15 => 0xC0BA6CAD
    case _ => 0
  }

  function Row8(j: bv8): bv32 {
    match j
    case 0 => 0xEDB88320 case 1 => 0x9ABFB3B6 case 2 => 0x03B6E20C case 3 => 0x74B1D29A
    case 4 => 0xEAD54739 case 5 => 0x9DD277AF case 6 => 0x04DB2615 case 7 => 0x73DC1683
    case 8 => 0xE3630B12 case 9 => 0x94643B84 case 10 => 0x0D6D6A3E case 11 => 0x7A6A5AA8
    case 12 => 0xE40ECF0B case 13 => 0x9309FF9D case 14 => 0x0A00AE27 case 15 => 0x7D079EB1
    case _ => 0
  }

  function Row9(j: bv8): bv32 {
    match j
    case 0 => 0xF00F9344 case 1 => 0x8708A3D2 case 2 => 0x1E01F268 case 3 => 0x6906C2FE
    case 4 => 0xF762575D case 5 => 0x806567CB case 6 => 0x196C3671 case 7 => 0x6E6B06E7
    case 8 => 0xFED41B76 case 9 => 0x89D32BE0 case 10 => 0x10DA7A5A case 11 => 0x67DD4ACC
    case 12 => 0xF9B9DF6F case 13 => 0x8EBEEFF9 case 14 => 0x17B7BE43 case 15 => 0x60B08ED5
    case _ => 0
  }

  function RowA(j: bv8): bv32 {
    match j
    case 0 => 0xD6D6A3E8 case 1 => 0xA1D1937E case 2 => 0x38D8C2C4 case 3 => 0x4FDFF252
    case 4 => 0xD1BB67F1 case 5 => 0xA6BC5767 case 6 => 0x3FB506DD case 7 => 0x48B2364B
    case 8 => 0xD80D2BDA case 9 => 0xAF0A1B4C case 10 => 0x36034AF6 case 11 => 0x41047A60
    case 12 => 0xDF60EFC3 case 13 => 0xA867DF55 case 14 => 0x316E8EEF case 15 => 0x4669BE79
    case _ => 0
  }

  function RowB(j: bv8): bv32 {
    match j
    case 0 => 0xCB61B38C case 1 => 0xBC66831A case 2 => 0x256FD2A0 case 3 => 0x5268E236
    case 4 => 0xCC0C7795 case 5 => 0xBB0B4703 case 6 => 0x220216B9 case 7 => 0x5505262F
    case 8 => 0xC5BA3BBE case 9 => 0xB2BD0B28 case 10 => 0x2BB45A92 case 11 => 0x5CB36A04
    case 12 => 0xC2D7FFA7 case 13 => 0xB5D0CF31 case 14 => 0x2CD99E8B case 15 => 0x5BDEAE1D
    case _ => 0
  }

  function RowC(j: bv8): bv32 {
    match j
    case 0 => 0x9B64C2B0 case 1 => 0xEC63F226 case 2 => 0x756AA39C case 3 => 0x026D930A
    case 4 => 0x9C0906A9 case 5 => 0xEB0E363F case 6 => 0x72076785 case 7 => 0x05005713
    case 8 => 0x95BF4A82 case 9 => 0xE2B87A14 case 10 => 0x7BB12BAE case 11 => 0x0CB61B38
    case 12 => 0x92D28E9B case 13 => 0xE5D5BE0D case 14 => 0x7CDCEFB7 case 15 => 0x0BDBDF21
    case _ => 0
  }

  function RowD(j: bv8): bv32 {
    match j
    case 0 => 0x86D3D2D4 case 1 => 0xF1D4E242 case 2 => 0x68DDB3F8 case 3 => 0x1FDA836E
    case 4 => 0x81BE16CD case 5 => 0xF6B9265B case 6 => 0x6FB077E1 case 7 => 0x18B74777
    case 8 => 0x88085AE6 case 9 => 0xFF0F6A70 case 10 => 0x66063BCA case 11 => 0x11010B5C
    case 12 => 0x8F659EFF case 13 => 0xF862AE69 case 14 => 0x616BFFD3 case 15 => 0x166CCF45
    case _ => 0
  }

  function RowE(j: bv8): bv32 {
    match j
    case 0 => 0xA00AE278 case 1 => 0xD70DD2EE case 2 => 0x4E048354 case 3 => 0x3903B3C2
    case 4 => 0xA7672661 case 5 => 0xD06016F7 case 6 => 0x4969474D case 7 => 0x3E6E77DB
    case 8 => 0xAED16A4A case 9 => 0xD9D65ADC case 10 => 0x40DF0B66 case 11 => 0x37D83BF0
    case 12 => 0xA9BCAE53 case 13 => 0xDEBB9EC5 case 14 => 0x47B2CF7F case 15 => 0x30B5FFE9
    case _ => 0
  }

  function RowF(j: bv8): bv32 {
    match j
    case 0 => 0xBDBDF21C case 1 => 0xCABAC28A case 2 => 0x53B39330 case 3 => 0x24B4A3A6
    case 4 => 0xBAD03605 case 5 => 0xCDD70693 case 6 => 0x54DE5729 case 7 => 0x23D967BF
    case 8 => 0xB3667A2E case 9 => 0xC4614AB8 case 10 => 0x5D681B02 case 11 => 0x2A6F2B94
    case 12 => 0xB40BBE37 case 13 => 0xC30C8EA1 case 14 => 0x5A05DF1B case 15 => 0x2D02EF8D
    case _ => 0
  }

  // ---------- exclusive or ----------

  lemma XorAssoc(x: bv32, y: bv32, z: bv32)
    ensures Xor(Xor(x, y), z) == Xor(x, Xor(y, z))
  {
  }

  lemma XorComm(x: bv32, y: bv32)
    ensures Xor(x, y) == Xor(y, x)
  {
  }

  lemma XorSelf(x: bv32, y: bv32)
    ensures Xor(Xor(x, y), y) == x
  {
  }

  lemma XorZero(x: bv32)
    ensures Xor(x, 0) == x
  {
  }

  lemma HalfXor(x: bv32, y: bv32)
    ensures Half(Xor(x, y)) == Xor(Half(x), Half(y))
  {
  }

  lemma OddXor(x: bv32, y: bv32)
    ensures Odd(Xor(x, y)) <==> Odd(x) != Odd(y)
  {
  }

  lemma OddLow(x: bv32)
    ensures Odd(x & 1) == Odd(x)
  {
  }

  /** Swapping the middle operands. */
  lemma XorSwap(x: bv32, y: bv32, z: bv32)
    ensures Xor(Xor(x, y), z) == Xor(Xor(x, z), y)
  {
    hide Xor;
    XorAssoc(x, y, z);
    XorComm(y, z);
    XorAssoc(x, z, y);
  }

  // ---------- why the table works ----------

  /** One shift without input. */
  function Shift(c: bv32): bv32 {
    if Odd(c) then Xor(Half(c), POLY) else Half(c)
  }

  function Shifts(c: bv32, k: nat): bv32 {
    if k == 0 then c else Shift(Shifts(c, k - 1))
  }

  function EightShifts(c: bv32): bv32 {
    Shift(Shift(Shift(Shift(Shift(Shift(Shift(Shift(c))))))))
  }

  lemma ShiftsAre(c: bv32)
    ensures Shifts(c, 8) == EightShifts(c)
  {
    hide Shift;
    assert Shifts(c, 1) == Shift(c);
    assert Shifts(c, 3) == Shift(Shift(Shifts(c, 1)));
    assert Shifts(c, 5) == Shift(Shift(Shifts(c, 3)));
    assert Shifts(c, 7) == Shift(Shift(Shifts(c, 5)));
  }

  lemma ShiftLinear(x: bv32, y: bv32)
    ensures Shift(Xor(x, y)) == Xor(Shift(x), Shift(y))
  {
    hide Xor, Half, Odd, POLY;
    var a, b := Half(x), Half(y);
    OddXor(x, y);
    HalfXor(x, y);
    XorSwap(a, POLY, b);
    XorAssoc(a, b, POLY);
    XorAssoc(Xor(a, POLY), b, POLY);
    XorSelf(Xor(a, b), POLY);
  }

  lemma {:induction false} ShiftsLinear(x: bv32, y: bv32, k: nat)
    ensures Shifts(Xor(x, y), k) == Xor(Shifts(x, k), Shifts(y, k))
  {
    hide Shift, Xor;
    if k > 0 {
      ShiftsLinear(x, y, k - 1);
      ShiftLinear(Shifts(x, k - 1), Shifts(y, k - 1));
    }
  }

  /** The low `n` bits are clear. */
  predicate Clear(y: bv32, n: nat) {
    n == 0 || (!Odd(y) && Clear(Half(y), n - 1))
  }

  /** Shifting clear bits out only moves the rest down. */
  lemma {:induction false} ClearBitsMove(y: bv32, n: nat, k: nat)
    requires Clear(y, n) && k <= n
    ensures Shifts(y, k) == Down(y, k) && Clear(Down(y, k), n - k)
  {
    hide Xor, Half, Odd;
    if k > 0 {
      ClearBitsMove(y, n, k - 1);
    }
  }

  lemma Entries0(j: bv8)
    requires j < 16
    ensures Row0(j) == EightShifts(0x00 ^ (j as bv32))
  {
    match j
    case 0 => case 1 => case 2 => case 3 => case 4 => case 5 => case 6 => case 7 =>
    case 8 => case 9 => case 10 => case 11 => case 12 => case 13 => case 14 => case 15 =>
    case _ =>
  }

  lemma Entries1(j: bv8)
    requires j < 16
    ensures Row1(j) == EightShifts(0x10 ^ (j as bv32))
  {
    match j
    case 0 => case 1 => case 2 => case 3 => case 4 => case 5 => case 6 => case 7 =>
    case 8 => case 9 => case 10 => case 11 => case 12 => case 13 => case 14 => case 15 =>
    case _ =>
  }

  lemma Entries2(j: bv8)
    requires j < 16
    ensures Row2(j) == EightShifts(0x20 ^ (j as bv32))
  {
    match j
    case 0 => case 1 => case 2 => case 3 => case 4 => case 5 => case 6 => case 7 =>
    case 8 => case 9 => case 10 => case 11 => case 12 => case 13 => case 14 => case 15 =>
    case _ =>
  }

  lemma Entries3(j: bv8)
    requires j < 16
    ensures Row3(j) == EightShifts(0x30 ^ (j as bv32))
  {
    match j
    case 0 => case 1 => case 2 => case 3 => case 4 => case 5 => case 6 => case 7 =>
    case 8 => case 9 => case 10 => case 11 => case 12 => case 13 => case 14 => case 15 =>
    case _ =>
  }

  lemma Entries4(j: bv8)
    requires j < 16
    ensures Row4(j) == EightShifts(0x40 ^ (j as bv32))
  {
    match j
    case 0 => case 1 => case 2 => case 3 => case 4 => case 5 => case 6 => case 7 =>
    case 8 => case 9 => case 10 => case 11 => case 12 => case 13 => case 14 => case 15 =>
    case _ =>
  }

  lemma Entries5(j: bv8)
    requires j < 16
    ensures Row5(j) == EightShifts(0x50 ^ (j as bv32))
  {
    match j
    case 0 => case 1 => case 2 => case 3 => case 4 => case 5 => case 6 => case 7 =>
    case 8 => case 9 => case 10 => case 11 => case 12 => case 13 => case 14 => case 15 =>
    case _ =>
  }

  lemma Entries6(j: bv8)
    requires j < 16
    ensures Row6(j) == EightShifts(0x60 ^ (j as bv32))
  {
    match j
    case 0 => case 1 => case 2 => case 3 => case 4 => case 5 => case 6 => case 7 =>
    case 8 => case 9 => case 10 => case 11 => case 12 => case 13 => case 14 => case 15 =>
    case _ =>
  }

  lemma Entries7(j: bv8)
    requires j < 16
    ensures Row7(j) == EightShifts(0x70 ^ (j as bv32))
  {
    match j
    case 0 => case 1 => case 2 => case 3 => case 4 => case 5 => case 6 => case 7 =>
    case 8 => case 9 => case 10 => case 11 => case 12 => case 13 => case 14 => case 15 =>
    case _ =>
  }

  lemma Entries8(j: bv8)
    requires j < 16
    ensures Row8(j) == EightShifts(0x80 ^ (j as bv32))
  {
    match j
    case 0 => case 1 => case 2 => case 3 => case 4 => case 5 => case 6 => case 7 =>
    case 8 => case 9 => case 10 => case 11 => case 12 => case 13 => case 14 => case 15 =>
    case _ =>
  }

  lemma Entries9(j: bv8)
    requires j < 16
    ensures Row9(j) == EightShifts(0x90 ^ (j as bv32))
  {
    match j
    case 0 => case 1 => case 2 => case 3 => case 4 => case 5 => case 6 => case 7 =>
    case 8 => case 9 => case 10 => case 11 => case 12 => case 13 => case 14 => case 15 =>
    case _ =>
  }

  lemma EntriesA(j: bv8)
    requires j < 16
    ensures RowA(j) == EightShifts(0xA0 ^ (j as bv32))
  {
    match j
    case 0 => case 1 => case 2 => case 3 => case 4 => case 5 => case 6 => case 7 =>
    case 8 => case 9 => case 10 => case 11 => case 12 => case 13 => case 14 => case 15 =>
    case _ =>
  }

  lemma EntriesB(j: bv8)
    requires j < 16
    ensures RowB(j) == EightShifts(0xB0 ^ (j as bv32))
  {
    match j
    case 0 => case 1 => case 2 => case 3 => case 4 => case 5 => case 6 => case 7 =>
    case 8 => case 9 => case 10 => case 11 => case 12 => case 13 => case 14 => case 15 =>
    case _ =>
  }

  lemma EntriesC(j: bv8)
    requires j < 16
    ensures RowC(j) == EightShifts(0xC0 ^ (j as bv32))
  {
    match j
    case 0 => case 1 => case 2 => case 3 => case 4 => case 5 => case 6 => case 7 =>
    case 8 => case 9 => case 10 => case 11 => case 12 => case 13 => case 14 => case 15 =>
    case _ =>
  }

  lemma EntriesD(j: bv8)
    requires j < 16
    ensures RowD(j) == EightShifts(0xD0 ^ (j as bv32))
  {
    match j
    case 0 => case 1 => case 2 => case 3 => case 4 => case 5 => case 6 => case 7 =>
    case 8 => case 9 => case 10 => case 11 => case 12 => case 13 => case 14 => case 15 =>
    case _ =>
  }

  lemma EntriesE(j: bv8)
    requires j < 16
    ensures RowE(j) == EightShifts(0xE0 ^ (j as bv32))
  {
    match j
    case 0 => case 1 => case 2 => case 3 => case 4 => case 5 => case 6 => case 7 =>
    case 8 => case 9 => case 10 => case 11 => case 12 => case 13 => case 14 => case 15 =>
    case _ =>
  }

  lemma EntriesF(j: bv8)
    requires j < 16
    ensures RowF(j) == EightShifts(0xF0 ^ (j as bv32))
  {
    match j
    case 0 => case 1 => case 2 => case 3 => case 4 => case 5 => case 6 => case 7 =>
    case 8 => case 9 => case 10 => case 11 => case 12 => case 13 => case 14 => case 15 =>
    case _ =>
  }

  /** Every entry of the table is eight shifts of its index. */
  lemma TableEntry(i: bv8)
    ensures CrcTable(i) == Shifts(i as bv32, 8)
  {
    hide EightShifts, Shifts;
    ShiftsAre(i as bv32);
    var j := i & 0xF;
    Nibbles(i);
    match i >> 4
    case 0 => Entries0(j);
    case 1 => Entries1(j);
    case 2 => Entries2(j);
    case 3 => Entries3(j);
    case 4 => Entries4(j);
    case 5 => Entries5(j);
    case 6 => Entries6(j);
    case 7 => Entries7(j);
    case 8 => Entries8(j);
    case 9 => Entries9(j);
    case 10 => EntriesA(j);
    case 11 => EntriesB(j);
    case 12 => EntriesC(j);
    case 13 => EntriesD(j);
    case 14 => EntriesE(j);
    case 15 => EntriesF(j);
  }

  lemma Nibbles(i: bv8)
    ensures (((i >> 4) as bv32) << 4) ^ ((i & 0xF) as bv32) == i as bv32 && i & 0xF < 16
  {
  }

  function Low(c: bv32): bv8 { (c & 0xFF) as bv8 }

  function Word(b: bv8): bv32 { b as bv32 }

  function High(c: bv32): bv32 { c & 0xFFFFFF00 }

  function Shr8(c: bv32): bv32 { c >> 8 }

  lemma LowHigh(c: bv32)
    ensures Xor(Word(Low(c)), High(c)) == c && Shr8(High(c)) == Shr8(c)
  {
  }

  function Shr2(c: bv32): bv32 { c >> 2 }

  function Shr4(c: bv32): bv32 { c >> 4 }

  lemma HalfTwice(c: bv32)
    ensures Half(Half(c)) == Shr2(c)
  {
  }

  lemma Shr2Twice(c: bv32)
    ensures Shr2(Shr2(c)) == Shr4(c)
  {
  }

  lemma Shr4Twice(c: bv32)
    ensures Shr4(Shr4(c)) == Shr8(c)
  {
  }

  lemma DownTwo(c: bv32, k: nat)
    ensures Down(c, k + 2) == Shr2(Down(c, k))
  {
    hide Half, Shr2;
    HalfTwice(Down(c, k));
    assert Down(c, k + 1) == Half(Down(c, k));
  }

  lemma Shr8IsDown(c: bv32)
    ensures Down(c, 8) == Shr8(c)
  {
    hide Half, Shr2, Shr4, Shr8;
    assert Down(c, 0) == c;
    hide Down;
    DownTwo(c, 0);
    DownTwo(c, 2);
    DownTwo(c, 4);
    DownTwo(c, 6);
    Shr2Twice(c);
    Shr2Twice(Shr4(c));
    Shr4Twice(c);
  }

  lemma LowBitsOfHigh(c: bv32)
    ensures var y := High(c);
            var z := Half(Half(Half(Half(y))));
            && !Odd(y) && !Odd(Half(y)) && !Odd(Half(Half(y))) && !Odd(Half(Half(Half(y))))
            && !Odd(z) && !Odd(Half(z)) && !Odd(Half(Half(z))) && !Odd(Half(Half(Half(z))))
  {
  }

  lemma ClearFour(y: bv32, n: nat)
    requires !Odd(y) && !Odd(Half(y)) && !Odd(Half(Half(y))) && !Odd(Half(Half(Half(y))))
    requires Clear(Half(Half(Half(Half(y)))), n)
    ensures Clear(y, n + 4)
  {
    hide Odd, Half;
    assert Clear(Half(Half(Half(y))), n + 1);
    assert Clear(Half(Half(y)), n + 2);
    assert Clear(Half(y), n + 3);
  }

  lemma HighIsClear(c: bv32)
    ensures Clear(High(c), 8)
  {
    hide High, Odd, Half;
    var y := High(c);
    var z := Half(Half(Half(Half(y))));
    LowBitsOfHigh(c);
    assert Clear(Half(Half(Half(Half(z)))), 0);
    ClearFour(z, 0);
    ClearFour(y, 4);
  }

  /** One table look-up does what eight shifts do. */
  lemma TableStep(c: bv32)
    ensures Xor(CrcTable(Low(c)), Shr8(c)) == Shifts(c, 8)
  {
    hide CrcTable, Shifts, Xor, Low, High, Shr8, Down, Clear;
    LowHigh(c);
    TableEntry(Low(c));
    HighIsClear(c);
    ClearBitsMove(High(c), 8, 8);
    Shr8IsDown(High(c));
    ShiftsLinear(Word(Low(c)), High(c), 8);
  }

  /** Taking in `k` bits one by one leaves what `k` shifts make of the register with the byte mixed in,
      up to the bits still to come. */
  lemma {:induction false} BitsAreShifts(crc: bv32, b: bv8, k: nat)
    requires k <= 8
    ensures Xor(BitsIn(crc, b, k), Down(Word(b), k)) == Shifts(Xor(crc, Word(b)), k)
  {
    hide Shift, BitIn, Half, Xor, Odd, Bit;
    if k > 0 {
      BitsAreShifts(crc, b, k - 1);
      BitIs(b, k - 1);
      OneMoreBit(BitsIn(crc, b, k - 1), Down(Word(b), k - 1), Bit(b, k - 1));
    }
  }

  lemma BitIs(b: bv8, k: nat)
    requires k < 8
    ensures Odd(Bit(b, k)) == Odd(Down(Word(b), k))
  {
    hide Down, Odd;
    OddLow(Down(Word(b), k));
  }

  lemma OneMoreBit(r: bv32, rest: bv32, bit: bv32)
    requires Odd(bit) == Odd(rest)
    ensures Xor(BitIn(r, bit), Half(rest)) == Shift(Xor(r, rest))
  {
    hide Xor, Half, Odd, POLY;
    OddXor(r, bit);
    OddXor(r, rest);
    HalfXor(r, rest);
    XorSwap(Half(r), POLY, Half(rest));
  }

  lemma MixLow(crc: bv32, b: bv8)
    ensures Low(Xor(crc, Word(b))) == Low(crc) ^ b && Shr8(Xor(crc, Word(b))) == Shr8(crc) && Shr8(Word(b)) == 0
  {
  }

  /** One byte through the table is its eight bits one at a time. */
  lemma ByteStep(crc: bv32, b: bv8)
    ensures Xor(CrcTable(Low(crc) ^ b), Shr8(crc)) == BitsIn(crc, b, 8)
  {
    hide CrcTable, Shifts, BitsIn, Xor, Shr8, Down, Low, Word;
    BitsAreShifts(crc, b, 8);
    Shr8IsDown(Word(b));
    TableStep(Xor(crc, Word(b)));
    MixLow(crc, b);
    XorZero(BitsIn(crc, b, 8));
  }

  /** `calc_crc32`; its one caller starts it with all ones. */
  method CalcCrc32(p: seq<bv8>, crc0: bv32) returns (crc: bv32)
    ensures crc == Xor(BytesIn(crc0, p), 0xFFFFFFFF)
    ensures crc0 == 0xFFFFFFFF ==> crc == CrcOf(p)
  {
    hide CrcTable, BitsIn, Low, Xor, Shr8;
    crc := crc0;
    for i := 0 to |p|
      invariant crc == BytesIn(crc0, p[..i])
    {
      assert p[..i + 1][..i] == p[..i];
      ByteStep(crc, p[i]);
      crc := Xor(CrcTable(Low(crc) ^ p[i]), Shr8(crc));
    }
    assert p[..|p|] == p;
    crc := Xor(crc, 0xFFFFFFFF);
  }
}
