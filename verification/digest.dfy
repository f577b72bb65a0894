/** Checksums and digests: the table-driven CRC-32, and the blocks SHA-256 feeds to its compression function. */
module Digests {
  import opened Codec

  // ---- Words ----------------------------------------------------------------------------

  function Xor(a: bv32, b: bv32): bv32 { a ^ b }

  function Half(x: bv32): bv32 { x >> 1 }

  predicate Odd(x: bv32) { x & 1 != 0 }

  function LowByte(x: bv32): bv32 { x & 0xFF }

  function HighBytes(x: bv32): bv32 { x & 0xFFFF_FF00 }

  function Down(x: bv32): bv32 { x >> 8 }

  lemma HalfXor(x: bv32, y: bv32)
    ensures Half(Xor(x, y)) == Xor(Half(x), Half(y))
  {
  }

  lemma OddXor(x: bv32, y: bv32)
    ensures Odd(Xor(x, y)) <==> Odd(x) != Odd(y)
  {
  }

  lemma XorAssoc(a: bv32, b: bv32, c: bv32)
    ensures Xor(Xor(a, b), c) == Xor(a, Xor(b, c))
  {
  }

  lemma XorCommutes(a: bv32, b: bv32)
    ensures Xor(a, b) == Xor(b, a)
  {
  }

  lemma XorCancels(a: bv32, b: bv32)
    ensures Xor(a, Xor(a, b)) == b
  {
  }

  lemma XorTwice(p: bv32, a: bv32, b: bv32)
    ensures Xor(Xor(p, a), b) == Xor(p, Xor(a, b)) == Xor(a, Xor(p, b))
    ensures Xor(Xor(p, a), Xor(p, b)) == Xor(a, b)
  {
    hide Xor;
    XorAssoc(p, a, b);
    XorCommutes(p, a);
    XorAssoc(a, p, b);
    XorAssoc(a, p, Xor(p, b));
    XorCancels(p, b);
  }

  // ---- CRC-32 ---------------------------------------------------------------------------

  const POLYNOMIAL: bv32 := 0xEDB88320
  const ONES: bv32 := 0xFFFF_FFFF

  /** One bit of the message enters the reflected shift register of section 3.2.9 of IEEE 802.3. */
  function Feed(crc: bv32, bit: bool): bv32 {
    if Odd(crc) != bit then Xor(POLYNOMIAL, Half(crc)) else Half(crc)
  }

  function FeedAll(crc: bv32, bits: seq<bool>): bv32
    decreases |bits|
  {
    if bits == [] then crc else FeedAll(Feed(crc, bits[0]), bits[1..])
  }

  /** The lowest n bits of a word, least significant first. */
  function BitsOf(b: bv32, n: nat): seq<bool> {
    if n == 0 then [] else [Odd(b)] + BitsOf(Half(b), n - 1)
  }

  function MessageBits(bytes: seq<bv8>): seq<bool> {
    if bytes == [] then [] else MessageBits(bytes[..|bytes| - 1]) + BitsOf(bytes[|bytes| - 1] as bv32, 8)
  }

  /** The checksum as the standard defines it, bit by bit. */
  function BitSerialCrc(bytes: seq<bv8>): bv32 {
    Xor(FeedAll(ONES, MessageBits(bytes)), ONES)
  }

  /** A zero bit enters the register. */
  function Shift(x: bv32): bv32 {
    if Odd(x) then Xor(POLYNOMIAL, Half(x)) else Half(x)
  }

  function Shifts(x: bv32, n: nat): bv32 {
    if n == 0 then x else Shift(Shifts(x, n - 1))
  }

  function Halves(x: bv32, n: nat): bv32 {
    if n == 0 then x else Half(Halves(x, n - 1))
  }

  lemma ShiftIsLinear(x: bv32, y: bv32)
    ensures Shift(Xor(x, y)) == Xor(Shift(x), Shift(y))
  {
    hide Xor, Half, Odd;
    HalfXor(x, y);
    OddXor(x, y);
    XorTwice(POLYNOMIAL, Half(x), Half(y));
  }

  lemma {:induction false} ShiftsAreLinear(x: bv32, y: bv32, n: nat)
    ensures Shifts(Xor(x, y), n) == Xor(Shifts(x, n), Shifts(y, n))
  {
    hide Xor, Shift;
    if n > 0 {
      ShiftsAreLinear(x, y, n - 1);
      ShiftIsLinear(Shifts(x, n - 1), Shifts(y, n - 1));
    }
  }

  lemma HalfChain(x: bv32)
    ensures Half(x) == x >> 1 && Half(x >> 1) == x >> 2 && Half(x >> 2) == x >> 3 && Half(x >> 3) == x >> 4
    ensures Half(x >> 4) == x >> 5 && Half(x >> 5) == x >> 6 && Half(x >> 6) == x >> 7 && Half(x >> 7) == x >> 8
  {
  }

  /** Halving eight times moves down by one byte. */
  lemma EightHalves(x: bv32)
    ensures Halves(x, 8) == Down(x)
  {
    hide Half;
    HalfChain(x);
    assert Halves(x, 1) == x >> 1;
    assert Halves(x, 2) == x >> 2;
    assert Halves(x, 3) == x >> 3;
    assert Halves(x, 4) == x >> 4;
    assert Halves(x, 5) == x >> 5;
    assert Halves(x, 6) == x >> 6;
    assert Halves(x, 7) == x >> 7;
  }

  lemma LowByteClear(x: bv32)
    requires LowByte(x) == 0
    ensures !Odd(x) && !Odd(x >> 1) && !Odd(x >> 2) && !Odd(x >> 3)
    ensures !Odd(x >> 4) && !Odd(x >> 5) && !Odd(x >> 6) && !Odd(x >> 7)
  {
  }

  /** A word whose low byte is zero only moves down. */
  lemma HighBytesMoveDown(x: bv32)
    requires LowByte(x) == 0
    ensures Shifts(x, 8) == Down(x)
  {
    hide Half, Odd, Xor, LowByte;
    HalfChain(x);
    LowByteClear(x);
    assert Shifts(x, 1) == x >> 1;
    assert Shifts(x, 2) == x >> 2;
    assert Shifts(x, 3) == x >> 3;
    assert Shifts(x, 4) == x >> 4;
    assert Shifts(x, 5) == x >> 5;
    assert Shifts(x, 6) == x >> 6;
    assert Shifts(x, 7) == x >> 7;
  }

  lemma SplitLowByte(x: bv32)
    ensures Xor(LowByte(x), HighBytes(x)) == x && LowByte(HighBytes(x)) == 0 && Down(HighBytes(x)) == Down(x)
  {
  }

  /** One table lookup does what eight shifts do. */
  lemma TableStep(x: bv32)
    ensures Shifts(x, 8) == Xor(Shifts(LowByte(x), 8), Down(x))
  {
    hide Xor, Shifts, LowByte, HighBytes, Down;
    SplitLowByte(x);
    ShiftsAreLinear(LowByte(x), HighBytes(x), 8);
    HighBytesMoveDown(HighBytes(x));
  }

  /** Feeding a bit is shifting once the rest of the byte has been folded in. */
  lemma FeedIsShift(crc: bv32, rest: bv32)
    ensures Xor(Feed(crc, Odd(rest)), Half(rest)) == Shift(Xor(crc, rest))
  {
    hide Xor, Half, Odd;
    HalfXor(crc, rest);
    OddXor(crc, rest);
    XorTwice(POLYNOMIAL, Half(crc), Half(rest));
  }

  lemma {:induction false} FeedBitsIsShifts(crc: bv32, rest: bv32, n: nat)
    ensures Xor(FeedAll(crc, BitsOf(rest, n)), Halves(rest, n)) == Shifts(Xor(crc, rest), n)
    decreases n
  {
    hide Xor, Half, Odd, Shift, Feed;
    if n > 0 {
      FeedIsShift(crc, rest);
      FeedBitsIsShifts(Feed(crc, Odd(rest)), Half(rest), n - 1);
      assert BitsOf(rest, n)[1..] == BitsOf(Half(rest), n - 1);
      HalvesOuter(rest, n - 1);
      ShiftsOuter(Xor(crc, rest), n - 1);
    }
  }

  lemma {:induction false} HalvesOuter(x: bv32, n: nat)
    ensures Halves(Half(x), n) == Halves(x, n + 1)
  {
    hide Half;
    if n > 0 {
      HalvesOuter(x, n - 1);
    }
  }

  lemma {:induction false} ShiftsOuter(x: bv32, n: nat)
    ensures Shifts(Shift(x), n) == Shifts(x, n + 1)
  {
    hide Shift;
    if n > 0 {
      ShiftsOuter(x, n - 1);
    }
  }

  lemma ByteIsUsedUp(b: bv8)
    ensures Halves(b as bv32, 8) == 0
  {
    hide Halves, Down;
    EightHalves(b as bv32);
    ByteEnds(b);
  }

  lemma ByteEnds(b: bv8)
    ensures Down(b as bv32) == 0
  {
  }

  lemma XorZero(x: bv32)
    ensures Xor(x, 0) == x
  {
  }

  lemma FeedByte(crc: bv32, b: bv8)
    ensures FeedAll(crc, BitsOf(b as bv32, 8)) == Shifts(Xor(crc, b as bv32), 8)
  {
    hide Xor, Halves, Shifts, FeedAll, BitsOf;
    FeedBitsIsShifts(crc, b as bv32, 8);
    ByteIsUsedUp(b);
    XorZero(FeedAll(crc, BitsOf(b as bv32, 8)));
  }

  lemma {:induction false} FeedConcat(crc: bv32, xs: seq<bool>, ys: seq<bool>)
    ensures FeedAll(crc, xs + ys) == FeedAll(FeedAll(crc, xs), ys)
    decreases |xs|
  {
    hide Feed;
    if xs == [] {
      assert xs + ys == ys;
    } else {
      FeedConcat(Feed(crc, xs[0]), xs[1..], ys);
      assert (xs + ys)[1..] == xs[1..] + ys;
    }
  }

  /** Entry i of the table is i shifted eight times. */
  method MakeTable() returns (table: array<bv32>)
    ensures fresh(table) && table.Length == 256
    ensures forall i :: 0 <= i < 256 ==> table[i] == Shifts(i as bv32, 8)
  {
    hide Odd, Half, Xor;
    table := new bv32[256];
    for i := 0 to 256
      invariant forall j :: 0 <= j < i ==> table[j] == Shifts(j as bv32, 8)
    {
      var value := i as bv32;
      for bit := 0 to 8
        invariant value == Shifts(i as bv32, bit)
      {
        value := if Odd(value) then Xor(POLYNOMIAL, Half(value)) else Half(value);
      }
      table[i] := value;
    }
  }

  lemma LowByteIndex(x: bv32)
    ensures 0 <= LowByte(x) as int < 256 && (LowByte(x) as int) as bv32 == LowByte(x)
  {
  }

  /** The byte-at-a-time table form computes the bit-serial checksum on every input. */
  method Crc32(bytes: seq<bv8>) returns (crc: bv32)
    ensures crc == BitSerialCrc(bytes)
  {
    hide Xor, Shifts, FeedAll, BitsOf, LowByte, Down;
    var table := MakeTable();
    crc := ONES;
    StartBits();
    for i := 0 to |bytes|
      invariant crc == FeedAll(ONES, MessageBits(bytes[..i]))
      invariant forall j :: 0 <= j < 256 ==> table[j] == Shifts(j as bv32, 8)
    {
      var mixed := Xor(crc, bytes[i] as bv32);
      LowByteIndex(mixed);
      var index := LowByte(mixed) as int;
      NextByte(bytes, i, crc);
      TableStep(mixed);
      HighByteUnmixed(crc, bytes[i]);
      crc := Xor(table[index], Down(crc));
    }
    assert bytes[..|bytes|] == bytes;
    crc := Xor(crc, ONES);
  }

  lemma StartBits()
    ensures FeedAll(ONES, MessageBits([])) == ONES
  {
  }

  /** A byte does not touch the upper bits of the register it is mixed into. */
  lemma HighByteUnmixed(crc: bv32, b: bv8)
    ensures Down(Xor(crc, b as bv32)) == Down(crc)
  {
  }

  lemma NextByte(bytes: seq<bv8>, i: nat, crc: bv32)
    requires i < |bytes| && crc == FeedAll(ONES, MessageBits(bytes[..i]))
    ensures FeedAll(ONES, MessageBits(bytes[..i + 1])) == Shifts(Xor(crc, bytes[i] as bv32), 8)
  {
    hide Xor, Shifts, FeedAll, BitsOf;
    var longer := bytes[..i + 1];
    assert longer[..i] == bytes[..i] && longer[i] == bytes[i];
    FeedConcat(ONES, MessageBits(bytes[..i]), BitsOf(bytes[i] as bv32, 8));
    FeedByte(crc, bytes[i]);
  }

  // ---- What the checksum detects --------------------------------------------------------------

  /** No bit is lost: the register before a bit can be told from the register after it. */
  lemma FeedTells(c: bv32, d: bv32, bit: bool)
    requires Feed(c, bit) == Feed(d, bit)
    ensures c == d
  {
  }

  lemma ShiftTells(c: bv32, d: bv32)
    requires Shift(c) == Shift(d)
    ensures c == d
  {
  }

  lemma {:induction false} FeedAllTells(c: bv32, d: bv32, bits: seq<bool>)
    requires c != d
    ensures FeedAll(c, bits) != FeedAll(d, bits)
    decreases |bits|
  {
    hide Feed;
    if bits != [] {
      if Feed(c, bits[0]) == Feed(d, bits[0]) {
        FeedTells(c, d, bits[0]);
      }
      FeedAllTells(Feed(c, bits[0]), Feed(d, bits[0]), bits[1..]);
    }
  }

  lemma {:induction false} ShiftsTell(c: bv32, d: bv32, n: nat)
    requires c != d
    ensures Shifts(c, n) != Shifts(d, n)
  {
    hide Shift;
    if n > 0 {
      ShiftsTell(c, d, n - 1);
      if Shifts(c, n) == Shifts(d, n) {
        ShiftTells(Shifts(c, n - 1), Shifts(d, n - 1));
      }
    }
  }

  lemma MixedDiffer(crc: bv32, a: bv8, b: bv8)
    requires a != b
    ensures Xor(crc, a as bv32) != Xor(crc, b as bv32)
  {
  }

  lemma {:induction false} BitsConcat(xs: seq<bv8>, ys: seq<bv8>)
    ensures MessageBits(xs + ys) == MessageBits(xs) + MessageBits(ys)
    decreases |ys|
  {
    hide BitsOf;
    if ys == [] {
      assert xs + ys == xs;
    } else {
      var n := |ys| - 1;
      BitsConcat(xs, ys[..n]);
      assert (xs + ys)[..|xs + ys| - 1] == xs + ys[..n];
    }
  }

  /** Two messages that differ in one byte never have the same checksum. */
  lemma OneByteTells(before: seq<bv8>, a: bv8, b: bv8, after: seq<bv8>)
    requires a != b
    ensures BitSerialCrc(before + [a] + after) != BitSerialCrc(before + [b] + after)
  {
    hide Xor, FeedAll, BitsOf, MessageBits, Shifts;
    var crc := FeedAll(ONES, MessageBits(before));
    UpToByte(before, a, after);
    UpToByte(before, b, after);
    MixedDiffer(crc, a, b);
    ShiftsTell(Xor(crc, a as bv32), Xor(crc, b as bv32), 8);
    FeedAllTells(Shifts(Xor(crc, a as bv32), 8), Shifts(Xor(crc, b as bv32), 8), MessageBits(after));
    XorTells(FeedAll(ONES, MessageBits(before + [a] + after)), FeedAll(ONES, MessageBits(before + [b] + after)));
  }

  lemma XorTells(c: bv32, d: bv32)
    requires c != d
    ensures Xor(c, ONES) != Xor(d, ONES)
  {
  }

  lemma UpToByte(before: seq<bv8>, a: bv8, after: seq<bv8>)
    ensures FeedAll(ONES, MessageBits(before + [a] + after))
            == FeedAll(Shifts(Xor(FeedAll(ONES, MessageBits(before)), a as bv32), 8), MessageBits(after))
  {
    hide Xor, FeedAll, BitsOf, MessageBits, Shifts;
    var first := before + [a];
    BitsConcat(first, after);
    FeedConcat(ONES, MessageBits(first), MessageBits(after));
    assert first[..|before|] == before && first[..|before| + 1] == first;
    NextByte(first, |before|, FeedAll(ONES, MessageBits(before)));
  }

  // ---- The check value ----------------------------------------------------------------------

  /** The nine digits, as bytes. */
  const DIGITS: seq<bv8> := [0x31, 0x32, 0x33, 0x34, 0x35, 0x36, 0x37, 0x38, 0x39]

  lemma EightShifts(x: bv32)
    ensures Shifts(x, 8) == Shift(Shift(Shift(Shift(Shift(Shift(Shift(Shift(x))))))))
  {
    hide Shift;
    assert Shifts(x, 1) == Shift(x);
    assert Shifts(x, 2) == Shift(Shift(x));
    assert Shifts(x, 4) == Shift(Shift(Shift(Shift(x))));
    assert Shifts(x, 6) == Shift(Shift(Shift(Shift(Shift(Shift(x))))));
  }

  lemma CheckStep(i: nat, crc: bv32, next: bv32)
    requires i < |DIGITS| && crc == FeedAll(ONES, MessageBits(DIGITS[..i]))
    requires Shift(Shift(Shift(Shift(Shift(Shift(Shift(Shift(Xor(crc, DIGITS[i] as bv32))))))))) == next
    ensures next == FeedAll(ONES, MessageBits(DIGITS[..i + 1]))
  {
    hide Shift, Xor, FeedAll, MessageBits, BitsOf, Shifts;
    NextByte(DIGITS, i, crc);
    EightShifts(Xor(crc, DIGITS[i] as bv32));
  }

  lemma FirstDigits()
    ensures FeedAll(ONES, MessageBits(DIGITS[..3])) == 0x77B79C2D
  {
    hide FeedAll, MessageBits, BitsOf, Shifts;
    StartBits();
    CheckStep(0, 0xFFFFFFFF, 0x7C231048);
    CheckStep(1, 0x7C231048, 0xB0ACBB32);
    CheckStep(2, 0xB0ACBB32, 0x77B79C2D);
  }

  lemma MiddleDigits()
    requires FeedAll(ONES, MessageBits(DIGITS[..3])) == 0x77B79C2D
    ensures FeedAll(ONES, MessageBits(DIGITS[..6])) == 0xF68D2C9E
  {
    hide FeedAll, MessageBits, BitsOf, Shifts;
    CheckStep(3, 0x77B79C2D, 0x641C1F5C);
    CheckStep(4, 0x641C1F5C, 0x340AC5E3);
    CheckStep(5, 0x340AC5E3, 0xF68D2C9E);
  }

  lemma LastDigits()
    requires FeedAll(ONES, MessageBits(DIGITS[..6])) == 0xF68D2C9E
    ensures FeedAll(ONES, MessageBits(DIGITS[..9])) == 0x340BC6D9
  {
    hide FeedAll, MessageBits, BitsOf, Shifts;
    CheckStep(6, 0xF68D2C9E, 0xAFFC9660);
    CheckStep(7, 0xAFFC9660, 0x651F2550);
    CheckStep(8, 0x651F2550, 0x340BC6D9);
  }

  /** The checksum of the nine digits is the published check value of CRC-32. */
  lemma CheckValue()
    ensures BitSerialCrc(DIGITS) == 0xCBF4_3926
  {
    hide FeedAll, MessageBits, BitsOf, Shifts;
    FirstDigits();
    MiddleDigits();
    LastDigits();
    assert DIGITS[..9] == DIGITS;
  }

  // ---- SHA-256 padding --------------------------------------------------------------------

  /** Byte i of a number, counted from the least significant. */
  function ByteAt(v: nat, i: nat): bv8 {
    ((v / Pow256(i)) % 256) as bv8
  }

  function BigEndian64(v: nat): seq<bv8> {
    seq(8, i requires 0 <= i < 8 => ByteAt(v, 7 - i))
  }

  function Zeros(n: nat): seq<bv8> {
    seq(n, i => 0)
  }

  /** The smallest number of zero bytes that leaves room for exactly the length field. */
  function ZeroCount(length: nat): (k: nat)
    ensures k < 64 && (length + 1 + k + 8) % 64 == 0
  {
    (119 - length % 64) % 64
  }

  /** The padded message of section 5.1.1 of FIPS 180-4, for whole bytes. */
  function Padded(message: seq<bv8>): (padded: seq<bv8>)
    ensures |padded| % 64 == 0 && message <= padded
  {
    message + [0x80] + Zeros(ZeroCount(|message|)) + BigEndian64(8 * |message|)
  }

  /** The compression function applied to each block in turn. */
  function Compressed<S>(state: S, compress: (S, seq<bv8>) -> S, blocks: seq<bv8>): S
    decreases |blocks|
  {
    if |blocks| < 64 then state else Compressed(compress(state, blocks[..64]), compress, blocks[64..])
  }

  lemma {:induction false} CompressedConcat<S>(state: S, compress: (S, seq<bv8>) -> S, xs: seq<bv8>, ys: seq<bv8>)
    requires |xs| % 64 == 0
    ensures Compressed(state, compress, xs + ys) == Compressed(Compressed(state, compress, xs), compress, ys)
    decreases |xs|
  {
    if xs == [] {
      assert xs + ys == ys;
    } else {
      CompressedConcat(compress(state, xs[..64]), compress, xs[64..], ys);
      assert (xs + ys)[..64] == xs[..64] && (xs + ys)[64..] == xs[64..] + ys;
    }
  }

  lemma OneBlock<S>(state: S, compress: (S, seq<bv8>) -> S, block: seq<bv8>)
    requires |block| == 64
    ensures Compressed(state, compress, block) == compress(state, block)
  {
    assert block[..64] == block && block[64..] == [];
  }

  const MAX_MESSAGE: nat := 0x2000_0000_0000_0000

  /** The digest loop compresses exactly the blocks of the padded message, in order. */
  method Sha256<S>(bytes: seq<bv8>, start: S, compress: (S, seq<bv8>) -> S) returns (state: S)
    requires |bytes| < MAX_MESSAGE
    ensures state == Compressed(start, compress, Padded(bytes))
  {
    hide Compressed, Padded, BigEndian64, ByteAt;
    state := start;
    var offset := 0;
    CompressedNothing(start, compress);
    while |bytes| - offset >= 64
      invariant 0 <= offset <= |bytes| && offset % 64 == 0 && state == Compressed(start, compress, bytes[..offset])
    {
      assert bytes[..offset + 64] == bytes[..offset] + bytes[offset..offset + 64];
      CompressedConcat(start, compress, bytes[..offset], bytes[offset..offset + 64]);
      OneBlock(state, compress, bytes[offset..offset + 64]);
      state := compress(state, bytes[offset..offset + 64]);
      offset := offset + 64;
    }
    var tail := |bytes| - offset;
    var block := new bv8[64](i => 0);
    for i := 0 to tail
      invariant block[..i] == bytes[offset..offset + i] && forall j :: i <= j < 64 ==> block[j] == 0
    {
      block[i] := bytes[offset + i];
    }
    block[tail] := 0x80;
    ghost var rest := bytes[offset..];
    assert block[..] == rest + [0x80] + Zeros(63 - tail);
    if tail >= 56 {
      state := compress(state, block[..]);
      forall i | 0 <= i < 64 {
        block[i] := 0;
      }
    }
    ghost var before := block[..56];
    for i := 0 to 8
      invariant block[..56] == before && forall j :: 64 - i <= j < 64 ==> block[j] == ByteAt(8 * |bytes|, 63 - j)
    {
      block[63 - i] := ByteAt(8 * |bytes|, i);
    }
    LastBlock(block[..], 8 * |bytes|);
    PaddedTail(bytes, offset, block[..], start, compress);
    state := compress(state, block[..]);
  }

  lemma CompressedNothing<S>(start: S, compress: (S, seq<bv8>) -> S)
    ensures Compressed(start, compress, []) == start
  {
  }

  lemma LastBlock(block: seq<bv8>, bits: nat)
    requires |block| == 64 && forall j :: 56 <= j < 64 ==> block[j] == ByteAt(bits, 63 - j)
    ensures block == block[..56] + BigEndian64(bits)
  {
  }

  /** Where the padding of the last, partial block goes: into one block, or into two when the length does not fit. */
  lemma PaddedTail<S>(bytes: seq<bv8>, offset: nat, last: seq<bv8>, start: S, compress: (S, seq<bv8>) -> S)
    requires offset <= |bytes| < offset + 64 && offset % 64 == 0 && |last| == 64
    requires var rest := bytes[offset..];
             && last == last[..56] + BigEndian64(8 * |bytes|)
             && last[..56] == if |rest| >= 56 then Zeros(56) else rest + [0x80] + Zeros(55 - |rest|)
    ensures var state := Compressed(start, compress, bytes[..offset]);
            var rest := bytes[offset..];
            var state' := if |rest| >= 56 then compress(state, rest + [0x80] + Zeros(63 - |rest|)) else state;
            compress(state', last) == Compressed(start, compress, Padded(bytes))
  {
    hide Compressed, BigEndian64;
    var rest := bytes[offset..];
    var state := Compressed(start, compress, bytes[..offset]);
    assert bytes == bytes[..offset] + rest;
    var length := BigEndian64(8 * |bytes|);
    assert ZeroCount(|bytes|) == (119 - |rest|) % 64;
    if |rest| >= 56 {
      var first := rest + [0x80] + Zeros(63 - |rest|);
      assert Zeros(ZeroCount(|bytes|)) == Zeros(63 - |rest|) + Zeros(56);
      assert Padded(bytes) == bytes[..offset] + (first + last);
      CompressedConcat(start, compress, bytes[..offset], first + last);
      CompressedConcat(state, compress, first, last);
      OneBlock(state, compress, first);
      OneBlock(compress(state, first), compress, last);
    } else {
      assert Padded(bytes) == bytes[..offset] + last;
      CompressedConcat(start, compress, bytes[..offset], last);
      OneBlock(state, compress, last);
    }
  }
}
