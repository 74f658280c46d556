/**
 The table-driven checksum, and the bit by bit definition in section 8 of RFC 1952 that it stands for.
 */
module Crc32 {

  const POLYNOMIAL: bv32 := 0xedb88320
  const ALL_ONES: bv32 := 0xffffffff

  function Xor(a: bv32, b: bv32): bv32 {
    a ^ b
  }

  function Half(b: bv32): bv32 {
    b >> 1
  }

  function LowBit(b: bv32): bv32 {
    b & 1
  }

  function Invert(x: bv32): bv32 {
    x ^ ALL_ONES
  }

  function LowByte(x: bv32): bv32 {
    x & 0xff
  }

  function Rest(x: bv32): bv32 {
    x >> 8
  }

  /** One division step without an input bit. */
  function Shift(c: bv32): bv32 {
    (c >> 1) ^ (if c & 1 == 1 then POLYNOMIAL else 0)
  }

  function Shifts(c: bv32, n: nat): bv32
    decreases n
  {
    if n == 0 then c else Shifts(Shift(c), n - 1)
  }

  /** One division step with an input bit. */
  function FeedBit(c: bv32, bit: bv32): bv32 {
    Shift(Xor(c, bit))
  }

  /** The `n` low bits of `b`, least significant first. */
  function FeedBits(c: bv32, b: bv32, n: nat): bv32
    decreases n
  {
    if n == 0 then c else FeedBits(FeedBit(c, LowBit(b)), Half(b), n - 1)
  }

  function Feed(c: bv32, bytes: seq<bv8>): bv32 {
    if bytes == [] then c else FeedBits(Feed(c, bytes[..|bytes| - 1]), bytes[|bytes| - 1] as bv32, 8)
  }

  /** The checksum of some bytes that follow others with the checksum `crc`. */
  function Crc(crc: bv32, bytes: seq<bv8>): bv32 {
    Invert(Feed(Invert(crc), bytes))
  }

  function Drop(b: bv32, n: nat): bv32
    decreases n
  {
    if n == 0 then b else Drop(Half(b), n - 1)
  }

  /** The low `n` bits are zero. */
  predicate LowZero(b: bv32, n: nat)
    decreases n
  {
    n == 0 || (LowBit(b) == 0 && LowZero(Half(b), n - 1))
  }

  lemma ShiftSplits(x: bv32, y: bv32)
    ensures Shift(x ^ y) == Shift(x ^ (y & 1)) ^ (y >> 1)
  {
  }

  lemma ShiftOfXor(x: bv32, y: bv32)
    ensures Shift(Xor(x, y)) == Xor(FeedBit(x, LowBit(y)), Half(y))
  {
    hide Shift;
    ShiftSplits(x, y);
  }

  lemma ShiftOfEven(x: bv32, y: bv32)
    requires LowBit(y) == 0
    ensures Shift(Xor(x, y)) == Xor(Shift(x), Half(y))
  {
    ShiftOfXor(x, y);
    assert x ^ 0 == x;
  }

  lemma {:induction false} BitsAtOnce(c: bv32, b: bv32, n: nat)
    ensures Shifts(Xor(c, b), n) == Xor(FeedBits(c, b, n), Drop(b, n))
    decreases n
  {
    hide Shift, FeedBit, Xor, Half, LowBit;
    if n > 0 {
      ShiftOfXor(c, b);
      BitsAtOnce(FeedBit(c, LowBit(b)), Half(b), n - 1);
    }
  }

  lemma {:induction false} HighBitsPass(a: bv32, h: bv32, n: nat)
    requires LowZero(h, n)
    ensures Shifts(Xor(a, h), n) == Xor(Shifts(a, n), Drop(h, n))
    decreases n
  {
    hide Shift, FeedBit, Xor, Half, LowBit;
    if n > 0 {
      ShiftOfEven(a, h);
      HighBitsPass(Shift(a), Half(h), n - 1);
    }
  }

  lemma HalfFour(h: bv32)
    ensures Half(Half(Half(Half(h)))) == h >> 4
    ensures h & 0xf == 0 ==>
              LowBit(h) == 0 && LowBit(Half(h)) == 0 && LowBit(Half(Half(h))) == 0 && LowBit(Half(Half(Half(h)))) == 0
  {
  }

  lemma DropFour(h: bv32, n: nat)
    ensures Drop(h, n + 4) == Drop(h >> 4, n)
    ensures h & 0xf == 0 && LowZero(h >> 4, n) ==> LowZero(h, n + 4)
  {
    hide Half, LowBit;
    HalfFour(h);
    assert Drop(h, n + 4) == Drop(Half(h), n + 3) == Drop(Half(Half(h)), n + 2) == Drop(Half(Half(Half(h))), n + 1);
    assert LowZero(h, n + 4) <==> LowBit(h) == 0 && LowZero(Half(h), n + 3);
    assert LowZero(Half(h), n + 3) <==> LowBit(Half(h)) == 0 && LowZero(Half(Half(h)), n + 2);
    assert LowZero(Half(Half(h)), n + 2) <==> LowBit(Half(Half(h))) == 0 && LowZero(Half(Half(Half(h))), n + 1);
  }

  lemma DropByte(h: bv32)
    ensures Drop(h, 8) == h >> 8
    ensures h & 0xff == 0 ==> LowZero(h, 8)
  {
    hide Half, LowBit;
    DropFour(h, 4);
    DropFour(h >> 4, 0);
    assert (h >> 4) >> 4 == h >> 8;
    assert h & 0xff == 0 ==> h & 0xf == 0 && (h >> 4) & 0xf == 0;
  }

  lemma ByteAsIndex(x: bv32)
    ensures LowByte(x) as int < 256 && (LowByte(x) as int) as bv32 == LowByte(x)
  {
  }

  /** What a table entry must be. */
  function Entry(x: bv32): bv32 {
    Shifts(x, 8)
  }

  lemma ByteFeeds(c: bv32, w: bv32)
    requires w >> 8 == 0
    ensures Entry(Xor(c, w)) == FeedBits(c, w, 8)
  {
    hide Shifts, FeedBits, Drop, LowZero;
    BitsAtOnce(c, w, 8);
    DropByte(w);
    XorZero(FeedBits(c, w, 8));
  }

  lemma XorZero(x: bv32)
    ensures Xor(x, 0) == x
  {
  }

  lemma EntryOfLowByte(z: bv32)
    ensures Entry(z) == Xor(Entry(LowByte(z)), Rest(z))
  {
    hide Shifts, FeedBits, Drop, LowZero, Xor;
    var high := z & 0xffffff00;
    LowAndHigh(z);
    DropByte(high);
    HighBitsPass(z & 0xff, high, 8);
  }

  lemma LowAndHigh(z: bv32)
    ensures var high := z & 0xffffff00;
            Xor(z & 0xff, high) == z && high & 0xff == 0 && high >> 8 == z >> 8
  {
  }

  lemma WideByte(c: bv32, b: bv8)
    ensures var w := b as bv32; w >> 8 == 0 && Rest(Xor(c, w)) == Rest(c)
  {
  }

  /** One byte through the table is eight bits, one after the other. */
  lemma TableStep(c: bv32, b: bv8)
    ensures Xor(Entry(LowByte(Xor(c, b as bv32))), Rest(c)) == FeedBits(c, b as bv32, 8)
  {
    hide Entry, FeedBits, Xor, LowByte, Rest;
    WideByte(c, b);
    ByteFeeds(c, b as bv32);
    EntryOfLowByte(Xor(c, b as bv32));
  }

  class Checksum {
    /** The static table, zero until it is first needed. */
    const table: array<bv32>

    ghost predicate Filled()
      reads table
      requires table.Length == 256
    {
      forall i :: 0 <= i < 256 ==> table[i] == Entry(i as bv32)
    }

    ghost predicate Valid()
      reads table
    {
      table.Length == 256 && (table[1] == 0 || Filled())
    }

    constructor ()
      ensures Valid() && fresh(table)
    {
      table := new bv32[256](_ => 0);
    }

    method FillTable()
      requires table.Length == 256
      modifies table
      ensures Filled()
    {
      for n := 0 to 256
        invariant forall i :: 0 <= i < n ==> table[i] == Entry(i as bv32)
      {
        var c := n as bv32;
        for k := 0 to 8
          invariant Shifts(c, 8 - k) == Entry(n as bv32)
        {
          c := (c >> 1) ^ (if c & 1 == 1 then POLYNOMIAL else 0);
        }
        table[n] := c;
      }
    }

    method Look(z: bv32) returns (entry: bv32)
      requires table.Length == 256 && Filled()
      ensures entry == Entry(LowByte(z))
    {
      hide Entry, LowByte;
      ByteAsIndex(z);
      entry := table[LowByte(z) as int];
    }

    method CRC32(crc: bv32, buf: seq<bv8>) returns (r: bv32)
      requires Valid()
      modifies table
      ensures Valid() && r == Crc(crc, buf)
    {
      if table[1] == 0 {
        FillTable();
      }
      hide Filled, Entry, Feed, FeedBits, Xor, LowByte, Rest, Invert;
      FeedNone(Invert(crc));
      var c := Invert(crc);
      for i := 0 to |buf|
        invariant Filled() && c == Feed(Invert(crc), buf[..i])
      {
        TableStep(c, buf[i]);
        FeedNext(Invert(crc), buf, i);
        var entry := Look(Xor(c, buf[i] as bv32));
        c := Xor(entry, Rest(c));
      }
      assert buf[..|buf|] == buf;
      r := Invert(c);
    }

    /** The output writer's loop: the data block is checked and written in pieces of at most `chunk` bytes. */
    method WriteBlock(crc: bv32, block: seq<bv8>, chunk: nat) returns (r: bv32, written: seq<bv8>)
      requires Valid() && chunk > 0
      modifies table
      ensures Valid() && r == Crc(crc, block) && written == block
    {
      r, written := crc, [];
      var left := |block|;
      FeedNothing(crc);
      while left > 0
        invariant 0 <= left <= |block| && Valid()
        invariant written == block[..|block| - left] && r == Crc(crc, written)
      {
        var l := if chunk < left then chunk else left;
        var piece := block[|block| - left..|block| - left + l];
        Chained(crc, written, piece);
        r := CRC32(r, piece);
        written := written + piece;
        left := left - l;
      }
      assert block[..|block|] == block;
    }
  }

  lemma FeedNone(c: bv32)
    ensures Feed(c, []) == c
  {
  }

  lemma FeedNext(c: bv32, bytes: seq<bv8>, i: nat)
    requires i < |bytes|
    ensures Feed(c, bytes[..i + 1]) == FeedBits(Feed(c, bytes[..i]), bytes[i] as bv32, 8)
  {
    hide FeedBits;
    assert bytes[..i + 1][..i] == bytes[..i];
  }

  lemma FeedNothing(crc: bv32)
    ensures Crc(crc, []) == crc
  {
    InvertTwice(crc);
  }

  lemma {:induction false} FeedConcat(c: bv32, a: seq<bv8>, b: seq<bv8>)
    ensures Feed(Feed(c, a), b) == Feed(c, a + b)
    decreases |b|
  {
    hide FeedBits;
    if b == [] {
      assert a + b == a;
    } else {
      assert (a + b)[..|a + b| - 1] == a + b[..|b| - 1];
      FeedConcat(c, a, b[..|b| - 1]);
    }
  }

  /** The checksum of a concatenation is that of the second part, started with that of the first. */
  lemma Chained(crc: bv32, a: seq<bv8>, b: seq<bv8>)
    ensures Crc(Crc(crc, a), b) == Crc(crc, a + b)
  {
    hide Feed, Invert;
    InvertTwice(Feed(Invert(crc), a));
    FeedConcat(Invert(crc), a, b);
  }

  lemma InvertTwice(x: bv32)
    ensures Invert(Invert(x)) == x
  {
  }

  /** The polynomial x^32 + x^26 + x^23 + x^22 + x^16 + x^12 + x^11 + x^10 + x^8 + x^7 + x^5 + x^4 + x^2 + x + 1, whose
      term x^k is bit 31 - k. */
  lemma PolynomialTerms()
    ensures var x: bv32 := 1;
            POLYNOMIAL == (x << 5) | (x << 8) | (x << 9) | (x << 15) | (x << 19) | (x << 20) | (x << 21) | (x << 23)
                          | (x << 24) | (x << 26) | (x << 27) | (x << 29) | (x << 30) | (x << 31)
  {
  }

  /** The digits 1 to 9 in ASCII. */
  const DIGITS: seq<bv8> := [0x31, 0x32, 0x33, 0x34, 0x35, 0x36, 0x37, 0x38, 0x39]

  /** A byte in eight division steps. */
  lemma ByteSteps(c: bv32, w: bv32)
    requires w >> 8 == 0
    ensures FeedBits(c, w, 8) == Shift(Shift(Shift(Shift(Shift(Shift(Shift(Shift(c ^ w))))))))
  {
    hide FeedBits, Shift;
    ByteFeeds(c, w);
    FourShifts(c ^ w, 4);
    FourShifts(Shift(Shift(Shift(Shift(c ^ w)))), 0);
  }

  lemma FourShifts(x: bv32, n: nat)
    ensures Shifts(x, n + 4) == Shifts(Shift(Shift(Shift(Shift(x)))), n)
  {
    hide Shift;
    assert Shifts(x, n + 4) == Shifts(Shift(x), n + 3) == Shifts(Shift(Shift(x)), n + 2);
    assert Shifts(Shift(Shift(x)), n + 2) == Shifts(Shift(Shift(Shift(x))), n + 1);
  }

  lemma FirstDigits()
    ensures FeedBits(0xffffffff, 0x31, 8) == 0x7c231048
    ensures FeedBits(0x7c231048, 0x32, 8) == 0xb0acbb32
    ensures FeedBits(0xb0acbb32, 0x33, 8) == 0x77b79c2d
  {
    hide FeedBits;
    ByteSteps(0xffffffff, 0x31);
    ByteSteps(0x7c231048, 0x32);
    ByteSteps(0xb0acbb32, 0x33);
  }

  lemma MiddleDigits()
    ensures FeedBits(0x77b79c2d, 0x34, 8) == 0x641c1f5c
    ensures FeedBits(0x641c1f5c, 0x35, 8) == 0x340ac5e3
    ensures FeedBits(0x340ac5e3, 0x36, 8) == 0xf68d2c9e
  {
    hide FeedBits;
    ByteSteps(0x77b79c2d, 0x34);
    ByteSteps(0x641c1f5c, 0x35);
    ByteSteps(0x340ac5e3, 0x36);
  }

  lemma LastDigits()
    ensures FeedBits(0xf68d2c9e, 0x37, 8) == 0xaffc9660
    ensures FeedBits(0xaffc9660, 0x38, 8) == 0x651f2550
    ensures FeedBits(0x651f2550, 0x39, 8) == 0x340bc6d9
  {
    hide FeedBits;
    ByteSteps(0xf68d2c9e, 0x37);
    ByteSteps(0xaffc9660, 0x38);
    ByteSteps(0x651f2550, 0x39);
  }

  /** The bits of the digits, one byte after the other. */
  lemma DigitBits()
    ensures Feed(ALL_ONES, DIGITS) == 0x340bc6d9
  {
    hide Feed, FeedBits;
    FirstDigits();
    MiddleDigits();
    LastDigits();
    assert DIGITS[..0] == [] && DIGITS[..9] == DIGITS;
    FeedNone(ALL_ONES);
    FeedNext(ALL_ONES, DIGITS, 0);
    FeedNext(ALL_ONES, DIGITS, 1);
    FeedNext(ALL_ONES, DIGITS, 2);
    FeedNext(ALL_ONES, DIGITS, 3);
    FeedNext(ALL_ONES, DIGITS, 4);
    FeedNext(ALL_ONES, DIGITS, 5);
    FeedNext(ALL_ONES, DIGITS, 6);
    FeedNext(ALL_ONES, DIGITS, 7);
    FeedNext(ALL_ONES, DIGITS, 8);
  }

  /** The published check value of this checksum, for the text "123456789". */
  lemma CheckValue()
    ensures Crc(0, DIGITS) == 0xcbf43926
  {
    hide Feed;
    assert Invert(0) == ALL_ONES;
    DigitBits();
    assert Invert(0x340bc6d9) == 0xcbf43926;
  }
}
