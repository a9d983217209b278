/** Key slots: the table-driven CRC16 of the Redis Cluster specification ("Key distribution model"), shown to be the
    bit-by-bit division by the polynomial 0x1021 from an initial value of 0. */
module Crc16 {

  /** The 256 entries of `crc16tab`. */
  function Crc16Tab(i: bv8): bv16
  {
    if i < 0x80 then
      if i < 0x40 then
        if i < 0x20 then
          if i < 0x10 then
            if i < 0x08 then
              if i == 0x00 then 0x0000 else if i == 0x01 then 0x1021 else if i == 0x02 then 0x2042
                else if i == 0x03 then 0x3063 else if i == 0x04 then 0x4084 else if i == 0x05 then 0x50a5
                else if i == 0x06 then 0x60c6 else 0x70e7
            else
              if i == 0x08 then 0x8108 else if i == 0x09 then 0x9129 else if i == 0x0a then 0xa14a
                else if i == 0x0b then 0xb16b else if i == 0x0c then 0xc18c else if i == 0x0d then 0xd1ad
                else if i == 0x0e then 0xe1ce else 0xf1ef
          else
            if i < 0x18 then
              if i == 0x10 then 0x1231 else if i == 0x11 then 0x0210 else if i == 0x12 then 0x3273
                else if i == 0x13 then 0x2252 else if i == 0x14 then 0x52b5 else if i == 0x15 then 0x4294
                else if i == 0x16 then 0x72f7 else 0x62d6
            else
              if i == 0x18 then 0x9339 else if i == 0x19 then 0x8318 else if i == 0x1a then 0xb37b
                else if i == 0x1b then 0xa35a else if i == 0x1c then 0xd3bd else if i == 0x1d then 0xc39c
                else if i == 0x1e then 0xf3ff else 0xe3de
        else
          if i < 0x30 then
            if i < 0x28 then
              if i == 0x20 then 0x2462 else if i == 0x21 then 0x3443 else if i == 0x22 then 0x0420
                else if i == 0x23 then 0x1401 else if i == 0x24 then 0x64e6 else if i == 0x25 then 0x74c7
                else if i == 0x26 then 0x44a4 else 0x5485
            else
              if i == 0x28 then 0xa56a else if i == 0x29 then 0xb54b else if i == 0x2a then 0x8528
                else if i == 0x2b then 0x9509 else if i == 0x2c then 0xe5ee else if i == 0x2d then 0xf5cf
                else if i == 0x2e then 0xc5ac else 0xd58d
          else
            if i < 0x38 then
              if i == 0x30 then 0x3653 else if i == 0x31 then 0x2672 else if i == 0x32 then 0x1611
                else if i == 0x33 then 0x0630 else if i == 0x34 then 0x76d7 else if i == 0x35 then 0x66f6
                else if i == 0x36 then 0x5695 else 0x46b4
            else
              if i == 0x38 then 0xb75b else if i == 0x39 then 0xa77a else if i == 0x3a then 0x9719
                else if i == 0x3b then 0x8738 else if i == 0x3c then 0xf7df else if i == 0x3d then 0xe7fe
                else if i == 0x3e then 0xd79d else 0xc7bc
      else
        if i < 0x60 then
          if i < 0x50 then
            if i < 0x48 then
              if i == 0x40 then 0x48c4 else if i == 0x41 then 0x58e5 else if i == 0x42 then 0x6886
                else if i == 0x43 then 0x78a7 else if i == 0x44 then 0x0840 else if i == 0x45 then 0x1861
                else if i == 0x46 then 0x2802 else 0x3823
            else
              if i == 0x48 then 0xc9cc else if i == 0x49 then 0xd9ed else if i == 0x4a then 0xe98e
                else if i == 0x4b then 0xf9af else if i == 0x4c then 0x8948 else if i == 0x4d then 0x9969
                else if i == 0x4e then 0xa90a else 0xb92b
          else
            if i < 0x58 then
              if i == 0x50 then 0x5af5 else if i == 0x51 then 0x4ad4 else if i == 0x52 then 0x7ab7
                else if i == 0x53 then 0x6a96 else if i == 0x54 then 0x1a71 else if i == 0x55 then 0x0a50
                else if i == 0x56 then 0x3a33 else 0x2a12
            else
              if i == 0x58 then 0xdbfd else if i == 0x59 then 0xcbdc else if i == 0x5a then 0xfbbf
                else if i == 0x5b then 0xeb9e else if i == 0x5c then 0x9b79 else if i == 0x5d then 0x8b58
                else if i == 0x5e then 0xbb3b else 0xab1a
        else
          if i < 0x70 then
            if i < 0x68 then
              if i == 0x60 then 0x6ca6 else if i == 0x61 then 0x7c87 else if i == 0x62 then 0x4ce4
                else if i == 0x63 then 0x5cc5 else if i == 0x64 then 0x2c22 else if i == 0x65 then 0x3c03
                else if i == 0x66 then 0x0c60 else 0x1c41
            else
              if i == 0x68 then 0xedae else if i == 0x69 then 0xfd8f else if i == 0x6a then 0xcdec
                else if i == 0x6b then 0xddcd else if i == 0x6c then 0xad2a else if i == 0x6d then 0xbd0b
                else if i == 0x6e then 0x8d68 else 0x9d49
          else
            if i < 0x78 then
              if i == 0x70 then 0x7e97 else if i == 0x71 then 0x6eb6 else if i == 0x72 then 0x5ed5
                else if i == 0x73 then 0x4ef4 else if i == 0x74 then 0x3e13 else if i == 0x75 then 0x2e32
                else if i == 0x76 then 0x1e51 else 0x0e70
            else
              if i == 0x78 then 0xff9f else if i == 0x79 then 0xefbe else if i == 0x7a then 0xdfdd
                else if i == 0x7b then 0xcffc else if i == 0x7c then 0xbf1b else if i == 0x7d then 0xaf3a
                else if i == 0x7e then 0x9f59 else 0x8f78
    else
      if i < 0xc0 then
        if i < 0xa0 then
          if i < 0x90 then
            if i < 0x88 then
              if i == 0x80 then 0x9188 else if i == 0x81 then 0x81a9 else if i == 0x82 then 0xb1ca
                else if i == 0x83 then 0xa1eb else if i == 0x84 then 0xd10c else if i == 0x85 then 0xc12d
                else if i == 0x86 then 0xf14e else 0xe16f
            else
              if i == 0x88 then 0x1080 else if i == 0x89 then 0x00a1 else if i == 0x8a then 0x30c2
                else if i == 0x8b then 0x20e3 else if i == 0x8c then 0x5004 else if i == 0x8d then 0x4025
                else if i == 0x8e then 0x7046 else 0x6067
          else
            if i < 0x98 then
              if i == 0x90 then 0x83b9 else if i == 0x91 then 0x9398 else if i == 0x92 then 0xa3fb
                else if i == 0x93 then 0xb3da else if i == 0x94 then 0xc33d else if i == 0x95 then 0xd31c
                else if i == 0x96 then 0xe37f else 0xf35e
            else
              if i == 0x98 then 0x02b1 else if i == 0x99 then 0x1290 else if i == 0x9a then 0x22f3
                else if i == 0x9b then 0x32d2 else if i == 0x9c then 0x4235 else if i == 0x9d then 0x5214
                else if i == 0x9e then 0x6277 else 0x7256
        else
          if i < 0xb0 then
            if i < 0xa8 then
              if i == 0xa0 then 0xb5ea else if i == 0xa1 then 0xa5cb else if i == 0xa2 then 0x95a8
                else if i == 0xa3 then 0x8589 else if i == 0xa4 then 0xf56e else if i == 0xa5 then 0xe54f
                else if i == 0xa6 then 0xd52c else 0xc50d
            else
              if i == 0xa8 then 0x34e2 else if i == 0xa9 then 0x24c3 else if i == 0xaa then 0x14a0
                else if i == 0xab then 0x0481 else if i == 0xac then 0x7466 else if i == 0xad then 0x6447
                else if i == 0xae then 0x5424 else 0x4405
          else
            if i < 0xb8 then
              if i == 0xb0 then 0xa7db else if i == 0xb1 then 0xb7fa else if i == 0xb2 then 0x8799
                else if i == 0xb3 then 0x97b8 else if i == 0xb4 then 0xe75f else if i == 0xb5 then 0xf77e
                else if i == 0xb6 then 0xc71d else 0xd73c
            else
              if i == 0xb8 then 0x26d3 else if i == 0xb9 then 0x36f2 else if i == 0xba then 0x0691
                else if i == 0xbb then 0x16b0 else if i == 0xbc then 0x6657 else if i == 0xbd then 0x7676
                else if i == 0xbe then 0x4615 else 0x5634
      else
        if i < 0xe0 then
          if i < 0xd0 then
            if i < 0xc8 then
              if i == 0xc0 then 0xd94c else if i == 0xc1 then 0xc96d else if i == 0xc2 then 0xf90e
                else if i == 0xc3 then 0xe92f else if i == 0xc4 then 0x99c8 else if i == 0xc5 then 0x89e9
                else if i == 0xc6 then 0xb98a else 0xa9ab
            else
              if i == 0xc8 then 0x5844 else if i == 0xc9 then 0x4865 else if i == 0xca then 0x7806
                else if i == 0xcb then 0x6827 else if i == 0xcc then 0x18c0 else if i == 0xcd then 0x08e1
                else if i == 0xce then 0x3882 else 0x28a3
          else
            if i < 0xd8 then
              if i == 0xd0 then 0xcb7d else if i == 0xd1 then 0xdb5c else if i == 0xd2 then 0xeb3f
                else if i == 0xd3 then 0xfb1e else if i == 0xd4 then 0x8bf9 else if i == 0xd5 then 0x9bd8
                else if i == 0xd6 then 0xabbb else 0xbb9a
            else
              if i == 0xd8 then 0x4a75 else if i == 0xd9 then 0x5a54 else if i == 0xda then 0x6a37
                else if i == 0xdb then 0x7a16 else if i == 0xdc then 0x0af1 else if i == 0xdd then 0x1ad0
                else if i == 0xde then 0x2ab3 else 0x3a92
        else
          if i < 0xf0 then
            if i < 0xe8 then
              if i == 0xe0 then 0xfd2e else if i == 0xe1 then 0xed0f else if i == 0xe2 then 0xdd6c
                else if i == 0xe3 then 0xcd4d else if i == 0xe4 then 0xbdaa else if i == 0xe5 then 0xad8b
                else if i == 0xe6 then 0x9de8 else 0x8dc9
            else
              if i == 0xe8 then 0x7c26 else if i == 0xe9 then 0x6c07 else if i == 0xea then 0x5c64
                else if i == 0xeb then 0x4c45 else if i == 0xec then 0x3ca2 else if i == 0xed then 0x2c83
                else if i == 0xee then 0x1ce0 else 0x0cc1
          else
            if i < 0xf8 then
              if i == 0xf0 then 0xef1f else if i == 0xf1 then 0xff3e else if i == 0xf2 then 0xcf5d
                else if i == 0xf3 then 0xdf7c else if i == 0xf4 then 0xaf9b else if i == 0xf5 then 0xbfba
                else if i == 0xf6 then 0x8fd9 else 0x9ff8
            else
              if i == 0xf8 then 0x6e17 else if i == 0xf9 then 0x7e36 else if i == 0xfa then 0x4e55
                else if i == 0xfb then 0x5e74 else if i == 0xfc then 0x2e93 else if i == 0xfd then 0x3eb2
                else if i == 0xfe then 0x0ed1 else 0x1ef0
  }

  // ----- words, one operation at a time -----

  function Xor(a: bv16, b: bv16): bv16 { a ^ b }

  function XorByte(a: bv8, b: bv8): bv8 { a ^ b }

  function Shl(a: bv16): bv16 { a << 1 }

  function HighByte(a: bv16): bv8 { (a >> 8) as bv8 }

  predicate Top(a: bv16) { a & 0x8000 != 0 }

  /** Message bit `k` of a byte, the highest first. */
  predicate Bit(b: bv8, k: nat)
    requires k < 8
  {
    match k
    case 0 => b & 0x80 != 0
    case 1 => b & 0x40 != 0
    case 2 => b & 0x20 != 0
    case 3 => b & 0x10 != 0
    case 4 => b & 0x08 != 0
    case 5 => b & 0x04 != 0
    case 6 => b & 0x02 != 0
    case 7 => b & 0x01 != 0
  }

  // ----- the reference: one bit at a time -----

  const POLYNOMIAL: bv16 := 0x1021

  function Feedback(on: bool): bv16 { if on then POLYNOMIAL else 0 }

  /** Shifts one message bit through the division by the polynomial. */
  function ShiftBit(crc: bv16, bit: bool): bv16 { Xor(Shl(crc), Feedback(Top(crc) != bit)) }

  function ShiftBits(crc: bv16, b: bv8, k: nat): bv16
    requires k <= 8
  {
    if k == 0 then crc else ShiftBit(ShiftBits(crc, b, k - 1), Bit(b, k - 1))
  }

  /** The CRC of a message, initial value 0. */
  function Crc(message: seq<bv8>): bv16
  {
    if message == [] then 0 else ShiftBits(Crc(message[..|message| - 1]), message[|message| - 1], 8)
  }

  // ----- the division is linear -----

  lemma XorAssoc(a: bv16, b: bv16, c: bv16)
    ensures Xor(Xor(a, b), c) == Xor(a, Xor(b, c))
  {
  }

  lemma XorComm(a: bv16, b: bv16)
    ensures Xor(a, b) == Xor(b, a)
  {
  }

  lemma XorSwap(a: bv16, b: bv16, c: bv16, d: bv16)
    ensures Xor(Xor(a, b), Xor(c, d)) == Xor(Xor(a, c), Xor(b, d))
  {
    hide Xor;
    XorAssoc(a, b, Xor(c, d));
    XorAssoc(b, c, d);
    XorComm(b, c);
    XorAssoc(c, b, d);
    XorAssoc(a, c, Xor(b, d));
  }

  lemma FeedbackXor(p: bool, q: bool)
    ensures Feedback(p != q) == Xor(Feedback(p), Feedback(q))
  {
  }

  lemma ShlXor(x: bv16, y: bv16)
    ensures Shl(Xor(x, y)) == Xor(Shl(x), Shl(y))
  {
  }

  lemma TopXor(x: bv16, y: bv16)
    ensures Top(Xor(x, y)) == (Top(x) != Top(y))
  {
  }

  lemma BitXor(a: bv8, b: bv8, k: nat)
    requires k < 8
    ensures Bit(XorByte(a, b), k) == (Bit(a, k) != Bit(b, k))
  {
    if k < 4 { LeadingBitXor(a, b, k); } else { TrailingBitXor(a, b, k); }
    hide Bit, XorByte;
  }

  lemma LeadingBitXor(a: bv8, b: bv8, k: nat)
    requires k < 4
    ensures Bit(XorByte(a, b), k) == (Bit(a, k) != Bit(b, k))
  {
    match k case 0 => case 1 => case 2 => case 3 =>
  }

  lemma TrailingBitXor(a: bv8, b: bv8, k: nat)
    requires 4 <= k < 8
    ensures Bit(XorByte(a, b), k) == (Bit(a, k) != Bit(b, k))
  {
    match k case 4 => case 5 => case 6 => case 7 =>
  }

  lemma ShiftBitLinear(x: bv16, y: bv16, p: bool, q: bool)
    ensures ShiftBit(Xor(x, y), p != q) == Xor(ShiftBit(x, p), ShiftBit(y, q))
  {
    hide Xor, Shl, Top, Feedback;
    var f, g := Top(x) != p, Top(y) != q;
    TopXor(x, y);
    assert (Top(Xor(x, y)) != (p != q)) == (f != g);
    FeedbackXor(f, g);
    ShlXor(x, y);
    XorSwap(Shl(x), Shl(y), Feedback(f), Feedback(g));
  }

  lemma {:induction false} ShiftBitsLinear(x: bv16, y: bv16, a: bv8, b: bv8, k: nat)
    requires k <= 8
    ensures ShiftBits(Xor(x, y), XorByte(a, b), k) == Xor(ShiftBits(x, a, k), ShiftBits(y, b, k))
  {
    hide Xor, XorByte, Bit, ShiftBit;
    if k > 0 {
      ShiftBitsLinear(x, y, a, b, k - 1);
      BitXor(a, b, k - 1);
      ShiftBitLinear(ShiftBits(x, a, k - 1), ShiftBits(y, b, k - 1), Bit(a, k - 1), Bit(b, k - 1));
    }
  }

  // ----- a byte equal to the register's high byte just shifts it out -----

  function ShlBy(a: bv16, k: nat): bv16
    requires k <= 8
  {
    match k
    case 0 => a
    case 1 => a << 1
    case 2 => a << 2
    case 3 => a << 3
    case 4 => a << 4
    case 5 => a << 5
    case 6 => a << 6
    case 7 => a << 7
    case 8 => a << 8
  }

  lemma ShlByStep(a: bv16, k: nat)
    requires k < 8
    ensures Shl(ShlBy(a, k)) == ShlBy(a, k + 1) && Top(ShlBy(a, k)) == Bit(HighByte(a), k)
  {
    match k case 0 => case 1 => case 2 => case 3 => case 4 => case 5 => case 6 => case 7 =>
  }

  lemma XorNothing(a: bv16)
    ensures Xor(a, 0) == a
  {
  }

  lemma {:induction false} HighByteCancels(crc: bv16, k: nat)
    requires k <= 8
    ensures ShiftBits(crc, HighByte(crc), k) == ShlBy(crc, k)
  {
    if k == 0 {
    } else {
      HighByteCancels(crc, k - 1);
      ShlByStep(crc, k - 1);
      XorNothing(ShlBy(crc, k));
      hide Xor, Shl, Top, Bit, ShlBy, HighByte;
    }
  }

  // ----- the table -----

  /** An entry by its bits: x^16 = x^12 + x^5 + 1 folds the byte, and its own high half, back in. */
  function Folded(i: bv8): bv16
  {
    var q := (i ^ (i >> 4)) as bv16;
    q ^ (q << 5) ^ (q << 12)
  }

  function FoldedNibble(h: bv8): bv16 { (h as bv16) ^ ((h as bv16) << 5) ^ ((h as bv16) << 12) }

  function FourShifts(r: bv16, b: bv8, k: nat): bv16
    requires k <= 4
  {
    ShiftBit(ShiftBit(ShiftBit(ShiftBit(r, Bit(b, k)), Bit(b, k + 1)), Bit(b, k + 2)), Bit(b, k + 3))
  }

  lemma FirstNibble(i: bv8)
    ensures FourShifts(0, i, 0) == FoldedNibble(i >> 4)
  {
  }

  lemma SecondNibble(i: bv8)
    ensures FourShifts(FoldedNibble(i >> 4), i, 4) == Folded(i)
  {
  }

  lemma FourAtATime(r: bv16, b: bv8)
    ensures ShiftBits(r, b, 8) == FourShifts(FourShifts(r, b, 0), b, 4)
  {
    hide ShiftBit, Bit;
    assert ShiftBits(r, b, 1) == ShiftBit(r, Bit(b, 0));
    assert ShiftBits(r, b, 3) == ShiftBit(ShiftBit(ShiftBits(r, b, 1), Bit(b, 1)), Bit(b, 2));
    assert ShiftBits(r, b, 5) == ShiftBit(ShiftBit(ShiftBits(r, b, 3), Bit(b, 3)), Bit(b, 4));
    assert ShiftBits(r, b, 7) == ShiftBit(ShiftBit(ShiftBits(r, b, 5), Bit(b, 5)), Bit(b, 6));
  }

  lemma LowerHalf(i: bv8)
    requires i < 0x80
    ensures Crc16Tab(i) == Folded(i)
  {
    if i < 0x40 {
      if i < 0x10 {
      } else if i < 0x20 {
      } else if i < 0x30 {
      }
    } else {
      if i < 0x50 {
      } else if i < 0x60 {
      } else if i < 0x70 {
      }
    }
  }

  lemma UpperHalf(i: bv8)
    requires 0x80 <= i
    ensures Crc16Tab(i) == Folded(i)
  {
    if i < 0xc0 {
      if i < 0x90 {
      } else if i < 0xa0 {
      } else if i < 0xb0 {
      }
    } else {
      if i < 0xd0 {
      } else if i < 0xe0 {
      } else if i < 0xf0 {
      }
    }
  }

  /** Every entry of the table is eight steps of the division. */
  lemma TableEntry(i: bv8)
    ensures Crc16Tab(i) == ShiftBits(0, i, 8)
  {
    FourAtATime(0, i);
    FirstNibble(i);
    SecondNibble(i);
    hide Crc16Tab, Folded, ShiftBits, FourShifts, FoldedNibble;
    if i < 0x80 {
      LowerHalf(i);
    } else {
      UpperHalf(i);
    }
  }

  // ----- the table-driven CRC -----

  /** `(crc << 8) ^ crc16tab[((crc >> 8) ^ b) & 0x00FF]` */
  function TableStep(crc: bv16, b: bv8): bv16
  {
    Xor(ShlBy(crc, 8), Crc16Tab(XorByte(HighByte(crc), b)))
  }

  lemma XorByteTwice(h: bv8, b: bv8)
    ensures XorByte(h, XorByte(h, b)) == b
  {
  }

  /** One table step is one byte of the division. */
  lemma TableStepIsDivision(crc: bv16, b: bv8)
    ensures TableStep(crc, b) == ShiftBits(crc, b, 8)
  {
    var h := HighByte(crc);
    var i := XorByte(h, b);
    TableEntry(i);
    HighByteCancels(crc, 8);
    ShiftBitsLinear(crc, 0, h, i, 8);
    XorNothing(crc);
    XorByteTwice(h, b);
    hide Xor, XorByte, HighByte, ShiftBits, ShlBy, Crc16Tab;
  }

  /** `crc16`: a loop over the bytes with the register as accumulator. */
  method Crc16(buf: seq<bv8>) returns (crc: bv16)
    ensures crc == Crc(buf)
  {
    hide TableStep, ShiftBits;
    crc := 0;
    var counter := 0;
    assert buf[..0] == [];
    while counter < |buf|
      invariant 0 <= counter <= |buf|
      invariant crc == Crc(buf[..counter])
    {
      OneByteMore(buf, counter, TableStep(crc, buf[counter]));
      crc := TableStep(crc, buf[counter]);
      counter := counter + 1;
    }
    assert buf[..|buf|] == buf;
  }

  lemma OneByteMore(message: seq<bv8>, k: nat, crc: bv16)
    requires k < |message| && crc == TableStep(Crc(message[..k]), message[k])
    ensures Crc(message[..k + 1]) == crc
  {
    hide ShiftBits, Crc16Tab, TableStep;
    assert message[..k + 1][..k] == message[..k];
    TableStepIsDivision(Crc(message[..k]), message[k]);
  }

  lemma NoBytes(message: seq<bv8>)
    ensures Crc(message[..0]) == 0
  {
  }

  lemma FirstDigits()
    ensures TableStep(0x0000, 0x31) == 0x2672 && TableStep(0x2672, 0x32) == 0x20b5
    ensures TableStep(0x20b5, 0x33) == 0x9752 && TableStep(0x9752, 0x34) == 0xd789
    ensures TableStep(0xd789, 0x35) == 0x546c
  {
  }

  lemma LastDigits()
    ensures TableStep(0x546c, 0x36) == 0x20e4 && TableStep(0x20e4, 0x37) == 0x86d6
    ensures TableStep(0x86d6, 0x38) == 0x9015 && TableStep(0x9015, 0x39) == 0x31c3
  {
  }

  /** The check value of the specification: the CRC of the digits "123456789". */
  lemma CheckValue(key: seq<bv8>)
    requires key == [0x31, 0x32, 0x33, 0x34, 0x35, 0x36, 0x37, 0x38, 0x39]
    ensures Crc(key) == 0x31c3
  {
    hide Crc, TableStep;
    FirstDigits();
    LastDigits();
    NoBytes(key);
    OneByteMore(key, 0, 0x2672);
    OneByteMore(key, 1, 0x20b5);
    OneByteMore(key, 2, 0x9752);
    OneByteMore(key, 3, 0xd789);
    OneByteMore(key, 4, 0x546c);
    OneByteMore(key, 5, 0x20e4);
    OneByteMore(key, 6, 0x86d6);
    OneByteMore(key, 7, 0x9015);
    OneByteMore(key, 8, 0x31c3);
    assert key[..9] == key;
  }

  const HSLOTS: nat := 16384

  /** `& MAX_CLUSTER_HSLOT`, which is 16383: fourteen bits are left. */
  function Masked(crc: bv16): bv14 { (crc & 0x3fff) as bv14 }

  lemma MaskedBits(crc: bv16)
    ensures Masked(crc) as bv16 == crc & 0x3fff
  {
  }

  lemma Widened(masked: bv14)
    ensures masked as bv16 as nat == masked as nat < 16384
  {
  }

  lemma UpperAndLower(crc: bv16)
    ensures crc as nat == (crc >> 14 << 14) as nat + (crc & 0x3fff) as nat
    ensures (crc >> 14 << 14) as nat == 16384 * (crc >> 14) as nat
  {
  }

  lemma Remainder(whole: nat, quotient: nat, rest: nat)
    requires whole == 16384 * quotient + rest && rest < 16384
    ensures whole % 16384 == rest
  {
  }

  /** The bits that are left are the remainder modulo 16384. */
  lemma MaskedIsRemainder(crc: bv16, masked: bv14, lower: bv16)
    requires masked == Masked(crc) && lower == crc & 0x3fff
    ensures masked as nat == crc as nat % 16384
  {
    MaskedBits(crc);
    Widened(masked);
    UpperAndLower(crc);
    hide Masked;
    Remainder(crc as nat, (crc >> 14) as nat, lower as nat);
  }

  /** The hash slot of a key in the specification: its CRC modulo 16384. */
  function Slot(key: seq<bv8>): (slot: nat)
    ensures slot < HSLOTS
  {
    Crc(key) as nat % HSLOTS
  }

  /** `calc_hslot_crc16_cluster`, which masks where the specification divides. */
  method CalcHslot(key: seq<bv8>) returns (slot: nat)
    ensures slot == Crc(key) as nat % 16384 && slot < HSLOTS
  {
    hide Masked, Crc;
    var crc := Crc16(key);
    slot := Masked(crc) as nat;
    MaskedIsRemainder(crc, Masked(crc), crc & 0x3fff);
  }
}
