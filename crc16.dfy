/** The bit-by-bit CRC-16 of the settings blob (TouchLib.h:562-597):
    polynomial 0x1021, message bits shifted in most significant first, no
    reflection, no final XOR.  The register value is whatever the caller
    passes in; both settings passes start it at 0. */
module Crc16 {

  const Polynomial: bv16 := 0x1021

  /** One register step: the outgoing top bit is compared with the incoming
      message bit and the polynomial is XORed in when they differ. */
  function ShiftBit(crc: bv16, bit: bool): bv16
  {
    var top := crc & 0x8000 != 0;
    if top != bit then (crc << 1) ^ Polynomial else crc << 1
  }

  /** The mask the loop holds before its j-th step: 0x80 >> j, and 0 once
      all eight bits are done. */
  function BitMask(j: nat): bv8
    requires j <= 8
  {
    if j == 0 then 0x80 else if j == 1 then 0x40 else if j == 2 then 0x20
    else if j == 3 then 0x10 else if j == 4 then 0x08 else if j == 5 then 0x04
    else if j == 6 then 0x02 else if j == 7 then 0x01 else 0
  }

  /** The register after the first j bits of c, most significant first. */
  function ShiftTopBits(crc: bv16, c: bv8, j: nat): bv16
    requires j <= 8
    decreases j
  {
    if j == 0 then crc
    else ShiftBit(ShiftTopBits(crc, c, j - 1), c & BitMask(j - 1) != 0)
  }

  /** Reference definition of one byte update: all eight bits of c, from
      bit 7 down to bit 0. */
  function UpdateByte(crc: bv16, c: bv8): bv16
  {
    ShiftTopBits(crc, c, 8)
  }

  /** Halving the mask moves it to the next lower bit; the mask is non-zero
      exactly while bits remain. */
  lemma NextMask(j: nat)
    requires j < 8
    ensures BitMask(j) >> 1 == BitMask(j + 1)
    ensures BitMask(j) != 0
  {
  }

  /** The body of the loop in crcUpdate: flip the outgoing top bit when the
      masked message bit is set, shift, and XOR the polynomial in when the
      flipped bit is set. */
  method ShiftInBit(crc: bv16, c: bv8, i: bv8) returns (r: bv16)
    ensures r == ShiftBit(crc, c & i != 0)
  {
    r := crc;
    var bit := r & 0x8000 != 0;
    if c & i != 0 {
      bit := !bit;
    }
    r := r << 1;
    if bit {
      r := r ^ Polynomial;
    }
  }

  /** crcUpdate: the loop over the mask i = 0x80, 0x40, ..., 1 computes the
      reference byte update. */
  method CrcUpdate(crc: bv16, c: bv8) returns (r: bv16)
    ensures r == UpdateByte(crc, c)
  {
    r := crc;
    var i: bv8 := 0x80;
    ghost var j := 0;
    while i > 0
      invariant 0 <= j <= 8
      invariant i == BitMask(j)
      invariant r == ShiftTopBits(crc, c, j)
      decreases 8 - j
    {
      assert j < 8;
      r := ShiftInBit(r, c, i);
      NextMask(j);
      i := i >> 1;
      j := j + 1;
    }
  }

  /** The register after folding every byte of s into crc, in order. */
  function CrcOf(crc: bv16, s: seq<bv8>): bv16
    decreases |s|
  {
    if |s| == 0 then crc else CrcOf(UpdateByte(crc, s[0]), s[1..])
  }

  /** Folding s then t is folding s + t. */
  lemma {:induction false} CrcOfAppend(crc: bv16, s: seq<bv8>, t: seq<bv8>)
    ensures CrcOf(crc, s + t) == CrcOf(CrcOf(crc, s), t)
    decreases |s|
  {
    if |s| > 0 {
      assert (s + t)[0] == s[0];
      assert (s + t)[1..] == s[1..] + t;
      CrcOfAppend(UpdateByte(crc, s[0]), s[1..], t);
    } else {
      assert s + t == t;
    }
  }

  /** Folding one more byte is one more byte update. */
  lemma CrcOfSnoc(crc: bv16, s: seq<bv8>, b: bv8)
    ensures CrcOf(crc, s + [b]) == UpdateByte(CrcOf(crc, s), b)
  {
    CrcOfAppend(crc, s, [b]);
    assert CrcOf(UpdateByte(CrcOf(crc, s), b), []) == UpdateByte(CrcOf(crc, s), b);
  }

  /** The ASCII bytes of "123456789", the customary CRC check message. */
  function CheckMessage(): seq<bv8>
  {
    [0x31, 0x32, 0x33, 0x34, 0x35, 0x36, 0x37, 0x38, 0x39]
  }

  /** One step of folding a message from position k. */
  lemma FoldFrom(crc: bv16, m: seq<bv8>, k: nat)
    requires k < |m|
    ensures CrcOf(crc, m[k..]) == CrcOf(UpdateByte(crc, m[k]), m[k + 1..])
  {
    assert m[k..][0] == m[k];
    assert m[k..][1..] == m[k + 1..];
  }

  /** The nine register values of the check message from a zero register. */
  lemma XmodemSteps()
    ensures UpdateByte(0x0000, 0x31) == 0x2672
    ensures UpdateByte(0x2672, 0x32) == 0x20B5
    ensures UpdateByte(0x20B5, 0x33) == 0x9752
    ensures UpdateByte(0x9752, 0x34) == 0xD789
    ensures UpdateByte(0xD789, 0x35) == 0x546C
    ensures UpdateByte(0x546C, 0x36) == 0x20E4
    ensures UpdateByte(0x20E4, 0x37) == 0x86D6
    ensures UpdateByte(0x86D6, 0x38) == 0x9015
    ensures UpdateByte(0x9015, 0x39) == 0x31C3
  {
  }

  /** The nine register values of the check message from the register 0x1d0f. */
  lemma SeededSteps()
    ensures UpdateByte(0x1D0F, 0x31) == 0xEAEE
    ensures UpdateByte(0xEAEE, 0x32) == 0xA475
    ensures UpdateByte(0xA475, 0x33) == 0x865E
    ensures UpdateByte(0x865E, 0x34) == 0xD999
    ensures UpdateByte(0xD999, 0x35) == 0xA5A2
    ensures UpdateByte(0xA5A2, 0x36) == 0x11DA
    ensures UpdateByte(0x11DA, 0x37) == 0x9EA4
    ensures UpdateByte(0x9EA4, 0x38) == 0x712C
    ensures UpdateByte(0x712C, 0x39) == 0xE5CC
  {
  }

  /** From a zero register the check value is 0x31C3: the parameter set is
      CRC-16/XMODEM. */
  lemma CheckValueFromZero()
    ensures CrcOf(0, CheckMessage()) == 0x31C3
  {
    var m := CheckMessage();
    assert m[0..] == m;
    XmodemSteps();
    FoldFrom(0x0000, m, 0);
    FoldFrom(0x2672, m, 1);
    FoldFrom(0x20B5, m, 2);
    FoldFrom(0x9752, m, 3);
    FoldFrom(0xD789, m, 4);
    FoldFrom(0x546C, m, 5);
    FoldFrom(0x20E4, m, 6);
    FoldFrom(0x86D6, m, 7);
    FoldFrom(0x9015, m, 8);
    assert m[9..] == [];
  }

  /** The generator configuration quoted beside the routine (XorIn 0x1d0f)
      gives the check value 0xE5CC instead: the routine is only that
      configuration when the caller seeds the register with 0x1d0f, and
      both settings passes seed it with 0. */
  lemma CheckValueFromCommentedXorIn()
    ensures CrcOf(0x1D0F, CheckMessage()) == 0xE5CC
  {
    var m := CheckMessage();
    assert m[0..] == m;
    SeededSteps();
    FoldFrom(0x1D0F, m, 0);
    FoldFrom(0xEAEE, m, 1);
    FoldFrom(0xA475, m, 2);
    FoldFrom(0x865E, m, 3);
    FoldFrom(0xD999, m, 4);
    FoldFrom(0xA5A2, m, 5);
    FoldFrom(0x11DA, m, 6);
    FoldFrom(0x9EA4, m, 7);
    FoldFrom(0x712C, m, 8);
    assert m[9..] == [];
  }
}
