/** The byte order of a binary32 pattern in EEPROM
    (readFloatFromEeprom and writeFloatToEeprom, TouchLib.h:628-671): the
    most significant byte first. */
module Packing {

  /** Byte k of a pattern, 3 being the most significant. */
  function Byte(i: bv32, k: nat): bv8
    requires k < 4
  {
    if k == 3 then ((i >> 24) & 0xFF) as bv8 else if k == 2 then ((i >> 16) & 0xFF) as bv8
    else if k == 1 then ((i >> 8) & 0xFF) as bv8 else (i & 0xFF) as bv8
  }

  /** The bytes writeFloatToEeprom emits, in order. */
  function FloatBytes(i: bv32): (b: seq<bv8>)
    ensures |b| == 4
  {
    [Byte(i, 3), Byte(i, 2), Byte(i, 1), Byte(i, 0)]
  }

  /** Byte j of the emitted sequence is byte 3 - j of the pattern. */
  lemma FloatBytesAt(i: bv32, j: nat, k: nat)
    requires j < 4 && k == 3 - j
    ensures FloatBytes(i)[j] == Byte(i, k)
  {
  }

  /** A byte moved to position k of a pattern. */
  function Place(b: bv8, k: nat): bv32
    requires k < 4
  {
    if k == 3 then (b as bv32) << 24 else if k == 2 then (b as bv32) << 16
    else if k == 1 then (b as bv32) << 8 else b as bv32
  }

  /** The pattern readFloatFromEeprom has built after the first n of the
      four bytes b. */
  function Prefix(b: seq<bv8>, n: nat): bv32
    requires |b| == 4 && n <= 4
  {
    if n == 0 then 0
    else if n == 1 then Place(b[0], 3)
    else if n == 2 then Place(b[0], 3) | Place(b[1], 2)
    else if n == 3 then Place(b[0], 3) | Place(b[1], 2) | Place(b[2], 1)
    else Place(b[0], 3) | Place(b[1], 2) | Place(b[2], 1) | Place(b[3], 0)
  }

  /** The pattern readFloatFromEeprom returns for the four bytes b. */
  function Assemble(b: seq<bv8>): bv32
    requires |b| == 4
  {
    Prefix(b, 4)
  }

  /** The step of the reading loop: ORing in byte n of b at its place
      extends the pattern built from the bytes before it. */
  lemma ReadStep(b: seq<bv8>, n: nat, f: bv32, tmp: bv8)
    requires |b| == 4 && n < 4 && f == Prefix(b, n) && tmp == b[n]
    ensures f | Place(tmp, 3 - n) == Prefix(b, n + 1)
  {
    PrefixStep(b, n);
  }

  /** One more byte ORed in at its place. */
  lemma PrefixStep(b: seq<bv8>, n: nat)
    requires |b| == 4 && n < 4
    ensures Prefix(b, n + 1) == Prefix(b, n) | Place(b[n], 3 - n)
  {
    if n == 0 {
      assert Prefix(b, 0) == 0;
    }
  }

  /** Reading back the four written bytes gives the written pattern... */
  lemma FloatRoundTrip(i: bv32)
    ensures Assemble(FloatBytes(i)) == i
  {
  }

  /** ... and writing a read pattern gives back the bytes read. */
  lemma BytesRoundTrip(b: seq<bv8>)
    requires |b| == 4
    ensures FloatBytes(Assemble(b)) == b
  {
  }

}
