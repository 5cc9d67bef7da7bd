/** The settings blob in EEPROM (TouchLib.h:598-854), as functions on the
    EEPROM contents.  The writer stores the key 0xC7, a descriptor byte
    (format version 0 in bits 7..5, nSensors - 1 in bits 4..0), the four
    thresholds of every channel as big-endian binary32 patterns, and the
    CRC-16 of all of that, high byte first.  The reader expects a layout
    with one more byte, a configuration byte at offset + 2, and folds the
    descriptor into its CRC a second time where that byte would go. */
module SettingsSpec {
  import opened Crc16
  import opened Channel
  import opened Packing

  const Key: bv8 := 0xC7
  const Erased: bv8 := 0xFF
  const SlewBit: bv8 := 0x80

  /** Key, descriptor, configuration byte and two CRC bytes. */
  const Overhead: nat := 1 + 1 + 1 + 2

  /** eepromSizeRequired (TouchLib.h:720-724): four floats per channel
      plus the overhead. */
  function SizeRequired(nSensors: nat): nat
  {
    nSensors * 4 * 4 + Overhead
  }

  // ---- The threshold section ----

  /** Threshold j of a channel, in the order the blob holds them. */
  function Threshold(d: Channel, j: nat): bv32
    requires j < 4
  {
    if j == 0 then d.releasedToApproachedThreshold
    else if j == 1 then d.approachedToReleasedThreshold
    else if j == 2 then d.approachedToPressedThreshold
    else d.pressedToApproachedThreshold
  }

  /** writeSensorSettingToEeprom (TouchLib.h:699-718): the four thresholds. */
  function ChannelBytes(d: Channel): (b: seq<bv8>)
    ensures |b| == 16
  {
    FloatBytes(Threshold(d, 0)) + FloatBytes(Threshold(d, 1)) +
    FloatBytes(Threshold(d, 2)) + FloatBytes(Threshold(d, 3))
  }

  /** The threshold sections of the channels of ds, in channel order. */
  function ThresholdBytes(ds: seq<Channel>): (b: seq<bv8>)
    ensures |b| == 16 * |ds|
    decreases |ds|
  {
    if |ds| == 0 then [] else ThresholdBytes(ds[..|ds| - 1]) + ChannelBytes(ds[|ds| - 1])
  }

  /** Threshold j of a channel sits at 4 * j of its section. */
  lemma ChannelBytesAt(d: Channel, j: nat)
    requires j < 4
    ensures ChannelBytes(d)[4 * j .. 4 * j + 4] == FloatBytes(Threshold(d, j))
  {
    var a, b, c, f := FloatBytes(Threshold(d, 0)), FloatBytes(Threshold(d, 1)),
                      FloatBytes(Threshold(d, 2)), FloatBytes(Threshold(d, 3));
    Quarters(a, b, c, f);
    assert ChannelBytes(d) == a + b + c + f;
  }

  /** The four quarters of a 16-byte section. */
  lemma Quarters(a: seq<bv8>, b: seq<bv8>, c: seq<bv8>, f: seq<bv8>)
    requires |a| == 4 && |b| == 4 && |c| == 4 && |f| == 4
    ensures var s := a + b + c + f;
      s[0..4] == a && s[4..8] == b && s[8..12] == c && s[12..16] == f
  {
    var s := a + b + c + f;
    assert forall m :: 0 <= m < 4 ==> s[4 + m] == b[m];
    assert forall m :: 0 <= m < 4 ==> s[8 + m] == c[m];
    assert forall m :: 0 <= m < 4 ==> s[12 + m] == f[m];
  }

  /** The section of channel i sits at 16 * i. */
  lemma {:induction false} SectionAt(ds: seq<Channel>, i: nat)
    requires i < |ds|
    ensures ThresholdBytes(ds)[16 * i .. 16 * i + 16] == ChannelBytes(ds[i])
    decreases |ds|
  {
    var last := |ds| - 1;
    var front := ThresholdBytes(ds[..last]);
    var c := ChannelBytes(ds[last]);
    assert ThresholdBytes(ds) == front + c;
    if i < last {
      SectionAt(ds[..last], i);
      assert ds[..last][i] == ds[i];
      SliceOfFront(front, c, 16 * i, 16);
    } else {
      SliceOfBack(front, c, 16 * i, 16);
    }
  }

  /** A slice inside the first part of a concatenation. */
  lemma SliceOfFront(a: seq<bv8>, b: seq<bv8>, p: nat, n: nat)
    requires p + n <= |a|
    ensures (a + b)[p .. p + n] == a[p .. p + n]
  {
  }

  /** The second part of a concatenation, sliced back out. */
  lemma SliceOfBack(a: seq<bv8>, b: seq<bv8>, p: nat, n: nat)
    requires p == |a| && n == |b|
    ensures (a + b)[p .. p + n] == b
  {
  }

  /** The bytes of threshold j of channel i sit at 16 * i + 4 * j. */
  lemma ThresholdBytesAt(ds: seq<Channel>, i: nat, j: nat)
    requires i < |ds| && j < 4
    ensures ThresholdBytes(ds)[16 * i + 4 * j .. 16 * i + 4 * j + 4] == FloatBytes(Threshold(ds[i], j))
  {
    var s := ThresholdBytes(ds);
    var c := ChannelBytes(ds[i]);
    var f := FloatBytes(Threshold(ds[i], j));
    SectionAt(ds, i);
    ChannelBytesAt(ds[i], j);
    SliceOfSection(s, i, c, j, f);
  }

  /** A slice f at q of a slice c stored at p sits at p + q. */
  /** Bytes 4j .. 4j+4 of the 16-byte section i of s. */
  lemma SliceOfSection(s: seq<bv8>, i: nat, c: seq<bv8>, j: nat, f: seq<bv8>)
    requires |c| == 16 && |f| == 4 && j < 4 && 16 * i + 16 <= |s|
    requires s[16 * i .. 16 * i + 16] == c && c[4 * j .. 4 * j + 4] == f
    ensures s[16 * i + 4 * j .. 16 * i + 4 * j + 4] == f
  {
    NestedSlice(s, 16 * i, c, 4 * j, f);
  }

  lemma NestedSlice(s: seq<bv8>, p: nat, c: seq<bv8>, q: nat, f: seq<bv8>)
    requires p + |c| <= |s| && s[p .. p + |c|] == c
    requires q + |f| <= |c| && c[q .. q + |f|] == f
    ensures s[p + q .. p + q + |f|] == f
  {
    forall m | 0 <= m < |f|
      ensures s[p + q .. p + q + |f|][m] == f[m]
    {
      assert f[m] == c[q + m] == s[p + q + m];
    }
  }

  lemma SliceOfSlice(s: seq<bv8>, p: nat, q: nat, x: nat, y: nat)
    requires p <= q <= |s| && x <= y <= q - p
    ensures s[p..q][x..y] == s[p + x .. p + y]
  {
    assert forall m :: 0 <= m < y - x ==> s[p..q][x..y][m] == s[p + x .. p + y][m];
  }

  /** readSensorSettingFromEeprom with applySettings (TouchLib.h:673-697):
      the four thresholds taken from 16 bytes. */
  function ApplyChannel(d: Channel, b: seq<bv8>): Channel
    requires |b| == 16
  {
    d.(releasedToApproachedThreshold := Assemble(b[0..4]),
       approachedToReleasedThreshold := Assemble(b[4..8]),
       approachedToPressedThreshold := Assemble(b[8..12]),
       pressedToApproachedThreshold := Assemble(b[12..16]))
  }

  /** The applying pass followed by the configuration loop: channel i
      takes the thresholds at 16 * i and the slew-rate flag. */
  function ApplyAll(ds: seq<Channel>, b: seq<bv8>, slew: bool): (r: seq<Channel>)
    requires |b| == 16 * |ds|
    ensures |r| == |ds|
  {
    seq(|ds|, i requires 0 <= i < |ds| =>
      Applied(ds[i], b[16 * i .. 16 * i + 16], slew))
  }

  /** One channel after both passes: its section's thresholds and the flag. */
  function Applied(d: Channel, b: seq<bv8>, slew: bool): Channel
    requires |b| == 16
  {
    ApplyChannel(d, b).(enableSlewrateLimiter := slew)
  }

  /** Applying a channel's own section restores its thresholds. */
  lemma ApplyChannelBytes(d: Channel)
    ensures ApplyChannel(d, ChannelBytes(d)) == d
  {
    var b := ChannelBytes(d);
    ChannelBytesAt(d, 0);
    ChannelBytesAt(d, 1);
    ChannelBytesAt(d, 2);
    ChannelBytesAt(d, 3);
    FloatRoundTrip(Threshold(d, 0));
    FloatRoundTrip(Threshold(d, 1));
    FloatRoundTrip(Threshold(d, 2));
    FloatRoundTrip(Threshold(d, 3));
    assert Assemble(b[0..4]) == d.releasedToApproachedThreshold;
    assert Assemble(b[4..8]) == d.approachedToReleasedThreshold;
    assert Assemble(b[8..12]) == d.approachedToPressedThreshold;
    assert Assemble(b[12..16]) == d.pressedToApproachedThreshold;
  }

  /** Applying the threshold section of ds to ds restores its thresholds. */
  lemma ApplyOwnBytes(ds: seq<Channel>, i: nat)
    requires i < |ds|
    ensures ApplyChannel(ds[i], ThresholdBytes(ds)[16 * i .. 16 * i + 16]) == ds[i]
  {
    SectionAt(ds, i);
    ApplyChannelBytes(ds[i]);
  }

  // ---- Framing ----

  /** The descriptor byte: version 0, nSensors - 1 in the low five bits. */
  function Descriptor(nSensors: nat): bv8
    requires 0 < nSensors
  {
    ((nSensors - 1) % 32) as bv8
  }

  /** (nSensors - 1) & 0x1F == nSensors - 1. */
  predicate FitsDescriptor(nSensors: nat)
  {
    0 < nSensors <= 32
  }

  /** The CRC bytes, high first. */
  function High(crc: bv16): bv8 { (crc >> 8) as bv8 }
  function Low(crc: bv16): bv8 { (crc & 0xFF) as bv8 }

  /** e with bytes written from position at on. */
  function Overwrite(e: seq<bv8>, at: nat, bytes: seq<bv8>): (r: seq<bv8>)
    requires at + |bytes| <= |e|
    ensures |r| == |e|
  {
    e[..at] + bytes + e[at + |bytes|..]
  }

  /** Writing one more byte extends an overwrite by one cell. */
  lemma OverwriteSnoc(e: seq<bv8>, at: nat, p: seq<bv8>, b: bv8)
    requires at + |p| + 1 <= |e|
    ensures Overwrite(e, at, p + [b]) == Overwrite(e, at, p)[at + |p| := b]
  {
    var l, r := Overwrite(e, at, p + [b]), Overwrite(e, at, p)[at + |p| := b];
    assert forall m :: 0 <= m < |e| ==> l[m] == r[m];
  }

  /** Two adjacent overwrites are one overwrite with both byte strings. */
  lemma OverwriteAppend(e: seq<bv8>, at: nat, x: seq<bv8>, y: seq<bv8>)
    requires at + |x| + |y| <= |e|
    ensures Overwrite(Overwrite(e, at, x), at + |x|, y) == Overwrite(e, at, x + y)
  {
    var l, r := Overwrite(Overwrite(e, at, x), at + |x|, y), Overwrite(e, at, x + y);
    assert forall m :: 0 <= m < |e| ==> l[m] == r[m];
  }

  /** Adjacent slices concatenate. */
  lemma SliceConcat(e: seq<bv8>, a: nat, b: nat, c: nat)
    requires a <= b <= c <= |e|
    ensures e[a..b] + e[b..c] == e[a..c]
  {
  }

  /** Folding two adjacent slices is folding their union. */
  lemma CrcOfSlices(crc: bv16, e: seq<bv8>, a: nat, b: nat, c: nat)
    requires a <= b <= c <= |e|
    ensures CrcOf(CrcOf(crc, e[a..b]), e[b..c]) == CrcOf(crc, e[a..c])
  {
    CrcOfAppend(crc, e[a..b], e[b..c]);
    SliceConcat(e, a, b, c);
  }

  /** Folding byte j of b after its first j bytes. */
  lemma FoldStep(crc: bv16, b: seq<bv8>, j: nat)
    requires j < |b|
    ensures UpdateByte(CrcOf(crc, b[..j]), b[j]) == CrcOf(crc, b[..j + 1])
  {
    assert b[..j + 1] == b[..j] + [b[j]];
    CrcOfSnoc(crc, b[..j], b[j]);
  }

  /** Storing byte j of b after its first j bytes. */
  lemma StoreStep(e: seq<bv8>, at: nat, b: seq<bv8>, j: nat)
    requires j < |b| && at + |b| <= |e|
    ensures Overwrite(e, at, b[..j])[at + j := b[j]] == Overwrite(e, at, b[..j + 1])
  {
    assert b[..j + 1] == b[..j] + [b[j]];
    OverwriteSnoc(e, at, b[..j], b[j]);
  }

  /** Four floats written one after the other are one section written. */
  lemma StoreQuarters(e0: seq<bv8>, at: nat, d: Channel, e1: seq<bv8>, e2: seq<bv8>, e3: seq<bv8>, e4: seq<bv8>)
    requires at + 16 <= |e0|
    requires e1 == Overwrite(e0, at, FloatBytes(Threshold(d, 0)))
    requires e2 == Overwrite(e1, at + 4, FloatBytes(Threshold(d, 1)))
    requires e3 == Overwrite(e2, at + 8, FloatBytes(Threshold(d, 2)))
    requires e4 == Overwrite(e3, at + 12, FloatBytes(Threshold(d, 3)))
    ensures e4 == Overwrite(e0, at, ChannelBytes(d))
  {
    var b0, b1, b2, b3 := FloatBytes(Threshold(d, 0)), FloatBytes(Threshold(d, 1)),
                          FloatBytes(Threshold(d, 2)), FloatBytes(Threshold(d, 3));
    OverwriteAppend(e0, at, b0, b1);
    OverwriteAppend(e0, at, b0 + b1, b2);
    OverwriteAppend(e0, at, b0 + b1 + b2, b3);
  }

  /** The CRC after four floats written one after the other is the CRC
      of the section. */
  lemma FoldQuarters(crc: bv16, d: Channel, c1: bv16, c2: bv16, c3: bv16, c4: bv16)
    requires c1 == CrcOf(crc, FloatBytes(Threshold(d, 0)))
    requires c2 == CrcOf(c1, FloatBytes(Threshold(d, 1)))
    requires c3 == CrcOf(c2, FloatBytes(Threshold(d, 2)))
    requires c4 == CrcOf(c3, FloatBytes(Threshold(d, 3)))
    ensures c4 == CrcOf(crc, ChannelBytes(d))
  {
    var b0, b1, b2, b3 := FloatBytes(Threshold(d, 0)), FloatBytes(Threshold(d, 1)),
                          FloatBytes(Threshold(d, 2)), FloatBytes(Threshold(d, 3));
    CrcOfAppend(crc, b0, b1);
    CrcOfAppend(crc, b0 + b1, b2);
    CrcOfAppend(crc, b0 + b1 + b2, b3);
  }

  /** The CRC after four floats read one after the other is the CRC of
      the sixteen bytes. */
  lemma ReadQuarters(crc: bv16, e: seq<bv8>, at: nat, c1: bv16, c2: bv16, c3: bv16, c4: bv16)
    requires at + 16 <= |e|
    requires c1 == CrcOf(crc, e[at .. at + 4])
    requires c2 == CrcOf(c1, e[at + 4 .. at + 8])
    requires c3 == CrcOf(c2, e[at + 8 .. at + 12])
    requires c4 == CrcOf(c3, e[at + 12 .. at + 16])
    ensures c4 == CrcOf(crc, e[at .. at + 16])
  {
    CrcOfSlices(crc, e, at, at + 4, at + 8);
    CrcOfSlices(crc, e, at, at + 8, at + 12);
    CrcOfSlices(crc, e, at, at + 12, at + 16);
  }

  /** The four floats read from at become the four thresholds. */
  lemma ApplyChannelSlices(d: Channel, e: seq<bv8>, at: nat)
    requires at + 16 <= |e|
    ensures ApplyChannel(d, e[at .. at + 16]) ==
      d.(releasedToApproachedThreshold := Assemble(e[at .. at + 4]),
         approachedToReleasedThreshold := Assemble(e[at + 4 .. at + 8]),
         approachedToPressedThreshold := Assemble(e[at + 8 .. at + 12]),
         pressedToApproachedThreshold := Assemble(e[at + 12 .. at + 16]))
  {
    SliceOfSlice(e, at, at + 16, 0, 4);
    SliceOfSlice(e, at, at + 16, 4, 8);
    SliceOfSlice(e, at, at + 16, 8, 12);
    SliceOfSlice(e, at, at + 16, 12, 16);
  }

  /** What writeSettingsToEeprom has stored after the first n channels. */
  function BodyPrefix(ds: seq<Channel>, n: nat): (b: seq<bv8>)
    requires 0 < |ds| && n <= |ds|
    ensures |b| == 2 + 16 * n
  {
    [Key, Descriptor(|ds|)] + ThresholdBytes(ds[..n])
  }

  /** The key and the descriptor, stored and folded one after the other,
      start the body. */
  lemma WriterHead(e: seq<bv8>, at: nat, ds: seq<Channel>, c1: bv16, c2: bv16)
    requires 0 < |ds| && at + 2 <= |e|
    requires c1 == UpdateByte(0, Key) && c2 == UpdateByte(c1, Descriptor(|ds|))
    ensures e[at := Key][at + 1 := Descriptor(|ds|)] == Overwrite(e, at, BodyPrefix(ds, 0))
    ensures c2 == CrcOf(0, BodyPrefix(ds, 0))
  {
    var x, y := Key, Descriptor(|ds|);
    assert ds[..0] == [];
    assert BodyPrefix(ds, 0) == [x, y];
    OverwriteSnoc(e, at, [], x);
    OverwriteSnoc(e, at, [x], y);
    assert e[..at] + [] + e[at..] == e;
    assert [x] + [y] == [x, y];
    CrcOfSnoc(0, [x], y);
    assert CrcOf(0, [x]) == CrcOf(UpdateByte(0, x), []);
  }

  /** One more channel section extends the body. */
  lemma WriterStep(e: seq<bv8>, at: nat, ds: seq<Channel>, n: nat, crc: bv16)
    requires 0 < |ds| && n < |ds| && at + 2 + 16 * |ds| <= |e|
    ensures Overwrite(Overwrite(e, at, BodyPrefix(ds, n)), at + 2 + 16 * n, ChannelBytes(ds[n])) ==
      Overwrite(e, at, BodyPrefix(ds, n + 1))
    ensures CrcOf(CrcOf(0, BodyPrefix(ds, n)), ChannelBytes(ds[n])) == CrcOf(0, BodyPrefix(ds, n + 1))
  {
    assert ds[..n + 1][..n] == ds[..n];
    assert BodyPrefix(ds, n + 1) == BodyPrefix(ds, n) + ChannelBytes(ds[n]);
    OverwriteAppend(e, at, BodyPrefix(ds, n), ChannelBytes(ds[n]));
    CrcOfAppend(0, BodyPrefix(ds, n), ChannelBytes(ds[n]));
  }

  /** The two CRC bytes after the whole body complete the blob. */
  lemma WriterTail(e: seq<bv8>, at: nat, ds: seq<Channel>, crc: bv16, hi: bv8, lo: bv8)
    requires 0 < |ds| && at + 4 + 16 * |ds| <= |e|
    requires crc == CrcOf(0, BodyPrefix(ds, |ds|))
    requires hi == ((crc >> 8) & 0xFF) as bv8 && lo == (crc & 0xFF) as bv8
    ensures Overwrite(e, at, BodyPrefix(ds, |ds|))[at + 2 + 16 * |ds| := hi][at + 3 + 16 * |ds| := lo] ==
      Overwrite(e, at, WrittenBlob(ds))
  {
    var body := BodyPrefix(ds, |ds|);
    assert ds[..|ds|] == ds;
    CrcHalves(crc);
    OverwriteTwo(e, at, body, hi, lo);
  }

  /** The bytes the writer stores for a CRC are its high and low bytes. */
  lemma CrcHalves(crc: bv16)
    ensures ((crc >> 8) & 0xFF) as bv8 == High(crc) && (crc & 0xFF) as bv8 == Low(crc)
  {
  }

  /** Two more bytes stored after an overwrite extend it. */
  lemma OverwriteTwo(e: seq<bv8>, at: nat, body: seq<bv8>, hi: bv8, lo: bv8)
    requires at + |body| + 2 <= |e|
    ensures Overwrite(e, at, body)[at + |body| := hi][at + |body| + 1 := lo] == Overwrite(e, at, body + [hi, lo])
  {
    var l, r := Overwrite(e, at, body)[at + |body| := hi][at + |body| + 1 := lo], Overwrite(e, at, body + [hi, lo]);
    assert forall m :: 0 <= m < |e| ==> l[m] == r[m];
  }

  /** What writeSettingsToEeprom stores before the CRC. */
  function Body(ds: seq<Channel>): seq<bv8>
    requires 0 < |ds|
  {
    [Key, Descriptor(|ds|)] + ThresholdBytes(ds)
  }

  /** What writeSettingsToEeprom stores. */
  function WrittenBlob(ds: seq<Channel>): (b: seq<bv8>)
    requires 0 < |ds|
    ensures |b| == 16 * |ds| + 4
  {
    var crc := CrcOf(0, Body(ds));
    Body(ds) + [High(crc), Low(crc)]
  }

  /** The space checks both sides make first; an error already set stays. */
  function SpaceError(e: seq<bv8>, offset: nat, nSensors: nat, error: int): int
  {
    if offset + SizeRequired(nSensors) > |e| then -28
    else if !FitsDescriptor(nSensors) then -28
    else error
  }

  /** writeSettingsToEeprom (TouchLib.h:726-767): the new EEPROM contents
      and error. */
  function WriteSpec(e: seq<bv8>, offset: nat, ds: seq<Channel>, error: int): (seq<bv8>, int)
    requires 0 < |ds|
  {
    var err := SpaceError(e, offset, |ds|, error);
    if err != 0 then (e, err)
    else if e[offset] != Key && e[offset] != Erased then (e, -5)
    else (Overwrite(e, offset, WrittenBlob(ds)), 0)
  }

  /** The writer succeeds exactly when no error was pending, the blob fits
      and the first cell holds the key or is erased; then it stores the
      blob, one byte short of the reserved size, and nothing else; on every
      error the contents are unchanged. */
  lemma WriteEffect(e: seq<bv8>, offset: nat, ds: seq<Channel>, error: int)
    requires 0 < |ds|
    ensures var (e', err) := WriteSpec(e, offset, ds, error);
      && |e'| == |e|
      && (err == 0 <==> error == 0 && FitsDescriptor(|ds|) && offset + SizeRequired(|ds|) <= |e| &&
                        (e[offset] == Key || e[offset] == Erased))
      && (err != 0 ==> e' == e && (err == error || err == -28 || err == -5))
      && (err == 0 ==>
            && e'[offset .. offset + |WrittenBlob(ds)|] == WrittenBlob(ds)
            && e'[..offset] == e[..offset]
            && e'[offset + SizeRequired(|ds|) - 1..] == e[offset + SizeRequired(|ds|) - 1..])
  {
    var (e', err) := WriteSpec(e, offset, ds, error);
    if err == 0 {
      var b := WrittenBlob(ds);
      assert e' == e[..offset] + b + e[offset + |b|..];
      assert e'[offset .. offset + |b|] == b;
    }
  }

  /** The blob's fields: key, descriptor, the thresholds of channel i at
      2 + 16 * i, and the CRC of everything before it, high byte first. */
  lemma BlobLayout(ds: seq<Channel>, i: nat, j: nat)
    requires 0 < |ds| && i < |ds| && j < 4
    ensures var b := WrittenBlob(ds);
      && b[0] == Key
      && b[1] == Descriptor(|ds|)
      && b[2 + 16 * i + 4 * j .. 2 + 16 * i + 4 * j + 4] == FloatBytes(Threshold(ds[i], j))
      && b[16 * |ds| + 2] == High(CrcOf(0, b[..16 * |ds| + 2]))
      && b[16 * |ds| + 3] == Low(CrcOf(0, b[..16 * |ds| + 2]))
  {
    var b := WrittenBlob(ds);
    ThresholdBytesAt(ds, i, j);
    assert b[..16 * |ds| + 2] == Body(ds);
    assert b[2 + 16 * i + 4 * j .. 2 + 16 * i + 4 * j + 4] ==
      ThresholdBytes(ds)[16 * i + 4 * j .. 16 * i + 4 * j + 4];
  }

  // ---- The reader as written ----

  /** The stored CRC: high byte, then low byte. */
  function StoredCrc(hi: bv8, lo: bv8): bv16
  {
    ((hi as bv16) << 8) | (lo as bv16)
  }

  /** The format version and channel count a descriptor announces. */
  function Version(desc: bv8): bv8 { (desc >> 5) & 0x7 }
  function CountOf(desc: bv8): nat { (desc & 0x1F) as int + 1 }

  /** The CRC the reader has after the header, as written: key,
      descriptor, then the descriptor again in place of the configuration
      byte. */
  function HeadCrc(e: seq<bv8>, offset: nat): bv16
    requires offset + 2 <= |e|
  {
    UpdateByte(UpdateByte(UpdateByte(0, e[offset]), e[offset + 1]), e[offset + 1])
  }

  /** The CRC the reader computes before comparing: the header, then the
      threshold section from offset + 3. */
  function ReaderCrc(e: seq<bv8>, offset: nat, nSensors: nat): bv16
    requires offset + SizeRequired(nSensors) <= |e|
  {
    CrcOf(HeadCrc(e, offset), e[offset + 3 .. offset + 3 + 16 * nSensors])
  }

  /** The header checks: key, format version and channel count. */
  predicate HeaderAccepts(e: seq<bv8>, offset: nat, nSensors: nat)
    requires offset + 2 <= |e|
  {
    && e[offset] == Key
    && Version(e[offset + 1]) == 0
    && CountOf(e[offset + 1]) == nSensors
  }

  /** The CRC check: the computed CRC equals the one stored after the
      threshold section. */
  predicate CrcMatches(e: seq<bv8>, offset: nat, nSensors: nat)
    requires offset + SizeRequired(nSensors) <= |e|
  {
    var n := 16 * nSensors;
    ReaderCrc(e, offset, nSensors) == StoredCrc(e[offset + 3 + n], e[offset + 4 + n])
  }

  /** Everything the reader checks. */
  predicate ReaderAccepts(e: seq<bv8>, offset: nat, nSensors: nat)
    requires offset + SizeRequired(nSensors) <= |e|
  {
    HeaderAccepts(e, offset, nSensors) && CrcMatches(e, offset, nSensors)
  }

  /** readSettingsFromEeprom (TouchLib.h:769-854): the channels and the
      error afterwards.  Each failed check sets -5 and applies nothing. */
  function ReadSpec(e: seq<bv8>, offset: nat, ds: seq<Channel>, error: int): (r: (seq<Channel>, int))
    requires 0 < |ds|
    ensures |r.0| == |ds|
  {
    var err := SpaceError(e, offset, |ds|, error);
    if err != 0 then (ds, err)
    else if !ReaderAccepts(e, offset, |ds|) then (ds, -5)
    else (ReadApply(e, offset, ds), 0)
  }

  /** What a read that passes its checks does: the section after the
      configuration byte and that byte's slew-rate bit. */
  function ReadApply(e: seq<bv8>, offset: nat, ds: seq<Channel>): (r: seq<Channel>)
    requires offset + 3 + 16 * |ds| <= |e|
    ensures |r| == |ds|
  {
    ApplyAll(ds, e[offset + 3 .. offset + 3 + 16 * |ds|], e[offset + 2] & SlewBit != 0)
  }

  /** ReadApply is ApplyAll of the section after the configuration byte
      and that byte's flag. */
  lemma ReadApplyIs(e: seq<bv8>, offset: nat, ds: seq<Channel>, b: seq<bv8>, slew: bool)
    requires offset + 3 + 16 * |ds| <= |e|
    requires b == e[offset + 3 .. offset + 3 + 16 * |ds|] && slew == (e[offset + 2] & SlewBit != 0)
    ensures ReadApply(e, offset, ds) == ApplyAll(ds, b, slew)
  {
  }

  /** The reader succeeds exactly when no error was pending, the blob fits
      and every check passes; on every error no channel changes, so no
      threshold and no slew-rate flag. */
  lemma ReadOutcome(e: seq<bv8>, offset: nat, ds: seq<Channel>, error: int)
    requires 0 < |ds|
    ensures var (r, err) := ReadSpec(e, offset, ds, error);
      && (err == 0 <==> error == 0 && FitsDescriptor(|ds|) && offset + SizeRequired(|ds|) <= |e| &&
                        ReaderAccepts(e, offset, |ds|))
      && (err != 0 ==> r == ds && (err == error || err == -28 || err == -5))
  {
  }

  /** A successful read applies the section after the configuration byte
      and that byte's slew-rate bit. */
  lemma ReadSuccess(e: seq<bv8>, offset: nat, ds: seq<Channel>, error: int)
    requires 0 < |ds| && ReadSpec(e, offset, ds, error).1 == 0
    ensures offset + SizeRequired(|ds|) <= |e|
    ensures ReadSpec(e, offset, ds, error).0 == ReadApply(e, offset, ds)
  {
  }

  /** On success channel i takes the thresholds at offset + 3 + 16 * i and
      every channel the flag of bit 0x80 of the byte at offset + 2;
      nothing else about the channel changes. */
  lemma ReadAppliesChannel(e: seq<bv8>, offset: nat, ds: seq<Channel>, error: int, i: nat)
    requires 0 < |ds| && i < |ds| && ReadSpec(e, offset, ds, error).1 == 0
    ensures offset + 3 + 16 * i + 16 <= |e|
    ensures var at := offset + 3 + 16 * i;
      ReadSpec(e, offset, ds, error).0[i] ==
        Applied(ds[i], e[at .. at + 16], e[offset + 2] & SlewBit != 0)
  {
    ReadSuccess(e, offset, ds, error);
    ReadApplyAt(e, offset, ds, i);
  }

  /** Channel i of a read that passes its checks. */
  lemma ReadApplyAt(e: seq<bv8>, offset: nat, ds: seq<Channel>, i: nat)
    requires i < |ds| && offset + 3 + 16 * |ds| <= |e|
    ensures offset + 3 + 16 * i + 16 <= |e|
    ensures var at := offset + 3 + 16 * i;
      ReadApply(e, offset, ds)[i] == Applied(ds[i], e[at .. at + 16], e[offset + 2] & SlewBit != 0)
  {
    var s := e[offset + 3 .. offset + 3 + 16 * |ds|];
    ApplyAllAt(ds, s, e[offset + 2] & SlewBit != 0, i);
    SliceOfSlice(e, offset + 3, offset + 3 + 16 * |ds|, 16 * i, 16 * i + 16);
  }

  /** The channels once the applying pass has done channels 0 to n - 1. */
  function AppliedUpTo(ds: seq<Channel>, b: seq<bv8>, n: nat): (r: seq<Channel>)
    requires |b| == 16 * |ds| && n <= |ds|
    ensures |r| == |ds|
  {
    seq(|ds|, i requires 0 <= i < |ds| =>
      if i < n then ApplyChannel(ds[i], b[16 * i .. 16 * i + 16]) else ds[i])
  }

  lemma AppliedUpToNone(ds: seq<Channel>, b: seq<bv8>)
    requires |b| == 16 * |ds|
    ensures AppliedUpTo(ds, b, 0) == ds
  {
  }

  lemma AppliedUpToStep(ds: seq<Channel>, b: seq<bv8>, n: nat)
    requires |b| == 16 * |ds| && n < |ds|
    ensures AppliedUpTo(ds, b, n)[n] == ds[n]
    ensures AppliedUpTo(ds, b, n)[n := ApplyChannel(ds[n], b[16 * n .. 16 * n + 16])] ==
      AppliedUpTo(ds, b, n + 1)
  {
  }

  /** The channels once the configuration loop has set the flag of
      channels 0 to n - 1. */
  function SlewUpTo(cs: seq<Channel>, slew: bool, n: nat): (r: seq<Channel>)
    requires n <= |cs|
    ensures |r| == |cs|
  {
    seq(|cs|, i requires 0 <= i < |cs| =>
      if i < n then cs[i].(enableSlewrateLimiter := slew) else cs[i])
  }

  lemma SlewUpToNone(cs: seq<Channel>, slew: bool)
    ensures SlewUpTo(cs, slew, 0) == cs
  {
  }

  lemma SlewUpToStep(cs: seq<Channel>, slew: bool, n: nat)
    requires n < |cs|
    ensures SlewUpTo(cs, slew, n)[n] == cs[n]
    ensures SlewUpTo(cs, slew, n)[n := cs[n].(enableSlewrateLimiter := slew)] == SlewUpTo(cs, slew, n + 1)
  {
  }

  /** Both passes over every channel give what ApplyAll describes. */
  lemma BothPasses(ds: seq<Channel>, b: seq<bv8>, slew: bool, mid: seq<Channel>, r: seq<Channel>)
    requires |b| == 16 * |ds| && mid == AppliedUpTo(ds, b, |ds|) && r == SlewUpTo(mid, slew, |ds|)
    ensures r == ApplyAll(ds, b, slew)
  {
  }

  /** The four thresholds and the flag a 16-byte section gives a channel. */
  lemma AppliedFields(d: Channel, e: seq<bv8>, at: nat, flag: bool)
    requires at + 16 <= |e|
    ensures var c := Applied(d, e[at .. at + 16], flag);
      && c.releasedToApproachedThreshold == Assemble(e[at .. at + 4])
      && c.approachedToReleasedThreshold == Assemble(e[at + 4 .. at + 8])
      && c.approachedToPressedThreshold == Assemble(e[at + 8 .. at + 12])
      && c.pressedToApproachedThreshold == Assemble(e[at + 12 .. at + 16])
      && c.enableSlewrateLimiter == flag
  {
    var b := e[at .. at + 16];
    var c := Applied(d, b, flag);
    assert c.releasedToApproachedThreshold == Assemble(b[0..4]);
    assert c.approachedToReleasedThreshold == Assemble(b[4..8]);
    assert c.approachedToPressedThreshold == Assemble(b[8..12]);
    assert c.pressedToApproachedThreshold == Assemble(b[12..16]);
    SliceOfSlice(e, at, at + 16, 0, 4);
    SliceOfSlice(e, at, at + 16, 4, 8);
    SliceOfSlice(e, at, at + 16, 8, 12);
    SliceOfSlice(e, at, at + 16, 12, 16);
  }

  /** The first threshold and the flag, the ones a shifted blob spoils. */
  lemma AppliedFirst(d: Channel, e: seq<bv8>, at: nat, flag: bool)
    requires at + 16 <= |e|
    ensures Applied(d, e[at .. at + 16], flag).releasedToApproachedThreshold == Assemble(e[at .. at + 4])
    ensures Applied(d, e[at .. at + 16], flag).enableSlewrateLimiter == flag
  {
    SliceOfSlice(e, at, at + 16, 0, 4);
  }

  // ---- Writer and reader together ----

  /** The writer stores no configuration byte, so the reader, which
      expects one, reads every blob the writer stores one byte off: with
      the default thresholds 50.0 and 40.0 on channel 0 a successful read
      gives channel 0 the pattern 0x48000042 instead of 50.0 (0x42480000),
      and takes the slew-rate flag from the top bit of the first threshold
      byte, which is clear. */
  lemma WriteThenReadShifted(e: seq<bv8>, offset: nat, ds: seq<Channel>)
    requires 0 < |ds| && WriteSpec(e, offset, ds, 0).1 == 0
    requires ds[0].releasedToApproachedThreshold == 0x4248_0000
    requires ds[0].approachedToReleasedThreshold == 0x4220_0000
    ensures var r := ReadSpec(WriteSpec(e, offset, ds, 0).0, offset, ds, 0);
      r.1 != 0 ||
      (r.0[0].releasedToApproachedThreshold == 0x4800_0042 &&
       r.0[0].releasedToApproachedThreshold != ds[0].releasedToApproachedThreshold &&
       !r.0[0].enableSlewrateLimiter)
  {
    var e' := WriteSpec(e, offset, ds, 0).0;
    var r := ReadSpec(e', offset, ds, 0);
    if r.1 == 0 {
      StoredHead(e, offset, ds);
      ReadAppliesChannel(e', offset, ds, 0, 0);
      var flag := e'[offset + 2] & SlewBit != 0;
      assert r.0[0] == Applied(ds[0], e'[offset + 3 .. offset + 3 + 16], flag);
      AppliedFirst(ds[0], e', offset + 3, flag);
      ShiftedPattern();
    }
  }

  /** Where the reader looks, the writer has stored the first byte of
      threshold 50.0 and then its last three bytes and the first byte of
      40.0. */
  lemma StoredHead(e: seq<bv8>, offset: nat, ds: seq<Channel>)
    requires 0 < |ds| && WriteSpec(e, offset, ds, 0).1 == 0
    requires ds[0].releasedToApproachedThreshold == 0x4248_0000
    requires ds[0].approachedToReleasedThreshold == 0x4220_0000
    ensures var e' := WriteSpec(e, offset, ds, 0).0;
      && offset + SizeRequired(|ds|) <= |e'|
      && e'[offset + 2] == 0x42
      && e'[offset + 3 .. offset + 7] == [0x48, 0x00, 0x00, 0x42]
  {
    var e' := WriteSpec(e, offset, ds, 0).0;
    WriteEffect(e, offset, ds, 0);
    var blob := WrittenBlob(ds);
    DefaultHead(ds);
    InSlice(e', offset, blob, 2);
    InSlice(e', offset, blob, 3);
    InSlice(e', offset, blob, 4);
    InSlice(e', offset, blob, 5);
    InSlice(e', offset, blob, 6);
  }

  /** A byte inside a stored slice. */
  lemma InSlice(e: seq<bv8>, at: nat, b: seq<bv8>, k: nat)
    requires at + |b| <= |e| && e[at .. at + |b|] == b && k < |b|
    ensures e[at + k] == b[k]
  {
    assert e[at .. at + |b|][k] == e[at + k];
  }

  /** Bytes 2 to 9 of the blob when channel 0 holds 50.0 and 40.0. */
  lemma DefaultHead(ds: seq<Channel>)
    requires 0 < |ds|
    requires ds[0].releasedToApproachedThreshold == 0x4248_0000
    requires ds[0].approachedToReleasedThreshold == 0x4220_0000
    ensures WrittenBlob(ds)[2..10] == [0x42, 0x48, 0x00, 0x00, 0x42, 0x20, 0x00, 0x00]
  {
    BlobLayout(ds, 0, 0);
    BlobLayout(ds, 0, 1);
    assert FloatBytes(0x4248_0000) == [0x42, 0x48, 0x00, 0x00];
    assert FloatBytes(0x4220_0000) == [0x42, 0x20, 0x00, 0x00];
    var b := WrittenBlob(ds);
    assert b[2..10] == b[2..6] + b[6..10];
  }

  /** The four bytes the reader takes for channel 0's first threshold. */
  lemma ShiftedPattern()
    ensures Assemble([0x48, 0x00, 0x00, 0x42]) == 0x4800_0042
  {
  }

  // ---- The layout both sides evidently intend ----

  /** The configuration byte: bit 0x80 is the slew-rate limiter. */
  function Config(slew: bool): bv8
  {
    if slew then SlewBit else 0
  }

  /** Key, descriptor, configuration byte (from channel 0) and thresholds. */
  function FixedBody(ds: seq<Channel>): (b: seq<bv8>)
    requires 0 < |ds|
    ensures |b| == 16 * |ds| + 3
  {
    [Key, Descriptor(|ds|), Config(ds[0].enableSlewrateLimiter)] + ThresholdBytes(ds)
  }

  /** The blob with its CRC: exactly the reserved size. */
  function FixedBlob(ds: seq<Channel>): (b: seq<bv8>)
    requires 0 < |ds|
    ensures |b| == SizeRequired(|ds|)
  {
    var crc := CrcOf(0, FixedBody(ds));
    FixedBody(ds) + [High(crc), Low(crc)]
  }

  /** The writer storing the configuration byte. */
  function FixedWrite(e: seq<bv8>, offset: nat, ds: seq<Channel>, error: int): (seq<bv8>, int)
    requires 0 < |ds|
  {
    var err := SpaceError(e, offset, |ds|, error);
    if err != 0 then (e, err)
    else if e[offset] != Key && e[offset] != Erased then (e, -5)
    else (Overwrite(e, offset, FixedBlob(ds)), 0)
  }

  /** The reader folding the configuration byte, not the descriptor again. */
  predicate FixedAccepts(e: seq<bv8>, offset: nat, nSensors: nat)
    requires offset + SizeRequired(nSensors) <= |e|
  {
    var n := 16 * nSensors;
    && e[offset] == Key
    && Version(e[offset + 1]) == 0
    && CountOf(e[offset + 1]) == nSensors
    && CrcOf(0, e[offset .. offset + 3 + n]) == StoredCrc(e[offset + 3 + n], e[offset + 4 + n])
  }

  function FixedRead(e: seq<bv8>, offset: nat, ds: seq<Channel>, error: int): (r: (seq<Channel>, int))
    requires 0 < |ds|
    ensures |r.0| == |ds|
  {
    var err := SpaceError(e, offset, |ds|, error);
    if err != 0 then (ds, err)
    else if !FixedAccepts(e, offset, |ds|) then (ds, -5)
    else (ReadApply(e, offset, ds), 0)
  }

  /** The descriptor announces version 0 and the channel count. */
  lemma DescriptorFields(nSensors: nat)
    requires FitsDescriptor(nSensors)
    ensures Version(Descriptor(nSensors)) == 0 && CountOf(Descriptor(nSensors)) == nSensors
  {
  }

  /** The two CRC bytes put back together. */
  lemma CrcBytes(crc: bv16)
    ensures StoredCrc(High(crc), Low(crc)) == crc
  {
  }

  /** The configuration byte gives back the flag. */
  lemma ConfigBit(slew: bool)
    ensures (Config(slew) & SlewBit != 0) == slew
  {
  }

  /** Applying a channel set's own sections and a flag all channels share
      gives the channel set back. */
  lemma ApplyAllOwn(ds: seq<Channel>, slew: bool)
    requires forall i :: 0 <= i < |ds| ==> ds[i].enableSlewrateLimiter == slew
    ensures ApplyAll(ds, ThresholdBytes(ds), slew) == ds
  {
    forall i | 0 <= i < |ds|
      ensures ApplyAll(ds, ThresholdBytes(ds), slew)[i] == ds[i]
    {
      ApplyOwnAt(ds, slew, i);
    }
  }

  lemma ApplyOwnAt(ds: seq<Channel>, slew: bool, i: nat)
    requires i < |ds| && ds[i].enableSlewrateLimiter == slew
    ensures ApplyAll(ds, ThresholdBytes(ds), slew)[i] == ds[i]
  {
    var b := ThresholdBytes(ds);
    ApplyAllAt(ds, b, slew, i);
    ApplyOwnBytes(ds, i);
    assert Applied(ds[i], b[16 * i .. 16 * i + 16], slew) == ds[i].(enableSlewrateLimiter := slew);
  }

  /** Channel i of the applying pass. */
  lemma ApplyAllAt(ds: seq<Channel>, b: seq<bv8>, slew: bool, i: nat)
    requires i < |ds| && |b| == 16 * |ds|
    ensures ApplyAll(ds, b, slew)[i] == Applied(ds[i], b[16 * i .. 16 * i + 16], slew)
  {
  }

  /** With the configuration byte written and folded on both sides, a
      successful write is read back exactly: every threshold and the
      slew-rate flag (shared by all channels) are restored. */
  lemma FixedRoundTrip(e: seq<bv8>, offset: nat, ds: seq<Channel>)
    requires 0 < |ds| && FixedWrite(e, offset, ds, 0).1 == 0
    requires forall i :: 0 <= i < |ds| ==> ds[i].enableSlewrateLimiter == ds[0].enableSlewrateLimiter
    ensures FixedRead(FixedWrite(e, offset, ds, 0).0, offset, ds, 0) == (ds, 0)
  {
    var e' := FixedWrite(e, offset, ds, 0).0;
    var body := FixedBody(ds);
    FixedWriteStores(e, offset, ds, e', body);
    FixedReadBack(e, offset, ds, body, e');
  }

  /** The fixed reader accepts the fixed blob and restores the channels. */
  lemma FixedReadBack(e: seq<bv8>, offset: nat, ds: seq<Channel>, body: seq<bv8>, e': seq<bv8>)
    requires 0 < |ds| && offset + SizeRequired(|ds|) <= |e| && FitsDescriptor(|ds|)
    requires forall i :: 0 <= i < |ds| ==> ds[i].enableSlewrateLimiter == ds[0].enableSlewrateLimiter
    requires body == FixedBody(ds)
    requires e' == Overwrite(e, offset, body + [High(CrcOf(0, body)), Low(CrcOf(0, body))])
    ensures FixedRead(e', offset, ds, 0) == (ds, 0)
  {
    var slew := ds[0].enableSlewrateLimiter;
    var crc := CrcOf(0, body);
    FixedWriteLayout(e, offset, ds, body, crc, e');
    FramedLayout(e, offset, body, crc, e');
    DescriptorFields(|ds|);
    assert FixedAccepts(e', offset, |ds|);
    ConfigBit(slew);
    ApplyAllOwn(ds, slew);
    assert ReadApply(e', offset, ds) == ApplyAll(ds, ThresholdBytes(ds), slew);
  }

  /** Where a successful fixed write puts the key, the descriptor, the
      configuration byte and the thresholds. */
  lemma FixedWriteLayout(e: seq<bv8>, offset: nat, ds: seq<Channel>, body: seq<bv8>, crc: bv16, e': seq<bv8>)
    requires 0 < |ds| && offset + SizeRequired(|ds|) <= |e|
    requires body == FixedBody(ds)
    requires e' == Overwrite(e, offset, body + [High(crc), Low(crc)])
    ensures var n := 16 * |ds|;
      && |e'| == |e| && e'[offset .. offset + 3 + n] == body
      && e'[offset] == Key && e'[offset + 1] == Descriptor(|ds|)
      && e'[offset + 2] == Config(ds[0].enableSlewrateLimiter)
      && e'[offset + 3 .. offset + 3 + n] == ThresholdBytes(ds)
  {
    var t := ThresholdBytes(ds);
    var end := offset + 3 + 16 * |ds|;
    OverwriteLayout(e, offset, body, High(crc), Low(crc), e', end, end + 1);
    BodyFields(e', offset, body, Key, Descriptor(|ds|), Config(ds[0].enableSlewrateLimiter), t, end);
  }

  /** A successful fixed write overwrites the blob at the offset. */
  lemma FixedWriteStores(e: seq<bv8>, offset: nat, ds: seq<Channel>, e': seq<bv8>, body: seq<bv8>)
    requires 0 < |ds| && FixedWrite(e, offset, ds, 0).1 == 0 && e' == FixedWrite(e, offset, ds, 0).0
    requires body == FixedBody(ds)
    ensures offset + SizeRequired(|ds|) <= |e| && FitsDescriptor(|ds|)
    ensures e' == Overwrite(e, offset, body + [High(CrcOf(0, body)), Low(CrcOf(0, body))])
  {
  }

  /** A body stored with its CRC behind it: the body is in place and
      passes the check. */
  lemma FramedLayout(e: seq<bv8>, at: nat, body: seq<bv8>, crc: bv16, e': seq<bv8>)
    requires at + |body| + 2 <= |e| && crc == CrcOf(0, body)
    requires e' == Overwrite(e, at, body + [High(crc), Low(crc)])
    ensures |e'| == |e| && e'[at .. at + |body|] == body
    ensures CrcOf(0, e'[at .. at + |body|]) == StoredCrc(e'[at + |body|], e'[at + |body| + 1])
  {
    var end := at + |body|;
    OverwriteLayout(e, at, body, High(crc), Low(crc), e', end, end + 1);
    StoredCrcMatches(e', at, end, body, crc);
  }

  /** A blob of a body and two CRC bytes, overwritten at position at;
      the body ends at position end. */
  lemma OverwriteLayout(e: seq<bv8>, at: nat, body: seq<bv8>, hi: bv8, lo: bv8, e': seq<bv8>, end: nat, next: nat)
    requires at + |body| + 2 <= |e| && e' == Overwrite(e, at, body + [hi, lo])
    requires end == at + |body| && next == end + 1
    ensures |e'| == |e| && e'[at .. end] == body
    ensures e'[end] == hi && e'[next] == lo
  {
    var blob := body + [hi, lo];
    assert e'[at .. end] == blob[..|body|];
    assert blob[..|body|] == body;
  }

  /** A body followed by its CRC, high byte first, passes the check. */
  lemma StoredCrcMatches(e: seq<bv8>, at: nat, end: nat, body: seq<bv8>, crc: bv16)
    requires at <= end && end + 2 <= |e| && e[at .. end] == body && crc == CrcOf(0, body)
    requires e[end] == High(crc) && e[end + 1] == Low(crc)
    ensures CrcOf(0, e[at .. end]) == StoredCrc(e[end], e[end + 1])
  {
    CrcBytes(crc);
  }

  /** The first three bytes of a stored body and the bytes after them. */
  lemma BodyFields(e: seq<bv8>, at: nat, body: seq<bv8>, a: bv8, b: bv8, c: bv8, t: seq<bv8>, end: nat)
    requires body == [a, b, c] + t && end == at + |body| && end <= |e| && e[at .. end] == body
    ensures e[at] == a && e[at + 1] == b && e[at + 2] == c
    ensures e[at + 3 .. end] == t
  {
    assert e[at] == body[0] && e[at + 1] == body[1] && e[at + 2] == body[2];
    assert e[at + 3 .. end] == body[3..];
    assert body[3..] == t;
  }

}
