/** The sensor object TLSensors (TouchLib.h:226-327 and its methods), as a
    class whose fields the methods update in place: the channel array, the
    scan order, the two global flags, the pending error and the EEPROM it
    reads its settings from.  Each method is proved against the functions
    of ScanSpec, StateSpec, CycleSpec and SettingsSpec. */
module TouchLib {
  import opened Crc16
  import opened Binary32
  import opened Channel
  import opened Packing
  import opened ScanSpec
  import opened StateSpec
  import opened CycleSpec
  import opened SettingsSpec

  class Sensors {
    /** N_SENSORS and N_MEASUREMENTS_PER_SENSOR. */
    const nSensors: nat
    const nMeasurementsPerSensor: nat
    /** The channel records, data[N_SENSORS]. */
    const data: array<Channel>
    /** The scan order, N_SENSORS * N_MEASUREMENTS_PER_SENSOR slots. */
    const scanOrder: array<u8>
    /** The EEPROM cells, E2END + 1 of them. */
    var eeprom: seq<bv8>

    var error: int
    var anyButtonIsApproached: bool
    var anyButtonIsPressed: bool
    var enableReadSettingsFromEeprom: bool
    var eepromOffset: nat
    /** The calls of the state-change callback, in order. */
    ghost var events: seq<Event>

    /** The shape every method relies on: at least two and at most fifteen
        channels (setState tests mask bits with a 16-bit 1 << n), one to
        255 measurements per channel, and three separate arrays of those
        sizes. */
    ghost predicate Valid()
      reads this
    {
      && 2 <= nSensors <= 15
      && 1 <= nMeasurementsPerSensor < 256
      && data.Length == nSensors
      && scanOrder.Length == nSensors * nMeasurementsPerSensor
      && data as object != scanOrder
    }

    /** The shape setDefaults relies on: Valid() except that it copes with
        fewer than two channels itself. */
    ghost predicate Shaped()
      reads this
    {
      && nSensors <= 15
      && 1 <= nMeasurementsPerSensor < 256
      && data.Length == nSensors
      && scanOrder.Length == nSensors * nMeasurementsPerSensor
      && data as object != scanOrder
    }

    /** setDefaults (TouchLib.h:449-560), with eepromPresent for the
        compile-time choice of TL_ENABLE_READ_SETTINGS_FROM_EEPROM_DEFAULT
        and offsets for the draws initScanOrder makes: fewer than two
        channels is error -1 and changes nothing else; otherwise the global
        flags are cleared, the scan order is built afresh (the custom scan
        order is off by default), the EEPROM offset is 0 and every channel
        takes the default configuration. */
    method SetDefaults(eepromPresent: bool, offsets: seq<seq<nat>>) returns (err: int)
      requires Shaped()
      requires 2 <= nSensors ==> |offsets| == nMeasurementsPerSensor && ValidOffsets(offsets, nSensors, scanOrder.Length)
      modifies data, scanOrder, this`error, this`anyButtonIsApproached, this`anyButtonIsPressed
      modifies this`enableReadSettingsFromEeprom, this`eepromOffset
      ensures err == error
      ensures nSensors < 2 ==>
        && err == -1
        && data[..] == old(data[..]) && scanOrder[..] == old(scanOrder[..])
        && anyButtonIsApproached == old(anyButtonIsApproached) && anyButtonIsPressed == old(anyButtonIsPressed)
        && enableReadSettingsFromEeprom == old(enableReadSettingsFromEeprom) && eepromOffset == old(eepromOffset)
      ensures 2 <= nSensors ==>
        && err == 0
        && !anyButtonIsApproached && !anyButtonIsPressed
        && scanOrder[..] == BuildRounds(Cleared(scanOrder.Length), nSensors, offsets, nMeasurementsPerSensor)
        && enableReadSettingsFromEeprom == eepromPresent && eepromOffset == 0
        && data[..] == DefaultAll(old(data[..]))
    {
      error := 0;
      if nSensors < 2 {
        error := -1;
      } else {
        anyButtonIsApproached := false;
        anyButtonIsPressed := false;
        InitScanOrder(offsets);
        enableReadSettingsFromEeprom := eepromPresent;
        eepromOffset := 0;
        DefaultChannels();
      }
      err := error;
    }

    /** The channel loop of setDefaults: every channel takes the default
        configuration. */
    method DefaultChannels()
      requires Shaped()
      modifies data
      ensures data[..] == DefaultAll(old(data[..]))
    {
      ghost var ds := data[..];
      var n := 0;
      while n < nSensors
        invariant 0 <= n <= nSensors
        invariant forall i :: 0 <= i < n ==> data[i] == Defaulted(ds[i])
        invariant forall i :: n <= i < nSensors ==> data[i] == ds[i]
      {
        data[n] := Defaulted(data[n]);
        n := n + 1;
      }
      assert data[..] == DefaultAll(ds);
    }

    // ---- Scan order (TouchLib.h:401-447) ----

    /** addChannel(ch), with r the offset random(0, length) draws: scan
        the table cyclically from r and put ch in the first free slot;
        the error is 0 when a slot was found and -1 otherwise. */
    method AddChannel(ch: u8, r: nat) returns (err: int)
      requires Valid() && r < scanOrder.Length
      modifies scanOrder, this`error
      ensures (scanOrder[..], err) == AddChannelSpec(old(scanOrder[..]), ch, r)
      ensures error == err
    {
      ghost var s := scanOrder[..];
      var length := scanOrder.Length;
      err := -1;
      var n := 0;
      while n < length
        invariant 0 <= n <= length
        invariant scanOrder[..] == s
        invariant FirstFreeStep(s, r, n) == FirstFreeStep(s, r, 0)
      {
        var pos := (n + r) % length;
        PosIsMod(length, r, n);
        if scanOrder[pos] == Free {
          scanOrder[pos] := ch;
          err := 0;
          break;
        }
        n := n + 1;
      }
      error := err;
    }

    /** The first loop of initScanOrder: every slot free. */
    method ClearScanOrder()
      requires Valid()
      modifies scanOrder
      ensures scanOrder[..] == Cleared(scanOrder.Length)
    {
      var pos := 0;
      while pos < scanOrder.Length
        invariant 0 <= pos <= scanOrder.Length
        invariant forall j :: 0 <= j < pos ==> scanOrder[j] == Free
      {
        scanOrder[pos] := Free;
        pos := pos + 1;
      }
    }

    /** One round of initScanOrder: addChannel(n) for n = 0 .. nSensors-1,
        the n-th with offset offs[n]; the error is that of the last
        addition. */
    method AddRound(offs: seq<nat>)
      requires Valid() && |offs| == nSensors
      requires forall i :: 0 <= i < |offs| ==> offs[i] < scanOrder.Length
      modifies scanOrder, this`error
      ensures scanOrder[..] == BuildRound(old(scanOrder[..]), offs, nSensors)
      ensures error == RoundError(old(scanOrder[..]), offs, nSensors)
    {
      ghost var s := scanOrder[..];
      var n := 0;
      while n < nSensors
        invariant 0 <= n <= nSensors
        invariant scanOrder[..] == BuildRound(s, offs, n)
        invariant 0 < n ==> error == RoundError(s, offs, n)
      {
        var _ := AddChannel(n as u8, offs[n]);
        n := n + 1;
      }
    }

    /** initScanOrder, with offsets[k][n] the offset drawn for channel n
        in round k (the generator is reseeded with a fixed seed, so every
        call draws the same offsets): afterwards each channel occupies
        exactly nMeasurementsPerSensor slots, no slot is free and the
        error is 0. */
    method InitScanOrder(offsets: seq<seq<nat>>)
      requires Valid() && |offsets| == nMeasurementsPerSensor
      requires ValidOffsets(offsets, nSensors, scanOrder.Length)
      modifies scanOrder, this`error
      ensures scanOrder[..] == BuildRounds(Cleared(scanOrder.Length), nSensors, offsets, nMeasurementsPerSensor)
      ensures Free !in scanOrder[..]
      ensures forall c: u8 :: c < nSensors ==> multiset(scanOrder[..])[c] == nMeasurementsPerSensor
      ensures forall c: u8 :: c >= nSensors ==> c !in scanOrder[..]
      ensures error == 0
    {
      ClearScanOrder();
      ghost var s := scanOrder[..];
      var k := 0;
      while k < nMeasurementsPerSensor
        invariant 0 <= k <= nMeasurementsPerSensor
        invariant scanOrder[..] == BuildRounds(s, nSensors, offsets, k)
        invariant 0 < k ==> error == RoundError(BuildRounds(s, nSensors, offsets, k - 1), offsets[k - 1], nSensors)
      {
        AddRound(offsets[k]);
        k := k + 1;
      }
      assert scanOrder.Length == nMeasurementsPerSensor * nSensors;
      ScanOrderComplete(nSensors, nMeasurementsPerSensor, offsets);
    }

    // ---- EEPROM access (TouchLib.h:602-718) ----

    /** EEPROM_update: a cell is written only when it differs. */
    method EepromUpdate(addr: nat, b: bv8)
      requires addr < |eeprom|
      modifies this`eeprom
      ensures eeprom == old(eeprom)[addr := b]
      ensures old(eeprom[addr]) == b ==> eeprom == old(eeprom)
    {
      if eeprom[addr] != b {
        eeprom := eeprom[addr := b];
      }
    }

    /** writeFloatToEeprom: the four bytes of the pattern, most significant
        first, each folded into the CRC. */
    method WriteFloat(f: bv32, addr: nat, crc: bv16) returns (next: nat, crc': bv16)
      requires addr + 4 <= |eeprom|
      modifies this`eeprom
      ensures eeprom == Overwrite(old(eeprom), addr, FloatBytes(f))
      ensures next == addr + 4 && crc' == CrcOf(crc, FloatBytes(f))
    {
      ghost var e := eeprom;
      ghost var b := FloatBytes(f);
      ghost var j := 0;
      var k := 4;
      next, crc' := addr, crc;
      assert b[..0] == [];
      while k > 0
        invariant 0 <= k <= 4 && j == 4 - k && next == addr + j
        invariant eeprom == Overwrite(e, addr, b[..j])
        invariant crc' == CrcOf(crc, b[..j])
      {
        var tmp := Byte(f, k - 1);
        FloatBytesAt(f, j, k - 1);
        FoldStep(crc, b, j);
        StoreStep(e, addr, b, j);
        crc' := CrcUpdate(crc', tmp);
        EepromUpdate(next, tmp);
        next := next + 1;
        k := k - 1;
        j := j + 1;
      }
      assert b[..4] == b;
    }

    /** readFloatFromEeprom: four bytes, most significant first, ORed into
        a pattern and folded into the CRC. */
    method ReadFloat(addr: nat, crc: bv16) returns (f: bv32, next: nat, crc': bv16)
      requires addr + 4 <= |eeprom|
      ensures f == Assemble(eeprom[addr .. addr + 4])
      ensures next == addr + 4 && crc' == CrcOf(crc, eeprom[addr .. addr + 4])
    {
      ghost var b := eeprom[addr .. addr + 4];
      ghost var j := 0;
      var k := 4;
      f, next, crc' := 0, addr, crc;
      assert b[..0] == [];
      while k > 0
        invariant 0 <= k <= 4 && j == 4 - k && next == addr + j
        invariant f == Prefix(b, j)
        invariant crc' == CrcOf(crc, b[..j])
      {
        var tmp := eeprom[next];
        assert tmp == b[j];
        FoldStep(crc, b, j);
        assert k - 1 == 3 - j;
        ReadStep(b, j, f, tmp);
        crc' := CrcUpdate(crc', tmp);
        next := next + 1;
        f := f | Place(tmp, k - 1);
        k := k - 1;
        j := j + 1;
      }
      assert b[..4] == b;
    }

    /** writeSensorSettingToEeprom: the four thresholds of channel n. */
    method WriteSensorSetting(n: nat, addr: nat, crc: bv16) returns (next: nat, crc': bv16)
      requires Valid() && n < data.Length && addr + 16 <= |eeprom|
      modifies this`eeprom
      ensures eeprom == Overwrite(old(eeprom), addr, ChannelBytes(data[n]))
      ensures next == addr + 16 && crc' == CrcOf(crc, ChannelBytes(data[n]))
    {
      ghost var e0 := eeprom;
      var d := data[n];
      next, crc' := WriteFloat(d.releasedToApproachedThreshold, addr, crc);
      ghost var e1, c1 := eeprom, crc';
      next, crc' := WriteFloat(d.approachedToReleasedThreshold, next, crc');
      ghost var e2, c2 := eeprom, crc';
      next, crc' := WriteFloat(d.approachedToPressedThreshold, next, crc');
      ghost var e3, c3 := eeprom, crc';
      next, crc' := WriteFloat(d.pressedToApproachedThreshold, next, crc');
      StoreQuarters(e0, addr, d, e1, e2, e3, eeprom);
      FoldQuarters(crc, d, c1, c2, c3, crc');
    }

    /** readSensorSettingFromEeprom: sixteen bytes read and folded into the
        CRC; with applySettings they become the four thresholds of channel
        n, otherwise nothing changes. */
    method ReadSensorSetting(n: nat, addr: nat, crc: bv16, applySettings: bool) returns (next: nat, crc': bv16)
      requires Valid() && n < data.Length && addr + 16 <= |eeprom|
      modifies data
      ensures next == addr + 16 && crc' == CrcOf(crc, eeprom[addr .. addr + 16])
      ensures applySettings ==>
        data[..] == old(data[..])[n := ApplyChannel(old(data[n]), eeprom[addr .. addr + 16])]
      ensures !applySettings ==> data[..] == old(data[..])
    {
      var f0, f1, f2, f3;
      f0, next, crc' := ReadFloat(addr, crc);
      ghost var c1 := crc';
      f1, next, crc' := ReadFloat(next, crc');
      ghost var c2 := crc';
      f2, next, crc' := ReadFloat(next, crc');
      ghost var c3 := crc';
      f3, next, crc' := ReadFloat(next, crc');
      ReadQuarters(crc, eeprom, addr, c1, c2, c3, crc');
      if applySettings {
        ApplyChannelSlices(data[n], eeprom, addr);
        data[n] := data[n].(releasedToApproachedThreshold := f0,
                            approachedToReleasedThreshold := f1,
                            approachedToPressedThreshold := f2,
                            pressedToApproachedThreshold := f3);
      }
    }

    // ---- The settings blob (TouchLib.h:726-854) ----

    /** writeSettingsToEeprom: unless an error is pending, the blob does
        not fit, or the first cell holds neither the key nor the erased
        value, store key, descriptor, every channel's thresholds and the
        CRC, high byte first. */
    method WriteSettings()
      requires Valid()
      modifies this`eeprom, this`error
      ensures (eeprom, error) == WriteSpec(old(eeprom), eepromOffset, data[..], old(error))
    {
      // the descriptor check cannot fail while Valid() holds, so it is a
      // conditional value rather than a branch that could never be taken
      error := if (nSensors - 1) % 32 != nSensors - 1 then -28 else error;
      if eepromOffset + SizeRequired(nSensors) > |eeprom| {
        error := -28;
      }
      if error == 0 {
        var tmp := eeprom[eepromOffset];
        if tmp != Key && tmp != Erased {
          error := -5;
        }
      }
      if error == 0 {
        WriteBlob();
      }
    }

    /** The writing half of writeSettingsToEeprom, once its checks have
        passed: the blob goes to eepromOffset and nothing else changes. */
    method WriteBlob()
      requires Valid() && eepromOffset + SizeRequired(nSensors) <= |eeprom|
      modifies this`eeprom
      ensures eeprom == Overwrite(old(eeprom), eepromOffset, WrittenBlob(data[..]))
    {
      ghost var e := eeprom;
      var addr, crc := WriteHead();
      addr, crc := WriteSections(e, addr, crc);
      WriteCrc(e, addr, crc);
    }

    /** The key and the descriptor, each folded into a CRC that starts at
        zero. */
    method WriteHead() returns (next: nat, crc: bv16)
      requires Valid() && eepromOffset + 2 <= |eeprom|
      modifies this`eeprom
      ensures next == eepromOffset + 2
      ensures eeprom == Overwrite(old(eeprom), eepromOffset, BodyPrefix(data[..], 0))
      ensures crc == CrcOf(0, BodyPrefix(data[..], 0))
    {
      ghost var e := eeprom;
      next, crc := eepromOffset, 0;
      var tmp := Key;
      EepromUpdate(next, tmp);
      next := next + 1;
      crc := CrcUpdate(crc, tmp);
      ghost var c1 := crc;
      tmp := Descriptor(nSensors);
      EepromUpdate(next, tmp);
      next := next + 1;
      crc := CrcUpdate(crc, tmp);
      WriterHead(e, eepromOffset, data[..], c1, crc);
    }

    /** The CRC of everything before it, high byte first, completes the
        blob. */
    method WriteCrc(ghost e: seq<bv8>, addr: nat, crc: bv16)
      requires Valid() && eepromOffset + SizeRequired(nSensors) <= |eeprom|
      requires addr == eepromOffset + 2 + 16 * nSensors && |e| == |eeprom|
      requires eeprom == Overwrite(e, eepromOffset, BodyPrefix(data[..], nSensors))
      requires crc == CrcOf(0, BodyPrefix(data[..], nSensors))
      modifies this`eeprom
      ensures eeprom == Overwrite(e, eepromOffset, WrittenBlob(data[..]))
    {
      var hi, lo := ((crc >> 8) & 0xFF) as bv8, (crc & 0xFF) as bv8;
      EepromUpdate(addr, hi);
      EepromUpdate(addr + 1, lo);
      WriterTail(e, eepromOffset, data[..], crc, hi, lo);
    }

    /** The loop of writeSettingsToEeprom over the channels: after the key
        and descriptor, each channel's sixteen bytes in turn. */
    method WriteSections(ghost e: seq<bv8>, addr: nat, crc: bv16) returns (next: nat, crc': bv16)
      requires Valid() && eepromOffset + 2 + 16 * nSensors <= |eeprom|
      requires addr == eepromOffset + 2 && |e| == |eeprom|
      requires eeprom == Overwrite(e, eepromOffset, BodyPrefix(data[..], 0))
      requires crc == CrcOf(0, BodyPrefix(data[..], 0))
      modifies this`eeprom
      ensures next == eepromOffset + 2 + 16 * nSensors
      ensures eeprom == Overwrite(e, eepromOffset, BodyPrefix(data[..], nSensors))
      ensures crc' == CrcOf(0, BodyPrefix(data[..], nSensors))
    {
      ghost var ds, at := data[..], eepromOffset;
      next, crc' := addr, crc;
      var n := 0;
      while n < nSensors
        invariant 0 <= n <= nSensors && next == at + 2 + 16 * n
        invariant eeprom == Overwrite(e, at, BodyPrefix(ds, n))
        invariant crc' == CrcOf(0, BodyPrefix(ds, n))
      {
        next, crc' := WriteSection(e, ds, n, next, crc');
        n := n + 1;
      }
    }

    /** One turn of that loop: channel n's section extends what is stored
        and folded. */
    method WriteSection(ghost e: seq<bv8>, ghost ds: seq<Channel>, n: nat, addr: nat, crc: bv16)
      returns (next: nat, crc': bv16)
      requires Valid() && ds == data[..] && n < nSensors
      requires eepromOffset + 2 + 16 * nSensors <= |eeprom| && |e| == |eeprom|
      requires addr == eepromOffset + 2 + 16 * n
      requires eeprom == Overwrite(e, eepromOffset, BodyPrefix(ds, n))
      requires crc == CrcOf(0, BodyPrefix(ds, n))
      modifies this`eeprom
      ensures next == addr + 16
      ensures eeprom == Overwrite(e, eepromOffset, BodyPrefix(ds, n + 1))
      ensures crc' == CrcOf(0, BodyPrefix(ds, n + 1))
    {
      ghost var at, e0 := eepromOffset, eeprom;
      assert data[n] == ds[n];
      next, crc' := WriteSensorSetting(n, addr, crc);
      assert data[n] == ds[n];
      assert addr == at + 2 + 16 * n;
      assert eeprom == Overwrite(e0, at + 2 + 16 * n, ChannelBytes(ds[n]));
      WriterStep(e, at, ds, n, crc');
    }

    /** readSettingsFromEeprom: unless an error is pending, the blob does
        not fit, or the key, the format version, the channel count or the
        CRC is wrong, give every channel the thresholds of its section and
        the slew-rate flag of the configuration byte; every failed check
        sets -5 and changes no channel. */
    method ReadSettings()
      requires Valid()
      modifies data, this`error
      ensures (data[..], error) == ReadSpec(eeprom, eepromOffset, old(data[..]), old(error))
    {
      // the descriptor check cannot fail while Valid() holds, so it is a
      // conditional value rather than a branch that could never be taken
      error := if (nSensors - 1) % 32 != nSensors - 1 then -28 else error;
      if eepromOffset + SizeRequired(nSensors) > |eeprom| {
        error := -28;
      }
      if error == 0 {
        ReadBlob();
      }
    }

    /** readSettingsFromEeprom once its space checks have passed: the
        header checks, the CRC check, then the two applying loops. Each
        later block of the source runs only while error is 0, and only the
        block before it can have set error, so they nest here. */
    method ReadBlob()
      requires Valid() && error == 0 && eepromOffset + SizeRequired(nSensors) <= |eeprom|
      modifies data, this`error
      ensures ReaderAccepts(eeprom, eepromOffset, nSensors) ==>
        error == 0 && data[..] == ReadApply(eeprom, eepromOffset, old(data[..]))
      ensures !ReaderAccepts(eeprom, eepromOffset, nSensors) ==>
        error == -5 && data[..] == old(data[..])
    {
      ghost var e := eeprom;
      var addr, crc, config := ReadHeader();
      assert eeprom == e;
      if error == 0 {
        CheckAndApply(addr, crc, config);
      }
      assert eeprom == e;
    }

    /** The rest of readSettingsFromEeprom once the header is accepted:
        the CRC check, and when it passes, the two applying loops. */
    method CheckAndApply(addr: nat, crc: bv16, config: bv8)
      requires Valid() && error == 0 && eepromOffset + SizeRequired(nSensors) <= |eeprom|
      requires addr == eepromOffset + 3 && crc == HeadCrc(eeprom, eepromOffset)
      requires config == eeprom[eepromOffset + 2]
      modifies data, this`error
      ensures CrcMatches(eeprom, eepromOffset, nSensors) ==>
        error == 0 && data[..] == ReadApply(eeprom, eepromOffset, old(data[..]))
      ensures !CrcMatches(eeprom, eepromOffset, nSensors) ==>
        error == -5 && data[..] == old(data[..])
    {
      ghost var e := eeprom;
      CheckCrc(addr, crc);
      assert eeprom == e;
      if error == 0 {
        ApplySettings(addr, config);
      }
      assert eeprom == e;
    }

    /** The two applying loops of readSettingsFromEeprom, once every check
        has passed. */
    method ApplySettings(addr: nat, config: bv8)
      requires Valid() && eepromOffset + SizeRequired(nSensors) <= |eeprom|
      requires addr == eepromOffset + 3 && config == eeprom[eepromOffset + 2]
      modifies data
      ensures data[..] == ReadApply(eeprom, eepromOffset, old(data[..]))
    {
      ghost var ds, e := data[..], eeprom;
      ghost var sections := e[addr .. addr + 16 * nSensors];
      var b := config & SlewBit != 0;
      ReadApplyIs(e, eepromOffset, ds, sections, b);
      ApplySections(addr);
      ghost var mid := data[..];
      assert mid == AppliedUpTo(ds, sections, nSensors);
      SetSlewRates(b);
      BothPasses(ds, sections, b, mid, data[..]);
      assert eeprom == e;
    }

    /** The key and descriptor checks of readSettingsFromEeprom: a wrong
        key, format version or channel count sets -5; otherwise the
        address after the configuration byte, the CRC so far and that byte
        are what the rest goes on with. */
    method ReadHeader() returns (next: nat, crc: bv16, config: bv8)
      requires Valid() && error == 0 && eepromOffset + SizeRequired(nSensors) <= |eeprom|
      modifies this`error
      ensures error == 0 || error == -5
      ensures error == 0 <==> HeaderAccepts(eeprom, eepromOffset, nSensors)
      ensures error == 0 ==>
        next == eepromOffset + 3 && crc == HeadCrc(eeprom, eepromOffset) &&
        config == eeprom[eepromOffset + 2]
    {
      next, crc, config := eepromOffset, 0, 0;
      var tmp := eeprom[next];
      next := next + 1;
      crc := CrcUpdate(crc, tmp);
      if tmp != Key {
        error := -5;
      }
      if error == 0 {
        tmp := eeprom[next];
        next := next + 1;
        crc := CrcUpdate(crc, tmp);
        var formatVersion := (tmp >> 5) & 0x7;
        var nSensorsEeprom := (tmp & 0x1F) as int + 1;
        config := eeprom[next];
        next := next + 1;
        crc := CrcUpdate(crc, tmp);
        if formatVersion != 0 {
          error := -5;
        }
        if nSensorsEeprom != nSensors {
          error := -5;
        }
      }
    }

    /** The dummy pass and the CRC comparison of readSettingsFromEeprom: a
        mismatch sets -5; no channel changes. */
    method CheckCrc(addr: nat, crc: bv16)
      requires Valid() && error == 0 && eepromOffset + SizeRequired(nSensors) <= |eeprom|
      requires addr == eepromOffset + 3 && crc == HeadCrc(eeprom, eepromOffset)
      modifies data, this`error
      ensures data[..] == old(data[..])
      ensures error == 0 || error == -5
      ensures error == 0 <==> CrcMatches(eeprom, eepromOffset, nSensors)
    {
      var next, crc' := CheckSections(addr, crc);
      CompareCrc(next, crc');
    }

    /** The comparison with the CRC stored after the sections, high byte
        first. */
    method CompareCrc(addr: nat, crc: bv16)
      requires Valid() && error == 0 && eepromOffset + SizeRequired(nSensors) <= |eeprom|
      requires addr == eepromOffset + 3 + 16 * nSensors && crc == ReaderCrc(eeprom, eepromOffset, nSensors)
      modifies this`error
      ensures error == 0 || error == -5
      ensures error == 0 <==> CrcMatches(eeprom, eepromOffset, nSensors)
    {
      var next := addr;
      var hi := eeprom[next];
      next := next + 1;
      var lo := eeprom[next];
      next := next + 1;
      var crcEeprom := StoredCrc(hi, lo);
      if crc != crcEeprom {
        error := -5;
      }
    }

    /** The dummy pass of readSettingsFromEeprom: every section folded
        into the CRC, no channel changed. */
    method CheckSections(addr: nat, crc: bv16) returns (next: nat, crc': bv16)
      requires Valid() && addr + 16 * nSensors <= |eeprom|
      modifies data
      ensures next == addr + 16 * nSensors
      ensures crc' == CrcOf(crc, eeprom[addr .. next]) && data[..] == old(data[..])
    {
      next, crc' := addr, crc;
      var n := 0;
      while n < nSensors
        invariant 0 <= n <= nSensors && next == addr + 16 * n
        invariant crc' == CrcOf(crc, eeprom[addr .. next]) && data[..] == old(data[..])
      {
        ghost var a := next;
        next, crc' := ReadSensorSetting(n, next, crc', false);
        CrcOfSlices(crc, eeprom, addr, a, next);
        n := n + 1;
      }
    }

    /** The applying pass of readSettingsFromEeprom: channel n takes the
        thresholds at addr + 16 * n. */
    method ApplySections(addr: nat)
      requires Valid() && addr + 16 * nSensors <= |eeprom|
      modifies data
      ensures data[..] == AppliedUpTo(old(data[..]), eeprom[addr .. addr + 16 * nSensors], nSensors)
    {
      ghost var ds := data[..];
      ghost var b := eeprom[addr .. addr + 16 * nSensors];
      var next, crc: bv16 := addr, 0;
      var n := 0;
      AppliedUpToNone(ds, b);
      while n < nSensors
        invariant 0 <= n <= nSensors && next == addr + 16 * n
        invariant data[..] == AppliedUpTo(ds, b, n)
      {
        ghost var sec := eeprom[next .. next + 16];
        SliceOfSlice(eeprom, addr, addr + 16 * nSensors, 16 * n, 16 * n + 16);
        assert sec == b[16 * n .. 16 * n + 16];
        AppliedUpToStep(ds, b, n);
        ghost var before := data[..];
        next, crc := ReadSensorSetting(n, next, crc, true);
        assert data[..] == before[n := ApplyChannel(ds[n], sec)];
        n := n + 1;
      }
    }

    /** The configuration loop of readSettingsFromEeprom: every channel
        takes the slew-rate flag. */
    method SetSlewRates(slew: bool)
      requires Valid()
      modifies data
      ensures data[..] == SlewUpTo(old(data[..]), slew, nSensors)
    {
      ghost var cs := data[..];
      SlewUpToNone(cs, slew);
      var n := 0;
      while n < nSensors
        invariant 0 <= n <= nSensors
        invariant data[..] == SlewUpTo(cs, slew, n)
      {
        SlewUpToStep(cs, slew, n);
        data[n] := data[n].(enableSlewrateLimiter := slew);
        n := n + 1;
      }
    }
  

    // ---- The state machine (TouchLib.h:994-1042, 1104-1446) ----

    /** setState(ch, newState): nothing while the channel is being changed
        or already in newState; otherwise the transition of ChangeState. */
    method SetState(ch: nat, newState: ButtonState)
      requires Valid() && ch < nSensors
      modifies data, this`events
      ensures data[..] == SetStateSpec(old(data[..]), ch, newState).ds
      ensures events == old(events) + SetStateSpec(old(data[..]), ch, newState).events
      decreases Rank(newState), 3
    {
      var d := data[ch];
      if d.stateIsBeingChanged {
        return;
      }
      if d.buttonState != newState {
        ChangeState(ch, newState);
      }
    }

    /** The body of setState once it changes the channel: the first half
        (BeginChange), then the stamp, the new state, the callback and the
        cleared guard (FinishChange). */
    method ChangeState(ch: nat, newState: ButtonState)
      requires Valid() && ch < nSensors
      requires !data[ch].stateIsBeingChanged && data[ch].buttonState != newState
      modifies data, this`events
      ensures data[..] == SetStateSpec(old(data[..]), ch, newState).ds
      ensures events == old(events) + SetStateSpec(old(data[..]), ch, newState).events
      decreases Rank(newState), 2
    {
      ghost var ds, ev := data[..], events;
      ghost var fan := Fanned(ds, ch, newState);
      SetStateIsFannedThenWritten(ds, ch, newState);
      FannedKeepsOwnState(ds, ch, newState);
      var d := data[ch];
      assert d == ds[ch];
      var keep := (d.buttonState == ApproachedToReleased && newState == Approached) ||
                  (d.buttonState == PressedToApproached && newState == Pressed);
      var chStateChanged, ns := BeginChange(ch, newState);
      var stamp := !keep || chStateChanged;
      ghost var self := EntryMask(d, newState) != 0 && MaskBit(EntryMask(d, newState), ch);
      assert chStateChanged == self;
      assert stamp == (!KeepsStamp(d.buttonState, newState) || self);
      assert data[..] == fan.ds && events == ev + fan.events;
      FinishChange(ch, stamp, ns);
      AppendAssoc(ev, fan.events, [Event(ch, d.buttonState, ns)]);
    }

    /** The switch of setState and the fan-out of the transition's mask,
        which also yields the state to store and whether the channel's own
        bit was set. */
    method BeginChange(ch: nat, newState: ButtonState) returns (chStateChanged: bool, ns: ButtonState)
      requires Valid() && ch < nSensors
      requires !data[ch].stateIsBeingChanged && data[ch].buttonState != newState
      modifies data, this`events
      ensures data[..] == Fanned(old(data[..]), ch, newState).ds
      ensures events == old(events) + Fanned(old(data[..]), ch, newState).events
      ensures chStateChanged == (EntryMask(old(data[ch]), newState) != 0 && MaskBit(EntryMask(old(data[ch]), newState), ch))
      ensures ns == if chStateChanged then PreCalibrating else newState
      decreases Rank(newState), 1
    {
      var mask := EnterState(ch, newState);
      chStateChanged, ns := FanOutIfMasked(ch, mask, newState);
    }

    /** if (mask) setForceCalibratingStates(ch, mask, &newState). */
    method FanOutIfMasked(ch: nat, mask: u32, newState: ButtonState) returns (chStateChanged: bool, ns: ButtonState)
      requires Valid() && ch < nSensors
      requires mask != 0 ==> newState != PreCalibrating
      modifies data, this`events
      ensures data[..] == FanIf(old(data[..]), ch, mask, newState).ds
      ensures events == old(events) + FanIf(old(data[..]), ch, mask, newState).events
      ensures chStateChanged == (mask != 0 && MaskBit(mask, ch))
      ensures ns == if chStateChanged then PreCalibrating else newState
      decreases Rank(newState), 0
    {
      chStateChanged, ns := false, newState;
      if mask != 0 {
        chStateChanged, ns := SetForceCalibratingStates(ch, mask, ns);
      }
    }

    /** The switch of setState: the channel marked as being changed, the
        filter reset when entering Calibrating, and the mask of the
        transition. */
    method EnterState(ch: nat, newState: ButtonState) returns (mask: u32)
      requires Valid() && ch < nSensors
      modifies data
      ensures var d := old(data[ch]);
        data[..] == old(data[..])[ch := Entered(d, newState)]
      ensures mask == EntryMask(old(data[ch]), newState)
    {
      var d := data[ch];
      var c := Marked(d);
      mask := 0;
      match newState {
        case Calibrating =>
          c := EnterCalibrating(c);
        case Released =>
          if d.buttonState == ApproachedToReleased {
            mask := d.forceCalibrationWhenReleasingFromApproached;
          }
        case Approached =>
          if d.buttonState == ReleasedToApproached {
            mask := d.forceCalibrationWhenApproachingFromReleased;
          }
          if d.buttonState == PressedToApproached {
            mask := d.forceCalibrationWhenApproachingFromPressed;
          }
        case Pressed =>
          mask := d.forceCalibrationWhenPressing;
        case _ =>
      }
      data[ch] := c;
    }

    /** The end of a state change: the stamp, the new state, the callback
        with the state the channel left, and the guard cleared. */
    method FinishChange(ch: nat, stamp: bool, ns: ButtonState)
      requires Valid() && ch < nSensors
      modifies data, this`events
      ensures data[..] == old(data[..])[ch := Settled(old(data[ch]), stamp, ns)]
      ensures events == old(events) + [Event(ch, old(data[ch]).buttonState, ns)]
    {
      var c := data[ch];
      events := events + [Event(ch, c.buttonState, ns)];
      data[ch] := Settled(c, stamp, ns);
    }

    /** setForceCalibratingStates(ch, mask, &newState): every other
        channel whose bit is set goes to PreCalibrating; the channel's own
        bit turns the requested state into PreCalibrating and is
        reported. */
    method SetForceCalibratingStates(ch: nat, mask: u32, newState: ButtonState) returns (chStateChanged: bool, ns: ButtonState)
      requires Valid() && ch < nSensors
      modifies data, this`events
      ensures data[..] == FanOut(old(data[..]), ch, mask, nSensors).ds
      ensures events == old(events) + FanOut(old(data[..]), ch, mask, nSensors).events
      ensures chStateChanged == MaskBit(mask, ch)
      ensures ns == if chStateChanged then PreCalibrating else newState
      decreases 1, 1
    {
      ghost var ds := data[..];
      ghost var ev := events;
      chStateChanged, ns := false, newState;
      var n := 0;
      while n < nSensors
        invariant 0 <= n <= nSensors
        invariant data[..] == FanOut(ds, ch, mask, n).ds
        invariant events == ev + FanOut(ds, ch, mask, n).events
        invariant chStateChanged == (ch < n && MaskBit(mask, ch))
        invariant ns == if chStateChanged then PreCalibrating else newState
      {
        if MaskBit(mask, n) {
          if n == ch {
            chStateChanged := true;
            ns := PreCalibrating;
          } else {
            ForceSibling(ds, ev, ch, mask, n);
          }
        }
        n := n + 1;
      }
    }

    /** A set bit of another channel n: setState(n, PreCalibrating), one
        more step of the fan-out. */
    method ForceSibling(ghost ds: seq<Channel>, ghost ev: seq<Event>, ch: nat, mask: u32, n: nat)
      requires Valid() && ch < nSensors && n < nSensors && |ds| == nSensors
      requires data[..] == FanOut(ds, ch, mask, n).ds
      requires events == ev + FanOut(ds, ch, mask, n).events
      requires MaskBit(mask, n) && n != ch
      modifies data, this`events
      ensures data[..] == FanOut(ds, ch, mask, n + 1).ds
      ensures events == ev + FanOut(ds, ch, mask, n + 1).events
      decreases 1, 0
    {
      SetState(n, PreCalibrating);
    }

    // ---- Processing a sample (TouchLib.h:993-1021, 1209-1446) ----

    /** updateAvg(d), on the record d points to: nothing while frozen by
        an approached or pressed button; otherwise the running average,
        the noise power (past calibration, when enabled) and the counter. */
    method UpdateAvg(d: Channel) returns (r: Channel)
      ensures r == AvgUpdated(d, anyButtonIsApproached, anyButtonIsPressed)
    {
      r := d;
      if d.disableUpdateIfAnyButtonIsApproached && anyButtonIsApproached {
        return;
      }
      if d.disableUpdateIfAnyButtonIsPressed && anyButtonIsPressed {
        return;
      }
      var k := d.counter as real;
      var avg := RunningMean(k, d.avg, d.capacitance);
      var noisePower := d.noisePower;
      if d.enableNoisePowerMeasurement && Ordinal(d.buttonState) > Ordinal(Calibrating) {
        noisePower := RunningMean(k, d.noisePower, d.delta * d.delta);
      }
      var counter: u32 := d.counter;
      if counter < CounterLimit(d.filterCoeff) {
        counter := counter + 1;
      }
      AvgUpdatedFields(d, anyButtonIsApproached, anyButtonIsPressed);
      r := Averaged(d, avg, noisePower, counter);
    }

    /** updateAvg(&data[ch]). */
    method UpdateAvgAtChannel(ch: nat)
      requires Valid() && ch < nSensors
      modifies data
      ensures data[..] == UpdateAvgAt(old(data[..]), ch, anyButtonIsApproached, anyButtonIsPressed).ds
    {
      var r := UpdateAvg(data[ch]);
      data[ch] := r;
    }

    /** processStatePreCalibrating: to Calibrating once the pre-calibration
        time is up. */
    method ProcessStatePreCalibrating(ch: nat)
      requires Valid() && ch < nSensors
      modifies data, this`events
      ensures data[..] == ProcessPreCalibrating(old(data[..]), ch).ds
      ensures events == old(events) + ProcessPreCalibrating(old(data[..]), ch).events
    {
      var d := data[ch];
      if Elapsed(d.lastSampledAtTime, d.stateChangedAtTime) >= d.preCalibrationTime {
        SetState(ch, Calibrating);
      }
    }

    /** processStateCalibrating: average until the calibration time is up,
        then NoisePowerMeasurement and the parallel capacitance. */
    method ProcessStateCalibrating(ch: nat)
      requires Valid() && ch < nSensors
      modifies data, this`events
      ensures data[..] == ProcessCalibrating(old(data[..]), ch, anyButtonIsApproached, anyButtonIsPressed).ds
      ensures events == old(events) + ProcessCalibrating(old(data[..]), ch, anyButtonIsApproached, anyButtonIsPressed).events
    {
      var d := data[ch];
      var t := Elapsed(d.lastSampledAtTime, d.stateChangedAtTime);
      if t < d.calibrationTime {
        UpdateAvgAtChannel(ch);
      } else {
        SetState(ch, NoisePowerMeasurement);
        var c := data[ch];
        if !c.setParallelCapacitanceManually {
          data[ch] := c.(parallelCapacitance := c.avg);
        }
      }
    }

    /** processStateNoisePowerMeasurement: keep averaging while the noise
        is measured, then Released. */
    method ProcessStateNoisePowerMeasurement(ch: nat)
      requires Valid() && ch < nSensors
      modifies data, this`events
      ensures data[..] == ProcessNoisePowerMeasurement(old(data[..]), ch, anyButtonIsApproached, anyButtonIsPressed).ds
      ensures events == old(events) + ProcessNoisePowerMeasurement(old(data[..]), ch, anyButtonIsApproached, anyButtonIsPressed).events
    {
      var d := data[ch];
      var t := Elapsed(d.lastSampledAtTime, d.stateChangedAtTime);
      if d.enableNoisePowerMeasurement && t < d.calibrationTime {
        UpdateAvgAtChannel(ch);
      } else {
        SetState(ch, Released);
      }
    }

    /** processStateReleased: to ReleasedToApproached when approached,
        otherwise the average follows the sample. */
    method ProcessStateReleased(ch: nat)
      requires Valid() && ch < nSensors
      modifies data, this`events
      ensures data[..] == ProcessReleased(old(data[..]), ch, anyButtonIsApproached, anyButtonIsPressed).ds
      ensures events == old(events) + ProcessReleased(old(data[..]), ch, anyButtonIsApproached, anyButtonIsPressed).events
    {
      var d := data[ch];
      if d.enableTouchStateMachine && IsApproached(d) {
        SetState(ch, ReleasedToApproached);
      } else {
        UpdateAvgAtChannel(ch);
      }
    }

    /** processStateReleasedToApproached. */
    method ProcessStateReleasedToApproached(ch: nat)
      requires Valid() && ch < nSensors
      modifies data, this`events
      ensures data[..] == ProcessReleasedToApproached(old(data[..]), ch).ds
      ensures events == old(events) + ProcessReleasedToApproached(old(data[..]), ch).events
    {
      var d := data[ch];
      if !d.enableTouchStateMachine {
        return;
      }
      if IsApproached(d) {
        if Elapsed(d.lastSampledAtTime, d.stateChangedAtTime) >= d.releasedToApproachedTime {
          SetState(ch, Approached);
        }
      } else {
        SetState(ch, Released);
      }
    }

    /** processStateApproached: released first, then pressed, then the
        approached timeout. */
    method ProcessStateApproached(ch: nat)
      requires Valid() && ch < nSensors
      modifies data, this`events
      ensures data[..] == ProcessApproached(old(data[..]), ch).ds
      ensures events == old(events) + ProcessApproached(old(data[..]), ch).events
    {
      var d := data[ch];
      if !d.enableTouchStateMachine {
        return;
      }
      if IsReleased(d) {
        SetState(ch, ApproachedToReleased);
      } else if IsPressed(d) {
        SetState(ch, ApproachedToPressed);
      } else if d.approachedTimeout > 0 && Elapsed(d.lastSampledAtTime, d.stateChangedAtTime) > d.approachedTimeout {
        SetState(ch, Calibrating);
      }
    }

    /** processStateApproachedToPressed. */
    method ProcessStateApproachedToPressed(ch: nat)
      requires Valid() && ch < nSensors
      modifies data, this`events
      ensures data[..] == ProcessApproachedToPressed(old(data[..]), ch).ds
      ensures events == old(events) + ProcessApproachedToPressed(old(data[..]), ch).events
    {
      var d := data[ch];
      if !d.enableTouchStateMachine {
        return;
      }
      if IsPressed(d) {
        if Elapsed(d.lastSampledAtTime, d.stateChangedAtTime) >= d.approachedToPressedTime {
          SetState(ch, Pressed);
        }
      } else {
        SetState(ch, Approached);
      }
    }

    /** processStateApproachedToReleased. */
    method ProcessStateApproachedToReleased(ch: nat)
      requires Valid() && ch < nSensors
      modifies data, this`events
      ensures data[..] == ProcessApproachedToReleased(old(data[..]), ch).ds
      ensures events == old(events) + ProcessApproachedToReleased(old(data[..]), ch).events
    {
      var d := data[ch];
      if !d.enableTouchStateMachine {
        return;
      }
      if IsReleased(d) {
        if Elapsed(d.lastSampledAtTime, d.stateChangedAtTime) >= d.approachedToReleasedTime {
          SetState(ch, Released);
        }
      } else {
        SetState(ch, Approached);
      }
    }

    /** processStatePressed: the pressed timeout recalibrates. */
    method ProcessStatePressed(ch: nat)
      requires Valid() && ch < nSensors
      modifies data, this`events
      ensures data[..] == ProcessPressed(old(data[..]), ch).ds
      ensures events == old(events) + ProcessPressed(old(data[..]), ch).events
    {
      var d := data[ch];
      if !d.enableTouchStateMachine {
        return;
      }
      if IsPressed(d) {
        if d.pressedTimeout > 0 && Elapsed(d.lastSampledAtTime, d.stateChangedAtTime) > d.pressedTimeout {
          SetState(ch, Calibrating);
        }
      } else {
        SetState(ch, PressedToApproached);
      }
    }

    /** processStatePressedToApproached. */
    method ProcessStatePressedToApproached(ch: nat)
      requires Valid() && ch < nSensors
      modifies data, this`events
      ensures data[..] == ProcessPressedToApproached(old(data[..]), ch).ds
      ensures events == old(events) + ProcessPressedToApproached(old(data[..]), ch).events
    {
      var d := data[ch];
      if !d.enableTouchStateMachine {
        return;
      }
      if IsPressed(d) {
        SetState(ch, Pressed);
      } else if Elapsed(d.lastSampledAtTime, d.stateChangedAtTime) >= d.pressedToApproachedTime {
        SetState(ch, Approached);
      }
    }

    /** processSample(ch): delta = capacitance - avg, then the handler of
        the channel's state. */
    method ProcessSample(ch: nat)
      requires Valid() && ch < nSensors
      modifies data, this`events
      ensures data[..] == ProcessSampleSpec(old(data[..]), ch, anyButtonIsApproached, anyButtonIsPressed).ds
      ensures events == old(events) + ProcessSampleSpec(old(data[..]), ch, anyButtonIsApproached, anyButtonIsPressed).events
    {
      data[ch] := WithDelta(data[ch]);
      RunHandler(ch);
    }

    /** The switch of processSample over the channel's state. */
    method RunHandler(ch: nat)
      requires Valid() && ch < nSensors
      modifies data, this`events
      ensures data[..] == Dispatch(old(data[..]), ch, anyButtonIsApproached, anyButtonIsPressed).ds
      ensures events == old(events) + Dispatch(old(data[..]), ch, anyButtonIsApproached, anyButtonIsPressed).events
    {
      match data[ch].buttonState {
        case PreCalibrating => ProcessStatePreCalibrating(ch);
        case Calibrating => ProcessStateCalibrating(ch);
        case NoisePowerMeasurement => ProcessStateNoisePowerMeasurement(ch);
        case Released => ProcessStateReleased(ch);
        case ReleasedToApproached => ProcessStateReleasedToApproached(ch);
        case Approached => ProcessStateApproached(ch);
        case ApproachedToReleased => ProcessStateApproachedToReleased(ch);
        case ApproachedToPressed => ProcessStateApproachedToPressed(ch);
        case Pressed => ProcessStatePressed(ch);
        case PressedToApproached => ProcessStatePressedToApproached(ch);
      }
    }

    // ---- The measurement cycle (TouchLib.h:921-941, 1447-1587) ----

    /** addSample(ch, sample): with the slew-rate limiter the first sample
        of the cycle sets raw and each later one moves raw a step towards
        the sample; without it the sample is added to raw. */
    method AddSample(ch: nat, sample: int)
      requires Valid() && ch < nSensors
      modifies data
      ensures data[..] == old(data[..])[ch := AddSampleSpec(old(data[ch]), sample)]
    {
      var d := data[ch];
      var raw, first := d.raw, d.slewrateFirstSample;
      if d.enableSlewrateLimiter {
        if first {
          raw := sample;
          first := false;
        } else {
          if sample > raw {
            raw := raw + 1;
          }
          if sample < raw {
            raw := raw - 1;
          }
        }
      } else {
        raw := raw + sample;
      }
      data[ch] := WithRaw(d, raw, first);
    }

    /** resetButtonStateSummaries(ch). */
    method ResetButtonStateSummaries(ch: nat)
      requires Valid() && ch < nSensors
      modifies data
      ensures data[..] == old(data[..])[ch := SummariesCleared(old(data[ch]))]
    {
      data[ch] := SummariesCleared(data[ch]);
    }

    /** correctSample(ch), with the floating-point transfer function an
        input: the capacitance it yields and the next charge count, which
        the compile-time bounds clamp to 1. */
    method CorrectSample(ch: nat, transfer: Channel -> Correction)
      requires Valid() && ch < nSensors
      modifies data
      ensures data[..] == old(data[..])[ch := CorrectSampleSpec(old(data[ch]), transfer)]
    {
      var d := data[ch];
      var c := transfer(d);
      var next: u32 := c.chargesCeil % 0x1_0000_0000;
      if next < NChargesMinDefault {
        next := NChargesMinDefault;
      }
      if next > NChargesMaxDefault {
        next := NChargesMaxDefault;
      }
      data[ch] := Corrected(d, c.capacitance, next);
    }

    /** sample(): one measurement cycle.  normal[pos] and inverted[pos] are
        what the sample method returns for slot pos, now is millis() and
        transfer the floating-point part of correctSample.  The new
        channels, callbacks and global flags are those of SampleSpec; the
        error is returned unchanged. */
    method Sample(normal: seq<int>, inverted: seq<int>, now: u32, transfer: Channel -> Correction) returns (err: int)
      requires Valid() && ValidScan(data[..], scanOrder[..], normal, inverted)
      modifies data, this`events, this`anyButtonIsApproached, this`anyButtonIsPressed
      ensures var c := SampleSpec(old(data[..]), old(scanOrder[..]), normal, inverted, now, transfer,
                                  old(anyButtonIsApproached), old(anyButtonIsPressed));
        && data[..] == c.ds && events == old(events) + c.events
        && anyButtonIsApproached == c.anyApproached && anyButtonIsPressed == c.anyPressed
      ensures err == error
    {
      ghost var ds, scan := data[..], scanOrder[..];
      ResetRaws();
      ghost var reset := data[..];
      assert ValidScan(reset, scan, normal, inverted);
      ScanSlots(reset, normal, inverted);
      ghost var scanned := data[..];
      ProcessChannels(scanned, now, transfer);
      ghost var processed := ProcessPass(scanned, now, transfer, anyButtonIsApproached, anyButtonIsPressed, nSensors);
      Summarize(processed.ds);
      err := error;
    }

    /** The first loop of sample(): raw cleared and the slew limiter
        waiting for its first sample, on every channel. */
    method ResetRaws()
      requires Valid()
      modifies data
      ensures data[..] == ResetAll(old(data[..]))
    {
      ghost var ds := data[..];
      var ch := 0;
      while ch < nSensors
        invariant 0 <= ch <= nSensors
        invariant forall i :: 0 <= i < ch ==> data[i] == ResetRaw(ds[i])
        invariant forall i :: ch <= i < nSensors ==> data[i] == ds[i]
      {
        data[ch] := WithRaw(data[ch], 0, true);
        ch := ch + 1;
      }
      assert data[..] == ResetAll(ds);
    }

    /** The scan loop of sample(): for each slot, the normal and the
        inverted half the channel's sample type asks for (the inverted one
        complemented against TL_ADC_MAX), a single-ended half doubled, and
        the two halves handed to addSample.  sample1 and sample2 live
        across slots, so a half the type does not take is the one an
        earlier slot left. */
    method ScanSlots(ghost ds: seq<Channel>, normal: seq<int>, inverted: seq<int>)
      requires Valid() && ds == data[..] && ValidScan(ds, scanOrder[..], normal, inverted)
      modifies data
      ensures data[..] == ScanPass(ds, scanOrder[..], normal, inverted, scanOrder.Length)
    {
      ghost var scan := scanOrder[..];
      var length := nSensors * nMeasurementsPerSensor;
      var sample1, sample2 := 0, 0;
      var pos := 0;
      while pos < length
        invariant 0 <= pos <= length
        invariant Carry(sample1, sample2) == CarryAfter(ds, scan, normal, inverted, pos)
        invariant data[..] == ScanPass(ds, scan, normal, inverted, pos)
      {
        sample1, sample2 := ScanSlot(ds, normal, inverted, pos, sample1, sample2);
        pos := pos + 1;
      }
    }

    /** One slot of the scan loop. */
    method ScanSlot(ghost ds: seq<Channel>, normal: seq<int>, inverted: seq<int>, pos: nat, s1: int, s2: int)
      returns (sample1: int, sample2: int)
      requires Valid() && ValidScan(ds, scanOrder[..], normal, inverted) && pos < scanOrder.Length
      requires Carry(s1, s2) == CarryAfter(ds, scanOrder[..], normal, inverted, pos)
      requires data[..] == ScanPass(ds, scanOrder[..], normal, inverted, pos)
      modifies data
      ensures Carry(sample1, sample2) == CarryAfter(ds, scanOrder[..], normal, inverted, pos + 1)
      ensures data[..] == ScanPass(ds, scanOrder[..], normal, inverted, pos + 1)
    {
      ghost var scan := scanOrder[..];
      ScanPassFrame(ds, scan, normal, inverted, pos);
      ScanPassStep(ds, scan, normal, inverted, pos);
      var ch := scanOrder[pos];
      var t := data[ch].sampleType;
      assert t == ds[scan[pos]].sampleType;
      sample1, sample2 := s1, s2;
      if HasNormal(t) {
        sample1 := normal[pos];
      }
      if HasInverted(t) {
        sample2 := AdcMax - inverted[pos];
      }
      if t == Normal {
        sample1 := sample1 * 2;
      }
      if t == Inverted {
        sample2 := sample2 * 2;
      }
      AddSample(ch as nat, sample1 + sample2);
    }

    /** The processing loop of sample(): channel by channel, the sample
        time stamped, the sample corrected and the state machine run. */
    method ProcessChannels(ghost ds: seq<Channel>, now: u32, transfer: Channel -> Correction)
      requires Valid() && ds == data[..]
      modifies data, this`events
      ensures data[..] == ProcessPass(ds, now, transfer, anyButtonIsApproached, anyButtonIsPressed, nSensors).ds
      ensures events == old(events) + ProcessPass(ds, now, transfer, anyButtonIsApproached, anyButtonIsPressed, nSensors).events
    {
      ghost var ev, approached, pressed := events, anyButtonIsApproached, anyButtonIsPressed;
      var ch := 0;
      while ch < nSensors
        invariant 0 <= ch <= nSensors
        invariant data[..] == ProcessPass(ds, now, transfer, approached, pressed, ch).ds
        invariant events == ev + ProcessPass(ds, now, transfer, approached, pressed, ch).events
      {
        ProcessChannel(ds, ev, approached, pressed, ch, now, transfer);
        ch := ch + 1;
      }
    }

    /** One turn of the processing loop. */
    method ProcessChannel(ghost ds: seq<Channel>, ghost ev: seq<Event>, ghost approached: bool, ghost pressed: bool,
                          ch: nat, now: u32, transfer: Channel -> Correction)
      requires Valid() && ch < nSensors && |ds| == nSensors
      requires approached == anyButtonIsApproached && pressed == anyButtonIsPressed
      requires data[..] == ProcessPass(ds, now, transfer, approached, pressed, ch).ds
      requires events == ev + ProcessPass(ds, now, transfer, approached, pressed, ch).events
      modifies data, this`events
      ensures data[..] == ProcessPass(ds, now, transfer, approached, pressed, ch + 1).ds
      ensures events == ev + ProcessPass(ds, now, transfer, approached, pressed, ch + 1).events
    {
      ghost var prev := ProcessPass(ds, now, transfer, approached, pressed, ch);
      ProcessPassStep(ds, now, transfer, approached, pressed, ch);
      data[ch] := Stamped(data[ch], now);
      CorrectSample(ch, transfer);
      assert data[..] == TurnInput(prev.ds, ch, now, transfer);
      ProcessSample(ch);
      AppendAssoc(ev, prev.events, ProcessSampleSpec(TurnInput(prev.ds, ch, now, transfer), ch, approached, pressed).events);
    }

    /** The summary loop of sample(): the four flags of every channel from
        its state, the two global flags as their disjunctions, and the next
        charge count committed for the default sample method. */
    method Summarize(ghost ds: seq<Channel>)
      requires Valid() && ds == data[..]
      modifies data, this`anyButtonIsApproached, this`anyButtonIsPressed
      ensures data[..] == SummarizeAll(ds)
      ensures anyButtonIsApproached == AnyApproachedIn(ds, nSensors)
      ensures anyButtonIsPressed == AnyPressedIn(ds, nSensors)
    {
      anyButtonIsApproached := false;
      anyButtonIsPressed := false;
      var ch := 0;
      while ch < nSensors
        invariant 0 <= ch <= nSensors
        invariant data[..] == SummarizedUpTo(ds, ch)
        invariant anyButtonIsApproached == AnyApproachedIn(ds, ch)
        invariant anyButtonIsPressed == AnyPressedIn(ds, ch)
      {
        SummarizeTurn(ds, ch);
        ch := ch + 1;
      }
      SummarizedUpToAll(ds);
    }

    /** One turn of the summary loop: channel ch summarized and its state
        folded into the two global flags. */
    method SummarizeTurn(ghost ds: seq<Channel>, ch: nat)
      requires Valid() && |ds| == nSensors && ch < nSensors
      requires data[..] == SummarizedUpTo(ds, ch)
      requires anyButtonIsApproached == AnyApproachedIn(ds, ch)
      requires anyButtonIsPressed == AnyPressedIn(ds, ch)
      modifies data, this`anyButtonIsApproached, this`anyButtonIsPressed
      ensures data[..] == SummarizedUpTo(ds, ch + 1)
      ensures anyButtonIsApproached == AnyApproachedIn(ds, ch + 1)
      ensures anyButtonIsPressed == AnyPressedIn(ds, ch + 1)
    {
      SummarizedUpToAt(ds, ch, ch);
      SummarizeChannel(ch);
      if Ordinal(data[ch].buttonState) >= Ordinal(Approached) {
        anyButtonIsApproached := true;
      }
      if Ordinal(data[ch].buttonState) >= Ordinal(Pressed) {
        anyButtonIsPressed := true;
      }
    }

    /** One turn of the summary loop, on the channel's own record. */
    method SummarizeChannel(ch: nat)
      requires Valid() && ch < nSensors
      modifies data
      ensures data[..] == old(data[..])[ch := Summarized(old(data[ch]))]
    {
      ghost var d0 := data[ch];
      ResetButtonStateSummaries(ch);
      var d := data[ch];
      var k := Ordinal(d.buttonState);
      var calibrating, released, approached, pressed := d.buttonIsCalibrating, d.buttonIsReleased, d.buttonIsApproached, d.buttonIsPressed;
      if k <= Ordinal(NoisePowerMeasurement) {
        calibrating := true;
      }
      if k >= Ordinal(Released) && k <= Ordinal(ReleasedToApproached) {
        released := true;
      }
      if k >= Ordinal(Approached) {
        approached := true;
      }
      if k >= Ordinal(Pressed) {
        pressed := true;
      }
      var nCharges := d.nCharges;
      if d.usesDefaultSampleMethod {
        nCharges := d.nChargesNext;
      }
      SummaryOfOrdinal(d.buttonState);
      WithSummariesTwice(d0, calibrating, released, approached, pressed, nCharges);
      data[ch] := WithSummaries(d, calibrating, released, approached, pressed, nCharges);
    }
  }
}
