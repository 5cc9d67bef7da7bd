# TouchLib sensor core in Dafny

This project models the core of TouchLib, an Arduino library for capacitive
touch buttons. Its class `TLSensors` (TouchLib.h) keeps one record per
channel. It schedules the channels' measurements in a pseudo-random scan
order, and accumulates the readings of one cycle into a raw count per
channel. It then runs each channel through a ten-state button automaton:
PreCalibrating, Calibrating, NoisePowerMeasurement, Released,
ReleasedToApproached, Approached, ApproachedToPressed,
ApproachedToReleased, Pressed and PressedToApproached. Finally it publishes
per-channel and global summary flags. It can also store the four
hysteresis thresholds of every channel in EEPROM, inside a framed blob
guarded by a CRC-16, and read them back.

The modules follow the parts of the source:

- `Channel` (channel.dfy) is the per-channel record `TLStruct`, as a value.
  It also holds the three `is*` threshold tests and the defaults
  `setDefaults` writes.
- `Binary32` (binary32.dfy) decodes binary32 bit patterns (section 3.4 of
  IEEE 754-2008). The thresholds are stored as patterns and compared as
  numbers; a NaN pattern compares false.
- `ScanSpec` (scan_spec.dfy) covers `addChannel` and `initScanOrder` on
  the scan-order table, where 255 marks a free slot.
- `Crc16` (crc16.dfy) covers `crcUpdate`, bit by bit and MSB first,
  with polynomial 0x1021.
- `Packing` (packing.dfy) covers the big-endian byte order of
  `writeFloatToEeprom` and `readFloatFromEeprom`.
- `SettingsSpec` (settings_spec.dfy) specifies the blob the writer
  stores and the checks and effect of the two-pass reader.
- `StateSpec` (state_spec.dfy) covers `setState` and its sibling
  fan-out `setForceCalibratingStates`, the gating of `updateAvg`, the ten
  `processState*` handlers and `processSample`.
- `CycleSpec` (cycle_spec.dfy) covers one call of `sample()`: the slot
  loop with `addSample`, then the processing loop, then the summary loop.
- `TouchLib` (touchlib.dfy) holds the class `Sensors`. Its methods update
  the channel array, the scan-order array, the flags, the error and the
  EEPROM contents in place, with the source's loops. Each method is
  proved against the functions above.

Inputs stand in for the Arduino runtime:

- the random offsets `initScanOrder` draws are a sequence of offsets;
- the time `millis()` returns is a parameter `now`;
- the sample method's readings are per-slot sequences `normal` and
  `inverted`;
- the floating-point part of `correctSample` is a function parameter
  `transfer`;
- the EEPROM is a field `eeprom: seq<bv8>`;
- the state-change callback is a ghost log `events` of
  (channel, old state, new state) entries.

Three details of the code are modelled as written:

- `correctSample` clamps `nChargesNext` to the compile-time bounds
  [1, 1] (TouchLib.h:1467-1473). The per-channel fields `nChargesMin` and
  `nChargesMax` of the record (TouchLib.h:166-167) are not used by the
  clamp.
- The EEPROM overhead comment counts a one-byte configuration field
  (TouchLib.h:391-398), and the reader reads one, but the writer stores
  none, so the two do not agree on the blob layout (see Findings).
- `lastSampledAtTime` is stamped channel by channel inside the processing
  loop (TouchLib.h:1554-1558). A sibling that an earlier channel's
  transition resets to PreCalibrating therefore takes its previous cycle's
  time as its state-change time.

## Model

| member | source | states |
|---|---|---|
| ScanSpec.PosIsMod | TouchLib.h:411-412 | the probe position of step n from offset r is (n + r) mod length |
| ScanSpec.ScanReaches | TouchLib.h:411-418 | the probe sequence from any offset visits every slot of the table |
| ScanSpec.FirstFreeStepIsFirst | TouchLib.h:411-418 | the probe search finds no step exactly when no probed slot is free, and every step before the one it finds hits a used slot |
| ScanSpec.AddChannelEffect | TouchLib.h:401-422 | addChannel succeeds (0) exactly when the table has a free slot. It then writes ch into the first free slot probed cyclically from r and changes no other slot; otherwise the table is unchanged and the result is -1 |
| ScanSpec.AddChannelContents | TouchLib.h:401-422 | a successful addChannel trades exactly one free slot for one occurrence of ch (multiset equation) and keeps the length |
| ScanSpec.BuildRoundContents | TouchLib.h:443-445 | one round of addChannel(0..n-1) on a table with n free slots consumes n free slots, adds each channel once and never fails |
| ScanSpec.BuildRoundsContents | TouchLib.h:442-446 | k rounds consume k * nSensors free slots, add each channel k times and leave error 0 |
| ScanSpec.ClearedContents | TouchLib.h:432-434 | the cleared table holds only free slots |
| ScanSpec.ScanOrderComplete | TouchLib.h:425-447 | for any offsets, after initScanOrder no slot is free, every channel below nSensors occurs exactly nMeasurementsPerSensor times, no other value occurs, and the last addChannel sets error 0 |
| TouchLib.Sensors.AddChannel | TouchLib.h:401-422 | the table and the error after addChannel are those of AddChannelSpec (first free slot from r, or -1 and unchanged) |
| TouchLib.Sensors.ClearScanOrder | TouchLib.h:432-434 | every slot of the scan order is 255 afterwards |
| TouchLib.Sensors.AddRound | TouchLib.h:443-445 | one round of addChannel calls leaves the table BuildRound describes and the error of its last call |
| TouchLib.Sensors.InitScanOrder | TouchLib.h:425-447 | the scan order has no free slot, each channel exactly nMeasurementsPerSensor times, no other value, and error 0 |
| Channel.Elapsed | TouchLib.h:1230 | the unsigned 32-bit difference now - then, which wraps when the clock has wrapped |
| Channel.DirectionalTests | TouchLib.h:944-992 | isReleased, isApproached and isPressed compare the signed delta (negated for the negative direction) with the approached-to-released, released-to-approached and approached-to-pressed thresholds, in both directions |
| Channel.DefaultBands | TouchLib.h:944-992 | with the default thresholds a delta of 150 or more is pressed and approached, 40 or less released only, and between 40 and 50 neither released nor approached |
| Channel.DefaultedHysteresis | TouchLib.h:480-556 | the default thresholds decode to 40, 50, 120 and 150; a defaulted channel is never both released and approached, pressed implies approached, the guard is clear and the parallel capacitance is 0 |
| Binary32.ComparisonsAgreeWithValue | TouchLib.h:944-992 | a float comparison against a threshold pattern agrees with the decoded value, and every comparison with a NaN threshold is false |
| Binary32.DefaultThresholdValues | TouchLib.h:485-492 | the default threshold patterns are the binary32 encodings of 50.0, 40.0, 150.0 and 120.0 |
| Binary32.ErasedPatternIsNaN | TouchLib.h:629-651 | four erased EEPROM cells (0xFFFFFFFF) read back as NaN |
| TouchLib.Sensors.SetDefaults | TouchLib.h:450-560 | fewer than two channels is error -1 with nothing else changed. Otherwise error 0, both global flags cleared, the scan order rebuilt by initScanOrder, the EEPROM read switch set by the build, offset 0, and every channel defaulted |
| TouchLib.Sensors.DefaultChannels | TouchLib.h:480-556 | every channel record becomes its defaulted form |
| Crc16.ShiftInBit | TouchLib.h:585-594 | one pass of the bit loop is one shift of the register with input bit i of c |
| Crc16.CrcUpdate | TouchLib.h:579-597 | the mask loop computes the reference byte update: eight register steps from bit 7 down, XORing 0x1021 when the outgoing top bit differs from the message bit; the result is a 16-bit value |
| Crc16.CrcOfAppend | TouchLib.h:579-597 | folding crcUpdate over s then t is folding it over s + t |
| Crc16.CheckValueFromZero | TouchLib.h:579-597 | folded from register 0, as writer and reader start it, over ASCII "123456789" the CRC is 0x31C3, the CRC-16/XMODEM check value |
| Crc16.CheckValueFromCommentedXorIn | TouchLib.h:562-576 | from the documented initial value 0x1d0f the same message gives 0xE5CC, so the code does not compute the documented parameter set |
| Packing.FloatBytesAt | TouchLib.h:664-669 | the j-th byte written is byte 3 - j of the pattern (most significant first) |
| Packing.FloatRoundTrip | TouchLib.h:629-671 | reading back the four bytes writeFloatToEeprom emits gives the same 32-bit pattern |
| Packing.BytesRoundTrip | TouchLib.h:629-671 | writing the pattern readFloatFromEeprom assembles gives back the four bytes read |
| TouchLib.Sensors.EepromUpdate | TouchLib.h:618-626 | the cell holds b afterwards and no other cell changes; a cell that already holds b is not written |
| TouchLib.Sensors.WriteFloat | TouchLib.h:654-671 | the four pattern bytes are stored at addr, the cursor advances by 4 and the CRC folds those bytes in order |
| TouchLib.Sensors.ReadFloat | TouchLib.h:629-651 | the pattern assembled from the four bytes at addr, the cursor advanced by 4 and the CRC folded over the same bytes |
| SettingsSpec.ChannelBytesAt | TouchLib.h:700-718 | threshold j of a channel section sits at 4 * j, in the order releasedToApproached, approachedToReleased, approachedToPressed, pressedToApproached |
| SettingsSpec.ApplyChannelBytes | TouchLib.h:674-718 | reading a channel section its own writer produced restores that channel exactly |
| TouchLib.Sensors.WriteSensorSetting | TouchLib.h:700-718 | the 16 bytes of the channel's four thresholds are stored at addr, the cursor advances by 16 and the CRC folds them |
| TouchLib.Sensors.ReadSensorSetting | TouchLib.h:674-697 | the cursor advances by 16 and the CRC folds the 16 bytes read. With applySettings the channel takes the four thresholds read; without it no channel changes |
| SettingsSpec.WriteEffect | TouchLib.h:721-767 | the writer succeeds exactly when no error was pending, nSensors - 1 fits in 5 bits, the blob fits and the first cell is 0xC7 or 0xFF. On success it stores the blob at the offset and leaves every cell outside it alone; on error (-28, -5 or the pending one) the EEPROM is unchanged |
| SettingsSpec.BlobLayout | TouchLib.h:748-764 | the blob is 0xC7, the descriptor (version 0, nSensors - 1), threshold j of channel i at 2 + 16 i + 4 j, then the CRC of all preceding bytes, high byte first |
| SettingsSpec.DescriptorFields | TouchLib.h:753-755 | the descriptor announces format version 0 and the channel count |
| TouchLib.Sensors.WriteSettings | TouchLib.h:727-767 | the EEPROM contents and the error afterwards are those WriteSpec gives |
| TouchLib.Sensors.WriteBlob | TouchLib.h:748-765 | the blob WrittenBlob describes is stored at the offset |
| TouchLib.Sensors.WriteHead | TouchLib.h:748-757 | key and descriptor are stored and folded, the cursor is at offset + 2 |
| TouchLib.Sensors.WriteSections | TouchLib.h:759-761 | the sections of all channels are stored after the head and the CRC covers head and sections |
| TouchLib.Sensors.WriteSection | TouchLib.h:760 | the section of channel n extends the stored prefix and the CRC by 16 bytes |
| TouchLib.Sensors.WriteCrc | TouchLib.h:763-764 | the CRC high byte and then low byte complete the blob |
| SettingsSpec.ReadOutcome | TouchLib.h:770-854 | the reader succeeds exactly when no error was pending, the count fits, the blob fits, the key, version and count match and the CRC matches. On every error no channel changes, so no threshold and no slew-rate flag |
| SettingsSpec.ReadSuccess | TouchLib.h:835-852 | a successful read applies the section after offset + 2 and the slew-rate bit of the byte at offset + 2 |
| SettingsSpec.ReadAppliesChannel | TouchLib.h:835-852 | on success channel i takes the four thresholds at offset + 3 + 16 i and every channel takes bit 0x80 of the byte at offset + 2 as its slew-rate flag; nothing else changes |
| SettingsSpec.CrcBytes | TouchLib.h:825-828 | the two stored CRC bytes, high then low, give back the CRC |
| TouchLib.Sensors.ReadSettings | TouchLib.h:770-854 | the channels and the error afterwards are those ReadSpec gives |
| TouchLib.Sensors.ReadBlob | TouchLib.h:791-852 | with a fitting blob, the read succeeds and applies the settings exactly when the reader's checks pass; otherwise error -5 and the channels unchanged |
| TouchLib.Sensors.ReadHeader | TouchLib.h:791-815 | error stays 0 exactly when key, version and count match, else -5; the CRC then holds key, descriptor and the descriptor again |
| TouchLib.Sensors.CheckAndApply | TouchLib.h:817-852 | after the header, the settings are applied exactly when the CRC matches; otherwise -5 and the channels unchanged |
| TouchLib.Sensors.CheckCrc | TouchLib.h:817-833 | the dummy pass changes no channel, and the error stays 0 exactly when the CRC matches, else -5 |
| TouchLib.Sensors.CheckSections | TouchLib.h:821-823 | the dummy pass folds all sections into the CRC and changes no channel |
| TouchLib.Sensors.CompareCrc | TouchLib.h:825-832 | error stays 0 exactly when the computed CRC equals the stored one, else -5 |
| TouchLib.Sensors.ApplySettings | TouchLib.h:835-851 | the channels after the applying pass and the slew-rate loop are those ReadApply gives |
| TouchLib.Sensors.ApplySections | TouchLib.h:839-841 | every channel takes the thresholds of its section |
| TouchLib.Sensors.SetSlewRates | TouchLib.h:843-851 | every channel's slew-rate flag is the configuration bit |
| SettingsSpec.WriteThenReadShifted | TouchLib.h:748-854 | as written, a blob the writer stores is read one byte off: a successful read gives channel 0 the pattern 0x48000042 instead of 50.0 and a clear slew-rate flag |
| SettingsSpec.FixedRoundTrip | TouchLib.h:727-854 | with the configuration byte written and folded on both sides, a successful write is read back exactly (all thresholds and the shared slew-rate flag) |
| StateSpec.SetStateNoOp | TouchLib.h:1117-1123 | setState changes nothing and reports nothing while the channel is being changed or already in the requested state |
| StateSpec.SetStateEffect | TouchLib.h:1107-1208 | otherwise the channel takes the target state: PreCalibrating when its own mask bit is set, else the requested one. Entering Calibrating resets the filter. The change time is stamped except when falling back from ApproachedToReleased or PressedToApproached without a self-reset. Every sibling is fanned out as SiblingAfter says, and the last callback reports (ch, old state, target) |
| StateSpec.SetStateIsFannedThenWritten | TouchLib.h:1139-1207 | setState is the fan-out followed by the final write of the channel and its callback |
| StateSpec.FannedEffect | TouchLib.h:1139-1194 | before the final write the channel is entered (guard set, state unchanged) and each sibling is reset exactly when the transition's mask holds its bit |
| StateSpec.SettledEntered | TouchLib.h:1140-1206 | entering then settling a channel gives the calibration reset (for Calibrating), the target and the stamp, with the guard clear again |
| StateSpec.FannedKeepsOwnState | TouchLib.h:1139-1194 | the fan-out leaves the channel's own state as it was |
| StateSpec.SetStateOwnChannel | TouchLib.h:1139-1201 | the channel's state is the target only when it changes; counter and average are zeroed exactly when entering Calibrating; the filter settings and the guard are kept |
| StateSpec.SetStateKeepsQuiescent | TouchLib.h:1117-1206 | if no channel is marked as being changed before setState, none is after it (the guard is always cleared) |
| StateSpec.SetStateKeepsSampling | TouchLib.h:1107-1208 | setState writes no raw count, capacitance, charge count or sample time on any channel |
| StateSpec.ResetToPreCalibrating | TouchLib.h:1036 | setState(n, PreCalibrating) touches channel n only, resetting it unless it is being changed or already PreCalibrating, and reports that change alone |
| StateSpec.ResetEvents | TouchLib.h:1036 | the only callback a sibling reset makes reports channel n leaving another state for PreCalibrating |
| StateSpec.FanOutEffect | TouchLib.h:1024-1042 | the fan-out resets exactly the siblings whose mask bit is set and leaves every other channel, the caller included, as it was |
| StateSpec.FanOutEvents | TouchLib.h:1024-1042 | the fan-out only reports siblings other than the caller entering PreCalibrating from another state |
| TouchLib.Sensors.SetState | TouchLib.h:1107-1208 | the channels and the callback log afterwards are those SetStateSpec gives |
| TouchLib.Sensors.ChangeState | TouchLib.h:1139-1207 | the change part of setState, as SetStateSpec |
| TouchLib.Sensors.BeginChange | TouchLib.h:1140-1194 | the channel is entered and fanned out; the self-reset flag and the adjusted target are reported |
| TouchLib.Sensors.FanOutIfMasked | TouchLib.h:1191-1194 | the fan-out runs only for a non-zero mask; the self-reset flag is the caller's mask bit |
| TouchLib.Sensors.EnterState | TouchLib.h:1139-1189 | the channel is marked and prepared for the requested state, and the mask the transition selects is returned |
| TouchLib.Sensors.FinishChange | TouchLib.h:1196-1206 | the stamp, the target and the cleared guard are stored and one callback is logged |
| TouchLib.Sensors.SetForceCalibratingStates | TouchLib.h:1024-1042 | the siblings are fanned out as FanOut says; the result is the caller's own mask bit, and the target becomes PreCalibrating exactly then |
| TouchLib.Sensors.ForceSibling | TouchLib.h:1031-1037 | one masked sibling is reset by setState |
| StateSpec.RunningAverageBetween | TouchLib.h:1008 | the running mean lies between the old average and the new sample, and equals the sample when the counter is 0 |
| StateSpec.AvgUpdatedProperties | TouchLib.h:995-1021 | updateAvg changes nothing while frozen by the disable flags and the global flags. Otherwise the counter counts up to filterCoeff - 1 and then saturates; the average moves toward the capacitance, and the state is kept |
| StateSpec.AvgUpdatedFrame | TouchLib.h:995-1021 | updateAvg writes only the average, the noise power and the counter |
| StateSpec.AvgUpdatedFields | TouchLib.h:1008-1020 | the average and (past Calibrating, when enabled) the noise power are the running means; the counter is incremented below its limit |
| TouchLib.Sensors.UpdateAvg | TouchLib.h:995-1021 | the channel afterwards is the one AvgUpdated gives |
| TouchLib.Sensors.UpdateAvgAtChannel | TouchLib.h:1234 | updateAvg on channel ch |
| StateSpec.NextStatePreCalibrating | TouchLib.h:1211-1220 | processStatePreCalibrating moves the channel to the state the transition table gives |
| StateSpec.NextStateCalibrating | TouchLib.h:1223-1242 | processStateCalibrating moves the channel to the state the transition table gives |
| StateSpec.NextStateNoisePowerMeasurement | TouchLib.h:1245-1260 | processStateNoisePowerMeasurement moves the channel to the state the transition table gives |
| StateSpec.NextStateReleased | TouchLib.h:1263-1274 | processStateReleased moves the channel to the state the transition table gives |
| StateSpec.NextStateReleasedToApproached | TouchLib.h:1277-1296 | processStateReleasedToApproached moves the channel to the state the transition table gives |
| StateSpec.NextStateApproached | TouchLib.h:1299-1316 | processStateApproached checks released first, then pressed, then the timeout (only when non-zero and exceeded), as the table gives |
| StateSpec.NextStateApproachedToPressed | TouchLib.h:1319-1338 | processStateApproachedToPressed moves the channel to the state the transition table gives |
| StateSpec.NextStateApproachedToReleased | TouchLib.h:1341-1358 | processStateApproachedToReleased moves the channel to the state the transition table gives |
| StateSpec.NextStatePressed | TouchLib.h:1361-1378 | processStatePressed moves the channel to the state the transition table gives |
| StateSpec.NextStatePressedToApproached | TouchLib.h:1381-1398 | processStatePressedToApproached moves the channel to the state the transition table gives |
| StateSpec.ProcessSampleNextState | TouchLib.h:1401-1446 | processSample computes the delta and then moves the channel to the state the independent transition table NextState gives |
| StateSpec.TouchStateMachineOffFreezes | TouchLib.h:1263-1398 | with the touch state machine off, a channel in Released or a later state keeps its state |
| StateSpec.CalibrationEnd | TouchLib.h:1223-1242 | once the calibration time has passed, Calibrating moves to NoisePowerMeasurement, stamps the change time, and takes the average as parallel capacitance unless it is set manually |
| StateSpec.ProcessSampleFilter | TouchLib.h:1211-1446 | in PreCalibrating, in Released when the touch state machine is on and the channel is approached, and in every state past Released, the average and counter are untouched unless the channel is recalibrated (then Calibrating with average and counter 0); the counter never exceeds filterCoeff - 1 once within it |
| StateSpec.DispatchStep | TouchLib.h:1211-1443 | every handler takes one of four steps: it stays, updates the filter (only in Calibrating, NoisePowerMeasurement, and Released when the touch state machine does not move the channel on), ends calibration, or calls setState once |
| StateSpec.ProcessSampleKeepsQuiescent | TouchLib.h:1401-1446 | processSample leaves no channel marked as being changed |
| StateSpec.ProcessSampleKeepsSampling | TouchLib.h:1401-1446 | processSample writes no raw count, capacitance, charge count or sample time on any channel |
| TouchLib.Sensors.ProcessStatePreCalibrating | TouchLib.h:1211-1220 | the channels and log afterwards are those ProcessPreCalibrating gives |
| TouchLib.Sensors.ProcessStateCalibrating | TouchLib.h:1223-1242 | the channels and log afterwards are those ProcessCalibrating gives |
| TouchLib.Sensors.ProcessStateNoisePowerMeasurement | TouchLib.h:1245-1260 | the channels and log afterwards are those ProcessNoisePowerMeasurement gives |
| TouchLib.Sensors.ProcessStateReleased | TouchLib.h:1263-1274 | the channels and log afterwards are those ProcessReleased gives |
| TouchLib.Sensors.ProcessStateReleasedToApproached | TouchLib.h:1277-1296 | the channels and log afterwards are those ProcessReleasedToApproached gives |
| TouchLib.Sensors.ProcessStateApproached | TouchLib.h:1299-1316 | the channels and log afterwards are those ProcessApproached gives |
| TouchLib.Sensors.ProcessStateApproachedToPressed | TouchLib.h:1319-1338 | the channels and log afterwards are those ProcessApproachedToPressed gives |
| TouchLib.Sensors.ProcessStateApproachedToReleased | TouchLib.h:1341-1358 | the channels and log afterwards are those ProcessApproachedToReleased gives |
| TouchLib.Sensors.ProcessStatePressed | TouchLib.h:1361-1378 | the channels and log afterwards are those ProcessPressed gives |
| TouchLib.Sensors.ProcessStatePressedToApproached | TouchLib.h:1381-1398 | the channels and log afterwards are those ProcessPressedToApproached gives |
| TouchLib.Sensors.ProcessSample | TouchLib.h:1401-1446 | the channels and log afterwards are those ProcessSampleSpec gives |
| TouchLib.Sensors.RunHandler | TouchLib.h:1409-1443 | the handler of the channel's current state runs, as Dispatch |
| CycleSpec.AddSampleEffect | TouchLib.h:924-941 | without the slew limiter raw += sample; with it the first sample of a cycle sets raw, and each later one moves raw one unit toward the sample or leaves it when equal |
| CycleSpec.SlewNeverOvershoots | TouchLib.h:926-937 | with the slew limiter raw never passes the sample |
| TouchLib.Sensors.AddSample | TouchLib.h:924-941 | only channel ch changes, as AddSampleSpec says |
| TouchLib.Sensors.ResetRaws | TouchLib.h:1515-1518 | every channel's raw count is 0 and its first-sample flag set |
| CycleSpec.ScanPassStep | TouchLib.h:1520-1550 | one slot moves the two carried halves on and adds their sum to the slot's channel |
| CycleSpec.ScanPassFrame | TouchLib.h:1520-1550 | the slot loop writes only the raw count and the first-sample flag |
| CycleSpec.ScanPassSums | TouchLib.h:1520-1550 | without the slew limiter a channel's raw count is the sum of its slots' totals |
| CycleSpec.DifferentialSlot | TouchLib.h:1521-1548 | a differential slot adds the normal reading and the complemented inverted reading, whatever came before |
| TouchLib.Sensors.ScanSlots | TouchLib.h:1520-1550 | the channels after the slot loop are those ScanPass gives |
| TouchLib.Sensors.ScanSlot | TouchLib.h:1521-1549 | one slot: the carried halves and the channels advance by one step of ScanPass |
| CycleSpec.CarryLeaks | TouchLib.h:1508-1548 | as written, a normal-only slot after a differential one adds the stale inverted half: 1823 instead of 2 * 600 |
| CycleSpec.FreshSlotIsLocal | TouchLib.h:1535-1546 | the intended slot sum gives each sample type the same amplitude and depends only on the slot's own channel and readings |
| CycleSpec.AllDifferentialAgrees | TouchLib.h:1520-1550 | where every channel is differential, the as-written and intended slot sums agree |
| CycleSpec.ClampCharges | TouchLib.h:1467-1473 | the next charge count always lies in the compile-time bounds [1, 1], and a stored value already within them is kept |
| TouchLib.Sensors.CorrectSample | TouchLib.h:1449-1483 | only channel ch changes: its capacitance and clamped next charge count come from the transfer function |
| CycleSpec.ProcessPassStep | TouchLib.h:1554-1558 | one more turn of the processing loop stamps channel k with now, corrects it and runs processSample on it |
| CycleSpec.PassTurnEffect | TouchLib.h:1554-1558 | turn k stamps channel k, keeps every other channel's sampling fields, and marks no channel as being changed |
| CycleSpec.ProcessPassStamps | TouchLib.h:1554-1558 | after n turns channels below n carry the new time and next charge count 1, and the others keep their previous cycle's sample time and measurement |
| CycleSpec.ProcessPassKeepsQuiescent | TouchLib.h:1554-1558 | the processing loop leaves no channel marked as being changed |
| TouchLib.Sensors.ProcessChannels | TouchLib.h:1554-1558 | the channels and log afterwards are those ProcessPass gives |
| TouchLib.Sensors.ProcessChannel | TouchLib.h:1555-1557 | one turn of the processing loop |
| CycleSpec.WithSummariesTwice | TouchLib.h:1495-1501 | clearing the summaries before setting them leaves no trace |
| TouchLib.Sensors.ResetButtonStateSummaries | TouchLib.h:1495-1501 | channel ch's four summary flags are cleared and nothing else changes |
| CycleSpec.SummaryOfOrdinal | TouchLib.h:1564-1580 | the summary table agrees with the numeric comparisons: calibrating iff state <= 2, released iff 3 <= state <= 4, approached iff state >= 5, pressed iff state >= 8 |
| CycleSpec.SummaryPartition | TouchLib.h:1562-1584 | each channel is exactly one of calibrating, released or approached, pressed implies approached, and the state is kept |
| CycleSpec.SummarizedFlags | TouchLib.h:1573-1580 | the approached and pressed flags of a channel follow its state |
| CycleSpec.SummarizedUpToAll | TouchLib.h:1562-1584 | after the summary loop every channel is summarized |
| CycleSpec.AnyApproachedExactly | TouchLib.h:1560-1576 | anyButtonIsApproached holds exactly when some channel's state is at least Approached |
| CycleSpec.AnyPressedExactly | TouchLib.h:1560-1580 | anyButtonIsPressed holds exactly when some channel's state is at least Pressed |
| CycleSpec.SummaryFlagsAll | TouchLib.h:1560-1584 | the global flags are the disjunctions of the per-channel flags |
| TouchLib.Sensors.Summarize | TouchLib.h:1560-1584 | all channels summarized and the global flags set from them |
| TouchLib.Sensors.SummarizeTurn | TouchLib.h:1563-1583 | one turn of the summary loop |
| TouchLib.Sensors.SummarizeChannel | TouchLib.h:1563-1583 | channel ch's flags and charge count after one turn |
| CycleSpec.ScanKeepsSetup | TouchLib.h:1515-1550 | the slot loop keeps the guard and the sample method of every channel |
| CycleSpec.SampleEffect | TouchLib.h:1504-1587 | after sample() every channel carries the new sample time, default-method channels charge count 1, the global flags are the disjunctions of the channel flags, and no channel is marked as being changed |
| TouchLib.Sensors.Sample | TouchLib.h:1504-1587 | the channels, log and global flags afterwards are those SampleSpec gives, and the pending error is returned |

## Left out

- Floating-point numerics: capacitance, average, delta, noise power and parallel capacitance are reals. The running means of `updateAvg` are exact, and the transfer function of `correctSample` (`pow`, `ceilf`, scaling) is the parameter `transfer`. Distance is not modelled.
- Randomness: `random`/`randomSeed` are replaced by an arbitrary sequence of offsets. The reproducibility of Arduino's seeded generator cannot be stated here.
- Clock and sampling: `millis()` is the parameter `now`, and the sample methods (TLSampleMethodResistive.cpp, the custom method hooks) are the per-slot readings `normal` and `inverted`. Pin configuration and `analogRead` are not modelled.
- EEPROM primitives: `EEPROM.read`/`EEPROM.write` are element access and update on the field `eeprom`; `EEPROM_length` is its length. Builds without EEPROM support are not modelled, except the compile-time default of `enableReadSettingsFromEeprom`, which SetDefaults takes as a parameter.
- The constructor, `printScanOrder`, the getters, the state labels and `buttonStateLabel` are not modelled; the callback's body is foreign code, and only its calls are logged.
- Custom scan orders: `useCustomScanOrder` is always its default, false, so `setDefaults` always calls `initScanOrder`; resetting the callback pointer to NULL is not modelled.
- Per-channel pins, `sampleMethod` pointers (only whether a channel uses the default method), reference capacitance and the other physical constants are not fields of the model.
- ButtonState: the ten states form a closed datatype, so the `default:` branches for an illegal state are not modelled: `setState` mapping one to PreCalibrating (TouchLib.h:1186-1188) and `processSample` running `processStateCalibrating` on one (TouchLib.h:1440-1442). No modelled operation stores any other value.
- TouchLib.Sensors.eepromOffset: a `nat`, where the source has an `int` (TouchLib.h:234). A negative offset passes the size checks of `writeSettings` and `readSettings` (TouchLib.h:739, 787) and addresses cells below the blob; the model has no EEPROM cells at negative addresses.
- StateSpec.CounterLimit: follows a target with 32-bit `int`, where `filterCoeff - 1` with `filterCoeff == 0` is -1 and compares as 0xFFFFFFFF (TouchLib.h:1018). On AVR, `uint16_t` promotes to a 16-bit `unsigned int`, so the limit there is 0xFFFF; that variant is not modelled.
- StateSpec.RunningMean: divides by the exact `counter + 1`. In the source `d->counter + 1` is a 32-bit unsigned sum (TouchLib.h:1008, 1014), which wraps to 0 once the counter reaches 0xFFFFFFFF (possible only with `filterCoeff == 0` on a 32-bit `int` target); that float division by zero is not modelled.
- TouchLib.Sensors.Valid: restricted to 2 to 15 channels. `1 << n` on a 16-bit `int` is only defined below 15, so mask bits are modelled for those counts only.
- CycleSpec.SlotStep: the readings and sums are unbounded integers; a 16-bit overflow of a doubled sample on 8-bit boards is not modelled.
- StateSpec.NextState: the transition table is checked against the handlers for the channel's own state only. Siblings reset during the same cycle are described by SetStateEffect and FanOutEffect.
- TouchLib.Sensors.SetDefaults: states the channel records through DefaultAll and the defaults listed in Channel.Defaulted. Defaults of fields the model does not hold (pins, sample method pointers, physical constants) are not stated.

## Findings

| source | as written | input that shows it | evidently intended | confidence | as-written member | corrected member |
|---|---|---|---|---|---|---|
| TouchLib.h:748-806 | the writer stores key, descriptor, thresholds and CRC with no configuration byte; the reader expects a configuration byte at offset + 2 and folds the descriptor into its CRC a second time in its place | any blob the writer stores, e.g. channel 0 with thresholds 50.0 and 40.0: the reader's CRC check then covers shifted bytes, so the read is rejected with -5 unless the checks happen to pass, and a read that passes gives channel 0 the pattern 0x48000042 and clears the slew-rate flag | the writer stores a configuration byte (bit 0x80 the slew-rate limiter), which fills the reserved size eepromSizeRequired counts, and the reader folds that byte, so that a write is read back exactly | medium, not executed | SettingsSpec.WriteThenReadShifted | SettingsSpec.FixedRoundTrip |
| TouchLib.h:1508-1548 | `sample1` and `sample2` are declared once per cycle and not reset per slot, so a normal-only or inverted-only slot adds the other half left over from an earlier slot | a differential channel's slot (readings 500, 400) followed by a normal-only channel's slot (reading 600): the second total is 1823, not 2 * 600 | each slot's total depends only on its own readings: twice the single-ended reading, or both differential halves | medium, not executed | CycleSpec.CarryLeaks | CycleSpec.FreshSlotIsLocal |

The class `Sensors` keeps the behaviour as written, so its contracts
describe what the device does. The corrected definitions (FixedWrite,
FixedRead and FreshSlot) stand beside it with their own proofs.
