/** The per-channel record of the touch library (TLStruct, TouchLib.h:56-224)
    restricted to the members the sensor core reads or writes, and the
    small value types around it. */
module Channel {
  import opened Binary32

  /** Unsigned 32-bit quantities: timestamps, dwell times, masks, counters. */
  type u32 = x: int | 0 <= x < 0x1_0000_0000
  /** Unsigned 16-bit quantities: the filter coefficient. */
  type u16 = x: int | 0 <= x < 0x1_0000

  /** The ten button states, in the order of their numeric values 0..9. */
  datatype ButtonState =
    | PreCalibrating
    | Calibrating
    | NoisePowerMeasurement
    | Released
    | ReleasedToApproached
    | Approached
    | ApproachedToPressed
    | ApproachedToReleased
    | Pressed
    | PressedToApproached

  /** The numeric value of a state, which the summary flags compare. */
  function Ordinal(s: ButtonState): (k: nat)
    ensures k < 10
  {
    match s
    case PreCalibrating => 0
    case Calibrating => 1
    case NoisePowerMeasurement => 2
    case Released => 3
    case ReleasedToApproached => 4
    case Approached => 5
    case ApproachedToPressed => 6
    case ApproachedToReleased => 7
    case Pressed => 8
    case PressedToApproached => 9
  }

  /** Whether touching raises (Positive) or lowers (Negative) the reading. */
  datatype Direction = Positive | Negative

  /** Normal is binary 01, Inverted binary 10, Differential both. */
  datatype SampleType = Normal | Inverted | Differential

  /** sampleType & sampleTypeNormal and sampleType & sampleTypeInverted. */
  predicate HasNormal(t: SampleType) { t != Inverted }
  predicate HasInverted(t: SampleType) { t != Normal }

  /** One channel.  Thresholds are binary32 bit patterns; capacitance,
      average, delta, noise power and parallel capacitance are reals. */
  datatype Channel = Channel(
    direction: Direction,
    sampleType: SampleType,
    releasedToApproachedThreshold: bv32,
    approachedToReleasedThreshold: bv32,
    approachedToPressedThreshold: bv32,
    pressedToApproachedThreshold: bv32,
    releasedToApproachedTime: u32,
    approachedToReleasedTime: u32,
    approachedToPressedTime: u32,
    pressedToApproachedTime: u32,
    enableSlewrateLimiter: bool,
    preCalibrationTime: u32,
    calibrationTime: u32,
    approachedTimeout: u32,
    pressedTimeout: u32,
    filterCoeff: u16,
    forceCalibrationWhenReleasingFromApproached: u32,
    forceCalibrationWhenApproachingFromReleased: u32,
    forceCalibrationWhenApproachingFromPressed: u32,
    forceCalibrationWhenPressing: u32,
    setParallelCapacitanceManually: bool,
    disableUpdateIfAnyButtonIsApproached: bool,
    disableUpdateIfAnyButtonIsPressed: bool,
    parallelCapacitance: real,
    enableTouchStateMachine: bool,
    enableNoisePowerMeasurement: bool,
    usesDefaultSampleMethod: bool,
    raw: int,
    capacitance: real,
    avg: real,
    delta: real,
    noisePower: real,
    buttonState: ButtonState,
    buttonIsCalibrating: bool,
    buttonIsReleased: bool,
    buttonIsApproached: bool,
    buttonIsPressed: bool,
    counter: u32,
    nCharges: u32,
    nChargesNext: u32,
    lastSampledAtTime: u32,
    stateChangedAtTime: u32,
    slewrateFirstSample: bool,
    stateIsBeingChanged: bool)

  /** The unsigned 32-bit difference now - then, as the state machine
      computes elapsed time since a stamp (it wraps around when the clock does). */
  function Elapsed(now: u32, since: u32): (t: u32)
    ensures now >= since ==> t == now - since
    ensures now < since ==> t == now - since + 0x1_0000_0000
  {
    (now - since) % 0x1_0000_0000
  }

  /** Time spent in the current state at the last sample. */
  function TimeInState(d: Channel): u32
  {
    Elapsed(d.lastSampledAtTime, d.stateChangedAtTime)
  }

  /** mask & (1 << n): bit n of the mask. */
  predicate MaskBit(mask: u32, n: nat)
  {
    (mask / Pow2(n)) % 2 == 1
  }

  /** The delta as the direction sees it: mirrored for a negative
      direction. */
  function SignedDelta(d: Channel): real
  {
    if d.direction == Positive then d.delta else -d.delta
  }

  /** isReleased (TouchLib.h:943-958): delta, or -delta for a negative
      direction, is at most approachedToReleasedThreshold. */
  predicate IsReleased(d: Channel)
  {
    AtMost(SignedDelta(d), d.approachedToReleasedThreshold)
  }

  /** isApproached (TouchLib.h:960-975). */
  predicate IsApproached(d: Channel)
  {
    AtLeast(SignedDelta(d), d.releasedToApproachedThreshold)
  }

  /** isPressed (TouchLib.h:977-992). */
  predicate IsPressed(d: Channel)
  {
    AtLeast(SignedDelta(d), d.approachedToPressedThreshold)
  }

  /** With finite thresholds the three tests are the plain comparisons of
      the signed delta; a negative direction mirrors the delta. */
  lemma DirectionalTests(d: Channel)
    requires Decode(d.approachedToReleasedThreshold).Number?
    requires Decode(d.releasedToApproachedThreshold).Number?
    requires Decode(d.approachedToPressedThreshold).Number?
    ensures IsReleased(d) <==> SignedDelta(d) <= Decode(d.approachedToReleasedThreshold).r
    ensures IsApproached(d) <==> SignedDelta(d) >= Decode(d.releasedToApproachedThreshold).r
    ensures IsPressed(d) <==> SignedDelta(d) >= Decode(d.approachedToPressedThreshold).r
    ensures d.direction == Negative ==> SignedDelta(d) == -d.delta
  {
  }

  /** With the default thresholds and a positive direction: a delta of 150
      or more is pressed and approached, one of 40 or less is released, and
      the 40..50 band is neither released nor approached. */
  lemma DefaultBands(d: Channel)
    requires d.direction == Positive
    requires d.releasedToApproachedThreshold == Fifty
    requires d.approachedToReleasedThreshold == Forty
    requires d.approachedToPressedThreshold == HundredFifty
    ensures d.delta >= 150.0 ==> IsPressed(d) && IsApproached(d) && !IsReleased(d)
    ensures d.delta <= 40.0 ==> IsReleased(d) && !IsApproached(d) && !IsPressed(d)
    ensures 40.0 < d.delta < 50.0 ==> !IsReleased(d) && !IsApproached(d)
  {
    DefaultThresholdValues();
  }

  /** The configuration setDefaults (TouchLib.h:449-560) gives a channel:
      positive direction, differential sampling, thresholds 50/40/150/120,
      dwell times of 10 ms, 100 ms pre-calibration, 500 ms calibration,
      filter coefficient 128, five-minute timeouts, no forced
      calibrations, and the parallel capacitance cleared because it is not
      set by hand.  Members the record does not hold (pin, reference
      capacitance, scale factors, area) are left out. */
  function Defaulted(d: Channel): Channel
  {
    d.(direction := Positive,
       sampleType := Differential,
       releasedToApproachedThreshold := Fifty,
       approachedToReleasedThreshold := Forty,
       approachedToPressedThreshold := HundredFifty,
       pressedToApproachedThreshold := HundredTwenty,
       releasedToApproachedTime := 10,
       approachedToReleasedTime := 10,
       approachedToPressedTime := 10,
       pressedToApproachedTime := 10,
       enableSlewrateLimiter := false,
       preCalibrationTime := 100,
       calibrationTime := 500,
       filterCoeff := 128,
       approachedTimeout := 300000,
       pressedTimeout := 300000,
       forceCalibrationWhenReleasingFromApproached := 0,
       forceCalibrationWhenApproachingFromReleased := 0,
       forceCalibrationWhenApproachingFromPressed := 0,
       forceCalibrationWhenPressing := 0,
       enableTouchStateMachine := true,
       enableNoisePowerMeasurement := false,
       parallelCapacitance := 0.0,
       setParallelCapacitanceManually := false,
       disableUpdateIfAnyButtonIsApproached := true,
       disableUpdateIfAnyButtonIsPressed := true,
       stateIsBeingChanged := false,
       usesDefaultSampleMethod := true)
  }

  /** Every channel with the default configuration. */
  function DefaultAll(ds: seq<Channel>): (r: seq<Channel>)
    ensures |r| == |ds| && forall i :: 0 <= i < |ds| ==> r[i] == Defaulted(ds[i])
  {
    seq(|ds|, i requires 0 <= i < |ds| => Defaulted(ds[i]))
  }

  /** The default thresholds form hysteresis bands: the release threshold
      (40) lies below the approach threshold (50) and the pressed-to-approached
      one (120) below the approached-to-pressed one (150), so whatever the delta a
      defaulted channel is never both released and approached, and a
      pressed reading is also an approached one. */
  lemma DefaultedHysteresis(d: Channel)
    ensures var r := Defaulted(d);
      && Decode(r.approachedToReleasedThreshold) == Number(40.0)
      && Decode(r.releasedToApproachedThreshold) == Number(50.0)
      && Decode(r.pressedToApproachedThreshold) == Number(120.0)
      && Decode(r.approachedToPressedThreshold) == Number(150.0)
      && !(IsReleased(r) && IsApproached(r))
      && (IsPressed(r) ==> IsApproached(r))
      && !r.stateIsBeingChanged && r.parallelCapacitance == 0.0
  {
    DefaultThresholdValues();
  }
}
