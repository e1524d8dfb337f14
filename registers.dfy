/**
 * The expansion board's register map, its status codes, the channel
 * selection rule and the byte encodings the driver puts on the bus.
 * Everything here is pure: the driver class in module Board uses these
 * definitions to say what it writes and what it returns.
 */
module Registers {

  /** A value the bus carries in one byte. */
  type Byte = x: int | 0 <= x < 0x100

  // Channel counts
  const PwmChanCount := 4
  const AdcChanCount := 4

  // Register offsets
  const RegSlaveAddr := 0x00
  const RegPid := 0x01
  const RegVid := 0x02
  const RegPwmControl := 0x03
  const RegPwmFreq := 0x04
  const RegPwmDuty1 := 0x06
  const RegPwmDuty2 := 0x08
  const RegPwmDuty3 := 0x0a
  const RegPwmDuty4 := 0x0c
  const RegAdcCtrl := 0x0e
  const RegAdcVal1 := 0x0f
  const RegAdcVal2 := 0x11
  const RegAdcVal3 := 0x13
  const RegAdcVal4 := 0x15

  // Identification bytes a genuine board answers with
  const DefPid := 0xdf
  const DefVid := 0x01

  /** The outcome of the last operation, overwritten by every operation. */
  datatype Status = Ok | Err | DeviceNotDetected | SoftVersion | ParameterError

  /** The numeric code the driver publishes for each status. */
  function Code(s: Status): (c: int)
    ensures 0 <= c <= 4
    ensures c == 0 <==> s == Ok
  {
    match s
    case Ok => 0x00
    case Err => 0x01
    case DeviceNotDetected => 0x02
    case SoftVersion => 0x03
    case ParameterError => 0x04
  }

  lemma CodeInjective(s: Status, t: Status)
    ensures Code(s) == Code(t) ==> s == t
  {
  }

  /*
   * Channel selection
   */

  /** A channel request: every channel, or an explicit list of 1-based indices. */
  datatype Channels = All | Ids(ids: seq<int>)

  /** Every channel of a block of `limit` channels, in ascending order. */
  function ChannelRange(limit: nat): (r: seq<int>)
    ensures |r| == limit
    ensures forall c :: c in r <==> 1 <= c <= limit
    ensures forall i, j :: 0 <= i < j < |r| ==> r[i] < r[j]
  {
    var r := seq(limit, k => k + 1);
    RangeHolds(limit, r);
    r
  }

  lemma RangeHolds(limit: nat, r: seq<int>)
    requires |r| == limit && forall k :: 0 <= k < limit ==> r[k] == k + 1
    ensures forall c :: c in r <==> 1 <= c <= limit
  {
    forall c | 1 <= c <= limit
      ensures c in r
    {
      assert r[c - 1] == c;
    }
  }

  /** True when every requested index names one of `limit` channels. */
  predicate IdsValid(limit: nat, ids: seq<int>)
  {
    forall k :: 0 <= k < |ids| ==> 1 <= ids[k] <= limit
  }

  /** True when a request names a channel that does not exist. */
  predicate ParseError(limit: nat, req: Channels)
  {
    req.Ids? && !IdsValid(limit, req.ids)
  }

  /**
   * The channels an operation acts on: the whole range for All, the list
   * itself when every index is valid, and nothing at all as soon as one
   * index is out of range.
   */
  function Resolve(limit: nat, req: Channels): (r: seq<int>)
    ensures IdsValid(limit, r)
    ensures req.All? ==> r == ChannelRange(limit)
    ensures req.All? ==> |r| == limit && forall c :: c in r <==> 1 <= c <= limit
    ensures req.Ids? ==> (r == req.ids <==> !ParseError(limit, req))
    ensures ParseError(limit, req) ==> r == []
  {
    match req
    case All => ChannelRange(limit)
    case Ids(ids) => if IdsValid(limit, ids) then ids else []
  }

  /*
   * PWM frequency: a 16-bit value sent high byte first
   */

  predicate FrequencyInRange(freq: int)
  {
    1 <= freq <= 1000
  }

  /**
   * The two bytes written for a frequency: `freq >> 8` and `freq & 0xff`,
   * which on a non-negative integer are its quotient and remainder by 0x100.
   */
  function FrequencyBytes(freq: int): (b: seq<Byte>)
    requires FrequencyInRange(freq)
    ensures |b| == 2
    ensures b[0] as int * 0x100 + b[1] as int == freq
    ensures b[0] <= 3
  {
    [freq / 0x100, freq % 0x100]
  }

  /*
   * PWM duty: a percentage sent as its whole part and its first decimal digit
   */

  predicate DutyInRange(duty: real)
  {
    0.0 <= duty <= 99.0
  }

  /**
   * `x % 10` on floating-point values: the floored remainder, in [0, 10),
   * which differs from `x` by a whole multiple of 10.
   */
  function Mod10(x: real): (r: real)
    ensures 0.0 <= r < 10.0
    ensures ((x - r) / 10.0).Floor as real == (x - r) / 10.0
  {
    x - 10.0 * (x / 10.0).Floor as real
  }

  /** Python's floored remainder: 23 % 10 is 3, and so is -7 % 10. */
  lemma Mod10Example()
    ensures Mod10(23.0) == 3.0 && Mod10(-7.0) == 3.0
  {
  }

  /**
   * The two bytes written for a duty cycle: `int(duty)` and
   * `int((duty * 10) % 10)`. The pair is the duty truncated to tenths.
   */
  function DutyBytes(duty: real): (b: seq<Byte>)
    requires DutyInRange(duty)
    ensures |b| == 2 && b[0] <= 99 && b[1] <= 9
    ensures b[0] as int * 10 + b[1] as int == (duty * 10.0).Floor
    ensures b[0] as real + b[1] as real / 10.0 <= duty
    ensures duty < b[0] as real + (b[1] + 1) as real / 10.0
  {
    var whole := duty.Floor;
    var rem := Mod10(duty * 10.0);
    var tenth := rem.Floor;
    DutyDigits(duty, whole, rem, tenth);
    [whole, tenth]
  }

  lemma DutyDigits(duty: real, whole: int, rem: real, tenth: int)
    requires DutyInRange(duty)
    requires whole == duty.Floor
    requires rem == Mod10(duty * 10.0)
    requires tenth == rem.Floor
    ensures 0 <= whole <= 99 && 0 <= tenth <= 9
    ensures whole * 10 + tenth == (duty * 10.0).Floor
  {
    var q := (duty * 10.0 / 10.0).Floor;
    assert duty * 10.0 / 10.0 == duty;
    assert q == whole;
    assert rem == duty * 10.0 - 10.0 * whole as real;
    // the floor of x - 10w is the floor of x, less 10w
    var t := (duty * 10.0).Floor;
    assert (t - 10 * whole) as real <= rem < (t - 10 * whole) as real + 1.0;
    assert tenth == t - 10 * whole;
  }

  /** A duty of 37.46 percent goes out as 37 and 4. */
  lemma DutyBytesExample()
    ensures DutyBytes(37.46) == [37, 4]
  {
    var b := DutyBytes(37.46);
    assert 37.4 <= b[0] as real + b[1] as real / 10.0 < 37.5;
  }

  /*
   * Per-channel registers
   */

  /** The duty register of PWM channel `ch`, two bytes wide. */
  function DutyRegister(ch: int): (r: int)
    requires 1 <= ch <= PwmChanCount
    ensures r == [RegPwmDuty1, RegPwmDuty2, RegPwmDuty3, RegPwmDuty4][ch - 1]
    ensures RegPwmFreq + 2 <= r && r + 1 < RegAdcCtrl
  {
    RegPwmDuty1 + (ch - 1) * 2
  }

  /** The value register of ADC channel `ch`, two bytes wide. */
  function AdcRegister(ch: int): (r: int)
    requires 1 <= ch <= AdcChanCount
    ensures r == [RegAdcVal1, RegAdcVal2, RegAdcVal3, RegAdcVal4][ch - 1]
    ensures RegAdcCtrl < r && r + 1 <= RegAdcVal4 + 1
  {
    RegAdcVal1 + (ch - 1) * 2
  }

  /** Distinct channels use disjoint two-byte registers. */
  lemma {:induction false} ChannelRegistersDisjoint(c: int, d: int)
    requires 1 <= c <= 4 && 1 <= d <= 4 && c != d
    ensures DutyRegister(c) + 1 < DutyRegister(d) || DutyRegister(d) + 1 < DutyRegister(c)
    ensures AdcRegister(c) + 1 < AdcRegister(d) || AdcRegister(d) + 1 < AdcRegister(c)
  {
  }

  /*
   * ADC sample: two bytes, high byte first
   */

  /**
   * The sample read from an ADC register: `(hi << 8) | lo`, which for a
   * low byte below 0x100 is `hi * 0x100 + lo`. The sample gives both
   * bytes back.
   */
  function AdcValue(hi: Byte, lo: Byte): (v: int)
    ensures 0 <= v < 0x10000
  {
    hi as int * 0x100 + lo as int
  }

  /** A sample gives both of its bytes back: the high byte is its quotient by 0x100, the low byte the remainder. */
  lemma AdcValueBytes(hi: Byte, lo: Byte)
    ensures AdcValue(hi, lo) / 0x100 == hi && AdcValue(hi, lo) % 0x100 == lo
  {
  }
}
