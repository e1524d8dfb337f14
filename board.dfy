/**
 * The expansion board driver: a handle holding the board's bus address
 * and the status of the last operation, on top of the two transport
 * primitives. Every transfer the driver issues is appended to `trace`, so
 * the contracts can say exactly what went on the bus.
 *
 * Before the class come the reference definitions its contracts use:
 * what `Begin` does at one address, and what `Detect` does over a range
 * of addresses, with the properties proved about them.
 */
module Board {
  import opened Registers
  import opened Bus

  /*
   * Begin: identify the board and switch its outputs off
   */

  function PidRead(addr: int): Transfer { Read(addr, RegPid, 1) }
  function VidRead(addr: int): Transfer { Read(addr, RegVid, 1) }
  function PwmOff(addr: int): Transfer { Write(addr, RegPwmControl, [0x00]) }
  function AdcOff(addr: int): Transfer { Write(addr, RegAdcCtrl, [0x00]) }

  /** Both identification reads, issued at positions `n` and `n + 1`, went through. */
  predicate ReadsSucceed(dev: Device, addr: int, n: nat)
  {
    !dev.fails(n, PidRead(addr)) && !dev.fails(n + 1, VidRead(addr))
  }

  /**
   * The condition under which `Begin` goes on to switch the outputs off:
   * both identification reads went through and the board answered with
   * the expected product id and vendor id.
   */
  predicate FullMatch(dev: Device, addr: int, n: nat)
  {
    && ReadsSucceed(dev, addr, n)
    && dev.regs(n, addr, RegPid) == DefPid
    && dev.regs(n + 1, addr, RegVid) == DefVid
  }

  /** The transfers `Begin` issues at `addr` when it starts at position `n`. */
  function BeginTrace(dev: Device, addr: int, n: nat): (ts: seq<Transfer>)
    ensures |ts| == 2 || |ts| == 4
    ensures ts[0] == PidRead(addr) && ts[1] == VidRead(addr)
    ensures |ts| == 4 <==> FullMatch(dev, addr, n)
  {
    if FullMatch(dev, addr, n) then [PidRead(addr), VidRead(addr), PwmOff(addr), AdcOff(addr)]
    else [PidRead(addr), VidRead(addr)]
  }

  /**
   * The status `Begin` returns at `addr` when it starts at position `n`:
   * the vendor-id read decides whether the board was reached at all, a
   * product id that was not read or does not match means no board, a
   * vendor id that does not match means unsupported firmware, and on a
   * full match the last of the two disabling writes decides.
   */
  function BeginStatus(dev: Device, addr: int, n: nat): (s: Status)
    ensures s == Ok || s == DeviceNotDetected || s == SoftVersion
    ensures dev.fails(n + 1, VidRead(addr)) ==> s == DeviceNotDetected
    ensures dev.fails(n, PidRead(addr)) ==> s == DeviceNotDetected
  {
    if dev.fails(n + 1, VidRead(addr)) then DeviceNotDetected
    else if dev.fails(n, PidRead(addr)) || dev.regs(n, addr, RegPid) != DefPid then DeviceNotDetected
    else if dev.regs(n + 1, addr, RegVid) != DefVid then SoftVersion
    else Outcome(dev, n + 3, AdcOff(addr))
  }

  /**
   * The three outcomes of `Begin`: a board that answers with another
   * product id is not detected, a board with the right product id but
   * another vendor id has unsupported firmware, and Ok means a full match
   * whose last disabling write was acknowledged.
   */
  lemma BeginOutcomes(dev: Device, addr: int, n: nat)
    ensures var s := BeginStatus(dev, addr, n);
      s == Ok || s == DeviceNotDetected || s == SoftVersion
    ensures ReadsSucceed(dev, addr, n) && dev.regs(n, addr, RegPid) != DefPid
      ==> BeginStatus(dev, addr, n) == DeviceNotDetected
    ensures BeginStatus(dev, addr, n) == SoftVersion <==>
      ReadsSucceed(dev, addr, n) && dev.regs(n, addr, RegPid) == DefPid && dev.regs(n + 1, addr, RegVid) != DefVid
    ensures BeginStatus(dev, addr, n) == Ok <==>
      FullMatch(dev, addr, n) && !dev.fails(n + 3, AdcOff(addr))
  {
  }

  /**
   * `Begin` reads the two identification registers, and writes only on a
   * full match: a zero to the PWM control register, then a zero to the ADC
   * control register.
   */
  lemma BeginWrites(dev: Device, addr: int, n: nat)
    ensures var ts := BeginTrace(dev, addr, n);
      && |ts| >= 2 && ts[0] == PidRead(addr) && ts[1] == VidRead(addr)
      && (forall k :: 0 <= k < |ts| && ts[k].Write? ==> FullMatch(dev, addr, n) && ts[k].data == [0x00])
    ensures FullMatch(dev, addr, n) <==> |BeginTrace(dev, addr, n)| == 4
    ensures FullMatch(dev, addr, n) ==>
      BeginTrace(dev, addr, n)[2] == Write(addr, RegPwmControl, [0x00]) &&
      BeginTrace(dev, addr, n)[3] == Write(addr, RegAdcCtrl, [0x00])
    ensures BeginStatus(dev, addr, n) == Ok ==> FullMatch(dev, addr, n)
  {
  }

  /*
   * Detect: try Begin at every address of a range
   */

  /** The addresses at which `Begin` reported Ok, and every transfer issued. */
  datatype ScanResult = ScanResult(found: seq<int>, steps: seq<Transfer>)

  /**
   * Running `Begin` at the addresses `lo` to `hi - 1` in ascending order,
   * starting at position `n`; each run starts where the previous one ended.
   */
  function Scan(dev: Device, lo: int, hi: int, n: nat): (r: ScanResult)
    ensures hi <= lo ==> r.found == [] && r.steps == []
    ensures 2 * |r.found| <= |r.steps|
    decreases hi - lo
  {
    if hi <= lo then ScanResult([], [])
    else
      var p := Scan(dev, lo, hi - 1, n);
      var at := n + |p.steps|;
      ScanResult(
        if BeginStatus(dev, hi - 1, at) == Ok then p.found + [hi - 1] else p.found,
        p.steps + BeginTrace(dev, hi - 1, at))
  }

  /**
   * One more address: when the transfers so far are `t0` followed by the
   * scan of `lo` to `hi - 1`, running `Begin` at `hi` next gives the scan
   * of `lo` to `hi`: its transfers are appended, and `hi` is reported
   * exactly when that run returns Ok.
   */
  lemma ScanStep(dev: Device, lo: int, hi: int, t0: seq<Transfer>, t: seq<Transfer>)
    requires lo <= hi && t == t0 + Scan(dev, lo, hi, |t0|).steps
    ensures t + BeginTrace(dev, hi, |t|) == t0 + Scan(dev, lo, hi + 1, |t0|).steps
    ensures BeginStatus(dev, hi, |t|) == Ok ==>
      Scan(dev, lo, hi + 1, |t0|).found == Scan(dev, lo, hi, |t0|).found + [hi]
    ensures BeginStatus(dev, hi, |t|) != Ok ==>
      Scan(dev, lo, hi + 1, |t0|).found == Scan(dev, lo, hi, |t0|).found
  {
    var p := Scan(dev, lo, hi, |t0|);
    var at := |t0| + |p.steps|;
    assert |t| == at;
    var b := BeginTrace(dev, hi, at);
    assert Scan(dev, lo, hi + 1, |t0|).steps == p.steps + b;
    assert (t0 + p.steps) + b == t0 + (p.steps + b);
  }

  /** Strictly increasing. */
  predicate Increasing(s: seq<int>)
  {
    forall i, j :: 0 <= i < j < |s| ==> s[i] < s[j]
  }

  /** Every element in [lo, hi). */
  predicate Within(s: seq<int>, lo: int, hi: int)
  {
    forall i :: 0 <= i < |s| ==> lo <= s[i] < hi
  }

  /** The position at which the scan starting at `n` runs `Begin` at `addr`. */
  function ScanPosition(dev: Device, lo: int, addr: int, n: nat): nat
  {
    n + |Scan(dev, lo, addr, n).steps|
  }

  /** The addresses a scan reports are strictly increasing and lie in the range scanned. */
  lemma {:induction false} ScanOrdered(dev: Device, lo: int, hi: int, n: nat)
    ensures Increasing(Scan(dev, lo, hi, n).found)
    ensures Within(Scan(dev, lo, hi, n).found, lo, hi)
    decreases hi - lo
  {
    if lo < hi {
      ScanOrdered(dev, lo, hi - 1, n);
    }
  }

  /** A scan reports an address exactly when `Begin` returned Ok there. */
  lemma {:induction false} ScanExactly(dev: Device, lo: int, hi: int, n: nat, addr: int)
    ensures addr in Scan(dev, lo, hi, n).found <==>
      lo <= addr < hi && BeginStatus(dev, addr, ScanPosition(dev, lo, addr, n)) == Ok
    decreases hi - lo
  {
    if lo < hi {
      var p := Scan(dev, lo, hi - 1, n);
      ScanOrdered(dev, lo, hi - 1, n);
      if addr != hi - 1 {
        ScanExactly(dev, lo, hi - 1, n, addr);
      } else {
        assert addr !in p.found;
      }
    }
  }

  /** Every address of the range is reported exactly when `Begin` returned Ok there. */
  lemma ScanReportsOk(dev: Device, lo: int, hi: int, n: nat)
    ensures forall a :: a in Scan(dev, lo, hi, n).found <==>
      lo <= a < hi && BeginStatus(dev, a, ScanPosition(dev, lo, a, n)) == Ok
  {
    forall a
      ensures a in Scan(dev, lo, hi, n).found <==>
        lo <= a < hi && BeginStatus(dev, a, ScanPosition(dev, lo, a, n)) == Ok
    {
      ScanExactly(dev, lo, hi, n, a);
    }
  }

  /*
   * The driver
   */

  /** The transfers `SetPwmDuty` issues: one two-byte write per resolved channel. */
  function DutyWrites(addr: int, ids: seq<int>, data: seq<Byte>): (ts: seq<Transfer>)
    requires IdsValid(PwmChanCount, ids)
    ensures |ts| == |ids|
    ensures forall k :: 0 <= k < |ids| ==>
      ts[k] == Write(addr, RegPwmDuty1 + (ids[k] - 1) * 2, data)
  {
    seq(|ids|, k requires 0 <= k < |ids| => Write(addr, DutyRegister(ids[k]), data))
  }

  /** The transfers `GetAdcValue` issues: one two-byte read per resolved channel. */
  function AdcReads(addr: int, ids: seq<int>): (ts: seq<Transfer>)
    requires IdsValid(AdcChanCount, ids)
    ensures |ts| == |ids|
    ensures forall k :: 0 <= k < |ids| ==> ts[k] == Read(addr, RegAdcVal1 + (ids[k] - 1) * 2, 2)
  {
    seq(|ids|, k requires 0 <= k < |ids| => Read(addr, AdcRegister(ids[k]), 2))
  }

  /**
   * The sample `GetAdcValue` reports for channel `ch` when its read is the
   * `n`-th transfer: zero when the read failed, the two registers of the
   * channel combined high byte first otherwise.
   */
  function Sample(dev: Device, n: nat, addr: int, ch: int): (v: int)
    requires 1 <= ch <= AdcChanCount
    ensures 0 <= v < 0x10000
  {
    if dev.fails(n, Read(addr, AdcRegister(ch), 2)) then 0
    else AdcValue(dev.regs(n, addr, AdcRegister(ch)), dev.regs(n, addr, AdcRegister(ch) + 1))
  }

  /**
   * A sample is zero when its read failed, and otherwise gives back the
   * two registers of the channel: the high byte as its quotient by 0x100,
   * the low byte as the remainder.
   */
  lemma SampleBytes(dev: Device, n: nat, addr: int, ch: int)
    requires 1 <= ch <= AdcChanCount
    ensures dev.fails(n, Read(addr, AdcRegister(ch), 2)) ==> Sample(dev, n, addr, ch) == 0
    ensures !dev.fails(n, Read(addr, AdcRegister(ch), 2)) ==>
      && Sample(dev, n, addr, ch) / 0x100 == dev.regs(n, addr, AdcRegister(ch))
      && Sample(dev, n, addr, ch) % 0x100 == dev.regs(n, addr, AdcRegister(ch) + 1)
  {
    AdcValueBytes(dev.regs(n, addr, AdcRegister(ch)), dev.regs(n, addr, AdcRegister(ch) + 1));
  }

  /** The samples `GetAdcValue` reports when its first read is the `n`-th transfer. */
  function Samples(dev: Device, n: nat, addr: int, ids: seq<int>): (vs: seq<int>)
    requires IdsValid(AdcChanCount, ids)
    ensures |vs| == |ids|
    ensures forall k :: 0 <= k < |ids| ==> vs[k] == Sample(dev, n + k, addr, ids[k])
  {
    seq(|ids|, k requires 0 <= k < |ids| => Sample(dev, n + k, addr, ids[k]))
  }

  /** The status after parsing a channel request: ParameterError on an invalid index, else unchanged. */
  function ParsedStatus(limit: nat, req: Channels, s0: Status): (s: Status)
    ensures ParseError(limit, req) ==> s == ParameterError
    ensures s != s0 ==> ParseError(limit, req) && s == ParameterError
  {
    if ParseError(limit, req) then ParameterError else s0
  }

  class ExpansionBoard {
    /** The simulated device on the other side of the bus. */
    const bus: Device
    /** The bus address the board is reached at. */
    var addr: int
    /** The status of the last operation. */
    var status: Status
    /** Every transfer issued so far, oldest first. */
    var trace: seq<Transfer>

    constructor (bus: Device, addr: int)
      ensures this.bus == bus && this.addr == addr
      ensures status == Ok && trace == []
    {
      this.bus := bus;
      this.addr := addr;
      status := Ok;
      trace := [];
    }

    /*
     * Transport primitives: failures never escape, they become a status
     */

    method WriteBytes(reg: int, buf: seq<Byte>)
      modifies this`status, this`trace
      ensures trace == old(trace) + [Write(addr, reg, buf)]
      ensures status == Outcome(bus, |old(trace)|, Write(addr, reg, buf))
    {
      status := DeviceNotDetected;
      var t := Write(addr, reg, buf);
      var failed := bus.fails(|trace|, t);
      trace := trace + [t];
      if !failed {
        status := Ok;
      }
    }

    method ReadBytes(reg: int, len: nat) returns (r: seq<Byte>)
      modifies this`status, this`trace
      ensures trace == old(trace) + [Read(addr, reg, len)]
      ensures status == Outcome(bus, |old(trace)|, Read(addr, reg, len))
      ensures r == Answer(bus, |old(trace)|, addr, reg, len)
      ensures |r| == len
    {
      status := DeviceNotDetected;
      var t := Read(addr, reg, len);
      var at := |trace|;
      var failed := bus.fails(at, t);
      trace := trace + [t];
      if failed {
        r := Zeros(len);
      } else {
        r := Block(bus, at, addr, reg, len);
        status := Ok;
      }
    }

    /*
     * Board operations
     */

    method Begin() returns (s: Status)
      modifies this`status, this`trace
      ensures s == status
      ensures status == BeginStatus(bus, addr, |old(trace)|)
      ensures trace == old(trace) + BeginTrace(bus, addr, |old(trace)|)
    {
      ghost var n := |trace|;
      var pid := ReadBytes(RegPid, 1);
      var vid := ReadBytes(RegVid, 1);
      // a failed read hands back a zero, which is never the product id
      assert pid[0] == DefPid <==> !bus.fails(n, PidRead(addr)) && bus.regs(n, addr, RegPid) == DefPid by {
        assert bus.fails(n, PidRead(addr)) ==> pid[0] == 0;
        assert !bus.fails(n, PidRead(addr)) ==> pid[0] == bus.regs(n, addr, RegPid + 0);
      }
      assert !bus.fails(n + 1, VidRead(addr)) ==> vid[0] == bus.regs(n + 1, addr, RegVid + 0);
      if status == Ok {
        if pid[0] != DefPid {
          status := DeviceNotDetected;
        } else if vid[0] != DefVid {
          status := SoftVersion;
        } else {
          SetPwmDisable();
          SetAdcDisable();
        }
      }
      s := status;
    }

    /** Asks the board to take a new address; it takes effect after a power cycle. */
    method SetAddr(newAddr: int)
      modifies this`status, this`trace
      ensures !(1 <= newAddr <= 127) ==> status == ParameterError && trace == old(trace)
      ensures 1 <= newAddr <= 127 ==>
        && trace == old(trace) + [Write(addr, RegSlaveAddr, [newAddr])]
        && status == Outcome(bus, |old(trace)|, Write(addr, RegSlaveAddr, [newAddr]))
    {
      if newAddr < 1 || newAddr > 127 {
        status := ParameterError;
        return;
      }
      WriteBytes(RegSlaveAddr, [newAddr]);
    }

    /**
     * The channels a request names. An out-of-range index sets
     * ParameterError and yields no channel; otherwise the status is left
     * as it was.
     */
    method ParseId(limit: nat, req: Channels) returns (ids: seq<int>)
      modifies this`status
      ensures ids == Resolve(limit, req)
      ensures status == ParsedStatus(limit, req, old(status))
    {
      if req.All? {
        return ChannelRange(limit);
      }
      var j := 0;
      while j < |req.ids|
        invariant 0 <= j <= |req.ids|
        invariant forall k :: 0 <= k < j ==> 1 <= req.ids[k] <= limit
        invariant status == old(status)
      {
        if req.ids[j] < 1 || req.ids[j] > limit {
          status := ParameterError;
          return [];
        }
        j := j + 1;
      }
      return req.ids;
    }

    method SetPwmEnable()
      modifies this`status, this`trace
      ensures trace == old(trace) + [Write(addr, RegPwmControl, [0x01])]
      ensures status == Outcome(bus, |old(trace)|, Write(addr, RegPwmControl, [0x01]))
    {
      WriteBytes(RegPwmControl, [0x01]);
    }

    method SetPwmDisable()
      modifies this`status, this`trace
      ensures trace == old(trace) + [PwmOff(addr)]
      ensures status == Outcome(bus, |old(trace)|, PwmOff(addr))
    {
      WriteBytes(RegPwmControl, [0x00]);
    }

    method SetPwmFrequency(freq: int)
      modifies this`status, this`trace
      ensures !FrequencyInRange(freq) ==> status == ParameterError && trace == old(trace)
      ensures FrequencyInRange(freq) ==>
        && trace == old(trace) + [Write(addr, RegPwmFreq, FrequencyBytes(freq))]
        && status == Outcome(bus, |old(trace)|, Write(addr, RegPwmFreq, FrequencyBytes(freq)))
    {
      if freq < 1 || freq > 1000 {
        status := ParameterError;
        return;
      }
      WriteBytes(RegPwmFreq, FrequencyBytes(freq));
    }

    /**
     * Sets the duty of the requested PWM channels. A duty outside
     * [0, 99] sets ParameterError and writes nothing; so does a request
     * naming a channel that does not exist.
     */
    method SetPwmDuty(chan: Channels, duty: real)
      modifies this`status, this`trace
      ensures !DutyInRange(duty) ==> status == ParameterError && trace == old(trace)
      ensures DutyInRange(duty) ==>
        var ts := DutyWrites(addr, Resolve(PwmChanCount, chan), DutyBytes(duty));
        && trace == old(trace) + ts
        && status == LastStatus(bus, |old(trace)|, ts, ParsedStatus(PwmChanCount, chan, old(status)))
    {
      if duty < 0.0 || duty > 99.0 {
        status := ParameterError;
        return;
      }
      var ids := ParseId(PwmChanCount, chan);
      WriteDuties(ids, DutyBytes(duty));
    }

    /** The loop of `SetPwmDuty`: the same two bytes written to the duty register of every channel of `ids`. */
    method WriteDuties(ids: seq<int>, data: seq<Byte>)
      requires IdsValid(PwmChanCount, ids)
      modifies this`status, this`trace
      ensures trace == old(trace) + DutyWrites(addr, ids, data)
      ensures status == LastStatus(bus, |old(trace)|, DutyWrites(addr, ids, data), old(status))
    {
      ghost var n := |trace|;
      ghost var ts := DutyWrites(addr, ids, data);
      for k := 0 to |ids|
        invariant trace == old(trace) + ts[..k]
        invariant status == LastStatus(bus, n, ts[..k], old(status))
      {
        var i := ids[k];
        WriteBytes(RegPwmDuty1 + (i - 1) * 2, data);
        assert ts[..k + 1] == ts[..k] + [ts[k]];
      }
      assert ts[..|ids|] == ts;
    }

    method SetAdcEnable()
      modifies this`status, this`trace
      ensures trace == old(trace) + [Write(addr, RegAdcCtrl, [0x01])]
      ensures status == Outcome(bus, |old(trace)|, Write(addr, RegAdcCtrl, [0x01]))
    {
      WriteBytes(RegAdcCtrl, [0x01]);
    }

    method SetAdcDisable()
      modifies this`status, this`trace
      ensures trace == old(trace) + [AdcOff(addr)]
      ensures status == Outcome(bus, |old(trace)|, AdcOff(addr))
    {
      WriteBytes(RegAdcCtrl, [0x00]);
    }

    /** One pass of the sampling loop: a two-byte read of the channel's value register, high byte first. */
    method ReadSample(ch: int) returns (v: int)
      requires 1 <= ch <= AdcChanCount
      modifies this`status, this`trace
      ensures v == Sample(bus, |old(trace)|, addr, ch)
      ensures trace == old(trace) + [Read(addr, AdcRegister(ch), 2)]
      ensures status == Outcome(bus, |old(trace)|, Read(addr, AdcRegister(ch), 2))
    {
      var rslt := ReadBytes(RegAdcVal1 + (ch - 1) * 2, 2);
      v := AdcValue(rslt[0], rslt[1]);
    }

    /**
     * One sample per requested ADC channel, in the order requested. A
     * request naming a channel that does not exist sets ParameterError
     * and reads nothing.
     */
    method GetAdcValue(chan: Channels) returns (values: seq<int>)
      modifies this`status, this`trace
      ensures var ids := Resolve(AdcChanCount, chan);
        && |values| == |ids|
        && trace == old(trace) + AdcReads(addr, ids)
        && (forall k :: 0 <= k < |ids| ==> values[k] == Sample(bus, |old(trace)| + k, addr, ids[k]))
        && status == LastStatus(bus, |old(trace)|, AdcReads(addr, ids), ParsedStatus(AdcChanCount, chan, old(status)))
      ensures forall k :: 0 <= k < |values| ==> 0 <= values[k] < 0x10000
    {
      var ids := ParseId(AdcChanCount, chan);
      values := ReadSamples(ids);
    }

    /** The loop of `GetAdcValue`: one sample per channel of `ids`, in order. */
    method ReadSamples(ids: seq<int>) returns (l: seq<int>)
      requires IdsValid(AdcChanCount, ids)
      modifies this`status, this`trace
      ensures |l| == |ids|
      ensures trace == old(trace) + AdcReads(addr, ids)
      ensures forall k :: 0 <= k < |ids| ==> l[k] == Sample(bus, |old(trace)| + k, addr, ids[k])
      ensures status == LastStatus(bus, |old(trace)|, AdcReads(addr, ids), old(status))
    {
      ghost var n := |trace|;
      ghost var ts := AdcReads(addr, ids);
      ghost var vs := Samples(bus, n, addr, ids);
      l := [];
      for k := 0 to |ids|
        invariant l == vs[..k]
        invariant trace == old(trace) + ts[..k]
        invariant status == LastStatus(bus, n, ts[..k], old(status))
      {
        var v := ReadSample(ids[k]);
        l := l + [v];
        assert ts[..k + 1] == ts[..k] + [ts[k]];
        assert vs[..k + 1] == vs[..k] + [vs[k]];
      }
      assert ts[..|ids|] == ts;
      assert vs[..|ids|] == vs;
    }

    /** The last two steps of `Detect`: the address goes back, the status is Ok. */
    method Settle(back: int)
      modifies this`addr, this`status
      ensures addr == back && status == Ok && trace == old(trace)
    {
      addr := back;
      status := Ok;
    }

    /**
     * Finds the boards on the bus: runs `Begin` at every address from 1
     * to 126 and reports those where it returned Ok. The handle's own
     * address is restored and the status left Ok.
     */
    method Detect() returns (found: seq<int>)
      modifies this`addr, this`status, this`trace
      ensures addr == old(addr) && status == Ok
      ensures found == Scan(bus, 1, 127, |old(trace)|).found
      ensures trace == old(trace) + Scan(bus, 1, 127, |old(trace)|).steps
      ensures Increasing(found) && Within(found, 1, 127)
      ensures forall a :: a in found <==>
        1 <= a <= 126 && BeginStatus(bus, a, ScanPosition(bus, 1, a, |old(trace)|)) == Ok
    {
      ghost var n := |trace|;
      var l := [];
      var back := addr;
      for i := 1 to 127
        invariant l == Scan(bus, 1, i, n).found
        invariant trace == old(trace) + Scan(bus, 1, i, n).steps
      {
        ScanStep(bus, 1, i, old(trace), trace);
        addr := i;
        var s := Begin();
        if s == Ok {
          l := l + [i];
        }
      }
      Settle(back);
      found := l;
      ScanOrdered(bus, 1, 127, n);
      ScanReportsOk(bus, 1, 127, n);
    }
  }
}
