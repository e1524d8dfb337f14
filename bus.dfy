/**
 * The two-wire bus as the driver sees it: block writes and block reads
 * addressed to a device address and a register offset. The physical bus
 * library is replaced by a simulated device: a register file per address
 * and a predicate that says which transfers fail (no acknowledge, timeout,
 * bus error). The predicate also receives the position of the transfer in
 * the sequence of all transfers issued so far, so a transfer may fail at
 * one moment and succeed at another.
 */
module Bus {
  import opened Registers

  /** One bus transaction as the driver issues it. */
  datatype Transfer =
    | Write(addr: int, reg: int, data: seq<Byte>)
    | Read(addr: int, reg: int, len: nat)

  /**
   * The simulated device side of the bus. `regs(n, addr, reg)` is what the
   * register `reg` of the device at `addr` holds when the `n`-th transfer
   * reaches it, so a value register may hold a new sample at every read.
   */
  datatype Device = Device(regs: (nat, int, int) -> Byte, fails: (nat, Transfer) -> bool)

  /** `len` zero bytes: what a failed read hands back. */
  function Zeros(len: nat): (r: seq<Byte>)
    ensures |r| == len
    ensures forall k :: 0 <= k < len ==> r[k] == 0
  {
    seq(len, k => 0)
  }

  /** The bytes a device holds from register `reg` onwards when the `n`-th transfer reads them. */
  function Block(dev: Device, n: nat, addr: int, reg: int, len: nat): (r: seq<Byte>)
    ensures |r| == len
    ensures forall k :: 0 <= k < len ==> r[k] == dev.regs(n, addr, reg + k)
  {
    seq<Byte>(len, k => dev.regs(n, addr, reg + k))
  }

  /**
   * The status a transport primitive leaves behind: it sets
   * DeviceNotDetected first and replaces it with Ok only when the
   * transfer went through.
   */
  function Outcome(dev: Device, n: nat, t: Transfer): (s: Status)
    ensures s == Ok || s == DeviceNotDetected
    ensures s == Ok <==> !dev.fails(n, t)
  {
    if dev.fails(n, t) then DeviceNotDetected else Ok
  }

  /**
   * What a block read hands back when it is the `n`-th transfer: exactly
   * `len` bytes, the device's registers on success and zeros on failure.
   */
  function Answer(dev: Device, n: nat, addr: int, reg: int, len: nat): (r: seq<Byte>)
    ensures |r| == len
    ensures dev.fails(n, Read(addr, reg, len)) ==> forall k :: 0 <= k < len ==> r[k] == 0
    ensures !dev.fails(n, Read(addr, reg, len)) ==> forall k :: 0 <= k < len ==> r[k] == dev.regs(n, addr, reg + k)
  {
    if dev.fails(n, Read(addr, reg, len)) then Zeros(len) else Block(dev, n, addr, reg, len)
  }

  /**
   * The status after the transfers `ts` issued from position `n` on,
   * starting from status `s0`: the last transfer decides, and with no
   * transfer the status is left as it was.
   */
  function LastStatus(dev: Device, n: nat, ts: seq<Transfer>, s0: Status): (s: Status)
    ensures |ts| == 0 ==> s == s0
    ensures |ts| > 0 ==> (s == Ok || s == DeviceNotDetected)
    ensures |ts| > 0 ==> (s == Ok <==> !dev.fails(n + |ts| - 1, ts[|ts| - 1]))
  {
    if |ts| == 0 then s0 else Outcome(dev, n + |ts| - 1, ts[|ts| - 1])
  }
}
