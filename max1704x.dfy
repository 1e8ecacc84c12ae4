/** The MAX17048 fuel-gauge driver of src/max1704x.rs: 16-bit registers read
    and written big-endian over I2C, and the read-modify-write of the RCOMP
    byte of the CONFIG register. */
module Max1704x {
  import opened Common

  const MAX17048_ADDR: bv8 := 0x36
  const DEFAULT_RCOMP: bv8 := 0x97
  const REG_SOC: bv8 := 0x04
  const REG_VERSION: bv8 := 0x08
  const REG_CONFIG: bv8 := 0x0C

  /** The two bytes of a register value, high byte first. */
  function Msb(v: bv16): (b: bv8)
    ensures b as bv16 == v / 256
  {
    ((v & 0xFF00) >> 8) as bv8
  }

  function Lsb(v: bv16): (b: bv8)
    ensures b as bv16 == v % 256
  {
    ((v & 0x00FF) >> 0) as bv8
  }

  /** `read`'s decoding of the receive buffer: `(buf[0] << 8) | buf[1]`. Its
      bytes are exactly the two received, so no information is lost. */
  function Decode(hi: bv8, lo: bv8): (v: bv16)
    ensures Msb(v) == hi && Lsb(v) == lo
  {
    ((hi as bv16) << 8) | (lo as bv16)
  }

  /** `write`'s payload: MSB then LSB. Decoding it gives the value back. */
  function Encode(v: bv16): (bytes: seq<bv8>)
    ensures |bytes| == 2 && Decode(bytes[0], bytes[1]) == v
  {
    [Msb(v), Lsb(v)]
  }

  /** `compensation`'s merge: the low byte of the old CONFIG value under
      `rcomp` as the new high byte. */
  function MergeRcomp(value: bv16, rcomp: bv8): (r: bv16)
    ensures Msb(r) == rcomp && Lsb(r) == Lsb(value)
  {
    (value & 0x00FF) | ((rcomp as bv16) << 8)
  }

  /** `soc`'s scaling: the raw SOC register divided by 256, which is its high
      byte (the whole percent). */
  function SocPercent(raw: bv16): (s: bv16)
    ensures s <= 255 && s as bv8 == Msb(raw)
  {
    raw / 256
  }

  /** The I2C bus error the transport reports; it is passed on unchanged. */
  datatype BusError = BusError

  datatype I2cResult<T> = Success(value: T) | Failure(error: BusError)

  /** One bus transaction as the driver issued it, and whether the transport
      completed it. */
  datatype Transaction =
    | WriteReadTx(addr: bv8, out: seq<bv8>, ok: bool)
    | WriteTx(addr: bv8, bytes: seq<bv8>, ok: bool)

  /** The I2C handle given to the driver, with the fuel gauge behind it: its
      register file, the register pointer the last address byte selected, the
      transactions so far, and which transactions (by position in the trace)
      the transport fails. */
  class I2cBus {
    var regs: map<bv8, bv16>
    var pointer: bv8
    var trace: seq<Transaction>
    const faults: set<nat>

    function Reg(r: bv8): bv16
      reads this
    {
      if r in regs then regs[r] else 0
    }

    /** Whether the next transaction completes. */
    function NextOk(): bool
      reads this
    {
      |trace| !in faults
    }

    constructor (regs: map<bv8, bv16>, faults: set<nat>)
      ensures this.regs == regs && this.faults == faults && trace == []
    {
      this.regs := regs;
      this.faults := faults;
      this.pointer := 0;
      this.trace := [];
    }

    /** `write_read(addr, [reg], buf)`: selects `reg` and reads its two
        bytes, high byte first, into `buf`. */
    method WriteRead(addr: bv8, out: seq<bv8>, buf: array<bv8>) returns (ok: bool)
      requires |out| == 1 && buf.Length == 2
      modifies this, buf
      ensures ok == old(NextOk())
      ensures trace == old(trace) + [WriteReadTx(addr, out, ok)]
      ensures regs == old(regs)
      ensures ok ==> pointer == out[0] && buf[..] == Encode(Reg(out[0]))
      ensures !ok ==> pointer == old(pointer) && buf[..] == old(buf[..])
    {
      ok := NextOk();
      trace := trace + [WriteReadTx(addr, out, ok)];
      if ok {
        pointer := out[0];
        buf[0] := Msb(Reg(out[0]));
        buf[1] := Lsb(Reg(out[0]));
        assert buf[..] == Encode(Reg(out[0]));
      }
    }

    /** `write(addr, bytes)`: one byte selects a register; two bytes are
        stored, high byte first, into the selected register. */
    method Write(addr: bv8, bytes: seq<bv8>) returns (ok: bool)
      requires 1 <= |bytes| <= 2
      modifies this
      ensures ok == old(NextOk())
      ensures trace == old(trace) + [WriteTx(addr, bytes, ok)]
      ensures ok && |bytes| == 1 ==> pointer == bytes[0] && regs == old(regs)
      ensures ok && |bytes| == 2 ==>
        pointer == old(pointer) && regs == old(regs)[old(pointer) := Decode(bytes[0], bytes[1])]
      ensures !ok ==> pointer == old(pointer) && regs == old(regs)
    {
      ok := NextOk();
      trace := trace + [WriteTx(addr, bytes, ok)];
      if ok {
        if |bytes| == 1 {
          pointer := bytes[0];
        } else {
          regs := regs[pointer := Decode(bytes[0], bytes[1])];
        }
      }
    }
  }

  /** `Max17048`: the owned bus handle and the two-byte receive buffer. */
  class Max17048 {
    const bus: I2cBus
    const recvBuffer: array<bv8>

    ghost predicate Valid()
      reads this
    {
      recvBuffer.Length == 2
    }

    constructor Init(bus: I2cBus)
      ensures Valid() && this.bus == bus && fresh(recvBuffer)
      ensures recvBuffer[..] == [0, 0]
    {
      this.bus := bus;
      this.recvBuffer := new bv8[2](_ => 0);
    }

    /** `read(reg)`: one write-read transaction; on success the received
        bytes, decoded big-endian, are the register's value. */
    method Read(reg: bv8) returns (r: I2cResult<bv16>)
      requires Valid()
      modifies bus, recvBuffer
      ensures bus.trace == old(bus.trace) + [WriteReadTx(MAX17048_ADDR, [reg], r.Success?)]
      ensures r.Success? <==> old(bus.NextOk())
      ensures r.Success? ==> r.value == old(bus.Reg(reg)) && recvBuffer[..] == Encode(r.value)
      ensures bus.regs == old(bus.regs)
    {
      var ok := bus.WriteRead(MAX17048_ADDR, [reg], recvBuffer);
      if ok {
        r := Success(Decode(recvBuffer[0], recvBuffer[1]));
        assert Encode(r.value) == recvBuffer[..];
      } else {
        r := Failure(BusError);
      }
    }

    /** `write(reg, value)`: an address-only transaction, then the two payload
        bytes MSB first. A failure of the first skips the second. */
    method Write(reg: bv8, value: bv16) returns (r: I2cResult<()>)
      requires Valid()
      modifies bus
      ensures !old(bus.NextOk()) ==>
        r.Failure? && bus.trace == old(bus.trace) + [WriteTx(MAX17048_ADDR, [reg], false)] &&
        bus.regs == old(bus.regs)
      ensures old(bus.NextOk()) ==>
        |bus.trace| == |old(bus.trace)| + 2 &&
        bus.trace[..|old(bus.trace)| + 1] == old(bus.trace) + [WriteTx(MAX17048_ADDR, [reg], true)] &&
        bus.trace[|old(bus.trace)| + 1] == WriteTx(MAX17048_ADDR, Encode(value), r.Success?)
      ensures r.Success? <==> old(bus.NextOk()) && (|old(bus.trace)| + 1) !in bus.faults
      ensures r.Success? ==> bus.regs == old(bus.regs)[reg := value]
      ensures r.Failure? ==> bus.regs == old(bus.regs)
    {
      var ok := bus.Write(MAX17048_ADDR, [reg]);
      if !ok {
        return Failure(BusError);
      }
      var msb := ((value & 0xFF00) >> 8) as bv8;
      var lsb := ((value & 0x00FF) >> 0) as bv8;
      assert [msb, lsb] == Encode(value);
      ok := bus.Write(MAX17048_ADDR, [msb, lsb]);
      if !ok {
        return Failure(BusError);
      }
      r := Success(());
    }

    /** `compensation(rcomp)`: reads CONFIG, keeps its low byte, puts `rcomp`
        in the high byte and writes it back. A failed read is returned
        without any write. */
    method Compensation(rcomp: bv8) returns (r: I2cResult<()>)
      requires Valid()
      modifies bus, recvBuffer
      ensures !old(bus.NextOk()) ==>
        r.Failure? && bus.regs == old(bus.regs) &&
        bus.trace == old(bus.trace) + [WriteReadTx(MAX17048_ADDR, [REG_CONFIG], false)]
      ensures old(bus.NextOk()) ==>
        |bus.trace| == |old(bus.trace)| + (if |old(bus.trace)| + 1 in bus.faults then 2 else 3) &&
        bus.trace[..|old(bus.trace)| + 1] == old(bus.trace) + [WriteReadTx(MAX17048_ADDR, [REG_CONFIG], true)] &&
        bus.trace[|old(bus.trace)| + 1] == WriteTx(MAX17048_ADDR, [REG_CONFIG], |bus.trace| == |old(bus.trace)| + 3)
      ensures |bus.trace| == |old(bus.trace)| + 3 ==>
        bus.trace[|old(bus.trace)| + 2] ==
          WriteTx(MAX17048_ADDR, Encode(MergeRcomp(old(bus.Reg(REG_CONFIG)), rcomp)), r.Success?)
      ensures r.Success? <==>
        old(bus.NextOk()) && (|old(bus.trace)| + 1) !in bus.faults && (|old(bus.trace)| + 2) !in bus.faults
      ensures r.Success? ==>
        bus.regs == old(bus.regs)[REG_CONFIG := MergeRcomp(old(bus.Reg(REG_CONFIG)), rcomp)]
      ensures r.Failure? ==> bus.regs == old(bus.regs)
    {
      var read := Read(REG_CONFIG);
      match read {
        case Failure(e) =>
          return Failure(e);
        case Success(value) =>
          value := value & 0x00FF;
          value := value | ((rcomp as bv16) << 8);
          assert value == MergeRcomp(read.value, rcomp);
          r := Write(REG_CONFIG, value);
      }
    }

    /** `soc()`: the high byte of the SOC register; a read error is passed on. */
    method Soc() returns (r: I2cResult<bv16>)
      requires Valid()
      modifies bus, recvBuffer
      ensures bus.trace == old(bus.trace) + [WriteReadTx(MAX17048_ADDR, [REG_SOC], r.Success?)]
      ensures r.Success? <==> old(bus.NextOk())
      ensures r.Success? ==> r.value <= 255 && r.value as bv8 == Msb(old(bus.Reg(REG_SOC)))
      ensures bus.regs == old(bus.regs)
    {
      var read := Read(REG_SOC);
      match read {
        case Success(val) => r := Success(val / 256);
        case Failure(e) => r := Failure(e);
      }
    }

    /** `version()`: the raw VERSION register. */
    method Version() returns (r: I2cResult<bv16>)
      requires Valid()
      modifies bus, recvBuffer
      ensures bus.trace == old(bus.trace) + [WriteReadTx(MAX17048_ADDR, [REG_VERSION], r.Success?)]
      ensures r.Success? <==> old(bus.NextOk())
      ensures r.Success? ==> r.value == old(bus.Reg(REG_VERSION))
      ensures bus.regs == old(bus.regs)
    {
      r := Read(REG_VERSION);
    }
  }

  /** `Max17048::new`: builds the driver and applies the default RCOMP; the
      `unwrap` panics when that fails. */
  method NewMax17048(bus: I2cBus) returns (r: Fallible<Max17048>)
    modifies bus
    ensures r.Ok? ==> r.value.Valid() && r.value.bus == bus
    ensures r.Ok? <==>
      old(bus.NextOk()) && (|old(bus.trace)| + 1) !in bus.faults && (|old(bus.trace)| + 2) !in bus.faults
    ensures r.Ok? ==>
      bus.regs == old(bus.regs)[REG_CONFIG := MergeRcomp(old(bus.Reg(REG_CONFIG)), DEFAULT_RCOMP)]
    ensures r.Panic? ==> bus.regs == old(bus.regs)
    ensures old(bus.trace) <= bus.trace && |old(bus.trace)| < |bus.trace| <= |old(bus.trace)| + 3
    ensures r.Ok? ==>
      bus.trace == old(bus.trace) + [WriteReadTx(MAX17048_ADDR, [REG_CONFIG], true),
                                     WriteTx(MAX17048_ADDR, [REG_CONFIG], true),
                                     WriteTx(MAX17048_ADDR, Encode(MergeRcomp(old(bus.Reg(REG_CONFIG)), DEFAULT_RCOMP)), true)]
  {
    var max := new Max17048.Init(bus);
    var c := max.Compensation(DEFAULT_RCOMP);
    if c.Failure? {
      return Panic;
    }
    r := Ok(max);
  }
}
