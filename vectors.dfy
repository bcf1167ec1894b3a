/**
 * The CPU-specific reset-vector writes of `SetupResetVectors`
 * (pkg/loader/vectors.go): a fixed, ordered list of writes selected by the
 * CPU name and the program's entry address, issued through the loader's
 * write handler until the first one it refuses.
 */
module Vectors {
  import opened Wrappers
  import opened Bytes
  import opened Device
  import Config

  /** The error each write reports when the handler refuses it, and the unknown-CPU error. */
  datatype VectorError =
    | UnsupportedCpu(cpu: string)
    | StubFailed
    | Vector65816Failed
    | Vector65C02Failed
    | CrossdevFailed
    | MicrokernelStartFailed
    | KernelArgsFailed
    | Vector680X0Failed

  const CROSSDEV: seq<byte> := [0x43, 0x52, 0x4F, 0x53, 0x53, 0x44, 0x45, 0x56]

  function Write(address: u32, data: seq<byte>, onFail: VectorError): Step<VectorError> {
    Step(WriteBlock(address, data), onFail)
  }

  /** `entry & 0xFF0000 != 0`: the entry point lies outside bank 0. */
  predicate OutsideBank0(entry: u32) {
    (entry / TWO_16) % TWO_8 != 0
  }

  /**
   * 65816: outside bank 0, a `CLC; XCE; JML entry` stub at 0xFF80 and the
   * reset vector pointing at it; in bank 0, the reset vector pointing at
   * the entry itself.
   */
  function Plan65816(entry: u32): Plan<VectorError> {
    if OutsideBank0(entry) then
      Plan([Write(0xFF80, [0x18, 0xFB, 0x5C, Low8(entry), Low8(entry / TWO_8), Low8(entry / TWO_16)], StubFailed),
            Write(0xFFFC, [0x80, 0xFF], Vector65816Failed)], Ok(()))
    else
      Plan([Write(0xFFFC, [Low8(entry), Low8(entry / TWO_8)], Vector65816Failed)], Ok(()))
  }

  /** 65C02: reset vector, the "CROSSDEV" signature, the microkernel start address, the kernel argument length. */
  function Plan65C02(entry: u32): Plan<VectorError> {
    Plan([Write(0xFFFC, [Low8(entry), Low8(entry / TWO_8)], Vector65C02Failed),
          Write(0x0080, CROSSDEV, CrossdevFailed),
          Write(0x0088, [Low8(entry), Low8(entry / TWO_8)], MicrokernelStartFailed),
          Write(0x00FA, [0x00, 0x00], KernelArgsFailed)], Ok(()))
  }

  /** 680x0: the 32-bit big-endian entry in the reset vector at address 4. */
  function Plan680X0(entry: u32): Plan<VectorError> {
    Plan([Write(0x0000_0004, BEBytes(entry, 4), Vector680X0Failed)], Ok(()))
  }

  /** What `SetupResetVectors(cpu, entry, …)` writes, selected by the CPU name. */
  function ResetVectorPlan(cpu: string, entry: u32): Plan<VectorError> {
    if cpu == "65816" then Plan65816(entry)
    else if cpu == "65c02" || cpu == "65C02" then Plan65C02(entry)
    else if Config.IsMotorola680X0(cpu) then Plan680X0(entry)
    else Plan([], Err(UnsupportedCpu(cpu)))
  }

  /** `SetupResetVectors`: the writes for `cpu`, through `handler`, stopping at the first refusal. */
  method SetupResetVectors(cpu: string, entry: u32, handler: Port) returns (r: Result<(), VectorError>)
    modifies handler
    ensures Ran(old(handler.log), handler.log, ResetVectorPlan(cpu, entry), r)
  {
    if cpu == "65816" {
      r := Setup65816Vectors(entry, handler);
    } else if cpu == "65c02" || cpu == "65C02" {
      r := Setup65C02Vectors(entry, handler);
    } else if Config.IsMotorola680X0(cpu) {
      r := Setup680X0Vectors(entry, handler);
    } else {
      r := Err(UnsupportedCpu(cpu));
      RanNothing(handler.log, r);
    }
  }

  method Setup65816Vectors(entry: u32, handler: Port) returns (r: Result<(), VectorError>)
    modifies handler
    ensures Ran(old(handler.log), handler.log, Plan65816(entry), r)
  {
    var plan := Plan65816(entry);
    var ok;
    if OutsideBank0(entry) {
      var stub := [0x18, 0xFB, 0x5C, Low8(entry), Low8(entry / TWO_8), Low8(entry / TWO_16)];
      ok := handler.Perform(WriteBlock(0xFF80, stub));
      if !ok {
        r := Err(StubFailed);
        RanStopped(old(handler.log), handler.log, plan, 0, r);
        return;
      }
      ok := handler.Perform(WriteBlock(0xFFFC, [0x80, 0xFF]));
      if !ok {
        r := Err(Vector65816Failed);
        RanStopped(old(handler.log), handler.log, plan, 1, r);
        return;
      }
    } else {
      ok := handler.Perform(WriteBlock(0xFFFC, [Low8(entry), Low8(entry / TWO_8)]));
      if !ok {
        r := Err(Vector65816Failed);
        RanStopped(old(handler.log), handler.log, plan, 0, r);
        return;
      }
    }
    r := Ok(());
    RanCompleted(old(handler.log), handler.log, plan, r);
  }

  method Setup65C02Vectors(entry: u32, handler: Port) returns (r: Result<(), VectorError>)
    modifies handler
    ensures Ran(old(handler.log), handler.log, Plan65C02(entry), r)
  {
    var plan := Plan65C02(entry);
    var ok := handler.Perform(WriteBlock(0xFFFC, [Low8(entry), Low8(entry / TWO_8)]));
    if !ok {
      r := Err(Vector65C02Failed);
      RanStopped(old(handler.log), handler.log, plan, 0, r);
      return;
    }
    ok := handler.Perform(WriteBlock(0x0080, CROSSDEV));
    if !ok {
      r := Err(CrossdevFailed);
      RanStopped(old(handler.log), handler.log, plan, 1, r);
      return;
    }
    ok := handler.Perform(WriteBlock(0x0088, [Low8(entry), Low8(entry / TWO_8)]));
    if !ok {
      r := Err(MicrokernelStartFailed);
      RanStopped(old(handler.log), handler.log, plan, 2, r);
      return;
    }
    ok := handler.Perform(WriteBlock(0x00FA, [0x00, 0x00]));
    if !ok {
      r := Err(KernelArgsFailed);
      RanStopped(old(handler.log), handler.log, plan, 3, r);
      return;
    }
    r := Ok(());
    RanCompleted(old(handler.log), handler.log, plan, r);
  }

  method Setup680X0Vectors(entry: u32, handler: Port) returns (r: Result<(), VectorError>)
    modifies handler
    ensures Ran(old(handler.log), handler.log, Plan680X0(entry), r)
  {
    var plan := Plan680X0(entry);
    var resetVector := [Low8(entry / TWO_24), Low8(entry / TWO_16), Low8(entry / TWO_8), Low8(entry)];
    BigEndianVector(entry);
    var ok := handler.Perform(WriteBlock(0x0000_0004, resetVector));
    if !ok {
      r := Err(Vector680X0Failed);
      RanStopped(old(handler.log), handler.log, plan, 0, r);
      return;
    }
    r := Ok(());
    RanCompleted(old(handler.log), handler.log, plan, r);
  }

  /** The bytes `byte(entry >> 24), …, byte(entry)` are its big-endian encoding. */
  lemma BigEndianVector(entry: u32)
    ensures BEBytes(entry, 4) == [Low8(entry / TWO_24), Low8(entry / TWO_16), Low8(entry / TWO_8), Low8(entry)]
  {
    assert entry / TWO_8 / TWO_8 == entry / TWO_16;
    assert entry / TWO_16 / TWO_8 == entry / TWO_24;
  }

  // ---------------------------------------------------------------------
  // Properties of the reset-vector writes

  /** A 65816 entry outside bank 0 gets the stub first and the vector to it second. */
  lemma Example65816Stub()
    ensures ResetVectorPlan("65816", 0x01_8000).steps ==
      [Write(0xFF80, [0x18, 0xFB, 0x5C, 0x00, 0x80, 0x01], StubFailed),
       Write(0xFFFC, [0x80, 0xFF], Vector65816Failed)]
  {
  }

  /** A bank-0 65816 entry gets one write: the 16-bit vector, low byte first. */
  lemma Example65816Bank0()
    ensures ResetVectorPlan("65816", 0x00_8000).steps == [Write(0xFFFC, [0x00, 0x80], Vector65816Failed)]
  {
  }

  /** The 65816 stub jumps to the entry: its last three bytes are the 24-bit entry, low byte first. */
  lemma Stub65816Jumps(entry: u32)
    requires OutsideBank0(entry)
    ensures var stub := ResetVectorPlan("65816", entry).steps[0].call.data;
      stub[..3] == [0x18, 0xFB, 0x5C] && LE(stub[3..]) == entry % TWO_24
  {
    var stub := ResetVectorPlan("65816", entry).steps[0].call.data;
    var tail := stub[3..];
    assert tail == [Low8(entry), Low8(entry / TWO_8), Low8(entry / TWO_16)];
    var lo, mid, hi := Low8(entry), Low8(entry / TWO_8), Low8(entry / TWO_16);
    assert tail[1..] == [mid, hi] && tail[1..][1..] == [hi] && tail[1..][1..][1..] == [];
    assert LE(tail[1..][1..]) == hi;
    assert LE(tail[1..]) == mid + TWO_8 * hi;
    assert LE(tail) == lo + TWO_8 * (mid + TWO_8 * hi);
    assert entry / TWO_8 / TWO_8 == entry / TWO_16;
    var q := entry / TWO_8;
    assert entry == q * TWO_8 + lo;
    assert q == (q / TWO_8) * TWO_8 + mid;
    assert entry == (entry / TWO_16) * TWO_16 + mid * TWO_8 + lo;
    assert entry / TWO_16 == (entry / TWO_24) * TWO_8 + hi;
    assert entry == (entry / TWO_24) * TWO_24 + hi * TWO_16 + mid * TWO_8 + lo;
  }

  /** The 65C02 writes land in order at 0xFFFC, 0x0080, 0x0088 and 0x00FA. */
  lemma Layout65C02(entry: u32)
    ensures Calls(ResetVectorPlan("65C02", entry).steps) == Calls(ResetVectorPlan("65c02", entry).steps)
    ensures var s := ResetVectorPlan("65C02", entry).steps;
      |s| == 4 && s[0].call.address == 0xFFFC && s[1].call == WriteBlock(0x0080, CROSSDEV)
      && s[2].call.address == 0x0088 && s[2].call.data == s[0].call.data
      && s[3].call == WriteBlock(0x00FA, [0, 0])
      && LE(s[0].call.data) == entry % TWO_16
  {
    var d := ResetVectorPlan("65C02", entry).steps[0].call.data;
    assert d[1..][1..] == [];
  }

  /** Every 680x0 part gets exactly one write: the entry, big-endian, at address 4. */
  lemma Single680X0Vector(cpu: string, entry: u32)
    requires cpu == "m68k" || cpu == "68000" || cpu == "68040" || cpu == "68060"
    ensures ResetVectorPlan(cpu, entry) == Plan([Write(4, BEBytes(entry, 4), Vector680X0Failed)], Ok(()))
    ensures BE(ResetVectorPlan(cpu, entry).steps[0].call.data) == entry
  {
    BEOfBEBytes(entry, 4);
    assert Pow256(4) == TWO_32 by {
      assert Pow256(2) == TWO_16;
    }
  }

  /** Exactly the four CPU families are supported; any other name is an error with nothing written. */
  lemma SupportedCpus(cpu: string, entry: u32)
    ensures ResetVectorPlan(cpu, entry).end.Ok? <==>
      (cpu == "65816" || cpu == "65c02" || cpu == "65C02" || Config.IsMotorola680X0(cpu))
    ensures ResetVectorPlan(cpu, entry).end.Err? ==> ResetVectorPlan(cpu, entry).steps == []
  {
  }
}
