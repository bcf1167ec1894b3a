/**
 * The PGX loader (pkg/loader/pgx.go): the signature "PGX", a byte whose
 * high nibble is the format version and whose low nibble names the CPU,
 * a 32-bit little-endian load address, then the program. The program is
 * written in one block at that address, then the reset vectors for the
 * configured CPU are pointed at it.
 */
module Pgx {
  import opened Wrappers
  import opened Bytes
  import opened Device
  import opened Loader
  import Config
  import Vectors

  const SIGNATURE: seq<byte> := [0x50, 0x47, 0x58]
  /** The offset of the program data, and so the smallest valid file. */
  const DATA_OFFSET: nat := 8

  const CPU_65816: byte := 0x01
  const CPU_680X0: byte := 0x02
  const CPU_65C02: byte := 0x03

  /** `verifyCPUCompatibility`: the file's CPU id must name the configured CPU's family. */
  function CpuCompatibility(pgxCpu: byte, cpu: string): Result<(), LoadError> {
    if pgxCpu == CPU_65816 then
      if cpu != "65816" then Err(WrongCpu(pgxCpu, cpu)) else Ok(())
    else if pgxCpu == CPU_65C02 then
      if cpu != "65C02" && cpu != "65c02" then Err(WrongCpu(pgxCpu, cpu)) else Ok(())
    else if pgxCpu == CPU_680X0 then
      if !Config.IsMotorola680X0(cpu) then Err(WrongCpu(pgxCpu, cpu)) else Ok(())
    else Err(UnsupportedCpuType(pgxCpu))
  }

  /**
   * What `Process` does with an open file and a handler: the header checks
   * in file order, each failing before anything is written, then the data
   * block and the reset vectors, the vectors only once the block is written.
   */
  function PgxPlan(data: seq<byte>, cpu: string): Plan<LoadError> {
    if |data| < DATA_OFFSET then Plan([], Err(FileTooSmall))
    else if data[..3] != SIGNATURE then Plan([], Err(BadSignature(data[..3])))
    else if data[3] / 16 > 0 then Plan([], Err(UnsupportedVersion(data[3] / 16)))
    else
      var compatible := CpuCompatibility(data[3] % 16, cpu);
      if compatible.Err? then Plan([], Err(compatible.error))
      else
        var address := Field32(data[4], data[5], data[6], data[7]);
        AndThen(Plan([Step(WriteBlock(address, data[DATA_OFFSET..]), DataBlockRejected)], Ok(())),
                MapErrors(Vectors.ResetVectorPlan(cpu, address), VectorsError))
  }

  class PgxLoader {
    const base: BaseLoader
    var data: Option<seq<byte>>
    const config: Config.Config

    /** `NewPGXLoader(cfg)`: no file, no handler, the given configuration. */
    constructor (cfg: Config.Config)
      ensures fresh(base) && base.file == None && base.handler == null
      ensures data == None && config == cfg
    {
      base := new BaseLoader();
      data := None;
      config := cfg;
    }

    /** Reads the whole file; nothing about its contents is checked yet. */
    method Open(contents: Option<seq<byte>>) returns (r: Result<(), LoadError>)
      modifies this
      ensures contents.None? ==> r == Err(ReadFailed) && data == old(data)
      ensures contents.Some? ==> r == Ok(()) && data == contents
    {
      if contents.None? {
        return Err(ReadFailed);
      }
      data := contents;
      return Ok(());
    }

    /** Forgets the file. */
    method Close() returns (r: Result<(), LoadError>)
      modifies this
      ensures data == None && r == Ok(())
    {
      data := None;
      return Ok(());
    }

    /** Checks the header, then writes the program and the reset vectors through the handler. */
    method Process() returns (r: Result<(), LoadError>)
      modifies base.handler
      ensures data.None? ==> r == Err(FileNotOpen)
      ensures data.Some? && base.handler == null ==> r == Err(HandlerNotSet)
      ensures data.Some? && base.handler != null ==>
        Ran(old(base.handler.log), base.handler.log, PgxPlan(data.value, config.cpu), r)
    {
      if data.None? {
        return Err(FileNotOpen);
      }
      if base.handler == null {
        return Err(HandlerNotSet);
      }
      var h, d, cpu := base.handler, data.value, config.cpu;
      if |d| < DATA_OFFSET {
        r := Err(FileTooSmall);
        RanNothing(h.log, r);
        return;
      }
      if d[..3] != SIGNATURE {
        r := Err(BadSignature(d[..3]));
        RanNothing(h.log, r);
        return;
      }
      var version := d[3] / 16;
      if version > 0 {
        r := Err(UnsupportedVersion(version));
        RanNothing(h.log, r);
        return;
      }
      var compatible := CpuCompatibility(d[3] % 16, cpu);
      if compatible.Err? {
        r := Err(compatible.error);
        RanNothing(h.log, r);
        return;
      }
      var address := Field32(d[4], d[5], d[6], d[7]);
      var block := d[DATA_OFFSET..];
      ghost var first := Plan([Step(WriteBlock(address, block), DataBlockRejected)], Ok(()));
      ghost var vectors := Vectors.ResetVectorPlan(cpu, address);
      ghost var log0 := h.log;
      var ok := h.Perform(WriteBlock(address, block));
      if !ok {
        r := Err(DataBlockRejected);
        RanStopped(log0, h.log, first, 0, r);
        RanAndThen(log0, h.log, h.log, first, MapErrors(vectors, VectorsError), r, r);
        return;
      }
      RanCompleted(log0, h.log, first, Ok(()));
      ghost var log1 := h.log;
      var v := Vectors.SetupResetVectors(cpu, address, h);
      RanMapErrors(log1, h.log, vectors, VectorsError, v);
      r := MapResult(v, VectorsError);
      RanAndThen(log0, log1, h.log, first, MapErrors(vectors, VectorsError), Ok(()), r);
    }
  }

  // ---------------------------------------------------------------------
  // Properties of the PGX loader

  /** The CPU id is accepted exactly for the configured CPU's family, and the error says which check failed. */
  lemma CpuCompatibilityIff(pgxCpu: byte, cpu: string)
    ensures CpuCompatibility(pgxCpu, cpu).Ok? <==>
      (pgxCpu == 1 && cpu == "65816")
      || (pgxCpu == 3 && (cpu == "65C02" || cpu == "65c02"))
      || (pgxCpu == 2 && Config.IsMotorola680X0(cpu))
    ensures CpuCompatibility(pgxCpu, cpu).Err? ==>
      CpuCompatibility(pgxCpu, cpu).error ==
        (if 1 <= pgxCpu <= 3 then WrongCpu(pgxCpu, cpu) else UnsupportedCpuType(pgxCpu))
  {
  }

  /** Every CPU a PGX file may be built for has reset vectors; so the vector writes end in success. */
  lemma CompatibleHasVectors(pgxCpu: byte, cpu: string, entry: u32)
    requires CpuCompatibility(pgxCpu, cpu).Ok?
    ensures Vectors.ResetVectorPlan(cpu, entry).end.Ok?
  {
    Vectors.SupportedCpus(cpu, entry);
  }

  /**
   * A file that fails a header check writes nothing, and the checks come in
   * order: size, signature, version, CPU.
   */
  lemma HeaderRejects(data: seq<byte>, cpu: string)
    ensures |data| < 8 ==> PgxPlan(data, cpu) == Plan([], Err(FileTooSmall))
    ensures |data| >= 8 && data[..3] != SIGNATURE ==> PgxPlan(data, cpu) == Plan([], Err(BadSignature(data[..3])))
    ensures |data| >= 8 && data[..3] == SIGNATURE && data[3] >= 16 ==>
      PgxPlan(data, cpu) == Plan([], Err(UnsupportedVersion(data[3] / 16)))
    ensures |data| >= 8 && data[..3] == SIGNATURE && data[3] < 16 && CpuCompatibility(data[3], cpu).Err? ==>
      PgxPlan(data, cpu) == Plan([], Err(CpuCompatibility(data[3], cpu).error))
  {
  }

  /**
   * A file that passes the checks writes its data, bytes 8 to the end, at
   * the little-endian address in bytes 4 to 7, and then the reset vectors
   * for that address; the load succeeds when every write does.
   */
  lemma AcceptedFile(data: seq<byte>, cpu: string)
    requires |data| >= 8 && data[..3] == SIGNATURE && data[3] < 16 && CpuCompatibility(data[3], cpu).Ok?
    ensures var address := LE(data[4..8]);
      address < TWO_32
      && PgxPlan(data, cpu).steps ==
        [Step(WriteBlock(address, data[8..]), DataBlockRejected)]
        + MapErrors(Vectors.ResetVectorPlan(cpu, address), VectorsError).steps
      && PgxPlan(data, cpu).end == Ok(())
  {
    Field32IsLE(data[4..8]);
    CompatibleHasVectors(data[3], cpu, Field32(data[4], data[5], data[6], data[7]));
  }

  /** A PGX file for CPU id `pgxCpu` (format version 0) loading `program` at `address`. */
  function PgxFile(pgxCpu: byte, address: u32, program: seq<byte>): (f: seq<byte>)
    requires pgxCpu < 16
    ensures |f| == 8 + |program|
  {
    SIGNATURE + [pgxCpu] + LEBytes(address, 4) + program
  }

  /** Writing a program into a PGX file and loading it writes the program at its address, then the vectors. */
  lemma PgxRoundTrip(pgxCpu: byte, address: u32, program: seq<byte>, cpu: string)
    requires pgxCpu < 16 && CpuCompatibility(pgxCpu, cpu).Ok?
    ensures PgxPlan(PgxFile(pgxCpu, address, program), cpu) ==
      Plan([Step(WriteBlock(address, program), DataBlockRejected)]
           + MapErrors(Vectors.ResetVectorPlan(cpu, address), VectorsError).steps, Ok(()))
  {
    var f := PgxFile(pgxCpu, address, program);
    assert f[..3] == SIGNATURE && f[3] == pgxCpu;
    assert f[4..8] == LEBytes(address, 4);
    assert f[8..] == program;
    assert Pow256(4) == TWO_32 by {
      assert Pow256(2) == TWO_16;
    }
    LEOfLEBytes(address, 4);
    AcceptedFile(f, cpu);
  }

  /** A 65816 program at 0x01_0000 gets its data write, then the bank-switching stub and its vector. */
  lemma Example65816()
    ensures PgxPlan([0x50, 0x47, 0x58, 0x01, 0x00, 0x00, 0x01, 0x00, 0xEA], "65816").steps ==
      [Step(WriteBlock(0x01_0000, [0xEA]), DataBlockRejected),
       Step(WriteBlock(0xFF80, [0x18, 0xFB, 0x5C, 0x00, 0x00, 0x01]), VectorsFailed(Vectors.StubFailed)),
       Step(WriteBlock(0xFFFC, [0x80, 0xFF]), VectorsFailed(Vectors.Vector65816Failed))]
  {
    var data: seq<byte> := [0x50, 0x47, 0x58, 0x01, 0x00, 0x00, 0x01, 0x00, 0xEA];
    assert data[..3] == SIGNATURE;
    assert data[8..] == [0xEA];
  }
}
