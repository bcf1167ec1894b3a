/**
 * The upload commands of cmd/upload.go: `upload`, `upload-srec`,
 * `upload-wdc`, `run-pgx` and `run-pgz` hand the file to the loader of its
 * format, which writes through the debug port; `binary` writes a raw file
 * in pieces at an address; `run-m68k-bin` does the same and then copies
 * the file's first eight bytes (the initial stack pointer and reset vector
 * of a 68000) to address 0.
 */
module Upload {
  import opened Wrappers
  import opened Bytes
  import opened Device
  import opened Command
  import Config
  import Display
  import Loader
  import IntelHex
  import SRec
  import Wdc
  import Pgx
  import Pgz

  // ---------------------------------------------------------------------
  // uploadFile

  /** The file formats `uploadFile` knows, by the names its commands pass. */
  datatype Format = IntelHexFormat | SRecFormat | WdcFormat | PgxFormat | PgzFormat

  function FormatOf(name: string): (f: Option<Format>)
    ensures f.Some? <==> name in {"intelhex", "srec", "wdc", "pgx", "pgz"}
  {
    if name == "intelhex" then Some(IntelHexFormat)
    else if name == "srec" then Some(SRecFormat)
    else if name == "wdc" then Some(WdcFormat)
    else if name == "pgx" then Some(PgxFormat)
    else if name == "pgz" then Some(PgzFormat)
    else None
  }

  /** A loader's error while processing, as `uploadFile` reports it. */
  function LoadFailure(e: Loader.LoadError): CommandError {
    LoadFailed(e)
  }

  /** The loader's plan, its errors reported by `uploadFile`. */
  function Loading(plan: Plan<Loader.LoadError>): Plan<CommandError> {
    MapErrors(plan, LoadFailure)
  }

  /**
   * What the loader of `format` does with the file once the session is
   * open. `lines` is the file read as text lines and `bytes` the file read
   * whole (`None` when it cannot be opened or read); `cpu` is the
   * configured processor.
   */
  function LoadPlan(format: Format, lines: Option<seq<string>>, bytes: Option<seq<byte>>, cpu: string): Plan<CommandError> {
    match format
    case IntelHexFormat =>
      if lines.None? then Plan([], Err(OpenFileFailed(Loader.OpenFailed)))
      else Loading(IntelHex.ScanHex(lines.value, 0).plan)
    case SRecFormat =>
      if lines.None? then Plan([], Err(OpenFileFailed(Loader.OpenFailed)))
      else Loading(SRec.ScanSRec(lines.value))
    case WdcFormat =>
      if bytes.None? then Plan([], Err(OpenFileFailed(Loader.ReadFailed)))
      else if |bytes.value| < 1 || bytes.value[0] != Wdc.SIGNATURE then Plan([], Err(OpenFileFailed(Loader.MissingSignature)))
      else Loading(Wdc.WdcPlan(bytes.value, 1))
    case PgxFormat =>
      if bytes.None? then Plan([], Err(OpenFileFailed(Loader.ReadFailed)))
      else Loading(Pgx.PgxPlan(bytes.value, cpu))
    case PgzFormat =>
      if bytes.None? then Plan([], Err(OpenFileFailed(Loader.ReadFailed)))
      else if |bytes.value| == 0 then Plan([], Err(OpenFileFailed(Loader.FileTooSmall)))
      else if bytes.value[0] == Pgz.HEADER_32 then Loading(Pgz.PgzPlan(bytes.value, 4, cpu, 1))
      else if bytes.value[0] == Pgz.HEADER_24 then Loading(Pgz.PgzPlan(bytes.value, 3, cpu, 1))
      else Plan([], Err(OpenFileFailed(Loader.InvalidHeader(bytes.value[0]))))
  }

  /** The session body of `uploadFile`: an unknown format is refused only once the session is open. */
  function FilePlan(format: string, lines: Option<seq<string>>, bytes: Option<seq<byte>>, cpu: string): Plan<CommandError> {
    var f := FormatOf(format);
    if f.None? then Plan([], Err(UnsupportedFormat(format)))
    else LoadPlan(f.value, lines, bytes, cpu)
  }

  /** `uploadFile(filename, format)`. */
  method UploadFile(h: Port, cfg: Config.Config, port: string, format: string,
                    lines: Option<seq<string>>, bytes: Option<seq<byte>>, stopped: bool) returns (r: Result<(), CommandError>)
    modifies h
    ensures port == "" ==> r == Err(NoPort) && h.log == old(h.log)
    ensures port != "" ==> Session(old(h.log), h.log, stopped, FilePlan(format, lines, bytes, cfg.cpu), r)
  {
    var portCheck := ValidatePort(port);
    if portCheck.Err? {
      return Err(portCheck.error);
    }
    ghost var log0 := h.log;
    ghost var body := FilePlan(format, lines, bytes, cfg.cpu);
    r := Start(h, stopped);
    if r.Err? {
      SessionFailed(log0, h.log, stopped, body, r);
      return;
    }
    ghost var mid := h.log;
    var f := FormatOf(format);
    if f.None? {
      r := Err(UnsupportedFormat(format));
      RanNothing(h.log, r);
    } else {
      r := RunLoader(h, cfg, f.value, lines, bytes);
    }
    ghost var log2 := h.log;
    Finish(h, stopped);
    SessionClosed(log0, mid, log2, h.log, stopped, body, r);
  }

  /** Reports a run of a loader's plan the way `uploadFile` does. */
  lemma RanLoading(log0: seq<Attempt>, log1: seq<Attempt>, plan: Plan<Loader.LoadError>, r0: Result<(), Loader.LoadError>)
    requires Ran(log0, log1, plan, r0)
    ensures Ran(log0, log1, Loading(plan), if r0.Err? then Err(LoadFailed(r0.error)) else Ok(()))
  {
    RanMapErrors(log0, log1, plan, LoadFailure, r0);
  }

  /** Creates the loader of `format`, opens the file, sets the debug port as its handler and processes the file. */
  method RunLoader(h: Port, cfg: Config.Config, format: Format, lines: Option<seq<string>>, bytes: Option<seq<byte>>)
    returns (r: Result<(), CommandError>)
    modifies h
    ensures Ran(old(h.log), h.log, LoadPlan(format, lines, bytes, cfg.cpu), r)
  {
    match format
    case IntelHexFormat => r := RunIntelHex(h, cfg, lines, bytes);
    case SRecFormat => r := RunSRec(h, cfg, lines, bytes);
    case WdcFormat => r := RunWdc(h, cfg, lines, bytes);
    case PgxFormat => r := RunPgx(h, cfg, lines, bytes);
    case PgzFormat => r := RunPgz(h, cfg, lines, bytes);
  }

  /** `NewIntelHexLoader()`, reading the file as lines. */
  method RunIntelHex(h: Port, cfg: Config.Config, lines: Option<seq<string>>, bytes: Option<seq<byte>>) returns (r: Result<(), CommandError>)
    modifies h
    ensures Ran(old(h.log), h.log, LoadPlan(IntelHexFormat, lines, bytes, cfg.cpu), r)
  {
    ghost var log0 := h.log;
    var ldr := new IntelHex.IntelHexLoader();
    var r0 := ldr.Open(lines);
    if r0.Err? {
      r := Err(OpenFileFailed(r0.error));
      RanNothing(h.log, r);
      return;
    }
    ldr.base.SetHandler(h);
    r0 := ldr.Process();
    RanLoading(log0, h.log, IntelHex.ScanHex(lines.value, 0).plan, r0);
    r := if r0.Err? then Err(LoadFailed(r0.error)) else Ok(());
  }

  /** `NewSRecLoader()`, reading the file as lines. */
  method RunSRec(h: Port, cfg: Config.Config, lines: Option<seq<string>>, bytes: Option<seq<byte>>) returns (r: Result<(), CommandError>)
    modifies h
    ensures Ran(old(h.log), h.log, LoadPlan(SRecFormat, lines, bytes, cfg.cpu), r)
  {
    ghost var log0 := h.log;
    var ldr := new SRec.SRecLoader();
    var r0 := ldr.Open(lines);
    if r0.Err? {
      r := Err(OpenFileFailed(r0.error));
      RanNothing(h.log, r);
      return;
    }
    ldr.base.SetHandler(h);
    r0 := ldr.Process();
    RanLoading(log0, h.log, SRec.ScanSRec(lines.value), r0);
    r := if r0.Err? then Err(LoadFailed(r0.error)) else Ok(());
  }

  /** `NewWDCLoader()`, reading the file whole. */
  method RunWdc(h: Port, cfg: Config.Config, lines: Option<seq<string>>, bytes: Option<seq<byte>>) returns (r: Result<(), CommandError>)
    modifies h
    ensures Ran(old(h.log), h.log, LoadPlan(WdcFormat, lines, bytes, cfg.cpu), r)
  {
    ghost var log0 := h.log;
    var ldr := new Wdc.WdcLoader();
    var r0 := ldr.Open(bytes);
    if r0.Err? {
      r := Err(OpenFileFailed(r0.error));
      RanNothing(h.log, r);
      return;
    }
    ldr.base.SetHandler(h);
    r0 := ldr.Process();
    RanLoading(log0, h.log, Wdc.WdcPlan(bytes.value, 1), r0);
    r := if r0.Err? then Err(LoadFailed(r0.error)) else Ok(());
  }

  /** `NewPGXLoader(cfg)`, reading the file whole. */
  method RunPgx(h: Port, cfg: Config.Config, lines: Option<seq<string>>, bytes: Option<seq<byte>>) returns (r: Result<(), CommandError>)
    modifies h
    ensures Ran(old(h.log), h.log, LoadPlan(PgxFormat, lines, bytes, cfg.cpu), r)
  {
    ghost var log0 := h.log;
    var ldr := new Pgx.PgxLoader(cfg);
    var r0 := ldr.Open(bytes);
    if r0.Err? {
      r := Err(OpenFileFailed(r0.error));
      RanNothing(h.log, r);
      return;
    }
    ldr.base.SetHandler(h);
    r0 := ldr.Process();
    RanLoading(log0, h.log, Pgx.PgxPlan(bytes.value, cfg.cpu), r0);
    r := if r0.Err? then Err(LoadFailed(r0.error)) else Ok(());
  }

  /** `NewPGZLoader(cfg)`, reading the file whole. */
  method RunPgz(h: Port, cfg: Config.Config, lines: Option<seq<string>>, bytes: Option<seq<byte>>) returns (r: Result<(), CommandError>)
    modifies h
    ensures Ran(old(h.log), h.log, LoadPlan(PgzFormat, lines, bytes, cfg.cpu), r)
  {
    ghost var log0 := h.log;
    var ldr := new Pgz.PgzLoader(cfg);
    var r0 := ldr.Open(bytes);
    if r0.Err? {
      r := Err(OpenFileFailed(r0.error));
      RanNothing(h.log, r);
      return;
    }
    ldr.base.SetHandler(h);
    r0 := ldr.Process();
    RanLoading(log0, h.log, Pgz.PgzPlan(bytes.value, ldr.addressSize, cfg.cpu, 1), r0);
    r := if r0.Err? then Err(LoadFailed(r0.error)) else Ok(());
  }

  /**
   * `uploadFile` with a format it does not know connects, enters debug
   * mode, and then stops with `UnsupportedFormat` before any other call.
   */
  lemma UnknownFormatCallsNothing(format: string, lines: Option<seq<string>>, bytes: Option<seq<byte>>, cpu: string)
    requires FormatOf(format).None?
    ensures FilePlan(format, lines, bytes, cpu) == Plan([], Err(UnsupportedFormat(format)))
  {
  }

  /**
   * Once a loader has the file, `uploadFile` issues exactly the loader's
   * calls, succeeds exactly when the loader does, and reports the loader's
   * error as `LoadFailed`.
   */
  lemma LoadingKeepsCalls(plan: Plan<Loader.LoadError>)
    ensures Calls(Loading(plan).steps) == Calls(plan.steps)
    ensures Loading(plan).end.Ok? <==> plan.end.Ok?
    ensures plan.end.Err? ==> Loading(plan).end == Err(LoadFailed(plan.end.error))
  {
    var l := Loading(plan);
    assert |Calls(l.steps)| == |Calls(plan.steps)|;
    forall i | 0 <= i < |l.steps|
      ensures Calls(l.steps)[i] == Calls(plan.steps)[i]
    {
      assert Calls(l.steps)[i] == l.steps[i].call == plan.steps[i].call;
    }
  }

  /** Intel HEX lines are read with the base address at 0. */
  lemma IntelHexStartsAtZero(lines: seq<string>, cpu: string)
    ensures FilePlan("intelhex", Some(lines), None, cpu) == Loading(IntelHex.ScanHex(lines, 0).plan)
  {
  }

  /**
   * A PGZ file is read with 4-byte fields after a `z` header and 3-byte
   * fields after a `Z` header; any other first byte is refused when the
   * file is opened, before any call.
   */
  lemma PgzFieldSize(bytes: seq<byte>, cpu: string)
    requires |bytes| > 0
    ensures bytes[0] == Pgz.HEADER_32 ==> FilePlan("pgz", None, Some(bytes), cpu) == Loading(Pgz.PgzPlan(bytes, 4, cpu, 1))
    ensures bytes[0] == Pgz.HEADER_24 ==> FilePlan("pgz", None, Some(bytes), cpu) == Loading(Pgz.PgzPlan(bytes, 3, cpu, 1))
    ensures bytes[0] != Pgz.HEADER_32 && bytes[0] != Pgz.HEADER_24 ==>
      FilePlan("pgz", None, Some(bytes), cpu).steps == []
      && FilePlan("pgz", None, Some(bytes), cpu).end == Err(OpenFileFailed(Loader.InvalidHeader(bytes[0])))
  {
  }

  // ---------------------------------------------------------------------
  // uploadBinary and uploadM68kBinary

  /** The offset of a failed piece, as both binary commands report it. */
  function OffsetFail(): nat -> CommandError {
    (o: nat) => UploadFailedAt(o)
  }

  /** The pieces of a raw binary written from `address`, each at `address + offset` with 32-bit wrap-around. */
  function BinarySteps(address: u32, data: seq<byte>, chunkSize: nat): seq<Step<CommandError>>
    requires chunkSize > 0
  {
    Chunks(address, data, chunkSize, 0, OffsetFail())
  }

  /** The session body of `uploadBinary`. */
  function BinaryPlan(address: u32, data: seq<byte>, chunkSize: nat): Plan<CommandError>
    requires chunkSize > 0
  {
    Plan(BinarySteps(address, data, chunkSize), Ok(()))
  }

  /** `uploadBinary`: the checks come before connecting, the writes inside the session. */
  method UploadBinary(h: Port, cfg: Config.Config, port: string, addressText: string, file: Option<seq<byte>>, stopped: bool)
    returns (r: Result<(), CommandError>)
    requires cfg.chunkSize > 0
    modifies h
    ensures var c := AddressInputs(port, addressText, file);
      && (c.Err? ==> r == Err(c.error) && h.log == old(h.log))
      && (c.Ok? ==> Session(old(h.log), h.log, stopped, BinaryPlan(c.value.0, c.value.1, cfg.chunkSize), r))
  {
    var c := AddressInputs(port, addressText, file);
    if c.Err? {
      return Err(c.error);
    }
    var address, data := c.value.0, c.value.1;
    ghost var log0 := h.log;
    ghost var body := BinaryPlan(address, data, cfg.chunkSize);
    r := Start(h, stopped);
    if r.Err? {
      SessionFailed(log0, h.log, stopped, body, r);
      return;
    }
    ghost var mid := h.log;
    r := WriteBinary(h, address, data, cfg.chunkSize);
    ghost var log2 := h.log;
    Finish(h, stopped);
    SessionClosed(log0, mid, log2, h.log, stopped, body, r);
  }

  /** The piece loop of both binary commands. */
  method WriteBinary(h: Port, address: u32, data: seq<byte>, chunkSize: nat) returns (r: Result<(), CommandError>)
    requires chunkSize > 0
    modifies h
    ensures Ran(old(h.log), h.log, BinaryPlan(address, data, chunkSize), r)
  {
    ghost var log0 := h.log;
    ghost var done: seq<Step<CommandError>> := [];
    var offset := 0;
    while offset < |data|
      invariant offset <= |data|
      invariant h.log == log0 + Oks(done)
      invariant BinaryPlan(address, data, chunkSize) == Then(done, Plan(Chunks(address, data, chunkSize, offset, OffsetFail()), Ok(())))
      decreases |data| - offset
    {
      var end := offset + chunkSize;
      if end > |data| {
        end := |data|;
      }
      var step := Step(WriteBlock(Wrap32(address + offset), data[offset..end]), UploadFailedAt(offset));
      ghost var rest := Plan(Chunks(address, data, chunkSize, end, OffsetFail()), Ok(()));
      assert Plan(Chunks(address, data, chunkSize, offset, OffsetFail()), Ok(())) == Then([step], rest);
      var ok := Issue(h, step, log0, done, rest);
      if !ok {
        return Err(UploadFailedAt(offset));
      }
      done := done + [step];
      offset := end;
    }
    r := Ok(());
    RanFinished(log0, h.log, done, Plan(Chunks(address, data, chunkSize, offset, OffsetFail()), Ok(())), r);
  }

  /** The checks `uploadM68kBinary` makes before connecting: those of `uploadBinary`, and room for the two vectors. */
  function M68kInputs(port: string, addressText: string, file: Option<seq<byte>>): (r: Result<(u32, seq<byte>), CommandError>)
    ensures r.Ok? <==> port != "" && Display.ParseHexAddress(addressText).Ok? && file.Some? && |file.value| >= 8
    ensures r.Ok? ==> r.value == (Display.ParseHexAddress(addressText).value, file.value)
    ensures AddressInputs(port, addressText, file).Err? ==> r == AddressInputs(port, addressText, file)
    ensures AddressInputs(port, addressText, file).Ok? && |file.value| < 8 ==> r == Err(FileTooSmall)
  {
    var c := AddressInputs(port, addressText, file);
    if c.Err? then c
    else if |c.value.1| < 8 then Err(FileTooSmall)
    else c
  }

  /** The session body of `uploadM68kBinary`: the file at `address`, then its first eight bytes at 0. */
  function M68kPlan(address: u32, data: seq<byte>, chunkSize: nat): Plan<CommandError>
    requires chunkSize > 0 && |data| >= 8
  {
    Plan(BinarySteps(address, data, chunkSize) + [Step(WriteBlock(0, data[..8]), VectorsFailed)], Ok(()))
  }

  /** `uploadM68kBinary`. */
  method UploadM68kBinary(h: Port, cfg: Config.Config, port: string, addressText: string, file: Option<seq<byte>>, stopped: bool)
    returns (r: Result<(), CommandError>)
    requires cfg.chunkSize > 0
    modifies h
    ensures var c := M68kInputs(port, addressText, file);
      && (c.Err? ==> r == Err(c.error) && h.log == old(h.log))
      && (c.Ok? ==> |c.value.1| >= 8 && Session(old(h.log), h.log, stopped, M68kPlan(c.value.0, c.value.1, cfg.chunkSize), r))
  {
    var c := AddressInputs(port, addressText, file);
    if c.Err? {
      return Err(c.error);
    }
    var address, data := c.value.0, c.value.1;
    if |data| < 8 {
      return Err(FileTooSmall);
    }
    ghost var log0 := h.log;
    ghost var body := M68kPlan(address, data, cfg.chunkSize);
    r := Start(h, stopped);
    if r.Err? {
      SessionFailed(log0, h.log, stopped, body, r);
      return;
    }
    ghost var mid := h.log;
    ghost var pieces := BinaryPlan(address, data, cfg.chunkSize);
    ghost var vectors := Step(WriteBlock(0, data[..8]), VectorsFailed);
    assert Then([], AndThen(pieces, Plan([vectors], Ok(())))) == body;
    assert mid == mid + Oks<CommandError>([]);
    r := WriteBinary(h, address, data, cfg.chunkSize);
    RanFirst(mid, mid, h.log, [], pieces, Plan([vectors], Ok(())), r);
    if r.Ok? {
      assert Plan([vectors], Ok(())) == Then([vectors], Plan([], Ok(())));
      var ok := Issue(h, Step(WriteBlock(0, data[..8]), VectorsFailed), mid, [] + pieces.steps, Plan([], Ok(())));
      if !ok {
        r := Err(VectorsFailed);
      } else {
        RanFinished(mid, h.log, [] + pieces.steps + [vectors], Plan([], Ok(())), r);
      }
    }
    ghost var log2 := h.log;
    Finish(h, stopped);
    SessionClosed(log0, mid, log2, h.log, stopped, body, r);
  }

  /**
   * A raw binary upload carries exactly the file, piece `i` at
   * `address + i * chunkSize` with 32-bit wrap-around; a failed piece is
   * reported with its offset in the file.
   */
  lemma BinaryLayout(address: u32, data: seq<byte>, chunkSize: nat, i: nat)
    requires chunkSize > 0 && i < |BinarySteps(address, data, chunkSize)|
    ensures Payload(BinarySteps(address, data, chunkSize)) == data
    ensures var o := i * chunkSize; var end := if o + chunkSize > |data| then |data| else o + chunkSize;
      && o < |data|
      && BinarySteps(address, data, chunkSize)[i] == Step(WriteBlock(Wrap32(address + o), data[o..end]), UploadFailedAt(o))
  {
    ChunksPayload(address, data, chunkSize, 0, OffsetFail());
    assert data[0..] == data;
    ChunkAt(address, data, chunkSize, 0, OffsetFail(), i);
  }

  /**
   * `run-m68k-bin` writes the whole file at `address` and, last, the
   * file's first eight bytes at address 0.
   */
  lemma M68kVectorsLast(address: u32, data: seq<byte>, chunkSize: nat)
    requires chunkSize > 0 && |data| >= 8
    ensures var s := M68kPlan(address, data, chunkSize).steps;
      && |s| > 0
      && s[|s| - 1] == Step(WriteBlock(0, data[..8]), VectorsFailed)
      && Payload(s) == data + data[..8]
  {
    var pieces := BinarySteps(address, data, chunkSize);
    var last := [Step(WriteBlock(0, data[..8]), VectorsFailed)];
    ChunksPayload(address, data, chunkSize, 0, OffsetFail());
    assert data[0..] == data;
    PayloadAppend(pieces, last);
    assert Payload(last) == data[..8] by {
      assert last[1..] == [];
    }
  }
}
