/**
 * What every device command of cmd/ shares: the checks it makes before
 * connecting, the session it opens (connect, then enter debug mode unless
 * the CPU is marked stopped, with the matching `ExitDebug` deferred to the
 * command's return), and the chunked upload of cmd/flash.go. A command's
 * work between opening and closing the session is a `Device.Plan`.
 */
module Command {
  import opened Wrappers
  import opened Bytes
  import opened Device
  import Display
  import Loader

  /** Why a command failed, one case for each error the commands return. */
  datatype CommandError =
    | NoPort
    | InvalidAddress(parse: Display.ParseError)
    | ReadFailed
    | ConnectFailed
    | EnterDebugFailed
    | ChunkFailed(address: u32)
    | EraseFlashFailed
    | ProgramFlashFailed
    | NoSectorSupport
    | InvalidSector(text: string)
    | SizeMismatch(size: nat, expected: nat)
    | RamWriteFailed
    | EraseSectorFailed
    | ProgramSectorFailed
    | CsvReadFailed
    | CsvEmpty
    | InvalidCsv
    | RowReadFailed(file: string)
    | RowUploadFailed(file: string, address: u32)
    | UnsupportedFormat(format: string)
    | OpenFileFailed(cause: Loader.LoadError)
    | LoadFailed(cause: Loader.LoadError)
    | UploadFailedAt(offset: nat)
    | VectorsFailed
    | FileTooSmall
    | FileTooLarge(size: nat)
    | NameFailed
    | TerminatorFailed
    | CrcFailed
    | SizeFailed
    | DataFailed
    | SignatureFailed

  /** `validateConnectionFlags`: a command needs a port, from the configuration or the command line. */
  function ValidatePort(port: string): (r: Result<(), CommandError>)
    ensures r.Ok? <==> port != ""
    ensures r.Err? ==> r.error == NoPort
  {
    if port == "" then Err(NoPort) else Ok(())
  }

  // ---------------------------------------------------------------------
  // The session

  /** The calls that open a session: the connection, then debug mode unless the CPU is stopped. */
  function Opening(stopped: bool): (steps: seq<Step<CommandError>>)
    ensures |steps| == if stopped then 1 else 2
    ensures steps[0] == Step(Connect, ConnectFailed)
    ensures !stopped ==> steps[1] == Step(EnterDebug, EnterDebugFailed)
  {
    [Step(Connect, ConnectFailed)] + (if stopped then [] else [Step(EnterDebug, EnterDebugFailed)])
  }

  /** The record from `log0` on shows debug mode entered: the deferred `ExitDebug` is owed. */
  ghost predicate Entered(log0: seq<Attempt>, log1: seq<Attempt>, stopped: bool) {
    !stopped && |log1| > |log0| + 1 && log1[|log0| + 1] == Attempt(EnterDebug, true)
  }

  /**
   * The record grew from `log0` to `log1` by a session running `body`,
   * which returned `r`: the opening calls and then the body, stopped at the
   * first refusal, and one `ExitDebug` at the very end exactly when debug
   * mode was entered (whatever the device answers to it).
   */
  ghost predicate Session(log0: seq<Attempt>, log1: seq<Attempt>, stopped: bool, body: Plan<CommandError>,
                          r: Result<(), CommandError>) {
    var plan := Then(Opening(stopped), body);
    if Entered(log0, log1, stopped) then
      log1[|log1| - 1].call == ExitDebug && Ran(log0, log1[..|log1| - 1], plan, r)
    else
      Ran(log0, log1, plan, r)
  }

  /** Connects, then enters debug mode unless the CPU is stopped. */
  method Start(h: Port, stopped: bool) returns (r: Result<(), CommandError>)
    modifies h
    ensures Ran(old(h.log), h.log, Plan(Opening(stopped), Ok(())), r)
    ensures r.Ok? ==> h.log == old(h.log) + Oks(Opening(stopped))
  {
    ghost var log0 := h.log;
    ghost var plan := Plan(Opening(stopped), Ok(()));
    var connected := h.Perform(Connect);
    if !connected {
      r := Err(ConnectFailed);
      RanStopped(log0, h.log, plan, 0, r);
      return;
    }
    OksNext(plan.steps, 0);
    assert plan.steps[..1] == [Step(Connect, ConnectFailed)];
    if !stopped {
      var entered := h.Perform(EnterDebug);
      if !entered {
        r := Err(EnterDebugFailed);
        RanStopped(log0, h.log, plan, 1, r);
        return;
      }
      OksNext(plan.steps, 1);
      assert plan.steps[..2] == plan.steps;
    } else {
      assert plan.steps[..1] == plan.steps;
    }
    r := Ok(());
    RanCompleted(log0, h.log, plan, r);
  }

  /** The deferred `ExitDebug`: issued when debug mode was entered, its answer ignored. */
  method Finish(h: Port, stopped: bool)
    modifies h
    ensures stopped ==> h.log == old(h.log)
    ensures !stopped ==> |h.log| == |old(h.log)| + 1 && h.log[..|old(h.log)|] == old(h.log) && h.log[|old(h.log)|].call == ExitDebug
  {
    if !stopped {
      var _ := h.Perform(ExitDebug);
    }
  }

  /**
   * Issues the next step of `Then(done, Then([step], rest))` after the
   * accepted `done`: accepted, it joins `done`; refused, the run ends there
   * with the step's error.
   */
  method Issue<E>(h: Port, step: Step<E>, ghost log0: seq<Attempt>, ghost done: seq<Step<E>>, ghost rest: Plan<E>)
    returns (ok: bool)
    requires h.log == log0 + Oks(done)
    modifies h
    ensures ok ==> h.log == log0 + Oks(done + [step]) && Then(done, Then([step], rest)) == Then(done + [step], rest)
    ensures !ok ==> Ran(log0, h.log, Then(done, Then([step], rest)), Err(step.onFail))
  {
    ok := h.Perform(step.call);
    if ok {
      Accepted(done, step, rest);
    } else {
      RanRefused(log0, h.log, done, step, rest, Err(step.onFail));
    }
  }

  /** A session whose opening failed has issued nothing else and owes no `ExitDebug`. */
  lemma {:induction false} SessionFailed(log0: seq<Attempt>, log1: seq<Attempt>, stopped: bool,
                                          body: Plan<CommandError>, r: Result<(), CommandError>)
    requires Ran(log0, log1, Plan(Opening(stopped), Ok(())), r) && r.Err?
    ensures Session(log0, log1, stopped, body, r)
    ensures !Entered(log0, log1, stopped)
  {
    var a := log1[|log0|..];
    var k := |a| - 1;
    assert Executed(Plan(Opening(stopped), Ok(())), a, r);
    ExecutedAndThenStop(Plan(Opening(stopped), Ok(())), body, a, r);
    assert AndThen(Plan(Opening(stopped), Ok(())), body) == Then(Opening(stopped), body);
    if !stopped && |log1| > |log0| + 1 {
      assert k == 1 && a[1] == log1[|log0| + 1];
    }
  }

  /** A session that opened, ran `body` and then closed. */
  lemma {:induction false} SessionClosed(log0: seq<Attempt>, mid: seq<Attempt>, log2: seq<Attempt>, log3: seq<Attempt>,
                                          stopped: bool, body: Plan<CommandError>, r: Result<(), CommandError>)
    requires mid == log0 + Oks(Opening(stopped)) && Ran(mid, log2, body, r)
    requires stopped ==> log3 == log2
    requires !stopped ==> |log3| == |log2| + 1 && log3[..|log2|] == log2 && log3[|log2|].call == ExitDebug
    ensures Session(log0, log3, stopped, body, r)
    ensures Entered(log0, log3, stopped) == !stopped
  {
    RanAfter(log0, mid, log2, Opening(stopped), body, r);
    if !stopped {
      assert log3[|log0| + 1] == mid[|log0| + 1] == Oks(Opening(stopped))[1];
      assert log3[..|log3| - 1] == log2;
    }
  }

  // ---------------------------------------------------------------------
  // Chunked upload

  /** The error `uploadChunked` returns for the piece at offset `o`: the address it was written at. */
  function ChunkFail(start: u32): nat -> CommandError {
    (o: nat) => ChunkFailed(Wrap32(start + o))
  }

  /** The writes of `uploadChunked(start, data)`. */
  function UploadSteps(start: u32, data: seq<byte>, chunkSize: nat): seq<Step<CommandError>>
    requires chunkSize > 0
  {
    Chunks(start, data, chunkSize, 0, ChunkFail(start))
  }

  /**
   * `uploadChunked`: `data` in pieces of `chunkSize` bytes, the last one
   * shorter, each at the next address, stopping at the first refusal.
   */
  method UploadChunked(h: Port, start: u32, data: seq<byte>, chunkSize: nat) returns (r: Result<(), CommandError>)
    requires chunkSize > 0
    modifies h
    ensures Ran(old(h.log), h.log, Plan(UploadSteps(start, data, chunkSize), Ok(())), r)
  {
    ghost var log0 := h.log;
    ghost var done: seq<Step<CommandError>> := [];
    ghost var whole := Plan(UploadSteps(start, data, chunkSize), Ok(()));
    var address := start;
    var offset := 0;
    while offset < |data|
      invariant offset <= |data| && address == Wrap32(start + offset)
      invariant h.log == log0 + Oks(done)
      invariant whole == Then(done, Plan(Chunks(start, data, chunkSize, offset, ChunkFail(start)), Ok(())))
      decreases |data| - offset
    {
      var size := chunkSize;
      if offset + size > |data| {
        size := |data| - offset;
      }
      var chunk := data[offset..offset + size];
      var step := Step(WriteBlock(address, chunk), ChunkFailed(address));
      ghost var rest := Plan(Chunks(start, data, chunkSize, offset + size, ChunkFail(start)), Ok(()));
      assert whole == Then(done, Then([step], rest)) && whole == Then(done + [step], rest) by {
        UploadTurn(start, data, chunkSize, offset, size, address, step, rest, done);
      }
      var ok := Issue(h, step, log0, done, rest);
      if !ok {
        return Err(ChunkFailed(address));
      }
      done := done + [step];
      assert Wrap32(address + size) == Wrap32(start + (offset + size)) by {
        WrapAdd(start + offset, size);
      }
      address := Wrap32(address + size);
      offset := offset + size;
    }
    r := Ok(());
    RanFinished(log0, h.log, done, Plan(Chunks(start, data, chunkSize, offset, ChunkFail(start)), Ok(())), r);
  }

  /** One turn of the upload loop: the piece at `offset`, written at `address`, then the pieces after it. */
  lemma UploadTurn(start: u32, data: seq<byte>, chunkSize: nat, offset: nat, size: nat, address: u32,
                   step: Step<CommandError>, rest: Plan<CommandError>, done: seq<Step<CommandError>>)
    requires chunkSize > 0 && offset < |data|
    requires size == if offset + chunkSize > |data| then |data| - offset else chunkSize
    requires address == Wrap32(start + offset)
    requires step == Step(WriteBlock(address, data[offset..offset + size]), ChunkFailed(address))
    requires rest == Plan(Chunks(start, data, chunkSize, offset + size, ChunkFail(start)), Ok(()))
    ensures Then(done, Plan(Chunks(start, data, chunkSize, offset, ChunkFail(start)), Ok(()))) == Then(done, Then([step], rest))
    ensures Then(done, Then([step], rest)) == Then(done + [step], rest)
  {
    ChunksHead(start, data, chunkSize, offset, size, ChunkFail(start));
    assert ChunkFail(start)(offset) == ChunkFailed(address);
    assert done + ([step] + rest.steps) == (done + [step]) + rest.steps;
  }

  /** The pieces of an upload carry exactly the data. */
  lemma UploadCarriesData(start: u32, data: seq<byte>, chunkSize: nat)
    requires chunkSize > 0
    ensures Payload(UploadSteps(start, data, chunkSize)) == data
  {
    ChunksPayload(start, data, chunkSize, 0, ChunkFail(start));
    assert data[0..] == data;
  }

  /**
   * Piece `i` of an upload is written at `start + i * chunkSize` (with
   * 32-bit wrap-around) and holds the bytes from that offset, `chunkSize`
   * of them or the rest of the data.
   */
  lemma UploadPieceAt(start: u32, data: seq<byte>, chunkSize: nat, i: nat)
    requires chunkSize > 0 && i < |UploadSteps(start, data, chunkSize)|
    ensures i * chunkSize < |data|
    ensures var o := i * chunkSize;
      var end := if o + chunkSize > |data| then |data| else o + chunkSize;
      UploadSteps(start, data, chunkSize)[i].call == WriteBlock(Wrap32(start + o), data[o..end])
  {
    ChunkAt(start, data, chunkSize, 0, ChunkFail(start), i);
  }

  /** Empty data means no writes at all. */
  lemma UploadNothing(start: u32, chunkSize: nat)
    requires chunkSize > 0
    ensures UploadSteps(start, [], chunkSize) == []
  {
  }

  /**
   * The checks `flashProgramFull`, `uploadBinary` and `uploadM68kBinary` make
   * before connecting: a port, a valid hex address, a readable file.
   */
  function AddressInputs(port: string, addressText: string, file: Option<seq<byte>>): (r: Result<(u32, seq<byte>), CommandError>)
    ensures r.Ok? <==> port != "" && Display.ParseHexAddress(addressText).Ok? && file.Some?
    ensures r.Ok? ==> r.value == (Display.ParseHexAddress(addressText).value, file.value)
    ensures port == "" ==> r == Err(NoPort)
    ensures port != "" && Display.ParseHexAddress(addressText).Err? ==>
      r == Err(InvalidAddress(Display.ParseHexAddress(addressText).error))
    ensures port != "" && Display.ParseHexAddress(addressText).Ok? && file.None? ==> r == Err(ReadFailed)
  {
    if ValidatePort(port).Err? then Err(ValidatePort(port).error)
    else
      var a := Display.ParseHexAddress(addressText);
      if a.Err? then Err(InvalidAddress(a.error))
      else if file.None? then Err(ReadFailed)
      else Ok((a.value, file.value))
  }

  // ---------------------------------------------------------------------
  // Sector numbers

  /**
   * `strconv.ParseUint(s, 16, 8)`: one or more hex digits, no sign, prefix
   * or underscore, and a value that fits in eight bits.
   */
  function ParseSector(s: string): (r: Option<u8>)
    ensures r.Some? <==> |s| > 0 && AllHex(s) && HexValue(s) < 0x100
    ensures r.Some? ==> r.value == HexValue(s)
  {
    if |s| > 0 && AllHex(s) && HexValue(s) < 0x100 then Some(HexValue(s)) else None
  }

  /**
   * A sector number written in hex digits, as the encoder writes bytes, is
   * accepted exactly when its value fits in eight bits, and is then read
   * as that value.
   */
  lemma ParseSectorEncoded(bs: seq<byte>)
    requires |bs| > 0
    ensures ParseSector(Loader.EncodeHex(bs)).Some? <==> BE(bs) < 0x100
    ensures BE(bs) < 0x100 ==> ParseSector(Loader.EncodeHex(bs)) == Some(BE(bs))
  {
    Loader.HexValueOfEncodeHex(bs);
  }

  /** Every sector number, written as two hex digits, reads back as itself. */
  lemma SectorRoundTrip(sector: u8)
    ensures ParseSector(Loader.EncodeHex([sector])) == Some(sector)
  {
    ParseSectorEncoded([sector]);
    assert [sector][..0] == [];
  }

  /** One or two hex digits always name a sector. */
  lemma ParseSectorDigits(s: string)
    requires 0 < |s| <= 2 && AllHex(s)
    ensures ParseSector(s) == Some(HexValue(s))
  {
    Pow16Monotonic(|s|, 2);
    Pow16Values();
  }
}
