/**
 * `copyFile` of cmd/copy.go: the SD-card copy of the F256Jr. The file goes
 * to RAM from 0x10000 as one record (its base name, a zero byte, the CRC of
 * its contents in four bytes and its size in three, least significant
 * first, then the contents), and the text "COPYFILE" written at 0x0080 asks
 * the firmware to copy the record to the card.
 */
module Copy {
  import opened Wrappers
  import opened Bytes
  import opened Device
  import opened Command
  import Config
  import Crc32

  /** Where the record starts. */
  const RECORD_ADDRESS: u32 := 0x1_0000

  /** Where the firmware looks for the request. */
  const SIGNATURE_ADDRESS: u32 := 0x0080

  /** "COPYFILE" in ASCII. */
  const COPY_SIGNATURE: seq<byte> := [0x43, 0x4F, 0x50, 0x59, 0x46, 0x49, 0x4C, 0x45]

  /** Files of this size or more are refused: (7 * 65536) - (9 * 1024) bytes. */
  const MAX_FILE_SIZE: nat := 7 * 65536 - 9 * 1024

  /** The checks `copyFile` makes before connecting: a port, a readable file, below the size limit. */
  function CopyInputs(port: string, file: Option<seq<byte>>): (r: Result<seq<byte>, CommandError>)
    ensures r.Ok? <==> port != "" && file.Some? && |file.value| < MAX_FILE_SIZE
    ensures port != "" && file.Some? && |file.value| >= MAX_FILE_SIZE ==> r == Err(FileTooLarge(|file.value|))
    ensures r.Ok? ==> r.value == file.value
    ensures port == "" ==> r == Err(NoPort)
  {
    if ValidatePort(port).Err? then Err(ValidatePort(port).error)
    else if file.None? then Err(ReadFailed)
    else if |file.value| >= MAX_FILE_SIZE then Err(FileTooLarge(|file.value|))
    else Ok(file.value)
  }

  /** The address after `address` and the `n` bytes written there, with 32-bit wrap-around. */
  function After(address: u32, n: nat): u32 {
    Wrap32(address + n)
  }

  /** The four header writes, each at the address where the one before it ended. */
  function Header(name: seq<byte>, crc: bv32, size: nat): seq<Step<CommandError>> {
    var zeroAt := After(RECORD_ADDRESS, |name|);
    var crcAt := After(zeroAt, 1);
    var sizeAt := After(crcAt, 4);
    [ Step(WriteBlock(RECORD_ADDRESS, name), NameFailed),
      Step(WriteBlock(zeroAt, [0]), TerminatorFailed),
      Step(WriteBlock(crcAt, LEBytes(crc as int, 4)), CrcFailed),
      Step(WriteBlock(sizeAt, LEBytes(size, 3)), SizeFailed) ]
  }

  /** Where the contents start: right after the header. */
  function DataAddress(name: seq<byte>): u32 {
    After(After(After(After(RECORD_ADDRESS, |name|), 1), 4), 3)
  }

  /** Every piece of the contents fails the same way. */
  function DataFail(offset: nat): CommandError {
    DataFailed
  }

  /** The pieces of the contents. */
  function DataSteps(name: seq<byte>, data: seq<byte>, chunkSize: nat): seq<Step<CommandError>>
    requires chunkSize > 0
  {
    Chunks(DataAddress(name), data, chunkSize, 0, DataFail)
  }

  /** The request to the firmware. */
  function SignatureStep(): Step<CommandError> {
    Step(WriteBlock(SIGNATURE_ADDRESS, COPY_SIGNATURE), SignatureFailed)
  }

  /** The session body of `copyFile`. */
  function CopyPlan(name: seq<byte>, data: seq<byte>, chunkSize: nat): Plan<CommandError>
    requires chunkSize > 0
  {
    Plan(Header(name, Crc32.Crc(data), |data|) + DataSteps(name, data, chunkSize) + [SignatureStep()], Ok(()))
  }

  /**
   * `copyFile(filename)`: `name` is the bytes of the file's base name and
   * `file` its contents (`None` when it cannot be read).
   */
  method CopyFile(h: Port, cfg: Config.Config, port: string, name: seq<byte>, file: Option<seq<byte>>, stopped: bool)
    returns (r: Result<(), CommandError>)
    requires cfg.chunkSize > 0
    modifies h
    ensures var c := CopyInputs(port, file);
      && (c.Err? ==> r == Err(c.error) && h.log == old(h.log))
      && (c.Ok? ==> Session(old(h.log), h.log, stopped, CopyPlan(name, c.value, cfg.chunkSize), r))
  {
    var portCheck := ValidatePort(port);
    if portCheck.Err? {
      return Err(portCheck.error);
    }
    if file.None? {
      return Err(ReadFailed);
    }
    var fileData := file.value;
    var fileSize := |fileData|;
    if fileSize >= MAX_FILE_SIZE {
      return Err(FileTooLarge(fileSize));
    }
    var crc := Crc32.CalculateCRC32(fileData);
    ghost var log0 := h.log;
    ghost var body := CopyPlan(name, fileData, cfg.chunkSize);
    r := Start(h, stopped);
    if r.Err? {
      SessionFailed(log0, h.log, stopped, body, r);
      return;
    }
    ghost var mid := h.log;
    r := CopyBody(h, name, fileData, crc, cfg.chunkSize);
    ghost var log2 := h.log;
    Finish(h, stopped);
    SessionClosed(log0, mid, log2, h.log, stopped, body, r);
  }

  /** The header, the contents and the request, each only when the writes before it succeeded. */
  method CopyBody(h: Port, name: seq<byte>, data: seq<byte>, crc: bv32, chunkSize: nat) returns (r: Result<(), CommandError>)
    requires chunkSize > 0 && crc == Crc32.Crc(data)
    modifies h
    ensures Ran(old(h.log), h.log, CopyPlan(name, data, chunkSize), r)
  {
    ghost var log0 := h.log;
    ghost var header := Plan(Header(name, crc, |data|), Ok(()));
    ghost var pieces := Plan(DataSteps(name, data, chunkSize), Ok(()));
    ghost var request := Plan([SignatureStep()], Ok(()));
    assert Then([], AndThen(header, AndThen(pieces, request))) == CopyPlan(name, data, chunkSize);
    assert log0 == log0 + Oks<CommandError>([]);
    var currentAddr;
    r, currentAddr := WriteHeader(h, name, crc, |data|);
    RanFirst(log0, log0, h.log, [], header, AndThen(pieces, request), r);
    if r.Err? {
      return;
    }
    ghost var log1 := h.log;
    ghost var done := [] + header.steps;
    r := WriteContents(h, currentAddr, data, chunkSize);
    assert Plan(DataSteps(name, data, chunkSize), Ok(())) == pieces;
    RanFirst(log0, log1, h.log, done, pieces, request, r);
    if r.Err? {
      return;
    }
    done := done + pieces.steps;
    assert request == Then([SignatureStep()], Plan([], Ok(())));
    var ok := Issue(h, Step(WriteBlock(0x0080, COPY_SIGNATURE), SignatureFailed), log0, done, Plan([], Ok(())));
    if !ok {
      return Err(SignatureFailed);
    }
    r := Ok(());
    RanFinished(log0, h.log, done + [SignatureStep()], Plan([], Ok(())), r);
  }

  /** Steps 1 to 3 of `copyFile`: the name, its terminator, the CRC and the size; returns where the contents go. */
  method WriteHeader(h: Port, name: seq<byte>, crc: bv32, fileSize: nat) returns (r: Result<(), CommandError>, currentAddr: u32)
    modifies h
    ensures Ran(old(h.log), h.log, Plan(Header(name, crc, fileSize), Ok(())), r)
    ensures currentAddr == DataAddress(name)
  {
    ghost var log0 := h.log;
    ghost var s := Header(name, crc, fileSize);
    assert log0 == log0 + Oks(s[..0]);
    currentAddr := RECORD_ADDRESS;
    var ok := IssueAt(h, s, 0, Step(WriteBlock(currentAddr, name), NameFailed), log0);
    currentAddr := Wrap32(currentAddr + |name|);
    if !ok {
      return Err(NameFailed), DataAddress(name);
    }
    ok := IssueAt(h, s, 1, Step(WriteBlock(currentAddr, [0x00]), TerminatorFailed), log0);
    currentAddr := Wrap32(currentAddr + 1);
    if !ok {
      return Err(TerminatorFailed), DataAddress(name);
    }
    var crcBytes := LEBytes(crc as int, 4);
    ok := IssueAt(h, s, 2, Step(WriteBlock(currentAddr, crcBytes), CrcFailed), log0);
    currentAddr := Wrap32(currentAddr + 4);
    if !ok {
      return Err(CrcFailed), DataAddress(name);
    }
    var sizeBytes := LEBytes(fileSize, 3);
    ok := IssueAt(h, s, 3, Step(WriteBlock(currentAddr, sizeBytes), SizeFailed), log0);
    currentAddr := Wrap32(currentAddr + 3);
    if !ok {
      return Err(SizeFailed), currentAddr;
    }
    r := Ok(());
    assert s[..4] == s;
    RanCompleted(log0, h.log, Plan(s, Ok(())), r);
  }

  /** Issues step `k` of `s` after the `k` before it were accepted. */
  method IssueAt(h: Port, ghost s: seq<Step<CommandError>>, k: nat, step: Step<CommandError>, ghost log0: seq<Attempt>) returns (ok: bool)
    requires k < |s| && step == s[k] && h.log == log0 + Oks(s[..k])
    modifies h
    ensures ok ==> h.log == log0 + Oks(s[..k + 1])
    ensures !ok ==> Ran(log0, h.log, Plan(s, Ok(())), Err(s[k].onFail))
  {
    assert Plan(s, Ok(())) == Then(s[..k], Then([step], Plan(s[k + 1..], Ok(()))));
    ok := Issue(h, step, log0, s[..k], Plan(s[k + 1..], Ok(())));
    assert s[..k] + [step] == s[..k + 1];
  }

  /** Step 4 of `copyFile`: the contents in pieces, each written where the one before it ended. */
  method WriteContents(h: Port, start: u32, fileData: seq<byte>, chunkSize: nat) returns (r: Result<(), CommandError>)
    requires chunkSize > 0
    modifies h
    ensures Ran(old(h.log), h.log, Plan(Chunks(start, fileData, chunkSize, 0, DataFail), Ok(())), r)
  {
    ghost var log0 := h.log;
    ghost var whole := Plan(Chunks(start, fileData, chunkSize, 0, DataFail), Ok(()));
    ghost var done: seq<Step<CommandError>> := [];
    var currentAddr := start;
    var totalLength := |fileData|;
    var chunkOffset := 0;
    while totalLength > 0
      invariant chunkOffset + totalLength == |fileData| && currentAddr == Wrap32(start + chunkOffset)
      invariant h.log == log0 + Oks(done)
      invariant whole == Then(done, Plan(Chunks(start, fileData, chunkSize, chunkOffset, DataFail), Ok(())))
      decreases totalLength
    {
      var currentChunkSize := chunkSize;
      if totalLength < chunkSize {
        currentChunkSize := totalLength;
      }
      var chunk := fileData[chunkOffset..chunkOffset + currentChunkSize];
      var step := Step(WriteBlock(currentAddr, chunk), DataFail(chunkOffset));
      ghost var rest := Plan(Chunks(start, fileData, chunkSize, chunkOffset + currentChunkSize, DataFail), Ok(()));
      ChunksHead(start, fileData, chunkSize, chunkOffset, currentChunkSize, DataFail);
      var ok := Issue(h, step, log0, done, rest);
      if !ok {
        return Err(DataFailed);
      }
      done := done + [step];
      WrapAdd(start + chunkOffset, currentChunkSize);
      currentAddr := Wrap32(currentAddr + currentChunkSize);
      totalLength := totalLength - currentChunkSize;
      chunkOffset := chunkOffset + currentChunkSize;
    }
    r := Ok(());
    RanFinished(log0, h.log, done, Plan(Chunks(start, fileData, chunkSize, chunkOffset, DataFail), Ok(())), r);
  }

  // ---------------------------------------------------------------------
  // The record in RAM

  /** Writes laid end to end: each starts where the one before it ended. */
  ghost predicate Contiguous<E>(s: seq<Step<E>>) {
    && (forall k :: 0 <= k < |s| ==> s[k].call.WriteBlock?)
    && (forall k :: 0 < k < |s| ==> s[k].call.address == After(s[k - 1].call.address, |s[k - 1].call.data|))
  }

  lemma ContiguousAppend<E>(a: seq<Step<E>>, b: seq<Step<E>>)
    requires Contiguous(a) && Contiguous(b)
    requires |a| > 0 && |b| > 0 ==> b[0].call.address == After(a[|a| - 1].call.address, |a[|a| - 1].call.data|)
    ensures Contiguous(a + b)
  {
    var s := a + b;
    forall k | 0 < k < |s|
      ensures s[k].call.address == After(s[k - 1].call.address, |s[k - 1].call.data|)
    {
      if k < |a| {
        assert s[k] == a[k] && s[k - 1] == a[k - 1];
      } else if k == |a| {
        assert s[k] == b[0] && s[k - 1] == a[|a| - 1];
      } else {
        assert s[k] == b[k - |a|] && s[k - 1] == b[k - 1 - |a|];
      }
    }
  }

  /** The pieces of data written from `start + offset` on lie end to end. */
  lemma {:induction false} ChunksContiguous<E>(start: u32, data: seq<byte>, size: nat, offset: nat, fail: nat -> E)
    requires size > 0
    ensures var s := Chunks(start, data, size, offset, fail);
      Contiguous(s) && (|s| > 0 ==> s[0].call.address == Wrap32(start + offset))
    decreases |data| - offset
  {
    if offset < |data| {
      var end := if offset + size > |data| then |data| else offset + size;
      var first := [Step(WriteBlock(Wrap32(start + offset), data[offset..end]), fail(offset))];
      var rest := Chunks(start, data, size, end, fail);
      ChunksContiguous(start, data, size, end, fail);
      WrapAdd(start + offset, end - offset);
      ContiguousAppend(first, rest);
    }
  }

  /**
   * The record goes to RAM in one piece from 0x10000: every write but the
   * last starts where the one before it ended, and together they carry the
   * name, a zero byte, the CRC and the size of the contents (least
   * significant byte first) and the contents; the last write is the request
   * at 0x0080.
   */
  lemma RecordLayout(name: seq<byte>, data: seq<byte>, chunkSize: nat)
    requires chunkSize > 0
    ensures var s := CopyPlan(name, data, chunkSize).steps;
      && |s| >= 5
      && s[0].call == WriteBlock(RECORD_ADDRESS, name)
      && Contiguous(s[..|s| - 1])
      && Payload(s[..|s| - 1]) == name + [0] + LEBytes(Crc32.Crc(data) as int, 4) + LEBytes(|data|, 3) + data
      && s[|s| - 1].call == WriteBlock(SIGNATURE_ADDRESS, COPY_SIGNATURE)
  {
    var header := Header(name, Crc32.Crc(data), |data|);
    var pieces := DataSteps(name, data, chunkSize);
    DropLast(header, pieces, SignatureStep());
    RecordContiguous(name, data, chunkSize);
    RecordPayload(name, data, chunkSize);
  }

  lemma DropLast<E>(a: seq<Step<E>>, b: seq<Step<E>>, c: Step<E>)
    ensures var s := a + b + [c]; s[..|s| - 1] == a + b && s[|s| - 1] == c
  {
  }

  lemma RecordContiguous(name: seq<byte>, data: seq<byte>, chunkSize: nat)
    requires chunkSize > 0
    ensures Contiguous(Header(name, Crc32.Crc(data), |data|) + DataSteps(name, data, chunkSize))
  {
    var header := Header(name, Crc32.Crc(data), |data|);
    var pieces := DataSteps(name, data, chunkSize);
    HeaderContiguous(name, Crc32.Crc(data), |data|);
    ChunksContiguous(DataAddress(name), data, chunkSize, 0, DataFail);
    assert |pieces| > 0 ==> pieces[0].call.address == DataAddress(name) by {
      assert Wrap32(DataAddress(name) + 0) == DataAddress(name);
    }
    ContiguousAppend(header, pieces);
  }

  lemma HeaderContiguous(name: seq<byte>, crc: bv32, size: nat)
    ensures var s := Header(name, crc, size);
      Contiguous(s) && After(s[3].call.address, |s[3].call.data|) == DataAddress(name)
  {
    var s := Header(name, crc, size);
    assert |s[2].call.data| == 4 && |s[3].call.data| == 3;
    forall k | 0 < k < |s|
      ensures s[k].call.address == After(s[k - 1].call.address, |s[k - 1].call.data|)
    {
    }
  }

  lemma RecordPayload(name: seq<byte>, data: seq<byte>, chunkSize: nat)
    requires chunkSize > 0
    ensures Payload(Header(name, Crc32.Crc(data), |data|) + DataSteps(name, data, chunkSize))
      == name + [0] + LEBytes(Crc32.Crc(data) as int, 4) + LEBytes(|data|, 3) + data
  {
    var header := Header(name, Crc32.Crc(data), |data|);
    var pieces := DataSteps(name, data, chunkSize);
    ChunksPayload(DataAddress(name), data, chunkSize, 0, DataFail);
    assert data[0..] == data;
    PayloadAppend(header, pieces);
    HeaderPayload(name, Crc32.Crc(data), |data|);
  }

  lemma HeaderPayload(name: seq<byte>, crc: bv32, size: nat)
    ensures Payload(Header(name, crc, size)) == name + [0] + LEBytes(crc as int, 4) + LEBytes(size, 3)
  {
    var s := Header(name, crc, size);
    assert s[1..][1..][1..][1..] == [];
    assert Payload(s[1..][1..][1..]) == LEBytes(size, 3);
    assert Payload(s[1..][1..]) == LEBytes(crc as int, 4) + LEBytes(size, 3);
    assert Payload(s[1..]) == [0] + LEBytes(crc as int, 4) + LEBytes(size, 3);
  }

  /** The contents start eight bytes past the end of the name: the zero byte, four CRC bytes and three size bytes. */
  lemma DataAfterName(name: seq<byte>)
    ensures DataAddress(name) == Wrap32(RECORD_ADDRESS + |name| + 8)
  {
    WrapAdd(RECORD_ADDRESS + |name|, 1);
    WrapAdd(RECORD_ADDRESS + |name| + 1, 4);
    WrapAdd(RECORD_ADDRESS + |name| + 5, 3);
  }

  /**
   * The header reads back: its four CRC bytes are the CRC of the contents,
   * and for any file below the size limit its three size bytes are the size.
   */
  lemma HeaderReadsBack(data: seq<byte>)
    requires |data| < MAX_FILE_SIZE
    ensures LE(LEBytes(Crc32.Crc(data) as int, 4)) == Crc32.Crc(data) as int
    ensures LE(LEBytes(|data|, 3)) == |data|
  {
    assert Pow256(4) == TWO_32 && Pow256(3) == 0x100_0000 by {
      assert Pow256(1) == 0x100;
    }
    LEOfLEBytes(Crc32.Crc(data) as int, 4);
    LEOfLEBytes(|data|, 3);
  }
}
