/**
 * The flash commands of cmd/flash.go: erasing the whole flash,
 * programming it from an image uploaded to RAM, programming one sector
 * through the RAM buffer page by page, and programming sectors in bulk
 * from a list of (sector, file) rows. Each command checks its inputs
 * before connecting, asks for confirmation (a parameter here), and then
 * runs a `Command.Session`.
 */
module Flash {
  import opened Wrappers
  import opened Bytes
  import opened Device
  import opened Command
  import Display
  import Config

  /** The pages of the `ProgramSector` calls among `steps`, in order. */
  function Programmed<E>(steps: seq<Step<E>>): seq<u8> {
    if |steps| == 0 then []
    else (if steps[0].call.ProgramSector? then [steps[0].call.sector] else []) + Programmed(steps[1..])
  }

  /** The pages of the `EraseSector` calls among `steps`, in order. */
  function Erased<E>(steps: seq<Step<E>>): seq<u8> {
    if |steps| == 0 then []
    else (if steps[0].call.EraseSector? then [steps[0].call.sector] else []) + Erased(steps[1..])
  }

  lemma {:induction false} ProgrammedAppend<E>(a: seq<Step<E>>, b: seq<Step<E>>)
    ensures Programmed(a + b) == Programmed(a) + Programmed(b)
    ensures Erased(a + b) == Erased(a) + Erased(b)
  {
    if |a| > 0 {
      assert (a + b)[1..] == a[1..] + b;
      ProgrammedAppend(a[1..], b);
    } else {
      assert a + b == b;
    }
  }

  /** Writes only: no page is erased or programmed. */
  lemma {:induction false} WritesProgramNothing<E>(steps: seq<Step<E>>)
    requires forall k :: 0 <= k < |steps| ==> steps[k].call.WriteBlock?
    ensures Programmed(steps) == [] && Erased(steps) == []
  {
    if |steps| > 0 {
      WritesProgramNothing(steps[1..]);
    }
  }

  /** The pieces of an upload are all writes. */
  lemma UploadWrites(start: u32, data: seq<byte>, chunkSize: nat)
    requires chunkSize > 0
    ensures forall k :: 0 <= k < |UploadSteps(start, data, chunkSize)| ==> UploadSteps(start, data, chunkSize)[k].call.WriteBlock?
  {
    var steps := UploadSteps(start, data, chunkSize);
    forall k | 0 <= k < |steps|
      ensures steps[k].call.WriteBlock?
    {
      UploadPieceAt(start, data, chunkSize, k);
    }
  }

  // ---------------------------------------------------------------------
  // eraseFlash

  /** `eraseFlash`: with the user's confirmation, one `EraseFlash` in a session. */
  method EraseFlash(h: Port, port: string, confirmed: bool, stopped: bool) returns (r: Result<(), CommandError>)
    modifies h
    ensures port == "" ==> r == Err(NoPort) && h.log == old(h.log)
    ensures port != "" && !confirmed ==> r == Ok(()) && h.log == old(h.log)
    ensures port != "" && confirmed ==>
      Session(old(h.log), h.log, stopped, Plan([Step(Call.EraseFlash, EraseFlashFailed)], Ok(())), r)
  {
    var portCheck := ValidatePort(port);
    if portCheck.Err? {
      return Err(portCheck.error);
    }
    if !confirmed {
      return Ok(());
    }
    ghost var log0 := h.log;
    ghost var body := Plan([Step(Call.EraseFlash, EraseFlashFailed)], Ok(()));
    r := Start(h, stopped);
    if r.Err? {
      SessionFailed(log0, h.log, stopped, body, r);
      return;
    }
    ghost var mid := h.log;
    var ok := h.Perform(Call.EraseFlash);
    if !ok {
      r := Err(EraseFlashFailed);
      RanStopped(mid, h.log, body, 0, r);
    } else {
      RanCompleted(mid, h.log, body, r);
    }
    ghost var log2 := h.log;
    Finish(h, stopped);
    SessionClosed(log0, mid, log2, h.log, stopped, body, r);
  }

  // ---------------------------------------------------------------------
  // flashProgramFull

  /** The session body of `flashProgramFull`: the image uploaded to RAM, one flash erase, then programming from RAM. */
  function FullSteps(address: u32, data: seq<byte>, chunkSize: nat): seq<Step<CommandError>>
    requires chunkSize > 0
  {
    UploadSteps(address, data, chunkSize)
    + [Step(Call.EraseFlash, EraseFlashFailed), Step(ProgramFlash(address), ProgramFlashFailed)]
  }

  /**
   * `flashProgramFull`. A file whose size differs from the configured flash
   * size is only warned about and programmed all the same.
   */
  method FlashProgramFull(h: Port, cfg: Config.Config, port: string, addressText: string, file: Option<seq<byte>>,
                          confirmed: bool, stopped: bool) returns (r: Result<(), CommandError>)
    requires cfg.chunkSize > 0
    modifies h
    ensures var c := AddressInputs(port, addressText, file);
      && (c.Err? ==> r == Err(c.error) && h.log == old(h.log))
      && (c.Ok? && !confirmed ==> r == Ok(()) && h.log == old(h.log))
      && (c.Ok? && confirmed ==> Session(old(h.log), h.log, stopped, Plan(FullSteps(c.value.0, c.value.1, cfg.chunkSize), Ok(())), r))
  {
    var portCheck := ValidatePort(port);
    if portCheck.Err? {
      return Err(portCheck.error);
    }
    var parsed := Display.ParseHexAddress(addressText);
    if parsed.Err? {
      return Err(InvalidAddress(parsed.error));
    }
    if file.None? {
      return Err(ReadFailed);
    }
    var address, data := parsed.value, file.value;
    if !confirmed {
      return Ok(());
    }
    ghost var log0 := h.log;
    ghost var body := Plan(FullSteps(address, data, cfg.chunkSize), Ok(()));
    r := Start(h, stopped);
    if r.Err? {
      SessionFailed(log0, h.log, stopped, body, r);
      return;
    }
    ghost var mid := h.log;
    r := FullBody(h, address, data, cfg.chunkSize);
    ghost var log2 := h.log;
    Finish(h, stopped);
    SessionClosed(log0, mid, log2, h.log, stopped, body, r);
  }

  /** Upload, erase, program: each step only when the ones before it succeeded. */
  method FullBody(h: Port, address: u32, data: seq<byte>, chunkSize: nat) returns (r: Result<(), CommandError>)
    requires chunkSize > 0
    modifies h
    ensures Ran(old(h.log), h.log, Plan(FullSteps(address, data, chunkSize), Ok(())), r)
  {
    ghost var log0 := h.log;
    ghost var upload := Plan(UploadSteps(address, data, chunkSize), Ok(()));
    var erase := Step(Call.EraseFlash, EraseFlashFailed);
    var program := Step(ProgramFlash(address), ProgramFlashFailed);
    ghost var tail := Plan([erase, program], Ok(()));
    assert Then([], AndThen(upload, tail)) == Plan(FullSteps(address, data, chunkSize), Ok(()));
    assert log0 == log0 + Oks<CommandError>([]);
    r := UploadChunked(h, address, data, chunkSize);
    RanFirst(log0, log0, h.log, [], upload, tail, r);
    if r.Err? {
      return;
    }
    ghost var done := [] + upload.steps;
    assert tail == Then([erase], Plan([program], Ok(())));
    var ok := Issue(h, erase, log0, done, Plan([program], Ok(())));
    if !ok {
      return Err(EraseFlashFailed);
    }
    done := done + [erase];
    assert Plan([program], Ok(())) == Then([program], Plan([], Ok(())));
    ok := Issue(h, program, log0, done, Plan([], Ok(())));
    if !ok {
      return Err(ProgramFlashFailed);
    }
    done := done + [program];
    RanFinished(log0, h.log, done, Plan([], Ok(())), r);
  }

  /**
   * The full image goes to RAM first, in pieces that carry exactly the
   * image; then comes one flash erase and, last, programming from the
   * address the image was uploaded to.
   */
  lemma FullOrder(address: u32, data: seq<byte>, chunkSize: nat)
    requires chunkSize > 0
    ensures var s := FullSteps(address, data, chunkSize);
      && |s| >= 2
      && s[|s| - 2].call == Call.EraseFlash
      && s[|s| - 1].call == ProgramFlash(address)
      && (forall k :: 0 <= k < |s| - 2 ==> s[k].call.WriteBlock?)
      && Payload(s) == data
  {
    var up := UploadSteps(address, data, chunkSize);
    var tail := [Step(Call.EraseFlash, EraseFlashFailed), Step(ProgramFlash(address), ProgramFlashFailed)];
    UploadWrites(address, data, chunkSize);
    UploadCarriesData(address, data, chunkSize);
    PayloadAppend(up, tail);
    assert Payload(tail) == [] by {
      assert tail[1..][1..] == [];
      assert Payload(tail[1..]) == [];
    }
  }

  // ---------------------------------------------------------------------
  // flashProgramSector

  /** `uint8(sectorNum) * uint8(pagesPerSector)`: both operands and the product taken modulo 256. */
  function StartPage(sector: u8, sectorSize: nat, pageSize: nat): u8
    requires pageSize > 0
  {
    (sector * ((sectorSize / pageSize) % 256)) % 256
  }

  /** The first page of a sector is its number times the pages per sector, modulo 256. */
  lemma StartPageIsProductMod(sector: u8, sectorSize: nat, pageSize: nat)
    requires pageSize > 0
    ensures StartPage(sector, sectorSize, pageSize) == (sector * (sectorSize / pageSize)) % 256
  {
    var p := sectorSize / pageSize;
    var q := p / 256;
    var r := p % 256;
    assert sector * p == (sector * q) * 256 + sector * r by {
      assert p == q * 256 + r;
    }
    ModMultipleAdd(sector * q, sector * r);
  }

  lemma ModMultipleAdd(k: nat, y: nat)
    ensures (k * 256 + y) % 256 == y % 256
  {
    var a := y / 256;
    assert y == a * 256 + y % 256;
    assert k * 256 + y == (k + a) * 256 + y % 256;
  }

  /** `currentPage++` on a `uint8`. */
  function NextPage(page: u8): u8 {
    (page + 1) % 256
  }

  /** Erasing and then programming one page from the RAM buffer. */
  function PagePair(page: u8): seq<Step<CommandError>> {
    [Step(EraseSector(page), EraseSectorFailed), Step(ProgramSector(page), ProgramSectorFailed)]
  }

  /** Where the page loop of `flashProgramSector` stands: bytes of the file written, RAM offset, current page. */
  datatype PageState = PageState(written: nat, ram: u32, page: u8)

  /**
   * One turn of the page loop: the next piece of the file goes to the RAM
   * buffer at the current offset; when the offset reaches `limit` the page
   * is erased and programmed, the page advances and the offset restarts
   * at 0. Returns the calls of the turn and the state after it.
   */
  function PageMove(data: seq<byte>, chunkSize: nat, limit: u32, st: PageState): (m: (seq<Step<CommandError>>, PageState))
    requires chunkSize > 0 && st.written < |data|
    ensures st.written < m.1.written <= |data|
  {
    var n := if chunkSize > |data| - st.written then |data| - st.written else chunkSize;
    var write := Step(WriteBlock(st.ram, data[st.written..st.written + n]), RamWriteFailed);
    var ram1 := Wrap32(st.ram + n);
    if ram1 >= limit then ([write] + PagePair(st.page), PageState(st.written + n, 0, NextPage(st.page)))
    else ([write], PageState(st.written + n, ram1, st.page))
  }

  /** After the whole file: a partly filled buffer is erased and programmed too. */
  function Flush(st: PageState): seq<Step<CommandError>> {
    if st.ram > 0 then PagePair(st.page) else []
  }

  /** The calls of the page loop of `flashProgramSector` from `st` to the end of the file. */
  function PageSteps(data: seq<byte>, chunkSize: nat, limit: u32, st: PageState): seq<Step<CommandError>>
    requires chunkSize > 0
    decreases |data| - st.written
  {
    if st.written >= |data| then Flush(st)
    else
      var m := PageMove(data, chunkSize, limit, st);
      m.0 + PageSteps(data, chunkSize, limit, m.1)
  }

  /** The checks `flashProgramSector` makes before asking: paged flash, a sector number, a file of exactly one sector. */
  function SectorInputs(port: string, geometry: Config.FlashGeometry, sectorText: string, file: Option<seq<byte>>)
    : (r: Result<(u8, seq<byte>), CommandError>)
    ensures r.Ok? <==>
      && port != "" && geometry.pageSize != 0 && geometry.sectorSize != 0
      && ParseSector(sectorText).Some? && file.Some? && |file.value| == geometry.sectorSize * 1024
    ensures r.Ok? ==> r.value == (ParseSector(sectorText).value, file.value)
    ensures (file.Some? && port != "" && geometry.pageSize != 0 && geometry.sectorSize != 0 && ParseSector(sectorText).Some?
             && |file.value| != geometry.sectorSize * 1024) ==> r == Err(SizeMismatch(|file.value|, geometry.sectorSize * 1024))
    ensures port == "" ==> r == Err(NoPort)
  {
    if ValidatePort(port).Err? then Err(ValidatePort(port).error)
    else if geometry.pageSize == 0 || geometry.sectorSize == 0 then Err(NoSectorSupport)
    else
      var sector := ParseSector(sectorText);
      if sector.None? then Err(InvalidSector(sectorText))
      else if file.None? then Err(ReadFailed)
      else if |file.value| != geometry.sectorSize * 1024 then Err(SizeMismatch(|file.value|, geometry.sectorSize * 1024))
      else Ok((sector.value, file.value))
  }

  /** The session body of `flashProgramSector` for sector `sector` of a geometry. */
  function SectorPlan(geometry: Config.FlashGeometry, chunkSize: nat, sector: u8, data: seq<byte>): Plan<CommandError>
    requires chunkSize > 0 && geometry.pageSize > 0
  {
    Plan(PageSteps(data, chunkSize, Wrap32(geometry.ramSize * 1024),
                   PageState(0, 0, StartPage(sector, geometry.sectorSize, geometry.pageSize))), Ok(()))
  }

  /** `flashProgramSector`. */
  method FlashProgramSector(h: Port, cfg: Config.Config, port: string, sectorText: string, file: Option<seq<byte>>,
                            confirmed: bool, stopped: bool) returns (r: Result<(), CommandError>)
    requires cfg.chunkSize > 0
    modifies h
    ensures var c := SectorInputs(port, cfg.Geometry(), sectorText, file);
      && (c.Err? ==> r == Err(c.error) && h.log == old(h.log))
      && (c.Ok? && !confirmed ==> r == Ok(()) && h.log == old(h.log))
      && (c.Ok? && confirmed ==>
            cfg.Geometry().pageSize > 0
            && Session(old(h.log), h.log, stopped, SectorPlan(cfg.Geometry(), cfg.chunkSize, c.value.0, c.value.1), r))
  {
    var portCheck := ValidatePort(port);
    if portCheck.Err? {
      return Err(portCheck.error);
    }
    if cfg.FlashPageSize() == 0 || cfg.FlashSectorSize() == 0 {
      return Err(NoSectorSupport);
    }
    var sectorNum := ParseSector(sectorText);
    if sectorNum.None? {
      return Err(InvalidSector(sectorText));
    }
    if file.None? {
      return Err(ReadFailed);
    }
    var data := file.value;
    var expectedSize := cfg.FlashSectorSize() * 1024;
    if |data| != expectedSize {
      return Err(SizeMismatch(|data|, expectedSize));
    }
    if !confirmed {
      return Ok(());
    }
    ghost var log0 := h.log;
    ghost var body := SectorPlan(cfg.Geometry(), cfg.chunkSize, sectorNum.value, data);
    r := Start(h, stopped);
    if r.Err? {
      SessionFailed(log0, h.log, stopped, body, r);
      return;
    }
    ghost var mid := h.log;
    var startPage := StartPage(sectorNum.value, cfg.FlashSectorSize(), cfg.FlashPageSize());
    r := ProgramPages(h, data, cfg.chunkSize, Wrap32(cfg.RAMSize() * 1024), startPage);
    ghost var log2 := h.log;
    Finish(h, stopped);
    SessionClosed(log0, mid, log2, h.log, stopped, body, r);
  }

  /** The page loop of `flashProgramSector`. */
  method ProgramPages(h: Port, data: seq<byte>, chunkSize: nat, limit: u32, startPage: u8) returns (r: Result<(), CommandError>)
    requires chunkSize > 0
    modifies h
    ensures Ran(old(h.log), h.log, Plan(PageSteps(data, chunkSize, limit, PageState(0, 0, startPage)), Ok(())), r)
  {
    ghost var log0 := h.log;
    ghost var done: seq<Step<CommandError>> := [];
    ghost var whole := Plan(PageSteps(data, chunkSize, limit, PageState(0, 0, startPage)), Ok(()));
    var ramAddress: u32 := 0;
    var written := 0;
    var currentPage := startPage;
    while written < |data|
      invariant written <= |data|
      invariant h.log == log0 + Oks(done)
      invariant whole == Then(done, Plan(PageSteps(data, chunkSize, limit, PageState(written, ramAddress, currentPage)), Ok(())))
      decreases |data| - written
    {
      r, written, ramAddress, currentPage, done := PageTurn(h, data, chunkSize, limit, written, ramAddress, currentPage, log0, done);
      if r.Err? {
        return;
      }
    }
    r := FlushPage(h, data, chunkSize, limit, written, ramAddress, currentPage, log0, done);
  }

  /** After the loop: a partly filled RAM buffer is erased and programmed as one more page. */
  method FlushPage(h: Port, data: seq<byte>, chunkSize: nat, limit: u32, written: nat, ramAddress: u32, currentPage: u8,
                   ghost log0: seq<Attempt>, ghost done: seq<Step<CommandError>>) returns (r: Result<(), CommandError>)
    requires chunkSize > 0 && written >= |data|
    requires h.log == log0 + Oks(done)
    modifies h
    ensures Ran(log0, h.log, Then(done, Plan(PageSteps(data, chunkSize, limit, PageState(written, ramAddress, currentPage)), Ok(()))), r)
  {
    assert PageSteps(data, chunkSize, limit, PageState(written, ramAddress, currentPage)) == Flush(PageState(written, ramAddress, currentPage));
    if ramAddress > 0 {
      r := ErasePage(h, currentPage, log0, done, []);
      assert PagePair(currentPage) + [] == PagePair(currentPage);
      if r.Err? {
        return;
      }
      r := Ok(());
      RanFinished(log0, h.log, done + PagePair(currentPage), Plan([], Ok(())), r);
    } else {
      r := Ok(());
      RanFinished(log0, h.log, done, Plan([], Ok(())), r);
    }
  }

  /** One turn of the page loop: a piece to RAM and, when the buffer is full, erasing and programming the page. */
  method PageTurn(h: Port, data: seq<byte>, chunkSize: nat, limit: u32, written: nat, ramAddress: u32, currentPage: u8,
                  ghost log0: seq<Attempt>, ghost done: seq<Step<CommandError>>)
    returns (r: Result<(), CommandError>, written1: nat, ramAddress1: u32, currentPage1: u8, ghost done1: seq<Step<CommandError>>)
    requires chunkSize > 0 && written < |data|
    requires h.log == log0 + Oks(done)
    modifies h
    ensures PageState(written1, ramAddress1, currentPage1) == PageMove(data, chunkSize, limit, PageState(written, ramAddress, currentPage)).1
    ensures r.Ok? ==> (h.log == log0 + Oks(done1)
      && Then(done, Plan(PageSteps(data, chunkSize, limit, PageState(written, ramAddress, currentPage)), Ok(())))
         == Then(done1, Plan(PageSteps(data, chunkSize, limit, PageState(written1, ramAddress1, currentPage1)), Ok(()))))
    ensures r.Err? ==>
      Ran(log0, h.log, Then(done, Plan(PageSteps(data, chunkSize, limit, PageState(written, ramAddress, currentPage)), Ok(()))), r)
  {
    ghost var m := PageMove(data, chunkSize, limit, PageState(written, ramAddress, currentPage));
    ghost var next := PageSteps(data, chunkSize, limit, m.1);
    var toWrite := chunkSize;
    if toWrite > |data| - written {
      toWrite := |data| - written;
    }
    var step := Step(WriteBlock(ramAddress, data[written..written + toWrite]), RamWriteFailed);
    ghost var turn := if Wrap32(ramAddress + toWrite) >= limit then PagePair(currentPage) else [];
    ghost var whole := Then(done, Plan(PageSteps(data, chunkSize, limit, PageState(written, ramAddress, currentPage)), Ok(())));
    assert whole == Then(done, Then([step], Plan(turn + next, Ok(())))) by {
      TurnSteps(data, chunkSize, limit, PageState(written, ramAddress, currentPage));
    }
    written1, ramAddress1, currentPage1 := written + toWrite, Wrap32(ramAddress + toWrite), currentPage;
    if ramAddress1 >= limit {
      ramAddress1, currentPage1 := 0, NextPage(currentPage);
    }
    var ok := Issue(h, step, log0, done, Plan(turn + next, Ok(())));
    if !ok {
      return Err(RamWriteFailed), written1, ramAddress1, currentPage1, done;
    }
    done1 := done + [step];
    assert whole == Then(done1, Plan(turn + next, Ok(())));
    if Wrap32(ramAddress + toWrite) >= limit {
      r := ErasePage(h, currentPage, log0, done1, next);
      if r.Err? {
        return;
      }
      done1 := done1 + PagePair(currentPage);
    } else {
      assert turn + next == next;
      r := Ok(());
    }
  }

  /**
   * The page loop from a state with file left: the write of the next piece
   * at the RAM offset, the page's erase and program when the buffer is
   * full, then the loop from the state after the turn.
   */
  lemma TurnSteps(data: seq<byte>, chunkSize: nat, limit: u32, st: PageState)
    requires chunkSize > 0 && st.written < |data|
    ensures var n := if chunkSize > |data| - st.written then |data| - st.written else chunkSize;
      var m := PageMove(data, chunkSize, limit, st);
      var turn := if Wrap32(st.ram + n) >= limit then PagePair(st.page) else [];
      PageSteps(data, chunkSize, limit, st)
        == [Step(WriteBlock(st.ram, data[st.written..st.written + n]), RamWriteFailed)] + (turn + PageSteps(data, chunkSize, limit, m.1))
  {
  }

  /** Erases and then programs `page`, the next two steps after the accepted `done`. */
  method ErasePage(h: Port, page: u8, ghost log0: seq<Attempt>, ghost done: seq<Step<CommandError>>,
                   ghost rest: seq<Step<CommandError>>) returns (r: Result<(), CommandError>)
    requires h.log == log0 + Oks(done)
    modifies h
    ensures r.Ok? ==> (h.log == log0 + Oks(done + PagePair(page))
                       && Then(done, Plan(PagePair(page) + rest, Ok(()))) == Then(done + PagePair(page), Plan(rest, Ok(()))))
    ensures r.Err? ==> Ran(log0, h.log, Then(done, Plan(PagePair(page) + rest, Ok(()))), r)
  {
    var erase := Step(EraseSector(page), EraseSectorFailed);
    var program := Step(ProgramSector(page), ProgramSectorFailed);
    assert Plan(PagePair(page) + rest, Ok(())) == Then([erase], Plan([program] + rest, Ok(())));
    var ok := Issue(h, erase, log0, done, Plan([program] + rest, Ok(())));
    if !ok {
      return Err(EraseSectorFailed);
    }
    assert Plan([program] + rest, Ok(())) == Then([program], Plan(rest, Ok(())));
    ok := Issue(h, program, log0, done + [erase], Plan(rest, Ok(())));
    if !ok {
      return Err(ProgramSectorFailed);
    }
    assert done + [erase] + [program] == done + PagePair(page);
    r := Ok(());
  }

  /** An erase and a program of `page`: no data, one page erased and programmed, in that order. */
  lemma PagePairFacts(page: u8)
    ensures Payload(PagePair(page)) == []
    ensures Programmed(PagePair(page)) == [page] && Erased(PagePair(page)) == [page]
    ensures ErasedThenProgrammed(PagePair(page))
  {
    var pair := PagePair(page);
    var one := pair[1..];
    assert one == [Step(ProgramSector(page), ProgramSectorFailed)];
    assert one[1..] == [];
    assert Payload(one) == [] + Payload(one[1..]);
    assert Erased(one) == [] + Erased(one[1..]);
    assert Programmed(one) == [page] + Programmed(one[1..]);
    assert PairedAt(pair, 0) && PairedAt(pair, 1);
  }

  /** One write: its data, no page erased or programmed. */
  lemma WriteFacts(step: Step<CommandError>)
    requires step.call.WriteBlock?
    ensures Payload([step]) == step.call.data
    ensures Programmed([step]) == [] && Erased([step]) == []
    ensures ErasedThenProgrammed([step])
  {
    assert [step][1..] == [];
  }

  /**
   * One turn of the page loop carries the next piece of the file, and it
   * either leaves the page alone or erases and programs the current page
   * once and moves to the next one.
   */
  lemma MoveFacts(data: seq<byte>, chunkSize: nat, limit: u32, st: PageState)
    requires chunkSize > 0 && st.written < |data|
    ensures var m := PageMove(data, chunkSize, limit, st);
      && Payload(m.0) == data[st.written..m.1.written]
      && ErasedThenProgrammed(m.0)
      && Erased(m.0) == Programmed(m.0)
      && ((m.1.page == st.page && Programmed(m.0) == [])
          || (m.1.page == NextPage(st.page) && Programmed(m.0) == [st.page]))
  {
    var m := PageMove(data, chunkSize, limit, st);
    var n := if chunkSize > |data| - st.written then |data| - st.written else chunkSize;
    var write := Step(WriteBlock(st.ram, data[st.written..st.written + n]), RamWriteFailed);
    WriteFacts(write);
    if Wrap32(st.ram + n) >= limit {
      PagePairFacts(st.page);
      PayloadAppend([write], PagePair(st.page));
      ProgrammedAppend([write], PagePair(st.page));
      ErasedThenProgrammedAppend([write], PagePair(st.page));
    }
  }

  /** The final flush carries no data and erases and programs what it programs, in pairs. */
  lemma FlushFacts(st: PageState)
    ensures Payload(Flush(st)) == []
    ensures ErasedThenProgrammed(Flush(st)) && Erased(Flush(st)) == Programmed(Flush(st))
    ensures Programmed(Flush(st)) == [] || Programmed(Flush(st)) == [st.page]
  {
    if st.ram > 0 {
      PagePairFacts(st.page);
    } else {
      assert ErasedThenProgrammed<CommandError>([]);
    }
  }

  /** The pieces the page loop writes to RAM carry exactly the file, from `st.written` on. */
  lemma {:induction false} PagesCarryData(data: seq<byte>, chunkSize: nat, limit: u32, st: PageState)
    requires chunkSize > 0 && st.written <= |data|
    ensures Payload(PageSteps(data, chunkSize, limit, st)) == data[st.written..]
    decreases |data| - st.written
  {
    if st.written < |data| {
      var m := PageMove(data, chunkSize, limit, st);
      MoveFacts(data, chunkSize, limit, st);
      PagesCarryData(data, chunkSize, limit, m.1);
      PayloadAppend(m.0, PageSteps(data, chunkSize, limit, m.1));
      assert data[st.written..] == data[st.written..m.1.written] + data[m.1.written..];
    } else {
      FlushFacts(st);
      assert data[st.written..] == [];
    }
  }

  /** Consecutive pages modulo 256, from `page` on. */
  ghost predicate Consecutive(pages: seq<u8>, page: u8) {
    forall k :: 0 <= k < |pages| ==> pages[k] == (page + k) % 256
  }

  lemma ConsecutiveCons(page: u8, pages: seq<u8>)
    requires Consecutive(pages, NextPage(page))
    ensures Consecutive([page] + pages, page)
  {
    var all := [page] + pages;
    forall k | 0 <= k < |all|
      ensures all[k] == (page + k) % 256
    {
      if k > 0 {
        assert all[k] == pages[k - 1] == (NextPage(page) + (k - 1)) % 256;
        assert NextPage(page) + (k - 1) == page + k || NextPage(page) + (k - 1) == page + k - 256;
      }
    }
  }

  /** The page loop erases the same pages it programs, in the same order. */
  lemma {:induction false} PagesErasedAreProgrammed(data: seq<byte>, chunkSize: nat, limit: u32, st: PageState)
    requires chunkSize > 0
    ensures var s := PageSteps(data, chunkSize, limit, st); Erased(s) == Programmed(s)
    decreases |data| - st.written
  {
    if st.written < |data| {
      var m := PageMove(data, chunkSize, limit, st);
      MoveFacts(data, chunkSize, limit, st);
      PagesErasedAreProgrammed(data, chunkSize, limit, m.1);
      ProgrammedAppend(m.0, PageSteps(data, chunkSize, limit, m.1));
    } else {
      FlushFacts(st);
    }
  }

  /** The pages the page loop programs are consecutive from the sector's first page on, wrapping at 256. */
  lemma {:induction false} PagesConsecutive(data: seq<byte>, chunkSize: nat, limit: u32, st: PageState)
    requires chunkSize > 0
    ensures Consecutive(Programmed(PageSteps(data, chunkSize, limit, st)), st.page)
    decreases |data| - st.written
  {
    if st.written < |data| {
      var m := PageMove(data, chunkSize, limit, st);
      var rest := PageSteps(data, chunkSize, limit, m.1);
      assert Programmed(PageSteps(data, chunkSize, limit, st)) == Programmed(m.0) + Programmed(rest) by {
        ProgrammedAppend(m.0, rest);
      }
      MoveFacts(data, chunkSize, limit, st);
      PagesConsecutive(data, chunkSize, limit, m.1);
      if m.1.page != st.page {
        ConsecutiveCons(st.page, Programmed(rest));
      } else {
        assert Programmed(m.0) + Programmed(rest) == Programmed(rest);
      }
    } else {
      FlushFacts(st);
    }
  }

  /**
   * Every erase of a page is followed at once by programming that page,
   * and every programming of a page comes right after its erase.
   */
  ghost predicate ErasedThenProgrammed<E>(s: seq<Step<E>>) {
    forall k :: 0 <= k < |s| ==> PairedAt(s, k)
  }

  ghost predicate PairedAt<E>(s: seq<Step<E>>, k: nat)
    requires k < |s|
  {
    && (s[k].call.EraseSector? ==> k + 1 < |s| && s[k + 1].call == ProgramSector(s[k].call.sector))
    && (s[k].call.ProgramSector? ==> k > 0 && s[k - 1].call == EraseSector(s[k].call.sector))
  }

  lemma ErasedThenProgrammedAppend<E>(a: seq<Step<E>>, b: seq<Step<E>>)
    requires ErasedThenProgrammed(a) && ErasedThenProgrammed(b)
    ensures ErasedThenProgrammed(a + b)
  {
    var s := a + b;
    forall k | 0 <= k < |s|
      ensures PairedAt(s, k)
    {
      if k < |a| {
        assert PairedAt(a, k);
        assert s[k] == a[k];
        if k + 1 < |a| {
          assert s[k + 1] == a[k + 1];
        }
        if k > 0 {
          assert s[k - 1] == a[k - 1];
        }
      } else {
        assert PairedAt(b, k - |a|);
        assert s[k] == b[k - |a|];
        if k + 1 < |s| {
          assert s[k + 1] == b[k + 1 - |a|];
        }
        if k - 1 >= |a| {
          assert s[k - 1] == b[k - 1 - |a|];
        }
      }
    }
  }

  /** In the whole page loop each erase of a page is immediately followed by programming it. */
  lemma {:induction false} PagesPaired(data: seq<byte>, chunkSize: nat, limit: u32, st: PageState)
    requires chunkSize > 0
    ensures ErasedThenProgrammed(PageSteps(data, chunkSize, limit, st))
    decreases |data| - st.written
  {
    if st.written < |data| {
      var m := PageMove(data, chunkSize, limit, st);
      MoveFacts(data, chunkSize, limit, st);
      PagesPaired(data, chunkSize, limit, m.1);
      ErasedThenProgrammedAppend(m.0, PageSteps(data, chunkSize, limit, m.1));
    } else {
      FlushFacts(st);
    }
  }

  /**
   * The F256K and F256Jr geometry (8 KB pages, sectors and RAM buffer) with
   * 4 KB chunks: a sector image goes to RAM at 0 and 0x1000, and then its
   * one page is erased and programmed.
   */
  lemma F256SectorExample(data: seq<byte>, sector: u8)
    requires |data| == 8192
    ensures StartPage(sector, 8, 8) == sector
    ensures PageSteps(data, 4096, Wrap32(8 * 1024), PageState(0, 0, StartPage(sector, 8, 8))) == [
      Step(WriteBlock(0, data[..4096]), RamWriteFailed),
      Step(WriteBlock(0x1000, data[4096..]), RamWriteFailed),
      Step(EraseSector(sector), EraseSectorFailed),
      Step(ProgramSector(sector), ProgramSectorFailed)]
  {
    var limit := Wrap32(8 * 1024);
    assert limit == 8192;
    var s0 := PageState(0, 0, sector);
    var m0 := PageMove(data, 4096, limit, s0);
    assert Wrap32(0 + 4096) == 4096;
    assert m0 == ([Step(WriteBlock(0, data[0..4096]), RamWriteFailed)], PageState(4096, 4096, sector));
    var m1 := PageMove(data, 4096, limit, m0.1);
    assert Wrap32(4096 + 4096) == 8192;
    assert m1 == ([Step(WriteBlock(0x1000, data[4096..8192]), RamWriteFailed)] + PagePair(sector), PageState(8192, 0, NextPage(sector)));
    assert PageSteps(data, 4096, limit, m1.1) == [];
    assert data[0..4096] == data[..4096] && data[4096..8192] == data[4096..];
  }

  // ---------------------------------------------------------------------
  // flashBulkProgram

  /** A row of the bulk list has the two fields `sector,filename`. */
  predicate Rows(records: seq<seq<string>>) {
    forall i :: 0 <= i < |records| ==> |records[i]| >= 2
  }

  /** The checks `flashBulkProgram` makes before asking: a port, a readable non-empty list, two fields per row. */
  function BulkInputs(port: string, records: Option<seq<seq<string>>>): (r: Result<seq<seq<string>>, CommandError>)
    ensures r.Ok? <==> port != "" && records.Some? && |records.value| > 0 && Rows(records.value)
    ensures r.Ok? ==> r.value == records.value
    ensures port == "" ==> r == Err(NoPort)
  {
    if ValidatePort(port).Err? then Err(ValidatePort(port).error)
    else if records.None? then Err(CsvReadFailed)
    else if |records.value| == 0 then Err(CsvEmpty)
    else if !Rows(records.value) then Err(InvalidCsv)
    else Ok(records.value)
  }

  /** Erasing (unless the whole flash was erased first) and then programming one sector. */
  function SectorSteps(sector: u8, eraseFirst: bool): seq<Step<CommandError>> {
    (if eraseFirst then [] else [Step(EraseSector(sector), EraseSectorFailed)])
    + [Step(ProgramSector(sector), ProgramSectorFailed)]
  }

  /** A failed write of a row's upload is reported with the row's file name. */
  function RowError(file: string): CommandError -> CommandError {
    (e: CommandError) => if e.ChunkFailed? then RowUploadFailed(file, e.address) else e
  }

  /**
   * One row of the list: its sector number parsed as hex, its file read,
   * the file uploaded to RAM at 0, and then the sector erased and
   * programmed. `files` is the file system: a name it lacks cannot be read.
   */
  function RowPlan(row: seq<string>, files: map<string, seq<byte>>, chunkSize: nat, eraseFirst: bool): Plan<CommandError>
    requires |row| >= 2 && chunkSize > 0
  {
    var sector := ParseSector(row[0]);
    if sector.None? then Plan([], Err(InvalidSector(row[0])))
    else if row[1] !in files then Plan([], Err(RowReadFailed(row[1])))
    else AndThen(MapErrors(Plan(UploadSteps(0, files[row[1]], chunkSize), Ok(())), RowError(row[1])),
                 Plan(SectorSteps(sector.value, eraseFirst), Ok(())))
  }

  /** The rows from `i` on, each only when the ones before it succeeded. */
  function BulkRows(records: seq<seq<string>>, files: map<string, seq<byte>>, chunkSize: nat, eraseFirst: bool, i: nat)
    : Plan<CommandError>
    requires Rows(records) && chunkSize > 0
    decreases |records| - i
  {
    if i >= |records| then Plan([], Ok(()))
    else AndThen(RowPlan(records[i], files, chunkSize, eraseFirst), BulkRows(records, files, chunkSize, eraseFirst, i + 1))
  }

  /** The session body of `flashBulkProgram`: one flash erase first if asked, then the rows. */
  function BulkPlan(records: seq<seq<string>>, files: map<string, seq<byte>>, chunkSize: nat, eraseFirst: bool): Plan<CommandError>
    requires Rows(records) && chunkSize > 0
  {
    Then(if eraseFirst then [Step(Call.EraseFlash, EraseFlashFailed)] else [], BulkRows(records, files, chunkSize, eraseFirst, 0))
  }

  /** `flashBulkProgram`: `records` is the list as read (`None` when it cannot be read). */
  method FlashBulkProgram(h: Port, cfg: Config.Config, port: string, records: Option<seq<seq<string>>>,
                          files: map<string, seq<byte>>, eraseFirst: bool, confirmed: bool, stopped: bool)
    returns (r: Result<(), CommandError>)
    requires cfg.chunkSize > 0
    modifies h
    ensures var c := BulkInputs(port, records);
      && (c.Err? ==> r == Err(c.error) && h.log == old(h.log))
      && (c.Ok? && !confirmed ==> r == Ok(()) && h.log == old(h.log))
      && (c.Ok? && confirmed ==> Session(old(h.log), h.log, stopped, BulkPlan(c.value, files, cfg.chunkSize, eraseFirst), r))
  {
    var portCheck := ValidatePort(port);
    if portCheck.Err? {
      return Err(portCheck.error);
    }
    if records.None? {
      return Err(CsvReadFailed);
    }
    var rows := records.value;
    if |rows| == 0 {
      return Err(CsvEmpty);
    }
    for i := 0 to |rows|
      invariant forall j :: 0 <= j < i ==> |rows[j]| >= 2
    {
      if |rows[i]| < 2 {
        return Err(InvalidCsv);
      }
    }
    if !confirmed {
      return Ok(());
    }
    ghost var log0 := h.log;
    ghost var body := BulkPlan(rows, files, cfg.chunkSize, eraseFirst);
    r := Start(h, stopped);
    if r.Err? {
      SessionFailed(log0, h.log, stopped, body, r);
      return;
    }
    ghost var mid := h.log;
    r := BulkBody(h, rows, files, cfg.chunkSize, eraseFirst);
    ghost var log2 := h.log;
    Finish(h, stopped);
    SessionClosed(log0, mid, log2, h.log, stopped, body, r);
  }

  /** The flash erase, if asked, and then the rows in order until one fails. */
  method BulkBody(h: Port, records: seq<seq<string>>, files: map<string, seq<byte>>, chunkSize: nat, eraseFirst: bool)
    returns (r: Result<(), CommandError>)
    requires Rows(records) && chunkSize > 0
    modifies h
    ensures Ran(old(h.log), h.log, BulkPlan(records, files, chunkSize, eraseFirst), r)
  {
    ghost var log0 := h.log;
    ghost var rows := BulkRows(records, files, chunkSize, eraseFirst, 0);
    ghost var done: seq<Step<CommandError>> := [];
    assert log0 == log0 + Oks<CommandError>([]);
    if eraseFirst {
      var erase := Step(Call.EraseFlash, EraseFlashFailed);
      var ok := Issue(h, erase, log0, [], rows);
      ThenNil(Then([erase], rows));
      if !ok {
        return Err(EraseFlashFailed);
      }
      done := [erase];
    }
    r := ProgramRows(h, records, files, chunkSize, eraseFirst, log0, done);
  }

  lemma ThenNil<E>(p: Plan<E>)
    ensures Then([], p) == p
  {
    assert [] + p.steps == p.steps;
  }

  /** The row loop of `flashBulkProgram`. */
  method ProgramRows(h: Port, records: seq<seq<string>>, files: map<string, seq<byte>>, chunkSize: nat, eraseFirst: bool,
                     ghost log0: seq<Attempt>, ghost done0: seq<Step<CommandError>>)
    returns (r: Result<(), CommandError>)
    requires Rows(records) && chunkSize > 0
    requires h.log == log0 + Oks(done0)
    modifies h
    ensures Ran(log0, h.log, Then(done0, BulkRows(records, files, chunkSize, eraseFirst, 0)), r)
  {
    ghost var done := done0;
    for i := 0 to |records|
      invariant h.log == log0 + Oks(done)
      invariant Then(done0, BulkRows(records, files, chunkSize, eraseFirst, 0))
             == Then(done, BulkRows(records, files, chunkSize, eraseFirst, i))
    {
      ghost var log1 := h.log;
      ghost var row := RowPlan(records[i], files, chunkSize, eraseFirst);
      ghost var rest := BulkRows(records, files, chunkSize, eraseFirst, i + 1);
      r := ProgramRow(h, records[i], files, chunkSize, eraseFirst);
      RanFirst(log0, log1, h.log, done, row, rest, r);
      if r.Err? {
        return;
      }
      done := done + row.steps;
    }
    r := Ok(());
    RanFinished(log0, h.log, done, Plan([], Ok(())), r);
  }

  /** One row: parse the sector, read the file, upload it to RAM at 0, erase and program the sector. */
  method ProgramRow(h: Port, row: seq<string>, files: map<string, seq<byte>>, chunkSize: nat, eraseFirst: bool)
    returns (r: Result<(), CommandError>)
    requires |row| >= 2 && chunkSize > 0
    modifies h
    ensures Ran(old(h.log), h.log, RowPlan(row, files, chunkSize, eraseFirst), r)
  {
    var sectorNum := ParseSector(row[0]);
    if sectorNum.None? {
      r := Err(InvalidSector(row[0]));
      RanNothing(h.log, r);
      return;
    }
    if row[1] !in files {
      r := Err(RowReadFailed(row[1]));
      RanNothing(h.log, r);
      return;
    }
    r := UploadAndProgram(h, row[1], files[row[1]], sectorNum.value, chunkSize, eraseFirst);
  }

  /** A row whose sector and file are good: the file uploaded to RAM at 0, then the sector erased and programmed. */
  method UploadAndProgram(h: Port, file: string, data: seq<byte>, sector: u8, chunkSize: nat, eraseFirst: bool)
    returns (r: Result<(), CommandError>)
    requires chunkSize > 0
    modifies h
    ensures Ran(old(h.log), h.log, AndThen(MapErrors(Plan(UploadSteps(0, data, chunkSize), Ok(())), RowError(file)),
                                           Plan(SectorSteps(sector, eraseFirst), Ok(()))), r)
  {
    ghost var log0 := h.log;
    ghost var mapped := MapErrors(Plan(UploadSteps(0, data, chunkSize), Ok(())), RowError(file));
    ghost var tail := Plan(SectorSteps(sector, eraseFirst), Ok(()));
    r := UploadRow(h, file, data, chunkSize);
    ghost var log1 := h.log;
    if r.Err? {
      assert Ran(log0, log1, AndThen(mapped, tail), r) by {
        assert log0 == log0 + Oks<CommandError>([]);
        RanFirst(log0, log0, log1, [], mapped, tail, r);
        ThenNil(AndThen(mapped, tail));
      }
      return;
    }
    assert log1 == log0 + Oks(mapped.steps) && AndThen(mapped, tail) == Then(mapped.steps, tail) by {
      assert log0 == log0 + Oks<CommandError>([]);
      RanFirst(log0, log0, log1, [], mapped, tail, r);
      ThenNil(AndThen(mapped, tail));
      assert [] + mapped.steps == mapped.steps;
    }
    r := ProgramSectorSteps(h, sector, eraseFirst, log0, mapped.steps);
  }

  /** The upload of a row's file to RAM at 0, a failed write reported with the file's name. */
  method UploadRow(h: Port, file: string, data: seq<byte>, chunkSize: nat) returns (r: Result<(), CommandError>)
    requires chunkSize > 0
    modifies h
    ensures Ran(old(h.log), h.log, MapErrors(Plan(UploadSteps(0, data, chunkSize), Ok(())), RowError(file)), r)
  {
    ghost var upload := Plan(UploadSteps(0, data, chunkSize), Ok(()));
    var r0 := UploadChunked(h, 0, data, chunkSize);
    RanMapErrors(old(h.log), h.log, upload, RowError(file), r0);
    r := if r0.Err? && r0.error.ChunkFailed? then Err(RowUploadFailed(file, r0.error.address)) else r0;
    assert r == MapResult(r0, RowError(file));
  }

  /** Erasing the sector unless the whole flash was erased, then programming it, after the accepted `done`. */
  method ProgramSectorSteps(h: Port, sector: u8, eraseFirst: bool, ghost log0: seq<Attempt>, ghost done: seq<Step<CommandError>>)
    returns (r: Result<(), CommandError>)
    requires h.log == log0 + Oks(done)
    modifies h
    ensures Ran(log0, h.log, Then(done, Plan(SectorSteps(sector, eraseFirst), Ok(()))), r)
  {
    ghost var tail := Plan(SectorSteps(sector, eraseFirst), Ok(()));
    ghost var done1 := done;
    var program := Step(ProgramSector(sector), ProgramSectorFailed);
    if !eraseFirst {
      var erase := Step(EraseSector(sector), EraseSectorFailed);
      assert tail == Then([erase], Plan([program], Ok(())));
      var ok := Issue(h, erase, log0, done, Plan([program], Ok(())));
      if !ok {
        return Err(EraseSectorFailed);
      }
      done1 := done + [erase];
    } else {
      assert tail == Plan([program], Ok(()));
    }
    assert Plan([program], Ok(())) == Then([program], Plan([], Ok(())));
    var ok := Issue(h, program, log0, done1, Plan([], Ok(())));
    if !ok {
      return Err(ProgramSectorFailed);
    }
    r := Ok(());
    RanFinished(log0, h.log, done1 + [program], Plan([], Ok(())), r);
  }

  /** Steps with the same calls carry the same data and erase and program the same pages. */
  lemma {:induction false} SameCalls<E, F>(a: seq<Step<E>>, b: seq<Step<F>>)
    requires |a| == |b| && forall i :: 0 <= i < |a| ==> a[i].call == b[i].call
    ensures Payload(a) == Payload(b) && Programmed(a) == Programmed(b) && Erased(a) == Erased(b)
  {
    if |a| > 0 {
      SameCalls(a[1..], b[1..]);
    }
  }

  /** The sector steps program the sector once, and erase it first unless the whole flash was erased. */
  lemma SectorStepsFacts(sector: u8, eraseFirst: bool)
    ensures Payload(SectorSteps(sector, eraseFirst)) == []
    ensures Programmed(SectorSteps(sector, eraseFirst)) == [sector]
    ensures Erased(SectorSteps(sector, eraseFirst)) == (if eraseFirst then [] else [sector])
  {
    if eraseFirst {
      var program := SectorSteps(sector, true);
      assert program == [Step(ProgramSector(sector), ProgramSectorFailed)];
      assert program[1..] == [];
      assert Payload(program) == [] + Payload(program[1..]);
      assert Programmed(program) == [sector] + Programmed(program[1..]);
      assert Erased(program) == [] + Erased(program[1..]);
    } else {
      assert SectorSteps(sector, false) == PagePair(sector);
      PagePairFacts(sector);
    }
  }

  /**
   * A row whose sector number parses and whose file can be read succeeds
   * as a plan: it uploads exactly the file and then programs its sector,
   * erasing the sector first unless the whole flash was erased.
   */
  lemma RowFacts(row: seq<string>, files: map<string, seq<byte>>, chunkSize: nat, eraseFirst: bool)
    requires |row| >= 2 && chunkSize > 0
    requires ParseSector(row[0]).Some? && row[1] in files
    ensures var p := RowPlan(row, files, chunkSize, eraseFirst); var sector := ParseSector(row[0]).value;
      && p.end == Ok(())
      && Payload(p.steps) == files[row[1]]
      && Programmed(p.steps) == [sector]
      && Erased(p.steps) == (if eraseFirst then [] else [sector])
      && p.steps[|p.steps| - 1].call == ProgramSector(sector)
  {
    var sector := ParseSector(row[0]).value;
    var upload := Plan(UploadSteps(0, files[row[1]], chunkSize), Ok(()));
    var mapped := MapErrors(upload, RowError(row[1]));
    var tail := SectorSteps(sector, eraseFirst);
    assert RowPlan(row, files, chunkSize, eraseFirst).steps == mapped.steps + tail;
    SameCalls(mapped.steps, upload.steps);
    UploadCarriesData(0, files[row[1]], chunkSize);
    UploadWrites(0, files[row[1]], chunkSize);
    WritesProgramNothing(upload.steps);
    SectorStepsFacts(sector, eraseFirst);
    PayloadAppend(mapped.steps, tail);
    ProgrammedAppend(mapped.steps, tail);
  }

  /** A row whose sector number does not parse stops the list before any call of its own. */
  lemma RowBadSector(row: seq<string>, files: map<string, seq<byte>>, chunkSize: nat, eraseFirst: bool)
    requires |row| >= 2 && chunkSize > 0
    requires ParseSector(row[0]).None?
    ensures RowPlan(row, files, chunkSize, eraseFirst) == Plan([], Err(InvalidSector(row[0])))
  {
  }

  /** A row that can be programmed. */
  predicate RowValid(row: seq<string>, files: map<string, seq<byte>>) {
    |row| >= 2 && ParseSector(row[0]).Some? && row[1] in files
  }

  /** The sector numbers of rows `i` up to `k`, of the rows whose number parses. */
  function SectorsFrom(records: seq<seq<string>>, i: nat, k: nat): seq<u8>
    requires Rows(records) && k <= |records|
    decreases k - i
  {
    if i >= k then []
    else
      var sector := ParseSector(records[i][0]);
      (if sector.Some? then [sector.value] else []) + SectorsFrom(records, i + 1, k)
  }

  /** A row that can be programmed, followed by the rest of the list. */
  lemma BulkRowsUnfold(records: seq<seq<string>>, files: map<string, seq<byte>>, chunkSize: nat, eraseFirst: bool, i: nat)
    requires Rows(records) && chunkSize > 0 && i < |records| && RowValid(records[i], files)
    ensures var p := BulkRows(records, files, chunkSize, eraseFirst, i);
      var rest := BulkRows(records, files, chunkSize, eraseFirst, i + 1);
      var sector := ParseSector(records[i][0]).value;
      && p.end == rest.end
      && Programmed(p.steps) == [sector] + Programmed(rest.steps)
      && Erased(p.steps) == (if eraseFirst then [] else [sector]) + Erased(rest.steps)
  {
    var row := RowPlan(records[i], files, chunkSize, eraseFirst);
    var rest := BulkRows(records, files, chunkSize, eraseFirst, i + 1);
    RowFacts(records[i], files, chunkSize, eraseFirst);
    assert BulkRows(records, files, chunkSize, eraseFirst, i) == Then(row.steps, rest);
    ProgrammedAppend(row.steps, rest.steps);
  }

  /**
   * The rows from `i` up to `k` can all be programmed: when `k` is the end
   * of the list the list succeeds; when row `k` has a sector number that
   * does not parse, the list stops there with that error.
   */
  lemma {:induction false} BulkRowsEnd(records: seq<seq<string>>, files: map<string, seq<byte>>, chunkSize: nat,
                                       eraseFirst: bool, i: nat, k: nat)
    requires Rows(records) && chunkSize > 0 && i <= k <= |records|
    requires forall j :: i <= j < k ==> RowValid(records[j], files)
    ensures var p := BulkRows(records, files, chunkSize, eraseFirst, i);
      && (k == |records| ==> p.end == Ok(()))
      && (k < |records| && ParseSector(records[k][0]).None? ==> p.end == Err(InvalidSector(records[k][0])))
    decreases k - i
  {
    if i < k {
      BulkRowsUnfold(records, files, chunkSize, eraseFirst, i);
      BulkRowsEnd(records, files, chunkSize, eraseFirst, i + 1, k);
    } else if k < |records| && ParseSector(records[k][0]).None? {
      RowBadSector(records[k], files, chunkSize, eraseFirst);
    }
  }

  /**
   * The rows from `i` up to `k` can all be programmed, and row `k` (if any)
   * has a sector number that does not parse: the list programs the rows'
   * sectors in the order of the rows, and erases the same sectors in the
   * same order unless the whole flash was erased first.
   */
  lemma BulkRowsPrefix(records: seq<seq<string>>, files: map<string, seq<byte>>, chunkSize: nat,
                       eraseFirst: bool, i: nat, k: nat)
    requires Rows(records) && chunkSize > 0 && i <= k <= |records|
    requires forall j :: i <= j < k ==> RowValid(records[j], files)
    requires k < |records| ==> ParseSector(records[k][0]).None?
    ensures var p := BulkRows(records, files, chunkSize, eraseFirst, i);
      && Programmed(p.steps) == SectorsFrom(records, i, k)
      && Erased(p.steps) == (if eraseFirst then [] else SectorsFrom(records, i, k))
  {
    BulkRowsProgrammed(records, files, chunkSize, eraseFirst, i, k);
    BulkRowsErased(records, files, chunkSize, eraseFirst, i, k);
  }

  lemma {:induction false} BulkRowsProgrammed(records: seq<seq<string>>, files: map<string, seq<byte>>, chunkSize: nat,
                                              eraseFirst: bool, i: nat, k: nat)
    requires Rows(records) && chunkSize > 0 && i <= k <= |records|
    requires forall j :: i <= j < k ==> RowValid(records[j], files)
    requires k < |records| ==> ParseSector(records[k][0]).None?
    ensures Programmed(BulkRows(records, files, chunkSize, eraseFirst, i).steps) == SectorsFrom(records, i, k)
    decreases k - i
  {
    if i < k {
      var p := BulkRows(records, files, chunkSize, eraseFirst, i);
      var rest := BulkRows(records, files, chunkSize, eraseFirst, i + 1);
      var sector := ParseSector(records[i][0]).value;
      assert Programmed(p.steps) == [sector] + Programmed(rest.steps) by {
        BulkRowsUnfold(records, files, chunkSize, eraseFirst, i);
      }
      assert Programmed(rest.steps) == SectorsFrom(records, i + 1, k) by {
        BulkRowsProgrammed(records, files, chunkSize, eraseFirst, i + 1, k);
      }
      assert SectorsFrom(records, i, k) == [sector] + SectorsFrom(records, i + 1, k);
    } else {
      BulkRowsStop(records, files, chunkSize, eraseFirst, k);
    }
  }

  lemma {:induction false} BulkRowsErased(records: seq<seq<string>>, files: map<string, seq<byte>>, chunkSize: nat,
                                          eraseFirst: bool, i: nat, k: nat)
    requires Rows(records) && chunkSize > 0 && i <= k <= |records|
    requires forall j :: i <= j < k ==> RowValid(records[j], files)
    requires k < |records| ==> ParseSector(records[k][0]).None?
    ensures Erased(BulkRows(records, files, chunkSize, eraseFirst, i).steps) == (if eraseFirst then [] else SectorsFrom(records, i, k))
    decreases k - i
  {
    if i < k {
      var p := BulkRows(records, files, chunkSize, eraseFirst, i);
      var rest := BulkRows(records, files, chunkSize, eraseFirst, i + 1);
      var sector := ParseSector(records[i][0]).value;
      assert Erased(p.steps) == (if eraseFirst then [] else [sector]) + Erased(rest.steps) by {
        BulkRowsUnfold(records, files, chunkSize, eraseFirst, i);
      }
      assert Erased(rest.steps) == (if eraseFirst then [] else SectorsFrom(records, i + 1, k)) by {
        BulkRowsErased(records, files, chunkSize, eraseFirst, i + 1, k);
      }
      assert SectorsFrom(records, i, k) == [sector] + SectorsFrom(records, i + 1, k);
    } else {
      BulkRowsStop(records, files, chunkSize, eraseFirst, k);
    }
  }

  /** The list issues nothing from a row whose sector number does not parse, or from its end. */
  lemma BulkRowsStop(records: seq<seq<string>>, files: map<string, seq<byte>>, chunkSize: nat, eraseFirst: bool, k: nat)
    requires Rows(records) && chunkSize > 0 && k <= |records|
    requires k < |records| ==> ParseSector(records[k][0]).None?
    ensures BulkRows(records, files, chunkSize, eraseFirst, k).steps == []
  {
    if k < |records| {
      RowBadSector(records[k], files, chunkSize, eraseFirst);
    }
  }

  /**
   * When every row can be programmed, the list programs the rows' sectors
   * in order; with the whole flash erased first, the first call is that
   * erase and no sector is erased on its own.
   */
  lemma BulkAllRows(records: seq<seq<string>>, files: map<string, seq<byte>>, chunkSize: nat, eraseFirst: bool)
    requires Rows(records) && chunkSize > 0
    requires forall j :: 0 <= j < |records| ==> RowValid(records[j], files)
    ensures var p := BulkPlan(records, files, chunkSize, eraseFirst); var sectors := SectorsFrom(records, 0, |records|);
      && p.end == Ok(())
      && Programmed(p.steps) == sectors
      && Erased(p.steps) == (if eraseFirst then [] else sectors)
      && (eraseFirst ==> p.steps[0].call == Call.EraseFlash)
  {
    BulkPlanParts(records, files, chunkSize, eraseFirst);
    BulkRowsEnd(records, files, chunkSize, eraseFirst, 0, |records|);
    BulkRowsPrefix(records, files, chunkSize, eraseFirst, 0, |records|);
  }

  /** The bulk plan ends as its rows do and erases and programs the sectors they do, after the optional flash erase. */
  lemma BulkPlanParts(records: seq<seq<string>>, files: map<string, seq<byte>>, chunkSize: nat, eraseFirst: bool)
    requires Rows(records) && chunkSize > 0
    ensures var p := BulkPlan(records, files, chunkSize, eraseFirst); var rows := BulkRows(records, files, chunkSize, eraseFirst, 0);
      && p.end == rows.end
      && Programmed(p.steps) == Programmed(rows.steps)
      && Erased(p.steps) == Erased(rows.steps)
      && (eraseFirst ==> p.steps[0].call == Call.EraseFlash)
  {
    var first: seq<Step<CommandError>> := if eraseFirst then [Step(Call.EraseFlash, EraseFlashFailed)] else [];
    var rows := BulkRows(records, files, chunkSize, eraseFirst, 0);
    assert Programmed(first) == [] && Erased(first) == [] by {
      if eraseFirst {
        assert first[1..] == [];
      }
    }
    ProgrammedAppend(first, rows.steps);
  }

  /**
   * The first row whose sector number does not parse stops the list with
   * that error, after the sectors of the rows before it were programmed.
   */
  lemma BulkBadRow(records: seq<seq<string>>, files: map<string, seq<byte>>, chunkSize: nat, eraseFirst: bool, k: nat)
    requires Rows(records) && chunkSize > 0 && k < |records|
    requires forall j :: 0 <= j < k ==> RowValid(records[j], files)
    requires ParseSector(records[k][0]).None?
    ensures var p := BulkPlan(records, files, chunkSize, eraseFirst);
      && p.end == Err(InvalidSector(records[k][0]))
      && Programmed(p.steps) == SectorsFrom(records, 0, k)
  {
    BulkPlanParts(records, files, chunkSize, eraseFirst);
    BulkRowsEnd(records, files, chunkSize, eraseFirst, 0, k);
    BulkRowsPrefix(records, files, chunkSize, eraseFirst, 0, k);
  }
}
