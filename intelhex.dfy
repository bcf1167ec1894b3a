/**
 * The Intel HEX loader (pkg/loader/intelhex.go): records `:LLAAAATT…CC`
 * read line by line; data records (type 00) are written at the current
 * base address plus their 16-bit offset, types 02 and 04 replace the base,
 * type 01 ends the load, types 03 and 05 are ignored.
 */
module IntelHex {
  import opened Wrappers
  import opened Bytes
  import opened Device
  import opened Loader

  /** The fields the record pattern captures, the checksum digits aside. */
  datatype Record = Record(byteCount: nat, address: u16, recordType: nat, dataHex: string)

  /**
   * The record pattern: a colon, then the longest run `R` of hex digits,
   * which must hold at least ten of them. Count, address and type are its
   * first eight digits, the checksum its last two, and the data is what
   * lies between; anything after the run is ignored.
   */
  function MatchRecord(line: string): (m: Option<Record>)
    ensures m.Some? ==> AllHex(m.value.dataHex) && m.value.byteCount < 256
  {
    if |line| == 0 || line[0] != ':' then None
    else
      var n := HexRunLength(line[1..]);
      if n < 10 then None
      else
        var run := line[1..][..n];
        AllHexSlice(run, 0, 2);
        AllHexSlice(run, 2, 6);
        AllHexSlice(run, 6, 8);
        AllHexSlice(run, 8, n - 2);
        Pow16Values();
        Some(Record(HexValue(run[0..2]), HexValue(run[2..6]), HexValue(run[6..8]), run[8..n - 2]))
  }

  /**
   * `strconv.ParseUint(s, 16, 32)` with its error ignored, as the source
   * does: an empty run is a syntax error and yields 0, a value that does
   * not fit in 32 bits is a range error and yields the largest one.
   */
  function ParseUint32(s: string): (v: u32)
    requires AllHex(s)
    ensures v <= HexValue(s)
    ensures v == HexValue(s) <==> HexValue(s) < TWO_32
    ensures v < HexValue(s) ==> v == TWO_32 - 1
  {
    if |s| == 0 then 0
    else if HexValue(s) >= TWO_32 then TWO_32 - 1
    else HexValue(s)
  }

  /** What one line does to the load. */
  datatype Effect =
    | Skip
    | Stop
    | SetBase(base: u32)
    | Emit(offset: u16, data: seq<byte>)
    | Fail(error: LoadError)

  /** The effect of line number `lineNum`: empty lines are skipped, others must match the pattern. */
  function LineEffect(line: string, lineNum: nat): Effect {
    if |line| == 0 then Skip
    else match MatchRecord(line)
      case None => Fail(InvalidFormat(lineNum))
      case Some(rec) => RecordEffect(rec, lineNum)
  }

  /** The record-type switch. */
  function RecordEffect(rec: Record, lineNum: nat): Effect
    requires AllHex(rec.dataHex)
  {
    if rec.recordType == 0x00 then
      match DecodeHex(rec.dataHex)
      case Err(e) => Fail(InvalidData(lineNum, e))
      case Ok(data) =>
        if |data| != rec.byteCount then Fail(ByteCountMismatch(lineNum, rec.byteCount, |data|))
        else Emit(rec.address, data)
    else if rec.recordType == 0x01 then Stop
    else if rec.recordType == 0x02 then SetBase(Wrap32(ParseUint32(rec.dataHex) as int * 16))
    else if rec.recordType == 0x04 then SetBase(Wrap32(ParseUint32(rec.dataHex) * TWO_16))
    else if rec.recordType == 0x03 || rec.recordType == 0x05 then Skip
    else Fail(UnsupportedRecord(rec.recordType, lineNum))
  }

  /**
   * A scan of the lines: the writes and the result, the base address in
   * force at each write, and the base address when the scan ended.
   */
  datatype HexScan = HexScan(plan: Plan<LoadError>, bases: seq<u32>, endBase: u32)

  /** The effect of every line, line `i` being line number `i + 1`. */
  function LineEffects(lines: seq<string>): (effects: seq<Effect>)
    ensures |effects| == |lines|
  {
    EffectsFrom(lines, 0)
  }

  function EffectsFrom(lines: seq<string>, i: nat): (effects: seq<Effect>)
    requires i <= |lines|
    ensures |effects| == |lines| - i
    decreases |lines| - i
  {
    if i == |lines| then [] else [LineEffect(lines[i], i + 1)] + EffectsFrom(lines, i + 1)
  }

  lemma {:induction false} EffectsFromAt(lines: seq<string>, i: nat, k: nat)
    requires i <= k < |lines|
    ensures EffectsFrom(lines, i)[k - i] == LineEffect(lines[k], k + 1)
    decreases k - i
  {
    if i < k {
      EffectsFromAt(lines, i + 1, k);
    }
  }

  /** The load of the lines whose effects are `effects[i..]`, with base address `base`. */
  function ScanEffects(effects: seq<Effect>, i: nat, base: u32): (s: HexScan)
    requires i <= |effects|
    ensures |s.bases| == |s.plan.steps|
    decreases |effects| - i
  {
    if i == |effects| then HexScan(Plan([], Ok(())), [], base)
    else match effects[i]
      case Skip => ScanEffects(effects, i + 1, base)
      case Stop => HexScan(Plan([], Ok(())), [], base)
      case Fail(e) => HexScan(Plan([], Err(e)), [], base)
      case SetBase(b) => ScanEffects(effects, i + 1, b)
      case Emit(offset, data) =>
        var rest := ScanEffects(effects, i + 1, base);
        HexScan(Plan([Step(WriteBlock(Wrap32(base + offset), data), HandlerFailed(i + 1))] + rest.plan.steps, rest.plan.end),
                [base] + rest.bases, rest.endBase)
  }

  /** What `Process` does with `lines`, starting from base address `base`. */
  function ScanHex(lines: seq<string>, base: u32): (s: HexScan)
    ensures |s.bases| == |s.plan.steps|
  {
    ScanEffects(LineEffects(lines), 0, base)
  }

  /** The base address a run of `s` leaves behind: the one in force at a refused write, or the final one. */
  ghost function BaseAfterRun(s: HexScan, attempts: seq<Attempt>): u32 {
    if 0 < |attempts| <= |s.bases| && !attempts[|attempts| - 1].ok then s.bases[|attempts| - 1] else s.endBase
  }

  class IntelHexLoader {
    const base: BaseLoader
    var baseAddress: u32

    constructor ()
      ensures fresh(base) && base.file == None && base.handler == null
      ensures baseAddress == 0
    {
      base := new BaseLoader();
      baseAddress := 0;
    }

    /** Opening keeps the lines and resets the base address; a file that cannot be opened changes nothing. */
    method Open(contents: Option<seq<string>>) returns (r: Result<(), LoadError>)
      modifies this, base
      ensures base.handler == old(base.handler)
      ensures contents.None? ==> r == Err(OpenFailed) && base.file == old(base.file) && baseAddress == old(baseAddress)
      ensures contents.Some? ==> r == Ok(()) && base.file == contents && baseAddress == 0
    {
      if contents.None? {
        return Err(OpenFailed);
      }
      base.file := contents;
      baseAddress := 0;
      return Ok(());
    }

    /**
     * Reads the lines in order, writing each data record through the
     * handler, until the end record, the end of the file, a malformed line
     * or a refused write.
     */
    method Process() returns (r: Result<(), LoadError>)
      modifies this, base.handler
      ensures base.file.None? ==> r == Err(FileNotOpen) && baseAddress == old(baseAddress)
      ensures base.file.Some? && base.handler == null ==> r == Err(HandlerNotSet) && baseAddress == old(baseAddress)
      ensures base.file.Some? && base.handler != null ==>
        var s := ScanHex(base.file.value, old(baseAddress));
        Ran(old(base.handler.log), base.handler.log, s.plan, r)
        && baseAddress == BaseAfterRun(s, base.handler.log[|old(base.handler.log)|..])
    {
      if base.file.None? {
        return Err(FileNotOpen);
      }
      if base.handler == null {
        return Err(HandlerNotSet);
      }
      ghost var effects := LineEffects(base.file.value);
      forall k | 0 <= k < |base.file.value|
        ensures LineEffect(base.file.value[k], k + 1) == effects[k]
      {
        EffectAt(base.file.value, k, base.file.value[k]);
      }
      r := ScanLines(base.handler, base.file.value, effects);
    }

    /**
     * The scanning loop of `Process`, over the lines of the open file and
     * through handler `h`; `effects` are what the lines mean.
     */
    method ScanLines(h: Port, lines: seq<string>, ghost effects: seq<Effect>) returns (r: Result<(), LoadError>)
      requires |effects| == |lines|
      requires forall k {:trigger LineEffect(lines[k], k + 1)} :: 0 <= k < |lines| ==> LineEffect(lines[k], k + 1) == effects[k]
      modifies this, h
      ensures var s := ScanEffects(effects, 0, old(baseAddress));
        Ran(old(h.log), h.log, s.plan, r) && baseAddress == BaseAfterRun(s, h.log[|old(h.log)|..])
    {
      ghost var log0 := h.log;
      ghost var whole := ScanEffects(effects, 0, baseAddress);
      ghost var done: seq<Step<LoadError>> := [];
      ghost var doneBases: seq<u32> := [];
      assert done + whole.plan.steps == whole.plan.steps && doneBases + whole.bases == whole.bases;
      var lineNum := 0;
      while lineNum < |lines|
        invariant 0 <= lineNum <= |lines|
        invariant h.log == log0 + Oks(done)
        invariant Splits(whole, done, doneBases, ScanEffects(effects, lineNum, baseAddress))
      {
        ghost var cur := ScanEffects(effects, lineNum, baseAddress);
        lineNum := lineNum + 1;
        var effect := ReadLine(lines, effects, lineNum - 1);
        match effect
        case Skip =>
          PassCase(effects, lineNum - 1, baseAddress);
        case Stop =>
          r := Ok(());
          Finished(log0, h.log, whole, done, doneBases, cur, r);
          return;
        case Fail(e) =>
          r := Err(e);
          Finished(log0, h.log, whole, done, doneBases, cur, r);
          return;
        case SetBase(b) =>
          PassCase(effects, lineNum - 1, baseAddress);
          baseAddress := b;
        case Emit(offset, data) =>
          ghost var step := Step(WriteBlock(Wrap32(baseAddress + offset), data), HandlerFailed(lineNum));
          EmitCase(effects, lineNum - 1, baseAddress, whole, done, doneBases);
          var ok := h.Perform(WriteBlock(Wrap32(baseAddress + offset), data));
          if !ok {
            r := Err(HandlerFailed(lineNum));
            Refused(log0, h.log, whole, done, doneBases, step, baseAddress, r);
            return;
          }
          OksAppend(done, [step]);
          done := done + [step];
          doneBases := doneBases + [baseAddress];
      }
      r := Ok(());
      Finished(log0, h.log, whole, done, doneBases, ScanEffects(effects, lineNum, baseAddress), r);
    }
  }

  /** Line `i` of the file, read by the loop body under line number `i + 1`: its effect. */
  method ReadLine(lines: seq<string>, ghost effects: seq<Effect>, i: nat) returns (effect: Effect)
    requires |effects| == |lines| && i < |lines|
    requires forall k {:trigger LineEffect(lines[k], k + 1)} :: 0 <= k < |lines| ==> LineEffect(lines[k], k + 1) == effects[k]
    ensures effect == effects[i]
  {
    effect := ParseLine(lines[i], i + 1);
  }

  /**
   * One line as the loop body reads it: the pattern, then the record-type
   * switch, with the data of a type-00 record decoded by `hexStringToBytes`.
   */
  method ParseLine(line: string, lineNum: nat) returns (effect: Effect)
    ensures effect == LineEffect(line, lineNum)
  {
    if |line| == 0 {
      return Skip;
    }
    var matches := MatchRecord(line);
    if matches.None? {
      return Fail(InvalidFormat(lineNum));
    }
    var rec := matches.value;
    if rec.recordType == 0x00 {
      var data := HexStringToBytes(rec.dataHex);
      if data.Err? {
        return Fail(InvalidData(lineNum, data.error));
      }
      if |data.value| != rec.byteCount {
        return Fail(ByteCountMismatch(lineNum, rec.byteCount, |data.value|));
      }
      return Emit(rec.address, data.value);
    } else if rec.recordType == 0x01 {
      return Stop;
    } else if rec.recordType == 0x02 {
      var segmentAddr := ParseUint32(rec.dataHex);
      return SetBase(Wrap32(segmentAddr as int * 16));
    } else if rec.recordType == 0x04 {
      var extAddr := ParseUint32(rec.dataHex);
      return SetBase(Wrap32(extAddr * TWO_16));
    } else if rec.recordType == 0x03 || rec.recordType == 0x05 {
      return Skip;
    } else {
      return Fail(UnsupportedRecord(rec.recordType, lineNum));
    }
  }

  /** `whole` is the accepted `done`, at the bases `doneBases`, followed by `cur`. */
  ghost predicate Splits(whole: HexScan, done: seq<Step<LoadError>>, doneBases: seq<u32>, cur: HexScan) {
    |done| == |doneBases|
    && whole.plan.steps == done + cur.plan.steps && whole.plan.end == cur.plan.end
    && whole.bases == doneBases + cur.bases && whole.endBase == cur.endBase
  }

  /** A line that writes nothing and does not stop leaves the rest of the scan, at the base it sets if it sets one. */
  lemma PassCase(effects: seq<Effect>, i: nat, base: u32)
    requires i < |effects| && (effects[i].Skip? || effects[i].SetBase?)
    ensures ScanEffects(effects, i, base) == ScanEffects(effects, i + 1, if effects[i].SetBase? then effects[i].base else base)
  {
  }

  /** A data record at line `i + 1` is the next write, and the scan goes on after it at the same base. */
  lemma EmitCase(effects: seq<Effect>, i: nat, base: u32, whole: HexScan, done: seq<Step<LoadError>>, doneBases: seq<u32>)
    requires i < |effects| && effects[i].Emit?
    requires Splits(whole, done, doneBases, ScanEffects(effects, i, base))
    ensures var step := Step(WriteBlock(Wrap32(base + effects[i].offset), effects[i].data), HandlerFailed(i + 1));
      Splits(whole, done + [step], doneBases + [base], ScanEffects(effects, i + 1, base))
      && |whole.plan.steps| > |done| && whole.plan.steps[..|done| + 1] == done + [step]
      && whole.bases[..|done| + 1] == doneBases + [base]
  {
    var step := Step(WriteBlock(Wrap32(base + effects[i].offset), effects[i].data), HandlerFailed(i + 1));
    var rest := ScanEffects(effects, i + 1, base);
    assert done + ([step] + rest.plan.steps) == (done + [step]) + rest.plan.steps;
    assert doneBases + ([base] + rest.bases) == (doneBases + [base]) + rest.bases;
  }

  /** A write refused after the accepted `done`: the run stops there, with the base in force at that write. */
  lemma Refused(log0: seq<Attempt>, log1: seq<Attempt>, whole: HexScan, done: seq<Step<LoadError>>, doneBases: seq<u32>,
                step: Step<LoadError>, base: u32, r: Result<(), LoadError>)
    requires |done| == |doneBases| && |whole.plan.steps| > |done| && |whole.bases| == |whole.plan.steps|
    requires whole.plan.steps[..|done| + 1] == done + [step] && whole.bases[..|done| + 1] == doneBases + [base]
    requires r == Err(step.onFail) && log1 == log0 + Oks(done) + [Attempt(step.call, false)]
    ensures Ran(log0, log1, whole.plan, r) && BaseAfterRun(whole, log1[|log0|..]) == base
  {
    assert whole.plan.steps[..|done|] == whole.plan.steps[..|done| + 1][..|done|];
    assert whole.plan.steps[|done|] == whole.plan.steps[..|done| + 1][|done|];
    assert whole.bases[|done|] == whole.bases[..|done| + 1][|done|];
    RanStopped(log0, log1, whole.plan, |done|, r);
    assert log1[|log0|..] == Oks(done) + [Attempt(step.call, false)];
  }

  /** A scan that ended without a refused write: every write was accepted and the result is the scan's. */
  lemma Finished(log0: seq<Attempt>, log1: seq<Attempt>, whole: HexScan, done: seq<Step<LoadError>>, doneBases: seq<u32>,
                 cur: HexScan, r: Result<(), LoadError>)
    requires Splits(whole, done, doneBases, cur) && cur.plan.steps == [] && cur.plan.end == r
    requires log1 == log0 + Oks(done)
    ensures Ran(log0, log1, whole.plan, r) && BaseAfterRun(whole, log1[|log0|..]) == whole.endBase
  {
    assert done + [] == done;
    RanCompleted(log0, log1, whole.plan, r);
    assert log1[|log0|..] == Oks(done);
  }

  // ---------------------------------------------------------------------
  // Properties of the Intel HEX loader

  /** `bytes` written as a record line: a colon and two upper-case digits per byte. */
  function RecordLine(bytes: seq<byte>): string {
    ":" + EncodeHex(bytes)
  }

  /** The record checksum of the format: the two's complement of the byte sum, modulo 256. */
  function Checksum(fields: seq<byte>): byte {
    (TWO_8 - Sum(fields) % TWO_8) % TWO_8
  }

  /** The fields of a data record: count, offset (high byte first), type 00, data. */
  function DataFields(offset: u16, data: seq<byte>): seq<byte>
    requires |data| < 256
  {
    [|data|, offset / TWO_8, offset % TWO_8, 0x00] + data
  }

  /** A record line read back: its first byte is the count, the next two the offset and the fourth the type. */
  lemma RecordLineMatches(bytes: seq<byte>)
    requires |bytes| >= 5
    ensures MatchRecord(RecordLine(bytes)) ==
      Some(Record(bytes[0], bytes[1] * TWO_8 + bytes[2], bytes[3], EncodeHex(bytes[4..|bytes| - 1])))
  {
    var e := EncodeHex(bytes);
    var line := RecordLine(bytes);
    EncodeHexDigits(bytes);
    assert line[1..] == e;
    HexRunAll(e);
    assert e[..|e|] == e;
    EncodeHexSlice(bytes, 0, 1);
    EncodeHexSlice(bytes, 1, 3);
    EncodeHexSlice(bytes, 3, 4);
    EncodeHexSlice(bytes, 4, |bytes| - 1);
    HexValueOfEncodeHex(bytes[0..1]);
    HexValueOfEncodeHex(bytes[1..3]);
    HexValueOfEncodeHex(bytes[3..4]);
    var hl := bytes[1..3];
    assert hl[..1] == [bytes[1]] && hl[..1][..0] == [];
    assert bytes[0..1][..0] == [] && bytes[3..4][..0] == [];
  }

  /** A data record, whatever its checksum, writes its data at its offset. */
  lemma DataRecordRoundTrip(offset: u16, data: seq<byte>, checksum: byte, lineNum: nat)
    requires |data| < 256
    ensures LineEffect(RecordLine(DataFields(offset, data) + [checksum]), lineNum) == Emit(offset, data)
  {
    var bytes := DataFields(offset, data) + [checksum];
    RecordLineMatches(bytes);
    assert bytes[4..|bytes| - 1] == data;
    DecodeEncodeHex(data);
  }

  /** A data record whose count field is not its number of data bytes is an error and writes nothing. */
  lemma ByteCountMismatchRecord(count: byte, offset: u16, data: seq<byte>, checksum: byte, lineNum: nat)
    requires |data| < 256 && count != |data|
    ensures LineEffect(RecordLine([count, offset / TWO_8, offset % TWO_8, 0x00] + data + [checksum]), lineNum)
      == Fail(ByteCountMismatch(lineNum, count, |data|))
  {
    var bytes := [count, offset / TWO_8, offset % TWO_8, 0x00] + data + [checksum];
    RecordLineMatches(bytes);
    assert bytes[4..|bytes| - 1] == data;
    DecodeEncodeHex(data);
    ViaRecord(RecordLine(bytes), lineNum, Record(count, offset, 0, EncodeHex(data)));
  }

  /** A block of at most 255 bytes at a 16-bit offset. */
  datatype Block = Block(offset: u16, data: seq<byte>)

  predicate Fits(blocks: seq<Block>) {
    forall k :: 0 <= k < |blocks| ==> |blocks[k].data| < 256
  }

  /** A data record for `b`, with the checksum the format prescribes. */
  function DataRecordLine(b: Block): string
    requires |b.data| < 256
  {
    var fields := DataFields(b.offset, b.data);
    RecordLine(fields + [Checksum(fields)])
  }

  /** `:00000001FF`, the end-of-file record. */
  function EndOfFileLine(): string {
    RecordLine([0x00, 0x00, 0x00, 0x01, 0xFF])
  }

  function DataLines(blocks: seq<Block>): (lines: seq<string>)
    requires Fits(blocks)
    ensures |lines| == |blocks|
  {
    seq(|blocks|, k requires 0 <= k < |blocks| => DataRecordLine(blocks[k]))
  }

  /** The writes of `blocks` at `base`, the first on line `lineNum`. */
  function BlockWrites(blocks: seq<Block>, base: u32, lineNum: nat): seq<Step<LoadError>> {
    if |blocks| == 0 then []
    else
      [Step(WriteBlock(Wrap32(base + blocks[0].offset), blocks[0].data), HandlerFailed(lineNum))]
      + BlockWrites(blocks[1..], base, lineNum + 1)
  }

  lemma EndOfFileStops(lineNum: nat)
    ensures LineEffect(EndOfFileLine(), lineNum) == Stop
  {
    var bytes: seq<byte> := [0x00, 0x00, 0x00, 0x01, 0xFF];
    RecordLineMatches(bytes);
    ViaRecord(EndOfFileLine(), lineNum, Record(0, 0, 1, EncodeHex(bytes[4..4])));
  }

  lemma {:induction false} ScanEmits(effects: seq<Effect>, i: nat, blocks: seq<Block>, base: u32)
    requires i + |blocks| < |effects| && effects[i + |blocks|].Stop?
    requires forall k :: 0 <= k < |blocks| ==> effects[i + k] == Emit(blocks[k].offset, blocks[k].data)
    ensures ScanEffects(effects, i, base).plan == Plan(BlockWrites(blocks, base, i + 1), Ok(()))
    decreases |blocks|
  {
    if |blocks| > 0 {
      assert effects[i + 0] == Emit(blocks[0].offset, blocks[0].data);
      forall k | 0 <= k < |blocks[1..]|
        ensures effects[i + 1 + k] == Emit(blocks[1..][k].offset, blocks[1..][k].data)
      {
        assert effects[i + (k + 1)] == Emit(blocks[k + 1].offset, blocks[k + 1].data);
      }
      ScanEmits(effects, i + 1, blocks[1..], base);
    }
  }

  lemma DataLineEffect(b: Block, lineNum: nat)
    requires |b.data| < 256
    ensures LineEffect(DataRecordLine(b), lineNum) == Emit(b.offset, b.data)
  {
    var fields := DataFields(b.offset, b.data);
    DataRecordRoundTrip(b.offset, b.data, Checksum(fields), lineNum);
  }

  lemma EmitAt(lines: seq<string>, k: nat, b: Block)
    requires k < |lines| && |b.data| < 256 && lines[k] == DataRecordLine(b)
    ensures LineEffects(lines)[k] == Emit(b.offset, b.data)
  {
    EffectAt(lines, k, DataRecordLine(b));
    DataLineEffect(b, k + 1);
  }

  lemma StopAt(lines: seq<string>, k: nat)
    requires k < |lines| && lines[k] == EndOfFileLine()
    ensures LineEffects(lines)[k] == Stop
  {
    EffectAt(lines, k, EndOfFileLine());
    EndOfFileStops(k + 1);
  }

  lemma EffectAt(lines: seq<string>, k: nat, line: string)
    requires k < |lines| && lines[k] == line
    ensures LineEffects(lines)[k] == LineEffect(line, k + 1)
  {
    EffectsFromAt(lines, 0, k);
  }

  /**
   * A file of data records followed by an end record loads as the writes
   * of its blocks, in order, each at the base plus its offset; whatever
   * follows the end record is ignored.
   */
  lemma HexFileRoundTrip(blocks: seq<Block>, rest: seq<string>, base: u32)
    requires Fits(blocks)
    ensures ScanHex(DataLines(blocks) + [EndOfFileLine()] + rest, base).plan == Plan(BlockWrites(blocks, base, 1), Ok(()))
  {
    var lines := DataLines(blocks) + [EndOfFileLine()] + rest;
    forall k | 0 <= k < |blocks|
      ensures lines[k] == DataRecordLine(blocks[k])
    {
    }
    assert lines[|blocks|] == EndOfFileLine();
    LoadsBlocks(lines, blocks, base);
  }

  lemma LoadsBlocks(lines: seq<string>, blocks: seq<Block>, base: u32)
    requires Fits(blocks) && |blocks| < |lines| && lines[|blocks|] == EndOfFileLine()
    requires forall k :: 0 <= k < |blocks| ==> lines[k] == DataRecordLine(blocks[k])
    ensures ScanHex(lines, base).plan == Plan(BlockWrites(blocks, base, 1), Ok(()))
  {
    var effects := LineEffects(lines);
    forall k | 0 <= k < |blocks|
      ensures effects[0 + k] == Emit(blocks[k].offset, blocks[k].data)
    {
      EmitAt(lines, k, blocks[k]);
    }
    StopAt(lines, |blocks|);
    ScanEmits(effects, 0, blocks, base);
  }

  /** The fields of a record whose digits before the checksum are `body`. */
  function BodyRecord(body: string): Record
    requires |body| >= 8 && AllHex(body)
  {
    AllHexSlice(body, 0, 2);
    AllHexSlice(body, 2, 6);
    AllHexSlice(body, 6, 8);
    AllHexSlice(body, 8, |body|);
    Pow16Values();
    Record(HexValue(body[0..2]), HexValue(body[2..6]), HexValue(body[6..8]), body[8..])
  }

  lemma BodyMatches(body: string, c: string)
    requires |body| >= 8 && AllHex(body) && |c| == 2 && AllHex(c)
    ensures MatchRecord(":" + body + c) == Some(BodyRecord(body))
  {
    var line := ":" + body + c;
    var run := body + c;
    AllHexConcat(body, c);
    assert line[1..] == run;
    HexRunAll(run);
    var n := |run|;
    assert run[..n] == run;
    assert run[0..2] == body[0..2] && run[2..6] == body[2..6] && run[6..8] == body[6..8];
    assert run[8..n - 2] == body[8..];
  }

  /** The checksum digits are never verified: only the digits before them matter. */
  lemma ChecksumIgnored(body: string, c1: string, c2: string, lineNum: nat)
    requires |body| >= 8 && AllHex(body)
    requires |c1| == 2 && |c2| == 2 && AllHex(c1) && AllHex(c2)
    ensures MatchRecord(":" + body + c1) == MatchRecord(":" + body + c2)
    ensures LineEffect(":" + body + c1, lineNum) == LineEffect(":" + body + c2, lineNum)
  {
    BodyMatches(body, c1);
    BodyMatches(body, c2);
  }

  /**
   * Lines after an end record, or after a line that fails, are never
   * examined: two files whose effects agree up to that line load alike.
   */
  lemma {:induction false} StopsAtLine(e1: seq<Effect>, e2: seq<Effect>, i: nat, j: nat, base: u32)
    requires i <= j < |e1| && j < |e2| && e1[..j + 1] == e2[..j + 1]
    requires e1[j].Stop? || e1[j].Fail?
    ensures ScanEffects(e1, i, base) == ScanEffects(e2, i, base)
    decreases j - i
  {
    assert e1[i] == e1[..j + 1][i] == e2[..j + 1][i] == e2[i];
    if i < j && !e1[i].Stop? && !e1[i].Fail? {
      StopsAtLine(e1, e2, i + 1, j, if e1[i].SetBase? then e1[i].base else base);
    }
  }

  /** An end record ends the load, whatever follows it. */
  lemma EndRecordEndsLoad(lines: seq<string>, rest: seq<string>, base: u32)
    requires |lines| > 0 && LineEffect(lines[|lines| - 1], |lines|).Stop?
    ensures ScanHex(lines + rest, base) == ScanHex(lines, base)
  {
    var j := |lines| - 1;
    var e1, e2 := LineEffects(lines), LineEffects(lines + rest);
    assert e1[..j + 1] == e2[..j + 1] by {
      forall k | 0 <= k <= j
        ensures e1[k] == e2[k]
      {
        EffectAt(lines, k, lines[k]);
        EffectAt(lines + rest, k, lines[k]);
      }
    }
    EffectAt(lines, j, lines[j]);
    StopsAtLine(e1, e2, 0, j, base);
  }

  /** A load that reaches an end record with no failing line before it succeeds. */
  lemma {:induction false} EndsAt(effects: seq<Effect>, i: nat, j: nat, base: u32)
    requires i <= j < |effects| && effects[j].Stop?
    requires forall k :: i <= k < j ==> !effects[k].Fail?
    ensures ScanEffects(effects, i, base).plan.end == Ok(())
    decreases j - i
  {
    if i < j && !effects[i].Stop? {
      EndsAt(effects, i + 1, j, if effects[i].SetBase? then effects[i].base else base);
    }
  }

  /** The value of a 16-bit offset written as four digits. */
  lemma FourDigits(v: u16)
    ensures var e := EncodeHex([v / TWO_8, v % TWO_8]);
      AllHex(e) && |e| == 4 && ParseUint32(e) == v
  {
    var d := [v / TWO_8, v % TWO_8];
    ParseUint32RoundTrip(d);
    assert d[..1] == [v / TWO_8] && d[..1][..0] == [];
    assert BE(d) == v;
  }

  /** Up to four bytes written as hex digits parse back as their big-endian value: nothing is clamped. */
  lemma ParseUint32RoundTrip(bs: seq<byte>)
    requires |bs| <= 4
    ensures AllHex(EncodeHex(bs)) && ParseUint32(EncodeHex(bs)) == BE(bs)
  {
    HexValueOfEncodeHex(bs);
    Pow16Monotonic(2 * |bs|, 8);
    Pow16Values();
  }

  /** A line that matches the pattern has the effect of its record. */
  lemma ViaRecord(line: string, lineNum: nat, rec: Record)
    requires MatchRecord(line) == Some(rec)
    ensures AllHex(rec.dataHex) && LineEffect(line, lineNum) == RecordEffect(rec, lineNum)
  {
  }

  /** An extended linear address record (type 04) carrying `v` makes `v << 16` the base, whatever its checksum. */
  lemma ExtendedLinearRecord(v: u16, checksum: byte, lineNum: nat)
    ensures LineEffect(RecordLine([0x02, 0x00, 0x00, 0x04, v / TWO_8, v % TWO_8, checksum]), lineNum) == SetBase(v * TWO_16)
  {
    var bytes: seq<byte> := [0x02, 0x00, 0x00, 0x04, v / TWO_8, v % TWO_8, checksum];
    var rec := ExtendedRecordEffect(v, 0x04, checksum, lineNum);
    SmallBases(v);
    calc {
      LineEffect(RecordLine(bytes), lineNum);
      RecordEffect(rec, lineNum);
      SetBase(Wrap32(v * TWO_16));
    }
  }

  /** An extended segment address record (type 02) carrying `v` makes `v << 4` the base, whatever its checksum. */
  lemma ExtendedSegmentRecord(v: u16, checksum: byte, lineNum: nat)
    ensures LineEffect(RecordLine([0x02, 0x00, 0x00, 0x02, v / TWO_8, v % TWO_8, checksum]), lineNum) == SetBase(v * 16)
  {
    var bytes: seq<byte> := [0x02, 0x00, 0x00, 0x02, v / TWO_8, v % TWO_8, checksum];
    var rec := ExtendedRecordEffect(v, 0x02, checksum, lineNum);
    SmallBases(v);
    calc {
      LineEffect(RecordLine(bytes), lineNum);
      RecordEffect(rec, lineNum);
      SetBase(Wrap32(v * 16));
    }
  }

  /** Neither shift of a 16-bit value wraps around 32 bits. */
  lemma SmallBases(v: u16)
    ensures Wrap32(v * 16) == v * 16 && Wrap32(v * TWO_16) == v * TWO_16
  {
    assert v * TWO_16 <= 0xFFFF * TWO_16 < TWO_32;
  }

  /** A two-byte address record of type `t` has the effect of its record, whose data digits read back as `v`. */
  lemma ExtendedRecordEffect(v: u16, t: byte, checksum: byte, lineNum: nat) returns (rec: Record)
    ensures rec == Record(2, 0, t, EncodeHex([v / TWO_8, v % TWO_8])) && AllHex(rec.dataHex) && ParseUint32(rec.dataHex) == v
    ensures LineEffect(RecordLine([0x02, 0x00, 0x00, t, v / TWO_8, v % TWO_8, checksum]), lineNum) == RecordEffect(rec, lineNum)
  {
    rec := Record(2, 0, t, EncodeHex([v / TWO_8, v % TWO_8]));
    FourDigits(v);
    ExtendedRecordMatches(v, t, checksum);
    ViaRecord(RecordLine([0x02, 0x00, 0x00, t, v / TWO_8, v % TWO_8, checksum]), lineNum, rec);
  }

  lemma ExtendedRecordMatches(v: u16, t: byte, checksum: byte)
    ensures MatchRecord(RecordLine([0x02, 0x00, 0x00, t, v / TWO_8, v % TWO_8, checksum])) ==
      Some(Record(2, 0, t, EncodeHex([v / TWO_8, v % TWO_8])))
  {
    var bytes := [0x02, 0x00, 0x00, t, v / TWO_8, v % TWO_8, checksum];
    RecordLineMatches(bytes);
    assert bytes[4..|bytes| - 1] == [v / TWO_8, v % TWO_8];
  }

  /** `:02000004ABCD11` makes 0xABCD0000 the base of the records that follow. */
  lemma ExtendedLinearExample(lineNum: nat)
    ensures LineEffect(RecordLine([0x02, 0x00, 0x00, 0x04, 0xAB, 0xCD, 0x11]), lineNum) == SetBase(0xABCD_0000)
  {
    ExtendedLinearRecord(0xABCD, 0x11, lineNum);
  }
}
