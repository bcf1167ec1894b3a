/**
 * The Motorola S-record loader (pkg/loader/srec.go): records
 * `S<type><digits>` read line by line; S1, S2 and S3 records write their
 * data at a 16-, 24- or 32-bit address, S0 and S4 to S9 are ignored, and
 * the load ends at the end of the file.
 */
module SRec {
  import opened Wrappers
  import opened Bytes
  import opened Device
  import opened Loader

  /** The record type digit and the run of hex digits after it. */
  datatype Record = Record(recordType: nat, hexDigits: string)

  /**
   * The record pattern: `S`, one hex digit (the type), then the longest run
   * of hex digits, which must not be empty; anything after the run is
   * ignored.
   */
  function MatchRecord(line: string): (m: Option<Record>)
    ensures m.Some? ==> m.value.recordType < 16 && AllHex(m.value.hexDigits) && |m.value.hexDigits| > 0
  {
    if |line| < 2 || line[0] != 'S' || !IsHexDigit(line[1]) then None
    else
      var n := HexRunLength(line[2..]);
      if n == 0 then None else Some(Record(DigitValue(line[1]), line[2..][..n]))
  }

  /** What one line does to the load. */
  datatype Effect =
    | Skip
    | Emit(address: u32, data: seq<byte>)
    | Fail(error: LoadError)

  /** The effect of line number `lineNum`: empty lines are skipped, others must match the pattern. */
  function LineEffect(line: string, lineNum: nat): Effect {
    if |line| == 0 then Skip
    else match MatchRecord(line)
      case None => Fail(InvalidFormat(lineNum))
      case Some(rec) => RecordEffect(rec, lineNum)
  }

  /** The record-type switch: S1, S2 and S3 carry 2, 3 and 4 address bytes. */
  function RecordEffect(rec: Record, lineNum: nat): Effect
    requires AllHex(rec.hexDigits)
  {
    if rec.recordType == 0 then Skip
    else if 1 <= rec.recordType <= 3 then DataRecordEffect(rec.hexDigits, rec.recordType + 1, lineNum)
    else if 4 <= rec.recordType <= 9 then Skip
    else Fail(UnsupportedRecord(rec.recordType, lineNum))
  }

  /**
   * A data record's digits: the count (never checked), `addressBytes`
   * address bytes, the data, and the checksum (never checked) in the last
   * two digits.
   */
  function DataRecordEffect(hexDigits: string, addressBytes: nat, lineNum: nat): Effect
    requires AllHex(hexDigits) && 2 <= addressBytes <= 4
  {
    var dataStart := 2 + addressBytes * 2;
    if |hexDigits| < dataStart + 2 then Fail(RecordTooShort(lineNum))
    else
      match DecodeHex(hexDigits[dataStart..|hexDigits| - 2])
      case Err(e) => Fail(InvalidData(lineNum, e))
      case Ok(data) => Emit(AddressField(hexDigits, addressBytes), data)
  }

  /** The address digits after the count, read as one number; at most eight digits always fit in 32 bits. */
  function AddressField(hexDigits: string, addressBytes: nat): (address: u32)
    requires AllHex(hexDigits) && 2 <= addressBytes <= 4 && 2 + 2 * addressBytes <= |hexDigits|
    ensures address < Pow16(2 * addressBytes)
  {
    AllHexSlice(hexDigits, 2, 2 + 2 * addressBytes);
    Pow16Monotonic(2 * addressBytes, 8);
    Pow16Values();
    HexValue(hexDigits[2..2 + 2 * addressBytes])
  }

  /** The calls one line's effect makes: a data record's one write, reporting the line when refused. */
  function EffectPlan(effect: Effect, lineNum: nat): Plan<LoadError> {
    match effect
    case Skip => Plan([], Ok(()))
    case Emit(address, data) => Plan([Step(WriteBlock(address, data), HandlerFailed(lineNum))], Ok(()))
    case Fail(e) => Plan([], Err(e))
  }

  /** The effect of every line, line `i` being line number `i + 1`. */
  function LineEffects(lines: seq<string>): (effects: seq<Effect>)
    ensures |effects| == |lines|
  {
    EffectsFrom(lines, 0)
  }

  function EffectsFrom(lines: seq<string>, i: nat): (effects: seq<Effect>)
    requires i <= |lines|
    ensures |effects| == |lines| - i
    decreases |lines| - i
  {
    if i == |lines| then [] else [LineEffect(lines[i], i + 1)] + EffectsFrom(lines, i + 1)
  }

  lemma {:induction false} EffectsFromAt(lines: seq<string>, i: nat, k: nat)
    requires i <= k < |lines|
    ensures EffectsFrom(lines, i)[k - i] == LineEffect(lines[k], k + 1)
    decreases k - i
  {
    if i < k {
      EffectsFromAt(lines, i + 1, k);
    }
  }

  lemma EffectAt(lines: seq<string>, k: nat, line: string)
    requires k < |lines| && lines[k] == line
    ensures LineEffects(lines)[k] == LineEffect(line, k + 1)
  {
    EffectsFromAt(lines, 0, k);
  }

  /** The lines whose effects are `effects[i..]`, one after the other, until one fails. */
  function ScanEffects(effects: seq<Effect>, i: nat): Plan<LoadError>
    requires i <= |effects|
    decreases |effects| - i
  {
    if i == |effects| then Plan([], Ok(()))
    else AndThen(EffectPlan(effects[i], i + 1), ScanEffects(effects, i + 1))
  }

  /** What `Process` does with `lines`. */
  function ScanSRec(lines: seq<string>): Plan<LoadError> {
    ScanEffects(LineEffects(lines), 0)
  }

  class SRecLoader {
    const base: BaseLoader

    constructor ()
      ensures fresh(base) && base.file == None && base.handler == null
    {
      base := new BaseLoader();
    }

    /** Opening keeps the lines; a file that cannot be opened changes nothing. */
    method Open(contents: Option<seq<string>>) returns (r: Result<(), LoadError>)
      modifies base
      ensures base.handler == old(base.handler)
      ensures contents.None? ==> r == Err(OpenFailed) && base.file == old(base.file)
      ensures contents.Some? ==> r == Ok(()) && base.file == contents
    {
      if contents.None? {
        return Err(OpenFailed);
      }
      base.file := contents;
      return Ok(());
    }

    /**
     * Reads the lines in order, writing each data record through the
     * handler, until the end of the file, a malformed line or a refused
     * write.
     */
    method Process() returns (r: Result<(), LoadError>)
      modifies base.handler
      ensures base.file.None? ==> r == Err(FileNotOpen)
      ensures base.file.Some? && base.handler == null ==> r == Err(HandlerNotSet)
      ensures base.file.Some? && base.handler != null ==>
        Ran(old(base.handler.log), base.handler.log, ScanSRec(base.file.value), r)
    {
      if base.file.None? {
        return Err(FileNotOpen);
      }
      if base.handler == null {
        return Err(HandlerNotSet);
      }
      ghost var effects := LineEffects(base.file.value);
      forall k | 0 <= k < |base.file.value|
        ensures LineEffect(base.file.value[k], k + 1) == effects[k]
      {
        EffectAt(base.file.value, k, base.file.value[k]);
      }
      r := ScanLines(base.handler, base.file.value, effects);
    }
  }

  /** The scanning loop of `Process`, through handler `h`; `effects` are what the lines mean. */
  method ScanLines(h: Port, lines: seq<string>, ghost effects: seq<Effect>) returns (r: Result<(), LoadError>)
    requires |effects| == |lines|
    requires forall k {:trigger LineEffect(lines[k], k + 1)} :: 0 <= k < |lines| ==> LineEffect(lines[k], k + 1) == effects[k]
    modifies h
    ensures Ran(old(h.log), h.log, ScanEffects(effects, 0), r)
  {
    ghost var log0 := h.log;
    ghost var done: seq<Step<LoadError>> := [];
    assert Then(done, ScanEffects(effects, 0)) == ScanEffects(effects, 0);
    var lineNum := 0;
    while lineNum < |lines|
      invariant 0 <= lineNum <= |lines|
      invariant h.log == log0 + Oks(done)
      invariant ScanEffects(effects, 0) == Then(done, ScanEffects(effects, lineNum))
    {
      ghost var log1 := h.log;
      lineNum := lineNum + 1;
      var line := lines[lineNum - 1];
      var res := ProcessLine(h, line, lineNum);
      assert LineEffect(line, lineNum) == effects[lineNum - 1];
      Advance(log0, log1, h.log, done, effects, lineNum - 1, res);
      if res.Err? {
        return res;
      }
      done := done + EffectPlan(effects[lineNum - 1], lineNum).steps;
    }
    r := Ok(());
    assert done + [] == done;
    RanCompleted(log0, h.log, ScanEffects(effects, 0), r);
  }

  /** The body of the scanning loop: one line, matched, then switched on its record type. */
  method ProcessLine(h: Port, line: string, lineNum: nat) returns (res: Result<(), LoadError>)
    modifies h
    ensures Ran(old(h.log), h.log, EffectPlan(LineEffect(line, lineNum), lineNum), res)
  {
    res := Ok(());
    if |line| > 0 {
      var matches := MatchRecord(line);
      if matches.None? {
        res := Err(InvalidFormat(lineNum));
      } else {
        var recordType := matches.value.recordType;
        var hexDigits := matches.value.hexDigits;
        if 1 <= recordType <= 3 {
          res := ParseDataRecord(h, hexDigits, recordType + 1, lineNum);
          return;
        } else if recordType > 9 {
          res := Err(UnsupportedRecord(recordType, lineNum));
        }
      }
    }
    RanNothing(h.log, res);
  }

  /**
   * `parseDataRecord`: the length check, the address, the data digits
   * decoded by `hexStringToBytes`, then the one handler call.
   */
  method ParseDataRecord(h: Port, hexDigits: string, addressBytes: nat, lineNum: nat) returns (r: Result<(), LoadError>)
    requires AllHex(hexDigits) && 2 <= addressBytes <= 4
    modifies h
    ensures Ran(old(h.log), h.log, EffectPlan(DataRecordEffect(hexDigits, addressBytes, lineNum), lineNum), r)
  {
    if |hexDigits| < 2 + addressBytes * 2 + 2 {
      r := Err(RecordTooShort(lineNum));
      RanNothing(h.log, r);
      return;
    }
    var address := AddressField(hexDigits, addressBytes);
    var dataStart := 2 + addressBytes * 2;
    var dataEnd := |hexDigits| - 2;
    var data := HexStringToBytes(hexDigits[dataStart..dataEnd]);
    if data.Err? {
      r := Err(InvalidData(lineNum, data.error));
      RanNothing(h.log, r);
      return;
    }
    var plan := EffectPlan(DataRecordEffect(hexDigits, addressBytes, lineNum), lineNum);
    var ok := h.Perform(WriteBlock(address, data.value));
    if !ok {
      r := Err(HandlerFailed(lineNum));
      RanStopped(old(h.log), h.log, plan, 0, r);
      return;
    }
    r := Ok(());
    RanCompleted(old(h.log), h.log, plan, r);
  }

  /**
   * One line of the loop: a run of its effect after the accepted `done`
   * either ends the whole load with its error, or extends `done` by the
   * line's calls.
   */
  lemma Advance(log0: seq<Attempt>, log1: seq<Attempt>, log2: seq<Attempt>, done: seq<Step<LoadError>>,
                effects: seq<Effect>, i: nat, r: Result<(), LoadError>)
    requires i < |effects| && log1 == log0 + Oks(done)
    requires ScanEffects(effects, 0) == Then(done, ScanEffects(effects, i))
    requires Ran(log1, log2, EffectPlan(effects[i], i + 1), r)
    ensures r.Err? ==> Ran(log0, log2, ScanEffects(effects, 0), r)
    ensures r.Ok? ==>
      var steps := EffectPlan(effects[i], i + 1).steps;
      log2 == log0 + Oks(done + steps) && ScanEffects(effects, 0) == Then(done + steps, ScanEffects(effects, i + 1))
  {
    var first, rest := EffectPlan(effects[i], i + 1), ScanEffects(effects, i + 1);
    if r.Err? {
      RanAndThen(log1, log2, log2, first, rest, r, r);
      RanAfter(log0, log1, log2, done, AndThen(first, rest), r);
    } else {
      ExecutedOk(first, log2[|log1|..], r);
      assert log2 == log1 + log2[|log1|..];
      OksAppend(done, first.steps);
      assert done + (first.steps + rest.steps) == (done + first.steps) + rest.steps;
    }
  }

  // ---------------------------------------------------------------------
  // Properties of the S-record loader

  /** A line matches the pattern exactly when it starts with `S` and two hex digits. */
  lemma MatchRecordShape(line: string)
    ensures MatchRecord(line).Some? <==> |line| >= 3 && line[0] == 'S' && IsHexDigit(line[1]) && IsHexDigit(line[2])
  {
    if |line| >= 3 && line[0] == 'S' && IsHexDigit(line[1]) {
      assert line[2..][0] == line[2];
    }
  }

  /** A non-empty line that does not match the pattern is an error for that line. */
  lemma MalformedLine(line: string, lineNum: nat)
    requires |line| > 0 && !(|line| >= 3 && line[0] == 'S' && IsHexDigit(line[1]) && IsHexDigit(line[2]))
    ensures LineEffect(line, lineNum) == Fail(InvalidFormat(lineNum))
  {
    MatchRecordShape(line);
  }

  /** A record of type `t` whose digits are `hex`. */
  function RecordText(t: nat, hex: string): string
    requires t < 16
  {
    "S" + [UpperDigit(t)] + hex
  }

  lemma RecordTextMatches(t: nat, hex: string)
    requires t < 16 && AllHex(hex) && |hex| > 0
    ensures MatchRecord(RecordText(t, hex)) == Some(Record(t, hex))
  {
    var line := RecordText(t, hex);
    assert line[2..] == hex;
    HexRunAll(hex);
    assert hex[..|hex|] == hex;
  }

  /** The effect of a data record is that of its digits: the data between address and checksum, at the address. */
  lemma DataRecordDigits(t: nat, count: string, address: string, dataHex: string, checksum: string, lineNum: nat)
    requires 1 <= t <= 3 && |count| == 2 && |address| == 2 * (t + 1) && |checksum| == 2
    requires AllHex(count) && AllHex(address) && AllHex(dataHex) && AllHex(checksum)
    ensures HexValue(address) < TWO_32
    ensures LineEffect(RecordText(t, count + address + dataHex + checksum), lineNum) ==
      match DecodeHex(dataHex)
      case Err(e) => Fail(InvalidData(lineNum, e))
      case Ok(data) => Emit(HexValue(address), data)
  {
    var hex := count + address + dataHex + checksum;
    AllHexConcat(count, address);
    AllHexConcat(count + address, dataHex);
    AllHexConcat(count + address + dataHex, checksum);
    RecordTextMatches(t, hex);
    ViaRecord(RecordText(t, hex), lineNum, Record(t, hex));
    DigitFields(count, address, dataHex, checksum);
    AddressDigits(hex, t + 1, address);
  }

  /** The address field of digits that hold `address` right after the count is that address's value. */
  lemma AddressDigits(hex: string, addressBytes: nat, address: string)
    requires AllHex(hex) && 2 <= addressBytes <= 4 && 2 + 2 * addressBytes <= |hex|
    requires hex[2..2 + 2 * addressBytes] == address
    ensures AddressField(hex, addressBytes) == HexValue(address) < TWO_32
  {
    Pow16Monotonic(2 * addressBytes, 8);
    Pow16Values();
  }

  /** The fields of a data record's digits, where `DataRecordEffect` cuts them. */
  lemma DigitFields(count: string, address: string, dataHex: string, checksum: string)
    requires |count| == 2 && |checksum| == 2
    ensures var hex := count + address + dataHex + checksum;
      hex[2..2 + |address|] == address && hex[2 + |address|..|hex| - 2] == dataHex
  {
  }

  /** A line that matches the pattern has the effect of its record. */
  lemma ViaRecord(line: string, lineNum: nat, rec: Record)
    requires MatchRecord(line) == Some(rec)
    ensures AllHex(rec.hexDigits) && LineEffect(line, lineNum) == RecordEffect(rec, lineNum)
  {
  }

  /**
   * S1, S2 and S3 records write their data at the big-endian address of
   * 2, 3 or 4 bytes after the count, whatever the count and the checksum
   * say.
   */
  lemma DataRecordRoundTrip(t: nat, count: byte, address: seq<byte>, data: seq<byte>, checksum: byte, lineNum: nat)
    requires 1 <= t <= 3 && |address| == t + 1
    ensures LineEffect(RecordText(t, EncodeHex([count] + address + data + [checksum])), lineNum) == Emit(BE(address), data)
  {
    EncodeHexAppend([count] + address + data, [checksum]);
    EncodeHexAppend([count] + address, data);
    EncodeHexAppend([count], address);
    EncodeHexDigits([count]);
    EncodeHexDigits(address);
    EncodeHexDigits(data);
    EncodeHexDigits([checksum]);
    DataRecordDigits(t, EncodeHex([count]), EncodeHex(address), EncodeHex(data), EncodeHex([checksum]), lineNum);
    DecodeEncodeHex(data);
    HexValueOfEncodeHex(address);
  }

  /** A data record with fewer digits than count, address and checksum need is an error. */
  lemma ShortDataRecord(t: nat, hex: string, lineNum: nat)
    requires 1 <= t <= 3 && AllHex(hex) && 0 < |hex| < 2 + 2 * (t + 1) + 2
    ensures LineEffect(RecordText(t, hex), lineNum) == Fail(RecordTooShort(lineNum))
  {
    RecordTextMatches(t, hex);
  }

  /** An odd number of data digits is an error for the line. */
  lemma OddDataRecord(t: nat, count: string, address: string, dataHex: string, checksum: string, lineNum: nat)
    requires 1 <= t <= 3 && |count| == 2 && |address| == 2 * (t + 1) && |checksum| == 2
    requires AllHex(count) && AllHex(address) && AllHex(dataHex) && AllHex(checksum) && |dataHex| % 2 == 1
    ensures LineEffect(RecordText(t, count + address + dataHex + checksum), lineNum) == Fail(InvalidData(lineNum, OddLength))
  {
    DataRecordDigits(t, count, address, dataHex, checksum, lineNum);
  }

  /** S0 and S4 to S9 records write nothing and the load goes on; S-records of types A to F are errors. */
  lemma RecordTypes(t: nat, hex: string, lineNum: nat)
    requires t < 16 && AllHex(hex) && |hex| > 0
    ensures (t == 0 || 4 <= t <= 9) ==> LineEffect(RecordText(t, hex), lineNum) == Skip
    ensures t >= 10 ==> LineEffect(RecordText(t, hex), lineNum) == Fail(UnsupportedRecord(t, lineNum))
  {
    RecordTextMatches(t, hex);
  }

  /** A line that writes nothing and does not fail leaves the rest of the load as it is. */
  lemma SkipContinues(effects: seq<Effect>, i: nat)
    requires i < |effects| && effects[i].Skip?
    ensures ScanEffects(effects, i) == ScanEffects(effects, i + 1)
  {
    assert [] + ScanEffects(effects, i + 1).steps == ScanEffects(effects, i + 1).steps;
  }

  /**
   * Lines after one that fails are never examined: two files whose effects
   * agree up to that line load alike.
   */
  lemma {:induction false} StopsAtFailure(e1: seq<Effect>, e2: seq<Effect>, i: nat, j: nat)
    requires i <= j < |e1| && j < |e2| && e1[..j + 1] == e2[..j + 1] && e1[j].Fail?
    ensures ScanEffects(e1, i) == ScanEffects(e2, i)
    decreases j - i
  {
    assert e1[i] == e1[..j + 1][i] == e2[..j + 1][i] == e2[i];
    if i < j && !e1[i].Fail? {
      StopsAtFailure(e1, e2, i + 1, j);
    }
  }

  /** A block of data at a 32-bit address, small enough for one S3 record. */
  datatype Block = Block(address: u32, data: seq<byte>)

  predicate Fits(blocks: seq<Block>) {
    forall k :: 0 <= k < |blocks| ==> |blocks[k].data| < 251
  }

  /** The checksum of the format: the ones' complement of the low byte of the sum. */
  function Checksum(fields: seq<byte>): byte {
    0xFF - Sum(fields) % TWO_8
  }

  /** An S3 record for `b`: count, 32-bit address, data and checksum. */
  function S3Line(b: Block): string
    requires |b.data| < 251
  {
    var fields := [|b.data| + 5] + BEBytes(b.address, 4) + b.data;
    RecordText(3, EncodeHex(fields + [Checksum(fields)]))
  }

  function S3Lines(blocks: seq<Block>): (lines: seq<string>)
    requires Fits(blocks)
    ensures |lines| == |blocks|
  {
    seq(|blocks|, k requires 0 <= k < |blocks| => S3Line(blocks[k]))
  }

  /** The writes of `blocks` in order, the first on line `lineNum`. */
  function BlockWrites(blocks: seq<Block>, lineNum: nat): seq<Step<LoadError>> {
    if |blocks| == 0 then []
    else
      [Step(WriteBlock(blocks[0].address, blocks[0].data), HandlerFailed(lineNum))]
      + BlockWrites(blocks[1..], lineNum + 1)
  }

  lemma S3LineEffect(b: Block, lineNum: nat)
    requires |b.data| < 251
    ensures LineEffect(S3Line(b), lineNum) == Emit(b.address, b.data)
  {
    var fields := [|b.data| + 5] + BEBytes(b.address, 4) + b.data;
    assert fields + [Checksum(fields)] == [|b.data| + 5] + BEBytes(b.address, 4) + b.data + [Checksum(fields)];
    DataRecordRoundTrip(3, |b.data| + 5, BEBytes(b.address, 4), b.data, Checksum(fields), lineNum);
    assert Pow256(4) == TWO_32 by {
      assert Pow256(2) == TWO_16;
    }
    BEOfBEBytes(b.address, 4);
  }

  lemma {:induction false} ScanEmits(effects: seq<Effect>, i: nat, blocks: seq<Block>)
    requires i + |blocks| < |effects| && effects[i + |blocks|].Skip? && i + |blocks| + 1 == |effects|
    requires forall k :: 0 <= k < |blocks| ==> effects[i + k] == Emit(blocks[k].address, blocks[k].data)
    ensures ScanEffects(effects, i) == Plan(BlockWrites(blocks, i + 1), Ok(()))
    decreases |blocks|
  {
    if |blocks| > 0 {
      assert effects[i + 0] == Emit(blocks[0].address, blocks[0].data);
      forall k | 0 <= k < |blocks[1..]|
        ensures effects[i + 1 + k] == Emit(blocks[1..][k].address, blocks[1..][k].data)
      {
        assert effects[i + (k + 1)] == Emit(blocks[k + 1].address, blocks[k + 1].data);
      }
      ScanEmits(effects, i + 1, blocks[1..]);
    } else {
      SkipContinues(effects, i);
    }
  }

  /**
   * A header record, S3 records for `blocks` and a start-address record
   * load as the writes of the blocks, in file order; the load succeeds at
   * the end of the file, without a terminating record.
   */
  lemma SRecFileRoundTrip(header: seq<byte>, blocks: seq<Block>, start: seq<byte>)
    requires |header| > 0 && |start| > 0 && Fits(blocks)
    ensures ScanSRec([RecordText(0, EncodeHex(header))] + S3Lines(blocks) + [RecordText(7, EncodeHex(start))])
      == Plan(BlockWrites(blocks, 2), Ok(()))
  {
    var lines := [RecordText(0, EncodeHex(header))] + S3Lines(blocks) + [RecordText(7, EncodeHex(start))];
    var effects := LineEffects(lines);
    EncodeHexDigits(header);
    EncodeHexDigits(start);
    EffectAt(lines, 0, RecordText(0, EncodeHex(header)));
    RecordTypes(0, EncodeHex(header), 1);
    SkipContinues(effects, 0);
    forall k | 0 <= k < |blocks|
      ensures effects[1 + k] == Emit(blocks[k].address, blocks[k].data)
    {
      assert lines[1 + k] == S3Line(blocks[k]);
      EffectAt(lines, 1 + k, S3Line(blocks[k]));
      S3LineEffect(blocks[k], 1 + k + 1);
    }
    assert lines[1 + |blocks|] == RecordText(7, EncodeHex(start));
    EffectAt(lines, 1 + |blocks|, RecordText(7, EncodeHex(start)));
    RecordTypes(7, EncodeHex(start), 1 + |blocks| + 1);
    ScanEmits(effects, 1, blocks);
  }

  /** `S1 05 1000 AB CD checksum` writes 0xAB 0xCD at 0x1000. */
  lemma S1Example(checksum: byte, lineNum: nat)
    ensures LineEffect(RecordText(1, EncodeHex([0x05, 0x10, 0x00, 0xAB, 0xCD, checksum])), lineNum) == Emit(0x1000, [0xAB, 0xCD])
  {
    var address: seq<byte> := [0x10, 0x00];
    S1Fields(checksum);
    S1Address();
    DataRecordRoundTrip(1, 0x05, address, [0xAB, 0xCD], checksum, lineNum);
  }

  lemma S1Fields(checksum: byte)
    ensures [0x05 as byte] + [0x10 as byte, 0x00] + [0xAB as byte, 0xCD] + [checksum] == [0x05, 0x10, 0x00, 0xAB, 0xCD, checksum]
  {
    var whole := [0x05 as byte] + [0x10 as byte, 0x00] + [0xAB as byte, 0xCD] + [checksum];
    assert |whole| == 6;
    assert whole[0] == 0x05 && whole[1] == 0x10 && whole[2] == 0x00;
    assert whole[3] == 0xAB && whole[4] == 0xCD && whole[5] == checksum;
  }

  lemma S1Address()
    ensures BE([0x10, 0x00]) == 0x1000
  {
    var address: seq<byte> := [0x10, 0x00];
    assert address[..1] == [0x10] && address[..1][..0] == [];
  }
}
