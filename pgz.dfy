/**
 * The PGZ loader (pkg/loader/pgz.go): a header byte choosing 3- or 4-byte
 * fields, then blocks of a little-endian address, a little-endian size and
 * that many data bytes. An address of 0 ends the file, a size of 0 marks
 * the program's start address (its reset vectors are written), and a data
 * block over 1 KB is written in 1 KB pieces.
 */
module Pgz {
  import opened Wrappers
  import opened Bytes
  import opened Device
  import opened Loader
  import Config
  import Vectors

  /** The width of the address and size fields: 0 until a file has been opened. */
  type FieldSize = n: nat | n == 0 || n == 3 || n == 4

  const HEADER_32: byte := 0x7A
  const HEADER_24: byte := 0x5A
  const CHUNK_SIZE: nat := 1024

  /** `readLittleEndianInt` on the `n` bytes at `offset`. */
  function Field(data: seq<byte>, offset: nat, n: FieldSize): (v: u32)
    requires offset + n <= |data|
  {
    if n == 0 then 0
    else if n == 3 then Field24(data[offset], data[offset + 1], data[offset + 2])
    else Field32(data[offset], data[offset + 1], data[offset + 2], data[offset + 3])
  }

  /**
   * `readBlock(offset)`: both header fields must be present, even for the
   * terminator; a size of 0 is a start-address block without data;
   * otherwise the data must lie within the file.
   */
  function BlockAt(data: seq<byte>, n: FieldSize, offset: nat): (r: Result<BlockRead, LoadError>)
    ensures r.Ok? ==> offset + 2 * n <= r.value.next <= |data|
    ensures r.Ok? && r.value.address != 0 ==> offset < r.value.next
  {
    if offset + 2 * n > |data| then Err(UnexpectedEnd(offset))
    else
      var address := Field(data, offset, n);
      var size := Field(data, offset + n, n);
      var start := offset + 2 * n;
      if address == 0 then Ok(BlockRead(0, [], start))
      else if size == 0 then Ok(BlockRead(address, [], start))
      else if start + size > |data| then Err(BlockExceedsFile(start))
      else Ok(BlockRead(address, data[start..start + size], start + size))
  }

  /** The error of a refused piece of a chunked block: the address it was written at. */
  function ChunkFail(address: u32): nat -> LoadError {
    (o: nat) => ChunkRejected(Wrap32(address + o))
  }

  /** The writes of a data block: 1 KB pieces when it is larger than that, else the block itself. */
  function DataWrites(address: u32, block: seq<byte>): seq<Step<LoadError>> {
    if |block| > CHUNK_SIZE then Chunks(address, block, CHUNK_SIZE, 0, ChunkFail(address))
    else [Step(WriteBlock(address, block), BlockRejectedAt(address))]
  }

  /** What a non-terminator block makes `Process` do: its reset vectors, or its data writes. */
  function BlockPlan(cpu: string, address: u32, block: seq<byte>): Plan<LoadError> {
    if |block| == 0 then MapErrors(Vectors.ResetVectorPlan(cpu, address), VectorsError)
    else Plan(DataWrites(address, block), Ok(()))
  }

  /** A block of a PGZ file: data at an address, or the program's start address. */
  datatype PgzBlock = Data(address: u32, bytes: seq<byte>) | Start(address: u32)

  function Contents(b: PgzBlock): seq<byte> {
    if b.Data? then b.bytes else []
  }

  /** The blocks of a file, in order, and how the scan over them ended. */
  datatype Decoded = Decoded(blocks: seq<PgzBlock>, end: Result<(), LoadError>)

  /** A block that was read: a start address when it has no data. */
  function AsBlock(b: BlockRead): PgzBlock {
    if |b.block| == 0 then Start(b.address) else Data(b.address, b.block)
  }

  /** The blocks from `offset` on, up to the terminator, the end of the file or a block that cannot be read. */
  function Decode(data: seq<byte>, n: FieldSize, offset: nat): Decoded
    decreases |data| - offset
  {
    if offset >= |data| then Decoded([], Ok(()))
    else match BlockAt(data, n, offset)
      case Err(e) => Decoded([], Err(e))
      case Ok(b) =>
        if b.address == 0 then Decoded([], Ok(()))
        else var rest := Decode(data, n, b.next); Decoded([AsBlock(b)] + rest.blocks, rest.end)
  }

  /** What loading `blocks` does: each block's plan in turn, stopping at the first that fails, then `last`. */
  function LoadPlan(cpu: string, blocks: seq<PgzBlock>, last: Plan<LoadError>): Plan<LoadError> {
    if |blocks| == 0 then last
    else AndThen(BlockPlan(cpu, blocks[0].address, Contents(blocks[0])), LoadPlan(cpu, blocks[1..], last))
  }

  /** What `Process` does from `offset` on: the plan of every block read, then how the scan ended. */
  function PgzPlan(data: seq<byte>, n: FieldSize, cpu: string, offset: nat): Plan<LoadError> {
    var d := Decode(data, n, offset);
    LoadPlan(cpu, d.blocks, Plan([], d.end))
  }

  /** One block of the scan: a failure, the terminator, or the block's plan followed by the blocks after it. */
  lemma {:induction false} PlanAt(data: seq<byte>, n: FieldSize, cpu: string, offset: nat, read: Result<BlockRead, LoadError>)
    requires offset < |data| && read == BlockAt(data, n, offset)
    ensures read.Err? ==> PgzPlan(data, n, cpu, offset) == Plan([], Err(read.error))
    ensures read.Ok? && read.value.address == 0 ==> PgzPlan(data, n, cpu, offset) == Plan([], Ok(()))
    ensures read.Ok? && read.value.address != 0 ==>
      PgzPlan(data, n, cpu, offset) ==
        AndThen(BlockPlan(cpu, read.value.address, read.value.block), PgzPlan(data, n, cpu, read.value.next))
  {
    if read.Ok? && read.value.address != 0 {
      var rest := Decode(data, n, read.value.next);
      var blocks := [AsBlock(read.value)] + rest.blocks;
      assert blocks[1..] == rest.blocks;
      assert Contents(AsBlock(read.value)) == read.value.block;
    }
  }

  /** `readLittleEndianInt(data, byteCount)`: at most `byteCount` bytes, fewer if `data` is shorter. */
  method ReadLittleEndianInt(data: seq<byte>, byteCount: FieldSize) returns (value: u32)
    ensures value == LE(data[..if byteCount < |data| then byteCount else |data|])
  {
    value := 0;
    var i := 0;
    while i < byteCount && i < |data|
      invariant i <= byteCount && i <= |data|
      invariant value == LE(data[..i])
    {
      assert data[..i + 1] == data[..i] + [data[i]];
      LEAppend(data[..i], data[i]);
      Pow256Bound(i + 1);
      // `value |= uint32(data[i]) << (i * 8)`: the shifted byte lies above every bit set so far
      value := value + data[i] * Pow256(i);
      i := i + 1;
    }
  }

  /** The field read by `readLittleEndianInt` is the one `BlockAt` uses. */
  lemma {:induction false} FieldIsLE(data: seq<byte>, offset: nat, n: FieldSize)
    requires offset + n <= |data|
    ensures Field(data, offset, n) == LE(data[offset..][..n])
  {
    var bs := data[offset..][..n];
    assert bs == data[offset..offset + n];
    if n == 3 {
      Field24IsLE(bs);
    } else if n == 4 {
      Field32IsLE(bs);
    }
  }

  /** `readBlock(offset)`, reading both fields with `readLittleEndianInt`. */
  method ReadBlock(data: seq<byte>, n: FieldSize, offset: nat) returns (r: Result<BlockRead, LoadError>)
    ensures r == BlockAt(data, n, offset)
  {
    if offset + 2 * n > |data| {
      return Err(UnexpectedEnd(offset));
    }
    var address := ReadLittleEndianInt(data[offset..], n);
    FieldIsLE(data, offset, n);
    var size := ReadLittleEndianInt(data[offset + n..], n);
    FieldIsLE(data, offset + n, n);
    var start := offset + 2 * n;
    if address == 0 {
      return Ok(BlockRead(0, [], start));
    }
    if size == 0 {
      return Ok(BlockRead(address, [], start));
    }
    if start + size > |data| {
      return Err(BlockExceedsFile(start));
    }
    return Ok(BlockRead(address, data[start..start + size], start + size));
  }

  /** The 1 KB chunk loop of `Process`, through handler `h`. */
  method WriteChunks(h: Port, address: u32, block: seq<byte>) returns (r: Result<(), LoadError>)
    modifies h
    ensures Ran(old(h.log), h.log, Plan(Chunks(address, block, CHUNK_SIZE, 0, ChunkFail(address)), Ok(())), r)
  {
    ghost var log0 := h.log;
    ghost var done: seq<Step<LoadError>> := [];
    ghost var whole := Plan(Chunks(address, block, CHUNK_SIZE, 0, ChunkFail(address)), Ok(()));
    var totalLength := |block|;
    var chunkOffset := 0;
    while totalLength > 0
      invariant chunkOffset + totalLength == |block|
      invariant h.log == log0 + Oks(done)
      invariant whole == Then(done, Plan(Chunks(address, block, CHUNK_SIZE, chunkOffset, ChunkFail(address)), Ok(())))
    {
      var currentChunkSize := CHUNK_SIZE;
      if totalLength < CHUNK_SIZE {
        currentChunkSize := totalLength;
      }
      var chunk := block[chunkOffset..chunkOffset + currentChunkSize];
      var at := Wrap32(address + chunkOffset);
      ghost var step := Step(WriteBlock(at, chunk), ChunkFail(address)(chunkOffset));
      ghost var rest := Plan(Chunks(address, block, CHUNK_SIZE, chunkOffset + currentChunkSize, ChunkFail(address)), Ok(()));
      assert Plan(Chunks(address, block, CHUNK_SIZE, chunkOffset, ChunkFail(address)), Ok(())) == Then([step], rest);
      var ok := h.Perform(WriteBlock(at, chunk));
      if !ok {
        r := Err(ChunkRejected(at));
        RanRefused(log0, h.log, done, step, rest, r);
        return;
      }
      Accepted(done, step, rest);
      done := done + [step];
      totalLength := totalLength - currentChunkSize;
      chunkOffset := chunkOffset + currentChunkSize;
    }
    r := Ok(());
    RanFinished(log0, h.log, done, Plan(Chunks(address, block, CHUNK_SIZE, chunkOffset, ChunkFail(address)), Ok(())), r);
  }

  /** The body of `Process` for one block that is not the terminator. */
  method WriteBlockOf(h: Port, cpu: string, address: u32, block: seq<byte>) returns (r: Result<(), LoadError>)
    modifies h
    ensures Ran(old(h.log), h.log, BlockPlan(cpu, address, block), r)
  {
    if |block| == 0 {
      ghost var log0 := h.log;
      var v := Vectors.SetupResetVectors(cpu, address, h);
      RanMapErrors(log0, h.log, Vectors.ResetVectorPlan(cpu, address), VectorsError, v);
      r := MapResult(v, VectorsError);
    } else if |block| > CHUNK_SIZE {
      r := WriteChunks(h, address, block);
    } else {
      ghost var plan := BlockPlan(cpu, address, block);
      ghost var log0 := h.log;
      var ok := h.Perform(WriteBlock(address, block));
      if !ok {
        r := Err(BlockRejectedAt(address));
        RanStopped(log0, h.log, plan, 0, r);
      } else {
        r := Ok(());
        RanCompleted(log0, h.log, plan, r);
      }
    }
  }

  /** The block loop of `Process`, over the file's bytes and through handler `h`. */
  method ScanBlocks(h: Port, bytes: seq<byte>, n: FieldSize, cpu: string) returns (r: Result<(), LoadError>)
    modifies h
    ensures Ran(old(h.log), h.log, PgzPlan(bytes, n, cpu, 1), r)
  {
    ghost var log0 := h.log;
    ghost var done: seq<Step<LoadError>> := [];
    assert Then(done, PgzPlan(bytes, n, cpu, 1)) == PgzPlan(bytes, n, cpu, 1);
    var offset := 1;
    while offset < |bytes|
      invariant h.log == log0 + Oks(done)
      invariant PgzPlan(bytes, n, cpu, 1) == Then(done, PgzPlan(bytes, n, cpu, offset))
      decreases |bytes| - offset
    {
      var read := ReadBlock(bytes, n, offset);
      PlanAt(bytes, n, cpu, offset, read);
      if read.Err? || read.value.address == 0 {
        r := if read.Err? then Err(read.error) else Ok(());
        RanFinished(log0, h.log, done, PgzPlan(bytes, n, cpu, offset), r);
        return;
      }
      ghost var log1 := h.log;
      ghost var first := BlockPlan(cpu, read.value.address, read.value.block);
      ghost var rest := PgzPlan(bytes, n, cpu, read.value.next);
      var w := WriteBlockOf(h, cpu, read.value.address, read.value.block);
      RanFirst(log0, log1, h.log, done, first, rest, w);
      if w.Err? {
        r := w;
        return;
      }
      done := done + first.steps;
      offset := read.value.next;
    }
    r := Ok(());
    RanFinished(log0, h.log, done, PgzPlan(bytes, n, cpu, offset), r);
  }

  class PgzLoader {
    const base: BaseLoader
    var data: Option<seq<byte>>
    const config: Config.Config
    var addressSize: FieldSize

    /** `NewPGZLoader(cfg)`: no file, no handler, no field size yet. */
    constructor (cfg: Config.Config)
      ensures fresh(base) && base.file == None && base.handler == null
      ensures data == None && config == cfg && addressSize == 0
    {
      base := new BaseLoader();
      data := None;
      config := cfg;
      addressSize := 0;
    }

    /** Reads the whole file and takes the field size from its header byte; on failure nothing changes. */
    method Open(contents: Option<seq<byte>>) returns (r: Result<(), LoadError>)
      modifies this
      ensures r.Err? ==> data == old(data) && addressSize == old(addressSize)
      ensures contents.None? ==> r == Err(ReadFailed)
      ensures contents.Some? && |contents.value| == 0 ==> r == Err(FileTooSmall)
      ensures contents.Some? && |contents.value| > 0 ==>
        var h := contents.value[0];
        (h == HEADER_32 ==> r == Ok(()) && addressSize == 4)
        && (h == HEADER_24 ==> r == Ok(()) && addressSize == 3)
        && (h != HEADER_32 && h != HEADER_24 ==> r == Err(InvalidHeader(h)))
      ensures r.Ok? ==> data == contents
    {
      if contents.None? {
        return Err(ReadFailed);
      }
      if |contents.value| < 1 {
        return Err(FileTooSmall);
      }
      var header := contents.value[0];
      if header == HEADER_32 {
        addressSize := 4;
      } else if header == HEADER_24 {
        addressSize := 3;
      } else {
        return Err(InvalidHeader(header));
      }
      data := contents;
      return Ok(());
    }

    /** Forgets the file; the field size stays. */
    method Close() returns (r: Result<(), LoadError>)
      modifies this
      ensures data == None && addressSize == old(addressSize) && r == Ok(())
    {
      data := None;
      return Ok(());
    }

    /** Writes every block, after the header byte, until the terminator or the end of the file. */
    method Process() returns (r: Result<(), LoadError>)
      modifies base.handler
      ensures data.None? ==> r == Err(FileNotOpen)
      ensures data.Some? && base.handler == null ==> r == Err(HandlerNotSet)
      ensures data.Some? && base.handler != null ==>
        Ran(old(base.handler.log), base.handler.log, PgzPlan(data.value, addressSize, config.cpu, 1), r)
    {
      if data.None? {
        return Err(FileNotOpen);
      }
      if base.handler == null {
        return Err(HandlerNotSet);
      }
      r := ScanBlocks(base.handler, data.value, addressSize, config.cpu);
    }
  }

  // ---------------------------------------------------------------------
  // Properties of the PGZ loader

  /** A block's address and size are little-endian fields of the configured width; its data are the bytes after them. */
  lemma {:induction false} BlockAtFields(data: seq<byte>, n: FieldSize, offset: nat)
    requires BlockAt(data, n, offset).Ok?
    ensures var b := BlockAt(data, n, offset).value;
      var start := offset + 2 * n;
      b.address == LE(data[offset..offset + n])
      && (b.address != 0 && LE(data[offset + n..start]) == 0 ==> b.block == [] && b.next == start)
      && (b.address != 0 && LE(data[offset + n..start]) != 0 ==>
            |b.block| == LE(data[offset + n..start]) && b.next == start + |b.block| && b.block == data[start..b.next])
  {
    FieldIsLE(data, offset, n);
    FieldIsLE(data, offset + n, n);
    assert data[offset..][..n] == data[offset..offset + n];
    assert data[offset + n..][..n] == data[offset + n..offset + 2 * n];
  }

  /**
   * Reading a block fails exactly when its header, even a terminator's, or
   * the data of a block with a non-zero address and size, run past the end.
   */
  lemma {:induction false} BlockAtFails(data: seq<byte>, n: FieldSize, offset: nat)
    ensures BlockAt(data, n, offset).Err? <==>
      (offset + 2 * n > |data|
       || (LE(data[offset..offset + n]) != 0 && LE(data[offset + n..offset + 2 * n]) != 0
           && offset + 2 * n + LE(data[offset + n..offset + 2 * n]) > |data|))
    ensures offset + 2 * n > |data| ==> BlockAt(data, n, offset) == Err(UnexpectedEnd(offset))
    ensures offset + 2 * n <= |data| && BlockAt(data, n, offset).Err? ==>
      BlockAt(data, n, offset) == Err(BlockExceedsFile(offset + 2 * n))
  {
    if offset + 2 * n <= |data| {
      FieldIsLE(data, offset, n);
      FieldIsLE(data, offset + n, n);
      assert data[offset..][..n] == data[offset..offset + n];
      assert data[offset + n..][..n] == data[offset + n..offset + 2 * n];
    }
  }

  /**
   * A data block over 1 KB is written piece by piece at its address plus the
   * piece's offset (with 32-bit wrap-around), each piece at most 1 KB, the
   * pieces together the block; a smaller block is one write.
   */
  lemma {:induction false} DataWritesChunked(address: u32, block: seq<byte>)
    requires |block| > 0
    ensures Payload(DataWrites(address, block)) == block
    ensures forall s | s in DataWrites(address, block) ::
      s.call.WriteBlock? && 0 < |s.call.data| <= CHUNK_SIZE
    ensures forall i | 0 <= i < |DataWrites(address, block)| ::
      DataWrites(address, block)[i].call.address == Wrap32(address + i * CHUNK_SIZE)
    ensures |block| <= CHUNK_SIZE ==> DataWrites(address, block) == [Step(WriteBlock(address, block), BlockRejectedAt(address))]
  {
    if |block| > CHUNK_SIZE {
      ChunksPayload(address, block, CHUNK_SIZE, 0, ChunkFail(address));
      ChunksBounded(address, block, CHUNK_SIZE, 0, ChunkFail(address));
      forall i | 0 <= i < |DataWrites(address, block)|
        ensures DataWrites(address, block)[i].call.address == Wrap32(address + i * CHUNK_SIZE)
      {
        ChunkAt(address, block, CHUNK_SIZE, 0, ChunkFail(address), i);
      }
    } else {
      var w := DataWrites(address, block);
      assert w[1..] == [];
      assert block + [] == block;
    }
  }

  /** A 3-byte-field file with one 4-byte block at 0x1000 and a terminator loads as that one write. */
  lemma {:induction false} ExampleSingleBlock()
    ensures PgzPlan([0x5A, 0x00, 0x10, 0x00, 0x04, 0x00, 0x00, 0xDE, 0xAD, 0xBE, 0xEF,
                     0x00, 0x00, 0x00, 0x00, 0x00, 0x00], 3, "65816", 1)
      == Plan([Step(WriteBlock(0x1000, [0xDE, 0xAD, 0xBE, 0xEF]), BlockRejectedAt(0x1000))], Ok(()))
  {
    var data: seq<byte> := [0x5A, 0x00, 0x10, 0x00, 0x04, 0x00, 0x00, 0xDE, 0xAD, 0xBE, 0xEF,
                            0x00, 0x00, 0x00, 0x00, 0x00, 0x00];
    assert Field(data, 1, 3) == 0x1000 && Field(data, 4, 3) == 4;
    assert data[7..11] == [0xDE, 0xAD, 0xBE, 0xEF];
    var first := BlockAt(data, 3, 1);
    assert first == Ok(BlockRead(0x1000, [0xDE, 0xAD, 0xBE, 0xEF], 11));
    PlanAt(data, 3, "65816", 1, first);
    var second := BlockAt(data, 3, 11);
    assert second == Ok(BlockRead(0, [], 17));
    PlanAt(data, 3, "65816", 11, second);
  }

  // ---------------------------------------------------------------------
  // Writing a PGZ file and loading it back

  /** The values a field of width `n` holds: below 2^(8n). */
  function Limit(n: FieldSize): nat {
    if n == 4 then TWO_32 else if n == 3 then TWO_24 else 1
  }

  /** Blocks that fields of width `n` can hold: non-zero addresses, and non-empty data that fit the size field. */
  predicate Encodable(blocks: seq<PgzBlock>, n: FieldSize) {
    forall k :: 0 <= k < |blocks| ==>
      0 < blocks[k].address < Limit(n) && (blocks[k].Data? ==> 0 < |blocks[k].bytes| < Limit(n))
  }

  /** `v` in a little-endian field of width `n`. */
  function FieldBytes(v: nat, n: FieldSize): (bs: seq<byte>)
    ensures |bs| == n
  {
    LEBytes(v, n)
  }

  function EncodeBlock(b: PgzBlock, n: FieldSize): (bs: seq<byte>)
    ensures |bs| == 2 * n + |Contents(b)|
  {
    FieldBytes(b.address, n) + FieldBytes(|Contents(b)|, n) + Contents(b)
  }

  function EncodeBlocks(blocks: seq<PgzBlock>, n: FieldSize): seq<byte> {
    if |blocks| == 0 then [] else EncodeBlock(blocks[0], n) + EncodeBlocks(blocks[1..], n)
  }

  /** A field written with `FieldBytes` is read back as its value. */
  lemma {:induction false} FieldOfFieldBytes(data: seq<byte>, offset: nat, n: FieldSize, v: nat)
    requires v < Limit(n) && offset + n <= |data| && data[offset..offset + n] == FieldBytes(v, n)
    ensures Field(data, offset, n) == v
  {
    FieldIsLE(data, offset, n);
    assert data[offset..][..n] == data[offset..offset + n];
    assert Pow256(3) == TWO_24 && Pow256(4) == TWO_32 by {
      assert Pow256(2) == TWO_16;
    }
    if n == 4 {
      LEOfLEBytes(v, 4);
    } else if n == 3 {
      LEOfLEBytes(v, 3);
    }
  }

  /** A front part of `data[offset..]` lies at `offset`, and what follows it right after it. */
  lemma {:induction false} TakeFront(data: seq<byte>, offset: nat, front: seq<byte>, after: seq<byte>)
    requires offset <= |data| && data[offset..] == front + after
    ensures offset + |front| <= |data|
    ensures data[offset..offset + |front|] == front && data[offset + |front|..] == after
  {
    assert data[offset..offset + |front|] == data[offset..][..|front|];
    assert data[offset + |front|..] == data[offset..][|front|..];
  }

  /** The three parts at the front of `data[offset..]`, each at its place in `data`. */
  lemma {:induction false} PartsAt(data: seq<byte>, offset: nat, a: seq<byte>, b: seq<byte>, c: seq<byte>, after: seq<byte>)
    requires offset <= |data| && data[offset..] == a + b + c + after
    ensures var i, j, k := offset + |a|, offset + |a| + |b|, offset + |a| + |b| + |c|;
      k <= |data| && data[offset..i] == a && data[i..j] == b && data[j..k] == c
  {
    assert a + b + c + after == a + (b + (c + after));
    TakeFront(data, offset, a, b + (c + after));
    TakeFront(data, offset + |a|, b, c + after);
    TakeFront(data, offset + |a| + |b|, c, after);
  }

  /** An encoded block is read back as itself. */
  lemma {:induction false} ReadEncodedBlock(data: seq<byte>, n: FieldSize, offset: nat, b: PgzBlock, after: seq<byte>)
    requires 0 < b.address < Limit(n) && |Contents(b)| < Limit(n)
    requires offset <= |data| && data[offset..] == EncodeBlock(b, n) + after
    ensures BlockAt(data, n, offset) == Ok(BlockRead(b.address, Contents(b), offset + 2 * n + |Contents(b)|))
  {
    var c := Contents(b);
    PartsAt(data, offset, FieldBytes(b.address, n), FieldBytes(|c|, n), c, after);
    FieldOfFieldBytes(data, offset, n, b.address);
    FieldOfFieldBytes(data, offset + n, n, |c|);
  }

  lemma {:induction false} TailEncodable(blocks: seq<PgzBlock>, n: FieldSize)
    requires Encodable(blocks, n) && |blocks| > 0
    ensures Encodable(blocks[1..], n)
  {
    forall k | 0 <= k < |blocks[1..]|
      ensures 0 < blocks[1..][k].address < Limit(n) && (blocks[1..][k].Data? ==> 0 < |blocks[1..][k].bytes| < Limit(n))
    {
      assert blocks[1..][k] == blocks[k + 1];
    }
  }

  /** The first block's encoding is at the front, and the rest of the encoding follows it. */
  lemma {:induction false} FirstEncoded(data: seq<byte>, n: FieldSize, offset: nat, blocks: seq<PgzBlock>, tail: seq<byte>)
    requires |blocks| > 0
    requires offset <= |data| && data[offset..] == EncodeBlocks(blocks, n) + tail
    ensures data[offset..] == EncodeBlock(blocks[0], n) + (EncodeBlocks(blocks[1..], n) + tail)
    ensures var next := offset + 2 * n + |Contents(blocks[0])|;
      next <= |data| && data[next..] == EncodeBlocks(blocks[1..], n) + tail
  {
    var front, rest := EncodeBlock(blocks[0], n), EncodeBlocks(blocks[1..], n);
    assert EncodeBlocks(blocks, n) == front + rest;
    assert (front + rest) + tail == front + (rest + tail);
    assert |front| == 2 * n + |Contents(blocks[0])|;
    TakeFront(data, offset, front, rest + tail);
  }

  /** The first encoded block is read back as itself. */
  lemma {:induction false} ReadFirstBlock(data: seq<byte>, n: FieldSize, offset: nat, blocks: seq<PgzBlock>, tail: seq<byte>)
    requires Encodable(blocks, n) && |blocks| > 0
    requires offset <= |data| && data[offset..] == EncodeBlock(blocks[0], n) + (EncodeBlocks(blocks[1..], n) + tail)
    ensures BlockAt(data, n, offset) ==
      Ok(BlockRead(blocks[0].address, Contents(blocks[0]), offset + 2 * n + |Contents(blocks[0])|))
  {
    var b := blocks[0];
    assert 0 < b.address < Limit(n) && |Contents(b)| < Limit(n);
    ReadEncodedBlock(data, n, offset, b, EncodeBlocks(blocks[1..], n) + tail);
  }

  /** A first block read back as itself, followed by the rest's blocks, gives all the blocks. */
  lemma {:induction false} FirstBlock(data: seq<byte>, n: FieldSize, offset: nat, blocks: seq<PgzBlock>, next: nat,
                   end: Result<(), LoadError>)
    requires |blocks| > 0 && blocks[0].address != 0 && (blocks[0].Data? ==> |blocks[0].bytes| > 0) && offset < |data|
    requires BlockAt(data, n, offset) == Ok(BlockRead(blocks[0].address, Contents(blocks[0]), next))
    requires Decode(data, n, next) == Decoded(blocks[1..], end)
    ensures Decode(data, n, offset) == Decoded(blocks, end)
  {
    assert AsBlock(BlockRead(blocks[0].address, Contents(blocks[0]), next)) == blocks[0];
    assert [blocks[0]] + blocks[1..] == blocks;
  }

  /**
   * `blocks` can be read one after the other from `offset` on, each as
   * itself, and the last one ends at `last`.
   */
  predicate Laid(data: seq<byte>, n: FieldSize, offset: nat, blocks: seq<PgzBlock>, last: nat)
    decreases |blocks|
  {
    if |blocks| == 0 then offset == last
    else
      var next := offset + 2 * n + |Contents(blocks[0])|;
      offset < |data| && BlockAt(data, n, offset) == Ok(BlockRead(blocks[0].address, Contents(blocks[0]), next))
      && Laid(data, n, next, blocks[1..], last)
  }

  /** Encoded blocks lie one after the other, and the bytes after them start where the last one ends. */
  lemma {:induction false} EncodedLaid(data: seq<byte>, n: FieldSize, offset: nat,
                                       blocks: seq<PgzBlock>, tail: seq<byte>)
    requires Encodable(blocks, n)
    requires offset <= |data| && data[offset..] == EncodeBlocks(blocks, n) + tail
    ensures Laid(data, n, offset, blocks, |data| - |tail|)
    decreases |blocks|
  {
    if |blocks| > 0 {
      var next := offset + 2 * n + |Contents(blocks[0])|;
      assert BlockAt(data, n, offset) == Ok(BlockRead(blocks[0].address, Contents(blocks[0]), next))
        && next <= |data| && data[next..] == EncodeBlocks(blocks[1..], n) + tail by {
        FirstEncoded(data, n, offset, blocks, tail);
        ReadFirstBlock(data, n, offset, blocks, tail);
      }
      TailEncodable(blocks, n);
      EncodedLaid(data, n, next, blocks[1..], tail);
    } else {
      assert |data[offset..]| == |tail|;
    }
  }

  /** Blocks laid one after the other are read back one by one; what lies after them decides how the scan ends. */
  lemma {:induction false} DecodesBlocks(data: seq<byte>, n: FieldSize, offset: nat,
                                         blocks: seq<PgzBlock>, last: nat, end: Result<(), LoadError>)
    requires Encodable(blocks, n) && Laid(data, n, offset, blocks, last)
    requires Decode(data, n, last) == Decoded([], end)
    ensures Decode(data, n, offset) == Decoded(blocks, end)
    decreases |blocks|
  {
    if |blocks| > 0 {
      var next := offset + 2 * n + |Contents(blocks[0])|;
      TailEncodable(blocks, n);
      DecodesBlocks(data, n, next, blocks[1..], last, end);
      FirstBlock(data, n, offset, blocks, next, end);
    }
  }

  /** The blocks encoded after a file's header byte are read back, followed by how the bytes after them end the scan. */
  lemma {:induction false} DecodesFile(data: seq<byte>, n: FieldSize, blocks: seq<PgzBlock>, tail: seq<byte>, end: Result<(), LoadError>)
    requires Encodable(blocks, n) && 1 <= |data| && data[1..] == EncodeBlocks(blocks, n) + tail
    requires Decode(data, n, |data| - |tail|) == Decoded([], end)
    ensures Decode(data, n, 1) == Decoded(blocks, end)
  {
    assert Laid(data, n, 1, blocks, |data| - |tail|) by {
      EncodedLaid(data, n, 1, blocks, tail);
    }
    DecodesBlocks(data, n, 1, blocks, |data| - |tail|, end);
  }

  /** What may follow the last block: nothing, or a terminator (a zero address field) and anything after it. */
  predicate Ending(tail: seq<byte>, n: FieldSize) {
    tail == [] || (|tail| >= 2 * n && forall k :: 0 <= k < n ==> tail[k] == 0)
  }

  /** The end of the file, or a terminator, ends the scan with no further block. */
  lemma {:induction false} EndingStops(data: seq<byte>, n: FieldSize, offset: nat, tail: seq<byte>)
    requires Ending(tail, n) && offset <= |data| && data[offset..] == tail
    ensures Decode(data, n, offset) == Decoded([], Ok(()))
  {
    if tail != [] {
      assert forall k :: 0 <= k < n ==> data[offset + k] == tail[k];
    }
  }

  /** A header shorter than two fields ends the scan at its offset. */
  lemma {:induction false} PartialHeader(data: seq<byte>, n: FieldSize, offset: nat)
    requires offset < |data| < offset + 2 * n
    ensures Decode(data, n, offset) == Decoded([], Err(UnexpectedEnd(offset)))
  {
  }

  /** The header byte that announces fields of width `n`. */
  function HeaderFor(n: FieldSize): byte {
    if n == 4 then HEADER_32 else HEADER_24
  }

  /** A PGZ file: the header byte for width `n`, the encoded blocks, then `tail`. */
  function PgzFile(n: FieldSize, blocks: seq<PgzBlock>, tail: seq<byte>): (f: seq<byte>)
    ensures |f| >= 1 && f[1..] == EncodeBlocks(blocks, n) + tail
  {
    [HeaderFor(n)] + EncodeBlocks(blocks, n) + tail
  }

  /** Encoded blocks followed by an ending are read back as those blocks, and the scan succeeds. */
  lemma {:induction false} DecodesEnded(data: seq<byte>, n: FieldSize, blocks: seq<PgzBlock>, tail: seq<byte>)
    requires Encodable(blocks, n) && Ending(tail, n) && 1 <= |data| && data[1..] == EncodeBlocks(blocks, n) + tail
    ensures Decode(data, n, 1) == Decoded(blocks, Ok(()))
  {
    TakeFront(data, 1, EncodeBlocks(blocks, n), tail);
    EndingStops(data, n, |data| - |tail|, tail);
    DecodesFile(data, n, blocks, tail, Ok(()));
  }

  /** Encoded blocks followed by part of a header are read back as those blocks, and the scan fails where the header starts. */
  lemma {:induction false} DecodesTruncated(data: seq<byte>, n: FieldSize, blocks: seq<PgzBlock>, partial: seq<byte>)
    requires Encodable(blocks, n) && 0 < |partial| < 2 * n
    requires 1 <= |data| && data[1..] == EncodeBlocks(blocks, n) + partial
    ensures Decode(data, n, 1) == Decoded(blocks, Err(UnexpectedEnd(|data| - |partial|)))
  {
    PartialHeader(data, n, |data| - |partial|);
    DecodesFile(data, n, blocks, partial, Err(UnexpectedEnd(|data| - |partial|)));
  }

  /**
   * A file of encoded blocks that ends after a block or at a terminator is
   * read back as those blocks, and so loads as the blocks' plans in file
   * order: data written in 1 KB pieces, start addresses turned into reset
   * vectors.
   */
  lemma {:induction false} PgzRoundTrip(n: FieldSize, cpu: string, blocks: seq<PgzBlock>, tail: seq<byte>)
    requires n != 0 && Encodable(blocks, n) && Ending(tail, n)
    ensures Decode(PgzFile(n, blocks, tail), n, 1) == Decoded(blocks, Ok(()))
    ensures PgzPlan(PgzFile(n, blocks, tail), n, cpu, 1) == LoadPlan(cpu, blocks, Plan([], Ok(())))
  {
    DecodesEnded(PgzFile(n, blocks, tail), n, blocks, tail);
  }

  /** A file that ends inside a block header is an error, after the blocks before it have been read and loaded. */
  lemma {:induction false} TruncatedHeader(n: FieldSize, cpu: string, blocks: seq<PgzBlock>, partial: seq<byte>)
    requires Encodable(blocks, n) && 0 < |partial| < 2 * n
    ensures var at := |PgzFile(n, blocks, partial)| - |partial|;
      Decode(PgzFile(n, blocks, partial), n, 1) == Decoded(blocks, Err(UnexpectedEnd(at)))
      && PgzPlan(PgzFile(n, blocks, partial), n, cpu, 1) == LoadPlan(cpu, blocks, Plan([], Err(UnexpectedEnd(at))))
  {
    DecodesTruncated(PgzFile(n, blocks, partial), n, blocks, partial);
  }
}
