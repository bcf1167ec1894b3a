/**
 * The WDCTools binary loader (pkg/loader/wdc.go): a `Z` signature, then
 * blocks of a 3-byte little-endian address, a 3-byte little-endian length
 * and that many data bytes, up to a block whose address is 0 or the end of
 * the file.
 */
module Wdc {
  import opened Wrappers
  import opened Bytes
  import opened Device
  import opened Loader

  const SIGNATURE: byte := 0x5A

  /**
   * `readBlock(offset)`: six header bytes must remain; an address of 0 is
   * the terminator, whatever its length field says; otherwise the data must
   * lie within the file.
   */
  function ReadBlock(data: seq<byte>, offset: nat): (r: Result<BlockRead, LoadError>)
    ensures r.Ok? ==> offset + 6 <= r.value.next <= |data|
    ensures r.Ok? && r.value.address == 0 ==> r.value.next == offset + 6 && r.value.block == []
    ensures r.Ok? && r.value.address != 0 ==>
      r.value.next == offset + 6 + |r.value.block| && r.value.block == data[offset + 6..r.value.next]
  {
    if offset + 6 > |data| then Err(UnexpectedEnd(offset))
    else
      var address := Field24(data[offset], data[offset + 1], data[offset + 2]);
      var length := Field24(data[offset + 3], data[offset + 4], data[offset + 5]);
      if address == 0 then Ok(BlockRead(0, [], offset + 6))
      else if offset + 6 + length > |data| then Err(BlockExceedsFile(offset + 6))
      else Ok(BlockRead(address, data[offset + 6..offset + 6 + length], offset + 6 + length))
  }

  /** The writes of the blocks from `offset` on, each reported as refused by the handler. */
  function WdcPlan(data: seq<byte>, offset: nat): Plan<LoadError>
    decreases |data| - offset
  {
    if offset >= |data| then Plan([], Ok(()))
    else match ReadBlock(data, offset)
      case Err(e) => Plan([], Err(e))
      case Ok(b) =>
        if b.address == 0 then Plan([], Ok(()))
        else Then([Step(WriteBlock(b.address, b.block), BlockRejected)], WdcPlan(data, b.next))
  }

  /** One block of the scan: a failure, the terminator, or a write followed by the blocks after it. */
  lemma PlanAt(data: seq<byte>, offset: nat, read: Result<BlockRead, LoadError>)
    requires offset < |data| && read == ReadBlock(data, offset)
    ensures read.Err? ==> WdcPlan(data, offset) == Plan([], Err(read.error))
    ensures read.Ok? && read.value.address == 0 ==> WdcPlan(data, offset) == Plan([], Ok(()))
    ensures read.Ok? && read.value.address != 0 ==>
      WdcPlan(data, offset) == Then([Step(WriteBlock(read.value.address, read.value.block), BlockRejected)], WdcPlan(data, read.value.next))
  {
  }

  class WdcLoader {
    const base: BaseLoader
    var data: Option<seq<byte>>

    constructor ()
      ensures fresh(base) && base.file == None && base.handler == null && data == None
    {
      base := new BaseLoader();
      data := None;
    }

    /** Reads the whole file; it must start with the `Z` signature, or nothing changes. */
    method Open(contents: Option<seq<byte>>) returns (r: Result<(), LoadError>)
      modifies this
      ensures contents.None? ==> r == Err(ReadFailed) && data == old(data)
      ensures contents.Some? && (|contents.value| < 1 || contents.value[0] != SIGNATURE) ==>
        r == Err(MissingSignature) && data == old(data)
      ensures contents.Some? && |contents.value| >= 1 && contents.value[0] == SIGNATURE ==> r == Ok(()) && data == contents
    {
      if contents.None? {
        return Err(ReadFailed);
      }
      if |contents.value| < 1 || contents.value[0] != SIGNATURE {
        return Err(MissingSignature);
      }
      data := contents;
      return Ok(());
    }

    /** Forgets the file. */
    method Close() returns (r: Result<(), LoadError>)
      modifies this
      ensures data == None && r == Ok(())
    {
      data := None;
      return Ok(());
    }

    /** Writes the blocks in file order, after the signature, until the terminator or the end of the file. */
    method Process() returns (r: Result<(), LoadError>)
      modifies base.handler
      ensures data.None? ==> r == Err(FileNotOpen)
      ensures data.Some? && base.handler == null ==> r == Err(HandlerNotSet)
      ensures data.Some? && base.handler != null ==> Ran(old(base.handler.log), base.handler.log, WdcPlan(data.value, 1), r)
    {
      if data.None? {
        return Err(FileNotOpen);
      }
      if base.handler == null {
        return Err(HandlerNotSet);
      }
      r := ScanBlocks(base.handler, data.value);
    }
  }

  /** The block loop of `Process`, over the file's bytes and through handler `h`. */
  method ScanBlocks(h: Port, bytes: seq<byte>) returns (r: Result<(), LoadError>)
    modifies h
    ensures Ran(old(h.log), h.log, WdcPlan(bytes, 1), r)
  {
    ghost var log0 := h.log;
    ghost var done: seq<Step<LoadError>> := [];
    assert Then(done, WdcPlan(bytes, 1)) == WdcPlan(bytes, 1);
    var offset := 1;
    while offset < |bytes|
      invariant h.log == log0 + Oks(done)
      invariant WdcPlan(bytes, 1) == Then(done, WdcPlan(bytes, offset))
      decreases |bytes| - offset
    {
      var read := ReadBlock(bytes, offset);
      PlanAt(bytes, offset, read);
      if read.Err? || read.value.address == 0 {
        r := if read.Err? then Err(read.error) else Ok(());
        RanFinished(log0, h.log, done, WdcPlan(bytes, offset), r);
        return;
      }
      var address, block := read.value.address, read.value.block;
      ghost var step := Step(WriteBlock(address, block), BlockRejected);
      ghost var rest := WdcPlan(bytes, read.value.next);
      offset := read.value.next;
      var ok := h.Perform(WriteBlock(address, block));
      if !ok {
        r := Err(BlockRejected);
        RanRefused(log0, h.log, done, step, rest, r);
        return;
      }
      Accepted(done, step, rest);
      done := done + [step];
    }
    r := Ok(());
    RanFinished(log0, h.log, done, WdcPlan(bytes, offset), r);
  }

  // ---------------------------------------------------------------------
  // Properties of the WDC loader

  /** A header is read as two 3-byte little-endian numbers: the address and the length. */
  lemma ReadBlockFields(data: seq<byte>, offset: nat)
    requires ReadBlock(data, offset).Ok?
    ensures var b := ReadBlock(data, offset).value;
      b.address == LE(data[offset..offset + 3])
      && (b.address != 0 ==> |b.block| == LE(data[offset + 3..offset + 6]))
  {
    Field24IsLE(data[offset..offset + 3]);
    if ReadBlock(data, offset).value.address != 0 {
      Field24IsLE(data[offset + 3..offset + 6]);
    }
  }

  /** Reading a block fails exactly when its header, or a non-terminator's data, runs past the end. */
  lemma ReadBlockFails(data: seq<byte>, offset: nat)
    ensures ReadBlock(data, offset).Err? <==>
      (offset + 6 > |data|
       || (LE(data[offset..offset + 3]) != 0 && offset + 6 + LE(data[offset + 3..offset + 6]) > |data|))
    ensures offset + 6 > |data| ==> ReadBlock(data, offset) == Err(UnexpectedEnd(offset))
    ensures offset + 6 <= |data| && ReadBlock(data, offset).Err? ==> ReadBlock(data, offset) == Err(BlockExceedsFile(offset + 6))
  {
    if offset + 6 <= |data| {
      Field24IsLE(data[offset..offset + 3]);
      Field24IsLE(data[offset + 3..offset + 6]);
    }
  }

  /** The handler is never called with address 0, and a refused block is reported as such. */
  lemma {:induction false} NeverWritesAddressZero(data: seq<byte>, offset: nat)
    ensures forall s | s in WdcPlan(data, offset).steps ::
      s.call.WriteBlock? && 0 < s.call.address < TWO_24 && s.onFail == BlockRejected
    decreases |data| - offset
  {
    if offset < |data| && ReadBlock(data, offset).Ok? && ReadBlock(data, offset).value.address != 0 {
      var b := ReadBlock(data, offset).value;
      NeverWritesAddressZero(data, b.next);
    }
  }

  /** A block that can be written in this format: a non-zero 24-bit address and fewer than 2^24 bytes. */
  datatype Block = Block(address: u32, data: seq<byte>)

  predicate Encodable(blocks: seq<Block>) {
    forall k :: 0 <= k < |blocks| ==> 0 < blocks[k].address < TWO_24 && |blocks[k].data| < TWO_24
  }

  function EncodeBlock(b: Block): (bs: seq<byte>)
    ensures |bs| == 6 + |b.data|
  {
    LEBytes(b.address, 3) + LEBytes(|b.data|, 3) + b.data
  }

  function EncodeBlocks(blocks: seq<Block>): seq<byte> {
    if |blocks| == 0 then [] else EncodeBlock(blocks[0]) + EncodeBlocks(blocks[1..])
  }

  function BlockWrites(blocks: seq<Block>): seq<Step<LoadError>> {
    if |blocks| == 0 then []
    else [Step(WriteBlock(blocks[0].address, blocks[0].data), BlockRejected)] + BlockWrites(blocks[1..])
  }

  /** What may follow the last block: nothing, or a terminator header and anything after it. */
  predicate Ending(tail: seq<byte>) {
    tail == [] || (|tail| >= 6 && tail[..3] == [0, 0, 0])
  }

  /** An encoded block is read back as itself. */
  lemma ReadEncodedBlock(data: seq<byte>, offset: nat, b: Block, after: seq<byte>)
    requires 0 < b.address < TWO_24 && |b.data| < TWO_24
    requires offset <= |data| && data[offset..] == EncodeBlock(b) + after
    ensures ReadBlock(data, offset) == Ok(BlockRead(b.address, b.data, offset + 6 + |b.data|))
  {
    var e := EncodeBlock(b);
    assert Pow256(3) == TWO_24;
    Field24IsLE(data[offset..offset + 3]);
    Field24IsLE(data[offset + 3..offset + 6]);
    LEOfLEBytes(b.address, 3);
    LEOfLEBytes(|b.data|, 3);
    assert data[offset..offset + 3] == data[offset..][..3] == e[..3] == LEBytes(b.address, 3);
    assert data[offset + 3..offset + 6] == data[offset..][3..6] == e[3..6] == LEBytes(|b.data|, 3);
    assert data[offset + 6..offset + 6 + |b.data|] == data[offset..][6..6 + |b.data|] == e[6..] == b.data;
  }

  lemma TailEncodable(blocks: seq<Block>)
    requires Encodable(blocks) && |blocks| > 0
    ensures Encodable(blocks[1..])
  {
    forall k | 0 <= k < |blocks[1..]|
      ensures 0 < blocks[1..][k].address < TWO_24 && |blocks[1..][k].data| < TWO_24
    {
      assert blocks[1..][k] == blocks[k + 1];
    }
  }

  /** The first encoded block is read back, and the rest of the encoding follows it. */
  lemma ReadFirstBlock(data: seq<byte>, offset: nat, blocks: seq<Block>, tail: seq<byte>)
    requires Encodable(blocks) && |blocks| > 0
    requires offset <= |data| && data[offset..] == EncodeBlocks(blocks) + tail
    ensures var next := offset + 6 + |blocks[0].data|;
      ReadBlock(data, offset) == Ok(BlockRead(blocks[0].address, blocks[0].data, next))
      && next <= |data| && data[next..] == EncodeBlocks(blocks[1..]) + tail
      && Encodable(blocks[1..])
  {
    var b := blocks[0];
    var after := EncodeBlocks(blocks[1..]) + tail;
    assert data[offset..] == EncodeBlock(b) + after;
    ReadEncodedBlock(data, offset, b, after);
    var next := offset + 6 + |b.data|;
    assert data[next..] == data[offset..][6 + |b.data|..];
    TailEncodable(blocks);
  }

  /** A first block read back as itself, followed by the rest's writes, gives the blocks' writes. */
  lemma FirstWrite(data: seq<byte>, offset: nat, blocks: seq<Block>, next: nat, end: Result<(), LoadError>)
    requires |blocks| > 0 && blocks[0].address != 0 && offset < |data|
    requires ReadBlock(data, offset) == Ok(BlockRead(blocks[0].address, blocks[0].data, next))
    requires WdcPlan(data, next) == Plan(BlockWrites(blocks[1..]), end)
    ensures WdcPlan(data, offset) == Plan(BlockWrites(blocks), end)
  {
    PlanAt(data, offset, ReadBlock(data, offset));
  }

  /** The end of the file, or a terminator, ends the plan with nothing more written. */
  lemma EndingStops(data: seq<byte>, offset: nat, tail: seq<byte>)
    requires Ending(tail) && offset <= |data| && data[offset..] == tail
    ensures WdcPlan(data, offset) == Plan([], Ok(()))
  {
    if tail != [] {
      assert data[offset..offset + 3] == tail[..3];
      Field24IsLE(data[offset..offset + 3]);
      PlanAt(data, offset, ReadBlock(data, offset));
    }
  }

  /** Fewer than six bytes left: the header cannot be read. */
  lemma PartialHeader(data: seq<byte>, offset: nat)
    requires offset < |data| < offset + 6
    ensures WdcPlan(data, offset) == Plan([], Err(UnexpectedEnd(offset)))
  {
    PlanAt(data, offset, ReadBlock(data, offset));
  }

  /**
   * Encoded blocks are read back one by one and written in order; what the
   * bytes after them make of the plan is its end.
   */
  lemma {:induction false} DecodesBlocks(data: seq<byte>, offset: nat, blocks: seq<Block>, tail: seq<byte>,
                                         end: Result<(), LoadError>)
    requires Encodable(blocks)
    requires offset <= |data| && data[offset..] == EncodeBlocks(blocks) + tail
    requires WdcPlan(data, |data| - |tail|) == Plan([], end)
    ensures WdcPlan(data, offset) == Plan(BlockWrites(blocks), end)
    decreases |blocks|
  {
    if |blocks| > 0 {
      ReadFirstBlock(data, offset, blocks, tail);
      var next := offset + 6 + |blocks[0].data|;
      DecodesBlocks(data, next, blocks[1..], tail, end);
      FirstWrite(data, offset, blocks, next, end);
    }
  }

  /**
   * A signature and encoded blocks, then the end of the file or a
   * terminator (whose length field and any bytes after it are ignored),
   * load as the blocks' writes in file order.
   */
  lemma WdcRoundTrip(blocks: seq<Block>, tail: seq<byte>)
    requires Encodable(blocks) && Ending(tail)
    ensures WdcPlan([SIGNATURE] + EncodeBlocks(blocks) + tail, 1) == Plan(BlockWrites(blocks), Ok(()))
  {
    var data := [SIGNATURE] + EncodeBlocks(blocks) + tail;
    assert data[1..] == EncodeBlocks(blocks) + tail;
    assert data[|data| - |tail|..] == tail;
    EndingStops(data, |data| - |tail|, tail);
    DecodesBlocks(data, 1, blocks, tail, Ok(()));
  }

  /** A file that ends in the middle of a header is an error, after the blocks before it are written. */
  lemma TruncatedHeader(blocks: seq<Block>, partial: seq<byte>)
    requires Encodable(blocks) && 0 < |partial| < 6
    ensures WdcPlan([SIGNATURE] + EncodeBlocks(blocks) + partial, 1)
      == Plan(BlockWrites(blocks), Err(UnexpectedEnd(1 + |EncodeBlocks(blocks)|)))
  {
    TruncatedAt([SIGNATURE] + EncodeBlocks(blocks) + partial, blocks, partial);
  }

  lemma TruncatedAt(data: seq<byte>, blocks: seq<Block>, partial: seq<byte>)
    requires Encodable(blocks) && 0 < |partial| < 6
    requires data == [SIGNATURE] + EncodeBlocks(blocks) + partial
    ensures WdcPlan(data, 1) == Plan(BlockWrites(blocks), Err(UnexpectedEnd(1 + |EncodeBlocks(blocks)|)))
  {
    assert data[1..] == EncodeBlocks(blocks) + partial;
    var at := 1 + |EncodeBlocks(blocks)|;
    PartialHeader(data, at);
    DecodesBlocks(data, 1, blocks, partial, Err(UnexpectedEnd(at)));
  }
}
