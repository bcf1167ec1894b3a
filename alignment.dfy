/**
 * Address and size arithmetic of the 32-bit alignment adapter
 * (pkg/protocol/alignment.go), and the buffer that its read-modify-write
 * path writes back.
 */
module Alignment {
  import opened Bytes

  /** `address % 4 == 0 && size % 4 == 0`: the adapter writes directly. */
  predicate IsAligned(address: u32, size: nat) {
    address % 4 == 0 && size % 4 == 0
  }

  /** `address - address % 4`. */
  function AlignedStart(address: u32): (a: u32)
    ensures a % 4 == 0 && a <= address < a + 4
  {
    address - address % 4
  }

  /** `size + address % 4`, rounded up to the next multiple of 4. */
  function AlignedSize(address: u32, size: nat): (n: nat)
  {
    var adjusted := size + address % 4;
    if adjusted % 4 > 0 then adjusted + (4 - adjusted % 4) else adjusted
  }

  /** The aligned transaction covers the caller's range and is the smallest one that does. */
  lemma AlignedSizeCovers(address: u32, size: nat)
    ensures AlignedSize(address, size) % 4 == 0
    ensures AlignedStart(address) + AlignedSize(address, size) >= address + size
    ensures AlignedSize(address, size) < size + address % 4 + 4
    ensures AlignedSize(address, size) >= size + address % 4
  {
  }

  /**
   * `copy(block[offset:], data)` when the block has room for all of `data`:
   * the block with `data` laid over it from `offset`.
   */
  function Overlay(block: seq<byte>, offset: nat, data: seq<byte>): (r: seq<byte>)
    requires offset + |data| <= |block|
    ensures |r| == |block|
  {
    block[..offset] + data + block[offset + |data|..]
  }

  /** Inside the overlaid range the bytes are the caller's, outside they are the block's. */
  lemma OverlayContents(block: seq<byte>, offset: nat, data: seq<byte>)
    requires offset + |data| <= |block|
    ensures Overlay(block, offset, data)[offset..offset + |data|] == data
    ensures forall i :: 0 <= i < offset ==> Overlay(block, offset, data)[i] == block[i]
    ensures forall i :: offset + |data| <= i < |block| ==> Overlay(block, offset, data)[i] == block[i]
  {
    var r := Overlay(block, offset, data);
    assert r[offset..offset + |data|] == data;
  }
}
