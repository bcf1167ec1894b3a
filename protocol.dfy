/**
 * The debug-port binary protocol (pkg/protocol): request framing, the
 * response parser, and the `DebugPort` operations built on one
 * request/response transfer.
 *
 * The serial line is a `Wire`: the bytes the device will answer with are a
 * queue given in advance, every packet written is logged together with the
 * outcome of the write (which the model leaves open), and every sleep is
 * logged as an event.
 */
module Protocol {
  import opened Wrappers
  import opened Bytes
  import opened Checksum
  import opened Alignment
  import Config

  // Command bytes (pkg/protocol/commands.go).
  const CMD_READ_MEM: byte := 0x00
  const CMD_WRITE_MEM: byte := 0x01
  const CMD_PROGRAM_FLASH: byte := 0x10
  const CMD_ERASE_FLASH: byte := 0x11
  const CMD_ERASE_SECTOR: byte := 0x12
  const CMD_PROGRAM_SECTOR: byte := 0x13
  const CMD_STOP_CPU: byte := 0x20
  const CMD_START_CPU: byte := 0x21
  const CMD_ENTER_DEBUG: byte := 0x80
  const CMD_EXIT_DEBUG: byte := 0x81
  const CMD_BOOT_RAM: byte := 0x90
  const CMD_BOOT_FLASH: byte := 0x91
  const CMD_REVISION: byte := 0xFE

  const REQUEST_SYNC: byte := 0x55
  const RESPONSE_SYNC: byte := 0xAA

  /** Pauses after flash commands, in seconds. */
  const DELAY_ERASE_SECTOR: nat := 1
  const DELAY_PROGRAM_SECTOR: nat := 2

  const BOOT_SRC_RAM: byte := 0x00
  const BOOT_SRC_FLASH: byte := 0x01

  /** Why an operation failed. */
  datatype Fault =
    | WriteError          // the connection refused the packet
    | ShortWrite          // fewer bytes written than the packet holds
    | NoSync              // the line ran dry before a 0xAA
    | NoStatus            // fewer than two status bytes
    | NoData              // fewer data bytes than requested
    | NoLrc               // no trailing checksum byte
    | ReadLengthMismatch  // the aligned read-back is not as long as asked
    | InvalidBootSource   // a boot source other than 0 or 1

  // ---------------------------------------------------------------------
  // Request framing

  /** The 16-bit length field: the data length when there is data, else the read length. */
  function LengthField(data: seq<byte>, readLength: u16): (n: u16)
    ensures |data| > 0 ==> n == |data| % TWO_16
    ensures |data| == 0 ==> n == readLength
  {
    if |data| > 0 then |data| % TWO_16 else readLength
  }

  /** Sync byte, command, 24-bit big-endian address, 16-bit big-endian length. */
  function Header(command: byte, address: u32, length: u16): (h: seq<byte>)
    ensures |h| == 7
  {
    [REQUEST_SYNC, command, Low8(address / TWO_16), Low8(address / TWO_8), Low8(address),
     Low8(length / TWO_8), Low8(length)]
  }

  /**
   * The packet `transfer` writes: header, data, then one checksum byte that
   * covers the first six header bytes and the data. The low length byte
   * (header byte 6) is not part of the checksum.
   */
  function Request(command: byte, address: u32, data: seq<byte>, readLength: u16): (p: seq<byte>)
    ensures |p| == 8 + |data|
  {
    var h := Header(command, address, LengthField(data, readLength));
    h + data + [Xor8(Lrc(h[..6]), Lrc(data))]
  }

  /** A request as the device sees it. */
  datatype Frame = Frame(command: byte, address: nat, length: nat, data: seq<byte>)

  /**
   * An independent reader of request packets: `hasData` says whether the
   * command carries a payload as long as its length field. It accepts only
   * a packet of the right length whose last byte is the checksum.
   */
  function DecodeRequest(p: seq<byte>, hasData: bool): Option<Frame> {
    if |p| < 8 || p[0] != REQUEST_SYNC then None
    else
      var length := BE(p[5..7]);
      var n := if hasData then length else 0;
      if |p| != 8 + n then None
      else if p[7 + n] != Xor8(Lrc(p[..6]), Lrc(p[7..7 + n])) then None
      else Some(Frame(p[1], BE(p[2..5]), length, p[7..7 + n]))
  }

  /** The three address bytes of the header carry the address modulo 2^24. */
  lemma AddressBytes(a: u32)
    ensures BE([Low8(a / TWO_16), Low8(a / TWO_8), Low8(a)]) == a % TWO_24
  {
    var x, y, z := Low8(a / TWO_16), Low8(a / TWO_8), Low8(a);
    var s: seq<byte> := [x, y, z];
    assert [x][..0] == [] && BE([x]) == x;
    assert [x, y][..1] == [x] && BE([x, y]) == x * TWO_8 + y;
    assert s[..2] == [x, y];
    assert BE(s) == (x * TWO_8 + y) * TWO_8 + z;
    var q := a / TWO_16;
    assert a == q * TWO_16 + (a / TWO_8 % TWO_8) * TWO_8 + a % TWO_8;
    assert q == (q / TWO_8) * TWO_8 + q % TWO_8;
    assert a == (q / TWO_8) * TWO_24 + (q % TWO_8) * TWO_16 + (a / TWO_8 % TWO_8) * TWO_8 + a % TWO_8;
  }

  /** The two length bytes of the header carry the length. */
  lemma LengthBytes(n: u16)
    ensures BE([Low8(n / TWO_8), Low8(n)]) == n
  {
    var s: seq<byte> := [Low8(n / TWO_8), Low8(n)];
    assert s[..1] == [Low8(n / TWO_8)] && s[..1][..0] == [];
  }

  lemma HeaderFields(command: byte, address: u32, length: u16)
    ensures var h := Header(command, address, length);
      h[0] == REQUEST_SYNC && h[1] == command
      && BE(h[2..5]) == address % TWO_24 && BE(h[5..7]) == length
  {
    var h := Header(command, address, length);
    assert h[2..5] == [Low8(address / TWO_16), Low8(address / TWO_8), Low8(address)];
    AddressBytes(address);
    assert h[5..7] == [Low8(length / TWO_8), Low8(length)];
    LengthBytes(length);
  }

  lemma PacketSlices(h: seq<byte>, data: seq<byte>, c: byte)
    requires |h| == 7
    ensures var p := h + data + [c];
      p[..6] == h[..6] && p[2..5] == h[2..5] && p[5..7] == h[5..7] && p[0] == h[0] && p[1] == h[1]
      && p[7..7 + |data|] == data && p[7 + |data|] == c
  {
    var p := h + data + [c];
    assert p[..7] == h;
    assert p[..7][..6] == p[..6];
  }

  /** Where each field of a request sits in the packet. */
  lemma RequestFields(command: byte, address: u32, data: seq<byte>, readLength: u16)
    ensures var p := Request(command, address, data, readLength);
      p[0] == REQUEST_SYNC && p[1] == command
      && BE(p[2..5]) == address % TWO_24
      && BE(p[5..7]) == LengthField(data, readLength)
      && p[7..7 + |data|] == data
      && p[7 + |data|] == Xor8(Lrc(p[..6]), Lrc(data))
  {
    var h := Header(command, address, LengthField(data, readLength));
    HeaderFields(command, address, LengthField(data, readLength));
    PacketSlices(h, data, Xor8(Lrc(h[..6]), Lrc(data)));
  }

  /** A write request whose payload fits the length field reads back as sent. */
  lemma RequestRoundTrip(command: byte, address: u32, data: seq<byte>, readLength: u16)
    requires 0 < |data| < TWO_16
    ensures DecodeRequest(Request(command, address, data, readLength), true)
         == Some(Frame(command, address % TWO_24, |data|, data))
  {
    RequestFields(command, address, data, readLength);
  }

  /** A request without payload reads back with its read length. */
  lemma RequestRoundTripNoData(command: byte, address: u32, readLength: u16)
    ensures DecodeRequest(Request(command, address, [], readLength), false)
         == Some(Frame(command, address % TWO_24, readLength, []))
  {
    RequestFields(command, address, [], readLength);
  }

  /**
   * The checksum leaves out the low length byte: two read requests whose
   * lengths agree in the high byte end in the same checksum byte.
   */
  lemma ChecksumSkipsLowLengthByte(command: byte, address: u32, n1: u16, n2: u16)
    requires n1 / TWO_8 == n2 / TWO_8
    ensures Request(command, address, [], n1)[7] == Request(command, address, [], n2)[7]
  {
    assert Header(command, address, n1)[..6] == Header(command, address, n2)[..6];
  }

  /** A payload of 64 KB or more is framed with a truncated length, so it cannot be read back. */
  lemma OversizedPayloadDoesNotDecode(command: byte, address: u32, data: seq<byte>, readLength: u16)
    requires |data| >= TWO_16
    ensures DecodeRequest(Request(command, address, data, readLength), true).None?
  {
    RequestFields(command, address, data, readLength);
  }

  /** The request half of `transfer`: the header, its checksum folded in two loops, the packet. */
  method BuildPacket(command: byte, address: u32, data: seq<byte>, readLength: u16) returns (packet: seq<byte>)
    ensures packet == Request(command, address, data, readLength)
  {
    var length: u16 := readLength;
    if |data| > 0 {
      length := |data| % TWO_16;
    }
    var header := [REQUEST_SYNC, command, Low8(address / TWO_16), Low8(address / TWO_8), Low8(address),
                   Low8(length / TWO_8), Low8(length)];
    assert header == Header(command, address, LengthField(data, readLength));
    var lrc: byte := 0;
    for i := 0 to 6
      invariant lrc == Lrc(header[..i])
    {
      assert header[..i + 1][..i] == header[..i];
      lrc := Xor8(lrc, header[i]);
    }
    for i := 0 to |data|
      invariant lrc == Xor8(Lrc(header[..6]), Lrc(data[..i]))
    {
      assert data[..i + 1][..i] == data[..i];
      XorAssoc(Lrc(header[..6]), Lrc(data[..i]), data[i]);
      lrc := Xor8(lrc, data[i]);
    }
    assert data[..|data|] == data;
    packet := header + data + [lrc];
  }

  // ---------------------------------------------------------------------
  // Response parsing

  /** The bytes after the first response sync byte, or `None` when the line holds none. */
  function AfterSync(input: seq<byte>): (r: Option<seq<byte>>)
    ensures r.Some? ==> |r.value| < |input|
  {
    if |input| == 0 then None
    else if input[0] == RESPONSE_SYNC then Some(input[1..])
    else AfterSync(input[1..])
  }

  /** `AfterSync` finds nothing exactly when the line holds no sync byte. */
  lemma {:induction false} AfterSyncNone(input: seq<byte>)
    ensures AfterSync(input).None? <==> forall i :: 0 <= i < |input| ==> input[i] != RESPONSE_SYNC
  {
    if |input| > 0 && input[0] != RESPONSE_SYNC {
      AfterSyncNone(input[1..]);
      assert forall i :: 1 <= i < |input| ==> input[i] == input[1..][i - 1];
    }
  }

  /** `AfterSync` stops at the first sync byte. */
  lemma {:induction false} AfterSyncAt(input: seq<byte>, k: nat)
    requires k < |input| && input[k] == RESPONSE_SYNC
    requires forall i :: 0 <= i < k ==> input[i] != RESPONSE_SYNC
    ensures AfterSync(input) == Some(input[k + 1..])
  {
    if k > 0 {
      assert input[1..][k - 1] == RESPONSE_SYNC;
      AfterSyncAt(input[1..], k - 1);
      assert input[1..][k..] == input[k + 1..];
    }
  }

  /** When `AfterSync` finds something, it is what follows the first sync byte. */
  lemma {:induction false} AfterSyncFound(input: seq<byte>)
    requires AfterSync(input).Some?
    ensures exists k :: (0 <= k < |input| && input[k] == RESPONSE_SYNC
      && (forall i :: 0 <= i < k ==> input[i] != RESPONSE_SYNC)
      && AfterSync(input).value == input[k + 1..])
  {
    if input[0] == RESPONSE_SYNC {
      assert input[0] == RESPONSE_SYNC && AfterSync(input).value == input[0 + 1..];
    } else {
      AfterSyncFound(input[1..]);
      var k :| 0 <= k < |input[1..]| && input[1..][k] == RESPONSE_SYNC
        && (forall i :: 0 <= i < k ==> input[1..][i] != RESPONSE_SYNC)
        && AfterSync(input[1..]).value == input[1..][k + 1..];
      assert forall i :: 1 <= i < k + 1 ==> input[i] == input[1..][i - 1];
      assert input[k + 1] == RESPONSE_SYNC && AfterSync(input).value == input[k + 2..];
    }
  }

  /** The result of one transfer, the status bytes it leaves, and the unread input. */
  datatype Reply = Reply(result: Result<seq<byte>, Fault>, status0: byte, status1: byte, rest: seq<byte>)

  /**
   * What the read half of `transfer` makes of the device's bytes: skip to
   * the sync byte, take two status bytes, `readLength` data bytes when it is
   * positive, then one checksum byte that is read but not checked. A read
   * that runs short consumes what is left and fails; the status bytes stay
   * zero unless both were read.
   */
  function Receive(input: seq<byte>, readLength: u16): (rep: Reply)
    ensures rep.result.Ok? ==> |rep.result.value| == readLength
  {
    match AfterSync(input)
    case None => Reply(Err(NoSync), 0, 0, [])
    case Some(s) =>
      if |s| < 2 then Reply(Err(NoStatus), 0, 0, [])
      else
        var t := s[2..];
        if readLength > 0 && |t| < readLength then Reply(Err(NoData), s[0], s[1], [])
        else
          var data := if readLength > 0 then t[..readLength] else [];
          var u := t[|data|..];
          if |u| < 1 then Reply(Err(NoLrc), s[0], s[1], [])
          else Reply(Ok(data), s[0], s[1], u[1..])
  }

  /** A response frame as the device sends it. */
  function ResponseFrame(status0: byte, status1: byte, data: seq<byte>, lrc: byte): seq<byte> {
    [RESPONSE_SYNC, status0, status1] + data + [lrc]
  }

  /**
   * Noise before the frame is skipped, the frame yields its status and data
   * whatever its checksum byte, and what follows is left on the line.
   */
  lemma ReceiveFrame(noise: seq<byte>, status0: byte, status1: byte, data: seq<byte>, lrc: byte,
                     rest: seq<byte>)
    requires forall i :: 0 <= i < |noise| ==> noise[i] != RESPONSE_SYNC
    requires |data| < TWO_16
    ensures Receive(noise + ResponseFrame(status0, status1, data, lrc) + rest, |data|)
         == Reply(Ok(data), status0, status1, rest)
  {
    var input := noise + ResponseFrame(status0, status1, data, lrc) + rest;
    var s := input[|noise| + 1..];
    AfterSyncAt(input, |noise|);
    assert s[2..][..|data|] == data;
    assert s[2..][|data|..] == [lrc] + rest;
  }

  /** A successful read consumed a whole frame: status, exactly the data, and a checksum byte. */
  lemma ReceiveOkIsFrame(input: seq<byte>, readLength: u16) returns (k: nat, lrc: byte)
    requires Receive(input, readLength).result.Ok?
    ensures k <= |input| && forall i :: 0 <= i < k ==> input[i] != RESPONSE_SYNC
    ensures var rep := Receive(input, readLength);
      input == input[..k] + ResponseFrame(rep.status0, rep.status1, rep.result.value, lrc) + rep.rest
  {
    var rep := Receive(input, readLength);
    ReceiveOkParts(input, readLength);
    var s := AfterSync(input).value;
    AfterSyncFound(input);
    k :| 0 <= k < |input| && input[k] == RESPONSE_SYNC
      && (forall i :: 0 <= i < k ==> input[i] != RESPONSE_SYNC) && s == input[k + 1..];
    var n := readLength as int;
    lrc := s[2 + n];
    FrameSplit(s, n);
    Reassemble(input, k, rep.status0, rep.status1, rep.result.value, lrc, rep.rest);
  }

  lemma Reassemble(input: seq<byte>, k: nat, s0: byte, s1: byte, d: seq<byte>, lrc: byte, rest: seq<byte>)
    requires k < |input| && input[k] == RESPONSE_SYNC
    requires input[k + 1..] == [s0, s1] + d + [lrc] + rest
    ensures input == input[..k] + ResponseFrame(s0, s1, d, lrc) + rest
  {
    assert input == input[..k] + [input[k]] + input[k + 1..];
    assert ResponseFrame(s0, s1, d, lrc) + rest == [RESPONSE_SYNC] + ([s0, s1] + d + [lrc] + rest);
  }

  lemma ReceiveOkParts(input: seq<byte>, readLength: u16)
    requires Receive(input, readLength).result.Ok?
    ensures AfterSync(input).Some?
    ensures var s, rep := AfterSync(input).value, Receive(input, readLength);
      |s| >= 3 + readLength && rep.status0 == s[0] && rep.status1 == s[1]
      && rep.result.value == s[2..2 + readLength] && rep.rest == s[3 + readLength..]
  {
  }

  lemma FrameSplit(s: seq<byte>, n: nat)
    requires |s| >= 3 + n
    ensures s == [s[0], s[1]] + s[2..2 + n] + [s[2 + n]] + s[3 + n..]
  {
    assert s == s[..2] + s[2..2 + n] + s[2 + n..];
    assert s[2 + n..] == [s[2 + n]] + s[3 + n..];
  }

  /** Without a sync byte on the line, nothing but `NoSync` can come back, and the line is drained. */
  lemma ReceiveWithoutSync(input: seq<byte>, readLength: u16)
    requires forall i :: 0 <= i < |input| ==> input[i] != RESPONSE_SYNC
    ensures Receive(input, readLength) == Reply(Err(NoSync), 0, 0, [])
  {
    AfterSyncNone(input);
  }

  // ---------------------------------------------------------------------
  // The connection

  datatype Event =
    | Sent(packet: seq<byte>, written: nat, failed: bool)
    | Slept(seconds: nat)

  /** A serial connection: bytes still to be received, and what has been done on it. */
  class Wire {
    var input: seq<byte>
    var log: seq<Event>

    constructor (input: seq<byte>)
      ensures this.input == input && log == []
    {
      this.input := input;
      log := [];
    }

    /** Writes `packet`; how many bytes go out, and whether the driver reports an error, is open. */
    method Write(packet: seq<byte>) returns (written: nat, failed: bool)
      modifies this
      ensures written <= |packet|
      ensures log == old(log) + [Sent(packet, written, failed)] && input == old(input)
    {
      written :| written <= |packet|;
      failed :| true;
      log := log + [Sent(packet, written, failed)];
    }

    /** Reads exactly `n` bytes; a timeout loses the bytes that did arrive. */
    method Read(n: nat) returns (r: Option<seq<byte>>)
      modifies this
      ensures n <= |old(input)| ==> r == Some(old(input)[..n]) && input == old(input)[n..]
      ensures n > |old(input)| ==> r == None && input == []
      ensures log == old(log)
    {
      if n <= |input| {
        r := Some(input[..n]);
        input := input[n..];
      } else {
        r := None;
        input := [];
      }
    }

    method Sleep(seconds: nat)
      modifies this
      ensures log == old(log) + [Slept(seconds)] && input == old(input)
    {
      log := log + [Slept(seconds)];
    }
  }

  /** What one written packet leads to, given the input waiting on the line. */
  function Exchange(sent: Event, input: seq<byte>, readLength: u16): (rep: Reply)
    requires sent.Sent?
    ensures sent.failed ==> rep == Reply(Err(WriteError), 0, 0, input)
    ensures !sent.failed && sent.written != |sent.packet| ==> rep == Reply(Err(ShortWrite), 0, 0, input)
    ensures !sent.failed && sent.written == |sent.packet| ==> rep == Receive(input, readLength)
  {
    if sent.failed then Reply(Err(WriteError), 0, 0, input)
    else if sent.written != |sent.packet| then Reply(Err(ShortWrite), 0, 0, input)
    else Receive(input, readLength)
  }

  /** `log1` is `log0` and one more packet, `packet`, whose exchange over `input0` gave `rep`. */
  ghost predicate Transferred(log0: seq<Event>, input0: seq<byte>, log1: seq<Event>,
                              packet: seq<byte>, readLength: u16, rep: Reply)
  {
    |log1| == |log0| + 1 && log1[..|log0|] == log0
    && log1[|log0|].Sent? && log1[|log0|].packet == packet
    && Exchange(log1[|log0|], input0, readLength) == rep
  }

  /** The error of a transfer whose data is not used. */
  function Void(r: Result<seq<byte>, Fault>): Result<(), Fault> {
    if r.Ok? then Ok(()) else Err(r.error)
  }

  /** The transfer result of an operation that reads no data. */
  function Done(r: Result<(), Fault>): Result<seq<byte>, Fault> {
    if r.Ok? then Ok([]) else Err(r.error)
  }

  /** The address of half `half` (0 or 1) of flash sector `sector`: `uint32(byte) << 16`. */
  function SectorAddress(sector: u8, half: nat): (a: u32)
    requires half <= 1
    ensures a % TWO_16 == 0
  {
    ((2 * sector + half) % TWO_8) * TWO_16
  }

  /** The two halves of a sector are adjacent 64 KB blocks. */
  lemma SectorHalvesAdjacent(sector: u8)
    ensures SectorAddress(sector, 1) == SectorAddress(sector, 0) + TWO_16
    ensures SectorAddress(sector, 0) / TWO_16 == (2 * sector) % TWO_8
  {
  }

  /** The doubling happens in eight bits, so sectors 128 apart share their flash blocks. */
  lemma SectorNumberWraps(sector: u8)
    requires sector < 128
    ensures SectorAddress(sector + 128, 0) == SectorAddress(sector, 0)
    ensures SectorAddress(sector + 128, 1) == SectorAddress(sector, 1)
  {
  }

  /** The interface to the debug port of one machine. */
  class DebugPort {
    const wire: Wire
    const config: Config.Config
    var status0: byte
    var status1: byte

    /** A new port holds its wire and configuration, both status bytes zero as after `NewDebugPort`. */
    constructor (wire: Wire, config: Config.Config)
      ensures this.wire == wire && this.config == config
      ensures status0 == 0 && status1 == 0
    {
      this.wire := wire;
      this.config := config;
      status0, status1 := 0, 0;
    }

    /** The reply state this port and its wire are in. */
    function Now(r: Result<seq<byte>, Fault>): Reply
      reads this, wire
    {
      Reply(r, status0, status1, wire.input)
    }

    /**
     * `transfer`: send one request framed as `Request` describes, then parse
     * the response as `Receive` describes.
     */
    method Transfer(command: byte, address: u32, data: seq<byte>, readLength: u16)
      returns (r: Result<seq<byte>, Fault>)
      modifies this, wire
      ensures Transferred(old(wire.log), old(wire.input), wire.log,
                          Request(command, address, data, readLength), readLength, Now(r))
    {
      status0, status1 := 0, 0;
      var packet := BuildPacket(command, address, data, readLength);
      ghost var log0, input0 := wire.log, wire.input;
      var written, failed := wire.Write(packet);
      assert wire.log[|log0|] == Sent(packet, written, failed);
      if failed {
        return Err(WriteError);
      }
      if written != |packet| {
        return Err(ShortWrite);
      }
      r := ReadResponse(readLength);
    }

    /** The read half of `transfer`, from the wait for the sync byte to the checksum byte. */
    method ReadResponse(readLength: u16) returns (r: Result<seq<byte>, Fault>)
      requires status0 == 0 && status1 == 0
      modifies this, wire
      ensures Now(r) == Receive(old(wire.input), readLength)
      ensures wire.log == old(wire.log)
    {
      ghost var input0 := wire.input;
      var sync: byte := 0;
      while sync != RESPONSE_SYNC
        invariant wire.log == old(wire.log)
        invariant status0 == 0 && status1 == 0
        invariant sync != RESPONSE_SYNC ==> AfterSync(input0) == AfterSync(wire.input)
        invariant sync == RESPONSE_SYNC ==> AfterSync(input0) == Some(wire.input)
        decreases |wire.input|
      {
        ghost var before := wire.input;
        var buf := wire.Read(1);
        if buf.None? {
          return Err(NoSync);
        }
        sync := buf.value[0];
        assert before == [sync] + wire.input;
      }
      ghost var s := wire.input;

      var statusBytes := wire.Read(2);
      if statusBytes.None? {
        return Err(NoStatus);
      }
      status0, status1 := statusBytes.value[0], statusBytes.value[1];
      assert wire.input == s[2..];

      var readBytes: seq<byte> := [];
      if readLength > 0 {
        var got := wire.Read(readLength);
        if got.None? {
          return Err(NoData);
        }
        readBytes := got.value;
      }
      assert wire.input == s[2..][|readBytes|..];

      var checksum := wire.Read(1);
      if checksum.None? {
        return Err(NoLrc);
      }
      return Ok(readBytes);
    }

    method EnterDebug() returns (r: Result<(), Fault>)
      modifies this, wire
      ensures Transferred(old(wire.log), old(wire.input), wire.log,
                          Request(CMD_ENTER_DEBUG, 0, [], 0), 0, Now(Done(r)))
    {
      var t := Transfer(CMD_ENTER_DEBUG, 0, [], 0);
      r := Void(t);
    }

    method ExitDebug() returns (r: Result<(), Fault>)
      modifies this, wire
      ensures Transferred(old(wire.log), old(wire.input), wire.log,
                          Request(CMD_EXIT_DEBUG, 0, [], 0), 0, Now(Done(r)))
    {
      var t := Transfer(CMD_EXIT_DEBUG, 0, [], 0);
      r := Void(t);
    }

    method StopCPU() returns (r: Result<(), Fault>)
      modifies this, wire
      ensures Transferred(old(wire.log), old(wire.input), wire.log,
                          Request(CMD_STOP_CPU, 0, [], 0), 0, Now(Done(r)))
    {
      var t := Transfer(CMD_STOP_CPU, 0, [], 0);
      r := Void(t);
    }

    method StartCPU() returns (r: Result<(), Fault>)
      modifies this, wire
      ensures Transferred(old(wire.log), old(wire.input), wire.log,
                          Request(CMD_START_CPU, 0, [], 0), 0, Now(Done(r)))
    {
      var t := Transfer(CMD_START_CPU, 0, [], 0);
      r := Void(t);
    }

    /** The revision code is the second status byte of the reply. */
    method GetRevision() returns (r: Result<byte, Fault>)
      modifies this, wire
      ensures r.Ok? ==> r.value == status1
      ensures Transferred(old(wire.log), old(wire.input), wire.log,
                          Request(CMD_REVISION, 0, [], 0), 0,
                          Now(if r.Ok? then Ok([]) else Err(r.error)))
    {
      var t := Transfer(CMD_REVISION, 0, [], 0);
      if t.Err? {
        return Err(t.error);
      }
      return Ok(status1);
    }

    method ReadBlock(address: u32, length: u16) returns (r: Result<seq<byte>, Fault>)
      modifies this, wire
      ensures r.Ok? ==> |r.value| == length
      ensures Transferred(old(wire.log), old(wire.input), wire.log,
                          Request(CMD_READ_MEM, address, [], length), length, Now(r))
    {
      r := Transfer(CMD_READ_MEM, address, [], length);
    }

    /** Writes directly, unless the CPU is a 68040 or 68060, which take aligned writes only. */
    method WriteBlock(address: u32, data: seq<byte>) returns (r: Result<(), Fault>)
      requires |data| + 3 < TWO_32
      modifies this, wire
      ensures !config.CPUIsM68k32() ==>
        Transferred(old(wire.log), old(wire.input), wire.log,
                    Request(CMD_WRITE_MEM, address, data, 0), 0, Now(Done(r)))
      ensures config.CPUIsM68k32() ==> WroteAligned(address, data, old(wire.log), old(wire.input), r)
    {
      if config.CPUIsM68k32() {
        r := WriteBlock32(address, data);
        return;
      }
      var t := Transfer(CMD_WRITE_MEM, address, data, 0);
      r := Void(t);
    }

    /**
     * What `WriteBlock32` did, given the wire's log and input before it: an
     * aligned write goes out directly, anything else takes the
     * read-modify-write path.
     */
    ghost predicate WroteAligned(address: u32, data: seq<byte>, log0: seq<Event>, input0: seq<byte>,
                                 r: Result<(), Fault>)
      reads this, wire
    {
      if IsAligned(address, |data|) then
        Transferred(log0, input0, wire.log, Request(CMD_WRITE_MEM, address, data, 0), 0, Now(Done(r)))
      else
        RewroteBlock(address, data, log0, input0, r)
    }

    /**
     * The read-modify-write path: the enclosing aligned block is read, its
     * length is checked, `data` is laid over it at `address % 4`, and the
     * block is written back; the first failure ends it.
     */
    ghost predicate RewroteBlock(address: u32, data: seq<byte>, log0: seq<Event>, input0: seq<byte>,
                                 r: Result<(), Fault>)
      reads this, wire
    {
      var start := AlignedStart(address);
      var size := AlignedSize(address, |data|);
      var n := |log0|;
      n < |wire.log| && wire.log[..n] == log0 && wire.log[n].Sent?
      && wire.log[n].packet == Request(CMD_READ_MEM, start, [], size % TWO_16)
      && var rep := Exchange(wire.log[n], input0, size % TWO_16);
      if rep.result.Err? then
        wire.log == log0 + [wire.log[n]] && Now(Done(r)) == rep
      else if |rep.result.value| != size then
        wire.log == log0 + [wire.log[n]] && r == Err(ReadLengthMismatch)
        && status0 == rep.status0 && status1 == rep.status1 && wire.input == rep.rest
      else
        size >= address % 4 + |data|
        && Transferred(log0 + [wire.log[n]], rep.rest, wire.log,
                       Request(CMD_WRITE_MEM, start, Overlay(rep.result.value, address % 4, data), 0),
                       0, Now(Done(r)))
    }

    /** `WriteBlock32`: writes for CPUs that need 32-bit aligned transactions. */
    method WriteBlock32(address: u32, data: seq<byte>) returns (r: Result<(), Fault>)
      requires |data| + 3 < TWO_32
      modifies this, wire
      ensures WroteAligned(address, data, old(wire.log), old(wire.input), r)
    {
      var size := |data|;
      var addressAlign := address % 4;
      if addressAlign == 0 && size % 4 == 0 {
        var t := Transfer(CMD_WRITE_MEM, address, data, 0);
        r := Void(t);
        return;
      }
      r := RewriteBlock(address, data);
    }

    /** The unaligned branch of `WriteBlock32`. */
    method RewriteBlock(address: u32, data: seq<byte>) returns (r: Result<(), Fault>)
      requires |data| + 3 < TWO_32
      modifies this, wire
      ensures RewroteBlock(address, data, old(wire.log), old(wire.input), r)
    {
      var size := |data|;
      var addressAlign := address % 4;
      var adjustedAddress := address - addressAlign;
      var adjustedSize := size + addressAlign;
      var sizeAlign := adjustedSize % 4;
      if sizeAlign > 0 {
        adjustedSize := adjustedSize + (4 - sizeAlign);
      }
      assert adjustedSize == AlignedSize(address, |data|);

      ghost var log0 := wire.log;
      var block := ReadBlock(adjustedAddress, adjustedSize % TWO_16);
      ghost var log1 := wire.log;
      if block.Err? {
        return Err(block.error);
      }
      if |block.value| != adjustedSize {
        return Err(ReadLengthMismatch);
      }
      AlignedSizeCovers(address, |data|);
      var buffer := Overlay(block.value, addressAlign, data);
      var t := Transfer(CMD_WRITE_MEM, adjustedAddress, buffer, 0);
      assert log1 == log0 + [log1[|log0|]];
      r := Void(t);
    }

    method EraseFlash() returns (r: Result<(), Fault>)
      modifies this, wire
      ensures Transferred(old(wire.log), old(wire.input), wire.log,
                          Request(CMD_ERASE_FLASH, 0, [], 0), 0, Now(Done(r)))
    {
      var t := Transfer(CMD_ERASE_FLASH, 0, [], 0);
      r := Void(t);
    }

    /**
     * `EraseSector`: erase both 64 KB halves of the sector, pausing a second
     * after each; the first failure ends the operation.
     */
    method EraseSector(sector: u8) returns (r: Result<(), Fault>)
      modifies this, wire
      ensures ErasedSector(sector, old(wire.log), old(wire.input), r)
    {
      ghost var log0, input0 := wire.log, wire.input;
      var t1 := Transfer(CMD_ERASE_SECTOR, SectorAddress(sector, 0), [], 0);
      if t1.Err? {
        return Err(t1.error);
      }
      ghost var log1 := wire.log;
      wire.Sleep(DELAY_ERASE_SECTOR);
      ghost var log2, input2 := wire.log, wire.input;
      var t2 := Transfer(CMD_ERASE_SECTOR, SectorAddress(sector, 1), [], 0);
      assert log2[..|log0|] == log0 && log2[|log0|] == log1[|log0|];
      if t2.Err? {
        r := Err(t2.error);
        assert wire.log[..|log0|] == log0 && wire.log[|log0|] == log1[|log0|];
        assert wire.log == log0 + [wire.log[|log0|], Slept(DELAY_ERASE_SECTOR), wire.log[|log0| + 2]];
        return;
      }
      wire.Sleep(DELAY_ERASE_SECTOR);
      r := Ok(());
      assert wire.log[..|log0|] == log0 && wire.log[|log0|] == log1[|log0|];
      assert wire.log == log0 + [wire.log[|log0|], Slept(DELAY_ERASE_SECTOR), wire.log[|log0| + 2],
                                 Slept(DELAY_ERASE_SECTOR)];
    }

    /** The log of `EraseSector(sector)` after `log0`, with `input0` waiting on the line. */
    ghost predicate ErasedSector(sector: u8, log0: seq<Event>, input0: seq<byte>, r: Result<(), Fault>)
      reads this, wire
    {
      var n := |log0|;
      n < |wire.log| && wire.log[..n] == log0 && wire.log[n].Sent?
      && wire.log[n].packet == Request(CMD_ERASE_SECTOR, SectorAddress(sector, 0), [], 0)
      && var rep1 := Exchange(wire.log[n], input0, 0);
      if rep1.result.Err? then
        wire.log == log0 + [wire.log[n]] && Now(Done(r)) == rep1
      else
        n + 2 < |wire.log| && wire.log[n + 2].Sent?
        && wire.log[n + 2].packet == Request(CMD_ERASE_SECTOR, SectorAddress(sector, 1), [], 0)
        && var rep2 := Exchange(wire.log[n + 2], rep1.rest, 0);
        Now(Done(r)) == rep2
        && wire.log == log0 + [wire.log[n], Slept(DELAY_ERASE_SECTOR), wire.log[n + 2]]
                       + (if rep2.result.Ok? then [Slept(DELAY_ERASE_SECTOR)] else [])
    }

    method ProgramFlash(address: u32) returns (r: Result<(), Fault>)
      modifies this, wire
      ensures Transferred(old(wire.log), old(wire.input), wire.log,
                          Request(CMD_PROGRAM_FLASH, address, [], 0), 0, Now(Done(r)))
    {
      var t := Transfer(CMD_PROGRAM_FLASH, address, [], 0);
      r := Void(t);
    }

    /** `ProgramSector`: one program command at the sector's first half, then a two-second pause. */
    method ProgramSector(sector: u8) returns (r: Result<(), Fault>)
      modifies this, wire
      ensures var n := |old(wire.log)|;
        n < |wire.log| && wire.log[..n] == old(wire.log) && wire.log[n].Sent?
        && wire.log[n].packet == Request(CMD_PROGRAM_SECTOR, SectorAddress(sector, 0), [], 0)
        && Now(Done(r)) == Exchange(wire.log[n], old(wire.input), 0)
        && wire.log == old(wire.log) + [wire.log[n]] + (if r.Ok? then [Slept(DELAY_PROGRAM_SECTOR)] else [])
    {
      var t := Transfer(CMD_PROGRAM_SECTOR, SectorAddress(sector, 0), [], 0);
      if t.Err? {
        return Err(t.error);
      }
      ghost var log1 := wire.log;
      wire.Sleep(DELAY_PROGRAM_SECTOR);
      r := Ok(());
      assert wire.log == log1 + [Slept(DELAY_PROGRAM_SECTOR)];
    }

    /** Boot source 0 selects the RAM tables, 1 the flash tables; any other value is refused unsent. */
    method SetBootSource(source: byte) returns (r: Result<(), Fault>)
      modifies this, wire
      ensures source == BOOT_SRC_RAM ==>
        Transferred(old(wire.log), old(wire.input), wire.log,
                    Request(CMD_BOOT_RAM, 0, [], 0), 0, Now(Done(r)))
      ensures source == BOOT_SRC_FLASH ==>
        Transferred(old(wire.log), old(wire.input), wire.log,
                    Request(CMD_BOOT_FLASH, 0, [], 0), 0, Now(Done(r)))
      ensures source != BOOT_SRC_RAM && source != BOOT_SRC_FLASH ==>
        r == Err(InvalidBootSource) && unchanged(this, wire)
    {
      if source == BOOT_SRC_RAM {
        var t := Transfer(CMD_BOOT_RAM, 0, [], 0);
        r := Void(t);
      } else if source == BOOT_SRC_FLASH {
        var t := Transfer(CMD_BOOT_FLASH, 0, [], 0);
        r := Void(t);
      } else {
        r := Err(InvalidBootSource);
      }
    }
  }

  /** A read longer than 64 KB minus one always fails the length check of the aligned path. */
  lemma AlignedReadBackTooLong(address: u32, size: nat)
    ensures (AlignedSize(address, size) % TWO_16 == AlignedSize(address, size))
        <==> AlignedSize(address, size) < TWO_16
  {
  }

  /** An unaligned write keeps the unwritten neighbours that were read back. */
  lemma OverlayKeepsNeighbours(block: seq<byte>, address: u32, data: seq<byte>)
    requires |block| == AlignedSize(address, |data|)
    ensures address % 4 + |data| <= |block|
    ensures var b := Overlay(block, address % 4, data);
      b[address % 4..address % 4 + |data|] == data
      && (forall i :: 0 <= i < address % 4 ==> b[i] == block[i])
      && (forall i :: address % 4 + |data| <= i < |block| ==> b[i] == block[i])
  {
    AlignedSizeCovers(address, |data|);
    OverlayContents(block, address % 4, data);
  }
}
