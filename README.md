# FoenixMgr core in Dafny

A model of the core of FoenixMgr, a command-line manager for Foenix retro
computers (C256, A2560, F256 families). It talks to the machine's debug port
over a serial line. The model covers four parts of it.

- **The debug-port protocol** (`protocol.dfy`, `checksum.dfy`, `alignment.dfy`).
  - A request is:
    - the sync byte 0x55;
    - a command byte;
    - a 24-bit big-endian address;
    - a 16-bit big-endian length;
    - the data;
    - one longitudinal redundancy check (LRC) byte.
  - A response is found by skipping to the sync byte 0xAA. Then come two status bytes, the requested data and one LRC byte that is never checked.
  - `DebugPort` is a class, and `Transfer` is proved against the pure `Request` and `Receive` functions.
  - The serial line is the class `Wire`:
    - the bytes the device will answer with are a queue given in advance;
    - every packet written, together with the outcome of the write, is logged;
    - every sleep is logged as an event.
  - On this sit:
    - the debug-mode and CPU-control operations, `GetRevision`, and block reads and writes;
    - flash erase and programming, with the 8-bit sector-to-address arithmetic;
    - the boot-source selection;
    - the read-modify-write adapter that the 68040 and 68060 need for unaligned writes.
  - The checksum covers header bytes 0 to 5 and the data. The sync byte is included; the low length byte (header byte 6) is left out. The comment beside that code (pkg/protocol/protocol.go:80) reads otherwise; the model follows the code.
- **The file-format loaders** (`loader.dfy`, `intelhex.dfy`, `srec.dfy`, `wdc.dfy`, `pgx.dfy`, `pgz.dfy`, `vectors.dfy`).
  - Each loader is a class that holds the open file and a write handler.
  - Its `Process` method is proved against a pure function. That function maps the file to a `Device.Plan`: the ordered writes the file means, and the error the load ends with.
  - The file patterns of Intel HEX and Motorola S-records are matched by hand, with the greedy semantics of Go's `regexp`.
  - The format lemmas cover:
    - round trips: a file built from records or blocks is decoded back to them;
    - error paths;
    - the reset-vector writes for each CPU.
- **The command workflows of `cmd/`** (`command.dfy`, `flash.dfy`, `upload.dfy`, `copy.dfy`).
  - The debug port is an abstract `Device.Port`. Every call on it is logged together with whether it succeeded, and any call may fail.
  - Each command checks the port, and where it has them the address, the sector and the file, before connecting. The file upload checks its format and opens its file inside the session, and bulk flashing checks each row's sector number and file inside the session. Each command runs its plan inside a session: connect, enter debug mode unless the CPU is marked stopped, and exit debug mode on return.
  - The lemmas describe each plan:
    - chunked uploads that carry exactly the file;
    - the page loop of sector programming, with 8-bit page numbers;
    - bulk sector programming in row order;
    - the RAM layout of the SD-card copy.
- **Small utilities** (`config.dfy`, `crc32.dfy`, `labels.dfy`, `display.dfy`, `bytes.dfy`).
  - The target geometry and CPU predicates.
  - The non-standard CRC-32: reflected polynomial 0xEDB88320, register starting at 0, no final complement.
  - The 64TASS label-file reader.
  - Hexadecimal parsing and formatting.

Go's fixed-width integers are ranges of `int` (`byte`, `u8`, `u16`, `u32`). Every truncating conversion and every wrap-around is written out as a remainder.

File reads, prompts and the "CPU stopped" marker are inputs:
- file contents are `Option` values, `None` when the file cannot be read;
- confirmation answers and the stopped marker are booleans.

## Model

| member | source | states |
|---|---|---|
| Checksum.CalculateLRC | pkg/protocol/checksum.go:5-11 | the result is the XOR of all bytes of the data, folded from the left (`Lrc`) |
| Checksum.LrcEmpty | pkg/protocol/checksum_test.go:11-15 | no bytes check to 0 |
| Checksum.LrcSingle | pkg/protocol/checksum_test.go:16-20 | one byte checks to itself |
| Checksum.LrcPairCancels | pkg/protocol/checksum_test.go:21-25 | two equal bytes check to 0 |
| Checksum.LrcHeaderExample | pkg/protocol/checksum_test.go:26-30 | the request header `55 00 00 10 00 00 10` checks to 0x55 |
| Checksum.LrcAppend | pkg/protocol/checksum.go:5-11 | the LRC of a concatenation is the XOR of the LRCs of its parts |
| Checksum.LrcSwap | pkg/protocol/checksum.go:5-11 | swapping two parts of the data does not change the LRC |
| Checksum.VerifyRejectsShort | pkg/protocol/checksum.go:16-18 | fewer than two bytes never verify |
| Checksum.VerifyAcceptsAppended | pkg/protocol/checksum.go:15-24 | a non-empty message followed by its LRC verifies |
| Checksum.VerifyRejectsWrongLast | pkg/protocol/checksum.go:15-24 | a message followed by any other byte does not verify |
| Checksum.VerifyExamples | pkg/protocol/checksum_test.go:59-83 | the header with 0x55 verifies, with 0x00 it does not, and `AA AA` verifies |
| Crc32.UpdateRegister | pkg/util/crc32.go:10-17 | one byte XORed into the register and eight bit steps give `Update` of the register and the byte |
| Crc32.CalculateCRC32 | pkg/util/crc32.go:5-21 | the result is the register after all the bytes in order, starting from 0 (`Crc`) |
| Crc32.FoldAppend | pkg/util/crc32.go:9-18 | the checksum of `a + b` carries on from the register left after `a` |
| Crc32.ZerosCheckToZero | pkg/util/crc32_test.go:11-20 | any run of zero bytes, the empty one included, checks to 0 |
| Crc32.ExampleCounting | pkg/util/crc32_test.go:21-25 | `01 02 03 04` checks to 0x977824D1 |
| Crc32.ExampleText | pkg/util/crc32_test.go:26-30 | "COPYFILE" checks to 0xB792616B |
| Crc32.ExampleOnes | pkg/util/crc32_test.go:31-35 | `FF FF FF FF` checks to 0xDEBB20E3 |
| Alignment.AlignedStart | pkg/protocol/alignment.go:22 | the adjusted address is a multiple of 4, at most 3 below the caller's |
| Alignment.AlignedSizeCovers | pkg/protocol/alignment.go:23-29 | the adjusted size is a multiple of 4, the aligned range covers the caller's, and it is the smallest such size |
| Alignment.OverlayContents | pkg/protocol/alignment.go:43 | after the copy the caller's bytes sit at their offset and every other byte is the block's |
| Labels.TrimSpace | pkg/util/labels.go:44 | the trimmed line is no longer than the line and starts and ends with a character that is not white space |
| Labels.TrimSpaceOf | pkg/util/labels.go:44 | trimming removes exactly the white space before and after the text |
| Labels.SpaceEnd | pkg/util/labels.go:34 | the end of the run of `\s` characters from a position: everything before it is `\s`, the next character is not |
| Labels.WordEnd | pkg/util/labels.go:34 | the end of the run of `\S` characters from a position: nothing before it is `\s`, the next character is |
| Labels.MatchesUnique | pkg/util/labels.go:34 | two matches of the pattern whose first groups have the same length are the same match |
| Labels.SearchLongest | pkg/util/labels.go:34 | the backtracking search finds a match whose first group is at least as long as that of any match within its bound |
| Labels.MatchLabelSound | pkg/util/labels.go:34-53 | what the matcher returns is a way the pattern `^(\S+)\s*=\s*\$(\S+)` matches the line |
| Labels.MatchLabelLongest | pkg/util/labels.go:34-53 | when the pattern matches at all, the matcher finds a match, and its label is the longest possible (the greedy first group) |
| Labels.MatchCanonical | pkg/util/labels.go:32-34 | a line `LABEL = $ADDRESS` with no white space in the label or the address gives that label and address |
| Labels.LabelFile.constructor | pkg/util/labels.go:17-21 | a new label file holds no labels |
| Labels.LabelFile.Load | pkg/util/labels.go:25-67 | an unreadable file is an error and changes nothing; otherwise the labels become the scan of the lines over the old labels, and the result is an error (no labels) exactly when none are held |
| Labels.LabelFile.Lookup | pkg/util/labels.go:70-76 | succeeds exactly for a held label, with its address; otherwise an error naming the label |
| Labels.LabelFile.Count | pkg/util/labels.go:79-81 | the number of distinct labels held |
| Labels.FoundAt | pkg/util/labels.go:39-56 | line `i` contributes what that line on its own gives |
| Labels.SkippedLine | pkg/util/labels.go:44-51 | blank lines, comment lines and lines the pattern does not match change no label |
| Labels.LabelLine | pkg/util/labels.go:50-55 | a label line sets its label to its address and leaves every other label alone |
| Labels.ApplyHolds | pkg/util/labels.go:39-56 | a label is held after the scan exactly when it was held before or some line gives it |
| Labels.ApplyLastWins | pkg/util/labels.go:54 | a label's address is the one on the last line that gives it |
| Labels.ApplyKeeps | pkg/util/labels.go:39-56 | a label that no line gives keeps its old address |
| Labels.CanonicalLine | pkg/util/labels.go:44-55 | a whole line `LABEL = $ADDRESS` (not a comment) gives that label and address |
| Labels.Untrimmed | pkg/util/labels.go:44 | a line with no white space at either end is its own trimming |
| Labels.CommentLine | pkg/util/labels.go:45-47 | an empty line or one starting with ';' or '#' gives no label |
| Labels.TestLine2 | pkg/util/labels_test.go:16 | the test file's line `my_var = $1234` gives that label |
| Labels.TestLine3 | pkg/util/labels_test.go:17 | `pointer = $5678` gives that label |
| Labels.TestLine4 | pkg/util/labels_test.go:18 | `vector = $ABCD` gives that label |
| Labels.TestLine7 | pkg/util/labels_test.go:21 | `data_block = $10000` gives that label |
| Labels.TestComments | pkg/util/labels_test.go:14-20 | the test file's comment and blank lines give no label |
| Labels.TestFileLabels | pkg/util/labels_test.go:14-37 | the test file loads as exactly its four labels |
| Labels.TestFileLookups | pkg/util/labels_test.go:34-68 | in the loaded test file, the count is 4, each label looks up to its address, and "nonexistent" is an error |
| Labels.CommentsOnly | pkg/util/labels_test.go:71-85 | a file of one comment holds no labels, so loading it fails |
| Display.HexText | pkg/util/display.go:52-65 | the hex text of n bytes is 3n - 1 characters long (empty for no bytes) |
| Display.FormatHex | pkg/util/display.go:52-65 | the string built pair by pair is the hex text of the data |
| Display.HexTextAt | pkg/util/display.go:58-63 | byte `i` is written as its two upper-case digits at characters 3i and 3i + 1, and a space follows every byte but the last |
| Display.HexTextDecodes | pkg/util/display.go:62 | each pair of the hex text reads back as its byte |
| Display.FormatHexExample | pkg/util/display.go:52-65 | `01 AB FF` is the text of those three bytes |
| Display.TrimPrefix | pkg/util/display.go:70 | a present prefix is removed once; otherwise the text is unchanged |
| Display.TokenLength | pkg/util/display.go:75 | the length of the run of hex digits and underscores at the front: all of them are such, the next is not |
| Display.ScanToken | pkg/util/display.go:75 | a value read is below the destination's limit |
| Display.SpaceRun | pkg/util/display.go:75 | the length of the leading white space other than newlines that `Sscanf` skips |
| Display.ScanHex | pkg/util/display.go:75 | a value read is below the destination's limit |
| Display.ScanSkipsSpace | pkg/util/display.go:75 | white space before the number does not change what is read |
| Display.ParseHexAddress | pkg/util/display.go:68-80 | an error carries the text left after the prefix strips |
| Display.ParseHexSize | pkg/util/display.go:83-95 | an error carries the text left after the prefix strips |
| Display.ScanDigits | pkg/util/display.go:75 | hex digits followed by nothing a number can contain read as their value, or fail when it does not fit |
| Display.ScanNoDigits | pkg/util/display.go:75 | no hex digit at the front, or an underscore in the token, fails |
| Display.StripOne | pkg/util/display.go:70-72 | one prefix ("", "0x", "0X" or "$") in front of digits is removed and nothing else |
| Display.StripDigits | pkg/util/display.go:70-72 | the strips remove the prefix in front of digits and leave the digits and what follows |
| Display.ParseHexAddressDigits | pkg/util/display.go:68-80 | a prefix and hex digits parse as the digits' value when it fits in 32 bits, and as an error otherwise |
| Display.ParseHexSizeDigits | pkg/util/display.go:83-95 | a prefix and hex digits parse as the digits' value when it fits in 16 bits, and as an error otherwise |
| Display.ParseNoDigits | pkg/util/display.go:68-80 | text that is empty, starts with a non-digit, or has an underscore in its token is an invalid address |
| Display.ParseSpaceDigits | pkg/util/display.go:75 | white space before the digits is skipped for both addresses and sizes |
| Display.AddressExample | pkg/util/display_test.go:14 | "1234" is the address 0x1234 |
| Display.SizeExample | pkg/util/display_test.go:56 | "ff" is the size 0xFF |
| Display.InvalidExamples | pkg/util/display_test.go:22-60 | "GHIJ" and "" are not addresses; "XYZ" and "" are not sizes |
| Display.OverflowExample | pkg/util/display.go:89-93 | "10000" does not fit a 16-bit size and is an error |
| Display.UnderscoreExample | pkg/util/display.go:75 | "12_34" is an error |
| Display.StripOrderExample | pkg/util/display.go:70-72 | "0x0X$12" loses all three prefixes, once each |
| Display.DollarThenHexMarkExample | pkg/util/display.go:70-75 | "$0x12" keeps its "0x" after the "$" strip, so it reads as the address 0 |
| Config.M68k32IsMotorola | pkg/config/config.go:119-129 | every 32-bit 680x0 part is also a 680x0 |
| Config.ToLower | pkg/config/config.go:98 | lower-casing keeps the length and maps each rune on its own |
| Config.TargetGeometry | pkg/config/config.go:97-116 | every machine's sector size is a whole number of pages (or it has no pages), and the RAM buffer is always 8 KB |
| Config.Config.constructor | pkg/config/config.go:80-89 | a configuration holds the CPU, chunk size and flash size it was given, and no flash geometry until a target is set |
| Config.Config.SetTarget | pkg/config/config.go:97-116 | the geometry becomes the one selected for the machine name; CPU, chunk size and flash size are unchanged |
| Config.TargetIgnoresCase | pkg/config/config.go:98 | names equal after lower-casing select the same geometry |
| Config.TargetFnx1591 | pkg/config/config.go:106-109 | "fnx1591", in any case, has 8 KB pages, 32 KB sectors and an 8 KB buffer |
| Config.TargetF256 | pkg/config/config.go:111-114 | "f256k" and "F256Jr" have 8 KB pages, 8 KB sectors and an 8 KB buffer |
| Config.TargetA2560 | pkg/config/config.go:100-105 | a machine outside the switch gets no pages and no sectors, with an 8 KB buffer |
| Config.UnknownTargetHasNoPages | pkg/config/config.go:100-116 | any other name leaves the target without paged flash |
| Loader.PairValue | pkg/loader/loader.go:57 | the byte made of two hex digits has the first digit as its high nibble and the second as its low one; `PairValueReads` ties it to the two-digit string's value and `DecodeEncodeHex` shows decoding undoes the encoding |
| Loader.PairValueReads | pkg/loader/loader.go:57 | a pair of hex digits makes the byte that the two-digit string reads as |
| Loader.HexStringToBytes | pkg/loader/loader.go:49-64 | the buffer filled pair by pair gives exactly what `DecodeHex` says: an odd length first, otherwise the first bad pair's position or the bytes |
| Loader.EncodeHex | pkg/loader/loader.go:49-64 | two digits per byte (the inverse used by the round trips) |
| Loader.DecodePairsOk | pkg/loader/loader.go:55-62 | a successful decode from position `i` has one byte per remaining pair, each the value of its two digits |
| Loader.DecodePairsAccepts | pkg/loader/loader.go:55-62 | hex digits from position `i` on always decode |
| Loader.DecodePairsRejects | pkg/loader/loader.go:57-60 | the first pair that is not two hex digits is the position reported |
| Loader.DecodeHexOdd | pkg/loader/loader.go:50-52 | an odd length is an error before any digit is looked at |
| Loader.DecodeHexOk | pkg/loader/loader.go:49-64 | on success the input was an even number of hex digits, and byte `j` is the value of digits `2j` and `2j + 1` |
| Loader.DecodeHexAccepts | pkg/loader/loader.go:49-64 | decoding succeeds exactly on even-length strings of hex digits, of either case |
| Loader.EncodeHexAt | pkg/loader/loader.go:49-64 | byte `j` is written as digits `2j` and `2j + 1`, high nibble first |
| Loader.DecodeEncodeHex | pkg/loader/loader.go:49-64 | decoding undoes the encoding |
| Loader.EncodeHexSlice | pkg/loader/loader.go:49-64 | the digits of bytes `j` to `k` are digits `2j` to `2k` |
| Loader.EncodeHexAppend | pkg/loader/loader.go:49-64 | encoding distributes over concatenation |
| Loader.HexValueOfEncodeHex | pkg/loader/loader.go:49-64 | the encoding read as one hex number is the big-endian value of the bytes |
| Loader.DecodeHexExamples | pkg/loader/loader.go:49-64 | "ab" and "AB" both give 0xAB, "0102" gives 01 02, "G1" fails at position 0 and "123" has an odd length |
| Loader.BaseLoader.constructor | pkg/loader/loader.go:29-33 | a new base loader has no file and no handler |
| Loader.BaseLoader.SetHandler | pkg/loader/loader.go:36-38 | sets the handler and nothing else |
| Loader.BaseLoader.Close | pkg/loader/loader.go:41-46 | closing with no file open succeeds; otherwise the result is success or a close failure |
| Vectors.SetupResetVectors | pkg/loader/vectors.go:11-27 | the handler sees exactly the writes of the plan for the CPU name, in order, up to and including the first it refuses, and the result names that write; an unknown CPU writes nothing |
| Vectors.Setup65816Vectors | pkg/loader/vectors.go:30-65 | outside bank 0 the stub is written and then the vector to 0xFF80; in bank 0 just the 16-bit vector; the first refusal stops the sequence |
| Vectors.Setup65C02Vectors | pkg/loader/vectors.go:68-100 | the reset vector, "CROSSDEV", the microkernel start and the argument length, in order, stopping at the first refusal |
| Vectors.Setup680X0Vectors | pkg/loader/vectors.go:103-117 | one write of the big-endian entry at address 4 |
| Vectors.BigEndianVector | pkg/loader/vectors.go:105-110 | the four shifted bytes are the 32-bit big-endian encoding of the entry |
| Vectors.Example65816Stub | pkg/loader/vectors.go:31-52 | entry 0x018000 gets `18 FB 5C 00 80 01` at 0xFF80 and then `80 FF` at 0xFFFC |
| Vectors.Example65816Bank0 | pkg/loader/vectors.go:53-61 | entry 0x008000 gets only `00 80` at 0xFFFC |
| Vectors.Stub65816Jumps | pkg/loader/vectors.go:31-43 | the stub is `CLC; XCE; JML` and its operand read low byte first is the entry's low 24 bits |
| Vectors.Layout65C02 | pkg/loader/vectors.go:16-17 | both spellings of the 65C02 write alike: four writes at 0xFFFC, 0x0080, 0x0088 and 0x00FA, the two start addresses equal and the entry's low 16 bits |
| Vectors.Single680X0Vector | pkg/loader/vectors.go:19-24 | every 680x0 name gets one write at address 4 whose big-endian value is the entry |
| Vectors.SupportedCpus | pkg/loader/vectors.go:11-27 | the plan ends in success exactly for the 65816, the two 65C02 spellings and the 680x0 names; any other name fails with nothing written |
| Pgx.CpuCompatibility | pkg/loader/pgx.go:98-120 | (see `Pgx.CpuCompatibilityIff`) |
| Pgx.PgxLoader.constructor | pkg/loader/pgx.go:21-25 | a new loader has no file, no handler and the given configuration |
| Pgx.PgxLoader.Open | pkg/loader/pgx.go:28-36 | a file that cannot be read is an error and changes nothing; otherwise its whole contents are kept |
| Pgx.PgxLoader.Close | pkg/loader/pgx.go:39-42 | forgets the file and succeeds |
| Pgx.PgxLoader.Process | pkg/loader/pgx.go:45-95 | no file and no handler are errors in that order; otherwise the handler sees exactly the writes of `PgxPlan` up to the first refusal, and the result says which step ended it |
| Pgx.CpuCompatibilityIff | pkg/loader/pgx.go:98-120 | the CPU id is accepted exactly when it names the configured CPU's family (1: 65816, 3: either 65C02 spelling, 2: a 680x0); a known id with the wrong CPU and an unknown id are different errors |
| Pgx.CompatibleHasVectors | pkg/loader/pgx.go:89-92 | every CPU a PGX file may target has reset vectors, so the vector step cannot fail for an unknown CPU |
| Pgx.HeaderRejects | pkg/loader/pgx.go:54-76 | a file shorter than 8 bytes, a wrong signature, a version above 0 or an incompatible CPU write nothing, checked in that order |
| Pgx.AcceptedFile | pkg/loader/pgx.go:78-92 | a valid file writes bytes 8 onward at the little-endian address in bytes 4–7, then the reset vectors for that address, and succeeds if every write does |
| Pgx.PgxRoundTrip | pkg/loader/pgx.go:45-95 | a file built from a CPU id, an address and a program loads back as that program at that address, followed by the vectors |
| Pgx.Example65816 | pkg/loader/pgx.go:85-92 | a 65816 program at 0x010000 gets its data write, then the bank-switching stub and the vector to it |
| Wdc.ReadBlock | pkg/loader/wdc.go:81-115 | a block read moves past its six header bytes; the terminator carries no data; any other block's data is exactly the bytes after its header, and the next offset follows them |
| Wdc.PlanAt | pkg/loader/wdc.go:58-75 | one pass of the block loop: a read error ends the load with that error, the terminator ends it in success, any other block is written and the scan goes on after it |
| Wdc.WdcLoader.constructor | pkg/loader/wdc.go:20-22 | a new loader has no file and no handler |
| Wdc.WdcLoader.Open | pkg/loader/wdc.go:25-38 | an unreadable file, and one that is empty or does not start with `Z`, are errors that change nothing; otherwise its contents are kept |
| Wdc.WdcLoader.Close | pkg/loader/wdc.go:41-44 | forgets the file and succeeds |
| Wdc.WdcLoader.Process | pkg/loader/wdc.go:47-78 | no file and no handler are errors in that order; otherwise the blocks are scanned from offset 1 |
| Wdc.ScanBlocks | pkg/loader/wdc.go:56-77 | the handler sees exactly the block writes of `WdcPlan` from offset 1, up to the first refusal, and the result is the plan's end or the refusal |
| Wdc.ReadBlockFields | pkg/loader/wdc.go:87-95 | the header is two 3-byte little-endian numbers, the address and the data length |
| Wdc.ReadBlockFails | pkg/loader/wdc.go:83-85 | a read fails exactly when the header runs past the end, or a non-terminator's data does; the two failures report offsets `offset` and `offset + 6` |
| Wdc.NeverWritesAddressZero | pkg/loader/wdc.go:99-102 | every write the scan issues has a non-zero 24-bit address and reports a refusal as a handler failure |
| Wdc.ReadEncodedBlock | pkg/loader/wdc.go:81-115 | an encoded block is read back as its own address and data |
| Wdc.DecodesBlocks | pkg/loader/wdc.go:58-75 | encoded blocks are read back one by one and written in file order |
| Wdc.WdcRoundTrip | pkg/loader/wdc.go:47-78 | a signature, encoded blocks and then the end of the file or a terminator (its length and anything after it ignored) load as exactly the blocks' writes, in order, and succeed |
| Wdc.TruncatedHeader | pkg/loader/wdc.go:83-85 | a file that ends inside a header writes all the blocks before it and then fails at that header's offset |
| SRec.MatchRecord | pkg/loader/srec.go:45 | a match gives a type below 16 and a non-empty run of hex digits |
| SRec.AddressField | pkg/loader/srec.go:125-126 | the 2, 3 or 4 address bytes read as one number stay below 16^(2 × bytes), so they fit in 32 bits |
| SRec.LineEffects | pkg/loader/srec.go:50-52 | one effect per line, line `i` being line number `i + 1` |
| SRec.EffectAt | pkg/loader/srec.go:50-52 | the effect at index `k` is that of line `k` under line number `k + 1` |
| SRec.SRecLoader.constructor | pkg/loader/srec.go:17-19 | a new loader has no file and no handler |
| SRec.SRecLoader.Open | pkg/loader/srec.go:22-29 | a file that cannot be opened is an error and changes nothing; otherwise its lines are kept; the handler is untouched |
| SRec.SRecLoader.Process | pkg/loader/srec.go:35-106 | no file and no handler are errors in that order; otherwise the handler sees exactly the writes of the lines' effects, in file order, up to the first failing line or refused write |
| SRec.ScanLines | pkg/loader/srec.go:50-99 | the line loop: the handler's calls and the result are those of `ScanEffects` over every line |
| SRec.ProcessLine | pkg/loader/srec.go:51-98 | one line: empty lines are skipped, a line that does not match is an error for its number, and the record type decides the rest |
| SRec.ParseDataRecord | pkg/loader/srec.go:110-145 | too few digits is an error; otherwise the data digits between address and checksum are decoded and written in one call at the address, and a refusal names the line |
| SRec.Advance | pkg/loader/srec.go:50-99 | a failing line ends the whole load with its error; any other extends what has been written by the line's calls |
| SRec.MatchRecordShape | pkg/loader/srec.go:45 | a line matches exactly when it starts with `S` and two hex digits |
| SRec.MalformedLine | pkg/loader/srec.go:60-63 | a non-empty line of any other shape is an invalid-format error for its line number |
| SRec.RecordTextMatches | pkg/loader/srec.go:45 | `S`, a type digit and a run of hex digits match as that type and exactly that run |
| SRec.DataRecordDigits | pkg/loader/srec.go:116-137 | a data record's effect is its data digits decoded, written at the value of its address digits; a bad data field fails for that line |
| SRec.DataRecordRoundTrip | pkg/loader/srec.go:110-145 | S1, S2 and S3 records write their data at the big-endian 2-, 3- or 4-byte address after the count, and neither the count nor the checksum is checked |
| SRec.ShortDataRecord | pkg/loader/srec.go:116-118 | a data record with fewer digits than count, address and checksum need is a too-short error |
| SRec.OddDataRecord | pkg/loader/srec.go:134-137 | an odd number of data digits is an invalid-data error for the line |
| SRec.RecordTypes | pkg/loader/srec.go:68-98 | S0 and S4–S9 write nothing and the load continues; types A–F are unsupported-record errors |
| SRec.SkipContinues | pkg/loader/srec.go:69-94 | a skipped line leaves the rest of the load unchanged |
| SRec.StopsAtFailure | pkg/loader/srec.go:60-98 | no line after a failing one is looked at: files that agree up to that line load alike |
| SRec.S3LineEffect | pkg/loader/srec.go:82-85 | an S3 record built for a block writes that block at its 32-bit address |
| SRec.ScanEmits | pkg/loader/srec.go:50-105 | consecutive data lines followed by a skipped last line give the blocks' writes in order, then success |
| SRec.SRecFileRoundTrip | pkg/loader/srec.go:35-106 | a header record, S3 records for some blocks and a start record load as exactly those blocks' writes in file order, and succeed at the end of the file |
| SRec.S1Example | pkg/loader/srec.go:72-75 | `S1 05 1000 AB CD` plus any checksum writes AB CD at 0x1000 |
| IntelHex.MatchRecord | pkg/loader/intelhex.go:49 | a match gives a count below 256 and data made only of hex digits |
| IntelHex.ParseUint32 | pkg/loader/intelhex.go:103-108 | parsing with the error ignored never gives more than the digits' value, gives exactly that value when it fits in 32 bits (no digits reading as 0), and gives the largest 32-bit value when it does not |
| IntelHex.ParseUint32RoundTrip | pkg/loader/intelhex.go:103-108 | up to four bytes written as hex digits parse back as their big-endian value |
| IntelHex.LineEffects | pkg/loader/intelhex.go:54-56 | one effect per line, line `i` being line number `i + 1` |
| IntelHex.ScanEffects | pkg/loader/intelhex.go:54-117 | every write of the scan has a recorded base address in force |
| IntelHex.ScanHex | pkg/loader/intelhex.go:38-124 | every write of the load has a recorded base address in force |
| IntelHex.EffectAt | pkg/loader/intelhex.go:54-56 | the effect at index `k` is that of line `k` under line number `k + 1` |
| IntelHex.IntelHexLoader.constructor | pkg/loader/intelhex.go:18-22 | a new loader has no file, no handler and base address 0 |
| IntelHex.IntelHexLoader.Open | pkg/loader/intelhex.go:25-33 | a file that cannot be opened is an error and changes nothing; otherwise its lines are kept and the base address is reset to 0 |
| IntelHex.IntelHexLoader.Process | pkg/loader/intelhex.go:38-124 | no file and no handler are errors in that order and change nothing; otherwise the handler sees exactly the writes of `ScanHex` from the current base, up to the first refused write, and the base address left behind is the one in force at that point |
| IntelHex.IntelHexLoader.ScanLines | pkg/loader/intelhex.go:54-123 | the line loop: the handler's calls, the result and the final base address are those of `ScanEffects` over every line |
| IntelHex.ParseLine | pkg/loader/intelhex.go:55-116 | one line's effect, derived as the loop body derives it, is `LineEffect` of the line |
| IntelHex.EmitCase | pkg/loader/intelhex.go:90-94 | a data record is the next write, at `base + offset` modulo 2^32, and the scan goes on at the same base |
| IntelHex.Refused | pkg/loader/intelhex.go:92-94 | a refused write ends the load with a handler failure for its line, and the base stays the one in force at that write |
| IntelHex.Finished | pkg/loader/intelhex.go:96-123 | a load that ends without a refusal has made all its writes, and the base is the scan's final one |
| IntelHex.RecordLineMatches | pkg/loader/intelhex.go:49-73 | a record line read back gives byte 0 as the count, bytes 1–2 (high first) as the offset, byte 3 as the type and the bytes between as data |
| IntelHex.DataRecordRoundTrip | pkg/loader/intelhex.go:77-94 | a data record, whatever its checksum, writes its data at its offset |
| IntelHex.ByteCountMismatchRecord | pkg/loader/intelhex.go:84-88 | a data record whose count is not its number of data bytes is a count-mismatch error naming both |
| IntelHex.EndOfFileStops | pkg/loader/intelhex.go:96-98 | `:00000001FF` stops the load |
| IntelHex.ScanEmits | pkg/loader/intelhex.go:54-98 | consecutive data lines before an end record give the blocks' writes in order, then success |
| IntelHex.DataLineEffect | pkg/loader/intelhex.go:77-94 | a data record built with the format's checksum writes its block |
| IntelHex.EmitAt | pkg/loader/intelhex.go:77-94 | a data-record line at index `k` emits its block |
| IntelHex.StopAt | pkg/loader/intelhex.go:96-98 | an end-record line at index `k` stops the load |
| IntelHex.HexFileRoundTrip | pkg/loader/intelhex.go:38-124 | data records for some blocks, then an end record, load as exactly those blocks' writes at the base plus each offset, in order; whatever follows the end record is ignored |
| IntelHex.LoadsBlocks | pkg/loader/intelhex.go:54-98 | lines that are data records up to an end record load as the blocks' writes and succeed |
| IntelHex.BodyMatches | pkg/loader/intelhex.go:49 | a body of at least eight hex digits and a two-digit checksum match as the body's fields |
| IntelHex.ChecksumIgnored | pkg/loader/intelhex.go:74 | two lines that differ only in their checksum digits match alike and have the same effect |
| IntelHex.StopsAtLine | pkg/loader/intelhex.go:96-116 | no line after an end record or a failing line is looked at: files that agree up to it load alike |
| IntelHex.EndRecordEndsLoad | pkg/loader/intelhex.go:96-98 | lines appended after an end record change nothing |
| IntelHex.EndsAt | pkg/loader/intelhex.go:96-98 | a load that reaches an end record with no failing line before it succeeds |
| IntelHex.FourDigits | pkg/loader/intelhex.go:103-108 | a 16-bit value written as four digits parses back as itself |
| IntelHex.ExtendedLinearRecord | pkg/loader/intelhex.go:106-109 | a type-04 record carrying `v` makes `v << 16` the base, whatever its checksum |
| IntelHex.ExtendedSegmentRecord | pkg/loader/intelhex.go:100-104 | a type-02 record carrying `v` makes `v << 4` the base, whatever its checksum |
| IntelHex.ExtendedRecordMatches | pkg/loader/intelhex.go:49-73 | a two-byte extended record reads back with count 2, offset 0, its type and its two data bytes |
| IntelHex.ExtendedLinearExample | pkg/loader/intelhex.go:106-109 | `:02000004ABCD11` makes 0xABCD0000 the base |
| Pgz.BlockAt | pkg/loader/pgz.go:130-166 | a block read moves past both header fields, and any block but the terminator moves the offset forward |
| Pgz.PlanAt | pkg/loader/pgz.go:72-123 | one pass of the block loop: a read error ends the load with that error, the terminator ends it in success, any other block's plan runs and the scan goes on after it |
| Pgz.ReadLittleEndianInt | pkg/loader/pgz.go:169-175 | the value is the little-endian number of the first `byteCount` bytes, or of all of them when fewer remain |
| Pgz.FieldIsLE | pkg/loader/pgz.go:138-142 | the field `BlockAt` reads is the little-endian number `readLittleEndianInt` computes |
| Pgz.ReadBlock | pkg/loader/pgz.go:130-166 | reading a block with `ReadLittleEndianInt` gives exactly `BlockAt` |
| Pgz.WriteChunks | pkg/loader/pgz.go:96-115 | the handler sees the 1 KB pieces of the block in order, each at the block's address plus its offset, up to the first refusal, which names that address |
| Pgz.WriteBlockOf | pkg/loader/pgz.go:85-122 | a block without data writes the reset vectors for its address; a data block over 1 KB is written in pieces, a smaller one in one write |
| Pgz.ScanBlocks | pkg/loader/pgz.go:70-125 | the handler sees exactly the writes of `PgzPlan` from offset 1, up to the first failing block, and the result is how that plan ends |
| Pgz.PgzLoader.constructor | pkg/loader/pgz.go:22-26 | a new loader has no file, no handler, the given configuration and no field width yet |
| Pgz.PgzLoader.Open | pkg/loader/pgz.go:29-52 | an unreadable file, an empty one, or a header byte other than `z` (4-byte fields) or `Z` (3-byte fields) is an error and changes nothing; otherwise the width is set and the contents kept |
| Pgz.PgzLoader.Close | pkg/loader/pgz.go:55-58 | forgets the file and succeeds; the field width stays |
| Pgz.PgzLoader.Process | pkg/loader/pgz.go:61-126 | no file and no handler are errors in that order; otherwise the blocks are scanned from offset 1 |
| Pgz.BlockAtFields | pkg/loader/pgz.go:137-163 | address and size are little-endian fields of the file's width; a zero size is a start block with no data; otherwise the data are the `size` bytes after the header |
| Pgz.BlockAtFails | pkg/loader/pgz.go:133-158 | a read fails exactly when the header runs past the end (even a terminator's), or the data of a block with non-zero address and size do |
| Pgz.DataWritesChunked | pkg/loader/pgz.go:94-121 | a data block over 1 KB is written as pieces of at most 1 KB, piece `i` at the address plus `i` × 1024 modulo 2^32, the pieces together being the block; a smaller block is one write |
| Pgz.ExampleSingleBlock | pkg/loader/pgz.go:61-126 | a 3-byte-field file with one 4-byte block at 0x1000 and a terminator loads as that one write |
| Pgz.FieldOfFieldBytes | pkg/loader/pgz.go:169-175 | a value written as a little-endian field of the file's width reads back as itself |
| Pgz.ReadEncodedBlock | pkg/loader/pgz.go:130-166 | an encoded block reads back as its own address and data |
| Pgz.EncodedLaid | pkg/loader/pgz.go:72-78 | encoded blocks can be read one after the other, and what follows them starts where the last ends |
| Pgz.DecodesBlocks | pkg/loader/pgz.go:72-123 | blocks laid one after the other are read back one by one, and what lies after them decides how the scan ends |
| Pgz.DecodesFile | pkg/loader/pgz.go:70-125 | the blocks encoded after the header byte are read back, and what follows them decides how the scan ends |
| Pgz.EndingStops | pkg/loader/pgz.go:72-83 | the end of the file, or a terminator, ends the scan in success with no further block |
| Pgz.PartialHeader | pkg/loader/pgz.go:133-135 | a header shorter than two fields ends the scan with an error at its offset |
| Pgz.DecodesEnded | pkg/loader/pgz.go:70-125 | encoded blocks and then an ending are read back as those blocks, and the scan succeeds |
| Pgz.DecodesTruncated | pkg/loader/pgz.go:133-135 | encoded blocks and then part of a header are read back, and the scan fails where that header starts |
| Pgz.PgzRoundTrip | pkg/loader/pgz.go:61-126 | a file of encoded blocks that ends after a block or at a terminator reads back as those blocks and loads as their plans in file order |
| Pgz.TruncatedHeader | pkg/loader/pgz.go:133-135 | a file that ends inside a block header loads the blocks before it and then fails at that header's offset |
| Protocol.LengthField | pkg/protocol/protocol.go:61-65 | with data, the length field is the data length cut to 16 bits, and without data it is the read length; what a frame reader makes of it is stated by `RequestRoundTrip` (the data length below 2^16), `RequestRoundTripNoData` (the read length) and `OversizedPayloadDoesNotDecode` (longer payloads do not read back) |
| Protocol.AddressBytes | pkg/protocol/protocol.go:72-75 | the three address bytes carry the address modulo 2^24, big-endian |
| Protocol.LengthBytes | pkg/protocol/protocol.go:77-78 | the two length bytes carry the 16-bit length, big-endian |
| Protocol.HeaderFields | pkg/protocol/protocol.go:67-78 | the header is the request sync byte, the command, the 24-bit address and the length |
| Protocol.RequestFields | pkg/protocol/protocol.go:56-99 | the packet holds sync, command, address, length field and data at their places, and its last byte is the exclusive-or of header bytes 0–5 and of the data |
| Protocol.RequestRoundTrip | pkg/protocol/protocol.go:56-99 | a write request whose payload fits the length field is read back by an independent frame reader as its command, 24-bit address, length and data |
| Protocol.RequestRoundTripNoData | pkg/protocol/protocol.go:56-99 | a request without data reads back with its read length and no payload |
| Protocol.ChecksumSkipsLowLengthByte | pkg/protocol/protocol.go:80-84 | the checksum leaves out the low length byte: two read requests whose lengths share the high byte end in the same checksum |
| Protocol.OversizedPayloadDoesNotDecode | pkg/protocol/protocol.go:63-64 | a payload of 64 KB or more is framed with a truncated length and cannot be read back |
| Protocol.BuildPacket | pkg/protocol/protocol.go:61-99 | the header and the two checksum loops build exactly `Request` |
| Protocol.AfterSync | pkg/protocol/protocol.go:110-117 | what follows the sync byte is shorter than the line |
| Protocol.AfterSyncNone | pkg/protocol/protocol.go:110-117 | no sync byte is found exactly when the line holds none |
| Protocol.AfterSyncAt | pkg/protocol/protocol.go:110-117 | the wait stops at the first sync byte |
| Protocol.AfterSyncFound | pkg/protocol/protocol.go:110-117 | a found sync byte is the first one on the line, and the rest is what follows it |
| Protocol.Receive | pkg/protocol/protocol.go:109-142 | a successful read returns exactly the requested number of data bytes |
| Protocol.ReceiveFrame | pkg/protocol/protocol.go:109-142 | noise before a response frame is skipped; the frame gives its status bytes and data whatever its checksum byte; what follows stays on the line |
| Protocol.ReceiveOkIsFrame | pkg/protocol/protocol.go:109-142 | a successful read consumed noise without sync bytes and then one whole frame: status, exactly the data, a checksum byte |
| Protocol.ReceiveWithoutSync | pkg/protocol/protocol.go:111-115 | without a sync byte on the line the read fails for want of one, and the line is drained |
| Protocol.Wire.Write | pkg/protocol/protocol.go:101 | writes at most the packet's length and logs the packet with the outcome |
| Protocol.Wire.Read | pkg/protocol/protocol.go:112-137 | reads exactly `n` bytes when they are there; otherwise fails and the bytes that did arrive are lost |
| Protocol.Exchange | pkg/protocol/protocol.go:101-142 | a write error and a short write fail before anything is read; otherwise the reply is `Receive` of the waiting input |
| Protocol.SectorAddress | pkg/protocol/protocol.go:210-236 | a sector half's address is a multiple of 64 KB |
| Protocol.SectorHalvesAdjacent | pkg/protocol/protocol.go:210-217 | the two halves of a sector are adjacent 64 KB blocks, and the first starts at block `2 × sector` modulo 256 |
| Protocol.SectorNumberWraps | pkg/protocol/protocol.go:210 | `sector*2` is computed in eight bits, so sectors 128 apart address the same blocks |
| Protocol.DebugPort.constructor | pkg/protocol/protocol.go:21-26 | a new port holds the given connection and configuration, with both status bytes zero |
| Protocol.DebugPort.Transfer | pkg/protocol/protocol.go:56-143 | one packet, exactly `Request`, is written and logged; the result, the status bytes and the unread input are `Exchange` of it |
| Protocol.DebugPort.ReadResponse | pkg/protocol/protocol.go:109-142 | the read loop yields exactly `Receive` of the waiting input and writes nothing |
| Protocol.DebugPort.EnterDebug | pkg/protocol/protocol.go:147-150 | one enter-debug request with address 0 and no data |
| Protocol.DebugPort.ExitDebug | pkg/protocol/protocol.go:154-157 | one exit-debug request |
| Protocol.DebugPort.StopCPU | pkg/protocol/protocol.go:160-163 | one stop-CPU request |
| Protocol.DebugPort.StartCPU | pkg/protocol/protocol.go:167-170 | one start-CPU request |
| Protocol.DebugPort.GetRevision | pkg/protocol/protocol.go:174-180 | one revision request; the revision is the second status byte of the reply |
| Protocol.DebugPort.ReadBlock | pkg/protocol/protocol.go:183-185 | one read request for `length` bytes; on success exactly that many bytes come back |
| Protocol.DebugPort.WriteBlock | pkg/protocol/protocol.go:189-198 | writes directly unless the CPU is a 68040 or 68060, which take the aligned path |
| Protocol.DebugPort.WriteBlock32 | pkg/protocol/alignment.go:11-52 | an aligned write goes out as one request; otherwise the read-modify-write path |
| Protocol.DebugPort.RewriteBlock | pkg/protocol/alignment.go:21-51 | the enclosing aligned block is read; a failed read or one of the wrong length ends it; otherwise the data are laid over it at `address % 4` and the block is written back |
| Protocol.DebugPort.EraseFlash | pkg/protocol/protocol.go:201-204 | one erase-flash request |
| Protocol.DebugPort.EraseSector | pkg/protocol/protocol.go:208-224 | an erase request for the first half, a one-second pause, one for the second half, another pause; the first failure ends it with no more pauses |
| Protocol.DebugPort.ProgramFlash | pkg/protocol/protocol.go:228-231 | one program-flash request at the given address |
| Protocol.DebugPort.ProgramSector | pkg/protocol/protocol.go:235-243 | one program-sector request at the sector's first half, then a two-second pause only if it succeeded |
| Protocol.DebugPort.SetBootSource | pkg/protocol/protocol.go:246-255 | 0 sends the boot-from-RAM command, 1 the boot-from-flash command, anything else fails with nothing sent |
| Protocol.AlignedReadBackTooLong | pkg/protocol/alignment.go:32 | the read length of the aligned path survives its 16-bit cast exactly when it is below 64 KB |
| Protocol.OverlayKeepsNeighbours | pkg/protocol/alignment.go:43 | an unaligned write puts the data at `address % 4` and keeps every byte around it as it was read back |
| Device.ChunksPayload | cmd/flash.go:456-476 | the pieces of a chunked write, put back together, are the data |
| Device.ChunkAt | cmd/flash.go:456-476 | piece `i` starts `i` × the chunk size after the first offset and is written at that offset from the start address, modulo 2^32 |
| Device.ChunksBounded | cmd/flash.go:461-464 | every piece is a non-empty write of at most the chunk size |
| Bytes.Field24IsLE | pkg/loader/wdc.go:88-95 | three bytes combined by shifts and OR are their little-endian value |
| Bytes.Field32IsLE | pkg/loader/pgx.go:79 | four bytes read as `binary.LittleEndian.Uint32` are their little-endian value |
| Command.ValidatePort | cmd/root.go:73-78 | a command may go on exactly when a port is named, and otherwise fails with the missing port; every command makes this check first, as the `port == ""` clauses of `AddressInputs`, `Flash.SectorInputs`, `Flash.BulkInputs`, `Copy.CopyInputs`, `Flash.EraseFlash` and `Upload.UploadFile` state: the missing-port error, with no call |
| Command.Opening | cmd/flash.go:120-137 | a session opens with the connection and then, unless the CPU is marked stopped, the enter-debug command; `Start` runs these calls, and `SessionFailed` and `SessionClosed` state what a whole session issues around them |
| Command.Start | cmd/flash.go:120-137 | the connection and the enter-debug command are issued in order, the first refusal stopping the session with its error; on success exactly those calls were accepted |
| Command.Finish | cmd/flash.go:136 | the deferred exit-debug command is issued exactly when debug mode was entered, and nothing else |
| Command.Issue | cmd/flash.go:301-303 | one call of a plan: accepted, it joins what has been done; refused, the run ends there with the call's error |
| Command.SessionFailed | cmd/flash.go:122-135 | a session whose opening failed has issued nothing more and owes no exit-debug command |
| Command.SessionClosed | cmd/flash.go:125-137 | a session that opened, ran its work and closed issued the opening calls, the work up to its first refusal, and one exit-debug command at the very end exactly when the CPU was not stopped |
| Command.UploadChunked | cmd/flash.go:456-476 | the handler sees the data in pieces of the chunk size (the last shorter), each at the next address modulo 2^32, up to the first refusal, whose error names that address |
| Command.UploadCarriesData | cmd/flash.go:456-476 | the pieces of an upload together are exactly the data |
| Command.UploadPieceAt | cmd/flash.go:460-472 | piece `i` is written at `start + i × chunkSize` modulo 2^32 and holds the data from that offset, a chunk's worth or the rest |
| Command.UploadNothing | cmd/flash.go:460 | empty data make no writes |
| Command.AddressInputs | cmd/flash.go:150-165 | a command that needs a port, a hex address and a file may go on exactly when all three are there, and then carries the parsed address and the file's bytes; the missing port is reported first, then the bad address, then the unreadable file |
| Command.ParseSector | cmd/flash.go:236-239 | a sector number is accepted exactly when it is one or more hex digits whose value is below 256, and is that value; `ParseSectorEncoded` and `SectorRoundTrip` state what this means for a number written as hex digits, and `ParseSectorDigits` that one or two digits always name a sector |
| Command.ParseSectorEncoded | cmd/flash.go:236-239 | a number written in hex digits is accepted as a sector exactly when its value is below 256, and is read as that value |
| Command.SectorRoundTrip | cmd/flash.go:236-239 | every 8-bit sector number written as two hex digits reads back as itself |
| Command.ParseSectorDigits | cmd/flash.go:236 | one or two hex digits always name a sector |
| Flash.WritesProgramNothing | cmd/flash.go:456-476 | a run of RAM writes erases and programs no flash page |
| Flash.UploadWrites | cmd/flash.go:456-476 | every call of a chunked upload is a RAM write |
| Flash.EraseFlash | cmd/flash.go:109-147 | without a port the command fails with the missing-port error and touches nothing; unconfirmed it ends successfully with no call; confirmed it runs exactly one flash erase inside a debug session |
| Flash.FlashProgramFull | cmd/flash.go:150-222 | the port, the hex address and the file are checked before anything is sent, each failure reported and nothing issued; unconfirmed nothing is issued; confirmed the session runs the upload, the erase and the program steps |
| Flash.FullBody | cmd/flash.go:202-218 | upload, flash erase and flash program are issued in order, each only after the previous succeeded, the first failure ending the command with its error |
| Flash.FullOrder | cmd/flash.go:202-218 | every call before the last two is a RAM write, the writes carry exactly the image, and the last two calls are the flash erase and then programming from the upload address |
| Flash.StartPageIsProductMod | cmd/flash.go:282-285 | the first page of a sector is its number times the pages per sector, taken modulo 256 as the 8-bit product does |
| Flash.SectorInputs | cmd/flash.go:226-252 | the sector command may go on exactly when a port is named, the flash is paged, the sector parses as an 8-bit hex number, the file is readable and its size is exactly one sector; a size mismatch reports both sizes |
| Flash.FlashProgramSector | cmd/flash.go:225-340 | every input failure is reported with nothing issued; unconfirmed nothing is issued; confirmed the session runs the page loop from the sector's first page with the RAM size as the buffer limit |
| Flash.ProgramPages | cmd/flash.go:287-336 | the page loop issues exactly the calls of the page plan, stopping at the first refused call with its error |
| Flash.PageTurn | cmd/flash.go:291-322 | one turn writes the next piece to RAM and, when the buffer offset reaches the RAM size, erases and programs the current page, advances the page and resets the offset, matching the page plan's step |
| Flash.FlushPage | cmd/flash.go:325-336 | after the loop a partly filled RAM buffer is erased and programmed as one more page, and an empty one issues nothing |
| Flash.ErasePage | cmd/flash.go:310-318 | a page is erased and then programmed, a refusal of either ending the loop with its error |
| Flash.PagePairFacts | cmd/flash.go:310-318 | erasing and programming a page carries no data and erases and programs that page, erase first |
| Flash.MoveFacts | cmd/flash.go:292-322 | one turn carries the next piece of the file and either keeps the page or erases and programs it once and moves to the next page |
| Flash.FlushFacts | cmd/flash.go:325-336 | the final flush carries no data and erases exactly the pages it programs, at most the current one |
| Flash.PagesCarryData | cmd/flash.go:292-305 | the RAM writes of the page loop carry exactly the rest of the file, in order |
| Flash.PagesErasedAreProgrammed | cmd/flash.go:292-336 | the page loop erases the same pages it programs, in the same order |
| Flash.PagesConsecutive | cmd/flash.go:289-320 | the programmed pages are consecutive from the first page on, wrapping at 256 like the 8-bit counter |
| Flash.PagesPaired | cmd/flash.go:309-318 | every erase of a page in the page loop is immediately followed by programming that same page |
| Flash.F256SectorExample | cmd/flash.go:282-336 | with 8 KiB sectors and pages, an 8 KiB RAM buffer and 4 KiB chunks, a sector is two RAM writes and then one erase and one program of the page equal to the sector number |
| Flash.BulkInputs | cmd/flash.go:344-372 | the bulk command may go on exactly when a port is named and the list was read, is not empty and has at least two fields in every row |
| Flash.FlashBulkProgram | cmd/flash.go:343-453 | every input failure is reported with nothing issued; unconfirmed nothing is issued; confirmed the session runs the optional whole-flash erase followed by the rows |
| Flash.BulkBody | cmd/flash.go:400-449 | the bulk session body issues exactly the calls of the bulk plan, stopping at the first failure |
| Flash.ProgramRows | cmd/flash.go:409-449 | the row loop issues each row's calls only after the rows before it succeeded |
| Flash.ProgramRow | cmd/flash.go:410-447 | one row checks its hex sector number and its file before any call, then uploads the file to RAM at 0 and erases (unless the flash was erased first) and programs the sector |
| Flash.UploadRow | cmd/flash.go:427-430 | a row's upload is the chunked upload at RAM address 0, a refused piece reported with the row's file name |
| Flash.UploadAndProgram | cmd/flash.go:427-446 | a row uploads its file to RAM at 0, then erases (unless the flash was erased first) and programs its sector, the first refused call ending the row with its error |
| Flash.ProgramSectorSteps | cmd/flash.go:434-446 | the sector is erased unless the whole flash was erased first, then programmed, the first refusal ending the row |
| Flash.SectorStepsFacts | cmd/flash.go:434-446 | a row's sector steps carry no data, program that sector once and erase it exactly when the flash was not erased first |
| Flash.RowFacts | cmd/flash.go:410-447 | a row with a valid sector and a readable file succeeds as planned, uploads exactly the file, programs its sector once, erases it only without the erase-first option, and ends with programming it |
| Flash.RowBadSector | cmd/flash.go:413-416 | a row whose sector is not an 8-bit hex number fails with that text before any call |
| Flash.BulkRowsUnfold | cmd/flash.go:409-449 | a valid row contributes its one sector to the programmed and erased lists ahead of the rows after it |
| Flash.BulkRowsEnd | cmd/flash.go:409-452 | when all rows are valid the loop succeeds, and the first invalid sector number after valid rows is the command's error |
| Flash.BulkRowsPrefix | cmd/flash.go:409-449 | the rows program exactly the sectors of the valid rows before the first bad one, and erase them too unless the flash was erased first |
| Flash.BulkRowsProgrammed | cmd/flash.go:409-449 | the sectors programmed by the rows are those of the valid rows before the first bad one, in order |
| Flash.BulkRowsErased | cmd/flash.go:434-440 | the sectors erased by the rows are none with the erase-first option and otherwise the programmed ones |
| Flash.BulkRowsStop | cmd/flash.go:413-416 | at a row whose sector number does not parse, no call is made |
| Flash.BulkPlanParts | cmd/flash.go:399-452 | the bulk plan ends as its rows end and programs and erases the same sectors, and with the erase-first option its first call is the whole-flash erase |
| Flash.BulkAllRows | cmd/flash.go:400-452 | with every row valid the command succeeds, programs every listed sector in order, erases them sector by sector unless the whole flash was erased first, and then starts with that erase |
| Flash.BulkBadRow | cmd/flash.go:409-416 | a bad sector number in row k fails the command with that text after programming exactly the sectors of the rows before it |
| Upload.FormatOf | cmd/upload.go:166-179 | a format name is known exactly when it is one of intelhex, srec, wdc, pgx and pgz |
| Upload.UploadFile | cmd/upload.go:140-200 | without a port nothing is issued and the missing-port error is returned; otherwise the session runs the loader of the named format over the file, an unknown format ending it with the unsupported-format error |
| Upload.RunLoader | cmd/upload.go:164-196 | the loader of the format is created, opened on the file, given the debug port as its handler and run, issuing exactly the calls of its plan |
| Upload.RunIntelHex | cmd/upload.go:167-168 | the Intel HEX loader issues exactly its plan's calls over the file's lines |
| Upload.RunSRec | cmd/upload.go:169-170 | the Motorola S-record loader issues exactly its plan's calls over the file's lines |
| Upload.RunWdc | cmd/upload.go:171-172 | the WDC binary loader issues exactly its plan's calls over the file's bytes |
| Upload.RunPgx | cmd/upload.go:173-174 | the PGX loader issues exactly its plan's calls over the file's bytes and the configured CPU |
| Upload.RunPgz | cmd/upload.go:175-176 | the PGZ loader issues exactly its plan's calls over the file's bytes and the configured CPU |
| Upload.RanLoading | cmd/upload.go:194-196 | a run of a loader's plan is a run of the command's plan with the loader's error reported as an upload failure |
| Upload.UnknownFormatCallsNothing | cmd/upload.go:177-178 | an unknown format is refused with its name before any call inside the session |
| Upload.LoadingKeepsCalls | cmd/upload.go:182-196 | the command issues exactly the loader's calls, succeeds exactly when the loader does, and reports the loader's error as an upload failure |
| Upload.IntelHexStartsAtZero | cmd/upload.go:167-168 | an Intel HEX file is scanned from base address 0 |
| Upload.PgzFieldSize | cmd/upload.go:175-176 | a PGZ file with a `z` header is read with 4-byte fields, one with a `Z` header with 3-byte fields, and any other first byte is refused when the file is opened, before any call |
| Upload.UploadBinary | cmd/upload.go:203-255 | the port, the hex address and the file are checked before connecting, each failure reported with nothing issued; otherwise the session writes the file in pieces from the address |
| Upload.WriteBinary | cmd/upload.go:241-251 | the piece loop issues exactly the planned writes, stopping at the first refused piece with its offset in the file |
| Upload.M68kInputs | cmd/upload.go:259-278 | the 68000 upload may go on exactly when a port is named, the address parses and the file is readable and at least eight bytes long, carrying the address and the file; the binary upload's errors come first, then a file shorter than eight bytes is refused |
| Upload.UploadM68kBinary | cmd/upload.go:258-321 | every input failure is reported with nothing issued; otherwise the session writes the file in pieces from the address and then its first eight bytes at address 0 |
| Upload.BinaryLayout | cmd/upload.go:242-250 | the pieces carry exactly the file, piece i holding bytes i*chunk up to the next chunk or the end at the address plus i*chunk with 32-bit wrap-around, its failure reported with that offset |
| Upload.M68kVectorsLast | cmd/upload.go:299-317 | the last write is the file's first eight bytes at address 0, after pieces that carry the whole file |
| Copy.CopyInputs | cmd/copy.go:42-58 | the copy may go on exactly when a port is named, the file is readable and it is smaller than (7 * 65536) - (9 * 1024) bytes; a file at or over the limit is refused with its size |
| Copy.CopyFile | cmd/copy.go:41-157 | every input failure is reported with nothing sent; otherwise the session writes the record to RAM and then the copy request |
| Copy.CopyBody | cmd/copy.go:85-153 | the header writes, the pieces of the contents and the signature are issued in order, the first refused write ending the command with that write's error |
| Copy.WriteHeader | cmd/copy.go:88-125 | the name, the zero byte, the four CRC bytes and the three size bytes are written in order from 0x10000, and the address returned is where the contents start |
| Copy.IssueAt | cmd/copy.go:93-153 | one write of the record is issued after the accepted ones before it, a refusal ending the plan with that write's error |
| Copy.WriteContents | cmd/copy.go:128-146 | the chunk loop issues exactly the pieces of the contents from the start address, stopping at the first refused piece |
| Copy.ContiguousAppend | cmd/copy.go:96-143 | two runs of end-to-end writes joined where the first ends stay end to end |
| Copy.ChunksContiguous | cmd/copy.go:132-146 | the pieces of the contents lie end to end from the start address |
| Copy.RecordLayout | cmd/copy.go:88-153 | the record is written in one piece from 0x10000, each write starting where the one before ended, carrying the name, a zero byte, the CRC and the size least significant byte first, and the contents; the last write is "COPYFILE" at 0x0080 |
| Copy.RecordContiguous | cmd/copy.go:88-146 | the header writes and the content pieces lie end to end |
| Copy.HeaderContiguous | cmd/copy.go:93-125 | the four header writes lie end to end and end where the contents start |
| Copy.RecordPayload | cmd/copy.go:88-146 | the record's writes carry the name, the zero byte, the CRC bytes, the size bytes and then the contents |
| Copy.HeaderPayload | cmd/copy.go:93-125 | the header writes carry the name, a zero byte, the CRC in four bytes and the size in three, least significant first |
| Copy.DataAfterName | cmd/copy.go:96-125 | the contents start eight bytes past the end of the name |
| Copy.HeaderReadsBack | cmd/copy.go:105-121 | the four CRC bytes read back as the CRC of the contents, and the three size bytes read back as the size for every file below the limit |

## Left out

- The serial and TCP connections (pkg/connection) are replaced by `Protocol.Wire` and `Device.Port`, whose reads and writes may fail; the TCP bridge (pkg/connection/bridge.go, cmd/tcp-bridge.go) is network plumbing with one goroutine per client and is not part of this model.
- File reads (`util.ReadFile`, `os.ReadFile`, `os.Open` in the loaders and `copyFile`) are inputs: the contents as bytes or lines, `None` when unreadable; the different reasons a read can fail are one error.
- The line scanner's own errors (a line longer than its buffer, `scanner.Err()` in labels.go, srec.go and intelhex.go) are not modelled: the file arrives as its lines.
- The bulk list's CSV parsing (encoding/csv) is not modelled: the rows arrive already split into fields, or `None` when the list cannot be read or parsed; the file system the rows name is a map from names to contents.
- `filepath.Base` in `copyFile` is not modelled: the base name's bytes are an input.
- Confirmation prompts (pkg/util/confirm.go) and the "CPU stopped" marker file (pkg/util/stopfile.go) are boolean inputs.
- Printed progress messages (`printInfo`), `HexDump` and the flash-size warning of `flashProgramFull` produce only text and are not modelled; the warning does not change what is sent.
- `time.Sleep` after erase and program is logged as a `Slept` event on the wire; real time is not modelled.
- Closing the connection and the deferred `Close` of a loader are not modelled; the deferred `ExitDebug` is.
- The read position of a loader's open file is not modelled: the SRec and Intel HEX loaders keep the file as its lines, so a second `Process` on the same loader scans them again, where the source's new scanner would start at the end of the file and write nothing; every caller processes a file once.
- The configuration file (`config.Load`, `ConfigPath`, the ini search and its defaults) is not part of this model; a configuration is a value with a port, a CPU, a chunk size and a target.
- The CLI wiring of cmd/root.go, cmd/port.go, cmd/dump.go, cmd/revision.go, cmd/boot.go, cmd/cpu.go, cmd/labels.go and main.go is not part of this model, apart from the missing-port check of cmd/root.go that every command makes; the 24-bit pointer decode of cmd/labels.go is left out with it.
- The Go `Loader` and `WriteHandler` interfaces are not written as a trait: each loader is its own class, and the handler is a `Device.Port` whose writes are the handler's calls.
- Every chunked loop requires a chunk size above 0: with a chunk size of 0 the source loops forever, and that case is not modelled.
- Loader.HexStringToBytes: decodes only pairs of hex digits, while `fmt.Sscanf` with `%02x` would also accept a pair such as "1G" or " 1"; every caller of the source first matches the line against a pattern of hex digits only, so no loader can pass such a pair.
- Protocol.DebugPort.WriteBlock: requires the data to be shorter than 2^32 - 3 bytes; the `uint32` wrap of the rounded-up length in the alignment adapter for larger blocks is not modelled.
- Protocol.DebugPort.WriteBlock32: the same bound as `WriteBlock` on the data length.
- Protocol.DebugPort.RewriteBlock: the same bound as `WriteBlock` on the data length.
