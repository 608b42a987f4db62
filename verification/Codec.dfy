/**
 Exchange protocol v1: the packets the client (wrapper.cpp) and the server (linux-server.cpp) send each
 other, byte by byte. Each file has its own encoders and its own dispatcher; the contracts here state
 what the OTHER side's dispatcher recovers from a packet.
 */
module Codec {

  type Byte = b: int | 0 <= b < 0x100
  type UInt32 = w: int | 0 <= w < 0x1_0000_0000
  type Bytes = seq<Byte>
  type Packet = Bytes

  const CURRENT_PROTOCOL_VERSION: UInt32 := 1
  const RAW_DATA: UInt32 := 0x00
  const OPEN_DEVICE_REQUEST: UInt32 := 0x01
  const CLOSE_DEVICE_REQUEST: UInt32 := 0x02
  const ENUMERATE_REQUEST: UInt32 := 0x03
  const READ_WRITE_ERROR: UInt32 := 0x04
  const ENUMERATE_ANSWER: UInt32 := 0xFD
  const CLOSE_DEVICE_ANSWER: UInt32 := 0xFE
  const OPEN_DEVICE_ANSWER: UInt32 := 0xFF

  /** sizeof(common_header): version, type, reserved3, serial, reserved4[2]. */
  const HEADER_SIZE := 24
  /** Where the client looks for the "opened" flag of an OpenDeviceAnswer. */
  const FLAG_OFFSET := 27
  /** Bytes before the descriptors of an EnumerateAnswer. */
  const ENUMERATE_HEAD := 16

  // ---------------------------------------------------------------- words

  /** The four bytes uint32_to_buf / write_uint32 store, as div and mod; Bits proves it of masks and shifts. */
  function WordBytes(value: UInt32): (b: seq<Byte>)
    ensures |b| == 4
  {
    [value / 0x100_0000, value / 0x1_0000 % 0x100, value / 0x100 % 0x100, value % 0x100]
  }

  /** read_uint32 at offset `at`, as a sum; Bits proves that the or of the shifted bytes is this. */
  function ReadWord(p: Packet, at: nat): UInt32
    requires at + 4 <= |p|
  {
    var b0: int, b1: int, b2: int, b3: int := p[at], p[at + 1], p[at + 2], p[at + 3];
    b0 * 0x100_0000 + b1 * 0x1_0000 + b2 * 0x100 + b3
  }

  lemma Undigits(w: UInt32)
    ensures w == w / 0x100_0000 * 0x100_0000 + w / 0x1_0000 % 0x100 * 0x1_0000 + w / 0x100 % 0x100 * 0x100 + w % 0x100
  {
    var x: int := w;
    var y, z := x / 0x100, x / 0x1_0000;
    assert x == y * 0x100 + x % 0x100;
    assert z == y / 0x100 && y == z * 0x100 + y % 0x100;
    assert x / 0x100_0000 == z / 0x100 && z == z / 0x100 * 0x100 + z % 0x100;
  }

  /** Reading a written word gives the word back, wherever it was written. */
  lemma WordRoundTrip(p: Packet, at: nat, value: UInt32)
    requires at + 4 <= |p|
    requires p[at..at + 4] == WordBytes(value)
    ensures ReadWord(p, at) == value
  {
    var b := p[at..at + 4];
    assert p[at] == b[0] && p[at + 1] == b[1] && p[at + 2] == b[2] && p[at + 3] == b[3];
    Undigits(value);
  }

  lemma Digits(b0: Byte, b1: Byte, b2: Byte, b3: Byte)
    ensures var a: int, b: int, c: int := b0, b1, b2;
            WordBytes(a * 0x100_0000 + b * 0x1_0000 + c * 0x100 + b3) == [b0, b1, b2, b3]
  {
    var a: int, b: int, c: int := b0, b1, b2;
    var w := a * 0x100_0000 + b * 0x1_0000 + c * 0x100 + b3;
    assert w / 0x100 == a * 0x1_0000 + b * 0x100 + c;
    assert w / 0x1_0000 == a * 0x100 + b;
    assert w / 0x100_0000 == a;
  }

  /** Writing a read word reproduces the four bytes: reader and writer are inverse in both directions. */
  lemma BytesRoundTrip(p: Packet, at: nat)
    requires at + 4 <= |p|
    ensures WordBytes(ReadWord(p, at)) == p[at..at + 4]
  {
    Digits(p[at], p[at + 1], p[at + 2], p[at + 3]);
    assert p[at..at + 4] == [p[at], p[at + 1], p[at + 2], p[at + 3]];
  }

  /** `reply` with `bytes` copied over it at `at` (write_uint32, write_bytes, write_bool, std::copy). */
  function Overwrite(reply: Packet, at: nat, bytes: seq<Byte>): (r: Packet)
    requires at + |bytes| <= |reply|
    ensures |r| == |reply|
    ensures r[at..at + |bytes|] == bytes
    ensures r[..at] == reply[..at] && r[at + |bytes|..] == reply[at + |bytes|..]
  {
    reply[..at] + bytes + reply[at + |bytes|..]
  }

  // ---------------------------------------------------------------- dispatchers

  /** What the server's callback_data does with a packet. */
  datatype ServerMsg =
    | ToDevice(serial: UInt32, payload: seq<Byte>)
    | OpenRequest(serial: UInt32)
    | CloseRequest(serial: UInt32)
    | EnumerateRequest
    | ServerIgnores           // default branch
    | ServerAborts            // an assert fails: short packet or other version
    | ServerUndefined         // RawData shorter than its header: iterators past the end

  function ServerView(data: Packet): ServerMsg {
    if |data| < 16 || ReadWord(data, 0) != CURRENT_PROTOCOL_VERSION then ServerAborts
    else
      var command, serial := ReadWord(data, 4), ReadWord(data, 12);
      if command == RAW_DATA then
        if |data| < HEADER_SIZE then ServerUndefined else ToDevice(serial, data[HEADER_SIZE..])
      else if command == OPEN_DEVICE_REQUEST then OpenRequest(serial)
      else if command == CLOSE_DEVICE_REQUEST then CloseRequest(serial)
      else if command == ENUMERATE_REQUEST then EnumerateRequest
      else ServerIgnores
  }

  /** What the client's callback_data does with a packet; it checks neither length nor version. */
  datatype ClientMsg =
    | FromDevice(serial: UInt32, payload: seq<Byte>)
    | OpenAnswer(serial: UInt32, granted: bool)
    | EnumerateAnswer(packet: Packet)
    | DeviceGone(serial: UInt32)   // CloseDeviceAnswer or DeviceReadWriteErrorNotification
    | ClientIgnores
    | ClientThrows                 // data.at(27) out of range
    | ClientUndefined              // reads or iterators past the end

  function ClientView(data: Packet): ClientMsg {
    if |data| < 16 then ClientUndefined
    else
      var command, serial := ReadWord(data, 4), ReadWord(data, 12);
      if command == RAW_DATA then
        if |data| < HEADER_SIZE then ClientUndefined else FromDevice(serial, data[HEADER_SIZE..])
      else if command == OPEN_DEVICE_ANSWER then
        if |data| <= FLAG_OFFSET then ClientThrows else OpenAnswer(serial, data[FLAG_OFFSET] != 0)
      else if command == ENUMERATE_ANSWER then EnumerateAnswer(data)
      else if command == CLOSE_DEVICE_ANSWER || command == READ_WRITE_ERROR then DeviceGone(serial)
      else ClientIgnores
  }

  // ---------------------------------------------------------------- encoders

  /** The layout every encoder fills: version, command, a zero word, one word, then `tail`. */
  function Layout(command: UInt32, word: UInt32, tail: seq<Byte>): (p: Packet)
    ensures |p| == 16 + |tail|
  {
    WordBytes(CURRENT_PROTOCOL_VERSION) + WordBytes(command) + [0, 0, 0, 0] + WordBytes(word) + tail
  }

  /** All dispatcher reads of a laid-out packet give back what was written. */
  lemma LayoutReads(command: UInt32, word: UInt32, tail: seq<Byte>)
    ensures var p := Layout(command, word, tail);
            ReadWord(p, 0) == CURRENT_PROTOCOL_VERSION && ReadWord(p, 4) == command && ReadWord(p, 12) == word
            && p[16..] == tail
  {
    var p := Layout(command, word, tail);
    assert p[0..4] == WordBytes(CURRENT_PROTOCOL_VERSION);
    assert p[4..8] == WordBytes(command);
    assert p[12..16] == WordBytes(word);
    WordRoundTrip(p, 0, CURRENT_PROTOCOL_VERSION);
    WordRoundTrip(p, 4, command);
    WordRoundTrip(p, 12, word);
  }

  function Zeros(n: nat): seq<Byte> { seq(n, _ => 0) }

  function RawData(serial: UInt32, payload: seq<Byte>): Packet { Layout(RAW_DATA, serial, Zeros(8) + payload) }
  function OpenReq(serial: UInt32): Packet { Layout(OPEN_DEVICE_REQUEST, serial, Zeros(8)) }
  function CloseReq(serial: UInt32): Packet { Layout(CLOSE_DEVICE_REQUEST, serial, Zeros(8)) }
  function OpenAns(serial: UInt32, granted: bool): Packet {
    Layout(OPEN_DEVICE_ANSWER, serial, Zeros(11) + [if granted then 1 else 0])
  }
  function CloseAns(serial: UInt32): Packet { Layout(CLOSE_DEVICE_ANSWER, serial, Zeros(12)) }
  function ErrorNote(serial: UInt32): Packet { Layout(READ_WRITE_ERROR, serial, Zeros(8)) }

  /** The packets of the protocol in bytes: version 1, the command, the serial big-endian at byte 12, the length. */
  lemma ProtocolBytes(serial: UInt32, payload: seq<Byte>, granted: bool)
    ensures var p := RawData(serial, payload);
            p[..8] == [0, 0, 0, 1, 0, 0, 0, 0] && p[12..16] == WordBytes(serial) && p[24..] == payload
    ensures var p := OpenReq(serial); p[..8] == [0, 0, 0, 1, 0, 0, 0, 1] && p[12..16] == WordBytes(serial) && |p| == 24
    ensures var p := CloseReq(serial); p[..8] == [0, 0, 0, 1, 0, 0, 0, 2] && p[12..16] == WordBytes(serial) && |p| == 24
    ensures var p := OpenAns(serial, granted);
            p[..8] == [0, 0, 0, 1, 0, 0, 0, 0xFF] && p[12..16] == WordBytes(serial) && |p| == 28
            && p[27] == if granted then 1 else 0
    ensures var p := CloseAns(serial);
            p[..8] == [0, 0, 0, 1, 0, 0, 0, 0xFE] && p[12..16] == WordBytes(serial) && |p| == 28
    ensures var p := ErrorNote(serial);
            p[..8] == [0, 0, 0, 1, 0, 0, 0, 4] && p[12..16] == WordBytes(serial) && |p| == 24
  {
  }

  /** A vector of `len` zero bytes with version, command and one word stored at offsets 0, 4 and 12. */
  method FillHead(len: nat, command: UInt32, word: UInt32) returns (reply: Packet)
    requires len >= 16
    ensures reply == Layout(command, word, Zeros(len - 16))
  {
    reply := Zeros(len);
    reply := Overwrite(reply, 0, WordBytes(CURRENT_PROTOCOL_VERSION));
    assert reply[4..] == Zeros(len - 4);
    assert reply == WordBytes(CURRENT_PROTOCOL_VERSION) + Zeros(len - 4);
    reply := Overwrite(reply, 4, WordBytes(command));
    assert reply == WordBytes(CURRENT_PROTOCOL_VERSION) + WordBytes(command) + Zeros(len - 8);
    reply := Overwrite(reply, 12, WordBytes(word));
  }

  /** The RawData packet, built alike by DataPacket<RawData> and by bindy_write. */
  method EncodeRawData(serial: UInt32, data: seq<Byte>) returns (reply: Packet)
    ensures reply == RawData(serial, data)
    ensures ServerView(reply) == ToDevice(serial, data)
    ensures ClientView(reply) == FromDevice(serial, data)
  {
    reply := FillHead(HEADER_SIZE + |data|, RAW_DATA, serial);
    reply := Overwrite(reply, HEADER_SIZE, data);
    assert reply == RawData(serial, data);
    RawDataViews(serial, data);
  }

  lemma RawDataViews(serial: UInt32, data: seq<Byte>)
    ensures ServerView(RawData(serial, data)) == ToDevice(serial, data)
    ensures ClientView(RawData(serial, data)) == FromDevice(serial, data)
  {
    LayoutReads(RAW_DATA, serial, Zeros(8) + data);
    var p := RawData(serial, data);
    assert p[24..] == p[16..][8..];
  }

  /** The client's open request (bindy_open). */
  method EncodeOpenRequest(serial: UInt32) returns (request: Packet)
    ensures request == OpenReq(serial)
    ensures ServerView(request) == OpenRequest(serial)
  {
    request := FillHead(HEADER_SIZE, OPEN_DEVICE_REQUEST, serial);
    RequestViews(serial);
  }

  /** The client's close request (bindy_close). */
  method EncodeCloseRequest(serial: UInt32) returns (request: Packet)
    ensures request == CloseReq(serial)
    ensures ServerView(request) == CloseRequest(serial)
  {
    request := FillHead(HEADER_SIZE, CLOSE_DEVICE_REQUEST, serial);
    RequestViews(serial);
  }

  /** The client's enumerate request: 28 bytes, of which the server reads the command only. */
  method EncodeEnumerateRequest() returns (request: Packet)
    ensures |request| == 28 && ServerView(request) == EnumerateRequest
  {
    request := FillHead(7 * 4, ENUMERATE_REQUEST, 0);
    LayoutReads(ENUMERATE_REQUEST, 0, Zeros(12));
  }

  lemma RequestViews(serial: UInt32)
    ensures ServerView(OpenReq(serial)) == OpenRequest(serial)
    ensures ServerView(CloseReq(serial)) == CloseRequest(serial)
  {
    LayoutReads(OPEN_DEVICE_REQUEST, serial, Zeros(8));
    LayoutReads(CLOSE_DEVICE_REQUEST, serial, Zeros(8));
  }

  /** The server's open answer: the flag is the last of 28 bytes, where the client looks for it. */
  method EncodeOpenAnswer(serial: UInt32, granted: bool) returns (reply: Packet)
    ensures reply == OpenAns(serial, granted)
    ensures ClientView(reply) == OpenAnswer(serial, granted)
  {
    var len := HEADER_SIZE + 4;
    reply := FillHead(len, OPEN_DEVICE_ANSWER, serial);
    reply := Overwrite(reply, len - 1, [if granted then 1 else 0]);
    assert reply == OpenAns(serial, granted);
    AnswerViews(serial, granted);
  }

  method EncodeCloseAnswer(serial: UInt32) returns (reply: Packet)
    ensures reply == CloseAns(serial)
    ensures ClientView(reply) == DeviceGone(serial)
  {
    reply := FillHead(HEADER_SIZE + 4, CLOSE_DEVICE_ANSWER, serial);
    AnswerViews(serial, false);
  }

  method EncodeErrorNotification(serial: UInt32) returns (reply: Packet)
    ensures reply == ErrorNote(serial)
    ensures ClientView(reply) == DeviceGone(serial)
  {
    reply := FillHead(HEADER_SIZE, READ_WRITE_ERROR, serial);
    AnswerViews(serial, false);
  }

  lemma AnswerViews(serial: UInt32, granted: bool)
    ensures ClientView(OpenAns(serial, granted)) == OpenAnswer(serial, granted)
    ensures ClientView(CloseAns(serial)) == DeviceGone(serial)
    ensures ClientView(ErrorNote(serial)) == DeviceGone(serial)
  {
    LayoutReads(OPEN_DEVICE_ANSWER, serial, Zeros(11) + [if granted then 1 else 0]);
    LayoutReads(CLOSE_DEVICE_ANSWER, serial, Zeros(12));
    LayoutReads(READ_WRITE_ERROR, serial, Zeros(8));
    var p := OpenAns(serial, granted);
    assert p[27] == p[16..][11];
  }
}
