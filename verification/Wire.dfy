/** HushWire v3 packet framing (src/auth.rs). */
module Wire {
  import opened Wrappers

  const WIRE_VERSION: byte := 0x03
  const SESSION_ID_SIZE: nat := 8
  const COUNTER_SIZE: nat := 8
  const HANDSHAKE_HEADER_SIZE: nat := 1 + 1 + SESSION_ID_SIZE
  const TRANSPORT_HEADER_SIZE: nat := HANDSHAKE_HEADER_SIZE + COUNTER_SIZE
  const AEAD_TAG_SIZE: nat := 16
  const MIN_TRANSPORT_PACKET_SIZE: nat := TRANSPORT_HEADER_SIZE + 1 + AEAD_TAG_SIZE

  const KEEPALIVE_PROBE_PAYLOAD: seq<byte> := [0x01]
  const KEEPALIVE_ACK_PAYLOAD: seq<byte> := [0x02]

  datatype PacketKind = Transport | HandshakeInit | HandshakeResponse {
    function Code(): byte {
      match this
      case Transport => 0x00
      case HandshakeInit => 0x01
      case HandshakeResponse => 0x02
    }

    predicate IsHandshake() {
      HandshakeInit? || HandshakeResponse?
    }
  }

  function KindFromCode(code: byte): Option<PacketKind> {
    if code == 0x00 then Some(Transport)
    else if code == 0x01 then Some(HandshakeInit)
    else if code == 0x02 then Some(HandshakeResponse)
    else None
  }

  datatype MsgType = Data | Keepalive {
    function Code(): byte {
      if Data? then 0x00 else 0x01
    }
  }

  function MsgTypeFromCode(code: byte): Option<MsgType> {
    if code == 0x00 then Some(Data) else if code == 0x01 then Some(Keepalive) else None
  }

  type IdBytes = id: seq<byte> | |id| == SESSION_ID_SIZE witness [0, 0, 0, 0, 0, 0, 0, 0]

  datatype ParsedPacket =
    | ParsedHandshake(kind: PacketKind, handshakeId: IdBytes, message: seq<byte>)
    | ParsedTransport(sessionId: IdBytes, counter: u64, ciphertext: seq<byte>)

  // Big-endian numbers.

  function Power256(n: nat): (r: nat)
    ensures r >= 1
  {
    if n == 0 then 1 else 256 * Power256(n - 1)
  }

  function BigEndian(value: nat, width: nat): (bytes: seq<byte>)
    requires value < Power256(width)
    ensures |bytes| == width
  {
    if width == 0 then [] else BigEndian(value / 256, width - 1) + [value % 256]
  }

  function FromBigEndian(bytes: seq<byte>): (value: nat)
    ensures value < Power256(|bytes|)
  {
    if bytes == [] then 0 else 256 * FromBigEndian(bytes[..|bytes| - 1]) + bytes[|bytes| - 1]
  }

  lemma {:induction false} BigEndianRoundTrip(value: nat, width: nat)
    requires value < Power256(width)
    ensures FromBigEndian(BigEndian(value, width)) == value
  {
    if width > 0 {
      BigEndianRoundTrip(value / 256, width - 1);
      var bytes := BigEndian(value, width);
      assert bytes[..width - 1] == BigEndian(value / 256, width - 1);
    }
  }

  lemma {:induction false} FromBigEndianRoundTrip(bytes: seq<byte>)
    ensures BigEndian(FromBigEndian(bytes), |bytes|) == bytes
  {
    if bytes != [] {
      var last := |bytes| - 1;
      FromBigEndianRoundTrip(bytes[..last]);
      assert bytes == bytes[..last] + [bytes[last]];
    }
  }

  lemma CounterFits(counter: u64)
    ensures counter < Power256(COUNTER_SIZE)
    ensures Power256(COUNTER_SIZE) == U64_SIZE
  {
    assert Power256(4) == 0x1_0000_0000;
  }

  function CounterBytes(counter: u64): (bytes: seq<byte>)
    ensures |bytes| == COUNTER_SIZE
  {
    CounterFits(counter);
    BigEndian(counter, COUNTER_SIZE)
  }

  // The packets as byte strings.

  function Encoded(packet: ParsedPacket): seq<byte> {
    match packet
    case ParsedHandshake(kind, id, message) => [WIRE_VERSION, kind.Code()] + id + message
    case ParsedTransport(id, counter, ciphertext) =>
      [WIRE_VERSION, Transport.Code()] + id + CounterBytes(counter) + ciphertext
  }

  /** What the decoder accepts: a handshake must say something, a transport packet must hold a tag and a type byte. */
  predicate WellFormed(packet: ParsedPacket) {
    match packet
    case ParsedHandshake(kind, _, message) => kind.IsHandshake() && message != []
    case ParsedTransport(_, _, ciphertext) => |ciphertext| >= 1 + AEAD_TAG_SIZE
  }

  method EncodeHandshake(kind: PacketKind, handshakeId: IdBytes, message: seq<byte>) returns (packet: seq<byte>)
    requires kind.IsHandshake()
    ensures packet == Encoded(ParsedHandshake(kind, handshakeId, message))
  {
    packet := [];
    packet := packet + [WIRE_VERSION];
    packet := packet + [kind.Code()];
    packet := packet + handshakeId;
    packet := packet + message;
  }

  method EncodeTransport(sessionId: IdBytes, counter: u64, ciphertext: seq<byte>) returns (packet: seq<byte>)
    ensures packet == Encoded(ParsedTransport(sessionId, counter, ciphertext))
  {
    packet := [];
    packet := packet + [WIRE_VERSION];
    packet := packet + [Transport.Code()];
    packet := packet + sessionId;
    packet := packet + CounterBytes(counter);
    packet := packet + ciphertext;
  }

  function DecodePacket(packet: seq<byte>): Option<ParsedPacket> {
    if |packet| < HANDSHAKE_HEADER_SIZE || packet[0] != WIRE_VERSION then None
    else
      match KindFromCode(packet[1])
      case None => None
      case Some(kind) =>
        var id := packet[2..HANDSHAKE_HEADER_SIZE];
        if kind.IsHandshake() then
          var message := packet[HANDSHAKE_HEADER_SIZE..];
          if message == [] then None else Some(ParsedHandshake(kind, id, message))
        else if |packet| < MIN_TRANSPORT_PACKET_SIZE then None
        else
          CounterFits(0);
          var counter := FromBigEndian(packet[HANDSHAKE_HEADER_SIZE..TRANSPORT_HEADER_SIZE]);
          Some(ParsedTransport(id, counter, packet[TRANSPORT_HEADER_SIZE..]))
  }

  /** Decoding an encoded packet gives it back exactly when it is well formed; otherwise it is refused. */
  lemma EncodeThenDecode(packet: ParsedPacket)
    requires packet.ParsedHandshake? ==> packet.kind.IsHandshake()
    ensures DecodePacket(Encoded(packet)) == if WellFormed(packet) then Some(packet) else None
  {
    var bytes := Encoded(packet);
    match packet
    case ParsedHandshake(kind, id, message) =>
      assert bytes[2..HANDSHAKE_HEADER_SIZE] == id;
      assert bytes[HANDSHAKE_HEADER_SIZE..] == message;
    case ParsedTransport(id, counter, ciphertext) =>
      assert bytes[2..HANDSHAKE_HEADER_SIZE] == id;
      assert bytes[HANDSHAKE_HEADER_SIZE..TRANSPORT_HEADER_SIZE] == CounterBytes(counter);
      assert bytes[TRANSPORT_HEADER_SIZE..] == ciphertext;
      CounterFits(counter);
      BigEndianRoundTrip(counter, COUNTER_SIZE);
  }

  /** Everything the decoder accepts is the encoding of what it returns, so no two byte strings mean the same packet. */
  lemma DecodeThenEncode(bytes: seq<byte>)
    requires DecodePacket(bytes).Some?
    ensures WellFormed(DecodePacket(bytes).value)
    ensures Encoded(DecodePacket(bytes).value) == bytes
  {
    assert bytes == [bytes[0], bytes[1]] + bytes[2..HANDSHAKE_HEADER_SIZE] + bytes[HANDSHAKE_HEADER_SIZE..];
    if DecodePacket(bytes).value.ParsedTransport? {
      var field := bytes[HANDSHAKE_HEADER_SIZE..TRANSPORT_HEADER_SIZE];
      assert bytes[HANDSHAKE_HEADER_SIZE..] == field + bytes[TRANSPORT_HEADER_SIZE..];
      FromBigEndianRoundTrip(field);
    }
  }

  /**
   The bytes of a packet: version 3, the kind, eight bytes of identifier; then the handshake message, or
   the counter in eight bytes, most significant first, and the ciphertext.
   */
  lemma WireLayout(packet: ParsedPacket)
    requires packet.ParsedHandshake? ==> packet.kind.IsHandshake()
    ensures packet.ParsedTransport? ==> packet.counter < Power256(8)
    ensures Encoded(packet) ==
            match packet
            case ParsedHandshake(kind, id, message) => [3, if kind.HandshakeInit? then 1 else 2] + id + message
            case ParsedTransport(id, counter, ciphertext) => [3, 0] + id + BigEndian(counter, 8) + ciphertext
    ensures WellFormed(packet) <==>
            match packet
            case ParsedHandshake(_, _, message) => |message| >= 1
            case ParsedTransport(_, _, ciphertext) => |ciphertext| >= 17
  {
    if packet.ParsedTransport? {
      CounterFits(packet.counter);
    }
  }

  // The message type travels inside the authenticated plaintext.

  function TransportPlaintext(msgType: MsgType, payload: seq<byte>): seq<byte> {
    [msgType.Code()] + payload
  }

  /** Data is marked by a zero, a keepalive by a one. */
  lemma PlaintextLayout(payload: seq<byte>)
    ensures TransportPlaintext(Data, payload) == [0] + payload
    ensures TransportPlaintext(Keepalive, payload) == [1] + payload
  {}

  method EncodeTransportPlaintext(msgType: MsgType, payload: seq<byte>) returns (plaintext: seq<byte>)
    ensures plaintext == TransportPlaintext(msgType, payload)
  {
    plaintext := [];
    plaintext := plaintext + [msgType.Code()];
    plaintext := plaintext + payload;
  }

  function DecodeTransportPlaintext(plaintext: seq<byte>): Option<(MsgType, seq<byte>)> {
    if plaintext == [] then None
    else
      match MsgTypeFromCode(plaintext[0])
      case None => None
      case Some(msgType) => Some((msgType, plaintext[1..]))
  }

  lemma PlaintextRoundTrip(plaintext: seq<byte>, msgType: MsgType, payload: seq<byte>)
    ensures DecodeTransportPlaintext(plaintext) == Some((msgType, payload)) <==>
            plaintext == TransportPlaintext(msgType, payload)
  {
    if plaintext == TransportPlaintext(msgType, payload) {
      assert plaintext[1..] == payload;
    }
  }
}
