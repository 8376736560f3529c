/** Big-endian numbers and the packet format: a 30-byte header and a payload. */
module Codec {
  import opened Basics
  import opened Net

  // Big-endian numbers

  function ToBytes(n: nat, width: nat): (b: seq<u8>)
    ensures |b| == width
  {
    if width == 0 then [] else ToBytes(n / 256, width - 1) + [n % 256]
  }

  function FromBytes(b: seq<u8>): nat {
    if b == [] then 0 else FromBytes(b[..|b| - 1]) * 256 + b[|b| - 1]
  }

  /** One more than the largest number of `width` bytes. */
  function Span(width: nat): nat {
    if width == 0 then 1 else 256 * Span(width - 1)
  }

  lemma {:induction false} FromToBytes(n: nat, width: nat)
    requires n < Span(width)
    ensures FromBytes(ToBytes(n, width)) == n
  {
    if width > 0 {
      FromToBytes(n / 256, width - 1);
      assert ToBytes(n, width)[..width - 1] == ToBytes(n / 256, width - 1);
    }
  }

  lemma {:induction false} ToFromBytes(b: seq<u8>)
    ensures FromBytes(b) < Span(|b|)
    ensures ToBytes(FromBytes(b), |b|) == b
  {
    if b != [] {
      ToFromBytes(b[..|b| - 1]);
    }
  }

  lemma SpanValues()
    ensures Span(1) == 256 && Span(4) == U32_MAX + 1 && Span(8) == U64_MAX + 1 && Span(16) == U128_MAX + 1
  {
    assert Span(2) == 0x1_0000;
    assert Span(3) == 0x100_0000;
    assert Span(5) == 0x100_0000_0000;
    assert Span(6) == 0x1_0000_0000_0000;
    assert Span(7) == 0x100_0000_0000_0000;
    assert Span(9) == 0x100 * Span(8);
    assert Span(10) == 0x100 * Span(9);
    assert Span(11) == 0x100 * Span(10);
    assert Span(12) == 0x100 * Span(11);
    assert Span(13) == 0x100 * Span(12);
    assert Span(14) == 0x100 * Span(13);
    assert Span(15) == 0x100 * Span(14);
  }

  function U32From(b: seq<u8>): u32
    requires |b| == 4
  {
    ToFromBytes(b);
    SpanValues();
    FromBytes(b)
  }

  function U64From(b: seq<u8>): u64
    requires |b| == 8
  {
    ToFromBytes(b);
    SpanValues();
    FromBytes(b)
  }

  function SessionIdFrom(b: seq<u8>): SessionId
    requires |b| == 16
  {
    ToFromBytes(b);
    SpanValues();
    FromBytes(b)
  }

  // Packets

  const VERSION: u8 := 31
  const HEADER_LEN: nat := 30

  datatype PacketKind = Handshake | Data | Rekey | Close | DataTap | Keepalive

  datatype ProtocolError =
    | TruncatedHeader | UnsupportedVersion(major: nat, minor: nat) | UnknownPacketKind(kind: u8) | InvalidHandshake

  datatype Header = Header(kind: PacketKind, keyPhase: u32, sequence: u64, sessionId: SessionId)

  datatype Packet = Packet(header: Header, payload: seq<u8>)

  function KindByte(k: PacketKind): u8 {
    match k
    case Handshake => 1
    case Data => 2
    case Rekey => 3
    case Close => 4
    case DataTap => 5
    case Keepalive => 6
  }

  function KindFrom(b: u8): Result<PacketKind, ProtocolError> {
    if b == 1 then Ok(Handshake)
    else if b == 2 then Ok(Data)
    else if b == 3 then Ok(Rekey)
    else if b == 4 then Ok(Close)
    else if b == 5 then Ok(DataTap)
    else if b == 6 then Ok(Keepalive)
    else Err(UnknownPacketKind(b))
  }

  function EncodeHeader(h: Header): (b: seq<u8>)
    ensures |b| == HEADER_LEN
  {
    [VERSION, KindByte(h.kind)] + ToBytes(h.keyPhase, 4) + ToBytes(h.sequence, 8) + ToBytes(h.sessionId, 16)
  }

  function EncodePacket(p: Packet): seq<u8> {
    EncodeHeader(p.header) + p.payload
  }

  function DecodePacket(b: seq<u8>): Result<Packet, ProtocolError> {
    if |b| < HEADER_LEN then Err(TruncatedHeader)
    else if b[0] != VERSION then Err(UnsupportedVersion(b[0] / 10, b[0] % 10))
    else
      var kind := KindFrom(b[1]);
      if kind.Err? then Err(kind.error)
      else Ok(Packet(Header(kind.value, U32From(b[2..6]), U64From(b[6..14]), SessionIdFrom(b[14..30])), b[30..]))
  }

  lemma HeaderFields(h: Header)
    ensures var b := EncodeHeader(h);
            && b[0] == VERSION && b[1] == KindByte(h.kind) && b[2..6] == ToBytes(h.keyPhase, 4)
            && b[6..14] == ToBytes(h.sequence, 8) && b[14..30] == ToBytes(h.sessionId, 16)
  {}

  lemma FieldsDecode(h: Header)
    ensures U32From(ToBytes(h.keyPhase, 4)) == h.keyPhase
    ensures U64From(ToBytes(h.sequence, 8)) == h.sequence
    ensures SessionIdFrom(ToBytes(h.sessionId, 16)) == h.sessionId
  {
    SpanValues();
    FromToBytes(h.keyPhase, 4);
    FromToBytes(h.sequence, 8);
    FromToBytes(h.sessionId, 16);
  }

  lemma PacketRoundTrip(p: Packet)
    ensures DecodePacket(EncodePacket(p)) == Ok(p)
  {
    var b, header := EncodePacket(p), EncodeHeader(p.header);
    HeaderFields(p.header);
    FieldsDecode(p.header);
    assert b[2..6] == header[2..6] && b[6..14] == header[6..14] && b[14..30] == header[14..30] && b[30..] == p.payload;
  }

  /** The format is canonical: what decodes is exactly what encodes to it. */
  lemma PacketCanonical(b: seq<u8>, p: Packet)
    ensures DecodePacket(b) == Ok(p) <==> EncodePacket(p) == b
  {
    if EncodePacket(p) == b {
      PacketRoundTrip(p);
    }
    if DecodePacket(b) == Ok(p) {
      ToFromBytes(b[2..6]);
      ToFromBytes(b[6..14]);
      ToFromBytes(b[14..30]);
      assert b == [b[0], b[1]] + b[2..6] + b[6..14] + b[14..30] + b[30..];
    }
  }
}
