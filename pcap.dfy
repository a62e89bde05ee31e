/**
 * The 24-byte libpcap file header that close_trace writes in place of an
 * empty pcap segment (`null_pcap`), and the little-endian layout it follows.
 */
module Pcap {

  type Byte = x: int | 0 <= x < 256

  /** null_pcap, which the source spells in octal. */
  const NULL_PCAP: seq<Byte> := [
    0xd4, 0xc3, 0xb2, 0xa1, 0x02, 0x00, 0x04, 0x00,
    0x00, 0x00, 0x00, 0x00, 0x00, 0x00, 0x00, 0x00,
    0x00, 0x00, 0x04, 0x00, 0x01, 0x00, 0x00, 0x00
  ]

  const HEADER_SIZE: nat := 24
  const PCAP_MAGIC: nat := 0xa1b2c3d4
  const LINKTYPE_ETHERNET: nat := 1

  /** The fields of a libpcap global header, in file order. */
  datatype FileHeader = FileHeader(
    magic: nat, versionMajor: nat, versionMinor: nat,
    thiszone: nat, sigfigs: nat, snaplen: nat, network: nat)

  predicate U16(x: nat) { x < 0x1_0000 }
  predicate U32(x: nat) { x < 0x1_0000_0000 }

  predicate WellFormed(h: FileHeader)
  {
    U32(h.magic) && U16(h.versionMajor) && U16(h.versionMinor) &&
    U32(h.thiszone) && U32(h.sigfigs) && U32(h.snaplen) && U32(h.network)
  }

  function Le16(x: nat): (r: seq<Byte>)
    requires U16(x)
    ensures |r| == 2
  {
    [x % 256, x / 256]
  }

  function Le32(x: nat): (r: seq<Byte>)
    requires U32(x)
    ensures |r| == 4
  {
    [x % 256, (x / 256) % 256, (x / 256 / 256) % 256, x / 256 / 256 / 256]
  }

  function Get16(b: seq<Byte>, i: nat): (x: nat)
    requires i + 2 <= |b|
    ensures U16(x)
  {
    b[i] as int + 256 * b[i + 1] as int
  }

  function Get32(b: seq<Byte>, i: nat): (x: nat)
    requires i + 4 <= |b|
    ensures U32(x)
  {
    b[i] as int + 256 * (b[i + 1] as int + 256 * (b[i + 2] as int + 256 * b[i + 3] as int))
  }

  /** The header as it appears on disk, every field little-endian. */
  function Encode(h: FileHeader): (r: seq<Byte>)
    requires WellFormed(h)
    ensures |r| == HEADER_SIZE
  {
    Le32(h.magic) + Le16(h.versionMajor) + Le16(h.versionMinor) +
    Le32(h.thiszone) + Le32(h.sigfigs) + Le32(h.snaplen) + Le32(h.network)
  }

  function Decode(b: seq<Byte>): (h: FileHeader)
    requires |b| == HEADER_SIZE
    ensures WellFormed(h)
  {
    FileHeader(Get32(b, 0), Get16(b, 4), Get16(b, 6), Get32(b, 8), Get32(b, 12), Get32(b, 16), Get32(b, 20))
  }

  lemma Le32Value(x: nat)
    requires U32(x)
    ensures Get32(Le32(x), 0) == x
  {
    var q1 := x / 256;
    var q2 := q1 / 256;
    assert q2 == q2 % 256 + 256 * (q2 / 256);
    assert q1 == q1 % 256 + 256 * q2;
  }

  lemma Le16Value(x: nat)
    requires U16(x)
    ensures Get16(Le16(x), 0) == x
  {
  }

  lemma Get32Bytes(b: seq<Byte>, i: nat)
    requires i + 4 <= |b|
    ensures Le32(Get32(b, i)) == b[i..i + 4]
  {
    var x := Get32(b, i);
    var q1: int := b[i + 1] as int + 256 * (b[i + 2] as int + 256 * b[i + 3] as int);
    var q2: int := b[i + 2] as int + 256 * b[i + 3] as int;
    assert x / 256 == q1 && x % 256 == b[i];
    assert q1 / 256 == q2 && q1 % 256 == b[i + 1];
    assert q2 / 256 == b[i + 3] && q2 % 256 == b[i + 2];
  }

  /** Reading back a written header gives the same fields. */
  lemma DecodeEncode(h: FileHeader)
    requires WellFormed(h)
    ensures Decode(Encode(h)) == h
  {
    var b := Encode(h);
    Le32Value(h.magic);
    Le16Value(h.versionMajor);
    Le16Value(h.versionMinor);
    Le32Value(h.thiszone);
    Le32Value(h.sigfigs);
    Le32Value(h.snaplen);
    Le32Value(h.network);
    assert b[0..4] == Le32(h.magic);
    assert b[4..6] == Le16(h.versionMajor);
    assert b[6..8] == Le16(h.versionMinor);
    assert b[8..12] == Le32(h.thiszone);
    assert b[12..16] == Le32(h.sigfigs);
    assert b[16..20] == Le32(h.snaplen);
    assert b[20..24] == Le32(h.network);
  }

  lemma Get16Bytes(b: seq<Byte>, i: nat)
    requires i + 2 <= |b|
    ensures Le16(Get16(b, i)) == b[i..i + 2]
  {
    var x := Get16(b, i);
    assert x / 256 == b[i + 1] && x % 256 == b[i];
  }

  /** Every 24 bytes are the encoding of the header they decode to. */
  lemma EncodeDecode(b: seq<Byte>)
    requires |b| == HEADER_SIZE
    ensures Encode(Decode(b)) == b
  {
    var h := Decode(b);
    Get32Bytes(b, 0);
    Get16Bytes(b, 4);
    Get16Bytes(b, 6);
    Get32Bytes(b, 8);
    Get32Bytes(b, 12);
    Get32Bytes(b, 16);
    Get32Bytes(b, 20);
    assert Encode(h) == b[0..4] + b[4..6] + b[6..8] + b[8..12] + b[12..16] + b[16..20] + b[20..24];
    FieldsCover(b);
  }

  lemma FieldsCover(b: seq<Byte>)
    requires |b| == HEADER_SIZE
    ensures b == b[0..4] + b[4..6] + b[6..8] + b[8..12] + b[12..16] + b[16..20] + b[20..24]
  {
  }

  /** The header the pcap placeholder stands for: version 2.4, UTC, snaplen 262144, Ethernet. */
  const EMPTY_PCAP_HEADER: FileHeader := FileHeader(PCAP_MAGIC, 2, 4, 0, 0, 262144, LINKTYPE_ETHERNET)

  /** null_pcap is exactly that header, laid out little-endian. */
  lemma NullPcapIsEmptyHeader()
    ensures |NULL_PCAP| == HEADER_SIZE
    ensures Decode(NULL_PCAP) == EMPTY_PCAP_HEADER
    ensures Encode(EMPTY_PCAP_HEADER) == NULL_PCAP
  {
    EncodeDecode(NULL_PCAP);
  }
}
