/**
 * What the capture library hands the merge loop. The library itself is not
 * modelled: packets and events are values supplied by the environment.
 */
module Libtrace {
  import opened Posix

  /** Unsigned 64-bit integers (uint64_t). */
  type U64 = x: int | 0 <= x < 0x1_0000_0000_0000_0000

  const U64_MAX: U64 := 0xFFFF_FFFF_FFFF_FFFF

  /**
   * A captured packet: its ERF timestamp (32.32 fixed point), the timeval the
   * library derives from it, and its capture length. No relation between the
   * ERF stamp and the timeval is assumed.
   */
  datatype Packet = Packet(erf: U64, tv: TimeVal, caplen: nat)

  /** What `select` did when the loop waited on a source's descriptor. */
  datatype Wait = TimedOut | WaitFailed(interrupted: bool) | Readable

  /**
   * One answer of trace_event. A PACKET event carries what trace_get_layer3
   * reports about it (a layer-3 header found, and its ethertype); an IOWAIT
   * event carries what the wait on its descriptor would yield and the wait
   * budget `select` leaves behind.
   */
  datatype Event =
    | Sleep
    | IoWait(wait: Wait, left: TimeVal)
    | PacketEvent(p: Packet, hasLayer3: bool, ethertype: nat)
    | Terminate
    | Unknown

  /** trace_option_compresstype_t, the codecs the options can select. */
  datatype CompressType = NoCompression | Zlib | Bz2 | Lzo | Lzma
}
