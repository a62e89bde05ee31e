/**
 * The segment/output manager of mtc_output.cc and mtc_output.hh. The
 * libtrace output is represented by a ghost history of segments: every
 * segment ever opened, the packets written into it, and whether the empty
 * pcap placeholder was written when it closed.
 */
module MtcOutput {
  import opened Wrappers
  import opened Numerals
  import opened Posix
  import opened Libtrace
  import opened SeqNum
  import MtcLog

  /** operator>(timeval, timeval): later seconds, or equal seconds and later microseconds. */
  predicate Later(lhs: TimeVal, rhs: TimeVal)
  {
    lhs.sec > rhs.sec || (lhs.sec == rhs.sec && lhs.usec > rhs.usec)
  }

  /** A timeval in canonical form: microseconds within one second. */
  predicate Normal(t: TimeVal) { 0 <= t.usec < 1000000 }

  function Microseconds(t: TimeVal): int { t.sec * 1000000 + t.usec }

  /** On canonical timevals the lexicographic order is the order of the instants. */
  lemma LaterMeansAfter(a: TimeVal, b: TimeVal)
    requires Normal(a) && Normal(b)
    ensures Later(a, b) <==> Microseconds(a) > Microseconds(b)
  {
    if a.sec > b.sec {
      assert a.sec * 1000000 >= b.sec * 1000000 + 1000000;
    } else if a.sec < b.sec {
      assert b.sec * 1000000 >= a.sec * 1000000 + 1000000;
    }
  }

  /** One capture source, MTC_Input. `events` stands for the capture handle `in_`: the events it will deliver. */
  class Input {
    var uri: string
    var active: bool
    var prevTs: U64
    /** The source's drop count when the current segment's statistics began. */
    var segmentDrops: U64
    var segmentPackets: nat
    var totalPackets: nat
    /** The one packet the source may hold, buffered until it is written. */
    var packet: Option<Packet>
    var events: seq<Event>

    constructor ()
      ensures uri == [] && !active && packet == None && events == []
      ensures prevTs == 0 && segmentDrops == 0 && segmentPackets == 0 && totalPackets == 0
    {
      uri := [];
      active := false;
      prevTs := 0;
      segmentDrops := 0;
      segmentPackets := 0;
      totalPackets := 0;
      packet := None;
      events := [];
    }
  }

  predicate Distinct(inputs: seq<Input>)
  {
    forall i, j | 0 <= i < j < |inputs| :: inputs[i] != inputs[j]
  }

  /** Everything of the sources that the output manager never touches stays as it was. */
  twostate predicate StatsUnchanged(inputs: seq<Input>)
    reads inputs
  {
    forall k | 0 <= k < |inputs| ::
      inputs[k].segmentPackets == old(inputs[k].segmentPackets) && inputs[k].segmentDrops == old(inputs[k].segmentDrops)
  }

  /** The per-source reset of dump_seg_stats: packets back to zero, drops rebased on the current count. */
  predicate StatsReset(inputs: seq<Input>, dropped: seq<U64>)
    reads inputs
    requires |dropped| == |inputs|
  {
    forall k | 0 <= k < |inputs| :: inputs[k].segmentPackets == 0 && inputs[k].segmentDrops == dropped[k]
  }

  /**
   * One output segment as the history records it. `openedByWrite` marks a
   * segment that write_packet opened for its first packet, whose capture
   * length the size counter leaves out.
   */
  datatype Segment = Segment(
    name: string, seqnum: nat, stamp: TimeVal, packets: seq<Packet>,
    placeholder: bool, openedByWrite: bool)

  /** The timestamp of the last packet, or timeval {0, 0} for none (last_ts_ of a fresh segment). */
  function LastStamp(ps: seq<Packet>): TimeVal
  {
    if ps == [] then ZERO_TV else ps[|ps| - 1].tv
  }

  /** The timestamp packet i is compared with: its predecessor's, or {0, 0} for the first. */
  function Before(ps: seq<Packet>, i: nat): TimeVal
    requires i < |ps|
  {
    if i == 0 then ZERO_TV else ps[i - 1].tv
  }

  /** The disorders among the first n packets of a segment. */
  function DisordersTo(ps: seq<Packet>, n: nat): nat
    requires n <= |ps|
  {
    if n == 0 then 0 else DisordersTo(ps, n - 1) + (if Later(Before(ps, n - 1), ps[n - 1].tv) then 1 else 0)
  }

  /** The disorders of a segment: packets stamped before the one written just before them. */
  function Disorders(ps: seq<Packet>): nat
  {
    DisordersTo(ps, |ps|)
  }

  /** The capture lengths of packets lo up to n. */
  function CapSum(ps: seq<Packet>, lo: nat, n: nat): nat
    requires n <= |ps|
  {
    if n <= lo then 0 else CapSum(ps, lo, n - 1) + ps[n - 1].caplen
  }

  /** What current_segsize_ accumulates for a segment: all but the first packet of one write_packet opened. */
  function CountedSize(s: Segment): nat
  {
    CapSum(s.packets, if s.openedByWrite then 1 else 0, |s.packets|)
  }

  function StreamTo(segs: seq<Segment>, n: nat): seq<Packet>
    requires n <= |segs|
  {
    if n == 0 then [] else StreamTo(segs, n - 1) + segs[n - 1].packets
  }

  /** All packets written, segment after segment: the output stream. */
  function Stream(segs: seq<Segment>): seq<Packet>
  {
    StreamTo(segs, |segs|)
  }

  function DisordersUpTo(segs: seq<Segment>, n: nat): nat
    requires n <= |segs|
  {
    if n == 0 then 0 else DisordersUpTo(segs, n - 1) + Disorders(segs[n - 1].packets)
  }

  function SegmentDisorders(segs: seq<Segment>): nat
  {
    DisordersUpTo(segs, |segs|)
  }

  /** A segment as close_trace leaves it: the placeholder is written iff pcap and no packet was written. */
  function Seal(s: Segment, isPcap: bool): Segment
  {
    s.(placeholder := isPcap && s.packets == [])
  }

  /** The history with its last segment replaced. */
  function WithLast(segs: seq<Segment>, s: Segment): seq<Segment>
    requires segs != []
  {
    segs[..|segs| - 1] + [s]
  }

  /** The history after closing: the open (last) segment is sealed, if one was open. */
  function Closed(segs: seq<Segment>, wasOpen: bool, isPcap: bool): seq<Segment>
  {
    if wasOpen && segs != [] then WithLast(segs, Seal(segs[|segs| - 1], isPcap)) else segs
  }

  /** The history after writing packet p into the open (last) segment. */
  function AppendLast(segs: seq<Segment>, p: Packet): seq<Segment>
  {
    if segs == [] then segs else WithLast(segs, segs[|segs| - 1].(packets := segs[|segs| - 1].packets + [p]))
  }

  /** The history after write_packet marks the segment it opened. */
  function MarkOpenedByWrite(segs: seq<Segment>): seq<Segment>
  {
    if segs == [] then segs else WithLast(segs, segs[|segs| - 1].(openedByWrite := true))
  }

  /** The stream and disorder prefixes depend only on the segments they cover. */
  lemma {:induction false} PrefixesAgree(a: seq<Segment>, b: seq<Segment>, n: nat)
    requires n <= |a| && n <= |b|
    requires forall k | 0 <= k < n :: a[k] == b[k]
    ensures StreamTo(a, n) == StreamTo(b, n) && DisordersUpTo(a, n) == DisordersUpTo(b, n)
  {
    if n > 0 {
      PrefixesAgree(a, b, n - 1);
    }
  }

  /** The per-packet prefixes depend only on the packets they cover. */
  lemma {:induction false} PacketPrefixesAgree(ps: seq<Packet>, qs: seq<Packet>, n: nat, lo: nat)
    requires n <= |ps| && n <= |qs|
    requires forall k | 0 <= k < n :: ps[k] == qs[k]
    ensures DisordersTo(ps, n) == DisordersTo(qs, n) && CapSum(ps, lo, n) == CapSum(qs, lo, n)
  {
    if n > 0 {
      PacketPrefixesAgree(ps, qs, n - 1, lo);
    }
  }

  lemma StreamAppend(segs: seq<Segment>, s: Segment)
    ensures Stream(segs + [s]) == Stream(segs) + s.packets
    ensures SegmentDisorders(segs + [s]) == SegmentDisorders(segs) + Disorders(s.packets)
  {
    PrefixesAgree(segs + [s], segs, |segs|);
  }

  lemma StreamWithLast(segs: seq<Segment>, s: Segment)
    requires segs != []
    ensures Stream(WithLast(segs, s)) == StreamTo(segs, |segs| - 1) + s.packets
    ensures SegmentDisorders(WithLast(segs, s)) == DisordersUpTo(segs, |segs| - 1) + Disorders(s.packets)
  {
    var t, n := WithLast(segs, s), |segs| - 1;
    WithLastShape(segs, s);
    PrefixesAgree(t, segs, n);
    assert StreamTo(t, n + 1) == StreamTo(t, n) + t[n].packets;
    assert DisordersUpTo(t, n + 1) == DisordersUpTo(t, n) + Disorders(t[n].packets);
  }

  lemma WithLastShape(segs: seq<Segment>, s: Segment)
    requires segs != []
    ensures var t := WithLast(segs, s);
      |t| == |segs| && t[|segs| - 1] == s && forall k | 0 <= k < |segs| - 1 :: t[k] == segs[k]
  {
  }

  /** Closing changes no segment's packets: the stream and the disorder total stay. */
  lemma ClosedKeepsStream(segs: seq<Segment>, wasOpen: bool, isPcap: bool)
    ensures Stream(Closed(segs, wasOpen, isPcap)) == Stream(segs)
    ensures SegmentDisorders(Closed(segs, wasOpen, isPcap)) == SegmentDisorders(segs)
  {
    if wasOpen && segs != [] {
      StreamWithLast(segs, Seal(segs[|segs| - 1], isPcap));
    }
  }

  lemma MarkKeepsStream(segs: seq<Segment>)
    requires segs != []
    ensures Stream(MarkOpenedByWrite(segs)) == Stream(segs)
    ensures SegmentDisorders(MarkOpenedByWrite(segs)) == SegmentDisorders(segs)
  {
    StreamWithLast(segs, segs[|segs| - 1].(openedByWrite := true));
  }

  /** Writing a packet at the end of a segment adds its disorder, if any, and its length. */
  lemma AppendPacket(ps: seq<Packet>, p: Packet, lo: nat)
    ensures Disorders(ps + [p]) == Disorders(ps) + (if Later(LastStamp(ps), p.tv) then 1 else 0)
    ensures CapSum(ps + [p], lo, |ps| + 1) == CapSum(ps, lo, |ps|) + (if lo <= |ps| then p.caplen else 0)
  {
    PacketPrefixesAgree(ps + [p], ps, |ps|, lo);
  }

  /** Writing a packet adds it at the end of the stream and adds its disorder, if any. */
  lemma AppendLastStream(segs: seq<Segment>, p: Packet)
    requires segs != []
    ensures Stream(AppendLast(segs, p)) == Stream(segs) + [p]
    ensures SegmentDisorders(AppendLast(segs, p))
            == SegmentDisorders(segs) + (if Later(LastStamp(segs[|segs| - 1].packets), p.tv) then 1 else 0)
  {
    var last := segs[|segs| - 1];
    StreamWithLast(segs, last.(packets := last.packets + [p]));
    AppendPacket(last.packets, p, 0);
    assert StreamTo(segs, |segs| - 1) + (last.packets + [p]) == (StreamTo(segs, |segs| - 1) + last.packets) + [p];
  }

  /** What the file system and libtrace answer when open_trace sets up a segment. */
  datatype Opening = Opening(
    fileOpens: bool,       // open(2) of the segment's file succeeds
    created: bool,         // trace_create_output succeeds
    levelSet: bool,        // trace_config_output accepts the compression level
    typeSet: bool,         // trace_config_output accepts the compression type
    started: bool)         // trace_start_output succeeds

  /** Every step of setting up a segment succeeds. */
  predicate Succeeds(o: Opening)
  {
    o.fileOpens && o.created && o.levelSet && o.typeSet && o.started
  }

  /** What the environment answers during one output operation. */
  datatype World = World(
    now: TimeVal,          // the wall clock close_trace reads into last_rotated_
    utc: Tm,               // gmtime of the new segment's stamp
    local: Tm,             // localtime of the new segment's stamp
    probes: seq<bool>,     // successive answers of the watchfile existence probe
    dropped: seq<U64>,     // each source's current drop count
    opening: Opening)      // how setting up a new segment goes

  /**
   * The name open_trace gives a segment opened with counter value n: the
   * sequenced name under the base path, or the fixed output name.
   */
  function NameFor(basenameMode: bool, target: string, useutc: bool, ext: Option<string>, n: nat, w: World): string
  {
    if basenameMode then FileName(target, if useutc then w.utc else w.local, n, ext) else FixedName(target)
  }

  /** The statistics dump_seg_stats logs for one source. */
  datatype InputReport = InputReport(packets: nat, drops: U64)

  /** What dump_seg_stats logs: the segment line and one line per source. */
  datatype SegReport = SegReport(name: string, packets: nat, disorders: nat, inputs: seq<InputReport>)

  /** The configuration of an output manager: what the setters and the constructor fix. */
  datatype Config = Config(
    basenameMode: bool, target: string, isPcap: bool,
    watchfile: Option<string>, seqnumFile: Option<string>, extension: Option<string>,
    piping: bool, useutc: bool, signalled: bool, compressLevel: int, compressType: CompressType,
    segmentSize: U64, rotateSec: U64)

  /** sleep_on_watchfile returns: no watchfile, a signal, or a probe that finds the file. */
  predicate Releases(c: Config, probes: seq<bool>)
  {
    c.watchfile.None? || c.signalled || exists k | 0 <= k < |probes| :: probes[k]
  }

  /** The environment lets an open go ahead: the watchfile wait ends, and there is a drop count per source. */
  predicate Admits(c: Config, sources: nat, w: World)
  {
    Releases(c, w.probes) && |w.dropped| == sources
  }

  /**
   * The state of an output manager as a value: everything MTC_Output holds
   * except the sources, whose statistics live in the Input objects.
   */
  datatype OutState = OutState(
    cfg: Config, seqnum: U64, seqStore: string,
    totalDisorders: nat, totalPackets: nat, segmentPackets: nat, segmentDisorders: nat, currentSegsize: nat,
    open: bool, firstTs: TimeVal, lastTs: TimeVal, lastRotated: TimeVal, name: string,
    segments: seq<Segment>)

  /** The counters of the open segment agree with the last segment of the history. */
  predicate OpenMatches(s: OutState)
    requires s.segments != []
  {
    var g := s.segments[|s.segments| - 1];
    && g.name == s.name && g.stamp == s.firstTs && !g.placeholder
    && |g.packets| == s.segmentPackets
    && s.segmentDisorders == Disorders(g.packets)
    && s.currentSegsize == CountedSize(g)
    && s.lastTs == LastStamp(g.packets)
    && (g.openedByWrite ==> g.packets != [])
  }

  /**
   * The invariant of an output manager: the totals count the packets and the
   * disorders of every segment, an open segment's counters describe it, and
   * without one the timestamps are reset.
   */
  predicate Inv(s: OutState)
  {
    && s.seqnum <= SEQNUM_MAX
    && s.totalPackets == |Stream(s.segments)|
    && s.totalDisorders == SegmentDisorders(s.segments)
    && (!s.open ==> s.firstTs == ZERO_TV && s.lastTs == ZERO_TV)
    && (s.open ==> s.segments != [] && OpenMatches(s))
  }

  /** The state the constructor leaves. */
  function Initial(basenameMode: bool, target: string, isPcap: bool, started: TimeVal): OutState
  {
    OutState(Config(basenameMode, target, isPcap, None, None, None, false, true, false, -1, NoCompression, 0, 0),
             0, [], 0, 0, 0, 0, 0, false, ZERO_TV, ZERO_TV, started, [], [])
  }

  /** init_seqnum: the state with the counter loaded, or None where it panics. */
  function LoadSpec(s: OutState, disk: Option<string>): Option<OutState>
  {
    if s.cfg.seqnumFile.None? then Some(s)
    else match ParseSeqnum(disk)
      case Ok(v) => Some(s.(seqnum := v, seqStore := disk.value))
      case Err(_) => None
  }

  /** close_trace. */
  function CloseSpec(s: OutState, now: TimeVal): OutState
  {
    s.(segments := Closed(s.segments, s.open, s.cfg.isPcap), open := false, lastRotated := now,
       firstTs := ZERO_TV, lastTs := ZERO_TV)
  }

  /** open_trace once nothing is open: name the segment, save and advance the counter, reset the segment counters. */
  function StartSpec(s: OutState, ts: TimeVal, w: World): OutState
  {
    var name := NameFor(s.cfg.basenameMode, s.cfg.target, s.cfg.useutc, s.cfg.extension, s.seqnum, w);
    s.(name := name, open := true,
       seqStore := if s.cfg.seqnumFile.Some? then SaveText(s.seqnum) else s.seqStore,
       seqnum := Next(s.seqnum),
       segmentPackets := 0, segmentDisorders := 0, currentSegsize := 0, firstTs := ts,
       segments := s.segments + [Segment(name, s.seqnum, ts, [], false, false)])
  }

  /**
   * open_trace's fatal paths once the segment is named `name`: a panic when
   * its file cannot be opened (the name "-" is stdout, which is not opened),
   * and exit(1) when the libtrace output cannot be created, configured with
   * the compression level or type the configuration sets, or started.
   */
  predicate OpenFails(c: Config, name: string, o: Opening)
  {
    || (name != "-" && !o.fileOpens)
    || !o.created
    || (c.compressLevel >= 0 && !o.levelSet)
    || (c.compressType != NoCompression && !o.typeSet)
    || !o.started
  }

  /** Starting the next segment from state s ends the process. */
  predicate StartFails(s: OutState, w: World)
  {
    OpenFails(s.cfg, NameFor(s.cfg.basenameMode, s.cfg.target, s.cfg.useutc, s.cfg.extension, s.seqnum, w), w.opening)
  }

  /** open_trace. */
  function OpenSpec(s: OutState, ts: TimeVal, w: World): OutState
  {
    StartSpec(if s.open then CloseSpec(s, w.now) else s, ts, w)
  }

  /** write_packet's size test: p takes the open segment past its size limit. */
  predicate Crosses(s: OutState, p: Packet)
  {
    s.open && s.cfg.segmentSize != 0 && s.currentSegsize + p.caplen > s.cfg.segmentSize
  }

  /** The history mark of a segment write_packet opened. */
  function MarkFresh(s: OutState): OutState
  {
    s.(segments := MarkOpenedByWrite(s.segments))
  }

  /** write_packet ends the process: it has to open a segment, and that fails. */
  predicate WriteFails(s: OutState, p: Packet, w: World)
  {
    (!s.open || Crosses(s, p)) && StartFails(s, w)
  }

  /** The first half of write_packet: make sure a segment can take p, counting p's length or starting a new segment. */
  function PrepareSpec(s: OutState, p: Packet, w: World): OutState
  {
    if !s.open || Crosses(s, p) then MarkFresh(OpenSpec(s, p.tv, w))
    else s.(currentSegsize := s.currentSegsize + p.caplen)
  }

  /** The second half of write_packet: count a disorder, count p, and write it into the open segment. */
  function RecordSpec(t: OutState, p: Packet): OutState
  {
    var d := if Later(t.lastTs, p.tv) then 1 else 0;
    t.(segmentDisorders := t.segmentDisorders + d, totalDisorders := t.totalDisorders + d, lastTs := p.tv,
       totalPackets := t.totalPackets + 1, segmentPackets := t.segmentPackets + 1,
       segments := AppendLast(t.segments, p))
  }

  /** write_packet: open a segment stamped with p's time if needed, then write p into the open segment. */
  function WriteSpec(s: OutState, p: Packet, w: World): OutState
  {
    RecordSpec(PrepareSpec(s, p, w), p)
  }

  /** rotate_trace ends the process: nothing is open, and opening a segment fails. */
  predicate RotateFails(s: OutState, w: World)
  {
    !s.open && StartFails(s, w)
  }

  /** rotate_trace: open a segment if none is open, then close it. */
  function RotateSpec(s: OutState, ts: TimeVal, w: World): OutState
  {
    CloseSpec(if s.open then s else StartSpec(s, ts, w), w.now)
  }

  lemma InitialInv(basenameMode: bool, target: string, isPcap: bool, started: TimeVal)
    ensures Inv(Initial(basenameMode, target, isPcap, started))
  {
  }

  /** A loaded counter fits the 8-digit field, so loading keeps the invariant. */
  lemma LoadKeepsInv(s: OutState, disk: Option<string>)
    requires Inv(s)
    ensures LoadSpec(s, disk).Some? ==> Inv(LoadSpec(s, disk).value)
    ensures s.cfg.seqnumFile.Some? ==> (LoadSpec(s, disk).Some? <==> ParseSeqnum(disk).Ok?)
  {
  }

  /** The invariant says nothing about the configuration: the setters keep it. */
  lemma ConfigKeepsInv(s: OutState, c: Config)
    requires Inv(s)
    ensures Inv(s.(cfg := c))
  {
  }

  /**
   * Closing keeps the stream; the closed segment gets the pcap placeholder
   * exactly when the format is pcap and no packet was written into it.
   */
  lemma CloseKeepsInv(s: OutState, now: TimeVal)
    requires Inv(s)
    ensures var c := CloseSpec(s, now);
      && Inv(c) && !c.open && Stream(c.segments) == Stream(s.segments)
      && |c.segments| == |s.segments|
      && (s.open ==> (c.segments[|c.segments| - 1].placeholder <==> s.cfg.isPcap && s.segmentPackets == 0))
  {
    ClosedKeepsStream(s.segments, s.open, s.cfg.isPcap);
  }

  /** A new segment starts empty, carries the counter value, and advances the counter. */
  lemma StartKeepsInv(s: OutState, ts: TimeVal, w: World)
    requires Inv(s) && !s.open
    ensures var t := StartSpec(s, ts, w);
      && Inv(t) && t.open && Stream(t.segments) == Stream(s.segments)
      && t.segments[..|s.segments|] == s.segments
      && t.segments[|s.segments|] == Segment(t.name, s.seqnum, ts, [], false, false)
      && t.seqnum == Next(s.seqnum)
  {
    var t := StartSpec(s, ts, w);
    StreamAppend(s.segments, Segment(t.name, s.seqnum, ts, [], false, false));
    assert t.segments[..|s.segments|] == s.segments;
  }

  lemma OpenKeepsInv(s: OutState, ts: TimeVal, w: World)
    requires Inv(s)
    ensures var t := OpenSpec(s, ts, w);
      && Inv(t) && t.open && Stream(t.segments) == Stream(s.segments)
      && |t.segments| == |s.segments| + 1
      && t.segments[|s.segments|] == Segment(t.name, s.seqnum, ts, [], false, false)
      && t.seqnum == Next(s.seqnum) && t.totalPackets == s.totalPackets && t.totalDisorders == s.totalDisorders
  {
    var c := if s.open then CloseSpec(s, w.now) else s;
    if s.open {
      CloseKeepsInv(s, w.now);
    }
    StartKeepsInv(c, ts, w);
  }

  /**
   * write_packet appends p to the stream, counts p as a disorder exactly when
   * it is stamped before the previous packet of its segment, and never lets
   * the counted size of a segment pass a non-zero size limit: the packet that
   * would pass it starts the next segment.
   */
  lemma WriteKeepsInv(s: OutState, p: Packet, w: World)
    requires Inv(s)
    ensures var t := WriteSpec(s, p, w);
      && Inv(t) && t.open
      && Stream(t.segments) == Stream(s.segments) + [p]
      && t.lastTs == p.tv
      && (t.cfg.segmentSize != 0 ==> t.currentSegsize <= t.cfg.segmentSize)
      && t.totalDisorders == s.totalDisorders + (if Later(if s.open && !Crosses(s, p) then s.lastTs else ZERO_TV, p.tv) then 1 else 0)
  {
    if s.open && !Crosses(s, p) {
      WriteIntoOpen(s, p);
    } else {
      WriteIntoFresh(s, p, w);
    }
  }

  /** A packet within the size limit joins the open segment. */
  lemma WriteIntoOpen(s: OutState, p: Packet)
    requires Inv(s) && s.open && !Crosses(s, p)
    ensures var t := RecordSpec(s.(currentSegsize := s.currentSegsize + p.caplen), p);
      && Inv(t) && t.open
      && Stream(t.segments) == Stream(s.segments) + [p]
      && t.segments == AppendLast(s.segments, p)
      && (t.cfg.segmentSize != 0 ==> t.currentSegsize <= t.cfg.segmentSize)
      && t.totalDisorders == s.totalDisorders + (if Later(s.lastTs, p.tv) then 1 else 0)
  {
    var last := s.segments[|s.segments| - 1];
    AppendLastStream(s.segments, p);
    AppendPacket(last.packets, p, if last.openedByWrite then 1 else 0);
  }

  /** The packet that opens a segment is its first, and its length is not counted. */
  lemma WriteIntoFresh(s: OutState, p: Packet, w: World)
    requires Inv(s) && (!s.open || Crosses(s, p))
    ensures var t := RecordSpec(MarkFresh(OpenSpec(s, p.tv, w)), p);
      && Inv(t) && t.open
      && Stream(t.segments) == Stream(s.segments) + [p]
      && |t.segments| == |s.segments| + 1
      && t.segments[|s.segments|].packets == [p]
      && t.currentSegsize == 0
      && t.totalDisorders == s.totalDisorders + (if Later(ZERO_TV, p.tv) then 1 else 0)
  {
    var o := OpenSpec(s, p.tv, w);
    OpenKeepsInv(s, p.tv, w);
    MarkKeepsStream(o.segments);
    var m := MarkFresh(o);
    var last := m.segments[|m.segments| - 1];
    AppendLastStream(m.segments, p);
    AppendPacket(last.packets, p, 1);
  }

  /** Rotation leaves nothing open; with nothing open it adds one empty segment. */
  lemma RotateKeepsInv(s: OutState, ts: TimeVal, w: World)
    requires Inv(s)
    ensures var t := RotateSpec(s, ts, w);
      && Inv(t) && !t.open && Stream(t.segments) == Stream(s.segments) && t.lastRotated == w.now
      && (s.open ==> |t.segments| == |s.segments| && t.seqnum == s.seqnum)
      && (!s.open ==> |t.segments| == |s.segments| + 1 && t.seqnum == Next(s.seqnum)
                      && t.segments[|s.segments|].packets == []
                      && t.segments[|s.segments|].seqnum == s.seqnum
                      && (t.segments[|s.segments|].placeholder <==> s.cfg.isPcap))
  {
    if s.open {
      CloseKeepsInv(s, w.now);
    } else {
      StartKeepsInv(s, ts, w);
      CloseKeepsInv(StartSpec(s, ts, w), w.now);
    }
  }

  /** Output operations never change the configuration. */
  lemma SpecsKeepConfig(s: OutState, p: Packet, ts: TimeVal, w: World)
    ensures WriteSpec(s, p, w).cfg == s.cfg && RotateSpec(s, ts, w).cfg == s.cfg
    ensures WriteSpec(s, p, w).lastRotated == (if !s.open || Crosses(s, p) then (if s.open then w.now else s.lastRotated) else s.lastRotated)
  {
  }

  /**
   * The first ':' of an output URI: the constructor writes a NUL over it,
   * so that the format is what precedes it and the target what follows.
   */
  function ColonAt(uri: string, i: nat): (r: Option<nat>)
    requires i <= |uri|
    ensures r.Some? ==> i <= r.value < |uri| && uri[r.value] == ':' && forall k | i <= k < r.value :: uri[k] != ':'
    ensures r.None? ==> forall k | i <= k < |uri| :: uri[k] != ':'
    decreases |uri| - i
  {
    if i == |uri| then None else if uri[i] == ':' then Some(i) else ColonAt(uri, i + 1)
  }

  /**
   * The constructor's scan of the output URI: format and target, or None
   * where a URI without ':' makes it panic ("malformed output uri").
   */
  method SplitUri(uri: string) returns (r: Option<(string, string)>)
    ensures r.Some? <==> ':' in uri
    ensures r.Some? ==> r.value.0 + ":" + r.value.1 == uri && ':' !in r.value.0
    ensures r.Some? ==> r == (var c := ColonAt(uri, 0).value; Some((uri[..c], uri[c + 1..])))
  {
    var i := 0;
    while i < |uri| && uri[i] != ':'
      invariant 0 <= i <= |uri|
      invariant forall k | 0 <= k < i :: uri[k] != ':'
      invariant ColonAt(uri, 0) == ColonAt(uri, i)
    {
      i := i + 1;
    }
    if i == |uri| {
      return None;
    }
    r := Some((uri[..i], uri[i + 1..]));
    assert uri[..i] + ":" + uri[i + 1..] == uri;
  }

  /**
   * MTC_Output. `open` stands for `output_ != NULL`. The members that the
   * constructor and the setters fix (basename_/outputfn_, watchfile_,
   * seqnum_file_, extension_, pipeout_, useutc_, signalled_, compress_level_,
   * compress_type_, segmentsize_, rotate_sec_) are held together in `cfg`.
   */
  class Output {
    const log: MtcLog.Log
    const format: string
    var cfg: Config
    /** The content of the sequence file. */
    var seqStore: string
    var inputs: seq<Input>
    var seqnum: U64
    var currentSegsize: nat
    var totalDisorders: nat
    var totalPackets: nat
    var segmentPackets: nat
    var segmentDisorders: nat
    var open: bool
    var firstTs: TimeVal
    var lastTs: TimeVal
    var lastRotated: TimeVal
    var name: string
    ghost var segments: seq<Segment>

    ghost function Snap(): OutState
      reads this
    {
      OutState(cfg, seqnum, seqStore,
               totalDisorders, totalPackets, segmentPackets, segmentDisorders, currentSegsize,
               open, firstTs, lastTs, lastRotated, name, segments)
    }

    predicate Ready(w: World)
      reads this
    {
      Admits(cfg, |inputs|, w)
    }

    predicate WatchReleases(probes: seq<bool>)
      reads this
    {
      Releases(cfg, probes)
    }

    /** The constructor, once the output URI is split at its first ':' into format and target. */
    constructor (format: string, target: string, basenameMode: bool, started: TimeVal, log: MtcLog.Log)
      ensures Inv(Snap()) && inputs == []
      ensures Snap() == Initial(basenameMode, target, format == "pcapfile", started)
      ensures this.format == format && this.log == log
    {
      this.log := log;
      this.format := format;
      cfg := Config(basenameMode, target, format == "pcapfile", None, None, None, false, true, false,
                    -1, NoCompression, 0, 0);
      seqStore := [];
      inputs := [];
      seqnum := 0;
      currentSegsize := 0;
      totalDisorders := 0;
      totalPackets := 0;
      segmentPackets := 0;
      segmentDisorders := 0;
      open := false;
      firstTs := ZERO_TV;
      lastTs := ZERO_TV;
      lastRotated := started;
      name := [];
      segments := [];
      InitialInv(basenameMode, target, format == "pcapfile", started);
    }

    method Signal()
      modifies this`cfg
      ensures cfg == old(cfg).(signalled := true)
    {
      cfg := cfg.(signalled := true);
    }

    method SetCompression(t: CompressType, level: int)
      modifies this`cfg
      ensures cfg == old(cfg).(compressType := t, compressLevel := level)
    {
      cfg := cfg.(compressType := t, compressLevel := level);
    }

    method SetUseUtc(utc: bool)
      modifies this`cfg
      ensures cfg == old(cfg).(useutc := utc)
    {
      cfg := cfg.(useutc := utc);
    }

    method SetWatchfile(path: string)
      modifies this`cfg
      ensures cfg == old(cfg).(watchfile := Some(path))
    {
      cfg := cfg.(watchfile := Some(path));
    }

    method SetSegmentSize(ss: U64)
      modifies this`cfg
      ensures cfg == old(cfg).(segmentSize := ss)
    {
      cfg := cfg.(segmentSize := ss);
    }

    method SetRotateSec(sec: U64)
      modifies this`cfg
      ensures cfg == old(cfg).(rotateSec := sec)
    {
      cfg := cfg.(rotateSec := sec);
    }

    method SetInputs(sources: seq<Input>)
      modifies this`inputs
      ensures inputs == sources && Snap() == old(Snap())
    {
      inputs := sources;
    }

    method SetPipeout()
      modifies this`cfg
      ensures cfg == old(cfg).(piping := true)
    {
      cfg := cfg.(piping := true);
    }

    method SetExtension(ext: string)
      modifies this`cfg
      ensures cfg == old(cfg).(extension := Some(ext))
    {
      cfg := cfg.(extension := Some(ext));
    }

    function LastRotated(): TimeVal
      reads this
    {
      lastRotated
    }

    /**
     * set_seqnumfile: record the file, then load the counter from it. A false
     * result is a panic (the process exits); `disk` is the file's content, or
     * None if it cannot be opened.
     */
    method SetSeqnumFile(path: string, disk: Option<string>) returns (ok: bool)
      modifies this`cfg, this`seqnum, this`seqStore
      ensures var loaded := LoadSpec(old(Snap()).(cfg := old(cfg).(seqnumFile := Some(path))), disk);
        (ok <==> loaded.Some?) && (ok ==> Snap() == loaded.value)
    {
      cfg := cfg.(seqnumFile := Some(path));
      ok := InitSeqnum(disk);
    }

    /** init_seqnum. A false result is a panic. */
    method InitSeqnum(disk: Option<string>) returns (ok: bool)
      modifies this`seqnum, this`seqStore
      ensures (ok <==> LoadSpec(old(Snap()), disk).Some?) && (ok ==> Snap() == LoadSpec(old(Snap()), disk).value)
    {
      if cfg.seqnumFile.None? {
        return true;
      }
      match ParseSeqnum(disk)
      case Ok(v) =>
        seqnum := v;
        seqStore := disk.value;
        ok := true;
      case Err(_) =>
        ok := false;
    }

    /** save_seqnum: the counter, in decimal and newline-terminated, replaces the file's content. */
    method SaveSeqnum()
      modifies this`seqStore
      ensures seqStore == if cfg.seqnumFile.Some? then SaveText(seqnum) else old(seqStore)
    {
      if cfg.seqnumFile.Some? {
        seqStore := SaveText(seqnum);
      }
    }

    method ResetSegmentStats()
      modifies this`segmentPackets, this`segmentDisorders, this`currentSegsize
      ensures segmentPackets == 0 && segmentDisorders == 0 && currentSegsize == 0
    {
      segmentPackets := 0;
      segmentDisorders := 0;
      currentSegsize := 0;
    }

    /**
     * sleep_on_watchfile: the number of failed one-second probes before the
     * watchfile is found; zero without a watchfile or once signalled.
     */
    method SleepOnWatchfile(probes: seq<bool>) returns (slept: nat)
      requires WatchReleases(probes)
      ensures cfg.watchfile.None? || cfg.signalled ==> slept == 0
      ensures cfg.watchfile.Some? && !cfg.signalled ==>
                slept < |probes| && probes[slept] && forall k | 0 <= k < slept :: !probes[k]
    {
      slept := 0;
      if cfg.watchfile.None? {
        return;
      }
      while true
        invariant slept <= |probes|
        invariant forall k | 0 <= k < slept :: !probes[k]
        invariant cfg.signalled ==> slept == 0
        invariant !cfg.signalled ==> exists k | slept <= k < |probes| :: probes[k]
        decreases |probes| - slept
      {
        if cfg.signalled {
          return;
        }
        if probes[slept] {
          break;
        }
        slept := slept + 1;
      }
    }

    /** dump_seg_stats: report the segment and each source, and restart each source's segment counts. */
    method DumpSegStats(dropped: seq<U64>) returns (report: SegReport)
      requires Distinct(inputs) && |dropped| == |inputs|
      modifies inputs`segmentPackets, inputs`segmentDrops
      ensures report.name == name && report.packets == segmentPackets && report.disorders == segmentDisorders
      ensures |report.inputs| == |inputs|
      ensures forall k | 0 <= k < |inputs| ::
                report.inputs[k] == InputReport(old(inputs[k].segmentPackets), (dropped[k] - old(inputs[k].segmentDrops)) % 0x1_0000_0000_0000_0000)
      ensures StatsReset(inputs, dropped)
    {
      var lines: seq<InputReport> := [];
      var i := 0;
      while i < |inputs|
        invariant 0 <= i <= |inputs| && |lines| == i
        invariant forall k | 0 <= k < i ::
                    lines[k] == InputReport(old(inputs[k].segmentPackets), (dropped[k] - old(inputs[k].segmentDrops)) % 0x1_0000_0000_0000_0000)
        invariant forall k | 0 <= k < i :: inputs[k].segmentPackets == 0 && inputs[k].segmentDrops == dropped[k]
        invariant forall k | i <= k < |inputs| ::
                    inputs[k].segmentPackets == old(inputs[k].segmentPackets) && inputs[k].segmentDrops == old(inputs[k].segmentDrops)
      {
        var drops := (dropped[i] - inputs[i].segmentDrops) % 0x1_0000_0000_0000_0000;
        lines := lines + [InputReport(inputs[i].segmentPackets, drops)];
        inputs[i].segmentDrops := dropped[i];
        inputs[i].segmentPackets := 0;
        i := i + 1;
      }
      report := SegReport(name, segmentPackets, segmentDisorders, lines);
    }

    /** dump_tot_stats: the totals, which count every packet and every disorder of the stream written so far. */
    method DumpTotStats() returns (packets: nat, disorders: nat)
      requires Inv(Snap())
      ensures packets == |Stream(segments)| && disorders == SegmentDisorders(segments)
    {
      packets := totalPackets;
      disorders := totalDisorders;
    }

    /** close_trace(): finish the open segment, writing the pcap placeholder if it is empty. */
    method CloseTrace(now: TimeVal)
      modifies this`open, this`lastRotated, this`firstTs, this`lastTs, this`segments
      ensures Snap() == CloseSpec(old(Snap()), now)
    {
      // an empty pcap segment gets the 24 bytes of NULL_PCAP written to its descriptor: Seal marks it
      segments := Closed(segments, open, cfg.isPcap);
      open := false;
      lastRotated := now;
      firstTs := ZERO_TV;
      lastTs := ZERO_TV;
    }

    /**
     * open_trace: close any open segment, wait on the watchfile, name and open
     * the next one. A false result is a panic or an exit(1): the process ends.
     */
    method OpenTrace(ts: TimeVal, w: World) returns (ok: bool)
      requires Distinct(inputs) && Ready(w)
      modifies this, inputs`segmentPackets, inputs`segmentDrops
      ensures inputs == old(inputs)
      ensures ok <==> !StartFails(old(Snap()), w)
      ensures ok ==> Snap() == OpenSpec(old(Snap()), ts, w)
      ensures if old(open) && log.Verbose() then StatsReset(inputs, w.dropped) else StatsUnchanged(inputs)
    {
      if open {
        if log.Verbose() {
          var _ := DumpSegStats(w.dropped);
        }
        CloseTrace(w.now);
      }
      ok := StartSegment(ts, w);
    }

    /** The part of open_trace after any open segment is closed. A false result ends the process. */
    method StartSegment(ts: TimeVal, w: World) returns (ok: bool)
      requires WatchReleases(w.probes)
      modifies this`name, this`open, this`seqStore, this`seqnum, this`segmentPackets,
               this`segmentDisorders, this`currentSegsize, this`firstTs, this`segments
      ensures ok <==> !StartFails(old(Snap()), w)
      ensures ok ==> Snap() == StartSpec(old(Snap()), ts, w)
    {
      ghost var s0 := Snap();
      var slept := SleepOnWatchfile(w.probes);
      name := NameFor(cfg.basenameMode, cfg.target, cfg.useutc, cfg.extension, seqnum, w);
      ok := SetUp(name, w.opening);
      assert ok <==> !StartFails(s0, w);
      if !ok {
        return;
      }
      open := true;
      SaveSeqnum();
      ghost var used := seqnum;
      seqnum := Next(seqnum);
      ResetSegmentStats();
      firstTs := ts;
      segments := segments + [Segment(name, used, ts, [], false, false)];
      ok := true;
    }

    /**
     * The file and the libtrace output of a segment named `name`: open the
     * file unless it is stdout, route it through the pipe when piping, and
     * create, configure and start an output in `format` on it. A false result
     * ends the process.
     */
    method SetUp(name: string, o: Opening) returns (ok: bool)
      ensures ok <==> !OpenFails(cfg, name, o)
    {
      if name != "-" && !o.fileOpens {
        return false;  // "Error opening file"
      }
      if !o.created {
        return false;
      }
      if cfg.compressLevel >= 0 && !o.levelSet {
        return false;
      }
      if cfg.compressType != NoCompression && !o.typeSet {
        return false;
      }
      return o.started;
    }

    /**
     * write_packet: open a segment stamped with the packet's time if none is
     * open; otherwise count the packet's length and reopen when the size limit
     * is exceeded; then write the packet into the (possibly new) segment.
     */
    method WritePacket(p: Packet, w: World) returns (ok: bool)
      requires Distinct(inputs) && Ready(w)
      modifies this, inputs`segmentPackets, inputs`segmentDrops
      ensures inputs == old(inputs)
      ensures ok <==> !WriteFails(old(Snap()), p, w)
      ensures ok ==> Snap() == WriteSpec(old(Snap()), p, w)
      ensures if Crosses(old(Snap()), p) && log.Verbose() then StatsReset(inputs, w.dropped) else StatsUnchanged(inputs)
    {
      ok := PrepareSegment(p, w);
      if ok {
        RecordPacket(p);
      }
    }

    method PrepareSegment(p: Packet, w: World) returns (ok: bool)
      requires Distinct(inputs) && Ready(w)
      modifies this, inputs`segmentPackets, inputs`segmentDrops
      ensures inputs == old(inputs)
      ensures ok <==> !WriteFails(old(Snap()), p, w)
      ensures ok ==> Snap() == PrepareSpec(old(Snap()), p, w)
      ensures if Crosses(old(Snap()), p) && log.Verbose() then StatsReset(inputs, w.dropped) else StatsUnchanged(inputs)
    {
      ok := true;
      if !open {
        ok := OpenTrace(p.tv, w);
        segments := MarkOpenedByWrite(segments);
      } else {
        var counted := currentSegsize + p.caplen;
        if cfg.segmentSize != 0 && counted > cfg.segmentSize {
          ok := OpenTrace(p.tv, w);
          segments := MarkOpenedByWrite(segments);
        } else {
          currentSegsize := counted;
        }
      }
    }

    method RecordPacket(p: Packet)
      modifies this`segmentDisorders, this`totalDisorders, this`lastTs, this`totalPackets,
               this`segmentPackets, this`segments
      ensures Snap() == RecordSpec(old(Snap()), p)
    {
      if Later(lastTs, p.tv) {
        segmentDisorders := segmentDisorders + 1;
        totalDisorders := totalDisorders + 1;
      }
      lastTs := p.tv;
      totalPackets := totalPackets + 1;
      segmentPackets := segmentPackets + 1;
      // trace_write_packet(output_, p)
      segments := AppendLast(segments, p);
    }

    /** rotate_trace: make sure a segment is open, then close it. */
    method RotateTrace(createTs: TimeVal, w: World) returns (ok: bool)
      requires Distinct(inputs) && Ready(w)
      modifies this, inputs`segmentPackets, inputs`segmentDrops
      ensures inputs == old(inputs)
      ensures ok <==> !RotateFails(old(Snap()), w)
      ensures ok ==> Snap() == RotateSpec(old(Snap()), createTs, w)
      ensures StatsUnchanged(inputs)
    {
      if !open {
        ok := OpenTrace(createTs, w);
        if !ok {
          return;
        }
      }
      CloseTrace(w.now);
      ok := true;
    }
  }

  /** The first packet of a segment is never a disorder unless it is stamped before the epoch. */
  lemma FirstPacketInOrder(p: Packet)
    requires p.tv.sec >= 0 && p.tv.usec >= 0
    ensures Disorders([p]) == 0
  {
    assert DisordersTo([p], 1) == DisordersTo([p], 0) + (if Later(Before([p], 0), p.tv) then 1 else 0);
  }

  /** Packets written in non-decreasing time order record no disorder. */
  lemma InOrderNoDisorders(ps: seq<Packet>)
    requires forall k | 0 < k < |ps| :: !Later(ps[k - 1].tv, ps[k].tv)
    requires ps != [] ==> ps[0].tv.sec >= 0 && ps[0].tv.usec >= 0
    ensures Disorders(ps) == 0
  {
    InOrderPrefix(ps, |ps|);
  }

  lemma {:induction false} InOrderPrefix(ps: seq<Packet>, n: nat)
    requires n <= |ps|
    requires forall k | 0 < k < n :: !Later(ps[k - 1].tv, ps[k].tv)
    requires n > 0 ==> ps[0].tv.sec >= 0 && ps[0].tv.usec >= 0
    ensures DisordersTo(ps, n) == 0
  {
    if n > 0 {
      InOrderPrefix(ps, n - 1);
    }
  }

  /** Disorders count against the previous packet only: a single backwards step counts once. */
  lemma OneStepBack(a: Packet, b: Packet)
    requires a.tv.sec >= 0 && a.tv.usec >= 0
    requires Later(a.tv, b.tv)
    ensures Disorders([a, b]) == 1
  {
    assert DisordersTo([a, b], 1) == DisordersTo([a, b], 0) + (if Later(Before([a, b], 0), a.tv) then 1 else 0);
    assert DisordersTo([a, b], 2) == DisordersTo([a, b], 1) + (if Later(Before([a, b], 1), b.tv) then 1 else 0);
  }
}
