/**
 * The main program of mtracecap.cc: what its options amount to, how it
 * configures the output manager, and the merge loop that polls the sources,
 * writes the earliest buffered packet and rotates segments on time.
 */
module Mtracecap {
  import opened Wrappers
  import opened Posix
  import opened Libtrace
  import opened MtcOutput
  import opened Merge
  import MtcLog
  import SeqNum

  /** MAXWAIT_MS: the default for `-w`. */
  const MAXWAIT_MS: U64 := 1

  /** maxwait_tv: the wait budget of a round, from `-w` milliseconds. */
  function MaxWait(ms: U64): (t: TimeVal)
    ensures 0 <= t.usec < 1000000 && t.sec >= 0
    ensures t.sec * 1000000 + t.usec == ms * 1000
    ensures Exhausted(t) <==> ms == 0
  {
    TimeVal(ms / 1000, (ms % 1000) * 1000)
  }

  /** `1024*1024*opt_segmentsize` in unsigned long arithmetic: the product wraps modulo 2^64. */
  function SegmentBytes(mb: U64): U64
  {
    (1048576 * mb) % 0x1_0000_0000_0000_0000
  }

  /** Below 2^44 megabytes the byte count is exact. */
  lemma SegmentBytesExact(mb: U64)
    requires mb < 17592186044416
    ensures SegmentBytes(mb) == mb * 1048576 && (mb != 0 ==> SegmentBytes(mb) != 0)
  {
  }

  /**
   * The byte count wraps to 0, which write_packet reads as "no size limit",
   * exactly for the `-S` values that are multiples of 2^44.
   */
  lemma SegmentBytesWraps(mb: U64)
    ensures SegmentBytes(mb) == 0 <==> mb % 17592186044416 == 0
  {
    var q, r := mb / 17592186044416, mb % 17592186044416;
    assert mb == q * 17592186044416 + r;
    assert 1048576 * mb == q * 0x1_0000_0000_0000_0000 + 1048576 * r;
    assert 0 <= 1048576 * r < 0x1_0000_0000_0000_0000;
    assert SegmentBytes(mb) == 1048576 * r;
  }

  /** opt_rotatesec: strtoul's unsigned long stored in a signed time_t. */
  function RotateSeconds(v: U64): (r: int)
    ensures r != 0 <==> v != 0
    ensures r >= 0 <==> v < 0x8000_0000_0000_0000
    ensures r % 0x1_0000_0000_0000_0000 == v
  {
    if v < 0x8000_0000_0000_0000 then v else v - 0x1_0000_0000_0000_0000
  }

  /** strncmp(s, pre, |pre|) == 0 for a C string s. */
  predicate HasPrefix(s: string, pre: string)
  {
    |pre| <= |s| && s[..|pre|] == pre
  }

  /**
   * The compression codec the options select. A level without a type means
   * gzip; a type is recognised by its first characters; an unknown type is
   * a panic with the message returned as the error.
   */
  function CompressionType(name: Option<string>, level: int): Result<CompressType, string>
  {
    if name.None? then Ok(if level >= 0 then Zlib else NoCompression)
    else
      var t := name.value;
      if HasPrefix(t, "gz") || HasPrefix(t, "zlib") then Ok(Zlib)
      else if HasPrefix(t, "bz") then Ok(Bz2)
      else if HasPrefix(t, "lzo") then Ok(Lzo)
      else if HasPrefix(t, "xz") then Ok(Lzma)
      else if HasPrefix(t, "no") then Ok(NoCompression)
      else Err("Unknown compression type: " + t + "\n")
  }

  /** One differing character, or a shorter string, rules out a prefix. */
  lemma Mismatch(s: string, pre: string, k: nat)
    requires k < |pre| && (k >= |s| || s[k] != pre[k])
    ensures !HasPrefix(s, pre)
  {
    if |pre| <= |s| {
      assert s[..|pre|][k] == s[k];
    }
  }

  /** The names of the usage text select what they say, whatever the level. */
  lemma CompressionNames(level: int)
    ensures CompressionType(Some("gzip"), level) == Ok(Zlib) && CompressionType(Some("zlib"), level) == Ok(Zlib)
    ensures CompressionType(Some("bzip2"), level) == Ok(Bz2) && CompressionType(Some("lzo"), level) == Ok(Lzo)
    ensures CompressionType(Some("xz"), level) == Ok(Lzma) && CompressionType(Some("none"), level) == Ok(NoCompression)
    ensures CompressionType(Some("lz4"), level).Err? && CompressionType(Some(""), level).Err?
  {
    assert "gzip"[..2] == "gz" && "zlib"[..4] == "zlib" && "bzip2"[..2] == "bz" && "none"[..2] == "no";
    assert "lzo"[..3] == "lzo" && "xz"[..2] == "xz";
    Mismatch("zlib", "gz", 0);
    Mismatch("bzip2", "gz", 0); Mismatch("bzip2", "zlib", 0);
    Mismatch("lzo", "gz", 0); Mismatch("lzo", "zlib", 0); Mismatch("lzo", "bz", 0);
    Mismatch("xz", "gz", 0); Mismatch("xz", "zlib", 0); Mismatch("xz", "bz", 0); Mismatch("xz", "lzo", 0);
    Mismatch("none", "gz", 0); Mismatch("none", "zlib", 0); Mismatch("none", "bz", 0);
    Mismatch("none", "lzo", 0); Mismatch("none", "xz", 0);
    Mismatch("lz4", "gz", 0); Mismatch("lz4", "zlib", 0); Mismatch("lz4", "bz", 0);
    Mismatch("lz4", "lzo", 2); Mismatch("lz4", "xz", 0); Mismatch("lz4", "no", 0);
    Mismatch("", "gz", 0); Mismatch("", "zlib", 0); Mismatch("", "bz", 0);
    Mismatch("", "lzo", 0); Mismatch("", "xz", 0); Mismatch("", "no", 0);
  }

  /** A recognised name stays recognised, with the same codec, whatever follows it. */
  lemma CompressionByPrefix(t: string, u: string, level: int)
    requires CompressionType(Some(t), level).Ok?
    ensures CompressionType(Some(t + u), level) == CompressionType(Some(t), level)
  {
    forall pre: string | |pre| <= |t|
      ensures (t + u)[..|pre|] == t[..|pre|]
    {
    }
  }

  /**
   * Whether main calls set_compression, and with what: only with a level
   * given and a codec other than none, so that a type without a level does
   * not compress.
   */
  function CompressionSetting(t: CompressType, level: int): Option<(CompressType, int)>
  {
    if level >= 0 && t != NoCompression then Some((t, level)) else None
  }

  lemma TypeWithoutLevel(name: string)
    requires CompressionType(Some(name), -1).Ok?
    ensures CompressionSetting(CompressionType(Some(name), -1).value, -1).None?
  {
  }

  lemma LevelWithoutType(level: int)
    requires 0 <= level <= 9
    ensures CompressionSetting(CompressionType(None, level).value, level) == Some((Zlib, level))
  {
  }

  /**
   * The options main acts on once the command line is parsed. `verbose`
   * counts the `-v` flags; the other numbers are what strtoul made of their
   * arguments; `compressLevel` is -1 unless `-z` was given.
   */
  datatype Options = Options(
    verbose: nat, compressType: Option<string>, compressLevel: int,
    seqnumFile: Option<string>, watchfile: Option<string>, segmentMb: U64, rotateSec: U64,
    extension: Option<string>, useutc: bool, pipeout: bool, maxWaitMs: U64)

  // One function per setter main calls, each applied only when its option was given.

  function WithSeqnumFile(c: Config, o: Options): Config
  {
    if o.seqnumFile.Some? then c.(seqnumFile := o.seqnumFile) else c
  }

  function WithCompression(c: Config, o: Options, codec: CompressType): Config
  {
    match CompressionSetting(codec, o.compressLevel)
    case Some((t, l)) => c.(compressType := t, compressLevel := l)
    case None => c
  }

  function WithWatchfile(c: Config, o: Options): Config
  {
    if o.watchfile.Some? then c.(watchfile := o.watchfile) else c
  }

  function WithSegmentSize(c: Config, o: Options): Config
  {
    if o.segmentMb != 0 then c.(segmentSize := SegmentBytes(o.segmentMb)) else c
  }

  function WithRotateSec(c: Config, o: Options): Config
  {
    if o.rotateSec != 0 then c.(rotateSec := o.rotateSec) else c
  }

  function WithExtension(c: Config, o: Options): Config
  {
    if o.extension.Some? then c.(extension := o.extension) else c
  }

  function WithPipeout(c: Config, o: Options): Config
  {
    if o.pipeout then c.(piping := true) else c
  }

  /** set_compression, set_watchfile and set_segmentsize. */
  function SizeOptions(c: Config, o: Options, codec: CompressType): Config
  {
    WithSegmentSize(WithWatchfile(WithCompression(c, o, codec), o), o)
  }

  /** set_rotatesec, set_extension, set_useutc and set_pipeout. */
  function NamingOptions(c: Config, o: Options): Config
  {
    WithPipeout(WithExtension(WithRotateSec(c, o), o).(useutc := o.useutc), o)
  }

  /** The setters after set_seqnumfile, from set_compression to set_pipeout. */
  function Optioned(c: Config, o: Options, codec: CompressType): Config
  {
    NamingOptions(SizeOptions(c, o, codec), o)
  }

  /** The configuration main's setters leave on top of `c`, in main's order. */
  function Configured(c: Config, o: Options, codec: CompressType): Config
  {
    Optioned(WithSeqnumFile(c, o), o, codec)
  }

  /**
   * On the constructor's configuration every option ends up in its own
   * member: an option left out keeps the constructor's default (no file,
   * no size limit, no rotation period, no compression), and `-U` goes in
   * whether or not it was given.
   */
  lemma ConfiguredFromInitial(basenameMode: bool, target: string, isPcap: bool, started: TimeVal, o: Options, codec: CompressType)
    ensures var compression := CompressionSetting(codec, o.compressLevel);
      Configured(Initial(basenameMode, target, isPcap, started).cfg, o, codec)
        == Config(basenameMode, target, isPcap, o.watchfile, o.seqnumFile, o.extension, o.pipeout, o.useutc, false,
                  if compression.Some? then compression.value.1 else -1,
                  if compression.Some? then compression.value.0 else NoCompression,
                  SegmentBytes(o.segmentMb), o.rotateSec)
  {
    SizeFromInitial(basenameMode, target, isPcap, started, o, codec);
    NamingFromDefaults(SizeOptions(WithSeqnumFile(Initial(basenameMode, target, isPcap, started).cfg, o), o, codec), o);
  }

  /** The sequence file and the size options on the constructor's configuration. */
  lemma SizeFromInitial(basenameMode: bool, target: string, isPcap: bool, started: TimeVal, o: Options, codec: CompressType)
    ensures var compression := CompressionSetting(codec, o.compressLevel);
      SizeOptions(WithSeqnumFile(Initial(basenameMode, target, isPcap, started).cfg, o), o, codec)
        == Config(basenameMode, target, isPcap, o.watchfile, o.seqnumFile, None, false, true, false,
                  if compression.Some? then compression.value.1 else -1,
                  if compression.Some? then compression.value.0 else NoCompression,
                  SegmentBytes(o.segmentMb), 0)
  {
    var compression := CompressionSetting(codec, o.compressLevel);
    var c1 := WithSeqnumFile(Initial(basenameMode, target, isPcap, started).cfg, o);
    assert c1 == Config(basenameMode, target, isPcap, None, o.seqnumFile, None, false, true, false, -1, NoCompression, 0, 0);
    var c2 := WithCompression(c1, o, codec);
    assert c2 == c1.(compressType := if compression.Some? then compression.value.0 else NoCompression,
                     compressLevel := if compression.Some? then compression.value.1 else -1);
    assert WithWatchfile(c2, o) == c2.(watchfile := o.watchfile);
  }

  /** Where no rotation period, extension or pipe is set yet, the naming options put in just what they say. */
  lemma NamingFromDefaults(c: Config, o: Options)
    requires c.rotateSec == 0 && c.extension.None? && !c.piping
    ensures NamingOptions(c, o) == c.(rotateSec := o.rotateSec, extension := o.extension, useutc := o.useutc, piping := o.pipeout)
  {
    var c5 := WithRotateSec(c, o);
    assert c5 == c.(rotateSec := o.rotateSec);
    var c6 := WithExtension(c5, o).(useutc := o.useutc);
    assert c6 == c5.(extension := o.extension, useutc := o.useutc);
  }

  /** main's calls of set_compression, set_watchfile and set_segmentsize, each when its option was given. */
  method ApplySizeOptions(out: Output, o: Options, codec: CompressType)
    modifies out`cfg
    ensures out.cfg == SizeOptions(old(out.cfg), o, codec)
  {
    var compression := CompressionSetting(codec, o.compressLevel);
    if compression.Some? {
      out.SetCompression(compression.value.0, compression.value.1);
    }
    ghost var c := WithCompression(old(out.cfg), o, codec);
    assert out.cfg == c;
    if o.watchfile.Some? {
      out.SetWatchfile(o.watchfile.value);
    }
    c := WithWatchfile(c, o);
    assert out.cfg == c;
    if o.segmentMb != 0 {
      out.SetSegmentSize(SegmentBytes(o.segmentMb));
    }
    assert out.cfg == WithSegmentSize(c, o);
  }

  /** main's calls of set_rotatesec, set_extension, set_useutc and set_pipeout. */
  method ApplyNamingOptions(out: Output, o: Options)
    modifies out`cfg
    ensures out.cfg == NamingOptions(old(out.cfg), o)
  {
    if o.rotateSec != 0 {
      out.SetRotateSec(o.rotateSec);
    }
    ghost var c := WithRotateSec(old(out.cfg), o);
    assert out.cfg == c;
    if o.extension.Some? {
      out.SetExtension(o.extension.value);
    }
    c := WithExtension(c, o).(useutc := o.useutc);
    out.SetUseUtc(o.useutc);
    assert out.cfg == c;
    if o.pipeout {
      out.SetPipeout();
    }
    assert out.cfg == WithPipeout(c, o);
  }

  /**
   * The output manager's state after main's setters: the options'
   * configuration and, with `-N`, the counter and content of the sequence
   * file; everything else as it was.
   */
  function Armed(s: OutState, o: Options, codec: CompressType, disk: Option<string>): OutState
    requires o.seqnumFile.Some? ==> SeqNum.ParseSeqnum(disk).Ok?
  {
    var loaded := if o.seqnumFile.Some? then s.(seqnum := SeqNum.ParseSeqnum(disk).value, seqStore := disk.value) else s;
    loaded.(cfg := Configured(s.cfg, o, codec))
  }

  /**
   * main's calls of the setters, from set_seqnumfile to set_pipeout. A false
   * result is the panic of a sequence file that cannot be read, after which
   * nothing else is set.
   */
  method Configure(out: Output, o: Options, codec: CompressType, disk: Option<string>) returns (ok: bool)
    requires Inv(out.Snap())
    modifies out`cfg, out`seqnum, out`seqStore
    ensures ok <==> (o.seqnumFile.Some? ==> SeqNum.ParseSeqnum(disk).Ok?)
    ensures ok ==> out.Snap() == Armed(old(out.Snap()), o, codec, disk) && Inv(out.Snap())
  {
    if o.seqnumFile.Some? {
      LoadKeepsInv(out.Snap().(cfg := out.cfg.(seqnumFile := o.seqnumFile)), disk);
      ok := out.SetSeqnumFile(o.seqnumFile.value, disk);
      if !ok {
        return;
      }
    } else {
      ok := true;
    }
    ghost var loaded := out.Snap();
    ApplySizeOptions(out, o, codec);
    ApplyNamingOptions(out, o);
    ConfigKeepsInv(loaded, out.cfg);
    assert out.Snap() == loaded.(cfg := out.cfg);
  }

  /** The sources just started: active, holding nothing, having taken nothing. */
  function Started(scripts: seq<seq<Event>>): (r: seq<Source>)
    ensures |r| == |scripts| && Settled(r) && CountActive(r) == |r| && Balance(r) == 0
    ensures forall k | 0 <= k < |r| :: r[k] == Source(true, None, 0, 0, scripts[k])
  {
    if scripts == [] then []
    else
      var r := Started(scripts[..|scripts| - 1]) + [Source(true, None, 0, 0, scripts[|scripts| - 1])];
      assert r[..|r| - 1] == Started(scripts[..|scripts| - 1]);
      r
  }

  /** The rest of an MTC_Input: its URI and its segment statistics. */
  function Details(x: Input): (string, U64, nat)
    reads x`uri, x`segmentDrops, x`segmentPackets
  {
    (x.uri, x.segmentDrops, x.segmentPackets)
  }

  function DetailsOf(ins: seq<Input>): (r: seq<(string, U64, nat)>)
    reads ins
    ensures |r| == |ins|
  {
    seq(|ins|, k requires 0 <= k < |ins| reads ins => Details(ins[k]))
  }

  /**
   * Merge sources `v` with details `d` stand for the first |v| URIs, just
   * started: active, holding nothing, with the URI and the drop count at start.
   */
  predicate OpenedAs(v: seq<Source>, d: seq<(string, U64, nat)>, uris: seq<string>, scripts: seq<seq<Event>>, drops: seq<U64>)
  {
    && |v| == |d| && |d| <= |uris| && |d| <= |scripts| && |d| <= |drops|
    && forall k | 0 <= k < |v| :: v[k] == Source(true, None, 0, 0, scripts[k]) && d[k] == (uris[k], drops[k], 0)
  }

  /** The details of the sources just started: each URI, its drop count at start and no packets. */
  function OpenedDetails(uris: seq<string>, drops: seq<U64>): seq<(string, U64, nat)>
    requires |drops| == |uris|
  {
    seq(|uris|, k requires 0 <= k < |uris| => (uris[k], drops[k], 0))
  }

  /** Once every URI is opened, the sources are the ones just started. */
  lemma OpenedStarted(v: seq<Source>, d: seq<(string, U64, nat)>, uris: seq<string>, scripts: seq<seq<Event>>, drops: seq<U64>)
    requires OpenedAs(v, d, uris, scripts, drops) && |v| == |scripts|
    ensures v == Started(scripts)
  {
  }

  /** Once every URI is opened, the details are each URI with its drop count at start and no packets. */
  lemma OpenedAll(v: seq<Source>, d: seq<(string, U64, nat)>, uris: seq<string>, scripts: seq<seq<Event>>, drops: seq<U64>)
    requires OpenedAs(v, d, uris, scripts, drops) && |v| == |scripts| == |drops| == |uris|
    ensures v == Started(scripts) && d == OpenedDetails(uris, drops)
  {
    OpenedStarted(v, d, uris, scripts, drops);
  }

  /** Opening the next URI extends the sources opened so far by one just started. */
  lemma OpenedGrows(v: seq<Source>, d: seq<(string, U64, nat)>, uris: seq<string>, scripts: seq<seq<Event>>, drops: seq<U64>,
                    s: Source, e: (string, U64, nat))
    requires OpenedAs(v, d, uris, scripts, drops) && |v| < |uris| && |v| < |scripts| && |v| < |drops|
    requires s == Source(true, None, 0, 0, scripts[|v|]) && e == (uris[|v|], drops[|v|], 0)
    ensures OpenedAs(v + [s], d + [e], uris, scripts, drops)
  {
  }

  /** A source appended to a list appears at the end of its view and its details. */
  lemma Appended(xs: seq<Input>, x: Input)
    ensures View(xs + [x]) == View(xs) + [SourceOf(x)] && DetailsOf(xs + [x]) == DetailsOf(xs) + [Details(x)]
  {
    assert forall k | 0 <= k < |xs| :: (xs + [x])[k] == xs[k];
  }

  /** One iteration of the opening loop that succeeds: a fresh source, active, with its drop count at start. */
  method OpenInput(uri: string, script: seq<Event>, drop: U64) returns (x: Input)
    ensures fresh(x) && SourceOf(x) == Source(true, None, 0, 0, script) && Details(x) == (uri, drop, 0)
  {
    x := new Input();
    x.uri := uri;
    x.active := true;
    x.events := script;
    x.segmentDrops := drop;
  }

  /**
   * The loop of main that creates and starts one source per input URI and
   * notes its drop count. `starts[k]` says whether trace_create, the filter
   * and trace_start all succeed for URI k; the first that does not makes
   * main exit, here None.
   */
  method OpenInputs(uris: seq<string>, starts: seq<bool>, scripts: seq<seq<Event>>, drops: seq<U64>)
    returns (input: Option<array<Input>>)
    requires |starts| == |scripts| == |drops| == |uris|
    ensures input.None? <==> exists k | 0 <= k < |uris| :: !starts[k]
    ensures input.Some? ==> var a := input.value;
      && fresh(a) && a.Length == |uris| && Distinct(a[..]) && (forall k | 0 <= k < a.Length :: fresh(a[k]))
      && OpenedAs(View(a[..]), DetailsOf(a[..]), uris, scripts, drops) && View(a[..]) == Started(scripts)
  {
    var xs: seq<Input> := [];
    for i := 0 to |uris|
      invariant |xs| == i && Distinct(xs) && OpenedAs(View(xs), DetailsOf(xs), uris, scripts, drops)
      invariant forall k | 0 <= k < i :: fresh(xs[k])
      invariant forall k | 0 <= k < i :: starts[k]
    {
      if !starts[i] {
        return None;
      }
      ghost var v, d := View(xs), DetailsOf(xs);
      xs := OpenNext(xs, uris[i], scripts[i], drops[i]);
      OpenedGrows(v, d, uris, scripts, drops, Source(true, None, 0, 0, scripts[i]), (uris[i], drops[i], 0));
    }
    var a := InputArray(xs);
    OpenedStarted(View(xs), DetailsOf(xs), uris, scripts, drops);
    input := Some(a);
  }

  /** Opens one more input after the ones in `xs`. */
  method OpenNext(xs: seq<Input>, uri: string, script: seq<Event>, drop: U64) returns (ys: seq<Input>)
    requires Distinct(xs)
    ensures |ys| == |xs| + 1 && ys[..|xs|] == xs && fresh(ys[|xs|]) && Distinct(ys)
    ensures View(ys) == View(xs) + [Source(true, None, 0, 0, script)]
    ensures DetailsOf(ys) == DetailsOf(xs) + [(uri, drop, 0)]
  {
    ghost var v, d := View(xs), DetailsOf(xs);
    var x := OpenInput(uri, script, drop);
    assert View(xs) == v && DetailsOf(xs) == d;
    Appended(xs, x);
    ys := xs + [x];
    assert ys[..|xs|] == xs;
  }

  /** The `input` array main allocates for the sources it has opened. */
  method InputArray(xs: seq<Input>) returns (a: array<Input>)
    ensures fresh(a) && a[..] == xs
  {
    a := new Input[|xs|](k requires 0 <= k < |xs| => xs[k]);
    assert a[..] == xs;
  }

  /** The packet-related part of an MTC_Input, as a merge source. */
  function SourceOf(x: Input): Source
    reads x`active, x`packet, x`prevTs, x`totalPackets, x`events
  {
    Source(x.active, x.packet, x.prevTs, x.totalPackets, x.events)
  }

  function View(ins: seq<Input>): (r: seq<Source>)
    reads ins
  {
    seq(|ins|, k requires 0 <= k < |ins| reads ins => SourceOf(ins[k]))
  }

  /** trace_event: the source answers its next event. */
  method TraceEvent(x: Input) returns (e: Event)
    modifies x`events
    ensures e == Head(old(x.events)) && x.events == Rest(old(x.events))
  {
    e := Head(x.events);
    x.events := Rest(x.events);
  }

  /**
   * The source takes p: it buffers it, counts it in its totals and in its
   * segment, and remembers its stamp; `disorder` is the warning that p is
   * stamped before the source's previous packet.
   */
  method Take(x: Input, p: Packet) returns (disorder: bool)
    modifies x`packet, x`prevTs, x`totalPackets, x`segmentPackets
    ensures SourceOf(x) == Accept(old(SourceOf(x)), p)
    ensures x.segmentPackets == old(x.segmentPackets) + 1
    ensures disorder <==> old(x.prevTs) > p.erf
  {
    x.packet := Some(p);
    x.totalPackets := x.totalPackets + 1;
    x.segmentPackets := x.segmentPackets + 1;
    disorder := x.prevTs > p.erf;
    x.prevTs := p.erf;
  }

  /**
   * The loop body for an active source with no packet, re-running the same
   * source while it answers packets without a layer-3 header. `fatal` is the
   * exit on an unknown event; `left` is the wait budget that remains.
   */
  method PollInput(x: Input, budget: TimeVal) returns (fatal: bool, left: TimeVal, disorder: bool)
    requires x.active && x.packet.None?
    modifies x`active, x`packet, x`prevTs, x`totalPackets, x`events, x`segmentPackets
    ensures var r := Poll(old(SourceOf(x)), budget);
      && (fatal <==> r.Fatal?)
      && (!fatal ==> SourceOf(x) == r.src && left == r.budget)
    ensures x.segmentPackets == old(x.segmentPackets) + (if !fatal && x.packet.Some? then 1 else 0)
    ensures disorder <==> !fatal && x.packet.Some? && old(x.prevTs) > x.packet.value.erf
  {
    fatal, left, disorder := false, budget, false;
    while true
      invariant x.active && x.packet.None?
      invariant Poll(SourceOf(x), left) == Poll(old(SourceOf(x)), budget)
      invariant x.segmentPackets == old(x.segmentPackets) && x.prevTs == old(x.prevTs)
      decreases |x.events|
    {
      var e := TraceEvent(x);
      match e
      case Sleep =>
        return;
      case IoWait(wait, remaining) =>
        if Exhausted(left) {
          return;
        }
        left := remaining;
        if !wait.Readable? {
          return;
        }
        e := TraceEvent(x);
        if !e.PacketEvent? {
          return;
        }
        if Layer3(e.hasLayer3, e.ethertype) {
          disorder := Take(x, e.p);
          return;
        }
      case PacketEvent(p, hasLayer3, ethertype) =>
        if Layer3(hasLayer3, ethertype) {
          disorder := Take(x, p);
          return;
        }
      case Terminate =>
        x.active := false;
        return;
      case Unknown =>
        fatal := true;
        return;
    }
  }

  /** Once a pass has exited, polling more sources does not undo it. */
  lemma {:induction false} FailedStays(srcs: seq<Source>, i: nat, n: nat, budget: TimeVal)
    requires i <= n <= |srcs| && PassTo(srcs, i, budget).Failed?
    ensures PassTo(srcs, n, budget).Failed?
    decreases n - i
  {
    if i < n {
      FailedStays(srcs, i, n - 1, budget);
    }
  }

  /** A source's details after a pass: its segment count grows by the packet the pass made it take, if any. */
  function Counted(e: (string, U64, nat), before: Source, after: Source): (string, U64, nat)
  {
    (e.0, e.1, e.2 + if before.packet.None? && after.packet.Some? then 1 else 0)
  }

  /** The details of the sources after a pass took them from `before` to `after`. */
  function Tally(d: seq<(string, U64, nat)>, before: seq<Source>, after: seq<Source>): seq<(string, U64, nat)>
    requires |d| == |before| == |after|
  {
    seq(|d|, k requires 0 <= k < |d| => Counted(d[k], before[k], after[k]))
  }

  /** The details once dump_seg_stats has run: no packets in the segment yet, drops counted from `dropped`. */
  function Reset(d: seq<(string, U64, nat)>, dropped: seq<U64>): seq<(string, U64, nat)>
    requires |dropped| == |d|
  {
    seq(|d|, k requires 0 <= k < |d| => (d[k].0, dropped[k], 0))
  }

  /** A pass that changed nothing counted nothing. */
  lemma TallyNone(d: seq<(string, U64, nat)>, v: seq<Source>)
    requires |d| == |v|
    ensures Tally(d, v, v) == d
  {
  }

  /** A pass that has reached source i, then visits it, counts what it took from the start. */
  lemma TallyStep(d0: seq<(string, U64, nat)>, v0: seq<Source>, cur: seq<Source>, t: seq<Source>, i: nat)
    requires |d0| == |v0| == |cur| == |t| && i < |v0| && cur[i] == v0[i]
    requires forall k | 0 <= k < |cur| && k != i :: t[k] == cur[k]
    ensures Tally(Tally(d0, v0, cur), cur, t) == Tally(d0, v0, t)
  {
    assert forall k | 0 <= k < |d0| :: Tally(Tally(d0, v0, cur), cur, t)[k] == Tally(d0, v0, t)[k];
  }

  /** The loop body for source i: an inactive source, or one holding a packet, is left alone. */
  method VisitInput(ins: seq<Input>, i: nat, budget: TimeVal) returns (fatal: bool, left: TimeVal)
    requires i < |ins| && Distinct(ins)
    modifies ins[i]
    ensures var r := Visit(old(View(ins))[i], budget);
      && (fatal <==> r.Fatal?)
      && (!fatal ==> View(ins) == old(View(ins))[i := r.src] && left == r.budget)
    ensures !fatal ==> DetailsOf(ins) == Tally(old(DetailsOf(ins)), old(View(ins)), View(ins))
  {
    var x := ins[i];
    ghost var v, d := View(ins), DetailsOf(ins);
    if x.active && x.packet.None? {
      var disorder;
      fatal, left, disorder := PollInput(x, budget);
      if !fatal {
        assert View(ins) == v[i := SourceOf(x)];
        assert forall k | 0 <= k < |ins| :: DetailsOf(ins)[k] == Tally(d, v, View(ins))[k];
      }
    } else {
      fatal, left := false, budget;
      assert View(ins) == v[i := v[i]];
      TallyNone(d, v);
    }
  }

  /** Visiting source i keeps the loop's counters: the active count and the running minimum over sources 0..i. */
  lemma VisitCounts(v: seq<Source>, i: nat, x: Source, pick: Pick)
    requires i < |v| && pick == MinTo(v, i)
    ensures var t := v[i := x];
      && CountActive(t) == CountActive(v) - (if v[i].active then 1 else 0) + (if x.active then 1 else 0)
      && MinTo(t, i + 1) == (if Candidate(x) && Stamp(x) < pick.erf then Pick(Stamp(x), i) else pick)
  {
    CountsUpdate(v, i, x);
    MinToPrefix(v, v[i := x], i);
  }

  /**
   * The state of the scan after the first i sources: the pass so far, the
   * minimum of the stamps seen so far and the count of active sources.
   */
  ghost predicate Scanned(v0: seq<Source>, budget0: TimeVal, i: nat, cur: seq<Source>,
                          budget: TimeVal, pick: Pick, active: nat)
  {
    && i <= |v0| == |cur|
    && PassTo(v0, i, budget0) == Passed(cur, budget)
    && pick == MinTo(cur, i)
    && active == CountActive(cur)
  }

  /**
   * One iteration of the for-loop over the sources: visit source i, then
   * bring the active count and the running minimum up to date. `v0` and
   * `budget0` are the sources and the budget the pass started from.
   */

  method PollStep(ins: seq<Input>, i: nat, budget: TimeVal, pick: Pick, active: nat,
                  ghost v0: seq<Source>, ghost budget0: TimeVal, ghost d0: seq<(string, U64, nat)>)
    returns (fatal: bool, left: TimeVal, pick': Pick, active': nat)
    requires i < |ins| && Distinct(ins)
    requires Scanned(v0, budget0, i, View(ins), budget, pick, active)
    requires |d0| == |v0| && DetailsOf(ins) == Tally(d0, v0, View(ins))
    modifies ins[i]
    ensures fatal ==> PassTo(v0, i + 1, budget0).Failed?
    ensures !fatal ==> Scanned(v0, budget0, i + 1, View(ins), left, pick', active')
    ensures !fatal ==> DetailsOf(ins) == Tally(d0, v0, View(ins))
  {
    ghost var cur := View(ins);
    var wasActive := ins[i].active;
    fatal, left := VisitInput(ins, i, budget);
    if fatal {
      return fatal, left, pick, active;
    }
    ghost var t := View(ins);
    TallyStep(d0, v0, cur, t, i);
    VisitCounts(cur, i, t[i], pick);
    var x := ins[i];
    assert SourceOf(x) == t[i];
    pick', active' := pick, active;
    if wasActive && !x.active {
      active' := active - 1;
    }
    if x.active && x.packet.Some? && x.packet.value.erf < pick.erf {
      pick' := Pick(x.packet.value.erf, i);
    }
  }

  /**
   * The for-loop over the sources: poll each active source that holds no
   * packet, keeping the running minimum of the buffered ERF stamps and the
   * count of active sources.
   */
  method PollAll(input: array<Input>, budget: TimeVal, active: nat) returns (fatal: bool, pick: Pick, activeLeft: nat)
    requires Distinct(input[..]) && active == CountActive(View(input[..]))
    modifies input[..]
    ensures var r := Pass(old(View(input[..])), budget);
      && (fatal <==> r.Failed?)
      && (!fatal ==> View(input[..]) == r.srcs && pick == Select(r.srcs) && activeLeft == CountActive(r.srcs))
    ensures !fatal ==> DetailsOf(input[..]) == Tally(old(DetailsOf(input[..])), old(View(input[..])), View(input[..]))
  {
    fatal, pick, activeLeft := false, Pick(U64_MAX, -1), active;
    var b := budget;
    var ins := input[..];
    ghost var v0, d0 := View(ins), DetailsOf(ins);
    TallyNone(d0, v0);
    for i := 0 to |ins|
      invariant Scanned(v0, budget, i, View(ins), b, pick, activeLeft)
      invariant DetailsOf(ins) == Tally(d0, v0, View(ins))
    {
      fatal, b, pick, activeLeft := PollStep(ins, i, b, pick, activeLeft, v0, budget, d0);
      if fatal {
        FailedStays(v0, i + 1, |ins|, budget);
        return;
      }
    }
  }

  /** The time test of the merge loop: `opt_rotatesec && t.tv_sec >= last_rotated().tv_sec + opt_rotatesec`. */
  predicate RotateDue(last: TimeVal, rotateSec: int, t: TimeVal)
  {
    rotateSec != 0 && t.sec >= last.sec + rotateSec
  }

  /** What the environment answers during one round of the merge loop. */
  datatype Tick = Tick(
    signalled: bool,   // whether SIGINT or SIGTERM has arrived by the loop test
    now: TimeVal,      // gettimeofday at the top of the round
    rotate: World,     // during a rotation on the wall clock
    catchUp: World,    // during a rotation on the selected packet's clock
    write: World)      // during write_packet

  /** How a round ends: the process exits, on an unknown event or a segment that cannot be opened, or the loop goes on. */
  datatype Outcome = Exited | Continued(out: OutState, srcs: seq<Source>)

  /** rotate_trace(t) when the rotation interval has run out at time t. */
  function RotateIfDue(s: OutState, rotateSec: int, t: TimeVal, w: World): (r: OutState)
    ensures Inv(s) ==> Inv(r) && Stream(r.segments) == Stream(s.segments)
    ensures r.cfg == s.cfg
    ensures RotateDue(s.lastRotated, rotateSec, t) ==> !r.open && r.lastRotated == w.now
    ensures !RotateDue(s.lastRotated, rotateSec, t) ==> r == s
  {
    if !RotateDue(s.lastRotated, rotateSec, t) then s
    else if Inv(s) then RotateKeepsInv(s, t, w); RotateSpec(s, t, w)
    else RotateSpec(s, t, w)
  }

  /** The rotation RotateIfDue makes ends the process. */
  predicate RotationFails(s: OutState, rotateSec: int, t: TimeVal, w: World)
  {
    RotateDue(s.lastRotated, rotateSec, t) && RotateFails(s, w)
  }

  /**
   * The end of a round, once the sources are polled: when one holds the
   * earliest packet, rotate on that packet's clock if due, write the packet
   * and release it from its source.
   */
  function Deliver(s: OutState, polled: seq<Source>, rotateSec: int, t: Tick): Outcome
  {
    var m := Select(polled);
    if m.idx == -1 then Continued(s, polled)
    else
      SelectIsMinimum(polled);
      var p := polled[m.idx].packet.value;
      var s2 := RotateIfDue(s, rotateSec, p.tv, t.catchUp);
      if RotationFails(s, rotateSec, p.tv, t.catchUp) || WriteFails(s2, p, t.write) then Exited
      else Continued(WriteSpec(s2, p, t.write), polled[m.idx := polled[m.idx].(packet := None)])
  }

  /**
   * One round of the merge loop: rotate on the wall clock if due, poll the
   * sources, then deliver the earliest packet.
   */
  function RoundSpec(s: OutState, srcs: seq<Source>, rotateSec: int, maxWait: TimeVal, t: Tick): Outcome
  {
    if RotationFails(s, rotateSec, t.now, t.rotate) then Exited
    else match Pass(srcs, maxWait)
      case Failed => Exited
      case Passed(polled, _) => Deliver(RotateIfDue(s, rotateSec, t.now, t.rotate), polled, rotateSec, t)
  }

  /**
   * Delivery keeps the output manager's invariant and configuration and the
   * sources settled, and passes on exactly the packets it writes.
   */
  lemma DeliverKeeps(s: OutState, polled: seq<Source>, rotateSec: int, t: Tick)
    requires Inv(s) && Settled(polled)
    ensures var r := Deliver(s, polled, rotateSec, t);
      r.Continued? ==>
      && Inv(r.out) && r.out.cfg == s.cfg && Settled(r.srcs) && |r.srcs| == |polled|
      && Balance(r.srcs) - |Stream(r.out.segments)| == Balance(polled) - |Stream(s.segments)|
      && CountActive(r.srcs) == CountActive(polled)
      && (forall k | 0 <= k < |polled| :: r.srcs[k] == polled[k] || r.srcs[k] == polled[k].(packet := None))
  {
    var m := Select(polled);
    if m.idx != -1 {
      SelectIsMinimum(polled);
      RotateThenWrite(s, rotateSec, polled[m.idx].packet.value, t);
      ReleaseKeeps(polled, m.idx);
    }
  }

  /** Rotating on a packet's clock and then writing it keeps the invariant and adds the packet to the stream. */
  lemma RotateThenWrite(s: OutState, rotateSec: int, p: Packet, t: Tick)
    requires Inv(s)
    ensures var r := WriteSpec(RotateIfDue(s, rotateSec, p.tv, t.catchUp), p, t.write);
      Inv(r) && r.cfg == s.cfg && Stream(r.segments) == Stream(s.segments) + [p]
  {
    var s2 := RotateIfDue(s, rotateSec, p.tv, t.catchUp);
    WriteKeepsInv(s2, p, t.write);
    SpecsKeepConfig(s2, p, p.tv, t.write);
  }

  /** Releasing a held packet keeps the sources settled and changes nothing but that packet. */
  lemma ReleaseKeeps(srcs: seq<Source>, i: nat)
    requires Settled(srcs) && i < |srcs| && srcs[i].packet.Some?
    ensures var t := srcs[i := srcs[i].(packet := None)];
      && Settled(t) && Balance(t) == Balance(srcs) + 1 && CountActive(t) == CountActive(srcs)
  {
    ReleaseCounts(srcs, i);
  }

  /**
   * What delivery writes: nothing when no source holds a packet stamped
   * below the scan's start value; otherwise exactly the packet with the
   * smallest ERF stamp, from the lowest-indexed source among equal stamps,
   * which then holds nothing while the other sources stay as they were.
   * Delivering that packet ends the process exactly when the rotation on its
   * clock or its write has to set up a segment and cannot.
   */
  lemma DeliverWrites(s: OutState, polled: seq<Source>, rotateSec: int, t: Tick)
    requires Inv(s)
    ensures var r := Deliver(s, polled, rotateSec, t);
      var i := Select(polled).idx;
      && ((forall k | 0 <= k < |polled| && Candidate(polled[k]) :: Stamp(polled[k]) == U64_MAX) ==>
            r == Continued(s, polled))
      && (i != -1 ==>
            && 0 <= i < |polled| && Candidate(polled[i])
            && (forall k | 0 <= k < |polled| && Candidate(polled[k]) :: Stamp(polled[i]) <= Stamp(polled[k]))
            && (forall k | 0 <= k < i && Candidate(polled[k]) :: Stamp(polled[i]) < Stamp(polled[k]))
            && (var p := polled[i].packet.value;
                r.Exited? <==> RotationFails(s, rotateSec, p.tv, t.catchUp)
                               || WriteFails(RotateIfDue(s, rotateSec, p.tv, t.catchUp), p, t.write))
            && (r.Continued? ==>
                  && Stream(r.out.segments) == Stream(s.segments) + [polled[i].packet.value]
                  && r.srcs == polled[i := polled[i].(packet := None)]))
  {
    SelectIsMinimum(polled);
    var m := Select(polled);
    if m.idx != -1 {
      var p := polled[m.idx].packet.value;
      WriteKeepsInv(RotateIfDue(s, rotateSec, p.tv, t.catchUp), p, t.write);
    }
  }

  /**
   * A round keeps the invariants of the merge: the output manager's
   * invariant and configuration, inactive sources holding nothing, no source
   * becoming active again, and the conservation of packets: what the sources
   * have passed on grows exactly as the written stream does. A source that
   * held a packet is not polled; at most its packet is released.
   */
  lemma RoundKeeps(s: OutState, srcs: seq<Source>, rotateSec: int, maxWait: TimeVal, t: Tick)
    requires Inv(s) && Settled(srcs)
    ensures var r := RoundSpec(s, srcs, rotateSec, maxWait, t);
      r.Continued? ==>
        && Inv(r.out) && r.out.cfg == s.cfg && Settled(r.srcs) && |r.srcs| == |srcs|
        && Balance(r.srcs) - |Stream(r.out.segments)| == Balance(srcs) - |Stream(s.segments)|
        && CountActive(r.srcs) <= CountActive(srcs)
        && (forall k | 0 <= k < |srcs| :: r.srcs[k].active ==> srcs[k].active)
        && (forall k | 0 <= k < |srcs| && srcs[k].packet.Some? ::
              r.srcs[k] == srcs[k] || r.srcs[k] == srcs[k].(packet := None))
  {
    PassKeeps(srcs, |srcs|, maxWait);
    PassCounts(srcs, |srcs|, maxWait);
    match Pass(srcs, maxWait)
    case Failed =>
    case Passed(polled, _) =>
      DeliverKeeps(RotateIfDue(s, rotateSec, t.now, t.rotate), polled, rotateSec, t);
  }

  /** The output manager leaves the sources' packet state alone. */
  twostate lemma ViewKept(ins: seq<Input>)
    requires forall k | 0 <= k < |ins| :: SourceOf(ins[k]) == old(SourceOf(ins[k]))
    ensures View(ins) == old(View(ins))
  {
  }
  /** Sources none of whose fields changed look the same, as merge sources and in their details. */
  twostate lemma InputsUnchanged(ins: seq<Input>)
    requires forall k | 0 <= k < |ins| :: unchanged(ins[k])
    ensures View(ins) == old(View(ins)) && DetailsOf(ins) == old(DetailsOf(ins))
  {
  }


  /**
   * rotate_trace(ts) when the rotation interval has run out at ts; the
   * sources' packet state is untouched. A true `fatal` means the process ended.
   */
  method RotateOnTime(out: Output, ins: seq<Input>, rotateSec: int, ts: TimeVal, w: World) returns (fatal: bool)
    requires Distinct(ins) && out.inputs == ins && out.Ready(w)
    modifies out, ins
    ensures out.inputs == ins
    ensures fatal <==> RotationFails(old(out.Snap()), rotateSec, ts, w)
    ensures !fatal ==> out.cfg == old(out.cfg) && out.Snap() == RotateIfDue(old(out.Snap()), rotateSec, ts, w)
    ensures View(ins) == old(View(ins)) && DetailsOf(ins) == old(DetailsOf(ins))
  {
    fatal := false;
    if rotateSec != 0 && ts.sec >= out.LastRotated().sec + rotateSec {
      ghost var v, d := View(ins), DetailsOf(ins);
      var ok := out.RotateTrace(ts, w);
      fatal := !ok;
      assert forall k | 0 <= k < |ins| :: View(ins)[k] == SourceOf(ins[k]) == v[k];
      assert forall k | 0 <= k < |ins| :: DetailsOf(ins)[k] == Details(ins[k]) == d[k];
    }
  }

  /** Details that each keep the URI and hold the given drop count and no packets are the reset ones. */
  lemma ResetAt(d0: seq<(string, U64, nat)>, d: seq<(string, U64, nat)>, dropped: seq<U64>)
    requires |d| == |d0| == |dropped|
    requires forall k | 0 <= k < |d| :: d[k] == (d0[k].0, dropped[k], 0)
    ensures d == Reset(d0, dropped)
  {
  }

  /** write_packet(p); the sources' packet state is untouched. A true `fatal` means the process ended. */
  method WriteOut(out: Output, ins: seq<Input>, p: Packet, w: World) returns (fatal: bool)
    requires Distinct(ins) && out.inputs == ins && out.Ready(w)
    modifies out, ins
    ensures out.inputs == ins
    ensures fatal <==> WriteFails(old(out.Snap()), p, w)
    ensures !fatal ==> out.cfg == old(out.cfg) && out.Snap() == WriteSpec(old(out.Snap()), p, w)
    ensures forall k | 0 <= k < |ins| :: SourceOf(ins[k]) == old(SourceOf(ins[k]))
    ensures DetailsOf(ins) ==
              if Crosses(old(out.Snap()), p) && out.log.Verbose() then Reset(old(DetailsOf(ins)), w.dropped) else old(DetailsOf(ins))
  {
    ghost var s0, d0 := out.Snap(), DetailsOf(ins);
    ghost var uris := seq(|ins|, k requires 0 <= k < |ins| => d0[k].0);
    SpecsKeepConfig(s0, p, p.tv, w);
    var ok := out.WritePacket(p, w);
    fatal := !ok;
    assert forall k | 0 <= k < |ins| :: ins[k].uri == uris[k];
    if Crosses(s0, p) && out.log.Verbose() {
      ResetAt(d0, DetailsOf(ins), w.dropped);
    } else {
      assert forall k | 0 <= k < |ins| :: DetailsOf(ins)[k] == d0[k];
    }
  }

  /**
   * The end of a round with a selected source: rotate on the packet's clock
   * if due, write the packet, release it. A true `fatal` means the process ended.
   */
  method WriteSelected(out: Output, ins: seq<Input>, i: nat, rotateSec: int, t: Tick) returns (fatal: bool)
    requires Distinct(ins) && out.inputs == ins && i < |ins| && ins[i].packet.Some?
    requires out.Ready(t.catchUp) && out.Ready(t.write)
    modifies out, ins
    ensures out.inputs == ins
    ensures var p := old(ins[i].packet.value); var s := old(out.Snap());
      fatal <==> RotationFails(s, rotateSec, p.tv, t.catchUp) || WriteFails(RotateIfDue(s, rotateSec, p.tv, t.catchUp), p, t.write)
    ensures var p := old(ins[i].packet.value);
      !fatal ==> out.cfg == old(out.cfg) && out.Snap() == WriteSpec(RotateIfDue(old(out.Snap()), rotateSec, p.tv, t.catchUp), p, t.write)
    ensures !fatal ==> View(ins) == old(View(ins))[i := old(View(ins))[i].(packet := None)]
    ensures var p := old(ins[i].packet.value);
      !fatal ==> DetailsOf(ins) == DeliverDetails(old(out.Snap()), p, old(DetailsOf(ins)), rotateSec, t, out.log.Verbose())
  {
    var p := ins[i].packet.value;
    fatal := RotateOnTime(out, ins, rotateSec, p.tv, t.catchUp);
    if fatal {
      return;
    }
    label written:
    fatal := WriteOut(out, ins, p, t.write);
    if fatal {
      return;
    }
    ViewKept@written(ins);
    Release(ins, i);
  }

  /** `input[mintime_idx].packet_ = 0`: only the selected source lets go of its packet. */
  method Release(ins: seq<Input>, i: nat)
    requires Distinct(ins) && i < |ins|
    modifies ins[i]
    ensures View(ins) == old(View(ins))[i := old(View(ins))[i].(packet := None)]
    ensures DetailsOf(ins) == old(DetailsOf(ins))
  {
    ghost var v := View(ins);
    ins[i].packet := None;
    assert forall k | 0 <= k < |ins| && k != i :: View(ins)[k] == SourceOf(ins[k]) == v[k];
    assert View(ins)[i] == v[i].(packet := None);
  }

  /** Delivery, once the pass has picked `pick`. A true `fatal` means the process ended. */
  method DeliverPick(out: Output, ins: seq<Input>, pick: Pick, rotateSec: int, t: Tick) returns (fatal: bool)
    requires Distinct(ins) && out.inputs == ins && pick == Select(View(ins))
    requires out.Ready(t.catchUp) && out.Ready(t.write)
    modifies out, ins
    ensures out.inputs == ins
    ensures var r := Deliver(old(out.Snap()), old(View(ins)), rotateSec, t);
      && (fatal <==> r.Exited?)
      && (!fatal ==> out.cfg == old(out.cfg) && out.Snap() == r.out && View(ins) == r.srcs)
    ensures !fatal ==> CountActive(View(ins)) == CountActive(old(View(ins)))
    ensures !fatal ==> DetailsOf(ins) == DeliveryDetails(old(out.Snap()), old(View(ins)), old(DetailsOf(ins)), rotateSec, t, out.log.Verbose())
  {
    fatal := false;
    if pick.idx != -1 {
      ghost var polled := View(ins);
      SelectIsMinimum(polled);
      ReleaseCounts(polled, pick.idx);
      fatal := WriteSelected(out, ins, pick.idx, rotateSec, t);
    }
  }

  /** The unfolding of a round into the wall-clock rotation, the pass and delivery. */
  lemma RoundStages(s: OutState, srcs: seq<Source>, rotateSec: int, maxWait: TimeVal, t: Tick)
    ensures RotationFails(s, rotateSec, t.now, t.rotate) ==> RoundSpec(s, srcs, rotateSec, maxWait, t).Exited?
    ensures var r := Pass(srcs, maxWait);
      !RotationFails(s, rotateSec, t.now, t.rotate) ==>
      && (r.Failed? ==> RoundSpec(s, srcs, rotateSec, maxWait, t).Exited?)
      && (r.Passed? ==> RoundSpec(s, srcs, rotateSec, maxWait, t) == Deliver(RotateIfDue(s, rotateSec, t.now, t.rotate), r.srcs, rotateSec, t))
  {
  }

  /**
   * When a round ends the process. A source answering with an unknown event
   * always ends it; when every segment the round may set up can be set up,
   * nothing else does; and a wall-clock rotation that is due with no segment
   * open ends it, whatever the sources answer, when the libtrace output of
   * its segment cannot be created.
   */
  lemma RoundExits(s: OutState, srcs: seq<Source>, rotateSec: int, maxWait: TimeVal, t: Tick)
    ensures Pass(srcs, maxWait).Failed? ==> RoundSpec(s, srcs, rotateSec, maxWait, t).Exited?
    ensures Succeeds(t.rotate.opening) && Succeeds(t.catchUp.opening) && Succeeds(t.write.opening) ==>
              (RoundSpec(s, srcs, rotateSec, maxWait, t).Exited? <==> Pass(srcs, maxWait).Failed?)
    ensures RotateDue(s.lastRotated, rotateSec, t.now) && !s.open && !t.rotate.opening.created ==>
              RoundSpec(s, srcs, rotateSec, maxWait, t).Exited?
  {
  }

  /**
   * The details once the selected packet p is delivered: when its write
   * finds the open segment full, open_trace's dump_seg_stats restarts every
   * source's segment counts, if logging is verbose.
   */
  function DeliverDetails(s: OutState, p: Packet, d: seq<(string, U64, nat)>, rotateSec: int, t: Tick, verbose: bool)
    : seq<(string, U64, nat)>
    requires |t.write.dropped| == |d|
  {
    if verbose && Crosses(RotateIfDue(s, rotateSec, p.tv, t.catchUp), p) then Reset(d, t.write.dropped) else d
  }

  /** The details once delivery is done; nothing changes when no source is selected. */
  function DeliveryDetails(s: OutState, polled: seq<Source>, d: seq<(string, U64, nat)>, rotateSec: int, t: Tick, verbose: bool)
    : seq<(string, U64, nat)>
    requires |t.write.dropped| == |d|
  {
    var i := Select(polled).idx;
    if 0 <= i < |polled| && polled[i].packet.Some? then DeliverDetails(s, polled[i].packet.value, d, rotateSec, t, verbose) else d
  }

  /** The details after a round that goes on: the pass counts what each source takes, then delivery. */
  function RoundDetails(s: OutState, srcs: seq<Source>, d: seq<(string, U64, nat)>, rotateSec: int, maxWait: TimeVal,
                        t: Tick, verbose: bool): (r: seq<(string, U64, nat)>)
    requires |d| == |srcs| == |t.write.dropped|
    ensures |r| == |d|
  {
    match Pass(srcs, maxWait)
    case Failed => d
    case Passed(polled, _) =>
      DeliveryDetails(RotateIfDue(s, rotateSec, t.now, t.rotate), polled, Tally(d, srcs, polled), rotateSec, t, verbose)
  }

  /**
   * What the segment counts mean after a round: no URI changes, and each
   * source's segment count grows by exactly the packets it took, with its
   * drop count kept, unless the write of the delivered packet reopened a full
   * segment with verbose logging, which restarts every source's counts from
   * the drop counts of that moment.
   */
  lemma RoundCounts(s: OutState, srcs: seq<Source>, d: seq<(string, U64, nat)>, rotateSec: int, maxWait: TimeVal,
                    t: Tick, verbose: bool)
    requires |d| == |srcs| == |t.write.dropped|
    ensures var r := RoundSpec(s, srcs, rotateSec, maxWait, t);
      var e := RoundDetails(s, srcs, d, rotateSec, maxWait, t, verbose);
      r.Continued? ==> |r.srcs| == |srcs| && forall k | 0 <= k < |d| ::
        && srcs[k].totalPackets <= r.srcs[k].totalPackets && e[k].0 == d[k].0
        && ((e[k].1 == d[k].1 && e[k].2 == d[k].2 + (r.srcs[k].totalPackets - srcs[k].totalPackets))
            || (verbose && e[k].1 == t.write.dropped[k] && e[k].2 == 0))
  {
    var r := RoundSpec(s, srcs, rotateSec, maxWait, t);
    if r.Continued? {
      PassTotals(srcs, |srcs|, maxWait);
      var polled := Pass(srcs, maxWait).srcs;
      var i := Select(polled).idx;
      if i != -1 {
        SelectIsMinimum(polled);
        assert r.srcs == polled[i := polled[i].(packet := None)];
      }
      assert forall k | 0 <= k < |srcs| :: r.srcs[k].totalPackets == polled[k].totalPackets;
    }
  }

  /**
   * The part of a round after the wall-clock rotation: poll every source,
   * then hand the selected packet to the output.
   */
  method PollDeliver(out: Output, input: array<Input>, rotateSec: int, maxWait: TimeVal, active: nat, t: Tick)
    returns (fatal: bool, activeLeft: nat)
    requires Distinct(input[..]) && out.inputs == input[..] && active == CountActive(View(input[..]))
    requires out.Ready(t.catchUp) && out.Ready(t.write)
    modifies out, input[..]
    ensures out.inputs == old(out.inputs)
    ensures var r := Pass(old(View(input[..])), maxWait);
      && (r.Failed? ==> fatal)
      && (r.Passed? ==>
            var d := Deliver(old(out.Snap()), r.srcs, rotateSec, t);
            && (fatal <==> d.Exited?)
            && (!fatal ==>
                  && out.cfg == old(out.cfg) && out.Snap() == d.out && View(input[..]) == d.srcs && activeLeft == CountActive(d.srcs)
                  && DetailsOf(input[..]) == DeliveryDetails(old(out.Snap()), r.srcs, Tally(old(DetailsOf(input[..])), old(View(input[..])), r.srcs),
                                                             rotateSec, t, out.log.Verbose())))
  {
    ghost var s1, cfg0 := out.Snap(), out.cfg;
    var pick;
    fatal, pick, activeLeft := PollAll(input, maxWait, active);
    assert out.Snap() == s1 && out.cfg == cfg0;
    if !fatal {
      fatal := DeliverPick(out, input[..], pick, rotateSec, t);
    }
  }

  /** One round of the merge loop: the body of `while (active_inputs > 0 && !signalled)`. */
  method Round(out: Output, input: array<Input>, rotateSec: int, maxWait: TimeVal, active: nat, t: Tick)
    returns (fatal: bool, activeLeft: nat)
    requires Distinct(input[..]) && out.inputs == input[..] && active == CountActive(View(input[..]))
    requires TickReady(out.cfg, |out.inputs|, t)
    modifies out, input[..]
    ensures out.inputs == old(out.inputs) && (!fatal ==> out.cfg == old(out.cfg))
    ensures var r := RoundSpec(old(out.Snap()), old(View(input[..])), rotateSec, maxWait, t);
      && (fatal <==> r.Exited?)
      && (!fatal ==> out.Snap() == r.out && View(input[..]) == r.srcs && activeLeft == CountActive(r.srcs))
    ensures !fatal ==>
              DetailsOf(input[..]) == RoundDetails(old(out.Snap()), old(View(input[..])), old(DetailsOf(input[..])), rotateSec, maxWait, t, out.log.Verbose())
  {
    ghost var s0, v0, d0 := out.Snap(), View(input[..]), DetailsOf(input[..]);
    RoundStages(s0, v0, rotateSec, maxWait, t);
    ghost var cfg0, pass := out.cfg, Pass(v0, maxWait);
    fatal := RotateOnTime(out, input[..], rotateSec, t.now, t.rotate);
    if fatal {
      return fatal, 0;
    }
    ghost var s1 := out.Snap();
    assert s1 == RotateIfDue(s0, rotateSec, t.now, t.rotate) && View(input[..]) == v0 && DetailsOf(input[..]) == d0 && out.cfg == cfg0;
    fatal, activeLeft := PollDeliver(out, input, rotateSec, maxWait, active, t);
  }

  /**
   * The merge loop over the rounds `ticks` answers: it stops when no source
   * is active, when a signal has arrived, when a round exits, or when the
   * ticks run out.
   */
  function RunSpec(s: OutState, srcs: seq<Source>, rotateSec: int, maxWait: TimeVal, ticks: seq<Tick>): Outcome
    decreases |ticks|
  {
    if ticks == [] || CountActive(srcs) == 0 || ticks[0].signalled then Continued(s, srcs)
    else
      match RoundSpec(s, srcs, rotateSec, maxWait, ticks[0])
      case Exited => Exited
      case Continued(s', srcs') => RunSpec(s', srcs', rotateSec, maxWait, ticks[1..])
  }

  /** A round that goes on keeps the number of sources. */
  lemma RoundLength(s: OutState, srcs: seq<Source>, rotateSec: int, maxWait: TimeVal, t: Tick)
    ensures var r := RoundSpec(s, srcs, rotateSec, maxWait, t); r.Continued? ==> |r.srcs| == |srcs|
  {
    var pass := Pass(srcs, maxWait);
    if pass.Passed? {
      var polled := pass.srcs;
      var i := Select(polled).idx;
      if i != -1 {
        SelectIsMinimum(polled);
      }
    }
  }

  /** The details of the sources after the merge loop: each round's, in turn. */
  function RunDetails(s: OutState, srcs: seq<Source>, d: seq<(string, U64, nat)>, rotateSec: int, maxWait: TimeVal,
                      ticks: seq<Tick>, verbose: bool): (r: seq<(string, U64, nat)>)
    requires |d| == |srcs| && forall k | 0 <= k < |ticks| :: |ticks[k].write.dropped| == |d|
    ensures |r| == |d|
    decreases |ticks|
  {
    if ticks == [] || CountActive(srcs) == 0 || ticks[0].signalled then d
    else
      RoundLength(s, srcs, rotateSec, maxWait, ticks[0]);
      match RoundSpec(s, srcs, rotateSec, maxWait, ticks[0])
      case Exited => d
      case Continued(s', srcs') =>
        RunDetails(s', srcs', RoundDetails(s, srcs, d, rotateSec, maxWait, ticks[0], verbose), rotateSec, maxWait, ticks[1..], verbose)
  }

  /**
   * The loop keeps what every round keeps: the output manager's invariant
   * and configuration, the sources settled, no source reactivated, and every
   * packet the sources pass on written. When it ends because no source is
   * active, no source holds a packet.
   */
  lemma {:induction false} RunKeeps(s: OutState, srcs: seq<Source>, rotateSec: int, maxWait: TimeVal, ticks: seq<Tick>)
    requires Inv(s) && Settled(srcs)
    ensures var r := RunSpec(s, srcs, rotateSec, maxWait, ticks);
      r.Continued? ==>
        && Inv(r.out) && r.out.cfg == s.cfg && Settled(r.srcs) && |r.srcs| == |srcs|
        && Balance(r.srcs) - |Stream(r.out.segments)| == Balance(srcs) - |Stream(s.segments)|
        && (forall k | 0 <= k < |srcs| :: r.srcs[k].active ==> srcs[k].active)
        && (CountActive(r.srcs) == 0 ==> forall k | 0 <= k < |srcs| :: !r.srcs[k].active && r.srcs[k].packet.None?)
    decreases |ticks|
  {
    if ticks == [] || CountActive(srcs) == 0 || ticks[0].signalled {
      NoneActive(srcs);
    } else {
      RoundKeeps(s, srcs, rotateSec, maxWait, ticks[0]);
      match RoundSpec(s, srcs, rotateSec, maxWait, ticks[0])
      case Exited =>
      case Continued(s', srcs') =>
        RunKeeps(s', srcs', rotateSec, maxWait, ticks[1..]);
    }
  }

  /**
   * What the segment counts mean after the merge loop: no URI changes, and
   * each source's segment count is at most the packets it took since, and
   * exactly those, with its drop count kept, when logging is not verbose:
   * then open_trace never runs dump_seg_stats.
   */
  lemma {:induction false} RunCounts(s: OutState, srcs: seq<Source>, d: seq<(string, U64, nat)>, rotateSec: int,
                                     maxWait: TimeVal, ticks: seq<Tick>, verbose: bool)
    requires |d| == |srcs| && forall k | 0 <= k < |ticks| :: |ticks[k].write.dropped| == |d|
    ensures var r := RunSpec(s, srcs, rotateSec, maxWait, ticks);
      var e := RunDetails(s, srcs, d, rotateSec, maxWait, ticks, verbose);
      r.Continued? ==> |r.srcs| == |srcs| && forall k | 0 <= k < |d| ::
        && srcs[k].totalPackets <= r.srcs[k].totalPackets && e[k].0 == d[k].0
        && e[k].2 <= d[k].2 + (r.srcs[k].totalPackets - srcs[k].totalPackets)
        && (!verbose ==> e[k].1 == d[k].1 && e[k].2 == d[k].2 + (r.srcs[k].totalPackets - srcs[k].totalPackets))
    decreases |ticks|
  {
    if !(ticks == [] || CountActive(srcs) == 0 || ticks[0].signalled) {
      RoundCounts(s, srcs, d, rotateSec, maxWait, ticks[0], verbose);
      match RoundSpec(s, srcs, rotateSec, maxWait, ticks[0])
      case Exited =>
      case Continued(s', srcs') =>
        var d' := RoundDetails(s, srcs, d, rotateSec, maxWait, ticks[0], verbose);
        assert forall k | 0 <= k < |ticks| - 1 :: ticks[1..][k] == ticks[k + 1];
        RunCounts(s', srcs', d', rotateSec, maxWait, ticks[1..], verbose);
    }
  }

  /** One round that runs unfolds the loop once, for its outcome and for the details. */
  lemma RunStep(s: OutState, srcs: seq<Source>, d: seq<(string, U64, nat)>, rotateSec: int, maxWait: TimeVal,
                ticks: seq<Tick>, verbose: bool)
    requires |ticks| > 0 && CountActive(srcs) > 0 && !ticks[0].signalled
    requires |d| == |srcs| && forall k | 0 <= k < |ticks| :: |ticks[k].write.dropped| == |d|
    requires var r := RoundSpec(s, srcs, rotateSec, maxWait, ticks[0]); r.Continued? ==> |r.srcs| == |srcs|
    ensures var r := RoundSpec(s, srcs, rotateSec, maxWait, ticks[0]);
      && (r.Exited? ==> RunSpec(s, srcs, rotateSec, maxWait, ticks).Exited?)
      && (r.Continued? ==>
            && RunSpec(s, srcs, rotateSec, maxWait, ticks) == RunSpec(r.out, r.srcs, rotateSec, maxWait, ticks[1..])
            && RunDetails(s, srcs, d, rotateSec, maxWait, ticks, verbose)
                 == RunDetails(r.out, r.srcs, RoundDetails(s, srcs, d, rotateSec, maxWait, ticks[0], verbose),
                               rotateSec, maxWait, ticks[1..], verbose))
  {
  }

  /** `e` are the details the merge loop leaves, for rounds that report a drop count per source. */
  predicate RunLeaves(s: OutState, srcs: seq<Source>, d: seq<(string, U64, nat)>, rotateSec: int, maxWait: TimeVal,
                      ticks: seq<Tick>, verbose: bool, e: seq<(string, U64, nat)>)
  {
    && |d| == |srcs| && (forall k | 0 <= k < |ticks| :: |ticks[k].write.dropped| == |d|)
    && e == RunDetails(s, srcs, d, rotateSec, maxWait, ticks, verbose)
  }

  /** The environment lets every output operation of a round go ahead. */
  predicate TickReady(c: Config, sources: nat, t: Tick)
  {
    Admits(c, sources, t.rotate) && Admits(c, sources, t.catchUp) && Admits(c, sources, t.write)
  }

  /** A loop that stops before its first round leaves the state, the sources and the details as they were. */
  lemma RunDone(s: OutState, srcs: seq<Source>, d: seq<(string, U64, nat)>, rotateSec: int, maxWait: TimeVal,
                ticks: seq<Tick>, verbose: bool)
    requires ticks == [] || CountActive(srcs) == 0 || ticks[0].signalled
    requires |d| == |srcs| && forall k | 0 <= k < |ticks| :: |ticks[k].write.dropped| == |d|
    ensures RunSpec(s, srcs, rotateSec, maxWait, ticks) == Continued(s, srcs)
    ensures RunDetails(s, srcs, d, rotateSec, maxWait, ticks, verbose) == d
  {
  }

  /**
   * After `rounds` rounds, from (s', v', d'), the loop over the ticks left
   * leads where the loop over all of them leads from (s, v, d).
   */
  predicate LoopAt(s: OutState, v: seq<Source>, d: seq<(string, U64, nat)>,
                   s': OutState, v': seq<Source>, d': seq<(string, U64, nat)>,
                   rotateSec: int, maxWait: TimeVal, ticks: seq<Tick>, rounds: nat, verbose: bool)
  {
    && rounds <= |ticks| && |d| == |v| && (forall k | 0 <= k < |ticks| :: |ticks[k].write.dropped| == |d|)
    && RunSpec(s', v', rotateSec, maxWait, ticks[rounds..]) == RunSpec(s, v, rotateSec, maxWait, ticks)
    && RunLeaves(s', v', d', rotateSec, maxWait, ticks[rounds..], verbose, RunDetails(s, v, d, rotateSec, maxWait, ticks, verbose))
  }

  /** One more turn of the loop extends the rounds run so far by one. */
  lemma LoopAdvance(s: OutState, v: seq<Source>, d: seq<(string, U64, nat)>,
                    s': OutState, v': seq<Source>, d': seq<(string, U64, nat)>,
                    s'': OutState, v'': seq<Source>, d'': seq<(string, U64, nat)>,
                    rotateSec: int, maxWait: TimeVal, ticks: seq<Tick>, rounds: nat, verbose: bool)
    requires rounds < |ticks| && LoopAt(s, v, d, s', v', d', rotateSec, maxWait, ticks, rounds, verbose)
    requires LoopTurn(s', v', d', s'', v'', d'', rotateSec, maxWait, ticks[rounds..], verbose)
    ensures LoopAt(s, v, d, s'', v'', d'', rotateSec, maxWait, ticks, rounds + 1, verbose)
  {
    assert ticks[rounds..][1..] == ticks[rounds + 1..];
  }

  /** The loop over the ticks after the first, from (s', v', d'), leaves what the loop over all of them leaves from (s, v, d). */
  predicate LoopTurn(s: OutState, v: seq<Source>, d: seq<(string, U64, nat)>,
                     s': OutState, v': seq<Source>, d': seq<(string, U64, nat)>,
                     rotateSec: int, maxWait: TimeVal, ticks: seq<Tick>, verbose: bool)
  {
    && |ticks| > 0 && |d| == |v| && (forall k | 0 <= k < |ticks| :: |ticks[k].write.dropped| == |d|)
    && RunSpec(s', v', rotateSec, maxWait, ticks[1..]) == RunSpec(s, v, rotateSec, maxWait, ticks)
    && RunLeaves(s', v', d', rotateSec, maxWait, ticks[1..], verbose, RunDetails(s, v, d, rotateSec, maxWait, ticks, verbose))
  }

  /** The round of the first tick either ends the loop or is one turn of it. */
  lemma LoopTurnOf(s: OutState, v: seq<Source>, d: seq<(string, U64, nat)>, rotateSec: int, maxWait: TimeVal,
                   ticks: seq<Tick>, verbose: bool)
    requires |ticks| > 0 && CountActive(v) > 0 && !ticks[0].signalled
    requires |d| == |v| && forall k | 0 <= k < |ticks| :: |ticks[k].write.dropped| == |d|
    ensures var r := RoundSpec(s, v, rotateSec, maxWait, ticks[0]);
      && (r.Exited? ==> RunSpec(s, v, rotateSec, maxWait, ticks).Exited?)
      && (r.Continued? ==>
            LoopTurn(s, v, d, r.out, r.srcs, RoundDetails(s, v, d, rotateSec, maxWait, ticks[0], verbose), rotateSec, maxWait, ticks, verbose))
  {
    RoundLength(s, v, rotateSec, maxWait, ticks[0]);
    RunStep(s, v, d, rotateSec, maxWait, ticks, verbose);
  }

  /**
   * One turn of main's loop: the round of the first tick, after which the
   * loop over the rest leaves what the loop over all the ticks leaves.
   */
  method NextRound(out: Output, input: array<Input>, rotateSec: int, maxWait: TimeVal, active: nat, ticks: seq<Tick>,
                   ghost verbose: bool)
    returns (fatal: bool, activeLeft: nat)
    requires |ticks| > 0 && active > 0 && !ticks[0].signalled && verbose == out.log.Verbose()
    requires Distinct(input[..]) && out.inputs == input[..] && active == CountActive(View(input[..]))
    requires forall k | 0 <= k < |ticks| :: TickReady(out.cfg, |out.inputs|, ticks[k])
    modifies out, input[..]
    ensures out.inputs == old(out.inputs) && out.log.Verbose() == verbose
    ensures fatal ==> RunSpec(old(out.Snap()), old(View(input[..])), rotateSec, maxWait, ticks).Exited?
    ensures !fatal ==>
      && out.cfg == old(out.cfg) && activeLeft == CountActive(View(input[..]))
      && LoopTurn(old(out.Snap()), old(View(input[..])), old(DetailsOf(input[..])),
                  out.Snap(), View(input[..]), DetailsOf(input[..]), rotateSec, maxWait, ticks, verbose)
  {
    ghost var s, v, d := out.Snap(), View(input[..]), DetailsOf(input[..]);
    assert TickReady(out.cfg, |out.inputs|, ticks[0]);
    LoopTurnOf(s, v, d, rotateSec, maxWait, ticks, verbose);
    fatal, activeLeft := Round(out, input, rotateSec, maxWait, active, ticks[0]);
    if !fatal {
      ghost var r := RoundSpec(s, v, rotateSec, maxWait, ticks[0]);
      assert out.Snap() == r.out && View(input[..]) == r.srcs;
      assert DetailsOf(input[..]) == RoundDetails(s, v, d, rotateSec, maxWait, ticks[0], verbose);
    }
  }

  /**
   * The loop itself: the rounds it has run so far leave the state from
   * which the rest of the ticks lead where all of them lead.
   */
  method Rounds(out: Output, input: array<Input>, rotateSec: int, maxWait: TimeVal, active: nat, ticks: seq<Tick>)
    returns (fatal: bool, rounds: nat, activeLeft: nat)
    requires Distinct(input[..]) && out.inputs == input[..] && active == CountActive(View(input[..]))
    requires forall k | 0 <= k < |ticks| :: TickReady(out.cfg, |out.inputs|, ticks[k])
    modifies out, input[..]
    ensures out.inputs == old(out.inputs) && (!fatal ==> out.cfg == old(out.cfg)) && out.log.Verbose() == old(out.log.Verbose())
    ensures fatal ==> RunSpec(old(out.Snap()), old(View(input[..])), rotateSec, maxWait, ticks).Exited?
    ensures !fatal ==>
      && rounds <= |ticks| && (rounds == |ticks| || activeLeft == 0 || ticks[rounds].signalled)
      && activeLeft == CountActive(View(input[..]))
      && LoopAt(old(out.Snap()), old(View(input[..])), old(DetailsOf(input[..])),
                out.Snap(), View(input[..]), DetailsOf(input[..]), rotateSec, maxWait, ticks, rounds, old(out.log.Verbose()))
  {
    fatal, rounds, activeLeft := false, 0, active;
    ghost var s, v, d, verbose := out.Snap(), View(input[..]), DetailsOf(input[..]), out.log.Verbose();
    while rounds < |ticks| && activeLeft > 0 && !ticks[rounds].signalled
      invariant rounds <= |ticks| && out.inputs == input[..] && out.cfg == old(out.cfg)
      invariant activeLeft == CountActive(View(input[..]))
      invariant LoopAt(s, v, d, out.Snap(), View(input[..]), DetailsOf(input[..]), rotateSec, maxWait, ticks, rounds, verbose)
      decreases |ticks| - rounds
    {
      ghost var s', v', d' := out.Snap(), View(input[..]), DetailsOf(input[..]);
      fatal, activeLeft := NextRound(out, input, rotateSec, maxWait, activeLeft, ticks[rounds..], verbose);
      if fatal {
        return;
      }
      LoopAdvance(s, v, d, s', v', d', out.Snap(), View(input[..]), DetailsOf(input[..]), rotateSec, maxWait, ticks, rounds, verbose);
      rounds := rounds + 1;
    }
  }

  /**
   * `while (active_inputs > 0 && !signalled)`: rounds until no source is
   * active or a signal arrives; `rounds` is how many ran.
   */
  method Run(out: Output, input: array<Input>, rotateSec: int, maxWait: TimeVal, active: nat, ticks: seq<Tick>)
    returns (fatal: bool, rounds: nat, activeLeft: nat)
    requires Distinct(input[..]) && out.inputs == input[..] && active == CountActive(View(input[..]))
    requires forall k | 0 <= k < |ticks| :: TickReady(out.cfg, |out.inputs|, ticks[k])
    modifies out, input[..]
    ensures out.inputs == old(out.inputs) && (!fatal ==> out.cfg == old(out.cfg)) && out.log.Verbose() == old(out.log.Verbose())
    ensures var r := RunSpec(old(out.Snap()), old(View(input[..])), rotateSec, maxWait, ticks);
      && (fatal <==> r.Exited?)
      && (!fatal ==> out.Snap() == r.out && View(input[..]) == r.srcs && activeLeft == CountActive(r.srcs))
    ensures !fatal ==> rounds <= |ticks| && (rounds == |ticks| || activeLeft == 0 || ticks[rounds].signalled)
    ensures !fatal ==>
              RunLeaves(old(out.Snap()), old(View(input[..])), old(DetailsOf(input[..])), rotateSec, maxWait, ticks, out.log.Verbose(), DetailsOf(input[..]))
  {
    ghost var s, v, d, verbose := out.Snap(), View(input[..]), DetailsOf(input[..]), out.log.Verbose();
    fatal, rounds, activeLeft := Rounds(out, input, rotateSec, maxWait, active, ticks);
    if !fatal {
      RunDone(out.Snap(), View(input[..]), DetailsOf(input[..]), rotateSec, maxWait, ticks[rounds..], verbose);
      assert LoopAt(s, v, d, out.Snap(), View(input[..]), DetailsOf(input[..]), rotateSec, maxWait, ticks, rounds, verbose);
    }
  }


  /** The sources once main has closed them: all inactive, everything else as it was. */
  function Stopped(v: seq<Source>): (r: seq<Source>)
    ensures |r| == |v| && CountActive(r) == 0
    ensures forall k | 0 <= k < |v| :: r[k] == v[k].(active := false)
  {
    var r := seq(|v|, k requires 0 <= k < |v| => v[k].(active := false));
    NoneActive(r);
    r
  }

  /**
   * The closing loop of main: report each source's total packets and
   * current drop count, and mark it inactive.
   */
  method CloseInputs(ins: seq<Input>, drops: seq<U64>) returns (closing: seq<InputReport>)
    requires Distinct(ins) && |drops| == |ins|
    modifies ins
    ensures View(ins) == Stopped(old(View(ins))) && DetailsOf(ins) == old(DetailsOf(ins))
    ensures |closing| == |ins|
    ensures forall k | 0 <= k < |ins| :: closing[k] == InputReport(ins[k].totalPackets, drops[k])
  {
    ghost var v0, d0 := View(ins), DetailsOf(ins);
    closing := [];
    for i := 0 to |ins|
      invariant |closing| == i
      invariant forall k | 0 <= k < i :: closing[k] == InputReport(ins[k].totalPackets, drops[k])
      invariant forall k | 0 <= k < |ins| :: SourceOf(ins[k]) == if k < i then v0[k].(active := false) else v0[k]
      invariant forall k | 0 <= k < |ins| :: Details(ins[k]) == d0[k]
    {
      closing := closing + [InputReport(ins[i].totalPackets, drops[i])];
      ins[i].active := false;
    }
    assert View(ins) == Stopped(v0);
    assert forall k | 0 <= k < |ins| :: DetailsOf(ins)[k] == d0[k];
  }

  /**
   * main guards the final report with `opt_verbose`, the count of `-v`
   * flags, rather than with the logger: on such a count the two agree.
   */
  lemma VerboseFlag(verbose: nat, log: MtcLog.Log)
    requires log.level == MtcLog.Clamp(verbose)
    ensures log.Verbose() <==> verbose != 0
  {
  }

  /**
   * The verbose report once the loop ends: the statistics of the open
   * segment, with each source's segment counts restarted, and the totals.
   * `dump` holds the segment report and the total packet and disorder counts.
   */
  method DumpStats(out: Output, ins: seq<Input>, statsDrops: seq<U64>) returns (dump: Option<(SegReport, nat, nat)>)
    requires Inv(out.Snap()) && Distinct(ins) && out.inputs == ins && |statsDrops| == |ins|
    modifies ins`segmentPackets, ins`segmentDrops
    ensures View(ins) == old(View(ins))
    ensures DetailsOf(ins) == if out.log.Verbose() then Reset(old(DetailsOf(ins)), statsDrops) else old(DetailsOf(ins))
    ensures dump.Some? <==> out.log.Verbose()
    ensures dump.Some? ==> dump.value.1 == |Stream(out.segments)| && dump.value.2 == SegmentDisorders(out.segments)
    ensures dump.Some? ==> dump.value.0.packets == out.segmentPackets && dump.value.0.disorders == out.segmentDisorders
  {
    if out.log.Verbose() {
      ghost var d0 := DetailsOf(ins);
      var seg := out.DumpSegStats(statsDrops);
      assert forall k | 0 <= k < |ins| :: DetailsOf(ins)[k] == Details(ins[k]) == Reset(d0, statsDrops)[k];
      ViewKept(ins);
      var packets, disorders := out.DumpTotStats();
      dump := Some((seg, packets, disorders));
    } else {
      dump := None;
    }
  }

  /**
   * What main does once the loop ends: the verbose report; one more rotation
   * on the wall clock, which leaves no segment open; then closing the sources.
   * A true `fatal` means the rotation had to set up a segment and could not,
   * which ends the process before the sources are closed.
   */
  method Finish(out: Output, ins: seq<Input>, now: TimeVal, w: World, statsDrops: seq<U64>, closingDrops: seq<U64>)
    returns (fatal: bool, dump: Option<(SegReport, nat, nat)>, closing: seq<InputReport>)
    requires Inv(out.Snap()) && Distinct(ins) && out.inputs == ins && out.Ready(w)
    requires |statsDrops| == |closingDrops| == |ins|
    modifies out, ins
    ensures out.log.Verbose() == old(out.log.Verbose())
    ensures fatal <==> RotateFails(old(out.Snap()), w)
    ensures !fatal ==> out.Snap() == RotateSpec(old(out.Snap()), now, w) && Inv(out.Snap()) && !out.open
    ensures !fatal ==> View(ins) == Stopped(old(View(ins)))
    ensures !fatal ==> DetailsOf(ins) == if out.log.Verbose() then Reset(old(DetailsOf(ins)), statsDrops) else old(DetailsOf(ins))
    ensures dump.Some? <==> out.log.Verbose()
    ensures dump.Some? ==> dump.value.1 == |Stream(old(out.segments))| && dump.value.2 == SegmentDisorders(old(out.segments))
    ensures !fatal ==> |closing| == |ins|
    ensures !fatal ==> forall k | 0 <= k < |ins| :: closing[k] == InputReport(ins[k].totalPackets, closingDrops[k])
  {
    dump := DumpStats(out, ins, statsDrops);
    RotateKeepsInv(out.Snap(), now, w);
    label rotating:
    fatal := FinalRotation(out, ins, now, w);
    if fatal {
      return fatal, dump, [];
    }
    ViewKept@rotating(ins);
    closing := CloseInputs(ins, closingDrops);
  }

  /**
   * The rotation after the loop, on the wall clock; the sources' packet state
   * is untouched. A true `fatal` means the process ended.
   */
  method FinalRotation(out: Output, ins: seq<Input>, now: TimeVal, w: World) returns (fatal: bool)
    requires Distinct(ins) && out.inputs == ins && out.Ready(w)
    modifies out, ins
    ensures out.inputs == ins
    ensures fatal <==> RotateFails(old(out.Snap()), w)
    ensures !fatal ==> out.Snap() == RotateSpec(old(out.Snap()), now, w)
    ensures forall k | 0 <= k < |ins| :: SourceOf(ins[k]) == old(SourceOf(ins[k]))
    ensures DetailsOf(ins) == old(DetailsOf(ins))
  {
    ghost var d0 := DetailsOf(ins);
    var ok := out.RotateTrace(now, w);
    fatal := !ok;
    assert forall k | 0 <= k < |ins| :: DetailsOf(ins)[k] == Details(ins[k]) == d0[k];
  }

  /**
   * The merge loop followed by the end of main: when the loop leaves no
   * source active, something the verbose report and the final rotation do
   * not change, every packet the sources took is in the written stream.
   */
  lemma CaptureWritesAll(s: OutState, scripts: seq<seq<Event>>, rotateSec: int, maxWait: TimeVal,
                         ticks: seq<Tick>, now: TimeVal, w: World)
    requires Inv(s) && s.segments == []
    ensures var r := RunSpec(s, Started(scripts), rotateSec, maxWait, ticks);
      r.Continued? && CountActive(r.srcs) == 0 ==>
        && (forall k | 0 <= k < |r.srcs| :: !r.srcs[k].active && r.srcs[k].packet.None?)
        && |Stream(RotateSpec(r.out, now, w).segments)| == Taken(Stopped(r.srcs))
  {
    var v := Started(scripts);
    RunKeeps(s, v, rotateSec, maxWait, ticks);
    var r := RunSpec(s, v, rotateSec, maxWait, ticks);
    if r.Continued? && CountActive(r.srcs) == 0 {
      RotateKeepsInv(r.out, now, w);
      StoppedCounts(r.srcs);
      BalanceWhenEmpty(r.srcs);
    }
  }

  /** Stopping the sources changes neither what they took nor what they passed on. */
  lemma {:induction false} StoppedCounts(v: seq<Source>)
    ensures Taken(Stopped(v)) == Taken(v) && Balance(Stopped(v)) == Balance(v)
  {
    if v != [] {
      var n := |v| - 1;
      assert Stopped(v)[..n] == Stopped(v[..n]);
      StoppedCounts(v[..n]);
    }
  }

  /**
   * main from its loop to its return: the merge loop, then the verbose
   * report, the final rotation on the wall clock and the closing of the
   * sources.
   */
  method Capture(out: Output, input: array<Input>, rotateSec: int, maxWait: TimeVal, ticks: seq<Tick>,
                 now: TimeVal, w: World, statsDrops: seq<U64>, closingDrops: seq<U64>)
    returns (fatal: bool, dump: Option<(SegReport, nat, nat)>, closing: seq<InputReport>)
    requires Inv(out.Snap()) && Distinct(input[..]) && out.inputs == input[..]
    requires Settled(View(input[..])) && CountActive(View(input[..])) == input.Length
    requires forall k | 0 <= k < |ticks| :: TickReady(out.cfg, |out.inputs|, ticks[k])
    requires out.Ready(w) && |statsDrops| == |closingDrops| == input.Length
    modifies out, input[..]
    ensures var r := RunSpec(old(out.Snap()), old(View(input[..])), rotateSec, maxWait, ticks);
      && (fatal <==> r.Exited? || RotateFails(r.out, w))
      && (!fatal ==> out.Snap() == RotateSpec(r.out, now, w) && View(input[..]) == Stopped(r.srcs))
    ensures !fatal ==> (dump.Some? <==> out.log.Verbose()) && |closing| == input.Length
    ensures !fatal ==>
              CaptureLeaves(old(out.Snap()), old(View(input[..])), old(DetailsOf(input[..])), rotateSec, maxWait, ticks,
                            out.log.Verbose(), statsDrops, DetailsOf(input[..]))
  {
    ghost var s0, v0, d0 := out.Snap(), View(input[..]), DetailsOf(input[..]);
    var rounds, activeLeft;
    fatal, rounds, activeLeft := Run(out, input, rotateSec, maxWait, input.Length, ticks);
    if fatal {
      return fatal, None, [];
    }
    RunKeeps(s0, v0, rotateSec, maxWait, ticks);
    ghost var r := RunSpec(s0, v0, rotateSec, maxWait, ticks);
    assert out.Snap() == r.out && View(input[..]) == r.srcs && Inv(r.out);
    ghost var verbose, loop := out.log.Verbose(), DetailsOf(input[..]);
    assert RunLeaves(s0, v0, d0, rotateSec, maxWait, ticks, verbose, loop);
    fatal, dump, closing := Finish(out, input[..], now, w, statsDrops, closingDrops);
    if !fatal {
      assert DetailsOf(input[..]) == if verbose then Reset(loop, statsDrops) else loop;
      CaptureFrom(s0, v0, d0, rotateSec, maxWait, ticks, verbose, statsDrops, loop, DetailsOf(input[..]));
    }
  }

  /** What the loop leaves, with the statistics dump's reset when verbose, is what capture leaves. */
  lemma CaptureFrom(s: OutState, srcs: seq<Source>, d: seq<(string, U64, nat)>, rotateSec: int, maxWait: TimeVal,
                    ticks: seq<Tick>, verbose: bool, statsDrops: seq<U64>, loop: seq<(string, U64, nat)>, e: seq<(string, U64, nat)>)
    requires RunLeaves(s, srcs, d, rotateSec, maxWait, ticks, verbose, loop) && |statsDrops| == |d|
    requires e == if verbose then Reset(loop, statsDrops) else loop
    ensures CaptureLeaves(s, srcs, d, rotateSec, maxWait, ticks, verbose, statsDrops, e)
  {
  }

  /**
   * `e` are the details main leaves: the merge loop's, with each source's
   * segment counts restarted by the verbose report.
   */
  predicate CaptureLeaves(s: OutState, srcs: seq<Source>, d: seq<(string, U64, nat)>, rotateSec: int, maxWait: TimeVal,
                          ticks: seq<Tick>, verbose: bool, statsDrops: seq<U64>, e: seq<(string, U64, nat)>)
  {
    && |d| == |srcs| == |statsDrops| && (forall k | 0 <= k < |ticks| :: |ticks[k].write.dropped| == |d|)
    && var loop := RunDetails(s, srcs, d, rotateSec, maxWait, ticks, verbose);
       e == if verbose then Reset(loop, statsDrops) else loop
  }

  /** Why main stops before its loop, in the order it checks. */
  datatype Refusal =
    | Usage                /* too few arguments: the usage text, exit 1 */
    | UnknownCompression   /* panic: an unknown compression type */
    | MalformedUri         /* panic in the constructor: no ':' in the output URI */
    | CannotOpen(k: nat)   /* input k fails to start: exit 1 */
    | BadSeqnumFile        /* panic in set_seqnumfile */

  /** What main's setup leaves: the output manager, the sources and the codec, or why it stopped. */
  datatype Launch = Launched(out: Output, input: array<Input>, codec: CompressType) | Refused(why: Refusal)

  /** There are enough arguments: an output URI unless `-B` was given, and at least one input. */
  predicate UsageOk(basename: Option<string>, args: seq<string>)
  {
    |args| >= if basename.Some? then 1 else 2
  }

  /** The URI the output manager gets: the `-B` basename, or the first argument. */
  function OutputUri(basename: Option<string>, args: seq<string>): string
    requires UsageOk(basename, args)
  {
    if basename.Some? then basename.value else args[0]
  }

  /** The input URIs: every argument after the output URI. */
  function InputUris(basename: Option<string>, args: seq<string>): seq<string>
  {
    if basename.Some? || args == [] then args else args[1..]
  }

  /** The first input that fails to start, if any. */
  function FirstFailure(starts: seq<bool>, k: nat): (r: Option<nat>)
    requires k <= |starts|
    ensures r.Some? ==> k <= r.value < |starts| && !starts[r.value] && forall j | k <= j < r.value :: starts[j]
    ensures r.None? ==> forall j | k <= j < |starts| :: starts[j]
    decreases |starts| - k
  {
    if k == |starts| then None else if !starts[k] then Some(k) else FirstFailure(starts, k + 1)
  }

  /** Why main stops before it sets the options, checking in main's order. */
  function PrepareRefusal(o: Options, basename: Option<string>, args: seq<string>, starts: seq<bool>): Option<Refusal>
  {
    if !UsageOk(basename, args) then Some(Usage)
    else if CompressionType(o.compressType, o.compressLevel).Err? then Some(UnknownCompression)
    else if ':' !in OutputUri(basename, args) then Some(MalformedUri)
    else match FirstFailure(starts, 0)
      case Some(k) => Some(CannotOpen(k))
      case None => None
  }

  /** Why main's setup stops; None where it reaches the loop. */
  function SetupRefusal(o: Options, basename: Option<string>, args: seq<string>, starts: seq<bool>, disk: Option<string>): Option<Refusal>
  {
    if PrepareRefusal(o, basename, args, starts).Some? then PrepareRefusal(o, basename, args, starts)
    else if o.seqnumFile.Some? && SeqNum.ParseSeqnum(disk).Err? then Some(BadSeqnumFile)
    else None
  }

  /**
   * The setup goes through exactly when there are enough arguments, the
   * compression type is known, the output URI has a ':', every input starts
   * and a given sequence file holds a counter; an input that fails is the
   * first that does.
   */
  lemma SetupRefusalCases(o: Options, basename: Option<string>, args: seq<string>, starts: seq<bool>, disk: Option<string>)
    ensures SetupRefusal(o, basename, args, starts, disk).None? <==>
              && UsageOk(basename, args) && CompressionType(o.compressType, o.compressLevel).Ok?
              && ':' in OutputUri(basename, args) && (forall k | 0 <= k < |starts| :: starts[k])
              && (o.seqnumFile.Some? ==> SeqNum.ParseSeqnum(disk).Ok?)
    ensures SetupRefusal(o, basename, args, starts, disk) == Some(CannotOpen(0)) <==>
              && UsageOk(basename, args) && CompressionType(o.compressType, o.compressLevel).Ok?
              && ':' in OutputUri(basename, args) && |starts| > 0 && !starts[0]
  {
  }

  /** The state the constructor leaves for an output URI split at its first ':' into format and target. */
  function Constructed(uri: string, basenameMode: bool, started: TimeVal): OutState
    requires ColonAt(uri, 0).Some?
  {
    var c := ColonAt(uri, 0).value;
    Initial(basenameMode, uri[c + 1..], uri[..c] == "pcapfile", started)
  }

  /**
   * The logger and the output manager as main builds them, or None where the
   * constructor panics on an output URI without ':'.
   */
  method NewOutput(uri: string, basenameMode: bool, started: TimeVal, verbose: int) returns (out: Option<Output>)
    ensures out.None? <==> ':' !in uri
    ensures out.Some? ==> var c := ColonAt(uri, 0).value;
      && fresh(out.value) && fresh(out.value.log) && out.value.log.level == MtcLog.Clamp(verbose)
      && Inv(out.value.Snap()) && out.value.inputs == [] && out.value.format == uri[..c]
      && out.value.Snap() == Constructed(uri, basenameMode, started)
  {
    var log := new MtcLog.Log();
    log.SetLogLevel(verbose);
    var split := SplitUri(uri);
    if split.None? {
      return None;
    }
    var o := new Output(split.value.0, split.value.1, basenameMode, started, log);
    out := Some(o);
  }

  /**
   * main up to the sources: the argument count, the codec, the logger and
   * the output manager, then the sources, or why main stops on the way.
   */
  method Prepare(o: Options, basename: Option<string>, args: seq<string>, started: TimeVal,
                 starts: seq<bool>, scripts: seq<seq<Event>>, drops: seq<U64>)
    returns (r: Launch)
    requires |starts| == |scripts| == |drops| == |InputUris(basename, args)|
    ensures r.Refused? <==> PrepareRefusal(o, basename, args, starts).Some?
    ensures r.Refused? ==> r.why == PrepareRefusal(o, basename, args, starts).value
    ensures r.Launched? ==>
      && UsageOk(basename, args) && CompressionType(o.compressType, o.compressLevel) == Ok(r.codec)
      && ColonAt(OutputUri(basename, args), 0).Some?
      && fresh(r.out) && fresh(r.input) && fresh(r.out.log) && r.out.log.level == MtcLog.Clamp(o.verbose)
      && (forall k | 0 <= k < r.input.Length :: fresh(r.input[k]))
      && Inv(r.out.Snap()) && r.out.inputs == [] && Distinct(r.input[..]) && r.input.Length == |InputUris(basename, args)|
      && OpenedAs(View(r.input[..]), DetailsOf(r.input[..]), InputUris(basename, args), scripts, drops)
      && var uri := OutputUri(basename, args);
         var c := ColonAt(uri, 0).value;
         r.out.format == uri[..c] && r.out.Snap() == Constructed(uri, basename.Some?, started)
  {
    ghost var why := PrepareRefusal(o, basename, args, starts);
    if !UsageOk(basename, args) {
      assert why == Some(Usage);
      return Refused(Usage);
    }
    var codec := CompressionType(o.compressType, o.compressLevel);
    if codec.Err? {
      assert why == Some(UnknownCompression);
      return Refused(UnknownCompression);
    }
    r := Build(o, basename, args, started, codec.value, starts, scripts, drops);
  }

  /**
   * main from the constructor to the end of the input loop, once the
   * argument count and the compression type are known good: the logger and
   * the output manager, then the sources, or why main stops on the way.
   */
  method Build(o: Options, basename: Option<string>, args: seq<string>, started: TimeVal, codec: CompressType,
               starts: seq<bool>, scripts: seq<seq<Event>>, drops: seq<U64>)
    returns (r: Launch)
    requires UsageOk(basename, args) && |starts| == |scripts| == |drops| == |InputUris(basename, args)|
    ensures r.Refused? <==> ':' !in OutputUri(basename, args) || FirstFailure(starts, 0).Some?
    ensures r.Refused? ==>
              r.why == if ':' !in OutputUri(basename, args) then MalformedUri else CannotOpen(FirstFailure(starts, 0).value)
    ensures r.Launched? ==>
      && r.codec == codec && ColonAt(OutputUri(basename, args), 0).Some?
      && fresh(r.out) && fresh(r.input) && fresh(r.out.log) && r.out.log.level == MtcLog.Clamp(o.verbose)
      && (forall k | 0 <= k < r.input.Length :: fresh(r.input[k]))
      && Inv(r.out.Snap()) && r.out.inputs == [] && Distinct(r.input[..]) && r.input.Length == |InputUris(basename, args)|
      && OpenedAs(View(r.input[..]), DetailsOf(r.input[..]), InputUris(basename, args), scripts, drops)
      && var uri := OutputUri(basename, args);
         var c := ColonAt(uri, 0).value;
         r.out.format == uri[..c] && r.out.Snap() == Constructed(uri, basename.Some?, started)
  {
    var made := NewOutput(OutputUri(basename, args), basename.Some?, started, o.verbose);
    if made.None? {
      return Refused(MalformedUri);
    }
    ghost var s0, level := made.value.Snap(), made.value.log.level;
    r := StartInputs(made.value, codec, InputUris(basename, args), starts, scripts, drops);
    assert r.Launched? ==> r.out.Snap() == s0 && r.out.log.level == level && r.out.inputs == [];
  }

  /** The input loop of main: the sources for an output manager, or the first input that fails to start. */
  method StartInputs(out: Output, codec: CompressType, uris: seq<string>,
                     starts: seq<bool>, scripts: seq<seq<Event>>, drops: seq<U64>)
    returns (r: Launch)
    requires |starts| == |scripts| == |drops| == |uris|
    ensures r.Refused? <==> FirstFailure(starts, 0).Some?
    ensures r.Refused? ==> r.why == CannotOpen(FirstFailure(starts, 0).value)
    ensures r.Launched? ==>
      && r.out == out && r.codec == codec && fresh(r.input) && Distinct(r.input[..]) && r.input.Length == |uris|
      && (forall k | 0 <= k < r.input.Length :: fresh(r.input[k]))
      && OpenedAs(View(r.input[..]), DetailsOf(r.input[..]), uris, scripts, drops)
  {
    var input := OpenInputs(uris, starts, scripts, drops);
    if input.None? {
      var k := FirstFailure(starts, 0);
      return Refused(CannotOpen(k.value));
    }
    r := Launched(out, input.value, codec);
  }

  /**
   * The setters main calls after the sources start, then set_inputs; false
   * where the sequence file does not hold a counter.
   */
  method Arm(out: Output, input: array<Input>, o: Options, codec: CompressType, disk: Option<string>) returns (ok: bool)
    requires Inv(out.Snap())
    modifies out`cfg, out`seqnum, out`seqStore, out`inputs
    ensures ok <==> (o.seqnumFile.Some? ==> SeqNum.ParseSeqnum(disk).Ok?)
    ensures ok ==> out.Snap() == Armed(old(out.Snap()), o, codec, disk) && Inv(out.Snap()) && out.inputs == input[..]
  {
    ok := Configure(out, o, codec, disk);
    if ok {
      ghost var s := out.Snap();
      out.SetInputs(input[..]);
      assert out.Snap() == s;
    }
  }

  /**
   * main up to set_inputs: Prepare, then the setters and set_inputs.
   * `started` is the clock at construction; `starts`, `scripts` and `drops`
   * describe each input as in OpenInputs, and `disk` the sequence file's
   * content.
   */
  method Setup(o: Options, basename: Option<string>, args: seq<string>, started: TimeVal,
               starts: seq<bool>, scripts: seq<seq<Event>>, drops: seq<U64>, disk: Option<string>)
    returns (r: Launch)
    requires |starts| == |scripts| == |drops| == |InputUris(basename, args)|
    ensures r.Refused? <==> SetupRefusal(o, basename, args, starts, disk).Some?
    ensures r.Refused? ==> r.why == SetupRefusal(o, basename, args, starts, disk).value
    ensures r.Launched? ==>
      && UsageOk(basename, args) && CompressionType(o.compressType, o.compressLevel) == Ok(r.codec)
      && ColonAt(OutputUri(basename, args), 0).Some? && (o.seqnumFile.Some? ==> SeqNum.ParseSeqnum(disk).Ok?)
      && fresh(r.out) && fresh(r.input) && fresh(r.out.log) && r.out.log.level == MtcLog.Clamp(o.verbose)
      && (forall k | 0 <= k < r.input.Length :: fresh(r.input[k]))
      && r.out.inputs == r.input[..] && Distinct(r.input[..]) && Inv(r.out.Snap())
      && r.input.Length == |InputUris(basename, args)|
      && OpenedAs(View(r.input[..]), DetailsOf(r.input[..]), InputUris(basename, args), scripts, drops)
      && var uri := OutputUri(basename, args);
         var c := ColonAt(uri, 0).value;
         && r.out.format == uri[..c]
         && r.out.Snap() == ArmedFor(basename, args, started, o, r.codec, disk)
  {
    r := Prepare(o, basename, args, started, starts, scripts, drops);
    if r.Refused? {
      assert SetupRefusal(o, basename, args, starts, disk) == Some(r.why);
      return;
    }
    ghost var xs := r.input[..];
    label armed:
    var ok := Arm(r.out, r.input, o, r.codec, disk);
    if !ok {
      assert SetupRefusal(o, basename, args, starts, disk) == Some(BadSeqnumFile);
      return Refused(BadSeqnumFile);
    }
    assert SetupRefusal(o, basename, args, starts, disk).None?;
    InputsUnchanged@armed(xs);
  }

  /**
   * What the environment answers an output operation with n sources: a drop
   * count per source and, when a watchfile is given, a probe that finds it.
   */
  predicate Answers(watched: bool, n: nat, w: World)
  {
    |w.dropped| == n && (watched ==> exists k | 0 <= k < |w.probes| :: w.probes[k])
  }

  predicate TickAnswers(watched: bool, n: nat, t: Tick)
  {
    Answers(watched, n, t.rotate) && Answers(watched, n, t.catchUp) && Answers(watched, n, t.write)
  }

  /** Answers for a watchfile given or not let every operation go ahead on a configuration that has one exactly then. */
  lemma AnswersReady(c: Config, n: nat, ticks: seq<Tick>, w: World)
    requires forall k | 0 <= k < |ticks| :: TickAnswers(c.watchfile.Some?, n, ticks[k])
    requires Answers(c.watchfile.Some?, n, w)
    ensures forall k | 0 <= k < |ticks| :: TickReady(c, n, ticks[k])
    ensures Admits(c, n, w)
  {
  }

  /** On a configuration that watches no file yet, the setters leave the watchfile `-W` names. */
  lemma ConfiguredWatch(c: Config, o: Options, codec: CompressType)
    requires c.watchfile.None?
    ensures Configured(c, o, codec).watchfile == o.watchfile
  {
    var c1 := WithCompression(WithSeqnumFile(c, o), o, codec);
    assert c1.watchfile.None?;
    var c2 := WithSegmentSize(WithWatchfile(c1, o), o);
    assert c2.watchfile == o.watchfile;
    var c3 := WithExtension(WithRotateSec(c2, o), o).(useutc := o.useutc);
    assert c3.watchfile == o.watchfile;
    assert Configured(c, o, codec) == WithPipeout(c3, o);
  }

  /**
   * The state the constructor and main's setters leave for the command
   * line's output URI; it watches the file `-W` names.
   */
  function ArmedFor(basename: Option<string>, args: seq<string>, started: TimeVal, o: Options,
                    codec: CompressType, disk: Option<string>): (r: OutState)
    requires UsageOk(basename, args) && ColonAt(OutputUri(basename, args), 0).Some?
    requires o.seqnumFile.Some? ==> SeqNum.ParseSeqnum(disk).Ok?
    ensures r.cfg.watchfile == o.watchfile
  {
    var s := Constructed(OutputUri(basename, args), basename.Some?, started);
    ConfiguredWatch(s.cfg, o, codec);
    Armed(s, o, codec, disk)
  }

  /**
   * What the loop and main's end leave, from the armed state `s` and the
   * sources just started: the exit, the output state, the sources, the
   * statistics dump, one closing report per source and the details.
   */
  predicate MainLeaves(s: OutState, scripts: seq<seq<Event>>, uris: seq<string>, drops: seq<U64>, o: Options,
                       ticks: seq<Tick>, now: TimeVal, w: World, statsDrops: seq<U64>,
                       fatal: bool, dump: Option<(SegReport, nat, nat)>, closing: seq<InputReport>,
                       after: OutState, view: seq<Source>, details: seq<(string, U64, nat)>)
  {
    && |drops| == |uris|
    && var run := RunSpec(s, Started(scripts), RotateSeconds(o.rotateSec), MaxWait(o.maxWaitMs), ticks);
       && (fatal <==> run.Exited? || RotateFails(run.out, w))
       && (!fatal ==>
             && after == RotateSpec(run.out, now, w) && view == Stopped(run.srcs)
             && (dump.Some? <==> o.verbose != 0) && |closing| == |uris|
             && CaptureLeaves(s, Started(scripts), OpenedDetails(uris, drops), RotateSeconds(o.rotateSec),
                              MaxWait(o.maxWaitMs), ticks, o.verbose != 0, statsDrops, details))
  }

  /**
   * Capture with the loop's parameters as main computes them from the
   * options: `opt_rotatesec` stored in a time_t and the wait budget from
   * `-w`, on the sources just started and the state `s` set-up leaves.
   */
  method CaptureAsMain(out: Output, input: array<Input>, o: Options, ghost s: OutState,
                       scripts: seq<seq<Event>>, uris: seq<string>, drops: seq<U64>,
                       ticks: seq<Tick>, now: TimeVal, w: World, statsDrops: seq<U64>, closingDrops: seq<U64>)
    returns (fatal: bool, dump: Option<(SegReport, nat, nat)>, closing: seq<InputReport>)
    requires Inv(s) && out.Snap() == s && s.cfg.watchfile == o.watchfile && out.log.level == MtcLog.Clamp(o.verbose)
    requires Distinct(input[..]) && out.inputs == input[..]
    requires |scripts| == |uris| == |drops| == |statsDrops| == |closingDrops| == input.Length
    requires View(input[..]) == Started(scripts) && DetailsOf(input[..]) == OpenedDetails(uris, drops)
    requires forall k | 0 <= k < |ticks| :: TickAnswers(o.watchfile.Some?, input.Length, ticks[k])
    requires Answers(o.watchfile.Some?, input.Length, w)
    modifies out, input[..]
    ensures MainLeaves(s, scripts, uris, drops, o, ticks, now, w, statsDrops, fatal, dump, closing,
                       out.Snap(), View(input[..]), DetailsOf(input[..]))
  {
    AnswersReady(out.cfg, input.Length, ticks, w);
    VerboseFlag(o.verbose, out.log);
    fatal, dump, closing := Capture(out, input, RotateSeconds(o.rotateSec), MaxWait(o.maxWaitMs), ticks,
                                    now, w, statsDrops, closingDrops);
  }

  /**
   * main: the set-up, then the loop and what follows it, with the loop's
   * parameters as main computes them. Where the set-up goes through, the
   * loop starts from the armed initial state and the sources just started.
   */
  method Execute(o: Options, basename: Option<string>, args: seq<string>, started: TimeVal,
                 starts: seq<bool>, scripts: seq<seq<Event>>, drops: seq<U64>, disk: Option<string>,
                 ticks: seq<Tick>, now: TimeVal, w: World, statsDrops: seq<U64>, closingDrops: seq<U64>)
    returns (r: Launch, fatal: bool, dump: Option<(SegReport, nat, nat)>, closing: seq<InputReport>)
    requires |starts| == |scripts| == |drops| == |statsDrops| == |closingDrops| == |InputUris(basename, args)|
    requires forall k | 0 <= k < |ticks| :: TickAnswers(o.watchfile.Some?, |InputUris(basename, args)|, ticks[k])
    requires Answers(o.watchfile.Some?, |InputUris(basename, args)|, w)
    ensures r.Refused? <==> SetupRefusal(o, basename, args, starts, disk).Some?
    ensures r.Refused? ==> r.why == SetupRefusal(o, basename, args, starts, disk).value && !fatal && dump.None? && closing == []
    ensures r.Launched? ==>
      && UsageOk(basename, args) && ColonAt(OutputUri(basename, args), 0).Some?
      && (o.seqnumFile.Some? ==> SeqNum.ParseSeqnum(disk).Ok?)
      && MainLeaves(ArmedFor(basename, args, started, o, r.codec, disk), scripts, InputUris(basename, args), drops, o,
                    ticks, now, w, statsDrops, fatal, dump, closing, r.out.Snap(), View(r.input[..]), DetailsOf(r.input[..]))
  {
    r := Setup(o, basename, args, started, starts, scripts, drops, disk);
    if r.Refused? {
      return r, false, None, [];
    }
    OpenedAll(View(r.input[..]), DetailsOf(r.input[..]), InputUris(basename, args), scripts, drops);
    fatal, dump, closing := CaptureAsMain(r.out, r.input, o, ArmedFor(basename, args, started, o, r.codec, disk),
                                          scripts, InputUris(basename, args), drops, ticks, now, w, statsDrops, closingDrops);
  }
}
