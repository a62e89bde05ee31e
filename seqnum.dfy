/**
 * The persisted segment counter and the segment file names of mtc_output.cc:
 * what init_seqnum accepts, what save_seqnum writes, how the counter wraps,
 * and how a sequenced file name is assembled.
 */
module SeqNum {
  import opened Wrappers
  import opened Numerals
  import opened Posix

  /** SEQNUM_MAX: the largest counter value that fits the 8-digit field. */
  const SEQNUM_MAX: nat := 99999999
  /** The width of SEQNUM_FMT, "%08lu". */
  const SEQNUM_WIDTH: nat := 8
  /** init_seqnum reads at most sizeof(str) - 1 bytes of the file. */
  const READ_MAX: nat := 127
  /** A fixed output name is copied with strncpy into a 1024-byte buffer. */
  const NAME_MAX: nat := 1023

  /** `++current_seqnum_` on a 64-bit counter, then the wrap to zero past SEQNUM_MAX. */
  function Next(v: nat): (r: nat)
    requires v <= ULONG_MAX
    ensures r <= SEQNUM_MAX
    ensures v < SEQNUM_MAX ==> r == v + 1
    ensures v >= SEQNUM_MAX ==> r == 0
  {
    var w := (v + 1) % (ULONG_MAX + 1);
    if w > SEQNUM_MAX then 0 else w
  }

  /** What save_seqnum writes to the sequence file: "%lu\n". */
  function SaveText(n: nat): string
  {
    Decimal(n) + "\n"
  }

  datatype SeqError = CannotOpen | Corrupt(content: string)

  /** The part of the file that read(fd, str, sizeof(str) - 1) returns. */
  function ReadPrefix(content: string): (s: string)
    ensures |s| <= READ_MAX
    ensures |content| <= READ_MAX ==> s == content
  {
    if |content| > READ_MAX then content[..READ_MAX] else content
  }

  /**
   * init_seqnum: the counter value loaded from the sequence file, or the
   * reason it panics. `file` is None when the file cannot be opened; a missing
   * file is created empty (O_CREAT) and reads as "".
   */
  function ParseSeqnum(file: Option<string>): (r: Result<nat, SeqError>)
    ensures r.Ok? ==> r.value <= SEQNUM_MAX
    ensures file.None? <==> r == Err(CannotOpen)
    ensures file == Some("") ==> r == Ok(0)
    ensures file.Some? && file.value != [] && r.Ok? ==>
              var s := ReadPrefix(file.value); s[|s| - 1] == '\n' && '\0' !in s
    ensures file.Some? && file.value != [] ==>
              var s := ReadPrefix(file.value); var c := StrToUl(s);
              && (r.Ok? <==> s[|s| - 1] == '\n' && '\0' !in s && c.end < |s| && s[c.end] == '\n')
              && (r.Ok? ==> r.value == Next(c.value))
  {
    match file
    case None => Err(CannotOpen)
    case Some(content) =>
      var s := ReadPrefix(content);
      if |s| == 0 then Ok(0)
      else if s[|s| - 1] != '\n' || '\0' in s then Err(Corrupt(s))
      else
        var c := StrToUl(s);
        if c.end < |s| && s[c.end] == '\n' then Ok(Next(c.value)) else Err(Corrupt(s))
  }

  /**
   * A file holding a decimal number followed by a newline (and perhaps more
   * lines) loads as the number's wrapped successor.
   */
  lemma ParseNumberLine(n: nat, rest: string)
    requires n <= ULONG_MAX
    requires |Decimal(n) + "\n" + rest| <= READ_MAX
    requires '\0' !in rest && (rest == [] || rest[|rest| - 1] == '\n')
    ensures ParseSeqnum(Some(Decimal(n) + "\n" + rest)) == Ok(Next(n))
  {
    var d := Decimal(n);
    var s := d + "\n" + rest;
    LineShape(d, rest);
    StrToUlDecimal(n, "\n" + rest);
    ParseLine(s, n, |d|);
  }

  /** A digit run, a newline and newline-terminated lines: no NUL, and the newlines where they belong. */
  lemma LineShape(d: string, rest: string)
    requires AllDigits(d)
    requires '\0' !in rest && (rest == [] || rest[|rest| - 1] == '\n')
    ensures var s := d + "\n" + rest;
      s == d + ("\n" + rest) && s[|d|] == '\n' && s[|s| - 1] == '\n' && '\0' !in s
  {
    var s := d + "\n" + rest;
    assert s == d + ("\n" + rest);
    forall k | 0 <= k < |s| ensures s[k] != '\0' {
      if k < |d| {
        assert IsDigit(d[k]);
      } else if k > |d| {
        assert s[k] == rest[k - |d| - 1];
      }
    }
  }

  /** Content whose number strtoul stops at a newline loads as that number's successor. */
  lemma ParseLine(s: string, v: nat, end: nat)
    requires 0 < |s| <= READ_MAX && s[|s| - 1] == '\n' && '\0' !in s
    requires v <= ULONG_MAX && StrToUl(s) == Conversion(v, end) && end < |s| && s[end] == '\n'
    ensures ParseSeqnum(Some(s)) == Ok(Next(v))
  {
    assert ReadPrefix(s) == s;
  }

  /** What save_seqnum writes, init_seqnum reads back as the next counter value. */
  lemma SaveThenLoad(n: nat)
    requires n <= SEQNUM_MAX
    ensures ParseSeqnum(Some(SaveText(n))) == Ok(Next(n))
  {
    DecimalLength(n, SEQNUM_WIDTH);
    assert SaveText(n) == Decimal(n) + "\n" + [];
    ParseNumberLine(n, []);
  }

  /** Content that does not end in a newline within the bytes read is corrupt. */
  lemma UnterminatedIsCorrupt(content: string)
    requires 0 < |content| <= READ_MAX && content[|content| - 1] != '\n'
    ensures ParseSeqnum(Some(content)) == Err(Corrupt(content))
  {
  }

  /** The counter after k openings that start from n. */
  function Advance(n: nat, k: nat): (r: nat)
    requires n <= SEQNUM_MAX
    ensures r <= SEQNUM_MAX
  {
    if k == 0 then n else Next(Advance(n, k - 1))
  }

  /** The counter counts modulo SEQNUM_MAX + 1. */
  lemma AdvanceModulo(n: nat, k: nat)
    requires n <= SEQNUM_MAX
    ensures Advance(n, k) == (n + k) % (SEQNUM_MAX + 1)
  {
    var q := AdvanceWraps(n, k);
    ModuloOf(n + k, q, Advance(n, k));
  }

  /** k openings from n wrap the counter q times. */
  lemma {:induction false} AdvanceWraps(n: nat, k: nat) returns (q: nat)
    requires n <= SEQNUM_MAX
    ensures n + k == q * (SEQNUM_MAX + 1) + Advance(n, k)
  {
    if k == 0 {
      q := 0;
    } else {
      q := AdvanceWraps(n, k - 1);
      if Advance(n, k - 1) == SEQNUM_MAX {
        q := q + 1;
      }
    }
  }

  lemma ModuloOf(x: nat, q: nat, r: nat)
    requires 0 <= r <= SEQNUM_MAX && x == q * (SEQNUM_MAX + 1) + r
    ensures x % (SEQNUM_MAX + 1) == r
  {
  }

  /** Within one cycle of the counter no value is used twice. */
  lemma NoReuseWithinCycle(n: nat, i: nat, j: nat)
    requires n <= SEQNUM_MAX && i < j <= SEQNUM_MAX
    ensures Advance(n, i) != Advance(n, j)
  {
    AdvanceModulo(n, i);
    AdvanceModulo(n, j);
  }

  /** The sequence-number field of a file name, SEQNUM_FMT. */
  function SeqField(n: nat): string
  {
    ZeroPadded(n, SEQNUM_WIDTH)
  }

  /** Every counter value renders as exactly 8 digits that read back as the value. */
  lemma SeqFieldExact(n: nat)
    requires n <= SEQNUM_MAX
    ensures |SeqField(n)| == SEQNUM_WIDTH
    ensures AllDigits(SeqField(n)) && DigitsValue(SeqField(n)) == n
  {
    ZeroPaddedExact(n, SEQNUM_WIDTH);
  }

  /** The calendar fields render in their nominal widths. */
  predicate CalendarInRange(tm: Tm)
  {
    tm.year + 1900 < 10000 && tm.mon < 12 && tm.mday < 100 && tm.hour < 100 && tm.min < 100 && tm.sec < 100
  }

  function Extension(ext: Option<string>): string
  {
    if ext.Some? then ext.value else ""
  }

  /** The date-time part "%4d%02d%02d-%02d%02d%02d" of a sequenced name. */
  function DateTime(tm: Tm): string
  {
    SpacePadded(tm.year + 1900, 4) + ZeroPadded(tm.mon + 1, 2) + ZeroPadded(tm.mday, 2) + "-" +
    ZeroPadded(tm.hour, 2) + ZeroPadded(tm.min, 2) + ZeroPadded(tm.sec, 2)
  }

  /** "<base>/<YYYY><MM><DD>-<hh><mm><ss>-<seq>" followed by the extension, if any. */
  function FileName(base: string, tm: Tm, seqnum: nat, ext: Option<string>): string
  {
    base + "/" + DateTime(tm) + "-" + SeqField(seqnum) + Extension(ext)
  }

  lemma DateTimeLength(tm: Tm)
    requires CalendarInRange(tm)
    ensures |DateTime(tm)| == 15
  {
    var y, mo, d, h, mi, se := SpacePadded(tm.year + 1900, 4), ZeroPadded(tm.mon + 1, 2), ZeroPadded(tm.mday, 2),
                               ZeroPadded(tm.hour, 2), ZeroPadded(tm.min, 2), ZeroPadded(tm.sec, 2);
    DateTimeParts(tm);
    JoinLength(y, mo, d, h, mi, se);
    assert Pow10(2) == 100 && Pow10(4) == 10000;
    PaddedWidth(tm.year + 1900, 4);
    PaddedWidth(tm.mon + 1, 2);
    PaddedWidth(tm.mday, 2);
    PaddedWidth(tm.hour, 2);
    PaddedWidth(tm.min, 2);
    PaddedWidth(tm.sec, 2);
  }

  lemma DateTimeParts(tm: Tm)
    ensures DateTime(tm) == SpacePadded(tm.year + 1900, 4) + ZeroPadded(tm.mon + 1, 2) + ZeroPadded(tm.mday, 2) + "-" +
                         ZeroPadded(tm.hour, 2) + ZeroPadded(tm.min, 2) + ZeroPadded(tm.sec, 2)
  {
  }

  lemma JoinLength(y: string, mo: string, d: string, h: string, mi: string, se: string)
    ensures |y + mo + d + "-" + h + mi + se| == |y| + |mo| + |d| + 1 + |h| + |mi| + |se|
  {
  }

  /**
   * The layout of a sequenced name: the counter's 8 digits sit at a fixed
   * offset after the base path, whatever the calendar, and denote the counter.
   */
  lemma FileNameLayout(base: string, tm: Tm, seqnum: nat, ext: Option<string>)
    requires CalendarInRange(tm) && seqnum <= SEQNUM_MAX
    ensures var name := FileName(base, tm, seqnum, ext);
      && |name| == |base| + 25 + |Extension(ext)|
      && name[..|base| + 1] == base + "/"
      && name[|base| + 17..|base| + 25] == SeqField(seqnum)
      && name[|base| + 25..] == Extension(ext)
  {
    DateTimeLength(tm);
    SeqFieldExact(seqnum);
    PartsAtOffsets(base, DateTime(tm), SeqField(seqnum), Extension(ext));
  }

  lemma PartsAtOffsets(base: string, stamp: string, field: string, ext: string)
    requires |stamp| == 15 && |field| == SEQNUM_WIDTH
    ensures var name := base + "/" + stamp + "-" + field + ext;
      && |name| == |base| + 25 + |ext|
      && name[..|base| + 1] == base + "/"
      && name[|base| + 17..|base| + 25] == field
      && name[|base| + 25..] == ext
  {
    var head := base + "/" + stamp + "-";
    assert base + "/" + stamp + "-" + field + ext == head + field + ext;
    assert (head + field + ext)[..|base| + 1] == head[..|base| + 1];
  }

  /**
   * Two names under the same base and extension are equal only if their
   * counters are: files of distinct counter values never collide.
   */
  lemma FileNamesDistinct(base: string, t1: Tm, t2: Tm, a: nat, b: nat, ext: Option<string>)
    requires CalendarInRange(t1) && CalendarInRange(t2)
    requires a <= SEQNUM_MAX && b <= SEQNUM_MAX
    requires FileName(base, t1, a, ext) == FileName(base, t2, b, ext)
    ensures a == b
  {
    FileNameLayout(base, t1, a, ext);
    FileNameLayout(base, t2, b, ext);
    SeqFieldExact(a);
    SeqFieldExact(b);
  }

  /** The fixed output name as strncpy leaves it in namebuf_. */
  function FixedName(outputfn: string): (r: string)
    ensures |r| <= NAME_MAX
    ensures |outputfn| <= NAME_MAX ==> r == outputfn
    ensures r == outputfn[..|r|]
  {
    if |outputfn| > NAME_MAX then outputfn[..NAME_MAX] else outputfn
  }
}
