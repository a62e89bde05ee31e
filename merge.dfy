/**
 * The merge loop of mtracecap.cc as values: what one pass of the polling
 * loop does to the sources, which buffered packet it then selects, and the
 * counts the loop keeps (active sources, accepted packets).
 */
module Merge {
  import opened Wrappers
  import opened Posix
  import opened Libtrace

  /**
   * The part of an MTC_Input the merge loop reads and changes, segment
   * statistics aside: whether it is active, the packet it holds, the last
   * timestamp taken, the packets taken so far, and the events it will answer.
   */
  datatype Source = Source(active: bool, packet: Option<Packet>, prevTs: U64, totalPackets: nat, events: seq<Event>)

  /** What polling a source leaves: the source and the shared wait budget, or an unknown event (the process exits). */
  datatype Polled = Polled(src: Source, budget: TimeVal) | Fatal

  /** trace_get_layer3 found a usable header: one is present and its ethertype is not 0xffff. */
  predicate Layer3(hasLayer3: bool, ethertype: nat)
  {
    hasLayer3 && ethertype != 0xffff
  }

  /** The shared wait budget is used up: `(tv_sec | tv_usec) == 0`. */
  predicate Exhausted(t: TimeVal)
  {
    t.sec == 0 && t.usec == 0
  }

  /** The event trace_event answers next; a source with nothing scripted answers SLEEP. */
  function Head(es: seq<Event>): Event
  {
    if es == [] then Sleep else es[0]
  }

  function Rest(es: seq<Event>): (r: seq<Event>)
    ensures es != [] ==> |r| == |es| - 1
    ensures es == [] ==> r == []
  {
    if es == [] then [] else es[1..]
  }

  /** A source takes p: it is buffered and counted, and its ERF stamp remembered as prev_ts_. */
  function Accept(s: Source, p: Packet): Source
  {
    s.(packet := Some(p), prevTs := p.erf, totalPackets := s.totalPackets + 1)
  }

  /**
   * The loop's visit to an active source that holds no packet, including the
   * re-runs of the same source that follow a packet without a layer-3 header.
   * SLEEP moves on; IOWAIT with budget left waits, takes the remaining budget
   * and, when the descriptor became readable, asks again and keeps only a
   * packet; TERMINATE deactivates; an unknown event is fatal.
   *
   * Polling buffers at most one packet, counts exactly the packet it
   * buffers, and remembers that packet's stamp.
   */
  function Poll(s: Source, budget: TimeVal): (r: Polled)
    requires s.active && s.packet.None?
    ensures r.Polled? ==> r.src.totalPackets == s.totalPackets + (if r.src.packet.Some? then 1 else 0)
    ensures r.Polled? && r.src.packet.Some? ==> r.src.active && r.src.prevTs == r.src.packet.value.erf
    ensures r.Polled? && r.src.packet.None? ==> r.src.prevTs == s.prevTs
    ensures r.Polled? ==> |r.src.events| < |s.events| || (s.events == [] && r.src == s)
    decreases |s.events|
  {
    if s.events == [] then Polled(s, budget)
    else
      var s1 := s.(events := s.events[1..]);
      match s.events[0]
      case Sleep => Polled(s1, budget)
      case IoWait(wait, left) =>
        if Exhausted(budget) then Polled(s1, budget)
        else if !wait.Readable? then Polled(s1, left)
        else
          var e := Head(s1.events);
          var s2 := s1.(events := Rest(s1.events));
          if !e.PacketEvent? then Polled(s2, left)
          else if Layer3(e.hasLayer3, e.ethertype) then Polled(Accept(s2, e.p), left)
          else Poll(s2, left)
      case PacketEvent(p, hasLayer3, ethertype) =>
        if Layer3(hasLayer3, ethertype) then Polled(Accept(s1, p), budget) else Poll(s1, budget)
      case Terminate => Polled(s1.(active := false), budget)
      case Unknown => Fatal
  }

  /**
   * What polling s into r consumed: r's script is what is left of s's once
   * the consumed events are dropped from the front, and a packet r buffers
   * is the last event consumed, a PACKET event with a usable layer-3 header.
   */
  predicate ConsumedBy(s: Source, r: Polled)
  {
    r.Polled? ==>
      var used := |s.events| - |r.src.events|;
      && 0 <= used && r.src.events == s.events[used..]
      && (r.src.packet.Some? ==>
            && used > 0 && s.events[used - 1].PacketEvent?
            && s.events[used - 1].p == r.src.packet.value
            && Layer3(s.events[used - 1].hasLayer3, s.events[used - 1].ethertype))
  }

  /** What polling consumed from a suffix of s's script, it consumed from s's. */
  lemma ConsumedAfter(s: Source, k: nat, t: Source, r: Polled)
    requires k <= |s.events| && t.events == s.events[k..] && ConsumedBy(t, r)
    ensures ConsumedBy(s, r)
  {
    if r.Polled? {
      var u := |t.events| - |r.src.events|;
      assert s.events[k + u..] == t.events[u..];
      if u > 0 {
        assert s.events[k + u - 1] == t.events[u - 1];
      }
    }
  }

  /** Polling consumes the script from the front, and buffers only the last event it consumed. */
  lemma {:induction false} PollConsumes(s: Source, budget: TimeVal)
    requires s.active && s.packet.None?
    ensures ConsumedBy(s, Poll(s, budget))
    decreases |s.events|
  {
    if s.events != [] {
      var s1 := s.(events := s.events[1..]);
      match s.events[0]
      case IoWait(wait, left) =>
        if !Exhausted(budget) && wait.Readable? && s1.events != [] {
          var s2 := s1.(events := s1.events[1..]);
          assert s2.events == s.events[2..];
          var e := s1.events[0];
          if e.PacketEvent? && !Layer3(e.hasLayer3, e.ethertype) {
            PollConsumes(s2, left);
            ConsumedAfter(s, 2, s2, Poll(s2, left));
          }
        }
      case PacketEvent(p, hasLayer3, ethertype) =>
        if !Layer3(hasLayer3, ethertype) {
          PollConsumes(s1, budget);
          ConsumedAfter(s, 1, s1, Poll(s1, budget));
        }
      case _ =>
    }
  }

  /** The loop body for one source: an inactive source, or one holding a packet, is passed over. */
  function Visit(s: Source, budget: TimeVal): Polled
  {
    if !s.active || s.packet.Some? then Polled(s, budget) else Poll(s, budget)
  }

  /** What one pass of the polling loop leaves: the sources and the budget, or an exit. */
  datatype Passed = Passed(srcs: seq<Source>, budget: TimeVal) | Failed

  /** The pass over the first n sources, in index order, sharing one wait budget. */
  function PassTo(srcs: seq<Source>, n: nat, budget: TimeVal): (r: Passed)
    requires n <= |srcs|
    ensures r.Passed? ==> |r.srcs| == |srcs| && forall k | n <= k < |srcs| :: r.srcs[k] == srcs[k]
  {
    if n == 0 then Passed(srcs, budget)
    else match PassTo(srcs, n - 1, budget)
      case Failed => Failed
      case Passed(t, b) =>
        match Visit(t[n - 1], b)
        case Fatal => Failed
        case Polled(x, b') => Passed(t[n - 1 := x], b')
  }

  function Pass(srcs: seq<Source>, budget: TimeVal): Passed
  {
    PassTo(srcs, |srcs|, budget)
  }

  /** A source whose packet takes part in the selection. */
  predicate Candidate(s: Source)
  {
    s.active && s.packet.Some?
  }

  function Stamp(s: Source): U64
    requires s.packet.Some?
  {
    s.packet.value.erf
  }

  /** The running minimum of the loop: mintime_erf and mintime_idx. */
  datatype Pick = Pick(erf: U64, idx: int)

  /** The scan starts from (-1 as uint64_t, -1) and replaces the pick on a strictly smaller ERF stamp. */
  function MinTo(srcs: seq<Source>, n: nat): Pick
    requires n <= |srcs|
  {
    if n == 0 then Pick(U64_MAX, -1)
    else
      var m := MinTo(srcs, n - 1);
      var s := srcs[n - 1];
      if Candidate(s) && Stamp(s) < m.erf then Pick(Stamp(s), n - 1) else m
  }

  function Select(srcs: seq<Source>): Pick
  {
    MinTo(srcs, |srcs|)
  }

  /**
   * The selection picks a candidate with the smallest ERF stamp, the lowest
   * index among equal stamps, and nothing exactly when every candidate is
   * stamped 0xffffffffffffffff (or there is none).
   */
  lemma {:induction false} MinToIsMinimum(srcs: seq<Source>, n: nat)
    requires n <= |srcs|
    ensures var m := MinTo(srcs, n);
      && (m.idx == -1 <==> forall k | 0 <= k < n && Candidate(srcs[k]) :: Stamp(srcs[k]) == U64_MAX)
      && (m.idx == -1 ==> m.erf == U64_MAX)
      && (m.idx != -1 ==> 0 <= m.idx < n && Candidate(srcs[m.idx]) && Stamp(srcs[m.idx]) == m.erf && m.erf < U64_MAX)
      && (forall k | 0 <= k < n && Candidate(srcs[k]) :: m.erf <= Stamp(srcs[k]))
      && (forall k | 0 <= k < m.idx && Candidate(srcs[k]) :: m.erf < Stamp(srcs[k]))
  {
    if n > 0 {
      MinToIsMinimum(srcs, n - 1);
    }
  }

  lemma SelectIsMinimum(srcs: seq<Source>)
    ensures var m := Select(srcs);
      && (m.idx == -1 <==> forall k | 0 <= k < |srcs| && Candidate(srcs[k]) :: Stamp(srcs[k]) == U64_MAX)
      && (m.idx != -1 ==> 0 <= m.idx < |srcs| && Candidate(srcs[m.idx]) && Stamp(srcs[m.idx]) == m.erf)
      && (forall k | 0 <= k < |srcs| && Candidate(srcs[k]) :: m.erf <= Stamp(srcs[k]))
      && (forall k | 0 <= k < m.idx && Candidate(srcs[k]) :: m.erf < Stamp(srcs[k]))
  {
    MinToIsMinimum(srcs, |srcs|);
  }

  /** The scan of the first n sources depends on nothing else. */
  lemma {:induction false} MinToPrefix(a: seq<Source>, b: seq<Source>, n: nat)
    requires n <= |a| && n <= |b|
    requires forall k | 0 <= k < n :: a[k] == b[k]
    ensures MinTo(a, n) == MinTo(b, n)
  {
    if n > 0 {
      MinToPrefix(a, b, n - 1);
    }
  }

  /**
   * A packet stamped 0xffffffffffffffff equals the scan's start value and so
   * is never selected: its source keeps it, is never polled again, and stays
   * active.
   */
  lemma SentinelNeverSelected(srcs: seq<Source>, k: nat)
    requires k < |srcs| && Candidate(srcs[k]) && Stamp(srcs[k]) == U64_MAX
    ensures Select(srcs).idx != k
  {
    MinToIsMinimum(srcs, |srcs|);
  }

  /** Sources that are inactive hold no packet. */
  predicate Settled(srcs: seq<Source>)
  {
    forall k | 0 <= k < |srcs| :: !srcs[k].active ==> srcs[k].packet.None?
  }

  /**
   * A pass visits each source once: sources that are inactive or hold a
   * packet are left exactly as they were, no source becomes active, and the
   * sources stay settled.
   */
  lemma {:induction false} PassKeeps(srcs: seq<Source>, n: nat, budget: TimeVal)
    requires n <= |srcs| && Settled(srcs)
    ensures var r := PassTo(srcs, n, budget);
      r.Passed? ==>
        && Settled(r.srcs)
        && (forall k | 0 <= k < |srcs| :: r.srcs[k].active ==> srcs[k].active)
        && (forall k | 0 <= k < |srcs| :: !srcs[k].active || srcs[k].packet.Some? ==> r.srcs[k] == srcs[k])
  {
    if n > 0 {
      PassKeeps(srcs, n - 1, budget);
    }
  }

  /** A pass counts into a source's total exactly the packet it makes the source take, if any. */
  lemma {:induction false} PassTotals(srcs: seq<Source>, n: nat, budget: TimeVal)
    requires n <= |srcs|
    ensures var r := PassTo(srcs, n, budget);
      r.Passed? ==> forall k | 0 <= k < |srcs| ::
        r.srcs[k].totalPackets == srcs[k].totalPackets + (if srcs[k].packet.None? && r.srcs[k].packet.Some? then 1 else 0)
  {
    if n > 0 {
      PassTotals(srcs, n - 1, budget);
    }
  }

  /** active_inputs: the number of active sources. */
  function CountActive(srcs: seq<Source>): nat
  {
    if srcs == [] then 0 else CountActive(srcs[..|srcs| - 1]) + (if srcs[|srcs| - 1].active then 1 else 0)
  }

  /** What a source has taken less what it holds: the packets it has passed on to be written. */
  function Delivered(s: Source): int
  {
    s.totalPackets - (if s.packet.Some? then 1 else 0)
  }

  function Balance(srcs: seq<Source>): int
  {
    if srcs == [] then 0 else Balance(srcs[..|srcs| - 1]) + Delivered(srcs[|srcs| - 1])
  }

  /** The packets the sources have taken altogether: the sum of their total_packets_. */
  function Taken(srcs: seq<Source>): nat
  {
    if srcs == [] then 0 else Taken(srcs[..|srcs| - 1]) + srcs[|srcs| - 1].totalPackets
  }

  /** Sources that hold no packet have passed on everything they took. */
  lemma {:induction false} BalanceWhenEmpty(srcs: seq<Source>)
    requires forall k | 0 <= k < |srcs| :: srcs[k].packet.None?
    ensures Balance(srcs) == Taken(srcs)
  {
    if srcs != [] {
      var n := |srcs| - 1;
      assert forall k | 0 <= k < n :: srcs[..n][k] == srcs[k];
      BalanceWhenEmpty(srcs[..n]);
    }
  }

  /** Replacing one source changes the counts by that source's difference. */
  lemma {:induction false} CountsUpdate(srcs: seq<Source>, i: nat, x: Source)
    requires i < |srcs|
    ensures CountActive(srcs[i := x]) == CountActive(srcs) - (if srcs[i].active then 1 else 0) + (if x.active then 1 else 0)
    ensures Balance(srcs[i := x]) == Balance(srcs) - Delivered(srcs[i]) + Delivered(x)
    decreases |srcs|
  {
    var t := srcs[i := x];
    var n := |srcs| - 1;
    assert t[..n] == if i == n then srcs[..n] else srcs[..n][i := x];
    if i < n {
      CountsUpdate(srcs[..n], i, x);
    }
  }

  /** Polling keeps what a source has passed on: a packet it takes it also holds. */
  lemma VisitBalance(s: Source, budget: TimeVal)
    ensures var r := Visit(s, budget); r.Polled? ==> Delivered(r.src) == Delivered(s)
  {
  }

  /**
   * A pass deactivates exactly what it terminates and loses no packet: the
   * packets the sources have passed on are the same after it.
   */
  lemma {:induction false} PassCounts(srcs: seq<Source>, n: nat, budget: TimeVal)
    requires n <= |srcs|
    ensures var r := PassTo(srcs, n, budget);
      r.Passed? ==> Balance(r.srcs) == Balance(srcs) && CountActive(r.srcs) <= CountActive(srcs)
  {
    if n > 0 {
      PassCounts(srcs, n - 1, budget);
      var r := PassTo(srcs, n - 1, budget);
      if r.Passed? && Visit(r.srcs[n - 1], r.budget).Polled? {
        var x := Visit(r.srcs[n - 1], r.budget).src;
        VisitBalance(r.srcs[n - 1], r.budget);
        CountsUpdate(r.srcs, n - 1, x);
      }
    }
  }

  /** Writing the selected packet releases it: one more packet passed on, one fewer held. */
  lemma ReleaseCounts(srcs: seq<Source>, i: nat)
    requires i < |srcs| && srcs[i].packet.Some?
    ensures var t := srcs[i := srcs[i].(packet := None)];
      Balance(t) == Balance(srcs) + 1 && CountActive(t) == CountActive(srcs)
  {
    CountsUpdate(srcs, i, srcs[i].(packet := None));
  }

  /** Every source is inactive exactly when none is counted active. */
  lemma {:induction false} NoneActive(srcs: seq<Source>)
    ensures CountActive(srcs) == 0 <==> forall k | 0 <= k < |srcs| :: !srcs[k].active
  {
    if srcs != [] {
      var n := |srcs| - 1;
      NoneActive(srcs[..n]);
      assert forall k | 0 <= k < n :: srcs[..n][k] == srcs[k];
    }
  }
}
