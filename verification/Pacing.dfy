/** The deadline arithmetic of the paced reader. Times are integer nanoseconds. */
module Pacing {
  import opened Bytes

  const MICRO: nat := 1_000
  const MILLI: nat := 1_000_000

  /** `duration_cast` to microseconds: truncation toward zero. */
  function TruncMicros(nanos: int): int {
    if nanos >= 0 then nanos / MICRO else -(-nanos / MICRO)
  }

  /** `next_deadline` and `deadline_valid`. */
  datatype Pacer = Pacer(deadline: int, armed: bool)

  /** The first look at the clock sets the first deadline one period ahead. */
  function Arm(p: Pacer, now: int, period: nat): Pacer {
    if p.armed then p else Pacer(now + period, true)
  }

  datatype Verdict = Due | Sleep(micros: nat) | GiveUp

  /** What the reader does after looking at the clock. A sleep lasts until the deadline,
      cut to whole microseconds and padded by a millisecond, but never past the caller's
      own deadline. */
  function Judge(p: Pacer, now: int, callDeadline: int): Verdict {
    if now >= p.deadline then Due
    else
      var wait := Min(TruncMicros(p.deadline - now) + 1000, TruncMicros(callDeadline - now));
      if wait <= 0 then GiveUp else Sleep(wait)
  }

  /** One period on, or one period from now if that is already past. */
  function Advance(p: Pacer, period: nat, after: int): Pacer {
    var next := p.deadline + period;
    Pacer(if next < after then after + period else next, true)
  }

  /** After a due frame the deadline lies between the stamp and one period past it, and
      at least one period past the deadline before. */
  lemma {:induction false} AdvanceBounds(p: Pacer, period: nat, after: int)
    requires p.deadline <= after
    ensures after <= Advance(p, period, after).deadline <= after + period
    ensures p.deadline + period <= Advance(p, period, after).deadline
    ensures Advance(p, period, after).deadline == p.deadline + period <==> after <= p.deadline + period
    ensures after > p.deadline + period ==> Advance(p, period, after).deadline == after + period
  {
  }

  /** At such a time the reader will not sleep (again). */
  predicate Settled(p: Pacer, now: int, callDeadline: int) {
    p.armed && (now >= p.deadline || now + MICRO > callDeadline)
  }

  lemma {:induction false} SettledNeverSleeps(p: Pacer, now: int, callDeadline: int)
    requires Settled(p, now, callDeadline)
    ensures !Judge(p, now, callDeadline).Sleep?
  {
  }

  /** A sleep that lasts as long as asked settles the matter, in spite of the truncation
      of both waits to whole microseconds. */
  lemma {:induction false} SleepSettles(p: Pacer, now: int, callDeadline: int)
    requires p.armed && Judge(p, now, callDeadline).Sleep?
    ensures Settled(p, now + Judge(p, now, callDeadline).micros * MICRO, callDeadline)
  {
    var toFrame, toCall := p.deadline - now, callDeadline - now;
    assert TruncMicros(toFrame) * MICRO + 1000 * MICRO > toFrame;
    assert toCall >= 0 ==> TruncMicros(toCall) * MICRO + MICRO > toCall;
  }

  /** A sleep is asked to end at the caller's deadline or a millisecond past the frame's,
      whichever is first, less a fraction of a microsecond. */
  lemma {:induction false} SleepBounded(p: Pacer, now: int, callDeadline: int)
    requires Judge(p, now, callDeadline).Sleep?
    ensures var until := now + Judge(p, now, callDeadline).micros * MICRO;
            var end := Min(callDeadline, p.deadline + 1_000_000);
            now < until <= end < until + 1_000
  {
    assert TruncMicros(p.deadline - now) * MICRO <= p.deadline - now < TruncMicros(p.deadline - now) * MICRO + MICRO;
    assert callDeadline >= now ==>
             TruncMicros(callDeadline - now) * MICRO <= callDeadline - now < TruncMicros(callDeadline - now) * MICRO + MICRO;
  }

  /** How long a read without fixed rate waits on the queue: what is left of its timeout, in
      whole microseconds. */
  function QueueWait(now: int, callDeadline: int): nat {
    Max(TruncMicros(callDeadline - now), 0)
  }

  lemma {:induction false} QueueWaitBounded(now: int, callDeadline: int)
    ensures now + QueueWait(now, callDeadline) * MICRO <= Max(now, callDeadline)
    ensures now + QueueWait(now, callDeadline) * MICRO > callDeadline - MICRO
  {
    assert callDeadline >= now ==>
             TruncMicros(callDeadline - now) * MICRO <= callDeadline - now < (TruncMicros(callDeadline - now) + 1) * MICRO;
  }

  lemma {:induction false} GiveUpIsLate(p: Pacer, now: int, callDeadline: int)
    requires Judge(p, now, callDeadline).GiveUp?
    ensures now < p.deadline && now + MICRO > callDeadline
  {
    assert TruncMicros(p.deadline - now) >= 0;
  }

  // ---------------------------------------------------------------------------------
  // Runs of deliveries
  // ---------------------------------------------------------------------------------

  /** One delivery: the deadline it was due at and the stamp it got. */
  datatype Beat = Beat(due: int, stamp: int)

  function NextDue(b: Beat, period: nat): int {
    Advance(Pacer(b.due, true), period, b.stamp).deadline
  }

  /** No delivery is early, and each deadline follows from the delivery before. */
  predicate Paced(beats: seq<Beat>, period: nat) {
    && (forall k | 0 <= k < |beats| :: beats[k].due <= beats[k].stamp)
    && (forall k | 0 < k < |beats| :: beats[k].due == NextDue(beats[k - 1], period))
  }

  /** Deadlines are at least a period apart. */
  lemma {:induction false} DueSpacing(beats: seq<Beat>, period: nat, i: nat, j: nat)
    requires Paced(beats, period) && i <= j < |beats|
    ensures beats[j].due >= beats[i].due + (j - i) * period
    decreases j
  {
    if i < j {
      DueSpacing(beats, period, i, j - 1);
      assert (j - i) * period == (j - 1 - i) * period + period;
    }
  }

  /** Stamps can bunch up by one period at most. */
  lemma {:induction false} StampSpacing(beats: seq<Beat>, period: nat, i: nat, j: nat)
    requires Paced(beats, period) && i < j < |beats|
    ensures beats[j].stamp >= beats[i].stamp + (j - i - 1) * period
  {
    DueSpacing(beats, period, i + 1, j);
    assert beats[i + 1].due == NextDue(beats[i], period);
  }

  /** The deliveries stamped inside a window of time. */
  function Inside(beats: seq<Beat>, from: int, length: nat): set<nat> {
    set k: nat | k < |beats| && from <= beats[k].stamp <= from + length
  }

  /** Any window of time holds at most `length / period + 2` deliveries, however the
      source bursts and however late the reader runs. */
  lemma {:induction false} WindowBound(beats: seq<Beat>, period: nat, from: int, length: nat)
    requires Paced(beats, period) && period > 0
    ensures |Inside(beats, from, length)| <= length / period + 2
  {
    var ks := Inside(beats, from, length);
    if ks != {} {
      var a, b := Ends(ks);
      SpanSize(ks, a, b);
      if a < b {
        StampSpacing(beats, period, a, b);
        QuotientAtLeast(length, period, b - a - 1);
      }
    }
  }

  /** The bound is attained at every period and length: a first frame a whole period late,
      then one on time in every period. */
  lemma {:induction false} WindowBoundAttained(period: nat, length: nat) returns (beats: seq<Beat>, from: int)
    requires period > 0
    ensures Paced(beats, period) && |Inside(beats, from, length)| == length / period + 2
  {
    var q := length / period;
    beats, from := LateStart(period, q + 1), period;
    LateStartStamps(period, q + 1);
    assert length == q * period + length % period;
    forall k | 0 <= k < |beats|
      ensures from <= beats[k].stamp <= from + length
    {
      ScaleUp(1, Max(k, 1), period);
      ScaleUp(Max(k, 1), q + 1, period);
    }
    AllCounted(beats, from, length);
  }

  /** A frame due at 0 and taken a period late, then `n` frames on time. */
  function LateStart(period: nat, n: nat): (beats: seq<Beat>)
    ensures |beats| == n + 1
  {
    if n == 0 then [Beat(0, period)] else LateStart(period, n - 1) + [Beat(n * period, n * period)]
  }

  lemma {:induction false} LateStartStamps(period: nat, n: nat)
    ensures Paced(LateStart(period, n), period)
    ensures forall k | 0 <= k <= n :: LateStart(period, n)[k].stamp == Max(k, 1) * period
    ensures NextDue(LateStart(period, n)[n], period) == (n + 1) * period
  {
    if n > 0 {
      LateStartStamps(period, n - 1);
      var before, b := LateStart(period, n - 1), Beat(n * period, n * period);
      var all := LateStart(period, n);
      assert all == before + [b];
      assert forall k | 0 <= k < n :: all[k] == before[k];
      assert (n + 1) * period == n * period + period;
      forall k | 0 < k < |all|
        ensures all[k].due == NextDue(all[k - 1], period)
      {
        if k < n {
          assert before[k].due == NextDue(before[k - 1], period);
        }
      }
    }
  }

  /** When every delivery lies in the window, all are counted. */
  lemma {:induction false} AllCounted(beats: seq<Beat>, from: int, length: nat)
    requires forall k | 0 <= k < |beats| :: from <= beats[k].stamp <= from + length
    ensures |Inside(beats, from, length)| == |beats|
  {
    if beats != [] {
      var n := |beats| - 1;
      AllCounted(beats[..n], from, length);
      assert Inside(beats, from, length) == Inside(beats[..n], from, length) + {n};
    }
  }

  lemma {:induction false} QuotientAtLeast(n: nat, d: nat, q: nat)
    requires d > 0 && q * d <= n
    ensures q <= n / d
  {
    var k := n / d;
    assert n == k * d + n % d;
    if q >= k + 1 {
      ScaleUp(k + 1, q, d);
    }
  }

  lemma {:induction false} ScaleUp(x: int, y: int, d: nat)
    requires x <= y
    ensures x * d <= y * d
  {
  }

  /** The least and the greatest element. */
  lemma {:induction false} Ends(ks: set<nat>) returns (a: nat, b: nat)
    requires ks != {}
    ensures a in ks && b in ks && forall k | k in ks :: a <= k <= b
    decreases |ks|
  {
    var x :| x in ks;
    if ks == {x} {
      return x, x;
    }
    var rest := ks - {x};
    assert ks == rest + {x};
    a, b := Ends(rest);
    a, b := Min(a, x), Max(b, x);
  }

  lemma {:induction false} SpanSize(ks: set<nat>, a: nat, b: nat)
    requires a <= b && forall k | k in ks :: a <= k <= b
    ensures |ks| <= b - a + 1
    decreases b - a
  {
    if a == b {
      assert ks <= {a};
      SubsetSize(ks, {a});
    } else {
      SpanSize(ks - {b}, a, b - 1);
    }
  }

  lemma {:induction false} SubsetSize(s: set<nat>, t: set<nat>)
    requires s <= t
    ensures |s| <= |t|
  {
    assert t == s + (t - s);
  }

  /** Every frame was taken within a period of falling due. */
  predicate Punctual(beats: seq<Beat>, period: nat) {
    forall k | 0 <= k < |beats| :: beats[k].stamp <= beats[k].due + period
  }

  lemma {:induction false} PunctualLast(beats: seq<Beat>, period: nat)
    requires beats != []
    ensures var n := |beats| - 1;
            Punctual(beats, period) <==> Punctual(beats[..n], period) && beats[n].stamp <= beats[n].due + period
  {
    var n := |beats| - 1;
    if Punctual(beats[..n], period) && beats[n].stamp <= beats[n].due + period {
      forall k | 0 <= k < |beats|
        ensures beats[k].stamp <= beats[k].due + period
      {
        assert k < n ==> beats[k] == beats[..n][k];
      }
    }
    if Punctual(beats, period) {
      forall k | 0 <= k < n
        ensures beats[..n][k].stamp <= beats[..n][k].due + period
      {
        assert beats[k] == beats[..n][k];
      }
    }
  }

  lemma {:induction false} OneMore(n: nat, period: nat)
    requires n > 0
    ensures n * period == (n - 1) * period + period
  {
  }

  lemma {:induction false} PacedPrefix(beats: seq<Beat>, period: nat)
    requires Paced(beats, period) && |beats| > 1
    ensures var n := |beats| - 1;
            Paced(beats[..n], period) && beats[..n][0] == beats[0] && beats[n].due == NextDue(beats[..n][n - 1], period)
  {
  }

  /** No drift: after n deliveries the deadline is exactly n periods past the first one
      if and only if every frame was taken within a period of falling due. It is never
      earlier than that. */
  lemma {:induction false} NoDrift(beats: seq<Beat>, period: nat)
    requires Paced(beats, period) && beats != []
    ensures var n := |beats|;
            var next := NextDue(beats[n - 1], period);
            && next >= beats[0].due + n * period
            && (next == beats[0].due + n * period <==> Punctual(beats, period))
  {
    var n := |beats|;
    var last := beats[n - 1];
    AdvanceBounds(Pacer(last.due, true), period, last.stamp);
    PunctualLast(beats, period);
    OneMore(n, period);
    if n > 1 {
      PacedPrefix(beats, period);
      NoDrift(beats[..n - 1], period);
    }
  }
}
