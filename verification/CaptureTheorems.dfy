/** The promises of the whole program, for every interleaving of the capture thread, the
    reader and the control calls. */
module CaptureTheorems {
  import opened Options
  import opened Targets
  import opened Pacing
  import opened Delivery
  import opened DeliveryProofs
  import opened DeliveryTheorems
  import opened CaptureSystem
  import opened CaptureProofs

  // ---------------------------------------------------------------------------------
  // Announcements
  // ---------------------------------------------------------------------------------

  /** The delivery tells of the incident. */
  predicate Announces(d: Delivered, note: Note, i: Incident) {
    Reinit in d.flags && exists a :: a in note && a.incident == i
  }

  /** A reopen is never announced late: when a frame of a second or later stream is
      delivered and its flags were exchanged, that delivery or one before it announces
      this very reopening. Without fixed rate its caller asked for the flags. */
  lemma {:induction false} ReopenNeverLate(s: Sys, es: seq<SysEvent>, j: nat)
    requires Created(s) && LegalSys(s, es)
    requires j < |RunSys(s, es).chan.out| && RunSys(s, es).chan.out[j].taken.source.Captured?
    requires s.chan.cfg.fixedRate || RunSys(s, es).chan.out[j].info
    ensures var r := RunSys(s, es);
            var i := r.chan.out[j].taken.source.index;
            && |r.book.notes| == |r.chan.out|
            && i < |r.book.origins|
            && (r.book.origins[i] >= 2 ==>
                  exists w: nat ::
                    && w <= j
                    && Announces(r.chan.out[w], r.book.notes[w], Incident(Reopened, r.book.origins[i]))
                    && (s.chan.cfg.fixedRate || r.chan.out[w].info))
  {
    CreatedInv(s);
    SysInvRun(s, es);
    var r := RunSys(s, es);
    var fixedRate := s.chan.cfg.fixedRate;
    AllTimelyAt(r.chan.out, r.book.notes, r.book.origins, fixedRate, j);
    var n := r.book.origins[r.chan.out[j].taken.source.index];
    if n >= 2 {
      var filed := r.book.notes[..j + 1];
      var a :| a in Filed(filed) && a.incident == Incident(Reopened, n);
      var w := FiledWith(filed, a);
      assert a in r.book.notes[w];
      AllNotedAt(r.chan.out, r.book.notes, fixedRate, w);
      assert Announces(r.chan.out[w], r.book.notes[w], Incident(Reopened, n));
    }
  }

  /** A frame says `Reinit` exactly when a failure or reopen was flagged since the flags
      were exchanged before. */
  lemma {:induction false} ReinitExactly(s: Sys, es: seq<SysEvent>, k: nat)
    requires Created(s) && LegalSys(s, es) && k < |RunSys(s, es).chan.out|
    requires s.chan.cfg.fixedRate || RunSys(s, es).chan.out[k].info
    ensures var r := RunSys(s, es);
            k < |r.book.notes| && (Reinit in r.chan.out[k].flags <==> r.book.notes[k] != [])
  {
    CreatedInv(s);
    SysInvRun(s, es);
    var r := RunSys(s, es);
    AllNotedAt(r.chan.out, r.book.notes, s.chan.cfg.fixedRate, k);
  }

  /** Conservation in order. Every read failure, failed open and reopen is flagged, in the
      order they happened, but for one about to be; and what was flagged, in that order,
      is what was filed with one delivery after the other, then what a read in progress
      holds, then what is pending. */
  lemma {:induction false} AnnouncementsConserved(s: Sys, es: seq<SysEvent>)
    requires Created(s) && LegalSys(s, es)
    ensures var r := RunSys(s, es);
            var b := r.book;
            && |b.incidents| == |b.raised| + (if r.loop.pc.Raising? then 1 else 0)
            && (forall i | 0 <= i < |b.raised| :: b.raised[i].serial == i && b.raised[i].incident == b.incidents[i])
            && Filed(b.notes) + b.inHand + b.causes == b.raised
            && |b.notes| == |r.chan.out|
            && (b.inHand != [] ==> r.chan.pc.Stamping?)
            && (r.chan.pending != {} <==> b.causes != [])
  {
    CreatedInv(s);
    SysInvRun(s, es);
  }

  /** A caller has been told of what delivery d announces. */
  predicate Heard(d: Delivered) {
    d.info && Reinit in d.flags
  }

  /** The announcement is on its way to a delivery. */
  predicate Underway(b: Ledger, a: Announcement) {
    a in b.inHand || a in b.causes
  }

  /** An announcement is under way or filed, not both, and with one delivery only. A caller
      hears of it if and only if it was filed with a delivery whose call asked for
      information; without fixed rate that is always so, and at fixed rate a call that
      does not ask loses what it takes. */
  lemma {:induction false} HeardExactly(s: Sys, es: seq<SysEvent>, k: nat)
    requires Created(s) && LegalSys(s, es) && k < |RunSys(s, es).book.raised|
    ensures var r := RunSys(s, es);
            var a := r.book.raised[k];
            && |r.book.notes| == |r.chan.out|
            && (Underway(r.book, a) <==> forall n: nat | n < |r.book.notes| :: a !in r.book.notes[n])
            && (forall m: nat, n: nat | m < |r.book.notes| && n < |r.book.notes| && a in r.book.notes[m] && a in r.book.notes[n]
                  :: m == n)
            && (forall n: nat | n < |r.book.notes| && a in r.book.notes[n] ::
                  && (Heard(r.chan.out[n]) <==> r.chan.out[n].info)
                  && (!s.chan.cfg.fixedRate ==> r.chan.out[n].info))
  {
    CreatedInv(s);
    SysInvRun(s, es);
    var r := RunSys(s, es);
    var b, a := r.book, r.book.raised[k];
    assert a in Filed(b.notes) + b.inHand + b.causes;
    if a in Filed(b.notes) {
      var w := FiledWith(b.notes, a);
    }
    forall n: nat | n < |b.notes| && a in b.notes[n]
      ensures !Underway(b, a)
      ensures Heard(r.chan.out[n]) <==> r.chan.out[n].info
      ensures !s.chan.cfg.fixedRate ==> r.chan.out[n].info
    {
      NotesApart(r.chan, b, n, n, a, a);
      AllNotedAt(r.chan.out, b.notes, s.chan.cfg.fixedRate, n);
    }
    forall m: nat, n: nat | m < |b.notes| && n < |b.notes| && a in b.notes[m] && a in b.notes[n]
      ensures m == n
    {
      NotesApart(r.chan, b, m, n, a, a);
    }
  }

  /** Announcements are never taken back, and exchanges are counted. */
  lemma {:induction false} BookGrows(s: Sys, es: seq<SysEvent>)
    requires s.chan.queue.Valid() && LegalSys(s, es)
    ensures s.book.raised <= RunSys(s, es).book.raised
    ensures s.book.exchanges <= RunSys(s, es).book.exchanges
    ensures s.book.exchanges == RunSys(s, es).book.exchanges <==> Reader(Exchange) !in es
    decreases |es|
  {
    if es != [] {
      SysKeepsQueueValid(s, es[0]);
      BookGrows(SysStep(s, es[0]), es[1..]);
      assert es == [es[0]] + es[1..];
    }
  }

  /** Two announcements of a run share a delivery if and only if the reader did not
      exchange the flags between them. So a read failure (or a failed open) and the reopen
      after it are reported once or twice as it happens. The run is cut just before each
      of the two is flagged. */
  lemma {:induction false} SharedDelivery(
    s: Sys, before: seq<SysEvent>, between: seq<SysEvent>, after: seq<SysEvent>, m: nat, n: nat)
    requires Created(s) && LegalSys(s, before)
    requires LegalSys(RunSys(s, before), [RaiseFlags] + between)
    requires LegalSys(RunSys(RunSys(s, before), [RaiseFlags] + between), [RaiseFlags] + after)
    ensures var u := RunSys(s, before);
            var v := RunSys(u, [RaiseFlags] + between);
            var b := RunSys(v, [RaiseFlags] + after).book;
            && |u.book.raised| < |v.book.raised| < |b.raised|
            && (m < |b.notes| && n < |b.notes|
                && b.raised[|u.book.raised|] in b.notes[m] && b.raised[|v.book.raised|] in b.notes[n] ==>
                  (m == n <==> Reader(Exchange) !in between))
  {
    var u := RunSys(s, before);
    var v := RunSys(u, [RaiseFlags] + between);
    CreatedInv(s);
    SysInvRun(s, before);
    SysInvRun(u, [RaiseFlags] + between);
    FlagFirst(u, between);
    FlagLast(u, v, after, m, n);
  }

  /** The second of the two is flagged, and the run goes on. */
  lemma {:induction false} FlagLast(u: Sys, v: Sys, after: seq<SysEvent>, m: nat, n: nat)
    requires SysInv(v) && LegalSys(v, [RaiseFlags] + after)
    requires |u.book.raised| < |v.book.raised| && v.book.raised[|u.book.raised|].epoch == u.book.exchanges
    ensures var b := RunSys(v, [RaiseFlags] + after).book;
            && |v.book.raised| < |b.raised|
            && (m < |b.notes| && n < |b.notes|
                && b.raised[|u.book.raised|] in b.notes[m] && b.raised[|v.book.raised|] in b.notes[n] ==>
                  (m == n <==> u.book.exchanges == v.book.exchanges))
  {
    var r := RunSys(v, [RaiseFlags] + after);
    FlagFirst(v, after);
    BookGrows(v, [RaiseFlags] + after);
    SysInvRun(v, [RaiseFlags] + after);
    var x, y := r.book.raised[|u.book.raised|], r.book.raised[|v.book.raised|];
    if m < |r.book.notes| && n < |r.book.notes| && x in r.book.notes[m] && y in r.book.notes[n] {
      NotesApart(r.chan, r.book, m, n, x, y);
    }
  }

  lemma {:induction false} NotesApart(c: State, b: Ledger, m: nat, n: nat, x: Announcement, y: Announcement)
    requires FiledInv(c, b) && EpochInv(c, b) && m < |b.notes| && n < |b.notes| && x in b.notes[m] && y in b.notes[n]
    ensures m == n <==> x.epoch == y.epoch
    ensures !Underway(b, x)
  {
    var bound := if c.pc.Stamping? then b.exchanges - 1 else b.exchanges;
    ApartBound(b.notes, bound, m, x);
    if m <= n {
      ApartAt(b.notes, bound, m, n, x, y);
    } else {
      ApartAt(b.notes, bound, n, m, y, x);
    }
  }

  /** A run that begins by flagging: what it flags is of the epoch then. */
  lemma {:induction false} FlagFirst(s: Sys, es: seq<SysEvent>)
    requires s.chan.queue.Valid() && LegalSys(s, [RaiseFlags] + es)
    ensures var b := RunSys(s, [RaiseFlags] + es).book;
            && |s.book.raised| < |b.raised|
            && b.raised[|s.book.raised|].epoch == s.book.exchanges
            && (b.exchanges == s.book.exchanges <==> Reader(Exchange) !in es)
  {
    assert ([RaiseFlags] + es)[0] == RaiseFlags && ([RaiseFlags] + es)[1..] == es;
    SysKeepsQueueValid(s, RaiseFlags);
    var s' := SysStep(s, RaiseFlags);
    assert s'.book.raised[|s.book.raised|].epoch == s.book.exchanges;
    BookGrows(s', es);
  }

  /** What is announced of the passage from stream n - 1 to stream n: one read failure if
      that is how stream n - 1 ended and none if the sink moved; and one reopening unless
      stream n is the first of a new thread. (Failed opens in between add one each.) */
  lemma {:induction false} ReopenCauses(s: Sys, es: seq<SysEvent>, n: nat)
    requires Created(s) && LegalSys(s, es) && 2 <= n <= |RunSys(s, es).book.opens|
    ensures var b := RunSys(s, es).book;
            && n - 2 < |b.ends|
            && Count(b.incidents, ReadFailed, n - 1) == (if b.ends[n - 2].Failed? then 1 else 0)
            && Count(b.incidents, Reopened, n) == (if b.opens[n - 1] then 1 else 0)
  {
    CreatedInv(s);
    SysInvRun(s, es);
    StreamRun(s, es, n - 1);
    StreamRun(s, es, n);
  }

  /** A run without failures, reopens and overflows shows no discontinuity. */
  lemma {:induction false} HealthyCapture(s: Sys, es: seq<SysEvent>)
    requires Created(s) && LegalSys(s, es)
    requires RunSys(s, es).book.incidents == [] && RunSys(s, es).chan.overflows == 0
    ensures forall k | 0 <= k < |RunSys(s, es).chan.out| :: Discontinuity !in RunSys(s, es).chan.out[k].flags
  {
    CreatedInv(s);
    SysInvRun(s, es);
    var out := RunSys(s, es).chan.out;
    NothingSkipped(out);
    forall k | 0 <= k < |out|
      ensures Discontinuity !in out[k].flags
    {
      AllFlagsAt(out, k, s.chan.cfg.fixedRate);
      NoneAnnouncesAt(out, k);
    }
  }

  // ---------------------------------------------------------------------------------
  // The reading side, in the whole program
  // ---------------------------------------------------------------------------------

  /** Gap accounting holds in every interleaving with the capture thread. */
  lemma {:induction false} CaptureGaps(s: Sys, es: seq<SysEvent>)
    requires Created(s) && LegalSys(s, es)
    ensures var r := RunSys(s, es).chan;
            GapsAccounted(Real(r.out), r.queue.log)
            && r.overflows == TotalSkipped(r.out) + InHand(r.pc) + r.queue.Dropped()
  {
    Projection(s, es);
    GapAccounting(s.chan, ChannelEvents(s, es));
  }

  lemma {:induction false} CaptureRate(s: Sys, es: seq<SysEvent>, from: int, length: nat)
    requires Created(s) && LegalSys(s, es) && s.chan.cfg.fixedRate && s.chan.cfg.period > 0
    ensures |Inside(Beats(RunSys(s, es).chan.out), from, length)| <= length / s.chan.cfg.period + 2
  {
    Projection(s, es);
    RateBound(s.chan, ChannelEvents(s, es), from, length);
  }

  /** Once stop has closed the queue, whatever is called later, another start included,
      hands over the frame a read already held and the frames then queued, in order and
      once each, and the capture thread adds none. */
  lemma {:induction false} StopIsFinal(s: Sys, es: seq<SysEvent>)
    requires s.chan.queue.Valid() && s.chan.queue.closed && LegalSys(s, es)
    ensures var r := RunSys(s, es).chan;
            && r.queue.closed && r.queue.log == s.chan.queue.log
            && s.chan.out <= r.out
            && Takens(r.out) + Owed(r) == Takens(s.chan.out) + Owed(s.chan)
  {
    Projection(s, es);
    CloseIsFinal(s.chan, ChannelEvents(s, es));
  }

  /** A stop that ran to its end has closed the queue. */
  lemma {:induction false} StopCloses(s: Sys, es: seq<SysEvent>)
    requires Created(s) && LegalSys(s, es)
    ensures var r := RunSys(s, es);
            && (r.stopRequested && !r.stopping ==> r.chan.queue.closed)
            && (r.loop.pc.Leaving? ==> r.stopRequested)
  {
    CreatedInv(s);
    SysInvRun(s, es);
  }

  // ---------------------------------------------------------------------------------
  // Following the sink
  // ---------------------------------------------------------------------------------

  /** The stream recorded is the one the handle names, as far as the name field goes;
      and an unpinned loop that is about to read looked at the clock less than one
      recheck interval after it last polled or opened. */
  lemma {:induction false} SinkFollowed(s: Sys, es: seq<SysEvent>)
    requires Created(s) && LegalSys(s, es)
    ensures var r := RunSys(s, es);
            && (r.loop.mic.Some? ==>
                  r.loop.mic.value == r.loop.currentMonitor && r.published == Truncated(r.loop.mic.value))
            && (r.loop.pc.Reading? && !s.setup.pinned && s.setup.recheck > 0 ==>
                  r.loop.lastSample < r.loop.lastPoll + s.setup.recheck)
  {
    CreatedInv(s);
    SysInvRun(s, es);
  }

  /** What the answer of a poll does to the stream: another monitor than the one recorded
      ends it, the same one or no answer leaves it alone. */
  lemma {:induction false} PollFollows(s: Sys, es: seq<SysEvent>, result: Option<Target>)
    requires Created(s) && LegalSys(s, es) && RunSys(s, es).loop.pc.PollResolving?
    ensures var r := RunSys(s, es);
            && r.loop.mic.Some?
            && var r' := SysStep(r, PollResolved(result));
               && r'.loop.pc.Top?
               && (result.None? || result.value.monitor == r.loop.mic.value ==>
                     r'.loop.mic == r.loop.mic && r'.book.ends == r.book.ends)
               && (result.Some? && result.value.monitor != r.loop.mic.value ==>
                     r'.loop.mic.None? && r'.book.ends == r.book.ends + [Moved])
  {
    CreatedInv(s);
    SysInvRun(s, es);
  }

  /** The polls of a run that named another monitor than the one being recorded. */
  function MovesNamed(s: Sys, es: seq<SysEvent>): nat
    requires s.chan.queue.Valid() && LegalSys(s, es)
    decreases |es|
  {
    if es == [] then 0
    else
      SysKeepsQueueValid(s, es[0]);
      MovesNamed(SysStep(s, es[0]), es[1..])
      + if NamesAnother(s, es[0]) then 1 else 0
  }

  predicate NamesAnother(s: Sys, e: SysEvent) {
    e.PollResolved? && e.result.Some? && s.loop.mic.Some? && e.result.value.monitor != s.loop.mic.value
  }

  function CountMoved(ends: seq<Ending>): nat {
    if ends == [] then 0 else CountMoved(ends[..|ends| - 1]) + if ends[|ends| - 1].Moved? then 1 else 0
  }

  lemma {:induction false} CountMovedAppend(ends: seq<Ending>, e: Ending)
    ensures CountMoved(ends + [e]) == CountMoved(ends) + if e.Moved? then 1 else 0
  {
    assert (ends + [e])[..|ends|] == ends;
  }

  lemma {:induction false} MoveStep(s: Sys, e: SysEvent)
    requires s.chan.queue.Valid() && Possible(s, e) && SinkInv(s.setup, s.loop, s.published, s.book)
    ensures CountMoved(SysStep(s, e).book.ends) == CountMoved(s.book.ends) + if NamesAnother(s, e) then 1 else 0
  {
    var ends := BookAfter(s, e).ends;
    if |ends| > |s.book.ends| {
      assert ends == s.book.ends + [ends[|s.book.ends|]];
      CountMovedAppend(s.book.ends, ends[|s.book.ends|]);
    } else {
      assert ends == s.book.ends;
    }
  }

  lemma {:induction false} MovesRun(s: Sys, es: seq<SysEvent>)
    requires SysInv(s) && LegalSys(s, es)
    ensures CountMoved(RunSys(s, es).book.ends) == CountMoved(s.book.ends) + MovesNamed(s, es)
    decreases |es|
  {
    if es != [] {
      SysKeepsQueueValid(s, es[0]);
      MoveStep(s, es[0]);
      SysInvStep(s, es[0]);
      MovesRun(SysStep(s, es[0]), es[1..]);
    }
  }

  /** Streams end in a move exactly as often as a poll named another monitor. */
  lemma {:induction false} MovesFollowed(s: Sys, es: seq<SysEvent>)
    requires Created(s) && LegalSys(s, es)
    ensures CountMoved(RunSys(s, es).book.ends) == MovesNamed(s, es)
  {
    CreatedInv(s);
    MovesRun(s, es);
  }

  /** Every stream opened is still open or ended in one way: a failed read, a moved default
      sink, or the thread leaving; a pinned one never by a move. */
  lemma {:induction false} StreamsAccounted(s: Sys, es: seq<SysEvent>)
    requires Created(s) && LegalSys(s, es)
    ensures var r := RunSys(s, es);
            && |r.book.opens| == |r.book.ends| + (if r.loop.mic.Some? then 1 else 0)
            && (s.setup.pinned ==> Moved !in r.book.ends)
  {
    CreatedInv(s);
    SysInvRun(s, es);
  }
}
