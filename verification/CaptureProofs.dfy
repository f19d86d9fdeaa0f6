/** What every run of capture loop, reader and control calls keeps. */
module CaptureProofs {
  import opened Delivery
  import opened DeliveryProofs
  import opened DeliveryTheorems
  import opened CaptureSystem

  // ---------------------------------------------------------------------------------
  // The reading side of a run of the whole program is a run of the reading machine
  // ---------------------------------------------------------------------------------

  function ChannelEvents(s: Sys, es: seq<SysEvent>): seq<Event>
    requires s.chan.queue.Valid() && LegalSys(s, es)
    decreases |es|
  {
    if es == [] then []
    else
      SysKeepsQueueValid(s, es[0]);
      (match ChannelEvent(s, es[0]) case Some(event) => [event] case None => [])
      + ChannelEvents(SysStep(s, es[0]), es[1..])
  }

  lemma {:induction false} Projection(s: Sys, es: seq<SysEvent>)
    requires s.chan.queue.Valid() && LegalSys(s, es)
    ensures Legal(s.chan, ChannelEvents(s, es))
    ensures RunSys(s, es).chan == Run(s.chan, ChannelEvents(s, es))
    decreases |es|
  {
    if es != [] {
      SysKeepsQueueValid(s, es[0]);
      var s' := SysStep(s, es[0]);
      var rest := ChannelEvents(s', es[1..]);
      Projection(s', es[1..]);
      match ChannelEvent(s, es[0])
      case Some(event) =>
        assert s'.chan == Delivery.Step(s.chan, event);
        assert ChannelEvents(s, es) == [event] + rest;
        RunCons(s.chan, event, rest);
      case None =>
        assert s'.chan == s.chan;
        assert ChannelEvents(s, es) == [] + rest == rest;
    }
  }

  // ---------------------------------------------------------------------------------
  // The stream and the sink it follows
  // ---------------------------------------------------------------------------------

  /** The capture thread holds a stream here. */
  predicate HoldsStream(pc: LoopPc) {
    pc.Reading? || pc.Pushing? || pc.Polling? || pc.Rearming? || pc.PollResolving? || (pc.Raising? && pc.cause.Reopened?)
  }

  predicate MayHoldStream(pc: LoopPc) {
    HoldsStream(pc) || pc.Top? || pc.Leaving?
  }

  /** Between two polls: here the latest look at the clock is before the next check. */
  predicate Unpolled(pc: LoopPc) {
    pc.Top? || pc.Reading? || pc.Pushing? || pc.PollResolving? || pc.Raising?
  }

  ghost predicate SinkInv(setup: Setup, l: Loop, published: string, b: Ledger) {
    && (HoldsStream(l.pc) ==> l.mic.Some?)
    && (l.mic.Some? ==>
          && MayHoldStream(l.pc)
          && l.mic.value == l.currentMonitor
          && published == Truncated(l.mic.value)
          && l.hadStream
          && l.nextCheck == l.lastPoll + setup.recheck
          && (Unpolled(l.pc) && !setup.pinned && setup.recheck > 0 ==> l.lastSample < l.nextCheck))
    && (l.pc.Rearming? || l.pc.PollResolving? ==> !setup.pinned)
    && (l.pc.Opening? ==> published == Truncated(l.pc.target.monitor))
    && |b.opens| == |b.ends| + (if l.mic.Some? then 1 else 0)
    && (setup.pinned ==> Moved !in b.ends)
  }

  lemma {:induction false} SinkStep(s: Sys, e: SysEvent)
    requires s.chan.queue.Valid() && Possible(s, e)
    requires SinkInv(s.setup, s.loop, s.published, s.book)
    ensures SinkInv(s.setup, LoopStep(s, e), PublishedAfter(s, e), BookAfter(s, e))
  {
  }

  // ---------------------------------------------------------------------------------
  // Incidents and announcements
  // ---------------------------------------------------------------------------------

  /** The announcements are the incidents in order, but for one about to be flagged. */
  ghost predicate IncidentInv(l: Loop, b: Ledger) {
    && |b.incidents| == |b.raised| + (if l.pc.Raising? then 1 else 0)
    && (forall i | 0 <= i < |b.raised| :: b.raised[i].serial == i && b.raised[i].incident == b.incidents[i])
    && (l.pc.Raising? ==> b.incidents[|b.raised|] == Incident(l.pc.cause, |b.opens|))
  }

  lemma {:induction false} IncidentStep(s: Sys, e: SysEvent)
    requires s.chan.queue.Valid() && Possible(s, e) && IncidentInv(s.loop, s.book)
    ensures IncidentInv(LoopStep(s, e), BookAfter(s, e))
  {
  }

  /** How often stream n met with `cause`. */
  function Count(incidents: seq<Incident>, cause: Cause, n: nat): nat {
    if incidents == [] then 0
    else Count(incidents[..|incidents| - 1], cause, n) + if incidents[|incidents| - 1] == Incident(cause, n) then 1 else 0
  }

  lemma {:induction false} CountAppend(incidents: seq<Incident>, i: Incident, cause: Cause, n: nat)
    ensures Count(incidents + [i], cause, n) == Count(incidents, cause, n) + if i == Incident(cause, n) then 1 else 0
  {
    assert (incidents + [i])[..|incidents|] == incidents;
  }

  /** Stream n fails at most once and is reopened at most once, exactly when it ended in
      failure and exactly when it was not the first of its thread. */
  ghost predicate StreamInv(b: Ledger, n: nat) {
    && Count(b.incidents, ReadFailed, n) == (if 1 <= n <= |b.ends| && b.ends[n - 1].Failed? then 1 else 0)
    && Count(b.incidents, Reopened, n) == (if 1 <= n <= |b.opens| && b.opens[n - 1] then 1 else 0)
  }

  /** A stream is opened as the first of its thread. */
  lemma {:induction false} StreamFirst(b: Ledger, n: nat)
    requires StreamInv(b, n)
    ensures StreamInv(b.(opens := b.opens + [false]), n)
  {
  }

  /** A stream is reopened. */
  lemma {:induction false} StreamAgain(b: Ledger, n: nat)
    requires StreamInv(b, n)
    ensures StreamInv(b.(opens := b.opens + [true]).Add(Reopened), n)
  {
    var i := Incident(Reopened, |b.opens| + 1);
    CountAppend(b.incidents, i, ReadFailed, n);
    CountAppend(b.incidents, i, Reopened, n);
  }

  /** A stream cannot be opened. */
  lemma {:induction false} StreamUnopened(b: Ledger, n: nat)
    requires StreamInv(b, n)
    ensures StreamInv(b.Add(OpenFailed), n)
  {
    var i := Incident(OpenFailed, |b.opens|);
    CountAppend(b.incidents, i, ReadFailed, n);
    CountAppend(b.incidents, i, Reopened, n);
  }

  lemma {:induction false} StreamOpened(s: Sys, e: SysEvent, n: nat)
    requires s.chan.queue.Valid() && Possible(s, e) && e.Opened? && StreamInv(s.book, n)
    ensures StreamInv(BookAfter(s, e), n)
  {
    if !e.ok {
      StreamUnopened(s.book, n);
    } else if s.loop.hadStream {
      StreamAgain(s.book, n);
    } else {
      StreamFirst(s.book, n);
    }
  }

  /** A stream ends, or nothing happens to it. */
  lemma {:induction false} StreamEnds(s: Sys, e: SysEvent, n: nat)
    requires s.chan.queue.Valid() && Possible(s, e) && !e.Opened?
    requires |s.book.opens| == |s.book.ends| + (if s.loop.mic.Some? then 1 else 0) && StreamInv(s.book, n)
    requires e.Read? ==> s.loop.mic.Some?
    ensures StreamInv(BookAfter(s, e), n)
  {
    var b, b' := s.book, BookAfter(s, e);
    assert b'.opens == b.opens;
    if e.Read? && e.data.None? {
      var i := Incident(ReadFailed, |b.opens|);
      assert b'.incidents == b.incidents + [i];
      CountAppend(b.incidents, i, ReadFailed, n);
      CountAppend(b.incidents, i, Reopened, n);
    } else {
      assert b'.incidents == b.incidents;
    }
  }

  lemma {:induction false} StreamRun(s: Sys, es: seq<SysEvent>, n: nat)
    requires s.chan.queue.Valid() && LegalSys(s, es)
    requires SinkInv(s.setup, s.loop, s.published, s.book) && StreamInv(s.book, n)
    ensures StreamInv(RunSys(s, es).book, n)
    decreases |es|
  {
    if es != [] {
      SysKeepsQueueValid(s, es[0]);
      SinkStep(s, es[0]);
      if es[0].Opened? {
        StreamOpened(s, es[0], n);
      } else {
        StreamEnds(s, es[0], n);
      }
      StreamRun(SysStep(s, es[0]), es[1..], n);
    }
  }

  // ---------------------------------------------------------------------------------
  // Every announcement is filed once, in order
  // ---------------------------------------------------------------------------------

  /** Everything filed, in the order of the deliveries. */
  function Filed(notes: seq<Note>): Note {
    if notes == [] then [] else Filed(notes[..|notes| - 1]) + notes[|notes| - 1]
  }

  lemma {:induction false} FiledAppend(notes: seq<Note>, note: Note)
    ensures Filed(notes + [note]) == Filed(notes) + note
  {
    assert (notes + [note])[..|notes|] == notes;
  }

  ghost predicate FiledInv(c: State, b: Ledger) {
    && Filed(b.notes) + b.inHand + b.causes == b.raised
    && (b.inHand != [] ==> c.pc.Stamping?)
  }

  lemma {:induction false} FiledLoop(s: Sys, e: SysEvent)
    requires s.chan.queue.Valid() && Possible(s, e) && !e.Reader? && FiledInv(s.chan, s.book)
    ensures FiledInv(ChannelStep(s, e), BookAfter(s, e))
  {
    var b, b' := s.book, BookAfter(s, e);
    assert b'.notes == b.notes && b'.inHand == b.inHand;
    if e.RaiseFlags? {
      assert Filed(b.notes) + b.inHand + (b.causes + [b'.raised[|b.raised|]]) == b'.raised;
    }
  }

  lemma {:induction false} FiledExchange(s: Sys)
    requires Enabled(s.chan, Exchange) && FiledInv(s.chan, s.book)
    ensures FiledInv(ExchangeStep(s.chan), BookReader(s, Exchange))
  {
    var b := s.book;
    assert b.inHand == [];
    assert Filed(b.notes) + [] + b.causes == Filed(b.notes) + b.causes + [];
    if s.chan.pc.Reporting? {
      FiledAppend(b.notes, b.causes);
    }
  }

  lemma {:induction false} FiledStamp(s: Sys, t: int)
    requires Enabled(s.chan, Stamp(t)) && FiledInv(s.chan, s.book)
    ensures FiledInv(StampStep(s.chan, t), BookReader(s, Stamp(t)))
  {
    var b := s.book;
    if s.chan.pc.Stamping? {
      FiledAppend(b.notes, b.inHand);
      assert Filed(b.notes) + b.inHand + [] == Filed(b.notes) + b.inHand;
    } else if !s.chan.pc.call.info {
      FiledAppend(b.notes, []);
      assert Filed(b.notes) + [] == Filed(b.notes);
    }
  }

  lemma {:induction false} FiledReader(s: Sys, e: Event)
    requires s.chan.queue.Valid() && Enabled(s.chan, e) && e.OfReader() && FiledInv(s.chan, s.book)
    ensures FiledInv(Delivery.Step(s.chan, e), BookReader(s, e))
  {
    if e.Exchange? {
      FiledExchange(s);
    } else if e.Stamp? {
      FiledStamp(s, e.t);
    } else {
      assert BookReader(s, e) == s.book && !s.chan.pc.Stamping?;
    }
  }

  // ---------------------------------------------------------------------------------
  // One delivery per stretch between two exchanges
  // ---------------------------------------------------------------------------------

  predicate OfEpoch(note: Note, epoch: int) {
    forall a | a in note :: a.epoch == epoch
  }

  /** The announcements of one note were raised between the same two exchanges, and later
      notes hold later announcements, all before exchange `bound`. */
  predicate Apart(notes: seq<Note>, bound: int) {
    notes == [] ||
    var note := notes[|notes| - 1];
    if note == [] then Apart(notes[..|notes| - 1], bound)
    else note[0].epoch < bound && OfEpoch(note, note[0].epoch) && Apart(notes[..|notes| - 1], note[0].epoch)
  }

  lemma {:induction false} ApartLater(notes: seq<Note>, bound: int, later: int)
    requires Apart(notes, bound) && bound <= later
    ensures Apart(notes, later)
  {
    if notes != [] && notes[|notes| - 1] == [] {
      ApartLater(notes[..|notes| - 1], bound, later);
    }
  }

  lemma {:induction false} ApartAppend(notes: seq<Note>, note: Note, epoch: int)
    requires Apart(notes, epoch) && OfEpoch(note, epoch)
    ensures Apart(notes + [note], epoch + 1)
  {
    assert (notes + [note])[..|notes|] == notes;
    if note == [] {
      ApartLater(notes, epoch, epoch + 1);
    } else {
      assert note[0] in note;
    }
  }

  lemma {:induction false} ApartBound(notes: seq<Note>, bound: int, n: nat, a: Announcement)
    requires Apart(notes, bound) && n < |notes| && a in notes[n]
    ensures a.epoch < bound
  {
    var last := |notes| - 1;
    if n < last {
      ApartBound(notes[..last], if notes[last] == [] then bound else notes[last][0].epoch, n, a);
    }
  }

  /** Announcements share a delivery exactly when they share an epoch. */
  lemma {:induction false} ApartAt(notes: seq<Note>, bound: int, m: nat, n: nat, a: Announcement, b: Announcement)
    requires Apart(notes, bound) && m <= n < |notes| && a in notes[m] && b in notes[n]
    ensures m == n <==> a.epoch == b.epoch
  {
    var last := |notes| - 1;
    if n < last {
      ApartAt(notes[..last], if notes[last] == [] then bound else notes[last][0].epoch, m, n, a, b);
    } else if m < last {
      ApartBound(notes[..last], notes[last][0].epoch, m, a);
    }
  }

  ghost predicate EpochInv(c: State, b: Ledger) {
    && OfEpoch(b.causes, b.exchanges)
    && OfEpoch(b.inHand, b.exchanges - 1)
    && Apart(b.notes, if c.pc.Stamping? then b.exchanges - 1 else b.exchanges)
  }

  lemma {:induction false} EpochLoop(s: Sys, e: SysEvent)
    requires s.chan.queue.Valid() && Possible(s, e) && !e.Reader? && EpochInv(s.chan, s.book)
    ensures EpochInv(ChannelStep(s, e), BookAfter(s, e))
  {
    assert ChannelStep(s, e).pc == s.chan.pc;
  }

  lemma {:induction false} EpochExchange(s: Sys)
    requires Enabled(s.chan, Exchange) && FiledInv(s.chan, s.book) && EpochInv(s.chan, s.book)
    ensures EpochInv(ExchangeStep(s.chan), BookReader(s, Exchange))
  {
    var b, b' := s.book, BookReader(s, Exchange);
    assert b.inHand == [];
    if s.chan.pc.Reporting? {
      ApartAppend(b.notes, b.causes, b.exchanges);
    }
  }

  lemma {:induction false} EpochStamp(s: Sys, t: int)
    requires Enabled(s.chan, Stamp(t)) && FiledInv(s.chan, s.book) && EpochInv(s.chan, s.book)
    ensures EpochInv(StampStep(s.chan, t), BookReader(s, Stamp(t)))
  {
    var b, b' := s.book, BookReader(s, Stamp(t));
    if s.chan.pc.Stamping? {
      ApartAppend(b.notes, b.inHand, b.exchanges - 1);
      assert b'.notes == b.notes + [b.inHand];
    } else if !s.chan.pc.call.info {
      assert b'.notes == b.notes + [[]];
      assert b'.notes[..|b.notes|] == b.notes;
    }
  }

  lemma {:induction false} EpochReader(s: Sys, e: Event)
    requires s.chan.queue.Valid() && Enabled(s.chan, e) && e.OfReader()
    requires FiledInv(s.chan, s.book) && EpochInv(s.chan, s.book)
    ensures EpochInv(Delivery.Step(s.chan, e), BookReader(s, e))
  {
    if e.Exchange? {
      EpochExchange(s);
    } else if e.Stamp? {
      EpochStamp(s, e.t);
    } else {
      assert BookReader(s, e) == s.book;
      assert !s.chan.pc.Stamping? && !Delivery.Step(s.chan, e).pc.Stamping?;
    }
  }

  // ---------------------------------------------------------------------------------
  // What the flags say
  // ---------------------------------------------------------------------------------

  /** A delivery says `Reinit` exactly when something was announced since the exchange
      before its own; one that exchanged nothing has nothing filed. */
  predicate Noted(d: Delivered, note: Note, fixedRate: bool) {
    if fixedRate || d.info then Reinit in d.flags <==> note != [] else note == []
  }

  predicate AllNoted(out: seq<Delivered>, notes: seq<Note>, fixedRate: bool) {
    && |out| == |notes|
    && (out == [] ||
        (AllNoted(out[..|out| - 1], notes[..|out| - 1], fixedRate)
         && Noted(out[|out| - 1], notes[|out| - 1], fixedRate)))
  }

  lemma {:induction false} AllNotedAppend(out: seq<Delivered>, notes: seq<Note>, d: Delivered, note: Note, fixedRate: bool)
    requires AllNoted(out, notes, fixedRate) && Noted(d, note, fixedRate)
    ensures AllNoted(out + [d], notes + [note], fixedRate)
  {
    assert (out + [d])[..|out|] == out && (notes + [note])[..|out|] == notes;
  }

  lemma {:induction false} AllNotedAt(out: seq<Delivered>, notes: seq<Note>, fixedRate: bool, k: nat)
    requires AllNoted(out, notes, fixedRate) && k < |out|
    ensures Noted(out[k], notes[k], fixedRate)
  {
    if k < |out| - 1 {
      AllNotedAt(out[..|out| - 1], notes[..|out| - 1], fixedRate, k);
    }
  }

  ghost predicate NoteInv(c: State, b: Ledger) {
    && c.pending == (if b.causes == [] then {} else ANNOUNCEMENT)
    && AllNoted(c.out, b.notes, c.cfg.fixedRate)
    && (c.pc.Stamping? ==> (Reinit in c.pc.flags <==> b.inHand != []))
    && (b.raised == [] ==> Quiet(c))
  }

  lemma {:induction false} NoteLoop(s: Sys, e: SysEvent)
    requires Shape(s.chan) && Possible(s, e) && !e.Reader? && NoteInv(s.chan, s.book)
    ensures NoteInv(ChannelStep(s, e), BookAfter(s, e))
  {
  }

  /** Steps of the reader that return nothing. */
  lemma {:induction false} NoteOther(s: Sys, c: State, b: Ledger)
    requires NoteInv(s.chan, s.book) && (s.book.raised == [] ==> Quiet(c))
    requires c.out == s.chan.out && c.cfg == s.chan.cfg && b.notes == s.book.notes && b.raised == s.book.raised
    requires c.pending == (if b.causes == [] then {} else ANNOUNCEMENT)
    requires c.pc.Stamping? ==> (Reinit in c.pc.flags <==> b.inHand != [])
    ensures NoteInv(c, b)
  {
  }

  lemma {:induction false} NoteReader(s: Sys, e: Event)
    requires Shape(s.chan) && Enabled(s.chan, e) && e.OfReader() && NoteInv(s.chan, s.book)
    ensures NoteInv(Delivery.Step(s.chan, e), BookReader(s, e))
  {
    if s.book.raised == [] {
      QuietStep(s.chan, e);
    }
    var c, b := Delivery.Step(s.chan, e), BookReader(s, e);
    assert c.cfg == s.chan.cfg;
    if (e.Exchange? || e.Stamp?) && c.pc.Idle? {
      var n := |s.chan.out|;
      assert c.out == s.chan.out + [c.out[n]] && b.notes == s.book.notes + [b.notes[n]];
      AllNotedAppend(s.chan.out, s.book.notes, c.out[n], b.notes[n], c.cfg.fixedRate);
    } else {
      NoteOther(s, c, b);
    }
  }

  // ---------------------------------------------------------------------------------
  // Where frames come from
  // ---------------------------------------------------------------------------------

  /** Frames of stream n need no announcement, or its reopening is among `note`. */
  predicate Told(n: nat, note: Note) {
    n <= 1 || exists a :: a in note && a.incident == Incident(Reopened, n)
  }

  lemma {:induction false} ToldMore(n: nat, note: Note, more: Note)
    requires Told(n, note)
    ensures Told(n, note + more)
  {
    if n > 1 {
      var a :| a in note && a.incident == Incident(Reopened, n);
      assert a in note + more;
    }
  }

  /** A finished stop has closed the queue, and a thread leaves only on request. */
  ghost predicate StopInv(s: Sys) {
    && (s.stopRequested && !s.stopping ==> s.chan.queue.closed)
    && (s.loop.pc.Leaving? || (s.loop.pc.Off? && s.book.opens != []) ==> s.stopRequested)
    && (s.loop.pc.Off? ==> s.loop.mic.None?)
  }

  lemma {:induction false} StopStep(s: Sys, e: SysEvent)
    requires s.chan.queue.Valid() && Possible(s, e) && StopInv(s)
    ensures StopInv(SysStep(s, e))
  {
    if e.Reader? {
      ReaderKeepsLog(s.chan, e.event);
    }
  }

  /** Every accepted frame belongs to the first stream or to one whose reopening was
      flagged before; frames of a thread started after a stop are never accepted. */
  ghost predicate OriginInv(c: State, l: Loop, b: Ledger) {
    && |b.origins| == |c.queue.log|
    && (forall i | 0 <= i < |b.origins| :: Told(b.origins[i], b.raised))
    && (!c.queue.closed ==>
          && (!l.hadStream ==> b.opens == [])
          && (l.mic.Some? && !l.pc.Raising? ==> Told(|b.opens|, b.raised)))
  }

  lemma {:induction false} OriginRaise(s: Sys)
    requires Shape(s.chan) && Possible(s, RaiseFlags)
    requires SinkInv(s.setup, s.loop, s.published, s.book) && OriginInv(s.chan, s.loop, s.book)
    ensures OriginInv(ChannelStep(s, RaiseFlags), LoopStep(s, RaiseFlags), BookAfter(s, RaiseFlags))
  {
    var b, b' := s.book, BookAfter(s, RaiseFlags);
    var a := b'.raised[|b.raised|];
    assert b'.raised == b.raised + [a] && a in b'.raised;
    forall i | 0 <= i < |b.origins|
      ensures Told(b.origins[i], b'.raised)
    {
      ToldMore(b.origins[i], b.raised, [a]);
    }
  }

  lemma {:induction false} OriginPush(s: Sys)
    requires Shape(s.chan) && Possible(s, PushFrame)
    requires SinkInv(s.setup, s.loop, s.published, s.book) && OriginInv(s.chan, s.loop, s.book)
    ensures OriginInv(ChannelStep(s, PushFrame), LoopStep(s, PushFrame), BookAfter(s, PushFrame))
  {
    assert BookAfter(s, PushFrame).raised == s.book.raised;
  }

  /** A thread begins, or it opens a stream. */
  lemma {:induction false} OriginOpen(s: Sys, e: SysEvent)
    requires Shape(s.chan) && Possible(s, e) && (e.Opened? || e.Start?)
    requires SinkInv(s.setup, s.loop, s.published, s.book) && StopInv(s) && OriginInv(s.chan, s.loop, s.book)
    ensures OriginInv(ChannelStep(s, e), LoopStep(s, e), BookAfter(s, e))
  {
    assert BookAfter(s, e).raised == s.book.raised && BookAfter(s, e).origins == s.book.origins;
  }

  lemma {:induction false} OriginLoop(s: Sys, e: SysEvent)
    requires Shape(s.chan) && Possible(s, e)
    requires !e.Reader? && !e.RaiseFlags? && !e.PushFrame? && !e.Opened? && !e.Start?
    requires OriginInv(s.chan, s.loop, s.book)
    ensures OriginInv(ChannelStep(s, e), LoopStep(s, e), BookAfter(s, e))
  {
    var b := BookAfter(s, e);
    assert b.raised == s.book.raised && b.origins == s.book.origins && b.opens == s.book.opens;
    assert ChannelStep(s, e).queue.log == s.chan.queue.log;
  }

  lemma {:induction false} OriginReader(s: Sys, e: Event)
    requires Shape(s.chan) && Possible(s, Reader(e)) && OriginInv(s.chan, s.loop, s.book)
    ensures OriginInv(Delivery.Step(s.chan, e), s.loop, BookReader(s, e))
  {
    ReaderKeepsLog(s.chan, e);
    var b := BookReader(s, e);
    assert b.raised == s.book.raised && b.origins == s.book.origins && b.opens == s.book.opens;
  }

  // ---------------------------------------------------------------------------------
  // No reopen is announced late
  // ---------------------------------------------------------------------------------

  /** If delivery d is a frame of a reopened stream and exchanged the flags, the reopening
      is filed with it or with a delivery before. `filed` is everything filed so far. */
  predicate Timely(d: Delivered, filed: Note, origins: seq<nat>, fixedRate: bool) {
    d.taken.source.Captured? && (fixedRate || d.info) ==>
      d.taken.source.index < |origins| && Told(origins[d.taken.source.index], filed)
  }

  predicate AllTimely(out: seq<Delivered>, notes: seq<Note>, origins: seq<nat>, fixedRate: bool) {
    && |out| == |notes|
    && (out == [] ||
        (AllTimely(out[..|out| - 1], notes[..|out| - 1], origins, fixedRate)
         && Timely(out[|out| - 1], Filed(notes), origins, fixedRate)))
  }

  lemma {:induction false} AllTimelyAppend(
    out: seq<Delivered>, notes: seq<Note>, origins: seq<nat>, fixedRate: bool, d: Delivered, note: Note)
    requires AllTimely(out, notes, origins, fixedRate) && Timely(d, Filed(notes) + note, origins, fixedRate)
    ensures AllTimely(out + [d], notes + [note], origins, fixedRate)
  {
    FiledAppend(notes, note);
    assert (out + [d])[..|out|] == out && (notes + [note])[..|out|] == notes;
  }

  lemma {:induction false} AllTimelyGrows(
    out: seq<Delivered>, notes: seq<Note>, origins: seq<nat>, more: seq<nat>, fixedRate: bool)
    requires AllTimely(out, notes, origins, fixedRate) && origins <= more
    ensures AllTimely(out, notes, more, fixedRate)
  {
    if out != [] {
      AllTimelyGrows(out[..|out| - 1], notes[..|out| - 1], origins, more, fixedRate);
    }
  }

  lemma {:induction false} AllTimelyAt(
    out: seq<Delivered>, notes: seq<Note>, origins: seq<nat>, fixedRate: bool, j: nat)
    requires AllTimely(out, notes, origins, fixedRate) && j < |out|
    ensures Timely(out[j], Filed(notes[..j + 1]), origins, fixedRate)
  {
    if j < |out| - 1 {
      AllTimelyAt(out[..|out| - 1], notes[..|out| - 1], origins, fixedRate, j);
      assert notes[..|out| - 1][..j + 1] == notes[..j + 1];
    } else {
      assert notes[..j + 1] == notes;
    }
  }

  /** What is filed is filed with some delivery. */
  lemma {:induction false} FiledWith(notes: seq<Note>, a: Announcement) returns (w: nat)
    requires a in Filed(notes)
    ensures w < |notes| && a in notes[w]
  {
    var last := |notes| - 1;
    if a in notes[last] {
      w := last;
    } else {
      w := FiledWith(notes[..last], a);
    }
  }

  ghost predicate TimelyInv(c: State, b: Ledger) {
    && AllTimely(c.out, b.notes, b.origins, c.cfg.fixedRate)
    && (c.pc.Stamping? && c.pc.taken.source.Captured? ==>
          && c.pc.taken.source.index < |b.origins|
          && Told(b.origins[c.pc.taken.source.index], Filed(b.notes) + b.inHand))
  }

  lemma {:induction false} TimelyLoop(s: Sys, e: SysEvent)
    requires Shape(s.chan) && Possible(s, e) && !e.Reader? && TimelyInv(s.chan, s.book)
    ensures TimelyInv(ChannelStep(s, e), BookAfter(s, e))
  {
    var c, b := ChannelStep(s, e), BookAfter(s, e);
    assert c.pc == s.chan.pc && c.out == s.chan.out && c.cfg == s.chan.cfg;
    assert b.notes == s.book.notes && b.inHand == s.book.inHand && s.book.origins <= b.origins;
    AllTimelyGrows(c.out, b.notes, s.book.origins, b.origins, c.cfg.fixedRate);
  }

  /** After an exchange nothing flagged is left untold. */
  lemma {:induction false} TimelyExchange(s: Sys)
    requires Shape(s.chan) && GapInv(s.chan) && Enabled(s.chan, Exchange)
    requires OriginInv(s.chan, s.loop, s.book) && FiledInv(s.chan, s.book) && TimelyInv(s.chan, s.book)
    ensures TimelyInv(ExchangeStep(s.chan), BookReader(s, Exchange))
  {
    var c, b := ExchangeStep(s.chan), BookReader(s, Exchange);
    assert s.book.raised == Filed(s.book.notes) + s.book.causes;
    if s.chan.pc.Reporting? {
      AllTimelyAppend(s.chan.out, s.book.notes, b.origins, c.cfg.fixedRate, c.out[|s.chan.out|], s.book.causes);
    }
  }

  lemma {:induction false} TimelyStamp(s: Sys, t: int)
    requires Shape(s.chan) && Enabled(s.chan, Stamp(t)) && TimelyInv(s.chan, s.book)
    ensures TimelyInv(StampStep(s.chan, t), BookReader(s, Stamp(t)))
  {
    var c, b := StampStep(s.chan, t), BookReader(s, Stamp(t));
    if c.pc.Idle? {
      var n := |s.chan.out|;
      AllTimelyAppend(s.chan.out, s.book.notes, b.origins, c.cfg.fixedRate, c.out[n], b.notes[n]);
    }
  }

  lemma {:induction false} TimelyReader(s: Sys, e: Event)
    requires Shape(s.chan) && GapInv(s.chan) && Enabled(s.chan, e) && e.OfReader()
    requires OriginInv(s.chan, s.loop, s.book) && FiledInv(s.chan, s.book) && TimelyInv(s.chan, s.book)
    ensures TimelyInv(Delivery.Step(s.chan, e), BookReader(s, e))
  {
    if e.Exchange? {
      TimelyExchange(s);
    } else if e.Stamp? {
      TimelyStamp(s, e.t);
    } else {
      ReaderKeepsLog(s.chan, e);
      assert Delivery.Step(s.chan, e).out == s.chan.out;
    }
  }

  // ---------------------------------------------------------------------------------
  // All together
  // ---------------------------------------------------------------------------------

  ghost predicate SysInv(s: Sys) {
    && Inv(s.chan)
    && SinkInv(s.setup, s.loop, s.published, s.book)
    && IncidentInv(s.loop, s.book)
    && FiledInv(s.chan, s.book)
    && EpochInv(s.chan, s.book)
    && NoteInv(s.chan, s.book)
    && StopInv(s)
    && OriginInv(s.chan, s.loop, s.book)
    && TimelyInv(s.chan, s.book)
  }

  lemma {:induction false} CreatedInv(s: Sys)
    requires Created(s)
    ensures SysInv(s)
  {
    InitialInv(s.chan);
  }

  lemma {:induction false} ThreadStep(s: Sys, e: SysEvent)
    requires SysInv(s) && Possible(s, e) && !e.Reader?
    ensures var c, b := ChannelStep(s, e), BookAfter(s, e);
            FiledInv(c, b) && EpochInv(c, b) && NoteInv(c, b) && OriginInv(c, LoopStep(s, e), b) && TimelyInv(c, b)
  {
    FiledLoop(s, e);
    EpochLoop(s, e);
    NoteLoop(s, e);
    if e.RaiseFlags? {
      OriginRaise(s);
    } else if e.PushFrame? {
      OriginPush(s);
    } else if e.Opened? || e.Start? {
      OriginOpen(s, e);
    } else {
      OriginLoop(s, e);
    }
    TimelyLoop(s, e);
  }

  lemma {:induction false} ReaderStep(s: Sys, e: Event)
    requires SysInv(s) && Possible(s, Reader(e))
    ensures var c, b := Delivery.Step(s.chan, e), BookReader(s, e);
            FiledInv(c, b) && EpochInv(c, b) && NoteInv(c, b) && OriginInv(c, s.loop, b) && TimelyInv(c, b)
  {
    FiledReader(s, e);
    EpochReader(s, e);
    NoteReader(s, e);
    OriginReader(s, e);
    TimelyReader(s, e);
  }

  lemma {:induction false} SysInvStep(s: Sys, e: SysEvent)
    requires SysInv(s) && Possible(s, e)
    ensures SysInv(SysStep(s, e))
  {
    SysKeepsQueueValid(s, e);
    if ChannelEvent(s, e).Some? {
      InvStep(s.chan, ChannelEvent(s, e).value);
    }
    SinkStep(s, e);
    IncidentStep(s, e);
    StopStep(s, e);
    if e.Reader? {
      ReaderStep(s, e.event);
    } else {
      ThreadStep(s, e);
    }
  }

  lemma {:induction false} SysInvRun(s: Sys, es: seq<SysEvent>)
    requires SysInv(s) && LegalSys(s, es)
    ensures SysInv(RunSys(s, es))
    ensures RunSys(s, es).setup == s.setup && RunSys(s, es).chan.cfg == s.chan.cfg
    decreases |es|
  {
    if es != [] {
      SysKeepsQueueValid(s, es[0]);
      if ChannelEvent(s, es[0]).Some? {
        ShapeStep(s.chan, ChannelEvent(s, es[0]).value);
      }
      SysInvStep(s, es[0]);
      SysInvRun(SysStep(s, es[0]), es[1..]);
    }
  }
}
