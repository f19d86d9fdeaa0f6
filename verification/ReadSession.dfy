/** A caller that reads frame after frame, and what it can conclude from the buffers and
    the information it gets back. */
module ReadSession {
  import opened Bytes
  import opened Pacing
  import opened Delivery
  import opened DeliveryProofs
  import opened DeliveryTheorems
  import opened Punctuality
  import opened ReadFrame

  /** One call to make; `world` is what the rest of the program does meanwhile. */
  datatype Request = Request(timeoutMs: int, wantInfo: bool, world: seq<Gap>)

  /** One frame received. */
  datatype Received = Received(frame: Frame, wantInfo: bool, info: FrameInfo)

  // ---------------------------------------------------------------------------------
  // What the caller sees of what was delivered
  // ---------------------------------------------------------------------------------

  predicate Shows(r: Received, d: Delivered) {
    && r.frame == d.taken.frame
    && r.wantInfo == d.info
    && (r.wantInfo ==> r.info == FrameInfo(d.beat.stamp, d.flags, d.DroppedFrames()))
  }

  predicate AllShown(got: seq<Received>, out: seq<Delivered>) {
    |got| == |out| && forall k | 0 <= k < |got| :: Shows(got[k], out[k])
  }

  predicate Informed(got: seq<Received>) {
    forall k | 0 <= k < |got| :: got[k].wantInfo
  }

  /** How many captured frames have gone by, by the caller's own count: each frame that is
      not flagged as silence, and before it the frames reported as dropped. */
  function Position(got: seq<Received>): nat {
    if got == [] then 0
    else
      var last := got[|got| - 1].info;
      Position(got[..|got| - 1]) + if Silence in last.flags then 0 else last.droppedFrames + 1
  }

  /** By that count every frame received is the captured frame at its place, byte for byte,
      or silence. */
  predicate Explained(got: seq<Received>, log: seq<Frame>, frameBytes: nat) {
    got == [] ||
    var last := got[|got| - 1];
    && Explained(got[..|got| - 1], log, frameBytes)
    && if Silence in last.info.flags then last.frame == Zeros(frameBytes) && last.info.droppedFrames == 0
       else Position(got) <= |log| && last.frame == log[Position(got) - 1]
  }

  /** Only a capture of 2^32 frames could lose so many that the count wraps. */
  lemma {:induction false} CountsExplain(got: seq<Received>, out: seq<Delivered>, log: seq<Frame>, cfg: Config)
    requires AllShown(got, out) && Informed(got)
    requires AllExact(out, log, cfg.frameBytes) && AllFlags(out, cfg.fixedRate) && |log| < TWO_32
    ensures Explained(got, log, cfg.frameBytes) && Position(got) == NextIndex(out)
  {
    if got != [] {
      var n := |got| - 1;
      CountsExplain(got[..n], out[..n], log, cfg);
      assert Shows(got[n], out[n]);
    }
  }

  /** The frames whose time stamp lies in a window. */
  function StampedWithin(got: seq<Received>, from: int, length: nat): set<nat> {
    set k: nat | k < |got| && from <= got[k].info.timestamp <= from + length
  }

  lemma {:induction false} StampsAreBeats(got: seq<Received>, out: seq<Delivered>, from: int, length: nat)
    requires AllShown(got, out) && Informed(got)
    ensures StampedWithin(got, from, length) == Inside(Beats(out), from, length)
  {
    forall k | 0 <= k < |out|
      ensures Beats(out)[k].stamp == got[k].info.timestamp
    {
      BeatsAt(out, k);
      assert Shows(got[k], out[k]);
    }
  }

  /** What a caller that always asks for information may rely on. */
  ghost predicate Trustworthy(got: seq<Received>, log: seq<Frame>, cfg: Config) {
    && (|log| < TWO_32 ==> Explained(got, log, cfg.frameBytes))
    && (cfg.fixedRate && cfg.period > 0 ==>
          forall from: int, length: nat :: |StampedWithin(got, from, length)| <= length / cfg.period + 2)
  }

  lemma {:induction false} RunIsTrustworthy(s: State, es: seq<Event>, got: seq<Received>)
    requires Initial(s) && Legal(s, es) && AllShown(got, Run(s, es).out) && Informed(got)
    ensures Trustworthy(got, Run(s, es).queue.log, s.cfg)
  {
    var r := Run(s, es);
    InitialInv(s);
    InvRun(s, es);
    if |r.queue.log| < TWO_32 {
      CountsExplain(got, r.out, r.queue.log, s.cfg);
    }
    if s.cfg.fixedRate && s.cfg.period > 0 {
      forall from: int, length: nat
        ensures |StampedWithin(got, from, length)| <= length / s.cfg.period + 2
      {
        StampsAreBeats(got, r.out, from, length);
        RateBound(s, es, from, length);
      }
    }
  }

  lemma {:induction false} LeadsFurther(s0: State, a: seq<Event>, s: State, b: seq<Event>, r: State)
    requires Leads(s0, a, s) && Leads(s, b, r)
    ensures Leads(s0, a + b, r)
  {
    RunConcat(s0, a, b);
  }

  // ---------------------------------------------------------------------------------
  // The session
  // ---------------------------------------------------------------------------------

  function Served(statuses: seq<Status>): nat {
    if statuses == [] then 0
    else Served(statuses[..|statuses| - 1]) + if statuses[|statuses| - 1].One? then 1 else 0
  }

  /** No call is invalid; every call is refused on a handle that is not running, and on a
      running one none unless the queue is closed. */
  predicate Answered(statuses: seq<Status>, running: bool, closed: bool) {
    forall i | 0 <= i < |statuses| ::
      && !statuses[i].ErrInval?
      && if running then statuses[i].ErrState? ==> closed else statuses[i].ErrState?
  }

  /** A call that is long enough timed out only if no call before it got as far as the pacer. */
  predicate FirstInVain(statuses: seq<Status>, requests: seq<Request>, cfg: Config)
    requires |statuses| <= |requests|
  {
    forall i, j | 0 <= i < j < |statuses| && (statuses[i].One? || statuses[i].Zero?) && LongEnough(requests[j].timeoutMs, cfg)
      :: !statuses[j].Zero?
  }

  predicate AnyEnded(statuses: seq<Status>) {
    exists i :: 0 <= i < |statuses| && (statuses[i].One? || statuses[i].Zero?)
  }

  /** What holds of the answers so far. */
  ghost predicate Session(
    statuses: seq<Status>, requests: seq<Request>, cfg: Config, running: bool, closed: bool, armed: bool)
  {
    && |statuses| <= |requests|
    && Answered(statuses, running, closed)
    && FirstInVain(statuses, requests, cfg)
    && (cfg.fixedRate && AnyEnded(statuses) ==> armed)
  }

  /** One more answer. */
  lemma {:induction false} SessionNext(
    statuses: seq<Status>, status: Status, requests: seq<Request>, cfg: Config, running: bool,
    was: bool, closed: bool, armed: bool, armed': bool)
    requires Session(statuses, requests, cfg, running, was, armed) && |statuses| < |requests|
    requires Answered([status], running, closed) && (was ==> closed)
    requires armed || (cfg.fixedRate && (status.Zero? || status.One?)) ==> armed'
    requires armed && LongEnough(requests[|statuses|].timeoutMs, cfg) ==> !status.Zero?
    ensures Session(statuses + [status], requests, cfg, running, closed, armed')
    ensures Served(statuses + [status]) == Served(statuses) + if status.One? then 1 else 0
  {
    var all := statuses + [status];
    assert [status][0] == status;
    assert all[..|statuses|] == statuses;
    forall i, j | 0 <= i < j < |all| && (all[i].One? || all[i].Zero?) && LongEnough(requests[j].timeoutMs, cfg)
      ensures !all[j].Zero?
    {
      assert statuses[i] == all[i];
      if j < |statuses| {
        assert statuses[j] == all[j];
      } else {
        assert AnyEnded(statuses);
      }
    }
    if AnyEnded(all) {
      var i :| 0 <= i < |all| && (all[i].One? || all[i].Zero?);
      if i < |statuses| {
        assert statuses[i] == all[i];
        assert AnyEnded(statuses);
      }
    }
  }

  lemma {:induction false} ShownNext(got: seq<Received>, received: Received, was: seq<Delivered>, out: seq<Delivered>)
    requires AllShown(got, was) && |out| == |was| + 1 && was <= out && Shows(received, out[|was|])
    ensures AllShown(got + [received], out)
  {
  }

  lemma {:induction false} ClosedForGood(s: State, es: seq<Event>, r: State)
    requires Leads(s, es, r) && s.queue.closed
    ensures r.queue.closed
  {
    CloseIsFinal(s, es);
  }

  /** A fixed-rate call is long enough if its timeout is a microsecond longer than the period. */
  predicate LongEnough(timeoutMs: int, cfg: Config) {
    cfg.fixedRate && timeoutMs * 1_000_000 >= cfg.period + 1_000
  }

  /** A call that is long enough, on a handle whose pacer is armed, does not time out. */
  lemma {:induction false} ArmedNeverInVain(s: State, es: seq<Event>, r: State)
    requires Inv(s) && s.pc.Idle? && s.pacer.armed && s.cfg.fixedRate && Leads(s, es, r)
    ensures Inv(r) && r.cfg == s.cfg
    ensures forall k | |s.ended| <= k < |r.ended| && r.ended[k].call.timeout >= s.cfg.period + 1_000 ::
              !r.ended[k].outcome.TimedOut?
  {
    InvRun(s, es);
    ArmedForGood(s, es, |s.ended|);
    forall k | |s.ended| <= k < |r.ended| && r.ended[k].call.timeout >= s.cfg.period + 1_000
      ensures !r.ended[k].outcome.TimedOut?
    {
      AllPatientAt(r.ended, k, s.cfg);
    }
  }

  /** One call of a session. It is refused if the handle is not running, and otherwise only
      by a closed queue; and if it is long enough it times out only if it armed the pacer. */
  method ReadOne(h: CaptureHandle, dst: array<byte>, request: Request, ghost s0: State, ghost before: seq<Event>)
    returns (status: Status, received: Received, ghost trace: seq<Event>)
    requires h.Valid() && Leads(s0, before, h.chan) && h.chan.pc.Idle? && Initial(s0)
    requires dst != h.queue.storage && dst.Length >= h.cfg.frameBytes
    requires AllSized(request.world, h.cfg.frameBytes)
    modifies h, h.queue, h.queue.storage, dst
    ensures h.Valid() && h.running == old(h.running) && h.queue.storage == old(h.queue.storage)
    ensures Leads(s0, trace, h.chan) && (status.StillWaiting? || h.chan.pc.Idle?)
    ensures Answered([status], h.running, h.chan.queue.closed)
    ensures old(h.chan).queue.closed ==> h.chan.queue.closed
    ensures old(h.deadlineValid) || (h.cfg.fixedRate && (status.Zero? || status.One?)) ==> h.deadlineValid
    ensures old(h.deadlineValid) && LongEnough(request.timeoutMs, h.cfg) ==> !status.Zero?
    ensures status.One? ==>
              && |h.chan.out| == |old(h.chan).out| + 1 && old(h.chan).out <= h.chan.out
              && Shows(received, h.chan.out[|old(h.chan).out|])
    ensures !status.One? ==> h.chan.out == old(h.chan).out
  {
    ghost var s := h.chan;
    InitialInv(s0);
    InvRun(s0, before);
    var info;
    ghost var part;
    status, info, part := h.Read(dst, h.frameSamples, request.wantInfo, request.timeoutMs, request.world);
    received := Received(dst[..h.cfg.frameBytes], request.wantInfo, info);
    LeadsFurther(s0, before, s, part, h.chan);
    trace := before + part;
    if s.pacer.armed && s.cfg.fixedRate {
      ArmedNeverInVain(s, part, h.chan);
    }
    if s.queue.closed {
      ClosedForGood(s, part, h.chan);
    }
  }

  /** What holds of a session so far. */
  ghost predicate SoFar(h: CaptureHandle, requests: seq<Request>, statuses: seq<Status>, got: seq<Received>)
    reads h
  {
    && Session(statuses, requests, h.cfg, h.running, h.chan.queue.closed, h.deadlineValid)
    && |got| == Served(statuses) && AllShown(got, h.chan.out)
  }

  /** One more call of the session. */
  method ReadNext(
    h: CaptureHandle, dst: array<byte>, requests: seq<Request>, statuses: seq<Status>, got: seq<Received>,
    ghost s0: State, ghost before: seq<Event>)
    returns (status: Status, got': seq<Received>, ghost trace: seq<Event>)
    requires h.Valid() && Leads(s0, before, h.chan) && h.chan.pc.Idle? && Initial(s0)
    requires dst != h.queue.storage && dst.Length >= h.cfg.frameBytes
    requires SoFar(h, requests, statuses, got) && |statuses| < |requests|
    requires AllSized(requests[|statuses|].world, h.cfg.frameBytes)
    modifies h, h.queue, h.queue.storage, dst
    ensures h.Valid() && h.running == old(h.running) && h.queue.storage == old(h.queue.storage)
    ensures Leads(s0, trace, h.chan) && (status.StillWaiting? || h.chan.pc.Idle?)
    ensures SoFar(h, requests, statuses + [status], got')
  {
    ghost var was, armed, shown := h.chan.queue.closed, h.deadlineValid, h.chan.out;
    var received;
    status, received, trace := ReadOne(h, dst, requests[|statuses|], s0, before);
    got' := got;
    if status.One? {
      ShownNext(got, received, shown, h.chan.out);
      got' := got + [received];
    }
    SessionNext(statuses, status, requests, h.cfg, h.running, was, h.chan.queue.closed, armed, h.deadlineValid);
  }

  /** One call after the other. */
  method ReadEach(h: CaptureHandle, dst: array<byte>, requests: seq<Request>)
    returns (statuses: seq<Status>, got: seq<Received>, ghost trace: seq<Event>)
    requires h.Valid() && Initial(h.chan)
    requires dst != h.queue.storage && dst.Length >= h.cfg.frameBytes
    requires forall i | 0 <= i < |requests| :: AllSized(requests[i].world, h.cfg.frameBytes)
    modifies h, h.queue, h.queue.storage, dst
    ensures h.Valid() && h.running == old(h.running) && Leads(old(h.chan), trace, h.chan)
    ensures |statuses| == |requests| || (statuses != [] && statuses[|statuses| - 1].StillWaiting?)
    ensures SoFar(h, requests, statuses, got)
  {
    statuses, got, trace := [], [], [];
    ghost var s0 := h.chan;
    var waiting := false;
    while |statuses| < |requests| && !waiting
      invariant h.Valid() && h.running == old(h.running) && h.queue.storage == old(h.queue.storage)
      invariant Leads(s0, trace, h.chan) && (waiting || h.chan.pc.Idle?)
      invariant waiting ==> statuses != [] && statuses[|statuses| - 1].StillWaiting?
      invariant SoFar(h, requests, statuses, got)
      decreases |requests| - |statuses|
    {
      var status;
      status, got, trace := ReadNext(h, dst, requests, statuses, got, s0, trace);
      statuses := statuses + [status];
      waiting := status.StillWaiting?;
    }
  }

  /** A session from a created handle; a call that is still waiting when its world ends ends
      it. Whatever the rest of the program does, every call on a running handle is served or
      times out unless the queue has been closed, and at fixed rate a call that is long
      enough times out only if it is the first to get as far as the pacer; the frames
      received are those delivered, and a caller that asks for information can account for
      each of them, for all the frames in between, and for the pace. */
  method ReadAll(h: CaptureHandle, dst: array<byte>, requests: seq<Request>)
    returns (statuses: seq<Status>, got: seq<Received>, ghost trace: seq<Event>)
    requires h.Valid() && Initial(h.chan)
    requires dst != h.queue.storage && dst.Length >= h.cfg.frameBytes
    requires forall i | 0 <= i < |requests| :: AllSized(requests[i].world, h.cfg.frameBytes)
    modifies h, h.queue, h.queue.storage, dst
    ensures h.Valid() && h.running == old(h.running) && Leads(old(h.chan), trace, h.chan)
    ensures |statuses| == |requests| || (statuses != [] && statuses[|statuses| - 1].StillWaiting?)
    ensures Answered(statuses, h.running, h.chan.queue.closed)
    ensures |statuses| <= |requests| && FirstInVain(statuses, requests, h.cfg)
    ensures |got| == Served(statuses) && AllShown(got, h.chan.out)
    ensures Informed(got) ==> Trustworthy(got, h.chan.queue.log, h.cfg)
  {
    ghost var s0 := h.chan;
    statuses, got, trace := ReadEach(h, dst, requests);
    if Informed(got) {
      RunIsTrustworthy(s0, trace, got);
    }
  }
}
