/** The frame queue's condition variable, cut at the lock, the test, the block and the
    notify, for any number of consumers, producers and closers.

    A push adds a frame under the lock and then notifies one waiter; at capacity it
    replaces the oldest frame, so the count stays. Close is set under the lock for good,
    and then notifies all. A consumer that finds a frame takes it before it lets go of the
    lock.
 */
module QueueWaiting {
  import W = Waiting
  import opened FrameLog

  datatype Owner = Free | ByWaiter(i: nat) | ByPusher(j: nat) | ByCloser(j: nat)

  datatype State = State(
    count: nat, capacity: nat, closed: bool, owner: Owner,
    waiters: seq<W.Waiter>, pushers: seq<W.Setter>, closers: seq<W.Setter>)

  datatype Event =
    | Arrive(i: nat)
    | Acquire(i: nat)
    | Test(i: nat)
    | Settle(i: nat)
    | Expire(i: nat)
    | Spurious(i: nat)
    | LockPush(j: nat)
    | Push(j: nat)
    | NotifyOne(j: nat, k: nat)
    | LockClose(j: nat)
    | Close(j: nat)
    | NotifyAll(j: nat)

  predicate Enabled(s: State, e: Event) {
    match e
    case Arrive(i) => i < |s.waiters| && (s.waiters[i].Away? || s.waiters[i].Gone?)
    case Acquire(i) => i < |s.waiters| && s.waiters[i].Arriving? && s.owner.Free?
    case Test(i) => i < |s.waiters| && s.waiters[i].Testing?
    case Settle(i) => i < |s.waiters| && s.waiters[i].Tested?
    case Expire(i) => i < |s.waiters| && s.waiters[i].Blocked?
    case Spurious(i) => i < |s.waiters| && s.waiters[i].Blocked?
    case LockPush(j) => j < |s.pushers| && s.pushers[j].Resting? && s.owner.Free?
    case Push(j) => j < |s.pushers| && s.pushers[j].Holding?
    case NotifyOne(j, k) =>
      && j < |s.pushers| && s.pushers[j].Notifying?
      && (W.SomeoneBlocked(s.waiters) ==> k < |s.waiters| && s.waiters[k].Blocked?)
    case LockClose(j) => j < |s.closers| && s.closers[j].Resting? && s.owner.Free?
    case Close(j) => j < |s.closers| && s.closers[j].Holding?
    case NotifyAll(j) => j < |s.closers| && s.closers[j].Notifying?
  }

  /** A consumer takes a frame if there is one, leaves without if the queue is closed or
      its time is up, and otherwise blocks. `Gone(true)` has a frame. */
  function SettleStep(s: State, i: nat): State
    requires i < |s.waiters| && s.waiters[i].Tested?
  {
    var w, free := s.waiters[i], s.(owner := Free);
    if w.found && s.count > 0 then free.(count := s.count - 1, waiters := s.waiters[i := W.Gone(true)])
    else if w.found || w.late then free.(waiters := s.waiters[i := W.Gone(false)])
    else free.(waiters := s.waiters[i := W.Blocked])
  }

  /** A closed queue refuses the frame and notifies nobody. */
  function PushStep(s: State, j: nat): State
    requires j < |s.pushers|
  {
    if s.closed then s.(owner := Free, pushers := s.pushers[j := W.Resting])
    else
      s.(owner := Free, pushers := s.pushers[j := W.Notifying],
         count := if s.count < s.capacity then s.count + 1 else s.count)
  }

  function Step(s: State, e: Event): State
    requires Enabled(s, e)
  {
    match e
    case Arrive(i) => s.(waiters := s.waiters[i := W.Arriving(false)])
    case Acquire(i) => s.(owner := ByWaiter(i), waiters := s.waiters[i := W.Testing(s.waiters[i].late)])
    case Test(i) => s.(waiters := s.waiters[i := W.Tested(s.count > 0 || s.closed, s.waiters[i].late)])
    case Settle(i) => SettleStep(s, i)
    case Expire(i) => s.(waiters := s.waiters[i := W.Arriving(true)])
    case Spurious(i) => s.(waiters := s.waiters[i := W.Arriving(false)])
    case LockPush(j) => s.(owner := ByPusher(j), pushers := s.pushers[j := W.Holding])
    case Push(j) => PushStep(s, j)
    case NotifyOne(j, k) =>
      var rested := s.(pushers := s.pushers[j := W.Resting]);
      if W.SomeoneBlocked(s.waiters) then rested.(waiters := s.waiters[k := W.Arriving(false)]) else rested
    case LockClose(j) => s.(owner := ByCloser(j), closers := s.closers[j := W.Holding])
    case Close(j) => s.(owner := Free, closed := true, closers := s.closers[j := W.Notifying])
    case NotifyAll(j) => s.(closers := s.closers[j := W.Resting], waiters := W.WakeAll(s.waiters))
  }

  predicate Legal(s: State, es: seq<Event>)
    decreases |es|
  {
    es == [] || (Enabled(s, es[0]) && Legal(Step(s, es[0]), es[1..]))
  }

  function Run(s: State, es: seq<Event>): State
    requires Legal(s, es)
    decreases |es|
  {
    if es == [] then s else Run(Step(s, es[0]), es[1..])
  }

  predicate Initial(s: State) {
    && s.count == 0 && s.capacity > 0 && !s.closed && s.owner.Free?
    && (forall i | 0 <= i < |s.waiters| :: s.waiters[i].Away?)
    && (forall j | 0 <= j < |s.pushers| :: s.pushers[j].Resting?)
    && (forall j | 0 <= j < |s.closers| :: s.closers[j].Resting?)
  }

  // ---------------------------------------------------------------------------------
  // Counting
  // ---------------------------------------------------------------------------------

  /** The consumer will look at the queue before it sleeps, or has a find to collect. */
  predicate Coming(w: W.Waiter) {
    w.Arriving? || w.Testing? || (w.Tested? && w.found)
  }

  function OnTheWay(ws: seq<W.Waiter>): nat {
    if ws == [] then 0 else OnTheWay(ws[..|ws| - 1]) + if Coming(ws[|ws| - 1]) then 1 else 0
  }

  function Notices(ps: seq<W.Setter>): nat {
    if ps == [] then 0 else Notices(ps[..|ps| - 1]) + if ps[|ps| - 1].Notifying? then 1 else 0
  }

  lemma {:induction false} OnTheWayUpdate(ws: seq<W.Waiter>, i: nat, w: W.Waiter)
    requires i < |ws|
    ensures OnTheWay(ws[i := w]) ==
            OnTheWay(ws) - (if Coming(ws[i]) then 1 else 0) + (if Coming(w) then 1 else 0)
  {
    var n := |ws| - 1;
    if i < n {
      OnTheWayUpdate(ws[..n], i, w);
      assert ws[i := w][..n] == ws[..n][i := w];
    } else {
      assert ws[i := w][..n] == ws[..n];
    }
  }

  lemma {:induction false} NoticesUpdate(ps: seq<W.Setter>, j: nat, p: W.Setter)
    requires j < |ps|
    ensures Notices(ps[j := p]) ==
            Notices(ps) - (if ps[j].Notifying? then 1 else 0) + (if p.Notifying? then 1 else 0)
  {
    var n := |ps| - 1;
    if j < n {
      NoticesUpdate(ps[..n], j, p);
      assert ps[j := p][..n] == ps[..n][j := p];
    } else {
      assert ps[j := p][..n] == ps[..n];
    }
  }

  // ---------------------------------------------------------------------------------
  // What every run keeps
  // ---------------------------------------------------------------------------------

  /** The lock has the holder it should, and what its holder found is still so. */
  ghost predicate LockInv(s: State) {
    && (forall i | 0 <= i < |s.waiters| && s.waiters[i].HoldsLock() :: s.owner == ByWaiter(i))
    && (forall j | 0 <= j < |s.pushers| && s.pushers[j].Holding? :: s.owner == ByPusher(j))
    && (forall j | 0 <= j < |s.closers| && s.closers[j].Holding? :: s.owner == ByCloser(j))
    && (forall i | 0 <= i < |s.waiters| && s.waiters[i].Tested? :: s.waiters[i].found == (s.count > 0 || s.closed))
  }

  ghost predicate CloseNotice(s: State) {
    exists j :: 0 <= j < |s.closers| && s.closers[j].Notifying?
  }

  /** While a consumer sleeps, every frame has a consumer on its way or a notice to come,
      and a close has its notice still to come. */
  ghost predicate WakeInv(s: State) {
    W.SomeoneBlocked(s.waiters) ==>
      && s.count <= OnTheWay(s.waiters) + Notices(s.pushers)
      && (s.closed ==> CloseNotice(s))
  }

  predicate OfConsumer(e: Event) {
    e.Arrive? || e.Acquire? || e.Test? || e.Settle? || e.Expire? || e.Spurious?
  }

  predicate OfProducer(e: Event) {
    e.LockPush? || e.Push? || e.NotifyOne?
  }

  predicate OfCloser(e: Event) {
    e.LockClose? || e.Close? || e.NotifyAll?
  }

  lemma {:induction false} ConsumerLock(s: State, e: Event)
    requires LockInv(s) && Enabled(s, e) && OfConsumer(e)
    ensures LockInv(Step(s, e))
  {
    var s' := Step(s, e);
    assert s'.pushers == s.pushers && s'.closers == s.closers;
    assert forall i | 0 <= i < |s.waiters| && i != e.i :: s'.waiters[i] == s.waiters[i];
  }

  lemma {:induction false} ProducerLock(s: State, e: Event)
    requires LockInv(s) && Enabled(s, e) && OfProducer(e)
    ensures LockInv(Step(s, e))
  {
  }

  lemma {:induction false} CloserLock(s: State, e: Event)
    requires LockInv(s) && Enabled(s, e) && OfCloser(e)
    ensures LockInv(Step(s, e))
  {
  }

  /** Steps of the consumers. */
  lemma {:induction false} ConsumerStep(s: State, e: Event)
    requires LockInv(s) && WakeInv(s) && Enabled(s, e) && OfConsumer(e)
    ensures WakeInv(Step(s, e))
  {
    var s' := Step(s, e);
    OnTheWayUpdate(s.waiters, e.i, s'.waiters[e.i]);
    assert s'.waiters == s.waiters[e.i := s'.waiters[e.i]];
    if s'.waiters[e.i].Blocked? {
      assert s'.count == 0 && !s'.closed;
    } else if W.SomeoneBlocked(s'.waiters) {
      var i :| 0 <= i < |s'.waiters| && s'.waiters[i].Blocked?;
      assert s.waiters[i].Blocked?;
    }
  }

  /** Steps of the producers. */
  lemma {:induction false} ProducerStep(s: State, e: Event)
    requires LockInv(s) && WakeInv(s) && Enabled(s, e) && OfProducer(e)
    ensures WakeInv(Step(s, e))
  {
    var s' := Step(s, e);
    NoticesUpdate(s.pushers, e.j, s'.pushers[e.j]);
    assert s'.pushers == s.pushers[e.j := s'.pushers[e.j]];
    if e.NotifyOne? && W.SomeoneBlocked(s.waiters) {
      OnTheWayUpdate(s.waiters, e.k, W.Arriving(false));
    }
  }

  /** Steps of the closers. */
  lemma {:induction false} CloserStep(s: State, e: Event)
    requires LockInv(s) && WakeInv(s) && Enabled(s, e) && OfCloser(e)
    ensures WakeInv(Step(s, e))
  {
    var s' := Step(s, e);
    if e.Close? {
      assert s'.closers[e.j].Notifying?;
    } else if e.LockClose? && CloseNotice(s) {
      var j :| 0 <= j < |s.closers| && s.closers[j].Notifying?;
      assert s'.closers[j].Notifying?;
    }
  }

  lemma {:induction false} InvRun(s: State, es: seq<Event>)
    requires LockInv(s) && WakeInv(s) && Legal(s, es)
    ensures WakeInv(Run(s, es))
    decreases |es|
  {
    if es != [] {
      var e := es[0];
      if OfProducer(e) {
        ProducerLock(s, e);
        ProducerStep(s, e);
      } else if OfCloser(e) {
        CloserLock(s, e);
        CloserStep(s, e);
      } else {
        ConsumerLock(s, e);
        ConsumerStep(s, e);
      }
      InvRun(Step(s, e), es[1..]);
    }
  }

  /** No consumer sleeps over a frame that nobody is coming for, however many consumers and
      producers there are: while one is blocked, the frames are no more than the consumers
      on their way and the notices to come; and after a close, its notice is to come. */
  lemma {:induction false} NoFrameUnattended(s: State, es: seq<Event>, i: nat)
    requires Initial(s) && Legal(s, es)
    ensures var r := Run(s, es);
            i < |r.waiters| && r.waiters[i].Blocked? ==>
              && r.count <= OnTheWay(r.waiters) + Notices(r.pushers)
              && (r.closed ==> CloseNotice(r))
  {
    InvRun(s, es);
    var r := Run(s, es);
    assert i < |r.waiters| && r.waiters[i].Blocked? ==> W.SomeoneBlocked(r.waiters);
  }

  // ---------------------------------------------------------------------------------
  // The count is that of the queue
  // ---------------------------------------------------------------------------------

  /** What a step is to the queue of module FrameLog. */
  function QueueStep(q: Queue<()>, s: State, e: Event): (r: Queue<()>)
    requires q.Valid() && Enabled(s, e)
    ensures r.Valid()
  {
    match e
    case Push(_) => q.Push(())
    case Close(_) => q.Close()
    case Settle(i) => if s.waiters[i].found then q.Pop() else q
    case _ => q
  }

  ghost predicate Follows(s: State, q: Queue<()>) {
    q.Valid() && q.capacity == s.capacity > 0 && q.closed == s.closed && |q.Contents()| == s.count
  }

  /** Pushes, takings and closes are those of the queue: the count stays its length, and a
      consumer leaves with a frame exactly when the queue hands one out. */
  lemma {:induction false} FollowsStep(s: State, e: Event, q: Queue<()>)
    requires LockInv(s) && Follows(s, q) && Enabled(s, e)
    ensures Follows(Step(s, e), QueueStep(q, s, e))
    ensures e.Settle? ==> (Step(s, e).waiters[e.i] == W.Gone(true) <==> q.PopResult().Got?)
    ensures e.Settle? && !q.PopResult().Got? ==>
              Step(s, e).waiters[e.i] == if s.closed || s.waiters[e.i].late then W.Gone(false) else W.Blocked
  {
    PopEffect(q);
    if !q.closed {
      PushEffect(q, ());
    }
  }

  function QueueRun(q: Queue<()>, s: State, es: seq<Event>): (r: Queue<()>)
    requires q.Valid() && Legal(s, es)
    ensures r.Valid()
    decreases |es|
  {
    if es == [] then q else QueueRun(QueueStep(q, s, es[0]), Step(s, es[0]), es[1..])
  }

  lemma {:induction false} CountFollowsQueue(s: State, es: seq<Event>, q: Queue<()>)
    requires LockInv(s) && Follows(s, q) && Legal(s, es)
    ensures Follows(Run(s, es), QueueRun(q, s, es))
    decreases |es|
  {
    if es != [] {
      var e := es[0];
      FollowsStep(s, e, q);
      if OfProducer(e) {
        ProducerLock(s, e);
      } else if OfCloser(e) {
        CloserLock(s, e);
      } else {
        ConsumerLock(s, e);
      }
      CountFollowsQueue(Step(s, e), es[1..], QueueStep(q, s, e));
    }
  }

  /** Over any run the number of frames that consumers wait for is the length of the queue
      that was pushed, popped and closed in the same order. */
  lemma {:induction false} CountIsQueueLength(s: State, es: seq<Event>, q: Queue<()>)
    requires Initial(s) && Legal(s, es) && q == Fresh(s.capacity)
    ensures Follows(Run(s, es), QueueRun(q, s, es))
  {
    FreshFollows(s, q);
    CountFollowsQueue(s, es, q);
  }

  lemma {:induction false} FreshFollows(s: State, q: Queue<()>)
    requires Initial(s) && q == Fresh(s.capacity)
    ensures LockInv(s) && Follows(s, q)
  {
    assert q.log == [] && q.First() == 0;
  }
}
