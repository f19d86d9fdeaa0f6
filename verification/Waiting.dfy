/** Waits on a condition variable, cut at the lock, the test, the block and the notify.

    One machine stands for the waits of the program on a flag:

      - stop requests: stored under `stop_lock`, then `notify_all`;
      - an alarm: rung under its mutex, then `notify_all`;
      - the exit of the capture thread: `running` is stored WITHOUT the lock, then
        `notify_all`; one waiter, with a timeout.

    `cond` is the predicate the waiters test. A setter makes it true; leaving waiters and
    outsiders may make it false again. The frame queue, whose waiters compete for frames,
    has a machine of its own in module QueueWaiting.
 */
module Waiting {

  /** `late` says that the wait timed out and this is the last test. A waiter holds the
      lock from `Testing` on until it blocks or is gone. */
  datatype Waiter =
    | Away
    | Arriving(late: bool)
    | Testing(late: bool)
    | Tested(found: bool, late: bool)
    | Blocked
    | Gone(found: bool)
  {
    predicate HoldsLock() {
      Testing? || Tested?
    }
  }

  /** A setter holds the lock in `Holding`; in `Notifying` the store is done and the
      notification is still to come. */
  datatype Setter = Resting | Holding | Notifying

  datatype Owner = Free | ByWaiter(i: nat) | BySetter(j: nat)

  /** `locked` says that setters store under the lock. */
  datatype State = State(locked: bool, cond: bool, owner: Owner, waiters: seq<Waiter>, setters: seq<Setter>)

  datatype Event =
    | Arrive(i: nat)
    | Acquire(i: nat)
    | Test(i: nat)
    | Settle(i: nat, resets: bool)
    | Expire(i: nat)
    | Spurious(i: nat)
    | Lock(j: nat)
    | Store(j: nat)
    | Notify(j: nat)
    | Reset

  predicate SomeoneBlocked(ws: seq<Waiter>) {
    exists i :: 0 <= i < |ws| && ws[i].Blocked?
  }

  predicate Enabled(s: State, e: Event) {
    match e
    case Arrive(i) => i < |s.waiters| && (s.waiters[i].Away? || s.waiters[i].Gone?)
    case Acquire(i) => i < |s.waiters| && s.waiters[i].Arriving? && s.owner.Free?
    case Test(i) => i < |s.waiters| && s.waiters[i].Testing?
    case Settle(i, _) => i < |s.waiters| && s.waiters[i].Tested?
    case Expire(i) => i < |s.waiters| && s.waiters[i].Blocked?
    case Spurious(i) => i < |s.waiters| && s.waiters[i].Blocked?
    case Lock(j) => j < |s.setters| && s.setters[j].Resting? && s.owner.Free? && s.locked
    case Store(j) => j < |s.setters| && (if s.locked then s.setters[j].Holding? else s.setters[j].Resting?)
    case Notify(j) => j < |s.setters| && s.setters[j].Notifying?
    case Reset => true
  }

  /** All blocked waiters are on their way to the lock again. */
  function WakeAll(ws: seq<Waiter>): (r: seq<Waiter>)
    ensures |r| == |ws|
    ensures forall i | 0 <= i < |ws| :: r[i] == if ws[i].Blocked? then Arriving(false) else ws[i]
  {
    if ws == [] then [] else WakeAll(ws[..|ws| - 1]) + [if ws[|ws| - 1].Blocked? then Arriving(false) else ws[|ws| - 1]]
  }

  /** A waiter that found the condition, or ran out of time, goes; otherwise it blocks.
      Either gives up the lock. A leaving waiter may use the condition up. */
  function SettleStep(s: State, i: nat, resets: bool): State
    requires i < |s.waiters| && s.waiters[i].Tested?
  {
    var w := s.waiters[i];
    if w.found then s.(owner := Free, waiters := s.waiters[i := Gone(true)], cond := s.cond && !resets)
    else if w.late then s.(owner := Free, waiters := s.waiters[i := Gone(false)])
    else s.(owner := Free, waiters := s.waiters[i := Blocked])
  }

  function Step(s: State, e: Event): State
    requires Enabled(s, e)
  {
    match e
    case Arrive(i) => s.(waiters := s.waiters[i := Arriving(false)])
    case Acquire(i) => s.(owner := ByWaiter(i), waiters := s.waiters[i := Testing(s.waiters[i].late)])
    case Test(i) => s.(waiters := s.waiters[i := Tested(s.cond, s.waiters[i].late)])
    case Settle(i, resets) => SettleStep(s, i, resets)
    case Expire(i) => s.(waiters := s.waiters[i := Arriving(true)])
    case Spurious(i) => s.(waiters := s.waiters[i := Arriving(false)])
    case Lock(j) => s.(owner := BySetter(j), setters := s.setters[j := Holding])
    case Store(j) =>
      s.(cond := true, setters := s.setters[j := Notifying], owner := if s.locked then Free else s.owner)
    case Notify(j) => s.(setters := s.setters[j := Resting], waiters := WakeAll(s.waiters))
    case Reset => s.(cond := false)
  }

  predicate Legal(s: State, es: seq<Event>)
    decreases |es|
  {
    es == [] || (Enabled(s, es[0]) && Legal(Step(s, es[0]), es[1..]))
  }

  function Run(s: State, es: seq<Event>): State
    requires Legal(s, es)
    decreases |es|
  {
    if es == [] then s else Run(Step(s, es[0]), es[1..])
  }

  predicate Initial(s: State) {
    && !s.cond && s.owner.Free?
    && (forall i | 0 <= i < |s.waiters| :: s.waiters[i].Away?)
    && (forall j | 0 <= j < |s.setters| :: s.setters[j].Resting?)
  }

  // ---------------------------------------------------------------------------------
  // No stuck waiter
  // ---------------------------------------------------------------------------------

  ghost predicate NotifyPending(s: State) {
    exists j :: 0 <= j < |s.setters| && s.setters[j].Notifying?
  }

  /** Waiter i sleeps although what it waits for has come and nobody will tell it. */
  ghost predicate Stuck(s: State, i: nat) {
    i < |s.waiters| && s.waiters[i].Blocked? && s.cond && !NotifyPending(s)
  }

  /** Nobody but its owner holds the lock, and a setter only where stores take it. */
  ghost predicate HolderInv(s: State) {
    && (forall i | 0 <= i < |s.waiters| && s.waiters[i].HoldsLock() :: s.owner == ByWaiter(i))
    && (forall j | 0 <= j < |s.setters| && s.setters[j].Holding? :: s.owner == BySetter(j) && s.locked)
  }

  /** And what its holder found absent stays absent. */
  ghost predicate LockInv(s: State) {
    && HolderInv(s)
    && (forall i | 0 <= i < |s.waiters| && s.waiters[i].Tested? && !s.waiters[i].found :: !s.cond)
  }

  ghost predicate WakeInv(s: State) {
    s.cond && !NotifyPending(s) ==> !SomeoneBlocked(s.waiters)
  }

  lemma {:induction false} HolderStep(s: State, e: Event)
    requires HolderInv(s) && Enabled(s, e)
    ensures HolderInv(Step(s, e)) && Step(s, e).locked == s.locked && |Step(s, e).waiters| == |s.waiters|
  {
  }

  lemma {:induction false} LockStep(s: State, e: Event)
    requires s.locked && LockInv(s) && Enabled(s, e)
    ensures LockInv(Step(s, e)) && Step(s, e).locked == s.locked && |Step(s, e).waiters| == |s.waiters|
  {
    HolderStep(s, e);
  }

  /** A notification that is still to come stays so until it is given. */
  lemma {:induction false} PendingStays(s: State, e: Event)
    requires Enabled(s, e) && !e.Notify? && NotifyPending(s)
    ensures NotifyPending(Step(s, e))
  {
    var j :| 0 <= j < |s.setters| && s.setters[j].Notifying?;
    assert Step(s, e).setters[j].Notifying?;
  }

  lemma {:induction false} WakeStep(s: State, e: Event)
    requires s.locked && LockInv(s) && WakeInv(s) && Enabled(s, e)
    ensures WakeInv(Step(s, e))
  {
    var s' := Step(s, e);
    if e.Store? {
      assert s'.setters[e.j].Notifying?;
    } else if !e.Notify? {
      if NotifyPending(s) {
        PendingStays(s, e);
      }
    }
  }

  lemma {:induction false} DisciplinedRun(s: State, es: seq<Event>)
    requires s.locked && LockInv(s) && WakeInv(s) && Legal(s, es)
    ensures WakeInv(Run(s, es))
    decreases |es|
  {
    if es != [] {
      LockStep(s, es[0]);
      WakeStep(s, es[0]);
      DisciplinedRun(Step(s, es[0]), es[1..]);
    }
  }

  /** With stores under the lock no run leaves a waiter stuck: stop requests and alarms. */
  lemma {:induction false} NoStuckWaiter(s: State, es: seq<Event>, i: nat)
    requires Initial(s) && Legal(s, es) && s.locked
    ensures !Stuck(Run(s, es), i)
  {
    DisciplinedRun(s, es);
    var r := Run(s, es);
    assert i < |r.waiters| && r.waiters[i].Blocked? ==> SomeoneBlocked(r.waiters);
  }

  // ---------------------------------------------------------------------------------
  // Storing without the lock
  // ---------------------------------------------------------------------------------

  lemma {:induction false} RunCons(s: State, e: Event, es: seq<Event>)
    requires Enabled(s, e) && Legal(Step(s, e), es)
    ensures Legal(s, [e] + es) && Run(s, [e] + es) == Run(Step(s, e), es)
  {
    assert ([e] + es)[1..] == es;
  }

  lemma {:induction false} RunConcat(s: State, a: seq<Event>, b: seq<Event>)
    requires Legal(s, a) && Legal(Run(s, a), b)
    ensures Legal(s, a + b) && Run(s, a + b) == Run(Run(s, a), b)
    decreases |a|
  {
    if a == [] {
      assert a + b == b;
    } else {
      RunConcat(Step(s, a[0]), a[1..], b);
      RunCons(s, a[0], a[1..] + b);
      assert [a[0]] + (a[1..] + b) == a + b;
    }
  }

  /** A waiter comes, takes the lock and tests. */
  lemma {:induction false} ComeAndTest(s: State, i: nat) returns (es: seq<Event>)
    requires i < |s.waiters| && s.waiters[i].Away? && s.owner.Free?
    ensures Legal(s, es)
    ensures Run(s, es) == s.(owner := ByWaiter(i), waiters := s.waiters[i := Tested(s.cond, false)])
  {
    var s1 := Step(s, Arrive(i));
    var s2 := Step(s1, Acquire(i));
    RunCons(s2, Test(i), []);
    RunCons(s1, Acquire(i), [Test(i)] + []);
    RunCons(s, Arrive(i), [Acquire(i)] + ([Test(i)] + []));
    es := [Arrive(i)] + ([Acquire(i)] + ([Test(i)] + []));
    assert Step(s2, Test(i)).waiters == s.waiters[i := Tested(s.cond, false)];
  }

  /** Without the lock, store and notify fit between the test of a waiter and its block. */
  lemma {:induction false} LoseNotify(s: State, i: nat, j: nat) returns (es: seq<Event>)
    requires !s.locked && i < |s.waiters| && s.waiters[i] == Tested(false, false)
    requires j < |s.setters| && s.setters[j].Resting? && !NotifyPending(s)
    ensures Legal(s, es) && Stuck(Run(s, es), i)
  {
    var s1 := Step(s, Store(j));
    var s2 := Step(s1, Notify(j));
    var s3 := Step(s2, Settle(i, false));
    assert s2.setters == s.setters;
    assert s2.waiters[i] == Tested(false, false);
    RunCons(s2, Settle(i, false), []);
    RunCons(s1, Notify(j), [Settle(i, false)] + []);
    RunCons(s, Store(j), [Notify(j)] + ([Settle(i, false)] + []));
    es := [Store(j)] + ([Notify(j)] + ([Settle(i, false)] + []));
    assert s3.setters == s.setters;
  }

  /** The exit notification CAN be lost: the store and the notify fit between the test of
      `running` and the block. */
  lemma {:induction false} ExitNotifyLost() returns (s: State, es: seq<Event>)
    ensures Initial(s) && Legal(s, es) && !s.locked
    ensures Stuck(Run(s, es), 0)
  {
    s := State(false, false, Free, [Away], [Resting]);
    var a := ComeAndTest(s, 0);
    var b := LoseNotify(Run(s, a), 0, 0);
    RunConcat(s, a, b);
    es := a + b;
  }

  /** The step that gets waiter i stuck: it blocks on a test that is out of date, with the
      condition true meanwhile and every notification given. */
  ghost predicate BlocksTooLate(s: State, e: Event, i: nat) {
    && i < |s.waiters| && e.Settle? && e.i == i && s.waiters[i] == Tested(false, false)
    && s.cond && !NotifyPending(s)
  }

  lemma {:induction false} StuckStep(s: State, e: Event, i: nat)
    requires Enabled(s, e) && i < |s.waiters| && !Stuck(s, i)
    ensures |Step(s, e).waiters| == |s.waiters|
    ensures Stuck(Step(s, e), i) <==> BlocksTooLate(s, e, i)
  {
    var s' := Step(s, e);
    if e.Store? {
      assert s'.setters[e.j].Notifying?;
    } else if !e.Notify? {
      assert s'.setters == s.setters || e.Lock?;
      if NotifyPending(s) {
        PendingStays(s, e);
      }
      if NotifyPending(s') {
        var j :| 0 <= j < |s'.setters| && s'.setters[j].Notifying?;
        assert s.setters[j].Notifying?;
      }
    }
  }

  /** This is the only way to get stuck, in any run and under either discipline: at some
      event of the run waiter i blocked on a test out of date. */
  lemma {:induction false} StuckOnlySo(s: State, es: seq<Event>, i: nat) returns (k: nat)
    requires Legal(s, es) && i < |s.waiters| && !Stuck(s, i) && Stuck(Run(s, es), i)
    ensures k < |es| && Legal(s, es[..k]) && BlocksTooLate(Run(s, es[..k]), es[k], i)
    decreases |es|
  {
    var s' := Step(s, es[0]);
    StuckStep(s, es[0], i);
    if Stuck(s', i) {
      k := 0;
    } else {
      var m := StuckOnlySo(s', es[1..], i);
      k := m + 1;
      assert es[..k][0] == es[0] && es[..k][1..] == es[1..][..m];
    }
  }

  /** The waiter has not yet come away empty-handed, nor made up its mind to. */
  predicate Hopeful(w: Waiter) {
    !(w.Gone? && !w.found) && !(w.Tested? && !w.found && w.late)
  }

  /** Nothing in `es` takes the condition away. */
  predicate Lasting(es: seq<Event>) {
    forall k | 0 <= k < |es| :: !es[k].Reset? && !(es[k].Settle? && es[k].resets)
  }

  lemma {:induction false} HopefulStep(s: State, e: Event, i: nat)
    requires Enabled(s, e) && s.cond && i < |s.waiters| && Hopeful(s.waiters[i])
    requires !e.Reset? && !(e.Settle? && e.resets)
    ensures var s' := Step(s, e); s'.cond && |s'.waiters| == |s.waiters| && Hopeful(s'.waiters[i])
  {
  }

  /** What saves the result: whatever the discipline, and lost notifications or not, a
      waiter whose last test comes after the condition has come true does not go away
      without it. So `stop` abandons a capture thread only if that thread had not cleared
      `running` when the timed-out wait tested it for the last time. */
  lemma {:induction false} LastTestSees(s: State, es: seq<Event>, i: nat)
    requires Legal(s, es) && Lasting(es)
    requires s.cond && i < |s.waiters| && Hopeful(s.waiters[i])
    ensures i < |Run(s, es).waiters| && Hopeful(Run(s, es).waiters[i])
    decreases |es|
  {
    if es != [] {
      HopefulStep(s, es[0], i);
      LastTestSees(Step(s, es[0]), es[1..], i);
    }
  }

  // ---------------------------------------------------------------------------------
  // Getting away
  // ---------------------------------------------------------------------------------

  /** Whoever owns the lock is holding it. */
  ghost predicate OwnerInv(s: State) {
    match s.owner
    case Free => true
    case ByWaiter(i) => i < |s.waiters| && s.waiters[i].HoldsLock()
    case BySetter(j) => j < |s.setters| && s.setters[j].Holding?
  }

  lemma {:induction false} OwnerStep(s: State, e: Event)
    requires OwnerInv(s) && HolderInv(s) && Enabled(s, e)
    ensures OwnerInv(Step(s, e))
  {
  }

  lemma {:induction false} OwnerRun(s: State, es: seq<Event>)
    requires OwnerInv(s) && HolderInv(s) && Legal(s, es)
    ensures OwnerInv(Run(s, es)) && HolderInv(Run(s, es))
    decreases |es|
  {
    if es != [] {
      HolderStep(s, es[0]);
      OwnerStep(s, es[0]);
      OwnerRun(Step(s, es[0]), es[1..]);
    }
  }

  /** The owner of the lock, if any, can let go of it by its own steps, which leave blocked
      waiters blocked. */
  lemma {:induction false} LockComesFree(s: State, i: nat) returns (es: seq<Event>)
    requires OwnerInv(s) && HolderInv(s) && i < |s.waiters| && s.waiters[i].Blocked?
    ensures Legal(s, es)
    ensures var r := Run(s, es); r.owner.Free? && i < |r.waiters| && r.waiters[i].Blocked?
  {
    match s.owner
    case Free => es := [];
    case ByWaiter(h) =>
      if s.waiters[h].Testing? {
        var s1 := Step(s, Test(h));
        RunCons(s1, Settle(h, false), []);
        RunCons(s, Test(h), [Settle(h, false)] + []);
        es := [Test(h)] + ([Settle(h, false)] + []);
      } else {
        RunCons(s, Settle(h, false), []);
        es := [Settle(h, false)] + [];
      }
    case BySetter(j) =>
      RunCons(s, Store(j), []);
      es := [Store(j)] + [];
  }

  /** And no wait with a timeout blocks for good: in every run, under either discipline, a
      blocked waiter can get away, once whoever holds the lock has let go of it, and it
      leaves with the truth of its condition. */
  lemma {:induction false} TimeoutReleases(s: State, es: seq<Event>, i: nat) returns (more: seq<Event>)
    requires Initial(s) && Legal(s, es) && i < |Run(s, es).waiters| && Run(s, es).waiters[i].Blocked?
    ensures Legal(Run(s, es), more)
    ensures var r := Run(Run(s, es), more); i < |r.waiters| && r.waiters[i] == Gone(r.cond)
  {
    OwnerRun(s, es);
    var r := Run(s, es);
    var letGo := LockComesFree(r, i);
    var leave := ExpireAndLeave(Run(r, letGo), i);
    RunConcat(r, letGo, leave);
    more := letGo + leave;
  }

  lemma {:induction false} ExpireAndLeave(s: State, i: nat) returns (es: seq<Event>)
    requires i < |s.waiters| && s.waiters[i].Blocked? && s.owner.Free?
    ensures Legal(s, es)
    ensures var r := Run(s, es); i < |r.waiters| && r.waiters[i] == Gone(r.cond)
  {
    var s1 := Step(s, Expire(i));
    var s2 := Step(s1, Acquire(i));
    var s3 := Step(s2, Test(i));
    RunCons(s3, Settle(i, false), []);
    RunCons(s2, Test(i), [Settle(i, false)] + []);
    RunCons(s1, Acquire(i), [Test(i)] + ([Settle(i, false)] + []));
    RunCons(s, Expire(i), [Acquire(i)] + ([Test(i)] + ([Settle(i, false)] + [])));
    es := [Expire(i)] + ([Acquire(i)] + ([Test(i)] + ([Settle(i, false)] + [])));
  }
}
