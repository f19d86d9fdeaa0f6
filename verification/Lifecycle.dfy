/** Start, stop and destroy against the capture threads they spawn, as a machine of
    atomic steps.

    Control calls come one after another; each is cut into the steps that a capture
    thread can observe. A capture thread that stop could not join goes on running, so the
    handle may have several of them behind it over time. Answers of the audio server and
    the moment a bounded wait ends are free choices.
 */
module Lifecycle {
  import opened Options

  /** A capture thread: inside the loop, out of it with `running` still to be cleared,
      with `running` cleared and the notification to come, and finished. */
  datatype Worker = InLoop | LeavingLoop | Cleared | Finished {
    /** The thread has not cleared `running` yet. */
    predicate Active() {
      InLoop? || LeavingLoop?
    }
  }

  /** How far the current control call has come. */
  datatype Control =
    | Ready
    // start
    | Connecting
    | Resolving
    | ClearingStop
    | SettingRunning
    | Spawning
    // stop and destroy
    | Closing(destroy: bool)
    | AwaitingExit(destroy: bool)
    | Joining(destroy: bool)
    | Winding(destroy: bool)
    | Deleting
  {
    predicate InStart() {
      Connecting? || Resolving? || ClearingStop? || SettingRunning? || Spawning?
    }
  }

  /** `joinable` is the thread that the handle's thread object stands for, if any. The
      last two fields are records: `terminated` that a joinable thread object was
      overwritten, and `abandonedExited` that a thread was abandoned although it had
      cleared `running`. */
  datatype State = State(
    workers: seq<Worker>,
    control: Control,
    joinable: Option<nat>,
    running: bool,
    stopRequested: bool,
    closed: bool,
    abandoned: bool,
    freed: bool,
    terminated: bool,
    abandonedExited: bool)

  datatype Event =
    // capture thread i
    | SeesStop(i: nat)
    | ClearsRunning(i: nat)
    | Finishes(i: nat)
    // control calls
    | CallStart
    | Connected(ok: bool)
    | Resolved(ok: bool)
    | ClearStop
    | SetRunning
    | Spawn
    | CallStop(destroy: bool)
    | CloseQueue
    | WaitEnds
    | Join
    | WindUp
    | Delete

  predicate Enabled(s: State, e: Event) {
    !s.freed &&
    match e
    case SeesStop(i) => i < |s.workers| && s.workers[i].InLoop? && s.stopRequested
    case ClearsRunning(i) => i < |s.workers| && s.workers[i].LeavingLoop?
    case Finishes(i) => i < |s.workers| && s.workers[i].Cleared?
    case CallStart => s.control.Ready?
    case Connected(_) => s.control.Connecting?
    case Resolved(_) => s.control.Resolving?
    case ClearStop => s.control.ClearingStop?
    case SetRunning => s.control.SettingRunning?
    case Spawn => s.control.Spawning?
    case CallStop(_) => s.control.Ready?
    case CloseQueue => s.control.Closing?
    case WaitEnds => s.control.AwaitingExit?
    case Join => s.control.Joining? && s.joinable.Some? && s.joinable.value < |s.workers|
                 && s.workers[s.joinable.value].Finished?
    case WindUp => s.control.Winding?
    case Delete => s.control.Deleting?
  }

  function Step(s: State, e: Event): State
    requires Enabled(s, e)
  {
    match e
    case SeesStop(i) => s.(workers := s.workers[i := LeavingLoop])
    case ClearsRunning(i) => s.(workers := s.workers[i := Cleared], running := false)
    case Finishes(i) => s.(workers := s.workers[i := Finished])
    case CallStart => if s.running then s else s.(control := Connecting)
    case Connected(ok) => s.(control := if ok then Resolving else Ready)
    case Resolved(ok) => s.(control := if ok then ClearingStop else Ready)
    case ClearStop => s.(control := SettingRunning, stopRequested := false)
    case SetRunning => s.(control := Spawning, running := true)
    case Spawn =>
      s.(control := Ready, terminated := s.terminated || s.joinable.Some?,
         joinable := Some(|s.workers|), workers := s.workers + [InLoop])
    case CallStop(destroy) => s.(control := Closing(destroy), stopRequested := true)
    case CloseQueue =>
      s.(closed := true,
         control := if s.joinable.Some? then AwaitingExit(s.control.destroy) else Winding(s.control.destroy))
    case WaitEnds =>
      if !s.running then s.(control := Joining(s.control.destroy))
      else
        s.(control := Winding(s.control.destroy), joinable := None, abandoned := true,
           abandonedExited := s.abandonedExited
                              || (s.joinable.Some? && s.joinable.value < |s.workers|
                                  && !s.workers[s.joinable.value].Active()))
    case Join => s.(control := Winding(s.control.destroy), joinable := None)
    case WindUp =>
      s.(control := if s.control.destroy then Deleting else Ready,
         running := if s.abandoned then s.running else false)
    case Delete => if s.abandoned then s.(control := Ready) else s.(control := Ready, freed := true)
  }

  predicate Legal(s: State, es: seq<Event>)
    decreases |es|
  {
    es == [] || (Enabled(s, es[0]) && Legal(Step(s, es[0]), es[1..]))
  }

  function Run(s: State, es: seq<Event>): State
    requires Legal(s, es)
    decreases |es|
  {
    if es == [] then s else Run(Step(s, es[0]), es[1..])
  }

  const CREATED := State([], Ready, None, false, false, false, false, false, false, false)

  // ---------------------------------------------------------------------------------
  // What every run keeps
  // ---------------------------------------------------------------------------------

  /** Only the youngest thread can still be active, and while it is, `running` holds. */
  ghost predicate WorkersInv(s: State) {
    && (forall i | 0 <= i < |s.workers| && s.workers[i].Active() :: i == |s.workers| - 1 && s.running)
    && (forall i | 0 <= i < |s.workers| && s.workers[i].LeavingLoop? :: s.stopRequested)
    && (!s.abandoned ==>
          forall i | 0 <= i < |s.workers| && s.joinable != Some(i) :: s.workers[i].Finished?)
  }

  ghost predicate ControlInv(s: State) {
    && (s.joinable.Some? ==> |s.workers| > 0 && s.joinable.value == |s.workers| - 1)
    && (s.control.Ready? && s.joinable.Some? ==>
          s.workers[s.joinable.value].InLoop? && !s.stopRequested && s.running)
    && (s.control.InStart() ==>
          && s.joinable.None?
          && (forall i | 0 <= i < |s.workers| :: !s.workers[i].Active()))
    && (s.running && !s.control.Spawning? ==> |s.workers| > 0 && s.workers[|s.workers| - 1].Active())
    && (s.control.InStart() && !s.control.Spawning? ==> !s.running)
    && (s.control.SettingRunning? ==> !s.stopRequested)
    && (s.control.Spawning? ==> s.running && !s.stopRequested)
    && (s.control.AwaitingExit? || s.control.Joining? ==> s.joinable.Some?)
    && (s.control.Joining? ==> !s.running)
    && (s.control.Winding? || s.control.Deleting? ==> s.joinable.None?)
    && (s.control.Closing? || s.control.AwaitingExit? || s.control.Joining? || s.control.Winding? || s.control.Deleting?
        ==> s.stopRequested)
    && (s.control.Deleting? && !s.abandoned ==> !s.running)
  }

  /** A freed handle has no thread left and was never abandoned; no joinable thread object
      was overwritten and no thread that had cleared `running` was abandoned; a thread
      inside the loop finds `running` set, and one leaving it still finds the stop request
      that made it leave; and a thread being joined is past its loop, so that the join
      does not wait for the audio server. */
  ghost predicate Safe(s: State) {
    && (s.freed ==> !s.abandoned && forall i | 0 <= i < |s.workers| :: s.workers[i].Finished?)
    && !s.terminated && !s.abandonedExited
    && (forall i | 0 <= i < |s.workers| && s.workers[i].InLoop? :: s.running)
    && (forall i | 0 <= i < |s.workers| && s.workers[i].LeavingLoop? :: s.stopRequested)
    && (s.control.Joining? ==>
          s.joinable.Some? && s.joinable.value < |s.workers| && !s.workers[s.joinable.value].Active())
  }

  ghost predicate Inv(s: State) {
    WorkersInv(s) && ControlInv(s) && Safe(s)
  }

  lemma {:induction false} WorkerStep(s: State, e: Event)
    requires Inv(s) && Enabled(s, e) && (e.SeesStop? || e.ClearsRunning? || e.Finishes?)
    ensures Inv(Step(s, e))
  {
  }

  lemma {:induction false} StartStep(s: State, e: Event)
    requires Inv(s) && Enabled(s, e)
    requires e.CallStart? || e.Connected? || e.Resolved? || e.ClearStop? || e.SetRunning? || e.Spawn?
    ensures Inv(Step(s, e))
  {
  }

  lemma {:induction false} StopStep(s: State, e: Event)
    requires Inv(s) && Enabled(s, e)
    requires e.CallStop? || e.CloseQueue? || e.WaitEnds? || e.Join? || e.WindUp? || e.Delete?
    ensures Inv(Step(s, e))
  {
  }

  lemma {:induction false} InvRun(s: State, es: seq<Event>)
    requires Inv(s) && Legal(s, es)
    ensures Inv(Run(s, es))
    decreases |es|
  {
    if es != [] {
      var e := es[0];
      if e.SeesStop? || e.ClearsRunning? || e.Finishes? {
        WorkerStep(s, e);
      } else if e.CallStart? || e.Connected? || e.Resolved? || e.ClearStop? || e.SetRunning? || e.Spawn? {
        StartStep(s, e);
      } else {
        StopStep(s, e);
      }
      InvRun(Step(s, e), es[1..]);
    }
  }

  // ---------------------------------------------------------------------------------
  // The promises
  // ---------------------------------------------------------------------------------

  /** Lifecycle safety, over every run of control calls and capture threads. */
  lemma {:induction false} HandleIsSafe(es: seq<Event>)
    requires Legal(CREATED, es)
    ensures Safe(Run(CREATED, es))
  {
    InvRun(CREATED, es);
  }

  /** `running` says exactly whether a capture thread is active, except in the moment
      between start setting it and the thread coming into being; two are never active. */
  lemma {:induction false} RunningIsExact(es: seq<Event>)
    requires Legal(CREATED, es)
    ensures var r := Run(CREATED, es);
            && (r.running && !r.control.Spawning? <==> exists i :: 0 <= i < |r.workers| && r.workers[i].Active())
            && (forall i, j | 0 <= i < |r.workers| && 0 <= j < |r.workers| && r.workers[i].Active() && r.workers[j].Active()
                  :: i == j)
  {
    InvRun(CREATED, es);
  }

  /** The end of stop: nothing joinable, and unless a thread was abandoned nothing running. */
  lemma {:induction false} WindUpSettles(s: State)
    requires Inv(s) && s.control.Winding? && !s.freed
    ensures var after := Step(s, WindUp);
            && after.joinable.None? && after.stopRequested
            && (!after.abandoned ==> !after.running && forall i | 0 <= i < |after.workers| :: after.workers[i].Finished?)
  {
  }

  /** Another stop on a stopped handle closes the queue, if that was left to do. */
  lemma {:induction false} SecondStop(s: State)
    requires s.control.Ready? && !s.freed && s.joinable.None? && s.stopRequested && (!s.abandoned ==> !s.running)
    ensures Enabled(s, CallStop(false)) && Enabled(Step(s, CallStop(false)), CloseQueue)
    ensures Enabled(Step(Step(s, CallStop(false)), CloseQueue), WindUp)
    ensures Step(Step(Step(s, CallStop(false)), CloseQueue), WindUp) == s.(closed := true)
  {
  }

  /** A stop that has run to its end leaves no joinable thread, and unless it had to
      abandon one, nothing running. A second stop changes none of that. */
  lemma {:induction false} StopSettles(es: seq<Event>)
    requires Legal(CREATED, es) && Run(CREATED, es).control.Winding?
    ensures var r := Run(CREATED, es);
            !r.freed ==>
              var after := Step(r, WindUp);
              && after.joinable.None? && after.stopRequested
              && (!after.abandoned ==> !after.running && forall i | 0 <= i < |after.workers| :: after.workers[i].Finished?)
              && (after.control.Ready? ==>
                    var again := Step(Step(Step(after, CallStop(false)), CloseQueue), WindUp);
                    again == after.(closed := true))
  {
    InvRun(CREATED, es);
    var r := Run(CREATED, es);
    if !r.freed {
      WindUpSettles(r);
      if Step(r, WindUp).control.Ready? {
        SecondStop(Step(r, WindUp));
      }
    }
  }
}
