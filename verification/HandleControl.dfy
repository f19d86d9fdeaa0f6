/** `start`, `stop` and `destroy` as the program runs them, on the fields of the handle.

    `world` is one run of the machine in module Lifecycle: which call comes next, what the
    audio server answers, when a bounded wait ends, and between them the steps of the
    capture threads. The code is proved to be, at every moment, where the machine is.
 */
module HandleControl {
  import opened Options
  import opened Lifecycle

  /** Steps of the capture threads. */
  predicate OfThreads(e: Event) {
    e.SeesStop? || e.ClearsRunning? || e.Finishes?
  }

  ghost predicate Reached(world: seq<Event>, at: nat, s: State) {
    && at <= |world|
    && Legal(CREATED, world[..at]) && s == Run(CREATED, world[..at])
    && Legal(s, world[at..])
  }

  lemma {:induction false} RunOn(s: State, trace: seq<Event>, e: Event)
    requires Legal(s, trace) && Enabled(Run(s, trace), e)
    ensures Legal(s, trace + [e]) && Run(s, trace + [e]) == Step(Run(s, trace), e)
    decreases |trace|
  {
    if trace == [] {
      assert trace + [e] == [e] && [e][1..] == [];
    } else {
      assert (trace + [e])[0] == trace[0] && (trace + [e])[1..] == trace[1..] + [e];
      RunOn(Step(s, trace[0]), trace[1..], e);
    }
  }

  lemma {:induction false} ReachedNext(world: seq<Event>, at: nat, s: State)
    requires Reached(world, at, s) && at < |world|
    ensures Enabled(s, world[at]) && Reached(world, at + 1, Step(s, world[at]))
  {
    var e := world[at];
    assert world[at..][0] == e && world[at..][1..] == world[at + 1..];
    RunOn(CREATED, world[..at], e);
    assert world[..at + 1] == world[..at] + [e];
  }

  lemma {:induction false} ReachedIsSafe(world: seq<Event>, at: nat, s: State)
    requires Reached(world, at, s)
    ensures Inv(s)
  {
    InvRun(CREATED, world[..at]);
  }

  /** A step of a capture thread touches nothing but `running`, and that only when no
      start is under way. */
  lemma {:induction false} ThreadMoves(world: seq<Event>, at: nat, s: State) returns (s': State)
    requires Reached(world, at, s) && at < |world| && OfThreads(world[at])
    ensures Reached(world, at + 1, s')
    ensures s'.control == s.control && s'.stopRequested == s.stopRequested && s'.closed == s.closed
    ensures s'.joinable == s.joinable && |s'.workers| == |s.workers|
    ensures s'.abandoned == s.abandoned && s'.freed == s.freed
    ensures s'.running == (s.running && !world[at].ClearsRunning?)
    ensures s.control.InStart() ==> s'.running == s.running
  {
    ReachedIsSafe(world, at, s);
    ReachedNext(world, at, s);
    s' := Step(s, world[at]);
  }

  /** The event that a call in progress is waiting for. */
  predicate Awaits(control: Control, e: Event) {
    match control
    case Ready => e.CallStart? || e.CallStop?
    case Connecting => e.Connected?
    case Resolving => e.Resolved?
    case ClearingStop => e.ClearStop?
    case SettingRunning => e.SetRunning?
    case Spawning => e.Spawn?
    case Closing(_) => e.CloseQueue?
    case AwaitingExit(_) => e.WaitEnds?
    case Joining(_) => e.Join?
    case Winding(_) => e.WindUp?
    case Deleting => e.Delete?
  }

  lemma {:induction false} OwnStep(world: seq<Event>, at: nat, s: State)
    requires Reached(world, at, s) && at < |world| && !OfThreads(world[at])
    ensures Awaits(s.control, world[at])
  {
    ReachedNext(world, at, s);
  }

  /** What a call returned: its status, or nothing because the run ended inside it. */
  datatype Status = Done | ErrState | ErrConnect | ErrPulse | RunEnds

  class Handle {
    var running: bool
    var stopRequested: bool
    var queueClosed: bool
    /** The capture thread this handle can still join, and how many it has spawned. */
    var thread: Option<nat>
    var threads: nat
    var threadAbandoned: bool
    var freed: bool

    const world: seq<Event>
    var at: nat
    ghost var state: State

    /** The fields say what the machine says. */
    ghost predicate Valid()
      reads this
    {
      && state.running == running
      && state.stopRequested == stopRequested
      && state.closed == queueClosed
      && state.joinable == thread
      && |state.workers| == threads
      && state.abandoned == threadAbandoned
      && state.freed == freed
      && Reached(world, at, state)
    }

    /** The next event is for the call in progress. */
    ghost predicate MyTurn()
      reads this
    {
      at < |world| && Awaits(state.control, world[at])
    }

    constructor (world: seq<Event>)
      requires Legal(CREATED, world)
      ensures Valid() && at == 0 && state == CREATED && this.world == world
    {
      assert world[..0] == [] && world[0..] == world;
      this.world, at, state := world, 0, CREATED;
      running, stopRequested, queueClosed, thread, threads := false, false, false, None, 0;
      threadAbandoned, freed := false, false;
    }

    /** The capture threads go on until the call in progress gets its next turn. */
    method Others() returns (mine: bool)
      requires Valid()
      modifies this`running, this`at, this`state
      ensures Valid() && state.control == old(state).control && at >= old(at)
      ensures state.control.InStart() ==> running == old(running)
      ensures running ==> old(running)
      ensures mine ==> MyTurn()
      ensures !mine ==> at == |world|
    {
      while at < |world| && OfThreads(world[at])
        invariant Valid() && state.control == old(state).control && at >= old(at)
        invariant state.control.InStart() ==> running == old(running)
        invariant running ==> old(running)
        decreases |world| - at
      {
        ThreadStep();
      }
      mine := at < |world|;
      if mine {
        OwnStep(world, at, state);
      }
    }

    /** A step of a capture thread, on the fields of the handle. */
    method ThreadStep()
      requires Valid() && at < |world| && OfThreads(world[at])
      modifies this`running, this`at, this`state
      ensures Valid() && state.control == old(state).control && at == old(at) + 1
      ensures state.control.InStart() ==> running == old(running)
      ensures running ==> old(running)
    {
      ghost var next := ThreadMoves(world, at, state);
      if world[at].ClearsRunning? {
        running := false;
      }
      state, at := next, at + 1;
    }

    // -------------------------------------------------------------------------------
    // start
    // -------------------------------------------------------------------------------

    /** The guard against starting twice. */
    method TestRunning() returns (wasRunning: bool)
      requires Valid() && MyTurn() && world[at].CallStart?
      modifies this`at, this`state
      ensures Valid() && at == old(at) + 1 && wasRunning == running
      ensures if wasRunning then state == old(state) else state.control.Connecting?
    {
      ReachedNext(world, at, state);
      wasRunning := running;
      state, at := Step(state, world[at]), at + 1;
    }

    /** Connect to the audio server, and later ask it for the sink. */
    method Ask() returns (ok: bool)
      requires Valid() && MyTurn() && (state.control.Connecting? || state.control.Resolving?)
      modifies this`at, this`state
      ensures Valid() && at == old(at) + 1
      ensures state.control == if !ok then Ready else if old(state).control.Connecting? then Resolving else ClearingStop
    {
      ReachedNext(world, at, state);
      ok := world[at].ok;
      state, at := Step(state, world[at]), at + 1;
    }

    method ClearRequest()
      requires Valid() && MyTurn() && state.control.ClearingStop?
      modifies this`stopRequested, this`at, this`state
      ensures Valid() && at == old(at) + 1 && state.control.SettingRunning? && !stopRequested
    {
      ReachedNext(world, at, state);
      stopRequested := false;
      state, at := Step(state, world[at]), at + 1;
    }

    method SetRunning()
      requires Valid() && MyTurn() && state.control.SettingRunning?
      modifies this`running, this`at, this`state
      ensures Valid() && at == old(at) + 1 && state.control.Spawning? && running
    {
      ReachedNext(world, at, state);
      running := true;
      state, at := Step(state, world[at]), at + 1;
    }

    /** A new thread takes the place of none: the thread object was not joinable. */
    method Spawn()
      requires Valid() && MyTurn() && state.control.Spawning?
      modifies this`thread, this`threads, this`at, this`state
      ensures Valid() && at == old(at) + 1 && state.control.Ready?
      ensures old(thread).None? && thread == Some(old(threads)) && threads == old(threads) + 1
    {
      ReachedIsSafe(world, at, state);
      ReachedNext(world, at, state);
      thread, threads := Some(threads), threads + 1;
      state, at := Step(state, world[at]), at + 1;
    }

    /** The part of `start` that cannot fail. */
    method Launch() returns (status: Status)
      requires Valid() && state.control.ClearingStop?
      modifies this
      ensures Valid() && at >= old(at) && threadAbandoned == old(threadAbandoned)
      ensures status.Done? || (status.RunEnds? && at == |world|)
      ensures status.Done? ==> state.control.Ready? && running && !stopRequested && thread == Some(old(threads))
    {
      var mine := Others();
      if !mine {
        return RunEnds;
      }
      ClearRequest();
      mine := Others();
      if !mine {
        return RunEnds;
      }
      SetRunning();
      mine := Others();
      if !mine {
        return RunEnds;
      }
      Spawn();
      status := Done;
    }

    /** `start`. It is refused exactly when a capture thread is active already, and a
        start that fails leaves the thread and the stop request alone. */
    method Start() returns (status: Status)
      requires Valid() && MyTurn() && world[at].CallStart?
      modifies this
      ensures Valid() && at > old(at) && threadAbandoned == old(threadAbandoned)
      ensures status.ErrState? <==> old(running)
      ensures status.ErrState? ==> state == old(state)
      ensures status.RunEnds? ==> at == |world|
      ensures !status.RunEnds? ==> state.control.Ready?
      ensures status.Done? ==> running && !stopRequested && thread == Some(old(threads))
      ensures status.ErrConnect? || status.ErrPulse? ==>
                thread == old(thread) && threads == old(threads) && stopRequested == old(stopRequested) && !running
    {
      var wasRunning := TestRunning();
      if wasRunning {
        return ErrState;
      }
      status := Consult();
      if status.Done? {
        status := Launch();
      }
    }

    /** The part of `start` that can fail: connect, then resolve the sink. */
    method Consult() returns (status: Status)
      requires Valid() && state.control.Connecting? && !running
      modifies this`running, this`at, this`state
      ensures Valid() && at >= old(at) && !running
      ensures status.Done? || status.ErrConnect? || status.ErrPulse? || (status.RunEnds? && at == |world|)
      ensures !status.RunEnds? ==> state.control == if status.Done? then ClearingStop else Ready
    {
      var mine := Others();
      if !mine {
        return RunEnds;
      }
      var ok := Ask();
      if !ok {
        return ErrConnect;
      }
      mine := Others();
      if !mine {
        return RunEnds;
      }
      ok := Ask();
      status := if ok then Done else ErrPulse;
    }

    // -------------------------------------------------------------------------------
    // stop and destroy
    // -------------------------------------------------------------------------------

    method RequestStop(ghost destroy: bool)
      requires Valid() && MyTurn() && world[at] == CallStop(destroy)
      modifies this`stopRequested, this`at, this`state
      ensures Valid() && at == old(at) + 1 && state.control == Closing(destroy) && stopRequested
    {
      ReachedNext(world, at, state);
      stopRequested := true;
      state, at := Step(state, world[at]), at + 1;
    }

    method CloseQueue(ghost destroy: bool)
      requires Valid() && MyTurn() && state.control == Closing(destroy)
      modifies this`queueClosed, this`at, this`state
      ensures Valid() && at == old(at) + 1 && queueClosed
      ensures state.control == if thread.Some? then AwaitingExit(destroy) else Winding(destroy)
    {
      ReachedNext(world, at, state);
      queueClosed := true;
      state, at := Step(state, world[at]), at + 1;
    }

    /** The bounded wait; a thread that has not exited by its end is let go. */
    method AwaitExit(ghost destroy: bool) returns (joined: bool)
      requires Valid() && MyTurn() && state.control == AwaitingExit(destroy)
      modifies this`thread, this`threadAbandoned, this`at, this`state
      ensures Valid() && at == old(at) + 1 && joined == !running
      ensures state.control == if joined then Joining(destroy) else Winding(destroy)
      ensures if joined then thread == old(thread) && threadAbandoned == old(threadAbandoned)
              else thread.None? && threadAbandoned
    {
      ReachedNext(world, at, state);
      joined := !running;
      if !joined {
        thread := None;
        threadAbandoned := true;
      }
      state, at := Step(state, world[at]), at + 1;
    }

    /** Returns only once the thread has finished. */
    method Join(ghost destroy: bool)
      requires Valid() && MyTurn() && state.control == Joining(destroy)
      modifies this`thread, this`at, this`state
      ensures Valid() && at == old(at) + 1 && state.control == Winding(destroy) && thread.None?
    {
      ReachedNext(world, at, state);
      thread := None;
      state, at := Step(state, world[at]), at + 1;
    }

    method WindUp(ghost destroy: bool)
      requires Valid() && MyTurn() && state.control == Winding(destroy)
      modifies this`running, this`at, this`state
      ensures Valid() && at == old(at) + 1
      ensures state.control == if destroy then Deleting else Ready
      ensures running == (threadAbandoned && old(running))
    {
      ReachedNext(world, at, state);
      if !threadAbandoned {
        running := false;
      }
      state, at := Step(state, world[at]), at + 1;
    }

    /** Join the capture thread, or let it go. */
    method Settle(ghost destroy: bool) returns (status: Status)
      requires Valid() && state.control == AwaitingExit(destroy)
      modifies this`running, this`thread, this`threadAbandoned, this`at, this`state
      ensures Valid() && at >= old(at)
      ensures status.Done? || (status.RunEnds? && at == |world|)
      ensures status.Done? ==> state.control == Winding(destroy) && thread.None?
      ensures old(threadAbandoned) ==> threadAbandoned
    {
      var mine := Others();
      if !mine {
        return RunEnds;
      }
      var joined := AwaitExit(destroy);
      if joined {
        mine := Others();
        if !mine {
          return RunEnds;
        }
        Join(destroy);
      }
      status := Done;
    }

    /** The beginning of `stop`: no more waiting, no more frames. */
    method Refuse(ghost destroy: bool) returns (status: Status)
      requires Valid() && MyTurn() && world[at] == CallStop(destroy)
      modifies this`running, this`stopRequested, this`queueClosed, this`at, this`state
      ensures Valid() && at > old(at) && stopRequested
      ensures status.Done? || (status.RunEnds? && at == |world|)
      ensures status.Done? ==>
                queueClosed && state.control == if thread.Some? then AwaitingExit(destroy) else Winding(destroy)
    {
      RequestStop(destroy);
      var mine := Others();
      if !mine {
        return RunEnds;
      }
      CloseQueue(destroy);
      status := Done;
    }

    /** `stop`. When it returns, the queue is closed, nothing is left to join, and unless a
        thread was abandoned nothing runs. */
    method Stop(ghost destroy: bool) returns (status: Status)
      requires Valid() && MyTurn() && world[at] == CallStop(destroy)
      modifies this`running, this`stopRequested, this`queueClosed, this`thread, this`threadAbandoned, this`at, this`state
      ensures Valid() && at > old(at)
      ensures status.Done? || (status.RunEnds? && at == |world|)
      ensures status.Done? ==>
                && state.control == (if destroy then Deleting else Ready)
                && queueClosed && stopRequested && thread.None?
                && (running ==> threadAbandoned)
      ensures old(threadAbandoned) ==> threadAbandoned
    {
      status := Refuse(destroy);
      if status.Done? && thread.Some? {
        status := Settle(destroy);
      }
      if status.Done? {
        status := Finish(destroy);
      }
    }

    /** The end of `stop`. */
    method Finish(ghost destroy: bool) returns (status: Status)
      requires Valid() && state.control == Winding(destroy)
      modifies this`running, this`at, this`state
      ensures Valid() && at >= old(at)
      ensures status.Done? || (status.RunEnds? && at == |world|)
      ensures status.Done? ==> state.control == (if destroy then Deleting else Ready) && (running ==> threadAbandoned)
    {
      var mine := Others();
      if !mine {
        return RunEnds;
      }
      WindUp(destroy);
      status := Done;
    }

    /** `destroy`. The handle is freed exactly when no thread was ever abandoned, and then
        every thread it spawned has finished. */
    method Destroy() returns (status: Status)
      requires Valid() && MyTurn() && world[at] == CallStop(true)
      modifies this
      ensures Valid() && at > old(at)
      ensures status.Done? || (status.RunEnds? && at == |world|)
      ensures status.Done? ==> state.control.Ready? && (freed <==> !threadAbandoned)
      ensures freed ==> forall i | 0 <= i < |state.workers| :: state.workers[i].Finished?
    {
      status := Stop(true);
      if status.Done? {
        status := Free();
      }
      ReachedIsSafe(world, at, state);
    }

    method Delete()
      requires Valid() && MyTurn() && state.control.Deleting?
      modifies this`freed, this`at, this`state
      ensures Valid() && at == old(at) + 1 && state.control.Ready? && !old(freed) && freed == !threadAbandoned
    {
      ReachedNext(world, at, state);
      if !threadAbandoned {
        freed := true;
      }
      state, at := Step(state, world[at]), at + 1;
    }

    /** The last step of `destroy`. */
    method Free() returns (status: Status)
      requires Valid() && state.control.Deleting?
      modifies this`running, this`freed, this`at, this`state
      ensures Valid() && at >= old(at)
      ensures status.Done? || (status.RunEnds? && at == |world|)
      ensures status.Done? ==> state.control.Ready? && (freed <==> !threadAbandoned)
    {
      var mine := Others();
      if !mine {
        return RunEnds;
      }
      Delete();
      status := Done;
    }

    /** All the calls of a run, one after the other: the fields end up as the machine says. */
    method Live()
      requires Valid() && at == 0 && state.control.Ready?
      modifies this
      ensures Valid() && at == |world| && Legal(CREATED, world) && state == Run(CREATED, world)
    {
      var status;
      var mine := Others();
      while mine
        invariant Valid() && (mine ==> MyTurn() && state.control.Ready?)
        invariant !mine ==> at == |world|
        decreases |world| - at, mine
      {
        match world[at] {
          case CallStart => status := Start();
          case CallStop(destroy) =>
            if destroy {
              status := Destroy();
            } else {
              status := Stop(false);
            }
        }
        mine := Others();
      }
      assert world[..at] == world;
    }
  }
}
