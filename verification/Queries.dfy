/** The control queries: asynchronous requests to the audio server whose callbacks ring
    an alarm that the asking thread waits on. */
module Queries {
  import opened Alarms
  import opened Options
  import opened Targets

  /** Why a query failed. */
  datatype Fault =
    | NoFault
    | NotConnected
    | NoOperation(detail: string)
    | NoAnswer
    | NoServerInfo
    | NoDefaultSink
    | EmptyDefaultSink
    | LookupFailed(detail: string)
    | NoMonitor

  datatype Result = Result(ok: bool, value: string, fault: Fault)

  function Failure(fault: Fault): Result {
    Result(false, "", fault)
  }

  /** What the server-info callback can be called with. */
  datatype ServerCall = NullInfo | NullName | DefaultIs(name: string)

  /** What the sink-info callback can be called with: an error, the end of the list, a
      sink without a monitor, or one with. */
  datatype SinkCall = Error(detail: string) | EndOfList | Monitorless | MonitorIs(name: string)

  /** Either kind of callback. */
  datatype Call = OfServer(server: ServerCall) | OfSink(sink: SinkCall)

  /** What a callback has to say, if anything. */
  function Answer(call: Call): Option<Result> {
    match call
    case OfServer(NullInfo) => Some(Failure(NoServerInfo))
    case OfServer(NullName) => Some(Failure(NoDefaultSink))
    case OfServer(DefaultIs(name)) => Some(Result(true, name, NoFault))
    case OfSink(Error(detail)) => Some(Failure(LookupFailed(detail)))
    case OfSink(EndOfList) => None
    case OfSink(Monitorless) => Some(Failure(Fault.NoMonitor))
    case OfSink(MonitorIs(name)) => Some(Result(true, name, NoFault))
  }

  /** The answer of the first callback that is not the end of the list. */
  function FirstAnswer(calls: seq<Call>): Option<Result> {
    if calls == [] then None
    else if Answer(calls[0]).Some? then Answer(calls[0])
    else FirstAnswer(calls[1..])
  }

  /** How a request went: whether libpulse took it, the callbacks in order, and how many
      of them had come when the wait ended. */
  datatype Request = Request(issued: bool, detail: string, calls: seq<Call>, arrived: nat)

  predicate WellFormed(r: Request) {
    r.arrived <= |r.calls|
  }

  /** What the asking thread learns. */
  function Outcome(r: Request): Result
    requires WellFormed(r)
  {
    if !r.issued then Failure(NoOperation(r.detail))
    else match FirstAnswer(r.calls[..r.arrived])
      case Some(result) => result
      case None => Failure(NoAnswer)
  }

  /** Waiting longer cannot change an answer that has come, and end-of-list callbacks
      never make one. */
  lemma {:induction false} FirstAnswerStands(calls: seq<Call>, n: nat)
    requires n <= |calls| && FirstAnswer(calls[..n]).Some?
    ensures FirstAnswer(calls) == FirstAnswer(calls[..n])
  {
    assert n > 0;
    assert calls[..n][0] == calls[0] && calls[..n][1..] == calls[1..][..n - 1];
    if Answer(calls[0]).None? {
      FirstAnswerStands(calls[1..], n - 1);
    }
  }

  lemma {:induction false} FirstAnswerAppend(calls: seq<Call>, call: Call)
    ensures FirstAnswer(calls + [call]) ==
            if FirstAnswer(calls).Some? then FirstAnswer(calls) else Answer(call)
  {
    if calls == [] {
      assert calls + [call] == [call];
      assert [call][1..] == [];
    } else {
      assert (calls + [call])[1..] == calls[1..] + [call];
      FirstAnswerAppend(calls[1..], call);
    }
  }

  // ---------------------------------------------------------------------------------
  // What a query promises, said of the callbacks themselves
  // ---------------------------------------------------------------------------------

  /** Callback k came in time and is the first that is not the end of the list. */
  predicate First(r: Request, k: nat) {
    && k < r.arrived && k < |r.calls|
    && r.calls[k] != OfSink(EndOfList)
    && forall j | 0 <= j < k :: r.calls[j] == OfSink(EndOfList)
  }

  /** The first callback names `name`. */
  ghost predicate Gives(r: Request, name: string) {
    && r.issued
    && exists k: nat :: First(r, k) && (r.calls[k] == OfServer(DefaultIs(name)) || r.calls[k] == OfSink(MonitorIs(name)))
  }

  /** The callback reports `fault`. */
  predicate Reports(call: Call, fault: Fault) {
    || (call == OfServer(NullInfo) && fault == NoServerInfo)
    || (call == OfServer(NullName) && fault == NoDefaultSink)
    || (call == OfSink(Monitorless) && fault == Fault.NoMonitor)
    || (call.OfSink? && call.sink.Error? && fault == LookupFailed(call.sink.detail))
  }

  /** The query fails, and why: it was not issued, the first callback reports a fault, or
      nothing but the end of the list came in time. */
  ghost predicate Fails(r: Request, fault: Fault) {
    || (!r.issued && fault == NoOperation(r.detail))
    || (r.issued && exists k: nat :: First(r, k) && Reports(r.calls[k], fault))
    || (r.issued && fault == NoAnswer && forall j | 0 <= j < |r.calls| && j < r.arrived :: r.calls[j] == OfSink(EndOfList))
  }

  lemma {:induction false} FirstAnswerIsFirst(calls: seq<Call>, k: nat)
    requires k < |calls| && calls[k] != OfSink(EndOfList)
    requires forall j | 0 <= j < k :: calls[j] == OfSink(EndOfList)
    ensures FirstAnswer(calls) == Answer(calls[k])
  {
    if k > 0 {
      assert calls[1..][k - 1] == calls[k];
      FirstAnswerIsFirst(calls[1..], k - 1);
    }
  }

  lemma {:induction false} NoneAnswers(calls: seq<Call>)
    requires forall j | 0 <= j < |calls| :: calls[j] == OfSink(EndOfList)
    ensures FirstAnswer(calls) == None
  {
    if calls != [] {
      NoneAnswers(calls[1..]);
    }
  }

  /** The first callback that is not the end of the list, if there is one among the first n. */
  lemma {:induction false} FindFirst(r: Request, n: nat) returns (k: nat)
    requires n <= r.arrived && n <= |r.calls|
    ensures k <= n && forall j | 0 <= j < k :: r.calls[j] == OfSink(EndOfList)
    ensures k < n ==> First(r, k)
  {
    k := 0;
    while k < n && r.calls[k] == OfSink(EndOfList)
      invariant k <= n && forall j | 0 <= j < k :: r.calls[j] == OfSink(EndOfList)
    {
      k := k + 1;
    }
  }

  /** What the asking thread learns is what the callbacks say, and nothing else. */
  lemma {:induction false} OutcomeExactly(r: Request)
    requires WellFormed(r)
    ensures Outcome(r).ok ==> Gives(r, Outcome(r).value)
    ensures !Outcome(r).ok ==> Fails(r, Outcome(r).fault)
    ensures forall name | Gives(r, name) :: Outcome(r).ok && Outcome(r).value == name
    ensures forall fault | Fails(r, fault) :: !Outcome(r).ok && Outcome(r).fault == fault
  {
    var came := r.calls[..r.arrived];
    var k := FindFirst(r, r.arrived);
    if k < r.arrived {
      FirstAnswerIsFirst(came, k);
      FirstIsUnique(r, k);
    } else {
      NoneAnswers(came);
    }
  }

  lemma {:induction false} FirstIsUnique(r: Request, k: nat)
    requires First(r, k)
    ensures forall m: nat | First(r, m) :: m == k
    ensures r.calls[k] != OfSink(EndOfList)
  {
  }

  class Control {
    /** The context exists. */
    var connected: bool
    var ready: bool
    var failed: bool
    var terminated: bool
    var error: Fault

    constructor ()
      ensures !connected && !ready && !failed && !terminated && error == NoFault
    {
      connected, ready, failed, terminated, error := false, false, false, false, NoFault;
    }

    /** The context reached the ready state and is still alive. */
    predicate Usable()
      reads this
    {
      connected && ready && !failed && !terminated
    }

    /** `server_info_callback` or `sink_info_callback`. */
    method Callback(alarm: Alarm<Result>, call: Call)
      requires alarm.Valid()
      modifies alarm
      ensures alarm.Valid()
      ensures alarm.Pending() == if old(alarm.Pending()).Some? then old(alarm.Pending()) else Answer(call)
      ensures old(alarm.Pending()).None? ==>
                && (call == OfSink(EndOfList) <==> alarm.Pending().None?)
                && (forall name | call == OfServer(DefaultIs(name)) || call == OfSink(MonitorIs(name)) ::
                      alarm.Pending() == Some(Result(true, name, NoFault)))
                && (forall fault | Reports(call, fault) :: alarm.Pending() == Some(Result(false, "", fault)))
    {
      match call
      case OfServer(NullInfo) => var _ := alarm.TryRing(Failure(NoServerInfo));
      case OfServer(NullName) => var _ := alarm.TryRing(Failure(NoDefaultSink));
      case OfServer(DefaultIs(name)) => var _ := alarm.TryRing(Result(true, name, NoFault));
      case OfSink(Error(detail)) => var _ := alarm.TryRing(Failure(LookupFailed(detail)));
      case OfSink(EndOfList) =>
      case OfSink(Monitorless) => var _ := alarm.TryRing(Failure(Fault.NoMonitor));
      case OfSink(MonitorIs(name)) => var _ := alarm.TryRing(Result(true, name, NoFault));
    }

    /** One query: issue the request, wait for the alarm, hand out the value or record the
        fault. `current` is what the caller's variable holds before. */
    method Query(request: Request, current: string) returns (ok: bool, out: string)
      requires WellFormed(request)
      modifies this`error
      ensures ok ==> Gives(request, out) && error == old(error)
      ensures !ok ==> Fails(request, error) && out == current
      ensures forall name | Gives(request, name) :: ok && out == name
      ensures forall fault | Fails(request, fault) :: !ok && error == fault
      ensures ok == Outcome(request).ok && (ok ==> out == Outcome(request).value) && (!ok ==> error == Outcome(request).fault)
    {
      OutcomeExactly(request);
      var alarm := new Alarm<Result>(Failure(NoFault));
      if !request.issued {
        error := NoOperation(request.detail);
        return false, current;
      }
      for i := 0 to request.arrived
        invariant fresh(alarm) && alarm.Valid() && error == old(error)
        invariant alarm.Pending() == FirstAnswer(request.calls[..i])
      {
        assert request.calls[..i + 1] == request.calls[..i] + [request.calls[i]];
        FirstAnswerAppend(request.calls[..i], request.calls[i]);
        Callback(alarm, request.calls[i]);
      }
      var rung, result := alarm.Wait(Failure(NoFault));
      if !rung {
        error := NoAnswer;
        return false, current;
      }
      if !result.ok {
        error := result.fault;
        return false, current;
      }
      return true, result.value;
    }

    /** Resolve what to capture: the requested sink or the default one, and its monitor.
        `forMonitor` is how the lookup of each sink goes. */
    method ResolveTarget(requested: string, target: Target, forDefault: Request, forMonitor: string -> Request)
      returns (ok: bool, out: Target)
      requires WellFormed(forDefault) && forall sink :: WellFormed(forMonitor(sink))
      modifies this`error
      ensures ok ==> old(Usable()) && Chosen(requested, forDefault, out.sink) && Gives(forMonitor(out.sink), out.monitor)
      ensures old(Usable()) <==> old(connected && ready && !failed && !terminated)
      ensures ok ==> error == old(error)
      ensures !ok ==> out == target && Unresolved(requested, forDefault, forMonitor, old(Usable()), error)
      ensures forall sink, monitor |
                old(Usable()) && Chosen(requested, forDefault, sink) && Gives(forMonitor(sink), monitor) ::
                ok && out == Target(sink, monitor)
      ensures forall fault | Unresolved(requested, forDefault, forMonitor, old(Usable()), fault) :: !ok && error == fault
    {
      out := target;
      if !Usable() {
        error := NotConnected;
        return false, out;
      }
      var sink := requested;
      if sink == "" {
        ok, sink := Query(forDefault, sink);
        if !ok {
          return;
        }
        if sink == "" {
          error := EmptyDefaultSink;
          return false, out;
        }
      }
      var monitor;
      ok, monitor := Query(forMonitor(sink), "");
      if !ok {
        return;
      }
      out := Target(sink, monitor);
    }
  }

  /** The sink to look up: the one asked for, or else the default, if it has a name. */
  ghost predicate Chosen(requested: string, forDefault: Request, sink: string) {
    if requested == "" then Gives(forDefault, sink) && sink != "" else sink == requested
  }

  /** What stood in the way, first things first. */
  ghost predicate Unresolved(
    requested: string, forDefault: Request, forMonitor: string -> Request, usable: bool, fault: Fault)
  {
    || (!usable && fault == NotConnected)
    || (usable && requested == "" && Fails(forDefault, fault))
    || (usable && requested == "" && Gives(forDefault, "") && fault == EmptyDefaultSink)
    || (usable && exists sink :: Chosen(requested, forDefault, sink) && Fails(forMonitor(sink), fault))
  }

  /** A query returns the first callback that is not the end of the list, however long it
      waits after it. */
  lemma {:induction false} QueryIsFirstAnswer(r: Request, later: Request)
    requires WellFormed(r) && WellFormed(later)
    requires later == r.(arrived := later.arrived) && later.arrived >= r.arrived
    requires r.issued && FirstAnswer(r.calls[..r.arrived]).Some?
    ensures Outcome(later) == Outcome(r)
    ensures FirstAnswer(r.calls) == Some(Outcome(r))
  {
    FirstAnswerStands(r.calls, r.arrived);
    assert r.calls[..later.arrived][..r.arrived] == r.calls[..r.arrived];
    FirstAnswerStands(r.calls[..later.arrived], r.arrived);
  }
}
