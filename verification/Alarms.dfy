/** The one-shot alarm that hands a value from a callback to a waiting thread.

    Each method is one critical section of the alarm's mutex. `Wait` is the part after
    the condition-variable wait has returned: with a value if one has been rung by then,
    and otherwise because time ran out.
 */
module Alarms {
  import opened Options

  datatype Op<T> = DoRing(v: T) | DoTryRing(v: T) | DoWait | DoReset

  /** `accepted` are the values that were rung, in order; `slot` is the index of the one
      that is pending and `consumed` are the indices of those that a wait picked up. */
  datatype History<T> = History(accepted: seq<T>, slot: Option<nat>, consumed: seq<nat>) {
    function Pending(): Option<T>
      requires slot.Some? ==> slot.value < |accepted|
    {
      if slot.Some? then Some(accepted[slot.value]) else None
    }
  }

  /** One operation, as the methods of the alarm perform it. */
  function Apply<T>(h: History<T>, op: Op<T>): History<T> {
    match op
    case DoRing(v) => h.(accepted := h.accepted + [v], slot := Some(|h.accepted|))
    case DoTryRing(v) => if h.slot.Some? then h else h.(accepted := h.accepted + [v], slot := Some(|h.accepted|))
    case DoWait => if h.slot.Some? then h.(slot := None, consumed := h.consumed + [h.slot.value]) else h
    case DoReset => h.(slot := None)
  }

  function Replay<T>(h: History<T>, ops: seq<Op<T>>): History<T>
    decreases |ops|
  {
    if ops == [] then h else Replay(Apply(h, ops[0]), ops[1..])
  }

  /** Indices are consumed in increasing order, and the pending one lies beyond them. */
  ghost predicate InOrder<T>(h: History<T>) {
    && (forall i, j | 0 <= i < j < |h.consumed| :: h.consumed[i] < h.consumed[j])
    && (forall i | 0 <= i < |h.consumed| :: h.consumed[i] < |h.accepted|)
    && (h.slot.Some? ==>
          && h.slot.value == |h.accepted| - 1
          && (forall i | 0 <= i < |h.consumed| :: h.consumed[i] < h.slot.value))
  }

  /** An alarm, proved against the history of everything done to it. */
  class Alarm<T> {
    var raised: bool
    var value: T
    ghost var history: History<T>

    /** The value waiting to be picked up. */
    ghost function Pending(): Option<T>
      reads this
    {
      if raised then Some(value) else None
    }

    ghost predicate Valid()
      reads this
    {
      InOrder(history) && Pending() == history.Pending()
    }

    constructor (initial: T)
      ensures Valid() && Pending() == None && history == History([], None, [])
    {
      raised, value := false, initial;
      history := History([], None, []);
    }

    method Ring(v: T)
      requires Valid()
      modifies this
      ensures Valid() && history == Apply(old(history), DoRing(v))
      ensures Pending() == Some(v)
    {
      value := v;
      raised := true;
      history := Apply(history, DoRing(v));
    }

    /** Deliver a value only if none is pending. */
    method TryRing(v: T) returns (delivered: bool)
      requires Valid()
      modifies this
      ensures Valid() && history == Apply(old(history), DoTryRing(v))
      ensures delivered <==> old(Pending()) == None
      ensures Pending() == if delivered then Some(v) else old(Pending())
    {
      if raised {
        return false;
      }
      value := v;
      raised := true;
      history := Apply(history, DoTryRing(v));
      return true;
    }

    /** Take the pending value, if there is one; `current` is what the caller's variable
        holds otherwise. */
    method Wait(current: T) returns (ok: bool, out: T)
      requires Valid()
      modifies this
      ensures Valid() && history == Apply(old(history), DoWait)
      ensures ok <==> old(Pending()).Some?
      ensures out == if ok then old(Pending()).value else current
      ensures Pending() == None
    {
      ok := raised;
      history := Apply(history, DoWait);
      if !ok {
        return ok, current;
      }
      out := value;
      raised := false;
    }

    method Reset()
      requires Valid()
      modifies this
      ensures Valid() && history == Apply(old(history), DoReset)
      ensures Pending() == None
    {
      raised := false;
      history := Apply(history, DoReset);
    }
  }

  /** No rung value is ever consumed twice, and values are consumed in the order rung. */
  lemma {:induction false} NeverTwice<T>(h: History<T>, ops: seq<Op<T>>)
    requires InOrder(h)
    ensures InOrder(Replay(h, ops))
    decreases |ops|
  {
    if ops != [] {
      NeverTwice(Apply(h, ops[0]), ops[1..]);
    }
  }

  /** If nobody overwrites or resets, nothing rung is lost either: all of it has been
      consumed, but for the value still pending. */
  lemma {:induction false} NothingLost<T>(h: History<T>, ops: seq<Op<T>>)
    requires InOrder(h) && |h.consumed| + (if h.slot.Some? then 1 else 0) == |h.accepted|
    requires forall k | 0 <= k < |ops| :: ops[k].DoTryRing? || ops[k].DoWait?
    ensures var r := Replay(h, ops); |r.consumed| + (if r.slot.Some? then 1 else 0) == |r.accepted|
    decreases |ops|
  {
    if ops != [] {
      NothingLost(Apply(h, ops[0]), ops[1..]);
    }
  }
}
