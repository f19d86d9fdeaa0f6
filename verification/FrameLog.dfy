/** The frame queue seen from outside: a log of every accepted frame and a cursor.

    The log only grows. The cursor is one past the last frame handed to the consumer.
    What the ring still holds is the part of the log from `First()` on, where `First()`
    is pushed ahead of the cursor when the ring overflows; the distance between the two
    is the drop count that the next pop reports.
 */
module FrameLog {
  import opened Bytes

  /** What one pop hands back. `Got` and `Empty` carry the drop count the pop reported. */
  datatype PopResult<T> =
    | Got(index: nat, frame: T, discarded: nat)
    | Empty(discarded: nat)
    | Refused(discarded: nat)

  datatype Queue<T> = Queue(capacity: nat, log: seq<T>, cursor: nat, closed: bool) {

    /** A queue that was never sized has capacity 0 and has accepted nothing. */
    predicate Valid() {
      && cursor <= |log|
      && (capacity == 0 ==> log == [])
    }

    function First(): nat {
      Max(cursor, |log| - capacity)
    }

    function Contents(): seq<T>
      requires Valid()
    {
      log[First()..]
    }

    function Dropped(): nat {
      First() - cursor
    }

    predicate Full()
      requires Valid()
    {
      |Contents()| == capacity
    }

    function Push(frame: T): Queue<T> {
      if closed || capacity == 0 then this else this.(log := log + [frame])
    }

    function PopResult(): PopResult<T>
      requires Valid()
    {
      if First() < |log| then Got(First(), log[First()], Dropped())
      else if closed then Refused(Dropped())
      else Empty(Dropped())
    }

    function Pop(): Queue<T>
      requires Valid()
    {
      this.(cursor := if First() < |log| then First() + 1 else First())
    }

    function Close(): Queue<T> {
      this.(closed := true)
    }
  }

  function Fresh<T>(capacity: nat): Queue<T> {
    Queue(capacity, [], 0, false)
  }

  /** A drop count is non-zero only while the queue is full, so a pop that finds nothing
      has nothing to report: no drop count is ever swallowed. */
  lemma {:induction false} DropsOnlyWhenFull<T>(q: Queue<T>)
    requires q.Valid()
    ensures q.Dropped() > 0 ==> q.Full()
    ensures !q.PopResult().Got? ==> q.PopResult().discarded == 0 && q.Pop() == q
  {
  }

  /** One accepted push drops the oldest frame exactly when the queue was full. */
  lemma {:induction false} PushEffect<T>(q: Queue<T>, frame: T)
    requires q.Valid() && !q.closed && q.capacity > 0
    ensures var after := q.Push(frame);
            && after.Valid()
            && after.Contents() == (if q.Full() then q.Contents()[1..] else q.Contents()) + [frame]
            && after.Dropped() == q.Dropped() + (if q.Full() then 1 else 0)
  {
    var after := q.Push(frame);
    if q.Full() {
      assert after.First() == q.First() + 1;
    } else {
      assert after.First() == q.First();
    }
  }

  /** A pop takes the oldest frame if there is one; otherwise it changes nothing and says
      whether more can come. */
  lemma {:induction false} PopEffect<T>(q: Queue<T>)
    requires q.Valid()
    ensures q.Pop().Valid() && q.Pop().closed == q.closed && q.Pop().log == q.log
    ensures q.Contents() != [] ==>
              && q.PopResult() == Got(|q.log| - |q.Contents()|, q.Contents()[0], q.Dropped())
              && q.Pop().Contents() == q.Contents()[1..] && q.Pop().Dropped() == 0
    ensures q.Contents() == [] ==>
              q.Pop() == q && q.PopResult() == if q.closed then Refused(0) else Empty(0)
  {
    DropsOnlyWhenFull(q);
  }

  // ---------------------------------------------------------------------------------
  // Whole histories of one queue
  // ---------------------------------------------------------------------------------

  datatype Op<T> = DoPush(frame: T) | DoPop | DoClose

  function Apply<T>(q: Queue<T>, op: Op<T>): (r: Queue<T>)
    requires q.Valid()
    ensures r.Valid()
  {
    match op
    case DoPush(frame) => q.Push(frame)
    case DoPop => q.Pop()
    case DoClose => q.Close()
  }

  function Replay<T>(q: Queue<T>, ops: seq<Op<T>>): (r: Queue<T>)
    requires q.Valid()
    ensures r.Valid()
    decreases |ops|
  {
    if ops == [] then q else Replay(Apply(q, ops[0]), ops[1..])
  }

  /** The results of the pops among `ops`, in order. */
  function Pops<T>(q: Queue<T>, ops: seq<Op<T>>): seq<PopResult<T>>
    requires q.Valid()
    decreases |ops|
  {
    if ops == [] then []
    else (if ops[0].DoPop? then [q.PopResult()] else []) + Pops(Apply(q, ops[0]), ops[1..])
  }

  function Delivered<T>(rs: seq<PopResult<T>>): nat {
    if rs == [] then 0 else (if rs[0].Got? then 1 else 0) + Delivered(rs[1..])
  }

  function Reported<T>(rs: seq<PopResult<T>>): nat {
    if rs == [] then 0 else rs[0].discarded + Reported(rs[1..])
  }

  /** Every frame popped is the log entry it claims to be, its index is the previous one
      plus one plus the drop count that came with it, and pops that found nothing
      reported no drop. `next` is one past the index delivered before. */
  predicate Accounted<T(==)>(rs: seq<PopResult<T>>, next: nat, log: seq<T>) {
    rs == [] ||
    match rs[0]
    case Got(i, f, d) => i == next + d && i < |log| && f == log[i] && Accounted(rs[1..], i + 1, log)
    case Empty(d) => d == 0 && Accounted(rs[1..], next, log)
    case Refused(d) => d == 0 && Accounted(rs[1..], next, log)
  }

  lemma {:induction false} LogOnlyGrows<T>(q: Queue<T>, ops: seq<Op<T>>)
    requires q.Valid()
    ensures q.log <= Replay(q, ops).log && q.capacity == Replay(q, ops).capacity
    ensures q.closed ==> Replay(q, ops).closed && Replay(q, ops).log == q.log
    decreases |ops|
  {
    if ops != [] {
      LogOnlyGrows(Apply(q, ops[0]), ops[1..]);
    }
  }

  /** Over any history, in any order of pushes, pops and close. */
  lemma {:induction false} HistoryAccounted<T>(q: Queue<T>, ops: seq<Op<T>>)
    requires q.Valid()
    ensures Accounted(Pops(q, ops), q.cursor, Replay(q, ops).log)
    decreases |ops|
  {
    if ops != [] {
      var q' := Apply(q, ops[0]);
      HistoryAccounted(q', ops[1..]);
      LogOnlyGrows(q', ops[1..]);
      if ops[0].DoPop? {
        DropsOnlyWhenFull(q);
        assert Pops(q, ops)[1..] == Pops(q', ops[1..]);
      } else {
        assert Pops(q, ops) == Pops(q', ops[1..]);
      }
    }
  }

  /** Accepted frames are delivered, reported as dropped, waiting to be reported, or queued. */
  lemma {:induction false} Conservation<T>(q: Queue<T>, ops: seq<Op<T>>)
    requires q.Valid()
    ensures var r := Replay(q, ops);
            |r.log| - q.cursor ==
            Delivered(Pops(q, ops)) + Reported(Pops(q, ops)) + r.Dropped() + |r.Contents()|
    decreases |ops|
  {
    if ops != [] {
      var q' := Apply(q, ops[0]);
      Conservation(q', ops[1..]);
      if ops[0].DoPop? {
        DropsOnlyWhenFull(q);
        assert Pops(q, ops)[1..] == Pops(q', ops[1..]);
      } else {
        assert Pops(q, ops) == Pops(q', ops[1..]);
      }
    }
  }
}
