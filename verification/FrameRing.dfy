/** The frame ring: fixed-size slots in one byte array, with drop-oldest overflow.

    Every method is proved against the log-and-cursor queue of module FrameLog, kept in
    the ghost field `model`. Each method is one critical section of the ring's mutex; for
    `Pop` that is the part after the condition-variable wait has returned, which runs the
    same code whether the wait ended with a frame, a close or a timeout.
 */
module FrameRing {
  import opened Bytes
  import opened FrameLog

  /** Ring position of the i-th queued frame, for a read index inside the ring. */
  function Wrap(readIndex: nat, i: nat, capacity: nat): nat
    requires readIndex < capacity && i <= capacity
  {
    if readIndex + i < capacity then readIndex + i else readIndex + i - capacity
  }

  /** It is the remainder the ring computes. */
  lemma {:induction false} WrapIsRemainder(readIndex: nat, i: nat, capacity: nat)
    requires readIndex < capacity && i <= capacity
    ensures Wrap(readIndex, i, capacity) == (readIndex + i) % capacity
  {
    var a := readIndex + i;
    if capacity <= a {
      assert a == 1 * capacity + (a - capacity);
      assert a / capacity == 1;
    }
  }

  /** `(readIndex + i) % capacity`. */
  method StepIndex(readIndex: nat, i: nat, capacity: nat) returns (k: nat)
    requires readIndex < capacity && i <= capacity
    ensures k == Wrap(readIndex, i, capacity)
  {
    WrapIsRemainder(readIndex, i, capacity);
    k := (readIndex + i) % capacity;
  }

  /** Positions of different queued frames are different. */
  lemma {:induction false} WrapInjective(readIndex: nat, i: nat, j: nat, capacity: nat)
    requires readIndex < capacity && i < capacity && j < capacity && i != j
    ensures Wrap(readIndex, i, capacity) != Wrap(readIndex, j, capacity)
  {
  }

  /** Moving the read index on by one renumbers the queued frames by one. */
  lemma {:induction false} WrapShift(readIndex: nat, i: nat, capacity: nat)
    requires readIndex < capacity && i + 1 <= capacity
    ensures Wrap(readIndex, 1, capacity) < capacity
    ensures Wrap(Wrap(readIndex, 1, capacity), i, capacity) == Wrap(readIndex, i + 1, capacity)
  {
  }

  /** Where slot k begins: k * slotBytes, written as a sum. */
  function Base(k: nat, slotBytes: nat): nat {
    if k == 0 then 0 else Base(k - 1, slotBytes) + slotBytes
  }

  lemma {:induction false} BaseIsProduct(k: nat, slotBytes: nat)
    ensures Base(k, slotBytes) == k * slotBytes
  {
    if k > 0 {
      BaseIsProduct(k - 1, slotBytes);
      assert k * slotBytes == (k - 1) * slotBytes + slotBytes;
    }
  }

  /** A slot ends where the next begins, so slots below `limit` end at or before it. */
  lemma {:induction false} SlotInside(k: nat, limit: nat, slotBytes: nat)
    requires k < limit
    ensures Base(k, slotBytes) + slotBytes <= Base(limit, slotBytes)
    decreases limit
  {
    if k < limit - 1 {
      SlotInside(k, limit - 1, slotBytes);
    }
  }

  /** Different slots share no byte. */
  lemma {:induction false} SlotsDisjoint(j: nat, k: nat, slotBytes: nat)
    requires j != k
    ensures Base(j, slotBytes) + slotBytes <= Base(k, slotBytes)
            || Base(k, slotBytes) + slotBytes <= Base(j, slotBytes)
  {
    if j < k {
      SlotInside(j, k, slotBytes);
    } else {
      SlotInside(k, j, slotBytes);
    }
  }

  /** The bytes of slot k. */
  ghost function Slot(bytes: seq<byte>, k: nat, slotBytes: nat): Frame
    requires Base(k, slotBytes) + slotBytes <= |bytes|
  {
    bytes[Base(k, slotBytes)..Base(k, slotBytes) + slotBytes]
  }

  /** The i-th queued frame lies in the i-th slot from the read index. */
  ghost predicate Holds(bytes: seq<byte>, slotBytes: nat, capacity: nat, readIndex: nat, frames: seq<Frame>) {
    && capacity > 0
    && |bytes| == Base(capacity, slotBytes)
    && readIndex < capacity
    && |frames| <= capacity
    && forall i {:trigger Wrap(readIndex, i, capacity)} | 0 <= i < |frames| ::
         InSlot(bytes, slotBytes, Wrap(readIndex, i, capacity), frames[i])
  }

  ghost predicate InSlot(bytes: seq<byte>, slotBytes: nat, k: nat, frame: Frame) {
    Base(k, slotBytes) + slotBytes <= |bytes| && Slot(bytes, k, slotBytes) == frame
  }

  /** Bytes after `frame` has been written from position `base` on, byte by byte. */
  ghost function Overwrite(bytes: seq<byte>, base: nat, frame: Frame): (r: seq<byte>)
    requires base + |frame| <= |bytes|
    ensures |r| == |bytes|
    decreases |frame|
  {
    if frame == [] then bytes else Overwrite(bytes[base := frame[0]], base + 1, frame[1..])
  }

  lemma {:induction false} OverwriteAt(bytes: seq<byte>, base: nat, frame: Frame, m: nat)
    requires base + |frame| <= |bytes| && m < |bytes|
    ensures Overwrite(bytes, base, frame)[m] == if base <= m < base + |frame| then frame[m - base] else bytes[m]
    decreases |frame|
  {
    if frame != [] {
      OverwriteAt(bytes[base := frame[0]], base + 1, frame[1..], m);
    }
  }

  /** Writing slot k changes no other slot. */
  lemma {:induction false} OverwriteOther(bytes: seq<byte>, slotBytes: nat, j: nat, k: nat, frame: Frame, f: Frame)
    requires j != k && |frame| == slotBytes && Base(k, slotBytes) + slotBytes <= |bytes|
    requires InSlot(bytes, slotBytes, j, f)
    ensures InSlot(Overwrite(bytes, Base(k, slotBytes), frame), slotBytes, j, f)
  {
    SlotsDisjoint(j, k, slotBytes);
    var now := Overwrite(bytes, Base(k, slotBytes), frame);
    forall m | Base(j, slotBytes) <= m < Base(j, slotBytes) + slotBytes
      ensures now[m] == bytes[m]
    {
      OverwriteAt(bytes, Base(k, slotBytes), frame, m);
    }
    assert Slot(now, j, slotBytes) == Slot(bytes, j, slotBytes);
  }

  /** Slot k reads back what was written to it. */
  lemma {:induction false} OverwriteSame(bytes: seq<byte>, slotBytes: nat, k: nat, frame: Frame)
    requires |frame| == slotBytes && Base(k, slotBytes) + slotBytes <= |bytes|
    ensures InSlot(Overwrite(bytes, Base(k, slotBytes), frame), slotBytes, k, frame)
  {
    var base := Base(k, slotBytes);
    var now := Overwrite(bytes, base, frame);
    forall m | base <= m < base + slotBytes
      ensures now[m] == frame[m - base]
    {
      OverwriteAt(bytes, base, frame, m);
    }
    assert Slot(now, k, slotBytes) == frame;
  }

  /** Writing the slot after the queued frames queues one frame more. */
  lemma {:induction false} HoldsOneMore(bytes: seq<byte>, slotBytes: nat, capacity: nat, readIndex: nat, frames: seq<Frame>, frame: Frame)
    requires Holds(bytes, slotBytes, capacity, readIndex, frames)
    requires |frames| < capacity && |frame| == slotBytes
    ensures var k := Wrap(readIndex, |frames|, capacity);
            && Base(k, slotBytes) + slotBytes <= |bytes|
            && Holds(Overwrite(bytes, Base(k, slotBytes), frame), slotBytes, capacity, readIndex, frames + [frame])
  {
    var k := Wrap(readIndex, |frames|, capacity);
    SlotInside(k, capacity, slotBytes);
    var now := Overwrite(bytes, Base(k, slotBytes), frame);
    OverwriteSame(bytes, slotBytes, k, frame);
    forall i | 0 <= i < |frames|
      ensures InSlot(now, slotBytes, Wrap(readIndex, i, capacity), frames[i])
    {
      WrapInjective(readIndex, i, |frames|, capacity);
      OverwriteOther(bytes, slotBytes, Wrap(readIndex, i, capacity), k, frame, frames[i]);
    }
  }

  /** Moving the read index on by one forgets the oldest frame and keeps the others. */
  lemma {:induction false} HoldsOneLess(bytes: seq<byte>, slotBytes: nat, capacity: nat, readIndex: nat, frames: seq<Frame>)
    requires Holds(bytes, slotBytes, capacity, readIndex, frames) && frames != []
    ensures Holds(bytes, slotBytes, capacity, Wrap(readIndex, 1, capacity), frames[1..])
  {
    forall i | 0 <= i < |frames| - 1
      ensures InSlot(bytes, slotBytes, Wrap(Wrap(readIndex, 1, capacity), i, capacity), frames[1..][i])
    {
      WrapShift(readIndex, i, capacity);
    }
  }

  /** Copy `n` bytes between two arrays. */
  method Memcpy(dst: array<byte>, dstBase: nat, src: array<byte>, srcBase: nat, n: nat)
    requires dst != src && dstBase + n <= dst.Length && srcBase + n <= src.Length
    modifies dst
    ensures dst[..] == Overwrite(old(dst[..]), dstBase, src[srcBase..srcBase + n])
  {
    for m := 0 to n
      invariant dst[dstBase..dstBase + m] == src[srcBase..srcBase + m]
      invariant forall x | 0 <= x < dst.Length && !(dstBase <= x < dstBase + m) :: dst[x] == old(dst[x])
    {
      dst[dstBase + m] := src[srcBase + m];
    }
    forall m | 0 <= m < dst.Length
      ensures dst[m] == Overwrite(old(dst[..]), dstBase, src[srcBase..srcBase + n])[m]
    {
      OverwriteAt(old(dst[..]), dstBase, src[srcBase..srcBase + n], m);
      if dstBase <= m < dstBase + n {
        assert dst[m] == dst[dstBase..dstBase + n][m - dstBase];
      }
    }
  }

  /** Bytes the ring asks the allocator for; the product is taken in 64-bit `size_t`. */
  function StorageBytes(slotBytes: nat, capacity: nat): nat {
    Base(Max(capacity, 1), slotBytes) % TWO_64
  }

  /** The storage holds every slot exactly when the product does not wrap. */
  lemma {:induction false} StorageExact(slotBytes: nat, capacity: nat)
    ensures StorageBytes(slotBytes, capacity) == Max(capacity, 1) * slotBytes
            <==> Max(capacity, 1) * slotBytes < TWO_64
  {
    BaseIsProduct(Max(capacity, 1), slotBytes);
  }

  method StorageSize(slotBytes: nat, capacity: nat) returns (bytes: nat)
    ensures bytes == StorageBytes(slotBytes, capacity)
    ensures Base(Max(capacity, 1), slotBytes) < TWO_64 ==> bytes == Base(Max(capacity, 1), slotBytes)
  {
    BaseIsProduct(Max(capacity, 1), slotBytes);
    bytes := (Max(capacity, 1) * slotBytes) % TWO_64;
  }

  /** What the ring's fields and bytes must say for the ring to stand for `model`. */
  ghost predicate Stands(
    bytes: seq<byte>, slotBytes: nat, capacity: nat, count: nat, readIndex: nat, dropped: nat, closed: bool,
    model: Queue<Frame>)
  {
    && model.Valid()
    && capacity == model.capacity
    && closed == model.closed
    && count == |model.Contents()|
    && dropped == model.Dropped()
    && (slotBytes == 0 <==> capacity == 0)
    && (capacity > 0 ==> Holds(bytes, slotBytes, capacity, readIndex, model.Contents()))
    && (forall i | 0 <= i < |model.log| :: |model.log[i]| == slotBytes)
  }

  /** Pushing into a ring with room: one more slot written. */
  lemma {:induction false} PushWithRoom(
    bytes: seq<byte>, slotBytes: nat, capacity: nat, count: nat, readIndex: nat, dropped: nat, model: Queue<Frame>,
    frame: Frame)
    requires Stands(bytes, slotBytes, capacity, count, readIndex, dropped, false, model)
    requires capacity > 0 && count < capacity && |frame| == slotBytes
    ensures var base := Base(Wrap(readIndex, count, capacity), slotBytes);
            && base + slotBytes <= |bytes|
            && Stands(Overwrite(bytes, base, frame), slotBytes, capacity, count + 1, readIndex, dropped, false,
                      model.Push(frame))
  {
    PushEffect(model, frame);
    HoldsOneMore(bytes, slotBytes, capacity, readIndex, model.Contents(), frame);
  }

  /** Pushing into a full ring: the oldest slot is given up and becomes the slot written. */
  lemma {:induction false} PushWhenFull(
    bytes: seq<byte>, slotBytes: nat, capacity: nat, readIndex: nat, dropped: nat, model: Queue<Frame>, frame: Frame)
    requires Stands(bytes, slotBytes, capacity, capacity, readIndex, dropped, false, model)
    requires capacity > 0 && |frame| == slotBytes
    ensures var next := Wrap(readIndex, 1, capacity);
            var base := Base(Wrap(next, capacity - 1, capacity), slotBytes);
            && base + slotBytes <= |bytes|
            && Stands(Overwrite(bytes, base, frame), slotBytes, capacity, capacity, next, dropped + 1, false,
                      model.Push(frame))
  {
    PushEffect(model, frame);
    HoldsOneLess(bytes, slotBytes, capacity, readIndex, model.Contents());
    HoldsOneMore(bytes, slotBytes, capacity, Wrap(readIndex, 1, capacity), model.Contents()[1..], frame);
  }

  /** An empty ring with storage for all its slots. */
  lemma {:induction false} FreshStands(bytes: seq<byte>, slotBytes: nat, capacity: nat)
    requires slotBytes > 0 && capacity > 0 && |bytes| == Base(capacity, slotBytes)
    ensures Stands(bytes, slotBytes, capacity, 0, 0, 0, false, Fresh(capacity))
  {
    var model: Queue<Frame> := Fresh(capacity);
    assert model.Contents() == [];
  }

  /** Popping a non-empty ring: the slot at the read index holds the frame the queue owes. */
  lemma {:induction false} PopSome(
    bytes: seq<byte>, slotBytes: nat, capacity: nat, count: nat, readIndex: nat, dropped: nat, closed: bool,
    model: Queue<Frame>)
    requires Stands(bytes, slotBytes, capacity, count, readIndex, dropped, closed, model)
    requires count > 0
    ensures model.PopResult().Got? && model.PopResult().discarded == dropped
    ensures capacity > 0 && readIndex < capacity
    ensures InSlot(bytes, slotBytes, readIndex, model.PopResult().frame)
    ensures |model.PopResult().frame| == slotBytes
    ensures Stands(bytes, slotBytes, capacity, count - 1, Wrap(readIndex, 1, capacity), 0, closed, model.Pop())
  {
    assert InSlot(bytes, slotBytes, Wrap(readIndex, 0, capacity), model.Contents()[0]);
    HoldsOneLess(bytes, slotBytes, capacity, readIndex, model.Contents());
    assert model.Pop().Contents() == model.Contents()[1..];
  }

  class FrameQueue {
    var storage: array<byte>
    var slotBytes: nat
    var capacity: nat
    var count: nat
    var readIndex: nat
    var dropped: nat
    var closed: bool
    ghost var model: Queue<Frame>

    ghost predicate Valid()
      reads this, storage
    {
      Stands(storage[..], slotBytes, capacity, count, readIndex, dropped, closed, model)
    }

    /** A queue before its first `Init`. */
    constructor ()
      ensures Valid() && fresh(storage)
      ensures model == Fresh(0) && slotBytes == 0
    {
      storage := new byte[0];
      slotBytes, capacity, count, readIndex, dropped, closed := 0, 0, 0, 0, 0, false;
      model := Fresh(0);
    }

    /** Size the queue and empty it. `granted` is the allocator's answer. */
    method Init(slotBytes: nat, capacity: nat, granted: bool) returns (ok: bool)
      modifies this
      ensures ok <==> slotBytes > 0 && granted
      ensures !ok ==> unchanged(this)
      ensures ok ==> fresh(storage) && this.slotBytes == slotBytes
      ensures ok ==> model == Fresh(Max(capacity, 1))
      ensures ok && Base(Max(capacity, 1), slotBytes) < TWO_64 ==> Valid()
    {
      if slotBytes == 0 {
        return false;
      }
      if !granted {
        return false;
      }
      var bytes := StorageSize(slotBytes, capacity);
      storage := new byte[bytes](_ => 0);
      this.slotBytes := slotBytes;
      this.capacity := Max(capacity, 1);
      count := 0;
      readIndex := 0;
      dropped := 0;
      closed := false;
      model := Fresh(Max(capacity, 1));
      if bytes == Base(this.capacity, slotBytes) {
        FreshStands(storage[..], slotBytes, this.capacity);
      }
      return true;
    }

    /** Append a frame, discarding the oldest if the queue is full. */
    method Push(frame: array<byte>) returns (discarded: nat)
      requires Valid()
      requires frame != storage && frame.Length == slotBytes
      modifies this, storage
      ensures Valid() && storage == old(storage) && slotBytes == old(slotBytes)
      ensures model == old(model).Push(frame[..])
      ensures discarded == if !old(closed) && old(capacity) > 0 && old(model).Full() then 1 else 0
    {
      if closed || slotBytes == 0 {
        return 0;
      }
      ghost var bytes := storage[..];
      assert frame[0..0 + slotBytes] == frame[..];
      discarded := 0;
      if count == capacity {
        PushWhenFull(bytes, slotBytes, capacity, readIndex, dropped, model, frame[..]);
        readIndex := StepIndex(readIndex, 1, capacity);
        count := count - 1;
        discarded := 1;
        dropped := dropped + 1;
      } else {
        PushWithRoom(bytes, slotBytes, capacity, count, readIndex, dropped, model, frame[..]);
      }
      model := model.Push(frame[..]);
      assert storage[..] == bytes;
      Place(frame);
    }

    /** Copy `frame` into the first free slot and count it. */
    method Place(frame: array<byte>)
      requires frame != storage && frame.Length == slotBytes
      requires count <= capacity && readIndex < capacity
      requires Base(Wrap(readIndex, count, capacity), slotBytes) + slotBytes <= storage.Length
      modifies this`count, storage
      ensures count == old(count) + 1
      ensures storage[..] == Overwrite(old(storage[..]), Base(Wrap(readIndex, old(count), capacity), slotBytes), frame[..])
    {
      assert frame[0..0 + slotBytes] == frame[..];
      var writeIndex := StepIndex(readIndex, count, capacity);
      Memcpy(storage, Base(writeIndex, slotBytes), frame, 0, slotBytes);
      ghost var bytes := storage[..];
      count := count + 1;
      assert storage[..] == bytes;
    }

    /** The wait is over: take the oldest frame and the drop count. */
    method Pop(out: array<byte>) returns (result: int, discarded: nat)
      requires Valid()
      requires out != storage && out.Length >= slotBytes
      modifies this, out
      ensures Valid() && storage == old(storage) && slotBytes == old(slotBytes)
      ensures model == old(model).Pop()
      ensures discarded == old(model).PopResult().discarded
      ensures result == (match old(model).PopResult()
                         case Got(_, _, _) => 1
                         case Empty(_) => 0
                         case Refused(_) => -1)
      ensures result == 1 ==> |old(model).PopResult().frame| == slotBytes
                              && out[..] == Overwrite(old(out[..]), 0, old(model).PopResult().frame)
      ensures result != 1 ==> out[..] == old(out[..])
    {
      ghost var bytes := storage[..];
      discarded := dropped;
      dropped := 0;
      if count == 0 {
        DropsOnlyWhenFull(model);
        result := if closed then -1 else 0;
        assert storage[..] == bytes;
        return;
      }
      PopSome(bytes, slotBytes, capacity, count, readIndex, discarded, closed, model);
      assert storage[..] == bytes;
      Memcpy(out, 0, storage, Base(readIndex, slotBytes), slotBytes);
      readIndex := StepIndex(readIndex, 1, capacity);
      count := count - 1;
      model := model.Pop();
      assert storage[..] == bytes;
      result := 1;
    }

    /** Refuse further pushes. */
    method Close()
      requires Valid()
      modifies this
      ensures Valid() && storage == old(storage) && slotBytes == old(slotBytes)
      ensures model == old(model).Close()
    {
      ghost var bytes := storage[..];
      closed := true;
      model := model.Close();
      assert storage[..] == bytes;
    }

    method Size() returns (n: nat)
      requires Valid()
      ensures n == |model.Contents()|
    {
      n := count;
    }
  }
}
