/** The process-wide input queue of lib/falso_ndk/AInput.cpp: a FIFO of event
    pointers, the loopers attached to it and an eventfd in semaphore mode used
    as a wake counter. Each operation runs under the queue's mutex in the
    source and is one atomic step here. */
module InputQueue {
  import opened InputEvents

  const EAGAIN: int32 := 11

  /** An ALooper of the application, known to the queue only by identity. */
  class Looper {
    constructor ()
    {
    }
  }

  /** The `AInputEvent** outEvent` argument of AInputQueue_getEvent. */
  class EventSlot {
    var value: InputEvent?

    constructor ()
      ensures value == null
    {
      value := null;
    }
  }

  /** A non-blocking eventfd in semaphore mode. `valid` is false when
      pseudo_eventfd failed; reads and writes on it then fail. */
  class EventFd {
    const valid: bool
    var count: nat

    constructor (ok: bool)
      ensures valid == ok && count == 0
    {
      valid := ok;
      count := 0;
    }

    /** pseudo_read of 8 bytes: takes 1 off a positive counter, otherwise
        fails with EAGAIN (or with EBADF on an invalid descriptor). */
    method Read() returns (n: int)
      modifies this
      ensures valid && old(count) > 0 ==> n == 8 && count == old(count) - 1
      ensures !(valid && old(count) > 0) ==> n == -1 && count == old(count)
    {
      if valid && count > 0 {
        count := count - 1;
        n := 8;
      } else {
        n := -1;
      }
    }

    /** pseudo_write of the 8-byte payload 1. */
    method Write() returns (n: int)
      modifies this
      ensures valid ==> n == 8 && count == old(count) + 1
      ensures !valid ==> n == -1 && count == old(count)
    {
      if valid {
        count := count + 1;
        n := 8;
      } else {
        n := -1;
      }
    }

    /** The loop at the end of getEvent: read until a read would block. */
    method Drain()
      modifies this
      ensures valid ==> count == 0
      ensures !valid ==> count == old(count)
    {
      var n := Read();
      while n == 8
        invariant n == 8 || !valid || count == 0
        invariant !valid ==> count == old(count)
        decreases count + (if n == 8 then 1 else 0)
      {
        n := Read();
      }
    }
  }

  /** The abstract value of a queue: pending events in delivery order, the
      attached loopers, how many times each looper was registered with the
      dispatch fd, and the eventfd's validity and counter. */
  datatype QueueState = QueueState(
    pending: seq<InputEvent>,
    loopers: seq<Looper>,
    registered: multiset<Looper>,
    wakeValid: bool,
    wake: nat)

  function EmptyQueue(wakeValid: bool): QueueState
  {
    QueueState([], [], multiset{}, wakeValid, 0)
  }

  /** enqueueEvent: append at the tail; signal the eventfd only when the list
      has just become non-empty. */
  function Enqueued(s: QueueState, e: InputEvent): QueueState
  {
    var pending := s.pending + [e];
    s.(pending := pending,
       wake := if |pending| == 1 && s.wakeValid then s.wake + 1 else s.wake)
  }

  /** What getEvent leaves behind, writes to `*outEvent`, and returns. */
  datatype Dequeue = Dequeue(next: QueueState, event: InputEvent?, status: int32)

  /** getEvent: pop the head if there is one; whenever the list is left empty,
      drain the counter. */
  function Dequeued(s: QueueState): Dequeue
  {
    var event: InputEvent? := if s.pending == [] then null else s.pending[0];
    var rest := if s.pending == [] then [] else s.pending[1..];
    var wake := if rest == [] && s.wakeValid then 0 else s.wake;
    Dequeue(s.(pending := rest, wake := wake), event, if event != null then 0 else -EAGAIN)
  }

  /** attachLooper: a looper already attached is ignored; a new one is appended
      and registered once. */
  function Attached(s: QueueState, l: Looper): QueueState
  {
    if l in s.loopers then s
    else s.(loopers := s.loopers + [l], registered := s.registered + multiset{l})
  }

  /** ALooper_removeFd for each looper of `ls`, in order. */
  function Unwatched(m: multiset<Looper>, ls: seq<Looper>): multiset<Looper>
  {
    if ls == [] then m else Unwatched(m, ls[..|ls| - 1])[ls[|ls| - 1] := 0]
  }

  /** detachLooper: unregister every attached looper, then forget them all. */
  function Detached(s: QueueState): QueueState
  {
    s.(loopers := [], registered := Unwatched(s.registered, s.loopers))
  }

  ghost predicate NoDuplicates(ls: seq<Looper>)
  {
    forall i, j :: 0 <= i < j < |ls| ==> ls[i] != ls[j]
  }

  /** The queue's invariant: each attached looper is attached once and
      registered exactly once, and the wake counter is 1 exactly while events
      are pending (0 otherwise). */
  ghost predicate Inv(s: QueueState)
  {
    && NoDuplicates(s.loopers)
    && s.registered == multiset(s.loopers)
    && s.wake == (if s.wakeValid && s.pending != [] then 1 else 0)
  }

  lemma EmptyQueueInv(wakeValid: bool)
    ensures Inv(EmptyQueue(wakeValid))
  {
  }

  /** The counter is positive exactly when events are pending. */
  lemma WakeTracksPending(s: QueueState)
    requires Inv(s) && s.wakeValid
    ensures s.wake > 0 <==> s.pending != []
  {
  }

  lemma EnqueuedInv(s: QueueState, e: InputEvent)
    requires Inv(s)
    ensures Inv(Enqueued(s, e))
  {
  }

  lemma DequeuedInv(s: QueueState)
    requires Inv(s)
    ensures Inv(Dequeued(s).next)
  {
  }

  lemma AttachedInv(s: QueueState, l: Looper)
    requires Inv(s)
    ensures Inv(Attached(s, l))
  {
  }

  lemma {:induction false} UnwatchedClears(m: multiset<Looper>, ls: seq<Looper>)
    ensures forall l :: l in ls ==> Unwatched(m, ls)[l] == 0
    ensures forall l :: l !in ls ==> Unwatched(m, ls)[l] == m[l]
  {
    if ls != [] {
      var init := ls[..|ls| - 1];
      UnwatchedClears(m, init);
      assert ls == init + [ls[|ls| - 1]];
    }
  }

  /** Detaching leaves no registration behind. */
  lemma DetachedInv(s: QueueState)
    requires Inv(s)
    ensures Inv(Detached(s)) && Detached(s).registered == multiset{}
  {
    UnwatchedClears(s.registered, s.loopers);
    var m := Unwatched(s.registered, s.loopers);
    forall l | true
      ensures m[l] == 0
    {
      if l !in s.loopers {
        assert multiset(s.loopers)[l] == 0;
      }
    }
    if m != multiset{} {
      var l :| l in m;
      assert false;
    }
  }

  /** A looper attached twice is registered once. */
  lemma AttachTwiceRegistersOnce(s: QueueState, l: Looper)
    requires Inv(s) && l !in s.loopers
    ensures Attached(Attached(s, l), l) == Attached(s, l)
    ensures Attached(s, l).registered[l] == 1
    ensures Attached(s, l).loopers == s.loopers + [l]
  {
    assert multiset(s.loopers)[l] == 0;
  }

  function EnqueueAll(s: QueueState, es: seq<InputEvent>): QueueState
    decreases |es|
  {
    if es == [] then s else EnqueueAll(Enqueued(s, es[0]), es[1..])
  }

  /** The events written to `*outEvent` by `n` successive getEvent calls. */
  function DequeueAll(s: QueueState, n: nat): seq<InputEvent?>
    decreases n
  {
    if n == 0 then [] else
      var d := Dequeued(s);
      [d.event] + DequeueAll(d.next, n - 1)
  }

  lemma {:induction false} EnqueueAllAppends(s: QueueState, es: seq<InputEvent>)
    ensures EnqueueAll(s, es).pending == s.pending + es
    decreases |es|
  {
    if es != [] {
      EnqueueAllAppends(Enqueued(s, es[0]), es[1..]);
      assert [es[0]] + es[1..] == es;
    }
  }

  lemma {:induction false} DequeueAllTakesInOrder(s: QueueState)
    ensures DequeueAll(s, |s.pending|) == s.pending
    decreases |s.pending|
  {
    if s.pending != [] {
      var d := Dequeued(s);
      DequeueAllTakesInOrder(d.next);
      assert [s.pending[0]] + s.pending[1..] == s.pending;
    }
  }

  /** FIFO: n enqueues on an empty queue followed by n getEvent calls yield the
      events in enqueue order, and a further getEvent reports EAGAIN. */
  lemma Fifo(s: QueueState, es: seq<InputEvent>)
    requires s.pending == []
    ensures DequeueAll(EnqueueAll(s, es), |es|) == es
    ensures Dequeued(DequeueAllState(EnqueueAll(s, es), |es|)).status == -EAGAIN
  {
    EnqueueAllAppends(s, es);
    DequeueAllTakesInOrder(EnqueueAll(s, es));
    DequeueAllEmpties(EnqueueAll(s, es));
  }

  /** The state left by `n` successive getEvent calls. */
  function DequeueAllState(s: QueueState, n: nat): QueueState
    decreases n
  {
    if n == 0 then s else DequeueAllState(Dequeued(s).next, n - 1)
  }

  lemma {:induction false} DequeueAllEmpties(s: QueueState)
    ensures DequeueAllState(s, |s.pending|).pending == []
    decreases |s.pending|
  {
    if s.pending != [] {
      DequeueAllEmpties(Dequeued(s).next);
    }
  }

  /** The queue object. */
  class InputQueue {
    const dispatch: EventFd
    var pending: seq<InputEvent>
    var loopers: seq<Looper>
    var registered: multiset<Looper>

    ghost function State(): QueueState
      reads this, dispatch
    {
      QueueState(pending, loopers, registered, dispatch.valid, dispatch.count)
    }

    ghost predicate Valid()
      reads this, dispatch
    {
      Inv(State())
    }

    /** `new inputQueue()` with its eventfd; `eventfdOk` says whether
        pseudo_eventfd succeeded. */
    constructor (eventfdOk: bool)
      ensures fresh(dispatch)
      ensures State() == EmptyQueue(eventfdOk) && Valid()
    {
      dispatch := new EventFd(eventfdOk);
      pending := [];
      loopers := [];
      registered := multiset{};
    }
  }

  /** Process-wide state: the `g_AInputQueue` singleton. */
  class Globals {
    var inputQueue: InputQueue?

    constructor ()
      ensures inputQueue == null
    {
      inputQueue := null;
    }

    /** AInputQueue_create: the first call creates the queue, every later call
        returns the same queue and creates nothing. */
    method CreateQueue(eventfdOk: bool) returns (q: InputQueue)
      modifies this
      ensures old(inputQueue) != null ==> q == old(inputQueue)
      ensures old(inputQueue) == null ==>
                fresh(q) && fresh(q.dispatch) && q.State() == EmptyQueue(eventfdOk)
      ensures inputQueue == q
    {
      if inputQueue != null {
        return inputQueue;
      }
      q := new InputQueue(eventfdOk);
      inputQueue := q;
    }
  }

  /** The linear scan of attachLooper over the attached loopers. */
  method FindLooper(ls: seq<Looper>, l: Looper) returns (found: bool)
    ensures found <==> l in ls
  {
    var i := 0;
    while i < |ls|
      invariant 0 <= i <= |ls|
      invariant l !in ls[..i]
    {
      if ls[i] == l {
        return true;
      }
      i := i + 1;
    }
    assert ls[..i] == ls;
    return false;
  }

  /** AInputQueue_attachLooper; the ident, callback and data are handed to
      ALooper_addFd and play no part here. */
  method AttachLooper(queue: InputQueue?, looper: Looper?)
    modifies queue
    ensures queue != null && looper != null ==>
              queue.State() == Attached(old(queue.State()), looper)
    ensures queue != null && looper == null ==> unchanged(queue)
    ensures queue != null && old(queue.Valid()) ==> queue.Valid()
  {
    if queue == null || looper == null {
      return;
    }
    var found := FindLooper(queue.loopers, looper);
    if found {
      return;
    }
    queue.loopers := queue.loopers + [looper];
    queue.registered := queue.registered + multiset{looper};
    if old(queue.Valid()) {
      AttachedInv(old(queue.State()), looper);
    }
  }

  /** AInputQueue_detachLooper. */
  method DetachLooper(queue: InputQueue?)
    modifies queue
    ensures queue != null ==> queue.State() == Detached(old(queue.State()))
    ensures queue != null && old(queue.Valid()) ==> queue.Valid() && queue.registered == multiset{}
  {
    if queue == null {
      return;
    }
    var i := 0;
    while i < |queue.loopers|
      invariant 0 <= i <= |queue.loopers|
      invariant queue.loopers == old(queue.loopers) && queue.pending == old(queue.pending)
      invariant queue.registered == Unwatched(old(queue.registered), queue.loopers[..i])
    {
      assert queue.loopers[..i + 1][..i] == queue.loopers[..i];
      queue.registered := queue.registered[queue.loopers[i] := 0];
      i := i + 1;
    }
    assert queue.loopers[..i] == queue.loopers;
    queue.loopers := [];
    if old(queue.Valid()) {
      DetachedInv(old(queue.State()));
    }
  }

  /** AInputQueue_getEvent. A null queue or null `outEvent` returns -1 and
      touches nothing. */
  method GetEvent(queue: InputQueue?, outEvent: EventSlot?) returns (status: int32)
    modifies if queue == null then {} else {queue, queue.dispatch}, outEvent
    ensures queue == null || outEvent == null ==> status == -1
    ensures queue == null || outEvent == null ==>
              (queue != null ==> unchanged(queue, queue.dispatch)) &&
              (outEvent != null ==> unchanged(outEvent))
    ensures queue != null && outEvent != null ==>
              var d := Dequeued(old(queue.State()));
              queue.State() == d.next && outEvent.value == d.event && status == d.status
    ensures queue != null && old(queue.Valid()) ==> queue.Valid()
  {
    if queue == null || outEvent == null {
      return -1;
    }
    outEvent.value := null;
    if queue.pending != [] {
      outEvent.value := queue.pending[0];
      queue.pending := queue.pending[1..];
    }
    if queue.pending == [] {
      queue.dispatch.Drain();
    }
    status := if outEvent.value != null then 0 else -EAGAIN;
    if old(queue.Valid()) {
      DequeuedInv(old(queue.State()));
    }
  }

  /** AInputQueue_enqueueEvent; a null queue or event is ignored. */
  method EnqueueEvent(queue: InputQueue?, event: InputEvent?)
    modifies if queue == null then {} else {queue, queue.dispatch}
    ensures queue != null && event != null ==>
              queue.State() == Enqueued(old(queue.State()), event)
    ensures queue != null && event == null ==> unchanged(queue, queue.dispatch)
    ensures queue != null && old(queue.Valid()) ==> queue.Valid()
  {
    if queue == null || event == null {
      return;
    }
    queue.pending := queue.pending + [event];
    if |queue.pending| == 1 {
      var _ := queue.dispatch.Write();
    }
    if old(queue.Valid()) {
      EnqueuedInv(old(queue.State()), event);
    }
  }

  /** AInputQueue_preDispatchEvent: never pre-dispatches. */
  function PreDispatchEvent(queue: InputQueue?, event: InputEvent?): (r: int32)
    ensures r == 0
  {
    0
  }

  /** AInputQueue_finishEvent: frees a non-null event whatever `handled` says. */
  method FinishEvent(heap: EventHeap, queue: InputQueue?, event: InputEvent?, handled: int32)
    requires event == null || event in heap.live
    modifies heap
    ensures heap.live == if event == null then old(heap.live) else old(heap.live) - {event}
  {
    heap.Free(event);
  }
}
