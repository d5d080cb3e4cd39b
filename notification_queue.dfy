/** Poco::NotificationQueue: a first-in first-out queue of notifications
    between threads. A thread that finds the queue empty registers as a
    waiter; a notification enqueued while threads wait bypasses the queue
    and goes to the thread that has waited longest.

    The blocking itself is not modelled: a waiter is an identity in the
    waiter list, and what the queue tells a waiter (here is your
    notification, or wake up with none) is appended to a log of signals. */
module NotificationQueues {
  import opened Results
  import opened Seqs
  import opened Notifications

  /** The identity of a WaitInfo record, one per waiting thread. */
  type WaiterId = nat

  /** What a waiting thread is told. */
  datatype Signal =
    | Handed(waiter: WaiterId, nf: NotificationId)  // pWI->pNf = nf; nfAvailable.set()
    | Woken(waiter: WaiterId)                       // nfAvailable.set() with no notification

  /** The signals wakeUpAll sends, one per waiter in order. */
  function Wakes(waiters: seq<WaiterId>): (r: seq<Signal>)
    ensures |r| == |waiters|
    ensures forall i :: 0 <= i < |waiters| ==> r[i] == Woken(waiters[i])
  {
    if waiters == [] then [] else [Woken(waiters[0])] + Wakes(waiters[1..])
  }

  class NotificationQueue {
    /** _nfQueue, front first. */
    var queue: seq<NotificationId>
    /** _waitQueue, longest waiting first. */
    var waiters: seq<WaiterId>
    /** Every signal sent to a waiter so far, in order. */
    var signals: seq<Signal>

    /** Threads wait only while there is nothing to take. */
    ghost predicate Valid()
      reads this`queue, this`waiters
    {
      waiters != [] ==> queue == []
    }

    constructor ()
      ensures Valid() && queue == [] && waiters == [] && signals == []
    {
      queue := [];
      waiters := [];
      signals := [];
    }

    /** NotificationQueue::enqueueNotification: append at the back, or hand
        the notification to the oldest waiter. A null notification is
        refused. */
    method EnqueueNotification(nf: Option<NotificationId>) returns (r: Status)
      requires Valid()
      modifies this`queue, this`waiters, this`signals
      ensures Valid()
      ensures nf.None? ==>
        r == Failed(NullPointer) && queue == old(queue) && waiters == old(waiters) && signals == old(signals)
      ensures nf.Some? && old(waiters) == [] ==>
        r == Done && queue == old(queue) + [nf.value] && waiters == [] && signals == old(signals)
      ensures nf.Some? && old(waiters) != [] ==>
        && r == Done && queue == old(queue) == []
        && waiters == old(waiters)[1..]
        && signals == old(signals) + [Handed(old(waiters)[0], nf.value)]
    {
      if nf.None? { return Failed(NullPointer); }
      if waiters == [] {
        queue := queue + [nf.value];
      } else {
        var w := waiters[0];
        waiters := waiters[1..];
        signals := signals + [Handed(w, nf.value)];
      }
      return Done;
    }

    /** NotificationQueue::enqueueUrgentNotification: like
        enqueueNotification, but into the front of the queue. */
    method EnqueueUrgentNotification(nf: Option<NotificationId>) returns (r: Status)
      requires Valid()
      modifies this`queue, this`waiters, this`signals
      ensures Valid()
      ensures nf.None? ==>
        r == Failed(NullPointer) && queue == old(queue) && waiters == old(waiters) && signals == old(signals)
      ensures nf.Some? && old(waiters) == [] ==>
        r == Done && queue == [nf.value] + old(queue) && waiters == [] && signals == old(signals)
      ensures nf.Some? && old(waiters) != [] ==>
        && r == Done && queue == old(queue) == []
        && waiters == old(waiters)[1..]
        && signals == old(signals) + [Handed(old(waiters)[0], nf.value)]
    {
      if nf.None? { return Failed(NullPointer); }
      if waiters == [] {
        queue := [nf.value] + queue;
      } else {
        var w := waiters[0];
        waiters := waiters[1..];
        signals := signals + [Handed(w, nf.value)];
      }
      return Done;
    }

    /** NotificationQueue::dequeueOne, and dequeueNotification which calls
        it: take the front notification, or None when the queue is empty. */
    method DequeueOne() returns (r: Option<NotificationId>)
      requires Valid()
      modifies this`queue
      ensures Valid()
      ensures old(queue) == [] ==> r == None && queue == []
      ensures old(queue) != [] ==> r == Some(old(queue)[0]) && queue == old(queue)[1..]
    {
      if queue == [] { return None; }
      r := Some(queue[0]);
      queue := queue[1..];
    }

    /** The first half of waitDequeueNotification: take the front
        notification if there is one, otherwise register `waiter` at the end
        of the waiter list (None: the thread now blocks). */
    method WaitDequeueNotification(waiter: WaiterId) returns (r: Option<NotificationId>)
      requires Valid()
      modifies this`queue, this`waiters
      ensures Valid()
      ensures old(queue) != [] ==> r == Some(old(queue)[0]) && queue == old(queue)[1..] && waiters == old(waiters)
      ensures old(queue) == [] ==> r == None && queue == [] && waiters == old(waiters) + [waiter]
    {
      r := DequeueOne();
      if r.None? {
        waiters := waiters + [waiter];
      }
    }

    /** The time-out path of waitDequeueNotification(milliseconds): a
        waiter that was not signalled in time leaves the waiter list. */
    method WaitTimedOut(waiter: WaiterId)
      requires Valid()
      modifies this`waiters
      ensures Valid()
      ensures waiters == RemoveFirst(old(waiters), waiter)
    {
      var rest, found := EraseFirst(waiters, waiter);
      waiters := rest;
    }

    /** NotificationQueue::dispatch: post every queued notification to the
        center, front first, until the queue is empty. */
    method Dispatch(center: NotificationCenter)
      requires Valid()
      modifies this`queue, center`deliveries
      ensures Valid()
      ensures queue == []
      ensures center.deliveries == old(center.deliveries) + Posts(center.observers, old(queue))
    {
      ghost var done: seq<NotificationId> := [];
      ghost var observers := center.observers;
      var nf := DequeueOne();
      while nf.Some?
        invariant Valid() && center.observers == observers
        invariant nf.Some? ==> old(queue) == done + [nf.value] + queue
        invariant nf.None? ==> queue == [] && old(queue) == done
        invariant center.deliveries == old(center.deliveries) + Posts(observers, done)
        decreases |queue| + (if nf.Some? then 1 else 0)
      {
        var status := center.PostNotification(nf);
        PostsAppend(observers, done, nf.value);
        ConcatAssoc(old(center.deliveries), Posts(observers, done), Fanout(observers, nf.value));
        done := done + [nf.value];
        nf := DequeueOne();
      }
    }

    /** NotificationQueue::wakeUpAll: wake every waiter without a
        notification and empty the waiter list; the queue is untouched. */
    method WakeUpAll()
      requires Valid()
      modifies this`waiters, this`signals
      ensures Valid()
      ensures waiters == [] && signals == old(signals) + Wakes(old(waiters))
    {
      var list := waiters;
      var i := 0;
      while i < |list|
        invariant 0 <= i <= |list|
        invariant signals == old(signals) + Wakes(list[..i])
      {
        assert Wakes(list[..i + 1]) == Wakes(list[..i]) + [Woken(list[i])];
        signals := signals + [Woken(list[i])];
        i := i + 1;
      }
      assert list[..i] == list;
      waiters := [];
    }

    /** NotificationQueue::empty. */
    function Empty(): (r: bool)
      reads this`queue
      ensures r <==> Size() == 0
    {
      queue == []
    }

    /** NotificationQueue::size. */
    function Size(): (r: nat)
      reads this`queue
      ensures r == |queue|
    {
      |queue|
    }

    /** NotificationQueue::hasIdleThreads. */
    function HasIdleThreads(): (r: bool)
      reads this`waiters
      ensures r <==> |waiters| > 0
    {
      waiters != []
    }

    /** NotificationQueue::clear: drop the queued notifications; waiters
        keep waiting. */
    method Clear()
      modifies this`queue
      ensures Valid()
      ensures queue == []
    {
      queue := [];
    }

    /** NotificationQueue::remove: erase the first occurrence of `nf`;
        true when there was one. */
    method Remove(nf: NotificationId) returns (r: bool)
      requires Valid()
      modifies this`queue
      ensures Valid()
      ensures r <==> nf in old(queue)
      ensures queue == RemoveFirst(old(queue), nf)
    {
      if nf !in queue { return false; }
      queue := RemoveFirst(queue, nf);
      return true;
    }
  }
}
