/** Poco::PriorityNotificationQueue: the notification queue of
    NotificationQueues, ordered by priority. Entries sit in a multimap from
    priority to notification: the smallest priority value comes out first,
    and entries of equal priority come out in the order they went in. */
module PriorityNotificationQueues {
  import opened Results
  import opened Seqs
  import opened Notifications
  import opened NotificationQueues

  /** One element of the multimap. */
  datatype Entry = Entry(priority: int, nf: NotificationId)

  /** Ordered by priority, smallest first: the iteration order of a
      std::multimap<int, ...>. */
  ghost predicate Ordered(q: seq<Entry>) {
    forall i, j :: 0 <= i < j < |q| ==> q[i].priority <= q[j].priority
  }

  /** Where std::multimap::insert puts an entry of priority p: after every
      entry whose priority is at most p (the upper bound of p's range). */
  function UpperBound(q: seq<Entry>, p: int): (k: nat)
    ensures k <= |q|
    ensures forall i :: 0 <= i < k ==> q[i].priority <= p
    ensures Ordered(q) ==> forall i :: k <= i < |q| ==> q[i].priority > p
  {
    if q == [] || q[0].priority > p then 0 else 1 + UpperBound(q[1..], p)
  }

  function Insert(q: seq<Entry>, e: Entry): seq<Entry> {
    var k := UpperBound(q, e.priority);
    q[..k] + [e] + q[k..]
  }

  /** Inserting places the new entry behind every entry of at most its
      priority already there, and before every entry of a greater one. */
  lemma InsertShape(q: seq<Entry>, e: Entry)
    ensures var k := UpperBound(q, e.priority);
      && |Insert(q, e)| == |q| + 1
      && Insert(q, e)[k] == e
      && (forall i :: 0 <= i < k ==> Insert(q, e)[i] == q[i] && q[i].priority <= e.priority)
      && (forall i :: k <= i < |q| ==> Insert(q, e)[i + 1] == q[i])
  {
    var k := UpperBound(q, e.priority);
    var a, b := q[..k], q[k..];
    var r := a + [e] + b;
    assert Insert(q, e) == r;
    assert |r| == |q| + 1 && r[k] == e;
    forall i | 0 <= i < k ensures r[i] == q[i] {
      assert r[i] == a[i];
    }
    forall i | k <= i < |q| ensures r[i + 1] == q[i] {
      assert r[i + 1] == b[i - k];
    }
  }

  /** Inserting keeps the multimap ordered. */
  lemma InsertOrdered(q: seq<Entry>, e: Entry)
    requires Ordered(q)
    ensures Ordered(Insert(q, e))
    ensures forall i :: UpperBound(q, e.priority) <= i < |q| ==> q[i].priority > e.priority
  {
    var k := UpperBound(q, e.priority);
    var r := Insert(q, e);
    InsertShape(q, e);
    forall i, j | 0 <= i < j < |r| ensures r[i].priority <= r[j].priority {
      if j < k {
        assert r[i] == q[i] && r[j] == q[j];
      } else if j == k {
        assert r[i] == q[i];
      } else if i < k {
        assert r[i] == q[i] && r[j] == q[j - 1];
      } else if i == k {
        assert r[j] == q[j - 1];
      } else {
        assert r[i] == q[i - 1] && r[j] == q[j - 1];
      }
    }
  }

  /** Inserting adds exactly the new entry. */
  lemma InsertMultiset(q: seq<Entry>, e: Entry)
    ensures multiset(Insert(q, e)) == multiset(q) + multiset{e}
  {
    var k := UpperBound(q, e.priority);
    var a, b := q[..k], q[k..];
    assert q == a + b;
    assert Insert(q, e) == a + [e] + b;
    assert multiset(a + [e] + b) == multiset(a) + multiset{e} + multiset(b);
  }

  /** The notifications of a sequence of entries, in order. */
  function Nfs(q: seq<Entry>): (r: seq<NotificationId>)
    ensures |r| == |q|
    ensures forall i :: 0 <= i < |q| ==> r[i] == q[i].nf
  {
    if q == [] then [] else [q[0].nf] + Nfs(q[1..])
  }

  /** Posting one more entry adds its fan-out at the end. */
  lemma PostsEntriesAppend(observers: seq<Observer>, done: seq<Entry>, e: Entry)
    ensures Posts(observers, Nfs(done + [e])) == Posts(observers, Nfs(done)) + Fanout(observers, e.nf)
  {
    assert Nfs(done + [e]) == Nfs(done) + [e.nf];
    PostsAppend(observers, Nfs(done), e.nf);
  }

  class PriorityNotificationQueue {
    /** _nfQueue in iteration order. */
    var queue: seq<Entry>
    var waiters: seq<WaiterId>
    var signals: seq<Signal>

    /** The multimap is ordered, and threads wait only while it is empty:
        the poco_assert_dbg of enqueueNotification. */
    ghost predicate Valid()
      reads this`queue, this`waiters
    {
      Ordered(queue) && (waiters != [] ==> queue == [])
    }

    constructor ()
      ensures Valid() && queue == [] && waiters == [] && signals == []
    {
      queue := [];
      waiters := [];
      signals := [];
    }

    /** PriorityNotificationQueue::enqueueNotification: insert by priority,
        or hand the notification to the oldest waiter. A null notification is
        refused. */
    method EnqueueNotification(nf: Option<NotificationId>, priority: int) returns (r: Status)
      requires Valid()
      modifies this`queue, this`waiters, this`signals
      ensures Valid()
      ensures nf.None? ==>
        r == Failed(NullPointer) && queue == old(queue) && waiters == old(waiters) && signals == old(signals)
      ensures nf.Some? && old(waiters) == [] ==>
        && r == Done && queue == Insert(old(queue), Entry(priority, nf.value))
        && waiters == [] && signals == old(signals)
      ensures nf.Some? && old(waiters) != [] ==>
        && r == Done && queue == old(queue) == []
        && waiters == old(waiters)[1..]
        && signals == old(signals) + [Handed(old(waiters)[0], nf.value)]
    {
      if nf.None? { return Failed(NullPointer); }
      if waiters == [] {
        InsertOrdered(queue, Entry(priority, nf.value));
        InsertMultiset(queue, Entry(priority, nf.value));
        queue := Insert(queue, Entry(priority, nf.value));
      } else {
        assert queue == [];
        var w := waiters[0];
        waiters := waiters[1..];
        signals := signals + [Handed(w, nf.value)];
      }
      return Done;
    }

    /** PriorityNotificationQueue::dequeueOne, and dequeueNotification which
        calls it: take the first entry, whose priority is the smallest. */
    method DequeueOne() returns (r: Option<NotificationId>)
      requires Valid()
      modifies this`queue
      ensures Valid()
      ensures old(queue) == [] ==> r == None && queue == []
      ensures old(queue) != [] ==> r == Some(old(queue)[0].nf) && queue == old(queue)[1..]
      ensures old(queue) != [] ==> forall i :: 0 <= i < |old(queue)| ==> old(queue)[0].priority <= old(queue)[i].priority
    {
      if queue == [] { return None; }
      r := Some(queue[0].nf);
      queue := queue[1..];
    }

    /** The first half of waitDequeueNotification: take the first entry if
        there is one, otherwise register `waiter` (None: the thread blocks). */
    method WaitDequeueNotification(waiter: WaiterId) returns (r: Option<NotificationId>)
      requires Valid()
      modifies this`queue, this`waiters
      ensures Valid()
      ensures old(queue) != [] ==> r == Some(old(queue)[0].nf) && queue == old(queue)[1..] && waiters == old(waiters)
      ensures old(queue) == [] ==> r == None && queue == [] && waiters == old(waiters) + [waiter]
    {
      r := DequeueOne();
      if r.None? {
        waiters := waiters + [waiter];
      }
    }

    /** The time-out path of waitDequeueNotification(milliseconds). */
    method WaitTimedOut(waiter: WaiterId)
      requires Valid()
      modifies this`waiters
      ensures Valid()
      ensures waiters == RemoveFirst(old(waiters), waiter)
    {
      var rest, found := EraseFirst(waiters, waiter);
      waiters := rest;
    }

    /** PriorityNotificationQueue::dispatch: post every entry to the center
        in queue order, which is non-decreasing priority, until the queue is
        empty. */
    method Dispatch(center: NotificationCenter)
      requires Valid()
      modifies this`queue, center`deliveries
      ensures Valid()
      ensures queue == []
      ensures center.deliveries == old(center.deliveries) + Posts(center.observers, Nfs(old(queue)))
    {
      ghost var done: seq<Entry> := [];
      ghost var pending := queue;
      ghost var observers := center.observers;
      var nf := DequeueOne();
      while nf.Some?
        invariant Valid() && center.observers == observers
        invariant old(queue) == done + pending
        invariant nf.Some? ==> pending != [] && nf.value == pending[0].nf && queue == pending[1..]
        invariant nf.None? ==> pending == [] && queue == []
        invariant center.deliveries == old(center.deliveries) + Posts(observers, Nfs(done))
        decreases |pending|
      {
        var front := pending[0];
        var status := center.PostNotification(nf);
        nf := DequeueOne();
        PostsEntriesAppend(observers, done, front);
        ConcatAssoc(old(center.deliveries), Posts(observers, Nfs(done)), Fanout(observers, front.nf));
        assert pending == [front] + pending[1..];
        ConcatAssoc(done, [front], pending[1..]);
        done := done + [front];
        pending := pending[1..];
      }
      assert done + [] == done;
    }

    /** PriorityNotificationQueue::wakeUpAll. */
    method WakeUpAll()
      requires Valid()
      modifies this`waiters, this`signals
      ensures Valid()
      ensures waiters == [] && signals == old(signals) + Wakes(old(waiters))
    {
      var list := waiters;
      var i := 0;
      while i < |list|
        invariant 0 <= i <= |list|
        invariant signals == old(signals) + Wakes(list[..i])
      {
        assert Wakes(list[..i + 1]) == Wakes(list[..i]) + [Woken(list[i])];
        signals := signals + [Woken(list[i])];
        i := i + 1;
      }
      assert list[..i] == list;
      waiters := [];
    }

    /** PriorityNotificationQueue::empty. */
    function Empty(): (r: bool)
      reads this`queue
      ensures r <==> Size() == 0
    {
      queue == []
    }

    /** PriorityNotificationQueue::size. */
    function Size(): (r: nat)
      reads this`queue
      ensures r == |queue|
    {
      |queue|
    }

    /** PriorityNotificationQueue::hasIdleThreads. */
    function HasIdleThreads(): (r: bool)
      reads this`waiters
      ensures r <==> |waiters| > 0
    {
      waiters != []
    }

    /** PriorityNotificationQueue::clear. */
    method Clear()
      modifies this`queue
      ensures Valid()
      ensures queue == []
    {
      queue := [];
    }
  }
}
