/** Poco::NotificationCenter: a list of observers that every posted
    notification is delivered to, in the order the observers were added.

    Observers are values (an observer is cloned on registration and compared
    by target and callback). What a notified observer does is not modelled;
    each delivery is appended to the center's log instead. */
module Notifications {
  import opened Results
  import opened Seqs

  /** The identity of a Notification object. */
  type NotificationId = nat

  /** An observer: the object to call back and the member to call.
      AbstractObserver::equals holds when both agree. */
  datatype Observer = Observer(target: nat, callback: nat)

  /** One call `observer->notify(nf)`. */
  datatype Delivery = Delivery(observer: Observer, nf: NotificationId)

  /** The deliveries of one notification to a list of observers. */
  function Fanout(observers: seq<Observer>, nf: NotificationId): (r: seq<Delivery>)
    ensures |r| == |observers|
    ensures forall i :: 0 <= i < |observers| ==> r[i] == Delivery(observers[i], nf)
  {
    if observers == [] then [] else [Delivery(observers[0], nf)] + Fanout(observers[1..], nf)
  }

  /** The deliveries of several notifications, one after the other, to the
      same list of observers. */
  function Posts(observers: seq<Observer>, nfs: seq<NotificationId>): seq<Delivery> {
    if nfs == [] then [] else Posts(observers, nfs[..|nfs| - 1]) + Fanout(observers, nfs[|nfs| - 1])
  }

  lemma PostsAppend(observers: seq<Observer>, nfs: seq<NotificationId>, nf: NotificationId)
    ensures Posts(observers, nfs + [nf]) == Posts(observers, nfs) + Fanout(observers, nf)
  {
    assert (nfs + [nf])[..|nfs|] == nfs;
  }

  lemma {:induction false} PostsLength(observers: seq<Observer>, nfs: seq<NotificationId>)
    ensures |Posts(observers, nfs)| == |nfs| * |observers|
  {
    if nfs != [] {
      var init := nfs[..|nfs| - 1];
      PostsLength(observers, init);
      assert |nfs| * |observers| == |init| * |observers| + |observers| by {
        assert |nfs| == |init| + 1;
      }
    }
  }

  lemma RowBefore(k: nat, rows: nat, width: nat, j: nat)
    requires k < rows && j < width
    ensures k * width + j < rows * width
  {
    assert (k + 1) * width == k * width + width;
    assert (k + 1) * width <= rows * width;
  }

  /** Posting several notifications delivers each of them to every observer,
      notification by notification and, within one, observer by observer. */
  lemma {:induction false} PostsIndex(observers: seq<Observer>, nfs: seq<NotificationId>, k: nat, j: nat)
    requires k < |nfs| && j < |observers|
    ensures |Posts(observers, nfs)| == |nfs| * |observers|
    ensures k * |observers| + j < |nfs| * |observers|
    ensures Posts(observers, nfs)[k * |observers| + j] == Delivery(observers[j], nfs[k])
  {
    PostsLength(observers, nfs);
    var w := |observers|;
    RowBefore(k, |nfs|, w, j);
    var init := nfs[..|nfs| - 1];
    PostsLength(observers, init);
    var head := Posts(observers, init);
    var last := Fanout(observers, nfs[|nfs| - 1]);
    assert Posts(observers, nfs) == head + last;
    if k < |init| {
      PostsIndex(observers, init, k, j);
      RowBefore(k, |init|, w, j);
      assert (head + last)[k * w + j] == head[k * w + j];
      assert init[k] == nfs[k];
    } else {
      assert k == |init|;
      assert k * w == |head|;
      assert (head + last)[|head| + j] == last[j];
    }
  }

  class NotificationCenter {
    var observers: seq<Observer>
    /** Every notify call made so far, in order. */
    var deliveries: seq<Delivery>

    constructor ()
      ensures observers == [] && deliveries == []
    {
      observers := [];
      deliveries := [];
    }

    /** NotificationCenter::addObserver: append a copy; an equal observer
        may already be there. */
    method AddObserver(observer: Observer)
      modifies this`observers
      ensures observers == old(observers) + [observer]
    {
      observers := observers + [observer];
    }

    /** NotificationCenter::removeObserver: erase the first observer equal
        to `observer`, if any. */
    method RemoveObserver(observer: Observer)
      modifies this`observers
      ensures observers == RemoveFirst(old(observers), observer)
    {
      var rest, found := EraseFirst(observers, observer);
      observers := rest;
    }

    /** NotificationCenter::hasObserver. */
    method HasObserver(observer: Observer) returns (r: bool)
      ensures r <==> observer in observers
    {
      var i := 0;
      while i < |observers|
        invariant 0 <= i <= |observers|
        invariant forall j :: 0 <= j < i ==> observers[j] != observer
      {
        if observers[i] == observer { return true; }
        i := i + 1;
      }
      return false;
    }

    /** NotificationCenter::postNotification: notify every observer
        registered at the time of the call, in order. A null notification is
        refused. */
    method PostNotification(nf: Option<NotificationId>) returns (r: Status)
      modifies this`deliveries
      ensures nf.None? ==> r == Failed(NullPointer) && deliveries == old(deliveries)
      ensures nf.Some? ==> r == Done && deliveries == old(deliveries) + Fanout(observers, nf.value)
    {
      if nf.None? { return Failed(NullPointer); }
      var snapshot := observers;
      var i := 0;
      while i < |snapshot|
        invariant 0 <= i <= |snapshot|
        invariant deliveries == old(deliveries) + Fanout(snapshot[..i], nf.value)
      {
        assert Fanout(snapshot[..i + 1], nf.value) == Fanout(snapshot[..i], nf.value) + [Delivery(snapshot[i], nf.value)];
        deliveries := deliveries + [Delivery(snapshot[i], nf.value)];
        i := i + 1;
      }
      assert snapshot[..i] == snapshot;
      return Done;
    }

    /** NotificationCenter::countObservers. */
    function CountObservers(): (r: nat)
      reads this`observers
      ensures r == |observers|
    {
      |observers|
    }

    /** NotificationCenter::hasObservers. */
    function HasObservers(): (r: bool)
      reads this`observers
      ensures r <==> CountObservers() > 0
      ensures r <==> exists o :: o in observers
    {
      assert observers != [] ==> observers[0] in observers;
      observers != []
    }
  }
}
