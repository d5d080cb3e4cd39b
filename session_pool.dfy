/** Poco::Data::SessionPool: a bounded pool of reusable database sessions.

    Sessions are opaque identities. What the pool asks of a session (is it
    good, how long has it been idle) is passed in as functions of the
    identity, and what the pool does to a session (create, reset, change a
    setting, close) is appended to the pool's log of session calls, so that
    contracts can say exactly which calls each operation makes, in order. */
module SessionPooling {
  import opened Results
  import opened Seqs

  /** The identity of a SessionImpl (its address). */
  type SessionId = nat

  /** An opaque Poco::Any property value. */
  type Value = nat

  /** A call the pool makes into one of its sessions. */
  datatype Call =
    | Create(s: SessionId)
    | SetFeature(s: SessionId, name: string, state: bool)
    | SetProperty(s: SessionId, name: string, value: Value)
    | ApplyDefaults(s: SessionId, features: map<string, bool>, properties: map<string, Value>)  // applySettings
    | Reset(s: SessionId)
    | Close(s: SessionId)

  /** What putBack did with the returned session. */
  datatype Disposal = Ignored | Reused | Discarded

  /** The key of an override record. `Impl(s)` is the SessionImpl the pool
      created, which a holder returns from session(); `Pooled(b)` is the
      PooledSessionImpl wrapper that the b-th successful borrow hands out
      inside its Session, which Session::impl() returns. */
  datatype Handle = Impl(s: SessionId) | Pooled(borrow: nat)

  /** The record filed under `h`, if any (std::map::find). */
  function Record<V>(records: map<Handle, V>, h: Handle): (r: Option<V>)
    ensures r.Some? <==> h in records
    ensures r.Some? ==> r.value == records[h]
  {
    if h in records then Some(records[h]) else None
  }

  // ---------------------------------------------------------------------
  // Specification functions for the list surgery

  /** The sessions of `list` that are good, in their original order: what
      the erase loop of purgeDeadSessions leaves behind. */
  function Healthy(list: seq<SessionId>, isGood: SessionId -> bool): (r: seq<SessionId>)
    ensures |r| <= |list|
  {
    if list == [] then []
    else
      var h := Healthy(list[..|list| - 1], isGood);
      if isGood(list[|list| - 1]) then h + [list[|list| - 1]] else h
  }

  /** The purge only removes sessions. */
  lemma {:induction false} HealthySubset(list: seq<SessionId>, isGood: SessionId -> bool)
    ensures multiset(Healthy(list, isGood)) <= multiset(list)
  {
    if list != [] {
      var init := list[..|list| - 1];
      assert list == init + [list[|list| - 1]];
      HealthySubset(init, isGood);
    }
  }

  /** The purge keeps exactly the good sessions. */
  lemma {:induction false} HealthyMembers(list: seq<SessionId>, isGood: SessionId -> bool)
    ensures forall x :: x in Healthy(list, isGood) <==> x in list && isGood(x)
  {
    if list != [] {
      var init := list[..|list| - 1];
      assert list == init + [list[|list| - 1]];
      HealthyMembers(init, isGood);
    }
  }

  /** The purge keeps every session exactly when every session is good. */
  lemma {:induction false} HealthyKeepsAll(list: seq<SessionId>, isGood: SessionId -> bool)
    ensures |Healthy(list, isGood)| == |list| <==> forall i :: 0 <= i < |list| ==> isGood(list[i])
  {
    if list != [] {
      var init := list[..|list| - 1];
      HealthyKeepsAll(init, isGood);
      if |Healthy(list, isGood)| == |list| {
        assert |Healthy(init, isGood)| == |init|;
        forall i | 0 <= i < |list| ensures isGood(list[i]) {
          if i < |init| { assert list[i] == init[i]; }
        }
      }
    }
  }

  /** No session is held twice: not twice in one list, not in both. */
  ghost predicate Exclusive(idle: seq<SessionId>, active: seq<SessionId>) {
    forall x :: multiset(idle)[x] + multiset(active)[x] <= 1
  }

  /** The pool's accounting invariant: every allocated session is in
      exactly one of the two lists, and there are at most maxSessions (a
      pool with maxSessions <= 0 never allocates one). */
  ghost predicate Accounted(nSessions: int, maxSessions: int, idle: seq<SessionId>, active: seq<SessionId>, shutdown: bool) {
    && nSessions == |idle| + |active|
    && (nSessions == 0 || nSessions <= maxSessions)
    && Exclusive(idle, active)
    && (shutdown ==> nSessions == 0)
  }

  lemma ExclusiveShrink(idle: seq<SessionId>, idle': seq<SessionId>, active: seq<SessionId>)
    requires Exclusive(idle, active) && multiset(idle') <= multiset(idle)
    ensures Exclusive(idle', active)
  {
    forall x ensures multiset(idle')[x] + multiset(active)[x] <= 1 {
      assert multiset(idle')[x] <= multiset(idle)[x];
    }
  }

  /** Moving the front of idle to the front of active keeps every session
      held once. */
  lemma ExclusiveMove(idle: seq<SessionId>, active: seq<SessionId>)
    requires Exclusive(idle, active) && idle != []
    ensures Exclusive(idle[1..], [idle[0]] + active)
  {
    assert idle == [idle[0]] + idle[1..];
    forall x ensures multiset(idle[1..])[x] + multiset([idle[0]] + active)[x] <= 1 {
      assert multiset(idle)[x] == multiset([idle[0]])[x] + multiset(idle[1..])[x];
    }
  }

  /** A freshly created session can join an empty idle list. */
  lemma ExclusiveAdd(s: SessionId, active: seq<SessionId>)
    requires Exclusive([], active) && s !in active
    ensures Exclusive([s], active)
  {
    forall x ensures multiset([s])[x] + multiset(active)[x] <= 1 {
      assert multiset(active)[x] <= 1;
    }
  }

  /** Taking a borrowed session out of the active list, and optionally
      putting it at the front of the idle list, keeps every session held
      once; the session is then no longer active. */
  lemma ExclusiveReturn(idle: seq<SessionId>, active: seq<SessionId>, s: SessionId)
    requires Exclusive(idle, active) && s in active
    ensures Exclusive(idle, RemoveFirst(active, s))
    ensures Exclusive([s] + idle, RemoveFirst(active, s))
    ensures s !in RemoveFirst(active, s)
  {
    var rest := RemoveFirst(active, s);
    RemoveFirstMultiset(active, s);
    assert multiset(active)[s] == 1;
    forall x ensures multiset([s] + idle)[x] + multiset(rest)[x] <= 1 {
      assert multiset(idle)[x] + multiset(active)[x] <= 1;
    }
    ExclusiveShrink([s] + idle, idle, rest);
  }

  lemma HealthyStep(list: seq<SessionId>, i: nat, isGood: SessionId -> bool)
    requires i < |list|
    ensures Healthy(list[..i + 1], isGood) == Healthy(list[..i], isGood) + if isGood(list[i]) then [list[i]] else []
  {
    assert list[..i + 1][..i] == list[..i];
  }

  /** The janitor's sweep over the idle list: walking from the front while
      more than `min` sessions are allocated, it evicts every session idle
      longer than `idleTime` or not good. The result is the kept list and the
      evicted list, in the order they were met. */
  function Sweep(list: seq<SessionId>, n: int, min: int, idleTime: int,
                 idleAge: SessionId -> int, isGood: SessionId -> bool): (r: (seq<SessionId>, seq<SessionId>))
  {
    if n <= min || list == [] then (list, [])
    else
      if idleAge(list[0]) > idleTime || !isGood(list[0]) then
        var t := Sweep(list[1..], n - 1, min, idleTime, idleAge, isGood);
        (t.0, [list[0]] + t.1)
      else
        var t := Sweep(list[1..], n, min, idleTime, idleAge, isGood);
        ([list[0]] + t.0, t.1)
  }

  /** Every session of the idle list is either kept or evicted, once. */
  lemma {:induction false} SweepPartition(list: seq<SessionId>, n: int, min: int, idleTime: int,
                                          idleAge: SessionId -> int, isGood: SessionId -> bool)
    ensures var r := Sweep(list, n, min, idleTime, idleAge, isGood);
      && |r.0| + |r.1| == |list|
      && multiset(r.0) + multiset(r.1) == multiset(list)
    decreases |list|
  {
    if n > min && list != [] {
      assert list == [list[0]] + list[1..];
      if idleAge(list[0]) > idleTime || !isGood(list[0]) {
        SweepPartition(list[1..], n - 1, min, idleTime, idleAge, isGood);
      } else {
        SweepPartition(list[1..], n, min, idleTime, idleAge, isGood);
      }
    }
  }

  /** Only stale or bad sessions are evicted. */
  lemma {:induction false} SweepEvictsStale(list: seq<SessionId>, n: int, min: int, idleTime: int,
                                            idleAge: SessionId -> int, isGood: SessionId -> bool)
    ensures forall x :: x in Sweep(list, n, min, idleTime, idleAge, isGood).1 ==>
      idleAge(x) > idleTime || !isGood(x)
    decreases |list|
  {
    if n > min && list != [] {
      if idleAge(list[0]) > idleTime || !isGood(list[0]) {
        SweepEvictsStale(list[1..], n - 1, min, idleTime, idleAge, isGood);
      } else {
        SweepEvictsStale(list[1..], n, min, idleTime, idleAge, isGood);
      }
    }
  }

  /** Nothing is evicted at or below the floor, and eviction never takes the
      count below it. */
  lemma {:induction false} SweepFloor(list: seq<SessionId>, n: int, min: int, idleTime: int,
                                      idleAge: SessionId -> int, isGood: SessionId -> bool)
    ensures var r := Sweep(list, n, min, idleTime, idleAge, isGood);
      && (n <= min ==> r.0 == list && r.1 == [])
      && (n > min ==> n - |r.1| >= min)
    decreases |list|
  {
    if n > min && list != [] {
      if idleAge(list[0]) > idleTime || !isGood(list[0]) {
        SweepFloor(list[1..], n - 1, min, idleTime, idleAge, isGood);
      } else {
        SweepFloor(list[1..], n, min, idleTime, idleAge, isGood);
      }
    }
  }

  /** When the walk ends above the floor it has seen the whole list, so no
      stale or bad session was kept. */
  lemma {:induction false} SweepComplete(list: seq<SessionId>, n: int, min: int, idleTime: int,
                                         idleAge: SessionId -> int, isGood: SessionId -> bool)
    ensures var r := Sweep(list, n, min, idleTime, idleAge, isGood);
      n - |r.1| > min ==> forall x :: x in r.0 ==> idleAge(x) <= idleTime && isGood(x)
    decreases |list|
  {
    if n > min && list != [] {
      if idleAge(list[0]) > idleTime || !isGood(list[0]) {
        SweepComplete(list[1..], n - 1, min, idleTime, idleAge, isGood);
      } else {
        SweepComplete(list[1..], n, min, idleTime, idleAge, isGood);
      }
    }
  }

  /** One step of the sweep, at position i of the list. */
  lemma SweepStep(list: seq<SessionId>, i: nat, n: int, min: int, idleTime: int,
                  idleAge: SessionId -> int, isGood: SessionId -> bool)
    requires i < |list| && n > min
    ensures var here := Sweep(list[i..], n, min, idleTime, idleAge, isGood);
      if idleAge(list[i]) > idleTime || !isGood(list[i]) then
        var next := Sweep(list[i + 1..], n - 1, min, idleTime, idleAge, isGood);
        here == (next.0, [list[i]] + next.1)
      else
        var next := Sweep(list[i + 1..], n, min, idleTime, idleAge, isGood);
        here == ([list[i]] + next.0, next.1)
  {
    assert list[i..][1..] == list[i + 1..];
  }

  /** The erase loop of onJanitorTimer, on a copy of the idle list. */
  method SweepIdle(list: seq<SessionId>, n0: int, min: int, idleTime: int,
                   idleAge: SessionId -> int, isGood: SessionId -> bool)
    returns (kept: seq<SessionId>, evicted: seq<SessionId>, n: int)
    ensures kept == Sweep(list, n0, min, idleTime, idleAge, isGood).0
    ensures evicted == Sweep(list, n0, min, idleTime, idleAge, isGood).1
    ensures n == n0 - |evicted|
  {
    ghost var rest := Sweep(list, n0, min, idleTime, idleAge, isGood);
    ghost var sw := rest;
    n := n0;
    kept := [];
    evicted := [];
    var i := 0;
    assert list[0..] == list;
    while n > min && i < |list|
      invariant 0 <= i <= |list|
      invariant n == n0 - |evicted|
      invariant rest == Sweep(list[i..], n, min, idleTime, idleAge, isGood)
      invariant sw.0 == kept + rest.0 && sw.1 == evicted + rest.1
    {
      var s := list[i];
      SweepStep(list, i, n, min, idleTime, idleAge, isGood);
      if idleAge(s) > idleTime || !isGood(s) {
        rest := Sweep(list[i + 1..], n - 1, min, idleTime, idleAge, isGood);
        ConcatAssoc(evicted, [s], rest.1);
        evicted := evicted + [s];  // closed, then erased
        n := n - 1;
      } else {
        rest := Sweep(list[i + 1..], n, min, idleTime, idleAge, isGood);
        ConcatAssoc(kept, [s], rest.0);
        kept := kept + [s];
      }
      i := i + 1;
    }
    assert rest.0 == list[i..] && rest.1 == [];
    assert evicted + [] == evicted;
    kept := kept + list[i..];  // the sessions the walk did not reach stay
  }

  /** One Close call per session, in list order. */
  function Closes(list: seq<SessionId>): (r: seq<Call>)
    ensures |r| == |list|
    ensures forall i :: 0 <= i < |list| ==> r[i] == Close(list[i])
  {
    if list == [] then [] else [Close(list[0])] + Closes(list[1..])
  }

  /** The counter after closeAll over k sessions: decremented once per
      session, but only while it is positive. */
  function ClampedSub(n: int, k: nat): (r: int)
    ensures n <= 0 ==> r == n
    ensures n > 0 ==> r == if n >= k then n - k else 0
  {
    if k == 0 || n <= 0 then n else ClampedSub(n - 1, k - 1)
  }

  /** The calls putBack makes into a good session: reset, undo the override
      recorded at borrow time (property, then feature), then re-apply the
      pool defaults. */
  function ReturnCalls(s: SessionId, addProperty: Option<(string, Value)>, addFeature: Option<(string, bool)>,
                       features: map<string, bool>, properties: map<string, Value>): seq<Call>
  {
    [Reset(s)]
    + (if addProperty.Some? then [SetProperty(s, addProperty.value.0, addProperty.value.1)] else [])
    + (if addFeature.Some? then [SetFeature(s, addFeature.value.0, addFeature.value.1)] else [])
    + [ApplyDefaults(s, features, properties)]
  }

  /** The last value the pool set for feature `name` of session `s`, if any. */
  function LastFeature(calls: seq<Call>, s: SessionId, name: string): Option<bool> {
    if calls == [] then None
    else
      var c := calls[|calls| - 1];
      if c.SetFeature? && c.s == s && c.name == name then Some(c.state)
      else if c.ApplyDefaults? && c.s == s && name in c.features then Some(c.features[name])
      else LastFeature(calls[..|calls| - 1], s, name)
  }

  /** The last value the pool set for property `name` of session `s`, if any. */
  function LastProperty(calls: seq<Call>, s: SessionId, name: string): Option<Value> {
    if calls == [] then None
    else
      var c := calls[|calls| - 1];
      if c.SetProperty? && c.s == s && c.name == name then Some(c.value)
      else if c.ApplyDefaults? && c.s == s && name in c.properties then Some(c.properties[name])
      else LastProperty(calls[..|calls| - 1], s, name)
  }

  lemma {:induction false} LastFeatureAppend(a: seq<Call>, b: seq<Call>, s: SessionId, name: string)
    ensures LastFeature(a + b, s, name) == if LastFeature(b, s, name).Some? then LastFeature(b, s, name) else LastFeature(a, s, name)
    decreases |b|
  {
    if b != [] {
      assert (a + b)[..|a + b| - 1] == a + b[..|b| - 1];
      LastFeatureAppend(a, b[..|b| - 1], s, name);
    } else {
      assert a + b == a;
    }
  }

  lemma {:induction false} LastPropertyAppend(a: seq<Call>, b: seq<Call>, s: SessionId, name: string)
    ensures LastProperty(a + b, s, name) == if LastProperty(b, s, name).Some? then LastProperty(b, s, name) else LastProperty(a, s, name)
    decreases |b|
  {
    if b != [] {
      assert (a + b)[..|a + b| - 1] == a + b[..|b| - 1];
      LastPropertyAppend(a, b[..|b| - 1], s, name);
    } else {
      assert a + b == a;
    }
  }

  /** The feature switched at borrow time is what the session last got. */
  lemma LastFeatureSet(calls: seq<Call>, s: SessionId, name: string, v: bool)
    ensures LastFeature(calls + [SetFeature(s, name, v)], s, name) == Some(v)
  {
  }

  /** The property switched at borrow time is what the session last got. */
  lemma LastPropertySet(calls: seq<Call>, s: SessionId, name: string, v: Value)
    ensures LastProperty(calls + [SetProperty(s, name, v)], s, name) == Some(v)
  {
  }

  /** After putBack's calls, a feature with a pool default has the default;
      otherwise the feature overridden at borrow time has its recorded
      original value; every other feature keeps what it had. */
  lemma ReturnRestoresFeature(before: seq<Call>, s: SessionId, addProperty: Option<(string, Value)>,
                              addFeature: Option<(string, bool)>, features: map<string, bool>,
                              properties: map<string, Value>, name: string)
    ensures LastFeature(before + ReturnCalls(s, addProperty, addFeature, features, properties), s, name)
         == if name in features then Some(features[name])
            else if addFeature.Some? && addFeature.value.0 == name then Some(addFeature.value.1)
            else LastFeature(before, s, name)
  {
    var rc := ReturnCalls(s, addProperty, addFeature, features, properties);
    var head := [Reset(s)] + (if addProperty.Some? then [SetProperty(s, addProperty.value.0, addProperty.value.1)] else []);
    var mid := if addFeature.Some? then [SetFeature(s, addFeature.value.0, addFeature.value.1)] else [];
    var last := [ApplyDefaults(s, features, properties)];
    assert rc == (head + mid) + last;
    LastFeatureAppend(before, rc, s, name);
    LastFeatureAppend(head + mid, last, s, name);
    LastFeatureAppend(head, mid, s, name);
    LastFeatureNone(head, s, name);
    assert last[..0] == [] && mid[..0] == [];
  }

  /** The same for properties: the pool default wins, then the original
      value recorded at borrow time, then whatever the session had. */
  lemma ReturnRestoresProperty(before: seq<Call>, s: SessionId, addProperty: Option<(string, Value)>,
                               addFeature: Option<(string, bool)>, features: map<string, bool>,
                               properties: map<string, Value>, name: string)
    ensures LastProperty(before + ReturnCalls(s, addProperty, addFeature, features, properties), s, name)
         == if name in properties then Some(properties[name])
            else if addProperty.Some? && addProperty.value.0 == name then Some(addProperty.value.1)
            else LastProperty(before, s, name)
  {
    var rc := ReturnCalls(s, addProperty, addFeature, features, properties);
    var reset := [Reset(s)];
    var prop := if addProperty.Some? then [SetProperty(s, addProperty.value.0, addProperty.value.1)] else [];
    var feature := if addFeature.Some? then [SetFeature(s, addFeature.value.0, addFeature.value.1)] else [];
    var last := [ApplyDefaults(s, features, properties)];
    assert rc == ((reset + prop) + feature) + last;
    LastPropertyAppend(before, rc, s, name);
    LastPropertyAppend((reset + prop) + feature, last, s, name);
    LastPropertyAppend(reset + prop, feature, s, name);
    LastPropertyAppend(reset, prop, s, name);
    LastPropertyNoSetters(feature, s, name);
    LastPropertyNoSetters(reset, s, name);
    assert last[..0] == [] && prop[..0] == [];
  }

  /** Calls that set no feature of `s` leave its last feature value undefined. */
  lemma LastFeatureNone(calls: seq<Call>, s: SessionId, name: string)
    requires forall i :: 0 <= i < |calls| ==> calls[i].Reset? || calls[i].SetProperty?
    ensures LastFeature(calls, s, name) == None
  {
  }

  /** Calls that set no property of `s` leave its last property value undefined. */
  lemma LastPropertyNoSetters(calls: seq<Call>, s: SessionId, name: string)
    requires forall i :: 0 <= i < |calls| ==> calls[i].Reset? || calls[i].SetFeature?
    ensures LastProperty(calls, s, name) == None
  {
  }

  /** As written, get(name, value) files its record under the borrow's
      wrapper (`Pooled`), while putBack looks it up under the SessionImpl
      (`Impl`). The lookup finds nothing, so a feature switched at borrow
      time and not covered by a pool default keeps the borrower's value
      after the session is back in the pool. */
  lemma FeatureOverrideOutlivesReturn(before: seq<Call>, s: SessionId, b: nat, name: string, value: bool, reported: bool,
                                      featureRecords: map<Handle, (string, bool)>,
                                      propertyRecords: map<Handle, (string, Value)>,
                                      features: map<string, bool>, properties: map<string, Value>)
    requires forall h :: h in featureRecords ==> h.Pooled?
    requires forall h :: h in propertyRecords ==> h.Pooled?
    requires name !in features
    ensures var records := featureRecords[Pooled(b) := (name, reported)];
      LastFeature(before + [SetFeature(s, name, value)]
                  + ReturnCalls(s, Record(propertyRecords, Impl(s)), Record(records, Impl(s)), features, properties),
                  s, name) == Some(value)
  {
    var records := featureRecords[Pooled(b) := (name, reported)];
    assert Record(records, Impl(s)).None?;
    ReturnRestoresFeature(before + [SetFeature(s, name, value)], s, Record(propertyRecords, Impl(s)),
                          Record(records, Impl(s)), features, properties, name);
    LastFeatureSet(before, s, name, value);
  }

  /** The property half of the same lookup mismatch. */
  lemma PropertyOverrideOutlivesReturn(before: seq<Call>, s: SessionId, b: nat, name: string, value: Value, reported: Value,
                                       featureRecords: map<Handle, (string, bool)>,
                                       propertyRecords: map<Handle, (string, Value)>,
                                       features: map<string, bool>, properties: map<string, Value>)
    requires forall h :: h in featureRecords ==> h.Pooled?
    requires forall h :: h in propertyRecords ==> h.Pooled?
    requires name !in properties
    ensures var records := propertyRecords[Pooled(b) := (name, reported)];
      LastProperty(before + [SetProperty(s, name, value)]
                   + ReturnCalls(s, Record(records, Impl(s)), Record(featureRecords, Impl(s)), features, properties),
                   s, name) == Some(value)
  {
    var records := propertyRecords[Pooled(b) := (name, reported)];
    assert Record(records, Impl(s)).None?;
    ReturnRestoresProperty(before + [SetProperty(s, name, value)], s, Record(records, Impl(s)),
                           Record(featureRecords, Impl(s)), features, properties, name);
    LastPropertySet(before, s, name, value);
  }

  /** Corrected: with the record filed under the session's own SessionImpl,
      the key putBack looks up, the return restores the value the session
      reported at borrow time. */
  lemma FeatureRestoredWhenKeyedBySession(before: seq<Call>, s: SessionId, name: string, value: bool, reported: bool,
                                          featureRecords: map<Handle, (string, bool)>,
                                          propertyRecord: Option<(string, Value)>,
                                          features: map<string, bool>, properties: map<string, Value>)
    requires Impl(s) !in featureRecords
    requires name !in features
    ensures var records := featureRecords[Impl(s) := (name, reported)];
      LastFeature(before + [SetFeature(s, name, value)]
                  + ReturnCalls(s, propertyRecord, Record(records, Impl(s)), features, properties),
                  s, name) == Some(reported)
  {
    var records := featureRecords[Impl(s) := (name, reported)];
    assert Record(records, Impl(s)) == Some((name, reported));
    ReturnRestoresFeature(before + [SetFeature(s, name, value)], s, propertyRecord,
                          Record(records, Impl(s)), features, properties, name);
  }

  /** Corrected, for properties. */
  lemma PropertyRestoredWhenKeyedBySession(before: seq<Call>, s: SessionId, name: string, value: Value, reported: Value,
                                           featureRecord: Option<(string, bool)>,
                                           propertyRecords: map<Handle, (string, Value)>,
                                           features: map<string, bool>, properties: map<string, Value>)
    requires Impl(s) !in propertyRecords
    requires name !in properties
    ensures var records := propertyRecords[Impl(s) := (name, reported)];
      LastProperty(before + [SetProperty(s, name, value)]
                   + ReturnCalls(s, Record(records, Impl(s)), featureRecord, features, properties),
                   s, name) == Some(reported)
  {
    var records := propertyRecords[Impl(s) := (name, reported)];
    assert Record(records, Impl(s)) == Some((name, reported));
    ReturnRestoresProperty(before + [SetProperty(s, name, value)], s, Record(records, Impl(s)),
                           featureRecord, features, properties, name);
  }

  // ---------------------------------------------------------------------
  // The pool

  class SessionPool {
    const minSessions: int
    const maxSessions: int
    const idleTime: int
    var nSessions: int
    var idle: seq<SessionId>
    var active: seq<SessionId>
    var shutdown: bool
    var janitorRunning: bool
    var featureMap: map<string, bool>
    var propertyMap: map<string, Value>
    var addFeatureMap: map<Handle, (string, bool)>
    var addPropertyMap: map<Handle, (string, Value)>
    var calls: seq<Call>
    /** The number of PooledSessionImpl wrappers handed out so far. */
    var borrows: nat

    /** The pool's accounting invariant: every allocated session is in
        exactly one of the two lists, and there are at most maxSessions.
        Every override record is filed under the wrapper of an earlier
        borrow. */
    ghost predicate Valid()
      reads this`nSessions, this`idle, this`active, this`shutdown, this`addFeatureMap, this`addPropertyMap, this`borrows
    {
      && Accounted(nSessions, maxSessions, idle, active, shutdown)
      && (forall h :: h in addFeatureMap ==> h.Pooled? && h.borrow < borrows)
      && (forall h :: h in addPropertyMap ==> h.Pooled? && h.borrow < borrows)
    }

    constructor (minSessions: int, maxSessions: int, idleTime: int)
      ensures Valid()
      ensures this.minSessions == minSessions && this.maxSessions == maxSessions && this.idleTime == idleTime
      ensures nSessions == 0 && idle == [] && active == [] && !shutdown && janitorRunning
      ensures featureMap == map[] && propertyMap == map[] && addFeatureMap == map[] && addPropertyMap == map[]
      ensures calls == [] && borrows == 0
    {
      this.minSessions := minSessions;
      this.maxSessions := maxSessions;
      this.idleTime := idleTime;
      nSessions := 0;
      idle := [];
      active := [];
      shutdown := false;
      janitorRunning := true;
      featureMap := map[];
      propertyMap := map[];
      addFeatureMap := map[];
      addPropertyMap := map[];
      calls := [];
      borrows := 0;
    }

    function Capacity(): (r: int)
      reads this
      requires Valid()
      ensures Allocated() > 0 ==> Allocated() <= r
    {
      maxSessions
    }

    function Used(): (r: int)
      reads this
      requires Valid()
      ensures 0 <= r <= Allocated()
    {
      |active|
    }

    function Idle(): (r: int)
      reads this
      requires Valid()
      ensures 0 <= r && Used() + r == Allocated()
    {
      |idle|
    }

    function Allocated(): (r: int)
      reads this
      requires Valid()
      ensures 0 <= r && (r > 0 ==> r <= maxSessions)
    {
      nSessions
    }

    function Available(): (r: int)
      reads this
      requires Valid()
      ensures shutdown ==> r == 0
      ensures !shutdown ==> r + Used() == Capacity()
      ensures 0 <= maxSessions ==> 0 <= r <= maxSessions
    {
      if shutdown then 0 else maxSessions - |active|
    }

    /** The number of borrowed sessions that are no longer good. */
    method Dead(isGood: SessionId -> bool) returns (count: int)
      ensures count == |active| - |Healthy(active, isGood)|
      ensures 0 <= count <= |active|
      ensures count == 0 <==> forall i :: 0 <= i < |active| ==> isGood(active[i])
    {
      var list := active;
      count := 0;
      var i := 0;
      while i < |list|
        invariant 0 <= i <= |list|
        invariant count == i - |Healthy(list[..i], isGood)|
      {
        HealthyStep(list, i, isGood);
        if !isGood(list[i]) {
          count := count + 1;
        }
        i := i + 1;
      }
      assert list[..i] == list;
      HealthyKeepsAll(list, isGood);
    }

    /** purgeDeadSessions: erase the idle sessions that are not good. */
    method PurgeDeadSessions(isGood: SessionId -> bool)
      requires Valid()
      modifies this`idle, this`nSessions
      ensures Valid()
      ensures old(shutdown) ==> idle == old(idle) && nSessions == old(nSessions)
      ensures !old(shutdown) ==> idle == Healthy(old(idle), isGood)
      ensures nSessions == old(nSessions) - (|old(idle)| - |idle|)
    {
      if shutdown { return; }
      var list := idle;
      var kept := [];
      var i := 0;
      while i < |list|
        invariant 0 <= i <= |list|
        invariant kept == Healthy(list[..i], isGood)
        invariant nSessions == old(nSessions) - (i - |kept|)
      {
        HealthyStep(list, i, isGood);
        if isGood(list[i]) {
          kept := kept + [list[i]];
        } else {
          nSessions := nSessions - 1;
        }
        i := i + 1;
      }
      assert list[..i] == list;
      HealthySubset(list, isGood);
      ExclusiveShrink(list, kept, active);
      idle := kept;
    }

    /** What get() promises, with `got` the call log right after it: after
        shutdown InvalidAccess with nothing changed; otherwise, after the
        purge, the front good idle session moves to the front of the active
        list; with no good idle session left and the pool not full, the
        factory's session (`created`, None when the factory throws) is
        created, given the defaults and handed out, unless applying the
        defaults throws (`settingsFail`), which leaves the lists and the
        count as the purge left them; a full pool raises
        SessionPoolExhausted. Each session handed out gets a new wrapper. */
    twostate predicate Borrowed(isGood: SessionId -> bool, created: Option<SessionId>, settingsFail: bool,
                                new r: Result<SessionId>, new got: seq<Call>)
      reads this`idle, this`active, this`nSessions, this`borrows, this`featureMap, this`propertyMap
    {
      var healthy := Healthy(old(idle), isGood);
      && (old(shutdown) ==>
            && r == Err(InvalidAccess) && idle == old(idle) && active == old(active)
            && nSessions == old(nSessions) && got == old(calls))
      && (!old(shutdown) && healthy != [] ==>
            && r == Ok(healthy[0]) && idle == healthy[1..]
            && active == [r.value] + old(active) && got == old(calls))
      && (!old(shutdown) && healthy == [] ==> idle == [])
      && (!old(shutdown) && healthy == [] && |old(active)| >= maxSessions ==>
            r == Err(SessionPoolExhausted) && active == old(active) && got == old(calls))
      && (!old(shutdown) && healthy == [] && |old(active)| < maxSessions ==>
            if created.None? then
              r == Err(ConnectionFailed) && active == old(active) && got == old(calls)
            else if settingsFail then
              && r == Err(SessionFailed) && active == old(active)
              && got == old(calls) + [Create(created.value), ApplyDefaults(created.value, featureMap, propertyMap)]
            else
              && r == Ok(created.value) && active == [created.value] + old(active)
              && got == old(calls) + [Create(created.value), ApplyDefaults(created.value, featureMap, propertyMap)])
      && (!old(shutdown) ==>
            nSessions == old(nSessions) - (|old(idle)| - |healthy|)
                         + if r.Ok? && healthy == [] then 1 else 0)
      && (r.Ok? ==> r.value in active)
      && borrows == old(borrows) + if r.Ok? then 1 else 0
    }

    /** get(): borrow a session. After purging dead idle sessions it hands out
        the front of the idle list, or, when the idle list is empty and fewer
        than maxSessions are allocated, a session created by the factory
        (`created`, None when the factory throws) and given the pool
        defaults (`settingsFail` when a setFeature or setProperty of
        applySettings throws). */
    method Get(isGood: SessionId -> bool, created: Option<SessionId>, settingsFail: bool) returns (r: Result<SessionId>)
      requires Valid()
      requires created.Some? ==> created.value !in active
      modifies this`idle, this`active, this`nSessions, this`calls, this`borrows
      ensures Valid()
      ensures Borrowed(isGood, created, settingsFail, r, calls)
    {
      if shutdown { return Err(InvalidAccess); }
      PurgeDeadSessions(isGood);
      r := Acquire(created, settingsFail);
    }

    /** The part of get() after the purge: hand out the front idle session,
        or create one when the idle list is empty and the pool is not full.
        The session handed out is wrapped in a new PooledSessionImpl. */
    method Acquire(created: Option<SessionId>, settingsFail: bool) returns (r: Result<SessionId>)
      requires Valid() && !shutdown
      requires created.Some? ==> created.value !in active
      modifies this`idle, this`active, this`nSessions, this`calls, this`borrows
      ensures Valid()
      ensures old(idle) != [] ==>
        && r == Ok(old(idle)[0]) && idle == old(idle)[1..] && active == [r.value] + old(active)
        && nSessions == old(nSessions) && calls == old(calls)
      ensures old(idle) == [] && old(nSessions) >= maxSessions ==> r == Err(SessionPoolExhausted) && unchanged(this`idle, this`active, this`nSessions, this`calls)
      ensures old(idle) == [] && old(nSessions) < maxSessions && created.None? ==> r == Err(ConnectionFailed) && unchanged(this`idle, this`active, this`nSessions, this`calls)
      ensures old(idle) == [] && old(nSessions) < maxSessions && created.Some? && settingsFail ==>
        && r == Err(SessionFailed) && unchanged(this`idle, this`active, this`nSessions)
        && calls == old(calls) + [Create(created.value), ApplyDefaults(created.value, featureMap, propertyMap)]
      ensures old(idle) == [] && old(nSessions) < maxSessions && created.Some? && !settingsFail ==>
        && r == Ok(created.value) && idle == [] && active == [created.value] + old(active)
        && nSessions == old(nSessions) + 1
        && calls == old(calls) + [Create(created.value), ApplyDefaults(created.value, featureMap, propertyMap)]
      ensures borrows == old(borrows) + if r.Ok? then 1 else 0
    {
      if idle == [] {
        if nSessions < maxSessions {
          if created.None? { return Err(ConnectionFailed); }
          var s := created.value;
          calls := calls + [Create(s), ApplyDefaults(s, featureMap, propertyMap)];
          if settingsFail { return Err(SessionFailed); }
          ExclusiveAdd(s, active);
          idle := [s];
          nSessions := nSessions + 1;
        } else {
          return Err(SessionPoolExhausted);
        }
      }
      var s := idle[0];
      ExclusiveMove(idle, active);
      borrows := borrows + 1;  // new PooledSessionImpl(pHolder)
      active := [s] + active;
      idle := idle[1..];
      r := Ok(s);
    }

    /** get(name, value): borrow a session as get() does, record the value
        the session reports for feature `name` (`reported`) as the one to
        restore, then switch the feature to `value`. The record is filed
        under Session::impl(), the wrapper of this borrow, which no earlier
        record uses, so std::map::insert always adds it. */
    method GetWithFeature(name: string, value: bool, reported: bool,
                          isGood: SessionId -> bool, created: Option<SessionId>, settingsFail: bool) returns (r: Result<SessionId>)
      requires Valid()
      requires created.Some? ==> created.value !in active
      modifies this`idle, this`active, this`nSessions, this`calls, this`borrows, this`addFeatureMap
      ensures Valid()
      ensures r.Err? ==> Borrowed(isGood, created, settingsFail, r, calls) && addFeatureMap == old(addFeatureMap)
      ensures r.Ok? ==> |calls| > 0 && Borrowed(isGood, created, settingsFail, r, calls[..|calls| - 1])
      ensures r.Ok? ==> calls[|calls| - 1] == Call.SetFeature(r.value, name, value)
      ensures r.Ok? ==>
        && Pooled(old(borrows)) !in old(addFeatureMap)
        && addFeatureMap == old(addFeatureMap)[Pooled(old(borrows)) := (name, reported)]
    {
      var before := borrows;
      r := Get(isGood, created, settingsFail);
      if r.Ok? {
        var s := r.value;
        var h := Pooled(before);  // s.impl()
        if h !in addFeatureMap {
          addFeatureMap := addFeatureMap[h := (name, reported)];
        }
        ghost var got := calls;
        calls := calls + [Call.SetFeature(s, name, value)];
        assert calls[..|calls| - 1] == got;
      }
    }

    /** The property counterpart of get(name, value): the template
        get(name, value) of the class header records the reported property
        value under the borrow's wrapper and sets the new one. */
    method GetWithProperty(name: string, value: Value, reported: Value,
                           isGood: SessionId -> bool, created: Option<SessionId>, settingsFail: bool) returns (r: Result<SessionId>)
      requires Valid()
      requires created.Some? ==> created.value !in active
      modifies this`idle, this`active, this`nSessions, this`calls, this`borrows, this`addPropertyMap
      ensures Valid()
      ensures r.Err? ==> Borrowed(isGood, created, settingsFail, r, calls) && addPropertyMap == old(addPropertyMap)
      ensures r.Ok? ==> |calls| > 0 && Borrowed(isGood, created, settingsFail, r, calls[..|calls| - 1])
      ensures r.Ok? ==> calls[|calls| - 1] == Call.SetProperty(r.value, name, value)
      ensures r.Ok? ==>
        && Pooled(old(borrows)) !in old(addPropertyMap)
        && addPropertyMap == old(addPropertyMap)[Pooled(old(borrows)) := (name, reported)]
    {
      var before := borrows;
      r := Get(isGood, created, settingsFail);
      if r.Ok? {
        var s := r.value;
        var h := Pooled(before);  // s.impl()
        if h !in addPropertyMap {
          addPropertyMap := addPropertyMap[h := (name, reported)];
        }
        ghost var got := calls;
        calls := calls + [Call.SetProperty(s, name, value)];
        assert calls[..|calls| - 1] == got;
      }
    }

    /** setFeature: add a pool default feature; refused after shutdown and
        once a session exists. An existing default is not overwritten. */
    method SetFeature(name: string, state: bool) returns (r: Status)
      modifies this`featureMap
      ensures r == if old(shutdown) || nSessions > 0 then Failed(InvalidAccess) else Done
      ensures r.Failed? ==> featureMap == old(featureMap)
      ensures r.Done? ==> featureMap == if name in old(featureMap) then old(featureMap) else old(featureMap)[name := state]
      ensures r.Done? ==> GetFeature(name) == Ok(if name in old(featureMap) then old(featureMap)[name] else state)
    {
      if shutdown { return Failed(InvalidAccess); }
      if nSessions > 0 { return Failed(InvalidAccess); }
      if name !in featureMap {
        featureMap := featureMap[name := state];
      }
      return Done;
    }

    /** getFeature: the pool default for `name`. */
    function GetFeature(name: string): (r: Result<bool>)
      reads this
      ensures shutdown ==> r == Err(InvalidAccess)
      ensures !shutdown && name !in featureMap ==> r == Err(NotFound)
      ensures r.Ok? <==> !shutdown && name in featureMap
      ensures r.Ok? ==> r.value == featureMap[name]
    {
      if shutdown then Err(InvalidAccess)
      else if name !in featureMap then Err(NotFound)
      else Ok(featureMap[name])
    }

    /** setProperty: add a pool default property, under the same rules as
        setFeature. */
    method SetProperty(name: string, value: Value) returns (r: Status)
      modifies this`propertyMap
      ensures r == if old(shutdown) || nSessions > 0 then Failed(InvalidAccess) else Done
      ensures r.Failed? ==> propertyMap == old(propertyMap)
      ensures r.Done? ==> propertyMap == if name in old(propertyMap) then old(propertyMap) else old(propertyMap)[name := value]
      ensures r.Done? ==> GetProperty(name) == Ok(if name in old(propertyMap) then old(propertyMap)[name] else value)
    {
      if shutdown { return Failed(InvalidAccess); }
      if nSessions > 0 { return Failed(InvalidAccess); }
      if name !in propertyMap {
        propertyMap := propertyMap[name := value];
      }
      return Done;
    }

    /** getProperty: the pool default for `name`; unlike getFeature it does
        not look at the shut-down flag. */
    function GetProperty(name: string): (r: Result<Value>)
      reads this
      ensures r.Ok? <==> name in propertyMap
      ensures r.Ok? ==> r.value == propertyMap[name]
      ensures r.Err? ==> r.error == NotFound
    {
      if name !in propertyMap then Err(NotFound) else Ok(propertyMap[name])
    }

    /** putBack: take a borrowed session back. A good session is reset, gets
        the override records found under its SessionImpl undone and the pool
        defaults re-applied, and goes to the front of the idle list; a bad one
        is dropped. Either way it leaves the active list exactly once. `fails`
        says that one of the session's reset or setter calls throws: the
        session is then dropped too and the pool signals a bug check. An
        unknown session is a bug check with nothing changed. The records are
        filed under borrow wrappers, so the lookup finds none and no override
        is undone. */
    method PutBack(s: SessionId, isGood: SessionId -> bool, fails: bool) returns (r: Result<Disposal>)
      requires Valid()
      modifies this`idle, this`active, this`nSessions, this`calls
      ensures Valid()
      ensures old(shutdown) ==> r == Ok(Ignored) && unchanged(this`idle, this`active, this`nSessions, this`calls)
      ensures !old(shutdown) && s !in old(active) ==> r == Err(Bugcheck) && unchanged(this`idle, this`active, this`nSessions, this`calls)
      ensures !old(shutdown) && s in old(active) ==> active == RemoveFirst(old(active), s)
      ensures !old(shutdown) && s in old(active) && fails ==>
        r == Err(Bugcheck) && idle == old(idle) && nSessions == old(nSessions) - 1 && calls == old(calls)
      ensures !old(shutdown) && s in old(active) && !fails && isGood(s) ==>
        && r == Ok(Reused) && idle == [s] + old(idle) && nSessions == old(nSessions)
        && calls == old(calls) + ReturnCalls(s, Record(addPropertyMap, Impl(s)), Record(addFeatureMap, Impl(s)), featureMap, propertyMap)
        && calls == old(calls) + [Reset(s), ApplyDefaults(s, featureMap, propertyMap)]
      ensures !old(shutdown) && s in old(active) && !fails && !isGood(s) ==>
        r == Ok(Discarded) && idle == old(idle) && nSessions == old(nSessions) - 1 && calls == old(calls)
      ensures r == Ok(Reused) ==> s !in active
    {
      if shutdown { return Ok(Ignored); }
      if s !in active { return Err(Bugcheck); }
      r := Release(s, isGood, fails);
    }

    /** The part of putBack after the session was found in the active list. */
    method Release(s: SessionId, isGood: SessionId -> bool, fails: bool) returns (r: Result<Disposal>)
      requires Valid() && !shutdown && s in active
      modifies this`idle, this`active, this`nSessions, this`calls
      ensures Valid()
      ensures active == RemoveFirst(old(active), s) && s !in active
      ensures fails ==>
        r == Err(Bugcheck) && idle == old(idle) && nSessions == old(nSessions) - 1 && calls == old(calls)
      ensures !fails && isGood(s) ==>
        && r == Ok(Reused) && idle == [s] + old(idle) && nSessions == old(nSessions)
        && calls == old(calls) + ReturnCalls(s, Record(addPropertyMap, Impl(s)), Record(addFeatureMap, Impl(s)), featureMap, propertyMap)
        && calls == old(calls) + [Reset(s), ApplyDefaults(s, featureMap, propertyMap)]
      ensures !fails && !isGood(s) ==>
        r == Ok(Discarded) && idle == old(idle) && nSessions == old(nSessions) - 1 && calls == old(calls)
    {
      ExclusiveReturn(idle, active, s);
      active := RemoveFirst(active, s);  // std::find, then erase
      if fails {
        nSessions := nSessions - 1;
        return Err(Bugcheck);
      }
      if isGood(s) {
        // the finds of pHolder->session() in the override maps
        var addProperty := Record(addPropertyMap, Impl(s));
        var addFeature := Record(addFeatureMap, Impl(s));
        assert addProperty.None? && addFeature.None?;
        calls := calls + ReturnCalls(s, addProperty, addFeature, featureMap, propertyMap);
        idle := [s] + idle;
        r := Ok(Reused);
      } else {
        nSessions := nSessions - 1;
        r := Ok(Discarded);
      }
    }

    /** onJanitorTimer: the periodic sweep of the idle list; closes and
        erases stale or bad idle sessions while more than minSessions are
        allocated. */
    method OnJanitorTimer(idleAge: SessionId -> int, isGood: SessionId -> bool)
      requires Valid()
      modifies this`idle, this`nSessions, this`calls
      ensures Valid()
      ensures old(shutdown) ==> unchanged(this`idle, this`nSessions, this`calls)
      ensures !old(shutdown) ==>
        var sw := Sweep(old(idle), old(nSessions), minSessions, idleTime, idleAge, isGood);
        && idle == sw.0
        && nSessions == old(nSessions) - |sw.1|
        && calls == old(calls) + Closes(sw.1)
      ensures old(nSessions) > minSessions ==> nSessions >= minSessions
      ensures old(nSessions) <= minSessions ==> nSessions == old(nSessions)
    {
      if shutdown { return; }
      var kept, evicted, n := SweepIdle(idle, nSessions, minSessions, idleTime, idleAge, isGood);
      SweepPartition(idle, nSessions, minSessions, idleTime, idleAge, isGood);
      SweepFloor(idle, nSessions, minSessions, idleTime, idleAge, isGood);
      ExclusiveShrink(idle, kept, active);
      calls := calls + Closes(evicted);
      idle := kept;
      nSessions := n;
    }

    /** closeAll over a copy of one list: close each session and decrement
        the counter while it is positive. The caller empties the list. */
    method CloseAll(list: seq<SessionId>)
      modifies this`nSessions, this`calls
      ensures nSessions == ClampedSub(old(nSessions), |list|)
      ensures calls == old(calls) + Closes(list)
    {
      var i := 0;
      while i < |list|
        invariant 0 <= i <= |list|
        invariant nSessions == ClampedSub(old(nSessions), i)
        invariant calls == old(calls) + Closes(list[..i])
      {
        ClampedSubStep(old(nSessions), i);
        ClosesAppend(list[..i], list[i]);
        assert list[..i + 1] == list[..i] + [list[i]];
        calls := calls + [Close(list[i])];
        if nSessions > 0 { nSessions := nSessions - 1; }
        i := i + 1;
      }
      assert list[..i] == list;
    }

    /** shutdown: stop the janitor and close every session, idle ones first;
        a second call does nothing. */
    method Shutdown()
      requires Valid()
      modifies this`shutdown, this`janitorRunning, this`idle, this`active, this`nSessions, this`calls
      ensures Valid()
      ensures shutdown && idle == [] && active == [] && nSessions == 0
      ensures old(shutdown) ==> unchanged(this`shutdown, this`janitorRunning, this`idle, this`active, this`nSessions, this`calls)
      ensures !old(shutdown) ==> !janitorRunning && calls == old(calls) + Closes(old(idle)) + Closes(old(active))
    {
      if shutdown { return; }
      shutdown := true;
      janitorRunning := false;
      CloseAll(idle);
      idle := [];
      CloseAll(active);
      active := [];
    }
  }

  lemma ClosesAppend(list: seq<SessionId>, s: SessionId)
    ensures Closes(list + [s]) == Closes(list) + [Close(s)]
  {
  }

  lemma {:induction false} ClampedSubStep(n: int, k: nat)
    ensures ClampedSub(n, k + 1) == if ClampedSub(n, k) > 0 then ClampedSub(n, k) - 1 else ClampedSub(n, k)
  {
  }
}
