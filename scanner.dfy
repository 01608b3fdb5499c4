/**
 * The discovery tracker `XAirScanner` of pyxair/scanner.py. The broadcast socket is
 * replaced by a ghost log `broadcasts`; a reply arrives as its source `(ip, port)` and
 * the argument list of the decoded datagram. `now` is the integer clock of module Task.
 */
module Scanner {
  import opened Wrappers
  import opened Osc
  import opened Seqs
  import opened Queues
  import opened Client
  import opened Task

  const XinfoQuery: OscMessage := OscMessage("/xinfo", [])
  const BroadcastHost: string := "<broadcast>"
  const DiscoveryPort: int := 10024

  /** A datagram sent with `sendto(encode(message), (host, port))`. */
  datatype Datagram = Datagram(message: OscMessage, host: string, port: int)

  // ---- the publishing rule of `_notify` ----

  /** What `_notify` pushes to every subscriber: the current set, if it differs from the previous one. */
  function Publish(previous: set<XInfo>, current: set<XInfo>): (p: seq<set<XInfo>>)
    ensures p == [] <==> current == previous
    ensures |p| <= 1 && forall i :: 0 <= i < |p| ==> p[i] == current
  {
    if current != previous then [current] else []
  }

  /**
   * What one subscriber receives while `_notify` runs once for each set of `snapshots`,
   * starting from the previously published set `previous`.
   */
  function Deliveries(previous: set<XInfo>, snapshots: seq<set<XInfo>>): (d: seq<set<XInfo>>)
    ensures |d| <= |snapshots|
    decreases |snapshots|
  {
    if snapshots == [] then []
    else Publish(previous, snapshots[0]) + Deliveries(snapshots[0], snapshots[1..])
  }

  /** A subscriber receives only sets that some `_notify` found tracked. */
  lemma {:induction false} DeliveriesFromSnapshots(previous: set<XInfo>, snapshots: seq<set<XInfo>>)
    ensures forall i :: 0 <= i < |Deliveries(previous, snapshots)| ==> Deliveries(previous, snapshots)[i] in snapshots
    decreases |snapshots|
  {
    if snapshots != [] {
      DeliveriesFromSnapshots(snapshots[0], snapshots[1..]);
      var d := Deliveries(previous, snapshots);
      var p := Publish(previous, snapshots[0]);
      var rest := Deliveries(snapshots[0], snapshots[1..]);
      forall i | 0 <= i < |d| ensures d[i] in snapshots {
        if i < |p| {
          assert d[i] == snapshots[0];
        } else {
          assert d[i] == rest[i - |p|];
          assert rest[i - |p|] in snapshots[1..];
        }
      }
    }
  }

  /** No subscriber ever receives the same set twice in a row, nor the set published before it subscribed. */
  lemma {:induction false} DeliveriesNeverRepeat(previous: set<XInfo>, snapshots: seq<set<XInfo>>)
    ensures var d := Deliveries(previous, snapshots);
      && (|d| > 0 ==> d[0] != previous)
      && (forall i :: 0 <= i < |d| - 1 ==> d[i] != d[i + 1])
    decreases |snapshots|
  {
    if snapshots != [] {
      var s := snapshots[0];
      var rest := Deliveries(s, snapshots[1..]);
      DeliveriesNeverRepeat(s, snapshots[1..]);
      var d := Publish(previous, s) + rest;
      assert d == Deliveries(previous, snapshots);
      if s != previous {
        forall i | 0 <= i < |d| - 1 ensures d[i] != d[i + 1] {
          if i > 0 {
            assert d[i] == rest[i - 1] && d[i + 1] == rest[i];
          }
        }
      }
    }
  }

  /** A subscriber's latest set is always the latest snapshot: nothing is lost by the filter. */
  lemma {:induction false} DeliveriesTrackCurrent(previous: set<XInfo>, snapshots: seq<set<XInfo>>)
    requires snapshots != []
    ensures var d := [previous] + Deliveries(previous, snapshots);
      d[|d| - 1] == snapshots[|snapshots| - 1]
    decreases |snapshots|
  {
    var s := snapshots[0];
    var rest := Deliveries(s, snapshots[1..]);
    var d := [previous] + Deliveries(previous, snapshots);
    assert d == [previous] + Publish(previous, s) + rest;
    if |snapshots| > 1 {
      DeliveriesTrackCurrent(s, snapshots[1..]);
      assert ([s] + rest)[|[s] + rest| - 1] == snapshots[|snapshots| - 1];
    }
  }

  /** Since nothing is published before the first reply, the first discovery is always published. */
  lemma FirstDiscoveryPublished(previous: set<XInfo>, current: set<XInfo>, later: seq<set<XInfo>>)
    requires previous == {} && current != {}
    ensures |Deliveries(previous, [current] + later)| > 0 && Deliveries(previous, [current] + later)[0] == current
  {
    assert ([current] + later)[0] == current && ([current] + later)[1..] == later;
  }

  // ---- the stale sweep ----

  /** The sets `_notify` sees after each deletion of the sweep, which deletes the `removed` in order. */
  ghost function Shrinking(keys: set<XInfo>, removed: seq<XInfo>): (r: seq<set<XInfo>>)
    ensures |r| == |removed| && forall i :: 0 <= i < |r| ==> r[i] <= keys
  {
    if removed == [] then []
    else Shrinking(keys, removed[..|removed| - 1]) + [keys - Elements(removed)]
  }

  lemma {:induction false} ShrinkingAt(keys: set<XInfo>, removed: seq<XInfo>)
    ensures |Shrinking(keys, removed)| == |removed|
    ensures forall i :: 0 <= i < |removed| ==> Shrinking(keys, removed)[i] == keys - Elements(removed[..i + 1])
  {
    if removed != [] {
      var init := removed[..|removed| - 1];
      ShrinkingAt(keys, init);
      var sh := Shrinking(keys, removed);
      forall i | 0 <= i < |removed| ensures sh[i] == keys - Elements(removed[..i + 1]) {
        if i < |removed| - 1 {
          assert removed[..i + 1] == init[..i + 1];
        } else {
          assert removed[..i + 1] == removed;
        }
      }
    }
  }

  /** One more deletion publishes one more, smaller, set. */
  lemma ShrinkingStep(keys: set<XInfo>, removed: seq<XInfo>, x: XInfo)
    ensures Shrinking(keys, removed + [x]) == Shrinking(keys, removed) + [keys - Elements(removed + [x])]
  {
    assert (removed + [x])[..|removed|] == removed;
  }

  /** The bookkeeping of one step of a loop that deletes the identities of `stale` one by one. */
  lemma EvictStep<V>(tracked: map<XInfo, V>, stale: set<XInfo>, todo: set<XInfo>, removed: seq<XInfo>, x: XInfo)
    requires todo <= stale && x in todo && Distinct(removed) && Elements(removed) == stale - todo
    ensures Distinct(removed + [x]) && Elements(removed + [x]) == stale - (todo - {x})
    ensures (tracked.Keys - (stale - todo)) - {x} == tracked.Keys - (stale - (todo - {x}))
  {
    DistinctSnoc(removed, x);
    ElementsSnoc(removed, x);
  }

  /**
   * Each deletion of a tracked identity takes exactly one element out of the previous set,
   * so `_notify` publishes after every deletion of the sweep.
   */
  lemma {:induction false} ShrinkingPublished(keys: set<XInfo>, removed: seq<XInfo>)
    requires Distinct(removed) && Elements(removed) <= keys
    ensures Deliveries(keys, Shrinking(keys, removed)) == Shrinking(keys, removed)
  {
    if removed != [] {
      var init := removed[..|removed| - 1];
      var x := removed[|removed| - 1];
      DistinctInit(removed);
      assert removed == init + [x];
      ElementsSnoc(init, x);
      ShrinkingPublished(keys, init);
      ShrinkingAt(keys, init);
      var shInit := Shrinking(keys, init);
      var last := keys - Elements(removed);
      assert Shrinking(keys, removed) == shInit + [last];
      var before := if shInit == [] then keys else shInit[|shInit| - 1];
      assert before == keys - Elements(init) by {
        if init != [] {
          assert init[..|init| - 1 + 1] == init;
        }
      }
      assert x in before && x !in last;
      assert Publish(before, last) == [last];
      DeliveriesSnoc(keys, shInit, last);
    }
  }

  /** `_notify` after one more snapshot appends what `Publish` says to the stream. */
  lemma {:induction false} DeliveriesSnoc(previous: set<XInfo>, snapshots: seq<set<XInfo>>, s: set<XInfo>)
    ensures Deliveries(previous, snapshots + [s]) ==
      Deliveries(previous, snapshots) + Publish(if snapshots == [] then previous else snapshots[|snapshots| - 1], s)
    decreases |snapshots|
  {
    if snapshots == [] {
      assert ([s])[1..] == [];
    } else {
      assert (snapshots + [s])[0] == snapshots[0];
      assert (snapshots + [s])[1..] == snapshots[1..] + [s];
      DeliveriesSnoc(snapshots[0], snapshots[1..], s);
    }
  }

  class XAirScanner {
    /** `_connect`: whether each new identity's task connects a client at once. */
    const connect: bool
    /** `_meters`: read only as the extra argument of the `XAirTask` call in `receive`, which raises `TypeError`. */
    const meters: seq<int>
    /** `_xinfos`: identity -> task. */
    var xinfos: map<XInfo, XAirTask>
    /** `_previous_xinfos`. */
    var previous: set<XInfo>
    /** `_subscriptions`. */
    var subscriptions: set<Queue<set<XInfo>>>
    /** Every discovery broadcast sent, oldest first. */
    ghost var broadcasts: seq<Datagram>

    ghost predicate Valid()
      reads this, xinfos.Values
    {
      && previous == xinfos.Keys
      && forall x :: x in xinfos ==>
           && xinfos[x].xinfo == x
           && (xinfos[x].task != null <==> connect)
           && (xinfos[x].task != null ==> xinfos[x].task.client.xinfo == x)
    }

    /** The task objects of the tracked identities among `xs`: all a sweep of `xs` may change. */
    ghost function TasksOf(xs: set<XInfo>): set<Session>
      reads this, xinfos.Values
    {
      set x | x in xs && x in xinfos && xinfos[x].task != null :: xinfos[x].task
    }

    /** The identities whose task reports stale at `now` with the default timeout. */
    ghost function StaleAt(now: int): (r: set<XInfo>)
      reads this, xinfos.Values
      ensures r <= xinfos.Keys
    {
      set x | x in xinfos && xinfos[x].IsStale(now, DefaultTimeout)
    }

    constructor (connect: bool, meters: seq<int>)
      ensures Valid() && this.connect == connect && this.meters == meters
      ensures xinfos == map[] && previous == {} && subscriptions == {} && broadcasts == []
    {
      this.connect := connect;
      this.meters := meters;
      xinfos := map[];
      previous := {};
      subscriptions := {};
      broadcasts := [];
    }

    /** Entering `with subscribe()`. */
    method Subscribe() returns (q: Queue<set<XInfo>>)
      modifies this`subscriptions
      ensures fresh(q) && q.items == [] && subscriptions == old(subscriptions) + {q}
    {
      q := new Queue();
      subscriptions := subscriptions + {q};
    }

    /** Leaving the `with` block: `set.remove`, `KeyError` for a queue not subscribed. */
    method Release(q: Queue<set<XInfo>>) returns (r: Outcome<Exception>)
      modifies this`subscriptions
      ensures r == if q in old(subscriptions) then Pass else Fail(KeyError)
      ensures subscriptions == old(subscriptions) - {q}
    {
      if q in subscriptions {
        subscriptions := subscriptions - {q};
        r := Pass;
      } else {
        r := Fail(KeyError);
      }
    }

    /** `list()`: the tracked identities. */
    function List(): (r: set<XInfo>)
      reads this
      ensures forall x :: x in r <==> x in xinfos
    {
      xinfos.Keys
    }

    /** `get(xinfo)`: the task's client, which is `null` when it never connected; `KeyError` if untracked. */
    function Get(x: XInfo): (r: Result<XAir?, Exception>)
      reads this, xinfos.Values
      ensures r.Success? <==> x in xinfos
      ensures r.Success? ==> r.value == xinfos[x].xair
      ensures r.Failure? ==> r.error == KeyError
    {
      if x in xinfos then Success(xinfos[x].xair) else Failure(KeyError)
    }

    /**
     * `_notify()`: publish the tracked set if it changed, and remember it as published.
     * `keep` names session tasks the caller needs to know untouched: only subscriber
     * queues change, and stating it for `keep` spares the caller a frame argument.
     */
    method Notify(ghost keep: set<Session>)
      modifies this`previous, subscriptions
      ensures previous == xinfos.Keys
      ensures xinfos == old(xinfos) && subscriptions == old(subscriptions) && unchanged(xinfos.Values) && unchanged(keep)
      ensures forall q :: q in subscriptions ==> q.items == old(q.items) + Publish(old(previous), xinfos.Keys)
    {
      var current := List();
      if current != previous {
        var todo := subscriptions;
        while todo != {}
          invariant todo <= subscriptions
          invariant forall q :: q in subscriptions ==> q.items == old(q.items) + (if q in todo then [] else [current])
          decreases todo
        {
          var q :| q in todo;
          q.Put(current);
          todo := todo - {q};
        }
      }
      previous := current;
    }

    /**
     * The reader callback `receive` for a reply from `(ip, port)` carrying `args`, with the
     * task constructed as `XAirTask(xinfo, connect)` and a repeated reply refreshing the
     * identity's last-seen time.
     */
    method Receive(ip: string, port: int, args: seq<Arg>, now: int) returns (r: Outcome<Exception>)
      requires Valid()
      modifies this`xinfos, this`previous, xinfos.Values`seen, subscriptions
      ensures Valid() && subscriptions == old(subscriptions)
      ensures r == if |args| < 4 then Fail(IndexError) else Pass
      ensures |args| < 4 ==>
        && xinfos == old(xinfos) && previous == old(previous) && unchanged(xinfos.Values)
        && forall q :: q in subscriptions ==> q.items == old(q.items)
      ensures |args| >= 4 ==>
        var x := XInfo(ip, port, args[1], args[2], args[3]);
        && xinfos.Keys == old(xinfos.Keys) + {x}
        && (forall y :: y in old(xinfos) ==> xinfos[y] == old(xinfos[y]))
        && (forall y :: y in old(xinfos) && y != x ==> xinfos[y].seen == old(xinfos[y].seen))
        && xinfos[x].seen == now
        && (x !in old(xinfos) ==>
              && fresh(xinfos[x]) && xinfos[x].xinfo == x
              && (connect ==> xinfos[x].Connected() && fresh(xinfos[x].xair) && xinfos[x].task.state == Running
                              && xinfos[x].xair.Valid())
              && (!connect ==> xinfos[x].xair == null && xinfos[x].task == null))
        && forall q :: q in subscriptions ==> q.items == old(q.items) + Publish(old(xinfos.Keys), xinfos.Keys)
    {
      if |args| < 4 {
        return Fail(IndexError);
      }
      var x := XInfo(ip, port, args[1], args[2], args[3]);
      if x !in xinfos {
        var t := new XAirTask(x, connect, now);
        xinfos := xinfos[x := t];
      } else {
        xinfos[x].Refresh(now);
      }
      Notify({});
      r := Pass;
    }

    /**
     * `receive` as the source has it: `XAirTask(xinfo, self._connect, self._meters)` passes
     * three positional arguments to an initialiser that takes at most two and so raises
     * `TypeError` before the identity is stored; a reply from a tracked identity only calls
     * `_notify`, which publishes nothing, and does not refresh its last-seen time.
     */
    method ReceiveAsWritten(ip: string, port: int, args: seq<Arg>, now: int) returns (r: Outcome<Exception>)
      requires Valid()
      modifies this`previous, subscriptions
      ensures Valid() && xinfos == old(xinfos) && subscriptions == old(subscriptions)
      ensures r == if |args| < 4 then Fail(IndexError)
                   else if XInfo(ip, port, args[1], args[2], args[3]) !in xinfos then Fail(TypeError)
                   else Pass
      ensures forall q :: q in subscriptions ==> q.items == old(q.items)
    {
      if |args| < 4 {
        return Fail(IndexError);
      }
      var x := XInfo(ip, port, args[1], args[2], args[3]);
      if x !in xinfos {
        return Fail(TypeError);
      }
      Notify({});
      r := Pass;
    }

    /**
     * The state of the sweep's loop over `stale` with `todo` still to go: the identities
     * `removed` so far (in order) are gone from `tracked`, their tasks are in `done` and
     * stopped, and each queue holds what it held (`queued`) plus one set per deletion.
     */
    ghost predicate Evicting(stale: set<XInfo>, todo: set<XInfo>, removed: seq<XInfo>, tracked: map<XInfo, XAirTask>,
                             taskOf: map<XInfo, Session?>, queued: map<Queue<set<XInfo>>, seq<set<XInfo>>>, done: set<Session>)
      reads this, xinfos.Values, subscriptions, done
    {
      && Valid()
      && subscriptions == queued.Keys
      && stale <= tracked.Keys == taskOf.Keys
      && todo <= stale && Distinct(removed) && Elements(removed) == stale - todo
      && xinfos.Keys == tracked.Keys - (stale - todo)
      && (forall y :: y in xinfos ==> xinfos[y] == tracked[y] && xinfos[y].task == taskOf[y] && taskOf[y] !in done)
      && (connect ==> forall y :: y in stale && y !in todo ==> taskOf[y] != null && taskOf[y] in done)
      && (forall s :: s in done ==> s.state == Stopped)
      && (forall q :: q in subscriptions ==> q.items == queued[q] + Shrinking(tracked.Keys, removed))
    }

    /** `await self._xinfos[x].cancel()`: the identity's task is cancelled and has unwound. */
    method Stop(x: XInfo, ghost done: set<Session>)
      requires Valid() && x in xinfos && xinfos[x].task != null && xinfos[x].task !in done
      modifies xinfos[x].task
      ensures Valid() && xinfos[x].task.state == Stopped
      ensures unchanged(this) && unchanged(xinfos.Values) && unchanged(subscriptions) && unchanged(done)
    {
      var t := xinfos[x].Cancel();
      t.Join();
    }

    /**
     * `del self._xinfos[x]` followed by `_notify()`, which publishes the smaller set.
     * As for `Notify`, the sessions in `keep` are promised unchanged.
     */
    method Remove(x: XInfo, ghost keep: set<Session>)
      requires Valid() && x in xinfos
      modifies this`xinfos, this`previous, subscriptions
      ensures Valid() && xinfos == old(xinfos) - {x} && subscriptions == old(subscriptions)
      ensures unchanged(xinfos.Values) && unchanged(keep)
      ensures forall q :: q in subscriptions ==> q.items == old(q.items) + [old(xinfos.Keys) - {x}]
    {
      xinfos := xinfos - {x};
      Notify(keep);
    }

    /**
     * The body of the sweep's loop for one stale identity `x`: its task is cancelled and
     * awaited when `connect` is set, the identity is deleted and `_notify` runs.
     */
    method Evict(x: XInfo, ghost stale: set<XInfo>, ghost todo: set<XInfo>, ghost removed: seq<XInfo>,
                 ghost tracked: map<XInfo, XAirTask>, ghost taskOf: map<XInfo, Session?>,
                 ghost queued: map<Queue<set<XInfo>>, seq<set<XInfo>>>, ghost done: set<Session>)
      returns (ghost done': set<Session>)
      requires Evicting(stale, todo, removed, tracked, taskOf, queued, done) && x in todo
      modifies this`xinfos, this`previous, subscriptions
      modifies if xinfos[x].task == null then {} else {xinfos[x].task}
      ensures Evicting(stale, todo - {x}, removed + [x], tracked, taskOf, queued, done')
    {
      if connect {
        StopTracked(x, stale, todo, removed, tracked, taskOf, queued, done);
        done' := done + {taskOf[x]};
      } else {
        done' := done;
      }
      Forget(x, stale, todo, removed, tracked, taskOf, queued, done, done');
    }

    /** The first half of `Evict` when `connect` is set: `x`'s task is cancelled and awaited. */
    method StopTracked(x: XInfo, ghost stale: set<XInfo>, ghost todo: set<XInfo>, ghost removed: seq<XInfo>,
                       ghost tracked: map<XInfo, XAirTask>, ghost taskOf: map<XInfo, Session?>,
                       ghost queued: map<Queue<set<XInfo>>, seq<set<XInfo>>>, ghost done: set<Session>)
      requires Evicting(stale, todo, removed, tracked, taskOf, queued, done) && x in todo && connect
      modifies xinfos[x].task
      ensures Evicting(stale, todo, removed, tracked, taskOf, queued, done)
      ensures taskOf[x] != null && taskOf[x].state == Stopped
    {
      Stop(x, done);
    }

    /** The second half of `Evict`: `x` is deleted and published, its task already in `done'`. */
    method Forget(x: XInfo, ghost stale: set<XInfo>, ghost todo: set<XInfo>, ghost removed: seq<XInfo>,
                  ghost tracked: map<XInfo, XAirTask>, ghost taskOf: map<XInfo, Session?>,
                  ghost queued: map<Queue<set<XInfo>>, seq<set<XInfo>>>, ghost done: set<Session>, ghost done': set<Session>)
      requires Evicting(stale, todo, removed, tracked, taskOf, queued, done) && x in todo
      requires connect ==> taskOf[x] != null && taskOf[x].state == Stopped && done' == done + {taskOf[x]}
      requires !connect ==> done' == done
      modifies this`xinfos, this`previous, subscriptions
      ensures Valid() && subscriptions == queued.Keys
      ensures Distinct(removed + [x]) && Elements(removed + [x]) == stale - (todo - {x})
      ensures xinfos.Keys == tracked.Keys - (stale - (todo - {x}))
      ensures forall y :: y in xinfos ==> xinfos[y] == tracked[y] && xinfos[y].task == taskOf[y] && taskOf[y] !in done'
      ensures connect ==> forall y :: y in stale && y !in todo - {x} ==> taskOf[y] != null && taskOf[y] in done'
      ensures forall s :: s in done' ==> s.state == Stopped
      ensures forall q :: q in subscriptions ==> q.items == queued[q] + Shrinking(tracked.Keys, removed + [x])
    {
      EvictStep(tracked, stale, todo, removed, x);
      ghost var published := Shrinking(tracked.Keys, removed);
      ghost var keys := xinfos.Keys;
      forall s | s in done' ensures s.state == Stopped {
        if s !in done { assert s == taskOf[x]; }
      }
      Remove(x, done');
      forall q | q in subscriptions
        ensures q.items == queued[q] + Shrinking(tracked.Keys, removed + [x])
      {
        ShrinkingStep(tracked.Keys, removed, x);
        AppendAssoc(queued[q], published, [keys - {x}]);
      }
      forall y | y in xinfos
        ensures xinfos[y] == tracked[y] && xinfos[y].task == taskOf[y] && taskOf[y] !in done'
      {
        assert y in keys && y != x;
        assert taskOf[y] == null || taskOf[y].client.xinfo == y;
      }
    }

    /**
     * The `for` loop of `refresh` over the stale identities `stale`, taken in some order
     * `removed`: each is evicted in turn, so each deletion is published on its own.
     */
    method EvictAll(stale: set<XInfo>) returns (ghost removed: seq<XInfo>)
      requires Valid() && stale <= xinfos.Keys
      modifies this`xinfos, this`previous, subscriptions, TasksOf(stale)
      ensures Valid() && subscriptions == old(subscriptions)
      ensures Distinct(removed) && Elements(removed) == stale
      ensures xinfos == old(xinfos) - stale
      ensures connect ==> forall x :: x in stale ==> old(xinfos[x].task) != null && old(xinfos[x].task).state == Stopped
      ensures forall q :: q in subscriptions ==> q.items == old(q.items) + Shrinking(old(xinfos.Keys), removed)
    {
      ghost var tracked, taskOf, queued := Begin(stale);
      ghost var done: set<Session> := {};
      removed := [];
      var todo := stale;
      while todo != {}
        invariant Evicting(stale, todo, removed, tracked, taskOf, queued, done)
        decreases todo
      {
        var x :| x in todo;
        done := Evict(x, stale, todo, removed, tracked, taskOf, queued, done);
        removed := removed + [x];
        todo := todo - {x};
      }
      Finish(stale, removed, tracked, taskOf, queued, done);
    }

    /** The sweep's loop state before its first iteration: nothing removed, nothing stopped. */
    ghost method Begin(stale: set<XInfo>)
      returns (tracked: map<XInfo, XAirTask>, taskOf: map<XInfo, Session?>, queued: map<Queue<set<XInfo>>, seq<set<XInfo>>>)
      requires Valid() && stale <= xinfos.Keys
      ensures Evicting(stale, stale, [], tracked, taskOf, queued, {})
      ensures tracked == xinfos && queued.Keys == subscriptions
      ensures forall y :: y in tracked ==> taskOf[y] == tracked[y].task
      ensures forall q :: q in queued ==> queued[q] == q.items
    {
      tracked := xinfos;
      taskOf := map y | y in tracked :: tracked[y].task;
      queued := map q | q in subscriptions :: q.items;
    }

    /** The sweep's loop state after its last iteration, read back as the sweep's outcome. */
    ghost method Finish(stale: set<XInfo>, removed: seq<XInfo>, tracked: map<XInfo, XAirTask>, taskOf: map<XInfo, Session?>,
                        queued: map<Queue<set<XInfo>>, seq<set<XInfo>>>, done: set<Session>)
      requires Evicting(stale, {}, removed, tracked, taskOf, queued, done)
      ensures Valid() && subscriptions == queued.Keys
      ensures Distinct(removed) && Elements(removed) == stale
      ensures xinfos == tracked - stale
      ensures connect ==> forall x :: x in stale ==> taskOf[x] != null && taskOf[x].state == Stopped
      ensures forall q :: q in subscriptions ==> q.items == queued[q] + Shrinking(tracked.Keys, removed)
    {
      assert xinfos.Keys == tracked.Keys - stale;
    }

    /**
     * One iteration of the loop `refresh` in `start`, before its sleep: every identity stale
     * at `now` is evicted, in some order `removed`; then one discovery broadcast.
     */
    method Sweep(now: int) returns (ghost removed: seq<XInfo>)
      requires Valid()
      modifies this`xinfos, this`previous, this`broadcasts, subscriptions, TasksOf(StaleAt(now))
      ensures Valid() && subscriptions == old(subscriptions)
      ensures Distinct(removed) && Elements(removed) == old(StaleAt(now))
      ensures xinfos == old(xinfos) - Elements(removed)
      ensures connect ==> forall x :: x in old(StaleAt(now)) ==>
        old(xinfos[x].task) != null && old(xinfos[x].task).state == Stopped
      ensures forall q :: q in subscriptions ==> q.items == old(q.items) + Shrinking(old(xinfos.Keys), removed)
      ensures broadcasts == old(broadcasts) + [Datagram(XinfoQuery, BroadcastHost, DiscoveryPort)]
    {
      var stale := set x | x in xinfos && xinfos[x].IsStale(now, DefaultTimeout);
      removed := EvictAll(stale);
      broadcasts := broadcasts + [Datagram(XinfoQuery, BroadcastHost, DiscoveryPort)];
    }
  }

  /** `with scanner.subscribe()`: after the block the subscriptions are as before it. */
  method ScopedSubscription(s: XAirScanner)
    modifies s
    ensures s.subscriptions == old(s.subscriptions)
  {
    var q := s.Subscribe();
    var r := s.Release(q);
    assert r == Pass;
  }

  // ---- the two discrepancies of `receive`, on a fresh scanner ----

  /** As written, the first reply from a console raises `TypeError` and the console is never tracked. */
  method AsWrittenFirstReplyIsLost(connect: bool, ip: string, port: int, args: seq<Arg>, now: int)
    returns (r: Outcome<Exception>, tracked: set<XInfo>)
    requires |args| >= 4
    ensures r == Fail(TypeError) && tracked == {}
  {
    var s := new XAirScanner(connect, []);
    r := s.ReceiveAsWritten(ip, port, args, now);
    tracked := s.List();
  }

  /** With the task built as `XAirTask(xinfo, connect)`, the first reply tracks the console. */
  method FirstReplyIsTracked(connect: bool, ip: string, port: int, args: seq<Arg>, now: int)
    returns (r: Outcome<Exception>, tracked: set<XInfo>)
    requires |args| >= 4
    ensures r == Pass && tracked == {XInfo(ip, port, args[1], args[2], args[3])}
  {
    var s := new XAirScanner(connect, []);
    r := s.Receive(ip, port, args, now);
    tracked := s.List();
  }

  /**
   * The repeat reply as written, with the first defect corrected: the first reply at 0 s goes
   * through `Receive`, since as written it would raise `TypeError` and track nothing, and the
   * repeat reply at 20 s goes through `ReceiveAsWritten`. The sweep at 31 s evicts the console,
   * because the repeat reply leaves its last-seen time at the first reply.
   */
  method AsWrittenRepeatReplyIgnored(connect: bool, ip: string, port: int, args: seq<Arg>)
    returns (tracked: set<XInfo>)
    requires |args| >= 4
    ensures tracked == {}
  {
    var s := new XAirScanner(connect, []);
    var r := s.Receive(ip, port, args, 0);
    r := s.ReceiveAsWritten(ip, port, args, 20 * MicrosPerSecond);
    var removed := s.Sweep(31 * MicrosPerSecond);
    tracked := s.List();
  }

  /** With a repeat reply refreshing the last-seen time, the same console survives the sweep at 31 s. */
  method RepeatReplyRefreshes(connect: bool, ip: string, port: int, args: seq<Arg>)
    returns (tracked: set<XInfo>)
    requires |args| >= 4
    ensures tracked == {XInfo(ip, port, args[1], args[2], args[3])}
  {
    var s := new XAirScanner(connect, []);
    var r := s.Receive(ip, port, args, 0);
    r := s.Receive(ip, port, args, 20 * MicrosPerSecond);
    var removed := s.Sweep(31 * MicrosPerSecond);
    tracked := s.List();
  }

}
