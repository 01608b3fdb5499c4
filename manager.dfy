/**
 * The directory `XAirTaskManager` of pyxair/manager.py: one entry per console in the
 * latest scanner snapshot, each with its own client and the task running that client.
 * The snapshot that `await queue.get()` delivers is a parameter of `Reconcile`; the task
 * operations `cancel()` and `await task` are recorded, with each deletion and addition,
 * in a ghost log.
 */
module Manager {
  import opened Wrappers
  import opened Osc
  import opened Seqs
  import opened Client

  /** The namedtuple `XAirTask(xinfo, xair, task)` of an entry. */
  datatype Entry = Entry(xinfo: XInfo, xair: XAir, task: Session)

  /** What reconciliation does to the directory and to the tasks, in order. */
  datatype Event =
    | Deleted(x: XInfo)    // `del self._xairs[xinfo]`
    | Cancelled(x: XInfo)  // `task.cancel()`
    | Awaited(x: XInfo)    // `await task`
    | Added(x: XInfo)      // `self._xairs[xinfo] = XAirTask(...)`

  // ---- the specification of one reconciliation ----

  /** The keys of `keys` that `snapshot` keeps, in their order. */
  function Kept(keys: seq<XInfo>, snapshot: set<XInfo>): (r: seq<XInfo>)
    ensures |r| <= |keys| && forall i :: 0 <= i < |r| ==> r[i] in snapshot && r[i] in keys
  {
    if keys == [] then []
    else Kept(keys[..|keys| - 1], snapshot) + (if keys[|keys| - 1] in snapshot then [keys[|keys| - 1]] else [])
  }

  /** The events of the removal loop body for one key. */
  function RemovalOf(x: XInfo, snapshot: set<XInfo>): (e: seq<Event>)
    ensures |e| == (if x in snapshot then 0 else 3) && forall i :: 0 <= i < |e| ==> e[i].x == x
  {
    if x in snapshot then [] else [Deleted(x), Cancelled(x), Awaited(x)]
  }

  /** The events of the removal loop over `keys`, which is `list(self._xairs)`. */
  function Removals(keys: seq<XInfo>, snapshot: set<XInfo>): (e: seq<Event>)
    ensures |e| % 3 == 0 && forall i :: 0 <= i < |e| ==> !e[i].Added? && e[i].x in keys && e[i].x !in snapshot
  {
    if keys == [] then []
    else Removals(keys[..|keys| - 1], snapshot) + RemovalOf(keys[|keys| - 1], snapshot)
  }

  /** The events of the addition loop, which adds the keys `added` in that order. */
  function Additions(added: seq<XInfo>): (e: seq<Event>)
    ensures |e| == |added| && forall i :: 0 <= i < |added| ==> e[i] == Added(added[i])
  {
    if added == [] then [] else Additions(added[..|added| - 1]) + [Added(added[|added| - 1])]
  }

  /** The kept keys are exactly the keys that are in the snapshot, each once. */
  lemma {:induction false} KeptElements(keys: seq<XInfo>, snapshot: set<XInfo>)
    requires Distinct(keys)
    ensures Elements(Kept(keys, snapshot)) == Elements(keys) * snapshot
    ensures Distinct(Kept(keys, snapshot))
  {
    if keys != [] {
      var init := keys[..|keys| - 1];
      var x := keys[|keys| - 1];
      DistinctInit(keys);
      KeptElements(init, snapshot);
      assert keys == init + [x];
      ElementsSnoc(init, x);
      if x in snapshot {
        ElementsSnoc(Kept(init, snapshot), x);
        DistinctSnoc(Kept(init, snapshot), x);
      } else {
        assert Kept(keys, snapshot) == Kept(init, snapshot);
      }
    }
  }

  /** One more key of the removal loop's snapshot extends the kept keys by that key, if kept. */
  lemma KeptSnoc(keys: seq<XInfo>, i: nat, snapshot: set<XInfo>)
    requires i < |keys|
    ensures Kept(keys[..i + 1], snapshot) == Kept(keys[..i], snapshot) + (if keys[i] in snapshot then [keys[i]] else [])
  {
    assert keys[..i + 1][..i] == keys[..i];
  }

  /** A key missing from the snapshot that opens the rest of the loop comes out of the order in one `del`. */
  lemma KeptStep(keys: seq<XInfo>, i: nat, snapshot: set<XInfo>)
    requires Distinct(keys) && i < |keys| && keys[i] !in snapshot
    ensures Without(Kept(keys[..i], snapshot) + keys[i..], keys[i]) == Kept(keys[..i + 1], snapshot) + keys[i + 1..]
  {
    var x := keys[i];
    var p := Kept(keys[..i], snapshot);
    var rest := keys[i + 1..];
    assert x !in p && x !in rest by {
      DistinctAt(keys, i);
      DistinctPrefix(keys, i);
      KeptElements(keys[..i], snapshot);
      assert x !in Elements(p);
    }
    calc {
      Without(p + keys[i..], x);
    == { WithoutConcat(p, keys[i..], x); }
      Without(p, x) + Without(keys[i..], x);
    == { WithoutAbsent(p, x); assert keys[i..] == [x] + rest; WithoutConcat([x], rest, x); WithoutAbsent(rest, x); }
      p + rest;
    == { KeptSnoc(keys, i, snapshot); }
      Kept(keys[..i + 1], snapshot) + rest;
    }
  }

  /** One more key in the removal loop adds that key's events. */
  lemma RemovalsStep(keys: seq<XInfo>, i: nat, snapshot: set<XInfo>)
    requires i < |keys|
    ensures Removals(keys[..i + 1], snapshot) == Removals(keys[..i], snapshot) + RemovalOf(keys[i], snapshot)
  {
    assert keys[..i + 1][..i] == keys[..i];
  }

  /** The bookkeeping of the removal loop as it moves past `keys[i]`. */
  lemma ScanStep(keys: seq<XInfo>, i: nat, snapshot: set<XInfo>)
    requires Distinct(keys) && i < |keys|
    ensures forall y :: y in keys[..i + 1] <==> y in keys[..i] || y == keys[i]
    ensures keys[i] !in keys[..i]
    ensures Removals(keys[..i + 1], snapshot) == Removals(keys[..i], snapshot) + RemovalOf(keys[i], snapshot)
    ensures keys[i] in snapshot ==> Kept(keys[..i], snapshot) + keys[i..] == Kept(keys[..i + 1], snapshot) + keys[i + 1..]
    ensures keys[i] !in snapshot ==>
      Without(Kept(keys[..i], snapshot) + keys[i..], keys[i]) == Kept(keys[..i + 1], snapshot) + keys[i + 1..]
  {
    var x := keys[i];
    assert keys[..i + 1] == keys[..i] + [x];
    DistinctAt(keys, i);
    RemovalsStep(keys, i, snapshot);
    if x in snapshot {
      KeptSnoc(keys, i, snapshot);
      assert keys[i..] == [x] + keys[i + 1..];
      AppendAssoc(Kept(keys[..i], snapshot), [x], keys[i + 1..]);
    } else {
      KeptStep(keys, i, snapshot);
    }
  }

  /** The key at position `i` is among those not yet visited. */
  lemma Ahead(p: seq<XInfo>, keys: seq<XInfo>, i: nat)
    requires i < |keys|
    ensures keys[i] in Elements(p + keys[i..])
  {
    assert (p + keys[i..])[|p|] == keys[i];
  }

  /**
   * Each key that the snapshot drops is deleted, cancelled and awaited exactly once, and no
   * other key is; nothing is added by the removal loop.
   */
  lemma {:induction false} RemovalsOnce(keys: seq<XInfo>, snapshot: set<XInfo>, x: XInfo)
    requires Distinct(keys)
    ensures var m := multiset(Removals(keys, snapshot));
      var n := if x in keys && x !in snapshot then 1 else 0;
      m[Deleted(x)] == n && m[Cancelled(x)] == n && m[Awaited(x)] == n && m[Added(x)] == 0
  {
    if keys != [] {
      var init := keys[..|keys| - 1];
      var y := keys[|keys| - 1];
      var r := RemovalOf(y, snapshot);
      assert x in keys <==> x in init || x == y by {
        assert keys == init + [y];
      }
      assert Distinct(init) && y !in init by {
        DistinctInit(keys);
      }
      RemovalsOnce(init, snapshot, x);
      assert multiset(Removals(keys, snapshot)) == multiset(Removals(init, snapshot)) + multiset(r);
      RemovalOfOnce(y, snapshot, x);
    }
  }

  /** The events for one key `y` name `x` once each if `x` is that key and is dropped, else not at all. */
  lemma RemovalOfOnce(y: XInfo, snapshot: set<XInfo>, x: XInfo)
    ensures var m := multiset(RemovalOf(y, snapshot));
      var k := if x == y && x !in snapshot then 1 else 0;
      m[Deleted(x)] == k && m[Cancelled(x)] == k && m[Awaited(x)] == k && m[Added(x)] == 0
  {
    if y !in snapshot {
      var m := multiset(RemovalOf(y, snapshot));
      assert m == multiset{Deleted(y)} + multiset{Cancelled(y)} + multiset{Awaited(y)};
    }
  }

  /**
   * Every cancel in `e` directly follows the deletion of the same key and every await
   * directly follows its cancel; `e` adds nothing.
   */
  ghost predicate DeleteCancelAwait(e: seq<Event>) {
    && (forall i :: 0 <= i < |e| ==> !e[i].Added? && (e[i].Cancelled? || e[i].Awaited? ==> i > 0))
    && (forall i :: 0 < i < |e| ==>
          && (e[i].Cancelled? ==> e[i - 1] == Deleted(e[i].x))
          && (e[i].Awaited? ==> e[i - 1] == Cancelled(e[i].x)))
  }

  /** In the removal events each entry is gone before its task is cancelled, and cancelled before it is awaited. */
  lemma {:induction false} RemovalsOrdered(keys: seq<XInfo>, snapshot: set<XInfo>)
    ensures DeleteCancelAwait(Removals(keys, snapshot))
  {
    if keys != [] {
      var init := keys[..|keys| - 1];
      var y := keys[|keys| - 1];
      RemovalsOrdered(init, snapshot);
      var p := Removals(init, snapshot);
      var r := RemovalOf(y, snapshot);
      var e := p + r;
      assert Removals(keys, snapshot) == e;
      forall i | 0 <= i < |e|
        ensures !e[i].Added? && (e[i].Cancelled? || e[i].Awaited? ==> i > 0)
      {
        if i < |p| {
          assert e[i] == p[i];
        } else {
          assert r == [Deleted(y), Cancelled(y), Awaited(y)];
          assert e[i] == r[i - |p|];
        }
      }
      forall i | 0 < i < |e|
        ensures && (e[i].Cancelled? ==> e[i - 1] == Deleted(e[i].x))
                && (e[i].Awaited? ==> e[i - 1] == Cancelled(e[i].x))
      {
        if i < |p| {
          assert e[i] == p[i] && e[i - 1] == p[i - 1];
        } else {
          var k := i - |p|;
          assert r == [Deleted(y), Cancelled(y), Awaited(y)];
          assert e[i] == r[k];
          if k > 0 { assert e[i - 1] == r[k - 1]; } else { assert e[i - 1] == p[i - 1]; }
        }
      }
    }
  }

  /** In one reconciliation's events, every removal event comes before every addition. */
  lemma RemovalsBeforeAdditions(keys: seq<XInfo>, snapshot: set<XInfo>, added: seq<XInfo>)
    ensures var e := Removals(keys, snapshot) + Additions(added);
      forall i, j :: 0 <= i < |e| && 0 <= j < |e| && e[i].Added? && !e[j].Added? ==> j < i
  {
    var p := Removals(keys, snapshot);
    var e := p + Additions(added);
    RemovalsOrdered(keys, snapshot);
    forall i | 0 <= i < |p| ensures !e[i].Added? {
      assert e[i] == p[i];
    }
    assert forall j :: |p| <= j < |e| ==> e[j].Added?;
  }

  // ---- the bookkeeping of the addition loop ----

  /** Moving `x` from the identities still to visit to the visited ones adds it to the present ones. */
  lemma Progress(keys: set<XInfo>, base: set<XInfo>, snapshot: set<XInfo>, todo: set<XInfo>, x: XInfo)
    requires keys == base + (snapshot - todo) && x in todo && todo <= snapshot
    ensures keys + {x} == base + (snapshot - (todo - {x}))
  {
  }

  /** Visiting an identity that is already present changes neither the present ones nor the added ones. */
  lemma Skip(keys: set<XInfo>, base: set<XInfo>, snapshot: set<XInfo>, todo: set<XInfo>, x: XInfo, added: set<XInfo>)
    requires keys == base + (snapshot - todo) && added == (snapshot - todo) - base
    requires x in todo && x in keys
    ensures keys == base + (snapshot - (todo - {x})) && added == (snapshot - (todo - {x})) - base
  {
  }

  /** Recording the visit of a new identity `x` keeps the added identities distinct and exactly the new ones visited. */
  lemma AddedStep(added: seq<XInfo>, base: set<XInfo>, snapshot: set<XInfo>, todo: set<XInfo>, x: XInfo)
    requires Distinct(added) && Elements(added) == (snapshot - todo) - base
    requires x in todo && todo <= snapshot && x !in base
    ensures Distinct(added + [x]) && Elements(added + [x]) == (snapshot - (todo - {x})) - base
  {
    assert x !in Elements(added);
    DistinctSnoc(added, x);
    ElementsSnoc(added, x);
  }

  /** The tasks of the entries of `entries` whose identities `snapshot` lacks. */
  ghost function Dropped(entries: map<XInfo, Entry>, snapshot: set<XInfo>): set<Session>
  {
    set x | x in entries && x !in snapshot :: entries[x].task
  }

  class XAirTaskManager {
    /** `_xairs`: identity -> entry. */
    var xairs: map<XInfo, Entry>
    /** The insertion order of `_xairs`, which `list` follows. */
    var order: seq<XInfo>
    /** Every deletion, cancel, await and addition so far, oldest first. */
    ghost var log: seq<Event>

    /** The order lists each key once; each entry is for its key, with that key's client and task. */
    ghost predicate Valid()
      reads this
    {
      && Distinct(order) && Elements(order) == xairs.Keys
      && forall x :: x in xairs ==>
           xairs[x].xinfo == x && xairs[x].xair.xinfo == x && xairs[x].task.client == xairs[x].xair
    }

    /** The tasks of the entries that `snapshot` drops: all a reconciliation may change. */
    ghost function DroppedTasks(snapshot: set<XInfo>): set<Session>
      reads this
    {
      Dropped(xairs, snapshot)
    }

    constructor ()
      ensures Valid() && xairs == map[] && order == [] && log == []
    {
      xairs := map[];
      order := [];
      log := [];
    }

    /** `get_xair(xinfo)`: the entry's client, a client for that identity; `KeyError` if absent. */
    function GetXair(x: XInfo): (r: Result<XAir, Exception>)
      requires Valid()
      reads this
      ensures r.Success? <==> x in xairs
      ensures r.Success? ==> r.value.xinfo == x
      ensures r.Failure? ==> r.error == KeyError
    {
      if x in xairs then Success(xairs[x].xair) else Failure(KeyError)
    }

    /** `list_xairs()`: every identity in the directory once, in insertion order. */
    function ListXairs(): (r: seq<XInfo>)
      requires Valid()
      reads this
      ensures Distinct(r) && Elements(r) == xairs.Keys
    {
      order
    }

    /**
     * The body of the `while True` loop of `start` after `await queue.get()` has delivered
     * `snapshot`: the removal loop, then the addition loop, which adds the new identities
     * in the order `added`.
     */
    method Reconcile(snapshot: set<XInfo>) returns (ghost added: seq<XInfo>)
      requires Valid()
      modifies this`xairs, this`order, this`log, DroppedTasks(snapshot)
      ensures Valid()
      ensures xairs.Keys == snapshot
      ensures forall x :: x in old(xairs) && x in snapshot ==> xairs[x] == old(xairs[x])
      ensures forall x :: x in old(xairs) && x !in snapshot ==> old(xairs[x]).task.state == Stopped
      ensures Distinct(added) && Elements(added) == snapshot - old(xairs.Keys)
      ensures forall x :: x in xairs && x !in old(xairs) ==>
        && fresh(xairs[x].xair) && fresh(xairs[x].task) && xairs[x].task.state == Running
        && xairs[x].xair.cache == map[] && xairs[x].xair.meters == map[] && xairs[x].xair.subscriptions == {}
      ensures order == Kept(old(order), snapshot) + added
      ensures log == old(log) + Removals(old(order), snapshot) + Additions(added)
    {
      RemoveDropped(snapshot);
      added := AddNew(snapshot);
    }

    /** The first loop of the reconciliation: each entry the snapshot drops is deleted, then its task is cancelled and awaited. */
    method RemoveDropped(snapshot: set<XInfo>)
      requires Valid()
      modifies this`xairs, this`order, this`log, DroppedTasks(snapshot)
      ensures Valid()
      ensures xairs.Keys == old(xairs.Keys) * snapshot
      ensures forall x :: x in xairs ==> xairs[x] == old(xairs[x])
      ensures forall x :: x in old(xairs) && x !in snapshot ==> old(xairs[x]).task.state == Stopped
      ensures order == Kept(old(order), snapshot)
      ensures log == old(log) + Removals(old(order), snapshot)
    {
      var keys := order;
      ghost var entries := xairs;
      ghost var done := RemoveEach(snapshot, keys, entries, log);
      assert keys[..|keys|] == keys && keys[|keys|..] == [];
      assert order == Kept(keys, snapshot);
      assert xairs.Keys == entries.Keys * snapshot by {
        KeptElements(keys, snapshot);
      }
      forall x | x in entries && x !in snapshot ensures entries[x].task.state == Stopped {
        assert x !in xairs;
      }
    }

    /** The removal loop over the keys in the order they had before it, `keys`, with `entries` the entries before it. */
    method RemoveEach(snapshot: set<XInfo>, keys: seq<XInfo>, ghost entries: map<XInfo, Entry>, ghost log0: seq<Event>)
      returns (ghost done: set<Session>)
      requires Valid() && order == keys && xairs == entries && log == log0
      modifies this`xairs, this`order, this`log, Dropped(entries, snapshot)
      ensures Valid()
      ensures order == Kept(keys[..|keys|], snapshot) + keys[|keys|..]
      ensures forall x :: x in xairs ==> x in entries && xairs[x] == entries[x]
      ensures log == log0 + Removals(keys[..|keys|], snapshot)
      ensures forall x :: x in entries && x !in xairs ==> entries[x].task in done
      ensures forall s :: s in done ==> s.state == Stopped && s.client.xinfo !in xairs
    {
      ghost var dropped := Dropped(entries, snapshot);
      done := {};
      assert keys[..0] == [] && keys[0..] == keys;
      for i := 0 to |keys|
        invariant Distinct(keys) && Elements(keys) == entries.Keys
        invariant Valid()
        invariant order == Kept(keys[..i], snapshot) + keys[i..]
        invariant forall x :: x in xairs ==> x in entries && xairs[x] == entries[x]
        invariant log == log0 + Removals(keys[..i], snapshot)
        invariant forall x :: x in entries && x !in xairs ==> entries[x].task in done
        invariant forall s :: s in done ==> s.state == Stopped && s.client.xinfo !in xairs
      {
        assert keys[i] !in snapshot ==> entries[keys[i]].task in dropped by {
          assert keys[i] in Elements(keys);
        }
        done := Visit(snapshot, keys, i, entries, log0, done);
      }
    }

    /** The removal loop's iteration for the key `keys[i]`: dropped if the snapshot lacks it, otherwise passed over. */
    method Visit(snapshot: set<XInfo>, keys: seq<XInfo>, i: nat, ghost entries: map<XInfo, Entry>,
                 ghost log0: seq<Event>, ghost done: set<Session>) returns (ghost done': set<Session>)
      requires i < |keys| && Distinct(keys) && Elements(keys) == entries.Keys
      requires Valid()
      requires order == Kept(keys[..i], snapshot) + keys[i..]
      requires forall x :: x in xairs ==> x in entries && xairs[x] == entries[x]
      requires log == log0 + Removals(keys[..i], snapshot)
      requires forall x :: x in entries && x !in xairs ==> entries[x].task in done
      requires forall s :: s in done ==> s.state == Stopped && s.client.xinfo !in xairs
      modifies this`xairs, this`order, this`log, if keys[i] in snapshot then {} else {entries[keys[i]].task}
      ensures Valid()
      ensures order == Kept(keys[..i + 1], snapshot) + keys[i + 1..]
      ensures forall x :: x in xairs ==> x in entries && xairs[x] == entries[x]
      ensures log == log0 + Removals(keys[..i + 1], snapshot)
      ensures forall x :: x in entries && x !in xairs ==> entries[x].task in done'
      ensures forall s :: s in done' ==> s.state == Stopped && s.client.xinfo !in xairs
    {
      if keys[i] !in snapshot {
        done' := DropAt(snapshot, keys, i, entries, log0, done);
      } else {
        ScanStep(keys, i, snapshot);
        done' := done;
      }
    }

    /** The removal loop's iteration for a key `keys[i]` the snapshot drops. */
    method DropAt(snapshot: set<XInfo>, keys: seq<XInfo>, i: nat, ghost entries: map<XInfo, Entry>,
                  ghost log0: seq<Event>, ghost done: set<Session>) returns (ghost done': set<Session>)
      requires Valid() && i < |keys| && keys[i] !in snapshot && Distinct(keys) && Elements(keys) == entries.Keys
      requires order == Kept(keys[..i], snapshot) + keys[i..]
      requires forall x :: x in xairs ==> x in entries && xairs[x] == entries[x]
      requires log == log0 + Removals(keys[..i], snapshot)
      requires forall x :: x in entries && x !in xairs ==> entries[x].task in done
      requires forall s :: s in done ==> s.state == Stopped && s.client.xinfo !in xairs
      modifies this`xairs, this`order, this`log, entries[keys[i]].task
      ensures Valid() && xairs == old(xairs) - {keys[i]}
      ensures order == Kept(keys[..i + 1], snapshot) + keys[i + 1..]
      ensures forall x :: x in xairs ==> x in entries && xairs[x] == entries[x]
      ensures log == log0 + Removals(keys[..i + 1], snapshot)
      ensures forall x :: x in entries && x !in xairs ==> entries[x].task in done'
      ensures forall s :: s in done' ==> s.state == Stopped && s.client.xinfo !in xairs
    {
      var x := keys[i];
      assert x in xairs by {
        Ahead(Kept(keys[..i], snapshot), keys, i);
      }
      ScanStep(keys, i, snapshot);
      ghost var task := xairs[x].task;
      Drop(x, done);
      AppendAssoc(log0, Removals(keys[..i], snapshot), RemovalOf(x, snapshot));
      done' := done + {task};
      forall y | y in entries && y !in xairs ensures entries[y].task in done' {
        if y != x {
          assert y !in old(xairs);
        }
      }
      forall s | s in done' ensures s.state == Stopped && s.client.xinfo !in xairs {
        if s != task {
          assert s in done;
        }
      }
    }

    /** The body of the removal loop for a key `x` the snapshot drops; the tasks of `done` are left alone. */
    method Drop(x: XInfo, ghost done: set<Session>)
      requires Valid() && x in xairs
      requires forall s :: s in done ==> s.client.xinfo != x
      modifies this`xairs, this`order, this`log, xairs[x].task
      ensures Valid()
      ensures xairs == old(xairs) - {x}
      ensures order == Without(old(order), x)
      ensures log == old(log) + [Deleted(x), Cancelled(x), Awaited(x)]
      ensures old(xairs[x]).task.state == Stopped
      ensures unchanged(done)
    {
      var task := xairs[x].task;
      xairs := xairs - {x};
      order := Without(order, x);
      WithoutDistinct(old(order), x);
      log := log + [Deleted(x)];
      task.Cancel();
      log := log + [Cancelled(x)];
      task.Join();
      log := log + [Awaited(x)];
    }

    /** The body of the addition loop for an identity `x` not yet present: a new client and a running task for it. */
    method Add(x: XInfo)
      requires Valid() && x !in xairs
      modifies this`xairs, this`order, this`log
      ensures Valid()
      ensures xairs.Keys == old(xairs.Keys) + {x}
      ensures forall y :: y in old(xairs) ==> xairs[y] == old(xairs[y])
      ensures fresh(xairs[x].xair) && fresh(xairs[x].task) && xairs[x].task.state == Running
      ensures xairs[x].xair.cache == map[] && xairs[x].xair.meters == map[] && xairs[x].xair.subscriptions == {}
      ensures order == old(order) + [x]
      ensures log == old(log) + [Added(x)]
    {
      var xair := new XAir(x);
      var task := new Session(xair);
      assert x !in order;
      DistinctSnoc(order, x);
      ElementsSnoc(order, x);
      xairs := xairs[x := Entry(x, xair, task)];
      order := order + [x];
      log := log + [Added(x)];
    }

    /** The addition loop's iteration for an identity `x` of `todo` not yet present. */
    method AddStep(snapshot: set<XInfo>, x: XInfo, ghost todo: set<XInfo>, ghost base: set<XInfo>, ghost added: seq<XInfo>,
                   ghost order0: seq<XInfo>, ghost log0: seq<Event>) returns (ghost added': seq<XInfo>)
      requires Valid() && x in todo && todo <= snapshot && x !in xairs
      requires xairs.Keys == base + (snapshot - todo)
      requires Distinct(added) && Elements(added) == (snapshot - todo) - base
      requires order == order0 + added
      requires log == log0 + Additions(added)
      modifies this`xairs, this`order, this`log
      ensures Valid()
      ensures xairs.Keys == base + (snapshot - (todo - {x}))
      ensures forall y :: y in old(xairs) ==> xairs[y] == old(xairs[y])
      ensures fresh(xairs[x].xair) && fresh(xairs[x].task) && xairs[x].task.state == Running
      ensures xairs[x].xair.cache == map[] && xairs[x].xair.meters == map[] && xairs[x].xair.subscriptions == {}
      ensures Distinct(added') && Elements(added') == (snapshot - (todo - {x})) - base
      ensures order == order0 + added'
      ensures log == log0 + Additions(added')
    {
      assert x !in added;
      AddedStep(added, base, snapshot, todo, x);
      ghost var keys := xairs.Keys;
      Add(x);
      assert xairs.Keys == keys + {x};
      Progress(keys, base, snapshot, todo, x);
      AppendAssoc(order0, added, [x]);
      assert (added + [x])[..|added|] == added;
      AppendAssoc(log0, Additions(added), [Added(x)]);
      added' := added + [x];
    }

    /** The second loop of the reconciliation: each identity of the snapshot not yet present gets a new entry. */
    method AddNew(snapshot: set<XInfo>) returns (ghost added: seq<XInfo>)
      requires Valid() && xairs.Keys <= snapshot
      modifies this`xairs, this`order, this`log
      ensures Valid()
      ensures xairs.Keys == snapshot
      ensures forall x :: x in old(xairs) ==> xairs[x] == old(xairs[x])
      ensures Distinct(added) && Elements(added) == snapshot - old(xairs.Keys)
      ensures forall x :: x in xairs && x !in old(xairs) ==>
        && fresh(xairs[x].xair) && fresh(xairs[x].task) && xairs[x].task.state == Running
        && xairs[x].xair.cache == map[] && xairs[x].xair.meters == map[] && xairs[x].xair.subscriptions == {}
      ensures order == old(order) + added
      ensures log == old(log) + Additions(added)
    {
      added := [];
      var todo := snapshot;
      while todo != {}
        invariant todo <= snapshot
        invariant Valid()
        invariant xairs.Keys == old(xairs.Keys) + (snapshot - todo)
        invariant forall x :: x in old(xairs) ==> xairs[x] == old(xairs[x])
        invariant Distinct(added) && Elements(added) == (snapshot - todo) - old(xairs.Keys)
        invariant forall x :: x in xairs && x !in old(xairs) ==>
          && fresh(xairs[x].xair) && fresh(xairs[x].task) && xairs[x].task.state == Running
          && xairs[x].xair.cache == map[] && xairs[x].xair.meters == map[] && xairs[x].xair.subscriptions == {}
        invariant order == old(order) + added
        invariant log == old(log) + Additions(added)
        decreases todo
      {
        var x :| x in todo;
        if x !in xairs {
          added := AddStep(snapshot, x, todo, old(xairs.Keys), added, old(order), old(log));
        } else {
          Skip(xairs.Keys, old(xairs.Keys), snapshot, todo, x, Elements(added));
        }
        todo := todo - {x};
      }
    }
  }
}
