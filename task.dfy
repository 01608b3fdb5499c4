/**
 * `XAirTask` of pyxair/task.py: one discovered device's last-seen time and, once
 * connected, its client and the task running that client's session. `datetime.now()`
 * is the parameter `now`, an integer clock in microseconds (the resolution of `datetime`).
 */
module Task {
  import opened Osc
  import opened Client

  const MicrosPerSecond: int := 1_000_000

  /** The default of `is_stale(timeout=30)`, in seconds. */
  const DefaultTimeout: int := 30

  /** `now - seen > timedelta(seconds=timeout)`: strictly more than `timeout` has elapsed. */
  predicate Stale(seen: int, now: int, timeout: int) {
    now - seen > timeout * MicrosPerSecond
  }

  /** Exactly `timeout` after the last sighting the device is not yet stale; one tick later it is. */
  lemma StaleBoundary(seen: int, timeout: int)
    ensures !Stale(seen, seen + timeout * MicrosPerSecond, timeout)
    ensures Stale(seen, seen + timeout * MicrosPerSecond + 1, timeout)
  {
  }

  /** Without a refresh, staleness only ever sets in: once stale, stale at every later time. */
  lemma StaleMonotone(seen: int, now: int, later: int, timeout: int)
    requires Stale(seen, now, timeout) && now <= later
    ensures Stale(seen, later, timeout)
  {
  }

  /** A shorter timeout is reached no later than a longer one. */
  lemma StaleAntitoneInTimeout(seen: int, now: int, shorter: int, longer: int)
    requires Stale(seen, now, longer) && shorter <= longer
    ensures Stale(seen, now, shorter)
  {
  }

  class XAirTask {
    const xinfo: XInfo
    /** `_seen`. */
    var seen: int
    /** `_xair`: `null` for `None`. */
    var xair: XAir?
    /** `_task`: `null` for `None`. */
    var task: Session?

    /** The connected state: a client for this identity and the task running it. */
    ghost predicate Connected()
      reads this, task
    {
      xair != null && task != null && task.client == xair && xair.xinfo == xinfo
    }

    /** `XAirTask(xinfo, connect)` at time `now`: fresh, and connected if asked. */
    constructor (xinfo: XInfo, connect: bool, now: int)
      ensures this.xinfo == xinfo && seen == now
      ensures forall timeout :: timeout >= 0 ==> !IsStale(now, timeout)
      ensures connect ==> Connected() && fresh(xair) && fresh(task) && task.state == Running && xair.Valid()
      ensures !connect ==> xair == null && task == null
    {
      this.xinfo := xinfo;
      xair := null;
      task := null;
      seen := now;
      new;
      if connect {
        Connect();
      }
    }

    /** `get_xair()`. */
    method GetXair() returns (r: XAir?)
      ensures r == xair
    {
      r := xair;
    }

    /** `refresh()`: seen now, so not stale now for any timeout that is not negative. */
    method Refresh(now: int)
      modifies this`seen
      ensures seen == now
      ensures forall timeout :: timeout >= 0 ==> !IsStale(now, timeout)
    {
      seen := now;
    }

    /** `is_stale(timeout)` at time `now`. */
    predicate IsStale(now: int, timeout: int)
      reads this
    {
      Stale(seen, now, timeout)
    }

    /** `connect()`: a new client for this identity and a new running task for its session. */
    method Connect()
      modifies this`xair, this`task
      ensures Connected() && fresh(xair) && fresh(task) && task.state == Running && xair.Valid()
      ensures xair.cache == map[] && xair.meters == map[] && xair.subscriptions == {}
    {
      xair := new XAir(xinfo);
      task := new Session(xair);
    }

    /** `cancel()`: cancels the task if there is one and returns it (`None` before `connect`). */
    method Cancel() returns (r: Session?)
      modifies if task == null then {} else {task}
      ensures r == task
      ensures r != null ==> r.state == if old(r.state) == Running then Cancelling else old(r.state)
    {
      r := task;
      if task != null {
        task.Cancel();
      }
    }
  }
}
