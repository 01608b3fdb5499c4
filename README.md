# pyxair in Dafny

A model of the core of pyxair, a Python client for Behringer XAir mixing consoles that
speak OSC over UDP. The model covers four pieces:

- the per-console client `XAir` (pyxair/client.py). It holds a cache of the last message
  per address, a meter registry and a set of `(queue, meters)` subscriptions, and it
  provides `get` with three attempts, `put`, meter enable/disable, the keep-alive tick,
  the cache writer, the meter-blob decoder and the `_notify` fan-out;
- the discovery tracker `XAirScanner` (pyxair/scanner.py). It tracks one `XAirTask` per
  discovered console, publishes a snapshot of the tracked set only when the set changes,
  sweeps out stale consoles and broadcasts a discovery query;
- `XAirTask` (pyxair/task.py), which holds a console's last-seen time, strict staleness
  and, once connected, its client and session task;
- the reconciler `XAirTaskManager` (pyxair/manager.py). One iteration of its loop
  deletes the entries a new snapshot drops, cancelling and awaiting their tasks, and then
  adds an entry with a new client and a running task for each new identity.

## How the model is built

- **State and entities.**
  - Each Python object whose fields change is a Dafny `class` with those fields:
    `Client.XAir`, `Client.Session` (the asyncio task running a client),
    `Task.XAirTask`, `Scanner.XAirScanner`, `Manager.XAirTaskManager`, and
    `Queues.Queue` (for `asyncio.Queue`).
  - Values are datatypes: `OscMessage`, `XInfo`, subscriptions and registry keys.
  - Python dictionaries are `map`s. Where the code iterates a dictionary in insertion
    order, that order is kept as a `seq` beside the map (`meterOrder`, `order`).
  - Set iteration has no defined order, so the model picks elements of sets with `:|`.
- **Side effects become ghost logs.** Sends on a socket are recorded in the ghost log
  `XAir.sent`; discovery broadcasts go in `XAirScanner.broadcasts`. The manager's deletions,
  cancels, awaits and additions are recorded in its ghost `log`.
- **Time.** `datetime.now()` becomes an integer clock `now` in microseconds, which is the
  resolution of `datetime`. The properties that relate several readings assume a clock
  that never steps back; the wall clock can (see "## Left out").
- **Receiving.** A received datagram is given after decoding: as a message for the client,
  and as the source `(ip, port)` plus an argument list for the scanner. The sequence of
  wake-ups of `get`'s queue is a parameter, where each wake-up is a message or a timeout.
- **Specifications beside the methods.** Each loop is a method proved against pure
  specification functions:
  - `GetSpec`/`Await` for `get`;
  - `KeepAliveBurst` for the tick;
  - `CacheAll` for the writer;
  - `Publish`/`Deliveries`/`Shrinking` for the scanner's snapshots;
  - `Kept`/`Removals`/`Additions` for a reconciliation.

  The lemmas then state what the source promises about those functions.

Some behaviour of the code is worth stating outright:

- `put` writes the cache and sends; it does not notify subscribers.
- `receive` in the client only fans out. The cache is written by the separate `cache`
  writer task, which subscribes with `meters=False`. A client keeps no last-seen time;
  staleness exists only in `XAirTask`, whose last-seen time is set at construction; no code
  path calls its `refresh()` again.
- The scanner's broadcast period defaults to 5 seconds.
- The manager has no `subscribe` and republishes nothing.
- `get` restarts its timeout for every unrelated message it discards. A steady stream of
  unrelated messages can therefore keep it waiting without limit; this is the `Pending`
  outcome.

## Model

| member | source | states |
|---|---|---|
| Osc.StartsWith | pyxair/client.py:96 | Python's `str.startswith`: the prefix is an initial segment of the string |
| Meter.IsMeterAddress | pyxair/client.py:96 | a message is a meter message exactly when its address starts with `/meters/`, the test `receive` and `_notify` both make |
| Meter.Int16LE | pyxair/client.py:100 | a little-endian int16 read gives a value in the int16 range |
| Meter.Int32LE | pyxair/client.py:100 | a little-endian int32 read gives a value in the int32 range |
| Meter.Samples | pyxair/client.py:100 | an even buffer yields one sample per byte pair, sample `i` being the int16 at bytes `2i, 2i+1` |
| Meter.DecodeMeterBlob | pyxair/client.py:97-101 | decoding succeeds iff there are at least 4 bytes and exactly `4 + 2N` of them, where `N` is the int32 count in the first four; it then yields `N` int16 samples, and otherwise raises `struct.error` |
| Meter.DecodeMeterMessage | pyxair/client.py:96-101 | a meter message decodes iff its first argument is a blob that decodes; the address is kept and the samples become its arguments |
| Meter.MeterBlobRoundTrip | pyxair/client.py:97-101 | decoding the frame of any int16 sample list gives that list back |
| Meter.MeterBlobCanonical | pyxair/client.py:97-101 | every frame that decodes is the encoding of what it decodes to, so the format has no slack bytes |
| Meter.Int16RoundTrip | pyxair/client.py:100 | int16 encoding followed by `<h` decoding is the identity |
| Meter.Int16Canonical | pyxair/client.py:100 | every byte pair is the encoding of its int16 value |
| Meter.Int32RoundTrip | pyxair/client.py:100 | int32 encoding followed by `<i` decoding is the identity |
| Meter.Int32Canonical | pyxair/client.py:100 | every 4 bytes are the encoding of their int32 value |
| Meter.SamplesOfSampleBytes | pyxair/client.py:100 | decoding the bytes of a sample list gives the list |
| Meter.SampleBytesOfSamples | pyxair/client.py:100 | encoding the samples of an even buffer gives the buffer |
| Meter.MeterBlobExample | pyxair/client.py:97-101 | the frame `02 00 00 00 E8 03 18 FC` decodes to `[1000, -1000]` |
| Client.NatDecimal | pyxair/client.py:69 | `str(n)` of a natural number, most significant digit first; what it denotes is `NatDecimalDenotes` |
| Client.Decimal | pyxair/client.py:69 | `str(n)` of an int, a `-` before the digits of a negative one; what it denotes is `DecimalDenotes` |
| Client.NatDecimalDenotes | pyxair/client.py:69 | `str(n)` of a natural number is a non-empty string of digits with no leading zero (a first `0` only for `0`) that denotes `n` |
| Client.DecimalDenotes | pyxair/client.py:69 | `str(n)` of an int starts with `-` exactly when `n` is negative, and the digits after it denote the magnitude of `n` |
| Client.DecimalInjective | pyxair/client.py:69 | distinct integers format to distinct strings |
| Client.MeterArgs | pyxair/client.py:69-71 | the stored arguments are one string, plus one more when a channel is given |
| Client.MeterArgsPath | pyxair/client.py:69 | the first stored argument `/meters/<id>` is a meter address |
| Client.MeterArgsInjective | pyxair/client.py:67-71 | two registry keys store the same argument list only if they are the same key |
| Client.Delivers | pyxair/client.py:120 | the filter of `_notify`: a `meters=True` subscription receives every message, a `meters=False` one exactly the non-meter messages |
| Client.Inbound | pyxair/client.py:94-104 | a non-meter message is passed on unchanged; a meter message is decoded, keeping its address, or the decoding error is raised |
| Client.MeterRequests | pyxair/client.py:84-85 | one `/meters` message per registry key of the order |
| Client.KeepAliveBurst | pyxair/client.py:83-85 | one tick sends `1 + |meters|` messages: `/xremote` first, then only `/meters` messages |
| Client.MeterRequestsAt | pyxair/client.py:84-85 | the tick's meter requests are one `/meters` message per registry key, in registry order, carrying that key's arguments |
| Client.KeepAliveBurstShape | pyxair/client.py:83-85 | one tick sends `/xremote` with no arguments first, then `1 + |meters|` messages in all, including a `/meters` request for every registry value |
| Client.CacheAll | pyxair/client.py:90-92 | the writer never removes an address from the cache |
| Client.CacheAllKeys | pyxair/client.py:88-92 | the writer adds exactly the addresses of the messages it stores |
| Client.CacheAllLastWrite | pyxair/client.py:92 | an address holds the last message stored for it |
| Client.CacheAllUntouched | pyxair/client.py:92 | an address that no stored message carries keeps its old entry, or stays absent |
| Client.MeterMessagesNeverCached | pyxair/client.py:88-121 | fed only what a `meters=False` queue receives, the writer never caches a meter address |
| Client.Await | pyxair/client.py:41-59 | the loop re-sends fewer times than the attempts left, and it raises only after re-sending at every timeout but the last |
| Client.GetSpec | pyxair/client.py:35-59 | `get` sends nothing exactly when the address is cached, never sends more than three queries, and raises only after all three |
| Client.Queries | pyxair/client.py:39-57 | `n` copies of the read request `(address, [])` |
| Client.AnsweredTail | pyxair/client.py:43-44 | an answer is in the events iff it is the first event or an answer is among the rest |
| Client.AwaitSound | pyxair/client.py:41-59 | the loop returns only a message for `address` taken from its queue, and re-sends at most twice, once per timeout |
| Client.AwaitPending | pyxair/client.py:41-59 | the loop is still waiting iff no answer came and there were fewer timeouts than attempts left |
| Client.AwaitNeverAnswered | pyxair/client.py:47-59 | with no answer, the loop raises at the third timeout, having re-sent twice |
| Client.AwaitAnswered | pyxair/client.py:41-57 | an answer after `k` timeouts (fewer than the attempts left) and any unrelated messages is returned, with one re-send per timeout |
| Client.AwaitMeterNeverFound | pyxair/client.py:38-46 | on a `meters=False` queue the loop never returns a message for a meter address |
| Client.GetMeterNeverFound | pyxair/client.py:35-59 | an uncached meter address cannot be read with `get`: the call raises the timeout or is still waiting |
| Client.GetCacheHit | pyxair/client.py:36-37 | a cached address is returned at once, and nothing is sent |
| Client.GetSound | pyxair/client.py:35-59 | with a well-formed cache, `get` returns only messages for the requested address and sends at most three queries |
| Client.GetNeverAnswered | pyxair/client.py:38-59 | a console that never answers sees exactly three queries, and `get` raises the timeout |
| Client.GetAnswered | pyxair/client.py:38-57 | an answer after `k < 3` timeouts is returned after `k + 1` queries |
| Client.GetSkipsUnrelated | pyxair/client.py:43-46 | an unrelated message is discarded and does not use an attempt |
| Client.XAir.constructor | pyxair/client.py:16-22 | a new client for the identity has an empty cache, registry and subscription set, and has sent nothing |
| Client.XAir.Subscribe | pyxair/client.py:24-30 | a fresh, empty queue joins the subscriptions with its `meters` flag |
| Client.XAir.Release | pyxair/client.py:31-32 | the subscription is removed; `KeyError` if it was not there |
| Client.XAir.Send | pyxair/client.py:114-116 | the message is appended to the send log |
| Client.XAir.Get | pyxair/client.py:35-59 | its queue subscribes with `meters=False`, so its wake-ups carry no meter message. Outcome and sends are those of `GetSpec` on the cache at the call, and an uncached meter address is never found. The subscriptions are as before on return and on raise, and a call still waiting holds one fresh `meters=False` queue |
| Client.XAir.Put | pyxair/client.py:61-65 | `cache[address]` becomes `OscMessage(address, arguments)`, exactly that message is sent, and nothing else changes (no fan-out) |
| Client.XAir.EnableMeter | pyxair/client.py:67-71 | the key maps to `["/meters/<id>"]`, plus the channel when one is given; a new key goes to the end of the order, an existing one keeps its place |
| Client.XAir.DisableMeter | pyxair/client.py:73-75 | exactly that key is removed, from the registry and from the order; `KeyError` if absent |
| Client.XAir.KeepAlive | pyxair/client.py:82-85 | one tick sends exactly `KeepAliveBurst`: `/xremote`, then the registry's `/meters` requests in order |
| Client.XAir.SendMeterRequests | pyxair/client.py:84-85 | the sends are the `/meters` requests of the given keys, in order |
| Client.XAir.CacheWriter | pyxair/client.py:88-92 | draining its queue leaves the cache as `CacheAll` of the old cache and the queued messages; when the queue held no meter message, as on its `meters=False` queue, no meter address enters the cache |
| Client.XAir.Notify | pyxair/client.py:118-121 | each subscription gets the message appended iff it wants meters or the address is not a meter address; other queues are unchanged |
| Client.XAir.Receive | pyxair/client.py:94-104 | the inbound message, decoded if it is a meter message, is fanned out by the `_notify` rule; a blob that fails to decode raises, and nothing is delivered |
| Client.ScopedSubscription | pyxair/client.py:24-33 | a `with subscribe()` block leaves the subscription set as it found it |
| Client.Session.constructor | pyxair/manager.py:36 | a new task for a client is running |
| Client.Session.Cancel | pyxair/task.py:34 | `cancel()` moves a running task to cancelling and leaves a cancelled or finished one alone |
| Client.Session.Join | pyxair/manager.py:31 | awaiting a cancelled task ends with it stopped |
| Task.Stale | pyxair/task.py:26 | stale means strictly more than `timeout` seconds since the last sighting, counted in microseconds |
| Task.StaleBoundary | pyxair/task.py:25-26 | exactly `timeout` seconds after the last sighting a task is not stale; one microsecond later it is |
| Task.StaleMonotone | pyxair/task.py:25-26 | without a refresh, a stale task stays stale at every later clock reading, for a clock that never steps back |
| Task.StaleAntitoneInTimeout | pyxair/task.py:25-26 | a task stale for a longer timeout is stale for every shorter one |
| Task.XAirTask.constructor | pyxair/task.py:11-17 | a new task is not stale for any timeout of 0 or more; with `connect` it holds a fresh client for its identity and a running task for it, and without it holds neither |
| Task.XAirTask.GetXair | pyxair/task.py:19-20 | the client, or `None` before `connect` |
| Task.XAirTask.Refresh | pyxair/task.py:22-23 | after `refresh()` at `now`, the task is not stale at `now` for any timeout of 0 or more |
| Task.XAirTask.IsStale | pyxair/task.py:25-26 | `is_stale(timeout)` at `now` is `Stale` of the task's last-seen time |
| Task.XAirTask.Connect | pyxair/task.py:28-30 | a fresh client for this identity, with empty state, and a fresh running task for it |
| Task.XAirTask.Cancel | pyxair/task.py:32-35 | returns the task, or `None` before `connect`, and cancels it if there is one |
| Scanner.Publish | pyxair/scanner.py:36-40 | `_notify` pushes nothing iff the current set equals the previous one, and otherwise pushes the current set, once |
| Scanner.Deliveries | pyxair/scanner.py:35-41 | over a run of `_notify` calls a subscriber receives at most one set per call |
| Scanner.DeliveriesFromSnapshots | pyxair/scanner.py:35-41 | a subscriber receives only sets that were tracked at some `_notify` |
| Scanner.DeliveriesNeverRepeat | pyxair/scanner.py:35-41 | a subscriber never receives the same set twice in a row, nor the set that was published before it joined |
| Scanner.DeliveriesTrackCurrent | pyxair/scanner.py:35-41 | a subscriber's latest set, or the previous set if nothing was delivered, is always the latest snapshot |
| Scanner.FirstDiscoveryPublished | pyxair/scanner.py:21-41 | since the previous set starts empty, the first discovery is always published |
| Scanner.Shrinking | pyxair/scanner.py:60-64 | the sweep's deletions publish one set per deletion, each a subset of the set tracked before the sweep |
| Scanner.ShrinkingAt | pyxair/scanner.py:60-64 | after the `i`-th deletion of the sweep, the tracked set is the old one minus the first `i + 1` removed identities |
| Scanner.ShrinkingPublished | pyxair/scanner.py:60-64 | every deletion in a sweep changes the set, so each one is published on its own |
| Scanner.DeliveriesSnoc | pyxair/scanner.py:35-41 | one more `_notify` appends what `Publish` gives for it |
| Scanner.XAirScanner.constructor | pyxair/scanner.py:14-22 | nothing tracked, nothing published, no subscribers, no broadcasts |
| Scanner.XAirScanner.Subscribe | pyxair/scanner.py:24-30 | a fresh, empty queue joins the subscribers |
| Scanner.XAirScanner.Release | pyxair/scanner.py:31-32 | the queue leaves the subscribers; `KeyError` if it was not one |
| Scanner.XAirScanner.List | pyxair/scanner.py:46-47 | `list()` is exactly the set of tracked identities |
| Scanner.XAirScanner.Get | pyxair/scanner.py:43-44 | fails with `KeyError` iff the identity is untracked, and otherwise returns its task's client, which may be `None` |
| Scanner.XAirScanner.Notify | pyxair/scanner.py:35-41 | every subscriber gets `Publish(previous, tracked)` appended, and afterwards the previous set is the tracked set |
| Scanner.XAirScanner.Receive | pyxair/scanner.py:69-76 | fewer than 4 arguments raise `IndexError` and change nothing. Otherwise `XInfo(ip, port, args[1], args[2], args[3])` is tracked: a new identity gets a fresh task seen now, connected with a well-formed client if `connect` and otherwise with no client and no task (so `get` returns `None`), a known identity keeps its entry and is refreshed, and the change is published (the corrected behaviour; see Findings) |
| Scanner.XAirScanner.ReceiveAsWritten | pyxair/scanner.py:69-76 | as written, a new identity raises `TypeError` and is never tracked, a known one changes nothing, and nothing is published |
| Scanner.XAirScanner.Stop | pyxair/scanner.py:61-62 | `await cancel()`: the identity's task ends stopped, and nothing else changes |
| Scanner.XAirScanner.Remove | pyxair/scanner.py:63-64 | the identity is deleted and every subscriber gets the smaller set appended |
| Scanner.XAirScanner.Evict | pyxair/scanner.py:60-64 | one stale identity: its task is stopped if `connect` is set, then it is deleted and published |
| Scanner.XAirScanner.EvictAll | pyxair/scanner.py:60-64 | exactly the stale identities are deleted, each once and in some order; each deletion is published on its own; with `connect`, every one of their tasks is stopped |
| Scanner.XAirScanner.StaleAt | pyxair/scanner.py:55-59 | the set comprehension of stale identities under the default 30 s timeout, all of them tracked |
| Scanner.XAirScanner.Sweep | pyxair/scanner.py:55-67 | exactly the identities stale at `now` (default 30 s timeout) are evicted and published one deletion at a time; then exactly one `/xinfo` query with no arguments is broadcast to `<broadcast>:10024` |
| Scanner.ScopedSubscription | pyxair/scanner.py:24-33 | a `with subscribe()` block leaves the subscriber set as it found it |
| Scanner.AsWrittenFirstReplyIsLost | pyxair/scanner.py:75 | as written, the first reply from a console raises `TypeError` and the console is not tracked |
| Scanner.FirstReplyIsTracked | pyxair/scanner.py:72-76 | with `XAirTask(xinfo, connect)`, the first reply tracks exactly that console |
| Scanner.AsWrittenRepeatReplyIgnored | pyxair/scanner.py:55-76 | with the first defect corrected (the first reply goes through `Receive`) and the repeat reply as written, a console replying at 0 s and at 20 s is gone after the sweep at 31 s |
| Scanner.RepeatReplyRefreshes | pyxair/scanner.py:55-76 | with the repeat reply refreshing the console, it survives the sweep at 31 s |
| Manager.Kept | pyxair/manager.py:26-29 | the keys the removal loop leaves are at most as many as before, each an old key that the snapshot contains |
| Manager.RemovalOf | pyxair/manager.py:27-31 | a key the snapshot keeps gives no event; a dropped key gives three, all about that key |
| Manager.Removals | pyxair/manager.py:26-31 | the removal loop adds nothing and logs events in a multiple of three, each about an old key the snapshot does not contain (exactly three per dropped key is `RemovalsOnce`) |
| Manager.Additions | pyxair/manager.py:33-37 | the addition loop logs one `Added` per new identity, in the order they are added |
| Manager.KeptElements | pyxair/manager.py:26-29 | the keys left after the removal loop are exactly the old keys that the snapshot contains, each once |
| Manager.KeptStep | pyxair/manager.py:29 | one `del` of a dropped key removes exactly that key from the order |
| Manager.ScanStep | pyxair/manager.py:26-31 | one turn of the removal loop extends the log by that key's events, and keeps or drops the key in the order |
| Manager.RemovalsOnce | pyxair/manager.py:26-31 | each identity the snapshot drops is deleted, cancelled and awaited exactly once; no other identity is, and nothing is added |
| Manager.RemovalsOrdered | pyxair/manager.py:28-31 | every cancel directly follows the deletion of the same entry, and every await directly follows its cancel |
| Manager.RemovalsBeforeAdditions | pyxair/manager.py:26-37 | in one reconciliation every removal event precedes every addition |
| Manager.XAirTaskManager.constructor | pyxair/manager.py:10-11 | an empty directory |
| Manager.XAirTaskManager.GetXair | pyxair/manager.py:13-14 | succeeds iff the identity is present, with a client for that identity; `KeyError` otherwise |
| Manager.XAirTaskManager.ListXairs | pyxair/manager.py:16-17 | every identity of the directory exactly once |
| Manager.XAirTaskManager.Reconcile | pyxair/manager.py:24-37 | afterwards the keys are exactly the snapshot. Kept entries are unchanged, every dropped entry's task is stopped, and each new identity has a fresh client and a fresh running task with empty state. The order is the kept keys followed by the added ones. The log is the removal events and then the additions |
| Manager.XAirTaskManager.RemoveDropped | pyxair/manager.py:26-31 | the keys become the old keys within the snapshot; kept entries are unchanged, dropped tasks are stopped, the order is `Kept` and the log gains `Removals` |
| Manager.XAirTaskManager.Drop | pyxair/manager.py:26-31 | one dropped identity: deleted from the map and the order, then its task is cancelled and awaited, logged in that order |
| Manager.XAirTaskManager.AddNew | pyxair/manager.py:33-37 | each snapshot identity not yet present gets a fresh client and running task, added at the end of the order; existing entries are unchanged |
| Manager.XAirTaskManager.Add | pyxair/manager.py:34-37 | one new identity: a fresh client for it and a running task, appended to the order and logged |

## Left out

- The OSC byte codec (`encode`/`decode` in pyxair/osc.py) wraps the external `python-osc`
  package, which is not part of this model. The receive paths start from the decoded
  message or argument list, and sends are logged as messages.
- Sockets, `add_reader`, `sendto`/`recv`/`recvfrom` and the 512-byte receive buffer are
  not modelled. The model has no datagram truncation.
- Asyncio scheduling is not modelled: `create_task`, `gather`, `sleep`, the timer of
  `wait_for`, the interleaving of tasks at suspension points, and the `while True` loops
  of the `start` methods. The model takes one iteration of each loop: one keep-alive tick,
  the writer draining its queue, one sweep, and one reconciliation. A task's own body
  running is not modelled; `Session` tracks only running, cancelling and stopped.
- `await queue.get()` in the manager is the `snapshot` parameter of `Reconcile`.
- Logging is left out, including the WARN/ERROR choice in `get`, and so are `__repr__`
  and the `__main__` blocks.
- OSC float arguments are `real`. Nothing here computes with them.
- `Arg` has no case for the `datetime` (OSC timetag) arguments that pyxair/osc.py:18 allows.
  No core operation computes with one. As the first argument of a meter message it would
  raise `TypeError` at `data[0:4]`, which `DecodeMeterMessage` gives for any argument that
  is not a blob.
- `datetime.now()` is naive local wall-clock time, which can step back or forward at a
  daylight-saving change or a clock correction. A step back can make a stale task fresh
  again without `refresh()`; a step forward can make every tracked console stale at once.
  The model's clock `now` is a parameter that callers advance, so `Task.StaleMonotone`
  holds for a clock that never steps back.
- Python's `==` and hashing treat `1`, `1.0` and `True` as one value, so `(2, 1)` and
  `(2, 1.0)` are one `_meters` key, and two `XInfo`s that differ only that way are one
  identity. The model compares arguments by constructor, so `Int(1)` and `Float(1.0)`
  differ. `enable_meter` formats any `id`; the model takes an integer id.
- pyxair/pyxair.py, the top-level pyxair.py, setup.py and the tests are not part of this
  model.
- The scanner's `_meters` is read only as the third argument of the `XAirTask` call in
  `receive` (pyxair/scanner.py:75). That call raises `TypeError`, so the value has no
  effect and the model only stores it.
- Client.XAir.Get: the model's `timeout` is just a wake-up kind, `Timeout`; how long it
  lasts is not modelled.
- Manager.XAirTaskManager.Reconcile: the addition loop visits the snapshot in an order the
  model chooses (`added`), because Python set iteration order is unspecified.

## Findings

| source | as written | input that shows it | evidently intended | confidence | as-written member | corrected member |
|---|---|---|---|---|---|---|
| pyxair/scanner.py:75 | `XAirTask(xinfo, self._connect, self._meters)` passes three arguments to `XAirTask.__init__(self, xinfo, connect=False)` (pyxair/task.py:11), which raises `TypeError` | the first reply from any console, for example one with arguments `["/xinfo", "192.168.1.2", "XR18", "1.17"]` | the console is tracked with a task built as `XAirTask(xinfo, connect)`. The `meters` list the scanner is given was evidently meant to pre-register meter ids on each new console; that pre-registration is not part of the corrected behaviour, because `XAirTask` has no parameter for it | not executed | Scanner.AsWrittenFirstReplyIsLost | Scanner.FirstReplyIsTracked |
| pyxair/scanner.py:74-75 | a reply from an identity already tracked does not call `refresh()`, so its last-seen time stays at its first reply | with the first row's defect corrected so that the first reply is tracked, a console replies at 0 s and again at 20 s; the sweep at 31 s evicts it | each reply refreshes the identity, so a console that keeps replying is never swept | not executed | Scanner.AsWrittenRepeatReplyIgnored | Scanner.RepeatReplyRefreshes |

The corrected behaviour of both rows is `Scanner.XAirScanner.Receive`. The behaviour as
written is `Scanner.XAirScanner.ReceiveAsWritten`.
