/**
 * The per-device client `XAir` of pyxair/client.py, with its running session task.
 * The socket is replaced by a ghost log `sent` of the messages handed to `_send`; the
 * opaque OSC codec is not modelled, so the receive path starts from a decoded message.
 */
module Client {
  import opened Wrappers
  import opened Osc
  import opened Seqs
  import opened Queues
  import opened Meter

  /** One element of `_subscriptions`: a consumer's queue and its `meters` flag. */
  datatype Subscription = Subscription(queue: Queue<OscMessage>, meters: bool)

  /**
   * A key `(id, channel)` of the meter registry `_meters`; `None` is Python's `None`.
   * The id is an integer, and keys are compared field by field (see `OscMessage`).
   */
  datatype MeterKey = MeterKey(id: int, channel: Option<Arg>)

  // ---- formatting of `f"/meters/{id}"` ----

  function DigitChar(d: nat): char
    requires d < 10
  {
    "0123456789"[d]
  }

  /** The number a string of decimal digits denotes, read most significant digit first. */
  function DigitsValue(s: string): int {
    if s == [] then 0 else 10 * DigitsValue(s[..|s| - 1]) + (s[|s| - 1] as int - '0' as int)
  }

  /** `str(n)` for a natural number. */
  function NatDecimal(n: nat): string
    decreases n
  {
    if n < 10 then [DigitChar(n)] else NatDecimal(n / 10) + [DigitChar(n % 10)]
  }

  /** `str(n)` for an int. */
  function Decimal(n: int): string {
    if n < 0 then "-" + NatDecimal(-n) else NatDecimal(n)
  }

  /** The argument list `enable_meter` stores: `["/meters/<id>"]`, then the channel if one is given. */
  function MeterArgs(key: MeterKey): (r: seq<Arg>)
    ensures |r| == (if key.channel.Some? then 2 else 1)
    ensures r[0].Str?
  {
    [Str(MeterPrefix + Decimal(key.id))] + (if key.channel.Some? then [key.channel.value] else [])
  }

  /** The first `/meters` argument names the address the console streams that meter on, a meter address. */
  lemma MeterArgsPath(key: MeterKey)
    ensures IsMeterAddress(MeterArgs(key)[0].s)
  {
    var p := MeterPrefix + Decimal(key.id);
    assert p[..|MeterPrefix|] == MeterPrefix;
  }

  /** `str(n)` of a natural number: digits only, no leading zero, and denoting `n`. */
  lemma {:induction false} NatDecimalDenotes(n: nat)
    ensures var r := NatDecimal(n);
      && |r| > 0 && (forall i :: 0 <= i < |r| ==> '0' <= r[i] <= '9')
      && (r[0] == '0' <==> n == 0)
      && DigitsValue(r) == n
    decreases n
  {
    if n >= 10 {
      NatDecimalDenotes(n / 10);
      var r := NatDecimal(n);
      assert r[..|r| - 1] == NatDecimal(n / 10);
    }
  }

  /** `str(n)` of an int: a minus sign exactly when `n` is negative, then the digits of its magnitude. */
  lemma DecimalDenotes(n: int)
    ensures var r := Decimal(n);
      && |r| > 0 && (r[0] == '-' <==> n < 0)
      && DigitsValue(if n < 0 then r[1..] else r) == if n < 0 then -n else n
  {
    NatDecimalDenotes(if n < 0 then -n else n);
    if n < 0 {
      assert Decimal(n)[1..] == NatDecimal(-n);
    }
  }

  /** `str` tells integers apart. */
  lemma DecimalInjective(a: int, b: int)
    requires Decimal(a) == Decimal(b)
    ensures a == b
  {
    DecimalDenotes(a);
    DecimalDenotes(b);
    var r := Decimal(a);
    assert (r[0] == '-') == (a < 0) == (b < 0);
  }

  /** Distinct registry keys store distinct `/meters` argument lists. */
  lemma MeterArgsInjective(k: MeterKey, l: MeterKey)
    requires MeterArgs(k) == MeterArgs(l)
    ensures k == l
  {
    var p := MeterPrefix;
    assert MeterArgs(k)[0].s == p + Decimal(k.id) && MeterArgs(l)[0].s == p + Decimal(l.id);
    assert Decimal(k.id) == (p + Decimal(k.id))[|p|..];
    assert Decimal(l.id) == (p + Decimal(l.id))[|p|..];
    DecimalInjective(k.id, l.id);
    if k.channel.Some? {
      assert MeterArgs(k)[1] == k.channel.value;
    }
  }

  // ---- fan-out and the receive path ----

  /** The filter of `_notify`: meter messages go only to subscriptions that asked for them. */
  predicate Delivers(wantsMeters: bool, m: OscMessage) {
    wantsMeters || !IsMeterAddress(m.address)
  }

  /** What `receive` hands to `_notify` for a decoded datagram, or the exception it raises. */
  function Inbound(m: OscMessage): (r: Result<OscMessage, Exception>)
    ensures r.Success? ==> r.value.address == m.address
    ensures !IsMeterAddress(m.address) ==> r == Success(m)
    ensures IsMeterAddress(m.address) ==> r == DecodeMeterMessage(m)
  {
    if IsMeterAddress(m.address) then DecodeMeterMessage(m) else Success(m)
  }

  // ---- the keep-alive tick ----

  const Xremote: OscMessage := OscMessage("/xremote", [])
  const MetersAddress: string := "/meters"

  /** One `/meters` request per registry value, in the registry's insertion order. */
  function MeterRequests(order: seq<MeterKey>, meters: map<MeterKey, seq<Arg>>): (r: seq<OscMessage>)
    requires forall k :: k in order ==> k in meters
    ensures |r| == |order| && forall i :: 0 <= i < |r| ==> r[i].address == MetersAddress
  {
    if order == [] then []
    else MeterRequests(order[..|order| - 1], meters) + [OscMessage(MetersAddress, meters[order[|order| - 1]])]
  }

  /** Everything one iteration of the keep-alive loop sends. */
  function KeepAliveBurst(order: seq<MeterKey>, meters: map<MeterKey, seq<Arg>>): (r: seq<OscMessage>)
    requires forall k :: k in order ==> k in meters
    ensures |r| == 1 + |order| && r[0] == Xremote
    ensures forall i :: 1 <= i < |r| ==> r[i].address == MetersAddress
  {
    [Xremote] + MeterRequests(order, meters)
  }

  lemma {:induction false} MeterRequestsAt(order: seq<MeterKey>, meters: map<MeterKey, seq<Arg>>)
    requires forall k :: k in order ==> k in meters
    ensures |MeterRequests(order, meters)| == |order|
    ensures forall i :: 0 <= i < |order| ==> MeterRequests(order, meters)[i] == OscMessage(MetersAddress, meters[order[i]])
  {
    if order != [] {
      var init := order[..|order| - 1];
      assert forall k :: k in init ==> k in order;
      MeterRequestsAt(init, meters);
      forall i | 0 <= i < |order| - 1 ensures order[i] == init[i] { }
    }
  }

  /**
   * The keep-alive burst of a registry whose order lists each key once: `/xremote` first,
   * then one `/meters` request carrying each registry value, `1 + |meters|` messages in all.
   */
  lemma KeepAliveBurstShape(order: seq<MeterKey>, meters: map<MeterKey, seq<Arg>>)
    requires Distinct(order) && meters.Keys == Elements(order)
    ensures var b := KeepAliveBurst(order, meters);
      && |b| == 1 + |meters|
      && b[0] == Xremote
      && (forall i :: 0 < i < |b| ==> b[i].address == MetersAddress)
      && (forall k :: k in meters ==> OscMessage(MetersAddress, meters[k]) in b[1..])
  {
    MeterRequestsAt(order, meters);
    DistinctCard(order);
    assert |meters| == |meters.Keys|;
    var b := KeepAliveBurst(order, meters);
    assert b[1..] == MeterRequests(order, meters);
    forall k | k in meters ensures OscMessage(MetersAddress, meters[k]) in b[1..] {
      var i :| 0 <= i < |order| && order[i] == k;
      assert b[1..][i] == OscMessage(MetersAddress, meters[k]);
    }
  }

  // ---- the cache writer ----

  /** The cache after the writer task has stored each message of `msgs` in turn. */
  function CacheAll(cache: map<string, OscMessage>, msgs: seq<OscMessage>): (r: map<string, OscMessage>)
    ensures cache.Keys <= r.Keys
  {
    if msgs == [] then cache
    else CacheAll(cache, msgs[..|msgs| - 1])[msgs[|msgs| - 1].address := msgs[|msgs| - 1]]
  }

  /** The writer adds exactly the addresses of the messages it stores. */
  lemma {:induction false} CacheAllKeys(cache: map<string, OscMessage>, msgs: seq<OscMessage>)
    ensures CacheAll(cache, msgs).Keys == cache.Keys + set i | 0 <= i < |msgs| :: msgs[i].address
  {
    if msgs != [] {
      var init := msgs[..|msgs| - 1];
      CacheAllKeys(cache, init);
      var last := msgs[|msgs| - 1];
      assert (set i | 0 <= i < |msgs| :: msgs[i].address) == (set i | 0 <= i < |init| :: init[i].address) + {last.address} by {
        forall i | 0 <= i < |init| ensures init[i] == msgs[i] { }
      }
    }
  }

  /** Last write wins: an address holds the latest message stored for it. */
  lemma {:induction false} CacheAllLastWrite(cache: map<string, OscMessage>, msgs: seq<OscMessage>, i: nat)
    requires i < |msgs|
    requires forall j :: i < j < |msgs| ==> msgs[j].address != msgs[i].address
    ensures msgs[i].address in CacheAll(cache, msgs) && CacheAll(cache, msgs)[msgs[i].address] == msgs[i]
  {
    if i < |msgs| - 1 {
      var init := msgs[..|msgs| - 1];
      CacheAllLastWrite(cache, init, i);
    }
  }

  /** An address no stored message carries keeps its old entry, or its absence. */
  lemma {:induction false} CacheAllUntouched(cache: map<string, OscMessage>, msgs: seq<OscMessage>, a: string)
    requires forall j :: 0 <= j < |msgs| ==> msgs[j].address != a
    ensures (a in CacheAll(cache, msgs) <==> a in cache)
    ensures a in cache ==> CacheAll(cache, msgs)[a] == cache[a]
  {
    if msgs != [] {
      CacheAllUntouched(cache, msgs[..|msgs| - 1], a);
    }
  }

  /** Fed only non-meter messages, as a `meters=False` queue is, the writer never caches a meter address. */
  lemma MeterMessagesNeverCached(cache: map<string, OscMessage>, msgs: seq<OscMessage>)
    requires forall j :: 0 <= j < |msgs| ==> !IsMeterAddress(msgs[j].address)
    ensures forall a :: a in CacheAll(cache, msgs) && a !in cache ==> !IsMeterAddress(a)
  {
    CacheAllKeys(cache, msgs);
  }

  // ---- get: the query/retry protocol ----

  /** One wake-up of `asyncio.wait_for(queue.get(), timeout)`. */
  datatype GetEvent = Msg(message: OscMessage) | Timeout

  /** How `get` ends: it returns a message, raises the third timeout, or is still waiting. */
  datatype GetOutcome = Found(message: OscMessage) | RequestTimeout | Pending

  datatype GetResult = GetResult(outcome: GetOutcome, sends: seq<OscMessage>)

  const MaxAttempts: nat := 3

  /**
   * The `while True` loop of `get` from attempt `attempt` on, over the wake-ups `events`:
   * its outcome and the number of queries it re-sends.
   */
  function Await(address: string, events: seq<GetEvent>, attempt: nat): (r: (GetOutcome, nat))
    requires attempt < MaxAttempts
    ensures r.1 < MaxAttempts - attempt
    ensures r.0 == RequestTimeout ==> r.1 == MaxAttempts - 1 - attempt
    decreases |events|
  {
    if events == [] then (Pending, 0)
    else match events[0]
      case Msg(m) =>
        if m.address == address then (Found(m), 0) else Await(address, events[1..], attempt)
      case Timeout =>
        if attempt + 1 < MaxAttempts then
          var r := Await(address, events[1..], attempt + 1);
          (r.0, r.1 + 1)
        else (RequestTimeout, 0)
  }

  /** `n` copies of the read request for `address`. */
  function Queries(address: string, n: nat): (qs: seq<OscMessage>)
    ensures |qs| == n && forall i :: 0 <= i < n ==> qs[i] == OscMessage(address, [])
  {
    seq(n, _ => OscMessage(address, []))
  }

  /** `get(address)` against a cache and the wake-ups its queue will see. */
  function GetSpec(cache: map<string, OscMessage>, address: string, events: seq<GetEvent>): (g: GetResult)
    ensures address in cache <==> g.sends == []
    ensures |g.sends| <= MaxAttempts
    ensures g.outcome == RequestTimeout ==> |g.sends| == MaxAttempts
  {
    if address in cache then GetResult(Found(cache[address]), [])
    else
      var r := Await(address, events, 0);
      GetResult(r.0, Queries(address, 1 + r.1))
  }

  function Timeouts(events: seq<GetEvent>): nat {
    if events == [] then 0 else (if events[0].Timeout? then 1 else 0) + Timeouts(events[1..])
  }

  /** Some wake-up delivers a message for `address`. */
  predicate Answered(address: string, events: seq<GetEvent>) {
    exists i :: 0 <= i < |events| && events[i].Msg? && events[i].message.address == address
  }

  lemma AnsweredTail(address: string, events: seq<GetEvent>)
    requires events != []
    ensures Answered(address, events) <==>
      (events[0].Msg? && events[0].message.address == address) || Answered(address, events[1..])
  {
    if Answered(address, events[1..]) {
      var i :| 0 <= i < |events| - 1 && events[1..][i].Msg? && events[1..][i].message.address == address;
      assert events[i + 1] == events[1..][i];
    }
    if Answered(address, events) {
      var i :| 0 <= i < |events| && events[i].Msg? && events[i].message.address == address;
      if i > 0 {
        assert events[1..][i - 1] == events[i];
      }
    }
  }

  /**
   * What the loop can return: only a message for `address` taken from the queue, after at
   * most two re-sends, one per timeout.
   */
  lemma {:induction false} AwaitSound(address: string, events: seq<GetEvent>, attempt: nat)
    requires attempt < MaxAttempts
    ensures var r := Await(address, events, attempt);
      && r.1 < MaxAttempts - attempt
      && r.1 <= Timeouts(events)
      && (r.0.Found? ==> r.0.message.address == address && Msg(r.0.message) in events)
    decreases |events|
  {
    if events != [] {
      if events[0].Msg? && events[0].message.address != address {
        AwaitSound(address, events[1..], attempt);
      } else if events[0].Timeout? && attempt + 1 < MaxAttempts {
        AwaitSound(address, events[1..], attempt + 1);
      }
    }
  }

  /** The loop is still waiting exactly when no answer came and fewer timeouts than attempts left. */
  lemma {:induction false} AwaitPending(address: string, events: seq<GetEvent>, attempt: nat)
    requires attempt < MaxAttempts
    ensures Await(address, events, attempt).0 == Pending <==>
      !Answered(address, events) && Timeouts(events) < MaxAttempts - attempt
    decreases |events|
  {
    if events != [] {
      AnsweredTail(address, events);
      if events[0].Msg? && events[0].message.address != address {
        AwaitPending(address, events[1..], attempt);
      } else if events[0].Timeout? && attempt + 1 < MaxAttempts {
        AwaitPending(address, events[1..], attempt + 1);
      }
    }
  }

  /** A device that never answers: the loop raises after its third timeout, having re-sent twice. */
  lemma {:induction false} AwaitNeverAnswered(address: string, events: seq<GetEvent>, attempt: nat)
    requires attempt < MaxAttempts
    requires !Answered(address, events) && Timeouts(events) >= MaxAttempts - attempt
    ensures Await(address, events, attempt) == (RequestTimeout, MaxAttempts - 1 - attempt)
    decreases |events|
  {
    AnsweredTail(address, events);
    if events[0].Msg? {
      AwaitNeverAnswered(address, events[1..], attempt);
    } else if attempt + 1 < MaxAttempts {
      AwaitNeverAnswered(address, events[1..], attempt + 1);
    }
  }

  /**
   * An answer after `k` timeouts and any number of unrelated messages, with `k` below the
   * attempts left: the loop returns it, having re-sent once per timeout.
   */
  lemma {:induction false} AwaitAnswered(address: string, before: seq<GetEvent>, m: OscMessage, after: seq<GetEvent>, attempt: nat)
    requires attempt < MaxAttempts
    requires !Answered(address, before) && m.address == address
    requires attempt + Timeouts(before) < MaxAttempts
    ensures Await(address, before + [Msg(m)] + after, attempt) == (Found(m), Timeouts(before))
    decreases |before|
  {
    var events := before + [Msg(m)] + after;
    if before != [] {
      AnsweredTail(address, before);
      assert events[1..] == before[1..] + [Msg(m)] + after;
      if before[0].Msg? {
        AwaitAnswered(address, before[1..], m, after, attempt);
      } else {
        AwaitAnswered(address, before[1..], m, after, attempt + 1);
      }
    } else {
      assert events[0] == Msg(m);
    }
  }

  /** A cached address is returned at once and nothing is sent. */
  lemma GetCacheHit(cache: map<string, OscMessage>, address: string, events: seq<GetEvent>)
    requires address in cache
    ensures GetSpec(cache, address, events) == GetResult(Found(cache[address]), [])
  {
  }

  /**
   * With a cache whose entries carry their own address, `get` only ever returns a message
   * for the requested address, and sends at most three read requests for it.
   */
  lemma GetSound(cache: map<string, OscMessage>, address: string, events: seq<GetEvent>)
    requires forall a :: a in cache ==> cache[a].address == a
    ensures var g := GetSpec(cache, address, events);
      && (g.outcome.Found? ==> g.outcome.message.address == address)
      && |g.sends| <= MaxAttempts
      && (forall i :: 0 <= i < |g.sends| ==> g.sends[i] == OscMessage(address, []))
  {
    if address !in cache {
      AwaitSound(address, events, 0);
    }
  }

  /** A device that never answers sees exactly three queries, and `get` raises. */
  lemma GetNeverAnswered(cache: map<string, OscMessage>, address: string, events: seq<GetEvent>)
    requires address !in cache
    requires !Answered(address, events) && Timeouts(events) >= MaxAttempts
    ensures GetSpec(cache, address, events) == GetResult(RequestTimeout, Queries(address, MaxAttempts))
  {
    AwaitNeverAnswered(address, events, 0);
  }

  /** An answer after `k < 3` timeouts is returned after `k + 1` queries. */
  lemma GetAnswered(cache: map<string, OscMessage>, address: string, before: seq<GetEvent>, m: OscMessage, after: seq<GetEvent>)
    requires address !in cache
    requires !Answered(address, before) && m.address == address && Timeouts(before) < MaxAttempts
    ensures GetSpec(cache, address, before + [Msg(m)] + after) == GetResult(Found(m), Queries(address, Timeouts(before) + 1))
  {
    AwaitAnswered(address, before, m, after, 0);
  }

  /** An unrelated message is discarded and does not use an attempt. */
  lemma GetSkipsUnrelated(cache: map<string, OscMessage>, address: string, m: OscMessage, events: seq<GetEvent>)
    requires m.address != address
    ensures GetSpec(cache, address, [Msg(m)] + events) == GetSpec(cache, address, events)
  {
    assert ([Msg(m)] + events)[1..] == events;
  }

  /** The wake-ups a `meters=False` queue can see: `_notify` never hands it a meter message. */
  predicate NonMeterEvents(events: seq<GetEvent>) {
    forall i :: 0 <= i < |events| && events[i].Msg? ==> !IsMeterAddress(events[i].message.address)
  }

  /** On a `meters=False` queue the loop never finds an answer for a meter address. */
  lemma {:induction false} AwaitMeterNeverFound(address: string, events: seq<GetEvent>, attempt: nat)
    requires attempt < MaxAttempts && IsMeterAddress(address) && NonMeterEvents(events)
    ensures !Await(address, events, attempt).0.Found?
    decreases |events|
  {
    if events != [] {
      assert NonMeterEvents(events[1..]) by {
        forall i | 0 <= i < |events| - 1 && events[1..][i].Msg?
          ensures !IsMeterAddress(events[1..][i].message.address)
        {
          assert events[1..][i] == events[i + 1];
        }
      }
      assert events[0].Msg? ==> events[0].message.address != address;
      if events[0].Msg? {
        AwaitMeterNeverFound(address, events[1..], attempt);
      } else if attempt + 1 < MaxAttempts {
        AwaitMeterNeverFound(address, events[1..], attempt + 1);
      }
    }
  }

  /** An uncached meter address cannot be read with `get`: it times out or stays waiting. */
  lemma GetMeterNeverFound(cache: map<string, OscMessage>, address: string, events: seq<GetEvent>)
    requires address !in cache && IsMeterAddress(address) && NonMeterEvents(events)
    ensures GetSpec(cache, address, events).outcome in {RequestTimeout, Pending}
  {
    AwaitMeterNeverFound(address, events, 0);
  }

  // ---- the client ----

  /** The state of the asyncio task running one client's `start()`. */
  datatype TaskState = Running | Cancelling | Stopped

  class XAir {
    const xinfo: XInfo
    /** `_cache`: address -> last message. */
    var cache: map<string, OscMessage>
    /** `_meters`: (id, channel) -> `/meters` arguments. */
    var meters: map<MeterKey, seq<Arg>>
    /** The insertion order of `_meters`, which `.values()` follows. */
    var meterOrder: seq<MeterKey>
    /** `_subscriptions`. */
    var subscriptions: set<Subscription>
    /** Every message passed to `_send`, oldest first. */
    ghost var sent: seq<OscMessage>

    ghost predicate Valid()
      reads this
    {
      && (forall a :: a in cache ==> cache[a].address == a)
      && Distinct(meterOrder) && meters.Keys == Elements(meterOrder)
      && (forall k :: k in meters ==> meters[k] == MeterArgs(k))
      && (forall s, t :: s in subscriptions && t in subscriptions && s.queue == t.queue ==> s == t)
    }

    /** The queues of the current subscriptions. */
    ghost function SubscribedQueues(): set<Queue<OscMessage>>
      reads this
    {
      set s | s in subscriptions :: s.queue
    }

    constructor (xinfo: XInfo)
      ensures Valid() && this.xinfo == xinfo
      ensures cache == map[] && meters == map[] && meterOrder == [] && subscriptions == {} && sent == []
    {
      this.xinfo := xinfo;
      cache := map[];
      meters := map[];
      meterOrder := [];
      subscriptions := {};
      sent := [];
    }

    /** Entering `with subscribe(meters)`: a new queue joins the subscriptions. */
    method Subscribe(wantsMeters: bool) returns (q: Queue<OscMessage>)
      requires Valid()
      modifies this`subscriptions
      ensures Valid() && fresh(q) && q.items == []
      ensures subscriptions == old(subscriptions) + {Subscription(q, wantsMeters)}
      ensures Subscription(q, wantsMeters) !in old(subscriptions)
    {
      q := new Queue();
      subscriptions := subscriptions + {Subscription(q, wantsMeters)};
    }

    /** Leaving the `with` block: `set.remove`, which raises `KeyError` for an absent element. */
    method Release(q: Queue<OscMessage>, wantsMeters: bool) returns (r: Outcome<Exception>)
      requires Valid()
      modifies this`subscriptions
      ensures Valid()
      ensures r == if Subscription(q, wantsMeters) in old(subscriptions) then Pass else Fail(KeyError)
      ensures subscriptions == old(subscriptions) - {Subscription(q, wantsMeters)}
    {
      if Subscription(q, wantsMeters) in subscriptions {
        subscriptions := subscriptions - {Subscription(q, wantsMeters)};
        r := Pass;
      } else {
        r := Fail(KeyError);
      }
    }

    /** `_send`: the datagram goes to `(xinfo.ip, xinfo.port)`. */
    method Send(m: OscMessage)
      modifies this`sent
      ensures sent == old(sent) + [m]
    {
      sent := sent + [m];
    }

    /**
     * `get(address)`, its queue's wake-ups given as `events`, which hold no meter message
     * because the queue subscribes with `meters=False`. Its temporary subscription
     * (`meters=False`) is gone again on return and on raise; a call still waiting when the
     * events run out keeps it.
     */
    method Get(address: string, events: seq<GetEvent>) returns (outcome: GetOutcome)
      requires Valid() && NonMeterEvents(events)
      modifies this`subscriptions, this`sent
      ensures Valid()
      ensures outcome == GetSpec(old(cache), address, events).outcome
      ensures sent == old(sent) + GetSpec(old(cache), address, events).sends
      ensures outcome != Pending ==> subscriptions == old(subscriptions)
      ensures outcome == Pending ==>
        exists q: Queue<OscMessage> :: fresh(q) && subscriptions == old(subscriptions) + {Subscription(q, false)}
      ensures address !in old(cache) && IsMeterAddress(address) ==> !outcome.Found?
    {
      if address !in cache && IsMeterAddress(address) {
        GetMeterNeverFound(cache, address, events);
      }
      if address in cache {
        return Found(cache[address]);
      }
      var query := OscMessage(address, []);
      var q := Subscribe(false);
      var sub := Subscription(q, false);
      Send(query);
      var attempt: nat := 0;
      var i := 0;
      while i < |events|
        invariant 0 <= i <= |events| && attempt < MaxAttempts
        invariant Valid() && address !in cache && fresh(q)
        invariant subscriptions == old(subscriptions) + {sub} && sub !in old(subscriptions)
        invariant sent == old(sent) + Queries(address, 1 + attempt)
        invariant Await(address, events, 0).0 == Await(address, events[i..], attempt).0
        invariant Await(address, events, 0).1 == Await(address, events[i..], attempt).1 + attempt
      {
        assert events[i..][1..] == events[i + 1..];
        match events[i] {
          case Msg(m) =>
            if m.address == address {
              outcome := Found(m);
              var _ := Release(q, false);
              return;
            }
          case Timeout =>
            attempt := attempt + 1;
            if attempt < MaxAttempts {
              Send(query);
              assert Queries(address, 1 + attempt - 1) + [query] == Queries(address, 1 + attempt);
            } else {
              outcome := RequestTimeout;
              var _ := Release(q, false);
              return;
            }
        }
        i := i + 1;
      }
      outcome := Pending;
      assert fresh(q) && subscriptions == old(subscriptions) + {Subscription(q, false)};
    }

    /** `put(address, arguments)`: an optimistic cache write and one send; no fan-out. */
    method Put(address: string, arguments: seq<Arg>)
      requires Valid()
      modifies this`cache, this`sent
      ensures Valid()
      ensures cache == old(cache)[address := OscMessage(address, arguments)]
      ensures sent == old(sent) + [OscMessage(address, arguments)]
    {
      var message := OscMessage(address, arguments);
      cache := cache[address := message];
      Send(message);
    }

    /** `enable_meter(id, channel)`: a new key goes to the end of the order, an existing one keeps its place. */
    method EnableMeter(id: int, channel: Option<Arg>)
      requires Valid()
      modifies this`meters, this`meterOrder
      ensures Valid()
      ensures meters == old(meters)[MeterKey(id, channel) := MeterArgs(MeterKey(id, channel))]
      ensures meterOrder == if MeterKey(id, channel) in old(meters) then old(meterOrder)
                            else old(meterOrder) + [MeterKey(id, channel)]
    {
      var key := MeterKey(id, channel);
      if key !in meters {
        meterOrder := meterOrder + [key];
        assert Distinct(meterOrder) by {
          assert key !in old(meterOrder);
        }
      }
      meters := meters[key := MeterArgs(key)];
    }

    /** `disable_meter(id, channel)`: `del`, which raises `KeyError` for an absent key. */
    method DisableMeter(id: int, channel: Option<Arg>) returns (r: Outcome<Exception>)
      requires Valid()
      modifies this`meters, this`meterOrder
      ensures Valid()
      ensures r == if MeterKey(id, channel) in old(meters) then Pass else Fail(KeyError)
      ensures meters == old(meters) - {MeterKey(id, channel)}
      ensures meterOrder == Without(old(meterOrder), MeterKey(id, channel))
    {
      var key := MeterKey(id, channel);
      if key in meters {
        meters := meters - {key};
        WithoutDistinct(meterOrder, key);
        WithoutElements(meterOrder, key);
        meterOrder := Without(meterOrder, key);
        r := Pass;
      } else {
        WithoutAbsent(meterOrder, key);
        r := Fail(KeyError);
      }
    }

    /** One iteration of the keep-alive loop `refresh` in `start`, before its eight-second sleep. */
    method KeepAlive()
      requires Valid()
      modifies this`sent
      ensures sent == old(sent) + KeepAliveBurst(meterOrder, meters)
    {
      Send(Xremote);
      SendMeterRequests(meterOrder, meters);
      AppendAssoc(old(sent), [Xremote], MeterRequests(meterOrder, meters));
    }

    /** The inner loop of `refresh`: one `/meters` request per registry value, in `order`. */
    method SendMeterRequests(order: seq<MeterKey>, registry: map<MeterKey, seq<Arg>>)
      requires forall k :: k in order ==> k in registry
      modifies this`sent
      ensures sent == old(sent) + MeterRequests(order, registry)
    {
      for i := 0 to |order|
        invariant sent == old(sent) + MeterRequests(order[..i], registry)
      {
        var message := OscMessage(MetersAddress, registry[order[i]]);
        ghost var done := order[..i + 1];
        ghost var requested := MeterRequests(order[..i], registry);
        assert done[..i] == order[..i] && done[i] == order[i];
        assert MeterRequests(done, registry) == requested + [message];
        Send(message);
        AppendAssoc(old(sent), requested, [message]);
      }
      assert order[..|order|] == order;
    }

    /** The writer task `cache` in `start`, run until its queue is empty. */
    method CacheWriter(q: Queue<OscMessage>)
      requires Valid() && Subscription(q, false) in subscriptions
      modifies this`cache, q
      ensures Valid()
      ensures cache == CacheAll(old(cache), old(q.items)) && q.items == []
      ensures (forall j :: 0 <= j < |old(q.items)| ==> !IsMeterAddress(old(q.items)[j].address)) ==>
        forall a :: a in cache && a !in old(cache) ==> !IsMeterAddress(a)
    {
      ghost var pending := q.items;
      var k := 0;
      while q.items != []
        invariant Valid() && 0 <= k <= |pending|
        invariant q.items == pending[k..]
        invariant cache == CacheAll(old(cache), pending[..k])
        decreases |q.items|
      {
        var message := q.Get();
        assert pending[..k + 1][..k] == pending[..k];
        cache := cache[message.address := message];
        k := k + 1;
      }
      assert pending[..k] == pending;
      if forall j :: 0 <= j < |pending| ==> !IsMeterAddress(pending[j].address) {
        MeterMessagesNeverCached(old(cache), pending);
      }
    }

    /** `_notify`: each subscription whose flag admits the message gets it appended. */
    method Notify(m: OscMessage)
      requires Valid()
      modifies SubscribedQueues()
      ensures forall s :: s in subscriptions ==>
        s.queue.items == old(s.queue.items) + (if Delivers(s.meters, m) then [m] else [])
    {
      var todo := subscriptions;
      while todo != {}
        invariant todo <= subscriptions
        invariant forall s :: s in subscriptions ==>
          s.queue.items == old(s.queue.items) + (if s !in todo && Delivers(s.meters, m) then [m] else [])
        decreases todo
      {
        var s :| s in todo;
        if Delivers(s.meters, m) {
          s.queue.Put(m);
        }
        todo := todo - {s};
      }
    }

    /**
     * The reader callback `receive` for one decoded datagram: a meter message has its blob
     * decoded into int16 samples, and the result is fanned out. The writer task, not this
     * callback, updates the cache. A malformed meter blob raises and nothing is delivered.
     */
    method Receive(m: OscMessage) returns (r: Outcome<Exception>)
      requires Valid()
      modifies SubscribedQueues()
      ensures r == if Inbound(m).Failure? then Fail(Inbound(m).error) else Pass
      ensures forall s :: s in subscriptions ==>
        s.queue.items == old(s.queue.items) +
          (if Inbound(m).Success? && Delivers(s.meters, Inbound(m).value) then [Inbound(m).value] else [])
    {
      var d := Inbound(m);
      if d.Failure? {
        return Fail(d.error);
      }
      Notify(d.value);
      r := Pass;
    }
  }

  /** `with xair.subscribe(meters)`: after the block the subscriptions are as before it. */
  method ScopedSubscription(x: XAir, wantsMeters: bool)
    requires x.Valid()
    modifies x
    ensures x.Valid() && x.subscriptions == old(x.subscriptions)
  {
    var q := x.Subscribe(wantsMeters);
    var r := x.Release(q, wantsMeters);
    assert r == Pass;
  }

  /**
   * The asyncio task running one client's `start()`. Cancelling a running task makes it
   * unwind; `start` absorbs the cancellation, so awaiting it then completes normally.
   */
  class Session {
    const client: XAir
    var state: TaskState

    constructor (client: XAir)
      ensures this.client == client && state == Running
    {
      this.client := client;
      state := Running;
    }

    /** `task.cancel()`: no effect on a task that is already cancelled or done. */
    method Cancel()
      modifies this
      ensures state == if old(state) == Running then Cancelling else old(state)
    {
      if state == Running {
        state := Cancelling;
      }
    }

    /** `await task` on a cancelled task: returns once it has unwound. */
    method Join()
      requires state != Running
      modifies this
      ensures state == Stopped
    {
      state := Stopped;
    }
  }
}
