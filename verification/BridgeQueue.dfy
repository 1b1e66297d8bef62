/**
 The bridge client: replies and events mixed over one socket, with a bounded side
 queue.  Events of one lane (the frames of one session, its close notices, the
 sidechannel) are never reordered, duplicated or lost; for callers that ask for session
 events and not for frames alone, neither is a session as a whole.
 */
module BridgeQueue {
  import opened Wrappers

  const USIZE_MAX: nat := 0xffff_ffff_ffff_ffff
  const U64_MAX: nat := 0xffff_ffff_ffff_ffff

  /** A machine word; the serialized length of a value is one. */
  type usize = n: int | 0 <= n <= USIZE_MAX

  /** The message's `type`: the ones the client knows by name, any other string, or none. */
  datatype Kind = SidechannelMessage | SessionFrame | SessionClosed | ErrorReply | Named(name: string) | Untyped

  /** The parts of a JSON message the client looks at; `size` is its serialized length. */
  datatype Value = Value(kind: Kind, session: Option<string>, id: Option<nat>, body: string, size: usize)

  /** What the socket yields: a JSON message, unparsable text, a ping or pong, a close. */
  datatype Incoming = Json(value: Value) | Garbage | Control | Close

  datatype Error = Closed | Timeout | BadJson | Protocol | ResourceLimit

  predicate IsAsyncEvent(v: Value) {
    if v.kind == SessionClosed then v.id.None?
    else v.kind == SidechannelMessage || v.kind == SessionFrame
  }

  predicate IsSessionEvent(v: Value) {
    v.kind == SessionFrame || v.kind == SessionClosed
  }

  /** What a caller of one of the `next_*` operations waits for. */
  datatype Filter = Sidechannel | AnyFrame | FrameOf(session: string) | SessionEvent(of: Option<string>)

  predicate Matches(f: Filter, v: Value) {
    match f
    case Sidechannel => v.kind == SidechannelMessage
    case AnyFrame => v.kind == SessionFrame
    case FrameOf(id) => v.kind == SessionFrame && v.session == Some(id)
    case SessionEvent(of) => IsSessionEvent(v) && (of.Some? ==> v.session == of)
  }

  // ---- lanes ----

  datatype Lane = Frames(session: Option<string>) | Closings(session: Option<string>) | Side | Whole(session: Option<string>)

  predicate InLane(v: Value, lane: Lane) {
    IsAsyncEvent(v) &&
    match lane
    case Frames(session) => v.kind == SessionFrame && v.session == session
    case Closings(session) => v.kind == SessionClosed && v.session == session
    case Side => v.kind == SidechannelMessage
    case Whole(session) => IsSessionEvent(v) && v.session == session
  }

  /** Whether a lane is looked at: whole sessions only on demand. */
  predicate Watched(whole: bool, lane: Lane) { whole || !lane.Whole? }

  /** Filters that take a session's frames and close notices alike, or neither. */
  predicate KeepsSessions(f: Filter) { f.Sidechannel? || f.SessionEvent? }

  function OfLane(s: seq<Value>, lane: Lane): seq<Value> {
    if s == [] then []
    else (if InLane(s[0], lane) then [s[0]] else []) + OfLane(s[1..], lane)
  }

  lemma {:induction false} OfLaneConcat(a: seq<Value>, b: seq<Value>, lane: Lane)
    ensures OfLane(a + b, lane) == OfLane(a, lane) + OfLane(b, lane)
  {
    if a == [] {
      assert a + b == b;
    } else {
      OfLaneConcat(a[1..], b, lane);
      assert (a + b)[1..] == a[1..] + b && (a + b)[0] == a[0];
      var head := if InLane(a[0], lane) then [a[0]] else [];
      assert head + (OfLane(a[1..], lane) + OfLane(b, lane)) == head + OfLane(a[1..], lane) + OfLane(b, lane);
    }
  }

  lemma {:induction false} OfLaneNone(s: seq<Value>, lane: Lane)
    requires forall v :: v in s ==> !InLane(v, lane)
    ensures OfLane(s, lane) == []
  {
    if s != [] { OfLaneNone(s[1..], lane); }
  }

  /** Whether a filter wants an event depends only on the event's lane. */
  lemma FilterSeesLanes(f: Filter, v: Value, w: Value, lane: Lane)
    requires InLane(v, lane) && InLane(w, lane) && Watched(KeepsSessions(f), lane)
    ensures Matches(f, v) == Matches(f, w)
  {}

  function Without(s: seq<Value>, i: nat): seq<Value>
    requires i < |s|
  {
    s[..i] + s[i + 1..]
  }

  lemma WithoutLater(s: seq<Value>, i: nat)
    requires 0 < i < |s|
    ensures Without(s, i) == [s[0]] + Without(s[1..], i - 1)
  {
  }

  lemma WithoutAndFirst(s: seq<Value>, i: nat, lane: Lane)
    requires 0 < i < |s|
    ensures OfLane(Without(s, i), lane) == OfLane([s[0]], lane) + OfLane(Without(s[1..], i - 1), lane)
  {
    WithoutLater(s, i);
    OfLaneConcat([s[0]], Without(s[1..], i - 1), lane);
  }

  /** Taking out the first match of a filter takes the first of its lane and leaves the others alone. */
  lemma {:induction false} FirstMatchIsFirstOfLane(s: seq<Value>, f: Filter, i: nat, lane: Lane)
    requires i < |s| && Matches(f, s[i]) && forall k :: 0 <= k < i ==> !Matches(f, s[k])
    requires Watched(KeepsSessions(f), lane)
    ensures OfLane(s, lane) == OfLane([s[i]], lane) + OfLane(Without(s, i), lane)
    decreases |s|
  {
    if i == 0 {
      assert Without(s, 0) == s[1..];
      OfLaneOne(s[0], lane);
    } else {
      FirstMatchIsFirstOfLane(s[1..], f, i - 1, lane);
      WithoutAndFirst(s, i, lane);
      OfLaneCons(s, lane);
      var h, e, w := OfLane([s[0]], lane), OfLane([s[i]], lane), OfLane(Without(s[1..], i - 1), lane);
      Regroup(h, e, w);
      Regroup(e, h, w);
      assert h == [] || e == [] by {
        OfLaneOne(s[0], lane);
        OfLaneOne(s[i], lane);
        if InLane(s[0], lane) && InLane(s[i], lane) { FilterSeesLanes(f, s[0], s[i], lane); }
      }
    }
  }

  lemma Regroup(a: seq<Value>, b: seq<Value>, c: seq<Value>)
    ensures a + (b + c) == a + b + c
  {
  }

  lemma OfLaneCons(s: seq<Value>, lane: Lane)
    requires s != []
    ensures OfLane(s, lane) == OfLane([s[0]], lane) + OfLane(s[1..], lane)
  {
    OfLaneOne(s[0], lane);
  }

  lemma OfLaneOne(v: Value, lane: Lane)
    ensures OfLane([v], lane) == if InLane(v, lane) then [v] else []
  {
    assert [v][1..] == [];
  }

  /** Nothing queued of an event's lane when nothing queued matches what it matches. */
  lemma NoMatchNoLane(s: seq<Value>, f: Filter, v: Value, lane: Lane)
    requires Matches(f, v) && InLane(v, lane) && Watched(KeepsSessions(f), lane) && forall w :: w in s ==> !Matches(f, w)
    ensures OfLane(s, lane) == []
  {
    forall w | w in s ensures !InLane(w, lane) {
      if InLane(w, lane) { FilterSeesLanes(f, v, w, lane); }
    }
    OfLaneNone(s, lane);
  }

  /** In one lane, what was handed out, then what still waits, is what arrived, in order. */
  ghost predicate LaneKept(delivered: seq<Value>, queue: seq<Value>, arrived: seq<Value>, lane: Lane) {
    OfLane(delivered, lane) + OfLane(queue, lane) == OfLane(arrived, lane)
  }

  ghost predicate Conserved(whole: bool, delivered: seq<Value>, queue: seq<Value>, arrived: seq<Value>) {
    forall lane :: Watched(whole, lane) ==> LaneKept(delivered, queue, arrived, lane)
  }

  lemma DeliverQueued(whole: bool, delivered: seq<Value>, queue: seq<Value>, arrived: seq<Value>, f: Filter, i: nat)
    requires Conserved(whole, delivered, queue, arrived) && (whole ==> KeepsSessions(f))
    requires i < |queue| && Matches(f, queue[i]) && forall k :: 0 <= k < i ==> !Matches(f, queue[k])
    ensures Conserved(whole, delivered + [queue[i]], Without(queue, i), arrived)
  {
    forall lane | Watched(whole, lane) ensures LaneKept(delivered + [queue[i]], Without(queue, i), arrived, lane) {
      FirstMatchIsFirstOfLane(queue, f, i, lane);
      OfLaneConcat(delivered, [queue[i]], lane);
      assert LaneKept(delivered, queue, arrived, lane);
    }
  }

  lemma DeliverFresh(whole: bool, delivered: seq<Value>, queue: seq<Value>, arrived: seq<Value>, f: Filter, v: Value)
    requires Conserved(whole, delivered, queue, arrived) && (whole ==> KeepsSessions(f)) && Matches(f, v)
    requires forall w :: w in queue ==> !Matches(f, w)
    ensures Conserved(whole, delivered + [v], queue, arrived + [v])
  {
    forall lane | Watched(whole, lane) ensures LaneKept(delivered + [v], queue, arrived + [v], lane) {
      OfLaneConcat(delivered, [v], lane);
      OfLaneConcat(arrived, [v], lane);
      if InLane(v, lane) { NoMatchNoLane(queue, f, v, lane); }
      assert LaneKept(delivered, queue, arrived, lane);
    }
  }

  lemma QueueFresh(whole: bool, delivered: seq<Value>, queue: seq<Value>, arrived: seq<Value>, v: Value)
    requires Conserved(whole, delivered, queue, arrived)
    ensures Conserved(whole, delivered, queue + [v], arrived + [v])
  {
    forall lane | Watched(whole, lane) ensures LaneKept(delivered, queue + [v], arrived + [v], lane) {
      OfLaneConcat(queue, [v], lane);
      OfLaneConcat(arrived, [v], lane);
      assert LaneKept(delivered, queue, arrived, lane);
    }
  }

  lemma SkipReply(whole: bool, delivered: seq<Value>, queue: seq<Value>, arrived: seq<Value>, v: Value)
    requires Conserved(whole, delivered, queue, arrived) && !IsAsyncEvent(v)
    ensures Conserved(whole, delivered, queue, arrived + [v])
  {
    forall lane | Watched(whole, lane) ensures LaneKept(delivered, queue, arrived + [v], lane) {
      OfLaneConcat(arrived, [v], lane);
      assert LaneKept(delivered, queue, arrived, lane);
    }
  }

  /** No later delivery shares a watched lane with delivery `k`. */
  ghost predicate NotOvertaken(whole: bool, delivered: seq<Value>, k: nat)
    requires k < |delivered|
  {
    forall i, lane :: k < i < |delivered| && Watched(whole, lane) && InLane(delivered[k], lane) ==> !InLane(delivered[i], lane)
  }

  /** An event that nothing of its lane follows is the last of its lane. */
  lemma {:induction false} LastOfItsLane(s: seq<Value>, k: nat, lane: Lane)
    requires k < |s| && forall i :: k < i < |s| && InLane(s[k], lane) ==> !InLane(s[i], lane)
    ensures OfLane(s, lane) == OfLane(Without(s, k), lane) + OfLane([s[k]], lane)
    decreases |s|
  {
    if k == 0 {
      assert Without(s, 0) == s[1..];
      OfLaneOne(s[0], lane);
      if InLane(s[0], lane) { OfLaneNone(s[1..], lane); }
    } else {
      LastOfItsLane(s[1..], k - 1, lane);
      WithoutAndFirst(s, k, lane);
      OfLaneCons(s, lane);
      Regroup(OfLane([s[0]], lane), OfLane(Without(s[1..], k - 1), lane), OfLane([s[k]], lane));
    }
  }

  /** Putting back an event that no later delivery of its lane has overtaken undoes that delivery. */
  lemma RequeueUndoesDelivery(whole: bool, delivered: seq<Value>, queue: seq<Value>, arrived: seq<Value>, k: nat)
    requires Conserved(whole, delivered, queue, arrived) && k < |delivered| && NotOvertaken(whole, delivered, k)
    ensures Conserved(whole, Without(delivered, k), [delivered[k]] + queue, arrived)
  {
    var e := delivered[k];
    forall lane | Watched(whole, lane) ensures LaneKept(Without(delivered, k), [e] + queue, arrived, lane) {
      LastOfItsLane(delivered, k, lane);
      OfLaneConcat([e], queue, lane);
      assert LaneKept(delivered, queue, arrived, lane);
    }
  }

  // ---- the byte counter ----

  function Bytes(s: seq<Value>): nat {
    if s == [] then 0 else s[0].size + Bytes(s[1..])
  }

  lemma {:induction false} BytesConcat(a: seq<Value>, b: seq<Value>)
    ensures Bytes(a + b) == Bytes(a) + Bytes(b)
  {
    if a == [] {
      assert a + b == b;
    } else {
      BytesConcat(a[1..], b);
      assert (a + b)[1..] == a[1..] + b;
    }
  }

  lemma {:induction false} BytesWithout(s: seq<Value>, i: nat)
    requires i < |s|
    ensures Bytes(s) == s[i].size + Bytes(Without(s, i))
    decreases |s|
  {
    if i == 0 {
      assert Without(s, 0) == s[1..];
    } else {
      BytesWithout(s[1..], i - 1);
      WithoutLater(s, i);
      assert Without(s, i)[1..] == Without(s[1..], i - 1);
    }
  }

  function SaturatingAdd(a: nat, b: nat): nat {
    if a + b > USIZE_MAX then USIZE_MAX else a + b
  }

  function SaturatingSub(a: nat, b: nat): nat {
    if a < b then 0 else a - b
  }

  predicate HasRoom(queued: nat, bytes: nat, size: nat, maxEvents: nat, maxBytes: nat) {
    queued < maxEvents && SaturatingAdd(bytes, size) <= maxBytes
  }

  /** The queue with its byte counter, and what is done to it. */
  datatype Ledger = Ledger(queue: seq<Value>, bytes: nat)

  datatype QueueOp = PushBack(event: Value) | PushFront(event: Value) | Remove(i: nat)

  function Perform(l: Ledger, op: QueueOp, maxEvents: nat, maxBytes: nat): Ledger {
    match op
    case PushBack(e) =>
      if HasRoom(|l.queue|, l.bytes, e.size, maxEvents, maxBytes) then Ledger(l.queue + [e], SaturatingAdd(l.bytes, e.size)) else l
    case PushFront(e) =>
      if HasRoom(|l.queue|, l.bytes, e.size, maxEvents, maxBytes) then Ledger([e] + l.queue, SaturatingAdd(l.bytes, e.size)) else l
    case Remove(i) =>
      if i < |l.queue| then Ledger(Without(l.queue, i), SaturatingSub(l.bytes, l.queue[i].size)) else l
  }

  function PerformAll(ops: seq<QueueOp>, maxEvents: nat, maxBytes: nat): Ledger {
    if ops == [] then Ledger([], 0)
    else Perform(PerformAll(ops[..|ops| - 1], maxEvents, maxBytes), ops[|ops| - 1], maxEvents, maxBytes)
  }

  /** The limits under which the counter cannot go wrong. */
  predicate Countable(maxEvents: nat, maxBytes: nat) { maxBytes < USIZE_MAX || maxEvents <= 1 }

  predicate Exact(l: Ledger, maxEvents: nat, maxBytes: nat) {
    |l.queue| <= maxEvents && l.bytes == Bytes(l.queue) && l.bytes <= maxBytes
  }

  lemma PerformIsExact(l: Ledger, op: QueueOp, maxEvents: nat, maxBytes: nat)
    requires maxBytes <= USIZE_MAX && Countable(maxEvents, maxBytes) && Exact(l, maxEvents, maxBytes)
    ensures Exact(Perform(l, op, maxEvents, maxBytes), maxEvents, maxBytes)
  {
    match op
    case PushBack(e) => BytesConcat(l.queue, [e]);
    case PushFront(e) => BytesConcat([e], l.queue);
    case Remove(i) => if i < |l.queue| { BytesWithout(l.queue, i); }
  }

  lemma {:induction false} CounterStaysExact(ops: seq<QueueOp>, maxEvents: nat, maxBytes: nat)
    requires maxBytes <= USIZE_MAX && Countable(maxEvents, maxBytes)
    ensures Exact(PerformAll(ops, maxEvents, maxBytes), maxEvents, maxBytes)
  {
    if ops != [] {
      CounterStaysExact(ops[..|ops| - 1], maxEvents, maxBytes);
      PerformIsExact(PerformAll(ops[..|ops| - 1], maxEvents, maxBytes), ops[|ops| - 1], maxEvents, maxBytes);
    }
  }

  /** After these operations the counter is not the size of what is queued. */
  predicate Drifts(ops: seq<QueueOp>, maxEvents: nat, maxBytes: nat) {
    var l := PerformAll(ops, maxEvents, maxBytes);
    l.bytes != Bytes(l.queue)
  }

  function Sized(size: usize): Value { Value(SidechannelMessage, None, None, "", size) }

  /**
   From an empty queue some use of it makes the counter differ from the size of what is queued exactly if the
   byte limit is the largest machine word and two events may wait: one of that size, then one more. No allocation
   holds an event of that size, so no use of it in memory does.
   */
  lemma CounterDriftsIff(maxEvents: nat, maxBytes: nat)
    requires maxBytes <= USIZE_MAX
    ensures (exists ops :: Drifts(ops, maxEvents, maxBytes)) <==> maxBytes == USIZE_MAX && maxEvents >= 2
  {
    if maxBytes == USIZE_MAX && maxEvents >= 2 {
      var big, small := Sized(USIZE_MAX), Sized(1);
      var ops := [PushBack(big), PushBack(small)];
      assert ops[..1] == [PushBack(big)] && ops[..1][..0] == [];
      assert PerformAll(ops[..1], maxEvents, maxBytes) == Ledger([big], USIZE_MAX);
      var l := PerformAll(ops, maxEvents, maxBytes);
      assert l == Ledger([big] + [small], USIZE_MAX);
      BytesConcat([big], [small]);
      assert Bytes([big]) == USIZE_MAX && Bytes([small]) == 1;
      assert Drifts(ops, maxEvents, maxBytes);
    } else {
      forall ops ensures !Drifts(ops, maxEvents, maxBytes) {
        CounterStaysExact(ops, maxEvents, maxBytes);
      }
    }
  }

  // ---- the client ----

  /** The JSON messages among what the socket yielded. */
  function Messages(s: seq<Incoming>): seq<Value> {
    if s == [] then []
    else Messages(s[..|s| - 1]) + (if s[|s| - 1].Json? then [s[|s| - 1].value] else [])
  }

  /** `position`: the first match, or the length when there is none. */
  method FirstMatch(s: seq<Value>, f: Filter) returns (i: nat)
    ensures i <= |s| && (i < |s| ==> Matches(f, s[i])) && forall k :: 0 <= k < i ==> !Matches(f, s[k])
  {
    i := 0;
    while i < |s| && !Matches(f, s[i])
      invariant i <= |s|
      invariant forall k :: 0 <= k < i ==> !Matches(f, s[k])
    {
      i := i + 1;
    }
  }

  class ScBridgeClient {
    var inbox: seq<Incoming>
    var queuedEvents: seq<Value>
    var queuedEventBytes: nat
    var nextId: nat
    const maxQueuedEvents: nat
    const maxQueuedBytes: nat

    /** The whole stream, what was read of it and kept, what was handed out, and whether an event was refused for lack of room. */
    ghost const stream: seq<Incoming>
    ghost var arrived: seq<Value>
    ghost var delivered: seq<Value>
    ghost var lossy: bool

    ghost function Consumed(): seq<Incoming>
      requires |inbox| <= |stream|
      reads this
    {
      stream[..|stream| - |inbox|]
    }

    /** Until an event is refused, `arrived` is exactly the messages of the stream read so far. */
    ghost predicate Tracked()
      reads this
    {
      && |inbox| <= |stream| && inbox == stream[|stream| - |inbox|..]
      && (!lossy ==> arrived == Messages(Consumed()))
    }

    ghost function Counter(): Ledger
      reads this
    {
      Ledger(queuedEvents, queuedEventBytes)
    }

    /** The queue is within both limits, and the counter is its size under all limits it can count to. */
    ghost predicate Valid()
      reads this
    {
      && |queuedEvents| <= maxQueuedEvents && queuedEventBytes <= maxQueuedBytes <= USIZE_MAX
      && (Countable(maxQueuedEvents, maxQueuedBytes) ==> Exact(Counter(), maxQueuedEvents, maxQueuedBytes))
    }

    /** Every lane is in order; with `whole`, every session too. */
    ghost predicate InOrder(whole: bool)
      reads this
    {
      Conserved(whole, delivered, queuedEvents, arrived) && Tracked()
    }

    constructor (inbox: seq<Incoming>, maxEvents: nat, maxBytes: nat)
      requires maxBytes <= USIZE_MAX
      ensures Valid() && InOrder(true) && this.inbox == inbox && queuedEvents == [] && arrived == [] && delivered == []
      ensures maxQueuedEvents == maxEvents && maxQueuedBytes == maxBytes && nextId == 1 && stream == inbox && !lossy
    {
      stream, lossy := inbox, false;
      this.inbox, queuedEvents, queuedEventBytes, nextId := inbox, [], 0, 1;
      maxQueuedEvents, maxQueuedBytes := maxEvents, maxBytes;
      arrived, delivered := [], [];
    }

    /** Skip control frames; report the next JSON message, or why there is none. */
    method ReadJson() returns (r: Result<Value, Error>)
      requires |inbox| <= |stream| && inbox == stream[|stream| - |inbox|..]
      modifies this`inbox
      ensures |inbox| <= |old(inbox)| && inbox == stream[|stream| - |inbox|..]
      ensures Messages(Consumed()) == old(Messages(Consumed())) + if r.Ok? then [r.value] else []
      ensures r.Err? ==> r.error == Closed || r.error == BadJson
    {
      while |inbox| > 0
        invariant |inbox| <= |old(inbox)| && inbox == stream[|stream| - |inbox|..]
        invariant Messages(Consumed()) == old(Messages(Consumed()))
        decreases |inbox|
      {
        var next := inbox[0];
        ghost var before := Consumed();
        inbox := inbox[1..];
        assert Consumed()[..|Consumed()| - 1] == before && Consumed()[|Consumed()| - 1] == next;
        match next
        case Json(v) => return Ok(v);
        case Garbage => return Err(BadJson);
        case Close => return Err(Closed);
        case Control =>
      }
      return Err(Closed);
    }

    method QueueEventBack(event: Value) returns (ok: bool)
      requires Valid()
      modifies this`queuedEvents, this`queuedEventBytes
      ensures Valid()
      ensures ok == HasRoom(|old(queuedEvents)|, old(queuedEventBytes), event.size, maxQueuedEvents, maxQueuedBytes)
      ensures queuedEvents == if ok then old(queuedEvents) + [event] else old(queuedEvents)
      ensures Counter() == Perform(old(Counter()), PushBack(event), maxQueuedEvents, maxQueuedBytes)
    {
      if Countable(maxQueuedEvents, maxQueuedBytes) { PerformIsExact(Counter(), PushBack(event), maxQueuedEvents, maxQueuedBytes); }
      if !HasRoom(|queuedEvents|, queuedEventBytes, event.size, maxQueuedEvents, maxQueuedBytes) { return false; }
      queuedEventBytes := SaturatingAdd(queuedEventBytes, event.size);
      queuedEvents := queuedEvents + [event];
      ok := true;
    }

    /** `undone` names the delivery the caller takes back, when it takes one back. */
    method RequeueEventFront(event: Value, ghost undone: Option<nat>, ghost whole: bool) returns (ok: bool)
      requires Valid()
      requires undone.Some? ==> undone.value < |delivered| && delivered[undone.value] == event
      modifies this`queuedEvents, this`queuedEventBytes, this`delivered
      ensures Valid()
      ensures ok == HasRoom(|old(queuedEvents)|, old(queuedEventBytes), event.size, maxQueuedEvents, maxQueuedBytes)
      ensures queuedEvents == if ok then [event] + old(queuedEvents) else old(queuedEvents)
      ensures Counter() == Perform(old(Counter()), PushFront(event), maxQueuedEvents, maxQueuedBytes)
      ensures delivered == if ok && undone.Some? then Without(old(delivered), undone.value) else old(delivered)
      ensures undone.Some? && old(InOrder(whole)) && NotOvertaken(whole, old(delivered), undone.value) ==> InOrder(whole)
    {
      if Countable(maxQueuedEvents, maxQueuedBytes) { PerformIsExact(Counter(), PushFront(event), maxQueuedEvents, maxQueuedBytes); }
      if !HasRoom(|queuedEvents|, queuedEventBytes, event.size, maxQueuedEvents, maxQueuedBytes) { return false; }
      queuedEventBytes := SaturatingAdd(queuedEventBytes, event.size);
      queuedEvents := [event] + queuedEvents;
      if undone.Some? {
        ghost var k := undone.value;
        if old(InOrder(whole)) && NotOvertaken(whole, delivered, k) {
          RequeueUndoesDelivery(whole, delivered, old(queuedEvents), arrived, k);
        }
        delivered := Without(delivered, k);
      }
      ok := true;
    }

    /** Hand out the first queued event that matches, if any. */
    method PopQueued(f: Filter, ghost whole: bool) returns (event: Option<Value>)
      requires Valid() && InOrder(whole) && (whole ==> KeepsSessions(f))
      modifies this`queuedEvents, this`queuedEventBytes, this`delivered
      ensures Valid() && InOrder(whole)
      ensures event.None? ==> queuedEvents == old(queuedEvents) && delivered == old(delivered)
                              && forall v :: v in queuedEvents ==> !Matches(f, v)
      ensures event.Some? ==> Matches(f, event.value) && delivered == old(delivered) + [event.value]
                              && |queuedEvents| == |old(queuedEvents)| - 1
    {
      var i := FirstMatch(queuedEvents, f);
      if i == |queuedEvents| { return None; }
      var v := queuedEvents[i];
      DeliverQueued(whole, delivered, queuedEvents, arrived, f, i);
      if Countable(maxQueuedEvents, maxQueuedBytes) { PerformIsExact(Counter(), Remove(i), maxQueuedEvents, maxQueuedBytes); }
      queuedEventBytes := SaturatingSub(queuedEventBytes, v.size);
      queuedEvents := Without(queuedEvents, i);
      delivered := delivered + [v];
      return Some(v);
    }

    /** A message `v` has been read and nothing else done with it yet. */
    ghost predicate Holding(v: Value, whole: bool)
      reads this
    {
      && Conserved(whole, delivered, queuedEvents, arrived)
      && |inbox| <= |stream| && inbox == stream[|stream| - |inbox|..]
      && (!lossy ==> arrived + [v] == Messages(Consumed()))
    }

    /** Queue an event, ignore anything else. */
    method SetAside(v: Value, ghost whole: bool) returns (room: bool)
      requires Valid() && Holding(v, whole)
      modifies this`queuedEvents, this`queuedEventBytes, this`arrived, this`lossy
      ensures Valid() && InOrder(whole) && lossy == (old(lossy) || !room)
      ensures arrived == if room then old(arrived) + [v] else old(arrived)
      ensures queuedEvents == if room && IsAsyncEvent(v) then old(queuedEvents) + [v] else old(queuedEvents)
    {
      if IsAsyncEvent(v) {
        QueueFresh(whole, delivered, queuedEvents, arrived, v);
        room := QueueEventBack(v);
        if !room { lossy := true; return; }
      } else {
        SkipReply(whole, delivered, queuedEvents, arrived, v);
      }
      room, arrived := true, arrived + [v];
    }

    /** Hand out a message that was just read and that nothing queued precedes. */
    method HandOut(f: Filter, v: Value, ghost whole: bool)
      requires Valid() && Holding(v, whole) && (whole ==> KeepsSessions(f)) && Matches(f, v) && forall w :: w in queuedEvents ==> !Matches(f, w)
      modifies this`arrived, this`delivered
      ensures Valid() && InOrder(whole) && arrived == old(arrived) + [v] && delivered == old(delivered) + [v]
    {
      DeliverFresh(whole, delivered, queuedEvents, arrived, f, v);
      arrived, delivered := arrived + [v], delivered + [v];
    }

    /**
     The `next_*` operations: a queued match first, else read on, setting other events
     aside.  `patience` is how many reads fit before the deadline. Lanes stay in order, and whole sessions
     do for callers that never ask for frames alone.
     */
    method NextEvent(f: Filter, patience: nat, ghost whole: bool) returns (r: Result<Value, Error>)
      requires Valid() && InOrder(whole) && (whole ==> KeepsSessions(f))
      modifies this`inbox, this`queuedEvents, this`queuedEventBytes, this`arrived, this`delivered, this`lossy
      ensures Valid() && InOrder(whole) && lossy == (old(lossy) || r == Err(ResourceLimit))
      ensures r.Ok? ==> Matches(f, r.value) && delivered == old(delivered) + [r.value]
      ensures r.Err? ==> delivered == old(delivered) && forall v :: v in queuedEvents ==> !Matches(f, v)
      ensures old(arrived) <= arrived
    {
      var queued := PopQueued(f, whole);
      if queued.Some? { return Ok(queued.value); }
      var tries := 0;
      while tries < patience
        invariant Valid() && InOrder(whole) && old(arrived) <= arrived && delivered == old(delivered) && lossy == old(lossy)
        invariant forall v :: v in queuedEvents ==> !Matches(f, v)
      {
        tries := tries + 1;
        var message := ReadJson();
        if message.Err? { return Err(message.error); }
        var v := message.value;
        if Matches(f, v) {
          HandOut(f, v, whole);
          return Ok(v);
        }
        var room := SetAside(v, whole);
        if !room { return Err(ResourceLimit); }
      }
      return Err(Timeout);
    }

    /** One round of a request: read a message and set it aside; what was queued before it stays in front. */
    method Receive(ghost whole: bool, ghost before: seq<Value>, ghost early: seq<Value>) returns (r: Result<Value, Error>)
      requires Valid() && InOrder(whole) && early <= arrived && before <= queuedEvents
      requires Conserved(true, before, arrived[|early|..], queuedEvents)
      modifies this`inbox, this`queuedEvents, this`queuedEventBytes, this`arrived, this`lossy
      ensures Valid() && InOrder(whole) && early <= arrived && before <= queuedEvents
      ensures lossy == (old(lossy) || r == Err(ResourceLimit))
      ensures r != Err(ResourceLimit) ==> Conserved(true, before, arrived[|early|..], queuedEvents)
    {
      var message := ReadJson();
      if message.Err? { return Err(message.error); }
      var v := message.value;
      assert (arrived + [v])[|early|..] == arrived[|early|..] + [v];
      QueueGrows(before, arrived[|early|..], queuedEvents, v);
      var room := SetAside(v, whole);
      if !room { return Err(ResourceLimit); }
      return Ok(v);
    }

    /**
     One request: the reply carries the request's own number and the expected type, and every
     event that came before it is queued, none handed out.
     */
    method Request(expected: Kind, patience: nat, ghost whole: bool) returns (r: Result<Value, Error>)
      requires Valid() && InOrder(whole)
      modifies this`inbox, this`queuedEvents, this`queuedEventBytes, this`arrived, this`nextId, this`lossy
      ensures Valid() && InOrder(whole) && lossy == (old(lossy) || r == Err(ResourceLimit))
      ensures old(arrived) <= arrived && old(queuedEvents) <= queuedEvents
      ensures nextId == if old(nextId) < U64_MAX then old(nextId) + 1 else U64_MAX
      ensures r.Ok? ==> r.value.id == Some(old(nextId)) && r.value.kind == expected && !IsAsyncEvent(r.value)
      ensures r != Err(ResourceLimit) ==> Conserved(true, old(queuedEvents), arrived[|old(arrived)|..], queuedEvents)
    {
      var id := nextId;
      nextId := if nextId < U64_MAX then nextId + 1 else U64_MAX;
      ghost var before, early := queuedEvents, arrived;
      assert arrived == early + [];
      var tries := 0;
      while tries < patience
        invariant Valid() && InOrder(whole) && early <= arrived && before <= queuedEvents && lossy == old(lossy)
        invariant nextId == if id < U64_MAX then id + 1 else U64_MAX
        invariant Conserved(true, before, arrived[|early|..], queuedEvents)
      {
        tries := tries + 1;
        var message := Receive(whole, before, early);
        if message.Err? { return Err(message.error); }
        var v := message.value;
        if IsAsyncEvent(v) || v.id != Some(id) { continue; }
        if v.kind == ErrorReply { return Err(Protocol); }
        if v.kind != expected { return Err(Protocol); }
        return Ok(v);
      }
      return Err(Timeout);
    }
  }

  lemma QueueGrows(before: seq<Value>, read: seq<Value>, queue: seq<Value>, v: Value)
    requires Conserved(true, before, read, queue)
    ensures Conserved(true, before, read + [v], if IsAsyncEvent(v) then queue + [v] else queue)
  {
    var grown := if IsAsyncEvent(v) then queue + [v] else queue;
    forall lane ensures LaneKept(before, read + [v], grown, lane) {
      OfLaneConcat(read, [v], lane);
      OfLaneConcat(queue, [v], lane);
      assert Watched(true, lane) && LaneKept(before, read, queue, lane);
    }
  }
}
