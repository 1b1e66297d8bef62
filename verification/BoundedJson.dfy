/**
 Bounded JSON frames: the explicit-stack traversal decides the recursive bounds, the decoder returns exactly what
 frames hold that parse to a value within them, and decoding moves past exactly one frame.
 */
module BoundedJson {
  import opened Wrappers
  import opened ByteSeq

  const DEFAULT_MAX_JSON_DEPTH: nat := 256
  const DEFAULT_MAX_JSON_NODES: nat := 100_000
  const DEFAULT_MAX_JSON_STRING_BYTES: nat := 256 * 1024
  const MAX_SAFE_INTEGER: nat := 9_007_199_254_740_991

  /** Strings and keys are their UTF-8 bytes. */
  datatype Json =
    | Null | Bool(b: bool) | Number(n: real)
    | Text(utf8: seq<byte>)
    | Array(items: seq<Json>)
    | Object(entries: seq<Entry>)

  datatype Entry = Entry(key: seq<byte>, value: Json)

  predicate IsContainer(v: Json) { v.Array? || v.Object? }

  // ---- the bounds, recursively ----

  /** Arrays and objects in the value. */
  function Nodes(v: Json): nat {
    match v
    case Array(items) => 1 + ItemNodes(items)
    case Object(entries) => 1 + EntryNodes(entries)
    case _ => 0
  }

  function ItemNodes(items: seq<Json>): nat {
    if items == [] then 0 else Nodes(items[0]) + ItemNodes(items[1..])
  }

  function EntryNodes(entries: seq<Entry>): nat {
    if entries == [] then 0 else Nodes(entries[0].value) + EntryNodes(entries[1..])
  }

  /** No container nested deeper than `room` levels. */
  predicate NestsWithin(v: Json, room: int)
    decreases v
  {
    match v
    case Array(items) => room >= 1 && forall i :: 0 <= i < |items| ==> NestsWithin(items[i], room - 1)
    case Object(entries) => room >= 1 && forall i :: 0 <= i < |entries| ==> NestsWithin(entries[i].value, room - 1)
    case _ => true
  }

  /** Every string and key, at any depth, is at most `most` bytes. */
  predicate StringsWithin(v: Json, most: nat)
    decreases v
  {
    match v
    case Text(s) => |s| <= most
    case Array(items) => forall i :: 0 <= i < |items| ==> StringsWithin(items[i], most)
    case Object(entries) =>
      forall i :: 0 <= i < |entries| ==> |entries[i].key| <= most && StringsWithin(entries[i].value, most)
    case _ => true
  }

  datatype Bounds = Bounds(maxDepth: nat, maxNodes: nat, maxStringBytes: nat)

  predicate WithinBounds(v: Json, b: Bounds) {
    Nodes(v) <= b.maxNodes && NestsWithin(v, b.maxDepth) && StringsWithin(v, b.maxStringBytes)
  }

  // ---- the traversal ----

  /** `Object.entries`, with array items under no key. */
  function Members(v: Json): seq<(Option<seq<byte>>, Json)>
    requires IsContainer(v)
  {
    match v
    case Array(items) => seq(|items|, i requires 0 <= i < |items| => (None, items[i]))
    case Object(entries) => seq(|entries|, i requires 0 <= i < |entries| => (Some(entries[i].key), entries[i].value))
  }

  datatype Frame = Frame(value: Json, depth: nat)

  function StackNodes(stack: seq<Frame>): nat {
    if stack == [] then 0 else StackNodes(stack[..|stack| - 1]) + Nodes(stack[|stack| - 1].value)
  }

  predicate FrameNests(f: Frame, b: Bounds) { NestsWithin(f.value, b.maxDepth - f.depth + 1) }

  ghost predicate StackWithin(stack: seq<Frame>, b: Bounds) {
    forall f :: f in stack ==> FrameNests(f, b) && StringsWithin(f.value, b.maxStringBytes)
  }

  function MemberNodes(ms: seq<(Option<seq<byte>>, Json)>): nat {
    if ms == [] then 0 else MemberNodes(ms[..|ms| - 1]) + Nodes(ms[|ms| - 1].1)
  }

  lemma {:induction false} ItemNodesSnoc(items: seq<Json>, v: Json)
    ensures ItemNodes(items + [v]) == ItemNodes(items) + Nodes(v)
  {
    if items == [] {
      assert items + [v] == [v] && [v][1..] == [];
    } else {
      ItemNodesSnoc(items[1..], v);
      assert (items + [v])[1..] == items[1..] + [v];
    }
  }

  lemma {:induction false} EntryNodesSnoc(entries: seq<Entry>, e: Entry)
    ensures EntryNodes(entries + [e]) == EntryNodes(entries) + Nodes(e.value)
  {
    if entries == [] {
      assert entries + [e] == [e] && [e][1..] == [];
    } else {
      EntryNodesSnoc(entries[1..], e);
      assert (entries + [e])[1..] == entries[1..] + [e];
    }
  }

  lemma {:induction false} ArrayMemberNodes(items: seq<Json>)
    ensures MemberNodes(Members(Array(items))) == ItemNodes(items)
  {
    if items != [] {
      var h := items[..|items| - 1];
      ArrayMemberNodes(h);
      var ms := Members(Array(items));
      assert ms[..|ms| - 1] == Members(Array(h));
      ItemNodesSnoc(h, items[|items| - 1]);
      assert h + [items[|items| - 1]] == items;
    }
  }

  lemma {:induction false} ObjectMemberNodes(entries: seq<Entry>)
    ensures MemberNodes(Members(Object(entries))) == EntryNodes(entries)
  {
    if entries != [] {
      var h := entries[..|entries| - 1];
      ObjectMemberNodes(h);
      var ms := Members(Object(entries));
      assert ms[..|ms| - 1] == Members(Object(h));
      EntryNodesSnoc(h, entries[|entries| - 1]);
      assert h + [entries[|entries| - 1]] == entries;
    }
  }

  lemma NodesOfMembers(v: Json)
    requires IsContainer(v)
    ensures Nodes(v) == 1 + MemberNodes(Members(v))
  {
    if v.Array? { ArrayMemberNodes(v.items); } else { ObjectMemberNodes(v.entries); }
  }

  predicate MemberStringsOk(m: (Option<seq<byte>>, Json), most: nat) {
    (m.0.Some? ==> |m.0.value| <= most) && (m.1.Text? ==> |m.1.utf8| <= most)
  }

  /** The first inner loop: key and string sizes of one container. */
  method CheckMembers(ms: seq<(Option<seq<byte>>, Json)>, most: nat) returns (ok: bool)
    ensures ok <==> forall i :: 0 <= i < |ms| ==> MemberStringsOk(ms[i], most)
  {
    for i := 0 to |ms|
      invariant forall k :: 0 <= k < i ==> MemberStringsOk(ms[k], most)
    {
      if ms[i].0.Some? && |ms[i].0.value| > most { return false; }
      if ms[i].1.Text? && |ms[i].1.utf8| > most { return false; }
    }
    return true;
  }

  ghost predicate OnlyContainers(stack: seq<Frame>) {
    forall f :: f in stack ==> IsContainer(f.value)
  }

  /** The second inner loop: containers among the members go on the stack, one level deeper. */
  method PushContainers(stack: seq<Frame>, ms: seq<(Option<seq<byte>>, Json)>, depth: nat) returns (r: seq<Frame>)
    requires OnlyContainers(stack)
    ensures OnlyContainers(r) && StackNodes(r) == StackNodes(stack) + MemberNodes(ms)
    ensures forall f :: f in r <==> f in stack || exists i :: 0 <= i < |ms| && IsContainer(ms[i].1) && f == Frame(ms[i].1, depth + 1)
  {
    r := stack;
    for i := 0 to |ms|
      invariant OnlyContainers(r) && StackNodes(r) == StackNodes(stack) + MemberNodes(ms[..i])
      invariant forall f :: f in r <==> f in stack || exists k :: 0 <= k < i && IsContainer(ms[k].1) && f == Frame(ms[k].1, depth + 1)
    {
      assert ms[..i + 1][..i] == ms[..i];
      if IsContainer(ms[i].1) {
        ghost var before := r;
        r := r + [Frame(ms[i].1, depth + 1)];
        assert r[..|r| - 1] == before;
      }
    }
    assert ms[..|ms|] == ms;
  }

  predicate MemberOk(m: (Option<seq<byte>>, Json), room: int, most: nat) {
    MemberStringsOk(m, most) && (IsContainer(m.1) ==> NestsWithin(m.1, room) && StringsWithin(m.1, most))
  }

  predicate MembersOk(ms: seq<(Option<seq<byte>>, Json)>, room: int, most: nat) {
    forall i :: 0 <= i < |ms| ==> MemberOk(ms[i], room, most)
  }

  /** What the two inner loops ask of a member is what the bounds do. */
  lemma MemberWithin(m: (Option<seq<byte>>, Json), room: int, most: nat)
    ensures MemberOk(m, room, most) <==>
            (m.0.Some? ==> |m.0.value| <= most) && NestsWithin(m.1, room) && StringsWithin(m.1, most)
  {
  }

  lemma ArrayWithin(items: seq<Json>, room: int, most: nat)
    ensures NestsWithin(Array(items), room) && StringsWithin(Array(items), most) <==>
            room >= 1 && MembersOk(Members(Array(items)), room - 1, most)
  {
    var ms := Members(Array(items));
    forall i | 0 <= i < |items| ensures MemberOk(ms[i], room - 1, most) <==>
      NestsWithin(items[i], room - 1) && StringsWithin(items[i], most)
    {
      MemberWithin(ms[i], room - 1, most);
    }
  }

  lemma ObjectWithin(entries: seq<Entry>, room: int, most: nat)
    ensures NestsWithin(Object(entries), room) && StringsWithin(Object(entries), most) <==>
            room >= 1 && MembersOk(Members(Object(entries)), room - 1, most)
  {
    var ms := Members(Object(entries));
    forall i | 0 <= i < |entries| ensures MemberOk(ms[i], room - 1, most) <==>
      |entries[i].key| <= most && NestsWithin(entries[i].value, room - 1) && StringsWithin(entries[i].value, most)
    {
      MemberWithin(ms[i], room - 1, most);
    }
  }

  /** A container is within bounds exactly when its own strings are and its members are, one level down. */
  lemma ContainerWithin(v: Json, room: int, most: nat)
    requires IsContainer(v)
    ensures NestsWithin(v, room) && StringsWithin(v, most) <==> room >= 1 && MembersOk(Members(v), room - 1, most)
  {
    if v.Array? { ArrayWithin(v.items, room, most); } else { ObjectWithin(v.entries, room, most); }
  }

  ghost predicate Visited(current: Frame, b: Bounds)
    requires IsContainer(current.value)
  {
    && current.depth <= b.maxDepth
    && forall i :: 0 <= i < |Members(current.value)| ==> MemberStringsOk(Members(current.value)[i], b.maxStringBytes)
  }

  lemma FirstFrame(value: Json, b: Bounds)
    requires IsContainer(value)
    ensures StackWithin([Frame(value, 1)], b) <==> NestsWithin(value, b.maxDepth) && StringsWithin(value, b.maxStringBytes)
    ensures StackNodes([Frame(value, 1)]) == Nodes(value)
  {
    assert Frame(value, 1) in [Frame(value, 1)];
    assert [Frame(value, 1)][..0] == [];
  }

  /** The visit takes one container off the count and puts its members' on. */
  lemma VisitCounts(stack: seq<Frame>)
    requires stack != [] && IsContainer(stack[|stack| - 1].value)
    ensures StackNodes(stack) == StackNodes(stack[..|stack| - 1]) + 1 + MemberNodes(Members(stack[|stack| - 1].value))
  {
    NodesOfMembers(stack[|stack| - 1].value);
  }

  lemma StackSplits(rest: seq<Frame>, current: Frame, b: Bounds)
    ensures StackWithin(rest + [current], b) <==>
            StackWithin(rest, b) && FrameNests(current, b) && StringsWithin(current.value, b.maxStringBytes)
  {
    assert current in rest + [current];
    assert forall f :: f in rest ==> f in rest + [current];
  }

  /** One visit: the stack was within bounds exactly when the visit succeeds and the new stack is. */
  lemma VisitStep(stack: seq<Frame>, b: Bounds)
    requires stack != [] && IsContainer(stack[|stack| - 1].value)
    ensures var current, rest := stack[|stack| - 1], stack[..|stack| - 1];
            StackWithin(stack, b) <==> Visited(current, b) && StackWithin(rest, b) && MembersWithin(current, b)
  {
    var current, rest := stack[|stack| - 1], stack[..|stack| - 1];
    ContainerWithin(current.value, b.maxDepth - current.depth + 1, b.maxStringBytes);
    assert stack == rest + [current];
    StackSplits(rest, current, b);
  }

  /** `jsonShapeWithinBounds` decides exactly the recursive bounds. */
  method JsonShapeWithinBounds(value: Json, b: Bounds) returns (ok: bool)
    ensures ok <==> WithinBounds(value, b)
  {
    if value.Text? { return |value.utf8| <= b.maxStringBytes; }
    if !IsContainer(value) { return true; }
    ghost var good := NestsWithin(value, b.maxDepth) && StringsWithin(value, b.maxStringBytes);
    var stack := [Frame(value, 1)];
    FirstFrame(value, b);
    var nodes := 0;
    while stack != []
      invariant OnlyContainers(stack)
      invariant nodes + StackNodes(stack) == Nodes(value) && nodes <= b.maxNodes
      invariant StackWithin(stack, b) <==> good
      decreases StackNodes(stack)
    {
      ghost var before := stack;
      var current := stack[|stack| - 1];
      stack := stack[..|stack| - 1];
      nodes := nodes + 1;
      VisitCounts(before);
      if nodes > b.maxNodes { return false; }
      var fits;
      fits, stack := Visit(stack, current, b);
      assert before[..|before| - 1] + [current] == before;
      if !fits { return false; }
    }
    return true;
  }

  /** One round of the loop once its frame is off the stack. */
  method Visit(rest: seq<Frame>, current: Frame, b: Bounds) returns (ok: bool, stack: seq<Frame>)
    requires OnlyContainers(rest) && IsContainer(current.value)
    ensures !ok ==> !StackWithin(rest + [current], b)
    ensures ok ==> OnlyContainers(stack) && StackNodes(stack) == StackNodes(rest) + MemberNodes(Members(current.value))
    ensures ok ==> (StackWithin(stack, b) <==> StackWithin(rest + [current], b))
  {
    stack := rest;
    assert (rest + [current])[..|rest|] == rest;
    VisitStep(rest + [current], b);
    if current.depth > b.maxDepth { return false, stack; }
    var ms := Members(current.value);
    ok := CheckMembers(ms, b.maxStringBytes);
    if !ok { return; }
    stack := PushContainers(rest, ms, current.depth);
    PushedWithin(rest, stack, current, b);
  }

  ghost predicate MembersWithin(current: Frame, b: Bounds)
    requires IsContainer(current.value)
  {
    forall i :: 0 <= i < |Members(current.value)| && IsContainer(Members(current.value)[i].1) ==>
      NestsWithin(Members(current.value)[i].1, b.maxDepth - current.depth)
      && StringsWithin(Members(current.value)[i].1, b.maxStringBytes)
  }

  lemma PushedWithin(rest: seq<Frame>, stack: seq<Frame>, current: Frame, b: Bounds)
    requires IsContainer(current.value)
    requires forall f :: f in stack <==> f in rest || exists i ::
               0 <= i < |Members(current.value)| && IsContainer(Members(current.value)[i].1)
               && f == Frame(Members(current.value)[i].1, current.depth + 1)
    ensures StackWithin(stack, b) <==> StackWithin(rest, b) && MembersWithin(current, b)
  {
    var ms := Members(current.value);
    if StackWithin(stack, b) {
      forall f | f in rest ensures FrameNests(f, b) && StringsWithin(f.value, b.maxStringBytes) { assert f in stack; }
      forall i | 0 <= i < |ms| && IsContainer(ms[i].1)
        ensures NestsWithin(ms[i].1, b.maxDepth - current.depth) && StringsWithin(ms[i].1, b.maxStringBytes)
      {
        var f := Frame(ms[i].1, current.depth + 1);
        assert f in stack;
        assert FrameNests(f, b);
      }
    }
  }

  // ---- the codec ----

  /**
   The JSON text functions of the language and the length prefix of the wire library;
   `plain` holds of the values whose text parses back to the same value.
   */
  datatype Wire = Wire(
    plain: Json -> bool,
    stringify: Json -> seq<byte>,
    parse: seq<byte> -> Option<Json>,
    encodeLength: nat -> seq<byte>,
    decodeLength: seq<byte> -> Option<(nat, nat)>)

  ghost predicate Lawful(w: Wire) {
    && (forall v :: w.plain(v) ==> w.parse(w.stringify(v)) == Some(v))
    && (forall n: nat, rest :: w.decodeLength(w.encodeLength(n) + rest) == Some((n, |w.encodeLength(n)|)))
    && (forall s :: w.decodeLength(s).Some? ==> w.decodeLength(s).value.1 <= |s|)
  }

  datatype Reason = Oversized | Complexity | Malformed

  datatype Decoded = Value(value: Json) | Rejected(reason: Reason, bytes: nat) | Thrown

  datatype Codec = Codec(maxBytes: nat, maxStringBytes: nat)

  /** `boundedJsonEncoding`: a positive byte limit, and a string limit never above it. */
  function Configure(maxBytes: int, configured: Option<int>): Option<Codec> {
    if !(0 < maxBytes <= MAX_SAFE_INTEGER) then None
    else
      var strings := if configured.Some? && 0 < configured.value <= MAX_SAFE_INTEGER then configured.value
                     else DEFAULT_MAX_JSON_STRING_BYTES;
      Some(Codec(maxBytes, if strings < maxBytes then strings else maxBytes))
  }

  /** A positive string limit, never above a safe byte limit. */
  predicate Legal(c: Codec) { 0 < c.maxStringBytes <= c.maxBytes <= MAX_SAFE_INTEGER }

  /** Configuring fails exactly on an unsafe byte limit, and gives exactly the legal codecs. */
  lemma ConfiguresExactlyTheLegal(maxBytes: int, configured: Option<int>, c: Codec)
    ensures Configure(maxBytes, configured).Some? <==> 0 < maxBytes <= MAX_SAFE_INTEGER
    ensures Configure(maxBytes, configured).Some? ==> Legal(Configure(maxBytes, configured).value)
    ensures Legal(c) <==> Configure(c.maxBytes, Some(c.maxStringBytes)) == Some(c)
  {
  }

  function BoundsOf(c: Codec): Bounds {
    Bounds(DEFAULT_MAX_JSON_DEPTH, DEFAULT_MAX_JSON_NODES, c.maxStringBytes)
  }

  function Encode(w: Wire, c: Codec, v: Json): Option<seq<byte>> {
    if !WithinBounds(v, BoundsOf(c)) then None
    else
      var text := w.stringify(v);
      if |text| > c.maxBytes then None else Some(w.encodeLength(|text|) + text)
  }

  /** The text of the frame at the head of `s`. */
  function Judge(w: Wire, c: Codec, text: seq<byte>): Decoded {
    match w.parse(text)
    case None => Rejected(Malformed, |text|)
    case Some(v) => if WithinBounds(v, BoundsOf(c)) then Value(v) else Rejected(Complexity, |text|)
  }

  function Outcome(w: Wire, c: Codec, s: seq<byte>): Decoded {
    match w.decodeLength(s)
    case None => Thrown
    case Some((length, used)) =>
      if length > MAX_SAFE_INTEGER || |s| < used + length || |s| < used then Thrown
      else if length > c.maxBytes then Rejected(Oversized, length)
      else Judge(w, c, s[used..used + length])
  }

  lemma SliceOfSlice(b: seq<byte>, from: nat, end: nat, i: nat, k: nat)
    requires i <= k && from + k <= end <= |b|
    ensures b[from..end][i..k] == b[from + i..from + k]
  {
    forall j | 0 <= j < k - i ensures b[from..end][i..k][j] == b[from + i..from + k][j] {}
  }

  class DecodeState {
    const buffer: seq<byte>
    const end: nat
    var start: nat

    ghost predicate Valid()
      reads this
    {
      start <= end <= |buffer|
    }

    constructor (buffer: seq<byte>, start: nat, end: nat)
      requires start <= end <= |buffer|
      ensures Valid() && this.buffer == buffer && this.start == start && this.end == end
    {
      this.buffer, this.start, this.end := buffer, start, end;
    }

    /** Unless it throws, decoding ends right after the length prefix and the bytes it announces. */
    method Decode(w: Wire, c: Codec) returns (r: Decoded)
      requires Valid() && Lawful(w)
      modifies this
      ensures Valid() && r == Outcome(w, c, old(buffer[start..end]))
      ensures !r.Thrown? ==>
                var (length, used) := w.decodeLength(old(buffer[start..end])).value;
                start == old(start) + used + length
    {
      ghost var s, from := buffer[start..end], start;
      var prefix := w.decodeLength(buffer[start..end]);
      if prefix.None? { return Thrown; }
      var (length, used) := prefix.value;
      start := start + used;
      if length > MAX_SAFE_INTEGER { return Thrown; }
      if end - start < length { return Thrown; }
      var stop := start + length;
      if length > c.maxBytes {
        start := stop;
        return Rejected(Oversized, length);
      }
      var text := buffer[start..stop];
      SliceOfSlice(buffer, from, end, used, used + length);
      start := stop;
      var parsed := w.parse(text);
      if parsed.None? { return Rejected(Malformed, length); }
      var fits := JsonShapeWithinBounds(parsed.value, BoundsOf(c));
      if !fits { return Rejected(Complexity, length); }
      return Value(parsed.value);
    }
  }

  /** The decoder judges the text the encoder wrote, and moves past exactly that frame. */
  lemma EncodedIsJudged(w: Wire, c: Codec, v: Json, rest: seq<byte>)
    requires Lawful(w) && Legal(c) && Encode(w, c, v).Some?
    ensures Outcome(w, c, Encode(w, c, v).value + rest) == Judge(w, c, w.stringify(v))
    ensures var (length, used) := w.decodeLength(Encode(w, c, v).value + rest).value;
            used + length == |Encode(w, c, v).value|
  {
    var text := w.stringify(v);
    var prefix := w.encodeLength(|text|);
    var s := prefix + text + rest;
    assert s == prefix + (text + rest);
    assert s[|prefix|..|prefix| + |text|] == text;
  }

  /**
   What the encoder accepts decodes to `u` exactly when its text parses to `u` and `u` is itself within bounds:
   the encoder measures the value in memory, the decoder the value its text stands for.
   */
  lemma EncodedDecodesExactly(w: Wire, c: Codec, v: Json, rest: seq<byte>, u: Json)
    requires Lawful(w) && Legal(c) && Encode(w, c, v).Some?
    ensures Outcome(w, c, Encode(w, c, v).value + rest) == Value(u) <==>
            w.parse(w.stringify(v)) == Some(u) && WithinBounds(u, BoundsOf(c))
  {
    EncodedIsJudged(w, c, v, rest);
  }

  /** So a value whose text parses back to it decodes to itself. */
  lemma EncodedDecodes(w: Wire, c: Codec, v: Json, rest: seq<byte>)
    requires Lawful(w) && Legal(c) && Encode(w, c, v).Some? && w.plain(v)
    ensures Outcome(w, c, Encode(w, c, v).value + rest) == Value(v)
  {
    EncodedDecodesExactly(w, c, v, rest, v);
  }

  /** The same library with dates: an object without members in memory, a quoted string of 24 characters in its text. */
  function WithDate(w: Wire): Wire {
    var date := seq(26, _ => 48);
    w.(plain := v => v != Object([]) && w.stringify(v) != date && w.plain(v),
       stringify := v => if v == Object([]) then date else w.stringify(v),
       parse := text => if text == date then Some(Text(seq(24, _ => 48))) else w.parse(text))
  }

  /** Under a string limit of 10 the encoder accepts a date and the decoder rejects it. */
  lemma DateIsEncodedAndRejected(w: Wire, rest: seq<byte>)
    requires Lawful(w)
    ensures var d, c, v := WithDate(w), Codec(100, 10), Object([]);
            && Lawful(d) && Legal(c) && Encode(d, c, v).Some?
            && Outcome(d, c, Encode(d, c, v).value + rest) == Rejected(Complexity, 26)
  {
    var d, c, v := WithDate(w), Codec(100, 10), Object([]);
    assert WithinBounds(v, BoundsOf(c));
    EncodedIsJudged(d, c, v, rest);
  }

  /** A decoded value that is encoded again, its text being within the limit, decodes to itself from then on. */
  lemma DecodedReencodes(w: Wire, c: Codec, s: seq<byte>, v: Json, rest: seq<byte>)
    requires Lawful(w) && Legal(c) && Outcome(w, c, s) == Value(v) && w.plain(v)
    ensures Encode(w, c, v).Some? <==> |w.stringify(v)| <= c.maxBytes
    ensures Encode(w, c, v).Some? ==> Outcome(w, c, Encode(w, c, v).value + rest) == Value(v)
  {
    if Encode(w, c, v).Some? { EncodedDecodes(w, c, v, rest); }
  }

  /** The frames of several values, one after another. */
  function EncodeAll(w: Wire, c: Codec, vs: seq<Json>): Option<seq<byte>> {
    if vs == [] then Some([])
    else match Encode(w, c, vs[0])
      case None => None
      case Some(head) => match EncodeAll(w, c, vs[1..])
        case None => None
        case Some(tail) => Some(head + tail)
  }

  lemma HeadOfStream(w: Wire, c: Codec, vs: seq<Json>, s: seq<byte>)
    requires Lawful(w) && Legal(c) && vs != [] && EncodeAll(w, c, vs) == Some(s)
    ensures Outcome(w, c, s) == Judge(w, c, w.stringify(vs[0]))
    ensures var (length, used) := w.decodeLength(s).value;
            used + length <= |s| && EncodeAll(w, c, vs[1..]) == Some(s[used + length..])
  {
    var head, tail := Encode(w, c, vs[0]).value, EncodeAll(w, c, vs[1..]).value;
    EncodedIsJudged(w, c, vs[0], tail);
    assert s == head + tail && s[|head|..] == tail;
  }

  /** The results of decoding `n` frames in a row. */
  function DecodeMany(w: Wire, c: Codec, s: seq<byte>, n: nat): seq<Decoded>
    decreases n
  {
    if n == 0 then []
    else
      var d := Outcome(w, c, s);
      if d.Thrown? then [d]
      else
        var (length, used) := w.decodeLength(s).value;
        [d] + DecodeMany(w, c, s[used + length..], n - 1)
  }

  lemma StreamStep(w: Wire, c: Codec, vs: seq<Json>, s: seq<byte>) returns (rest: seq<byte>)
    requires Lawful(w) && Legal(c) && EncodeAll(w, c, vs) == Some(s) && vs != []
    ensures EncodeAll(w, c, vs[1..]) == Some(rest)
    ensures DecodeMany(w, c, s, |vs|) == [Judge(w, c, w.stringify(vs[0]))] + DecodeMany(w, c, rest, |vs| - 1)
  {
    HeadOfStream(w, c, vs, s);
    var (length, used) := w.decodeLength(s).value;
    rest := s[used + length..];
  }

  /** What was encoded one after another is judged one after another, and plain values come back. */
  lemma {:induction false} StreamRoundTrips(w: Wire, c: Codec, vs: seq<Json>, s: seq<byte>, i: nat)
    requires Lawful(w) && Legal(c) && EncodeAll(w, c, vs) == Some(s) && i < |vs|
    ensures |DecodeMany(w, c, s, |vs|)| == |vs| && DecodeMany(w, c, s, |vs|)[i] == Judge(w, c, w.stringify(vs[i]))
    ensures w.plain(vs[i]) ==> DecodeMany(w, c, s, |vs|)[i] == Value(vs[i])
    decreases |vs|
  {
    var rest := StreamStep(w, c, vs, s);
    if |vs| > 1 {
      StreamRoundTrips(w, c, vs[1..], rest, if i == 0 then 0 else i - 1);
    }
  }
}
