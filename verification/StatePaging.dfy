/**
 * Reading the contract state under a prefix page by page.
 *
 * A key is its sequence of code points; the view keeps keys in byte order, which for UTF-8 is
 * code point order. The server answers one page per call and names the last key it returned as the
 * cursor for the next call. A reader pins the signed length of the first answer and follows the cursors.
 */
module StatePaging {
  import opened Wrappers
  import opened Texts

  type Key = seq<nat>

  datatype Entry<V> = Entry(key: Key, value: V)

  const MAX_SAFE_INTEGER := 9007199254740991
  const MAX_PREFIX := 256
  const MAX_CURSOR := 512
  const MAX_LIMIT := 1000
  const END: nat := 0xff

  datatype Error =
    | MissingPrefix | PrefixTooLong | InvalidLimit
    | EmptyCursor | CursorTooLong | CursorOutside
    | ViewNotReady | LengthUnavailable | CheckoutNeedsConfirmed
    | InvalidSignedLength | BeyondConfirmed | CheckoutUnavailable
    | MismatchedPage | SnapshotDrift | KeyOutsidePrefix | NotAdvancing
    | CursorOnLastPage | CursorMissing | CursorNotLastKey

  /** What a peer holds at the moment of one call: the live view and the confirmed past. */
  datatype Peer<!V> = Peer(live: Option<seq<Entry<V>>>, current: int, checkout: nat -> Option<seq<Entry<V>>>)

  datatype Session<V> = Session(view: seq<Entry<V>>, signedLength: nat)

  datatype Page<V> = Page(prefix: Key, confirmed: bool, signedLength: nat, next: Option<Key>, truncated: bool,
                          values: seq<Entry<V>>)

  // ---- Keys under a prefix ----

  /** Keys from the prefix up to the prefix followed by 0xff all start with the prefix. */
  lemma {:induction false} RangeStartsWithPrefix(k: Key, prefix: Key)
    requires !Less(k, prefix) && Less(k, prefix + [END])
    ensures prefix <= k
  {
    if prefix != [] {
      assert (prefix + [END])[1..] == prefix[1..] + [END];
      RangeStartsWithPrefix(k[1..], prefix[1..]);
    }
  }

  lemma {:induction false} PrefixIsNotAbove(k: Key, prefix: Key)
    requires prefix <= k
    ensures !Less(k, prefix)
  {
    if prefix != [] { PrefixIsNotAbove(k[1..], prefix[1..]); }
  }

  /** Length in UTF-16 code units, as the cursor and prefix limits count it. */
  function Utf16Length(k: Key): nat {
    if k == [] then 0 else (if k[0] >= 0x10000 then 2 else 1) + Utf16Length(k[1..])
  }

  // ---- The entries of a prefix ----

  ghost predicate Sorted<V>(view: seq<Entry<V>>) {
    forall i, j :: 0 <= i < j < |view| ==> Less(view[i].key, view[j].key)
  }

  predicate InRange(k: Key, prefix: Key, after: Option<Key>) {
    && (if after.None? then !Less(k, prefix) else Less(after.value, k))
    && Less(k, prefix + [END])
  }

  /** Every entry from the prefix (or past the cursor) up to the prefix followed by 0xff, in order. */
  function Range<V>(view: seq<Entry<V>>, prefix: Key, after: Option<Key>): seq<Entry<V>> {
    if view == [] then []
    else if InRange(view[0].key, prefix, after) then [view[0]] + Range(view[1..], prefix, after)
    else Range(view[1..], prefix, after)
  }

  /** The range holds exactly the entries of the view that start with the prefix and lie below its end. */
  lemma {:induction false} RangeIsEveryKeyOfThePrefix<V>(view: seq<Entry<V>>, prefix: Key, e: Entry<V>)
    ensures e in Range(view, prefix, None) <==> e in view && prefix <= e.key && Less(e.key, prefix + [END])
  {
    if view != [] {
      RangeIsEveryKeyOfThePrefix(view[1..], prefix, e);
      assert e in view <==> e == view[0] || e in view[1..];
      if InRange(view[0].key, prefix, None) { RangeStartsWithPrefix(view[0].key, prefix); }
      else if prefix <= view[0].key { PrefixIsNotAbove(view[0].key, prefix); }
    }
  }

  /** The range keeps the view's order, so no key appears twice. */
  lemma {:induction false} RangeIsSorted<V>(view: seq<Entry<V>>, prefix: Key, after: Option<Key>)
    requires Sorted(view)
    ensures Sorted(Range(view, prefix, after))
    ensures forall e :: e in Range(view, prefix, after) ==> e in view
  {
    if view != [] {
      RangeIsSorted(view[1..], prefix, after);
      var rest := Range(view[1..], prefix, after);
      forall j | 0 <= j < |rest| ensures Less(view[0].key, rest[j].key) {
        assert rest[j] in view[1..];
      }
    }
  }

  lemma {:induction false} CursorBelowChangesNothing<V>(view: seq<Entry<V>>, prefix: Key, c: Key)
    requires !Less(c, prefix) && forall e :: e in view ==> Less(c, e.key)
    ensures Range(view, prefix, Some(c)) == Range(view, prefix, None)
  {
    if view != [] {
      var k := view[0].key;
      assert view[0] in view;
      if Less(k, prefix) { LessIsTransitive(c, k, prefix); }
      CursorBelowChangesNothing(view[1..], prefix, c);
    }
  }

  /** Past the cursor of entry i comes exactly what follows entry i. */
  lemma {:induction false} AfterCursor<V>(view: seq<Entry<V>>, prefix: Key, i: nat)
    requires Sorted(view) && i < |Range(view, prefix, None)|
    ensures Range(view, prefix, Some(Range(view, prefix, None)[i].key)) == Range(view, prefix, None)[i + 1..]
  {
    var all := Range(view, prefix, None);
    var tail := view[1..];
    RangeIsSorted(tail, prefix, None);
    if !InRange(view[0].key, prefix, None) {
      assert all[i] in tail;
      LessIsStrict(view[0].key, all[i].key);
      AfterCursor(tail, prefix, i);
    } else if i == 0 {
      LessIsStrict(view[0].key, view[0].key);
      CursorBelowChangesNothing(tail, prefix, view[0].key);
    } else {
      var rest := Range(tail, prefix, None);
      assert all[i] == rest[i - 1] && rest[i - 1] in tail;
      LessIsStrict(view[0].key, all[i].key);
      AfterCursor(tail, prefix, i - 1);
    }
  }

  // ---- One call ----

  /** The view a request reads from. */
  function StateView<V>(peer: Peer<V>, confirmed: bool, requested: Option<int>): (r: Result<Session<V>, Error>)
    ensures r.Ok? && !confirmed ==> requested.None? && Some(r.value.view) == peer.live
    ensures r.Ok? && confirmed ==> peer.checkout(r.value.signedLength) == Some(r.value.view)
    ensures r.Ok? ==> r.value.signedLength <= peer.current
    ensures r.Ok? && requested.Some? ==> r.value.signedLength == requested.value
  {
    if peer.live.None? then Err(ViewNotReady)
    else if !(0 <= peer.current <= MAX_SAFE_INTEGER) then Err(LengthUnavailable)
    else if !confirmed then
      if requested.Some? then Err(CheckoutNeedsConfirmed) else Ok(Session(peer.live.value, peer.current))
    else
      var length := if requested.None? then peer.current else requested.value;
      if !(0 <= length <= MAX_SAFE_INTEGER) then Err(InvalidSignedLength)
      else if length > peer.current then Err(BeyondConfirmed)
      else match peer.checkout(length)
        case None => Err(CheckoutUnavailable)
        case Some(view) => Ok(Session(view, length))
  }

  /** The first argument a request is refused for, if any. */
  function Refusal(prefix: Key, limit: int, after: Option<Key>): Option<Error> {
    if prefix == [] then Some(MissingPrefix)
    else if Utf16Length(prefix) > MAX_PREFIX then Some(PrefixTooLong)
    else if !(1 <= limit <= MAX_LIMIT) then Some(InvalidLimit)
    else if after.None? then None
    else if after.value == [] then Some(EmptyCursor)
    else if Utf16Length(after.value) > MAX_CURSOR then Some(CursorTooLong)
    else if !(prefix <= after.value && Less(after.value, prefix + [END])) then Some(CursorOutside)
    else None
  }

  /** The page a call answers: the first limit entries, with a cursor exactly when more follow. */
  function PageOf<V>(s: Session<V>, prefix: Key, confirmed: bool, limit: nat, after: Option<Key>): Page<V>
    requires 1 <= limit
  {
    var all := Range(s.view, prefix, after);
    if |all| <= limit then Page(prefix, confirmed, s.signedLength, None, false, all)
    else Page(prefix, confirmed, s.signedLength, Some(all[limit - 1].key), true, all[..limit])
  }

  method GetStatePrefix<V>(peer: Peer<V>, prefix: Key, confirmed: bool, limit: int, requested: Option<int>,
                           after: Option<Key>) returns (r: Result<Page<V>, Error>)
    ensures Refusal(prefix, limit, after).Some? ==> r == Err(Refusal(prefix, limit, after).value)
    ensures Refusal(prefix, limit, after).None? ==>
              var s := StateView(peer, confirmed, requested);
              r == if s.Err? then Err(s.error) else Ok(PageOf(s.value, prefix, confirmed, limit, after))
  {
    var refusal := Refusal(prefix, limit, after);
    if refusal.Some? { return Err(refusal.value); }
    var session := StateView(peer, confirmed, requested);
    if session.Err? { return Err(session.error); }
    var all := Range(session.value.view, prefix, after);
    var stream := if |all| <= limit + 1 then all else all[..limit + 1];
    var values: seq<Entry<V>> := [];
    var truncated := false;
    var i := 0;
    while i < |stream|
      invariant i <= |stream| && |values| == i <= limit && values == all[..i]
      invariant !truncated
    {
      if |values| == limit {
        truncated := true;
        break;
      }
      values := values + [stream[i]];
      i := i + 1;
    }
    assert !truncated ==> values == all;
    var next := if truncated && |values| > 0 then Some(values[|values| - 1].key) else None;
    r := Ok(Page(prefix, confirmed, session.value.signedLength, next, truncated, values));
  }

  // ---- Following the cursors ----

  /** Every key that ends a full page with more to come is short enough to be sent back as a cursor. */
  predicate CursorsFit<V>(all: seq<Entry<V>>, limit: nat)
    requires 1 <= limit
  {
    |all| <= limit || (Utf16Length(all[limit - 1].key) <= MAX_CURSOR && CursorsFit(all[limit..], limit))
  }

  predicate EndsPage(i: nat, limit: nat)
    requires 1 <= limit
  {
    (i + 1) % limit == 0
  }

  /** In other words: the keys at positions limit - 1, 2 limit - 1, ... that are not last. */
  lemma {:induction false} FitMeansEveryPageEnd<V>(all: seq<Entry<V>>, limit: nat)
    requires 1 <= limit
    ensures CursorsFit(all, limit) <==>
            forall i :: 0 <= i < |all| - 1 && EndsPage(i, limit) ==> Utf16Length(all[i].key) <= MAX_CURSOR
  {
    forall i | 0 <= i < limit ensures EndsPage(i, limit) <==> i == limit - 1 { FirstPageEnd(i, limit); }
    if |all| > limit {
      var rest := all[limit..];
      FitMeansEveryPageEnd(rest, limit);
      forall i | 0 <= i < |rest| ensures EndsPage(i + limit, limit) == EndsPage(i, limit) && all[i + limit] == rest[i] {
        StepBack(i + limit + 1, limit);
      }
      if CursorsFit(all, limit) {
        forall i | 0 <= i < |all| - 1 && EndsPage(i, limit) ensures Utf16Length(all[i].key) <= MAX_CURSOR {
          if i >= limit { assert EndsPage(i - limit + limit, limit) == EndsPage(i - limit, limit); }
        }
      } else if Utf16Length(all[limit - 1].key) <= MAX_CURSOR {
        var i :| 0 <= i < |rest| - 1 && EndsPage(i, limit) && Utf16Length(rest[i].key) > MAX_CURSOR;
        assert EndsPage(i + limit, limit);
      }
    }
  }

  lemma FirstPageEnd(i: nat, limit: nat)
    requires i < limit
    ensures EndsPage(i, limit) <==> i == limit - 1
  {
  }

  lemma StepBack(n: nat, m: nat)
    requires 1 <= m <= n
    ensures n % m == (n - m) % m
  {
    var q, t := (n - m) / m, (n - m) % m;
    assert n == (q + 1) * m + t;
    UniqueRemainder(n, m, q + 1, t);
  }

  lemma UniqueRemainder(n: nat, m: nat, q: nat, t: nat)
    requires 1 <= m && n == q * m + t && t < m
    ensures n % m == t
  {
    var p := n / m;
    if p < q { TimesGrows(p + 1, q, m); }
    if p > q { TimesGrows(q + 1, p, m); }
  }

  lemma TimesGrows(a: nat, b: nat, m: nat)
    requires a <= b
    ensures a * m <= b * m
  {
  }

  ghost predicate Offers<V>(peer: Peer<V>, length: nat, view: seq<Entry<V>>) {
    peer.live.Some? && length <= peer.current <= MAX_SAFE_INTEGER && peer.checkout(length) == Some(view)
  }

  /** The confirmed past at one signed length is the same at every call and is never taken back. */
  ghost predicate Keeps<V>(peers: nat -> Peer<V>, length: nat, view: seq<Entry<V>>) {
    Sorted(view) && forall n :: Offers(peers(n), length, view)
  }

  /** A key the range lists is accepted as a cursor exactly when it fits. */
  lemma ListedKeyIsACursor<V>(view: seq<Entry<V>>, prefix: Key, limit: int, i: nat)
    requires i < |Range(view, prefix, None)| && Refusal(prefix, limit, None).None?
    ensures var k := Range(view, prefix, None)[i].key;
            Refusal(prefix, limit, Some(k)) == if Utf16Length(k) <= MAX_CURSOR then None else Some(CursorTooLong)
  {
    RangeIsEveryKeyOfThePrefix(view, prefix, Range(view, prefix, None)[i]);
  }

  /** The reader's own check of a page against what it has collected. */
  method CheckPage<V>(prefix: Key, entries: seq<Entry<V>>, page: Page<V>) returns (r: Result<seq<Entry<V>>, Error>)
    ensures Sorted(entries + page.values) && (forall e :: e in page.values ==> prefix <= e.key) ==> r == Ok(entries + page.values)
    ensures r.Ok? ==> r.value == entries + page.values && forall e :: e in page.values ==> prefix <= e.key
    ensures r.Ok? && Sorted(entries) ==> Sorted(r.value)
  {
    var all := entries;
    for i := 0 to |page.values|
      invariant all == entries + page.values[..i]
      invariant forall e :: e in page.values[..i] ==> prefix <= e.key
      invariant Sorted(entries) ==> Sorted(all)
    {
      var e := page.values[i];
      assert (entries + page.values)[|entries| + i] == e && e in page.values;
      if !(prefix <= e.key) { return Err(KeyOutsidePrefix); }
      if all != [] && !Less(all[|all| - 1].key, e.key) {
        assert (entries + page.values)[|all| - 1] == all[|all| - 1];
        return Err(NotAdvancing);
      }
      if Sorted(entries) { SortedGrows(all, e); }
      all := all + [e];
    }
    assert page.values[..|page.values|] == page.values;
    return Ok(all);
  }

  lemma SortedGrows<V>(all: seq<Entry<V>>, e: Entry<V>)
    requires Sorted(all) && (all == [] || Less(all[|all| - 1].key, e.key))
    ensures Sorted(all + [e])
  {
    forall i | 0 <= i < |all| - 1 ensures Less(all[i].key, e.key) {
      LessIsTransitive(all[i].key, all[|all| - 1].key, e.key);
    }
  }

  /** What the reader holds between calls: the first entries of the prefix, and the last of their keys as cursor. */
  ghost predicate ReadSoFar<V>(view: seq<Entry<V>>, prefix: Key, after: Option<Key>, entries: seq<Entry<V>>) {
    var all := Range(view, prefix, None);
    && |entries| <= |all| && entries == all[..|entries|]
    && after == (if entries == [] then None else Some(all[|entries| - 1].key))
    && Range(view, prefix, after) == all[|entries|..]
  }

  /** The next page extends what was read, and its cursor is the last key read. */
  lemma PageContinues<V>(s: Session<V>, prefix: Key, limit: nat, after: Option<Key>, entries: seq<Entry<V>>)
    requires ReadSoFar(s.view, prefix, after, entries) && 1 <= limit
    ensures var page, all, n := PageOf(s, prefix, true, limit, after), Range(s.view, prefix, None), |entries| + limit;
            && entries + page.values == (if |all| <= n then all else all[..n])
            && page.truncated == (|all| > n)
            && page.next == (if |all| <= n then None else Some(all[n - 1].key))
  {
    var all := Range(s.view, prefix, None);
    assert all == entries + all[|entries|..];
  }

  /** What is read at any moment is sorted and lies under the prefix. */
  lemma ReadIsOrdered<V>(view: seq<Entry<V>>, prefix: Key, n: nat)
    requires Sorted(view) && n <= |Range(view, prefix, None)|
    ensures Sorted(Range(view, prefix, None)[..n])
    ensures forall e :: e in Range(view, prefix, None)[..n] ==> prefix <= e.key
  {
    RangeIsSorted(view, prefix, None);
    var part := Range(view, prefix, None)[..n];
    forall e | e in part ensures prefix <= e.key {
      assert e in Range(view, prefix, None);
      RangeIsEveryKeyOfThePrefix(view, prefix, e);
    }
  }

  /** A page that extends what was read: pinned, in order, under the prefix, with its last key as cursor if more follows. */
  ghost predicate Continues<V>(prefix: Key, pinned: Option<nat>, after: Option<Key>, entries: seq<Entry<V>>, page: Page<V>) {
    && page.prefix == prefix && page.confirmed && (pinned.Some? ==> page.signedLength == pinned.value)
    && Sorted(entries + page.values)
    && (forall e :: e in page.values ==> prefix <= e.key)
    && page.truncated == page.next.Some?
    && (page.truncated ==>
          && entries + page.values != [] && (entries + page.values)[|entries| + |page.values| - 1].key == page.next.value
          && (after.Some? ==> Less(after.value, page.next.value)))
  }

  /** The reader takes exactly the pages that continue, whoever answered them. */
  method TakePage<V>(prefix: Key, pinned: Option<nat>, after: Option<Key>, entries: seq<Entry<V>>, page: Page<V>)
    returns (r: Result<(nat, seq<Entry<V>>, Option<Key>), Error>)
    requires Sorted(entries)
    ensures r.Ok? <==> Continues(prefix, pinned, after, entries, page)
    ensures r.Ok? ==> r.value == (page.signedLength, entries + page.values, page.next)
  {
    if !(page.prefix == prefix && page.confirmed) { return Err(MismatchedPage); }
    if pinned.Some? && page.signedLength != pinned.value { return Err(SnapshotDrift); }
    var checked := CheckPage(prefix, entries, page);
    if checked.Err? { return Err(checked.error); }
    var now := checked.value;
    if !page.truncated {
      if page.next.Some? { return Err(CursorOnLastPage); }
      return Ok((page.signedLength, now, None));
    }
    if page.next.None? { return Err(CursorMissing); }
    var cursor := page.next.value;
    if now == [] || now[|now| - 1].key != cursor { return Err(CursorNotLastKey); }
    if after.Some? && !Less(after.value, cursor) { return Err(NotAdvancing); }
    return Ok((page.signedLength, now, Some(cursor)));
  }

  /** With the next page, what is read is in order and under the prefix. */
  lemma PageIsOrdered<V>(s: Session<V>, prefix: Key, limit: nat, after: Option<Key>, entries: seq<Entry<V>>)
    requires Sorted(s.view) && ReadSoFar(s.view, prefix, after, entries) && 1 <= limit
    ensures var page := PageOf(s, prefix, true, limit, after);
            Sorted(entries + page.values) && forall e :: e in page.values ==> prefix <= e.key
  {
    PageContinues(s, prefix, limit, after, entries);
    var all, page := Range(s.view, prefix, None), PageOf(s, prefix, true, limit, after);
    var n := if page.truncated then |entries| + limit else |all|;
    ReadIsOrdered(s.view, prefix, n);
    assert entries + page.values == all[..n];
    LaterPart(entries, page.values, prefix);
  }

  lemma LaterPart<V>(entries: seq<Entry<V>>, values: seq<Entry<V>>, prefix: Key)
    requires forall e :: e in entries + values ==> prefix <= e.key
    ensures forall e :: e in values ==> prefix <= e.key
  {
    forall e | e in values ensures prefix <= e.key { assert e in entries + values; }
  }

  /** The next page's cursor is the last key read, beyond the cursor before. */
  lemma PageCursor<V>(s: Session<V>, prefix: Key, limit: nat, after: Option<Key>, entries: seq<Entry<V>>)
    requires Sorted(s.view) && ReadSoFar(s.view, prefix, after, entries) && 1 <= limit
    ensures var page := PageOf(s, prefix, true, limit, after);
            && page.truncated == page.next.Some?
            && (page.truncated ==>
                  && page.values != [] && page.values[|page.values| - 1].key == page.next.value
                  && (after.Some? ==> Less(after.value, page.next.value)))
  {
    RangeIsSorted(s.view, prefix, None);
    var all, rest := Range(s.view, prefix, None), Range(s.view, prefix, after);
    if |rest| > limit { assert rest[limit - 1] == all[|entries| + limit - 1]; }
  }

  /** Every page of the pinned snapshot continues what was read. */
  lemma HonestPageContinues<V>(s: Session<V>, prefix: Key, limit: nat, after: Option<Key>, entries: seq<Entry<V>>)
    requires Sorted(s.view) && ReadSoFar(s.view, prefix, after, entries) && 1 <= limit
    ensures Continues(prefix, Some(s.signedLength), after, entries, PageOf(s, prefix, true, limit, after))
  {
    PageIsOrdered(s, prefix, limit, after, entries);
    PageCursor(s, prefix, limit, after, entries);
  }

  /** One call of the reader: the pinned signed length, everything read so far and the cursor to go on from. */
  method ReadPage<V>(peer: Peer<V>, prefix: Key, limit: nat, pinned: Option<nat>, after: Option<Key>, entries: seq<Entry<V>>,
                     ghost length: nat, ghost view: seq<Entry<V>>)
    returns (r: Result<(nat, seq<Entry<V>>, Option<Key>), Error>)
    requires Sorted(view) && Offers(peer, length, view) && 1 <= limit
    requires if pinned.Some? then pinned.value == length else peer.current == length
    requires ReadSoFar(view, prefix, after, entries)
    ensures Refusal(prefix, limit, after).Some? ==> r == Err(Refusal(prefix, limit, after).value)
    ensures Refusal(prefix, limit, after).None? ==>
              var all, n := Range(view, prefix, None), |entries| + limit;
              r == if |all| <= n then Ok((length, all, None)) else Ok((length, all[..n], Some(all[n - 1].key)))
  {
    var ask := if pinned.None? then None else Some(pinned.value as int);
    var answer := GetStatePrefix(peer, prefix, true, limit, ask, after);
    if answer.Err? { return Err(answer.error); }
    ghost var s := Session(view, length);
    assert answer.value == PageOf(s, prefix, true, limit, after);
    ReadIsOrdered(view, prefix, |entries|);
    HonestPageContinues(s, prefix, limit, after, entries);
    PageContinues(s, prefix, limit, after, entries);
    r := TakePage(prefix, pinned, after, entries, answer.value);
  }

  predicate Fits(after: Option<Key>) {
    after.None? || Utf16Length(after.value) <= MAX_CURSOR
  }

  lemma CursorStep<V>(view: seq<Entry<V>>, prefix: Key, n: nat, limit: nat)
    requires Sorted(view) && 1 <= limit && n + limit < |Range(view, prefix, None)|
    ensures var all := Range(view, prefix, None);
            var cursor := Some(all[n + limit - 1].key);
            && ReadSoFar(view, prefix, cursor, all[..n + limit])
            && (CursorsFit(all[n..], limit) <==> Fits(cursor) && CursorsFit(all[n + limit..], limit))
  {
    var all := Range(view, prefix, None);
    AfterCursor(view, prefix, n + limit - 1);
    assert all[n..][limit..] == all[n + limit..];
    assert all[n..][limit - 1] == all[n + limit - 1];
  }

  /** Between two calls of the walk: what was read, where it goes on, and that it still decides the outcome. */
  ghost predicate Walks<V>(view: seq<Entry<V>>, prefix: Key, limit: nat, after: Option<Key>, entries: seq<Entry<V>>)
    requires 1 <= limit
  {
    var all := Range(view, prefix, None);
    && ReadSoFar(view, prefix, after, entries) && |entries| <= |all|
    && (after.None? <==> entries == [])
    && (after.Some? ==> Refusal(prefix, limit, None).None?)
    && (CursorsFit(all, limit) <==> Fits(after) && CursorsFit(all[|entries|..], limit))
  }

  /** A cursor of the walk is refused exactly if the prefix is or it is too long, and then some page end is. */
  lemma WalkRefusal<V>(view: seq<Entry<V>>, prefix: Key, limit: nat, after: Option<Key>, entries: seq<Entry<V>>)
    requires 1 <= limit && Walks(view, prefix, limit, after, entries) && Refusal(prefix, limit, None).None?
    ensures Refusal(prefix, limit, after) == if Fits(after) then None else Some(CursorTooLong)
  {
    if after.Some? { ListedKeyIsACursor(view, prefix, limit, |entries| - 1); }
  }

  lemma WalkStep<V>(view: seq<Entry<V>>, prefix: Key, limit: nat, after: Option<Key>, entries: seq<Entry<V>>)
    requires Sorted(view) && 1 <= limit && Walks(view, prefix, limit, after, entries)
    requires Refusal(prefix, limit, None).None? && Fits(after)
    ensures var all, n := Range(view, prefix, None), |entries| + limit;
            if |all| <= n then CursorsFit(all, limit) else Walks(view, prefix, limit, Some(all[n - 1].key), all[..n])
  {
    if |entries| + limit < |Range(view, prefix, None)| { CursorStep(view, prefix, |entries|, limit); }
  }

  /** One call of the walk: it fails, ends or goes on as the outcome requires. */
  method ReadOn<V>(peer: Peer<V>, prefix: Key, limit: nat, pinned: Option<nat>, after: Option<Key>, entries: seq<Entry<V>>,
                   ghost length: nat, ghost view: seq<Entry<V>>)
    returns (r: Result<(nat, seq<Entry<V>>, Option<Key>), Error>)
    requires Sorted(view) && Offers(peer, length, view) && 1 <= limit <= MAX_LIMIT
    requires if pinned.Some? then pinned.value == length else peer.current == length
    requires Walks(view, prefix, limit, after, entries)
    ensures Refusal(prefix, limit, None).Some? ==> r == Err(Refusal(prefix, limit, None).value)
    ensures Refusal(prefix, limit, None).None? && r.Err? ==>
              r.error == CursorTooLong && !CursorsFit(Range(view, prefix, None), limit)
    ensures r.Ok? && r.value.2.None? ==>
              r.value.0 == length && r.value.1 == Range(view, prefix, None) && CursorsFit(r.value.1, limit)
    ensures r.Ok? && r.value.2.Some? ==>
              r.value.0 == length && Walks(view, prefix, limit, r.value.2, r.value.1) && |entries| < |r.value.1|
  {
    if Refusal(prefix, limit, None).None? {
      WalkRefusal(view, prefix, limit, after, entries);
      if Fits(after) { WalkStep(view, prefix, limit, after, entries); }
    }
    r := ReadPage(peer, prefix, limit, pinned, after, entries, length, view);
  }

  /**
   * Read everything under a prefix. Against a peer that keeps the pinned snapshot, the reader stops, none of
   * its own checks ever fires, and it returns every entry of the prefix once, in order. It fails exactly when
   * the prefix is refused or some page ends in a key longer than a cursor may be.
   */
  method ReadPrefixEntries<V>(peers: nat -> Peer<V>, prefix: Key, requested: Option<nat>, limit: nat,
                              ghost length: nat, ghost view: seq<Entry<V>>)
    returns (r: Result<(nat, seq<Entry<V>>), Error>)
    requires Keeps(peers, length, view) && 1 <= limit <= MAX_LIMIT
    requires length == if requested.Some? then requested.value else peers(0).current
    ensures Refusal(prefix, limit, None).Some? ==> r == Err(Refusal(prefix, limit, None).value)
    ensures Refusal(prefix, limit, None).None? ==>
              var all := Range(view, prefix, None);
              r == if CursorsFit(all, limit) then Ok((length, all)) else Err(CursorTooLong)
  {
    var pinned := requested;
    var after: Option<Key> := None;
    var entries: seq<Entry<V>> := [];
    var calls := 0;
    while true
      invariant Walks(view, prefix, limit, after, entries)
      invariant if calls == 0 then pinned == requested else pinned == Some(length)
      decreases |Range(view, prefix, None)| - |entries|
    {
      var answer := ReadOn(peers(calls), prefix, limit, pinned, after, entries, length, view);
      if answer.Err? { return Err(answer.error); }
      pinned, entries, calls := Some(answer.value.0), answer.value.1, calls + 1;
      if answer.value.2.None? { break; }
      after := answer.value.2;
    }
    return Ok((pinned.value, entries));
  }

  /** A listed key of 513 characters is handed out as a cursor that the next call refuses. */
  lemma LongKeyBreaksTheWalk(v: int)
    ensures var k := seq(513, i => if i == 0 then 97 else 98);
            var s := Session([Entry(k, v), Entry(k + [98], v)], 7);
            && Sorted(s.view)
            && PageOf(s, [97], true, 1, None).next == Some(k)
            && Refusal([97], 1, Some(k)) == Some(CursorTooLong)
  {
    var k: Key := seq(513, i => if i == 0 then 97 else 98);
    var s := Session([Entry(k, v), Entry(k + [98], v)], 7);
    LongerIsAbove(k, 98);
    PlainLength(k);
    assert k == [97] + k[1..];
    PrefixIsNotAbove(k, [97]);
    PrefixIsNotAbove(k + [98], [97]);
    assert Less(k, [97] + [END]) && Less(k + [98], [97] + [END]);
    assert s.view[1..] == [Entry(k + [98], v)];
    assert s.view[1..][1..] == [];
    assert Range(s.view[1..], [97], None) == s.view[1..];
    assert Range(s.view, [97], None) == s.view;
  }

  lemma {:induction false} LongerIsAbove(k: Key, c: nat)
    ensures Less(k, k + [c])
  {
    if k != [] {
      LongerIsAbove(k[1..], c);
      assert (k + [c])[1..] == k[1..] + [c];
    }
  }

  lemma {:induction false} PlainLength(k: Key)
    requires forall i :: 0 <= i < |k| ==> k[i] < 0x10000
    ensures Utf16Length(k) == |k|
  {
    if k != [] { PlainLength(k[1..]); }
  }
}
