/** Stable sorting by a key, and what makes the result independent of the given order. */
module KeySort {
  import opened Texts

  function Insert<T>(x: T, s: seq<T>, key: T -> seq<int>): seq<T> {
    if s == [] || !Less(key(s[0]), key(x)) then [x] + s else [s[0]] + Insert(x, s[1..], key)
  }

  /** Entries with equal keys keep their order. */
  function Sort<T>(s: seq<T>, key: T -> seq<int>): seq<T> {
    if s == [] then [] else Insert(s[0], Sort(s[1..], key), key)
  }

  ghost predicate Ascending<T>(s: seq<T>, key: T -> seq<int>) {
    forall i, j :: 0 <= i < j < |s| ==> !Less(key(s[j]), key(s[i]))
  }

  ghost predicate Distinct<T, K>(s: seq<T>, key: T -> K) {
    forall i, j :: 0 <= i < j < |s| ==> key(s[i]) != key(s[j])
  }

  lemma {:induction false} InsertKeeps<T>(x: T, s: seq<T>, key: T -> seq<int>)
    ensures multiset(Insert(x, s, key)) == multiset([x]) + multiset(s)
  {
    if s != [] && Less(key(s[0]), key(x)) {
      InsertKeeps(x, s[1..], key);
      assert s == [s[0]] + s[1..];
    }
  }

  lemma {:induction false} SortKeeps<T>(s: seq<T>, key: T -> seq<int>)
    ensures multiset(Sort(s, key)) == multiset(s)
  {
    if s != [] {
      SortKeeps(s[1..], key);
      InsertKeeps(s[0], Sort(s[1..], key), key);
      assert s == [s[0]] + s[1..];
    }
  }

  lemma NotLessIsTransitive(a: seq<int>, b: seq<int>, c: seq<int>)
    requires !Less(b, a) && !Less(c, b)
    ensures !Less(c, a)
  {
    LessIsTotal(a, b);
    LessIsTotal(b, c);
    if Less(c, a) {
      LessIsStrict(a, c);
      if Less(a, b) && Less(b, c) { LessIsTransitive(a, b, c); }
    }
  }

  lemma {:induction false} InsertAscends<T>(x: T, s: seq<T>, key: T -> seq<int>)
    requires Ascending(s, key)
    ensures Ascending(Insert(x, s, key), key)
  {
    var r := Insert(x, s, key);
    if s == [] {
    } else if !Less(key(s[0]), key(x)) {
      forall j | 0 < j < |r| ensures !Less(key(r[j]), key(x)) {
        if j > 1 { NotLessIsTransitive(key(x), key(s[0]), key(s[j - 1])); }
      }
    } else {
      InsertAscends(x, s[1..], key);
      InsertKeeps(x, s[1..], key);
      LessIsStrict(key(s[0]), key(x));
      forall j | 0 < j < |r| ensures !Less(key(r[j]), key(s[0])) {
        assert r[j] == Insert(x, s[1..], key)[j - 1];
        assert r[j] in multiset(Insert(x, s[1..], key));
      }
    }
  }

  lemma {:induction false} SortAscends<T>(s: seq<T>, key: T -> seq<int>)
    ensures Ascending(Sort(s, key), key)
  {
    if s != [] {
      SortAscends(s[1..], key);
      InsertAscends(s[0], Sort(s[1..], key), key);
    }
  }

  /** Sorting again changes nothing. */
  lemma {:induction false} SortedStays<T>(s: seq<T>, key: T -> seq<int>)
    requires Ascending(s, key)
    ensures Sort(s, key) == s
  {
    if s != [] {
      SortedStays(s[1..], key);
      assert |s| > 1 ==> !Less(key(s[1]), key(s[0]));
    }
  }

  lemma HeadsAgree<T>(s: seq<T>, t: seq<T>, key: T -> seq<int>)
    requires Ascending(s, key) && Ascending(t, key) && Distinct(s, key)
    requires s != [] && t != [] && s[0] in t && t[0] in s
    ensures s[0] == t[0]
  {
    var i :| 0 <= i < |t| && t[i] == s[0];
    var j :| 0 <= j < |s| && s[j] == t[0];
    LessIsTotal(key(s[0]), key(t[0]));
  }

  /** With distinct keys only one ascending order exists. */
  lemma {:induction false} AscendingIsUnique<T>(s: seq<T>, t: seq<T>, key: T -> seq<int>)
    requires Ascending(s, key) && Ascending(t, key) && Distinct(s, key) && multiset(s) == multiset(t)
    ensures s == t
  {
    assert |s| == |multiset(s)| == |t|;
    if s != [] {
      assert s[0] in multiset(t) && t[0] in multiset(s);
      HeadsAgree(s, t, key);
      TailKeeps(s);
      TailKeeps(t);
      AscendingIsUnique(s[1..], t[1..], key);
      assert s == [s[0]] + s[1..] && t == [t[0]] + t[1..];
    }
  }

  lemma TailKeeps<T>(s: seq<T>)
    requires s != []
    ensures multiset(s[1..]) == multiset(s) - multiset([s[0]])
  {
    assert s == [s[0]] + s[1..];
  }

  lemma KeysStayDistinct<T>(s: seq<T>, t: seq<T>, key: T -> seq<int>)
    requires Distinct(s, key) && multiset(s) == multiset(t)
    ensures Distinct(t, key)
  {
    forall i, j | 0 <= i < j < |t| ensures key(t[i]) != key(t[j]) {
      NoTwoAlike(s, t, key, i, j);
    }
  }

  lemma NoTwoAlike<T>(s: seq<T>, t: seq<T>, key: T -> seq<int>, i: nat, j: nat)
    requires Distinct(s, key) && multiset(s) == multiset(t) && i < j < |t|
    ensures key(t[i]) != key(t[j])
  {
    assert t[i] in multiset(s) && t[j] in multiset(s);
    var a, b :| 0 <= a < |s| && s[a] == t[i] && 0 <= b < |s| && s[b] == t[j];
    CountedOnce(s, key, a);
    if t[i] == t[j] { CountedTwice(t, i, j); }
  }

  lemma CountedOnce<T>(s: seq<T>, key: T -> seq<int>, a: nat)
    requires Distinct(s, key) && a < |s|
    ensures multiset(s)[s[a]] == 1
  {
    assert s == s[..a] + [s[a]] + s[a + 1..];
    assert s[a] !in s[..a] && s[a] !in s[a + 1..];
  }

  lemma CountedTwice<T>(t: seq<T>, i: nat, j: nat)
    requires i < j < |t| && t[i] == t[j]
    ensures multiset(t)[t[i]] >= 2
  {
    assert t == t[..i] + [t[i]] + t[i + 1..j] + [t[j]] + t[j + 1..];
  }

  /** Any permutation of entries with distinct keys sorts to the same sequence. */
  lemma PermutationsSortAlike<T>(s: seq<T>, t: seq<T>, key: T -> seq<int>)
    requires Distinct(s, key) && multiset(s) == multiset(t)
    ensures Sort(s, key) == Sort(t, key)
  {
    SortKeeps(s, key);
    SortKeeps(t, key);
    SortAscends(s, key);
    SortAscends(t, key);
    KeysStayDistinct(s, Sort(s, key), key);
    AscendingIsUnique(Sort(s, key), Sort(t, key), key);
  }
}
