/** Maps filled entry by entry that refuse a repeated key. */
module UniqueMap {
  import opened Wrappers

  /** Insert the pairs in turn; none as soon as a key repeats. */
  function Build<K(==), V>(s: seq<(K, V)>): Option<map<K, V>> {
    if s == [] then Some(map[])
    else match Build(s[..|s| - 1])
      case None => None
      case Some(m) => if s[|s| - 1].0 in m then None else Some(m[s[|s| - 1].0 := s[|s| - 1].1])
  }

  ghost function KeySet<K, V>(s: seq<(K, V)>): set<K> {
    set p | p in s :: p.0
  }

  /** Building succeeds exactly when there are as many keys as pairs; the map then holds each pair. */
  lemma {:induction false} BuildIsTheMap<K, V>(s: seq<(K, V)>)
    ensures |KeySet(s)| <= |s|
    ensures Build(s).Some? <==> |KeySet(s)| == |s|
    ensures Build(s).Some? ==> Build(s).value.Keys == KeySet(s) && forall p :: p in s ==> Build(s).value[p.0] == p.1
  {
    if s != [] {
      var h, p := s[..|s| - 1], s[|s| - 1];
      BuildIsTheMap(h);
      assert s == h + [p];
      assert KeySet(s) == KeySet(h) + {p.0};
    }
  }

  lemma {:induction false} BuiltKeysDiffer<K, V>(s: seq<(K, V)>, i: nat, k: nat)
    requires i < k < |s| && Build(s).Some?
    ensures s[i].0 != s[k].0
  {
    var h := s[..|s| - 1];
    BuildIsTheMap(h);
    if k < |s| - 1 { BuiltKeysDiffer(h, i, k); }
    else { assert h[i] in h && h[i].0 in KeySet(h); }
  }

  /** The order of the pairs does not matter. */
  lemma BuildIgnoresOrder<K, V>(s: seq<(K, V)>, t: seq<(K, V)>)
    requires |s| == |t| && forall p :: p in s <==> p in t
    ensures Build(s) == Build(t)
  {
    BuildIsTheMap(s);
    BuildIsTheMap(t);
    assert KeySet(s) == KeySet(t);
    if Build(s).Some? {
      var m, n := Build(s).value, Build(t).value;
      forall k | k in m ensures m[k] == n[k] {
        var p :| p in s && p.0 == k;
      }
      assert m == n;
    }
  }
}
