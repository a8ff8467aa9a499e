/** Insertion-ordered dictionaries, as Python's OrderedDict behaves:
    a new key goes to the end, assigning to an existing key replaces
    its value and leaves its position alone. */
module OrderedMaps {

  /** No element occurs twice in s. */
  predicate Distinct<K(==,!new)>(s: seq<K>) {
    forall i, j :: 0 <= i < j < |s| ==> s[i] != s[j]
  }

  /** An ordered dictionary: its keys in insertion order, and what each
      key is bound to. */
  datatype OMap<K(==,!new), V> = OMap(keys: seq<K>, m: map<K, V>)
  {
    /** Each key is listed once, and the listed keys are the bound ones. */
    ghost predicate Valid() {
      Distinct(keys) && forall k :: k in m <==> k in keys
    }

    /** `d[k] = v`. */
    function Put(k: K, v: V): (r: OMap<K, V>)
      ensures r.m == m[k := v]
      ensures k in m ==> r.keys == keys
      ensures k !in m ==> r.keys == keys + [k]
    {
      OMap(if k in m then keys else keys + [k], m[k := v])
    }
  }

  /** Assignment keeps a dictionary well-formed. */
  lemma PutValid<K(!new), V>(d: OMap<K, V>, k: K, v: V)
    requires d.Valid()
    ensures d.Put(k, v).Valid()
  {
  }

  /** `OrderedDict()`. */
  function Empty<K(==,!new), V>(): (r: OMap<K, V>)
    ensures r.Valid() && r.keys == [] && r.m == map[]
  {
    OMap([], map[])
  }

  /** The elements of s in order of first occurrence, each once. */
  function Dedup<K(==,!new)>(s: seq<K>): (r: seq<K>)
    ensures Distinct(r)
    ensures forall x :: x in r <==> x in s
    ensures |r| <= |s|
  {
    if s == [] then []
    else
      var p := Dedup(s[..|s| - 1]);
      if s[|s| - 1] in s[..|s| - 1] then p else p + [s[|s| - 1]]
  }

  /** The position of the first occurrence of x in s. */
  function FirstIndex<K(==,!new)>(s: seq<K>, x: K): (r: nat)
    requires x in s
    ensures r < |s| && s[r] == x && x !in s[..r]
  {
    var n := |s| - 1;
    if x in s[..n] then
      var r := FirstIndex(s[..n], x);
      assert s[..r] == s[..n][..r];
      r
    else n
  }

  /** Dedup keeps elements in order of first occurrence: an element listed
      before another first occurs before it. */
  lemma {:induction false} DedupOrder<K(!new)>(s: seq<K>, i: nat, j: nat)
    requires i < j < |Dedup(s)|
    ensures FirstIndex(s, Dedup(s)[i]) < FirstIndex(s, Dedup(s)[j])
  {
    var n := |s| - 1;
    var pre := s[..n];
    assert s == pre + [s[n]];
    var r := Dedup(s);
    var a, b := r[i], r[j];
    FirstIndexSnoc(pre, s[n], a);
    FirstIndexSnoc(pre, s[n], b);
    if s[n] in pre {
      DedupOrder(pre, i, j);
    } else if j < |Dedup(pre)| {
      DedupOrder(pre, i, j);
    } else {
      assert a in pre;
    }
  }

  lemma FirstIndexSnoc<K(!new)>(s: seq<K>, x: K, y: K)
    requires y in s + [x]
    ensures y in s ==> FirstIndex(s + [x], y) == FirstIndex(s, y)
    ensures y !in s ==> FirstIndex(s + [x], y) == |s|
  {
    assert (s + [x])[..|s|] == s;
  }

  /** The keys of a sequence of key-value pairs, in order. */
  function Firsts<K, V>(ps: seq<(K, V)>): (r: seq<K>)
    ensures |r| == |ps|
    ensures forall i :: 0 <= i < |ps| ==> r[i] == ps[i].0
  {
    seq(|ps|, i requires 0 <= i < |ps| => ps[i].0)
  }

  /** The value of the last pair whose key is k. */
  function LastValue<K(==,!new), V>(ps: seq<(K, V)>, k: K): V
    requires k in Firsts(ps)
  {
    var n := |ps| - 1;
    if ps[n].0 == k then ps[n].1
    else
      assert k in Firsts(ps[..n]) by {
        var i :| 0 <= i < |ps| && Firsts(ps)[i] == k;
        assert i < n && Firsts(ps[..n])[i] == k;
      }
      LastValue(ps[..n], k)
  }

  /** The dictionary a sequence of assignments `d[k] = v` builds from an
      empty one, described without the loop: the keys in order of first
      occurrence, each bound to the value of its last assignment. */
  function FromPairs<K(==,!new), V>(ps: seq<(K, V)>): (r: OMap<K, V>)
    ensures r.Valid()
  {
    OMap(Dedup(Firsts(ps)), map k | k in Firsts(ps) :: LastValue(ps, k))
  }

  lemma FromPairsEmpty<K(!new), V>()
    ensures FromPairs<K, V>([]) == Empty()
  {
  }

  lemma FirstsSnoc<K, V>(ps: seq<(K, V)>, p: (K, V))
    ensures Firsts(ps + [p]) == Firsts(ps) + [p.0]
  {
  }

  /** One more assignment `d[k] = v` at the end of the sequence is one more
      Put: this is what makes a loop of assignments compute FromPairs. */
  lemma FromPairsSnoc<K(!new), V>(ps: seq<(K, V)>, k: K, v: V)
    ensures FromPairs(ps + [(k, v)]) == FromPairs(ps).Put(k, v)
  {
    var qs := ps + [(k, v)];
    FirstsSnoc(ps, (k, v));
    assert qs[..|qs| - 1] == ps;
    assert Firsts(qs)[..|qs| - 1] == Firsts(ps);
    var left, right := FromPairs(qs), FromPairs(ps).Put(k, v);
    assert left.keys == right.keys;
    forall j | j in Firsts(qs)
      ensures j in right.m && left.m[j] == right.m[j]
    {
      if j != k {
        assert j in Firsts(ps);
      }
    }
  }

  /** A key that occurs in the pairs is bound, and an index that is the last
      with its key supplies the bound value ("last write wins"). */
  lemma {:induction false} FromPairsLast<K(!new), V>(ps: seq<(K, V)>, i: nat)
    requires i < |ps|
    requires forall j :: i < j < |ps| ==> ps[j].0 != ps[i].0
    ensures ps[i].0 in FromPairs(ps).m
    ensures FromPairs(ps).m[ps[i].0] == ps[i].1
  {
    assert Firsts(ps)[i] == ps[i].0;
    var n := |ps| - 1;
    if i < n {
      var pre := ps[..n];
      assert Firsts(pre)[i] == ps[i].0;
      FromPairsLast(pre, i);
      assert LastValue(ps, ps[i].0) == LastValue(pre, ps[i].0);
    }
  }

  /** The bound keys are exactly the keys that occur in the pairs. */
  lemma FromPairsKeys<K(!new), V>(ps: seq<(K, V)>)
    ensures forall k :: k in FromPairs(ps).m <==> exists i :: 0 <= i < |ps| && ps[i].0 == k
  {
    forall k | k in FromPairs(ps).m
      ensures exists i :: 0 <= i < |ps| && ps[i].0 == k
    {
      var i :| 0 <= i < |ps| && Firsts(ps)[i] == k;
    }
    forall k | exists i :: 0 <= i < |ps| && ps[i].0 == k
      ensures k in FromPairs(ps).m
    {
      var i :| 0 <= i < |ps| && ps[i].0 == k;
      assert Firsts(ps)[i] == k;
    }
  }

  /** A key already present moves nothing; a new key goes last. */
  lemma DedupSnoc<K(!new)>(s: seq<K>, x: K)
    ensures Dedup(s + [x]) == if x in s then Dedup(s) else Dedup(s) + [x]
  {
    assert (s + [x])[..|s|] == s;
  }

  /** The first n of the given keys, each bound as in target: the state of
      a loop that rebinds the keys of a dictionary one at a time. */
  function Prefix<K(==,!new), V>(keys: seq<K>, target: map<K, V>, n: nat): OMap<K, V>
    requires n <= |keys|
    requires forall i :: 0 <= i < |keys| ==> keys[i] in target
  {
    OMap(keys[..n], map k | k in keys[..n] :: target[k])
  }

  lemma PrefixStep<K(!new), V>(keys: seq<K>, target: map<K, V>, n: nat)
    requires Distinct(keys) && n < |keys|
    requires forall i :: 0 <= i < |keys| ==> keys[i] in target
    ensures Prefix(keys, target, n).Put(keys[n], target[keys[n]]) == Prefix(keys, target, n + 1)
  {
    assert keys[..n + 1] == keys[..n] + [keys[n]];
    assert keys[n] !in keys[..n];
  }

  lemma PrefixEnds<K(!new), V>(keys: seq<K>, target: map<K, V>)
    requires forall k :: k in target <==> k in keys
    ensures Prefix(keys, target, 0) == Empty()
    ensures Prefix(keys, target, |keys|) == OMap(keys, target)
  {
    assert keys[..|keys|] == keys;
  }
}
