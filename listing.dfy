/** Result ordering and pagination shared by the list endpoints:
    `.sort({ createdAt: -1 })`, `.skip(n)` and `.limit(n)`. */
module Listing {
  import opened Common

  /** No key of `keys` has a later timestamp than `k`. */
  ghost predicate IsNewest<K, V>(k: K, keys: set<K>, m: map<K, V>, created: V -> nat)
    requires keys <= m.Keys && k in m
  {
    forall j :: j in keys ==> created(m[j]) <= created(m[k])
  }

  /** Some key of `keys` has the largest timestamp. */
  lemma {:induction false} NewestExists<K, V>(keys: set<K>, m: map<K, V>, created: V -> nat)
    requires keys != {} && keys <= m.Keys
    ensures exists k :: k in keys && IsNewest(k, keys, m, created)
    decreases keys
  {
    var x :| x in keys;
    if keys != {x} {
      var rest := keys - {x};
      NewestExists(rest, m, created);
      var y :| y in rest && IsNewest(y, rest, m, created);
      if created(m[x]) >= created(m[y]) {
        assert IsNewest(x, keys, m, created);
      } else {
        assert IsNewest(y, keys, m, created);
      }
    } else {
      assert IsNewest(x, keys, m, created);
    }
  }

  /** The keys in descending timestamp order, each exactly once; the order
      among equal timestamps is left open, as the database leaves it. */
  ghost function NewestFirst<K(!new), V>(keys: set<K>, m: map<K, V>, created: V -> nat): (r: seq<K>)
    requires keys <= m.Keys
    ensures |r| == |keys|
    ensures forall k :: k in r <==> k in keys
    ensures forall i, j :: 0 <= i < j < |r| ==> created(m[r[i]]) >= created(m[r[j]])
    decreases keys
  {
    if keys == {} then []
    else
      NewestExists(keys, m, created);
      var x :| x in keys && IsNewest(x, keys, m, created);
      var rest := NewestFirst(keys - {x}, m, created);
      assert forall i :: 0 <= i < |rest| ==> rest[i] in keys - {x};
      PrependNewest(x, keys, m, created, rest);
      [x] + rest
  }

  /** Putting the newest key in front of the others in order keeps the order. */
  lemma PrependNewest<K, V>(x: K, keys: set<K>, m: map<K, V>, created: V -> nat, rest: seq<K>)
    requires keys <= m.Keys && x in keys && IsNewest(x, keys, m, created)
    requires |rest| == |keys - {x}| && forall k :: k in rest <==> k in keys - {x}
    requires forall i :: 0 <= i < |rest| ==> rest[i] in keys - {x}
    requires forall i, j :: 0 <= i < j < |rest| ==> created(m[rest[i]]) >= created(m[rest[j]])
    ensures |[x] + rest| == |keys|
    ensures forall k :: k in [x] + rest <==> k in keys
    ensures forall i, j :: 0 <= i < j < |[x] + rest| ==>
      created(m[([x] + rest)[i]]) >= created(m[([x] + rest)[j]])
  {
  }

  /** `.skip(skip).limit(limit)` on an ordered result. */
  function Page<T>(items: seq<T>, skip: nat, limit: nat): (p: seq<T>)
    ensures |p| == if skip >= |items| then 0 else Min(limit, |items| - skip)
    ensures |p| <= limit
    ensures forall i :: 0 <= i < |p| ==> skip + i < |items| && p[i] == items[skip + i]
  {
    if skip >= |items| then [] else items[skip..skip + Min(limit, |items| - skip)]
  }

  /** The records of `m` under an ordered sequence of its keys. */
  function Records<K, V>(m: map<K, V>, ks: seq<K>): (r: seq<V>)
    requires forall i :: 0 <= i < |ks| ==> ks[i] in m
    ensures |r| == |ks| && forall i :: 0 <= i < |ks| ==> r[i] == m[ks[i]]
  {
    seq(|ks|, i requires 0 <= i < |ks| => m[ks[i]])
  }

  /** `v` is the record of `m` under some key of `keys`. */
  ghost predicate RecordOf<K, V>(m: map<K, V>, keys: set<K>, v: V) {
    exists k :: k in keys && k in m && v == m[k]
  }

  /** The records of `m` whose keys are in `keys`, newest first: every such
      record appears, nothing else does, and timestamps never increase. */
  ghost function NewestRecords<K(!new), V>(m: map<K, V>, keys: set<K>, created: V -> nat): (r: seq<V>)
    requires keys <= m.Keys
    ensures |r| == |keys|
    ensures forall k :: k in keys ==> m[k] in r
    ensures forall i :: 0 <= i < |r| ==> RecordOf(m, keys, r[i])
    ensures forall i, j :: 0 <= i < j < |r| ==> created(r[i]) >= created(r[j])
  {
    var ks := NewestFirst(keys, m, created);
    var r := Records(m, ks);
    RecordsCover(m, keys, ks, r, created);
    r
  }

  lemma RecordsCover<K, V>(m: map<K, V>, keys: set<K>, ks: seq<K>, r: seq<V>, created: V -> nat)
    requires keys <= m.Keys
    requires forall k :: k in ks <==> k in keys
    requires |r| == |ks| && forall i :: 0 <= i < |ks| ==> r[i] == m[ks[i]]
    requires forall i, j :: 0 <= i < j < |ks| ==> created(m[ks[i]]) >= created(m[ks[j]])
    ensures forall i, j :: 0 <= i < j < |r| ==> created(r[i]) >= created(r[j])
    ensures forall k :: k in keys ==> m[k] in r
    ensures forall i :: 0 <= i < |r| ==> RecordOf(m, keys, r[i])
  {
    forall k | k in keys ensures m[k] in r {
      var i :| 0 <= i < |ks| && ks[i] == k;
      assert r[i] == m[k];
    }
    forall i | 0 <= i < |r| ensures RecordOf(m, keys, r[i]) {
      var k := ks[i];
      assert k in ks;
      assert k in keys && r[i] == m[k];
    }
  }

  /** A property every selected record has holds of every listed one. */
  lemma RecordsSatisfy<K, V>(m: map<K, V>, keys: set<K>, r: seq<V>, p: V -> bool)
    requires forall k :: k in keys ==> k in m && p(m[k])
    requires forall i :: 0 <= i < |r| ==> RecordOf(m, keys, r[i])
    ensures forall i :: 0 <= i < |r| ==> r[i] in m.Values && p(r[i])
  {
    forall i | 0 <= i < |r| ensures r[i] in m.Values && p(r[i]) {
      assert RecordOf(m, keys, r[i]);
    }
  }
}
