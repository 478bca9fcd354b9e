/** Lists of records identified by a key: `findIndex` and replace-or-append
    upsert. `saveVote` in the browser store applies it with the key
    (songId, voter); the votes table's upsert on (song_id, user_id) updates the
    matching row in place or inserts a new one, which is the same operation. */
module KeyedList {

  /** `xs.findIndex(v => key(v) == k)`: the first index with key `k`, or -1. */
  function IndexOfKey<T, K(==)>(xs: seq<T>, key: T -> K, k: K): (i: int)
    ensures -1 <= i < |xs|
    ensures i >= 0 ==> key(xs[i]) == k
    ensures i >= 0 ==> forall j :: 0 <= j < i ==> key(xs[j]) != k
    ensures i < 0 ==> forall j :: 0 <= j < |xs| ==> key(xs[j]) != k
  {
    if xs == [] then -1
    else if key(xs[0]) == k then 0
    else
      var i := IndexOfKey(xs[1..], key, k);
      if i < 0 then -1 else i + 1
  }

  /** A key carried at some index is found, at that index or before it. */
  lemma IndexOfPresentKey<T, K>(xs: seq<T>, key: T -> K, k: K, i: int)
    requires 0 <= i < |xs| && key(xs[i]) == k
    ensures 0 <= IndexOfKey(xs, key, k) <= i
  {
  }

  predicate HasKey<T, K(==)>(xs: seq<T>, key: T -> K, k: K) {
    exists j :: 0 <= j < |xs| && key(xs[j]) == k
  }

  /** Replace the first element with the same key as `x`, or append `x`. When
      the key is already present, the first record carrying it is replaced in
      place and nothing else moves or changes; otherwise `x` lands at the end. */
  function Upsert<T, K(==)>(xs: seq<T>, x: T, key: T -> K): (ys: seq<T>)
    ensures HasKey(xs, key, key(x)) ==>
      var i := IndexOfKey(xs, key, key(x));
      && |ys| == |xs|
      && 0 <= i < |xs| && key(xs[i]) == key(x)
      && (forall j :: 0 <= j < i ==> key(xs[j]) != key(x))
      && ys[i] == x
      && (forall j :: 0 <= j < |xs| && j != i ==> ys[j] == xs[j])
    ensures !HasKey(xs, key, key(x)) ==>
      && |ys| == |xs| + 1
      && ys[..|xs|] == xs
      && ys[|xs|] == x
  {
    var i := IndexOfKey(xs, key, key(x));
    if i >= 0 then xs[i := x] else xs + [x]
  }

  /** At most one element per key. */
  predicate UniqueKeys<T, K(==)>(xs: seq<T>, key: T -> K) {
    forall i, j :: 0 <= i < j < |xs| ==> key(xs[i]) != key(xs[j])
  }

  /** At most one element per key among the keys `counted` selects; keys it
      does not select may repeat. */
  predicate UniqueKeysAmong<T, K(==)>(xs: seq<T>, key: T -> K, counted: K -> bool) {
    forall i, j :: 0 <= i < j < |xs| && counted(key(xs[i])) ==> key(xs[i]) != key(xs[j])
  }

  /** The record each key stands for: the first one carrying it. */
  function AsMap<T, K(==,!new)>(xs: seq<T>, key: T -> K): (m: map<K, T>)
    ensures forall k :: k in m <==> HasKey(xs, key, k)
  {
    if xs == [] then map[]
    else
      var m := AsMap(xs[1..], key)[key(xs[0]) := xs[0]];
      assert forall k :: HasKey(xs[1..], key, k) ==> HasKey(xs, key, k) by {
        forall k | HasKey(xs[1..], key, k) ensures HasKey(xs, key, k) {
          var j :| 0 <= j < |xs[1..]| && key(xs[1..][j]) == k;
          assert key(xs[j + 1]) == k;
        }
      }
      assert forall k :: HasKey(xs, key, k) ==> k == key(xs[0]) || HasKey(xs[1..], key, k) by {
        forall k | HasKey(xs, key, k) && k != key(xs[0]) ensures HasKey(xs[1..], key, k) {
          var j :| 0 <= j < |xs| && key(xs[j]) == k;
          assert j > 0 && key(xs[1..][j - 1]) == k;
        }
      }
      m
  }

  /** A key of the list stands for the first record carrying it. */
  lemma {:induction false} AsMapPicksFirst<T, K(!new)>(xs: seq<T>, key: T -> K, k: K)
    requires HasKey(xs, key, k)
    ensures 0 <= IndexOfKey(xs, key, k) < |xs|
    ensures AsMap(xs, key)[k] == xs[IndexOfKey(xs, key, k)]
  {
    if key(xs[0]) != k {
      var j :| 0 <= j < |xs| && key(xs[j]) == k;
      assert key(xs[1..][j - 1]) == k;
      AsMapPicksFirst(xs[1..], key, k);
    }
  }

  // ---------------------------------------------------------------------------
  // Properties of Upsert

  /** After the upsert the new record is in the list and is the first with its key. */
  lemma UpsertPresent<T, K>(xs: seq<T>, x: T, key: T -> K)
    ensures var ys := Upsert(xs, x, key);
      IndexOfKey(ys, key, key(x)) >= 0 && ys[IndexOfKey(ys, key, key(x))] == x
  {
    var ys := Upsert(xs, x, key);
    var i := IndexOfKey(xs, key, key(x));
    var p := if i >= 0 then i else |xs|;
    assert ys[p] == x;
    var q := IndexOfKey(ys, key, key(x));
    assert forall j :: 0 <= j < p ==> ys[j] == xs[j];
    assert q == p;
  }

  /** With the key present, the upsert is a point update at its first index. */
  lemma UpsertReplaces<T, K>(xs: seq<T>, x: T, key: T -> K)
    requires HasKey(xs, key, key(x))
    ensures Upsert(xs, x, key) == xs[IndexOfKey(xs, key, key(x)) := x]
  {
  }

  /** With the key absent, the upsert appends. */
  lemma UpsertAppends<T, K>(xs: seq<T>, x: T, key: T -> K)
    requires !HasKey(xs, key, key(x))
    ensures Upsert(xs, x, key) == xs + [x]
  {
  }

  /** A later upsert with the same key overwrites an earlier one: the list
      ends up as if only the later record had been written. */
  lemma UpsertOverwrites<T, K>(xs: seq<T>, x: T, y: T, key: T -> K)
    requires key(x) == key(y)
    ensures Upsert(Upsert(xs, x, key), y, key) == Upsert(xs, y, key)
  {
    var ys := Upsert(xs, x, key);
    UpsertPresent(xs, x, key);
    var i := IndexOfKey(xs, key, key(x));
    var q := IndexOfKey(ys, key, key(x));
    assert HasKey(ys, key, key(y)) by {
      assert key(ys[q]) == key(y);
    }
    if i >= 0 {
      assert ys == xs[i := x];
      assert q == i;
    } else {
      assert ys == xs + [x];
      assert q == |xs|;
    }
  }

  /** Writing the same record twice is the same as writing it once. */
  lemma UpsertIdempotent<T, K>(xs: seq<T>, x: T, key: T -> K)
    ensures Upsert(Upsert(xs, x, key), x, key) == Upsert(xs, x, key)
  {
    UpsertOverwrites(xs, x, x, key);
  }

  /** Uniqueness of keys survives an upsert. */
  lemma UpsertKeepsUniqueKeys<T, K>(xs: seq<T>, x: T, key: T -> K)
    requires UniqueKeys(xs, key)
    ensures UniqueKeys(Upsert(xs, x, key), key)
  {
    var i := IndexOfKey(xs, key, key(x));
    var ys := Upsert(xs, x, key);
    if i >= 0 {
      forall a, b | 0 <= a < b < |ys| ensures key(ys[a]) != key(ys[b]) {
        if a == i {
          assert key(ys[a]) == key(xs[i]);
        } else if b == i {
          assert key(ys[b]) == key(xs[i]);
        }
      }
    } else {
      forall a, b | 0 <= a < b < |ys| ensures key(ys[a]) != key(ys[b]) {
        if b == |xs| {
          assert key(ys[b]) == key(x);
        }
      }
    }
  }

  /** Uniqueness among the selected keys survives an upsert. */
  lemma UpsertKeepsUniqueKeysAmong<T, K>(xs: seq<T>, x: T, key: T -> K, counted: K -> bool)
    requires UniqueKeysAmong(xs, key, counted)
    ensures UniqueKeysAmong(Upsert(xs, x, key), key, counted)
  {
    var i := IndexOfKey(xs, key, key(x));
    var ys := Upsert(xs, x, key);
    if i >= 0 {
      forall a, b | 0 <= a < b < |ys| && counted(key(ys[a])) ensures key(ys[a]) != key(ys[b]) {
        if a == i {
          assert key(ys[a]) == key(xs[i]);
        } else if b == i {
          assert key(ys[b]) == key(xs[i]);
        }
      }
    } else {
      forall a, b | 0 <= a < b < |ys| && counted(key(ys[a])) ensures key(ys[a]) != key(ys[b]) {
        if b == |xs| {
          assert key(ys[b]) == key(x);
        }
      }
    }
  }

  /** Seen as a map from keys to records, an upsert is a map update: the key of
      `x` now stands for `x`, every other key for the same record as before. */
  lemma {:induction false} UpsertIsMapUpdate<T, K(!new)>(xs: seq<T>, x: T, key: T -> K)
    ensures AsMap(Upsert(xs, x, key), key) == AsMap(xs, key)[key(x) := x]
  {
    if xs == [] {
      assert Upsert(xs, x, key) == [x];
    } else if key(xs[0]) == key(x) {
      UpsertHead(xs, x, key);
      MapOfReplacedHead(xs, x, key);
    } else {
      UpsertTail(xs, x, key);
      UpsertIsMapUpdate(xs[1..], x, key);
      MapOfKeptHead(xs[0], xs[1..], Upsert(xs[1..], x, key), x, key);
    }
  }

  lemma MapOfReplacedHead<T, K(!new)>(xs: seq<T>, x: T, key: T -> K)
    requires xs != [] && key(xs[0]) == key(x)
    ensures AsMap([x] + xs[1..], key) == AsMap(xs, key)[key(x) := x]
  {
    assert ([x] + xs[1..])[1..] == xs[1..];
  }

  lemma MapOfKeptHead<T, K(!new)>(y: T, xs: seq<T>, zs: seq<T>, x: T, key: T -> K)
    requires key(y) != key(x)
    requires AsMap(zs, key) == AsMap(xs, key)[key(x) := x]
    ensures AsMap([y] + zs, key) == AsMap([y] + xs, key)[key(x) := x]
  {
    assert ([y] + zs)[1..] == zs;
    assert ([y] + xs)[1..] == xs;
    assert AsMap([y] + zs, key) == AsMap(zs, key)[key(y) := y];
    assert AsMap([y] + xs, key) == AsMap(xs, key)[key(y) := y];
  }

  lemma UpsertHead<T, K>(xs: seq<T>, x: T, key: T -> K)
    requires xs != [] && key(xs[0]) == key(x)
    ensures Upsert(xs, x, key) == [x] + xs[1..]
  {
  }

  lemma UpsertTail<T, K>(xs: seq<T>, x: T, key: T -> K)
    requires xs != [] && key(xs[0]) != key(x)
    ensures Upsert(xs, x, key) == [xs[0]] + Upsert(xs[1..], x, key)
  {
    var i := IndexOfKey(xs[1..], key, key(x));
    if i >= 0 {
      assert xs[i + 1 := x] == [xs[0]] + xs[1..][i := x];
    } else {
      assert xs + [x] == [xs[0]] + (xs[1..] + [x]);
    }
  }
}
