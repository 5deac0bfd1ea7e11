/**
 * `PageCache` (texttv/page_handler.py): an insertion-ordered dictionary
 * that, after every write, drops its oldest entries until at most `size`
 * remain. Eviction follows insertion order only: writing or reading an
 * entry that is already there does not move it, so the cache is FIFO, not
 * LRU. A `size` of 0 stands for `None` (and 0): no limit.
 */
module Cache {

  ghost predicate Distinct<K>(xs: seq<K>) {
    forall i, j :: 0 <= i < j < |xs| ==> xs[i] != xs[j]
  }

  /** The dictionary as a value: its keys in insertion order and its mapping. */
  datatype CacheState<K, V> = CacheState(order: seq<K>, data: map<K, V>)

  /** Keys listed once each, exactly the keys of the mapping, and no more than `size` of them. */
  ghost predicate ValidState<K(!new), V>(s: CacheState<K, V>, size: nat) {
    && Distinct(s.order)
    && (forall k :: k in s.data <==> k in s.order)
    && (size > 0 ==> |s.order| <= size)
  }

  /** The key order after `OrderedDict.__setitem__`: a new key goes last, an existing one keeps its place. */
  function Put<K(==)>(order: seq<K>, k: K): seq<K> {
    if k in order then order else order + [k]
  }

  /** `_limit_size` on the key order: the newest `size` keys (all of them when `size` is 0). */
  function Limit<K>(order: seq<K>, size: nat): (r: seq<K>)
    ensures |r| <= |order| && r == order[|order| - |r|..]
    ensures size == 0 ==> r == order
    ensures size > 0 ==> |r| == if |order| <= size then |order| else size
  {
    if size > 0 && |order| > size then order[|order| - size..] else order
  }

  /** The mapping restricted to the keys that are kept. */
  function Restrict<K(==,!new), V>(data: map<K, V>, keep: seq<K>): (r: map<K, V>)
    ensures forall k :: k in r <==> k in data && k in keep
    ensures forall k :: k in r ==> r[k] == data[k]
  {
    map k | k in data && k in keep :: data[k]
  }

  /** `cache[k] = v`. */
  function AfterSetItem<K(==,!new), V>(s: CacheState<K, V>, size: nat, k: K, v: V): CacheState<K, V> {
    var order := Limit(Put(s.order, k), size);
    CacheState(order, Restrict(s.data[k := v], order))
  }

  /** `cache.setdefault(k, v)`: inserts only a missing key. */
  function AfterSetDefault<K(==,!new), V>(s: CacheState<K, V>, size: nat, k: K, v: V): CacheState<K, V> {
    if k in s.data then s else AfterSetItem(s, size, k, v)
  }

  /** `cache.update(items)`: one `__setitem__`, and so one size limit, per item, in order. */
  function AfterUpdate<K(==,!new), V>(s: CacheState<K, V>, size: nat, items: seq<(K, V)>): CacheState<K, V> {
    if items == [] then s
    else
      var last := items[|items| - 1];
      AfterSetItem(AfterUpdate(s, size, items[..|items| - 1]), size, last.0, last.1)
  }

  /** One more item is one more write. */
  lemma UpdateSnoc<K(!new), V>(s: CacheState<K, V>, size: nat, items: seq<(K, V)>, i: nat)
    requires i < |items|
    ensures AfterUpdate(s, size, items[..i + 1]) == AfterSetItem(AfterUpdate(s, size, items[..i]), size, items[i].0, items[i].1)
  {
    assert items[..i + 1][..i] == items[..i];
  }

  /** The keys of a sequence of items. */
  function KeysOf<K, V>(items: seq<(K, V)>): (ks: seq<K>)
    ensures |ks| == |items| && forall i :: 0 <= i < |items| ==> ks[i] == items[i].0
  {
    if items == [] then [] else KeysOf(items[..|items| - 1]) + [items[|items| - 1].0]
  }

  // ---------------------------------------------------------------------
  // Properties

  lemma {:induction false} LimitDistinct<K>(order: seq<K>, size: nat)
    requires Distinct(order)
    ensures Distinct(Limit(order, size))
  {
    var r := Limit(order, size);
    var d := |order| - |r|;
    forall i, j | 0 <= i < j < |r| ensures r[i] != r[j] {
      assert r[i] == order[d + i] && r[j] == order[d + j];
    }
  }

  /**
   * A write keeps the dictionary well formed, stores the value under its
   * key and never drops the key just written; every entry it keeps has
   * its old value.
   */
  lemma SetItemValid<K(!new), V>(s: CacheState<K, V>, size: nat, k: K, v: V)
    requires ValidState(s, size)
    ensures var r := AfterSetItem(s, size, k, v);
      && ValidState(r, size)
      && k in r.data && r.data[k] == v
      && forall j :: j in r.data && j != k ==> j in s.data && r.data[j] == s.data[j]
  {
    var p := Put(s.order, k);
    PutDistinct(s.order, k);
    LimitDistinct(p, size);
    var order := Limit(p, size);
    LimitKeepsNewest(p, size);
    assert k in order;
    LimitIsSubset(p, size);
    var data := Restrict(s.data[k := v], order);
    assert forall j :: j in data <==> j in order;
  }

  lemma PutDistinct<K>(order: seq<K>, k: K)
    requires Distinct(order)
    ensures Distinct(Put(order, k)) && k in Put(order, k)
    ensures forall j :: j in Put(order, k) <==> j in order || j == k
  {
  }

  /** The newest key survives the size limit. */
  lemma LimitKeepsNewest<K>(order: seq<K>, size: nat)
    requires order != []
    ensures Limit(order, size) != [] && Limit(order, size)[|Limit(order, size)| - 1] == order[|order| - 1]
  {
  }

  lemma LimitIsSubset<K>(order: seq<K>, size: nat)
    ensures forall j :: j in Limit(order, size) ==> j in order
  {
    var r := Limit(order, size);
    var d := |order| - |r|;
    forall j | j in r ensures j in order {
      var i :| 0 <= i < |r| && r[i] == j;
      assert order[d + i] == j;
    }
  }

  /** Writing to a key already present changes its value and nothing else, its age included. */
  lemma SetExistingKeepsOrder<K(!new), V>(s: CacheState<K, V>, size: nat, k: K, v: V)
    requires ValidState(s, size) && k in s.data
    ensures AfterSetItem(s, size, k, v) == CacheState(s.order, s.data[k := v])
  {
    assert Put(s.order, k) == s.order;
    var m := s.data[k := v];
    RestrictAll(m, s.order);
  }

  /** Restricting a mapping to a list of exactly its keys changes nothing. */
  lemma RestrictAll<K(!new), V>(m: map<K, V>, keep: seq<K>)
    requires forall j :: j in m <==> j in keep
    ensures Restrict(m, keep) == m
  {
    var r := Restrict(m, keep);
    assert r.Keys == m.Keys;
  }

  /**
   * FIFO eviction: writing keys that are all new, and new to each other,
   * keeps the newest `size` keys of the old order followed by the new keys.
   */
  lemma {:induction false} UpdateNewKeysIsFifo<K(!new), V>(s: CacheState<K, V>, size: nat, items: seq<(K, V)>)
    requires ValidState(s, size)
    requires Distinct(s.order + KeysOf(items))
    ensures AfterUpdate(s, size, items).order == Limit(s.order + KeysOf(items), size)
    ensures ValidState(AfterUpdate(s, size, items), size)
  {
    if items != [] {
      var init := items[..|items| - 1];
      var last := items[|items| - 1];
      var all := s.order + KeysOf(items);
      var prefix := s.order + KeysOf(init);
      assert all == prefix + [last.0];
      assert Distinct(prefix) by {
        forall i, j | 0 <= i < j < |prefix| ensures prefix[i] != prefix[j] {
          assert prefix[i] == all[i] && prefix[j] == all[j];
        }
      }
      UpdateNewKeysIsFifo(s, size, init);
      var u := AfterUpdate(s, size, init);
      assert last.0 !in u.order by {
        forall i | 0 <= i < |u.order| ensures u.order[i] != last.0 {
          var d := |prefix| - |u.order|;
          assert u.order[i] == prefix[d + i] == all[d + i];
          assert all[|all| - 1] == last.0;
        }
      }
      SetItemValid(u, size, last.0, last.1);
      LimitOfLimit(prefix, last.0, size);
    }
  }

  /** Dropping the oldest key of a list of distinct keys leaves distinct keys, none of them that one. */
  lemma PopOldest<K>(order: seq<K>)
    requires Distinct(order) && order != []
    ensures Distinct(order[1..]) && order[0] !in order[1..]
    ensures forall j :: j in order <==> j == order[0] || j in order[1..]
  {
    assert order == [order[0]] + order[1..];
  }

  /** A mapping that agrees with `data` on exactly the keys in `keep` is the restriction of `data`. */
  lemma RestrictOf<K(!new), V>(data: map<K, V>, m: map<K, V>, keep: seq<K>)
    requires forall j :: j in m <==> j in keep
    requires forall j :: j in m ==> j in data && m[j] == data[j]
    ensures m == Restrict(data, keep)
  {
    var r := Restrict(data, keep);
    assert r.Keys == m.Keys;
  }

  /** Limiting, appending one key and limiting again is limiting once. */
  lemma LimitOfLimit<K>(order: seq<K>, k: K, size: nat)
    ensures Limit(Limit(order, size) + [k], size) == Limit(order + [k], size)
  {
    if size > 0 && |order| > size {
      var l := Limit(order, size);
      assert l + [k] == (order + [k])[|order| - size..];
    }
  }

  /**
   * FIFO, not LRU: with room for two pages, looking up pages 1, 2, 1 again
   * and then 3 with `setdefault` (as the viewer does) evicts page 1, the
   * most recently looked-up of the two; the second lookup of 1 returns the
   * page stored first and changes nothing.
   */
  lemma RevisitedPageIsStillEvicted<V>(a: V, b: V, a2: V, c: V)
    ensures var s1 := AfterSetDefault(CacheState([], map[]), 2, 1, a);
      var s2 := AfterSetDefault(s1, 2, 2, b);
      var s3 := AfterSetDefault(s2, 2, 1, a2);
      var s4 := AfterSetDefault(s3, 2, 3, c);
      && s3 == s2 && 1 in s3.data && s3.data[1] == a
      && s3.order == [1, 2] && s4.order == [2, 3] && 1 !in s4.data
  {
    FirstLookup(a);
    SecondLookup(a, b);
    var s2: CacheState<int, V> := CacheState([1, 2], map[1 := a, 2 := b]);
    assert AfterSetDefault(s2, 2, 1, a2) == s2;
    ThirdLookup(a, b, c);
  }

  lemma FirstLookup<V>(a: V)
    ensures AfterSetDefault(CacheState([], map[]), 2, 1, a) == CacheState([1], map[1 := a])
  {
    FirstPut();
    RestrictAll(map[1 := a], [1]);
  }

  lemma SecondLookup<V>(a: V, b: V)
    ensures AfterSetDefault(CacheState([1], map[1 := a]), 2, 2, b) == CacheState([1, 2], map[1 := a, 2 := b])
  {
    var m := map[1 := a][2 := b];
    assert 2 !in map[1 := a];
    SecondPut();
    assert forall j :: j in m <==> j in [1, 2];
    RestrictAll(m, [1, 2]);
    assert m == map[1 := a, 2 := b];
  }

  lemma ThirdLookup<V>(a: V, b: V, c: V)
    ensures var s := AfterSetDefault(CacheState([1, 2], map[1 := a, 2 := b]), 2, 3, c);
      s.order == [2, 3] && 1 !in s.data
  {
    ThirdPut();
  }

  /** The orders of the steps above, one `Limit(Put(..))` at a time. */
  lemma FirstPut()
    ensures Limit(Put([], 1), 2) == [1]
  {}

  lemma SecondPut()
    ensures Limit(Put([1], 2), 2) == [1, 2]
  {}

  lemma ThirdPut()
    ensures Limit(Put([1, 2], 3), 2) == [2, 3]
  {}

  // ---------------------------------------------------------------------
  // The dictionary object

  class PageCache<K(==,!new), V> {
    const size: nat
    var order: seq<K>
    var data: map<K, V>

    function State(): CacheState<K, V>
      reads this
    {
      CacheState(order, data)
    }

    ghost predicate Valid()
      reads this
    {
      ValidState(State(), size)
    }

    /** `PageCache(size=size)` with no initial items. */
    constructor(size: nat)
      ensures Valid() && this.size == size && order == [] && data == map[]
    {
      this.size := size;
      order := [];
      data := map[];
    }

    /** `_limit_size`: pops the oldest entry while there are more than `size`. */
    method LimitSize()
      requires Distinct(order) && forall k :: k in data <==> k in order
      modifies this
      ensures Valid()
      ensures order == Limit(old(order), size) && data == Restrict(old(data), order)
    {
      ghost var o := order;
      ghost var d := 0;
      while size > 0 && |order| > size
        invariant d <= |o| && order == o[d..]
        invariant d == 0 || (size > 0 && |order| >= size)
        invariant Distinct(order)
        invariant forall j :: j in data <==> j in order
        invariant forall j :: j in data ==> j in old(data) && data[j] == old(data)[j]
        decreases |order|
      {
        var oldest := order[0];
        PopOldest(order);
        order := order[1..];
        data := data - {oldest};
        d := d + 1;
      }
      assert order == Limit(o, size);
      RestrictOf(old(data), data, order);
    }

    /** `cache[k] = v`. */
    method SetItem(k: K, v: V)
      requires Valid()
      modifies this
      ensures Valid() && State() == AfterSetItem(old(State()), size, k, v)
    {
      if k !in data {
        order := order + [k];
      }
      data := data[k := v];
      LimitSize();
    }

    /** `cache.setdefault(k, v)`: the value stored under `k`, inserting `v` first when `k` is missing. */
    method SetDefault(k: K, v: V) returns (val: V)
      requires Valid()
      modifies this
      ensures Valid() && State() == AfterSetDefault(old(State()), size, k, v)
      ensures val == if k in old(data) then old(data)[k] else v
      ensures k in data && data[k] == val
      ensures forall j :: j in data ==> (j in old(data) && data[j] == old(data)[j]) || (j == k && data[j] == v)
    {
      if k in data {
        val := data[k];
        LimitSize();
        RestrictAll(old(data), order);
      } else {
        val := v;
        SetItem(k, v);
        SetItemValid(old(State()), size, k, v);
      }
    }

    /** `cache.update(items)`: each item goes through `__setitem__`, then one more size limit. */
    method Update(items: seq<(K, V)>)
      requires Valid()
      modifies this
      ensures Valid() && State() == AfterUpdate(old(State()), size, items)
    {
      ghost var s0 := State();
      for i := 0 to |items|
        invariant Valid() && State() == AfterUpdate(s0, size, items[..i])
      {
        UpdateSnoc(s0, size, items, i);
        SetItem(items[i].0, items[i].1);
      }
      assert items[..|items|] == items;
      LimitSize();
    }
  }
}
