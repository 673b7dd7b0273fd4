/**
 * The Java engine's runtime cache: a `LinkedHashMap` in access order whose
 * `removeEldestEntry` drops the least recently used entry once a positive
 * bound is exceeded. A bound of zero or less means no bound.
 */
module JavaLru {
  import opened Text

  function Elements(s: seq<string>): set<string> {
    set x | x in s
  }

  ghost predicate Distinct(s: seq<string>) {
    forall i, j :: 0 <= i < j < |s| ==> s[i] != s[j]
  }

  lemma ConsFacts(x: string, t: seq<string>)
    ensures Elements([x] + t) == {x} + Elements(t)
    ensures Distinct([x] + t) <==> x !in Elements(t) && Distinct(t)
  {
    var s := [x] + t;
    assert forall y :: y in s <==> y == x || y in t;
    if x !in Elements(t) && Distinct(t) {
      forall i, j | 0 <= i < j < |s| ensures s[i] != s[j] {
        if i > 0 {
          assert s[i] == t[i - 1] && s[j] == t[j - 1];
        } else {
          assert s[j] == t[j - 1];
        }
      }
    }
    if Distinct(s) {
      forall i, j | 0 <= i < j < |t| ensures t[i] != t[j] {
        assert t[i] == s[i + 1] && t[j] == s[j + 1];
      }
      forall i | 0 <= i < |t| ensures t[i] != x {
        assert t[i] == s[i + 1] && s[0] == x;
      }
    }
  }

  lemma SnocFacts(t: seq<string>, x: string)
    ensures Elements(t + [x]) == Elements(t) + {x}
    ensures Distinct(t + [x]) <==> Distinct(t) && x !in Elements(t)
  {
    var s := t + [x];
    assert forall y :: y in s <==> y in t || y == x;
    if Distinct(t) && x !in Elements(t) {
      forall i, j | 0 <= i < j < |s| ensures s[i] != s[j] {
        assert s[i] == t[i];
      }
    }
    if Distinct(s) {
      forall i, j | 0 <= i < j < |t| ensures t[i] != t[j] {
        assert t[i] == s[i] && t[j] == s[j];
      }
      forall i | 0 <= i < |t| ensures t[i] != x {
        assert t[i] == s[i] && s[|t|] == x;
      }
    }
  }

  /** `s` with every occurrence of `k` removed, the rest in order. */
  function Without(s: seq<string>, k: string): (r: seq<string>)
    ensures Elements(r) == Elements(s) - {k}
    ensures Distinct(s) ==> Distinct(r)
    ensures k in s && Distinct(s) ==> |r| == |s| - 1
    ensures k !in s ==> r == s
  {
    if s == [] then []
    else
      var rest := Without(s[1..], k);
      assert s == [s[0]] + s[1..];
      ConsFacts(s[0], s[1..]);
      if s[0] == k then
        rest
      else
        ConsFacts(s[0], rest);
        [s[0]] + rest
  }

  /** A sequence without repetitions has as many elements as its set. */
  lemma {:induction false} DistinctCard(s: seq<string>)
    requires Distinct(s)
    ensures |Elements(s)| == |s|
  {
    if s != [] {
      var init := s[..|s| - 1];
      var last := s[|s| - 1];
      assert Distinct(init);
      assert Elements(s) == Elements(init) + {last} by {
        assert forall x :: x in s <==> x in init || x == last by {
          assert s == init + [last];
        }
      }
      assert last !in Elements(init);
      DistinctCard(init);
    }
  }

  lemma NoElementsIsEmpty(s: seq<string>)
    ensures Elements(s) == {} ==> s == []
  {
    if s != [] {
      assert s[0] in Elements(s);
    }
  }

  /** Dropping the first key and appending a new one keeps the keys distinct. */
  lemma EvictFacts(order: seq<string>, key: string)
    requires Distinct(order) && order != [] && key !in Elements(order)
    ensures order[0] != key
    ensures Distinct(order[1..] + [key])
    ensures Elements(order[1..] + [key]) == Elements(order) - {order[0]} + {key}
  {
    assert order == [order[0]] + order[1..];
    ConsFacts(order[0], order[1..]);
    SnocFacts(order[1..], key);
  }

  /** The access order after a read of `key`: a present key moves to the most recent end. */
  function Touch<V>(order: seq<string>, values: map<string, V>, key: string): seq<string> {
    if key in values then Without(order, key) + [key] else order
  }

  /** The access order after a write of `key`: moved to the end, appended, or appended with the eldest evicted. */
  function PutOrder<V>(order: seq<string>, values: map<string, V>, maxSize: int, key: string): seq<string> {
    if key in values then Without(order, key) + [key]
    else if maxSize > 0 && |order| == maxSize then order[1..] + [key]
    else order + [key]
  }

  /** The entries after a write of `key`: the new value, and the eldest key dropped when a new key meets the bound. */
  function PutValues<V>(order: seq<string>, values: map<string, V>, maxSize: int, key: string, value: V): map<string, V> {
    if key !in values && maxSize > 0 && |order| == maxSize then values[key := value] - {order[0]}
    else values[key := value]
  }

  class LruCache<V> {
    /** The keys, least recently used first. */
    var order: seq<string>
    var values: map<string, V>
    const maxSize: int

    ghost predicate Valid()
      reads this
    {
      Distinct(order) && values.Keys == Elements(order) && (maxSize > 0 ==> |order| <= maxSize)
    }

    constructor (maxSize: int)
      ensures Valid()
      ensures this.maxSize == maxSize && order == [] && values == map[]
    {
      this.maxSize := maxSize;
      order := [];
      values := map[];
    }

    /**
     * The map holds one entry per key in the order, so a bounded cache in a
     * valid state (which every operation preserves) never exceeds its bound.
     */
    lemma SizeIsLength()
      requires Valid()
      ensures |values| == |order|
      ensures maxSize > 0 ==> |values| <= maxSize
    {
      DistinctCard(order);
      assert |values.Keys| == |values|;
    }

    /** `get` in access order: a hit becomes the most recently used entry. */
    method Get(key: string) returns (r: Option<V>)
      requires Valid()
      modifies this
      ensures Valid()
      ensures values == old(values) && order == Touch(old(order), values, key)
      ensures key in values ==> r == Some(values[key])
      ensures key !in values ==> r.None?
    {
      if key in values {
        r := Some(values[key]);
        SnocFacts(Without(order, key), key);
        order := Without(order, key) + [key];
      } else {
        r := None;
      }
    }

    /**
     * `put`: an existing key is updated and becomes the most recently used;
     * a new key is appended, and when that exceeds a positive bound the
     * least recently used entry is evicted.
     */
    method Put(key: string, value: V)
      requires Valid()
      modifies this
      ensures Valid()
      ensures key in values && values[key] == value
      ensures values == PutValues(old(order), old(values), maxSize, key, value)
      ensures order == PutOrder(old(order), old(values), maxSize, key)
    {
      if key in values {
        SnocFacts(Without(order, key), key);
        order := Without(order, key) + [key];
        values := values[key := value];
      } else if maxSize > 0 && |order| == maxSize {
        EvictFacts(order, key);
        values := values[key := value] - {order[0]};
        order := order[1..] + [key];
      } else {
        SnocFacts(order, key);
        order := order + [key];
        values := values[key := value];
      }
    }

    /** With the cache in a valid state, an empty map means an empty access order. */
    lemma EmptyOrder()
      requires Valid() && values == map[]
      ensures order == []
    {
      NoElementsIsEmpty(order);
    }

    method Clear()
      modifies this
      ensures Valid()
      ensures order == [] && values == map[]
    {
      order := [];
      values := map[];
    }
  }

  /** With room for two, reading an entry protects it: the entry not read is the one evicted. */
  method ReadEntrySurvives<V>(a: string, b: string, c: string, va: V, vb: V, vc: V) returns (keys: set<string>)
    requires a != b && b != c && a != c
    ensures keys == {a, c}
  {
    var cache := new LruCache<V>(2);
    cache.Put(a, va);
    cache.Put(b, vb);
    var _ := cache.Get(a);
    assert cache.order == [b, a];
    cache.Put(c, vc);
    keys := cache.values.Keys;
  }
}
