/** The chained hash table of src/hash.c: its chains and its order list against an ordered association list, for any
    hash function, and the traversal by `h_next`. */
module ChainedHash {
  import opened Wrappers

  /** `struct h_item`; values are addresses. */
  class Item {
    const key: string
    const value: nat

    constructor (key: string, value: nat)
      ensures this.key == key && this.value == value
    {
      this.key := key;
      this.value := value;
    }
  }

  // ---------- the ordered association list ----------

  predicate DistinctKeys(order: seq<Item>) {
    forall i, j :: 0 <= i < j < |order| ==> order[i].key != order[j].key
  }

  predicate HasKey(order: seq<Item>, key: string) {
    exists i :: 0 <= i < |order| && order[i].key == key
  }

  /** What the list means as a map. */
  function AsMap(order: seq<Item>): map<string, nat> {
    if order == [] then map[]
    else AsMap(order[..|order| - 1])[order[|order| - 1].key := order[|order| - 1].value]
  }

  lemma {:induction false} AsMapAt(order: seq<Item>, k: nat)
    requires DistinctKeys(order) && k < |order|
    ensures order[k].key in AsMap(order) && AsMap(order)[order[k].key] == order[k].value
    decreases |order|
  {
    var n := |order| - 1;
    if k < n {
      AsMapAt(order[..n], k);
    }
  }

  lemma {:induction false} AsMapKeys(order: seq<Item>, key: string)
    ensures key in AsMap(order) <==> HasKey(order, key)
    decreases |order|
  {
    if order != [] {
      var n := |order| - 1;
      AsMapKeys(order[..n], key);
      assert order[..n] + [order[n]] == order;
      if key == order[n].key {
        assert HasKey(order, key);
      }
    }
  }

  lemma NoSuchKey(order: seq<Item>)
    requires DistinctKeys(order) && order != []
    ensures !HasKey(order[..|order| - 1], order[|order| - 1].key)
  {
  }

  lemma DistinctWithout(order: seq<Item>, k: nat)
    requires DistinctKeys(order) && k < |order|
    ensures DistinctKeys(Without(order, k))
  {
  }

  /** Taking an item off the list takes its key, and no other, out of the map. */
  lemma {:induction false} AsMapWithout(order: seq<Item>, k: nat)
    requires DistinctKeys(order) && k < |order|
    ensures AsMap(Without(order, k)) == AsMap(order) - {order[k].key} && DistinctKeys(Without(order, k))
    decreases |order|
  {
    hide Without, HasKey;
    var n := |order| - 1;
    var init := order[..n];
    DistinctInit(order);
    WithoutInit(order, k);
    if k == n {
      NoSuchKey(order);
      AsMapKeys(init, order[n].key);
    } else {
      AsMapWithout(init, k);
      DistinctWithout(order, k);
      assert order[n].key != order[k].key;
    }
  }

  // ---------- chains ----------

  /** The chain of bucket `i`: the items that hash there, the latest first. */
  function Chain(order: seq<Item>, hash: string -> nat, size: nat, i: nat): seq<Item>
    requires size > 0
    decreases |order|
  {
    if order == [] then []
    else
      var last := order[|order| - 1];
      (if hash(last.key) % size == i then [last] else []) + Chain(order[..|order| - 1], hash, size, i)
  }

  lemma {:induction false} ChainMember(order: seq<Item>, hash: string -> nat, size: nat, i: nat, x: Item)
    requires size > 0
    ensures x in Chain(order, hash, size, i) <==> x in order && hash(x.key) % size == i
    decreases |order|
  {
    if order != [] {
      var n := |order| - 1;
      ChainMember(order[..n], hash, size, i, x);
      assert order[..n] + [order[n]] == order;
    }
  }

  lemma WithoutInit<T>(s: seq<T>, k: nat)
    requires k < |s|
    ensures k == |s| - 1 ==> Without(s, k) == s[..|s| - 1]
    ensures k < |s| - 1 ==>
      Without(s, k) == Without(s[..|s| - 1], k) + [s[|s| - 1]] && Without(s, k)[..|s| - 2] == Without(s[..|s| - 1], k)
  {
    if k < |s| - 1 {
      assert Without(s, k) == Without(s[..|s| - 1], k) + [s[|s| - 1]];
    }
  }

  lemma WithoutTail<T>(x: T, s: seq<T>, j: nat)
    requires j <= |s|
    ensures Without([x] + s, j) == if j == 0 then s else [x] + Without(s, j - 1)
  {
  }

  /** Unlinking an item from its chain, at place `j`, and from the order list, at place `k`. */
  lemma {:induction false} ChainWithout(order: seq<Item>, hash: string -> nat, size: nat, i: nat, k: nat, j: nat)
    requires size > 0 && DistinctKeys(order) && k < |order|
    requires j < |Chain(order, hash, size, i)| && Chain(order, hash, size, i)[j] == order[k]
    ensures Chain(Without(order, k), hash, size, i) == Without(Chain(order, hash, size, i), j)
    decreases |order|
  {
    hide Without, DistinctKeys;
    var n := |order| - 1;
    var (init, last) := (order[..n], order[n]);
    var rest := Chain(init, hash, size, i);
    DistinctInit(order);
    WithoutInit(order, k);
    LastOnce(order, hash, size, i, k, j);
    if hash(last.key) % size == i {
      WithoutTail(last, rest, j);
      if k < n {
        ChainWithout(init, hash, size, i, k, j - 1);
      }
    } else {
      assert Chain(order, hash, size, i) == rest;
      ChainWithout(init, hash, size, i, k, j);
    }
  }

  lemma DistinctInit(order: seq<Item>)
    requires DistinctKeys(order) && order != []
    ensures DistinctKeys(order[..|order| - 1])
  {
  }

  /** The latest item comes first in its chain, and only there. */
  lemma LastOnce(order: seq<Item>, hash: string -> nat, size: nat, i: nat, k: nat, j: nat)
    requires size > 0 && DistinctKeys(order) && k < |order|
    requires j < |Chain(order, hash, size, i)| && Chain(order, hash, size, i)[j] == order[k]
    ensures hash(order[|order| - 1].key) % size == i ==> (j == 0 <==> k == |order| - 1)
    ensures hash(order[|order| - 1].key) % size != i ==> k < |order| - 1
  {
    hide Chain;
    var n := |order| - 1;
    var chain := Chain(order, hash, size, i);
    ChainMember(order, hash, size, i, order[k]);
    assert chain[j] in chain;
    if hash(order[n].key) % size == i {
      FirstOfChain(order, hash, size, i);
      if j > 0 {
        assert chain[1..][j - 1] == chain[j];
        ChainMember(order[..n], hash, size, i, chain[j]);
      }
    }
  }

  lemma FirstOfChain(order: seq<Item>, hash: string -> nat, size: nat, i: nat)
    requires size > 0 && order != [] && hash(order[|order| - 1].key) % size == i
    ensures var chain := Chain(order, hash, size, i);
      |chain| > 0 && chain[0] == order[|order| - 1] && chain[1..] == Chain(order[..|order| - 1], hash, size, i)
  {
  }

  lemma {:induction false} OtherChain(order: seq<Item>, hash: string -> nat, size: nat, i: nat, k: nat)
    requires size > 0 && k < |order| && hash(order[k].key) % size != i
    ensures Chain(Without(order, k), hash, size, i) == Chain(order, hash, size, i)
    decreases |order|
  {
    var n := |order| - 1;
    if k == n {
      assert Without(order, k) == order[..n];
    } else {
      OtherChain(order[..n], hash, size, i, k);
      assert Without(order, k) == Without(order[..n], k) + [order[n]];
      assert Without(order, k)[..n - 1] == Without(order[..n], k);
    }
  }

  // ---------- the cursor ----------

  function IndexOf(order: seq<Item>, x: Item): (k: nat)
    requires x in order
    ensures k < |order| && order[k] == x
  {
    if order[0] == x then 0 else 1 + IndexOf(order[1..], x)
  }

  /** The item after `cursor`; null stands before the first and behind the last. */
  function NextIn(order: seq<Item>, cursor: Item?): Item?
    requires cursor != null ==> cursor in order
  {
    var k := if cursor == null then 0 else IndexOf(order, cursor) + 1;
    if k < |order| then order[k] else null
  }

  lemma IndexAt(order: seq<Item>, k: nat)
    requires DistinctKeys(order) && k < |order|
    ensures IndexOf(order, order[k]) == k
  {
  }

  /** The cursor after `n` calls of `h_next` on a table that does not change. */
  function Cursor(order: seq<Item>, n: nat): (cursor: Item?)
    ensures cursor != null ==> cursor in order
  {
    if n == 0 then null else NextIn(order, Cursor(order, n - 1))
  }

  /** Rounds of `h_next`, one after another: each returns every item once, in the order of insertion, then null. */
  lemma {:induction false} Rounds(order: seq<Item>, round: nat, k: nat)
    requires DistinctKeys(order) && k <= |order|
    ensures Cursor(order, round * (|order| + 1) + k) == if k == 0 then null else order[k - 1]
    decreases round, k
  {
    hide NextIn, IndexOf, Cursor;
    var size := |order| + 1;
    if k > 0 {
      Rounds(order, round, k - 1);
      OneCall(order, round * size + k - 1, k - 1);
    } else if round > 0 {
      Rounds(order, round - 1, |order|);
      assert round * size == ((round - 1) * size + |order|) + 1;
      OneCall(order, (round - 1) * size + |order|, |order|);
    } else {
      assert round * size == 0;
      NoCall(order);
    }
  }

  /** The cursor before the item in place `k` */
  lemma NextPlace(order: seq<Item>, k: nat)
    requires DistinctKeys(order) && k <= |order|
    ensures NextIn(order, if k == 0 then null else order[k - 1]) == if k < |order| then order[k] else null
  {
    if k > 0 {
      IndexAt(order, k - 1);
    }
  }

  lemma NoCall(order: seq<Item>)
    ensures Cursor(order, 0) == null
  {
  }

  lemma OneCall(order: seq<Item>, n: nat, k: nat)
    requires DistinctKeys(order) && k <= |order| && Cursor(order, n) == if k == 0 then null else order[k - 1]
    ensures Cursor(order, n + 1) == if k == |order| then null else order[k]
  {
    NextPlace(order, k);
  }

  /** `struct h_hash` */
  class HashTable {
    const buckets: array<seq<Item>>
    const hash: string -> nat
    var order: seq<Item>
    var orderNext: Item?

    ghost predicate Valid()
      reads this, buckets
    {
      && buckets.Length > 0 && DistinctKeys(order)
      && forall i :: 0 <= i < buckets.Length ==> buckets[i] == Chain(order, hash, buckets.Length, i)
    }

    /** The cursor does not dangle. */
    predicate CursorOk()
      reads this
    {
      orderNext != null ==> orderNext in order
    }

    function Slot(key: string): nat
      requires buckets.Length > 0
    {
      hash(key) % buckets.Length
    }

    /** `h_init` */
    constructor (size: nat, hash: string -> nat)
      requires size > 0
      ensures Valid() && CursorOk() && fresh(buckets) && this.hash == hash && order == [] && orderNext == null
    {
      this.hash := hash;
      buckets := new seq<Item>[size](_ => []);
      order := [];
      orderNext := null;
    }

    /** `LIST_FOREACH` with `strcmp`: the place in the chain */
    method Find(key: string) returns (j: nat)
      requires Valid()
      ensures var chain := buckets[Slot(key)];
        j <= |chain| && (j < |chain| ==> chain[j].key == key && chain[j] in order)
      ensures j < |buckets[Slot(key)]| <==> HasKey(order, key)
    {
      var chain := buckets[Slot(key)];
      j := 0;
      while j < |chain| && chain[j].key != key
        invariant j <= |chain| && forall i :: 0 <= i < j ==> chain[i].key != key
      {
        j := j + 1;
      }
      FoundIffThere(key, j);
    }

    lemma FoundIffThere(key: string, j: nat)
      requires Valid()
      requires var chain := buckets[Slot(key)];
        j <= |chain| && (forall i :: 0 <= i < j ==> chain[i].key != key) && (j < |chain| ==> chain[j].key == key)
      ensures j < |buckets[Slot(key)]| <==> HasKey(order, key)
      ensures j < |buckets[Slot(key)]| ==> buckets[Slot(key)][j] in order
    {
      var chain := buckets[Slot(key)];
      if j < |chain| {
        ChainMember(order, hash, buckets.Length, Slot(key), chain[j]);
      } else if HasKey(order, key) {
        var i :| 0 <= i < |order| && order[i].key == key;
        ChainMember(order, hash, buckets.Length, Slot(key), order[i]);
      }
    }

    /** `h_get` */
    method Get(key: string) returns (value: Option<nat>)
      requires Valid()
      ensures value == if key in AsMap(order) then Some(AsMap(order)[key]) else None
    {
      var j := Find(key);
      AsMapKeys(order, key);
      var chain := buckets[Slot(key)];
      if j < |chain| {
        AsMapAt(order, IndexOf(order, chain[j]));
        return Some(chain[j].value);
      }
      return None;
    }

    /** `h_insert`: a key that is there keeps its value. */
    method Insert(key: string, value: nat) returns (done: bool)
      requires Valid()
      modifies this`order, buckets
      ensures Valid() && (old(CursorOk()) ==> CursorOk())
      ensures done <==> key !in old(AsMap(order))
      ensures !done ==> order == old(order)
      ensures done ==> |order| == |old(order)| + 1 && order[..|order| - 1] == old(order)
      ensures done ==> fresh(order[|order| - 1]) && order[|order| - 1].key == key
      ensures done ==> AsMap(order) == old(AsMap(order))[key := value]
    {
      var j := Find(key);
      AsMapKeys(order, key);
      if j < |buckets[Slot(key)]| {
        return false;
      }
      var item := new Item(key, value);
      buckets[Slot(key)] := [item] + buckets[Slot(key)];
      order := order + [item];
      assert order[..|order| - 1] == old(order);
      return true;
    }

    /** `h_remove`; the cursor dangles afterwards exactly if it was at the item. */
    method Remove(key: string) returns (done: bool)
      requires Valid()
      modifies this`order, buckets
      ensures Valid()
      ensures done <==> key in old(AsMap(order))
      ensures !done ==> order == old(order)
      ensures done ==> exists k :: 0 <= k < |old(order)| && old(order)[k].key == key && order == Without(old(order), k)
      ensures done ==> AsMap(order) == old(AsMap(order)) - {key}
      ensures old(CursorOk()) ==> (CursorOk() <==> !(done && orderNext != null && orderNext.key == key))
    {
      var j := Find(key);
      AsMapKeys(order, key);
      var chain := buckets[Slot(key)];
      if j == |chain| {
        assert orderNext != null && orderNext in order ==> orderNext.key != key;
        return false;
      }
      ghost var k := IndexOf(order, chain[j]);
      Unlinked(key, j, k);
      AsMapWithout(order, k);
      buckets[Slot(key)] := Without(chain, j);
      order := Without(order, IndexOf(order, chain[j]));
      assert old(order)[k].key == key;
      return true;
    }

    lemma Unlinked(key: string, j: nat, k: nat)
      requires Valid() && j < |buckets[Slot(key)]| && k < |order| && order[k] == buckets[Slot(key)][j]
      requires order[k].key == key
      ensures Chain(Without(order, k), hash, buckets.Length, Slot(key)) == Without(buckets[Slot(key)], j)
      ensures forall i :: 0 <= i < buckets.Length && i != Slot(key) ==>
        Chain(Without(order, k), hash, buckets.Length, i) == buckets[i]
    {
      ChainWithout(order, hash, buckets.Length, Slot(key), k, j);
      forall i | 0 <= i < buckets.Length && i != Slot(key)
        ensures Chain(Without(order, k), hash, buckets.Length, i) == buckets[i]
      {
        OtherChain(order, hash, buckets.Length, i, k);
      }
    }

    /** `h_init_traverse` */
    method InitTraverse()
      modifies this`orderNext
      ensures orderNext == null
    {
      orderNext := null;
    }

    /** `h_next` */
    method Next() returns (item: Item?)
      requires CursorOk()
      modifies this`orderNext
      ensures item == orderNext == NextIn(order, old(orderNext)) && CursorOk()
    {
      if orderNext == null {
        orderNext := if order == [] then null else order[0];
      } else {
        var k := IndexOf(order, orderNext) + 1;
        orderNext := if k < |order| then order[k] else null;
      }
      return orderNext;
    }

    /** `while ((item = h_next(h)) != NULL)`: all items that are left, in the order of insertion; and the next such
        loop begins with the first again. */
    method Traverse() returns (items: seq<Item>)
      requires Valid() && CursorOk()
      modifies this`orderNext
      ensures items == if old(orderNext) == null then order else order[IndexOf(order, old(orderNext)) + 1..]
      ensures orderNext == null
    {
      hide Chain, DistinctKeys, NextIn, IndexOf;
      items := [];
      ghost var first := if orderNext == null then 0 else IndexOf(order, orderNext) + 1;
      NextPlace(order, first);
      var item := Next();
      while item != null
        invariant item == orderNext && CursorOk()
        invariant first + |items| <= |order| && items == order[first..first + |items|]
        invariant item == if first + |items| < |order| then order[first + |items|] else null
        decreases |order| - |items|, item != null
      {
        IndexAt(order, first + |items|);
        items := items + [item];
        NextPlace(order, first + |items|);
        item := Next();
      }
    }
  }
}
