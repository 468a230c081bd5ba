/** The open-addressing table of lib/json/linkhash.c: linear probing, tombstones, growth, and an insertion-order
    list threaded through the slots. */
module LinkHash {
  import opened Wrappers
  import opened JsonMachine

  /** The `k` of a slot: LH_EMPTY, LH_FREED, or a key. */
  datatype Mark = Empty | Freed | Used(key: string)

  /** `struct lh_entry`.  Pointers to slots are slot numbers, the null pointer is -1. */
  datatype Entry = Entry(k: Mark, v: Json, next: int, prev: int)

  const NOWHERE := -1
  const DEF_HASH_ENTRIES := 16

  // ---------- slots ----------

  predicate Live(tab: seq<Entry>, n: int) {
    0 <= n < |tab| && tab[n].k.Used?
  }

  predicate Vacant(tab: seq<Entry>, n: int) {
    0 <= n < |tab| && tab[n].k == Empty
  }

  /** The slot that a probe starting at `h` looks at after `d` steps. */
  function Ahead(h: nat, d: nat, size: nat): (n: nat)
    requires h < size && d < size
    ensures n < size
  {
    if h + d < size then h + d else h + d - size
  }

  /** How many steps a probe takes from `h` to `n`. */
  function Steps(h: nat, n: nat, size: nat): (d: nat)
    requires h < size && n < size
    ensures d < size && Ahead(h, d, size) == n
  {
    if n >= h then n - h else n + size - h
  }

  /** No EMPTY slot among the first `d` of a probe from `h`. */
  predicate Clear(tab: seq<Entry>, h: nat, d: nat)
    requires h < |tab| && d <= |tab|
  {
    forall e :: 0 <= e < d ==> tab[Ahead(h, e, |tab|)].k != Empty
  }

  /** No EMPTY slot lies between a live key's home and its slot. */
  ghost predicate Reachable(tab: seq<Entry>, hash: string -> nat) {
    forall n :: Live(tab, n) ==> Clear(tab, hash(tab[n].k.key) % |tab|, Steps(hash(tab[n].k.key) % |tab|, n, |tab|))
  }

  // ---------- the list through the slots ----------

  function Nth(order: seq<nat>, i: int): int {
    if 0 <= i < |order| then order[i] else NOWHERE
  }

  /** `order` names each live slot once, and nothing else. */
  ghost predicate Lists(tab: seq<Entry>, order: seq<nat>) {
    && (forall i :: 0 <= i < |order| ==> Live(tab, order[i]))
    && (forall i, j :: 0 <= i < j < |order| ==> order[i] != order[j])
    && (forall n :: Live(tab, n) ==> n in order)
  }

  predicate LinkedAt(tab: seq<Entry>, order: seq<nat>, i: nat)
    requires i < |order|
  {
    order[i] < |tab| && tab[order[i]].next == Nth(order, i + 1) && tab[order[i]].prev == Nth(order, i - 1)
  }

  /** The `next` and `prev` links follow `order`. */
  predicate Linked(tab: seq<Entry>, order: seq<nat>) {
    forall i :: 0 <= i < |order| ==> LinkedAt(tab, order, i)
  }

  ghost predicate Sound(tab: seq<Entry>, order: seq<nat>, hash: string -> nat) {
    |tab| > 0 && Lists(tab, order) && Linked(tab, order) && Reachable(tab, hash)
  }

  function MemberAt(tab: seq<Entry>, n: int): Member {
    if Live(tab, n) then Member(tab[n].k.key, tab[n].v) else Member("", Null)
  }

  /** The members of the table, in the order of the list. */
  function Contents(tab: seq<Entry>, order: seq<nat>): (c: seq<Member>)
    ensures |c| == |order|
    ensures forall i :: 0 <= i < |c| ==> c[i] == MemberAt(tab, order[i])
  {
    seq(|order|, i requires 0 <= i < |order| => MemberAt(tab, order[i]))
  }

  // ---------- counting slots ----------

  ghost function UpTo(n: nat): (s: set<nat>)
    ensures |s| == n && forall i :: i in s <==> 0 <= i < n
  {
    if n == 0 then {} else UpTo(n - 1) + {n - 1}
  }

  ghost function Elements(s: seq<nat>): (r: set<nat>)
    ensures |r| <= |s| && forall x :: x in r <==> x in s
    ensures (forall i, j :: 0 <= i < j < |s| ==> s[i] != s[j]) ==> |r| == |s|
  {
    if s == [] then {} else Elements(s[..|s| - 1]) + {s[|s| - 1]}
  }

  lemma Inclusion(a: set<nat>, b: set<nat>)
    requires a <= b
    ensures |a| <= |b|
  {
    assert b == a + (b - a);
  }

  /** There is room for another key exactly if fewer keys are stored than there are slots. */
  lemma Room(tab: seq<Entry>, order: seq<nat>)
    requires Lists(tab, order)
    ensures |order| <= |tab|
    ensures |order| < |tab| <==> exists n :: 0 <= n < |tab| && !Live(tab, n)
  {
    var all, used := UpTo(|tab|), Elements(order);
    forall n | n in used
      ensures n in all
    {
      assert exists i :: 0 <= i < |order| && order[i] == n;
    }
    Inclusion(used, all);
    if forall n :: 0 <= n < |tab| ==> Live(tab, n) {
      assert all <= used;
      Inclusion(all, used);
    } else {
      var n :| 0 <= n < |tab| && !Live(tab, n);
      assert n !in used;
      Inclusion(used, all - {n});
    }
  }

  // ---------- a key comes, a key goes ----------

  /** Writes into slot `n`, and links it behind `tail`. */
  function Placed(tab: seq<Entry>, n: nat, key: string, v: Json, tail: int): seq<Entry>
    requires n < |tab| && -1 <= tail < |tab|
  {
    var t := tab[n := Entry(Used(key), v, NOWHERE, tail)];
    if tail == NOWHERE then t else t[tail := t[tail].(next := n)]
  }

  lemma PlacedSlots(tab: seq<Entry>, n: nat, key: string, v: Json, tail: int)
    requires n < |tab| && !Live(tab, n) && (tail == NOWHERE || Live(tab, tail))
    ensures var t := Placed(tab, n, key, v, tail);
      && |t| == |tab| && t[n] == Entry(Used(key), v, NOWHERE, tail)
      && forall m :: 0 <= m < |tab| && m != n ==> t[m].k == tab[m].k && MemberAt(t, m) == MemberAt(tab, m)
  {
  }

  lemma PlacedReachable(tab: seq<Entry>, hash: string -> nat, n: nat, key: string, v: Json, tail: int)
    requires n < |tab| && !Live(tab, n) && (tail == NOWHERE || Live(tab, tail)) && Reachable(tab, hash)
    requires Clear(tab, hash(key) % |tab|, Steps(hash(key) % |tab|, n, |tab|))
    ensures Reachable(Placed(tab, n, key, v, tail), hash)
  {
    var t := Placed(tab, n, key, v, tail);
    PlacedSlots(tab, n, key, v, tail);
    hide Placed, MemberAt;
    forall m | Live(t, m)
      ensures Clear(t, hash(t[m].k.key) % |t|, Steps(hash(t[m].k.key) % |t|, m, |t|))
    {
      assert m != n ==> Live(tab, m);
    }
  }

  lemma PlacedLinked(tab: seq<Entry>, order: seq<nat>, n: nat, key: string, v: Json)
    requires n < |tab| && !Live(tab, n) && Lists(tab, order) && Linked(tab, order)
    ensures Linked(Placed(tab, n, key, v, Nth(order, |order| - 1)), order + [n])
  {
    var tail := Nth(order, |order| - 1);
    var t, more := Placed(tab, n, key, v, tail), order + [n];
    forall i | 0 <= i < |more|
      ensures LinkedAt(t, more, i)
    {
      if i < |order| {
        assert Live(tab, order[i]) && more[i] == order[i] && LinkedAt(tab, order, i);
        assert i < |order| - 1 ==> order[i] != order[|order| - 1];
      }
    }
  }

  lemma PlacedLists(tab: seq<Entry>, order: seq<nat>, n: nat, t: seq<Entry>)
    requires Lists(tab, order) && n < |tab| == |t| && !Live(tab, n) && Live(t, n)
    requires forall m :: 0 <= m < |tab| && m != n ==> t[m].k == tab[m].k
    ensures Lists(t, order + [n])
  {
    var more := order + [n];
    forall i | 0 <= i < |more|
      ensures Live(t, more[i]) && (i < |order| ==> more[i] != n)
    {
      assert i < |order| ==> Live(tab, order[i]) && more[i] == order[i];
    }
    forall m | Live(t, m)
      ensures m in more
    {
      if m == n {
        assert more[|order|] == n;
      } else {
        assert Live(tab, m);
      }
    }
  }

  /** A key placed where its probe ends comes last in the list. */
  lemma PlacedSound(tab: seq<Entry>, order: seq<nat>, hash: string -> nat, n: nat, key: string, v: Json)
    requires Sound(tab, order, hash) && n < |tab| && !Live(tab, n)
    requires Clear(tab, hash(key) % |tab|, Steps(hash(key) % |tab|, n, |tab|))
    ensures var t := Placed(tab, n, key, v, Nth(order, |order| - 1));
      Sound(t, order + [n], hash) && Contents(t, order + [n]) == Contents(tab, order) + [Member(key, v)]
  {
    var tail := Nth(order, |order| - 1);
    assert tail == NOWHERE || Live(tab, tail);
    var t, more := Placed(tab, n, key, v, tail), order + [n];
    PlacedSlots(tab, n, key, v, tail);
    PlacedReachable(tab, hash, n, key, v, tail);
    PlacedLinked(tab, order, n, key, v);
    PlacedLists(tab, order, n, t);
    PlacedContents(tab, order, n, t);
  }

  lemma PlacedContents(tab: seq<Entry>, order: seq<nat>, n: nat, t: seq<Entry>)
    requires Lists(tab, order) && n < |tab| == |t| && !Live(tab, n)
    requires forall m :: 0 <= m < |tab| && m != n ==> MemberAt(t, m) == MemberAt(tab, m)
    ensures Contents(t, order + [n]) == Contents(tab, order) + [MemberAt(t, n)]
  {
    forall i | 0 <= i < |order|
      ensures MemberAt(t, order[i]) == MemberAt(tab, order[i])
    {
      assert Live(tab, order[i]);
    }
  }

  /** Slot `m`, once slot `n` is unlinked and has become a tombstone */
  function CutAt(tab: seq<Entry>, n: nat, m: nat): Entry
    requires n < |tab| && m < |tab|
  {
    var e, gone := tab[m], tab[n];
    if m == n then Entry(Freed, Null, NOWHERE, NOWHERE)
    else Entry(e.k, e.v, if m == gone.prev then gone.next else e.next, if m == gone.next then gone.prev else e.prev)
  }

  function Removed(tab: seq<Entry>, n: nat): (t: seq<Entry>)
    requires n < |tab|
    ensures |t| == |tab| && forall m :: 0 <= m < |tab| ==> t[m] == CutAt(tab, n, m)
  {
    seq(|tab|, m requires 0 <= m < |tab| => CutAt(tab, n, m))
  }

  lemma Around(tab: seq<Entry>, order: seq<nat>, p: nat)
    requires Lists(tab, order) && Linked(tab, order) && p < |order|
    ensures var n := order[p];
      && Live(tab, n) && tab[n].prev == Nth(order, p - 1) && tab[n].next == Nth(order, p + 1)
      && -1 <= tab[n].prev < |tab| && -1 <= tab[n].next < |tab| && tab[n].prev != n && tab[n].next != n
  {
    hide Lists, Linked;
    LinkAt(tab, order, p);
    if p > 0 {
      LinkAt(tab, order, p - 1);
      OneSlot(tab, order, p, p - 1);
    }
    if p + 1 < |order| {
      LinkAt(tab, order, p + 1);
      OneSlot(tab, order, p, p + 1);
    }
  }

  lemma RemovedSlots(tab: seq<Entry>, n: nat)
    requires n < |tab|
    ensures var t := Removed(tab, n);
      && |t| == |tab| && t[n] == Entry(Freed, Null, NOWHERE, NOWHERE)
      && forall m :: 0 <= m < |tab| && m != n ==> t[m].k == tab[m].k && MemberAt(t, m) == MemberAt(tab, m)
  {
  }

  lemma RemovedLink(tab: seq<Entry>, order: seq<nat>, p: nat, j: nat)
    requires Lists(tab, order) && Linked(tab, order) && p < |order| && j < |order| && j != p
    ensures var n := order[p];
      && Live(tab, n) && Live(tab, order[j])
      && CutAt(tab, n, order[j]).next == Nth(order, if j + 1 == p then p + 1 else j + 1)
      && CutAt(tab, n, order[j]).prev == Nth(order, if j == p + 1 then p - 1 else j - 1)
  {
    hide Lists, Linked;
    Around(tab, order, p);
    LinkAt(tab, order, j);
    OneSlot(tab, order, j, p);
    if p > 0 {
      OneSlot(tab, order, j, p - 1);
    }
    if p + 1 < |order| {
      OneSlot(tab, order, j, p + 1);
    }
  }

  lemma LinkAt(tab: seq<Entry>, order: seq<nat>, i: nat)
    requires Lists(tab, order) && Linked(tab, order) && i < |order|
    ensures Live(tab, order[i])
    ensures tab[order[i]].next == Nth(order, i + 1) && tab[order[i]].prev == Nth(order, i - 1)
  {
    hide Nth;
    assert LinkedAt(tab, order, i);
  }

  lemma OneSlot(tab: seq<Entry>, order: seq<nat>, i: nat, j: nat)
    requires Lists(tab, order) && i < |order| && j < |order|
    ensures order[i] == order[j] <==> i == j
  {
  }

  lemma RemovedLinked(tab: seq<Entry>, order: seq<nat>, p: nat)
    requires Lists(tab, order) && Linked(tab, order) && p < |order| && order[p] < |tab|
    ensures Linked(Removed(tab, order[p]), Without(order, p))
  {
    var t, less := Removed(tab, order[p]), Without(order, p);
    forall i | 0 <= i < |less|
      ensures LinkedAt(t, less, i)
    {
      RemovedAt(tab, order, p, i);
    }
    hide Nth;
  }

  lemma RemovedAt(tab: seq<Entry>, order: seq<nat>, p: nat, i: nat)
    requires Lists(tab, order) && Linked(tab, order) && p < |order| && order[p] < |tab| && i < |order| - 1
    ensures LinkedAt(Removed(tab, order[p]), Without(order, p), i)
  {
    hide CutAt, Lists, Linked;
    RemovedLink(tab, order, p, if i < p then i else i + 1);
  }

  lemma RemovedLists(tab: seq<Entry>, order: seq<nat>, p: nat, t: seq<Entry>)
    requires Lists(tab, order) && p < |order| && |t| == |tab| && !Live(t, order[p])
    requires forall m :: 0 <= m < |tab| && m != order[p] ==> t[m].k == tab[m].k
    ensures Lists(t, Without(order, p))
  {
    var less := Without(order, p);
    forall i | 0 <= i < |less|
      ensures Live(t, less[i])
    {
      var j := if i < p then i else i + 1;
      assert less[i] == order[j] && Live(tab, order[j]);
    }
    forall m | Live(t, m)
      ensures m in less
    {
      assert Live(tab, m);
      var j :| 0 <= j < |order| && order[j] == m;
      assert less[if j < p then j else j - 1] == m;
    }
  }

  lemma RemovedReachable(tab: seq<Entry>, hash: string -> nat, n: nat, t: seq<Entry>)
    requires n < |tab| == |t| && Reachable(tab, hash) && t[n].k == Freed
    requires forall m :: 0 <= m < |tab| && m != n ==> t[m].k == tab[m].k
    ensures Reachable(t, hash)
  {
    forall m | Live(t, m)
      ensures Clear(t, hash(t[m].k.key) % |t|, Steps(hash(t[m].k.key) % |t|, m, |t|))
    {
      assert Live(tab, m);
    }
  }

  /** A removed entry leaves a tombstone that keeps every probe going, and the list closes over the gap. */
  lemma RemovedSound(tab: seq<Entry>, order: seq<nat>, hash: string -> nat, p: nat)
    requires Sound(tab, order, hash) && p < |order|
    ensures Live(tab, order[p])
    ensures var t, less, c := Removed(tab, order[p]), Without(order, p), Contents(tab, order);
      Sound(t, less, hash) && Contents(t, less) == c[..p] + c[p + 1..]
  {
    assert Live(tab, order[p]);
    var t, less := Removed(tab, order[p]), Without(order, p);
    RemovedSlots(tab, order[p]);
    RemovedLinked(tab, order, p);
    RemovedLists(tab, order, p, t);
    RemovedReachable(tab, hash, order[p], t);
    RemovedContents(tab, order, p, t);
  }

  lemma RemovedContents(tab: seq<Entry>, order: seq<nat>, p: nat, t: seq<Entry>)
    requires Lists(tab, order) && p < |order| && |t| == |tab|
    requires forall m :: 0 <= m < |tab| && m != order[p] ==> MemberAt(t, m) == MemberAt(tab, m)
    ensures Contents(t, Without(order, p)) == Contents(tab, order)[..p] + Contents(tab, order)[p + 1..]
  {
    var less := Without(order, p);
    forall i | 0 <= i < |less|
      ensures MemberAt(t, less[i]) == MemberAt(tab, order[if i < p then i else i + 1])
    {
      var j := if i < p then i else i + 1;
      assert less[i] == order[j] && Live(tab, order[j]);
    }
  }
}
