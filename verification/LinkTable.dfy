/** The operations of lib/json/linkhash.c, in place on the slots, against an ordered list of members. */
module LinkTable {
  import opened Wrappers
  import opened JsonMachine
  import opened LinkHash

  /** Every slot that a probe from `h` meets in its first `d` steps is in use. */
  predicate Full(tab: seq<Entry>, h: nat, d: nat)
    requires h < |tab| && d <= |tab|
  {
    forall e :: 0 <= e < d ==> Live(tab, Ahead(h, e, |tab|))
  }

  /** The probe for `key` meets its first slot not in use at `n`. */
  predicate FirstFree(tab: seq<Entry>, hash: string -> nat, key: string, n: nat) {
    && n < |tab| && !Live(tab, n)
    && Full(tab, hash(key) % |tab|, Steps(hash(key) % |tab|, n, |tab|))
  }

  predicate NoTombs(tab: seq<Entry>) {
    forall n :: 0 <= n < |tab| ==> tab[n].k != Freed
  }

  ghost predicate HasKey(tab: seq<Entry>, key: string) {
    exists n :: Live(tab, n) && tab[n].k.key == key
  }

  ghost predicate HasEmpty(tab: seq<Entry>) {
    exists n :: Vacant(tab, n)
  }

  /** A probe for `key` stops at this slot. */
  predicate Halts(tab: seq<Entry>, key: string, n: nat)
    requires n < |tab|
  {
    tab[n].k == Empty || tab[n].k == Used(key)
  }

  /** A lookup ends if and only if the key is there or some slot has never been used. */
  lemma LookupEnds(tab: seq<Entry>, key: string, h: nat)
    requires h < |tab|
    ensures (exists d :: 0 <= d < |tab| && Halts(tab, key, Ahead(h, d, |tab|))) <==> HasKey(tab, key) || HasEmpty(tab)
  {
    if d :| 0 <= d < |tab| && Halts(tab, key, Ahead(h, d, |tab|)) {
      var n := Ahead(h, d, |tab|);
      assert Vacant(tab, n) || Live(tab, n);
    }
    if n :| Live(tab, n) && tab[n].k.key == key {
      assert Halts(tab, key, Ahead(h, Steps(h, n, |tab|), |tab|));
    }
    if n :| Vacant(tab, n) {
      assert Halts(tab, key, Ahead(h, Steps(h, n, |tab|), |tab|));
    }
  }

  lemma Found(tab: seq<Entry>, n: nat)
    requires Live(tab, n)
    ensures HasKey(tab, tab[n].k.key)
  {
  }

  /** Where a probe meets an EMPTY slot, the key it did not meet before is nowhere. */
  lemma NotFound(tab: seq<Entry>, hash: string -> nat, key: string, d: nat)
    requires Reachable(tab, hash) && d < |tab|
    requires forall e :: 0 <= e < d ==> !Halts(tab, key, Ahead(hash(key) % |tab|, e, |tab|))
    requires tab[Ahead(hash(key) % |tab|, d, |tab|)].k == Empty
    ensures !HasKey(tab, key)
  {
  }

  lemma Parts(tab: seq<Entry>, order: seq<nat>, hash: string -> nat)
    requires Sound(tab, order, hash)
    ensures |tab| > 0 && Lists(tab, order) && Linked(tab, order) && Reachable(tab, hash)
  {
  }

  /** Slot `n` is in use now, and no other mark has changed. */
  predicate NothingButUsed(tab: seq<Entry>, tab': seq<Entry>, n: nat) {
    && |tab| == |tab'| && Live(tab', n)
    && forall m :: 0 <= m < |tab| && m != n ==> tab'[m].k == tab[m].k
  }

  lemma PlacedMarks(tab: seq<Entry>, n: nat, key: string, v: Json, tail: int)
    requires n < |tab| && !Live(tab, n) && (tail == NOWHERE || Live(tab, tail))
    ensures NothingButUsed(tab, Placed(tab, n, key, v, tail), n)
  {
  }

  lemma StillNoTombs(tab: seq<Entry>, tab': seq<Entry>, n: nat)
    requires NoTombs(tab) && NothingButUsed(tab, tab', n)
    ensures NoTombs(tab')
  {
  }

  lemma InFull(tab: seq<Entry>, h: nat, n: nat)
    requires h < |tab| && n < |tab| && Full(tab, h, Steps(h, n, |tab|))
    ensures Clear(tab, h, Steps(h, n, |tab|))
  {
  }

  lemma LastSlot(tab: seq<Entry>, order: seq<nat>)
    requires Lists(tab, order)
    ensures var tail := Nth(order, |order| - 1);
      && (tail == NOWHERE <==> order == []) && (tail != NOWHERE ==> Live(tab, tail))
      && (Nth(order, 0) == NOWHERE <==> order == [])
  {
  }

  lemma AllOf(tab: seq<Entry>, order: seq<nat>)
    ensures |Contents(tab, order)| == |order| && Contents(tab, order)[..|order|] == Contents(tab, order)
  {
  }

  lemma MemberOf(tab: seq<Entry>, order: seq<nat>, i: nat)
    requires i < |order| && Live(tab, order[i])
    ensures var c := Contents(tab, order);
      |c| == |order| && c[..i] + [Member(tab[order[i]].k.key, tab[order[i]].v)] == c[..i + 1]
  {
  }

  lemma KeysAreMembers(tab: seq<Entry>, order: seq<nat>, key: string)
    requires Lists(tab, order)
    ensures HasKey(tab, key) <==> exists m :: m in Contents(tab, order) && m.key == key
  {
    if n :| Live(tab, n) && tab[n].k.key == key {
      EntryIsMember(tab, order, n);
    }
    if m :| m in Contents(tab, order) && m.key == key {
      var i :| 0 <= i < |order| && Contents(tab, order)[i] == m;
      assert Live(tab, order[i]);
    }
  }

  lemma EntryIsMember(tab: seq<Entry>, order: seq<nat>, n: nat)
    requires Lists(tab, order) && Live(tab, n)
    ensures Member(tab[n].k.key, tab[n].v) in Contents(tab, order)
  {
    var i :| 0 <= i < |order| && order[i] == n;
    assert Contents(tab, order)[i] == MemberAt(tab, n);
  }

  lemma PlaceOf(tab: seq<Entry>, order: seq<nat>, n: nat) returns (p: nat)
    requires Lists(tab, order) && Live(tab, n)
    ensures p < |order| && order[p] == n
  {
    p :| 0 <= p < |order| && order[p] == n;
  }

  /** Slot `n` has its neighbours in the list, and is an end of it where it has none. */
  predicate InList(tab: seq<Entry>, n: nat, head: int, tail: int) {
    n < |tab| &&
    var (prev, next) := (tab[n].prev, tab[n].next);
    && -1 <= prev < |tab| && -1 <= next < |tab| && prev != n && next != n
    && (head == n <==> prev == NOWHERE) && (tail == n <==> next == NOWHERE)
    && (prev == next ==> prev == NOWHERE)
  }

  /** The tests for the head and the tail tell the place in the list. */
  lemma Ends(tab: seq<Entry>, order: seq<nat>, p: nat)
    requires Lists(tab, order) && Linked(tab, order) && p < |order|
    ensures var n, less, head, tail := order[p], Without(order, p), Nth(order, 0), Nth(order, |order| - 1);
      && InList(tab, n, head, tail)
      && Nth(less, 0) == (if head == n then tab[n].next else head)
      && Nth(less, |less| - 1) == (if tail == n then tab[n].prev else tail)
  {
    hide Linked, Lists;
    LinkAt(tab, order, p);
    OneSlot(tab, order, p, 0);
    OneSlot(tab, order, p, |order| - 1);
    if p > 0 {
      LinkAt(tab, order, p - 1);
      OneSlot(tab, order, p, p - 1);
    }
    if p + 1 < |order| {
      LinkAt(tab, order, p + 1);
      OneSlot(tab, order, p, p + 1);
    }
    if p > 0 && p + 1 < |order| {
      OneSlot(tab, order, p - 1, p + 1);
    }
  }

  /** `struct lh_table` */
  class LhTable {
    const hash: string -> nat
    var table: array<Entry>
    var size: nat
    var count: nat
    var head: int
    var tail: int
    /** The slots in the order of the list */
    ghost var order: seq<nat>

    ghost predicate Valid()
      reads this, table
    {
      && size == table.Length && count == |order|
      && head == Nth(order, 0) && tail == Nth(order, |order| - 1)
      && Sound(table[..], order, hash)
    }

    ghost function Members(): seq<Member>
      reads this, table
    {
      Contents(table[..], order)
    }

    /** `lh_table_new` */
    constructor (size: nat, hash: string -> nat)
      requires size > 0
      ensures Valid() && fresh(table) && this.size == size && this.hash == hash
      ensures Members() == [] && NoTombs(table[..])
    {
      this.size, this.hash := size, hash;
      count, head, tail, order := 0, NOWHERE, NOWHERE, [];
      table := new Entry[size](_ => Entry(Empty, Null, NOWHERE, NOWHERE));
    }

    predicate Loaded()
      reads this
    {
      count as real > size as real * 0.66
    }

    /** The probe of `lh_table_insert`: it always ends, at the first slot that is not in use. */
    method FreeSlot(key: string) returns (n: nat)
      requires Valid() && count < size
      ensures FirstFree(table[..], hash, key, n)
    {
      hide Sound, Lists, Linked, Reachable;
      ghost var tab := table[..];
      Parts(tab, order, hash);
      Room(tab, order);
      ghost var w :| 0 <= w < |tab| && !Live(tab, w);
      var h := hash(key) % size;
      n := h;
      ghost var d := 0;
      while table[n].k != Empty && table[n].k != Freed
        invariant d <= Steps(h, w, size) && n == Ahead(h, d, size) && Full(tab, h, d)
        decreases size - d
      {
        n := n + 1;
        if n == size {
          n := 0;
        }
        d := d + 1;
      }
    }

    /** The second half of `lh_table_insert`: writes the slot and links it. */
    method Put(key: string, v: Json) returns (n: nat)
      requires Valid() && count < size
      modifies this, table
      ensures Valid() && table == old(table) && size == old(size) && count == old(count) + 1
      ensures Members() == old(Members()) + [Member(key, v)]
      ensures FirstFree(old(table[..]), hash, key, n) && NothingButUsed(old(table[..]), table[..], n)
    {
      hide Sound, Lists, Linked, Reachable, Full, NothingButUsed, Clear, Contents;
      ghost var tab := table[..];
      Parts(tab, order, hash);
      n := FreeSlot(key);
      InFull(tab, hash(key) % size, n);
      PlacedSound(tab, order, hash, n, key, v);
      LastSlot(tab, order);
      count := count + 1;
      Fill(n, key, v);
      PlacedMarks(tab, n, key, v, Nth(order, |order| - 1));
      order := order + [n];
    }

    /** Writes a slot and puts it at the end of the list. */
    method Fill(n: nat, key: string, v: Json)
      requires n < table.Length && -1 <= tail < table.Length && tail != n && (head == NOWHERE <==> tail == NOWHERE)
      modifies this`head, this`tail, table
      ensures table[..] == Placed(old(table[..]), n, key, v, old(tail))
      ensures head == (if old(head) == NOWHERE then n else old(head)) && tail == n
    {
      table[n] := table[n].(k := Used(key));
      table[n] := table[n].(v := v);
      if head == NOWHERE {
        head, tail := n, n;
        table[n] := table[n].(next := NOWHERE, prev := NOWHERE);
      } else {
        table[tail] := table[tail].(next := n);
        table[n] := table[n].(prev := tail);
        table[n] := table[n].(next := NOWHERE);
        tail := n;
      }
    }

    /** `lh_table_lookup_entry` */
    method LookupEntry(key: string) returns (n: int)
      requires Valid() && (HasKey(table[..], key) || HasEmpty(table[..]))
      ensures n == NOWHERE || (Live(table[..], n) && table[n].k.key == key)
      ensures n == NOWHERE <==> !HasKey(table[..], key)
    {
      hide Sound, Lists, Linked, Reachable, HasKey, HasEmpty;
      ghost var tab := table[..];
      Parts(tab, order, hash);
      var h := hash(key) % size;
      LookupEnds(tab, key, h);
      ghost var w :| 0 <= w < size && Halts(tab, key, Ahead(h, w, size));
      n := h;
      ghost var d := 0;
      while true
        invariant d <= w && n == Ahead(h, d, size)
        invariant forall e :: 0 <= e < d ==> !Halts(tab, key, Ahead(h, e, size))
        decreases size - d
      {
        if table[n].k == Empty {
          NotFound(tab, hash, key, d);
          return NOWHERE;
        }
        if table[n].k != Freed && table[n].k.key == key {
          Found(tab, n);
          return n;
        }
        n := n + 1;
        if n == size {
          n := 0;
        }
        d := d + 1;
      }
    }

    /** `lh_table_resize` */
    method Resize(newSize: nat)
      requires Valid() && newSize > 0
      requires count as real <= newSize as real * 0.66 + 1.0
      modifies this
      ensures Valid() && fresh(table) && NoTombs(table[..])
      ensures size == newSize && Members() == old(Members()) && count == old(count)
      decreases 1, 1
    {
      hide Sound, NoTombs, Contents;
      var newTable := new LhTable(newSize, hash);
      CopyInto(newTable);
      table := newTable.table;
      size := newSize;
      head := newTable.head;
      tail := newTable.tail;
      order := newTable.order;
    }

    /** The loop of `lh_table_resize`: the new table takes all entries without growing itself. */
    method CopyInto(newTable: LhTable)
      requires Valid() && newTable.Valid() && newTable != this && newTable.table != table
      requires newTable.hash == hash && newTable.Members() == [] && newTable.count == 0 && NoTombs(newTable.table[..])
      requires count as real <= newTable.size as real * 0.66 + 1.0
      modifies newTable, newTable.table
      ensures newTable.Valid() && (newTable.table == old(newTable.table) || fresh(newTable.table))
      ensures NoTombs(newTable.table[..]) && newTable.size == old(newTable.size)
      ensures newTable.Members() == Members() && newTable.count == count
      decreases 1, 0
    {
      hide Sound, Lists, Linked, Reachable, NoTombs, NothingButUsed, Contents, Full;
      ghost var tab, list := table[..], order;
      ghost var members := Contents(tab, list);
      Parts(tab, list, hash);
      AllOf(tab, list);
      var ent := head;
      ghost var i := 0;
      while ent != NOWHERE
        invariant newTable.Valid() && (newTable.table == old(newTable.table) || fresh(newTable.table))
        invariant newTable.size == old(newTable.size) && NoTombs(newTable.table[..])
        invariant i <= count && ent == Nth(list, i) && newTable.count == i
        invariant newTable.Members() == members[..i]
        decreases count - i
      {
        LinkAt(tab, list, i);
        MemberOf(tab, list, i);
        ghost var newTab := newTable.table[..];
        ghost var slot := newTable.Insert(table[ent].k.key, table[ent].v);
        StillNoTombs(newTab, newTable.table[..], slot);
        ent := table[ent].next;
        i := i + 1;
      }
    }

    /** `lh_table_insert`.  `slot` is where the key goes when the table does not grow. */
    method Insert(key: string, v: Json) returns (ghost slot: nat)
      requires Valid()
      modifies this, table
      ensures Valid() && (table == old(table) || fresh(table))
      ensures Members() == old(Members()) + [Member(key, v)] && count == old(count) + 1
      ensures size == if old(Loaded()) then 2 * old(size) else old(size)
      ensures old(Loaded()) ==> NoTombs(table[..])
      ensures !old(Loaded()) ==>
        (FirstFree(old(table[..]), hash, key, slot) && NothingButUsed(old(table[..]), table[..], slot))
      decreases if Loaded() then 2 else 0, 0
    {
      hide Sound, Lists, Linked, Reachable, NoTombs, NothingButUsed, Full, Contents;
      Parts(table[..], order, hash);
      Room(table[..], order);
      if Loaded() {
        Resize(size * 2);
      }
      ghost var tab := table[..];
      slot := Put(key, v);
      if NoTombs(tab) {
        StillNoTombs(tab, table[..], slot);
      }
    }

    /** `lh_table_lookup`: the null pointer for a key that is not there, and also for one whose value is null */
    method Lookup(key: string) returns (v: Json)
      requires Valid() && (HasKey(table[..], key) || HasEmpty(table[..]))
      ensures if exists m :: m in Members() && m.key == key then Member(key, v) in Members() else v == Null
    {
      ghost var tab := table[..];
      Parts(tab, order, hash);
      KeysAreMembers(tab, order, key);
      hide Sound, Lists, Linked, Reachable, HasKey, HasEmpty, Contents;
      var n := LookupEntry(key);
      if n == NOWHERE {
        return Null;
      }
      EntryIsMember(tab, order, n);
      v := table[n].v;
    }

    /** `lh_table_delete_entry`.  `p` is the place of the entry in the list. */
    method DeleteEntry(n: int) returns (r: int, ghost p: nat)
      requires Valid() && n < size
      modifies this, table
      ensures Valid() && table == old(table) && size == old(size)
      ensures r == if n < 0 then -2 else if old(Live(table[..], n)) then 0 else -1
      ensures r != 0 ==> Members() == old(Members()) && table[..] == old(table[..]) && count == old(count)
      ensures r == 0 ==> p < old(|order|) && old(order)[p] == n && count == old(count) - 1
      ensures r == 0 ==> Members() == old(Members())[..p] + old(Members())[p + 1..]
      ensures r == 0 ==> table[..] == Removed(old(table[..]), n)
    {
      hide Sound, Lists, Linked, Reachable, Contents;
      p := 0;
      if n < 0 {
        return -2, p;
      }
      if table[n].k == Empty || table[n].k == Freed {
        return -1, p;
      }
      p := Unlink(n);
      r := 0;
    }

    /** `lh_table_delete_entry`, for an entry in use */
    method Unlink(n: nat) returns (ghost p: nat)
      requires Valid() && Live(table[..], n)
      modifies this, table
      ensures Valid() && table == old(table) && size == old(size)
      ensures p < old(|order|) && old(order)[p] == n && count == old(count) - 1
      ensures Members() == old(Members())[..p] + old(Members())[p + 1..]
      ensures table[..] == Removed(old(table[..]), n)
    {
      hide Sound, Lists, Linked, Reachable, Contents, Nth, InList, Removed;
      ghost var tab := table[..];
      Parts(tab, order, hash);
      p := PlaceOf(tab, order, n);
      Ends(tab, order, p);
      RemovedSound(tab, order, hash, p);
      count := count - 1;
      Bury(n);
      order := Without(order, p);
    }

    /** Turns a slot into a tombstone and takes it out of the list. */
    method Bury(n: nat)
      requires InList(table[..], n, head, tail)
      modifies this`head, this`tail, table
      ensures table[..] == Removed(old(table[..]), n)
      ensures head == if old(head) == n then old(table[n].next) else old(head)
      ensures tail == if old(tail) == n then old(table[n].prev) else old(tail)
    {
      table[n] := table[n].(v := Null);
      table[n] := table[n].(k := Freed);
      if tail == n && head == n {
        head, tail := NOWHERE, NOWHERE;
      } else if head == n {
        var next := table[n].next;
        table[next] := table[next].(prev := NOWHERE);
        head := next;
      } else if tail == n {
        var prev := table[n].prev;
        table[prev] := table[prev].(next := NOWHERE);
        tail := prev;
      } else {
        var (prev, next) := (table[n].prev, table[n].next);
        table[prev] := table[prev].(next := next);
        table[next] := table[next].(prev := prev);
      }
      table[n] := table[n].(next := NOWHERE, prev := NOWHERE);
    }

    /** `lh_table_delete` */
    method Delete(key: string) returns (r: int, ghost p: nat)
      requires Valid() && (HasKey(table[..], key) || HasEmpty(table[..]))
      modifies this, table
      ensures Valid() && table == old(table) && size == old(size)
      ensures r == if old(HasKey(table[..], key)) then 0 else -1
      ensures r != 0 ==> Members() == old(Members()) && table[..] == old(table[..]) && count == old(count)
      ensures r == 0 ==> p < old(|order|) && old(Members())[p].key == key && count == old(count) - 1
      ensures r == 0 ==> Members() == old(Members())[..p] + old(Members())[p + 1..]
      ensures r == 0 ==> table[..] == Removed(old(table[..]), old(order)[p])
    {
      hide Sound, Lists, Linked, Reachable, HasKey, HasEmpty, Removed;
      p := 0;
      var n := LookupEntry(key);
      if n == NOWHERE {
        return -1, p;
      }
      r, p := DeleteEntry(n);
    }

    /** `lh_foreach`: following the links from the head visits the live slots in the order of their insertion. */
    method ForEach() returns (visited: seq<Member>)
      requires Valid()
      ensures visited == Members()
    {
      hide Sound, Lists, Linked, Reachable, Contents;
      ghost var tab, members := table[..], Members();
      Parts(tab, order, hash);
      AllOf(tab, order);
      var entry := head;
      ghost var i := 0;
      visited := [];
      while entry != NOWHERE
        invariant i <= count && entry == Nth(order, i) && visited == members[..i]
        decreases count - i
      {
        LinkAt(tab, order, i);
        MemberOf(tab, order, i);
        visited := visited + [Member(table[entry].k.key, table[entry].v)];
        entry := table[entry].next;
        i := i + 1;
      }
    }
  }
}
