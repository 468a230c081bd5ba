/** JSON objects over the table: `json_object_object_add`, `_get` and the traversal, in every run from a new object. */
module JsonObjects {
  import opened Wrappers
  import opened JsonMachine
  import opened JsonMembers
  import opened LinkHash
  import opened LinkTable

  /** Without tombstones, a table that is not full has an EMPTY slot. */
  lemma EmptyLeft(tab: seq<Entry>, order: seq<nat>)
    requires Lists(tab, order) && NoTombs(tab) && |order| < |tab|
    ensures HasEmpty(tab)
  {
    Room(tab, order);
    var n :| 0 <= n < |tab| && !Live(tab, n);
    assert Vacant(tab, n);
  }

  /** The probe for a key that has just been deleted ends at its own tombstone. */
  lemma BackToTomb(tab: seq<Entry>, hash: string -> nat, key: string, x: nat, n: nat)
    requires x < |tab| && n < |tab| && Reachable(tab, hash) && NoTombs(tab) && tab[x].k == Used(key)
    requires FirstFree(Removed(tab, x), hash, key, n)
    ensures n == x
  {
    assert Live(tab, x);
  }

  lemma TombFilled(tab: seq<Entry>, tab': seq<Entry>, x: nat)
    requires x < |tab| && NoTombs(tab) && NothingButUsed(Removed(tab, x), tab', x)
    ensures NoTombs(tab')
  {
  }

  lemma SlotOf(tab: seq<Entry>, order: seq<nat>, p: nat)
    requires Lists(tab, order) && p < |order|
    ensures Live(tab, order[p]) && order[p] < |tab| && tab[order[p]].k == Used(Contents(tab, order)[p].key)
  {
  }

  /** What a deletion by name leaves of the members */
  lemma Deleted(tab: seq<Entry>, order: seq<nat>, key: string, found: bool, p: nat, left: seq<Member>)
    requires Lists(tab, order) && Distinct(Contents(tab, order)) && (found <==> HasKey(tab, key))
    requires var c := Contents(tab, order);
      if found then p < |c| && c[p].key == key && left == c[..p] + c[p + 1..] else left == c
    ensures left == ObjectDel(Contents(tab, order), key)
  {
    KeysAreMembers(tab, order, key);
    if found {
      DelAt(Contents(tab, order), p);
    } else {
      DelNone(Contents(tab, order), key);
    }
  }

  /** No tombstone survives: an added name takes the slot of the one deleted for it. */
  lemma NoneSurvives(
    tab: seq<Entry>, order: seq<nat>, hash: string -> nat, key: string, found: bool, p: nat,
    tab1: seq<Entry>, tab2: seq<Entry>, slot: nat)
    requires Lists(tab, order) && Reachable(tab, hash) && NoTombs(tab)
    requires found ==> p < |order| && Contents(tab, order)[p].key == key && order[p] < |tab|
    requires tab1 == if found then Removed(tab, order[p]) else tab
    requires FirstFree(tab1, hash, key, slot) && NothingButUsed(tab1, tab2, slot)
    ensures NoTombs(tab2)
  {
    hide Lists, Reachable, NoTombs, Contents, Removed, Full, NothingButUsed;
    if found {
      SlotOf(tab, order, p);
      BackToTomb(tab, hash, key, order[p], slot);
      TombFilled(tab, tab2, slot);
    } else {
      StillNoTombs(tab, tab2, slot);
    }
  }

  /** A table may be over its load limit by one entry. */
  predicate Light(count: nat, size: nat) {
    count as real <= size as real * 0.66 + 1.0
  }

  lemma StillLight(count: nat, size: nat, size': nat)
    requires size > 0 && size' == if count as real > size as real * 0.66 then 2 * size else size
    requires Light(count, size)
    ensures Light(count + 1, size') && size' >= size
  {
  }

  lemma LightEnough(count: nat, size: nat)
    requires Light(count, size) && size >= DEF_HASH_ENTRIES
    ensures count < size
  {
  }

  /** A `struct json_object` of type object */
  class JsonObject {
    const table: LhTable

    /** No tombstone between two calls, and room left: what makes every lookup end. */
    ghost predicate Valid()
      reads this, table, table.table
    {
      && table.Valid() && table.size >= DEF_HASH_ENTRIES && NoTombs(table.table[..])
      && Light(table.count, table.size)
      && Distinct(table.Members())
    }

    ghost function Members(): seq<Member>
      reads this, table, table.table
    {
      table.Members()
    }

    /** `json_object_new_object` */
    constructor (hash: string -> nat)
      ensures Valid() && Members() == [] && fresh(table) && fresh(table.table)
    {
      table := new LhTable(DEF_HASH_ENTRIES, hash);
    }

    lemma HasRoom()
      requires Valid()
      ensures table.count < table.size && HasEmpty(table.table[..])
    {
      hide Sound, NoTombs, HasEmpty, Distinct, Contents, Light;
      LightEnough(table.count, table.size);
      Parts(table.table[..], table.order, table.hash);
      EmptyLeft(table.table[..], table.order);
    }

    /** `json_object_object_get` */
    method Get(key: string) returns (v: Json)
      requires Valid()
      ensures if exists m :: m in Members() && m.key == key then Member(key, v) in Members() else v == Null
    {
      HasRoom();
      v := table.Lookup(key);
    }

    /** `json_object_object_add` */
    method Add(key: string, v: Json)
      requires Valid()
      modifies table, table.table
      ensures Valid() && (table.table == old(table.table) || fresh(table.table))
      ensures Members() == ObjectAdd(old(Members()), key, v)
    {
      hide Sound, Lists, Linked, Reachable, NoTombs, HasEmpty, HasKey, Distinct, Contents, Removed, FirstFree;
      hide NothingButUsed, Nth, Live, ObjectDel, Light, MemberAt;
      ghost var tab, order, members := table.table[..], table.order, Members();
      AddSound(members, key, v);
      ghost var p, gone := DeleteOld(key);
      ghost var tab1, count, size := table.table[..], table.count, table.size;
      ghost var loaded, slot := table.Loaded(), 0;
      slot := table.Insert(key, v);
      if !loaded {
        NoneSurvives(tab, order, table.hash, key, gone, p, tab1, table.table[..], slot);
      }
      StillLight(count, size, table.size);
    }

    /** The call of `lh_table_delete`: what is in the way of the new member goes. */
    method DeleteOld(key: string) returns (ghost p: nat, ghost gone: bool)
      requires Valid()
      modifies table, table.table
      ensures table.Valid() && table.table == old(table.table) && table.size == old(table.size)
      ensures Light(table.count, table.size) && Members() == ObjectDel(old(Members()), key)
      ensures var (tab, order) := old((table.table[..], table.order));
        && Lists(tab, order) && Reachable(tab, table.hash)
        && (gone ==> p < |order| && order[p] < |tab| && Contents(tab, order)[p].key == key)
        && table.table[..] == if gone then Removed(tab, order[p]) else tab
    {
      hide Sound, Lists, Linked, Reachable, NoTombs, HasEmpty, HasKey, Distinct, Contents, Removed;
      hide Nth, Live, ObjectDel, Light, MemberAt;
      HasRoom();
      ghost var tab, order, count := table.table[..], table.order, table.count;
      Parts(tab, order, table.hash);
      var code;
      code, p := table.Delete(key);
      gone := code == 0;
      if gone {
        SlotOf(tab, order, p);
      }
      Deleted(tab, order, key, gone, p, Members());
      Lighter(count, table.count, table.size);
    }

    static lemma Lighter(a: nat, b: nat, size: nat)
      requires Light(a, size) && b <= a
      ensures Light(b, size)
    {
    }
  }
}
