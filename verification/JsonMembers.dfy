/** The members of an object as an ordered list without equal names. */
module JsonMembers {
  import opened JsonMachine

  predicate Distinct(members: seq<Member>) {
    forall i, j :: 0 <= i < j < |members| ==> members[i].key != members[j].key
  }

  /** Deleting the member in place `p` deletes all there is of its name. */
  lemma {:induction false} DelAt(members: seq<Member>, p: nat)
    requires Distinct(members) && p < |members|
    ensures ObjectDel(members, members[p].key) == members[..p] + members[p + 1..]
    decreases p
  {
    var rest := members[1..];
    if p == 0 {
      DelNone(rest, members[0].key);
      assert members[..0] + members[1..] == rest;
    } else {
      DelAt(rest, p - 1);
      assert members[..p] + members[p + 1..] == [members[0]] + (rest[..p - 1] + rest[p..]);
    }
  }

  lemma {:induction false} DelNone(members: seq<Member>, key: string)
    requires forall i :: 0 <= i < |members| ==> members[i].key != key
    ensures ObjectDel(members, key) == members
  {
    if members != [] {
      DelNone(members[1..], key);
    }
  }

  lemma {:induction false} DelKeeps(members: seq<Member>, key: string)
    requires Distinct(members)
    ensures Distinct(ObjectDel(members, key))
    ensures forall m: Member :: m in ObjectDel(members, key) <==> m in members && m.key != key
  {
    if members != [] {
      var rest := members[1..];
      DelKeeps(rest, key);
      assert members == [members[0]] + rest;
    }
  }

  /** Adding keeps the names distinct, gives the name its new value, and touches no other name. */
  lemma AddSound(members: seq<Member>, key: string, v: Json)
    requires Distinct(members)
    ensures Distinct(ObjectAdd(members, key, v)) && Member(key, v) in ObjectAdd(members, key, v)
    ensures forall m: Member :: m.key != key ==> (m in ObjectAdd(members, key, v) <==> m in members)
  {
    hide ObjectDel;
    DelKeeps(members, key);
    var left := ObjectDel(members, key);
    assert forall i :: 0 <= i < |left| ==> left[i] in left;
  }
}
