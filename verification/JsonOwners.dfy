/** What creating an object, adding to an array and adding to a table do to live objects and their owners. */
module JsonOwners {
  import opened Wrappers
  import opened JsonMachine
  import opened JsonMemory

  // ---------- deleting by name ----------

  /** What is left of `xs`, which stands beside `keys`, without the entries named `key`. */
  function Left<T>(keys: seq<string>, xs: seq<T>, key: string): seq<T>
    requires |keys| == |xs|
  {
    if keys == [] then []
    else (if keys[0] == key then [] else [xs[0]]) + Left(keys[1..], xs[1..], key)
  }

  /** The entries named `key` */
  function Gone<T>(keys: seq<string>, xs: seq<T>, key: string): seq<T>
    requires |keys| == |xs|
  {
    if keys == [] then []
    else (if keys[0] == key then [xs[0]] else []) + Gone(keys[1..], xs[1..], key)
  }

  lemma {:induction false} LeftLengths<S, T>(keys: seq<string>, xs: seq<S>, ys: seq<T>, key: string)
    requires |keys| == |xs| == |ys|
    ensures |Left(keys, xs, key)| == |Left(keys, ys, key)|
  {
    if keys != [] {
      LeftLengths(keys[1..], xs[1..], ys[1..], key);
    }
  }

  lemma {:induction false} LeftRefs(keys: seq<string>, os: seq<Own>, key: string)
    requires |keys| == |os|
    ensures Left(keys, Refs(os), key) == Refs(Left(keys, os, key))
    ensures Gone(keys, Refs(os), key) == Refs(Gone(keys, os, key))
  {
    if keys != [] {
      assert Refs(os)[1..] == Refs(os[1..]);
      LeftRefs(keys[1..], os[1..], key);
      RefsConcat([os[0]], Left(keys[1..], os[1..], key));
      RefsConcat([os[0]], Gone(keys[1..], os[1..], key));
      assert Refs([os[0]]) == [RefOf(os[0])];
    }
  }

  lemma RefsConcat(a: seq<Own>, b: seq<Own>)
    ensures Refs(a + b) == Refs(a) + Refs(b)
  {
  }

  lemma {:induction false} LeftVals(keys: seq<string>, os: seq<Own>, key: string)
    requires |keys| == |os|
    ensures Left(keys, Vals(os), key) == Vals(Left(keys, os, key))
  {
    hide Val;
    if keys != [] {
      assert Vals(os)[1..] == Vals(os[1..]);
      LeftVals(keys[1..], os[1..], key);
      ValsConcat([os[0]], Left(keys[1..], os[1..], key));
      assert Vals([os[0]]) == [Val(os[0])];
    }
  }

  lemma ValsConcat(a: seq<Own>, b: seq<Own>)
    ensures Vals(a + b) == Vals(a) + Vals(b)
  {
    hide Val;
  }

  /** Deleting in the list of names and in the list of values is deleting members. */
  lemma {:induction false} LeftNamed(keys: seq<string>, vs: seq<Json>, key: string)
    requires |keys| == |vs|
    ensures ObjectDel(Named(keys, vs), key) == Named(Left(keys, keys, key), Left(keys, vs, key))
  {
    LeftLengths(keys, keys, vs, key);
    if keys != [] {
      assert Named(keys, vs)[1..] == Named(keys[1..], vs[1..]);
      LeftNamed(keys[1..], vs[1..], key);
      LeftLengths(keys[1..], keys[1..], vs[1..], key);
      NamedConcat([keys[0]], [vs[0]], Left(keys[1..], keys[1..], key), Left(keys[1..], vs[1..], key));
      assert Named([keys[0]], [vs[0]]) == [Member(keys[0], vs[0])];
    }
  }

  lemma NamedConcat(keys: seq<string>, vs: seq<Json>, keys': seq<string>, vs': seq<Json>)
    requires |keys| == |vs|
    ensures Named(keys + keys', vs + vs') == Named(keys, vs) + Named(keys', vs')
  {
  }

  lemma {:induction false} LeftIds(keys: seq<string>, os: seq<Own>, key: string)
    requires |keys| == |os|
    ensures IdsAll(os) == IdsAll(Left(keys, os, key)) + IdsAll(Gone(keys, os, key))
  {
    hide Ids;
    if keys != [] {
      LeftIds(keys[1..], os[1..], key);
      IdsSingle(os[0]);
      var (left, gone) := (Left(keys[1..], os[1..], key), Gone(keys[1..], os[1..], key));
      assert [] + left == left && [] + gone == gone;
      if keys[0] == key {
        IdsConcat([os[0]], gone);
        assert IdsAll(left) + (Ids(os[0]) + IdsAll(gone)) == Ids(os[0]) + (IdsAll(left) + IdsAll(gone));
      } else {
        IdsConcat([os[0]], left);
      }
    }
  }

  lemma {:induction false} LeftHolds(h: Heap, keys: seq<string>, os: seq<Own>, key: string)
    requires |keys| == |os| && HoldsAll(h, os)
    ensures HoldsAll(h, Left(keys, os, key)) && HoldsAll(h, Gone(keys, os, key))
  {
    hide Holds;
    if keys != [] {
      LeftHolds(h, keys[1..], os[1..], key);
    }
  }

  // ---------- what the library calls do ----------

  /** `json_object_new_*`: a new object with one reference */
  function New(h: Heap, id: nat, c: Content): Heap {
    h[id := Node(1, c)]
  }

  /** `json_object_array_add` */
  function ArrayAppend(h: Heap, box: Ref, r: Ref): Heap {
    if box.Some? && box.value in h && h[box.value].content.Items? then
      var n := h[box.value];
      h[box.value := n.(content := Items(n.content.items + [r]))]
    else h
  }

  /** `json_object_object_add`: `lh_table_delete` puts the values that were there under that name. */
  function TableAdd(h: Heap, table: Ref, key: string, r: Ref): Heap {
    if table.Some? && table.value in h && h[table.value].content.Fields?
      && |h[table.value].content.keys| == |h[table.value].content.values|
    then
      var n := h[table.value];
      var (keys, values) := (n.content.keys, n.content.values);
      var h' := PutAll(h, Gone(keys, values, key));
      h'[table.value := n.(content := Fields(Left(keys, keys, key) + [key], Left(keys, values, key) + [r]))]
    else h
  }

  // ---------- and what becomes of the owners ----------

  lemma OwnedParts(h: Heap, a: seq<Own>, b: seq<Own>)
    ensures HoldsAll(h, a + b) <==> HoldsAll(h, a) && HoldsAll(h, b)
  {
    hide Holds;
    assert forall i :: 0 <= i < |b| ==> (a + b)[|a| + i] == b[i];
    assert forall i :: 0 <= i < |a| ==> (a + b)[i] == a[i];
  }

  lemma HoldsSingle(h: Heap, o: Own)
    ensures HoldsAll(h, [o]) <==> Holds(h, o)
  {
    hide Holds;
    assert [o][0] == o;
  }

  /** A new object belongs to whoever has created it. */
  lemma NewOwned(h: Heap, pre: seq<Own>, id: nat, o: Own, c: Content)
    requires Owned(h, pre + [Nil]) && id !in h
    requires Ids(o) == multiset{id} && Holds(New(h, id, c), o)
    ensures Owned(New(h, id, c), pre + [o])
  {
    hide Holds, HoldsAll, Ids, IdsAll;
    IdsConcat(pre, [Nil]);
    IdsConcat(pre, [o]);
    IdsSingle(Nil);
    IdsSingle(o);
    NilIds();
    OwnedParts(h, pre, [Nil]);
    FrameAll(h, New(h, id, c), pre);
    HoldsSingle(New(h, id, c), o);
    OwnedParts(New(h, id, c), pre, [o]);
  }

  lemma NilIds()
    ensures Ids(Nil) == multiset{}
  {
  }

  /** All that is in a container, and the container with another content */
  lemma Refilled(h: Heap, pre: seq<Own>, id: nat, parts: seq<Own>, keys: seq<string>, isTable: bool)
    requires HoldsAll(h, pre) && HoldsAll(h, parts) && |keys| == |parts|
    requires Distinct(IdsAll(pre) + multiset{id} + IdsAll(parts))
    requires h.Keys == SetOf(IdsAll(pre) + multiset{id} + IdsAll(parts))
    ensures var c := if isTable then Fields(keys, Refs(parts)) else Items(Refs(parts));
      Owned(h[id := Node(1, c)], pre + [if isTable then Table(id, keys, parts) else Array(id, parts)])
  {
    hide Holds, HoldsAll, Ids, IdsAll;
    var c := if isTable then Fields(keys, Refs(parts)) else Items(Refs(parts));
    var o := if isTable then Table(id, keys, parts) else Array(id, parts);
    var h' := h[id := Node(1, c)];
    IdsConcat(pre, [o]);
    IdsSingle(o);
    ContainerIds(id, keys, parts);
    DistinctPart(IdsAll(parts), IdsAll(pre) + multiset{id});
    DistinctPart(multiset{id}, IdsAll(pre));
    FrameAll(h, h', pre);
    FrameAll(h, h', parts);
    ContainerHolds(h', id, keys, parts);
    HoldsSingle(h', o);
    OwnedParts(h', pre, [o]);
    assert IdsAll(pre) + multiset{id} + IdsAll(parts) == IdsAll(pre) + (multiset{id} + IdsAll(parts));
  }

  lemma ContainerIds(id: nat, keys: seq<string>, parts: seq<Own>)
    ensures Ids(Array(id, parts)) == Ids(Table(id, keys, parts)) == multiset{id} + IdsAll(parts)
  {
  }

  lemma ContainerHolds(h: Heap, id: nat, keys: seq<string>, parts: seq<Own>)
    ensures Holds(h, Array(id, parts)) <==> id in h && h[id] == Node(1, Items(Refs(parts))) && HoldsAll(h, parts)
    ensures Holds(h, Table(id, keys, parts)) <==>
      |keys| == |parts| && id in h && h[id] == Node(1, Fields(keys, Refs(parts))) && HoldsAll(h, parts)
  {
  }

  /** The owners of a container at the top and of a value beside it, one by one */
  lemma TwoOnTop(h: Heap, pre: seq<Own>, box: Own, o: Own)
    requires Owned(h, pre + [box, o])
    ensures HoldsAll(h, pre) && Holds(h, box) && Holds(h, o)
    ensures Distinct(IdsAll(pre) + Ids(box) + Ids(o)) && h.Keys == SetOf(IdsAll(pre) + Ids(box) + Ids(o))
  {
    hide Holds, HoldsAll, Ids, IdsAll, Distinct;
    OwnedParts(h, pre, [box, o]);
    assert [box, o] == [box] + [o];
    OwnedParts(h, [box], [o]);
    HoldsSingle(h, box);
    HoldsSingle(h, o);
    IdsConcat(pre, [box, o]);
    IdsConcat([box], [o]);
    IdsSingle(box);
    IdsSingle(o);
    assert IdsAll(pre) + (Ids(box) + Ids(o)) == IdsAll(pre) + Ids(box) + Ids(o);
  }

  lemma OneMore(h: Heap, parts: seq<Own>, o: Own)
    ensures Refs(parts + [o]) == Refs(parts) + [RefOf(o)] && Vals(parts + [o]) == Vals(parts) + [Val(o)]
    ensures IdsAll(parts + [o]) == IdsAll(parts) + Ids(o)
    ensures HoldsAll(h, parts + [o]) <==> HoldsAll(h, parts) && Holds(h, o)
  {
    hide Holds, HoldsAll, Ids, IdsAll, Val;
    RefsConcat(parts, [o]);
    ValsConcat(parts, [o]);
    assert Refs([o]) == [RefOf(o)] && Vals([o]) == [Val(o)];
    IdsConcat(parts, [o]);
    IdsSingle(o);
    OwnedParts(h, parts, [o]);
    HoldsSingle(h, o);
  }

  /** The element that is added belongs to the array from then on. */
  lemma AppendOwned(h: Heap, pre: seq<Own>, id: nat, parts: seq<Own>, o: Own)
    requires Owned(h, pre + [Array(id, parts), o])
    ensures Owned(ArrayAppend(h, Some(id), RefOf(o)), pre + [Array(id, parts + [o])])
    ensures Val(Array(id, parts + [o])) == Arr(Vals(parts) + [Val(o)])
  {
    hide Holds, HoldsAll, Ids, IdsAll, Distinct;
    var all := parts + [o];
    var keys := seq(|all|, i => "");
    TwoOnTop(h, pre, Array(id, parts), o);
    ContainerIds(id, keys, parts);
    ContainerHolds(h, id, keys, parts);
    OneMore(h, parts, o);
    assert IdsAll(pre) + (multiset{id} + IdsAll(parts)) + Ids(o) == IdsAll(pre) + multiset{id} + IdsAll(all);
    Refilled(h, pre, id, all, keys, false);
  }

  /** The values that go are freed; the value that is added belongs to the table from then on. */
  lemma TableAddOwned(h: Heap, pre: seq<Own>, id: nat, keys: seq<string>, parts: seq<Own>, key: string, o: Own)
    requires |keys| == |parts| && Owned(h, pre + [Table(id, keys, parts), o])
    ensures
      var t := Table(id, Left(keys, keys, key) + [key], Left(keys, parts, key) + [o]);
      Owned(TableAdd(h, Some(id), key, RefOf(o)), pre + [t])
  {
    hide Holds, HoldsAll, Ids, IdsAll, Distinct, PutAll, Left, Gone, Minus;
    var (left, gone) := (Left(keys, parts, key), Gone(keys, parts, key));
    TwoOnTop(h, pre, Table(id, keys, parts), o);
    ContainerIds(id, keys, parts);
    ContainerHolds(h, id, keys, parts);
    LeftLengths(keys, keys, parts, key);
    LeftRefs(keys, parts, key);
    LeftIds(keys, parts, key);
    LeftHolds(h, keys, parts, key);
    OneMore(h, left, o);
    assert IdsAll(pre) + (multiset{id} + (IdsAll(left) + IdsAll(gone))) + Ids(o)
      == IdsAll(gone) + (IdsAll(pre) + multiset{id} + IdsAll(left + [o]));
    GoneFreed(h, pre, id, left + [o], gone);
    Refilled(Minus(h, IdsAll(gone)), pre, id, left + [o], Left(keys, keys, key) + [key], true);
  }

  /** Putting what goes leaves all the rest as it is. */
  lemma GoneFreed(h: Heap, pre: seq<Own>, id: nat, rest: seq<Own>, gone: seq<Own>)
    requires HoldsAll(h, pre) && HoldsAll(h, rest) && HoldsAll(h, gone)
    requires Distinct(IdsAll(gone) + (IdsAll(pre) + multiset{id} + IdsAll(rest)))
    requires h.Keys == SetOf(IdsAll(gone) + (IdsAll(pre) + multiset{id} + IdsAll(rest)))
    ensures PutAll(h, Refs(gone)) == Minus(h, IdsAll(gone))
    ensures HoldsAll(Minus(h, IdsAll(gone)), pre) && HoldsAll(Minus(h, IdsAll(gone)), rest)
    ensures Distinct(IdsAll(pre) + multiset{id} + IdsAll(rest))
    ensures Minus(h, IdsAll(gone)).Keys == SetOf(IdsAll(pre) + multiset{id} + IdsAll(rest))
  {
    hide Holds, HoldsAll, Ids, IdsAll, Distinct, PutAll, Minus;
    var (a, b, c) := (IdsAll(gone), IdsAll(pre), IdsAll(rest));
    DistinctPart(b + multiset{id} + c, a);
    assert a + (b + multiset{id} + c) == (multiset{id} + c + a) + b;
    assert a + (b + multiset{id} + c) == (b + multiset{id} + a) + c;
    DistinctPart(b, multiset{id} + c + a);
    DistinctPart(c, b + multiset{id} + a);
    assert multiset{id} + c + a == (multiset{id} + c) + a;
    PutAllFrees(h, gone);
    FrameAll(h, Minus(h, a), pre);
    FrameAll(h, Minus(h, a), rest);
  }

  /** Adding a member to the value */
  lemma TableAddValue(id: nat, keys: seq<string>, parts: seq<Own>, key: string, o: Own)
    requires |keys| == |parts|
    ensures Val(Table(id, Left(keys, keys, key) + [key], Left(keys, parts, key) + [o]))
      == Obj(ObjectAdd(Named(keys, Vals(parts)), key, Val(o)))
  {
    hide Left, ObjectDel;
    var (names, left) := (Left(keys, keys, key), Left(keys, parts, key));
    LeftLengths(keys, keys, parts, key);
    LeftVals(keys, parts, key);
    LeftNamed(keys, Vals(parts), key);
    ValsConcat(left, [o]);
    assert Vals([o]) == [Val(o)] && Named([key], [Val(o)]) == [Member(key, Val(o))];
    NamedConcat(names, Vals(left), [key], [Val(o)]);
  }
}
