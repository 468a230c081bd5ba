/** The objects behind JSON values: `struct json_object` with its reference count, `json_object_get` and
    `json_object_put`. */
module JsonMemory {
  import opened Wrappers
  import opened JsonMachine

  /** A pointer to an object; null is None. */
  type Ref = Option<nat>

  /** What an object holds; those of a table are in the order of its list. */
  datatype Content = Scalar(v: Json) | Items(items: seq<Ref>) | Fields(keys: seq<string>, values: seq<Ref>)

  /** `struct json_object` */
  datatype Node = Node(refs: nat, content: Content)

  /** The live objects */
  type Heap = map<nat, Node>

  function Kids(c: Content): seq<Ref> {
    match c
    case Scalar(_) => []
    case Items(items) => items
    case Fields(_, values) => values
  }

  lemma Smaller(h: Heap, i: nat)
    requires i in h
    ensures |h - {i}| < |h|
  {
    assert h == (h - {i})[i := h[i]];
  }

  /** `json_object_get` */
  function Get(h: Heap, r: Ref): Heap {
    if r.Some? && r.value in h then h[r.value := h[r.value].(refs := h[r.value].refs + 1)] else h
  }

  /** `json_object_put`: with the last reference the object goes, and gives up its parts. */
  function Put(h: Heap, r: Ref): (h': Heap)
    ensures |h'| <= |h|
    decreases |h|, 0
  {
    if r.None? || r.value !in h then h
    else
      var n := h[r.value];
      if n.refs > 1 then
        assert h[r.value := n.(refs := n.refs - 1)].Keys == h.Keys;
        SameSize(h, h[r.value := n.(refs := n.refs - 1)]);
        h[r.value := n.(refs := n.refs - 1)]
      else
        Smaller(h, r.value);
        PutAll(h - {r.value}, Kids(n.content))
  }

  /** `json_object_put` for each of them, in order */
  function PutAll(h: Heap, rs: seq<Ref>): (h': Heap)
    ensures |h'| <= |h|
    decreases |h|, 1 + |rs|
  {
    if rs == [] then h else PutAll(Put(h, rs[0]), rs[1..])
  }

  lemma SameSize(a: Heap, b: Heap)
    requires a.Keys == b.Keys
    ensures |a| == |b|
  {
    assert |a| == |a.Keys| && |b| == |b.Keys|;
  }

  // ---------- owners ----------

  /** A value together with the objects that spell it: `Nil` for null, `One` for an object without parts. */
  datatype Own =
    | Nil
    | One(id: nat, v: Json)
    | Array(id: nat, parts: seq<Own>)
    | Table(id: nat, keys: seq<string>, parts: seq<Own>)

  function RefOf(o: Own): Ref {
    if o.Nil? then None else Some(o.id)
  }

  function Refs(os: seq<Own>): (rs: seq<Ref>)
    ensures |rs| == |os| && forall i :: 0 <= i < |rs| ==> rs[i] == RefOf(os[i])
  {
    seq(|os|, i requires 0 <= i < |os| => RefOf(os[i]))
  }

  /** The value that is spelt */
  function Val(o: Own): Json
    decreases o, 0
  {
    match o
    case Nil => Null
    case One(_, v) => v
    case Array(_, parts) => Arr(Vals(parts))
    case Table(_, keys, parts) => Obj(Named(keys, Vals(parts)))
  }

  function Vals(os: seq<Own>): (vs: seq<Json>)
    ensures |vs| == |os|
    decreases os, 0
  {
    seq(|os|, i requires 0 <= i < |os| => Val(os[i]))
  }

  function Named(keys: seq<string>, vs: seq<Json>): (ms: seq<Member>)
    ensures |ms| == |vs|
  {
    seq(|vs|, i requires 0 <= i < |vs| => Member(if i < |keys| then keys[i] else "", vs[i]))
  }

  ghost function Ids(o: Own): multiset<nat>
    decreases o, 0
  {
    match o
    case Nil => multiset{}
    case One(id, _) => multiset{id}
    case Array(id, parts) => multiset{id} + IdsAll(parts)
    case Table(id, _, parts) => multiset{id} + IdsAll(parts)
  }

  ghost function IdsAll(os: seq<Own>): multiset<nat>
    decreases os, |os|
  {
    if os == [] then multiset{} else Ids(os[0]) + IdsAll(os[1..])
  }

  /** The values without parts; null is none of them, as it has no object. */
  predicate Plain(v: Json) {
    v.Bool? || v.Int? || v.Double? || v.Str?
  }

  /** Each of the objects is live, with one reference and the parts it should have. */
  predicate Holds(h: Heap, o: Own)
    decreases o
  {
    match o
    case Nil => true
    case One(id, v) => Plain(v) && id in h && h[id] == Node(1, Scalar(v))
    case Array(id, parts) =>
      id in h && h[id] == Node(1, Items(Refs(parts))) && forall i :: 0 <= i < |parts| ==> Holds(h, parts[i])
    case Table(id, keys, parts) =>
      && |keys| == |parts| && id in h && h[id] == Node(1, Fields(keys, Refs(parts)))
      && forall i :: 0 <= i < |parts| ==> Holds(h, parts[i])
  }

  predicate HoldsAll(h: Heap, os: seq<Own>) {
    forall i :: 0 <= i < |os| ==> Holds(h, os[i])
  }

  function PartsOf(o: Own): (parts: seq<Own>)
    ensures forall k :: 0 <= k < |parts| ==> parts[k] < o
  {
    match o
    case Nil | One(_, _) => []
    case Array(_, parts) => parts
    case Table(_, _, parts) => parts
  }

  /** The object of a value and its parts */
  lemma Holder(h: Heap, o: Own)
    requires Holds(h, o)
    ensures o.Nil? ==> Ids(o) == multiset{}
    ensures !o.Nil? ==>
      && o.id in h && h[o.id].refs == 1 && Kids(h[o.id].content) == Refs(PartsOf(o)) && HoldsAll(h, PartsOf(o))
      && Ids(o) == multiset{o.id} + IdsAll(PartsOf(o))
    ensures o.One? ==> Ids(o) == multiset{o.id}
  {
  }

  ghost predicate Distinct(ids: multiset<nat>) {
    forall i :: i in ids ==> ids[i] == 1
  }

  ghost function SetOf(ids: multiset<nat>): (s: set<nat>)
    ensures forall i :: i in s <==> i in ids
  {
    set i | i in ids
  }

  /** Every live object has one reference and one owner among `os`, and all that they need is there. */
  ghost predicate Owned(h: Heap, os: seq<Own>) {
    HoldsAll(h, os) && Distinct(IdsAll(os)) && h.Keys == SetOf(IdsAll(os))
  }

  lemma {:induction false} IdsConcat(a: seq<Own>, b: seq<Own>)
    ensures IdsAll(a + b) == IdsAll(a) + IdsAll(b)
    decreases |a|
  {
    if a == [] {
      assert a + b == b;
    } else {
      assert (a + b)[1..] == a[1..] + b;
      IdsConcat(a[1..], b);
    }
  }

  lemma IdsSingle(o: Own)
    ensures IdsAll([o]) == Ids(o)
  {
    assert [o][1..] == [];
  }

  lemma {:induction false} IdsPart(os: seq<Own>, k: nat)
    requires k < |os|
    ensures Ids(os[k]) <= IdsAll(os)
    decreases |os|
  {
    if k > 0 {
      IdsPart(os[1..], k - 1);
    }
  }

  /** What is spelt depends on no other object. */
  lemma {:induction false} Frame(h: Heap, h': Heap, o: Own)
    requires Holds(h, o) && forall i :: i in Ids(o) ==> i in h' && i in h && h'[i] == h[i]
    ensures Holds(h', o)
    decreases o
  {
    match o
    case Array(_, parts) =>
      forall k | 0 <= k < |parts|
        ensures Holds(h', parts[k])
      {
        IdsPart(parts, k);
        Frame(h, h', parts[k]);
      }
    case Table(_, _, parts) =>
      forall k | 0 <= k < |parts|
        ensures Holds(h', parts[k])
      {
        IdsPart(parts, k);
        Frame(h, h', parts[k]);
      }
    case _ =>
  }

  lemma {:induction false} Live(h: Heap, o: Own)
    requires Holds(h, o)
    ensures forall i :: i in Ids(o) ==> i in h
    decreases o, 0
  {
    match o
    case Array(_, parts) => LiveAll(h, parts);
    case Table(_, _, parts) => LiveAll(h, parts);
    case _ =>
  }

  lemma {:induction false} LiveAll(h: Heap, os: seq<Own>)
    requires HoldsAll(h, os)
    ensures forall i :: i in IdsAll(os) ==> i in h
    decreases os, |os|
  {
    if os != [] {
      Live(h, os[0]);
      LiveAll(h, os[1..]);
    }
  }

  lemma FrameAll(h: Heap, h': Heap, os: seq<Own>)
    requires HoldsAll(h, os) && forall i :: i in IdsAll(os) ==> i in h' && i in h && h'[i] == h[i]
    ensures HoldsAll(h', os)
  {
    forall k | 0 <= k < |os|
      ensures Holds(h', os[k])
    {
      IdsPart(os, k);
      Frame(h, h', os[k]);
    }
  }

  /** The heap without the objects of these ids */
  ghost function Minus(h: Heap, ids: multiset<nat>): (h': Heap)
    ensures forall i :: i in h' <==> i in h && i !in ids
    ensures forall i :: i in h' ==> h'[i] == h[i]
  {
    map i | i in h && i !in ids :: h[i]
  }

  lemma MinusTwice(h: Heap, a: multiset<nat>, b: multiset<nat>)
    ensures Minus(Minus(h, a), b) == Minus(h, a + b)
  {
  }

  lemma MinusOne(h: Heap, id: nat)
    ensures h - {id} == Minus(h, multiset{id}) && Minus(h, multiset{}) == h
  {
  }

  /** Values that share no object with the ones that go are not concerned. */
  lemma FrameMinus(h: Heap, gone: multiset<nat>, os: seq<Own>)
    requires HoldsAll(h, os) && Distinct(gone + IdsAll(os))
    ensures HoldsAll(Minus(h, gone), os) && Distinct(IdsAll(os)) && Distinct(gone)
  {
    hide Holds, HoldsAll, Ids, IdsAll, Minus;
    LiveAll(h, os);
    DistinctPart(IdsAll(os), gone);
    FrameAll(h, Minus(h, gone), os);
  }

  lemma DistinctPart(a: multiset<nat>, b: multiset<nat>)
    requires Distinct(b + a)
    ensures Distinct(a) && Distinct(b) && forall i :: i in a ==> i !in b
  {
    forall i | i in a
      ensures a[i] == 1 && i !in b
    {
      assert (b + a)[i] == 1;
    }
    forall i | i in b
      ensures b[i] == 1
    {
      assert (b + a)[i] == 1;
    }
  }

  /** Putting the one reference to a value frees its objects, and no others. */
  lemma {:induction false} PutFrees(h: Heap, o: Own)
    requires Holds(h, o) && Distinct(Ids(o))
    ensures Put(h, RefOf(o)) == Minus(h, Ids(o))
    decreases o, 0
  {
    hide Put, PutAll, Distinct, Minus, Holds, HoldsAll, Ids, IdsAll;
    Holder(h, o);
    match o {
      case Nil =>
        MinusOne(h, 0);
        PutNull(h);
      case One(id, _) =>
        MinusOne(h, id);
        PutLast(h, id);
        NothingToPut(h - {id});
      case Array(id, parts) =>
        PutLast(h, id);
        PutParts(h, id, parts);
      case Table(id, _, parts) =>
        PutLast(h, id);
        PutParts(h, id, parts);
    }
  }

  lemma PutNull(h: Heap)
    ensures Put(h, None) == h
  {
  }

  lemma PutLast(h: Heap, id: nat)
    requires id in h && h[id].refs == 1
    ensures Put(h, Some(id)) == PutAll(h - {id}, Kids(h[id].content))
  {
  }

  lemma NothingToPut(h: Heap)
    ensures PutAll(h, []) == h
  {
  }

  lemma {:induction false} PutParts(h: Heap, id: nat, parts: seq<Own>)
    requires HoldsAll(h, parts) && Distinct(multiset{id} + IdsAll(parts))
    ensures PutAll(h - {id}, Refs(parts)) == Minus(h, multiset{id} + IdsAll(parts))
    decreases parts, |parts| + 1
  {
    hide Holds, HoldsAll, IdsAll, PutAll, Minus, Distinct;
    MinusOne(h, id);
    FrameMinus(h, multiset{id}, parts);
    PutAllFrees(h - {id}, parts);
    MinusTwice(h, multiset{id}, IdsAll(parts));
  }

  lemma {:induction false} PutAllFrees(h: Heap, os: seq<Own>)
    requires HoldsAll(h, os) && Distinct(IdsAll(os))
    ensures PutAll(h, Refs(os)) == Minus(h, IdsAll(os))
    decreases os, |os|
  {
    hide Holds, Ids, Minus, Distinct, Put;
    if os == [] {
      MinusOne(h, 0);
    } else {
      var rest := os[1..];
      assert Refs(os)[1..] == Refs(rest);
      FrameMinus(h, Ids(os[0]), rest);
      PutFrees(h, os[0]);
      PutAllFrees(Minus(h, Ids(os[0])), rest);
      MinusTwice(h, Ids(os[0]), IdsAll(rest));
    }
  }
}
