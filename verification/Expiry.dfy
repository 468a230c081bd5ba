/** The timers of src/memqueue_expiry.c: three trees of deadline buckets, and the cleaner that
    sleeps until the next deadline.

    The clock is the parameter `now`, in milliseconds since the server started, read once per
    call.  Objects are numbers; a callback (`memqueue_msg_release`, `memqueue_release`,
    `consumer_expired`) is recorded in the sequence of expired objects, and of its effects
    only the one on the timers is modelled: an expired consumer posts a message that lives for
    2000 ms.
  */
module Expiry {
  import opened Wrappers
  import opened RbShape
  import opened RbMemory
  import opened RbSeek
  import opened RbSpine
  import opened RbTree

  datatype ObjType = MsgType | MemqueueType | ConsumerType

  /** What is left of `t` after a pass over the nodes `s`: the due ones are erased, one by one. */
  function Swept(t: Tree, s: seq<RbNode>, now: nat): Tree
    decreases |s|
  {
    if s == [] then t
    else Swept(if s[0].msecs <= now then Erased(t, s[0]) else t, s[1..], now)
  }

  function Due(s: seq<RbNode>, now: nat): seq<RbNode> {
    if s == [] then []
    else (if s[0].msecs <= now then [s[0]] else []) + Due(s[1..], now)
  }

  ghost function DueSet(s: seq<RbNode>, now: nat): set<RbNode> {
    set n | n in Due(s, now)
  }

  lemma {:induction false} DueMembers(s: seq<RbNode>, now: nat, n: RbNode)
    ensures n in Due(s, now) <==> n in s && n.msecs <= now
  {
    if s != [] {
      DueMembers(s[1..], now, n);
      assert n in s <==> n == s[0] || n in s[1..];
    }
  }

  lemma {:induction false} ErasedSet(t: Tree, n: RbNode)
    requires Sound(t) && n in Inorder(t)
    ensures Sound(Erased(t, n)) && NodeSet(Erased(t, n)) == NodeSet(t) - {n}
  {
    ErasedSound(t, n);
    OneMoreSet(Inorder(Erased(t, n)), n, Inorder(t));
    OrderedAscending(t, -1, 0x1_0000_0000);
  }

  predicate Descending(s: seq<RbNode>) {
    forall i, j :: 0 <= i < j < |s| ==> s[i].msecs > s[j].msecs
  }

  /** A pass removes exactly the due nodes it meets. */
  lemma {:induction false} SweptSound(t: Tree, s: seq<RbNode>, now: nat)
    requires Sound(t) && Descending(s) && forall n :: n in s ==> n in NodeSet(t)
    ensures Sound(Swept(t, s, now))
    ensures NodeSet(Swept(t, s, now)) == NodeSet(t) - DueSet(s, now)
    decreases |s|
  {
    if s != [] {
      var t' := if s[0].msecs <= now then Erased(t, s[0]) else t;
      assert s[0] in s;
      if s[0].msecs <= now {
        ErasedSet(t, s[0]);
      }
      assert forall n :: n in s[1..] ==> n in s && n != s[0];
      SweptSound(t', s[1..], now);
    }
  }

  lemma {:induction false} SpineDescends(t: Tree, lo: int, hi: int)
    requires Ordered(t, lo, hi)
    ensures Descending(Spine(t))
    ensures forall n :: n in Spine(t) ==> n in NodeSet(t) && lo < n.msecs < hi
  {
    if t.Fork? {
      SpineDescends(t.left, lo, t.node.msecs);
      assert forall i :: 0 < i < |Spine(t)| ==> Spine(t)[i] == Spine(t.left)[i - 1];
    }
  }

  /** One pass over the left spine: what goes is due, and the earliest bucket goes if it is due. */
  lemma {:induction false} SpinePass(t: Tree, now: nat)
    requires Sound(t)
    ensures Sound(Swept(t, Spine(t), now))
    ensures NodeSet(Swept(t, Spine(t), now)) == NodeSet(t) - DueSet(Spine(t), now)
    ensures forall n :: n in Due(Spine(t), now) <==> n in Spine(t) && n.msecs <= now
    ensures t.Fork? && Inorder(t)[0].msecs <= now ==> Inorder(t)[0] in Due(Spine(t), now)
  {
    SpineDescends(t, -1, 0x1_0000_0000);
    SweptSound(t, Spine(t), now);
    forall n
      ensures n in Due(Spine(t), now) <==> n in Spine(t) && n.msecs <= now
    {
      DueMembers(Spine(t), now, n);
    }
    if t.Fork? {
      SpineEndsFirst(t);
      assert Inorder(t)[0] in Spine(t);
      DueMembers(Spine(t), now, Inorder(t)[0]);
    }
  }

  /** The contents of all buckets of one tree. */
  ghost function Contents(root: RbRoot): map<RbNode, seq<nat>>
    reads root, root.mem.Keys
  {
    map n | n in root.mem.Keys :: n.objs
  }

  /** A tree has gained nothing but buckets for `due`, lost nothing, and no other bucket has changed. */
  ghost predicate OnlyPosted(before: map<RbNode, seq<nat>>, after: map<RbNode, seq<nat>>, due: nat) {
    && before.Keys <= after.Keys
    && (forall n :: n in after && n !in before ==> n.msecs == due)
    && forall n :: n in before && n.msecs != due ==> after[n] == before[n]
  }

  lemma OnlyPostedTwice(a: map<RbNode, seq<nat>>, b: map<RbNode, seq<nat>>, c: map<RbNode, seq<nat>>, due: nat)
    requires OnlyPosted(a, b, due) && OnlyPosted(b, c, due)
    ensures OnlyPosted(a, c, due)
  {
  }

  /** The objects in the buckets `s`, in that order. */
  function Gather(contents: map<RbNode, seq<nat>>, s: seq<RbNode>): seq<nat> {
    if s == [] then []
    else (if s[0] in contents then contents[s[0]] else []) + Gather(contents, s[1..])
  }

  lemma {:induction false} GatherStep(contents: map<RbNode, seq<nat>>, s: seq<RbNode>, k: nat, now: nat)
    requires k < |s| && s[k] in contents
    ensures Gather(contents, Due(s[k..], now)) ==
      (if s[k].msecs <= now then contents[s[k]] else []) + Gather(contents, Due(s[k + 1..], now))
  {
    var d := Due(s[k + 1..], now);
    assert s[k..][1..] == s[k + 1..];
    assert ([s[k]] + d)[1..] == d && [] + d == d;
  }

  /** Following the left child pointers of a tree on the heap. */
  lemma SpineLink(root: RbRoot, k: nat)
    requires root.Valid() && k < |Spine(root.tree)|
    ensures Spine(root.tree)[k] in root.mem
    ensures Spine(root.tree)[k].left == if k + 1 < |Spine(root.tree)| then Spine(root.tree)[k + 1] else null
  {
    var t := root.tree;
    SeekSpine(Top, t, k);
    root.SinkTo(Top, t, Spine(t)[k].msecs);
    var (z, u) := Seek(Top, t, Spine(t)[k].msecs);
    root.LookDown(z, u);
    assert Spine(u.left) == Spine(t)[k + 1..];
  }

  /** The timers of `memqueue_ins_t`, and the state of the cleaner thread: whether it waits on
      the condition, until when (`None` is for ever), and whether it has been signalled since. */
  class Timers {
    const msgs: RbRoot
    const memqueues: RbRoot
    const consumers: RbRoot
    var uniqueMsgId: nat
    var parked: bool
    var wake: Option<nat>
    var signalled: bool

    function RootOf(kind: ObjType): RbRoot {
      match kind
      case MsgType => msgs
      case MemqueueType => memqueues
      case ConsumerType => consumers
    }

    ghost function Nodes(): set<RbNode>
      reads msgs, memqueues, consumers
    {
      msgs.mem.Keys + memqueues.mem.Keys + consumers.mem.Keys
    }

    ghost predicate Valid()
      reads this, msgs, memqueues, consumers, Nodes()`parent, Nodes()`red, Nodes()`left, Nodes()`right
    {
      && msgs != memqueues && msgs != consumers && memqueues != consumers
      && msgs.Valid() && memqueues.Valid() && consumers.Valid()
      && msgs.mem.Keys !! memqueues.mem.Keys && msgs.mem.Keys !! consumers.mem.Keys
      && memqueues.mem.Keys !! consumers.mem.Keys
    }

    /** A cleaner that waits unsignalled wakes up no later than the earliest deadline, and waits
        for ever only if there is none. */
    ghost predicate SleepSafe()
      reads this, msgs, memqueues, consumers, Nodes()`parent, Nodes()`red, Nodes()`left, Nodes()`right
    {
      parked && !signalled ==> WakesFor(msgs.mem.Keys) && WakesFor(memqueues.mem.Keys) && WakesFor(consumers.mem.Keys)
    }

    ghost predicate WakesFor(nodes: set<RbNode>)
      reads this
    {
      forall n :: n in nodes ==> wake.Some? && wake.value <= n.msecs
    }

    /** The cleaner starts out waiting, with nothing to wait for. */
    constructor ()
      ensures Valid() && SleepSafe() && Nodes() == {} && fresh(msgs) && fresh(memqueues) && fresh(consumers)
    {
      msgs := new RbRoot();
      memqueues := new RbRoot();
      consumers := new RbRoot();
      uniqueMsgId, parked, wake, signalled := 0, true, None, false;
    }

    /** `lthread_cond_signal`: lost if nobody waits. */
    method Signal()
      modifies this`signalled
      ensures signalled == (old(signalled) || parked)
    {
      if parked {
        signalled := true;
      }
    }

    /** The descent to the earliest bucket of one tree. */
    method Earliest(root: RbRoot) returns (data: RbNode?, ghost steps: nat)
      requires root.Valid()
      ensures Logarithmic(steps, |Inorder(root.tree)|)
      ensures data == null <==> root.mem.Keys == {}
      ensures data != null ==> data in root.mem && forall n :: n in root.mem ==> data.msecs <= n.msecs
    {
      var node := root.node;
      ghost var s, k := Spine(root.tree), 0;
      data := null;
      SpineFacts(root);
      while node != null
        invariant 0 <= k <= |s|
        invariant node == if k < |s| then s[k] else null
        invariant data == if k > 0 then s[k - 1] else null
        decreases |s| - k
      {
        SpineLink(root, k);
        data := node;
        node := node.left;
        k := k + 1;
      }
      SpineLow(root.tree);
      steps := k;
      StepsBound(root.tree, steps);
    }

    lemma SpineFacts(root: RbRoot)
      requires root.Valid()
      ensures root.tree.Leaf? <==> root.mem.Keys == {}
      ensures root.node == if root.tree.Fork? then Spine(root.tree)[0] else null
      ensures root.tree.Fork? ==>
        var first := Spine(root.tree)[|Spine(root.tree)| - 1];
        first in root.mem && first == Inorder(root.tree)[0] && forall n :: n in root.mem ==> first.msecs <= n.msecs
    {
      var t := root.tree;
      if t.Fork? {
        SpineEndsFirst(t);
        OrderedAscending(t, -1, 0x1_0000_0000);
        assert Inorder(t)[0] in Inorder(t) && t.node in Inorder(t);
      }
    }

    /** `sched_get_min_timeout` */
    method SchedGetMinTimeout(now: nat) returns (min: nat)
      requires Valid()
      ensures min == 0 <==> Nodes() == {}
      ensures (exists n :: n in Nodes() && n.msecs <= now) ==> min == 1
      ensures Nodes() != {} && (forall n :: n in Nodes() ==> n.msecs > now) ==>
        (forall n :: n in Nodes() ==> now + min <= n.msecs) && exists n :: n in Nodes() && n.msecs == now + min
    {
      min := 0;
      var roots := [msgs, memqueues, consumers];
      ghost var seen: set<RbNode> := {};
      for i := 0 to 3
        invariant seen == (if i > 0 then msgs.mem.Keys else {}) + (if i > 1 then memqueues.mem.Keys else {})
                          + if i > 2 then consumers.mem.Keys else {}
        invariant min == 0 <==> seen == {}
        invariant forall n :: n in seen ==> now + min <= n.msecs && n.msecs > now
        invariant seen != {} ==> exists n :: n in seen && n.msecs == now + min
      {
        var data;
        ghost var steps;
        data, steps := Earliest(roots[i]);
        if data != null {
          if data.msecs > now {
            if min > data.msecs - now || min == 0 {
              min := data.msecs - now;
            }
          } else {
            assert data in Nodes();
            return 1;
          }
        }
        seen := seen + roots[i].mem.Keys;
      }
      assert seen == Nodes();
    }

    /** The bucket for deadline `t`, made if need be, gets `obj` as its first object. */
    static method PutInBucket(root: RbRoot, t: Msecs, obj: nat) returns (bucket: RbNode)
      requires root.Valid()
      modifies root, root.mem.Keys
      ensures root.Valid() && bucket.msecs == t && (bucket in old(root.mem.Keys) || fresh(bucket))
      ensures root.mem.Keys == old(root.mem.Keys) + {bucket}
      ensures bucket.objs == [obj] + if bucket in old(root.mem.Keys) then old(bucket.objs) else []
      ensures forall n :: n in old(root.mem.Keys) && n != bucket ==> n.objs == old(n.objs)
    {
      var tmp;
      ghost var steps;
      tmp, steps := root.Search(t);
      if tmp == null {
        bucket := new RbNode(t);
        InsertedNodes(root.tree, bucket);
        steps := root.Insert(bucket);
        bucket.objs := [obj];
      } else {
        bucket := tmp;
        bucket.objs := [obj] + bucket.objs;
      }
    }

    static lemma InsertedNodes(t: Tree, n: RbNode)
      requires Sound(t) && forall x :: x in Inorder(t) ==> x.msecs != n.msecs
      ensures NodeSet(Inserted(t, n)) == NodeSet(t) + {n}
    {
      InsertedSound(t, n);
      OneMoreSet(Inorder(t), n, Inorder(Inserted(t, n)));
    }

    /** Wakes the cleaner if nothing is scheduled or the next deadline is more than `msecs` away. */
    method SignalIfSooner(msecs: nat, now: nat)
      requires Valid()
      modifies this`signalled
      ensures Valid() && (old(SleepSafe()) ==> SleepSafe())
      ensures old(SleepSafe()) && parked && !signalled ==> wake.Some? && wake.value <= now + msecs
    {
      var min := SchedGetMinTimeout(now);
      if min == 0 || min > msecs {
        Signal();
      }
    }

    /** `obj_sched_expire`: `obj` comes first in the bucket for `now + msecs`, which is returned. */
    method ObjSchedExpire(obj: nat, msecs: nat, kind: ObjType, now: nat) returns (ghost bucket: RbNode)
      requires Valid() && now + msecs < 0x1_0000_0000
      modifies this`signalled, RootOf(kind), RootOf(kind).mem.Keys
      ensures Valid() && (old(SleepSafe()) ==> SleepSafe())
      ensures bucket.msecs == now + msecs && (bucket in old(RootOf(kind).mem.Keys) || fresh(bucket))
      ensures RootOf(kind).mem.Keys == old(RootOf(kind).mem.Keys) + {bucket}
      ensures bucket.objs == [obj] + if bucket in old(RootOf(kind).mem.Keys) then old(bucket.objs) else []
      ensures forall n :: n in old(RootOf(kind).mem.Keys) && n != bucket ==> n.objs == old(n.objs)
    {
      hide RbRoot.Valid;
      SignalIfSooner(msecs, now);
      bucket := PutInBucket(RootOf(kind), now + msecs, obj);
    }

    /** `memqueue_msg_release` or `memqueue_release` for the objects of one due bucket, first to last. */
    static method ReleaseObjs(data: RbNode) returns (expired: seq<nat>)
      modifies data`objs
      ensures data.objs == [] && expired == old(data.objs)
    {
      expired := [];
      while |data.objs| > 0
        invariant expired + data.objs == old(data.objs)
        decreases |data.objs|
      {
        expired := expired + [data.objs[0]];
        data.objs := data.objs[1..];
      }
    }

    /** `consumer_expired` for the objects of one due bucket; each posts a message. */
    method ExpireConsumers(data: RbNode, now: nat) returns (expired: seq<nat>)
      requires Valid() && data in consumers.mem.Keys && now + 2000 < 0x1_0000_0000
      modifies this`signalled, this`uniqueMsgId, data`objs, msgs, msgs.mem.Keys
      ensures Valid() && (old(SleepSafe()) ==> SleepSafe())
      ensures data.objs == [] && expired == old(data.objs)
      ensures OnlyPosted(old(Contents(msgs)), Contents(msgs), now + 2000)
      ensures forall n :: n in msgs.mem.Keys ==> n in old(msgs.mem.Keys) || fresh(n)
    {
      hide RbRoot.Valid, OnlyPosted;
      expired := [];
      ghost var before := Contents(msgs);
      OnlyPostedRefl(before, now + 2000);
      while |data.objs| > 0
        invariant Valid() && (old(SleepSafe()) ==> SleepSafe())
        invariant expired + data.objs == old(data.objs)
        invariant OnlyPosted(before, Contents(msgs), now + 2000)
        invariant forall n :: n in msgs.mem.Keys ==> n in old(msgs.mem.Keys) || fresh(n)
        decreases |data.objs|
      {
        ghost var between := Contents(msgs);
        var obj := ExpireConsumer(data, now);
        OnlyPostedTwice(before, between, Contents(msgs), now + 2000);
        expired := expired + [obj];
      }
    }

    static lemma OnlyPostedRefl(a: map<RbNode, seq<nat>>, due: nat)
      ensures OnlyPosted(a, a, due)
    {
    }

    method ExpireConsumer(data: RbNode, now: nat) returns (obj: nat)
      requires Valid() && data in consumers.mem.Keys && now + 2000 < 0x1_0000_0000 && |data.objs| > 0
      modifies this`signalled, this`uniqueMsgId, data`objs, msgs, msgs.mem.Keys
      ensures Valid() && (old(SleepSafe()) ==> SleepSafe())
      ensures [obj] + data.objs == old(data.objs)
      ensures OnlyPosted(old(Contents(msgs)), Contents(msgs), now + 2000)
      ensures forall n :: n in msgs.mem.Keys ==> n in old(msgs.mem.Keys) || fresh(n)
    {
      hide RbRoot.Valid;
      obj := data.objs[0];
      data.objs := data.objs[1..];
      uniqueMsgId := uniqueMsgId + 1;
      ghost var _ := ObjSchedExpire(uniqueMsgId, 2000, MsgType, now);
    }

    /** What an expired object of this kind may touch besides its own tree. */
    ghost function Posts(kind: ObjType): set<object>
      reads msgs
    {
      if kind.ConsumerType? then {msgs} + msgs.mem.Keys else {}
    }

    /** Everything in a due bucket expires, and `possibly_node_free` takes the empty bucket out. */
    method ExpireBucket(data: RbNode, kind: ObjType, now: nat) returns (expired: seq<nat>)
      requires Valid() && data in RootOf(kind).mem.Keys && now + 2000 < 0x1_0000_0000
      modifies this`signalled, this`uniqueMsgId, RootOf(kind), RootOf(kind).mem.Keys, Posts(kind)
      ensures Valid() && (old(SleepSafe()) ==> SleepSafe())
      ensures RootOf(kind).tree == Erased(old(RootOf(kind).tree), data) && expired == old(data.objs)
      ensures RootOf(kind).mem.Keys == old(RootOf(kind).mem.Keys) - {data}
      ensures forall n :: n in RootOf(kind).mem.Keys ==> n.objs == old(n.objs)
      ensures kind.ConsumerType? ==> OnlyPosted(old(Contents(msgs)), Contents(msgs), now + 2000)
      ensures forall o :: o in Posts(kind) ==> o in old(Posts(kind)) || fresh(o)
    {
      hide RbRoot.Valid;
      if kind.ConsumerType? {
        expired := ExpireConsumers(data, now);
      } else {
        expired := ReleaseObjs(data);
      }
      assert data.objs == [];
      PossiblyNodeFree(data, kind);
    }

    /** `possibly_node_free` */
    method PossiblyNodeFree(data: RbNode, kind: ObjType)
      requires Valid() && data in RootOf(kind).mem.Keys
      modifies RootOf(kind), RootOf(kind).mem.Keys`left, RootOf(kind).mem.Keys`right
      modifies RootOf(kind).mem.Keys`parent, RootOf(kind).mem.Keys`red
      ensures Valid() && (old(SleepSafe()) ==> SleepSafe())
      ensures RootOf(kind).tree == if data.objs == [] then Erased(old(RootOf(kind).tree), data) else old(RootOf(kind).tree)
      ensures RootOf(kind).mem.Keys == if data.objs == [] then old(RootOf(kind).mem.Keys) - {data} else old(RootOf(kind).mem.Keys)
    {
      hide RbRoot.Valid;
      if data.objs == [] {
        EraseNode(RootOf(kind), data);
      }
    }

    static method EraseNode(root: RbRoot, data: RbNode)
      requires root.Valid() && data in root.mem.Keys
      modifies root, root.mem.Keys`left, root.mem.Keys`right, root.mem.Keys`parent, root.mem.Keys`red
      ensures root.Valid() && root.tree == Erased(old(root.tree), data)
      ensures root.mem.Keys == old(root.mem.Keys) - {data}
    {
      ErasedSet(root.tree, data);
      root.Erase(data);
    }

    /** One node of the walk down the spine `s`. */
    method Visit(data: RbNode, kind: ObjType, now: nat, ghost s: seq<RbNode>, ghost k: nat)
      returns (expired: seq<nat>, next: RbNode?)
      requires Valid() && now + 2000 < 0x1_0000_0000
      requires k < |s| && s[k] == data && EndsWith(Spine(RootOf(kind).tree), s[k..])
      modifies this`signalled, this`uniqueMsgId, RootOf(kind), RootOf(kind).mem.Keys, Posts(kind)
      ensures Valid() && (old(SleepSafe()) ==> SleepSafe())
      ensures EndsWith(Spine(RootOf(kind).tree), s[k + 1..]) && next == FirstOf(s[k + 1..])
      ensures Swept(RootOf(kind).tree, s[k + 1..], now) == Swept(old(RootOf(kind).tree), s[k..], now)
      ensures data in old(RootOf(kind).mem.Keys) && expired == if data.msecs <= now then old(data.objs) else []
      ensures RootOf(kind).mem.Keys <= old(RootOf(kind).mem.Keys)
      ensures forall n :: n in RootOf(kind).mem.Keys ==> n.objs == old(n.objs)
      ensures kind.ConsumerType? ==> OnlyPosted(old(Contents(msgs)), Contents(msgs), now + 2000)
      ensures forall o :: o in Posts(kind) ==> o in old(Posts(kind)) || fresh(o)
    {
      hide RbRoot.Valid;
      StepDown(RootOf(kind), s, k);
      next := data.left;
      expired := [];
      if data.msecs <= now {
        expired := ExpireBucket(data, kind, now);
      }
    }

    /** `objs_expire`: one walk down the left spine of the tree of `kind`.  Although the tree
        rebalances under the walk, it meets exactly the spine there was at the start. */
    method ObjsExpire(kind: ObjType, now: nat) returns (expired: seq<nat>)
      requires Valid() && now + 2000 < 0x1_0000_0000
      modifies this`signalled, this`uniqueMsgId, RootOf(kind), RootOf(kind).mem.Keys, Posts(kind)
      ensures Valid() && (old(SleepSafe()) ==> SleepSafe())
      ensures RootOf(kind).tree == Swept(old(RootOf(kind).tree), Spine(old(RootOf(kind).tree)), now)
      ensures expired == Gather(old(Contents(RootOf(kind))), Due(Spine(old(RootOf(kind).tree)), now))
      ensures RootOf(kind).mem.Keys == old(RootOf(kind).mem.Keys) - DueSet(Spine(old(RootOf(kind).tree)), now)
      ensures forall n :: n in RootOf(kind).mem.Keys ==> n.objs == old(n.objs)
      ensures kind.ConsumerType? ==> OnlyPosted(old(Contents(msgs)), Contents(msgs), now + 2000)
      ensures forall o :: o in Posts(kind) ==> o in old(Posts(kind)) || fresh(o)
      ensures forall n :: n in old(RootOf(kind).mem.Keys) && n !in RootOf(kind).mem.Keys ==> n.msecs <= now
      ensures (exists n :: n in old(RootOf(kind).mem.Keys) && n.msecs <= now) ==>
        exists n :: n in old(RootOf(kind).mem.Keys) && n !in RootOf(kind).mem.Keys
    {
      hide RbRoot.Valid, Timers.Valid, SleepSafe, Swept, Spine, Due, DueSet, Gather, EndsWith, OnlyPosted, Sound, NodeSet;
      var root := RootOf(kind);
      ghost var s, k, contents, posted := Spine(root.tree), 0, Contents(root), Contents(msgs);
      var node := root.node;
      expired := [];
      WalkStart(kind);
      OnlyPostedRefl(posted, now + 2000);
      while node != null
        invariant Valid() && (old(SleepSafe()) ==> SleepSafe())
        invariant 0 <= k <= |s| && node == FirstOf(s[k..]) && EndsWith(Spine(root.tree), s[k..])
        invariant Swept(root.tree, s[k..], now) == Swept(old(root.tree), s, now)
        invariant expired + Gather(contents, Due(s[k..], now)) == Gather(contents, Due(s, now))
        invariant root.mem.Keys <= contents.Keys && forall n :: n in root.mem.Keys ==> n.objs == contents[n]
        invariant kind.ConsumerType? ==> OnlyPosted(posted, Contents(msgs), now + 2000)
        invariant forall o :: o in Posts(kind) ==> o in old(Posts(kind)) || fresh(o)
        decreases |s| - k
      {
        var some;
        ghost var between := Contents(msgs);
        GatherStep(contents, s, k, now);
        some, node := Visit(node, kind, now, s, k);
        if kind.ConsumerType? {
          OnlyPostedTwice(posted, between, Contents(msgs), now + 2000);
        }
        k := k + 1;
        ghost var rest := Gather(contents, Due(s[k..], now));
        assert (expired + some) + rest == expired + (some + rest);
        expired := expired + some;
      }
      Exhausted(root.tree, s, k, now, contents);
      WalkStart(kind);
      PassFacts(old(root.tree), now);
    }

    /** Which buckets a pass takes out, seen from the nodes there were. */
    static lemma PassFacts(t: Tree, now: nat)
      requires Sound(t)
      ensures NodeSet(Swept(t, Spine(t), now)) == NodeSet(t) - DueSet(Spine(t), now)
      ensures forall n :: n in DueSet(Spine(t), now) ==> n.msecs <= now && n in NodeSet(t)
      ensures (exists n :: n in NodeSet(t) && n.msecs <= now) ==> exists n :: n in NodeSet(t) && n in DueSet(Spine(t), now)
    {
      SpinePass(t, now);
      SpineDescends(t, -1, 0x1_0000_0000);
      forall n | n in DueSet(Spine(t), now)
        ensures n.msecs <= now && n in NodeSet(t)
      {
        DueMembers(Spine(t), now, n);
      }
      if n :| n in NodeSet(t) && n.msecs <= now {
        OrderedAscending(t, -1, 0x1_0000_0000);
        assert Inorder(t)[0].msecs <= n.msecs && Inorder(t)[0] in Inorder(t);
        assert Inorder(t)[0] in NodeSet(t) && Inorder(t)[0] in DueSet(Spine(t), now);
      }
    }

    lemma WalkStart(kind: ObjType)
      requires Valid()
      ensures
        var s := Spine(RootOf(kind).tree);
        && RootOf(kind).node == FirstOf(s[0..]) && EndsWith(s, s[0..]) && s[0..] == s
        && Sound(RootOf(kind).tree) && RootOf(kind).mem.Keys == NodeSet(RootOf(kind).tree)
        && forall n :: n in s ==> n in RootOf(kind).mem.Keys
    {
      SpineFacts(RootOf(kind));
      SpineDescends(RootOf(kind).tree, -1, 0x1_0000_0000);
    }

    static lemma Exhausted(t: Tree, s: seq<RbNode>, k: nat, now: nat, contents: map<RbNode, seq<nat>>)
      requires k <= |s| && FirstOf(s[k..]) == null
      ensures Swept(t, s[k..], now) == t && Gather(contents, Due(s[k..], now)) == []
    {
    }

    static function FirstOf(s: seq<RbNode>): RbNode? {
      if s == [] then null else s[0]
    }

    static lemma StepDown(root: RbRoot, s: seq<RbNode>, k: nat)
      requires root.Valid() && k < |s| && EndsWith(Spine(root.tree), s[k..])
      ensures s[k] in root.mem && s[k].left == FirstOf(s[k + 1..]) && s[k..] == [s[k]] + s[k + 1..]
      ensures EndsWith(Spine(root.tree), s[k + 1..]) && EndsWith(Spine(Erased(root.tree, s[k])), s[k + 1..])
    {
      var p, j := Spine(root.tree), |Spine(root.tree)| - |s[k..]|;
      assert p[j] == s[k..][0] == s[k];
      assert p[j + 1..] == s[k..][1..] == s[k + 1..];
      SpineLink(root, j);
      ErasedSpine(root.tree, j);
    }

    // ---------- rescheduling ----------

    /** `s` without the first `x` (`LIST_REMOVE`). */
    static function WithoutFirst(s: seq<nat>, x: nat): seq<nat> {
      if s == [] then [] else if s[0] == x then s[1..] else [s[0]] + WithoutFirst(s[1..], x)
    }

    /** `memqueue_resched` and `consumer_resched`: the object leaves the bucket that its
        `expiry_node` names, which goes if it is empty then, and is scheduled anew. */
    method Resched(obj: nat, expiryNode: RbNode?, expiry: nat, kind: ObjType, now: nat) returns (ghost bucket: RbNode?)
      requires Valid() && now + expiry < 0x1_0000_0000
      requires expiryNode != null ==> expiryNode in RootOf(kind).mem.Keys && obj in expiryNode.objs
      modifies this`signalled, RootOf(kind), RootOf(kind).mem.Keys
      ensures Valid() && (old(SleepSafe()) ==> SleepSafe())
      ensures expiryNode == null ==> bucket == null && Contents(RootOf(kind)) == old(Contents(RootOf(kind)))
      ensures expiryNode != null ==>
        && bucket != null && bucket.msecs == now + expiry && bucket in RootOf(kind).mem.Keys
        && (bucket in old(RootOf(kind).mem.Keys) || fresh(bucket))
        && bucket.objs == [obj] + (if bucket == expiryNode then WithoutFirst(old(bucket.objs), obj)
                                   else if bucket in old(RootOf(kind).mem.Keys) then old(bucket.objs) else [])
      ensures expiryNode != null && bucket != expiryNode ==>
        if WithoutFirst(old(expiryNode.objs), obj) == [] then expiryNode !in RootOf(kind).mem.Keys
        else expiryNode in RootOf(kind).mem.Keys && expiryNode.objs == WithoutFirst(old(expiryNode.objs), obj)
      ensures forall n :: n in old(RootOf(kind).mem.Keys) && n != expiryNode && n != bucket ==>
        n in RootOf(kind).mem.Keys && n.objs == old(n.objs)
    {
      hide RbRoot.Valid;
      if expiryNode == null {
        return null;
      }
      expiryNode.objs := WithoutFirst(expiryNode.objs, obj);
      PossiblyNodeFree(expiryNode, kind);
      bucket := ObjSchedExpire(obj, expiry, kind, now);
    }

    // ---------- the cleaner thread ----------

    ghost function DueNodes(now: nat): set<RbNode>
      reads msgs, memqueues, consumers
    {
      DueAmong(Nodes(), now)
    }

    /** `lthread_cond_wait` returns: the cleaner has been signalled or its time has come. */
    method Wake(now: nat)
      requires Valid() && parked && (signalled || (wake.Some? && wake.value <= now))
      modifies this`parked, this`signalled
      ensures Valid() && !parked && !signalled
    {
      parked, signalled := false, false;
    }

    /** The end of a round of `obj_cleaner` and the wait at the head of the next one.  It stays awake, too, if the next
        deadline is just one millisecond away. */
    method Park(now: nat)
      requires Valid() && !parked
      modifies this`parked, this`wake, this`signalled
      ensures Valid() && SleepSafe()
      ensures parked ==> !signalled
      ensures parked <==> forall n :: n in Nodes() ==> n.msecs > now + 1
    {
      var sleep := SchedGetMinTimeout(now);
      if sleep != 1 {
        parked, signalled := true, false;
        wake := if sleep == 0 then None else Some(now + sleep);
      }
    }

    /** One pass over one tree, for the due buckets of all three. */
    method CleanTree(kind: ObjType, now: nat) returns (expired: seq<nat>)
      requires Valid() && !parked && now + 2000 < 0x1_0000_0000
      modifies this`signalled, this`uniqueMsgId, msgs, memqueues, consumers, Nodes()
      ensures Valid() && !parked && DueNodes(now) <= old(DueNodes(now))
      ensures (exists n :: n in old(RootOf(kind).mem.Keys) && n.msecs <= now) ==> DueNodes(now) < old(DueNodes(now))
      ensures kind != MsgType ==> old(msgs.mem.Keys) <= msgs.mem.Keys
      ensures kind != MemqueueType ==> memqueues.mem.Keys == old(memqueues.mem.Keys)
      ensures kind != ConsumerType ==> consumers.mem.Keys == old(consumers.mem.Keys)
      ensures forall n :: n in old(Nodes()) && n.msecs > now ==> n in Nodes()
      ensures forall n :: n in Nodes() ==> n in old(Nodes()) || fresh(n)
    {
      hide RbRoot.Valid, Swept, Spine, Due, DueSet, Gather, SleepSafe, OnlyPosted, DueAmong, Contents;
      ghost var before := Contents(msgs);
      KeysOf(msgs);
      expired := ObjsExpire(kind, now);
      KeysOf(msgs);
      if kind.ConsumerType? {
        PostedKeys(before, Contents(msgs), now + 2000);
      }
      PassSets(kind, now, old(msgs.mem.Keys), old(memqueues.mem.Keys), old(consumers.mem.Keys),
               msgs.mem.Keys, memqueues.mem.Keys, consumers.mem.Keys);
    }

    static lemma KeysOf(root: RbRoot)
      ensures Contents(root).Keys == root.mem.Keys
    {
    }

    static lemma PostedKeys(before: map<RbNode, seq<nat>>, after: map<RbNode, seq<nat>>, due: nat)
      requires OnlyPosted(before, after, due)
      ensures before.Keys <= after.Keys
      ensures forall n :: n in after.Keys && n !in before.Keys ==> n.msecs == due
    {
    }

    static ghost function DueAmong(s: set<RbNode>, now: nat): set<RbNode> {
      set n | n in s && n.msecs <= now
    }

    /** What one pass does to the three sets of buckets `m`, `q` and `c`. */
    static lemma PassSets(kind: ObjType, now: nat, m: set<RbNode>, q: set<RbNode>, c: set<RbNode>,
                          m': set<RbNode>, q': set<RbNode>, c': set<RbNode>)
      requires m !! q && m !! c && q !! c && (m' - m) !! (m + q + c)
      requires if kind.MsgType? then m' <= m else m <= m' && forall n :: n in m' && n !in m ==> n.msecs == now + 2000
      requires if kind.MemqueueType? then q' <= q else q' == q
      requires if kind.ConsumerType? then c' <= c else c' == c
      requires forall n :: n in m + q + c && n !in m' + q' + c' ==> n.msecs <= now
      ensures DueAmong(m' + q' + c', now) <= DueAmong(m + q + c, now)
      ensures Pick(kind, m, q, c) != Pick(kind, m', q', c') ==> DueAmong(m' + q' + c', now) < DueAmong(m + q + c, now)
      ensures forall n :: n in m + q + c && n.msecs > now ==> n in m' + q' + c'
    {
      var x, x' := Pick(kind, m, q, c), Pick(kind, m', q', c');
      if x != x' && x' <= x {
        var g :| g in x && g !in x';
        assert g in m + q + c && g !in m' + q' + c';
        assert g in DueAmong(m + q + c, now) && g !in DueAmong(m' + q' + c', now);
      }
    }

    static function Pick(kind: ObjType, m: set<RbNode>, q: set<RbNode>, c: set<RbNode>): set<RbNode> {
      match kind
      case MsgType => m
      case MemqueueType => q
      case ConsumerType => c
    }

    /** The three passes of a round of `obj_cleaner` */
    method CleanTrees(now: nat) returns (expired: seq<nat>)
      requires Valid() && !parked && now + 2000 < 0x1_0000_0000
      modifies this`signalled, this`uniqueMsgId, msgs, memqueues, consumers, Nodes()
      ensures Valid() && !parked && DueNodes(now) <= old(DueNodes(now))
      ensures old(DueNodes(now)) != {} ==> DueNodes(now) < old(DueNodes(now))
      ensures forall n :: n in old(Nodes()) && n.msecs > now ==> n in Nodes()
      ensures forall n :: n in Nodes() ==> n in old(Nodes()) || fresh(n)
    {
      hide RbRoot.Valid, Timers.Valid;
      var a := CleanTree(MsgType, now);
      var b := CleanTree(MemqueueType, now);
      var c := CleanTree(ConsumerType, now);
      expired := a + b + c;
    }

    /** A round of `obj_cleaner`.  While the clock stands still, every round takes out a due bucket if there is one, and
        nothing new becomes due. */
    method CleanerRound(now: nat) returns (expired: seq<nat>)
      requires Valid() && !parked && now + 2000 < 0x1_0000_0000
      modifies this`signalled, this`uniqueMsgId, this`parked, this`wake, msgs, memqueues, consumers, Nodes()
      ensures Valid() && SleepSafe()
      ensures DueNodes(now) <= old(DueNodes(now))
      ensures old(DueNodes(now)) != {} ==> DueNodes(now) < old(DueNodes(now))
      ensures parked <==> forall n :: n in Nodes() ==> n.msecs > now + 1
      ensures parked ==> DueNodes(now) == {}
      ensures forall n :: n in old(Nodes()) && n.msecs > now ==> n in Nodes()
      ensures forall n :: n in Nodes() ==> n in old(Nodes()) || fresh(n)
    {
      hide RbRoot.Valid, Timers.Valid, SleepSafe;
      expired := CleanTrees(now);
      Park(now);
    }

    /** `obj_cleaner`, while the clock stands still and nothing else runs: up to `k` rounds, until it goes to sleep.
        Each takes out a due bucket, so that after as many rounds as there were due buckets none is due. */
    method Cleaner(now: nat, k: nat) returns (expired: seq<nat>)
      requires Valid() && !parked && now + 2000 < 0x1_0000_0000
      modifies this`signalled, this`uniqueMsgId, this`parked, this`wake, msgs, memqueues, consumers, Nodes()
      ensures Valid() && DueNodes(now) <= old(DueNodes(now))
      ensures DueNodes(now) == {} || |DueNodes(now)| + k <= old(|DueNodes(now)|)
      ensures parked ==> SleepSafe() && DueNodes(now) == {}
      ensures forall n :: n in old(Nodes()) && n.msecs > now ==> n in Nodes()
    {
      hide RbRoot.Valid, Timers.Valid, SleepSafe;
      expired := [];
      var i := 0;
      while i < k && !parked
        invariant i <= k && Valid() && DueNodes(now) <= old(DueNodes(now))
        invariant DueNodes(now) == {} || |DueNodes(now)| + i <= old(|DueNodes(now)|)
        invariant parked ==> SleepSafe() && DueNodes(now) == {}
        invariant forall n :: n in old(Nodes()) && n.msecs > now ==> n in Nodes()
        invariant forall n :: n in Nodes() ==> n in old(Nodes()) || fresh(n)
      {
        ghost var due := DueNodes(now);
        var more := CleanerRound(now);
        Fewer(DueNodes(now), due);
        expired := expired + more;
        i := i + 1;
      }
    }

    static lemma Fewer(a: set<RbNode>, b: set<RbNode>)
      ensures a < b ==> |a| < |b|
    {
      if a < b {
        assert b == a + (b - a);
        var n :| n in b && n !in a;
        assert n in b - a;
      }
    }
  }
}
