/** The atomic steps of the queue server: what runs between two waits. */
module QueueSteps {
  import opened Wrappers
  import opened QueueState
  import opened QueueOps

  // ---------- posting ----------

  predicate LiveAt(s: Server, qi: nat) {
    qi < |s.queues| && s.queues[qi].live
  }

  lemma StoreLive(s: Server, name: string)
    requires Inv(s) && name in s.store
    ensures LiveAt(s, s.store[name]) && s.queues[s.store[name]].name == name
  {
  }

  /** The same pollers are open. */
  predicate SameOpen(s: Server, s': Server) {
    |s'.pollers| == |s.pollers| && forall p :: 0 <= p < |s.pollers| ==> s'.pollers[p].open == s.pollers[p].open
  }

  /** The queue has only gained references to its messages. */
  predicate MoreRefs(q: Queue, q': Queue) {
    && q' == q.(msgs := q'.msgs, refs := q'.refs) && q'.refs >= q.refs && |q'.msgs| == |q.msgs|
    && forall j :: 0 <= j < |q.msgs| ==> q'.msgs[j] == q.msgs[j].(refs := q'.msgs[j].refs)
  }

  /** The loop of `memqueue_msg_create`, from binder `i` on: every poller bound to the queue gets the message. */
  function Deliver(s: Server, qi: nat, k: nat, i: nat): (s': Server)
    requires Bound(s) && LiveAt(s, qi) && k < |s.queues[qi].msgs| && i <= |s.binders|
    ensures Bound(s') && LiveAt(s', qi) && s'.binders == s.binders && s'.store == s.store
    ensures |s'.queues| == |s.queues| && SameOpen(s, s')
    ensures MoreRefs(s.queues[qi], s'.queues[qi])
    ensures forall j :: 0 <= j < |s.queues| && j != qi ==> s'.queues[j] == s.queues[j]
    decreases |s.binders| - i
  {
    if i == |s.binders| then s
    else
      var b := s.binders[i];
      if b.q == qi && b.rev <= s.queues[qi].rev then
        EnqueueBound(s, b.p, qi, k);
        Deliver(Enqueue(s, b.p, qi, k), qi, k, i + 1)
      else Deliver(s, qi, k, i + 1)
  }

  lemma {:induction false} DeliverInv(s: Server, qi: nat, k: nat, i: nat)
    requires Inv(s) && LiveAt(s, qi) && k < |s.queues[qi].msgs| && i <= |s.binders|
    ensures Inv(Deliver(s, qi, k, i))
    decreases |s.binders| - i
  {
    hide Books;
    if i < |s.binders| {
      var b := s.binders[i];
      if b.q == qi && b.rev <= s.queues[qi].rev {
        EnqueueInv(s, b.p, qi, k);
        DeliverInv(Enqueue(s, b.p, qi, k), qi, k, i + 1);
      } else {
        DeliverInv(s, qi, k, i + 1);
      }
    }
  }

  predicate NotBound(binders: seq<Binder>, p: nat, qi: nat) {
    forall i :: 0 <= i < |binders| ==> binders[i].p != p || binders[i].q != qi
  }

  /** A poller that is not bound to the queue gets nothing. */
  lemma {:induction false} DeliverSpares(s: Server, qi: nat, k: nat, i: nat, p: nat)
    requires Bound(s) && LiveAt(s, qi) && k < |s.queues[qi].msgs| && i <= |s.binders|
    requires p < |s.pollers| && NotBound(s.binders, p, qi)
    ensures Deliver(s, qi, k, i).pollers[p] == s.pollers[p]
    decreases |s.binders| - i
  {
    if i < |s.binders| {
      var b := s.binders[i];
      if b.q == qi && b.rev <= s.queues[qi].rev {
        EnqueueBound(s, b.p, qi, k);
        DeliverSpares(Enqueue(s, b.p, qi, k), qi, k, i + 1, p);
      } else {
        DeliverSpares(s, qi, k, i + 1, p);
      }
    }
  }

  /** The new message in the list, before the pollers are told */
  function Appended(s: Server, qi: nat, msecs: int, data: string): Server
    requires qi < |s.queues|
  {
    s.(queues := s.queues[qi := NewMsg(s.queues[qi], msecs, data)])
  }

  lemma AppendedBound(s: Server, qi: nat, msecs: int, data: string)
    requires Bound(s) && LiveAt(s, qi)
    ensures Bound(Appended(s, qi, msecs, data)) && LiveAt(Appended(s, qi, msecs, data), qi)
  {
  }

  /** `memqueue_msg_create` */
  function MsgCreate(s: Server, qi: nat, msecs: int, data: string): (s': Server)
    requires Bound(s) && LiveAt(s, qi)
    ensures Bound(s') && LiveAt(s', qi) && s'.binders == s.binders && s'.store == s.store
    ensures |s'.queues| == |s.queues| && SameOpen(s, s')
    ensures MoreRefs(NewMsg(s.queues[qi], msecs, data), s'.queues[qi])
    ensures forall j :: 0 <= j < |s.queues| && j != qi ==> s'.queues[j] == s.queues[j]
  {
    AppendedBound(s, qi, msecs, data);
    Deliver(Appended(s, qi, msecs, data), qi, |s.queues[qi].msgs|, 0)
  }

  lemma MsgCreateInv(s: Server, qi: nat, msecs: int, data: string)
    requires Inv(s) && LiveAt(s, qi)
    ensures Inv(MsgCreate(s, qi, msecs, data))
  {
    hide QueueOk, Stored, Held, QueuesOk, Bound, HasRev;
    var q, pend := s.queues[qi], AllPending(s.pollers);
    var q' := NewMsg(q, msecs, data);
    Booked(s, pend, qi);
    NewRev(s, qi, pend);
    NewMsgOk(q, qi, msecs, data, pend);
    NewMsgKeeps(s, qi, msecs, data, pend);
    PutInv(s, qi, q');
    AppendedBound(s, qi, msecs, data);
    DeliverInv(Appended(s, qi, msecs, data), qi, |q.msgs|, 0);
  }

  lemma NewRev(s: Server, qi: nat, pend: multiset<Entry>)
    requires Books(s, pend) && LiveAt(s, qi)
    ensures Entry(qi, s.queues[qi].rev + 1) !in pend
  {
    Booked(s, pend, qi);
  }

  lemma NewMsgKeeps(s: Server, qi: nat, msecs: int, data: string, pend: multiset<Entry>)
    requires Books(s, pend) && LiveAt(s, qi)
    ensures forall e: Entry :: e in pend && e.q == qi ==> HasRev(NewMsg(s.queues[qi], msecs, data).msgs, e.rev)
  {
    PendingHere(s, pend, qi);
    var q := s.queues[qi];
    forall e: Entry | e in pend && e.q == qi
      ensures HasRev(NewMsg(q, msecs, data).msgs, e.rev)
    {
      var j :| 0 <= j < |q.msgs| && q.msgs[j].rev == e.rev;
      assert NewMsg(q, msecs, data).msgs[j] == q.msgs[j];
    }
  }

  // ---------- consumers ----------

  const CONSUMER_MSECS := 2000

  /** A consumer comes, with the reference to the queue that it holds. */
  function Joined(s: Server, qi: nat, id: string): Server
    requires qi < |s.queues|
  {
    var q := s.queues[qi];
    s.(queues := s.queues[qi := q.(consumers := q.consumers + [id], refs := q.refs + 1)])
  }

  lemma JoinedInv(s: Server, qi: nat, id: string)
    requires Inv(s) && LiveAt(s, qi) && id !in s.queues[qi].consumers
    ensures Inv(Joined(s, qi, id)) && LiveAt(Joined(s, qi, id), qi)
  {
    hide QueueOk, Stored, Held, QueuesOk, Bound, HasRev;
    var q, pend := s.queues[qi], AllPending(s.pollers);
    var q' := q.(consumers := q.consumers + [id], refs := q.refs + 1);
    Booked(s, pend, qi);
    JoinedOk(q, qi, id, pend);
    PendingHere(s, pend, qi);
    PutInv(s, qi, q');
  }

  lemma JoinedOk(q: Queue, qi: nat, id: string, pend: multiset<Entry>)
    requires QueueOk(q, qi, pend) && id !in q.consumers
    ensures QueueOk(q.(consumers := q.consumers + [id], refs := q.refs + 1), qi, pend)
  {
  }

  /** `memqueue_refresh_consumer` */
  function RefreshConsumer(s: Server, qi: nat, id: string): (s': Server)
    requires Bound(s) && LiveAt(s, qi)
    ensures Bound(s') && LiveAt(s', qi) && s'.binders == s.binders && s'.store == s.store
    ensures |s'.queues| == |s.queues| && SameOpen(s, s')
  {
    if id in s.queues[qi].consumers then s
    else MsgCreate(Joined(s, qi, id), qi, CONSUMER_MSECS, id + ":joined")
  }

  lemma RefreshConsumerInv(s: Server, qi: nat, id: string)
    requires Inv(s) && LiveAt(s, qi)
    ensures Inv(RefreshConsumer(s, qi, id))
  {
    hide Books, MsgCreate;
    if id !in s.queues[qi].consumers {
      JoinedInv(s, qi, id);
      MsgCreateInv(Joined(s, qi, id), qi, CONSUMER_MSECS, id + ":joined");
    }
  }

  function PlaceOf(ids: seq<string>, id: string): (i: nat)
    requires id in ids
    ensures i < |ids| && ids[i] == id
  {
    if ids[0] == id then 0 else 1 + PlaceOf(ids[1..], id)
  }

  /** A consumer goes, and gives up its reference. */
  function Left(s: Server, qi: nat, id: string): Server
    requires qi < |s.queues| && s.queues[qi].refs > 0 && id in s.queues[qi].consumers
  {
    var q := s.queues[qi];
    Put(s, qi, q.(consumers := Without(q.consumers, PlaceOf(q.consumers, id)), refs := q.refs - 1))
  }

  lemma LeftInv(s: Server, qi: nat, id: string)
    requires Inv(s) && LiveAt(s, qi) && id in s.queues[qi].consumers
    ensures s.queues[qi].refs > 0 && Inv(Left(s, qi, id))
  {
    hide QueueOk, Stored, Held, QueuesOk, Bound, HasRev;
    var q, pend := s.queues[qi], AllPending(s.pollers);
    Booked(s, pend, qi);
    LeftOk(q, qi, id, pend);
    PendingHere(s, pend, qi);
    PutInv(s, qi, q.(consumers := Without(q.consumers, PlaceOf(q.consumers, id)), refs := q.refs - 1));
  }

  lemma LeftOk(q: Queue, qi: nat, id: string, pend: multiset<Entry>)
    requires QueueOk(q, qi, pend) && id in q.consumers && q.refs > 0
    ensures QueueOk(q.(consumers := Without(q.consumers, PlaceOf(q.consumers, id)), refs := q.refs - 1), qi, pend)
  {
    var w := Without(q.consumers, PlaceOf(q.consumers, id));
    assert forall i :: 0 <= i < |w| ==> w[i] == q.consumers[if i < PlaceOf(q.consumers, id) then i else i + 1];
  }

  /** `consumer_expired`: the others are told before the reference is given up. */
  function ConsumerExpired(s: Server, qi: nat, id: string): Server
    requires Bound(s) && LiveAt(s, qi) && id in s.queues[qi].consumers
  {
    Left(MsgCreate(s, qi, CONSUMER_MSECS, id + ":expired"), qi, id)
  }

  /** The message just posted holds the queue, so that the consumer can still be unlinked from it. */
  lemma ConsumerExpiredInv(s: Server, qi: nat, id: string)
    requires Inv(s) && LiveAt(s, qi) && id in s.queues[qi].consumers
    ensures Inv(ConsumerExpired(s, qi, id)) && LiveAt(ConsumerExpired(s, qi, id), qi)
    ensures ConsumerExpired(s, qi, id).queues[qi].consumers ==
      Without(s.queues[qi].consumers, PlaceOf(s.queues[qi].consumers, id))
    ensures ConsumerExpired(s, qi, id).store == s.store
  {
    hide MsgCreate, Books;
    var s1 := MsgCreate(s, qi, CONSUMER_MSECS, id + ":expired");
    MsgCreateInv(s, qi, CONSUMER_MSECS, id + ":expired");
    LeftInv(s1, qi, id);
    assert s1.queues[qi].refs >= 2 by {
      Booked(s, AllPending(s.pollers), qi);
    }
  }

  // ---------- polling ----------

  /** The loop of `cli_binder_enqueue_msgs`, from message `k` on */
  function EnqueueMsgs(s: Server, p: nat, qi: nat, rev: int, latest: bool, k: nat): (s': Server)
    requires Bound(s) && LiveAt(s, qi) && p < |s.pollers| && s.pollers[p].open && k <= |s.queues[qi].msgs|
    ensures Bound(s') && LiveAt(s', qi) && s'.binders == s.binders && s'.store == s.store
    ensures |s'.queues| == |s.queues| && SameOpen(s, s')
    ensures MoreRefs(s.queues[qi], s'.queues[qi])
    ensures forall j :: 0 <= j < |s.queues| && j != qi ==> s'.queues[j] == s.queues[j]
    decreases |s.queues[qi].msgs| - k
  {
    if k == |s.queues[qi].msgs| then s
    else if Wanted(s.queues[qi].msgs[k], rev, latest) then
      EnqueueBound(s, p, qi, k);
      EnqueueMsgs(Enqueue(s, p, qi, k), p, qi, rev, latest, k + 1)
    else EnqueueMsgs(s, p, qi, rev, latest, k + 1)
  }

  predicate Wanted(m: Msg, rev: int, latest: bool) {
    rev < m.rev || (latest && m.isNew)
  }

  lemma {:induction false} EnqueueMsgsInv(s: Server, p: nat, qi: nat, rev: int, latest: bool, k: nat)
    requires Inv(s) && LiveAt(s, qi) && p < |s.pollers| && s.pollers[p].open && k <= |s.queues[qi].msgs|
    ensures Inv(EnqueueMsgs(s, p, qi, rev, latest, k))
    decreases |s.queues[qi].msgs| - k
  {
    hide Books;
    if k < |s.queues[qi].msgs| {
      if Wanted(s.queues[qi].msgs[k], rev, latest) {
        EnqueueInv(s, p, qi, k);
        EnqueueMsgsInv(Enqueue(s, p, qi, k), p, qi, rev, latest, k + 1);
      } else {
        EnqueueMsgsInv(s, p, qi, rev, latest, k + 1);
      }
    }
  }

  /** What a poll asks of one queue */
  datatype PollArg = PollArg(name: string, rev: int, latest: bool, consumer: Option<string>, includeConsumers: bool)

  /** The revision to poll from: one that the queue has not reached yet counts as none. */
  function FromRev(q: Queue, rev: int): int {
    if q.rev < rev then -1 else rev
  }

  /** The queue's revision once the poll's consumer has been announced, if it is new */
  function RevThen(q: Queue, arg: PollArg): nat {
    if q.consumerExpiry != 0 && arg.consumer.Some? && arg.consumer.value !in q.consumers then q.rev + 1 else q.rev
  }

  /** The revision that a poll which finds the queue as `q` is served from */
  function AskedRev(q: Queue, arg: PollArg): int {
    if RevThen(q, arg) < arg.rev then -1 else arg.rev
  }

  function WithConsumer(s: Server, qi: nat, arg: PollArg): (s': Server)
    requires Bound(s) && LiveAt(s, qi)
    ensures Bound(s') && LiveAt(s', qi) && s'.binders == s.binders && s'.store == s.store
    ensures |s'.queues| == |s.queues| && SameOpen(s, s')
  {
    if s.queues[qi].consumerExpiry != 0 && arg.consumer.Some? then RefreshConsumer(s, qi, arg.consumer.value) else s
  }

  lemma WithConsumerSpares(s: Server, qi: nat, arg: PollArg, p: nat)
    requires Bound(s) && LiveAt(s, qi) && p < |s.pollers| && NotBound(s.binders, p, qi)
    ensures WithConsumer(s, qi, arg).pollers[p] == s.pollers[p]
  {
    if s.queues[qi].consumerExpiry != 0 && arg.consumer.Some? && arg.consumer.value !in s.queues[qi].consumers {
      var id := arg.consumer.value;
      var s1 := Joined(s, qi, id);
      assert Bound(s1);
      AppendedBound(s1, qi, CONSUMER_MSECS, id + ":joined");
      DeliverSpares(Appended(s1, qi, CONSUMER_MSECS, id + ":joined"), qi, |s1.queues[qi].msgs|, 0, p);
    }
  }

  /** `memqueue_bind` */
  function Bind(s: Server, p: nat, qi: nat, rev: int, includeConsumers: bool): Server {
    s.(binders := [Binder(qi, p, rev, includeConsumers)] + s.binders)
  }

  lemma BindBound(s: Server, p: nat, qi: nat, rev: int, includeConsumers: bool)
    requires Bound(s) && qi < |s.queues| && p < |s.pollers| && s.pollers[p].open && rev <= s.queues[qi].rev
    ensures Bound(Bind(s, p, qi, rev, includeConsumers))
  {
    var s' := Bind(s, p, qi, rev, includeConsumers);
    forall i | 0 <= i < |s'.binders|
      ensures
        var b := s'.binders[i];
        b.q < |s.queues| && b.p < |s.pollers| && s.pollers[b.p].open && b.rev <= s.queues[b.q].rev
    {
      assert i > 0 ==> s'.binders[i] == s.binders[i - 1];
    }
  }

  /** The part of `memqueue_poll_queue` for a queue that is found */
  function PollOne(s: Server, p: nat, qi: nat, arg: PollArg): (s': Server)
    requires Bound(s) && LiveAt(s, qi) && p < |s.pollers| && s.pollers[p].open
    ensures Bound(s') && LiveAt(s', qi) && s'.store == s.store
    ensures |s'.queues| == |s.queues| && SameOpen(s, s')
  {
    var s1 := WithConsumer(s, qi, arg);
    var rev := FromRev(s1.queues[qi], arg.rev);
    BindBound(s1, p, qi, rev, arg.includeConsumers);
    EnqueueMsgs(Bind(s1, p, qi, rev, arg.includeConsumers), p, qi, rev, arg.latest, 0)
  }

  lemma PollOneInv(s: Server, p: nat, qi: nat, arg: PollArg)
    requires Inv(s) && LiveAt(s, qi) && p < |s.pollers| && s.pollers[p].open
    ensures Inv(PollOne(s, p, qi, arg))
  {
    hide Books, MsgCreate, EnqueueMsgs, RefreshConsumer;
    var s1 := WithConsumer(s, qi, arg);
    if s.queues[qi].consumerExpiry != 0 && arg.consumer.Some? {
      RefreshConsumerInv(s, qi, arg.consumer.value);
    }
    var rev := FromRev(s1.queues[qi], arg.rev);
    BindBound(s1, p, qi, rev, arg.includeConsumers);
    BindBooks(s1, p, qi, rev, arg.includeConsumers);
    EnqueueMsgsInv(Bind(s1, p, qi, rev, arg.includeConsumers), p, qi, rev, arg.latest, 0);
  }

  lemma BindBooks(s: Server, p: nat, qi: nat, rev: int, includeConsumers: bool)
    requires Books(s, AllPending(s.pollers))
    ensures var s' := Bind(s, p, qi, rev, includeConsumers); Books(s', AllPending(s'.pollers))
  {
  }

  /** The loop of `memqueue_poll_queue`, from argument `i` on */
  ghost function PollAll(s: Server, p: nat, args: seq<PollArg>, i: nat): (s': Server)
    requires Inv(s) && p < |s.pollers| && s.pollers[p].open && i <= |args|
    ensures Inv(s') && |s'.queues| == |s.queues| && SameOpen(s, s')
    decreases |args| - i
  {
    if i == |args| then s
    else if args[i].name !in s.store then PollAll(s, p, args, i + 1)
    else
      var qi := s.store[args[i].name];
      PollOneInv(s, p, qi, args[i]);
      PollAll(PollOne(s, p, qi, args[i]), p, args, i + 1)
  }

  function NewPoller(s: Server): Server {
    s.(pollers := s.pollers + [Poller([], true)])
  }

  lemma NewPollerInv(s: Server)
    requires Inv(s)
    ensures Inv(NewPoller(s))
  {
    var s' := NewPoller(s);
    assert s'.pollers[..|s.pollers|] == s.pollers;
    assert AllPending(s'.pollers) == AllPending(s.pollers);
    NewPollerBound(s);
    hide Bound;
  }

  lemma NewPollerBound(s: Server)
    requires Bound(s)
    ensures Bound(NewPoller(s))
  {
  }

  /** No queue was found: the poller is freed at once. */
  predicate NothingFound(s: Server, args: seq<PollArg>) {
    forall i :: 0 <= i < |args| ==> args[i].name !in s.store
  }

  function Close(s: Server, p: nat): Server
    requires p < |s.pollers|
  {
    s.(pollers := s.pollers[p := s.pollers[p].(open := false)])
  }

  lemma CloseInv(s: Server, p: nat)
    requires Inv(s) && p < |s.pollers| && s.pollers[p].pending == []
    requires forall i :: 0 <= i < |s.binders| ==> s.binders[i].p != p
    ensures Inv(Close(s, p))
  {
    hide Bound, Stored, Held, QueuesOk;
    var x := s.pollers[p].(open := false);
    PendingUpdate(s.pollers, p, x);
    assert multiset(s.pollers[p].pending) == multiset{} && x.pending == [];
    assert AllPending(s.pollers[p := x]) == AllPending(s.pollers);
    CloseBound(s, p);
  }

  lemma CloseBound(s: Server, p: nat)
    requires Bound(s) && p < |s.pollers| && s.pollers[p].pending == []
    requires forall i :: 0 <= i < |s.binders| ==> s.binders[i].p != p
    ensures Bound(Close(s, p))
  {
  }

  /** A poll up to its wait: a new poller is bound to the queues and collects what they have for it. */
  ghost function PollBegin(s: Server, args: seq<PollArg>): (s': Server)
    requires Inv(s)
    ensures Inv(s')
  {
    NewPollerInv(s);
    var p := |s.pollers|;
    if NothingFound(s, args) then
      assert forall i :: 0 <= i < |s.binders| ==> s.binders[i].p != p;
      CloseInv(NewPoller(s), p);
      Close(NewPoller(s), p)
    else PollAll(NewPoller(s), p, args, 0)
  }

  // ---------- the end of a poll ----------

  /** `memqueue_unbind_all` */
  function Unbound(binders: seq<Binder>, p: nat): seq<Binder> {
    if binders == [] then []
    else if binders[0].p == p then Unbound(binders[1..], p)
    else [binders[0]] + Unbound(binders[1..], p)
  }

  lemma {:induction false} UnboundOf(binders: seq<Binder>, p: nat)
    ensures forall b :: b in Unbound(binders, p) <==> b in binders && b.p != p
  {
    if binders != [] {
      UnboundOf(binders[1..], p);
      assert binders == [binders[0]] + binders[1..];
    }
  }

  function Unbind(s: Server, p: nat): Server {
    s.(binders := Unbound(s.binders, p))
  }

  lemma UnbindInv(s: Server, p: nat)
    requires Inv(s)
    ensures Inv(Unbind(s, p))
    ensures forall i :: 0 <= i < |Unbind(s, p).binders| ==> Unbind(s, p).binders[i].p != p
  {
    hide Stored, Held, QueuesOk;
    UnboundOf(s.binders, p);
    var bs := Unbound(s.binders, p);
    forall i | 0 <= i < |bs|
      ensures bs[i] in s.binders && bs[i].p != p
    {
      assert bs[i] in bs;
    }
    forall i | 0 <= i < |bs|
      ensures
        var b := bs[i];
        b.q < |s.queues| && b.p < |s.pollers| && s.pollers[b.p].open && b.rev <= s.queues[b.q].rev
    {
      var j :| 0 <= j < |s.binders| && s.binders[j] == bs[i];
    }
  }

  lemma DropShape(s: Server, p: nat)
    requires CanDrop(s, p)
    ensures var s' := Drop(s, p);
      && |s'.queues| == |s.queues| && s'.binders == s.binders
      && |s'.pollers| == |s.pollers| && s'.pollers[p].open == s.pollers[p].open
      && s'.pollers[p].pending == s.pollers[p].pending[1..]
      && (forall j :: 0 <= j < |s.pollers| && j != p ==> s'.pollers[j] == s.pollers[j])
      && forall j :: 0 <= j < |s.queues| ==> s'.queues[j].rev == s.queues[j].rev
  {
    hide HasRev, IndexOf;
  }

  /** `cli_binder_release_pending_msgs` */
  ghost function ReleasePending(s: Server, p: nat): (s': Server)
    requires Inv(s) && p < |s.pollers|
    ensures Inv(s') && |s'.queues| == |s.queues| && s'.binders == s.binders && |s'.pollers| == |s.pollers|
    ensures s'.pollers[p].pending == [] && s'.pollers[p].open == s.pollers[p].open
    ensures forall j :: 0 <= j < |s.pollers| && j != p ==> s'.pollers[j] == s.pollers[j]
    ensures forall j :: 0 <= j < |s.queues| ==> s'.queues[j].rev == s.queues[j].rev
    decreases |s.pollers[p].pending|
  {
    hide Inv, Drop, CanDrop;
    if s.pollers[p].pending == [] then s
    else
      DropInv(s, p);
      DropShape(s, p);
      ReleasePending(Drop(s, p), p)
  }

  /** What `memqueue_poll_queue` does after it has responded */
  ghost function Finish(s: Server, p: nat): (s': Server)
    requires Inv(s) && p < |s.pollers|
    ensures Inv(s')
  {
    hide Inv;
    UnbindInv(s, p);
    var s1 := ReleasePending(Unbind(s, p), p);
    CloseInv(s1, p);
    Close(s1, p)
  }
}
