/** The functions of src/memqueue.c in place on the server's tables, each against the step it carries out. */
module MemQueue {
  import opened Wrappers
  import opened QueueState
  import Ops = QueueOps
  import Steps = QueueSteps
  import Delivery = QueueDelivery
  import Runs = QueueRuns

  /** An element of the response to a poll */
  datatype QueueResult = QueueResult(name: string, messages: seq<string>, rev: nat, consumers: Option<seq<string>>)

  /** The data of the queue's messages among the entries, in order */
  function DataOf(queues: seq<Queue>, pending: seq<Entry>, qi: nat): seq<string> {
    if pending == [] then []
    else
      var last := pending[|pending| - 1];
      DataOf(queues, pending[..|pending| - 1], qi) + if last.q == qi then [DataAt(queues, last)] else []
  }

  function DataAt(queues: seq<Queue>, e: Entry): string {
    if e.q < |queues| && HasRev(queues[e.q].msgs, e.rev)
    then queues[e.q].msgs[Ops.IndexOf(queues[e.q].msgs, e.rev)].data else ""
  }

  predicate AsksConsumers(binders: seq<Binder>, p: nat, qi: nat) {
    exists i :: 0 <= i < |binders| && binders[i].p == p && binders[i].q == qi && binders[i].includeConsumers
  }

  /** `memqueue_ins_t` */
  class QueueServer {
    var store: map<string, nat>
    var queues: seq<Queue>
    var pollers: seq<Poller>
    var binders: seq<Binder>

    function S(): Server
      reads this
    {
      Server(store, queues, pollers, binders)
    }

    constructor ()
      ensures S() == EMPTY && Inv(S())
    {
      store, queues, pollers, binders := map[], [], [], [];
    }

    // ---------- references ----------

    /** `memqueue_release` */
    method Release(qi: nat)
      requires qi < |queues| && queues[qi].refs > 0
      modifies this
      ensures S() == Put(old(S()), qi, old(queues[qi]).(refs := old(queues[qi]).refs - 1))
    {
      var q := queues[qi];
      queues := queues[qi := q.(refs := q.refs - 1)];
      if queues[qi].refs == 0 {
        store := store - {q.name};
        queues := queues[qi := queues[qi].(live := false)];
      }
    }

    /** `memqueue_msg_retain` */
    method MsgRetain(qi: nat, k: nat)
      requires qi < |queues| && k < |queues[qi].msgs|
      modifies this`queues
      ensures queues == old(queues)[qi := Retain(old(queues)[qi], k)]
    {
      var q := queues[qi];
      var m := q.msgs[k];
      queues := queues[qi := q.(msgs := q.msgs[k := m.(refs := m.refs + 1)])];
      queues := queues[qi := queues[qi].(refs := queues[qi].refs + 1)];
    }

    /** `memqueue_msg_release` */
    method MsgRelease(qi: nat, k: nat)
      requires qi < |queues| && Ops.CanRelease(queues[qi], k)
      modifies this
      ensures S() == Put(old(S()), qi, QueueState.Release(old(queues[qi]), k))
    {
      var q := queues[qi];
      var m := q.msgs[k].(isNew := false, refs := q.msgs[k].refs - 1);
      queues := queues[qi := q.(msgs := q.msgs[k := m])];
      if m.refs == 0 {
        queues := queues[qi := q.(msgs := Without(q.msgs, k), msgsInQueue := q.msgsInQueue - 1)];
      }
      Release(qi);
    }

    // ---------- posting ----------

    /** `cli_binder_enqueue_msg` */
    method EnqueueMsg(p: nat, qi: nat, k: nat)
      requires p < |pollers| && qi < |queues| && k < |queues[qi].msgs|
      modifies this`queues, this`pollers
      ensures S() == Ops.Enqueue(old(S()), p, qi, k)
    {
      var b := pollers[p];
      pollers := pollers[p := b.(pending := b.pending + [Entry(qi, queues[qi].msgs[k].rev)])];
      MsgRetain(qi, k);
    }

    /** `memqueue_msg_create` */
    method MsgCreate(qi: nat, msecs: int, data: string)
      requires Bound(S()) && Steps.LiveAt(S(), qi)
      modifies this`queues, this`pollers
      ensures S() == Steps.MsgCreate(old(S()), qi, msecs, data)
    {
      hide Bound;
      Steps.AppendedBound(S(), qi, msecs, data);
      ghost var s1 := Steps.Appended(S(), qi, msecs, data);
      var k := |queues[qi].msgs|;
      AddMsg(qi, msecs, data);
      ghost var goal := Steps.Deliver(s1, qi, k, 0);
      var i := 0;
      while i < |binders|
        invariant i <= |binders| && Bound(S()) && Steps.LiveAt(S(), qi) && k < |queues[qi].msgs|
        invariant Steps.Deliver(S(), qi, k, i) == goal
      {
        var b := binders[i];
        if b.q == qi && b.rev <= queues[qi].rev {
          OpenAt(S(), i);
          Ops.EnqueueBound(S(), b.p, qi, k);
          EnqueueMsg(b.p, qi, k);
        }
        i := i + 1;
      }
    }

    /** The message is made, retained if it has an expiry, and put at the end of the list. */
    method AddMsg(qi: nat, msecs: int, data: string)
      requires qi < |queues|
      modifies this`queues
      ensures queues == old(queues)[qi := NewMsg(old(queues)[qi], msecs, data)]
    {
      var q := queues[qi].(rev := queues[qi].rev + 1);
      var m := Msg(q.rev, data, msecs, 0, false, true);
      if msecs > 0 {
        m := m.(timer := true, refs := m.refs + 1);
        q := q.(refs := q.refs + 1);
      }
      if msecs == -1 {
        m := m.(refs := m.refs + 1);
        q := q.(refs := q.refs + 1);
      }
      q := q.(msgs := q.msgs + [m], msgsInQueue := q.msgsInQueue + 1);
      queues := queues[qi := q];
    }

    /** `is_memqueue_full` */
    method IsFull(qi: nat) returns (full: bool)
      requires Inv(S()) && Steps.LiveAt(S(), qi)
      modifies this
      ensures full <==> Ops.Crowded(old(queues[qi])) && !old(queues[qi]).dropFromHead
      ensures full || !Ops.Crowded(old(queues[qi])) ==> S() == old(S())
      ensures old(queues[qi]).msgs == [] ==> !Ops.Crowded(old(queues[qi]))
      ensures !full && Ops.Crowded(old(queues[qi])) ==>
        old(queues[qi]).msgs != [] && old(queues[qi]).msgsInQueue > 0 && S() == Ops.DropHead(old(S()), qi)
    {
      Runs.HeadKeepsQueue(S(), qi);
      var q := queues[qi];
      if q.maxSize <= 0 {
        return false;
      }
      if q.maxSize > q.msgsInQueue {
        return false;
      }
      if q.maxSize != 0 && q.msgsInQueue >= q.maxSize && q.dropFromHead {
        Booked(S(), AllPending(pollers), qi);
        MsgRetain(qi, 0);
        MsgRelease(qi, 0);
        return false;
      }
      return true;
    }

    /** `on_msg_post` */
    method Post(name: string, msecs: int, data: string)
      requires Inv(S())
      modifies this
      ensures Inv(S()) && S() == Runs.Apply(old(S()), Runs.Post(name, msecs, data))
    {
      hide Inv, Runs.Apply, Runs.Posted, Steps.MsgCreate, Ops.DropHead;
      ApplyPost(S(), name, msecs, data);
      if name in store {
        var qi := store[name];
        var full := IsFull(qi);
        if !full {
          MsgCreate(qi, msecs, data);
        }
      }
    }

    // ---------- queues and consumers ----------

    /** `on_queue_create`, `memqueue_create` */
    method Create(name: string, expiry: int, maxSize: int, consumerExpiry: int, dropFromHead: bool)
      requires Inv(S())
      modifies this
      ensures Inv(S())
      ensures S() == Runs.Apply(old(S()), Runs.Create(name, expiry, maxSize, consumerExpiry, dropFromHead))
    {
      if name !in store {
        Ops.CreatedInv(S(), name, expiry, maxSize, consumerExpiry, dropFromHead);
        var q := Queue(name, true, true, false, 0, 0, maxSize, consumerExpiry, dropFromHead, 0, [], []);
        if expiry > 0 {
          q := q.(timer := true);
        }
        q := q.(refs := q.refs + 1);
        store := store[name := |queues|];
        queues := queues + [q];
      }
    }

    /** `on_queue_delete` */
    method Delete(name: string)
      requires Inv(S()) && Runs.Enabled(S(), Runs.Delete(name))
      modifies this
      ensures Inv(S()) && S() == Runs.Apply(old(S()), Runs.Delete(name))
    {
      hide Inv, Runs.Apply;
      ApplyDelete(S(), name);
      if name in store {
        var qi := store[name];
        ghost var q := queues[qi];
        Release(qi);
        queues := queues[qi := queues[qi].(base := false)];
        assert queues == old(queues)[qi := q.(base := false, timer := false, refs := q.refs - 1, live := q.refs > 1)];
      }
    }

    /** `memqueue_refresh_consumer` */
    method RefreshConsumer(qi: nat, id: string)
      requires Bound(S()) && Steps.LiveAt(S(), qi)
      modifies this`queues, this`pollers
      ensures S() == Steps.RefreshConsumer(old(S()), qi, id)
    {
      hide Bound, Steps.MsgCreate;
      if id !in queues[qi].consumers {
        var q := queues[qi];
        queues := queues[qi := q.(consumers := q.consumers + [id])];
        ghost var s1 := S();
        SameBinders(old(S()), s1);
        MsgCreate(qi, Steps.CONSUMER_MSECS, id + ":joined");
        queues := queues[qi := queues[qi].(refs := queues[qi].refs + 1)];
        CreateRetains(s1, qi, Steps.CONSUMER_MSECS, id + ":joined");
        assert Retained(s1, qi) == Steps.Joined(old(S()), qi, id);
      }
    }

    /** `consumer_expired`: when the reference is given up, the queue is still there. */
    method ConsumerExpired(qi: nat, id: string)
      requires Inv(S()) && Steps.LiveAt(S(), qi) && id in queues[qi].consumers
      modifies this
      ensures Inv(S()) && S() == Steps.ConsumerExpired(old(S()), qi, id) && Steps.LiveAt(S(), qi)
    {
      hide Inv, Steps.MsgCreate;
      InvBound(S());
      Steps.ConsumerExpiredInv(S(), qi, id);
      StillHeld(S(), qi, id);
      MsgCreate(qi, Steps.CONSUMER_MSECS, id + ":expired");
      ghost var s1 := S();
      Release(qi);
      assert queues[qi].live;
      var q := queues[qi];
      queues := queues[qi := q.(consumers := Without(q.consumers, Steps.PlaceOf(q.consumers, id)))];
      assert queues == s1.queues[qi := queues[qi]];
      assert S() == Steps.Left(s1, qi, id);
    }


    /** `objs_expire` for one message whose timer has run out */
    method ExpireMsg(qi: nat, k: nat)
      requires Inv(S()) && Runs.Enabled(S(), Runs.MsgTimer(qi, k))
      modifies this
      ensures Inv(S()) && S() == Runs.Apply(old(S()), Runs.MsgTimer(qi, k))
    {
      hide Inv, Runs.Apply;
      ApplyMsgTimer(S(), qi, k);
      var q := queues[qi];
      queues := queues[qi := q.(msgs := q.msgs[k := q.msgs[k].(timer := false)])];
      ghost var r := QueueState.Release(Expired(q, k), k);
      MsgRelease(qi, k);
      assert queues == old(queues)[qi := if r.refs > 0 then r else r.(live := false)];
    }

    /** `objs_expire` for one queue whose timer has run out */
    method ExpireQueue(qi: nat)
      requires Inv(S()) && Runs.Enabled(S(), Runs.QueueTimer(qi))
      modifies this
      ensures Inv(S()) && S() == Runs.Apply(old(S()), Runs.QueueTimer(qi))
    {
      hide Inv, Runs.Apply;
      ApplyQueueTimer(S(), qi);
      ghost var q := queues[qi];
      Release(qi);
      queues := queues[qi := queues[qi].(base := false, timer := false)];
      assert queues == old(queues)[qi := q.(base := false, timer := false, refs := q.refs - 1, live := q.refs > 1)];
    }

    // ---------- polling ----------

    /** `memqueue_bind` */
    method Bind(p: nat, qi: nat, rev: int, includeConsumers: bool)
      modifies this`binders
      ensures S() == Steps.Bind(old(S()), p, qi, rev, includeConsumers)
    {
      binders := [Binder(qi, p, rev, includeConsumers)] + binders;
    }

    /** `cli_binder_enqueue_msgs` */
    method EnqueueMsgs(p: nat, qi: nat, rev: int, latest: bool) returns (total: nat)
      requires Bound(S()) && Steps.LiveAt(S(), qi) && p < |pollers| && pollers[p].open
      modifies this`queues, this`pollers
      ensures S() == Steps.EnqueueMsgs(old(S()), p, qi, rev, latest, 0)
      ensures p < |pollers| && |pollers[p].pending| == |old(pollers)[p].pending| + total
    {
      hide Bound;
      ghost var goal := Steps.EnqueueMsgs(S(), p, qi, rev, latest, 0);
      total := 0;
      var k := 0;
      while k < |queues[qi].msgs|
        invariant Bound(S()) && Steps.LiveAt(S(), qi) && p < |pollers| && pollers[p].open && k <= |queues[qi].msgs|
        invariant Steps.EnqueueMsgs(S(), p, qi, rev, latest, k) == goal
        invariant |pollers[p].pending| == |old(pollers)[p].pending| + total
        decreases |queues[qi].msgs| - k
      {
        var msg := queues[qi].msgs[k];
        if rev < msg.rev || (latest && msg.isNew) {
          Ops.EnqueueBound(S(), p, qi, k);
          EnqueueMsg(p, qi, k);
          total := total + 1;
        }
        k := k + 1;
      }
    }

    /** The part of the loop of `memqueue_poll_queue` for a queue that is found */
    method PollOne(p: nat, qi: nat, arg: Steps.PollArg) returns (total: nat, ghost b: Binder)
      requires Bound(S()) && Steps.LiveAt(S(), qi) && p < |pollers| && pollers[p].open
      modifies this`queues, this`pollers, this`binders
      ensures S() == Steps.PollOne(old(S()), p, qi, arg) && p < |pollers|
      ensures b.p == p && b.q == qi && binders == [b] + old(binders)
      ensures Steps.NotBound(old(binders), p, qi) ==> |pollers[p].pending| == |old(pollers)[p].pending| + total
    {
      if Steps.NotBound(binders, p, qi) {
        Steps.WithConsumerSpares(S(), qi, arg, p);
      }
      hide Bound, Steps.EnqueueMsgs, Steps.RefreshConsumer, Steps.NotBound;
      if queues[qi].consumerExpiry != 0 && arg.consumer.Some? {
        RefreshConsumer(qi, arg.consumer.value);
      }
      var rev := if queues[qi].rev < arg.rev then -1 else arg.rev;
      Steps.BindBound(S(), p, qi, rev, arg.includeConsumers);
      Bind(p, qi, rev, arg.includeConsumers);
      b := Binder(qi, p, rev, arg.includeConsumers);
      assert binders == [b] + old(binders);
      total := EnqueueMsgs(p, qi, rev, arg.latest);
    }

    /** A round of the loop of `memqueue_poll_queue` */
    method PollNext(p: nat, args: seq<Steps.PollArg>, i: nat) returns (n: nat)
      requires Inv(S()) && p < |pollers| && pollers[p].open && i < |args| && args[i].name in store && StoreNames(S())
      modifies this`queues, this`pollers, this`binders
      ensures Inv(S()) && p < |pollers| && pollers[p].open && StoreNames(S())
      ensures Steps.PollAll(S(), p, args, i + 1) == old(Steps.PollAll(S(), p, args, i))
      ensures Delivery.DistinctNames(args) && Unmet(store, old(binders), p, args, i) ==>
        |pollers[p].pending| == |old(pollers)[p].pending| + n && Unmet(store, binders, p, args, i + 1)
    {
      hide Inv, Steps.PollOne, Steps.PollAll, Steps.NotBound, Delivery.DistinctNames, Unmet, StoreNames;
      ghost var s := S();
      PollAllStep(S(), p, args, i);
      ghost var b;
      n, b := PollOne(p, store[args[i].name], args[i]);
      Named(S());
      if Delivery.DistinctNames(args) && Unmet(store, s.binders, p, args, i) {
        MetOne(s, s.binders, b, binders, p, args, i);
      }
    }

    /** `memqueue_poll_queue` up to the wait; `waits` if there is one, which is when nothing is there for the poller. */
    method PollBegin(args: seq<Steps.PollArg>) returns (p: nat, found: bool, waits: bool)
      requires Inv(S())
      modifies this
      ensures Inv(S()) && S() == Steps.PollBegin(old(S()), args)
      ensures p == |old(pollers)| < |pollers| && (found <==> !Steps.NothingFound(old(S()), args))
      ensures found && Delivery.DistinctNames(args) ==> (waits <==> pollers[p].pending == [])
    {
      hide Inv, Steps.PollOne, Steps.PollAll, Steps.NotBound, Delivery.DistinctNames, Unmet, StoreNames, NoneFound;
      hide Steps.NothingFound, Steps.PollBegin, Steps.SameOpen, AllPending, Bound;
      NobodyYet(S(), args);
      Named(S());
      ghost var s0 := S();
      FoundAll(s0, args);
      Steps.NewPollerInv(S());
      p := |pollers|;
      pollers := pollers + [Poller([], true)];
      Named(S());
      ghost var goal := Steps.PollAll(S(), p, args, 0);
      var i, totalMsgs, totalBoundQueues := 0, 0, 0;
      while i < |args|
        invariant i <= |args| && Inv(S()) && p < |pollers| && pollers[p].open && store == s0.store && StoreNames(S())
        invariant Steps.PollAll(S(), p, args, i) == goal
        invariant totalBoundQueues == 0 <==> NoneFound(store, args, i)
        invariant totalBoundQueues == 0 ==> S() == Steps.NewPoller(s0)
        invariant Delivery.DistinctNames(args) ==> |pollers[p].pending| == totalMsgs && Unmet(store, binders, p, args, i)
      {
        FoundOne(store, args, i);
        if args[i].name in store {
          totalBoundQueues := totalBoundQueues + 1;
          var n := PollNext(p, args, i);
          totalMsgs := totalMsgs + n;
        } else {
          PollAllStep(S(), p, args, i);
          MetNone(store, binders, p, args, i);
        }
        i := i + 1;
      }
      found := totalBoundQueues != 0;
      waits := totalMsgs == 0;
      PollAllEnds(S(), p, args);
      BeginIs(s0, args);
      if !found {
        pollers := pollers[p := pollers[p].(open := false)];
      }
    }

    /** `memqueue_create_result` */
    method CreateResult(p: nat) returns (results: seq<QueueResult>)
      requires Inv(S()) && p < |pollers|
      ensures Results(S(), p, pollers[p].pending, results)
    {
      hide Inv, DataOf, AsksConsumers, DataAt, ResultOk;
      var pending := pollers[p].pending;
      results := [];
      var i := 0;
      assert Results(S(), p, [], []);
      assert pending[..0] == [];
      while i < |pending|
        invariant i <= |pending| && Results(S(), p, pending[..i], results)
      {
        var e := pending[i];
        PendingLive(S(), p, e);
        assert pending[..i + 1] == pending[..i] + [e];
        var name := queues[e.q].name;
        var k := FindResult(results, name);
        if k == |results| {
          var wanted := IncludeConsumers(p, e.q);
          Named(S());
          NewResult(S(), p, pending[..i], e, results);
          var r := QueueResult(name, [], queues[e.q].rev, if wanted then Some(queues[e.q].consumers) else None);
          r := r.(messages := r.messages + [MessageOf(e)]);
          assert r.messages == [DataAt(queues, e)];
          results := results + [r];
        } else {
          Named(S());
          MoreResult(S(), p, pending[..i], e, results, k);
          results := results[k := results[k].(messages := results[k].messages + [MessageOf(e)])];
        }
        i := i + 1;
      }
      assert pending[..|pending|] == pending;
    }

    function MessageOf(e: Entry): (data: string)
      requires e.q < |queues| && HasRev(queues[e.q].msgs, e.rev)
      reads this
      ensures data == DataAt(queues, e)
    {
      queues[e.q].msgs[Ops.IndexOf(queues[e.q].msgs, e.rev)].data
    }

    /** `json_object_object_get` on the response */
    method FindResult(results: seq<QueueResult>, name: string) returns (k: nat)
      ensures k <= |results| && (k < |results| ==> results[k].name == name)
      ensures k == |results| ==> forall j :: 0 <= j < |results| ==> results[j].name != name
    {
      k := 0;
      while k < |results| && results[k].name != name
        invariant k <= |results| && forall j :: 0 <= j < k ==> results[j].name != name
      {
        k := k + 1;
      }
    }

    /** The loop that looks for a binder of this poller and queue with `include_consumers` */
    method IncludeConsumers(p: nat, qi: nat) returns (wanted: bool)
      ensures wanted <==> AsksConsumers(binders, p, qi)
    {
      var i := 0;
      while i < |binders|
        invariant i <= |binders|
        invariant forall j :: 0 <= j < i ==>
          !(binders[j].p == p && binders[j].q == qi && binders[j].includeConsumers)
      {
        if binders[i].p == p && binders[i].q == qi && binders[i].includeConsumers {
          return true;
        }
        i := i + 1;
      }
      return false;
    }

    /** What `memqueue_poll_queue` does after the response */
    method Finish(p: nat)
      requires Inv(S()) && p < |pollers|
      modifies this
      ensures Inv(S()) && S() == Steps.Finish(old(S()), p)
    {
      hide Inv, Steps.ReleasePending;
      Steps.UnbindInv(S(), p);
      UnbindAll(p);
      ReleasePending(p);
      Steps.CloseInv(S(), p);
      pollers := pollers[p := pollers[p].(open := false)];
    }

    /** `memqueue_unbind_all` */
    method UnbindAll(p: nat)
      modifies this`binders
      ensures S() == Steps.Unbind(old(S()), p)
    {
      var kept: seq<Binder> := [];
      var i := 0;
      assert binders[0..] == binders;
      while i < |binders|
        invariant i <= |binders|
        invariant kept + Steps.Unbound(binders[i..], p) == Steps.Unbound(binders, p)
      {
        if binders[i].p != p {
          kept := kept + [binders[i]];
        }
        assert binders[i..][1..] == binders[i + 1..];
        i := i + 1;
      }
      binders := kept;
    }

    /** `cli_binder_release_pending_msgs` */
    method ReleasePending(p: nat)
      requires Inv(S()) && p < |pollers|
      modifies this
      ensures S() == Steps.ReleasePending(old(S()), p)
    {
      hide Inv, Steps.ReleasePending;
      ghost var goal := Steps.ReleasePending(S(), p);
      while pollers[p].pending != []
        invariant Inv(S()) && p < |pollers| && Steps.ReleasePending(S(), p) == goal
        decreases |pollers[p].pending|
      {
        ReleaseStep(S(), p);
        ghost var s := S();
        var e := pollers[p].pending[0];
        MsgRelease(e.q, Ops.IndexOf(queues[e.q].msgs, e.rev));
        pollers := pollers[p := pollers[p].(pending := pollers[p].pending[1..])];
        assert S() == Ops.Drop(s, p);
      }
      ReleaseEnds(S(), p);
    }
  }

  lemma SameBinders(s: Server, s': Server)
    requires Bound(s) && s'.binders == s.binders && s'.pollers == s.pollers && |s'.queues| == |s.queues|
    requires forall i :: 0 <= i < |s.queues| ==> s'.queues[i].rev == s.queues[i].rev
    ensures Bound(s')
  {
  }

  lemma OpenAt(s: Server, i: nat)
    requires Bound(s) && i < |s.binders|
    ensures s.binders[i].p < |s.pollers| && s.pollers[s.binders[i].p].open
  {
  }

  lemma InvBound(s: Server)
    requires Inv(s)
    ensures Bound(s)
  {
  }

  /** What posting comes to */
  lemma ApplyPost(s: Server, name: string, msecs: int, data: string)
    requires Inv(s)
    ensures Inv(Runs.Apply(s, Runs.Post(name, msecs, data)))
    ensures name !in s.store ==> Runs.Apply(s, Runs.Post(name, msecs, data)) == s
    ensures name in s.store ==>
      var qi := s.store[name];
      && Steps.LiveAt(s, qi)
      && var q := s.queues[qi];
      && Bound(s) && (Ops.Crowded(q) ==> q.msgs != [] && q.msgsInQueue > 0)
      && var s1 := if Ops.Crowded(q) then Ops.DropHead(s, qi) else s;
      && Bound(s1) && Steps.LiveAt(s1, qi)
      && Runs.Apply(s, Runs.Post(name, msecs, data)) ==
         if Ops.Crowded(q) && !q.dropFromHead then s else Steps.MsgCreate(s1, qi, msecs, data)
  {
    hide Books, Bound, Steps.MsgCreate, Ops.DropHead;
    if name in s.store {
      var qi := s.store[name];
      Steps.StoreLive(s, name);
      Runs.HeadKeepsQueue(s, qi);
      if Ops.Crowded(s.queues[qi]) {
        Ops.DropHeadInv(s, qi);
      }
    }
  }

  lemma ApplyDelete(s: Server, name: string)
    requires Inv(s) && Runs.Enabled(s, Runs.Delete(name))
    ensures Inv(Runs.Apply(s, Runs.Delete(name)))
    ensures name !in s.store ==> Runs.Apply(s, Runs.Delete(name)) == s
    ensures name in s.store ==>
      var qi := s.store[name];
      && Steps.LiveAt(s, qi) && s.queues[qi].refs > 0 && !s.queues[qi].timer
      && Runs.Apply(s, Runs.Delete(name)) == Ops.DropBase(s, qi)
  {
    hide Books, Bound, Ops.DropBase;
    if name in s.store {
      Steps.StoreLive(s, name);
      Ops.DropBaseInv(s, s.store[name]);
    }
  }

  lemma ApplyMsgTimer(s: Server, qi: nat, k: nat)
    requires Inv(s) && Runs.Enabled(s, Runs.MsgTimer(qi, k))
    ensures Inv(Runs.Apply(s, Runs.MsgTimer(qi, k))) && qi < |s.queues| && s.queues[qi].live
    ensures Ops.CanRelease(s.queues[qi], k) && Ops.CanRelease(Expired(s.queues[qi], k), k)
    ensures Runs.Apply(s, Runs.MsgTimer(qi, k)) == Put(s, qi, QueueState.Release(Expired(s.queues[qi], k), k))
  {
    hide Books, Bound;
    Ops.ExpireMsgInv(s, qi, k);
  }

  lemma ApplyQueueTimer(s: Server, qi: nat)
    requires Inv(s) && Runs.Enabled(s, Runs.QueueTimer(qi))
    ensures Inv(Runs.Apply(s, Runs.QueueTimer(qi))) && qi < |s.queues| && s.queues[qi].refs > 0 && s.queues[qi].live
    ensures Runs.Apply(s, Runs.QueueTimer(qi)) == Ops.DropBase(s, qi)
  {
    hide Books, Bound, Ops.DropBase;
    Ops.DropBaseInv(s, qi);
  }

  // ---------- the order of posting and retaining does not matter ----------

  function Retained(s: Server, qi: nat): Server
    requires qi < |s.queues|
  {
    s.(queues := s.queues[qi := s.queues[qi].(refs := s.queues[qi].refs + 1)])
  }

  lemma RetainedBound(s: Server, qi: nat)
    requires Bound(s) && Steps.LiveAt(s, qi)
    ensures Bound(Retained(s, qi)) && Steps.LiveAt(Retained(s, qi), qi)
  {
  }

  lemma {:induction false} DeliverRetains(s: Server, qi: nat, k: nat, i: nat)
    requires Bound(s) && Steps.LiveAt(s, qi) && k < |s.queues[qi].msgs| && i <= |s.binders|
    ensures Bound(Retained(s, qi)) && Steps.Deliver(Retained(s, qi), qi, k, i) == Retained(Steps.Deliver(s, qi, k, i), qi)
    decreases |s.binders| - i
  {
    hide Bound;
    RetainedBound(s, qi);
    if i < |s.binders| {
      var b := s.binders[i];
      if b.q == qi && b.rev <= s.queues[qi].rev {
        OpenAt(s, i);
        Ops.EnqueueBound(s, b.p, qi, k);
        Ops.EnqueueBound(Retained(s, qi), b.p, qi, k);
        DeliverRetains(Ops.Enqueue(s, b.p, qi, k), qi, k, i + 1);
        assert Ops.Enqueue(Retained(s, qi), b.p, qi, k) == Retained(Ops.Enqueue(s, b.p, qi, k), qi);
      } else {
        DeliverRetains(s, qi, k, i + 1);
      }
    }
  }

  lemma CreateRetains(s: Server, qi: nat, msecs: int, data: string)
    requires Bound(s) && Steps.LiveAt(s, qi)
    ensures Bound(Retained(s, qi)) && Steps.LiveAt(Retained(s, qi), qi)
    ensures Steps.MsgCreate(Retained(s, qi), qi, msecs, data) == Retained(Steps.MsgCreate(s, qi, msecs, data), qi)
  {
    RetainedBound(s, qi);
    Steps.AppendedBound(s, qi, msecs, data);
    Steps.AppendedBound(Retained(s, qi), qi, msecs, data);
    DeliverRetains(Steps.Appended(s, qi, msecs, data), qi, |s.queues[qi].msgs|, 0);
    assert Steps.Appended(Retained(s, qi), qi, msecs, data) == Retained(Steps.Appended(s, qi, msecs, data), qi);
  }

  /** The message posted for the consumer and the consumer itself hold two references. */
  lemma StillHeld(s: Server, qi: nat, id: string)
    requires Inv(s) && Steps.LiveAt(s, qi) && id in s.queues[qi].consumers
    ensures Steps.MsgCreate(s, qi, Steps.CONSUMER_MSECS, id + ":expired").queues[qi].refs >= 2
    ensures Steps.MsgCreate(s, qi, Steps.CONSUMER_MSECS, id + ":expired").queues[qi].consumers == s.queues[qi].consumers
  {
    hide Steps.MsgCreate;
    Booked(s, AllPending(s.pollers), qi);
  }

  // ---------- unfolding the loops ----------

  /** The poller is not bound yet to the queues of the arguments from `i` on. */
  predicate Unmet(store: map<string, nat>, binders: seq<Binder>, p: nat, args: seq<Steps.PollArg>, i: nat) {
    forall j :: i <= j < |args| && args[j].name in store ==> Steps.NotBound(binders, p, store[args[j].name])
  }

  predicate NoneFound(store: map<string, nat>, args: seq<Steps.PollArg>, i: nat) {
    forall j :: 0 <= j < |args| && j < i ==> args[j].name !in store
  }

  lemma FoundOne(store: map<string, nat>, args: seq<Steps.PollArg>, i: nat)
    requires i < |args|
    ensures NoneFound(store, args, 0)
    ensures NoneFound(store, args, i + 1) <==> NoneFound(store, args, i) && args[i].name !in store
  {
  }

  lemma FoundAll(s: Server, args: seq<Steps.PollArg>)
    ensures NoneFound(s.store, args, 0) && (NoneFound(s.store, args, |args|) <==> Steps.NothingFound(s, args))
  {
  }

  lemma NobodyYet(s: Server, args: seq<Steps.PollArg>)
    requires Inv(s)
    ensures Unmet(s.store, s.binders, |s.pollers|, args, 0)
  {
  }

  lemma MetOne(
    s: Server, was: seq<Binder>, b: Binder, binders: seq<Binder>, p: nat, args: seq<Steps.PollArg>, i: nat)
    requires StoreNames(s) && Delivery.DistinctNames(args) && i < |args| && args[i].name in s.store
    requires Unmet(s.store, was, p, args, i)
    requires b.p == p && b.q == s.store[args[i].name] && binders == [b] + was
    ensures Steps.NotBound(was, p, s.store[args[i].name]) && Unmet(s.store, binders, p, args, i + 1)
  {
    forall j | i + 1 <= j < |args| && args[j].name in s.store
      ensures Steps.NotBound(binders, p, s.store[args[j].name])
    {
      assert Steps.NotBound(was, p, s.store[args[j].name]);
      forall k | 0 <= k < |binders|
        ensures binders[k].p != p || binders[k].q != s.store[args[j].name]
      {
        if k > 0 {
          assert binders[k] == was[k - 1];
        }
      }
    }
  }

  lemma MetNone(store: map<string, nat>, binders: seq<Binder>, p: nat, args: seq<Steps.PollArg>, i: nat)
    requires i < |args|
    ensures Unmet(store, binders, p, args, i) ==> Unmet(store, binders, p, args, i + 1)
  {
  }

  lemma PollAllStep(s: Server, p: nat, args: seq<Steps.PollArg>, i: nat)
    requires Inv(s) && p < |s.pollers| && s.pollers[p].open && i < |args|
    ensures args[i].name !in s.store ==> Steps.PollAll(s, p, args, i) == Steps.PollAll(s, p, args, i + 1)
    ensures args[i].name in s.store ==>
      var qi := s.store[args[i].name];
      && Bound(s) && Steps.LiveAt(s, qi)
      && var s1 := Steps.PollOne(s, p, qi, args[i]);
      && Inv(s1) && p < |s1.pollers| && s1.pollers[p].open && s1.store == s.store
      && Steps.PollAll(s, p, args, i) == Steps.PollAll(s1, p, args, i + 1)
  {
    hide Books, Steps.PollOne;
    if args[i].name in s.store {
      Steps.StoreLive(s, args[i].name);
      Steps.PollOneInv(s, p, s.store[args[i].name], args[i]);
    }
  }

  lemma PollAllEnds(s: Server, p: nat, args: seq<Steps.PollArg>)
    requires Inv(s) && p < |s.pollers| && s.pollers[p].open
    ensures Steps.PollAll(s, p, args, |args|) == s
  {
  }

  lemma BeginIs(s: Server, args: seq<Steps.PollArg>)
    requires Inv(s)
    ensures Inv(Steps.NewPoller(s)) && Inv(Steps.PollBegin(s, args))
    ensures Steps.PollBegin(s, args) ==
      if Steps.NothingFound(s, args) then Steps.Close(Steps.NewPoller(s), |s.pollers|)
      else Steps.PollAll(Steps.NewPoller(s), |s.pollers|, args, 0)
  {
    hide Books, Bound, Steps.PollAll;
    Steps.NewPollerInv(s);
  }

  lemma ReleaseStep(s: Server, p: nat)
    requires Inv(s) && p < |s.pollers| && s.pollers[p].pending != []
    ensures Ops.CanDrop(s, p) && Inv(Ops.Drop(s, p)) && p < |Ops.Drop(s, p).pollers|
    ensures var e := s.pollers[p].pending[0];
      e.q < |s.queues| && HasRev(s.queues[e.q].msgs, e.rev) &&
      Ops.CanRelease(s.queues[e.q], Ops.IndexOf(s.queues[e.q].msgs, e.rev))
    ensures Steps.ReleasePending(s, p) == Steps.ReleasePending(Ops.Drop(s, p), p)
  {
    hide Inv;
    Ops.DropInv(s, p);
    Steps.DropShape(s, p);
  }

  lemma ReleaseEnds(s: Server, p: nat)
    requires Inv(s) && p < |s.pollers| && s.pollers[p].pending == []
    ensures Steps.ReleasePending(s, p) == s
  {
    hide Inv;
  }

  // ---------- the response ----------

  /** The element of the response for one queue: the data of its pending messages in order, its revision now, and its
      consumers if the poll asks for them. */
  predicate ResultOk(s: Server, p: nat, pending: seq<Entry>, r: QueueResult) {
    r.name in s.store && s.store[r.name] < |s.queues| &&
    var qi := s.store[r.name];
    && r.messages == DataOf(s.queues, pending, qi) && r.messages != []
    && r.rev == s.queues[qi].rev
    && r.consumers == if AsksConsumers(s.binders, p, qi) then Some(s.queues[qi].consumers) else None
  }

  predicate Answers(results: seq<QueueResult>, name: string) {
    exists k :: 0 <= k < |results| && results[k].name == name
  }

  /** One element for each queue that something is pending of, and none for any other */
  predicate Results(s: Server, p: nat, pending: seq<Entry>, results: seq<QueueResult>) {
    && (forall k :: 0 <= k < |results| ==> ResultOk(s, p, pending, results[k]))
    && (forall i, j :: 0 <= i < j < |results| ==> results[i].name != results[j].name)
    && (forall i :: 0 <= i < |pending| ==>
          pending[i].q < |s.queues| && Answers(results, s.queues[pending[i].q].name))
  }

  lemma PendingLive(s: Server, p: nat, e: Entry)
    requires Inv(s) && p < |s.pollers| && e in s.pollers[p].pending
    ensures e.q < |s.queues| && s.queues[e.q].live && HasRev(s.queues[e.q].msgs, e.rev)
    ensures s.queues[e.q].name in s.store && s.store[s.queues[e.q].name] == e.q
  {
    PendingUpdate(s.pollers, p, s.pollers[p]);
    assert e in multiset(s.pollers[p].pending);
    assert e in AllPending(s.pollers);
    hide Bound, QueuesOk;
  }

  lemma DataMore(queues: seq<Queue>, pending: seq<Entry>, e: Entry, qi: nat)
    ensures DataOf(queues, pending + [e], qi) ==
      DataOf(queues, pending, qi) + if e.q == qi then [DataAt(queues, e)] else []
  {
    assert (pending + [e])[..|pending|] == pending;
  }

  lemma {:induction false} DataNone(queues: seq<Queue>, pending: seq<Entry>, qi: nat)
    requires forall i :: 0 <= i < |pending| ==> pending[i].q != qi
    ensures DataOf(queues, pending, qi) == []
  {
    if pending != [] {
      DataNone(queues, pending[..|pending| - 1], qi);
    }
  }

  /** Results for other queues stay as they are. */
  lemma OtherResult(s: Server, p: nat, pending: seq<Entry>, e: Entry, r: QueueResult)
    requires ResultOk(s, p, pending, r) && s.store[r.name] != e.q
    ensures ResultOk(s, p, pending + [e], r)
  {
    DataMore(s.queues, pending, e, s.store[r.name]);
  }

  lemma NewResult(s: Server, p: nat, pending: seq<Entry>, e: Entry, results: seq<QueueResult>)
    requires Results(s, p, pending, results) && e.q < |s.queues| && StoreNames(s)
    requires var name := s.queues[e.q].name;
      name in s.store && s.store[name] == e.q && forall k :: 0 <= k < |results| ==> results[k].name != name
    ensures var q := s.queues[e.q];
      var consumers := if AsksConsumers(s.binders, p, e.q) then Some(q.consumers) else None;
      Results(s, p, pending + [e], results + [QueueResult(q.name, [DataAt(s.queues, e)], q.rev, consumers)])
  {
    hide DataOf, DataAt, AsksConsumers;
    var q := s.queues[e.q];
    var consumers := if AsksConsumers(s.binders, p, e.q) then Some(q.consumers) else None;
    var more := results + [QueueResult(q.name, [DataAt(s.queues, e)], q.rev, consumers)];
    forall i | 0 <= i < |pending|
      ensures pending[i].q != e.q && Answers(more, s.queues[pending[i].q].name)
    {
      var k :| 0 <= k < |results| && results[k].name == s.queues[pending[i].q].name;
      assert more[k] == results[k];
    }
    DataNone(s.queues, pending, e.q);
    DataMore(s.queues, pending, e, e.q);
    forall k | 0 <= k < |more|
      ensures ResultOk(s, p, pending + [e], more[k])
    {
      if k < |results| {
        assert ResultOk(s, p, pending, results[k]);
        OtherResult(s, p, pending, e, results[k]);
      }
    }
    assert more[|results|].name == q.name;
  }

  predicate StoreNames(s: Server) {
    forall name :: name in s.store ==> s.store[name] < |s.queues| && s.queues[s.store[name]].name == name
  }

  lemma Named(s: Server)
    requires Inv(s)
    ensures StoreNames(s)
  {
  }

  lemma MoreResult(s: Server, p: nat, pending: seq<Entry>, e: Entry, results: seq<QueueResult>, k: nat)
    requires Results(s, p, pending, results) && e.q < |s.queues| && StoreNames(s) && k < |results|
    requires results[k].name == s.queues[e.q].name && results[k].name in s.store && s.store[results[k].name] == e.q
    ensures
      var r := results[k];
      Results(s, p, pending + [e], results[k := r.(messages := r.messages + [DataAt(s.queues, e)])])
  {
    hide DataOf, DataAt, AsksConsumers;
    var r := results[k];
    var more := results[k := r.(messages := r.messages + [DataAt(s.queues, e)])];
    assert forall j :: 0 <= j < |results| ==> more[j].name == results[j].name;
    forall i | 0 <= i < |pending + [e]|
      ensures (pending + [e])[i].q < |s.queues| && Answers(more, s.queues[(pending + [e])[i].q].name)
    {
      if i < |pending| {
        assert (pending + [e])[i] == pending[i];
        var j :| 0 <= j < |results| && results[j].name == s.queues[pending[i].q].name;
        assert more[j].name == results[j].name;
      } else {
        assert more[k].name == s.queues[e.q].name;
      }
    }
    DataMore(s.queues, pending, e, e.q);
    forall j | 0 <= j < |more|
      ensures ResultOk(s, p, pending + [e], more[j])
    {
      assert ResultOk(s, p, pending, results[j]);
      if j != k {
        OtherResult(s, p, pending, e, results[j]);
      }
    }
  }
}
