/** What a queue keeps of its past: revisions grow, messages never change, and one that has left never comes back. */
module QueueHistory {
  import opened Wrappers
  import opened QueueState
  import opened QueueOps
  import opened QueueSteps

  predicate Holds(msgs: seq<Msg>, rev: nat, data: string) {
    exists k :: 0 <= k < |msgs| && msgs[k].rev == rev && msgs[k].data == data
  }

  /** Every message of `q'` is one of `q`, or newer than all of `q`. */
  predicate Kept(q: Queue, q': Queue) {
    && q.rev <= q'.rev
    && forall j :: 0 <= j < |q'.msgs| ==> q'.msgs[j].rev > q.rev || Holds(q.msgs, q'.msgs[j].rev, q'.msgs[j].data)
  }

  predicate Older(s: Server, s': Server, qi: nat) {
    qi < |s.queues| && qi < |s'.queues| && Kept(s.queues[qi], s'.queues[qi])
  }

  lemma KeptTrans(a: Queue, b: Queue, c: Queue)
    requires Kept(a, b) && Kept(b, c)
    ensures Kept(a, c)
  {
  }

  /** The same revisions with the same data, perhaps without one of them */
  lemma KeptSame(q: Queue, q': Queue)
    requires q.rev <= q'.rev && |q'.msgs| <= |q.msgs|
    requires forall j :: 0 <= j < |q'.msgs| ==> q'.msgs[j].rev == q.msgs[j].rev && q'.msgs[j].data == q.msgs[j].data
    ensures Kept(q, q')
  {
    forall j | 0 <= j < |q'.msgs|
      ensures Holds(q.msgs, q'.msgs[j].rev, q'.msgs[j].data)
    {
      assert q.msgs[j].rev == q'.msgs[j].rev;
    }
  }

  lemma KeptRelease(q: Queue, k: nat)
    requires CanRelease(q, k)
    ensures Kept(q, Release(q, k))
  {
    var q' := Release(q, k);
    forall j | 0 <= j < |q'.msgs|
      ensures Holds(q.msgs, q'.msgs[j].rev, q'.msgs[j].data)
    {
      var i := if q.msgs[k].refs == 1 && j >= k then j + 1 else j;
      assert q.msgs[i].rev == q'.msgs[j].rev && q.msgs[i].data == q'.msgs[j].data;
    }
  }

  lemma KeptNew(q: Queue, msecs: int, data: string, q': Queue)
    requires MoreRefs(NewMsg(q, msecs, data), q')
    ensures Kept(q, q') && Holds(q'.msgs, q.rev + 1, data)
  {
    forall j | 0 <= j < |q'.msgs|
      ensures q'.msgs[j].rev > q.rev || Holds(q.msgs, q'.msgs[j].rev, q'.msgs[j].data)
    {
      assert j < |q.msgs| ==> q.msgs[j].rev == q'.msgs[j].rev && q.msgs[j].data == q'.msgs[j].data;
    }
    assert q'.msgs[|q.msgs|].rev == q.rev + 1;
  }

  /** Releasing a message, in a queue that may be freed by it */
  lemma PutOlder(s: Server, qj: nat, q: Queue, qi: nat)
    requires qj < |s.queues| && qi < |s.queues| && Kept(s.queues[qj], q)
    ensures Older(s, Put(s, qj, q), qi)
  {
    KeptSame(s.queues[qi], s.queues[qi]);
  }

  lemma OlderTrans(a: Server, b: Server, c: Server, qi: nat)
    requires Older(a, b, qi) && Older(b, c, qi)
    ensures Older(a, c, qi)
  {
    KeptTrans(a.queues[qi], b.queues[qi], c.queues[qi]);
  }

  lemma OlderSelf(s: Server, s': Server, qi: nat)
    requires qi < |s.queues| && qi < |s'.queues| && s'.queues[qi].msgs == s.queues[qi].msgs && s'.queues[qi].rev == s.queues[qi].rev
    ensures Older(s, s', qi)
  {
    KeptSame(s.queues[qi], s'.queues[qi]);
  }

  lemma MsgCreateOlder(s: Server, qj: nat, msecs: int, data: string, qi: nat)
    requires Bound(s) && LiveAt(s, qj) && qi < |s.queues|
    ensures Older(s, MsgCreate(s, qj, msecs, data), qi)
    ensures Holds(MsgCreate(s, qj, msecs, data).queues[qj].msgs, s.queues[qj].rev + 1, data)
  {
    hide MsgCreate, Bound;
    var s' := MsgCreate(s, qj, msecs, data);
    KeptNew(s.queues[qj], msecs, data, s'.queues[qj]);
    KeptSame(s.queues[qi], s.queues[qi]);
  }

  lemma RefreshOlder(s: Server, qj: nat, id: string, qi: nat)
    requires Bound(s) && LiveAt(s, qj) && qi < |s.queues|
    ensures Older(s, RefreshConsumer(s, qj, id), qi)
  {
    hide MsgCreate, Kept, Older;
    OlderSelf(s, s, qi);
    if id !in s.queues[qj].consumers {
      var s1 := Joined(s, qj, id);
      OlderSelf(s, s1, qi);
      MsgCreateOlder(s1, qj, CONSUMER_MSECS, id + ":joined", qi);
      OlderTrans(s, s1, MsgCreate(s1, qj, CONSUMER_MSECS, id + ":joined"), qi);
    }
  }

  lemma PollOneOlder(s: Server, p: nat, qj: nat, arg: PollArg, qi: nat)
    requires Bound(s) && LiveAt(s, qj) && p < |s.pollers| && s.pollers[p].open && qi < |s.queues|
    ensures Older(s, PollOne(s, p, qj, arg), qi)
  {
    hide RefreshConsumer, EnqueueMsgs, Bound, Kept;
    var s1 := WithConsumer(s, qj, arg);
    OlderSelf(s, s, qi);
    if s.queues[qj].consumerExpiry != 0 && arg.consumer.Some? {
      RefreshOlder(s, qj, arg.consumer.value, qi);
    }
    var s2 := PollOne(s, p, qj, arg);
    KeptSame(s1.queues[qj], s2.queues[qj]);
    KeptSame(s1.queues[qi], s1.queues[qi]);
    OlderTrans(s, s1, s2, qi);
  }

  lemma {:induction false} PollAllOlder(s: Server, p: nat, args: seq<PollArg>, i: nat, qi: nat)
    requires Inv(s) && p < |s.pollers| && s.pollers[p].open && i <= |args| && qi < |s.queues|
    ensures Older(s, PollAll(s, p, args, i), qi)
    decreases |args| - i
  {
    hide PollOne, Books, Bound, Older;
    if i == |args| {
      OlderSelf(s, s, qi);
    } else if args[i].name !in s.store {
      PollAllOlder(s, p, args, i + 1, qi);
    } else {
      var qj := s.store[args[i].name];
      StoreLive(s, args[i].name);
      PollOneInv(s, p, qj, args[i]);
      PollOneOlder(s, p, qj, args[i], qi);
      var s1 := PollOne(s, p, qj, args[i]);
      PollAllOlder(s1, p, args, i + 1, qi);
      OlderTrans(s, s1, PollAll(s, p, args, i), qi);
    }
  }

  lemma DropOlder(s: Server, p: nat, qi: nat)
    requires CanDrop(s, p) && qi < |s.queues|
    ensures Older(s, Drop(s, p), qi)
  {
    var e := s.pollers[p].pending[0];
    var q := s.queues[e.q];
    KeptRelease(q, IndexOf(q.msgs, e.rev));
    PutOlder(s, e.q, Release(q, IndexOf(q.msgs, e.rev)), qi);
  }

  lemma {:induction false} ReleasePendingOlder(s: Server, p: nat, qi: nat)
    requires Inv(s) && p < |s.pollers| && qi < |s.queues|
    ensures Older(s, ReleasePending(s, p), qi)
    decreases |s.pollers[p].pending|
  {
    hide Inv, Drop, CanDrop, Older;
    if s.pollers[p].pending == [] {
      OlderSelf(s, s, qi);
    } else {
      DropInv(s, p);
      DropShape(s, p);
      DropOlder(s, p, qi);
      ReleasePendingOlder(Drop(s, p), p, qi);
      OlderTrans(s, Drop(s, p), ReleasePending(s, p), qi);
    }
  }

  lemma FinishOlder(s: Server, p: nat, qi: nat)
    requires Inv(s) && p < |s.pollers| && qi < |s.queues|
    ensures Older(s, Finish(s, p), qi)
  {
    hide Inv, ReleasePending, Older;
    UnbindInv(s, p);
    var s1 := Unbind(s, p);
    var s2 := ReleasePending(s1, p);
    OlderSelf(s, s1, qi);
    ReleasePendingOlder(s1, p, qi);
    OlderTrans(s, s1, s2, qi);
    OlderSelf(s2, Finish(s, p), qi);
    OlderTrans(s, s2, Finish(s, p), qi);
  }

  lemma ConsumerExpiredOlder(s: Server, qj: nat, id: string, qi: nat)
    requires Inv(s) && LiveAt(s, qj) && id in s.queues[qj].consumers && qi < |s.queues|
    ensures Older(s, ConsumerExpired(s, qj, id), qi)
  {
    hide MsgCreate, Books, Bound, Older;
    var s1 := MsgCreate(s, qj, CONSUMER_MSECS, id + ":expired");
    MsgCreateOlder(s, qj, CONSUMER_MSECS, id + ":expired", qi);
    OlderSelf(s1, ConsumerExpired(s, qj, id), qi);
    OlderTrans(s, s1, ConsumerExpired(s, qj, id), qi);
  }

  lemma DropHeadOlder(s: Server, qj: nat, qi: nat)
    requires Inv(s) && LiveAt(s, qj) && Crowded(s.queues[qj]) && qi < |s.queues|
    ensures s.queues[qj].msgs != [] && Older(s, DropHead(s, qj), qi)
  {
    var q := s.queues[qj];
    Booked(s, AllPending(s.pollers), qj);
    assert CanRelease(Retain(q, 0), 0);
    KeptRelease(Retain(q, 0), 0);
    KeptSame(q, Retain(q, 0));
    KeptTrans(q, Retain(q, 0), Release(Retain(q, 0), 0));
    hide Inv, Kept;
    PutOlder(s, qj, Release(Retain(q, 0), 0), qi);
  }

  lemma ExpireMsgOlder(s: Server, qj: nat, k: nat, qi: nat)
    requires qj < |s.queues| && CanRelease(s.queues[qj], k) && qi < |s.queues|
    ensures Older(s, ExpireMsg(s, qj, k), qi)
  {
    var q := s.queues[qj];
    KeptRelease(Expired(q, k), k);
    KeptSame(q, Expired(q, k));
    KeptTrans(q, Expired(q, k), Release(Expired(q, k), k));
    hide Kept;
    PutOlder(s, qj, Release(Expired(q, k), k), qi);
  }

  lemma DropBaseOlder(s: Server, qj: nat, qi: nat)
    requires qj < |s.queues| && s.queues[qj].refs > 0 && qi < |s.queues|
    ensures Older(s, DropBase(s, qj), qi)
  {
    OlderSelf(s, DropBase(s, qj), qi);
  }
}
