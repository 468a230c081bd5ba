/** What src/memqueue.c does to the server, operation by operation; each keeps the invariant. */
module QueueOps {
  import opened QueueState

  // ---------- pending messages ----------

  /** `cli_binder_enqueue_msg` */
  function Enqueue(s: Server, p: nat, qi: nat, k: nat): Server
    requires p < |s.pollers| && qi < |s.queues| && k < |s.queues[qi].msgs|
  {
    var q, b := s.queues[qi], s.pollers[p];
    s.(queues := s.queues[qi := Retain(q, k)],
       pollers := s.pollers[p := b.(pending := b.pending + [Entry(qi, q.msgs[k].rev)])])
  }

  lemma EnqueueInv(s: Server, p: nat, qi: nat, k: nat)
    requires Inv(s) && p < |s.pollers| && s.pollers[p].open
    requires qi < |s.queues| && s.queues[qi].live && k < |s.queues[qi].msgs|
    ensures Inv(Enqueue(s, p, qi, k))
  {
    hide QueueOk, Stored, Held, QueuesOk, Fits, Bound;
    var q, b := s.queues[qi], s.pollers[p];
    var e := Entry(qi, q.msgs[k].rev);
    var pend := AllPending(s.pollers);
    var b' := b.(pending := b.pending + [e]);
    PendingUpdate(s.pollers, p, b');
    assert AllPending(s.pollers[p := b']) == pend + multiset{e};
    Booked(s, pend, qi);
    RetainOk(q, qi, k, pend);
    RetainFits(s, qi, k, pend);
    PutBooks(s, qi, Retain(q, k), pend, pend + multiset{e});
    EnqueueBound(s, p, qi, k);
  }

  lemma EnqueueBound(s: Server, p: nat, qi: nat, k: nat)
    requires Bound(s) && p < |s.pollers| && s.pollers[p].open && qi < |s.queues| && k < |s.queues[qi].msgs|
    ensures Bound(Enqueue(s, p, qi, k))
  {
  }

  lemma RetainFits(s: Server, qi: nat, k: nat, pend: multiset<Entry>)
    requires Books(s, pend) && qi < |s.queues| && s.queues[qi].live && k < |s.queues[qi].msgs|
    requires QueueOk(Retain(s.queues[qi], k), qi, pend + multiset{Entry(qi, s.queues[qi].msgs[k].rev)})
    ensures Fits(s, qi, Retain(s.queues[qi], k), pend, pend + multiset{Entry(qi, s.queues[qi].msgs[k].rev)})
  {
    var q := s.queues[qi];
    var q', pend' := Retain(q, k), pend + multiset{Entry(qi, q.msgs[k].rev)};
    assert forall j :: 0 <= j < |q.msgs| ==> q'.msgs[j].rev == q.msgs[j].rev;
    forall e: Entry | e in pend' && e.q == qi
      ensures HasRev(q'.msgs, e.rev)
    {
      if e in pend {
        assert HasRev(q.msgs, e.rev);
      } else {
        assert e.rev == q'.msgs[k].rev;
      }
    }
  }

  // ---------- steps of a single queue ----------

  lemma PutInv(s: Server, qi: nat, q: Queue)
    requires Inv(s) && Fits(s, qi, q, AllPending(s.pollers), AllPending(s.pollers)) && q.rev >= s.queues[qi].rev
    ensures Inv(Put(s, qi, q))
  {
    PutBound(s, qi, q);
    hide QueueOk, Stored, Held, QueuesOk, Bound;
    PutBooks(s, qi, q, AllPending(s.pollers), AllPending(s.pollers));
  }

  lemma PutBound(s: Server, qi: nat, q: Queue)
    requires Bound(s) && qi < |s.queues| && q.rev >= s.queues[qi].rev
    ensures Bound(Put(s, qi, q))
  {
  }

  lemma PendingHere(s: Server, pend: multiset<Entry>, qi: nat)
    requires Books(s, pend) && qi < |s.queues|
    ensures forall e: Entry :: e in pend && e.q == qi ==> HasRev(s.queues[qi].msgs, e.rev)
  {
  }

  /** What pends is still there after a release. */
  lemma ReleaseKeeps(q: Queue, qi: nat, k: nat, pend: multiset<Entry>)
    requires k < |q.msgs| && Owing(q, qi, k, pend)
    requires forall e: Entry :: e in pend && e.q == qi ==> HasRev(q.msgs, e.rev)
    ensures q.msgsInQueue > 0
    ensures forall e: Entry :: e in pend && e.q == qi ==> HasRev(Release(q, k).msgs, e.rev)
  {
    OwedCount(q, qi, k, pend);
    hide Owing, QueueOk;
    var msgs := Release(q, k).msgs;
    forall e: Entry | e in pend && e.q == qi
      ensures HasRev(msgs, e.rev)
    {
      var j :| 0 <= j < |q.msgs| && q.msgs[j].rev == e.rev;
      if q.msgs[k].refs == 1 {
        assert j != k;
        assert msgs[if j < k then j else j - 1] == q.msgs[j];
      } else {
        assert msgs[j].rev == q.msgs[j].rev;
      }
    }
  }

  lemma OwedCount(q: Queue, qi: nat, k: nat, pend: multiset<Entry>)
    requires k < |q.msgs| && Owing(q, qi, k, pend)
    ensures q.msgsInQueue == |q.msgs| && q.msgs[k].refs - 1 == Own(q.msgs[k]) + pend[Entry(qi, q.msgs[k].rev)]
  {
    var m := q.msgs[k].(refs := q.msgs[k].refs - 1);
    assert q.msgs[k := m][k] == m;
  }

  /** A message that owes a reference gives it up. */
  lemma ReleaseFits(s: Server, qi: nat, q: Queue, k: nat, pend: multiset<Entry>, pend': multiset<Entry>)
    requires qi < |s.queues| && s.queues[qi].live && q.live && q.name == s.queues[qi].name
    requires k < |q.msgs| && Owing(q, qi, k, pend')
    requires forall e: Entry :: e.q != qi ==> pend'[e] == pend[e]
    requires forall e: Entry :: e in pend' && e.q == qi ==> HasRev(q.msgs, e.rev)
    ensures q.msgsInQueue > 0 && Fits(s, qi, Release(q, k), pend, pend')
  {
    ReleaseKeeps(q, qi, k, pend');
    ReleaseOk(q, qi, k, pend');
    hide Owing, QueueOk;
  }

  /** Where the message with this revision stands in the list */
  function IndexOf(msgs: seq<Msg>, rev: nat): (k: nat)
    requires HasRev(msgs, rev)
    ensures k < |msgs| && msgs[k].rev == rev
  {
    if msgs[0].rev == rev then 0
    else
      assert forall k :: 0 < k < |msgs| ==> msgs[1..][k - 1] == msgs[k];
      1 + IndexOf(msgs[1..], rev)
  }

  /** The first pending message of a poller is released. */
  ghost predicate CanDrop(s: Server, p: nat) {
    p < |s.pollers| && s.pollers[p].pending != [] &&
    var e := s.pollers[p].pending[0];
    e.q < |s.queues| && HasRev(s.queues[e.q].msgs, e.rev) &&
    var q := s.queues[e.q];
    q.live && q.refs > 0 && q.msgsInQueue > 0 && q.msgs[IndexOf(q.msgs, e.rev)].refs > 0
  }

  ghost function Drop(s: Server, p: nat): Server
    requires CanDrop(s, p)
  {
    var b := s.pollers[p];
    var e := b.pending[0];
    var q := s.queues[e.q];
    Put(s, e.q, Release(q, IndexOf(q.msgs, e.rev))).(pollers := s.pollers[p := b.(pending := b.pending[1..])])
  }

  lemma DropInv(s: Server, p: nat)
    requires Inv(s) && p < |s.pollers| && s.pollers[p].pending != []
    ensures CanDrop(s, p) && Inv(Drop(s, p))
  {
    hide QueueOk, Stored, QueuesOk, Fits, Bound, Owing, Release, Put, HasRev, IndexOf;
    var b := s.pollers[p];
    var e := b.pending[0];
    var pend := AllPending(s.pollers);
    var b' := b.(pending := b.pending[1..]);
    PendingUpdate(s.pollers, p, b');
    assert b.pending == [e] + b.pending[1..];
    assert e in pend && AllPending(s.pollers[p := b']) == pend - multiset{e};
    DropBooks(s, e, pend);
    DropBound(s, p);
  }

  lemma DropBooks(s: Server, e: Entry, pend: multiset<Entry>)
    requires Books(s, pend) && e in pend
    ensures e.q < |s.queues| && s.queues[e.q].live && HasRev(s.queues[e.q].msgs, e.rev)
    ensures var q := s.queues[e.q];
      var k := IndexOf(q.msgs, e.rev);
      && q.refs > 0 && q.msgsInQueue > 0 && q.msgs[k].refs > 0
      && Books(Put(s, e.q, Release(q, k)), pend - multiset{e})
  {
    hide QueueOk, Stored, QueuesOk, Fits, Owing;
    Booked(s, pend, e.q);
    var q := s.queues[e.q];
    var k := IndexOf(q.msgs, e.rev);
    EntryOwes(q, e.q, k, pend);
    PendingHere(s, pend, e.q);
    OweRefs(q, e.q, k, pend - multiset{e});
    ReleaseFits(s, e.q, q, k, pend, pend - multiset{e});
    PutBooks(s, e.q, Release(q, k), pend, pend - multiset{e});
  }

  lemma OweRefs(q: Queue, qi: nat, k: nat, pend: multiset<Entry>)
    requires k < |q.msgs| && Owing(q, qi, k, pend)
    ensures q.msgs[k].refs > 0 && q.refs > 0
  {
  }

  lemma DropBound(s: Server, p: nat)
    requires Bound(s) && CanDrop(s, p)
    ensures Bound(Drop(s, p))
  {
    hide HasRev, IndexOf;
  }

  // ---------- creating and freeing ----------

  /** `memqueue_create` */
  function Created(s: Server, name: string, expiry: int, maxSize: int, consumerExpiry: int, dropFromHead: bool): Server {
    var q := Queue(name, true, true, expiry > 0, 0, 1, maxSize, consumerExpiry, dropFromHead, 0, [], []);
    s.(queues := s.queues + [q], store := s.store[name := |s.queues|])
  }

  lemma CreatedInv(s: Server, name: string, expiry: int, maxSize: int, consumerExpiry: int, dropFromHead: bool)
    requires Inv(s) && name !in s.store
    ensures Inv(Created(s, name, expiry, maxSize, consumerExpiry, dropFromHead))
  {
    hide QueueOk, HasRev, Stored, AllPending;
    var s' := Created(s, name, expiry, maxSize, consumerExpiry, dropFromHead);
    var pend := AllPending(s.pollers);
    NoneYet(s'.queues[|s.queues|], |s.queues|, pend);
    forall i | 0 <= i < |s'.queues| && s'.queues[i].live
      ensures QueueOk(s'.queues[i], i, pend) && s'.queues[i].refs > 0
    {
      if i < |s.queues| {
        Booked(s, pend, i);
      }
    }
    forall e | e in pend
      ensures e.q < |s'.queues| && s'.queues[e.q].live && HasRev(s'.queues[e.q].msgs, e.rev)
    {
      assert s'.queues[e.q] == s.queues[e.q];
    }
    CreatedStored(s, name, s'.queues[|s.queues|]);
  }

  lemma NoneYet(q: Queue, qi: nat, pend: multiset<Entry>)
    requires q.msgs == [] && q.msgsInQueue == 0 && q.consumers == [] && q.base && q.refs == 1
    ensures QueueOk(q, qi, pend)
  {
  }

  lemma CreatedStored(s: Server, name: string, q: Queue)
    requires Stored(s.store, s.queues) && name !in s.store && q.live && q.name == name
    ensures Stored(s.store[name := |s.queues|], s.queues + [q])
  {
  }

  /** The base reference is dropped: by a deletion, or when the queue's timer runs out. */
  function DropBase(s: Server, qi: nat): Server
    requires qi < |s.queues| && s.queues[qi].refs > 0
  {
    var q := s.queues[qi];
    Put(s, qi, q.(base := false, timer := false, refs := q.refs - 1))
  }

  lemma DropBaseInv(s: Server, qi: nat)
    requires Inv(s) && qi < |s.queues| && s.queues[qi].live && s.queues[qi].base
    ensures s.queues[qi].refs > 0 && Inv(DropBase(s, qi))
  {
    hide QueueOk, Stored, Held, QueuesOk, Bound, HasRev;
    var q, pend := s.queues[qi], AllPending(s.pollers);
    Booked(s, pend, qi);
    PendingHere(s, pend, qi);
    BaseDropped(q, qi, pend);
    PutInv(s, qi, q.(base := false, timer := false, refs := q.refs - 1));
  }

  lemma BaseDropped(q: Queue, qi: nat, pend: multiset<Entry>)
    requires QueueOk(q, qi, pend) && q.base
    ensures q.refs > 0 && QueueOk(q.(base := false, timer := false, refs := q.refs - 1), qi, pend)
  {
  }

  /** A delete that frees the queue frees one that nothing refers to exactly if the base reference was still held. */
  lemma FreedUnused(s: Server, qi: nat)
    requires Inv(s) && qi < |s.queues| && s.queues[qi].live
    ensures s.queues[qi].refs > 0
    ensures
      var q := s.queues[qi];
      !DropBase(s, qi).queues[qi].live ==> (q.base <==> SumRefs(q.msgs) == 0 && q.consumers == [])
  {
    hide Stored, Held, QueuesOk, Bound;
    Booked(s, AllPending(s.pollers), qi);
  }

  /** A message that has a reference to give up */
  ghost predicate CanRelease(q: Queue, k: nat) {
    k < |q.msgs| && q.msgs[k].refs > 0 && q.refs > 0 && q.msgsInQueue > 0
  }

  function ExpireMsg(s: Server, qi: nat, k: nat): Server
    requires qi < |s.queues| && CanRelease(s.queues[qi], k)
  {
    Put(s, qi, Release(Expired(s.queues[qi], k), k))
  }

  lemma ExpireMsgInv(s: Server, qi: nat, k: nat)
    requires Inv(s) && qi < |s.queues| && s.queues[qi].live && k < |s.queues[qi].msgs| && s.queues[qi].msgs[k].timer
    ensures CanRelease(s.queues[qi], k) && Inv(ExpireMsg(s, qi, k))
  {
    hide QueueOk, Stored, QueuesOk, Fits, Bound, Owing;
    var q, pend := s.queues[qi], AllPending(s.pollers);
    Booked(s, pend, qi);
    TimerOwes(q, qi, k, pend);
    OweRefs(Expired(q, k), qi, k, pend);
    OwedCount(Expired(q, k), qi, k, pend);
    ExpiredKeeps(q, qi, k, pend) by { PendingHere(s, pend, qi); }
    ReleaseFits(s, qi, Expired(q, k), k, pend, pend);
    PutInv(s, qi, Release(Expired(q, k), k));
  }

  lemma ExpiredKeeps(q: Queue, qi: nat, k: nat, pend: multiset<Entry>)
    requires k < |q.msgs| && forall e: Entry :: e in pend && e.q == qi ==> HasRev(q.msgs, e.rev)
    ensures forall e: Entry :: e in pend && e.q == qi ==> HasRev(Expired(q, k).msgs, e.rev)
  {
    forall e: Entry | e in pend && e.q == qi
      ensures HasRev(Expired(q, k).msgs, e.rev)
    {
      var j :| 0 <= j < |q.msgs| && q.msgs[j].rev == e.rev;
      assert Expired(q, k).msgs[j].rev == e.rev;
    }
  }

  /** `is_memqueue_full`: with `drop_from_head` the first message is retained and released again. */
  predicate Crowded(q: Queue) {
    q.maxSize > 0 && q.maxSize <= q.msgsInQueue
  }

  function DropHead(s: Server, qi: nat): Server
    requires qi < |s.queues| && s.queues[qi].msgs != [] && s.queues[qi].msgsInQueue > 0
  {
    Put(s, qi, Release(Retain(s.queues[qi], 0), 0))
  }

  lemma DropHeadInv(s: Server, qi: nat)
    requires Inv(s) && qi < |s.queues| && s.queues[qi].live && Crowded(s.queues[qi])
    ensures s.queues[qi].msgs != [] && Inv(DropHead(s, qi))
  {
    hide QueueOk, Stored, QueuesOk, Fits, Bound, Owing;
    var q, pend := s.queues[qi], AllPending(s.pollers);
    Booked(s, pend, qi);
    NotEmpty(q, qi, pend);
    RetainedOwes(q, qi, 0, pend);
    RetainKeeps(q, qi, 0, pend) by { PendingHere(s, pend, qi); }
    ReleaseFits(s, qi, Retain(q, 0), 0, pend, pend);
    PutInv(s, qi, Release(Retain(q, 0), 0));
  }

  lemma RetainKeeps(q: Queue, qi: nat, k: nat, pend: multiset<Entry>)
    requires k < |q.msgs| && forall e: Entry :: e in pend && e.q == qi ==> HasRev(q.msgs, e.rev)
    ensures forall e: Entry :: e in pend && e.q == qi ==> HasRev(Retain(q, k).msgs, e.rev)
  {
    forall e: Entry | e in pend && e.q == qi
      ensures HasRev(Retain(q, k).msgs, e.rev)
    {
      var j :| 0 <= j < |q.msgs| && q.msgs[j].rev == e.rev;
      assert Retain(q, k).msgs[j].rev == e.rev;
    }
  }
}
