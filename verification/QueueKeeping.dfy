/** Why a message may leave its queue: while it has a reference of its own, only its timer can take it out. */
module QueueKeeping {
  import opened Wrappers
  import opened QueueState
  import opened QueueOps
  import opened QueueSteps

  /** The message of this revision is in the list, with a reference of its own if `own` is 1. */
  predicate Listed(msgs: seq<Msg>, rev: nat, expiry: int, own: nat) {
    exists k :: 0 <= k < |msgs| && msgs[k].rev == rev && msgs[k].expiry == expiry && Own(msgs[k]) >= own
  }

  predicate Owned(msgs: seq<Msg>, rev: nat, expiry: int) {
    Listed(msgs, rev, expiry, 1)
  }

  lemma ListedIsThere(msgs: seq<Msg>, rev: nat, expiry: int, own: nat)
    requires Listed(msgs, rev, expiry, own)
    ensures HasRev(msgs, rev)
  {
  }

  predicate Keeps(s: Server, s': Server, qi: nat, rev: nat, expiry: int, own: nat) {
    && qi < |s.queues| && qi < |s'.queues|
    && (Listed(s.queues[qi].msgs, rev, expiry, own) ==> Listed(s'.queues[qi].msgs, rev, expiry, own))
  }

  lemma KeepsSelf(s: Server, s': Server, qi: nat, rev: nat, expiry: int, own: nat)
    requires qi < |s.queues| && qi < |s'.queues| && s'.queues[qi].msgs == s.queues[qi].msgs
    ensures Keeps(s, s', qi, rev, expiry, own)
  {
  }

  lemma KeepsTrans(a: Server, b: Server, c: Server, qi: nat, rev: nat, expiry: int, own: nat)
    requires Keeps(a, b, qi, rev, expiry, own) && Keeps(b, c, qi, rev, expiry, own)
    ensures Keeps(a, c, qi, rev, expiry, own)
  {
  }

  /** The same messages, but for their reference counts, and perhaps more of them */
  lemma ListedSame(a: seq<Msg>, b: seq<Msg>, rev: nat, expiry: int, own: nat)
    requires |a| <= |b| && Listed(a, rev, expiry, own)
    requires forall j :: 0 <= j < |a| ==>
      b[j].rev == a[j].rev && b[j].expiry == a[j].expiry && b[j].timer == a[j].timer
    ensures Listed(b, rev, expiry, own)
  {
    var k :| 0 <= k < |a| && a[k].rev == rev && a[k].expiry == expiry && Own(a[k]) >= own;
    assert b[k].rev == rev;
  }

  lemma KeepsMore(s: Server, s': Server, qi: nat, rev: nat, expiry: int, own: nat)
    requires qi < |s.queues| && qi < |s'.queues| && MoreRefs(s.queues[qi], s'.queues[qi])
    ensures Keeps(s, s', qi, rev, expiry, own)
  {
    if Listed(s.queues[qi].msgs, rev, expiry, own) {
      ListedSame(s.queues[qi].msgs, s'.queues[qi].msgs, rev, expiry, own);
    }
  }

  /** A release takes out a message only with its last reference. */
  lemma ListedRelease(q: Queue, k: nat, rev: nat, expiry: int, own: nat)
    requires CanRelease(q, k) && Listed(q.msgs, rev, expiry, own)
    requires q.msgs[k].rev != rev || q.msgs[k].refs > 1
    ensures Listed(Release(q, k).msgs, rev, expiry, own)
  {
    var msgs := Release(q, k).msgs;
    var j :| 0 <= j < |q.msgs| && q.msgs[j].rev == rev && q.msgs[j].expiry == expiry && Own(q.msgs[j]) >= own;
    if q.msgs[k].refs == 1 {
      assert msgs[if j < k then j else j - 1] == q.msgs[j];
    } else {
      assert msgs[j].rev == rev;
    }
  }

  lemma PutKeeps(s: Server, qj: nat, q: Queue, qi: nat, rev: nat, expiry: int, own: nat)
    requires qj < |s.queues| && qi < |s.queues|
    requires qi == qj && Listed(s.queues[qi].msgs, rev, expiry, own) ==> Listed(q.msgs, rev, expiry, own)
    ensures Keeps(s, Put(s, qj, q), qi, rev, expiry, own)
  {
  }

  // ---------- operations ----------

  lemma MsgCreateKeeps(s: Server, qj: nat, msecs: int, data: string, qi: nat, rev: nat, expiry: int, own: nat)
    requires Bound(s) && LiveAt(s, qj) && qi < |s.queues|
    ensures Keeps(s, MsgCreate(s, qj, msecs, data), qi, rev, expiry, own)
    ensures msecs > 0 || msecs == -1 ==>
      Owned(MsgCreate(s, qj, msecs, data).queues[qj].msgs, s.queues[qj].rev + 1, msecs)
  {
    hide MsgCreate, Bound;
    var q, q' := s.queues[qj], MsgCreate(s, qj, msecs, data).queues[qj];
    if qi == qj && Listed(q.msgs, rev, expiry, own) {
      ListedSame(q.msgs, q'.msgs, rev, expiry, own);
    }
    assert q'.msgs[|q.msgs|].rev == q.rev + 1;
  }

  lemma RefreshKeeps(s: Server, qj: nat, id: string, qi: nat, rev: nat, expiry: int, own: nat)
    requires Bound(s) && LiveAt(s, qj) && qi < |s.queues|
    ensures Keeps(s, RefreshConsumer(s, qj, id), qi, rev, expiry, own)
  {
    hide MsgCreate, Keeps;
    KeepsSelf(s, s, qi, rev, expiry, own);
    if id !in s.queues[qj].consumers {
      var s1 := Joined(s, qj, id);
      KeepsSelf(s, s1, qi, rev, expiry, own);
      MsgCreateKeeps(s1, qj, CONSUMER_MSECS, id + ":joined", qi, rev, expiry, own);
      KeepsTrans(s, s1, MsgCreate(s1, qj, CONSUMER_MSECS, id + ":joined"), qi, rev, expiry, own);
    }
  }

  lemma PollOneKeeps(s: Server, p: nat, qj: nat, arg: PollArg, qi: nat, rev: nat, expiry: int, own: nat)
    requires Bound(s) && LiveAt(s, qj) && p < |s.pollers| && s.pollers[p].open && qi < |s.queues|
    ensures Keeps(s, PollOne(s, p, qj, arg), qi, rev, expiry, own)
  {
    hide RefreshConsumer, EnqueueMsgs, Bound, Listed;
    var s1 := WithConsumer(s, qj, arg);
    KeepsSelf(s, s, qi, rev, expiry, own);
    if s.queues[qj].consumerExpiry != 0 && arg.consumer.Some? {
      RefreshKeeps(s, qj, arg.consumer.value, qi, rev, expiry, own);
    }
    var s2 := PollOne(s, p, qj, arg);
    if qi == qj {
      KeepsMore(s1, s2, qi, rev, expiry, own);
    } else {
      KeepsSelf(s1, s2, qi, rev, expiry, own);
    }
    KeepsTrans(s, s1, s2, qi, rev, expiry, own);
  }

  lemma {:induction false} PollAllKeeps(
    s: Server, p: nat, args: seq<PollArg>, i: nat, qi: nat, rev: nat, expiry: int, own: nat)
    requires Inv(s) && p < |s.pollers| && s.pollers[p].open && i <= |args| && qi < |s.queues|
    ensures Keeps(s, PollAll(s, p, args, i), qi, rev, expiry, own)
    decreases |args| - i
  {
    hide PollOne, Books, Bound, Keeps;
    if i == |args| {
      KeepsSelf(s, s, qi, rev, expiry, own);
    } else if args[i].name !in s.store {
      PollAllKeeps(s, p, args, i + 1, qi, rev, expiry, own);
    } else {
      var qj := s.store[args[i].name];
      StoreLive(s, args[i].name);
      PollOneInv(s, p, qj, args[i]);
      PollOneKeeps(s, p, qj, args[i], qi, rev, expiry, own);
      var s1 := PollOne(s, p, qj, args[i]);
      PollAllKeeps(s1, p, args, i + 1, qi, rev, expiry, own);
      KeepsTrans(s, s1, PollAll(s, p, args, i), qi, rev, expiry, own);
    }
  }

  /** A pending message that has its own reference has at least two. */
  lemma DropKeeps(s: Server, p: nat, qi: nat, rev: nat, expiry: int, own: nat)
    requires Inv(s) && CanDrop(s, p) && qi < |s.queues|
    requires own == 1 || s.pollers[p].pending[0] != Entry(qi, rev)
    ensures Keeps(s, Drop(s, p), qi, rev, expiry, own)
  {
    var e := s.pollers[p].pending[0];
    var q := s.queues[e.q];
    var k := IndexOf(q.msgs, e.rev);
    if qi == e.q && Listed(q.msgs, rev, expiry, own) {
      PendingUpdate(s.pollers, p, s.pollers[p]);
      assert e in multiset(s.pollers[p].pending);
      Booked(s, AllPending(s.pollers), e.q);
      if q.msgs[k].rev == rev {
        ListedAt(q, k, expiry, own);
      }
      assert CanRelease(q, k);
      ListedRelease(q, k, rev, expiry, own);
    }
    hide Inv, Listed, IndexOf, HasRev;
    PutKeeps(s, e.q, Release(q, k), qi, rev, expiry, own);
  }

  /** Revisions tell messages apart. */
  lemma ListedAt(q: Queue, k: nat, expiry: int, own: nat)
    requires Ascending(q.msgs) && k < |q.msgs| && Listed(q.msgs, q.msgs[k].rev, expiry, own)
    ensures Own(q.msgs[k]) >= own && q.msgs[k].expiry == expiry
  {
    var j :| 0 <= j < |q.msgs| && q.msgs[j].rev == q.msgs[k].rev && q.msgs[j].expiry == expiry && Own(q.msgs[j]) >= own;
    assert j == k;
  }

  lemma {:induction false} ReleasePendingKeeps(s: Server, p: nat, qi: nat, rev: nat, expiry: int, own: nat)
    requires Inv(s) && p < |s.pollers| && qi < |s.queues|
    requires own == 1 || Entry(qi, rev) !in s.pollers[p].pending
    ensures Keeps(s, ReleasePending(s, p), qi, rev, expiry, own)
    decreases |s.pollers[p].pending|
  {
    hide Inv, Drop, CanDrop, Keeps;
    if s.pollers[p].pending == [] {
      KeepsSelf(s, s, qi, rev, expiry, own);
    } else {
      DropInv(s, p);
      DropShape(s, p);
      DropKeeps(s, p, qi, rev, expiry, own);
      ReleasePendingKeeps(Drop(s, p), p, qi, rev, expiry, own);
      KeepsTrans(s, Drop(s, p), ReleasePending(s, p), qi, rev, expiry, own);
    }
  }

  lemma FinishKeeps(s: Server, p: nat, qi: nat, rev: nat, expiry: int, own: nat)
    requires Inv(s) && p < |s.pollers| && qi < |s.queues|
    requires own == 1 || Entry(qi, rev) !in s.pollers[p].pending
    ensures Keeps(s, Finish(s, p), qi, rev, expiry, own)
  {
    hide Inv, ReleasePending, Keeps;
    UnbindInv(s, p);
    var s1 := Unbind(s, p);
    var s2 := ReleasePending(s1, p);
    KeepsSelf(s, s1, qi, rev, expiry, own);
    ReleasePendingKeeps(s1, p, qi, rev, expiry, own);
    KeepsTrans(s, s1, s2, qi, rev, expiry, own);
    KeepsSelf(s2, Finish(s, p), qi, rev, expiry, own);
    KeepsTrans(s, s2, Finish(s, p), qi, rev, expiry, own);
  }

  lemma ConsumerExpiredKeeps(s: Server, qj: nat, id: string, qi: nat, rev: nat, expiry: int, own: nat)
    requires Inv(s) && LiveAt(s, qj) && id in s.queues[qj].consumers && qi < |s.queues|
    ensures Keeps(s, ConsumerExpired(s, qj, id), qi, rev, expiry, own)
  {
    hide MsgCreate, Books, Bound, Keeps;
    var s1 := MsgCreate(s, qj, CONSUMER_MSECS, id + ":expired");
    MsgCreateKeeps(s, qj, CONSUMER_MSECS, id + ":expired", qi, rev, expiry, own);
    KeepsSelf(s1, ConsumerExpired(s, qj, id), qi, rev, expiry, own);
    KeepsTrans(s, s1, ConsumerExpired(s, qj, id), qi, rev, expiry, own);
  }

  lemma DropHeadKeeps(s: Server, qj: nat, qi: nat, rev: nat, expiry: int, own: nat)
    requires Inv(s) && LiveAt(s, qj) && Crowded(s.queues[qj]) && qi < |s.queues|
    requires own == 1 || qi != qj || (s.queues[qj].msgs != [] ==> s.queues[qj].msgs[0].rev != rev)
    ensures s.queues[qj].msgs != [] && Keeps(s, DropHead(s, qj), qi, rev, expiry, own)
  {
    var q := s.queues[qj];
    Booked(s, AllPending(s.pollers), qj);
    if qi == qj && Listed(q.msgs, rev, expiry, own) {
      ListedSame(q.msgs, Retain(q, 0).msgs, rev, expiry, own);
      if q.msgs[0].rev == rev {
        ListedAt(q, 0, expiry, own);
      }
      assert CanRelease(Retain(q, 0), 0);
      ListedRelease(Retain(q, 0), 0, rev, expiry, own);
    }
    hide Inv, Listed;
    PutKeeps(s, qj, Release(Retain(q, 0), 0), qi, rev, expiry, own);
  }

  /** A timer that runs out can only take out its own message. */
  lemma ExpireMsgKeeps(s: Server, qj: nat, k: nat, qi: nat, rev: nat, expiry: int, own: nat)
    requires qj < |s.queues| && CanRelease(s.queues[qj], k) && qi < |s.queues|
    requires qi == qj ==> s.queues[qj].msgs[k].rev != rev
    ensures Keeps(s, ExpireMsg(s, qj, k), qi, rev, expiry, own)
  {
    var q := s.queues[qj];
    var q1 := Expired(q, k);
    if qi == qj && Listed(q.msgs, rev, expiry, own) {
      var j :| 0 <= j < |q.msgs| && q.msgs[j].rev == rev && q.msgs[j].expiry == expiry && Own(q.msgs[j]) >= own;
      assert q1.msgs[j] == q.msgs[j];
      ListedRelease(q1, k, rev, expiry, own);
    }
    hide Listed;
    PutKeeps(s, qj, Release(q1, k), qi, rev, expiry, own);
  }
}
