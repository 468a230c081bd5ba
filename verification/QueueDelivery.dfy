/** Which messages reach which poller. */
module QueueDelivery {
  import opened Wrappers
  import opened QueueState
  import opened QueueOps
  import opened QueueSteps

  /** The revisions of one queue among the pending messages, in order */
  function RevsOf(pending: seq<Entry>, qi: nat): seq<nat> {
    if pending == [] then []
    else
      var last := pending[|pending| - 1];
      RevsOf(pending[..|pending| - 1], qi) + if last.q == qi then [last.rev] else []
  }

  lemma RevsAppend(pending: seq<Entry>, e: Entry, qi: nat)
    ensures RevsOf(pending + [e], qi) == RevsOf(pending, qi) + if e.q == qi then [e.rev] else []
  {
    assert (pending + [e])[..|pending|] == pending;
  }

  /** The revisions after `a` up to `b` */
  function Range(a: nat, b: nat): (r: seq<nat>)
    requires a <= b
    ensures |r| == b - a && forall i :: 0 <= i < |r| ==> r[i] == a + 1 + i
  {
    seq(b - a, i => a + 1 + i)
  }

  function RevList(msgs: seq<Msg>): (r: seq<nat>)
    ensures |r| == |msgs| && forall i :: 0 <= i < |r| ==> r[i] == msgs[i].rev
  {
    seq(|msgs|, i requires 0 <= i < |msgs| => msgs[i].rev)
  }

  /** How often a poller is bound to a queue */
  function Times(binders: seq<Binder>, qi: nat, p: nat): nat {
    if binders == [] then 0
    else Times(binders[1..], qi, p) + if binders[0].q == qi && binders[0].p == p then 1 else 0
  }

  function Copies(rev: nat, n: nat): (c: seq<nat>)
    ensures |c| == n && forall i :: 0 <= i < n ==> c[i] == rev
  {
    seq(n, i => rev)
  }

  function Pending(s: Server, p: nat, qi: nat): seq<nat>
    requires p < |s.pollers|
  {
    RevsOf(s.pollers[p].pending, qi)
  }

  // ---------- posting ----------

  /** A delivery gives each bound poller one entry for each of its bindings, and concerns no other queue. */
  lemma {:induction false} DeliverRevs(s: Server, qi: nat, k: nat, i: nat, p: nat, qj: nat)
    requires Bound(s) && LiveAt(s, qi) && k < |s.queues[qi].msgs| && i <= |s.binders| && p < |s.pollers|
    ensures Pending(Deliver(s, qi, k, i), p, qj) == Pending(s, p, qj) +
      Copies(s.queues[qi].msgs[k].rev, if qj == qi then Times(s.binders[i..], qi, p) else 0)
    decreases |s.binders| - i
  {
    hide RevsOf, Enqueue, Deliver, Times, Bound, Pending, MoreRefs, SameOpen;
    var rev := s.queues[qi].msgs[k].rev;
    DeliverStep(s, qi, k, i, p);
    if i == |s.binders| {
      assert Pending(s, p, qj) + Copies(rev, 0) == Pending(s, p, qj);
    } else if s.binders[i].q == qi {
      EnqueueShape(s, s.binders[i].p, qi, k);
      var s1 := Enqueue(s, s.binders[i].p, qi, k);
      DeliverRevs(s1, qi, k, i + 1, p, qj);
      EnqueueRevs(s, s.binders[i].p, qi, k, p, qj);
      var n := Times(s.binders[i + 1..], qi, p);
      assert [rev] + Copies(rev, n) == Copies(rev, n + 1);
      Assoc(Pending(s, p, qj), [rev], Copies(rev, n));
    } else {
      DeliverRevs(s, qi, k, i + 1, p, qj);
    }
  }

  /** One round of the loop */
  lemma DeliverStep(s: Server, qi: nat, k: nat, i: nat, p: nat)
    requires Bound(s) && LiveAt(s, qi) && k < |s.queues[qi].msgs| && i <= |s.binders| && p < |s.pollers|
    ensures i == |s.binders| ==> Deliver(s, qi, k, i) == s && Times(s.binders[i..], qi, p) == 0
    ensures i < |s.binders| && s.binders[i].q == qi ==>
      var b := s.binders[i];
      && b.p < |s.pollers| && s.pollers[b.p].open && Bound(Enqueue(s, b.p, qi, k))
      && LiveAt(Enqueue(s, b.p, qi, k), qi) && k < |Enqueue(s, b.p, qi, k).queues[qi].msgs|
      && Deliver(s, qi, k, i) == Deliver(Enqueue(s, b.p, qi, k), qi, k, i + 1)
    ensures i < |s.binders| && s.binders[i].q != qi ==> Deliver(s, qi, k, i) == Deliver(s, qi, k, i + 1)
    ensures i < |s.binders| ==>
      Times(s.binders[i..], qi, p) ==
        Times(s.binders[i + 1..], qi, p) + if s.binders[i].q == qi && s.binders[i].p == p then 1 else 0
  {
    if i < |s.binders| {
      assert s.binders[i..][0] == s.binders[i] && s.binders[i..][1..] == s.binders[i + 1..];
      if s.binders[i].q == qi {
        EnqueueBound(s, s.binders[i].p, qi, k);
      }
    }
  }

  lemma EnqueueRevs(s: Server, p: nat, qi: nat, k: nat, pj: nat, qj: nat)
    requires p < |s.pollers| && qi < |s.queues| && k < |s.queues[qi].msgs| && pj < |s.pollers|
    ensures Pending(Enqueue(s, p, qi, k), pj, qj) ==
      Pending(s, pj, qj) + if pj == p && qj == qi then [s.queues[qi].msgs[k].rev] else []
  {
    RevsAppend(s.pollers[p].pending, Entry(qi, s.queues[qi].msgs[k].rev), qj);
  }

  /** Where a poller is bound at most once, a step adds just the new revisions of the queue to what is pending. */
  predicate Grows(s: Server, s': Server, p: nat, qi: nat) {
    && p < |s.pollers| && p < |s'.pollers| && qi < |s.queues| && qi < |s'.queues|
    && s.queues[qi].rev <= s'.queues[qi].rev
    && Times(s'.binders, qi, p) == Times(s.binders, qi, p)
    && Pending(s', p, qi) == Pending(s, p, qi) +
       if Times(s.binders, qi, p) == 1 then Range(s.queues[qi].rev, s'.queues[qi].rev) else []
  }

  predicate AtMostOnce(s: Server, p: nat, qi: nat) {
    p < |s.pollers| && qi < |s.queues| && Times(s.binders, qi, p) <= 1
  }

  lemma GrowsTrans(a: Server, b: Server, c: Server, p: nat, qi: nat)
    requires Grows(a, b, p, qi) && Grows(b, c, p, qi)
    ensures Grows(a, c, p, qi)
  {
    hide RevsOf;
    var x, y, z := a.queues[qi].rev, b.queues[qi].rev, c.queues[qi].rev;
    assert Range(x, y) + Range(y, z) == Range(x, z);
  }

  /** Nothing changes for a poller whose own entries and bindings stay, when the revision stays. */
  lemma GrowsNot(s: Server, s': Server, p: nat, qi: nat)
    requires p < |s.pollers| && p < |s'.pollers| && qi < |s.queues| && qi < |s'.queues|
    requires s'.pollers[p].pending == s.pollers[p].pending && s'.queues[qi].rev == s.queues[qi].rev
    requires Times(s'.binders, qi, p) == Times(s.binders, qi, p)
    ensures Grows(s, s', p, qi)
  {
    assert Range(s.queues[qi].rev, s.queues[qi].rev) == [];
  }

  lemma MsgCreateGrows(s: Server, qi: nat, msecs: int, data: string, p: nat, qj: nat)
    requires Bound(s) && LiveAt(s, qi) && AtMostOnce(s, p, qj)
    ensures Grows(s, MsgCreate(s, qi, msecs, data), p, qj)
  {
    AppendedBound(s, qi, msecs, data);
    var s1, k := Appended(s, qi, msecs, data), |s.queues[qi].msgs|;
    DeliverRevs(s1, qi, k, 0, p, qj);
    assert s1.binders[0..] == s.binders;
    hide RevsOf, Times, Deliver;
    var x := s.queues[qj].rev;
    assert Range(x, x) == [] && Range(x, x + 1) == [x + 1] == Copies(x + 1, 1) && Copies(x + 1, 0) == [];
  }

  lemma RefreshGrows(s: Server, qi: nat, id: string, p: nat, qj: nat)
    requires Bound(s) && LiveAt(s, qi) && AtMostOnce(s, p, qj)
    ensures Grows(s, RefreshConsumer(s, qi, id), p, qj)
  {
    hide MsgCreate, RevsOf, Times;
    if id in s.queues[qi].consumers {
      GrowsNot(s, s, p, qj);
    } else {
      var s1 := Joined(s, qi, id);
      GrowsNot(s, s1, p, qj);
      MsgCreateGrows(s1, qi, CONSUMER_MSECS, id + ":joined", p, qj);
      GrowsTrans(s, s1, MsgCreate(s1, qi, CONSUMER_MSECS, id + ":joined"), p, qj);
    }
  }

  lemma ConsumerExpiredGrows(s: Server, qi: nat, id: string, p: nat, qj: nat)
    requires Inv(s) && LiveAt(s, qi) && id in s.queues[qi].consumers && AtMostOnce(s, p, qj)
    ensures Grows(s, ConsumerExpired(s, qi, id), p, qj)
  {
    hide MsgCreate, RevsOf, Times, Books;
    var s1 := MsgCreate(s, qi, CONSUMER_MSECS, id + ":expired");
    MsgCreateGrows(s, qi, CONSUMER_MSECS, id + ":expired", p, qj);
    GrowsNot(s1, ConsumerExpired(s, qi, id), p, qj);
    GrowsTrans(s, s1, ConsumerExpired(s, qi, id), p, qj);
  }

  // ---------- polling ----------

  /** The revisions above `rev`, from message `k` on */
  function Above(msgs: seq<Msg>, rev: int, k: nat): seq<nat>
    requires k <= |msgs|
    decreases |msgs| - k
  {
    if k == |msgs| then [] else (if rev < msgs[k].rev then [msgs[k].rev] else []) + Above(msgs, rev, k + 1)
  }

  lemma {:induction false} AboveSame(a: seq<Msg>, b: seq<Msg>, rev: int, k: nat)
    requires k <= |a| == |b| && RevList(a) == RevList(b)
    ensures Above(a, rev, k) == Above(b, rev, k)
    decreases |a| - k
  {
    if k < |a| {
      assert a[k].rev == RevList(a)[k] == RevList(b)[k] == b[k].rev;
      AboveSame(a, b, rev, k + 1);
    }
  }

  /** `cli_binder_enqueue_msgs`, without `latest`, adds the messages above the revision, in order. */
  lemma {:induction false} EnqueueMsgsRevs(s: Server, p: nat, qi: nat, rev: int, k: nat)
    requires Bound(s) && LiveAt(s, qi) && p < |s.pollers| && s.pollers[p].open && k <= |s.queues[qi].msgs|
    ensures Pending(EnqueueMsgs(s, p, qi, rev, false, k), p, qi) ==
      Pending(s, p, qi) + Above(s.queues[qi].msgs, rev, k)
    decreases |s.queues[qi].msgs| - k
  {
    hide RevsOf, Bound, Enqueue, EnqueueMsgs, Pending, Above, RevList, MoreRefs, SameOpen;
    var msgs := s.queues[qi].msgs;
    AboveStep(msgs, rev, k);
    EnqueueMsgsStep(s, p, qi, rev, k);
    if k == |msgs| {
      assert Pending(s, p, qi) + [] == Pending(s, p, qi);
    } else if rev < msgs[k].rev {
      EnqueueShape(s, p, qi, k);
      var s1 := Enqueue(s, p, qi, k);
      EnqueueRevs(s, p, qi, k, p, qi);
      EnqueueMsgsRevs(s1, p, qi, rev, k + 1);
      AboveSame(s1.queues[qi].msgs, msgs, rev, k + 1);
      Assoc(Pending(s, p, qi), [msgs[k].rev], Above(msgs, rev, k + 1));
    } else {
      EnqueueMsgsRevs(s, p, qi, rev, k + 1);
    }
  }

  lemma AboveStep(msgs: seq<Msg>, rev: int, k: nat)
    requires k <= |msgs|
    ensures k == |msgs| ==> Above(msgs, rev, k) == []
    ensures k < |msgs| ==>
      Above(msgs, rev, k) ==
      if rev < msgs[k].rev then [msgs[k].rev] + Above(msgs, rev, k + 1) else Above(msgs, rev, k + 1)
  {
    if k < |msgs| {
      assert [] + Above(msgs, rev, k + 1) == Above(msgs, rev, k + 1);
    }
  }

  lemma EnqueueMsgsStep(s: Server, p: nat, qi: nat, rev: int, k: nat)
    requires Bound(s) && LiveAt(s, qi) && p < |s.pollers| && s.pollers[p].open && k <= |s.queues[qi].msgs|
    ensures k == |s.queues[qi].msgs| ==> EnqueueMsgs(s, p, qi, rev, false, k) == s
    ensures k < |s.queues[qi].msgs| ==>
      var s1 := if rev < s.queues[qi].msgs[k].rev then Enqueue(s, p, qi, k) else s;
      && Bound(s1) && LiveAt(s1, qi) && p < |s1.pollers| && s1.pollers[p].open && k + 1 <= |s1.queues[qi].msgs|
      && EnqueueMsgs(s, p, qi, rev, false, k) == EnqueueMsgs(s1, p, qi, rev, false, k + 1)
  {
    hide Bound;
    if k < |s.queues[qi].msgs| {
      EnqueueBound(s, p, qi, k);
    }
  }

  /** It adds none of another queue. */
  lemma {:induction false} EnqueueMsgsElse(
    s: Server, p: nat, qi: nat, rev: int, latest: bool, k: nat, pj: nat, qj: nat)
    requires Bound(s) && LiveAt(s, qi) && p < |s.pollers| && s.pollers[p].open && k <= |s.queues[qi].msgs|
    requires pj < |s.pollers| && qj != qi
    ensures Pending(EnqueueMsgs(s, p, qi, rev, latest, k), pj, qj) == Pending(s, pj, qj)
    decreases |s.queues[qi].msgs| - k
  {
    hide RevsOf, Bound, Enqueue, Pending;
    if k < |s.queues[qi].msgs| {
      if Wanted(s.queues[qi].msgs[k], rev, latest) {
        EnqueueShape(s, p, qi, k);
        EnqueueRevs(s, p, qi, k, pj, qj);
        EnqueueMsgsElse(Enqueue(s, p, qi, k), p, qi, rev, latest, k + 1, pj, qj);
        assert Pending(s, pj, qj) + [] == Pending(s, pj, qj);
      } else {
        EnqueueMsgsElse(s, p, qi, rev, latest, k + 1, pj, qj);
      }
    }
  }

  lemma Assoc(a: seq<nat>, b: seq<nat>, c: seq<nat>)
    ensures (a + b) + c == a + (b + c)
  {
  }

  lemma EnqueueShape(s: Server, p: nat, qi: nat, k: nat)
    requires Bound(s) && LiveAt(s, qi) && p < |s.pollers| && s.pollers[p].open && k < |s.queues[qi].msgs|
    ensures var s1 := Enqueue(s, p, qi, k);
      && Bound(s1) && LiveAt(s1, qi) && |s1.pollers| == |s.pollers| && s1.pollers[p].open && s1.binders == s.binders
      && |s1.queues[qi].msgs| == |s.queues[qi].msgs| && RevList(s1.queues[qi].msgs) == RevList(s.queues[qi].msgs)
      && s1.queues[qi].rev == s.queues[qi].rev && s1.queues[qi].msgs[k].rev == s.queues[qi].msgs[k].rev
  {
    EnqueueBound(s, p, qi, k);
  }

  /** A poll leaves what pends for other pollers as it is, but for the messages it posts itself. */
  lemma {:induction false} EnqueueMsgsOther(s: Server, p: nat, qi: nat, rev: int, latest: bool, k: nat, pj: nat)
    requires Bound(s) && LiveAt(s, qi) && p < |s.pollers| && s.pollers[p].open && k <= |s.queues[qi].msgs|
    requires pj < |s.pollers| && pj != p
    ensures EnqueueMsgs(s, p, qi, rev, latest, k).pollers[pj] == s.pollers[pj]
    decreases |s.queues[qi].msgs| - k
  {
    if k < |s.queues[qi].msgs| {
      if Wanted(s.queues[qi].msgs[k], rev, latest) {
        EnqueueBound(s, p, qi, k);
        EnqueueMsgsOther(Enqueue(s, p, qi, k), p, qi, rev, latest, k + 1, pj);
      } else {
        EnqueueMsgsOther(s, p, qi, rev, latest, k + 1, pj);
      }
    }
  }

  lemma WithConsumerGrows(s: Server, qi: nat, arg: PollArg, p: nat, qj: nat)
    requires Bound(s) && LiveAt(s, qi) && AtMostOnce(s, p, qj)
    ensures Grows(s, WithConsumer(s, qi, arg), p, qj)
  {
    hide RefreshConsumer, RevsOf, Times;
    if s.queues[qi].consumerExpiry != 0 && arg.consumer.Some? {
      RefreshGrows(s, qi, arg.consumer.value, p, qj);
    } else {
      GrowsNot(s, s, p, qj);
    }
  }

  lemma PollOneGrows(s: Server, p: nat, qi: nat, arg: PollArg, pj: nat, qj: nat)
    requires Bound(s) && LiveAt(s, qi) && p < |s.pollers| && s.pollers[p].open
    requires AtMostOnce(s, pj, qj) && pj != p
    ensures Grows(s, PollOne(s, p, qi, arg), pj, qj)
  {
    hide WithConsumer, EnqueueMsgs, RevsOf, Bound;
    var s1 := WithConsumer(s, qi, arg);
    WithConsumerGrows(s, qi, arg, pj, qj);
    var rev := FromRev(s1.queues[qi], arg.rev);
    BindBound(s1, p, qi, rev, arg.includeConsumers);
    var s2 := Bind(s1, p, qi, rev, arg.includeConsumers);
    EnqueueMsgsOther(s2, p, qi, rev, arg.latest, 0, pj);
    var s3 := PollOne(s, p, qi, arg);
    assert s2.binders[1..] == s1.binders;
    GrowsNot(s1, s3, pj, qj);
    GrowsTrans(s, s1, s3, pj, qj);
  }

  lemma {:induction false} PollAllGrows(s: Server, p: nat, args: seq<PollArg>, i: nat, pj: nat, qj: nat)
    requires Inv(s) && p < |s.pollers| && s.pollers[p].open && i <= |args|
    requires AtMostOnce(s, pj, qj) && pj != p
    ensures Grows(s, PollAll(s, p, args, i), pj, qj)
    decreases |args| - i
  {
    hide PollOne, RevsOf, Books;
    if i == |args| {
      GrowsNot(s, s, pj, qj);
    } else if args[i].name !in s.store {
      PollAllGrows(s, p, args, i + 1, pj, qj);
    } else {
      var qi := s.store[args[i].name];
      StoreLive(s, args[i].name);
      PollOneInv(s, p, qi, args[i]);
      PollOneGrows(s, p, qi, args[i], pj, qj);
      var s1 := PollOne(s, p, qi, args[i]);
      PollAllGrows(s1, p, args, i + 1, pj, qj);
      GrowsTrans(s, s1, PollAll(s, p, args, i), pj, qj);
    }
  }

  // ---------- what a new poller collects ----------

  /** A queue's revisions so far, and those it has had since */
  predicate Extends(q: Queue, q': Queue) {
    q.rev <= q'.rev && RevList(q'.msgs) == RevList(q.msgs) + Range(q.rev, q'.rev)
  }

  lemma ExtendsSelf(q: Queue, q': Queue)
    requires q'.rev == q.rev && RevList(q'.msgs) == RevList(q.msgs)
    ensures Extends(q, q')
  {
    assert Range(q.rev, q.rev) == [];
  }

  lemma MoreRefsList(q: Queue, q': Queue)
    requires MoreRefs(q, q')
    ensures RevList(q'.msgs) == RevList(q.msgs) && q'.rev == q.rev
  {
  }

  lemma WithConsumerExtends(s: Server, qi: nat, arg: PollArg)
    requires Bound(s) && LiveAt(s, qi)
    ensures Extends(s.queues[qi], WithConsumer(s, qi, arg).queues[qi])
    ensures WithConsumer(s, qi, arg).queues[qi].rev == RevThen(s.queues[qi], arg)
  {
    hide Deliver;
    var q, q' := s.queues[qi], WithConsumer(s, qi, arg).queues[qi];
    if s.queues[qi].consumerExpiry != 0 && arg.consumer.Some? && arg.consumer.value !in q.consumers {
      var id := arg.consumer.value;
      var m := NewMsg(Joined(s, qi, id).queues[qi], CONSUMER_MSECS, id + ":joined");
      MoreRefsList(m, q');
      assert RevList(m.msgs) == RevList(q.msgs) + [q.rev + 1] && Range(q.rev, q.rev + 1) == [q.rev + 1];
    } else {
      ExtendsSelf(q, q');
    }
  }

  /** Binding to a queue collects what lies above the revision asked for. */
  lemma PollOneCollects(s: Server, p: nat, qi: nat, arg: PollArg)
    requires Bound(s) && LiveAt(s, qi) && p < |s.pollers| && s.pollers[p].open
    requires Times(s.binders, qi, p) == 0 && Pending(s, p, qi) == [] && !arg.latest
    ensures var s' := PollOne(s, p, qi, arg);
      && Times(s'.binders, qi, p) == 1 && Extends(s.queues[qi], s'.queues[qi])
      && s'.queues[qi].rev == RevThen(s.queues[qi], arg)
      && Pending(s', p, qi) == Above(s'.queues[qi].msgs, AskedRev(s.queues[qi], arg), 0)
  {
    hide WithConsumer, EnqueueMsgs, RevsOf, Bound;
    var s1 := WithConsumer(s, qi, arg);
    WithConsumerGrows(s, qi, arg, p, qi);
    WithConsumerExtends(s, qi, arg);
    var rev := FromRev(s1.queues[qi], arg.rev);
    BindBound(s1, p, qi, rev, arg.includeConsumers);
    var s2 := Bind(s1, p, qi, rev, arg.includeConsumers);
    var s3 := PollOne(s, p, qi, arg);
    EnqueueMsgsRevs(s2, p, qi, rev, 0);
    MoreRefsList(s2.queues[qi], s3.queues[qi]);
    AboveSame(s2.queues[qi].msgs, s3.queues[qi].msgs, rev, 0);
    assert s2.binders[1..] == s1.binders;
    var a := Above(s2.queues[qi].msgs, rev, 0);
    assert [] + a == a;
  }

  /** Binding to another queue makes no difference here. */
  predicate Apart(s: Server, s': Server, p: nat, qi: nat) {
    && p < |s.pollers| && p < |s'.pollers| && qi < |s.queues| && qi < |s'.queues|
    && s'.queues[qi] == s.queues[qi] && s'.store == s.store
    && Times(s'.binders, qi, p) == Times(s.binders, qi, p) && Pending(s', p, qi) == Pending(s, p, qi)
  }

  lemma MsgCreateElse(s: Server, qi: nat, msecs: int, data: string, p: nat, qj: nat)
    requires Bound(s) && LiveAt(s, qi) && p < |s.pollers| && qj != qi
    ensures Pending(MsgCreate(s, qi, msecs, data), p, qj) == Pending(s, p, qj)
  {
    AppendedBound(s, qi, msecs, data);
    DeliverRevs(Appended(s, qi, msecs, data), qi, |s.queues[qi].msgs|, 0, p, qj);
    assert Pending(s, p, qj) + [] == Pending(s, p, qj);
  }

  lemma JoinedBound(s: Server, qi: nat, id: string)
    requires Bound(s) && LiveAt(s, qi)
    ensures Bound(Joined(s, qi, id)) && LiveAt(Joined(s, qi, id), qi)
  {
  }

  lemma PollOneApart(s: Server, p: nat, qi: nat, arg: PollArg, qj: nat)
    requires Bound(s) && LiveAt(s, qi) && p < |s.pollers| && s.pollers[p].open && qj < |s.queues| && qj != qi
    ensures Apart(s, PollOne(s, p, qi, arg), p, qj)
  {
    hide MsgCreate, EnqueueMsgs, Bound;
    var s1 := WithConsumer(s, qi, arg);
    if s.queues[qi].consumerExpiry != 0 && arg.consumer.Some? && arg.consumer.value !in s.queues[qi].consumers {
      JoinedBound(s, qi, arg.consumer.value);
      MsgCreateElse(Joined(s, qi, arg.consumer.value), qi, CONSUMER_MSECS, arg.consumer.value + ":joined", p, qj);
    }
    var rev := FromRev(s1.queues[qi], arg.rev);
    BindBound(s1, p, qi, rev, arg.includeConsumers);
    var s2 := Bind(s1, p, qi, rev, arg.includeConsumers);
    EnqueueMsgsElse(s2, p, qi, rev, arg.latest, 0, p, qj);
    assert s2.binders[1..] == s1.binders;
  }

  predicate DistinctNames(args: seq<PollArg>) {
    forall i, j :: 0 <= i < j < |args| ==> args[i].name != args[j].name
  }

  /** The other arguments, from `i` on, make no difference to the queue `qj`. */
  lemma {:induction false} PollAllApart(s: Server, p: nat, args: seq<PollArg>, i: nat, qj: nat)
    requires Inv(s) && p < |s.pollers| && s.pollers[p].open && i <= |args| && LiveAt(s, qj)
    requires forall j :: i <= j < |args| ==> args[j].name != s.queues[qj].name
    ensures Apart(s, PollAll(s, p, args, i), p, qj)
    decreases |args| - i
  {
    hide PollOne, RevsOf, Books, Bound;
    if i < |args| {
      if args[i].name !in s.store {
        PollAllApart(s, p, args, i + 1, qj);
      } else {
        var qi := s.store[args[i].name];
        StoreLive(s, args[i].name);
        PollOneInv(s, p, qi, args[i]);
        PollOneApart(s, p, qi, args[i], qj);
        PollAllApart(PollOne(s, p, qi, args[i]), p, args, i + 1, qj);
      }
    }
  }

  /** What the poller has of a queue once the arguments from `i` on, with the queue's own at `a`, are dealt with */
  lemma {:induction false} PollAllCollects(s: Server, p: nat, args: seq<PollArg>, i: nat, a: nat, qi: nat)
    requires Inv(s) && p < |s.pollers| && s.pollers[p].open && i <= a < |args| && DistinctNames(args)
    requires LiveAt(s, qi) && args[a].name == s.queues[qi].name && !args[a].latest
    requires Times(s.binders, qi, p) == 0 && Pending(s, p, qi) == []
    ensures var s' := PollAll(s, p, args, i);
      && qi < |s'.queues| && p < |s'.pollers|
      && Times(s'.binders, qi, p) == 1 && Extends(s.queues[qi], s'.queues[qi])
      && s'.queues[qi].rev == RevThen(s.queues[qi], args[a])
      && Pending(s', p, qi) == Above(s'.queues[qi].msgs, AskedRev(s.queues[qi], args[a]), 0)
    decreases |args| - i
  {
    hide PollOne, RevsOf, Bound, QueueOk, Times, Above, RevList;
    assert s.queues[qi].name in s.store && s.store[s.queues[qi].name] == qi by {
      Booked(s, AllPending(s.pollers), qi);
    }
    if i == a {
      PollOneInv(s, p, qi, args[i]);
      PollOneCollects(s, p, qi, args[i]);
      var s1 := PollOne(s, p, qi, args[i]);
      SameName(s, p, qi, args[i]);
      PollAllApart(s1, p, args, i + 1, qi);
    } else if args[i].name !in s.store {
      PollAllCollects(s, p, args, i + 1, a, qi);
    } else {
      var qj := s.store[args[i].name];
      StoreLive(s, args[i].name);
      PollOneInv(s, p, qj, args[i]);
      PollOneApart(s, p, qj, args[i], qi);
      PollAllCollects(PollOne(s, p, qj, args[i]), p, args, i + 1, a, qi);
    }
  }

  lemma SameName(s: Server, p: nat, qi: nat, arg: PollArg)
    requires Bound(s) && LiveAt(s, qi) && p < |s.pollers| && s.pollers[p].open
    ensures PollOne(s, p, qi, arg).queues[qi].name == s.queues[qi].name
  {
    hide Deliver, EnqueueMsgs, Bound;
  }
}
