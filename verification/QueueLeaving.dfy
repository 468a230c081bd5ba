/** Exactly when a message leaves its queue. */
module QueueLeaving {
  import opened Wrappers
  import opened QueueState
  import opened QueueOps
  import opened QueueSteps
  import opened QueueHistory
  import opened QueueKeeping
  import opened QueueRuns

  /** After the step, nothing refers to the message any more: no poller waits with it, and it has no reference of its
      own, or has just lost it to its timer. */
  ghost predicate Unreferred(s: Server, step: Step, qi: nat, m: Msg)
    requires Inv(s) && Enabled(s, step)
  {
    Entry(qi, m.rev) !in AllPending(Apply(s, step).pollers) && (Own(m) == 0 || RunsOut(s, step, qi, m.rev))
  }

  // ---------- it stays ----------

  lemma StaysUnlessGivenUp(s: Server, step: Step, qi: nat, k: nat)
    requires Inv(s) && Enabled(s, step) && qi < |s.queues| && k < |s.queues[qi].msgs|
    requires !GivesUp(s, step, qi, s.queues[qi].msgs[k].rev)
    ensures qi < |Apply(s, step).queues| && HasRev(Apply(s, step).queues[qi].msgs, s.queues[qi].msgs[k].rev)
  {
    hide Inv, Enabled, Apply;
    var m := s.queues[qi].msgs[k];
    assert Listed(s.queues[qi].msgs, m.rev, m.expiry, 0);
    StepKeeps(s, step, qi, m.rev, m.expiry, 0);
    ListedIsThere(Apply(s, step).queues[qi].msgs, m.rev, m.expiry, 0);
  }

  lemma StaysWhileReferred(s: Server, step: Step, qi: nat, k: nat)
    requires Inv(s) && Enabled(s, step) && qi < |s.queues| && k < |s.queues[qi].msgs|
    requires !Unreferred(s, step, qi, s.queues[qi].msgs[k])
    ensures qi < |Apply(s, step).queues| && HasRev(Apply(s, step).queues[qi].msgs, s.queues[qi].msgs[k].rev)
  {
    hide Enabled, Apply, Books, Bound, Own;
    var m := s.queues[qi].msgs[k];
    StepOlder(s, step, qi);
    if Own(m) == 0 || RunsOut(s, step, qi, m.rev) {
      PendingThere(Apply(s, step), Entry(qi, m.rev));
    } else {
      OwnIs(m);
      assert Owned(s.queues[qi].msgs, m.rev, m.expiry);
      StepOwns(s, step, qi, m.rev, m.expiry);
      ListedIsThere(Apply(s, step).queues[qi].msgs, m.rev, m.expiry, 1);
    }
  }

  lemma OwnIs(m: Msg)
    ensures Own(m) == 0 || Own(m) == 1
  {
  }

  lemma PendingThere(s: Server, e: Entry)
    requires Inv(s) && e in AllPending(s.pollers)
    ensures e.q < |s.queues| && HasRev(s.queues[e.q].msgs, e.rev)
  {
  }

  // ---------- it goes ----------

  /** In an ordered list, a revision that is taken out is gone. */
  lemma GoneWith(msgs: seq<Msg>, k: nat)
    requires Ascending(msgs) && k < |msgs|
    ensures !HasRev(Without(msgs, k), msgs[k].rev)
  {
    hide Without;
    WithoutAt(msgs, k);
  }

  /** A message with nothing but its timer goes when that runs out. */
  lemma TimerTakesOut(s: Server, qi: nat, k: nat)
    requires Inv(s) && LiveAt(s, qi) && k < |s.queues[qi].msgs| && s.queues[qi].msgs[k].timer
    requires Entry(qi, s.queues[qi].msgs[k].rev) !in AllPending(s.pollers)
    ensures CanRelease(s.queues[qi], k) && !HasRev(ExpireMsg(s, qi, k).queues[qi].msgs, s.queues[qi].msgs[k].rev)
    ensures ExpireMsg(s, qi, k).pollers == s.pollers
  {
    var q := s.queues[qi];
    ExpireMsgInv(s, qi, k);
    Booked(s, AllPending(s.pollers), qi);
    hide Inv, HasRev, Without;
    assert q.msgs[k].refs == 1;
    WithoutAt(q.msgs, k);
    WithoutAt(Expired(q, k).msgs, k);
    assert Without(Expired(q, k).msgs, k) == Without(q.msgs, k);
    GoneWith(q.msgs, k);
  }

  lemma ExpirePollers(s: Server, qi: nat, k: nat)
    requires qi < |s.queues| && CanRelease(s.queues[qi], k)
    ensures ExpireMsg(s, qi, k).pollers == s.pollers
  {
  }

  /** So does the head, without any reference, when it is dropped. */
  lemma HeadGoes(s: Server, qi: nat)
    requires Inv(s) && LiveAt(s, qi) && Crowded(s.queues[qi]) && s.queues[qi].msgs != []
    requires Own(s.queues[qi].msgs[0]) == 0 && Entry(qi, s.queues[qi].msgs[0].rev) !in AllPending(s.pollers)
    ensures s.queues[qi].msgsInQueue > 0
    ensures !HasRev(DropHead(s, qi).queues[qi].msgs, s.queues[qi].msgs[0].rev)
  {
    var q := s.queues[qi];
    Booked(s, AllPending(s.pollers), qi);
    hide Inv, HasRev, Without;
    assert q.msgs[0].refs == 0;
    WithoutAt(q.msgs, 0);
    WithoutAt(Retain(q, 0).msgs, 0);
    assert Without(Retain(q, 0).msgs, 0) == Without(q.msgs, 0);
    GoneWith(q.msgs, 0);
  }

  /** A message that has gone does not come back. */
  lemma GoneStaysGone(s: Server, s': Server, qi: nat, rev: nat)
    requires Older(s, s', qi) && rev <= s.queues[qi].rev && !HasRev(s.queues[qi].msgs, rev)
    ensures !HasRev(s'.queues[qi].msgs, rev)
  {
  }

  // posting only adds pending entries

  lemma {:induction false} DeliverAdds(s: Server, qi: nat, k: nat, i: nat)
    requires Bound(s) && LiveAt(s, qi) && k < |s.queues[qi].msgs| && i <= |s.binders|
    ensures AllPending(s.pollers) <= AllPending(Deliver(s, qi, k, i).pollers)
    decreases |s.binders| - i
  {
    hide AllPending;
    if i < |s.binders| {
      var b := s.binders[i];
      if b.q == qi && b.rev <= s.queues[qi].rev {
        EnqueueBound(s, b.p, qi, k);
        var s1 := Enqueue(s, b.p, qi, k);
        PendingUpdate(s.pollers, b.p, s1.pollers[b.p]);
        assert s1.pollers == s.pollers[b.p := s1.pollers[b.p]];
        DeliverAdds(s1, qi, k, i + 1);
      } else {
        DeliverAdds(s, qi, k, i + 1);
      }
    }
  }

  lemma MsgCreateAdds(s: Server, qi: nat, msecs: int, data: string)
    requires Bound(s) && LiveAt(s, qi)
    ensures AllPending(s.pollers) <= AllPending(MsgCreate(s, qi, msecs, data).pollers)
  {
    hide Deliver, AllPending, Bound;
    AppendedBound(s, qi, msecs, data);
    DeliverAdds(Appended(s, qi, msecs, data), qi, |s.queues[qi].msgs|, 0);
  }

  /** The head that a post drops is gone afterwards. */
  lemma PostTakesOut(s: Server, qi: nat, msecs: int, data: string)
    requires Inv(s) && LiveAt(s, qi) && Crowded(s.queues[qi]) && s.queues[qi].dropFromHead && s.queues[qi].msgs != []
    requires Own(s.queues[qi].msgs[0]) == 0
    requires Entry(qi, s.queues[qi].msgs[0].rev) !in AllPending(Posted(s, qi, msecs, data).pollers)
    ensures qi < |Posted(s, qi, msecs, data).queues|
    ensures !HasRev(Posted(s, qi, msecs, data).queues[qi].msgs, s.queues[qi].msgs[0].rev)
  {
    hide MsgCreate, Books, Bound, HasRev, AllPending, Own, Release, Retain, Older, Kept;
    HeadKeepsQueue(s, qi);
    DropHeadInv(s, qi);
    var s1 := DropHead(s, qi);
    MsgCreateAdds(s1, qi, msecs, data);
    HeadGoes(s, qi);
    MsgCreateOlder(s1, qi, msecs, data, qi);
    HeadLow(s, qi);
    GoneStaysGone(s1, MsgCreate(s1, qi, msecs, data), qi, s.queues[qi].msgs[0].rev);
  }

  lemma HeadLow(s: Server, qi: nat)
    requires Inv(s) && LiveAt(s, qi) && s.queues[qi].msgs != []
    ensures s.queues[qi].msgs[0].rev <= s.queues[qi].rev
  {
    Booked(s, AllPending(s.pollers), qi);
  }

  // the end of a poll

  /** A release takes out no other message. */
  lemma ReleaseSpares(q: Queue, k: nat, j: nat) returns (j': nat)
    requires CanRelease(q, k) && j < |q.msgs| && (j != k || q.msgs[k].refs > 1)
    ensures j' < |Release(q, k).msgs|
    ensures Release(q, k).msgs[j'].rev == q.msgs[j].rev && Own(Release(q, k).msgs[j']) == Own(q.msgs[j])
  {
    if q.msgs[k].refs == 1 {
      j' := if j < k then j else j - 1;
      hide Without;
      WithoutAt(q.msgs, k);
    } else {
      j' := j;
    }
  }

  /** The message at the head of a poller's list, when that is the last reference to it */
  lemma LastDrop(s: Server, p: nat, qi: nat, k: nat)
    requires Inv(s) && p < |s.pollers| && s.pollers[p].pending != [] && qi < |s.queues| && k < |s.queues[qi].msgs|
    requires s.pollers[p].pending[0] == Entry(qi, s.queues[qi].msgs[k].rev) && Own(s.queues[qi].msgs[k]) == 0
    requires AllPending(s.pollers)[s.pollers[p].pending[0]] == 1
    ensures CanDrop(s, p) && !HasRev(Drop(s, p).queues[qi].msgs, s.queues[qi].msgs[k].rev)
  {
    var q, e := s.queues[qi], s.pollers[p].pending[0];
    DropInv(s, p);
    PendingThere(s, e);
    PendingLives(s, e);
    Booked(s, AllPending(s.pollers), qi);
    hide Inv, HasRev, Without, AllPending;
    FoundAt(q.msgs, k);
    assert q.msgs[k].refs == 1;
    GoneWith(q.msgs, k);
  }

  lemma PendingLives(s: Server, e: Entry)
    requires Inv(s) && e in AllPending(s.pollers)
    ensures e.q < |s.queues| && s.queues[e.q].live
  {
  }

  lemma FoundAt(msgs: seq<Msg>, k: nat)
    requires Ascending(msgs) && k < |msgs| && HasRev(msgs, msgs[k].rev)
    ensures IndexOf(msgs, msgs[k].rev) == k
  {
  }

  /** Any other message in the poller's queues is still there after the head has been dropped. */
  lemma OtherDrop(s: Server, p: nat, qi: nat, k: nat) returns (k': nat)
    requires Inv(s) && p < |s.pollers| && s.pollers[p].pending != [] && qi < |s.queues| && k < |s.queues[qi].msgs|
    requires var (e, f) := (Entry(qi, s.queues[qi].msgs[k].rev), s.pollers[p].pending[0]);
      e == f ==> AllPending(s.pollers)[e] > 1
    ensures CanDrop(s, p) && qi < |Drop(s, p).queues| && k' < |Drop(s, p).queues[qi].msgs|
    ensures Drop(s, p).queues[qi].msgs[k'].rev == s.queues[qi].msgs[k].rev
    ensures Own(Drop(s, p).queues[qi].msgs[k']) == Own(s.queues[qi].msgs[k])
  {
    var f := s.pollers[p].pending[0];
    DropInv(s, p);
    k' := k;
    if f.q == qi {
      var q := s.queues[qi];
      PendingFirst(s, p);
      PendingLives(s, f);
      Booked(s, AllPending(s.pollers), qi);
      hide Inv, HasRev, AllPending, Release, Own;
      k' := ReleaseSpares(q, IndexOf(q.msgs, f.rev), k);
    }
  }

  lemma PendingFirst(s: Server, p: nat)
    requires p < |s.pollers| && s.pollers[p].pending != []
    ensures s.pollers[p].pending[0] in AllPending(s.pollers)
  {
    PendingUpdate(s.pollers, p, s.pollers[p]);
    assert s.pollers[p].pending[0] in multiset(s.pollers[p].pending);
  }

  lemma DropCounts(s: Server, p: nat, e: Entry)
    requires CanDrop(s, p)
    ensures var (pend, rest) := (s.pollers[p].pending, Drop(s, p).pollers[p].pending);
      && p < |Drop(s, p).pollers| && multiset(pend)[e] == multiset(rest)[e] + (if pend[0] == e then 1 else 0)
      && AllPending(s.pollers)[e] == AllPending(Drop(s, p).pollers)[e] + (if pend[0] == e then 1 else 0)
  {
    hide IndexOf, HasRev, Release, AllPending;
    var b := s.pollers[p];
    var b' := b.(pending := b.pending[1..]);
    PendingUpdate(s.pollers, p, b');
    assert b.pending == [b.pending[0]] + b.pending[1..];
    assert Drop(s, p).pollers == s.pollers[p := b'];
  }

  /** What only this poller refers to goes with the last of its entries. */
  lemma {:induction false} ReleaseTakesOut(s: Server, p: nat, qi: nat, k: nat)
    requires Inv(s) && p < |s.pollers| && qi < |s.queues| && k < |s.queues[qi].msgs|
    requires var e := Entry(qi, s.queues[qi].msgs[k].rev);
      e in s.pollers[p].pending && AllPending(s.pollers)[e] == multiset(s.pollers[p].pending)[e]
    requires Own(s.queues[qi].msgs[k]) == 0
    ensures !HasRev(ReleasePending(s, p).queues[qi].msgs, s.queues[qi].msgs[k].rev)
    decreases |s.pollers[p].pending|
  {
    hide Inv, Drop, CanDrop, HasRev, AllPending, Own, Older;
    var e := Entry(qi, s.queues[qi].msgs[k].rev);
    DropInv(s, p);
    DropShape(s, p);
    DropCounts(s, p, e);
    var s1 := Drop(s, p);
    if s.pollers[p].pending[0] == e && e !in s1.pollers[p].pending {
      LastDrop(s, p, qi, k);
      RevLow(s, p, qi, k);
      ReleasePendingOlder(s1, p, qi);
      GoneStaysGone(s1, ReleasePending(s1, p), qi, e.rev);
    } else {
      var k1 := OtherDrop(s, p, qi, k);
      ReleaseTakesOut(s1, p, qi, k1);
    }
  }

  lemma RevLow(s: Server, p: nat, qi: nat, k: nat)
    requires Inv(s) && p < |s.pollers| && qi < |s.queues| && k < |s.queues[qi].msgs|
    requires Entry(qi, s.queues[qi].msgs[k].rev) in s.pollers[p].pending
    ensures s.queues[qi].msgs[k].rev <= s.queues[qi].rev
  {
    PendingUpdate(s.pollers, p, s.pollers[p]);
    PendingLives(s, Entry(qi, s.queues[qi].msgs[k].rev));
    Booked(s, AllPending(s.pollers), qi);
  }

  lemma EndTakesOut(s: Server, p: nat, qi: nat, k: nat)
    requires Inv(s) && p < |s.pollers| && qi < |s.queues| && k < |s.queues[qi].msgs|
    requires var e := Entry(qi, s.queues[qi].msgs[k].rev);
      e in s.pollers[p].pending && e !in AllPending(Finish(s, p).pollers)
    requires Own(s.queues[qi].msgs[k]) == 0
    ensures qi < |Finish(s, p).queues| && !HasRev(Finish(s, p).queues[qi].msgs, s.queues[qi].msgs[k].rev)
  {
    hide Inv, ReleasePending, AllPending, HasRev, Own;
    var e := Entry(qi, s.queues[qi].msgs[k].rev);
    UnbindInv(s, p);
    var s1 := Unbind(s, p);
    var s3 := Finish(s, p);
    assert s3.pollers == s.pollers[p := Poller([], false)];
    PendingUpdate(s.pollers, p, Poller([], false));
    assert multiset(Poller([], false).pending) == multiset{};
    ReleaseTakesOut(s1, p, qi, k);
  }

  // ---------- both ----------

  /** A message leaves its list in a step exactly if the step gives up a reference to it and leaves none. */
  lemma LeavesIff(s: Server, step: Step, qi: nat, k: nat)
    requires Inv(s) && Enabled(s, step) && qi < |s.queues| && k < |s.queues[qi].msgs|
    ensures qi < |Apply(s, step).queues|
    ensures var m := s.queues[qi].msgs[k];
      !HasRev(Apply(s, step).queues[qi].msgs, m.rev) <==> GivesUp(s, step, qi, m.rev) && Unreferred(s, step, qi, m)
  {
    var m := s.queues[qi].msgs[k];
    InPlace(s, step, qi);
    if !GivesUp(s, step, qi, m.rev) {
      StaysUnlessGivenUp(s, step, qi, k);
    } else if !Unreferred(s, step, qi, m) {
      StaysWhileReferred(s, step, qi, k);
    } else {
      GivenUp(s, step, qi, k);
    }
  }

  lemma InPlace(s: Server, step: Step, qi: nat)
    requires Inv(s) && Enabled(s, step) && qi < |s.queues|
    ensures qi < |Apply(s, step).queues|
  {
    hide Inv, Enabled, Apply;
    StepOlder(s, step, qi);
  }

  lemma GivenUp(s: Server, step: Step, qi: nat, k: nat)
    requires Inv(s) && Enabled(s, step) && qi < |s.queues| && k < |s.queues[qi].msgs|
    requires GivesUp(s, step, qi, s.queues[qi].msgs[k].rev) && Unreferred(s, step, qi, s.queues[qi].msgs[k])
    ensures qi < |Apply(s, step).queues| && !HasRev(Apply(s, step).queues[qi].msgs, s.queues[qi].msgs[k].rev)
  {
    hide Books, Bound, Posted, Finish, AllPending, Own, HasRev, ExpireMsg;
    InPlace(s, step, qi);
    match step {
      case End(p) => EndTakesOut(s, p, qi, k);
      case Post(name, msecs, data) =>
        StoreLive(s, name);
        Placed(s, qi, 0, k);
        PostTakesOut(s, qi, msecs, data);
      case MsgTimer(q, j) =>
        Placed(s, qi, j, k);
        ExpireMsgInv(s, qi, j);
        ExpirePollers(s, qi, j);
        TimerTakesOut(s, qi, k);
    }
  }

  /** Revisions tell messages apart. */
  lemma Placed(s: Server, qi: nat, j: nat, k: nat)
    requires Inv(s) && LiveAt(s, qi) && j < |s.queues[qi].msgs| && k < |s.queues[qi].msgs|
    requires s.queues[qi].msgs[j].rev == s.queues[qi].msgs[k].rev
    ensures j == k
  {
    Booked(s, AllPending(s.pollers), qi);
  }
}
