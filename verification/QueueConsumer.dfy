/** What a consumer gets that keeps polling: no message twice, and none skipped without a reason. */
module QueueConsumer {
  import opened Wrappers
  import opened QueueState
  import opened QueueOps
  import opened QueueSteps
  import opened QueueDelivery
  import opened QueueHistory
  import opened QueueKeeping
  import opened QueueRuns

  // ---------- one poll ----------

  /** While a poll lasts, its poller gets each message posted to the queue, once and in order. */
  lemma {:induction false} Window(trace: seq<Server>, steps: seq<Step>, i: nat, j: nat, p: nat, qi: nat)
    requires IsRun(trace, steps) && i <= j < |trace|
    requires p < |trace[i].pollers| && qi < |trace[i].queues| && Times(trace[i].binders, qi, p) == 1
    requires forall k :: i <= k < j ==> steps[k] != End(p)
    ensures Grows(trace[i], trace[j], p, qi)
    decreases j - i
  {
    hide Times, RevsOf, Inv, Apply, Enabled, IsRun;
    RunLength(trace, steps);
    if i == j {
      GrowsNot(trace[i], trace[i], p, qi);
    } else {
      Window(trace, steps, i, j - 1, p, qi);
      RunStep(trace, steps, j - 1);
      StepGrows(trace[j - 1], steps[j - 1], p, qi);
      GrowsTrans(trace[i], trace[j - 1], trace[j], p, qi);
    }
  }

  function Max(a: nat, b: int): nat {
    if b > a then b else a
  }

  lemma AboveExtends(a: seq<Msg>, b: seq<Msg>, rev: int, x: nat, y: nat)
    requires x <= y && rev <= y && RevList(b) == RevList(a) + Range(x, y)
    ensures Above(b, rev, 0) == Above(a, rev, 0) + Range(Max(x, rev), y)
  {
    assert |b| == |RevList(b)| == |a| + (y - x);
    forall i | 0 <= i < |b|
      ensures b[i].rev == if i < |a| then a[i].rev else x + 1 + (i - |a|)
    {
      assert b[i].rev == RevList(b)[i];
    }
    hide RevList;
    AboveMore(a, b, rev, x, y, 0);
  }

  lemma {:induction false} AboveMore(a: seq<Msg>, b: seq<Msg>, rev: int, x: nat, y: nat, k: nat)
    requires x <= y && rev <= y && |b| == |a| + (y - x) && k <= |a|
    requires forall i :: 0 <= i < |b| ==> b[i].rev == if i < |a| then a[i].rev else x + 1 + (i - |a|)
    ensures Above(b, rev, k) == Above(a, rev, k) + Range(Max(x, rev), y)
    decreases |a| - k
  {
    var r := Range(Max(x, rev), y);
    if k < |a| {
      AboveMore(a, b, rev, x, y, k + 1);
      Assoc(if rev < a[k].rev then [a[k].rev] else [], Above(a, rev, k + 1), r);
    } else {
      AboveAll(b, rev, x, y, k);
      assert [] + r == r;
    }
  }

  lemma {:induction false} AboveAll(b: seq<Msg>, rev: int, x: nat, y: nat, k: nat)
    requires x <= y && rev <= y && k + (y - x) == |b|
    requires forall i :: k <= i < |b| ==> b[i].rev == x + 1 + (i - k)
    ensures Above(b, rev, k) == Range(Max(x, rev), y)
    decreases |b| - k
  {
    hide Range, Above;
    AboveStep(b, rev, k);
    if k < |b| {
      assert b[k].rev == x + 1;
      AboveAll(b, rev, x + 1, y, k + 1);
      if rev <= x {
        RangeHead(x, y);
      }
    } else {
      RangeNone(y);
    }
  }

  lemma RangeNone(a: nat)
    ensures Range(a, a) == []
  {
  }

  lemma RangeHead(a: nat, b: nat)
    requires a < b
    ensures Range(a, b) == [a + 1] + Range(a + 1, b)
  {
  }

  /** A poll of several queues, and the place in the trace at which its response is built */
  datatype Poll = Poll(begin: nat, end: nat, args: seq<PollArg>, a: nat)

  /** The poll asks, among others, for the queue `qi`, without `latest`, and goes on until its response is built. */
  ghost predicate IsPoll(trace: seq<Server>, steps: seq<Step>, x: Poll, qi: nat) {
    && |trace| == |steps| + 1 && x.begin < x.end < |trace| && steps[x.begin] == Begin(x.args)
    && DistinctNames(x.args) && x.a < |x.args| && !x.args[x.a].latest
    && LiveAt(trace[x.begin], qi) && trace[x.begin].queues[qi].name == x.args[x.a].name
    && forall k :: x.begin < k < x.end ==> steps[k] != End(|trace[x.begin].pollers|)
  }

  /** The revisions of the queue in the response to the poll */
  function Got(trace: seq<Server>, x: Poll, qi: nat): seq<nat>
    requires x.begin < x.end < |trace|
  {
    var p := |trace[x.begin].pollers|;
    if p < |trace[x.end].pollers| then Pending(trace[x.end], p, qi) else []
  }

  /** The queue's revision when the response is built */
  function EndRev(trace: seq<Server>, x: Poll, qi: nat): nat
    requires x.begin < x.end < |trace|
  {
    if qi < |trace[x.end].queues| then trace[x.end].queues[qi].rev else 0
  }

  /** The revision in the response; a poll that gets nothing of the queue is told nothing about it. */
  function Reported(trace: seq<Server>, x: Poll, qi: nat): Option<nat>
    requires x.begin < x.end < |trace|
  {
    if Got(trace, x, qi) == [] then None else Some(EndRev(trace, x, qi))
  }

  /** The revision that the poll is served from */
  function Asked(trace: seq<Server>, x: Poll, qi: nat): int
    requires x.begin < |trace| && qi < |trace[x.begin].queues| && x.a < |x.args|
  {
    AskedRev(trace[x.begin].queues[qi], x.args[x.a])
  }

  /** A poll delivers exactly the messages above its revision that the queue held when it began, and then all that
      were posted before the response was built. */
  lemma OnePoll(trace: seq<Server>, steps: seq<Step>, x: Poll, qi: nat)
    requires IsRun(trace, steps) && IsPoll(trace, steps, x, qi)
    ensures Asked(trace, x, qi) <= EndRev(trace, x, qi) && trace[x.begin].queues[qi].rev <= EndRev(trace, x, qi)
    ensures var q, rev := trace[x.begin].queues[qi], Asked(trace, x, qi);
      Got(trace, x, qi) == Above(q.msgs, rev, 0) + Range(Max(q.rev, rev), EndRev(trace, x, qi))
  {
    hide Times, RevsOf, Above, RevList, Inv, IsRun, Apply, Enabled, PollBegin, DistinctNames;
    var s, s1, s2 := trace[x.begin], trace[x.begin + 1], trace[x.end];
    var p, rev := |s.pollers|, Asked(trace, x, qi);
    RunStep(trace, steps, x.begin);
    BeginIs(s, x.args);
    BeginCollects(s, x.args, x.a, qi);
    Window(trace, steps, x.begin + 1, x.end, p, qi);
    var a, b, c := s.queues[qi].rev, s1.queues[qi].rev, s2.queues[qi].rev;
    AboveExtends(s.queues[qi].msgs, s1.queues[qi].msgs, rev, a, b);
    Joins(Max(a, rev), b, c);
    Assoc(Above(s.queues[qi].msgs, rev, 0), Range(Max(a, rev), b), Range(b, c));
  }

  lemma BeginIs(s: Server, args: seq<PollArg>)
    requires Inv(s)
    ensures Enabled(s, Begin(args)) && Apply(s, Begin(args)) == PollBegin(s, args)
  {
  }

  lemma Joins(a: nat, b: nat, c: nat)
    requires a <= b <= c
    ensures Range(a, b) + Range(b, c) == Range(a, c)
  {
  }

  lemma BeginCollects(s: Server, args: seq<PollArg>, a: nat, qi: nat)
    requires Inv(s) && a < |args| && DistinctNames(args) && !args[a].latest
    requires LiveAt(s, qi) && args[a].name == s.queues[qi].name
    ensures var s', p := PollBegin(s, args), |s.pollers|;
      && qi < |s'.queues| && p < |s'.pollers|
      && Times(s'.binders, qi, p) == 1 && Extends(s.queues[qi], s'.queues[qi])
      && s'.queues[qi].rev == RevThen(s.queues[qi], args[a])
      && Pending(s', p, qi) == Above(s'.queues[qi].msgs, AskedRev(s.queues[qi], args[a]), 0)
  {
    hide PollAll, Above, RevList;
    Booked(s, AllPending(s.pollers), qi);
    NewPollerInv(s);
    NeverBound(s.binders, qi, |s.pollers|);
    PollAllCollects(NewPoller(s), |s.pollers|, args, 0, a, qi);
  }

  lemma {:induction false} NeverBound(binders: seq<Binder>, qi: nat, p: nat)
    requires forall i :: 0 <= i < |binders| ==> binders[i].p != p
    ensures Times(binders, qi, p) == 0
  {
    if binders != [] {
      NeverBound(binders[1..], qi, p);
    }
  }

  lemma {:induction false} AboveIs(msgs: seq<Msg>, rev: int, k: nat)
    requires k <= |msgs| && Ascending(msgs)
    ensures forall x :: x in Above(msgs, rev, k) <==> rev < x && exists j :: k <= j < |msgs| && msgs[j].rev == x
    ensures forall i, j :: 0 <= i < j < |Above(msgs, rev, k)| ==> Above(msgs, rev, k)[i] < Above(msgs, rev, k)[j]
    decreases |msgs| - k
  {
    if k < |msgs| {
      AboveIs(msgs, rev, k + 1);
      var a := Above(msgs, rev, k + 1);
      assert forall j :: 0 <= j < |a| ==> a[j] in a;
    }
  }

  predicate Rising(revs: seq<nat>) {
    forall i, j :: 0 <= i < j < |revs| ==> revs[i] < revs[j]
  }


  /** A message is delivered if and only if it is above the revision asked for, and was posted during the poll or
      had not left the queue when the poll began. */
  lemma OnePollExact(trace: seq<Server>, steps: seq<Step>, x: Poll, qi: nat)
    requires IsRun(trace, steps) && IsPoll(trace, steps, x, qi)
    ensures var q := trace[x.begin].queues[qi];
      forall rev: nat :: rev in Got(trace, x, qi) <==>
        Asked(trace, x, qi) < rev <= EndRev(trace, x, qi) && (q.rev < rev || HasRev(q.msgs, rev))
    ensures Rising(Got(trace, x, qi))
    ensures trace[x.begin].queues[qi].rev <= EndRev(trace, x, qi)
  {
    hide Inv, IsRun, Got, EndRev, Above, Asked;
    var s := trace[x.begin];
    var q, r, asked := s.queues[qi], EndRev(trace, x, qi), Asked(trace, x, qi);
    OnePoll(trace, steps, x, qi);
    EveryState(trace, steps, x.begin);
    QueueInOrder(s, qi);
    AboveIs(q.msgs, asked, 0);
    var a := Above(q.msgs, asked, 0);
    InRange(Max(q.rev, asked), r);
    forall i | 0 <= i < |a|
      ensures a[i] <= q.rev
    {
      assert a[i] in a;
      var j :| 0 <= j < |q.msgs| && q.msgs[j].rev == a[i];
    }
  }

  lemma InRange(a: nat, b: nat)
    requires a <= b
    ensures forall x: nat :: x in Range(a, b) <==> a < x <= b
  {
    forall x: nat | a < x <= b
      ensures x in Range(a, b)
    {
      assert Range(a, b)[x - a - 1] == x;
    }
  }

  lemma QueueInOrder(s: Server, qi: nat)
    requires Inv(s) && LiveAt(s, qi)
    ensures Ascending(s.queues[qi].msgs)
    ensures forall k :: 0 <= k < |s.queues[qi].msgs| ==> s.queues[qi].msgs[k].rev <= s.queues[qi].rev
  {
    Booked(s, AllPending(s.pollers), qi);
  }

  // ---------- a consumer that keeps polling ----------

  /** Poll `k` begins after its predecessor has responded, from the revision that it reported, or from the same
      revision again if it reported none. */
  predicate Follows(trace: seq<Server>, polls: seq<Poll>, qi: nat, k: nat)
    requires 0 < k < |polls|
  {
    var x, y := polls[k - 1], polls[k];
    && x.begin < x.end <= y.begin && x.end < |trace| && x.a < |x.args| && y.a < |y.args|
    && y.args[y.a].rev == match Reported(trace, x, qi) case Some(rev) => rev case None => x.args[x.a].rev
  }

  /** Successive polls of one queue */
  ghost predicate KeepsPolling(trace: seq<Server>, steps: seq<Step>, polls: seq<Poll>, qi: nat) {
    && |polls| > 0 && (forall k :: 0 <= k < |polls| ==> IsPoll(trace, steps, polls[k], qi))
    && forall k :: 0 < k < |polls| ==> Follows(trace, polls, qi, k)
  }

  /** The poll does not ask for more than the queue has. */
  predicate InStep(trace: seq<Server>, x: Poll, qi: nat)
    requires x.begin < |trace| && qi < |trace[x.begin].queues| && x.a < |x.args|
  {
    x.args[x.a].rev <= trace[x.begin].queues[qi].rev
  }

  lemma Reaches(trace: seq<Server>, steps: seq<Step>, x: Poll, qi: nat, j: nat)
    requires IsRun(trace, steps) && IsPoll(trace, steps, x, qi) && x.end <= j < |trace|
    ensures qi < |trace[x.end].queues| && qi < |trace[j].queues|
    ensures trace[x.begin].queues[qi].rev <= EndRev(trace, x, qi) <= trace[j].queues[qi].rev
  {
    hide IsRun, Holds;
    RunOlder(trace, steps, x.begin, x.end, qi);
    RunOlder(trace, steps, x.end, j, qi);
  }

  /** Once a poll is in step, so is the next, and it asks for no less. */
  lemma NextInStep(trace: seq<Server>, steps: seq<Step>, polls: seq<Poll>, qi: nat, k: nat)
    requires IsRun(trace, steps) && KeepsPolling(trace, steps, polls, qi) && k + 1 < |polls|
    ensures IsPoll(trace, steps, polls[k], qi) && IsPoll(trace, steps, polls[k + 1], qi)
    ensures var x, y := polls[k], polls[k + 1];
      && (InStep(trace, x, qi) || Got(trace, x, qi) != [] ==> InStep(trace, y, qi))
      && (Got(trace, x, qi) != [] ==> y.args[y.a].rev == EndRev(trace, x, qi))
      && (Got(trace, x, qi) == [] ==> y.args[y.a].rev == x.args[x.a].rev)
  {
    var x, y := polls[k], polls[k + 1];
    assert IsPoll(trace, steps, x, qi) && IsPoll(trace, steps, y, qi) && Follows(trace, polls, qi, k + 1);
    hide IsRun, Got, EndRev, LiveAt;
    Reaches(trace, steps, x, qi, y.begin);
  }

  /** All polls after one that got something ask for at least what it reported. */
  lemma {:induction false} AsksGrow(trace: seq<Server>, steps: seq<Step>, polls: seq<Poll>, qi: nat, k: nat, l: nat)
    requires IsRun(trace, steps) && KeepsPolling(trace, steps, polls, qi) && k < l < |polls|
    requires IsPoll(trace, steps, polls[k], qi) && IsPoll(trace, steps, polls[l], qi)
    requires Got(trace, polls[k], qi) != []
    ensures InStep(trace, polls[l], qi) && EndRev(trace, polls[k], qi) <= polls[l].args[polls[l].a].rev
    decreases l
  {
    hide IsRun, KeepsPolling, Got, EndRev, LiveAt;
    NextInStep(trace, steps, polls, qi, l - 1);
    if k < l - 1 {
      AsksGrow(trace, steps, polls, qi, k, l - 1);
      OnePoll(trace, steps, polls[l - 1], qi);
    }
  }

  /** No duplicate: over all polls, the revisions delivered strictly increase. */
  lemma NoDuplicate(trace: seq<Server>, steps: seq<Step>, polls: seq<Poll>, qi: nat, k: nat, l: nat)
    requires IsRun(trace, steps) && KeepsPolling(trace, steps, polls, qi) && k <= l < |polls|
    ensures IsPoll(trace, steps, polls[k], qi) && IsPoll(trace, steps, polls[l], qi)
    ensures Rising(Got(trace, polls[k], qi))
    ensures k < l ==> forall x, y :: x in Got(trace, polls[k], qi) && y in Got(trace, polls[l], qi) ==> x < y
  {
    assert IsPoll(trace, steps, polls[k], qi) && IsPoll(trace, steps, polls[l], qi);
    hide IsRun, KeepsPolling, LiveAt, HasRev;
    OnePollExact(trace, steps, polls[k], qi);
    if k < l && Got(trace, polls[k], qi) != [] {
      OnePollExact(trace, steps, polls[l], qi);
      AsksGrow(trace, steps, polls, qi, k, l);
    }
  }

  /** No gap in a poll: what lies in its range and is not delivered had left the queue before the poll began; and if
      it ever had a reference of its own, its timer had run out. */
  lemma NoGap(trace: seq<Server>, steps: seq<Step>, x: Poll, qi: nat, rev: nat)
    requires IsRun(trace, steps) && IsPoll(trace, steps, x, qi)
    requires Asked(trace, x, qi) < rev <= EndRev(trace, x, qi) && rev !in Got(trace, x, qi)
    ensures Skipped(trace, steps, x.begin, qi, rev)
  {
    OnePollExact(trace, steps, x, qi);
    hide IsRun, IsPoll, Got, EndRev, Asked;
    var msgs := trace[x.begin].queues[qi].msgs;
    forall i, expiry | 0 <= i <= x.begin && qi < |trace[i].queues| && Owned(trace[i].queues[qi].msgs, rev, expiry)
      ensures Expires(trace, steps, i, x.begin, qi, rev)
    {
      assert !Owned(msgs, rev, expiry);
      RunLength(trace, steps);
      WhyGone(trace, steps, i, x.begin, qi, rev, expiry);
    }
  }

  /** The timer of the message runs out in a step of the run from `i` to `j`. */
  ghost predicate Expires(trace: seq<Server>, steps: seq<Step>, i: nat, j: nat, qi: nat, rev: nat)
    requires j < |trace|
  {
    exists k :: i <= k < j && k < |steps| && RunsOut(trace[k], steps[k], qi, rev)
  }

  /** The message has left the queue before the state at `b`; unless it never had a reference of its own, it has
      expired. */
  ghost predicate Skipped(trace: seq<Server>, steps: seq<Step>, b: nat, qi: nat, rev: nat) {
    && b < |trace| && qi < |trace[b].queues| && rev <= trace[b].queues[qi].rev && !HasRev(trace[b].queues[qi].msgs, rev)
    && forall i, expiry ::
         0 <= i <= b && qi < |trace[i].queues| && Owned(trace[i].queues[qi].msgs, rev, expiry) ==>
           Expires(trace, steps, i, b, qi, rev)
  }

  /** The consumer asks for no more than the queue has, or is told what it has. */
  predicate GetsInStep(trace: seq<Server>, x: Poll, qi: nat)
    requires x.begin < x.end < |trace| && qi < |trace[x.begin].queues| && x.a < |x.args|
  {
    InStep(trace, x, qi) || Got(trace, x, qi) != []
  }

  /** No gap over all polls: each message later than what the first poll is served from has been delivered by one of
      the polls, or was skipped by one for a reason; unless the first poll is ahead of the queue and is told nothing. */
  lemma {:induction false} NoGapOverall(
    trace: seq<Server>, steps: seq<Step>, polls: seq<Poll>, qi: nat, k: nat, rev: nat)
    returns (j: nat)
    requires IsRun(trace, steps) && KeepsPolling(trace, steps, polls, qi) && k < |polls|
    requires IsPoll(trace, steps, polls[0], qi) && IsPoll(trace, steps, polls[k], qi)
    requires GetsInStep(trace, polls[0], qi) && Asked(trace, polls[0], qi) < rev <= EndRev(trace, polls[k], qi)
    ensures j <= k && IsPoll(trace, steps, polls[j], qi)
    ensures rev in Got(trace, polls[j], qi) || Skipped(trace, steps, polls[j].begin, qi, rev)
  {
    hide IsRun, KeepsPolling, Got, EndRev, LiveAt, Skipped;
    if k == 0 {
      j := 0;
      if rev !in Got(trace, polls[0], qi) {
        NoGap(trace, steps, polls[0], qi, rev);
      }
    } else {
      ThenInStep(trace, steps, polls, qi, k);
      if polls[k].args[polls[k].a].rev < rev {
        j := k;
        if rev !in Got(trace, polls[k], qi) {
          NoGap(trace, steps, polls[k], qi, rev);
        }
      } else {
        NextInStep(trace, steps, polls, qi, k - 1);
        OnePoll(trace, steps, polls[k - 1], qi);
        if k > 1 {
          ThenInStep(trace, steps, polls, qi, k - 1);
        }
        j := NoGapOverall(trace, steps, polls, qi, k - 1, rev);
      }
    }
  }

  lemma {:induction false} ThenInStep(trace: seq<Server>, steps: seq<Step>, polls: seq<Poll>, qi: nat, k: nat)
    requires IsRun(trace, steps) && KeepsPolling(trace, steps, polls, qi) && 0 < k < |polls|
    requires IsPoll(trace, steps, polls[0], qi) && IsPoll(trace, steps, polls[k], qi) && GetsInStep(trace, polls[0], qi)
    ensures InStep(trace, polls[k], qi) && Asked(trace, polls[k], qi) == polls[k].args[polls[k].a].rev
  {
    hide IsRun, KeepsPolling, Got, EndRev, LiveAt;
    NextInStep(trace, steps, polls, qi, k - 1);
    if k > 1 {
      ThenInStep(trace, steps, polls, qi, k - 1);
    }
  }
}
