/** Whole runs of the queue server: its invariant, and what a consumer gets that keeps polling. */
module QueueRuns {
  import opened QueueState
  import opened QueueOps
  import opened QueueSteps
  import opened QueueDelivery
  import opened QueueHistory
  import opened QueueKeeping

  /** What happens between two waits of the cooperative threads */
  datatype Step =
    | Create(name: string, expiry: int, maxSize: int, consumerExpiry: int, dropFromHead: bool)
    | Post(name: string, msecs: int, data: string)
    | Delete(name: string)
    | Begin(args: seq<PollArg>)
    | End(p: nat)
    | MsgTimer(q: nat, k: nat)
    | QueueTimer(q: nat)
    | ConsumerTimer(q: nat, id: string)

  /** A timer can only run out while it is set.  A queue is deleted only once, and not while its own timer runs. */
  predicate Enabled(s: Server, step: Step) {
    match step
    case Create(_, _, _, _, _) | Post(_, _, _) | Begin(_) => true
    case Delete(name) =>
      name in s.store && LiveAt(s, s.store[name]) ==>
        (s.queues[s.store[name]].base && !s.queues[s.store[name]].timer)
    case End(p) => p < |s.pollers| && s.pollers[p].open
    case MsgTimer(q, k) => LiveAt(s, q) && k < |s.queues[q].msgs| && s.queues[q].msgs[k].timer
    case QueueTimer(q) => LiveAt(s, q) && s.queues[q].timer && s.queues[q].base
    case ConsumerTimer(q, id) => LiveAt(s, q) && id in s.queues[q].consumers
  }

  /** `on_msg_post` for a queue that is found */
  ghost function Posted(s: Server, qi: nat, msecs: int, data: string): (s': Server)
    requires Inv(s) && LiveAt(s, qi)
    ensures Inv(s')
  {
    var q := s.queues[qi];
    if Crowded(q) && !q.dropFromHead then s
    else
      var s1 := if Crowded(q) then DropHeadInv(s, qi); DropHead(s, qi) else s;
      assert LiveAt(s1, qi) by { HeadKeepsQueue(s, qi); }
      MsgCreateInv(s1, qi, msecs, data);
      MsgCreate(s1, qi, msecs, data)
  }

  lemma HeadKeepsQueue(s: Server, qi: nat)
    requires Inv(s) && LiveAt(s, qi)
    ensures Crowded(s.queues[qi]) ==> s.queues[qi].msgs != [] && s.queues[qi].msgsInQueue > 0
    ensures Crowded(s.queues[qi]) ==>
      LiveAt(DropHead(s, qi), qi) && DropHead(s, qi).queues[qi].rev == s.queues[qi].rev
  {
    Booked(s, AllPending(s.pollers), qi);
  }

  ghost function Apply(s: Server, step: Step): (s': Server)
    requires Inv(s) && Enabled(s, step)
    ensures Inv(s')
  {
    hide Books, Bound, PollAll, Posted, Finish, Release, IndexOf, HasRev, MsgCreate, Left;
    match step
    case Create(name, expiry, maxSize, consumerExpiry, dropFromHead) =>
      if name in s.store then s
      else
        CreatedInv(s, name, expiry, maxSize, consumerExpiry, dropFromHead);
        Created(s, name, expiry, maxSize, consumerExpiry, dropFromHead)
    case Post(name, msecs, data) =>
      if name !in s.store then s
      else
        StoreLive(s, name);
        Posted(s, s.store[name], msecs, data)
    case Delete(name) =>
      if name !in s.store then s
      else
        StoreLive(s, name);
        DropBaseInv(s, s.store[name]);
        DropBase(s, s.store[name])
    case Begin(args) => PollBegin(s, args)
    case End(p) => Finish(s, p)
    case MsgTimer(q, k) =>
      ExpireMsgInv(s, q, k);
      ExpireMsg(s, q, k)
    case QueueTimer(q) =>
      DropBaseInv(s, q);
      DropBase(s, q)
    case ConsumerTimer(q, id) =>
      ConsumerExpiredInv(s, q, id);
      ConsumerExpired(s, q, id)
  }

  ghost predicate Next(s: Server, step: Step, s': Server) {
    Enabled(s, step) && (Inv(s) ==> s' == Apply(s, step))
  }

  /** Every step of the trace is one the server can take. */
  ghost predicate IsRun(trace: seq<Server>, steps: seq<Step>) {
    && |trace| == |steps| + 1 && trace[0] == EMPTY
    && forall i :: 0 <= i < |steps| ==> Next(trace[i], steps[i], trace[i + 1])
  }

  /** In every reachable state the references are conserved, the lists are in order, and the store is exact. */
  lemma {:induction false} EveryState(trace: seq<Server>, steps: seq<Step>, i: nat)
    requires IsRun(trace, steps) && i < |trace|
    ensures Inv(trace[i])
  {
    if i == 0 {
      assert Inv(EMPTY);
    } else {
      EveryState(trace, steps, i - 1);
      assert Next(trace[i - 1], steps[i - 1], trace[i]);
    }
  }

  lemma RunLength(trace: seq<Server>, steps: seq<Step>)
    requires IsRun(trace, steps)
    ensures |trace| == |steps| + 1
  {
  }

  lemma RunStep(trace: seq<Server>, steps: seq<Step>, i: nat)
    requires IsRun(trace, steps) && i < |steps|
    ensures Inv(trace[i]) && Enabled(trace[i], steps[i]) && trace[i + 1] == Apply(trace[i], steps[i])
  {
    EveryState(trace, steps, i);
    assert Next(trace[i], steps[i], trace[i + 1]);
  }

  // ---------- what a step does to a bound poller ----------

  lemma CreateGrows(s: Server, step: Step, p: nat, qi: nat)
    requires step.Create? && step.name !in s.store && AtMostOnce(s, p, qi)
    ensures Grows(s, Created(s, step.name, step.expiry, step.maxSize, step.consumerExpiry, step.dropFromHead), p, qi)
  {
    GrowsNot(s, Created(s, step.name, step.expiry, step.maxSize, step.consumerExpiry, step.dropFromHead), p, qi);
  }

  lemma PostedGrows(s: Server, qj: nat, msecs: int, data: string, p: nat, qi: nat)
    requires Inv(s) && LiveAt(s, qj) && AtMostOnce(s, p, qi)
    ensures Grows(s, Posted(s, qj, msecs, data), p, qi)
  {
    hide MsgCreate, RevsOf, Times, Books;
    var q := s.queues[qj];
    if Crowded(q) && !q.dropFromHead {
      GrowsNot(s, s, p, qi);
    } else {
      HeadKeepsQueue(s, qj);
      var s1 := if Crowded(q) then DropHead(s, qj) else s;
      GrowsNot(s, s1, p, qi);
      if Crowded(q) {
        DropHeadInv(s, qj);
      }
      MsgCreateGrows(s1, qj, msecs, data, p, qi);
      GrowsTrans(s, s1, MsgCreate(s1, qj, msecs, data), p, qi);
    }
  }

  lemma BeginGrows(s: Server, args: seq<PollArg>, p: nat, qi: nat)
    requires Inv(s) && AtMostOnce(s, p, qi)
    ensures Grows(s, PollBegin(s, args), p, qi)
  {
    hide RevsOf, Times, Books, PollAll;
    NewPollerInv(s);
    var s1 := NewPoller(s);
    GrowsNot(s, s1, p, qi);
    if NothingFound(s, args) {
      GrowsNot(s, Close(s1, |s.pollers|), p, qi);
    } else {
      PollAllGrows(s1, |s.pollers|, args, 0, p, qi);
      GrowsTrans(s, s1, PollBegin(s, args), p, qi);
    }
  }

  lemma {:induction false} UnboundTimes(binders: seq<Binder>, pj: nat, qi: nat, p: nat)
    requires pj != p
    ensures Times(Unbound(binders, pj), qi, p) == Times(binders, qi, p)
  {
    if binders != [] {
      UnboundTimes(binders[1..], pj, qi, p);
      if binders[0].p != pj {
        var u := [binders[0]] + Unbound(binders[1..], pj);
        assert u[1..] == Unbound(binders[1..], pj);
      }
    }
  }

  lemma EndGrows(s: Server, pj: nat, p: nat, qi: nat)
    requires Inv(s) && pj < |s.pollers| && pj != p && AtMostOnce(s, p, qi)
    ensures Grows(s, Finish(s, pj), p, qi)
  {
    hide Inv, ReleasePending, RevsOf, Times;
    UnbindInv(s, pj);
    UnboundTimes(s.binders, pj, qi, p);
    var s1 := ReleasePending(Unbind(s, pj), pj);
    GrowsNot(s, Finish(s, pj), p, qi);
  }

  /** Between the beginning and the end of its poll, a poller misses nothing that is posted. */
  lemma StepGrows(s: Server, step: Step, p: nat, qi: nat)
    requires Inv(s) && Enabled(s, step) && step != End(p) && AtMostOnce(s, p, qi)
    ensures Grows(s, Apply(s, step), p, qi)
  {
    hide RevsOf, Times, Books, Posted, PollBegin, Finish, ConsumerExpired, Release, Grows;
    match step
    case Create(name, _, _, _, _) =>
      if name in s.store {
        GrowsNot(s, s, p, qi);
      } else {
        CreateGrows(s, step, p, qi);
      }
    case Post(name, msecs, data) =>
      if name in s.store {
        StoreLive(s, name);
        PostedGrows(s, s.store[name], msecs, data, p, qi);
      } else {
        GrowsNot(s, s, p, qi);
      }
    case Begin(args) => BeginGrows(s, args, p, qi);
    case End(pj) => EndGrows(s, pj, p, qi);
    case ConsumerTimer(q, id) => ConsumerExpiredGrows(s, q, id, p, qi);
    case _ => TimerGrows(s, step, p, qi);
  }

  lemma TimerGrows(s: Server, step: Step, p: nat, qi: nat)
    requires Inv(s) && Enabled(s, step) && (step.Delete? || step.MsgTimer? || step.QueueTimer?) && AtMostOnce(s, p, qi)
    ensures Grows(s, Apply(s, step), p, qi)
  {
    hide RevsOf, Times, Books, Bound, Unbound, PollAll, Posted, Finish, MsgCreate, Left;
    match step {
      case MsgTimer(q, k) => ExpireMsgInv(s, q, k);
      case QueueTimer(q) => DropBaseInv(s, q);
      case Delete(name) =>
        if name in s.store {
          StoreLive(s, name);
          DropBaseInv(s, s.store[name]);
        }
    }
    GrowsNot(s, Apply(s, step), p, qi);
  }

  // ---------- revisions only grow, messages stay as they are ----------

  lemma PostedOlder(s: Server, qj: nat, msecs: int, data: string, qi: nat)
    requires Inv(s) && LiveAt(s, qj) && qi < |s.queues|
    ensures Older(s, Posted(s, qj, msecs, data), qi)
  {
    hide MsgCreate, Books, Bound, Older;
    HeadKeepsQueue(s, qj);
    OlderSelf(s, s, qi);
    var q := s.queues[qj];
    if !(Crowded(q) && !q.dropFromHead) {
      var s1 := s;
      if Crowded(q) {
        s1 := DropHead(s, qj);
        DropHeadInv(s, qj);
        DropHeadOlder(s, qj, qi);
      }
      OlderInPlace(s, s1, qi);
      MsgCreateOlder(s1, qj, msecs, data, qi);
      OlderTrans(s, s1, MsgCreate(s1, qj, msecs, data), qi);
    }
  }

  lemma OlderInPlace(s: Server, s': Server, qi: nat)
    requires Older(s, s', qi)
    ensures qi < |s'.queues|
  {
  }

  /** No step changes a message, or brings one back. */
  lemma StepOlder(s: Server, step: Step, qi: nat)
    requires Inv(s) && Enabled(s, step) && qi < |s.queues|
    ensures Older(s, Apply(s, step), qi)
  {
    hide Books, Bound, Posted, PollAll, Finish, ConsumerExpired, Older, MsgCreate;
    OlderSelf(s, s, qi);
    match step
    case Create(_, _, _, _, _) => OlderSelf(s, Apply(s, step), qi);
    case Post(name, msecs, data) =>
      if name in s.store {
        StoreLive(s, name);
        PostedOlder(s, s.store[name], msecs, data, qi);
      }
    case Begin(args) => BeginOlder(s, args, qi);
    case End(p) => FinishOlder(s, p, qi);
    case Delete(name) =>
      if name in s.store {
        StoreLive(s, name);
        DropBaseInv(s, s.store[name]);
        DropBaseOlder(s, s.store[name], qi);
      }
    case MsgTimer(q, k) =>
      ExpireMsgInv(s, q, k);
      ExpireMsgOlder(s, q, k, qi);
    case QueueTimer(q) =>
      DropBaseInv(s, q);
      DropBaseOlder(s, q, qi);
    case ConsumerTimer(q, id) => ConsumerExpiredOlder(s, q, id, qi);
  }

  lemma BeginOlder(s: Server, args: seq<PollArg>, qi: nat)
    requires Inv(s) && qi < |s.queues|
    ensures Older(s, PollBegin(s, args), qi)
  {
    hide Books, Bound, PollAll, Older;
    NewPollerInv(s);
    var s1 := NewPoller(s);
    OlderSelf(s, s1, qi);
    if NothingFound(s, args) {
      OlderSelf(s, PollBegin(s, args), qi);
    } else {
      PollAllOlder(s1, |s.pollers|, args, 0, qi);
      OlderTrans(s, s1, PollBegin(s, args), qi);
    }
  }

  lemma {:induction false} RunOlder(trace: seq<Server>, steps: seq<Step>, i: nat, j: nat, qi: nat)
    requires IsRun(trace, steps) && i <= j < |trace| && qi < |trace[i].queues|
    ensures Older(trace[i], trace[j], qi)
    decreases j - i
  {
    hide IsRun, Inv, Apply, Enabled, Kept;
    if i == j {
      OlderSelf(trace[i], trace[i], qi);
    } else {
      RunOlder(trace, steps, i, j - 1, qi);
      RunLength(trace, steps);
      RunStep(trace, steps, j - 1);
      StepOlder(trace[j - 1], steps[j - 1], qi);
      OlderTrans(trace[i], trace[j - 1], trace[j], qi);
    }
  }

  /** A message that a queue holds under a revision it had reached before was there then, with the same data. */
  lemma NeverChanges(trace: seq<Server>, steps: seq<Step>, i: nat, j: nat, qi: nat, k: nat)
    requires IsRun(trace, steps) && i <= j < |trace|
    requires qi < |trace[i].queues| && qi < |trace[j].queues| && k < |trace[j].queues[qi].msgs|
    ensures
      var m := trace[j].queues[qi].msgs[k];
      m.rev <= trace[i].queues[qi].rev ==> Holds(trace[i].queues[qi].msgs, m.rev, m.data)
  {
    RunOlder(trace, steps, i, j, qi);
  }

  // ---------- how a message leaves ----------

  /** The step is the timer of the message with this revision. */
  predicate RunsOut(s: Server, step: Step, qi: nat, rev: nat) {
    && step.MsgTimer? && step.q == qi && qi < |s.queues|
    && step.k < |s.queues[qi].msgs| && s.queues[qi].msgs[step.k].rev == rev && s.queues[qi].msgs[step.k].timer
  }

  /** The step gives up a reference to the message: a response with it has been sent, its timer has run out, or it is
      the head that a full queue drops to make room. */
  predicate GivesUp(s: Server, step: Step, qi: nat, rev: nat) {
    qi < |s.queues| &&
    match step
    case End(p) => p < |s.pollers| && Entry(qi, rev) in s.pollers[p].pending
    case MsgTimer(_, _) => RunsOut(s, step, qi, rev)
    case Post(name, _, _) =>
      var q := s.queues[qi];
      && name in s.store && s.store[name] == qi && Crowded(q) && q.dropFromHead
      && q.msgs != [] && q.msgs[0].rev == rev
    case _ => false
  }

  lemma PostedKeeps(s: Server, qj: nat, msecs: int, data: string, qi: nat, rev: nat, expiry: int, own: nat)
    requires Inv(s) && LiveAt(s, qj) && qi < |s.queues|
    requires var q := s.queues[qj];
      own == 1 || qi != qj || (Crowded(q) && q.dropFromHead && q.msgs != [] ==> q.msgs[0].rev != rev)
    ensures Keeps(s, Posted(s, qj, msecs, data), qi, rev, expiry, own)
  {
    hide MsgCreate, Books, Bound, Keeps;
    HeadKeepsQueue(s, qj);
    KeepsSelf(s, s, qi, rev, expiry, own);
    var q := s.queues[qj];
    if !(Crowded(q) && !q.dropFromHead) {
      var s1 := s;
      if Crowded(q) {
        s1 := DropHead(s, qj);
        DropHeadInv(s, qj);
        DropHeadKeeps(s, qj, qi, rev, expiry, own);
      }
      KeptInPlace(s, s1, qi, rev, expiry, own);
      MsgCreateKeeps(s1, qj, msecs, data, qi, rev, expiry, own);
      KeepsTrans(s, s1, MsgCreate(s1, qj, msecs, data), qi, rev, expiry, own);
    }
  }

  lemma KeptInPlace(s: Server, s': Server, qi: nat, rev: nat, expiry: int, own: nat)
    requires Keeps(s, s', qi, rev, expiry, own)
    ensures qi < |s'.queues|
  {
  }

  lemma BeginKeeps(s: Server, args: seq<PollArg>, qi: nat, rev: nat, expiry: int, own: nat)
    requires Inv(s) && qi < |s.queues|
    ensures Keeps(s, PollBegin(s, args), qi, rev, expiry, own)
  {
    hide Books, Bound, PollAll, Keeps;
    NewPollerInv(s);
    var s1 := NewPoller(s);
    KeepsSelf(s, s1, qi, rev, expiry, own);
    if NothingFound(s, args) {
      KeepsSelf(s, PollBegin(s, args), qi, rev, expiry, own);
    } else {
      PollAllKeeps(s1, |s.pollers|, args, 0, qi, rev, expiry, own);
      KeepsTrans(s, s1, PollBegin(s, args), qi, rev, expiry, own);
    }
  }

  /** A message stays unless the step gives up a reference to it; one with a reference of its own stays until its timer
      runs out. */
  lemma StepKeeps(s: Server, step: Step, qi: nat, rev: nat, expiry: int, own: nat)
    requires Inv(s) && Enabled(s, step) && qi < |s.queues| && !RunsOut(s, step, qi, rev)
    requires own == 1 || !GivesUp(s, step, qi, rev)
    ensures Keeps(s, Apply(s, step), qi, rev, expiry, own)
  {
    hide Books, Bound, Posted, PollAll, Finish, ConsumerExpired, Keeps, MsgCreate;
    KeepsSelf(s, s, qi, rev, expiry, own);
    match step
    case Create(_, _, _, _, _) => KeepsSelf(s, Apply(s, step), qi, rev, expiry, own);
    case Post(name, msecs, data) =>
      if name in s.store {
        StoreLive(s, name);
        PostedKeeps(s, s.store[name], msecs, data, qi, rev, expiry, own);
      }
    case Begin(args) => BeginKeeps(s, args, qi, rev, expiry, own);
    case End(p) => FinishKeeps(s, p, qi, rev, expiry, own);
    case Delete(name) =>
      if name in s.store {
        StoreLive(s, name);
        DropBaseInv(s, s.store[name]);
        KeepsSelf(s, DropBase(s, s.store[name]), qi, rev, expiry, own);
      }
    case MsgTimer(q, k) =>
      ExpireMsgInv(s, q, k);
      ExpireMsgKeeps(s, q, k, qi, rev, expiry, own);
    case QueueTimer(q) =>
      DropBaseInv(s, q);
      KeepsSelf(s, DropBase(s, q), qi, rev, expiry, own);
    case ConsumerTimer(q, id) => ConsumerExpiredKeeps(s, q, id, qi, rev, expiry, own);
  }

  lemma StepOwns(s: Server, step: Step, qi: nat, rev: nat, expiry: int)
    requires Inv(s) && Enabled(s, step) && qi < |s.queues| && !RunsOut(s, step, qi, rev)
    requires Owned(s.queues[qi].msgs, rev, expiry)
    ensures qi < |Apply(s, step).queues| && Owned(Apply(s, step).queues[qi].msgs, rev, expiry)
  {
    hide Inv, Enabled, Apply, RunsOut, GivesUp, Listed;
    StepKeeps(s, step, qi, rev, expiry, 1);
  }

  /** Over whole runs: a message that had a reference of its own and is gone has expired in between. */
  lemma {:induction false} WhyGone(trace: seq<Server>, steps: seq<Step>, i: nat, j: nat, qi: nat, rev: nat, expiry: int)
    requires IsRun(trace, steps) && i <= j < |trace| && qi < |trace[i].queues| && qi < |trace[j].queues|
    requires Owned(trace[i].queues[qi].msgs, rev, expiry) && !Owned(trace[j].queues[qi].msgs, rev, expiry)
    ensures exists k :: i <= k < j && k < |steps| && RunsOut(trace[k], steps[k], qi, rev)
    decreases j - i
  {
    hide IsRun, Inv, Apply, Enabled, Owned, Kept, RunsOut;
    RunLength(trace, steps);
    RunOlder(trace, steps, i, j - 1, qi);
    if Owned(trace[j - 1].queues[qi].msgs, rev, expiry) {
      RunStep(trace, steps, j - 1);
      if !RunsOut(trace[j - 1], steps[j - 1], qi, rev) {
        StepOwns(trace[j - 1], steps[j - 1], qi, rev, expiry);
        assert false;
      }
    } else {
      WhyGone(trace, steps, i, j - 1, qi, rev, expiry);
    }
  }

  lemma NoTimer(s: Server, step: Step, qi: nat, rev: nat)
    requires Inv(s) && Enabled(s, step) && qi < |s.queues| && Owned(s.queues[qi].msgs, rev, -1)
    ensures !RunsOut(s, step, qi, rev)
  {
    if RunsOut(s, step, qi, rev) {
      Booked(s, AllPending(s.pollers), qi);
      ListedAt(s.queues[qi], step.k, -1, 1);
    }
  }

  /** A message with expiry -1 never goes. */
  lemma {:induction false} Lasting(trace: seq<Server>, steps: seq<Step>, i: nat, j: nat, qi: nat, rev: nat)
    requires IsRun(trace, steps) && i <= j < |trace| && qi < |trace[i].queues|
    requires Owned(trace[i].queues[qi].msgs, rev, -1)
    ensures qi < |trace[j].queues| && Owned(trace[j].queues[qi].msgs, rev, -1)
    decreases j - i
  {
    hide IsRun, Inv, Apply, Enabled, Owned, RunsOut;
    if i < j {
      RunLength(trace, steps);
      Lasting(trace, steps, i, j - 1, qi, rev);
      RunStep(trace, steps, j - 1);
      NoTimer(trace[j - 1], steps[j - 1], qi, rev);
      StepOwns(trace[j - 1], steps[j - 1], qi, rev, -1);
    }
  }

  /** A message goes under the next revision of its queue, with the data posted; with an expiry
      other than 0 it has a reference of its own. */
  lemma PostedAs(trace: seq<Server>, steps: seq<Step>, i: nat)
    requires IsRun(trace, steps) && i < |steps| && steps[i].Post? && steps[i].name in trace[i].store
    requires LiveAt(trace[i], trace[i].store[steps[i].name])
    ensures
      var qi := trace[i].store[steps[i].name];
      var q := trace[i].queues[qi];
      qi < |trace[i + 1].queues| &&
      if Crowded(q) && !q.dropFromHead then trace[i + 1] == trace[i]
      else
        trace[i + 1].queues[qi].rev == q.rev + 1 &&
        Holds(trace[i + 1].queues[qi].msgs, q.rev + 1, steps[i].data) &&
        (steps[i].msecs > 0 || steps[i].msecs == -1 ==>
          Owned(trace[i + 1].queues[qi].msgs, q.rev + 1, steps[i].msecs))
  {
    hide MsgCreate, Books, Bound, Holds, Owned;
    RunStep(trace, steps, i);
    var s, qi := trace[i], trace[i].store[steps[i].name];
    HeadKeepsQueue(s, qi);
    if Crowded(s.queues[qi]) {
      DropHeadInv(s, qi);
      if s.queues[qi].dropFromHead {
        MsgCreateOlder(DropHead(s, qi), qi, steps[i].msecs, steps[i].data, qi);
        MsgCreateKeeps(DropHead(s, qi), qi, steps[i].msecs, steps[i].data, qi, 0, 0, 0);
      }
    } else {
      MsgCreateOlder(s, qi, steps[i].msecs, steps[i].data, qi);
      MsgCreateKeeps(s, qi, steps[i].msecs, steps[i].data, qi, 0, 0, 0);
    }
  }
}
