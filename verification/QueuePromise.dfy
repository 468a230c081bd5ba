/** The promise that consumers do not miss messages, and exactly when the server keeps it. */
module QueuePromise {
  import opened Wrappers
  import opened QueueState
  import opened QueueOps
  import opened QueueSteps
  import opened QueueDelivery
  import opened QueueHistory
  import opened QueueKeeping
  import opened QueueRuns
  import opened QueueConsumer
  import opened QueueLoss

  /** Step `i` posts a message with the expiry `ms` to the queue `qi`, which is not full: it gets the revision `rev`. */
  predicate Accepted(trace: seq<Server>, steps: seq<Step>, i: nat, qi: nat, ms: int, rev: nat) {
    && i < |steps| && i < |trace| && steps[i].Post? && steps[i].msecs == ms && steps[i].name in trace[i].store
    && qi == trace[i].store[steps[i].name] && LiveAt(trace[i], qi) && rev == trace[i].queues[qi].rev + 1
    && (Crowded(trace[i].queues[qi]) ==> trace[i].queues[qi].dropFromHead)
  }

  /** One of the first polls has delivered the message, or it expired before that poll began. */
  ghost predicate DeliveredOrExpired(
    trace: seq<Server>, steps: seq<Step>, polls: seq<Poll>, qi: nat, k: nat, i: nat, rev: nat)
  {
    exists j :: 0 <= j <= k && j < |polls| && Served(trace, steps, polls[j], qi, i, rev)
  }

  ghost predicate Served(trace: seq<Server>, steps: seq<Step>, x: Poll, qi: nat, i: nat, rev: nat) {
    && x.begin < x.end < |trace|
    && (rev in Got(trace, x, qi) || Expires(trace, steps, i, x.begin, qi, rev))
  }

  /** Polls of one queue that reach beyond the revision `rev` */
  ghost predicate Covers(trace: seq<Server>, steps: seq<Step>, polls: seq<Poll>, qi: nat, k: nat, rev: nat) {
    && KeepsPolling(trace, steps, polls, qi) && k < |polls|
    && IsPoll(trace, steps, polls[0], qi) && IsPoll(trace, steps, polls[k], qi)
    && Asked(trace, polls[0], qi) < rev <= EndRev(trace, polls[k], qi)
  }

  ghost predicate InStepCovers(trace: seq<Server>, steps: seq<Step>, polls: seq<Poll>, qi: nat, k: nat, rev: nat) {
    Covers(trace, steps, polls, qi, k, rev) && GetsInStep(trace, polls[0], qi)
  }

  /** In every run, each consumer in step that polls beyond a message posted with the expiry `ms` has got it, unless it
      expired. */
  ghost predicate Promised(ms: int) {
    forall trace, steps, polls, qi, k, i, rev ::
      IsRun(trace, steps) && Accepted(trace, steps, i, qi, ms, rev) && InStepCovers(trace, steps, polls, qi, k, rev) ==>
        DeliveredOrExpired(trace, steps, polls, qi, k, i, rev)
  }

  lemma KeptFor(
    trace: seq<Server>, steps: seq<Step>, polls: seq<Poll>, qi: nat, k: nat, i: nat, ms: int, rev: nat)
    requires HasOwn(ms) && IsRun(trace, steps) && Accepted(trace, steps, i, qi, ms, rev)
    requires InStepCovers(trace, steps, polls, qi, k, rev)
    ensures DeliveredOrExpired(trace, steps, polls, qi, k, i, rev)
  {
    hide IsRun, KeepsPolling, Got, EndRev, Asked, Owned, Holds, Expires, Kept;
    RunLength(trace, steps);
    var j := NoGapOverall(trace, steps, polls, qi, k, rev);
    var x := polls[j];
    if rev !in Got(trace, x, qi) {
      PostedAs(trace, steps, i);
      if x.begin <= i {
        RunOlder(trace, steps, x.begin, i, qi);
        OlderRevs(trace[x.begin], trace[i], qi);
        assert false;
      }
      assert Owned(trace[i + 1].queues[qi].msgs, rev, ms);
      assert Expires(trace, steps, i + 1, x.begin, qi, rev);
      Sooner(trace, steps, i, x.begin, qi, rev);
    }
    assert Served(trace, steps, x, qi, i, rev);
  }

  lemma OlderRevs(s: Server, s': Server, qi: nat)
    requires Older(s, s', qi)
    ensures s.queues[qi].rev <= s'.queues[qi].rev
  {
  }

  lemma Sooner(trace: seq<Server>, steps: seq<Step>, i: nat, j: nat, qi: nat, rev: nat)
    requires j < |trace| && Expires(trace, steps, i + 1, j, qi, rev)
    ensures Expires(trace, steps, i, j, qi, rev)
  {
  }

  // ---------- without a reference of its own ----------

  /** The two polls of the run in which the second message is lost */
  function LossyPolls(name: string): seq<Poll> {
    [Poll(2, 3, [Ask(name, 0)], 0), Poll(5, 6, [Ask(name, 1)], 0)]
  }

  /** Whatever the texts, the consumer of that run is in step and never gets the second message, which cannot expire. */
  lemma BrokenFor(name: string, a: string, ms: int, b: string) returns (trace: seq<Server>)
    requires !HasOwn(ms)
    ensures var (steps, polls) := (Lossy(name, a, ms, b), LossyPolls(name));
      && IsRun(trace, steps) && Accepted(trace, steps, 3, 0, ms, 2) && InStepCovers(trace, steps, polls, 0, 1, 2)
      && !DeliveredOrExpired(trace, steps, polls, 0, 1, 3, 2)
  {
    hide IsRun;
    trace := LostWhileSending(name, a, ms, b);
  }

  /** The promise is kept exactly for messages posted with a positive expiry or with -1. */
  lemma PromisedIff(ms: int)
    ensures Promised(ms) <==> ms > 0 || ms == -1
  {
    hide IsRun, Accepted, InStepCovers, DeliveredOrExpired;
    if HasOwn(ms) {
      forall trace, steps, polls, qi, k, i, rev |
        IsRun(trace, steps) && Accepted(trace, steps, i, qi, ms, rev) && InStepCovers(trace, steps, polls, qi, k, rev)
        ensures DeliveredOrExpired(trace, steps, polls, qi, k, i, rev)
      {
        KeptFor(trace, steps, polls, qi, k, i, ms, rev);
      }
    } else {
      var trace := BrokenFor("q", "a", ms, "b");
    }
  }

  // ---------- a consumer that is not in step ----------

  function AheadPolls(name: string): seq<Poll> {
    [Poll(1, 2, [Ask(name, 1)], 0), Poll(4, 5, [Ask(name, 1)], 0)]
  }

  /** The promise is for consumers in step: one that asks for more than the queue has and is told nothing misses a
      message with a reference of its own, which has not expired and is still in the queue. */
  lemma MissedWhileAhead(name: string, ms: int, a: string) returns (trace: seq<Server>)
    requires HasOwn(ms)
    ensures var (steps, polls) := (Overtaking(name, ms, a), AheadPolls(name));
      && IsRun(trace, steps) && Accepted(trace, steps, 3, 0, ms, 1) && Covers(trace, steps, polls, 0, 1, 1)
      && !DeliveredOrExpired(trace, steps, polls, 0, 1, 3, 1) && Owned(trace[5].queues[0].msgs, 1, ms)
  {
    hide IsRun;
    trace := OvertakenWhileAhead(name, ms, a);
    assert trace[5].queues[0].msgs[0].rev == 1;
  }
}
