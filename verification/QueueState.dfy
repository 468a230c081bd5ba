/** The state of the queue server of src/memqueue.c, and what every reachable state satisfies. */
module QueueState {
  import opened Wrappers

  /** `msg_t`; `timer` says that the message stands in the expiry tree. */
  datatype Msg = Msg(rev: nat, data: string, expiry: int, refs: nat, timer: bool, isNew: bool)

  /** `memqueue_t`.  `live` until it is freed; `base` until the reference taken at its creation is dropped. */
  datatype Queue = Queue(
    name: string, live: bool, base: bool, timer: bool, rev: nat, refs: nat,
    maxSize: int, consumerExpiry: int, dropFromHead: bool,
    msgsInQueue: nat, msgs: seq<Msg>, consumers: seq<string>)

  /** `pending_msg_t`: a message, named by its queue and its revision there */
  datatype Entry = Entry(q: nat, rev: nat)

  /** `cli_binder_t`; `open` until it is freed. */
  datatype Poller = Poller(pending: seq<Entry>, open: bool)

  /** `memqueue_binder_t`.  One list stands for the two lists a binder is in, of its queue and of its poller. */
  datatype Binder = Binder(q: nat, p: nat, rev: int, includeConsumers: bool)

  /** Queues and pollers are named by their places, which are never reused. */
  datatype Server = Server(store: map<string, nat>, queues: seq<Queue>, pollers: seq<Poller>, binders: seq<Binder>)

  const EMPTY := Server(map[], [], [], [])

  // ---------- counting references ----------

  /** A message has a reference of its own while its timer runs, or for good with expiry -1. */
  function Own(m: Msg): nat {
    if m.timer || m.expiry == -1 then 1 else 0
  }

  function SumRefs(msgs: seq<Msg>): nat {
    if msgs == [] then 0 else SumRefs(msgs[..|msgs| - 1]) + msgs[|msgs| - 1].refs
  }

  ghost function AllPending(pollers: seq<Poller>): multiset<Entry> {
    if pollers == [] then multiset{}
    else AllPending(pollers[..|pollers| - 1]) + multiset(pollers[|pollers| - 1].pending)
  }

  predicate Ascending(msgs: seq<Msg>) {
    forall i, j :: 0 <= i < j < |msgs| ==> msgs[i].rev < msgs[j].rev
  }

  predicate HasRev(msgs: seq<Msg>, rev: nat) {
    exists k :: 0 <= k < |msgs| && msgs[k].rev == rev
  }

  predicate NoRepeats(s: seq<string>) {
    forall i, j :: 0 <= i < j < |s| ==> s[i] != s[j]
  }

  /** Every message is counted once for itself, and once for each pending entry. */
  ghost predicate Counted(msgs: seq<Msg>, qi: nat, pend: multiset<Entry>) {
    forall k :: 0 <= k < |msgs| ==> msgs[k].refs == Own(msgs[k]) + pend[Entry(qi, msgs[k].rev)]
  }

  /** The list is in order of revision, and the queue is counted once for its base reference, once for every
      reference to one of its messages, and once for each consumer. */
  ghost predicate QueueOk(q: Queue, qi: nat, pend: multiset<Entry>) {
    && Ascending(q.msgs) && (forall k :: 0 <= k < |q.msgs| ==> 0 < q.msgs[k].rev <= q.rev)
    && q.msgsInQueue == |q.msgs|
    && Counted(q.msgs, qi, pend)
    && (forall k :: 0 <= k < |q.msgs| ==> q.msgs[k].timer ==> q.msgs[k].expiry > 0)
    && q.refs == (if q.base then 1 else 0) + SumRefs(q.msgs) + |q.consumers|
    && NoRepeats(q.consumers)
  }

  /** Pending messages are still in the list of a live queue. */
  ghost predicate Held(queues: seq<Queue>, pend: multiset<Entry>) {
    forall e :: e in pend ==> e.q < |queues| && queues[e.q].live && HasRev(queues[e.q].msgs, e.rev)
  }

  /** The store holds exactly the live queues. */
  ghost predicate Stored(store: map<string, nat>, queues: seq<Queue>) {
    && (forall name :: name in store ==>
          store[name] < |queues| && queues[store[name]].live && queues[store[name]].name == name)
    && (forall i :: 0 <= i < |queues| && queues[i].live ==>
          queues[i].name in store && store[queues[i].name] == i)
  }

  ghost predicate QueuesOk(queues: seq<Queue>, pend: multiset<Entry>) {
    forall i :: 0 <= i < |queues| && queues[i].live ==> QueueOk(queues[i], i, pend) && queues[i].refs > 0
  }

  /** What the references say, for a given account of the pending entries. */
  ghost predicate Books(s: Server, pend: multiset<Entry>) {
    Stored(s.store, s.queues) && QueuesOk(s.queues, pend) && Held(s.queues, pend)
  }

  predicate Bound(s: Server) {
    && (forall i :: 0 <= i < |s.binders| ==>
          var b := s.binders[i];
          b.q < |s.queues| && b.p < |s.pollers| && s.pollers[b.p].open && b.rev <= s.queues[b.q].rev)
    && (forall p :: 0 <= p < |s.pollers| ==> s.pollers[p].open || s.pollers[p].pending == [])
  }

  /** The invariant of every run */
  ghost predicate Inv(s: Server) {
    Books(s, AllPending(s.pollers)) && Bound(s)
  }

  // ---------- one queue ----------

  lemma {:induction false} SumUpdate(msgs: seq<Msg>, k: nat, m: Msg)
    requires k < |msgs|
    ensures SumRefs(msgs[k := m]) == SumRefs(msgs) - msgs[k].refs + m.refs
    decreases |msgs|
  {
    var n := |msgs| - 1;
    if k == n {
      assert msgs[k := m][..n] == msgs[..n];
    } else {
      assert msgs[k := m][..n] == msgs[..n][k := m];
      SumUpdate(msgs[..n], k, m);
    }
  }

  lemma {:induction false} SumWithout(msgs: seq<Msg>, k: nat)
    requires k < |msgs|
    ensures SumRefs(Without(msgs, k)) == SumRefs(msgs) - msgs[k].refs
    decreases |msgs|
  {
    var n := |msgs| - 1;
    if k == n {
      assert Without(msgs, k) == msgs[..n];
    } else {
      var w := Without(msgs, k);
      assert w[..|w| - 1] == Without(msgs[..n], k) && w[|w| - 1] == msgs[n];
      SumWithout(msgs[..n], k);
    }
  }

  lemma {:induction false} SumAtLeast(msgs: seq<Msg>, k: nat)
    requires k < |msgs|
    ensures SumRefs(msgs) >= msgs[k].refs
    decreases |msgs|
  {
    if k < |msgs| - 1 {
      SumAtLeast(msgs[..|msgs| - 1], k);
    }
  }

  /** `memqueue_msg_retain` */
  function Retain(q: Queue, k: nat): Queue
    requires k < |q.msgs|
  {
    q.(msgs := q.msgs[k := q.msgs[k].(refs := q.msgs[k].refs + 1)], refs := q.refs + 1)
  }

  /** `memqueue_msg_release`, up to what happens when the queue's count reaches zero */
  function Release(q: Queue, k: nat): Queue
    requires k < |q.msgs| && q.msgs[k].refs > 0 && q.refs > 0 && q.msgsInQueue > 0
  {
    var m := q.msgs[k];
    if m.refs == 1 then q.(msgs := Without(q.msgs, k), msgsInQueue := q.msgsInQueue - 1, refs := q.refs - 1)
    else q.(msgs := q.msgs[k := m.(refs := m.refs - 1, isNew := false)], refs := q.refs - 1)
  }

  lemma RetainOk(q: Queue, qi: nat, k: nat, pend: multiset<Entry>)
    requires QueueOk(q, qi, pend) && k < |q.msgs|
    ensures QueueOk(Retain(q, k), qi, pend + multiset{Entry(qi, q.msgs[k].rev)})
  {
    SumUpdate(q.msgs, k, q.msgs[k].(refs := q.msgs[k].refs + 1));
  }

  /** All is in order but for one message, which has one reference too many. */
  ghost predicate Owing(q: Queue, qi: nat, k: nat, pend: multiset<Entry>)
    requires k < |q.msgs|
  {
    && q.msgs[k].refs > 0 && q.refs > 0
    && QueueOk(q.(msgs := q.msgs[k := q.msgs[k].(refs := q.msgs[k].refs - 1)], refs := q.refs - 1), qi, pend)
  }

  lemma ReleaseOk(q: Queue, qi: nat, k: nat, pend: multiset<Entry>)
    requires k < |q.msgs| && Owing(q, qi, k, pend)
    ensures q.msgsInQueue > 0 && QueueOk(Release(q, k), qi, pend)
  {
    hide QueueOk;
    var m := q.msgs[k].(refs := q.msgs[k].refs - 1);
    var q1 := q.(msgs := q.msgs[k := m], refs := q.refs - 1);
    NotEmpty(q1, qi, pend);
    if q.msgs[k].refs == 1 {
      assert Without(q.msgs, k) == Without(q1.msgs, k);
      DropOk(q1, qi, k, pend);
    } else {
      assert q.msgs[k := m.(isNew := false)] == q1.msgs[k := m.(isNew := false)];
      SeenOk(q1, qi, k, pend);
    }
  }

  lemma NotEmpty(q: Queue, qi: nat, pend: multiset<Entry>)
    requires QueueOk(q, qi, pend)
    ensures q.msgsInQueue == |q.msgs|
  {
  }

  lemma SeenOk(q: Queue, qi: nat, k: nat, pend: multiset<Entry>)
    requires QueueOk(q, qi, pend) && k < |q.msgs|
    ensures QueueOk(q.(msgs := q.msgs[k := q.msgs[k].(isNew := false)]), qi, pend)
  {
    SumUpdate(q.msgs, k, q.msgs[k].(isNew := false));
  }

  /** A message without references may go. */
  lemma DropOk(q: Queue, qi: nat, k: nat, pend: multiset<Entry>)
    requires QueueOk(q, qi, pend) && k < |q.msgs| && q.msgs[k].refs == 0
    ensures QueueOk(q.(msgs := Without(q.msgs, k), msgsInQueue := q.msgsInQueue - 1), qi, pend)
  {
    hide Ascending, Counted, Without, SumRefs;
    SumWithout(q.msgs, k);
    WithoutAt(q.msgs, k);
    DropAscends(q.msgs, k);
    DropCounted(q.msgs, qi, k, pend);
  }

  lemma WithoutAt(msgs: seq<Msg>, k: nat)
    requires k < |msgs|
    ensures |Without(msgs, k)| == |msgs| - 1
    ensures forall j :: 0 <= j < |msgs| - 1 ==> Without(msgs, k)[j] == msgs[if j < k then j else j + 1]
  {
  }

  lemma DropAscends(msgs: seq<Msg>, k: nat)
    requires Ascending(msgs) && k < |msgs|
    ensures Ascending(Without(msgs, k))
  {
    hide Without;
    WithoutAt(msgs, k);
  }

  lemma DropCounted(msgs: seq<Msg>, qi: nat, k: nat, pend: multiset<Entry>)
    requires Counted(msgs, qi, pend) && k < |msgs|
    ensures Counted(Without(msgs, k), qi, pend)
  {
    hide Without, Own;
    WithoutAt(msgs, k);
  }

  /** A pending entry that goes leaves its message owing. */
  lemma EntryOwes(q: Queue, qi: nat, k: nat, pend: multiset<Entry>)
    requires QueueOk(q, qi, pend) && k < |q.msgs| && Entry(qi, q.msgs[k].rev) in pend
    ensures Owing(q, qi, k, pend - multiset{Entry(qi, q.msgs[k].rev)})
  {
    SumUpdate(q.msgs, k, q.msgs[k].(refs := q.msgs[k].refs - 1));
    SumAtLeast(q.msgs, k);
  }

  /** So does a timer that has run out. */
  function Expired(q: Queue, k: nat): Queue
    requires k < |q.msgs|
  {
    q.(msgs := q.msgs[k := q.msgs[k].(timer := false)])
  }

  lemma TimerOwes(q: Queue, qi: nat, k: nat, pend: multiset<Entry>)
    requires QueueOk(q, qi, pend) && k < |q.msgs| && q.msgs[k].timer
    ensures Owing(Expired(q, k), qi, k, pend)
  {
    var m := q.msgs[k];
    SumUpdate(q.msgs, k, m.(timer := false, refs := m.refs - 1));
    SumAtLeast(q.msgs, k);
    assert q.msgs[k := m.(timer := false)][k := m.(timer := false, refs := m.refs - 1)] ==
      q.msgs[k := m.(timer := false, refs := m.refs - 1)];
  }

  lemma RetainedOwes(q: Queue, qi: nat, k: nat, pend: multiset<Entry>)
    requires QueueOk(q, qi, pend) && k < |q.msgs|
    ensures Owing(Retain(q, k), qi, k, pend)
  {
    assert Retain(q, k).msgs[k := q.msgs[k]] == q.msgs;
  }

  /** The message part of `memqueue_msg_create`, before the pollers are told */
  function NewMsg(q: Queue, msecs: int, data: string): Queue {
    var own := if msecs > 0 || msecs == -1 then 1 else 0;
    q.(rev := q.rev + 1, refs := q.refs + own, msgsInQueue := q.msgsInQueue + 1,
       msgs := q.msgs + [Msg(q.rev + 1, data, msecs, own, msecs > 0, true)])
  }

  lemma NewMsgOk(q: Queue, qi: nat, msecs: int, data: string, pend: multiset<Entry>)
    requires QueueOk(q, qi, pend) && Entry(qi, q.rev + 1) !in pend
    ensures QueueOk(NewMsg(q, msecs, data), qi, pend)
  {
    hide Ascending, Counted, NoRepeats, SumRefs;
    var q' := NewMsg(q, msecs, data);
    SumMore(q.msgs, q'.msgs[|q.msgs|]);
    MoreAscends(q.msgs, q.rev, q'.msgs[|q.msgs|]);
    MoreCounted(q.msgs, q'.msgs[|q.msgs|], qi, pend);
  }

  lemma SumMore(msgs: seq<Msg>, m: Msg)
    ensures SumRefs(msgs + [m]) == SumRefs(msgs) + m.refs
  {
    assert (msgs + [m])[..|msgs|] == msgs;
  }

  lemma MoreAscends(msgs: seq<Msg>, rev: nat, m: Msg)
    requires Ascending(msgs) && m.rev == rev + 1 && forall k :: 0 <= k < |msgs| ==> msgs[k].rev <= rev
    ensures Ascending(msgs + [m])
  {
  }

  lemma MoreCounted(msgs: seq<Msg>, m: Msg, qi: nat, pend: multiset<Entry>)
    requires Counted(msgs, qi, pend) && m.refs == Own(m) && Entry(qi, m.rev) !in pend
    ensures Counted(msgs + [m], qi, pend)
  {
    hide Own;
  }

  // ---------- the whole server ----------

  /** Writes a queue back; one whose count has reached zero is freed and leaves the store. */
  function Put(s: Server, qi: nat, q: Queue): Server
    requires qi < |s.queues|
  {
    if q.refs > 0 then s.(queues := s.queues[qi := q])
    else s.(queues := s.queues[qi := q.(live := false)], store := s.store - {q.name})
  }

  /** The step from a queue to `q` concerns no other queue, and no message pending elsewhere. */
  ghost predicate Fits(s: Server, qi: nat, q: Queue, pend: multiset<Entry>, pend': multiset<Entry>) {
    && qi < |s.queues| && s.queues[qi].live && q.live && q.name == s.queues[qi].name
    && QueueOk(q, qi, pend')
    && (forall e: Entry :: e.q != qi ==> pend'[e] == pend[e])
    && (forall e: Entry :: e in pend' && e.q == qi ==> HasRev(q.msgs, e.rev))
  }

  lemma NoneAtZero(q: Queue, qi: nat, pend: multiset<Entry>)
    requires QueueOk(q, qi, pend) && q.refs == 0
    requires forall e: Entry :: e in pend && e.q == qi ==> HasRev(q.msgs, e.rev)
    ensures forall e: Entry :: e in pend ==> e.q != qi
  {
    forall e: Entry | e in pend
      ensures e.q != qi
    {
      if e.q == qi {
        var k :| 0 <= k < |q.msgs| && q.msgs[k].rev == e.rev;
        assert pend[Entry(qi, q.msgs[k].rev)] > 0;
        SumAtLeast(q.msgs, k);
        assert false;
      }
    }
  }

  /** A queue leaves the store exactly when its count reaches zero, and the books stay in order. */
  lemma PutBooks(s: Server, qi: nat, q: Queue, pend: multiset<Entry>, pend': multiset<Entry>)
    requires Books(s, pend) && Fits(s, qi, q, pend, pend')
    ensures Books(Put(s, qi, q), pend')
  {
    var s' := Put(s, qi, q);
    PutQueues(s, qi, q, pend, pend');
    PutStored(s, qi, q);
    hide QueueOk, Stored;
    if q.refs == 0 {
      assert forall e: Entry :: e in pend' ==> e.q != qi by { NoneAtZero(q, qi, pend'); }
    }
    forall e: Entry | e in pend'
      ensures e.q < |s'.queues| && s'.queues[e.q].live && HasRev(s'.queues[e.q].msgs, e.rev)
    {
      if e.q != qi {
        assert pend'[e] == pend[e];
      }
    }
  }

  lemma PutQueues(s: Server, qi: nat, q: Queue, pend: multiset<Entry>, pend': multiset<Entry>)
    requires Books(s, pend) && Fits(s, qi, q, pend, pend')
    ensures QueuesOk(Put(s, qi, q).queues, pend')
  {
    var s' := Put(s, qi, q);
    forall i | 0 <= i < |s'.queues| && s'.queues[i].live
      ensures QueueOk(s'.queues[i], i, pend') && s'.queues[i].refs > 0
    {
      if i != qi {
        SameQueue(s.queues[i], i, pend, pend');
      }
    }
  }

  lemma SameQueue(q: Queue, i: nat, pend: multiset<Entry>, pend': multiset<Entry>)
    requires QueueOk(q, i, pend) && forall e: Entry :: e.q == i ==> pend'[e] == pend[e]
    ensures QueueOk(q, i, pend')
  {
  }

  lemma PutStored(s: Server, qi: nat, q: Queue)
    requires Stored(s.store, s.queues) && qi < |s.queues| && s.queues[qi].live && q.live && q.name == s.queues[qi].name
    ensures Stored(Put(s, qi, q).store, Put(s, qi, q).queues)
  {
  }

  lemma {:induction false} PendingUpdate(pollers: seq<Poller>, p: nat, x: Poller)
    requires p < |pollers|
    ensures multiset(pollers[p].pending) <= AllPending(pollers)
    ensures AllPending(pollers[p := x]) == AllPending(pollers) - multiset(pollers[p].pending) + multiset(x.pending)
    decreases |pollers|
  {
    hide AllPending;
    var n := |pollers| - 1;
    PendingLast(pollers);
    PendingLast(pollers[p := x]);
    if p == n {
      assert pollers[p := x][..n] == pollers[..n];
    } else {
      assert pollers[p := x][..n] == pollers[..n][p := x];
      PendingUpdate(pollers[..n], p, x);
    }
  }

  lemma PendingLast(pollers: seq<Poller>)
    requires pollers != []
    ensures var n := |pollers| - 1; AllPending(pollers) == AllPending(pollers[..n]) + multiset(pollers[n].pending)
  {
  }

  lemma Booked(s: Server, pend: multiset<Entry>, qi: nat)
    requires Books(s, pend) && qi < |s.queues| && s.queues[qi].live
    ensures QueueOk(s.queues[qi], qi, pend) && s.queues[qi].refs > 0
    ensures s.queues[qi].name in s.store && s.store[s.queues[qi].name] == qi
  {
    hide QueueOk;
  }
}
