/** Runs in which a consumer misses a message: one without a reference of its own, and one posted while the consumer is
    ahead of its queue. */
module QueueLoss {
  import opened Wrappers
  import opened QueueState
  import opened QueueOps
  import opened QueueSteps
  import opened QueueDelivery
  import opened QueueKeeping
  import opened QueueRuns

  // ---------- steps with few parties ----------

  lemma PostToNobody(s: Server, qi: nat, msecs: int, data: string)
    requires Inv(s) && LiveAt(s, qi) && s.binders == [] && s.queues[qi].maxSize == 0
    ensures Posted(s, qi, msecs, data) == Appended(s, qi, msecs, data)
  {
  }

  lemma PostToOne(s: Server, qi: nat, p: nat, rev: int, include_: bool, msecs: int, data: string)
    requires Inv(s) && LiveAt(s, qi) && s.binders == [Binder(qi, p, rev, include_)] && s.queues[qi].maxSize == 0
    ensures p < |s.pollers|
    ensures Posted(s, qi, msecs, data) == Enqueue(Appended(s, qi, msecs, data), p, qi, |s.queues[qi].msgs|)
  {
    AppendedBound(s, qi, msecs, data);
    var s1, k := Appended(s, qi, msecs, data), |s.queues[qi].msgs|;
    assert s1.binders[0] == Binder(qi, p, rev, include_);
    EnqueueBound(s1, p, qi, k);
    var s2 := Enqueue(s1, p, qi, k);
    assert Deliver(s2, qi, k, 1) == s2;
    assert Deliver(s1, qi, k, 0) == s2;
  }

  lemma PollForOne(s: Server, p: nat, qi: nat, arg: PollArg)
    requires Bound(s) && LiveAt(s, qi) && p < |s.pollers| && s.pollers[p].open && arg.consumer == None && !arg.latest
    requires 0 <= arg.rev <= s.queues[qi].rev && |s.queues[qi].msgs| == 1 && arg.rev < s.queues[qi].msgs[0].rev
    ensures PollOne(s, p, qi, arg) == Enqueue(Bind(s, p, qi, arg.rev, arg.includeConsumers), p, qi, 0)
  {
    hide Bound;
    BindBound(s, p, qi, arg.rev, arg.includeConsumers);
    var s2 := Bind(s, p, qi, arg.rev, arg.includeConsumers);
    EnqueueBound(s2, p, qi, 0);
    var s3 := Enqueue(s2, p, qi, 0);
    assert EnqueueMsgs(s3, p, qi, arg.rev, false, 1) == s3;
    assert EnqueueMsgs(s2, p, qi, arg.rev, false, 0) == s3;
  }

  /** A poll of one queue that holds one message above the revision asked for */
  lemma BeginForOne(s: Server, arg: PollArg)
    requires Inv(s) && arg.name in s.store && arg.consumer == None && !arg.latest
    requires LiveAt(s, s.store[arg.name]) && 0 <= arg.rev <= s.queues[s.store[arg.name]].rev
    requires |s.queues[s.store[arg.name]].msgs| == 1 && arg.rev < s.queues[s.store[arg.name]].msgs[0].rev
    ensures var qi, p := s.store[arg.name], |s.pollers|;
      PollBegin(s, [arg]) == Enqueue(Bind(NewPoller(s), p, qi, arg.rev, arg.includeConsumers), p, qi, 0)
  {
    hide Books, Bound, PollOne;
    var qi, p := s.store[arg.name], |s.pollers|;
    NewPollerInv(s);
    var s1 := NewPoller(s);
    assert [arg][0].name in s.store;
    PollOneInv(s1, p, qi, arg);
    PollForOne(s1, p, qi, arg);
    var s3 := PollOne(s1, p, qi, arg);
    hide Enqueue, Bind;
    assert PollAll(s3, p, [arg], 1) == s3;
    assert PollAll(s1, p, [arg], 0) == s3;
  }

  lemma EndOfTwo(s: Server, p: nat)
    requires Inv(s) && p < |s.pollers| && |s.pollers[p].pending| == 2 && |s.binders| == 1 && s.binders[0].p == p
    ensures var s1 := s.(binders := []);
      && CanDrop(s1, p) && CanDrop(Drop(s1, p), p) && p < |Drop(Drop(s1, p), p).pollers|
      && Finish(s, p) == Close(Drop(Drop(s1, p), p), p)
  {
    hide Inv, Drop, CanDrop;
    UnbindInv(s, p);
    var s1 := Unbind(s, p);
    assert s.binders[1..] == [] && Unbound(s.binders, p) == Unbound(s.binders[1..], p) == [];
    DropInv(s1, p);
    DropShape(s1, p);
    var s2 := Drop(s1, p);
    DropInv(s2, p);
    DropShape(s2, p);
    var s3 := Drop(s2, p);
    assert ReleasePending(s3, p) == s3;
    assert ReleasePending(s2, p) == s3;
    assert ReleasePending(s1, p) == s3;
  }

  lemma {:induction false} NothingAbove(s: Server, p: nat, qi: nat, rev: int, k: nat)
    requires Bound(s) && LiveAt(s, qi) && p < |s.pollers| && s.pollers[p].open && k <= |s.queues[qi].msgs|
    requires forall j :: 0 <= j < |s.queues[qi].msgs| ==> s.queues[qi].msgs[j].rev <= rev
    ensures EnqueueMsgs(s, p, qi, rev, false, k) == s
    decreases |s.queues[qi].msgs| - k
  {
    hide Bound;
    if k < |s.queues[qi].msgs| {
      NothingAbove(s, p, qi, rev, k + 1);
    }
  }

  /** A poll of one queue that holds nothing above the revision it is served from */
  lemma BeginForNone(s: Server, arg: PollArg)
    requires Inv(s) && arg.name in s.store && arg.consumer == None && !arg.latest && LiveAt(s, s.store[arg.name])
    requires var q := s.queues[s.store[arg.name]];
      forall j :: 0 <= j < |q.msgs| ==> q.msgs[j].rev <= FromRev(q, arg.rev)
    ensures var qi, p := s.store[arg.name], |s.pollers|;
      PollBegin(s, [arg]) == Bind(NewPoller(s), p, qi, FromRev(s.queues[qi], arg.rev), arg.includeConsumers)
  {
    hide Books, Bound, EnqueueMsgs;
    var qi, p := s.store[arg.name], |s.pollers|;
    NewPollerInv(s);
    var s1 := NewPoller(s);
    assert [arg][0].name in s.store;
    PollOneInv(s1, p, qi, arg);
    var rev := FromRev(s.queues[qi], arg.rev);
    BindBound(s1, p, qi, rev, arg.includeConsumers);
    var s2 := Bind(s1, p, qi, rev, arg.includeConsumers);
    NothingAbove(s2, p, qi, rev, 0);
    assert PollOne(s1, p, qi, arg) == s2;
    hide Bind;
    assert PollAll(s2, p, [arg], 1) == s2;
    assert PollAll(s1, p, [arg], 0) == s2;
  }

  /** The end of a poll that got nothing */
  lemma EndOfNone(s: Server, p: nat)
    requires Inv(s) && p < |s.pollers| && s.pollers[p].pending == [] && |s.binders| == 1 && s.binders[0].p == p
    ensures Finish(s, p) == Close(s.(binders := []), p)
  {
    hide Inv, Drop, CanDrop;
    UnbindInv(s, p);
    assert s.binders[1..] == [] && Unbound(s.binders, p) == Unbound(s.binders[1..], p) == [];
    var s1 := Unbind(s, p);
    assert ReleasePending(s1, p) == s1;
  }

  // ---------- the states of the runs ----------

  function Ask(name: string, rev: int): PollArg {
    PollArg(name, rev, false, None, false)
  }

  function TheQueue(name: string, rev: nat, refs: nat, msgs: seq<Msg>): Queue {
    Queue(name, true, true, false, rev, refs, 0, 0, false, |msgs|, msgs, [])
  }

  function TheServer(q: Queue, pollers: seq<Poller>, binders: seq<Binder>): Server {
    Server(map[q.name := 0], [q], pollers, binders)
  }

  function Empty(name: string): Server {
    TheServer(TheQueue(name, 0, 1, []), [], [])
  }

  function Holding(name: string, a: string): Server {
    TheServer(TheQueue(name, 1, 2, [Msg(1, a, -1, 1, false, true)]), [], [])
  }

  function Polling(name: string, a: string): Server {
    TheServer(TheQueue(name, 1, 3, [Msg(1, a, -1, 2, false, true)]), [Poller([Entry(0, 1)], true)],
              [Binder(0, 0, 0, false)])
  }

  function Sending(name: string, a: string, ms: int, b: string): Server {
    TheServer(TheQueue(name, 2, 4, [Msg(1, a, -1, 2, false, true), Msg(2, b, ms, 1, false, true)]),
              [Poller([Entry(0, 1), Entry(0, 2)], true)], [Binder(0, 0, 0, false)])
  }

  function Lost(name: string, a: string): Server {
    TheServer(TheQueue(name, 2, 2, [Msg(1, a, -1, 1, false, false)]), [Poller([], false)], [])
  }

  function AskedAgain(name: string, a: string): Server {
    TheServer(TheQueue(name, 2, 2, [Msg(1, a, -1, 1, false, false)]), [Poller([], false), Poller([], true)],
              [Binder(0, 1, 1, false)])
  }

  lemma ToEmptyIs(name: string)
    requires Inv(EMPTY)
    ensures Apply(EMPTY, Create(name, 0, 0, 0, false)) == Empty(name)
  {
    hide Inv;
  }

  lemma ToEmpty(name: string)
    ensures Next(EMPTY, Create(name, 0, 0, 0, false), Empty(name))
  {
    hide Inv, Apply;
    if Inv(EMPTY) {
      ToEmptyIs(name);
    }
  }

  lemma ToHoldingIs(name: string, a: string)
    requires Inv(Empty(name))
    ensures Apply(Empty(name), Post(name, -1, a)) == Holding(name, a)
  {
    hide Inv, Posted;
    var s := Empty(name);
    PostToNobody(s, 0, -1, a);
    var m := Msg(1, a, -1, 1, false, true);
    assert [] + [m] == [m];
    assert NewMsg(s.queues[0], -1, a) == TheQueue(name, 1, 2, [m]);
    assert Appended(s, 0, -1, a).queues == [TheQueue(name, 1, 2, [m])];
  }

  lemma ToHolding(name: string, a: string)
    ensures Next(Empty(name), Post(name, -1, a), Holding(name, a))
  {
    hide Inv, Apply;
    if Inv(Empty(name)) {
      ToHoldingIs(name, a);
    }
  }

  lemma ToPollingIs(name: string, a: string)
    requires Inv(Holding(name, a))
    ensures Apply(Holding(name, a), Begin([Ask(name, 0)])) == Polling(name, a)
  {
    hide Inv, PollBegin;
    var s := Holding(name, a);
    BeginForOne(s, Ask(name, 0));
    var m := Msg(1, a, -1, 1, false, true);
    assert [m][0 := m.(refs := 2)] == [m.(refs := 2)];
    assert Retain(s.queues[0], 0) == TheQueue(name, 1, 3, [m.(refs := 2)]);
    var s0 := Bind(NewPoller(s), 0, 0, 0, false);
    assert s0.queues == s.queues && s0.pollers == [Poller([], true)];
    assert [] + [Entry(0, 1)] == [Entry(0, 1)];
    var s1 := Enqueue(s0, 0, 0, 0);
    assert s1.queues == s.queues[0 := Retain(s.queues[0], 0)];
    assert s1.queues == [TheQueue(name, 1, 3, [m.(refs := 2)])];
    assert s1.pollers == [Poller([Entry(0, 1)], true)];
    assert s1.binders == [Binder(0, 0, 0, false)];
  }

  lemma ToPolling(name: string, a: string)
    ensures Next(Holding(name, a), Begin([Ask(name, 0)]), Polling(name, a))
  {
    hide Inv, Apply;
    if Inv(Holding(name, a)) {
      ToPollingIs(name, a);
    }
  }

  lemma ToSendingIs(name: string, a: string, ms: int, b: string)
    requires Inv(Polling(name, a)) && !HasOwn(ms)
    ensures Apply(Polling(name, a), Post(name, ms, b)) == Sending(name, a, ms, b)
  {
    hide Inv, Posted;
    var s := Polling(name, a);
    PostToOne(s, 0, 0, 0, false, ms, b);
    var ma, mb := Msg(1, a, -1, 2, false, true), Msg(2, b, ms, 0, false, true);
    assert NewMsg(s.queues[0], ms, b) == TheQueue(name, 2, 3, [ma, mb]);
    var s1 := Appended(s, 0, ms, b);
    assert s1.queues == [TheQueue(name, 2, 3, [ma, mb])];
    assert [ma, mb][1 := mb.(refs := 1)] == [ma, mb.(refs := 1)];
    assert Retain(s1.queues[0], 1) == TheQueue(name, 2, 4, [ma, mb.(refs := 1)]);
    var s2 := Enqueue(s1, 0, 0, 1);
    assert s2.queues == s1.queues[0 := Retain(s1.queues[0], 1)];
    assert [Entry(0, 1)] + [Entry(0, 2)] == [Entry(0, 1), Entry(0, 2)];
    assert s2.pollers == s1.pollers[0 := Poller([Entry(0, 1), Entry(0, 2)], true)];
  }

  lemma ToSending(name: string, a: string, ms: int, b: string)
    requires !HasOwn(ms)
    ensures Next(Polling(name, a), Post(name, ms, b), Sending(name, a, ms, b))
  {
    hide Inv, Apply;
    if Inv(Polling(name, a)) {
      ToSendingIs(name, a, ms, b);
    }
  }

  lemma ToLostIs(name: string, a: string, ms: int, b: string)
    requires Inv(Sending(name, a, ms, b)) && !HasOwn(ms)
    ensures Apply(Sending(name, a, ms, b), End(0)) == Lost(name, a)
  {
    hide Inv, Finish, IndexOf;
    var ma, mb := Msg(1, a, -1, 2, false, true), Msg(2, b, ms, 1, false, true);
    var s := Sending(name, a, ms, b);
    EndOfTwo(s, 0);
    var s1 := s.(binders := []);
    DropFirst(s1, 0, 0);
    var s2 := Drop(s1, 0);
    var ma' := ma.(refs := 1, isNew := false);
    assert [ma, mb][0 := ma'] == [ma', mb];
    assert Release(s1.queues[0], 0) == TheQueue(name, 2, 3, [ma', mb]);
    assert s2.queues == [TheQueue(name, 2, 3, [ma', mb])];
    assert s2.pollers == [Poller([Entry(0, 2)], true)];
    DropFirst(s2, 0, 1);
    assert Without([ma', mb], 1) == [ma'];
    assert Release(s2.queues[0], 1) == TheQueue(name, 2, 2, [ma']);
    assert [Entry(0, 2)][1..] == [];
    var s3 := Drop(s2, 0);
    assert s3.queues == [TheQueue(name, 2, 2, [ma'])] && s3.pollers == [Poller([], true)];
    assert Close(s3, 0).pollers == [Poller([], false)];
  }

  lemma ToLost(name: string, a: string, ms: int, b: string)
    requires !HasOwn(ms)
    ensures Next(Sending(name, a, ms, b), End(0), Lost(name, a))
  {
    hide Inv, Apply;
    if Inv(Sending(name, a, ms, b)) {
      ToLostIs(name, a, ms, b);
    }
  }

  /** Where the message stands is found by its revision. */
  lemma DropFirst(s: Server, p: nat, k: nat)
    requires CanDrop(s, p)
    requires var e := s.pollers[p].pending[0]; k < |s.queues[e.q].msgs| && s.queues[e.q].msgs[k].rev == e.rev
    requires Ascending(s.queues[s.pollers[p].pending[0].q].msgs)
    ensures IndexOf(s.queues[s.pollers[p].pending[0].q].msgs, s.pollers[p].pending[0].rev) == k
  {
  }

  lemma ToAskedAgainIs(name: string, a: string)
    requires Inv(Lost(name, a))
    ensures Apply(Lost(name, a), Begin([Ask(name, 1)])) == AskedAgain(name, a)
  {
    hide Inv, PollBegin;
    var s := Lost(name, a);
    BeginForNone(s, Ask(name, 1));
    var s1 := Bind(NewPoller(s), 1, 0, 1, false);
    assert s1.pollers == [Poller([], false), Poller([], true)] && s1.binders == [Binder(0, 1, 1, false)];
  }

  lemma ToAskedAgain(name: string, a: string)
    ensures Next(Lost(name, a), Begin([Ask(name, 1)]), AskedAgain(name, a))
  {
    hide Inv, Apply;
    if Inv(Lost(name, a)) {
      ToAskedAgainIs(name, a);
    }
  }

  // ---------- a message without a reference of its own ----------

  /** A message posted with this expiry has a reference of its own. */
  predicate HasOwn(ms: int) {
    ms > 0 || ms == -1
  }

  function Lossy(name: string, a: string, ms: int, b: string): seq<Step> {
    [Create(name, 0, 0, 0, false), Post(name, -1, a), Begin([Ask(name, 0)]), Post(name, ms, b), End(0),
     Begin([Ask(name, 1)])]
  }

  /** There is a run, whatever the texts, in which `b`, posted with the expiry `ms` while the response with `a` is sent,
      goes when that poll ends: it is in neither response, and not in the queue. */
  lemma LostWhileSending(name: string, a: string, ms: int, b: string) returns (trace: seq<Server>)
    requires !HasOwn(ms)
    ensures IsRun(trace, Lossy(name, a, ms, b))
    ensures trace == [EMPTY, Empty(name), Holding(name, a), Polling(name, a), Sending(name, a, ms, b), Lost(name, a),
                      AskedAgain(name, a)]
  {
    hide Next;
    trace := [EMPTY, Empty(name), Holding(name, a), Polling(name, a), Sending(name, a, ms, b), Lost(name, a),
              AskedAgain(name, a)];
    ToEmpty(name);
    ToHolding(name, a);
    ToPolling(name, a);
    ToSending(name, a, ms, b);
    ToLost(name, a, ms, b);
    ToAskedAgain(name, a);
  }

  // ---------- a consumer ahead of its queue ----------

  function Ahead(name: string): Server {
    TheServer(TheQueue(name, 0, 1, []), [Poller([], true)], [Binder(0, 0, -1, false)])
  }

  function ToldNothing(name: string): Server {
    TheServer(TheQueue(name, 0, 1, []), [Poller([], false)], [])
  }

  function Behind(name: string, ms: int, a: string): Server {
    TheServer(TheQueue(name, 1, 2, [Msg(1, a, ms, 1, ms > 0, true)]), [Poller([], false)], [])
  }

  function Overtaken(name: string, ms: int, a: string): Server {
    TheServer(TheQueue(name, 1, 2, [Msg(1, a, ms, 1, ms > 0, true)]), [Poller([], false), Poller([], true)],
              [Binder(0, 1, 1, false)])
  }

  lemma ToAheadIs(name: string)
    requires Inv(Empty(name))
    ensures Apply(Empty(name), Begin([Ask(name, 1)])) == Ahead(name)
  {
    hide Inv, PollBegin;
    var s := Empty(name);
    BeginForNone(s, Ask(name, 1));
    var s1 := Bind(NewPoller(s), 0, 0, -1, false);
    assert s1.pollers == [Poller([], true)] && s1.binders == [Binder(0, 0, -1, false)];
  }

  lemma ToToldNothingIs(name: string)
    requires Inv(Ahead(name))
    ensures Apply(Ahead(name), End(0)) == ToldNothing(name)
  {
    hide Inv, Finish;
    EndOfNone(Ahead(name), 0);
    assert [Poller([], true)][0 := Poller([], false)] == [Poller([], false)];
  }

  lemma ToBehindIs(name: string, ms: int, a: string)
    requires Inv(ToldNothing(name)) && HasOwn(ms)
    ensures Apply(ToldNothing(name), Post(name, ms, a)) == Behind(name, ms, a)
  {
    hide Inv, Posted;
    var s := ToldNothing(name);
    PostToNobody(s, 0, ms, a);
    var m := Msg(1, a, ms, 1, ms > 0, true);
    assert [] + [m] == [m];
    assert NewMsg(s.queues[0], ms, a) == TheQueue(name, 1, 2, [m]);
    assert Appended(s, 0, ms, a).queues == [TheQueue(name, 1, 2, [m])];
  }

  lemma ToOvertakenIs(name: string, ms: int, a: string)
    requires Inv(Behind(name, ms, a))
    ensures Apply(Behind(name, ms, a), Begin([Ask(name, 1)])) == Overtaken(name, ms, a)
  {
    hide Inv, PollBegin;
    var s := Behind(name, ms, a);
    BeginForNone(s, Ask(name, 1));
    var s1 := Bind(NewPoller(s), 1, 0, 1, false);
    assert s1.pollers == [Poller([], false), Poller([], true)] && s1.binders == [Binder(0, 1, 1, false)];
  }

  lemma ToAhead(name: string)
    ensures Next(Empty(name), Begin([Ask(name, 1)]), Ahead(name))
  {
    hide Inv, Apply;
    if Inv(Empty(name)) {
      ToAheadIs(name);
    }
  }

  lemma ToToldNothing(name: string)
    ensures Next(Ahead(name), End(0), ToldNothing(name))
  {
    hide Inv, Apply;
    if Inv(Ahead(name)) {
      ToToldNothingIs(name);
    }
  }

  lemma ToBehind(name: string, ms: int, a: string)
    requires HasOwn(ms)
    ensures Next(ToldNothing(name), Post(name, ms, a), Behind(name, ms, a))
  {
    hide Inv, Apply;
    if Inv(ToldNothing(name)) {
      ToBehindIs(name, ms, a);
    }
  }

  lemma ToOvertaken(name: string, ms: int, a: string)
    ensures Next(Behind(name, ms, a), Begin([Ask(name, 1)]), Overtaken(name, ms, a))
  {
    hide Inv, Apply;
    if Inv(Behind(name, ms, a)) {
      ToOvertakenIs(name, ms, a);
    }
  }

  function Overtaking(name: string, ms: int, a: string): seq<Step> {
    [Create(name, 0, 0, 0, false), Begin([Ask(name, 1)]), End(0), Post(name, ms, a), Begin([Ask(name, 1)])]
  }

  /** There is a run, whatever the text, in which a consumer that is told nothing asks again for a revision the queue
      has reached in the meantime, and so does not get the message of that revision, which is still there. */
  lemma OvertakenWhileAhead(name: string, ms: int, a: string) returns (trace: seq<Server>)
    requires HasOwn(ms)
    ensures IsRun(trace, Overtaking(name, ms, a))
    ensures trace == [EMPTY, Empty(name), Ahead(name), ToldNothing(name), Behind(name, ms, a), Overtaken(name, ms, a)]
  {
    hide Next;
    trace := [EMPTY, Empty(name), Ahead(name), ToldNothing(name), Behind(name, ms, a), Overtaken(name, ms, a)];
    ToEmpty(name);
    ToAhead(name);
    ToToldNothing(name);
    ToBehind(name, ms, a);
    ToOvertaken(name, ms, a);
  }

  // ---------- a queue that is deleted twice ----------

  function Deleted(name: string, a: string): Server {
    var q := TheQueue(name, 1, 1, [Msg(1, a, -1, 1, false, true)]);
    TheServer(q.(base := false), [], [])
  }

  lemma ToDeleted(name: string, a: string)
    ensures Next(Holding(name, a), Delete(name), Deleted(name, a))
  {
    hide Inv;
  }

  /** There is a run, whatever the text, after which a second delete of the same queue takes it from the store while a
      message is in it that has a reference of its own. */
  lemma DeletedTwice(name: string, a: string) returns (trace: seq<Server>)
    ensures IsRun(trace, [Create(name, 0, 0, 0, false), Post(name, -1, a), Delete(name)])
    ensures var s := trace[3];
      && s.store == map[name := 0] && |s.queues| == 1 && s.queues[0].refs > 0 && Owned(s.queues[0].msgs, 1, -1)
      && name !in DropBase(s, 0).store && Owned(DropBase(s, 0).queues[0].msgs, 1, -1)
  {
    hide Next;
    trace := [EMPTY, Empty(name), Holding(name, a), Deleted(name, a)];
    ToEmpty(name);
    ToHolding(name, a);
    ToDeleted(name, a);
    assert trace[3].queues[0].msgs[0].rev == 1;
    assert DropBase(trace[3], 0).queues[0].msgs == trace[3].queues[0].msgs;
  }
}
