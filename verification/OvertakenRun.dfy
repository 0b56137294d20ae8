/** Runs that go wrong: exact numbers, FIFO order and localized causal order hold in every
    run exactly if the process delivered from depends on itself, or the cap of the tables
    keeps its second message from ever being delivered. */
module OvertakenRun {
  import opened Messages
  import opened CausalDelivery
  import opened SequenceNumbers
  import opened Protocol
  import opened Genuine
  import opened Links
  import opened UrbFacts
  import opened Logs
  import opened Runs
  import opened Agreement
  import opened CausalOrder
  import opened TableEdge
  import opened Continuations

  // ----- What fits under the cap -----

  /** Process r can record its own ack for id. */
  predicate Fits(c: Config, id: MsgId, r: Pid) {
    SlotNum(c.n, Slot(id, r)) <= 8192
  }

  /** There is somebody else to deliver q's second message, q can broadcast it and a strict
      majority can record it: the middle process can, and with it all before it. */
  predicate SecondSpreads(c: Config, q: Pid) {
    2 <= c.n && Fits(c, MsgId(q, 2), q) && Fits(c, MsgId(q, 2), c.n / 2)
  }

  /** q and the first processes that make a majority. */
  function Reach(c: Config, q: Pid): nat {
    (if q < c.n / 2 then c.n / 2 else q) + 1
  }

  /** Then the first Reach(c, q) processes can record it, and everybody everybody's first. */
  lemma WhatFits(c: Config, q: Pid)
    requires SecondSpreads(c, q) && q < c.n
    ensures c.n / 2 < Reach(c, q) <= c.n && q < Reach(c, q)
    ensures forall r: Pid | r < Reach(c, q) :: Fits(c, MsgId(q, 2), r)
    ensures forall p: Pid, r: Pid | p < c.n && r < c.n :: Fits(c, MsgId(p, 1), r)
  {
    forall p: Pid, r: Pid | p < c.n && r < c.n ensures Fits(c, MsgId(p, 1), r) {
      MulLe(c.n, p + 1, c.n + q);
      assert c.n * (p + 1) == c.n * p + c.n;
    }
  }

  /** The numbers grow with the sequence number and the process. */
  lemma LaterIsLarger(n: nat, q: Pid, k: nat, r: Pid, t: Pid)
    requires 2 <= k && r <= t
    ensures SlotNum(n, Slot(MsgId(q, 2), r)) <= SlotNum(n, Slot(MsgId(q, k), t))
  {
    MulLe(n, 1, k - 1);
    MulLe(n, SeenNum(n, MsgId(q, 2)), SeenNum(n, MsgId(q, k)));
  }

  /** It spreads for every process of up to 64 and for none of more than 90. */
  lemma SpreadRange(c: Config, q: Pid)
    requires ValidConfig(c) && q < c.n
    ensures 2 <= c.n <= 64 ==> SecondSpreads(c, q)
    ensures c.n > 90 ==> !SecondSpreads(c, q)
  {
    var n := c.n;
    if 2 <= n <= 64 {
      MulLe(n, n + q, 2 * 64 - 1);
    } else if n > 90 {
      MulLe(n, 91, n + q);
    }
  }

  lemma EarlyRow(c: Config, id: MsgId)
    requires ValidConfig(c) && ValidId(c.n, id) && id.seqNum <= 2
    ensures !LastRow(c, id)
  {
    MulLe(c.n, id.seqNum - 1, 1);
    forall k: nat ensures SeenNum(c.n, id) + 1 != Rows(c.n, k) {
      RowsPositive(c.n, k);
    }
  }

  // ----- Calm states -----

  /** Nobody crashed, nobody was acked, no sender is busy. */
  ghost predicate Calm(c: Config, s: State) {
    && ValidConfig(c) && 2 <= c.n && Reachable(c, s) && |s.procs| == c.n
    && forall q | 0 <= q < c.n ::
         var p := s.procs[q]; !p.crashed && p.plAcks == {} && p.held == map[] && p.sent <= 2
  }

  lemma CalmIds(c: Config, s: State, id: MsgId)
    requires Calm(c, s) && IsBroadcast(s, id)
    ensures ValidId(c.n, id) && id.seqNum <= 2 && MessageOf(s, id).Id() == id
    ensures MessageOf(s, id) in s.broadcasts
  {
    ReachableInv(c, s);
    MessageNamesItself(c, s, id);
    assert ShapeOf(c, s, id.origin, s.procs[id.origin]);
  }

  lemma StartCalm(c: Config)
    requires ValidConfig(c) && 2 <= c.n
    ensures Calm(c, Protocol.Init(c))
  {
    InitReachable(c);
  }

  // ----- Sending -----

  lemma {:induction false} NothingAcked(q: seq<Task>)
    ensures Unacked(q, {}) == q
  {
    if q != [] {
      NothingAcked(q[..|q| - 1]);
      assert q == q[..|q| - 1] + [q[|q| - 1]];
    }
  }

  lemma WholeSwept(q: seq<Task>)
    ensures Swept(q, {}, |q|) == q && Unacked(q[..|q|], {}) == q
  {
    assert q[..|q|] == q;
    NothingAcked(q);
  }

  /** What x has seen it can send to anybody, changing nothing else. */
  lemma Send(c: Config, s: State, x: Pid, id: MsgId, e: Pid) returns (s': State)
    requires Calm(c, s) && x < c.n && e < c.n && e != x && id in s.procs[x].seen
    ensures Calm(c, s') && s'.procs == s.procs && s'.broadcasts == s.broadcasts && s.net <= s'.net
    ensures IsBroadcast(s, id) && (e, TheData(s, x, id, e)) in s'.net
  {
    OwedIsQueued(c, s, x, id, e);
    var q := s.procs[x].queue;
    LeadsNowhere(c, s);
    s' := Sweep(c, s, s, x, q, |q|);
    WholeSwept(q);
    assert s'.procs == s.procs;
  }

  // ----- Hearing -----

  /** p' is p having heard more of message id and of nothing else. */
  ghost predicate Learnt(p: Proc, p': Proc, id: MsgId) {
    && p.seen <= p'.seen <= p.seen + {id} && p.urbAcks <= p'.urbAcks
    && (forall x | x in p'.urbAcks && x !in p.urbAcks :: x.id == id)
    && p.lcb.log <= p'.lcb.log && p'.sent == p.sent && p.urbDelivered <= p'.urbDelivered
  }

  ghost predicate AllLearnt(s: State, s': State, id: MsgId) {
    && |s'.procs| == |s.procs| && s'.broadcasts == s.broadcasts
    && forall d | 0 <= d < |s.procs| :: Learnt(s.procs[d], s'.procs[d], id)
  }

  lemma HandledLearns(c: Config, p: Proc, x: Pid, m: UrbMsg)
    requires ValidConfig(c) && Shaped(c.deps, p.lcb) && m.lcb.origin < |c.deps| && x < c.n
    requires ValidId(c.n, m.seenId) && m.mid.id == m.seenId && m.mid.pid < c.n
    requires Fits(c, m.seenId, x) && Fits(c, m.seenId, m.mid.pid)
    ensures var o := DeliverUrb(c, p, x, m);
      && o.Continues? && Learnt(p, o.proc, m.seenId) && m.seenId in o.proc.seen && m.mid in o.proc.urbAcks
      && o.proc.plAcks == p.plAcks && o.proc.held == p.held && o.proc.crashed == p.crashed
  {
    NumbersNotNegative(c.n, Slot(m.seenId, x));
    assert SlotNum(c.n, m.mid) == SlotNum(c.n, Slot(m.seenId, m.mid.pid));
    DeliverUrbAcks(c, p, x, m);
    DeliverUrbLink(c, p, x, m);
    DeliverUrbLog(c, p, x, m);
  }

  lemma Recv(c: Config, s: State, x: Pid, id: MsgId, from: Pid) returns (s': State)
    requires Calm(c, s) && x < c.n && from < c.n && IsBroadcast(s, id) && Fits(c, id, x) && Fits(c, id, from)
    requires (x, TheData(s, from, id, x)) in s.net
    ensures Calm(c, s') && AllLearnt(s, s', id) && forall d | 0 <= d < c.n && d != x :: s'.procs[d] == s.procs[d]
    ensures id in s'.procs[x].seen && Slot(id, from) in s'.procs[x].urbAcks
  {
    var m, p := TheData(s, from, id, x), s.procs[x];
    PacketsCanBeHandled(c, s, x, m);
    NextReachable(c, s, ReceiveStep(x, m));
    s' := Apply(c, s, ReceiveStep(x, m));
    CalmIds(c, s, id);
    if m.mid in p.plDelivered {
      assert PassedOnce(p) by { ReachableInv(c, s); }
    } else {
      HandledLearns(c, p.(plDelivered := p.plDelivered + {m.mid}, passed := p.passed + [m.mid]), x, m.urb);
    }
  }

  /** x hears of a message from somebody who has seen it. */
  lemma Hear(c: Config, s: State, x: Pid, id: MsgId, from: Pid) returns (s': State)
    requires Calm(c, s) && x < c.n && from < c.n && from != x && id in s.procs[from].seen && Fits(c, id, x)
    ensures Calm(c, s') && AllLearnt(s, s', id) && forall d | 0 <= d < c.n && d != x :: s'.procs[d] == s.procs[d]
    ensures id in s'.procs[x].seen && Slot(id, from) in s'.procs[x].urbAcks
  {
    SeenWithinCap(c, s, from, id);
    var s1 := Send(c, s, from, id, x);
    s' := Recv(c, s1, x, id, from);
  }

  lemma LearntTwice(s: State, s1: State, s2: State, id: MsgId)
    requires AllLearnt(s, s1, id) && AllLearnt(s1, s2, id)
    ensures AllLearnt(s, s2, id)
  {
    forall d | 0 <= d < |s.procs| ensures Learnt(s.procs[d], s2.procs[d], id) {
      assert Learnt(s.procs[d], s1.procs[d], id) && Learnt(s1.procs[d], s2.procs[d], id);
    }
  }

  /** x holds the acks of the first k processes for id, but for its own. */
  ghost predicate HasFirst(p: Proc, x: Pid, id: MsgId, k: nat) {
    forall d | 0 <= d < k && d != x :: Slot(id, d) in p.urbAcks
  }

  lemma HearOneMore(c: Config, s: State, s1: State, x: Pid, id: MsgId, from: Pid) returns (s': State)
    requires Calm(c, s1) && x < c.n && from < c.n && from != x && |s.procs| == c.n && id in s.procs[from].seen
    requires Fits(c, id, x)
    requires AllLearnt(s, s1, id) && forall d | 0 <= d < c.n && d != x :: s1.procs[d] == s.procs[d]
    ensures Calm(c, s') && AllLearnt(s, s', id) && forall d | 0 <= d < c.n && d != x :: s'.procs[d] == s.procs[d]
    ensures s1.procs[x].urbAcks + {Slot(id, from)} <= s'.procs[x].urbAcks
    ensures HasFirst(s1.procs[x], x, id, from) ==> HasFirst(s'.procs[x], x, id, from + 1)
  {
    s' := Hear(c, s1, x, id, from);
    LearntTwice(s, s1, s', id);
    assert Learnt(s1.procs[x], s'.procs[x], id);
  }

  ghost predicate SeenByFirst(s: State, id: MsgId, k: nat) {
    k <= |s.procs| && forall d | 0 <= d < k :: id in s.procs[d].seen
  }

  /** x hears from the first k processes, which have all seen the message. */
  lemma {:induction false} HearFrom(c: Config, s: State, x: Pid, id: MsgId, k: nat) returns (s': State)
    requires Calm(c, s) && x < c.n && SeenByFirst(s, id, k) && Fits(c, id, x)
    ensures Calm(c, s') && AllLearnt(s, s', id) && forall d | 0 <= d < c.n && d != x :: s'.procs[d] == s.procs[d]
    ensures HasFirst(s'.procs[x], x, id, k)
  {
    if k == 0 {
      s' := s;
    } else {
      var s1 := HearFrom(c, s, x, id, k - 1);
      if k - 1 == x {
        s' := s1;
      } else {
        s' := HearOneMore(c, s, s1, x, id, k - 1);
      }
    }
  }

  /** The first k processes hear of a message from process q, which does not change. */
  lemma {:induction false} Spread(c: Config, s: State, q: Pid, id: MsgId, k: nat) returns (s': State)
    requires Calm(c, s) && q < c.n && k <= c.n && id in s.procs[q].seen && forall r: Pid | r < k :: Fits(c, id, r)
    ensures Calm(c, s') && AllLearnt(s, s', id) && s'.procs[q] == s.procs[q] && SeenByFirst(s', id, k)
  {
    if k == 0 {
      s' := s;
    } else {
      var s1 := Spread(c, s, q, id, k - 1);
      if k - 1 == q {
        s' := s1;
      } else {
        s' := Hear(c, s1, k - 1, id, q);
        LearntTwice(s, s1, s', id);
      }
    }
  }

  /** x hears from a majority, and so delivers the message. */
  lemma HearMost(c: Config, s: State, x: Pid, id: MsgId, k: nat) returns (s': State)
    requires Calm(c, s) && x < c.n && id in s.procs[x].seen && c.n / 2 < k && SeenByFirst(s, id, k)
    ensures Calm(c, s') && AllLearnt(s, s', id) && forall d | 0 <= d < c.n && d != x :: s'.procs[d] == s.procs[d]
    ensures id in s'.procs[x].urbDelivered
  {
    SeenWithinCap(c, s, x, id);
    s' := HearFrom(c, s, x, id, k);
    assert Learnt(s.procs[x], s'.procs[x], id);
    MostAcked(c, s', x, id, k);
  }

  lemma MostAcked(c: Config, s: State, x: Pid, id: MsgId, k: nat)
    requires Calm(c, s) && x < c.n && id in s.procs[x].seen && c.n / 2 < k <= c.n
    requires HasFirst(s.procs[x], x, id, k)
    ensures id in s.procs[x].urbDelivered
  {
    ReachableInv(c, s);
    var p := s.procs[x];
    assert Hands(s, x, p) && Quorums(c, p);
    CalmIds(c, s, id);
    EarlyRow(c, id);
    SubsetSize(Everyone(k), Ackers(c.n, p.urbAcks, id));
    assert Majority(c, p.urbAcks, id);
  }

  // ----- Broadcasting -----

  lemma Broadcast(c: Config, s: State, x: Pid) returns (s': State)
    requires Calm(c, s) && x < c.n && s.procs[x].sent <= 1 && Fits(c, MsgId(x, s.procs[x].sent + 1), x)
    ensures Calm(c, s') && s.net <= s'.net && forall d | 0 <= d < c.n && d != x :: s'.procs[d] == s.procs[d]
    ensures var p, p', i := s.procs[x], s'.procs[x], s.procs[x].sent + 1;
      && s'.broadcasts == s.broadcasts + [Attached(p.lcb, x, i)]
      && p'.seen == p.seen + {MsgId(x, i)} && p'.urbAcks == p.urbAcks + {Slot(MsgId(x, i), x)}
      && p'.lcb == LogBroadcast(p.lcb, i) && p'.sent == i
  {
    SendLcbGoesOn(c, s.procs[x], x);
    NextReachable(c, s, BroadcastStep(x));
    s' := Apply(c, s, BroadcastStep(x));
  }

  // ----- What was delivered -----

  /** A delivered message that nothing blocks is in the log. */
  lemma InLog(c: Config, s: State, x: Pid, m: LcbMsg) returns (e: nat)
    requires Calm(c, s) && x < c.n && m in s.broadcasts && m.origin < c.n
    requires m.Id() in s.procs[x].urbDelivered && IsBroadcast(s, m.Id()) && MessageOf(s, m.Id()) == m
    requires Ready(c.deps, s.procs[x].lcb.clock, m)
    ensures e < |s.procs[x].lcb.log| && s.procs[x].lcb.log[e].Delivers?
    ensures s.procs[x].lcb.log[e].msg == m && s.procs[x].lcb.log[e].pid == m.origin
  {
    var p := s.procs[x];
    assert Arrivals(s, p) && CausalState(c, p) && Drained(c, p) by { ReachableInv(c, s); }
    ReadyIsDelivered(c.deps, p.lcb, p.arrived, m);
    assert p.lcb.log[..|p.lcb.log|] == p.lcb.log;
    e := LineOfClock(p.lcb.log, |p.lcb.log|, m.origin, m.clock);
    assert Justified(c.deps, p.lcb.log, e);
  }

  /** What is in the log was delivered. */
  lemma LoggedIsDelivered(c: Config, s: State, x: Pid, e: nat)
    requires ValidConfig(c) && Reachable(c, s) && x < |s.procs|
    requires e < |s.procs[x].lcb.log| && s.procs[x].lcb.log[e].Delivers?
    ensures var l := s.procs[x].lcb.log[e]; l.msg.Id() in s.procs[x].urbDelivered && l.pid == l.msg.origin
  {
    var p := s.procs[x];
    assert Arrivals(s, p) && CausalState(c, p) by { ReachableInv(c, s); }
    assert Justified(c.deps, p.lcb.log, e);
    DeliveredArrived(c.deps, p.lcb, p.arrived, e);
  }

  /** A process counts no more deliveries from y than there are numbers its delivered
      messages of y have. */
  lemma CountsDelivered(c: Config, s: State, x: Pid, y: Pid, owns: set<nat>)
    requires ValidConfig(c) && Reachable(c, s) && x < |s.procs| && y < c.n
    requires forall id | id in s.procs[x].urbDelivered && id.origin == y && id.seqNum > 0 :: id.seqNum - 1 in owns
    ensures |s.procs[x].lcb.clock| == c.n && s.procs[x].lcb.clock[y] == Count(s.procs[x].lcb.log, y) <= |owns|
  {
    var p := s.procs[x];
    assert Arrivals(s, p) && CausalState(c, p) && GenuineInv(c, s) by { ReachableInv(c, s); }
    CountWithinBroadcast(c, s, p, y);
    FromDistinct(p.arrived, y);
    forall v | v in From(p.arrived, y) ensures At(v, y) in owns {
      FromMember(p.arrived, LcbMsg(y, v));
      assert LcbMsg(y, v).Id() in p.urbDelivered;
    }
    OwnEntriesFit(From(p.arrived, y), y, owns);
  }

  /** A process that has seen one message counts at most one delivery. */
  lemma SeenOneCountsOne(c: Config, s: State, x: Pid, id: MsgId, y: Pid)
    requires Calm(c, s) && x < c.n && s.procs[x].seen == {id} && y < c.n && IsBroadcast(s, id)
    ensures |s.procs[x].lcb.clock| == c.n && s.procs[x].lcb.clock[y] <= if y == id.origin then 1 else 0
  {
    assert Quorums(c, s.procs[x]) by { ReachableInv(c, s); }
    CountsDelivered(c, s, x, y, if y == id.origin then {id.seqNum - 1} else {});
  }

  /** Without acks from others there is no majority. */
  lemma OwnAckOnly(c: Config, s: State, x: Pid, id: MsgId)
    requires Calm(c, s) && x < c.n && forall y | y in s.procs[x].urbAcks && y.id == id :: y.pid == x
    ensures id !in s.procs[x].urbDelivered
  {
    assert Quorums(c, s.procs[x]) by { ReachableInv(c, s); }
    SubsetSize(Ackers(c.n, s.procs[x].urbAcks, id), {x});
  }

  // ----- The run -----

  /** q's two messages. */
  function First(n: nat, q: Pid): LcbMsg {
    Attached(CausalDelivery.Init(n), q, 1)
  }

  function Second(n: nat, q: Pid): LcbMsg {
    Attached(CausalDelivery.Init(n), q, 2)
  }

  /** The only acks x holds for id are its own. */
  ghost predicate OnlyOwn(p: Proc, x: Pid, id: MsgId) {
    forall y | y in p.urbAcks && y.id == id :: y.pid == x
  }

  /** q has broadcast twice and nothing has been received. */
  lemma TwoBroadcasts(c: Config, q: Pid) returns (s: State)
    requires ValidConfig(c) && q < c.n && SecondSpreads(c, q)
    ensures Calm(c, s) && s.broadcasts == [First(c.n, q), Second(c.n, q)]
    ensures s.procs[q].seen == {MsgId(q, 1), MsgId(q, 2)}
    ensures OnlyOwn(s.procs[q], q, MsgId(q, 1)) && OnlyOwn(s.procs[q], q, MsgId(q, 2))
    ensures forall d | 0 <= d < c.n && d != q :: s.procs[d] == InitProc(c)
  {
    StartCalm(c);
    WhatFits(c, q);
    var s1 := Broadcast(c, Protocol.Init(c), q);
    s := Broadcast(c, s1, q);
    assert s.broadcasts == [First(c.n, q), Second(c.n, q)];
  }

  /** p alone has delivered the first one. */
  lemma FirstDelivered(c: Config, p: Pid, q: Pid) returns (s: State)
    requires ValidConfig(c) && p < c.n && q < c.n && p != q && SecondSpreads(c, q)
    ensures Calm(c, s) && s.broadcasts == [First(c.n, q), Second(c.n, q)]
    ensures s.procs[q].seen == {MsgId(q, 1), MsgId(q, 2)} && OnlyOwn(s.procs[q], q, MsgId(q, 1))
    ensures s.procs[p].seen == {MsgId(q, 1)} && s.procs[p].sent == 0
    ensures MsgId(q, 1) in s.procs[p].urbDelivered
  {
    var s0 := TwoBroadcasts(c, q);
    WhatFits(c, q);
    var s1 := Spread(c, s0, q, MsgId(q, 1), c.n);
    s := HearMost(c, s1, p, MsgId(q, 1), c.n);
  }

  lemma FromTwo(first: LcbMsg, second: LcbMsg, q: Pid)
    requires first.origin == q && second.origin == q
    ensures From([first, second], q) == [first.clock, second.clock]
  {
    FromAppend([], first, q);
    assert [] + [first] == [first];
    FromAppend([first], second, q);
    assert [first] + [second] == [first, second];
  }

  lemma FirstTwoFrom(first: LcbMsg, second: LcbMsg, ms: seq<LcbMsg>, q: Pid)
    requires [first, second] <= ms && first.origin == q && second.origin == q
    ensures [first.clock, second.clock] <= From(ms, q) && first in ms && second in ms
  {
    FromTwo(first, second, q);
    FromPrefix([first, second], ms, q);
    assert ms[0] == first && ms[1] == second;
  }

  lemma TwoNames(c: Config, s: State, q: Pid)
    requires Calm(c, s) && q < c.n && [First(c.n, q), Second(c.n, q)] <= s.broadcasts
    ensures First(c.n, q).Id() == MsgId(q, 1) && IsBroadcast(s, MsgId(q, 1))
    ensures Second(c.n, q).Id() == MsgId(q, 2) && IsBroadcast(s, MsgId(q, 2))
    ensures MessageOf(s, MsgId(q, 1)) == First(c.n, q) && MessageOf(s, MsgId(q, 2)) == Second(c.n, q)
    ensures First(c.n, q) in s.broadcasts && Second(c.n, q) in s.broadcasts
  {
    FirstTwoFrom(First(c.n, q), Second(c.n, q), s.broadcasts, q);
  }

  /** Then p broadcasts its first message, m. */
  lemma ThenBroadcast(c: Config, p: Pid, q: Pid) returns (s: State, m: LcbMsg, a: nat)
    requires ValidConfig(c) && p < c.n && q < c.n && p != q && SecondSpreads(c, q)
    ensures Calm(c, s) && s.broadcasts == [First(c.n, q), Second(c.n, q), m]
    ensures s.procs[q].seen == {MsgId(q, 1), MsgId(q, 2)} && OnlyOwn(s.procs[q], q, MsgId(q, 1))
    ensures MsgId(p, 1) in s.procs[p].seen && m.origin == p && m.Id() == MsgId(p, 1)
    ensures forall y: Pid | y < c.n :: At(m.clock, y) <= if y == q then 1 else 0
    ensures var l := s.procs[p].lcb.log;
      && a < |l| - 1 && l[a].Delivers? && l[a].pid == q && l[a].msg == First(c.n, q)
      && l[|l| - 1] == Broadcasts(1)
  {
    var s0 := FirstDelivered(c, p, q);
    TwoNames(c, s0, q);
    assert |s0.procs[p].lcb.clock| == c.n by { SeenOneCountsOne(c, s0, p, MsgId(q, 1), p); }
    a := InLog(c, s0, p, First(c.n, q));
    m := Attached(s0.procs[p].lcb, p, 1);
    forall y: Pid | y < c.n ensures At(m.clock, y) <= if y == q then 1 else 0 {
      SeenOneCountsOne(c, s0, p, MsgId(q, 1), y);
    }
    WhatFits(c, q);
    s := Broadcast(c, s0, p);
  }

  lemma StillOnlyOwn(p: Proc, p': Proc, x: Pid, id: MsgId, other: MsgId)
    requires Learnt(p, p', id) && OnlyOwn(p, x, other) && other != id
    ensures OnlyOwn(p', x, other)
  {
  }

  /** p has logged the delivery of q's first message at a and its own broadcast at b. */
  ghost predicate PastLogged(s: State, p: Pid, first: LcbMsg, a: nat, b: nat)
    requires p < |s.procs|
  {
    var l := s.procs[p].lcb.log;
    a < b < |l| && l[a].Delivers? && l[a].pid == first.origin && l[a].msg == first && l[b] == Broadcasts(1)
  }

  /** Then enough processes hear of q's second message, and everybody of m. */
  lemma AllHeard(c: Config, p: Pid, q: Pid) returns (s: State, m: LcbMsg, a: nat, b: nat)
    requires ValidConfig(c) && p < c.n && q < c.n && p != q && SecondSpreads(c, q)
    ensures Calm(c, s) && s.broadcasts == [First(c.n, q), Second(c.n, q), m]
    ensures SeenByFirst(s, MsgId(q, 2), Reach(c, q)) && SeenByFirst(s, MsgId(p, 1), c.n)
    ensures OnlyOwn(s.procs[q], q, MsgId(q, 1)) && m.origin == p && m.Id() == MsgId(p, 1)
    ensures forall y: Pid | y < c.n :: At(m.clock, y) <= if y == q then 1 else 0
    ensures PastLogged(s, p, First(c.n, q), a, b)
  {
    var s0;
    s0, m, a := ThenBroadcast(c, p, q);
    b := |s0.procs[p].lcb.log| - 1;
    WhatFits(c, q);
    var s1 := Spread(c, s0, q, MsgId(q, 2), Reach(c, q));
    assert PastLogged(s1, p, First(c.n, q), a, b);
    s := Spread(c, s1, p, MsgId(p, 1), c.n);
    StillSeen(s1, s, MsgId(p, 1), MsgId(q, 2), Reach(c, q));
    StillOnlyOwn(s1.procs[q], s.procs[q], q, MsgId(p, 1), MsgId(q, 1));
  }

  lemma StillSeen(s: State, s': State, id: MsgId, other: MsgId, k: nat)
    requires AllLearnt(s, s', id) && SeenByFirst(s, other, k)
    ensures SeenByFirst(s', other, k)
  {
    forall d | 0 <= d < k ensures other in s'.procs[d].seen {
      assert Learnt(s.procs[d], s'.procs[d], id);
    }
  }

  /** And q delivers both, but not its first message. */
  lemma Overtaken(c: Config, p: Pid, q: Pid) returns (s: State, m: LcbMsg, a: nat, b: nat)
    requires ValidConfig(c) && p < c.n && q < c.n && p != q && SecondSpreads(c, q)
    ensures Calm(c, s) && s.broadcasts == [First(c.n, q), Second(c.n, q), m]
    ensures MsgId(q, 1) !in s.procs[q].urbDelivered && MsgId(q, 2) in s.procs[q].urbDelivered
    ensures MsgId(p, 1) in s.procs[q].urbDelivered && m.origin == p && m.Id() == MsgId(p, 1)
    ensures forall y: Pid | y < c.n :: At(m.clock, y) <= if y == q then 1 else 0
    ensures PastLogged(s, p, First(c.n, q), a, b)
  {
    var s0;
    s0, m, a, b := AllHeard(c, p, q);
    WhatFits(c, q);
    var s1 := HearMost(c, s0, q, MsgId(q, 2), Reach(c, q));
    StillSeen(s0, s1, MsgId(q, 2), MsgId(p, 1), c.n);
    s := HearMost(c, s1, q, MsgId(p, 1), c.n);
    StillOnlyOwn(s0.procs[q], s1.procs[q], q, MsgId(q, 2), MsgId(q, 1));
    StillOnlyOwn(s1.procs[q], s.procs[q], q, MsgId(p, 1), MsgId(q, 1));
    OwnAckOnly(c, s, q, MsgId(q, 1));
  }

  /** If q does not depend on itself, its causal layer delivers its second message and m. */
  lemma OvertakenDelivered(c: Config, p: Pid, q: Pid) returns (s: State, a: nat, b: nat, k: nat, e: nat)
    requires ValidConfig(c) && p < c.n && q < c.n && p != q && SecondSpreads(c, q) && q !in c.deps[q]
    ensures Calm(c, s) && PastLogged(s, p, First(c.n, q), a, b) && First(c.n, q).Id() == MsgId(q, 1)
    ensures MsgId(q, 1) !in s.procs[q].urbDelivered
    ensures var l := s.procs[q].lcb.log;
      && k < |l| && l[k].Delivers? && l[k].pid == q && l[k].msg.Id() == MsgId(q, 2)
      && e < |l| && l[e].Delivers? && l[e].msg.Id() == MsgId(p, 1)
  {
    var m;
    s, m, a, b := Overtaken(c, p, q);
    TwoNames(c, s, q);
    var x := s.procs[q];
    assert |x.lcb.clock| == c.n by {
      ReachableInv(c, s);
      assert CausalState(c, x);
    }
    k := InLog(c, s, q, Second(c.n, q));
    assert IsBroadcast(s, m.Id()) && MessageOf(s, m.Id()) == m by {
      ThirdName(c, s, p, q, m);
    }
    assert 1 <= x.lcb.clock[q] by {
      ClockCountsLog(c, s, q, k);
    }
    assert m in s.broadcasts by { assert s.broadcasts[2] == m; }
    e := InLog(c, s, q, m);
  }

  lemma ThirdName(c: Config, s: State, p: Pid, q: Pid, m: LcbMsg)
    requires s.broadcasts == [First(c.n, q), Second(c.n, q), m] && p != q && m.origin == p && m.Id() == MsgId(p, 1)
    ensures IsBroadcast(s, m.Id()) && MessageOf(s, m.Id()) == m
  {
    FromAppend([], First(c.n, q), p);
    assert [] + [First(c.n, q)] == [First(c.n, q)];
    FromAppend([First(c.n, q)], Second(c.n, q), p);
    assert [First(c.n, q)] + [Second(c.n, q)] == [First(c.n, q), Second(c.n, q)];
    FromAppend([First(c.n, q), Second(c.n, q)], m, p);
    assert [First(c.n, q), Second(c.n, q)] + [m] == s.broadcasts;
  }

  lemma ClockCountsLog(c: Config, s: State, x: Pid, k: nat)
    requires Calm(c, s) && x < c.n && k < |s.procs[x].lcb.log| && s.procs[x].lcb.log[k].Delivers?
    ensures s.procs[x].lcb.log[k].pid < |s.procs[x].lcb.clock| == c.n
    ensures 1 <= s.procs[x].lcb.clock[s.procs[x].lcb.log[k].pid]
  {
    var p := s.procs[x];
    assert CausalState(c, p) by { ReachableInv(c, s); }
    assert Justified(c.deps, p.lcb.log, k);
    CountReaches(c.deps, p.lcb.log, k, |p.lcb.log|);
    assert p.lcb.log[..|p.lcb.log|] == p.lcb.log;
    assert p.lcb.clock[p.lcb.log[k].pid] == Count(p.lcb.log, p.lcb.log[k].pid);
  }

  // ----- When the second message cannot spread -----

  /** A process delivers at most the first message of q if q's second cannot spread. */
  lemma OnlyFirstDelivered(c: Config, s: State, x: Pid, id: MsgId)
    requires ValidConfig(c) && Reachable(c, s) && x < |s.procs| && id in s.procs[x].urbDelivered
    requires !SecondSpreads(c, id.origin)
    ensures id.seqNum == 1
  {
    ReachableInv(c, s);
    assert Quorums(c, s.procs[x]) && Sources(s, x, s.procs[x]);
    if id.seqNum != 1 {
      if c.n == 1 {
        LoneProcessDeliversNothing(c, s, x);
      } else if Fits(c, MsgId(id.origin, 2), id.origin) {
        FewAckers(c, s, x, id);
      } else {
        SecondNotSent(c, s, id);
      }
      assert false;
    }
  }

  /** Only processes before the middle one can have acked a later message. */
  lemma FewAckers(c: Config, s: State, x: Pid, id: MsgId)
    requires ValidConfig(c) && Reachable(c, s) && x < |s.procs| && 2 <= id.seqNum
    requires !Fits(c, MsgId(id.origin, 2), c.n / 2)
    ensures !Majority(c, s.procs[x].urbAcks, id)
  {
    var acks := s.procs[x].urbAcks;
    forall r | r in Ackers(c.n, acks, id) ensures r in Everyone(c.n / 2) {
      AckFits(c, s, x, Slot(id, r));
      if c.n / 2 <= r {
        LaterIsLarger(c.n, id.origin, id.seqNum, c.n / 2, r);
      }
    }
    SubsetSize(Ackers(c.n, acks, id), Everyone(c.n / 2));
  }

  lemma AckFits(c: Config, s: State, x: Pid, a: Slot)
    requires ValidConfig(c) && Reachable(c, s) && x < |s.procs| && a in s.procs[x].urbAcks
    ensures Fits(c, a.id, a.pid)
  {
    assert Sources(s, x, s.procs[x]) by { ReachableInv(c, s); }
    SeenWithinCap(c, s, a.pid, a.id);
  }

  /** Whoever broadcast a later message has seen his own second one. */
  lemma SecondNotSent(c: Config, s: State, id: MsgId)
    requires ValidConfig(c) && Reachable(c, s) && IsBroadcast(s, id) && 2 <= id.seqNum && id.origin < |s.procs|
    ensures Fits(c, MsgId(id.origin, 2), id.origin)
  {
    var o := id.origin;
    ReachableInv(c, s);
    assert ShapeOf(c, s, o, s.procs[o]) && LogOf(c, s, o, s.procs[o]);
    SeenWithinCap(c, s, o, MsgId(o, 2));
  }

  /** So its messages are logged under their own numbers after all. */
  lemma FirstOnlyExact(c: Config, s: State, r: Pid, q: Pid)
    requires ValidConfig(c) && Reachable(c, s) && r < |s.procs| && q < c.n && !SecondSpreads(c, q)
    ensures ExactFrom(s.procs[r].lcb.log, q)
  {
    var p := s.procs[r];
    var log := p.lcb.log;
    forall id | id in p.urbDelivered && id.origin == q ensures id.seqNum == 1 {
      OnlyFirstDelivered(c, s, r, id);
    }
    CountsDelivered(c, s, r, q, {0});
    assert CausalState(c, p) by { ReachableInv(c, s); }
    forall k | 0 <= k < |log| && log[k].Delivers? && log[k].pid == q ensures log[k].msg.Id() == MsgId(q, log[k].n) {
      LoggedIsDelivered(c, s, r, k);
      assert Justified(c.deps, log, k);
      CountReaches(c.deps, log, k, |log|);
      assert log[..|log|] == log;
    }
  }

  // ----- Exactly when -----

  /** Every delivery from q is logged under its own sequence number. */
  ghost predicate RunsExact(c: Config, q: Pid) {
    forall s: State, r: Pid :: Reachable(c, s) && r < |s.procs| ==> ExactFrom(s.procs[r].lcb.log, q)
  }

  /** The condition, in terms of the configuration alone. */
  predicate Guarded(c: Config, q: Pid)
    requires q < |c.deps|
  {
    q in c.deps[q] || !SecondSpreads(c, q)
  }

  lemma GuardedExact(c: Config, s: State, r: Pid, q: Pid)
    requires ValidConfig(c) && Reachable(c, s) && r < |s.procs| && q < c.n && Guarded(c, q)
    ensures ExactFrom(s.procs[r].lcb.log, q)
  {
    if q in c.deps[q] {
      ReachableInv(c, s);
      SelfDependentExact(c, s, r, q);
    } else {
      FirstOnlyExact(c, s, r, q);
    }
  }

  /** In every system, every run logs q's messages in order and under their own numbers if
      and only if q depends on itself or its second message cannot spread. */
  lemma RunsExactIff(c: Config, q: Pid)
    requires ValidConfig(c) && q < c.n
    ensures RunsExact(c, q) <==> q in c.deps[q] || !SecondSpreads(c, q)
  {
    if Guarded(c, q) {
      forall s: State, r: Pid | Reachable(c, s) && r < |s.procs| ensures ExactFrom(s.procs[r].lcb.log, q) {
        GuardedExact(c, s, r, q);
      }
    } else {
      var s, a, b, k, e := OvertakenDelivered(c, if q == 0 then 1 else 0, q);
      NotExact(c, s, q, k);
    }
  }

  /** q logged its second message but not its first, so some number is wrong. */
  lemma NotExact(c: Config, s: State, q: Pid, k: nat)
    requires Calm(c, s) && q < c.n && MsgId(q, 1) !in s.procs[q].urbDelivered
    requires var l := s.procs[q].lcb.log; k < |l| && l[k].Delivers? && l[k].pid == q && l[k].msg.Id() == MsgId(q, 2)
    ensures !ExactFrom(s.procs[q].lcb.log, q)
  {
    var l := s.procs[q].lcb.log;
    if l[k].n == 2 {
      assert AllJustified(c.deps, l) by {
        ReachableInv(c, s);
        assert CausalState(c, s.procs[q]);
      }
      assert Justified(c.deps, l, k);
      var d := FindDelivery(c.deps, l, k, q, 1);
      LoggedIsDelivered(c, s, q, d);
    }
  }

  /** What LocalizedCausalOrder promises for the broadcasts of p after deliveries from q. */
  ghost predicate RunsOrdered(c: Config, p: Pid, q: Pid) {
    forall s: State, r: Pid, a: nat, b: nat, e: nat ::
      Reachable(c, s) && CausalPair(s, p, q, r, a, b, e) ==>
        exists d :: 0 <= d < e && SameDelivery(s.procs[p].lcb.log[a], s.procs[r].lcb.log[d])
  }

  ghost predicate SameDelivery(x: Event, y: Event) {
    x.Delivers? && y.Delivers? && x.msg == y.msg
  }

  /** If p depends on q, every run keeps p's messages behind those of q that p had delivered
      if and only if q depends on itself or its second message cannot spread. */
  lemma RunsOrderedIff(c: Config, p: Pid, q: Pid)
    requires ValidConfig(c) && p < c.n && q < c.n && p != q && q in c.deps[p]
    ensures RunsOrdered(c, p, q) <==> q in c.deps[q] || !SecondSpreads(c, q)
  {
    if Guarded(c, q) {
      forall s: State, r: Pid, a: nat, b: nat, e: nat | Reachable(c, s) && CausalPair(s, p, q, r, a, b, e)
        ensures exists d :: 0 <= d < e && SameDelivery(s.procs[p].lcb.log[a], s.procs[r].lcb.log[d])
      {
        GuardedExact(c, s, p, q);
        GuardedExact(c, s, r, q);
        ReachableInv(c, s);
        var d := ExactCausalOrder(c, s, p, q, r, a, b, e);
        assert SameDelivery(s.procs[p].lcb.log[a], s.procs[r].lcb.log[d]);
      }
    } else {
      var s, a, b, k, e := OvertakenDelivered(c, p, q);
      assert CausalPair(s, p, q, q, a, b, e);
      forall d | 0 <= d < e ensures !SameDelivery(s.procs[p].lcb.log[a], s.procs[q].lcb.log[d]) {
        if s.procs[q].lcb.log[d].Delivers? {
          LoggedIsDelivered(c, s, q, d);
        }
      }
    }
  }
}
