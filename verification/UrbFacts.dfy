/** Third layer of the invariant: uniform reliable broadcast delivers on a majority,
    each broadcast once, and hands the causal layer exactly what was broadcast. */
module UrbFacts {
  import opened Messages
  import opened CausalDelivery
  import opened SequenceNumbers
  import opened Protocol
  import opened Genuine

  ghost predicate Majority(c: Config, acks: set<Slot>, id: MsgId) {
    |Ackers(c.n, acks, id)| > c.n / 2
  }

  /** How many rows the ack table has after k doublings. */
  function Rows(n: nat, k: nat): nat {
    if k == 0 then 150 * n else 2 * Rows(n, k - 1)
  }

  /** At one of the sizes the table goes through, the row of id is its last. */
  ghost predicate LastRow(c: Config, id: MsgId) {
    exists k: nat :: SeenNum(c.n, id) + 1 == Rows(c.n, k)
  }

  ghost predicate TableSize(n: nat, entries: nat) {
    exists k: nat :: entries == n * Rows(n, k)
  }

  /** The ack table has one of its sizes, holds every slot that is set, and has not
      grown past twice the cap. */
  ghost predicate AckTable(c: Config, p: Proc) {
    && TableSize(c.n, p.ackEntries)
    && (forall x | x in p.urbAcks :: SlotNum(c.n, x) < p.ackEntries)
    && (p.ackEntries == 150 * c.n * c.n || p.ackEntries <= 16384)
  }

  /** A delivery needed a majority, and a majority forces delivery unless the row is the
      last one at some size of the table. */
  ghost predicate Quorums(c: Config, p: Proc) {
    && (forall id | id in p.urbDelivered :: id in p.seen && Majority(c, p.urbAcks, id))
    && (forall id | Majority(c, p.urbAcks, id) && !LastRow(c, id) && c.n >= 2 :: id in p.urbDelivered)
  }

  /** What reached the causal layer: each delivered broadcast once, as it was sent. */
  ghost predicate Arrivals(s: State, p: Proc) {
    && Distinct(p.arrived)
    && (forall m | m in p.arrived :: m.Id() in p.urbDelivered && IsBroadcast(s, m.Id()) && m == MessageOf(s, m.Id()))
    && (forall id | id in p.urbDelivered :: IsBroadcast(s, id) && MessageOf(s, id) in p.arrived)
  }

  ghost predicate CausalState(c: Config, p: Proc) {
    Consistent(c.deps, p.lcb, p.arrived)
  }

  ghost predicate UrbInv(c: Config, s: State) {
    forall q | 0 <= q < |s.procs| ::
      && AckTable(c, s.procs[q]) && Quorums(c, s.procs[q])
      && Arrivals(s, s.procs[q]) && CausalState(c, s.procs[q])
  }

  // ----- Own entries name broadcasts -----

  lemma {:induction false} FromIndex(c: Config, ms: seq<LcbMsg>, o: Pid, i: nat)
    requires forall k | 0 <= k < |ms| :: BroadcastShape(c, ms, k)
    requires i < |From(ms, o)|
    ensures o < |From(ms, o)[i]| == c.n && From(ms, o)[i][o] == i
    ensures LcbMsg(o, From(ms, o)[i]) in ms
    decreases |ms|
  {
    var last := |ms| - 1;
    var init := ms[..last];
    assert ms == init + [ms[last]];
    FromAppend(init, ms[last], o);
    assert BroadcastShape(c, ms, last);
    if i < |From(init, o)| {
      forall k | 0 <= k < |init| ensures BroadcastShape(c, init, k) {
        assert BroadcastShape(c, ms, k);
        assert init[..k] == ms[..k];
      }
      FromIndex(c, init, o, i);
    }
  }

  /** The clock attached to a broadcast identifies it. */
  lemma MessageNamesItself(c: Config, s: State, id: MsgId)
    requires GenuineInv(c, s) && IsBroadcast(s, id)
    ensures MessageOf(s, id).Id() == id && id.origin < c.n && |MessageOf(s, id).clock| == c.n
    ensures MessageOf(s, id) in s.broadcasts
  {
    FromIndex(c, s.broadcasts, id.origin, id.seqNum - 1);
  }

  // ----- Quorums -----

  lemma AckersGrow(n: nat, acks: set<Slot>, acks': set<Slot>, id: MsgId)
    requires acks <= acks'
    ensures Ackers(n, acks, id) <= Ackers(n, acks', id)
    ensures |Ackers(n, acks, id)| <= |Ackers(n, acks', id)|
  {
    SubsetSize(Ackers(n, acks, id), Ackers(n, acks', id));
  }

  lemma SubsetSize<T>(a: set<T>, b: set<T>)
    requires a <= b
    ensures |a| <= |b|
  {
    assert b == a + (b - a);
  }

  lemma OtherAckersSame(n: nat, acks: set<Slot>, acks': set<Slot>, id: MsgId)
    requires acks <= acks' && forall x | x in acks' && x !in acks :: x.id != id
    ensures Ackers(n, acks', id) == Ackers(n, acks, id)
  {
  }

  // ----- The ack table -----

  lemma {:induction false} GrowToSize(n: nat, k: nat, i: nat)
    requires 0 < n * Rows(n, k)
    ensures TableSize(n, GrowTo(n * Rows(n, k), i))
    decreases if i < n * Rows(n, k) then 0 else i - n * Rows(n, k) + 1
  {
    if i >= n * Rows(n, k) {
      assert n * Rows(n, k + 1) == n * Rows(n, k) * 2;
      GrowToSize(n, k + 1, i);
    }
  }

  lemma SetAckTable(c: Config, p: Proc, x: Slot)
    requires ValidConfig(c) && AckTable(c, p) && SlotNum(c.n, x) <= 8192
    ensures AckTable(c, SetAckUrb(c, p, x))
  {
    var k: nat :| p.ackEntries == c.n * Rows(c.n, k);
    if 0 < p.ackEntries && 0 <= SlotNum(c.n, x) {
      GrowToSize(c.n, k, SlotNum(c.n, x));
      GrowthBounded(p.ackEntries, SlotNum(c.n, x));
    } else {
      RowsPositive(c.n, k);
    }
  }

  lemma {:induction false} RowsPositive(n: nat, k: nat)
    requires 0 < n
    ensures 150 * n <= Rows(n, k) && 0 < n * Rows(n, k)
  {
    if k > 0 {
      RowsPositive(n, k - 1);
    }
    assert 0 < n * Rows(n, k) by {
      MulLe(n, 1, Rows(n, k));
    }
  }

  lemma DeliverUrbTable(c: Config, p: Proc, q: Pid, msg: UrbMsg)
    requires ValidConfig(c) && Shaped(c.deps, p.lcb) && msg.lcb.origin < |c.deps|
    requires AckTable(c, p) && DeliverUrb(c, p, q, msg).Continues?
    ensures AckTable(c, DeliverUrb(c, p, q, msg).proc)
  {
    SetAckTable(c, p, msg.mid);
    if msg.seenId !in p.seen {
      SetAckTable(c, SetAckUrb(c, p, msg.mid), Slot(msg.seenId, q));
    }
  }

  lemma RowEndsInside(n: nat, row: int, rows: int, r: nat)
    requires 0 < n && n * row + r < n * rows && row + 1 != rows
    ensures n * row + n < n * rows
  {
    if rows <= row {
      MulLe(n, rows, row);
    } else {
      MulGap(n, row + 1, rows);
      assert n * (row + 1) == n * row + n;
    }
  }

  /** An ack slot of id lies in the table, so the table reaches past the start of its row;
      and then past its end, unless that is the end of the table. */
  lemma RowFitsUnlessLast(c: Config, p: Proc, id: MsgId)
    requires ValidConfig(c) && AckTable(c, p) && Majority(c, p.urbAcks, id) && !LastRow(c, id)
    ensures RowFits(c.n, p.ackEntries, id)
  {
    assert Ackers(c.n, p.urbAcks, id) != {};
    var r :| r in Ackers(c.n, p.urbAcks, id);
    assert Slot(id, r) in p.urbAcks;
    var k: nat :| p.ackEntries == c.n * Rows(c.n, k);
    RowEndsInside(c.n, SeenNum(c.n, id), Rows(c.n, k), r);
  }

  // ----- Preservation -----

  lemma ArrivalsStable(s: State, s': State, p: Proc, p': Proc)
    requires s.broadcasts <= s'.broadcasts && Arrivals(s, p)
    requires p'.arrived == p.arrived && p'.urbDelivered == p.urbDelivered
    ensures Arrivals(s', p')
  {
    forall m | m in p.arrived ensures IsBroadcast(s', m.Id()) && m == MessageOf(s', m.Id()) {
      MessageStable(s, s', m.Id());
    }
    forall id | id in p.urbDelivered ensures IsBroadcast(s', id) && MessageOf(s', id) in p.arrived {
      MessageStable(s, s', id);
    }
  }

  lemma UrbAssemble(c: Config, s: State, s': State, q: Pid)
    requires GenuineInv(c, s) && Grows(s, s') && UrbInv(c, s) && q < c.n
    requires forall r | 0 <= r < c.n && r != q :: s'.procs[r] == s.procs[r]
    requires AckTable(c, s'.procs[q]) && Quorums(c, s'.procs[q])
    requires Arrivals(s', s'.procs[q]) && CausalState(c, s'.procs[q])
    ensures UrbInv(c, s')
  {
    forall r | 0 <= r < c.n && r != q ensures Arrivals(s', s'.procs[r]) {
      ArrivalsStable(s, s', s.procs[r], s.procs[r]);
    }
  }

  /** Logging "b n" is invisible to the delivery state. */
  lemma LogBroadcastState(c: Config, p: Proc, p': Proc, i: nat)
    requires CausalState(c, p) && p'.lcb == LogBroadcast(p.lcb, i) && p'.arrived == p.arrived
    ensures CausalState(c, p')
  {
    var e := Broadcasts(i);
    JustifiedAppend(c.deps, p.lcb.log, e);
    forall o | 0 <= o < |c.deps|
      ensures p'.lcb.clock[o] == Count(p'.lcb.log, o)
      ensures DeliveredBag(p'.lcb, o) + multiset(p'.lcb.pending[o]) == multiset(From(p'.arrived, o))
    {
      CountAppend(p.lcb.log, e, o);
      assert p.lcb.clock[o] == Count(p.lcb.log, o);
    }
  }

  /** Before it is broadcast, a message has no acks anywhere. */
  lemma NewHasNoAckers(c: Config, s: State, q: Pid, id: MsgId)
    requires GenuineInv(c, s) && q < c.n && !IsBroadcast(s, id)
    ensures Ackers(c.n, s.procs[q].urbAcks, id) == {}
  {
    forall x | x in s.procs[q].urbAcks ensures x.id != id {
      assert x.id in s.procs[x.pid].seen;
      assert Sources(s, x.pid, s.procs[x.pid]);
    }
  }

  lemma BroadcastUrb(c: Config, s: State, q: Pid)
    requires ValidConfig(c) && GenuineInv(c, s) && UrbInv(c, s) && Enabled(c, s, BroadcastStep(q))
    ensures UrbInv(c, Apply(c, s, BroadcastStep(q)))
  {
    var s', p := Apply(c, s, BroadcastStep(q)), s.procs[q];
    var p' := s'.procs[q];
    StepGrows(c, s, BroadcastStep(q));
    ArrivalsStable(s, s', p, p');
    if SendLcb(c, p, q).Continues? {
      var id := MsgId(q, p.sent + 1);
      LogBroadcastState(c, p, p', p.sent + 1);
      SetAckTable(c, p, Slot(id, q));
      NewHasNoAckers(c, s, q, id);
      OwnAckQuorums(c, p, p', q, id);
    }
    UrbAssemble(c, s, s', q);
  }

  /** The broadcaster's own ack is no majority, unless it is alone. */
  lemma OwnAckQuorums(c: Config, p: Proc, p': Proc, q: Pid, id: MsgId)
    requires Quorums(c, p) && q < c.n && Ackers(c.n, p.urbAcks, id) == {}
    requires p'.urbAcks == p.urbAcks + {Slot(id, q)} && p.seen <= p'.seen && p'.urbDelivered == p.urbDelivered
    ensures Quorums(c, p')
  {
    assert Ackers(c.n, p'.urbAcks, id) == {q};
    forall i | i != id ensures Ackers(c.n, p'.urbAcks, i) == Ackers(c.n, p.urbAcks, i) {
      OtherAckersSame(c.n, p.urbAcks, p'.urbAcks, i);
    }
  }

  lemma QuietUrb(c: Config, s: State, step: Step)
    requires ValidConfig(c) && GenuineInv(c, s) && UrbInv(c, s) && Enabled(c, s, step)
    requires !step.BroadcastStep? && (step.ReceiveStep? ==> step.m.Ack?)
    ensures UrbInv(c, Apply(c, s, step))
  {
    var s', q := Apply(c, s, step), step.p;
    StepGrows(c, s, step);
    ArrivalsStable(s, s', s.procs[q], s'.procs[q]);
    UrbAssemble(c, s, s', q);
  }

  /** The acks a handled message adds are all for that message. */
  lemma DeliverUrbAcks(c: Config, p: Proc, q: Pid, msg: UrbMsg)
    requires Shaped(c.deps, p.lcb) && msg.lcb.origin < |c.deps| && msg.mid.id == msg.seenId
    requires DeliverUrb(c, p, q, msg).Continues?
    ensures var p' := DeliverUrb(c, p, q, msg).proc;
      && p.urbAcks <= p'.urbAcks && (forall x | x in p'.urbAcks && x !in p.urbAcks :: x.id == msg.seenId)
      && p.ackEntries <= p'.ackEntries && p'.seen == p.seen + {msg.seenId}
      && (if CanDeliver(c, p', msg.seenId) && msg.seenId !in p.urbDelivered then
            && p'.urbDelivered == p.urbDelivered + {msg.seenId}
            && p'.arrived == p.arrived + [msg.lcb]
            && p'.lcb == Deliver(c.deps, p.lcb, msg.lcb)
          else p'.urbDelivered == p.urbDelivered && p'.arrived == p.arrived && p'.lcb == p.lcb)
  {
  }

  lemma ReceiveUrb(c: Config, s: State, q: Pid, m: Msg)
    requires ValidConfig(c) && GenuineInv(c, s) && UrbInv(c, s) && Enabled(c, s, ReceiveStep(q, m)) && m.Data?
    ensures UrbInv(c, Apply(c, s, ReceiveStep(q, m)))
  {
    var s', p := Apply(c, s, ReceiveStep(q, m)), s.procs[q];
    var p' := s'.procs[q];
    StepGrows(c, s, ReceiveStep(q, m));
    if m.mid !in p.plDelivered && DeliverData(c, p, q, m).Continues? {
      HandledQuorums(c, s, q, m);
      HandledArrivals(c, s, q, m);
    } else {
      ArrivalsStable(s, s', p, p');
    }
    UrbAssemble(c, s, s', q);
  }

  /** A data message handled for the first time. */
  ghost predicate FirstReceipt(c: Config, s: State, q: Pid, m: Msg) {
    && ValidConfig(c) && GenuineInv(c, s) && UrbInv(c, s) && Enabled(c, s, ReceiveStep(q, m)) && m.Data?
    && m.mid !in s.procs[q].plDelivered && DeliverData(c, s.procs[q], q, m).Continues?
  }

  lemma HandledQuorums(c: Config, s: State, q: Pid, m: Msg)
    requires FirstReceipt(c, s, q, m)
    ensures var p' := Apply(c, s, ReceiveStep(q, m)).procs[q]; AckTable(c, p') && Quorums(c, p')
  {
    var p, p' := s.procs[q], Apply(c, s, ReceiveStep(q, m)).procs[q];
    assert GenuinePacket(s, q, m);
    var p0 := p.(plDelivered := p.plDelivered + {m.mid}, passed := p.passed + [m.mid]);
    DeliverUrbAcks(c, p0, q, m.urb);
    DeliverUrbTable(c, p0, q, m.urb);
    QuorumsAfter(c, p, p', m.urb.seenId);
  }

  lemma HandledArrivals(c: Config, s: State, q: Pid, m: Msg)
    requires FirstReceipt(c, s, q, m)
    ensures var s' := Apply(c, s, ReceiveStep(q, m)); Arrivals(s', s'.procs[q]) && CausalState(c, s'.procs[q])
  {
    var s', p := Apply(c, s, ReceiveStep(q, m)), s.procs[q];
    var p' := s'.procs[q];
    assert GenuinePacket(s, q, m);
    DeliverUrbAcks(c, p.(plDelivered := p.plDelivered + {m.mid}, passed := p.passed + [m.mid]), q, m.urb);
    if p'.urbDelivered != p.urbDelivered {
      DeliverConsistent(c.deps, p.lcb, p.arrived, m.urb.lcb);
      ArrivalsAfter(c, s, s', p, p', m.urb.seenId);
    } else {
      ArrivalsStable(s, s', p, p');
    }
  }

  lemma QuorumsAfter(c: Config, p: Proc, p': Proc, id: MsgId)
    requires ValidConfig(c) && Quorums(c, p) && AckTable(c, p')
    requires p.urbAcks <= p'.urbAcks && forall x | x in p'.urbAcks && x !in p.urbAcks :: x.id == id
    requires p'.seen == p.seen + {id}
    requires p'.urbDelivered == p.urbDelivered + (if CanDeliver(c, p', id) then {id} else {})
    ensures Quorums(c, p')
  {
    forall i
      ensures i in p'.urbDelivered ==> i in p'.seen && Majority(c, p'.urbAcks, i)
      ensures Majority(c, p'.urbAcks, i) && !LastRow(c, i) && c.n >= 2 ==> i in p'.urbDelivered
    {
      if i == id {
        AckersGrow(c.n, p.urbAcks, p'.urbAcks, id);
        if Majority(c, p'.urbAcks, id) && !LastRow(c, id) {
          RowFitsUnlessLast(c, p', id);
        }
      } else {
        OtherAckersSame(c.n, p.urbAcks, p'.urbAcks, i);
      }
    }
  }

  lemma ArrivalsAfter(c: Config, s: State, s': State, p: Proc, p': Proc, id: MsgId)
    requires GenuineInv(c, s) && s.broadcasts <= s'.broadcasts && Arrivals(s, p)
    requires IsBroadcast(s, id) && id !in p.urbDelivered
    requires p'.urbDelivered == p.urbDelivered + {id} && p'.arrived == p.arrived + [MessageOf(s, id)]
    ensures Arrivals(s', p')
  {
    MessageNamesItself(c, s, id);
    MessageStable(s, s', id);
    forall m | m in p.arrived ensures IsBroadcast(s', m.Id()) && m == MessageOf(s', m.Id()) && m.Id() != id {
      MessageStable(s, s', m.Id());
    }
    forall i | i in p.urbDelivered ensures IsBroadcast(s', i) && MessageOf(s', i) in p'.arrived {
      MessageStable(s, s', i);
    }
  }

  lemma StepUrb(c: Config, s: State, step: Step)
    requires ValidConfig(c) && GenuineInv(c, s) && UrbInv(c, s) && Enabled(c, s, step)
    ensures UrbInv(c, Apply(c, s, step))
  {
    if step.BroadcastStep? {
      BroadcastUrb(c, s, step.p);
    } else if step.ReceiveStep? && step.m.Data? {
      ReceiveUrb(c, s, step.p, step.m);
    } else {
      QuietUrb(c, s, step);
    }
  }

  lemma InitUrb(c: Config)
    requires ValidConfig(c)
    ensures UrbInv(c, Protocol.Init(c))
  {
    var p := InitProc(c);
    DeliverAllConsistent(c.deps, []);
    assert c.n * Rows(c.n, 0) == 150 * c.n * c.n;
    forall id ensures Ackers(c.n, p.urbAcks, id) == {} {
    }
  }

  // ----- Nothing deliverable is held back -----

  ghost predicate Drained(c: Config, p: Proc) {
    Shaped(c.deps, p.lcb) && AllBlocked(c.deps, p.lcb)
  }

  ghost predicate DrainInv(c: Config, s: State) {
    forall q | 0 <= q < |s.procs| :: Drained(c, s.procs[q])
  }

  lemma SameClockDrained(c: Config, p: Proc, p': Proc)
    requires Drained(c, p) && p'.lcb.clock == p.lcb.clock && p'.lcb.pending == p.lcb.pending
    ensures Drained(c, p')
  {
    forall o, k | 0 <= o < |c.deps| && 0 <= k < |p'.lcb.pending[o]|
      ensures !Ready(c.deps, p'.lcb.clock, Waiting(p'.lcb, o, k))
    {
      assert Waiting(p'.lcb, o, k) == Waiting(p.lcb, o, k);
    }
  }

  lemma HandledDrained(c: Config, p: Proc, q: Pid, m: Msg)
    requires ValidConfig(c) && m.Data? && CausalState(c, p) && Drained(c, p) && m.urb.lcb.origin < |c.deps|
    ensures Drained(c, Settle(p, DeliverData(c, p, q, m)))
  {
    DeliverConsistent(c.deps, p.lcb, p.arrived, m.urb.lcb);
  }

  lemma StepDrained(c: Config, s: State, step: Step)
    requires ValidConfig(c) && UrbInv(c, s) && DrainInv(c, s) && Enabled(c, s, step)
    ensures DrainInv(c, Apply(c, s, step))
  {
    var s', p := Apply(c, s, step), s.procs[step.p];
    assert Drained(c, s'.procs[step.p]) by {
      if step.ReceiveStep? && step.m.Data? {
        HandledDrained(c, p, step.p, step.m);
      } else {
        SameClockDrained(c, p, s'.procs[step.p]);
      }
    }
  }

  lemma InitDrained(c: Config)
    requires ValidConfig(c)
    ensures DrainInv(c, Protocol.Init(c))
  {
    DeliverAllConsistent(c.deps, []);
  }
}
