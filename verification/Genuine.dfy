/** First layer of the invariant: where everything in the tables, the queues and the
    network comes from. */
module Genuine {
  import opened Messages
  import opened CausalDelivery
  import opened Protocol

  // ----- What only grows -----

  ghost predicate ProcGrows(p: Proc, p': Proc) {
    && p.seen <= p'.seen && p.urbDelivered <= p'.urbDelivered && p.urbAcks <= p'.urbAcks
    && p.plAcks <= p'.plAcks && p.plDelivered <= p'.plDelivered
    && p.ackEntries <= p'.ackEntries && (p.crashed ==> p'.crashed)
    && p.lcb.log <= p'.lcb.log
  }

  ghost predicate Grows(s: State, s': State) {
    && |s.procs| == |s'.procs| && s.net <= s'.net && s.broadcasts <= s'.broadcasts
    && forall q | 0 <= q < |s.procs| :: ProcGrows(s.procs[q], s'.procs[q])
  }

  ghost predicate IsBroadcast(s: State, id: MsgId) {
    1 <= id.seqNum <= |From(s.broadcasts, id.origin)|
  }

  /** The message broadcast as id, with the clock attached at broadcast. */
  ghost function MessageOf(s: State, id: MsgId): LcbMsg
    requires IsBroadcast(s, id)
  {
    LcbMsg(id.origin, From(s.broadcasts, id.origin)[id.seqNum - 1])
  }

  lemma MessageStable(s: State, s': State, id: MsgId)
    requires s.broadcasts <= s'.broadcasts && IsBroadcast(s, id)
    ensures IsBroadcast(s', id) && MessageOf(s', id) == MessageOf(s, id)
  {
    FromPrefix(s.broadcasts, s'.broadcasts, id.origin);
  }

  // ----- What is genuine -----

  /** The one data message that process p sends to d for broadcast id. */
  ghost function TheData(s: State, p: Pid, id: MsgId, d: Pid): Msg
    requires IsBroadcast(s, id)
  {
    Data(Slot(id, p), Slot(id, d), p, UrbMsg(MessageOf(s, id), id, Slot(id, p)))
  }

  ghost predicate GenuineData(s: State, dest: Pid, m: Msg) {
    && m.Data? && m.sender < |s.procs| && dest < |s.procs| && dest != m.sender
    && IsBroadcast(s, m.urb.seenId)
    && m.urb.seenId in s.procs[m.sender].seen
    && m == TheData(s, m.sender, m.urb.seenId, dest)
  }

  /** An ack is only sent by a process that records the delivery, unless its number is
      one that exits the process on either side. */
  ghost predicate GenuineAck(s: State, dest: Pid, m: Msg) {
    && m.Ack? && m.sender < |s.procs| && m.mid.pid == dest
    && m.ackid == Slot(m.mid.id, m.sender)
    && (m.mid in s.procs[m.sender].plDelivered || BeyondCap(s, m.ackid))
  }

  /** Writing this slot is refused. */
  ghost predicate BeyondCap(s: State, x: Slot) {
    SlotNum(|s.procs|, x) > 8192
  }

  ghost predicate GenuinePacket(s: State, dest: Pid, m: Msg) {
    if m.Data? then GenuineData(s, dest, m) else GenuineAck(s, dest, m)
  }

  ghost predicate GenuineTask(s: State, q: Pid, task: Task) {
    GenuineData(s, task.dest, task.msg) && task.msg.sender == q
  }

  /** Every entry of p's tables, queue and hands, p being process q. */
  ghost predicate Sources(s: State, q: Pid, p: Proc) {
    && (forall id | id in p.seen :: id.origin < |s.procs| && IsBroadcast(s, id) && !BeyondCap(s, Slot(id, q)))
    && (forall x | x in p.urbAcks :: x.pid < |s.procs| && x.id in s.procs[x.pid].seen)
    && (forall x | x in p.plAcks :: x.pid < |s.procs| && Slot(x.id, q) in s.procs[x.pid].plDelivered)
    && (forall task | task in p.queue :: GenuineTask(s, q, task))
    && (forall t | t in p.held :: GenuineTask(s, q, p.held[t].task))
  }

  ghost predicate ShapeOf(c: Config, s: State, q: Pid, p: Proc) {
    && Shaped(c.deps, p.lcb) && p.sent == |From(s.broadcasts, q)|
    && 150 * c.n * c.n <= p.ackEntries
  }

  /** Message k of the history carries a clock for every process, and its own entry
      counts the earlier messages of its origin. */
  ghost predicate BroadcastShape(c: Config, ms: seq<LcbMsg>, k: nat)
    requires k < |ms|
  {
    && ms[k].origin < c.n == |ms[k].clock|
    && ms[k].clock[ms[k].origin] == |From(ms[..k], ms[k].origin)|
  }

  ghost predicate GenuineInv(c: Config, s: State) {
    && |s.procs| == c.n
    && (forall k | 0 <= k < |s.broadcasts| :: BroadcastShape(c, s.broadcasts, k))
    && (forall q, m | (q, m) in s.net :: GenuinePacket(s, q, m))
    && (forall q | 0 <= q < c.n :: ShapeOf(c, s, q, s.procs[q]) && Sources(s, q, s.procs[q]))
  }

  // ----- Tasks of one broadcast -----

  lemma {:induction false} BebTasksExactly(n: nat, msg: UrbMsg, self: Pid, i: Pid)
    ensures forall t | t in BebTasks(n, msg, self, i) ::
      i <= t.dest < n && t.dest != self && t == BebTask(msg, self, t.dest)
    ensures forall d | i <= d < n && d != self :: BebTask(msg, self, d) in BebTasks(n, msg, self, i)
    decreases n - i
  {
    if i < n {
      BebTasksExactly(n, msg, self, i + 1);
    }
  }

  // ----- Stability -----

  lemma DataStable(s: State, s': State, dest: Pid, m: Msg)
    requires Grows(s, s') && GenuineData(s, dest, m)
    ensures GenuineData(s', dest, m)
  {
    MessageStable(s, s', m.urb.seenId);
  }

  lemma PacketStable(s: State, s': State, dest: Pid, m: Msg)
    requires Grows(s, s') && GenuinePacket(s, dest, m)
    ensures GenuinePacket(s', dest, m)
  {
    if m.Data? {
      DataStable(s, s', dest, m);
    }
  }

  lemma SourcesStable(s: State, s': State, q: Pid, p: Proc)
    requires Grows(s, s') && Sources(s, q, p)
    ensures Sources(s', q, p)
  {
    forall id | id in p.seen ensures IsBroadcast(s', id) {
      MessageStable(s, s', id);
    }
    forall task | task in p.queue ensures GenuineTask(s', q, task) {
      DataStable(s, s', task.dest, task.msg);
    }
    forall t | t in p.held ensures GenuineTask(s', q, p.held[t].task) {
      DataStable(s, s', p.held[t].task.dest, p.held[t].task.msg);
    }
  }

  // ----- Growth of every step -----

  lemma SetAckUrbGrows(c: Config, p: Proc, x: Slot)
    ensures ProcGrows(p, SetAckUrb(c, p, x))
  {
  }

  lemma RelayGrows(c: Config, p: Proc, q: Pid, msg: UrbMsg)
    ensures ProcGrows(p, Settle(p, Relay(c, p, q, msg)))
  {
    SetAckUrbGrows(c, p.(seen := p.seen + {msg.seenId}), Slot(msg.seenId, q));
  }

  lemma TryDeliverGrows(c: Config, p: Proc, msg: UrbMsg)
    requires Shaped(c.deps, p.lcb) && msg.lcb.origin < |c.deps|
    ensures ProcGrows(p, Settle(p, TryDeliver(c, p, msg)))
  {
    DeliverOnlyDelivers(c.deps, p.lcb, msg.lcb);
  }

  lemma DeliverUrbGrows(c: Config, p: Proc, q: Pid, msg: UrbMsg)
    requires Shaped(c.deps, p.lcb) && msg.lcb.origin < |c.deps|
    ensures ProcGrows(p, Settle(p, DeliverUrb(c, p, q, msg)))
  {
    SetAckUrbGrows(c, p, msg.mid);
    var p1 := SetAckUrb(c, p, msg.mid);
    RelayGrows(c, p1, q, msg);
    TryDeliverGrows(c, p1, msg);
    var r := Relay(c, p1, q, msg);
    if r.Continues? {
      TryDeliverGrows(c, r.proc, msg);
    }
  }

  lemma StepGrows(c: Config, s: State, step: Step)
    requires Enabled(c, s, step)
    ensures Grows(s, Apply(c, s, step))
  {
    var q, p := step.p, s.procs[step.p];
    match step
    case BroadcastStep(_) =>
      var id := MsgId(q, p.sent + 1);
      SetAckUrbGrows(c, p.(seen := p.seen + {id}), Slot(id, q));
    case ReceiveStep(_, m) =>
      if m.Data? {
        DeliverUrbGrows(c, p.(plDelivered := p.plDelivered + {m.mid}, passed := p.passed + [m.mid]), q, m.urb);
      }
    case _ =>
  }

  // ----- Preservation -----

  lemma SourcesSetAck(c: Config, s: State, q: Pid, p: Proc, x: Slot)
    requires Sources(s, q, p) && x.pid < |s.procs| && x.id in s.procs[x.pid].seen
    ensures Sources(s, q, SetAckUrb(c, p, x))
  {
  }

  /** Marking id seen and queueing its tasks, in a state s that records both. */
  lemma SourcesSendBeb(c: Config, s: State, q: Pid, p: Proc, id: MsgId)
    requires Sources(s, q, p) && q < |s.procs| == c.n && id.origin < c.n
    requires IsBroadcast(s, id) && id in s.procs[q].seen && !BeyondCap(s, Slot(id, q))
    ensures Sources(s, q, SendBeb(c, p.(seen := p.seen + {id}), q, UrbMsg(MessageOf(s, id), id, Slot(id, q))))
  {
    var msg := UrbMsg(MessageOf(s, id), id, Slot(id, q));
    BebTasksExactly(c.n, msg, q, 0);
    forall t | t in BebTasks(c.n, msg, q, 0) ensures GenuineTask(s, q, t) {
      assert t == BebTask(msg, q, t.dest);
    }
  }

  lemma SourcesDeliverUrb(c: Config, s: State, q: Pid, p: Proc, msg: UrbMsg, r: Pid)
    requires q < |s.procs| == c.n && Sources(s, q, p) && Shaped(c.deps, p.lcb)
    requires r < c.n && IsBroadcast(s, msg.seenId) && msg.seenId in s.procs[r].seen
    requires msg == UrbMsg(MessageOf(s, msg.seenId), msg.seenId, Slot(msg.seenId, r))
    requires msg.seenId.origin < c.n && msg.lcb.origin < |c.deps|
    requires DeliverUrb(c, p, q, msg).Continues? ==> msg.seenId in s.procs[q].seen
    ensures Sources(s, q, Settle(p, DeliverUrb(c, p, q, msg)))
  {
    if DeliverUrb(c, p, q, msg).Continues? {
      var id := msg.seenId;
      var p1 := SetAckUrb(c, p, msg.mid);
      SourcesSetAck(c, s, q, p, msg.mid);
      if id !in p1.seen {
        var own := UrbMsg(MessageOf(s, id), id, Slot(id, q));
        var p2 := SetAckUrb(c, p1.(seen := p1.seen + {id}), Slot(id, q));
        SourcesSendBeb(c, s, q, p1, id);
        assert Relay(c, p1, q, msg) == Continues(SendBeb(c, p2, q, own));
        SourcesSetAck(c, s, q, SendBeb(c, p1.(seen := p1.seen + {id}), q, own), Slot(id, q));
      }
    }
  }

  lemma Assemble(c: Config, s: State, s': State, q: Pid)
    requires GenuineInv(c, s) && Grows(s, s') && q < c.n
    requires forall r | 0 <= r < c.n && r != q ::
      s'.procs[r] == s.procs[r] && From(s'.broadcasts, r) == From(s.broadcasts, r)
    requires ShapeOf(c, s', q, s'.procs[q]) && Sources(s', q, s'.procs[q])
    requires forall d, m | (d, m) in s'.net && (d, m) !in s.net :: GenuinePacket(s', d, m)
    requires forall k | |s.broadcasts| <= k < |s'.broadcasts| :: BroadcastShape(c, s'.broadcasts, k)
    ensures GenuineInv(c, s')
  {
    forall r | 0 <= r < c.n && r != q ensures Sources(s', r, s'.procs[r]) {
      SourcesStable(s, s', r, s.procs[r]);
    }
    forall d, m | (d, m) in s'.net ensures GenuinePacket(s', d, m) {
      if (d, m) in s.net {
        PacketStable(s, s', d, m);
      }
    }
    forall k | 0 <= k < |s'.broadcasts| ensures BroadcastShape(c, s'.broadcasts, k) {
      if k < |s.broadcasts| {
        assert BroadcastShape(c, s.broadcasts, k);
        assert s'.broadcasts[..k] == s.broadcasts[..k];
      }
    }
  }

  lemma BroadcastGenuine(c: Config, s: State, q: Pid)
    requires ValidConfig(c) && GenuineInv(c, s) && Enabled(c, s, BroadcastStep(q))
    ensures GenuineInv(c, Apply(c, s, BroadcastStep(q)))
  {
    var s' := Apply(c, s, BroadcastStep(q));
    var p := s.procs[q];
    StepGrows(c, s, BroadcastStep(q));
    SourcesStable(s, s', q, p);
    var id := MsgId(q, p.sent + 1);
    var m := Attached(p.lcb, q, p.sent + 1);
    if SendLcb(c, p, q).Continues? {
      forall r ensures From(s'.broadcasts, r) == From(s.broadcasts, r) + (if r == q then [m.clock] else []) {
        FromAppend(s.broadcasts, m, r);
      }
      assert s'.broadcasts[..|s.broadcasts|] == s.broadcasts;
      assert IsBroadcast(s', id) && MessageOf(s', id) == m;
      SourcesSendBeb(c, s', q, p, id);
      SourcesSetAck(c, s', q, SendBeb(c, p.(seen := p.seen + {id}), q, UrbMsg(m, id, Slot(id, q))), Slot(id, q));
    }
    Assemble(c, s, s', q);
  }

  lemma SourcesDequeue(s: State, q: Pid, p: Proc, t: nat)
    requires Sources(s, q, p) && p.queue != []
    ensures Sources(s, q, Dequeue(p, t))
  {
    assert p.queue[0] in p.queue;
  }

  lemma SourcesPoll(s: State, q: Pid, p: Proc, t: nat)
    requires Sources(s, q, p) && t in p.held
    ensures Sources(s, q, Poll(p, t))
  {
  }

  lemma SourcesAct(s: State, q: Pid, p: Proc, t: nat)
    requires Sources(s, q, p) && t in p.held
    ensures Sources(s, q, Act(p, t))
    ensures forall d, m | (d, m) in ActPackets(p, t) :: GenuinePacket(s, d, m)
  {
    assert GenuineTask(s, q, p.held[t].task);
  }

  /** A step that changes neither the history nor what counts as seen. */
  lemma QuietGenuine(c: Config, s: State, step: Step, p': Proc, packets: set<(Pid, Msg)>)
    requires GenuineInv(c, s) && Enabled(c, s, step) && Grows(s, Apply(c, s, step))
    requires Apply(c, s, step) == Put(s, step.p, p').(net := s.net + packets)
    requires p'.lcb == s.procs[step.p].lcb && p'.sent == s.procs[step.p].sent
    requires p'.ackEntries == s.procs[step.p].ackEntries
    requires Sources(Apply(c, s, step), step.p, p')
    requires forall d, m | (d, m) in packets :: GenuinePacket(Apply(c, s, step), d, m)
    ensures GenuineInv(c, Apply(c, s, step))
  {
    assert ShapeOf(c, s, step.p, s.procs[step.p]);
    Assemble(c, s, Apply(c, s, step), step.p);
  }

  lemma SenderGenuine(c: Config, s: State, step: Step)
    requires ValidConfig(c) && GenuineInv(c, s) && Enabled(c, s, step)
    requires step.DequeueStep? || step.PollStep? || step.ActStep? || step.CrashStep?
    ensures GenuineInv(c, Apply(c, s, step))
  {
    var s' := Apply(c, s, step);
    var p := s.procs[step.p];
    StepGrows(c, s, step);
    SourcesStable(s, s', step.p, p);
    match step
    case DequeueStep(_, t) =>
      SourcesDequeue(s', step.p, p, t);
      QuietGenuine(c, s, step, Dequeue(p, t), {});
    case PollStep(_, t) =>
      SourcesPoll(s', step.p, p, t);
      QuietGenuine(c, s, step, Poll(p, t), {});
    case ActStep(_, t) =>
      SourcesAct(s', step.p, p, t);
      QuietGenuine(c, s, step, Act(p, t), ActPackets(p, t));
    case CrashStep(_) =>
      QuietGenuine(c, s, step, p.(crashed := true), {});
  }

  /** deliver_urb fails on a message its sender could send exactly at first sight, and if the
      receiver's own slot is beyond the cap. */
  lemma DeliverUrbExitsIff(c: Config, p: Proc, q: Pid, msg: UrbMsg)
    requires Shaped(c.deps, p.lcb) && msg.lcb.origin < |c.deps| && q < c.n
    requires ValidId(c.n, msg.seenId) && msg.mid.id == msg.seenId && msg.mid.pid < c.n && SlotNum(c.n, msg.mid) <= 8192
    ensures DeliverUrb(c, p, q, msg).Exits? <==> msg.seenId !in p.seen && SlotNum(c.n, Slot(msg.seenId, q)) > 8192
  {
    NumbersNotNegative(c.n, msg.mid);
  }

  /** One iteration of send_lcb fails exactly if the number is beyond the cap. */
  lemma SendLcbExitsIff(c: Config, p: Proc, x: Pid)
    requires x < c.n
    ensures SendLcb(c, p, x).Exits? <==> SlotNum(c.n, Slot(MsgId(x, p.sent + 1), x)) > 8192
  {
    NumbersNotNegative(c.n, Slot(MsgId(x, p.sent + 1), x));
  }

  /** send_lcb goes on if the sender's number for the broadcast is within the cap. */
  lemma SendLcbGoesOn(c: Config, p: Proc, x: Pid)
    requires x < c.n && SlotNum(c.n, Slot(MsgId(x, p.sent + 1), x)) <= 8192
    ensures var o, i := SendLcb(c, p, x), p.sent + 1;
      && o.Continues? && o.proc.seen == p.seen + {MsgId(x, i)} && o.proc.urbAcks == p.urbAcks + {Slot(MsgId(x, i), x)}
      && o.proc.lcb == LogBroadcast(p.lcb, i) && o.proc.sent == i
      && o.proc.plAcks == p.plAcks && o.proc.held == p.held && o.proc.crashed == p.crashed
  {
    NumbersNotNegative(c.n, Slot(MsgId(x, p.sent + 1), x));
  }

  /** The ack sent for a data message is genuine: the delivery is recorded, or both the
      receiver and whoever gets the ack exit on its number. */
  lemma AckIsGenuine(c: Config, s: State, q: Pid, m: Msg)
    requires ValidConfig(c) && GenuineInv(c, s) && Enabled(c, s, ReceiveStep(q, m)) && m.Data?
    ensures GenuineAck(Apply(c, s, ReceiveStep(q, m)), m.sender, AckFor(m, q))
  {
    var p := s.procs[q];
    assert GenuinePacket(s, q, m);
    assert Sources(s, m.sender, s.procs[m.sender]);
    if m.mid !in p.plDelivered {
      var p0 := p.(plDelivered := p.plDelivered + {m.mid}, passed := p.passed + [m.mid]);
      if DeliverUrb(c, p0, q, m.urb).Exits? {
        DeliverUrbExitsIff(c, p0, q, m.urb);
      } else {
        DeliverUrbGrows(c, p0, q, m.urb);
      }
    }
  }

  lemma ReceiverGenuine(c: Config, s: State, q: Pid, m: Msg)
    requires ValidConfig(c) && GenuineInv(c, s) && Enabled(c, s, ReceiveStep(q, m))
    ensures var s' := Apply(c, s, ReceiveStep(q, m));
      ShapeOf(c, s', q, s'.procs[q]) && Sources(s', q, s'.procs[q])
  {
    var s', p := Apply(c, s, ReceiveStep(q, m)), s.procs[q];
    StepGrows(c, s, ReceiveStep(q, m));
    SourcesStable(s, s', q, p);
    assert GenuinePacket(s, q, m);
    if m.Data? && m.mid !in p.plDelivered && SlotNum(c.n, m.mid) <= 8192 {
      DataStable(s, s', q, m);
      var p0 := p.(plDelivered := p.plDelivered + {m.mid}, passed := p.passed + [m.mid]);
      SourcesDeliverUrb(c, s', q, p0, m.urb, m.sender);
      DeliverUrbGrows(c, p0, q, m.urb);
    }
  }

  lemma ReceiveGenuine(c: Config, s: State, q: Pid, m: Msg)
    requires ValidConfig(c) && GenuineInv(c, s) && Enabled(c, s, ReceiveStep(q, m))
    ensures GenuineInv(c, Apply(c, s, ReceiveStep(q, m)))
  {
    StepGrows(c, s, ReceiveStep(q, m));
    ReceiverGenuine(c, s, q, m);
    if m.Data? {
      AckIsGenuine(c, s, q, m);
    }
    Assemble(c, s, Apply(c, s, ReceiveStep(q, m)), q);
  }

  lemma InitGenuine(c: Config)
    requires ValidConfig(c)
    ensures GenuineInv(c, Protocol.Init(c))
  {
  }

  lemma StepGenuine(c: Config, s: State, step: Step)
    requires ValidConfig(c) && GenuineInv(c, s) && Enabled(c, s, step)
    ensures GenuineInv(c, Apply(c, s, step))
  {
    match step
    case BroadcastStep(q) => BroadcastGenuine(c, s, q);
    case ReceiveStep(q, m) => ReceiveGenuine(c, s, q, m);
    case _ => SenderGenuine(c, s, step);
  }
}
