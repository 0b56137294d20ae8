/** Second layer of the invariant: the perfect links lose no task and pass nothing up twice. */
module Links {
  import opened Messages
  import opened CausalDelivery
  import opened Protocol
  import opened Genuine

  ghost function HeldBy(p: Proc, task: Task): set<nat> {
    set t | t in p.held && p.held[t].task == task
  }

  /** How many times a task is in the queue or in a sender's hands. */
  ghost function Copies(p: Proc, task: Task): nat {
    multiset(p.queue)[task] + |HeldBy(p, task)|
  }

  /** p, being process q, still owes message id to d, or d has acked it. */
  ghost predicate Carried(s: State, q: Pid, p: Proc, id: MsgId, d: Pid)
    requires IsBroadcast(s, id)
  {
    Slot(id, d) in p.plAcks || Copies(p, Task(d, TheData(s, q, id, d))) == 1
  }

  ghost predicate Hands(s: State, q: Pid, p: Proc) {
    && (forall task: Task :: Copies(p, task) <= 1)
    && (forall id | id in p.seen :: IsBroadcast(s, id) && Slot(id, q) in p.urbAcks)
    && (forall id, d | id in p.seen && 0 <= d < |s.procs| && d != q :: Carried(s, q, p, id, d))
  }

  /** The link layer passed up exactly the pairs it recorded, each once, and what it
      passed up is seen and counted as an ack. */
  ghost predicate PassedOnce(p: Proc) {
    && (forall i, j | 0 <= i < j < |p.passed| :: p.passed[i] != p.passed[j])
    && (forall x :: x in p.passed <==> x in p.plDelivered)
    && (forall x | x in p.plDelivered :: x in p.urbAcks && x.id in p.seen)
  }

  ghost predicate LinkInv(c: Config, s: State) {
    forall q | 0 <= q < |s.procs| :: Hands(s, q, s.procs[q]) && PassedOnce(s.procs[q])
  }

  // ----- Counting copies -----

  lemma CountFirst(queue: seq<Task>, task: Task)
    requires queue != []
    ensures multiset(queue)[task] == (if queue[0] == task then 1 else 0) + multiset(queue[1..])[task]
  {
    assert queue == [queue[0]] + queue[1..];
  }

  lemma CountLast(queue: seq<Task>, last: Task, task: Task)
    ensures multiset(queue + [last])[task] == multiset(queue)[task] + (if last == task then 1 else 0)
  {
  }

  lemma DequeueCopies(p: Proc, t: nat, task: Task)
    requires p.queue != [] && t !in p.held
    ensures Copies(Dequeue(p, t), task) == Copies(p, task)
  {
    CountFirst(p.queue, task);
    HeldByInsert(p, Dequeue(p, t), t, p.queue[0], task);
  }

  lemma HeldByInsert(p: Proc, p': Proc, t: nat, x: Task, task: Task)
    requires t !in p.held && p'.held == p.held[t := Held(x, 0, false)]
    ensures |HeldBy(p', task)| == |HeldBy(p, task)| + (if x == task then 1 else 0)
  {
    if x == task {
      assert HeldBy(p', task) == HeldBy(p, task) + {t};
    } else {
      assert HeldBy(p', task) == HeldBy(p, task);
    }
  }

  lemma PollCopies(p: Proc, t: nat, task: Task)
    requires t in p.held
    ensures Copies(Poll(p, t), task) <= Copies(p, task)
    ensures task.msg.ackid !in p.plAcks ==> Copies(Poll(p, t), task) == Copies(p, task)
  {
    var p' := Poll(p, t);
    if p.held[t].task.msg.ackid in p.plAcks {
      assert HeldBy(p', task) == HeldBy(p, task) - {t};
      if p.held[t].task == task {
        assert t in HeldBy(p, task);
      }
    } else {
      assert HeldBy(p', task) == HeldBy(p, task);
    }
  }

  lemma ActCopies(p: Proc, t: nat, task: Task)
    requires t in p.held
    ensures Copies(Act(p, t), task) == Copies(p, task)
  {
    if p.held[t].tries >= THRESHOLD {
      CountLast(p.queue, p.held[t].task, task);
      assert HeldBy(Act(p, t), task) == HeldBy(p, task) - {t};
      assert p.held[t].task == task <==> t in HeldBy(p, task);
    } else {
      assert HeldBy(Act(p, t), task) == HeldBy(p, task);
    }
  }

  lemma {:induction false} BebTasksOnce(n: nat, msg: UrbMsg, self: Pid, i: Pid, task: Task)
    ensures multiset(BebTasks(n, msg, self, i))[task] <= 1
    ensures multiset(BebTasks(n, msg, self, i))[task] == 1 <==> task in BebTasks(n, msg, self, i)
    decreases n - i
  {
    if i < n {
      BebTasksOnce(n, msg, self, i + 1, task);
      BebTasksExactly(n, msg, self, i + 1);
    }
  }

  lemma SendBebCopies(c: Config, p: Proc, q: Pid, msg: UrbMsg, task: Task)
    ensures Copies(SendBeb(c, p, q, msg), task)
         == Copies(p, task) + (if task in BebTasks(c.n, msg, q, 0) then 1 else 0)
  {
    var p' := SendBeb(c, p, q, msg);
    assert HeldBy(p', task) == HeldBy(p, task);
    BebTasksOnce(c.n, msg, q, 0, task);
  }

  /** No task for a message that was not seen. */
  lemma UnseenNotCarried(s: State, q: Pid, p: Proc, task: Task)
    requires Sources(s, q, p) && task.msg.Data? && task.msg.urb.seenId !in p.seen
    requires q < |s.procs| && s.procs[q] == p
    ensures Copies(p, task) == 0
  {
    forall x | x in p.queue ensures x != task {
      assert GenuineTask(s, q, x);
    }
    forall t | t in p.held ensures p.held[t].task != task {
      assert GenuineTask(s, q, p.held[t].task);
    }
    assert HeldBy(p, task) == {};
    assert task !in p.queue;
  }

  // ----- Preservation -----

  lemma HandsStable(s: State, s': State, q: Pid, p: Proc, p': Proc)
    requires |s.procs| == |s'.procs| && s.broadcasts <= s'.broadcasts
    requires Hands(s, q, p) && p'.seen == p.seen && p.urbAcks <= p'.urbAcks && p.plAcks <= p'.plAcks
    requires forall task: Task :: Copies(p', task) <= Copies(p, task)
    requires forall task: Task :: task.msg.ackid !in p'.plAcks ==> Copies(p', task) == Copies(p, task)
    ensures Hands(s', q, p')
  {
    forall id | id in p'.seen ensures IsBroadcast(s', id) && Slot(id, q) in p'.urbAcks {
      MessageStable(s, s', id);
    }
    forall id, d | id in p'.seen && 0 <= d < |s'.procs| && d != q ensures Carried(s', q, p', id, d) {
      MessageStable(s, s', id);
      assert Carried(s, q, p, id, d);
    }
    forall task: Task ensures Copies(p', task) <= 1 {
      assert Copies(p, task) <= 1;
    }
  }

  /** Seeing a new message: one task for every other process, and no other change. */
  lemma HandsSendBeb(c: Config, s: State, s': State, q: Pid, p: Proc, id: MsgId, p': Proc)
    requires GenuineInv(c, s) && q < c.n && s.procs[q] == p && Hands(s, q, p)
    requires |s'.procs| == |s.procs| && s.broadcasts <= s'.broadcasts && IsBroadcast(s', id) && id !in p.seen
    requires var msg := UrbMsg(MessageOf(s', id), id, Slot(id, q));
      p'.queue == SendBeb(c, p, q, msg).queue && p'.held == p.held
    requires p'.seen == p.seen + {id} && p'.plAcks == p.plAcks
    requires p.urbAcks <= p'.urbAcks && Slot(id, q) in p'.urbAcks
    ensures Hands(s', q, p')
  {
    var msg := UrbMsg(MessageOf(s', id), id, Slot(id, q));
    BebTasksExactly(c.n, msg, q, 0);
    forall task: Task
      ensures Copies(p', task) == Copies(p, task) + (if task in BebTasks(c.n, msg, q, 0) then 1 else 0)
      ensures Copies(p', task) <= 1
    {
      SendBebCopies(c, p, q, msg, task);
      assert HeldBy(p', task) == HeldBy(SendBeb(c, p, q, msg), task);
      assert Copies(p, task) <= 1;
      if task in BebTasks(c.n, msg, q, 0) {
        UnseenNotCarried(s, q, p, task);
      }
    }
    forall i, d | i in p'.seen && 0 <= d < |s'.procs| && d != q
      ensures IsBroadcast(s', i) && Carried(s', q, p', i, d)
    {
      if i == id {
        assert BebTask(msg, q, d) in BebTasks(c.n, msg, q, 0);
        UnseenNotCarried(s, q, p, BebTask(msg, q, d));
      } else {
        MessageStable(s, s', i);
        assert Carried(s, q, p, i, d);
      }
    }
    forall i | i in p'.seen ensures IsBroadcast(s', i) {
      if i != id {
        MessageStable(s, s', i);
      }
    }
  }

  lemma LinkAssemble(c: Config, s: State, s': State, q: Pid)
    requires GenuineInv(c, s) && Grows(s, s') && LinkInv(c, s) && q < c.n
    requires forall r | 0 <= r < c.n && r != q :: s'.procs[r] == s.procs[r]
    requires Hands(s', q, s'.procs[q]) && PassedOnce(s'.procs[q])
    ensures LinkInv(c, s')
  {
    forall r | 0 <= r < c.n && r != q ensures Hands(s', r, s'.procs[r]) {
      HandsStable(s, s', r, s.procs[r], s.procs[r]);
    }
  }

  lemma BroadcastLink(c: Config, s: State, q: Pid)
    requires ValidConfig(c) && GenuineInv(c, s) && LinkInv(c, s) && Enabled(c, s, BroadcastStep(q))
    ensures LinkInv(c, Apply(c, s, BroadcastStep(q)))
  {
    var s', p := Apply(c, s, BroadcastStep(q)), s.procs[q];
    StepGrows(c, s, BroadcastStep(q));
    if SendLcb(c, p, q).Continues? {
      var id := MsgId(q, p.sent + 1);
      var m := Attached(p.lcb, q, p.sent + 1);
      FromAppend(s.broadcasts, m, q);
      assert MessageOf(s', id) == m;
      assert id !in p.seen;
      HandsSendBeb(c, s, s', q, p, id, s'.procs[q]);
    } else {
      HandsStable(s, s', q, p, s'.procs[q]);
    }
    LinkAssemble(c, s, s', q);
  }

  lemma SenderLink(c: Config, s: State, step: Step)
    requires ValidConfig(c) && GenuineInv(c, s) && LinkInv(c, s) && Enabled(c, s, step)
    requires step.DequeueStep? || step.PollStep? || step.ActStep? || step.CrashStep?
    ensures LinkInv(c, Apply(c, s, step))
  {
    var s', q := Apply(c, s, step), step.p;
    var p, p' := s.procs[q], s'.procs[q];
    StepGrows(c, s, step);
    forall task: Task
      ensures Copies(p', task) <= Copies(p, task)
      ensures task.msg.ackid !in p'.plAcks ==> Copies(p', task) == Copies(p, task)
    {
      match step
      case DequeueStep(_, t) => DequeueCopies(p, t, task);
      case PollStep(_, t) => PollCopies(p, t, task);
      case ActStep(_, t) => ActCopies(p, t, task);
      case CrashStep(_) => assert HeldBy(p', task) == HeldBy(p, task);
    }
    HandsStable(s, s', q, p, p');
    LinkAssemble(c, s, s', q);
  }

  lemma ReceiveAckLink(c: Config, s: State, q: Pid, m: Msg)
    requires ValidConfig(c) && GenuineInv(c, s) && LinkInv(c, s) && Enabled(c, s, ReceiveStep(q, m)) && m.Ack?
    ensures LinkInv(c, Apply(c, s, ReceiveStep(q, m)))
  {
    var s', p := Apply(c, s, ReceiveStep(q, m)), s.procs[q];
    var p' := s'.procs[q];
    StepGrows(c, s, ReceiveStep(q, m));
    forall task: Task ensures Copies(p', task) == Copies(p, task) {
      assert HeldBy(p', task) == HeldBy(p, task);
    }
    HandsStable(s, s', q, p, p');
    LinkAssemble(c, s, s', q);
  }

  /** What a successful DeliverUrb does to the fields of this layer. */
  lemma DeliverUrbLink(c: Config, p: Proc, q: Pid, msg: UrbMsg)
    requires Shaped(c.deps, p.lcb) && msg.lcb.origin < |c.deps|
    requires DeliverUrb(c, p, q, msg).Continues?
    ensures var p' := DeliverUrb(c, p, q, msg).proc;
      && p'.seen == p.seen + {msg.seenId} && p'.held == p.held && p'.plAcks == p.plAcks
      && p'.plDelivered == p.plDelivered && p'.passed == p.passed
      && p.urbAcks + {msg.mid} <= p'.urbAcks
      && (if msg.seenId in p.seen then p'.queue == p.queue
          else p'.queue == SendBeb(c, p, q, msg.(mid := Slot(msg.seenId, q))).queue
               && Slot(msg.seenId, q) in p'.urbAcks)
  {
  }

  lemma ReceiveDataLink(c: Config, s: State, q: Pid, m: Msg)
    requires ValidConfig(c) && GenuineInv(c, s) && LinkInv(c, s) && Enabled(c, s, ReceiveStep(q, m)) && m.Data?
    ensures LinkInv(c, Apply(c, s, ReceiveStep(q, m)))
  {
    var s', p := Apply(c, s, ReceiveStep(q, m)), s.procs[q];
    var p' := s'.procs[q];
    StepGrows(c, s, ReceiveStep(q, m));
    assert GenuinePacket(s, q, m);
    var id := m.urb.seenId;
    var p0 := p.(plDelivered := p.plDelivered + {m.mid}, passed := p.passed + [m.mid]);
    if m.mid in p.plDelivered || DeliverData(c, p, q, m).Exits? {
      forall task: Task ensures Copies(p', task) == Copies(p, task) {
        assert HeldBy(p', task) == HeldBy(p, task);
      }
      HandsStable(s, s', q, p, p');
    } else {
      DeliverUrbLink(c, p0, q, m.urb);
      MessageStable(s, s', id);
      if id in p.seen {
        forall task: Task ensures Copies(p', task) == Copies(p, task) {
          assert HeldBy(p', task) == HeldBy(p, task);
        }
        HandsStable(s, s', q, p, p');
      } else {
        HandsSendBeb(c, s, s', q, p, id, p');
      }
    }
    LinkAssemble(c, s, s', q);
  }

  lemma StepLink(c: Config, s: State, step: Step)
    requires ValidConfig(c) && GenuineInv(c, s) && LinkInv(c, s) && Enabled(c, s, step)
    ensures LinkInv(c, Apply(c, s, step))
  {
    match step
    case BroadcastStep(q) => BroadcastLink(c, s, q);
    case ReceiveStep(q, m) =>
      if m.Ack? { ReceiveAckLink(c, s, q, m); } else { ReceiveDataLink(c, s, q, m); }
    case _ => SenderLink(c, s, step);
  }

  lemma InitLink(c: Config)
    requires ValidConfig(c)
    ensures LinkInv(c, Protocol.Init(c))
  {
    var p := InitProc(c);
    forall task: Task ensures Copies(p, task) == 0 {
      assert HeldBy(p, task) == {};
    }
  }
}
