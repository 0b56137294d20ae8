/** Every state of every run satisfies the whole invariant. */
module Runs {
  import opened Messages
  import opened SequenceNumbers
  import opened Protocol
  import opened Genuine
  import opened Links
  import opened UrbFacts
  import opened Logs

  /** All that safety rests on; it does not need the drain to be complete. */
  ghost predicate SafeInv(c: Config, s: State) {
    GenuineInv(c, s) && LinkInv(c, s) && UrbInv(c, s) && LogInv(c, s)
  }

  ghost predicate Inv(c: Config, s: State) {
    SafeInv(c, s) && DrainInv(c, s)
  }

  lemma StepSafe(c: Config, s: State, step: Step)
    requires ValidConfig(c) && SafeInv(c, s) && Enabled(c, s, step)
    ensures SafeInv(c, Apply(c, s, step))
  {
    StepGenuine(c, s, step);
    StepLink(c, s, step);
    StepUrb(c, s, step);
    StepLog(c, s, step);
  }

  lemma StepInv(c: Config, s: State, s': State)
    requires ValidConfig(c) && Inv(c, s) && Next(c, s, s')
    ensures Inv(c, s') && Grows(s, s')
  {
    var step :| Enabled(c, s, step) && s' == Apply(c, s, step);
    StepGrows(c, s, step);
    StepSafe(c, s, step);
    StepDrained(c, s, step);
  }

  lemma InitSafe(c: Config)
    requires ValidConfig(c)
    ensures SafeInv(c, Protocol.Init(c))
  {
    InitGenuine(c);
    InitLink(c);
    InitUrb(c);
    InitLog(c);
  }

  lemma {:induction false} RunInv(c: Config, run: seq<State>, i: nat, s: State)
    requires ValidConfig(c) && IsRun(c, run) && i < |run| && run[i] == s
    ensures Inv(c, s)
    decreases i
  {
    if i == 0 {
      InitSafe(c);
      InitDrained(c);
    } else {
      var before := run[i - 1];
      RunInv(c, run, i - 1, before);
      assert Follows(c, run, i);
      StepInv(c, before, s);
    }
  }

  lemma ReachableInv(c: Config, s: State)
    requires ValidConfig(c) && Reachable(c, s)
    ensures Inv(c, s)
  {
    var run :| IsRun(c, run) && run[|run| - 1] == s;
    RunInv(c, run, |run| - 1, s);
  }

  /** Every packet in the network can be handled: what a receiver relies on always holds. */
  lemma PacketsCanBeHandled(c: Config, s: State, q: Pid, m: Msg)
    requires ValidConfig(c) && Reachable(c, s) && (q, m) in s.net && q < |s.procs| && !s.procs[q].crashed
    ensures Enabled(c, s, ReceiveStep(q, m))
  {
    ReachableInv(c, s);
    assert GenuinePacket(s, q, m);
    if m.Data? {
      MessageNamesItself(c, s, m.urb.seenId);
    }
  }

  /** What a received data message brings along: the sender could send it, and if it was
      received before, the message was seen. */
  lemma ReceivedData(c: Config, s: State, q: Pid, m: Msg)
    requires ValidConfig(c) && Reachable(c, s) && (q, m) in s.net && m.Data? && q < |s.procs|
    ensures m.mid == Slot(m.urb.seenId, m.sender) == m.urb.mid && m.sender < c.n && q < c.n
    ensures IsBroadcast(s, m.urb.seenId) && ValidId(c.n, m.urb.seenId) && SlotNum(c.n, m.mid) <= 8192
    ensures m.mid in s.procs[q].plDelivered ==> m.urb.seenId in s.procs[q].seen
  {
    ReachableInv(c, s);
    assert GenuinePacket(s, q, m);
    assert Sources(s, m.sender, s.procs[m.sender]) && PassedOnce(s.procs[q]);
  }

  /** Receiving makes a process exit exactly if its own number for the message is beyond the
      cap and it is the first time it sees it, or the number acked is beyond the cap. */
  lemma ReceiveExitsIff(c: Config, s: State, q: Pid, m: Msg)
    requires ValidConfig(c) && Reachable(c, s) && Enabled(c, s, ReceiveStep(q, m))
    ensures Apply(c, s, ReceiveStep(q, m)).procs[q].crashed <==>
      if m.Ack? then SlotNum(c.n, m.ackid) > 8192
      else m.mid.id !in s.procs[q].seen && SlotNum(c.n, Slot(m.mid.id, q)) > 8192
  {
    if m.Data? {
      var p := s.procs[q];
      ReceivedData(c, s, q, m);
      DeliverUrbExitsIff(c, p.(plDelivered := p.plDelivered + {m.mid}, passed := p.passed + [m.mid]), q, m.urb);
    }
  }

  /** A data message with exactly the clock and origin attached at broadcast. */
  ghost predicate CarriesBroadcast(s: State, m: Msg) {
    m.Data? && IsBroadcast(s, m.urb.seenId) && m.urb.lcb == MessageOf(s, m.urb.seenId)
  }

  /** Process p delivered each broadcast at most once, only what was broadcast and with
      exactly the clock attached at broadcast, and every copy it holds for sending, in its
      queue or in a sender's hands, is exact too. */
  ghost predicate Integrity(s: State, p: Proc) {
    && Distinct(p.arrived)
    && (forall m | m in p.arrived :: IsBroadcast(s, m.Id()) && m == MessageOf(s, m.Id()) && m in s.broadcasts)
    && (forall id | id in p.urbDelivered :: IsBroadcast(s, id) && MessageOf(s, id) in p.arrived)
    && (forall task | task in p.queue :: CarriesBroadcast(s, task.msg))
    && (forall t | t in p.held :: CarriesBroadcast(s, p.held[t].task.msg))
  }

  /** URB integrity, at every process and on every wire. */
  lemma UrbIntegrity(c: Config, s: State)
    requires ValidConfig(c) && Reachable(c, s)
    ensures forall q | 0 <= q < |s.procs| :: Integrity(s, s.procs[q])
    ensures forall q, m | (q, m) in s.net && m.Data? :: CarriesBroadcast(s, m)
  {
    ReachableInv(c, s);
    SafeIntegrity(c, s);
  }

  lemma SafeIntegrity(c: Config, s: State)
    requires ValidConfig(c) && SafeInv(c, s)
    ensures forall q | 0 <= q < |s.procs| :: Integrity(s, s.procs[q])
    ensures forall q, m | (q, m) in s.net && m.Data? :: CarriesBroadcast(s, m)
  {
    forall q | 0 <= q < |s.procs| ensures Integrity(s, s.procs[q]) {
      assert Sources(s, q, s.procs[q]) && Arrivals(s, s.procs[q]);
      forall m | m in s.procs[q].arrived ensures m in s.broadcasts {
        MessageNamesItself(c, s, m.Id());
      }
      forall task | task in s.procs[q].queue ensures CarriesBroadcast(s, task.msg) {
        assert GenuineTask(s, q, task);
      }
      forall t | t in s.procs[q].held ensures CarriesBroadcast(s, s.procs[q].held[t].task.msg) {
        assert GenuineTask(s, q, s.procs[q].held[t].task);
      }
    }
    forall q, m | (q, m) in s.net && m.Data? ensures CarriesBroadcast(s, m) {
      assert GenuinePacket(s, q, m);
    }
  }

  /** Perfect links: for every message a process has seen and every other process, either
      the ack is recorded or exactly one task is in the queue or in a sender's hands. */
  lemma LinkConservation(c: Config, s: State, q: Pid, id: MsgId, d: Pid)
    requires ValidConfig(c) && Reachable(c, s) && q < |s.procs| && d < |s.procs| && d != q
    requires id in s.procs[q].seen
    ensures IsBroadcast(s, id)
    ensures var copies := Copies(s.procs[q], Task(d, TheData(s, q, id, d)));
      copies <= 1 && (Slot(id, d) !in s.procs[q].plAcks ==> copies == 1)
  {
    ReachableInv(c, s);
    assert Hands(s, q, s.procs[q]) && Carried(s, q, s.procs[q], id, d);
  }

  /** Perfect links: an ack is recorded only if the destination recorded the delivery,
      and no (message, relay) pair is passed up twice. */
  lemma LinkSoundness(c: Config, s: State, q: Pid)
    requires ValidConfig(c) && Reachable(c, s) && q < |s.procs|
    ensures forall x | x in s.procs[q].plAcks ::
      x.pid < |s.procs| && Slot(x.id, q) in s.procs[x.pid].plDelivered
    ensures forall i, j | 0 <= i < j < |s.procs[q].passed| :: s.procs[q].passed[i] != s.procs[q].passed[j]
    ensures forall x :: x in s.procs[q].passed <==> x in s.procs[q].plDelivered
  {
    ReachableInv(c, s);
    assert Sources(s, q, s.procs[q]) && PassedOnce(s.procs[q]);
  }
}
