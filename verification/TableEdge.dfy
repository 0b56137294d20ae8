/** can_deliver refuses the row that ends exactly at the end of the ack table, and never
    looks at a process's own broadcast again. Which messages that costs, and how the
    tables grow. */
module TableEdge {
  import opened Messages
  import opened CausalDelivery
  import opened Protocol
  import opened Genuine
  import opened Links
  import opened UrbFacts
  import opened Logs
  import opened Runs
  import opened Agreement
  import opened CausalOrder

  ghost predicate ShortRun(c: Config, s: State) {
    forall o | 0 <= o < c.n :: |From(s.broadcasts, o)| <= 150
  }

  /** Deliveries had rows inside the table of the time, a lone process has none, and the
      table never grows while everybody has broadcast at most 150 messages. */
  ghost predicate EdgeOf(c: Config, s: State, p: Proc) {
    && (forall id | id in p.urbDelivered :: RowFits(c.n, p.ackEntries, id))
    && (c.n == 1 ==> p.urbDelivered == {})
    && (ShortRun(c, s) ==> p.ackEntries == 150 * c.n * c.n)
  }

  ghost predicate EdgeInv(c: Config, s: State) {
    forall q | 0 <= q < |s.procs| :: EdgeOf(c, s, s.procs[q])
  }

  // ----- Arithmetic of the last row -----

  /** Slots of the first 150 broadcasts of each process lie inside the
      initial table. */
  lemma SlotInside(n: nat, x: Slot)
    requires ValidId(n, x.id) && x.pid < n && x.id.seqNum <= 150
    ensures 0 <= SlotNum(n, x) < 150 * n * n
  {
    var last := 150 * n - 1;
    MulLe(n, x.id.seqNum - 1, 149);
    MulLe(n, 0, x.id.seqNum - 1);
    assert 0 <= SeenNum(n, x.id) <= last;
    MulLe(n, SeenNum(n, x.id), last);
    MulLe(n, 0, SeenNum(n, x.id));
    assert n * last == n * (150 * n) - n;
    assert n * (150 * n) == 150 * n * n;
  }

  /** Among those broadcasts, exactly one has a last row: the last message of the last
      process. */
  lemma OnlyLastRowRefused(c: Config, id: MsgId)
    requires ValidConfig(c) && ValidId(c.n, id) && id.seqNum <= 150
    ensures LastRow(c, id) <==> id == MsgId(c.n - 1, 150)
  {
    var n, row := c.n, SeenNum(c.n, id) + 1;
    assert Rows(n, 0) == 150 * n == n * 150;
    MulLe(n, id.seqNum - 1, 149);
    assert row <= Rows(n, 0);
    if LastRow(c, id) {
      var k: nat :| row == Rows(n, k);
      if k > 0 {
        RowsPositive(n, k - 1);
      }
      assert k == 0;
      DivModUnique(n, id.seqNum - 1, 149, id.origin, n - 1);
    } else {
      assert row != Rows(n, 0);
    }
  }

  lemma FarRow(n: nat, k: nat, row: int, r: nat)
    requires n >= 8 && row + 1 == Rows(n, k)
    ensures n * row + r > 8192
  {
    RowsPositive(n, k);
    MulLe(n, 150 * 8 - 1, row);
  }

  lemma SeenWithinCap(c: Config, s: State, q: Pid, id: MsgId)
    requires ValidConfig(c) && Reachable(c, s) && q < |s.procs| && id in s.procs[q].seen
    ensures SlotNum(c.n, Slot(id, q)) <= 8192
  {
    ReachableInv(c, s);
    assert Sources(s, q, s.procs[q]);
  }

  /** With eight processes or more, a message with a last row has ids beyond the cap of
      the table, so nobody has ever seen one. */
  lemma NoLastRowFromEight(c: Config, s: State, q: Pid, id: MsgId)
    requires ValidConfig(c) && Reachable(c, s) && c.n >= 8 && q < |s.procs| && id in s.procs[q].seen
    ensures !LastRow(c, id)
  {
    SeenWithinCap(c, s, q, id);
    if LastRow(c, id) {
      var k: nat :| SeenNum(c.n, id) + 1 == Rows(c.n, k);
      FarRow(c.n, k, SeenNum(c.n, id), q);
      assert false;
    }
  }

  /** So the theorems about quiescent states hold of such systems without exception. */
  lemma NoLastRowsFromEight(c: Config, s: State)
    requires ValidConfig(c) && Reachable(c, s) && c.n >= 8
    ensures NoLastRow(c, s)
  {
    ReachableInv(c, s);
    forall id | IsBroadcast(s, id) ensures !LastRow(c, id) {
      MessageNamesItself(c, s, id);
      assert ShapeOf(c, s, id.origin, s.procs[id.origin]) && LogOf(c, s, id.origin, s.procs[id.origin]);
      NoLastRowFromEight(c, s, id.origin, id);
    }
  }

  // ----- Preservation -----

  lemma GrownKeeps(c: Config, p: Proc, x: Slot)
    requires ValidId(c.n, x.id) && x.pid < c.n && x.id.seqNum <= 150
    requires p.ackEntries == 150 * c.n * c.n
    ensures SetAckUrb(c, p, x).ackEntries == p.ackEntries
  {
    SlotInside(c.n, x);
  }

  lemma DeliverUrbEdge(c: Config, s: State, p: Proc, q: Pid, msg: UrbMsg)
    requires ValidConfig(c) && Shaped(c.deps, p.lcb) && msg.lcb.origin < |c.deps| && q < c.n && c.n > 1
    requires ValidId(c.n, msg.seenId) && msg.mid.id == msg.seenId && msg.mid.pid < c.n
    requires EdgeOf(c, s, p) && (ShortRun(c, s) ==> msg.seenId.seqNum <= 150)
    ensures EdgeOf(c, s, Settle(p, DeliverUrb(c, p, q, msg)))
  {
    if DeliverUrb(c, p, q, msg).Continues? {
      if ShortRun(c, s) {
        GrownKeeps(c, p, msg.mid);
        GrownKeeps(c, SetAckUrb(c, p, msg.mid), Slot(msg.seenId, q));
      }
      var p' := DeliverUrb(c, p, q, msg).proc;
      DeliverUrbAcks(c, p, q, msg);
      forall id | id in p'.urbDelivered ensures RowFits(c.n, p'.ackEntries, id) {
        assert id in p.urbDelivered ==> RowFits(c.n, p.ackEntries, id);
      }
    }
  }

  lemma EdgeStable(c: Config, s: State, s': State, p: Proc)
    requires EdgeOf(c, s, p) && s.broadcasts <= s'.broadcasts
    ensures EdgeOf(c, s', p)
  {
    forall o | 0 <= o < c.n ensures |From(s.broadcasts, o)| <= |From(s'.broadcasts, o)| {
      FromPrefix(s.broadcasts, s'.broadcasts, o);
    }
    if ShortRun(c, s') {
      assert ShortRun(c, s);
    }
  }

  lemma BroadcastEdge(c: Config, s: State, q: Pid)
    requires ValidConfig(c) && Inv(c, s) && EdgeInv(c, s) && Enabled(c, s, BroadcastStep(q))
    ensures EdgeOf(c, Apply(c, s, BroadcastStep(q)), Apply(c, s, BroadcastStep(q)).procs[q])
  {
    var s', p := Apply(c, s, BroadcastStep(q)), s.procs[q];
    var p', x := s'.procs[q], Slot(MsgId(q, p.sent + 1), q);
    StepGrows(c, s, BroadcastStep(q));
    EdgeStable(c, s, s', p);
    assert ShapeOf(c, s, q, p);
    if SendLcb(c, p, q).Continues? {
      FromAppend(s.broadcasts, Attached(p.lcb, q, p.sent + 1), q);
      if ShortRun(c, s') {
        assert |From(s'.broadcasts, q)| <= 150;
        GrownKeeps(c, p, x);
      }
      assert p'.ackEntries == SetAckUrb(c, p, x).ackEntries >= p.ackEntries;
      forall id | id in p'.urbDelivered ensures RowFits(c.n, p'.ackEntries, id) {
        assert RowFits(c.n, p.ackEntries, id);
      }
    }
  }

  lemma ReceiveEdge(c: Config, s: State, q: Pid, m: Msg)
    requires ValidConfig(c) && Inv(c, s) && EdgeInv(c, s) && Enabled(c, s, ReceiveStep(q, m)) && m.Data?
    ensures EdgeOf(c, Apply(c, s, ReceiveStep(q, m)), Apply(c, s, ReceiveStep(q, m)).procs[q])
  {
    var p := s.procs[q];
    assert GenuinePacket(s, q, m);
    var id := m.urb.seenId;
    MessageNamesItself(c, s, id);
    assert ShortRun(c, s) ==> |From(s.broadcasts, id.origin)| <= 150;
    var p0 := p.(plDelivered := p.plDelivered + {m.mid}, passed := p.passed + [m.mid]);
    DeliverUrbEdge(c, s, p0, q, m.urb);
  }

  lemma StepEdge(c: Config, s: State, step: Step)
    requires ValidConfig(c) && Inv(c, s) && EdgeInv(c, s) && Enabled(c, s, step)
    ensures EdgeInv(c, Apply(c, s, step))
  {
    var s', q := Apply(c, s, step), step.p;
    StepGrows(c, s, step);
    forall r | 0 <= r < |s'.procs| ensures EdgeOf(c, s', s'.procs[r]) {
      if r == q {
        MoverEdge(c, s, step);
      } else {
        EdgeStable(c, s, s', s.procs[r]);
      }
    }
  }

  lemma MoverEdge(c: Config, s: State, step: Step)
    requires ValidConfig(c) && Inv(c, s) && EdgeInv(c, s) && Enabled(c, s, step)
    ensures EdgeOf(c, Apply(c, s, step), Apply(c, s, step).procs[step.p])
  {
    var s' := Apply(c, s, step);
    StepGrows(c, s, step);
    EdgeStable(c, s, s', s.procs[step.p]);
    match step
    case BroadcastStep(q) => BroadcastEdge(c, s, q);
    case ReceiveStep(q, m) => if m.Data? { ReceiveEdge(c, s, q, m); }
    case _ =>
  }

  lemma NextEdge(c: Config, s: State, s': State)
    requires ValidConfig(c) && Inv(c, s) && EdgeInv(c, s) && Next(c, s, s')
    ensures EdgeInv(c, s')
  {
    var step :| Enabled(c, s, step) && s' == Apply(c, s, step);
    StepEdge(c, s, step);
  }

  lemma InitEdge(c: Config)
    requires ValidConfig(c)
    ensures EdgeInv(c, Protocol.Init(c))
  {
  }

  lemma {:induction false} RunEdge(c: Config, run: seq<State>, i: nat, s: State)
    requires ValidConfig(c) && IsRun(c, run) && i < |run| && run[i] == s
    ensures EdgeInv(c, s)
    decreases i
  {
    if i == 0 {
      InitEdge(c);
    } else {
      var before := run[i - 1];
      RunInv(c, run, i - 1, before);
      RunEdge(c, run, i - 1, before);
      assert Follows(c, run, i);
      NextEdge(c, before, s);
    }
  }

  lemma ReachableEdge(c: Config, s: State)
    requires ValidConfig(c) && Reachable(c, s)
    ensures EdgeInv(c, s)
  {
    var run :| IsRun(c, run) && run[|run| - 1] == s;
    RunEdge(c, run, |run| - 1, s);
  }

  // ----- What it costs -----

  /** A system of one process never delivers anything, not even its own messages. */
  lemma LoneProcessDeliversNothing(c: Config, s: State, q: Pid)
    requires ValidConfig(c) && Reachable(c, s) && c.n == 1 && q < |s.procs|
    ensures s.procs[q].urbDelivered == {} && s.procs[q].arrived == []
  {
    var p := s.procs[q];
    ReachableEdge(c, s);
    assert EdgeOf(c, s, p);
    assert Arrivals(s, p) by { ReachableInv(c, s); }
    assert multiset(p.arrived) == multiset{} by {
      forall m ensures m !in multiset(p.arrived) {
        assert m in p.arrived ==> m.Id() in p.urbDelivered;
      }
    }
    assert |p.arrived| == |multiset(p.arrived)|;
  }

  /** In a quiescent state with a live majority, a message seen by a live process is
      delivered by a live process if and only if its row is at no size of the table the
      last one; where the table has grown past a row that was once its last, it depends
      on whether a packet for the message came after that. */
  lemma DeliveredIffNotLastRow(c: Config, s: State, r: Pid, id: MsgId, d: Pid)
    requires ValidConfig(c) && Reachable(c, s) && Quiescent(s) && c.n >= 2
    requires c.n - |Crashed(s)| > c.n / 2
    requires Live(s, r) && id in s.procs[r].seen && Live(s, d)
    requires !(LastRow(c, id) && RowFits(c.n, s.procs[d].ackEntries, id))
    ensures id in s.procs[d].urbDelivered <==> !LastRow(c, id)
  {
    ReachableEdge(c, s);
    assert EdgeOf(c, s, s.procs[d]);
    if !LastRow(c, id) {
      QuiescentDelivery(c, s, r, id, d);
    }
  }

  lemma InitialLastRow(c: Config, id: MsgId, entries: nat)
    requires ValidConfig(c) && ValidId(c.n, id) && id.seqNum <= 150 && LastRow(c, id)
    requires entries == 150 * c.n * c.n
    ensures !RowFits(c.n, entries, id)
  {
    OnlyLastRowRefused(c, id);
    var row := SeenNum(c.n, id);
    assert row + 1 == 150 * c.n;
    assert c.n * row + c.n == c.n * (row + 1) == c.n * (150 * c.n) == 150 * c.n * c.n;
  }

  lemma ShortRunFacts(c: Config, s: State, r: Pid, id: MsgId, d: Pid)
    requires ValidConfig(c) && Reachable(c, s) && ShortRun(c, s) && r < |s.procs| && d < |s.procs|
    requires id in s.procs[r].seen
    ensures ValidId(c.n, id) && id.seqNum <= 150
    ensures s.procs[d].ackEntries == 150 * c.n * c.n
  {
    ReachableInv(c, s);
    ReachableEdge(c, s);
    assert Sources(s, r, s.procs[r]) && EdgeOf(c, s, s.procs[d]);
    assert |From(s.broadcasts, id.origin)| <= 150;
  }

  /** While everybody has broadcast at most 150 messages, the one message not
      delivered is the last one of the last process. */
  lemma ShortRunDelivery(c: Config, s: State, r: Pid, id: MsgId, d: Pid)
    requires ValidConfig(c) && Reachable(c, s) && Quiescent(s) && c.n >= 2 && ShortRun(c, s)
    requires c.n - |Crashed(s)| > c.n / 2
    requires Live(s, r) && id in s.procs[r].seen && Live(s, d)
    ensures id in s.procs[d].urbDelivered <==> id != MsgId(c.n - 1, 150)
  {
    ShortRunFacts(c, s, r, id, d);
    OnlyLastRowRefused(c, id);
    if LastRow(c, id) {
      InitialLastRow(c, id, s.procs[d].ackEntries);
    }
    DeliveredIffNotLastRow(c, s, r, id, d);
  }

  // ----- Refused for good, or not at all -----

  /** d has not delivered id, and has recorded a packet for it from everybody else. */
  ghost predicate Missed(s: State, d: Pid, id: MsgId) {
    && d < |s.procs| && id in s.procs[d].seen && id !in s.procs[d].urbDelivered
    && forall e: Pid | e < |s.procs| && e != d :: Slot(id, e) in s.procs[d].plDelivered
  }

  /** Then d never looks at id again, whatever happens and however its table grows. */
  lemma StepMissed(c: Config, s: State, step: Step, d: Pid, id: MsgId)
    requires ValidConfig(c) && Inv(c, s) && Enabled(c, s, step) && Missed(s, d, id)
    ensures Missed(Apply(c, s, step), d, id)
  {
    var s', p := Apply(c, s, step), s.procs[d];
    StepGrows(c, s, step);
    assert ProcGrows(p, s'.procs[d]);
    if step.p == d && step.ReceiveStep? && step.m.Data? && step.m.mid !in p.plDelivered {
      NewPacketElsewhere(c, s, step.m, d, id);
    }
  }

  lemma NewPacketElsewhere(c: Config, s: State, m: Msg, d: Pid, id: MsgId)
    requires ValidConfig(c) && Inv(c, s) && Enabled(c, s, ReceiveStep(d, m)) && Missed(s, d, id)
    requires m.Data? && m.mid !in s.procs[d].plDelivered
    ensures id !in Apply(c, s, ReceiveStep(d, m)).procs[d].urbDelivered
  {
    var p := s.procs[d];
    assert GenuinePacket(s, d, m);
    assert m.urb.seenId != id;
    var p0 := p.(plDelivered := p.plDelivered + {m.mid}, passed := p.passed + [m.mid]);
    if DeliverUrb(c, p0, d, m.urb).Continues? {
      DeliverUrbAcks(c, p0, d, m.urb);
    }
  }

  lemma {:induction false} MissedForever(c: Config, run: seq<State>, i: nat, j: nat, s: State, d: Pid, id: MsgId)
    requires ValidConfig(c) && IsRun(c, run) && i <= j < |run| && run[j] == s && Missed(run[i], d, id)
    ensures Missed(s, d, id)
    decreases j
  {
    if i < j {
      var before := run[j - 1];
      MissedForever(c, run, i, j - 1, before, d, id);
      RunInv(c, run, j - 1, before);
      assert Follows(c, run, j);
      var step :| Enabled(c, before, step) && s == Apply(c, before, step);
      StepMissed(c, before, step, d, id);
    }
  }

  /** d's table reaches past the row of id before a majority for it is complete. */
  ghost predicate InTime(c: Config, s: State, d: Pid, id: MsgId) {
    && d < |s.procs| && IsBroadcast(s, id) && RowFits(c.n, s.procs[d].ackEntries, id)
    && (Majority(c, s.procs[d].urbAcks, id) ==> id in s.procs[d].urbDelivered)
  }

  /** Then d delivers id with its majority, though the row was the last one once. */
  lemma StepInTime(c: Config, s: State, step: Step, d: Pid, id: MsgId)
    requires ValidConfig(c) && Inv(c, s) && Enabled(c, s, step) && InTime(c, s, d, id)
    ensures InTime(c, Apply(c, s, step), d, id)
  {
    var s' := Apply(c, s, step);
    StepGrows(c, s, step);
    MessageStable(s, s', id);
    assert ProcGrows(s.procs[d], s'.procs[d]);
    if step.p == d {
      MoverInTime(c, s, step, d, id);
    }
  }

  lemma MoverInTime(c: Config, s: State, step: Step, d: Pid, id: MsgId)
    requires ValidConfig(c) && Inv(c, s) && Enabled(c, s, step) && InTime(c, s, d, id) && step.p == d
    ensures var p' := Apply(c, s, step).procs[d]; Majority(c, p'.urbAcks, id) ==> id in p'.urbDelivered
  {
    if step.BroadcastStep? {
      BroadcastElsewhere(c, s, d, id);
    } else if step.ReceiveStep? && step.m.Data? && step.m.mid !in s.procs[d].plDelivered {
      HandledInTime(c, s, step.m, d, id);
    } else {
      SameUrbTables(c, s, step);
    }
  }

  lemma SameUrbTables(c: Config, s: State, step: Step)
    requires Enabled(c, s, step) && !step.BroadcastStep?
    requires step.ReceiveStep? && step.m.Data? ==> step.m.mid in s.procs[step.p].plDelivered
    ensures var p, p' := s.procs[step.p], Apply(c, s, step).procs[step.p];
      p'.urbAcks == p.urbAcks && p'.urbDelivered == p.urbDelivered
  {
  }

  lemma {:induction false} StaysInTime(c: Config, run: seq<State>, i: nat, j: nat, s: State, d: Pid, id: MsgId)
    requires ValidConfig(c) && IsRun(c, run) && i <= j < |run| && run[j] == s && InTime(c, run[i], d, id)
    ensures InTime(c, s, d, id)
    decreases j
  {
    if i < j {
      var before := run[j - 1];
      StaysInTime(c, run, i, j - 1, before, d, id);
      RunInv(c, run, j - 1, before);
      assert Follows(c, run, j);
      var step :| Enabled(c, before, step) && s == Apply(c, before, step);
      StepInTime(c, before, step, d, id);
    }
  }

  lemma BroadcastElsewhere(c: Config, s: State, d: Pid, id: MsgId)
    requires ValidConfig(c) && Inv(c, s) && Enabled(c, s, BroadcastStep(d)) && IsBroadcast(s, id)
    ensures var p, p' := s.procs[d], Apply(c, s, BroadcastStep(d)).procs[d];
      Majority(c, p'.urbAcks, id) == Majority(c, p.urbAcks, id) && p'.urbDelivered == p.urbDelivered
  {
    var p, p' := s.procs[d], Apply(c, s, BroadcastStep(d)).procs[d];
    assert ShapeOf(c, s, d, p);
    assert MsgId(d, p.sent + 1) != id;
    OtherAckersSame(c.n, p.urbAcks, p'.urbAcks, id);
  }

  lemma HandledInTime(c: Config, s: State, m: Msg, d: Pid, id: MsgId)
    requires ValidConfig(c) && Inv(c, s) && Enabled(c, s, ReceiveStep(d, m)) && InTime(c, s, d, id)
    requires m.Data? && m.mid !in s.procs[d].plDelivered
    ensures var p' := Apply(c, s, ReceiveStep(d, m)).procs[d];
      Majority(c, p'.urbAcks, id) ==> id in p'.urbDelivered
  {
    var p, p' := s.procs[d], Apply(c, s, ReceiveStep(d, m)).procs[d];
    assert GenuinePacket(s, d, m);
    var p0 := p.(plDelivered := p.plDelivered + {m.mid}, passed := p.passed + [m.mid]);
    if DeliverData(c, p, d, m).Continues? {
      DeliverUrbAcks(c, p0, d, m.urb);
      if m.urb.seenId != id {
        OtherAckersSame(c.n, p.urbAcks, p'.urbAcks, id);
      }
    }
  }

  // ----- Growth -----

  /** The ack table never has more entries than it started with or twice the cap. */
  lemma AckTableBounded(c: Config, s: State, q: Pid)
    requires ValidConfig(c) && Reachable(c, s) && q < |s.procs|
    ensures var e := s.procs[q].ackEntries; e == 150 * c.n * c.n || e <= 16384
  {
    ReachableInv(c, s);
    assert AckTable(c, s.procs[q]);
  }

  /** While everybody has broadcast at most 150 messages, every entry set in a
      table of any layer lies inside the table every process starts with: none grows. */
  lemma ShortRunTables(c: Config, s: State, q: Pid)
    requires ValidConfig(c) && Reachable(c, s) && ShortRun(c, s) && q < |s.procs|
    ensures forall x | x in s.procs[q].plAcks + s.procs[q].plDelivered + s.procs[q].urbAcks ::
      0 <= SlotNum(c.n, x) < 150 * c.n * c.n
    ensures forall id | id in s.procs[q].seen + s.procs[q].urbDelivered ::
      0 <= SeenNum(c.n, id) < 150 * c.n
  {
    forall x | x in s.procs[q].plAcks + s.procs[q].plDelivered + s.procs[q].urbAcks
      ensures 0 <= SlotNum(c.n, x) < 150 * c.n * c.n
    {
      SlotIsBroadcast(c, s, q, x);
      assert |From(s.broadcasts, x.id.origin)| <= 150;
      SlotInside(c.n, x);
    }
    forall id | id in s.procs[q].seen + s.procs[q].urbDelivered
      ensures 0 <= SeenNum(c.n, id) < 150 * c.n
    {
      SeenIsBroadcast(c, s, q, id);
      assert |From(s.broadcasts, id.origin)| <= 150;
      MulLe(c.n, id.seqNum - 1, 149);
      MulLe(c.n, 0, id.seqNum - 1);
    }
  }

  lemma SeenIsBroadcast(c: Config, s: State, q: Pid, id: MsgId)
    requires ValidConfig(c) && Reachable(c, s) && q < |s.procs| && id in s.procs[q].seen + s.procs[q].urbDelivered
    ensures id.origin < c.n && IsBroadcast(s, id)
  {
    ReachableInv(c, s);
    assert Sources(s, q, s.procs[q]) && Quorums(c, s.procs[q]);
  }

  lemma SlotIsBroadcast(c: Config, s: State, q: Pid, x: Slot)
    requires ValidConfig(c) && Reachable(c, s) && q < |s.procs|
    requires x in s.procs[q].plAcks + s.procs[q].plDelivered + s.procs[q].urbAcks
    ensures x.pid < c.n && x.id.origin < c.n && IsBroadcast(s, x.id)
  {
    assert |s.procs| == c.n && x.pid < c.n && (x.id in s.procs[x.pid].seen) by {
      ReachableInv(c, s);
      assert Sources(s, q, s.procs[q]) && PassedOnce(s.procs[q]) && PassedOnce(s.procs[x.pid]);
    }
    SeenIsBroadcast(c, s, x.pid, x.id);
  }
}
