/** The whole stack as a transition system: N processes, each a perfect-link layer,
    best-effort and uniform reliable broadcast and the causal layer, over a network
    that may lose, duplicate and reorder anything ever sent.

    One iteration of send_lcb and the handling of one received message are atomic; the
    sender threads interleave at each access to the shared tables and queue. */
module Protocol {
  import opened Messages
  import opened CausalDelivery

  /** MAX_SIZE and MAX_SIZE_URB: the largest table index that may be written. */
  const MAX_SIZE := 8192
  /** Sends of one task before it goes back to the queue. */
  const THRESHOLD := 10
  const NUM_SENDER_THREADS := 10
  const ORIG_TABLE_SIZE := 150

  // The theorems state these as numbers.

  // ----- Messages and state -----

  datatype UrbMsg = UrbMsg(lcb: LcbMsg, seenId: MsgId, mid: Slot)

  datatype Msg =
    | Data(mid: Slot, ackid: Slot, sender: Pid, urb: UrbMsg)
    | Ack(mid: Slot, ackid: Slot, sender: Pid)

  datatype Task = Task(dest: Pid, msg: Msg)

  /** A task in a sender thread's hands: how often it was sent since it was dequeued,
      and whether the last look at the ack table found no ack. */
  datatype Held = Held(task: Task, tries: nat, unacked: bool)

  datatype Proc = Proc(
    seen: set<MsgId>,          // urb_table, seen
    urbDelivered: set<MsgId>,  // urb_table, delivered
    urbAcks: set<Slot>,        // urbacks
    ackEntries: nat,           // urbacks->table.total_entries
    plAcks: set<Slot>,         // pl_acks
    plDelivered: set<Slot>,    // pl_delivered
    queue: seq<Task>,          // task_q
    held: map<nat, Held>,      // tasks dequeued by sender threads
    lcb: Lcb,                  // vector_clock, lcb_pending, logdata
    sent: nat,                 // iterations of send_lcb completed
    crashed: bool,
    passed: seq<Slot>,         // history: (message, relay) pairs passed up by the link layer
    arrived: seq<LcbMsg>       // history: messages passed up to the causal layer
  )

  datatype Config = Config(n: nat, deps: Deps)

  ghost predicate ValidConfig(c: Config) {
    1 <= c.n == |c.deps| && ValidDeps(c.deps)
  }

  /** broadcasts is history: every message broadcast so far, in the order of broadcast. */
  datatype State = State(procs: seq<Proc>, net: set<(Pid, Msg)>, broadcasts: seq<LcbMsg>)

  function InitProc(c: Config): Proc {
    Proc({}, {}, {}, ORIG_TABLE_SIZE * c.n * c.n, {}, {}, [], map[], CausalDelivery.Init(c.n), 0, false, [], [])
  }

  function Init(c: Config): State {
    State(seq(c.n, _ => InitProc(c)), {}, [])
  }

  // ----- Handlers -----

  /** What a handler does to its process: go on, or return an error that makes the
      process exit. */
  datatype Outcome = Continues(proc: Proc) | Exits

  /** The doubling loop of table_write_entry. */
  function GrowTo(entries: nat, i: nat): (r: nat)
    requires 0 < entries
    ensures i < r && entries <= r
    decreases if i < entries then 0 else i - entries + 1
  {
    if i < entries then entries else GrowTo(entries * 2, i)
  }

  /** A table grows only if it must, and then to no more than twice the index: a write
      leaves it with the entries it had or no more than twice the cap. */
  lemma {:induction false} GrowthBounded(entries: nat, i: nat)
    requires 0 < entries
    ensures i < entries ==> GrowTo(entries, i) == entries
    ensures entries <= i ==> GrowTo(entries, i) <= 2 * i
    ensures i <= 8192 ==> GrowTo(entries, i) == entries || GrowTo(entries, i) <= 16384
    decreases if i < entries then 0 else i - entries + 1
  {
    if i >= entries {
      GrowthBounded(entries * 2, i);
    }
  }

  function Grown(entries: nat, num: int): nat {
    if 0 < entries && 0 <= num then GrowTo(entries, num) else entries
  }

  /** set_ack_urb below the cap. */
  function SetAckUrb(c: Config, p: Proc, s: Slot): Proc {
    p.(urbAcks := p.urbAcks + {s}, ackEntries := Grown(p.ackEntries, SlotNum(c.n, s)))
  }

  function BebTask(msg: UrbMsg, self: Pid, dest: Pid): Task {
    Task(dest, Data(Slot(msg.seenId, self), Slot(msg.seenId, dest), self, msg))
  }

  /** The loop of send_beb from destination i on. */
  function BebTasks(n: nat, msg: UrbMsg, self: Pid, i: Pid): seq<Task>
    decreases n - i
  {
    if i >= n then []
    else (if i == self then [] else [BebTask(msg, self, i)]) + BebTasks(n, msg, self, i + 1)
  }

  lemma {:induction false} BebTasksFrom(n: nat, msg: UrbMsg, self: Pid, i: Pid)
    requires i <= n
    ensures |BebTasks(n, msg, self, i)| == n - i - (if i <= self < n then 1 else 0)
    ensures forall k | 0 <= k < |BebTasks(n, msg, self, i)| ::
      BebTasks(n, msg, self, i)[k] == BebTask(msg, self, if i <= self <= i + k then i + k + 1 else i + k)
    decreases n - i
  {
    if i < n {
      BebTasksFrom(n, msg, self, i + 1);
    }
  }

  /** send_beb issues its tasks in the order of the destinations, the sender left out; each
      carries the message, under this relay's mid and the destination's ackid. */
  lemma BebTasksInOrder(n: nat, msg: UrbMsg, self: Pid)
    requires self < n
    ensures |BebTasks(n, msg, self, 0)| == n - 1
    ensures forall k | 0 <= k < n - 1 :: var d := if k < self then k else k + 1;
      BebTasks(n, msg, self, 0)[k] == Task(d, Data(Slot(msg.seenId, self), Slot(msg.seenId, d), self, msg))
  {
    BebTasksFrom(n, msg, self, 0);
  }

  function SendBeb(c: Config, p: Proc, self: Pid, msg: UrbMsg): Proc {
    p.(queue := p.queue + BebTasks(c.n, msg, self, 0))
  }

  /** The processes whose ack slot for id is set. */
  function Ackers(n: nat, acks: set<Slot>, id: MsgId): set<Pid> {
    set r: nat | r < n && Slot(id, r) in acks
  }

  /** can_deliver: the row must end strictly inside the table. */
  predicate RowFits(n: nat, entries: nat, id: MsgId) {
    n * SeenNum(n, id) + n < entries
  }

  predicate CanDeliver(c: Config, p: Proc, id: MsgId) {
    RowFits(c.n, p.ackEntries, id) && |Ackers(c.n, p.urbAcks, id)| > c.n / 2
  }

  function LogBroadcast(l: Lcb, i: nat): Lcb {
    l.(log := l.log + [Broadcasts(i)])
  }

  /** send_urb. */
  function SendUrb(c: Config, p: Proc, self: Pid, i: nat, m: LcbMsg): Outcome {
    var id := MsgId(self, i);
    var mid := Slot(id, self);
    if SeenNum(c.n, id) > MAX_SIZE || SlotNum(c.n, mid) > MAX_SIZE then Exits
    else
      var p1 := SetAckUrb(c, p.(seen := p.seen + {id}), mid);
      var p2 := p1.(lcb := LogBroadcast(p1.lcb, i));
      Continues(SendBeb(c, p2, self, UrbMsg(m, id, mid)))
  }

  /** One iteration of send_lcb. */
  function SendLcb(c: Config, p: Proc, self: Pid): Outcome {
    var i := p.sent + 1;
    match SendUrb(c, p, self, i, Attached(p.lcb, self, i))
    case Exits => Exits
    case Continues(p1) => Continues(p1.(sent := i))
  }

  /** The relaying half of deliver_urb: first sight of a message. */
  function Relay(c: Config, p: Proc, self: Pid, msg: UrbMsg): Outcome {
    var own := Slot(msg.seenId, self);
    if SeenNum(c.n, msg.seenId) > MAX_SIZE || SlotNum(c.n, own) > MAX_SIZE then Exits
    else
      var p1 := SetAckUrb(c, p.(seen := p.seen + {msg.seenId}), own);
      Continues(SendBeb(c, p1, self, msg.(mid := own)))
  }

  /** The delivering half of deliver_urb. */
  function TryDeliver(c: Config, p: Proc, msg: UrbMsg): Outcome
    requires Shaped(c.deps, p.lcb) && msg.lcb.origin < |c.deps|
  {
    if CanDeliver(c, p, msg.seenId) && msg.seenId !in p.urbDelivered then
      if SeenNum(c.n, msg.seenId) > MAX_SIZE then Exits
      else Continues(p.(
        urbDelivered := p.urbDelivered + {msg.seenId},
        arrived := p.arrived + [msg.lcb],
        lcb := Deliver(c.deps, p.lcb, msg.lcb)))
    else Continues(p)
  }

  /** deliver_urb (deliver_beb only calls it). */
  function DeliverUrb(c: Config, p: Proc, self: Pid, msg: UrbMsg): Outcome
    requires Shaped(c.deps, p.lcb) && msg.lcb.origin < |c.deps|
  {
    if SlotNum(c.n, msg.mid) > MAX_SIZE then Exits
    else
      var p1 := SetAckUrb(c, p, msg.mid);
      if msg.seenId in p1.seen then TryDeliver(c, p1, msg)
      else
        match Relay(c, p1, self, msg)
        case Exits => Exits
        case Continues(p2) => TryDeliver(c, p2, msg)
  }

  function AckFor(m: Msg, self: Pid): Msg {
    Ack(m.mid, m.ackid, self)
  }

  /** deliver_pl for a data message, after the ack has been sent. */
  function DeliverData(c: Config, p: Proc, self: Pid, m: Msg): Outcome
    requires m.Data? && Shaped(c.deps, p.lcb) && m.urb.lcb.origin < |c.deps|
  {
    if m.mid in p.plDelivered then Continues(p)
    else if SlotNum(c.n, m.mid) > MAX_SIZE then Exits
    else DeliverUrb(c, p.(plDelivered := p.plDelivered + {m.mid}, passed := p.passed + [m.mid]), self, m.urb)
  }

  /** deliver_pl for an ack. */
  function DeliverAck(c: Config, p: Proc, m: Msg): Outcome {
    if SlotNum(c.n, m.ackid) > MAX_SIZE then Exits
    else Continues(p.(plAcks := p.plAcks + {m.ackid}))
  }

  /** The memory of a process that exits is gone; what it had sent and logged stays. */
  function Settle(p: Proc, o: Outcome): Proc {
    match o
    case Continues(p') => p'
    case Exits => p.(crashed := true)
  }

  // ----- Steps -----

  datatype Step =
    | BroadcastStep(p: Pid)
    | DequeueStep(p: Pid, t: nat)   // sender_f takes the front task
    | PollStep(p: Pid, t: nat)      // send_pl looks at the ack table
    | ActStep(p: Pid, t: nat)       // send_pl sends, or gives the task back
    | ReceiveStep(p: Pid, m: Msg)
    | CrashStep(p: Pid)

  ghost predicate Enabled(c: Config, s: State, step: Step) {
    && step.p < |s.procs|
    && !s.procs[step.p].crashed
    && var p := s.procs[step.p];
       match step
       case BroadcastStep(_) => true
       case DequeueStep(_, t) => t < NUM_SENDER_THREADS && t !in p.held && p.queue != []
       case PollStep(_, t) => t in p.held && !p.held[t].unacked
       case ActStep(_, t) => t in p.held && p.held[t].unacked
       case ReceiveStep(q, m) => (q, m) in s.net && (m.Data? ==> Shaped(c.deps, p.lcb) && m.urb.lcb.origin < |c.deps|)
       case CrashStep(_) => true
  }

  function Dequeue(p: Proc, t: nat): Proc
    requires p.queue != []
  {
    p.(queue := p.queue[1..], held := p.held[t := Held(p.queue[0], 0, false)])
  }

  /** The loop test of send_pl: an acked task is retired by sender_f. */
  function Poll(p: Proc, t: nat): Proc
    requires t in p.held
  {
    if p.held[t].task.msg.ackid in p.plAcks then p.(held := p.held - {t})
    else p.(held := p.held[t := p.held[t].(unacked := true)])
  }

  /** The loop body of send_pl: after THRESHOLD sends the task is enqueued again. */
  function Act(p: Proc, t: nat): Proc
    requires t in p.held
  {
    var h := p.held[t];
    if h.tries >= THRESHOLD then p.(queue := p.queue + [h.task], held := p.held - {t})
    else p.(held := p.held[t := Held(h.task, h.tries + 1, false)])
  }

  function ActPackets(p: Proc, t: nat): set<(Pid, Msg)>
    requires t in p.held
  {
    if p.held[t].tries >= THRESHOLD then {} else {(p.held[t].task.dest, p.held[t].task.msg)}
  }

  function Put(s: State, q: Pid, p: Proc): State
    requires q < |s.procs|
  {
    s.(procs := s.procs[q := p])
  }

  ghost function Apply(c: Config, s: State, step: Step): State
    requires Enabled(c, s, step)
  {
    var q, p := step.p, s.procs[step.p];
    match step
    case BroadcastStep(_) =>
      var o := SendLcb(c, p, q);
      var s1 := Put(s, q, Settle(p, o));
      if o.Exits? then s1
      else s1.(broadcasts := s.broadcasts + [Attached(p.lcb, q, p.sent + 1)])
    case DequeueStep(_, t) => Put(s, q, Dequeue(p, t))
    case PollStep(_, t) => Put(s, q, Poll(p, t))
    case ActStep(_, t) => Put(s, q, Act(p, t)).(net := s.net + ActPackets(p, t))
    case ReceiveStep(_, m) =>
      if m.Ack? then Put(s, q, Settle(p, DeliverAck(c, p, m)))
      else Put(s, q, Settle(p, DeliverData(c, p, q, m))).(net := s.net + {(m.sender, AckFor(m, q))})
    case CrashStep(_) => Put(s, q, p.(crashed := true))
  }

  /** Every receipt of a data message is answered with an ack under the same numbers, also
      if it was received before. */
  lemma EveryReceiptAcked(c: Config, s: State, q: Pid, m: Msg)
    requires Enabled(c, s, ReceiveStep(q, m)) && m.Data?
    ensures (m.sender, Ack(m.mid, m.ackid, q)) in Apply(c, s, ReceiveStep(q, m)).net
  {
  }

  ghost predicate Next(c: Config, s: State, s': State) {
    exists step :: Enabled(c, s, step) && s' == Apply(c, s, step)
  }

  ghost predicate Follows(c: Config, run: seq<State>, i: nat)
    requires 0 < i < |run|
  {
    Next(c, run[i - 1], run[i])
  }

  /** A run: every state follows from the one before it. */
  ghost predicate IsRun(c: Config, run: seq<State>) {
    run != [] && run[0] == Init(c) && forall i | 0 < i < |run| :: Follows(c, run, i)
  }

  ghost predicate Reachable(c: Config, s: State) {
    exists run :: IsRun(c, run) && run[|run| - 1] == s
  }

  lemma InitReachable(c: Config)
    ensures Reachable(c, Init(c))
  {
    var run := [Init(c)];
    assert IsRun(c, run) && run[|run| - 1] == Init(c);
  }

  lemma NextReachable(c: Config, s: State, step: Step)
    requires Reachable(c, s) && Enabled(c, s, step)
    ensures Reachable(c, Apply(c, s, step))
  {
    var run :| IsRun(c, run) && run[|run| - 1] == s;
    var longer := run + [Apply(c, s, step)];
    forall i | 0 < i < |longer| ensures Follows(c, longer, i) {
      if i < |run| {
        assert Follows(c, run, i);
      }
    }
    assert IsRun(c, longer) && longer[|longer| - 1] == Apply(c, s, step);
  }
}
