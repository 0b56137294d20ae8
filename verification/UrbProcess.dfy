/** Uniform reliable broadcast and best-effort broadcast as they run in one process:
    number-indexed tables and a task queue, updated in place. Every method carries out
    the step of Protocol it is named after. */
module UrbProcess {
  import opened Messages
  import opened CausalDelivery
  import opened Protocol
  import opened Tables
  import opened TaskQueue
  import opened Wire

  datatype UrbEntry = UrbEntry(seen: nat, delivered: nat)

  /** queue_task_t. */
  datatype RawTask = RawTask(dest: Pid, msg: Packet)

  const QUEUE_LEN := 200
  const NO_TASK := RawTask(0, Packet(0, 0, 0, 0, UrbPart(0, 0, 0, [])))

  ghost predicate ValidSlot(n: nat, x: Slot) {
    ValidId(n, x.id) && x.pid < n
  }

  /** The urb part of a packet carries the numbers of m. */
  ghost predicate RawUrb(n: nat, raw: UrbPart, m: UrbMsg) {
    && ValidId(n, m.seenId) && ValidSlot(n, m.mid) && m.lcb.origin < n
    && raw.origin == m.lcb.origin && raw.vector == m.lcb.clock
    && raw.mid == SlotNum(n, m.mid) && raw.seenId == SeenNum(n, m.seenId)
  }

  /** A packet carries the numbers of message m; an ack's urb part is whatever. */
  ghost predicate RawMsg(n: nat, raw: Packet, m: Msg) {
    && ValidSlot(n, m.mid) && ValidSlot(n, m.ackid)
    && raw.mid == SlotNum(n, m.mid) && raw.ackid == SlotNum(n, m.ackid) && raw.sender == m.sender
    && raw.mtype == (if m.Ack? then 1 else 0)
    && (m.Data? ==> RawUrb(n, raw.urb, m.urb))
  }

  ghost predicate RawTaskOf(n: nat, raw: RawTask, t: Task) {
    raw.dest == t.dest && RawMsg(n, raw.msg, t.msg)
  }

  ghost predicate RawQueue(n: nat, raws: seq<RawTask>, tasks: seq<Task>) {
    |raws| == |tasks| && forall i | 0 <= i < |raws| :: RawTaskOf(n, raws[i], tasks[i])
  }

  /** A set of slots kept as ones in a table. */
  ghost predicate RawTable(n: nat, t: Table<nat>, slots: set<Slot>)
    reads t, t.entries
  {
    && t.Valid() && t.zero == 0
    && (forall x | ValidSlot(n, x) :: x in slots <==> t.Get(SlotNum(n, x)) == 1)
    && (forall x | x in slots :: ValidSlot(n, x))
  }

  lemma OtherSlots(n: nat, x: Slot)
    requires ValidSlot(n, x)
    ensures forall y | ValidSlot(n, y) && y != x :: SlotNum(n, y) != SlotNum(n, x)
    ensures forall i | ValidId(n, i) && i != x.id :: SeenNum(n, i) != SeenNum(n, x.id)
  {
    forall y | ValidSlot(n, y) && y != x ensures SlotNum(n, y) != SlotNum(n, x) {
      NumbersInjective(n, y, x);
    }
    forall i | ValidId(n, i) && i != x.id ensures SeenNum(n, i) != SeenNum(n, x.id) {
      NumbersInjective(n, Slot(i, x.pid), x);
    }
  }

  /** set_ack, set_delivered and set_ack_urb: setting a slot of a table. */
  method SetSlot(n: nat, t: Table<nat>, num: nat, ghost x: Slot, ghost slots: set<Slot>) returns (ok: bool)
    requires RawTable(n, t, slots) && ValidSlot(n, x) && num == SlotNum(n, x)
    modifies t, t.entries
    ensures ok <==> num <= 8192
    ensures RawTable(n, t, if ok then slots + {x} else slots)
    ensures t.entries == old(t.entries) || fresh(t.entries)
    ensures t.entries.Length == if ok then GrowTo(old(t.entries.Length), num) else old(t.entries.Length)
  {
    OtherSlots(n, x);
    ok := t.Write(num, 1);
  }

  /** init_ack_table, init_deliver_pl and init_ack_urb. */
  method NewSlotTable(n: nat) returns (t: Table<nat>)
    requires 0 < n
    ensures fresh(t) && fresh(t.entries) && RawTable(n, t, {}) && t.entries.Length == 150 * n * n
  {
    assert 0 < n * n && ORIG_TABLE_SIZE * (n * n) == ORIG_TABLE_SIZE * n * n;
    t := new Table(0, ORIG_TABLE_SIZE, n * n);
  }

  /** The loop of can_deliver: how many entries of the row are one. */
  method CountRow(n: nat, t: Table<nat>, row: nat, ghost id: MsgId, ghost slots: set<Slot>) returns (counter: nat)
    requires RawTable(n, t, slots) && ValidId(n, id) && row == n * SeenNum(n, id) && row + n <= t.entries.Length
    ensures counter == |Ackers(n, slots, id)|
  {
    counter := 0;
    for i := row to row + n
      invariant counter == |Ackers(i - row, slots, id)|
    {
      ghost var r := i - row;
      assert i == SlotNum(n, Slot(id, r)) && ValidSlot(n, Slot(id, r));
      assert Ackers(r + 1, slots, id) == Ackers(r, slots, id) + (if Slot(id, r) in slots then {r} else {});
      if t.entries[i] == 1 {
        counter := counter + 1;
      }
    }
  }

  /** The ids send_urb computes. */
  method OwnNumbers(n: nat, self: Pid, i: nat) returns (seenId: nat, mid: nat)
    requires self < n && 1 <= i
    ensures seenId == SeenNum(n, MsgId(self, i)) && mid == SlotNum(n, Slot(MsgId(self, i), self))
    ensures seenId <= mid
  {
    NumbersNotNegative(n, Slot(MsgId(self, i), self));
    seenId := n * (i - 1) + self;
    mid := n * seenId + self;
  }

  lemma RawBebTask(n: nat, msg: UrbPart, m: UrbMsg, self: Pid, i: Pid)
    requires RawUrb(n, msg, m) && self < n && i < n
    ensures RawTaskOf(n, RawTask(i, Packet(msg.seenId * n + self, msg.seenId * n + i, self, 0, msg)),
                      BebTask(m, self, i))
  {
    assert msg.seenId * n == n * msg.seenId;
  }

  /** The loop of send_beb: a task for everybody else. */
  method EnqueueAll(taskQ: MsgQueue<RawTask>, n: nat, self: Pid, msg: UrbPart, ghost m: UrbMsg, ghost tasks: seq<Task>)
    requires taskQ.Valid() && RawQueue(n, taskQ.Contents, tasks) && RawUrb(n, msg, m) && self < n
    modifies taskQ, taskQ.elems
    ensures taskQ.Valid() && RawQueue(n, taskQ.Contents, tasks + BebTasks(n, m, self, 0))
    ensures |taskQ.Contents| == |tasks| + n - 1
    ensures forall j | |tasks| <= j < |tasks| + n - 1 ::
      taskQ.Contents[j].dest == if j - |tasks| < self then j - |tasks| else j - |tasks| + 1
    ensures taskQ.elems == old(taskQ.elems) || fresh(taskQ.elems)
  {
    BebTasksInOrder(n, m, self);
    ghost var sofar := tasks;
    for i := 0 to n
      invariant taskQ.Valid() && RawQueue(n, taskQ.Contents, sofar)
      invariant sofar + BebTasks(n, m, self, i) == tasks + BebTasks(n, m, self, 0)
      invariant taskQ.elems == old(taskQ.elems) || fresh(taskQ.elems)
    {
      if i != self {
        RawBebTask(n, msg, m, self, i);
        taskQ.Enqueue(RawTask(i, Packet(msg.seenId * n + self, msg.seenId * n + i, self, 0, msg)));
        sofar := sofar + [BebTask(m, self, i)];
      }
    }
  }

  class UrbLayer {
    const c: Config
    const self: Pid
    const urbAcks: Table<nat>
    const urbTable: Table<UrbEntry>
    const taskQ: MsgQueue<RawTask>

    ghost predicate UrbAcksPart(acks: set<Slot>, entries: nat)
      reads this, urbAcks, urbAcks.entries
    {
      RawTable(c.n, urbAcks, acks) && urbAcks.entries.Length == entries
    }

    ghost predicate SeenPart(seen: set<MsgId>, delivered: set<MsgId>)
      reads this, urbTable, urbTable.entries
    {
      && urbTable.Valid() && urbTable.zero == UrbEntry(0, 0)
      && (forall id | ValidId(c.n, id) ::
            && (id in seen <==> urbTable.Get(SeenNum(c.n, id)).seen == 1)
            && (id in delivered <==> urbTable.Get(SeenNum(c.n, id)).delivered == 1))
      && (forall id | id in seen || id in delivered :: ValidId(c.n, id))
    }

    ghost predicate QueuePart(queue: seq<Task>)
      reads this, taskQ, taskQ.elems
    {
      taskQ.Valid() && RawQueue(c.n, taskQ.Contents, queue)
    }

    /** The urb tables and the queue are those of state p. */
    ghost predicate Represents(p: Proc)
      reads this, urbAcks, urbAcks.entries, urbTable, urbTable.entries, taskQ, taskQ.elems
    {
      && self < c.n && ValidConfig(c)
      && UrbAcksPart(p.urbAcks, p.ackEntries) && SeenPart(p.seen, p.urbDelivered) && QueuePart(p.queue)
    }

    constructor (c: Config, self: Pid)
      requires ValidConfig(c) && self < c.n
      ensures this.c == c && this.self == self && Represents(InitProc(c))
      ensures urbAcks.entries.Length == 150 * c.n * c.n && urbTable.entries.Length == 150 * c.n && taskQ.elems.Length == 200
      ensures fresh(urbAcks) && fresh(urbAcks.entries) && fresh(urbTable) && fresh(urbTable.entries)
      ensures fresh(taskQ) && fresh(taskQ.elems)
    {
      var acks := NewSlotTable(c.n);
      this.c, this.self, urbAcks := c, self, acks;
      urbTable := new Table(UrbEntry(0, 0), ORIG_TABLE_SIZE, c.n);
      taskQ := new MsgQueue(QUEUE_LEN, NO_TASK);
    }

    // ----- The pieces of the handlers -----

    /** set_ack_urb. */
    method SetAckUrb(num: nat, ghost x: Slot, ghost p: Proc) returns (ok: bool)
      requires Represents(p) && ValidSlot(c.n, x) && num == SlotNum(c.n, x)
      modifies urbAcks, urbAcks.entries
      ensures ok <==> num <= 8192
      ensures Represents(if ok then Protocol.SetAckUrb(c, p, x) else p)
      ensures urbAcks.entries == old(urbAcks.entries) || fresh(urbAcks.entries)
    {
      ok := SetSlot(c.n, urbAcks, num, x, p.urbAcks);
    }

    /** add_seen_urb. */
    method AddSeen(num: nat, ghost id: MsgId, ghost p: Proc) returns (ok: bool)
      requires Represents(p) && ValidId(c.n, id) && num == SeenNum(c.n, id)
      modifies urbTable, urbTable.entries
      ensures ok <==> num <= 8192
      ensures Represents(if ok then p.(seen := p.seen + {id}) else p)
      ensures urbTable.entries == old(urbTable.entries) || fresh(urbTable.entries)
    {
      OtherSlots(c.n, Slot(id, self));
      var entry := urbTable.Read(num);
      ok := urbTable.Write(num, entry.(seen := 1));
    }

    /** add_delivered_urb. */
    method AddDelivered(num: nat, ghost id: MsgId, ghost p: Proc) returns (ok: bool)
      requires Represents(p) && ValidId(c.n, id) && num == SeenNum(c.n, id)
      modifies urbTable, urbTable.entries
      ensures ok <==> num <= 8192
      ensures Represents(if ok then p.(urbDelivered := p.urbDelivered + {id}) else p)
      ensures urbTable.entries == old(urbTable.entries) || fresh(urbTable.entries)
    {
      OtherSlots(c.n, Slot(id, self));
      var entry := urbTable.Read(num);
      ok := urbTable.Write(num, entry.(delivered := 1));
    }

    /** can_deliver: refuse the last row, then count the ones in the row. */
    method CanDeliver(seenId: nat, ghost id: MsgId, ghost p: Proc) returns (yes: bool)
      requires Represents(p) && ValidId(c.n, id) && seenId == SeenNum(c.n, id)
      ensures yes == Protocol.CanDeliver(c, p, id)
    {
      var n := c.n;
      if n * seenId + n >= urbAcks.entries.Length {
        return false;
      }
      var counter := CountRow(n, urbAcks, n * seenId, id, p.urbAcks);
      yes := counter > n / 2;
    }

    /** send_beb. */
    method SendBeb(msg: UrbPart, ghost m: UrbMsg, ghost p: Proc)
      requires Represents(p) && RawUrb(c.n, msg, m)
      modifies taskQ, taskQ.elems
      ensures Represents(Protocol.SendBeb(c, p, self, m))
      ensures taskQ.elems == old(taskQ.elems) || fresh(taskQ.elems)
    {
      EnqueueAll(taskQ, c.n, self, msg, m, p.queue);
    }

    // ----- The handlers -----

    /** First sight of a message in deliver_urb. */
    method Relay(msg: UrbPart, ghost m: UrbMsg, ghost p: Proc) returns (ok: bool)
      requires Represents(p) && RawUrb(c.n, msg, m)
      modifies urbAcks, urbAcks.entries, urbTable, urbTable.entries, taskQ, taskQ.elems
      ensures ok <==> Protocol.Relay(c, p, self, m).Continues?
      ensures ok ==> Represents(Protocol.Relay(c, p, self, m).proc)
      ensures urbTable.entries == old(urbTable.entries) || fresh(urbTable.entries)
      ensures urbAcks.entries == old(urbAcks.entries) || fresh(urbAcks.entries)
      ensures taskQ.elems == old(taskQ.elems) || fresh(taskQ.elems)
    {
      ok := AddSeen(msg.seenId, m.seenId, p);
      if !ok {
        return;
      }
      ghost var seen := p.(seen := p.seen + {m.seenId});
      var newMid := c.n * msg.seenId + self;
      ok := SetAckUrb(newMid, Slot(m.seenId, self), seen);
      if !ok {
        return;
      }
      SendBeb(msg.(mid := newMid), m.(mid := Slot(m.seenId, self)),
              Protocol.SetAckUrb(c, seen, Slot(m.seenId, self)));
    }

    /** The end of deliver_urb. up says that the message goes up to deliver_lcb. */
    method TryDeliver(msg: UrbPart, ghost m: UrbMsg, ghost p: Proc) returns (ok: bool, up: bool)
      requires Represents(p) && RawUrb(c.n, msg, m) && Shaped(c.deps, p.lcb)
      modifies urbTable, urbTable.entries
      ensures ok <==> Protocol.TryDeliver(c, p, m).Continues?
      ensures ok ==> Represents(Protocol.TryDeliver(c, p, m).proc)
      ensures ok ==> Protocol.TryDeliver(c, p, m).proc.lcb == if up then Deliver(c.deps, p.lcb, m.lcb) else p.lcb
      ensures urbTable.entries == old(urbTable.entries) || fresh(urbTable.entries)
    {
      var can := CanDeliver(msg.seenId, m.seenId, p);
      var entry := urbTable.Read(msg.seenId);
      up := can && entry.delivered != 1;
      ok := true;
      if up {
        ok := AddDelivered(msg.seenId, m.seenId, p);
      }
    }

    /** deliver_urb. */
    method DeliverUrb(msg: UrbPart, ghost m: UrbMsg, ghost p: Proc) returns (ok: bool, up: bool)
      requires Represents(p) && RawUrb(c.n, msg, m) && Shaped(c.deps, p.lcb)
      modifies urbAcks, urbAcks.entries, urbTable, urbTable.entries, taskQ, taskQ.elems
      ensures ok <==> Protocol.DeliverUrb(c, p, self, m).Continues?
      ensures ok ==> Represents(Protocol.DeliverUrb(c, p, self, m).proc)
      ensures ok ==> Protocol.DeliverUrb(c, p, self, m).proc.lcb == if up then Deliver(c.deps, p.lcb, m.lcb) else p.lcb
      ensures urbTable.entries == old(urbTable.entries) || fresh(urbTable.entries)
      ensures urbAcks.entries == old(urbAcks.entries) || fresh(urbAcks.entries)
      ensures taskQ.elems == old(taskQ.elems) || fresh(taskQ.elems)
    {
      up := false;
      ok := SetAckUrb(msg.mid, m.mid, p);
      if !ok {
        return;
      }
      ghost var acked := Protocol.SetAckUrb(c, p, m.mid);
      var entry := urbTable.Read(msg.seenId);
      if entry.seen != 1 {
        ok := Relay(msg, m, acked);
        if !ok {
          return;
        }
        ok, up := TryDeliver(msg, m, Protocol.Relay(c, acked, self, m).proc);
      } else {
        ok, up := TryDeliver(msg, m, acked);
      }
    }

    /** send_urb; log_urb_broadcast, which it calls after setting the ack, is the caller's. */
    method SendUrb(i: nat, vector: Clock, ghost p: Proc) returns (ok: bool)
      requires Represents(p) && 1 <= i
      modifies urbAcks, urbAcks.entries, urbTable, urbTable.entries, taskQ, taskQ.elems
      ensures ok <==> Protocol.SendUrb(c, p, self, i, LcbMsg(self, vector)).Continues?
      ensures ok ==> Represents(Protocol.SendUrb(c, p, self, i, LcbMsg(self, vector)).proc)
      ensures urbTable.entries == old(urbTable.entries) || fresh(urbTable.entries)
      ensures urbAcks.entries == old(urbAcks.entries) || fresh(urbAcks.entries)
      ensures taskQ.elems == old(taskQ.elems) || fresh(taskQ.elems)
    {
      ghost var id := MsgId(self, i);
      var seenId, mid := OwnNumbers(c.n, self, i);
      ok := AddSeen(seenId, id, p);
      if !ok {
        return;
      }
      ghost var seen := p.(seen := p.seen + {id});
      ok := SetAckUrb(mid, Slot(id, self), seen);
      if !ok {
        return;
      }
      ghost var acked := Protocol.SetAckUrb(c, seen, Slot(id, self));
      SendBeb(UrbPart(mid, seenId, self, vector), UrbMsg(LcbMsg(self, vector), id, Slot(id, self)), acked);
    }
  }
}
