/** One process of the stack as it runs: the link tables, the URB layer and the causal
    layer. Its handlers carry out the steps of Protocol. */
module StackProcess {
  import opened Messages
  import opened CausalDelivery
  import opened CausalProcess
  import opened Protocol
  import opened Tables
  import opened TaskQueue
  import opened Wire
  import opened UrbProcess

  /** deliver_lcb leaves the tables and the queue of the other layers alone. */
  method DeliverApart(lcb: LcbProcess, m: LcbMsg, ghost acks: Table<nat>, ghost delivered: Table<nat>,
                      ghost urbAcks: Table<nat>, ghost urbTable: Table<UrbEntry>, ghost taskQ: MsgQueue<RawTask>)
    requires lcb.Valid() && m.origin < |lcb.deps|
    requires lcb.clock != acks.entries && lcb.clock != delivered.entries && lcb.clock != urbAcks.entries
    modifies lcb`log, lcb.clock, lcb.lists, lcb.Nodes()
    ensures lcb.Valid() && lcb.Abs() == Deliver(lcb.deps, old(lcb.Abs()), m)
    ensures unchanged(acks) && unchanged(delivered) && unchanged(urbAcks) && unchanged(urbTable) && unchanged(taskQ)
    ensures unchanged(acks.entries) && unchanged(delivered.entries) && unchanged(urbAcks.entries)
    ensures unchanged(urbTable.entries) && unchanged(taskQ.elems)
  {
    lcb.Deliver(m);
  }

  class Stack {
    const c: Config
    const self: Pid
    const plAcks: Table<nat>
    const plDelivered: Table<nat>
    const urb: UrbLayer
    const lcb: LcbProcess
    var sent: nat

    /** The layers share no memory. */
    ghost predicate Apart()
      reads this, plAcks, plDelivered, urb.urbAcks
    {
      && plAcks != plDelivered && plAcks != urb.urbAcks && plDelivered != urb.urbAcks
      && plAcks.entries != plDelivered.entries && plAcks.entries != urb.urbAcks.entries
      && plDelivered.entries != urb.urbAcks.entries
      && lcb.clock != plAcks.entries && lcb.clock != plDelivered.entries && lcb.clock != urb.urbAcks.entries
    }

    ghost predicate LinkPart(acks: set<Slot>, delivered: set<Slot>)
      reads this, plAcks, plAcks.entries, plDelivered, plDelivered.entries
    {
      RawTable(c.n, plAcks, acks) && RawTable(c.n, plDelivered, delivered)
    }

    ghost predicate CausalPart(l: Lcb)
      reads this, lcb, lcb.clock, lcb.lists, lcb.Nodes()
    {
      lcb.Valid() && lcb.deps == c.deps && lcb.Abs() == l
    }

    /** This process is in state p, as far as the handlers' memory goes. */
    ghost predicate Represents(p: Proc)
      reads this, plAcks, plAcks.entries, plDelivered, plDelivered.entries
      reads urb, urb.urbAcks, urb.urbAcks.entries, urb.urbTable, urb.urbTable.entries, urb.taskQ, urb.taskQ.elems
      reads lcb, lcb.clock, lcb.lists, lcb.Nodes()
    {
      && Apart() && sent == p.sent && urb.c == c && urb.self == self
      && LinkPart(p.plAcks, p.plDelivered) && urb.Represents(p) && CausalPart(p.lcb)
    }

    /** init_data. */
    constructor (c: Config, self: Pid)
      requires ValidConfig(c) && self < c.n
      ensures this.c == c && this.self == self && Represents(InitProc(c))
      ensures plAcks.entries.Length == plDelivered.entries.Length == 150 * c.n * c.n
    {
      var acks := NewSlotTable(c.n);
      var delivered := NewSlotTable(c.n);
      this.c, this.self, sent := c, self, 0;
      plAcks, plDelivered := acks, delivered;
      urb := new UrbLayer(c, self);
      lcb := new LcbProcess(c.deps);
    }

    // ----- One layer at a time -----

    /** The causal layer's memory may change under the others. */
    twostate lemma OnlyCausalMoved(p: Proc)
      requires old(Represents(p)) && CausalPart(lcb.Abs()) && sent == old(sent)
      requires unchanged(plAcks) && unchanged(plDelivered)
      requires unchanged(plAcks.entries) && unchanged(plDelivered.entries)
      requires unchanged(urb.urbAcks) && unchanged(urb.urbTable) && unchanged(urb.taskQ)
      requires unchanged(urb.urbAcks.entries) && unchanged(urb.urbTable.entries) && unchanged(urb.taskQ.elems)
      ensures Represents(p.(lcb := lcb.Abs()))
    {
    }

    /** set_delivered. */
    method SetDelivered(num: nat, ghost x: Slot, ghost p: Proc) returns (ok: bool)
      requires Represents(p) && ValidSlot(c.n, x) && num == SlotNum(c.n, x)
      modifies plDelivered, plDelivered.entries
      ensures ok <==> num <= 8192
      ensures ok ==> Represents(p.(plDelivered := p.plDelivered + {x}, passed := p.passed + [x]))
      ensures plDelivered.entries == old(plDelivered.entries) || fresh(plDelivered.entries)
    {
      ok := SetSlot(c.n, plDelivered, num, x, p.plDelivered);
    }

    /** The URB layer handles the message; the causal layer has not seen it yet. */
    method UrbHandles(raw: UrbPart, ghost m: UrbMsg, ghost p: Proc) returns (ok: bool, up: bool)
      requires Represents(p) && RawUrb(c.n, raw, m)
      modifies urb.urbAcks, urb.urbAcks.entries, urb.urbTable, urb.urbTable.entries, urb.taskQ, urb.taskQ.elems
      ensures ok <==> DeliverUrb(c, p, self, m).Continues?
      ensures ok ==> DeliverUrb(c, p, self, m).proc.lcb == if up then Deliver(c.deps, p.lcb, m.lcb) else p.lcb
      ensures ok ==> Represents(DeliverUrb(c, p, self, m).proc.(lcb := p.lcb))
    {
      ok, up := urb.DeliverUrb(raw, m, p);
      assert LinkPart(p.plAcks, p.plDelivered);
      assert CausalPart(p.lcb);
    }

    /** deliver_lcb. */
    method CausalHandles(m: LcbMsg, ghost p: Proc)
      requires Represents(p) && m.origin < c.n
      modifies lcb`log, lcb.clock, lcb.lists, lcb.Nodes()
      ensures Represents(p.(lcb := Deliver(c.deps, p.lcb, m)))
    {
      label start:
      DeliverApart(lcb, m, plAcks, plDelivered, urb.urbAcks, urb.urbTable, urb.taskQ);
      OnlyCausalMoved@start(p);
    }

    /** deliver_urb up to and including deliver_lcb. */
    method PassUp(raw: UrbPart, ghost m: UrbMsg, ghost p: Proc) returns (ok: bool)
      requires Represents(p) && RawUrb(c.n, raw, m)
      modifies urb.urbAcks, urb.urbAcks.entries, urb.urbTable, urb.urbTable.entries, urb.taskQ, urb.taskQ.elems
      modifies lcb`log, lcb.clock, lcb.lists, lcb.Nodes()
      ensures ok <==> DeliverUrb(c, p, self, m).Continues?
      ensures ok ==> Represents(DeliverUrb(c, p, self, m).proc)
    {
      var up;
      ok, up := UrbHandles(raw, m, p);
      if ok && up {
        CausalHandles(LcbMsg(raw.origin, raw.vector), DeliverUrb(c, p, self, m).proc.(lcb := p.lcb));
      }
    }

    // ----- The handlers -----

    /** deliver_pl for an ack. */
    method DeliverAck(raw: Packet, ghost m: Msg, ghost p: Proc) returns (ok: bool)
      requires Represents(p) && RawMsg(c.n, raw, m) && m.Ack?
      modifies plAcks, plAcks.entries
      ensures ok <==> Protocol.DeliverAck(c, p, m).Continues?
      ensures ok ==> Represents(Protocol.DeliverAck(c, p, m).proc)
    {
      ok := SetSlot(c.n, plAcks, raw.ackid, m.ackid, p.plAcks);
    }

    /** deliver_pl for a data message: acked always, passed up the first time. */
    method DeliverData(raw: Packet, ghost m: Msg, ghost p: Proc) returns (ok: bool, ack: Packet)
      requires Represents(p) && RawMsg(c.n, raw, m) && m.Data?
      modifies plDelivered, plDelivered.entries
      modifies urb.urbAcks, urb.urbAcks.entries, urb.urbTable, urb.urbTable.entries, urb.taskQ, urb.taskQ.elems
      modifies lcb`log, lcb.clock, lcb.lists, lcb.Nodes()
      ensures RawMsg(c.n, ack, AckFor(m, self))
      ensures ok <==> Protocol.DeliverData(c, p, self, m).Continues?
      ensures ok ==> Represents(Protocol.DeliverData(c, p, self, m).proc)
    {
      ack := Packet(raw.mid, raw.ackid, self, ACK, raw.urb);
      var delivered := plDelivered.Read(raw.mid);
      ok := true;
      if delivered != 1 {
        ok := SetDelivered(raw.mid, m.mid, p);
        if ok {
          ok := PassUp(raw.urb, m.urb, p.(plDelivered := p.plDelivered + {m.mid}, passed := p.passed + [m.mid]));
        }
      }
    }

    /** The clock send_lcb attaches. */
    method AttachedClock(i: nat, ghost p: Proc) returns (vector: Clock)
      requires Represents(p) && 1 <= i
      ensures vector == CausalDelivery.Snapshot(p.lcb.clock, self, i)
    {
      vector := lcb.Snapshot(self, i);
    }

    lemma SendLcbParts(p: Proc, vector: Clock)
      requires vector == CausalDelivery.Snapshot(p.lcb.clock, self, p.sent + 1)
      ensures var i := p.sent + 1;
        var sent, all := SendUrb(c, p, self, i, LcbMsg(self, vector)), Protocol.SendLcb(c, p, self);
        && (all.Continues? <==> sent.Continues?)
        && (sent.Continues? ==> all.proc == sent.proc.(lcb := LogBroadcast(p.lcb, i), sent := i))
    {
    }

    /** One iteration of send_lcb. */
    method SendLcb(ghost p: Proc) returns (ok: bool)
      requires Represents(p)
      modifies this`sent, lcb`log
      modifies urb.urbAcks, urb.urbAcks.entries, urb.urbTable, urb.urbTable.entries, urb.taskQ, urb.taskQ.elems
      ensures ok <==> Protocol.SendLcb(c, p, self).Continues?
      ensures ok ==> Represents(Protocol.SendLcb(c, p, self).proc)
    {
      var i := sent + 1;
      var vector := AttachedClock(i, p);
      SendLcbParts(p, vector);
      ok := UrbSends(i, vector, p);
      if ok {
        LogAndCount(i, SendUrb(c, p, self, i, LcbMsg(self, vector)).proc.(lcb := p.lcb));
      }
    }

    /** send_urb but for its log line. */
    method UrbSends(i: nat, vector: Clock, ghost p: Proc) returns (ok: bool)
      requires Represents(p) && 1 <= i
      modifies urb.urbAcks, urb.urbAcks.entries, urb.urbTable, urb.urbTable.entries, urb.taskQ, urb.taskQ.elems
      ensures ok <==> SendUrb(c, p, self, i, LcbMsg(self, vector)).Continues?
      ensures ok ==> Represents(SendUrb(c, p, self, i, LcbMsg(self, vector)).proc.(lcb := p.lcb))
    {
      ok := urb.SendUrb(i, vector, p);
      assert LinkPart(p.plAcks, p.plDelivered);
      assert CausalPart(p.lcb);
    }

    /** log_urb_broadcast, and the loop counter of send_lcb. */
    method LogAndCount(i: nat, ghost p: Proc)
      requires Represents(p)
      modifies this`sent, lcb`log
      ensures Represents(p.(lcb := LogBroadcast(p.lcb, i), sent := i))
    {
      lcb.LogBroadcast(i);
      sent := i;
    }
  }
}
