/** The FIFO layer as it runs: a growing table of pending bits, an array of counters and
    a log, updated in place. */
module FifoProcess {
  import opened Messages
  import opened Protocol
  import opened Tables
  import opened FifoDelivery

  class FifoLayer {
    const n: nat
    const pending: Table<nat>
    const next: array<nat>
    var log: seq<(Pid, nat)>

    ghost predicate Valid()
      reads this, pending, pending.entries
    {
      pending.Valid() && pending.zero == 0 && next.Length == n && next != pending.entries
    }

    /** A set bit for each pending message. */
    ghost predicate Bits(ids: set<MsgId>)
      reads this, pending, pending.entries
    {
      && (forall id | ValidId(n, id) :: id in ids <==> pending.Get(SeenNum(n, id)) == 1)
      && (forall id | id in ids :: ValidId(n, id) && 0 <= SeenNum(n, id) <= 8192)
    }

    /** The state of FifoDelivery this layer is in. */
    ghost predicate Represents(f: Fifo)
      reads this, pending, pending.entries, next
    {
      Valid() && next[..] == f.next && log == f.log && Bits(f.pending)
    }

    constructor (n: nat, noMsgs: nat)
      requires 0 < noMsgs * n
      ensures this.n == n && Represents(InitFifo(n)) && fresh(pending) && fresh(pending.entries) && fresh(next)
    {
      this.n := n;
      pending := new Table(0, noMsgs, n);
      next := new nat[n](_ => 0);
      log := [];
    }

    lemma OtherNumbers(id: MsgId)
      requires ValidId(n, id)
      ensures forall other | ValidId(n, other) && other != id :: SeenNum(n, other) != SeenNum(n, id)
    {
      forall other | ValidId(n, other) && other != id ensures SeenNum(n, other) != SeenNum(n, id) {
        NumbersInjective(n, Slot(other, 0), Slot(id, 0));
      }
    }

    lemma FlushTurn(f: Fifo, o: Pid, logged: nat)
      requires o < |f.next| && MsgId(o, f.next[o] + 1) in f.pending
      ensures var g := FlushOne(f, o, logged);
        && |g.next| == |f.next| && g.next[o] == f.next[o] + 1 && |g.pending| < |f.pending|
        && Flush(f, o, logged) == Flush(g, o, logged + 1)
    {
    }

    lemma NumberNotNegative(id: MsgId)
      requires ValidId(n, id)
      ensures 0 <= SeenNum(n, id)
    {
    }

    /** add_pending with value 1 or 0. */
    method SetBit(id: MsgId, value: nat, ghost f: Fifo) returns (ok: bool)
      requires Represents(f) && ValidId(n, id) && value <= 1
      modifies pending, pending.entries
      ensures ok <==> SeenNum(n, id) <= 8192
      ensures Represents(if !ok then f else f.(pending := if value == 1 then f.pending + {id} else f.pending - {id}))
      ensures pending.entries == old(pending.entries) || fresh(pending.entries)
    {
      NumberNotNegative(id);
      OtherNumbers(id);
      ok := pending.Write(SeenNum(n, id), value);
    }

    /** get_pending. */
    method GetBit(id: MsgId, ghost f: Fifo) returns (bit: nat)
      requires Represents(f) && ValidId(n, id)
      ensures bit == 1 <==> id in f.pending
    {
      NumberNotNegative(id);
      bit := pending.Read(SeenNum(n, id));
    }

    /** The loop body of deliver_fifo: count, clear the bit, log, look at the next bit. */
    method Turn(o: Pid, nextIdx: nat, logged: nat, ghost f: Fifo) returns (bit: nat, ghost g: Fifo)
      requires Represents(f) && o < n && nextIdx == f.next[o] + 1 && MsgId(o, nextIdx) in f.pending
      modifies this`log, next, pending, pending.entries
      ensures g == FlushOne(f, o, logged) && Represents(g)
      ensures bit == 1 <==> MsgId(o, nextIdx + 1) in g.pending
      ensures |g.next| == |f.next| && g.next[o] == nextIdx && |g.pending| < |f.pending|
      ensures Flush(f, o, logged) == Flush(g, o, logged + 1)
      ensures pending.entries == old(pending.entries) || fresh(pending.entries)
    {
      next[o] := next[o] + 1;
      ghost var counted := f.(next := f.next[o := f.next[o] + 1]);
      var cleared := SetBit(MsgId(o, nextIdx), 0, counted);
      log := log + [(o, logged)];
      g := FlushOne(f, o, logged);
      FlushTurn(f, o, logged);
      bit := GetBit(MsgId(o, nextIdx + 1), g);
    }

    /** The loop of deliver_fifo. */
    method FlushLoop(o: Pid, first: nat, ghost f: Fifo)
      requires Represents(f) && o < n
      modifies this`log, next, pending, pending.entries
      ensures Represents(Flush(f, o, first))
    {
      ghost var g, goal := f, Flush(f, o, first);
      var sequenceNum, nextIdx := first, next[o] + 1;
      var bit := GetBit(MsgId(o, nextIdx), g);
      while bit == 1
        invariant Represents(g) && nextIdx == g.next[o] + 1
        invariant bit == 1 <==> MsgId(o, nextIdx) in g.pending
        invariant |g.next| == n && Flush(g, o, sequenceNum) == goal
        invariant pending.entries == old(pending.entries) || fresh(pending.entries)
        decreases |g.pending|
      {
        bit, g := Turn(o, nextIdx, sequenceNum, g);
        sequenceNum := sequenceNum + 1;
        nextIdx := nextIdx + 1;
      }
    }

    /** deliver_fifo. An error return beyond the cap leaves everything as it was. */
    method Deliver(msg: MsgId, ghost f: Fifo) returns (ok: bool)
      requires Represents(f) && ValidId(n, msg)
      modifies this`log, next, pending, pending.entries
      ensures ok <==> SeenNum(n, msg) <= 8192
      ensures Represents(if ok then DeliverFifo(f, msg) else f)
    {
      ok := SetBit(msg, 1, f);
      if ok {
        FlushLoop(msg.origin, msg.seqNum, f.(pending := f.pending + {msg}));
      }
    }
  }
}
