/** The causal layer of one process as it runs: a clock array, one linked list per origin
    and a log, updated in place. Each method is the function of CausalDelivery it names. */
module CausalProcess {
  import opened Messages
  import opened CausalDelivery
  import opened VectorList

  class LcbProcess {
    const deps: Deps
    const clock: array<nat>
    const lists: seq<VecList>
    var log: seq<Event>

    ghost function Nodes(): (nodes: set<VecNode>)
      reads this, lists
      ensures forall i, x | 0 <= i < |lists| && x in lists[i].nodes :: x in nodes
    {
      set o, x | 0 <= o < |lists| && x in lists[o].nodes :: x
    }

    /** The lists are well formed and share neither headers nor nodes. */
    ghost predicate Valid()
      reads this, clock, lists, Nodes()
    {
      && |lists| == |deps| == clock.Length && ValidDeps(deps)
      && (forall i | 0 <= i < |lists| :: lists[i].Valid())
      && (forall i, j | 0 <= i < j < |lists| :: lists[i] != lists[j])
      && (forall i, j, x | 0 <= i < |lists| && 0 <= j < |lists| && i != j && x in lists[i].nodes ::
            x !in lists[j].nodes)
    }

    /** The state of CausalDelivery this process is in. */
    ghost function Abs(): (l: Lcb)
      reads this, clock, lists
      ensures |l.pending| == |lists| && forall o | 0 <= o < |lists| :: l.pending[o] == lists[o].Clocks()
    {
      Lcb(clock[..], seq(|lists|, o requires 0 <= o < |lists| reads lists => lists[o].Clocks()), log)
    }

    /** init_pending_lcb and init_vector_mutex. */
    constructor (deps: Deps)
      requires ValidDeps(deps)
      ensures Valid() && this.deps == deps && Abs() == Init(|deps|)
      ensures fresh(clock) && fresh(Nodes()) && forall o | 0 <= o < |lists| :: fresh(lists[o])
    {
      var n := |deps|;
      var c := new nat[n](_ => 0);
      var ls: seq<VecList> := [];
      for i := 0 to n
        invariant |ls| == i
        invariant forall j | 0 <= j < i :: fresh(ls[j]) && ls[j].Valid() && ls[j].nodes == [] && ls[j].Clocks() == []
        invariant forall j, k | 0 <= j < k < i :: ls[j] != ls[k]
        invariant c.Length == n && forall j | 0 <= j < n :: c[j] == 0
      {
        var l := new VecList();
        ls := ls + [l];
      }
      this.deps, clock, lists, log := deps, c, ls, [];
    }

    /** test_vec_clock. */
    method TestVecClock(vector: Clock, pid: Pid) returns (isBigger: bool)
      requires Valid() && pid < |deps|
      ensures isBigger == Ready(deps, Abs().clock, LcbMsg(pid, vector))
    {
      isBigger := true;
      var dep := deps[pid];
      for i := 0 to |dep|
        invariant isBigger <==> forall j | 0 <= j < i :: At(vector, dep[j]) <= At(clock[..], dep[j])
      {
        assert dep[i] in deps[pid];
        if At(vector, dep[i]) > clock[dep[i]] {
          isBigger := false;
        }
      }
    }

    /** update_vec_clock and log_deliver_lcb. */
    method UpdateAndLog(m: LcbMsg)
      requires Valid() && m.origin < |deps|
      modifies clock, this`log
      ensures Valid() && Abs() == Accept(old(Abs()), m)
    {
      clock[m.origin] := clock[m.origin] + 1;
      log := log + [Delivers(m.origin, clock[m.origin], m)];
      assert Abs().pending == old(Abs().pending);
    }

    /** If only list o changed, and it took in no node of another list, the process is
        well formed and only that pending list differs. */
    twostate lemma OneListChanged(o: Pid)
      requires old(Valid()) && o < |lists| && lists[o].Valid()
      requires forall i | 0 <= i < |lists| && i != o :: unchanged(lists[i])
      requires forall i, j | 0 <= i < |lists| && i != o && 0 <= j < |lists[i].nodes| :: unchanged(lists[i].nodes[j])
      requires forall x | x in lists[o].nodes :: x in old(lists[o].nodes) || !old(allocated(x))
      ensures Valid() && Abs().pending == old(Abs().pending)[o := lists[o].Clocks()]
    {
      forall i | 0 <= i < |lists|
        ensures lists[i].Valid() && Abs().pending[i] == old(Abs().pending)[o := lists[o].Clocks()][i]
      {
        if i != o {
          assert old(lists[i].Valid()) && lists[i].Clocks() == old(lists[i].Clocks());
        }
      }
    }

    /** Deliver the pending clock in node ptr and unlink it. */
    method TakeNode(o: Pid, ptr: VecNode, ghost k: nat)
      requires Valid() && o < |deps| && k < |lists[o].nodes| && lists[o].nodes[k] == ptr
      modifies this`log, clock, lists[o], lists[o].nodes
      ensures Valid() && Abs() == Take(old(Abs()), o, k) && |log| == |old(log)| + 1
      ensures lists[o].nodes == old(lists[o].nodes[..k] + lists[o].nodes[k + 1..])
    {
      UpdateAndLog(LcbMsg(o, ptr.clock));
      label accepted:
      lists[o].Remove(ptr, k);
      forall i, j | 0 <= i < |lists| && i != o && 0 <= j < |lists[i].nodes|
        ensures unchanged@accepted(lists[i].nodes[j])
      {
        assert old@accepted(lists[i].nodes)[j] in old@accepted(lists[i].nodes);
      }
      OneListChanged@accepted(o);
    }

    /** ptr is the node at position k of list o, or null at its end. */
    ghost predicate AtNode(o: Pid, ptr: VecNode?, k: nat)
      requires o < |lists|
      reads this, lists
    {
      k <= |lists[o].nodes| && ptr == if k < |lists[o].nodes| then lists[o].nodes[k] else null
    }

    /** One turn of the inner loop of find_pending: the next node is read before the
        current one is unlinked, and the loop advances whatever the test says. */
    method StepNode(o: Pid, ptr: VecNode, ghost k: nat) returns (next: VecNode?, taken: bool)
      requires Valid() && o < |deps| && AtNode(o, ptr, k)
      modifies this`log, clock, lists[o], lists[o].nodes
      ensures Valid() && AtNode(o, next, if taken then k else k + 1)
      ensures Walk(deps, Abs(), o, if taken then k else k + 1) == Walk(deps, old(Abs()), o, k)
      ensures |log| == |old(log)| + (if taken then 1 else 0)
      ensures |lists[o].nodes| == |old(lists[o].nodes)| - (if taken then 1 else 0)
      ensures forall j | 0 <= j < |lists[o].nodes| :: lists[o].nodes[j] in old(lists[o].nodes)
    {
      next := ptr.next;
      assert lists[o].Valid() && LcbMsg(o, ptr.clock) == Waiting(Abs(), o, k);
      taken := TestVecClock(ptr.clock, o);
      if taken {
        TakeNode(o, ptr, k);
      }
    }

    /** The inner loop of find_pending. */
    method WalkList(o: Pid) returns (found: bool)
      requires Valid() && o < |deps|
      modifies this`log, clock, lists[o], lists[o].nodes
      ensures Valid() && Abs() == Walk(deps, old(Abs()), o, 0)
      ensures found <==> |log| > |old(log)|
      ensures |log| >= |old(log)| && forall j | 0 <= j < |lists[o].nodes| :: lists[o].nodes[j] in old(lists[o].nodes)
    {
      found := false;
      var ptr := lists[o].head;
      ghost var k := 0;
      assert lists[o].Valid();
      while ptr != null
        invariant Valid() && AtNode(o, ptr, k)
        invariant Walk(deps, Abs(), o, k) == Walk(deps, old(Abs()), o, 0)
        invariant |log| >= |old(log)| && (found <==> |log| > |old(log)|)
        invariant forall j | 0 <= j < |lists[o].nodes| :: lists[o].nodes[j] in old(lists[o].nodes)
        decreases |lists[o].nodes| - k
      {
        var next, taken := StepNode(o, ptr, k);
        if taken {
          found := true;
        } else {
          k := k + 1;
        }
        ptr := next;
      }
    }

    /** find_pending. */
    method FindPending() returns (found: bool)
      requires Valid()
      modifies this`log, clock, lists, Nodes()
      ensures Valid() && Abs() == Pass(deps, old(Abs()), 0)
      ensures found <==> |log| > |old(log)|
      ensures Nodes() <= old(Nodes())
    {
      found := false;
      for i := 0 to |lists|
        invariant Valid() && Pass(deps, Abs(), i) == Pass(deps, old(Abs()), 0)
        invariant |log| >= |old(log)| && (found <==> |log| > |old(log)|)
        invariant Nodes() <= old(Nodes())
      {
        ghost var before := Abs();
        var foundHere := WalkList(i);
        assert Pass(deps, before, i) == Pass(deps, Abs(), i + 1);
        found := found || foundHere;
      }
    }

    /** deliver_lcb's loop: find_pending until it finds nothing. */
    method FindAllPending()
      requires Valid()
      modifies this`log, clock, lists, Nodes()
      ensures Valid() && Abs() == Drain(deps, old(Abs()))
      ensures Nodes() <= old(Nodes())
    {
      PassShrinks(deps, Abs(), 0);
      var again := FindPending();
      while again
        invariant Valid() && Nodes() <= old(Nodes())
        invariant Drain(deps, old(Abs())) == if again then Drain(deps, Abs()) else Abs()
        decreases again, Size(Abs().pending)
      {
        PassShrinks(deps, Abs(), 0);
        again := FindPending();
      }
    }

    /** add_pending_lcb. */
    method AddPending(m: LcbMsg)
      requires Valid() && m.origin < |deps|
      modifies lists[m.origin], lists[m.origin].nodes
      ensures Valid() && Abs() == CausalDelivery.AddPending(old(Abs()), m)
      ensures fresh(Nodes() - old(Nodes()))
    {
      var o := m.origin;
      lists[o].Add(m.clock);
      forall i, j | 0 <= i < |lists| && i != o && 0 <= j < |lists[i].nodes|
        ensures unchanged(lists[i].nodes[j])
      {
        assert old(lists[i].nodes)[j] in old(lists[i].nodes);
      }
      OneListChanged(o);
    }

    /** deliver_lcb for a message that is not blocked. */
    method AcceptAndDrain(m: LcbMsg)
      requires Valid() && m.origin < |deps|
      modifies this`log, clock, lists, Nodes()
      ensures Valid() && Abs() == Drain(deps, Accept(old(Abs()), m))
      ensures Nodes() <= old(Nodes())
    {
      UpdateAndLog(m);
      assert Nodes() == old(Nodes());
      FindAllPending();
    }

    /** deliver_lcb. */
    method Deliver(m: LcbMsg)
      requires Valid() && m.origin < |deps|
      modifies this`log, clock, lists, Nodes()
      ensures Valid() && Abs() == CausalDelivery.Deliver(deps, old(Abs()), m)
      ensures fresh(Nodes() - old(Nodes()))
    {
      var ready := TestVecClock(m.clock, m.origin);
      if ready {
        AcceptAndDrain(m);
      } else {
        AddPending(m);
      }
    }

    /** get_vec_clock_copy, with the own entry set as send_lcb does. */
    method Snapshot(self: Pid, i: nat) returns (v: Clock)
      requires Valid() && 1 <= i
      ensures v == CausalDelivery.Snapshot(Abs().clock, self, i)
    {
      v := clock[..];
      if self < |v| {
        v := v[self := i - 1];
      }
    }

    /** log_urb_broadcast. */
    method LogBroadcast(i: nat)
      requires Valid()
      modifies this`log
      ensures Valid() && Abs() == old(Abs()).(log := old(log) + [Broadcasts(i)])
    {
      log := log + [Broadcasts(i)];
      assert Abs().pending == old(Abs().pending);
    }
  }
}
