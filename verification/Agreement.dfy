/** What uniform reliable broadcast guarantees across processes. */
module Agreement {
  import opened Messages
  import opened Protocol
  import opened Genuine
  import opened Links
  import opened UrbFacts
  import opened Runs

  ghost function SeenBy(s: State, id: MsgId): set<Pid> {
    set r: nat | r < |s.procs| && id in s.procs[r].seen
  }

  ghost function Crashed(s: State): set<Pid> {
    set r: nat | r < |s.procs| && s.procs[r].crashed
  }

  ghost predicate Live(s: State, q: Pid) {
    q < |s.procs| && !s.procs[q].crashed
  }

  /** Nobody alive has anything left to send to anybody alive: what tasks are left are for
      crashed processes. */
  ghost predicate Quiescent(s: State) {
    forall q: Pid | Live(s, q) ::
      && (forall task | task in s.procs[q].queue :: !Live(s, task.dest))
      && (forall t | t in s.procs[q].held :: !Live(s, s.procs[q].held[t].task.dest))
  }

  ghost function Everyone(n: nat): (all: set<Pid>)
    ensures forall r: Pid :: r in all <==> r < n
    ensures |all| == n
  {
    if n == 0 then {} else Everyone(n - 1) + {n - 1}
  }

  /** Two sets that together outnumber everyone share a member. */
  lemma Overlap(n: nat, a: set<Pid>, b: set<Pid>) returns (r: Pid)
    requires a <= Everyone(n) && b <= Everyone(n) && |a| + |b| > n
    ensures r in a && r in b
  {
    if a * b == {} {
      assert |a + b| == |a| + |b|;
      SubsetSize(a + b, Everyone(n));
      assert false;
    }
    r :| r in a * b;
  }

  /** Majority soundness: a set ack slot means that process has seen the message, so
      a delivery anywhere means a strict majority has. */
  lemma MajorityHasSeen(c: Config, s: State, q: Pid, id: MsgId)
    requires ValidConfig(c) && Reachable(c, s) && q < |s.procs|
    ensures Ackers(c.n, s.procs[q].urbAcks, id) <= SeenBy(s, id) <= Everyone(c.n)
    ensures id in s.procs[q].urbDelivered ==> |SeenBy(s, id)| > c.n / 2
  {
    ReachableInv(c, s);
    assert Sources(s, q, s.procs[q]) && Quorums(c, s.procs[q]);
    SubsetSize(Ackers(c.n, s.procs[q].urbAcks, id), SeenBy(s, id));
  }

  /** Any two deliveries, of any two messages by any two processes, have a common witness. */
  lemma DeliveriesShareWitness(c: Config, s: State, p: Pid, q: Pid, id1: MsgId, id2: MsgId) returns (r: Pid)
    requires ValidConfig(c) && Reachable(c, s) && p < |s.procs| && q < |s.procs|
    requires id1 in s.procs[p].urbDelivered && id2 in s.procs[q].urbDelivered
    ensures r < |s.procs| && id1 in s.procs[r].seen && id2 in s.procs[r].seen
  {
    MajorityHasSeen(c, s, p, id1);
    MajorityHasSeen(c, s, q, id2);
    r := Overlap(c.n, SeenBy(s, id1), SeenBy(s, id2));
  }

  /** Uniform agreement as a safety property: what anybody delivered, crashed since or
      not, some live process has seen and still owes to, or has passed on to, every
      other process. */
  lemma UniformAgreement(c: Config, s: State, q: Pid, id: MsgId) returns (r: Pid)
    requires ValidConfig(c) && Reachable(c, s) && q < |s.procs|
    requires id in s.procs[q].urbDelivered && |Crashed(s)| <= c.n / 2
    ensures Live(s, r) && id in s.procs[r].seen && IsBroadcast(s, id)
    ensures forall d: Pid | d < |s.procs| && d != r ::
      id in s.procs[d].seen || Copies(s.procs[r], Task(d, TheData(s, r, id, d))) == 1
  {
    MajorityHasSeen(c, s, q, id);
    if SeenBy(s, id) <= Crashed(s) {
      SubsetSize(SeenBy(s, id), Crashed(s));
      assert false;
    }
    r :| r in SeenBy(s, id) && r !in Crashed(s);
    SeenIsOwed(c, s, r, id);
  }

  /** What any process has seen, every other one has seen and counted its ack for, or
      exactly one task carrying it there is left, crashed or not. */
  lemma SeenIsOwed(c: Config, s: State, r: Pid, id: MsgId)
    requires ValidConfig(c) && Reachable(c, s) && r < |s.procs| && id in s.procs[r].seen
    ensures IsBroadcast(s, id) && |s.procs| == c.n
    ensures forall d: Pid | d < c.n && d != r ::
      || (id in s.procs[d].seen && Slot(id, r) in s.procs[d].urbAcks)
      || Copies(s.procs[r], Task(d, TheData(s, r, id, d))) == 1
  {
    ReachableInv(c, s);
    assert Hands(s, r, s.procs[r]) && Sources(s, r, s.procs[r]);
    forall d: Pid | d < c.n && d != r
      ensures
        || (id in s.procs[d].seen && Slot(id, r) in s.procs[d].urbAcks)
        || Copies(s.procs[r], Task(d, TheData(s, r, id, d))) == 1
    {
      assert Carried(s, r, s.procs[r], id, d);
      assert PassedOnce(s.procs[d]);
    }
  }

  lemma NothingHeldNothingCopied(p: Proc, task: Task)
    requires task !in p.queue && forall t | t in p.held :: p.held[t].task != task
    ensures Copies(p, task) == 0
  {
    assert HeldBy(p, task) == {};
  }

  /** Once nothing is left to send to a live process, what one live process has seen they
      all have seen, and each has every live process's ack for it. */
  lemma QuiescentSeen(c: Config, s: State, r: Pid, id: MsgId)
    requires ValidConfig(c) && Reachable(c, s) && Quiescent(s)
    requires Live(s, r) && id in s.procs[r].seen
    ensures forall d: Pid | Live(s, d) :: id in s.procs[d].seen
    ensures forall d: Pid, e: Pid | Live(s, d) && Live(s, e) :: Slot(id, e) in s.procs[d].urbAcks
  {
    forall x: Pid, d: Pid | Live(s, x) && Live(s, d) && id in s.procs[x].seen
      ensures id in s.procs[d].seen && Slot(id, x) in s.procs[d].urbAcks
    {
      SeenIsOwed(c, s, x, id);
      if d == x {
        ReachableInv(c, s);
        assert Hands(s, x, s.procs[x]);
      } else {
        NothingHeldNothingCopied(s.procs[x], Task(d, TheData(s, x, id, d)));
      }
    }
  }

  lemma LiveCount(c: Config, s: State)
    requires |s.procs| == c.n
    ensures |Everyone(c.n) - Crashed(s)| == c.n - |Crashed(s)|
  {
    assert Crashed(s) <= Everyone(c.n);
    assert Everyone(c.n) == (Everyone(c.n) - Crashed(s)) + Crashed(s);
  }

  /** In a quiescent state with a live majority of a system of at least two processes, a
      message any live process has seen is delivered by every live process, unless its
      row is the last one at some size of the ack table. */
  lemma QuiescentDelivery(c: Config, s: State, r: Pid, id: MsgId, d: Pid)
    requires ValidConfig(c) && Reachable(c, s) && Quiescent(s) && c.n >= 2
    requires c.n - |Crashed(s)| > c.n / 2 && !LastRow(c, id)
    requires Live(s, r) && id in s.procs[r].seen && Live(s, d)
    ensures id in s.procs[d].urbDelivered
  {
    ReachableInv(c, s);
    QuiescentSeen(c, s, r, id);
    LiveCount(c, s);
    SubsetSize(Everyone(c.n) - Crashed(s), Ackers(c.n, s.procs[d].urbAcks, id));
    assert Quorums(c, s.procs[d]);
    assert Majority(c, s.procs[d].urbAcks, id);
  }

  /** With that, uniform agreement becomes delivery: what anybody ever delivered, every
      live process has delivered. */
  lemma QuiescentAgreement(c: Config, s: State, q: Pid, id: MsgId, d: Pid)
    requires ValidConfig(c) && Reachable(c, s) && Quiescent(s) && c.n >= 2
    requires c.n - |Crashed(s)| > c.n / 2 && !LastRow(c, id)
    requires q < |s.procs| && id in s.procs[q].urbDelivered && Live(s, d)
    ensures id in s.procs[d].urbDelivered
  {
    LiveCount(c, s) by { ReachableInv(c, s); }
    var r := UniformAgreement(c, s, q, id);
    QuiescentDelivery(c, s, r, id, d);
  }
}
