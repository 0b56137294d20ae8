/** What the logs of a whole run say about causal order, and why nothing stays blocked. */
module CausalOrder {
  import opened Messages
  import opened CausalDelivery
  import opened SequenceNumbers
  import opened Protocol
  import opened Genuine
  import opened UrbFacts
  import opened Logs
  import opened Runs
  import opened Agreement

  // ----- Numbers -----

  /** A delivery line names a broadcast, and with its own number if the origin depends on
      itself. */
  ghost predicate ExactLine(c: Config, s: State, e: Event)
    requires e.Delivers?
  {
    && e.pid < |c.deps| && IsBroadcast(s, e.msg.Id()) && e.msg == MessageOf(s, e.msg.Id()) && e.msg.origin == e.pid
    && (e.pid in c.deps[e.pid] ==> e.msg.Id() == MsgId(e.pid, e.n))
  }

  lemma SafeNumbersExact(c: Config, s: State, r: Pid, k: nat)
    requires ValidConfig(c) && SafeInv(c, s) && r < |s.procs|
    requires k < |s.procs[r].lcb.log| && s.procs[r].lcb.log[k].Delivers?
    ensures ExactLine(c, s, s.procs[r].lcb.log[k])
  {
    var p := s.procs[r];
    var e := p.lcb.log[k];
    assert CausalState(c, p) && Arrivals(s, p);
    assert Justified(c.deps, p.lcb.log, k);
    DeliveredArrived(c.deps, p.lcb, p.arrived, k);
    if e.pid in c.deps[e.pid] {
      LoggedNumberIsSequenceNumber(c.deps, p.lcb, p.arrived, k);
    }
  }

  /** In every reachable state a process in its own dependency list has its messages
      logged under their own sequence numbers, and the logged message is the broadcast. */
  lemma LoggedNumbersExact(c: Config, s: State, r: Pid, k: nat)
    requires ValidConfig(c) && Reachable(c, s) && r < |s.procs|
    requires k < |s.procs[r].lcb.log| && s.procs[r].lcb.log[k].Delivers?
    ensures var e := s.procs[r].lcb.log[k];
      && e.pid < c.n && IsBroadcast(s, e.msg.Id()) && e.msg == MessageOf(s, e.msg.Id()) && e.msg.origin == e.pid
      && (e.pid in c.deps[e.pid] ==> e.msg.Id() == MsgId(e.pid, e.n))
  {
    ReachableInv(c, s);
    SafeNumbersExact(c, s, r, k);
  }

  // ----- Localized causal order -----

  /** The clock attached at line b counts the delivery at the earlier line a. */
  lemma StampCovers(c: Config, s: State, p: Pid, q: Pid, a: nat, b: nat)
    requires ValidConfig(c) && Reachable(c, s) && p < |s.procs| && q < c.n
    requires var lp := s.procs[p].lcb.log;
      a < b < |lp| && lp[a].Delivers? && lp[a].pid == q && lp[b].Broadcasts?
    ensures var lp := s.procs[p].lcb.log;
      && 1 <= lp[b].n <= |From(s.broadcasts, p)|
      && 1 <= lp[a].n <= At(From(s.broadcasts, p)[lp[b].n - 1], q)
  {
    ReachableInv(c, s);
    SafeStampCovers(c, s, p, q, a, b);
  }

  lemma SafeStampCovers(c: Config, s: State, p: Pid, q: Pid, a: nat, b: nat)
    requires ValidConfig(c) && SafeInv(c, s) && p < |s.procs| && q < c.n
    requires var lp := s.procs[p].lcb.log;
      a < b < |lp| && lp[a].Delivers? && lp[a].pid == q && lp[b].Broadcasts?
    ensures var lp := s.procs[p].lcb.log;
      && 1 <= lp[b].n <= |From(s.broadcasts, p)|
      && 1 <= lp[a].n <= At(From(s.broadcasts, p)[lp[b].n - 1], q)
  {
    LineJustified(c, s, p, a);
    LineStamped(c, s, p, b);
    StampCounts(c, s, p, s.procs[p].lcb.log, q, a, b);
  }

  lemma LineJustified(c: Config, s: State, p: Pid, k: nat)
    requires SafeInv(c, s) && p < |s.procs| && k < |s.procs[p].lcb.log|
    ensures Justified(c.deps, s.procs[p].lcb.log, k)
  {
    assert CausalState(c, s.procs[p]);
  }

  lemma LineStamped(c: Config, s: State, p: Pid, b: nat)
    requires SafeInv(c, s) && p < |s.procs| && b < |s.procs[p].lcb.log|
    ensures Stamped(c, s, p, s.procs[p].lcb.log, b)
  {
    assert LogOf(c, s, p, s.procs[p]);
  }

  lemma StampCounts(c: Config, s: State, p: Pid, lp: seq<Event>, q: Pid, a: nat, b: nat)
    requires a < b < |lp| && lp[a].Delivers? && lp[a].pid == q && lp[b].Broadcasts? && q < c.n
    requires Stamped(c, s, p, lp, b) && Justified(c.deps, lp, a)
    ensures 1 <= lp[b].n <= |From(s.broadcasts, p)|
    ensures 1 <= lp[a].n <= At(From(s.broadcasts, p)[lp[b].n - 1], q)
  {
    CountReaches(c.deps, lp, a, b);
  }

  /** p logged the delivery of a message of q at a, then its own broadcast at b, and r
      logged the delivery of that broadcast at e. */
  ghost predicate CausalLines(lp: seq<Event>, p: Pid, q: Pid, lr: seq<Event>, a: nat, b: nat, e: nat) {
    && a < b < |lp| && lp[a].Delivers? && lp[a].pid == q && lp[b].Broadcasts?
    && e < |lr| && lr[e].Delivers? && lr[e].msg.Id() == MsgId(p, lp[b].n)
  }

  ghost predicate CausalPair(s: State, p: Pid, q: Pid, r: Pid, a: nat, b: nat, e: nat) {
    p < |s.procs| && r < |s.procs| && CausalLines(s.procs[p].lcb.log, p, q, s.procs[r].lcb.log, a, b, e)
  }

  /** Every delivery line of q carries the message's own number. */
  ghost predicate ExactFrom(log: seq<Event>, q: Pid) {
    forall k | 0 <= k < |log| && log[k].Delivers? && log[k].pid == q :: log[k].msg.Id() == MsgId(q, log[k].n)
  }

  lemma SelfDependentExact(c: Config, s: State, r: Pid, q: Pid)
    requires ValidConfig(c) && SafeInv(c, s) && r < |s.procs| && q < c.n && q in c.deps[q]
    ensures ExactFrom(s.procs[r].lcb.log, q)
  {
    var log := s.procs[r].lcb.log;
    forall k | 0 <= k < |log| && log[k].Delivers? && log[k].pid == q ensures log[k].msg.Id() == MsgId(q, log[k].n) {
      SafeNumbersExact(c, s, r, k);
    }
  }

  /** What the invariant says of line k of process p's log. */
  ghost predicate LineOf(c: Config, s: State, p: Pid, log: seq<Event>, k: nat)
    requires k < |log|
  {
    Justified(c.deps, log, k) && Stamped(c, s, p, log, k) && (log[k].Delivers? ==> ExactLine(c, s, log[k]))
  }

  ghost predicate LinesOf(c: Config, s: State, p: Pid, log: seq<Event>) {
    forall k | 0 <= k < |log| :: LineOf(c, s, p, log, k)
  }

  lemma SafeLines(c: Config, s: State, p: Pid)
    requires ValidConfig(c) && SafeInv(c, s) && p < |s.procs|
    ensures LinesOf(c, s, p, s.procs[p].lcb.log)
  {
    var log := s.procs[p].lcb.log;
    forall k | 0 <= k < |log| ensures LineOf(c, s, p, log, k) {
      LineJustified(c, s, p, k);
      LineStamped(c, s, p, k);
      if log[k].Delivers? {
        SafeNumbersExact(c, s, p, k);
      }
    }
  }

  /** The argument: r's message counts what p had delivered from q, so r delivered as many of
      q's messages, and those are the same if both logs number q's messages right. */
  lemma OrderOfLogs(c: Config, s: State, p: Pid, lp: seq<Event>, q: Pid, r: Pid, lr: seq<Event>, a: nat, b: nat, e: nat)
    returns (d: nat)
    requires ValidConfig(c) && p < c.n && q < c.n && LinesOf(c, s, p, lp) && LinesOf(c, s, r, lr)
    requires q in c.deps[p] && CausalLines(lp, p, q, lr, a, b, e) && ExactFrom(lp, q) && ExactFrom(lr, q)
    ensures d < e && lr[d].Delivers? && lr[d].pid == q && lr[d].msg == lp[a].msg && lr[d].n == lp[a].n
  {
    assert LineOf(c, s, p, lp, a) && LineOf(c, s, p, lp, b) && LineOf(c, s, r, lr, e);
    StampCounts(c, s, p, lp, q, a, b);
    forall k | 0 <= k < |lr| ensures Justified(c.deps, lr, k) {
      assert LineOf(c, s, r, lr, k);
    }
    d := DependencyDelivered(c.deps, lr, e, q, lp[a].n);
    assert LineOf(c, s, r, lr, d);
  }

  lemma ExactCausalOrder(c: Config, s: State, p: Pid, q: Pid, r: Pid, a: nat, b: nat, e: nat) returns (d: nat)
    requires ValidConfig(c) && SafeInv(c, s) && p < c.n && q < c.n && CausalPair(s, p, q, r, a, b, e)
    requires q in c.deps[p] && ExactFrom(s.procs[p].lcb.log, q) && ExactFrom(s.procs[r].lcb.log, q)
    ensures var lp, lr := s.procs[p].lcb.log, s.procs[r].lcb.log;
      d < e && lr[d].Delivers? && lr[d].pid == q && lr[d].msg == lp[a].msg && lr[d].n == lp[a].n
  {
    SafeLines(c, s, p);
    SafeLines(c, s, r);
    d := OrderOfLogs(c, s, p, s.procs[p].lcb.log, q, r, s.procs[r].lcb.log, a, b, e);
  }

  lemma SafeCausalOrder(c: Config, s: State, p: Pid, q: Pid, r: Pid, a: nat, b: nat, e: nat) returns (d: nat)
    requires ValidConfig(c) && SafeInv(c, s) && p < c.n && q < c.n && CausalPair(s, p, q, r, a, b, e)
    requires q in c.deps[p] && q in c.deps[q]
    ensures var lp, lr := s.procs[p].lcb.log, s.procs[r].lcb.log;
      d < e && lr[d].Delivers? && lr[d].pid == q && lr[d].msg == lp[a].msg && lr[d].n == lp[a].n
  {
    SelfDependentExact(c, s, p, q);
    SelfDependentExact(c, s, r, q);
    d := ExactCausalOrder(c, s, p, q, r, a, b, e);
  }

  /** If p logs the delivery of a message of q, one of its dependencies, and later
      broadcasts m2, then every process that logs the delivery of m2 logged that same
      message of q earlier, under the same number. */
  lemma LocalizedCausalOrder(c: Config, s: State, p: Pid, q: Pid, r: Pid, a: nat, b: nat, e: nat) returns (d: nat)
    requires ValidConfig(c) && Reachable(c, s) && p < c.n && q < c.n && CausalPair(s, p, q, r, a, b, e)
    requires q in c.deps[p] && q in c.deps[q]
    ensures var lp, lr := s.procs[p].lcb.log, s.procs[r].lcb.log;
      d < e && lr[d].Delivers? && lr[d].pid == q && lr[d].msg == lp[a].msg && lr[d].n == lp[a].n
  {
    ReachableInv(c, s);
    d := SafeCausalOrder(c, s, p, q, r, a, b, e);
  }

  // ----- Nothing stays blocked -----

  /** Every broadcast so far has been URB-delivered by p. */
  ghost predicate HasAll(s: State, p: Proc) {
    forall k | 0 <= k < |s.broadcasts| :: s.broadcasts[k].Id() in p.urbDelivered
  }

  /** The clock of the k-th broadcast names it. */
  lemma BroadcastNamed(c: Config, s: State, k: nat)
    requires GenuineInv(c, s) && k < |s.broadcasts|
    ensures var m := s.broadcasts[k]; m.origin < c.n && IsBroadcast(s, m.Id()) && MessageOf(s, m.Id()) == m
  {
    var m := s.broadcasts[k];
    assert BroadcastShape(c, s.broadcasts, k);
    assert s.broadcasts[..k + 1] == s.broadcasts[..k] + [m];
    FromAppend(s.broadcasts[..k], m, m.origin);
    FromPrefix(s.broadcasts[..k + 1], s.broadcasts, m.origin);
  }

  lemma BroadcastArrived(c: Config, s: State, p: Proc, k: nat)
    requires GenuineInv(c, s) && Arrivals(s, p) && HasAll(s, p) && k < |s.broadcasts|
    ensures s.broadcasts[k] in p.arrived
  {
    BroadcastNamed(c, s, k);
  }

  /** The k-th broadcast is delivered once everything broadcast before it by its
      dependencies is: its clock counts nothing else. */
  lemma NextDelivered(c: Config, s: State, p: Proc, k: nat)
    requires ValidConfig(c) && GenuineInv(c, s) && Arrivals(s, p) && CausalState(c, p) && Drained(c, p) && HasAll(s, p)
    requires k < |s.broadcasts| && s.broadcasts[k].origin < c.n && PastOnly(c, s.broadcasts, k)
    requires forall y | y in c.deps[s.broadcasts[k].origin] ::
      multiset(From(s.broadcasts[..k], y)) <= DeliveredBag(p.lcb, y)
    ensures s.broadcasts[k].clock in DeliveredBag(p.lcb, s.broadcasts[k].origin)
    ensures s.broadcasts[k].clock !in From(s.broadcasts[..k], s.broadcasts[k].origin)
  {
    var m := s.broadcasts[k];
    forall y | y in c.deps[m.origin] ensures At(m.clock, y) <= At(p.lcb.clock, y) {
      PastCounted(c, s, p, k, y);
    }
    BroadcastArrived(c, s, p, k);
    ReadyIsDelivered(c.deps, p.lcb, p.arrived, m);
    OwnEntryOnce(c, s, k);
  }

  /** What process p delivered from x covers the first k broadcasts. */
  ghost predicate Covers(s: State, p: Proc, k: nat, x: Pid)
    requires k <= |s.broadcasts|
  {
    multiset(From(s.broadcasts[..k], x)) <= DeliveredBag(p.lcb, x)
  }

  lemma CoversNext(c: Config, s: State, p: Proc, k: nat, x: Pid)
    requires ValidConfig(c) && GenuineInv(c, s) && Arrivals(s, p) && CausalState(c, p) && Drained(c, p) && HasAll(s, p)
    requires k < |s.broadcasts| && PastOnly(c, s.broadcasts, k) && x < c.n
    requires forall y | 0 <= y < c.n :: Covers(s, p, k, y)
    ensures Covers(s, p, k + 1, x)
  {
    var m := s.broadcasts[k];
    assert s.broadcasts[..k + 1] == s.broadcasts[..k] + [m];
    FromAppend(s.broadcasts[..k], m, x);
    assert Covers(s, p, k, x);
    if m.origin == x {
      forall y | y in c.deps[x] ensures multiset(From(s.broadcasts[..k], y)) <= DeliveredBag(p.lcb, y) {
        assert Covers(s, p, k, y);
      }
      NextDelivered(c, s, p, k);
      BagAdds(From(s.broadcasts[..k], x), m.clock, DeliveredBag(p.lcb, x));
    }
  }

  lemma CoversNone(s: State, p: Proc, x: Pid)
    ensures Covers(s, p, 0, x)
  {
    assert s.broadcasts[..0] == [];
  }

  lemma CoversOneMore(c: Config, s: State, q: Pid, j: nat, k: nat, x: Pid)
    requires ValidConfig(c) && Reachable(c, s) && q < |s.procs| && HasAll(s, s.procs[q])
    requires k == j + 1 <= |s.broadcasts| && x < c.n && forall y | 0 <= y < c.n :: Covers(s, s.procs[q], j, y)
    ensures Covers(s, s.procs[q], k, x)
  {
    ReachableInv(c, s);
    CoversNext(c, s, s.procs[q], j, x);
  }

  /** So every broadcast is delivered, by induction on the order of broadcast. */
  lemma {:induction false} EarlierDelivered(c: Config, s: State, q: Pid, k: nat, x: Pid)
    requires ValidConfig(c) && Reachable(c, s) && q < |s.procs| && HasAll(s, s.procs[q])
    requires k <= |s.broadcasts| && x < c.n
    ensures Covers(s, s.procs[q], k, x)
    decreases k
  {
    if k == 0 {
      CoversNone(s, s.procs[q], x);
    } else {
      var j := k - 1;
      forall y | 0 <= y < c.n ensures Covers(s, s.procs[q], j, y) {
        EarlierDelivered(c, s, q, j, y);
      }
      CoversOneMore(c, s, q, j, k, x);
    }
  }

  lemma BagAdds<T>(a: seq<T>, e: T, bag: multiset<T>)
    requires multiset(a) <= bag && e in bag && e !in a
    ensures multiset(a + [e]) <= bag
  {
    assert multiset(a + [e]) == multiset(a) + multiset{e};
  }

  /** The clock of the k-th broadcast counts only earlier broadcasts, so not more than
      are delivered once those are. */
  lemma PastCounted(c: Config, s: State, p: Proc, k: nat, y: Pid)
    requires k < |s.broadcasts| && y < c.n && PastOnly(c, s.broadcasts, k) && CausalState(c, p) && c.n == |c.deps|
    requires s.broadcasts[k].origin < c.n && y in c.deps[s.broadcasts[k].origin]
    requires multiset(From(s.broadcasts[..k], y)) <= DeliveredBag(p.lcb, y)
    ensures At(s.broadcasts[k].clock, y) <= At(p.lcb.clock, y)
  {
    BagSize(From(s.broadcasts[..k], y), From(Delivered(p.lcb.log), y));
    assert p.lcb.clock[y] == Count(p.lcb.log, y);
  }

  /** No earlier broadcast of its origin carries the clock of the k-th broadcast. */
  lemma OwnEntryOnce(c: Config, s: State, k: nat)
    requires GenuineInv(c, s) && k < |s.broadcasts|
    ensures s.broadcasts[k].clock !in From(s.broadcasts[..k], s.broadcasts[k].origin)
  {
    var m, init := s.broadcasts[k], s.broadcasts[..k];
    assert BroadcastShape(c, s.broadcasts, k);
    forall j | 0 <= j < k ensures BroadcastShape(c, init, j) {
      assert BroadcastShape(c, s.broadcasts, j);
      assert init[..j] == s.broadcasts[..j];
    }
    forall i | 0 <= i < |From(init, m.origin)| ensures From(init, m.origin)[i] != m.clock {
      FromIndex(c, init, m.origin, i);
    }
  }

  /** A process that has URB-delivered everything broadcast so far holds nothing back:
      its pending lists are empty and its clock counts every broadcast. */
  lemma NothingStaysBlocked(c: Config, s: State, q: Pid)
    requires ValidConfig(c) && Reachable(c, s) && q < |s.procs| && HasAll(s, s.procs[q])
    ensures |s.procs[q].lcb.pending| == |s.procs[q].lcb.clock| == |s.procs| == c.n
    ensures forall o | 0 <= o < c.n :: s.procs[q].lcb.pending[o] == []
    ensures forall o | 0 <= o < c.n :: s.procs[q].lcb.clock[o] == |From(s.broadcasts, o)| == s.procs[o].sent
  {
    ReachableInv(c, s);
    var p := s.procs[q];
    forall o | 0 <= o < c.n
      ensures p.lcb.pending[o] == [] && p.lcb.clock[o] == |From(s.broadcasts, o)|
    {
      EarlierDelivered(c, s, q, |s.broadcasts|, o);
      assert s.broadcasts[..|s.broadcasts|] == s.broadcasts;
      ArrivedWithinBroadcast(c, s, p, o);
      var d, w, b := DeliveredBag(p.lcb, o), multiset(p.lcb.pending[o]), multiset(From(s.broadcasts, o));
      assert d + w == multiset(From(p.arrived, o)) <= b <= d;
      assert |w| == 0 by { assert d + w <= d; BagNoLarger(d, w); }
      assert d == b;
      assert |d| == Count(p.lcb.log, o) && |b| == |From(s.broadcasts, o)|;
      assert p.lcb.clock[o] == Count(p.lcb.log, o);
    }
    forall o | 0 <= o < c.n ensures |From(s.broadcasts, o)| == s.procs[o].sent {
      assert ShapeOf(c, s, o, s.procs[o]);
    }
  }

  lemma BagNoLarger<T>(d: multiset<T>, w: multiset<T>)
    requires d + w <= d
    ensures w == multiset{}
  {
    forall x ensures w[x] == 0 {
      assert (d + w)[x] <= d[x];
    }
  }

  // ----- Quiescent runs -----

  /** No broadcast's row is the last one at some size of the ack table. */
  ghost predicate NoLastRow(c: Config, s: State) {
    forall id | IsBroadcast(s, id) :: !LastRow(c, id)
  }

  /** All live processes of a quiescent state with a live majority are in the same causal
      state: same clock, same deliveries, same messages held back, even if messages of
      crashed processes were lost. */
  lemma QuiescentConsistency(c: Config, s: State, p: Pid, q: Pid)
    requires ValidConfig(c) && Reachable(c, s) && Quiescent(s) && c.n >= 2
    requires c.n - |Crashed(s)| > c.n / 2 && NoLastRow(c, s) && Live(s, p) && Live(s, q)
    ensures s.procs[p].urbDelivered == s.procs[q].urbDelivered
    ensures |s.procs[p].lcb.pending| == |s.procs[q].lcb.pending| == c.n
    ensures s.procs[p].lcb.clock == s.procs[q].lcb.clock
    ensures forall o | 0 <= o < c.n ::
      && DeliveredBag(s.procs[p].lcb, o) == DeliveredBag(s.procs[q].lcb, o)
      && multiset(s.procs[p].lcb.pending[o]) == multiset(s.procs[q].lcb.pending[o])
  {
    DeliveredLikewise(c, s, p, q);
    DeliveredLikewise(c, s, q, p);
    SameDeliveredSameState(c, s, p, q);
  }

  /** What one has delivered, the other has. */
  lemma DeliveredLikewise(c: Config, s: State, p: Pid, q: Pid)
    requires ValidConfig(c) && Reachable(c, s) && Quiescent(s) && c.n >= 2
    requires c.n - |Crashed(s)| > c.n / 2 && NoLastRow(c, s) && Live(s, p) && Live(s, q)
    ensures s.procs[p].urbDelivered <= s.procs[q].urbDelivered
  {
    forall id | id in s.procs[p].urbDelivered ensures id in s.procs[q].urbDelivered {
      assert IsBroadcast(s, id) by {
        ReachableInv(c, s);
        assert Arrivals(s, s.procs[p]);
      }
      QuiescentAgreement(c, s, p, id, q);
    }
  }

  lemma SameDeliveredSameState(c: Config, s: State, p: Pid, q: Pid)
    requires ValidConfig(c) && Reachable(c, s) && p < |s.procs| && q < |s.procs|
    requires s.procs[p].urbDelivered == s.procs[q].urbDelivered
    ensures |s.procs[p].lcb.pending| == |s.procs[q].lcb.pending| == c.n
    ensures s.procs[p].lcb.clock == s.procs[q].lcb.clock
    ensures forall o | 0 <= o < c.n ::
      && DeliveredBag(s.procs[p].lcb, o) == DeliveredBag(s.procs[q].lcb, o)
      && multiset(s.procs[p].lcb.pending[o]) == multiset(s.procs[q].lcb.pending[o])
  {
    var pp, pq := s.procs[p], s.procs[q];
    ReachableInv(c, s);
    forall o | 0 <= o < c.n ensures multiset(From(pp.arrived, o)) == multiset(From(pq.arrived, o)) {
      SameArrivals(s, pp, pq, o);
    }
    assert CausalState(c, pp) && CausalState(c, pq);
    SameArrivalsSameState(c.deps, pp.lcb, pp.arrived, pq.lcb, pq.arrived);
  }

  lemma SameArrivals(s: State, p: Proc, q: Proc, o: Pid)
    requires Arrivals(s, p) && Arrivals(s, q) && p.urbDelivered == q.urbDelivered
    ensures multiset(From(p.arrived, o)) == multiset(From(q.arrived, o))
  {
    FromDistinct(p.arrived, o);
    FromDistinct(q.arrived, o);
    forall v ensures multiset(From(p.arrived, o))[v] == multiset(From(q.arrived, o))[v] {
      FromMember(p.arrived, LcbMsg(o, v));
      FromMember(q.arrived, LcbMsg(o, v));
      assert v in From(p.arrived, o) <==> v in From(q.arrived, o);
    }
  }

  /** When nobody crashed and nothing is left to send, everybody has delivered everything. */
  lemma FaultFreeCompleteness(c: Config, s: State, q: Pid)
    requires ValidConfig(c) && Reachable(c, s) && Quiescent(s) && c.n >= 2
    requires Crashed(s) == {} && NoLastRow(c, s) && q < |s.procs|
    ensures |s.procs[q].lcb.pending| == |s.procs[q].lcb.clock| == |s.procs| == c.n
    ensures forall o | 0 <= o < c.n :: s.procs[q].lcb.pending[o] == [] && s.procs[q].lcb.clock[o] == s.procs[o].sent
  {
    ReachableInv(c, s);
    forall k | 0 <= k < |s.broadcasts| ensures s.broadcasts[k].Id() in s.procs[q].urbDelivered {
      var o, id := s.broadcasts[k].origin, s.broadcasts[k].Id();
      BroadcastNamed(c, s, k);
      assert ShapeOf(c, s, o, s.procs[o]) && LogOf(c, s, o, s.procs[o]);
      assert o !in Crashed(s) && q !in Crashed(s);
      QuiescentDelivery(c, s, o, id, q);
    }
    NothingStaysBlocked(c, s, q);
  }
}
