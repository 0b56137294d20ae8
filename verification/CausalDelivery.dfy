/** The causal layer of one process: deliver_lcb and find_pending as functions on the
    three pieces of state they touch, and what holds after any sequence of arrivals. */
module CausalDelivery {
  import opened Messages

  /** Dependency lists: deps[o] names the processes that messages of o depend on. */
  type Deps = seq<seq<Pid>>

  /** The vector clock, one pending list per origin, and the log. */
  datatype Lcb = Lcb(clock: Clock, pending: seq<seq<Clock>>, log: seq<Event>)

  ghost predicate Shaped(deps: Deps, l: Lcb) {
    |l.clock| == |l.pending| == |deps|
  }

  function Init(n: nat): Lcb {
    Lcb(seq(n, _ => 0), seq(n, _ => []), [])
  }

  // ----- The operations -----

  /** test_vec_clock: no entry in the sender's dependency list is ahead of the clock. */
  predicate Ready(deps: Deps, clock: Clock, m: LcbMsg)
    requires m.origin < |deps|
  {
    forall q | q in deps[m.origin] :: At(m.clock, q) <= At(clock, q)
  }

  /** update_vec_clock followed by log_deliver_lcb. */
  function Accept(l: Lcb, m: LcbMsg): Lcb
    requires m.origin < |l.clock|
  {
    var c := l.clock[m.origin := l.clock[m.origin] + 1];
    l.(clock := c, log := l.log + [Delivers(m.origin, c[m.origin], m)])
  }

  function RemoveAt(cs: seq<Clock>, k: nat): seq<Clock>
    requires k < |cs|
  {
    cs[..k] + cs[k + 1..]
  }

  /** The k-th entry of pending list o, as the message it came from. */
  function Waiting(l: Lcb, o: Pid, k: nat): LcbMsg
    requires o < |l.pending| && k < |l.pending[o]|
  {
    LcbMsg(o, l.pending[o][k])
  }

  /** Deliver the k-th entry of pending list o and unlink it. */
  function Take(l: Lcb, o: Pid, k: nat): Lcb
    requires o < |l.pending| && k < |l.pending[o]| && o < |l.clock|
  {
    Accept(l, Waiting(l, o, k)).(pending := l.pending[o := RemoveAt(l.pending[o], k)])
  }

  /** The inner loop of find_pending, at position k of list o. */
  function Walk(deps: Deps, l: Lcb, o: Pid, k: nat): (r: Lcb)
    requires Shaped(deps, l) && o < |deps| && k <= |l.pending[o]|
    ensures Shaped(deps, r)
    decreases |l.pending[o]| - k
  {
    if k == |l.pending[o]| then l
    else if Ready(deps, l.clock, Waiting(l, o, k)) then Walk(deps, Take(l, o, k), o, k)
    else Walk(deps, l, o, k + 1)
  }

  /** The outer loop of find_pending, from list o on. */
  function Pass(deps: Deps, l: Lcb, o: Pid): (r: Lcb)
    requires Shaped(deps, l) && o <= |deps|
    ensures Shaped(deps, r)
    decreases |deps| - o
  {
    if o == |deps| then l else Pass(deps, Walk(deps, l, o, 0), o + 1)
  }

  /** How many clocks are pending in all. */
  function Size(pending: seq<seq<Clock>>): nat {
    if pending == [] then 0 else Size(pending[..|pending| - 1]) + |pending[|pending| - 1]|
  }

  /** find_pending repeated until it finds nothing. */
  function Drain(deps: Deps, l: Lcb): (r: Lcb)
    requires Shaped(deps, l)
    ensures Shaped(deps, r)
    decreases Size(l.pending)
  {
    PassShrinks(deps, l, 0);
    var r := Pass(deps, l, 0);
    if |r.log| > |l.log| then Drain(deps, r) else r
  }

  function AddPending(l: Lcb, m: LcbMsg): Lcb
    requires m.origin < |l.pending|
  {
    l.(pending := l.pending[m.origin := l.pending[m.origin] + [m.clock]])
  }

  /** deliver_lcb. */
  function Deliver(deps: Deps, l: Lcb, m: LcbMsg): (r: Lcb)
    requires Shaped(deps, l) && m.origin < |deps|
    ensures Shaped(deps, r)
  {
    if Ready(deps, l.clock, m) then Drain(deps, Accept(l, m)) else AddPending(l, m)
  }

  function DeliverAll(deps: Deps, l: Lcb, ms: seq<LcbMsg>): (r: Lcb)
    requires Shaped(deps, l) && forall m | m in ms :: m.origin < |deps|
    ensures Shaped(deps, r)
  {
    if ms == [] then l
    else Deliver(deps, DeliverAll(deps, l, ms[..|ms| - 1]), ms[|ms| - 1])
  }

  /** The clock send_lcb attaches to the i-th message of a process: a copy of its own
      with the own entry set to i - 1. */
  function Snapshot(clock: Clock, self: Pid, i: nat): Clock
    requires 1 <= i
  {
    if self < |clock| then clock[self := i - 1] else clock
  }

  /** The i-th message of process self, broadcast in state l. */
  function Attached(l: Lcb, self: Pid, i: nat): LcbMsg
    requires 1 <= i
  {
    LcbMsg(self, Snapshot(l.clock, self, i))
  }

  // ----- Termination of the drain -----

  lemma {:induction false} SizeUpdate(pending: seq<seq<Clock>>, o: Pid, cs: seq<Clock>)
    requires o < |pending|
    ensures Size(pending[o := cs]) == Size(pending) - |pending[o]| + |cs|
  {
    var last := |pending| - 1;
    if o == last {
      assert pending[o := cs][..last] == pending[..last];
    } else {
      assert pending[o := cs][..last] == pending[..last][o := cs];
      SizeUpdate(pending[..last], o, cs);
    }
  }

  /** Each delivery out of the pending lists shortens them by one, so a pass that
      delivers anything strictly shrinks what is pending. */
  lemma {:induction false} WalkShrinks(deps: Deps, l: Lcb, o: Pid, k: nat)
    requires Shaped(deps, l) && o < |deps| && k <= |l.pending[o]|
    ensures var r := Walk(deps, l, o, k);
      OnlyDelivers(l.log, r.log) && |r.log| + Size(r.pending) == |l.log| + Size(l.pending)
    decreases |l.pending[o]| - k
  {
    if k == |l.pending[o]| {
    } else if Ready(deps, l.clock, Waiting(l, o, k)) {
      SizeUpdate(l.pending, o, RemoveAt(l.pending[o], k));
      WalkShrinks(deps, Take(l, o, k), o, k);
    } else {
      WalkShrinks(deps, l, o, k + 1);
    }
  }

  lemma {:induction false} PassShrinks(deps: Deps, l: Lcb, o: Pid)
    requires Shaped(deps, l) && o <= |deps|
    ensures var r := Pass(deps, l, o);
      OnlyDelivers(l.log, r.log) && |r.log| + Size(r.pending) == |l.log| + Size(l.pending)
    decreases |deps| - o
  {
    if o < |deps| {
      WalkShrinks(deps, l, o, 0);
      PassShrinks(deps, Walk(deps, l, o, 0), o + 1);
    }
  }

  lemma {:induction false} DrainOnlyDelivers(deps: Deps, l: Lcb)
    requires Shaped(deps, l)
    ensures OnlyDelivers(l.log, Drain(deps, l).log)
    decreases Size(l.pending)
  {
    PassShrinks(deps, l, 0);
    var r := Pass(deps, l, 0);
    if |r.log| > |l.log| {
      DrainOnlyDelivers(deps, r);
    }
  }

  lemma DeliverOnlyDelivers(deps: Deps, l: Lcb, m: LcbMsg)
    requires Shaped(deps, l) && m.origin < |deps|
    ensures OnlyDelivers(l.log, Deliver(deps, l, m).log)
  {
    if Ready(deps, l.clock, m) {
      DrainOnlyDelivers(deps, Accept(l, m));
    }
  }

  // ----- The invariant of one process -----

  /** Entry k of the log was allowed when it was written: it carries the next number
      of its origin, and everything its clock names had been delivered. */
  ghost predicate Justified(deps: Deps, log: seq<Event>, k: nat)
    requires k < |log|
  {
    log[k].Delivers? ==>
      && log[k].pid == log[k].msg.origin < |deps|
      && log[k].n == Count(log[..k], log[k].pid) + 1
      && forall q | q in deps[log[k].pid] :: At(log[k].msg.clock, q) <= Count(log[..k], q)
  }

  ghost predicate AllJustified(deps: Deps, log: seq<Event>) {
    forall k | 0 <= k < |log| :: Justified(deps, log, k)
  }

  ghost function DeliveredBag(l: Lcb, o: Pid): multiset<Clock> {
    multiset(From(Delivered(l.log), o))
  }

  /** The clock counts deliveries, arrivals are conserved, and every delivery was allowed. */
  ghost predicate Consistent(deps: Deps, l: Lcb, arrived: seq<LcbMsg>) {
    && Shaped(deps, l)
    && AllJustified(deps, l.log)
    && (forall o | 0 <= o < |deps| :: l.clock[o] == Count(l.log, o))
    && (forall o | 0 <= o < |deps| ::
          DeliveredBag(l, o) + multiset(l.pending[o]) == multiset(From(arrived, o)))
  }

  /** Every pending message is blocked under the current clock. */
  ghost predicate AllBlocked(deps: Deps, l: Lcb)
    requires Shaped(deps, l)
  {
    forall o, k | 0 <= o < |deps| && 0 <= k < |l.pending[o]| :: !Ready(deps, l.clock, Waiting(l, o, k))
  }

  ghost predicate OnlyDelivers(before: seq<Event>, after: seq<Event>) {
    before <= after && forall k | |before| <= k < |after| :: after[k].Delivers?
  }

  lemma JustifiedAppend(deps: Deps, log: seq<Event>, e: Event)
    requires AllJustified(deps, log)
    requires e.Delivers? ==>
      && e.pid == e.msg.origin < |deps| && e.n == Count(log, e.pid) + 1
      && forall q | q in deps[e.pid] :: At(e.msg.clock, q) <= Count(log, q)
    ensures AllJustified(deps, log + [e])
  {
    var longer := log + [e];
    forall k | 0 <= k < |longer|
      ensures Justified(deps, longer, k)
    {
      if k < |log| {
        assert longer[..k] == log[..k];
        assert Justified(deps, log, k);
      } else {
        assert longer[..k] == log;
      }
    }
  }

  lemma AcceptConsistent(deps: Deps, l: Lcb, arrived: seq<LcbMsg>, m: LcbMsg)
    requires Consistent(deps, l, arrived) && ValidDeps(deps)
    requires m.origin < |deps| && Ready(deps, l.clock, m)
    ensures Consistent(deps, Accept(l, m), arrived + [m])
  {
    var r := Accept(l, m);
    var e := r.log[|l.log|];
    JustifiedAppend(deps, l.log, e);
    forall o | 0 <= o < |deps|
      ensures r.clock[o] == Count(r.log, o)
      ensures DeliveredBag(r, o) + multiset(r.pending[o]) == multiset(From(arrived + [m], o))
    {
      CountAppend(l.log, e, o);
      FromAppend(arrived, m, o);
      assert l.clock[o] == Count(l.log, o);
    }
  }

  ghost predicate ValidDeps(deps: Deps) {
    forall o, q | 0 <= o < |deps| && q in deps[o] :: q < |deps|
  }

  lemma TakeConsistent(deps: Deps, l: Lcb, arrived: seq<LcbMsg>, o: Pid, k: nat)
    requires Consistent(deps, l, arrived) && ValidDeps(deps)
    requires o < |deps| && k < |l.pending[o]| && Ready(deps, l.clock, Waiting(l, o, k))
    ensures Consistent(deps, Take(l, o, k), arrived)
  {
    var m := Waiting(l, o, k);
    var r := Take(l, o, k);
    var e := r.log[|l.log|];
    JustifiedAppend(deps, l.log, e);
    var cs := l.pending[o];
    assert cs == cs[..k] + [cs[k]] + cs[k + 1..];
    forall p | 0 <= p < |deps|
      ensures r.clock[p] == Count(r.log, p)
      ensures DeliveredBag(r, p) + multiset(r.pending[p]) == multiset(From(arrived, p))
    {
      CountAppend(l.log, e, p);
      assert l.clock[p] == Count(l.log, p);
    }
  }

  lemma {:induction false} WalkConsistent(deps: Deps, l: Lcb, arrived: seq<LcbMsg>, o: Pid, k: nat)
    requires Consistent(deps, l, arrived) && ValidDeps(deps)
    requires o < |deps| && k <= |l.pending[o]|
    ensures Consistent(deps, Walk(deps, l, o, k), arrived)
    decreases |l.pending[o]| - k
  {
    if k == |l.pending[o]| {
    } else if Ready(deps, l.clock, Waiting(l, o, k)) {
      TakeConsistent(deps, l, arrived, o, k);
      WalkConsistent(deps, Take(l, o, k), arrived, o, k);
    } else {
      WalkConsistent(deps, l, arrived, o, k + 1);
    }
  }

  lemma {:induction false} PassConsistent(deps: Deps, l: Lcb, arrived: seq<LcbMsg>, o: Pid)
    requires Consistent(deps, l, arrived) && ValidDeps(deps) && o <= |deps|
    ensures Consistent(deps, Pass(deps, l, o), arrived)
    decreases |deps| - o
  {
    if o < |deps| {
      WalkConsistent(deps, l, arrived, o, 0);
      PassConsistent(deps, Walk(deps, l, o, 0), arrived, o + 1);
    }
  }

  // ----- A pass that finds nothing leaves only blocked messages -----

  lemma {:induction false} IdleWalk(deps: Deps, l: Lcb, o: Pid, k: nat)
    requires Shaped(deps, l) && o < |deps| && k <= |l.pending[o]|
    requires |Walk(deps, l, o, k).log| == |l.log|
    ensures Walk(deps, l, o, k) == l
    ensures forall j | k <= j < |l.pending[o]| :: !Ready(deps, l.clock, Waiting(l, o, j))
    decreases |l.pending[o]| - k
  {
    if k == |l.pending[o]| {
    } else if Ready(deps, l.clock, Waiting(l, o, k)) {
      WalkShrinks(deps, Take(l, o, k), o, k);
    } else {
      IdleWalk(deps, l, o, k + 1);
    }
  }

  lemma {:induction false} IdlePass(deps: Deps, l: Lcb, o: Pid)
    requires Shaped(deps, l) && o <= |deps|
    requires |Pass(deps, l, o).log| == |l.log|
    ensures Pass(deps, l, o) == l
    ensures forall p, j | o <= p < |deps| && 0 <= j < |l.pending[p]| :: !Ready(deps, l.clock, Waiting(l, p, j))
    decreases |deps| - o
  {
    if o < |deps| {
      WalkShrinks(deps, l, o, 0);
      PassShrinks(deps, Walk(deps, l, o, 0), o + 1);
      IdleWalk(deps, l, o, 0);
      IdlePass(deps, l, o + 1);
    }
  }

  lemma {:induction false} DrainConsistent(deps: Deps, l: Lcb, arrived: seq<LcbMsg>)
    requires Consistent(deps, l, arrived) && ValidDeps(deps)
    ensures Consistent(deps, Drain(deps, l), arrived)
    ensures AllBlocked(deps, Drain(deps, l))
    decreases Size(l.pending)
  {
    PassShrinks(deps, l, 0);
    PassConsistent(deps, l, arrived, 0);
    var r := Pass(deps, l, 0);
    if |r.log| > |l.log| {
      DrainConsistent(deps, r, arrived);
    } else {
      IdlePass(deps, l, 0);
    }
  }

  lemma AddPendingBag(deps: Deps, l: Lcb, arrived: seq<LcbMsg>, m: LcbMsg, o: Pid)
    requires Consistent(deps, l, arrived) && m.origin < |deps| && o < |deps|
    ensures var r := AddPending(l, m);
      DeliveredBag(r, o) + multiset(r.pending[o]) == multiset(From(arrived + [m], o))
  {
    FromAppend(arrived, m, o);
    assert DeliveredBag(l, o) + multiset(l.pending[o]) == multiset(From(arrived, o));
  }

  lemma AddPendingBlocked(deps: Deps, l: Lcb, m: LcbMsg, o: Pid, k: nat)
    requires Shaped(deps, l) && AllBlocked(deps, l) && m.origin < |deps| && !Ready(deps, l.clock, m)
    requires o < |deps| && k < |AddPending(l, m).pending[o]|
    ensures !Ready(deps, l.clock, Waiting(AddPending(l, m), o, k))
  {
    if k < |l.pending[o]| {
      assert Waiting(AddPending(l, m), o, k) == Waiting(l, o, k);
    } else {
      assert Waiting(AddPending(l, m), o, k) == m;
    }
  }

  lemma AddPendingConsistent(deps: Deps, l: Lcb, arrived: seq<LcbMsg>, m: LcbMsg)
    requires Consistent(deps, l, arrived) && m.origin < |deps|
    ensures Consistent(deps, AddPending(l, m), arrived + [m])
  {
    var r := AddPending(l, m);
    forall o | 0 <= o < |deps|
      ensures DeliveredBag(r, o) + multiset(r.pending[o]) == multiset(From(arrived + [m], o))
    {
      AddPendingBag(deps, l, arrived, m, o);
    }
  }

  lemma AddPendingAllBlocked(deps: Deps, l: Lcb, m: LcbMsg)
    requires Shaped(deps, l) && AllBlocked(deps, l) && m.origin < |deps| && !Ready(deps, l.clock, m)
    ensures AllBlocked(deps, AddPending(l, m))
  {
    var r := AddPending(l, m);
    forall o, k | 0 <= o < |deps| && 0 <= k < |r.pending[o]| ensures !Ready(deps, r.clock, Waiting(r, o, k)) {
      AddPendingBlocked(deps, l, m, o, k);
    }
  }

  /** One call of deliver_lcb: the arrival is delivered or pending, nothing else appears
      or disappears, and every message still pending is blocked if it was before. */
  lemma DeliverConsistent(deps: Deps, l: Lcb, arrived: seq<LcbMsg>, m: LcbMsg)
    requires Consistent(deps, l, arrived) && ValidDeps(deps) && m.origin < |deps|
    ensures Consistent(deps, Deliver(deps, l, m), arrived + [m])
    ensures AllBlocked(deps, l) ==> AllBlocked(deps, Deliver(deps, l, m))
  {
    if Ready(deps, l.clock, m) {
      AcceptConsistent(deps, l, arrived, m);
      DrainConsistent(deps, Accept(l, m), arrived + [m]);
    } else {
      AddPendingConsistent(deps, l, arrived, m);
      if AllBlocked(deps, l) {
        AddPendingAllBlocked(deps, l, m);
      }
    }
  }

  /** Any sequence of arrivals whatever. */
  lemma {:induction false} DeliverAllConsistent(deps: Deps, ms: seq<LcbMsg>)
    requires ValidDeps(deps) && forall m | m in ms :: m.origin < |deps|
    ensures var r := DeliverAll(deps, Init(|deps|), ms);
      Consistent(deps, r, ms) && AllBlocked(deps, r)
  {
    if ms != [] {
      var init, m := ms[..|ms| - 1], ms[|ms| - 1];
      assert ms == init + [m];
      DeliverAllConsistent(deps, init);
      DeliverConsistent(deps, DeliverAll(deps, Init(|deps|), init), init, m);
    }
  }

  /** Every arrival of a message that is not blocked has been delivered. */
  lemma NoneWaiting(deps: Deps, l: Lcb, arrived: seq<LcbMsg>, m: LcbMsg)
    requires Consistent(deps, l, arrived) && AllBlocked(deps, l)
    requires m.origin < |deps| && Ready(deps, l.clock, m)
    ensures DeliveredBag(l, m.origin)[m.clock] == multiset(From(arrived, m.origin))[m.clock]
  {
    var o := m.origin;
    forall j | 0 <= j < |l.pending[o]| ensures l.pending[o][j] != m.clock {
      assert !Ready(deps, l.clock, Waiting(l, o, j));
    }
    assert (DeliveredBag(l, o) + multiset(l.pending[o]))[m.clock] == multiset(From(arrived, o))[m.clock];
  }

  lemma ReadyIsDelivered(deps: Deps, l: Lcb, arrived: seq<LcbMsg>, m: LcbMsg)
    requires Consistent(deps, l, arrived) && AllBlocked(deps, l)
    requires m in arrived && m.origin < |deps| && Ready(deps, l.clock, m)
    ensures m.clock in From(Delivered(l.log), m.origin)
  {
    FromMember(arrived, m);
    NoneWaiting(deps, l, arrived, m);
    assert m.clock in DeliveredBag(l, m.origin);
  }

  // ----- Confluence -----

  lemma PrefixArrived(deps: Deps, l: Lcb, arrived: seq<LcbMsg>, k: nat, o: Pid)
    requires Consistent(deps, l, arrived) && k <= |l.log| && o < |deps|
    ensures multiset(From(Delivered(l.log[..k]), o)) <= multiset(From(arrived, o))
  {
    CountPrefix(l.log, k, o);
    PrefixBag(From(Delivered(l.log[..k]), o), From(Delivered(l.log), o));
    assert DeliveredBag(l, o) + multiset(l.pending[o]) == multiset(From(arrived, o));
  }

  lemma BagStep<T>(a: seq<T>, e: T, bag: multiset<T>)
    requires multiset(a) <= bag && multiset(a + [e])[e] <= bag[e]
    ensures multiset(a + [e]) <= bag
  {
    forall x ensures multiset(a + [e])[x] <= bag[x] {
      assert multiset(a)[x] <= bag[x];
    }
  }

  /** What one process has delivered at any point of its log, another process that
      received the same messages has delivered too. */
  lemma {:induction false} Dominates(deps: Deps, l1: Lcb, arr1: seq<LcbMsg>, l2: Lcb, arr2: seq<LcbMsg>, k: nat, o: Pid)
    requires ValidDeps(deps) && Consistent(deps, l1, arr1)
    requires Consistent(deps, l2, arr2) && AllBlocked(deps, l2)
    requires forall p | 0 <= p < |deps| :: multiset(From(arr1, p)) <= multiset(From(arr2, p))
    requires k <= |l1.log| && o < |deps|
    ensures multiset(From(Delivered(l1.log[..k]), o)) <= DeliveredBag(l2, o)
    decreases k
  {
    if k > 0 {
      var init, e := l1.log[..k - 1], l1.log[k - 1];
      assert l1.log[..k] == init + [e];
      CountAppend(init, e, o);
      Dominates(deps, l1, arr1, l2, arr2, k - 1, o);
      if e.Delivers? && e.msg.origin == o {
        forall q | q in deps[o] ensures multiset(From(Delivered(init), q)) <= DeliveredBag(l2, q) {
          Dominates(deps, l1, arr1, l2, arr2, k - 1, q);
        }
        NextAlsoReady(deps, l1, arr1, l2, arr2, k - 1);
        NoneWaiting(deps, l2, arr2, e.msg);
        PrefixArrived(deps, l1, arr1, k, o);
        BagStep(From(Delivered(init), o), e.msg.clock, DeliveredBag(l2, o));
      }
    }
  }

  /** If l2 has delivered all that l1 had before line k, what l1 delivers there is not
      blocked for l2. */
  lemma NextAlsoReady(deps: Deps, l1: Lcb, arr1: seq<LcbMsg>, l2: Lcb, arr2: seq<LcbMsg>, k: nat)
    requires ValidDeps(deps) && Consistent(deps, l1, arr1) && Consistent(deps, l2, arr2)
    requires k < |l1.log| && l1.log[k].Delivers? && l1.log[k].msg.origin < |deps|
    requires forall q | q in deps[l1.log[k].msg.origin] ::
      multiset(From(Delivered(l1.log[..k]), q)) <= DeliveredBag(l2, q)
    ensures Ready(deps, l2.clock, l1.log[k].msg)
  {
    assert Justified(deps, l1.log, k);
    forall q | q in deps[l1.log[k].msg.origin] ensures At(l1.log[k].msg.clock, q) <= At(l2.clock, q) {
      BagSize(From(Delivered(l1.log[..k]), q), From(Delivered(l2.log), q));
      assert l2.clock[q] == Count(l2.log, q);
    }
  }

  lemma BagSize<T>(a: seq<T>, b: seq<T>)
    requires multiset(a) <= multiset(b)
    ensures |a| <= |b|
  {
    assert multiset(b) == multiset(a) + (multiset(b) - multiset(a));
    assert |multiset(a)| == |a| && |multiset(b)| == |b|;
  }

  lemma PrefixBag<T>(a: seq<T>, b: seq<T>)
    requires a <= b
    ensures multiset(a) <= multiset(b)
  {
    assert b == a + b[|a|..];
  }

  lemma BagRest<T>(d: multiset<T>, p: multiset<T>, q: multiset<T>)
    requires d + p == d + q
    ensures p == q
  {
    assert p == (d + p) - d && q == (d + q) - d;
  }

  lemma SameArrivalsSameOrigin(deps: Deps, l1: Lcb, arr1: seq<LcbMsg>, l2: Lcb, arr2: seq<LcbMsg>, o: Pid)
    requires ValidDeps(deps) && o < |deps|
    requires Consistent(deps, l1, arr1) && AllBlocked(deps, l1)
    requires Consistent(deps, l2, arr2) && AllBlocked(deps, l2)
    requires forall p | 0 <= p < |deps| :: multiset(From(arr1, p)) == multiset(From(arr2, p))
    ensures DeliveredBag(l1, o) == DeliveredBag(l2, o) && multiset(l1.pending[o]) == multiset(l2.pending[o])
  {
    Dominates(deps, l1, arr1, l2, arr2, |l1.log|, o);
    Dominates(deps, l2, arr2, l1, arr1, |l2.log|, o);
    assert l1.log[..|l1.log|] == l1.log && l2.log[..|l2.log|] == l2.log;
    BagRest(DeliveredBag(l1, o), multiset(l1.pending[o]), multiset(l2.pending[o]));
  }

  /** Two processes that received the same messages, in whatever orders, have the
      same clock, have delivered the same messages and hold the same ones back. */
  lemma SameArrivalsSameState(deps: Deps, l1: Lcb, arr1: seq<LcbMsg>, l2: Lcb, arr2: seq<LcbMsg>)
    requires ValidDeps(deps)
    requires Consistent(deps, l1, arr1) && AllBlocked(deps, l1)
    requires Consistent(deps, l2, arr2) && AllBlocked(deps, l2)
    requires forall p | 0 <= p < |deps| :: multiset(From(arr1, p)) == multiset(From(arr2, p))
    ensures l1.clock == l2.clock
    ensures forall o | 0 <= o < |deps| :: DeliveredBag(l1, o) == DeliveredBag(l2, o)
    ensures forall o | 0 <= o < |deps| :: multiset(l1.pending[o]) == multiset(l2.pending[o])
  {
    forall o | 0 <= o < |deps|
      ensures DeliveredBag(l1, o) == DeliveredBag(l2, o)
      ensures multiset(l1.pending[o]) == multiset(l2.pending[o])
      ensures l1.clock[o] == l2.clock[o]
    {
      SameArrivalsSameOrigin(deps, l1, arr1, l2, arr2, o);
      assert l1.clock[o] == |DeliveredBag(l1, o)| && l2.clock[o] == |DeliveredBag(l2, o)|;
    }
  }

  /** Confluence of deliver_lcb: the order in which messages arrive does not matter. */
  lemma Confluence(deps: Deps, ms1: seq<LcbMsg>, ms2: seq<LcbMsg>)
    requires ValidDeps(deps) && multiset(ms1) == multiset(ms2)
    requires forall m | m in ms1 :: m.origin < |deps|
    ensures forall m | m in ms2 :: m.origin < |deps|
    ensures var r1, r2 := DeliverAll(deps, Init(|deps|), ms1), DeliverAll(deps, Init(|deps|), ms2);
      && r1.clock == r2.clock
      && forall o | 0 <= o < |deps| ::
           DeliveredBag(r1, o) == DeliveredBag(r2, o) && multiset(r1.pending[o]) == multiset(r2.pending[o])
  {
    forall m | m in ms2 ensures m.origin < |deps| {
      assert m in multiset(ms2);
    }
    DeliverAllConsistent(deps, ms1);
    DeliverAllConsistent(deps, ms2);
    forall o | 0 <= o < |deps| ensures multiset(From(ms1, o)) == multiset(From(ms2, o)) {
      FromBag(ms1, ms2, o);
    }
    SameArrivalsSameState(deps, DeliverAll(deps, Init(|deps|), ms1), ms1, DeliverAll(deps, Init(|deps|), ms2), ms2);
  }

  lemma {:induction false} FromCount(ms: seq<LcbMsg>, o: Pid, c: Clock)
    ensures multiset(From(ms, o))[c] == multiset(ms)[LcbMsg(o, c)]
  {
    if ms != [] {
      var init, m := ms[..|ms| - 1], ms[|ms| - 1];
      assert ms == init + [m];
      FromAppend(init, m, o);
      FromCount(init, o, c);
    }
  }

  lemma FromBag(ms1: seq<LcbMsg>, ms2: seq<LcbMsg>, o: Pid)
    requires multiset(ms1) == multiset(ms2)
    ensures multiset(From(ms1, o)) == multiset(From(ms2, o))
  {
    forall c: Clock ensures multiset(From(ms1, o))[c] == multiset(From(ms2, o))[c] {
      FromCount(ms1, o, c);
      FromCount(ms2, o, c);
    }
  }
}
