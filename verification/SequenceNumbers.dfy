/** The causal layer logs a counter, not the sequence number of the message it delivers,
    and its clock test only checks "not ahead". When the two agree. */
module SequenceNumbers {
  import opened Messages
  import opened CausalDelivery

  /** No broadcast arrives twice: what uniform reliable broadcast promises. */
  ghost predicate Distinct(ms: seq<LcbMsg>) {
    forall i, j | 0 <= i < j < |ms| :: ms[i].Id() != ms[j].Id()
  }

  /** At most one clock in the bag for each own entry. */
  ghost predicate OwnEntryUnique(bag: multiset<Clock>, o: Pid) {
    && (forall c :: bag[c] <= 1)
    && (forall c, d :: c in bag && d in bag && At(c, o) == At(d, o) ==> c == d)
  }

  lemma {:induction false} FromDistinct(ms: seq<LcbMsg>, o: Pid)
    requires Distinct(ms)
    ensures OwnEntryUnique(multiset(From(ms, o)), o)
  {
    if ms != [] {
      var init, m := ms[..|ms| - 1], ms[|ms| - 1];
      assert ms == init + [m];
      FromDistinct(init, o);
      FromAppend(init, m, o);
      if m.origin == o {
        forall c | c in From(init, o) ensures At(c, o) != At(m.clock, o) {
          FromMember(init, LcbMsg(o, c));
          var i :| 0 <= i < |init| && init[i] == LcbMsg(o, c);
          assert ms[i].Id() != ms[|ms| - 1].Id();
        }
      }
    }
  }

  /** A delivery's own clock entry differs from that of every earlier one of its origin. */
  lemma OwnEntryIsNew(deps: Deps, l: Lcb, arrived: seq<LcbMsg>, o: Pid, k: nat)
    requires Consistent(deps, l, arrived) && Distinct(arrived) && o < |deps|
    requires k < |l.log| && l.log[k].Delivers? && l.log[k].msg.origin == o
    ensures forall c | c in From(Delivered(l.log[..k]), o) :: At(c, o) != At(l.log[k].msg.clock, o)
  {
    var init, e := l.log[..k], l.log[k];
    assert l.log[..k + 1] == init + [e];
    CountAppend(init, e, o);
    CountPrefix(l.log, k + 1, o);
    var before, upTo := From(Delivered(init), o), From(Delivered(l.log[..k + 1]), o);
    PrefixBag(upTo, From(Delivered(l.log), o));
    FromDistinct(arrived, o);
    assert upTo == before + [e.msg.clock];
    SubBagUnique(multiset(upTo), multiset(From(arrived, o)), o);
    forall c | c in before ensures At(c, o) != At(e.msg.clock, o) {
      assert c in multiset(upTo) && e.msg.clock in multiset(upTo);
      assert multiset(upTo)[e.msg.clock] == multiset(before)[e.msg.clock] + 1;
    }
  }

  lemma SubBagUnique(a: multiset<Clock>, b: multiset<Clock>, o: Pid)
    requires a <= b && OwnEntryUnique(b, o)
    ensures OwnEntryUnique(a, o)
  {
    forall c ensures a[c] <= 1 {
      assert a[c] <= b[c];
    }
  }

  /** As many clocks as own entries, at most. */
  lemma {:induction false} OwnEntriesFit(cs: seq<Clock>, o: Pid, owns: set<nat>)
    requires OwnEntryUnique(multiset(cs), o) && forall c | c in cs :: At(c, o) in owns
    ensures |cs| <= |owns|
  {
    if cs != [] {
      var init, last := cs[..|cs| - 1], cs[|cs| - 1];
      assert cs == init + [last];
      assert multiset(cs) == multiset(init) + multiset{last};
      SubBagUnique(multiset(init), multiset(cs), o);
      forall c | c in init ensures At(c, o) in owns - {At(last, o)} {
        assert c in multiset(cs) && last in multiset(cs);
        assert multiset(init)[last] == multiset(cs)[last] - 1;
      }
      OwnEntriesFit(init, o, owns - {At(last, o)});
    }
  }

  /** Each delivery of origin o is not ahead of its predecessors and repeats none. */
  ghost predicate BoundedAndNew(log: seq<Event>, o: Pid, k: nat)
    requires k < |log|
  {
    log[k].Delivers? && log[k].msg.origin == o ==>
      var own := At(log[k].msg.clock, o);
      own <= Count(log[..k], o) && forall c | c in From(Delivered(log[..k]), o) :: own != At(c, o)
  }

  /** The own entries are 0, 1, 2, ... */
  ghost predicate OwnEntriesCount(cs: seq<Clock>, o: Pid) {
    forall j | 0 <= j < |cs| :: At(cs[j], o) == j
  }

  lemma NextOwnEntry(cs: seq<Clock>, c: Clock, o: Pid)
    requires OwnEntriesCount(cs, o)
    requires At(c, o) <= |cs| && forall d | d in cs :: At(c, o) != At(d, o)
    ensures OwnEntriesCount(cs + [c], o)
  {
    var owns := set j | 0 <= j < |cs| :: At(cs[j], o);
    assert At(c, o) !in owns;
    forall x | 0 <= x < |cs| ensures x in owns {
      assert At(cs[x], o) == x;
    }
  }

  lemma {:induction false} CountUp(log: seq<Event>, o: Pid, k: nat)
    requires k <= |log| && forall j | 0 <= j < k :: BoundedAndNew(log, o, j)
    ensures OwnEntriesCount(From(Delivered(log[..k]), o), o)
  {
    if k > 0 {
      CountUp(log, o, k - 1);
      var e, before := log[k - 1], From(Delivered(log[..k - 1]), o);
      var mine := e.Delivers? && e.msg.origin == o;
      assert From(Delivered(log[..k]), o) == before + (if mine then [e.msg.clock] else []) by {
        assert log[..k] == log[..k - 1] + [e];
        CountAppend(log[..k - 1], e, o);
      }
      if mine {
        assert BoundedAndNew(log, o, k - 1);
        NextOwnEntry(before, e.msg.clock, o);
      }
    }
  }

  /** If messages of o depend on o, they are delivered with own entries 0, 1, 2, ... */
  lemma DeliveredInOrder(deps: Deps, l: Lcb, arrived: seq<LcbMsg>, o: Pid, k: nat)
    requires ValidDeps(deps) && Consistent(deps, l, arrived) && Distinct(arrived)
    requires o < |deps| && o in deps[o] && k <= |l.log|
    ensures OwnEntriesCount(From(Delivered(l.log[..k]), o), o)
  {
    forall j | 0 <= j < k ensures BoundedAndNew(l.log, o, j) {
      if l.log[j].Delivers? && l.log[j].msg.origin == o {
        assert Justified(deps, l.log, j);
        OwnEntryIsNew(deps, l, arrived, o, j);
      }
    }
    CountUp(l.log, o, k);
  }

  /** Then the number logged is the delivered message's sequence number. */
  lemma LoggedNumberIsSequenceNumber(deps: Deps, l: Lcb, arrived: seq<LcbMsg>, k: nat)
    requires ValidDeps(deps) && Consistent(deps, l, arrived) && Distinct(arrived)
    requires k < |l.log| && l.log[k].Delivers? && l.log[k].pid < |deps|
    requires l.log[k].pid in deps[l.log[k].pid]
    ensures l.log[k].msg.Id() == MsgId(l.log[k].pid, l.log[k].n)
  {
    var e := l.log[k];
    assert Justified(deps, l.log, k);
    DeliveredInOrder(deps, l, arrived, e.pid, k + 1);
    assert l.log[..k + 1] == l.log[..k] + [e];
    CountAppend(l.log[..k], e, e.pid);
    assert From(Delivered(l.log[..k + 1]), e.pid)[Count(l.log[..k], e.pid)] == e.msg.clock;
  }

  /** Every log that distinct arrivals can produce numbers the messages of o correctly. */
  ghost predicate NumbersExact(deps: Deps, o: Pid) {
    forall ms: seq<LcbMsg>, k | Distinct(ms) && (forall m | m in ms :: m.origin < |deps|) ::
      var log := DeliverAll(deps, Init(|deps|), ms).log;
      0 <= k < |log| && log[k].Delivers? && log[k].pid == o ==> log[k].n == log[k].msg.Id().seqNum
  }

  /** A run in which a process outside its own dependency list has its second message
      delivered first: it is logged as number 1. */
  lemma SecondMessageFirst(deps: Deps, o: Pid) returns (m: LcbMsg)
    requires ValidDeps(deps) && o < |deps| && o !in deps[o]
    ensures m.origin == o && m.Id().seqNum == 2
    ensures var log := DeliverAll(deps, Init(|deps|), [m]).log;
      |log| >= 1 && log[0] == Delivers(o, 1, m)
  {
    var l := Init(|deps|);
    m := LcbMsg(o, l.clock[o := 1]);
    assert DeliverAll(deps, l, []) == l;
    assert [m][..0] == [];
    assert Ready(deps, l.clock, m);
    DrainOnlyDelivers(deps, Accept(l, m));
  }

  /** FIFO order with exact numbers holds for process o if and only if o is in its own
      dependency list. */
  lemma ExactIffSelfDependent(deps: Deps, o: Pid)
    requires ValidDeps(deps) && o < |deps|
    ensures NumbersExact(deps, o) <==> o in deps[o]
  {
    if o in deps[o] {
      forall ms: seq<LcbMsg>, k | Distinct(ms) && (forall m | m in ms :: m.origin < |deps|)
        ensures var log := DeliverAll(deps, Init(|deps|), ms).log;
          0 <= k < |log| && log[k].Delivers? && log[k].pid == o ==> log[k].n == log[k].msg.Id().seqNum
      {
        var l := DeliverAll(deps, Init(|deps|), ms);
        DeliverAllConsistent(deps, ms);
        if 0 <= k < |l.log| && l.log[k].Delivers? && l.log[k].pid == o {
          LoggedNumberIsSequenceNumber(deps, l, ms, k);
        }
      }
    } else {
      var m := SecondMessageFirst(deps, o);
      var ms := [m];
      assert Distinct(ms) && forall x | x in ms :: x.origin < |deps|;
    }
  }

  // ----- Reading a log -----

  /** What is logged as delivered did arrive. */
  lemma DeliveredArrived(deps: Deps, l: Lcb, arrived: seq<LcbMsg>, k: nat)
    requires Consistent(deps, l, arrived) && k < |l.log| && l.log[k].Delivers?
    ensures l.log[k].msg in arrived
  {
    var e := l.log[k];
    assert Justified(deps, l.log, k);
    assert l.log[..k + 1] == l.log[..k] + [e];
    CountAppend(l.log[..k], e, e.pid);
    CountPrefix(l.log, k + 1, e.pid);
    assert e.msg.clock in From(Delivered(l.log[..k + 1]), e.pid);
    PrefixBag(From(Delivered(l.log[..k + 1]), e.pid), From(Delivered(l.log), e.pid));
    assert e.msg.clock in multiset(From(arrived, e.pid));
    FromMember(arrived, e.msg);
  }

  /** The j-th delivery of origin q is logged as number j. */
  lemma {:induction false} FindDelivery(deps: Deps, log: seq<Event>, e: nat, q: Pid, j: nat) returns (d: nat)
    requires AllJustified(deps, log) && e <= |log| && 1 <= j <= Count(log[..e], q)
    ensures d < e && log[d].Delivers? && log[d].pid == q && log[d].n == j
    decreases e
  {
    assert e > 0;
    assert log[..e] == log[..e - 1] + [log[e - 1]];
    CountAppend(log[..e - 1], log[e - 1], q);
    if j <= Count(log[..e - 1], q) {
      d := FindDelivery(deps, log, e - 1, q, j);
    } else {
      assert Justified(deps, log, e - 1);
      d := e - 1;
    }
  }

  /** A delivery is counted by every later prefix. */
  lemma CountReaches(deps: Deps, log: seq<Event>, a: nat, b: nat)
    requires a < b <= |log| && log[a].Delivers? && Justified(deps, log, a)
    ensures log[a].n <= Count(log[..b], log[a].pid)
  {
    assert log[..b][..a + 1] == log[..a] + [log[a]];
    CountAppend(log[..a], log[a], log[a].pid);
    CountPrefix(log[..b], a + 1, log[a].pid);
  }

  /** Before a message is delivered, as many of q's messages are delivered as its clock
      counts, for every q its origin depends on. */
  lemma DependencyDelivered(deps: Deps, log: seq<Event>, e: nat, q: Pid, j: nat) returns (d: nat)
    requires AllJustified(deps, log) && e < |log| && log[e].Delivers? && log[e].pid < |deps|
    requires q in deps[log[e].pid] && 1 <= j <= At(log[e].msg.clock, q)
    ensures d < e && log[d].Delivers? && log[d].pid == q && log[d].n == j
  {
    assert Justified(deps, log, e);
    d := FindDelivery(deps, log, e, q, j);
  }

  // ----- When causal order holds -----

  /** Two processes received messages of the same system: each at most once, and the
      same broadcast with the same clock. */
  ghost predicate CommonMessages(deps: Deps, ms1: seq<LcbMsg>, ms2: seq<LcbMsg>) {
    && Distinct(ms1) && Distinct(ms2)
    && (forall m | m in ms1 :: m.origin < |deps|) && (forall m | m in ms2 :: m.origin < |deps|)
    && forall m1, m2 | m1 in ms1 && m2 in ms2 && m1.Id() == m2.Id() :: m1 == m2
  }

  /** m2 broadcast by p after receiving ms1: whoever delivers it has first delivered
      every message of q that p had delivered. */
  ghost predicate OrderKept(deps: Deps, p: Pid, q: Pid, ms1: seq<LcbMsg>, ms2: seq<LcbMsg>, i: nat)
    requires CommonMessages(deps, ms1, ms2) && p < |deps| && 1 <= i
  {
    var l1, l2 := DeliverAll(deps, Init(|deps|), ms1), DeliverAll(deps, Init(|deps|), ms2);
    forall a, e | 0 <= a < |l1.log| && 0 <= e < |l2.log| && l1.log[a].Delivers? && l1.log[a].pid == q
      && l2.log[e].Delivers? && l2.log[e].msg == Attached(l1, p, i) ::
        exists d :: 0 <= d < e && l2.log[d].Delivers? && l2.log[d].msg == l1.log[a].msg
  }

  ghost predicate AlwaysOrdered(deps: Deps, p: Pid, q: Pid)
    requires p < |deps|
  {
    forall ms1, ms2, i: nat | CommonMessages(deps, ms1, ms2) && 1 <= i :: OrderKept(deps, p, q, ms1, ms2, i)
  }

  lemma SelfDependentKeepsOrder(deps: Deps, p: Pid, q: Pid, ms1: seq<LcbMsg>, ms2: seq<LcbMsg>, i: nat)
    requires ValidDeps(deps) && p < |deps| && q in deps[p] && q in deps[q] && q != p
    requires CommonMessages(deps, ms1, ms2) && 1 <= i
    ensures OrderKept(deps, p, q, ms1, ms2, i)
  {
    var l1, l2 := DeliverAll(deps, Init(|deps|), ms1), DeliverAll(deps, Init(|deps|), ms2);
    DeliverAllConsistent(deps, ms1);
    DeliverAllConsistent(deps, ms2);
    forall a, e | 0 <= a < |l1.log| && 0 <= e < |l2.log| && l1.log[a].Delivers? && l1.log[a].pid == q
      && l2.log[e].Delivers? && l2.log[e].msg == Attached(l1, p, i)
      ensures exists d :: 0 <= d < e && l2.log[d].Delivers? && l2.log[d].msg == l1.log[a].msg
    {
      assert Justified(deps, l1.log, a) && Justified(deps, l2.log, e);
      CountReaches(deps, l1.log, a, |l1.log|);
      assert l1.log[..|l1.log|] == l1.log;
      var d := DependencyDelivered(deps, l2.log, e, q, l1.log[a].n);
      LoggedNumberIsSequenceNumber(deps, l1, ms1, a);
      LoggedNumberIsSequenceNumber(deps, l2, ms2, d);
      DeliveredArrived(deps, l1, ms1, a);
      DeliveredArrived(deps, l2, ms2, d);
    }
  }

  lemma DeliverAllAppend(deps: Deps, l: Lcb, ms: seq<LcbMsg>, m: LcbMsg)
    requires Shaped(deps, l) && forall x | x in ms + [m] :: x.origin < |deps|
    ensures DeliverAll(deps, l, ms + [m]) == Deliver(deps, DeliverAll(deps, l, ms), m)
  {
    assert (ms + [m])[..|ms|] == ms;
  }

  lemma EmptyDrain(deps: Deps, l: Lcb)
    requires Shaped(deps, l) && forall p | 0 <= p < |deps| :: l.pending[p] == []
    ensures Drain(deps, l) == l
  {
    EmptyPass(deps, l, 0);
  }

  /** With nothing pending and nothing blocking it, an arrival is delivered at once and
      nothing else is. */
  lemma ReadyArrival(deps: Deps, ms: seq<LcbMsg>, m: LcbMsg)
    requires ValidDeps(deps) && (forall x | x in ms + [m] :: x.origin < |deps|)
    requires var l := DeliverAll(deps, Init(|deps|), ms);
      Ready(deps, l.clock, m) && forall o | 0 <= o < |deps| :: l.pending[o] == []
    ensures DeliverAll(deps, Init(|deps|), ms + [m]) == Accept(DeliverAll(deps, Init(|deps|), ms), m)
  {
    DeliverAllAppend(deps, Init(|deps|), ms, m);
    EmptyDrain(deps, Accept(DeliverAll(deps, Init(|deps|), ms), m));
  }

  lemma {:induction false} EmptyPass(deps: Deps, l: Lcb, o: Pid)
    requires Shaped(deps, l) && o <= |deps| && forall p | 0 <= p < |deps| :: l.pending[p] == []
    ensures Pass(deps, l, o) == l
    decreases |deps| - o
  {
    if o < |deps| {
      EmptyPass(deps, l, o + 1);
    }
  }

  lemma FirstArrival(deps: Deps, m: LcbMsg)
    requires ValidDeps(deps) && m.origin < |deps| && Ready(deps, Init(|deps|).clock, m)
    ensures DeliverAll(deps, Init(|deps|), [m]) == Accept(Init(|deps|), m)
  {
    assert [] + [m] == [m];
    ReadyArrival(deps, [], m);
  }

  lemma SecondArrival(deps: Deps, m1: LcbMsg, m2: LcbMsg)
    requires ValidDeps(deps) && m1.origin < |deps| && m2.origin < |deps|
    requires Ready(deps, Init(|deps|).clock, m1) && Ready(deps, Accept(Init(|deps|), m1).clock, m2)
    ensures DeliverAll(deps, Init(|deps|), [m1, m2]) == Accept(Accept(Init(|deps|), m1), m2)
  {
    FirstArrival(deps, m1);
    assert [m1] + [m2] == [m1, m2];
    ReadyArrival(deps, [m1], m2);
  }

  /** Process p delivers the first message of q; another process delivers q's second
      message and then what p broadcast, if q is not in its own list. */
  lemma OvertakenLogs(deps: Deps, p: Pid, q: Pid) returns (first: LcbMsg, second: LcbMsg, mine: LcbMsg)
    requires ValidDeps(deps) && p < |deps| && q < |deps| && q != p && q in deps[p] && q !in deps[q]
    ensures first.Id() == MsgId(q, 1) && second.Id() == MsgId(q, 2) && mine.Id() == MsgId(p, 1)
    ensures var l1, l2 := DeliverAll(deps, Init(|deps|), [first]), DeliverAll(deps, Init(|deps|), [second, mine]);
      && l1.log == [Delivers(q, 1, first)] && mine == Attached(l1, p, 1)
      && l2.log == [Delivers(q, 1, second), Delivers(p, 1, mine)]
  {
    var l0 := Init(|deps|);
    first, second := LcbMsg(q, l0.clock), LcbMsg(q, l0.clock[q := 1]);
    mine := Attached(Accept(l0, first), p, 1);
    FirstArrival(deps, first);
    SecondArrival(deps, second, mine);
  }

  /** So p's message can be delivered before q's first one, which p had delivered. */
  lemma OvertakenDependency(deps: Deps, p: Pid, q: Pid) returns (ms1: seq<LcbMsg>, ms2: seq<LcbMsg>)
    requires ValidDeps(deps) && p < |deps| && q < |deps| && q != p && q in deps[p] && q !in deps[q]
    ensures CommonMessages(deps, ms1, ms2) && !OrderKept(deps, p, q, ms1, ms2, 1)
  {
    var first, second, mine := OvertakenLogs(deps, p, q);
    ms1, ms2 := [first], [second, mine];
    assert CommonMessages(deps, ms1, ms2);
    var l1, l2 := DeliverAll(deps, Init(|deps|), ms1), DeliverAll(deps, Init(|deps|), ms2);
    assert l1.log[0].msg == first && l2.log[1].msg == mine && l2.log[0].msg == second;
  }

  /** Localized causal order of p's messages after those of its dependency q holds if
      and only if q is in its own dependency list. */
  lemma CausalIffSelfDependent(deps: Deps, p: Pid, q: Pid)
    requires ValidDeps(deps) && p < |deps| && q < |deps| && q != p && q in deps[p]
    ensures AlwaysOrdered(deps, p, q) <==> q in deps[q]
  {
    if q in deps[q] {
      forall ms1, ms2, i: nat | CommonMessages(deps, ms1, ms2) && 1 <= i
        ensures OrderKept(deps, p, q, ms1, ms2, i)
      {
        SelfDependentKeepsOrder(deps, p, q, ms1, ms2, i);
      }
    } else {
      var ms1, ms2 := OvertakenDependency(deps, p, q);
    }
  }
}
