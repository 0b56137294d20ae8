/** Fourth layer of the invariant: what the logs say about the clocks attached to
    broadcasts, and what those clocks may count. */
module Logs {
  import opened Messages
  import opened CausalDelivery
  import opened SequenceNumbers
  import opened Protocol
  import opened Genuine
  import opened UrbFacts

  /** A line "b i" at position b: it is the i-th, and the clock attached to that
      broadcast counts the deliveries logged before the line, except that the own
      entry counts the earlier broadcasts. */
  ghost predicate Stamped(c: Config, s: State, q: Pid, log: seq<Event>, b: nat)
    requires b < |log|
  {
    log[b].Broadcasts? ==>
      var i := log[b].n;
      && i == BroadcastCount(log[..b]) + 1 <= |From(s.broadcasts, q)|
      && var v := From(s.broadcasts, q)[i - 1];
         && |v| == c.n && q < c.n && v[q] == i - 1 && Count(log[..b], q) <= i - 1
         && forall x | 0 <= x < c.n && x != q :: v[x] == Count(log[..b], x)
  }

  ghost predicate LogOf(c: Config, s: State, q: Pid, p: Proc) {
    && BroadcastCount(p.lcb.log) == p.sent
    && (forall i | 1 <= i <= p.sent :: MsgId(q, i) in p.seen)
    && forall b | 0 <= b < |p.lcb.log| :: Stamped(c, s, q, p.lcb.log, b)
  }

  /** The clock of the k-th broadcast counts only messages broadcast before it. */
  ghost predicate PastOnly(c: Config, ms: seq<LcbMsg>, k: nat)
    requires k < |ms|
  {
    forall x | 0 <= x < c.n :: At(ms[k].clock, x) <= |From(ms[..k], x)|
  }

  ghost predicate LogInv(c: Config, s: State) {
    && (forall q | 0 <= q < |s.procs| :: LogOf(c, s, q, s.procs[q]))
    && (forall k | 0 <= k < |s.broadcasts| :: PastOnly(c, s.broadcasts, k))
  }

  // ----- Nobody delivers more than was broadcast -----

  lemma ArrivedWithinBroadcast(c: Config, s: State, p: Proc, x: Pid)
    requires GenuineInv(c, s) && Arrivals(s, p)
    ensures multiset(From(p.arrived, x)) <= multiset(From(s.broadcasts, x))
  {
    var a, b := multiset(From(p.arrived, x)), multiset(From(s.broadcasts, x));
    FromDistinct(p.arrived, x);
    forall v ensures a[v] <= b[v] {
      assert a[v] <= 1;
      if v in a {
        FromMember(p.arrived, LcbMsg(x, v));
        MessageNamesItself(c, s, LcbMsg(x, v).Id());
        FromMember(s.broadcasts, LcbMsg(x, v));
      }
    }
  }

  lemma CountWithinBroadcast(c: Config, s: State, p: Proc, x: Pid)
    requires GenuineInv(c, s) && Arrivals(s, p) && CausalState(c, p) && x < |c.deps|
    ensures p.lcb.clock[x] == Count(p.lcb.log, x) <= |From(p.arrived, x)| <= |From(s.broadcasts, x)|
  {
    ArrivedWithinBroadcast(c, s, p, x);
    BagSize(From(p.arrived, x), From(s.broadcasts, x));
    assert DeliveredBag(p.lcb, x) + multiset(p.lcb.pending[x]) == multiset(From(p.arrived, x));
    BagSize(From(Delivered(p.lcb.log), x), From(p.arrived, x));
  }

  // ----- Preservation -----

  lemma StampedStable(c: Config, s: State, s': State, q: Pid, log: seq<Event>, log': seq<Event>, b: nat)
    requires s.broadcasts <= s'.broadcasts && log <= log' && b < |log| && Stamped(c, s, q, log, b)
    ensures Stamped(c, s', q, log', b)
  {
    FromPrefix(s.broadcasts, s'.broadcasts, q);
    assert log'[..b] == log[..b];
  }

  lemma {:induction false} DeliversNoBroadcast(log: seq<Event>, log': seq<Event>)
    requires OnlyDelivers(log, log')
    ensures BroadcastCount(log') == BroadcastCount(log)
    decreases |log'|
  {
    if |log| < |log'| {
      DeliversNoBroadcast(log, log'[..|log'| - 1]);
    } else {
      assert log == log';
    }
  }

  lemma LogStable(c: Config, s: State, s': State, q: Pid, p: Proc, p': Proc)
    requires s.broadcasts <= s'.broadcasts && LogOf(c, s, q, p)
    requires OnlyDelivers(p.lcb.log, p'.lcb.log) && p'.sent == p.sent && p.seen <= p'.seen
    ensures LogOf(c, s', q, p')
  {
    DeliversNoBroadcast(p.lcb.log, p'.lcb.log);
    forall b | 0 <= b < |p'.lcb.log| ensures Stamped(c, s', q, p'.lcb.log, b) {
      if b < |p.lcb.log| {
        StampedStable(c, s, s', q, p.lcb.log, p'.lcb.log, b);
      }
    }
  }

  lemma LogAfterBroadcast(c: Config, s: State, s': State, q: Pid, p: Proc, p': Proc)
    requires GenuineInv(c, s) && q < c.n && s.procs[q] == p && LogOf(c, s, q, p) && ValidConfig(c)
    requires forall x | 0 <= x < c.n :: p.lcb.clock[x] == Count(p.lcb.log, x) <= |From(s.broadcasts, x)|
    requires s'.broadcasts == s.broadcasts + [Attached(p.lcb, q, p.sent + 1)]
    requires p'.lcb.log == p.lcb.log + [Broadcasts(p.sent + 1)] && p'.sent == p.sent + 1
    requires p'.seen == p.seen + {MsgId(q, p.sent + 1)}
    ensures LogOf(c, s', q, p')
  {
    var i, log, log' := p.sent + 1, p.lcb.log, p'.lcb.log;
    BroadcastCountAppend(log, Broadcasts(i));
    FromAppend(s.broadcasts, Attached(p.lcb, q, i), q);
    forall b | 0 <= b < |log'| ensures Stamped(c, s', q, log', b) {
      if b < |log| {
        StampedStable(c, s, s', q, log, log', b);
      } else {
        assert log'[..b] == log;
      }
    }
  }

  lemma BroadcastLog(c: Config, s: State, q: Pid)
    requires ValidConfig(c) && GenuineInv(c, s) && UrbInv(c, s) && LogInv(c, s) && Enabled(c, s, BroadcastStep(q))
    requires SendLcb(c, s.procs[q], q).Continues?
    ensures LogInv(c, Apply(c, s, BroadcastStep(q)))
  {
    var s', p := Apply(c, s, BroadcastStep(q)), s.procs[q];
    var m := Attached(p.lcb, q, p.sent + 1);
    forall x | 0 <= x < c.n ensures p.lcb.clock[x] == Count(p.lcb.log, x) <= |From(s.broadcasts, x)| {
      CountWithinBroadcast(c, s, p, x);
    }
    LogAfterBroadcast(c, s, s', q, p, s'.procs[q]);
    forall k | 0 <= k < |s'.broadcasts| ensures PastOnly(c, s'.broadcasts, k) {
      PastAppend(c, s.broadcasts, m, k);
    }
    forall r | 0 <= r < c.n && r != q ensures LogOf(c, s', r, s'.procs[r]) {
      LogStable(c, s, s', r, s.procs[r], s.procs[r]);
    }
  }

  lemma PastAppend(c: Config, ms: seq<LcbMsg>, m: LcbMsg, k: nat)
    requires forall j | 0 <= j < |ms| :: PastOnly(c, ms, j)
    requires forall x | 0 <= x < c.n :: At(m.clock, x) <= |From(ms, x)|
    requires k <= |ms|
    ensures PastOnly(c, ms + [m], k)
  {
    if k < |ms| {
      assert PastOnly(c, ms, k);
      assert (ms + [m])[..k] == ms[..k];
    } else {
      assert (ms + [m])[..k] == ms;
    }
  }

  /** Handling a message only appends delivery lines to the log. */
  lemma DeliverUrbLog(c: Config, p: Proc, q: Pid, msg: UrbMsg)
    requires Shaped(c.deps, p.lcb) && msg.lcb.origin < |c.deps|
    ensures var p' := Settle(p, DeliverUrb(c, p, q, msg));
      OnlyDelivers(p.lcb.log, p'.lcb.log) && p'.sent == p.sent
  {
    DeliverOnlyDelivers(c.deps, p.lcb, msg.lcb);
  }

  lemma QuietLog(c: Config, s: State, step: Step)
    requires Enabled(c, s, step) && (step.BroadcastStep? ==> SendLcb(c, s.procs[step.p], step.p).Exits?)
    ensures var p, s' := s.procs[step.p], Apply(c, s, step);
      && s'.broadcasts == s.broadcasts && OnlyDelivers(p.lcb.log, s'.procs[step.p].lcb.log)
      && s'.procs[step.p].sent == p.sent
  {
    if step.ReceiveStep? && step.m.Data? {
      var p, m := s.procs[step.p], step.m;
      DeliverUrbLog(c, p.(plDelivered := p.plDelivered + {m.mid}, passed := p.passed + [m.mid]), step.p, m.urb);
    }
  }

  lemma QuietLogInv(c: Config, s: State, step: Step)
    requires GenuineInv(c, s) && LogInv(c, s) && Enabled(c, s, step)
    requires step.BroadcastStep? ==> SendLcb(c, s.procs[step.p], step.p).Exits?
    ensures LogInv(c, Apply(c, s, step))
  {
    QuietLog(c, s, step);
    StepGrows(c, s, step);
    var s' := Apply(c, s, step);
    forall r | 0 <= r < c.n ensures LogOf(c, s', r, s'.procs[r]) {
      if r == step.p {
        assert ProcGrows(s.procs[r], s'.procs[r]);
      } else {
        assert s'.procs[r] == s.procs[r];
      }
      LogStable(c, s, s', r, s.procs[r], s'.procs[r]);
    }
  }

  lemma StepLog(c: Config, s: State, step: Step)
    requires ValidConfig(c) && GenuineInv(c, s) && UrbInv(c, s) && LogInv(c, s) && Enabled(c, s, step)
    ensures LogInv(c, Apply(c, s, step))
  {
    if step.BroadcastStep? && SendLcb(c, s.procs[step.p], step.p).Continues? {
      BroadcastLog(c, s, step.p);
    } else {
      QuietLogInv(c, s, step);
    }
  }

  lemma InitLog(c: Config)
    requires ValidConfig(c)
    ensures LogInv(c, Protocol.Init(c))
  {
  }
}
