/** Runs of the code with find_pending as its text stands. Where the text fails, the
    process either stops or its receiver spins while its other threads go on broadcasting
    and sending, with part of the messages delivered that the intent would deliver. What
    such runs log is still right. */
module TextRuns {
  import opened Messages
  import opened CausalDelivery
  import opened FindPendingText
  import opened Protocol
  import opened Genuine
  import opened Links
  import opened UrbFacts
  import opened Logs
  import opened Runs
  import opened CausalOrder

  // ----- Runs of the text -----

  /** A received message goes up to deliver_lcb, is not blocked, and finds list o the
      first that is not empty. If the head of that list is blocked the receiver spins; the
      process is otherwise alive. If not the process exits, or has read freed memory and
      nothing more is said of it. (FindPendingText.TextLeaves) */
  ghost predicate Deviates(c: Config, s: State, step: Step, o: nat, s': State) {
    && Enabled(c, s, step) && step.ReceiveStep? && step.m.Data?
    && var q, p, m := step.p, s.procs[step.p], step.m.urb.lcb;
       var s1 := Apply(c, s, step);
       && s1.procs[q].arrived == p.arrived + [m] && Ready(c.deps, p.lcb.clock, m)
       && o < |c.deps| && p.lcb.pending[o] != [] && (forall i | 0 <= i < o :: p.lcb.pending[i] == [])
       && var stops := Ready(c.deps, Accept(p.lcb, m).clock, Waiting(Accept(p.lcb, m), o, 0));
          s' == Put(s1, q, s1.procs[q].(lcb := TextLcb(c.deps, p.lcb, m, o), crashed := stops))
  }

  /** Where the text does not fail it does what was intended
      (FindPendingText.TextMatchesIntentIff), so its steps are among these. A spinning
      receiver receives nothing more; here it may, which covers that. */
  ghost predicate TextNext(c: Config, s: State, s': State) {
    Next(c, s, s') || exists step, o :: Deviates(c, s, step, o, s')
  }

  ghost predicate TextFollows(c: Config, run: seq<State>, i: nat)
    requires 0 < i < |run|
  {
    TextNext(c, run[i - 1], run[i])
  }

  ghost predicate IsTextRun(c: Config, run: seq<State>) {
    run != [] && run[0] == Protocol.Init(c) && forall i | 0 < i < |run| :: TextFollows(c, run, i)
  }

  ghost predicate TextReachable(c: Config, s: State) {
    exists run :: IsTextRun(c, run) && run[|run| - 1] == s
  }

  // ----- They keep the safety invariant -----

  lemma TextLcbConsistent(deps: Deps, l: Lcb, arrived: seq<LcbMsg>, m: LcbMsg, o: nat)
    requires ValidDeps(deps) && Consistent(deps, l, arrived) && m.origin < |deps| && Ready(deps, l.clock, m)
    requires o < |deps| && l.pending[o] != []
    ensures Consistent(deps, TextLcb(deps, l, m, o), arrived + [m])
    ensures OnlyDelivers(l.log, TextLcb(deps, l, m, o).log)
  {
    AcceptConsistent(deps, l, arrived, m);
    var x := Accept(l, m);
    if Ready(deps, x.clock, Waiting(x, o, 0)) {
      TakeConsistent(deps, x, arrived + [m], o, 0);
    }
  }

  /** Another causal layer for process q, and whether it has stopped. */
  function WithLcb(s: State, q: Pid, lcb: Lcb, stops: bool): State
    requires q < |s.procs|
  {
    Put(s, q, s.procs[q].(lcb := lcb, crashed := stops))
  }

  lemma SameGenuine(c: Config, s: State, q: Pid, lcb: Lcb, stops: bool)
    requires GenuineInv(c, s) && q < |s.procs| && Shaped(c.deps, lcb)
    ensures GenuineInv(c, WithLcb(s, q, lcb, stops))
  {
    var s' := WithLcb(s, q, lcb, stops);
    forall d, m | (d, m) in s'.net ensures GenuinePacket(s', d, m) {
      assert GenuinePacket(s, d, m);
    }
    forall r | 0 <= r < c.n ensures ShapeOf(c, s', r, s'.procs[r]) && Sources(s', r, s'.procs[r]) {
      assert ShapeOf(c, s, r, s.procs[r]) && Sources(s, r, s.procs[r]);
      SameSources(s, s', r, s.procs[r], s'.procs[r]);
    }
  }

  lemma SameSources(s: State, s': State, r: Pid, p: Proc, p': Proc)
    requires |s'.procs| == |s.procs| && s'.broadcasts == s.broadcasts && Sources(s, r, p)
    requires forall d | 0 <= d < |s.procs| ::
      s'.procs[d].seen == s.procs[d].seen && s'.procs[d].plDelivered == s.procs[d].plDelivered
    requires p'.seen == p.seen && p'.urbAcks == p.urbAcks && p'.plAcks == p.plAcks
    requires p'.queue == p.queue && p'.held == p.held
    ensures Sources(s', r, p')
  {
    forall task | task in p.queue ensures GenuineTask(s', r, task) {
      assert GenuineTask(s, r, task);
    }
    forall t | t in p.held ensures GenuineTask(s', r, p.held[t].task) {
      assert GenuineTask(s, r, p.held[t].task);
    }
  }

  lemma SameLinks(c: Config, s: State, q: Pid, lcb: Lcb, stops: bool)
    requires LinkInv(c, s) && q < |s.procs|
    ensures LinkInv(c, WithLcb(s, q, lcb, stops))
  {
    var s' := WithLcb(s, q, lcb, stops);
    forall r | 0 <= r < |s.procs| ensures Hands(s', r, s'.procs[r]) && PassedOnce(s'.procs[r]) {
      assert Hands(s, r, s.procs[r]) && PassedOnce(s.procs[r]);
      forall task: Task ensures Copies(s'.procs[r], task) == Copies(s.procs[r], task) {
        assert HeldBy(s'.procs[r], task) == HeldBy(s.procs[r], task);
      }
      HandsStable(s, s', r, s.procs[r], s'.procs[r]);
    }
  }

  lemma SameUrb(c: Config, s: State, q: Pid, lcb: Lcb, stops: bool)
    requires UrbInv(c, s) && q < |s.procs| && Consistent(c.deps, lcb, s.procs[q].arrived)
    ensures UrbInv(c, WithLcb(s, q, lcb, stops))
  {
    var s' := WithLcb(s, q, lcb, stops);
    forall r | 0 <= r < |s.procs|
      ensures AckTable(c, s'.procs[r]) && Quorums(c, s'.procs[r]) && Arrivals(s', s'.procs[r]) && CausalState(c, s'.procs[r])
    {
      ArrivalsStable(s, s', s.procs[r], s'.procs[r]);
    }
  }

  lemma DeviateSafe(c: Config, s: State, step: Step, o: nat, s': State)
    requires ValidConfig(c) && SafeInv(c, s) && Deviates(c, s, step, o, s')
    ensures SafeInv(c, s')
  {
    var q, p, m := step.p, s.procs[step.p], step.m.urb.lcb;
    var s1 := Apply(c, s, step);
    var lcb := TextLcb(c.deps, p.lcb, m, o);
    StepSafe(c, s, step);
    assert CausalState(c, p);
    TextLcbConsistent(c.deps, p.lcb, p.arrived, m, o);
    var stops := s'.procs[q].crashed;
    assert s' == WithLcb(s1, q, lcb, stops);
    SameGenuine(c, s1, q, lcb, stops);
    SameLinks(c, s1, q, lcb, stops);
    SameUrb(c, s1, q, lcb, stops);
    DeviateLogs(c, s, step, s1, lcb, stops);
  }

  lemma DeviateLogs(c: Config, s: State, step: Step, s1: State, lcb: Lcb, stops: bool)
    requires ValidConfig(c) && SafeInv(c, s) && Enabled(c, s, step) && step.ReceiveStep? && s1 == Apply(c, s, step)
    requires LogInv(c, s1) && step.p < |s1.procs| && OnlyDelivers(s.procs[step.p].lcb.log, lcb.log)
    ensures LogInv(c, WithLcb(s1, step.p, lcb, stops))
  {
    var s', q := WithLcb(s1, step.p, lcb, stops), step.p;
    StepGrows(c, s, step);
    assert ProcGrows(s.procs[q], s1.procs[q]);
    QuietLog(c, s, step);
    forall r | 0 <= r < |s'.procs| ensures LogOf(c, s', r, s'.procs[r]) {
      if r == q {
        LogStable(c, s, s', q, s.procs[q], s'.procs[q]);
      } else {
        LogStable(c, s1, s', r, s1.procs[r], s'.procs[r]);
      }
    }
  }

  lemma {:induction false} TextRunSafe(c: Config, run: seq<State>, i: nat, s: State)
    requires ValidConfig(c) && IsTextRun(c, run) && i < |run| && run[i] == s
    ensures SafeInv(c, s)
    decreases i
  {
    if i == 0 {
      InitSafe(c);
    } else {
      var before := run[i - 1];
      TextRunSafe(c, run, i - 1, before);
      assert TextFollows(c, run, i);
      TextStepSafe(c, before, s);
    }
  }

  lemma TextStepSafe(c: Config, s: State, s': State)
    requires ValidConfig(c) && SafeInv(c, s) && TextNext(c, s, s')
    ensures SafeInv(c, s')
  {
    if Next(c, s, s') {
      var step :| Enabled(c, s, step) && s' == Apply(c, s, step);
      StepSafe(c, s, step);
    } else {
      var step, o :| Deviates(c, s, step, o, s');
      DeviateSafe(c, s, step, o, s');
    }
  }

  lemma TextReachableSafe(c: Config, s: State)
    requires ValidConfig(c) && TextReachable(c, s)
    ensures SafeInv(c, s)
  {
    var run :| IsTextRun(c, run) && run[|run| - 1] == s;
    TextRunSafe(c, run, |run| - 1, s);
  }

  // ----- What still holds -----

  /** Localized causal order, for the code as written. */
  lemma TextCausalOrder(c: Config, s: State, p: Pid, q: Pid, r: Pid, a: nat, b: nat, e: nat) returns (d: nat)
    requires ValidConfig(c) && TextReachable(c, s) && p < c.n && q < c.n && CausalPair(s, p, q, r, a, b, e)
    requires q in c.deps[p] && q in c.deps[q]
    ensures var lp, lr := s.procs[p].lcb.log, s.procs[r].lcb.log;
      d < e && lr[d].Delivers? && lr[d].pid == q && lr[d].msg == lp[a].msg && lr[d].n == lp[a].n
  {
    TextReachableSafe(c, s);
    d := SafeCausalOrder(c, s, p, q, r, a, b, e);
  }

  /** Logged deliveries are the broadcasts they name, under their own numbers where the
      origin depends on itself, for the code as written. */
  lemma TextNumbersExact(c: Config, s: State, r: Pid, k: nat)
    requires ValidConfig(c) && TextReachable(c, s) && r < |s.procs|
    requires k < |s.procs[r].lcb.log| && s.procs[r].lcb.log[k].Delivers?
    ensures ExactLine(c, s, s.procs[r].lcb.log[k])
  {
    TextReachableSafe(c, s);
    SafeNumbersExact(c, s, r, k);
  }

  /** URB integrity, for the code as written. */
  lemma TextUrbIntegrity(c: Config, s: State)
    requires ValidConfig(c) && TextReachable(c, s)
    ensures forall q | 0 <= q < |s.procs| :: Integrity(s, s.procs[q])
    ensures forall q, m | (q, m) in s.net && m.Data? :: CarriesBroadcast(s, m)
  {
    TextReachableSafe(c, s);
    SafeIntegrity(c, s);
  }
}
