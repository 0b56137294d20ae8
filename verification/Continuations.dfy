/** No reachable state is a dead end: without another broadcast and without another crash,
    other than of a process that exits on a number beyond the cap, every run can go on to a
    state in which nothing is left to send to a live process. */
module Continuations {
  import opened Messages
  import opened Protocol
  import opened Genuine
  import opened Links
  import opened UrbFacts
  import opened Runs
  import opened Agreement
  import opened CausalOrder

  // ----- Runs without broadcasts and crashes -----

  predicate Quiet(step: Step) {
    !step.BroadcastStep? && !step.CrashStep?
  }

  ghost predicate QuietNext(c: Config, s: State, s': State) {
    exists step :: Quiet(step) && Enabled(c, s, step) && s' == Apply(c, s, step)
  }

  ghost predicate QuietFollows(c: Config, path: seq<State>, i: nat)
    requires 0 < i < |path|
  {
    QuietNext(c, path[i - 1], path[i])
  }

  ghost predicate QuietPath(c: Config, path: seq<State>) {
    path != [] && forall i | 0 < i < |path| :: QuietFollows(c, path, i)
  }

  /** s' is reached from s by the threads already at work and by handling packets. */
  ghost predicate Leads(c: Config, s: State, s': State) {
    exists path :: QuietPath(c, path) && path[0] == s && path[|path| - 1] == s'
  }

  lemma LeadsNowhere(c: Config, s: State)
    ensures Leads(c, s, s)
  {
    var path := [s];
    assert QuietPath(c, path) && path[0] == s && path[|path| - 1] == s;
  }

  lemma LeadsOn(c: Config, s0: State, s: State, step: Step)
    requires Leads(c, s0, s) && Quiet(step) && Enabled(c, s, step)
    ensures Leads(c, s0, Apply(c, s, step))
  {
    var path :| QuietPath(c, path) && path[0] == s0 && path[|path| - 1] == s;
    var longer := path + [Apply(c, s, step)];
    forall i | 0 < i < |longer| ensures QuietFollows(c, longer, i) {
      if i < |path| {
        assert QuietFollows(c, path, i);
      }
    }
    assert QuietPath(c, longer) && longer[0] == s0 && longer[|longer| - 1] == Apply(c, s, step);
  }

  /** The two together are one run. */
  lemma LeadsRun(c: Config, s: State, s': State) returns (run: seq<State>, i: nat)
    requires Reachable(c, s) && Leads(c, s, s')
    ensures IsRun(c, run) && i < |run| && run[i] == s && run[|run| - 1] == s'
  {
    var first :| IsRun(c, first) && first[|first| - 1] == s;
    var path :| QuietPath(c, path) && path[0] == s && path[|path| - 1] == s';
    i := |first| - 1;
    run := first + path[1..];
    forall k | 0 < k < |run| ensures Follows(c, run, k) {
      JoinFollows(c, first, path, k);
    }
  }

  lemma JoinFollows(c: Config, first: seq<State>, path: seq<State>, k: nat)
    requires IsRun(c, first) && QuietPath(c, path) && path[0] == first[|first| - 1]
    requires 0 < k < |first + path[1..]|
    ensures Follows(c, first + path[1..], k)
  {
    var run, i := first + path[1..], |first| - 1;
    if k <= i {
      assert Follows(c, first, k);
    } else {
      var j := k - i;
      assert run[k] == path[j] && run[k - 1] == path[j - 1];
      assert QuietFollows(c, path, j);
    }
  }

  /** A state on the way from s0. */
  ghost predicate OnWay(c: Config, s0: State, s: State) {
    ValidConfig(c) && Reachable(c, s) && Leads(c, s0, s)
  }

  lemma Go(c: Config, s0: State, s: State, step: Step)
    requires OnWay(c, s0, s) && Quiet(step) && Enabled(c, s, step)
    ensures OnWay(c, s0, Apply(c, s, step))
  {
    NextReachable(c, s, step);
    LeadsOn(c, s0, s, step);
  }

  // ----- One process's sender threads -----

  predicate Acked(p: Proc, task: Task) {
    task.msg.ackid in p.plAcks
  }

  /** Only process x's queue and hands changed, and packets were sent. */
  ghost predicate SenderOnly(s: State, s': State, x: Pid)
    requires x < |s.procs|
  {
    && s'.broadcasts == s.broadcasts && s.net <= s'.net && |s'.procs| == |s.procs|
    && s'.procs == s.procs[x := s.procs[x].(queue := s'.procs[x].queue, held := s'.procs[x].held)]
  }

  function TriesLeft(h: Held): nat {
    if h.tries < 10 then 10 - h.tries else 0
  }

  /** Thread t of process x goes on until it retires its task or gives it back. */
  lemma {:induction false} Release(c: Config, s0: State, s: State, x: Pid, t: nat, h: Held) returns (s': State)
    requires OnWay(c, s0, s) && Live(s, x) && t in s.procs[x].held && s.procs[x].held[t] == h
    ensures OnWay(c, s0, s') && SenderOnly(s, s', x) && s'.procs[x].held == s.procs[x].held - {t}
    ensures var q, q' := s.procs[x].queue, s'.procs[x].queue;
      && (q' == q || q' == q + [h.task])
      && (if Acked(s.procs[x], h.task) then !h.unacked ==> q' == q else q' == q + [h.task])
    ensures !Acked(s.procs[x], h.task) && h.tries < 10 ==> (h.task.dest, h.task.msg) in s'.net
    decreases TriesLeft(h), if h.unacked then 0 else 1
  {
    var p := s.procs[x];
    if !h.unacked {
      Go(c, s0, s, PollStep(x, t));
      s' := Apply(c, s, PollStep(x, t));
      if !Acked(p, h.task) {
        s' := Release(c, s0, s', x, t, h.(unacked := true));
        assert s'.procs[x].held == p.held - {t};
      }
    } else {
      Go(c, s0, s, ActStep(x, t));
      s' := Apply(c, s, ActStep(x, t));
      if h.tries < 10 {
        s' := Release(c, s0, s', x, t, Held(h.task, h.tries + 1, false));
        assert s'.procs[x].held == p.held - {t};
      }
    }
  }

  /** All of x's threads come free. */
  lemma {:induction false} ReleaseAll(c: Config, s0: State, s: State, x: Pid) returns (s': State)
    requires OnWay(c, s0, s) && Live(s, x)
    ensures OnWay(c, s0, s') && SenderOnly(s, s', x) && s'.procs[x].held == map[]
    decreases |s.procs[x].held.Keys|
  {
    if s.procs[x].held == map[] {
      s' := s;
    } else {
      var t :| t in s.procs[x].held;
      var s1 := Release(c, s0, s, x, t, s.procs[x].held[t]);
      assert s1.procs[x].held.Keys == s.procs[x].held.Keys - {t};
      s' := ReleaseAll(c, s0, s1, x);
    }
  }

  /** What a queue holds that is not acked. */
  function Unacked(q: seq<Task>, acks: set<Slot>): (r: seq<Task>)
    ensures forall task | task in r :: task in q && task.msg.ackid !in acks
  {
    if q == [] then []
    else
      var last := q[|q| - 1];
      Unacked(q[..|q| - 1], acks) + (if last.msg.ackid in acks then [] else [last])
  }

  /** A free thread takes the front task, and retires it or sends it and gives it back. */
  lemma Front(c: Config, s0: State, s: State, x: Pid) returns (s': State)
    requires OnWay(c, s0, s) && Live(s, x) && s.procs[x].held == map[] && s.procs[x].queue != []
    ensures OnWay(c, s0, s') && SenderOnly(s, s', x) && s'.procs[x].held == map[]
    ensures var p, task := s.procs[x], s.procs[x].queue[0];
      && s'.procs[x].queue == p.queue[1..] + (if Acked(p, task) then [] else [task])
      && (!Acked(p, task) ==> (task.dest, task.msg) in s'.net)
  {
    var p, task := s.procs[x], s.procs[x].queue[0];
    Go(c, s0, s, DequeueStep(x, 0));
    var s1 := Apply(c, s, DequeueStep(x, 0));
    assert s1.procs[x].held == map[0 := Held(task, 0, false)];
    s' := Release(c, s0, s1, x, 0, Held(task, 0, false));
    assert s'.procs[x].held == map[];
  }

  ghost predicate AllSent(q: seq<Task>, net: set<(Pid, Msg)>) {
    forall task | task in q :: (task.dest, task.msg) in net
  }

  /** Queue q once its first k tasks were taken and given back. */
  function Swept(q: seq<Task>, acks: set<Slot>, k: nat): seq<Task>
    requires k <= |q|
  {
    q[k..] + Unacked(q[..k], acks)
  }

  lemma SweptOnce(q: seq<Task>, acks: set<Slot>, k: nat)
    requires k < |q|
    ensures var u := if q[k].msg.ackid in acks then [] else [q[k]];
      && Swept(q, acks, k)[0] == q[k] && Swept(q, acks, k)[1..] + u == Swept(q, acks, k + 1)
      && Unacked(q[..k + 1], acks) == Unacked(q[..k], acks) + u
  {
    assert q[..k + 1][..k] == q[..k];
  }

  /** The first k tasks of x's queue are sent, and those that were acked retired. */
  lemma {:induction false} Sweep(c: Config, s0: State, s: State, x: Pid, q: seq<Task>, k: nat) returns (s': State)
    requires OnWay(c, s0, s) && Live(s, x) && s.procs[x].held == map[] && q == s.procs[x].queue && k <= |q|
    ensures OnWay(c, s0, s') && SenderOnly(s, s', x) && s'.procs[x].held == map[]
    ensures s'.procs[x].queue == Swept(q, s.procs[x].plAcks, k)
    ensures AllSent(Unacked(q[..k], s.procs[x].plAcks), s'.net)
  {
    if k == 0 {
      s' := s;
      assert Swept(q, s.procs[x].plAcks, 0) == q;
    } else {
      var s1 := Sweep(c, s0, s, x, q, k - 1);
      SweptOnce(q, s.procs[x].plAcks, k - 1);
      s' := Front(c, s0, s1, x);
    }
  }

  /** No thread of p is busy, and all it has left to send is unacked and in the network. */
  ghost predicate Prepared(p: Proc, net: set<(Pid, Msg)>) {
    p.held == map[] && AllSent(p.queue, net) && forall task | task in p.queue :: !Acked(p, task)
  }

  lemma Prepare(c: Config, s0: State, s: State, x: Pid) returns (s': State)
    requires OnWay(c, s0, s) && Live(s, x)
    ensures OnWay(c, s0, s') && SenderOnly(s, s', x) && Prepared(s'.procs[x], s'.net)
  {
    var s1 := ReleaseAll(c, s0, s, x);
    var q := s1.procs[x].queue;
    s' := Sweep(c, s0, s1, x, q, |q|);
    assert q[..|q|] == q;
  }

  /** What a process owes is in its queue if its threads are free. */
  lemma OwedIsQueued(c: Config, s: State, x: Pid, id: MsgId, d: Pid)
    requires ValidConfig(c) && Reachable(c, s) && x < |s.procs| && d < |s.procs| && d != x
    requires s.procs[x].held == map[] && id in s.procs[x].seen && Slot(id, d) !in s.procs[x].plAcks
    ensures IsBroadcast(s, id) && Task(d, TheData(s, x, id, d)) in s.procs[x].queue
  {
    LinkConservation(c, s, x, id, d);
    assert HeldBy(s.procs[x], Task(d, TheData(s, x, id, d))) == {};
  }

  /** What a prepared process owes is in the network. */
  lemma OwedIsSent(c: Config, s: State, x: Pid, id: MsgId, d: Pid)
    requires ValidConfig(c) && Reachable(c, s) && x < |s.procs| && d < |s.procs| && d != x
    requires Prepared(s.procs[x], s.net) && id in s.procs[x].seen && Slot(id, d) !in s.procs[x].plAcks
    ensures IsBroadcast(s, id) && (d, TheData(s, x, id, d)) in s.net
  {
    OwedIsQueued(c, s, x, id, d);
    var task := Task(d, TheData(s, x, id, d));
    assert task in s.procs[x].queue;
  }

  // ----- One exchange -----

  /** The numbers under which process q would record its own ack for what was broadcast
      so far are within the cap. */
  ghost predicate WithinCap(c: Config, s: State, q: Pid) {
    forall id | IsBroadcast(s, id) :: SlotNum(c.n, Slot(id, q)) <= 8192
  }

  /** s' has everything s has, nothing new was broadcast, who had stopped is as he was, and
      nobody stopped whose numbers are within the cap. */
  ghost predicate Went(c: Config, s: State, s': State) {
    && Grows(s, s') && s'.broadcasts == s.broadcasts
    && (forall q | 0 <= q < |s.procs| && s.procs[q].crashed :: s'.procs[q] == s.procs[q])
    && forall q: Pid | Live(s, q) && WithinCap(c, s, q) :: Live(s', q)
  }

  lemma GrowsOn(s: State, s1: State, s2: State)
    requires Grows(s, s1) && Grows(s1, s2)
    ensures Grows(s, s2)
  {
    forall q | 0 <= q < |s.procs| ensures ProcGrows(s.procs[q], s2.procs[q]) {
      assert ProcGrows(s.procs[q], s1.procs[q]) && ProcGrows(s1.procs[q], s2.procs[q]);
    }
  }

  lemma WentOn(c: Config, s: State, s1: State, s2: State)
    requires Went(c, s, s1) && Went(c, s1, s2)
    ensures Went(c, s, s2)
  {
    GrowsOn(s, s1, s2);
    forall q: Pid | Live(s, q) && WithinCap(c, s, q) ensures Live(s2, q) {
      assert WithinCap(c, s1, q);
    }
  }

  lemma SenderOnlyWent(c: Config, s: State, s': State, x: Pid)
    requires Live(s, x) && SenderOnly(s, s', x)
    ensures Went(c, s, s')
  {
  }

  /** A process that receives a data message goes on if its own number for it is within the
      cap, and if it goes on the number is. */
  lemma TakeData(c: Config, s0: State, s: State, d: Pid, m: Msg) returns (s': State)
    requires OnWay(c, s0, s) && Live(s, d) && m.Data? && (d, m) in s.net
    ensures OnWay(c, s0, s') && Went(c, s, s') && (m.sender, AckFor(m, d)) in s'.net
    ensures forall q: Pid | q != d && Live(s, q) :: s'.procs[q] == s.procs[q]
    ensures Live(s', d) ==> SlotNum(c.n, Slot(m.mid.id, d)) <= 8192
  {
    PacketsCanBeHandled(c, s, d, m);
    Go(c, s0, s, ReceiveStep(d, m));
    StepGrows(c, s, ReceiveStep(d, m));
    s' := Apply(c, s, ReceiveStep(d, m));
    if Live(s', d) {
      RecordedFits(c, s', d, m.mid);
    } else {
      ExitReason(c, s, d, m);
    }
  }

  lemma RecordedFits(c: Config, s: State, d: Pid, x: Slot)
    requires ValidConfig(c) && Reachable(c, s) && d < |s.procs| && x in s.procs[d].plDelivered
    ensures SlotNum(c.n, Slot(x.id, d)) <= 8192
  {
    ReachableInv(c, s);
    assert Sources(s, d, s.procs[d]) && PassedOnce(s.procs[d]);
  }

  lemma ExitReason(c: Config, s: State, d: Pid, m: Msg)
    requires ValidConfig(c) && Reachable(c, s) && Enabled(c, s, ReceiveStep(d, m)) && m.Data?
    requires Apply(c, s, ReceiveStep(d, m)).procs[d].crashed
    ensures IsBroadcast(s, m.mid.id) && SlotNum(c.n, Slot(m.mid.id, d)) > 8192
  {
    ReceivedData(c, s, d, m);
    ReceiveExitsIff(c, s, d, m);
  }

  lemma TakeAck(c: Config, s0: State, s: State, x: Pid, a: Msg) returns (s': State)
    requires OnWay(c, s0, s) && Live(s, x) && a.Ack? && (x, a) in s.net && SlotNum(c.n, a.ackid) <= 8192
    ensures OnWay(c, s0, s') && Went(c, s, s') && a.ackid in s'.procs[x].plAcks
  {
    Go(c, s0, s, ReceiveStep(x, a));
    StepGrows(c, s, ReceiveStep(x, a));
    s' := Apply(c, s, ReceiveStep(x, a));
  }

  /** d receives the packet and x the ack for it, unless d exits. */
  lemma Exchange(c: Config, s0: State, s: State, x: Pid, d: Pid, id: MsgId) returns (s': State)
    requires OnWay(c, s0, s) && Live(s, x) && Live(s, d) && d != x && id in s.procs[x].seen
    requires Prepared(s.procs[x], s.net) && Slot(id, d) !in s.procs[x].plAcks
    ensures OnWay(c, s0, s') && Went(c, s, s')
    ensures Live(s', d) ==> Slot(id, d) in s'.procs[x].plAcks
  {
    OwedIsSent(c, s, x, id, d);
    var m := TheData(s, x, id, d);
    s' := TakeData(c, s0, s, d, m);
    if Live(s', d) {
      var s1 := s';
      s' := TakeAck(c, s0, s1, x, AckFor(m, d));
      WentOn(c, s, s1, s');
    }
  }

  // ----- What is still to be exchanged -----

  /** Process x of state s lacks d's ack for the k-th broadcast, and both are alive. */
  ghost predicate Lacks(s: State, x: Pid, d: Pid, k: nat) {
    && Live(s, x) && Live(s, d) && x != d && k < |s.broadcasts|
    && Slot(s.broadcasts[k].Id(), d) !in s.procs[x].plAcks
  }

  ghost function Lacking(s: State): set<(Pid, Pid, nat)> {
    set x: nat, d: nat, k: nat | x < |s.procs| && d < |s.procs| && k < |s.broadcasts| && Lacks(s, x, d, k) :: (x, d, k)
  }

  lemma LackingShrinks(c: Config, s: State, s': State, x: Pid, d: Pid, k: nat)
    requires Went(c, s, s') && Lacks(s, x, d, k) && !Lacks(s', x, d, k)
    ensures |Lacking(s')| < |Lacking(s)|
  {
    forall y, e, j | (y, e, j) in Lacking(s') ensures (y, e, j) in Lacking(s) {
      assert ProcGrows(s.procs[y], s'.procs[y]) && ProcGrows(s.procs[e], s'.procs[e]);
    }
    assert (x, d, k) in Lacking(s) && (x, d, k) !in Lacking(s');
    assert Lacking(s') <= Lacking(s) - {(x, d, k)};
    SubsetSize(Lacking(s'), Lacking(s) - {(x, d, k)});
  }

  /** Live x has seen id and lacks live d's ack for it. */
  ghost predicate Owes(s: State, x: Pid, d: Pid, id: MsgId) {
    Live(s, x) && Live(s, d) && x != d && id in s.procs[x].seen && Slot(id, d) !in s.procs[x].plAcks
  }

  lemma OwesLacks(c: Config, s: State, x: Pid, d: Pid, id: MsgId) returns (k: nat)
    requires ValidConfig(c) && Reachable(c, s) && Owes(s, x, d, id)
    ensures k < |s.broadcasts| && s.broadcasts[k].Id() == id && Lacks(s, x, d, k)
  {
    ReachableInv(c, s);
    assert Sources(s, x, s.procs[x]);
    MessageNamesItself(c, s, id);
    k :| 0 <= k < |s.broadcasts| && s.broadcasts[k] == MessageOf(s, id);
  }

  /** Whoever owes something can get rid of it. */
  lemma PayOne(c: Config, s0: State, s: State, x: Pid, d: Pid, id: MsgId) returns (s': State)
    requires OnWay(c, s0, s) && Owes(s, x, d, id)
    ensures OnWay(c, s0, s') && Went(c, s, s') && |Lacking(s')| < |Lacking(s)|
  {
    var k := OwesLacks(c, s, x, d, id);
    var s1 := Prepare(c, s0, s, x);
    SenderOnlyWent(c, s, s1, x);
    s' := Exchange(c, s0, s1, x, d, id);
    WentOn(c, s, s1, s');
    LackingShrinks(c, s, s', x, d, k);
  }

  ghost predicate NothingOwed(s: State) {
    forall x, d, id :: !Owes(s, x, d, id)
  }

  lemma {:induction false} PayAll(c: Config, s0: State, s: State) returns (s': State)
    requires OnWay(c, s0, s)
    ensures OnWay(c, s0, s') && Went(c, s, s') && NothingOwed(s')
    decreases |Lacking(s)|
  {
    if x: Pid, d: Pid, id: MsgId :| Owes(s, x, d, id) {
      var s1 := PayOne(c, s0, s, x, d, id);
      s' := PayAll(c, s0, s1);
      WentOn(c, s, s1, s');
    } else {
      s' := s;
    }
  }

  // ----- The last sweep -----

  /** Process x has only tasks left that nobody acked. */
  ghost predicate Tidy(s: State, x: Pid)
    requires x < |s.procs|
  {
    Live(s, x) ==> Prepared(s.procs[x], s.net)
  }

  ghost predicate TidyUpTo(s: State, k: nat) {
    k <= |s.procs| && forall x: Pid | x < k :: Tidy(s, x)
  }

  /** The sweep of one process leaves the others as they are. */
  lemma TidyNext(c: Config, s0: State, s: State, x: Pid) returns (s': State)
    requires OnWay(c, s0, s) && NothingOwed(s) && x < |s.procs| && TidyUpTo(s, x)
    ensures OnWay(c, s0, s') && Went(c, s, s') && NothingOwed(s') && TidyUpTo(s', x + 1)
  {
    s' := s;
    if Live(s, x) {
      s' := Prepare(c, s0, s, x);
      SenderOnlyWent(c, s, s', x);
      StillNothingOwed(s, s', x);
      forall y: Pid | y < x ensures Tidy(s', y) {
        assert Tidy(s, y);
      }
    }
  }

  lemma {:induction false} TidyAll(c: Config, s0: State, s: State, k: nat) returns (s': State)
    requires OnWay(c, s0, s) && NothingOwed(s) && k <= |s.procs|
    ensures OnWay(c, s0, s') && Went(c, s, s') && NothingOwed(s') && TidyUpTo(s', k)
  {
    if k == 0 {
      s' := s;
    } else {
      var s1 := TidyAll(c, s0, s, k - 1);
      s' := TidyNext(c, s0, s1, k - 1);
      WentOn(c, s, s1, s');
    }
  }

  lemma StillNothingOwed(s: State, s': State, x: Pid)
    requires Live(s, x) && SenderOnly(s, s', x) && NothingOwed(s)
    ensures NothingOwed(s')
  {
    forall y, d, id ensures !Owes(s', y, d, id) {
      assert !Owes(s, y, d, id);
    }
  }

  lemma NothingOwedQuiescent(c: Config, s: State)
    requires ValidConfig(c) && Reachable(c, s) && NothingOwed(s) && TidyUpTo(s, |s.procs|)
    ensures Quiescent(s)
  {
    ReachableInv(c, s);
    forall x: Pid, task | Live(s, x) && task in s.procs[x].queue ensures !Live(s, task.dest) {
      assert Sources(s, x, s.procs[x]) && Tidy(s, x);
      assert GenuineTask(s, x, task);
      assert !Owes(s, x, task.dest, task.msg.urb.seenId);
    }
    forall x: Pid | Live(s, x) ensures s.procs[x].held == map[] {
      assert Tidy(s, x);
    }
  }

  /** From every reachable state the system can go on, without another broadcast or
      crash, until nothing is left to send to a live process; nobody has to exit on the way
      whose numbers are within the cap. */
  lemma AlwaysCanFinish(c: Config, s: State) returns (s': State)
    requires ValidConfig(c) && Reachable(c, s)
    ensures Leads(c, s, s') && Reachable(c, s') && Quiescent(s') && Went(c, s, s')
  {
    LeadsNowhere(c, s);
    var s1 := PayAll(c, s, s);
    s' := TidyAll(c, s, s1, |s1.procs|);
    WentOn(c, s, s1, s');
    NothingOwedQuiescent(c, s');
  }

  /** The live processes whose numbers are within the cap. */
  ghost function Steady(c: Config, s: State): set<Pid> {
    set q: nat | q < |s.procs| && Live(s, q) && WithinCap(c, s, q)
  }

  /** What a live process has seen, every live process has delivered, last rows aside. */
  ghost predicate SeenIsDelivered(c: Config, s: State) {
    forall r: Pid, id, d: Pid | Live(s, r) && id in s.procs[r].seen && Live(s, d) && !LastRow(c, id) ::
      id in s.procs[d].urbDelivered
  }

  lemma SteadyStay(c: Config, s: State, s': State)
    requires |s'.procs| == |s.procs| == c.n && Went(c, s, s')
    ensures c.n - |Crashed(s')| >= |Steady(c, s)|
  {
    LiveCount(c, s');
    forall q | q in Steady(c, s) ensures q in Everyone(c.n) - Crashed(s') {
      assert Live(s', q);
    }
    SubsetSize(Steady(c, s), Everyone(c.n) - Crashed(s'));
  }

  lemma QuiescentDelivers(c: Config, s: State)
    requires ValidConfig(c) && Reachable(c, s) && Quiescent(s) && c.n >= 2 && c.n - |Crashed(s)| > c.n / 2
    ensures SeenIsDelivered(c, s)
  {
    forall r: Pid, id, d: Pid | Live(s, r) && id in s.procs[r].seen && Live(s, d) && !LastRow(c, id)
      ensures id in s.procs[d].urbDelivered
    {
      QuiescentDelivery(c, s, r, id, d);
    }
  }

  /** So as long as a majority is alive and within the cap, everything a live process has
      seen can still be delivered by every live process. */
  lemma AlwaysCanDeliver(c: Config, s: State) returns (s': State)
    requires ValidConfig(c) && Reachable(c, s) && c.n >= 2 && |Steady(c, s)| > c.n / 2
    ensures Leads(c, s, s') && Reachable(c, s') && Quiescent(s') && Went(c, s, s')
    ensures c.n - |Crashed(s')| > c.n / 2 && SeenIsDelivered(c, s')
  {
    s' := AlwaysCanFinish(c, s);
    assert |s.procs| == c.n by { ReachableInv(c, s); }
    SteadyStay(c, s, s');
    QuiescentDelivers(c, s');
  }

  /** With everybody alive and within the cap and no last row, every causal layer can still
      deliver everything broadcast so far: nothing is blocked for good. */
  lemma AlwaysCanComplete(c: Config, s: State) returns (s': State)
    requires ValidConfig(c) && Reachable(c, s) && c.n >= 2 && NoLastRow(c, s)
    requires forall q: Pid | q < c.n :: q in Steady(c, s)
    ensures Leads(c, s, s') && Reachable(c, s') && s'.broadcasts == s.broadcasts && |s'.procs| == c.n
    ensures forall q: Pid | q < c.n :: CaughtUp(c, s', s'.procs[q])
  {
    s' := AlwaysCanFinish(c, s);
    assert |s'.procs| == c.n by { ReachableInv(c, s'); }
    assert NoLastRow(c, s');
    assert Crashed(s') == {} by {
      forall q: Pid | q < c.n ensures Live(s', q) {
        assert q in Steady(c, s);
      }
    }
    forall q: Pid | q < c.n ensures CaughtUp(c, s', s'.procs[q]) {
      FaultFreeCompleteness(c, s', q);
    }
  }

  /** p holds nothing back and counts every broadcast. */
  ghost predicate CaughtUp(c: Config, s: State, p: Proc) {
    && |p.lcb.pending| == |p.lcb.clock| == |s.procs| == c.n
    && forall o | 0 <= o < c.n :: p.lcb.pending[o] == [] && p.lcb.clock[o] == s.procs[o].sent
  }
}
