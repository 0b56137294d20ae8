/** The sender threads: the retry loop of send_pl on the shared queue, and the steps of
    Protocol it goes through while other threads change the tables between its looks. */
module Sender {
  import opened Messages
  import opened CausalDelivery
  import opened Protocol
  import opened Genuine
  import opened TaskQueue
  import opened Wire
  import opened UrbProcess

  const BACK_TO_QUEUE := 42

  /** send_pl. looks[i] is what the i-th look at the ack table finds, which the receiver
      decides: there are at most THRESHOLD + 1. packets is what is sent, to whom. */
  method SendPl(taskQ: MsgQueue<RawTask>, task: RawTask, looks: seq<bool>)
      returns (res: nat, packets: seq<(Pid, Packet)>)
    requires taskQ.Valid() && |looks| > 10
    modifies taskQ, taskQ.elems
    ensures taskQ.Valid() && (taskQ.elems == old(taskQ.elems) || fresh(taskQ.elems))
    ensures var sends := |packets|;
      && sends <= 10 && (forall k | 0 <= k < sends :: !looks[k]) && (looks[sends] || sends == 10)
      && res == if looks[sends] then 0 else 42
    ensures forall k | 0 <= k < |packets| :: packets[k] == (task.dest, task.msg)
    ensures taskQ.Contents == old(taskQ.Contents) + (if res == 0 then [] else [task])
  {
    packets := [];
    var i := 0;
    while !looks[i]
      invariant i == |packets| <= THRESHOLD && unchanged(taskQ) && unchanged(taskQ.elems)
      invariant forall k | 0 <= k < |packets| :: packets[k] == (task.dest, task.msg)
      invariant forall k | 0 <= k < i :: !looks[k]
      decreases 10 - i
    {
      if i >= THRESHOLD {
        taskQ.Enqueue(task);
        return BACK_TO_QUEUE, packets;
      }
      packets := packets + [(task.dest, task.msg)];
      i := i + 1;
    }
    return 0, packets;
  }

  /** The loop body of sender_f: the task at the front is retired or goes to the back. */
  method SenderTurn(taskQ: MsgQueue<RawTask>, looks: seq<bool>) returns (took: bool, retired: bool)
    requires taskQ.Valid() && |looks| > 10
    modifies taskQ, taskQ.elems
    ensures taskQ.Valid()
    ensures took <==> old(taskQ.Contents) != []
    ensures took ==> (retired <==> exists k | 0 <= k <= 10 :: looks[k])
    ensures took ==> taskQ.Contents == old(taskQ.Contents[1..]) + (if retired then [] else [old(taskQ.Contents[0])])
    ensures !took ==> taskQ.Contents == []
  {
    var task;
    took, task := taskQ.Dequeue();
    retired := false;
    if took {
      var res, packets := SendPl(taskQ, task, looks);
      retired := res == 0;
    }
  }

  // ----- The same loop as steps of the whole system -----

  /** What thread t does at its j-th access to shared memory since it took its task:
      look, act, look, act, ... */
  function OwnStep(p: Proc, t: nat, j: nat): Proc
    requires t in p.held
  {
    if j % 2 == 0 then Poll(p, t) else Act(p, t)
  }

  /** visit[j] is the process just before the j-th access. Between two accesses other
      threads, the receiver and the main thread do as they like, except to the thread's
      own record. */
  ghost predicate Visit(visit: seq<Proc>, t: nat, task: Task) {
    && visit != [] && (forall j | 0 <= j < |visit| :: t in visit[j].held)
    && visit[0].held[t] == Held(task, 0, false)
    && forall j {:trigger OwnStep(visit[j], t, j)} | 0 <= j < |visit| - 1 ::
         var q := OwnStep(visit[j], t, j); t in q.held && visit[j + 1].held[t] == q.held[t]
  }

  /** At access j the task has been sent j / 2 times and every look found no ack. */
  lemma {:induction false} HeldAt(visit: seq<Proc>, t: nat, task: Task, j: nat)
    requires Visit(visit, t, task) && j < |visit|
    ensures visit[j].held[t] == Held(task, j / 2, j % 2 == 1) && j / 2 <= 10
    ensures forall k: nat | 2 * k < j :: task.msg.ackid !in visit[2 * k].plAcks
  {
    if j > 0 {
      HeldAt(visit, t, task, j - 1);
      assert OwnStep(visit[j - 1], t, j - 1).held[t] == visit[j].held[t];
    }
  }

  /** A visit that ends at its last access is one call of send_pl that found the acks the
      visit found: it made as many accesses and sends, and left the task in the queue or
      not, as the loop says. */
  lemma VisitIsSendPl(visit: seq<Proc>, t: nat, task: Task, looks: seq<bool>, sends: nat)
    requires Visit(visit, t, task) && |looks| > 10
    requires t !in OwnStep(visit[|visit| - 1], t, |visit| - 1).held
    requires forall k: nat | k <= 10 && 2 * k < |visit| :: looks[k] <==> task.msg.ackid in visit[2 * k].plAcks
    requires sends <= 10 && (forall k | 0 <= k < sends :: !looks[k]) && (looks[sends] || sends == 10)
    ensures |visit| - 1 == 2 * sends + (if looks[sends] then 0 else 1)
    ensures var last := visit[|visit| - 1];
      OwnStep(last, t, |visit| - 1).queue == last.queue + (if looks[sends] then [] else [task])
    ensures forall k: nat | k < sends :: ActPackets(visit[2 * k + 1], t) == {(task.dest, task.msg)}
  {
    var j := |visit| - 1;
    HeldAt(visit, t, task, j);
    var lastLook := looks[j / 2];
    if 2 * sends < j {
      assert !looks[sends] by {
        assert task.msg.ackid !in visit[2 * sends].plAcks;
      }
    }
    forall k: nat | k < sends ensures ActPackets(visit[2 * k + 1], t) == {(task.dest, task.msg)} {
      HeldAt(visit, t, task, 2 * k + 1);
    }
  }

  // ----- Visits in runs -----

  /** A stretch of a run, with the steps taken. */
  ghost predicate Stretch(c: Config, states: seq<State>, steps: seq<Step>) {
    && |states| == |steps| + 1
    && forall i | 0 <= i < |steps| :: Enabled(c, states[i], steps[i]) && states[i + 1] == Apply(c, states[i], steps[i])
  }

  predicate IsOwn(step: Step, q: Pid, t: nat) {
    (step.PollStep? || step.ActStep?) && step.p == q && step.t == t
  }

  /** The process just before each of the thread's own accesses among the first k steps. */
  function OwnVisits(states: seq<State>, steps: seq<Step>, q: Pid, t: nat, k: nat): (visit: seq<Proc>)
    requires k <= |steps| <= |states| && forall i | 0 <= i < |states| :: q < |states[i].procs|
    ensures |visit| <= k
  {
    if k == 0 then []
    else OwnVisits(states, steps, q, t, k - 1) + (if IsOwn(steps[k - 1], q, t) then [states[k - 1].procs[q]] else [])
  }

  /** Nothing but the thread's own accesses touches its record. */
  lemma OthersKeepHeld(c: Config, s: State, step: Step, q: Pid, t: nat)
    requires Enabled(c, s, step) && q < |s.procs| && t in s.procs[q].held && !IsOwn(step, q, t)
    ensures |Apply(c, s, step).procs| == |s.procs|
    ensures t in Apply(c, s, step).procs[q].held && Apply(c, s, step).procs[q].held[t] == s.procs[q].held[t]
  {
    if step.ReceiveStep? && step.m.Data? {
      var p := s.procs[step.p];
      HandlingKeepsHeld(c, p, step.p, step.m);
    }
  }

  lemma HandlingKeepsHeld(c: Config, p: Proc, q: Pid, m: Msg)
    requires m.Data? && Shaped(c.deps, p.lcb) && m.urb.lcb.origin < |c.deps|
    ensures Settle(p, DeliverData(c, p, q, m)).held == p.held
  {
  }

  /** The thread's record after k steps, as long as it holds its task. */
  ghost predicate Underway(visit: seq<Proc>, t: nat, task: Task, now: Proc) {
    && t in now.held && now.held[t] == Held(task, |visit| / 2, |visit| % 2 == 1)
    && (visit != [] ==>
          && Visit(visit, t, task)
          && var last := |visit| - 1;
             t in OwnStep(visit[last], t, last).held && OwnStep(visit[last], t, last).held[t] == now.held[t])
  }

  lemma OwnAccess(c: Config, s: State, step: Step, q: Pid, t: nat, task: Task, visit: seq<Proc>)
    requires Enabled(c, s, step) && q < |s.procs| && IsOwn(step, q, t) && Underway(visit, t, task, s.procs[q])
    ensures Visit(visit + [s.procs[q]], t, task)
    ensures Apply(c, s, step).procs[q] == OwnStep(s.procs[q], t, |visit|)
    ensures t in Apply(c, s, step).procs[q].held ==> Underway(visit + [s.procs[q]], t, task, Apply(c, s, step).procs[q])
  {
    var longer := visit + [s.procs[q]];
    forall j | 0 <= j < |longer| - 1
      ensures t in longer[j].held && t in OwnStep(longer[j], t, j).held
      ensures longer[j + 1].held[t] == OwnStep(longer[j], t, j).held[t]
    {
      if j < |visit| - 1 {
        assert t in OwnStep(visit[j], t, j).held;
      }
    }
  }

  /** The stretch begins with thread t of process q taking the front task, and the thread
      holds it until its last access, which ends the stretch. */
  ghost predicate Taken(c: Config, states: seq<State>, steps: seq<Step>, q: Pid, t: nat) {
    && Stretch(c, states, steps) && (forall i | 0 <= i < |states| :: q < |states[i].procs|)
    && |steps| >= 2 && steps[0] == DequeueStep(q, t) && IsOwn(steps[|steps| - 1], q, t)
    && forall i | 1 <= i < |steps| :: t in states[i].procs[q].held
  }

  ghost function FrontTask(c: Config, states: seq<State>, steps: seq<Step>, q: Pid, t: nat): Task
    requires Taken(c, states, steps, q, t)
  {
    assert Enabled(c, states[0], steps[0]);
    states[0].procs[q].queue[0]
  }

  /** At every moment the thread's record says how often it has sent the front task: once in
      two accesses, from none on. */
  lemma {:induction false} UnderwayAt(c: Config, states: seq<State>, steps: seq<Step>, q: Pid, t: nat, k: nat)
    requires Taken(c, states, steps, q, t) && 1 <= k < |steps|
    ensures Underway(OwnVisits(states, steps, q, t, k), t, FrontTask(c, states, steps, q, t), states[k].procs[q])
  {
    var task := FrontTask(c, states, steps, q, t);
    var visit := OwnVisits(states, steps, q, t, k - 1);
    assert Enabled(c, states[k - 1], steps[k - 1]) && states[k] == Apply(c, states[k - 1], steps[k - 1]);
    if k == 1 {
      assert visit == [] && OwnVisits(states, steps, q, t, 1) == [];
    } else {
      UnderwayAt(c, states, steps, q, t, k - 1);
      if IsOwn(steps[k - 1], q, t) {
        OwnAccess(c, states[k - 1], steps[k - 1], q, t, task, visit);
      } else {
        OthersKeepHeld(c, states[k - 1], steps[k - 1], q, t);
      }
    }
  }

  /** In any stretch of a run in which thread t of process q takes a task and holds it up to
      its own last access, its accesses are a visit, and the last of them does to the
      process what the visit says. */
  lemma StretchIsVisit(c: Config, states: seq<State>, steps: seq<Step>, q: Pid, t: nat)
    requires Taken(c, states, steps, q, t)
    ensures var visit := OwnVisits(states, steps, q, t, |steps|);
      && visit != [] && Visit(visit, t, FrontTask(c, states, steps, q, t))
      && states[|steps|].procs[q] == OwnStep(visit[|visit| - 1], t, |visit| - 1)
  {
    var k := |steps| - 1;
    UnderwayAt(c, states, steps, q, t, k);
    assert Enabled(c, states[k], steps[k]) && states[k + 1] == Apply(c, states[k], steps[k]);
    OwnAccess(c, states[k], steps[k], q, t, FrontTask(c, states, steps, q, t), OwnVisits(states, steps, q, t, k));
  }

  // ----- Ten sends -----

  /** How many of the first k steps are acts of this thread. */
  function ActCount(steps: seq<Step>, q: Pid, t: nat, k: nat): (n: nat)
    requires k <= |steps|
    ensures n <= k
  {
    if k == 0 then 0 else ActCount(steps, q, t, k - 1) + (if steps[k - 1] == ActStep(q, t) then 1 else 0)
  }

  /** Every other access is an act, and every act before the last access is a send. */
  lemma {:induction false} ActsSoFar(c: Config, states: seq<State>, steps: seq<Step>, q: Pid, t: nat, k: nat)
    requires Taken(c, states, steps, q, t) && 1 <= k < |steps|
    ensures ActCount(steps, q, t, k) == |OwnVisits(states, steps, q, t, k)| / 2
    ensures var task := FrontTask(c, states, steps, q, t);
      forall i | 0 <= i < k && steps[i] == ActStep(q, t) :: states[i + 1].net == states[i].net + {(task.dest, task.msg)}
  {
    if k == 1 {
      assert OwnVisits(states, steps, q, t, 0) == [] && ActCount(steps, q, t, 0) == 0;
    } else {
      ActsSoFar(c, states, steps, q, t, k - 1);
      UnderwayAt(c, states, steps, q, t, k - 1);
      assert Enabled(c, states[k - 1], steps[k - 1]) && states[k] == Apply(c, states[k - 1], steps[k - 1]);
      assert t in states[k].procs[q].held;
    }
  }

  /** A task that is taken and whose ack no look finds is sent ten times by that thread and
      then goes to the back of the queue. */
  lemma SentTenTimes(c: Config, states: seq<State>, steps: seq<Step>, q: Pid, t: nat)
    requires Taken(c, states, steps, q, t) && t !in states[|steps|].procs[q].held
    requires var task := FrontTask(c, states, steps, q, t);
      forall i | 0 <= i < |steps| && steps[i] == PollStep(q, t) :: task.msg.ackid !in states[i].procs[q].plAcks
    ensures var n, task := |steps| - 1, FrontTask(c, states, steps, q, t);
      && ActCount(steps, q, t, n) == 10
      && (forall i | 0 <= i < n && steps[i] == ActStep(q, t) :: states[i + 1].net == states[i].net + {(task.dest, task.msg)})
      && steps[n] == ActStep(q, t) && states[n + 1].net == states[n].net
      && states[n + 1].procs[q].queue == states[n].procs[q].queue + [task]
  {
    var n, task := |steps| - 1, FrontTask(c, states, steps, q, t);
    var visit := OwnVisits(states, steps, q, t, n);
    UnderwayAt(c, states, steps, q, t, n);
    ActsSoFar(c, states, steps, q, t, n);
    StretchIsVisit(c, states, steps, q, t);
    HeldAt(visit + [states[n].procs[q]], t, task, |visit|);
    assert Enabled(c, states[n], steps[n]) && states[n + 1] == Apply(c, states[n], steps[n]);
  }

  // ----- Ten threads -----

  /** In every run the tasks in hand at a process are those of threads 0 to 9. */
  lemma {:induction false} AtMostTenHold(c: Config, run: seq<State>, i: nat, q: Pid)
    requires IsRun(c, run) && i < |run|
    ensures q < |run[i].procs| ==> forall t | t in run[i].procs[q].held :: t < 10
    decreases i
  {
    if i > 0 {
      AtMostTenHold(c, run, i - 1, q);
      assert Follows(c, run, i);
      var step :| Enabled(c, run[i - 1], step) && run[i] == Apply(c, run[i - 1], step);
      if q < |run[i - 1].procs| {
        HeldGrowsByOne(c, run[i - 1], step, q);
      }
    }
  }

  lemma HeldGrowsByOne(c: Config, s: State, step: Step, q: Pid)
    requires Enabled(c, s, step) && q < |s.procs|
    ensures |Apply(c, s, step).procs| == |s.procs|
    ensures forall t | t in Apply(c, s, step).procs[q].held && t !in s.procs[q].held :: t < 10
  {
    if step.ReceiveStep? && step.m.Data? {
      HandlingKeepsHeld(c, s.procs[step.p], step.p, step.m);
    }
  }

  /** And all ten can be busy at once. */
  lemma TenHold(c: Config) returns (s: State)
    requires ValidConfig(c) && 11 <= c.n
    ensures Reachable(c, s) && |s.procs| == c.n && forall t: nat :: t in s.procs[0].held <==> t < 10
  {
    InitReachable(c);
    var p := InitProc(c);
    SendLcbGoesOn(c, p, 0);
    NextReachable(c, Protocol.Init(c), BroadcastStep(0));
    var s1 := Apply(c, Protocol.Init(c), BroadcastStep(0));
    var msg := UrbMsg(Attached(p.lcb, 0, 1), MsgId(0, 1), Slot(MsgId(0, 1), 0));
    BebTasksInOrder(c.n, msg, 0);
    assert s1.procs[0].queue == BebTasks(c.n, msg, 0, 0);
    s := TakeAll(c, s1, 10);
  }

  lemma {:induction false} TakeAll(c: Config, s: State, k: nat) returns (s': State)
    requires Reachable(c, s) && |s.procs| == c.n > 0 && !s.procs[0].crashed && s.procs[0].held == map[]
    requires k <= 10 && k <= |s.procs[0].queue|
    ensures Reachable(c, s') && |s'.procs| == c.n && !s'.procs[0].crashed
    ensures |s'.procs[0].queue| == |s.procs[0].queue| - k && forall t: nat :: t in s'.procs[0].held <==> t < k
  {
    if k == 0 {
      s' := s;
    } else {
      var s1 := TakeAll(c, s, k - 1);
      NextReachable(c, s1, DequeueStep(0, k - 1));
      s' := Apply(c, s1, DequeueStep(0, k - 1));
    }
  }
}
