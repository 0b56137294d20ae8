/** Reachable states at the edges of the theorems about quiescent states: a crash that the
    others outlive, and the one row that can_deliver refuses. */
module Witnesses {
  import opened Messages
  import opened Protocol
  import opened Genuine
  import opened Links
  import opened UrbFacts
  import opened Runs
  import opened Agreement
  import opened TableEdge
  import opened Continuations

  // ----- Short histories -----

  /** Process x has broadcast k messages, and nobody else any. */
  ghost predicate OnlyFrom(c: Config, s: State, x: Pid, k: nat) {
    && ValidConfig(c) && Reachable(c, s) && |s.procs| == c.n
    && forall q | 0 <= q < c.n :: s.procs[q].sent == if q == x then k else 0
  }

  lemma OnlyFromIds(c: Config, s: State, x: Pid, k: nat, id: MsgId)
    requires OnlyFrom(c, s, x, k) && IsBroadcast(s, id)
    ensures id.origin == x < c.n && id.seqNum <= k
  {
    ReachableInv(c, s);
    MessageNamesItself(c, s, id);
    assert ShapeOf(c, s, id.origin, s.procs[id.origin]);
  }

  lemma OnlyFromKept(c: Config, s: State, s': State, x: Pid, k: nat)
    requires OnlyFrom(c, s, x, k) && Reachable(c, s') && s'.broadcasts == s.broadcasts
    ensures OnlyFrom(c, s', x, k) && (k <= 150 ==> ShortRun(c, s'))
  {
    ReachableInv(c, s);
    ReachableInv(c, s');
    forall q | 0 <= q < c.n ensures s'.procs[q].sent == s.procs[q].sent == |From(s'.broadcasts, q)| {
      assert ShapeOf(c, s, q, s.procs[q]) && ShapeOf(c, s', q, s'.procs[q]);
    }
  }

  /** A process whose number for its next broadcast is within the cap broadcasts it. */
  lemma BroadcastOne(c: Config, s: State, x: Pid, k: nat) returns (s': State)
    requires OnlyFrom(c, s, x, k) && Live(s, x)
    requires SlotNum(c.n, Slot(MsgId(x, k + 1), x)) <= 8192
    ensures OnlyFrom(c, s', x, k + 1) && Next(c, s, s') && Grows(s, s') && Crashed(s') == Crashed(s)
    ensures s'.procs[x].seen == s.procs[x].seen + {MsgId(x, k + 1)}
    ensures forall q | 0 <= q < c.n && q != x :: s'.procs[q] == s.procs[q]
  {
    NextReachable(c, s, BroadcastStep(x));
    StepGrows(c, s, BroadcastStep(x));
    s' := Apply(c, s, BroadcastStep(x));
    SendLcbGoesOn(c, s.procs[x], x);
    SameCrashed(s, s', x);
  }

  lemma SameCrashed(s: State, s': State, x: Pid)
    requires Live(s, x) && Live(s', x) && |s'.procs| == |s.procs|
    requires forall q | 0 <= q < |s.procs| && q != x :: s'.procs[q] == s.procs[q]
    ensures Crashed(s') == Crashed(s)
  {
  }

  // ----- Outliving a crash -----

  lemma CrashFirst(c: Config, q: Pid) returns (s: State)
    requires ValidConfig(c) && q < c.n
    ensures OnlyFrom(c, s, 0, 0) && Crashed(s) == {q} && s.broadcasts == [] && s.procs[q].seen == {}
  {
    InitReachable(c);
    NextReachable(c, Protocol.Init(c), CrashStep(q));
    s := Apply(c, Protocol.Init(c), CrashStep(q));
  }

  lemma OthersSteady(c: Config, s: State, q: Pid)
    requires OnlyFrom(c, s, 0, 1) && Crashed(s) == {q} && q < c.n <= 8193
    ensures Steady(c, s) == Everyone(c.n) - {q} && |Steady(c, s)| == c.n - 1
  {
    forall r: Pid | r < c.n && r != q ensures WithinCap(c, s, r) && Live(s, r) {
      assert r !in Crashed(s);
      forall id | IsBroadcast(s, id) ensures SlotNum(c.n, Slot(id, r)) <= 8192 {
        OnlyFromIds(c, s, 0, 1, id);
        assert SlotNum(c.n, Slot(MsgId(0, 1), r)) == r;
      }
    }
    assert q in Crashed(s);
    LiveCount(c, s);
  }

  lemma FirstRowNotLast(c: Config)
    requires ValidConfig(c)
    ensures !LastRow(c, MsgId(0, 1))
  {
    forall k: nat ensures SeenNum(c.n, MsgId(0, 1)) + 1 != Rows(c.n, k) {
      RowsPositive(c.n, k);
    }
  }

  /** Process q crashes, then process 0 broadcasts. */
  lemma CrashThenBroadcast(c: Config, q: Pid) returns (before: State, s: State)
    requires ValidConfig(c) && 0 < q < c.n
    ensures Reachable(c, before) && Crashed(before) == {q} && before.broadcasts == []
    ensures OnlyFrom(c, s, 0, 1) && Grows(before, s) && Crashed(s) == {q} && s.procs[q].seen == {}
    ensures Live(s, 0) && MsgId(0, 1) in s.procs[0].seen
  {
    before := CrashFirst(c, q);
    assert 0 !in Crashed(before);
    s := BroadcastOne(c, before, 0, 0);
    assert 0 !in Crashed(s);
  }

  /** And everybody else delivers that: a quiescent state with a live majority whose crashed
      process has seen nothing, so that the others still hold tasks for it. */
  lemma CrashOutlived(c: Config, q: Pid) returns (before: State, s: State)
    requires ValidConfig(c) && 3 <= c.n <= 8193 && 0 < q < c.n
    ensures Reachable(c, before) && Crashed(before) == {q} && before.broadcasts == []
    ensures Reachable(c, s) && Grows(before, s) && Quiescent(s) && |s.procs| == c.n
    ensures Crashed(s) == {q} && s.procs[q].seen == {}
    ensures forall d: Pid | d < c.n && d != q :: MsgId(0, 1) in s.procs[d].urbDelivered
  {
    var s1;
    before, s1 := CrashThenBroadcast(c, q);
    OthersSteady(c, s1, q);
    s := AlwaysCanDeliver(c, s1);
    GrowsOn(before, s1, s);
    OneStopped(c, s1, s, q);
    FirstRowNotLast(c);
    SeenKept(s1, s, 0, MsgId(0, 1));
  }

  lemma SeenKept(s: State, s': State, x: Pid, id: MsgId)
    requires Grows(s, s') && x < |s.procs| && id in s.procs[x].seen
    ensures id in s'.procs[x].seen
  {
    assert ProcGrows(s.procs[x], s'.procs[x]);
  }

  lemma OneStopped(c: Config, s: State, s': State, q: Pid)
    requires |s.procs| == c.n && Went(c, s, s') && Crashed(s) == {q} && Steady(c, s) == Everyone(c.n) - {q}
    ensures Crashed(s') == {q} && s'.procs[q] == s.procs[q] && forall d: Pid | d < c.n && d != q :: Live(s', d)
  {
    assert q in Crashed(s);
    forall d: Pid | d < c.n && d != q ensures Live(s', d) {
      assert d in Steady(c, s);
    }
    forall d: Pid ensures d in Crashed(s') <==> d == q {
      assert d < c.n && d != q ==> Live(s', d);
    }
  }

  // ----- The refused row -----

  /** The message whose row is the last of the initial table. */
  function LastId(c: Config): MsgId
    requires 1 <= c.n
  {
    MsgId(c.n - 1, 150)
  }

  lemma ShortSlot(c: Config, id: MsgId, r: Pid)
    requires ValidConfig(c) && c.n <= 7 && ValidId(c.n, id) && id.seqNum <= 151 && r < c.n
    ensures SlotNum(c.n, Slot(id, r)) <= 8192
  {
    MulLe(c.n, id.seqNum - 1, 150);
    MulLe(c.n, SeenNum(c.n, id), 1056);
  }

  /** Process x alone has broadcast, k messages, and nobody has received anything. */
  ghost predicate Alone(c: Config, s: State, x: Pid, k: nat) {
    && OnlyFrom(c, s, x, k) && x < c.n && Crashed(s) == {}
    && (forall q | 0 <= q < c.n && q != x :: s.procs[q] == InitProc(c))
    && (forall i: nat | 1 <= i <= k :: MsgId(x, i) in s.procs[x].seen)
  }

  lemma {:induction false} LastBroadcasts(c: Config, x: Pid, k: nat) returns (s: State)
    requires ValidConfig(c) && x < c.n <= 7 && k <= 151
    ensures Alone(c, s, x, k)
  {
    if k == 0 {
      InitReachable(c);
      s := Protocol.Init(c);
    } else {
      var s1 := LastBroadcasts(c, x, k - 1);
      s := OneMore(c, s1, x, k - 1);
      AloneOneMore(c, s1, s, x, k - 1);
    }
  }

  lemma AloneOneMore(c: Config, s: State, s': State, x: Pid, k: nat)
    requires Alone(c, s, x, k) && OnlyFrom(c, s', x, k + 1) && Crashed(s') == {}
    requires s'.procs[x].seen == s.procs[x].seen + {MsgId(x, k + 1)}
    requires forall q | 0 <= q < c.n && q != x :: s'.procs[q] == s.procs[q]
    ensures Alone(c, s', x, k + 1)
  {
  }

  lemma OneMore(c: Config, s: State, x: Pid, k: nat) returns (s': State)
    requires OnlyFrom(c, s, x, k) && x < c.n <= 7 && Crashed(s) == {} && k <= 150
    ensures OnlyFrom(c, s', x, k + 1) && Next(c, s, s') && Crashed(s') == {}
    ensures s'.procs[x].seen == s.procs[x].seen + {MsgId(x, k + 1)}
    ensures forall q | 0 <= q < c.n && q != x :: s'.procs[q] == s.procs[q]
  {
    assert x !in Crashed(s);
    ShortSlot(c, MsgId(x, k + 1), x);
    s' := BroadcastOne(c, s, x, k);
  }

  /** So process x has nobody's ack but its own. */
  lemma AloneNoMajority(c: Config, s: State, x: Pid, k: nat, id: MsgId)
    requires Alone(c, s, x, k) && 2 <= c.n
    ensures !Majority(c, s.procs[x].urbAcks, id)
  {
    assert Sources(s, x, s.procs[x]) by { ReachableInv(c, s); }
    SubsetSize(Ackers(c.n, s.procs[x].urbAcks, id), {x});
  }

  /** Everybody goes on until nothing is left to send, and nobody exits. */
  lemma FinishAll(c: Config, s: State, x: Pid, k: nat) returns (s': State)
    requires OnlyFrom(c, s, x, k) && Crashed(s) == {} && c.n <= 7 && k <= 151
    ensures OnlyFrom(c, s', x, k) && (k <= 150 ==> ShortRun(c, s'))
    ensures Quiescent(s') && Crashed(s') == {} && Grows(s, s') && Leads(c, s, s')
    ensures forall d: Pid | d < c.n :: Live(s', d)
  {
    s' := AlwaysCanFinish(c, s);
    OnlyFromKept(c, s, s', x, k);
    forall q: Pid | q < c.n ensures Live(s', q) {
      assert q !in Crashed(s);
      forall id | IsBroadcast(s, id) ensures SlotNum(c.n, Slot(id, q)) <= 8192 {
        OnlyFromIds(c, s, x, k, id);
        ShortSlot(c, id, q);
      }
    }
  }

  /** With two to seven processes there is a run in which nobody crashes, everybody sees the
      last process's message number 150 and holds everybody's ack for it, and
      nobody delivers it, then or ever after. */
  lemma LastRowRefused(c: Config) returns (s: State)
    requires ValidConfig(c) && 2 <= c.n <= 7
    ensures OnlyFrom(c, s, c.n - 1, 150) && Quiescent(s) && Crashed(s) == {}
    ensures forall d: Pid | d < c.n :: Missed(s, d, LastId(c)) && forall e: Pid | e < c.n :: Slot(LastId(c), e) in s.procs[d].urbAcks
  {
    var x, id := c.n - 1, LastId(c);
    var s1 := LastBroadcasts(c, x, 150);
    s := FinishAll(c, s1, x, 150);
    SeenKept(s1, s, x, id);
    QuiescentSeen(c, s, x, id);
    forall d: Pid | d < c.n ensures Missed(s, d, id) {
      ShortRunDelivery(c, s, x, id, d);
      QuiescentRecorded(c, s, id, d);
    }
  }

  /** Among live processes of a quiescent state every packet was recorded. */
  lemma QuiescentRecorded(c: Config, s: State, id: MsgId, d: Pid)
    requires ValidConfig(c) && Reachable(c, s) && Quiescent(s) && Live(s, d)
    requires forall e: Pid | e < |s.procs| :: Live(s, e) && id in s.procs[e].seen
    ensures forall e: Pid | e < |s.procs| && e != d :: Slot(id, e) in s.procs[d].plDelivered
  {
    forall e: Pid | e < |s.procs| && e != d ensures Slot(id, e) in s.procs[d].plDelivered {
      LinkConservation(c, s, e, id, d);
      NothingHeldNothingCopied(s.procs[e], Task(d, TheData(s, e, id, d)));
      LinkSoundness(c, s, e);
    }
  }

  lemma GrownPast(c: Config, s: State, d: Pid, r: Pid)
    requires ValidConfig(c) && Reachable(c, s) && d < |s.procs| && r < c.n
    requires Slot(MsgId(c.n - 1, 151), r) in s.procs[d].urbAcks
    ensures RowFits(c.n, s.procs[d].ackEntries, LastId(c))
  {
    assert AckTable(c, s.procs[d]) by { ReachableInv(c, s); }
    var row := SeenNum(c.n, LastId(c));
    assert SeenNum(c.n, MsgId(c.n - 1, 151)) == row + c.n;
    MulLe(c.n, row + 1, row + c.n);
    assert c.n * (row + 1) == c.n * row + c.n;
  }

  /** One more message, and every table has grown past the row. */
  lemma AllGrow(c: Config, s0: State) returns (s1: State, s: State)
    requires 2 <= c.n <= 7 && OnlyFrom(c, s0, c.n - 1, 150) && Crashed(s0) == {}
    ensures Next(c, s0, s1) && Reachable(c, s1) && Leads(c, s1, s)
    ensures Reachable(c, s) && Quiescent(s) && Crashed(s) == {} && |s.procs| == c.n
    ensures forall d: Pid | d < c.n :: RowFits(c.n, s.procs[d].ackEntries, LastId(c))
  {
    var x, next := c.n - 1, MsgId(c.n - 1, 151);
    s1 := OneMore(c, s0, x, 150);
    s := FinishAll(c, s1, x, 151);
    SeenKept(s1, s, x, next);
    QuiescentSeen(c, s, x, next);
    forall d: Pid | d < c.n ensures RowFits(c.n, s.procs[d].ackEntries, LastId(c)) {
      GrownPast(c, s, d, d);
    }
  }

  /** But it is too late: nobody delivers the message of that row. */
  lemma LastRowLost(c: Config) returns (s: State)
    requires ValidConfig(c) && 2 <= c.n <= 7
    ensures Reachable(c, s) && Quiescent(s) && Crashed(s) == {} && |s.procs| == c.n
    ensures forall d: Pid | d < c.n :: RowFits(c.n, s.procs[d].ackEntries, LastId(c)) && Missed(s, d, LastId(c))
  {
    var s0 := LastRowRefused(c);
    var s1;
    s1, s := AllGrow(c, s0);
    forall d: Pid | d < c.n ensures Missed(s, d, LastId(c)) {
      MissedOn(c, s0, s1, s, d, LastId(c));
    }
  }

  lemma MissedOn(c: Config, s: State, s1: State, s2: State, d: Pid, id: MsgId)
    requires ValidConfig(c) && Reachable(c, s) && Missed(s, d, id) && Next(c, s, s1) && Reachable(c, s1) && Leads(c, s1, s2)
    ensures Missed(s2, d, id)
  {
    assert Missed(s1, d, id) by {
      ReachableInv(c, s);
      var step :| Enabled(c, s, step) && s1 == Apply(c, s, step);
      StepMissed(c, s, step, d, id);
    }
    var run, i := LeadsRun(c, s1, s2);
    MissedForever(c, run, i, |run| - 1, s2, d, id);
  }

  /** If the last process broadcasts the next message before it hears anything, its own table
      has grown in time, and it delivers the message. */
  lemma LastRowInTime(c: Config) returns (s: State)
    requires ValidConfig(c) && 2 <= c.n <= 7
    ensures Reachable(c, s) && Quiescent(s) && Crashed(s) == {} && |s.procs| == c.n
    ensures LastRow(c, LastId(c)) && LastId(c) in s.procs[c.n - 1].urbDelivered
  {
    var x, id := c.n - 1, LastId(c);
    var s1 := LastBroadcasts(c, x, 151);
    InTimeAlone(c, s1, x);
    s := FinishAll(c, s1, x, 151);
    InTimeOn(c, s1, s, x, id);
    SeenKept(s1, s, x, id);
    AllAcked(c, s, x, id);
    OnlyLastRowRefused(c, id);
  }

  lemma InTimeOn(c: Config, s: State, s': State, d: Pid, id: MsgId)
    requires ValidConfig(c) && Reachable(c, s) && Leads(c, s, s') && InTime(c, s, d, id)
    ensures InTime(c, s', d, id)
  {
    var run, i := LeadsRun(c, s, s');
    StaysInTime(c, run, i, |run| - 1, s', d, id);
  }

  lemma AllAcked(c: Config, s: State, x: Pid, id: MsgId)
    requires ValidConfig(c) && Reachable(c, s) && Quiescent(s) && Live(s, x) && id in s.procs[x].seen
    requires forall d: Pid | d < c.n :: Live(s, d)
    ensures Majority(c, s.procs[x].urbAcks, id)
  {
    QuiescentSeen(c, s, x, id);
    SubsetSize(Everyone(c.n), Ackers(c.n, s.procs[x].urbAcks, id));
  }

  lemma InTimeAlone(c: Config, s: State, x: Pid)
    requires 2 <= c.n && x == c.n - 1 && Alone(c, s, x, 151)
    ensures InTime(c, s, x, LastId(c))
  {
    var next := MsgId(x, 151);
    assert next in s.procs[x].seen && LastId(c) in s.procs[x].seen;
    assert Slot(next, x) in s.procs[x].urbAcks && IsBroadcast(s, LastId(c)) by {
      ReachableInv(c, s);
      assert Hands(s, x, s.procs[x]);
    }
    GrownPast(c, s, x, x);
    AloneNoMajority(c, s, x, 151, LastId(c));
  }
}
