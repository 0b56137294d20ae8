/** Identities, clocks and log lines shared by every layer.

    A process number here is the C code's pid minus one, which is how every table
    of the original indexes it; sequence numbers start at 1 as in the original. */
module Messages {
  type Pid = nat
  type Clock = seq<nat>

  /** A broadcast, named by who broadcast it and as which one in order (seen_id). */
  datatype MsgId = MsgId(origin: Pid, seqNum: nat)

  /** A cell of a uid table: a broadcast and a process (mid and ackid). */
  datatype Slot = Slot(id: MsgId, pid: Pid)

  /** What the causal layer sends (lcb_msg_t). */
  datatype LcbMsg = LcbMsg(origin: Pid, clock: Clock) {
    /** The broadcast this message is, read off its own clock entry: the message
        itself carries no sequence number. */
    function Id(): MsgId {
      MsgId(origin, At(clock, origin) + 1)
    }
  }

  /** Lines of the log: "b n" and "d pid n". The delivered message is kept beside
      the printed numbers so that what was logged can be compared with what was
      delivered. */
  datatype Event = Broadcasts(n: nat) | Delivers(pid: Pid, n: nat, msg: LcbMsg)

  function At(v: Clock, q: Pid): nat {
    if q < |v| then v[q] else 0
  }

  /** The clocks of the messages of origin o, in order. */
  function From(ms: seq<LcbMsg>, o: Pid): (cs: seq<Clock>)
    ensures |cs| <= |ms|
  {
    if ms == [] then []
    else
      var rest := From(ms[..|ms| - 1], o);
      var last := ms[|ms| - 1];
      if last.origin == o then rest + [last.clock] else rest
  }

  /** The messages a log delivered, in order. */
  function Delivered(log: seq<Event>): seq<LcbMsg> {
    if log == [] then []
    else
      var rest := Delivered(log[..|log| - 1]);
      var last := log[|log| - 1];
      if last.Delivers? then rest + [last.msg] else rest
  }

  /** How many messages of origin q a log delivered. */
  function Count(log: seq<Event>, q: Pid): nat {
    |From(Delivered(log), q)|
  }

  /** How many broadcasts a log records. */
  function BroadcastCount(log: seq<Event>): nat {
    if log == [] then 0
    else BroadcastCount(log[..|log| - 1]) + (if log[|log| - 1].Broadcasts? then 1 else 0)
  }

  lemma BroadcastCountAppend(log: seq<Event>, e: Event)
    ensures BroadcastCount(log + [e]) == BroadcastCount(log) + (if e.Broadcasts? then 1 else 0)
  {
    assert (log + [e])[..|log|] == log;
  }

  lemma FromAppend(ms: seq<LcbMsg>, m: LcbMsg, o: Pid)
    ensures From(ms + [m], o) == From(ms, o) + (if m.origin == o then [m.clock] else [])
  {
    assert (ms + [m])[..|ms|] == ms;
  }

  lemma {:induction false} FromPrefix(a: seq<LcbMsg>, b: seq<LcbMsg>, o: Pid)
    requires a <= b
    ensures From(a, o) <= From(b, o)
    decreases |b|
  {
    if |a| < |b| {
      var init := b[..|b| - 1];
      FromPrefix(a, init, o);
      assert b == init + [b[|b| - 1]];
      FromAppend(init, b[|b| - 1], o);
    } else {
      assert a == b;
    }
  }

  lemma DeliveredAppend(log: seq<Event>, e: Event)
    ensures Delivered(log + [e]) == Delivered(log) + (if e.Delivers? then [e.msg] else [])
  {
    assert (log + [e])[..|log|] == log;
  }

  lemma CountAppend(log: seq<Event>, e: Event, q: Pid)
    ensures From(Delivered(log + [e]), q)
         == From(Delivered(log), q) + (if e.Delivers? && e.msg.origin == q then [e.msg.clock] else [])
    ensures Count(log + [e], q) == Count(log, q) + (if e.Delivers? && e.msg.origin == q then 1 else 0)
  {
    DeliveredAppend(log, e);
    if e.Delivers? {
      FromAppend(Delivered(log), e.msg, q);
    }
  }

  /** What a log prefix delivered is a prefix of what the log delivered. */
  lemma {:induction false} CountPrefix(log: seq<Event>, k: nat, q: Pid)
    requires k <= |log|
    ensures From(Delivered(log[..k]), q) <= From(Delivered(log), q)
    ensures Count(log[..k], q) <= Count(log, q)
    decreases |log|
  {
    if k < |log| {
      var init := log[..|log| - 1];
      CountPrefix(init, k, q);
      assert init[..k] == log[..k];
      assert log == init + [log[|log| - 1]];
      CountAppend(init, log[|log| - 1], q);
    } else {
      assert log[..k] == log;
    }
  }

  /** A clock counted as delivered was delivered at some line. */
  lemma {:induction false} LineOfClock(log: seq<Event>, k: nat, o: Pid, v: Clock) returns (e: nat)
    requires k <= |log| && v in From(Delivered(log[..k]), o)
    ensures e < k && log[e].Delivers? && log[e].msg == LcbMsg(o, v)
  {
    assert k > 0;
    assert log[..k] == log[..k - 1] + [log[k - 1]];
    CountAppend(log[..k - 1], log[k - 1], o);
    if v in From(Delivered(log[..k - 1]), o) {
      e := LineOfClock(log, k - 1, o, v);
    } else {
      e := k - 1;
    }
  }

  /** A message is among those of its origin. */
  lemma {:induction false} FromMember(ms: seq<LcbMsg>, m: LcbMsg)
    ensures m in ms <==> m.clock in From(ms, m.origin)
  {
    if ms != [] {
      var init, last := ms[..|ms| - 1], ms[|ms| - 1];
      assert ms == init + [last];
      FromMember(init, m);
      FromAppend(init, last, m.origin);
    }
  }

  // ----- Numbering -----

  /** send_urb: seen_id = N * (seq - 1) + original_sender - 1. */
  function SeenNum(n: nat, id: MsgId): int {
    n * (id.seqNum - 1) + id.origin
  }

  /** send_urb, send_beb: mid and ackid = N * seen_id + pid - 1. */
  function SlotNum(n: nat, s: Slot): int {
    n * SeenNum(n, s.id) + s.pid
  }

  predicate ValidId(n: nat, id: MsgId) {
    id.origin < n && 1 <= id.seqNum
  }

  lemma DivModUnique(n: int, a: int, b: int, x: int, y: int)
    requires 0 <= x < n && 0 <= y < n
    requires n * a + x == n * b + y
    ensures a == b && x == y
  {
    MulGap(n, a, b);
    MulGap(n, b, a);
  }

  lemma MulLe(n: nat, a: int, b: int)
    requires a <= b
    ensures n * a <= n * b
  {
    var d := b - a;
    assert 0 <= n * d;
    assert n * b == n * (a + d) == n * a + n * d;
  }

  lemma MulGap(n: int, a: int, b: int)
    requires 0 <= n
    ensures a < b ==> n * a + n <= n * b
  {
    if a < b {
      var d := b - a - 1;
      assert 0 <= n * d;
      assert n * b == n * (a + 1 + d) == n * a + n + n * d;
    }
  }

  /** Distinct broadcasts have distinct seen_ids, and distinct (broadcast, process)
      pairs have distinct mids. */
  lemma NumbersInjective(n: nat, s: Slot, t: Slot)
    requires ValidId(n, s.id) && ValidId(n, t.id) && s.pid < n && t.pid < n
    ensures SeenNum(n, s.id) == SeenNum(n, t.id) <==> s.id == t.id
    ensures SlotNum(n, s) == SlotNum(n, t) <==> s == t
  {
    if SeenNum(n, s.id) == SeenNum(n, t.id) {
      DivModUnique(n, s.id.seqNum - 1, t.id.seqNum - 1, s.id.origin, t.id.origin);
    }
    if SlotNum(n, s) == SlotNum(n, t) {
      DivModUnique(n, SeenNum(n, s.id), SeenNum(n, t.id), s.pid, t.pid);
    }
  }

  lemma PairOrder(n: nat, a: int, x: int, b: int, y: int)
    requires 0 <= x < n && 0 <= y < n
    ensures n * a + x < n * b + y <==> a < b || (a == b && x < y)
  {
    MulGap(n, a, b);
    MulGap(n, b, a);
  }

  /** The numbers grow with the sequence number, then with the origin, then with the process;
      together with NumbersOnto that leaves only one numbering. */
  lemma NumbersInOrder(n: nat, s: Slot, t: Slot)
    requires ValidId(n, s.id) && ValidId(n, t.id) && s.pid < n && t.pid < n
    ensures SeenNum(n, s.id) < SeenNum(n, t.id) <==>
      s.id.seqNum < t.id.seqNum || (s.id.seqNum == t.id.seqNum && s.id.origin < t.id.origin)
    ensures SlotNum(n, s) < SlotNum(n, t) <==>
      SeenNum(n, s.id) < SeenNum(n, t.id) || (s.id == t.id && s.pid < t.pid)
  {
    PairOrder(n, s.id.seqNum - 1, s.id.origin, t.id.seqNum - 1, t.id.origin);
    PairOrder(n, SeenNum(n, s.id), s.pid, SeenNum(n, t.id), t.pid);
    NumbersInjective(n, s, t);
  }

  lemma NumbersNotNegative(n: nat, x: Slot)
    requires ValidId(n, x.id) && x.pid < n
    ensures 0 <= SeenNum(n, x.id) <= SlotNum(n, x)
  {
    assert 0 <= n * (x.id.seqNum - 1);
    assert SeenNum(n, x.id) <= n * SeenNum(n, x.id) by {
      assert 0 <= (n - 1) * SeenNum(n, x.id);
      assert n * SeenNum(n, x.id) == (n - 1) * SeenNum(n, x.id) + SeenNum(n, x.id);
    }
  }

  /** Every number is the mid of one (broadcast, process) pair. */
  lemma NumbersOnto(n: nat, k: nat) returns (s: Slot)
    requires 0 < n
    ensures ValidId(n, s.id) && s.pid < n && SlotNum(n, s) == k
  {
    var seen, pid := Split(n, k);
    var row, origin := Split(n, seen);
    s := Slot(MsgId(origin, row + 1), pid);
  }

  lemma Split(n: nat, k: nat) returns (a: nat, x: nat)
    requires 0 < n
    ensures k == n * a + x && x < n
  {
    a, x := k / n, k % n;
  }
}
