/** The alternative FIFO layer: deliver_fifo as a function, the order it delivers in, and
    why it is the causal layer with every process depending on itself alone. */
module FifoDelivery {
  import opened Messages
  import opened CausalDelivery
  import opened SequenceNumbers

  /** The pending bits, the next counters and the "d pid n" lines. */
  datatype Fifo = Fifo(pending: set<MsgId>, next: seq<nat>, log: seq<(Pid, nat)>)

  function InitFifo(n: nat): Fifo {
    Fifo({}, seq(n, _ => 0), [])
  }

  /** The loop of deliver_fifo; logged is msg.sequence_num, counted up as the loop runs. */
  function Flush(f: Fifo, o: Pid, logged: nat): (r: Fifo)
    requires o < |f.next|
    ensures |r.next| == |f.next|
    decreases |f.pending|
  {
    var id := MsgId(o, f.next[o] + 1);
    if id in f.pending then
      Flush(FlushOne(f, o, logged), o, logged + 1)
    else f
  }

  function DeliverFifo(f: Fifo, id: MsgId): (r: Fifo)
    requires id.origin < |f.next|
    ensures |r.next| == |f.next|
  {
    Flush(f.(pending := f.pending + {id}), id.origin, id.seqNum)
  }

  function FifoAll(n: nat, ids: seq<MsgId>): (r: Fifo)
    requires forall id | id in ids :: id.origin < n
    ensures |r.next| == n
  {
    if ids == [] then InitFifo(n) else DeliverFifo(FifoAll(n, ids[..|ids| - 1]), ids[|ids| - 1])
  }

  // ----- The order of delivery -----

  ghost predicate RunArrived(ids: seq<MsgId>, o: Pid, k: nat) {
    forall i | 1 <= i <= k :: MsgId(o, i) in ids
  }

  /** k is the length of the longest gapless run 1..k of o among the arrivals. */
  ghost predicate GaplessTo(ids: seq<MsgId>, o: Pid, k: nat) {
    MsgId(o, k + 1) !in ids && RunArrived(ids, o, k)
  }

  lemma GaplessUnique(ids: seq<MsgId>, o: Pid, j: nat, k: nat)
    requires GaplessTo(ids, o, j) && GaplessTo(ids, o, k)
    ensures j == k
  {
  }

  /** The lines (o, lo + 1) ... (o, hi). */
  function Tail(o: Pid, lo: nat, hi: nat): seq<(Pid, nat)>
    requires lo <= hi
    decreases hi
  {
    if lo == hi then [] else Tail(o, lo, hi - 1) + [(o, hi)]
  }

  /** A bit is set exactly for arrivals not delivered yet (a late duplicate may leave the
      bit of a delivered message), and what counts as delivered did arrive. */
  ghost predicate Tracked(f: Fifo, ids: seq<MsgId>) {
    && (forall id | id in f.pending :: id in ids)
    && (forall id | id in ids && id.origin < |f.next| :: id in f.pending || id.seqNum <= f.next[id.origin])
    && forall o | 0 <= o < |f.next| :: RunArrived(ids, o, f.next[o])
  }

  ghost predicate NextIsClear(f: Fifo, o: Pid)
    requires o < |f.next|
  {
    MsgId(o, f.next[o] + 1) !in f.pending
  }

  /** What holds between calls: the bit of every next message is clear. */
  ghost predicate FifoInv(f: Fifo, ids: seq<MsgId>) {
    Tracked(f, ids) && forall o | 0 <= o < |f.next| :: NextIsClear(f, o)
  }

  /** FifoInv without the clear bit of process o, which the loop restores. */
  ghost predicate Flushing(f: Fifo, ids: seq<MsgId>, o: Pid) {
    Tracked(f, ids) && forall p | 0 <= p < |f.next| && p != o :: NextIsClear(f, p)
  }

  /** One turn of the loop. */
  function FlushOne(f: Fifo, o: Pid, logged: nat): Fifo
    requires o < |f.next|
  {
    Fifo(f.pending - {MsgId(o, f.next[o] + 1)}, f.next[o := f.next[o] + 1], f.log + [(o, logged)])
  }

  lemma FlushOneKeeps(f: Fifo, ids: seq<MsgId>, o: Pid, logged: nat)
    requires o < |f.next| && Flushing(f, ids, o) && MsgId(o, f.next[o] + 1) in f.pending
    ensures Flushing(FlushOne(f, o, logged), ids, o)
  {
    var g := FlushOne(f, o, logged);
    forall id | id in ids && id.origin < |g.next| ensures id in g.pending || id.seqNum <= g.next[id.origin] {
      assert id in f.pending || id.seqNum <= f.next[id.origin];
    }
    forall p | 0 <= p < |g.next| && p != o ensures NextIsClear(g, p) {
      assert NextIsClear(f, p);
    }
  }

  lemma {:induction false} FlushRestores(f: Fifo, ids: seq<MsgId>, o: Pid, logged: nat)
    requires o < |f.next| && Flushing(f, ids, o)
    ensures FifoInv(Flush(f, o, logged), ids)
    decreases |f.pending|
  {
    if MsgId(o, f.next[o] + 1) in f.pending {
      FlushOneKeeps(f, ids, o, logged);
      FlushRestores(FlushOne(f, o, logged), ids, o, logged + 1);
    }
  }

  lemma {:induction false} FlushLogs(f: Fifo, o: Pid, logged: nat)
    requires o < |f.next|
    requires MsgId(o, f.next[o] + 1) in f.pending ==> logged == f.next[o] + 1
    ensures var r := Flush(f, o, logged);
      && f.next[o] <= r.next[o] && r.next == f.next[o := r.next[o]]
      && r.log == f.log + Tail(o, f.next[o], r.next[o])
    decreases |f.pending|
  {
    if MsgId(o, f.next[o] + 1) in f.pending {
      var g := FlushOne(f, o, logged);
      FlushLogs(g, o, logged + 1);
      TailFront(o, f.next[o], Flush(g, o, logged + 1).next[o]);
    }
  }

  lemma {:induction false} TailFront(o: Pid, lo: nat, hi: nat)
    requires lo < hi
    ensures Tail(o, lo, hi) == [(o, lo + 1)] + Tail(o, lo + 1, hi)
    decreases hi
  {
    if lo + 1 < hi {
      TailFront(o, lo, hi - 1);
    }
  }

  /** One call: the number logged first is the next one, because the bit of the next
      message is clear between calls. */
  lemma DeliverFifoStep(f: Fifo, ids: seq<MsgId>, id: MsgId)
    requires FifoInv(f, ids) && ValidId(|f.next|, id)
    ensures FifoInv(DeliverFifo(f, id), ids + [id])
    ensures var r := DeliverFifo(f, id);
      && f.next[id.origin] <= r.next[id.origin] && r.next == f.next[id.origin := r.next[id.origin]]
      && r.log == f.log + Tail(id.origin, f.next[id.origin], r.next[id.origin])
  {
    var f1 := f.(pending := f.pending + {id});
    assert NextIsClear(f, id.origin);
    forall p | 0 <= p < |f.next| && p != id.origin ensures NextIsClear(f1, p) {
      assert NextIsClear(f, p);
    }
    FlushRestores(f1, ids + [id], id.origin, id.seqNum);
    FlushLogs(f1, id.origin, id.seqNum);
  }

  ghost predicate ValidIds(n: nat, ids: seq<MsgId>) {
    forall id | id in ids :: ValidId(n, id)
  }

  lemma {:induction false} FifoAllInv(n: nat, ids: seq<MsgId>)
    requires ValidIds(n, ids)
    ensures FifoInv(FifoAll(n, ids), ids)
  {
    if ids != [] {
      var init, id := ids[..|ids| - 1], ids[|ids| - 1];
      assert ids == init + [id];
      FifoAllInv(n, init);
      DeliverFifoStep(FifoAll(n, init), init, id);
    }
  }

  /** The lines of a log about process o. */
  function LinesOf(log: seq<(Pid, nat)>, o: Pid): seq<(Pid, nat)> {
    if log == [] then []
    else
      var rest, last := LinesOf(log[..|log| - 1], o), log[|log| - 1];
      if last.0 == o then rest + [last] else rest
  }

  lemma LinesOfAppend(log: seq<(Pid, nat)>, line: (Pid, nat), o: Pid)
    ensures LinesOf(log + [line], o) == LinesOf(log, o) + (if line.0 == o then [line] else [])
  {
    assert (log + [line])[..|log|] == log;
  }

  lemma {:induction false} LinesOfTail(log: seq<(Pid, nat)>, p: Pid, lo: nat, hi: nat, o: Pid)
    requires lo <= hi
    ensures LinesOf(log + Tail(p, lo, hi), o) == LinesOf(log, o) + (if p == o then Tail(p, lo, hi) else [])
    decreases hi
  {
    if lo == hi {
      assert log + Tail(p, lo, hi) == log;
    } else {
      LinesOfTail(log, p, lo, hi - 1, o);
      var init := log + Tail(p, lo, hi - 1);
      LinesOfAppend(init, (p, hi), o);
      assert log + Tail(p, lo, hi) == init + [(p, hi)];
    }
  }

  lemma {:induction false} TailAppend(o: Pid, a: nat, b: nat, c: nat)
    requires a <= b <= c
    ensures Tail(o, a, b) + Tail(o, b, c) == Tail(o, a, c)
    decreases c - b
  {
    if b < c {
      TailAppend(o, a, b, c - 1);
    }
  }

  /** After any arrivals, duplicates included, the lines of process o are exactly
      1, 2, ..., k in order, k being the longest gapless run that arrived. */
  lemma {:induction false} FifoLogsGaplessRun(n: nat, ids: seq<MsgId>, o: Pid)
    requires ValidIds(n, ids) && o < n
    ensures GaplessTo(ids, o, FifoAll(n, ids).next[o])
    ensures LinesOf(FifoAll(n, ids).log, o) == Tail(o, 0, FifoAll(n, ids).next[o])
  {
    FifoAllInv(n, ids);
    assert NextIsClear(FifoAll(n, ids), o);
    if ids != [] {
      var init, id := ids[..|ids| - 1], ids[|ids| - 1];
      assert ids == init + [id];
      FifoLogsGaplessRun(n, init, o);
      FifoAllInv(n, init);
      var f, r := FifoAll(n, init), FifoAll(n, ids);
      DeliverFifoStep(f, init, id);
      LinesOfTail(f.log, id.origin, f.next[id.origin], r.next[id.origin], o);
      if id.origin == o {
        TailAppend(o, 0, f.next[o], r.next[o]);
      }
    }
  }

  // ----- FIFO is causal order with self-only dependencies -----

  /** "1 1 / 2 2 / 3 3": every process depends on itself alone. */
  function SelfOnly(n: nat): (deps: Deps)
    ensures |deps| == n && ValidDeps(deps) && forall o | 0 <= o < n :: deps[o] == [o]
  {
    seq(n, o => [o])
  }

  /** The delivery lines of a causal log. */
  function DeliveryLines(log: seq<Event>): seq<(Pid, nat)> {
    if log == [] then []
    else
      var rest, last := DeliveryLines(log[..|log| - 1]), log[|log| - 1];
      if last.Delivers? then rest + [(last.pid, last.n)] else rest
  }

  function Ids(ms: seq<LcbMsg>): (ids: seq<MsgId>)
    ensures |ids| == |ms| && forall k | 0 <= k < |ms| :: ids[k] == ms[k].Id()
  {
    seq(|ms|, k requires 0 <= k < |ms| => ms[k].Id())
  }

  /** With self-only dependencies the clock entry of o is the longest gapless run of o. */
  lemma ClockIsGapless(n: nat, l: Lcb, arrived: seq<LcbMsg>, o: Pid)
    requires o < n && Consistent(SelfOnly(n), l, arrived) && AllBlocked(SelfOnly(n), l) && Distinct(arrived)
    ensures GaplessTo(Ids(arrived), o, l.clock[o])
  {
    var deps, cs := SelfOnly(n), From(Delivered(l.log), o);
    assert o in deps[o];
    DeliveredInOrder(deps, l, arrived, o, |l.log|);
    assert l.log[..|l.log|] == l.log;
    assert l.clock[o] == |cs|;
    forall i | 1 <= i <= l.clock[o] ensures MsgId(o, i) in Ids(arrived) {
      assert cs[i - 1] in DeliveredBag(l, o);
      assert DeliveredBag(l, o) + multiset(l.pending[o]) == multiset(From(arrived, o));
      assert cs[i - 1] in multiset(From(arrived, o));
      ArrivedId(arrived, LcbMsg(o, cs[i - 1]));
    }
    forall m | m in arrived && m.origin == o ensures At(m.clock, o) != l.clock[o] {
      NextNotArrived(n, l, arrived, m);
    }
  }

  /** An arrival whose own entry equals the clock would have been delivered. */
  lemma NextNotArrived(n: nat, l: Lcb, arrived: seq<LcbMsg>, m: LcbMsg)
    requires Consistent(SelfOnly(n), l, arrived) && AllBlocked(SelfOnly(n), l) && Distinct(arrived)
    requires m in arrived && m.origin < n
    ensures At(m.clock, m.origin) != l.clock[m.origin]
  {
    var o, cs := m.origin, From(Delivered(l.log), m.origin);
    if At(m.clock, o) <= l.clock[o] {
      ReadyIsDelivered(SelfOnly(n), l, arrived, m);
      var i :| 0 <= i < |cs| && cs[i] == m.clock;
      DeliveredInOrder(SelfOnly(n), l, arrived, o, |l.log|);
      assert l.log[..|l.log|] == l.log;
      assert At(cs[i], o) == i < |cs| == l.clock[o];
    }
  }

  lemma ArrivedId(arrived: seq<LcbMsg>, m: LcbMsg)
    requires m.clock in From(arrived, m.origin)
    ensures m.Id() in Ids(arrived)
  {
    FromMember(arrived, m);
    var k :| 0 <= k < |arrived| && arrived[k] == m;
    assert Ids(arrived)[k] == m.Id();
  }

  lemma JustifiedInit(deps: Deps, init: seq<Event>, e: Event)
    requires AllJustified(deps, init + [e])
    ensures AllJustified(deps, init)
  {
    forall k | 0 <= k < |init| ensures Justified(deps, init, k) {
      assert Justified(deps, init + [e], k);
      assert (init + [e])[..k] == init[..k];
    }
  }

  /** If only o's count changes, the new lines are the next numbers of o. */
  lemma {:induction false} NewLinesAreTail(deps: Deps, log: seq<Event>, log': seq<Event>, o: Pid)
    requires OnlyDelivers(log, log') && AllJustified(deps, log')
    requires forall p: Pid | p < |deps| && p != o :: Count(log', p) == Count(log, p)
    ensures Count(log, o) <= Count(log', o)
    ensures DeliveryLines(log') == DeliveryLines(log) + Tail(o, Count(log, o), Count(log', o))
    decreases |log'|
  {
    if |log| < |log'| {
      var init, e := log'[..|log'| - 1], log'[|log'| - 1];
      assert log' == init + [e];
      assert Justified(deps, log', |log'| - 1);
      JustifiedInit(deps, init, e);
      forall p: Pid ensures Count(log, p) <= Count(init, p)
        && Count(log', p) == Count(init, p) + (if e.pid == p then 1 else 0)
      {
        CountAppend(init, e, p);
        CountPrefix(init, |log|, p);
        assert init[..|log|] == log;
      }
      assert e.pid == o;
      NewLinesAreTail(deps, log, init, o);
    } else {
      assert log == log';
    }
  }


  lemma GaplessEqual(n: nat, ms: seq<LcbMsg>, o: Pid)
    requires (forall m | m in ms :: m.origin < n) && Distinct(ms) && o < n
    ensures DeliverAll(SelfOnly(n), Init(n), ms).clock[o] == FifoAll(n, Ids(ms)).next[o]
    ensures Count(DeliverAll(SelfOnly(n), Init(n), ms).log, o) == FifoAll(n, Ids(ms)).next[o]
  {
    DeliverAllConsistent(SelfOnly(n), ms);
    var l := DeliverAll(SelfOnly(n), Init(n), ms);
    ClockIsGapless(n, l, ms, o);
    FifoLogsGaplessRun(n, Ids(ms), o);
    GaplessUnique(Ids(ms), o, l.clock[o], FifoAll(n, Ids(ms)).next[o]);
  }

  lemma FifoNewLines(n: nat, ms: seq<LcbMsg>)
    requires ms != [] && forall m | m in ms :: m.origin < n
    ensures var init, o := ms[..|ms| - 1], ms[|ms| - 1].origin;
      var f, g := FifoAll(n, Ids(init)), FifoAll(n, Ids(ms));
      && f.next[o] <= g.next[o] && g.next == f.next[o := g.next[o]]
      && g.log == f.log + Tail(o, f.next[o], g.next[o])
  {
    var init, m := ms[..|ms| - 1], ms[|ms| - 1];
    assert Ids(ms)[..|ms| - 1] == Ids(init);
    FifoAllInv(n, Ids(init));
    DeliverFifoStep(FifoAll(n, Ids(init)), Ids(init), m.Id());
  }

  /** One more arrival adds the same lines to both logs. */
  lemma SameNewLines(n: nat, ms: seq<LcbMsg>)
    requires ms != [] && (forall m | m in ms :: m.origin < n) && Distinct(ms)
    ensures var init, o := ms[..|ms| - 1], ms[|ms| - 1].origin;
      var l, r := DeliverAll(SelfOnly(n), Init(n), init), DeliverAll(SelfOnly(n), Init(n), ms);
      && Count(l.log, o) <= Count(r.log, o)
      && DeliveryLines(r.log) == DeliveryLines(l.log) + Tail(o, Count(l.log, o), Count(r.log, o))
      && FifoAll(n, Ids(ms)).log == FifoAll(n, Ids(init)).log + Tail(o, Count(l.log, o), Count(r.log, o))
  {
    var init, o := ms[..|ms| - 1], ms[|ms| - 1].origin;
    var l, r := DeliverAll(SelfOnly(n), Init(n), init), DeliverAll(SelfOnly(n), Init(n), ms);
    FifoNewLines(n, ms);
    forall p: Pid | p < n
      ensures Count(l.log, p) == FifoAll(n, Ids(init)).next[p] && Count(r.log, p) == FifoAll(n, Ids(ms)).next[p]
    {
      GaplessEqual(n, init, p);
      GaplessEqual(n, ms, p);
    }
    assert OnlyDelivers(l.log, r.log) by { DeliverOnlyDelivers(SelfOnly(n), l, ms[|ms| - 1]); }
    assert AllJustified(SelfOnly(n), r.log) by { DeliverAllConsistent(SelfOnly(n), ms); }
    NewLinesAreTail(SelfOnly(n), l.log, r.log, o);
  }

  /** For every duplicate-free arrival sequence, deliver_fifo and deliver_lcb with
      self-only dependencies write the same delivery lines in the same order. */
  lemma {:induction false} FifoIsSelfOnlyCausal(n: nat, ms: seq<LcbMsg>)
    requires (forall m | m in ms :: m.origin < n) && Distinct(ms)
    ensures DeliveryLines(DeliverAll(SelfOnly(n), Init(n), ms).log) == FifoAll(n, Ids(ms)).log
  {
    if ms != [] {
      FifoIsSelfOnlyCausal(n, ms[..|ms| - 1]);
      SameNewLines(n, ms);
    }
  }
}
