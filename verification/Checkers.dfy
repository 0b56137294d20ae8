/** The repository's own log checkers, check_fifo.py and test/testlocal.py, and the proof
    that they accept the logs of every run. */
module Checkers {
  import opened Messages
  import opened CausalDelivery
  import opened SequenceNumbers
  import opened Protocol
  import opened Genuine
  import opened UrbFacts
  import opened Logs
  import opened Runs
  import opened Agreement
  import opened CausalOrder

  /** A log line as text: process numbers are printed from 1. */
  datatype Line = BLine(n: nat) | DLine(sender: nat, n: nat)

  function Print(e: Event): Line {
    match e
    case Broadcasts(n) => BLine(n)
    case Delivers(pid, n, _) => DLine(pid + 1, n)
  }

  function Printed(log: seq<Event>): (lines: seq<Line>)
    ensures |lines| == |log| && forall k | 0 <= k < |log| :: lines[k] == Print(log[k])
  {
    seq(|log|, k requires 0 <= k < |log| => Print(log[k]))
  }

  /** How many lines record a delivery from a sender. */
  function Ds(lines: seq<Line>, sender: nat): nat {
    if lines == [] then 0
    else
      var last := lines[|lines| - 1];
      Ds(lines[..|lines| - 1], sender) + (if last.DLine? && last.sender == sender then 1 else 0)
  }

  /** How many lines record a broadcast. */
  function Bs(lines: seq<Line>): nat {
    if lines == [] then 0
    else Bs(lines[..|lines| - 1]) + (if lines[|lines| - 1].BLine? then 1 else 0)
  }

  lemma DsAppend(lines: seq<Line>, k: nat, sender: nat)
    requires k < |lines|
    ensures Ds(lines[..k + 1], sender)
         == Ds(lines[..k], sender) + (if lines[k].DLine? && lines[k].sender == sender then 1 else 0)
  {
    assert lines[..k + 1][..k] == lines[..k];
  }

  lemma BsAppend(lines: seq<Line>, k: nat)
    requires k < |lines|
    ensures Bs(lines[..k + 1]) == Bs(lines[..k]) + (if lines[k].BLine? then 1 else 0)
  {
    assert lines[..k + 1][..k] == lines[..k];
  }

  /** The positions before k of broadcast lines, and of delivery lines of a sender. */
  ghost function EarlierB(lines: seq<Line>, k: nat): set<nat> {
    set j: nat | j < k && j < |lines| && lines[j].BLine?
  }

  ghost function EarlierD(lines: seq<Line>, k: nat, sender: nat): set<nat> {
    set j: nat | j < k && j < |lines| && lines[j].DLine? && lines[j].sender == sender
  }

  lemma EarlierBNext(lines: seq<Line>, k: nat)
    requires k < |lines|
    ensures |EarlierB(lines, k + 1)| == |EarlierB(lines, k)| + (if lines[k].BLine? then 1 else 0)
  {
    assert EarlierB(lines, k + 1) == EarlierB(lines, k) + (if lines[k].BLine? then {k} else {});
  }

  lemma EarlierDNext(lines: seq<Line>, k: nat, sender: nat)
    requires k < |lines|
    ensures |EarlierD(lines, k + 1, sender)|
         == |EarlierD(lines, k, sender)| + (if lines[k].DLine? && lines[k].sender == sender then 1 else 0)
  {
    assert EarlierD(lines, k + 1, sender)
      == EarlierD(lines, k, sender) + (if lines[k].DLine? && lines[k].sender == sender then {k} else {});
  }

  /** The counts are the numbers of such lines. */
  lemma {:induction false} CountLines(lines: seq<Line>, k: nat, sender: nat)
    requires k <= |lines|
    ensures Bs(lines[..k]) == |EarlierB(lines, k)| && Ds(lines[..k], sender) == |EarlierD(lines, k, sender)|
  {
    if k == 0 {
      assert lines[..0] == [] && EarlierB(lines, 0) == {} && EarlierD(lines, 0, sender) == {};
    } else {
      CountLines(lines, k - 1, sender);
      BsAppend(lines, k - 1);
      DsAppend(lines, k - 1, sender);
      EarlierBNext(lines, k - 1);
      EarlierDNext(lines, k - 1, sender);
    }
  }

  // ----- check_fifo.py -----

  /** Line k carries the next number of its kind. */
  predicate NextNumber(lines: seq<Line>, k: nat)
    requires k < |lines|
  {
    match lines[k]
    case BLine(n) => n == Bs(lines[..k]) + 1
    case DLine(sender, n) => n == Ds(lines[..k], sender) + 1
  }

  ghost predicate FifoLog(lines: seq<Line>) {
    forall k | 0 <= k < |lines| :: NextNumber(lines, k)
  }

  /** That is: each broadcast line carries one more than the number of broadcast lines before
      it, and each delivery line one more than the number of its sender's before it. */
  lemma FifoLogIff(lines: seq<Line>)
    ensures FifoLog(lines) <==> forall k | 0 <= k < |lines| ::
      lines[k].n == 1 + if lines[k].BLine? then |EarlierB(lines, k)| else |EarlierD(lines, k, lines[k].sender)|
  {
    forall k | 0 <= k < |lines|
      ensures NextNumber(lines, k) <==>
        lines[k].n == 1 + if lines[k].BLine? then |EarlierB(lines, k)| else |EarlierD(lines, k, lines[k].sender)|
    {
      CountLines(lines, k, if lines[k].BLine? then 0 else lines[k].sender);
    }
  }

  /** defaultdict(lambda: 1) */
  function GetOr1(m: map<nat, nat>, key: nat): nat {
    if key in m then m[key] else 1
  }

  method CheckFifo(lines: seq<Line>) returns (ok: bool)
    ensures ok <==> FifoLog(lines)
  {
    var i := 1;
    var nextMessage: map<nat, nat> := map[];
    for k := 0 to |lines|
      invariant i == Bs(lines[..k]) + 1
      invariant forall q: nat :: GetOr1(nextMessage, q) == Ds(lines[..k], q) + 1
      invariant forall j | 0 <= j < k :: NextNumber(lines, j)
    {
      BsAppend(lines, k);
      forall q: nat ensures Ds(lines[..k + 1], q)
        == Ds(lines[..k], q) + (if lines[k].DLine? && lines[k].sender == q then 1 else 0)
      {
        DsAppend(lines, k, q);
      }
      match lines[k]
      case BLine(msg) =>
        if msg != i {
          assert !NextNumber(lines, k);
          return false;
        }
        i := i + 1;
      case DLine(sender, msg) =>
        if msg != GetOr1(nextMessage, sender) {
          assert !NextNumber(lines, k);
          return false;
        }
        ghost var before := nextMessage;
        nextMessage := nextMessage[sender := msg + 1];
        assert forall q: nat :: GetOr1(nextMessage, q) == if q == sender then msg + 1 else GetOr1(before, q);
    }
    return true;
  }

  // ----- test/testlocal.py -----

  type Mapping = map<(nat, nat), seq<(nat, nat)>>

  /** The list S after a stretch of a log: deliveries from processes the writer depends on. */
  function Past(dep: set<nat>, lines: seq<Line>): seq<(nat, nat)> {
    if lines == [] then []
    else
      var rest, last := Past(dep, lines[..|lines| - 1]), lines[|lines| - 1];
      if last.DLine? && last.sender in dep then rest + [(last.sender, last.n)] else rest
  }

  /** Mapping after reading one file. */
  function MapFile(dep: set<nat>, writer: nat, lines: seq<Line>, start: Mapping): Mapping {
    if lines == [] then start
    else
      var init, last := lines[..|lines| - 1], lines[|lines| - 1];
      var m := MapFile(dep, writer, init, start);
      if last.BLine? then m[(writer, last.n) := Past(dep, init)] else m
  }

  function MapAll(depend: seq<set<nat>>, logs: seq<seq<Line>>): Mapping
    requires |depend| == |logs|
  {
    if logs == [] then map[]
    else
      var k := |logs| - 1;
      MapFile(depend[k], k + 1, logs[k], MapAll(depend[..k], logs[..k]))
  }

  method BuildMapping(depend: seq<set<nat>>, logs: seq<seq<Line>>) returns (mapping: Mapping)
    requires |depend| == |logs|
    ensures mapping == MapAll(depend, logs) && Maps(depend, logs, mapping)
  {
    mapping := map[];
    for p := 0 to |logs|
      invariant mapping == MapAll(depend[..p], logs[..p])
    {
      var S: seq<(nat, nat)> := [];
      ghost var start := mapping;
      for k := 0 to |logs[p]|
        invariant S == Past(depend[p], logs[p][..k])
        invariant mapping == MapFile(depend[p], p + 1, logs[p][..k], start)
      {
        assert logs[p][..k + 1][..k] == logs[p][..k];
        match logs[p][k]
        case DLine(sender, n) =>
          if sender in depend[p] {
            S := S + [(sender, n)];
          }
        case BLine(n) =>
          mapping := mapping[(p + 1, n) := S];
      }
      assert logs[p][..|logs[p]|] == logs[p];
      assert depend[..p + 1][..p] == depend[..p] && logs[..p + 1][..p] == logs[..p];
    }
    assert depend[..|logs|] == depend && logs[..|logs|] == logs;
    MapAllMaps(depend, logs);
  }

  /** Every entry of a past was delivered before line k. */
  ghost predicate PastDelivered(past: seq<(nat, nat)>, lanes: nat, lines: seq<Line>, k: nat)
    requires k <= |lines|
  {
    forall x | x in past :: 1 <= x.0 <= lanes && x.1 <= Ds(lines[..k], x.0)
  }

  /** Everything in the past of the delivered message was delivered before line k, and
      line k continues its sender's numbering. */
  ghost predicate CausalLine(mapping: Mapping, lanes: nat, lines: seq<Line>, k: nat)
    requires k < |lines|
  {
    lines[k].DLine? ==>
      var sender, n := lines[k].sender, lines[k].n;
      && 1 <= sender <= lanes && (sender, n) in mapping
      && n == Ds(lines[..k], sender) + 1
      && PastDelivered(mapping[(sender, n)], lanes, lines, k)
  }

  ghost predicate CausalLog(mapping: Mapping, lanes: nat, lines: seq<Line>) {
    forall k | 0 <= k < |lines| :: CausalLine(mapping, lanes, lines, k)
  }

  // ----- What is in the mapping -----

  /** past lists, in order, all deliveries in lines from senders in dep; at says where. */
  ghost predicate Lists(dep: set<nat>, lines: seq<Line>, past: seq<(nat, nat)>, at: seq<nat>) {
    && |at| == |past| && (forall i, j | 0 <= i < j < |at| :: at[i] < at[j])
    && (forall i | 0 <= i < |at| :: at[i] < |lines| && lines[at[i]] == DLine(past[i].0, past[i].1) && past[i].0 in dep)
    && forall k: nat | k < |lines| && lines[k].DLine? && lines[k].sender in dep :: k in at
  }

  lemma {:induction false} PastListed(dep: set<nat>, lines: seq<Line>) returns (at: seq<nat>)
    ensures Lists(dep, lines, Past(dep, lines), at)
  {
    if lines == [] {
      at := [];
    } else {
      var k := |lines| - 1;
      at := PastListed(dep, lines[..k]);
      if lines[k].DLine? && lines[k].sender in dep {
        ListsOneMore(dep, lines, Past(dep, lines[..k]), at);
        at := at + [k];
      } else {
        ListsAsBefore(dep, lines, Past(dep, lines[..k]), at);
      }
    }
  }

  lemma ListsOneMore(dep: set<nat>, lines: seq<Line>, past: seq<(nat, nat)>, at: seq<nat>)
    requires lines != [] && Lists(dep, lines[..|lines| - 1], past, at)
    requires var last := lines[|lines| - 1]; last.DLine? && last.sender in dep
    ensures var last := lines[|lines| - 1]; Lists(dep, lines, past + [(last.sender, last.n)], at + [|lines| - 1])
  {
    var k := |lines| - 1;
    forall j: nat | j < |lines| && lines[j].DLine? && lines[j].sender in dep ensures j in at + [k] {
      if j < k {
        assert lines[..k][j] == lines[j];
      } else {
        assert (at + [k])[|at|] == k;
      }
    }
  }

  lemma ListsAsBefore(dep: set<nat>, lines: seq<Line>, past: seq<(nat, nat)>, at: seq<nat>)
    requires lines != [] && Lists(dep, lines[..|lines| - 1], past, at)
    requires var last := lines[|lines| - 1]; !(last.DLine? && last.sender in dep)
    ensures Lists(dep, lines, past, at)
  {
    forall j: nat | j < |lines| && lines[j].DLine? && lines[j].sender in dep ensures j in at {
      assert lines[..|lines| - 1][j] == lines[j];
    }
  }

  /** So its members are those deliveries. */
  lemma PastMember(dep: set<nat>, lines: seq<Line>, x: (nat, nat))
    ensures x in Past(dep, lines) <==> x.0 in dep && exists a :: 0 <= a < |lines| && lines[a] == DLine(x.0, x.1)
  {
    var at := PastListed(dep, lines);
    if x in Past(dep, lines) {
      var i :| 0 <= i < |at| && Past(dep, lines)[i] == x;
      assert lines[at[i]] == DLine(x.0, x.1);
    }
    if x.0 in dep && exists a :: 0 <= a < |lines| && lines[a] == DLine(x.0, x.1) {
      var a: nat :| a < |lines| && lines[a] == DLine(x.0, x.1);
      var i :| 0 <= i < |at| && at[i] == a;
      assert Past(dep, lines)[i] == x;
    }
  }

  lemma {:induction false} MapFileOther(dep: set<nat>, writer: nat, lines: seq<Line>, start: Mapping, key: (nat, nat))
    requires key.0 != writer || forall k | 0 <= k < |lines| :: lines[k] != BLine(key.1)
    ensures key in MapFile(dep, writer, lines, start) <==> key in start
    ensures key in start ==> MapFile(dep, writer, lines, start)[key] == start[key]
  {
    if lines != [] {
      MapFileOther(dep, writer, lines[..|lines| - 1], start, key);
    }
  }

  lemma {:induction false} MapFileAt(dep: set<nat>, writer: nat, lines: seq<Line>, start: Mapping, b: nat)
    requires b < |lines| && lines[b].BLine? && forall k | b < k < |lines| :: lines[k] != lines[b]
    ensures var key := (writer, lines[b].n);
      key in MapFile(dep, writer, lines, start) && MapFile(dep, writer, lines, start)[key] == Past(dep, lines[..b])
  {
    var init := lines[..|lines| - 1];
    if b < |init| {
      MapFileAt(dep, writer, init, start, b);
      assert init[..b] == lines[..b];
      assert lines[|lines| - 1] != lines[b];
    } else {
      assert init == lines[..b];
    }
  }

  lemma {:induction false} MapAllAt(depend: seq<set<nat>>, logs: seq<seq<Line>>, p: nat, b: nat)
    requires |depend| == |logs| && p < |logs| && b < |logs[p]| && logs[p][b].BLine?
    requires forall k | b < k < |logs[p]| :: logs[p][k] != logs[p][b]
    ensures var key := (p + 1, logs[p][b].n);
      key in MapAll(depend, logs) && MapAll(depend, logs)[key] == Past(depend[p], logs[p][..b])
  {
    var k := |logs| - 1;
    if p == k {
      MapFileAt(depend[k], k + 1, logs[k], MapAll(depend[..k], logs[..k]), b);
    } else {
      MapAllAt(depend[..k], logs[..k], p, b);
      MapFileOther(depend[k], k + 1, logs[k], MapAll(depend[..k], logs[..k]), (p + 1, logs[p][b].n));
    }
  }

  /** Line b is the last "b i" of a log. */
  ghost predicate LastB(log: seq<Line>, i: nat, b: nat) {
    b < |log| && log[b] == BLine(i) && forall k | b < k < |log| :: log[k] != BLine(i)
  }

  lemma {:induction false} FindLastB(log: seq<Line>, i: nat, k: nat) returns (b: nat)
    requires k < |log| && log[k] == BLine(i)
    ensures LastB(log, i, b)
    decreases |log| - k
  {
    if j: nat :| k < j < |log| && log[j] == BLine(i) {
      b := FindLastB(log, i, j);
    } else {
      b := k;
    }
  }

  lemma {:induction false} OnlyBroadcastsMapped(depend: seq<set<nat>>, logs: seq<seq<Line>>, key: (nat, nat))
    requires |depend| == |logs| && key in MapAll(depend, logs)
    ensures 1 <= key.0 <= |logs| && BLine(key.1) in logs[key.0 - 1]
  {
    var k := |logs| - 1;
    var start := MapAll(depend[..k], logs[..k]);
    if key.0 == k + 1 && BLine(key.1) in logs[k] {
    } else {
      MapFileOther(depend[k], k + 1, logs[k], start, key);
      OnlyBroadcastsMapped(depend[..k], logs[..k], key);
    }
  }

  /** The mapping has an entry for every broadcast logged, and for nothing else: the
      deliveries from dependencies that its log has before the line, in order. */
  ghost predicate Maps(depend: seq<set<nat>>, logs: seq<seq<Line>>, mapping: Mapping)
    requires |depend| == |logs|
  {
    && (forall key | key in mapping :: 1 <= key.0 <= |logs| && BLine(key.1) in logs[key.0 - 1])
    && forall p: nat, i, b | p < |logs| && LastB(logs[p], i, b) :: MapsLine(depend[p], logs[p], mapping, (p + 1, i), b)
  }

  ghost predicate MapsLine(dep: set<nat>, log: seq<Line>, mapping: Mapping, key: (nat, nat), b: nat)
    requires b < |log|
  {
    key in mapping && exists at :: Lists(dep, log[..b], mapping[key], at)
  }

  lemma MapAllMaps(depend: seq<set<nat>>, logs: seq<seq<Line>>)
    requires |depend| == |logs|
    ensures Maps(depend, logs, MapAll(depend, logs))
  {
    forall key | key in MapAll(depend, logs) ensures 1 <= key.0 <= |logs| && BLine(key.1) in logs[key.0 - 1] {
      OnlyBroadcastsMapped(depend, logs, key);
    }
    forall p: nat, i: nat, b: nat | p < |logs| && LastB(logs[p], i, b)
      ensures MapsLine(depend[p], logs[p], MapAll(depend, logs), (p + 1, i), b)
    {
      MapAllAt(depend, logs, p, b);
      var at := PastListed(depend[p], logs[p][..b]);
    }
  }

  // ----- What a log must look like -----

  /** Line b of the writer's log is its last "b i", and every delivery from a dependency
      that it has before that is matched in the first k lines of another log. */
  ghost predicate PastMet(dep: set<nat>, writer: seq<Line>, i: nat, b: nat, lanes: nat, lines: seq<Line>, k: nat)
    requires k <= |lines|
  {
    && LastB(writer, i, b)
    && forall a | 0 <= a < b && writer[a].DLine? && writer[a].sender in dep ::
         1 <= writer[a].sender <= lanes && writer[a].n <= |EarlierD(lines, k, writer[a].sender)|
  }

  ghost predicate PastMatched(dep: set<nat>, writer: seq<Line>, i: nat, lanes: nat, lines: seq<Line>, k: nat)
    requires k <= |lines|
  {
    exists b :: PastMet(dep, writer, i, b, lanes, lines, k)
  }

  /** Line k of log r, if a delivery, is of a logged broadcast, in the order of its sender's
      numbers, and after everything its sender had delivered from its dependencies. */
  ghost predicate LineGood(depend: seq<set<nat>>, lanes: nat, logs: seq<seq<Line>>, r: nat, k: nat)
    requires |depend| == |logs| && r < |logs| && k < |logs[r]|
  {
    logs[r][k].DLine? ==>
      var sender, n := logs[r][k].sender, logs[r][k].n;
      && 1 <= sender <= lanes && sender <= |logs| && n == |EarlierD(logs[r], k, sender)| + 1
      && PastMatched(depend[sender - 1], logs[sender - 1], n, lanes, logs[r], k)
  }

  /** All lines of all logs are. */
  ghost predicate LogsGood(depend: seq<set<nat>>, lanes: nat, logs: seq<seq<Line>>)
    requires |depend| == |logs|
  {
    forall r, k | 0 <= r < |logs| && 0 <= k < |logs[r]| :: LineGood(depend, lanes, logs, r, k)
  }

  lemma PastMetIff(dep: set<nat>, writer: seq<Line>, i: nat, b: nat, lanes: nat, lines: seq<Line>, k: nat)
    requires k <= |lines| && LastB(writer, i, b)
    ensures PastMet(dep, writer, i, b, lanes, lines, k) <==> PastDelivered(Past(dep, writer[..b]), lanes, lines, k)
  {
    forall q: nat ensures |EarlierD(lines, k, q)| == Ds(lines[..k], q) {
      CountLines(lines, k, q);
    }
    forall x ensures x in Past(dep, writer[..b])
      <==> x.0 in dep && exists a :: 0 <= a < b && writer[..b][a] == DLine(x.0, x.1)
    {
      PastMember(dep, writer[..b], x);
    }
    if PastDelivered(Past(dep, writer[..b]), lanes, lines, k) {
      forall a | 0 <= a < b && writer[a].DLine? && writer[a].sender in dep
        ensures 1 <= writer[a].sender <= lanes && writer[a].n <= |EarlierD(lines, k, writer[a].sender)|
      {
        assert writer[..b][a] == DLine(writer[a].sender, writer[a].n);
        assert (writer[a].sender, writer[a].n) in Past(dep, writer[..b]);
      }
    }
    if PastMet(dep, writer, i, b, lanes, lines, k) {
      forall x | x in Past(dep, writer[..b]) ensures 1 <= x.0 <= lanes && x.1 <= Ds(lines[..k], x.0) {
        var a :| 0 <= a < b && writer[..b][a] == DLine(x.0, x.1);
        assert writer[a] == DLine(x.0, x.1);
      }
    }
  }

  /** What the second loop asks of a line, in terms of the logs alone. */
  lemma LineGoodIff(depend: seq<set<nat>>, lanes: nat, logs: seq<seq<Line>>, r: nat, k: nat)
    requires |depend| == |logs| && r < |logs| && k < |logs[r]|
    ensures LineGood(depend, lanes, logs, r, k) <==> CausalLine(MapAll(depend, logs), lanes, logs[r], k)
  {
    if logs[r][k].DLine? {
      var sender, n := logs[r][k].sender, logs[r][k].n;
      CountLines(logs[r], k, sender);
      if (sender, n) in MapAll(depend, logs) {
        OnlyBroadcastsMapped(depend, logs, (sender, n));
        var j: nat :| j < |logs[sender - 1]| && logs[sender - 1][j] == BLine(n);
        var b := FindLastB(logs[sender - 1], n, j);
        MapAllAt(depend, logs, sender - 1, b);
        PastMetIff(depend[sender - 1], logs[sender - 1], n, b, lanes, logs[r], k);
      }
      if LineGood(depend, lanes, logs, r, k) {
        var b :| PastMet(depend[sender - 1], logs[sender - 1], n, b, lanes, logs[r], k);
        MapAllAt(depend, logs, sender - 1, b);
        PastMetIff(depend[sender - 1], logs[sender - 1], n, b, lanes, logs[r], k);
      }
    }
  }

  lemma LogsGoodIff(depend: seq<set<nat>>, lanes: nat, logs: seq<seq<Line>>)
    requires |depend| == |logs|
    ensures LogsGood(depend, lanes, logs) <==> forall p | 0 <= p < |logs| :: CausalLog(MapAll(depend, logs), lanes, logs[p])
  {
    forall r, k | 0 <= r < |logs| && 0 <= k < |logs[r]|
      ensures LineGood(depend, lanes, logs, r, k) <==> CausalLine(MapAll(depend, logs), lanes, logs[r], k)
    {
      LineGoodIff(depend, lanes, logs, r, k);
    }
    if LogsGood(depend, lanes, logs) {
      forall p, k | 0 <= p < |logs| && 0 <= k < |logs[p]| ensures CausalLine(MapAll(depend, logs), lanes, logs[p], k) {
        assert LineGood(depend, lanes, logs, p, k);
      }
    }
    if forall p | 0 <= p < |logs| :: CausalLog(MapAll(depend, logs), lanes, logs[p]) {
      forall r, k | 0 <= r < |logs| && 0 <= k < |logs[r]| ensures LineGood(depend, lanes, logs, r, k) {
        assert CausalLog(MapAll(depend, logs), lanes, logs[r]);
        assert CausalLine(MapAll(depend, logs), lanes, logs[r], k);
      }
    }
  }

  /** A log that has "d q j" from a dependency q before its only "b i", and another that
      delivers that message before j deliveries from q, are not good. */
  lemma ViolationSeen(depend: seq<set<nat>>, lanes: nat, logs: seq<seq<Line>>, p: nat, a: nat, b: nat, r: nat, k: nat)
    requires |depend| == |logs| && p < |logs| && r < |logs| && a < b < |logs[p]| && k < |logs[r]|
    requires logs[p][a].DLine? && logs[p][a].sender in depend[p] && logs[p][b].BLine?
    requires forall j | 0 <= j < |logs[p]| && logs[p][j] == logs[p][b] :: j == b
    requires logs[r][k] == DLine(p + 1, logs[p][b].n)
    requires |EarlierD(logs[r], k, logs[p][a].sender)| < logs[p][a].n
    ensures !LogsGood(depend, lanes, logs)
  {
    forall b': nat ensures !PastMet(depend[p], logs[p], logs[p][b].n, b', lanes, logs[r], k) {
      if LastB(logs[p], logs[p][b].n, b') {
        assert logs[p][b'] == logs[p][b];
      }
    }
    assert !LineGood(depend, lanes, logs, r, k);
  }

  /** Nor is a log with a delivery out of its sender's numbers, or of what nobody broadcast. */
  lemma GapSeen(depend: seq<set<nat>>, lanes: nat, logs: seq<seq<Line>>, r: nat, k: nat)
    requires |depend| == |logs| && r < |logs| && k < |logs[r]| && logs[r][k].DLine?
    requires var sender, n := logs[r][k].sender, logs[r][k].n;
      || n != |EarlierD(logs[r], k, sender)| + 1 || sender == 0 || |logs| < sender || BLine(n) !in logs[sender - 1]
    ensures !LogsGood(depend, lanes, logs)
  {
    assert !LineGood(depend, lanes, logs, r, k) by {
      var sender, n := logs[r][k].sender, logs[r][k].n;
      if 1 <= sender <= |logs| && BLine(n) !in logs[sender - 1] {
        var writer := logs[sender - 1];
        forall b: nat ensures !LastB(writer, n, b) {
        }
      }
    }
  }

  // ----- The second loop -----

  /** The script prints True, prints False, or dies on a missing key or index. */
  datatype Verdict = Passed | Failed | Dies

  /** The list delivered when the first k lines have been read. */
  function CountsAt(lines: seq<Line>, lanes: nat, k: nat): (counts: seq<nat>)
    requires k <= |lines|
    ensures |counts| == lanes
  {
    seq(lanes, o requires 0 <= o < lanes => Ds(lines[..k], o + 1))
  }

  /** An entry of a past, against the deliveries so far. */
  predicate Met(x: (nat, nat), counts: seq<nat>) {
    1 <= x.0 <= |counts| && x.1 <= counts[x.0 - 1]
  }

  /** The first entry that is not met has no lane. */
  ghost predicate PastDies(did: seq<(nat, nat)>, counts: seq<nat>) {
    exists i :: 0 <= i < |did| && !(1 <= did[i].0 <= |counts|) && forall j | 0 <= j < i :: Met(did[j], counts)
  }

  ghost predicate LineDies(mapping: Mapping, lanes: nat, lines: seq<Line>, k: nat)
    requires k < |lines|
  {
    lines[k].DLine? &&
      var key: (nat, nat) := (lines[k].sender, lines[k].n);
      || key !in mapping || PastDies(mapping[key], CountsAt(lines, lanes, k)) || !(1 <= key.0 <= lanes)
  }

  /** The loop goes on after line k, also if its past is not met. */
  ghost predicate LineGoesOn(mapping: Mapping, lanes: nat, lines: seq<Line>, k: nat)
    requires k < |lines|
  {
    !LineDies(mapping, lanes, lines, k) && (lines[k].DLine? ==> NextNumber(lines, k))
  }

  ghost predicate GoesOnBefore(mapping: Mapping, lanes: nat, lines: seq<Line>, k: nat)
    requires k <= |lines|
  {
    forall j | 0 <= j < k :: LineGoesOn(mapping, lanes, lines, j)
  }

  lemma CountsAre(lines: seq<Line>, lanes: nat, k: nat)
    requires k <= |lines|
    ensures forall q: nat | q < lanes :: CountsAt(lines, lanes, k)[q] == |EarlierD(lines, k, q + 1)|
  {
    forall q: nat | q < lanes ensures CountsAt(lines, lanes, k)[q] == |EarlierD(lines, k, q + 1)| {
      CountLines(lines, k, q + 1);
    }
  }

  /** The script dies of a delivery line if and only if no broadcast was recorded for it, its
      sender has no lane, or the first entry of its past that was not delivered in time has
      none. It goes on if and only if it does not die and the number is the sender's next. */
  lemma LineOutcome(mapping: Mapping, lanes: nat, lines: seq<Line>, k: nat)
    requires k < |lines| && lines[k].DLine?
    ensures var key, counts := (lines[k].sender, lines[k].n), CountsAt(lines, lanes, k);
      LineDies(mapping, lanes, lines, k) <==> (
        || key !in mapping || key.0 == 0 || lanes < key.0
        || exists i :: 0 <= i < |mapping[key]| && (mapping[key][i].0 == 0 || lanes < mapping[key][i].0) &&
             forall j | 0 <= j < i :: 0 < mapping[key][j].0 <= lanes && mapping[key][j].1 <= counts[mapping[key][j].0 - 1])
    ensures LineGoesOn(mapping, lanes, lines, k) <==>
      !LineDies(mapping, lanes, lines, k) && lines[k].n == |EarlierD(lines, k, lines[k].sender)| + 1
    ensures forall q: nat | q < lanes :: CountsAt(lines, lanes, k)[q] == |EarlierD(lines, k, q + 1)|
  {
    CountsAre(lines, lanes, k);
    CountLines(lines, k, lines[k].sender);
  }

  /** The first line after which the loop does not go on is one that it dies of. */
  ghost predicate FileDies(mapping: Mapping, lanes: nat, lines: seq<Line>) {
    exists k :: 0 <= k < |lines| && LineDies(mapping, lanes, lines, k) && GoesOnBefore(mapping, lanes, lines, k)
  }

  /** A loop that ends, or stops at a line it does not die of, has not died. */
  lemma StopsAlive(mapping: Mapping, lanes: nat, lines: seq<Line>, k: nat)
    requires k <= |lines| && GoesOnBefore(mapping, lanes, lines, k)
    requires k < |lines| ==> !LineDies(mapping, lanes, lines, k) && !LineGoesOn(mapping, lanes, lines, k)
    ensures !FileDies(mapping, lanes, lines)
  {
    forall j | 0 <= j < |lines| && LineDies(mapping, lanes, lines, j) ensures !GoesOnBefore(mapping, lanes, lines, j) {
      assert !LineGoesOn(mapping, lanes, lines, j);
    }
  }

  lemma CountsNone(lines: seq<Line>, lanes: nat)
    ensures forall o | 0 <= o < lanes :: CountsAt(lines, lanes, 0)[o] == 0
  {
    assert lines[..0] == [];
    forall o | 0 <= o < lanes ensures CountsAt(lines, lanes, 0)[o] == 0 {
      assert CountsAt(lines, lanes, 0)[o] == Ds(lines[..0], o + 1) == 0;
    }
  }

  lemma CountsAfter(lines: seq<Line>, lanes: nat, k: nat)
    requires k < |lines| && (lines[k].DLine? ==> 1 <= lines[k].sender <= lanes && NextNumber(lines, k))
    ensures CountsAt(lines, lanes, k + 1) ==
      if lines[k].DLine? then CountsAt(lines, lanes, k)[lines[k].sender - 1 := lines[k].n] else CountsAt(lines, lanes, k)
  {
    forall o | 0 <= o < lanes ensures CountsAt(lines, lanes, k + 1)[o]
      == CountsAt(lines, lanes, k)[o] + (if lines[k].DLine? && lines[k].sender == o + 1 then 1 else 0)
    {
      DsAppend(lines, k, o + 1);
    }
  }

  lemma PastDeliveredIff(past: seq<(nat, nat)>, lanes: nat, lines: seq<Line>, k: nat)
    requires k <= |lines|
    ensures PastDelivered(past, lanes, lines, k) <==> forall x | x in past :: Met(x, CountsAt(lines, lanes, k))
  {
    forall x | x in past ensures Met(x, CountsAt(lines, lanes, k)) <==> 1 <= x.0 <= lanes && x.1 <= Ds(lines[..k], x.0) {
    }
  }

  /** One file: the loop over delivered lines. delivered has 5 lanes in the script. */
  method CheckFile(mapping: Mapping, lanes: nat, lines: seq<Line>) returns (v: Verdict)
    ensures v == Passed <==> CausalLog(mapping, lanes, lines)
    ensures v == Dies <==> FileDies(mapping, lanes, lines)
  {
    var delivered := new nat[lanes](_ => 0);
    v := Passed;
    CountsNone(lines, lanes);
    for k := 0 to |lines|
      invariant v != Dies && delivered[..] == CountsAt(lines, lanes, k)
      invariant GoesOnBefore(mapping, lanes, lines, k)
      invariant v == Passed <==> forall j | 0 <= j < k :: CausalLine(mapping, lanes, lines, j)
    {
      if lines[k].DLine? {
        var sender, n := lines[k].sender, lines[k].n;
        if (sender, n) !in mapping {
          assert LineDies(mapping, lanes, lines, k) && !CausalLine(mapping, lanes, lines, k);
          return Dies;
        }
        var did := mapping[(sender, n)];
        var ok := CheckPast(did, delivered);
        PastDeliveredIff(did, lanes, lines, k);
        if ok == Dies || !(1 <= sender <= lanes) {
          assert LineDies(mapping, lanes, lines, k) && !CausalLine(mapping, lanes, lines, k);
          return Dies;
        }
        if ok == Failed {
          assert !CausalLine(mapping, lanes, lines, k);
          v := Failed;
        }
        if n != delivered[sender - 1] + 1 {
          assert !LineDies(mapping, lanes, lines, k) && !LineGoesOn(mapping, lanes, lines, k);
          assert !CausalLine(mapping, lanes, lines, k);
          StopsAlive(mapping, lanes, lines, k);
          return Failed;
        }
        CountsAfter(lines, lanes, k);
        delivered[sender - 1] := n;
      } else {
        CountsAfter(lines, lanes, k);
      }
    }
    StopsAlive(mapping, lanes, lines, |lines|);
  }

  /** The inner loop over the past of one delivered message. */
  method CheckPast(did: seq<(nat, nat)>, delivered: array<nat>) returns (v: Verdict)
    ensures v == Passed <==> forall x | x in did :: 1 <= x.0 <= delivered.Length && x.1 <= delivered[x.0 - 1]
    ensures v == Dies <==> exists i :: (
      && 0 <= i < |did| && !(1 <= did[i].0 <= delivered.Length)
      && forall j | 0 <= j < i :: 1 <= did[j].0 <= delivered.Length && did[j].1 <= delivered[did[j].0 - 1])
    ensures v == Passed <==> forall x | x in did :: Met(x, delivered[..])
    ensures v == Dies <==> PastDies(did, delivered[..])
  {
    for i := 0 to |did|
      invariant forall j | 0 <= j < i :: Met(did[j], delivered[..])
    {
      var x := did[i];
      assert x in did;
      if !(1 <= x.0 <= delivered.Length) {
        return Dies;
      }
      if x.1 > delivered[x.0 - 1] {
        return Failed;
      }
    }
    return Passed;
  }

  /** The whole script: when it prints True, and when it dies. */
  method CheckLocal(depend: seq<set<nat>>, lanes: nat, logs: seq<seq<Line>>) returns (v: Verdict)
    requires |depend| == |logs|
    ensures v == Passed <==> LogsGood(depend, lanes, logs)
    ensures v == Dies <==> exists p :: 0 <= p < |logs| && FileDies(MapAll(depend, logs), lanes, logs[p])
  {
    var mapping := BuildMapping(depend, logs);
    LogsGoodIff(depend, lanes, logs);
    v := Passed;
    for p := 0 to |logs|
      invariant v != Dies && forall q | 0 <= q < p :: !FileDies(mapping, lanes, logs[q])
      invariant v == Passed <==> forall q | 0 <= q < p :: CausalLog(mapping, lanes, logs[q])
    {
      var w := CheckFile(mapping, lanes, logs[p]);
      if w == Dies {
        return Dies;
      }
      if w == Failed {
        v := Failed;
      }
    }
  }

  // ----- The logs of a run -----

  lemma {:induction false} PrintedCounts(deps: Deps, log: seq<Event>, k: nat, q: Pid)
    requires AllJustified(deps, log) && k <= |log|
    ensures Ds(Printed(log)[..k], q + 1) == Count(log[..k], q)
    ensures Bs(Printed(log)[..k]) == BroadcastCount(log[..k])
  {
    if k > 0 {
      var e := log[k - 1];
      PrintedCounts(deps, log, k - 1, q);
      DsAppend(Printed(log), k - 1, q + 1);
      BsAppend(Printed(log), k - 1);
      assert Printed(log)[k - 1] == Print(e) && Justified(deps, log, k - 1);
      CountNext(log, k - 1, q);
    }
  }

  lemma CountNext(log: seq<Event>, k: nat, q: Pid)
    requires k < |log|
    ensures Count(log[..k + 1], q) == Count(log[..k], q) + (if log[k].Delivers? && log[k].msg.origin == q then 1 else 0)
    ensures BroadcastCount(log[..k + 1]) == BroadcastCount(log[..k]) + (if log[k].Broadcasts? then 1 else 0)
  {
    assert log[..k + 1] == log[..k] + [log[k]];
    CountAppend(log[..k], log[k], q);
    BroadcastCountAppend(log[..k], log[k]);
  }

  /** Lines "b n" of a log are numbered in order. */
  ghost predicate BroadcastsNumbered(log: seq<Event>) {
    forall k | 0 <= k < |log| && log[k].Broadcasts? :: log[k].n == BroadcastCount(log[..k]) + 1
  }

  lemma NumberedPrint(deps: Deps, log: seq<Event>, k: nat)
    requires AllJustified(deps, log) && BroadcastsNumbered(log) && k < |log|
    ensures NextNumber(Printed(log), k)
  {
    assert Justified(deps, log, k);
    PrintedCounts(deps, log, k, if log[k].Delivers? then log[k].pid else 0);
  }

  lemma LogFacts(c: Config, s: State, p: Pid)
    requires ValidConfig(c) && Reachable(c, s) && p < |s.procs|
    ensures AllJustified(c.deps, s.procs[p].lcb.log) && BroadcastsNumbered(s.procs[p].lcb.log)
  {
    ReachableInv(c, s);
    var log := s.procs[p].lcb.log;
    assert CausalState(c, s.procs[p]) && LogOf(c, s, p, s.procs[p]);
    forall k | 0 <= k < |log| && log[k].Broadcasts? ensures log[k].n == BroadcastCount(log[..k]) + 1 {
      assert Stamped(c, s, p, log, k);
    }
  }

  /** check_fifo.py accepts the log of every process in every reachable state, with any
      dependency lists. */
  lemma FifoCheckAccepts(c: Config, s: State, p: Pid)
    requires ValidConfig(c) && Reachable(c, s) && p < |s.procs|
    ensures FifoLog(Printed(s.procs[p].lcb.log))
  {
    var log := s.procs[p].lcb.log;
    LogFacts(c, s, p);
    forall k | 0 <= k < |log| ensures NextNumber(Printed(log), k) {
      NumberedPrint(c.deps, log, k);
    }
  }

  /** The script's depend dictionary: the whole line, its own process included. */
  ghost predicate DependRead(c: Config, depend: seq<set<nat>>) {
    && |depend| == c.n
    && c.n == |c.deps|
    && forall o, x: nat | 0 <= o < c.n :: x in depend[o] <==> x == o + 1 || (1 <= x && x - 1 in c.deps[o])
  }

  ghost function PrintedLogs(s: State): (logs: seq<seq<Line>>)
    ensures |logs| == |s.procs| && forall p | 0 <= p < |s.procs| :: logs[p] == Printed(s.procs[p].lcb.log)
  {
    seq(|s.procs|, p requires 0 <= p < |s.procs| => Printed(s.procs[p].lcb.log))
  }

  /** The i-th broadcast is logged, once. */
  lemma {:induction false} FindBroadcast(log: seq<Event>, e: nat, i: nat) returns (b: nat)
    requires e <= |log| && 1 <= i <= BroadcastCount(log[..e])
    requires BroadcastsNumbered(log)
    ensures b < e && log[b] == Broadcasts(i)
    ensures forall k | b < k < e && log[k].Broadcasts? :: log[k].n > i
    decreases e
  {
    assert e > 0;
    assert log[..e] == log[..e - 1] + [log[e - 1]];
    BroadcastCountAppend(log[..e - 1], log[e - 1]);
    if i <= BroadcastCount(log[..e - 1]) {
      b := FindBroadcast(log, e - 1, i);
    } else {
      b := e - 1;
    }
  }

  /** The past of the i-th message of o as the script records it. */
  lemma MappedPast(c: Config, s: State, depend: seq<set<nat>>, o: Pid, i: nat) returns (b: nat)
    requires ValidConfig(c) && Reachable(c, s) && DependRead(c, depend) && o < c.n
    requires 1 <= i <= |From(s.broadcasts, o)|
    ensures |s.procs| == c.n
    ensures b < |s.procs[o].lcb.log| && s.procs[o].lcb.log[b] == Broadcasts(i)
    ensures var key, mapping := (o + 1, i), MapAll(depend, PrintedLogs(s));
      key in mapping && mapping[key] == Past(depend[o], Printed(s.procs[o].lcb.log)[..b])
  {
    ReachableInv(c, s);
    var log := s.procs[o].lcb.log;
    assert LogOf(c, s, o, s.procs[o]) && ShapeOf(c, s, o, s.procs[o]);
    assert log[..|log|] == log;
    LogFacts(c, s, o);
    b := FindBroadcast(log, |log|, i);
    MapAllAt(depend, PrintedLogs(s), o, b);
  }

  /** Distinct own entries cannot all be small. */
  lemma LargestOwnEntry(cs: seq<Clock>, o: Pid) returns (c: Clock)
    requires cs != [] && OwnEntryUnique(multiset(cs), o)
    ensures c in cs && |cs| - 1 <= At(c, o)
  {
    if forall c | c in cs :: At(c, o) in Everyone(|cs| - 1) {
      OwnEntriesFit(cs, o, Everyone(|cs| - 1));
      assert false;
    }
    c :| c in cs && At(c, o) !in Everyone(|cs| - 1);
  }

  /** Among the deliveries from o up to line k is one of its n-th message or a later
      one, n being the number logged at line k. */
  lemma LateEnoughDelivery(deps: Deps, l: Lcb, arrived: seq<LcbMsg>, k: nat) returns (e: nat)
    requires Consistent(deps, l, arrived) && Distinct(arrived) && k < |l.log| && l.log[k].Delivers?
    ensures e <= k && l.log[e].Delivers? && l.log[e].pid == l.log[k].pid && l.log[k].n <= l.log[e].msg.Id().seqNum
  {
    assert Justified(deps, l.log, k);
    var o := l.log[k].pid;
    var cs := From(Delivered(l.log[..k + 1]), o);
    assert l.log[..k + 1] == l.log[..k] + [l.log[k]];
    CountAppend(l.log[..k], l.log[k], o);
    CountPrefix(l.log, k + 1, o);
    PrefixBag(cs, From(Delivered(l.log), o));
    FromDistinct(arrived, o);
    SubBagUnique(multiset(cs), multiset(From(arrived, o)), o);
    var v := LargestOwnEntry(cs, o);
    e := LineOfClock(l.log, k + 1, o, v);
    assert Justified(deps, l.log, e);
  }

  /** The j-th broadcast is logged at or after an earlier one. */
  lemma LaterBroadcast(log: seq<Event>, b: nat, j: nat) returns (b': nat)
    requires BroadcastsNumbered(log) && b < |log| && log[b].Broadcasts? && log[b].n <= j <= BroadcastCount(log)
    ensures b <= b' < |log| && log[b'] == Broadcasts(j)
  {
    assert log[..|log|] == log;
    b' := FindBroadcast(log, |log|, j);
  }

  lemma LaterStamp(c: Config, s: State, o: Pid, w: seq<Event>, q: Pid, b: nat, b': nat)
    requires b <= b' < |w| && w[b'].Broadcasts? && Stamped(c, s, o, w, b') && q < c.n && q != o
    ensures 1 <= w[b'].n <= |From(s.broadcasts, o)|
    ensures Count(w[..b], q) <= At(From(s.broadcasts, o)[w[b'].n - 1], q)
  {
    assert w[..b'][..b] == w[..b];
    CountPrefix(w[..b'], b, q);
  }

  /** w is a log whose broadcast lines are numbered and stamped, for all o's broadcasts. */
  ghost predicate WellStamped(c: Config, s: State, o: Pid, w: seq<Event>) {
    && BroadcastsNumbered(w) && BroadcastCount(w) == |From(s.broadcasts, o)|
    && forall b | 0 <= b < |w| :: Stamped(c, s, o, w, b)
  }

  lemma LogWellStamped(c: Config, s: State, o: Pid, w: seq<Event>)
    requires ValidConfig(c) && Reachable(c, s) && o < |s.procs| && w == s.procs[o].lcb.log
    ensures WellStamped(c, s, o, w)
  {
    LogFacts(c, s, o);
    ReachableInv(c, s);
    assert LogOf(c, s, o, s.procs[o]) && ShapeOf(c, s, o, s.procs[o]);
  }

  lemma StampsGrowIn(c: Config, s: State, o: Pid, w: seq<Event>, q: Pid, b: nat, j: nat)
    requires WellStamped(c, s, o, w) && q < c.n && q != o && 1 <= j
    requires b < |w| && w[b].Broadcasts? && w[b].n <= j <= |From(s.broadcasts, o)|
    ensures Count(w[..b], q) <= At(From(s.broadcasts, o)[j - 1], q)
  {
    var b' := LaterBroadcast(w, b, j);
    LaterStamp(c, s, o, w, q, b, b');
  }

  /** Later broadcasts of a process count at least the deliveries logged before earlier ones. */
  lemma StampsGrow(c: Config, s: State, o: Pid, q: Pid, b: nat, j: nat)
    requires ValidConfig(c) && Reachable(c, s) && o < |s.procs| && q < c.n && q != o && 1 <= j
    requires b < |s.procs[o].lcb.log| && s.procs[o].lcb.log[b].Broadcasts?
    requires s.procs[o].lcb.log[b].n <= j <= |From(s.broadcasts, o)|
    ensures Count(s.procs[o].lcb.log[..b], q) <= At(From(s.broadcasts, o)[j - 1], q)
  {
    var w := s.procs[o].lcb.log;
    LogWellStamped(c, s, o, w);
    StampsGrowIn(c, s, o, w, q, b, j);
  }

  /** The same of a broadcast message m. */
  lemma StampOfLater(c: Config, s: State, o: Pid, q: Pid, b: nat, m: LcbMsg)
    requires ValidConfig(c) && Reachable(c, s) && o < |s.procs| && q < c.n && q != o
    requires b < |s.procs[o].lcb.log| && s.procs[o].lcb.log[b].Broadcasts?
    requires m.origin == o && IsBroadcast(s, m.Id()) && MessageOf(s, m.Id()) == m
    requires s.procs[o].lcb.log[b].n <= m.Id().seqNum
    ensures Count(s.procs[o].lcb.log[..b], q) <= At(m.clock, q)
  {
    StampsGrow(c, s, o, q, b, m.Id().seqNum);
  }

  /** What o had logged from itself before its n-th broadcast: fewer than n messages. */
  lemma OwnPastIsDelivered(c: Config, s: State, o: Pid, b: nat, a: nat)
    requires ValidConfig(c) && Reachable(c, s) && o < |s.procs|
    requires var w := s.procs[o].lcb.log; a < b < |w| && w[b].Broadcasts? && w[a].Delivers? && w[a].pid == o
    ensures s.procs[o].lcb.log[a].n <= s.procs[o].lcb.log[b].n - 1
  {
    var w := s.procs[o].lcb.log;
    LogFacts(c, s, o);
    assert Justified(c.deps, w, a);
    CountReaches(c.deps, w, a, b);
    assert Stamped(c, s, o, w, b) by {
      ReachableInv(c, s);
      assert LogOf(c, s, o, s.procs[o]);
    }
  }

  /** What o had logged from a dependency q before its n-th broadcast is matched by
      every process by the time it has delivered n messages of o, whichever they are. */
  lemma OthersPastIsDelivered(c: Config, s: State, o: Pid, q: Pid, b: nat, p: Pid, k: nat)
    requires ValidConfig(c) && Reachable(c, s) && o < |s.procs| == c.n && p < |s.procs| && q != o
    requires var w := s.procs[o].lcb.log; b < |w| && w[b].Broadcasts? && o < |c.deps| && q in c.deps[o]
    requires var log := s.procs[p].lcb.log;
      k < |log| && log[k].Delivers? && log[k].pid == o && log[k].n == s.procs[o].lcb.log[b].n
    ensures Count(s.procs[o].lcb.log[..b], q) <= Count(s.procs[p].lcb.log[..k], q)
  {
    var e := LateBroadcast(c, s, p, k);
    var log := s.procs[p].lcb.log;
    StampOfLater(c, s, o, q, b, log[e].msg);
    ClockCovered(c.deps, log, e, k, q);
  }

  /** LateEnoughDelivery in a reachable state, where the delivered message is a broadcast. */
  lemma LateBroadcast(c: Config, s: State, p: Pid, k: nat) returns (e: nat)
    requires ValidConfig(c) && Reachable(c, s) && p < |s.procs|
    requires k < |s.procs[p].lcb.log| && s.procs[p].lcb.log[k].Delivers?
    ensures var log := s.procs[p].lcb.log;
      && e <= k && log[e].Delivers? && log[e].pid == log[k].pid && Justified(c.deps, log, e)
      && var id := log[e].msg.Id();
         log[k].n <= id.seqNum && id.origin == log[e].pid && IsBroadcast(s, id) && MessageOf(s, id) == log[e].msg
  {
    var proc := s.procs[p];
    assert Consistent(c.deps, proc.lcb, proc.arrived) && Distinct(proc.arrived) by {
      ReachableInv(c, s);
      assert CausalState(c, proc) && Arrivals(s, proc);
    }
    e := LateEnoughDelivery(c.deps, proc.lcb, proc.arrived, k);
    assert Justified(c.deps, proc.lcb.log, e);
    LoggedNumbersExact(c, s, p, e);
  }

  /** What a delivered clock names was delivered before it, and so before any later line. */
  lemma ClockCovered(deps: Deps, log: seq<Event>, e: nat, k: nat, q: Pid)
    requires e <= k < |log| && log[e].Delivers? && Justified(deps, log, e)
    requires log[e].pid < |deps| && q in deps[log[e].pid]
    ensures At(log[e].msg.clock, q) <= Count(log[..k], q)
  {
    assert log[..k][..e] == log[..e];
    CountPrefix(log[..k], e, q);
  }

  /** What o had logged from itself or a dependency before its n-th broadcast is matched
      in every log by the time it records a delivery from o as number n, even where that
      is not o's n-th message. */
  lemma PastIsDelivered(c: Config, s: State, o: Pid, b: nat, a: nat, p: Pid, k: nat)
    requires ValidConfig(c) && Reachable(c, s) && o < c.n == |s.procs| && p < |s.procs|
    requires var w := s.procs[o].lcb.log;
      a < b < |w| && w[b].Broadcasts? && w[a].Delivers? && (w[a].pid == o || w[a].pid in c.deps[o])
    requires var log := s.procs[p].lcb.log;
      k < |log| && log[k].Delivers? && log[k].pid == o && log[k].n == s.procs[o].lcb.log[b].n
    ensures s.procs[o].lcb.log[a].n <= Count(s.procs[p].lcb.log[..k], s.procs[o].lcb.log[a].pid)
  {
    var q: Pid := s.procs[o].lcb.log[a].pid;
    LogFacts(c, s, o);
    LogFacts(c, s, p);
    if q == o {
      OwnPastIsDelivered(c, s, o, b, a);
      assert Justified(c.deps, s.procs[p].lcb.log, k);
    } else {
      assert Justified(c.deps, s.procs[o].lcb.log, a);
      CountReaches(c.deps, s.procs[o].lcb.log, a, b);
      OthersPastIsDelivered(c, s, o, q, b, p, k);
    }
  }

  /** The same, read off the printed lines. */
  lemma PastIsPrinted(c: Config, s: State, o: Pid, b: nat, a: nat, p: Pid, k: nat)
    requires ValidConfig(c) && Reachable(c, s) && o < c.n == |s.procs| && p < |s.procs|
    requires var w := s.procs[o].lcb.log;
      a < b < |w| && w[b].Broadcasts? && w[a].Delivers? && (w[a].pid == o || w[a].pid in c.deps[o])
    requires var log := s.procs[p].lcb.log;
      k < |log| && log[k].Delivers? && log[k].pid == o && log[k].n == s.procs[o].lcb.log[b].n
    ensures s.procs[o].lcb.log[a].n <= Ds(Printed(s.procs[p].lcb.log)[..k], s.procs[o].lcb.log[a].pid + 1)
  {
    PastIsDelivered(c, s, o, b, a, p, k);
    assert AllJustified(c.deps, s.procs[p].lcb.log) by {
      LogFacts(c, s, p);
    }
    PrintedCounts(c.deps, s.procs[p].lcb.log, k, s.procs[o].lcb.log[a].pid);
  }

  lemma MappedEntry(c: Config, s: State, depend: seq<set<nat>>, o: Pid, b: nat, x: (nat, nat)) returns (a: nat)
    requires ValidConfig(c) && Reachable(c, s) && DependRead(c, depend) && o < c.n == |s.procs|
    requires b < |s.procs[o].lcb.log|
    requires x in Past(depend[o], Printed(s.procs[o].lcb.log)[..b])
    ensures var w := s.procs[o].lcb.log;
      && a < b && w[a].Delivers? && (w[a].pid == o || w[a].pid in c.deps[o])
      && w[a].pid + 1 == x.0 <= c.n && w[a].n == x.1
  {
    var w := s.procs[o].lcb.log;
    PastMember(depend[o], Printed(w)[..b], x);
    a :| 0 <= a < b && Printed(w)[a] == DLine(x.0, x.1);
    assert Printed(w)[a] == Print(w[a]);
  }

  /** A number logged for o is not more than o's broadcasts. */
  lemma LoggedNumberBroadcast(c: Config, s: State, p: Pid, k: nat)
    requires ValidConfig(c) && Reachable(c, s) && p < |s.procs|
    requires k < |s.procs[p].lcb.log| && s.procs[p].lcb.log[k].Delivers?
    ensures var e := s.procs[p].lcb.log[k]; e.pid < c.n && 1 <= e.n <= |From(s.broadcasts, e.pid)|
  {
    ReachableInv(c, s);
    var log := s.procs[p].lcb.log;
    assert CausalState(c, s.procs[p]) && Arrivals(s, s.procs[p]);
    assert Justified(c.deps, log, k);
    CountReaches(c.deps, log, k, |log|);
    assert log[..|log|] == log;
    CountWithinBroadcast(c, s, s.procs[p], log[k].pid);
  }

  lemma WholePastDelivered(c: Config, s: State, depend: seq<set<nat>>, lanes: nat, p: Pid, k: nat, o: Pid, b: nat)
    requires ValidConfig(c) && Reachable(c, s) && DependRead(c, depend) && c.n <= lanes
    requires p < |s.procs| == c.n && o < c.n
    requires b < |s.procs[o].lcb.log| && s.procs[o].lcb.log[b].Broadcasts?
    requires k < |s.procs[p].lcb.log| && s.procs[p].lcb.log[k].Delivers? && s.procs[p].lcb.log[k].pid == o
    requires s.procs[p].lcb.log[k].n == s.procs[o].lcb.log[b].n
    ensures PastDelivered(Past(depend[o], Printed(s.procs[o].lcb.log)[..b]), lanes, Printed(s.procs[p].lcb.log), k)
  {
    forall x: (nat, nat) | x in Past(depend[o], Printed(s.procs[o].lcb.log)[..b])
      ensures 1 <= x.0 <= lanes && x.1 <= Ds(Printed(s.procs[p].lcb.log)[..k], x.0)
    {
      var a := MappedEntry(c, s, depend, o, b, x);
      PastIsPrinted(c, s, o, b, a, p, k);
    }
  }

  /** The past recorded for the number logged at line k was delivered before line k. */
  lemma MappedPastDelivered(c: Config, s: State, depend: seq<set<nat>>, lanes: nat, p: Pid, k: nat)
      returns (past: seq<(nat, nat)>)
    requires ValidConfig(c) && Reachable(c, s) && DependRead(c, depend) && c.n <= lanes && p < |s.procs|
    requires k < |s.procs[p].lcb.log| && s.procs[p].lcb.log[k].Delivers?
    ensures |depend| == |s.procs|
    ensures MapsTo(MapAll(depend, PrintedLogs(s)), s.procs[p].lcb.log[k].pid + 1, s.procs[p].lcb.log[k].n, past)
    ensures PastDelivered(past, lanes, Printed(s.procs[p].lcb.log), k)
  {
    LoggedNumberBroadcast(c, s, p, k);
    var e := s.procs[p].lcb.log[k];
    var b := MappedPast(c, s, depend, e.pid, e.n);
    past := Past(depend[e.pid], Printed(s.procs[e.pid].lcb.log)[..b]);
    WholePastDelivered(c, s, depend, lanes, p, k, e.pid, b);
  }

  ghost predicate MapsTo(mapping: Mapping, sender: nat, n: nat, past: seq<(nat, nat)>) {
    (sender, n) in mapping && mapping[(sender, n)] == past
  }

  /** One delivered line passes the cross-log check. */
  lemma LineAccepted(c: Config, s: State, depend: seq<set<nat>>, lanes: nat, p: Pid, k: nat)
    requires ValidConfig(c) && Reachable(c, s) && DependRead(c, depend) && c.n <= lanes && p < |s.procs|
    requires k < |s.procs[p].lcb.log| && s.procs[p].lcb.log[k].Delivers?
    ensures |depend| == |s.procs|
    ensures CausalLine(MapAll(depend, PrintedLogs(s)), lanes, Printed(s.procs[p].lcb.log), k)
  {
    var past := MappedPastDelivered(c, s, depend, lanes, p, k);
    LineFromPast(c, s, lanes, p, k, MapAll(depend, PrintedLogs(s)), past);
  }

  lemma NumberedLine(c: Config, s: State, p: Pid, k: nat)
    requires ValidConfig(c) && Reachable(c, s) && p < |s.procs|
    requires k < |s.procs[p].lcb.log| && s.procs[p].lcb.log[k].Delivers?
    ensures s.procs[p].lcb.log[k].pid < c.n && NextNumber(Printed(s.procs[p].lcb.log), k)
  {
    LoggedNumberBroadcast(c, s, p, k);
    LogFacts(c, s, p);
    NumberedPrint(c.deps, s.procs[p].lcb.log, k);
  }

  lemma LineFromPast(c: Config, s: State, lanes: nat, p: Pid, k: nat, mapping: Mapping, past: seq<(nat, nat)>)
    requires ValidConfig(c) && Reachable(c, s) && c.n <= lanes && p < |s.procs|
    requires k < |s.procs[p].lcb.log| && s.procs[p].lcb.log[k].Delivers?
    requires MapsTo(mapping, s.procs[p].lcb.log[k].pid + 1, s.procs[p].lcb.log[k].n, past)
    requires PastDelivered(past, lanes, Printed(s.procs[p].lcb.log), k)
    ensures CausalLine(mapping, lanes, Printed(s.procs[p].lcb.log), k)
  {
    NumberedLine(c, s, p, k);
  }

  /** test/testlocal.py accepts the logs of every reachable state, if there are no more
      processes than the script has lanes. No dependency list need name its own process:
      since the logs carry counters, the script also accepts runs that deliver a
      process's messages out of order. */
  lemma LocalCheckAccepts(c: Config, s: State, depend: seq<set<nat>>, lanes: nat)
    requires ValidConfig(c) && Reachable(c, s) && DependRead(c, depend) && c.n <= lanes
    ensures |depend| == |PrintedLogs(s)|
    ensures LogsGood(depend, lanes, PrintedLogs(s))
  {
    ReachableInv(c, s);
    LogsGoodIff(depend, lanes, PrintedLogs(s));
    forall p, k | 0 <= p < |s.procs| && 0 <= k < |PrintedLogs(s)[p]|
      ensures CausalLine(MapAll(depend, PrintedLogs(s)), lanes, PrintedLogs(s)[p], k)
    {
      if s.procs[p].lcb.log[k].Delivers? {
        LineAccepted(c, s, depend, lanes, p, k);
      }
    }
  }
}
