/** Which messages one call of the causal layer delivers, and in which order, said without
    its loops. */
module DeliveryOrder {
  import opened Messages
  import opened CausalDelivery

  /** No entry of v for a process in dep is ahead of the clock. */
  predicate NotAhead(dep: seq<Pid>, v: Clock, clock: Clock) {
    forall q | q in dep :: At(v, q) <= At(clock, q)
  }

  function Trues(flags: seq<bool>): nat {
    if flags == [] then 0 else (if flags[0] then 1 else 0) + Trues(flags[1..])
  }

  /** The clocks whose flag is as wanted, in order. */
  function Picked(cs: seq<Clock>, flags: seq<bool>, want: bool): seq<Clock>
    requires |cs| == |flags|
  {
    if cs == [] then [] else (if flags[0] == want then [cs[0]] else []) + Picked(cs[1..], flags[1..], want)
  }

  function AsMessages(o: Pid, cs: seq<Clock>): seq<LcbMsg> {
    seq(|cs|, i requires 0 <= i < |cs| => LcbMsg(o, cs[i]))
  }

  /** Flag j is set if and only if clock j of the list was not ahead when its turn came, the
      entry of origin o having grown by one for every flag set before it. */
  ghost predicate DecidedAt(dep: seq<Pid>, list: seq<Clock>, flags: seq<bool>, clock: Clock, o: Pid, j: nat)
    requires o < |clock| && |list| == |flags| && j < |flags|
  {
    flags[j] <==> NotAhead(dep, list[j], clock[o := clock[o] + Trues(flags[..j])])
  }

  ghost predicate Decided(dep: seq<Pid>, list: seq<Clock>, flags: seq<bool>, clock: Clock, o: Pid)
    requires o < |clock| && |list| == |flags|
  {
    forall j | 0 <= j < |flags| :: DecidedAt(dep, list, flags, clock, o, j)
  }

  /** From l to r list o was gone through once, from position k to its end: the clocks picked
      were delivered, in the order of the list, and the others stayed in theirs. */
  ghost predicate Visits(deps: Deps, l: Lcb, r: Lcb, o: Pid, k: nat, flags: seq<bool>)
    requires Shaped(deps, l) && o < |deps| && k <= |l.pending[o]|
  {
    var list := l.pending[o][k..];
    && Shaped(deps, r) && |flags| == |list| && Decided(deps[o], list, flags, l.clock, o)
    && r.pending == l.pending[o := l.pending[o][..k] + Picked(list, flags, false)]
    && r.clock == l.clock[o := l.clock[o] + Trues(flags)]
    && Delivered(r.log) == Delivered(l.log) + AsMessages(o, Picked(list, flags, true))
  }

  lemma TruesFirst(flag: bool, rest: seq<bool>, j: nat)
    requires 1 <= j <= |rest| + 1
    ensures Trues(([flag] + rest)[..j]) == (if flag then 1 else 0) + Trues(rest[..j - 1])
    ensures Trues([flag] + rest) == (if flag then 1 else 0) + Trues(rest)
  {
    assert ([flag] + rest)[..j] == [flag] + rest[..j - 1];
    assert ([flag] + rest)[1..] == rest;
  }

  lemma PickedFirst(v: Clock, cs: seq<Clock>, flag: bool, rest: seq<bool>, want: bool)
    requires |cs| == |rest|
    ensures Picked([v] + cs, [flag] + rest, want)
         == if flag == want then [v] + Picked(cs, rest, want) else Picked(cs, rest, want)
  {
    assert ([v] + cs)[1..] == cs && ([flag] + rest)[1..] == rest;
  }

  lemma DecidedFirst(dep: seq<Pid>, v: Clock, cs: seq<Clock>, flag: bool, rest: seq<bool>, clock: Clock, o: Pid)
    requires o < |clock| && |cs| == |rest| && (flag <==> NotAhead(dep, v, clock))
    requires Decided(dep, cs, rest, clock[o := clock[o] + (if flag then 1 else 0)], o)
    ensures Decided(dep, [v] + cs, [flag] + rest, clock, o)
  {
    var next := clock[o := clock[o] + (if flag then 1 else 0)];
    forall j | 0 <= j < |rest| + 1 ensures DecidedAt(dep, [v] + cs, [flag] + rest, clock, o, j) {
      if j > 0 {
        TruesFirst(flag, rest, j);
        assert DecidedAt(dep, cs, rest, next, o, j - 1);
        assert next[o := next[o] + Trues(rest[..j - 1])] == clock[o := clock[o] + Trues(([flag] + rest)[..j])];
      } else {
        assert clock[o := clock[o] + Trues([])] == clock;
        assert ([flag] + rest)[..0] == [];
      }
    }
  }

  lemma ListSplit(list: seq<Clock>, k: nat)
    requires k < |list|
    ensures list[k..] == [list[k]] + list[k + 1..] && list[..k + 1] == list[..k] + [list[k]]
    ensures RemoveAt(list, k)[k..] == list[k + 1..] && RemoveAt(list, k)[..k] == list[..k]
  {
  }

  /** What delivering one message and then those picked from the rest adds to the log. */
  lemma MessagesFirst(ms: seq<LcbMsg>, o: Pid, v: Clock, picked: seq<Clock>)
    ensures (ms + [LcbMsg(o, v)]) + AsMessages(o, picked) == ms + AsMessages(o, [v] + picked)
  {
  }

  lemma PendingTwice(pending: seq<seq<Clock>>, o: Pid, once: seq<Clock>, twice: seq<Clock>)
    requires o < |pending|
    ensures pending[o := once][o := twice] == pending[o := twice]
  {
  }

  lemma TakeParts(deps: Deps, l: Lcb, o: Pid, k: nat)
    requires Shaped(deps, l) && o < |deps| && k < |l.pending[o]|
    ensures var l1 := Take(l, o, k);
      && Shaped(deps, l1) && l1.pending == l.pending[o := RemoveAt(l.pending[o], k)]
      && l1.clock == l.clock[o := l.clock[o] + 1] && Delivered(l1.log) == Delivered(l.log) + [Waiting(l, o, k)]
  {
    DeliveredAppend(l.log, Take(l, o, k).log[|l.log|]);
  }

  /** The first clock of the rest of the list is delivered. */
  lemma VisitsTaken(deps: Deps, l: Lcb, r: Lcb, o: Pid, k: nat, rest: seq<bool>)
    requires Shaped(deps, l) && o < |deps| && k < |l.pending[o]|
    requires NotAhead(deps[o], l.pending[o][k], l.clock) && Visits(deps, Take(l, o, k), r, o, k, rest)
    ensures Visits(deps, l, r, o, k, [true] + rest)
  {
    TakeParts(deps, l, o, k);
    ListSplit(l.pending[o], k);
    var v, cs := l.pending[o][k], l.pending[o][k + 1..];
    var gone, left := Picked(cs, rest, true), Picked(cs, rest, false);
    assert r.pending == l.pending[o := l.pending[o][..k] + left] by {
      PendingTwice(l.pending, o, RemoveAt(l.pending[o], k), l.pending[o][..k] + left);
    }
    assert Delivered(r.log) == Delivered(l.log) + AsMessages(o, [v] + gone) by {
      MessagesFirst(Delivered(l.log), o, v, gone);
    }
    DecidedFirst(deps[o], v, cs, true, rest, l.clock, o);
    PickedFirst(v, cs, true, rest, false);
    PickedFirst(v, cs, true, rest, true);
    TruesFirst(true, rest, |rest| + 1);
  }

  /** It is not, and stays where it is. */
  lemma VisitsKept(deps: Deps, l: Lcb, r: Lcb, o: Pid, k: nat, rest: seq<bool>)
    requires Shaped(deps, l) && o < |deps| && k < |l.pending[o]|
    requires !NotAhead(deps[o], l.pending[o][k], l.clock) && Visits(deps, l, r, o, k + 1, rest)
    ensures Visits(deps, l, r, o, k, [false] + rest)
  {
    ListSplit(l.pending[o], k);
    var v, cs := l.pending[o][k], l.pending[o][k + 1..];
    var left := Picked(cs, rest, false);
    assert r.pending == l.pending[o := l.pending[o][..k] + ([v] + left)] by {
      Joined(l.pending[o][..k], v, left);
    }
    KeptDecided(deps[o], v, cs, rest, l.clock, o);
    PickedFirst(v, cs, false, rest, false);
    PickedFirst(v, cs, false, rest, true);
    TruesFirst(false, rest, |rest| + 1);
  }

  lemma KeptDecided(dep: seq<Pid>, v: Clock, cs: seq<Clock>, rest: seq<bool>, clock: Clock, o: Pid)
    requires o < |clock| && |cs| == |rest| && !NotAhead(dep, v, clock) && Decided(dep, cs, rest, clock, o)
    ensures Decided(dep, [v] + cs, [false] + rest, clock, o)
  {
    assert clock[o := clock[o]] == clock;
    DecidedFirst(dep, v, cs, false, rest, clock, o);
  }

  lemma Joined(before: seq<Clock>, v: Clock, after: seq<Clock>)
    ensures (before + [v]) + after == before + ([v] + after)
  {
  }

  lemma VisitsNothing(deps: Deps, l: Lcb, o: Pid)
    requires Shaped(deps, l) && o < |deps|
    ensures Visits(deps, l, l, o, |l.pending[o]|, [])
  {
    var k := |l.pending[o]|;
    assert l.pending[o][..k] + [] == l.pending[o];
    assert l.pending[o := l.pending[o]] == l.pending && l.clock[o := l.clock[o]] == l.clock;
    assert Delivered(l.log) + AsMessages(o, []) == Delivered(l.log);
  }

  lemma {:induction false} WalkVisits(deps: Deps, l: Lcb, o: Pid, k: nat) returns (flags: seq<bool>)
    requires Shaped(deps, l) && o < |deps| && k <= |l.pending[o]|
    ensures Visits(deps, l, Walk(deps, l, o, k), o, k, flags)
    decreases |l.pending[o]| - k
  {
    if k == |l.pending[o]| {
      flags := [];
      VisitsNothing(deps, l, o);
    } else if Ready(deps, l.clock, Waiting(l, o, k)) {
      var rest := WalkVisits(deps, Take(l, o, k), o, k);
      flags := [true] + rest;
      VisitsTaken(deps, l, Walk(deps, l, o, k), o, k, rest);
    } else {
      var rest := WalkVisits(deps, l, o, k + 1);
      flags := [false] + rest;
      VisitsKept(deps, l, Walk(deps, l, o, k), o, k, rest);
    }
  }

  ghost predicate OneVisit(deps: Deps, l: Lcb, r: Lcb, o: Pid)
    requires Shaped(deps, l) && o < |deps|
  {
    exists flags :: Visits(deps, l, r, o, 0, flags)
  }

  /** A pass of find_pending goes through the lists in the order of the processes, each once
      and from its head: between holds the states between the lists. */
  ghost predicate VisitsInTurn(deps: Deps, between: seq<Lcb>, o: Pid) {
    && o + |between| == |deps| + 1
    && (forall i | 0 <= i < |between| :: Shaped(deps, between[i]))
    && forall i | 0 <= i < |between| - 1 :: OneVisit(deps, between[i], between[i + 1], o + i)
  }

  lemma {:induction false} PassVisits(deps: Deps, l: Lcb, o: Pid) returns (between: seq<Lcb>)
    requires Shaped(deps, l) && o <= |deps|
    ensures VisitsInTurn(deps, between, o) && between[0] == l && between[|deps| - o] == Pass(deps, l, o)
    decreases |deps| - o
  {
    if o == |deps| {
      between := [l];
    } else {
      var flags := WalkVisits(deps, l, o, 0);
      var l1 := Walk(deps, l, o, 0);
      var rest := PassVisits(deps, l1, o + 1);
      between := [l] + rest;
      forall i | 0 <= i < |between| - 1 ensures OneVisit(deps, between[i], between[i + 1], o + i) {
        if i > 0 {
          assert OneVisit(deps, rest[i - 1], rest[i], o + 1 + (i - 1));
        }
      }
    }
  }

  /** deliver_lcb delivers a message at once, as the next one of its origin, if and only if no
      entry for a dependency is ahead of the clock, whatever the other entries say; if not it
      goes to the end of its origin's pending list and nothing else happens. */
  lemma DeliversAtOnceIff(deps: Deps, l: Lcb, m: LcbMsg)
    requires Shaped(deps, l) && m.origin < |deps|
    ensures var r, n := Deliver(deps, l, m), |l.log|;
      if NotAhead(deps[m.origin], m.clock, l.clock) then
        l.log < r.log && r.log[n] == Delivers(m.origin, l.clock[m.origin] + 1, m)
      else r == Lcb(l.clock, l.pending[m.origin := l.pending[m.origin] + [m.clock]], l.log)
  {
    if NotAhead(deps[m.origin], m.clock, l.clock) {
      DrainOnlyDelivers(deps, Accept(l, m));
    }
  }
}
