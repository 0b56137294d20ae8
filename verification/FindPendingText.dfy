/** find_pending as its text stands (src/pending.c:199-230), turn by turn over the nodes
    in memory. After a delivery it advances to the next node and unlinks that one; after
    a failed test it does not advance. What the rest of the model uses is the evident
    intent (CausalDelivery); here is what the text does instead, and exactly when the two
    agree. */
module FindPendingText {
  import opened Messages
  import opened CausalDelivery
  import opened SequenceNumbers

  type Addr = nat

  datatype Ptr = Null | To(addr: Addr)

  /** vec_node_t and vec_list_t. */
  datatype Node = Node(clock: Clock, next: Ptr, previous: Ptr)
  datatype Header = Header(numElems: int, head: Ptr, tail: Ptr)

  /** What find_pending reads and writes. nodes holds the allocated nodes only: a freed
      node is no longer in it. */
  datatype Memory = Memory(nodes: map<Addr, Node>, lists: seq<Header>, clock: Clock, log: seq<Event>)

  // ----- The text -----

  datatype Removal = Removed(mem: Memory) | NullArgument | BadAccess

  /** remove_veclist on list i. */
  function Remove(mem: Memory, node: Ptr, i: nat): Removal
    requires i < |mem.lists|
  {
    if node.Null? then NullArgument
    else if node.addr !in mem.nodes then BadAccess
    else
      var n, h := mem.nodes[node.addr], mem.lists[i];
      if h.head != node && (n.previous.Null? || n.previous.addr !in mem.nodes) then BadAccess
      else if h.tail != node && (n.next.Null? || n.next.addr !in mem.nodes) then BadAccess
      else
        var nodes1 := if h.head == node then mem.nodes
                      else mem.nodes[n.previous.addr := mem.nodes[n.previous.addr].(next := n.next)];
        var nodes2 := if h.tail == node then nodes1
                      else nodes1[n.next.addr := nodes1[n.next.addr].(previous := n.previous)];
        var h' := Header(h.numElems - 1,
                         if h.head == node then n.next else h.head,
                         if h.tail == node then n.previous else h.tail);
        Removed(mem.(nodes := nodes2 - {node.addr}, lists := mem.lists[i := h']))
  }

  /** Where deliver_lcb's loop over find_pending is: at a node, done, returned with
      ERROR_POINTER, or reading memory that is not allocated. */
  datatype Control = Scanning(list: nat, ptr: Ptr, found: bool) | Finished | PointerError | ReadsFreedNode

  function HeadOf(mem: Memory, i: nat): Ptr {
    if i < |mem.lists| then mem.lists[i].head else Null
  }

  function Start(mem: Memory): Control {
    Scanning(0, HeadOf(mem, 0), false)
  }

  /** update_vec_clock and log_deliver_lcb. */
  function AcceptIn(mem: Memory, m: LcbMsg): Memory
    requires m.origin < |mem.clock|
  {
    var c := mem.clock[m.origin := mem.clock[m.origin] + 1];
    mem.(clock := c, log := mem.log + [Delivers(m.origin, c[m.origin], m)])
  }

  ghost predicate Sized(deps: Deps, mem: Memory) {
    |mem.lists| == |mem.clock| == |deps|
  }

  /** One turn: of the while loop, of the for loop when a list is at its end, or of
      deliver_lcb's loop when the last list is. */
  function Turn(deps: Deps, mem: Memory, at: Control): (r: (Memory, Control))
    requires Sized(deps, mem)
    ensures Sized(deps, r.0)
  {
    match at
    case Scanning(i, ptr, found) =>
      if i >= |mem.lists| then (mem, if found then Start(mem) else Finished)
      else if ptr.Null? then (mem, Scanning(i + 1, HeadOf(mem, i + 1), found))
      else if ptr.addr !in mem.nodes then (mem, ReadsFreedNode)
      else
        var m := LcbMsg(i, mem.nodes[ptr.addr].clock);
        if !Ready(deps, mem.clock, m) then (mem, at)
        else
          var accepted := AcceptIn(mem, m);
          var advanced := mem.nodes[ptr.addr].next;
          (match Remove(accepted, advanced, i)
           case Removed(mem') => (mem', Scanning(i, advanced, true))
           case NullArgument => (accepted, PointerError)
           case BadAccess => (accepted, ReadsFreedNode))
    case _ => (mem, at)
  }

  function Turns(deps: Deps, mem: Memory, at: Control, k: nat): (r: (Memory, Control))
    requires Sized(deps, mem)
    ensures Sized(deps, r.0)
    decreases k
  {
    if k == 0 then (mem, at)
    else
      var (mem', at') := Turn(deps, mem, at);
      Turns(deps, mem', at', k - 1)
  }

  // ----- Memory that holds pending lists -----

  /** Node k of list i, whose addresses are names. */
  ghost predicate NodeAt(mem: Memory, cs: seq<Clock>, names: seq<Addr>, k: nat)
    requires |names| == |cs| && k < |cs|
  {
    && names[k] in mem.nodes
    && mem.nodes[names[k]] == Node(cs[k], if k + 1 < |cs| then To(names[k + 1]) else Null,
                                   if k > 0 then To(names[k - 1]) else Null)
  }

  ghost predicate ListAt(mem: Memory, h: Header, cs: seq<Clock>, names: seq<Addr>) {
    && |names| == |cs| == h.numElems
    && h.head == (if cs == [] then Null else To(names[0]))
    && h.tail == (if cs == [] then Null else To(names[|cs| - 1]))
    && (forall j, k | 0 <= j < k < |cs| :: names[j] != names[k])
    && forall k | 0 <= k < |cs| :: NodeAt(mem, cs, names, k)
  }

  /** Memory holds the state l of the causal layer; names are the nodes' addresses. */
  ghost predicate Holds(mem: Memory, l: Lcb, names: seq<seq<Addr>>) {
    && mem.clock == l.clock && mem.log == l.log
    && |mem.lists| == |l.pending| == |names|
    && (forall i | 0 <= i < |names| :: ListAt(mem, mem.lists[i], l.pending[i], names[i]))
    && forall i, j, a | 0 <= i < j < |names| && a in names[i] :: a !in names[j]
  }

  // ----- Turns compose -----

  lemma {:induction false} TurnsSplit(deps: Deps, mem: Memory, at: Control, j: nat, k: nat)
    requires Sized(deps, mem)
    ensures var r := Turns(deps, mem, at, j); Turns(deps, mem, at, j + k) == Turns(deps, r.0, r.1, k)
    decreases j
  {
    if j > 0 {
      var r := Turn(deps, mem, at);
      TurnsSplit(deps, r.0, r.1, j - 1, k);
    }
  }

  /** A turn that changes nothing is repeated forever. */
  lemma {:induction false} StuckForever(deps: Deps, mem: Memory, at: Control, k: nat)
    requires Sized(deps, mem) && Turn(deps, mem, at) == (mem, at)
    ensures Turns(deps, mem, at, k) == (mem, at)
  {
    if k > 0 {
      StuckForever(deps, mem, at, k - 1);
    }
  }

  /** What is reached and stuck after j turns is all that ever comes of it. */
  lemma OneEnd(deps: Deps, mem: Memory, at: Control, j: nat, k: nat)
    requires Sized(deps, mem)
    requires var r := Turns(deps, mem, at, j); Turn(deps, r.0, r.1) == r
    requires var r := Turns(deps, mem, at, k); Turn(deps, r.0, r.1) == r
    ensures Turns(deps, mem, at, j) == Turns(deps, mem, at, k)
  {
    var r, t := Turns(deps, mem, at, j), Turns(deps, mem, at, k);
    if j <= k {
      TurnsSplit(deps, mem, at, j, k - j);
      StuckForever(deps, r.0, r.1, k - j);
    } else {
      TurnsSplit(deps, mem, at, k, j - k);
      StuckForever(deps, t.0, t.1, j - k);
    }
  }

  /** Empty lists are passed over, one turn each. */
  lemma {:induction false} EmptyLists(deps: Deps, mem: Memory, l: Lcb, names: seq<seq<Addr>>, o: nat)
    requires Sized(deps, mem) && Holds(mem, l, names) && o <= |deps| && forall i | 0 <= i < o :: l.pending[i] == []
    ensures Turns(deps, mem, Start(mem), o) == (mem, Scanning(o, HeadOf(mem, o), false))
  {
    if o > 0 {
      EmptyLists(deps, mem, l, names, o - 1);
      TurnsSplit(deps, mem, Start(mem), o - 1, 1);
      assert ListAt(mem, mem.lists[o - 1], l.pending[o - 1], names[o - 1]);
      var at := Scanning(o - 1, HeadOf(mem, o - 1), false);
      assert Turn(deps, mem, at) == (mem, Scanning(o, HeadOf(mem, o), false));
      assert Turns(deps, mem, at, 1) == Turn(deps, mem, at);
    }
  }

  // ----- The three ways it goes wrong -----

  /** List o is the first one that is not empty. */
  ghost predicate FirstPending(l: Lcb, o: nat) {
    o < |l.pending| && l.pending[o] != [] && forall i | 0 <= i < o :: l.pending[i] == []
  }

  /** The head is blocked: every later turn tests the same node again. */
  lemma BlockedHeadLoops(deps: Deps, mem: Memory, l: Lcb, names: seq<seq<Addr>>, o: nat, k: nat)
    requires Sized(deps, mem) && Holds(mem, l, names) && FirstPending(l, o)
    requires !Ready(deps, l.clock, Waiting(l, o, 0))
    ensures Turns(deps, mem, Start(mem), o + k) == (mem, Scanning(o, To(names[o][0]), false))
  {
    EmptyLists(deps, mem, l, names, o);
    assert ListAt(mem, mem.lists[o], l.pending[o], names[o]) && NodeAt(mem, l.pending[o], names[o], 0);
    TurnsSplit(deps, mem, Start(mem), o, k);
    StuckForever(deps, mem, Scanning(o, To(names[o][0]), false), k);
  }

  /** The head is ready and alone: it is delivered, and the node to unlink is null. */
  lemma ReadySingletonFails(deps: Deps, mem: Memory, l: Lcb, names: seq<seq<Addr>>, o: nat)
    requires Sized(deps, mem) && Holds(mem, l, names) && FirstPending(l, o) && |l.pending[o]| == 1
    requires Ready(deps, l.clock, Waiting(l, o, 0))
    ensures Turns(deps, mem, Start(mem), o + 1) == (AcceptIn(mem, Waiting(l, o, 0)), PointerError)
  {
    EmptyLists(deps, mem, l, names, o);
    assert ListAt(mem, mem.lists[o], l.pending[o], names[o]) && NodeAt(mem, l.pending[o], names[o], 0);
    TurnsSplit(deps, mem, Start(mem), o, 1);
    var at := Scanning(o, To(names[o][0]), false);
    assert Turn(deps, mem, at) == (AcceptIn(mem, Waiting(l, o, 0)), PointerError);
    assert Turns(deps, mem, at, 1) == Turn(deps, mem, at);
  }

  /** The head is ready and has a successor: it is delivered but stays in the list, its
      undelivered successor is unlinked and freed, and the next turn reads that node. */
  lemma ReadyHeadReadsFreed(deps: Deps, mem: Memory, l: Lcb, names: seq<seq<Addr>>, o: nat)
    requires Sized(deps, mem) && Holds(mem, l, names) && FirstPending(l, o) && |l.pending[o]| >= 2
    requires Ready(deps, l.clock, Waiting(l, o, 0))
    ensures var r := Turns(deps, mem, Start(mem), o + 2);
      && r.1 == ReadsFreedNode
      && r.0.log == AcceptIn(mem, Waiting(l, o, 0)).log && r.0.clock == AcceptIn(mem, Waiting(l, o, 0)).clock
      && names[o][0] in r.0.nodes && names[o][1] !in r.0.nodes
      && r.0.lists[o].head == To(names[o][0])
  {
    EmptyLists(deps, mem, l, names, o);
    var cs, ns := l.pending[o], names[o];
    assert ListAt(mem, mem.lists[o], cs, ns) && NodeAt(mem, cs, ns, 0) && NodeAt(mem, cs, ns, 1);
    if |cs| > 2 {
      assert NodeAt(mem, cs, ns, 2);
    }
    TurnsSplit(deps, mem, Start(mem), o, 2);
    var at := Scanning(o, To(ns[0]), false);
    var r := Turn(deps, mem, at);
    assert r.1 == Scanning(o, To(ns[1]), true);
    assert Turns(deps, r.0, r.1, 1) == Turn(deps, r.0, r.1);
    assert Turns(deps, mem, at, 2) == Turns(deps, r.0, r.1, 1);
  }

  // ----- When it agrees with the intent -----

  ghost predicate NothingPending(l: Lcb) {
    forall o | 0 <= o < |l.pending| :: l.pending[o] == []
  }

  /** deliver_lcb's loop over find_pending comes to an end, with memory mem'. */
  ghost predicate Returns(deps: Deps, mem: Memory, mem': Memory)
    requires Sized(deps, mem)
  {
    exists k: nat :: Turns(deps, mem, Start(mem), k) == (mem', Finished)
  }

  lemma {:induction false} FirstNonempty(l: Lcb, o: nat) returns (i: nat)
    requires o <= |l.pending| && (forall j | 0 <= j < o :: l.pending[j] == []) && !NothingPending(l)
    ensures FirstPending(l, i)
    decreases |l.pending| - o
  {
    if o < |l.pending| && l.pending[o] == [] {
      i := FirstNonempty(l, o + 1);
    } else {
      i := o;
    }
  }

  /** As written it returns if and only if all lists are empty, and then changed nothing. */
  lemma TextReturnsIff(deps: Deps, mem: Memory, l: Lcb, names: seq<seq<Addr>>)
    requires Sized(deps, mem) && Holds(mem, l, names)
    ensures (exists mem' :: Returns(deps, mem, mem')) <==> NothingPending(l)
    ensures forall mem' | Returns(deps, mem, mem') :: mem' == mem
  {
    if NothingPending(l) {
      EmptyReturns(deps, mem, l, names);
    } else {
      var o := FirstNonempty(l, 0);
      var j := WhereItEnds(deps, mem, l, names, o);
      forall mem' ensures !Returns(deps, mem, mem') {
        if Returns(deps, mem, mem') {
          var k: nat :| Turns(deps, mem, Start(mem), k) == (mem', Finished);
          OneEnd(deps, mem, Start(mem), j, k);
          assert false;
        }
      }
    }
  }

  lemma EmptyReturns(deps: Deps, mem: Memory, l: Lcb, names: seq<seq<Addr>>)
    requires Sized(deps, mem) && Holds(mem, l, names) && NothingPending(l)
    ensures Returns(deps, mem, mem) && forall mem' | Returns(deps, mem, mem') :: mem' == mem
  {
    var n := |deps|;
    EmptyLists(deps, mem, l, names, n);
    TurnsSplit(deps, mem, Start(mem), n, 1);
    var at := Scanning(n, Null, false);
    assert Turns(deps, mem, at, 1) == Turn(deps, mem, at) == (mem, Finished);
    assert Turns(deps, mem, Start(mem), n + 1) == (mem, Finished);
    forall mem' | Returns(deps, mem, mem') ensures mem' == mem {
      var k: nat :| Turns(deps, mem, Start(mem), k) == (mem', Finished);
      OneEnd(deps, mem, Start(mem), n + 1, k);
    }
  }

  /** With anything pending the turns come to a standstill that is not a return. */
  lemma WhereItEnds(deps: Deps, mem: Memory, l: Lcb, names: seq<seq<Addr>>, o: nat) returns (j: nat)
    requires Sized(deps, mem) && Holds(mem, l, names) && FirstPending(l, o)
    ensures var r := Turns(deps, mem, Start(mem), j);
      && Turn(deps, r.0, r.1) == r && !r.1.Finished?
      && r.0.log == (if Ready(deps, l.clock, Waiting(l, o, 0)) then Accept(l, Waiting(l, o, 0)).log else l.log)
  {
    if !Ready(deps, l.clock, Waiting(l, o, 0)) {
      j := o;
      BlockedHeadLoops(deps, mem, l, names, o, 0);
      assert ListAt(mem, mem.lists[o], l.pending[o], names[o]) && NodeAt(mem, l.pending[o], names[o], 0);
    } else if |l.pending[o]| == 1 {
      j := o + 1;
      ReadySingletonFails(deps, mem, l, names, o);
    } else {
      j := o + 2;
      ReadyHeadReadsFreed(deps, mem, l, names, o);
    }
  }

  /** add_veclist with the node malloc returned at address a. */
  function AddIn(mem: Memory, i: nat, a: Addr, clock: Clock): Memory
    requires i < |mem.lists|
  {
    var h := mem.lists[i];
    var node := Node(clock, Null, if h.numElems == 0 then Null else h.tail);
    var linked := if h.numElems == 0 || h.tail.Null? || h.tail.addr !in mem.nodes then mem.nodes
                  else mem.nodes[h.tail.addr := mem.nodes[h.tail.addr].(next := To(a))];
    var h' := Header(h.numElems + 1, if h.numElems == 0 then To(a) else h.head, To(a));
    mem.(nodes := linked[a := node], lists := mem.lists[i := h'])
  }

  /** deliver_lcb with find_pending as written returns, leaving mem'. */
  ghost predicate DeliverReturns(deps: Deps, mem: Memory, m: LcbMsg, a: Addr, mem': Memory)
    requires Sized(deps, mem) && m.origin < |deps|
  {
    if Ready(deps, mem.clock, m) then Returns(deps, AcceptIn(mem, m), mem')
    else mem' == AddIn(mem, m.origin, a, m.clock)
  }

  lemma AddKeepsOthers(mem: Memory, l: Lcb, names: seq<seq<Addr>>, m: LcbMsg, a: Addr, i: nat)
    requires Holds(mem, l, names) && m.origin < |names| && a !in mem.nodes && i < |names| && i != m.origin
    ensures ListAt(AddIn(mem, m.origin, a, m.clock), mem.lists[i], l.pending[i], names[i])
  {
    var mem', o := AddIn(mem, m.origin, a, m.clock), m.origin;
    assert ListAt(mem, mem.lists[i], l.pending[i], names[i]) && ListAt(mem, mem.lists[o], l.pending[o], names[o]);
    forall k | 0 <= k < |l.pending[i]| ensures NodeAt(mem', l.pending[i], names[i], k) {
      assert NodeAt(mem, l.pending[i], names[i], k);
      assert names[i][k] in names[i];
      if l.pending[o] != [] {
        assert names[o][|l.pending[o]| - 1] in names[o];
      }
    }
  }

  lemma AddExtends(mem: Memory, l: Lcb, names: seq<seq<Addr>>, m: LcbMsg, a: Addr)
    requires Holds(mem, l, names) && m.origin < |names| && a !in mem.nodes
    ensures var mem', o := AddIn(mem, m.origin, a, m.clock), m.origin;
      ListAt(mem', mem'.lists[o], l.pending[o] + [m.clock], names[o] + [a])
  {
    var mem', o := AddIn(mem, m.origin, a, m.clock), m.origin;
    var cs, ns := l.pending[o], names[o];
    assert ListAt(mem, mem.lists[o], cs, ns);
    forall k | 0 <= k < |cs| ensures NodeAt(mem, cs, ns, k) && ns[k] != a {
    }
    forall k | 0 <= k < |cs| + 1 ensures NodeAt(mem', cs + [m.clock], ns + [a], k) {
      if k < |cs| {
        assert NodeAt(mem, cs, ns, k);
      }
    }
  }

  /** A blocked message is added to its list as intended. */
  lemma AddHolds(mem: Memory, l: Lcb, names: seq<seq<Addr>>, m: LcbMsg, a: Addr)
    requires Holds(mem, l, names) && m.origin < |names| && a !in mem.nodes
    ensures Holds(AddIn(mem, m.origin, a, m.clock), AddPending(l, m), names[m.origin := names[m.origin] + [a]])
  {
    var mem', o := AddIn(mem, m.origin, a, m.clock), m.origin;
    var l', names' := AddPending(l, m), names[o := names[o] + [a]];
    AddExtends(mem, l, names, m, a);
    forall i | 0 <= i < |names| ensures ListAt(mem', mem'.lists[i], l'.pending[i], names'[i]) && a !in names[i] {
      assert ListAt(mem, mem.lists[i], l.pending[i], names[i]);
      forall k | 0 <= k < |names[i]| ensures names[i][k] != a {
        assert NodeAt(mem, l.pending[i], names[i], k);
      }
      if i != o {
        AddKeepsOthers(mem, l, names, m, a, i);
      }
    }
  }

  lemma AcceptHolds(mem: Memory, l: Lcb, names: seq<seq<Addr>>, m: LcbMsg)
    requires Holds(mem, l, names) && m.origin < |l.clock|
    ensures Holds(AcceptIn(mem, m), Accept(l, m), names)
  {
    forall i | 0 <= i < |names| ensures ListAt(AcceptIn(mem, m), mem.lists[i], l.pending[i], names[i]) {
      assert ListAt(mem, mem.lists[i], l.pending[i], names[i]);
      forall k | 0 <= k < |names[i]| ensures NodeAt(AcceptIn(mem, m), l.pending[i], names[i], k) {
        assert NodeAt(mem, l.pending[i], names[i], k);
      }
    }
  }

  /** deliver_lcb with find_pending as written returns if and only if it has nothing to
      take out (the arrival is blocked) or nothing is pending; and what it then leaves in
      memory is what was intended. */
  lemma TextMatchesIntentIff(deps: Deps, mem: Memory, l: Lcb, names: seq<seq<Addr>>, m: LcbMsg, a: Addr)
    requires Sized(deps, mem) && Holds(mem, l, names) && Shaped(deps, l) && m.origin < |deps| && a !in mem.nodes
    ensures (exists mem' :: DeliverReturns(deps, mem, m, a, mem')) <==> !Ready(deps, l.clock, m) || NothingPending(l)
    ensures forall mem' | DeliverReturns(deps, mem, m, a, mem') ::
      exists names' :: Holds(mem', CausalDelivery.Deliver(deps, l, m), names')
  {
    if Ready(deps, l.clock, m) {
      AcceptHolds(mem, l, names, m);
      var mem1, l1 := AcceptIn(mem, m), Accept(l, m);
      TextReturnsIff(deps, mem1, l1, names);
      assert NothingPending(l1) <==> NothingPending(l);
      assert forall mem' :: DeliverReturns(deps, mem, m, a, mem') <==> Returns(deps, mem1, mem');
      if NothingPending(l) {
        var mem' :| Returns(deps, mem1, mem');
        assert DeliverReturns(deps, mem, m, a, mem');
        EmptyPass(deps, l1, 0);
        assert Holds(mem1, CausalDelivery.Deliver(deps, l, m), names);
      }
    } else {
      AddHolds(mem, l, names, m, a);
      var mem2 := AddIn(mem, m.origin, a, m.clock);
      assert DeliverReturns(deps, mem, m, a, mem2);
      assert Holds(mem2, CausalDelivery.Deliver(deps, l, m), names[m.origin := names[m.origin] + [a]]);
    }
  }

  /** Two messages of one process arriving in the wrong order: the intent delivers both,
      the text delivers both but then returns an error. */
  lemma SwappedArrivalsFail() returns (mem: Memory, names: seq<seq<Addr>>)
    ensures var deps, first, second := [[0], [1]], LcbMsg(0, [0, 0]), LcbMsg(0, [1, 0]);
      var l := CausalDelivery.Deliver(deps, Init(2), second);
      && Sized(deps, mem) && Holds(mem, l, names) && Ready(deps, mem.clock, first)
      && Turns(deps, AcceptIn(mem, first), Start(AcceptIn(mem, first)), 1).1 == PointerError
      && CausalDelivery.Deliver(deps, l, first).log == [Delivers(0, 1, first), Delivers(0, 2, second)]
  {
    var deps: Deps := [[0], [1]];
    var a, b := LcbMsg(0, [0, 0]), LcbMsg(0, [1, 0]);
    var l := SwappedIntent();
    names := [[7], []];
    mem := Memory(map[7 := Node(b.clock, Null, Null)], [Header(1, To(7), To(7)), Header(0, Null, Null)], [0, 0], []);
    assert NodeAt(mem, [b.clock], [7], 0);
    assert Holds(mem, l, names);
    AcceptHolds(mem, l, names, a);
    assert FirstPending(Accept(l, a), 0) && Ready(deps, Accept(l, a).clock, Waiting(Accept(l, a), 0, 0));
    ReadySingletonFails(deps, AcceptIn(mem, a), Accept(l, a), names, 0);
  }

  lemma SwappedIntent() returns (l: Lcb)
    ensures var deps, first, second := [[0], [1]], LcbMsg(0, [0, 0]), LcbMsg(0, [1, 0]);
      && l == CausalDelivery.Deliver(deps, Init(2), second)
      && l.clock == [0, 0] && l.log == [] && l.pending == [[second.clock], []]
      && CausalDelivery.Deliver(deps, l, first).log == [Delivers(0, 1, first), Delivers(0, 2, second)]
  {
    var deps: Deps := [[0], [1]];
    var a, b := LcbMsg(0, [0, 0]), LcbMsg(0, [1, 0]);
    var l0 := Init(2);
    assert l0.clock == [0, 0] && l0.pending == [[], []];
    assert 0 in deps[0];
    assert At(b.clock, 0) > At(l0.clock, 0);
    l := CausalDelivery.Deliver(deps, l0, b);
    assert l == AddPending(l0, b);
    assert l.pending[0] == [[1, 0]] && l.pending[1] == [];
    var x := Accept(l, a);
    assert x.clock == [1, 0] && Waiting(x, 0, 0) == b;
    assert Ready(deps, x.clock, b);
    var t := Take(x, 0, 0);
    assert t.pending == [[], []] && t.clock == [2, 0];
    assert Walk(deps, x, 0, 0) == t;
    EmptyPass(deps, t, 1);
    assert Pass(deps, x, 0) == t;
    EmptyPass(deps, t, 0);
    assert Drain(deps, t) == t;
  }

  // ----- What it has logged by then -----

  lemma {:induction false} TurnsExtend(deps: Deps, mem: Memory, at: Control, k: nat)
    requires Sized(deps, mem)
    ensures mem.log <= Turns(deps, mem, at, k).0.log
    decreases k
  {
    if k > 0 {
      var r := Turn(deps, mem, at);
      TurnsExtend(deps, r.0, r.1, k - 1);
    }
  }

  lemma {:induction false} PassSkipsEmpty(deps: Deps, l: Lcb, o: nat, i: nat)
    requires Shaped(deps, l) && i <= o <= |deps| && forall j | 0 <= j < o :: l.pending[j] == []
    ensures Pass(deps, l, i) == Pass(deps, l, o)
    decreases o - i
  {
    if i < o {
      PassSkipsEmpty(deps, l, o, i + 1);
    }
  }

  /** The intended drain delivers a ready head of the first list first. */
  lemma DrainTakesHead(deps: Deps, l: Lcb, o: nat)
    requires Shaped(deps, l) && FirstPending(l, o) && Ready(deps, l.clock, Waiting(l, o, 0))
    ensures Accept(l, Waiting(l, o, 0)).log <= Drain(deps, l).log
  {
    PassSkipsEmpty(deps, l, o, 0);
    WalkShrinks(deps, Take(l, o, 0), o, 0);
    PassShrinks(deps, Walk(deps, l, o, 0), o + 1);
    PassShrinks(deps, l, 0);
    DrainOnlyDelivers(deps, Pass(deps, l, 0));
  }

  /** The lines logged when the turns come to a standstill. */
  lemma LoggedAtEnd(deps: Deps, mem: Memory, l: Lcb, names: seq<seq<Addr>>) returns (j: nat)
    requires Sized(deps, mem) && Holds(mem, l, names) && Shaped(deps, l)
    ensures var r := Turns(deps, mem, Start(mem), j); Turn(deps, r.0, r.1) == r && r.0.log <= Drain(deps, l).log
  {
    DrainOnlyDelivers(deps, l);
    if NothingPending(l) {
      j := |deps| + 1;
      EmptyLists(deps, mem, l, names, |deps|);
      TurnsSplit(deps, mem, Start(mem), |deps|, 1);
      var at := Scanning(|deps|, Null, false);
      assert Turns(deps, mem, at, 1) == Turn(deps, mem, at);
    } else {
      var o := FirstNonempty(l, 0);
      j := WhereItEnds(deps, mem, l, names, o);
      if Ready(deps, l.clock, Waiting(l, o, 0)) {
        DrainTakesHead(deps, l, o);
      }
    }
  }

  /** The log before a standstill is a prefix of the log at it, and does not change after. */
  lemma LoggedByThen(deps: Deps, mem: Memory, at: Control, j: nat, k: nat)
    requires Sized(deps, mem)
    requires var r := Turns(deps, mem, at, j); Turn(deps, r.0, r.1) == r
    ensures Turns(deps, mem, at, k).0.log <= Turns(deps, mem, at, j).0.log
  {
    if j <= k {
      var r := Turns(deps, mem, at, j);
      TurnsSplit(deps, mem, at, j, k - j);
      StuckForever(deps, r.0, r.1, k - j);
    } else {
      LogGrows(deps, mem, at, k, j);
    }
  }

  lemma LogGrows(deps: Deps, mem: Memory, at: Control, j: nat, k: nat)
    requires Sized(deps, mem) && j <= k
    ensures Turns(deps, mem, at, j).0.log <= Turns(deps, mem, at, k).0.log
  {
    var r := Turns(deps, mem, at, j);
    TurnsSplit(deps, mem, at, j, k - j);
    TurnsExtend(deps, r.0, r.1, k - j);
  }

  /** Whatever becomes of it, the lines the text has logged at any turn are lines the
      intent would log, in the same order: it stops short but logs nothing wrong. */
  lemma TextLogsPrefix(deps: Deps, mem: Memory, l: Lcb, names: seq<seq<Addr>>, k: nat)
    requires Sized(deps, mem) && Holds(mem, l, names) && Shaped(deps, l)
    ensures l.log <= Turns(deps, mem, Start(mem), k).0.log <= Drain(deps, l).log
  {
    TurnsExtend(deps, mem, Start(mem), k);
    var j := LoggedAtEnd(deps, mem, l, names);
    LoggedByThen(deps, mem, Start(mem), j, k);
  }

  /** The same for deliver_lcb on a message that is not blocked. */
  lemma DeliverLogsPrefix(deps: Deps, mem: Memory, l: Lcb, names: seq<seq<Addr>>, m: LcbMsg, k: nat)
    requires Sized(deps, mem) && Holds(mem, l, names) && Shaped(deps, l)
    requires m.origin < |deps| && Ready(deps, l.clock, m)
    ensures var log := Turns(deps, AcceptIn(mem, m), Start(AcceptIn(mem, m)), k).0.log;
      l.log < log <= CausalDelivery.Deliver(deps, l, m).log
  {
    AcceptHolds(mem, l, names, m);
    TextLogsPrefix(deps, AcceptIn(mem, m), Accept(l, m), names, k);
  }

  // ----- What it leaves of the causal layer -----

  /** The causal layer after the text has handled message m, o being the first list that
      is not empty: only m is delivered if the head of that list is blocked, m and the
      head if not. */
  function TextLcb(deps: Deps, l: Lcb, m: LcbMsg, o: nat): (r: Lcb)
    requires Shaped(deps, l) && m.origin < |deps| && o < |deps| && l.pending[o] != []
    ensures Shaped(deps, r)
  {
    var x := Accept(l, m);
    if Ready(deps, x.clock, Waiting(x, o, 0)) then Take(x, o, 0) else x
  }

  /** At every turn the clock and the log, which is what other threads and readers see,
      are those after m alone or those of TextLcb. */
  lemma TextLeaves(deps: Deps, mem: Memory, l: Lcb, names: seq<seq<Addr>>, m: LcbMsg, o: nat, k: nat)
    requires Sized(deps, mem) && Holds(mem, l, names) && Shaped(deps, l)
    requires m.origin < |deps| && Ready(deps, l.clock, m) && FirstPending(Accept(l, m), o)
    ensures var mem1 := AcceptIn(mem, m); var t, x, r := Turns(deps, mem1, Start(mem1), k).0, Accept(l, m), TextLcb(deps, l, m, o);
      (t.clock == x.clock && t.log == x.log) || (t.clock == r.clock && t.log == r.log)
  {
    var mem1, x := AcceptIn(mem, m), Accept(l, m);
    AcceptHolds(mem, l, names, m);
    if k <= o {
      EmptyLists(deps, mem1, x, names, k);
    } else if !Ready(deps, x.clock, Waiting(x, o, 0)) {
      BlockedHeadLoops(deps, mem1, x, names, o, k - o);
    } else {
      AfterReadyHead(deps, mem1, x, names, o, k);
    }
  }

  lemma AfterReadyHead(deps: Deps, mem: Memory, l: Lcb, names: seq<seq<Addr>>, o: nat, k: nat)
    requires Sized(deps, mem) && Holds(mem, l, names) && Shaped(deps, l) && FirstPending(l, o) && o < k
    requires Ready(deps, l.clock, Waiting(l, o, 0))
    ensures var t := Turns(deps, mem, Start(mem), k).0;
      t.clock == Take(l, o, 0).clock && t.log == Take(l, o, 0).log
  {
    FirstReadyTurn(deps, mem, l, names, o);
    if |l.pending[o]| == 1 {
      ReadySingletonFails(deps, mem, l, names, o);
      StaysAfter(deps, mem, Start(mem), o + 1, k);
    } else if k > o + 1 {
      ReadyHeadReadsFreed(deps, mem, l, names, o);
      StaysAfter(deps, mem, Start(mem), o + 2, k);
    }
  }

  /** The turn that delivers the head. */
  lemma FirstReadyTurn(deps: Deps, mem: Memory, l: Lcb, names: seq<seq<Addr>>, o: nat)
    requires Sized(deps, mem) && Holds(mem, l, names) && FirstPending(l, o) && Ready(deps, l.clock, Waiting(l, o, 0))
    ensures var t := Turns(deps, mem, Start(mem), o + 1).0;
      t.clock == AcceptIn(mem, Waiting(l, o, 0)).clock && t.log == AcceptIn(mem, Waiting(l, o, 0)).log
  {
    EmptyLists(deps, mem, l, names, o);
    assert ListAt(mem, mem.lists[o], l.pending[o], names[o]) && NodeAt(mem, l.pending[o], names[o], 0);
    TurnsSplit(deps, mem, Start(mem), o, 1);
    var at := Scanning(o, To(names[o][0]), false);
    assert Turns(deps, mem, at, 1) == Turn(deps, mem, at);
  }

  lemma StaysAfter(deps: Deps, mem: Memory, at: Control, j: nat, k: nat)
    requires Sized(deps, mem) && j <= k
    requires var r := Turns(deps, mem, at, j); Turn(deps, r.0, r.1) == r
    ensures Turns(deps, mem, at, k) == Turns(deps, mem, at, j)
  {
    var r := Turns(deps, mem, at, j);
    TurnsSplit(deps, mem, at, j, k - j);
    StuckForever(deps, r.0, r.1, k - j);
  }
}
