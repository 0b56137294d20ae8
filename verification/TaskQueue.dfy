/** The circular task queue (src/mqueue.c) and the sequence it implements. */
module TaskQueue {
  import opened Messages

  /** i % qsize, for the i that occur. */
  function Wrap(i: nat, qsize: nat): (r: nat)
    requires i < 2 * qsize
    ensures r < qsize
  {
    if i < qsize then i else i - qsize
  }

  lemma WrapIsRemainder(i: nat, qsize: nat)
    requires i < 2 * qsize
    ensures Wrap(i, qsize) == i % qsize
  {
    assert i == qsize * (i / qsize) + i % qsize;
    DivModUnique(qsize, i / qsize, if i < qsize then 0 else 1, i % qsize, Wrap(i, qsize));
  }

  class MsgQueue<T> {
    ghost var Contents: seq<T>
    const filler: T
    var elems: array<T>
    var noElem: nat
    var front: nat
    var back: nat

    /** Element i of the contents sits i places after front, wrapping around, and back is
        where the next one goes. */
    ghost predicate Valid()
      reads this, elems
    {
      && noElem == |Contents| <= elems.Length
      && front < elems.Length
      && back == Wrap(front + noElem, elems.Length)
      && forall i | 0 <= i < noElem :: elems[Wrap(front + i, elems.Length)] == Contents[i]
    }

    /** init_queue. filler stands for the zeroed memory. */
    constructor (size: nat, filler: T)
      requires 0 < size
      ensures Valid() && fresh(elems) && Contents == [] && elems.Length == size
    {
      this.filler := filler;
      elems := new T[size](_ => filler);
      noElem, front, back := 0, 0, 0;
      Contents := [];
    }

    /** realloc_queue: unroll the ring into one of twice the size. */
    method Realloc()
      requires Valid()
      modifies this
      ensures Valid() && fresh(elems) && elems.Length == 2 * old(elems.Length)
      ensures Contents == old(Contents)
    {
      var bigger := new T[2 * elems.Length](_ => filler);
      var index := front;
      for i := 0 to noElem
        invariant Valid() && unchanged(this) && fresh(bigger)
        invariant index == Wrap(front + i, elems.Length)
        invariant forall j | 0 <= j < i :: bigger[j] == Contents[j]
      {
        bigger[i] := elems[index];
        index := Wrap(index + 1, elems.Length);
      }
      elems := bigger;
      front, back := 0, noElem;
    }

    /** enqueue. */
    method Enqueue(elem: T)
      requires Valid()
      modifies this, elems
      ensures Valid() && (elems == old(elems) || fresh(elems))
      ensures Contents == old(Contents) + [elem]
    {
      if noElem == elems.Length {
        Realloc();
      }
      elems[back] := elem;
      noElem := noElem + 1;
      back := Wrap(back + 1, elems.Length);
      Contents := Contents + [elem];
    }

    /** dequeue: an error and no change when the queue is empty. */
    method Dequeue() returns (ok: bool, elem: T)
      requires Valid()
      modifies this
      ensures Valid() && elems == old(elems)
      ensures ok <==> old(Contents) != []
      ensures if ok then elem == old(Contents[0]) && Contents == old(Contents[1..]) else Contents == old(Contents)
    {
      if noElem == 0 {
        return false, filler;
      }
      elem := elems[front];
      noElem := noElem - 1;
      front := Wrap(front + 1, elems.Length);
      Contents := Contents[1..];
      ok := true;
    }
  }

  // ----- The order in which tasks come out -----

  datatype Op<T> = Put(x: T) | Take

  /** What the successful dequeues of a history return, and what is left. */
  function Outputs<T>(queue: seq<T>, ops: seq<Op<T>>): (outs: seq<T>)
    decreases |ops|
  {
    if ops == [] then []
    else if ops[0].Put? then Outputs(queue + [ops[0].x], ops[1..])
    else if queue == [] then Outputs(queue, ops[1..])
    else [queue[0]] + Outputs(queue[1..], ops[1..])
  }

  /** A task with k others ahead of it comes out at exactly the (k+1)-th successful
      dequeue, whatever is enqueued in between. */
  lemma {:induction false} ComesOutInTurn<T>(queue: seq<T>, ops: seq<Op<T>>, k: nat)
    requires k < |queue| && k < |Outputs(queue, ops)|
    ensures Outputs(queue, ops)[k] == queue[k]
    decreases |ops|
  {
    if ops[0].Put? {
      ComesOutInTurn(queue + [ops[0].x], ops[1..], k);
    } else if k > 0 {
      ComesOutInTurn(queue[1..], ops[1..], k - 1);
    }
  }
}
