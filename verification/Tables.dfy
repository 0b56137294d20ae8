/** The growing tables (uid_table_t, urb_table_t, pending_t): arrays that double until an
    index fits and read as zero beyond their end. */
module Tables {
  import opened Protocol

  class Table<T> {
    const zero: T
    /** Entries per counted message: no_process squared, or no_process. */
    const perMsg: nat
    var entries: array<T>
    var noMsgs: nat

    ghost predicate Valid()
      reads this
    {
      0 < entries.Length == noMsgs * perMsg
    }

    /** The table as a total map. */
    ghost function Get(i: int): T
      reads this, entries
    {
      if 0 <= i < entries.Length then entries[i] else zero
    }

    constructor (zero: T, noMsgs: nat, perMsg: nat)
      requires 0 < noMsgs * perMsg
      ensures Valid() && fresh(entries) && entries.Length == noMsgs * perMsg
      ensures this.zero == zero && this.perMsg == perMsg && forall i: int :: Get(i) == zero
    {
      this.zero := zero;
      this.perMsg := perMsg;
      this.noMsgs := noMsgs;
      entries := new T[noMsgs * perMsg](_ => zero);
    }

    /** table_read_entry. */
    method Read(i: nat) returns (v: T)
      ensures v == Get(i)
    {
      if i >= entries.Length {
        return zero;
      }
      v := entries[i];
    }

    /** realloc and clear: twice the entries, the new ones zero. */
    method Double()
      requires Valid()
      modifies this
      ensures Valid() && fresh(entries) && entries.Length == 2 * old(entries.Length)
      ensures forall i: int :: Get(i) == old(Get(i))
    {
      var bigger := new T[2 * entries.Length](
        i reads this, entries => if 0 <= i < entries.Length then entries[i] else zero);
      entries := bigger;
      noMsgs := 2 * noMsgs;
    }

    /** table_write_entry: refused beyond the cap, otherwise a map update. */
    method Write(i: nat, v: T) returns (ok: bool)
      requires Valid()
      modifies this, entries
      ensures Valid() && (entries == old(entries) || fresh(entries))
      ensures ok <==> i <= 8192
      ensures !ok ==> entries == old(entries) && forall j: int :: Get(j) == old(Get(j))
      ensures ok ==> Get(i) == v && forall j: int | j != i :: Get(j) == old(Get(j))
      ensures ok ==> entries.Length == GrowTo(old(entries.Length), i)
    {
      if i > MAX_SIZE {
        return false;
      }
      while i >= entries.Length
        invariant Valid() && (entries == old(entries) || fresh(entries))
        invariant forall j: int :: Get(j) == old(Get(j))
        invariant GrowTo(entries.Length, i) == GrowTo(old(entries.Length), i)
        decreases i - entries.Length
      {
        Double();
      }
      entries[i] := v;
      ok := true;
    }
  }

  // ----- Growth as the text has it -----

  /** src/plink.c:64 clears as many bytes as there are new entries, a quarter of them;
      the rest holds whatever realloc returned. junk stands for that memory. */
  function GrowText(entries: seq<nat>, i: nat, junk: nat -> nat): (r: seq<nat>)
    requires 0 < |entries|
    ensures i < |r|
    decreases if i < |entries| then 0 else i - |entries| + 1
  {
    if i < |entries| then entries
    else
      var n := |entries|;
      GrowText(entries + seq(n, k => if k < n / 4 then 0 else junk(n + k)), i, junk)
  }

  /** The grown table still reads as zero beyond its old end. */
  ghost predicate ReadsZero(before: seq<nat>, after: seq<nat>) {
    before <= after && forall k | |before| <= k < |after| :: after[k] == 0
  }

  lemma {:induction false} GrowTextPrefix(entries: seq<nat>, i: nat, junk: nat -> nat)
    requires 0 < |entries|
    ensures entries <= GrowText(entries, i, junk)
    decreases if i < |entries| then 0 else i - |entries| + 1
  {
    if i >= |entries| {
      var n := |entries|;
      GrowTextPrefix(entries + seq(n, k => if k < n / 4 then 0 else junk(n + k)), i, junk);
    }
  }

  /** One growth clears the first quarter of the new half and nothing else. */
  lemma TextClearsQuarter(entries: seq<nat>, i: nat, k: nat)
    requires |entries| <= i < 2 * |entries| && |entries| <= k < 2 * |entries|
    ensures forall junk: nat -> nat :: |GrowText(entries, i, junk)| == 2 * |entries|
    ensures (forall junk: nat -> nat :: GrowText(entries, i, junk)[k] == 0) <==> k < |entries| + |entries| / 4
  {
    var n := |entries|;
    forall junk: nat -> nat
      ensures GrowText(entries, i, junk) == entries + seq(n, j => if j < n / 4 then 0 else junk(n + j))
    {
    }
    if n + n / 4 <= k {
      var junk: nat -> nat := j => 1;
      assert GrowText(entries, i, junk)[k] == 1;
    }
  }

  /** As written, a write keeps the table a zero-defaulting map whatever the memory
      holds if and only if it does not grow the table. */
  lemma TextGrowthSoundIff(entries: seq<nat>, i: nat)
    requires 0 < |entries|
    ensures (forall junk: nat -> nat :: ReadsZero(entries, GrowText(entries, i, junk))) <==> i < |entries|
  {
    if i >= |entries| {
      var junk: nat -> nat := k => 1;
      var n := |entries|;
      var once := entries + seq(n, k => if k < n / 4 then 0 else junk(n + k));
      GrowTextPrefix(once, i, junk);
      assert once[n + n - 1] == 1;
      assert GrowText(entries, i, junk)[n + n - 1] == 1;
      assert !ReadsZero(entries, GrowText(entries, i, junk));
    }
  }

  /** src/urb.c:30-34 and src/fifo.c:63-67 ask for as many bytes as there are to be
      entries, each of size bytes. What a write to index i leaves: how many entries the
      table claims to have, and how many bytes it has. */
  function ShortRealloc(entries: nat, bytes: nat, i: nat): (r: (nat, nat))
    requires 0 < entries
    ensures i < r.0
    decreases if i < entries then 0 else i - entries + 1
  {
    if i < entries then (entries, bytes) else ShortRealloc(2 * entries, 2 * entries, i)
  }

  lemma {:induction false} ShortReallocBytes(entries: nat, i: nat)
    requires 0 < entries
    ensures var r := ShortRealloc(entries, entries, i); r.1 == r.0
    decreases if i < entries then 0 else i - entries + 1
  {
    if i >= entries {
      ShortReallocBytes(2 * entries, i);
    }
  }

  /** As written, a table all of whose entries lie in its memory still is one after a
      write if and only if the write does not grow it. */
  lemma ShortReallocSoundIff(entries: nat, size: nat, i: nat)
    requires 0 < entries && 2 <= size
    ensures var r := ShortRealloc(entries, size * entries, i); size * r.0 <= r.1 <==> i < entries
  {
    if i >= entries {
      ShortReallocBytes(2 * entries, i);
      var n := ShortRealloc(2 * entries, 2 * entries, i).0;
      assert size * n >= 2 * n;
    }
  }
}
