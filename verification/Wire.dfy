/** Messages as they travel (src/layerzero.c): a header of seven unsigned ints and the
    vector clock, each int four bytes, low byte first. */
module Wire {
  import opened Messages

  type Byte = b: nat | b < 256

  const WORD := 0x1_0000_0000
  const NUM_STATIC := 7
  const ACK := 1

  /** urb_msg_t with its lcb_msg_t; the fifo_msg_t is not sent. */
  datatype UrbPart = UrbPart(mid: nat, seenId: nat, origin: Pid, vector: Clock)

  /** msg_t. */
  datatype Packet = Packet(mid: nat, ackid: nat, sender: Pid, mtype: nat, urb: UrbPart)

  ghost predicate IsWord(w: nat) {
    w < WORD
  }

  /** Every field fits an unsigned int, and the clock has an entry for every process. */
  ghost predicate Sendable(m: Packet, numProc: nat) {
    && IsWord(m.mid) && IsWord(m.ackid) && IsWord(m.sender) && IsWord(m.mtype)
    && (m.mtype != ACK ==>
         && IsWord(m.urb.mid) && IsWord(m.urb.seenId) && IsWord(m.urb.origin)
         && |m.urb.vector| == numProc && forall i | 0 <= i < numProc :: IsWord(m.urb.vector[i]))
  }

  function NumFields(numProc: nat): nat {
    NUM_STATIC + numProc
  }

  function MessageSize(numProc: nat): nat {
    4 * NUM_STATIC + 4 * numProc
  }

  // ----- Words and bytes -----

  /** Byte k of a word, the low byte first. */
  function ByteOf(w: nat, k: nat): Byte
    requires k < 4
  {
    if k == 0 then w % 256
    else if k == 1 then w / 0x100 % 256
    else if k == 2 then w / 0x1_0000 % 256
    else w / 0x100_0000 % 256
  }

  function WordAt(bytes: seq<Byte>, i: nat): (w: nat)
    requires 4 * i + 4 <= |bytes|
    ensures IsWord(w)
  {
    var a: nat, b: nat, c: nat, d: nat := bytes[4 * i], bytes[4 * i + 1], bytes[4 * i + 2], bytes[4 * i + 3];
    a + 0x100 * b + 0x1_0000 * c + 0x100_0000 * d
  }

  /** The memory image of an array of words. */
  ghost predicate Image(bytes: seq<Byte>, words: seq<nat>) {
    |bytes| == 4 * |words| && forall i | 0 <= i < |words| :: ImageAt(bytes, words, i)
  }

  ghost predicate ImageAt(bytes: seq<Byte>, words: seq<nat>, i: nat)
    requires |bytes| == 4 * |words| && i < |words|
  {
    && bytes[4 * i] == ByteOf(words[i], 0) && bytes[4 * i + 1] == ByteOf(words[i], 1)
    && bytes[4 * i + 2] == ByteOf(words[i], 2) && bytes[4 * i + 3] == ByteOf(words[i], 3)
  }

  lemma WordOfBytes(w: nat)
    requires IsWord(w)
    ensures ByteOf(w, 0) as int + 0x100 * (ByteOf(w, 1) as int) + 0x1_0000 * (ByteOf(w, 2) as int)
      + 0x100_0000 * (ByteOf(w, 3) as int) == w
  {
    var b, c, d := w / 0x100, w / 0x1_0000, w / 0x100_0000;
    assert w == 256 * b + w % 256;
    assert b == 256 * c + b % 256;
    assert c == 256 * d + c % 256;
    assert d < 256;
  }

  lemma BytesOfWord(a: nat, b: nat, c: nat, d: nat)
    requires a < 256 && b < 256 && c < 256 && d < 256
    ensures var w := a + 0x100 * b + 0x1_0000 * c + 0x100_0000 * d;
      ByteOf(w, 0) == a && ByteOf(w, 1) == b && ByteOf(w, 2) == c && ByteOf(w, 3) == d
  {
    var w := a + 0x100 * b + 0x1_0000 * c + 0x100_0000 * d;
    assert w / 0x100 == b + 0x100 * c + 0x1_0000 * d;
    assert w / 0x1_0000 == c + 0x100 * d;
    assert w / 0x100_0000 == d;
  }

  /** Reading back the image of words gives the words. */
  lemma ReadImage(bytes: seq<Byte>, words: seq<nat>, i: nat)
    requires Image(bytes, words) && i < |words| && IsWord(words[i])
    ensures WordAt(bytes, i) == words[i]
  {
    assert ImageAt(bytes, words, i);
    WordOfBytes(words[i]);
  }

  /** Word i of a buffer is w, the low byte first. */
  ghost predicate Stands(bytes: seq<Byte>, i: nat, w: nat) {
    && 4 * i + 4 <= |bytes|
    && w == bytes[4 * i] as int + 256 * (bytes[4 * i + 1] as int + 256 * (bytes[4 * i + 2] as int + 256 * (bytes[4 * i + 3] as int)))
  }

  /** Where each field of m stands in its buffer. */
  ghost predicate HeaderStands(bytes: seq<Byte>, m: Packet) {
    Stands(bytes, 0, m.mid) && Stands(bytes, 1, m.ackid) && Stands(bytes, 2, m.sender) && Stands(bytes, 3, m.mtype)
  }

  ghost predicate UrbStands(bytes: seq<Byte>, u: UrbPart) {
    && Stands(bytes, 4, u.mid) && Stands(bytes, 5, u.seenId) && Stands(bytes, 6, u.origin)
    && forall i | 0 <= i < |u.vector| :: Stands(bytes, 7 + i, u.vector[i])
  }

  // ----- serialize -----

  /** The words serialize lays out. junk is what the uninitialised temp array holds: an
      ack sends those bytes along. */
  function Layout(m: Packet, numProc: nat, junk: seq<nat>): (words: seq<nat>)
    requires |junk| == NumFields(numProc) && (m.mtype != ACK ==> |m.urb.vector| == numProc)
    ensures |words| == NumFields(numProc)
  {
    var header := [m.mid, m.ackid, m.sender, m.mtype];
    if m.mtype == ACK then header + junk[4..]
    else header + [m.urb.mid, m.urb.seenId, m.urb.origin] + m.urb.vector
  }

  /** In the image of that, the header is mid, ackid, sender and type in this order, and a
      message of any type but 1 goes on with the URB ids, the origin and the clock. */
  lemma LaidOut(m: Packet, numProc: nat, junk: seq<nat>, bytes: seq<Byte>)
    requires Sendable(m, numProc) && |junk| == NumFields(numProc) && Image(bytes, Layout(m, numProc, junk))
    ensures |bytes| == 28 + 4 * numProc
    ensures HeaderStands(bytes, m) && (m.mtype != 1 ==> UrbStands(bytes, m.urb))
  {
    var words := Layout(m, numProc, junk);
    ReadImage(bytes, words, 0);
    ReadImage(bytes, words, 1);
    ReadImage(bytes, words, 2);
    ReadImage(bytes, words, 3);
    if m.mtype != ACK {
      ReadImage(bytes, words, 4);
      ReadImage(bytes, words, 5);
      ReadImage(bytes, words, 6);
      forall i | 0 <= i < numProc ensures Stands(bytes, 7 + i, m.urb.vector[i]) {
        ReadImage(bytes, words, 7 + i);
      }
    }
  }

  method Serialize(m: Packet, numProc: nat, junk: seq<nat>) returns (buffer: array<Byte>)
    requires Sendable(m, numProc) && |junk| == NumFields(numProc)
    ensures fresh(buffer) && buffer.Length == 28 + 4 * numProc
    ensures Image(buffer[..], Layout(m, numProc, junk))
    ensures HeaderStands(buffer[..], m) && (m.mtype != 1 ==> UrbStands(buffer[..], m.urb))
  {
    var temp := new nat[NumFields(numProc)](i requires 0 <= i < |junk| => junk[i]);
    temp[0], temp[1], temp[2], temp[3] := m.mid, m.ackid, m.sender, m.mtype;
    if m.mtype != ACK {
      temp[4], temp[5], temp[6] := m.urb.mid, m.urb.seenId, m.urb.origin;
      for i := 0 to numProc
        invariant forall j | 0 <= j < i :: temp[NUM_STATIC + j] == m.urb.vector[j]
        invariant temp[..NUM_STATIC] == [m.mid, m.ackid, m.sender, m.mtype, m.urb.mid, m.urb.seenId, m.urb.origin]
      {
        temp[NUM_STATIC + i] := m.urb.vector[i];
      }
    }
    assert temp[..] == Layout(m, numProc, junk);
    buffer := CopyOut(temp);
    LaidOut(m, numProc, junk, buffer[..]);
  }

  /** memcpy from words to bytes. */
  method CopyOut(temp: array<nat>) returns (buffer: array<Byte>)
    ensures fresh(buffer) && Image(buffer[..], temp[..])
  {
    buffer := new Byte[4 * temp.Length](_ => 0);
    for i := 0 to temp.Length
      invariant forall j | 0 <= j < i :: ImageAt(buffer[..], temp[..], j)
    {
      ghost var done := buffer[..];
      buffer[4 * i], buffer[4 * i + 1] := ByteOf(temp[i], 0), ByteOf(temp[i], 1);
      buffer[4 * i + 2], buffer[4 * i + 3] := ByteOf(temp[i], 2), ByteOf(temp[i], 3);
      forall j | 0 <= j < i + 1 ensures ImageAt(buffer[..], temp[..], j) {
        if j < i {
          assert ImageAt(done, temp[..], j);
        }
      }
    }
  }

  // ----- deserialize -----

  /** What deserialize leaves in msg: an ack only overwrites the header. */
  function Decode(msg: Packet, bytes: seq<Byte>, numProc: nat): Packet
    requires |bytes| == MessageSize(numProc)
  {
    var header := msg.(mid := WordAt(bytes, 0), ackid := WordAt(bytes, 1),
                       sender := WordAt(bytes, 2), mtype := WordAt(bytes, 3));
    if WordAt(bytes, 3) == ACK then header
    else header.(urb := UrbPart(WordAt(bytes, 4), WordAt(bytes, 5), WordAt(bytes, 6),
                                VectorAt(bytes, numProc)))
  }

  /** The vector part of a buffer. */
  function VectorAt(bytes: seq<Byte>, numProc: nat): (v: seq<nat>)
    requires |bytes| == MessageSize(numProc)
    ensures |v| == numProc && forall i | 0 <= i < numProc :: v[i] == WordAt(bytes, NUM_STATIC + i) && IsWord(v[i])
  {
    seq<nat>(numProc, i requires 0 <= i < numProc => WordAt(bytes, NUM_STATIC + i))
  }

  /** The packet has the fields that stand in the buffer; a type word of 1 leaves the URB
      part as it was. */
  lemma Decoded(msg: Packet, bytes: seq<Byte>, numProc: nat)
    requires |bytes| == MessageSize(numProc)
    ensures var r := Decode(msg, bytes, numProc);
      && HeaderStands(bytes, r)
      && if r.mtype == 1 then r.urb == msg.urb else |r.urb.vector| == numProc && UrbStands(bytes, r.urb)
  {
    var v := VectorAt(bytes, numProc);
    forall i | 0 <= i < numProc ensures Stands(bytes, 7 + i, v[i]) {
      assert v[i] == WordAt(bytes, NUM_STATIC + i);
    }
  }

  method Deserialize(msg: Packet, buffer: array?<Byte>, numProc: nat) returns (ok: bool, r: Packet)
    requires buffer != null ==> buffer.Length == MessageSize(numProc)
    ensures ok <==> buffer != null
    ensures r == if buffer == null then msg else Decode(msg, buffer[..], numProc)
    ensures ok ==> HeaderStands(buffer[..], r)
    ensures ok ==> if r.mtype == 1 then r.urb == msg.urb else |r.urb.vector| == numProc && UrbStands(buffer[..], r.urb)
  {
    if buffer == null {
      return false, msg;
    }
    Decoded(msg, buffer[..], numProc);
    ok := true;
    r := msg.(mid := WordAt(buffer[..], 0), ackid := WordAt(buffer[..], 1),
              sender := WordAt(buffer[..], 2), mtype := WordAt(buffer[..], 3));
    if r.mtype == ACK {
      return;
    }
    var vector: Clock := [];
    for i := 0 to numProc
      invariant |vector| == i && forall j | 0 <= j < i :: vector[j] == WordAt(buffer[..], NUM_STATIC + j)
    {
      vector := vector + [WordAt(buffer[..], NUM_STATIC + i)];
    }
    r := r.(urb := UrbPart(WordAt(buffer[..], 4), WordAt(buffer[..], 5), WordAt(buffer[..], 6), vector));
  }

  // ----- Round trips -----

  /** What was serialized is read back: everything for a data message, the header for an
      ack, whatever was in memory before on either side. */
  lemma RoundTrip(m: Packet, numProc: nat, junk: seq<nat>, bytes: seq<Byte>, before: Packet)
    requires Sendable(m, numProc) && |junk| == NumFields(numProc) && Image(bytes, Layout(m, numProc, junk))
    ensures |bytes| == MessageSize(numProc)
    ensures Decode(before, bytes, numProc) == if m.mtype == ACK then m.(urb := before.urb) else m
  {
    var words := Layout(m, numProc, junk);
    ReadImage(bytes, words, 0);
    ReadImage(bytes, words, 1);
    ReadImage(bytes, words, 2);
    ReadImage(bytes, words, 3);
    if m.mtype != ACK {
      ReadImage(bytes, words, 4);
      ReadImage(bytes, words, 5);
      ReadImage(bytes, words, 6);
      forall i | 0 <= i < numProc ensures WordAt(bytes, NUM_STATIC + i) == m.urb.vector[i] {
        ReadImage(bytes, words, NUM_STATIC + i);
      }
      assert Decode(before, bytes, numProc).urb.vector == m.urb.vector;
    }
  }

  /** Serializing what was read from a data buffer gives the same bytes. */
  lemma Reserialize(bytes: seq<Byte>, numProc: nat, junk: seq<nat>, before: Packet, again: seq<Byte>)
    requires |bytes| == MessageSize(numProc) && WordAt(bytes, 3) != ACK && |junk| == NumFields(numProc)
    requires Image(again, Layout(Decode(before, bytes, numProc), numProc, junk))
    ensures Sendable(Decode(before, bytes, numProc), numProc)
    ensures again == bytes
  {
    var m := Decode(before, bytes, numProc);
    var words := Layout(m, numProc, junk);
    assert m.urb.vector == VectorAt(bytes, numProc);
    forall i | 0 <= i < |words|
      ensures 4 * i + 3 < |bytes| == |again|
      ensures again[4 * i] == bytes[4 * i] && again[4 * i + 1] == bytes[4 * i + 1]
      ensures again[4 * i + 2] == bytes[4 * i + 2] && again[4 * i + 3] == bytes[4 * i + 3]
    {
      assert words[i] == WordAt(bytes, i);
      assert ImageAt(again, words, i);
      BytesOfWord(bytes[4 * i], bytes[4 * i + 1], bytes[4 * i + 2], bytes[4 * i + 3]);
    }
    forall k | 0 <= k < |bytes| ensures again[k] == bytes[k] {
      var i := k / 4;
      assert 0 <= i < |words| && (k == 4 * i || k == 4 * i + 1 || k == 4 * i + 2 || k == 4 * i + 3);
    }
  }
}
