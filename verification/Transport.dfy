/** The transport function: cpp/lib/src/transport/TransportTx.cpp, TransportRx.cpp, TransportHeader.cpp,
    and SequenceNum.h with modulus 64. */
module Transport {
  import opened Crc
  import SequenceNum

  const MAX_PAYLOAD: nat := 249
  const MODULUS: nat := 64

  datatype Addresses = Addresses(source: bv16, destination: bv16)

  /** A segment on its way up, or a whole application fragment. */
  datatype Message = Message(addresses: Addresses, payload: seq<Octet>)

  const NOTHING := Message(Addresses(0, 0), [])

  // ---------------------------------------------------------------- sequence numbers

  function Next(s: nat): (r: nat)
    ensures r < MODULUS
  {
    SequenceNum.Next(MODULUS, s)
  }

  // ---------------------------------------------------------------- the header octet

  function Header(fir: bool, fin: bool, seqNum: nat): Octet
    requires seqNum < MODULUS
  {
    (if fir then 0x40 else 0) | (if fin then 0x80 else 0) | (0x3F & (seqNum as Octet))
  }

  predicate Fir(h: Octet) { h & 0x40 != 0 }

  predicate Fin(h: Octet) { h & 0x80 != 0 }

  function SeqOf(h: Octet): (s: nat)
    ensures s < MODULUS
  {
    SeqBound(h);
    (h & 0x3F) as int
  }

  lemma SeqBound(h: Octet)
    ensures ((h & 0x3F) as int) < 64
  {
  }

  lemma HeaderReads(fir: bool, fin: bool, seqNum: nat)
    requires seqNum < MODULUS
    ensures var h := Header(fir, fin, seqNum); Fir(h) == fir && Fin(h) == fin && SeqOf(h) == seqNum
  {
    var s := seqNum as Octet;
    assert s < 64 && (s as int) == seqNum;
    assert Header(fir, fin, seqNum) & 0x3F == s;
  }

  /** FIN, FIR and the number, from the highest bit down. */
  lemma HeaderLayout(fir: bool, fin: bool, seqNum: nat)
    requires seqNum < 64
    ensures Header(fir, fin, seqNum) as int == (if fin then 128 else 0) + (if fir then 64 else 0) + seqNum
  {
    var s := seqNum as Octet;
    assert s < 64 && (s as int) == seqNum;
    assert Header(fir, fin, seqNum) == (if fin then 128 else 0) + (if fir then 64 else 0) + s;
  }

  // ---------------------------------------------------------------- sending

  /** The segments of a fragment, numbered from seqNum on. */
  function Segments(seqNum: nat, fir: bool, payload: seq<Octet>): (segs: seq<seq<Octet>>)
    requires seqNum < MODULUS
    ensures |segs| >= 1 && forall i | 0 <= i < |segs| :: 1 <= |segs[i]| <= MAX_PAYLOAD + 1
    decreases |payload|
  {
    if |payload| <= MAX_PAYLOAD then [[Header(fir, true, seqNum)] + payload]
    else
      [[Header(fir, false, seqNum)] + payload[..MAX_PAYLOAD]] + Segments(Next(seqNum), false, payload[MAX_PAYLOAD..])
  }

  /** Every segment but the last carries 249 octets behind its header, and the last what is left. */
  lemma {:induction false} SegmentSizes(seqNum: nat, fir: bool, payload: seq<Octet>, i: nat)
    requires seqNum < MODULUS && i < |Segments(seqNum, fir, payload)|
    ensures payload != [] ==> |Segments(seqNum, fir, payload)| == (|payload| + 248) / 249
    ensures var segs := Segments(seqNum, fir, payload);
      |segs[i]| == 1 + if i < |segs| - 1 then 249 else |payload| - 249 * (|segs| - 1)
    decreases |payload|
  {
    hide Header, Next;
    if |payload| > MAX_PAYLOAD {
      SegmentSizes(Next(seqNum), false, payload[MAX_PAYLOAD..], if i == 0 then 0 else i - 1);
    }
  }

  lemma SegmentsStep(seqNum: nat, fir: bool, payload: seq<Octet>)
    requires seqNum < MODULUS
    ensures var segs := Segments(seqNum, fir, payload);
      segs == [segs[0]] + if |payload| <= MAX_PAYLOAD then [] else Segments(Next(seqNum), false, payload[MAX_PAYLOAD..])
  {
  }

  lemma NextPlace(s: nat, n: nat)
    ensures Next((s + n) % MODULUS) == (s + (n + 1)) % MODULUS
  {
  }

  class TransportTx {
    var message: Message
    var txSegment: seq<Octet>
    const tpduBuffer: array<Octet>
    const sequence: SequenceNum.Sequence
    var tpduCount: nat

    ghost predicate Valid()
      reads this, sequence
    {
      tpduBuffer.Length == MAX_PAYLOAD + 1 && sequence.Valid() && sequence.modulus == MODULUS
    }

    constructor ()
      ensures Valid() && sequence.value == 0 && message == NOTHING && txSegment == [] && fresh(tpduBuffer) && fresh(sequence)
    {
      message, txSegment, tpduCount := NOTHING, [], 0;
      tpduBuffer := new Octet[MAX_PAYLOAD + 1];
      sequence := new SequenceNum.Sequence(MODULUS, 0);
    }

    method Configure(m: Message)
      requires Valid() && m.payload != []
      modifies this
      ensures Valid() && message == m && txSegment == [] && tpduCount == 0
    {
      txSegment, message, tpduCount := [], m, 0;
    }

    /** The segment to send now; asking again returns the same one. */
    method GetSegment() returns (segment: seq<Octet>)
      requires Valid()
      modifies this`txSegment, tpduBuffer
      ensures old(txSegment) != [] ==> segment == old(txSegment)
      ensures old(txSegment) == [] ==> segment == Segments(sequence.value, tpduCount == 0, message.payload)[0]
      ensures txSegment == segment
    {
      if txSegment != [] {
        return txSegment;
      }
      var numToSend := if |message.payload| < MAX_PAYLOAD then |message.payload| else MAX_PAYLOAD;
      forall k | 0 <= k < numToSend { tpduBuffer[k + 1] := message.payload[k]; }
      tpduBuffer[0] := Header(tpduCount == 0, numToSend == |message.payload|, sequence.value);
      segment := tpduBuffer[..numToSend + 1];
      assert segment == [segment[0]] + message.payload[..numToSend];
      assert numToSend == |message.payload| ==> message.payload[..numToSend] == message.payload;
      txSegment := segment;
    }

    method Advance() returns (more: bool)
      requires Valid()
      modifies this, sequence
      ensures Valid() && txSegment == [] && message.addresses == old(message.addresses)
      ensures sequence.value == Next(old(sequence.value)) && tpduCount == old(tpduCount) + 1 && more == (message.payload != [])
      ensures message.payload ==
        if |old(message.payload)| <= MAX_PAYLOAD then [] else old(message.payload)[MAX_PAYLOAD..]
    {
      txSegment := [];
      var numToSend := if |message.payload| < MAX_PAYLOAD then |message.payload| else MAX_PAYLOAD;
      message := message.(payload := message.payload[numToSend..]);
      tpduCount := tpduCount + 1;
      sequence.Increment();
      more := message.payload != [];
    }

    /** BeginTransmit: the transmitter is configured, and the link layer takes segments until none is left. */
    method Transmit(m: Message) returns (segs: seq<seq<Octet>>)
      requires Valid() && m.payload != []
      modifies this, sequence, tpduBuffer
      ensures Valid() && segs == Segments(old(sequence.value), true, m.payload)
      ensures sequence.value == (old(sequence.value) + |segs|) % MODULUS
    {
      hide Segments, Next;
      Configure(m);
      segs := [];
      ghost var whole := Segments(sequence.value, true, m.payload);
      var more := true;
      while more
        invariant Valid() && txSegment == []
        invariant more ==>
          message.payload != [] && whole == segs + Segments(sequence.value, tpduCount == 0, message.payload)
        invariant !more ==> whole == segs && message.payload == []
        invariant sequence.value == (old(sequence.value) + |segs|) % MODULUS
        decreases |message.payload|, more
      {
        SegmentsStep(sequence.value, tpduCount == 0, message.payload);
        NextPlace(old(sequence.value), |segs|);
        var segment := GetSegment();
        segs := segs + [segment];
        more := Advance();
      }
    }
  }

  // ---------------------------------------------------------------- receiving

  /** Octets held for an unfinished fragment, the sequence number due next, and who it comes from. */
  datatype Rx = Rx(held: seq<Octet>, expected: nat, last: Addresses)

  const EMPTY := Rx([], 0, Addresses(0, 0))

  predicate Follows(r: Rx, m: Message)
    requires m.payload != []
  {
    r.held != [] && SeqOf(m.payload[0]) == r.expected && m.addresses == r.last
  }

  /** ProcessReceive with a buffer of `max` octets; the second part is the fragment completed, if any. */
  function Receive(max: nat, r: Rx, m: Message): (Rx, Message) {
    if m.payload == [] then (r, NOTHING)
    else
      var h, body := m.payload[0], m.payload[1..];
      var held := if Fir(h) then [] else r.held;
      if !Fir(h) && !Follows(r, m) then (r, NOTHING)
      else if |held + body| > max then (r.(held := []), NOTHING)
      else if Fin(h) then (Rx([], Next(SeqOf(h)), m.addresses), Message(m.addresses, held + body))
      else (Rx(held + body, Next(SeqOf(h)), m.addresses), NOTHING)
  }

  class TransportRx {
    const rxBuffer: array<Octet>
    var numBytesRead: nat
    const expectedSeq: SequenceNum.Sequence
    var lastAddresses: Addresses

    ghost predicate Valid()
      reads this, expectedSeq
    {
      numBytesRead <= rxBuffer.Length && expectedSeq.Valid() && expectedSeq.modulus == MODULUS
    }

    ghost function Value(): Rx
      reads this, rxBuffer, expectedSeq
      requires Valid()
    {
      Rx(rxBuffer[..numBytesRead], expectedSeq.value, lastAddresses)
    }

    constructor (maxRxFragSize: nat)
      ensures Valid() && rxBuffer.Length == maxRxFragSize && Value() == EMPTY && fresh(rxBuffer) && fresh(expectedSeq)
    {
      rxBuffer := new Octet[maxRxFragSize];
      numBytesRead, lastAddresses := 0, Addresses(0, 0);
      expectedSeq := new SequenceNum.Sequence(MODULUS, 0);
    }

    /** The lower layer went down. */
    method Reset()
      requires Valid()
      modifies this`numBytesRead
      ensures Valid() && Value() == old(Value()).(held := [])
    {
      numBytesRead := 0;
    }

    method ProcessReceive(segment: Message) returns (asdu: Message)
      requires Valid()
      modifies this, rxBuffer, expectedSeq
      ensures Valid() && (Value(), asdu) == Receive(rxBuffer.Length, old(Value()), segment)
    {
      hide SeqOf, Fir, Fin;
      if segment.payload == [] {
        return NOTHING;
      }
      var h := segment.payload[0];
      var payload := segment.payload[1..];
      if Fir(h) && numBytesRead > 0 {
        numBytesRead := 0;
      }
      if !Fir(h) {
        if numBytesRead == 0 || SeqOf(h) != expectedSeq.value || segment.addresses != lastAddresses {
          return NOTHING;
        }
      }
      ghost var held := rxBuffer[..numBytesRead];
      if |payload| > rxBuffer.Length - numBytesRead {
        numBytesRead := 0;
        return NOTHING;
      }
      forall k | 0 <= k < |payload| { rxBuffer[numBytesRead + k] := payload[k]; }
      numBytesRead := numBytesRead + |payload|;
      assert rxBuffer[..numBytesRead] == held + payload;
      lastAddresses := segment.addresses;
      expectedSeq.Assign(SeqOf(h));
      expectedSeq.Increment();
      if Fin(h) {
        asdu := Message(segment.addresses, rxBuffer[..numBytesRead]);
        numBytesRead := 0;
        return;
      }
      return NOTHING;
    }
  }

  /** TransportLayer: offline it takes no segment, and going down drops what the receiver holds. */
  class TransportLayer {
    var isOnline: bool
    const receiver: TransportRx
    /** What the application layer was given. */
    var passed: seq<Message>

    ghost predicate Valid()
      reads this, receiver, receiver.expectedSeq
    {
      receiver.Valid() && (!isOnline ==> receiver.numBytesRead == 0)
    }

    constructor (maxRxFragSize: nat)
      ensures Valid() && !isOnline && passed == [] && receiver.rxBuffer.Length == maxRxFragSize && receiver.Value() == EMPTY
      ensures fresh(receiver) && fresh(receiver.rxBuffer) && fresh(receiver.expectedSeq)
    {
      isOnline, passed := false, [];
      receiver := new TransportRx(maxRxFragSize);
    }

    method OnReceive(segment: Message) returns (ok: bool)
      requires Valid()
      modifies this, receiver, receiver.rxBuffer, receiver.expectedSeq
      ensures Valid() && isOnline == old(isOnline) && ok == isOnline
      ensures var (r, asdu) := Receive(receiver.rxBuffer.Length, old(receiver.Value()), segment);
        if ok then receiver.Value() == r && passed == old(passed) + PassedUp(asdu)
        else receiver.Value() == old(receiver.Value()) && passed == old(passed)
    {
      if isOnline {
        var asdu := receiver.ProcessReceive(segment);
        if asdu.payload != [] {
          passed := passed + [asdu];
        }
        return true;
      }
      return false;
    }

    method OnLowerLayerUp() returns (ok: bool)
      requires Valid()
      modifies this
      ensures Valid() && isOnline && ok == !old(isOnline) && passed == old(passed)
    {
      if isOnline {
        return false;
      }
      isOnline := true;
      return true;
    }

    method OnLowerLayerDown() returns (ok: bool)
      requires Valid()
      modifies this, receiver
      ensures Valid() && !isOnline && ok == old(isOnline) && passed == old(passed)
      ensures receiver.Value() == old(receiver.Value()).(held := [])
    {
      if !isOnline {
        return false;
      }
      isOnline := false;
      receiver.Reset();
      return true;
    }
  }

  // ---------------------------------------------------------------- fragments sent without loss

  /** What the application layer is given: TransportLayer passes on only what is not empty. */
  function PassedUp(m: Message): seq<Message> { if m.payload == [] then [] else [m] }

  function ReceiveAll(max: nat, r: Rx, arrivals: seq<Message>): (Rx, seq<Message>)
    decreases |arrivals|
  {
    if arrivals == [] then (r, [])
    else
      var (r1, m) := Receive(max, r, arrivals[0]);
      var (r2, ms) := ReceiveAll(max, r1, arrivals[1..]);
      (r2, PassedUp(m) + ms)
  }

  /** Segments without a header might as well not have arrived. */
  lemma {:induction false} EmptyDoesNotMatter(max: nat, r: Rx, arrivals: seq<Message>)
    ensures ReceiveAll(max, r, arrivals) == ReceiveAll(max, r, NotEmpty(arrivals))
    decreases |arrivals|
  {
    if arrivals != [] {
      var m, rest := arrivals[0], NotEmpty(arrivals[1..]);
      var (r1, out) := Receive(max, r, m);
      EmptyDoesNotMatter(max, r1, arrivals[1..]);
      if m.payload == [] {
        assert NotEmpty(arrivals) == rest;
        assert r1 == r && PassedUp(out) == [] && [] + ReceiveAll(max, r, rest).1 == ReceiveAll(max, r, rest).1;
      } else {
        assert NotEmpty(arrivals) == [m] + rest && ([m] + rest)[1..] == rest;
      }
    } else {
      assert NotEmpty(arrivals) == arrivals;
    }
  }

  function NotEmpty(arrivals: seq<Message>): seq<Message> {
    if arrivals == [] then [] else (if arrivals[0].payload == [] then [] else [arrivals[0]]) + NotEmpty(arrivals[1..])
  }

  function Addressed(a: Addresses, segs: seq<seq<Octet>>): (ms: seq<Message>)
    ensures |ms| == |segs|
  {
    seq(|segs|, i requires 0 <= i < |segs| => Message(a, segs[i]))
  }

  lemma AddressedFirst(a: Addresses, segs: seq<seq<Octet>>)
    requires segs != []
    ensures Addressed(a, segs)[0] == Message(a, segs[0]) && Addressed(a, segs)[1..] == Addressed(a, segs[1..])
  {
  }

  /** One segment, taken apart. */
  lemma ReceiveOne(max: nat, r: Rx, a: Addresses, fir: bool, fin: bool, seqNum: nat, body: seq<Octet>)
    requires seqNum < MODULUS && (fir || (r.held != [] && r.expected == seqNum && r.last == a))
    ensures var held := if fir then [] else r.held;
      Receive(max, r, Message(a, [Header(fir, fin, seqNum)] + body)) ==
        if |held + body| > max then (r.(held := []), NOTHING)
        else if fin then (Rx([], Next(seqNum), a), Message(a, held + body))
        else (Rx(held + body, Next(seqNum), a), NOTHING)
  {
    hide Header, SeqOf, Fir, Fin;
    HeaderReads(fir, fin, seqNum);
    var p := [Header(fir, fin, seqNum)] + body;
    assert p[0] == Header(fir, fin, seqNum) && p[1..] == body;
  }

  lemma {:induction false} NothingHeld(max: nat, r: Rx, a: Addresses, seqNum: nat, payload: seq<Octet>)
    requires r.held == [] && seqNum < MODULUS
    ensures ReceiveAll(max, r, Addressed(a, Segments(seqNum, false, payload))) == (r, [])
    decreases |payload|
  {
    hide SeqOf, Fin, Header, Fir;
    var segs := Segments(seqNum, false, payload);
    AddressedFirst(a, segs);
    HeaderReads(false, |payload| <= MAX_PAYLOAD, seqNum);
    assert segs[0][0] == Header(false, |payload| <= MAX_PAYLOAD, seqNum);
    assert Receive(max, r, Message(a, segs[0])) == (r, NOTHING);
    if |payload| > MAX_PAYLOAD {
      assert segs[1..] == Segments(Next(seqNum), false, payload[MAX_PAYLOAD..]);
      NothingHeld(max, r, a, Next(seqNum), payload[MAX_PAYLOAD..]);
    } else {
      var ms := Addressed(a, segs);
      assert |ms| == 1 && ms == [Message(a, segs[0])];
      assert ReceiveAll(max, r, ms[1..]) == (r, []);
      assert ReceiveAll(max, r, ms).0 == r;
      assert ReceiveAll(max, r, ms).1 == [];
    }
  }

  lemma {:induction false} Reassembled(max: nat, r: Rx, a: Addresses, seqNum: nat, fir: bool, payload: seq<Octet>)
    requires seqNum < MODULUS && payload != []
    requires fir || (r.held != [] && r.expected == seqNum && r.last == a)
    ensures var held := if fir then [] else r.held;
      var out := ReceiveAll(max, r, Addressed(a, Segments(seqNum, fir, payload)));
      out.0.held == [] && out.1 == if |held + payload| <= max then [Message(a, held + payload)] else []
    decreases |payload|
  {
    hide Header, Receive;
    var held := if fir then [] else r.held;
    var segs := Segments(seqNum, fir, payload);
    AddressedFirst(a, segs);
    if |payload| <= MAX_PAYLOAD {
      ReceiveOne(max, r, a, fir, true, seqNum, payload);
      assert segs[1..] == [];
    } else {
      var body, rest := payload[..MAX_PAYLOAD], payload[MAX_PAYLOAD..];
      ReceiveOne(max, r, a, fir, false, seqNum, body);
      assert held + payload == held + body + rest;
      if |held + body| > max {
        NothingHeld(max, r.(held := []), a, Next(seqNum), rest);
      } else {
        Reassembled(max, Rx(held + body, Next(seqNum), a), a, Next(seqNum), false, rest);
      }
    }
  }

  /** A fragment sent whole arrives whole, whatever the receiver was doing, if and only if it fits. */
  lemma FragmentRoundTrip(max: nat, r: Rx, a: Addresses, seqNum: nat, apdu: seq<Octet>)
    requires seqNum < MODULUS && apdu != []
    ensures ReceiveAll(max, r, Addressed(a, Segments(seqNum, true, apdu))).1 ==
      if |apdu| <= max then [Message(a, apdu)] else []
  {
    hide ReceiveAll, Segments;
    Reassembled(max, r, a, seqNum, true, apdu);
    assert [] + apdu == apdu;
  }
}
