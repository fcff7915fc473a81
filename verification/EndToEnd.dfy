/** One application fragment from one station to another: TransportTx, LinkFrame, LinkLayerParser, LinkContext and
    TransportRx put together, while the lower layer comes and goes. */
module EndToEnd {
  import opened Crc
  import opened LinkFrame
  import opened LinkStream
  import opened LinkSecondary
  import opened Transport

  /** The frames among the events of a link. */
  function Frames(events: seq<Event>): seq<Frame>
    decreases |events|
  {
    if events == [] then [] else (if events[0].Got? then [events[0].frame] else []) + Frames(events[1..])
  }

  lemma {:induction false} FramesConcat(a: seq<Event>, b: seq<Event>)
    ensures Frames(a + b) == Frames(a) + Frames(b)
    decreases |a|
  {
    if a == [] {
      assert a + b == b;
    } else {
      assert (a + b)[0] == a[0] && (a + b)[1..] == a[1..] + b;
      FramesConcat(a[1..], b);
    }
  }

  // ---------------------------------------------------------------- what an event is to the transport function

  /** User data is handed up, or missed because the layer is offline; the lower layer comes up or goes down; or nothing
      happens there. */
  datatype Input = Data(m: Message) | Missed(m: Message) | Raised | Lowered | Quiet

  function Carried(f: Frame): Message { Message(Addresses(f.fields.src, f.fields.dest), f.data) }

  predicate IsOurs(config: LinkConfig, f: Frame) { ForUs(config, f.fields) && f.fields.func == 0x44 }

  function InputOf(config: LinkConfig, st: Station, e: Event): Input {
    match e
    case Got(f) =>
      if Pushed(config, st, e) != [] then Data(Carried(f))
      else if !st.online && IsOurs(config, f) then Missed(Carried(f))
      else Quiet
    case Sent => Quiet
    case Up => Raised
    case Down => if st.online then Lowered else Quiet
  }

  /** One input to an event. */
  function Inputs(config: LinkConfig, st: Station, events: seq<Event>): (xs: seq<Input>)
    ensures |xs| == |events|
    decreases |events|
  {
    if events == [] then []
    else [InputOf(config, st, events[0])] + Inputs(config, After(config, st, events[0]), events[1..])
  }

  lemma {:induction false} InputsConcat(config: LinkConfig, st: Station, a: seq<Event>, b: seq<Event>)
    ensures Inputs(config, st, a + b) == Inputs(config, st, a) + Inputs(config, Run(config, st, a), b)
    decreases |a|
  {
    hide After, InputOf;
    if a == [] {
      assert a + b == b;
    } else {
      assert (a + b)[0] == a[0] && (a + b)[1..] == a[1..] + b;
      InputsConcat(config, After(config, st, a[0]), a[1..], b);
    }
  }

  /** TransportLayer: data goes to the receiver, and the receiver is reset when the lower layer goes down. */
  function Take(max: nat, r: Rx, x: Input): (Rx, seq<Message>) {
    match x
    case Data(m) => var (r', out) := Receive(max, r, m); (r', PassedUp(out))
    case Lowered => (r.(held := []), [])
    case _ => (r, [])
  }

  function TakeAll(max: nat, r: Rx, xs: seq<Input>): (Rx, seq<Message>)
    decreases |xs|
  {
    if xs == [] then (r, [])
    else
      var (r1, ms) := Take(max, r, xs[0]);
      var (r2, more) := TakeAll(max, r1, xs[1..]);
      (r2, ms + more)
  }

  lemma {:induction false} TakeConcat(max: nat, r: Rx, a: seq<Input>, b: seq<Input>)
    ensures var (r1, ms) := TakeAll(max, r, a);
      TakeAll(max, r, a + b) == (TakeAll(max, r1, b).0, ms + TakeAll(max, r1, b).1)
    decreases |a|
  {
    hide Take;
    if a == [] {
      var t := TakeAll(max, r, b);
      assert a + b == b && TakeAll(max, r, a) == (r, []) && [] + t.1 == t.1;
    } else {
      assert (a + b)[0] == a[0] && (a + b)[1..] == a[1..] + b;
      var (r0, m) := Take(max, r, a[0]);
      TakeConcat(max, r0, a[1..], b);
      var (r1, ms) := TakeAll(max, r0, a[1..]);
      var t := TakeAll(max, r1, b);
      assert m + (ms + t.1) == (m + ms) + t.1;
    }
  }

  /** The fragments a station passes to its application. */
  function Passed(config: LinkConfig, st: Station, max: nat, r: Rx, events: seq<Event>): seq<Message> {
    TakeAll(max, r, Inputs(config, st, events)).1
  }

  lemma OneMoreInput(config: LinkConfig, max: nat, events: seq<Event>, i: nat)
    requires i < |events|
    ensures
      var st, (r, ms) := Before(config, events, i), TakeAll(max, EMPTY, Inputs(config, NEW, events[..i]));
      var (r', more) := Take(max, r, InputOf(config, st, events[i]));
      TakeAll(max, EMPTY, Inputs(config, NEW, events[..i + 1])) == (r', ms + more)
  {
    hide InputOf, Take;
    var st, e := Before(config, events, i), events[i];
    assert events[..i + 1] == events[..i] + [e];
    InputsConcat(config, NEW, events[..i], [e]);
    var x := InputOf(config, st, e);
    assert [e][1..] == [] && Inputs(config, After(config, st, e), []) == [];
    assert Inputs(config, st, [e]) == [x];
    TakeConcat(max, EMPTY, Inputs(config, NEW, events[..i]), [x]);
    var (r, ms) := TakeAll(max, EMPTY, Inputs(config, NEW, events[..i]));
    OneInput(max, r, x);
  }

  lemma OneInput(max: nat, r: Rx, x: Input)
    ensures TakeAll(max, r, [x]) == Take(max, r, x)
  {
    hide Take;
    var (r1, ms) := Take(max, r, x);
    assert [x][1..] == [] && ms + [] == ms;
  }

  lemma NothingTaken(config: LinkConfig, max: nat)
    ensures Run(config, NEW, []) == NEW && TakeAll(max, EMPTY, Inputs(config, NEW, [])) == (EMPTY, [])
  {
  }

  /** A station put together from its two layers passes up exactly that. */
  method Serve(config: LinkConfig, max: nat, events: seq<Event>) returns (passed: seq<Message>)
    ensures passed == Passed(config, NEW, max, EMPTY, events)
  {
    hide TakeAll, Inputs, Run, Receive, Handle;
    var link := new LinkContext(config);
    var transport := new TransportLayer(max);
    NothingTaken(config, max);
    assert events[..0] == [];
    for i := 0 to |events|
      invariant fresh(link) && fresh(transport) && fresh(transport.receiver)
      invariant fresh(transport.receiver.rxBuffer) && fresh(transport.receiver.expectedSeq)
      invariant transport.Valid() && transport.receiver.rxBuffer.Length == max
      invariant link.config == config && link.View() == Before(config, events, i) && transport.isOnline == link.isOnline
      invariant (transport.receiver.Value(), transport.passed) == TakeAll(max, EMPTY, Inputs(config, NEW, events[..i]))
    {
      SoundBefore(config, events, i);
      NextBefore(config, events, i);
      OneMoreInput(config, max, events, i);
      ghost var st := link.View();
      assert transport.passed + [] == transport.passed;
      match events[i] {
        case Got(f) =>
          var pushed := link.OnFrame(f.fields);
          PushedOnline(config, st, f);
          if pushed {
            var ok := transport.OnReceive(Carried(f));
          }
        case Sent =>
          link.OnTxReady();
        case Up =>
          var ok := link.OnLowerLayerUp();
          if ok {
            ok := transport.OnLowerLayerUp();
          }
        case Down =>
          var ok := link.OnLowerLayerDown();
          if ok {
            ok := transport.OnLowerLayerDown();
          }
      }
    }
    assert events[..|events|] == events;
    passed := transport.passed;
  }

  lemma PushedOnline(config: LinkConfig, st: Station, f: Frame)
    ensures Handle(config, st, f.fields).1 ==> st.online && InputOf(config, st, Got(f)) == Data(Carried(f))
    ensures !Handle(config, st, f.fields).1 ==> !InputOf(config, st, Got(f)).Data? && !InputOf(config, st, Got(f)).Lowered?
    ensures Handle(config, st, f.fields).0.online == st.online
  {
  }

  // ---------------------------------------------------------------- inputs that carry one fragment

  /** The data offered, handed up or missed. */
  function Offered(xs: seq<Input>): seq<Message>
    decreases |xs|
  {
    if xs == [] then [] else (if xs[0].Data? || xs[0].Missed? then [xs[0].m] else []) + Offered(xs[1..])
  }

  /** Data is missed only while the layer is offline. */
  predicate Consistent(xs: seq<Input>, online: bool)
    decreases |xs|
  {
    xs == [] || (
      match xs[0]
      case Missed(_) => !online && Consistent(xs[1..], online)
      case Data(_) => Consistent(xs[1..], true)
      case Raised => Consistent(xs[1..], true)
      case Lowered => Consistent(xs[1..], false)
      case Quiet => Consistent(xs[1..], online))
  }

  predicate MissedNone(xs: seq<Input>) { forall i | 0 <= i < |xs| :: !xs[i].Missed? }

  /** The lower layer goes down after data handed up and before more of it. */
  predicate Cut(xs: seq<Input>) {
    exists i, j, k | 0 <= i < j < k < |xs| :: xs[i].Data? && xs[j].Lowered? && xs[k].Data?
  }

  /** The lower layer goes down before data is handed up. */
  predicate LoweredFirst(xs: seq<Input>) { exists j, k | 0 <= j < k < |xs| :: xs[j].Lowered? && xs[k].Data? }

  lemma CutStep(xs: seq<Input>)
    requires xs != []
    ensures MissedNone(xs) <==> !xs[0].Missed? && MissedNone(xs[1..])
    ensures Cut(xs) <==> if xs[0].Data? then LoweredFirst(xs[1..]) else Cut(xs[1..])
  {
    var rest := xs[1..];
    assert forall i | 0 < i < |xs| :: xs[i] == rest[i - 1];
    assert forall i | 0 <= i < |rest| :: rest[i] == xs[i + 1];
    if i, j, k :| 0 <= i < j < k < |xs| && xs[i].Data? && xs[j].Lowered? && xs[k].Data? {
      assert rest[j - 1].Lowered? && rest[k - 1].Data? && (i > 0 ==> rest[i - 1].Data?);
    }
    if j, k :| 0 <= j < k < |rest| && rest[j].Lowered? && rest[k].Data? {
      assert xs[j + 1].Lowered? && xs[k + 1].Data?;
    }
    if i, j, k :| 0 <= i < j < k < |rest| && rest[i].Data? && rest[j].Lowered? && rest[k].Data? {
      assert xs[i + 1].Data? && xs[j + 1].Lowered? && xs[k + 1].Data?;
    }
  }

  lemma LoweredStep(xs: seq<Input>)
    requires xs != []
    ensures MissedNone(xs) <==> !xs[0].Missed? && MissedNone(xs[1..])
    ensures LoweredFirst(xs) <==> (xs[0].Lowered? && exists k | 0 <= k < |xs[1..]| :: xs[1..][k].Data?) || LoweredFirst(xs[1..])
  {
    var rest := xs[1..];
    assert forall i | 0 < i < |xs| :: xs[i] == rest[i - 1];
    assert forall i | 0 <= i < |rest| :: rest[i] == xs[i + 1];
    if j, k :| 0 <= j < k < |xs| && xs[j].Lowered? && xs[k].Data? {
      assert rest[k - 1].Data? && (j > 0 ==> rest[j - 1].Lowered?);
    }
    if j, k :| 0 <= j < k < |rest| && rest[j].Lowered? && rest[k].Data? {
      assert xs[j + 1].Lowered? && xs[k + 1].Data?;
    }
    if k :| 0 <= k < |rest| && rest[k].Data? {
      assert xs[k + 1].Data?;
    }
  }

  lemma {:induction false} SomeOffered(xs: seq<Input>)
    requires Offered(xs) != []
    ensures MissedNone(xs) ==> exists k | 0 <= k < |xs| :: xs[k].Data?
    decreases |xs|
  {
    if !(xs[0].Data? || xs[0].Missed?) {
      SomeOffered(xs[1..]);
      if k :| 0 <= k < |xs[1..]| && xs[1..][k].Data? {
        assert xs[k + 1].Data?;
      }
      assert MissedNone(xs) ==> MissedNone(xs[1..]);
    }
  }

  lemma {:induction false} NoneOffered(xs: seq<Input>)
    requires Offered(xs) == []
    ensures MissedNone(xs) && !LoweredFirst(xs)
    decreases |xs|
  {
    if xs != [] {
      NoneOffered(xs[1..]);
      LoweredStep(xs);
      NoDataHere(xs[1..]);
    }
  }

  lemma {:induction false} NoDataHere(xs: seq<Input>)
    requires Offered(xs) == []
    ensures forall k | 0 <= k < |xs| :: !xs[k].Data?
    decreases |xs|
  {
    if xs != [] {
      NoDataHere(xs[1..]);
      forall k | 0 <= k < |xs| ensures !xs[k].Data? {
        assert k > 0 ==> xs[k] == xs[1..][k - 1];
      }
    }
  }

  predicate NotFirst(ms: seq<Message>) { forall i | 0 <= i < |ms| :: ms[i].payload != [] && !Fir(ms[i].payload[0]) }

  /** Nothing is held and nothing offered starts a fragment. */
  lemma {:induction false} NothingBegins(max: nat, r: Rx, xs: seq<Input>)
    requires r.held == [] && NotFirst(Offered(xs))
    ensures TakeAll(max, r, xs).0.held == [] && TakeAll(max, r, xs).1 == []
    decreases |xs|
  {
    hide Fir, Fin, SeqOf;
    if xs != [] {
      var head := if xs[0].Data? || xs[0].Missed? then [xs[0].m] else [];
      assert Offered(xs) == head + Offered(xs[1..]);
      assert xs[0].Data? ==> Offered(xs)[0] == xs[0].m;
      assert Offered(xs[1..]) == Offered(xs)[|head|..];
      NothingBegins(max, Take(max, r, xs[0]).0, xs[1..]);
    }
  }

  lemma {:induction false} LaterSegments(a: Addresses, seqNum: nat, payload: seq<Octet>)
    requires seqNum < MODULUS
    ensures NotFirst(Addressed(a, Segments(seqNum, false, payload)))
    decreases |payload|
  {
    hide Header, Fir;
    var segs := Segments(seqNum, false, payload);
    Transport.HeaderReads(false, |payload| <= MAX_PAYLOAD, seqNum);
    assert segs[0][0] == Header(false, |payload| <= MAX_PAYLOAD, seqNum);
    if |payload| > MAX_PAYLOAD {
      LaterSegments(a, Next(seqNum), payload[MAX_PAYLOAD..]);
      var ms, rest := Addressed(a, segs), Addressed(a, segs[1..]);
      assert segs[1..] == Segments(Next(seqNum), false, payload[MAX_PAYLOAD..]);
      forall i | 0 <= i < |ms| ensures ms[i].payload != [] && !Fir(ms[i].payload[0]) {
        assert i > 0 ==> ms[i] == rest[i - 1];
      }
    }
  }

  /** The rest of a fragment whose front is held. */
  lemma {:induction false} RestArrives(max: nat, r: Rx, a: Addresses, seqNum: nat, payload: seq<Octet>, xs: seq<Input>)
    requires seqNum < MODULUS && payload != [] && r.held != [] && r.expected == seqNum && r.last == a
    requires Consistent(xs, true) && Offered(xs) == Addressed(a, Segments(seqNum, false, payload))
    ensures TakeAll(max, r, xs).0.held == []
    ensures TakeAll(max, r, xs).1 ==
      if |r.held + payload| <= max && MissedNone(xs) && !LoweredFirst(xs) then [Message(a, r.held + payload)] else []
    decreases |xs|, 1
  {
    hide Receive, Segments, MissedNone, LoweredFirst, Header;
    var segs := Segments(seqNum, false, payload);
    var rest := xs[1..];
    LaterSegments(a, seqNum, payload);
    LoweredStep(xs);
    match xs[0]
    case Quiet => RestArrives(max, r, a, seqNum, payload, rest);
    case Raised => RestArrives(max, r, a, seqNum, payload, rest);
    case Lowered =>
      NothingBegins(max, r.(held := []), rest);
      SomeOffered(rest);
    case Data(_) => SegmentArrives(max, r, a, seqNum, false, payload, xs);
  }

  /** The segment that is due arrives. */
  lemma {:induction false} SegmentArrives(max: nat, r: Rx, a: Addresses, seqNum: nat, fir: bool, payload: seq<Octet>, xs: seq<Input>)
    requires seqNum < MODULUS && payload != [] && (fir || (r.held != [] && r.expected == seqNum && r.last == a))
    requires Consistent(xs, true) && xs != [] && xs[0].Data?
    requires Offered(xs) == Addressed(a, Segments(seqNum, fir, payload))
    ensures TakeAll(max, r, xs).0.held == []
    ensures var held := if fir then [] else r.held;
      TakeAll(max, r, xs).1 ==
        if |held + payload| <= max && MissedNone(xs[1..]) && !LoweredFirst(xs[1..]) then [Message(a, held + payload)] else []
    decreases |xs|, 0
  {
    hide Receive, MissedNone, LoweredFirst, Header;
    var held := if fir then [] else r.held;
    var segs := Segments(seqNum, fir, payload);
    var rest := xs[1..];
    AddressedFirst(a, segs);
    assert Offered(xs) == [xs[0].m] + Offered(rest);
    assert xs[0].m == Offered(xs)[0] && Offered(rest) == Offered(xs)[1..];
    if |payload| <= MAX_PAYLOAD {
      ReceiveOne(max, r, a, fir, true, seqNum, payload);
      assert segs[1..] == [];
      NoneOffered(rest);
      NothingBegins(max, Take(max, r, xs[0]).0, rest);
    } else {
      var body, more := payload[..MAX_PAYLOAD], payload[MAX_PAYLOAD..];
      ReceiveOne(max, r, a, fir, false, seqNum, body);
      assert held + payload == held + body + more;
      assert segs[1..] == Segments(Next(seqNum), false, more);
      if |held + body| > max {
        LaterSegments(a, Next(seqNum), more);
        NothingBegins(max, r.(held := []), rest);
      } else {
        RestArrives(max, Rx(held + body, Next(seqNum), a), a, Next(seqNum), more, rest);
      }
    }
  }

  /** The segments of one fragment are offered, whatever the receiver was doing: the fragment is passed up if and only if
      it fits, no segment is missed, and the lower layer does not go down between its first segment and its last. */
  lemma {:induction false} FragmentTaken(max: nat, r: Rx, online: bool, a: Addresses, seqNum: nat, apdu: seq<Octet>, xs: seq<Input>)
    requires seqNum < MODULUS && apdu != [] && (!online ==> r.held == [])
    requires Consistent(xs, online) && Offered(xs) == Addressed(a, Segments(seqNum, true, apdu))
    ensures TakeAll(max, r, xs).0.held == []
    ensures TakeAll(max, r, xs).1 == if |apdu| <= max && MissedNone(xs) && !Cut(xs) then [Message(a, apdu)] else []
    decreases |xs|
  {
    hide Receive, MissedNone, LoweredFirst, Cut, Segments;
    var rest := xs[1..];
    CutStep(xs);
    match xs[0]
    case Quiet => FragmentTaken(max, r, online, a, seqNum, apdu, rest);
    case Raised => FragmentTaken(max, r, true, a, seqNum, apdu, rest);
    case Lowered => FragmentTaken(max, r.(held := []), false, a, seqNum, apdu, rest);
    case Missed(_) =>
      FirstIsMissed(a, seqNum, apdu, xs);
      NothingBegins(max, r, rest);
    case Data(_) =>
      SegmentArrives(max, r, a, seqNum, true, apdu, xs);
      assert [] + apdu == apdu;
  }

  lemma FirstIsMissed(a: Addresses, seqNum: nat, apdu: seq<Octet>, xs: seq<Input>)
    requires seqNum < MODULUS && xs != [] && xs[0].Missed? && Offered(xs) == Addressed(a, Segments(seqNum, true, apdu))
    ensures NotFirst(Offered(xs[1..]))
  {
    hide NotFirst;
    var segs := Segments(seqNum, true, apdu);
    AddressedFirst(a, segs);
    assert Offered(xs[1..]) == Offered(xs)[1..];
    if |apdu| <= MAX_PAYLOAD {
      assert segs[1..] == [] && Offered(xs[1..]) == [];
      NoMessages();
    } else {
      LaterSegments(a, Next(seqNum), apdu[MAX_PAYLOAD..]);
    }
  }

  lemma NoMessages()
    ensures NotFirst([])
  {
  }

  // ---------------------------------------------------------------- the whole way

  function AllCarried(frames: seq<Frame>): (ms: seq<Message>)
    ensures |ms| == |frames|
  {
    seq(|frames|, i requires 0 <= i < |frames| => Carried(frames[i]))
  }

  /** The frames carry the segments of a fragment, one each, between the same two stations. */
  predicate Carry(frames: seq<Frame>, a: Addresses, segs: seq<seq<Octet>>) { AllCarried(frames) == Addressed(a, segs) }

  /** The same inputs without the data missed. */
  function Heard(xs: seq<Input>): (ys: seq<Input>)
    ensures |ys| == |xs| && MissedNone(ys) && (Cut(ys) <==> Cut(xs))
  {
    var ys := seq(|xs|, i requires 0 <= i < |xs| => if xs[i].Missed? then Quiet else xs[i]);
    assert forall i | 0 <= i < |xs| :: (ys[i].Data? <==> xs[i].Data?) && (ys[i].Lowered? <==> xs[i].Lowered?);
    ys
  }

  lemma HeardFirst(xs: seq<Input>)
    requires xs != []
    ensures Heard(xs)[0] == (if xs[0].Missed? then Quiet else xs[0]) && Heard(xs)[1..] == Heard(xs[1..])
  {
  }

  lemma {:induction false} HeardIsTaken(max: nat, r: Rx, xs: seq<Input>)
    ensures TakeAll(max, r, Heard(xs)) == TakeAll(max, r, xs)
    decreases |xs|
  {
    hide Heard, Receive;
    if xs != [] {
      HeardFirst(xs);
      HeardIsTaken(max, Take(max, r, xs[0]).0, xs[1..]);
    }
  }

  lemma {:induction false} HeardIsConsistent(xs: seq<Input>, online: bool)
    ensures Consistent(Heard(xs), online)
    decreases |xs|
  {
    hide Heard;
    if xs != [] {
      HeardFirst(xs);
      HeardIsConsistent(xs[1..], true);
      HeardIsConsistent(xs[1..], false);
    }
  }

  /** What is heard is the data of the frames accepted. */
  lemma {:induction false} HeardIsAccepted(config: LinkConfig, st: Station, events: seq<Event>)
    ensures Offered(Heard(Inputs(config, st, events))) == AllCarried(Accepted(config, st, events))
    decreases |events|
  {
    hide Heard, After, Handle;
    if events == [] {
    } else {
      var xs, rest := Inputs(config, st, events), Accepted(config, After(config, st, events[0]), events[1..]);
      HeardFirst(xs);
      HeardIsAccepted(config, After(config, st, events[0]), events[1..]);
      var pushed := Pushed(config, st, events[0]);
      assert AllCarried(pushed + rest) == AllCarried(pushed) + AllCarried(rest);
      assert xs[1..] == Inputs(config, After(config, st, events[0]), events[1..]);
    }
  }

  /** A stream of well-formed frames reaches a station in whatever reads, among whatever ends of transmissions and whatever
      losses of the lower layer; nothing is said of the other frames in it but that the data the station accepts from it
      are the segments of a fragment, confirmed or not. Then, whatever the transport function was doing and whatever
      follows, the application is given exactly that fragment first, if and only if it fits the buffer and the lower
      layer does not go down between its first segment and its last, and goes on from an empty buffer. */
  lemma FragmentArrives(config: LinkConfig, st: Station, a: Addresses, seqNum: nat, apdu: seq<Octet>, max: nat, r: Rx,
                        frames: seq<Frame>, rest: seq<Octet>, events: seq<Event>, n: nat) returns (r': Rx)
    requires seqNum < MODULUS && apdu != [] && AllWellFormed(frames)
    requires Frames(events) == Deframe(FormatAll(frames) + rest) && n <= |events| && Frames(events[..n]) == frames
    requires Carry(Accepted(config, st, events[..n]), a, Segments(seqNum, true, apdu))
    ensures r'.held == [] && Frames(events[n..]) == Deframe(rest)
    ensures Passed(config, st, max, r, events) ==
      (if |apdu| <= max && !Cut(Inputs(config, st, events[..n])) then [Message(a, apdu)] else []) +
      Passed(config, Run(config, st, events[..n]), max, r', events[n..])
  {
    hide Deframe, FormatAll, AllWellFormed, Segments, TakeAll, Frames, AllCarried, Run, Accepted, Heard, Consistent, Offered;
    hide Cut, Inputs;
    var before, after := events[..n], events[n..];
    assert events == before + after;
    StreamRoundTrip(frames, rest);
    FramesConcat(before, after);
    assert Frames(after) == (Frames(before) + Frames(after))[|frames|..];
    InputsConcat(config, st, before, after);
    var xs := Inputs(config, st, before);
    TakeConcat(max, r, xs, Inputs(config, Run(config, st, before), after));
    HeardIsTaken(max, r, xs);
    HeardIsConsistent(xs, true);
    HeardIsAccepted(config, st, before);
    FragmentTaken(max, r, true, a, seqNum, apdu, Heard(xs));
    r' := TakeAll(max, r, xs).0;
  }

  // ---------------------------------------------------------------- the unconfirmed service

  /** FormatPrimaryBufferWithUnconfirmed: one frame to a segment. */
  function UserFrames(x: Fields, segs: seq<seq<Octet>>): (frames: seq<Frame>)
    ensures |frames| == |segs|
  {
    seq(|segs|, i requires 0 <= i < |segs| => Frame(x, segs[i]))
  }

  function Unconfirmed(config: LinkConfig, frames: seq<Frame>): seq<Frame> {
    if frames == [] then [] else (if IsOurs(config, frames[0]) then [frames[0]] else []) + Unconfirmed(config, frames[1..])
  }

  predicate NoConfirmed(config: LinkConfig, frames: seq<Frame>) {
    forall i | 0 <= i < |frames| :: ForUs(config, frames[i].fields) ==> frames[i].fields.func != 0x43
  }

  /** A frame that is not confirmed data for the station offers its data exactly when it is unconfirmed data for it. */
  lemma OursIsOffered(config: LinkConfig, st: Station, f: Frame)
    requires ForUs(config, f.fields) ==> f.fields.func != 0x43
    ensures var x := InputOf(config, st, Got(f));
      if IsOurs(config, f) then (x.Data? || x.Missed?) && x.m == Carried(f) else x == Quiet
  {
  }

  lemma {:induction false} OfferedFirst(config: LinkConfig, st: Station, events: seq<Event>)
    requires events != []
    ensures var x := InputOf(config, st, events[0]);
      Offered(Inputs(config, st, events)) ==
        (if x.Data? || x.Missed? then [x.m] else []) + Offered(Inputs(config, After(config, st, events[0]), events[1..]))
  {
    hide InputOf, After;
    var xs := Inputs(config, st, events);
    assert xs[1..] == Inputs(config, After(config, st, events[0]), events[1..]);
  }

  /** Among frames without confirmed data for the station, it is offered exactly the unconfirmed data for it, in order,
      whatever its state, whenever its replies are sent and whenever the lower layer comes and goes. */
  lemma {:induction false} OnlyOurs(config: LinkConfig, st: Station, events: seq<Event>)
    requires NoConfirmed(config, Frames(events))
    ensures Offered(Inputs(config, st, events)) == AllCarried(Unconfirmed(config, Frames(events)))
    decreases |events|
  {
    hide After, Offered, Inputs, Pushed, IsOurs, ForUs, Frames, Unconfirmed, AllCarried, NoConfirmed, Carried;
    if events == [] {
      NothingOffered(config, st);
    } else {
      var e := events[0];
      OursFirst(config, events);
      OfferedFirst(config, st, events);
      OnlyOurs(config, After(config, st, e), events[1..]);
      if e.Got? {
        OursIsOffered(config, st, e.frame);
      }
    }
  }

  lemma OursFirst(config: LinkConfig, events: seq<Event>)
    requires events != [] && NoConfirmed(config, Frames(events))
    ensures var e, rest := events[0], Frames(events[1..]);
      && NoConfirmed(config, rest) && (e.Got? && ForUs(config, e.frame.fields) ==> e.frame.fields.func != 0x43)
      && AllCarried(Unconfirmed(config, Frames(events))) ==
           (if e.Got? && IsOurs(config, e.frame) then [Carried(e.frame)] else []) + AllCarried(Unconfirmed(config, rest))
  {
    hide ForUs, IsOurs, Unconfirmed, AllCarried, Carried;
    var e, rest := events[0], Frames(events[1..]);
    if e.Got? {
      assert Frames(events) == [e.frame] + rest;
      assert Frames(events)[0] == e.frame && forall i | 0 <= i < |rest| :: rest[i] == Frames(events)[i + 1];
      UnconfirmedFirst(config, e.frame, rest);
    } else {
      assert Frames(events) == rest;
    }
  }

  lemma UnconfirmedFirst(config: LinkConfig, f: Frame, rest: seq<Frame>)
    ensures AllCarried(Unconfirmed(config, [f] + rest)) ==
      (if IsOurs(config, f) then [Carried(f)] else []) + AllCarried(Unconfirmed(config, rest))
  {
    hide IsOurs, Carried;
    assert ([f] + rest)[1..] == rest;
    var more := Unconfirmed(config, rest);
    assert AllCarried([f] + more) == [Carried(f)] + AllCarried(more);
  }

  lemma NothingOffered(config: LinkConfig, st: Station)
    ensures Offered(Inputs(config, st, [])) == [] && AllCarried(Unconfirmed(config, Frames([]))) == []
  {
  }

  lemma {:induction false} InputsAreConsistent(config: LinkConfig, st: Station, events: seq<Event>)
    ensures Consistent(Inputs(config, st, events), st.online)
    decreases |events|
  {
    if events != [] {
      InputsAreConsistent(config, After(config, st, events[0]), events[1..]);
      var xs := Inputs(config, st, events);
      assert xs[1..] == Inputs(config, After(config, st, events[0]), events[1..]);
    }
  }

  /** While the layer is offline the transport function holds nothing. */
  lemma {:induction false} OfflineHoldsNothing(config: LinkConfig, st: Station, max: nat, r: Rx, events: seq<Event>)
    requires !st.online ==> r.held == []
    ensures !Run(config, st, events).online ==> TakeAll(max, r, Inputs(config, st, events)).0.held == []
    decreases |events|
  {
    hide Receive;
    if events != [] {
      var xs := Inputs(config, st, events);
      assert xs[1..] == Inputs(config, After(config, st, events[0]), events[1..]);
      OfflineHoldsNothing(config, After(config, st, events[0]), max, Take(max, r, xs[0]).0, events[1..]);
    }
  }

  /** The frames a sender makes for a fragment are well formed, and all of them are for the peer. */
  lemma SenderSpeaks(config: LinkConfig, x: Fields, seqNum: nat, apdu: seq<Octet>)
    requires ForUs(config, x) && x.func == 0x44 && !x.fcvdfc && seqNum < MODULUS
    ensures var frames := UserFrames(x, Segments(seqNum, true, apdu));
      && AllWellFormed(frames) && NoConfirmed(config, frames) && Unconfirmed(config, frames) == frames
      && Carry(frames, Addresses(x.src, x.dest), Segments(seqNum, true, apdu))
  {
    hide Segments;
    AllOurs(config, x, Segments(seqNum, true, apdu));
  }

  lemma {:induction false} AllOurs(config: LinkConfig, x: Fields, segs: seq<seq<Octet>>)
    requires ForUs(config, x) && x.func == 0x44
    ensures Unconfirmed(config, UserFrames(x, segs)) == UserFrames(x, segs)
    decreases |segs|
  {
    if segs != [] {
      AllOurs(config, x, segs[1..]);
      assert UserFrames(x, segs)[1..] == UserFrames(x, segs[1..]);
      assert UserFrames(x, segs) == [Frame(x, segs[0])] + UserFrames(x, segs[1..]);
    }
  }

  /** The unconfirmed service over a line shared with others, from the octets on the line to the application: the fragment
      arrives if and only if it fits, the layer is online for each of its frames, and it does not go down between them. */
  lemma UnconfirmedArrives(config: LinkConfig, st: Station, x: Fields, seqNum: nat, apdu: seq<Octet>, max: nat, r: Rx,
                           frames: seq<Frame>, events: seq<Event>)
    requires ForUs(config, x) && x.func == 0x44 && !x.fcvdfc && seqNum < MODULUS && apdu != []
    requires AllWellFormed(frames) && NoConfirmed(config, frames)
    requires Unconfirmed(config, frames) == UserFrames(x, Segments(seqNum, true, apdu))
    requires Frames(events) == Deframe(FormatAll(frames)) && (!st.online ==> r.held == [])
    ensures var xs := Inputs(config, st, events);
      Passed(config, st, max, r, events) ==
        if |apdu| <= max && MissedNone(xs) && !Cut(xs) then [Message(Addresses(x.src, x.dest), apdu)] else []
  {
    hide Deframe, FormatAll, AllWellFormed, Segments, Frames, Inputs, Unconfirmed, TakeAll, Consistent, Offered, Cut;
    hide MissedNone, AllCarried, NoConfirmed;
    StreamRoundTrip(frames, []);
    DeframeOfNothing();
    assert FormatAll(frames) + [] == FormatAll(frames) && frames + [] == frames;
    OnlyOurs(config, st, events);
    SenderSpeaks(config, x, seqNum, apdu);
    InputsAreConsistent(config, st, events);
    FragmentTaken(max, r, st.online, Addresses(x.src, x.dest), seqNum, apdu, Inputs(config, st, events));
  }

  lemma DeframeOfNothing()
    ensures Deframe([]) == []
  {
  }

  /** The layer goes down and up again between the two segments of a fragment that fits, and nothing of it arrives. */
  lemma LostBetweenSegments(config: LinkConfig, x: Fields, seqNum: nat, apdu: seq<Octet>, max: nat, r: Rx)
    requires ForUs(config, x) && x.func == 0x44 && seqNum < MODULUS && MAX_PAYLOAD < |apdu| <= 2 * MAX_PAYLOAD && |apdu| <= max
    requires r.held == []
    ensures var frames := UserFrames(x, Segments(seqNum, true, apdu));
      |frames| == 2 && Passed(config, NEW, max, r, [Up, Got(frames[0]), Down, Up, Got(frames[1])]) == []
  {
    hide Header, TakeAll;
    var segs := Segments(seqNum, true, apdu);
    SegmentsStep(Next(seqNum), false, apdu[MAX_PAYLOAD..]);
    var a, frames := Addresses(x.src, x.dest), UserFrames(x, segs);
    assert Segments(Next(seqNum), false, apdu[MAX_PAYLOAD..]) == segs[1..];
    var xs := TwoHalves(config, frames[0], frames[1]);
    assert Addressed(a, segs) == [xs[1].m, xs[4].m];
    FragmentTaken(max, r, false, a, seqNum, apdu, xs);
  }

  lemma TwoHalves(config: LinkConfig, f: Frame, g: Frame) returns (xs: seq<Input>)
    requires IsOurs(config, f) && IsOurs(config, g)
    ensures xs == Inputs(config, NEW, [Up, Got(f), Down, Up, Got(g)])
    ensures xs == [Raised, Data(Carried(f)), Lowered, Raised, Data(Carried(g))]
    ensures Offered(xs) == [Carried(f), Carried(g)] && Consistent(xs, false) && Cut(xs)
  {
    var up := Station(true, NotReset, false, false);
    var x, y := Data(Carried(f)), Data(Carried(g));
    assert [Up, Got(f), Down, Up, Got(g)] == [Up] + ([Got(f)] + ([Down] + ([Up] + [Got(g)])));
    FirstInput(config, NEW, Up, [Got(f)] + ([Down] + ([Up] + [Got(g)])));
    FirstInput(config, up, Got(f), [Down] + ([Up] + [Got(g)]));
    FirstInput(config, up, Down, [Up] + [Got(g)]);
    FirstInput(config, NEW, Up, [Got(g)]);
    FirstInput(config, up, Got(g), []);
    xs := [Raised, x, Lowered, Raised, y];
    assert xs == [Raised] + ([x] + ([Lowered] + ([Raised] + ([y] + []))));
    FirstOffer(Raised, [x] + ([Lowered] + ([Raised] + ([y] + []))), false);
    FirstOffer(x, [Lowered] + ([Raised] + ([y] + [])), true);
    FirstOffer(Lowered, [Raised] + ([y] + []), true);
    FirstOffer(Raised, [y] + [], false);
    FirstOffer(y, [], true);
    assert xs[1].Data? && xs[2].Lowered? && xs[4].Data?;
  }

  lemma FirstInput(config: LinkConfig, st: Station, e: Event, rest: seq<Event>)
    ensures Inputs(config, st, [e] + rest) == [InputOf(config, st, e)] + Inputs(config, After(config, st, e), rest)
  {
    assert ([e] + rest)[1..] == rest;
  }

  lemma FirstOffer(x: Input, rest: seq<Input>, online: bool)
    ensures Offered([x] + rest) == (if x.Data? || x.Missed? then [x.m] else []) + Offered(rest)
    ensures !x.Missed? ==>
      Consistent([x] + rest, online) == Consistent(rest, !x.Lowered? && (x.Data? || x.Raised? || online))
  {
    assert ([x] + rest)[1..] == rest;
  }
}
