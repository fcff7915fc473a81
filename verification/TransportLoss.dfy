/** Segments that are lost, repeated or reordered on the way, and fragments that are abandoned.

    The receiver of cpp/lib/src/transport/TransportRx.cpp tells segments apart by six bits. The reference here is a
    receiver that knows each segment's place in the whole history of the sender. The two are proved to stay together
    exactly as long as no segment from the sender of the fragment in hand arrives that is not the one due and carries
    its number. */
module TransportLoss {
  import opened Wrappers
  import opened Crc
  import opened Transport

  // ---------------------------------------------------------------- the sender's history

  type Number = n: nat | n < MODULUS

  datatype Piece = Piece(addresses: Addresses, fir: bool, fin: bool, num: Number, body: seq<Octet>)

  function Pieces(a: Addresses, num: Number, fir: bool, payload: seq<Octet>): (ps: seq<Piece>)
    ensures |ps| >= 1
    decreases |payload|
  {
    if |payload| <= MAX_PAYLOAD then [Piece(a, fir, true, num, payload)]
    else [Piece(a, fir, false, num, payload[..MAX_PAYLOAD])] + Pieces(a, Next(num), false, payload[MAX_PAYLOAD..])
  }

  /** A segment as it travels. */
  function Wire(p: Piece): Message { Message(p.addresses, [Header(p.fir, p.fin, p.num)] + p.body) }

  /** The transmitter's segments are the pieces. */
  lemma {:induction false} SegmentsAreWired(a: Addresses, num: Number, fir: bool, payload: seq<Octet>, k: nat)
    requires k < |Pieces(a, num, fir, payload)|
    ensures |Segments(num, fir, payload)| == |Pieces(a, num, fir, payload)|
    ensures Message(a, Segments(num, fir, payload)[k]) == Wire(Pieces(a, num, fir, payload)[k])
    decreases |payload|
  {
    hide Header, Next;
    if |payload| > MAX_PAYLOAD {
      SegmentsAreWired(a, Next(num), false, payload[MAX_PAYLOAD..], if k == 0 then 0 else k - 1);
    }
  }

  /** A message of which the first `sent` segments went out. The link layer reports each with Advance; when the layer
      goes down the report of the last one may be missing, and its number is used again. */
  datatype Attempt = Attempt(message: Message, sent: nat, reported: nat)

  function Whole(m: Message): nat { |Pieces(m.addresses, 0, true, m.payload)| }

  predicate Sendable(attempts: seq<Attempt>) {
    forall i | 0 <= i < |attempts| ::
      var x := attempts[i];
      x.message.payload != [] && x.sent <= Whole(x.message) && x.reported <= x.sent <= x.reported + 1
  }

  lemma {:induction false} WholeAt(a: Addresses, num: Number, fir: bool, payload: seq<Octet>)
    ensures |Pieces(a, num, fir, payload)| == |Pieces(a, 0, true, payload)|
    decreases |payload|
  {
    if |payload| > MAX_PAYLOAD {
      WholeAt(a, Next(num), false, payload[MAX_PAYLOAD..]);
      WholeAt(a, Next(0), false, payload[MAX_PAYLOAD..]);
    }
  }

  /** Every segment of every fragment, in the order they are sent, from number num on. */
  function History(num: Number, attempts: seq<Attempt>): seq<Piece>
    requires Sendable(attempts)
    decreases |attempts|
  {
    if attempts == [] then []
    else
      var x := attempts[0];
      WholeAt(x.message.addresses, num, true, x.message.payload);
      Pieces(x.message.addresses, num, true, x.message.payload)[..x.sent]
      + History((num + x.reported) % MODULUS, attempts[1..])
  }

  predicate OrderlyAt(sent: seq<Piece>, i: nat)
    requires i < |sent|
  {
    sent[i].body != [] &&
    (!sent[i].fir ==>
       && i > 0 && !sent[i - 1].fin
       && sent[i].addresses == sent[i - 1].addresses && sent[i].num == Next(sent[i - 1].num))
  }

  /** A segment that does not start a fragment continues the one before it. */
  predicate Orderly(sent: seq<Piece>) { forall i | 0 <= i < |sent| :: OrderlyAt(sent, i) }

  predicate ShapedAt(ps: seq<Piece>, a: Addresses, num: Number, fir: bool, i: nat)
    requires i < |ps|
  {
    && ps[i].body != [] && ps[i].addresses == a && ps[i].num == (num + i) % MODULUS
    && (ps[i].fir <==> fir && i == 0) && (ps[i].fin <==> i == |ps| - 1)
  }

  lemma {:induction false} PiecesShape(a: Addresses, num: Number, fir: bool, payload: seq<Octet>, i: nat)
    requires payload != [] && i < |Pieces(a, num, fir, payload)|
    ensures ShapedAt(Pieces(a, num, fir, payload), a, num, fir, i)
    decreases |payload|
  {
    if |payload| > MAX_PAYLOAD && i > 0 {
      PiecesShape(a, Next(num), false, payload[MAX_PAYLOAD..], i - 1);
      assert (Next(num) + (i - 1)) % MODULUS == (num + i) % MODULUS;
    }
  }

  lemma FrontIsOrderly(a: Addresses, num: Number, payload: seq<Octet>, i: nat)
    requires payload != [] && i < |Pieces(a, num, true, payload)|
    ensures OrderlyAt(Pieces(a, num, true, payload), i)
  {
    hide Pieces;
    PiecesShape(a, num, true, payload, i);
    if i > 0 {
      PiecesShape(a, num, true, payload, i - 1);
      NextPlace(num, i - 1);
    }
  }

  lemma {:induction false} HistoryIsOrderly(num: Number, attempts: seq<Attempt>)
    requires Sendable(attempts)
    ensures Orderly(History(num, attempts))
    decreases |attempts|
  {
    hide Pieces;
    if attempts != [] {
      var x, rest := attempts[0], attempts[1..];
      var m := x.message;
      HistoryIsOrderly((num + x.reported) % MODULUS, rest);
      var ps, hs := Pieces(m.addresses, num, true, m.payload), History((num + x.reported) % MODULUS, rest);
      WholeAt(m.addresses, num, true, m.payload);
      var h := ps[..x.sent] + hs;
      forall i | 0 <= i < |h| ensures OrderlyAt(h, i) {
        if i < x.sent {
          FrontIsOrderly(m.addresses, num, m.payload, i);
          assert h[i] == ps[i] && (i > 0 ==> h[i - 1] == ps[i - 1]);
        } else {
          var k := i - x.sent;
          assert OrderlyAt(hs, k) && h[i] == hs[k] && (k > 0 ==> h[i - 1] == hs[k - 1]);
        }
      }
    }
  }

  // ---------------------------------------------------------------- a receiver that cannot be confused

  datatype Ideal = Idle | Holding(first: nat, next: nat)

  function Bodies(sent: seq<Piece>, f: nat, e: nat): seq<Octet>
    requires f <= e <= |sent|
    decreases e
  {
    if f == e then [] else Bodies(sent, f, e - 1) + sent[e - 1].body
  }

  /** Segment i joins the segments from f on. */
  function Taken(sent: seq<Piece>, max: nat, f: nat, i: nat): (Ideal, Option<(nat, nat)>)
    requires f <= i < |sent|
  {
    if |Bodies(sent, f, i + 1)| > max then (Idle, None)
    else if sent[i].fin then (Idle, Some((f, i + 1)))
    else (Holding(f, i + 1), None)
  }

  /** The second part is the run of segments delivered as one fragment, if any. */
  function IdealStep(sent: seq<Piece>, max: nat, d: Ideal, i: nat): (Ideal, Option<(nat, nat)>)
    requires i < |sent| && (d.Holding? ==> d.first < d.next)
  {
    if sent[i].fir then Taken(sent, max, i, i)
    else if d.Holding? && i == d.next then Taken(sent, max, d.first, i)
    else (d, None)
  }

  /** Segments f up to e are the front of one fragment, unfinished. */
  ghost predicate Front(sent: seq<Piece>, f: nat, e: nat) {
    && f < e <= |sent| && sent[f].fir
    && (forall k | f < k < e :: !sent[k].fir) && (forall k | f <= k < e :: !sent[k].fin)
  }

  /** What the reference receiver knows, the real one holds. */
  ghost predicate Mirrors(sent: seq<Piece>, d: Ideal, r: Rx) {
    match d
    case Idle => r.held == []
    case Holding(f, e) =>
      Front(sent, f, e) && r.held == Bodies(sent, f, e) && r.expected == Next(sent[e - 1].num) && r.last == sent[f].addresses
  }

  /** Not the segment due, but from the same sender and with its number. */
  predicate Mistaken(sent: seq<Piece>, d: Ideal, i: nat)
    requires i < |sent|
  {
    d.Holding? && d.first < d.next <= |sent| && !sent[i].fir && i != d.next &&
    sent[i].num == Next(sent[d.next - 1].num) && sent[i].addresses == sent[d.first].addresses
  }

  function Fragment(sent: seq<Piece>, run: Option<(nat, nat)>): Message
    requires run.Some? ==> run.value.0 < run.value.1 <= |sent|
  {
    match run
    case None => NOTHING
    case Some((f, e)) => Message(sent[f].addresses, Bodies(sent, f, e))
  }

  lemma {:induction false} SameSender(sent: seq<Piece>, f: nat, e: nat)
    requires Orderly(sent) && f <= e < |sent| && forall k | f < k <= e :: !sent[k].fir
    ensures sent[e].addresses == sent[f].addresses
    decreases e
  {
    if f < e {
      assert OrderlyAt(sent, e);
      SameSender(sent, f, e - 1);
    }
  }

  lemma BodiesNotEmpty(sent: seq<Piece>, f: nat, e: nat)
    requires Orderly(sent) && f < e <= |sent|
    ensures Bodies(sent, f, e) != []
  {
    assert OrderlyAt(sent, e - 1);
  }

  /** A segment that starts a fragment or continues the one held is taken by both. */
  lemma TakenAlike(sent: seq<Piece>, max: nat, f: nat, i: nat, r: Rx)
    requires Orderly(sent) && f <= i < |sent| && sent[f].fir && (sent[i].fir <==> f == i)
    requires f == i || Mirrors(sent, Holding(f, i), r)
    ensures var (d', run) := Taken(sent, max, f, i);
      var (r', m) := Receive(max, r, Wire(sent[i]));
      Mirrors(sent, d', r') && m == Fragment(sent, run)
  {
    hide Receive, Header, Orderly;
    var p := sent[i];
    SameSender(sent, f, i);
    if f == i {
      assert Bodies(sent, f, i) == [];
    } else {
      BodiesNotEmpty(sent, f, i);
      NumberRunsOn(sent, i);
    }
    ReceiveOne(max, r, p.addresses, p.fir, p.fin, p.num, p.body);
    assert Bodies(sent, f, i + 1) == Bodies(sent, f, i) + p.body;
  }

  lemma NumberRunsOn(sent: seq<Piece>, i: nat)
    requires Orderly(sent) && i < |sent| && !sent[i].fir
    ensures i > 0 && sent[i].num == Next(sent[i - 1].num)
  {
    assert OrderlyAt(sent, i);
  }

  /** A segment that is not the one due is ignored unless it is mistaken for it. */
  lemma StrayIsIgnoredIff(sent: seq<Piece>, max: nat, d: Ideal, r: Rx, i: nat)
    requires Orderly(sent) && Mirrors(sent, d, r) && i < |sent| && d.Holding?
    requires !sent[i].fir && i != d.next
    ensures var (r', m) := Receive(max, r, Wire(sent[i]));
      if Mistaken(sent, d, i) then r'.held != r.held else r' == r && m == NOTHING
  {
    hide Header, Bodies, SeqOf, Fir, Fin, Orderly, Next;
    var p := sent[i];
    var m := Wire(p);
    Transport.HeaderReads(p.fir, p.fin, p.num);
    BodiesNotEmpty(sent, d.first, d.next);
    assert m.payload[0] == Header(p.fir, p.fin, p.num) && m.payload[1..] == p.body;
    BodyNotEmpty(sent, i);
    if p.num == r.expected && p.addresses == r.last {
      assert |r.held + p.body| > |r.held|;
    }
  }

  lemma BodyNotEmpty(sent: seq<Piece>, i: nat)
    requires Orderly(sent) && i < |sent|
    ensures sent[i].body != []
  {
    assert OrderlyAt(sent, i);
  }

  /** One arrival: the receiver still holds what the reference knows if and only if the segment was not mistaken, and
      then both deliver the same. */
  lemma StepAgreesIff(sent: seq<Piece>, max: nat, d: Ideal, r: Rx, i: nat)
    requires Orderly(sent) && Mirrors(sent, d, r) && i < |sent|
    ensures var (d', run) := IdealStep(sent, max, d, i);
      var (r', m) := Receive(max, r, Wire(sent[i]));
      (Mirrors(sent, d', r') <==> !Mistaken(sent, d, i)) && (!Mistaken(sent, d, i) ==> m == Fragment(sent, run))
  {
    hide Header, Orderly, Bodies, Taken, SeqOf, Fir, Fin;
    var p := sent[i];
    if p.fir {
      TakenAlike(sent, max, i, i, r);
    } else if d.Holding? && i == d.next {
      TakenAlike(sent, max, d.first, i, r);
    } else if d.Holding? {
      hide Receive;
      StrayIsIgnoredIff(sent, max, d, r, i);
    } else {
      var m := Wire(p);
      HeaderReads(p.fir, p.fin, p.num);
      assert m.payload[0] == Header(p.fir, p.fin, p.num);
    }
  }

  // ---------------------------------------------------------------- whole runs

  /** Between arrivals the reference receiver holds the front of one fragment. */
  ghost predicate Holds(sent: seq<Piece>, d: Ideal) {
    d.Holding? ==> d.first < d.next && Front(sent, d.first, d.next)
  }

  /** A run of segments that is one fragment, from its FIR to its FIN. */
  ghost predicate WholeRun(sent: seq<Piece>, run: (nat, nat)) {
    run.0 < run.1 <= |sent| && sent[run.0].fir && sent[run.1 - 1].fin && forall k | run.0 < k < run.1 :: !sent[k].fir
  }

  lemma IdealKeeps(sent: seq<Piece>, max: nat, d: Ideal, i: nat)
    requires Orderly(sent) && Holds(sent, d) && i < |sent|
    ensures var (d', run) := IdealStep(sent, max, d, i);
      Holds(sent, d') && (run.Some? ==> WholeRun(sent, run.value))
  {
    hide Orderly, Bodies;
  }

  /** Any segments, in any order, any number of times. */
  predicate Arriving(sent: seq<Piece>, arrivals: seq<nat>) { forall k | 0 <= k < |arrivals| :: arrivals[k] < |sent| }

  ghost predicate AllWhole(sent: seq<Piece>, runs: seq<(nat, nat)>) { forall k | 0 <= k < |runs| :: WholeRun(sent, runs[k]) }

  ghost function IdealRuns(sent: seq<Piece>, max: nat, d: Ideal, arrivals: seq<nat>): (runs: seq<(nat, nat)>)
    requires Orderly(sent) && Holds(sent, d) && Arriving(sent, arrivals)
    ensures AllWhole(sent, runs)
    decreases |arrivals|
  {
    if arrivals == [] then []
    else
      IdealKeeps(sent, max, d, arrivals[0]);
      var (d', run) := IdealStep(sent, max, d, arrivals[0]);
      (if run.Some? then [run.value] else []) + IdealRuns(sent, max, d', arrivals[1..])
  }

  /** No arrival is mistaken for the segment due. */
  ghost predicate NeverMistaken(sent: seq<Piece>, max: nat, d: Ideal, arrivals: seq<nat>)
    requires Orderly(sent) && Holds(sent, d) && Arriving(sent, arrivals)
    decreases |arrivals|
  {
    arrivals == [] || (
      IdealKeeps(sent, max, d, arrivals[0]);
      !Mistaken(sent, d, arrivals[0]) &&
      NeverMistaken(sent, max, IdealStep(sent, max, d, arrivals[0]).0, arrivals[1..]))
  }

  /** After every arrival the receiver holds what the reference knows. */
  ghost predicate StayTogether(sent: seq<Piece>, max: nat, d: Ideal, r: Rx, arrivals: seq<nat>)
    requires Orderly(sent) && Holds(sent, d) && Arriving(sent, arrivals)
    decreases |arrivals|
  {
    Mirrors(sent, d, r) && (arrivals == [] || (
      IdealKeeps(sent, max, d, arrivals[0]);
      var i := arrivals[0];
      StayTogether(sent, max, IdealStep(sent, max, d, i).0, Receive(max, r, Wire(sent[i])).0, arrivals[1..])))
  }

  /** Receiver and reference stay together through a run, whatever is lost, repeated or reordered, if and only if no
      arrival is mistaken for the segment due. */
  lemma {:induction false} TogetherIff(sent: seq<Piece>, max: nat, d: Ideal, r: Rx, arrivals: seq<nat>)
    requires Orderly(sent) && Holds(sent, d) && Mirrors(sent, d, r) && Arriving(sent, arrivals)
    ensures StayTogether(sent, max, d, r, arrivals) <==> NeverMistaken(sent, max, d, arrivals)
    decreases |arrivals|
  {
    hide Orderly, Mirrors, IdealStep, Receive, Wire, Mistaken, Bodies;
    if arrivals != [] {
      var i := arrivals[0];
      IdealKeeps(sent, max, d, i);
      StepAgreesIff(sent, max, d, r, i);
      if !Mistaken(sent, d, i) {
        TogetherIff(sent, max, IdealStep(sent, max, d, i).0, Receive(max, r, Wire(sent[i])).0, arrivals[1..]);
      }
    }
  }

  function Wires(sent: seq<Piece>, arrivals: seq<nat>): seq<Message>
    requires Arriving(sent, arrivals)
  {
    seq(|arrivals|, k requires 0 <= k < |arrivals| => Wire(sent[arrivals[k]]))
  }

  ghost function Fragments(sent: seq<Piece>, runs: seq<(nat, nat)>): seq<Message>
    requires AllWhole(sent, runs)
  {
    seq(|runs|, k requires 0 <= k < |runs| => Fragment(sent, Some(runs[k])))
  }

  /** Then the receiver delivers what the reference delivers. */
  lemma {:induction false} RunAgrees(sent: seq<Piece>, max: nat, d: Ideal, r: Rx, arrivals: seq<nat>)
    requires Orderly(sent) && Holds(sent, d) && Mirrors(sent, d, r) && Arriving(sent, arrivals)
    requires NeverMistaken(sent, max, d, arrivals)
    ensures ReceiveAll(max, r, Wires(sent, arrivals)).1 == Fragments(sent, IdealRuns(sent, max, d, arrivals))
    decreases |arrivals|
  {
    hide Orderly, Mirrors, IdealStep, Receive, Wire, WholeRun, Bodies, Front, Mistaken;
    if arrivals == [] {
    } else {
      var i, rest := arrivals[0], arrivals[1..];
      IdealKeeps(sent, max, d, i);
      StepAgreesIff(sent, max, d, r, i);
      var (d', run) := IdealStep(sent, max, d, i);
      var (r', m) := Receive(max, r, Wire(sent[i]));
      RunAgrees(sent, max, d', r', rest);
      assert Wires(sent, arrivals)[0] == Wire(sent[i]);
      assert Wires(sent, arrivals)[1..] == Wires(sent, rest);
      var runs := IdealRuns(sent, max, d', rest);
      if run.Some? {
        WholeIsPassedUp(sent, run.value);
        assert [run.value] + runs == IdealRuns(sent, max, d, arrivals);
        assert Fragments(sent, [run.value] + runs) == [m] + Fragments(sent, runs);
      } else {
        assert [] + runs == IdealRuns(sent, max, d, arrivals);
      }
    }
  }

  lemma WholeIsPassedUp(sent: seq<Piece>, run: (nat, nat))
    requires Orderly(sent) && WholeRun(sent, run)
    ensures run.0 < run.1 <= |sent| && PassedUp(Fragment(sent, Some(run))) == [Fragment(sent, Some(run))]
  {
    hide Orderly;
    BodiesNotEmpty(sent, run.0, run.1);
  }

  // ---------------------------------------------------------------- runs are fragments

  lemma {:induction false} BodiesFront(sent: seq<Piece>, f: nat, e: nat)
    requires f < e <= |sent|
    ensures Bodies(sent, f, e) == sent[f].body + Bodies(sent, f + 1, e)
    decreases e
  {
    if f + 1 < e {
      BodiesFront(sent, f, e - 1);
    }
  }

  lemma {:induction false} BodiesShift(before: seq<Piece>, sent: seq<Piece>, f: nat, e: nat)
    requires f <= e <= |sent|
    ensures Bodies(before + sent, |before| + f, |before| + e) == Bodies(sent, f, e)
    decreases e
  {
    if f < e {
      BodiesShift(before, sent, f, e - 1);
    }
  }

  lemma {:induction false} BodiesPrefix(sent: seq<Piece>, after: seq<Piece>, f: nat, e: nat)
    requires f <= e <= |sent|
    ensures Bodies(sent + after, f, e) == Bodies(sent, f, e)
    decreases e
  {
    if f < e {
      BodiesPrefix(sent, after, f, e - 1);
    }
  }

  lemma {:induction false} PiecesJoin(a: Addresses, num: Number, fir: bool, payload: seq<Octet>)
    ensures var ps := Pieces(a, num, fir, payload); Bodies(ps, 0, |ps|) == payload
    decreases |payload|
  {
    hide Next;
    var ps := Pieces(a, num, fir, payload);
    BodiesFront(ps, 0, |ps|);
    if |payload| <= MAX_PAYLOAD {
      assert Bodies(ps, 1, 1) == [];
    } else {
      var rest := Pieces(a, Next(num), false, payload[MAX_PAYLOAD..]);
      PiecesJoin(a, Next(num), false, payload[MAX_PAYLOAD..]);
      BodiesShift(ps[..1], rest, 0, |rest|);
      assert ps == ps[..1] + rest;
    }
  }

  /** The sender sent all of m. */
  ghost predicate SentWhole(attempts: seq<Attempt>, m: Message) {
    exists i | 0 <= i < |attempts| :: attempts[i].message == m && attempts[i].sent == Whole(m)
  }

  lemma {:induction false} WholeIsSent(num: Number, attempts: seq<Attempt>, run: (nat, nat))
    requires Sendable(attempts) && WholeRun(History(num, attempts), run)
    ensures SentWhole(attempts, Fragment(History(num, attempts), Some(run)))
    decreases |attempts|
  {
    hide Bodies, Pieces, Whole;
    var x, rest := attempts[0], attempts[1..];
    var num' := (num + x.reported) % MODULUS;
    var ps, hs := FirstPieces(num, attempts), History(num', rest);
    var h := History(num, attempts);
    var (f, e) := run;
    if f < x.sent {
      HistoryIsOrderly(num', rest);
      StartsFresh(ps[..x.sent], hs, f, e);
      FirstWhole(num, attempts, run);
      assert attempts[0].message == x.message;
    } else {
      var run' := (f - x.sent, e - x.sent);
      forall k | run'.0 < k < run'.1 ensures !hs[k].fir {
        assert hs[k] == h[k + x.sent];
      }
      assert hs[run'.0] == h[f] && hs[run'.1 - 1] == h[e - 1];
      WholeIsSent(num', rest, run');
      BodiesShift(ps[..x.sent], hs, run'.0, run'.1);
      var m := Fragment(h, Some(run));
      var i :| 0 <= i < |rest| && rest[i].message == m && rest[i].sent == Whole(m);
      assert attempts[i + 1] == rest[i];
    }
  }

  function FirstPieces(num: Number, attempts: seq<Attempt>): (ps: seq<Piece>)
    requires Sendable(attempts) && attempts != []
    ensures |ps| == Whole(attempts[0].message) && attempts[0].sent <= |ps|
    ensures History(num, attempts) ==
      ps[..attempts[0].sent] + History((num + attempts[0].reported) % MODULUS, attempts[1..])
  {
    var m := attempts[0].message;
    WholeAt(m.addresses, num, true, m.payload);
    Pieces(m.addresses, num, true, m.payload)
  }

  /** A run that starts in the front does not reach beyond it: what follows starts with a FIR. */
  lemma StartsFresh(front: seq<Piece>, hs: seq<Piece>, f: nat, e: nat)
    requires Orderly(hs) && WholeRun(front + hs, (f, e)) && f < |front|
    ensures e <= |front|
  {
    assert hs != [] ==> OrderlyAt(hs, 0) && (front + hs)[|front|] == hs[0];
  }

  /** A run that is one fragment, within the segments of the first attempt, is all of its message. */
  lemma FirstWhole(num: Number, attempts: seq<Attempt>, run: (nat, nat))
    requires Sendable(attempts) && attempts != [] && WholeRun(History(num, attempts), run) && run.1 <= attempts[0].sent
    ensures attempts[0].sent == Whole(attempts[0].message)
    ensures Fragment(History(num, attempts), Some(run)) == attempts[0].message
  {
    hide Bodies, Pieces;
    var x := attempts[0];
    var m := x.message;
    var ps, hs := FirstPieces(num, attempts), History((num + x.reported) % MODULUS, attempts[1..]);
    var h := History(num, attempts);
    var (f, e) := run;
    PiecesShape(m.addresses, num, true, m.payload, f);
    PiecesShape(m.addresses, num, true, m.payload, e - 1);
    assert h[f] == ps[f] && h[e - 1] == ps[e - 1];
    assert f == 0 && e == |ps| == x.sent;
    assert ps[..x.sent] == ps;
    BodiesPrefix(ps, hs, 0, |ps|);
    PiecesJoin(m.addresses, num, true, m.payload);
  }

  ghost predicate NoneMistaken(num: Number, attempts: seq<Attempt>, max: nat, arrivals: seq<nat>)
    requires Sendable(attempts) && Arriving(History(num, attempts), arrivals)
  {
    HistoryIsOrderly(num, attempts);
    NeverMistaken(History(num, attempts), max, Idle, arrivals)
  }

  /** Every fragment passed up is one the sender sent to its end, complete and unmixed. */
  lemma NothingIsInvented(num: Number, attempts: seq<Attempt>, max: nat, r: Rx, arrivals: seq<nat>)
    requires Sendable(attempts) && Arriving(History(num, attempts), arrivals)
    requires r.held == [] && NoneMistaken(num, attempts, max, arrivals)
    ensures forall m | m in ReceiveAll(max, r, Wires(History(num, attempts), arrivals)).1 :: SentWhole(attempts, m)
  {
    hide ReceiveAll, Wires, Orderly, IdealRuns, NeverMistaken, SentWhole, History;
    HistoryIsOrderly(num, attempts);
    var sent := History(num, attempts);
    var runs := IdealRuns(sent, max, Idle, arrivals);
    RunAgrees(sent, max, Idle, r, arrivals);
    forall m | m in Fragments(sent, runs) ensures SentWhole(attempts, m) {
      var k :| 0 <= k < |runs| && m == Fragments(sent, runs)[k];
      WholeIsSent(num, attempts, runs[k]);
    }
  }

  // ---------------------------------------------------------------- mistaken for the segment due

  /** The numbers run on through the history: no report of a segment was missing. */
  predicate RunsOn(sent: seq<Piece>) { forall i | 0 < i < |sent| :: sent[i].num == Next(sent[i - 1].num) }

  lemma {:induction false} NumberAt(sent: seq<Piece>, i: nat)
    requires RunsOn(sent) && i < |sent|
    ensures sent[i].num == (sent[0].num + i) % MODULUS
  {
    if i > 0 {
      NumberAt(sent, i - 1);
      NextPlace(sent[0].num, i - 1);
    }
  }

  /** Then the numbers are the same exactly a multiple of 64 places away. */
  lemma MistakenIff(sent: seq<Piece>, d: Ideal, i: nat)
    requires RunsOn(sent) && i < |sent| && d.Holding? && d.first < d.next <= |sent|
    ensures Mistaken(sent, d, i) <==>
      !sent[i].fir && i != d.next && (i - d.next) % MODULUS == 0 && sent[i].addresses == sent[d.first].addresses
  {
    hide RunsOn;
    NumberAt(sent, i);
    NumberAt(sent, d.next - 1);
    NextPlace(sent[0].num, d.next - 1);
    CongruentIff(sent[0].num, i, d.next);
  }

  lemma CongruentIff(start: nat, i: nat, e: nat)
    ensures (start + i) % MODULUS == (start + e) % MODULUS <==> (i - e) % MODULUS == 0
  {
  }

  lemma {:induction false} PieceBodies(a: Addresses, num: Number, fir: bool, payload: seq<Octet>, k: nat)
    requires payload != [] && k < |Pieces(a, num, fir, payload)|
    ensures 1 <= |Pieces(a, num, fir, payload)[k].body| <= MAX_PAYLOAD
    decreases |payload|
  {
    if |payload| > MAX_PAYLOAD && k > 0 {
      PieceBodies(a, Next(num), false, payload[MAX_PAYLOAD..], k - 1);
    }
  }

  /** 64 places away the receiver is fooled: of a fragment of 67 segments all but the first and the last two
      are lost, and what is passed up was never sent. */
  lemma SequenceWrapMixes(a: Addresses, payload: seq<Octet>, num: Number, max: nat, r: Rx)
    requires |payload| > 3 * MAX_PAYLOAD && max >= 3 * MAX_PAYLOAD && |Pieces(a, num, true, payload)| == 67
    ensures var sent := Pieces(a, num, true, payload);
      exists m :: ReceiveAll(max, r, Wires(sent, [0, 65, 66])).1 == [m] && m.payload != payload
  {
    hide Receive, Header, Pieces;
    var sent := Pieces(a, num, true, payload);
    var x, y, z := sent[0], sent[65], sent[66];
    PiecesShape(a, num, true, payload, 0);
    PiecesShape(a, num, true, payload, 65);
    PiecesShape(a, num, true, payload, 66);
    PieceBodies(a, num, true, payload, 0);
    PieceBodies(a, num, true, payload, 65);
    PieceBodies(a, num, true, payload, 66);
    var ms := Wires(sent, [0, 65, 66]);
    assert ms == [Wire(x), Wire(y), Wire(z)];
    NextPlace(num, 0);
    NextPlace(num, 65);
    NextPlace(num, 66);
    assert (num + 1) % MODULUS == (num + 65) % MODULUS;
    ReceiveOne(max, r, a, true, false, x.num, x.body);
    assert [] + x.body == x.body;
    var r1 := Rx(x.body, (num + 1) % MODULUS, a);
    ReceiveOne(max, r1, a, false, false, y.num, y.body);
    var r2 := Rx(x.body + y.body, (num + 66) % MODULUS, a);
    ReceiveOne(max, r2, a, false, true, z.num, z.body);
    var m := Message(a, x.body + y.body + z.body);
    var r3 := Rx([], (num + 67) % MODULUS, a);
    assert PassedUp(NOTHING) == [] && PassedUp(m) == [m];
    ReceiveCons(max, r2, ms[2], []);
    assert ReceiveAll(max, r3, []) == (r3, []);
    ReceiveCons(max, r1, ms[1], [ms[2]]);
    ReceiveCons(max, r, ms[0], [ms[1], ms[2]]);
    assert ms == [ms[0]] + [ms[1], ms[2]] && [ms[1]] + [ms[2]] == [ms[1], ms[2]] && [ms[2]] + [] == [ms[2]];
    assert ReceiveAll(max, r, ms).1 == [m];
  }

  lemma ReceiveCons(max: nat, r: Rx, m: Message, rest: seq<Message>)
    ensures ReceiveAll(max, r, [m] + rest).1 ==
      PassedUp(Receive(max, r, m).1) + ReceiveAll(max, Receive(max, r, m).0, rest).1
  {
    hide Receive;
    assert ([m] + rest)[0] == m && ([m] + rest)[1..] == rest;
  }
}
