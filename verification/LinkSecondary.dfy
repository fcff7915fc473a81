/** The receiving side of the link layer: LinkContext::OnLowerLayerUp, OnLowerLayerDown, OnFrame and OnTxReady of
    cpp/lib/src/link/LinkContext.cpp and the secondary states of cpp/lib/src/link/SecLinkLayerStates.{h,cpp}. */
module LinkSecondary {
  import opened Crc
  import opened LinkFrame

  /** The parts of LinkConfig that decide which frames are taken. */
  datatype LinkConfig = LinkConfig(isMaster: bool, local: bv16, remote: bv16, anySource: bool)

  datatype State = NotReset | Reset | WaitNotReset | WaitReset

  /** `owed`: a reply of the secondary is queued or on its way out, so that its completion will be reported. */
  datatype Station = Station(online: bool, state: State, nextFcb: bool, owed: bool)

  /** As it is constructed. */
  const NEW := Station(false, NotReset, false, false)

  predicate IsBroadcast(address: bv16) { address >= 0xFFFD }

  /** The frame is for this station and from its peer. */
  predicate ForUs(config: LinkConfig, x: Fields) {
    x.fromMaster != config.isMaster && (x.dest == config.local || IsBroadcast(x.dest)) &&
    (x.src == config.remote || config.anySource) && (IsBroadcast(x.dest) ==> IsUserData(x.func))
  }

  function Replied(st: Station, next: State, fcb: bool): Station { Station(st.online, next, fcb, true) }

  /** OnFrame; the frame's data is pushed up when the second part says so. */
  function Handle(config: LinkConfig, st: Station, x: Fields): (Station, bool) {
    if !st.online || !ForUs(config, x) then (st, false)
    else if x.func == 0x44 then (st, true)
    else if st.state == WaitNotReset || st.state == WaitReset then (st, false)
    else if x.func == 0x40 then (Replied(st, WaitReset, true), false)
    else if x.func == 0x49 then (Replied(st, if st.state == Reset then WaitReset else WaitNotReset, st.nextFcb), false)
    else if st.state == NotReset then (st, false)
    else if x.func == 0x42 then
      if x.fcb == st.nextFcb then (Replied(st, WaitReset, !st.nextFcb), false) else (st, false)
    else if x.func == 0x43 then
      var pushed := x.fcb == st.nextFcb;
      (Station(st.online, WaitReset, if pushed then !st.nextFcb else st.nextFcb, !IsBroadcast(x.dest)), pushed)
    else (st, false)
  }

  /** A frame arrives, the transmission of a reply is complete, or the lower layer comes up or goes down. */
  datatype Event = Got(frame: Frame) | Sent | Up | Down

  function AfterSent(st: Station): Station {
    if !st.owed then st
    else
      var next := if st.state == WaitReset then Reset else if st.state == WaitNotReset then NotReset else st.state;
      Station(st.online, next, st.nextFcb, false)
  }

  function After(config: LinkConfig, st: Station, e: Event): Station {
    match e
    case Got(f) => Handle(config, st, f.fields).0
    case Sent => AfterSent(st)
    case Up => st.(online := true)
    case Down => if st.online then Station(false, NotReset, st.nextFcb, false) else st
  }

  function Pushed(config: LinkConfig, st: Station, e: Event): seq<Frame> {
    if e.Got? && Handle(config, st, e.frame.fields).1 then [e.frame] else []
  }

  // ---------------------------------------------------------------- the object

  class LinkContext {
    const config: LinkConfig
    var isOnline: bool
    var state: State
    var nextReadFCB: bool
    var secondaryTx: bool

    function View(): Station
      reads this
    {
      Station(isOnline, state, nextReadFCB, secondaryTx)
    }

    constructor (config: LinkConfig)
      ensures this.config == config && View() == NEW
    {
      this.config := config;
      isOnline, state, nextReadFCB, secondaryTx := false, NotReset, false, false;
    }

    method OnLowerLayerUp() returns (ok: bool)
      modifies this
      ensures ok == !old(isOnline) && View() == After(config, old(View()), Up)
    {
      if isOnline {
        return false;
      }
      isOnline := true;
      return true;
    }

    method OnLowerLayerDown() returns (ok: bool)
      modifies this
      ensures ok == old(isOnline) && View() == After(config, old(View()), Down)
    {
      if !isOnline {
        return false;
      }
      isOnline := false;
      secondaryTx := false;
      state := NotReset;
      return true;
    }

    /** A transmission of the secondary is complete; without one the callback is not for it. */
    method OnTxReady()
      modifies this
      ensures View() == AfterSent(old(View()))
    {
      if secondaryTx {
        secondaryTx := false;
        if state == WaitReset {
          state := Reset;
        } else if state == WaitNotReset {
          state := NotReset;
        }
      }
    }

    method OnResetLinkStates()
      requires state == NotReset || state == Reset
      modifies this
      ensures View() == Station(old(isOnline), WaitReset, true, true)
    {
      secondaryTx := true;
      nextReadFCB := true;
      state := WaitReset;
    }

    method OnConfirmedUserData(fcb: bool, isBroadcast: bool) returns (pushed: bool)
      requires state == Reset && !secondaryTx
      modifies this
      ensures pushed == (fcb == old(nextReadFCB))
      ensures View() == Station(old(isOnline), WaitReset, if pushed then !old(nextReadFCB) else old(nextReadFCB), !isBroadcast)
    {
      if !isBroadcast {
        secondaryTx := true;
      }
      pushed := nextReadFCB == fcb;
      if pushed {
        nextReadFCB := !nextReadFCB;
      }
      state := WaitReset;
    }

    /** OnFrame for the functions a secondary serves; the others leave it as it is. */
    method OnFrame(x: Fields) returns (pushed: bool)
      requires Sound(View())
      modifies this
      ensures (x.fromMaster == config.isMaster || (x.dest != config.local && x.dest < 0xFFFD) ||
               (x.src != config.remote && !config.anySource)) ==> View() == old(View()) && !pushed
      ensures (View(), pushed) == Handle(config, old(View()), x)
    {
      pushed := false;
      if !isOnline {
        return;
      }
      if x.fromMaster == config.isMaster {
        return;
      }
      if x.dest != config.local && !IsBroadcast(x.dest) {
        return;
      }
      if x.src != config.remote && !config.anySource {
        return;
      }
      if IsBroadcast(x.dest) && !(x.func == 0x44 || x.func == 0x43) {
        return;
      }
      if x.func == 0x44 {
        return true;
      }
      if state == WaitReset || state == WaitNotReset {
        return;
      }
      if x.func == 0x40 {
        OnResetLinkStates();
      } else if x.func == 0x49 {
        secondaryTx := true;
        state := if state == Reset then WaitReset else WaitNotReset;
      } else if state == Reset && x.func == 0x42 {
        if nextReadFCB == x.fcb {
          secondaryTx := true;
          nextReadFCB := !nextReadFCB;
          state := WaitReset;
        }
      } else if state == Reset && x.func == 0x43 {
        pushed := OnConfirmedUserData(x.fcb, IsBroadcast(x.dest));
      }
    }
  }

  // ---------------------------------------------------------------- runs

  function Run(config: LinkConfig, st: Station, events: seq<Event>): Station
    decreases |events|
  {
    if events == [] then st else Run(config, After(config, st, events[0]), events[1..])
  }

  /** The frames whose data is pushed up to the transport function. */
  function Accepted(config: LinkConfig, st: Station, events: seq<Event>): seq<Frame>
    decreases |events|
  {
    if events == [] then []
    else Pushed(config, st, events[0]) + Accepted(config, After(config, st, events[0]), events[1..])
  }

  lemma {:induction false} RunConcat(config: LinkConfig, st: Station, a: seq<Event>, b: seq<Event>)
    ensures Run(config, st, a + b) == Run(config, Run(config, st, a), b)
    ensures Accepted(config, st, a + b) == Accepted(config, st, a) + Accepted(config, Run(config, st, a), b)
    decreases |a|
  {
    hide After, Pushed;
    if a == [] {
      assert a + b == b;
    } else {
      assert (a + b)[0] == a[0] && (a + b)[1..] == a[1..] + b;
      RunConcat(config, After(config, st, a[0]), a[1..], b);
    }
  }

  predicate Waits(st: Station) { st.state == WaitReset || st.state == WaitNotReset }

  /** A reply is owed only while the state waits for it, and an offline station is not reset. */
  predicate Sound(st: Station) { (st.owed ==> Waits(st)) && (!st.online ==> st.state == NotReset) }

  lemma {:induction false} RunSound(config: LinkConfig, st: Station, events: seq<Event>)
    requires Sound(st)
    ensures Sound(Run(config, st, events))
    decreases |events|
  {
    if events != [] {
      assert Sound(After(config, st, events[0]));
      RunSound(config, After(config, st, events[0]), events[1..]);
    }
  }

  /** The station just before event i of a run from its construction. */
  function Before(config: LinkConfig, events: seq<Event>, i: nat): Station
    requires i <= |events|
  {
    Run(config, NEW, events[..i])
  }

  lemma OneEvent(config: LinkConfig, st: Station, e: Event)
    ensures Run(config, st, [e]) == After(config, st, e)
  {
    assert Run(config, After(config, st, e), []) == After(config, st, e);
  }

  lemma FirstEvent(config: LinkConfig, st: Station, e: Event, rest: seq<Event>)
    ensures Run(config, st, [e] + rest) == Run(config, After(config, st, e), rest)
  {
    assert ([e] + rest)[1..] == rest;
  }

  lemma NextBefore(config: LinkConfig, events: seq<Event>, i: nat)
    requires i < |events|
    ensures Before(config, events, i + 1) == After(config, Before(config, events, i), events[i])
  {
    hide Run, After;
    assert events[..i + 1] == events[..i] + [events[i]];
    RunConcat(config, NEW, events[..i], [events[i]]);
    OneEvent(config, Before(config, events, i), events[i]);
  }

  lemma SoundBefore(config: LinkConfig, events: seq<Event>, i: nat)
    requires i <= |events|
    ensures Sound(Before(config, events, i))
  {
    hide Run;
    RunSound(config, NEW, events[..i]);
  }

  // ---------------------------------------------------------------- frames for others, and replies

  /** From a station of the same role, to another station, or not from the peer where only the peer is served. */
  predicate Foreign(config: LinkConfig, x: Fields) {
    || x.fromMaster == config.isMaster
    || (x.dest != config.local && x.dest < 0xFFFD)
    || (x.src != config.remote && !config.anySource)
  }

  /** The events without the frames for others. */
  function Concerning(config: LinkConfig, events: seq<Event>): seq<Event> {
    if events == [] then []
    else
      var rest := Concerning(config, events[1..]);
      if events[0].Got? && Foreign(config, events[0].frame.fields) then rest else [events[0]] + rest
  }

  /** Frames for others might as well not have been on the line. */
  lemma {:induction false} OthersDoNotMatter(config: LinkConfig, st: Station, events: seq<Event>)
    ensures Run(config, st, events) == Run(config, st, Concerning(config, events))
    ensures Accepted(config, st, events) == Accepted(config, st, Concerning(config, events))
    decreases |events|
  {
    if events != [] {
      var e, rest := events[0], Concerning(config, events[1..]);
      OthersDoNotMatter(config, After(config, st, e), events[1..]);
      if e.Got? && Foreign(config, e.frame.fields) {
        assert After(config, st, e) == st && Pushed(config, st, e) == [];
      } else {
        assert ([e] + rest)[1..] == rest;
      }
    }
  }

  /** From the other role, and from the peer where only the peer is served. */
  predicate FromPeer(config: LinkConfig, x: Fields) {
    x.fromMaster != config.isMaster && (x.src == config.remote || config.anySource)
  }

  /** Exactly these frames have their data pushed up. */
  lemma PushedIff(config: LinkConfig, st: Station, f: Frame)
    ensures var x := f.fields;
      Pushed(config, st, Got(f)) ==
        if && st.online && FromPeer(config, x) && (x.dest == config.local || x.dest >= 0xFFFD)
           && (x.func == 0x44 || (x.func == 0x43 && st.state == Reset && x.fcb == st.nextFcb))
        then [f] else []
  {
  }

  /** Exactly these frames make a station that owes none owe a reply. */
  lemma OwesReplyIff(config: LinkConfig, st: Station, f: Frame)
    requires !st.owed
    ensures var x := f.fields;
      After(config, st, Got(f)).owed <==>
        && st.online && FromPeer(config, x) && x.dest == config.local && x.dest < 0xFFFD
        && (st.state == NotReset || st.state == Reset)
        && (x.func == 0x40 || x.func == 0x49 || (st.state == Reset && (x.func == 0x43 || (x.func == 0x42 && x.fcb == st.nextFcb))))
  {
  }

  /** A frame that makes it owe nothing leaves it as it is, but for confirmed data sent to everyone. */
  lemma OtherwiseStays(config: LinkConfig, st: Station, f: Frame)
    requires Sound(st) && After(config, st, Got(f)).owed == st.owed && !(f.fields.func == 0x43 && f.fields.dest >= 0xFFFD)
    ensures After(config, st, Got(f)) == st
  {
  }

  /** When the reply has been sent: a reset leaves the link reset and the bit set, a status request leaves everything as it
      was, and data or a test moves the bit on when it was the one expected. */
  lemma AfterReply(config: LinkConfig, st: Station, f: Frame)
    requires Sound(st) && !st.owed && After(config, st, Got(f)).owed
    ensures After(config, After(config, st, Got(f)), Sent) ==
      if f.fields.func == 0x40 then Station(true, Reset, true, false)
      else if f.fields.func == 0x49 then st
      else st.(nextFcb := if f.fields.fcb == st.nextFcb then !st.nextFcb else st.nextFcb)
  {
  }

  // ---------------------------------------------------------------- the frame count bit

  /** The link is reset, or lost. */
  predicate IsReset(config: LinkConfig, st: Station, e: Event) { e.Down? || AcceptsReset(config, st, e) }

  predicate AcceptsReset(config: LinkConfig, st: Station, e: Event) {
    e.Got? && st.online && ForUs(config, e.frame.fields) && e.frame.fields.func == 0x40 && !Waits(st)
  }

  /** The frame is counted: confirmed data pushed up, or a link test answered. */
  predicate Counted(config: LinkConfig, st: Station, e: Event) {
    e.Got? && st.online && ForUs(config, e.frame.fields) && st.state == Reset && e.frame.fields.fcb == st.nextFcb &&
    (e.frame.fields.func == 0x43 || e.frame.fields.func == 0x42)
  }

  /** The bits of the frames counted since the link was last reset, in the first n events. */
  function CountBits(config: LinkConfig, events: seq<Event>, n: nat): seq<bool>
    requires n <= |events|
  {
    if n == 0 then []
    else
      var st, e := Before(config, events, n - 1), events[n - 1];
      if IsReset(config, st, e) then []
      else CountBits(config, events, n - 1) + if Counted(config, st, e) then [e.frame.fields.fcb] else []
  }

  predicate Alternates(bits: seq<bool>, first: bool) {
    forall i | 0 <= i < |bits| :: bits[i] == if i % 2 == 0 then first else !first
  }

  /** Over any run of a station, the bits of the frames it counts alternate from true after every reset. */
  lemma {:induction false} BitsAlternate(config: LinkConfig, events: seq<Event>, n: nat)
    requires n <= |events|
    ensures Alternates(CountBits(config, events, n), true)
    ensures
      var st, bits := Before(config, events, n), CountBits(config, events, n);
      if st.state == Reset || st.state == WaitReset then st.nextFcb == (|bits| % 2 == 0) else bits == []
  {
    hide After, Run, Counted, AcceptsReset;
    if n == 0 {
      StartsNew(config, events);
    } else {
      BitsAlternate(config, events, n - 1);
      NextBefore(config, events, n - 1);
      SoundBefore(config, events, n - 1);
      CountStep(config, Before(config, events, n - 1), events[n - 1]);
    }
  }

  lemma StartsNew(config: LinkConfig, events: seq<Event>)
    ensures Before(config, events, 0) == NEW
  {
  }

  lemma CountStep(config: LinkConfig, st: Station, e: Event)
    requires Sound(st)
    ensures
      var next := After(config, st, e);
      var linked := next.state == Reset || next.state == WaitReset;
      if e.Down? then !linked
      else if AcceptsReset(config, st, e) then linked && next.nextFcb
      else (
        linked == (st.state == Reset || st.state == WaitReset) &&
        next.nextFcb == if Counted(config, st, e) then !st.nextFcb else st.nextFcb)
    ensures Counted(config, st, e) ==> e.Got? && e.frame.fields.fcb == st.nextFcb && st.state == Reset
    ensures e.Got? && e.frame.fields.func == 0x43 ==> (Pushed(config, st, e) == [e.frame] <==> Counted(config, st, e))
  {
  }

  /** Between events i and j the link is not reset or lost and no frame is counted. */
  predicate NoneCounted(config: LinkConfig, events: seq<Event>, i: nat, j: nat)
    requires j <= |events|
  {
    forall k | i < k < j ::
      !IsReset(config, Before(config, events, k), events[k]) && !Counted(config, Before(config, events, k), events[k])
  }

  /** So confirmed data sent again, because its acknowledgement was lost, is not pushed up again. */
  lemma RepeatIsNotPushed(config: LinkConfig, events: seq<Event>, i: nat, j: nat)
    requires i < j < |events| && events[i].Got? && events[i].frame.fields.func == 0x43 && events[j] == events[i]
    requires Pushed(config, Before(config, events, i), events[i]) != [] && NoneCounted(config, events, i, j)
    ensures Pushed(config, Before(config, events, j), events[j]) == []
  {
    hide After, Before, NoneCounted, AcceptsReset;
    SoundBefore(config, events, i);
    SoundBefore(config, events, j);
    CountStep(config, Before(config, events, i), events[i]);
    BitStays(config, events, i, j);
    CountStep(config, Before(config, events, j), events[j]);
  }

  lemma {:induction false} BitStays(config: LinkConfig, events: seq<Event>, i: nat, j: nat)
    requires i < j <= |events| && Counted(config, Before(config, events, i), events[i]) && NoneCounted(config, events, i, j)
    ensures Before(config, events, j).nextFcb != events[i].frame.fields.fcb
    decreases j
  {
    hide After, Before, AcceptsReset, Counted;
    NextBefore(config, events, j - 1);
    SoundBefore(config, events, j - 1);
    CountStep(config, Before(config, events, j - 1), events[j - 1]);
    if j > i + 1 {
      BitStays(config, events, i, j - 1);
    } else {
      CountedIsNoReset(config, Before(config, events, i), events[i]);
    }
  }

  lemma CountedIsNoReset(config: LinkConfig, st: Station, e: Event)
    requires Counted(config, st, e)
    ensures !IsReset(config, st, e)
  {
  }

  // ---------------------------------------------------------------- waiting for a reply that is not sent

  /** The state waits for the end of a transmission, and none is under way. */
  predicate Deaf(st: Station) { Waits(st) && !st.owed }

  /** Until the lower layer goes down a deaf station stays as it is: resets, tests, link status requests and confirmed
      data are all ignored. */
  lemma {:induction false} DeafForever(config: LinkConfig, st: Station, events: seq<Event>)
    requires Sound(st) && Deaf(st) && Down !in events
    ensures Run(config, st, events) == st
    ensures forall f | f in Accepted(config, st, events) :: f.fields.func == 0x44
    decreases |events|
  {
    if events != [] {
      assert After(config, st, events[0]) == st;
      DeafForever(config, st, events[1..]);
    }
  }

  /** Confirmed user data sent to everyone is taken by a station that is reset. */
  predicate TakesBroadcast(config: LinkConfig, st: Station, e: Event) {
    e.Got? && st.online && st.state == Reset && ForUs(config, e.frame.fields) && e.frame.fields.func == 0x43 &&
    IsBroadcast(e.frame.fields.dest)
  }

  lemma DeafStep(config: LinkConfig, st: Station, e: Event)
    requires Sound(st)
    ensures Deaf(After(config, st, e)) <==> TakesBroadcast(config, st, e) || (Deaf(st) && e != Down)
  {
  }

  /** After event i the link is not lost again in the first n events. */
  predicate KeptSince(events: seq<Event>, i: nat, n: nat)
    requires i < n <= |events|
  {
    Down !in events[i + 1..n]
  }

  lemma KeptStep(events: seq<Event>, i: nat, n: nat)
    requires i < n < |events|
    ensures KeptSince(events, i, n + 1) <==> KeptSince(events, i, n) && events[n] != Down
  {
    assert events[i + 1..n + 1] == events[i + 1..n] + [events[n]];
  }

  /** A station has gone deaf exactly when, since the link was last lost, it took confirmed user data sent to everyone. */
  lemma {:induction false} DeafIff(config: LinkConfig, events: seq<Event>, n: nat)
    requires n <= |events|
    ensures Deaf(Before(config, events, n)) <==>
      exists i | 0 <= i < n :: TakesBroadcast(config, Before(config, events, i), events[i]) && KeptSince(events, i, n)
    decreases n
  {
    hide After, Before, TakesBroadcast, KeptSince;
    if n == 0 {
      StartsNew(config, events);
    } else {
      DeafIff(config, events, n - 1);
      NextBefore(config, events, n - 1);
      var st, e := Before(config, events, n - 1), events[n - 1];
      SoundBefore(config, events, n - 1);
      DeafStep(config, st, e);
      KeptLast(events, n - 1);
      forall i | 0 <= i < n - 1 ensures KeptSince(events, i, n) <==> KeptSince(events, i, n - 1) && e != Down {
        KeptStep(events, i, n - 1);
      }
      if i :| 0 <= i < n && TakesBroadcast(config, Before(config, events, i), events[i]) && KeptSince(events, i, n) {
        assert i < n - 1 ==> KeptSince(events, i, n - 1);
      }
    }
  }

  lemma KeptLast(events: seq<Event>, n: nat)
    requires n < |events|
    ensures KeptSince(events, n, n + 1)
  {
  }

  /** Two frames are enough: the link is reset, and then everyone is sent confirmed data. */
  lemma DeafIsReached(config: LinkConfig, data: seq<Octet>)
    requires !IsBroadcast(config.local) && 1 <= |data| <= MAX_USER_DATA
    ensures
      var reset := Frame(Fields(0x40, !config.isMaster, false, false, config.local, config.remote), []);
      var toAll := Frame(Fields(0x43, !config.isMaster, true, true, 0xFFFF, config.remote), data);
      && WellFormed(reset) && WellFormed(toAll)
      && Deaf(Run(config, NEW, [Up, Got(reset), Sent, Got(toAll)]))
  {
    var reset := Frame(Fields(0x40, !config.isMaster, false, false, config.local, config.remote), []);
    var toAll := Frame(Fields(0x43, !config.isMaster, true, true, 0xFFFF, config.remote), data);
    var linked := Station(true, Reset, true, false);
    assert [Up, Got(reset), Sent, Got(toAll)] == [Up] + ([Got(reset)] + ([Sent] + [Got(toAll)]));
    FirstEvent(config, NEW, Up, [Got(reset)] + ([Sent] + [Got(toAll)]));
    FirstEvent(config, Station(true, NotReset, false, false), Got(reset), [Sent] + [Got(toAll)]);
    FirstEvent(config, Station(true, WaitReset, true, true), Sent, [Got(toAll)]);
    OneEvent(config, linked, Got(toAll));
  }
}
