/** Sessions of reconnecting outstations: cpp/examples/master-gprs/ExampleListenCallbacks.{h,cpp}. */
module SessionRegistry {
  import opened Wrappers

  /** A session object handed out by ISessionAcceptor::AcceptSession; never null. */
  type Session = nat

  datatype SessionInfo = SessionInfo(id: nat, address: nat, session: Session)

  /** The vector, and every session told to shut down so far. */
  datatype Registry = Registry(sessions: seq<SessionInfo>, told: seq<Session>)

  // ---------------------------------------------------------------- one callback

  /** The first position holding the address, or the end, as std::find_if finds it. */
  function FindAddress(v: seq<SessionInfo>, address: nat): (i: nat)
    ensures i <= |v| && (i < |v| ==> v[i].address == address)
    ensures forall j | 0 <= j < i :: v[j].address != address
  {
    if v == [] || v[0].address == address then 0 else 1 + FindAddress(v[1..], address)
  }

  function FindId(v: seq<SessionInfo>, id: nat): (i: nat)
    ensures i <= |v| && (i < |v| ==> v[i].id == id)
    ensures forall j | 0 <= j < i :: v[j].id != id
  {
    if v == [] || v[0].id == id then 0 else 1 + FindId(v[1..], id)
  }

  function Erase(v: seq<SessionInfo>, i: nat): seq<SessionInfo> {
    if i < |v| then v[..i] + v[i + 1..] else v
  }

  function Lookup(g: Registry, address: nat): Option<Session> {
    var i := FindAddress(g.sessions, address);
    if i < |g.sessions| then Some(g.sessions[i].session) else None
  }

  function FirstFrame(g: Registry, info: SessionInfo): Registry {
    var i := FindAddress(g.sessions, info.address);
    Registry(Erase(g.sessions, i) + [info], if i < |g.sessions| then g.told + [g.sessions[i].session] else g.told)
  }

  function ConnectionClose(g: Registry, id: nat): Registry {
    g.(sessions := Erase(g.sessions, FindId(g.sessions, id)))
  }

  class ListenCallbacks {
    var sessions: seq<SessionInfo>
    var told: seq<Session>

    function View(): Registry
      reads this
    {
      Registry(sessions, told)
    }

    constructor ()
      ensures View() == Registry([], [])
    {
      sessions := [];
      told := [];
    }

    method GetOutstationSession(address: nat) returns (r: Option<Session>)
      ensures r == Lookup(View(), address)
    {
      var i := IndexOfAddress(address);
      if i == |sessions| {
        r := None;
      } else {
        r := Some(sessions[i].session);
      }
    }

    method IndexOfAddress(address: nat) returns (i: nat)
      ensures i == FindAddress(sessions, address)
    {
      i := 0;
      while i < |sessions| && sessions[i].address != address
        invariant i <= |sessions|
        invariant forall j | 0 <= j < i :: sessions[j].address != address
      {
        i := i + 1;
      }
    }

    method OnFirstFrame(sessionid: nat, source: nat, accepted: Session)
      modifies this
      ensures View() == FirstFrame(old(View()), SessionInfo(sessionid, source, accepted))
    {
      var i := IndexOfAddress(source);
      if i != |sessions| {
        told := told + [sessions[i].session];
        sessions := sessions[..i] + sessions[i + 1..];
      }
      sessions := sessions + [SessionInfo(sessionid, source, accepted)];
    }

    method OnConnectionClose(sessionid: nat)
      modifies this
      ensures View() == ConnectionClose(old(View()), sessionid)
    {
      var i := 0;
      while i < |sessions| && sessions[i].id != sessionid
        invariant i <= |sessions|
        invariant forall j | 0 <= j < i :: sessions[j].id != sessionid
      {
        i := i + 1;
      }
      if i != |sessions| {
        sessions := sessions[..i] + sessions[i + 1..];
      }
    }
  }

  // ---------------------------------------------------------------- any run of callbacks

  datatype Event = Frame(info: SessionInfo) | Close(id: nat)

  function Handle(g: Registry, e: Event): Registry {
    match e
    case Frame(info) => FirstFrame(g, info)
    case Close(id) => ConnectionClose(g, id)
  }

  function After(h: seq<Event>): Registry {
    if h == [] then Registry([], []) else Handle(After(h[..|h| - 1]), h[|h| - 1])
  }

  /** Session ids are unique, and every accepted session is a new object. */
  ghost predicate Contract(h: seq<Event>) {
    forall i, j | 0 <= i < j < |h| && h[i].Frame? && h[j].Frame? ::
      h[i].info.id != h[j].info.id && h[i].info.session != h[j].info.session
  }

  datatype Fate = Live | Closed | Replaced

  /** What becomes of a session, read off the later callbacks alone: the first close of its id
      or the first new frame from its address decides. */
  function FateOf(info: SessionInfo, later: seq<Event>): Fate {
    if later == [] then Live
    else if later[0] == Close(info.id) then Closed
    else if later[0].Frame? && later[0].info.address == info.address then Replaced
    else FateOf(info, later[1..])
  }

  lemma {:induction false} FateThen(info: SessionInfo, later: seq<Event>, e: Event)
    ensures FateOf(info, later + [e]) ==
            if FateOf(info, later).Live? then FateOf(info, [e]) else FateOf(info, later)
  {
    if later == [] {
      assert later + [e] == [e];
    } else {
      assert (later + [e])[1..] == later[1..] + [e];
      FateThen(info, later[1..], e);
    }
  }

  ghost predicate NoRepeats(v: seq<SessionInfo>) {
    forall i, j | 0 <= i < j < |v| :: v[i].address != v[j].address && v[i].id != v[j].id && v[i].session != v[j].session
  }

  /** The registry g is what the fates of the sessions of h say it should be. */
  ghost predicate Faithful(h: seq<Event>, g: Registry) {
    && NoRepeats(g.sessions)
    && (forall x | x in g.sessions :: exists i :: 0 <= i < |h| && h[i] == Frame(x))
    && (forall s | s in g.told :: exists i :: 0 <= i < |h| && h[i].Frame? && h[i].info.session == s)
    && (forall i | 0 <= i < |h| && h[i].Frame? ::
          && (h[i].info in g.sessions <==> FateOf(h[i].info, h[i + 1..]).Live?)
          && multiset(g.told)[h[i].info.session] == if FateOf(h[i].info, h[i + 1..]).Replaced? then 1 else 0)
  }

  lemma EraseAt(v: seq<SessionInfo>, i: nat)
    requires NoRepeats(v) && i < |v|
    ensures NoRepeats(Erase(v, i)) && forall x :: x in Erase(v, i) <==> x in v && x != v[i]
  {
    var w := Erase(v, i);
    forall x ensures x in w <==> x in v && x != v[i] {
      if x in v && x != v[i] {
        var j :| 0 <= j < |v| && v[j] == x;
        assert w[if j < i then j else j - 1] == x;
      }
    }
  }

  lemma EraseAddress(v: seq<SessionInfo>, address: nat)
    requires NoRepeats(v)
    ensures var w := Erase(v, FindAddress(v, address));
            NoRepeats(w) && forall x :: x in w <==> x in v && x.address != address
  {
    var i := FindAddress(v, address);
    if i < |v| {
      hide Erase, FindAddress;
      EraseAt(v, i);
    }
  }

  lemma EraseId(v: seq<SessionInfo>, id: nat)
    requires NoRepeats(v)
    ensures var w := Erase(v, FindId(v, id));
            NoRepeats(w) && forall x :: x in w <==> x in v && x.id != id
  {
    var i := FindId(v, id);
    if i < |v| {
      hide Erase, FindId;
      EraseAt(v, i);
    }
  }

  /** Everything the registry mentions after a new frame comes from some frame, and the new
      session is listed once and told nothing. */
  lemma FrameWitnesses(h: seq<Event>, g: Registry, info: SessionInfo)
    requires Faithful(h, g) && Contract(h + [Frame(info)])
    ensures var h', g' := h + [Frame(info)], FirstFrame(g, info);
            && NoRepeats(g'.sessions) && info in g'.sessions && info.session !in g'.told
            && (forall x | x in g'.sessions :: exists i :: 0 <= i < |h'| && h'[i] == Frame(x))
            && (forall s | s in g'.told :: exists i :: 0 <= i < |h'| && h'[i].Frame? && h'[i].info.session == s)
  {
    var e := Frame(info);
    var h', g', p := h + [e], FirstFrame(g, info), FindAddress(g.sessions, info.address);
    EraseAddress(g.sessions, info.address);
    var kept := Erase(g.sessions, p);
    assert g'.sessions == kept + [info] && h'[|h|] == e;
    forall x | x in kept ensures x.id != info.id && x.session != info.session && exists i :: 0 <= i < |h'| && h'[i] == Frame(x) {
      var i :| 0 <= i < |h| && h[i] == Frame(x);
      assert h'[i] == Frame(x);
    }
    forall s | s in g'.told
      ensures s != info.session && exists i :: 0 <= i < |h'| && h'[i].Frame? && h'[i].info.session == s
    {
      if s in g.told {
        var i :| 0 <= i < |h| && h[i].Frame? && h[i].info.session == s;
        assert h'[i] == h[i];
      } else {
        var i :| 0 <= i < |h| && h[i] == Frame(g.sessions[p]);
        assert h'[i] == h[i];
      }
    }
  }

  lemma FaithfulFrame(h: seq<Event>, g: Registry, info: SessionInfo)
    requires Faithful(h, g) && Contract(h + [Frame(info)])
    ensures Faithful(h + [Frame(info)], FirstFrame(g, info))
  {
    var h', g' := h + [Frame(info)], FirstFrame(g, info);
    FrameWitnesses(h, g, info);
    forall i | 0 <= i < |h'| && h'[i].Frame?
      ensures h'[i].info in g'.sessions <==> FateOf(h'[i].info, h'[i + 1..]).Live?
      ensures multiset(g'.told)[h'[i].info.session] == if FateOf(h'[i].info, h'[i + 1..]).Replaced? then 1 else 0
    {
      if i < |h| {
        FrameFate(h, g, info, i);
      } else {
        assert h'[i + 1..] == [];
      }
    }
  }

  lemma FrameFate(h: seq<Event>, g: Registry, info: SessionInfo, i: nat)
    requires Faithful(h, g) && Contract(h + [Frame(info)]) && i < |h| && h[i].Frame?
    ensures var x, g' := h[i].info, FirstFrame(g, info);
            var fate := FateOf(x, (h + [Frame(info)])[i + 1..]);
            && (x in g'.sessions <==> fate.Live?)
            && multiset(g'.told)[x.session] == if fate.Replaced? then 1 else 0
  {
    hide FateOf, Erase, FindAddress;
    var e, x, p := Frame(info), h[i].info, FindAddress(g.sessions, info.address);
    var h' := h + [e];
    assert h'[i + 1..] == h[i + 1..] + [e];
    FateThen(x, h[i + 1..], e);
    FateOne(x, info);
    EraseAddress(g.sessions, info.address);
    assert x.id != info.id by { assert h'[i] == h[i] && h'[|h|] == e; }
    if p < |g.sessions| {
      var y := g.sessions[p];
      var j :| 0 <= j < |h| && h[j] == Frame(y);
      assert h'[j] == h[j] && h'[i] == h[i];
      assert x.session == y.session <==> i == j;
      assert y in g.sessions && (x in g.sessions && x.address == info.address <==> x == y) by {
        OnlyOne(g.sessions, p);
      }
      ToldMore(g.told, y.session, x.session);
    }
  }

  lemma FateOne(x: SessionInfo, info: SessionInfo)
    ensures FateOf(x, [Frame(info)]) == if info.address == x.address then Replaced else Live
  {
    assert [Frame(info)][1..] == [];
  }

  lemma OnlyOne(v: seq<SessionInfo>, p: nat)
    requires NoRepeats(v) && p < |v|
    ensures forall x :: x in v && x.address == v[p].address <==> x == v[p]
  {
  }

  lemma ToldMore(told: seq<Session>, s: Session, t: Session)
    ensures multiset(told + [s])[t] == multiset(told)[t] + if s == t then 1 else 0
  {
  }

  lemma FaithfulClose(h: seq<Event>, g: Registry, id: nat)
    requires Faithful(h, g)
    ensures Faithful(h + [Close(id)], ConnectionClose(g, id))
  {
    var e := Close(id);
    var h', g' := h + [e], ConnectionClose(g, id);
    EraseId(g.sessions, id);
    forall x | x in g'.sessions ensures exists i :: 0 <= i < |h'| && h'[i] == Frame(x) {
      var i :| 0 <= i < |h| && h[i] == Frame(x);
      assert h'[i] == Frame(x);
    }
    forall s | s in g'.told ensures exists i :: 0 <= i < |h'| && h'[i].Frame? && h'[i].info.session == s {
      var i :| 0 <= i < |h| && h[i].Frame? && h[i].info.session == s;
      assert h'[i].Frame? && h'[i].info.session == s;
    }
    forall i | 0 <= i < |h'| && h'[i].Frame?
      ensures h'[i].info in g'.sessions <==> FateOf(h'[i].info, h'[i + 1..]).Live?
      ensures multiset(g'.told)[h'[i].info.session] == if FateOf(h'[i].info, h'[i + 1..]).Replaced? then 1 else 0
    {
      assert h'[i] == h[i] && h'[i + 1..] == h[i + 1..] + [e];
      FateThen(h[i].info, h[i + 1..], e);
    }
  }

  /** After any run of callbacks the vector holds exactly the live sessions, without repeated
      ids or addresses, and exactly the replaced ones were told to shut down, once each. A late
      close of a replaced session therefore never touches its successor. */
  lemma {:induction false} RegistryIsFaithful(h: seq<Event>)
    requires Contract(h)
    ensures Faithful(h, After(h))
  {
    if h != [] {
      var h0, e := h[..|h| - 1], h[|h| - 1];
      assert h == h0 + [e];
      RegistryIsFaithful(h0);
      match e
      case Frame(info) => FaithfulFrame(h0, After(h0), info);
      case Close(id) => FaithfulClose(h0, After(h0), id);
    }
  }

  /** i is the latest first frame from the address. */
  ghost predicate Latest(h: seq<Event>, address: nat, i: int) {
    && 0 <= i < |h| && h[i].Frame? && h[i].info.address == address
    && forall j | i < j < |h| && h[j].Frame? :: h[j].info.address != address
  }

  lemma {:induction false} LiveMeansLatest(info: SessionInfo, later: seq<Event>)
    ensures FateOf(info, later).Live? <==>
            && (forall j | 0 <= j < |later| && later[j].Frame? :: later[j].info.address != info.address)
            && Close(info.id) !in later
  {
    if later != [] {
      LiveMeansLatest(info, later[1..]);
      assert forall j | 0 < j < |later| :: later[j] == later[1..][j - 1];
      assert later == [later[0]] + later[1..];
    }
  }

  /** get_outstation_session answers with the latest session of the address unless its id has
      been closed since, and with null otherwise. */
  lemma LookupAgrees(h: seq<Event>, address: nat)
    requires Contract(h)
    ensures forall s :: Lookup(After(h), address) == Some(s) <==>
              exists i :: Latest(h, address, i) && h[i].info.session == s && Close(h[i].info.id) !in h[i + 1..]
    ensures Lookup(After(h), address) == None <==>
            forall i | Latest(h, address, i) :: Close(h[i].info.id) in h[i + 1..]
  {
    RegistryIsFaithful(h);
    var g := After(h);
    var p := FindAddress(g.sessions, address);
    forall i | Latest(h, address, i) ensures h[i].info in g.sessions <==> Close(h[i].info.id) !in h[i + 1..] {
      LiveMeansLatest(h[i].info, h[i + 1..]);
    }
    if p < |g.sessions| {
      var i :| 0 <= i < |h| && h[i] == Frame(g.sessions[p]);
      LiveMeansLatest(h[i].info, h[i + 1..]);
      assert forall j | i < j < |h| :: h[j] == h[i + 1..][j - i - 1];
      assert Latest(h, address, i);
    }
  }
}
