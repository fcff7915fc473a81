/** The root object an application owns: cpp/lib/src/DNP3ManagerImpl.cpp.

    All Add and CreateListener overloads share one shape, "bind or throw"; they differ only in
    what `create` builds. */
module Manager {
  import opened Resources

  /** What an Add call reports to the application. */
  datatype Outcome = Channel(r: Resource) | ShuttingDown | CreateFailed

  /** `live` says that `resources` has not been reset yet. The table itself outlives the reset,
      because every channel keeps a reference to it. */
  datatype Facade = Facade(live: bool, table: Table, shut: multiset<Resource>)

  datatype Op = Add(create: Creation) | Shutdown | Detach(r: Resource)

  function OutcomeOf(f: Facade, create: Creation): Outcome {
    if f.table.shuttingDown || create.Null? then ShuttingDown
    else if create.Throws? then CreateFailed
    else Channel(create.item)
  }

  function Apply(f: Facade, op: Op): Facade {
    match op
    case Add(create) => if f.table.shuttingDown then f else f.(table := Inserted(f.table, create))
    case Shutdown => if f.live then Facade(false, Claimed(f.table), f.shut + multiset(f.table.tracked)) else f
    case Detach(r) => f.(table := Erased(f.table, r))
  }

  class DNP3Manager {
    var resources: ResourceManager?
    const shared: ResourceManager

    ghost predicate Valid()
      reads this
    {
      resources != null ==> resources == shared
    }

    ghost function View(): Facade
      reads this, shared
    {
      Facade(resources != null, shared.View(), multiset(shared.shutdownCalls))
    }

    constructor ()
      ensures Valid() && View() == Facade(true, Table(false, {}), multiset{}) && fresh(shared)
    {
      shared := new ResourceManager();
      resources := shared;
    }

    /** Dereferences `resources`, so it must not be called after Shutdown. */
    method Add(create: Creation) returns (outcome: Outcome)
      requires Valid() && resources != null
      modifies shared
      ensures Valid() && resources == old(resources)
      ensures View() == Apply(old(View()), Op.Add(create)) && outcome == OutcomeOf(old(View()), create)
    {
      var result := resources.Bind(create);
      match result {
        case Raised => return CreateFailed;
        case NoItem => return ShuttingDown;
        case Item(r) => return Channel(r);
      }
    }

    /** Also the body of the destructor. */
    method Shutdown()
      requires Valid()
      modifies this, shared
      ensures Valid() && View() == Apply(old(View()), Op.Shutdown)
    {
      if resources != null {
        resources.Shutdown();
        resources := null;
      }
    }

    /** A channel that was closed by the application reports back. */
    method Detach(r: Resource)
      requires Valid()
      modifies shared
      ensures Valid() && resources == old(resources) && View() == Apply(old(View()), Op.Detach(r))
    {
      shared.Detach(r);
    }
  }

  // ---------------------------------------------------------------- whole lifetimes

  /** Add is used only before Shutdown, and every `create` builds a new channel. */
  predicate Legal(f: Facade, made: set<Resource>, op: Op) {
    op.Add? ==> f.live && (op.create.Made? ==> op.create.item !in made)
  }

  /** A manager with the channels its Add calls ever reported and those detached while tracked. */
  datatype Life = Life(f: Facade, handed: set<Resource>, detached: set<Resource>)

  const Born := Life(Facade(true, Table(false, {}), multiset{}), {}, {})

  function Live(l: Life, op: Op): Life {
    Life(Apply(l.f, op),
         if op.Add? && OutcomeOf(l.f, op.create).Channel? then l.handed + {OutcomeOf(l.f, op.create).r} else l.handed,
         if op.Detach? && op.r in l.f.table.tracked then l.detached + {op.r} else l.detached)
  }

  ghost predicate Lives(l: Life, ops: seq<Op>, l': Life)
    decreases |ops|
  {
    if ops == [] then l == l' else Legal(l.f, l.handed, ops[0]) && Lives(Live(l, ops[0]), ops[1..], l')
  }

  /** Every channel handed out is tracked, was detached while tracked, or was shut down; and
      shut down means once. While the manager is live the flag is clear. */
  ghost predicate Accounted(l: Life) {
    && (if l.f.live then !l.f.table.shuttingDown && l.f.shut == multiset{} else l.f.table == Table(true, {}))
    && l.handed == l.f.table.tracked + l.detached + (set r | r in l.f.shut)
    && l.f.table.tracked !! l.detached && l.f.table.tracked !! (set r | r in l.f.shut) && l.detached !! (set r | r in l.f.shut)
    && forall r :: l.f.shut[r] <= 1
  }

  lemma AccountedStep(l: Life, op: Op)
    requires Accounted(l) && Legal(l.f, l.handed, op)
    ensures Accounted(Live(l, op))
  {
    if op.Shutdown? && l.f.live {
      var shut := l.f.shut + multiset(l.f.table.tracked);
      assert (set r | r in shut) == l.f.table.tracked;
    }
  }

  /** Over any legal lifetime: nothing handed out is lost or shut down twice; after Shutdown
      exactly the channels not detached first have been shut down, once each. */
  lemma {:induction false} EveryChannelOnce(l: Life, ops: seq<Op>, l': Life)
    requires Accounted(l) && Lives(l, ops, l')
    ensures Accounted(l')
    ensures !l'.f.live ==> forall r | r in l'.handed :: l'.f.shut[r] == if r in l'.detached then 0 else 1
    decreases |ops|
  {
    if ops != [] {
      AccountedStep(l, ops[0]);
      EveryChannelOnce(Live(l, ops[0]), ops[1..], l');
    }
  }

  /** A legal Add never reports SHUTTING_DOWN unless `create` itself produced nothing, and an
      Add whose `create` fails leaves the manager as it was. */
  lemma {:induction false} AddNeverMeetsTheFlag(ops: seq<Op>, l: Life, create: Creation)
    requires Lives(Born, ops, l) && Legal(l.f, l.handed, Add(create))
    ensures OutcomeOf(l.f, create).ShuttingDown? <==> create.Null?
    ensures !OutcomeOf(l.f, create).Channel? ==> Apply(l.f, Add(create)) == l.f
  {
    assert Accounted(Born);
    EveryChannelOnce(Born, ops, l);
  }

  /** Shutdown followed by anything legal and another Shutdown shuts nothing down again. */
  lemma {:induction false} SecondShutdownIsIdle(l: Life, ops: seq<Op>, l': Life)
    requires !l.f.live && Lives(l, ops, l')
    ensures l'.f.shut == l.f.shut && l'.handed == l.handed && Live(l', Shutdown) == l'
    decreases |ops|
  {
    if ops != [] {
      SecondShutdownIsIdle(Live(l, ops[0]), ops[1..], l');
    }
  }
}
