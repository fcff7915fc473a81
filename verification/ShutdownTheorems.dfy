/** What every run of the shutdown protocol guarantees, and when AddStack deadlocks. */
module ShutdownTheorems {
  import opened Resources
  import opened ShutdownProtocol
  import opened ShutdownInvariant

  // ---------------------------------------------------------------- one manager's table

  /** The table of a manager changes only as the critical sections of ResourceManager change it. */
  lemma TablesStep(s: State, a: Action, m: Owner)
    requires Inv(s) && Enabled(s, a)
    ensures
      var before, after := TableOf(s, m), TableOf(Do(s, a), m);
      match a
      case CreateReturns(_, c) => after == if m == Root then Inserted(before, c) else before
      case AddReturns(t) =>
        var AddDone(r, ok) := s.threads[t];
        after == if m == OwnerOf(r) && ok then Inserted(before, Made(r)) else before
      case Claim(_) => after == if m == Root then Claimed(before) else before
      case Close(k) => after == if m == Of(k) then Claimed(before) else before
      case RunDet(k) => after == if m == OwnerOf(Head(s.strands[k]).r) then Erased(before, Head(s.strands[k]).r) else before
      case _ => after == before
  {
    hide Inv, Spare, Born, ClaimedBy, Removed, Posted, Ran;
    var b, b' := OwnedBy(s.tracked, m), OwnedBy(Do(s, a).tracked, m);
    if a.CreateReturns? && a.c.Made? {
      NewChannel(s, a);
      assert b' == if m == Root then b + {a.c.item} else b;
    }
    if a.AddReturns? {
      assert b' == if m == OwnerOf(s.threads[a.t].r) && s.threads[a.t].ok then b + {s.threads[a.t].r} else b;
    }
    if a.Claim? {
      assert b' == if m == Root then {} else b;
    }
    if a.Close? {
      assert b' == if m == Of(a.k) then {} else b;
    }
    if a.RunDet? {
      var r := Head(s.strands[a.k]).r;
      assert b' == if m == OwnerOf(r) then b - {r} else b;
    }
  }

  lemma NewChannel(s: State, a: Action)
    requires Enabled(s, a) && a.CreateReturns? && a.c.Made?
    ensures a.c.item.channel
  {
  }

  // ---------------------------------------------------------------- nothing lost, nothing twice

  /** Every resource ever bound is in exactly one place, and the managers shut down exactly
      the resources they claimed, each at most once, each by the one call that claimed it. */
  lemma ExactlyOnePlace(s: State)
    requires Reachable(s)
    ensures s.book.bound == s.tracked + s.book.dropped + s.calls.claimed.Keys
    ensures s.tracked !! s.book.dropped !! s.calls.claimed.Keys
    ensures forall r :: s.calls.shutdowns[r] <= 1
    ensures forall r | r in s.calls.shutdowns :: r in s.calls.claimed
    ensures forall t, u | 0 <= t < u < |s.threads| && InLoop(s.threads[t]) && InLoop(s.threads[u]) ::
      s.threads[t].copy !! s.threads[u].copy
    ensures s.closing == {} && (forall t | 0 <= t < |s.threads| :: !InLoop(s.threads[t])) ==>
      forall r | r in s.calls.claimed :: s.calls.shutdowns[r] == 1
  {
    hide Reachable, Locking, Registered, Channels, Closing, Removals, Closures, Waiting, Calling;
    ReachableInv(s);
    CopiesApart(s.threads, s.closing, s.calls, s.book.removedAt.Keys);
    if s.closing == {} && (forall t | 0 <= t < |s.threads| :: !InLoop(s.threads[t])) {
      AllServed(s.threads, s.closing, s.calls, s.book.removedAt.Keys);
    }
  }

  lemma CopiesApart(threads: seq<Phase>, closing: set<Resource>, c: Calls, removed: set<Resource>)
    requires Calling(threads, closing, c, removed)
    ensures forall t, u | 0 <= t < u < |threads| && InLoop(threads[t]) && InLoop(threads[u]) :: threads[t].copy !! threads[u].copy
    ensures forall r :: c.shutdowns[r] <= 1
    ensures forall r | r in c.shutdowns :: r in c.claimed
  {
    forall t, u | 0 <= t < u < |threads| && InLoop(threads[t]) && InLoop(threads[u])
      ensures threads[t].copy !! threads[u].copy
    {
      assert c.runners[threads[t].call] == t && c.runners[threads[u].call] == u;
    }
  }

  lemma AllServed(threads: seq<Phase>, closing: set<Resource>, c: Calls, removed: set<Resource>)
    requires Calling(threads, closing, c, removed) && closing == {} && forall t | 0 <= t < |threads| :: !InLoop(threads[t])
    ensures forall r | r in c.claimed :: c.shutdowns[r] == 1 && r in removed
  {
    forall r | r in c.claimed ensures c.shutdowns[r] == 1 && r in removed {
      assert !InLoop(threads[c.runners[c.claimed[r]]]);
      assert !Unserved(threads, closing, c, r);
    }
  }

  /** A thread between the test of m's flag and the end of `create`. */
  predicate RunsCreate(p: Phase, m: Owner) { (p.Creating? || p.AddWait? || p.AddDone?) && Owned(p) == m }

  lemma NoCreate(s: State, m: Owner)
    requires Inv(s) && m in s.down
    ensures forall t | 0 <= t < |s.threads| :: !RunsCreate(s.threads[t], m)
    ensures OwnedBy(s.tracked, m) == {}
  {
    forall t | 0 <= t < |s.threads| ensures !RunsCreate(s.threads[t], m) {
      assert Holds(s.threads[t]) ==> Owned(s.threads[t]) in s.locks;
    }
  }

  lemma FlagStays(s: State, a: Action, m: Owner)
    requires Inv(s) && m in s.down && Enabled(s, a)
    ensures m in Do(s, a).down
    ensures OwnedBy(Do(s, a).book.bound, m) == OwnedBy(s.book.bound, m)
    ensures OwnedBy(Do(s, a).book.made, m) == OwnedBy(s.book.made, m)
  {
    hide Inv, Spare, Free;
    NoCreate(s, m);
    if a.CreateReturns? || a.AddReturns? || a.PostAdd? {
      assert !RunsCreate(s.threads[a.t], m);
    }
  }

  /** Once set, a manager's flag stays set, its table stays empty, and no `create` of it runs again. */
  lemma {:induction false} FlagIsFinal(s: State, acts: seq<Action>, s': State, m: Owner)
    requires Inv(s) && m in s.down && Run(s, acts, s')
    ensures TableOf(s', m) == Table(true, {})
    ensures OwnedBy(s'.book.bound, m) == OwnedBy(s.book.bound, m) && OwnedBy(s'.book.made, m) == OwnedBy(s.book.made, m)
    ensures forall t | 0 <= t < |s'.threads| :: !RunsCreate(s'.threads[t], m)
    decreases |acts|
  {
    hide Inv, Do, RunsCreate, OwnedBy;
    if acts == [] {
      NoCreate(s, m);
    } else {
      FlagStays(s, acts[0], m);
      StepInv(s, acts[0]);
      FlagIsFinal(Do(s, acts[0]), acts[1..], s', m);
    }
  }

  /** The `add` closure of AddStack never runs on a channel that ShutdownImpl has taken down. */
  lemma AddMeetsOpenChannel(s: State, k: nat, i: nat)
    requires Reachable(s) && k < |s.strands| && s.strands[k].done <= i < |s.strands[k].history| && s.strands[k].history[i].Add?
    ensures Of(k) !in s.down && k in s.book.channels && s.book.channels[k] !in s.book.removedAt
  {
    ReachableInv(s);
    AddHolds(s, k, i);
  }

  // ---------------------------------------------------------------- order and lifetime on a strand

  /** A Detach that has run came after the shutdown closure that took the resource out of io, its own or its channel's;
      the resource is then in neither io nor the table. */
  lemma DetachComesLast(s: State, k: nat, i: nat)
    requires Reachable(s) && k < |s.strands| && i < s.strands[k].done
    requires i < |s.strands[k].history| && s.strands[k].history[i].Det?
    ensures var r := s.strands[k].history[i].r;
            && r !in s.book.io && r !in s.tracked
            && exists j :: 0 <= j < i && Removes(s.strands[k].history[j], r)
  {
    ReachableInv(s);
    var r := s.strands[k].history[i].r;
    assert Removes(s.strands[k].history[s.book.removedAt[r]], r);
  }

  lemma StrandsGrow(s: State, a: Action, k: nat)
    requires Enabled(s, a) && k < |s.strands|
    ensures |Do(s, a).strands| == |s.strands|
    ensures s.strands[k].history <= Do(s, a).strands[k].history && s.strands[k].done <= Do(s, a).strands[k].done
  {
  }

  lemma {:induction false} StrandsGrowOn(s: State, acts: seq<Action>, s': State, k: nat)
    requires Run(s, acts, s') && k < |s.strands|
    ensures |s'.strands| == |s.strands|
    ensures s.strands[k].history <= s'.strands[k].history && s.strands[k].done <= s'.strands[k].done
    decreases |acts|
  {
    hide Do, Enabled;
    if acts != [] {
      StrandsGrow(s, acts[0], k);
      StrandsGrowOn(Do(s, acts[0]), acts[1..], s', k);
    }
  }

  /** By the time a Detach posted after s has run, everything queued on its strand in s has run, and is what it was. */
  lemma EarlierWorkRunsFirst(s: State, acts: seq<Action>, s': State, k: nat, i: nat, j: nat)
    requires Inv(s) && Run(s, acts, s') && k < |s.strands| && |s'.strands| == |s.strands|
    requires |s.strands[k].history| <= i < |s'.strands[k].history| && i < s'.strands[k].done && s'.strands[k].history[i].Det?
    requires j < |s.strands[k].history|
    ensures j < s'.strands[k].done && j < |s'.strands[k].history| && s'.strands[k].history[j] == s.strands[k].history[j]
    ensures var r := s'.strands[k].history[i].r; r in s'.book.removedAt && s'.book.removedAt[r] < i
  {
    hide Run, Books, Closing, Pool, Calling, Removals, Waiting;
    StrandsGrowOn(s, acts, s', k);
    RunKeepsInv(s, acts, s');
    assert ClosureOk(s'.strands[k].history[i], k, i, false, s'.tracked, s'.book);
  }

  predicate HoldsRef(c: Closure, r: Resource) {
    (c.Shut? || c.Det? || c.Add?) && c.r == r
  }

  function HeldIn(q: seq<Closure>, r: Resource): nat {
    if q == [] then 0 else (if HoldsRef(q[0], r) then 1 else 0) + HeldIn(q[1..], r)
  }

  /** The shared_ptr count of r owed to the io handler, the table and the queued closures. */
  function RefCount(s: State, r: Resource): nat
    requires HasStrand(s, r) && s.strands[r.strand].done <= |s.strands[r.strand].history|
  {
    (if r in s.book.io then 1 else 0) + (if r in s.tracked then 1 else 0)
    + HeldIn(s.strands[r.strand].history[s.strands[r.strand].done..], r)
  }

  lemma {:induction false} HeldAt(q: seq<Closure>, j: nat, r: Resource)
    requires j < |q| && HoldsRef(q[j], r)
    ensures HeldIn(q, r) >= 1
  {
    if j > 0 {
      HeldAt(q[1..], j - 1, r);
    }
  }

  /** While work queued for r is pending, some reference keeps r alive. */
  lemma PendingWorkIsAlive(s: State, k: nat, i: nat)
    requires Reachable(s) && k < |s.strands| && s.strands[k].done <= i < |s.strands[k].history|
    requires !s.strands[k].history[i].Flush?
    ensures var r := s.strands[k].history[i].r;
            HasStrand(s, r) && s.strands[r.strand].done <= |s.strands[r.strand].history| && RefCount(s, r) >= 1
  {
    hide Books, Calling, Waiting, Reachable, Closing, Pool, HeldIn;
    ReachableInv(s);
    var x, r := s.strands[k], s.strands[k].history[i].r;
    assert ClosureOk(x.history[i], k, i, true, s.tracked, s.book);
    var j := if x.history[i].Raw? && r !in s.book.io then s.book.detachAt[r] else i;
    if HoldsRef(x.history[j], r) {
      assert x.history[x.done..][j - x.done] == x.history[j];
      HeldAt(x.history[x.done..], j - x.done, r);
    }
  }

  // ---------------------------------------------------------------- quiescence

  predicate Quiescent(s: State) {
    && (forall t | 0 <= t < |s.threads| :: s.threads[t] == Idle)
    && (forall k | 0 <= k < |s.strands| :: !Pending(s.strands[k]))
  }

  /** A manager that was shut down and has gone quiet left nothing behind in any io handler. */
  lemma ShutDownMeansGone(s: State, m: Owner)
    requires Reachable(s) && Quiescent(s) && m in s.down
    ensures OwnedBy(s.book.io, m) == {}
    ensures forall r | r in s.book.bound && OwnerOf(r) == m :: r in s.book.removedAt
    ensures forall r | r in s.calls.claimed :: s.calls.shutdowns[r] == 1
  {
    ReachableInv(s);
    NothingUnserved(s);
    forall r | r in s.book.bound && OwnerOf(r) == m ensures r in s.book.removedAt {
      assert r !in s.tracked;
    }
  }

  lemma NothingUnserved(s: State)
    requires Inv(s) && Quiescent(s)
    ensures s.closing == {} && s.busy == {} && forall r | r in s.calls.claimed :: r in s.book.removedAt && s.calls.shutdowns[r] == 1
  {
    AllServed(s.threads, s.closing, s.calls, s.book.removedAt.Keys);
  }

  lemma NothingLocked(s: State)
    requires Inv(s) && Quiescent(s)
    ensures s.locks.Keys == {} && s.book.io <= s.book.bound
  {
  }

  /** Once the root manager was shut down and all is quiet, every channel is down, every stack of every channel is
      removed, and no io handler holds anything. */
  lemma RootDownMeansAllGone(s: State)
    requires Reachable(s) && Quiescent(s) && Root in s.down
    ensures forall k | k in s.book.channels :: Of(k) in s.down
    ensures s.book.io == {} && s.tracked == {} && s.book.bound == s.book.removedAt.Keys
  {
    ReachableInv(s);
    ShutDownMeansGone(s, Root);
    forall k | k in s.book.channels ensures Of(k) in s.down {
      assert s.book.channels[k] in s.book.removedAt;
    }
    forall r | r in s.book.bound ensures r in s.book.removedAt && r !in s.tracked {
      assert r.strand in s.book.channels;
      if !r.channel {
        ShutDownMeansGone(s, Of(r.strand));
      }
    }
    NothingLocked(s);
  }

  // ---------------------------------------------------------------- termination

  function Cost(c: Closure): nat { if c.Shut? then 4 else if c.Det? then 2 else 1 }

  function QueueCost(q: seq<Closure>): nat {
    if q == [] then 0 else Cost(q[0]) + QueueCost(q[1..])
  }

  function StrandCost(x: Strand): nat {
    if x.done <= |x.history| then QueueCost(x.history[x.done..]) else 0
  }

  function StrandsCost(strands: seq<Strand>): nat
  {
    if strands == [] then 0
    else StrandCost(strands[0]) + StrandsCost(strands[1..])
  }

  function PhaseCost(p: Phase): nat {
    match p
    case Idle => 0
    case WantBind(_) => 10
    case Creating(_) => 9
    case AddWait(_, _) => 7
    case AddDone(_, _) => 7
    case WantShutdown => 4
    case Claiming => 3
    case Draining(_, copy) => 1 + 6 * |copy|
    case Blocked(_, copy, _, _) => 2 + 6 * |copy|
    case UserBlocked(_, _) => 1
  }

  function ThreadsCost(threads: seq<Phase>): nat {
    if threads == [] then 0 else PhaseCost(threads[0]) + ThreadsCost(threads[1..])
  }

  /** The strands whose channel is not down yet. */
  function Open(channels: map<nat, Resource>, down: set<Owner>): set<nat> { set k | k in channels && Of(k) !in down }

  /** Workers that may still start a closure and find its mutex locked. */
  function Unstarted(s: State): nat { if |s.waiting| <= s.workers then s.workers - |s.waiting| else 0 }

  /** Unclaimed resources, stacks and copies still to be shut down, open channels, queued closures and idle workers,
      weighted. */
  function Measure(s: State): nat {
    6 * |s.tracked| + 4 * |s.closing| + 2 * |Open(s.book.channels, s.down)| + ThreadsCost(s.threads) + StrandsCost(s.strands)
    + Unstarted(s)
  }

  lemma WaitingFacts(s: State, k: nat)
    requires Inv(s)
    ensures |s.waiting| <= s.workers && |s.waiting - {k}| == if k in s.waiting then |s.waiting| - 1 else |s.waiting|
    ensures k in s.waiting ==> At(s, k) && Locks(Head(s.strands[k])) && k !in s.busy
  {
    Fewer(s.waiting, k);
  }

  lemma {:induction false} ThreadsCostUpdate(threads: seq<Phase>, t: nat, p: Phase)
    requires t < |threads|
    ensures ThreadsCost(threads[t := p]) == ThreadsCost(threads) - PhaseCost(threads[t]) + PhaseCost(p)
  {
    if t == 0 {
      assert threads[t := p][1..] == threads[1..];
    } else {
      assert threads[t := p][1..] == threads[1..][t - 1 := p];
      ThreadsCostUpdate(threads[1..], t - 1, p);
    }
  }

  lemma {:induction false} StrandsCostUpdate(strands: seq<Strand>, k: nat, x: Strand)
    requires k < |strands|
    ensures StrandsCost(strands[k := x]) == StrandsCost(strands) - StrandCost(strands[k]) + StrandCost(x)
  {
    if k == 0 {
      assert strands[k := x][1..] == strands[1..];
    } else {
      assert strands[k := x][1..] == strands[1..][k - 1 := x];
      StrandsCostUpdate(strands[1..], k - 1, x);
    }
  }

  lemma {:induction false} QueueCostAppend(q: seq<Closure>, q': seq<Closure>)
    ensures QueueCost(q + q') == QueueCost(q) + QueueCost(q')
  {
    if q == [] {
      assert q + q' == q';
    } else {
      assert (q + q')[1..] == q[1..] + q';
      QueueCostAppend(q[1..], q');
    }
  }

  lemma PostCost(strands: seq<Strand>, k: nat, cs: seq<Closure>)
    requires k < |strands| && strands[k].done <= |strands[k].history|
    ensures StrandsCost(Posted(strands, k, cs)) == StrandsCost(strands) + QueueCost(cs)
  {
    var x := strands[k];
    StrandsCostUpdate(strands, k, Posted(strands, k, cs)[k]);
    assert (x.history + cs)[x.done..] == x.history[x.done..] + cs;
    QueueCostAppend(x.history[x.done..], cs);
  }

  lemma RanCost(strands: seq<Strand>, k: nat)
    requires k < |strands| && Pending(strands[k])
    ensures StrandsCost(Ran(strands, k)) == StrandsCost(strands) - Cost(Head(strands[k]))
  {
    var x := strands[k];
    StrandsCostUpdate(strands, k, Ran(strands, k)[k]);
    assert x.history[x.done..][1..] == x.history[x.done + 1..];
  }

  lemma {:induction false} CopyShrinks(copy: set<Resource>, r: Resource)
    requires r in copy
    ensures |copy - {r}| == |copy| - 1
  {
  }

  lemma SplitSize(all: set<Resource>, part: set<Resource>)
    requires part <= all
    ensures |all - part| + |part| == |all|
  {
    assert all == (all - part) + part;
  }

  lemma StartStepCost(s: State, a: Action)
    requires Enabled(s, a) && a.Start?
    ensures Measure(Do(s, a)) < Measure(s)
  {
  }

  lemma ThreadStepCost(s: State, a: Action)
    requires Enabled(s, a) && (a.Acquire? || a.AddReturns? || a.FinishShutdown?)
    ensures Measure(Do(s, a)) < Measure(s)
  {
    hide ThreadsCost, StrandsCost;
    ThreadsCostUpdate(s.threads, a.t, Do(s, a).threads[a.t]);
  }

  lemma CreateStepCost(s: State, a: Action)
    requires Enabled(s, a) && a.CreateReturns?
    ensures Measure(Do(s, a)) < Measure(s)
  {
    hide ThreadsCost, StrandsCost;
    ThreadsCostUpdate(s.threads, a.t, Idle);
    if a.c.Made? {
      var k := a.c.item.strand;
      var open, open' := Open(s.book.channels, s.down), Open(Do(s, a).book.channels, s.down);
      assert open' <= open + {k};
      SmallerSize(open', open + {k});
    }
  }

  lemma {:induction false} SmallerSize(a: set<nat>, b: set<nat>)
    requires a <= b
    ensures |a| <= |b|
  {
    assert b == a + (b - a);
  }

  lemma ClaimStepCost(s: State, a: Action)
    requires Enabled(s, a) && a.Claim?
    ensures Measure(Do(s, a)) < Measure(s)
  {
    hide ThreadsCost, StrandsCost;
    ThreadsCostUpdate(s.threads, a.t, Do(s, a).threads[a.t]);
    SplitSize(s.tracked, OwnedBy(s.tracked, Root));
    assert Open(s.book.channels, s.down + {Root}) == Open(s.book.channels, s.down);
  }

  lemma CloseStepCost(s: State, a: Action)
    requires Inv(s) && Enabled(s, a) && a.Close?
    ensures Measure(Do(s, a)) < Measure(s)
  {
    hide Inv, ThreadsCost, StrandsCost, Spare, Open, ClaimedBy;
    HeadFacts(s, a.k);
    WaitingFacts(s, a.k);
    ChannelKnown(s, a.k);
    var copy := OwnedBy(s.tracked, Of(a.k));
    SplitSize(s.tracked, copy);
    SumSize(s.closing, copy);
    OpenFalls(s.book.channels, s.down, a.k);
  }

  lemma OpenFalls(channels: map<nat, Resource>, down: set<Owner>, k: nat)
    requires k in channels && Of(k) !in down
    ensures |Open(channels, down + {Of(k)})| < |Open(channels, down)|
  {
    assert Open(channels, down + {Of(k)}) == Open(channels, down) - {k};
    assert k in Open(channels, down);
  }

  lemma SumSize(a: set<Resource>, b: set<Resource>)
    ensures |a + b| <= |a| + |b|
  {
    assert a + b == a + (b - a);
    SplitSize(b, b * a);
    assert b - b * a == b - a;
  }

  lemma ChannelKnown(s: State, k: nat)
    requires Inv(s) && At(s, k) && Head(s.strands[k]).r in s.book.made && Head(s.strands[k]).r.strand == k
    ensures k in s.book.channels
  {
  }

  lemma CloseOneStepCost(s: State, a: Action)
    requires Inv(s) && Enabled(s, a) && a.CloseOne?
    ensures Measure(Do(s, a)) < Measure(s)
  {
    hide Inv, ThreadsCost, StrandsCost;
    BoundedDone(s, a.k);
    PostCost(s.strands, a.k, [Det(a.r)]);
    CopyShrinks(s.closing, a.r);
  }

  lemma PostStepCost(s: State, a: Action)
    requires Inv(s) && Enabled(s, a) && (a.PostAdd? || a.CallShutdown?)
    ensures Measure(Do(s, a)) < Measure(s)
  {
    hide Inv, ThreadsCost, StrandsCost;
    BoundedDone(s, a.r.strand);
    ThreadsCostUpdate(s.threads, a.t, Do(s, a).threads[a.t]);
    PostCost(s.strands, a.r.strand, [if a.PostAdd? then Add(a.r, a.t) else Shut(a.r, a.t)]);
    if a.CallShutdown? {
      CopyShrinks(s.threads[a.t].copy, a.r);
    }
  }

  lemma BoundedDone(s: State, k: nat)
    requires Inv(s) && k < |s.strands|
    ensures s.strands[k].done <= |s.strands[k].history|
  {
  }

  lemma RunStepCost(s: State, a: Action)
    requires Inv(s) && Enabled(s, a) && (a.RunRaw? || a.RunDet?)
    ensures Measure(Do(s, a)) < Measure(s)
  {
    hide Inv, ThreadsCost, StrandsCost, Spare, Open;
    RanCost(s.strands, a.k);
    WaitingFacts(s, a.k);
  }

  lemma WakeStepCost(s: State, a: Action)
    requires Inv(s) && Enabled(s, a) && (a.RunFlush? || a.RunAdd?)
    ensures Measure(Do(s, a)) < Measure(s)
  {
    hide Inv, ThreadsCost, StrandsCost, Spare, Open;
    RanCost(s.strands, a.k);
    WaitingFacts(s, a.k);
    HeadFacts(s, a.k);
    var t := Head(s.strands[a.k]).caller;
    ThreadsCostUpdate(s.threads, t, Do(s, a).threads[t]);
  }

  lemma QueueOf(r: Resource, t: nat)
    ensures QueueCost([Flush(r, t)]) == 1 && QueueCost([Det(r), Flush(r, t)]) == 3
  {
    assert [Det(r), Flush(r, t)][1..] == [Flush(r, t)];
  }

  lemma ShutStepCost(s: State, a: Action)
    requires Inv(s) && Enabled(s, a) && (a.RunShut? || a.RunShutAgain?)
    ensures Measure(Do(s, a)) < Measure(s)
  {
    hide Inv, ThreadsCost, StrandsCost, Spare, Open, QueueCost;
    WaitingFacts(s, a.k);
    var Shut(r, t) := Head(s.strands[a.k]);
    var cs := if a.RunShut? then [Det(r), Flush(r, t)] else [Flush(r, t)];
    QueueOf(r, t);
    RanCost(s.strands, a.k);
    PostCost(Ran(s.strands, a.k), a.k, cs);
    ThreadsCostUpdate(s.threads, t, Do(s, a).threads[t]);
  }

  /** Every step the system takes on its own lowers the measure. */
  lemma MeasureFalls(s: State, a: Action)
    requires Inv(s) && Enabled(s, a) && !External(a)
    ensures Measure(Do(s, a)) < Measure(s)
  {
    hide Inv, Do, Enabled, Measure;
    match a
    case PostAdd(_, _) => PostStepCost(s, a);
    case CallShutdown(_, _) => PostStepCost(s, a);
    case RunRaw(_) => RunStepCost(s, a);
    case RunDet(_) => RunStepCost(s, a);
    case RunFlush(_) => WakeStepCost(s, a);
    case RunAdd(_, _) => WakeStepCost(s, a);
    case RunShut(_) => ShutStepCost(s, a);
    case RunShutAgain(_) => ShutStepCost(s, a);
    case CreateReturns(_, _) => CreateStepCost(s, a);
    case Claim(_) => ClaimStepCost(s, a);
    case Close(_) => CloseStepCost(s, a);
    case CloseOne(_, _) => CloseOneStepCost(s, a);
    case Start(_) => StartStepCost(s, a);
    case _ => ThreadStepCost(s, a);
  }

  ghost predicate SystemOnly(acts: seq<Action>) {
    forall a | a in acts :: !External(a)
  }

  /** Left to itself the system stops: no run without new work is longer than the measure. */
  lemma {:induction false} SystemRunsAreShort(s: State, acts: seq<Action>, s': State)
    requires Inv(s) && Run(s, acts, s') && SystemOnly(acts)
    ensures Inv(s') && |acts| + Measure(s') <= Measure(s)
    decreases |acts|
  {
    hide Inv, Do, Enabled, Measure;
    if acts != [] {
      assert acts[0] in acts;
      StepInv(s, acts[0]);
      MeasureFalls(s, acts[0]);
      SystemRunsAreShort(Do(s, acts[0]), acts[1..], s');
    }
  }


  // ---------------------------------------------------------------- progress and deadlock

  /** Inside AddStack, with the lock of the channel's stacks held. */
  predicate InAddStack(p: Phase) { p.AddWait? || (p.Creating? && p.kind.OnStrand?) }

  /** The closures that need that lock: a stack's detach closure, and ShutdownImpl. */
  predicate TakesLock(c: Closure) { (c.Det? && !c.r.channel) || (c.Shut? && c.r.channel) }

  /** The holder of the lock of strand k's stacks is inside AddStack, and the closure queued at index i, ahead of the
      `add` closure the holder waits for or is about to post, needs that lock. */
  ghost predicate DoomedAt(s: State, k: nat, i: nat) {
    && k < |s.strands| && Of(k) in s.locks && Thread(s, s.locks[Of(k)])
    && var p, x := s.threads[s.locks[Of(k)]], s.strands[k];
    && InAddStack(p) && x.done <= i < |x.history| && TakesLock(x.history[i]) && (p.AddWait? ==> i < p.at)
  }

  ghost predicate Doomed(s: State) { exists k, i :: DoomedAt(s, k, i) }

  /** Some identifier is unused. */
  lemma {:induction false} FreshResource(made: set<Resource>, strand: nat) returns (r: Resource)
    ensures r.strand == strand && !r.channel && r !in made && forall x | x in made :: x.id < r.id
    decreases made
  {
    if made == {} {
      r := Resource(0, strand, false);
    } else {
      var x :| x in made;
      var q := FreshResource(made - {x}, strand);
      r := Resource(q.id + x.id + 1, strand, false);
      forall y | y in made ensures y.id < r.id {
        assert y == x || y in made - {x};
      }
    }
  }

  /** The holder of the lock of strand k's stacks, and what its holding it says of the strand. */
  lemma StackHolder(s: State, k: nat)
    requires Inv(s) && Of(k) in s.locks
    ensures Thread(s, s.locks[Of(k)]) && k in s.book.channels && k < |s.strands|
    ensures var p := s.threads[s.locks[Of(k)]];
      && (p == Creating(OnStrand(k)) || ((p.AddWait? || p.AddDone?) && p.r.strand == k && !p.r.channel))
      && (p.AddWait? ==> s.strands[k].done <= p.at < |s.strands[k].history| && s.strands[k].history[p.at] == Add(p.r, s.locks[Of(k)]))
    ensures Of(k) !in s.down && k !in s.busy
    ensures At(s, k) && Head(s.strands[k]).Det? ==> TakesLock(Head(s.strands[k]))
  {
    hide Calling, Pool, Partition, Removals;
    var t := s.locks[Of(k)];
    assert Holds(s.threads[t]);
    if At(s, k) {
      HeadFacts(s, k);
    }
  }

  /** The next closure of strand k, when it needs no lock and its strand is not inside ShutdownImpl. */
  function Plain(c: Closure, k: nat): Action {
    match c
    case Raw(_) => RunRaw(k)
    case Shut(_, _) => RunShut(k)
    case Det(_) => RunDet(k)
    case Flush(_, _) => RunFlush(k)
    case Add(_, _) => RunAdd(k, true)
  }

  lemma AheadRuns(s: State, k: nat)
    requires Inv(s) && Spare(s) && Of(k) in s.locks && At(s, k) && !TakesLock(Head(s.strands[k]))
    ensures Enabled(s, Plain(Head(s.strands[k]), k)) && !Head(s.strands[k]).Det?
  {
    hide Inv;
    StackHolder(s, k);
    HeadFacts(s, k);
  }

  /** Running what is ahead of a waiting `add` closure puts nothing in its way. */
  lemma AheadKeepsSafe(s: State, k: nat)
    requires Inv(s) && Of(k) in s.locks && At(s, k) && !TakesLock(Head(s.strands[k]))
    requires Thread(s, s.locks[Of(k)]) && s.threads[s.locks[Of(k)]].AddWait?
    requires Enabled(s, Plain(Head(s.strands[k]), k)) && !Head(s.strands[k]).Det?
    ensures forall j, i | DoomedAt(Do(s, Plain(Head(s.strands[k]), k)), j, i) :: DoomedAt(s, j, i)
    ensures Lost(Do(s, Plain(Head(s.strands[k]), k))) <= Lost(s)
  {
    hide Inv;
    var s' := Do(s, Plain(Head(s.strands[k]), k));
    StackHolder(s, k);
    HeadFacts(s, k);
    forall j, i | DoomedAt(s', j, i) ensures DoomedAt(s, j, i) {
      if Of(j) in s.locks {
        StackHolder(s, j);
      }
    }
  }

  lemma PostKeepsSafe(s: State, k: nat, t: nat, r: Resource)
    requires Inv(s) && !Doomed(s) && Of(k) in s.locks && s.locks[Of(k)] == t && Enabled(s, PostAdd(t, r)) && r.strand == k
    ensures !Doomed(Do(s, PostAdd(t, r)))
  {
    hide Inv;
    var s' := Do(s, PostAdd(t, r));
    forall j, i ensures !DoomedAt(s', j, i) {
      assert !DoomedAt(s, j, i);
      if Of(j) in s.locks {
        StackHolder(s, j);
      }
    }
  }

  // ---------------------------------------------------------------- workers

  /** Strands whose started closure waits for a lock that an AddStack behind it holds: their workers are lost. */
  function Lost(s: State): set<nat> {
    set j | j in s.waiting && Of(j) in s.locks && s.locks[Of(j)] < |s.threads| && InAddStack(s.threads[s.locks[Of(j)]])
  }

  lemma LostIsDoomed(s: State, j: nat)
    requires Inv(s) && j in Lost(s)
    ensures j < |s.strands| && DoomedAt(s, j, s.strands[j].done)
  {
    hide Inv;
    WaitingFacts(s, j);
    StackHolder(s, j);
  }

  /** A step that leaves every call inside AddStack, and the strand it asks, as they are, and lets no new one in. */
  ghost predicate Gentle(s: State, s': State) {
    && s'.workers == s.workers && s'.waiting <= s.waiting && |s'.threads| == |s.threads| && |s'.strands| == |s.strands|
    && (forall k: nat | Of(k) in s.locks && s.locks[Of(k)] < |s.threads| && InAddStack(s.threads[s.locks[Of(k)]]) ::
          && Of(k) in s'.locks && s'.locks[Of(k)] == s.locks[Of(k)] && s'.threads[s.locks[Of(k)]] == s.threads[s.locks[Of(k)]]
          && (k < |s.strands| ==> s'.strands[k] == s.strands[k]))
    && (forall k: nat | Of(k) in s'.locks && s'.locks[Of(k)] < |s.threads| && InAddStack(s'.threads[s'.locks[Of(k)]]) ::
          Of(k) in s.locks && s.locks[Of(k)] == s'.locks[Of(k)] && InAddStack(s.threads[s.locks[Of(k)]]))
  }

  lemma GentleIsSafe(s: State, s': State)
    requires Gentle(s, s')
    ensures forall k, i | DoomedAt(s', k, i) :: DoomedAt(s, k, i)
    ensures Lost(s') <= Lost(s)
  {
  }

  /** ShutdownImpl, past its lock, goes on. */
  lemma BusySteps(s: State, j: nat) returns (a: Action)
    requires Inv(s) && j in s.busy
    ensures Enabled(s, a) && !External(a) && Gentle(s, Do(s, a))
  {
    hide Inv, Gentle, Do;
    BusyFacts(s, j);
    HeadFacts(s, j);
    SleepersApart(s);
    if r :| r in s.closing && r.strand == j {
      a := CloseOne(j, r);
      CloseOneIsGentle(s, j, r);
    } else {
      a := RunShut(j);
      RunShutIsGentle(s, j);
    }
  }

  lemma CloseOneIsGentle(s: State, j: nat, r: Resource)
    requires Enabled(s, CloseOne(j, r)) && Of(j) !in s.locks
    ensures Gentle(s, Do(s, CloseOne(j, r)))
  {
  }

  lemma RunShutIsGentle(s: State, j: nat)
    requires Enabled(s, RunShut(j)) && Of(j) !in s.locks
    requires forall m | m in s.locks :: Thread(s, s.locks[m]) && !Sleeping(s.threads[s.locks[m]])
    ensures Gentle(s, Do(s, RunShut(j)))
  {
    hide Removed;
  }

  lemma BusyFacts(s: State, j: nat)
    requires Inv(s) && j in s.busy
    ensures At(s, j) && Head(s.strands[j]).Shut? && Head(s.strands[j]).r.channel
    ensures Of(j) !in s.locks
  {
    if Of(j) in s.locks {
      StackHolder(s, j);
    }
  }

  /** No lock holder sleeps on a strand. */
  lemma SleepersApart(s: State)
    requires Inv(s)
    ensures forall m | m in s.locks :: Thread(s, s.locks[m]) && !Sleeping(s.threads[s.locks[m]])
  {
  }

  /** A started closure whose lock no AddStack holds gets it, or its holder lets go. */
  lemma WaitingSteps(s: State, j: nat) returns (a: Action)
    requires Inv(s) && j in s.waiting && j !in Lost(s)
    ensures Enabled(s, a) && !External(a) && Gentle(s, Do(s, a))
  {
    hide Inv, Gentle, Do;
    WaitingFacts(s, j);
    HeadFacts(s, j);
    SleepersApart(s);
    var c := Head(s.strands[j]);
    var m := Needed(c);
    if m !in s.locks {
      a := if c.Det? then RunDet(j) else if Of(j) in s.down then RunShutAgain(j) else Close(j);
      if c.Det? && c.r.channel {
        DownUnlocked(s, j);
      }
      StartedIsGentle(s, j, a);
    } else if m == Root {
      RootHolder(s);
      var t := s.locks[m];
      a := if s.threads[t] == Claiming then Claim(t) else CreateReturns(t, Null);
      RootIsGentle(s, a);
    } else {
      StackHolder(s, j);
      a := AddReturns(s.locks[m]);
      ReturnIsGentle(s, j, s.locks[m]);
    }
  }

  lemma StartedIsGentle(s: State, j: nat, a: Action)
    requires Enabled(s, a) && Of(j) !in s.locks && (a == RunDet(j) || a == RunShutAgain(j) || a == Close(j))
    requires forall m | m in s.locks :: Thread(s, s.locks[m]) && !Sleeping(s.threads[s.locks[m]])
    ensures Gentle(s, Do(s, a))
  {
  }

  lemma RootIsGentle(s: State, a: Action)
    requires Enabled(s, a) && (a.Claim? || (a.CreateReturns? && a.c == Null))
    ensures Gentle(s, Do(s, a))
  {
  }

  lemma ReturnIsGentle(s: State, j: nat, t: nat)
    requires Enabled(s, AddReturns(t)) && OwnerOf(s.threads[t].r) == Of(j) && Of(j) in s.locks && s.locks[Of(j)] == t
    ensures Gentle(s, Do(s, AddReturns(t)))
  {
  }

  /** A channel's own detach closure is queued only once its stacks' manager is down, and nobody holds that lock then. */
  lemma DownUnlocked(s: State, j: nat)
    requires Inv(s) && At(s, j) && Head(s.strands[j]).Det? && Head(s.strands[j]).r.channel
    ensures Of(j) !in s.locks
  {
    if Of(j) in s.locks {
      StackHolder(s, j);
      HeadFacts(s, j);
    }
  }

  lemma RootHolder(s: State)
    requires Inv(s) && Root in s.locks
    ensures Thread(s, s.locks[Root]) && (s.threads[s.locks[Root]] == Creating(AtOnce) || s.threads[s.locks[Root]] == Claiming)
  {
    assert Holds(s.threads[s.locks[Root]]);
  }

  // ---------------------------------------------------------------- progress

  ghost predicate Clear(s: State, k: nat) { forall i :: !DoomedAt(s, k, i) }

  lemma NotDoomedAt(s: State, k: nat)
    requires Inv(s) && Clear(s, k) && Of(k) in s.locks && Thread(s, s.locks[Of(k)]) && s.threads[s.locks[Of(k)]].AddWait?
    requires At(s, k)
    ensures !TakesLock(Head(s.strands[k]))
  {
    hide Inv;
    StackHolder(s, k);
    assert !DoomedAt(s, k, s.strands[k].done);
  }

  lemma ReturnKeepsSafe(s: State, k: nat, t: nat)
    requires Inv(s) && !Doomed(s) && Of(k) in s.locks && s.locks[Of(k)] == t && Enabled(s, AddReturns(t))
    ensures !Doomed(Do(s, AddReturns(t)))
  {
    hide Inv;
    var s' := Do(s, AddReturns(t));
    StackHolder(s, k);
    forall j, i ensures !DoomedAt(s', j, i) {
      assert !DoomedAt(s, j, i);
      if Of(j) in s.locks {
        StackHolder(s, j);
      }
    }
  }

  /** A call inside AddStack can go on without getting stuck later. */
  lemma HolderSteps(s: State, k: nat) returns (a: Action)
    requires Inv(s) && !Doomed(s) && Spare(s) && Of(k) in s.locks
    ensures Enabled(s, a) && !External(a) && !Doomed(Do(s, a))
  {
    hide Inv, Do;
    StackHolder(s, k);
    var t := s.locks[Of(k)];
    if s.threads[t].AddWait? {
      assert Clear(s, k);
      NotDoomedAt(s, k);
      AheadRuns(s, k);
      a := Plain(Head(s.strands[k]), k);
      AheadKeepsSafe(s, k);
    } else if s.threads[t].AddDone? {
      a := AddReturns(t);
      ReturnKeepsSafe(s, k, t);
    } else {
      var r := FreshResource(s.book.made, k);
      a := PostAdd(t, r);
      PostKeepsSafe(s, k, t, r);
    }
  }

  /** No lock of any channel's stacks is held. */
  predicate StacksUnlocked(s: State) { forall m | m in s.locks :: m == Root }

  lemma UnlockedIsSafe(s: State)
    requires StacksUnlocked(s)
    ensures !Doomed(s)
  {
  }

  /** With every lock free and every worker idle the closure at the head of a strand runs. */
  lemma HeadSteps(s: State, k: nat) returns (a: Action)
    requires Inv(s) && s.locks == map[] && Free(s, k)
    ensures Enabled(s, a) && !External(a) && Do(s, a).locks == map[]
  {
    hide Inv;
    HeadFacts(s, k);
    if TakesLock(Head(s.strands[k])) && Head(s.strands[k]).Shut? {
      a := if Of(k) in s.down then RunShutAgain(k) else Close(k);
    } else {
      a := Plain(Head(s.strands[k]), k);
    }
  }

  lemma IdlessThreadSteps(s: State, t: nat) returns (a: Action)
    requires Inv(s) && s.locks == map[] && (forall k | 0 <= k < |s.strands| :: !Pending(s.strands[k]))
    requires Thread(s, t) && s.threads[t] != Idle
    ensures Enabled(s, a) && !External(a) && !Doomed(Do(s, a))
  {
    hide Closures, Removals, Channels, Registered;
    assert !Waits(s.threads[t]);
    assert !Holds(s.threads[t]);
    match s.threads[t]
    case Draining(_, copy) =>
      if copy == {} {
        a := FinishShutdown(t);
      } else {
        var r :| r in copy;
        CopyIsBound(s, t);
        a := CallShutdown(t, r);
      }
    case _ => a := Acquire(t);
  }

  /** Unless an AddStack is stuck, the system can go on until every call has returned and every strand is empty, and in a
      way that gets no AddStack stuck. */
  lemma Progress(s: State) returns (a: Action)
    requires Inv(s) && !Quiescent(s) && !Doomed(s)
    ensures Enabled(s, a) && !External(a) && !Doomed(Do(s, a))
  {
    hide Inv, Do, Enabled, Gentle, Lost, DoomedAt;
    if j :| j in s.busy {
      a := BusySteps(s, j);
      GentleIsSafe(s, Do(s, a));
    } else if j :| j in s.waiting {
      if j in Lost(s) {
        LostIsDoomed(s, j);
      }
      a := WaitingSteps(s, j);
      GentleIsSafe(s, Do(s, a));
    } else {
      NobodyWorks(s);
      if k :| Of(k) in s.locks {
        a := HolderSteps(s, k);
      } else {
        forall m ensures m in s.locks ==> m == Root {
          match m
          case Root =>
          case Of(j) => assert Of(j) !in s.locks;
        }
        a := UnlockedSteps(s);
      }
    }
  }

  lemma NobodyWorks(s: State)
    requires Inv(s) && (forall j :: j !in s.busy) && (forall j :: j !in s.waiting)
    ensures s.busy == {} && s.waiting == {} && Spare(s)
  {
  }

  lemma UnlockedSteps(s: State) returns (a: Action)
    requires Inv(s) && !Quiescent(s) && StacksUnlocked(s) && s.busy == {} && Spare(s)
    ensures Enabled(s, a) && !External(a) && !Doomed(Do(s, a))
  {
    hide Inv, Doomed;
    if Root in s.locks {
      RootHolder(s);
      var t := s.locks[Root];
      a := if s.threads[t] == Claiming then Claim(t) else CreateReturns(t, Null);
      UnlockedIsSafe(Do(s, a));
    } else {
      assert s.locks == map[];
      if k: nat :| k < |s.strands| && Pending(s.strands[k]) {
        a := HeadSteps(s, k);
        UnlockedIsSafe(Do(s, a));
      } else {
        var t: nat :| t < |s.threads| && s.threads[t] != Idle;
        a := IdlessThreadSteps(s, t);
      }
    }
  }

  lemma {:induction false} QuietRun(s: State) returns (acts: seq<Action>, s': State)
    requires Inv(s) && !Doomed(s)
    ensures Run(s, acts, s') && SystemOnly(acts) && Quiescent(s')
    decreases Measure(s)
  {
    hide Inv, Do, Doomed, Enabled, Measure, Quiescent;
    if Quiescent(s) {
      acts, s' := [], s;
    } else {
      var a := Progress(s);
      StepInv(s, a);
      MeasureFalls(s, a);
      var rest, last := QuietRun(Do(s, a));
      acts, s' := [a] + rest, last;
      assert acts[1..] == rest;
    }
  }

  /** Without new calls everything can come to rest if and only if no AddStack is stuck behind a closure that needs the
      lock it holds. */
  lemma ComesToRestIff(s: State)
    requires Reachable(s)
    ensures (exists acts, s' :: Run(s, acts, s') && SystemOnly(acts) && Quiescent(s')) <==> !Doomed(s)
  {
    hide Reachable, Inv, Do, Enabled, DoomedAt, Quiescent;
    ReachableInv(s);
    if Doomed(s) {
      var k, i :| DoomedAt(s, k, i);
      forall acts, s' | Run(s, acts, s') ensures !Quiescent(s') {
        DoomedForever(s, k, i, acts, s');
        DoomedIsBusy(s', k, i);
      }
    } else {
      var acts, s' := QuietRun(s);
    }
  }

  lemma DoomedIsBusy(s: State, k: nat, i: nat)
    requires DoomedAt(s, k, i)
    ensures !Quiescent(s)
  {
  }

  /** However the threads and strands are scheduled, a run without new calls ends within the measure, and where it can go
      no further everything is at rest if and only if no AddStack is stuck. */
  lemma RunsEnd(s: State, acts: seq<Action>, s': State)
    requires Inv(s) && Run(s, acts, s') && SystemOnly(acts)
    requires forall a | Enabled(s', a) :: External(a)
    ensures |acts| <= Measure(s) && (Quiescent(s') <==> !Doomed(s'))
  {
    hide Inv, Do, Enabled, Measure, DoomedAt, Quiescent;
    SystemRunsAreShort(s, acts, s');
    if Doomed(s') {
      var k, i :| DoomedAt(s', k, i);
      DoomedIsBusy(s', k, i);
    } else if !Quiescent(s') {
      var a := Progress(s');
    }
  }

  /** No AddStack call is under way. */
  ghost predicate NoAddStack(s: State) {
    forall t | 0 <= t < |s.threads| ::
      && !s.threads[t].AddWait?
      && ((s.threads[t].WantBind? || s.threads[t].Creating?) ==> s.threads[t].kind == AtOnce)
  }

  lemma NoAddStackStays(s: State, a: Action)
    requires Inv(s) && NoAddStack(s) && Enabled(s, a) && !External(a)
    ensures NoAddStack(Do(s, a))
  {
    hide Inv;
    if a.RunShut? || a.RunShutAgain? || a.RunFlush? || a.RunAdd? {
      HeadFacts(s, a.k);
    }
  }

  lemma NotDoomed(s: State)
    requires NoAddStack(s)
    ensures !Doomed(s)
  {
  }

  /** Shutdown of the root manager, or of any channel or stack, always ends when no AddStack call is under way: however
      the threads and strands are scheduled, a run without new calls is bounded by the measure, and until every call has
      returned and every strand is empty it can go on. */
  lemma {:induction false} ShutdownEnds(s: State, acts: seq<Action>, s': State)
    requires Inv(s) && NoAddStack(s) && Run(s, acts, s') && SystemOnly(acts)
    ensures |acts| <= Measure(s)
    ensures Quiescent(s') || exists a :: Enabled(s', a) && !External(a)
    decreases |acts|
  {
    hide Inv, Do, Enabled, Measure, Doomed, NoAddStack;
    SystemRunsAreShort(s, acts, s');
    if acts == [] {
      NotDoomed(s);
      if !Quiescent(s) {
        var a := Progress(s);
      }
    } else {
      assert acts[0] in acts;
      StepInv(s, acts[0]);
      NoAddStackStays(s, acts[0]);
      ShutdownEnds(Do(s, acts[0]), acts[1..], s');
    }
  }

  // ---------------------------------------------------------------- stuck for ever

  /** Once AddStack is behind a closure that needs its lock nothing moves it: the lock is never
      released, so no Bind, Detach or Shutdown of that channel's stacks takes effect again. */
  lemma DoomedStays(s: State, a: Action, k: nat, i: nat)
    requires Inv(s) && DoomedAt(s, k, i) && Enabled(s, a)
    ensures DoomedAt(Do(s, a), k, i) && Do(s, a).locks[Of(k)] == s.locks[Of(k)]
    ensures TableOf(Do(s, a), Of(k)) == TableOf(s, Of(k))
  {
    hide Inv, Do, Enabled, DoomedAt;
    if RunsHead(a) {
      DoomedStaysRun(s, a, k, i);
    } else {
      DoomedStaysOther(s, a, k, i);
    }
    TablesKept(s, a, k, i);
  }

  lemma DoomedStaysRun(s: State, a: Action, k: nat, i: nat)
    requires Inv(s) && DoomedAt(s, k, i) && Enabled(s, a) && RunsHead(a)
    ensures DoomedAt(Do(s, a), k, i) && Do(s, a).locks[Of(k)] == s.locks[Of(k)]
  {
    hide Inv;
    StackHolder(s, k);
    DoomedThread(s, a, k, i);
    DoomedStrand(s, a, k, i);
  }

  lemma DoomedStaysOther(s: State, a: Action, k: nat, i: nat)
    requires Inv(s) && DoomedAt(s, k, i) && Enabled(s, a) && !RunsHead(a)
    ensures DoomedAt(Do(s, a), k, i) && Do(s, a).locks[Of(k)] == s.locks[Of(k)]
  {
    hide Inv;
    StackHolder(s, k);
    DoomedThread(s, a, k, i);
  }

  lemma TablesKept(s: State, a: Action, k: nat, i: nat)
    requires Inv(s) && DoomedAt(s, k, i) && Enabled(s, a)
    ensures TableOf(Do(s, a), Of(k)) == TableOf(s, Of(k))
  {
    hide Inv, Do, TableOf;
    TablesStep(s, a, Of(k));
    DoomedThread(s, a, k, i);
    DoomedStrand(s, a, k, i);
  }

  predicate RunsHead(a: Action) {
    a.RunRaw? || a.RunShut? || a.RunShutAgain? || a.RunDet? || a.RunFlush? || a.RunAdd?
  }

  predicate MovesCaller(s: State, a: Action, t: nat) {
    (a.RunAdd? || a.RunShut? || a.RunShutAgain? || a.RunFlush?) && At(s, a.k) &&
    !Head(s.strands[a.k]).Raw? && !Head(s.strands[a.k]).Det? && Head(s.strands[a.k]).caller == t
  }

  predicate Erases(s: State, a: Action, m: Owner) {
    a.RunDet? && At(s, a.k) && OwnerOf(Head(s.strands[a.k]).r) == m
  }

  predicate Returns(s: State, a: Action, m: Owner) {
    a.AddReturns? && Thread(s, a.t) && s.threads[a.t].AddDone? && OwnerOf(s.threads[a.t].r) == m
  }

  /** The thread that wakes up or returns in such a state is not the stuck one. */
  lemma DoomedThread(s: State, a: Action, k: nat, i: nat)
    requires Inv(s) && DoomedAt(s, k, i) && Enabled(s, a)
    ensures !Returns(s, a, Of(k)) && (a.RunAdd? ==> a.k != k) && !MovesCaller(s, a, s.locks[Of(k)])
  {
    hide Inv;
    if a.AddReturns? {
      HolderLocks(s, a.t);
    }
    if a.RunAdd? {
      AddHolds(s, a.k, s.strands[a.k].done);
      StackHolder(s, k);
    }
  }

  lemma HolderLocks(s: State, t: nat)
    requires Inv(s) && Thread(s, t) && Holds(s.threads[t])
    ensures Owned(s.threads[t]) in s.locks && s.locks[Owned(s.threads[t])] == t
  {
  }

  /** The closure in the way does not run. */
  lemma DoomedStrand(s: State, a: Action, k: nat, i: nat)
    requires Inv(s) && DoomedAt(s, k, i) && Enabled(s, a)
    ensures a != Close(k) && !Erases(s, a, Of(k)) && (s.strands[k].done == i && RunsHead(a) ==> a.k != k)
  {
    hide Inv;
    StackHolder(s, k);
    if At(s, k) {
      HeadFacts(s, k);
    }
  }

  lemma {:induction false} DoomedForever(s: State, k: nat, i: nat, acts: seq<Action>, s': State)
    requires Inv(s) && DoomedAt(s, k, i) && Run(s, acts, s')
    ensures DoomedAt(s', k, i) && Of(k) in s.locks && Of(k) in s'.locks && s'.locks[Of(k)] == s.locks[Of(k)]
    ensures TableOf(s', Of(k)) == TableOf(s, Of(k))
    decreases |acts|
  {
    hide Inv, Do, Enabled, TableOf;
    if acts != [] {
      StepInv(s, acts[0]);
      DoomedStays(s, acts[0], k, i);
      DoomedForever(Do(s, acts[0]), k, i, acts[1..], s');
    }
  }

  /** A call that waits for such a closure, or for one behind it, never returns. */
  lemma {:induction false} StuckBehind(s: State, k: nat, i: nat, t: nat, acts: seq<Action>, s': State)
    requires Inv(s) && DoomedAt(s, k, i) && Run(s, acts, s')
    requires Thread(s, t) && Sleeping(s.threads[t]) && s.threads[t].r.strand == k && s.threads[t].at >= i
    ensures Thread(s', t) && s'.threads[t] == s.threads[t]
    decreases |acts|
  {
    hide Inv, Do, Enabled, DoomedAt;
    if acts != [] {
      StepInv(s, acts[0]);
      DoomedStays(s, acts[0], k, i);
      SleeperStays(s, acts[0], k, i, t);
      StuckBehind(Do(s, acts[0]), k, i, t, acts[1..], s');
    }
  }

  lemma SleeperStays(s: State, a: Action, k: nat, i: nat, t: nat)
    requires Inv(s) && DoomedAt(s, k, i) && Enabled(s, a)
    requires Thread(s, t) && Sleeping(s.threads[t]) && s.threads[t].r.strand == k && s.threads[t].at >= i
    ensures Thread(Do(s, a), t) && Do(s, a).threads[t] == s.threads[t]
  {
    hide Inv, DoomedAt;
    if RunsHead(a) {
      SleeperStaysRun(s, a, k, i, t);
    }
  }

  lemma SleeperStaysRun(s: State, a: Action, k: nat, i: nat, t: nat)
    requires Inv(s) && DoomedAt(s, k, i) && Enabled(s, a) && RunsHead(a)
    requires Thread(s, t) && Sleeping(s.threads[t]) && s.threads[t].r.strand == k && s.threads[t].at >= i
    ensures Thread(Do(s, a), t) && Do(s, a).threads[t] == s.threads[t]
  {
    hide Inv;
    DoomedStrand(s, a, k, i);
    HeadFacts(s, a.k);
  }

  // ---------------------------------------------------------------- when AddStack returns

  /** With nothing ahead that needs the lock and a worker not lost, a run hands AddStack its answer, whatever other
      channels do. */
  lemma {:induction false} AddStackCanReturn(s: State, k: nat) returns (acts: seq<Action>, s': State)
    requires Inv(s) && Clear(s, k) && Of(k) in s.locks && Thread(s, s.locks[Of(k)]) && s.threads[s.locks[Of(k)]].AddWait?
    requires |Lost(s)| < s.workers
    ensures Run(s, acts, s') && SystemOnly(acts) && Thread(s', s.locks[Of(k)]) && s'.threads[s.locks[Of(k)]].AddDone?
    decreases Measure(s)
  {
    hide Inv, Clear, Lost, Measure, Do, Enabled, Gentle;
    var t := s.locks[Of(k)];
    StackHolder(s, k);
    var a: Action;
    if Spare(s) {
      NotDoomedAt(s, k);
      AheadRuns(s, k);
      a := Plain(Head(s.strands[k]), k);
      AheadKeepsSafe(s, k);
      AheadGoesOn(s, k);
    } else {
      var j := SomeoneElse(s);
      if j in s.busy {
        a := BusySteps(s, j);
      } else {
        a := WaitingSteps(s, j);
      }
      GentleIsSafe(s, Do(s, a));
      GentleGoesOn(s, Do(s, a), k);
    }
    var s1 := Do(s, a);
    MeasureFalls(s, a);
    StepInv(s, a);
    if s1.threads[t].AddDone? {
      acts, s' := [a], s1;
      assert Run(s1, [], s1);
    } else {
      StillClear(s, s1, k);
      Subset(Lost(s1), Lost(s));
      var rest, last := AddStackCanReturn(s1, k);
      acts, s' := [a] + rest, last;
      assert acts[1..] == rest;
    }
  }

  lemma Subset(a: set<nat>, b: set<nat>)
    requires a <= b
    ensures |a| <= |b|
  {
    SmallerSize(a, b);
  }

  /** If every worker is taken and not all are lost, one of them can be freed. */
  lemma SomeoneElse(s: State) returns (j: nat)
    requires Inv(s) && !Spare(s) && |Lost(s)| < s.workers
    ensures j in s.busy || (j in s.waiting && j !in Lost(s))
  {
    if b :| b in s.busy {
      j := b;
    } else {
      NoneBusy(s.busy);
      if s.waiting <= Lost(s) {
        Subset(s.waiting, Lost(s));
      }
      j :| j in s.waiting && j !in Lost(s);
    }
  }

  lemma NoneBusy(busy: set<nat>)
    requires forall j :: j !in busy
    ensures busy == {}
  {
  }

  lemma AheadGoesOn(s: State, k: nat)
    requires Inv(s) && Of(k) in s.locks && Thread(s, s.locks[Of(k)]) && s.threads[s.locks[Of(k)]].AddWait? && At(s, k)
    requires Enabled(s, Plain(Head(s.strands[k]), k)) && !Head(s.strands[k]).Det?
    ensures var s1 := Do(s, Plain(Head(s.strands[k]), k));
      && Of(k) in s1.locks && s1.locks[Of(k)] == s.locks[Of(k)] && Thread(s1, s.locks[Of(k)]) && s1.workers == s.workers
      && (s1.threads[s.locks[Of(k)]].AddWait? || s1.threads[s.locks[Of(k)]].AddDone?)
  {
    hide Inv;
    StackHolder(s, k);
    HeadFacts(s, k);
  }

  lemma GentleGoesOn(s: State, s1: State, k: nat)
    requires Gentle(s, s1) && Of(k) in s.locks && Thread(s, s.locks[Of(k)]) && s.threads[s.locks[Of(k)]].AddWait?
    ensures Of(k) in s1.locks && s1.locks[Of(k)] == s.locks[Of(k)] && Thread(s1, s.locks[Of(k)]) && s1.workers == s.workers
    ensures s1.threads[s.locks[Of(k)]].AddWait?
  {
  }

  lemma StillClear(s: State, s': State, k: nat)
    requires Clear(s, k) && forall j, i | DoomedAt(s', j, i) :: DoomedAt(s, j, i)
    ensures Clear(s', k)
  {
  }

  /** Once every worker is lost no `add` closure runs again, on any channel. */
  lemma StarvedStays(s: State, a: Action)
    requires Inv(s) && |Lost(s)| >= s.workers && Enabled(s, a)
    ensures Lost(s) <= Lost(Do(s, a)) && Do(s, a).workers == s.workers && !a.RunAdd?
  {
    hide Inv, Do;
    NoAddRuns(s, a);
    WorkersStay(s, a);
    forall j | j in Lost(s) ensures j in Lost(Do(s, a)) {
      LostIsDoomed(s, j);
      DoomedStays(s, a, j, s.strands[j].done);
      DoomedStrand(s, a, j, s.strands[j].done);
      WaitingStays(s, a, j);
    }
  }

  lemma NoAddRuns(s: State, a: Action)
    requires Inv(s) && |Lost(s)| >= s.workers && Enabled(s, a)
    ensures !a.RunAdd?
  {
    hide Inv;
    Subset(Lost(s), s.waiting);
    if a.RunAdd? {
      WaitingFacts(s, a.k);
    }
  }

  lemma WorkersStay(s: State, a: Action)
    requires Enabled(s, a)
    ensures Do(s, a).workers == s.workers
  {
  }

  lemma WaitingStays(s: State, a: Action, j: nat)
    requires Enabled(s, a) && j in s.waiting && a != Close(j) && (RunsHead(a) ==> a.k != j)
    ensures j in Do(s, a).waiting
  {
  }

  lemma {:induction false} StarvedForever(s: State, acts: seq<Action>, s': State, t: nat)
    requires Inv(s) && |Lost(s)| >= s.workers && Run(s, acts, s') && Thread(s, t) && s.threads[t].AddWait?
    ensures Thread(s', t) && s'.threads[t] == s.threads[t]
    decreases |acts|
  {
    hide Inv, Do, Enabled, Lost;
    if acts != [] {
      StepInv(s, acts[0]);
      StarvedStays(s, acts[0]);
      Subset(Lost(s), Lost(Do(s, acts[0])));
      WaiterStays(s, acts[0], t);
      StarvedForever(Do(s, acts[0]), acts[1..], s', t);
    }
  }

  lemma WaiterStays(s: State, a: Action, t: nat)
    requires Enabled(s, a) && Thread(s, t) && s.threads[t].AddWait? && !a.RunAdd?
    ensures Thread(Do(s, a), t) && Do(s, a).threads[t] == s.threads[t]
  {
  }

  /** AddStack, having queued its `add` closure, can ever get its answer if and only if no closure ahead of it needs the
      lock it holds, no stack's detach closure and no ShutdownImpl, and not every worker of the pool is lost to closures
      that wait for such a lock on other channels. */
  lemma AddStackReturnsIff(s: State, t: nat)
    requires Reachable(s) && Thread(s, t) && s.threads[t].AddWait?
    ensures var AddWait(r, at) := s.threads[t];
            && HasStrand(s, r)
            && ((exists acts, s' :: Run(s, acts, s') && Thread(s', t) && !InAddStack(s'.threads[t])) <==>
                && (forall i | s.strands[r.strand].done <= i < at && i < |s.strands[r.strand].history| ::
                      !TakesLock(s.strands[r.strand].history[i]))
                && |Lost(s)| < s.workers)
  {
    hide Reachable, Inv, Lost;
    ReachableInv(s);
    WaiterHolds(s, t);
    var AddWait(r, at) := s.threads[t];
    var k := r.strand;
    if i :| s.strands[k].done <= i < at && i < |s.strands[k].history| && TakesLock(s.strands[k].history[i]) {
      assert DoomedAt(s, k, i);
      forall acts, s' | Run(s, acts, s') ensures Thread(s', t) && InAddStack(s'.threads[t]) {
        DoomedForever(s, k, i, acts, s');
      }
    } else if |Lost(s)| >= s.workers {
      forall acts, s' | Run(s, acts, s') ensures Thread(s', t) && InAddStack(s'.threads[t]) {
        StarvedForever(s, acts, s', t);
      }
    } else {
      assert Clear(s, k);
      var acts, s' := AddStackCanReturn(s, k);
      assert !InAddStack(s'.threads[t]);
    }
  }

  lemma WaiterHolds(s: State, t: nat)
    requires Inv(s) && Thread(s, t) && s.threads[t].AddWait?
    ensures var r := s.threads[t].r; HasStrand(s, r) && Of(r.strand) in s.locks && s.locks[Of(r.strand)] == t
  {
    assert Holds(s.threads[t]) && Waits(s.threads[t]);
  }

  // ---------------------------------------------------------------- both deadlocks happen

  lemma {:induction false} RunThen(s: State, acts: seq<Action>, s': State, a: Action)
    requires Run(s, acts, s') && Enabled(s', a)
    ensures Run(s, acts + [a], Do(s', a))
    decreases |acts|
  {
    hide Do, Enabled;
    if acts == [] {
      assert acts + [a] == [a] && [a][1..] == [];
      assert Run(Do(s, a), [], Do(s, a));
    } else {
      RunThen(Do(s, acts[0]), acts[1..], s', a);
      assert (acts + [a])[1..] == acts[1..] + [a];
    }
  }

  lemma ReachableThen(s: State, a: Action)
    requires Reachable(s) && Enabled(s, a)
    ensures Reachable(Do(s, a))
  {
    hide Do, Enabled;
    var s0, acts :| Init(s0) && Run(s0, acts, s);
    RunThen(s0, acts, s, a);
  }

  lemma StartIsReachable(s: State)
    requires Init(s)
    ensures Reachable(s)
  {
    assert Run(s, [], s);
  }

  /** One channel on one strand. */
  lemma ChannelBound(c: Resource) returns (s: State)
    requires c.strand == 0 && c.channel
    ensures Reachable(s) && s.locks == map[] && s.down == {} && s.tracked == {c} && s.closing == {} && s.busy == {}
    ensures s.waiting == {} && s.workers == 1
    ensures s.threads == [Idle, Idle] && s.strands == [Strand([], 0)]
    ensures s.book == Born(Book({}, {}, {}, map[], {}, map[], map[]), c) && s.calls == Calls(map[], [], multiset{})
  {
    hide Reachable;
    s := State(map[], {}, {}, {}, {}, {}, 1, [Strand([], 0)], [Idle, Idle], Book({}, {}, {}, map[], {}, map[], map[]),
               Calls(map[], [], multiset{}));
    StartIsReachable(s);
    ReachableThen(s, BeginBind(0, AtOnce));
    s := Do(s, BeginBind(0, AtOnce));
    assert s.threads == [WantBind(AtOnce), Idle];
    ReachableThen(s, Acquire(0));
    s := Do(s, Acquire(0));
    assert s.threads == [Creating(AtOnce), Idle];
    ReachableThen(s, CreateReturns(0, Made(c)));
    s := Do(s, CreateReturns(0, Made(c)));
  }

  /** Thread 1 is inside AddStack, about to post. */
  lemma AddStackBegins(s0: State) returns (s: State)
    requires Reachable(s0) && s0.locks == map[] && s0.down == {} && 0 in s0.book.channels
    requires |s0.threads| == 2 && s0.threads[1] == Idle
    ensures Reachable(s)
    ensures s == s0.(threads := [s0.threads[0], Creating(OnStrand(0))], locks := map[Of(0) := 1])
  {
    hide Reachable;
    s := s0;
    ReachableThen(s, BeginBind(1, OnStrand(0)));
    s := Do(s, BeginBind(1, OnStrand(0)));
    assert s.threads == [s0.threads[0], WantBind(OnStrand(0))];
    ReachableThen(s, Acquire(1));
    s := Do(s, Acquire(1));
    assert s.threads == [s0.threads[0], Creating(OnStrand(0))];
  }

  /** Thread 0 has claimed what the root manager tracks. */
  lemma RootClaims(s0: State) returns (s: State)
    requires Reachable(s0) && Root !in s0.locks && |s0.threads| == 2 && s0.threads[0] == Idle && s0.calls.runners == []
    ensures Reachable(s) && s.threads == [Draining(0, OwnedBy(s0.tracked, Root)), s0.threads[1]]
    ensures s.locks == s0.locks && s.down == s0.down + {Root} && s.strands == s0.strands && s.book == s0.book
  {
    hide Reachable;
    s := s0;
    ReachableThen(s, BeginShutdown(0));
    s := Do(s, BeginShutdown(0));
    assert s.threads == [WantShutdown, s0.threads[1]];
    ReachableThen(s, Acquire(0));
    s := Do(s, Acquire(0));
    assert s.threads == [Claiming, s0.threads[1]];
    ReachableThen(s, Claim(0));
    s := Do(s, Claim(0));
    assert s.locks == s0.locks;
  }

  /** Thread 0 shuts the root manager down and waits for ShutdownImpl, which thread 1 keeps from running. */
  lemma CloseBehindAddStack(c: Resource) returns (s: State)
    requires c.strand == 0 && c.channel
    ensures Reachable(s) && s.locks == map[Of(0) := 1] && s.book.made == {c} && s.strands == [Strand([Shut(c, 0)], 0)]
    ensures |s.threads| == 2 && s.threads[0].Blocked? && s.threads[1] == Creating(OnStrand(0))
  {
    hide Reachable;
    var s0 := ChannelBound(c);
    var s1 := AddStackBegins(s0);
    var s2 := RootClaims(s1);
    assert OwnedBy({c}, Root) == {c};
    ReachableThen(s2, CallShutdown(0, c));
    s := Do(s2, CallShutdown(0, c));
    assert s.strands[0] == Strand([Shut(c, 0)], 0);
  }

  /** An AddStack is stuck and a root Shutdown waits, with no detach closure on any strand. */
  ghost predicate HangsWithoutDetach(s: State) {
    && Doomed(s) && (exists t | 0 <= t < |s.threads| :: s.threads[t].Blocked?)
    && forall k, i | 0 <= k < |s.strands| && 0 <= i < |s.strands[k].history| :: !s.strands[k].history[i].Det?
  }

  /** Shutting the root manager down while a stack is being added to a channel can hang both calls. */
  lemma ShutdownMeetsAddStack()
    ensures exists s :: Reachable(s) && HangsWithoutDetach(s)
  {
    hide Reachable;
    var c, r := Resource(0, 0, true), Resource(1, 0, false);
    var s := CloseBehindAddStack(c);
    ReachableThen(s, PostAdd(1, r));
    var s' := Do(s, PostAdd(1, r));
    assert s'.strands[0].history == [Shut(c, 0), Add(r, 1)];
    assert s'.strands == [Strand([Shut(c, 0), Add(r, 1)], 0)];
    assert s'.threads[0].Blocked? && s'.threads[1] == AddWait(r, 1);
    assert DoomedAt(s', 0, 0);
    assert HangsWithoutDetach(s');
  }

  /** Thread 1 has added the stack a. */
  lemma StackBound(c: Resource, a: Resource) returns (s: State)
    requires c.strand == 0 && c.channel && a.strand == 0 && !a.channel
    ensures Reachable(s) && s.locks == map[] && s.down == {} && s.book.bound == s.book.made == {c, a} && 0 in s.book.channels
    ensures s.threads == [Idle, Idle] && s.strands == [Strand([Add(a, 1)], 1)] && s.busy == s.waiting == {} && s.workers == 1
    ensures c in s.tracked
  {
    hide Reachable;
    var s0 := ChannelBound(c);
    var s1 := AddStackBegins(s0);
    ReachableThen(s1, PostAdd(1, a));
    var s2 := Do(s1, PostAdd(1, a));
    assert s2.strands[0].history == [Add(a, 1)];
    assert s2.threads == [Idle, AddWait(a, 0)] && s2.strands == [Strand([Add(a, 1)], 0)];
    s := AddCompletes(s2, a);
  }

  lemma AddCompletes(s0: State, a: Resource) returns (s: State)
    requires Reachable(s0) && s0.threads == [Idle, AddWait(a, 0)] && s0.strands == [Strand([Add(a, 1)], 0)]
    requires s0.locks == map[Of(0) := 1] && OwnerOf(a) == Of(0) && s0.busy == s0.waiting == {} && s0.workers == 1
    ensures Reachable(s) && s.locks == map[] && s.threads == [Idle, Idle] && s.strands == [Strand([Add(a, 1)], 1)]
    ensures s.down == s0.down && s.busy == s.waiting == {} && s.workers == 1 && s.tracked == s0.tracked + {a}
    ensures s.book == s0.book.(io := s0.book.io + {a}, bound := s0.book.bound + {a})
  {
    hide Reachable;
    ReachableThen(s0, RunAdd(0, true));
    var s1 := Do(s0, RunAdd(0, true));
    assert s1.threads == [Idle, AddDone(a, true)];
    ReachableThen(s1, AddReturns(1));
    s := Do(s1, AddReturns(1));
  }

  /** An AddStack is stuck, with no ShutdownImpl on any strand. */
  ghost predicate HangsWithoutClose(s: State) {
    Doomed(s) && forall k, i | 0 <= k < |s.strands| && 0 <= i < |s.strands[k].history| ::
      s.strands[k].history[i].Shut? ==> !s.strands[k].history[i].r.channel
  }

  /** Shutting one stack down while another is added can hang as well, behind the detach closure of the first. */
  lemma DetachMeetsAddStack()
    ensures exists s :: Reachable(s) && HangsWithoutClose(s)
  {
    hide Reachable;
    var c, a, r := Resource(0, 0, true), Resource(1, 0, false), Resource(2, 0, false);
    var s := StackClosing(c, a);
    s := AddStackBegins(s);
    ReachableThen(s, PostAdd(1, r));
    var s' := Do(s, PostAdd(1, r));
    assert s'.strands[0].history == [Add(a, 1), Shut(a, 0), Det(a), Flush(a, 0), Add(r, 1)];
    assert s'.strands == [Strand([Add(a, 1), Shut(a, 0), Det(a), Flush(a, 0), Add(r, 1)], 2)];
    assert s'.threads[1] == AddWait(r, 4);
    assert DoomedAt(s', 0, 2);
    assert HangsWithoutClose(s');
  }

  lemma StackClosing(c: Resource, a: Resource) returns (s: State)
    requires c.strand == 0 && c.channel && a.strand == 0 && !a.channel
    ensures Reachable(s) && s.locks == map[] && s.down == {} && s.book.bound == s.book.made == {c, a} && 0 in s.book.channels
    ensures s.threads == [UserBlocked(a, 3), Idle] && c in s.tracked
    ensures s.strands == [Strand([Add(a, 1), Shut(a, 0), Det(a), Flush(a, 0)], 2)]
  {
    hide Reachable;
    var s0 := StackBound(c, a);
    ReachableThen(s0, UserShutdown(0, a));
    var s1 := Do(s0, UserShutdown(0, a));
    assert s1.strands[0].history == [Add(a, 1), Shut(a, 0)];
    assert s1.strands == [Strand([Add(a, 1), Shut(a, 0)], 1)];
    ReachableThen(s1, RunShut(0));
    s := Do(s1, RunShut(0));
    assert s.strands[0].history == [Add(a, 1), Shut(a, 0), Det(a), Flush(a, 0)];
    assert s.strands == [Strand([Add(a, 1), Shut(a, 0), Det(a), Flush(a, 0)], 2)];
  }

  // ---------------------------------------------------------------- a pool of one worker

  /** The closure that AddStack waits for is the next its strand will run. */
  predicate NextInLine(s: State, t: nat) {
    && Thread(s, t) && s.threads[t].AddWait? && HasStrand(s, s.threads[t].r)
    && s.strands[s.threads[t].r.strand].done == s.threads[t].at
  }

  ghost predicate NeverReturns(s: State, t: nat) {
    Thread(s, t) && forall acts, s' | Run(s, acts, s') :: Thread(s', t) && s'.threads[t] == s.threads[t]
  }

  /** Thread 0 makes a channel. */
  lemma MakesChannel(s0: State, c: Resource) returns (s: State)
    requires Reachable(s0) && s0.locks == map[] && Root !in s0.down && |s0.threads| > 0 && s0.threads[0] == Idle
    requires c.channel && c !in s0.book.made && HasStrand(s0, c) && c.strand !in s0.book.channels
    ensures Reachable(s) && s == s0.(tracked := s0.tracked + {c}, book := Born(s0.book, c))
  {
    hide Reachable, Born;
    s := s0;
    ReachableThen(s, BeginBind(0, AtOnce));
    s := Do(s, BeginBind(0, AtOnce));
    ReachableThen(s, Acquire(0));
    s := Do(s, Acquire(0));
    ReachableThen(s, CreateReturns(0, Made(c)));
    s := Do(s, CreateReturns(0, Made(c)));
    assert s.threads == s0.threads;
    assert s.locks == s0.locks;
  }

  /** Thread t goes as far into AddStack on strand k as the lock. */
  lemma EntersAddStack(s0: State, t: nat, k: nat) returns (s: State)
    requires Reachable(s0) && Of(k) !in s0.locks && Of(k) !in s0.down && Thread(s0, t) && s0.threads[t] == Idle
    requires k in s0.book.channels
    ensures Reachable(s) && s == s0.(threads := s0.threads[t := Creating(OnStrand(k))], locks := s0.locks[Of(k) := t])
  {
    hide Reachable;
    s := s0;
    ReachableThen(s, BeginBind(t, OnStrand(k)));
    s := Do(s, BeginBind(t, OnStrand(k)));
    ReachableThen(s, Acquire(t));
    s := Do(s, Acquire(t));
    assert s.threads == s0.threads[t := Creating(OnStrand(k))];
  }

  lemma TwoChannels(c: Resource, d: Resource) returns (s: State)
    requires c.strand == 0 && c.channel && d.strand == 1 && d.channel
    ensures Reachable(s) && s.locks == map[] && s.down == {} && s.waiting == {} && s.busy == {} && s.workers == 1
    ensures s.strands == [Strand([], 0), Strand([], 0)] && s.threads == [Idle, Idle, Idle]
    ensures {0, 1} == s.book.channels.Keys && s.book.made == s.book.bound == {c, d}
  {
    hide Reachable;
    s := State(map[], {}, {}, {}, {}, {}, 1, [Strand([], 0), Strand([], 0)], [Idle, Idle, Idle],
               Book({}, {}, {}, map[], {}, map[], map[]), Calls(map[], [], multiset{}));
    StartIsReachable(s);
    s := MakesChannel(s, c);
    s := MakesChannel(s, d);
  }

  /** The one worker waits inside ShutdownImpl of channel 0 for the lock that thread 1 holds inside AddStack. */
  lemma WorkerIsLost(c: Resource, d: Resource) returns (s: State)
    requires c.strand == 0 && c.channel && d.strand == 1 && d.channel
    ensures Reachable(s) && s.locks == map[Of(0) := 1] && s.down == {} && s.waiting == {0} && s.busy == {} && s.workers == 1
    ensures s.strands == [Strand([Shut(c, 0)], 0), Strand([], 0)] && s.threads == [UserBlocked(c, 0), Creating(OnStrand(0)), Idle]
    ensures 1 in s.book.channels && s.book.made == {c, d}
  {
    hide Reachable;
    s := TwoChannels(c, d);
    ReachableThen(s, UserShutdown(0, c));
    s := Do(s, UserShutdown(0, c));
    assert s.strands[0].history == [Shut(c, 0)];
    s := EntersAddStack(s, 1, 0);
    ReachableThen(s, Start(0));
    s := Do(s, Start(0));
  }

  /** With one worker, a ShutdownImpl caught behind an AddStack on its own channel stops AddStack on every other channel,
      even one whose `add` closure is the next in line. */
  lemma StarvedByAnother()
    ensures exists s, t :: Reachable(s) && NextInLine(s, t) && NeverReturns(s, t)
  {
    hide Reachable, Inv;
    var c, d, r := Resource(0, 0, true), Resource(1, 1, true), Resource(2, 1, false);
    var s := WorkerIsLost(c, d);
    s := EntersAddStack(s, 2, 1);
    ReachableThen(s, PostAdd(2, r));
    s := Do(s, PostAdd(2, r));
    assert s.strands[1].history == [Add(r, 2)] && NextInLine(s, 2);
    assert Lost(s) == {0};
    ReachableInv(s);
    forall acts, s' | Run(s, acts, s') ensures Thread(s', 2) && s'.threads[2] == s.threads[2] {
      StarvedForever(s, acts, s', 2);
    }
    assert NeverReturns(s, 2);
  }
}
