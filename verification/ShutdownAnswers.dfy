/** What becomes of a stack by the answer its `add` closure gives: AddStack of cpp/lib/src/channel/DNP3Channel.cpp with
    IOHandler::AddContext of cpp/lib/src/channel/IOHandler.cpp. */
module ShutdownAnswers {
  import opened Resources
  import opened ShutdownProtocol
  import opened ShutdownInvariant
  import opened ShutdownTheorems

  // ---------------------------------------------------------------- registered

  /** What was bound is registered with its io handler exactly until a shutdown closure takes it out. */
  lemma BoundIsRegistered(s: State, r: Resource)
    requires Reachable(s) && r in s.book.bound
    ensures r in s.book.io <==> r !in s.book.removedAt
  {
    hide Reachable, Books, Closing, Pool, Calling, Closures, Waiting;
    ReachableInv(s);
  }

  lemma {:induction false} ReachableOn(s: State, acts: seq<Action>, s': State)
    requires Reachable(s) && Run(s, acts, s')
    ensures Reachable(s')
    decreases |acts|
  {
    hide Reachable, Do, Enabled;
    if acts != [] {
      ReachableThen(s, acts[0]);
      ReachableOn(Do(s, acts[0]), acts[1..], s');
    }
  }

  /** Work may be posted for whatever is registered. In every later state it is on the strand where it was put, behind all
      that was there before, and until it has run something keeps the resource alive. */
  lemma PostedWorkIsSafe(s: State, r: Resource, acts: seq<Action>, s': State)
    requires Reachable(s) && r in s.book.io && r in s.book.bound
    requires Enabled(s, PostRaw(r)) ==> Run(Do(s, PostRaw(r)), acts, s')
    ensures Enabled(s, PostRaw(r)) && HasStrand(s, r) && HasStrand(s', r)
    ensures var before, x := s.strands[r.strand].history, s'.strands[r.strand];
      && before + [Raw(r)] <= x.history && x.done <= |x.history|
      && (x.done <= |before| ==> RefCount(s', r) >= 1)
  {
    hide Reachable, Inv, RefCount, Run;
    ReachableInv(s);
    HasItsStrand(s, r);
    var s1 := Do(s, PostRaw(r));
    ReachableThen(s, PostRaw(r));
    ReachableInv(s1);
    ReachableOn(s1, acts, s');
    StrandsGrowOn(s1, acts, s', r.strand);
    ReachableInv(s');
    StrandsAreOk(s', r.strand);
    var n := |s.strands[r.strand].history|;
    assert s'.strands[r.strand].history[n] == Raw(r);
    if s'.strands[r.strand].done <= n {
      PendingWorkIsAlive(s', r.strand, n);
    }
  }

  lemma HasItsStrand(s: State, r: Resource)
    requires Inv(s) && r in s.book.bound
    ensures HasStrand(s, r)
  {
  }

  lemma StrandsAreOk(s: State, k: nat)
    requires Inv(s) && k < |s.strands|
    ensures s.strands[k].done <= |s.strands[k].history|
  {
  }

  // ---------------------------------------------------------------- too late

  /** An AddStack that comes while ShutdownImpl is taking the channel down gets nothing and leaves everything as it was. */
  lemma LateAddGetsNothing(s: State, t: nat, k: nat)
    requires Reachable(s) && k in s.busy && Thread(s, t) && s.threads[t] == Idle
    ensures Enabled(s, BeginBind(t, OnStrand(k)))
    ensures var s1 := Do(s, BeginBind(t, OnStrand(k))); Enabled(s1, Acquire(t)) && Do(s1, Acquire(t)) == s
  {
    hide Reachable, Inv;
    ReachableInv(s);
    BusyIsDown(s, k);
    BusyFacts(s, k);
    var s1 := Do(s, BeginBind(t, OnStrand(k)));
    assert s1.threads[t := Idle] == s.threads;
  }

  lemma BusyIsDown(s: State, k: nat)
    requires Inv(s) && k in s.busy
    ensures k in s.book.channels && Of(k) in s.down
  {
  }

  /** A `create` that makes no channel, by a null item or an exception, lets go of the lock and leaves everything else as it
      was. */
  lemma FailedCreateLeavesNothing(s: State, t: nat, c: Creation)
    requires Reachable(s) && Thread(s, t) && s.threads[t] == Creating(AtOnce) && !c.Made?
    ensures Root in s.locks && s.locks[Root] == t && Enabled(s, CreateReturns(t, c))
    ensures Do(s, CreateReturns(t, c)) == s.(threads := s.threads[t := Idle], locks := s.locks - {Root})
  {
    hide Reachable, Inv;
    ReachableInv(s);
    CreatorHolds(s, t);
  }

  lemma CreatorHolds(s: State, t: nat)
    requires Inv(s) && Thread(s, t) && s.threads[t] == Creating(AtOnce)
    ensures Root in s.locks && s.locks[Root] == t
  {
    assert Holds(s.threads[t]);
  }

  // ---------------------------------------------------------------- refused

  /** No `add` closure of r is left to run, and none was answered with true. */
  ghost predicate Refused(s: State, r: Resource) {
    && r in s.book.made && r !in s.book.io && r !in s.book.bound
    && forall t | 0 <= t < |s.threads| && (s.threads[t].AddWait? || s.threads[t].AddDone?) && s.threads[t].r == r ::
         s.threads[t].AddDone? && !s.threads[t].ok
  }

  lemma RefusedStays(s: State, a: Action, r: Resource)
    requires Inv(s) && Refused(s, r) && Enabled(s, a)
    ensures Refused(Do(s, a), r)
  {
    hide Inv, Spare, ClaimedBy, Posted, Ran;
    if a.RunAdd? {
      HeadFacts(s, a.k);
    }
  }

  lemma {:induction false} RefusedForever(s: State, acts: seq<Action>, s': State, r: Resource)
    requires Inv(s) && Refused(s, r) && Run(s, acts, s')
    ensures Inv(s') && Refused(s', r)
    decreases |acts|
  {
    hide Inv, Do, Enabled, Refused;
    if acts != [] {
      StepInv(s, acts[0]);
      RefusedStays(s, acts[0], r);
      RefusedForever(Do(s, acts[0]), acts[1..], s', r);
    }
  }

  // ---------------------------------------------------------------- taken in

  ghost predicate WasRegistered(b: Book, r: Resource) { r in b.io || r in b.removedAt }

  /** The call of thread t binds r or has bound it. */
  ghost predicate GetsBound(s: State, r: Resource, t: nat) {
    r in s.book.bound || (Thread(s, t) && s.threads[t] == AddDone(r, true))
  }

  ghost predicate TakenIn(s: State, r: Resource, t: nat) { WasRegistered(s.book, r) && GetsBound(s, r, t) }

  lemma RegisteredStays(s: State, a: Action, r: Resource)
    requires WasRegistered(s.book, r) && Enabled(s, a)
    ensures WasRegistered(Do(s, a).book, r)
  {
    hide Spare, ClaimedBy, Posted, Ran;
  }

  lemma BoundStays(s: State, a: Action, r: Resource, t: nat)
    requires Inv(s) && GetsBound(s, r, t) && Enabled(s, a)
    ensures GetsBound(Do(s, a), r, t)
  {
    hide Inv, Spare, ClaimedBy, Posted, Ran;
    if a.RunAdd? || a.RunShut? || a.RunShutAgain? || a.RunFlush? {
      HeadFacts(s, a.k);
    }
  }

  lemma TakenStays(s: State, a: Action, r: Resource, t: nat)
    requires Inv(s) && TakenIn(s, r, t) && Enabled(s, a)
    ensures TakenIn(Do(s, a), r, t)
  {
    hide Inv, Do, Enabled, WasRegistered, GetsBound;
    RegisteredStays(s, a, r);
    BoundStays(s, a, r, t);
  }

  lemma {:induction false} TakenForever(s: State, acts: seq<Action>, s': State, r: Resource, t: nat)
    requires Inv(s) && TakenIn(s, r, t) && Run(s, acts, s')
    ensures TakenIn(s', r, t)
    decreases |acts|
  {
    hide Inv, Do, Enabled, TakenIn;
    if acts != [] {
      StepInv(s, acts[0]);
      TakenStays(s, acts[0], r, t);
      TakenForever(Do(s, acts[0]), acts[1..], s', r, t);
    }
  }

  // ---------------------------------------------------------------- the answer

  lemma AnswerGiven(s: State, k: nat, free: bool)
    requires Inv(s) && Free(s, k) && Head(s.strands[k]).Add?
    ensures Enabled(s, RunAdd(k, free))
    ensures
      var Add(r, t) := Head(s.strands[k]);
      var s1 := Do(s, RunAdd(k, free));
      && Thread(s1, t) && s1.threads[t] == AddDone(r, free)
      && (if free then TakenIn(s1, r, t) else Refused(s1, r))
  {
    hide Inv, Spare;
    HeadFacts(s, k);
    OneWaiter(s, k);
  }

  /** The caller of the `add` closure at the head is the only thread that waits for, or has an answer about, its stack. */
  lemma OneWaiter(s: State, k: nat)
    requires Inv(s) && At(s, k) && Head(s.strands[k]).Add?
    ensures
      var Add(r, u) := Head(s.strands[k]);
      forall t | 0 <= t < |s.threads| && (s.threads[t].AddWait? || s.threads[t].AddDone?) && s.threads[t].r == r :: t == u
  {
    hide Calling, Removals, Closures, Closing, Pool, Partition, Channels;
    var Add(r, u) := Head(s.strands[k]);
    AddHolds(s, k, s.strands[k].done);
    assert Holds(s.threads[u]);
    forall t | 0 <= t < |s.threads| && (s.threads[t].AddWait? || s.threads[t].AddDone?) && s.threads[t].r == r ensures t == u {
      assert Holds(s.threads[t]);
    }
  }

  /** Either answer is possible, and it decides for ever: a stack refused, because its route is in use, is never registered,
      bound or tracked, and one taken in is bound when its call returns and registered until a shutdown takes it out. */
  lemma AnswerDecides(s: State, k: nat, free: bool, acts: seq<Action>, s': State)
    requires Reachable(s) && Free(s, k) && Head(s.strands[k]).Add?
    requires Enabled(s, RunAdd(k, free)) ==> Run(Do(s, RunAdd(k, free)), acts, s')
    ensures Enabled(s, RunAdd(k, free))
    ensures
      var Add(r, t) := Head(s.strands[k]);
      if free then
        && (r in s'.book.io || r in s'.book.removedAt)
        && (r in s'.book.bound || (Thread(s', t) && s'.threads[t] == AddDone(r, true)))
      else
        r !in s'.book.io && r !in s'.book.bound && r !in s'.tracked && r !in s'.book.removedAt
  {
    hide Reachable, Inv, Do, Enabled, Run;
    ReachableInv(s);
    AnswerGiven(s, k, free);
    StepInv(s, RunAdd(k, free));
    var Add(r, t) := Head(s.strands[k]);
    if free {
      TakenForever(Do(s, RunAdd(k, free)), acts, s', r, t);
    } else {
      RefusedForever(Do(s, RunAdd(k, free)), acts, s', r);
      UnboundIsNowhere(s', r);
    }
  }

  lemma UnboundIsNowhere(s: State, r: Resource)
    requires Inv(s) && r !in s.book.bound
    ensures r !in s.tracked && r !in s.book.removedAt
  {
  }
}
