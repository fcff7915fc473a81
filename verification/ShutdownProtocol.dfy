/** Every interleaving of Bind, Shutdown, stack shutdown and Detach over the root manager and the managers of all
    channels: cpp/lib/src/ResourceManager.{h,cpp}, cpp/lib/src/StackBase.h, and Shutdown, ShutdownImpl and AddStack
    of cpp/lib/src/channel/DNP3Channel.cpp.

    Any number of threads share any number of channels, each with a strand, a manager of its stacks and that
    manager's mutex. The strands run on a pool of workers of any size, and a closure that has started and waits for a
    mutex keeps its worker. Methods are split at their lock boundaries and at the points where they block on a strand. */
module ShutdownProtocol {
  import opened Resources

  // ---------------------------------------------------------------- states

  /** What sits in a strand. `caller` is the blocked thread that the closure will wake. */
  datatype Closure =
    | Raw(r: Resource)                    // earlier posted work that uses r without holding a reference
    | Shut(r: Resource, caller: nat)      // the `shutdown` closure of a stack or a channel; holds self
    | Det(r: Resource)                    // the `detach` closure; holds self
    | Flush(r: Resource, caller: nat)     // end of block_until_and_flush
    | Add(r: Resource, caller: nat)       // the `add` closure of AddStack; holds the stack

  /** A FIFO strand: everything ever posted, of which the first `done` closures have run. */
  datatype Strand = Strand(history: seq<Closure>, done: nat)

  /** Whether `create` answers at once with a channel (DNP3ManagerImpl) or asks a channel's strand (AddStack). */
  datatype CreateKind = AtOnce | OnStrand(strand: nat)

  /** Where a thread is. `at` is the index, in the strand of r, of the closure it waits for. */
  datatype Phase =
    | Idle
    | WantBind(kind: CreateKind)
    | Creating(kind: CreateKind)
    | AddWait(r: Resource, at: nat)
    | AddDone(r: Resource, ok: bool)
    | WantShutdown
    | Claiming
    | Draining(call: nat, copy: set<Resource>)
    | Blocked(call: nat, copy: set<Resource>, r: Resource, at: nat)
    | UserBlocked(r: Resource, at: nat)

  /** Whose table and mutex: the root manager's, or those of the stacks of the channel on a strand. */
  datatype Owner = Root | Of(strand: nat)

  function OwnerOf(r: Resource): Owner { if r.channel then Root else Of(r.strand) }

  function KindOwner(kind: CreateKind): Owner { if kind.AtOnce? then Root else Of(kind.strand) }

  function OwnedBy(rs: set<Resource>, m: Owner): set<Resource> { set r | r in rs && OwnerOf(r) == m }

  /** Where resources stand, and have stood. */
  datatype Book = Book(
    io: set<Resource>,                    // registered with an io handler
    made: set<Resource>,                  // every object ever constructed
    bound: set<Resource>,                 // every resource a Bind ever inserted
    channels: map<nat, Resource>,         // the channel of each strand that has one
    dropped: set<Resource>,               // erased by Detach while it was tracked
    removedAt: map<Resource, nat>,        // index of the first shutdown closure that took r out of io
    detachAt: map<Resource, nat>          // index of the last detach closure posted for r
  )

  /** What ResourceManager::Shutdown calls have claimed and done. */
  datatype Calls = Calls(
    claimed: map<Resource, nat>,          // every resource claimed, and by which call
    runners: seq<nat>,                    // the thread of each call, or the one a ShutdownImpl will wake
    shutdowns: multiset<Resource>         // IResource::Shutdown calls made
  )

  datatype State = State(
    locks: map<Owner, nat>,               // the thread that holds each locked mutex
    down: set<Owner>,                     // is_shutting_down
    tracked: set<Resource>,               // `resources` of every manager
    closing: set<Resource>,               // stacks claimed by a ShutdownImpl and still to be shut down by it
    busy: set<nat>,                       // strands inside ShutdownImpl, past its lock
    waiting: set<nat>,                    // strands whose next closure has started and waits for a mutex
    workers: nat,                         // threads of the pool the strands run on
    strands: seq<Strand>,
    threads: seq<Phase>,
    book: Book,
    calls: Calls)

  ghost predicate Init(s: State) {
    && s.locks == map[] && s.down == {} && s.tracked == {} && s.closing == {} && s.busy == {}
    && s.waiting == {} && s.workers >= 1
    && s.book == Book({}, {}, {}, map[], {}, map[], map[])
    && s.calls == Calls(map[], [], multiset{})
    && (forall k | 0 <= k < |s.strands| :: s.strands[k] == Strand([], 0))
    && (forall t | 0 <= t < |s.threads| :: s.threads[t] == Idle)
  }

  // ---------------------------------------------------------------- actions

  datatype Action =
    // new work from outside
    | BeginBind(t: nat, kind: CreateKind)
    | BeginShutdown(t: nat)
    | UserShutdown(t: nat, r: Resource)
    | PostRaw(r: Resource)
    // the system finishing the work it has
    | Acquire(t: nat)
    | CreateReturns(t: nat, c: Creation)
    | PostAdd(t: nat, r: Resource)
    | AddReturns(t: nat)
    | Claim(t: nat)
    | CallShutdown(t: nat, r: Resource)
    | FinishShutdown(t: nat)
    | Start(k: nat)                       // a closure starts and finds the mutex it needs locked
    | RunRaw(k: nat)
    | Close(k: nat)                       // ShutdownImpl takes the lock of the stacks and claims them
    | CloseOne(k: nat, r: Resource)       // and shuts one down, on its own strand
    | RunShut(k: nat)                     // a stack's shutdown closure, or the end of ShutdownImpl
    | RunShutAgain(k: nat)                // ShutdownImpl of a channel that is down already
    | RunDet(k: nat)
    | RunFlush(k: nat)
    | RunAdd(k: nat, routeFree: bool)

  predicate External(a: Action) {
    a.BeginBind? || a.BeginShutdown? || a.UserShutdown? || a.PostRaw?
  }

  predicate Pending(x: Strand) { x.done < |x.history| }

  function Head(x: Strand): Closure
    requires Pending(x)
  {
    x.history[x.done]
  }

  predicate At(s: State, k: nat) { k < |s.strands| && Pending(s.strands[k]) }

  /** Some worker has nothing to do. */
  predicate Spare(s: State) { |s.waiting| + |s.busy| < s.workers }

  /** The strand can run its next closure: the closure has a worker, or gets one. */
  predicate Free(s: State, k: nat) { At(s, k) && k !in s.busy && (k in s.waiting || Spare(s)) }

  /** The closures that lock a mutex: a detach closure, and ShutdownImpl. */
  predicate Locks(c: Closure) { c.Det? || (c.Shut? && c.r.channel) }

  function Needed(c: Closure): Owner { if c.Det? then OwnerOf(c.r) else Of(c.r.strand) }

  predicate Thread(s: State, t: nat) { t < |s.threads| }

  predicate HasStrand(s: State, r: Resource) { r.strand < |s.strands| }

  predicate Sleeping(p: Phase) { p.Blocked? || p.UserBlocked? }

  /** The caller of the shutdown or flush closure at the head is waiting for it. */
  predicate CallerSleeps(s: State, k: nat)
    requires At(s, k) && (Head(s.strands[k]).Shut? || Head(s.strands[k]).Flush?)
  {
    Thread(s, Head(s.strands[k]).caller) && Sleeping(s.threads[Head(s.strands[k]).caller])
  }

  function Wanted(p: Phase): Owner
    requires p.WantBind? || p.WantShutdown?
  {
    if p.WantBind? then KindOwner(p.kind) else Root
  }

  /** The channel on strand k exists and its ShutdownImpl has not ended; after that AddStack would dereference null. */
  predicate HasManager(s: State, k: nat) { k in s.book.channels && (Of(k) in s.down ==> k in s.busy) }

  predicate Enabled(s: State, a: Action) {
    match a
    case BeginBind(t, kind) =>
      Thread(s, t) && s.threads[t] == Idle && (kind.OnStrand? ==> HasManager(s, kind.strand))
    case BeginShutdown(t) => Thread(s, t) && s.threads[t] == Idle
    case UserShutdown(t, r) => Thread(s, t) && s.threads[t] == Idle && r in s.book.bound && HasStrand(s, r)
    case PostRaw(r) => r in s.book.io && r in s.book.bound && HasStrand(s, r)
    case Acquire(t) =>
      Thread(s, t) && (s.threads[t].WantBind? || s.threads[t].WantShutdown?) && Wanted(s.threads[t]) !in s.locks
    case CreateReturns(t, c) =>
      Thread(s, t) && s.threads[t] == Creating(AtOnce) &&
      (c.Made? ==> c.item.channel && c.item !in s.book.made && HasStrand(s, c.item) && c.item.strand !in s.book.channels)
    case PostAdd(t, r) =>
      Thread(s, t) && s.threads[t] == Creating(OnStrand(r.strand)) && !r.channel && r !in s.book.made && HasStrand(s, r)
    case AddReturns(t) => Thread(s, t) && s.threads[t].AddDone?
    case Claim(t) => Thread(s, t) && s.threads[t] == Claiming
    case CallShutdown(t, r) =>
      Thread(s, t) && s.threads[t].Draining? && r in s.threads[t].copy && HasStrand(s, r)
    case FinishShutdown(t) => Thread(s, t) && s.threads[t].Draining? && s.threads[t].copy == {}
    case Start(k) =>
      At(s, k) && k !in s.busy && k !in s.waiting && Spare(s) && Locks(Head(s.strands[k]))
      && Needed(Head(s.strands[k])) in s.locks && (Head(s.strands[k]).Shut? ==> Of(k) !in s.down)
    case RunRaw(k) => Free(s, k) && Head(s.strands[k]).Raw?
    case Close(k) =>
      Free(s, k) && Head(s.strands[k]).Shut? && Head(s.strands[k]).r.channel && Of(k) !in s.down && Of(k) !in s.locks
    case CloseOne(k, r) => At(s, k) && k in s.busy && r in s.closing && r.strand == k
    case RunShut(k) =>
      At(s, k) && Head(s.strands[k]).Shut? && CallerSleeps(s, k) &&
      if Head(s.strands[k]).r.channel then k in s.busy && forall r | r in s.closing :: r.strand != k
      else Free(s, k)
    case RunShutAgain(k) =>
      Free(s, k) && Head(s.strands[k]).Shut? && Head(s.strands[k]).r.channel && Of(k) in s.down && CallerSleeps(s, k)
    case RunDet(k) => Free(s, k) && Head(s.strands[k]).Det? && OwnerOf(Head(s.strands[k]).r) !in s.locks
    case RunFlush(k) => Free(s, k) && Head(s.strands[k]).Flush? && CallerSleeps(s, k)
    case RunAdd(k, _) => Free(s, k) && Head(s.strands[k]).Add? && Thread(s, Head(s.strands[k]).caller)
  }

  function Posted(strands: seq<Strand>, k: nat, cs: seq<Closure>): seq<Strand>
    requires k < |strands|
  {
    strands[k := strands[k].(history := strands[k].history + cs)]
  }

  function Ran(strands: seq<Strand>, k: nat): seq<Strand>
    requires k < |strands|
  {
    strands[k := strands[k].(done := strands[k].done + 1)]
  }

  /** The index the next closure posted to the strand of r will get. */
  function Tail(s: State, r: Resource): nat
    requires HasStrand(s, r)
  {
    |s.strands[r.strand].history|
  }

  function Woken(p: Phase): Phase
    requires Sleeping(p)
  {
    if p.Blocked? then Draining(p.call, p.copy) else Idle
  }

  /** The same wait, now for the closure at index `at`. */
  function Asleep(p: Phase, at: nat): Phase
    requires Sleeping(p)
  {
    if p.Blocked? then Blocked(p.call, p.copy, p.r, at) else UserBlocked(p.r, at)
  }

  function Do(s: State, a: Action): State
    requires Enabled(s, a)
  {
    match a
    case BeginBind(t, kind) => s.(threads := s.threads[t := WantBind(kind)])
    case BeginShutdown(t) => s.(threads := s.threads[t := WantShutdown])
    case UserShutdown(t, r) =>
      s.(threads := s.threads[t := UserBlocked(r, Tail(s, r))], strands := Posted(s.strands, r.strand, [Shut(r, t)]))
    case PostRaw(r) => s.(strands := Posted(s.strands, r.strand, [Raw(r)]))
    case Acquire(t) =>
      if s.threads[t].WantShutdown? then s.(threads := s.threads[t := Claiming], locks := s.locks[Root := t])
      else
        var kind := s.threads[t].kind;
        if KindOwner(kind) in s.down then s.(threads := s.threads[t := Idle])
        else s.(threads := s.threads[t := Creating(kind)], locks := s.locks[KindOwner(kind) := t])
    case CreateReturns(t, c) =>
      var s' := s.(threads := s.threads[t := Idle], locks := s.locks - {Root});
      if c.Made? then s'.(tracked := s.tracked + {c.item}, book := Born(s.book, c.item)) else s'
    case PostAdd(t, r) =>
      s.(threads := s.threads[t := AddWait(r, Tail(s, r))], strands := Posted(s.strands, r.strand, [Add(r, t)]),
         book := s.book.(made := s.book.made + {r}))
    case AddReturns(t) =>
      var AddDone(r, ok) := s.threads[t];
      var s' := s.(threads := s.threads[t := Idle], locks := s.locks - {OwnerOf(r)});
      if ok then s'.(tracked := s.tracked + {r}, book := s.book.(bound := s.book.bound + {r})) else s'
    case Claim(t) =>
      var copy := OwnedBy(s.tracked, Root);
      s.(threads := s.threads[t := Draining(|s.calls.runners|, copy)], locks := s.locks - {Root}, down := s.down + {Root},
         tracked := s.tracked - copy, calls := ClaimedBy(s.calls, copy, t))
    case CallShutdown(t, r) =>
      s.(threads := s.threads[t := Blocked(s.threads[t].call, s.threads[t].copy - {r}, r, Tail(s, r))],
         strands := Posted(s.strands, r.strand, [Shut(r, t)]),
         calls := s.calls.(shutdowns := s.calls.shutdowns + multiset{r}))
    case FinishShutdown(t) => s.(threads := s.threads[t := Idle])
    case Start(k) => s.(waiting := s.waiting + {k})
    case RunRaw(k) => s.(strands := Ran(s.strands, k), waiting := s.waiting - {k})
    case Close(k) =>
      var copy := OwnedBy(s.tracked, Of(k));
      s.(down := s.down + {Of(k)}, tracked := s.tracked - copy, closing := s.closing + copy, busy := s.busy + {k},
         waiting := s.waiting - {k},
         calls := ClaimedBy(s.calls, copy, Head(s.strands[k]).caller))
    case CloseOne(k, r) =>
      s.(closing := s.closing - {r}, strands := Posted(s.strands, k, [Det(r)]),
         calls := s.calls.(shutdowns := s.calls.shutdowns + multiset{r}),
         book := Removed(s.book, r, s.strands[k].done, |s.strands[k].history|))
    case RunShut(k) =>
      var Shut(r, t) := Head(s.strands[k]);
      var n := |s.strands[k].history|;
      s.(strands := Posted(Ran(s.strands, k), k, [Det(r), Flush(r, t)]), busy := s.busy - {k},
         waiting := s.waiting - {k},
         threads := s.threads[t := Asleep(s.threads[t], n + 1)],
         book := Removed(s.book, r, s.strands[k].done, n))
    case RunShutAgain(k) =>
      var Shut(r, t) := Head(s.strands[k]);
      s.(strands := Posted(Ran(s.strands, k), k, [Flush(r, t)]), waiting := s.waiting - {k},
         threads := s.threads[t := Asleep(s.threads[t], |s.strands[k].history|)])
    case RunDet(k) =>
      var r := Head(s.strands[k]).r;
      s.(strands := Ran(s.strands, k), tracked := s.tracked - {r}, waiting := s.waiting - {k},
         book := if r in s.tracked then s.book.(dropped := s.book.dropped + {r}) else s.book)
    case RunFlush(k) =>
      var t := Head(s.strands[k]).caller;
      s.(strands := Ran(s.strands, k), threads := s.threads[t := Woken(s.threads[t])], waiting := s.waiting - {k})
    case RunAdd(k, routeFree) =>
      var Add(r, t) := Head(s.strands[k]);
      s.(strands := Ran(s.strands, k), threads := s.threads[t := AddDone(r, routeFree)], waiting := s.waiting - {k},
         book := if routeFree then s.book.(io := s.book.io + {r}) else s.book)
  }

  /** A new channel, on a strand of its own. */
  function Born(b: Book, c: Resource): Book {
    b.(made := b.made + {c}, bound := b.bound + {c}, io := b.io + {c}, channels := b.channels[c.strand := c])
  }

  function ClaimedBy(c: Calls, copy: set<Resource>, t: nat): Calls {
    c.(claimed := c.claimed + map r | r in copy :: |c.runners|, runners := c.runners + [t])
  }

  /** A shutdown closure at index `ran` took r out of io and posted its detach closure at index `posted`. */
  function Removed(b: Book, r: Resource, ran: nat, posted: nat): Book {
    b.(io := b.io - {r}, detachAt := b.detachAt[r := posted],
       removedAt := if r in b.removedAt then b.removedAt else b.removedAt[r := ran])
  }

  // ---------------------------------------------------------------- the tables of the managers

  /** The table one manager's mutex protects. */
  function TableOf(s: State, m: Owner): Table { Table(m in s.down, OwnedBy(s.tracked, m)) }

  // ---------------------------------------------------------------- runs

  ghost predicate Run(s: State, acts: seq<Action>, s': State)
    decreases |acts|
  {
    if acts == [] then s == s'
    else Enabled(s, acts[0]) && Run(Do(s, acts[0]), acts[1..], s')
  }

  ghost predicate Reachable(s: State) {
    exists s0, acts :: Init(s0) && Run(s0, acts, s)
  }
}
