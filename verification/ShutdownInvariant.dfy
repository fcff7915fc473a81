/** The inductive invariant of ShutdownProtocol. Each part speaks of a few fields only, so
    each has its own small preservation lemmas; the Step lemmas put them together. */
module ShutdownInvariant {
  import opened Resources
  import opened ShutdownProtocol

  predicate Holds(p: Phase) {
    p.Creating? || p.AddWait? || p.AddDone? || p.Claiming?
  }

  /** The manager whose mutex a thread in phase p holds. */
  function Owned(p: Phase): Owner
    requires Holds(p)
  {
    match p
    case Creating(kind) => KindOwner(kind)
    case AddWait(r, _) => OwnerOf(r)
    case AddDone(r, _) => OwnerOf(r)
    case Claiming => Root
  }

  /** One holder to a mutex; a set flag means an empty table and no Bind between its test and its insert. */
  ghost predicate Locking(locks: map<Owner, nat>, down: set<Owner>, tracked: set<Resource>, threads: seq<Phase>) {
    && (forall m | m in locks ::
          && locks[m] < |threads| && Holds(threads[locks[m]]) && Owned(threads[locks[m]]) == m
          && (m in down ==> threads[locks[m]].Claiming?))
    && (forall t | 0 <= t < |threads| && Holds(threads[t]) :: Owned(threads[t]) in locks && locks[Owned(threads[t])] == t)
    && (forall r | r in tracked :: OwnerOf(r) !in down)
  }

  /** Every resource ever bound is tracked, was detached while tracked, or was claimed. */
  ghost predicate Partition(bound: set<Resource>, tracked: set<Resource>, dropped: set<Resource>, claimed: set<Resource>) {
    && bound == tracked + dropped + claimed
    && tracked !! dropped && tracked !! claimed && dropped !! claimed
  }

  predicate InLoop(p: Phase) { p.Draining? || p.Blocked? }

  /** Still to be shut down by the loop of the Shutdown call that claimed it. */
  ghost predicate Unserved(threads: seq<Phase>, closing: set<Resource>, c: Calls, r: Resource)
    requires r in c.claimed
  {
    var call := c.claimed[r];
    r in closing || (
      && call < |c.runners| && c.runners[call] < |threads|
      && InLoop(threads[c.runners[call]]) && threads[c.runners[call]].call == call && r in threads[c.runners[call]].copy)
  }

  /** Each claimed resource is in one call's copy, and that call shuts it down once. */
  ghost predicate Calling(threads: seq<Phase>, closing: set<Resource>, c: Calls, removed: set<Resource>) {
    && (forall i | 0 <= i < |c.runners| :: c.runners[i] < |threads|)
    && (forall r | r in c.claimed :: c.claimed[r] < |c.runners|)
    && (forall t | 0 <= t < |threads| && InLoop(threads[t]) ::
          && threads[t].call < |c.runners| && c.runners[threads[t].call] == t
          && forall r | r in threads[t].copy :: r.channel && r in c.claimed && c.claimed[r] == threads[t].call)
    && (forall r | r in closing :: !r.channel && r in c.claimed)
    && (forall r :: c.shutdowns[r] == if r in c.claimed && !Unserved(threads, closing, c, r) then 1 else 0)
    && (forall r | r in c.claimed && !Unserved(threads, closing, c, r) && r !in removed ::
          threads[c.runners[c.claimed[r]]].Blocked? && threads[c.runners[c.claimed[r]]].r == r)
  }

  ghost predicate Registered(locks: map<Owner, nat>, threads: seq<Phase>, b: Book, n: nat) {
    && b.bound <= b.made
    && (forall r | r in b.made :: r.strand < n)
    && (forall t | 0 <= t < |threads| && threads[t].AddWait? :: !threads[t].r.channel)
    && (forall t | 0 <= t < |threads| && threads[t].AddDone? ::
          && !threads[t].r.channel && threads[t].r in b.made && threads[t].r !in b.bound
          && (threads[t].r in b.io <==> threads[t].ok))
    && (forall r | r in b.io :: r in b.bound ||
          (OwnerOf(r) in locks && locks[OwnerOf(r)] < |threads| && threads[locks[OwnerOf(r)]] == AddDone(r, true)))
  }

  /** Every strand in use has one channel, and its stacks are being or have been shut down once its flag is set. */
  ghost predicate Channels(threads: seq<Phase>, down: set<Owner>, busy: set<nat>, b: Book) {
    && (forall k | k in b.channels :: b.channels[k].channel && b.channels[k].strand == k && b.channels[k] in b.bound)
    && (forall r | r in b.made :: r.strand in b.channels && (r.channel ==> b.channels[r.strand] == r))
    && (forall t | 0 <= t < |threads| && (threads[t].WantBind? || threads[t].Creating?) && threads[t].kind.OnStrand? ::
          threads[t].kind.strand in b.channels)
    && (forall k | Of(k) in down :: k in b.channels && (b.channels[k] in b.removedAt || k in busy))
    && (forall k | k in b.channels && (b.channels[k] in b.removedAt || k in busy) :: Of(k) in down)
    && (forall k | k in busy :: k in b.channels && b.channels[k] !in b.removedAt)
  }

  /** A strand inside ShutdownImpl still has that closure at its head. */
  ghost predicate Closing(strands: seq<Strand>, busy: set<nat>, closing: set<Resource>) {
    && (forall k | k in busy :: k < |strands| && Pending(strands[k]) && Head(strands[k]).Shut? && Head(strands[k]).r.channel)
    && (forall r | r in closing :: r.strand in busy)
  }

  /** No more workers are taken than there are, and a started closure is still at the head of its strand. */
  ghost predicate Pool(strands: seq<Strand>, waiting: set<nat>, busy: set<nat>, workers: nat) {
    && workers >= 1 && waiting !! busy && |waiting| + |busy| <= workers
    && forall k | k in waiting :: k < |strands| && Pending(strands[k]) && Locks(Head(strands[k]))
  }

  /** The shutdown closures that take r out of io: its own, and for a stack its channel's. */
  predicate Removes(c: Closure, r: Resource) { c.Shut? && (c.r == r || (c.r.channel && !r.channel)) }

  /** What is bound is registered until a shutdown closure takes it out, and a detach closure follows then. */
  ghost predicate Removals(strands: seq<Strand>, busy: set<nat>, b: Book) {
    && b.removedAt.Keys == b.detachAt.Keys && b.removedAt.Keys !! b.io && b.removedAt.Keys <= b.bound
    && b.dropped <= b.removedAt.Keys && b.bound <= b.io + b.removedAt.Keys
    && (forall r | r in b.detachAt ::
          && r.strand < |strands| && b.detachAt[r] < |strands[r.strand].history|
          && strands[r.strand].history[b.detachAt[r]] == Det(r))
    && (forall r | r in b.removedAt ::
          && r.strand < |strands| && b.removedAt[r] < |strands[r.strand].history|
          && (b.removedAt[r] < strands[r.strand].done || (b.removedAt[r] == strands[r.strand].done && r.strand in busy))
          && Removes(strands[r.strand].history[b.removedAt[r]], r))
  }

  /** What the closure at index i of strand k says about its resource. */
  ghost predicate ClosureOk(c: Closure, k: nat, i: nat, queued: bool, tracked: set<Resource>, b: Book) {
    && c.r in b.made && c.r.strand == k
    && match c
       case Raw(r) => r in b.bound && (queued ==> r in b.io || (r in b.detachAt && i < b.detachAt[r]))
       case Shut(r, _) => r in b.bound
       case Det(r) => r in b.bound && r in b.removedAt && b.removedAt[r] < i && (!queued ==> r !in tracked)
       case Flush(r, _) => r in b.removedAt
       case Add(r, _) => queued ==> r !in b.bound && r !in b.io
  }

  ghost predicate Closures(strands: seq<Strand>, tracked: set<Resource>, b: Book) {
    forall k, i | 0 <= k < |strands| && 0 <= i < |strands[k].history| ::
      ClosureOk(strands[k].history[i], k, i, strands[k].done <= i, tracked, b)
  }

  predicate Waits(p: Phase) { p.AddWait? || Sleeping(p) }

  /** The closures that wake the thread in phase p. */
  predicate Wakes(c: Closure, p: Phase, t: nat) {
    if p.AddWait? then c == Add(p.r, t) else Sleeping(p) && (c == Shut(p.r, t) || c == Flush(p.r, t))
  }

  predicate Waking(c: Closure) { c.Add? || c.Shut? || c.Flush? }

  /** Blocked threads and queued waking closures are paired one to one. */
  ghost predicate Waiting(strands: seq<Strand>, threads: seq<Phase>) {
    && (forall t | 0 <= t < |threads| && Waits(threads[t]) ::
          && threads[t].r.strand < |strands|
          && strands[threads[t].r.strand].done <= threads[t].at < |strands[threads[t].r.strand].history|
          && Wakes(strands[threads[t].r.strand].history[threads[t].at], threads[t], t))
    && (forall k, i | 0 <= k < |strands| && strands[k].done <= i < |strands[k].history| && Waking(strands[k].history[i]) ::
          var t := strands[k].history[i].caller;
          t < |threads| && Waits(threads[t]) && threads[t].r.strand == k && threads[t].at == i)
  }

  ghost predicate Books(s: State) {
    && Locking(s.locks, s.down, s.tracked, s.threads)
    && Partition(s.book.bound, s.tracked, s.book.dropped, s.calls.claimed.Keys)
    && Registered(s.locks, s.threads, s.book, |s.strands|)
    && Channels(s.threads, s.down, s.busy, s.book)
  }

  ghost predicate Inv(s: State) {
    && (forall k | 0 <= k < |s.strands| :: s.strands[k].done <= |s.strands[k].history|)
    && Books(s)
    && Closing(s.strands, s.busy, s.closing)
    && Pool(s.strands, s.waiting, s.busy, s.workers)
    && Calling(s.threads, s.closing, s.calls, s.book.removedAt.Keys)
    && Removals(s.strands, s.busy, s.book)
    && Closures(s.strands, s.tracked, s.book)
    && Waiting(s.strands, s.threads)
  }

  // ---------------------------------------------------------------- Shutdown calls

  lemma CallingOutside(threads: seq<Phase>, closing: set<Resource>, c: Calls, removed: set<Resource>, t: nat, p: Phase,
                       removed': set<Resource>)
    requires Calling(threads, closing, c, removed) && removed <= removed'
    requires t < |threads| && !InLoop(threads[t]) && !InLoop(p)
    ensures Calling(threads[t := p], closing, c, removed')
  {
    forall r | r in c.claimed ensures Unserved(threads[t := p], closing, c, r) == Unserved(threads, closing, c, r) { }
  }

  lemma CallingClaim(threads: seq<Phase>, closing: set<Resource>, c: Calls, removed: set<Resource>, t: nat, copy: set<Resource>)
    requires Calling(threads, closing, c, removed) && t < |threads| && !InLoop(threads[t]) && copy !! c.claimed.Keys
    requires forall r | r in copy :: r.channel
    ensures Calling(threads[t := Draining(|c.runners|, copy)], closing, ClaimedBy(c, copy, t), removed)
  {
    var threads', c' := threads[t := Draining(|c.runners|, copy)], ClaimedBy(c, copy, t);
    forall r | r in c.claimed ensures Unserved(threads', closing, c', r) == Unserved(threads, closing, c, r) { }
  }

  lemma CallingClose(threads: seq<Phase>, closing: set<Resource>, c: Calls, removed: set<Resource>, t: nat, copy: set<Resource>)
    requires Calling(threads, closing, c, removed) && t < |threads| && copy !! c.claimed.Keys
    requires forall r | r in copy :: !r.channel
    ensures Calling(threads, closing + copy, ClaimedBy(c, copy, t), removed)
  {
    var c' := ClaimedBy(c, copy, t);
    forall r | r in c.claimed ensures Unserved(threads, closing + copy, c', r) == Unserved(threads, closing, c, r) { }
  }

  lemma CallingCloseOne(threads: seq<Phase>, closing: set<Resource>, c: Calls, removed: set<Resource>, x: Resource)
    requires Calling(threads, closing, c, removed) && x in closing
    ensures Calling(threads, closing - {x}, c.(shutdowns := c.shutdowns + multiset{x}), removed + {x})
  {
    var c' := c.(shutdowns := c.shutdowns + multiset{x});
    forall r | r in c.claimed
      ensures Unserved(threads, closing - {x}, c', r) == (Unserved(threads, closing, c, r) && r != x) { }
  }

  lemma CallingCall(threads: seq<Phase>, closing: set<Resource>, c: Calls, removed: set<Resource>, t: nat, x: Resource, at: nat)
    requires Calling(threads, closing, c, removed) && t < |threads| && threads[t].Draining? && x in threads[t].copy
    ensures Calling(threads[t := Blocked(threads[t].call, threads[t].copy - {x}, x, at)], closing,
                    c.(shutdowns := c.shutdowns + multiset{x}), removed)
  {
    var threads' := threads[t := Blocked(threads[t].call, threads[t].copy - {x}, x, at)];
    var c' := c.(shutdowns := c.shutdowns + multiset{x});
    forall r | r in c.claimed
      ensures Unserved(threads', closing, c', r) == (Unserved(threads, closing, c, r) && r != x) { }
  }

  lemma CallingInside(threads: seq<Phase>, closing: set<Resource>, c: Calls, removed: set<Resource>, t: nat, p: Phase,
                      removed': set<Resource>)
    requires Calling(threads, closing, c, removed) && removed <= removed' && t < |threads| && InLoop(threads[t])
    requires if p.Blocked? then threads[t].Blocked? && p.r == threads[t].r else threads[t].Draining? || threads[t].r in removed'
    requires if InLoop(p) then p.call == threads[t].call && p.copy == threads[t].copy else threads[t].copy == {}
    ensures Calling(threads[t := p], closing, c, removed')
  {
    forall r | r in c.claimed ensures Unserved(threads[t := p], closing, c, r) == Unserved(threads, closing, c, r) { }
  }

  /** A thread that sleeps on, or wakes up, whether or not it is inside a Shutdown call. */
  lemma CallingCaller(threads: seq<Phase>, closing: set<Resource>, c: Calls, removed: set<Resource>, t: nat, p: Phase,
                      removed': set<Resource>)
    requires Calling(threads, closing, c, removed) && removed <= removed' && t < |threads| && Sleeping(threads[t])
    requires (exists at: nat :: p == Asleep(threads[t], at)) || (p == Woken(threads[t]) && threads[t].r in removed')
    ensures Calling(threads[t := p], closing, c, removed')
  {
    hide Calling;
    if threads[t].Blocked? {
      CallingInside(threads, closing, c, removed, t, p, removed');
    } else {
      CallingOutside(threads, closing, c, removed, t, p, removed');
    }
  }

  // ---------------------------------------------------------------- removals

  /** Strands only grow at the end and only advance, and ShutdownImpl ends only by advancing. */
  ghost predicate Grown(strands: seq<Strand>, busy: set<nat>, strands': seq<Strand>, busy': set<nat>) {
    && |strands'| == |strands|
    && (forall k | 0 <= k < |strands| :: strands[k].history <= strands'[k].history && strands[k].done <= strands'[k].done)
    && (forall k | 0 <= k < |strands| && k in busy :: k in busy' || strands[k].done < strands'[k].done)
  }

  lemma RemovalsGrown(strands: seq<Strand>, busy: set<nat>, b: Book, strands': seq<Strand>, busy': set<nat>)
    requires Removals(strands, busy, b) && Grown(strands, busy, strands', busy')
    ensures Removals(strands', busy', b)
  {
  }

  lemma RemovalsBook(strands: seq<Strand>, busy: set<nat>, b: Book, b': Book)
    requires Removals(strands, busy, b)
    requires b'.removedAt == b.removedAt && b'.detachAt == b.detachAt && b.bound <= b'.bound
    requires b'.io * b.bound <= b.io && b'.dropped <= b.dropped + b.removedAt.Keys
    requires b.io <= b'.io && b'.bound <= b.bound + b'.io
    ensures Removals(strands, busy, b')
  {
  }

  lemma RemovalsRemoved(strands: seq<Strand>, busy: set<nat>, b: Book, r: Resource, ran: nat, posted: nat)
    requires Removals(strands, busy, b) && r in b.bound && r.strand < |strands|
    requires ran < |strands[r.strand].history| && posted < |strands[r.strand].history|
    requires ran < strands[r.strand].done || (ran == strands[r.strand].done && r.strand in busy)
    requires Removes(strands[r.strand].history[ran], r) && strands[r.strand].history[posted] == Det(r)
    ensures Removals(strands, busy, Removed(b, r, ran, posted))
  {
    var b' := Removed(b, r, ran, posted);
    assert b'.detachAt.Keys == b.detachAt.Keys + {r} && b'.removedAt.Keys == b.removedAt.Keys + {r};
    forall x | x in b'.detachAt
      ensures x.strand < |strands| && b'.detachAt[x] < |strands[x.strand].history|
      ensures strands[x.strand].history[b'.detachAt[x]] == Det(x)
    {
      assert x != r ==> x in b.detachAt && b'.detachAt[x] == b.detachAt[x];
    }
  }

  lemma RemovalsShut(strands: seq<Strand>, busy: set<nat>, b: Book, k: nat)
    requires Removals(strands, busy, b) && k < |strands| && Pending(strands[k]) && Head(strands[k]).Shut?
    requires Head(strands[k]).r in b.bound && Head(strands[k]).r.strand == k
    ensures var Shut(r, t) := Head(strands[k]);
            Removals(Posted(Ran(strands, k), k, [Det(r), Flush(r, t)]), busy - {k},
                     Removed(b, r, strands[k].done, |strands[k].history|))
  {
    hide Removals;
    var Shut(r, t) := Head(strands[k]);
    var strands' := Posted(Ran(strands, k), k, [Det(r), Flush(r, t)]);
    assert strands'[k] == Strand(strands[k].history + [Det(r), Flush(r, t)], strands[k].done + 1);
    RemovalsGrown(strands, busy, b, strands', busy - {k});
    RemovalsRemoved(strands', busy - {k}, b, r, strands[k].done, |strands[k].history|);
  }

  lemma RemovalsOne(strands: seq<Strand>, busy: set<nat>, b: Book, k: nat, r: Resource)
    requires Removals(strands, busy, b) && k < |strands| && Pending(strands[k]) && k in busy
    requires Removes(Head(strands[k]), r) && r in b.bound && r.strand == k
    ensures Removals(Posted(strands, k, [Det(r)]), busy, Removed(b, r, strands[k].done, |strands[k].history|))
  {
    hide Removals;
    var strands' := Posted(strands, k, [Det(r)]);
    assert strands'[k] == Strand(strands[k].history + [Det(r)], strands[k].done);
    RemovalsGrown(strands, busy, b, strands', busy);
    RemovalsRemoved(strands', busy, b, r, strands[k].done, |strands[k].history|);
  }

  // ---------------------------------------------------------------- waiting threads

  lemma WaitingPost(strands: seq<Strand>, threads: seq<Phase>, k: nat, c: Closure)
    requires Waiting(strands, threads) && k < |strands| && !Waking(c)
    ensures Waiting(Posted(strands, k, [c]), threads)
  {
  }

  lemma WaitingMove(strands: seq<Strand>, threads: seq<Phase>, t: nat, p: Phase)
    requires Waiting(strands, threads) && t < |threads| && !Waits(threads[t]) && !Waits(p)
    ensures Waiting(strands, threads[t := p])
  {
  }

  lemma WaitingBlock(strands: seq<Strand>, threads: seq<Phase>, t: nat, p: Phase, c: Closure)
    requires Waiting(strands, threads) && t < |threads| && !Waits(threads[t])
    requires Waits(p) && p.r.strand < |strands| && p.at == |strands[p.r.strand].history| && Wakes(c, p, t)
    requires strands[p.r.strand].done <= p.at
    ensures Waiting(Posted(strands, p.r.strand, [c]), threads[t := p])
  {
  }

  lemma WaitingRan(strands: seq<Strand>, threads: seq<Phase>, k: nat)
    requires Waiting(strands, threads) && k < |strands| && Pending(strands[k]) && !Waking(Head(strands[k]))
    ensures Waiting(Ran(strands, k), threads)
  {
  }

  lemma WaitingWoken(strands: seq<Strand>, threads: seq<Phase>, k: nat, p: Phase)
    requires Waiting(strands, threads) && k < |strands| && Pending(strands[k]) && Waking(Head(strands[k])) && !Waits(p)
    ensures Head(strands[k]).caller < |threads|
    ensures Waiting(Ran(strands, k), threads[Head(strands[k]).caller := p])
  {
  }

  lemma WaitingShut(strands: seq<Strand>, threads: seq<Phase>, k: nat, cs: seq<Closure>)
    requires Waiting(strands, threads) && k < |strands| && Pending(strands[k]) && Head(strands[k]).Shut?
    requires Head(strands[k]).caller < |threads| && Sleeping(threads[Head(strands[k]).caller])
    requires forall i | 0 <= i < |cs| :: !Waking(cs[i])
    ensures var Shut(r, t) := Head(strands[k]);
            Waiting(Posted(Ran(strands, k), k, cs + [Flush(r, t)]),
                    threads[t := Asleep(threads[t], |strands[k].history| + |cs|)])
  {
  }

  // ---------------------------------------------------------------- closures

  lemma ClosuresPost(strands: seq<Strand>, tracked: set<Resource>, b: Book, k: nat, c: Closure)
    requires Closures(strands, tracked, b) && k < |strands|
    requires strands[k].done <= |strands[k].history| && ClosureOk(c, k, |strands[k].history|, true, tracked, b)
    ensures Closures(Posted(strands, k, [c]), tracked, b)
  {
  }

  lemma ClosuresRan(strands: seq<Strand>, tracked: set<Resource>, b: Book, k: nat)
    requires Closures(strands, tracked, b) && k < |strands| && Pending(strands[k])
    requires ClosureOk(Head(strands[k]), k, strands[k].done, false, tracked, b)
    ensures Closures(Ran(strands, k), tracked, b)
  {
  }

  /** No `add` closure of x is queued. */
  ghost predicate NotQueued(strands: seq<Strand>, x: Resource) {
    forall k, i | 0 <= k < |strands| && strands[k].done <= i < |strands[k].history| && strands[k].history[i].Add? ::
      strands[k].history[i].r != x
  }

  /** A new object, a new binding, a new registration or a smaller table contradicts no closure. */
  lemma ClosuresBook(strands: seq<Strand>, tracked: set<Resource>, b: Book, tracked': set<Resource>, b': Book)
    requires Closures(strands, tracked, b) && b'.removedAt == b.removedAt && b'.detachAt == b.detachAt
    requires b.made <= b'.made && b.bound <= b'.bound && b.io <= b'.io
    requires tracked' <= tracked + (b'.bound - b.bound)
    requires forall x | x in b'.bound && x !in b.bound :: NotQueued(strands, x)
    requires forall x | x in b'.io && x !in b.io :: NotQueued(strands, x)
    ensures Closures(strands, tracked', b')
  {
    forall k, i | 0 <= k < |strands| && 0 <= i < |strands[k].history|
      ensures ClosureOk(strands[k].history[i], k, i, strands[k].done <= i, tracked', b')
    {
      assert ClosureOk(strands[k].history[i], k, i, strands[k].done <= i, tracked, b);
    }
  }

  lemma ClosuresShut(strands: seq<Strand>, busy: set<nat>, tracked: set<Resource>, b: Book, k: nat)
    requires Closures(strands, tracked, b) && Removals(strands, busy, b)
    requires k < |strands| && Pending(strands[k]) && Head(strands[k]).Shut?
    ensures var Shut(r, t) := Head(strands[k]);
            Closures(Posted(Ran(strands, k), k, [Det(r), Flush(r, t)]), tracked,
                     Removed(b, r, strands[k].done, |strands[k].history|))
  {
    var Shut(r, t) := Head(strands[k]);
    var strands' := Posted(Ran(strands, k), k, [Det(r), Flush(r, t)]);
    var b' := Removed(b, r, strands[k].done, |strands[k].history|);
    assert ClosureOk(Head(strands[k]), k, strands[k].done, true, tracked, b);
    forall j, i | 0 <= j < |strands'| && 0 <= i < |strands'[j].history|
      ensures ClosureOk(strands'[j].history[i], j, i, strands'[j].done <= i, tracked, b')
    {
      if i < |strands[j].history| {
        assert ClosureOk(strands[j].history[i], j, i, strands[j].done <= i, tracked, b);
      }
    }
  }

  lemma ClosuresOne(strands: seq<Strand>, busy: set<nat>, tracked: set<Resource>, b: Book, k: nat, r: Resource)
    requires Closures(strands, tracked, b) && Removals(strands, busy, b) && k < |strands| && Pending(strands[k])
    requires r in b.bound && r in b.made && r.strand == k
    ensures Closures(Posted(strands, k, [Det(r)]), tracked, Removed(b, r, strands[k].done, |strands[k].history|))
  {
    var strands' := Posted(strands, k, [Det(r)]);
    var b' := Removed(b, r, strands[k].done, |strands[k].history|);
    forall j, i | 0 <= j < |strands'| && 0 <= i < |strands'[j].history|
      ensures ClosureOk(strands'[j].history[i], j, i, strands'[j].done <= i, tracked, b')
    {
      if i < |strands[j].history| {
        assert ClosureOk(strands[j].history[i], j, i, strands[j].done <= i, tracked, b);
      }
    }
  }

  // ---------------------------------------------------------------- facts about a state

  /** The closure about to run: its resource is as Closures says, its caller as Waiting says. */
  lemma HeadFacts(s: State, k: nat)
    requires Inv(s) && At(s, k)
    ensures var c := Head(s.strands[k]);
            && ClosureOk(c, k, s.strands[k].done, true, s.tracked, s.book)
            && (Waking(c) ==> (Thread(s, c.caller) && Wakes(c, s.threads[c.caller], c.caller)
                               && s.threads[c.caller].at == s.strands[k].done))
  {
  }

  /** A queued `add` closure means that its caller holds the lock of the stack's manager. */
  lemma AddHolds(s: State, k: nat, i: nat)
    requires Inv(s) && k < |s.strands| && s.strands[k].done <= i < |s.strands[k].history| && s.strands[k].history[i].Add?
    ensures var Add(r, u) := s.strands[k].history[i];
            Thread(s, u) && s.threads[u] == AddWait(r, i) && OwnerOf(r) in s.locks && s.locks[OwnerOf(r)] == u && r.strand == k && !r.channel
  {
    assert Waking(s.strands[k].history[i]);
    assert Holds(s.threads[s.strands[k].history[i].caller]);
  }

  lemma DoneIsNotQueued(s: State, t: nat)
    requires Inv(s) && Thread(s, t) && s.threads[t].AddDone?
    ensures NotQueued(s.strands, s.threads[t].r)
  {
    hide Closures, Removals, Calling, Channels, Closing;
    forall k, i | 0 <= k < |s.strands| && s.strands[k].done <= i < |s.strands[k].history| && s.strands[k].history[i].Add?
      ensures s.strands[k].history[i].r != s.threads[t].r
    {
      AddHolds(s, k, i);
      assert Holds(s.threads[t]);
    }
  }

  lemma NewIsNotQueued(s: State, x: Resource)
    requires Inv(s) && x !in s.book.made
    ensures NotQueued(s.strands, x)
  {
    forall k, i | 0 <= k < |s.strands| && s.strands[k].done <= i < |s.strands[k].history| && s.strands[k].history[i].Add?
      ensures s.strands[k].history[i].r != x
    {
      assert ClosureOk(s.strands[k].history[i], k, i, true, s.tracked, s.book);
    }
  }

  lemma RanIsNotQueued(s: State, k: nat)
    requires Inv(s) && At(s, k) && Head(s.strands[k]).Add?
    ensures NotQueued(Ran(s.strands, k), Head(s.strands[k]).r)
  {
    hide Inv;
    AddHolds(s, k, s.strands[k].done);
    var strands' := Ran(s.strands, k);
    forall j, i | 0 <= j < |strands'| && strands'[j].done <= i < |strands'[j].history| && strands'[j].history[i].Add?
      ensures strands'[j].history[i].r != Head(s.strands[k]).r
    {
      AddHolds(s, j, i);
    }
  }

  lemma CopyIsBound(s: State, t: nat)
    requires Inv(s) && Thread(s, t) && InLoop(s.threads[t])
    ensures s.threads[t].copy <= s.book.bound
    ensures forall r | r in s.threads[t].copy :: HasStrand(s, r)
  {
  }

  // ---------------------------------------------------------------- the lock, the partition and the registrations

  lemma LockingMove(locks: map<Owner, nat>, down: set<Owner>, tracked: set<Resource>, threads: seq<Phase>, t: nat, p: Phase)
    requires Locking(locks, down, tracked, threads) && t < |threads| && !Holds(threads[t]) && !Holds(p)
    ensures Locking(locks, down, tracked, threads[t := p])
  {
  }

  lemma LockingAcquire(locks: map<Owner, nat>, down: set<Owner>, tracked: set<Resource>, threads: seq<Phase>, t: nat, p: Phase)
    requires Locking(locks, down, tracked, threads) && t < |threads| && !Holds(threads[t])
    requires Holds(p) && Owned(p) !in locks && (Owned(p) in down ==> p.Claiming?)
    ensures Locking(locks[Owned(p) := t], down, tracked, threads[t := p])
  {
  }

  lemma LockingPass(locks: map<Owner, nat>, down: set<Owner>, tracked: set<Resource>, threads: seq<Phase>, t: nat, p: Phase)
    requires Locking(locks, down, tracked, threads) && t < |threads| && Holds(threads[t]) && !threads[t].Claiming?
    requires Holds(p) && Owned(p) == Owned(threads[t])
    ensures Locking(locks, down, tracked, threads[t := p])
  {
  }

  lemma LockingRelease(locks: map<Owner, nat>, down: set<Owner>, tracked: set<Resource>, threads: seq<Phase>, t: nat, p: Phase)
    requires Locking(locks, down, tracked, threads) && t < |threads| && Holds(threads[t]) && !Holds(p)
    ensures Locking(locks - {Owned(threads[t])}, down, tracked, threads[t := p])
    ensures Owned(threads[t]) in down ==> threads[t].Claiming?
  {
  }

  lemma LockingTables(locks: map<Owner, nat>, down: set<Owner>, tracked: set<Resource>, threads: seq<Phase>,
                      down': set<Owner>, tracked': set<Resource>)
    requires Locking(locks, down, tracked, threads)
    requires forall m | m in down' :: m in down || m !in locks
    requires forall r | r in tracked' :: OwnerOf(r) !in down'
    ensures Locking(locks, down', tracked', threads)
  {
  }

  predicate Adding(p: Phase) { p.AddWait? || p.AddDone? }

  lemma RegisteredMove(locks: map<Owner, nat>, threads: seq<Phase>, b: Book, n: nat, t: nat, p: Phase, locks': map<Owner, nat>)
    requires Registered(locks, threads, b, n) && t < |threads| && !Adding(threads[t]) && !Adding(p)
    requires forall m | m in locks && locks[m] != t :: m in locks' && locks'[m] == locks[m]
    ensures Registered(locks', threads[t := p], b, n)
  {
  }

  lemma ChannelsMove(threads: seq<Phase>, down: set<Owner>, busy: set<nat>, b: Book, t: nat, p: Phase)
    requires Channels(threads, down, busy, b) && t < |threads|
    requires (p.WantBind? || p.Creating?) && p.kind.OnStrand? ==> p.kind.strand in b.channels
    ensures Channels(threads[t := p], down, busy, b)
  {
  }

  lemma ChannelsBook(threads: seq<Phase>, down: set<Owner>, busy: set<nat>, b: Book, b': Book)
    requires Channels(threads, down, busy, b) && b'.channels == b.channels && b.bound <= b'.bound
    requires b'.removedAt == b.removedAt
    requires forall r | r in b'.made :: r in b.made || (!r.channel && r.strand in b.channels)
    ensures Channels(threads, down, busy, b')
  {
  }

  /** A thread takes a step that touches no lock and no `add`. */
  lemma BooksMove(s: State, t: nat, p: Phase)
    requires Books(s) && Thread(s, t) && !Holds(s.threads[t]) && !Holds(p)
    requires p.WantBind? && p.kind.OnStrand? ==> p.kind.strand in s.book.channels
    ensures Books(s.(threads := s.threads[t := p]))
  {
    hide Locking, Registered, Channels, Partition;
    LockingMove(s.locks, s.down, s.tracked, s.threads, t, p);
    RegisteredMove(s.locks, s.threads, s.book, |s.strands|, t, p, s.locks);
    ChannelsMove(s.threads, s.down, s.busy, s.book, t, p);
  }

  lemma BooksAcquire(s: State, a: Action)
    requires Books(s) && Enabled(s, a) && a.Acquire?
    ensures Books(Do(s, a))
  {
    hide Locking, Registered, Channels, Partition;
    var p := Do(s, a).threads[a.t];
    if s.threads[a.t].WantBind? && s.threads[a.t].kind.OnStrand? {
      WantKnown(s, a.t);
    }
    if p == Idle {
      BooksMove(s, a.t, Idle);
    } else {
      LockingAcquire(s.locks, s.down, s.tracked, s.threads, a.t, p);
      RegisteredMove(s.locks, s.threads, s.book, |s.strands|, a.t, p, s.locks[Owned(p) := a.t]);
      ChannelsMove(s.threads, s.down, s.busy, s.book, a.t, p);
    }
  }

  lemma WantKnown(s: State, t: nat)
    requires Books(s) && Thread(s, t) && (s.threads[t].WantBind? || s.threads[t].Creating?) && s.threads[t].kind.OnStrand?
    ensures s.threads[t].kind.strand in s.book.channels
  {
  }

  lemma BooksPostAdd(s: State, a: Action)
    requires Books(s) && Enabled(s, a) && a.PostAdd?
    ensures Books(Do(s, a))
  {
    hide Locking, Channels, Partition;
    var s' := Do(s, a);
    WantKnown(s, a.t);
    LockingPass(s.locks, s.down, s.tracked, s.threads, a.t, s'.threads[a.t]);
    ChannelsMove(s.threads, s.down, s.busy, s.book, a.t, s'.threads[a.t]);
    ChannelsBook(s'.threads, s.down, s.busy, s.book, s'.book);
  }

  lemma BooksCreateNothing(s: State, a: Action)
    requires Books(s) && Enabled(s, a) && a.CreateReturns? && !a.c.Made?
    ensures Books(Do(s, a))
  {
    hide Locking, Registered, Channels, Partition;
    LockingRelease(s.locks, s.down, s.tracked, s.threads, a.t, Idle);
    ReleasedOnly(s, a.t);
    RegisteredMove(s.locks, s.threads, s.book, |s.strands|, a.t, Idle, s.locks - {Root});
    ChannelsMove(s.threads, s.down, s.busy, s.book, a.t, Idle);
  }

  lemma ReleasedOnly(s: State, t: nat)
    requires Books(s) && Thread(s, t) && Holds(s.threads[t])
    ensures forall m | m in s.locks && s.locks[m] != t :: m in s.locks - {Owned(s.threads[t])}
    ensures Owned(s.threads[t]) in s.locks && s.locks[Owned(s.threads[t])] == t
    ensures forall m | m in s.locks && s.locks[m] == t :: m == Owned(s.threads[t])
  {
  }

  /** Every channel is new. */
  lemma ChannelsBorn(threads: seq<Phase>, down: set<Owner>, busy: set<nat>, b: Book, c: Resource)
    requires Channels(threads, down, busy, b) && c.channel && c.strand !in b.channels && c !in b.removedAt
    ensures Channels(threads, down, busy, Born(b, c))
  {
  }

  lemma RegisteredBorn(locks: map<Owner, nat>, threads: seq<Phase>, b: Book, n: nat, c: Resource)
    requires Registered(locks, threads, b, n) && c !in b.made && c.strand < n && c.channel
    ensures Registered(locks, threads, Born(b, c), n)
  {
  }

  lemma BooksCreateReturns(s: State, a: Action)
    requires Books(s) && Enabled(s, a) && a.CreateReturns? && s.book.removedAt.Keys <= s.book.bound
    ensures Books(Do(s, a))
  {
    BooksCreateNothing(s, a.(c := Null));
    if a.c.Made? {
      BooksBorn(s, Do(s, a.(c := Null)), a.t, a.c.item);
    }
  }

  lemma BooksBorn(s: State, s1: State, t: nat, c: Resource)
    requires Books(s) && Enabled(s, CreateReturns(t, Made(c))) && s.book.removedAt.Keys <= s.book.bound
    requires Books(s1) && s1 == Do(s, CreateReturns(t, Null))
    ensures Books(Do(s, CreateReturns(t, Made(c))))
  {
    hide Locking, Registered, Channels;
    BornIsNew(s, c);
    RootOpen(s, t);
    LockingBorn(s1.locks, s1.down, s1.tracked, s1.threads, c);
    RegisteredBorn(s1.locks, s1.threads, s1.book, |s1.strands|, c);
    ChannelsBorn(s1.threads, s1.down, s1.busy, s1.book, c);
  }

  lemma BornIsNew(s: State, c: Resource)
    requires Books(s) && c !in s.book.made && s.book.removedAt.Keys <= s.book.bound
    ensures c !in s.book.bound && c !in s.book.removedAt
  {
  }

  lemma RootOpen(s: State, t: nat)
    requires Books(s) && Thread(s, t) && s.threads[t] == Creating(AtOnce)
    ensures Root !in s.down
  {
    assert Holds(s.threads[t]);
  }

  lemma LockingBorn(locks: map<Owner, nat>, down: set<Owner>, tracked: set<Resource>, threads: seq<Phase>, c: Resource)
    requires Locking(locks, down, tracked, threads) && OwnerOf(c) !in down
    ensures Locking(locks, down, tracked + {c}, threads)
  {
  }

  lemma BooksAddReturns(s: State, a: Action)
    requires Books(s) && Enabled(s, a) && a.AddReturns?
    ensures Books(Do(s, a))
  {
    hide Locking, Channels;
    var s' := Do(s, a);
    var AddDone(r, ok) := s.threads[a.t];
    ReleasedOnly(s, a.t);
    LockingRelease(s.locks, s.down, s.tracked, s.threads, a.t, Idle);
    if ok {
      LockingBorn(s'.locks, s.down, s.tracked, s'.threads, r);
    }
    ChannelsMove(s.threads, s.down, s.busy, s.book, a.t, Idle);
    ChannelsBook(s'.threads, s.down, s.busy, s.book, s'.book);
  }

  lemma BooksClaim(s: State, a: Action)
    requires Books(s) && Enabled(s, a) && a.Claim?
    ensures Books(Do(s, a))
  {
    hide Locking, Registered, Channels;
    var s' := Do(s, a);
    var p := s'.threads[a.t];
    ReleasedOnly(s, a.t);
    LockingRelease(s.locks, s.down, s.tracked, s.threads, a.t, p);
    OthersOpen(s);
    LockingTables(s'.locks, s.down, s.tracked, s'.threads, s'.down, s'.tracked);
    RegisteredMove(s.locks, s.threads, s.book, |s.strands|, a.t, p, s'.locks);
    ChannelsMove(s.threads, s.down, s.busy, s.book, a.t, p);
    ChannelsRoot(s'.threads, s.down, s.busy, s.book);
  }

  lemma OthersOpen(s: State)
    requires Books(s)
    ensures forall r | r in s.tracked :: OwnerOf(r) !in s.down
  {
  }

  lemma ChannelsRoot(threads: seq<Phase>, down: set<Owner>, busy: set<nat>, b: Book)
    requires Channels(threads, down, busy, b)
    ensures Channels(threads, down + {Root}, busy, b)
  {
  }

  lemma BooksClose(s: State, a: Action)
    requires Books(s) && Enabled(s, a) && a.Close?
    requires Head(s.strands[a.k]).r in s.book.made && Head(s.strands[a.k]).r.strand == a.k
    ensures Books(Do(s, a))
  {
    hide Locking, Registered;
    OthersOpen(s);
    LockingTables(s.locks, s.down, s.tracked, s.threads, Do(s, a).down, Do(s, a).tracked);
  }

  /** r leaves io. */
  lemma RegisteredRemoved(locks: map<Owner, nat>, threads: seq<Phase>, b: Book, n: nat, r: Resource, ran: nat, posted: nat)
    requires Registered(locks, threads, b, n) && r in b.bound
    ensures Registered(locks, threads, Removed(b, r, ran, posted), n)
  {
  }

  lemma BooksCloseOne(s: State, a: Action)
    requires Books(s) && Enabled(s, a) && a.CloseOne? && a.r in s.book.bound && !a.r.channel
    ensures Books(Do(s, a))
  {
    hide Locking, Registered, Partition;
    RegisteredRemoved(s.locks, s.threads, s.book, |s.strands|, a.r, s.strands[a.k].done, |s.strands[a.k].history|);
  }

  lemma ChannelsShut(threads: seq<Phase>, down: set<Owner>, busy: set<nat>, b: Book, r: Resource, ran: nat, posted: nat)
    requires Channels(threads, down, busy, b) && r in b.made && (if r.channel then r.strand in busy else r.strand !in busy)
    ensures Channels(threads, down, busy - {r.strand}, Removed(b, r, ran, posted))
  {
  }

  lemma BooksShut(s: State, a: Action)
    requires Books(s) && Enabled(s, a) && a.RunShut?
    requires Head(s.strands[a.k]).r in s.book.bound && Head(s.strands[a.k]).r in s.book.made && Head(s.strands[a.k]).r.strand == a.k
    ensures Books(Do(s, a))
  {
    hide Locking, Registered, Partition, Channels;
    var Shut(r, t) := Head(s.strands[a.k]);
    var x := s.strands[a.k];
    var p := Do(s, a).threads[t];
    BooksMove(s, t, p);
    RegisteredRemoved(s.locks, Do(s, a).threads, s.book, |s.strands|, r, x.done, |x.history|);
    ChannelsShut(Do(s, a).threads, s.down, s.busy, s.book, r, x.done, |x.history|);
  }

  lemma BooksRunDet(s: State, a: Action)
    requires Books(s) && Enabled(s, a) && a.RunDet?
    ensures Books(Do(s, a))
  {
    hide Registered, Channels;
    OthersOpen(s);
    var s' := Do(s, a);
    RegisteredDropped(s.locks, s.threads, s.book, |s.strands|, s'.book);
    ChannelsBook(s.threads, s.down, s.busy, s.book, s'.book);
  }

  lemma RegisteredDropped(locks: map<Owner, nat>, threads: seq<Phase>, b: Book, n: nat, b': Book)
    requires Registered(locks, threads, b, n) && b'.bound == b.bound && b'.made == b.made && b'.io == b.io
    ensures Registered(locks, threads, b', n)
  {
  }

  lemma BooksRunAdd(s: State, a: Action)
    requires Books(s) && Enabled(s, a) && a.RunAdd?
    requires var Add(r, t) := Head(s.strands[a.k]);
      s.threads[t].AddWait? && s.threads[t].r == r && r in s.book.made && r !in s.book.bound && r !in s.book.io
    ensures Books(Do(s, a))
  {
    hide Locking, Partition, Channels;
    var Add(r, t) := Head(s.strands[a.k]);
    var s' := Do(s, a);
    ReleasedOnly(s, t);
    forall u: nat | Thread(s, u) && s.threads[u].AddDone? ensures s.threads[u].r != r {
      ReleasedOnly(s, u);
    }
    LockingPass(s.locks, s.down, s.tracked, s.threads, t, s'.threads[t]);
    ChannelsMove(s.threads, s.down, s.busy, s.book, t, s'.threads[t]);
    ChannelsBook(s'.threads, s.down, s.busy, s.book, s'.book);
  }

  // ---------------------------------------------------------------- steps

  lemma StepBegin(s: State, a: Action)
    requires Inv(s) && Enabled(s, a) && (a.BeginBind? || a.BeginShutdown? || a.Acquire?)
    ensures Inv(Do(s, a))
  {
    hide Calling, Waiting, Closures, Removals, Books, Closing, Pool;
    var p := Do(s, a).threads[a.t];
    if a.Acquire? {
      BooksAcquire(s, a);
    } else {
      BooksMove(s, a.t, p);
    }
    CallingOutside(s.threads, s.closing, s.calls, s.book.removedAt.Keys, a.t, p, s.book.removedAt.Keys);
    WaitingMove(s.strands, s.threads, a.t, p);
  }

  lemma StepFinish(s: State, a: Action)
    requires Inv(s) && Enabled(s, a) && a.FinishShutdown?
    ensures Inv(Do(s, a))
  {
    hide Calling, Waiting, Closures, Removals, Books, Closing, Pool;
    BooksMove(s, a.t, Idle);
    CallingInside(s.threads, s.closing, s.calls, s.book.removedAt.Keys, a.t, Idle, s.book.removedAt.Keys);
    WaitingMove(s.strands, s.threads, a.t, Idle);
  }

  lemma ClosingPost(strands: seq<Strand>, busy: set<nat>, closing: set<Resource>, k: nat, cs: seq<Closure>)
    requires Closing(strands, busy, closing) && k < |strands|
    ensures Closing(Posted(strands, k, cs), busy, closing)
  {
  }

  lemma PoolPost(strands: seq<Strand>, waiting: set<nat>, busy: set<nat>, workers: nat, k: nat, cs: seq<Closure>)
    requires Pool(strands, waiting, busy, workers) && k < |strands|
    ensures Pool(Posted(strands, k, cs), waiting, busy, workers)
  {
  }

  lemma PoolRan(strands: seq<Strand>, waiting: set<nat>, busy: set<nat>, workers: nat, k: nat)
    requires Pool(strands, waiting, busy, workers) && k < |strands|
    ensures Pool(Ran(strands, k), waiting - {k}, busy, workers)
    ensures Pool(Ran(strands, k), waiting - {k}, busy - {k}, workers)
  {
    Fewer(waiting, k);
    Fewer(busy, k);
  }

  lemma Fewer(a: set<nat>, k: nat)
    ensures |a - {k}| == if k in a then |a| - 1 else |a|
  {
    if k !in a {
      assert a - {k} == a;
    }
  }

  lemma PoolClose(strands: seq<Strand>, waiting: set<nat>, busy: set<nat>, workers: nat, k: nat)
    requires Pool(strands, waiting, busy, workers) && k !in busy && (k in waiting || |waiting| + |busy| < workers)
    ensures Pool(strands, waiting - {k}, busy + {k}, workers)
  {
    Fewer(waiting, k);
  }

  lemma ClosingRan(strands: seq<Strand>, busy: set<nat>, closing: set<Resource>, k: nat)
    requires Closing(strands, busy, closing) && k < |strands| && k !in busy
    ensures Closing(Ran(strands, k), busy, closing)
  {
  }

  lemma KnownMade(s: State, r: Resource)
    requires Inv(s) && r in s.book.bound
    ensures r in s.book.made && HasStrand(s, r)
  {
  }

  lemma StepAskShutdown(s: State, a: Action)
    requires Inv(s) && Enabled(s, a) && (a.UserShutdown? || a.CallShutdown?)
    ensures Inv(Do(s, a))
  {
    hide Calling, Waiting, Closures, Removals, Books, Closing, Pool;
    if a.CallShutdown? { CopyIsBound(s, a.t); }
    KnownMade(s, a.r);
    var s' := Do(s, a);
    var p := s'.threads[a.t];
    BooksMove(s, a.t, p);
    BooksAsk(s.(threads := s'.threads), s'.strands, s'.calls, s.waiting);
    ClosingPost(s.strands, s.busy, s.closing, a.r.strand, [Shut(a.r, a.t)]);
    PoolPost(s.strands, s.waiting, s.busy, s.workers, a.r.strand, [Shut(a.r, a.t)]);
    if a.UserShutdown? {
      CallingOutside(s.threads, s.closing, s.calls, s.book.removedAt.Keys, a.t, p, s.book.removedAt.Keys);
    } else {
      CallingCall(s.threads, s.closing, s.calls, s.book.removedAt.Keys, a.t, a.r, p.at);
    }
    WaitingBlock(s.strands, s.threads, a.t, p, Shut(a.r, a.t));
    RemovalsGrown(s.strands, s.busy, s.book, s'.strands, s.busy);
    ClosuresPost(s.strands, s.tracked, s.book, a.r.strand, Shut(a.r, a.t));
  }

  lemma BooksAsk(s: State, strands: seq<Strand>, calls: Calls, waiting: set<nat>)
    requires Books(s) && |strands| == |s.strands| && calls.claimed == s.calls.claimed
    ensures Books(s.(strands := strands, calls := calls, waiting := waiting))
  {
  }

  lemma StepPostRaw(s: State, a: Action)
    requires Inv(s) && Enabled(s, a) && a.PostRaw?
    ensures Inv(Do(s, a))
  {
    hide Calling, Waiting, Closures, Removals, Books, Closing, Pool;
    KnownMade(s, a.r);
    BooksAsk(s, Do(s, a).strands, s.calls, Do(s, a).waiting);
    ClosingPost(s.strands, s.busy, s.closing, a.r.strand, [Raw(a.r)]);
    PoolPost(s.strands, s.waiting, s.busy, s.workers, a.r.strand, [Raw(a.r)]);
    WaitingPost(s.strands, s.threads, a.r.strand, Raw(a.r));
    RemovalsGrown(s.strands, s.busy, s.book, Do(s, a).strands, s.busy);
    ClosuresPost(s.strands, s.tracked, s.book, a.r.strand, Raw(a.r));
  }

  lemma StepPostAdd(s: State, a: Action)
    requires Inv(s) && Enabled(s, a) && a.PostAdd?
    ensures Inv(Do(s, a))
  {
    hide Calling, Waiting, Closures, Removals, Books, Closing, Pool;
    var s' := Do(s, a);
    var p := s'.threads[a.t];
    BooksPostAdd(s, a);
    NewIsNew(s, a.r);
    ClosingPost(s.strands, s.busy, s.closing, a.r.strand, [Add(a.r, a.t)]);
    PoolPost(s.strands, s.waiting, s.busy, s.workers, a.r.strand, [Add(a.r, a.t)]);
    CallingOutside(s.threads, s.closing, s.calls, s.book.removedAt.Keys, a.t, p, s.book.removedAt.Keys);
    WaitingBlock(s.strands, s.threads, a.t, p, Add(a.r, a.t));
    RemovalsGrown(s.strands, s.busy, s.book, s'.strands, s.busy);
    RemovalsBook(s'.strands, s.busy, s.book, s'.book);
    ClosuresBook(s.strands, s.tracked, s.book, s.tracked, s'.book);
    ClosuresPost(s.strands, s.tracked, s'.book, a.r.strand, Add(a.r, a.t));
  }

  lemma NewIsNew(s: State, r: Resource)
    requires Inv(s) && r !in s.book.made
    ensures r !in s.book.bound && (!r.channel ==> r !in s.book.io)
  {
    if OwnerOf(r) in s.locks {
      assert Holds(s.threads[s.locks[OwnerOf(r)]]);
    }
  }

  lemma StepCreateReturns(s: State, a: Action)
    requires Inv(s) && Enabled(s, a) && a.CreateReturns?
    ensures Inv(Do(s, a))
  {
    hide Calling, Waiting, Closures, Books, Closing, Pool;
    BooksCreateReturns(s, a);
    var s' := Do(s, a);
    if a.c.Made? {
      NewIsNew(s, a.c.item);
      NewIsNotQueued(s, a.c.item);
    }
    CallingOutside(s.threads, s.closing, s.calls, s.book.removedAt.Keys, a.t, Idle, s.book.removedAt.Keys);
    WaitingMove(s.strands, s.threads, a.t, Idle);
    RemovalsBook(s.strands, s.busy, s.book, s'.book);
    ClosuresBook(s.strands, s.tracked, s.book, s'.tracked, s'.book);
  }

  lemma StepAddReturns(s: State, a: Action)
    requires Inv(s) && Enabled(s, a) && a.AddReturns?
    ensures Inv(Do(s, a))
  {
    hide Calling, Waiting, Closures, Removals, Books, Closing, Pool;
    BooksAddReturns(s, a);
    var s' := Do(s, a);
    DoneIsNotQueued(s, a.t);
    DoneIsUnbound(s, a.t);
    CallingOutside(s.threads, s.closing, s.calls, s.book.removedAt.Keys, a.t, Idle, s.book.removedAt.Keys);
    WaitingMove(s.strands, s.threads, a.t, Idle);
    RemovalsBook(s.strands, s.busy, s.book, s'.book);
    ClosuresBook(s.strands, s.tracked, s.book, s'.tracked, s'.book);
  }

  lemma DoneIsUnbound(s: State, t: nat)
    requires Inv(s) && Thread(s, t) && s.threads[t].AddDone?
    ensures s.threads[t].r !in s.book.bound && (s.threads[t].ok ==> s.threads[t].r in s.book.io)
  {
  }

  lemma StepClaim(s: State, a: Action)
    requires Inv(s) && Enabled(s, a) && a.Claim?
    ensures Inv(Do(s, a))
  {
    hide Calling, Waiting, Closures, Removals, Books, Closing, Pool;
    var copy := OwnedBy(s.tracked, Root);
    BooksClaim(s, a);
    TrackedUnclaimed(s);
    CallingClaim(s.threads, s.closing, s.calls, s.book.removedAt.Keys, a.t, copy);
    WaitingMove(s.strands, s.threads, a.t, Draining(|s.calls.runners|, copy));
    ClosuresBook(s.strands, s.tracked, s.book, s.tracked - copy, s.book);
  }

  lemma TrackedUnclaimed(s: State)
    requires Inv(s)
    ensures s.tracked !! s.calls.claimed.Keys
  {
  }

  lemma CloseStrand(s: State, a: Action)
    requires Inv(s) && Enabled(s, a) && a.Close?
    ensures var s' := Do(s, a);
      && Closing(s'.strands, s'.busy, s'.closing) && Pool(s'.strands, s'.waiting, s'.busy, s'.workers)
  {
    hide Calling, Waiting, Closures, Removals, Books, Pool, ClosureOk, ClaimedBy;
    PoolClose(s.strands, s.waiting, s.busy, s.workers, a.k);
  }

  lemma StepClose(s: State, a: Action)
    requires Inv(s) && Enabled(s, a) && a.Close?
    ensures Inv(Do(s, a))
  {
    hide Calling, Waiting, Closures, Removals, Books, Pool, Spare, ClosureOk, Closing;
    var copy := OwnedBy(s.tracked, Of(a.k));
    HeadFacts(s, a.k);
    CloseStrand(s, a);
    BooksClose(s, a);
    TrackedUnclaimed(s);
    CallingClose(s.threads, s.closing, s.calls, s.book.removedAt.Keys, Head(s.strands[a.k]).caller, copy);
    RemovalsGrown(s.strands, s.busy, s.book, s.strands, s.busy + {a.k});
    ClosuresBook(s.strands, s.tracked, s.book, s.tracked - copy, s.book);
  }

  lemma ClosingFacts(s: State, r: Resource)
    requires Inv(s) && r in s.closing
    ensures r in s.book.bound && !r.channel
  {
  }

  lemma StepCloseOne(s: State, a: Action)
    requires Inv(s) && Enabled(s, a) && a.CloseOne?
    ensures Inv(Do(s, a))
  {
    hide Calling, Waiting, Closures, Removals, Books, Pool, Spare, ClosureOk;
    ClosingFacts(s, a.r);
    KnownMade(s, a.r);
    BooksCloseOne(s, a);
    ClosingPost(s.strands, s.busy, s.closing, a.k, [Det(a.r)]);
    PoolPost(s.strands, s.waiting, s.busy, s.workers, a.k, [Det(a.r)]);
    CallingCloseOne(s.threads, s.closing, s.calls, s.book.removedAt.Keys, a.r);
    CallingSame(s, a);
    WaitingPost(s.strands, s.threads, a.k, Det(a.r));
    RemovalsOne(s.strands, s.busy, s.book, a.k, a.r);
    ClosuresOne(s.strands, s.busy, s.tracked, s.book, a.k, a.r);
  }

  lemma CallingSame(s: State, a: Action)
    requires Enabled(s, a) && a.CloseOne?
    ensures Do(s, a).book.removedAt.Keys == s.book.removedAt.Keys + {a.r}
  {
  }

  lemma StepStart(s: State, a: Action)
    requires Inv(s) && Enabled(s, a) && a.Start?
    ensures Inv(Do(s, a))
  {
    hide Calling, Waiting, Closures, Removals, Books, Closing;
    BooksAsk(s, s.strands, s.calls, Do(s, a).waiting);
  }

  lemma StepRunRaw(s: State, a: Action)
    requires Inv(s) && Enabled(s, a) && a.RunRaw?
    ensures Inv(Do(s, a))
  {
    hide Calling, Waiting, Closures, Removals, Books, Closing, Pool, Spare, ClosureOk;
    HeadFacts(s, a.k);
    BooksAsk(s, Do(s, a).strands, s.calls, Do(s, a).waiting);
    RanStrand(s, a.k);
    WaitingRan(s.strands, s.threads, a.k);
    ClosuresRan(s.strands, s.tracked, s.book, a.k);
  }

  /** What running a closure that posts nothing leaves of the strands. */
  lemma RanStrand(s: State, k: nat)
    requires Inv(s) && Free(s, k)
    ensures Closing(Ran(s.strands, k), s.busy, s.closing)
    ensures Pool(Ran(s.strands, k), s.waiting - {k}, s.busy, s.workers)
    ensures Removals(Ran(s.strands, k), s.busy, s.book)
  {
    hide Calling, Waiting, Closures, Removals, Books, Closing, Pool, Spare, ClosureOk;
    ClosingRan(s.strands, s.busy, s.closing, k);
    PoolRan(s.strands, s.waiting, s.busy, s.workers, k);
    RemovalsGrown(s.strands, s.busy, s.book, Ran(s.strands, k), s.busy);
  }

  lemma StepRunDet(s: State, a: Action)
    requires Inv(s) && Enabled(s, a) && a.RunDet?
    ensures Inv(Do(s, a))
  {
    hide Calling, Waiting, Closures, Removals, Books, Closing, Pool, Spare;
    HeadFacts(s, a.k);
    BooksRunDet(s, a);
    var s' := Do(s, a);
    RanStrand(s, a.k);
    WaitingRan(s.strands, s.threads, a.k);
    RemovalsBook(s'.strands, s.busy, s.book, s'.book);
    ClosuresBook(s.strands, s.tracked, s.book, s'.tracked, s'.book);
    ClosuresRan(s.strands, s'.tracked, s'.book, a.k);
  }

  lemma StepRunAdd(s: State, a: Action)
    requires Inv(s) && Enabled(s, a) && a.RunAdd?
    ensures Inv(Do(s, a))
  {
    hide Calling, Waiting, Closures, Removals, Books, Closing, Pool, Spare, ClosureOk;
    HeadFacts(s, a.k);
    RanIsNotQueued(s, a.k);
    BooksRunAdd(s, a);
    var s' := Do(s, a);
    var Add(r, t) := Head(s.strands[a.k]);
    RanStrand(s, a.k);
    CallingOutside(s.threads, s.closing, s.calls, s.book.removedAt.Keys, t, AddDone(r, a.routeFree), s.book.removedAt.Keys);
    WaitingWoken(s.strands, s.threads, a.k, AddDone(r, a.routeFree));
    RemovalsBook(s'.strands, s.busy, s.book, s'.book);
    ClosuresRan(s.strands, s.tracked, s.book, a.k);
    ClosuresBook(s'.strands, s.tracked, s.book, s.tracked, s'.book);
  }

  lemma StepRunFlush(s: State, a: Action)
    requires Inv(s) && Enabled(s, a) && a.RunFlush?
    ensures Inv(Do(s, a))
  {
    hide Calling, Waiting, Closures, Removals, Books, Closing, Pool, Spare, ClosureOk;
    HeadFacts(s, a.k);
    var s' := Do(s, a);
    var t := Head(s.strands[a.k]).caller;
    BooksMove(s, t, s'.threads[t]);
    BooksAsk(s.(threads := s'.threads), s'.strands, s.calls, s'.waiting);
    RanStrand(s, a.k);
    CallingCaller(s.threads, s.closing, s.calls, s.book.removedAt.Keys, t, s'.threads[t], s.book.removedAt.Keys);
    WaitingWoken(s.strands, s.threads, a.k, s'.threads[t]);
    ClosuresRan(s.strands, s.tracked, s.book, a.k);
  }

  lemma ShutClosing(strands: seq<Strand>, busy: set<nat>, closing: set<Resource>, k: nat, cs: seq<Closure>)
    requires Closing(strands, busy, closing) && k < |strands| && (k in busy ==> forall r | r in closing :: r.strand != k)
    ensures Closing(Posted(Ran(strands, k), k, cs), busy - {k}, closing)
  {
  }

  lemma ShutPool(s: State, a: Action)
    requires Inv(s) && Enabled(s, a) && a.RunShut?
    ensures var s' := Do(s, a); Closing(s'.strands, s'.busy, s'.closing) && Pool(s'.strands, s'.waiting, s'.busy, s'.workers)
  {
    hide Calling, Waiting, Closures, Removals, Books, Pool, Spare, Removed, Closing;
    var Shut(r, t) := Head(s.strands[a.k]);
    ShutClosing(s.strands, s.busy, s.closing, a.k, [Det(r), Flush(r, t)]);
    PoolRan(s.strands, s.waiting, s.busy, s.workers, a.k);
    PoolPost(Ran(s.strands, a.k), s.waiting - {a.k}, s.busy - {a.k}, s.workers, a.k, [Det(r), Flush(r, t)]);
  }

  lemma ShutStrand(s: State, a: Action)
    requires Inv(s) && Enabled(s, a) && a.RunShut?
    ensures var s' := Do(s, a); Removals(s'.strands, s'.busy, s'.book) && Closures(s'.strands, s'.tracked, s'.book)
  {
    hide Calling, Waiting, Closures, Removals, Books, Pool, Spare, Closing;
    HeadFacts(s, a.k);
    RemovalsShut(s.strands, s.busy, s.book, a.k);
    ClosuresShut(s.strands, s.busy, s.tracked, s.book, a.k);
  }

  lemma StepRunShut(s: State, a: Action)
    requires Inv(s) && Enabled(s, a) && a.RunShut?
    ensures Inv(Do(s, a))
  {
    hide Calling, Waiting, Closures, Removals, Books, Pool, Closing, Spare, ClosureOk;
    HeadFacts(s, a.k);
    BooksShut(s, a);
    ShutPool(s, a);
    ShutStrand(s, a);
    var s' := Do(s, a);
    var Shut(r, t) := Head(s.strands[a.k]);
    CallingCaller(s.threads, s.closing, s.calls, s.book.removedAt.Keys, t, s'.threads[t], s'.book.removedAt.Keys);
    WaitingShut(s.strands, s.threads, a.k, [Det(r)]);
    assert [Det(r)] + [Flush(r, t)] == [Det(r), Flush(r, t)];
  }

  /** A channel that is down and not being shut down has been removed. */
  lemma DownIsRemoved(s: State, k: nat)
    requires Inv(s) && Free(s, k) && Head(s.strands[k]).r.channel && Of(k) in s.down
    ensures Head(s.strands[k]).r in s.book.removedAt
  {
    HeadFacts(s, k);
  }

  lemma AgainStrand(s: State, a: Action)
    requires Inv(s) && Enabled(s, a) && a.RunShutAgain?
    ensures var s' := Do(s, a);
      && Closing(s'.strands, s'.busy, s'.closing) && Pool(s'.strands, s'.waiting, s'.busy, s'.workers)
      && Removals(s'.strands, s'.busy, s'.book) && Closures(s'.strands, s'.tracked, s'.book)
  {
    hide Calling, Waiting, Closures, Removals, Books, Closing, Pool, Spare, ClosureOk;
    HeadFacts(s, a.k);
    DownIsRemoved(s, a.k);
    var Shut(r, t) := Head(s.strands[a.k]);
    ClosingRan(s.strands, s.busy, s.closing, a.k);
    ClosingPost(Ran(s.strands, a.k), s.busy, s.closing, a.k, [Flush(r, t)]);
    PoolRan(s.strands, s.waiting, s.busy, s.workers, a.k);
    PoolPost(Ran(s.strands, a.k), s.waiting - {a.k}, s.busy, s.workers, a.k, [Flush(r, t)]);
    RemovalsGrown(s.strands, s.busy, s.book, Do(s, a).strands, s.busy);
    ClosuresRan(s.strands, s.tracked, s.book, a.k);
    ClosuresPost(Ran(s.strands, a.k), s.tracked, s.book, a.k, Flush(r, t));
  }

  lemma StepRunShutAgain(s: State, a: Action)
    requires Inv(s) && Enabled(s, a) && a.RunShutAgain?
    ensures Inv(Do(s, a))
  {
    hide Calling, Waiting, Closures, Removals, Books, Closing, Pool, Spare, ClosureOk;
    HeadFacts(s, a.k);
    AgainStrand(s, a);
    var s' := Do(s, a);
    var Shut(r, t) := Head(s.strands[a.k]);
    BooksMove(s, t, s'.threads[t]);
    BooksAsk(s.(threads := s'.threads), s'.strands, s.calls, s'.waiting);
    CallingCaller(s.threads, s.closing, s.calls, s.book.removedAt.Keys, t, s'.threads[t], s.book.removedAt.Keys);
    WaitingShut(s.strands, s.threads, a.k, []);
    assert [] + [Flush(r, t)] == [Flush(r, t)];
  }

  lemma StepInv(s: State, a: Action)
    requires Inv(s) && Enabled(s, a)
    ensures Inv(Do(s, a))
  {
    hide Inv, Do;
    match a
    case BeginBind(_, _) => StepBegin(s, a);
    case BeginShutdown(_) => StepBegin(s, a);
    case Acquire(_) => StepBegin(s, a);
    case UserShutdown(_, _) => StepAskShutdown(s, a);
    case CallShutdown(_, _) => StepAskShutdown(s, a);
    case PostRaw(_) => StepPostRaw(s, a);
    case CreateReturns(_, _) => StepCreateReturns(s, a);
    case AddReturns(_) => StepAddReturns(s, a);
    case PostAdd(_, _) => StepPostAdd(s, a);
    case Claim(_) => StepClaim(s, a);
    case FinishShutdown(_) => StepFinish(s, a);
    case Start(_) => StepStart(s, a);
    case RunRaw(_) => StepRunRaw(s, a);
    case Close(_) => StepClose(s, a);
    case CloseOne(_, _) => StepCloseOne(s, a);
    case RunShut(_) => StepRunShut(s, a);
    case RunShutAgain(_) => StepRunShutAgain(s, a);
    case RunDet(_) => StepRunDet(s, a);
    case RunFlush(_) => StepRunFlush(s, a);
    case RunAdd(_, _) => StepRunAdd(s, a);
  }

  lemma {:induction false} RunKeepsInv(s: State, acts: seq<Action>, s': State)
    requires Inv(s) && Run(s, acts, s')
    ensures Inv(s')
    decreases |acts|
  {
    hide Inv, Do;
    if acts != [] {
      StepInv(s, acts[0]);
      RunKeepsInv(Do(s, acts[0]), acts[1..], s');
    }
  }

  lemma ReachableInv(s: State)
    requires Reachable(s)
    ensures Inv(s)
  {
    var s0, acts :| Init(s0) && Run(s0, acts, s);
    assert Inv(s0);
    RunKeepsInv(s0, acts, s);
  }
}
