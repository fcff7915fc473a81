/** The pointer wrapper gil_safe_shared of python/src/channel.cpp.

    The wrapped pointer sits in a box owned by the deleter of the pointer handed out, and the deleter sits in that
    pointer's control block. The block outlives the last copy while weak pointers are left. */
module GilSafeShared {
  import opened Wrappers

  /** One release of the wrapped reference: was the interpreter lock held? */
  datatype Release = Release(underGil: bool)

  datatype State = State(
    strong: nat,
    weak: nat,
    boxed: bool,              // the deleter still owns the wrapped pointer
    initialised: bool,        // Py_IsInitialized
    atLastDrop: Option<bool>, // Py_IsInitialized when the last copy went
    releases: seq<Release>)

  /** None for a null pointer, which is returned as it is. */
  function Wrap(isNull: bool, initialised: bool): Option<State> {
    if isNull then None else Some(State(1, 0, true, initialised, None, []))
  }

  datatype Action = Copy | Drop | Watch | Unwatch | Lock | SetInterpreter(up: bool)

  predicate Enabled(s: State, a: Action) {
    match a
    case Copy => s.strong > 0
    case Drop => s.strong > 0
    case Watch => s.strong > 0 || s.weak > 0
    case Unwatch => s.weak > 0
    case Lock => s.weak > 0
    case SetInterpreter(_) => true
  }

  /** The deleter, run when the last copy goes. */
  function Delete(s: State): State {
    var t := s.(atLastDrop := Some(s.initialised));
    if s.initialised then t.(boxed := false, releases := s.releases + [Release(true)]) else t
  }

  /** With no copy and no weak pointer left the control block goes, and with it whatever the deleter still owns. */
  function Collect(s: State): State {
    if s.strong == 0 && s.weak == 0 && s.boxed then s.(boxed := false, releases := s.releases + [Release(false)]) else s
  }

  function Do(s: State, a: Action): State
    requires Enabled(s, a)
  {
    match a
    case Copy => s.(strong := s.strong + 1)
    case Drop =>
      var t := s.(strong := s.strong - 1);
      if t.strong == 0 then Collect(Delete(t)) else t
    case Watch => s.(weak := s.weak + 1)
    case Unwatch => Collect(s.(weak := s.weak - 1))
    case Lock => if s.strong > 0 then s.(strong := s.strong + 1) else s
    case SetInterpreter(up) => s.(initialised := up)
  }

  ghost predicate Run(s: State, actions: seq<Action>, t: State)
    decreases |actions|
  {
    if actions == [] then s == t
    else Enabled(s, actions[0]) && Run(Do(s, actions[0]), actions[1..], t)
  }

  /** What holds in every state a wrapped pointer can get to. */
  ghost predicate Inv(s: State) {
    if s.strong > 0 then s.boxed && s.releases == [] && s.atLastDrop == None
    else
      s.atLastDrop.Some? &&
      if s.atLastDrop.value then !s.boxed && s.releases == [Release(true)]
      else if s.weak > 0 then s.boxed && s.releases == []
      else !s.boxed && s.releases == [Release(false)]
  }

  // ---------------------------------------------------------------- read off the calls made

  /** Copies alive after these calls: one to begin with, one more for a copy and for a lock that found one alive. */
  function Alive(actions: seq<Action>): int {
    if actions == [] then 1
    else
      var n := Alive(actions[..|actions| - 1]);
      match actions[|actions| - 1]
      case Copy => n + 1
      case Drop => n - 1
      case Lock => if n > 0 then n + 1 else n
      case _ => n
  }

  function Watchers(actions: seq<Action>): int {
    if actions == [] then 0
    else
      var n := Watchers(actions[..|actions| - 1]);
      match actions[|actions| - 1]
      case Watch => n + 1
      case Unwatch => n - 1
      case _ => n
  }

  predicate Up(initialised: bool, actions: seq<Action>) {
    if actions == [] then initialised
    else if actions[|actions| - 1].SetInterpreter? then actions[|actions| - 1].up
    else Up(initialised, actions[..|actions| - 1])
  }

  /** Call i drops the last copy. */
  predicate LastDrop(actions: seq<Action>, i: nat) {
    i < |actions| && actions[i] == Drop && Alive(actions[..i]) == 1
  }

  lemma {:induction false} RunSplits(s: State, actions: seq<Action>, t: State) returns (u: State)
    requires Run(s, actions, t) && actions != []
    ensures Run(s, actions[..|actions| - 1], u)
    ensures Enabled(u, actions[|actions| - 1]) && t == Do(u, actions[|actions| - 1])
    decreases |actions|
  {
    hide Do, Enabled;
    var init := actions[..|actions| - 1];
    if |actions| == 1 {
      u := s;
      assert Run(Do(s, actions[0]), actions[1..], t) && actions[1..] == [];
      assert init == [];
    } else {
      u := RunSplits(Do(s, actions[0]), actions[1..], t);
      assert init[1..] == actions[1..][..|actions[1..]| - 1];
    }
  }

  /** The counts of a state are those of the calls that led to it. */
  lemma {:induction false} CountsAgree(initialised: bool, actions: seq<Action>, t: State)
    requires Run(Wrap(false, initialised).value, actions, t)
    ensures Inv(t) && t.strong == Alive(actions) && t.weak == Watchers(actions) && t.initialised == Up(initialised, actions)
    ensures forall i: nat | LastDrop(actions, i) :: t.strong == 0 && t.atLastDrop == Some(Up(initialised, actions[..i]))
    ensures t.strong == 0 ==> exists i: nat :: LastDrop(actions, i)
    decreases |actions|
  {
    hide Run;
    if actions == [] {
      NoCalls(initialised, t);
    } else {
      var init, a := actions[..|actions| - 1], actions[|actions| - 1];
      var u := RunSplits(Wrap(false, initialised).value, actions, t);
      CountsAgree(initialised, init, u);
      LastDropStep(actions);
      if i: nat :| LastDrop(init, i) {
        assert LastDrop(actions, i);
      }
      forall i: nat | LastDrop(actions, i) ensures t.strong == 0 && t.atLastDrop == Some(Up(initialised, actions[..i])) {
        assert i < |init| ==> LastDrop(init, i);
      }
      assert a == Drop && u.strong == 1 ==> LastDrop(actions, |init|);
    }
  }

  lemma NoCalls(initialised: bool, t: State)
    requires Run(Wrap(false, initialised).value, [], t)
    ensures t == Wrap(false, initialised).value
  {
  }

  lemma LastDropStep(actions: seq<Action>)
    requires actions != []
    ensures var n := |actions| - 1;
      && (LastDrop(actions, n) <==> actions[n] == Drop && Alive(actions[..n]) == 1)
      && (forall i: nat | i < n :: actions[..n][..i] == actions[..i])
      && forall i: nat | i < n :: LastDrop(actions, i) <==> LastDrop(actions[..n], i)
  {
    var n := |actions| - 1;
    forall i: nat | i < n ensures actions[..n][..i] == actions[..i] {
    }
  }

  /** Call i is one a program may make: on a copy it has, or on a weak pointer it has. */
  predicate MayCall(actions: seq<Action>, i: nat)
    requires i < |actions|
  {
    var alive, watchers := Alive(actions[..i]) > 0, Watchers(actions[..i]) > 0;
    match actions[i]
    case Copy => alive
    case Drop => alive
    case Watch => alive || watchers
    case Unwatch => watchers
    case Lock => watchers
    case SetInterpreter(_) => true
  }

  lemma {:induction false} RunThen(s: State, actions: seq<Action>, t: State, a: Action)
    requires Run(s, actions, t) && Enabled(t, a)
    ensures Run(s, actions + [a], Do(t, a))
    decreases |actions|
  {
    hide Do, Enabled;
    if actions == [] {
      assert actions + [a] == [a] && [a][1..] == [];
      assert Run(Do(s, a), [], Do(s, a));
    } else {
      RunThen(Do(s, actions[0]), actions[1..], t, a);
      assert (actions + [a])[1..] == actions[1..] + [a];
    }
  }

  /** Every sequence of such calls, and no other, is a run. */
  lemma {:induction false} RunsAre(initialised: bool, actions: seq<Action>)
    ensures (exists t :: Run(Wrap(false, initialised).value, actions, t)) <==> forall i | 0 <= i < |actions| :: MayCall(actions, i)
    decreases |actions|
  {
    hide Run, Do;
    var s := Wrap(false, initialised).value;
    if actions == [] {
      NoCallsRun(s);
      assert Run(s, actions, s);
    } else {
      var init, a := actions[..|actions| - 1], actions[|actions| - 1];
      assert actions == init + [a];
      RunsAre(initialised, init);
      forall i | 0 <= i < |init| ensures MayCall(actions, i) <==> MayCall(init, i) {
        assert actions[..i] == init[..i];
      }
      if t :| Run(s, actions, t) {
        var u := RunSplits(s, actions, t);
        CountsAgree(initialised, init, u);
        assert MayCall(actions, |init|);
        forall i | 0 <= i < |actions| ensures MayCall(actions, i) {
          assert i < |init| ==> MayCall(init, i);
        }
      }
      if forall i | 0 <= i < |actions| :: MayCall(actions, i) {
        assert forall i | 0 <= i < |init| :: MayCall(init, i) <==> MayCall(actions, i);
        var u :| Run(s, init, u);
        CountsAgree(initialised, init, u);
        assert MayCall(actions, |init|);
        RunThen(s, init, u, a);
      }
    }
  }

  lemma NoCallsRun(s: State)
    ensures Run(s, [], s)
  {
  }

  /** In every run the reference is held while a copy lives and is released once, and only once, after the last copy
      goes. The release is under the GIL exactly when the interpreter was still up when that copy went; otherwise
      the reference waits for the last weak pointer and goes without the GIL. */
  lemma ReleasedOnce(initialised: bool, actions: seq<Action>, t: State)
    requires Run(Wrap(false, initialised).value, actions, t)
    ensures Alive(actions) > 0 ==> t.boxed && t.releases == []
    ensures |t.releases| <= 1 && (t.boxed <==> t.releases == [])
    ensures Alive(actions) == 0 ==> exists i: nat ::
      && LastDrop(actions, i)
      && (t.releases != [] <==> Up(initialised, actions[..i]) || Watchers(actions) == 0)
      && (t.releases != [] ==> t.releases[0].underGil == Up(initialised, actions[..i]))
  {
    CountsAgree(initialised, actions, t);
  }

  /** A pointer whose last copy goes after the interpreter has been finalised is released without the GIL. */
  lemma LateReleaseHasNoGil()
    ensures exists t :: Run(Wrap(false, true).value, [SetInterpreter(false), Drop], t) && t.releases == [Release(false)]
  {
    var s := Wrap(false, true).value;
    var u := Do(s, SetInterpreter(false));
    var t := Do(u, Drop);
    assert Run(t, [], t);
    assert [SetInterpreter(false), Drop][1..] == [Drop] && [Drop][1..] == [];
    assert Run(u, [Drop], t);
    assert Run(s, [SetInterpreter(false), Drop], t);
  }
}
