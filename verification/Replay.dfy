/** Recorded updates and their replay: dotnet/CLRInterface/src/ChangeSet.cs, dotnet/CLRAdapter/src/DatabaseAdapter.h,
    UpdateAdapter.cpp and OutstationAdapter.cpp, and cpp/lib/src/outstation/UpdateBuilder.cpp. */
module Replay {
  import opened Wrappers
  import Conversions
  import opened Crc

  datatype Kind = BinaryInput | DoubleBitBinary | AnalogInput | CounterInput | BinaryOutput | AnalogOutput | Octets

  /** A call of the database interface. The recorded closures each make exactly one. */
  datatype Call<V> =
    | Update(kind: Kind, value: V, index: nat, mode: nat)
    | FreezeCounter(index: nat, clear: bool, mode: nat)
    | UpdateTime(value: V, index: nat)

  // ---------------------------------------------------------------- databases

  /** Any database: a state and what each call does to it. */
  class Database<S, V> {
    var state: S
    const step: (S, Call<V>) -> S

    constructor (state: S, step: (S, Call<V>) -> S)
      ensures this.state == state && this.step == step
    {
      this.state, this.step := state, step;
    }

    method Accept(call: Call<V>)
      modifies this
      ensures state == step(old(state), call)
    {
      state := step(state, call);
    }
  }

  /** The calls made directly, one after the other. */
  function Fed<S, V>(step: (S, Call<V>) -> S, s: S, calls: seq<Call<V>>): S {
    if calls == [] then s else step(Fed(step, s, calls[..|calls| - 1]), calls[|calls| - 1])
  }

  lemma {:induction false} FedConcat<S, V>(step: (S, Call<V>) -> S, s: S, a: seq<Call<V>>, b: seq<Call<V>>)
    ensures Fed(step, s, a + b) == Fed(step, Fed(step, s, a), b)
    decreases |b|
  {
    if b == [] {
      assert a + b == a;
    } else {
      var n := |b| - 1;
      assert (a + b)[..|a + b| - 1] == a + b[..n];
      FedConcat(step, s, a, b[..n]);
    }
  }

  // ---------------------------------------------------------------- change sets

  class ChangeSet<V> {
    var updates: seq<Call<V>>
    /** What List<T> counts so that an enumerator notices changes. */
    var version: nat

    constructor ()
      ensures updates == []
    {
      updates, version := [], 0;
    }

    method Record(call: Call<V>)
      modifies this
      ensures updates == old(updates) + [call] && version == old(version) + 1
    {
      updates, version := updates + [call], version + 1;
    }

    method Clear()
      modifies this
      ensures updates == [] && version == old(version) + 1
    {
      updates, version := [], version + 1;
    }

    method Count() returns (n: nat)
      ensures n == |updates|
    {
      n := |updates|;
    }

    /** Replay equals making the recorded calls directly. */
    method Apply<S>(db: Database<S, V>)
      modifies db
      ensures db.state == Fed(db.step, old(db.state), updates)
    {
      for i := 0 to |updates|
        invariant db.state == Fed(db.step, old(db.state), updates[..i])
      {
        assert updates[..i + 1][..i] == updates[..i];
        db.Accept(updates[i]);
      }
      assert updates[..|updates|] == updates;
    }

    /** Replay into a change set: it appends exactly when the target is another set or nothing is recorded;
        a set replayed into itself changes under its own enumerator, which throws after the first call. */
    method ApplyTo(target: ChangeSet<V>) returns (threw: bool)
      modifies target
      ensures threw <==> target == this && old(updates) != []
      ensures !threw ==> target.updates == old(target.updates) + old(updates)
      ensures threw ==> updates == old(updates) + [old(updates)[0]]
    {
      var before := version;
      ghost var mine, theirs := updates, target.updates;
      var i := 0;
      while i < |updates|
        invariant i <= |mine| && i <= |updates|
        invariant target != this ==> updates == mine && version == before && target.updates == theirs + mine[..i]
        invariant target == this ==> i <= 1 && updates == mine + mine[..i] && version == before + i
        decreases if target == this then 2 - i else |mine| - i
      {
        if version != before {
          assert mine[..1] == [mine[0]];
          return true;
        }
        target.Record(updates[i]);
        i := i + 1;
      }
      return false;
    }
  }

  // ---------------------------------------------------------------- recording and clearing

  datatype Edit<V> = Made(call: Call<V>) | Cleared

  function Recorded<V>(edits: seq<Edit<V>>): seq<Call<V>> {
    if edits == [] then []
    else match edits[|edits| - 1]
      case Made(call) => Recorded(edits[..|edits| - 1]) + [call]
      case Cleared => []
  }

  /** A database given each call when it is made, and put back to where it was by Clear. */
  function Shadow<S, V>(step: (S, Call<V>) -> S, s: S, edits: seq<Edit<V>>): S {
    if edits == [] then s
    else match edits[|edits| - 1]
      case Made(call) => step(Shadow(step, s, edits[..|edits| - 1]), call)
      case Cleared => s
  }

  /** Recording now and replaying later comes to the same as calling at once. */
  lemma {:induction false} ReplayIsDirect<S, V>(step: (S, Call<V>) -> S, s: S, edits: seq<Edit<V>>)
    ensures Fed(step, s, Recorded(edits)) == Shadow(step, s, edits)
  {
    if edits != [] {
      var before := edits[..|edits| - 1];
      ReplayIsDirect(step, s, before);
      match edits[|edits| - 1]
      case Made(call) => FedConcat(step, s, Recorded(before), [call]);
        assert Fed(step, Fed(step, s, Recorded(before)), []) == Fed(step, s, Recorded(before));
      case Cleared =>
    }
  }

  // ---------------------------------------------------------------- loading an outstation

  /** DatabaseAdapter: the same call with the measurement converted and everything else kept. */
  function Convert<V, W>(conv: V -> W, call: Call<V>): (r: Call<W>)
    ensures r.index == call.index && (call.Update? ==> r.Update? && r.kind == call.kind && r.mode == call.mode)
    ensures call.FreezeCounter? ==> r.FreezeCounter? && r.clear == call.clear && r.mode == call.mode
    ensures call.UpdateTime? ==> r.UpdateTime?
  {
    match call
    case Update(kind, value, index, mode) => Update(kind, conv(value), index, mode)
    case FreezeCounter(index, clear, mode) => FreezeCounter(index, clear, mode)
    case UpdateTime(value, index) => UpdateTime(conv(value), index)
  }

  function ConvertAll<V, W>(conv: V -> W, calls: seq<Call<V>>): (r: seq<Call<W>>)
    ensures |r| == |calls| && forall k | 0 <= k < |r| :: r[k] == Convert(conv, calls[k])
  {
    seq(|calls|, k requires 0 <= k < |calls| => Convert(conv, calls[k]))
  }

  /** The native builder; Build hands the list over and leaves none behind. */
  class UpdateBuilder<W> {
    var updates: Option<seq<Call<W>>>

    ghost function Pending(): seq<Call<W>>
      reads this
    {
      if updates.Some? then updates.value else []
    }

    constructor ()
      ensures updates == None
    {
      updates := None;
    }

    method Add(call: Call<W>)
      modifies this
      ensures Pending() == old(Pending()) + [call]
    {
      if updates.None? {
        updates := Some([]);
      }
      updates := Some(updates.value + [call]);
    }

    method Build() returns (built: Option<seq<Call<W>>>)
      modifies this
      ensures (if built.Some? then built.value else []) == old(Pending()) && Pending() == []
    {
      built := updates;
      updates := None;
    }
  }

  /** OutstationAdapter::Load: the outstation gets the recorded calls, each with its index and mode, in order. */
  method Load<V, W, S>(changes: ChangeSet<V>, conv: V -> W, outstation: Database<S, W>)
    modifies outstation
    ensures outstation.state == Fed(outstation.step, old(outstation.state), ConvertAll(conv, changes.updates))
  {
    var builder := new UpdateBuilder<W>();
    for i := 0 to |changes.updates|
      invariant builder.Pending() == ConvertAll(conv, changes.updates[..i]) && fresh(builder)
      invariant outstation.state == old(outstation.state)
    {
      builder.Add(Convert(conv, changes.updates[i]));
    }
    var built := builder.Build();
    assert changes.updates[..|changes.updates|] == changes.updates;
    if built.None? || built.value == [] {
      return;
    }
    var calls := built.value;
    for i := 0 to |calls|
      invariant outstation.state == Fed(outstation.step, old(outstation.state), calls[..i])
    {
      assert calls[..i + 1][..i] == calls[..i];
      outstation.Accept(calls[i]);
    }
    assert calls[..|calls|] == calls;
  }

  /** Both ways of the adapter: what comes back has every call in its place, with its kind, index and mode. */
  lemma ConversionRoundTrip<V, W>(conv: V -> W, back: W -> V, calls: seq<Call<V>>)
    requires forall k | 0 <= k < |calls| && !calls[k].FreezeCounter? :: back(conv(calls[k].value)) == calls[k].value
    ensures ConvertAll(back, ConvertAll(conv, calls)) == calls
  {
    forall k | 0 <= k < |calls| ensures Convert(back, Convert(conv, calls[k])) == calls[k] {
    }
  }

  /** A native octet string as Conversions.FromNative returns it. */
  function Returned(native: seq<Octet>): seq<Octet> { native }

  /** Octet strings, as the adapter converts them: updates recorded on the managed side, converted for the native builder
      and back, return call for call. */
  lemma OctetUpdatesReturn(calls: seq<Call<seq<Octet>>>)
    requires forall k | 0 <= k < |calls| && !calls[k].FreezeCounter? :: 1 <= |calls[k].value| <= 255
    ensures ConvertAll(Returned, ConvertAll(Conversions.FirstOctets, calls)) == calls
  {
    forall k | 0 <= k < |calls| && !calls[k].FreezeCounter?
      ensures Returned(Conversions.FirstOctets(calls[k].value)) == calls[k].value
    {
    }
    ConversionRoundTrip(Conversions.FirstOctets, Returned, calls);
  }

  /** Sets chained through one another load as one. */
  lemma ChainedSetsLoad<V, W, S>(conv: V -> W, step: (S, Call<W>) -> S, s: S, a: seq<Call<V>>, b: seq<Call<V>>)
    ensures Fed(step, s, ConvertAll(conv, a + b)) ==
      Fed(step, Fed(step, s, ConvertAll(conv, a)), ConvertAll(conv, b))
  {
    assert ConvertAll(conv, a + b) == ConvertAll(conv, a) + ConvertAll(conv, b);
    FedConcat(step, s, ConvertAll(conv, a), ConvertAll(conv, b));
  }

  /** A set replayed into another, which is then loaded: the outstation gets the calls of the second and then those of
      the first. */
  method LoadThrough<V, W, S>(first: ChangeSet<V>, second: ChangeSet<V>, conv: V -> W, outstation: Database<S, W>)
    requires first != second
    modifies second, outstation
    ensures outstation.state ==
      Fed(outstation.step, Fed(outstation.step, old(outstation.state), ConvertAll(conv, old(second.updates))),
          ConvertAll(conv, old(first.updates)))
  {
    var threw := first.ApplyTo(second);
    ChainedSetsLoad(conv, outstation.step, outstation.state, old(second.updates), old(first.updates));
    Load(second, conv, outstation);
  }
}
