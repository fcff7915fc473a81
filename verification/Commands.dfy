/** Command sets and the native headers built from them: dotnet/CLRInterface/src/CommandSet.cs,
    dotnet/CLRAdapter/src/CommandSetBuilder.cpp and MasterConversions.cpp. */
module Commands {

  datatype Kind = Crob | Int16 | Int32 | Float32 | Double64

  datatype Indexed<C> = Indexed(value: C, index: nat)

  /** ICommandHeaders: a CommandHeader or a CommandSet of them, nested to any depth. */
  datatype Headers<C> = Leaf(kind: Kind, commands: seq<Indexed<C>>) | Set(headers: seq<Headers<C>>)

  datatype Native<D> = Native(kind: Kind, commands: seq<Indexed<D>>)

  // ---------------------------------------------------------------- what a tree means

  /** The leaves from left to right. */
  function Leaves<C>(h: Headers<C>): (r: seq<Headers<C>>)
    ensures forall k | 0 <= k < |r| :: r[k].Leaf?
    decreases h, 0
  {
    match h
    case Leaf(_, _) => [h]
    case Set(hs) => AllLeaves(hs)
  }

  function AllLeaves<C>(hs: seq<Headers<C>>): (r: seq<Headers<C>>)
    ensures forall k | 0 <= k < |r| :: r[k].Leaf?
    decreases hs, |hs|
  {
    if hs == [] then [] else Leaves(hs[0]) + AllLeaves(hs[1..])
  }

  function Converted<C, D>(conv: C -> D, h: Headers<C>): Native<D>
    requires h.Leaf?
  {
    Native(h.kind, seq(|h.commands|, k requires 0 <= k < |h.commands| =>
      Indexed(conv(h.commands[k].value), h.commands[k].index)))
  }

  /** One native header to a leaf. */
  function NativeOf<C, D>(conv: C -> D, leaves: seq<Headers<C>>): (r: seq<Native<D>>)
    requires forall k | 0 <= k < |leaves| :: leaves[k].Leaf?
    ensures |r| == |leaves| && forall k | 0 <= k < |r| :: r[k] == Converted(conv, leaves[k])
  {
    seq(|leaves|, k requires 0 <= k < |leaves| => Converted(conv, leaves[k]))
  }

  lemma {:induction false} AllLeavesConcat<C>(a: seq<Headers<C>>, b: seq<Headers<C>>)
    ensures AllLeaves(a + b) == AllLeaves(a) + AllLeaves(b)
    decreases |a|
  {
    if a == [] {
      assert a + b == b;
    } else {
      assert (a + b)[0] == a[0] && (a + b)[1..] == a[1..] + b;
      AllLeavesConcat(a[1..], b);
    }
  }

  /** Grouping does not matter: a set inside a set is its headers in its place. */
  lemma NestingIsFlat<C>(before: seq<Headers<C>>, inner: seq<Headers<C>>, after: seq<Headers<C>>)
    ensures Leaves(Set(before + [Set(inner)] + after)) == Leaves(Set(before + inner + after))
  {
    AllLeavesConcat(before + [Set(inner)], after);
    AllLeavesConcat(before, [Set(inner)]);
    AllLeavesConcat(before + inner, after);
    AllLeavesConcat(before, inner);
    assert AllLeaves([Set(inner)]) == Leaves(Set(inner)) + AllLeaves([]);
  }

  /** The laws that fix the order: a leaf is itself, sets side by side follow one another, a set of one is that one. */
  lemma LeafLaws<C>(kind: Kind, commands: seq<Indexed<C>>, h: Headers<C>, a: seq<Headers<C>>, b: seq<Headers<C>>)
    ensures Leaves(Leaf(kind, commands)) == [Leaf(kind, commands)]
    ensures Leaves<C>(Set([])) == [] && Leaves(Set([h])) == Leaves(h)
    ensures Leaves(Set(a + b)) == Leaves(Set(a)) + Leaves(Set(b))
  {
    AllLeavesConcat(a, b);
    assert AllLeaves([h]) == Leaves(h) + AllLeaves([]);
  }

  /** How many command headers a tree holds. */
  function Size<C>(h: Headers<C>): nat
    decreases h, 0
  {
    match h
    case Leaf(_, _) => 1
    case Set(hs) => AllSizes(hs)
  }

  function AllSizes<C>(hs: seq<Headers<C>>): nat
    decreases hs, |hs|
  {
    if hs == [] then 0 else Size(hs[0]) + AllSizes(hs[1..])
  }

  lemma {:induction false} NoneIsMissed<C>(h: Headers<C>)
    ensures |Leaves(h)| == Size(h)
    decreases h, 0
  {
    if h.Set? {
      NoneOfAllIsMissed(h.headers);
    }
  }

  lemma {:induction false} NoneOfAllIsMissed<C>(hs: seq<Headers<C>>)
    ensures |AllLeaves(hs)| == AllSizes(hs)
    decreases hs, |hs|
  {
    if hs != [] {
      NoneIsMissed(hs[0]);
      NoneOfAllIsMissed(hs[1..]);
    }
  }

  // ---------------------------------------------------------------- building

  /** The native set with the builder's Add: it starts a header and appends to it. */
  class CommandSetBuilder<C, D> {
    var headers: seq<Native<D>>
    const conv: C -> D

    constructor (conv: C -> D)
      ensures headers == [] && this.conv == conv
    {
      headers, this.conv := [], conv;
    }

    method StartHeader(kind: Kind)
      modifies this
      ensures headers == old(headers) + [Native(kind, [])]
    {
      headers := headers + [Native(kind, [])];
    }

    /** One header more, with every command converted and at its own index. */
    method Add(kind: Kind, commands: seq<Indexed<C>>)
      modifies this
      ensures |headers| == |old(headers)| + 1 && headers[..|old(headers)|] == old(headers)
      ensures var h := headers[|old(headers)|];
        && h.kind == kind && |h.commands| == |commands|
        && forall k | 0 <= k < |commands| ::
             h.commands[k].index == commands[k].index && h.commands[k].value == conv(commands[k].value)
    {
      StartHeader(kind);
      var at := |headers| - 1;
      for i := 0 to |commands|
        invariant |headers| == at + 1 && headers[..at] == old(headers) && headers[at].kind == kind
        invariant |headers[at].commands| == i
        invariant forall k | 0 <= k < i ::
          headers[at].commands[k].index == commands[k].index && headers[at].commands[k].value == conv(commands[k].value)
      {
        var pair := commands[i];
        headers := headers[at := Native(kind, headers[at].commands + [Indexed(conv(pair.value), pair.index)])];
      }
    }

    /** ICommandHeaders.Build on either kind of header. */
    method Build(h: Headers<C>)
      modifies this
      ensures headers == old(headers) + NativeOf(conv, Leaves(h))
      decreases h
    {
      match h
      case Leaf(kind, commands) =>
        Add(kind, commands);
        assert headers[|old(headers)|].commands == Converted(conv, h).commands;
        assert headers == old(headers) + [headers[|old(headers)|]];
        assert NativeOf(conv, [h]) == [Converted(conv, h)];
      case Set(hs) =>
        BuildAll(hs);
    }

    method BuildAll(hs: seq<Headers<C>>)
      modifies this
      ensures headers == old(headers) + NativeOf(conv, AllLeaves(hs))
      decreases hs
    {
      hide NativeOf, AllLeaves, Leaves;
      NoLeaves<C, D>(conv);
      assert hs[..0] == [];
      for i := 0 to |hs|
        invariant headers == old(headers) + NativeOf(conv, AllLeaves(hs[..i]))
      {
        OneMore(conv, hs, i);
        Build(hs[i]);
      }
      assert hs[..|hs|] == hs;
    }
  }

  lemma NoLeaves<C, D>(conv: C -> D)
    ensures NativeOf(conv, AllLeaves([])) == []
  {
  }

  lemma OneMore<C, D>(conv: C -> D, hs: seq<Headers<C>>, i: nat)
    requires i < |hs|
    ensures NativeOf(conv, AllLeaves(hs[..i + 1])) == NativeOf(conv, AllLeaves(hs[..i])) + NativeOf(conv, Leaves(hs[i]))
  {
    hide NativeOf;
    assert hs[..i + 1] == hs[..i] + [hs[i]];
    AllLeavesConcat(hs[..i], [hs[i]]);
    assert AllLeaves([hs[i]]) == Leaves(hs[i]) + AllLeaves([]);
    NativeConcat(conv, AllLeaves(hs[..i]), Leaves(hs[i]));
  }

  lemma NativeConcat<C, D>(conv: C -> D, a: seq<Headers<C>>, b: seq<Headers<C>>)
    requires forall k | 0 <= k < |a| :: a[k].Leaf?
    requires forall k | 0 <= k < |b| :: b[k].Leaf?
    ensures NativeOf(conv, a + b) == NativeOf(conv, a) + NativeOf(conv, b)
  {
  }

  /** MasterConversions::Convert: as many headers as the tree has leaves, in their order, each with the kind of its leaf and
      every command at its own index. */
  method ConvertHeaders<C, D>(conv: C -> D, h: Headers<C>) returns (commands: seq<Native<D>>)
    ensures |commands| == Size(h) == |Leaves(h)|
    ensures forall i | 0 <= i < |commands| ::
      commands[i].kind == Leaves(h)[i].kind && |commands[i].commands| == |Leaves(h)[i].commands|
    ensures forall i, k | 0 <= i < |commands| && 0 <= k < |commands[i].commands| ::
      && commands[i].commands[k].index == Leaves(h)[i].commands[k].index
      && commands[i].commands[k].value == conv(Leaves(h)[i].commands[k].value)
  {
    hide Leaves, NativeOf, Size;
    var builder := new CommandSetBuilder<C, D>(conv);
    builder.Build(h);
    commands := builder.headers;
    NoneIsMissed(h);
    NativeKeeps(conv, Leaves(h));
    assert [] + NativeOf(conv, Leaves(h)) == NativeOf(conv, Leaves(h));
  }

  lemma NativeKeeps<C, D>(conv: C -> D, leaves: seq<Headers<C>>)
    requires forall k | 0 <= k < |leaves| :: leaves[k].Leaf?
    ensures var r := NativeOf(conv, leaves);
      && |r| == |leaves|
      && (forall i | 0 <= i < |r| :: r[i].kind == leaves[i].kind && |r[i].commands| == |leaves[i].commands|)
      && forall i, k | 0 <= i < |r| && 0 <= k < |r[i].commands| ::
           r[i].commands[k].index == leaves[i].commands[k].index && r[i].commands[k].value == conv(leaves[i].commands[k].value)
  {
  }
}
