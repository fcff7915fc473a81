/** Wrapping sequence numbers: cpp/lib/src/SequenceNum.h. */
module SequenceNum {

  function Next(modulus: nat, s: nat): (r: nat)
    requires modulus > 0
    ensures r < modulus
  {
    (s + 1) % modulus
  }

  class Sequence {
    const modulus: nat
    var value: nat

    ghost predicate Valid()
      reads this
    {
      value < modulus <= 256
    }

    constructor (modulus: nat, value: nat)
      requires value < modulus <= 256
      ensures Valid() && this.modulus == modulus && this.value == value
    {
      this.modulus, this.value := modulus, value;
    }

    method Increment()
      requires Valid()
      modifies this
      ensures Valid() && value == Next(modulus, old(value))
    {
      value := Next(modulus, value);
    }

    /** The converting constructor, as an assignment uses it. */
    method Assign(v: nat)
      requires v < modulus <= 256
      modifies this
      ensures Valid() && value == v
    {
      value := v;
    }

    method Reset()
      requires Valid()
      modifies this
      ensures Valid() && value == 0
    {
      value := 0;
    }
  }

  datatype Op = Increment | Reset

  function Run(modulus: nat, s: nat, ops: seq<Op>): nat
    requires modulus > 0
  {
    if ops == [] then s
    else match ops[|ops| - 1]
      case Increment => Next(modulus, Run(modulus, s, ops[..|ops| - 1]))
      case Reset => 0
  }

  /** Increments since the last Reset, and the value they started from. */
  function Since(ops: seq<Op>): nat {
    if ops == [] || ops[|ops| - 1] == Reset then 0 else 1 + Since(ops[..|ops| - 1])
  }

  function Base(s: nat, ops: seq<Op>): nat { if Reset in ops then 0 else s }

  /** Any run of Increment and Reset. */
  lemma {:induction false} RunValue(modulus: nat, s: nat, ops: seq<Op>)
    requires s < modulus
    ensures Run(modulus, s, ops) == Mod(Base(s, ops) + Since(ops), modulus)
  {
    hide Mod, Next;
    if ops == [] {
      Unique(s, 0, s, modulus);
    } else {
      var before := ops[..|ops| - 1];
      assert ops == before + [ops[|ops| - 1]];
      RunValue(modulus, s, before);
      match ops[|ops| - 1]
      case Increment => StepModulo(Base(s, before) + Since(before), modulus);
      case Reset => Unique(0, 0, 0, modulus);
    }
  }

  // ---------------------------------------------------------------- remainders

  function Mod(n: nat, modulus: nat): (r: nat)
    requires modulus > 0
  {
    n % modulus
  }

  lemma Product(k: nat, modulus: nat)
    requires k > 0
    ensures k * modulus >= modulus
  {
  }

  lemma Spread(p: nat, q: nat, modulus: nat)
    requires q <= p
    ensures (p - q) * modulus == p * modulus - q * modulus
  {
  }

  lemma Divides(n: nat, modulus: nat)
    requires modulus > 0
    ensures n == (n / modulus) * modulus + Mod(n, modulus) && Mod(n, modulus) < modulus
  {
  }

  lemma Closest(p: nat, q: nat, r: nat, t: nat, modulus: nat)
    requires p * modulus + r == q * modulus + t && r < modulus && t < modulus
    ensures p == q && r == t
  {
    if q < p {
      Spread(p, q, modulus);
      Product(p - q, modulus);
    }
    if p < q {
      Spread(q, p, modulus);
      Product(q - p, modulus);
    }
  }

  lemma Unique(n: nat, q: nat, r: nat, modulus: nat)
    requires n == q * modulus + r && r < modulus
    ensures Mod(n, modulus) == r
  {
    hide Mod;
    Divides(n, modulus);
    Closest(n / modulus, q, Mod(n, modulus), r, modulus);
  }

  lemma StepModulo(n: nat, modulus: nat)
    requires modulus > 0
    ensures Next(modulus, Mod(n, modulus)) == Mod(n + 1, modulus)
  {
    hide Mod, Next;
    Divides(n, modulus);
    var q, r := n / modulus, Mod(n, modulus);
    NextMod(r, modulus);
    if r + 1 == modulus {
      Spread(q + 1, q, modulus);
      Unique(n + 1, q + 1, 0, modulus);
      Unique(modulus, 1, 0, modulus);
    } else {
      Unique(n + 1, q, r + 1, modulus);
      Unique(r + 1, 0, r + 1, modulus);
    }
  }

  lemma NextMod(s: nat, modulus: nat)
    requires modulus > 0
    ensures Next(modulus, s) == Mod(s + 1, modulus)
  {
  }

  lemma SumsCoincideIff(modulus: nat, s: nat, m: nat, n: nat)
    requires modulus > 0 && m <= n
    ensures Mod(s + m, modulus) == Mod(s + n, modulus) <==> Mod(n - m, modulus) == 0
  {
    hide Mod;
    if Mod(n - m, modulus) == 0 {
      MultipleApart(s + m, n - m, modulus);
    }
    if Mod(s + m, modulus) == Mod(s + n, modulus) {
      SameNumber(s + m, s + n, modulus);
    }
  }

  function Increments(n: nat): (ops: seq<Op>)
    ensures |ops| == n && forall i | 0 <= i < n :: ops[i] == Increment
  {
    seq(n, i => Increment)
  }

  lemma {:induction false} SinceMore(ops: seq<Op>, n: nat, s: nat)
    ensures Since(ops + Increments(n)) == Since(ops) + n && Base(s, ops + Increments(n)) == Base(s, ops)
    decreases n
  {
    var all := ops + Increments(n);
    if n == 0 {
      assert all == ops;
    } else {
      assert all[..|all| - 1] == ops + Increments(n - 1);
      SinceMore(ops, n - 1, s);
    }
  }

  /** After any run, two positions of a stretch without a Reset hold the same number exactly when their distance is a
      multiple of the modulus. */
  lemma CoincideIff(modulus: nat, s: nat, ops: seq<Op>, m: nat, n: nat)
    requires s < modulus && m <= n
    ensures Run(modulus, s, ops + Increments(m)) == Run(modulus, s, ops + Increments(n)) <==> Mod(n - m, modulus) == 0
  {
    hide Run, Mod, Since, Base;
    SinceMore(ops, m, s);
    SinceMore(ops, n, s);
    RunValue(modulus, s, ops + Increments(m));
    RunValue(modulus, s, ops + Increments(n));
    SumsCoincideIff(modulus, Base(s, ops) + Since(ops), m, n);
  }

  lemma MultipleApart(a: nat, d: nat, modulus: nat)
    requires modulus > 0 && Mod(d, modulus) == 0
    ensures Mod(a + d, modulus) == Mod(a, modulus)
  {
    hide Mod;
    Divides(a, modulus);
    Divides(d, modulus);
    var p, k := a / modulus, d / modulus;
    Spread(p + k, p, modulus);
    Unique(a + d, p + k, Mod(a, modulus), modulus);
  }

  lemma SameNumber(a: nat, b: nat, modulus: nat)
    requires modulus > 0 && a <= b && Mod(a, modulus) == Mod(b, modulus)
    ensures Mod(b - a, modulus) == 0
  {
    hide Mod;
    Divides(a, modulus);
    Divides(b, modulus);
    var p, q := a / modulus, b / modulus;
    NotBelow(p, q, Mod(a, modulus), a, b, modulus);
    Spread(q, p, modulus);
    Unique(b - a, q - p, 0, modulus);
  }

  lemma NotBelow(p: nat, q: nat, r: nat, a: nat, b: nat, modulus: nat)
    requires modulus > 0 && a <= b && a == p * modulus + r && b == q * modulus + r
    ensures p <= q
  {
    if q < p {
      Spread(p, q, modulus);
      Product(p - q, modulus);
    }
  }
}
