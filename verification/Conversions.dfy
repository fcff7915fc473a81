/** Values crossing between managed and native code: dotnet/CLRInterface/src/DNPTime.cs, MeasurementTypes.cs and
    Header.cs, dotnet/CLRAdapter/src/Conversions.cpp and MasterConversions.cpp, cpp/lib/src/app/OctetData.cpp. */
module Conversions {
  import opened Wrappers
  import opened Crc

  // ---------------------------------------------------------------- time

  /** Ticks of 100 ns from the epoch to the earliest and the latest DateTime. */
  const MIN_TICKS: int := -621355968000000000
  const MAX_TICKS: int := 2534023007999999999
  /** The largest count TimeSpan.FromMilliseconds takes. */
  const MAX_SPAN: int := 922337203685477

  /** A UTC date as ticks since the epoch, or DateTime.MaxValue, which carries no time zone. */
  datatype Date = Utc(ticks: int) | Latest

  function TicksOf(d: Date): int { if d.Utc? then d.ticks else MAX_TICKS }

  /** FromEpoch; None is an OverflowException. */
  function FromEpoch(ms: nat): Option<Date> {
    if ms > MAX_SPAN then None
    else if ms * 10000 > MAX_TICKS then Some(Latest)
    else Some(Utc(ms * 10000))
  }

  /** ToEpoch of a UTC date, with the cast to UInt64. */
  function ToEpoch(ticks: int): nat
    requires MIN_TICKS <= ticks <= MAX_TICKS
  {
    (if ticks < 0 then ticks + 0x1_0000_0000_0000_0000 else ticks) / 10000
  }

  /** 48-bit counts never overflow, keep their order, return exactly up to the last millisecond of year 9999, and
      clamp beyond it. */
  lemma TimeRoundTrip(m: nat, n: nat)
    requires m <= n < 0x1_0000_0000_0000
    ensures FromEpoch(m).Some? && FromEpoch(n).Some?
    ensures TicksOf(FromEpoch(m).value) <= TicksOf(FromEpoch(n).value)
    ensures n <= 253402300799999 ==>
      FromEpoch(n).value == Utc(10000 * n) && MIN_TICKS <= 10000 * n <= MAX_TICKS && ToEpoch(10000 * n) == n
    ensures n > 253402300799999 ==> FromEpoch(n).value == Latest
  {
  }

  /** FromEpoch overflows on exactly the counts that TimeSpan.FromMilliseconds cannot take. */
  lemma OverflowsIff(ms: nat)
    ensures FromEpoch(ms) == None <==> ms > 922337203685477
  {
  }

  /** A date survives the way out and back, to the millisecond, exactly when it is not before 1970. */
  lemma DateSurvivesIff(ticks: int)
    requires MIN_TICKS <= ticks <= MAX_TICKS
    ensures FromEpoch(ToEpoch(ticks)) == Some(Utc(ticks - ticks % 10000)) <==> ticks >= 0
  {
    assert ticks < 0 ==> ToEpoch(ticks) > MAX_SPAN;
  }

  /** The last millisecond of 1969 goes out and cannot come back. */
  lemma EarlyDateIsLost()
    ensures MIN_TICKS <= -10000 && FromEpoch(ToEpoch(-10000)) == None
  {
  }

  // ---------------------------------------------------------------- octet strings

  /** The constructor of the managed OctetData; None is an ArgumentException. */
  function Managed(bytes: seq<Octet>): Option<seq<Octet>> {
    if 1 <= |bytes| <= 255 then Some(bytes) else None
  }

  function Shortest(a: nat, b: nat): nat { if a < b then a else b }

  /** What the documentation promises of native octet data. */
  function FirstOctets(bytes: seq<Octet>): seq<Octet> { bytes[..Shortest(|bytes|, 255)] }

  /** OctetData(const Buffer&): the length is cut to eight bits before it is compared with 255. */
  function Constructed(bytes: seq<Octet>): seq<Octet> { bytes[..Shortest(255, |bytes| % 256)] }

  /** OctetData::Set. */
  function Assigned(bytes: seq<Octet>): (seq<Octet>, bool) {
    if bytes == [] then ([], true)
    else if |bytes| > 255 then (bytes[..255], false)
    else (bytes[..|bytes|], true)
  }

  /** Set keeps what is promised of every buffer; the constructor does so exactly when the eight bits of the length
      lose nothing below 255. */
  lemma ConstructorKeepsIff(bytes: seq<Octet>)
    ensures Assigned(bytes).0 == FirstOctets(bytes)
    ensures Constructed(bytes) == FirstOctets(bytes) <==> |bytes| < 256 || |bytes| % 256 == 255
  {
    assert |Constructed(bytes)| == |bytes| % 256;
    assert |FirstOctets(bytes)| == Shortest(|bytes|, 255);
  }

  /** Of 256 octets the constructor keeps none. */
  lemma AllAreCut(bytes: seq<Octet>)
    requires |bytes| == 256
    ensures Constructed(bytes) == [] && |FirstOctets(bytes)| == 255
  {
  }

  lemma ShortIsKept(bytes: seq<Octet>)
    requires |bytes| <= 255
    ensures Constructed(bytes) == bytes
  {
    ConstructorKeepsIff(bytes);
  }

  function Count(i: bv8): nat { i as int }

  function Length8(n: nat): bv8 { if n > 255 then 255 else n as bv8 }

  lemma CountIs(n: nat)
    requires n <= 255
    ensures Count(n as bv8) == n
  {
  }

  lemma Length8Is(n: nat)
    ensures Count(Length8(n)) == Shortest(n, 255) && Count(0) == 0
  {
    hide Count;
    CountIs(0);
    CountIs(255);
    CountIs(Shortest(n, 255));
  }

  lemma CountUp(i: bv8, length: bv8)
    requires i < length
    ensures Count(i + 1) == Count(i) + 1 && i + 1 <= length && Count(i) < Count(length)
  {
  }

  /** ConvertMeas to native, with its eight-bit loop counter. */
  method ToNative(bytes: seq<Octet>) returns (native: seq<Octet>)
    ensures native == FirstOctets(bytes)
  {
    hide Count, Length8, Constructed;
    var buffer := new Octet[255];
    var length := Length8(|bytes|);
    Length8Is(|bytes|);
    var i: bv8 := 0;
    while i < length
      invariant i <= length && Count(i) <= Count(length)
      invariant forall k | 0 <= k < Count(i) :: buffer[k] == bytes[k]
      decreases Count(length) - Count(i)
    {
      CountUp(i, length);
      buffer[Count(i)] := bytes[Count(i)];
      i := i + 1;
    }
    native := Constructed(buffer[..Count(length)]);
    ShortIsKept(buffer[..Count(length)]);
  }

  /** Convert(Buffer). */
  method FromNative(native: seq<Octet>) returns (bytes: array<Octet>)
    ensures bytes[..] == native
  {
    bytes := new Octet[|native|];
    for i := 0 to |native|
      invariant bytes[..i] == native[..i]
    {
      bytes[i] := native[i];
    }
    assert native[..|native|] == native;
  }

  /** Every managed octet string that can be constructed comes back as it was. */
  method OctetStringRoundTrip(bytes: seq<Octet>) returns (back: Option<seq<Octet>>)
    requires 1 <= |bytes| <= 255
    ensures back == Some(bytes)
  {
    var native := ToNative(bytes);
    var copy := FromNative(native);
    back := Managed(copy[..]);
    assert FirstOctets(bytes) == bytes;
  }

  // ---------------------------------------------------------------- headers

  datatype Qualifier = AllObjects | Count8 | Count16 | Range8 | Range16 | OtherQualifier

  /** Header with its subclasses; the counts and indices are UInt16. */
  datatype ManagedHeader =
    | PlainHeader(group: Octet, variation: Octet, qualifier: Qualifier)
    | CountHeader(group: Octet, variation: Octet, qualifier: Qualifier, count: bv16)
    | RangeHeader(group: Octet, variation: Octet, qualifier: Qualifier, start: bv16, stop: bv16)

  datatype NativeHeader =
    | NativeAll(group: Octet, variation: Octet)
    | NativeCount8(group: Octet, variation: Octet, count8: Octet)
    | NativeCount16(group: Octet, variation: Octet, count16: bv16)
    | NativeRange8(group: Octet, variation: Octet, start8: Octet, stop8: Octet)
    | NativeRange16(group: Octet, variation: Octet, start16: bv16, stop16: bv16)

  /** MasterConversions::Convert. */
  function ConvertHeader(h: ManagedHeader): Option<NativeHeader> {
    match h.qualifier
    case AllObjects => Some(NativeAll(h.group, h.variation))
    case Count8 => if h.CountHeader? then Some(NativeCount8(h.group, h.variation, LowOctet(h.count))) else None
    case Count16 => if h.CountHeader? then Some(NativeCount16(h.group, h.variation, h.count)) else None
    case Range8 =>
      if h.RangeHeader? then Some(NativeRange8(h.group, h.variation, LowOctet(h.start), LowOctet(h.stop))) else None
    case Range16 => if h.RangeHeader? then Some(NativeRange16(h.group, h.variation, h.start, h.stop)) else None
    case OtherQualifier => None
  }

  /** What the public factories make of the same fields. */
  function Factory(n: NativeHeader): ManagedHeader {
    match n
    case NativeAll(g, v) => PlainHeader(g, v, AllObjects)
    case NativeCount8(g, v, c) => CountHeader(g, v, Count8, c as bv16)
    case NativeCount16(g, v, c) => CountHeader(g, v, Count16, c)
    case NativeRange8(g, v, a, b) => RangeHeader(g, v, Range8, a as bv16, b as bv16)
    case NativeRange16(g, v, a, b) => RangeHeader(g, v, Range16, a, b)
  }

  predicate FromFactory(h: ManagedHeader) {
    match h
    case PlainHeader(_, _, q) => q == AllObjects
    case CountHeader(_, _, q, c) => q == Count16 || (q == Count8 && c <= 255)
    case RangeHeader(_, _, q, a, b) => q == Range16 || (q == Range8 && a <= 255 && b <= 255)
  }

  /** Conversion undoes the factories, and a header converts without loss exactly when a factory made it. */
  lemma HeaderSurvivesIff(h: ManagedHeader, n: NativeHeader)
    ensures FromFactory(Factory(n)) && ConvertHeader(Factory(n)) == Some(n)
    ensures FromFactory(h) <==> ConvertHeader(h).Some? && Factory(ConvertHeader(h).value) == h
  {
  }

  /** Any header at all: it converts when its class is the one of its qualifier, and eight-bit fields get the low eight bits
      of the count or the index. */
  lemma HeaderConvertsTo(h: ManagedHeader)
    ensures h.qualifier == AllObjects ==> ConvertHeader(h) == Some(NativeAll(h.group, h.variation))
    ensures h.CountHeader? && h.qualifier == Count16 ==> ConvertHeader(h) == Some(NativeCount16(h.group, h.variation, h.count))
    ensures h.CountHeader? && h.qualifier == Count8 ==>
      ConvertHeader(h) == Some(NativeCount8(h.group, h.variation, (h.count & 0xFF) as bv8))
    ensures h.RangeHeader? && h.qualifier == Range16 ==>
      ConvertHeader(h) == Some(NativeRange16(h.group, h.variation, h.start, h.stop))
    ensures h.RangeHeader? && h.qualifier == Range8 ==>
      ConvertHeader(h) == Some(NativeRange8(h.group, h.variation, (h.start & 0xFF) as bv8, (h.stop & 0xFF) as bv8))
    ensures ConvertHeader(h).None? <==>
      && h.qualifier != AllObjects
      && !(h.CountHeader? && (h.qualifier == Count8 || h.qualifier == Count16))
      && !(h.RangeHeader? && (h.qualifier == Range8 || h.qualifier == Range16))
  {
  }

  /** ConvertToVectorOfHeaders: the headers that convert, in order. */
  function ConvertedHeaders(hs: seq<ManagedHeader>): seq<NativeHeader> {
    if hs == [] then []
    else
      var r := ConvertHeader(hs[|hs| - 1]);
      ConvertedHeaders(hs[..|hs| - 1]) + if r.Some? then [r.value] else []
  }

  method ConvertToVectorOfHeaders(hs: seq<ManagedHeader>) returns (ret: seq<NativeHeader>)
    ensures ret == ConvertedHeaders(hs)
  {
    ret := [];
    for i := 0 to |hs|
      invariant ret == ConvertedHeaders(hs[..i])
    {
      assert hs[..i + 1][..i] == hs[..i];
      var r := ConvertHeader(hs[i]);
      if r.Some? {
        ret := ret + [r.value];
      }
    }
    assert hs[..|hs|] == hs;
  }

  /** A list made through the factories converts with none dropped and nothing changed. */
  lemma {:induction false} NoHeaderIsLost(hs: seq<ManagedHeader>)
    requires forall k | 0 <= k < |hs| :: FromFactory(hs[k])
    ensures |ConvertedHeaders(hs)| == |hs|
    ensures forall k | 0 <= k < |hs| :: Factory(ConvertedHeaders(hs)[k]) == hs[k]
  {
    hide Factory, ConvertHeader, FromFactory;
    if hs != [] {
      NoHeaderIsLost(hs[..|hs| - 1]);
      HeaderSurvivesIff(hs[|hs| - 1], NativeAll(0, 0));
    }
  }
}
