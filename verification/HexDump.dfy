/** The hex-dump reader of pcap_extract/extract_dnp3.py: the line loop of extract_from_pcap
    and extract_link_frame. Each regular expression is a line classifier. */
module HexDump {
  import opened Wrappers
  import opened HexText

  // ---------------------------------------------------------------- line classes

  datatype Section = RawPacket | Apdu | TcpReassembled

  datatype Kind = Opens(section: Section) | Data(text: string) | Other

  function DigitCount(s: string): (n: nat)
    ensures n <= |s|
  {
    if s == [] || !IsDigit(s[0]) then 0 else 1 + DigitCount(s[1..])
  }

  function SpaceCount(s: string): (n: nat)
    ensures n <= |s|
  {
    if s == [] || !IsSpace(s[0]) then 0 else 1 + SpaceCount(s[1..])
  }

  predicate StartsCell(s: string) {
    |s| >= 3 && IsHex(s[0]) && IsHex(s[1]) && IsSpace(s[2])
  }

  /** How often the group of two digits and a blank repeats at the front. */
  function CellCount(s: string): (n: nat)
    ensures 3 * n <= |s|
    decreases |s|
  {
    if StartsCell(s) then 1 + CellCount(s[3..]) else 0
  }

  /** The prefix, a number, and " bytes):". */
  predicate Announces(prefix: string, line: string) {
    && prefix <= line
    && DigitCount(line[|prefix|..]) > 0
    && " bytes):" <= line[|prefix| + DigitCount(line[|prefix|..])..]
  }

  /** The stripped second group of the data-line pattern. */
  function DataText(line: string): Option<string> {
    if |line| < 4 || exists i | 0 <= i < 4 :: !IsHex(line[i]) then None
    else
      var rest := line[4..];
      var body := rest[SpaceCount(rest)..];
      if SpaceCount(rest) == 0 || CellCount(body) == 0 then None
      else Some(body[..3 * CellCount(body) - 1])
  }

  const PACKET := "Packet ("
  const APDU := "Reassembled DNP 3.0 Application Layer message ("
  const TCP := "Reassembled TCP"

  function Classify(line: string): Kind {
    if Announces(PACKET, line) then Opens(RawPacket)
    else if Announces(APDU, line) then Opens(Apdu)
    else if TCP <= line then Opens(TcpReassembled)
    else if DataText(line).Some? then Data(DataText(line).value)
    else Other
  }

  /** The prefix, a number of any length, " bytes):" and whatever follows. */
  predicate HeaderLine(prefix: string, n: string, tail: string, line: string) {
    n != [] && (forall c | c in n :: '0' <= c <= '9') && line == prefix + n + " bytes):" + tail
  }

  lemma {:induction false} CountsDigits(n: string, rest: string)
    requires (forall c | c in n :: IsDigit(c)) && rest != [] && !IsDigit(rest[0])
    ensures DigitCount(n + rest) == |n|
  {
    if n == [] {
      assert n + rest == rest;
    } else {
      assert n[0] in n && (n + rest)[1..] == n[1..] + rest;
      CountsDigits(n[1..], rest);
    }
  }

  lemma {:induction false} CountedAreDigits(s: string)
    ensures forall c | c in s[..DigitCount(s)] :: IsDigit(c)
  {
    if s != [] && IsDigit(s[0]) {
      CountedAreDigits(s[1..]);
      assert s[..DigitCount(s)] == [s[0]] + s[1..][..DigitCount(s[1..])];
    }
  }

  lemma AnnouncesIff(prefix: string, line: string)
    ensures Announces(prefix, line) <==> exists n, tail :: HeaderLine(prefix, n, tail, line)
  {
    if n, tail :| HeaderLine(prefix, n, tail, line) {
      var rest := " bytes):" + tail;
      assert line[|prefix|..] == n + rest && rest[0] == ' ';
      CountsDigits(n, rest);
      assert line[|prefix| + |n|..] == rest;
    }
    if Announces(prefix, line) {
      var rest := line[|prefix|..];
      var n, tail := rest[..DigitCount(rest)], rest[DigitCount(rest) + 8..];
      CountedAreDigits(rest);
      assert HeaderLine(prefix, n, tail, line);
    }
  }

  lemma Letters()
    ensures PACKET[0] == 'P' && TCP[0] == 'R' && APDU[0] == 'R' && TCP[12] == 'T' && APDU[12] == 'D'
  {
  }

  lemma AnnouncesPrefix(prefix: string, line: string, i: nat)
    requires i < |prefix| && i < |line| && line[i] != prefix[i]
    ensures !Announces(prefix, line)
  {
  }

  /** The lines that open a section are exactly these, with a byte count of any length and whatever follows. */
  lemma HeaderLinesAre(line: string)
    ensures Classify(line) == Opens(RawPacket) <==> exists n, tail :: HeaderLine("Packet (", n, tail, line)
    ensures Classify(line) == Opens(Apdu) <==>
      exists n, tail :: HeaderLine("Reassembled DNP 3.0 Application Layer message (", n, tail, line)
    ensures Classify(line) == Opens(TcpReassembled) <==> "Reassembled TCP" <= line
  {
    hide Announces;
    Letters();
    AnnouncesIff(PACKET, line);
    AnnouncesIff(APDU, line);
    if line != [] && line[0] == 'R' {
      AnnouncesPrefix(PACKET, line, 0);
    }
    if |line| > 12 && line[12] == 'T' {
      AnnouncesPrefix(APDU, line, 12);
    }
    AnnouncedStart(APDU, line);
    assert TCP <= line ==> line[0] == 'R' && line[12] == 'T';
  }

  lemma AnnouncedStart(prefix: string, line: string)
    requires prefix != []
    ensures Announces(prefix, line) ==> line != [] && line[0] == prefix[0]
  {
  }

  // ---------------------------------------------------------------- the loop

  /** A packet dictionary: its sections in insertion order. */
  type Packet = seq<(Section, seq<Byte>)>

  /** Dictionary assignment: an existing key keeps its place. */
  function Put(p: Packet, key: Section, value: seq<Byte>): Packet {
    if p == [] then [(key, value)]
    else if p[0].0 == key then [(key, value)] + p[1..]
    else [p[0]] + Put(p[1..], key, value)
  }

  /** Dictionary assignment changes the value of its key, in its place or at the end, and nothing else. */
  lemma {:induction false} PutIs(p: Packet, key: Section, value: seq<Byte>, i: nat)
    requires i <= |p| && (forall j | 0 <= j < i :: p[j].0 != key) && (i < |p| ==> p[i].0 == key)
    ensures Put(p, key, value) == if i < |p| then p[i := (key, value)] else p + [(key, value)]
  {
    if i > 0 {
      PutIs(p[1..], key, value, i - 1);
    }
  }

  /** The loop's variables. */
  datatype Scan = Scan(packets: seq<Packet>, current: Option<Packet>, section: Option<Section>, hexLines: seq<string>)

  const Start := Scan([], None, None, [])

  predicate Ok(z: Scan) { z.current.Some? ==> z.section.Some? }

  /** current_packet[current_section] = parse_hex_lines(hex_lines), when there is a packet. */
  function Flushed(z: Scan): Option<Packet>
    requires Ok(z)
  {
    if z.current.None? || LinesValue(z.hexLines).None? then None
    else Some(Put(z.current.value, z.section.value, LinesValue(z.hexLines).value))
  }

  /** One iteration; None is the exception Python raises. */
  function Step(z: Scan, line: string): (r: Option<Scan>)
    requires Ok(z)
    ensures r.Some? ==> Ok(r.value)
  {
    match Classify(line)
    case Opens(RawPacket) =>
      if z.current.None? then Some(Scan(z.packets, Some([]), Some(RawPacket), []))
      else if z.hexLines == [] then Some(Scan(z.packets + [z.current.value], Some([]), Some(RawPacket), []))
      else if Flushed(z).None? then None
      else Some(Scan(z.packets + [Flushed(z).value], Some([]), Some(RawPacket), []))
    case Opens(section) =>
      if z.hexLines == [] || z.section.None? then Some(z.(section := Some(section)))
      else if Flushed(z).None? then None
      else Some(z.(current := Flushed(z), section := Some(section), hexLines := []))
    case Data(text) => Some(z.(hexLines := z.hexLines + [text]))
    case Other => Some(z)
  }

  function Scanned(z: Scan, lines: seq<string>): (r: Option<Scan>)
    requires Ok(z)
    ensures r.Some? ==> Ok(r.value)
    decreases |lines|
  {
    if lines == [] then Some(z)
    else
      var next := Step(z, lines[0]);
      if next.None? then None else Scanned(next.value, lines[1..])
  }

  /** The last packet and its last section, after the loop. */
  function Finished(z: Scan): Option<seq<Packet>>
    requires Ok(z)
  {
    if z.current.None? then Some(z.packets)
    else if z.hexLines == [] then Some(z.packets + [z.current.value])
    else if Flushed(z).None? then None
    else Some(z.packets + [Flushed(z).value])
  }

  function Extracted(lines: seq<string>): Option<seq<Packet>> {
    var z := Scanned(Start, lines);
    if z.None? then None else Finished(z.value)
  }

  method ExtractPackets(lines: seq<string>) returns (packets: Option<seq<Packet>>)
    ensures packets == Extracted(lines)
  {
    var done: seq<Packet> := [];
    var current: Option<Packet> := None;
    var section: Option<Section> := None;
    var hexLines: seq<string> := [];
    for i := 0 to |lines|
      invariant Ok(Scan(done, current, section, hexLines))
      invariant Scanned(Scan(done, current, section, hexLines), lines[i..]) == Scanned(Start, lines)
    {
      assert lines[i..][1..] == lines[i + 1..];
      match Classify(lines[i]) {
        case Opens(RawPacket) =>
          if current.Some? {
            if hexLines != [] {
              var bytes := ParseHexLines(hexLines);
              if bytes.None? { return None; }
              current := Some(Put(current.value, section.value, bytes.value));
            }
            done := done + [current.value];
          }
          current, section, hexLines := Some([]), Some(RawPacket), [];
        case Opens(next) =>
          if hexLines != [] && section.Some? {
            var bytes := ParseHexLines(hexLines);
            if bytes.None? || current.None? { return None; }
            current, hexLines := Some(Put(current.value, section.value, bytes.value)), [];
          }
          section := Some(next);
        case Data(text) => hexLines := hexLines + [text];
        case Other =>
      }
    }
    assert lines[|lines|..] == [];
    if current.None? { return Some(done); }
    if hexLines != [] {
      var bytes := ParseHexLines(hexLines);
      if bytes.None? { return None; }
      current := Some(Put(current.value, section.value, bytes.value));
    }
    return Some(done + [current.value]);
  }

  lemma {:induction false} ScannedConcat(z: Scan, a: seq<string>, b: seq<string>)
    requires Ok(z)
    ensures Scanned(z, a + b) == if Scanned(z, a).None? then None else Scanned(Scanned(z, a).value, b)
    decreases |a|
  {
    if a == [] {
      assert a + b == b;
    } else {
      assert (a + b)[1..] == a[1..] + b;
      if Step(z, a[0]).Some? {
        ScannedConcat(Step(z, a[0]).value, a[1..], b);
      }
    }
  }

  // ---------------------------------------------------------------- link frames

  predicate StartOctets(data: seq<Byte>, i: nat) { i + 1 < |data| && data[i] == 0x05 && data[i + 1] == 0x64 }

  /** The rest of the packet from the first start octets on, if there are any. */
  method ExtractLinkFrame(data: seq<Byte>) returns (frame: Option<seq<Byte>>)
    ensures frame.None? ==> forall i | 0 <= i < |data| :: !([0x05, 0x64] <= data[i..])
    ensures frame.Some? ==> [0x05, 0x64] <= frame.value
    ensures frame.None? <==> forall i: nat :: !StartOctets(data, i)
    ensures frame.Some? ==> exists i: nat :: StartOctets(data, i) && frame.value == data[i..]
                                             && forall j: nat | j < i :: !StartOctets(data, j)
  {
    var i := 0;
    while i < |data| - 1
      invariant 0 <= i && forall j: nat | j < i :: !StartOctets(data, j)
    {
      if data[i] == 0x05 && data[i + 1] == 0x64 {
        assert StartOctets(data, i);
        return Some(data[i..]);
      }
      i := i + 1;
    }
    forall j | 0 <= j < |data| ensures !([0x05, 0x64] <= data[j..]) {
      assert !StartOctets(data, j);
      assert |data[j..]| > 1 ==> data[j..][0] == data[j] && data[j..][1] == data[j + 1];
    }
    return None;
  }
}
