/** Reading a printed hex dump gives back what was printed. */
module HexDumpRoundTrip {
  import opened Wrappers
  import opened HexText
  import opened HexDump

  /** A printed data line: offset column, bytes, and the rest (blanks and the ASCII column). */
  datatype DumpLine = DumpLine(offset: string, gap: string, cells: seq<Cell>, tail: string)

  ghost predicate DumpOk(d: DumpLine) {
    && |d.offset| == 4 && (forall i | 0 <= i < 4 :: IsHex(d.offset[i]))
    && d.gap != [] && (forall c | c in d.gap :: IsSpace(c))
    && d.cells != [] && CellsOk(d.cells)
    && !StartsCell(d.tail)
  }

  function Render(d: DumpLine): string {
    d.offset + (d.gap + (CellsText(d.cells) + d.tail))
  }

  lemma {:induction false} CountsCells(cells: seq<Cell>, tail: string)
    requires CellsOk(cells) && !StartsCell(tail)
    ensures CellCount(CellsText(cells) + tail) == |cells|
  {
    var s := CellsText(cells) + tail;
    if cells == [] {
      assert s == tail;
    } else {
      assert CellOk(cells[0]);
      assert s[3..] == CellsText(cells[1..]) + tail;
      CountsCells(cells[1..], tail);
    }
  }

  lemma {:induction false} CountsSpaces(gap: string, rest: string)
    requires (forall c | c in gap :: IsSpace(c)) && rest != [] && !IsSpace(rest[0])
    ensures SpaceCount(gap + rest) == |gap|
  {
    if gap == [] {
      assert gap + rest == rest;
    } else {
      assert gap[0] in gap && (gap + rest)[1..] == gap[1..] + rest;
      CountsSpaces(gap[1..], rest);
    }
  }

  lemma HexIsNoHeader(line: string)
    requires line != [] && IsHex(line[0])
    ensures Classify(line) == if DataText(line).Some? then Data(DataText(line).value) else Other
  {
    Letters();
  }

  lemma DumpLineText(d: DumpLine)
    requires DumpOk(d)
    ensures DataText(Render(d)) == Some(JoinedText(d.cells))
  {
    var line := Render(d);
    var body := CellsText(d.cells) + d.tail;
    assert CellOk(d.cells[0]) && body[0] == d.cells[0].hi;
    CountsSpaces(d.gap, body);
    CountsCells(d.cells, d.tail);
    assert line[4..] == d.gap + body && (d.gap + body)[|d.gap|..] == body;
    assert forall i | 0 <= i < 4 :: line[i] == d.offset[i];
    assert body[..3 * |d.cells| - 1] == JoinedText(d.cells);
  }

  function ReadCells(s: string): (cells: seq<Cell>)
    ensures CellsOk(cells) && |cells| == CellCount(s) && CellsText(cells) == s[..3 * CellCount(s)]
    decreases |s|
  {
    if StartsCell(s) then
      var rest := ReadCells(s[3..]);
      assert s[..3 * CellCount(s)] == s[..3] + s[3..][..3 * CellCount(s[3..])];
      [Cell(s[0], s[1], s[2])] + rest
    else []
  }

  lemma {:induction false} CellsStop(s: string)
    ensures !StartsCell(s[3 * CellCount(s)..])
    decreases |s|
  {
    if StartsCell(s) {
      CellsStop(s[3..]);
      assert s[3 * CellCount(s)..] == s[3..][3 * CellCount(s[3..])..];
    }
  }

  lemma {:induction false} CountedAreSpaces(s: string)
    ensures forall c | c in s[..SpaceCount(s)] :: IsSpace(c)
  {
    if s != [] && IsSpace(s[0]) {
      CountedAreSpaces(s[1..]);
      assert s[..SpaceCount(s)] == [s[0]] + s[1..][..SpaceCount(s[1..])];
    }
  }

  /** The printed line that a data line is. */
  lemma DataIsDump(line: string) returns (d: DumpLine)
    requires DataText(line).Some?
    ensures DumpOk(d) && Render(d) == line && DataText(line) == Some(JoinedText(d.cells))
  {
    hide SpaceCount, StartsCell, CellsText, CellsOk;
    var rest := line[4..];
    var k := SpaceCount(rest);
    var body := rest[k..];
    var n := CellCount(body);
    d := DumpLine(line[..4], rest[..k], ReadCells(body), body[3 * n..]);
    hide ReadCells, CellCount;
    CellsStop(body);
    CountedAreSpaces(rest);
    Halves(line, 4);
    Halves(rest, k);
    Halves(body, 3 * n);
    FrontOfFront(body, 3 * n);
  }

  lemma Halves(s: string, n: nat)
    requires n <= |s|
    ensures s == s[..n] + s[n..]
  {
  }

  lemma FrontOfFront(s: string, n: nat)
    requires 0 < n <= |s|
    ensures s[..n][..n - 1] == s[..n - 1]
  {
  }

  /** The data lines are exactly the printed ones: four digits, blanks, and as many pairs of digits with a blank behind
      each as follow one another. */
  lemma DataLinesAre(line: string, text: string)
    ensures Classify(line) == Data(text) <==> exists d :: DumpOk(d) && Render(d) == line && JoinedText(d.cells) == text
  {
    hide DumpOk, Render, JoinedText;
    if Classify(line) == Data(text) {
      var d := DataIsDump(line);
    }
    if d :| DumpOk(d) && Render(d) == line && JoinedText(d.cells) == text {
      DumpLineIsData(d);
    }
  }

  /** A data line is read as exactly its printed bytes, whatever follows the second blank. */
  lemma DumpLineIsData(d: DumpLine)
    requires DumpOk(d)
    ensures Classify(Render(d)) == Data(JoinedText(d.cells))
  {
    DumpLineText(d);
    assert IsHex(Render(d)[0]);
    HexIsNoHeader(Render(d));
  }

  datatype BodyLine = Dump(d: DumpLine) | Noise(text: string)

  /** A section as printed: the line that opens it, then data lines among lines to ignore. */
  datatype SectionDoc = SectionDoc(section: Section, header: string, body: seq<BodyLine>)

  ghost predicate BodyOk(body: seq<BodyLine>) {
    forall b | b in body :: if b.Dump? then DumpOk(b.d) else Classify(b.text) == Other
  }

  ghost predicate SectionOk(x: SectionDoc) {
    Classify(x.header) == Opens(x.section) && BodyOk(x.body)
  }

  ghost predicate AllSections(p: seq<SectionDoc>) { forall i | 0 <= i < |p| :: SectionOk(p[i]) }

  ghost predicate AllPackets(doc: seq<seq<SectionDoc>>) { forall i | 0 <= i < |doc| :: PacketOk(doc[i]) }

  /** A packet opens with its raw section; the others may be repeated, and any may show no bytes. */
  ghost predicate PacketOk(p: seq<SectionDoc>) {
    && p != [] && p[0].section == RawPacket
    && AllSections(p)
    && forall i | 0 < i < |p| :: p[i].section != RawPacket
  }

  function BodyLines(body: seq<BodyLine>): seq<string> {
    if body == [] then []
    else [BodyText(body[0])] + BodyLines(body[1..])
  }

  function Cuts(body: seq<BodyLine>): seq<seq<Cell>> {
    if body == [] then []
    else if body[0].Dump? then [body[0].d.cells] + Cuts(body[1..])
    else Cuts(body[1..])
  }

  function SectionsLines(p: seq<SectionDoc>): seq<string> {
    if p == [] then [] else [p[0].header] + BodyLines(p[0].body) + SectionsLines(p[1..])
  }

  function DocLines(doc: seq<seq<SectionDoc>>): seq<string> {
    if doc == [] then [] else SectionsLines(doc[0]) + DocLines(doc[1..])
  }

  lemma {:induction false} CutsOk(body: seq<BodyLine>)
    requires BodyOk(body)
    ensures forall cells | cells in Cuts(body) :: CellsOk(cells)
  {
    if body != [] {
      assert body[0] in body;
      assert forall b | b in body[1..] :: b in body;
      CutsOk(body[1..]);
    }
  }

  /** The bytes a section shows. */
  ghost function Shown(body: seq<BodyLine>): seq<Byte>
    requires BodyOk(body)
  {
    CutsOk(body);
    AnyCutParses(Cuts(body));
    CellsValue(Flat(Cuts(body)))
  }

  /** A section that shows bytes is stored under its name, in the place of an earlier one of that name. */
  ghost function Stored(p: Packet, x: SectionDoc): Packet
    requires SectionOk(x)
  {
    if Cuts(x.body) == [] then p else Put(p, x.section, Shown(x.body))
  }

  ghost function SectionsValue(p: seq<SectionDoc>): Packet
    requires AllSections(p)
  {
    if p == [] then [] else Stored(SectionsValue(p[..|p| - 1]), p[|p| - 1])
  }

  ghost function DocValue(doc: seq<seq<SectionDoc>>): seq<Packet>
    requires AllPackets(doc)
  {
    if doc == [] then [] else DocValue(doc[..|doc| - 1]) + [SectionsValue(doc[|doc| - 1])]
  }

  // ---------------------------------------------------------------- parsing undoes printing

  lemma ScanFirst(z: Scan, line: string, rest: seq<string>)
    requires Ok(z) && Step(z, line).Some?
    ensures Scanned(z, [line] + rest) == Scanned(Step(z, line).value, rest)
  {
    hide Step;
    assert ([line] + rest)[1..] == rest;
  }

  function BodyText(b: BodyLine): string { if b.Dump? then Render(b.d) else b.text }

  function BodyTexts(b: BodyLine): seq<string> { if b.Dump? then [JoinedText(b.d.cells)] else [] }

  function Read(z: Scan, texts: seq<string>): Scan { z.(hexLines := z.hexLines + texts) }

  /** A data line adds its bytes to the open section; any other line changes nothing. */
  lemma StepBody(z: Scan, b: BodyLine)
    requires Ok(z) && BodyOk([b])
    ensures Step(z, BodyText(b)) == Some(Read(z, BodyTexts(b)))
  {
    hide Classify, Render, DumpOk;
    assert b in [b];
    if b.Dump? {
      DumpLineIsData(b.d);
    } else {
      assert z.hexLines + [] == z.hexLines;
    }
  }

  lemma BodyFirst(body: seq<BodyLine>)
    requires body != [] && BodyOk(body)
    ensures BodyOk([body[0]]) && BodyOk(body[1..])
    ensures BodyLines(body) == [BodyText(body[0])] + BodyLines(body[1..])
    ensures Texts(Cuts(body)) == BodyTexts(body[0]) + Texts(Cuts(body[1..]))
  {
    assert body[0] in body;
    assert forall b | b in body[1..] :: b in body;
    if body[0].Dump? {
      assert Cuts(body)[1..] == Cuts(body[1..]);
    }
  }

  lemma ScanNothing(z: Scan)
    requires Ok(z)
    ensures Scanned(z, BodyLines([])) == Some(Read(z, Texts(Cuts([]))))
  {
    assert z.hexLines + [] == z.hexLines;
  }

  lemma {:induction false} ScanBody(z: Scan, body: seq<BodyLine>)
    requires Ok(z) && BodyOk(body)
    ensures Scanned(z, BodyLines(body)) == Some(Read(z, Texts(Cuts(body))))
    decreases |body|
  {
    hide Step, Scanned, BodyOk, BodyLines, Cuts, Texts;
    if body == [] {
      ScanNothing(z);
    } else {
      var b, rest := body[0], body[1..];
      BodyFirst(body);
      StepBody(z, b);
      ScanFirst(z, BodyText(b), BodyLines(rest));
      ScanBody(Read(z, BodyTexts(b)), rest);
      assert (z.hexLines + BodyTexts(b)) + Texts(Cuts(rest)) == z.hexLines + (BodyTexts(b) + Texts(Cuts(rest)));
    }
  }

  /** After the lines of the sections p: all but the last section are stored. */
  ghost predicate Reading(z: Scan, packets: seq<Packet>, p: seq<SectionDoc>)
    requires PacketOk(p)
  {
    var last := p[|p| - 1];
    z == Scan(packets, Some(SectionsValue(p[..|p| - 1])), Some(last.section), Texts(Cuts(last.body)))
  }

  lemma ShownParses(x: SectionDoc)
    requires SectionOk(x)
    ensures LinesValue(Texts(Cuts(x.body))) == Some(Shown(x.body)) && (Texts(Cuts(x.body)) == [] <==> Cuts(x.body) == [])
  {
    CutsOk(x.body);
    AnyCutParses(Cuts(x.body));
  }

  /** The packet with what was read since its last section opened. */
  function Closed(z: Scan): Option<Packet>
    requires Ok(z)
  {
    if z.hexLines == [] then z.current else Flushed(z)
  }

  lemma ReadingCloses(z: Scan, packets: seq<Packet>, p: seq<SectionDoc>)
    requires PacketOk(p) && Reading(z, packets, p)
    ensures Ok(z) && Closed(z) == Some(SectionsValue(p))
  {
    hide Shown, Classify, LinesValue, Texts, Cuts, Put;
    ShownParses(p[|p| - 1]);
  }

  /** The line that opens the next section stores the previous one. */
  lemma StepSection(z: Scan, packets: seq<Packet>, done: seq<SectionDoc>, x: SectionDoc)
    requires PacketOk(done) && Reading(z, packets, done) && SectionOk(x) && x.section != RawPacket
    ensures Ok(z) && Step(z, x.header) == Some(Scan(packets, Some(SectionsValue(done)), Some(x.section), []))
  {
    hide Classify, PacketOk, SectionsValue, Flushed, BodyOk;
    ReadingCloses(z, packets, done);
  }

  lemma ScanOpened(z: Scan, z1: Scan, x: SectionDoc, rest: seq<string>)
    requires Ok(z) && Ok(z1) && z1.hexLines == [] && Step(z, x.header) == Some(z1) && BodyOk(x.body)
    ensures Scanned(z, [x.header] + BodyLines(x.body) + rest) == Scanned(z1.(hexLines := Texts(Cuts(x.body))), rest)
  {
    hide Step, BodyOk, Scanned, BodyLines, Texts, Cuts;
    assert [x.header] + BodyLines(x.body) + rest == [x.header] + (BodyLines(x.body) + rest);
    ScanFirst(z, x.header, BodyLines(x.body) + rest);
    ScanBody(z1, x.body);
    assert [] + Texts(Cuts(x.body)) == Texts(Cuts(x.body));
    ScannedConcat(z1, BodyLines(x.body), rest);
  }

  lemma PacketPrefix(p: seq<SectionDoc>, n: nat)
    requires PacketOk(p) && 0 < n < |p|
    ensures PacketOk(p[..n]) && SectionOk(p[n]) && p[n].section != RawPacket && PacketOk(p[..n + 1])
    ensures p[..n + 1][..n] == p[..n] && p[..n + 1][n] == p[n]
  {
    hide SectionOk;
  }

  lemma {:induction false} ScanSections(z: Scan, packets: seq<Packet>, p: seq<SectionDoc>, n: nat)
    requires PacketOk(p) && 0 < n <= |p| && PacketOk(p[..n]) && Reading(z, packets, p[..n])
    ensures Ok(z) && Scanned(z, SectionsLines(p[n..])).Some?
    ensures Reading(Scanned(z, SectionsLines(p[n..])).value, packets, p)
    decreases |p| - n
  {
    if n == |p| {
      assert p[..n] == p && p[n..] == [];
    } else {
      hide PacketOk, SectionsValue, Scanned, Step, BodyLines, Texts, Cuts;
      var x := p[n];
      PacketPrefix(p, n);
      StepSection(z, packets, p[..n], x);
      var z1 := Scan(packets, Some(SectionsValue(p[..n])), Some(x.section), []);
      ScanOpened(z, z1, x, SectionsLines(p[n + 1..]));
      assert p[n..][1..] == p[n + 1..];
      ScanSections(z1.(hexLines := Texts(Cuts(x.body))), packets, p, n + 1);
    }
  }

  /** Before a packet: nothing yet, or a packet whose last section is still being read. */
  ghost predicate Between(z: Scan, doc: seq<seq<SectionDoc>>)
    requires AllPackets(doc)
  {
    if doc == [] then z.packets == [] && z.current == None
    else Reading(z, DocValue(doc[..|doc| - 1]), doc[|doc| - 1])
  }

  lemma ScanPacket(z: Scan, doc: seq<seq<SectionDoc>>, p: seq<SectionDoc>)
    requires AllPackets(doc) && Between(z, doc) && PacketOk(p)
    ensures Ok(z) && Scanned(z, SectionsLines(p)).Some?
    ensures Reading(Scanned(z, SectionsLines(p)).value, DocValue(doc), p)
  {
    hide Classify, Shown, Scanned, BodyLines, Texts, Cuts;
    var x := p[0];
    assert SectionOk(x);
    if doc != [] {
      ReadingCloses(z, DocValue(doc[..|doc| - 1]), doc[|doc| - 1]);
    }
    var z1 := Scan(DocValue(doc), Some([]), Some(RawPacket), []);
    ScanOpened(z, z1, x, SectionsLines(p[1..]));
    assert p[..1] == [x] && p[..1][..0] == [];
    ScanSections(z1.(hexLines := Texts(Cuts(x.body))), DocValue(doc), p, 1);
  }

  lemma DocFirst(done: seq<seq<SectionDoc>>, rest: seq<seq<SectionDoc>>)
    requires AllPackets(done) && AllPackets(rest) && rest != []
    ensures PacketOk(rest[0]) && AllPackets(done + [rest[0]]) && AllPackets(rest[1..])
    ensures (done + [rest[0]]) + rest[1..] == done + rest
    ensures forall z :: Between(z, done + [rest[0]]) <==> Reading(z, DocValue(done), rest[0])
    ensures DocLines(rest) == SectionsLines(rest[0]) + DocLines(rest[1..])
  {
    hide PacketOk, Reading;
    var done' := done + [rest[0]];
    assert done'[..|done'| - 1] == done;
  }

  lemma {:induction false} ScanDoc(z: Scan, done: seq<seq<SectionDoc>>, rest: seq<seq<SectionDoc>>)
    requires AllPackets(done) && AllPackets(rest) && Between(z, done)
    ensures Ok(z) && Scanned(z, DocLines(rest)).Some?
    ensures AllPackets(done + rest) && Between(Scanned(z, DocLines(rest)).value, done + rest)
    decreases |rest|
  {
    if rest == [] {
      assert done + rest == done;
      if done != [] {
        ReadingCloses(z, DocValue(done[..|done| - 1]), done[|done| - 1]);
      }
    } else {
      hide PacketOk, Reading, Between, DocValue, DocLines, SectionsLines, Scanned, AllPackets;
      var p := rest[0];
      DocFirst(done, rest);
      ScanPacket(z, done, p);
      ScannedConcat(z, SectionsLines(p), DocLines(rest[1..]));
      ScanDoc(Scanned(z, SectionsLines(p)).value, done + [p], rest[1..]);
    }
  }

  ghost predicate NoPacketLine(lines: seq<string>) {
    forall i | 0 <= i < |lines| :: Classify(lines[i]) != Opens(RawPacket)
  }

  lemma {:induction false} NoPacketYet(z: Scan, lines: seq<string>)
    requires Ok(z) && z.packets == [] && z.current == None && NoPacketLine(lines)
    ensures var r := Scanned(z, lines); r.Some? ==> r.value.packets == [] && r.value.current == None
    decreases |lines|
  {
    hide Classify;
    if lines != [] && Step(z, lines[0]).Some? {
      NoPacketYet(Step(z, lines[0]).value, lines[1..]);
    }
  }

  /** Whatever dump is printed, with anything ignorable between and beside its data lines and anything but a packet line
      before it, reading gives back its packets, sections and bytes in order; a section that comes again replaces the
      earlier one. It raises only where what comes before does. */
  lemma DumpRoundTrip(preamble: seq<string>, doc: seq<seq<SectionDoc>>)
    requires NoPacketLine(preamble) && AllPackets(doc)
    ensures Extracted(preamble + DocLines(doc)) == if Scanned(Start, preamble).None? then None else Some(DocValue(doc))
  {
    hide Step, NoPacketLine;
    NoPacketYet(Start, preamble);
    ScannedConcat(Start, preamble, DocLines(doc));
    if Scanned(Start, preamble).Some? {
      ScanDoc(Scanned(Start, preamble).value, [], doc);
      assert [] + doc == doc;
      FinishesDoc(Scanned(Scanned(Start, preamble).value, DocLines(doc)).value, doc);
    }
  }

  lemma FinishesDoc(z: Scan, doc: seq<seq<SectionDoc>>)
    requires AllPackets(doc) && Between(z, doc)
    ensures Ok(z) && Finished(z) == Some(DocValue(doc))
  {
    hide PacketOk, SectionsValue, Reading;
    if doc != [] {
      ReadingCloses(z, DocValue(doc[..|doc| - 1]), doc[|doc| - 1]);
      ReadingIs(z, DocValue(doc[..|doc| - 1]), doc[|doc| - 1]);
    }
  }

  lemma ReadingIs(z: Scan, packets: seq<Packet>, p: seq<SectionDoc>)
    requires PacketOk(p) && Reading(z, packets, p)
    ensures z.packets == packets && z.current.Some?
  {
  }

  // ---------------------------------------------------------------- every input is a dump

  ghost predicate Later(sections: seq<SectionDoc>) {
    AllSections(sections) && forall i | 0 <= i < |sections| :: sections[i].section != RawPacket
  }

  /** Any lines at all are some body, some sections without a packet, and packets. */
  lemma {:induction false} TakeApart(lines: seq<string>)
    returns (body: seq<BodyLine>, sections: seq<SectionDoc>, doc: seq<seq<SectionDoc>>)
    ensures BodyOk(body) && Later(sections) && AllPackets(doc)
    ensures lines == BodyLines(body) + SectionsLines(sections) + DocLines(doc)
    decreases |lines|
  {
    hide Classify, DumpOk, Render, BodyOk, Later, AllPackets, BodyLines, SectionsLines, DocLines, PacketOk, AllSections;
    if lines == [] {
      body, sections, doc := [], [], [];
      NothingPrinted();
    } else {
      var line := lines[0];
      body, sections, doc := TakeApart(lines[1..]);
      assert lines == [line] + lines[1..];
      NothingPrinted();
      match Classify(line)
      case Opens(section) =>
        var x := SectionDoc(section, line, body);
        SectionAdded(x, sections);
        if section == RawPacket {
          PacketAdded([x] + sections, doc);
          assert lines == [] + [] + (([line] + BodyLines(body) + SectionsLines(sections)) + DocLines(doc));
          body, sections, doc := [], [], [[x] + sections] + doc;
        } else {
          body, sections := [], [x] + sections;
        }
      case Data(text) =>
        var d := LineOfData(line);
        BodyAdded(Dump(d), body);
        body := [Dump(d)] + body;
      case Other =>
        BodyAdded(Noise(line), body);
        body := [Noise(line)] + body;
    }
  }

  lemma LineOfData(line: string) returns (d: DumpLine)
    requires Classify(line).Data?
    ensures DumpOk(d) && Render(d) == line
  {
    d := DataIsDump(line);
  }

  lemma SectionAdded(x: SectionDoc, sections: seq<SectionDoc>)
    requires SectionOk(x) && Later(sections)
    ensures AllSections([x] + sections) && (x.section != RawPacket ==> Later([x] + sections))
    ensures x.section == RawPacket ==> PacketOk([x] + sections)
    ensures SectionsLines([x] + sections) == [x.header] + BodyLines(x.body) + SectionsLines(sections)
  {
    hide SectionOk;
    assert ([x] + sections)[1..] == sections;
  }

  lemma PacketAdded(p: seq<SectionDoc>, doc: seq<seq<SectionDoc>>)
    requires PacketOk(p) && AllPackets(doc)
    ensures AllPackets([p] + doc) && DocLines([p] + doc) == SectionsLines(p) + DocLines(doc)
  {
    hide PacketOk;
    assert ([p] + doc)[1..] == doc;
  }

  lemma BodyAdded(b: BodyLine, body: seq<BodyLine>)
    requires BodyOk(body) && if b.Dump? then DumpOk(b.d) else Classify(b.text) == Other
    ensures BodyOk([b] + body) && BodyLines([b] + body) == [BodyText(b)] + BodyLines(body)
  {
    hide DumpOk, Classify;
    assert ([b] + body)[1..] == body;
  }

  lemma NothingPrinted()
    ensures BodyOk([]) && BodyLines([]) == [] && Later([]) && SectionsLines([]) == [] && AllPackets([]) && DocLines([]) == []
  {
  }

  lemma {:induction false} SectionsOpenNone(body: seq<BodyLine>, sections: seq<SectionDoc>)
    requires BodyOk(body) && Later(sections)
    ensures NoPacketLine(BodyLines(body) + SectionsLines(sections))
    decreases |sections|, |body|
  {
    hide Classify, BodyOk, Later, NoPacketLine, BodyLines, SectionsLines;
    NothingPrinted();
    if body != [] {
      BodyFirst(body);
      BodyOpensNone(body[0]);
      SectionsOpenNone(body[1..], sections);
      OpensNoneCons(BodyText(body[0]), BodyLines(body[1..]) + SectionsLines(sections));
      assert BodyLines(body) + SectionsLines(sections)
        == [BodyText(body[0])] + (BodyLines(body[1..]) + SectionsLines(sections));
    } else if sections != [] {
      var x := sections[0];
      LaterFirst(sections);
      SectionsOpenNone(x.body, sections[1..]);
      OpensNoneCons(x.header, BodyLines(x.body) + SectionsLines(sections[1..]));
      assert BodyLines(body) + SectionsLines(sections)
        == [x.header] + (BodyLines(x.body) + SectionsLines(sections[1..]));
    } else {
      assert NoPacketLine([]) by { NoneOpens(); }
    }
  }

  lemma NoneOpens()
    ensures NoPacketLine([])
  {
  }

  lemma OpensNoneCons(line: string, rest: seq<string>)
    requires Classify(line) != Opens(RawPacket) && NoPacketLine(rest)
    ensures NoPacketLine([line] + rest)
  {
    hide Classify;
  }

  lemma LaterFirst(sections: seq<SectionDoc>)
    requires Later(sections) && sections != []
    ensures BodyOk(sections[0].body) && Classify(sections[0].header) != Opens(RawPacket) && Later(sections[1..])
    ensures SectionsLines(sections) == [sections[0].header] + BodyLines(sections[0].body) + SectionsLines(sections[1..])
  {
    hide Classify, BodyOk;
    assert SectionOk(sections[0]);
  }

  lemma BodyOpensNone(b: BodyLine)
    requires BodyOk([b])
    ensures Classify(BodyText(b)) != Opens(RawPacket)
  {
    hide Classify, DumpOk, Render;
    assert b in [b];
    if b.Dump? {
      DumpLineIsData(b.d);
    }
  }

  // ---------------------------------------------------------------- a printer

  /** A packet as the reader can return it: raw section first, no repeats, no empty section. */
  ghost predicate Printable(p: Packet) {
    && p != [] && p[0].0 == RawPacket
    && (forall i | 0 <= i < |p| :: p[i].1 != [])
    && forall i, j | 0 <= i < j < |p| :: p[i].0 != p[j].0
  }

  /** A number in decimal. */
  function Decimal(n: nat): (s: string)
    ensures s != [] && forall c | c in s :: '0' <= c <= '9'
  {
    (if n < 10 then [] else Decimal(n / 10)) + [('0' as int + n % 10) as char]
  }

  function HeaderText(section: Section, count: nat): string {
    match section
    case RawPacket => "Packet (" + Decimal(count) + " bytes):"
    case Apdu => "Reassembled DNP 3.0 Application Layer message (" + Decimal(count) + " bytes):"
    case TcpReassembled => "Reassembled TCP (" + Decimal(count) + " bytes):"
  }

  function Ascii(b: Byte): char { if 32 <= b < 127 then b as char else '.' }

  function AsciiColumn(bytes: seq<Byte>): string {
    if bytes == [] then [] else [Ascii(bytes[0])] + AsciiColumn(bytes[1..])
  }

  function Offset(at: nat): string {
    [LOWER[at / 4096 % 16], LOWER[at / 256 % 16], LOWER[at / 16 % 16], LOWER[at % 16]]
  }

  /** Sixteen bytes a line, two blanks on either side of them, then the ASCII column. */
  function PrintBody(bytes: seq<Byte>, at: nat): seq<BodyLine>
    decreases |bytes|
  {
    if bytes == [] then []
    else
      var n := if |bytes| < 16 then |bytes| else 16;
      [Dump(DumpLine(Offset(at), "  ", PrintedCells(LOWER, bytes[..n]), " " + AsciiColumn(bytes[..n])))] + PrintBody(bytes[n..], at + n)
  }

  function PrintPacket(p: Packet): (doc: seq<SectionDoc>)
    ensures |doc| == |p|
  {
    if p == [] then []
    else PrintPacket(p[..|p| - 1]) + [SectionDoc(p[|p| - 1].0, HeaderText(p[|p| - 1].0, |p[|p| - 1].1|), PrintBody(p[|p| - 1].1, 0))]
  }

  function PrintAll(ps: seq<Packet>): (doc: seq<seq<SectionDoc>>)
    ensures |doc| == |ps|
  {
    if ps == [] then [] else PrintAll(ps[..|ps| - 1]) + [PrintPacket(ps[|ps| - 1])]
  }

  lemma HeaderOpens(section: Section, count: nat)
    ensures Classify(HeaderText(section, count)) == Opens(section)
  {
    hide Classify, Decimal;
    var line := HeaderText(section, count);
    HeaderLinesAre(line);
    match section
    case RawPacket =>
      assert line == line + "";
      assert HeaderLine("Packet (", Decimal(count), "", line);
    case Apdu =>
      assert line == line + "";
      assert HeaderLine("Reassembled DNP 3.0 Application Layer message (", Decimal(count), "", line);
    case TcpReassembled =>
      assert line == "Reassembled TCP" + (" (" + Decimal(count) + " bytes):");
  }

  lemma OffsetIsHex(at: nat)
    ensures |Offset(at)| == 4 && forall i | 0 <= i < 4 :: IsHex(Offset(at)[i])
  {
    DigitsAre(at / 4096 % 16, '0');
    DigitsAre(at / 256 % 16, '0');
    DigitsAre(at / 16 % 16, '0');
    DigitsAre(at % 16, '0');
  }

  lemma LinePrints(bytes: seq<Byte>, at: nat)
    requires bytes != []
    ensures DumpOk(DumpLine(Offset(at), "  ", PrintedCells(LOWER, bytes), " " + AsciiColumn(bytes)))
  {
    OffsetIsHex(at);
    PrintedCellsValue(LOWER, bytes);
  }

  lemma ShownFirst(first: DumpLine, rest: seq<BodyLine>)
    requires DumpOk(first) && BodyOk(rest)
    ensures BodyOk([Dump(first)] + rest) && Shown([Dump(first)] + rest) == CellsValue(first.cells) + Shown(rest)
  {
    hide DumpOk;
    var body := [Dump(first)] + rest;
    assert body[1..] == rest;
    CutsOk(rest);
    AnyCutParses(Cuts(rest));
    FirstCells(first);
    CellsValueConcat(first.cells, Flat(Cuts(rest)));
    assert Cuts(body) == [first.cells] + Cuts(rest) && Cuts(body)[1..] == Cuts(rest);
  }

  lemma FirstCells(first: DumpLine)
    requires DumpOk(first)
    ensures CellsOk(first.cells)
  {
  }

  lemma NothingShown()
    ensures BodyOk([]) && Shown([]) == []
  {
  }

  lemma {:induction false} BodyPrints(bytes: seq<Byte>, at: nat)
    ensures BodyOk(PrintBody(bytes, at)) && Shown(PrintBody(bytes, at)) == bytes
    ensures bytes != [] ==> PrintBody(bytes, at) != [] && PrintBody(bytes, at)[0].Dump?
    decreases |bytes|
  {
    hide DumpOk, BodyOk, Shown, Offset, AsciiColumn, CellsValue, PrintedCells;
    if bytes == [] {
      NothingShown();
    } else {
      var n := if |bytes| < 16 then |bytes| else 16;
      BodyPrints(bytes[n..], at + n);
      LinePrints(bytes[..n], at);
      PrintedCellsValue(LOWER, bytes[..n]);
      ShownFirst(PrintBody(bytes, at)[0].d, PrintBody(bytes[n..], at + n));
      assert bytes == bytes[..n] + bytes[n..];
    }
  }

  lemma SectionPrints(section: Section, bytes: seq<Byte>)
    requires bytes != []
    ensures var x := SectionDoc(section, HeaderText(section, |bytes|), PrintBody(bytes, 0));
            SectionOk(x) && Shown(x.body) == bytes && Cuts(x.body) != []
  {
    hide Classify, BodyOk, Shown;
    HeaderOpens(section, |bytes|);
    BodyPrints(bytes, 0);
    assert PrintBody(bytes, 0)[0] in PrintBody(bytes, 0);
  }

  lemma LastPrints(p: Packet)
    requires p != []
    ensures var last := p[|p| - 1];
      PrintPacket(p) == PrintPacket(p[..|p| - 1]) + [SectionDoc(last.0, HeaderText(last.0, |last.1|), PrintBody(last.1, 0))]
    ensures PrintPacket(p)[..|p| - 1] == PrintPacket(p[..|p| - 1])
  {
    hide PrintBody, HeaderText;
  }

  lemma PutLast(p: Packet)
    requires p != [] && forall i, j | 0 <= i < j < |p| :: p[i].0 != p[j].0
    ensures Put(p[..|p| - 1], p[|p| - 1].0, p[|p| - 1].1) == p
  {
    hide Put;
    var init, last := p[..|p| - 1], p[|p| - 1];
    PutIs(init, last.0, last.1, |init|);
    assert p == init + [last];
  }

  lemma {:induction false} PacketPrints(p: Packet)
    requires forall i | 0 <= i < |p| :: p[i].1 != []
    requires forall i, j | 0 <= i < j < |p| :: p[i].0 != p[j].0
    ensures AllSections(PrintPacket(p)) && SectionsValue(PrintPacket(p)) == p
    ensures forall i | 0 <= i < |p| :: PrintPacket(p)[i].section == p[i].0
  {
    hide SectionOk, Shown, PrintBody, HeaderText, Put, Cuts, PrintPacket;
    if p != [] {
      var init, last := p[..|p| - 1], p[|p| - 1];
      PacketPrints(init);
      SectionPrints(last.0, last.1);
      LastPrints(p);
      assert p == init + [last];
      PutLast(p);
    }
  }

  lemma PrintablePrints(p: Packet)
    requires Printable(p)
    ensures PacketOk(PrintPacket(p)) && SectionsValue(PrintPacket(p)) == p
  {
    hide SectionOk, SectionsValue, PrintPacket;
    PacketPrints(p);
  }

  lemma {:induction false} AllPrint(ps: seq<Packet>)
    requires forall i | 0 <= i < |ps| :: Printable(ps[i])
    ensures AllPackets(PrintAll(ps)) && DocValue(PrintAll(ps)) == ps
  {
    hide PacketOk, SectionsValue, PrintPacket, Printable;
    if ps != [] {
      var init, last := ps[..|ps| - 1], ps[|ps| - 1];
      AllPrint(init);
      PrintablePrints(last);
      assert PrintAll(ps)[..|ps| - 1] == PrintAll(init);
      assert ps == init + [last];
    }
  }

  /** Printing any list of packets and reading the lines gives back the same list. */
  lemma PrintRoundTrip(ps: seq<Packet>)
    requires forall i | 0 <= i < |ps| :: Printable(ps[i])
    ensures Extracted(DocLines(PrintAll(ps))) == Some(ps)
  {
    hide Printable, AllPackets, DocLines, DocValue, PrintAll, Extracted;
    AllPrint(ps);
    DumpRoundTrip([], PrintAll(ps));
    assert [] + DocLines(PrintAll(ps)) == DocLines(PrintAll(ps));
  }
}
