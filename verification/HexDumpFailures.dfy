/** Exactly which inputs make the hex-dump reader raise an exception. */
module HexDumpFailures {
  import opened Wrappers
  import opened HexText
  import opened HexDump
  import opened HexDumpRoundTrip

  /** Whatever a data line matched can be parsed. */
  lemma DataParses(line: string)
    requires Classify(line).Data?
    ensures LinesValue([Classify(line).text]).Some?
  {
    var d := DataIsDump(line);
    SplitCells(d.cells);
    OneLine(JoinedText(d.cells));
  }

  ghost predicate Occurs(lines: seq<string>, n: nat, want: Kind -> bool) {
    exists i :: 0 <= i < n && i < |lines| && want(Classify(lines[i]))
  }

  predicate OpensPacket(k: Kind) { k == Opens(RawPacket) }

  predicate OpensOther(k: Kind) { k.Opens? && k.section != RawPacket }

  predicate IsData(k: Kind) { k.Data? }

  /** Line j opens a reassembled section before any packet line, after another such line and
      after some data: there is no packet to store the data in. */
  ghost predicate FailsAt(lines: seq<string>, j: nat) {
    && j < |lines| && OpensOther(Classify(lines[j]))
    && !Occurs(lines, j, OpensPacket) && Occurs(lines, j, OpensOther) && Occurs(lines, j, IsData)
  }

  ghost predicate ScanKnown(lines: seq<string>, z: Scan) {
    && LinesValue(z.hexLines).Some?
    && (z.current.None? <==> !Occurs(lines, |lines|, OpensPacket))
    && (z.current.None? ==> (z.section.Some? <==> Occurs(lines, |lines|, OpensOther)))
    && (z.current.None? ==> (z.hexLines != [] <==> Occurs(lines, |lines|, IsData)))
  }

  lemma SomeThen(lines: seq<string>, line: string, want: Kind -> bool)
    ensures Occurs(lines + [line], |lines| + 1, want) <==> Occurs(lines, |lines|, want) || want(Classify(line))
  {
    hide Classify;
    var all := lines + [line];
    assert all[|lines|] == line;
    if i :| 0 <= i < |lines| && want(Classify(lines[i])) {
      assert all[i] == lines[i];
    }
  }

  lemma SomeBefore(lines: seq<string>, line: string, n: nat, want: Kind -> bool)
    requires n <= |lines|
    ensures Occurs(lines + [line], n, want) <==> Occurs(lines, n, want)
  {
    hide Classify;
    var all := lines + [line];
    assert forall i | 0 <= i < |lines| :: all[i] == lines[i];
  }

  lemma StepKnown(lines: seq<string>, z: Scan, line: string)
    requires Ok(z) && ScanKnown(lines, z)
    ensures Step(z, line).None? <==> FailsAt(lines + [line], |lines|)
    ensures Step(z, line).Some? ==> ScanKnown(lines + [line], Step(z, line).value)
  {
    hide Occurs, Classify, LinesValue;
    SomeThen(lines, line, OpensPacket);
    SomeThen(lines, line, OpensOther);
    SomeThen(lines, line, IsData);
    SomeBefore(lines, line, |lines|, OpensPacket);
    SomeBefore(lines, line, |lines|, OpensOther);
    SomeBefore(lines, line, |lines|, IsData);
    NoLines();
    if Classify(line).Data? {
      DataParses(line);
      LinesConcat(z.hexLines, [Classify(line).text]);
    }
    assert (lines + [line])[|lines|] == line;
  }

  lemma NoLines()
    ensures LinesValue([]) == Some([])
  {
  }

  lemma {:induction false} ScanFailsIff(lines: seq<string>)
    ensures Scanned(Start, lines).None? <==> exists j :: FailsAt(lines, j)
    ensures Scanned(Start, lines).Some? ==> ScanKnown(lines, Scanned(Start, lines).value)
    decreases |lines|
  {
    if lines == [] {
    } else {
      hide Step, ScanKnown;
      var init, line := lines[..|lines| - 1], lines[|lines| - 1];
      assert lines == init + [line];
      ScanFailsIff(init);
      ScannedConcat(Start, init, [line]);
      FailsEarlier(init, line);
      if Scanned(Start, init).Some? {
        var z := Scanned(Start, init).value;
        StepKnown(init, z, line);
        assert Scanned(z, [line]) == Step(z, line) by {
          assert [line][1..] == [];
        }
      }
    }
  }

  lemma FailsEarlier(lines: seq<string>, line: string)
    ensures forall j: nat | j < |lines| :: FailsAt(lines + [line], j) <==> FailsAt(lines, j)
  {
    hide Classify, Occurs;
    forall j: nat | j < |lines| ensures FailsAt(lines + [line], j) <==> FailsAt(lines, j) {
      SomeBefore(lines, line, j, OpensPacket);
      SomeBefore(lines, line, j, OpensOther);
      SomeBefore(lines, line, j, IsData);
    }
  }

  /** Reading raises an exception on exactly the inputs with a failing line. */
  lemma ExtractFailsIff(lines: seq<string>)
    ensures Extracted(lines).None? <==> exists j :: FailsAt(lines, j)
  {
    hide FailsAt;
    ScanFailsIff(lines);
  }

  /** What the reader makes of any input at all: the packets its lines print, or an exception. */
  lemma ReadsEveryInput(lines: seq<string>)
    ensures exists body, sections, doc ::
      && BodyOk(body) && Later(sections) && AllPackets(doc)
      && lines == BodyLines(body) + SectionsLines(sections) + DocLines(doc)
      && Extracted(lines) ==
           if exists j :: FailsAt(BodyLines(body) + SectionsLines(sections), j) then None else Some(DocValue(doc))
  {
    hide BodyOk, Later, AllPackets, BodyLines, SectionsLines, DocLines, FailsAt, Extracted, Scanned, DocValue, NoPacketLine;
    var body, sections, doc := TakeApart(lines);
    var preamble := BodyLines(body) + SectionsLines(sections);
    SectionsOpenNone(body, sections);
    DumpRoundTrip(preamble, doc);
    ScanFailsIff(preamble);
    assert lines == preamble + DocLines(doc);
  }

  lemma ExampleData(blank: char)
    requires IsSpace(blank)
    ensures Classify("0000" + [blank] + "05" + [blank]).Data?
  {
    var line := "0000" + [blank] + "05" + [blank];
    var rest, body := line[4..], "05" + [blank];
    assert rest[1..] == body && SpaceCount(rest) == 1 + SpaceCount(body) == 1;
    assert rest[SpaceCount(rest)..] == body && StartsCell(body) && CellCount(body) > 0;
    assert DataText(line).Some?;
  }

  /** Three lines that make it raise: two reassembled sections with a data line between them, and no packet. */
  lemma FailureExample(blank: char)
    requires IsSpace(blank)
    ensures Extracted(["Reassembled TCP", "0000" + [blank] + "05" + [blank], "Reassembled TCP"]).None?
  {
    var data := "0000" + [blank] + "05" + [blank];
    var lines := ["Reassembled TCP", data, "Reassembled TCP"];
    assert Classify("Reassembled TCP") == Opens(TcpReassembled);
    ExampleData(blank);
    assert OpensOther(Classify(lines[0])) && IsData(Classify(lines[1])) && OpensOther(Classify(lines[2]));
    hide Classify;
    assert FailsAt(lines, 2);
    ExtractFailsIff(lines);
  }
}
