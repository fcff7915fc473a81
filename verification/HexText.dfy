/** Hexadecimal text: parse_hex_lines and bytes_to_hex_string of pcap_extract/extract_dnp3.py. */
module HexText {
  import opened Wrappers

  type Byte = x: int | 0 <= x < 256

  /** str.isspace on ASCII: the blank, tab to carriage return, and the four separators. */
  predicate IsSpace(c: char) { c == ' ' || '\t' <= c <= '\r' || '\U{1c}' <= c <= '\U{1f}' }

  predicate IsDigit(c: char) { '0' <= c <= '9' }

  predicate IsHex(c: char) { IsDigit(c) || 'a' <= c <= 'f' || 'A' <= c <= 'F' }

  function HexVal(c: char): (v: int)
    requires IsHex(c)
    ensures 0 <= v < 16
  {
    if IsDigit(c) then c as int - '0' as int
    else if 'a' <= c then c as int - 'a' as int + 10
    else c as int - 'A' as int + 10
  }

  // ---------------------------------------------------------------- str.split()

  function WordLength(s: string): (n: nat)
    ensures n <= |s| && (n < |s| ==> IsSpace(s[n])) && (s != [] && !IsSpace(s[0]) ==> n > 0)
    ensures forall i | 0 <= i < n :: !IsSpace(s[i])
  {
    if s == [] || IsSpace(s[0]) then 0 else 1 + WordLength(s[1..])
  }

  function Split(s: string): seq<string>
    decreases |s|
  {
    if s == [] then []
    else if IsSpace(s[0]) then Split(s[1..])
    else [s[..WordLength(s)]] + Split(s[WordLength(s)..])
  }

  /** A word is itself, and a blank separates what comes before from what comes after. */
  lemma {:induction false} SplitAtBlank(a: string, blank: char, b: string)
    requires IsSpace(blank)
    ensures Split(a + [blank] + b) == Split(a) + Split(b)
    ensures a != [] && (forall c | c in a :: !IsSpace(c)) ==> Split(a) == [a]
    decreases |a|
  {
    var s := a + [blank] + b;
    if a == [] {
      assert s == [blank] + b && s[1..] == b;
    } else if IsSpace(a[0]) {
      assert s[1..] == a[1..] + [blank] + b;
      assert a[0] in a;
      SplitAtBlank(a[1..], blank, b);
    } else {
      var n := WordLength(a);
      WordEnds(a, blank, b);
      assert s[..n] == a[..n] && s[n..] == a[n..] + [blank] + b;
      SplitAtBlank(a[n..], blank, b);
      assert n < |a| ==> a[n] in a;
      assert n == |a| ==> a[..n] == a && a[n..] == [];
      assert [a[..n]] + (Split(a[n..]) + Split(b)) == ([a[..n]] + Split(a[n..])) + Split(b);
    }
  }

  lemma {:induction false} WordEnds(a: string, blank: char, b: string)
    requires IsSpace(blank)
    ensures WordLength(a + [blank] + b) == WordLength(a)
    decreases |a|
  {
    var s := a + [blank] + b;
    if a == [] {
      assert s[0] == blank;
    } else {
      assert s[0] == a[0] && s[1..] == a[1..] + [blank] + b;
      WordEnds(a[1..], blank, b);
    }
  }

  // ---------------------------------------------------------------- parse_hex_lines

  /** `int(b, 16)` of a two-character word, as far as `bytes` accepts the value. */
  function PairValue(w: string): Option<Byte>
    requires |w| == 2
  {
    if IsHex(w[0]) && IsHex(w[1]) then Some(16 * HexVal(w[0]) + HexVal(w[1]))
    else if w[0] == '+' && IsHex(w[1]) then Some(HexVal(w[1]))
    else if w == "-0" then Some(0)
    else None
  }

  function Joined(a: Option<seq<Byte>>, b: Option<seq<Byte>>): Option<seq<Byte>> {
    if a.Some? && b.Some? then Some(a.value + b.value) else None
  }

  /** Words of another length are skipped. */
  function WordValue(w: string): Option<seq<Byte>> {
    if |w| != 2 then Some([]) else if PairValue(w).Some? then Some([PairValue(w).value]) else None
  }

  function WordsValue(ws: seq<string>): Option<seq<Byte>> {
    if ws == [] then Some([]) else Joined(WordValue(ws[0]), WordsValue(ws[1..]))
  }

  function LinesValue(lines: seq<string>): Option<seq<Byte>> {
    if lines == [] then Some([]) else Joined(WordsValue(Split(lines[0])), LinesValue(lines[1..]))
  }

  lemma JoinedAssociates(a: Option<seq<Byte>>, b: Option<seq<Byte>>, c: Option<seq<Byte>>)
    ensures Joined(Joined(a, b), c) == Joined(a, Joined(b, c))
    ensures Joined(Some([]), a) == a == Joined(a, Some([]))
  {
    if a.Some? {
      assert [] + a.value == a.value == a.value + [];
      if b.Some? && c.Some? {
        assert (a.value + b.value) + c.value == a.value + (b.value + c.value);
      }
    }
  }

  lemma {:induction false} WordsConcat(a: seq<string>, b: seq<string>)
    ensures WordsValue(a + b) == Joined(WordsValue(a), WordsValue(b))
  {
    if a == [] {
      assert a + b == b;
      JoinedAssociates(WordsValue(b), None, None);
    } else {
      assert (a + b)[1..] == a[1..] + b;
      WordsConcat(a[1..], b);
      JoinedAssociates(WordValue(a[0]), WordsValue(a[1..]), WordsValue(b));
    }
  }

  /** Concatenating line lists concatenates their bytes. */
  lemma {:induction false} LinesConcat(a: seq<string>, b: seq<string>)
    ensures LinesValue(a + b) == Joined(LinesValue(a), LinesValue(b))
  {
    if a == [] {
      assert a + b == b;
      JoinedAssociates(LinesValue(b), None, None);
    } else {
      assert (a + b)[1..] == a[1..] + b;
      LinesConcat(a[1..], b);
      JoinedAssociates(WordsValue(Split(a[0])), LinesValue(a[1..]), LinesValue(b));
    }
  }

  lemma OneLine(line: string)
    ensures LinesValue([line]) == WordsValue(Split(line))
  {
    JoinedAssociates(WordsValue(Split(line)), None, None);
    assert [line][1..] == [];
  }

  lemma OneWord(w: string)
    ensures WordsValue([w]) == WordValue(w)
  {
    JoinedAssociates(WordValue(w), None, None);
    assert [w][1..] == [];
  }

  lemma OneMore<T>(s: seq<T>, i: nat)
    requires i < |s|
    ensures s[..i + 1] == s[..i] + [s[i]] && s == s[..i + 1] + s[i + 1..]
  {
  }

  method ParseHexLines(lines: seq<string>) returns (bytes: Option<seq<Byte>>)
    ensures bytes == LinesValue(lines)
  {
    var all: seq<Byte> := [];
    for i := 0 to |lines|
      invariant LinesValue(lines[..i]) == Some(all)
    {
      OneMore(lines, i);
      LinesConcat(lines[..i], [lines[i]]);
      LinesConcat(lines[..i + 1], lines[i + 1..]);
      OneLine(lines[i]);
      var words := Split(lines[i]);
      ghost var before := all;
      JoinedAssociates(Some(before), None, None);
      assert words[..0] == [];
      for j := 0 to |words|
        invariant Joined(Some(before), WordsValue(words[..j])) == Some(all)
      {
        OneMore(words, j);
        WordsConcat(words[..j], [words[j]]);
        WordsConcat(words[..j + 1], words[j + 1..]);
        OneWord(words[j]);
        JoinedAssociates(Some(before), WordsValue(words[..j]), WordValue(words[j]));
        JoinedAssociates(Some(all), None, None);
        if |words[j]| == 2 {
          var b := PairValue(words[j]);
          if b.None? {
            return None;
          }
          all := all + [b.value];
        }
      }
      assert words[..|words|] == words;
    }
    assert lines[..|lines|] == lines;
    return Some(all);
  }

  /** A word that is not two characters long is passed over, wherever it stands. */
  lemma OtherWordsAreSkipped(before: string, w: string, after: string)
    requires w != [] && |w| != 2 && forall c | c in w :: !IsSpace(c)
    ensures LinesValue([before + " " + w + " " + after]) == LinesValue([before + " " + after])
  {
    hide LinesValue, Split;
    var line, rest := before + " " + w + " " + after, w + " " + after;
    assert line == before + [' '] + rest && rest == w + [' '] + after;
    assert before + " " + after == before + [' '] + after;
    SplitAtBlank(before, ' ', rest);
    SplitAtBlank(before, ' ', after);
    SplitAtBlank(w, ' ', after);
    OneLine(line);
    OneLine(before + " " + after);
    WordsConcat(Split(before), [w] + Split(after));
    WordsConcat([w], Split(after));
    WordsConcat(Split(before), Split(after));
    OneWord(w);
    JoinedAssociates(WordsValue(Split(after)), None, None);
  }

  // ---------------------------------------------------------------- printed bytes

  /** One printed byte and the blank after it; each digit in either case. */
  datatype Cell = Cell(hi: char, lo: char, blank: char)

  predicate CellOk(c: Cell) { IsHex(c.hi) && IsHex(c.lo) && IsSpace(c.blank) }

  predicate CellsOk(cells: seq<Cell>) { forall c | c in cells :: CellOk(c) }

  function CellValue(c: Cell): Byte
    requires CellOk(c)
  {
    16 * HexVal(c.hi) + HexVal(c.lo)
  }

  function CellsValue(cells: seq<Cell>): (v: seq<Byte>)
    requires CellsOk(cells)
    ensures |v| == |cells|
  {
    if cells == [] then [] else [CellValue(cells[0])] + CellsValue(cells[1..])
  }

  /** The printed bytes with a blank after each. */
  function CellsText(cells: seq<Cell>): (s: string)
    ensures |s| == 3 * |cells|
  {
    if cells == [] then [] else [cells[0].hi, cells[0].lo, cells[0].blank] + CellsText(cells[1..])
  }

  /** The same without the blank after the last byte. */
  function JoinedText(cells: seq<Cell>): string {
    if cells == [] then [] else CellsText(cells)[..3 * |cells| - 1]
  }

  lemma SplitPair(hi: char, lo: char, tail: string)
    requires IsHex(hi) && IsHex(lo) && (tail == [] || IsSpace(tail[0]))
    ensures Split([hi, lo] + tail) == [[hi, lo]] + Split(tail)
  {
    var s := [hi, lo] + tail;
    assert s[1..] == [lo] + tail && s[1..][1..] == tail && s[2..] == tail && s[..2] == [hi, lo];
    assert WordLength(s[1..]) == 1 + WordLength(tail) && WordLength(tail) == 0;
  }

  lemma NothingToSplit()
    ensures JoinedText([]) == [] && Split([]) == []
  {
  }

  lemma SplitFirst(cells: seq<Cell>)
    requires cells != [] && CellsOk(cells)
    ensures Split(JoinedText(cells)) == [[cells[0].hi, cells[0].lo]] + Split(JoinedText(cells[1..]))
  {
    var c, rest := cells[0], cells[1..];
    assert c in cells && CellOk(c);
    var tail := if rest == [] then [] else [c.blank] + JoinedText(rest);
    assert JoinedText(cells) == [c.hi, c.lo] + tail;
    SplitPair(c.hi, c.lo, tail);
    assert rest != [] ==> tail[1..] == JoinedText(rest);
  }

  lemma {:induction false} SplitCells(cells: seq<Cell>)
    requires CellsOk(cells)
    ensures WordsValue(Split(JoinedText(cells))) == Some(CellsValue(cells))
  {
    hide Split, JoinedText;
    NothingToSplit();
    if cells != [] {
      var c, rest := cells[0], cells[1..];
      assert c in cells && CellOk(c);
      SplitCells(rest);
      SplitFirst(cells);
      assert Split(JoinedText(cells))[1..] == Split(JoinedText(rest));
    }
  }

  function Texts(cuts: seq<seq<Cell>>): seq<string> {
    if cuts == [] then [] else [JoinedText(cuts[0])] + Texts(cuts[1..])
  }

  function Flat(cuts: seq<seq<Cell>>): seq<Cell> {
    if cuts == [] then [] else cuts[0] + Flat(cuts[1..])
  }

  lemma {:induction false} CellsValueConcat(a: seq<Cell>, b: seq<Cell>)
    requires CellsOk(a) && CellsOk(b)
    ensures CellsOk(a + b) && CellsValue(a + b) == CellsValue(a) + CellsValue(b)
  {
    if a == [] {
      assert a + b == b;
    } else {
      assert (a + b)[1..] == a[1..] + b;
      CellsValueConcat(a[1..], b);
    }
  }

  /** However printed bytes are cut into lines, parsing returns all of them in order. */
  lemma {:induction false} AnyCutParses(cuts: seq<seq<Cell>>)
    requires forall cells | cells in cuts :: CellsOk(cells)
    ensures CellsOk(Flat(cuts)) && LinesValue(Texts(cuts)) == Some(CellsValue(Flat(cuts)))
  {
    if cuts != [] {
      AnyCutParses(cuts[1..]);
      SplitCells(cuts[0]);
      CellsValueConcat(cuts[0], Flat(cuts[1..]));
    }
  }

  // ---------------------------------------------------------------- bytes_to_hex_string

  const UPPER := "0123456789ABCDEF"
  const LOWER := "0123456789abcdef"

  predicate IsAlphabet(digits: string) { digits == UPPER || digits == LOWER }

  /** Two digits and a blank. */
  function PrintedCell(digits: string, b: Byte): Cell
    requires |digits| == 16
  {
    Cell(digits[b / 16], digits[b % 16], ' ')
  }

  function PrintedCells(digits: string, bytes: seq<Byte>): (cells: seq<Cell>)
    requires |digits| == 16
    ensures |cells| == |bytes|
  {
    if bytes == [] then [] else [PrintedCell(digits, bytes[0])] + PrintedCells(digits, bytes[1..])
  }

  /** The format {b:02X}, joined by blanks. */
  function BytesToHexString(bytes: seq<Byte>): string {
    JoinedText(PrintedCells(UPPER, bytes))
  }

  /** The digits are these 22, with their values. */
  lemma DigitsAre(v: int, c: char)
    requires 0 <= v < 16
    ensures IsHex("0123456789ABCDEF"[v]) && HexVal("0123456789ABCDEF"[v]) == v
    ensures IsHex("0123456789abcdef"[v]) && HexVal("0123456789abcdef"[v]) == v
    ensures IsHex(c) ==> c == "0123456789ABCDEF"[HexVal(c)] || c == "0123456789abcdef"[HexVal(c)]
  {
  }

  /** The blanks, by their codes. */
  lemma BlanksAre(c: char)
    ensures IsSpace(c) <==> c as int == 32 || 9 <= c as int <= 13 || 28 <= c as int <= 31
  {
  }

  /** What two characters come to: two digits of either case, a plus and a digit, or minus zero. Anything else raises. */
  lemma PairsAre(a: string, b: string, u: int, v: int, w: string)
    requires 0 <= u < 16 && 0 <= v < 16 && IsAlphabet(a) && IsAlphabet(b)
    ensures PairValue([a[u], b[v]]) == Some(16 * u + v) && PairValue(['+', b[v]]) == Some(v)
    ensures PairValue(['-', UPPER[v]]) == if v == 0 then Some(0) else None
    ensures |w| == 2 && (!IsHex(w[1]) || !(IsHex(w[0]) || w[0] == '+' || w[0] == '-')) ==> PairValue(w) == None
  {
    hide HexVal;
    DigitsAre(u, '0');
    DigitsAre(v, '0');
    assert ['-', UPPER[v]] == "-0" <==> UPPER[v] == '0';
    DigitsAre(0, '0');
  }

  lemma {:induction false} PrintedCellsValue(digits: string, bytes: seq<Byte>)
    requires IsAlphabet(digits)
    ensures CellsOk(PrintedCells(digits, bytes)) && CellsValue(PrintedCells(digits, bytes)) == bytes
  {
    if bytes != [] {
      DigitsAre(bytes[0] / 16, '0');
      DigitsAre(bytes[0] % 16, '0');
      PrintedCellsValue(digits, bytes[1..]);
    }
  }

  /** parse_hex_lines undoes bytes_to_hex_string. */
  lemma HexStringRoundTrip(bytes: seq<Byte>)
    ensures LinesValue([BytesToHexString(bytes)]) == Some(bytes)
  {
    PrintedCellsValue(UPPER, bytes);
    SplitCells(PrintedCells(UPPER, bytes));
    OneLine(BytesToHexString(bytes));
  }
}
