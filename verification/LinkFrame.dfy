/** FT3 frames: cpp/lib/src/link/LinkFrame.cpp, LinkHeader.{h,cpp} and the header rules of LinkLayerParser.cpp. */
module LinkFrame {
  import opened Wrappers
  import opened Crc

  const HEADER_SIZE: nat := 10
  const BLOCK_SIZE: nat := 16
  const MIN_LENGTH: nat := 5
  const MAX_USER_DATA: nat := 250
  const MAX_FRAME_SIZE: nat := 292

  // ---------------------------------------------------------------- frames and their octets

  /** LinkHeaderFields; `func` holds the PRM bit and the function code. */
  datatype Fields = Fields(func: Octet, fromMaster: bool, fcb: bool, fcvdfc: bool, dest: bv16, src: bv16)

  datatype Frame = Frame(fields: Fields, data: seq<Octet>)

  predicate IsUserData(func: Octet) { func == 0x43 || func == 0x44 }

  /** ValidateFunctionCode. */
  predicate FunctionOk(func: Octet, fcb: bool, fcvdfc: bool) {
    if func & 0x40 != 0 then
      if func == 0x43 || func == 0x42 then fcvdfc
      else (func == 0x49 || func == 0x40 || func == 0x44) && !fcvdfc
    else
      (func == 0x00 || func == 0x01 || func == 0x0B || func == 0x0F) && !fcb
  }

  /** The frames a station may send. */
  predicate WellFormed(f: Frame) {
    FunctionOk(f.fields.func, f.fields.fcb, f.fields.fcvdfc) &&
    |f.data| <= MAX_USER_DATA && (IsUserData(f.fields.func) <==> f.data != [])
  }

  /** LinkHeader::ControlByte. */
  function Control(x: Fields): Octet {
    x.func | (if x.fromMaster then 0x80 else 0) | (if x.fcb then 0x20 else 0) | (if x.fcvdfc then 0x10 else 0)
  }

  function Word(lo: Octet, hi: Octet): bv16 { ((hi as bv16) << 8) | (lo as bv16) }

  /** LinkHeader::Write. */
  function HeaderOctets(x: Fields, dataLength: nat): (h: seq<Octet>)
    requires dataLength <= MAX_USER_DATA
    ensures |h| == HEADER_SIZE
  {
    WithCrc([0x05, 0x64, (dataLength + MIN_LENGTH) as Octet, Control(x),
             LowOctet(x.dest), HighOctet(x.dest), LowOctet(x.src), HighOctet(x.src)])
  }

  function Least(a: nat, b: nat): nat { if a <= b then a else b }

  /** LinkFrame::CalcUserDataSize. */
  function UserDataSize(n: nat): nat {
    if n % 16 > 0 then n / 16 * 18 + n % 16 + 2 else n / 16 * 18
  }

  function FrameSize(n: nat): nat { HEADER_SIZE + UserDataSize(n) }

  lemma SizeStep(n: nat)
    ensures UserDataSize(0) == 0
    ensures n > 0 ==> UserDataSize(n) == Least(n, 16) + 2 + UserDataSize(n - Least(n, 16))
    ensures n <= UserDataSize(n) && (n <= MAX_USER_DATA ==> FrameSize(n) <= MAX_FRAME_SIZE)
  {
  }

  lemma LargestFrame()
    ensures FrameSize(250) == MAX_FRAME_SIZE == 292
  {
  }

  /** The user data in blocks of sixteen, each with its check. */
  function Blocks(data: seq<Octet>): (s: seq<Octet>)
    ensures |s| == UserDataSize(|data|)
  {
    SizeStep(|data|);
    if data == [] then []
    else
      var m := Least(|data|, BLOCK_SIZE);
      WithCrc(data[..m]) + Blocks(data[m..])
  }

  function Format(f: Frame): (s: seq<Octet>)
    requires |f.data| <= MAX_USER_DATA
    ensures |s| == FrameSize(|f.data|)
  {
    HeaderOctets(f.fields, |f.data|) + Blocks(f.data)
  }

  // ---------------------------------------------------------------- reading

  predicate Synced(s: seq<Octet>) { |s| >= 2 && s[0] == 0x05 && s[1] == 0x64 }

  /** LinkHeader::Read. */
  function FieldsOf(s: seq<Octet>): Fields
    requires |s| >= HEADER_SIZE
  {
    var c := s[3];
    Fields(c & 0x4F, c & 0x80 != 0, c & 0x20 != 0, c & 0x10 != 0, Word(s[4], s[5]), Word(s[6], s[7]))
  }

  /** ValidateHeaderParameters. */
  predicate ParametersOk(x: Fields, length: Octet) {
    length > 4 && FunctionOk(x.func, x.fcb, x.fcvdfc) && (IsUserData(x.func) <==> length > 5)
  }

  /** LinkLayerParser::ReadHeader. */
  predicate HeaderOk(s: seq<Octet>)
    requires |s| >= HEADER_SIZE
  {
    IsCorrectCrc(s[..HEADER_SIZE]) && ParametersOk(FieldsOf(s), s[2])
  }

  function DataLength(s: seq<Octet>): (n: nat)
    requires |s| >= HEADER_SIZE && s[2] > 4
    ensures n <= MAX_USER_DATA
  {
    (s[2] as int) - MIN_LENGTH
  }

  /** ValidateBodyCRC. */
  predicate BodyOk(body: seq<Octet>, n: nat)
    requires |body| == UserDataSize(n)
  {
    SizeStep(n);
    if n == 0 then true
    else
      var m := Least(n, BLOCK_SIZE);
      IsCorrectCrc(body[..m + 2]) && BodyOk(body[m + 2..], n - m)
  }

  /** ReadUserData. */
  function UserData(body: seq<Octet>, n: nat): (data: seq<Octet>)
    requires |body| == UserDataSize(n)
    ensures |data| == n
  {
    SizeStep(n);
    if n == 0 then []
    else
      var m := Least(n, BLOCK_SIZE);
      body[..m] + UserData(body[m + 2..], n - m)
  }

  lemma {:induction false} BodyIsBlocks(body: seq<Octet>, n: nat)
    requires |body| == UserDataSize(n)
    ensures BodyOk(body, n) <==> body == Blocks(UserData(body, n))
    decreases n
  {
    hide WithCrc, UserDataSize, Blocks, UserData;
    SizeStep(n);
    if n == 0 {
      UserDataEmpty(body);
      BlocksOfNothing();
    } else {
      UserDataStep(body, n);
      var m := Least(n, BLOCK_SIZE);
      var block, rest := body[..m + 2], body[m + 2..];
      var front, data := body[..m], UserData(rest, n - m);
      BodyIsBlocks(rest, n - m);
      FirstBlock(front, data);
      WithCrcSize(front);
      assert block[..m] == front && body == block + rest;
      SameParts(block, rest, WithCrc(front), Blocks(data));
    }
  }

  lemma FirstBlock(front: seq<Octet>, data: seq<Octet>)
    requires 1 <= |front| <= BLOCK_SIZE && (data != [] ==> |front| == BLOCK_SIZE)
    ensures Blocks(front + data) == WithCrc(front) + Blocks(data)
  {
    hide WithCrc, UserDataSize;
    assert Least(|front + data|, BLOCK_SIZE) == |front|;
    assert (front + data)[..|front|] == front && (front + data)[|front|..] == data;
  }

  lemma BlocksOfNothing()
    ensures Blocks([]) == []
  {
  }

  lemma SameParts(a: seq<Octet>, b: seq<Octet>, c: seq<Octet>, d: seq<Octet>)
    requires |a| == |c|
    ensures a + b == c + d <==> a == c && b == d
  {
    if a + b == c + d {
      assert a == (a + b)[..|a|] && c == (c + d)[..|c|];
      assert b == (a + b)[|a|..] && d == (c + d)[|c|..];
    }
  }

  lemma WithCrcSize(s: seq<Octet>)
    ensures |WithCrc(s)| == |s| + 2
  {
  }

  lemma {:induction false} BlocksRead(data: seq<Octet>)
    ensures UserData(Blocks(data), |data|) == data
    decreases |data|
  {
    hide WithCrc, UserDataSize, UserData, Blocks;
    SizeStep(|data|);
    if data == [] {
      UserDataEmpty(Blocks(data));
    } else {
      var m := Least(|data|, BLOCK_SIZE);
      var s := Blocks(data);
      BlocksStep(data);
      BlocksRead(data[m..]);
      UserDataStep(s, |data|);
      WithCrcKeeps(data[..m]);
      assert s[..m] == WithCrc(data[..m])[..m] == data[..m];
      assert s[m + 2..] == Blocks(data[m..]);
    }
  }

  lemma WithCrcKeeps(s: seq<Octet>)
    ensures |WithCrc(s)| == |s| + 2 && WithCrc(s)[..|s|] == s
  {
  }

  // ---------------------------------------------------------------- one frame at the front

  /** The whole of a frame whose header checks out is here. */
  predicate Whole(s: seq<Octet>) { |s| >= HEADER_SIZE && Synced(s) && HeaderOk(s) && |s| >= FrameSize(DataLength(s)) }

  function BodyOf(s: seq<Octet>): (body: seq<Octet>)
    requires Whole(s)
    ensures |body| == UserDataSize(DataLength(s))
  {
    s[HEADER_SIZE..FrameSize(DataLength(s))]
  }

  /** What the parser accepts. */
  predicate Accepts(s: seq<Octet>) { Whole(s) && BodyOk(BodyOf(s), DataLength(s)) }

  function FrameOf(s: seq<Octet>): Frame
    requires Whole(s)
  {
    Frame(FieldsOf(s), UserData(BodyOf(s), DataLength(s)))
  }

  lemma WordSplits(w: bv16, lo: Octet, hi: Octet)
    ensures Word(LowOctet(w), HighOctet(w)) == w
    ensures LowOctet(Word(lo, hi)) == lo && HighOctet(Word(lo, hi)) == hi
  {
  }

  lemma ControlSplits(x: Fields, c: Octet)
    requires x.func & 0xB0 == 0
    ensures var d := Control(x);
      d & 0x4F == x.func && (d & 0x80 != 0) == x.fromMaster && (d & 0x20 != 0) == x.fcb && (d & 0x10 != 0) == x.fcvdfc
    ensures Control(Fields(c & 0x4F, c & 0x80 != 0, c & 0x20 != 0, c & 0x10 != 0, x.dest, x.src)) == c
  {
  }

  lemma FunctionBits(func: Octet, fcb: bool, fcvdfc: bool)
    requires FunctionOk(func, fcb, fcvdfc)
    ensures func & 0xB0 == 0
  {
  }

  lemma LengthOctet(n: nat)
    requires n <= MAX_USER_DATA
    ensures var o := (n + MIN_LENGTH) as Octet; o > 4 && (o as int) == n + MIN_LENGTH && (o > 5 <==> n > 0)
  {
  }

  lemma OctetLength(o: Octet)
    requires o > 4
    ensures 5 <= (o as int) <= 255 && ((o as int) as Octet) == o && (o > 5 <==> (o as int) > 5)
  {
  }

  /** The header of a frame reads back. */
  lemma HeaderReads(f: Frame, rest: seq<Octet>)
    requires WellFormed(f)
    ensures var s := HeaderOctets(f.fields, |f.data|) + rest;
      Synced(s) && HeaderOk(s) && FieldsOf(s) == f.fields && DataLength(s) == |f.data|
  {
    hide Check, LowOctet, HighOctet, Word, Control, FunctionOk;
    var x := f.fields;
    var h := HeaderOctets(x, |f.data|);
    var s := h + rest;
    assert s[..HEADER_SIZE] == h;
    assert h[..8] == [0x05, 0x64, (|f.data| + MIN_LENGTH) as Octet, Control(x),
             LowOctet(x.dest), HighOctet(x.dest), LowOctet(x.src), HighOctet(x.src)];
    FunctionBits(x.func, x.fcb, x.fcvdfc);
    ControlSplits(x, 0);
    WordSplits(x.dest, 0, 0);
    WordSplits(x.src, 0, 0);
    LengthOctet(|f.data|);
  }

  /** The only header octets that check out are those written for the fields they carry. */
  lemma HeaderIsWritten(s: seq<Octet>)
    requires |s| >= HEADER_SIZE && Synced(s) && HeaderOk(s)
    ensures s[..HEADER_SIZE] == HeaderOctets(FieldsOf(s), DataLength(s))
  {
    hide WithCrc, LowOctet, HighOctet, Word, Control, FunctionOk, IsUserData;
    var x := FieldsOf(s);
    var h := s[..HEADER_SIZE];
    FunctionBits(x.func, x.fcb, x.fcvdfc);
    ControlSplits(x, s[3]);
    WordSplits(0, s[4], s[5]);
    WordSplits(0, s[6], s[7]);
    OctetLength(s[2]);
    assert h[..8] == [0x05, 0x64, (DataLength(s) + MIN_LENGTH) as Octet, Control(x),
             LowOctet(x.dest), HighOctet(x.dest), LowOctet(x.src), HighOctet(x.src)];
  }

  /** A frame written by a station is accepted as itself, whatever follows it. */
  lemma FormatIsAccepted(f: Frame, rest: seq<Octet>)
    requires WellFormed(f)
    ensures var s := Format(f) + rest;
      Accepts(s) && FrameOf(s) == f && s[FrameSize(DataLength(s))..] == rest
  {
    hide WithCrc, HeaderOk, FieldsOf, Blocks, UserData, BodyOk, UserDataSize, HeaderOctets, DataLength, FunctionOk;
    var h, body := HeaderOctets(f.fields, |f.data|), Blocks(f.data);
    var s := Format(f) + rest;
    assert s == h + (body + rest);
    HeaderReads(f, body + rest);
    assert BodyOf(s) == body;
    BlocksRead(f.data);
    BodyIsBlocks(body, |f.data|);
  }

  /** Whatever is accepted was written by a station as the frame delivered. */
  lemma AcceptedIsFormat(s: seq<Octet>)
    requires Accepts(s)
    ensures var f := FrameOf(s); WellFormed(f) && s[..FrameSize(DataLength(s))] == Format(f)
  {
    hide WithCrc, Blocks, UserData, BodyOk, UserDataSize, HeaderOctets, Word, Check;
    HeaderIsWritten(s);
    BodyIsBlocks(BodyOf(s), DataLength(s));
    OctetLength(s[2]);
    assert s[..FrameSize(DataLength(s))] == s[..HEADER_SIZE] + BodyOf(s);
  }

  // ---------------------------------------------------------------- the format, octet by octet

  /** Which frames are accepted as what they say, by their fields alone: nine function codes, each with its rule for FCV or
      FCB, and user data with exactly two of them. */
  lemma AcceptedIff(x: Fields, data: seq<Octet>, rest: seq<Octet>)
    requires |data| <= 250
    ensures var s := Format(Frame(x, data)) + rest;
      (Accepts(s) && FrameOf(s) == Frame(x, data)) <==>
        && (|| ((x.func == 0x42 || x.func == 0x43) && x.fcvdfc)
            || ((x.func == 0x40 || x.func == 0x44 || x.func == 0x49) && !x.fcvdfc)
            || ((x.func == 0x00 || x.func == 0x01 || x.func == 0x0B || x.func == 0x0F) && !x.fcb))
        && (data != [] <==> x.func == 0x43 || x.func == 0x44)
  {
    hide Format, Accepts, FrameOf;
    var f := Frame(x, data);
    if WellFormed(f) {
      FormatIsAccepted(f, rest);
    } else if Accepts(Format(f) + rest) {
      AcceptedIsFormat(Format(f) + rest);
    }
  }

  /** Where the header's fields are: start octets, length, control with DIR, PRM, FCB and FCV from the highest bit down,
      and the addresses, destination first, low octet first. */
  lemma HeaderLayout(f: Frame)
    requires |f.data| <= 250 && f.fields.func & 0xB0 == 0
    ensures var s, x := Format(f), f.fields;
      && |s| >= 10 && s[0] == 0x05 && s[1] == 0x64 && s[2] as int == |f.data| + 5
      && s[3] & 0x80 == (if x.fromMaster then 0x80 else 0) && s[3] & 0x4F == x.func
      && s[3] & 0x20 == (if x.fcb then 0x20 else 0) && s[3] & 0x10 == (if x.fcvdfc then 0x10 else 0)
      && s[4] as bv16 == x.dest & 0xFF && s[5] as bv16 == x.dest >> 8
      && s[6] as bv16 == x.src & 0xFF && s[7] as bv16 == x.src >> 8
  {
    hide Check, Blocks;
    LengthOctet(|f.data|);
    ControlOctet(f.fields);
    WordOctets(f.fields.dest);
    WordOctets(f.fields.src);
  }

  lemma ControlOctet(x: Fields)
    requires x.func & 0xB0 == 0
    ensures var c := Control(x);
      && c & 0x80 == (if x.fromMaster then 0x80 else 0) && c & 0x4F == x.func
      && c & 0x20 == (if x.fcb then 0x20 else 0) && c & 0x10 == (if x.fcvdfc then 0x10 else 0)
  {
  }

  lemma WordOctets(w: bv16)
    ensures LowOctet(w) as bv16 == w & 0xFF && HighOctet(w) as bv16 == w >> 8
  {
  }

  /** The user data lies behind the header, block by block, each of sixteen octets or what is left. */
  lemma {:induction false} DataLayout(data: seq<Octet>, i: nat)
    requires i < |data|
    ensures i + 2 * (i / 16) < |Blocks(data)| && Blocks(data)[i + 2 * (i / 16)] == data[i]
    decreases |data|
  {
    hide WithCrc, Blocks, UserDataSize;
    var m := Least(|data|, BLOCK_SIZE);
    BlocksStep(data);
    WithCrcKeeps(data[..m]);
    if i < m {
      assert WithCrc(data[..m])[i] == WithCrc(data[..m])[..m][i];
    } else {
      assert m == 16 && i / 16 == 1 + (i - 16) / 16;
      DataLayout(data[m..], i - m);
    }
  }

  /** Two frames that the repository's own tests write out. */
  lemma KnownFrames()
    ensures Format(Frame(Fields(0x00, false, false, true, 1024, 1), [])) ==
      [0x05, 0x64, 0x05, 0x10, 0x00, 0x04, 0x01, 0x00, 0x8B, 0x0C]
    ensures Format(Frame(Fields(0x43, true, true, true, 1, 1024),
                         [0xC0, 0xC3, 0x01, 0x3C, 0x02, 0x06, 0x3C, 0x03, 0x06, 0x3C, 0x04, 0x06, 0x3C, 0x01, 0x06])) ==
      [0x05, 0x64, 0x14, 0xF3, 0x01, 0x00, 0x00, 0x04, 0x0A, 0x3B] +
      [0xC0, 0xC3, 0x01, 0x3C, 0x02, 0x06, 0x3C, 0x03, 0x06, 0x3C, 0x04, 0x06, 0x3C, 0x01, 0x06, 0x9A, 0x12]
  {
    hide Register, Blocks;
    KnownHeaders();
    KnownBlock();
    BlocksOfNothing();
    var data := [0xC0, 0xC3, 0x01, 0x3C, 0x02, 0x06, 0x3C, 0x03, 0x06, 0x3C, 0x04, 0x06, 0x3C, 0x01, 0x06];
    FirstBlock(data, []);
    assert data + [] == data;
  }

  lemma KnownHeaders()
    ensures Register(0, [0x05, 0x64, 0x05, 0x10, 0x00, 0x04, 0x01, 0x00]) == 0xF374
    ensures Register(0, [0x05, 0x64, 0x14, 0xF3, 0x01, 0x00, 0x00, 0x04]) == 0xC4F5
  {
  }

  lemma KnownBlock()
    ensures Register(0, [0xC0, 0xC3, 0x01, 0x3C, 0x02, 0x06, 0x3C, 0x03, 0x06, 0x3C, 0x04, 0x06, 0x3C, 0x01, 0x06]) == 0xED65
  {
    var front, back := [0xC0, 0xC3, 0x01, 0x3C, 0x02, 0x06, 0x3C, 0x03], [0x06, 0x3C, 0x04, 0x06, 0x3C, 0x01, 0x06];
    KnownHalves();
    RegisterConcat(0, front, back);
    assert front + back == [0xC0, 0xC3, 0x01, 0x3C, 0x02, 0x06, 0x3C, 0x03, 0x06, 0x3C, 0x04, 0x06, 0x3C, 0x01, 0x06];
  }

  lemma KnownHalves()
    ensures Register(0, [0xC0, 0xC3, 0x01, 0x3C, 0x02, 0x06, 0x3C, 0x03]) == 0x365A
    ensures Register(0x365A, [0x06, 0x3C, 0x04, 0x06, 0x3C, 0x01, 0x06]) == 0xED65
  {
  }

  // ---------------------------------------------------------------- on buffers

  /** CRC::IsCorrectCRC on the `length` octets at `at` and the two behind them. */
  method CheckBlock(buffer: array<Octet>, at: nat, length: nat) returns (ok: bool)
    requires at + length + 2 <= buffer.Length
    ensures ok == IsCorrectCrc(buffer[at..at + length + 2])
  {
    hide Check, LowOctet, HighOctet, Word;
    var crc := CalcCrc(buffer[at..at + length]);
    var lo, hi := buffer[at + length], buffer[at + length + 1];
    WordSplits(crc, lo, hi);
    ok := crc == Word(lo, hi);
    ghost var block := buffer[at..at + length + 2];
    assert block[..length] == buffer[at..at + length];
    assert block == block[..length] + [lo, hi];
  }

  method ValidateBodyCrc(buffer: array<Octet>, at: nat, n: nat) returns (ok: bool)
    requires at + UserDataSize(n) <= buffer.Length
    ensures ok == BodyOk(buffer[at..at + UserDataSize(n)], n)
  {
    hide IsCorrectCrc, UserDataSize;
    ghost var end := at + UserDataSize(n);
    var pos: nat, length: nat := at, n;
    SizeStep(n);
    while length > 0
      invariant pos + UserDataSize(length) == end
      invariant BodyOk(buffer[at..end], n) == BodyOk(buffer[pos..end], length)
      decreases length
    {
      SizeStep(length);
      var num := Least(length, BLOCK_SIZE);
      ghost var body := buffer[pos..end];
      assert body[..num + 2] == buffer[pos..pos + num + 2];
      assert body[num + 2..] == buffer[pos + num + 2..end];
      var good := CheckBlock(buffer, pos, num);
      if good {
        pos := pos + num + 2;
        length := length - num;
      } else {
        return false;
      }
    }
    SizeStep(0);
    return true;
  }

  /** The user data moves down over the frame it came in, in the same buffer. */
  method ReadUserData(buffer: array<Octet>, src: nat, dest: nat, n: nat)
    requires dest <= src && src + UserDataSize(n) <= buffer.Length
    modifies buffer
    ensures dest + n <= src + UserDataSize(n)
    ensures buffer[..] == Overlay(old(buffer[..]), dest, UserData(old(buffer[..])[src..src + UserDataSize(n)], n))
  {
    hide UserDataSize, UserData, Overlay;
    ghost var before := buffer[..];
    ghost var end := src + UserDataSize(n);
    ghost var data := UserData(before[src..end], n);
    ghost var done: seq<Octet> := [];
    var read: nat, write: nat, length: nat := src, dest, n;
    SizeStep(n);
    OverlayNothing(before, dest);
    while length > 0
      invariant read + UserDataSize(length) == end && write == dest + |done| && |done| + length == n && write <= read
      invariant data == done + UserData(before[read..end], length)
      invariant buffer[..] == Overlay(before, dest, done)
      decreases length
    {
      SizeStep(length);
      var num := Least(length, BLOCK_SIZE);
      UserDataStep(before[read..end], length);
      ghost var block := before[read..read + num];
      assert before[read..end][..num] == block;
      assert before[read..end][num + 2..] == before[read + num + 2..end];
      OverlayBehind(before, dest, done, read, read + num);
      OverlayTwice(before, dest, done, block);
      MoveDown(buffer, read, write, num);
      done := done + block;
      read := read + num + 2;
      write := write + num;
      length := length - num;
    }
    SizeStep(0);
    UserDataEmpty(before[read..end]);
    assert done == data;
  }

  lemma OverlayNothing(s: seq<Octet>, at: nat)
    requires at <= |s|
    ensures Overlay(s, at, []) == s
  {
  }

  lemma UserDataStep(body: seq<Octet>, n: nat)
    requires |body| == UserDataSize(n) && n > 0
    ensures var m := Least(n, BLOCK_SIZE);
      |body| >= m + 2 && |body[m + 2..]| == UserDataSize(n - m) &&
      UserData(body, n) == body[..m] + UserData(body[m + 2..], n - m)
  {
    SizeStep(n);
  }

  lemma UserDataEmpty(body: seq<Octet>)
    requires |body| == UserDataSize(0)
    ensures UserData(body, 0) == []
  {
  }

  /** `s` with `t` laid over it from `at` on. */
  function Overlay(s: seq<Octet>, at: nat, t: seq<Octet>): (r: seq<Octet>)
    requires at + |t| <= |s|
    ensures |r| == |s|
  {
    s[..at] + t + s[at + |t|..]
  }

  lemma OverlayTwice(s: seq<Octet>, at: nat, t: seq<Octet>, u: seq<Octet>)
    requires at + |t| + |u| <= |s|
    ensures Overlay(Overlay(s, at, t), at + |t|, u) == Overlay(s, at, t + u)
    ensures Overlay(s, at, t)[at + |t|..] == s[at + |t|..]
  {
  }

  lemma OverlayBehind(s: seq<Octet>, at: nat, t: seq<Octet>, from: nat, to: nat)
    requires at + |t| <= from <= to <= |s|
    ensures Overlay(s, at, t)[from..to] == s[from..to]
  {
  }

  /** memmove. */
  method MoveDown(buffer: array<Octet>, from: nat, to: nat, num: nat)
    requires to <= from && from + num <= buffer.Length
    modifies buffer
    ensures buffer[..] == Overlay(old(buffer[..]), to, old(buffer[..])[from..from + num])
  {
    hide Overlay;
    ghost var before := buffer[..];
    ghost var moved := before[from..from + num];
    forall k | 0 <= k < num { buffer[to + k] := buffer[from + k]; }
    forall i | 0 <= i < buffer.Length ensures buffer[i] == Overlay(before, to, moved)[i] {
      OverlayAt(before, to, moved, i);
      if to <= i < to + num {
        assert buffer[to + (i - to)] == before[from + (i - to)];
      }
    }
  }

  lemma OverlayAt(s: seq<Octet>, at: nat, t: seq<Octet>, i: nat)
    requires at + |t| <= |s| && i < |s|
    ensures Overlay(s, at, t)[i] == if at <= i < at + |t| then t[i - at] else s[i]
  {
  }

  method WriteUserData(data: seq<Octet>, buffer: array<Octet>, at: nat)
    requires at + UserDataSize(|data|) <= buffer.Length
    modifies buffer
    ensures buffer[..] == Overlay(old(buffer[..]), at, Blocks(data))
  {
    hide UserDataSize, WithCrc, Blocks, Overlay;
    ghost var before := buffer[..];
    ghost var written: seq<Octet> := [];
    var pos: nat, done: nat := at, 0;
    SizeStep(|data|);
    OverlayNothing(before, at);
    assert data[0..] == data;
    while done < |data|
      invariant done <= |data| && pos == at + |written|
      invariant pos + UserDataSize(|data| - done) <= buffer.Length
      invariant Blocks(data) == written + Blocks(data[done..])
      invariant buffer[..] == Overlay(before, at, written)
    {
      SizeStep(|data| - done);
      var num := Least(|data| - done, BLOCK_SIZE);
      var block := data[done..done + num];
      BlocksStep(data[done..]);
      assert data[done..][..num] == block && data[done..][num..] == data[done + num..];
      OverlayTwice(before, at, written, WithCrc(block));
      AddBlock(block, buffer, pos);
      written := written + WithCrc(block);
      pos := pos + num + 2;
      done := done + num;
    }
    SizeStep(0);
    assert written == Blocks(data);
  }

  lemma BlocksStep(data: seq<Octet>)
    requires data != []
    ensures var m := Least(|data|, BLOCK_SIZE);
      |WithCrc(data[..m])| == m + 2 && Blocks(data) == WithCrc(data[..m]) + Blocks(data[m..])
  {
    WithCrcSize(data[..Least(|data|, BLOCK_SIZE)]);
  }

  /** memcpy and CRC::AddCrc. */
  method AddBlock(block: seq<Octet>, buffer: array<Octet>, at: nat)
    requires at + |block| + 2 <= buffer.Length
    modifies buffer
    ensures buffer[..] == Overlay(old(buffer[..]), at, WithCrc(block))
  {
    hide Check, LowOctet, HighOctet;
    var crc := CalcCrc(block);
    forall k | 0 <= k < |block| { buffer[at + k] := block[k]; }
    buffer[at + |block|] := LowOctet(crc);
    buffer[at + |block| + 1] := HighOctet(crc);
  }

  /** FormatUnconfirmedUserData and its siblings: None when the data does not fit in a frame, or the header does not fit
      in the buffer. User data is written without a look at the buffer's length, so the caller has to provide for it. */
  method FormatFrame(f: Frame, buffer: array<Octet>) returns (size: Option<nat>)
    requires f.data != [] && |f.data| <= MAX_USER_DATA ==> buffer.Length >= FrameSize(|f.data|)
    modifies buffer
    ensures size == if |f.data| > MAX_USER_DATA || buffer.Length < HEADER_SIZE then None else Some(FrameSize(|f.data|))
    ensures size.Some? ==> size.value <= buffer.Length && buffer[..] == Overlay(old(buffer[..]), 0, Format(f))
    ensures size.None? ==> buffer[..] == old(buffer[..])
  {
    hide UserDataSize, Blocks, Control, LowOctet, HighOctet, Overlay;
    SizeStep(|f.data|);
    if |f.data| > MAX_USER_DATA {
      return None;
    }
    if buffer.Length < HEADER_SIZE {
      return None;
    }
    var x := f.fields;
    var header := [0x05, 0x64, (|f.data| + MIN_LENGTH) as Octet, Control(x),
                   LowOctet(x.dest), HighOctet(x.dest), LowOctet(x.src), HighOctet(x.src)];
    ghost var before := buffer[..];
    AddBlock(header, buffer, 0);
    WriteUserData(f.data, buffer, HEADER_SIZE);
    OverlayTwice(before, 0, HeaderOctets(x, |f.data|), Blocks(f.data));
    size := Some(FrameSize(|f.data|));
  }
}
