/** The incremental parser and its buffer: cpp/lib/src/link/LinkLayerParser.{h,cpp} and ShiftableBuffer.{h,cpp}. */
module LinkParser {
  import opened Crc
  import opened LinkFrame
  import opened LinkStream

  // ---------------------------------------------------------------- the buffer

  class ShiftableBuffer {
    const octets: array<Octet>
    var writePos: nat
    var readPos: nat

    ghost predicate Valid()
      reads this
    {
      readPos <= writePos <= octets.Length
    }

    ghost function Unread(): (s: seq<Octet>)
      reads this, octets
      requires Valid()
      ensures |s| == writePos - readPos
    {
      octets[readPos..writePos]
    }

    constructor (octets: array<Octet>)
      ensures Valid() && this.octets == octets && Unread() == []
    {
      this.octets := octets;
      writePos, readPos := 0, 0;
    }

    method Reset()
      requires Valid()
      modifies this
      ensures Valid() && Unread() == [] && writePos == 0
    {
      writePos, readPos := 0, 0;
    }

    /** Unread octets move to the front. */
    method Shift()
      requires Valid()
      modifies this, octets
      ensures Valid() && Unread() == old(Unread()) && readPos == 0
    {
      var num := writePos - readPos;
      ghost var before := octets[..];
      MoveDown(octets, readPos, 0, num);
      assert octets[..num] == octets[..][..num] == before[readPos..readPos + num];
      assert before[readPos..readPos + num] == old(octets[readPos..writePos]);
      readPos, writePos := 0, num;
    }

    method AdvanceRead(n: nat)
      requires Valid() && n <= |Unread()|
      modifies this`readPos
      ensures Valid() && readPos == old(readPos) + n && Unread() == old(Unread())[n..]
    {
      readPos := readPos + n;
    }

    method AdvanceWrite(n: nat)
      requires Valid() && writePos + n <= octets.Length
      modifies this`writePos
      ensures Valid() && writePos == old(writePos) + n && Unread() == octets[readPos..writePos]
    {
      writePos := writePos + n;
    }

    /** Skips to the first start pair; without one, all but the last octet goes. */
    method Sync() returns (found: bool)
      requires Valid()
      modifies this`readPos
      ensures Valid() && old(readPos) <= readPos
      ensures found == Synced(Unread())
      ensures !found ==> |Unread()| <= 1
      ensures |old(Unread())| >= 1 ==> |Unread()| >= 1
      ensures Unread() == old(Unread())[readPos - old(readPos)..]
      ensures forall i | 0 <= i < readPos - old(readPos) :: !PairAt(old(Unread()), i)
    {
      ghost var before, start := Unread(), readPos;
      while writePos - readPos > 1
        invariant start <= readPos <= writePos && (|before| >= 1 ==> readPos < writePos)
        invariant forall i | 0 <= i < readPos - start :: !PairAt(before, i)
      {
        assert before[readPos - start] == octets[readPos] && before[readPos - start + 1] == octets[readPos + 1];
        if octets[readPos] == 0x05 && octets[readPos + 1] == 0x64 {
          break;
        }
        assert !PairAt(before, readPos - start);
        readPos := readPos + 1;
      }
      found := writePos - readPos > 1;
    }
  }

  // ---------------------------------------------------------------- streams with the same future

  /** Whatever arrives next, `u` leads to the same frames as `s` once `frames` are delivered. */
  ghost predicate Continues(s: seq<Octet>, frames: seq<Frame>, u: seq<Octet>) {
    forall t: seq<Octet> :: Deframe(s + t) == frames + Deframe(u + t)
  }

  lemma ContinuesSelf(s: seq<Octet>)
    ensures Continues(s, [], s)
  {
  }

  lemma ContinuesThrough(s: seq<Octet>, fs: seq<Frame>, u: seq<Octet>, gs: seq<Frame>, v: seq<Octet>)
    requires Continues(s, fs, u) && Continues(u, gs, v)
    ensures Continues(s, fs + gs, v)
  {
    hide Deframe;
    forall t: seq<Octet> ensures Deframe(s + t) == (fs + gs) + Deframe(v + t) {
      assert Deframe(s + t) == fs + Deframe(u + t);
      assert Deframe(u + t) == gs + Deframe(v + t);
    }
  }

  lemma ContinuesNow(s: seq<Octet>, frames: seq<Frame>, u: seq<Octet>)
    requires Continues(s, frames, u)
    ensures Deframe(s) == frames + Deframe(u)
  {
    hide Deframe;
    assert s + [] == s && u + [] == u;
  }

  /** One octet is given up: not a start pair, or a frame that failed its checks. */
  lemma ContinuesFail(s: seq<Octet>)
    requires |s| >= 2 && (!Synced(s) || (|s| >= HEADER_SIZE && !Waiting(s) && !Accepts(s)))
    ensures Continues(s, [], s[1..])
  {
    hide Waiting, Accepts, HeaderOk, FrameOf;
    forall t: seq<Octet> ensures Deframe(s + t) == [] + Deframe(s[1..] + t) {
      assert (s + t)[1..] == s[1..] + t;
      if |s + t| >= HEADER_SIZE {
        if !Synced(s) {
          GivenUp(s + t);
        } else {
          NotWaiting(s, t);
        }
      }
    }
  }

  lemma ContinuesFrame(s: seq<Octet>)
    requires Accepts(s)
    ensures Whole(s) && Continues(s, [FrameOf(s)], s[FrameSize(DataLength(s))..])
  {
    hide HeaderOk, BodyOk, UserData, FieldsOf, UserDataSize;
    AcceptedSize(s);
    var n := FrameSize(DataLength(s));
    forall t: seq<Octet> ensures Deframe(s + t) == [FrameOf(s)] + Deframe(s[n..] + t) {
      assert (s + t)[n..] == s[n..] + t;
      WholePrefix(s, t);
    }
  }

  lemma {:induction false} ContinuesSkip(s: seq<Octet>, k: nat)
    requires k <= |s| - 1 && forall i | 0 <= i < k :: !PairAt(s, i)
    ensures Continues(s, [], s[k..])
    decreases k
  {
    hide Deframe, Continues;
    if k == 0 {
      assert s[0..] == s;
      ContinuesSelf(s);
    } else {
      ContinuesSkip(s, k - 1);
      var u := s[k - 1..];
      assert !PairAt(s, k - 1);
      ContinuesFail(u);
      assert u[1..] == s[k..];
      ContinuesThrough(s, [], u, [], u[1..]);
      var none: seq<Frame> := [];
      assert none + none == none;
    }
  }

  // ---------------------------------------------------------------- the parser

  datatype State = FindSync | ReadHeader | ReadBody | Complete

  function Rank(state: State): nat {
    match state
    case FindSync => 3
    case ReadHeader => 2
    case ReadBody => 1
    case Complete => 0
  }

  /** What the state says of the header last read and of the unread octets. */
  ghost predicate Consistent(state: State, x: Fields, n: nat, frameSize: nat, u: seq<Octet>) {
    match state
    case FindSync => true
    case ReadHeader => Synced(u)
    case ReadBody => |u| >= HEADER_SIZE && Synced(u) && HeaderOk(u) && HeaderIs(x, n, frameSize, u)
    case Complete => HEADER_SIZE <= frameSize <= |u| && n <= MAX_USER_DATA
  }

  ghost predicate HeaderIs(x: Fields, n: nat, frameSize: nat, u: seq<Octet>)
    requires |u| >= HEADER_SIZE && HeaderOk(u)
  {
    x == FieldsOf(u) && n == DataLength(u) && frameSize == FrameSize(n)
  }

  /** No frame can come out of the unread octets before more arrive. */
  ghost predicate Stuck(state: State, frameSize: nat, u: seq<Octet>) {
    match state
    case FindSync => |u| < HEADER_SIZE
    case ReadHeader => |u| < HEADER_SIZE
    case ReadBody => |u| < frameSize
    case Complete => false
  }

  lemma StuckIsQuiet(state: State, x: Fields, n: nat, frameSize: nat, u: seq<Octet>)
    requires Consistent(state, x, n, frameSize, u) && Stuck(state, frameSize, u)
    ensures Deframe(u) == [] && |u| < MAX_FRAME_SIZE
  {
    hide HeaderOk, UserDataSize, FieldsOf;
    if state == ReadBody {
      SizeStep(DataLength(u));
    }
  }

  class LinkLayerParser {
    const rxBuffer: array<Octet>
    const buffer: ShiftableBuffer
    var state: State
    var frameSize: nat
    var fields: Fields
    var dataLength: nat

    ghost predicate Valid()
      reads this, buffer
    {
      rxBuffer.Length == MAX_FRAME_SIZE && buffer.octets == rxBuffer && buffer.Valid()
    }

    ghost predicate Ready()
      reads this, buffer, rxBuffer
    {
      Valid() && Consistent(state, fields, dataLength, frameSize, buffer.Unread())
    }

    constructor ()
      ensures Ready() && state == FindSync && buffer.Unread() == [] && fresh(rxBuffer) && fresh(buffer)
    {
      var octets := new Octet[MAX_FRAME_SIZE];
      rxBuffer := octets;
      buffer := new ShiftableBuffer(octets);
      state, frameSize, dataLength := FindSync, 0, 0;
      fields := Fields(0, false, false, false, 0, 0);
    }

    method Reset()
      requires Valid()
      modifies this, buffer
      ensures Ready() && state == FindSync && buffer.Unread() == []
    {
      state, frameSize := FindSync, 0;
      buffer.Reset();
    }

    /** The frame the sink is given in state Complete: the user data lies at the front of the buffer. */
    ghost function Delivered(): Frame
      reads this, rxBuffer
      requires dataLength <= rxBuffer.Length
    {
      Frame(fields, rxBuffer[..dataLength])
    }

    /** The outcome of one step taken in `state` with `u` unread: no octet that matters is lost, and the
        parser either moves on or cannot. */
    ghost predicate Progress(next: State, u: seq<Octet>)
      reads this, buffer, rxBuffer
    {
      Valid() && Consistent(next, fields, dataLength, frameSize, buffer.Unread()) &&
      |buffer.Unread()| <= |u| &&
      (next == state ==> Stuck(state, frameSize, buffer.Unread())) &&
      (next == state || |buffer.Unread()| < |u| || Rank(next) < Rank(state)) &&
      if next == Complete then Continues(u, [Delivered()], buffer.Unread()[frameSize..])
      else Continues(u, [], buffer.Unread())
    }

    method ParseSync() returns (next: State)
      requires Ready() && state == FindSync
      modifies buffer`readPos
      ensures Progress(next, old(buffer.Unread())) && next != Complete
    {
      hide Deframe, Continues;
      ghost var u := buffer.Unread();
      ContinuesSelf(u);
      if buffer.writePos - buffer.readPos >= 10 {
        var found := buffer.Sync();
        ContinuesSkip(u, |u| - |buffer.Unread()|);
        return if found then ReadHeader else FindSync;
      }
      return FindSync;
    }

    /** LinkHeader::Read. */
    method ReadFields()
      requires Valid() && |buffer.Unread()| >= HEADER_SIZE
      modifies this`fields
      ensures fields == FieldsOf(buffer.Unread())
    {
      hide Word;
      var at := buffer.readPos;
      var c := rxBuffer[at + 3];
      fields := Fields(c & 0x4F, c & 0x80 != 0, c & 0x20 != 0, c & 0x10 != 0,
        Word(rxBuffer[at + 4], rxBuffer[at + 5]), Word(rxBuffer[at + 6], rxBuffer[at + 7]));
    }

    /** ValidateHeaderParameters. */
    method ValidateParameters(length: Octet) returns (ok: bool)
      modifies this`dataLength, this`frameSize
      ensures ok == ParametersOk(fields, length)
      ensures ok ==> dataLength == (length as int) - MIN_LENGTH && frameSize == FrameSize(dataLength)
    {
      hide FunctionOk, UserDataSize;
      if length <= 4 || !FunctionOk(fields.func, fields.fcb, fields.fcvdfc) {
        return false;
      }
      OctetLength(length);
      dataLength := (length as int) - MIN_LENGTH;
      frameSize := FrameSize(dataLength);
      var shouldHavePayload := fields.func == 0x43 || fields.func == 0x44;
      ok := shouldHavePayload == (dataLength > 0);
    }

    /** ReadHeader. */
    method CheckHeader() returns (ok: bool)
      requires Valid() && |buffer.Unread()| >= HEADER_SIZE
      modifies this`fields, this`dataLength, this`frameSize
      ensures ok == HeaderOk(buffer.Unread())
      ensures ok ==> HeaderIs(fields, dataLength, frameSize, buffer.Unread())
    {
      hide IsCorrectCrc, ParametersOk, UserDataSize, FieldsOf;
      ghost var u := buffer.Unread();
      var at := buffer.readPos;
      ReadFields();
      assert rxBuffer[at..at + 8 + 2] == u[..HEADER_SIZE];
      ok := CheckBlock(rxBuffer, at, 8);
      if ok {
        ok := ValidateParameters(rxBuffer[at + 2]);
      }
    }

    method ParseHeader() returns (next: State)
      requires Ready() && state == ReadHeader
      modifies this`fields, this`dataLength, this`frameSize, buffer`readPos
      ensures Progress(next, old(buffer.Unread())) && next != Complete
    {
      hide Deframe, Continues, HeaderOk, FieldsOf, UserDataSize;
      ghost var u := buffer.Unread();
      ContinuesSelf(u);
      if buffer.writePos - buffer.readPos >= 10 {
        var ok := CheckHeader();
        if ok {
          return ReadBody;
        }
        ContinuesFail(u);
        buffer.AdvanceRead(1);
        return FindSync;
      }
      return ReadHeader;
    }

    /** TransferUserData: the user data is copied to the front of the buffer, over octets no longer needed. */
    method TransferUserData()
      requires Ready() && state == ReadBody && Accepts(buffer.Unread())
      modifies rxBuffer
      ensures Valid() && Delivered() == FrameOf(old(buffer.Unread()))
      ensures frameSize <= |buffer.Unread()| && buffer.Unread()[frameSize..] == old(buffer.Unread())[frameSize..]
    {
      hide UserDataSize, UserData, HeaderOk, BodyOk, FieldsOf;
      ghost var u, before := buffer.Unread(), rxBuffer[..];
      var at := buffer.readPos + HEADER_SIZE;
      SizeStep(dataLength);
      ReadUserData(rxBuffer, at, 0, dataLength);
      Transferred(before, buffer.readPos, buffer.writePos, u, rxBuffer[..]);
      assert rxBuffer[..dataLength] == rxBuffer[..][..dataLength];
      assert buffer.Unread()[frameSize..] == rxBuffer[..][buffer.readPos + frameSize..buffer.writePos];
    }

    method ParseBody() returns (next: State)
      requires Ready() && state == ReadBody
      modifies buffer`readPos, rxBuffer
      ensures Progress(next, old(buffer.Unread()))
    {
      hide Deframe, Continues, HeaderOk, FieldsOf, UserDataSize, BodyOk, UserData;
      ghost var u := buffer.Unread();
      ContinuesSelf(u);
      if buffer.writePos - buffer.readPos < frameSize {
        return ReadBody;
      }
      var at := buffer.readPos + HEADER_SIZE;
      BodyAt(rxBuffer[..], buffer.readPos, buffer.writePos, u);
      assert rxBuffer[at..at + UserDataSize(dataLength)] == rxBuffer[..][at..at + UserDataSize(dataLength)];
      var ok := ValidateBodyCrc(rxBuffer, at, dataLength);
      if ok {
        ContinuesFrame(u);
        TransferUserData();
        return Complete;
      }
      ContinuesFail(u);
      buffer.AdvanceRead(1);
      return FindSync;
    }

    method ParseOneStep() returns (next: State)
      requires Ready()
      modifies this`fields, this`dataLength, this`frameSize, buffer`readPos, rxBuffer
      ensures state != Complete ==> Progress(next, old(buffer.Unread()))
      ensures state == Complete ==> next == Complete && unchanged(this) && unchanged(buffer) && unchanged(rxBuffer)
    {
      match state
      case FindSync => next := ParseSync();
      case ReadHeader => next := ParseHeader();
      case ReadBody => next := ParseBody();
      case Complete => next := Complete;
    }

    /** The parser has come from `u` to where it is, with a frame in hand in state Complete. */
    ghost predicate CameFrom(u: seq<Octet>)
      reads this, buffer, rxBuffer
    {
      Ready() && |buffer.Unread()| <= |u| &&
      if state == Complete then Continues(u, [Delivered()], buffer.Unread()[frameSize..])
      else Continues(u, [], buffer.Unread())
    }

    ghost predicate Settled()
      reads this, buffer, rxBuffer
    {
      Ready() && (state == Complete || Stuck(state, frameSize, buffer.Unread()))
    }

    /** One pass of the loop in ParseUntilComplete. */
    method TakeStep(ghost u: seq<Octet>)
      requires CameFrom(u)
      modifies this, buffer`readPos, rxBuffer
      ensures CameFrom(u) && |buffer.Unread()| <= |old(buffer.Unread())|
      ensures state == old(state) ==> Settled()
      ensures state == old(state) || |buffer.Unread()| < |old(buffer.Unread())| || Rank(state) < Rank(old(state))
    {
      hide Deframe, Continues, HeaderOk, FieldsOf, UserDataSize, BodyOk, UserData;
      ghost var v := buffer.Unread();
      var next := ParseOneStep();
      if state != Complete {
        if next == Complete {
          ContinuesOn(u, v, [Delivered()], buffer.Unread()[frameSize..]);
        } else {
          ContinuesOn(u, v, [], buffer.Unread());
        }
      }
      state := next;
    }

    method ParseUntilComplete()
      requires Ready() && state != Complete
      modifies this, buffer`readPos, rxBuffer
      ensures CameFrom(old(buffer.Unread())) && Settled()
    {
      hide Deframe, Continues, HeaderOk, FieldsOf, UserDataSize, BodyOk, UserData, Stuck, Consistent;
      ghost var u := buffer.Unread();
      ContinuesSelf(u);
      var last := state;
      TakeStep(u);
      while state != last
        invariant CameFrom(u) && (state == last ==> Settled())
        decreases |buffer.Unread()|, Rank(state), state != last
      {
        last := state;
        TakeStep(u);
      }
    }

    /** PushFrame: what the sink is given. */
    method PushFrame(ghost u: seq<Octet>) returns (frame: Frame)
      requires CameFrom(u) && state == Complete
      modifies buffer`readPos
      ensures Valid() && Continues(u, [frame], buffer.Unread()) && |buffer.Unread()| < |u|
    {
      hide Deframe, Continues;
      frame := Frame(fields, rxBuffer[..dataLength]);
      buffer.AdvanceRead(frameSize);
    }

    /** OnRead: numBytes more octets lie behind the unread ones. The frames given to the sink are those the
        octets hold, what is kept decides the rest of the stream, and there is always room for more. */
    method OnRead(numBytes: nat) returns (frames: seq<Frame>)
      requires Ready() && state != Complete && buffer.writePos + numBytes <= MAX_FRAME_SIZE
      modifies this, buffer, rxBuffer
      ensures Ready() && state != Complete
      ensures frames == Deframe(old(rxBuffer[buffer.readPos..buffer.writePos + numBytes]))
      ensures Continues(old(rxBuffer[buffer.readPos..buffer.writePos + numBytes]), frames, buffer.Unread())
      ensures Deframe(buffer.Unread()) == []
      ensures buffer.readPos == 0 && buffer.writePos < MAX_FRAME_SIZE
    {
      hide Deframe, Continues, HeaderOk, FieldsOf, UserDataSize, BodyOk, UserData;
      ghost var before := buffer.Unread();
      buffer.AdvanceWrite(numBytes);
      ghost var s := buffer.Unread();
      ghost var u := s;
      frames := [];
      ContinuesSelf(s);
      StillConsistent(state, fields, dataLength, frameSize, before, s);
      ParseUntilComplete();
      while state == Complete
        invariant CameFrom(u) && Settled() && Continues(s, frames, u)
        decreases |u|
      {
        var frame := PushFrame(u);
        ContinuesThrough(s, frames, u, [frame], buffer.Unread());
        frames := frames + [frame];
        state := FindSync;
        u := buffer.Unread();
        ParseUntilComplete();
      }
      ContinuesThrough(s, frames, u, [], buffer.Unread());
      assert frames + [] == frames;
      ContinuesNow(s, frames, buffer.Unread());
      StuckIsQuiet(state, fields, dataLength, frameSize, buffer.Unread());
      buffer.Shift();
    }
  }

  lemma ContinuesOn(u: seq<Octet>, v: seq<Octet>, gs: seq<Frame>, w: seq<Octet>)
    requires Continues(u, [], v) && Continues(v, gs, w)
    ensures Continues(u, gs, w)
  {
    hide Deframe, Continues;
    ContinuesThrough(u, [], v, gs, w);
    assert [] + gs == gs;
  }

  lemma StillConsistent(state: State, x: Fields, n: nat, frameSize: nat, u: seq<Octet>, s: seq<Octet>)
    requires state != Complete && Consistent(state, x, n, frameSize, u) && u <= s
    ensures Consistent(state, x, n, frameSize, s)
  {
    hide HeaderOk, FieldsOf, UserDataSize;
    if state == ReadBody {
      HeaderPrefix(u, s[|u|..]);
      HeaderLength(u);
      assert u + s[|u|..] == s;
    }
  }

  lemma SliceOfSlice(s: seq<Octet>, a: nat, b: nat, c: nat, d: nat)
    requires a <= b <= |s| && c <= d <= b - a
    ensures s[a..b][c..d] == s[a + c..a + d]
  {
    var t := s[a..b];
    assert |t[c..d]| == |s[a + c..a + d]| == d - c;
    forall i | 0 <= i < d - c ensures t[c..d][i] == s[a + c..a + d][i] {
      assert t[c..d][i] == t[c + i] == s[a + (c + i)];
    }
  }

  lemma BodyAt(octets: seq<Octet>, readPos: nat, writePos: nat, u: seq<Octet>)
    requires readPos <= writePos <= |octets| && u == octets[readPos..writePos] && Whole(u)
    ensures var at := readPos + HEADER_SIZE;
      var end := at + UserDataSize(DataLength(u));
      end <= |octets| && octets[at..end] == BodyOf(u)
  {
    hide UserDataSize, HeaderOk;
    var n := FrameSize(DataLength(u));
    SliceOfSlice(octets, readPos, writePos, HEADER_SIZE, n);
  }

  lemma Transferred(before: seq<Octet>, readPos: nat, writePos: nat, u: seq<Octet>, after: seq<Octet>)
    requires readPos <= writePos <= |before| && u == before[readPos..writePos] && Accepts(u)
    requires var at := readPos + HEADER_SIZE;
      var n := DataLength(u);
      n <= at + UserDataSize(n) <= |before| &&
      after == Overlay(before, 0, UserData(before[at..at + UserDataSize(n)], n))
    ensures var n := DataLength(u);
      after[..n] == UserData(BodyOf(u), n) &&
      after[readPos + FrameSize(n)..writePos] == u[FrameSize(n)..]
  {
    hide UserDataSize, UserData, HeaderOk, BodyOk;
    var at, n := readPos + HEADER_SIZE, DataLength(u);
    BodyAt(before, readPos, writePos, u);
    OverlayBehind(before, 0, UserData(BodyOf(u), n), readPos + FrameSize(n), writePos);
  }

  // ---------------------------------------------------------------- a whole connection

  lemma ContinuesAfter(s: seq<Octet>, frames: seq<Frame>, u: seq<Octet>, c: seq<Octet>)
    requires Continues(s, frames, u)
    ensures Continues(s + c, frames, u + c)
  {
    hide Deframe;
    forall t: seq<Octet> ensures Deframe(s + c + t) == frames + Deframe(u + c + t) {
      assert s + c + t == s + (c + t) && u + c + t == u + (c + t);
    }
  }

  lemma DeframeNothing()
    ensures Deframe([]) == []
  {
  }

  /** The octets of one read, as the operating system puts them in WriteBuff. */
  method Fill(parser: LinkLayerParser, chunk: seq<Octet>)
    requires parser.Ready() && parser.buffer.writePos + |chunk| <= MAX_FRAME_SIZE
    modifies parser.rxBuffer
    ensures parser.Ready() && parser.buffer.Unread() == old(parser.buffer.Unread())
    ensures parser.rxBuffer[parser.buffer.readPos..parser.buffer.writePos + |chunk|] == old(parser.buffer.Unread()) + chunk
  {
    hide Consistent;
    var at := parser.buffer.writePos;
    forall k | 0 <= k < |chunk| { parser.rxBuffer[at + k] := chunk[k]; }
    assert parser.buffer.Unread() == old(parser.buffer.Unread());
  }

  /** What the channel does with a parser just reset: it reads into WriteBuff, as many octets at a time as
      happen to be there, and calls OnRead. However the reads fall, the sink gets the frames of the stream. */
  method ReadStream(parser: LinkLayerParser, stream: seq<Octet>) returns (frames: seq<Frame>)
    requires parser.Ready() && parser.state == FindSync && parser.buffer.Unread() == []
    requires parser.buffer.writePos < MAX_FRAME_SIZE
    modifies parser, parser.buffer, parser.rxBuffer
    ensures frames == Deframe(stream)
  {
    hide Deframe, Continues, Consistent;
    var done := 0;
    frames := [];
    ContinuesSelf([]);
    DeframeNothing();
    while done < |stream|
      invariant done <= |stream|
      invariant parser.Ready() && parser.state != Complete && parser.buffer.writePos < MAX_FRAME_SIZE
      invariant Continues(stream[..done], frames, parser.buffer.Unread()) && Deframe(parser.buffer.Unread()) == []
    {
      var n: nat :| 1 <= n <= |stream| - done && parser.buffer.writePos + n <= MAX_FRAME_SIZE;
      var chunk := stream[done..done + n];
      ghost var kept := parser.buffer.Unread();
      Fill(parser, chunk);
      ghost var s := parser.rxBuffer[parser.buffer.readPos..parser.buffer.writePos + n];
      var more := parser.OnRead(n);
      ContinuesAfter(stream[..done], frames, kept, chunk);
      assert stream[..done + n] == stream[..done] + chunk;
      ContinuesThrough(stream[..done + n], frames, s, more, parser.buffer.Unread());
      frames := frames + more;
      done := done + n;
    }
    assert stream[..done] == stream;
    ContinuesNow(stream, frames, parser.buffer.Unread());
  }
}
