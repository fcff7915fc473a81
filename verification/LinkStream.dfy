/** The frames in a stream of octets, as LinkLayerParser finds them: cpp/lib/src/link/LinkLayerParser.cpp.

    `Deframe` reads a whole stream at once; LinkParser proves the incremental parser delivers the same
    frames however the stream is cut into reads. */
module LinkStream {
  import opened Crc
  import opened LinkFrame

  /** A frame whose header checks out has started and its body is still to come. */
  predicate Waiting(s: seq<Octet>) {
    |s| >= HEADER_SIZE && Synced(s) && HeaderOk(s) && |s| < FrameSize(DataLength(s))
  }

  /** Frames from the front; where none starts, one octet is given up. */
  function Deframe(s: seq<Octet>): seq<Frame>
    decreases |s|
  {
    if |s| < HEADER_SIZE || Waiting(s) then []
    else if Accepts(s) then [FrameOf(s)] + Deframe(s[FrameSize(DataLength(s))..])
    else Deframe(s[1..])
  }

  /** What has to be kept for the octets still to come. */
  function Residual(s: seq<Octet>): (r: seq<Octet>)
    ensures |r| < MAX_FRAME_SIZE
    decreases |s|
  {
    if |s| < HEADER_SIZE then s
    else if Waiting(s) then SizeStep(DataLength(s)); s
    else if Accepts(s) then Residual(s[FrameSize(DataLength(s))..])
    else Residual(s[1..])
  }

  // ---------------------------------------------------------------- more octets arriving

  lemma HeaderPrefix(s: seq<Octet>, t: seq<Octet>)
    requires |s| >= HEADER_SIZE
    ensures Synced(s + t) == Synced(s) && HeaderOk(s + t) == HeaderOk(s) && FieldsOf(s + t) == FieldsOf(s)
    ensures s[2] > 4 ==> DataLength(s + t) == DataLength(s)
  {
    hide IsCorrectCrc, FunctionOk, IsUserData, Word;
    assert (s + t)[..HEADER_SIZE] == s[..HEADER_SIZE];
  }

  lemma WholePrefix(s: seq<Octet>, t: seq<Octet>)
    requires Whole(s)
    ensures Whole(s + t) && BodyOf(s + t) == BodyOf(s) && Accepts(s + t) == Accepts(s)
    ensures FrameOf(s + t) == FrameOf(s) && DataLength(s + t) == DataLength(s)
  {
    hide HeaderOk, FieldsOf, BodyOk, UserData, UserDataSize;
    HeaderPrefix(s, t);
    HeaderLength(s);
    assert BodyOf(s + t) == BodyOf(s);
  }

  lemma HeaderLength(s: seq<Octet>)
    requires |s| >= HEADER_SIZE && HeaderOk(s)
    ensures s[2] > 4
  {
  }

  lemma NotWaiting(s: seq<Octet>, t: seq<Octet>)
    requires |s| >= HEADER_SIZE && !Waiting(s)
    ensures !Waiting(s + t) && Accepts(s + t) == Accepts(s)
    ensures Accepts(s) ==> FrameOf(s + t) == FrameOf(s) && DataLength(s + t) == DataLength(s)
  {
    hide HeaderOk, FieldsOf, BodyOk, UserData, UserDataSize;
    HeaderPrefix(s, t);
    if Synced(s) && HeaderOk(s) {
      HeaderLength(s);
      WholePrefix(s, t);
    }
  }

  /** Deframing can stop at any octet and go on from what it kept. */
  lemma {:induction false} DeframeSplits(s: seq<Octet>, t: seq<Octet>)
    ensures Deframe(s + t) == Deframe(s) + Deframe(Residual(s) + t)
    decreases |s|
  {
    hide Waiting, Accepts, FrameOf;
    if |s| < HEADER_SIZE || Waiting(s) {
    } else {
      NotWaiting(s, t);
      if Accepts(s) {
        var n := FrameSize(DataLength(s));
        AcceptedSize(s);
        assert (s + t)[n..] == s[n..] + t;
        DeframeSplits(s[n..], t);
      } else {
        assert (s + t)[1..] == s[1..] + t;
        DeframeSplits(s[1..], t);
      }
    }
  }

  lemma AcceptedSize(s: seq<Octet>)
    requires Accepts(s)
    ensures Whole(s) && HEADER_SIZE <= FrameSize(DataLength(s)) <= |s|
  {
  }

  lemma {:induction false} ResidualIsQuiet(s: seq<Octet>)
    ensures Deframe(Residual(s)) == [] && Residual(Residual(s)) == Residual(s)
    decreases |s|
  {
    hide Waiting, Accepts, FrameOf;
    if |s| < HEADER_SIZE || Waiting(s) {
    } else if Accepts(s) {
      AcceptedSize(s);
      ResidualIsQuiet(s[FrameSize(DataLength(s))..]);
    } else {
      ResidualIsQuiet(s[1..]);
    }
  }

  function Joined(chunks: seq<seq<Octet>>): seq<Octet> {
    if chunks == [] then [] else chunks[0] + Joined(chunks[1..])
  }

  /** Read by read, keeping the residual in between. */
  function ByChunks(kept: seq<Octet>, chunks: seq<seq<Octet>>): seq<Frame>
    decreases |chunks|
  {
    if chunks == [] then []
    else Deframe(kept + chunks[0]) + ByChunks(Residual(kept + chunks[0]), chunks[1..])
  }

  /** The frames delivered do not depend on how the stream was cut into reads. */
  lemma {:induction false} ChunksDoNotMatter(kept: seq<Octet>, chunks: seq<seq<Octet>>)
    requires Deframe(kept) == []
    ensures ByChunks(kept, chunks) == Deframe(kept + Joined(chunks))
    decreases |chunks|
  {
    hide Deframe, Residual;
    if chunks == [] {
      assert kept + Joined(chunks) == kept;
    } else {
      var s := kept + chunks[0];
      DeframeSplits(s, Joined(chunks[1..]));
      ResidualIsQuiet(s);
      ChunksDoNotMatter(Residual(s), chunks[1..]);
      assert kept + Joined(chunks) == s + Joined(chunks[1..]);
    }
  }

  // ---------------------------------------------------------------- streams that stations send

  /** A frame is found where it starts. */
  lemma FrameIsFound(f: Frame, rest: seq<Octet>)
    requires WellFormed(f)
    ensures Deframe(Format(f) + rest) == [f] + Deframe(rest)
    ensures Residual(Format(f) + rest) == Residual(rest)
  {
    hide Accepts, FrameOf, FunctionOk, IsUserData;
    FormatIsAccepted(f, rest);
    AcceptedSize(Format(f) + rest);
  }

  predicate AllWellFormed(frames: seq<Frame>) { forall i | 0 <= i < |frames| :: WellFormed(frames[i]) }

  function FormatAll(frames: seq<Frame>): seq<Octet>
    requires AllWellFormed(frames)
  {
    if frames == [] then [] else Format(frames[0]) + FormatAll(frames[1..])
  }

  /** Every frame sent is delivered, once, in order, and nothing is kept back. */
  lemma {:induction false} StreamRoundTrip(frames: seq<Frame>, rest: seq<Octet>)
    requires AllWellFormed(frames)
    ensures Deframe(FormatAll(frames) + rest) == frames + Deframe(rest)
    ensures Residual(FormatAll(frames) + rest) == Residual(rest)
    decreases |frames|
  {
    hide FunctionOk, IsUserData, Format, Deframe, Residual;
    if frames == [] {
      assert FormatAll(frames) + rest == rest;
    } else {
      var others := FormatAll(frames[1..]) + rest;
      assert FormatAll(frames) + rest == Format(frames[0]) + others;
      FrameIsFound(frames[0], others);
      StreamRoundTrip(frames[1..], rest);
    }
  }

  predicate PairAt(s: seq<Octet>, i: nat) { i + 1 < |s| && s[i] == 0x05 && s[i + 1] == 0x64 }

  /** Octets that hold no start pair are skipped without losing the frame behind them. */
  lemma {:induction false} NoiseIsSkipped(noise: seq<Octet>, f: Frame, rest: seq<Octet>)
    requires WellFormed(f)
    requires forall i: nat :: !PairAt(noise, i)
    ensures Deframe(noise + Format(f) + rest) == [f] + Deframe(rest)
    decreases |noise|
  {
    hide FunctionOk, IsUserData, Accepts, Deframe, Format;
    var s := noise + Format(f) + rest;
    if noise == [] {
      assert s == Format(f) + rest;
      FrameIsFound(f, rest);
    } else {
      FormatStarts(f);
      assert !PairAt(noise, 0);
      GivenUp(s);
      assert s[1..] == noise[1..] + Format(f) + rest;
      forall i: nat ensures !PairAt(noise[1..], i) {
        assert !PairAt(noise, i + 1);
      }
      NoiseIsSkipped(noise[1..], f, rest);
    }
  }

  lemma FormatStarts(f: Frame)
    requires WellFormed(f)
    ensures |Format(f)| >= HEADER_SIZE && Format(f)[0] == 0x05
  {
    hide Check, LowOctet, HighOctet, Control, FunctionOk, IsUserData, Blocks;
  }

  lemma GivenUp(s: seq<Octet>)
    requires |s| >= HEADER_SIZE && !(Synced(s) && HeaderOk(s))
    ensures Deframe(s) == Deframe(s[1..]) && !Accepts(s)
  {
    hide HeaderOk;
  }

  // ---------------------------------------------------------------- damaged frames

  /** Damage the check is sure to catch: a burst of at most sixteen bits, up to three flips, or an odd number of them. */
  ghost predicate Caught(e: seq<bool>, lo: nat) { Burst(e, lo) || 1 <= Ones(e) <= 3 || OddBits(e) }

  /** A header with such damage is given up. */
  lemma DamagedHeader(f: Frame, got: seq<Octet>, lo: nat)
    requires WellFormed(f) && |got| >= HEADER_SIZE
    requires Caught(Difference(BitsOf(HeaderOctets(f.fields, |f.data|)), BitsOf(got[..HEADER_SIZE])), lo)
    ensures Deframe(got) == Deframe(got[1..])
  {
    hide FunctionOk, IsUserData, Deframe, Difference, BitsOf, Caught;
    var h := HeaderOctets(f.fields, |f.data|);
    HeaderIsCorrect(f);
    Damaged(h, got[..HEADER_SIZE], lo);
    GivenUp(got);
  }

  lemma HeaderIsCorrect(f: Frame)
    requires WellFormed(f)
    ensures IsCorrectCrc(HeaderOctets(f.fields, |f.data|))
  {
    hide Check, LowOctet, HighOctet, Control, FunctionOk, IsUserData;
    var h := HeaderOctets(f.fields, |f.data|);
    assert h == WithCrc(h[..8]);
  }

  lemma Damaged(sent: seq<Octet>, got: seq<Octet>, lo: nat)
    requires IsCorrectCrc(sent) && |got| == |sent| <= 18
    requires Caught(Difference(BitsOf(sent), BitsOf(got)), lo)
    ensures !IsCorrectCrc(got)
  {
    hide IsCorrectCrc, Burst, OddBits, Difference, BitsOf, Ones;
    if OddBits(Difference(BitsOf(sent), BitsOf(got))) {
      OddErrorIsRejected(sent, got);
    } else if 1 <= Ones(Difference(BitsOf(sent), BitsOf(got))) <= 3 {
      FewErrorsAreRejected(sent, got);
    } else {
      BurstIsRejected(sent, got, lo);
    }
  }

  /** The k-th block of a body of n octets of user data. */
  function BlockOf(body: seq<Octet>, n: nat, k: nat): (b: seq<Octet>)
    requires |body| == UserDataSize(n) && 16 * k < n
    ensures |b| == Least(n - 16 * k, BLOCK_SIZE) + 2
    decreases k
  {
    SizeStep(n);
    var m := Least(n, BLOCK_SIZE);
    if k == 0 then body[..m + 2] else BlockOf(body[m + 2..], n - m, k - 1)
  }

  lemma {:induction false} EveryBlockChecked(body: seq<Octet>, n: nat, k: nat)
    requires |body| == UserDataSize(n) && 16 * k < n && BodyOk(body, n)
    ensures IsCorrectCrc(BlockOf(body, n, k))
    decreases k
  {
    hide IsCorrectCrc;
    SizeStep(n);
    var m := Least(n, BLOCK_SIZE);
    if k == 0 {
    } else {
      EveryBlockChecked(body[m + 2..], n - m, k - 1);
    }
  }

  /** So is a frame with such damage in any one of its body blocks. */
  lemma DamagedBody(f: Frame, got: seq<Octet>, k: nat, lo: nat)
    requires WellFormed(f) && 16 * k < |f.data| && Whole(got) && DataLength(got) == |f.data|
    requires
      var sent, body := BlockOf(Blocks(f.data), |f.data|, k), BlockOf(BodyOf(got), |f.data|, k);
      Caught(Difference(BitsOf(sent), BitsOf(body)), lo)
    ensures Deframe(got) == Deframe(got[1..])
  {
    hide FunctionOk, IsUserData, Difference, BitsOf, Caught, BlockOf, BodyOf, HeaderOk, UserDataSize, Blocks,
      BodyOk, IsCorrectCrc, UserData;
    var n := |f.data|;
    BlocksRead(f.data);
    BodyIsBlocks(Blocks(f.data), n);
    EveryBlockChecked(Blocks(f.data), n, k);
    Damaged(BlockOf(Blocks(f.data), n, k), BlockOf(BodyOf(got), n, k), lo);
    if BodyOk(BodyOf(got), n) {
      EveryBlockChecked(BodyOf(got), n, k);
    }
  }

  /** Whatever octets arrive, only frames of these function codes, each with its rule for FCV or FCB, are ever delivered. */
  lemma {:induction false} OnlyTheseFrames(s: seq<Octet>, f: Frame)
    requires f in Deframe(s)
    ensures
      var x := f.fields;
      && (|| ((x.func == 0x42 || x.func == 0x43) && x.fcvdfc)
          || ((x.func == 0x40 || x.func == 0x44 || x.func == 0x49) && !x.fcvdfc)
          || ((x.func == 0x00 || x.func == 0x01 || x.func == 0x0B || x.func == 0x0F) && !x.fcb))
      && |f.data| <= 250 && (f.data != [] <==> x.func == 0x43 || x.func == 0x44)
    decreases |s|
  {
    hide Accepts, FrameOf, Waiting;
    if Accepts(s) {
      AcceptedSize(s);
      if f == FrameOf(s) {
        AcceptedIsFormat(s);
      } else {
        OnlyTheseFrames(s[FrameSize(DataLength(s))..], f);
      }
    } else {
      OnlyTheseFrames(s[1..], f);
    }
  }
}
