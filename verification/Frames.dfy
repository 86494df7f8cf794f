/**
  src/proto.rs: frames of `[tag][length, four bytes big-endian][body]`, written
  whole and picked out of reads that fall anywhere.
 */
module Frames {
  import opened Bytes
  import opened Wrappers

  const MAX_FRAME: nat := 0x10_0000
  const HEAD: nat := 5

  datatype Frame = Frame(tag: Byte, body: Bytes)

  predicate Fits(f: Frame) {
    |f.body| <= MAX_FRAME
  }

  // ----- Writing -----

  function BigEndian(n: nat): (length: Bytes)
    requires n < 0x1_0000_0000
    ensures |length| == 4
  {
    [(n / 0x100_0000) as Byte, (n / 0x1_0000 % 0x100) as Byte, (n / 0x100 % 0x100) as Byte, (n % 0x100) as Byte]
  }

  function Encoded(f: Frame): (wire: Bytes)
    requires Fits(f)
    ensures |wire| == HEAD + |f.body|
  {
    [f.tag] + BigEndian(|f.body|) + f.body
  }

  /** On the wire: the tag, the length from its highest byte to its lowest, and the body; of a mebibyte at most. */
  lemma FrameIsLaidOut(f: Frame)
    ensures Fits(f) <==> |f.body| <= 1_048_576
    ensures Fits(f) ==>
              var wire := Encoded(f);
              && |wire| == 5 + |f.body| && wire[0] == f.tag && wire[5..] == f.body
              && wire[1] as int * 16_777_216 + wire[2] as int * 65_536 + wire[3] as int * 256 + wire[4] as int == |f.body|
  {
  }

  /** Why a frame was not sent: it is too long, or the pipe broke. */
  datatype SendError = Overlong(length: nat) | Broken

  /** The writing end of a stream. */
  class Pipe {
    var sent: Bytes

    constructor ()
      ensures sent == []
    {
      sent := [];
    }

    /**
      A frame over the limit is refused before any of it is sent. The pipe takes
      `takes` bytes of it and then breaks, if that is not all of them, and what it
      took may not be flushed; a beginning of the frame is out by then.
     */
    method WriteFrame(tag: Byte, body: Bytes, takes: nat, flushes: bool) returns (r: Result<(), SendError>)
      modifies this
      ensures r == Err(Overlong(|body|)) <==> !Fits(Frame(tag, body))
      ensures r == Ok(()) <==> Fits(Frame(tag, body)) && takes >= HEAD + |body| && flushes
      ensures r.Ok? ==> sent == old(sent) + Encoded(Frame(tag, body))
      ensures r == Err(Broken) ==>
                sent == old(sent) + Encoded(Frame(tag, body))[..if takes < HEAD + |body| then takes else HEAD + |body|]
      ensures !Fits(Frame(tag, body)) ==> sent == old(sent)
    {
      hide BigEndian;
      if |body| > MAX_FRAME {
        return Err(Overlong(|body|));
      }
      var head := new Byte[HEAD];
      head[0] := tag;
      var length := BigEndian(|body|);
      forall i | 0 <= i < 4 { head[i + 1] := length[i]; }
      assert head[..] == [tag] + length;
      assert Encoded(Frame(tag, body)) == head[..] + body;
      if takes < HEAD {
        sent := sent + head[..takes];
        return Err(Broken);
      }
      sent := sent + head[..];
      if takes - HEAD < |body| {
        sent := sent + body[..takes - HEAD];
        return Err(Broken);
      }
      sent := sent + body;
      return if flushes then Ok(()) else Err(Broken);
    }
  }

  // ----- Picking one frame -----

  function Length(src: Bytes): nat
    requires |src| >= HEAD
  {
    ((src[1] as nat * 0x100 + src[2] as nat) * 0x100 + src[3] as nat) * 0x100 + src[4] as nat
  }

  datatype Picked =
    | More
    | Got(frame: Frame, rest: Bytes)
    | TooLong(length: nat)

  function Pick(src: Bytes): Picked {
    if |src| < HEAD then More
    else
      var length := Length(src);
      if length > MAX_FRAME then TooLong(length)
      else if |src| < HEAD + length then More
      else Got(Frame(src[0], src[HEAD..HEAD + length]), src[HEAD + length..])
  }

  lemma LengthOfBigEndian(n: nat, src: Bytes)
    requires n < 0x1_0000_0000 && |src| >= HEAD && src[1..HEAD] == BigEndian(n)
    ensures Length(src) == n
  {
    var low := n / 0x100;
    var mid := low / 0x100;
    assert n / 0x1_0000 == mid && n / 0x100_0000 == mid / 0x100;
    assert forall i | 0 <= i < 4 :: src[1..HEAD][i] == src[i + 1];
    assert n == low * 0x100 + n % 0x100;
    assert low == mid * 0x100 + low % 0x100;
    assert mid == mid / 0x100 * 0x100 + mid % 0x100;
  }

  lemma BigEndianOfLength(src: Bytes)
    requires |src| >= HEAD
    ensures Length(src) < 0x1_0000_0000 && BigEndian(Length(src)) == src[1..HEAD]
  {
    var high := src[1] as nat;
    var mid := high * 0x100 + src[2] as nat;
    var low := mid * 0x100 + src[3] as nat;
    var n := low * 0x100 + src[4] as nat;
    assert n / 0x100 == low && low / 0x100 == mid && mid / 0x100 == high;
    assert n / 0x1_0000 == mid && n / 0x100_0000 == high;
    assert n % 0x100 == src[4] as nat && low % 0x100 == src[3] as nat && mid % 0x100 == src[2] as nat;
  }

  /** A frame written is the frame read, and nothing after it is touched. */
  lemma EncodedIsPicked(f: Frame, rest: Bytes)
    requires Fits(f)
    ensures Pick(Encoded(f) + rest) == Got(f, rest)
  {
    hide BigEndian, Length;
    var src := Encoded(f) + rest;
    assert src[1..HEAD] == BigEndian(|f.body|);
    LengthOfBigEndian(|f.body|, src);
    assert src[HEAD..HEAD + |f.body|] == f.body;
    assert src[HEAD + |f.body|..] == rest;
  }

  lemma PickedIsEncoded(src: Bytes)
    ensures match Pick(src)
            case Got(f, rest) => Fits(f) && Encoded(f) + rest == src && |rest| + HEAD <= |src|
            case More => |src| < HEAD + MAX_FRAME
            case TooLong(n) => n > MAX_FRAME
  {
    hide BigEndian, Length;
    if Pick(src).Got? {
      BigEndianOfLength(src);
      var n := Length(src);
      assert src == [src[0]] + src[1..HEAD] + src[HEAD..HEAD + n] + src[HEAD + n..];
    }
  }

  /** More bytes change the answer only when it was that more were wanted. */
  lemma PickIsLocal(src: Bytes, more: Bytes)
    ensures match Pick(src)
            case Got(f, rest) => Pick(src + more) == Got(f, rest + more)
            case TooLong(n) => Pick(src + more) == TooLong(n)
            case More => true
  {
    if |src| >= HEAD {
      assert Length(src + more) == Length(src);
      var n := Length(src);
      if HEAD + n <= |src| {
        assert (src + more)[HEAD..HEAD + n] == src[HEAD..HEAD + n];
        assert (src + more)[HEAD + n..] == src[HEAD + n..] + more;
      }
    }
  }

  // ----- The whole of a stream -----

  /** The frames in some bytes, what is left after them, and the length that ended them if one did. */
  datatype Parsed = Parsed(frames: seq<Frame>, left: Bytes, error: Option<nat>)

  function Parse(s: Bytes): Parsed
    decreases |s|
  {
    match Pick(s)
    case More => Parsed([], s, None)
    case TooLong(n) => Parsed([], s, Some(n))
    case Got(f, rest) =>
      assert |rest| < |s|;
      var tail := Parse(rest);
      Parsed([f] + tail.frames, tail.left, tail.error)
  }

  function EncodeAll(frames: seq<Frame>): Bytes
    requires forall f | f in frames :: Fits(f)
  {
    if frames == [] then [] else Encoded(frames[0]) + EncodeAll(frames[1..])
  }

  /** The reader's half: a buffer that outlives any one read. */
  class FrameReader {
    var buffer: Bytes
    var error: Option<nat>

    constructor ()
      ensures buffer == [] && error == None
    {
      buffer := [];
      error := None;
    }

    /** One `decode`: a frame is taken off the front, and anything else leaves the buffer as it was. */
    method Decode() returns (r: Result<Option<Frame>, nat>)
      modifies this`buffer
      ensures match Pick(old(buffer))
              case More => r == Ok(None) && buffer == old(buffer)
              case TooLong(n) => r == Err(n) && buffer == old(buffer)
              case Got(f, rest) => r == Ok(Some(f)) && buffer == rest
    {
      if |buffer| < HEAD {
        return Ok(None);
      }
      var length := Length(buffer);
      if length > MAX_FRAME {
        return Err(length);
      }
      if |buffer| < HEAD + length {
        return Ok(None);
      }
      var tag := buffer[0];
      buffer := buffer[HEAD..];
      var body := buffer[..length];
      buffer := buffer[length..];
      assert body == old(buffer)[HEAD..HEAD + length] && buffer == old(buffer)[HEAD + length..];
      return Ok(Some(Frame(tag, body)));
    }

    /** A read arriving, and every frame it completes. */
    method Feed(chunk: Bytes) returns (frames: seq<Frame>)
      modifies this
      ensures Parsed(frames, buffer, error) == Parse(old(buffer) + chunk)
      ensures error.None? ==> |buffer| < HEAD + MAX_FRAME
    {
      hide Pick, Length;
      frames := [];
      error := None;
      buffer := buffer + chunk;
      ghost var whole := buffer;
      while true
        invariant error == None
        invariant Parse(whole) == Parse(buffer).(frames := frames + Parse(buffer).frames)
        decreases |buffer|
      {
        PickedIsEncoded(buffer);
        var picked := Decode();
        match picked {
          case Ok(None) =>
            assert frames + [] == frames;
            break;
          case Ok(Some(f)) => frames := frames + [f];
          case Err(length) =>
            error := Some(length);
            assert frames + [] == frames;
            break;
        }
      }
    }
  }

  /** Parsing on from what one read left is parsing everything that has arrived. */
  lemma {:induction false} ParseResumes(s: Bytes, more: Bytes)
    ensures Parse(s + more) ==
            Parse(Parse(s).left + more).(frames := Parse(s).frames + Parse(Parse(s).left + more).frames)
    decreases |s|
  {
    hide Pick, Length, Encoded;
    PickIsLocal(s, more);
    PickedIsEncoded(s);
    if Pick(s).Got? { ParseResumes(Pick(s).rest, more); }
  }

  /** What successive calls of `Feed` hand over and hold, by its contract. */
  function FeedAll(buffer: Bytes, chunks: seq<Bytes>): Parsed
    decreases |chunks|
  {
    if chunks == [] then Parsed([], buffer, Parse(buffer).error)
    else
      var first := Parse(buffer + chunks[0]);
      var rest := FeedAll(first.left, chunks[1..]);
      rest.(frames := first.frames + rest.frames)
  }

  /** However the stream is cut into reads, the frames and the leftover are those of one parse. */
  lemma {:induction false} ReadsDoNotMatter(buffer: Bytes, chunks: seq<Bytes>)
    requires !Pick(buffer).Got?
    ensures FeedAll(buffer, chunks) == Parse(buffer + Flatten(chunks))
    decreases |chunks|
  {
    hide Pick;
    if chunks == [] {
      assert buffer + [] == buffer;
    } else {
      var first := Parse(buffer + chunks[0]);
      ParseEnds(buffer + chunks[0]);
      ReadsDoNotMatter(first.left, chunks[1..]);
      ParseResumes(buffer + chunks[0], Flatten(chunks[1..]));
      assert buffer + Flatten(chunks) == buffer + chunks[0] + Flatten(chunks[1..]);
    }
  }

  /** Frames taken off and bytes left over are together the stream, with nothing more to take. */
  lemma {:induction false} ParseEnds(s: Bytes)
    ensures forall f | f in Parse(s).frames :: Fits(f)
    ensures EncodeAll(Parse(s).frames) + Parse(s).left == s
    ensures match Pick(Parse(s).left)
            case More => Parse(s).error == None && |Parse(s).left| < HEAD + MAX_FRAME
            case TooLong(n) => Parse(s).error == Some(n)
            case Got(_, _) => false
    decreases |s|
  {
    hide Pick, Encoded;
    PickedIsEncoded(s);
    if Pick(s).Got? {
      ParseEnds(Pick(s).rest);
      assert Parse(s).frames[1..] == Parse(Pick(s).rest).frames;
      assert Encoded(Pick(s).frame) + (EncodeAll(Parse(s).frames[1..]) + Parse(s).left) == s;
    }
  }

  /** And there is one way to take a stream apart like that. */
  lemma {:induction false} ParsingIsUnique(frames: seq<Frame>, left: Bytes)
    requires forall f | f in frames :: Fits(f)
    requires !Pick(left).Got?
    ensures Parse(EncodeAll(frames) + left) == Parse(left).(frames := frames)
  {
    hide Pick, Encoded;
    if frames == [] {
      assert [] + left == left;
    } else {
      var rest := EncodeAll(frames[1..]) + left;
      assert EncodeAll(frames) + left == Encoded(frames[0]) + rest;
      EncodedIsPicked(frames[0], rest);
      PickedIsEncoded(Encoded(frames[0]) + rest);
      ParsingIsUnique(frames[1..], left);
    }
  }

  /** Frames written one after another are read back as they were. */
  lemma EncodedFramesParse(frames: seq<Frame>)
    requires forall f | f in frames :: Fits(f)
    ensures Parse(EncodeAll(frames)) == Parsed(frames, [], None)
  {
    assert EncodeAll(frames) + [] == EncodeAll(frames);
    ParsingIsUnique(frames, []);
  }

  /**
    Cut anywhere, a stream of frames yields some first few of them; what is left
    is the beginning of the next, empty only when the cut fell between frames.
   */
  lemma {:induction false} CutStreamParses(frames: seq<Frame>, cut: nat) returns (k: nat)
    requires forall f | f in frames :: Fits(f)
    requires cut <= |EncodeAll(frames)|
    ensures k <= |frames|
    ensures |EncodeAll(frames[..k])| <= cut
    ensures Parse(EncodeAll(frames)[..cut]) ==
            Parsed(frames[..k], EncodeAll(frames)[|EncodeAll(frames[..k])|..cut], None)
    ensures k < |frames| ==> |Parse(EncodeAll(frames)[..cut]).left| < |Encoded(frames[k])|
  {
    hide Pick, Encoded;
    var stream := EncodeAll(frames);
    if frames == [] {
      k := 0;
      EncodedFramesParse([]);
    } else if cut < |Encoded(frames[0])| {
      k := 0;
      assert stream[..cut] == Encoded(frames[0])[..cut];
      EncodedPrefixWantsMore(frames[0], cut);
      assert EncodeAll(frames[..0]) == [];
    } else {
      var first := Encoded(frames[0]);
      var less := CutStreamParses(frames[1..], cut - |first|);
      k := less + 1;
      var rest := EncodeAll(frames[1..])[..cut - |first|];
      assert stream[..cut] == first + rest;
      EncodedIsPicked(frames[0], rest);
      EncodeAllOfPrefix(frames, k);
      assert frames[..k] == [frames[0]] + frames[1..][..less];
      assert stream[|EncodeAll(frames[..k])|..cut] ==
             EncodeAll(frames[1..])[|EncodeAll(frames[1..][..less])|..cut - |first|];
    }
  }

  /** So nothing is left over exactly when the cut fell between frames. */
  lemma LeftoverMeansMidFrame(frames: seq<Frame>, cut: nat)
    requires forall f | f in frames :: Fits(f)
    requires cut <= |EncodeAll(frames)|
    ensures Parse(EncodeAll(frames)[..cut]).left == [] <==> exists j :: 0 <= j <= |frames| && cut == |EncodeAll(frames[..j])|
  {
    hide Pick, Encoded;
    var k := CutStreamParses(frames, cut);
    if j :| 0 <= j <= |frames| && cut == |EncodeAll(frames[..j])| {
      EncodeAllSplits(frames, j);
      EncodedFramesParse(frames[..j]);
    }
  }

  lemma {:induction false} EncodeAllSplits(frames: seq<Frame>, j: nat)
    requires j <= |frames| && forall f | f in frames :: Fits(f)
    ensures EncodeAll(frames) == EncodeAll(frames[..j]) + EncodeAll(frames[j..])
  {
    hide Encoded;
    if j == 0 {
      assert frames[0..] == frames;
    } else {
      EncodeAllSplits(frames[1..], j - 1);
      EncodeAllOfPrefix(frames, j);
      assert frames[1..][j - 1..] == frames[j..];
    }
  }

  lemma EncodeAllOfPrefix(frames: seq<Frame>, j: nat)
    requires 0 < j <= |frames| && forall f | f in frames :: Fits(f)
    ensures EncodeAll(frames[..j]) == Encoded(frames[0]) + EncodeAll(frames[1..][..j - 1])
  {
    assert frames[..j][1..] == frames[1..][..j - 1];
  }

  lemma EncodedPrefixWantsMore(f: Frame, cut: nat)
    requires Fits(f)
    requires cut < |Encoded(f)|
    ensures Pick(Encoded(f)[..cut]) == More
  {
    hide BigEndian, Length;
    var src := Encoded(f)[..cut];
    if cut >= HEAD {
      assert src[1..HEAD] == BigEndian(|f.body|);
      LengthOfBigEndian(|f.body|, src);
    }
  }

  /** An error is raised exactly when, after whole frames, a header says more than the limit. */
  lemma ErrorsAreOverlongHeaders(s: Bytes, n: nat)
    ensures Parse(s).error == Some(n) <==>
            exists frames: seq<Frame>, left: Bytes ::
              (forall f | f in frames :: Fits(f))
              && s == EncodeAll(frames) + left && |left| >= HEAD && Length(left) == n && n > MAX_FRAME
  {
    ParseEnds(s);
    forall frames: seq<Frame>, left: Bytes
      | (forall f | f in frames :: Fits(f))
        && s == EncodeAll(frames) + left && |left| >= HEAD && Length(left) == n && n > MAX_FRAME
      ensures Parse(s).error == Some(n)
    {
      ParsingIsUnique(frames, left);
    }
    if Parse(s).error == Some(n) {
      var frames, left := Parse(s).frames, Parse(s).left;
      assert s == EncodeAll(frames) + left && Length(left) == n;
    }
  }
}
