/**
 The tunnel wire format: a type byte, a big-endian 32-bit stream id, a big-endian 32-bit length and
 the payload.  A WebSocket message holds any number of frames back to back.
 */
module FrameCodec {
  import opened Bytes

  const STREAM_OPEN: byte := 0x01
  const STREAM_DATA: byte := 0x02
  const STREAM_CLOSE: byte := 0x03
  const ROUTE_SYNC: byte := 0x04
  const PING: byte := 0x05
  const PONG: byte := 0x06

  const MAX_FRAME_SIZE: nat := 1024 * 1024
  const HEADER_SIZE: nat := 9
  const TWO_32: nat := 0x1_0000_0000

  type uint32 = v: int | 0 <= v < TWO_32

  datatype Frame = Frame(typ: byte, streamID: uint32, payload: seq<byte>)

  /** The decoder takes payloads of at most this size. */
  predicate Fits(p: seq<byte>) {
    |p| <= MAX_FRAME_SIZE
  }

  datatype DecodeError = EOF | UnexpectedEOF | TooLarge(length: uint32)

  /** The frame or the error, and the bytes left in the reader afterwards. */
  datatype Decoded = Ok(frame: Frame, rest: seq<byte>) | Err(error: DecodeError, rest: seq<byte>)

  function BigEndian(v: uint32): (b: seq<byte>)
    ensures |b| == 4
  {
    [v / 0x100_0000, v / 0x1_0000 % 0x100, v / 0x100 % 0x100, v % 0x100]
  }

  function FromBigEndian(b: seq<byte>): uint32
    requires |b| == 4
  {
    b[0] as int * 0x100_0000 + b[1] as int * 0x1_0000 + b[2] as int * 0x100 + b[3] as int
  }

  lemma BigEndianRoundTrip(v: uint32)
    ensures FromBigEndian(BigEndian(v)) == v
  {
    assert v / 0x1_0000 == v / 0x100_0000 * 0x100 + v / 0x1_0000 % 0x100;
    assert v / 0x100 == v / 0x1_0000 * 0x100 + v / 0x100 % 0x100;
  }

  lemma FromBigEndianRoundTrip(b: seq<byte>)
    requires |b| == 4
    ensures BigEndian(FromBigEndian(b)) == b
  {
    var v := FromBigEndian(b);
    assert v / 0x100 == b[0] as int * 0x1_0000 + b[1] as int * 0x100 + b[2] as int;
    assert v / 0x1_0000 == b[0] as int * 0x100 + b[1] as int;
    assert v / 0x100_0000 == b[0];
  }

  /** The bytes of a frame.  The length field keeps only 32 bits of the payload's length. */
  function Encode(f: Frame): seq<byte> {
    [f.typ] + BigEndian(f.streamID) + BigEndian(|f.payload| % 0x1_0000_0000) + f.payload
  }

  function EncodeAll(fs: seq<Frame>): seq<byte> {
    if fs == [] then [] else Encode(fs[0]) + EncodeAll(fs[1..])
  }

  function Length(b: seq<byte>): uint32
    requires |b| >= HEADER_SIZE
  {
    FromBigEndian(b[5..9])
  }

  function Decode(b: seq<byte>): Decoded {
    if b == [] then Err(EOF, [])
    else if |b| < HEADER_SIZE then Err(UnexpectedEOF, [])
    else if Length(b) > MAX_FRAME_SIZE then Err(TooLarge(Length(b)), b[9..])
    else if |b| < HEADER_SIZE + Length(b) then Err(if |b| == HEADER_SIZE then EOF else UnexpectedEOF, [])
    else Ok(Frame(b[0], FromBigEndian(b[1..5]), b[9..9 + Length(b)]), b[9 + Length(b)..])
  }

  /** The frames of a message, and the unread bytes where decoding stopped. */
  function DecodeAll(b: seq<byte>): (seq<Frame>, seq<byte>)
    decreases |b|
  {
    if b == [] then ([], [])
    else
      match Decode(b)
      case Err(_, _) => ([], b)
      case Ok(f, rest) => var (fs, left) := DecodeAll(rest); ([f] + fs, left)
  }

  /** `b` is v in big-endian order. */
  predicate IsBigEndian(b: seq<byte>, v: uint32) {
    |b| == 4 && v == (b[0] as int) * 0x100_0000 + (b[1] as int) * 0x1_0000 + (b[2] as int) * 0x100 + b[3]
  }

  /** The layout: type, id and length in network byte order, payload. */
  lemma EncodeLayout(f: Frame, tail: seq<byte>)
    ensures var b := Encode(f) + tail;
      && |b| == HEADER_SIZE + |f.payload| + |tail|
      && b[0] == f.typ && FromBigEndian(b[1..5]) == f.streamID && Length(b) == |f.payload| % 0x1_0000_0000
      && IsBigEndian(b[1..5], f.streamID) && IsBigEndian(b[5..9], |f.payload| % 0x1_0000_0000)
      && b[9..] == f.payload + tail
  {
    var b := Encode(f) + tail;
    assert b[1..5] == BigEndian(f.streamID);
    assert b[5..9] == BigEndian(|f.payload| % 0x1_0000_0000);
    BigEndianRoundTrip(f.streamID);
    BigEndianRoundTrip(|f.payload| % 0x1_0000_0000);
    assert b[9..] == f.payload + tail;
  }

  /** A frame survives encoding and decoding exactly when its payload is at most 1 MiB. */
  lemma FrameRoundTrip(f: Frame, tail: seq<byte>)
    ensures Decode(Encode(f) + tail) == Ok(f, tail) <==> |f.payload| <= 1_048_576
  {
    var b := Encode(f) + tail;
    EncodeLayout(f, tail);
    if |f.payload| <= MAX_FRAME_SIZE {
      assert b[9..9 + |f.payload|] == b[9..][..|f.payload|] == f.payload;
      assert b[9 + |f.payload|..] == b[9..][|f.payload|..] == tail;
    }
  }

  /** A frame that breaks off: nothing at all, or a header whose payload does not begin, reads as the end of the
      input, and any other beginning of a frame as an unexpected end. */
  lemma TruncatedFrame(f: Frame, k: nat)
    requires Fits(f.payload) && k < HEADER_SIZE + |f.payload|
    ensures |Encode(f)| == HEADER_SIZE + |f.payload|
    ensures Decode(Encode(f)[..k]) == Err(if k == 0 || k == 9 then EOF else UnexpectedEOF, [])
  {
    hide Encode, BigEndian, FromBigEndian, IsBigEndian;
    var b := Encode(f);
    EncodeLayout(f, []);
    assert b + [] == b;
    if k >= 9 {
      assert b[..k][5..9] == b[5..9];
    }
  }

  /** What the decoder makes of a frame that is too long: the length field keeps the length modulo 2^32. If
      even that is above 1 MiB the frame is refused. Otherwise it comes out cut short, and the rest of its
      payload is read as what follows the frame. */
  lemma LongFrame(f: Frame, tail: seq<byte>)
    requires !Fits(f.payload)
    ensures var k := |f.payload| % 0x1_0000_0000;
      Decode(Encode(f) + tail) == if k > MAX_FRAME_SIZE then Err(TooLarge(k), f.payload + tail)
                                  else Ok(f.(payload := f.payload[..k]), f.payload[k..] + tail)
  {
    var b, k := Encode(f) + tail, |f.payload| % 0x1_0000_0000;
    EncodeLayout(f, tail);
    if k <= MAX_FRAME_SIZE {
      assert b[9..9 + k] == b[9..][..k] == f.payload[..k];
      assert b[9 + k..] == b[9..][k..] == f.payload[k..] + tail;
    }
  }

  /** A message of one frame with a payload below 4 GiB gives the receiver that frame if it fits, and nothing
      otherwise. */
  lemma MessageOfOne(f: Frame)
    requires |f.payload| < 0x1_0000_0000
    ensures DecodeAll(Encode(f)).0 == if Fits(f.payload) then [f] else []
  {
    hide Encode, Decode;
    assert Encode(f) + [] == Encode(f);
    EncodeIsLonger(f);
    DecodeTurn(Encode(f));
    if Fits(f.payload) {
      FrameRoundTrip(f, []);
      DecodeNothing();
    } else {
      LongFrame(f, []);
    }
  }

  lemma EncodeIsLonger(f: Frame)
    ensures |Encode(f)| == HEADER_SIZE + |f.payload|
  {
  }

  /** Decoding the concatenated encodings of frames of legal size gives back the frames. */
  lemma {:induction false} MessageRoundTrip(fs: seq<Frame>)
    requires forall i :: 0 <= i < |fs| ==> |fs[i].payload| <= MAX_FRAME_SIZE
    ensures DecodeAll(EncodeAll(fs)) == (fs, [])
  {
    hide Encode, Decode;
    if fs != [] {
      MessageRoundTrip(fs[1..]);
      EncodeIsLonger(fs[0]);
      FrameRoundTrip(fs[0], EncodeAll(fs[1..]));
      assert fs == [fs[0]] + fs[1..];
    }
  }

  /** One turn of the decode loop. */
  lemma DecodeTurn(b: seq<byte>)
    requires b != []
    ensures DecodeAll(b).0 == match Decode(b)
                              case Err(_, _) => []
                              case Ok(f, rest) => [f] + DecodeAll(rest).0
    ensures Decode(b).Ok? ==> |Decode(b).rest| < |b|
  {
  }

  /** Decoding stops only at the end, before a truncated frame, or before an oversize length. */
  predicate Stuck(b: seq<byte>) {
    |b| < HEADER_SIZE || Length(b) > MAX_FRAME_SIZE || |b| < HEADER_SIZE + Length(b)
  }

  lemma DecodedReencodes(b: seq<byte>)
    requires Decode(b).Ok?
    ensures Encode(Decode(b).frame) + Decode(b).rest == b
    ensures |Decode(b).frame.payload| <= MAX_FRAME_SIZE
  {
    hide BigEndian, FromBigEndian;
    var f := Decode(b).frame;
    FromBigEndianRoundTrip(b[1..5]);
    FromBigEndianRoundTrip(b[5..9]);
    assert |f.payload| == Length(b);
    assert b == [b[0]] + b[1..5] + b[5..9] + b[9..9 + Length(b)] + b[9 + Length(b)..];
  }

  lemma DecodeOrStuck(b: seq<byte>)
    ensures Decode(b).Err? ==> Stuck(b)
    ensures Decode(b).Ok? ==> HEADER_SIZE + |Decode(b).rest| <= |b|
  {
  }

  lemma EncodeFirst(f: Frame, fs: seq<Frame>, left: seq<byte>)
    ensures EncodeAll([f] + fs) + left == Encode(f) + (EncodeAll(fs) + left)
  {
    hide Encode;
    assert ([f] + fs)[1..] == fs;
    ConcatAssociates(Encode(f), EncodeAll(fs), left);
  }

  /** For any message: the decoded frames re-encode to exactly the bytes read. */
  lemma {:induction false} MessagePrefix(b: seq<byte>)
    ensures var (fs, left) := DecodeAll(b);
      && EncodeAll(fs) + left == b
      && (left == [] || Stuck(left))
      && HEADER_SIZE * |fs| + |left| <= |b|
      && forall i :: 0 <= i < |fs| ==> |fs[i].payload| <= MAX_FRAME_SIZE
    decreases |b|
  {
    hide Encode, Decode, Stuck;
    DecodeOrStuck(b);
    if b != [] && Decode(b).Ok? {
      var f, rest := Decode(b).frame, Decode(b).rest;
      var (fs, left) := DecodeAll(rest);
      MessagePrefix(rest);
      DecodedReencodes(b);
      EncodeFirst(f, fs, left);
    } else {
      assert EncodeAll([]) == [];
    }
  }

  // ----- the code

  method PutUint32(buf: array<byte>, off: nat, v: uint32)
    requires off + 4 <= buf.Length
    modifies buf
    ensures buf[off..off + 4] == BigEndian(v)
    ensures forall i :: 0 <= i < buf.Length && !(off <= i < off + 4) ==> buf[i] == old(buf[i])
  {
    buf[off] := v / 0x100_0000;
    buf[off + 1] := v / 0x1_0000 % 0x100;
    buf[off + 2] := v / 0x100 % 0x100;
    buf[off + 3] := v % 0x100;
  }

  method EncodeFrame(f: Frame) returns (buf: array<byte>)
    ensures fresh(buf) && buf[..] == Encode(f)
  {
    hide BigEndian;
    buf := new byte[HEADER_SIZE + |f.payload|](_ => 0);
    buf[0] := f.typ;
    PutUint32(buf, 1, f.streamID);
    assert buf[1..5] == BigEndian(f.streamID);
    label id:
    PutUint32(buf, 5, |f.payload| % 0x1_0000_0000);
    assert buf[1..5] == old@id(buf[1..5]);
    label header:
    forall i | 0 <= i < |f.payload| {
      buf[HEADER_SIZE + i] := f.payload[i];
    }
    assert buf[1..5] == old@header(buf[1..5]) && buf[5..9] == old@header(buf[5..9]);
    assert buf[9..] == f.payload;
    assert buf[..] == [buf[0]] + buf[1..5] + buf[5..9] + buf[9..];
  }

  /** A reader over a byte string, as `bytes.Reader`. */
  class Reader {
    const data: seq<byte>
    var pos: nat

    ghost predicate Valid() reads this {
      pos <= |data|
    }

    function Rest(): seq<byte>
      requires Valid()
      reads this
    {
      data[pos..]
    }

    constructor (data: seq<byte>)
      ensures Valid() && Rest() == data
    {
      this.data := data;
      pos := 0;
    }

    /** `io.ReadFull`: all `n` bytes, or an error after using up whatever there was. */
    method ReadFull(n: nat) returns (got: seq<byte>, err: Option<DecodeError>)
      requires Valid()
      modifies this
      ensures Valid()
      ensures n <= |old(Rest())| ==> err == None && got == old(Rest())[..n] && Rest() == old(Rest())[n..]
      ensures n > |old(Rest())| ==>
        Rest() == [] && err == Some(if old(Rest()) == [] then EOF else UnexpectedEOF)
    {
      if n <= |data| - pos {
        got, err := data[pos..pos + n], None;
        pos := pos + n;
      } else {
        got, err := data[pos..], Some(if pos == |data| then EOF else UnexpectedEOF);
        pos := |data|;
      }
    }
  }

  method DecodeFrame(r: Reader) returns (f: Frame, err: Option<DecodeError>)
    requires r.Valid()
    modifies r
    ensures r.Valid()
    ensures match Decode(old(r.Rest()))
            case Ok(g, rest) => err == None && f == g && r.Rest() == rest
            case Err(e, rest) => err == Some(e) && r.Rest() == rest
  {
    f := Frame(0, 0, []);
    var header;
    header, err := r.ReadFull(HEADER_SIZE);
    if err.Some? {
      return;
    }
    var g := Frame(header[0], FromBigEndian(header[1..5]), []);
    var length := FromBigEndian(header[5..9]);
    ghost var b := old(r.Rest());
    assert header[1..5] == b[1..5] && header[5..9] == b[5..9];
    if length > MAX_FRAME_SIZE {
      err := Some(TooLarge(length));
      return;
    }
    if length > 0 {
      var payload;
      payload, err := r.ReadFull(length);
      if err.Some? {
        return;
      }
      g := g.(payload := payload);
    }
    assert b[9..][..length] == b[9..9 + length] && b[9..][length..] == b[9 + length..];
    f := g;
  }

  /** The read loop on one binary message: the frames it dispatches, in order. */
  method DecodeMessage(msg: seq<byte>) returns (frames: seq<Frame>)
    ensures frames == DecodeAll(msg).0
  {
    hide Decode, DecodeAll;
    var reader := new Reader(msg);
    frames := [];
    assert DecodeAll(reader.Rest()) == DecodeAll(msg);
    while |reader.Rest()| > 0
      invariant reader.Valid() && fresh(reader)
      invariant DecodeAll(msg).0 == frames + DecodeAll(reader.Rest()).0
      decreases |reader.Rest()|
    {
      ghost var before := reader.Rest();
      DecodeTurn(before);
      var frame, err := DecodeFrame(reader);
      if err.Some? {
        return;
      }
      ConcatAssociates(frames, [frame], DecodeAll(reader.Rest()).0);
      frames := frames + [frame];
    }
    DecodeNothing();
  }

  lemma DecodeNothing()
    ensures DecodeAll([]) == ([], [])
  {
  }
}
