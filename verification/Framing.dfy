/**
 Length-prefixed framing (ipc/framing.py, broker/protocol.py). The JSON body is
 an abstract pair of a writer and a parser; everything else is the code's own.
 */
module Framing {
  import opened Collections
  import opened Events
  import opened Wrappers

  type byte = x: int | 0 <= x < 256

  datatype FrameError =
    | StructError
    | FrameTooLarge
    | EofBeforeFrame
    | EofInPrefix
    | EofInBody
    | InvalidBody

  /** A message format: its body, the limit on a frame it writes, and the ceiling on a body it reads. */
  datatype Codec<!M> = Codec(write: M -> seq<byte>, parse: seq<byte> -> Option<M>, limit: M -> nat, ceiling: nat)

  const PREFIX_LEN := 4
  const MAX_STREAM_FRAME := 1048576
  const MAX_SNAPSHOT_FRAME := 16777216
  const MAX_BROKER_FRAME := 1048576
  const STRUCT_LIMIT := 0x1_0000_0000

  ghost predicate RoundTrips<M(!new)>(c: Codec<M>) {
    forall m :: c.parse(c.write(m)) == Some(m)
  }

  ghost predicate Bounded<M(!new)>(c: Codec<M>) {
    c.ceiling < STRUCT_LIMIT && forall m :: c.limit(m) <= c.ceiling
  }

  function MaxFrameFor(kind: EventType): nat {
    if kind == Snapshot then MAX_SNAPSHOT_FRAME else MAX_STREAM_FRAME
  }

  function IpcCodec(write: Envelope -> seq<byte>, parse: seq<byte> -> Option<Envelope>): Codec<Envelope> {
    Codec(write, parse, (e: Envelope) => MaxFrameFor(e.kind), MAX_SNAPSHOT_FRAME)
  }

  function BrokerCodec<M>(write: M -> seq<byte>, parse: seq<byte> -> Option<M>): Codec<M> {
    Codec(write, parse, _ => MAX_BROKER_FRAME, MAX_BROKER_FRAME)
  }

  /** Both formats of the repository keep their write limits within their read ceiling. */
  lemma CodecsAreBounded<M(!new)>(write: Envelope -> seq<byte>, parse: seq<byte> -> Option<Envelope>,
                                  writeMessage: M -> seq<byte>, parseMessage: seq<byte> -> Option<M>)
    ensures Bounded(IpcCodec(write, parse)) && Bounded(BrokerCodec(writeMessage, parseMessage))
  {
  }

  // --- the prefix --------------------------------------------------------------

  /** Four bytes, most significant first. */
  function Pack(n: nat): (s: seq<byte>)
    requires n < STRUCT_LIMIT
    ensures |s| == PREFIX_LEN
  {
    [n / 0x100 / 0x100 / 0x100, n / 0x100 / 0x100 % 0x100, n / 0x100 % 0x100, n % 0x100]
  }

  function Unpack(s: seq<byte>): (n: nat)
    requires |s| == PREFIX_LEN
    ensures n < STRUCT_LIMIT
  {
    var a: int, b: int, c: int, d: int := s[0], s[1], s[2], s[3];
    ((a * 0x100 + b) * 0x100 + c) * 0x100 + d
  }

  lemma UnpackPack(n: nat)
    requires n < STRUCT_LIMIT
    ensures Unpack(Pack(n)) == n
  {
  }

  lemma LastDigit(rest: nat, digit: byte)
    ensures (rest * 0x100 + digit) / 0x100 == rest && (rest * 0x100 + digit) % 0x100 == digit
  {
  }

  lemma PackUnpack(s: seq<byte>)
    requires |s| == PREFIX_LEN
    ensures Pack(Unpack(s)) == s
  {
    var a: int, b: int, c: int, d: int := s[0], s[1], s[2], s[3];
    LastDigit((a * 0x100 + b) * 0x100 + c, d);
    LastDigit(a * 0x100 + b, c);
    LastDigit(a, b);
    assert Pack(Unpack(s)) == [a, b, c, d];
    assert s == [s[0], s[1], s[2], s[3]];
  }

  /** The most significant byte comes first. */
  lemma PrefixIsBigEndian(s: seq<byte>)
    requires |s| == PREFIX_LEN
    ensures var a: int, b: int, c: int, d: int := s[0], s[1], s[2], s[3];
            Unpack(s) == a * 0x1000000 + b * 0x10000 + c * 0x100 + d
  {
  }

  // --- frames ------------------------------------------------------------------

  function Encode<M>(c: Codec<M>, m: M): Result<seq<byte>, FrameError> {
    var body := c.write(m);
    if |body| >= STRUCT_LIMIT then Err(StructError)
    else
      var frame := Pack(|body|) + body;
      if |frame| > c.limit(m) then Err(FrameTooLarge) else Ok(frame)
  }

  function ParseBody<M>(c: Codec<M>, body: seq<byte>): Result<M, FrameError> {
    var m := c.parse(body);
    if m.Some? then Ok(m.value) else Err(InvalidBody)
  }

  /** `decode_frame`; a short prefix and a short body are both an incomplete frame. */
  function DecodeFrame<M>(c: Codec<M>, data: seq<byte>): Result<M, FrameError> {
    if |data| < PREFIX_LEN then Err(EofInPrefix)
    else
      var length := Unpack(data[..PREFIX_LEN]);
      if length > c.ceiling then Err(FrameTooLarge)
      else if |data| < PREFIX_LEN + length then Err(EofInBody)
      else ParseBody(c, data[PREFIX_LEN..PREFIX_LEN + length])
  }

  /** An envelope is encoded exactly when its frame has at most 16 MiB for a snapshot and 1 MiB for any other kind. */
  lemma EnvelopeEncodesIff(write: Envelope -> seq<byte>, parse: seq<byte> -> Option<Envelope>, e: Envelope)
    ensures var encoded := Encode(IpcCodec(write, parse), e);
            && (encoded.Ok? <==> 4 + |write(e)| <= if e.kind == Snapshot then 16 * 1024 * 1024 else 1024 * 1024)
            && (encoded.Ok? ==> encoded.value == Pack(|write(e)|) + write(e))
  {
  }

  /** A broker message has at most 1 MiB. */
  lemma MessageEncodesIff<M>(write: M -> seq<byte>, parse: seq<byte> -> Option<M>, m: M)
    ensures var encoded := Encode(BrokerCodec(write, parse), m);
            && (encoded.Ok? <==> 4 + |write(m)| <= 1024 * 1024)
            && (encoded.Ok? ==> encoded.value == Pack(|write(m)|) + write(m))
  {
  }

  /** Bytes decode to a message exactly when they begin with a frame of it that is not above the ceiling. */
  lemma DecodesIff<M(!new)>(c: Codec<M>, data: seq<byte>, m: M)
    requires c.ceiling < STRUCT_LIMIT
    ensures DecodeFrame(c, data) == Ok(m) <==>
            exists body: seq<byte>, more: seq<byte> ::
              |body| <= c.ceiling && c.parse(body) == Some(m) && data == Pack(|body|) + body + more
  {
    if DecodeFrame(c, data) == Ok(m) {
      var length := Unpack(data[..PREFIX_LEN]);
      var body, more := data[PREFIX_LEN..PREFIX_LEN + length], data[PREFIX_LEN + length..];
      PackUnpack(data[..PREFIX_LEN]);
      assert data == Pack(|body|) + body + more;
    }
    if body: seq<byte>, more: seq<byte> :|
         |body| <= c.ceiling && c.parse(body) == Some(m) && data == Pack(|body|) + body + more
    {
      UnpackPack(|body|);
      assert data[..PREFIX_LEN] == Pack(|body|);
      assert data[PREFIX_LEN..PREFIX_LEN + |body|] == body;
    }
  }

  /** The length the first four bytes announce. */
  function Announced(data: seq<byte>): int
    requires 4 <= |data|
  {
    var a: int, b: int, c: int, d: int := data[0], data[1], data[2], data[3];
    a * 0x1000000 + b * 0x10000 + c * 0x100 + d
  }

  /** How decoding fails: a frame announced above the ceiling is refused whether or not its body is there. */
  lemma DecodeFailsAs<M>(c: Codec<M>, data: seq<byte>)
    ensures DecodeFrame(c, data) == Err(EofInPrefix) <==> |data| < 4
    ensures DecodeFrame(c, data) == Err(FrameTooLarge) <==> 4 <= |data| && c.ceiling < Announced(data)
    ensures DecodeFrame(c, data) == Err(EofInBody) <==>
            4 <= |data| && Announced(data) <= c.ceiling && |data| < 4 + Announced(data)
    ensures DecodeFrame(c, data) == Err(InvalidBody) <==>
            4 <= |data| && 0 <= Announced(data) <= c.ceiling && 4 + Announced(data) <= |data|
            && c.parse(data[4..4 + Announced(data)]).None?
  {
    if 4 <= |data| {
      PrefixIsBigEndian(data[..PREFIX_LEN]);
    }
  }

  function Prefix(data: seq<byte>, n: nat): seq<byte> {
    if n <= |data| then data[..n] else data
  }

  function Rest(data: seq<byte>, n: nat): seq<byte> {
    if n <= |data| then data[n..] else []
  }

  /** `read_frame` on a stream that still holds `data`: the outcome, and what is left. */
  function Read<M>(c: Codec<M>, data: seq<byte>): (Result<M, FrameError>, seq<byte>) {
    if data == [] then (Err(EofBeforeFrame), [])
    else if |data| < PREFIX_LEN then (Err(EofInPrefix), [])
    else
      var length, more := Unpack(data[..PREFIX_LEN]), data[PREFIX_LEN..];
      if length > c.ceiling then (Err(FrameTooLarge), more)
      else if |more| < length then (Err(EofInBody), [])
      else (ParseBody(c, more[..length]), more[length..])
  }

  /** Reading a stream and decoding its bytes agree on everything, but for the name of the empty case. */
  lemma ReadAgreesWithDecode<M>(c: Codec<M>, data: seq<byte>)
    ensures data == [] ==> Read(c, data).0 == Err(EofBeforeFrame) && DecodeFrame(c, data) == Err(EofInPrefix)
    ensures data != [] ==> Read(c, data).0 == DecodeFrame(c, data)
  {
    if |data| >= PREFIX_LEN {
      var length := Unpack(data[..PREFIX_LEN]);
      if length <= c.ceiling && PREFIX_LEN + length <= |data| {
        assert data[PREFIX_LEN..][..length] == data[PREFIX_LEN..PREFIX_LEN + length];
      }
    }
  }

  /** Reading an encoded message gives it back and leaves what followed it. */
  lemma ReadEncoded<M(!new)>(c: Codec<M>, m: M, more: seq<byte>)
    requires RoundTrips(c) && Bounded(c) && Encode(c, m).Ok?
    ensures Read(c, Encode(c, m).value + more) == (Ok(m), more)
    ensures |Encode(c, m).value| == PREFIX_LEN + |c.write(m)|
  {
    var body := c.write(m);
    var data := Pack(|body|) + body + more;
    UnpackPack(|body|);
    assert data[..PREFIX_LEN] == Pack(|body|);
    assert data[PREFIX_LEN..] == body + more;
    assert (body + more)[..|body|] == body && (body + more)[|body|..] == more;
  }

  /** What remains of an encoded message after it is cut short is an incomplete frame. */
  lemma ReadCut<M(!new)>(c: Codec<M>, m: M, n: nat)
    requires RoundTrips(c) && Bounded(c) && Encode(c, m).Ok? && n < |Encode(c, m).value|
    ensures Read(c, Encode(c, m).value[..n]) ==
            (Err(if n == 0 then EofBeforeFrame else if n < PREFIX_LEN then EofInPrefix else EofInBody), [])
  {
    if PREFIX_LEN <= n {
      var body := c.write(m);
      var cut := Encode(c, m).value[..n];
      UnpackPack(|body|);
      assert cut[..PREFIX_LEN] == Pack(|body|);
    }
  }

  // --- whole streams --------------------------------------------------------------

  /** The messages of a stream up to the first error, and that error. */
  function ReadAll<M>(c: Codec<M>, data: seq<byte>): (seq<M>, FrameError)
    decreases |data|
  {
    var (first, more) := Read(c, data);
    if first.Err? then ([], first.error)
    else
      var (ms, error) := ReadAll(c, more);
      ([first.value] + ms, error)
  }

  ghost predicate Encodable<M(!new)>(c: Codec<M>, ms: seq<M>) {
    RoundTrips(c) && Bounded(c) && forall i :: 0 <= i < |ms| ==> Encode(c, ms[i]).Ok?
  }

  function Frames<M>(c: Codec<M>, ms: seq<M>): seq<byte>
    requires forall i :: 0 <= i < |ms| ==> Encode(c, ms[i]).Ok?
  {
    if ms == [] then [] else Encode(c, ms[0]).value + Frames(c, ms[1..])
  }

  /** How many whole frames the first `n` bytes hold. */
  function Whole<M>(c: Codec<M>, ms: seq<M>, n: nat): (k: nat)
    requires forall i :: 0 <= i < |ms| ==> Encode(c, ms[i]).Ok?
    ensures k <= |ms|
  {
    if ms == [] || n < |Encode(c, ms[0]).value| then 0
    else 1 + Whole(c, ms[1..], n - |Encode(c, ms[0]).value|)
  }

  lemma FramesOfPart<M(!new)>(c: Codec<M>, ms: seq<M>, k: nat)
    requires 1 <= k <= |ms| && forall i :: 0 <= i < |ms| ==> Encode(c, ms[i]).Ok?
    ensures ms[..k] == [ms[0]] + ms[1..][..k - 1]
    ensures |Frames(c, ms[..k])| == |Encode(c, ms[0]).value| + |Frames(c, ms[1..][..k - 1])|
  {
    assert ms[..k][1..] == ms[1..][..k - 1];
  }

  /** What reading yields of the frames of `ms` cut after `n` bytes. */
  ghost predicate CutsRight<M(!new)>(c: Codec<M>, ms: seq<M>, n: nat)
    requires (forall i :: 0 <= i < |ms| ==> Encode(c, ms[i]).Ok?) && n <= |Frames(c, ms)|
  {
    var k := Whole(c, ms, n);
    var (read, error) := ReadAll(c, Frames(c, ms)[..n]);
    && read == ms[..k]
    && (error == EofBeforeFrame <==> n == |Frames(c, ms[..k])|)
    && (error != EofBeforeFrame ==> error == EofInPrefix || error == EofInBody)
  }

  lemma ReadAllStep<M>(c: Codec<M>, data: seq<byte>, m: M, more: seq<byte>)
    requires Read(c, data) == (Ok(m), more)
    ensures ReadAll(c, data) == ([m] + ReadAll(c, more).0, ReadAll(c, more).1)
  {
  }

  lemma CutInFirst<M(!new)>(c: Codec<M>, ms: seq<M>, n: nat)
    requires Encodable(c, ms) && ms != [] && n < |Encode(c, ms[0]).value|
    ensures n <= |Frames(c, ms)| && CutsRight(c, ms, n)
  {
    ReadCut(c, ms[0], n);
    assert Frames(c, ms)[..n] == Encode(c, ms[0]).value[..n];
  }

  lemma ReadAfterFirst<M(!new)>(c: Codec<M>, ms: seq<M>, n: nat)
    requires Encodable(c, ms) && ms != [] && |Encode(c, ms[0]).value| <= n <= |Frames(c, ms)|
    ensures var rest := ReadAll(c, Frames(c, ms[1..])[..n - |Encode(c, ms[0]).value|]);
            ReadAll(c, Frames(c, ms)[..n]) == ([ms[0]] + rest.0, rest.1)
  {
    var frame := Encode(c, ms[0]).value;
    var more := Frames(c, ms[1..])[..n - |frame|];
    PrefixOfConcat(frame, Frames(c, ms[1..]), n);
    ReadEncoded(c, ms[0], more);
    ReadAllStep(c, frame + more, ms[0], more);
  }

  lemma CutAfterFirst<M(!new)>(c: Codec<M>, ms: seq<M>, n: nat)
    requires Encodable(c, ms) && ms != [] && |Encode(c, ms[0]).value| <= n <= |Frames(c, ms)|
    requires CutsRight(c, ms[1..], n - |Encode(c, ms[0]).value|)
    ensures CutsRight(c, ms, n)
  {
    ReadAfterFirst(c, ms, n);
    FramesOfPart(c, ms, Whole(c, ms, n));
  }

  /**
   A stream cut after `n` bytes yields exactly the messages whose frames are complete; the
   reader then reports the end of the stream if the cut is between frames, an incomplete
   frame otherwise.
   */
  lemma {:induction false} CutStream<M(!new)>(c: Codec<M>, ms: seq<M>, n: nat)
    requires Encodable(c, ms) && n <= |Frames(c, ms)|
    ensures CutsRight(c, ms, n)
    decreases |ms|
  {
    if ms != [] {
      var frame := Encode(c, ms[0]).value;
      if n < |frame| {
        CutInFirst(c, ms, n);
      } else {
        CutStream(c, ms[1..], n - |frame|);
        CutAfterFirst(c, ms, n);
      }
    }
  }

  lemma {:induction false} AllWhole<M(!new)>(c: Codec<M>, ms: seq<M>)
    requires Encodable(c, ms)
    ensures Whole(c, ms, |Frames(c, ms)|) == |ms|
    decreases |ms|
  {
    if ms != [] {
      AllWhole(c, ms[1..]);
    }
  }

  /** Any list of encodable messages comes back as it was sent, followed by the end of the stream. */
  lemma StreamRoundTrip<M(!new)>(c: Codec<M>, ms: seq<M>)
    requires Encodable(c, ms)
    ensures ReadAll(c, Frames(c, ms)) == (ms, EofBeforeFrame)
  {
    AllWhole(c, ms);
    CutStream(c, ms, |Frames(c, ms)|);
    assert Frames(c, ms)[..|Frames(c, ms)|] == Frames(c, ms);
    assert ms[..|ms|] == ms;
  }

  // --- reading from a socket ---------------------------------------------------------

  /** A socket: `recv` returns any non-empty part of what remains, or nothing at its end. */
  class Stream {
    var remaining: seq<byte>

    constructor (data: seq<byte>)
      ensures remaining == data
    {
      remaining := data;
    }

    method Recv(n: nat) returns (chunk: seq<byte>)
      requires 0 < n
      modifies this
      ensures chunk + remaining == old(remaining) && |chunk| <= n
      ensures chunk == [] <==> old(remaining) == []
    {
      if remaining == [] {
        return [];
      }
      var k :| 1 <= k <= n && k <= |remaining|;
      chunk := remaining[..k];
      remaining := remaining[k..];
    }
  }

  /** Short reads are put together until `n` bytes are there or the stream ends. */
  method ReadExactly(stream: Stream, n: nat) returns (data: seq<byte>)
    modifies stream
    ensures data == Prefix(old(stream.remaining), n) && stream.remaining == Rest(old(stream.remaining), n)
  {
    data := [];
    var left := n;
    while left > 0
      invariant data + stream.remaining == old(stream.remaining)
      invariant |data| + left == n && 0 <= left
    {
      var chunk := stream.Recv(left);
      if chunk == [] {
        break;
      }
      data := data + chunk;
      left := left - |chunk|;
    }
    assert old(stream.remaining)[..|data|] == data && old(stream.remaining)[|data|..] == stream.remaining;
  }

  /** However the bytes arrive, the outcome and what is left are those of `Read`. */
  method ReadFrame<M>(c: Codec<M>, stream: Stream) returns (frame: Result<M, FrameError>)
    modifies stream
    ensures (frame, stream.remaining) == Read(c, old(stream.remaining))
  {
    var prefix := ReadExactly(stream, PREFIX_LEN);
    if prefix == [] {
      return Err(EofBeforeFrame);
    }
    if |prefix| < PREFIX_LEN {
      return Err(EofInPrefix);
    }
    var length := Unpack(prefix);
    if length > c.ceiling {
      return Err(FrameTooLarge);
    }
    var body := ReadExactly(stream, length);
    if |body| < length {
      return Err(EofInBody);
    }
    frame := ParseBody(c, body);
  }
}
