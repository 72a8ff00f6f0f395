/** The checkpoint frame codec of q1.py: each frame is an eight-byte big-endian length and that many bytes. */
module Frames {
  import opened Wrappers

  type Byte = x: int | 0 <= x < 256

  const HEADER_BYTES: nat := 8
  const MAX_FRAME_BYTES: nat := 32 * 1024 * 1024

  datatype FrameError =
    | EmptyPayload | BadCoordinates | TooLarge | HeaderTruncated | LengthDiffers | PayloadTruncated

  datatype Location = Location(offset: int, length: int)

  // ---------------------------------------------------------------- big-endian integers

  function Power256(width: nat): (p: nat)
    ensures p >= 1
  {
    if width == 0 then 1 else 256 * Power256(width - 1)
  }

  function Pack(n: nat, width: nat): (b: seq<Byte>)
    ensures |b| == width
  {
    if width == 0 then [] else Pack(n / 256, width - 1) + [n % 256]
  }

  function Unpack(b: seq<Byte>): (n: nat) {
    if b == [] then 0 else 256 * Unpack(b[..|b| - 1]) + b[|b| - 1]
  }

  lemma {:induction false} UnpackPack(n: nat, width: nat)
    requires n < Power256(width)
    ensures Unpack(Pack(n, width)) == n
  {
    if width > 0 {
      assert Pack(n, width)[..width - 1] == Pack(n / 256, width - 1);
      UnpackPack(n / 256, width - 1);
    }
  }

  lemma {:induction false} PackUnpack(b: seq<Byte>)
    ensures Unpack(b) < Power256(|b|) && Pack(Unpack(b), |b|) == b
  {
    if b != [] {
      var front := b[..|b| - 1];
      PackUnpack(front);
      assert Unpack(front) + 1 <= Power256(|front|);
      assert Unpack(b) / 256 == Unpack(front) && Unpack(b) % 256 == b[|b| - 1];
      assert b == front + [b[|b| - 1]];
    }
  }

  // The bound is far below what the header can express.
  lemma BoundFitsHeader(n: nat)
    requires n <= MAX_FRAME_BYTES
    ensures n < Power256(HEADER_BYTES)
  {
    assert Power256(4) == 256 * 256 * 256 * 256;
    assert Power256(8) == 256 * (256 * (256 * (256 * Power256(4))));
  }

  // ---------------------------------------------------------------- frames and files

  predicate Storable(p: seq<Byte>) {
    0 < |p| <= MAX_FRAME_BYTES
  }

  predicate AllStorable(ps: seq<seq<Byte>>) {
    forall i | 0 <= i < |ps| :: Storable(ps[i])
  }

  function Frame(p: seq<Byte>): seq<Byte> {
    Pack(|p|, HEADER_BYTES) + p
  }

  function Concat(ps: seq<seq<Byte>>): seq<Byte> {
    if ps == [] then [] else Concat(ps[..|ps| - 1]) + Frame(ps[|ps| - 1])
  }

  // Where frame i starts.
  function OffsetOf(ps: seq<seq<Byte>>, i: nat): nat
    requires i <= |ps|
  {
    if i == 0 then 0 else OffsetOf(ps, i - 1) + HEADER_BYTES + |ps[i - 1]|
  }

  // Bytes [offset, offset + count) of the file, cut off at its end, as seek and read deliver them.
  function Slice(file: seq<Byte>, offset: nat, count: nat): (s: seq<Byte>)
    ensures |s| <= count
  {
    if offset >= |file| then []
    else if offset + count <= |file| then file[offset..offset + count]
    else file[offset..]
  }

  // The seek-based reader of one indexed frame.
  function ReadAt(file: seq<Byte>, offset: int, length: int): Result<seq<Byte>, FrameError> {
    if offset < 0 || length <= 0 then Err(BadCoordinates)
    else if length > MAX_FRAME_BYTES then Err(TooLarge)
    else
      var header := Slice(file, offset, HEADER_BYTES);
      if |header| != HEADER_BYTES then Err(HeaderTruncated)
      else if Unpack(header) != length then Err(LengthDiffers)
      else
        var payload := Slice(file, offset + HEADER_BYTES, length);
        if |payload| != length then Err(PayloadTruncated) else Ok(payload)
  }

  // A frame is readable at an offset exactly when its encoding stands there.
  lemma ReadAtExactly(file: seq<Byte>, offset: int, length: int, p: seq<Byte>)
    ensures ReadAt(file, offset, length) == Ok(p) <==>
      && Storable(p) && length == |p| && 0 <= offset && offset + HEADER_BYTES + |p| <= |file|
      && file[offset..offset + HEADER_BYTES + |p|] == Frame(p)
  {
    if ReadAt(file, offset, length) == Ok(p) {
      var header := Slice(file, offset, HEADER_BYTES);
      PackUnpack(header);
      assert file[offset..offset + HEADER_BYTES + |p|] == header + p;
    }
    if Storable(p) && length == |p| && 0 <= offset && offset + HEADER_BYTES + |p| <= |file|
       && file[offset..offset + HEADER_BYTES + |p|] == Frame(p)
    {
      var frame := file[offset..offset + HEADER_BYTES + |p|];
      assert Slice(file, offset, HEADER_BYTES) == frame[..HEADER_BYTES] == Pack(|p|, HEADER_BYTES);
      assert Slice(file, offset + HEADER_BYTES, length) == frame[HEADER_BYTES..] == p;
      BoundFitsHeader(|p|);
      UnpackPack(|p|, HEADER_BYTES);
    }
  }

  lemma {:induction false} ConcatLength(ps: seq<seq<Byte>>)
    ensures |Concat(ps)| == OffsetOf(ps, |ps|)
  {
    if ps != [] {
      ConcatLength(ps[..|ps| - 1]);
      OffsetPrefix(ps, ps[..|ps| - 1], |ps| - 1);
    }
  }

  lemma {:induction false} OffsetPrefix(ps: seq<seq<Byte>>, qs: seq<seq<Byte>>, i: nat)
    requires i <= |qs| <= |ps| && qs == ps[..|qs|]
    ensures OffsetOf(ps, i) == OffsetOf(qs, i)
  {
    if i > 0 {
      OffsetPrefix(ps, qs, i - 1);
    }
  }

  // Frame i of a file occupies exactly its own stretch of the file.
  lemma {:induction false} ConcatAt(ps: seq<seq<Byte>>, i: nat)
    requires i < |ps|
    ensures OffsetOf(ps, i) + HEADER_BYTES + |ps[i]| <= |Concat(ps)|
    ensures Concat(ps)[OffsetOf(ps, i)..OffsetOf(ps, i) + HEADER_BYTES + |ps[i]|] == Frame(ps[i])
  {
    var rest := ps[..|ps| - 1];
    ConcatLength(rest);
    OffsetPrefix(ps, rest, |rest|);
    if i < |rest| {
      ConcatAt(rest, i);
      OffsetPrefix(ps, rest, i);
    }
  }

  lemma ConcatReads(ps: seq<seq<Byte>>, i: nat)
    requires i < |ps| && AllStorable(ps)
    ensures ReadAt(Concat(ps), OffsetOf(ps, i), |ps[i]|) == Ok(ps[i])
  {
    ConcatAt(ps, i);
    StandingReads(Concat(ps), OffsetOf(ps, i), ps[i]);
  }

  lemma StandingReads(file: seq<Byte>, offset: nat, p: seq<Byte>)
    requires Storable(p) && offset + HEADER_BYTES + |p| <= |file| && file[offset..offset + HEADER_BYTES + |p|] == Frame(p)
    ensures ReadAt(file, offset, |p|) == Ok(p)
  {
    ReadAtExactly(file, offset, |p|, p);
  }

  // Frame i of ps can be read from the file at its own place.
  ghost predicate StandsAt(file: seq<Byte>, ps: seq<seq<Byte>>, i: nat)
    requires i < |ps|
  {
    ReadAt(file, OffsetOf(ps, i), |ps[i]|) == Ok(ps[i])
  }

  lemma NextFrame(file: seq<Byte>, offset: nat, length: int, p: seq<Byte>)
    requires offset <= |file| && ReadAt(file, offset, length) == Ok(p)
    ensures offset + HEADER_BYTES + |p| <= |file| && length == |p|
    ensures file[..offset + HEADER_BYTES + |p|] == file[..offset] + Frame(p)
  {
    ReadAtExactly(file, offset, length, p);
    var end := offset + HEADER_BYTES + |p|;
    assert file[..end] == file[..offset] + file[offset..end];
  }

  // Frames that stand at their places make up the front of the file.
  lemma {:induction false} FramesAccumulate(file: seq<Byte>, ps: seq<seq<Byte>>, n: nat)
    requires n <= |ps| && forall i | 0 <= i < |ps| :: StandsAt(file, ps, i)
    ensures OffsetOf(ps, n) <= |file| && file[..OffsetOf(ps, n)] == Concat(ps[..n])
  {
    if n > 0 {
      FramesAccumulate(file, ps, n - 1);
      assert StandsAt(file, ps, n - 1);
      NextFrame(file, OffsetOf(ps, n - 1), |ps[n - 1]|, ps[n - 1]);
      assert ps[..n][..n - 1] == ps[..n - 1];
    }
  }

  // And all of it when they end where it ends.
  lemma FramesFill(file: seq<Byte>, ps: seq<seq<Byte>>)
    requires OffsetOf(ps, |ps|) == |file| && forall i | 0 <= i < |ps| :: StandsAt(file, ps, i)
    ensures file == Concat(ps)
  {
    FramesAccumulate(file, ps, |ps|);
    assert ps[..|ps|] == ps && file[..|file|] == file;
  }

  // A file of frames parses in only one way.
  lemma {:induction false} UniqueParse(ps: seq<seq<Byte>>, qs: seq<seq<Byte>>, n: nat)
    requires Concat(ps) == Concat(qs) && AllStorable(ps) && AllStorable(qs) && n <= |ps|
    ensures n <= |qs| && ps[..n] == qs[..n]
    ensures n == |ps| ==> ps == qs
  {
    if n > 0 {
      UniqueParse(ps, qs, n - 1);
      SameNextFrame(ps, qs, n - 1);
      assert ps[..n] == ps[..n - 1] + [ps[n - 1]] && qs[..n] == qs[..n - 1] + [qs[n - 1]];
    }
    if n == |ps| {
      NothingFollows(ps, qs);
    }
  }

  lemma SameOffset(ps: seq<seq<Byte>>, qs: seq<seq<Byte>>, n: nat)
    requires n <= |ps| && n <= |qs| && ps[..n] == qs[..n]
    ensures OffsetOf(ps, n) == OffsetOf(qs, n)
  {
    OffsetPrefix(ps, ps[..n], n);
    OffsetPrefix(qs, qs[..n], n);
  }

  lemma SameNextFrame(ps: seq<seq<Byte>>, qs: seq<seq<Byte>>, n: nat)
    requires Concat(ps) == Concat(qs) && AllStorable(ps) && AllStorable(qs)
    requires n < |ps| && n <= |qs| && ps[..n] == qs[..n]
    ensures n < |qs| && ps[n] == qs[n]
  {
    SameOffset(ps, qs, n);
    ConcatAt(ps, n);
    ConcatLength(qs);
    assert n < |qs|;
    ConcatAt(qs, n);
    SameHeader(Concat(ps), OffsetOf(ps, n), ps[n], qs[n]);
  }

  lemma NothingFollows(ps: seq<seq<Byte>>, qs: seq<seq<Byte>>)
    requires Concat(ps) == Concat(qs) && |ps| <= |qs| && ps[..|ps|] == qs[..|ps|]
    ensures ps == qs
  {
    SameCount(ps, qs, |Concat(ps)|);
    assert ps[..|ps|] == ps && qs[..|qs|] == qs;
  }

  lemma SameCount(ps: seq<seq<Byte>>, qs: seq<seq<Byte>>, length: nat)
    requires length == |Concat(ps)| && length == |Concat(qs)| && |ps| <= |qs| && ps[..|ps|] == qs[..|ps|]
    ensures |ps| == |qs|
  {
    SameOffset(ps, qs, |ps|);
    ConcatLength(ps);
    FramesFollow(qs, |ps|);
  }

  lemma FramesFollow(qs: seq<seq<Byte>>, n: nat)
    requires n <= |qs| && |Concat(qs)| == OffsetOf(qs, n)
    ensures n == |qs|
  {
    if n < |qs| {
      ConcatAt(qs, n);
    }
  }

  lemma SameHeader(file: seq<Byte>, offset: nat, p: seq<Byte>, q: seq<Byte>)
    requires Storable(p) && Storable(q)
    requires offset + HEADER_BYTES + |p| <= |file| && offset + HEADER_BYTES + |q| <= |file|
    requires file[offset..offset + HEADER_BYTES + |p|] == Frame(p)
    requires file[offset..offset + HEADER_BYTES + |q|] == Frame(q)
    ensures p == q
  {
    ReadAtExactly(file, offset, |p|, p);
    ReadAtExactly(file, offset, |q|, q);
  }

  // ---------------------------------------------------------------- streams

  // A binary file object: its bytes and the position of the next read or write.
  class Stream {
    var data: seq<Byte>
    var pos: nat

    constructor (data: seq<Byte>)
      ensures this.data == data && pos == 0
    {
      this.data := data;
      pos := 0;
    }

    method Read(count: nat) returns (chunk: seq<Byte>)
      modifies this`pos
      ensures chunk == Slice(data, old(pos), count) && pos == old(pos) + |chunk|
    {
      chunk := Slice(data, pos, count);
      pos := pos + |chunk|;
    }

    // Writers are freshly created files, so a write always lands at the end.
    method Write(chunk: seq<Byte>)
      requires pos == |data|
      modifies this
      ensures data == old(data) + chunk && pos == |data|
    {
      data := data + chunk;
      pos := |data|;
    }
  }

  method AppendFrame(stream: Stream, payload: seq<Byte>) returns (r: Result<Location, FrameError>)
    requires stream.pos == |stream.data|
    modifies stream
    ensures stream.pos == |stream.data|
    ensures r.Ok? <==> Storable(payload)
    ensures r.Ok? ==> r.value == Location(|old(stream.data)|, |payload|) && stream.data == old(stream.data) + Frame(payload)
    ensures r.Err? ==> stream.data == old(stream.data) && r.error == if payload == [] then EmptyPayload else TooLarge
  {
    if payload == [] {
      return Err(EmptyPayload);
    }
    if |payload| > MAX_FRAME_BYTES {
      return Err(TooLarge);
    }
    var offset := stream.pos;
    stream.Write(Pack(|payload|, HEADER_BYTES));
    stream.Write(payload);
    return Ok(Location(offset, |payload|));
  }

  method ReadFrame(stream: Stream, offset: int, length: int) returns (r: Result<seq<Byte>, FrameError>)
    modifies stream`pos
    ensures r == ReadAt(stream.data, offset, length)
    ensures r.Ok? ==> stream.pos == offset + HEADER_BYTES + length
  {
    if offset < 0 || length <= 0 {
      return Err(BadCoordinates);
    }
    if length > MAX_FRAME_BYTES {
      return Err(TooLarge);
    }
    stream.pos := offset;
    var header := stream.Read(HEADER_BYTES);
    if |header| != HEADER_BYTES {
      return Err(HeaderTruncated);
    }
    if Unpack(header) != length {
      return Err(LengthDiffers);
    }
    var payload := stream.Read(length);
    if |payload| != length {
      return Err(PayloadTruncated);
    }
    return Ok(payload);
  }
}
