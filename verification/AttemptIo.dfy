/** The two descriptor loops of the attempt registry (attempt.py): writing a whole document over short writes, and
    reading one back within a bound over short reads. */
module AttemptIo {
  import opened Wrappers

  type Byte = x: int | 0 <= x < 256

  datatype IoError = NoProgress | TooLong

  const CHUNK: nat := 1024 * 1024

  // An open file. What the operating system does with the n-th request is arbitrary: a write takes any number of
  // the bytes offered, or none, and a read delivers at least one of the bytes asked for unless the file has ended.
  class Descriptor {
    var data: seq<Byte>
    var pos: nat
    var requests: nat
    const takes: nat -> int
    const delivers: nat -> nat

    constructor (data: seq<Byte>, takes: nat -> int, delivers: nat -> nat)
      ensures this.data == data && pos == 0 && this.takes == takes
    {
      this.data, this.takes, this.delivers := data, takes, delivers;
      pos, requests := 0, 0;
    }

    method Write(payload: seq<Byte>) returns (written: int)
      modifies this`data, this`requests
      ensures written <= |payload|
      ensures data == old(data) + if written <= 0 then [] else payload[..written]
    {
      written := takes(requests);
      if written > |payload| {
        written := |payload|;
      }
      requests := requests + 1;
      if written > 0 {
        data := data + payload[..written];
      }
    }

    method Read(count: nat) returns (chunk: seq<Byte>)
      requires count > 0 && pos <= |data|
      modifies this`pos, this`requests
      ensures old(pos) <= pos <= |data| && chunk == data[old(pos)..pos] && |chunk| <= count
      ensures chunk == [] <==> old(pos) == |data|
    {
      var most := if |data| - pos < count then |data| - pos else count;
      var size := delivers(requests);
      if size > most {
        size := most;
      }
      if size == 0 && most > 0 {
        size := 1;
      }
      requests := requests + 1;
      chunk := data[pos..pos + size];
      pos := pos + size;
    }
  }

  // All of the payload is written, or some write took nothing and a proper prefix of it stands at the end.
  method WriteAll(d: Descriptor, payload: seq<Byte>) returns (r: Result<(), IoError>, ghost reached: nat)
    modifies d`data, d`requests
    ensures reached <= |payload| && d.data == old(d.data) + payload[..reached]
    ensures r.Ok? <==> reached == |payload|
  {
    var offset := 0;
    reached := 0;
    while offset < |payload|
      invariant reached == offset <= |payload| && d.data == old(d.data) + payload[..offset]
    {
      var written := d.Write(payload[offset..]);
      if written <= 0 {
        return Err(NoProgress), reached;
      }
      assert payload[..offset + written] == payload[..offset] + payload[offset..][..written];
      offset := offset + written;
      reached := offset;
    }
    return Ok(()), reached;
  }

  // The rest of the file, exactly when it fits the limit.
  method ReadBounded(d: Descriptor, limit: nat) returns (r: Result<seq<Byte>, IoError>)
    requires d.pos <= |d.data|
    modifies d`pos, d`requests
    ensures r == if |d.data| - old(d.pos) <= limit then Ok(d.data[old(d.pos)..]) else Err(TooLong)
  {
    var total := 0;
    var chunks: seq<Byte> := [];
    while true
      invariant d.pos <= |d.data| && d.pos == old(d.pos) + total && total <= limit
      invariant chunks == d.data[old(d.pos)..d.pos]
      decreases |d.data| - d.pos
    {
      var chunk := d.Read(if CHUNK < limit + 1 - total then CHUNK else limit + 1 - total);
      if chunk == [] {
        break;
      }
      total := total + |chunk|;
      if total > limit {
        return Err(TooLong);
      }
      chunks := chunks + chunk;
    }
    assert d.data[old(d.pos)..|d.data|] == d.data[old(d.pos)..];
    return Ok(chunks);
  }

  // A document that was written completely is read back completely, however the system cuts the requests.
  method WriteThenRead(payload: seq<Byte>, limit: nat, takes: nat -> int, delivers: nat -> nat)
    returns (written: Result<(), IoError>, back: Result<seq<Byte>, IoError>)
    requires |payload| <= limit
    ensures written.Ok? ==> back == Ok(payload)
    ensures written.Err? ==> back.Ok? && |back.value| < |payload| && back.value == payload[..|back.value|]
  {
    var d := new Descriptor([], takes, delivers);
    ghost var reached;
    written, reached := WriteAll(d, payload);
    back := ReadBounded(d, limit);
    assert d.data == payload[..reached];
    assert payload[..|payload|] == payload;
  }
}
