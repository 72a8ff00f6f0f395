/** The auditor's single pass over the published evidence (q1_audit.py): every byte is hashed while it is parsed,
    four row files and one frame file are walked in lockstep, and whatever is wrong is recorded as a violation. */
module AuditStream {
  import opened Wrappers
  import opened Frames
  import opened Violations
  import opened Merge
  import opened Consolidation

  const NEWLINE: Byte := 10
  const MAX_ROW_BYTES: nat := 32 * 1024 * 1024
  const CHUNK: nat := 1024 * 1024

  // The fields of a decoded row that the pass itself looks at; `body` stands for the rest.
  // `pid` is the process a raw row or a restored row names, if it is a number.
  datatype Row = Row(key: Key, offset: int, headerBytes: int, length: int, digest: nat, pid: Option<int>, body: nat)

  datatype Evidence = Evidence(raw: seq<Byte>, private_: seq<Byte>, index: seq<Byte>, restored: seq<Byte>, frames: seq<Byte>)

  datatype Reading = Reading(key: Key, raw: Option<Row>, private_: Option<Row>, index: Option<Row>, restored: Option<Row>,
                             payload: Option<seq<Byte>>)

  // What the semantic check of one episode says: its faults, and the return it reconstructed. Only an episode that is
  // already at fault is left without a return.
  datatype Judgement = Judgement(faults: seq<Fault>, score: Option<real>)
  type Verdict = j: Judgement | j.faults != [] || j.score.Some? witness Judgement([], Some(0.0))

  // Canonical decoding of one line, SHA-256, the semantic check of a raw row with its private row, and every other
  // check of one episode; None means it raised.
  datatype Checks = Checks(
    parse: seq<Byte> -> Option<Row>, sha: seq<Byte> -> nat, episode: (Row, Row) -> Option<Verdict>,
    other: Reading -> Option<seq<Fault>>)

  // ---------------------------------------------------------------- physical lines

  // The end of the line that starts at pos: after its newline, or the end of the file.
  function LineEnd(data: seq<Byte>, pos: nat): (end: nat)
    requires pos <= |data|
    ensures pos <= end <= |data| && (pos < |data| ==> pos < end)
    decreases |data| - pos
  {
    if pos == |data| then pos else if data[pos] == NEWLINE then pos + 1 else LineEnd(data, pos + 1)
  }

  function LineStart(data: seq<Byte>, i: nat): (start: nat)
    ensures start <= |data|
  {
    if i == 0 then 0 else LineEnd(data, LineStart(data, i - 1))
  }

  function LineAt(data: seq<Byte>, i: nat): seq<Byte> {
    data[LineStart(data, i)..LineStart(data, i + 1)]
  }

  function LinesFrom(data: seq<Byte>, pos: nat): nat
    requires pos <= |data|
    decreases |data| - pos
  {
    if pos == |data| then 0 else 1 + LinesFrom(data, LineEnd(data, pos))
  }

  // A read that stops inside a line leaves the rest of that line; one that stops at a newline has finished it.
  lemma {:induction false} LineEndFrom(data: seq<Byte>, p: nat, q: nat)
    requires p < q && p <= |data| && q <= LineEnd(data, p)
    ensures data[q - 1] == NEWLINE ==> LineEnd(data, p) == q
    ensures data[q - 1] != NEWLINE ==> LineEnd(data, q) == LineEnd(data, p)
    decreases q - p
  {
    if p + 1 < q {
      LineEndFrom(data, p + 1, q);
    }
  }

  function Newlines(data: seq<Byte>, from: nat, to: nat): nat
    requires from <= to <= |data|
  {
    if from == to then 0 else Newlines(data, from, to - 1) + (if data[to - 1] == NEWLINE then 1 else 0)
  }

  lemma {:induction false} NewlinesSplit(data: seq<Byte>, from: nat, mid: nat, to: nat)
    requires from <= mid <= to <= |data|
    ensures Newlines(data, from, to) == Newlines(data, from, mid) + Newlines(data, mid, to)
  {
    if mid < to {
      NewlinesSplit(data, from, mid, to - 1);
    }
  }

  lemma {:induction false} NewlinesInLine(data: seq<Byte>, p: nat, q: nat)
    requires p < q && p <= |data| && q <= LineEnd(data, p)
    ensures Newlines(data, p, q) == if data[q - 1] == NEWLINE then 1 else 0
    decreases q
  {
    if p + 1 < q {
      NewlinesInLine(data, p, q - 1);
      LineEndFrom(data, p, q - 1);
    }
  }

  // Counting newlines, and one more for an unfinished last line, counts physical lines.
  lemma {:induction false} CountingLines(data: seq<Byte>, pos: nat)
    requires pos <= |data|
    ensures LinesFrom(data, pos) ==
            Newlines(data, pos, |data|) + (if pos < |data| && data[|data| - 1] != NEWLINE then 1 else 0)
    decreases |data| - pos
  {
    if pos < |data| {
      var end := LineEnd(data, pos);
      CountingLines(data, end);
      NewlinesSplit(data, pos, end, |data|);
      NewlinesInLine(data, pos, end);
      LineEndFrom(data, pos, end);
    }
  }

  // ---------------------------------------------------------------- an open file and its digest

  class Channel {
    const data: seq<Byte>
    var pos: nat
    var fed: seq<Byte>       // what the digest has been given so far
    var lines: nat           // rows seen so far

    ghost predicate Covered()
      reads this
    {
      pos <= |data| && fed == data[..pos]
    }

    constructor (data: seq<Byte>)
      ensures this.data == data && AtRow(0)
    {
      this.data := data;
      pos, fed, lines := 0, [], 0;
    }

    // Everything read was hashed, and the rows read and those still to come are all the rows there are.
    ghost predicate Counted()
      reads this
    {
      Covered() && lines + LinesFrom(data, pos) == LinesFrom(data, 0)
    }

    ghost predicate AtRow(i: nat)
      reads this
    {
      Counted() && pos == LineStart(data, i)
    }

    // At most `limit` bytes, up to and including the next newline.
    method ReadLine(limit: nat) returns (line: seq<Byte>)
      requires limit > 0 && pos <= |data|
      modifies this`pos
      ensures old(pos) <= pos <= LineEnd(data, old(pos)) && line == data[old(pos)..pos]
      ensures pos == LineEnd(data, old(pos)) || |line| == limit
      ensures |line| <= limit
    {
      var end := LineEnd(data, pos);
      if end > pos + limit {
        end := pos + limit;
      }
      line := data[pos..end];
      pos := end;
    }

    method Read(count: nat) returns (chunk: seq<Byte>)
      requires pos <= |data|
      modifies this`pos
      ensures chunk == Slice(data, old(pos), count) && pos == old(pos) + |chunk| <= |data| && chunk == data[old(pos)..pos]
    {
      chunk := Slice(data, pos, count);
      pos := pos + |chunk|;
    }

    method Update(chunk: seq<Byte>)
      modifies this`fed
      ensures fed == old(fed) + chunk
    {
      fed := fed + chunk;
    }

    // Up to `count` bytes, hashed as they are read.
    method Take(count: nat) returns (chunk: seq<Byte>)
      requires Covered()
      modifies this`pos, this`fed
      ensures Covered() && pos == old(pos) + |chunk| && chunk == Slice(data, old(pos), count) == data[old(pos)..pos]
    {
      chunk := Read(count);
      Update(chunk);
    }

    // A line too long to keep is still read, and hashed, to its end.
    method SkipLine(ghost start: nat)
      requires Covered() && start < pos && LineEnd(data, pos) == LineEnd(data, start) && data[pos - 1] != NEWLINE
      modifies this`pos, this`fed
      ensures Covered() && pos == LineEnd(data, start)
    {
      while true
        invariant Covered() && start < pos && LineEnd(data, pos) == LineEnd(data, start)
        decreases |data| - pos
      {
        ghost var before := pos;
        var continuation := ReadLine(MAX_ROW_BYTES + 1);
        if continuation == [] {
          break;
        }
        Update(continuation);
        LineEndFrom(data, before, pos);
        if continuation[|continuation| - 1] == NEWLINE {
          break;
        }
      }
    }

    method ReadRow(parse: seq<Byte> -> Option<Row>, v: Accumulator) returns (row: Option<Row>, present: bool)
      requires Covered() && v.Valid()
      modifies this`pos, this`fed, v
      ensures Covered() && v.Valid() && pos == LineEnd(data, old(pos))
      ensures present <==> old(pos) < |data|
      ensures row == RowOf(data[old(pos)..pos], parse)
      ensures v.Clean() <==> old(v.Clean()) && (present ==> row.Some?)
    {
      ghost var start := pos;
      var line := ReadLine(MAX_ROW_BYTES + 1);
      if line == [] {
        return None, false;
      }
      Update(line);
      var oversized := |line| > MAX_ROW_BYTES;
      LineEndFrom(data, start, pos);
      if oversized && line[|line| - 1] != NEWLINE {
        SkipLine(start);
      }
      assert pos == LineEnd(data, start) && (oversized || data[start..pos] == line);
      row := Decode(line, oversized, parse, v);
      present := true;
    }

    method Decode(line: seq<Byte>, oversized: bool, parse: seq<Byte> -> Option<Row>, v: Accumulator) returns (row: Option<Row>)
      requires v.Valid()
      modifies v
      ensures v.Valid() && row == if oversized then None else parse(line)
      ensures v.Clean() <==> old(v.Clean()) && row.Some?
    {
      if oversized {
        v.Add(K0, "exceeds the bounded row limit");
        return None;
      }
      row := parse(line);
      if row.None? {
        v.Add(K0, "row rejected");
      }
    }

    // Row i, which must carry `key`.
    method ReadKeyed(ghost i: nat, key: Key, parse: seq<Byte> -> Option<Row>, v: Accumulator) returns (row: Option<Row>)
      requires AtRow(i) && v.Valid()
      modifies this, v
      ensures AtRow(i + 1) && v.Valid()
      ensures row == RowOf(LineAt(data, i), parse)
      ensures v.Clean() <==> old(v.Clean()) && Keyed(row, key)
    {
      var present: bool;
      row, present := ReadRow(parse, v);
      if present {
        lines := lines + 1;
      } else {
        v.Add(K0, "misses a row");
      }
      if row.Some? && row.value.key != key {
        v.Add(K0, "differs from frozen lockstep key");
      }
    }

    // Read to the end; anything still there is out of budget.
    method Drain(v: Accumulator)
      requires Counted() && v.Valid()
      modifies this, v
      ensures Counted() && pos == |data| && v.Valid()
      ensures v.Clean() <==> old(v.Clean()) && old(pos) == |data|
    {
      var bytes, rows := ConsumeRemainder();
      if bytes != 0 {
        lines := lines + rows;
        v.Add(K0, "trailing out-of-budget rows");
      }
    }

    // The digest of everything fed must be the committed one.
    method CheckDigest(sha: seq<Byte> -> nat, committed: nat, v: Accumulator)
      requires Covered() && pos == |data| && v.Valid()
      modifies v
      ensures v.Valid()
      ensures v.Clean() <==> old(v.Clean()) && sha(data) == committed
    {
      assert data[..|data|] == data;
      if sha(fed) != committed {
        v.Add(K0, "changed between committed hash and semantic pass");
      }
    }

    // What is left of the file, and how many rows that is.
    method ConsumeRemainder() returns (bytes: nat, rows: nat)
      requires Covered()
      modifies this`pos, this`fed
      ensures Covered() && pos == |data|
      ensures bytes == |data| - old(pos) && rows == LinesFrom(data, old(pos))
    {
      ghost var start := pos;
      var newlines, last := 0, NEWLINE;
      bytes := 0;
      while pos < |data|
        invariant Covered() && start <= pos && bytes == pos - start
        invariant newlines == Newlines(data, start, pos)
        invariant bytes > 0 ==> last == data[pos - 1]
        decreases |data| - pos
      {
        ghost var before := pos;
        var chunk := Take(CHUNK);
        bytes := bytes + |chunk|;
        newlines := newlines + Newlines(chunk, 0, |chunk|);
        last := chunk[|chunk| - 1];
        NewlinesSplit(data, start, before, pos);
        NewlinesShift(data, chunk, before, |chunk|);
      }
      CountingLines(data, start);
      rows := newlines + (if bytes != 0 && last != NEWLINE then 1 else 0);
    }

    // Up to `size` bytes in bounded chunks; kept only if asked.
    method ReadHashed(size: nat, retain: bool) returns (payload: seq<Byte>, consumed: nat)
      requires Covered()
      modifies this`pos, this`fed
      ensures Covered() && pos == old(pos) + consumed && consumed == |Slice(data, old(pos), size)|
      ensures payload == if retain then Slice(data, old(pos), size) else []
    {
      var remaining := size;
      payload, consumed := [], 0;
      ghost var start := pos;
      while remaining > 0
        invariant Covered() && 0 <= remaining <= size && consumed == size - remaining && pos == start + consumed
        invariant payload == if retain then data[start..pos] else []
      {
        var chunk := Take(if remaining < CHUNK then remaining else CHUNK);
        if chunk == [] {
          assert pos == |data|;
          break;
        }
        consumed := consumed + |chunk|;
        remaining := remaining - |chunk|;
        if retain {
          payload := payload + chunk;
        }
      }
      assert data[start..pos] == Slice(data, start, size);
    }

    method CheckIndex(index: Option<Row>, expectedOffset: nat, length: nat, v: Accumulator)
      requires v.Valid()
      modifies v
      ensures v.Valid()
      ensures v.Clean() <==> old(v.Clean()) && Indexes(index, expectedOffset, length)
    {
      if index.None? {
        v.Add(K0, "lacks a decodable checkpoint index row");
      } else {
        if index.value.offset != expectedOffset {
          v.Add(K0, "frame offset is not contiguous");
        }
        if index.value.headerBytes != HEADER_BYTES {
          v.Add(K0, "frame header width differs from eight");
        }
        if index.value.length != length {
          v.Add(K0, "frame header differs from indexed length");
        }
      }
    }

    // The payload behind a header that declares `length` bytes.
    method ReadPayload(length: nat, expectedOffset: nat, v: Accumulator) returns (payload: Option<seq<Byte>>, next: nat)
      requires Covered() && v.Valid()
      modifies this`pos, this`fed, v
      ensures Covered() && v.Valid() && pos == old(pos) + |Slice(data, old(pos), length)|
      ensures next == expectedOffset + HEADER_BYTES + (pos - old(pos))
      ensures payload == PayloadAt(data, old(pos), length)
      ensures v.Clean() <==> old(v.Clean()) && payload.Some?
    {
      var retain := 0 < length <= MAX_FRAME_BYTES;
      var bytes, consumed := ReadHashed(length, retain);
      next := expectedOffset + HEADER_BYTES + consumed;
      if consumed != length {
        v.Add(K0, "checkpoint frame payload is truncated");
        return None, next;
      }
      if !retain {
        v.Add(K0, "checkpoint frame exceeds the bound");
        return None, next;
      }
      return Some(bytes), next;
    }

    method ReadCheckpoint(index: Option<Row>, expectedOffset: nat, v: Accumulator)
      returns (payload: Option<seq<Byte>>, next: nat)
      requires Covered() && v.Valid() && expectedOffset == pos
      modifies this`pos, this`fed, v
      ensures Covered() && v.Valid() && next == pos == FrameNext(data, old(pos))
      ensures payload == FramePayload(data, old(pos))
      ensures v.Clean() <==> old(v.Clean()) && FrameClean(data, old(pos), index)
    {
      FrameParts(data, pos, index);
      var header := Take(HEADER_BYTES);
      if |header| != HEADER_BYTES {
        v.Add(K0, "checkpoint frame header is truncated/missing");
        return None, expectedOffset + |header|;
      }
      payload, next := ReadIndexed(index, expectedOffset, Unpack(header), v);
    }

    // The rest of the frame behind a whole header.
    method ReadIndexed(index: Option<Row>, expectedOffset: nat, length: nat, v: Accumulator)
      returns (payload: Option<seq<Byte>>, next: nat)
      requires Covered() && v.Valid() && expectedOffset + HEADER_BYTES == pos
      modifies this`pos, this`fed, v
      ensures Covered() && v.Valid() && next == pos == old(pos) + |Slice(data, old(pos), length)|
      ensures payload == PayloadAt(data, old(pos), length)
      ensures v.Clean() <==> old(v.Clean()) && Indexes(index, expectedOffset, length) && payload.Some?
    {
      CheckIndex(index, expectedOffset, length, v);
      payload, next := ReadPayload(length, expectedOffset, v);
    }
  }

  lemma {:induction false} NewlinesShift(data: seq<Byte>, chunk: seq<Byte>, at: nat, n: nat)
    requires at + |chunk| <= |data| && chunk == data[at..at + |chunk|] && n <= |chunk|
    ensures Newlines(data, at, at + n) == Newlines(chunk, 0, n)
  {
    if n > 0 {
      NewlinesShift(data, chunk, at, n - 1);
    }
  }

  function RowOf(line: seq<Byte>, parse: seq<Byte> -> Option<Row>): Option<Row> {
    if line == [] || |line| > MAX_ROW_BYTES then None else parse(line)
  }

  predicate Keyed(row: Option<Row>, key: Key) {
    row.Some? && row.value.key == key
  }

  // ---------------------------------------------------------------- frames read one after the other

  function FrameNext(data: seq<Byte>, pos: nat): (next: nat)
    requires pos <= |data|
    ensures pos <= next <= |data|
  {
    var header := Slice(data, pos, HEADER_BYTES);
    if |header| < HEADER_BYTES then pos + |header|
    else pos + HEADER_BYTES + |Slice(data, pos + HEADER_BYTES, Unpack(header))|
  }

  function FramePayload(data: seq<Byte>, pos: nat): Option<seq<Byte>>
    requires pos <= |data|
  {
    var header := Slice(data, pos, HEADER_BYTES);
    if |header| < HEADER_BYTES then None
    else PayloadAt(data, pos + HEADER_BYTES, Unpack(header))
  }

  function PayloadAt(data: seq<Byte>, pos: nat, length: nat): Option<seq<Byte>> {
    var payload := Slice(data, pos, length);
    if |payload| == length && 0 < length <= MAX_FRAME_BYTES then Some(payload) else None
  }

  predicate Indexes(index: Option<Row>, pos: nat, length: nat) {
    && index.Some? && index.value.offset == pos && index.value.headerBytes == HEADER_BYTES
    && index.value.length == length
  }

  // The index row describes the frame at pos, as the producer's own reader would find it.
  predicate FrameClean(data: seq<Byte>, pos: nat, index: Option<Row>) {
    && index.Some? && index.value.offset == pos && index.value.headerBytes == HEADER_BYTES
    && ReadAt(data, pos, index.value.length).Ok?
  }

  lemma FrameCleanMeans(data: seq<Byte>, pos: nat, index: Option<Row>)
    requires pos <= |data|
    ensures var header := Slice(data, pos, HEADER_BYTES);
      FrameClean(data, pos, index) <==>
      |header| == HEADER_BYTES && Indexes(index, pos, Unpack(header)) && FramePayload(data, pos).Some?
  {
  }

  // What a frame is, part by part, in the order in which it is read.
  lemma FrameParts(data: seq<Byte>, pos: nat, index: Option<Row>)
    requires pos <= |data|
    ensures var header := Slice(data, pos, HEADER_BYTES);
      if |header| < HEADER_BYTES
      then FrameNext(data, pos) == pos + |header| && FramePayload(data, pos) == None && !FrameClean(data, pos, index)
      else
        var payload := PayloadAt(data, pos + HEADER_BYTES, Unpack(header));
        && FrameNext(data, pos) == pos + HEADER_BYTES + |Slice(data, pos + HEADER_BYTES, Unpack(header))|
        && FramePayload(data, pos) == payload
        && (FrameClean(data, pos, index) <==> Indexes(index, pos, Unpack(header)) && payload.Some?)
  {
    FrameCleanMeans(data, pos, index);
  }

  lemma FrameCleanReads(data: seq<Byte>, pos: nat, index: Option<Row>)
    requires pos <= |data| && FrameClean(data, pos, index)
    ensures FramePayload(data, pos) == Some(ReadAt(data, pos, index.value.length).value)
    ensures FrameNext(data, pos) == pos + HEADER_BYTES + index.value.length
  {
  }

  function FrameStart(data: seq<Byte>, i: nat): (start: nat)
    ensures start <= |data|
  {
    if i == 0 then 0 else FrameNext(data, FrameStart(data, i - 1))
  }

  // ---------------------------------------------------------------- what the pass demands

  function ReadingOf(e: Evidence, checks: Checks, key: Key, i: nat): Reading {
    Reading(
      key,
      RowOf(LineAt(e.raw, i), checks.parse), RowOf(LineAt(e.private_, i), checks.parse),
      RowOf(LineAt(e.index, i), checks.parse), RowOf(LineAt(e.restored, i), checks.parse),
      FramePayload(e.frames, FrameStart(e.frames, i)))
  }

  predicate RowsKeyed(r: Reading) {
    Keyed(r.raw, r.key) && Keyed(r.private_, r.key) && Keyed(r.index, r.key) && Keyed(r.restored, r.key)
  }

  // Row i of every file is as it must be for `key`.
  predicate RowClean(e: Evidence, checks: Checks, key: Key, i: nat) {
    var r := ReadingOf(e, checks, key, i);
    && RowsKeyed(r)
    && FrameClean(e.frames, FrameStart(e.frames, i), r.index)
    && r.payload.Some? && checks.sha(r.payload.value) == r.index.value.digest
    && EpisodeClean(checks, r.raw, r.private_) && checks.other(r) == Some([])
  }

  // The semantic check runs where both rows were read.
  function EpisodeOf(checks: Checks, raw: Option<Row>, private_: Option<Row>): Option<Verdict> {
    if raw.Some? && private_.Some? then checks.episode(raw.value, private_.value) else None
  }

  predicate EpisodeClean(checks: Checks, raw: Option<Row>, private_: Option<Row>) {
    raw.Some? && private_.Some? ==> EpisodeOf(checks, raw, private_).Some? && EpisodeOf(checks, raw, private_).value.faults == []
  }

  // The return reconstructed from row i, if there is one.
  function ScoreAt(e: Evidence, checks: Checks, key: Key, i: nat): Option<real> {
    var r := ReadingOf(e, checks, key, i);
    match EpisodeOf(checks, r.raw, r.private_) case Some(j) => j.score case None => None
  }

  ghost predicate RowsClean(e: Evidence, checks: Checks, keys: seq<Key>, n: nat)
    requires n <= |keys|
  {
    forall i {:trigger RowClean(e, checks, keys[i], i)} | 0 <= i < n :: RowClean(e, checks, keys[i], i)
  }

  lemma RowsCleanNext(e: Evidence, checks: Checks, keys: seq<Key>, i: nat)
    requires i < |keys|
    ensures RowsClean(e, checks, keys, i + 1) <==> RowsClean(e, checks, keys, i) && RowClean(e, checks, keys[i], i)
    ensures RowsClean(e, checks, keys, |keys|) ==> RowClean(e, checks, keys[i], i)
  {
  }

  // The masters and arms met so far, the returns of every lane in the order they were reconstructed, and the processes
  // that produced for a master or restored for a lane.
  datatype Seen = Seen(masters: set<int>, arms: set<int>, scores: map<(int, int), seq<real>>,
                       producers: map<int, set<int>>, restorers: map<(int, int), set<int>>)

  // What one row adds: whether its raw row was read, the return reconstructed from it, and its two processes.
  datatype Found = Found(present: bool, score: Option<real>, producer: Option<int>, restorer: Option<int>)

  function Note(seen: Seen, key: Key, found: Found): Seen {
    Seen(if found.present then seen.masters + {key.master} else seen.masters,
         if found.present then seen.arms + {key.arm} else seen.arms,
         Appended(seen.scores, (key.master, key.arm), found.score),
         WithPid(seen.producers, key.master, found.producer), WithPid(seen.restorers, (key.master, key.arm), found.restorer))
  }

  function WithPid<K>(pids: map<K, set<int>>, at: K, pid: Option<int>): map<K, set<int>> {
    if pid.None? then pids else pids[at := PidsAt(pids, at) + {pid.value}]
  }

  function PidsAt<K>(pids: map<K, set<int>>, at: K): set<int> {
    if at in pids then pids[at] else {}
  }

  function Appended(scores: map<(int, int), seq<real>>, at: (int, int), score: Option<real>): map<(int, int), seq<real>> {
    if score.None? then scores else scores[at := ReturnsAt(scores, at) + [score.value]]
  }

  function ReturnsAt(scores: map<(int, int), seq<real>>, at: (int, int)): seq<real> {
    if at in scores then scores[at] else []
  }

  function SeenOf(keys: seq<Key>, found: seq<Found>, n: nat): Seen
    requires n <= |keys| == |found|
  {
    if n == 0 then Seen({}, {}, map[], map[], map[]) else Note(SeenOf(keys, found, n - 1), keys[n - 1], found[n - 1])
  }

  function PidOf(row: Option<Row>): Option<int> {
    match row case None => None case Some(r) => r.pid
  }

  function FoundAt(e: Evidence, checks: Checks, key: Key, i: nat): Found {
    var r := ReadingOf(e, checks, key, i);
    Found(r.raw.Some?, ScoreAt(e, checks, key, i), PidOf(r.raw), PidOf(r.restored))
  }

  function AllFound(e: Evidence, checks: Checks, keys: seq<Key>): (found: seq<Found>)
    ensures |found| == |keys|
  {
    seq(|keys|, i requires 0 <= i < |keys| => FoundAt(e, checks, keys[i], i))
  }

  function SeenIn(e: Evidence, checks: Checks, keys: seq<Key>, n: nat): Seen
    requires n <= |keys|
  {
    SeenOf(keys, AllFound(e, checks, keys), n)
  }

  // No file has a byte after row or frame n.
  predicate EndsAfter(e: Evidence, n: nat) {
    && LineStart(e.raw, n) == |e.raw| && LineStart(e.private_, n) == |e.private_|
    && LineStart(e.index, n) == |e.index| && LineStart(e.restored, n) == |e.restored|
    && FrameStart(e.frames, n) == |e.frames|
  }

  datatype Digests = Digests(raw: nat, private_: nat, index: nat, restored: nat, frames: nat)

  function DigestsOf(e: Evidence, sha: seq<Byte> -> nat): Digests {
    Digests(sha(e.raw), sha(e.private_), sha(e.index), sha(e.restored), sha(e.frames))
  }

  ghost predicate CleanEvidence(e: Evidence, checks: Checks, committed: Digests, keys: seq<Key>) {
    RowsClean(e, checks, keys, |keys|) && EndsAfter(e, |keys|) && DigestsOf(e, checks.sha) == committed
  }

  // ---------------------------------------------------------------- the pass

  class Pass {
    const e: Evidence
    const checks: Checks
    const keys: seq<Key>
    const raw: Channel
    const private_: Channel
    const index: Channel
    const restored: Channel
    const frames: Channel
    const v: Accumulator
    var frameOffset: nat

    ghost predicate Valid()
      reads v
    {
      && v.Valid()
      && raw != private_ && raw != index && raw != restored && raw != frames
      && private_ != index && private_ != restored && private_ != frames
      && index != restored && index != frames && restored != frames
      && raw.data == e.raw && private_.data == e.private_ && index.data == e.index
      && restored.data == e.restored && frames.data == e.frames
    }

    // Row i of every file is next.
    ghost predicate AtRow(i: nat)
      reads this`frameOffset, raw, private_, index, restored, frames
    {
      && raw.AtRow(i) && private_.AtRow(i) && index.AtRow(i) && restored.AtRow(i)
      && frames.Covered() && frames.pos == frameOffset == FrameStart(frames.data, i)
    }

    constructor (e: Evidence, checks: Checks, keys: seq<Key>, v: Accumulator)
      requires v.Valid()
      ensures Valid() && AtRow(0) && this.v == v && this.e == e && this.checks == checks && this.keys == keys
      ensures fresh(raw) && fresh(private_) && fresh(index) && fresh(restored) && fresh(frames)
    {
      this.e, this.checks, this.keys, this.v := e, checks, keys, v;
      raw := new Channel(e.raw);
      private_ := new Channel(e.private_);
      index := new Channel(e.index);
      restored := new Channel(e.restored);
      frames := new Channel(e.frames);
      frameOffset := 0;
    }

    method ReadRows(ghost i: nat, key: Key)
      returns (r: Option<Row>, p: Option<Row>, x: Option<Row>, s: Option<Row>)
      requires Valid() && AtRow(i)
      modifies raw, private_, index, restored, v
      ensures Valid()
      ensures raw.AtRow(i + 1) && private_.AtRow(i + 1) && index.AtRow(i + 1) && restored.AtRow(i + 1)
      ensures var q := ReadingOf(e, checks, key, i); r == q.raw && p == q.private_ && x == q.index && s == q.restored
      ensures v.Clean() <==> old(v.Clean()) && RowsKeyed(ReadingOf(e, checks, key, i))
    {
      r := raw.ReadKeyed(i, key, checks.parse, v);
      p := private_.ReadKeyed(i, key, checks.parse, v);
      x := index.ReadKeyed(i, key, checks.parse, v);
      s := restored.ReadKeyed(i, key, checks.parse, v);
    }

    // The frame of row i, and its digest where there is a row to compare it with.
    method CheckFrame(ghost i: nat, ghost key: Key, r: Option<Row>, x: Option<Row>) returns (payload: Option<seq<Byte>>)
      requires Valid()
      requires var q := ReadingOf(e, checks, key, i); r == q.raw && x == q.index
      requires frames.Covered() && frames.pos == frameOffset == FrameStart(frames.data, i)
      modifies frames, v, this`frameOffset
      ensures Valid() && frames.Covered() && frames.pos == frameOffset == FrameStart(frames.data, i + 1)
      ensures payload == ReadingOf(e, checks, key, i).payload
      ensures v.Clean() <==> old(v.Clean()) && FrameSound(e, checks, key, i)
    {
      FrameCleanMeans(frames.data, frames.pos, x);
      payload, frameOffset := frames.ReadCheckpoint(x, frameOffset, v);
      if payload.Some? && r.Some? && x.Some? && checks.sha(payload.value) != x.value.digest {
        v.Add(K3, "streamed checkpoint digest differs from index");
      }
    }

    // The semantic check of the row pair i. Returns whether it raised, and the return it reconstructed.
    method CheckEpisode(r: Option<Row>, p: Option<Row>) returns (raised: bool, score: Option<real>)
      requires v.Valid()
      modifies v
      ensures v.Valid()
      ensures raised ==> !v.Clean() && !EpisodeClean(checks, r, p)
      ensures !raised ==> (v.Clean() <==> old(v.Clean()) && EpisodeClean(checks, r, p))
      ensures score == match EpisodeOf(checks, r, p) case Some(j) => j.score case None => None
    {
      if r.None? || p.None? {
        return false, None;
      }
      var judgement := checks.episode(r.value, p.value);
      if judgement.None? {
        v.Add(K0, "streaming audit aborted safely");
        return true, None;
      }
      v.Extend(judgement.value.faults);
      return false, judgement.value.score;
    }

    // Also the checks that need more than one file. Returns whether a check raised.
    method CheckOthers(reading: Reading) returns (raised: bool)
      requires v.Valid()
      modifies v
      ensures v.Valid()
      ensures raised ==> !v.Clean() && checks.other(reading) != Some([])
      ensures !raised ==> (v.Clean() <==> old(v.Clean()) && checks.other(reading) == Some([]))
    {
      var faults := checks.other(reading);
      if faults.None? {
        v.Add(K0, "streaming audit aborted safely");
        return true;
      }
      v.Extend(faults.value);
      return false;
    }

    method CheckRow(ghost i: nat, key: Key, r: Option<Row>, p: Option<Row>, x: Option<Row>, s: Option<Row>)
      returns (raised: bool, score: Option<real>)
      requires Valid()
      requires var q := ReadingOf(e, checks, key, i); r == q.raw && p == q.private_ && x == q.index && s == q.restored
      requires frames.Covered() && frames.pos == frameOffset == FrameStart(frames.data, i)
      modifies frames, v, this`frameOffset
      ensures Valid()
      ensures raised ==> !v.Clean() && !FrameAndChecks(e, checks, key, i)
      ensures !raised ==> frames.Covered() && frames.pos == frameOffset == FrameStart(frames.data, i + 1)
      ensures !raised ==> (v.Clean() <==> old(v.Clean()) && FrameAndChecks(e, checks, key, i))
      ensures score == ScoreAt(e, checks, key, i)
    {
      raised, score := CheckEpisode(r, p);
      if raised {
        return;
      }
      var payload := CheckFrame(i, key, r, x);
      raised := CheckOthers(Reading(key, r, p, x, s, payload));
    }

    // n rows have been read, and nothing was recorded against them exactly if all were clean.
    ghost predicate Running(n: nat, wasClean: bool)
      reads this`frameOffset, v, raw, private_, index, restored, frames
    {
      && Valid() && AtRow(n) && n <= |keys|
      && (v.Clean() <==> wasClean && RowsClean(e, checks, keys, n))
    }

    method ReadAndCheck(ghost i: nat, key: Key) returns (raised: bool, found: Found)
      requires Valid() && AtRow(i)
      modifies this`frameOffset, raw, private_, index, restored, frames, v
      ensures Valid()
      ensures raised ==> !v.Clean() && !RowClean(e, checks, key, i)
      ensures !raised ==> AtRow(i + 1) && (v.Clean() <==> old(v.Clean()) && RowClean(e, checks, key, i))
      ensures found == FoundAt(e, checks, key, i)
    {
      RowCleanParts(e, checks, key, i);
      var r, p, x, s := ReadRows(i, key);
      var score;
      raised, score := CheckRow(i, key, r, p, x, s);
      found := Found(r.Some?, score, PidOf(r), PidOf(s));
    }

    // `found` is what every row adds.
    ghost predicate Adds(found: seq<Found>, i: nat)
      requires i < |found| == |keys|
    {
      found[i] == FoundAt(e, checks, keys[i], i)
    }

    // And these are the masters, arms and returns met in the n rows.
    ghost predicate Gathered(n: nat, wasClean: bool, found: seq<Found>, seen: Seen)
      reads this`frameOffset, v, raw, private_, index, restored, frames
    {
      Running(n, wasClean) && |found| == |keys| && seen == SeenOf(keys, found, n)
    }

    method AuditRow(i: nat, ghost wasClean: bool, ghost found: seq<Found>, before: Seen) returns (raised: bool, seen: Seen)
      requires i < |keys| && Gathered(i, wasClean, found, before) && Adds(found, i)
      modifies this`frameOffset, raw, private_, index, restored, frames, v
      ensures Valid()
      ensures raised ==> Aborted()
      ensures !raised ==> Gathered(i + 1, wasClean, found, seen)
    {
      RowsCleanNext(e, checks, keys, i);
      var row;
      raised, row := ReadAndCheck(i, keys[i]);
      seen := Note(before, keys[i], row);
    }

    // A check raised: the pass stops, which is itself a violation, on evidence that is not clean.
    ghost predicate Aborted()
      requires Valid()
      reads v
    {
      !v.Clean() && !RowsClean(e, checks, keys, |keys|)
    }

    method AuditRows(ghost wasClean: bool, ghost found: seq<Found>) returns (raised: bool, seen: Seen, ghost n: nat)
      requires Running(0, wasClean) && |found| == |keys| && forall i | 0 <= i < |keys| :: Adds(found, i)
      modifies this`frameOffset, raw, private_, index, restored, frames, v
      ensures Valid()
      ensures raised ==> Aborted()
      ensures !raised ==> n == |keys| && Gathered(n, wasClean, found, seen)
    {
      seen, n := Seen({}, {}, map[], map[], map[]), 0;
      for i := 0 to |keys|
        invariant n == i && Gathered(n, wasClean, found, seen)
      {
        raised, seen := AuditRow(i, wasClean, found, seen);
        if raised {
          return true, seen, n;
        }
        n := n + 1;
      }
      return false, seen, n;
    }
  }

  // ---------------------------------------------------------------- the lockstep keys

  // Every key of the budget, in the order of the producer's ordinals.
  function KeysOf(lane: nat): (keys: seq<Key>)
    requires lane > 0
    ensures |keys| == Budget(lane)
  {
    seq(Budget(lane), i requires 0 <= i < Budget(lane) => KeyOf(i, lane))
  }

  // Three nested loops over masters, arms and episodes visit the keys in that order.
  method LockstepKeys(lane: nat) returns (keys: seq<Key>)
    requires lane > 0
    ensures keys == KeysOf(lane)
  {
    keys := [];
    for master := 0 to MASTERS
      invariant InOrder(keys, lane) && |keys| == master * ARMS * lane
    {
      for arm := 0 to ARMS
        invariant InOrder(keys, lane) && |keys| == (master * ARMS + arm) * lane
      {
        ghost var base := |keys|;
        for episode := 0 to lane
          invariant InOrder(keys, lane) && |keys| == base + episode
        {
          KeyOfBlock(master * ARMS + arm, episode, lane);
          BlockOf(master, arm);
          keys := keys + [Key(master, arm, episode)];
        }
        NextBlock(master * ARMS + arm, lane);
      }
    }
  }

  ghost predicate InOrder(keys: seq<Key>, lane: nat)
    requires lane > 0
  {
    forall i | 0 <= i < |keys| :: keys[i] == KeyOf(i, lane)
  }

  lemma BlockOf(master: nat, arm: nat)
    requires arm < ARMS
    ensures (master * ARMS + arm) / ARMS == master && (master * ARMS + arm) % ARMS == arm
  {
  }

  lemma NextBlock(block: nat, lane: nat)
    ensures block * lane + lane == (block + 1) * lane
  {
  }

  predicate FrameSound(e: Evidence, checks: Checks, key: Key, i: nat) {
    var r := ReadingOf(e, checks, key, i);
    && FrameClean(e.frames, FrameStart(e.frames, i), r.index)
    && (r.raw.Some? ==> r.payload.Some? && checks.sha(r.payload.value) == r.index.value.digest)
  }

  predicate FrameAndChecks(e: Evidence, checks: Checks, key: Key, i: nat) {
    var r := ReadingOf(e, checks, key, i);
    FrameSound(e, checks, key, i) && EpisodeClean(checks, r.raw, r.private_) && checks.other(r) == Some([])
  }

  lemma RowCleanParts(e: Evidence, checks: Checks, key: Key, i: nat)
    ensures RowClean(e, checks, key, i) <==>
      RowsKeyed(ReadingOf(e, checks, key, i)) && FrameAndChecks(e, checks, key, i)
  {
  }

  // ---------------------------------------------------------------- the whole pass

  datatype Counts = Counts(raw: nat, private_: nat, index: nat, restored: nat, seen: Seen)

  function AllLinesOf(e: Evidence, seen: Seen): Counts {
    Counts(LinesFrom(e.raw, 0), LinesFrom(e.private_, 0), LinesFrom(e.index, 0), LinesFrom(e.restored, 0), seen)
  }

  // What a clean pass must have counted and collected.
  function FullCounts(e: Evidence, checks: Checks, lane: nat): Counts
    requires lane > 0
  {
    var n := Budget(lane);
    Counts(n, n, n, n, SeenIn(e, checks, KeysOf(lane), n))
  }

  function CountsOf(pass: Pass, seen: Seen): Counts
    reads pass.raw, pass.private_, pass.index, pass.restored
  {
    Counts(pass.raw.lines, pass.private_.lines, pass.index.lines, pass.restored.lines, seen)
  }

  method DrainAll(pass: Pass, ghost n: nat, ghost wasClean: bool)
    requires n == |pass.keys| && pass.Running(n, wasClean)
    modifies pass.raw, pass.private_, pass.index, pass.restored, pass.frames, pass.v
    ensures pass.Valid() && Drained(pass)
    ensures pass.v.Clean() <==> wasClean && RowsClean(pass.e, pass.checks, pass.keys, |pass.keys|) && EndsAfter(pass.e, |pass.keys|)
  {
    var v := pass.v;
    pass.raw.Drain(v);
    pass.private_.Drain(v);
    pass.index.Drain(v);
    pass.restored.Drain(v);
    var trailing, _ := pass.frames.ConsumeRemainder();
    if trailing != 0 {
      v.Add(K0, "unindexed trailing bytes");
    }
  }

  // Every file has been read, and hashed, to its end.
  ghost predicate Drained(pass: Pass)
    requires pass.Valid()
    reads pass.v, pass.raw, pass.private_, pass.index, pass.restored, pass.frames
  {
    && pass.raw.Counted() && pass.private_.Counted() && pass.index.Counted() && pass.restored.Counted()
    && pass.frames.Covered()
    && pass.raw.pos == |pass.e.raw| && pass.private_.pos == |pass.e.private_| && pass.index.pos == |pass.e.index|
    && pass.restored.pos == |pass.e.restored| && pass.frames.pos == |pass.e.frames|
  }

  method Finish(pass: Pass, ghost n: nat, ghost wasClean: bool, committed: Digests, seen: Seen) returns (counts: Counts)
    requires n == |pass.keys| && pass.Running(n, wasClean)
    modifies pass.raw, pass.private_, pass.index, pass.restored, pass.frames, pass.v
    ensures pass.Valid() && counts == AllLinesOf(pass.e, seen)
    ensures pass.v.Clean() <==> wasClean && CleanEvidence(pass.e, pass.checks, committed, pass.keys)
  {
    DrainAll(pass, n, wasClean);
    CheckDigests(pass, committed);
    counts := CountsOf(pass, seen);
  }

  method CheckDigests(pass: Pass, committed: Digests)
    requires pass.Valid() && Drained(pass)
    modifies pass.v
    ensures pass.Valid()
    ensures pass.v.Clean() <==> old(pass.v.Clean()) && DigestsOf(pass.e, pass.checks.sha) == committed
  {
    var v := pass.v;
    pass.raw.CheckDigest(pass.checks.sha, committed.raw, v);
    pass.private_.CheckDigest(pass.checks.sha, committed.private_, v);
    pass.index.CheckDigest(pass.checks.sha, committed.index, v);
    pass.restored.CheckDigest(pass.checks.sha, committed.restored, v);
    pass.frames.CheckDigest(pass.checks.sha, committed.frames, v);
  }

  // The pass adds no violation exactly on clean evidence, whatever the files hold. Unless a check raised, its row
  // counts are the numbers of physical lines; with no violation they are the exact budget.
  method StreamAudit(e: Evidence, checks: Checks, committed: Digests, lane: nat, v: Accumulator)
    returns (counts: Counts, aborted: bool)
    requires lane > 0 && v.Valid()
    modifies v
    ensures v.Valid()
    ensures v.Clean() <==> old(v.Clean()) && CleanEvidence(e, checks, committed, KeysOf(lane))
    ensures v.Clean() ==> !aborted && counts == FullCounts(e, checks, lane)
    ensures !aborted ==> counts == AllLinesOf(e, SeenIn(e, checks, KeysOf(lane), Budget(lane)))
  {
    var keys := LockstepKeys(lane);
    var pass := new Pass(e, checks, keys, v);
    ghost var wasClean := v.Clean();
    var seen;
    ghost var n;
    aborted, seen, n := pass.AuditRows(wasClean, AllFound(e, checks, keys));
    if aborted {
      counts := CountsOf(pass, seen);
    } else {
      counts := Finish(pass, n, wasClean, committed, seen);
      if v.Clean() {
        CleanCounts(e, checks, committed, lane);
      }
    }
  }

  // ---------------------------------------------------------------- a clean pass read the exact budget

  // The first n rows of one file are there.
  predicate Present(data: seq<Byte>, parse: seq<Byte> -> Option<Row>, n: nat) {
    n == 0 || (Present(data, parse, n - 1) && RowOf(LineAt(data, n - 1), parse).Some?)
  }

  lemma {:induction false} LinesSoFar(data: seq<Byte>, parse: seq<Byte> -> Option<Row>, n: nat)
    requires Present(data, parse, n)
    ensures LinesFrom(data, 0) == n + LinesFrom(data, LineStart(data, n))
  {
    if n > 0 {
      LinesSoFar(data, parse, n - 1);
      OneMoreLine(data, n - 1, parse);
    }
  }

  lemma OneMoreLine(data: seq<Byte>, i: nat, parse: seq<Byte> -> Option<Row>)
    requires RowOf(LineAt(data, i), parse).Some?
    ensures LinesFrom(data, LineStart(data, i)) == 1 + LinesFrom(data, LineStart(data, i + 1))
  {
  }

  ghost predicate AllPresent(e: Evidence, checks: Checks, n: nat) {
    && Present(e.raw, checks.parse, n) && Present(e.private_, checks.parse, n)
    && Present(e.index, checks.parse, n) && Present(e.restored, checks.parse, n)
  }

  lemma CleanRowsPresent(e: Evidence, checks: Checks, keys: seq<Key>)
    requires RowsClean(e, checks, keys, |keys|)
    ensures AllPresent(e, checks, |keys|)
  {
    for i := 0 to |keys|
      invariant AllPresent(e, checks, i)
    {
      assert RowClean(e, checks, keys[i], i);
      CleanRowPresent(e, checks, keys[i], i);
    }
  }

  lemma CleanRowPresent(e: Evidence, checks: Checks, key: Key, i: nat)
    requires RowClean(e, checks, key, i) && AllPresent(e, checks, i)
    ensures AllPresent(e, checks, i + 1)
  {
  }

  // Every row was read and gave a return.
  predicate AllThere(found: seq<Found>) {
    forall i | 0 <= i < |found| :: found[i].present && found[i].score.Some?
  }

  lemma CleanRowsThere(e: Evidence, checks: Checks, keys: seq<Key>)
    requires RowsClean(e, checks, keys, |keys|)
    ensures AllThere(AllFound(e, checks, keys))
  {
    forall i | 0 <= i < |keys| ensures FoundAt(e, checks, keys[i], i).present && FoundAt(e, checks, keys[i], i).score.Some? {
      assert RowClean(e, checks, keys[i], i);
      CleanRowThere(e, checks, keys[i], i);
    }
  }

  lemma CleanRowThere(e: Evidence, checks: Checks, key: Key, i: nat)
    requires RowClean(e, checks, key, i)
    ensures FoundAt(e, checks, key, i).present && FoundAt(e, checks, key, i).score.Some?
  {
  }

  lemma {:induction false} KeysSeen(keys: seq<Key>, found: seq<Found>, lane: nat, n: nat)
    requires lane > 0 && keys == KeysOf(lane) && n <= |keys| == |found|
    ensures SeenOf(keys, found, n).masters <= {0, 1, 2, 3} && SeenOf(keys, found, n).arms <= {0, 1, 2, 3, 4, 5, 6}
  {
    if n > 0 {
      KeysSeen(keys, found, lane, n - 1);
      KeysAreOrdinals(n - 1, lane);
    }
  }

  lemma {:induction false} KeySeen(keys: seq<Key>, found: seq<Found>, n: nat, i: nat)
    requires i < n <= |keys| == |found| && AllThere(found)
    ensures keys[i].master in SeenOf(keys, found, n).masters && keys[i].arm in SeenOf(keys, found, n).arms
  {
    if i < n - 1 {
      KeySeen(keys, found, n - 1, i);
    }
  }

  // The process of every row met is among those of its master, and of its lane.
  lemma {:induction false} PidsSeen(keys: seq<Key>, found: seq<Found>, n: nat, i: nat)
    requires i < n <= |keys| == |found|
    ensures var seen := SeenOf(keys, found, n);
      && (found[i].producer.Some? ==> found[i].producer.value in PidsAt(seen.producers, keys[i].master))
      && (found[i].restorer.Some? ==> found[i].restorer.value in PidsAt(seen.restorers, (keys[i].master, keys[i].arm)))
  {
    if i < n - 1 {
      PidsSeen(keys, found, n - 1, i);
    }
  }

  lemma CleanLines(e: Evidence, checks: Checks, committed: Digests, keys: seq<Key>)
    requires CleanEvidence(e, checks, committed, keys)
    ensures LinesFrom(e.raw, 0) == LinesFrom(e.private_, 0) == LinesFrom(e.index, 0) == LinesFrom(e.restored, 0) == |keys|
  {
    CleanRowsPresent(e, checks, keys);
    LinesSoFar(e.raw, checks.parse, |keys|);
    LinesSoFar(e.private_, checks.parse, |keys|);
    LinesSoFar(e.index, checks.parse, |keys|);
    LinesSoFar(e.restored, checks.parse, |keys|);
  }

  // A clean pass meets every master and every arm.
  lemma AllSeen(e: Evidence, checks: Checks, lane: nat)
    requires lane > 0 && RowsClean(e, checks, KeysOf(lane), Budget(lane))
    ensures var seen := SeenIn(e, checks, KeysOf(lane), Budget(lane));
      seen.masters == {0, 1, 2, 3} && seen.arms == {0, 1, 2, 3, 4, 5, 6}
  {
    CleanRowsThere(e, checks, KeysOf(lane));
    AllMet(AllFound(e, checks, KeysOf(lane)), lane);
  }

  lemma {:induction false} AllMet(found: seq<Found>, lane: nat)
    requires lane > 0 && |found| == Budget(lane) && AllThere(found)
    ensures var seen := SeenOf(KeysOf(lane), found, Budget(lane));
      seen.masters == {0, 1, 2, 3} && seen.arms == {0, 1, 2, 3, 4, 5, 6}
  {
    var keys := KeysOf(lane);
    var seen := SeenOf(keys, found, |keys|);
    KeysSeen(keys, found, lane, |keys|);
    forall m | 0 <= m < MASTERS ensures m in seen.masters {
      OrdinalsAreKeys(Key(m, 0, 0), lane);
      KeySeen(keys, found, |keys|, OrdinalOf(Key(m, 0, 0), lane));
    }
    forall a | 0 <= a < ARMS ensures a in seen.arms {
      OrdinalsAreKeys(Key(0, a, 0), lane);
      KeySeen(keys, found, |keys|, OrdinalOf(Key(0, a, 0), lane));
    }
  }

  // The returns of the w rows from `start` on.
  function BlockReturns(found: seq<Found>, start: nat, w: nat): seq<real>
    requires start + w <= |found|
  {
    if w == 0 then []
    else
      var score := found[start + w - 1].score;
      BlockReturns(found, start, w - 1) + if score.Some? then [score.value] else []
  }

  // The w rows from `start` on gave these returns, one each.
  predicate Gives(found: seq<Found>, start: nat, scores: seq<real>, w: nat)
    requires start + w <= |found|
  {
    |scores| == w && forall k | 0 <= k < w :: found[start + k].score == Some(scores[k])
  }

  lemma {:induction false} BlockReturnsFull(found: seq<Found>, start: nat, w: nat)
    requires start + w <= |found| && AllThere(found)
    ensures Gives(found, start, BlockReturns(found, start, w), w)
  {
    if w > 0 {
      BlockReturnsFull(found, start, w - 1);
    }
  }

  // The part of a lane's block that lies before row n.
  function Within(start: nat, lane: nat, n: nat): nat {
    if n <= start then 0 else if n <= start + lane then n - start else lane
  }

  // Where a lane's block of rows starts.
  function LaneStart(at: (int, int), lane: nat): (start: nat)
    requires lane > 0 && at in Lanes()
    ensures start == OrdinalOf(Key(at.0, at.1, 0), lane) && start + lane <= Budget(lane)
  {
    OrdinalsAreKeys(Key(at.0, at.1, 0), lane);
    OrdinalsAreKeys(Key(at.0, at.1, lane - 1), lane);
    OrdinalOf(Key(at.0, at.1, 0), lane)
  }

  lemma {:induction false} LaneReturnsSoFar(found: seq<Found>, lane: nat, at: (int, int), n: nat)
    requires lane > 0 && at in Lanes() && n <= Budget(lane) == |found|
    ensures ReturnsAt(SeenOf(KeysOf(lane), found, n).scores, at) == BlockReturns(found, LaneStart(at, lane), Within(LaneStart(at, lane), lane, n))
  {
    if n > 0 {
      LaneReturnsSoFar(found, lane, at, n - 1);
      KeyInLane(lane, at, n - 1);
    }
  }

  // The returns a lane's own rows give.
  function LaneScores(e: Evidence, checks: Checks, lane: nat, at: (int, int)): seq<real>
    requires lane > 0 && at in Lanes()
  {
    BlockReturns(AllFound(e, checks, KeysOf(lane)), LaneStart(at, lane), lane)
  }

  // Whatever the files hold, a lane collects the returns of its own block of rows, in order and nothing else.
  lemma StreamedReturns(e: Evidence, checks: Checks, lane: nat, at: (int, int))
    requires lane > 0 && at in Lanes()
    ensures ReturnsAt(SeenIn(e, checks, KeysOf(lane), Budget(lane)).scores, at) == LaneScores(e, checks, lane, at)
  {
    LaneReturnsSoFar(AllFound(e, checks, KeysOf(lane)), lane, at, Budget(lane));
  }

  // Clean evidence gives every lane exactly one return for each of its episodes.
  lemma CleanReturns(e: Evidence, checks: Checks, lane: nat, at: (int, int))
    requires lane > 0 && at in Lanes() && RowsClean(e, checks, KeysOf(lane), Budget(lane))
    ensures Gives(AllFound(e, checks, KeysOf(lane)), LaneStart(at, lane), LaneScores(e, checks, lane, at), lane)
  {
    CleanRowsThere(e, checks, KeysOf(lane));
    BlockReturnsFull(AllFound(e, checks, KeysOf(lane)), LaneStart(at, lane), lane);
  }

  lemma CleanCounts(e: Evidence, checks: Checks, committed: Digests, lane: nat)
    requires lane > 0 && CleanEvidence(e, checks, committed, KeysOf(lane))
    ensures AllLinesOf(e, SeenIn(e, checks, KeysOf(lane), Budget(lane))) == FullCounts(e, checks, lane)
  {
    CleanLines(e, checks, committed, KeysOf(lane));
  }

  // ---------------------------------------------------------------- the two readers agree

  function Plain(rows: seq<Row>): (index: seq<IndexRow>)
    ensures |index| == |rows|
  {
    seq(|rows|, i requires 0 <= i < |rows| => IndexRow(rows[i].key, rows[i].offset, rows[i].length, rows[i].digest))
  }

  // The auditor's sequential reader takes n frames without a violation.
  predicate AuditorReads(frames: seq<Byte>, index: seq<Row>, sha: seq<Byte> -> nat, n: nat)
    requires n <= |index|
  {
    n == 0 || (AuditorReads(frames, index, sha, n - 1) && AuditorReadsOne(frames, FrameStart(frames, n - 1), index[n - 1], sha))
  }

  predicate AuditorReadsOne(frames: seq<Byte>, pos: nat, row: Row, sha: seq<Byte> -> nat)
    requires pos <= |frames|
  {
    FrameClean(frames, pos, Some(row)) && FramePayload(frames, pos).Some? && sha(FramePayload(frames, pos).value) == row.digest
  }

  // The producer's validator does.
  predicate ProducerReads(frames: seq<Byte>, index: seq<IndexRow>, sha: seq<Byte> -> nat, n: nat)
    requires n <= |index|
  {
    n == 0 || (ProducerReads(frames, index, sha, n - 1) && FramePasses(index, frames, sha, n - 1))
  }

  lemma {:induction false} ProducerReadsAll(frames: seq<Byte>, index: seq<IndexRow>, sha: seq<Byte> -> nat, n: nat)
    requires n <= |index|
    ensures ProducerReads(frames, index, sha, n) <==> AllPass(index, frames, sha, n)
  {
    if n > 0 {
      ProducerReadsAll(frames, index, sha, n - 1);
      ProducerReadsNext(frames, index, sha, n - 1);
    }
  }

  lemma ProducerReadsNext(frames: seq<Byte>, index: seq<IndexRow>, sha: seq<Byte> -> nat, i: nat)
    requires i < |index|
    ensures ProducerReads(frames, index, sha, i + 1) <==> ProducerReads(frames, index, sha, i) && FramePasses(index, frames, sha, i)
    ensures AllPass(index, frames, sha, i + 1) <==> AllPass(index, frames, sha, i) && FramePasses(index, frames, sha, i)
  {
  }

  predicate EightByteHeaders(index: seq<Row>, n: nat)
    requires n <= |index|
  {
    n == 0 || (EightByteHeaders(index, n - 1) && index[n - 1].headerBytes == HEADER_BYTES)
  }

  lemma SameReadsOne(frames: seq<Byte>, pos: nat, row: Row, sha: seq<Byte> -> nat)
    requires pos <= |frames|
    ensures var read := ReadAt(frames, row.offset, row.length);
      AuditorReadsOne(frames, pos, row, sha) <==>
      row.headerBytes == HEADER_BYTES && row.offset == pos && read.Ok? && sha(read.value) == row.digest
    ensures AuditorReadsOne(frames, pos, row, sha) ==> FrameNext(frames, pos) == pos + HEADER_BYTES + row.length
  {
    FrameCleanMeans(frames, pos, Some(row));
    if FrameClean(frames, pos, Some(row)) {
      FrameCleanReads(frames, pos, Some(row));
    }
  }

  lemma {:induction false} SameReads(frames: seq<Byte>, index: seq<Row>, sha: seq<Byte> -> nat, n: nat)
    requires n <= |index|
    ensures AuditorReads(frames, index, sha, n) <==> EightByteHeaders(index, n) && ProducerReads(frames, Plain(index), sha, n)
    ensures AuditorReads(frames, index, sha, n) ==> FrameStart(frames, n) == FrameEnd(Plain(index), n)
  {
    if n > 0 {
      SameReads(frames, index, sha, n - 1);
      SameReadsOne(frames, FrameStart(frames, n - 1), index[n - 1], sha);
    }
  }

  // The auditor's sequential reader accepts a frame file and its index exactly when the producer's seek-based
  // validator does and every row declares eight header bytes: the file is one list of payloads, in index order,
  // and nothing else.
  lemma ReadersAgree(frames: seq<Byte>, index: seq<Row>, sha: seq<Byte> -> nat)
    ensures AuditorReads(frames, index, sha, |index|) && FrameStart(frames, |index|) == |frames|
            <==> EightByteHeaders(index, |index|) && exists ps :: Holds(Plain(index), frames, sha, ps)
  {
    SameReads(frames, index, sha, |index|);
    ProducerReadsAll(frames, Plain(index), sha, |index|);
    FramesParse(Plain(index), frames, sha);
  }

  function IndexRowAt(e: Evidence, checks: Checks, i: nat): Row {
    match RowOf(LineAt(e.index, i), checks.parse)
    case Some(row) => row
    case None => Row(Key(-1, -1, -1), -1, -1, -1, 0, None, 0)
  }

  function IndexRows(e: Evidence, checks: Checks, n: nat): (rows: seq<Row>)
    ensures |rows| == n
  {
    seq(n, i requires 0 <= i < n => IndexRowAt(e, checks, i))
  }

  lemma CleanRowReads(e: Evidence, checks: Checks, key: Key, i: nat)
    requires RowClean(e, checks, key, i)
    ensures AuditorReadsOne(e.frames, FrameStart(e.frames, i), IndexRowAt(e, checks, i), checks.sha)
    ensures IndexRowAt(e, checks, i).key == key
  {
  }

  lemma ReadsOneMore(e: Evidence, checks: Checks, all: nat, i: nat)
    requires i < all && AuditorReads(e.frames, IndexRows(e, checks, all), checks.sha, i)
    requires AuditorReadsOne(e.frames, FrameStart(e.frames, i), IndexRowAt(e, checks, i), checks.sha)
    ensures AuditorReads(e.frames, IndexRows(e, checks, all), checks.sha, i + 1)
  {
    var row := IndexRowAt(e, checks, i);
    assert IndexRows(e, checks, all)[i] == row;
  }

  lemma CleanFramesRead(e: Evidence, checks: Checks, keys: seq<Key>)
    requires RowsClean(e, checks, keys, |keys|)
    ensures AuditorReads(e.frames, IndexRows(e, checks, |keys|), checks.sha, |keys|)
  {
    for i := 0 to |keys|
      invariant AuditorReads(e.frames, IndexRows(e, checks, |keys|), checks.sha, i)
    {
      assert RowClean(e, checks, keys[i], i);
      CleanRowReads(e, checks, keys[i], i);
      ReadsOneMore(e, checks, |keys|, i);
    }
  }

  // Clean evidence: one payload per budgeted key, found by both readers, and no byte of the frame file unaccounted for.
  lemma CleanFrames(e: Evidence, checks: Checks, committed: Digests, lane: nat) returns (ps: seq<seq<Byte>>)
    requires lane > 0 && CleanEvidence(e, checks, committed, KeysOf(lane))
    ensures Holds(Plain(IndexRows(e, checks, Budget(lane))), e.frames, checks.sha, ps)
    ensures |ps| == Budget(lane) && e.frames == Concat(ps)
  {
    var n := Budget(lane);
    CleanFramesRead(e, checks, KeysOf(lane));
    ReadersAgree(e.frames, IndexRows(e, checks, n), checks.sha);
    ps :| Holds(Plain(IndexRows(e, checks, n)), e.frames, checks.sha, ps);
  }
}
