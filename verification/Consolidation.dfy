/** The producer's lockstep validation of the consolidated artifacts (q1.py): four row streams and one frame
    file, walked once with bounded state. */
module Consolidation {
  import opened Wrappers
  import opened Frames
  import opened Merge

  const MASTERS: nat := 4
  const ARMS: nat := 7

  // `unreadable` holds the places, as stream and row, at which a line does not decode; what the streams show there has
  // no meaning. The streams are numbered as they are listed.
  datatype Artifacts = Artifacts(
    raw: seq<RawRow>, private_: seq<PlainRow>, index: seq<IndexRow>, restored: seq<PlainRow>, frames: seq<Byte>,
    unreadable: set<(nat, nat)>)

  // What the model leaves abstract: the schema and binding checks over one row of each stream, the
  // qualification binding of a raw row, and SHA-256.
  datatype Rules = Rules(
    agree: (RawRow, PlainRow, IndexRow, PlainRow) -> bool,
    binding: RawRow -> nat,
    sha: seq<Byte> -> nat)

  datatype Failure =
    | Undecodable | RowCountsDiffer | OverBudget | UnderBudget | OrderMismatch | RowsDisagree | NotContiguous | BadLength
    | UnreadableFrame(error: FrameError) | DigestMismatch | BindingChanged | LeftoverBytes

  datatype Aggregate = Aggregate(totals: map<(int, int), real>, counts: map<(int, int), int>)

  // ---------------------------------------------------------------- ordinals and keys

  function KeyOf(ordinal: nat, lane: nat): Key
    requires lane > 0
  {
    Key(ordinal / (ARMS * lane), (ordinal / lane) % ARMS, ordinal % lane)
  }

  function OrdinalOf(key: Key, lane: nat): int {
    (key.master * ARMS + key.arm) * lane + key.episode
  }

  predicate InBudget(key: Key, lane: nat) {
    0 <= key.master < MASTERS && 0 <= key.arm < ARMS && 0 <= key.episode < lane
  }

  function Budget(lane: nat): nat { MASTERS * ARMS * lane }

  lemma KeyOfBlock(block: nat, episode: nat, lane: nat)
    requires episode < lane
    ensures KeyOf(block * lane + episode, lane) == Key(block / ARMS, block % ARMS, episode)
  {
    var o := block * lane + episode;
    Quotient(o, lane, block, episode);
    Quotient(block, ARMS, block / ARMS, block % ARMS);
    var inner := block % ARMS * lane + episode;
    Regroup(block / ARMS, block % ARMS, lane, episode);
    Scaled(block % ARMS, ARMS, lane, episode);
    Quotient(o, ARMS * lane, block / ARMS, inner);
  }

  lemma Regroup(q: nat, r: nat, lane: nat, e: nat)
    ensures (ARMS * q + r) * lane + e == ARMS * lane * q + (r * lane + e)
  {
  }

  lemma Multiples(d: nat, a: nat, b: nat)
    requires a <= b
    ensures d * a <= d * b
  {
  }

  lemma Scaled(r: nat, n: nat, lane: nat, e: nat)
    requires r < n && e < lane
    ensures r * lane + e < n * lane
  {
    Multiples(lane, r + 1, n);
  }

  lemma Quotient(x: nat, d: nat, q: nat, r: nat)
    requires d > 0 && x == d * q + r && r < d
    ensures x / d == q && x % d == r
  {
    var p := x / d;
    assert x == d * p + x % d;
    if p < q {
      Multiples(d, p + 1, q);
    } else if q < p {
      Multiples(d, q + 1, p);
    }
  }

  // Ordinals below the budget and keys within it are two names for the same thing.
  lemma KeysAreOrdinals(ordinal: nat, lane: nat)
    requires lane > 0
    ensures OrdinalOf(KeyOf(ordinal, lane), lane) == ordinal
    ensures InBudget(KeyOf(ordinal, lane), lane) <==> ordinal < Budget(lane)
  {
    var block, episode := ordinal / lane, ordinal % lane;
    assert ordinal == lane * block + episode;
    BlockAndEpisode(block, episode, lane);
    KeyOfBlock(block, episode, lane);
  }

  lemma BlockAndEpisode(block: nat, episode: nat, lane: nat)
    requires episode < lane
    ensures OrdinalOf(Key(block / ARMS, block % ARMS, episode), lane) == block * lane + episode
    ensures block / ARMS < MASTERS <==> block * lane + episode < Budget(lane)
  {
    assert block / ARMS * ARMS + block % ARMS == block;
    if block < MASTERS * ARMS {
      Scaled(block, MASTERS * ARMS, lane, episode);
    } else {
      Multiples(lane, MASTERS * ARMS, block);
    }
  }

  lemma OrdinalsAreKeys(key: Key, lane: nat)
    requires InBudget(key, lane)
    ensures 0 <= OrdinalOf(key, lane) < Budget(lane) && KeyOf(OrdinalOf(key, lane), lane) == key
  {
    var block := key.master * ARMS + key.arm;
    KeyOfBlock(block, key.episode, lane);
    Scaled(block, MASTERS * ARMS, lane, key.episode);
  }

  // ---------------------------------------------------------------- the checks, row by row

  function FrameEnd(index: seq<IndexRow>, n: nat): int
    requires n <= |index|
  {
    if n == 0 then 0 else FrameEnd(index, n - 1) + HEADER_BYTES + index[n - 1].length
  }

  predicate LongerThan(a: Artifacts, n: nat) {
    n < |a.raw| && n < |a.private_| && n < |a.index| && n < |a.restored|
  }

  predicate Readable(a: Artifacts, n: nat) {
    (0, n) !in a.unreadable && (1, n) !in a.unreadable && (2, n) !in a.unreadable && (3, n) !in a.unreadable
  }

  // ---------------------------------------------------------------- the strict zip of the four streams

  const STREAMS: nat := 4

  datatype Pull = Line | End | Broken

  function Lines(a: Artifacts, k: nat): nat
    requires k < STREAMS
  {
    if k == 0 then |a.raw| else if k == 1 then |a.private_| else if k == 2 then |a.index| else |a.restored|
  }

  // What asking stream k for its line n gives.
  function PullAt(a: Artifacts, k: nat, n: nat): Pull
    requires k < STREAMS
  {
    if n >= Lines(a, k) then End else if (k, n) in a.unreadable then Broken else Line
  }

  datatype Zipped = Rows | Ended | Stops(failure: Failure)

  // Once the first stream gave a line every other must, and once it ended every other must have ended. The streams are
  // asked in order, and the first surprise decides.
  function ZipFrom(a: Artifacts, n: nat, ended: bool, k: nat): Zipped
    requires k <= STREAMS
    decreases STREAMS - k
  {
    if k == STREAMS then if ended then Ended else Rows
    else match PullAt(a, k, n)
      case Broken => Stops(Undecodable)
      case Line => if ended then Stops(RowCountsDiffer) else ZipFrom(a, n, ended, k + 1)
      case End => if ended then ZipFrom(a, n, ended, k + 1) else Stops(RowCountsDiffer)
  }

  function ZipAt(a: Artifacts, n: nat): Zipped {
    ZipFrom(a, n, PullAt(a, 0, n).End?, 0)
  }

  // It gives rows exactly where every stream has a line that decodes, and ends exactly where all have ended.
  lemma ZipMeans(a: Artifacts, n: nat)
    ensures ZipAt(a, n).Rows? <==> LongerThan(a, n) && Readable(a, n)
    ensures ZipAt(a, n).Ended? <==> n >= |a.raw| && n >= |a.private_| && n >= |a.index| && n >= |a.restored|
    ensures ZipAt(a, n).Stops? ==> ZipAt(a, n).failure == Undecodable || ZipAt(a, n).failure == RowCountsDiffer
  {
    var ended := PullAt(a, 0, n).End?;
    assert ZipFrom(a, n, ended, 4) == if ended then Ended else Rows;
    assert PullAt(a, 3, n).Line? && !ended ==> ZipFrom(a, n, ended, 3).Rows?;
  }

  predicate Within(a: Artifacts, n: nat) {
    n <= |a.raw| && n <= |a.private_| && n <= |a.index| && n <= |a.restored|
  }

  predicate LongAs(a: Artifacts, n: nat) {
    n == |a.raw| == |a.private_| == |a.index| == |a.restored|
  }

  predicate Ordered(a: Artifacts, key: Key, i: nat)
    requires LongerThan(a, i)
  {
    a.raw[i].key == key && a.private_[i].key == key && a.index[i].key == key && a.restored[i].key == key
  }

  // The first check row i fails, given that the rows before it passed.
  function RowFailure(a: Artifacts, rules: Rules, lane: nat, i: nat): Option<Failure>
    requires lane > 0 && LongerThan(a, i)
  {
    var row := a.index[i];
    if i >= Budget(lane) then Some(OverBudget)
    else if !Ordered(a, KeyOf(i, lane), i) then Some(OrderMismatch)
    else if !rules.agree(a.raw[i], a.private_[i], row, a.restored[i]) then Some(RowsDisagree)
    else if row.offset != FrameEnd(a.index, i) then Some(NotContiguous)
    else if row.length <= 0 then Some(BadLength)
    else match ReadAt(a.frames, row.offset, row.length)
      case Err(e) => Some(UnreadableFrame(e))
      case Ok(payload) =>
        if rules.sha(payload) != row.digest then Some(DigestMismatch)
        else if rules.binding(a.raw[i]) != rules.binding(a.raw[0]) then Some(BindingChanged)
        else None
  }

  predicate RowPasses(a: Artifacts, rules: Rules, lane: nat, i: nat)
    requires lane > 0
  {
    LongerThan(a, i) && Readable(a, i) && RowFailure(a, rules, lane, i).None?
  }

  // ---------------------------------------------------------------- totals and counts

  function Share(row: RawRow, at: (int, int)): real {
    if (row.key.master, row.key.arm) == at then row.episodeReturn else 0.0
  }

  function TotalUpTo(raw: seq<RawRow>, at: (int, int), n: nat): real
    requires n <= |raw|
  {
    if n == 0 then 0.0 else TotalUpTo(raw, at, n - 1) + Share(raw[n - 1], at)
  }

  function CountUpTo(raw: seq<RawRow>, at: (int, int), n: nat): nat
    requires n <= |raw|
  {
    if n == 0 then 0
    else CountUpTo(raw, at, n - 1) + (if (raw[n - 1].key.master, raw[n - 1].key.arm) == at then 1 else 0)
  }

  function Lanes(): set<(int, int)> {
    set m, a | 0 <= m < MASTERS && 0 <= a < ARMS :: (m, a)
  }

  ghost predicate Tallied(t: Aggregate, raw: seq<RawRow>, n: nat)
    requires n <= |raw|
  {
    && t.totals.Keys == t.counts.Keys == Lanes()
    && forall at | at in Lanes() :: t.totals[at] == TotalUpTo(raw, at, n) && t.counts[at] == CountUpTo(raw, at, n)
  }

  function Tally(t: Aggregate, row: RawRow): Aggregate
    requires (row.key.master, row.key.arm) in t.totals && (row.key.master, row.key.arm) in t.counts
  {
    var at := (row.key.master, row.key.arm);
    Aggregate(t.totals[at := t.totals[at] + row.episodeReturn], t.counts[at := t.counts[at] + 1])
  }

  lemma TallyOne(t: Aggregate, raw: seq<RawRow>, n: nat)
    requires n < |raw| && Tallied(t, raw, n) && (raw[n].key.master, raw[n].key.arm) in Lanes()
    ensures Tallied(Tally(t, raw[n]), raw, n + 1)
  {
  }

  // ---------------------------------------------------------------- the validator

  ghost predicate Passed(a: Artifacts, rules: Rules, lane: nat, n: nat)
    requires lane > 0
  {
    forall i | 0 <= i < n :: RowPasses(a, rules, lane, i)
  }

  // The failure reported belongs to the first row that cannot be read or fails, or to the ends of the streams.
  ghost predicate Explains(a: Artifacts, rules: Rules, lane: nat, failure: Failure)
    requires lane > 0
  {
    exists i: nat ::
      && Passed(a, rules, lane, i)
      && Within(a, i)
      && (if ZipAt(a, i).Stops? then failure == ZipAt(a, i).failure
          else if LongerThan(a, i) then RowFailure(a, rules, lane, i) == Some(failure)
          else if FrameEnd(a.index, i) != |a.frames| then failure == LeftoverBytes
          else i != Budget(lane) && failure == UnderBudget)
  }

  ghost predicate Accepted(a: Artifacts, rules: Rules, lane: nat)
    requires lane > 0
  {
    && LongAs(a, Budget(lane)) && Passed(a, rules, lane, Budget(lane))
    && FrameEnd(a.index, Budget(lane)) == |a.frames|
  }

  // Row i of each stream, with `offset` the end of the frames before it.
  method CheckRow(a: Artifacts, rules: Rules, lane: nat, i: nat, stream: Stream, offset: int)
    returns (failure: Option<Failure>)
    requires lane > 0 && LongerThan(a, i) && offset == FrameEnd(a.index, i) && stream.data == a.frames
    modifies stream`pos
    ensures failure == RowFailure(a, rules, lane, i)
    ensures failure.None? ==> stream.pos == FrameEnd(a.index, i + 1)
  {
    var row := a.index[i];
    if i >= Budget(lane) {
      return Some(OverBudget);
    }
    if !Ordered(a, KeyOf(i, lane), i) {
      return Some(OrderMismatch);
    }
    if !rules.agree(a.raw[i], a.private_[i], row, a.restored[i]) {
      return Some(RowsDisagree);
    }
    if row.offset != offset {
      return Some(NotContiguous);
    }
    if row.length <= 0 {
      return Some(BadLength);
    }
    var payload := ReadFrame(stream, offset, row.length);
    if payload.Err? {
      return Some(UnreadableFrame(payload.error));
    }
    if rules.sha(payload.value) != row.digest {
      return Some(DigestMismatch);
    }
    if rules.binding(a.raw[i]) != rules.binding(a.raw[0]) {
      return Some(BindingChanged);
    }
    return None;
  }

  lemma RowStops(a: Artifacts, rules: Rules, lane: nat, i: nat)
    requires lane > 0 && ZipAt(a, i).Rows? && LongerThan(a, i) && RowFailure(a, rules, lane, i).Some? && Passed(a, rules, lane, i)
    ensures !Accepted(a, rules, lane) && Explains(a, rules, lane, RowFailure(a, rules, lane, i).value)
  {
    if i < Budget(lane) {
      assert !RowPasses(a, rules, lane, i);
    }
  }

  // Where the streams cannot be read in step, they are not accepted.
  lemma ZipStops(a: Artifacts, rules: Rules, lane: nat, i: nat)
    requires lane > 0 && ZipAt(a, i).Stops? && Within(a, i) && Passed(a, rules, lane, i)
    ensures !Accepted(a, rules, lane) && Explains(a, rules, lane, ZipAt(a, i).failure)
  {
    ZipMeans(a, i);
    if i < Budget(lane) {
      assert !RowPasses(a, rules, lane, i);
    }
  }

  lemma StreamsEnd(a: Artifacts, rules: Rules, lane: nat, i: nat)
    requires lane > 0 && !LongerThan(a, i) && Passed(a, rules, lane, i) && Within(a, i)
    ensures Accepted(a, rules, lane) <==> LongAs(a, i) && FrameEnd(a.index, i) == |a.frames| && i == Budget(lane)
  {
    if i < Budget(lane) {
      assert !RowPasses(a, rules, lane, i);
    } else if i > Budget(lane) {
      BudgetBounds(a, rules, lane);
    }
  }

  lemma BudgetBounds(a: Artifacts, rules: Rules, lane: nat)
    requires lane > 0
    ensures !RowPasses(a, rules, lane, Budget(lane))
  {
  }

  lemma TallyRow(t: Aggregate, a: Artifacts, rules: Rules, lane: nat, i: nat)
    requires lane > 0 && RowPasses(a, rules, lane, i) && Tallied(t, a.raw, i)
    ensures (a.raw[i].key.master, a.raw[i].key.arm) in Lanes() && Tallied(Tally(t, a.raw[i]), a.raw, i + 1)
  {
    KeysAreOrdinals(i, lane);
    TallyOne(t, a.raw, i);
  }

  // The bounded state of the walk: the rows passed, the end of their frames, and the sums over them.
  datatype Walk = Walk(ordinal: nat, offset: int, tally: Aggregate)

  ghost predicate Walked(a: Artifacts, rules: Rules, lane: nat, w: Walk)
    requires lane > 0
  {
    && Within(a, w.ordinal) && w.offset == FrameEnd(a.index, w.ordinal) && Passed(a, rules, lane, w.ordinal)
    && Tallied(w.tally, a.raw, w.ordinal)
  }

  lemma WalksOn(a: Artifacts, rules: Rules, lane: nat, w: Walk)
    requires lane > 0 && Walked(a, rules, lane, w) && RowPasses(a, rules, lane, w.ordinal)
    ensures (a.raw[w.ordinal].key.master, a.raw[w.ordinal].key.arm) in Lanes()
    ensures Walked(a, rules, lane, Walk(w.ordinal + 1, w.offset + HEADER_BYTES + a.index[w.ordinal].length, Tally(w.tally, a.raw[w.ordinal])))
  {
    TallyRow(w.tally, a, rules, lane, w.ordinal);
  }

  method WalkRow(a: Artifacts, rules: Rules, lane: nat, w: Walk, stream: Stream) returns (r: Result<Walk, Failure>)
    requires lane > 0 && Walked(a, rules, lane, w) && ZipAt(a, w.ordinal).Rows?
    requires stream.data == a.frames && stream.pos == w.offset
    modifies stream`pos
    ensures r.Ok? ==> Walked(a, rules, lane, r.value) && r.value.ordinal == w.ordinal + 1 && stream.pos == r.value.offset
    ensures r.Err? ==> !Accepted(a, rules, lane) && Explains(a, rules, lane, r.error)
  {
    var i := w.ordinal;
    ZipMeans(a, i);
    var failure := CheckRow(a, rules, lane, i, stream, w.offset);
    if failure.Some? {
      RowStops(a, rules, lane, i);
      return Err(failure.value);
    }
    WalksOn(a, rules, lane, w);
    return Ok(Walk(i + 1, w.offset + HEADER_BYTES + a.index[i].length, Tally(w.tally, a.raw[i])));
  }

  method ValidateAndAggregate(a: Artifacts, rules: Rules, lane: nat) returns (r: Result<Aggregate, Failure>)
    requires lane > 0
    ensures r.Ok? <==> Accepted(a, rules, lane)
    ensures r.Ok? ==> Tallied(r.value, a.raw, Budget(lane))
    ensures r.Err? ==> Explains(a, rules, lane, r.error)
  {
    var w := Walk(0, 0, Aggregate(map at | at in Lanes() :: 0.0, map at | at in Lanes() :: 0));
    var stream := new Stream(a.frames);
    while ZipAt(a, w.ordinal).Rows?
      invariant Walked(a, rules, lane, w) && stream.data == a.frames && stream.pos == w.offset
      decreases |a.raw| - w.ordinal
    {
      ZipMeans(a, w.ordinal);
      var next := WalkRow(a, rules, lane, w, stream);
      if next.Err? {
        return Err(next.error);
      }
      w := next.value;
    }
    var failure := CheckEnd(a, rules, lane, w.ordinal, stream);
    return if failure.Some? then Err(failure.value) else Ok(w.tally);
  }

  // There is no further row after n that passed.
  method CheckEnd(a: Artifacts, rules: Rules, lane: nat, n: nat, stream: Stream) returns (failure: Option<Failure>)
    requires lane > 0 && !ZipAt(a, n).Rows? && Within(a, n) && Passed(a, rules, lane, n)
    requires stream.data == a.frames && stream.pos == FrameEnd(a.index, n)
    ensures failure.None? <==> Accepted(a, rules, lane)
    ensures failure.None? ==> n == Budget(lane)
    ensures failure.Some? ==> Explains(a, rules, lane, failure.value)
  {
    var zipped := ZipAt(a, n);
    ZipMeans(a, n);
    if zipped.Stops? {
      ZipStops(a, rules, lane, n);
      return Some(zipped.failure);
    }
    StreamsEnd(a, rules, lane, n);
    if stream.pos != |stream.data| {
      return Some(LeftoverBytes);
    }
    if n != Budget(lane) {
      return Some(UnderBudget);
    }
    return None;
  }

  // ---------------------------------------------------------------- what acceptance means

  // The frame file is the payloads ps in index order, each where and as long as its row says, each with its digest.
  ghost predicate Holds(index: seq<IndexRow>, frames: seq<Byte>, sha: seq<Byte> -> nat, ps: seq<seq<Byte>>) {
    && |ps| == |index| && AllStorable(ps) && frames == Concat(ps)
    && forall i | 0 <= i < |ps| :: RowHolds(index[i], sha, ps, i)
  }

  ghost predicate RowHolds(row: IndexRow, sha: seq<Byte> -> nat, ps: seq<seq<Byte>>, i: nat)
    requires i < |ps|
  {
    row.offset == OffsetOf(ps, i) && row.length == |ps[i]| && row.digest == sha(ps[i])
  }

  predicate RowAgrees(a: Artifacts, rules: Rules, lane: nat, i: nat)
    requires lane > 0 && LongerThan(a, i)
  {
    && Readable(a, i) && Ordered(a, KeyOf(i, lane), i)
    && rules.agree(a.raw[i], a.private_[i], a.index[i], a.restored[i])
    && rules.binding(a.raw[i]) == rules.binding(a.raw[0])
  }

  ghost predicate Consolidated(a: Artifacts, rules: Rules, lane: nat)
    requires lane > 0
  {
    && LongAs(a, Budget(lane))
    && (forall i | 0 <= i < Budget(lane) :: RowAgrees(a, rules, lane, i))
    && exists ps :: Holds(a.index, a.frames, rules.sha, ps)
  }

  // Frame i stands where the frames before it end, and is what its row says.
  predicate FramePasses(index: seq<IndexRow>, frames: seq<Byte>, sha: seq<Byte> -> nat, i: nat)
    requires i < |index|
  {
    var read := ReadAt(frames, index[i].offset, index[i].length);
    index[i].offset == FrameEnd(index, i) && read.Ok? && sha(read.value) == index[i].digest
  }

  ghost predicate AllPass(index: seq<IndexRow>, frames: seq<Byte>, sha: seq<Byte> -> nat, n: nat)
    requires n <= |index|
  {
    forall i {:trigger FramePasses(index, frames, sha, i)} | 0 <= i < n :: FramePasses(index, frames, sha, i)
  }

  function PayloadOf(row: IndexRow, frames: seq<Byte>): seq<Byte> {
    match ReadAt(frames, row.offset, row.length) case Ok(p) => p case Err(_) => []
  }

  // The payloads that the rows read.
  function PayloadsOfRows(index: seq<IndexRow>, frames: seq<Byte>): (ps: seq<seq<Byte>>)
    ensures |ps| == |index|
  {
    seq(|index|, i requires 0 <= i < |index| => PayloadOf(index[i], frames))
  }

  lemma PayloadFits(index: seq<IndexRow>, frames: seq<Byte>, sha: seq<Byte> -> nat, i: nat)
    requires i < |index| && FramePasses(index, frames, sha, i)
    ensures var p := PayloadOf(index[i], frames);
      && ReadAt(frames, FrameEnd(index, i), |p|) == Ok(p) && Storable(p)
      && |p| == index[i].length && sha(p) == index[i].digest
  {
    ReadAtExactly(frames, index[i].offset, index[i].length, PayloadOf(index[i], frames));
  }

  lemma {:induction false} PayloadEnds(index: seq<IndexRow>, frames: seq<Byte>, sha: seq<Byte> -> nat, n: nat)
    requires n <= |index| && AllPass(index, frames, sha, |index|)
    ensures OffsetOf(PayloadsOfRows(index, frames), n) == FrameEnd(index, n)
  {
    if n > 0 {
      PayloadEnds(index, frames, sha, n - 1);
      assert FramePasses(index, frames, sha, n - 1);
      PayloadFits(index, frames, sha, n - 1);
    }
  }

  // Rows that all pass, up to the end of the file, are held by the payloads they read.
  lemma PassingRowsHold(index: seq<IndexRow>, frames: seq<Byte>, sha: seq<Byte> -> nat)
    requires AllPass(index, frames, sha, |index|)
    requires FrameEnd(index, |index|) == |frames|
    ensures Holds(index, frames, sha, PayloadsOfRows(index, frames))
  {
    var ps := PayloadsOfRows(index, frames);
    forall i | 0 <= i < |ps| ensures StandsAt(frames, ps, i) && Storable(ps[i]) && RowHolds(index[i], sha, ps, i) {
      assert FramePasses(index, frames, sha, i);
      PayloadFits(index, frames, sha, i);
      PayloadEnds(index, frames, sha, i);
    }
    PayloadEnds(index, frames, sha, |ps|);
    FramesFill(frames, ps);
  }

  lemma {:induction false} EndsAgree(index: seq<IndexRow>, sha: seq<Byte> -> nat, ps: seq<seq<Byte>>, n: nat)
    requires n <= |ps| == |index| && forall i | 0 <= i < |ps| :: RowHolds(index[i], sha, ps, i)
    ensures FrameEnd(index, n) == OffsetOf(ps, n)
  {
    if n > 0 {
      EndsAgree(index, sha, ps, n - 1);
      assert RowHolds(index[n - 1], sha, ps, n - 1);
    }
  }

  // Reading every indexed frame up to the end of the file succeeds exactly when the file is the concatenation
  // of some payloads in index order, with nothing before, between or after them.
  lemma FramesParse(index: seq<IndexRow>, frames: seq<Byte>, sha: seq<Byte> -> nat)
    ensures AllPass(index, frames, sha, |index|) && FrameEnd(index, |index|) == |frames|
            <==> exists ps :: Holds(index, frames, sha, ps)
  {
    var n := |index|;
    if AllPass(index, frames, sha, n) && FrameEnd(index, n) == |frames| {
      PassingRowsHold(index, frames, sha);
    }
    if ps :| Holds(index, frames, sha, ps) {
      EndsAgree(index, sha, ps, n);
      ConcatLength(ps);
      forall i | 0 <= i < n ensures FramePasses(index, frames, sha, i) {
        assert RowHolds(index[i], sha, ps, i);
        EndsAgree(index, sha, ps, i);
        ConcatReads(ps, i);
      }
    }
  }

  // The validator accepts exactly the consolidated artifacts: the right number of rows in key order, and a frame
  // file that is nothing but its rows' payloads.
  lemma AcceptedExactly(a: Artifacts, rules: Rules, lane: nat)
    requires lane > 0
    ensures Accepted(a, rules, lane) <==> Consolidated(a, rules, lane)
  {
    var n := Budget(lane);
    FramesParse(a.index, a.frames, rules.sha);
    if LongAs(a, n) {
      forall i | 0 <= i < n
        ensures RowPasses(a, rules, lane, i) <==> RowAgrees(a, rules, lane, i) && FramePasses(a.index, a.frames, rules.sha, i)
      {
      }
    }
  }

  // No two different contents fit the same index and frame file.
  lemma OneContent(index: seq<IndexRow>, frames: seq<Byte>, sha: seq<Byte> -> nat, ps: seq<seq<Byte>>, qs: seq<seq<Byte>>)
    requires Holds(index, frames, sha, ps) && Holds(index, frames, sha, qs)
    ensures ps == qs
  {
    UniqueParse(ps, qs, |ps|);
  }

  // ---------------------------------------------------------------- totals of an accepted run

  function LaneTotal(raw: seq<RawRow>, start: nat, n: nat): real
    requires start + n <= |raw|
  {
    if n == 0 then 0.0 else LaneTotal(raw, start, n - 1) + raw[start + n - 1].episodeReturn
  }

  // A lane's keys are one block of ordinals.
  lemma KeyInLane(lane: nat, at: (int, int), i: nat)
    requires lane > 0 && at in Lanes()
    ensures var start := OrdinalOf(Key(at.0, at.1, 0), lane);
      (KeyOf(i, lane).master, KeyOf(i, lane).arm) == at <==> start <= i < start + lane
  {
    var start := OrdinalOf(Key(at.0, at.1, 0), lane);
    KeysAreOrdinals(i, lane);
    if start <= i < start + lane {
      OrdinalsAreKeys(Key(at.0, at.1, i - start), lane);
    }
  }

  lemma RowInLane(a: Artifacts, rules: Rules, lane: nat, at: (int, int), i: nat)
    requires lane > 0 && Consolidated(a, rules, lane) && at in Lanes() && i < Budget(lane)
    ensures var start := OrdinalOf(Key(at.0, at.1, 0), lane);
      (a.raw[i].key.master, a.raw[i].key.arm) == at <==> start <= i < start + lane
  {
    assert RowAgrees(a, rules, lane, i);
    KeyInLane(lane, at, i);
  }

  // In an accepted run every lane is counted exactly `lane` times, and its total is that of its own block of rows.
  lemma {:induction false} TalliedLanes(a: Artifacts, rules: Rules, lane: nat, at: (int, int), n: nat)
    requires lane > 0 && Consolidated(a, rules, lane) && at in Lanes() && n <= Budget(lane)
    ensures var start := OrdinalOf(Key(at.0, at.1, 0), lane);
      && 0 <= start && start + lane <= Budget(lane)
      && var within := if n <= start then 0 else if n <= start + lane then n - start else lane;
        CountUpTo(a.raw, at, n) == within && TotalUpTo(a.raw, at, n) == LaneTotal(a.raw, start, within)
  {
    OrdinalsAreKeys(Key(at.0, at.1, 0), lane);
    OrdinalsAreKeys(Key(at.0, at.1, lane - 1), lane);
    if n > 0 {
      TalliedLanes(a, rules, lane, at, n - 1);
      RowInLane(a, rules, lane, at, n - 1);
    }
  }

  // The aggregate of an accepted run: full counts, and per-lane totals.
  lemma AcceptedAggregate(a: Artifacts, rules: Rules, lane: nat, t: Aggregate, at: (int, int))
    requires lane > 0 && Accepted(a, rules, lane) && Tallied(t, a.raw, Budget(lane)) && at in Lanes()
    ensures var start := OrdinalOf(Key(at.0, at.1, 0), lane);
      && t.counts[at] == lane && 0 <= start && start + lane <= |a.raw| && t.totals[at] == LaneTotal(a.raw, start, lane)
  {
    AcceptedExactly(a, rules, lane);
    TalliedLanes(a, rules, lane, at, Budget(lane));
  }

  // ---------------------------------------------------------------- the merge feeds the validator

  // What the master and restore workers of one run leave behind: MASTERS masters of ARMS lanes, each lane and
  // each master's own files in arm and episode order.
  ghost predicate Produced(masters: seq<MasterFiles>, pss: seq<seq<seq<Byte>>>, rules: Rules, lane: nat)
    requires lane > 0
  {
    && |masters| == MASTERS
    && (forall m | 0 <= m < MASTERS :: MasterProduced(masters[m], m, lane))
    && AllProduced(AllLanes(masters), pss)
    && forall l | 0 <= l < |pss| :: LaneDigests(AllLanes(masters)[l], pss[l], rules.sha)
  }

  ghost predicate MasterProduced(files: MasterFiles, m: nat, lane: nat)
    requires lane > 0
  {
    && |files.raw| == |files.private_| == ARMS * lane && |files.lanes| == ARMS
    && (forall i | 0 <= i < ARMS * lane ::
          files.raw[i].key == Key(m, i / lane, i % lane) && files.private_[i].key == files.raw[i].key)
    && forall a | 0 <= a < ARMS :: LaneProduced(files.lanes[a], m, a, lane)
  }

  ghost predicate LaneProduced(l: Lane, m: nat, a: nat, lane: nat) {
    && |l.index| == |l.restored| == lane
    && forall e | 0 <= e < lane :: l.index[e].key == Key(m, a, e) && l.restored[e].key == Key(m, a, e)
  }

  ghost predicate LaneDigests(l: Lane, ps: seq<seq<Byte>>, sha: seq<Byte> -> nat) {
    |l.index| == |ps| && forall e | 0 <= e < |ps| :: l.index[e].digest == sha(ps[e])
  }

  // Parts of one size stand at multiples of it.
  lemma {:induction false} JoinedBlocks<S, T>(items: seq<S>, part: S -> seq<T>, size: nat, n: nat)
    requires n <= |items| && forall k | 0 <= k < |items| :: |part(items[k])| == size
    ensures |Joined(items, part, n)| == n * size
  {
    if n > 0 {
      JoinedBlocks(items, part, size, n - 1);
    }
  }

  lemma JoinedBlock<S, T>(items: seq<S>, part: S -> seq<T>, size: nat, k: nat, e: nat)
    requires k < |items| && e < size && forall j | 0 <= j < |items| :: |part(items[j])| == size
    ensures |Joined(items, part, |items|)| == |items| * size && k * size + e < |items| * size
    ensures Joined(items, part, |items|)[k * size + e] == part(items[k])[e]
  {
    JoinedBlocks(items, part, size, |items|);
    JoinedBlocks(items, part, size, k);
    JoinedAt(items, part, |items|, k);
    Scaled(k, |items|, size, e);
  }

  lemma LanesInOrder(masters: seq<MasterFiles>, pss: seq<seq<seq<Byte>>>, rules: Rules, lane: nat, l: nat)
    requires lane > 0 && Produced(masters, pss, rules, lane) && l < MASTERS * ARMS
    ensures |AllLanes(masters)| == |pss| == MASTERS * ARMS
    ensures LaneProduced(AllLanes(masters)[l], l / ARMS, l % ARMS, lane) && |pss[l]| == lane
  {
    assert forall k | 0 <= k < |masters| :: MasterProduced(masters[k], k, lane) && |LanesOf(masters[k])| == ARMS;
    JoinedBlock(masters, LanesOf, ARMS, l / ARMS, l % ARMS);
    assert l / ARMS * ARMS + l % ARMS == l;
    assert MasterProduced(masters[l / ARMS], l / ARMS, lane);
    assert ProducedAs(AllLanes(masters)[l], pss[l]);
  }

  ghost predicate MergedRow(
    masters: seq<MasterFiles>, ps: seq<seq<Byte>>, lane: nat, sha: seq<Byte> -> nat, i: nat)
    requires lane > 0 && |ps| == Budget(lane) && i < |ps|
  {
    var lanes := AllLanes(masters);
    && |AllRows(lanes)| == |AllRestored(lanes)| == Budget(lane)
    && AllRows(lanes)[i].key == AllRestored(lanes)[i].key == KeyOf(i, lane)
    && AllRows(lanes)[i].digest == sha(ps[i])
  }

  // The lane an ordinal falls into, and its episode there.
  lemma SplitOrdinal(i: nat, lane: nat) returns (l: nat, e: nat)
    requires lane > 0 && i < Budget(lane)
    ensures l < MASTERS * ARMS && e < lane && i == l * lane + e && KeyOf(i, lane) == Key(l / ARMS, l % ARMS, e)
  {
    l, e := i / lane, i % lane;
    assert i == l * lane + e;
    KeyOfBlock(l, e, lane);
    KeysAreOrdinals(i, lane);
  }

  ghost predicate EvenLanes(lanes: seq<Lane>, pss: seq<seq<seq<Byte>>>, lane: nat) {
    && |lanes| == |pss| == MASTERS * ARMS
    && forall k | 0 <= k < |lanes| :: |lanes[k].index| == |lanes[k].restored| == |pss[k]| == lane
  }

  lemma LanesAreEven(masters: seq<MasterFiles>, pss: seq<seq<seq<Byte>>>, rules: Rules, lane: nat)
    requires lane > 0 && Produced(masters, pss, rules, lane)
    ensures EvenLanes(AllLanes(masters), pss, lane)
  {
    LanesInOrder(masters, pss, rules, lane, 0);
    forall k | 0 <= k < MASTERS * ARMS ensures LaneProduced(AllLanes(masters)[k], k / ARMS, k % ARMS, lane) && |pss[k]| == lane {
      LanesInOrder(masters, pss, rules, lane, k);
    }
  }

  lemma LaneRowAt(lanes: seq<Lane>, pss: seq<seq<seq<Byte>>>, lane: nat, l: nat, e: nat)
    requires EvenLanes(lanes, pss, lane) && l < |lanes| && e < lane
    ensures |AllRows(lanes)| == |AllRestored(lanes)| == |Joined(pss, PayloadsOf, |pss|)| == Budget(lane)
    ensures l * lane + e < Budget(lane) && AllRows(lanes)[l * lane + e] == lanes[l].index[e]
    ensures AllRestored(lanes)[l * lane + e] == lanes[l].restored[e]
    ensures Joined(pss, PayloadsOf, |pss|)[l * lane + e] == pss[l][e]
  {
    JoinedBlock(lanes, IndexOf, lane, l, e);
    JoinedBlock(lanes, RestoredOf, lane, l, e);
    JoinedBlock(pss, PayloadsOf, lane, l, e);
  }

  lemma LaneRows(masters: seq<MasterFiles>, pss: seq<seq<seq<Byte>>>, rules: Rules, lane: nat, i: nat)
    requires lane > 0 && Produced(masters, pss, rules, lane) && i < Budget(lane)
    ensures |Joined(pss, PayloadsOf, |pss|)| == Budget(lane)
    ensures MergedRow(masters, Joined(pss, PayloadsOf, |pss|), lane, rules.sha, i)
  {
    var l, e := SplitOrdinal(i, lane);
    LanesAreEven(masters, pss, rules, lane);
    LanesInOrder(masters, pss, rules, lane, l);
    LaneRowAt(AllLanes(masters), pss, lane, l, e);
    assert LaneDigests(AllLanes(masters)[l], pss[l], rules.sha);
  }

  lemma MasterRows(masters: seq<MasterFiles>, pss: seq<seq<seq<Byte>>>, rules: Rules, lane: nat, i: nat)
    requires lane > 0 && Produced(masters, pss, rules, lane) && i < Budget(lane)
    ensures var raw, private_ := Joined(masters, RawOf, MASTERS), Joined(masters, PrivateOf, MASTERS);
      |raw| == |private_| == Budget(lane) && raw[i].key == private_[i].key == KeyOf(i, lane)
  {
    var l, e := SplitOrdinal(i, lane);
    var m, j := l / ARMS, l % ARMS * lane + e;
    Regroup(m, l % ARMS, lane, e);
    Scaled(l % ARMS, ARMS, lane, e);
    Quotient(j, lane, l % ARMS, e);
    assert forall k | 0 <= k < |masters| ::
      MasterProduced(masters[k], k, lane) && |RawOf(masters[k])| == |PrivateOf(masters[k])| == ARMS * lane;
    assert m == KeyOf(i, lane).master;
    assert i == m * (ARMS * lane) + j;
    JoinedBlock(masters, RawOf, ARMS * lane, m, j);
    JoinedBlock(masters, PrivateOf, ARMS * lane, m, j);
    assert MasterProduced(masters[m], m, lane);
  }

  // The files the merge writes for those contents.
  function Written(c: Contents): Artifacts
    requires |c.rows| == |c.payloads|
  {
    Artifacts(c.raw, c.private_, Reindexed(c.rows, c.payloads, 0), c.restored, Concat(c.payloads), {})
  }

  lemma MergedRowInPlace(masters: seq<MasterFiles>, pss: seq<seq<seq<Byte>>>, rules: Rules, lane: nat, i: nat)
    requires lane > 0 && Produced(masters, pss, rules, lane) && i < Budget(lane)
    ensures var c := MergedOf(masters, pss);
      && |c.rows| == |c.payloads| == Budget(lane)
      && var a := Written(c);
        LongAs(a, Budget(lane)) && Ordered(a, KeyOf(i, lane), i) && RowHolds(a.index[i], rules.sha, c.payloads, i)
  {
    LaneRows(masters, pss, rules, lane, i);
    MasterRows(masters, pss, rules, lane, i);
  }

  ghost predicate AllAgree(a: Artifacts, rules: Rules, lane: nat)
    requires LongAs(a, Budget(lane))
  {
    forall i | 0 <= i < Budget(lane) ::
      && rules.agree(a.raw[i], a.private_[i], a.index[i], a.restored[i])
      && rules.binding(a.raw[i]) == rules.binding(a.raw[0])
  }

  lemma OnlyAgreementLeft(a: Artifacts, rules: Rules, lane: nat, ps: seq<seq<Byte>>)
    requires lane > 0 && LongAs(a, Budget(lane)) && Holds(a.index, a.frames, rules.sha, ps) && a.unreadable == {}
    requires forall i | 0 <= i < Budget(lane) :: Ordered(a, KeyOf(i, lane), i)
    ensures Accepted(a, rules, lane) <==> AllAgree(a, rules, lane)
  {
    AcceptedExactly(a, rules, lane);
    if Accepted(a, rules, lane) {
      forall i | 0 <= i < Budget(lane)
        ensures rules.agree(a.raw[i], a.private_[i], a.index[i], a.restored[i])
        ensures rules.binding(a.raw[i]) == rules.binding(a.raw[0])
      {
        assert RowAgrees(a, rules, lane, i);
      }
    }
  }

  // Of a run whose workers wrote their own files in order, the merge yields artifacts that pass every order,
  // offset, length, digest, count and trailing-byte check: only the row-agreement checks are left to decide.
  lemma MergedRunIsAccepted(masters: seq<MasterFiles>, pss: seq<seq<seq<Byte>>>, rules: Rules, lane: nat)
    requires lane > 0 && Produced(masters, pss, rules, lane)
    ensures AddMasters(NOTHING, masters, 0) == Ok(MergedOf(masters, pss))
    ensures var c := MergedOf(masters, pss);
      && |c.rows| == |c.payloads| && LongAs(Written(c), Budget(lane))
      && (Accepted(Written(c), rules, lane) <==> AllAgree(Written(c), rules, lane))
  {
    var c := MergedOf(masters, pss);
    MergePreservesContent(masters, pss);
    MergedRowInPlace(masters, pss, rules, lane, 0);
    var a := Written(c);
    forall i | 0 <= i < Budget(lane) ensures Ordered(a, KeyOf(i, lane), i) && RowHolds(a.index[i], rules.sha, c.payloads, i) {
      MergedRowInPlace(masters, pss, rules, lane, i);
    }
    assert Holds(a.index, a.frames, rules.sha, c.payloads);
    OnlyAgreementLeft(a, rules, lane, c.payloads);
  }
}
