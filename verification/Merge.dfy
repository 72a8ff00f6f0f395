/** Merging worker sidecars into the consolidated artifacts (q1.py): every lane's frames are read through its
    own index and appended to one file, and the index rows are rewritten to the new offsets. */
module Merge {
  import opened Wrappers
  import opened Frames

  // Arms are named by their position in the frozen arm order.
  datatype Key = Key(master: int, arm: int, episode: int)

  datatype IndexRow = IndexRow(key: Key, offset: int, length: int, digest: nat)
  datatype RawRow = RawRow(key: Key, episodeReturn: real, body: nat)
  datatype PlainRow = PlainRow(key: Key, body: nat)

  datatype Lane = Lane(index: seq<IndexRow>, frames: seq<Byte>, restored: seq<PlainRow>)
  datatype MasterFiles = MasterFiles(raw: seq<RawRow>, private_: seq<PlainRow>, lanes: seq<Lane>)

  datatype MergeError = BadFrame(error: FrameError) | TrailingBytes

  // ---------------------------------------------------------------- what one lane holds

  // The payloads that the index rows from k on read, or the first error among them.
  function PayloadsFrom(lane: Lane, k: nat): Result<seq<seq<Byte>>, MergeError>
    requires k <= |lane.index|
    decreases |lane.index| - k
  {
    if k == |lane.index| then Ok([])
    else match ReadAt(lane.frames, lane.index[k].offset, lane.index[k].length)
      case Err(e) => Err(BadFrame(e))
      case Ok(p) =>
        match PayloadsFrom(lane, k + 1)
        case Err(e) => Err(e)
        case Ok(ps) => Ok([p] + ps)
  }

  // The read position after the last indexed frame.
  function EndOfReads(index: seq<IndexRow>): int {
    if index == [] then 0 else index[|index| - 1].offset + HEADER_BYTES + index[|index| - 1].length
  }

  function LanePayloads(lane: Lane): Result<seq<seq<Byte>>, MergeError> {
    match PayloadsFrom(lane, 0)
    case Err(e) => Err(e)
    case Ok(ps) => if EndOfReads(lane.index) == |lane.frames| then Ok(ps) else Err(TrailingBytes)
  }

  lemma {:induction false} PayloadsCount(lane: Lane, k: nat)
    requires k <= |lane.index| && PayloadsFrom(lane, k).Ok?
    ensures |PayloadsFrom(lane, k).value| == |lane.index| - k
    decreases |lane.index| - k
  {
    if k < |lane.index| {
      PayloadsCount(lane, k + 1);
    }
  }

  lemma {:induction false} PayloadRead(lane: Lane, k: nat, i: nat)
    requires k <= i < |lane.index| && PayloadsFrom(lane, k).Ok?
    ensures |PayloadsFrom(lane, k).value| == |lane.index| - k
    ensures ReadAt(lane.frames, lane.index[i].offset, lane.index[i].length) == Ok(PayloadsFrom(lane, k).value[i - k])
    decreases i - k
  {
    PayloadsCount(lane, k);
    var ps := PayloadsFrom(lane, k).value;
    if k < i {
      PayloadRead(lane, k + 1, i);
      var rest := PayloadsFrom(lane, k + 1).value;
      assert ps == [ps[0]] + rest && ps[i - k] == rest[i - k - 1];
    }
  }

  // ---------------------------------------------------------------- re-offsetting

  function Reindexed(rows: seq<IndexRow>, ps: seq<seq<Byte>>, base: nat): (out: seq<IndexRow>)
    requires |rows| == |ps|
    ensures |out| == |rows|
  {
    seq(|rows|, i requires 0 <= i < |rows| => rows[i].(offset := base + OffsetOf(ps, i), length := |ps[i]|))
  }

  lemma {:induction false} ConcatAppend(ps: seq<seq<Byte>>, qs: seq<seq<Byte>>)
    ensures Concat(ps + qs) == Concat(ps) + Concat(qs)
  {
    if qs == [] {
      assert ps + qs == ps;
    } else {
      assert (ps + qs)[..|ps + qs| - 1] == ps + qs[..|qs| - 1];
      ConcatAppend(ps, qs[..|qs| - 1]);
    }
  }

  lemma {:induction false} OffsetAppend(ps: seq<seq<Byte>>, qs: seq<seq<Byte>>, i: nat)
    requires i <= |qs|
    ensures OffsetOf(ps + qs, |ps| + i) == |Concat(ps)| + OffsetOf(qs, i)
  {
    if i == 0 {
      OffsetPrefix(ps + qs, ps, |ps|);
      ConcatLength(ps);
    } else {
      OffsetAppend(ps, qs, i - 1);
    }
  }

  lemma ReindexedAppend(rows: seq<IndexRow>, ps: seq<seq<Byte>>, more: seq<IndexRow>, qs: seq<seq<Byte>>)
    requires |rows| == |ps| && |more| == |qs|
    ensures Reindexed(rows + more, ps + qs, 0) == Reindexed(rows, ps, 0) + Reindexed(more, qs, |Concat(ps)|)
  {
    var whole := Reindexed(rows + more, ps + qs, 0);
    var parts := Reindexed(rows, ps, 0) + Reindexed(more, qs, |Concat(ps)|);
    forall i | 0 <= i < |whole| ensures whole[i] == parts[i] {
      if i < |rows| {
        OffsetPrefix(ps + qs, ps, i);
      } else {
        OffsetAppend(ps, qs, i - |ps|);
      }
    }
  }

  // ---------------------------------------------------------------- all lanes of all masters

  // What the first n items contribute, one after the other.
  function Joined<S, T>(items: seq<S>, part: S -> seq<T>, n: nat): seq<T>
    requires n <= |items|
  {
    if n == 0 then [] else Joined(items, part, n - 1) + part(items[n - 1])
  }

  function LanesOf(master: MasterFiles): seq<Lane> { master.lanes }
  function IndexOf(lane: Lane): seq<IndexRow> { lane.index }
  function RestoredOf(lane: Lane): seq<PlainRow> { lane.restored }
  function RawOf(master: MasterFiles): seq<RawRow> { master.raw }
  function PrivateOf(master: MasterFiles): seq<PlainRow> { master.private_ }
  function PayloadsOf(ps: seq<seq<Byte>>): seq<seq<Byte>> { ps }

  function AllLanes(masters: seq<MasterFiles>): seq<Lane> { Joined(masters, LanesOf, |masters|) }

  function AllRows(lanes: seq<Lane>): seq<IndexRow> { Joined(lanes, IndexOf, |lanes|) }
  function AllRestored(lanes: seq<Lane>): seq<PlainRow> { Joined(lanes, RestoredOf, |lanes|) }

  // What has been merged: raw and private rows, worker index rows with the payloads they led to, restored rows.
  datatype Contents = Contents(
    raw: seq<RawRow>, private_: seq<PlainRow>, rows: seq<IndexRow>, payloads: seq<seq<Byte>>, restored: seq<PlainRow>)

  const NOTHING: Contents := Contents([], [], [], [], [])

  function AddFrame(c: Contents, frames: seq<Byte>, row: IndexRow): Result<Contents, MergeError> {
    match ReadAt(frames, row.offset, row.length)
    case Err(e) => Err(BadFrame(e))
    case Ok(p) => Ok(c.(rows := c.rows + [row], payloads := c.payloads + [p]))
  }

  // Adds the frames of one lane from k on, up to the first error among them.
  function AddFrames(c: Contents, lane: Lane, k: nat): Result<Contents, MergeError>
    requires k <= |lane.index|
    decreases |lane.index| - k
  {
    if k == |lane.index| then Ok(c)
    else match AddFrame(c, lane.frames, lane.index[k])
      case Err(e) => Err(e)
      case Ok(d) => AddFrames(d, lane, k + 1)
  }

  lemma EndAfter(index: seq<IndexRow>, k: nat)
    requires k < |index|
    ensures EndOfReads(index[..k + 1]) == index[k].offset + HEADER_BYTES + index[k].length
  {
  }

  // Frame by frame or lane by lane, the contents are the same.
  lemma {:induction false} AddFramesAre(c: Contents, lane: Lane, k: nat)
    requires k <= |lane.index|
    ensures AddFrames(c, lane, k) == match PayloadsFrom(lane, k)
      case Err(e) => Err(e)
      case Ok(ps) => Ok(c.(rows := c.rows + lane.index[k..], payloads := c.payloads + ps))
    decreases |lane.index| - k
  {
    if k == |lane.index| {
      assert c.rows + lane.index[k..] == c.rows && c.payloads + [] == c.payloads;
    } else if AddFrame(c, lane.frames, lane.index[k]).Ok? {
      var d := AddFrame(c, lane.frames, lane.index[k]).value;
      AddFramesAre(d, lane, k + 1);
      assert d.rows + lane.index[k + 1..] == c.rows + lane.index[k..];
      if PayloadsFrom(lane, k + 1).Ok? {
        var p := d.payloads[|c.payloads|];
        assert d.payloads + PayloadsFrom(lane, k + 1).value == c.payloads + ([p] + PayloadsFrom(lane, k + 1).value);
      }
    }
  }

  lemma AddFramesIsAddLane(c: Contents, lane: Lane)
    ensures AddLane(c, lane) == match AddFrames(c, lane, 0)
      case Err(e) => Err(e)
      case Ok(d) =>
        if EndOfReads(lane.index) == |lane.frames| then Ok(d.(restored := d.restored + lane.restored)) else Err(TrailingBytes)
  {
    AddFramesAre(c, lane, 0);
    assert lane.index[0..] == lane.index;
  }

  function AddLane(c: Contents, lane: Lane): Result<Contents, MergeError> {
    match LanePayloads(lane)
    case Err(e) => Err(e)
    case Ok(ps) => Ok(Added(c, lane.index, ps, lane.restored))
  }

  function Added(c: Contents, rows: seq<IndexRow>, ps: seq<seq<Byte>>, restored: seq<PlainRow>): Contents {
    c.(rows := c.rows + rows, payloads := c.payloads + ps, restored := c.restored + restored)
  }

  // Adds the lanes from k on.
  function AddLanes(c: Contents, lanes: seq<Lane>, k: nat): Result<Contents, MergeError>
    requires k <= |lanes|
    decreases |lanes| - k
  {
    if k == |lanes| then Ok(c)
    else match AddLane(c, lanes[k])
      case Err(e) => Err(e)
      case Ok(d) => AddLanes(d, lanes, k + 1)
  }

  function AddMaster(c: Contents, master: MasterFiles): Result<Contents, MergeError> {
    AddLanes(WithRows(c, c.raw + master.raw, c.private_ + master.private_), master.lanes, 0)
  }

  function WithRows(c: Contents, raw: seq<RawRow>, private_: seq<PlainRow>): Contents {
    c.(raw := raw, private_ := private_)
  }

  // Adds the masters from k on.
  function AddMasters(c: Contents, masters: seq<MasterFiles>, k: nat): Result<Contents, MergeError>
    requires k <= |masters|
    decreases |masters| - k
  {
    if k == |masters| then Ok(c)
    else match AddMaster(c, masters[k])
      case Err(e) => Err(e)
      case Ok(d) => AddMasters(d, masters, k + 1)
  }

  // Where item k's part stands in the whole.
  lemma {:induction false} JoinedAt<S, T>(items: seq<S>, part: S -> seq<T>, n: nat, k: nat)
    requires k < n <= |items|
    ensures var start := |Joined(items, part, k)|;
      && start + |part(items[k])| == |Joined(items, part, k + 1)| <= |Joined(items, part, n)|
      && forall i | 0 <= i < |part(items[k])| :: Joined(items, part, n)[start + i] == part(items[k])[i]
  {
    if k < n - 1 {
      JoinedAt(items, part, n - 1, k);
    }
  }

  // ---------------------------------------------------------------- the merge itself

  class Merger {
    const frames: Stream
    var index: seq<IndexRow>
    var raw: seq<RawRow>
    var private_: seq<PlainRow>
    var restored: seq<PlainRow>
    ghost var rows: seq<IndexRow>           // the worker index rows merged so far
    ghost var payloads: seq<seq<Byte>>      // and the frame payloads they led to

    // The output so far holds exactly the merged payloads, at the offsets its index names.
    ghost predicate Valid()
      reads this, frames
    {
      && frames.pos == |frames.data| && |rows| == |payloads|
      && frames.data == Concat(payloads)
      && index == Reindexed(rows, payloads, 0)
    }

    constructor ()
      ensures Valid() && fresh(frames) && rows == [] && payloads == []
      ensures raw == [] && private_ == [] && restored == []
    {
      frames := new Stream([]);
      index, raw, private_, restored, rows, payloads := [], [], [], [], [], [];
    }

    method CopyFrame(source: Stream, row: IndexRow) returns (r: Result<(), MergeError>)
      requires Valid() && source != frames
      modifies this`index, this`rows, this`payloads, frames, source`pos
      ensures Valid()
      ensures match AddFrame(old(View()), source.data, row)
        case Err(e) => r == Err(e)
        case Ok(c) => r == Ok(()) && View() == c && source.pos == row.offset + HEADER_BYTES + row.length
    {
      var payload := ReadFrame(source, row.offset, row.length);
      if payload.Err? {
        return Err(BadFrame(payload.error));
      }
      ReadAtExactly(source.data, row.offset, row.length, payload.value);
      var location := AppendFrame(frames, payload.value);
      ReindexedAppend(rows, payloads, [row], [payload.value]);
      assert (payloads + [payload.value])[..|payloads|] == payloads;
      index := index + [row.(offset := location.value.offset, length := location.value.length)];
      rows := rows + [row];
      payloads := payloads + [payload.value];
      return Ok(());
    }

    method CopyFrames(source: Stream, lane: Lane) returns (r: Result<(), MergeError>)
      requires Valid() && source != frames && source.data == lane.frames && source.pos == 0
      modifies this`index, this`rows, this`payloads, frames, source`pos
      ensures Valid()
      ensures match AddFrames(old(View()), lane, 0)
        case Err(e) => r == Err(e)
        case Ok(c) => r == Ok(()) && View() == c && source.pos == EndOfReads(lane.index)
    {
      ghost var start := View();
      for k := 0 to |lane.index|
        invariant Valid() && source.pos == EndOfReads(lane.index[..k])
        invariant AddFrames(start, lane, 0) == AddFrames(View(), lane, k)
      {
        var step := CopyFrame(source, lane.index[k]);
        if step.Err? {
          return step;
        }
        EndAfter(lane.index, k);
      }
      assert lane.index[..|lane.index|] == lane.index;
      return Ok(());
    }

    method MergeLane(lane: Lane) returns (r: Result<(), MergeError>)
      requires Valid()
      modifies this`index, this`restored, this`rows, this`payloads, frames
      ensures Valid()
      ensures match AddLane(old(View()), lane)
        case Err(e) => r == Err(e)
        case Ok(c) => r == Ok(()) && View() == c
    {
      AddFramesIsAddLane(View(), lane);
      var source := new Stream(lane.frames);
      r := CopyFrames(source, lane);
      if r.Ok? {
        if source.pos != |source.data| {
          return Err(TrailingBytes);
        }
        restored := restored + lane.restored;
      }
    }

    ghost function View(): Contents
      reads this
    {
      Contents(raw, private_, rows, payloads, restored)
    }

    method MergeLanes(lanes: seq<Lane>) returns (r: Result<(), MergeError>)
      requires Valid()
      modifies this`index, this`restored, this`rows, this`payloads, frames
      ensures Valid()
      ensures match AddLanes(old(View()), lanes, 0)
        case Err(e) => r == Err(e)
        case Ok(c) => r == Ok(()) && View() == c
    {
      ghost var start := View();
      for a := 0 to |lanes|
        invariant Valid() && AddLanes(start, lanes, 0) == AddLanes(View(), lanes, a)
      {
        var step := MergeLane(lanes[a]);
        if step.Err? {
          return step;
        }
      }
      return Ok(());
    }

    // One master: its raw and private rows are copied, then its lanes are merged in arm order.
    method MergeMaster(master: MasterFiles) returns (r: Result<(), MergeError>)
      requires Valid()
      modifies this, frames
      ensures Valid()
      ensures match AddMaster(old(View()), master)
        case Err(e) => r == Err(e)
        case Ok(c) => r == Ok(()) && View() == c
    {
      raw := raw + master.raw;
      private_ := private_ + master.private_;
      r := MergeLanes(master.lanes);
    }

    method MergeAll(masters: seq<MasterFiles>) returns (r: Result<(), MergeError>)
      requires Valid() && View() == NOTHING
      modifies this, frames
      ensures Valid()
      ensures match AddMasters(NOTHING, masters, 0)
        case Err(e) => r == Err(e)
        case Ok(c) => r == Ok(()) && View() == c
    {
      for m := 0 to |masters|
        invariant Valid() && AddMasters(NOTHING, masters, 0) == AddMasters(View(), masters, m)
      {
        var step := MergeMaster(masters[m]);
        if step.Err? {
          return step;
        }
      }
      return Ok(());
    }
  }

  // ---------------------------------------------------------------- content is preserved

  // What a producer writes for one lane: frames back to back, index rows at their offsets.
  ghost predicate ProducedAs(lane: Lane, ps: seq<seq<Byte>>) {
    && AllStorable(ps) && |lane.index| == |ps|
    && lane.frames == Concat(ps)
    && lane.index == Reindexed(lane.index, ps, 0)
  }

  lemma ProducedLaneReads(lane: Lane, ps: seq<seq<Byte>>)
    requires ProducedAs(lane, ps)
    ensures LanePayloads(lane) == Ok(ps)
  {
    forall i | 0 <= i < |ps| ensures FrameReads(lane, ps, i) {
      ProducedFrameReads(lane, ps, i);
    }
    FramesReadFrom(lane, ps, 0);
    ConcatLength(ps);
    assert ps[0..] == ps;
    if ps != [] {
      ReindexedAt(lane, ps, |ps| - 1);
    }
  }

  lemma ReindexedAt(lane: Lane, ps: seq<seq<Byte>>, i: nat)
    requires ProducedAs(lane, ps) && i < |ps|
    ensures lane.index[i].offset == OffsetOf(ps, i) && lane.index[i].length == |ps[i]|
  {
    assert lane.index[i] == Reindexed(lane.index, ps, 0)[i];
  }

  lemma ProducedFrameReads(lane: Lane, ps: seq<seq<Byte>>, k: nat)
    requires ProducedAs(lane, ps) && k < |ps|
    ensures ReadAt(lane.frames, lane.index[k].offset, lane.index[k].length) == Ok(ps[k])
  {
    ConcatReads(ps, k);
    ReindexedAt(lane, ps, k);
  }

  ghost predicate FrameReads(lane: Lane, ps: seq<seq<Byte>>, i: nat)
    requires i < |ps| == |lane.index|
  {
    ReadAt(lane.frames, lane.index[i].offset, lane.index[i].length) == Ok(ps[i])
  }

  lemma {:induction false} FramesReadFrom(lane: Lane, ps: seq<seq<Byte>>, k: nat)
    requires k <= |ps| == |lane.index| && forall i | 0 <= i < |ps| :: FrameReads(lane, ps, i)
    ensures PayloadsFrom(lane, k) == Ok(ps[k..])
    decreases |ps| - k
  {
    if k < |ps| {
      FramesReadFrom(lane, ps, k + 1);
      assert FrameReads(lane, ps, k);
      assert ps[k..] == [ps[k]] + ps[k + 1..];
    } else {
      assert ps[k..] == [];
    }
  }

  ghost predicate AllProduced(lanes: seq<Lane>, pss: seq<seq<seq<Byte>>>) {
    |lanes| == |pss| && forall i {:trigger ProducedAs(lanes[i], pss[i])} | 0 <= i < |lanes| :: ProducedAs(lanes[i], pss[i])
  }

  // What the first k produced lanes add.
  function AddedLanes(c: Contents, lanes: seq<Lane>, pss: seq<seq<seq<Byte>>>, k: nat): Contents
    requires k <= |lanes| == |pss|
  {
    Added(c, Joined(lanes, IndexOf, k), Joined(pss, PayloadsOf, k), Joined(lanes, RestoredOf, k))
  }

  lemma AddedNext(c: Contents, lanes: seq<Lane>, pss: seq<seq<seq<Byte>>>, k: nat)
    requires k < |lanes| == |pss|
    ensures Added(AddedLanes(c, lanes, pss, k), lanes[k].index, pss[k], lanes[k].restored) == AddedLanes(c, lanes, pss, k + 1)
  {
    assert c.rows + Joined(lanes, IndexOf, k) + lanes[k].index == c.rows + (Joined(lanes, IndexOf, k) + lanes[k].index);
    assert c.payloads + Joined(pss, PayloadsOf, k) + pss[k] == c.payloads + (Joined(pss, PayloadsOf, k) + pss[k]);
    assert c.restored + Joined(lanes, RestoredOf, k) + lanes[k].restored
        == c.restored + (Joined(lanes, RestoredOf, k) + lanes[k].restored);
  }

  lemma {:induction false} ProducedLanesAdd(c: Contents, lanes: seq<Lane>, pss: seq<seq<seq<Byte>>>, k: nat)
    requires AllProduced(lanes, pss) && k <= |lanes|
    ensures AddLanes(AddedLanes(c, lanes, pss, k), lanes, k) == Ok(AddedLanes(c, lanes, pss, |lanes|))
    decreases |lanes| - k
  {
    if k < |lanes| {
      assert ProducedAs(lanes[k], pss[k]);
      ProducedLaneReads(lanes[k], pss[k]);
      AddedNext(c, lanes, pss, k);
      ProducedLanesAdd(c, lanes, pss, k + 1);
    }
  }

  // Adding a stretch of a list of lanes is adding its lanes and then the rest of the list.
  lemma {:induction false} AddLanesWithin(c: Contents, all: seq<Lane>, start: nat, part: seq<Lane>, j: nat)
    requires start + |part| <= |all| && forall i | 0 <= i < |part| :: all[start + i] == part[i]
    requires j <= |part|
    ensures AddLanes(c, all, start + j) == match AddLanes(c, part, j)
      case Err(e) => Err(e)
      case Ok(d) => AddLanes(d, all, start + |part|)
    decreases |part| - j
  {
    if j < |part| && AddLane(c, part[j]).Ok? {
      AddLanesWithin(AddLane(c, part[j]).value, all, start, part, j + 1);
    }
  }

  // The raw and private rows of a master do not affect how its lanes are added.
  lemma {:induction false} RowsStandAside(c: Contents, raw: seq<RawRow>, private_: seq<PlainRow>, lanes: seq<Lane>, k: nat)
    requires k <= |lanes|
    ensures AddLanes(WithRows(c, raw, private_), lanes, k) == match AddLanes(c, lanes, k)
      case Err(e) => Err(e)
      case Ok(d) => Ok(WithRows(d, raw, private_))
    decreases |lanes| - k
  {
    if k < |lanes| && AddLane(c, lanes[k]).Ok? {
      RowsStandAside(AddLane(c, lanes[k]).value, raw, private_, lanes, k + 1);
    }
  }

  function RowsOf(c: Contents, masters: seq<MasterFiles>, k: nat): Contents
    requires k <= |masters|
  {
    WithRows(c, Joined(masters, RawOf, k), Joined(masters, PrivateOf, k))
  }

  // Merging master by master adds all lanes, one after the other.
  lemma {:induction false} MastersAddAllLanes(c: Contents, masters: seq<MasterFiles>, k: nat)
    requires k <= |masters| && |Joined(masters, LanesOf, k)| <= |AllLanes(masters)|
    ensures AddMasters(RowsOf(c, masters, k), masters, k) ==
      match AddLanes(c, AllLanes(masters), |Joined(masters, LanesOf, k)|)
      case Err(e) => Err(e)
      case Ok(d) => Ok(RowsOf(d, masters, |masters|))
    decreases |masters| - k
  {
    if k < |masters| {
      MasterAddsItsLanes(c, masters, k);
      if AddLanes(c, masters[k].lanes, 0).Ok? {
        JoinedAt(masters, LanesOf, |masters|, k);
        MastersAddAllLanes(AddLanes(c, masters[k].lanes, 0).value, masters, k + 1);
      }
    }
  }

  lemma MasterAddsItsLanes(c: Contents, masters: seq<MasterFiles>, k: nat)
    requires k < |masters|
    ensures AddMaster(RowsOf(c, masters, k), masters[k]) == match AddLanes(c, masters[k].lanes, 0)
      case Err(e) => Err(e)
      case Ok(d) => Ok(RowsOf(d, masters, k + 1))
    ensures |Joined(masters, LanesOf, k)| <= |Joined(masters, LanesOf, k + 1)| <= |AllLanes(masters)|
    ensures AddLanes(c, AllLanes(masters), |Joined(masters, LanesOf, k)|) == match AddLanes(c, masters[k].lanes, 0)
      case Err(e) => Err(e)
      case Ok(d) => AddLanes(d, AllLanes(masters), |Joined(masters, LanesOf, k + 1)|)
  {
    var lanes := masters[k].lanes;
    JoinedAt(masters, LanesOf, |masters|, k);
    AddLanesWithin(c, AllLanes(masters), |Joined(masters, LanesOf, k)|, lanes, 0);
    RowsStandAside(c, Joined(masters, RawOf, k + 1), Joined(masters, PrivateOf, k + 1), lanes, 0);
  }

  // Entry i of a merged index names worker row i, starts where entry i - 1 ends, and reads back payload i.
  ghost predicate EntryReads(rows: seq<IndexRow>, index: seq<IndexRow>, ps: seq<seq<Byte>>, i: nat)
    requires i < |ps| == |index| == |rows|
  {
    && ReadAt(Concat(ps), index[i].offset, index[i].length) == Ok(ps[i])
    && index[i] == rows[i].(offset := index[i].offset, length := index[i].length)
    && index[i].offset == (if i == 0 then 0 else index[i - 1].offset + HEADER_BYTES + index[i - 1].length)
  }

  // What the merge of such lanes holds.
  function MergedOf(masters: seq<MasterFiles>, pss: seq<seq<seq<Byte>>>): Contents {
    Contents(Joined(masters, RawOf, |masters|), Joined(masters, PrivateOf, |masters|), AllRows(AllLanes(masters)),
             Joined(pss, PayloadsOf, |pss|), AllRestored(AllLanes(masters)))
  }

  // For any lane budget and any storable payloads: the merge succeeds, and in master, arm, episode order
  // every merged index entry reads back exactly the payload its producer wrote, at contiguous offsets from 0.
  lemma MergePreservesContent(masters: seq<MasterFiles>, pss: seq<seq<seq<Byte>>>)
    requires AllProduced(AllLanes(masters), pss)
    ensures AddMasters(NOTHING, masters, 0) == Ok(MergedOf(masters, pss))
    ensures var c := MergedOf(masters, pss);
      |c.rows| == |c.payloads| && AllStorable(c.payloads) && AllEntriesRead(c.rows, c.payloads)
  {
    MergeSucceeds(masters, pss);
    ProducedRowsMatch(AllLanes(masters), pss, |pss|);
    EntriesRead(AllRows(AllLanes(masters)), Joined(pss, PayloadsOf, |pss|));
  }

  lemma MergeSucceeds(masters: seq<MasterFiles>, pss: seq<seq<seq<Byte>>>)
    requires AllProduced(AllLanes(masters), pss)
    ensures AddMasters(NOTHING, masters, 0) == Ok(MergedOf(masters, pss))
  {
    var lanes := AllLanes(masters);
    MastersAddAllLanes(NOTHING, masters, 0);
    ProducedLanesAdd(NOTHING, lanes, pss, 0);
    assert AddedLanes(NOTHING, lanes, pss, 0) == NOTHING && RowsOf(NOTHING, masters, 0) == NOTHING;
    assert RowsOf(AddedLanes(NOTHING, lanes, pss, |lanes|), masters, |masters|) == MergedOf(masters, pss);
  }

  ghost predicate AllEntriesRead(rows: seq<IndexRow>, ps: seq<seq<Byte>>)
    requires |rows| == |ps|
  {
    forall i | 0 <= i < |ps| :: EntryReads(rows, Reindexed(rows, ps, 0), ps, i)
  }

  lemma EntriesRead(rows: seq<IndexRow>, ps: seq<seq<Byte>>)
    requires |rows| == |ps| && AllStorable(ps)
    ensures AllEntriesRead(rows, ps)
  {
    forall i | 0 <= i < |ps| ensures EntryReads(rows, Reindexed(rows, ps, 0), ps, i) {
      ReindexedReads(rows, ps, i);
    }
  }

  lemma {:induction false} ProducedRowsMatch(lanes: seq<Lane>, pss: seq<seq<seq<Byte>>>, n: nat)
    requires AllProduced(lanes, pss) && n <= |lanes|
    ensures |Joined(lanes, IndexOf, n)| == |Joined(pss, PayloadsOf, n)| && AllStorable(Joined(pss, PayloadsOf, n))
  {
    if n > 0 {
      ProducedRowsMatch(lanes, pss, n - 1);
      assert ProducedAs(lanes[n - 1], pss[n - 1]);
    }
  }

  lemma ReindexedReads(rows: seq<IndexRow>, ps: seq<seq<Byte>>, i: nat)
    requires i < |ps| == |rows| && AllStorable(ps)
    ensures EntryReads(rows, Reindexed(rows, ps, 0), ps, i)
  {
    ConcatReads(ps, i);
  }

  // ---------------------------------------------------------------- what the trailing-byte check does not see

  lemma LaneFacts(lane: Lane, ps: seq<seq<Byte>>)
    requires LanePayloads(lane) == Ok(ps)
    ensures PayloadsFrom(lane, 0) == Ok(ps) && |ps| == |lane.index|
    ensures EndOfReads(lane.index) == |lane.frames|
  {
    PayloadsCount(lane, 0);
  }

  // A lane whose index leaves no gap loses nothing: its merged frames are its whole sidecar.
  lemma ContiguousLaneIsWhole(lane: Lane, ps: seq<seq<Byte>>)
    requires LanePayloads(lane) == Ok(ps)
    requires |ps| == |lane.index| && forall i | 0 <= i < |ps| :: StartsAt(lane, ps, i)
    ensures lane.frames == Concat(ps)
  {
    LaneFacts(lane, ps);
    FrontStands(lane, ps);
    FramesFill(lane.frames, ps);
  }

  lemma FrontStands(lane: Lane, ps: seq<seq<Byte>>)
    requires |ps| == |lane.index| && PayloadsFrom(lane, 0) == Ok(ps) && EndOfReads(lane.index) == |lane.frames|
    requires forall i | 0 <= i < |ps| :: StartsAt(lane, ps, i)
    ensures OffsetOf(ps, |ps|) == |lane.frames| && forall i | 0 <= i < |ps| :: StandsAt(lane.frames, ps, i)
  {
    forall i | 0 <= i < |ps| ensures StandsAt(lane.frames, ps, i) {
      assert StartsAt(lane, ps, i);
      LanePayloadAt(lane, ps, i);
    }
    if ps != [] {
      assert StartsAt(lane, ps, |ps| - 1);
      LanePayloadAt(lane, ps, |ps| - 1);
    }
  }

  ghost predicate StartsAt(lane: Lane, ps: seq<seq<Byte>>, i: nat)
    requires i < |ps| == |lane.index|
  {
    lane.index[i].offset == OffsetOf(ps, i)
  }

  lemma LanePayloadAt(lane: Lane, ps: seq<seq<Byte>>, i: nat)
    requires i < |ps| == |lane.index| && PayloadsFrom(lane, 0) == Ok(ps)
    ensures ReadAt(lane.frames, lane.index[i].offset, lane.index[i].length) == Ok(ps[i]) && lane.index[i].length == |ps[i]|
  {
    PayloadRead(lane, 0, i);
    ReadAtExactly(lane.frames, lane.index[i].offset, lane.index[i].length, ps[i]);
  }

  // Index entry i starts where the entry before it ends.
  predicate Continues(index: seq<IndexRow>, i: nat)
    requires i < |index|
  {
    index[i].offset == if i == 0 then 0 else index[i - 1].offset + HEADER_BYTES + index[i - 1].length
  }

  predicate NoGap(index: seq<IndexRow>) {
    forall i {:trigger Continues(index, i)} | 0 <= i < |index| :: Continues(index, i)
  }

  lemma {:induction false} NoGapStarts(lane: Lane, ps: seq<seq<Byte>>, i: nat)
    requires i < |ps| == |lane.index| && PayloadsFrom(lane, 0) == Ok(ps) && NoGap(lane.index)
    ensures StartsAt(lane, ps, i)
  {
    assert Continues(lane.index, i);
    if i > 0 {
      NoGapStarts(lane, ps, i - 1);
      LanePayloadAt(lane, ps, i - 1);
    }
  }

  // A lane that the merge takes is what a producer writes, frames back to back and every one of them indexed, exactly
  // when its index leaves no gap.
  lemma LaneIsWholeExactly(lane: Lane, ps: seq<seq<Byte>>)
    requires LanePayloads(lane) == Ok(ps)
    ensures ProducedAs(lane, ps) <==> NoGap(lane.index)
  {
    LaneFacts(lane, ps);
    if NoGap(lane.index) {
      NoGapIsProduced(lane, ps);
    }
    if ProducedAs(lane, ps) {
      forall i | 0 <= i < |ps| ensures Continues(lane.index, i) {
        ReindexedAt(lane, ps, i);
        if i > 0 {
          ReindexedAt(lane, ps, i - 1);
        }
      }
    }
  }

  lemma NoGapIsProduced(lane: Lane, ps: seq<seq<Byte>>)
    requires LanePayloads(lane) == Ok(ps) && NoGap(lane.index)
    ensures ProducedAs(lane, ps)
  {
    LaneFacts(lane, ps);
    forall i | 0 <= i < |ps|
      ensures StartsAt(lane, ps, i) && Storable(ps[i]) && lane.index[i] == Reindexed(lane.index, ps, 0)[i]
    {
      NoGapStarts(lane, ps, i);
      LanePayloadAt(lane, ps, i);
      ReadAtExactly(lane.frames, lane.index[i].offset, lane.index[i].length, ps[i]);
    }
    ContiguousLaneIsWhole(lane, ps);
    assert lane.index == Reindexed(lane.index, ps, 0);
  }

  // An index that reads one frame twice passes the check too, and where the frames are alike even its merged frames
  // are the sidecar: only the index shows that the first frame was never read.
  lemma RereadFramePasses(key: Key)
    ensures var lane := Lane([IndexRow(key, 9, 1, 0), IndexRow(key, 9, 1, 0)], Frame([1]) + Frame([1]), []);
      LanePayloads(lane) == Ok([[1], [1]]) && Concat([[1], [1]]) == lane.frames && !NoGap(lane.index)
  {
    var lane := Lane([IndexRow(key, 9, 1, 0), IndexRow(key, 9, 1, 0)], Frame([1]) + Frame([1]), []);
    var one: seq<Byte> := [1];
    assert |Frame(one)| == 9 && |lane.frames| == 18 && lane.frames[9..18] == Frame(one);
    ReadAtExactly(lane.frames, 9, 1, one);
    assert PayloadsFrom(lane, 2) == Ok([]);
    assert PayloadsFrom(lane, 1) == Ok([one] + []) && [one] + [] == [one];
    assert PayloadsFrom(lane, 0) == Ok([one] + [one]);
    assert EndOfReads(lane.index) == 18;
    assert [one] + [one] == [one, one];
    TwoFrames(one, one);
    assert !Continues(lane.index, 0);
  }

  lemma TwoFrames(p: seq<Byte>, q: seq<Byte>)
    ensures Concat([p, q]) == Frame(p) + Frame(q)
  {
    assert [p, q][..1] == [p] && [p][..0] == [];
    assert Concat([p]) == Frame(p);
  }

  // A lane index that skips a frame passes the check as long as its last frame ends the file,
  // and the skipped frame is dropped from the merge.
  lemma SkippedFrameIsDropped(key: Key)
    ensures var lane := Lane([IndexRow(key, 9, 1, 0)], Frame([1]) + Frame([2]), []);
      LanePayloads(lane) == Ok([[2]]) && Concat([[2]]) != lane.frames
  {
    var lane := Lane([IndexRow(key, 9, 1, 0)], Frame([1]) + Frame([2]), []);
    var first, second: seq<Byte> := [1], [2];
    assert |Frame(first)| == 9 && |Frame(second)| == 9 && |lane.frames| == 18;
    assert lane.frames[9..18] == Frame(second);
    ReadAtExactly(lane.frames, 9, 1, second);
    assert PayloadsFrom(lane, 1) == Ok([]);
    assert ReadAt(lane.frames, lane.index[0].offset, lane.index[0].length) == Ok(second);
    assert PayloadsFrom(lane, 0) == Ok([second] + []);
    assert EndOfReads(lane.index) == 18;
    ConcatLength([second]);
    assert OffsetOf([second], 1) == 9;
    assert [second] + [] == [second];
  }
}
