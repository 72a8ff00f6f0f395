/** From the producer's files to the auditor's (q1.py, q1_audit.py): what the producer's validator accepts and publishes,
    printed line by line, leaves nothing for the auditor's pass to object to but what its semantic checks find. */
module Publication {
  import opened Wrappers
  import opened Frames
  import opened Merge
  import opened Consolidation
  import opened AuditStream

  // ---------------------------------------------------------------- rows printed one after the other

  // One canonical line: it ends in the only newline it has, it fits, and it is read back.
  predicate PrintsAs(line: seq<Byte>, row: Row, parse: seq<Byte> -> Option<Row>) {
    && 0 < |line| <= MAX_ROW_BYTES && line[|line| - 1] == NEWLINE && (forall k | 0 <= k < |line| - 1 :: line[k] != NEWLINE)
    && parse(line) == Some(row)
  }

  // The first n lines.
  function Printed(render: Row -> seq<Byte>, rows: seq<Row>, n: nat): seq<Byte>
    requires n <= |rows|
  {
    if n == 0 then [] else Printed(render, rows, n - 1) + render(rows[n - 1])
  }

  ghost predicate Prints(render: Row -> seq<Byte>, parse: seq<Byte> -> Option<Row>, rows: seq<Row>) {
    forall i | 0 <= i < |rows| :: PrintsAs(render(rows[i]), rows[i], parse)
  }

  lemma {:induction false} LineEndIs(data: seq<Byte>, pos: nat, n: nat)
    requires n > 0 && pos + n <= |data| && data[pos + n - 1] == NEWLINE && forall k | pos <= k < pos + n - 1 :: data[k] != NEWLINE
    ensures LineEnd(data, pos) == pos + n
    decreases n
  {
    if n > 1 {
      LineEndIs(data, pos + 1, n - 1);
    }
  }

  lemma {:induction false} PrintedPrefix(render: Row -> seq<Byte>, rows: seq<Row>, i: nat, n: nat)
    requires i <= n <= |rows|
    ensures Printed(render, rows, i) <= Printed(render, rows, n)
    decreases n - i
  {
    if i < n {
      PrintedPrefix(render, rows, i, n - 1);
    }
  }

  // Line i of the file is the line printed for row i.
  lemma LineStands(render: Row -> seq<Byte>, rows: seq<Row>, i: nat)
    requires i < |rows|
    ensures var data, start := Printed(render, rows, |rows|), |Printed(render, rows, i)|;
      start + |render(rows[i])| == |Printed(render, rows, i + 1)| <= |data| && data[start..start + |render(rows[i])|] == render(rows[i])
  {
    PrintedPrefix(render, rows, i + 1, |rows|);
    var data, upTo := Printed(render, rows, |rows|), Printed(render, rows, i + 1);
    assert upTo[|Printed(render, rows, i)|..] == render(rows[i]);
    assert data[..|upTo|] == upTo;
  }

  lemma {:induction false} LineStartIs(render: Row -> seq<Byte>, parse: seq<Byte> -> Option<Row>, rows: seq<Row>, i: nat)
    requires Prints(render, parse, rows) && i <= |rows|
    ensures LineStart(Printed(render, rows, |rows|), i) == |Printed(render, rows, i)|
  {
    if i > 0 {
      LineStartIs(render, parse, rows, i - 1);
      LineEndPrinted(render, parse, rows, i - 1);
    }
  }

  lemma LineEndPrinted(render: Row -> seq<Byte>, parse: seq<Byte> -> Option<Row>, rows: seq<Row>, i: nat)
    requires Prints(render, parse, rows) && i < |rows|
    ensures var data := Printed(render, rows, |rows|);
      |Printed(render, rows, i)| <= |data| && LineEnd(data, |Printed(render, rows, i)|) == |Printed(render, rows, i + 1)|
  {
    LineStands(render, rows, i);
    var data, start, line := Printed(render, rows, |rows|), |Printed(render, rows, i)|, render(rows[i]);
    assert PrintsAs(line, rows[i], parse);
    forall k | start <= k < start + |line| ensures data[k] == line[k - start] {
      assert data[start..start + |line|][k - start] == data[k];
    }
    LineEndIs(data, start, |line|);
  }

  // The auditor reads back exactly the rows printed, and then the file is at its end.
  lemma RowsReadBack(render: Row -> seq<Byte>, parse: seq<Byte> -> Option<Row>, rows: seq<Row>, i: nat)
    requires Prints(render, parse, rows) && i < |rows|
    ensures RowOf(LineAt(Printed(render, rows, |rows|), i), parse) == Some(rows[i])
    ensures LineStart(Printed(render, rows, |rows|), |rows|) == |Printed(render, rows, |rows|)|
  {
    LineStartIs(render, parse, rows, i);
    LineStartIs(render, parse, rows, i + 1);
    LineStartIs(render, parse, rows, |rows|);
    LineStands(render, rows, i);
    assert PrintsAs(render(rows[i]), rows[i], parse);
  }

  // ---------------------------------------------------------------- what is published

  // The rows of the four files as the auditor knows them.
  datatype RowFiles = RowFiles(raw: seq<Row>, private_: seq<Row>, index: seq<Row>, restored: seq<Row>)

  // They are the rows of the producer's artifacts, and every index row declares eight header bytes.
  ghost predicate SameRows(files: RowFiles, a: Artifacts) {
    && |files.raw| == |a.raw| && |files.private_| == |a.private_| && |files.restored| == |a.restored|
    && (forall i | 0 <= i < |a.raw| :: files.raw[i].key == a.raw[i].key)
    && (forall i | 0 <= i < |a.private_| :: files.private_[i].key == a.private_[i].key)
    && (forall i | 0 <= i < |a.restored| :: files.restored[i].key == a.restored[i].key)
    && Plain(files.index) == a.index && forall i | 0 <= i < |files.index| :: files.index[i].headerBytes == HEADER_BYTES
  }

  function Publish(files: RowFiles, frames: seq<Byte>, render: Row -> seq<Byte>): Evidence {
    Evidence(Printed(render, files.raw, |files.raw|), Printed(render, files.private_, |files.private_|),
             Printed(render, files.index, |files.index|), Printed(render, files.restored, |files.restored|), frames)
  }

  ghost predicate AllPrint(files: RowFiles, render: Row -> seq<Byte>, parse: seq<Byte> -> Option<Row>) {
    Prints(render, parse, files.raw) && Prints(render, parse, files.private_) && Prints(render, parse, files.index)
    && Prints(render, parse, files.restored)
  }

  // Published artifacts that the producer's validator accepted.
  ghost predicate Published(a: Artifacts, rules: Rules, lane: nat, files: RowFiles, e: Evidence, checks: Checks, render: Row -> seq<Byte>)
    requires lane > 0
  {
    && Accepted(a, rules, lane) && SameRows(files, a) && AllPrint(files, render, checks.parse) && rules.sha == checks.sha
    && e == Publish(files, a.frames, render)
  }

  // What is left for the semantic checks of row i.
  predicate SemanticsClean(e: Evidence, checks: Checks, key: Key, i: nat) {
    var r := ReadingOf(e, checks, key, i);
    EpisodeClean(checks, r.raw, r.private_) && checks.other(r) == Some([])
  }

  lemma {:induction false} EightByteRows(index: seq<Row>, n: nat)
    requires n <= |index| && forall i | 0 <= i < |index| :: index[i].headerBytes == HEADER_BYTES
    ensures EightByteHeaders(index, n)
  {
    if n > 0 {
      EightByteRows(index, n - 1);
    }
  }

  ghost predicate ReadsAt(frames: seq<Byte>, index: seq<Row>, sha: seq<Byte> -> nat, i: nat)
    requires i < |index|
  {
    AuditorReadsOne(frames, FrameStart(frames, i), index[i], sha)
  }

  lemma FramesPass(a: Artifacts, rules: Rules, lane: nat, n: nat)
    requires lane > 0 && Accepted(a, rules, lane) && n <= Budget(lane)
    ensures n <= |a.index| && AllPass(a.index, a.frames, rules.sha, n)
  {
    forall i | 0 <= i < n ensures FramePasses(a.index, a.frames, rules.sha, i) {
      assert RowPasses(a, rules, lane, i);
    }
  }

  // Each frame is read where the frames before it ended.
  lemma EachIsRead(a: Artifacts, rules: Rules, lane: nat, files: RowFiles, i: nat)
    requires lane > 0 && Accepted(a, rules, lane) && SameRows(files, a) && i < Budget(lane)
    ensures i < |files.index| && ReadsAt(a.frames, files.index, rules.sha, i)
  {
    assert |Plain(files.index)| == |files.index|;
    FramesPass(a, rules, lane, i + 1);
    FramesPass(a, rules, lane, i);
    EightByteRows(files.index, i);
    ProducerReadsAll(a.frames, a.index, rules.sha, i);
    SameReads(a.frames, files.index, rules.sha, i);
    SameReadsOne(a.frames, FrameStart(a.frames, i), files.index[i], rules.sha);
    assert FramePasses(a.index, a.frames, rules.sha, i);
  }

  // The auditor's sequential reader takes every frame and ends at the end.
  lemma FramesAreRead(a: Artifacts, rules: Rules, lane: nat, files: RowFiles)
    requires lane > 0 && Accepted(a, rules, lane) && SameRows(files, a)
    ensures AuditorReads(a.frames, files.index, rules.sha, |files.index|) && FrameStart(a.frames, |files.index|) == |a.frames|
    ensures |files.index| == Budget(lane)
  {
    AcceptedExactly(a, rules, lane);
    EightByteRows(files.index, |files.index|);
    assert |Plain(files.index)| == |files.index|;
    ReadersAgree(a.frames, files.index, rules.sha);
  }

  lemma KeysInPlace(a: Artifacts, rules: Rules, lane: nat, files: RowFiles, i: nat)
    requires lane > 0 && Accepted(a, rules, lane) && SameRows(files, a) && i < Budget(lane)
    ensures |files.raw| == |files.private_| == |files.index| == |files.restored| == Budget(lane)
    ensures var key := KeyOf(i, lane);
      files.raw[i].key == key && files.private_[i].key == key && files.index[i].key == key && files.restored[i].key == key
  {
    AcceptedExactly(a, rules, lane);
    assert RowAgrees(a, rules, lane, i);
    assert |Plain(files.index)| == |files.index| && Plain(files.index)[i].key == files.index[i].key;
  }

  lemma ReadingIs(a: Artifacts, rules: Rules, lane: nat, files: RowFiles, e: Evidence, checks: Checks, render: Row -> seq<Byte>, i: nat)
    requires lane > 0 && Published(a, rules, lane, files, e, checks, render) && i < Budget(lane)
    ensures |files.raw| == |files.private_| == |files.index| == |files.restored| == Budget(lane)
    ensures ReadingOf(e, checks, KeyOf(i, lane), i) ==
      Reading(KeyOf(i, lane), Some(files.raw[i]), Some(files.private_[i]), Some(files.index[i]), Some(files.restored[i]),
              FramePayload(e.frames, FrameStart(e.frames, i)))
  {
    KeysInPlace(a, rules, lane, files, i);
    RowsReadBack(render, checks.parse, files.raw, i);
    RowsReadBack(render, checks.parse, files.private_, i);
    RowsReadBack(render, checks.parse, files.index, i);
    RowsReadBack(render, checks.parse, files.restored, i);
  }

  lemma RowCleanExactly(a: Artifacts, rules: Rules, lane: nat, files: RowFiles, e: Evidence, checks: Checks, render: Row -> seq<Byte>, i: nat)
    requires lane > 0 && Published(a, rules, lane, files, e, checks, render) && i < Budget(lane)
    ensures RowClean(e, checks, KeyOf(i, lane), i) <==> SemanticsClean(e, checks, KeyOf(i, lane), i)
  {
    ReadingIs(a, rules, lane, files, e, checks, render, i);
    KeysInPlace(a, rules, lane, files, i);
    FramesAreRead(a, rules, lane, files);
    EachIsRead(a, rules, lane, files, i);
    assert ReadsAt(a.frames, files.index, rules.sha, i);
  }

  lemma FilesEnd(a: Artifacts, rules: Rules, lane: nat, files: RowFiles, e: Evidence, checks: Checks, render: Row -> seq<Byte>)
    requires lane > 0 && Published(a, rules, lane, files, e, checks, render)
    ensures EndsAfter(e, Budget(lane))
  {
    KeysInPlace(a, rules, lane, files, 0);
    FramesAreRead(a, rules, lane, files);
    RowsReadBack(render, checks.parse, files.raw, 0);
    RowsReadBack(render, checks.parse, files.private_, 0);
    RowsReadBack(render, checks.parse, files.index, 0);
    RowsReadBack(render, checks.parse, files.restored, 0);
  }

  // Of artifacts that the producer's validator accepted, the auditor's pass finds every line, key, frame, digest and end
  // as it must be: it records a violation exactly if a semantic check does.
  lemma OnlySemanticsLeft(a: Artifacts, rules: Rules, lane: nat, files: RowFiles, e: Evidence, checks: Checks, render: Row -> seq<Byte>)
    requires lane > 0 && Published(a, rules, lane, files, e, checks, render)
    ensures CleanEvidence(e, checks, DigestsOf(e, checks.sha), KeysOf(lane)) <==>
      forall i | 0 <= i < Budget(lane) :: SemanticsClean(e, checks, KeyOf(i, lane), i)
  {
    FilesEnd(a, rules, lane, files, e, checks, render);
    forall i | 0 <= i < Budget(lane)
      ensures KeysOf(lane)[i] == KeyOf(i, lane) && (RowClean(e, checks, KeyOf(i, lane), i) <==> SemanticsClean(e, checks, KeyOf(i, lane), i))
    {
      RowCleanExactly(a, rules, lane, files, e, checks, render, i);
    }
    if CleanEvidence(e, checks, DigestsOf(e, checks.sha), KeysOf(lane)) {
      forall i | 0 <= i < Budget(lane) ensures SemanticsClean(e, checks, KeyOf(i, lane), i) {
        assert RowClean(e, checks, KeysOf(lane)[i], i);
      }
    }
  }

  // From the workers to the auditor: a run whose workers wrote their own files in order is merged, accepted by the
  // validator once its rows agree, and published as evidence on which only the semantic checks have anything to say.
  lemma MergedRunIsAudited(masters: seq<MasterFiles>, pss: seq<seq<seq<Byte>>>, rules: Rules, lane: nat, files: RowFiles, checks: Checks,
                           render: Row -> seq<Byte>)
    requires lane > 0 && Produced(masters, pss, rules, lane)
    requires var c := MergedOf(masters, pss); |c.rows| == |c.payloads| && LongAs(Written(c), Budget(lane))
    requires AllAgree(Written(MergedOf(masters, pss)), rules, lane) && SameRows(files, Written(MergedOf(masters, pss)))
    requires AllPrint(files, render, checks.parse) && rules.sha == checks.sha
    ensures AddMasters(NOTHING, masters, 0) == Ok(MergedOf(masters, pss))
    ensures var e := Publish(files, Written(MergedOf(masters, pss)).frames, render);
      CleanEvidence(e, checks, DigestsOf(e, checks.sha), KeysOf(lane)) <==>
        forall i | 0 <= i < Budget(lane) :: SemanticsClean(e, checks, KeyOf(i, lane), i)
  {
    MergedRunIsAccepted(masters, pss, rules, lane);
    var a := Written(MergedOf(masters, pss));
    OnlySemanticsLeft(a, rules, lane, files, Publish(files, a.frames, render), checks, render);
  }
}
