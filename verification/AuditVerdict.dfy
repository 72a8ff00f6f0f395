/** From violations to a verdict (q1_audit.py): ordered gates, the accepted prefix, the paired comparisons, and the
    validator that every constructed artifact has to satisfy. */
module AuditVerdict {
  import opened Wrappers
  import opened Violations
  import opened Consolidation
  import AuditStream

  type Arm = string

  const PROSPECT: Arm := "prospect_expected_return"
  const ARM_ORDER: seq<Arm> := [
    PROSPECT, "independent_fraction_oracle", "goal_only", "raw_observation_entropy", "eig_only",
    "shuffled_information", "uniform_random"]
  const CONTROL_ARMS: seq<Arm> := [
    "goal_only", "raw_observation_entropy", "eig_only", "shuffled_information", "uniform_random"]

  const T_CRITICAL: real := 3.182446305284263

  // ---------------------------------------------------------------- the artifact

  datatype GateRow = GateRow(gate: Gate, passed: bool, violations: seq<Line>)

  datatype Comparison = Comparison(
    control: Arm, differences: seq<real>, mean: real, lower: real, upper: real, passed: bool)

  datatype AuditCounts = AuditCounts(
    acquisitionUpdates: nat, arms: nat, checkpointFrames: nat, environmentSteps: nat, episodes: nat, masters: nat,
    privateRows: nat, rawRows: nat, restoredRows: nat, terminalUpdates: nat, transitions: nat)

  datatype Artifact = Artifact(
    runId: string, attemptId: string, capability: nat, claimEligible: bool, formalAuthorized: bool,
    independentRecomputation: bool, acceptedPrefix: seq<Gate>, gates: seq<GateRow>, passed: bool,
    comparisons: seq<Comparison>, counts: AuditCounts, digests: Published)

  function CountsFrom(c: AuditStream.Counts): AuditCounts {
    AuditCounts(c.raw, |c.seen.arms|, c.index, c.raw * 2, c.raw, |c.seen.masters|, c.private_, c.raw, c.restored, 0, c.raw * 2)
  }

  function ExactCounts(lane: nat): AuditCounts {
    var n := Budget(lane);
    AuditCounts(n, ARMS, n, n * 2, n, MASTERS, n, n, n, 0, n * 2)
  }

  // ---------------------------------------------------------------- gates

  predicate Closes(received: map<Gate, seq<string>>, gate: Gate) {
    gate in received && received[gate] != []
  }

  // The gates before the first one that received a violation.
  function FirstClosed(received: map<Gate, seq<string>>, i: nat): (k: nat)
    requires i <= |GATE_ORDER|
    ensures i <= k <= |GATE_ORDER|
    ensures k < |GATE_ORDER| ==> Closes(received, GATE_ORDER[k])
    ensures forall j | i <= j < k :: !Closes(received, GATE_ORDER[j])
    decreases |GATE_ORDER| - i
  {
    if i == |GATE_ORDER| || Closes(received, GATE_ORDER[i]) then i else FirstClosed(received, i + 1)
  }

  function GateRowFor(received: map<Gate, seq<string>>, gate: Gate): GateRow
    requires gate in received
  {
    GateRow(gate, received[gate] == [], Reported(received[gate]))
  }

  // The folded prefix after i gates, and whether it is still open.
  function Prefix(received: map<Gate, seq<string>>, i: nat): (r: (seq<Gate>, bool))
    requires i <= |GATE_ORDER|
  {
    if i == 0 then ([], true)
    else
      var (accepted, open) := Prefix(received, i - 1);
      if open && !Closes(received, GATE_ORDER[i - 1]) then (accepted + [GATE_ORDER[i - 1]], true) else (accepted, false)
  }

  // Folding accepts exactly the gates before the first one that received a violation.
  lemma {:induction false} PrefixIsLeading(received: map<Gate, seq<string>>, i: nat)
    requires i <= |GATE_ORDER|
    ensures var k := FirstClosed(received, 0);
      Prefix(received, i) == (GATE_ORDER[..if i <= k then i else k], i <= k)
  {
    if i > 0 {
      PrefixIsLeading(received, i - 1);
      assert GATE_ORDER[..i] == GATE_ORDER[..i - 1] + [GATE_ORDER[i - 1]];
    }
  }

  method FoldGates(v: Accumulator) returns (gates: seq<GateRow>, accepted: seq<Gate>)
    requires v.Valid()
    ensures |gates| == |GATE_ORDER|
    ensures forall i | 0 <= i < |gates| :: gates[i] == GateRowFor(v.received, GATE_ORDER[i])
    ensures accepted == Prefix(v.received, |GATE_ORDER|).0
  {
    gates, accepted := [], [];
    var open := true;
    for i := 0 to |GATE_ORDER|
      invariant |gates| == i
      invariant forall k | 0 <= k < i :: gates[k] == GateRowFor(v.received, GATE_ORDER[k])
      invariant Prefix(v.received, i) == (accepted, open)
    {
      var gate := GATE_ORDER[i];
      var lines := v.Rows(gate);
      var passed := lines == [];
      ReportIsHonest(v.received[gate]);
      gates := gates + [GateRow(gate, passed, lines)];
      if open && passed {
        accepted := accepted + [gate];
      } else {
        open := false;
      }
    }
  }

  // ---------------------------------------------------------------- comparisons

  function Sum(values: seq<real>): real {
    if values == [] then 0.0 else Sum(values[..|values| - 1]) + values[|values| - 1]
  }

  function Mean(values: seq<real>): real {
    Sum(values) / (MASTERS as real)
  }

  function Squares(values: seq<real>, mean: real): (r: seq<real>)
    ensures |r| == |values|
  {
    seq(|values|, i requires 0 <= i < |values| => (values[i] - mean) * (values[i] - mean))
  }

  function Variance(values: seq<real>): real {
    Sum(Squares(values, Mean(values))) / ((MASTERS - 1) as real)
  }

  // The square root is a parameter; only its value at the number of masters matters here.
  predicate IsRoot(root: real -> real) {
    root(MASTERS as real) == 2.0
  }

  // Arms are numbered as in ARM_ORDER.
  function Differences(means: map<(int, int), real>, control: nat): (d: seq<real>)
    requires HasMeans(means) && control < ARMS
    ensures |d| == MASTERS
  {
    seq(MASTERS, m requires 0 <= m < MASTERS => means[(m, 0)] - means[(m, control)])
  }

  function ComparisonFor(differences: seq<real>, control: Arm, root: real -> real): Comparison
    requires IsRoot(root)
  {
    var mean := Mean(differences);
    var margin := T_CRITICAL * (root(Variance(differences)) / root(MASTERS as real));
    Comparison(control, differences, mean, mean - margin, mean + margin, mean > 0.0 && mean - margin > 0.0)
  }

  predicate HasMeans(means: map<(int, int), real>) {
    forall m, i | 0 <= m < MASTERS && 0 <= i < ARMS :: (m, i) in means
  }

  // A lane without its full number of returns counts as zero.
  function MeanOf(values: seq<real>, lane: nat): real
    requires lane > 0
  {
    if |values| == lane then Sum(values) / (lane as real) else 0.0
  }

  method LaneMean(values: seq<real>, lane: nat, v: Accumulator) returns (mean: real)
    requires lane > 0 && v.Valid()
    modifies v
    ensures v.Valid() && (v.Clean() <==> old(v.Clean()) && |values| == lane)
    ensures mean == MeanOf(values, lane)
  {
    if |values| != lane {
      v.Add(K4, "too few reconstructible returns");
      return 0.0;
    }
    return Sum(values) / (lane as real);
  }

  // The means of the first a arms of master m.
  ghost predicate MeansAre(means: map<(int, int), real>, scores: map<(int, int), seq<real>>, lane: nat, m: int, a: int)
    requires lane > 0
  {
    forall i | 0 <= i < a :: (m, i) in means && means[(m, i)] == MeanOf(AuditStream.ReturnsAt(scores, (m, i)), lane)
  }

  method MasterMeans(scores: map<(int, int), seq<real>>, lane: nat, m: nat, v: Accumulator, before: map<(int, int), real>)
    returns (means: map<(int, int), real>)
    requires lane > 0 && v.Valid()
    modifies v
    ensures v.Valid() && (v.Clean() <==> old(v.Clean()) && FullLane(scores, lane, m, ARMS))
    ensures MeansAre(means, scores, lane, m, ARMS)
    ensures forall k, i | k != m && (k, i) in before :: (k, i) in means && means[(k, i)] == before[(k, i)]
  {
    means := before;
    for a := 0 to ARMS
      invariant v.Valid() && (v.Clean() <==> old(v.Clean()) && FullLane(scores, lane, m, a))
      invariant MeansAre(means, scores, lane, m, a)
      invariant forall k, i | k != m && (k, i) in before :: (k, i) in means && means[(k, i)] == before[(k, i)]
    {
      var mean := LaneMean(AuditStream.ReturnsAt(scores, (m, a)), lane, v);
      means := means[(m, a) := mean];
    }
  }

  // Every lane's mean is the mean of its returns, and no violation is added exactly if each lane has them all.
  method RecomputeMeans(scores: map<(int, int), seq<real>>, lane: nat, v: Accumulator)
    returns (means: map<(int, int), real>)
    requires lane > 0 && v.Valid()
    modifies v
    ensures v.Valid() && forall m | 0 <= m < MASTERS :: MeansAre(means, scores, lane, m, ARMS)
    ensures v.Clean() <==> old(v.Clean()) && FullReturns(scores, lane, MASTERS)
  {
    means := map[];
    for m := 0 to MASTERS
      invariant v.Valid() && (v.Clean() <==> old(v.Clean()) && FullReturns(scores, lane, m))
      invariant forall k | 0 <= k < m :: MeansAre(means, scores, lane, k, ARMS)
    {
      ghost var before := means;
      means := MasterMeans(scores, lane, m, v, means);
      forall k | 0 <= k < m ensures MeansAre(means, scores, lane, k, ARMS) {
        assert MeansAre(before, scores, lane, k, ARMS);
      }
    }
  }

  // The first a arms of master m have one reconstructed return for every episode.
  predicate FullLane(scores: map<(int, int), seq<real>>, lane: nat, m: int, a: nat)
    requires a <= ARMS
  {
    a == 0 || (FullLane(scores, lane, m, a - 1) && |AuditStream.ReturnsAt(scores, (m, a - 1))| == lane)
  }

  predicate FullReturns(scores: map<(int, int), seq<real>>, lane: nat, m: nat) {
    m == 0 || (FullReturns(scores, lane, m - 1) && FullLane(scores, lane, m - 1, ARMS))
  }

  // Clean evidence never lacks a return.
  lemma CleanIsFull(e: AuditStream.Evidence, checks: AuditStream.Checks, lane: nat, m: nat, a: nat)
    requires lane > 0 && m < MASTERS && a <= ARMS && AuditStream.RowsClean(e, checks, AuditStream.KeysOf(lane), Budget(lane))
    ensures FullLane(AuditStream.SeenIn(e, checks, AuditStream.KeysOf(lane), Budget(lane)).scores, lane, m, a)
  {
    if a > 0 {
      CleanIsFull(e, checks, lane, m, a - 1);
      AuditStream.StreamedReturns(e, checks, lane, (m, a - 1));
      AuditStream.CleanReturns(e, checks, lane, (m, a - 1));
    }
  }

  lemma CleanIsFullRun(e: AuditStream.Evidence, checks: AuditStream.Checks, lane: nat, m: nat)
    requires lane > 0 && m <= MASTERS && AuditStream.RowsClean(e, checks, AuditStream.KeysOf(lane), Budget(lane))
    ensures FullReturns(AuditStream.SeenIn(e, checks, AuditStream.KeysOf(lane), Budget(lane)).scores, lane, m)
  {
    if m > 0 {
      CleanIsFullRun(e, checks, lane, m - 1);
      CleanIsFull(e, checks, lane, m - 1, ARMS);
    }
  }

  // Control c is the arm at position c + 2; the first two arms are Prospect and the oracle.
  lemma ControlsAreArms(c: nat)
    requires c < |CONTROL_ARMS|
    ensures CONTROL_ARMS[c] == ARM_ORDER[c + 2] && ARM_ORDER[0] == PROSPECT
  {
  }

  function ComparisonAt(means: map<(int, int), real>, root: real -> real, c: nat): Comparison
    requires IsRoot(root) && HasMeans(means) && c < |CONTROL_ARMS|
  {
    ComparisonFor(Differences(means, c + 2), CONTROL_ARMS[c], root)
  }

  method ComparisonRows(means: map<(int, int), real>, root: real -> real) returns (rows: seq<Comparison>)
    requires IsRoot(root) && HasMeans(means)
    ensures |rows| == |CONTROL_ARMS| && forall c | 0 <= c < |rows| :: rows[c] == ComparisonAt(means, root, c)
    ensures forall c | 0 <= c < |rows| :: rows[c].control == ARM_ORDER[c + 2]
  {
    rows := [];
    for c := 0 to |CONTROL_ARMS|
      invariant |rows| == c && forall k | 0 <= k < c :: rows[k] == ComparisonAt(means, root, k)
      invariant forall k | 0 <= k < c :: rows[k].control == ARM_ORDER[k + 2]
    {
      ControlsAreArms(c);
      rows := rows + [ComparisonAt(means, root, c)];
    }
  }

  predicate AllPass(rows: seq<Comparison>) {
    forall c | 0 <= c < |rows| :: rows[c].passed
  }

  // ---------------------------------------------------------------- the validator

  function LeadingPasses(gates: seq<GateRow>, i: nat): seq<Gate>
    requires i <= |gates| == |GATE_ORDER|
    decreases |gates| - i
  {
    if i < |gates| && gates[i].violations == [] then [GATE_ORDER[i]] + LeadingPasses(gates, i + 1) else []
  }

  predicate GatesCoherent(gates: seq<GateRow>) {
    && |gates| == |GATE_ORDER|
    && forall i | 0 <= i < |gates| :: gates[i].gate == GATE_ORDER[i] && (gates[i].passed <==> gates[i].violations == [])
  }

  predicate ComparisonCoherent(row: Comparison, control: Arm, root: real -> real)
    requires IsRoot(root)
  {
    && row.control == control && |row.differences| == MASTERS
    && var mean := Mean(row.differences);
       var margin := T_CRITICAL * root(Variance(row.differences)) / root(MASTERS as real);
       && row.mean == mean && row.lower == mean - margin && row.upper == mean + margin
       && (row.passed <==> mean > 0.0 && mean - margin > 0.0)
  }

  predicate ComparisonsCoherent(rows: seq<Comparison>, root: real -> real)
    requires IsRoot(root)
  {
    |rows| == |CONTROL_ARMS| && forall c | 0 <= c < |rows| :: ComparisonCoherent(rows[c], CONTROL_ARMS[c], root)
  }

  predicate AllGatesPass(gates: seq<GateRow>) {
    forall i | 0 <= i < |gates| :: gates[i].passed
  }

  predicate SemanticsHold(a: Artifact, lane: nat, root: real -> real)
    requires IsRoot(root)
  {
    && !a.claimEligible && !a.formalAuthorized && a.independentRecomputation
    && (a.passed ==> a.capability != 0)
    && a.attemptId == a.runId + "-attempt-0001"
    && GatesCoherent(a.gates)
    && a.acceptedPrefix == LeadingPasses(a.gates, 0)
    && (a.passed <==> AllGatesPass(a.gates))
    && ComparisonsCoherent(a.comparisons, root)
    && (a.gates[4].passed ==> AllPass(a.comparisons))
    && (a.passed ==> a.counts == ExactCounts(lane))
  }

  // The generator's forward fold and the validator's reading of the rows name the same prefix.
  lemma {:induction false} LeadingIsPrefix(received: map<Gate, seq<string>>, gates: seq<GateRow>, i: nat)
    requires i <= |gates| == |GATE_ORDER|
    requires forall k | 0 <= k < |gates| :: GATE_ORDER[k] in received && gates[k] == GateRowFor(received, GATE_ORDER[k])
    ensures i <= FirstClosed(received, i)
    ensures LeadingPasses(gates, i) == GATE_ORDER[i..FirstClosed(received, i)]
    decreases |gates| - i
  {
    if i < |gates| {
      ReportIsHonest(received[GATE_ORDER[i]]);
      LeadingIsPrefix(received, gates, i + 1);
      OneGateFirst(i, FirstClosed(received, i + 1));
    }
  }

  lemma OneGateFirst(i: nat, k: nat)
    requires i < k <= |GATE_ORDER|
    ensures GATE_ORDER[i..k] == [GATE_ORDER[i]] + GATE_ORDER[i + 1..k]
  {
  }

  lemma BuiltComparisonsCohere(means: map<(int, int), real>, rows: seq<Comparison>, root: real -> real)
    requires IsRoot(root) && HasMeans(means) && |rows| == |CONTROL_ARMS|
    requires forall c | 0 <= c < |rows| :: rows[c] == ComparisonAt(means, root, c)
    ensures ComparisonsCoherent(rows, root)
  {
  }

  // ---------------------------------------------------------------- the audit

  // A value of a decoded JSON document; a digest is written as its number.
  datatype Json = Text(text: string) | Digest(digest: nat) | Numbers(numbers: map<string, int>) | Digests(digests: map<string, nat>) | Other

  // What the auditor derived for itself from the protocol, the reports and the salt.
  datatype Bindings = Bindings(runId: string, run: nat, protocol: nat, implementation: nat, q0Report: nat, entry: nat, saltCommitment: nat)

  // The digests of the published files.
  datatype Published = Published(streams: AuditStream.Digests, aggregate: nat)

  const PROTOCOL_VERSION := "0.3.0-q1"
  const MARKER_SCHEMA := "prospect.wm002.active-acquisition.q1-attempt-marker.v2"

  function AttemptId(b: Bindings): string { b.runId + "-attempt-0001" }

  function IdentityFields(b: Bindings): map<string, Json> {
    map["attempt_id" := Text(AttemptId(b)), "entry_qualification_sha256" := Digest(b.entry),
        "implementation_sha256" := Digest(b.implementation), "protocol_sha256" := Digest(b.protocol),
        "protocol_version" := Text(PROTOCOL_VERSION), "q0_report_sha256" := Digest(b.q0Report),
        "run_id" := Text(b.runId), "run_sha256" := Digest(b.run)]
  }

  const MARKER_FIELDS: set<string> := {
    "artifact_sha256", "attempt_id", "entry_qualification_sha256", "expected_counts", "implementation_sha256",
    "protocol_sha256", "protocol_version", "q0_report_sha256", "run_id", "run_sha256", "salt_commitment_sha256",
    "schema", "status", "worker_capability_sha256"}

  function MarkerCounts(lane: nat): map<string, int> {
    var n := Budget(lane);
    map["acquisition_updates" := n, "checkpoints" := n, "environment_steps" := n * 2, "episodes" := n, "restores" := n,
        "terminal_updates" := 0, "transitions" := n * 2]
  }

  function ArtifactDigests(p: Published): map<string, nat> {
    map["aggregate" := p.aggregate, "checkpoint_frames" := p.streams.frames, "checkpoint_index" := p.streams.index,
        "private_audit" := p.streams.private_, "raw_trace" := p.streams.raw, "restored_trace" := p.streams.restored]
  }

  // The marker belongs to this attempt.
  predicate Identified(doc: map<string, Json>, b: Bindings) {
    && doc.Keys == MARKER_FIELDS && (forall field | field in IdentityFields(b) :: field in doc && doc[field] == IdentityFields(b)[field])
    && doc["salt_commitment_sha256"] == Digest(b.saltCommitment)
  }

  predicate HasCapability(doc: map<string, Json>) {
    "worker_capability_sha256" in doc && doc["worker_capability_sha256"].Digest? && doc["worker_capability_sha256"].digest != 0
  }

  // It is completed, over the frozen budget, with exactly these artifacts.
  predicate Completed(doc: map<string, Json>, p: Published, lane: nat) {
    && "schema" in doc && doc["schema"] == Text(MARKER_SCHEMA) && "status" in doc && doc["status"] == Text("completed")
    && "expected_counts" in doc && doc["expected_counts"] == Numbers(MarkerCounts(lane))
    && "artifact_sha256" in doc && doc["artifact_sha256"] == Digests(ArtifactDigests(p))
  }

  // None stands for a marker that is not one canonical document in its place.
  predicate MarkerSound(marker: Option<map<string, Json>>, b: Bindings, p: Published, lane: nat) {
    marker.Some? && Identified(marker.value, b) && HasCapability(marker.value) && Completed(marker.value, p, lane)
  }

  // The first failing check rejects the marker. The capability is known as soon as the marker is identified.
  method ValidateMarker(marker: Option<map<string, Json>>, b: Bindings, p: Published, lane: nat, v: Accumulator)
    returns (capability: nat)
    requires v.Valid()
    modifies v
    ensures v.Valid()
    ensures v.Clean() <==> old(v.Clean()) && MarkerSound(marker, b, p, lane)
    ensures capability == if marker.Some? && Identified(marker.value, b) && HasCapability(marker.value)
                          then marker.value["worker_capability_sha256"].digest else 0
  {
    capability := 0;
    if marker.None? {
      v.Add(K0, "attempt marker rejected: not one canonical JSON document");
      return;
    }
    var doc := marker.value;
    if !Identified(doc, b) {
      v.Add(K0, "attempt marker rejected: fields, identity or salt commitment differ");
      return;
    }
    if !HasCapability(doc) {
      v.Add(K0, "attempt marker rejected: worker capability commitment is invalid");
      return;
    }
    capability := doc["worker_capability_sha256"].digest;
    if !Completed(doc, p, lane) {
      v.Add(K0, "attempt marker rejected: schema, status, budget or artifact digests differ");
    }
  }

  // ---------------------------------------------------------------- processes and the producer's own aggregate

  // One process produced for each master, and one restored for each lane.
  predicate MasterPartitioned(seen: AuditStream.Seen, m: int) {
    |AuditStream.PidsAt(seen.producers, m)| == 1 && LanesPartitioned(seen, m, ARMS)
  }

  predicate LanesPartitioned(seen: AuditStream.Seen, m: int, a: int) {
    forall i | 0 <= i < a :: |AuditStream.PidsAt(seen.restorers, (m, i))| == 1
  }

  predicate Partitioned(seen: AuditStream.Seen) {
    forall m | 0 <= m < MASTERS :: MasterPartitioned(seen, m)
  }

  method CheckLanes(seen: AuditStream.Seen, m: nat, v: Accumulator)
    requires v.Valid()
    modifies v
    ensures v.Valid() && (v.Clean() <==> old(v.Clean()) && LanesPartitioned(seen, m, ARMS))
  {
    for a := 0 to ARMS
      invariant v.Valid() && (v.Clean() <==> old(v.Clean()) && LanesPartitioned(seen, m, a))
    {
      if |AuditStream.PidsAt(seen.restorers, (m, a))| != 1 {
        v.Add(K5, "lane lacks exactly one restorer PID");
      }
    }
  }

  method CheckPartition(seen: AuditStream.Seen, v: Accumulator)
    requires v.Valid()
    modifies v
    ensures v.Valid() && (v.Clean() <==> old(v.Clean()) && Partitioned(seen))
  {
    for m := 0 to MASTERS
      invariant v.Valid() && (v.Clean() <==> old(v.Clean()) && forall k | 0 <= k < m :: MasterPartitioned(seen, k))
    {
      if |AuditStream.PidsAt(seen.producers, m)| != 1 {
        v.Add(K0, "master lacks exactly one producer PID");
      }
      CheckLanes(seen, m, v);
      assert MasterPartitioned(seen, m) <==> |AuditStream.PidsAt(seen.producers, m)| == 1 && LanesPartitioned(seen, m, ARMS);
    }
  }

  // Rows of one master that name their process all name the same one.
  lemma OneProducer(x: Inputs, lane: nat, i: nat, j: nat)
    requires lane > 0 && Sound(x, lane) && i < Budget(lane) && j < Budget(lane)
    requires AuditStream.KeysOf(lane)[i].master == AuditStream.KeysOf(lane)[j].master
    ensures var found := AuditStream.AllFound(x.evidence, x.checks, AuditStream.KeysOf(lane));
      found[i].producer.Some? && found[j].producer.Some? ==> found[i].producer == found[j].producer
  {
    var keys, found := AuditStream.KeysOf(lane), AuditStream.AllFound(x.evidence, x.checks, AuditStream.KeysOf(lane));
    AuditStream.PidsSeen(keys, found, |keys|, i);
    AuditStream.PidsSeen(keys, found, |keys|, j);
    KeysAreOrdinals(i, lane);
    var seen := AuditStream.SeenIn(x.evidence, x.checks, keys, |keys|);
    assert MasterPartitioned(seen, keys[i].master);
    if found[i].producer.Some? && found[j].producer.Some? {
      OneElement(AuditStream.PidsAt(seen.producers, keys[i].master), found[i].producer.value, found[j].producer.value);
    }
  }

  lemma OneElement(s: set<int>, x: int, y: int)
    requires |s| == 1 && x in s && y in s
    ensures x == y
  {
    var rest := s - {x};
    assert |rest| == 0;
    assert y !in rest;
  }

  const TOLERANCE: real := 1.0 / 1000000000000.0

  predicate Close(x: real, y: real) { -TOLERANCE <= x - y <= TOLERANCE }

  predicate AllClose(s: seq<real>, t: seq<real>) {
    |s| == |t| && forall i | 0 <= i < |s| :: Close(s[i], t[i])
  }

  // What the producer wrote down about its own run. None stands for a row that is not an object, or lacks a number.
  datatype MeanRow = MeanRow(master: int, arm: Arm, episodes: int, mean: real)
  datatype ControlRow = ControlRow(control: Arm, differences: seq<real>, mean: real, lower: real, upper: real)
  datatype ProducerAggregate = ProducerAggregate(counts: map<string, int>, means: Option<seq<Option<MeanRow>>>, comparisons: Option<seq<Option<ControlRow>>>)

  function AggregateCounts(c: AuditCounts): map<string, int> {
    map["acquisition_updates" := c.acquisitionUpdates, "arms" := c.arms, "checkpoints" := c.checkpointFrames,
        "environment_steps" := c.environmentSteps, "episodes" := c.episodes, "masters" := c.masters,
        "restores" := c.restoredRows, "terminal_updates" := c.terminalUpdates, "transitions" := c.transitions]
  }

  // Mean row i is that of the lane with that ordinal.
  predicate MeanAgrees(row: Option<MeanRow>, i: nat, scores: map<(int, int), seq<real>>, lane: nat)
    requires lane > 0
  {
    var values := AuditStream.ReturnsAt(scores, (i / ARMS, i % ARMS));
    && row.Some? && row.value.master == i / ARMS && row.value.arm == ARM_ORDER[i % ARMS] && row.value.episodes == |values|
    && Close(row.value.mean, MeanOf(values, lane))
  }

  predicate MeansAgree(rows: Option<seq<Option<MeanRow>>>, scores: map<(int, int), seq<real>>, lane: nat)
    requires lane > 0
  {
    rows.Some? && |rows.value| == MASTERS * ARMS && forall i | 0 <= i < |rows.value| :: MeanAgrees(rows.value[i], i, scores, lane)
  }

  predicate ControlAgrees(row: Option<ControlRow>, c: Comparison) {
    && row.Some? && row.value.control == c.control && AllClose(row.value.differences, c.differences)
    && Close(row.value.mean, c.mean) && Close(row.value.lower, c.lower) && Close(row.value.upper, c.upper)
  }

  predicate ControlsAgree(rows: Option<seq<Option<ControlRow>>>, comparisons: seq<Comparison>) {
    rows.Some? && |rows.value| == |comparisons| && forall c | 0 <= c < |comparisons| :: ControlAgrees(rows.value[c], comparisons[c])
  }

  // It says nothing but what the auditor recomputed.
  predicate AggregateAgrees(g: Option<ProducerAggregate>, counts: AuditCounts, scores: map<(int, int), seq<real>>, lane: nat, comparisons: seq<Comparison>)
    requires lane > 0
  {
    && g.Some? && g.value.counts == AggregateCounts(counts) && MeansAgree(g.value.means, scores, lane)
    && ControlsAgree(g.value.comparisons, comparisons)
  }

  method CheckMeans(rows: Option<seq<Option<MeanRow>>>, scores: map<(int, int), seq<real>>, lane: nat, v: Accumulator)
    requires lane > 0 && v.Valid()
    modifies v
    ensures v.Valid() && (v.Clean() <==> old(v.Clean()) && MeansAgree(rows, scores, lane))
    ensures v.received[K4] == [] ==> old(v.received[K4]) == []
  {
    if rows.None? || |rows.value| != MASTERS * ARMS {
      v.Add(K4, "producer aggregate arm_means is not an array of every lane");
      return;
    }
    for i := 0 to |rows.value|
      invariant v.Valid() && (v.Clean() <==> old(v.Clean()) && forall k | 0 <= k < i :: MeanAgrees(rows.value[k], k, scores, lane))
      invariant v.received[K4] == [] ==> old(v.received[K4]) == []
    {
      if !MeanAgrees(rows.value[i], i, scores, lane) {
        v.Add(K4, "producer aggregate arm mean differs from recomputation");
      }
    }
  }

  method CheckControls(rows: Option<seq<Option<ControlRow>>>, comparisons: seq<Comparison>, v: Accumulator)
    requires v.Valid()
    modifies v
    ensures v.Valid() && (v.Clean() <==> old(v.Clean()) && ControlsAgree(rows, comparisons))
    ensures v.received[K4] == [] ==> old(v.received[K4]) == []
  {
    if rows.None? || |rows.value| != |comparisons| {
      v.Add(K4, "producer aggregate comparisons is not an array of every control");
      return;
    }
    for c := 0 to |comparisons|
      invariant v.Valid() && (v.Clean() <==> old(v.Clean()) && forall k | 0 <= k < c :: ControlAgrees(rows.value[k], comparisons[k]))
      invariant v.received[K4] == [] ==> old(v.received[K4]) == []
    {
      if !ControlAgrees(rows.value[c], comparisons[c]) {
        v.Add(K4, "producer aggregate comparison differs from recomputation");
      }
    }
  }

  method CheckCounts(written: map<string, int>, counts: AuditCounts, v: Accumulator)
    requires v.Valid()
    modifies v
    ensures v.Valid() && (v.Clean() <==> old(v.Clean()) && written == AggregateCounts(counts))
    ensures v.received[K4] == old(v.received[K4])
  {
    if written != AggregateCounts(counts) {
      v.Add(K0, "producer aggregate counts differ from independent primitive accounting");
    }
  }

  // An aggregate that could not be loaded is a violation of its own.
  method ValidateAggregate(g: Option<ProducerAggregate>, counts: AuditCounts, scores: map<(int, int), seq<real>>, lane: nat,
                           comparisons: seq<Comparison>, v: Accumulator)
    requires lane > 0 && v.Valid()
    modifies v
    ensures v.Valid() && (v.Clean() <==> old(v.Clean()) && AggregateAgrees(g, counts, scores, lane, comparisons))
    ensures v.received[K4] == [] ==> old(v.received[K4]) == []
  {
    if g.None? {
      v.Add(K0, "producer aggregate rejected");
      return;
    }
    CheckCounts(g.value.counts, counts, v);
    CheckMeans(g.value.means, scores, lane, v);
    CheckControls(g.value.comparisons, comparisons, v);
  }

  // ---------------------------------------------------------------- the audit as a whole

  // Whatever the audit reads: the evidence files and the digests first taken of them, the marker, the producer's
  // aggregate if it loads, and the violations of all checks made before and after the streaming pass.
  datatype Inputs = Inputs(
    evidence: AuditStream.Evidence, checks: AuditStream.Checks, published: Published, bindings: Bindings,
    marker: Option<map<string, Json>>, aggregate: Option<ProducerAggregate>, before: seq<Fault>, after: seq<Fault>)

  ghost predicate Sound(x: Inputs, lane: nat)
    requires lane > 0
  {
    && x.before == [] && x.after == [] && MarkerSound(x.marker, x.bindings, x.published, lane)
    && AuditStream.CleanEvidence(x.evidence, x.checks, x.published.streams, AuditStream.KeysOf(lane))
    && Partitioned(AuditStream.SeenIn(x.evidence, x.checks, AuditStream.KeysOf(lane), Budget(lane)))
  }

  // The returns each lane's own rows give.
  function StreamedScores(x: Inputs, lane: nat): map<(int, int), seq<real>>
    requires lane > 0
  {
    AuditStream.SeenIn(x.evidence, x.checks, AuditStream.KeysOf(lane), Budget(lane)).scores
  }

  method Examine(x: Inputs, lane: nat, v: Accumulator)
    returns (capability: nat, counts: AuditStream.Counts, means: map<(int, int), real>)
    requires lane > 0 && v.Valid() && v.Clean()
    modifies v
    ensures v.Valid() && forall m | 0 <= m < MASTERS :: MeansAre(means, counts.seen.scores, lane, m, ARMS)
    ensures v.Clean() <==> Sound(x, lane)
    ensures v.Clean() ==> counts == AuditStream.FullCounts(x.evidence, x.checks, lane)
    ensures v.Clean() ==> x.marker.value["worker_capability_sha256"] == Digest(capability) && capability != 0
  {
    v.Extend(x.before);
    capability := ValidateMarker(x.marker, x.bindings, x.published, lane, v);
    var aborted;
    counts, aborted := AuditStream.StreamAudit(x.evidence, x.checks, x.published.streams, lane, v);
    ghost var streamed := v.Clean();
    CheckPartition(counts.seen, v);
    means := RecomputeMeans(counts.seen.scores, lane, v);
    if streamed {
      CleanIsFullRun(x.evidence, x.checks, lane, MASTERS);
    }
    v.Extend(x.after);
  }

  ghost predicate ComparisonsAre(rows: seq<Comparison>, means: map<(int, int), real>, root: real -> real)
    requires IsRoot(root) && HasMeans(means)
  {
    |rows| == |CONTROL_ARMS| && forall c | 0 <= c < |rows| :: rows[c] == ComparisonAt(means, root, c)
  }

  // The comparisons, the producer's own account of them, and the verdict on them.
  method Compare(means: map<(int, int), real>, root: real -> real, g: Option<ProducerAggregate>, counts: AuditCounts,
                 scores: map<(int, int), seq<real>>, lane: nat, v: Accumulator) returns (rows: seq<Comparison>)
    requires lane > 0 && IsRoot(root) && HasMeans(means) && v.Valid()
    modifies v
    ensures v.Valid() && ComparisonsCoherent(rows, root) && ComparisonsAre(rows, means, root)
    ensures v.Clean() <==> old(v.Clean()) && AggregateAgrees(g, counts, scores, lane, rows) && AllPass(rows)
    ensures v.received[K4] == [] ==> AllPass(rows)
  {
    rows := ComparisonRows(means, root);
    BuiltComparisonsCohere(means, rows, root);
    ValidateAggregate(g, counts, scores, lane, rows, v);
    if !AllPass(rows) {
      v.Add(K4, "one or more conjunctive paired comparisons failed");
    }
  }

  lemma FullCountsAreExact(e: AuditStream.Evidence, checks: AuditStream.Checks, lane: nat)
    requires lane > 0 && AuditStream.RowsClean(e, checks, AuditStream.KeysOf(lane), Budget(lane))
    ensures CountsFrom(AuditStream.FullCounts(e, checks, lane)) == ExactCounts(lane)
  {
    AuditStream.AllSeen(e, checks, lane);
    assert |{0, 1, 2, 3}| == 4 && |{0, 1, 2, 3, 4, 5, 6}| == 7;
  }

  // Comparison c is of Prospect's and control c's mean returns, computed from the rows of their own lanes.
  ghost predicate ComparesRows(row: Comparison, c: nat, x: Inputs, lane: nat, root: real -> real)
    requires lane > 0 && IsRoot(root) && c < |CONTROL_ARMS|
  {
    row == ComparisonFor(RowDifferences(x, lane, c + 2), CONTROL_ARMS[c], root)
  }

  function RowDifferences(x: Inputs, lane: nat, control: nat): (d: seq<real>)
    requires lane > 0 && control < ARMS
    ensures |d| == MASTERS
  {
    seq(MASTERS, m requires 0 <= m < MASTERS => RowMean(x, lane, m, 0) - RowMean(x, lane, m, control))
  }

  function RowMean(x: Inputs, lane: nat, m: nat, arm: nat): real
    requires lane > 0 && m < MASTERS && arm < ARMS
  {
    Sum(AuditStream.LaneScores(x.evidence, x.checks, lane, (m, arm))) / (lane as real)
  }

  lemma CleanMean(x: Inputs, lane: nat, means: map<(int, int), real>, m: nat, arm: nat)
    requires lane > 0 && m < MASTERS && arm < ARMS && MeansAre(means, StreamedScores(x, lane), lane, m, ARMS)
    requires AuditStream.RowsClean(x.evidence, x.checks, AuditStream.KeysOf(lane), Budget(lane))
    ensures means[(m, arm)] == RowMean(x, lane, m, arm)
  {
    AuditStream.StreamedReturns(x.evidence, x.checks, lane, (m, arm));
    AuditStream.CleanReturns(x.evidence, x.checks, lane, (m, arm));
  }

  lemma ComparesGiven(x: Inputs, lane: nat, means: map<(int, int), real>, root: real -> real, c: nat)
    requires lane > 0 && IsRoot(root) && HasMeans(means) && c < |CONTROL_ARMS|
    requires Differences(means, c + 2) == RowDifferences(x, lane, c + 2)
    ensures ComparesRows(ComparisonAt(means, root, c), c, x, lane, root)
  {
  }

  lemma CleanDifferences(x: Inputs, lane: nat, means: map<(int, int), real>, control: nat)
    requires lane > 0 && HasMeans(means) && control < ARMS
    requires forall m | 0 <= m < MASTERS :: MeansAre(means, StreamedScores(x, lane), lane, m, ARMS)
    requires AuditStream.RowsClean(x.evidence, x.checks, AuditStream.KeysOf(lane), Budget(lane))
    ensures Differences(means, control) == RowDifferences(x, lane, control)
  {
    var d, rows := Differences(means, control), RowDifferences(x, lane, control);
    forall m | 0 <= m < MASTERS ensures d[m] == rows[m] {
      CleanDifference(x, lane, means, m, control);
    }
  }

  lemma CleanDifference(x: Inputs, lane: nat, means: map<(int, int), real>, m: nat, control: nat)
    requires lane > 0 && HasMeans(means) && m < MASTERS && control < ARMS && MeansAre(means, StreamedScores(x, lane), lane, m, ARMS)
    requires AuditStream.RowsClean(x.evidence, x.checks, AuditStream.KeysOf(lane), Budget(lane))
    ensures Differences(means, control)[m] == RowDifferences(x, lane, control)[m]
  {
    CleanMean(x, lane, means, m, 0);
    CleanMean(x, lane, means, m, control);
  }

  function Built(x: Inputs, capability: nat, gates: seq<GateRow>, accepted: seq<Gate>, comparisons: seq<Comparison>, counts: AuditStream.Counts): Artifact {
    Artifact(x.bindings.runId, AttemptId(x.bindings), capability, false, false, true, accepted, gates,
             |accepted| == |GATE_ORDER|, comparisons, CountsFrom(counts), x.published)
  }

  // What a passing artifact stands for: the exact budget, comparisons of the returns reconstructed from the two arms'
  // own rows, and a marker that commits to the digests of exactly the bytes that were read.
  ghost predicate Attests(a: Artifact, x: Inputs, lane: nat, root: real -> real)
    requires lane > 0 && IsRoot(root)
  {
    && a.counts == ExactCounts(lane) && a.acceptedPrefix == GATE_ORDER
    && |a.comparisons| == |CONTROL_ARMS|
    && (forall c | 0 <= c < |CONTROL_ARMS| :: ComparesRows(a.comparisons[c], c, x, lane, root))
    && a.digests == Published(AuditStream.DigestsOf(x.evidence, x.checks.sha), x.published.aggregate)
    && MarkerSound(x.marker, x.bindings, a.digests, lane)
    && x.marker.value["worker_capability_sha256"] == Digest(a.capability)
  }

  ghost predicate SameDifferences(x: Inputs, lane: nat, means: map<(int, int), real>)
    requires lane > 0 && HasMeans(means)
  {
    forall control | 0 <= control < ARMS :: Differences(means, control) == RowDifferences(x, lane, control)
  }

  lemma SoundDifferences(x: Inputs, lane: nat, means: map<(int, int), real>)
    requires lane > 0 && HasMeans(means)
    requires forall m | 0 <= m < MASTERS :: MeansAre(means, StreamedScores(x, lane), lane, m, ARMS)
    requires AuditStream.RowsClean(x.evidence, x.checks, AuditStream.KeysOf(lane), Budget(lane))
    ensures SameDifferences(x, lane, means)
  {
    forall control | 0 <= control < ARMS ensures Differences(means, control) == RowDifferences(x, lane, control) {
      CleanDifferences(x, lane, means, control);
    }
  }

  lemma SoundCompares(x: Inputs, lane: nat, means: map<(int, int), real>, comparisons: seq<Comparison>, root: real -> real)
    requires lane > 0 && IsRoot(root) && HasMeans(means) && ComparisonsAre(comparisons, means, root) && SameDifferences(x, lane, means)
    ensures forall c | 0 <= c < |CONTROL_ARMS| :: ComparesRows(comparisons[c], c, x, lane, root)
  {
    forall c | 0 <= c < |CONTROL_ARMS| ensures ComparesRows(comparisons[c], c, x, lane, root) {
      ComparesGiven(x, lane, means, root, c);
    }
  }

  lemma BuiltHolds(x: Inputs, lane: nat, root: real -> real, capability: nat, gates: seq<GateRow>, accepted: seq<Gate>,
                   comparisons: seq<Comparison>, counts: AuditStream.Counts, received: map<Gate, seq<string>>)
    requires IsRoot(root) && ComparisonsCoherent(comparisons, root)
    requires forall gate: Gate :: gate in received
    requires |gates| == |GATE_ORDER| && forall k | 0 <= k < |gates| :: gates[k] == GateRowFor(received, GATE_ORDER[k])
    requires accepted == Prefix(received, |GATE_ORDER|).0
    requires received[K4] == [] ==> AllPass(comparisons)
    requires (forall gate: Gate :: received[gate] == []) ==> capability != 0 && CountsFrom(counts) == ExactCounts(lane)
    ensures var a := Built(x, capability, gates, accepted, comparisons, counts);
      SemanticsHold(a, lane, root) && (a.passed <==> forall gate: Gate :: received[gate] == []) && (a.passed ==> accepted == GATE_ORDER)
  {
    BuiltGatesCohere(received, gates);
    PassingIsClean(received, gates);
    assert gates[4] == GateRowFor(received, K4);
  }

  // For every content of every input, the artifact built satisfies the validator. It passes exactly when no gate
  // received a violation, and then it attests what was read.
  method Audit(x: Inputs, lane: nat, root: real -> real) returns (a: Artifact)
    requires lane > 0 && IsRoot(root)
    ensures SemanticsHold(a, lane, root)
    ensures a.passed <==>
      Sound(x, lane) && AggregateAgrees(x.aggregate, a.counts, StreamedScores(x, lane), lane, a.comparisons) && AllPass(a.comparisons)
    ensures a.passed ==> Attests(a, x, lane, root)
  {
    var v := new Accumulator();
    var capability, counts, means := Examine(x, lane, v);
    MeansAreThere(means, counts.seen.scores, lane);
    ghost var sound := v.Clean();
    var comparisons := Compare(means, root, x.aggregate, CountsFrom(counts), counts.seen.scores, lane, v);
    var gates, accepted := FoldGates(v);
    if sound {
      FullCountsAreExact(x.evidence, x.checks, lane);
      SoundDifferences(x, lane, means);
      SoundCompares(x, lane, means, comparisons, root);
    }
    BuiltHolds(x, lane, root, capability, gates, accepted, comparisons, counts, v.received);
    a := Built(x, capability, gates, accepted, comparisons, counts);
  }

  lemma MeansAreThere(means: map<(int, int), real>, scores: map<(int, int), seq<real>>, lane: nat)
    requires lane > 0 && forall m | 0 <= m < MASTERS :: MeansAre(means, scores, lane, m, ARMS)
    ensures HasMeans(means)
  {
    forall m, i | 0 <= m < MASTERS && 0 <= i < ARMS ensures (m, i) in means {
      assert MeansAre(means, scores, lane, m, ARMS);
    }
  }

  // What the fold builds satisfies the validator's gate checks.
  lemma BuiltGatesCohere(received: map<Gate, seq<string>>, gates: seq<GateRow>)
    requires forall gate: Gate :: gate in received
    requires |gates| == |GATE_ORDER| && forall k | 0 <= k < |gates| :: gates[k] == GateRowFor(received, GATE_ORDER[k])
    ensures GatesCoherent(gates)
    ensures Prefix(received, |GATE_ORDER|).0 == LeadingPasses(gates, 0)
  {
    LeadingIsPrefix(received, gates, 0);
    PrefixIsLeading(received, |GATE_ORDER|);
    forall k | 0 <= k < |gates| ensures gates[k].passed <==> gates[k].violations == [] {
      ReportIsHonest(received[GATE_ORDER[k]]);
    }
  }

  // All gates pass exactly when no violation was ever received, and exactly then the whole order is accepted.
  lemma PassingIsClean(received: map<Gate, seq<string>>, gates: seq<GateRow>)
    requires forall gate: Gate :: gate in received
    requires |gates| == |GATE_ORDER| && forall k | 0 <= k < |gates| :: gates[k] == GateRowFor(received, GATE_ORDER[k])
    ensures AllGatesPass(gates) <==> forall gate: Gate :: received[gate] == []
    ensures AllGatesPass(gates) <==> |Prefix(received, |GATE_ORDER|).0| == |GATE_ORDER|
    ensures AllGatesPass(gates) ==> Prefix(received, |GATE_ORDER|).0 == GATE_ORDER
  {
    PrefixIsLeading(received, |GATE_ORDER|);
    if AllGatesPass(gates) {
      forall gate: Gate ensures received[gate] == [] {
        GateInOrder(gate);
        assert gates[Position(gate)].passed;
      }
    }
  }
}
