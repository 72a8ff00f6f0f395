/** The auditor's semantic check of one episode (q1_audit.py), inside its streaming pass: on evidence without a
    violation every reconstructed return is the one that the salt and the arm's selection rule determine. */
module EpisodeCheck {
  import opened Wrappers
  import opened Violations
  import opened Oracle
  import opened AuditStream
  import Merge
  import Consolidation
  import AuditVerdict
  import SemanticKeys
  import Information
  import Arms
  import Draws

  // What the check reads of a raw row and its private row. `action` is a position in ACTIONS; None stands for a name
  // outside the frozen order, and for a success that is not a boolean.
  datatype Facts = Facts(action: Option<nat>, symbol: int, theta: int, terminal: int, success: Option<bool>)

  const ARMS_IN_ORDER: seq<Arms.Arm> := [
    Arms.Prospect, Arms.FractionOracle, Arms.GoalOnly, Arms.RawObservationEntropy, Arms.EigOnly, Arms.ShuffledInformation,
    Arms.UniformRandom]

  predicate InOrder(key: Merge.Key) {
    key.master >= 0 && 0 <= key.arm < |ARMS_IN_ORDER| && key.episode >= 0
  }

  // The action the auditor expects: its frozen table, or what the public digest selects.
  function ExpectedAction(uniform: string -> nat, arm: Arms.Arm, master: nat, episode: nat): Action {
    if arm.UniformRandom? then ACTIONS[uniform(SemanticKeys.UniformKey(master, episode)) % |ACTIONS|] else Arms.FrozenAction(arm)
  }

  // The symbol expected under the private row's own regime.
  function ExpectedSymbol(w: Draws.World, master: nat, episode: nat, kind: Kind, theta: int): int
    requires w.space > 0
  {
    match kind
    case Skip => 0
    case Nuisance => Draws.Bin(Draws.Digest(w, SemanticKeys.PRIVATE_NAMESPACES, SemanticKeys.Nuisance(master, episode)), w.space)
    case _ =>
      var draw := Draws.Digest(w, SemanticKeys.PRIVATE_NAMESPACES, SemanticKeys.Pulse(master, episode, Draws.ActionId(kind)));
      if Draws.Agrees(draw, Draws.Tenths(kind), 10, w.space) then theta else -theta
  }

  function ExpectedSuccess(w: Draws.World, master: nat, episode: nat, decision: int, theta: int): bool {
    var draw := Draws.Digest(w, SemanticKeys.PRIVATE_NAMESPACES, SemanticKeys.Terminal(master, episode, decision));
    Draws.Agrees(draw, if decision == theta then 9 else 1, 10, w.space)
  }

  function If(fault: bool, gate: Gate, message: string): seq<Fault> {
    if fault then [Fault(gate, message)] else []
  }

  // The regime must be one of the two, and the scheduled one; then it decides what must have been observed.
  function RegimeFaults(w: Draws.World, master: nat, episode: nat, kind: Kind, f: Facts): seq<Fault>
    requires w.space > 0
  {
    if f.theta != 1 && f.theta != -1 then [Fault(K1, "private theta is not exactly -1 or +1")]
    else (
      If(f.theta != Draws.Regime(w, SemanticKeys.PRIVATE_NAMESPACES, master, episode), K1, "private theta differs from the schedule")
      + If(f.symbol != ExpectedSymbol(w, master, episode, kind, f.theta), K1, "observed symbol differs from the private outcome"))
  }

  function SuccessFaults(w: Draws.World, master: nat, episode: nat, decision: int, f: Facts): seq<Fault> {
    match f.success
    case None => [Fault(K1, "terminal success is not boolean")]
    case Some(success) =>
      If((f.theta == 1 || f.theta == -1) && success != ExpectedSuccess(w, master, episode, decision, f.theta), K1,
         "terminal success differs from the private outcome")
  }

  // Every fault found, and the reconstructed return; `rest` are the faults of the fields that do not enter it. None
  // means that it raised, as it does for an observation the action does not have.
  function Judge(w: Draws.World, uniform: string -> nat, key: Merge.Key, facts: Option<Facts>, rest: seq<Fault>): Option<Verdict>
    requires w.space > 0
  {
    if facts.None? then Some(Rejected(K1, "cannot decode primitive episode row"))
    else if !InOrder(key) || facts.value.action.None? || facts.value.action.value >= |ACTIONS| then
      Some(Rejected(K2, "arm or selected action is outside the frozen order"))
    else
      var f := facts.value;
      var a := ACTIONS[f.action.value];
      match AuditorPosterior(a.kind, f.symbol)
      case None => None
      case Some(p) =>
        var decision := if p >= 1.0 / 2.0 then 1 else -1;
        var faults :=
          If(a != ExpectedAction(uniform, ARMS_IN_ORDER[key.arm], key.master, key.episode), K2, "selector chose another action")
          + RegimeFaults(w, key.master, key.episode, a.kind, f)
          + If(f.terminal != decision, K2, "terminal selector differs from posterior optimum")
          + SuccessFaults(w, key.master, key.episode, decision, f);
        Some(Judged(faults + rest, Draws.ReturnFor(a.kind, f.symbol, f.success == Some(true))))
  }

  function Rejected(gate: Gate, message: string): Verdict { Judgement([Fault(gate, message)], None) }
  function Judged(faults: seq<Fault>, score: real): Verdict { Judgement(faults, Some(score)) }

  // Without a fault, the reconstructed return is the auditor's return of the expected action.
  lemma FaultlessReturn(w: Draws.World, uniform: string -> nat, key: Merge.Key, facts: Option<Facts>, rest: seq<Fault>)
    requires w.space > 0 && Judge(w, uniform, key, facts, rest).Some? && Judge(w, uniform, key, facts, rest).value.faults == []
    ensures InOrder(key)
    ensures Judge(w, uniform, key, facts, rest).value.score
         == Draws.AuditorReturn(w, key.master, key.episode, ExpectedAction(uniform, ARMS_IN_ORDER[key.arm], key.master, key.episode))
  {
    var f := facts.value;
    var a := ACTIONS[f.action.value];
    var decision := if AuditorPosterior(a.kind, f.symbol).value >= 1.0 / 2.0 then 1 else -1;
    assert RegimeFaults(w, key.master, key.episode, a.kind, f) == [] && SuccessFaults(w, key.master, key.episode, decision, f) == [];
    SymbolIsObserved(w, key.master, key.episode, a.kind, f);
    SuccessIsDrawn(w, key.master, key.episode, decision, f);
  }

  lemma SymbolIsObserved(w: Draws.World, master: nat, episode: nat, kind: Kind, f: Facts)
    requires w.space > 0 && RegimeFaults(w, master, episode, kind, f) == []
    ensures f.symbol == Draws.Observe(w, SemanticKeys.PRIVATE_NAMESPACES, master, episode, kind)
    ensures f.theta == Draws.Regime(w, SemanticKeys.PRIVATE_NAMESPACES, master, episode) && (f.theta == 1 || f.theta == -1)
  {
  }

  lemma SuccessIsDrawn(w: Draws.World, master: nat, episode: nat, decision: int, f: Facts)
    requires SuccessFaults(w, master, episode, decision, f) == [] && (f.theta == 1 || f.theta == -1)
    requires f.theta == Draws.Regime(w, SemanticKeys.PRIVATE_NAMESPACES, master, episode)
    ensures f.success == Some(Draws.Succeeds(w, SemanticKeys.PRIVATE_NAMESPACES, master, episode, decision))
  {
  }

  // ---------------------------------------------------------------- inside the streaming pass

  // How facts and the remaining faults are read off a pair of rows stays abstract.
  datatype Reader = Reader(facts: (Row, Row) -> Option<Facts>, rest: (Row, Row) -> seq<Fault>)

  function WithEpisodes(base: Checks, reader: Reader, w: Draws.World, uniform: string -> nat): Checks
    requires w.space > 0
  {
    Checks(base.parse, base.sha,
           (raw: Row, private_: Row) => Judge(w, uniform, raw.key, reader.facts(raw, private_), reader.rest(raw, private_)), base.other)
  }

  lemma CleanRowReturn(e: Evidence, base: Checks, reader: Reader, w: Draws.World, uniform: string -> nat, key: Merge.Key, i: nat)
    requires w.space > 0 && RowClean(e, WithEpisodes(base, reader, w, uniform), key, i)
    ensures InOrder(key)
    ensures ScoreAt(e, WithEpisodes(base, reader, w, uniform), key, i)
         == Draws.AuditorReturn(w, key.master, key.episode, ExpectedAction(uniform, ARMS_IN_ORDER[key.arm], key.master, key.episode))
  {
    var r := ReadingOf(e, WithEpisodes(base, reader, w, uniform), key, i);
    FaultlessReturn(w, uniform, key, reader.facts(r.raw.value, r.private_.value), reader.rest(r.raw.value, r.private_.value));
  }

  // The auditor's expectation is the arm's own choice, and its return the producer's.
  lemma ExpectedIsProduced(ln: real -> real, w: Draws.World, uniform: string -> nat, arm: Arms.Arm, master: nat, episode: nat)
    requires Information.IsLog(ln) && Draws.ValidWorld(w)
    ensures Draws.AuditorReturn(w, master, episode, ExpectedAction(uniform, arm, master, episode))
         == Draws.LaneReturn(ln, w, uniform, arm, master, episode)
  {
    Draws.LaneChoiceIs(ln, uniform, arm, master, episode);
    if !arm.UniformRandom? {
      Draws.FrozenTellArms(arm, arm);
    }
    Draws.AuditorReconstructsReturns(w, master, episode, ExpectedAction(uniform, arm, master, episode));
  }

  lemma EpisodeReturn(ln: real -> real, e: Evidence, base: Checks, reader: Reader, w: Draws.World, uniform: string -> nat, lane: nat, at: (int, int), k: nat)
    requires Information.IsLog(ln) && Draws.ValidWorld(w) && lane > 0 && at in Consolidation.Lanes() && k < lane
    requires RowsClean(e, WithEpisodes(base, reader, w, uniform), KeysOf(lane), Consolidation.Budget(lane))
    ensures AllFound(e, WithEpisodes(base, reader, w, uniform), KeysOf(lane))[LaneStart(at, lane) + k].score
         == Draws.LaneReturn(ln, w, uniform, ARMS_IN_ORDER[at.1], at.0, k)
  {
    var checks, i := WithEpisodes(base, reader, w, uniform), LaneStart(at, lane) + k;
    Consolidation.OrdinalsAreKeys(Merge.Key(at.0, at.1, k), lane);
    assert KeysOf(lane)[i] == Merge.Key(at.0, at.1, k);
    assert RowClean(e, checks, KeysOf(lane)[i], i);
    CleanRowReturn(e, base, reader, w, uniform, KeysOf(lane)[i], i);
    ExpectedIsProduced(ln, w, uniform, ARMS_IN_ORDER[at.1], at.0, k);
  }

  // The returns of a lane as the salt and the arm's selection rule determine them.
  predicate Determined(ln: real -> real, w: Draws.World, uniform: string -> nat, lane: nat, at: (int, int), scores: seq<real>)
    requires w.space > 0 && at in Consolidation.Lanes()
  {
    |scores| == lane && forall k | 0 <= k < lane :: DeterminedAt(ln, w, uniform, at, k, scores[k])
  }

  predicate DeterminedAt(ln: real -> real, w: Draws.World, uniform: string -> nat, at: (int, int), k: nat, score: real)
    requires w.space > 0 && at in Consolidation.Lanes()
  {
    Draws.LaneReturn(ln, w, uniform, ARMS_IN_ORDER[at.1], at.0, k) == Some(score)
  }

  // Evidence on which the pass records no violation can hold no other returns.
  lemma CleanReturnsAreDetermined(ln: real -> real, e: Evidence, base: Checks, reader: Reader, w: Draws.World, uniform: string -> nat, lane: nat, at: (int, int))
    requires Information.IsLog(ln) && Draws.ValidWorld(w) && lane > 0 && at in Consolidation.Lanes()
    requires RowsClean(e, WithEpisodes(base, reader, w, uniform), KeysOf(lane), Consolidation.Budget(lane))
    ensures Determined(ln, w, uniform, lane, at, LaneScores(e, WithEpisodes(base, reader, w, uniform), lane, at))
  {
    var checks := WithEpisodes(base, reader, w, uniform);
    CleanReturns(e, checks, lane, at);
    var scores := LaneScores(e, checks, lane, at);
    forall k | 0 <= k < lane ensures DeterminedAt(ln, w, uniform, at, k, scores[k]) {
      EpisodeReturn(ln, e, base, reader, w, uniform, lane, at, k);
    }
  }

  lemma SameReturns(ln: real -> real, w: Draws.World, uniform: string -> nat, lane: nat, m: nat, first: seq<real>, second: seq<real>)
    requires Information.IsLog(ln) && Draws.ValidWorld(w) && m < Consolidation.MASTERS
    requires Determined(ln, w, uniform, lane, (m, 0), first) && Determined(ln, w, uniform, lane, (m, 1), second)
    ensures first == second
  {
    forall k | 0 <= k < lane ensures first[k] == second[k] {
      SameReturn(ln, w, uniform, m, k, first[k], second[k]);
    }
  }

  lemma SameReturn(ln: real -> real, w: Draws.World, uniform: string -> nat, m: nat, k: nat, first: real, second: real)
    requires Information.IsLog(ln) && Draws.ValidWorld(w) && m < Consolidation.MASTERS
    requires DeterminedAt(ln, w, uniform, (m, 0), k, first) && DeterminedAt(ln, w, uniform, (m, 1), k, second)
    ensures first == second
  {
    Draws.ProspectAndOracle(ln, w, uniform, m, k);
    assert ARMS_IN_ORDER[0] == Arms.Prospect && ARMS_IN_ORDER[1] == Arms.FractionOracle;
  }

  // So in a run that passes, the oracle arm's lanes hold exactly Prospect's returns, and have the same means.
  lemma ProspectMatchesOracle(ln: real -> real, x: AuditVerdict.Inputs, base: Checks, reader: Reader, w: Draws.World, uniform: string -> nat, lane: nat, m: nat)
    requires Information.IsLog(ln) && Draws.ValidWorld(w) && lane > 0 && m < Consolidation.MASTERS
    requires x.checks == WithEpisodes(base, reader, w, uniform) && AuditVerdict.Sound(x, lane)
    ensures LaneScores(x.evidence, x.checks, lane, (m, 0)) == LaneScores(x.evidence, x.checks, lane, (m, 1))
    ensures AuditVerdict.RowMean(x, lane, m, 0) == AuditVerdict.RowMean(x, lane, m, 1)
  {
    CleanReturnsAreDetermined(ln, x.evidence, base, reader, w, uniform, lane, (m, 0));
    CleanReturnsAreDetermined(ln, x.evidence, base, reader, w, uniform, lane, (m, 1));
    SameReturns(ln, w, uniform, lane, m, LaneScores(x.evidence, x.checks, lane, (m, 0)), LaneScores(x.evidence, x.checks, lane, (m, 1)));
  }
}
