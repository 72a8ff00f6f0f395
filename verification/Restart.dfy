/** Identity counters and the terminal step (runtime_lane.py, q1.py), and the same step taken from a checkpoint in a
    fresh process (checkpoint.py, restore_worker.py), against the offsets the auditor expects (q1_audit.py). */
module Restart {
  import opened Wrappers
  import opened Oracle
  import opened PosteriorCodec
  import Identifiers
  import Draws

  // ---------------------------------------------------------------- identities

  datatype Phase = Acquisition | Terminal

  datatype Candidate = Probe(kind: Kind) | Exploit(direct: bool)

  datatype Label =
    | PredictionOf(c: Candidate) | PredictionDistributionOf(c: Candidate) | UtilityOf(c: Candidate)
    | InformationValueOf(c: Candidate) | AssessmentOf(c: Candidate)
    | Intention(phase: Phase) | Decision(phase: Phase)
    | Execution(phase: Phase) | Observation(phase: Phase) | OutcomeEvidence(phase: Phase) | Outcome(phase: Phase)
    | Experience | Memory | InformationSet | AssimilatedBelief | AssimilatedDistribution | BeliefUpdate
    | ProperScore(phase: Phase) | Effect | Transition
    | LearnedBelief | LearnedDistribution | Receipt

  // Rendered as namespace:label:counter.
  datatype Identity = Identity(namespace: string, name: Label, counter: nat)

  class IdentitySource {
    const namespace: string
    var next: nat

    constructor (namespace: string, next: nat)
      ensures this.namespace == namespace && this.next == next
    {
      this.namespace, this.next := namespace, next;
    }

    method Next(name: Label) returns (id: Identity)
      modifies this
      ensures id == Identity(namespace, name, old(next)) && next == old(next) + 1
    {
      id := Identity(namespace, name, next);
      next := next + 1;
    }
  }

  // ---------------------------------------------------------------- one interaction, component by component

  datatype CandidateIds = CandidateIds(
    prediction: Identity, distribution: Identity, utility: Identity, information: Identity, assessment: Identity)

  datatype StepIds = StepIds(execution: Identity, observation: Identity, evidence: Identity, outcome: Identity)

  datatype RecordIds = RecordIds(
    experience: Identity, memory: Identity, informationSet: Identity, belief: Identity, distribution: Identity,
    update: Identity, score: Identity, effect: Identity, transition: Identity)

  datatype InteractionIds = InteractionIds(
    candidates: seq<CandidateIds>, intention: Identity, decision: Identity, step: StepIds, record: RecordIds)

  const PER_CANDIDATE: nat := 5
  const PER_INTERACTION: nat := 15     // beside its candidates
  const PER_LEARNING: nat := 3

  function CandidateAt(namespace: string, c: Candidate, at: nat): CandidateIds {
    CandidateIds(Identity(namespace, PredictionOf(c), at), Identity(namespace, PredictionDistributionOf(c), at + 1),
                 Identity(namespace, UtilityOf(c), at + 2), Identity(namespace, InformationValueOf(c), at + 3),
                 Identity(namespace, AssessmentOf(c), at + 4))
  }

  function StepAt(namespace: string, phase: Phase, at: nat): StepIds {
    StepIds(Identity(namespace, Execution(phase), at), Identity(namespace, Observation(phase), at + 1),
            Identity(namespace, OutcomeEvidence(phase), at + 2), Identity(namespace, Outcome(phase), at + 3))
  }

  function RecordAt(namespace: string, phase: Phase, at: nat): RecordIds {
    RecordIds(Identity(namespace, Experience, at), Identity(namespace, Memory, at + 1), Identity(namespace, InformationSet, at + 2),
              Identity(namespace, AssimilatedBelief, at + 3), Identity(namespace, AssimilatedDistribution, at + 4),
              Identity(namespace, BeliefUpdate, at + 5), Identity(namespace, ProperScore(phase), at + 6),
              Identity(namespace, Effect, at + 7), Identity(namespace, Transition, at + 8))
  }

  // Where the identities of a whole interaction stand when its counter starts at `at`.
  function InteractionAt(namespace: string, candidates: seq<Candidate>, phase: Phase, at: nat): InteractionIds {
    var after := at + PER_CANDIDATE * |candidates|;
    InteractionIds(
      seq(|candidates|, i requires 0 <= i < |candidates| => CandidateAt(namespace, candidates[i], at + PER_CANDIDATE * i)),
      Identity(namespace, Intention(phase), after), Identity(namespace, Decision(phase), after + 1),
      StepAt(namespace, phase, after + 2), RecordAt(namespace, phase, after + 6))
  }

  method Assess(source: IdentitySource, candidates: seq<Candidate>) returns (ids: seq<CandidateIds>)
    modifies source
    ensures source.next == old(source.next) + PER_CANDIDATE * |candidates|
    ensures ids == seq(|candidates|, i requires 0 <= i < |candidates| =>
                         CandidateAt(source.namespace, candidates[i], old(source.next) + PER_CANDIDATE * i))
  {
    ids := [];
    for i := 0 to |candidates|
      invariant source.next == old(source.next) + PER_CANDIDATE * i && |ids| == i
      invariant forall k | 0 <= k < i :: ids[k] == CandidateAt(source.namespace, candidates[k], old(source.next) + PER_CANDIDATE * k)
    {
      var prediction := source.Next(PredictionOf(candidates[i]));
      var distribution := source.Next(PredictionDistributionOf(candidates[i]));
      var utility := source.Next(UtilityOf(candidates[i]));
      var information := source.Next(InformationValueOf(candidates[i]));
      var assessment := source.Next(AssessmentOf(candidates[i]));
      ids := ids + [CandidateIds(prediction, distribution, utility, information, assessment)];
    }
  }

  method Execute(source: IdentitySource, phase: Phase) returns (ids: StepIds)
    modifies source
    ensures ids == StepAt(source.namespace, phase, old(source.next)) && source.next == old(source.next) + 4
  {
    var execution := source.Next(Execution(phase));
    var observation := source.Next(Observation(phase));
    var evidence := source.Next(OutcomeEvidence(phase));
    var outcome := source.Next(Outcome(phase));
    ids := StepIds(execution, observation, evidence, outcome);
  }

  method Assimilate(source: IdentitySource, phase: Phase) returns (ids: RecordIds)
    modifies source
    ensures ids == RecordAt(source.namespace, phase, old(source.next)) && source.next == old(source.next) + 9
  {
    var experience := source.Next(Experience);
    var memory := source.Next(Memory);
    var informationSet := source.Next(InformationSet);
    var belief := source.Next(AssimilatedBelief);
    var distribution := source.Next(AssimilatedDistribution);
    var update := source.Next(BeliefUpdate);
    var score := source.Next(ProperScore(phase));
    var effect := source.Next(Effect);
    var transition := source.Next(Transition);
    ids := RecordIds(experience, memory, informationSet, belief, distribution, update, score, effect, transition);
  }

  method Interact(source: IdentitySource, candidates: seq<Candidate>, phase: Phase) returns (ids: InteractionIds)
    modifies source
    ensures ids == InteractionAt(source.namespace, candidates, phase, old(source.next))
    ensures source.next == old(source.next) + PER_CANDIDATE * |candidates| + PER_INTERACTION
  {
    var assessed := Assess(source, candidates);
    var intention := source.Next(Intention(phase));
    var decision := source.Next(Decision(phase));
    var step := Execute(source, phase);
    var record := Assimilate(source, phase);
    ids := InteractionIds(assessed, intention, decision, step, record);
  }

  // One attempt to learn; its identities are consumed even if the attempt is rolled back.
  method Learn(source: IdentitySource) returns (receipt: Identity)
    modifies source
    ensures receipt == Identity(source.namespace, Receipt, old(source.next) + 2) && source.next == old(source.next) + PER_LEARNING
  {
    var belief := source.Next(LearnedBelief);
    var distribution := source.Next(LearnedDistribution);
    receipt := source.Next(Receipt);
  }

  const PROBES: seq<Candidate> := [Probe(Skip), Probe(Weak), Probe(Strong), Probe(Overpowered), Probe(Kind.Nuisance)]
  const EXPLOITS: seq<Candidate> := [Exploit(true), Exploit(false)]

  const PRETERMINAL: nat := 43
  const MAX_COUNTER: nat := 64

  // The acquisition phase of a fresh namespace, with `abandoned` rolled-back learning attempts before the one that
  // applies: 43 identities, and three more for each of those.
  method AcquisitionPhase(source: IdentitySource, abandoned: nat) returns (ids: InteractionIds, receipt: Identity)
    requires source.next == 0
    modifies source
    ensures ids == InteractionAt(source.namespace, PROBES, Acquisition, 0)
    ensures receipt.counter == PRETERMINAL - 1 + PER_LEARNING * abandoned
    ensures source.next == PRETERMINAL + PER_LEARNING * abandoned
  {
    ids := Interact(source, PROBES, Acquisition);
    for k := 0 to abandoned
      invariant source.next == 40 + PER_LEARNING * k
    {
      var lost := Learn(source);
    }
    receipt := Learn(source);
  }

  // ---------------------------------------------------------------- the identity counter's document

  const NEWLINE: nat := 10

  function CounterDocument(namespace: string, counter: int): Json {
    Object(map["namespace" := Str(namespace), "next_counter" := Int(counter), "schema_version" := Int(1)])
  }

  function CounterBytes(j: JsonText, namespace: string, counter: int): Bytes {
    j.dumps(CounterDocument(namespace, counter)) + [NEWLINE]
  }

  // A trailing newline makes no difference to the parser, and printing does not confuse two documents.
  ghost predicate ReadsLines(j: JsonText) {
    Lawful(j) && forall v :: j.loads(j.dumps(v) + [NEWLINE]) == Some(v)
  }

  // The namespace and counter of a checkpointed source; None where decoding raises.
  function DecodeCounter(j: JsonText, payload: Bytes): Option<(string, nat)> {
    match j.loads(payload)
    case None => None
    case Some(v) =>
      if !v.Object? || v.fields.Keys != {"namespace", "next_counter", "schema_version"} then None
      else
        var namespace, counter := v.fields["namespace"], v.fields["next_counter"];
        if !namespace.Str? || Blank(namespace.text) then None
        else if counter.Int? && counter.value > MAX_COUNTER then None
        else if v.fields["schema_version"] != Int(1) || !counter.Int? || counter.value < 0 then None
        else if payload != CounterBytes(j, namespace.text, counter.value) then None
        else Some((namespace.text, counter.value))
  }

  // A counter is read back exactly up to the bound.
  lemma CounterReadsBack(j: JsonText, namespace: string, counter: nat)
    requires ReadsLines(j) && !Blank(namespace)
    ensures DecodeCounter(j, CounterBytes(j, namespace, counter)) ==
      if counter <= MAX_COUNTER then Some((namespace, counter)) else None
  {
    var v := CounterDocument(namespace, counter);
    assert v.fields.Keys == {"namespace", "next_counter", "schema_version"};
  }

  // The counter of an episode with `abandoned` rolled-back attempts survives the checkpoint exactly up to seven.
  lemma RollbacksWithinBound(j: JsonText, namespace: string, abandoned: nat)
    requires ReadsLines(j) && !Blank(namespace)
    ensures DecodeCounter(j, CounterBytes(j, namespace, PRETERMINAL + PER_LEARNING * abandoned)).Some? <==> abandoned <= 7
  {
    CounterReadsBack(j, namespace, PRETERMINAL + PER_LEARNING * abandoned);
  }

  // ---------------------------------------------------------------- the checkpoint

  // What the domain graph holds of the acquisition: the identities of the one experience and transition that the
  // committed receipt names, and the version of the model it led to.
  datatype Lineage = Lineage(experience: string, transition: string, modelVersion: nat)

  // What the terminal step depends on.
  datatype Pending = Pending(
    namespace: string, counter: nat, model: Model, lineage: Lineage, payoff: real, actionCost: real, informationCost: real)

  // The lineage and the accumulator's three numbers are stored as they are; rounding is not modelled.
  datatype Checkpoint = Checkpoint(
    counter: Bytes, model: Bytes, lineage: Lineage, payoff: real, actionCost: real, informationCost: real)

  // None where the encoder raises.
  function Dump(j: JsonText, p: Pending): Option<Checkpoint> {
    match Encode(j, p.model)
    case None => None
    case Some(payload) =>
      Some(Checkpoint(CounterBytes(j, p.namespace, p.counter), payload, p.lineage, p.payoff, p.actionCost, p.informationCost))
  }

  function Load(j: JsonText, c: Checkpoint): Option<Pending> {
    match DecodeCounter(j, c.counter)
    case None => None
    case Some(source) =>
      match Decode(j, c.model)
      case None => None
      case Some(model) => Some(Pending(source.0, source.1, model, c.lineage, c.payoff, c.actionCost, c.informationCost))
  }

  ghost predicate Episode(p: Pending) {
    !Blank(p.namespace) && Valid(p.model) && Normal(p.model.posterior) && Named(p.model)
  }

  // The model is the one that the committed receipt led to, and records the experience and transition it learned from.
  predicate Committed(j: JsonText, sha: Bytes -> nat, p: Pending) {
    && Encode(j, p.model).Some? && p.lineage.modelVersion == sha(Encode(j, p.model).value) && p.model.count == 1
    && p.model.experience == Some(p.lineage.experience) && p.model.transition == Some(p.lineage.transition)
  }

  // The digests that the checkpoint index keeps of the counter and the model.
  datatype Components = Components(counter: nat, model: nat)

  function ComponentsOf(sha: Bytes -> nat, c: Checkpoint): Components { Components(sha(c.counter), sha(c.model)) }

  // Loading undoes dumping exactly when the counter is within the bound.
  lemma LoadDump(j: JsonText, p: Pending)
    requires ReadsLines(j) && Episode(p)
    ensures Dump(j, p).Some?
    ensures Load(j, Dump(j, p).value) == if p.counter <= MAX_COUNTER then Some(p) else None
  {
    CounterReadsBack(j, p.namespace, p.counter);
    DecodeEncode(j, p.model);
  }

  // ---------------------------------------------------------------- learning from the acquisition

  function RealOf(r: Ratio): real
    requires r.denominator > 0
  {
    r.numerator as real / r.denominator as real
  }

  // P(symbol | direct) and P(symbol | reversed), in hundredths.
  function Chances(a: Action, symbol: int): (nat, nat) {
    match a.kind
    case Skip => (100, 100)
    case Nuisance => (25, 25)
    case _ =>
      var accuracy := match a.kind case Weak => 70 case Strong => 90 case _ => 100;
      if symbol == a.command then (accuracy, 100 - accuracy) else (100 - accuracy, accuracy)
  }

  predicate ProbabilityRatio(r: Ratio) { r.denominator > 0 && IsProbability(r) }

  // Bayes' rule on fractions; None where it raises.
  function PosteriorRatio(prior: Ratio, a: Action, symbol: int): Option<Ratio>
    requires ProbabilityRatio(prior)
  {
    if symbol !in Outcomes(a) then None
    else
      var joint, total := WeightOf(prior, a, symbol), TotalOf(prior, a, symbol);
      if total == 0 then None else Some(Reduced(joint, total))
  }

  function WeightOf(prior: Ratio, a: Action, symbol: int): nat
    requires ProbabilityRatio(prior)
  {
    prior.numerator * Chances(a, symbol).0
  }

  function TotalOf(prior: Ratio, a: Action, symbol: int): (total: nat)
    requires ProbabilityRatio(prior)
    ensures total >= WeightOf(prior, a, symbol)
  {
    WeightOf(prior, a, symbol) + (prior.denominator - prior.numerator) * Chances(a, symbol).1
  }

  // The learned fraction is the oracle's posterior in lowest terms, and learning raises exactly where the oracle does.
  lemma PosteriorRatioIs(prior: Ratio, a: Action, symbol: int)
    requires ProbabilityRatio(prior) && Declared(a)
    ensures var exact := PosteriorDirect(a, symbol, RealOf(prior));
      var r := PosteriorRatio(prior, a, symbol);
      && (r.Some? <==> exact.Ok?)
      && (r.Some? ==> Normal(r.value) && ProbabilityRatio(r.value) && RealOf(r.value) == exact.value)
  {
    PriorIsProbability(prior);
    if symbol in Outcomes(a) {
      ExactIs(prior, a, symbol);
      if TotalOf(prior, a, symbol) != 0 {
        RatioIs(prior, a, symbol);
      }
    }
  }

  function WeightShare(prior: Ratio, a: Action, symbol: int): real
    requires ProbabilityRatio(prior) && TotalOf(prior, a, symbol) != 0
  {
    WeightOf(prior, a, symbol) as real / TotalOf(prior, a, symbol) as real
  }

  lemma ExactIs(prior: Ratio, a: Action, symbol: int)
    requires ProbabilityRatio(prior) && Declared(a) && symbol in Outcomes(a)
    ensures PosteriorDirect(a, symbol, RealOf(prior)) ==
      if TotalOf(prior, a, symbol) == 0 then Err(ZeroProbability) else Ok(WeightShare(prior, a, symbol))
  {
    PriorIsProbability(prior);
    var i := IndexOf(Outcomes(a), symbol).value;
    WeightsAre(prior, a, i);
    ExactFrom(prior, a, symbol, Joint(a, RealOf(prior), i), Evidence(a, RealOf(prior), i));
  }

  lemma ExactFrom(prior: Ratio, a: Action, symbol: int, joint: real, evidence: real)
    requires ProbabilityRatio(prior)
    requires ScaledUp(joint, evidence, 100.0 * prior.denominator as real, WeightOf(prior, a, symbol), TotalOf(prior, a, symbol))
    ensures evidence == 0.0 <==> TotalOf(prior, a, symbol) == 0
    ensures TotalOf(prior, a, symbol) != 0 ==> joint / evidence == WeightShare(prior, a, symbol)
  {
    QuotientsAgree(joint, evidence, 100.0 * prior.denominator as real, WeightOf(prior, a, symbol), TotalOf(prior, a, symbol));
  }

  lemma RatioIs(prior: Ratio, a: Action, symbol: int)
    requires ProbabilityRatio(prior) && symbol in Outcomes(a) && TotalOf(prior, a, symbol) != 0
    ensures var r := PosteriorRatio(prior, a, symbol);
      r.Some? && Normal(r.value) && ProbabilityRatio(r.value) && RealOf(r.value) == WeightShare(prior, a, symbol)
  {
    ReducedIsNormal(WeightOf(prior, a, symbol), TotalOf(prior, a, symbol));
    SameFraction(Reduced(WeightOf(prior, a, symbol), TotalOf(prior, a, symbol)), WeightOf(prior, a, symbol), TotalOf(prior, a, symbol));
  }

  // The joint probability and the evidence, scaled up by a hundred times the prior's denominator.
  predicate ScaledUp(joint: real, evidence: real, scale: real, weight: nat, total: nat) {
    joint * scale == weight as real && evidence * scale == total as real
  }

  lemma WeightsAre(prior: Ratio, a: Action, i: nat)
    requires ProbabilityRatio(prior) && Declared(a) && i < |Outcomes(a)|
    ensures ScaledUp(Joint(a, RealOf(prior), i), Evidence(a, RealOf(prior), i), 100.0 * prior.denominator as real,
                     WeightOf(prior, a, Outcomes(a)[i]), TotalOf(prior, a, Outcomes(a)[i]))
  {
    ChancesAt(a, i);
    var (direct, reversed) := Chances(a, Outcomes(a)[i]);
    WeightsFrom(prior, direct, reversed, RealOf(prior), Likelihoods(a).1[i], Likelihoods(a).0[i],
                Joint(a, RealOf(prior), i), Evidence(a, RealOf(prior), i),
                WeightOf(prior, a, Outcomes(a)[i]), TotalOf(prior, a, Outcomes(a)[i]));
  }

  lemma WeightsFrom(prior: Ratio, direct: nat, reversed: nat, p: real, x: real, y: real, joint: real, evidence: real, weight: nat, total: nat)
    requires ProbabilityRatio(prior) && p == RealOf(prior) && x == direct as real / 100.0 && y == reversed as real / 100.0
    requires joint == p * x && evidence == joint + (1.0 - p) * y
    requires weight == prior.numerator * direct && total == weight + (prior.denominator - prior.numerator) * reversed
    ensures ScaledUp(joint, evidence, 100.0 * prior.denominator as real, weight, total)
  {
    BayesOnFractions(prior.numerator, prior.denominator, direct, reversed, p, x, y);
  }

  lemma ProductAsReal(x: int, y: int)
    ensures (x * y) as real == x as real * y as real
  {
  }

  lemma QuotientsAgree(joint: real, evidence: real, scale: real, n: nat, d: nat)
    requires scale > 0.0 && joint * scale == n as real && evidence * scale == d as real
    ensures evidence == 0.0 <==> d == 0
    ensures d > 0 ==> joint / evidence == n as real / d as real
  {
    if d > 0 {
      var q := joint / evidence;
      assert q * evidence == joint;
      assert q * d as real == q * (evidence * scale) == (q * evidence) * scale == n as real;
    } else {
      assert evidence * scale == 0.0;
    }
  }

  lemma PriorIsProbability(prior: Ratio)
    requires ProbabilityRatio(prior)
    ensures IsPrior(RealOf(prior))
  {
    QuotientIsProbability(prior.numerator as real, prior.denominator as real);
  }

  lemma ChancesAt(a: Action, i: nat)
    requires Declared(a) && i < |Outcomes(a)|
    ensures var (direct, reversed) := Chances(a, Outcomes(a)[i]);
      Likelihoods(a).1[i] == direct as real / 100.0 && Likelihoods(a).0[i] == reversed as real / 100.0
  {
  }

  lemma BayesOnFractions(n: int, d: int, direct: nat, reversed: nat, p: real, x: real, y: real)
    requires d > 0 && p == n as real / d as real && x == direct as real / 100.0 && y == reversed as real / 100.0
    ensures p * x * (100.0 * d as real) == (n * direct) as real
    ensures (p * x + (1.0 - p) * y) * (100.0 * d as real) == (n * direct + (d - n) * reversed) as real
  {
    ProductAsReal(n, direct);
    ProductAsReal(d - n, reversed);
    var e := d as real;
    assert p * e == n as real && (1.0 - p) * e == (d - n) as real;
    Rearranged(p, x, e);
    Rearranged(1.0 - p, y, e);
    Distribute(100.0 * e, p * x, (1.0 - p) * y);
  }

  lemma Rearranged(p: real, x: real, e: real)
    ensures p * x * (100.0 * e) == (p * e) * (100.0 * x)
  {
  }

  lemma SameFraction(r: Ratio, n: nat, d: nat)
    requires d > 0 && r.denominator > 0 && r.numerator * d == n * r.denominator
    ensures RealOf(r) == n as real / d as real
  {
    var x := n as real / d as real;
    assert x * d as real == n as real;
    assert (r.numerator * d) as real == (n * r.denominator) as real;
    assert r.numerator as real * d as real == n as real * r.denominator as real;
    assert r.numerator as real == x * r.denominator as real;
  }

  const INITIAL := Model(0, None, None, Ratio(1, 2), LIKELIHOOD, SCHEMA)

  // The one update an episode may make; None where the learner raises.
  function Learned(prior: Model, a: Action, symbol: int, experience: string, transition: string): Option<Model>
    requires ProbabilityRatio(prior.posterior)
  {
    if prior.count != 0 then None
    else match PosteriorRatio(prior.posterior, a, symbol)
      case None => None
      case Some(r) => Some(Model(prior.count + 1, Some(experience), Some(transition), r, LIKELIHOOD, SCHEMA))
  }

  function Rendered(namespace: string, name: string, counter: nat): string {
    namespace + ":" + name + ":" + Identifiers.Decimal(counter)
  }

  // What is pending once a fresh episode has acquired and learned.
  function Acquired(j: JsonText, sha: Bytes -> nat, namespace: string, record: RecordIds, counter: nat, a: Action, symbol: int): Option<Pending> {
    var experience, transition := Rendered(namespace, "experience", record.experience.counter), Rendered(namespace, "transition", record.transition.counter);
    match Learned(INITIAL, a, symbol, experience, transition)
    case None => None
    case Some(model) =>
      var payload := Encode(j, model);
      if payload.None? then None
      else Some(Pending(namespace, counter, model, Lineage(experience, transition, sha(payload.value)), Draws.Payoff(a.kind, symbol), ActionCost(a.kind), AcquisitionCost(a.kind)))
  }

  lemma LearnedIs(a: Action, symbol: int, experience: string, transition: string)
    requires a in ACTIONS && symbol in Outcomes(a)
    ensures Learned(INITIAL, a, symbol, experience, transition).Some?
    ensures var m := Learned(INITIAL, a, symbol, experience, transition).value;
      && Valid(m) && Normal(m.posterior) && m.count == 1 && m.experience == Some(experience) && m.transition == Some(transition)
      && PosteriorDirect(a, symbol, 1.0 / 2.0) == Ok(RealOf(m.posterior))
  {
    PosteriorExactly(a, symbol, 1.0 / 2.0);
    PosteriorRatioIs(INITIAL.posterior, a, symbol);
  }

  // The accumulator holds what the acquisition paid and cost.
  predicate Books(p: Pending, a: Action, symbol: int) {
    p.payoff == Draws.Payoff(a.kind, symbol) && p.actionCost == ActionCost(a.kind) && p.informationCost == AcquisitionCost(a.kind)
  }

  // Every candidate action learns from each of its outcomes, and leaves an episode that can be checkpointed.
  lemma AcquiredIs(j: JsonText, sha: Bytes -> nat, namespace: string, record: RecordIds, counter: nat, a: Action, symbol: int)
    requires !Blank(namespace) && a in ACTIONS && symbol in Outcomes(a)
    ensures Acquired(j, sha, namespace, record, counter, a, symbol).Some? && Episode(Acquired(j, sha, namespace, record, counter, a, symbol).value)
    ensures PosteriorDirect(a, symbol, 1.0 / 2.0)
         == Ok(RealOf(Acquired(j, sha, namespace, record, counter, a, symbol).value.model.posterior))
    ensures Committed(j, sha, Acquired(j, sha, namespace, record, counter, a, symbol).value)
    ensures Books(Acquired(j, sha, namespace, record, counter, a, symbol).value, a, symbol)
  {
    LearnedIs(a, symbol, Rendered(namespace, "experience", record.experience.counter), Rendered(namespace, "transition", record.transition.counter));
    RenderedIsNotBlank(namespace, "experience", record.experience.counter);
    RenderedIsNotBlank(namespace, "transition", record.transition.counter);
  }

  lemma RenderedIsNotBlank(namespace: string, name: string, counter: nat)
    ensures !Blank(Rendered(namespace, name, counter))
  {
    assert Rendered(namespace, name, counter)[|namespace|] == ':' && !IsSpace(':');
  }

  // ---------------------------------------------------------------- the terminal step, live and restored

  datatype TerminalTrace = TerminalTrace(
    ids: InteractionIds, values: seq<real>, selected: int, success: bool, episodeReturn: real, counter: nat)

  // The expected success of the two candidates, direct first.
  function CandidateValues(model: Model): (values: seq<real>)
    requires model.posterior.denominator > 0
    ensures |values| == 2
  {
    [ExpectedTerminalPayoff(Direct, RealOf(model.posterior)), ExpectedTerminalPayoff(Reversed, RealOf(model.posterior))]
  }

  // The policy takes the greatest value; of equal ones, the action whose identifier is first, which is the direct one.
  function Preferred(values: seq<real>): int
    requires |values| == 2
  {
    if values[1] > values[0] then -1 else 1
  }

  // The runner expects the decision the posterior fraction calls for.
  function Selected(model: Model): int {
    if 2 * model.posterior.numerator >= model.posterior.denominator then 1 else -1
  }

  // The auditor's closed form of the two values.
  function ValuesAt(p: real): seq<real> { [1.0 / 10.0 + 4.0 / 5.0 * p, 9.0 / 10.0 - 4.0 / 5.0 * p] }

  // The values are the auditor's; policy, runner and auditor always name one action.
  lemma OneSelection(model: Model)
    requires model.posterior.denominator > 0
    ensures var p := RealOf(model.posterior);
      && CandidateValues(model) == ValuesAt(p)
      && Preferred(CandidateValues(model)) == Selected(model) == (if p >= 1.0 / 2.0 then 1 else -1)
  {
    var p := RealOf(model.posterior);
    AtLeastHalf(model.posterior.numerator, model.posterior.denominator, p);
  }

  lemma AtLeastHalf(n: int, d: int, p: real)
    requires d > 0 && p == n as real / d as real
    ensures p >= 1.0 / 2.0 <==> 2 * n >= d
  {
    assert p * d as real == n as real;
    if p >= 1.0 / 2.0 {
      assert (p - 1.0 / 2.0) * d as real >= 0.0;
    } else {
      assert (1.0 / 2.0 - p) * d as real > 0.0;
    }
  }

  // What the terminal step of a pending episode is, for any way its decisions turn out.
  function TerminalOf(p: Pending, succeeds: int -> bool): TerminalTrace
    requires p.model.posterior.denominator > 0
  {
    var selected := Selected(p.model);
    TerminalTrace(
      InteractionAt(p.namespace, EXPLOITS, Terminal, p.counter), CandidateValues(p.model), selected, succeeds(selected),
      p.payoff - p.actionCost - p.informationCost + (if succeeds(selected) then 1.0 else 0.0),
      p.counter + PER_CANDIDATE * 2 + PER_INTERACTION)
  }

  // The assessor refuses a model that is not the committed one. The environment is prepared for the runner's decision,
  // and the policy's must be the same; it always is.
  method TakeTerminalStep(j: JsonText, sha: Bytes -> nat, source: IdentitySource, p: Pending, succeeds: int -> bool) returns (t: Option<TerminalTrace>)
    requires source.namespace == p.namespace && source.next == p.counter && p.model.posterior.denominator > 0
    modifies source
    ensures t == if Committed(j, sha, p) then Some(TerminalOf(p, succeeds)) else None
    ensures t.Some? ==> source.next == t.value.counter
  {
    if !Committed(j, sha, p) {
      return None;
    }
    OneSelection(p.model);
    var selected := Selected(p.model);
    var success := succeeds(selected);
    var values := CandidateValues(p.model);
    var ids := Interact(source, EXPLOITS, Terminal);
    var episodeReturn := p.payoff - p.actionCost - p.informationCost + if success then 1.0 else 0.0;
    var trace := TerminalTrace(ids, values, Preferred(values), success, episodeReturn, source.next);
    t := if Preferred(values) == selected then Some(trace) else None;
  }

  // The live lane writes its checkpoint and goes on with the objects it holds.
  method ContinueLive(j: JsonText, sha: Bytes -> nat, source: IdentitySource, p: Pending, succeeds: int -> bool)
    returns (checkpoint: Option<Checkpoint>, t: Option<TerminalTrace>)
    requires source.namespace == p.namespace && source.next == p.counter && p.model.posterior.denominator > 0
    modifies source
    ensures checkpoint == Dump(j, p) && t == if Committed(j, sha, p) then Some(TerminalOf(p, succeeds)) else None
  {
    checkpoint := Dump(j, p);
    t := TakeTerminalStep(j, sha, source, p, succeeds);
  }

  lemma LoadedIsNormal(j: JsonText, c: Checkpoint)
    requires Load(j, c).Some?
    ensures Load(j, c).value.model.posterior.denominator > 0
  {
    EncodeDecode(j, c.model);
  }

  // A fresh process builds its objects from the checkpoint alone, after comparing its components with the index.
  method ContinueRestored(j: JsonText, sha: Bytes -> nat, index: Components, checkpoint: Checkpoint, succeeds: int -> bool)
    returns (t: Option<TerminalTrace>)
    ensures Load(j, checkpoint).Some? ==> Load(j, checkpoint).value.model.posterior.denominator > 0
    ensures t == if index == ComponentsOf(sha, checkpoint) && Load(j, checkpoint).Some? && Committed(j, sha, Load(j, checkpoint).value)
                 then Some(TerminalOf(Load(j, checkpoint).value, succeeds)) else None
  {
    var loaded := Load(j, checkpoint);
    if loaded.None? {
      return None;
    }
    LoadedIsNormal(j, checkpoint);
    if index != ComponentsOf(sha, checkpoint) {
      return None;
    }
    var source := new IdentitySource(loaded.value.namespace, loaded.value.counter);
    t := TakeTerminalStep(j, sha, source, loaded.value, succeeds);
  }

  // Values, selection, success and return of a terminal step, from the exact posterior of what was observed.
  predicate FollowsPosterior(t: TerminalTrace, a: Action, symbol: int, succeeds: int -> bool) {
    PosteriorDirect(a, symbol, 1.0 / 2.0).Ok? && FollowsBelief(t, PosteriorDirect(a, symbol, 1.0 / 2.0).value, a.kind, symbol, succeeds)
  }

  predicate FollowsBelief(t: TerminalTrace, q: real, kind: Kind, symbol: int, succeeds: int -> bool) {
    && t.values == ValuesAt(q) && t.selected == (if q >= 1.0 / 2.0 then 1 else -1) && t.success == succeeds(t.selected)
    && t.episodeReturn == Draws.ReturnFor(kind, symbol, t.success)
  }

  lemma TerminalIs(p: Pending, q: real, kind: Kind, symbol: int, succeeds: int -> bool)
    requires p.model.posterior.denominator > 0 && q == RealOf(p.model.posterior)
    requires p.payoff == Draws.Payoff(kind, symbol) && p.actionCost == ActionCost(kind) && p.informationCost == AcquisitionCost(kind)
    ensures FollowsBelief(TerminalOf(p, succeeds), q, kind, symbol, succeeds)
  {
    OneSelection(p.model);
  }

  lemma AcquiredFollows(j: JsonText, sha: Bytes -> nat, namespace: string, record: RecordIds, counter: nat, a: Action, symbol: int, succeeds: int -> bool)
    requires !Blank(namespace) && a in ACTIONS && symbol in Outcomes(a)
    requires Acquired(j, sha, namespace, record, counter, a, symbol).Some?
    requires Acquired(j, sha, namespace, record, counter, a, symbol).value.model.posterior.denominator > 0
    ensures FollowsPosterior(TerminalOf(Acquired(j, sha, namespace, record, counter, a, symbol).value, succeeds), a, symbol, succeeds)
  {
    AcquiredIs(j, sha, namespace, record, counter, a, symbol);
    FollowsFrom(Acquired(j, sha, namespace, record, counter, a, symbol).value, a, symbol, succeeds);
  }

  lemma FollowsFrom(p: Pending, a: Action, symbol: int, succeeds: int -> bool)
    requires p.model.posterior.denominator > 0 && Books(p, a, symbol)
    requires PosteriorDirect(a, symbol, 1.0 / 2.0) == Ok(RealOf(p.model.posterior))
    ensures FollowsPosterior(TerminalOf(p, succeeds), a, symbol, succeeds)
  {
    TerminalIs(p, RealOf(p.model.posterior), a.kind, symbol, succeeds);
  }

  // For every action, every outcome of it and every way the decisions turn out, running live and restarting from the
  // checkpoint give the same candidates with the same values, action, return and identities; the values are those of
  // the exact posterior, and the return is the one the draws determine.
  method LiveAndRestoredAgree(j: JsonText, sha: Bytes -> nat, namespace: string, abandoned: nat, a: Action, symbol: int, succeeds: int -> bool)
    returns (live: Option<TerminalTrace>, restored: Option<TerminalTrace>)
    requires ReadsLines(j) && !Blank(namespace) && a in ACTIONS && symbol in Outcomes(a)
    ensures live.Some? && restored == if abandoned <= 7 then live else None
    ensures FollowsPosterior(live.value, a, symbol, succeeds)
  {
    var source := new IdentitySource(namespace, 0);
    var acquisition, receipt := AcquisitionPhase(source, abandoned);
    AcquiredIs(j, sha, namespace, acquisition.record, source.next, a, symbol);
    var p := Acquired(j, sha, namespace, acquisition.record, source.next, a, symbol).value;
    LoadDump(j, p);
    AcquiredFollows(j, sha, namespace, acquisition.record, source.next, a, symbol, succeeds);
    var checkpoint;
    checkpoint, live := ContinueLive(j, sha, source, p, succeeds);
    restored := ContinueRestored(j, sha, ComponentsOf(sha, checkpoint.value), checkpoint.value, succeeds);
  }

  // ---------------------------------------------------------------- what the auditor expects

  // The eleven terminal identities it recomputes from the checkpoint's counter.
  predicate AuditorAccepts(ids: InteractionIds, namespace: string, counter: nat) {
    && counter == PRETERMINAL && |ids.candidates| == 2
    && ids.candidates[0].prediction == Identity(namespace, PredictionOf(Exploit(true)), counter)
    && ids.candidates[0].assessment == Identity(namespace, AssessmentOf(Exploit(true)), counter + 4)
    && ids.candidates[1].prediction == Identity(namespace, PredictionOf(Exploit(false)), counter + 5)
    && ids.candidates[1].assessment == Identity(namespace, AssessmentOf(Exploit(false)), counter + 9)
    && ids.intention == Identity(namespace, Intention(Terminal), counter + 10)
    && ids.decision == Identity(namespace, Decision(Terminal), counter + 11)
    && ids.step.execution == Identity(namespace, Execution(Terminal), counter + 12)
    && ids.step.observation == Identity(namespace, Observation(Terminal), counter + 13)
    && ids.step.outcome == Identity(namespace, Outcome(Terminal), counter + 15)
    && ids.record.experience == Identity(namespace, Experience, counter + 16)
    && ids.record.transition == Identity(namespace, Transition, counter + 24)
  }

  // A terminal step from a counter is accepted exactly when no learning attempt was abandoned before it.
  lemma AuditorAcceptsExactly(p: Pending, succeeds: int -> bool, abandoned: nat)
    requires p.counter == PRETERMINAL + PER_LEARNING * abandoned && p.model.posterior.denominator > 0
    ensures AuditorAccepts(TerminalOf(p, succeeds).ids, p.namespace, p.counter) <==> abandoned == 0
  {
  }
}
