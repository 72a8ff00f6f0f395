/** The exact oracle of the two-stage hidden-actuator problem (oracle.py), over every real prior, and the tables the
    auditor holds for the prior one half (q1_audit.py). */
module Oracle {
  import opened Wrappers

  datatype Kind = Skip | Weak | Strong | Overpowered | Nuisance

  // `command` is 1 or -1 for a pulse and 0 otherwise.
  datatype Action = Action(kind: Kind, command: int)

  datatype TerminalAction = Direct | Reversed

  datatype OracleError = BadPrior | UnknownOutcome | ZeroProbability

  const SKIP := Action(Skip, 0)
  const WEAK := Action(Weak, 1)
  const STRONG := Action(Strong, 1)
  const OVERPOWERED := Action(Overpowered, 1)
  const NUISANCE := Action(Nuisance, 0)

  const ACTIONS: seq<Action> := [SKIP, WEAK, STRONG, OVERPOWERED, NUISANCE]

  const RELIABILITY: real := 9.0 / 10.0

  predicate IsPulse(a: Action) { a.kind.Weak? || a.kind.Strong? || a.kind.Overpowered? }

  predicate Declared(a: Action) {
    if IsPulse(a) then a.command == 1 || a.command == -1 else a.command == 0
  }

  predicate IsPrior(p: real) { 0.0 <= p <= 1.0 }

  // ---------------------------------------------------------------- the declared problem

  function Accuracy(kind: Kind): real {
    match kind case Weak => 7.0 / 10.0 case Strong => 9.0 / 10.0 case Overpowered => 1.0 case _ => 1.0 / 2.0
  }

  // The rows P(outcome | reversed) and P(outcome | direct).
  function Likelihoods(a: Action): (r: (seq<real>, seq<real>))
    ensures |r.0| == |r.1| == |Outcomes(a)|
  {
    match a.kind
    case Skip => ([1.0], [1.0])
    case Nuisance => ([0.25, 0.25, 0.25, 0.25], [0.25, 0.25, 0.25, 0.25])
    case _ =>
      var accuracy := Accuracy(a.kind);
      var error := 1.0 - accuracy;
      if a.command == 1 then ([accuracy, error], [error, accuracy]) else ([error, accuracy], [accuracy, error])
  }

  function Outcomes(a: Action): seq<int> {
    match a.kind case Skip => [0] case Nuisance => [0, 1, 2, 3] case _ => [-1, 1]
  }

  function ActionCost(kind: Kind): real {
    match kind case Weak => 53.0 / 100.0 case Strong => 29.0 / 50.0 case Overpowered => 19.0 / 20.0 case _ => 0.0
  }

  function AcquisitionCost(kind: Kind): real {
    if kind == Nuisance then 1.0 / 100.0 else 0.0
  }

  function Max(x: real, y: real): real { if x >= y then x else y }

  function ExpectedTerminalPayoff(t: TerminalAction, p: real): real {
    if t == Direct then p * RELIABILITY + (1.0 - p) * (1.0 - RELIABILITY)
    else (1.0 - p) * RELIABILITY + p * (1.0 - RELIABILITY)
  }

  function TerminalValue(p: real): real {
    Max(ExpectedTerminalPayoff(Direct, p), ExpectedTerminalPayoff(Reversed, p))
  }

  // Terminal value is a tenth plus four fifths of the likelier regime's probability.
  lemma TerminalValueIs(p: real)
    ensures TerminalValue(p) == 1.0 / 10.0 + 4.0 / 5.0 * Max(p, 1.0 - p)
  {
  }

  // ---------------------------------------------------------------- Bayes' rule

  function IndexOf(outcomes: seq<int>, outcome: int): Option<nat>
    ensures IndexOf(outcomes, outcome).Some? ==> IndexOf(outcomes, outcome).value < |outcomes| && outcomes[IndexOf(outcomes, outcome).value] == outcome
    ensures IndexOf(outcomes, outcome).None? <==> outcome !in outcomes
  {
    if outcomes == [] then None
    else if outcomes[0] == outcome then Some(0)
    else match IndexOf(outcomes[1..], outcome) case None => None case Some(i) => Some(i + 1)
  }

  function Joint(a: Action, p: real, i: nat): real
    requires i < |Outcomes(a)|
  {
    p * Likelihoods(a).1[i]
  }

  function Evidence(a: Action, p: real, i: nat): real
    requires i < |Outcomes(a)|
  {
    Joint(a, p, i) + (1.0 - p) * Likelihoods(a).0[i]
  }

  function PosteriorDirect(a: Action, outcome: int, p: real): Result<real, OracleError> {
    if !IsPrior(p) then Err(BadPrior)
    else match IndexOf(Outcomes(a), outcome)
      case None => Err(UnknownOutcome)
      case Some(i) => if Evidence(a, p, i) == 0.0 then Err(ZeroProbability) else Ok(Joint(a, p, i) / Evidence(a, p, i))
  }

  // An outcome that a perfect probe rules out under a certain prior.
  predicate RuledOut(a: Action, outcome: int, p: real) {
    a.kind.Overpowered? && ((p == 1.0 && outcome == -a.command) || (p == 0.0 && outcome == a.command))
  }

  // Conditioning fails exactly on a prior outside [0, 1], an outcome the action does not have, or one that is ruled
  // out; otherwise the posterior is a probability.
  lemma PosteriorExactly(a: Action, outcome: int, p: real)
    requires Declared(a)
    ensures PosteriorDirect(a, outcome, p).Err? <==> !IsPrior(p) || outcome !in Outcomes(a) || RuledOut(a, outcome, p)
    ensures PosteriorDirect(a, outcome, p).Ok? ==> IsPrior(PosteriorDirect(a, outcome, p).value)
  {
    if IsPrior(p) && outcome in Outcomes(a) {
      var i := IndexOf(Outcomes(a), outcome).value;
      EvidenceCovers(a, i, p);
      if Evidence(a, p, i) > 0.0 {
        QuotientIsProbability(Joint(a, p, i), Evidence(a, p, i));
      }
      ZeroEvidence(a, i, p);
    }
  }

  lemma EvidenceCovers(a: Action, i: nat, p: real)
    requires IsPrior(p) && i < |Outcomes(a)|
    ensures 0.0 <= Joint(a, p, i) <= Evidence(a, p, i)
  {
    RowsAreProbabilities(a, i);
    EvidenceBounds(p, Likelihoods(a).1[i], Likelihoods(a).0[i]);
  }

  lemma EvidenceBounds(p: real, direct: real, reversed: real)
    requires IsPrior(p) && direct >= 0.0 && reversed >= 0.0
    ensures 0.0 <= p * direct <= p * direct + (1.0 - p) * reversed
  {
  }

  lemma ZeroEvidence(a: Action, i: nat, p: real)
    requires Declared(a) && IsPrior(p) && i < |Outcomes(a)|
    ensures Evidence(a, p, i) == 0.0 <==> RuledOut(a, Outcomes(a)[i], p)
  {
    var direct, reversed := Likelihoods(a).1[i], Likelihoods(a).0[i];
    if a.kind.Overpowered? {
      assert (direct == 1.0 && reversed == 0.0 && Outcomes(a)[i] == a.command)
          || (direct == 0.0 && reversed == 1.0 && Outcomes(a)[i] == -a.command);
    } else {
      Positive(p, direct, reversed);
    }
  }

  lemma Positive(p: real, direct: real, reversed: real)
    requires IsPrior(p) && direct > 0.0 && reversed > 0.0
    ensures p * direct + (1.0 - p) * reversed > 0.0
  {
    if p > 0.0 { assert p * direct > 0.0; } else { assert (1.0 - p) * reversed == reversed; }
    assert (1.0 - p) * reversed >= 0.0;
  }

  lemma QuotientIsProbability(x: real, y: real)
    requires 0.0 <= x <= y && y > 0.0
    ensures 0.0 <= x / y <= 1.0
  {
  }

  lemma RowsAreProbabilities(a: Action, i: nat)
    requires i < |Outcomes(a)|
    ensures 0.0 <= Likelihoods(a).0[i] <= 1.0 && 0.0 <= Likelihoods(a).1[i] <= 1.0
  {
  }

  // ---------------------------------------------------------------- evaluation of one action

  datatype Evaluation = Evaluation(
    probabilities: seq<real>, immediate: real, priorValue: real, after: real, decisionValue: real,
    actionCost: real, acquisitionCost: real, netIncrement: real, episodeValue: real)

  function Scaled(c: real, s: seq<real>): (r: seq<real>)
    ensures |r| == |s|
  {
    seq(|s|, i requires 0 <= i < |s| => c * s[i])
  }

  // The joint probabilities of each outcome with the direct and with the reversed regime.
  function Joints(a: Action, p: real): (r: (seq<real>, seq<real>))
    ensures |r.0| == |r.1| == |Outcomes(a)|
  {
    (Scaled(p, Likelihoods(a).1), Scaled(1.0 - p, Likelihoods(a).0))
  }

  // One outcome's share of the expected terminal value.
  function Share(joint: real, evidence: real): real
    requires evidence != 0.0
  {
    evidence * TerminalValue(joint / evidence)
  }

  function AfterAt(joint: real, evidence: real): real {
    if evidence == 0.0 then 0.0 else Share(joint, evidence)
  }

  // Sums over the outcomes of positive probability from i on, given the joint probabilities j and k.
  function AfterFrom(j: seq<real>, k: seq<real>, i: nat): real
    requires i <= |j| == |k|
    decreases |j| - i
  {
    if i == |j| then 0.0 else AfterAt(j[i], j[i] + k[i]) + AfterFrom(j, k, i + 1)
  }

  function PosteriorAt(joint: real, evidence: real): real {
    if evidence == 0.0 then 0.0 else evidence * (joint / evidence)
  }

  function PosteriorFrom(j: seq<real>, k: seq<real>, i: nat): real
    requires i <= |j| == |k|
    decreases |j| - i
  {
    if i == |j| then 0.0 else PosteriorAt(j[i], j[i] + k[i]) + PosteriorFrom(j, k, i + 1)
  }

  // The probability of the outcome that pays at once, from i on.
  function ImmediateFrom(j: seq<real>, k: seq<real>, outcomes: seq<int>, pulse: bool, i: nat): real
    requires i <= |j| == |k| == |outcomes|
    decreases |j| - i
  {
    if i == |j| then 0.0
    else (if pulse && outcomes[i] == 1 then j[i] + k[i] else 0.0) + ImmediateFrom(j, k, outcomes, pulse, i + 1)
  }

  function ExpectedAfter(a: Action, p: real): real { AfterFrom(Joints(a, p).0, Joints(a, p).1, 0) }
  function ExpectedPosterior(a: Action, p: real): real { PosteriorFrom(Joints(a, p).0, Joints(a, p).1, 0) }
  function DecisionValue(a: Action, p: real): real { ExpectedAfter(a, p) - TerminalValue(p) }

  function Immediate(a: Action, p: real): real {
    ImmediateFrom(Joints(a, p).0, Joints(a, p).1, Outcomes(a), IsPulse(a), 0)
  }

  function EpisodeValue(a: Action, p: real): real {
    TerminalValue(p) + (Immediate(a, p) + DecisionValue(a, p) - ActionCost(a.kind) - AcquisitionCost(a.kind))
  }

  // Enumerates the outcomes, skipping those of probability zero.
  method Enumerate(reversed: seq<real>, direct: seq<real>, outcomes: seq<int>, pulse: bool, p: real)
    returns (after: real, immediate: real)
    requires |direct| == |reversed| == |outcomes|
    ensures after == AfterFrom(Scaled(p, direct), Scaled(1.0 - p, reversed), 0)
    ensures immediate == ImmediateFrom(Scaled(p, direct), Scaled(1.0 - p, reversed), outcomes, pulse, 0)
  {
    var j, k := Scaled(p, direct), Scaled(1.0 - p, reversed);
    after, immediate := 0.0, 0.0;
    for i := 0 to |outcomes|
      invariant after + AfterFrom(j, k, i) == AfterFrom(j, k, 0)
      invariant immediate + ImmediateFrom(j, k, outcomes, pulse, i) == ImmediateFrom(j, k, outcomes, pulse, 0)
    {
      var probability := j[i] + k[i];
      if probability != 0.0 {
        after := after + Share(j[i], probability);
        if pulse && outcomes[i] == 1 {
          immediate := immediate + probability;
        }
      }
    }
  }

  method Evaluate(a: Action, p: real) returns (r: Result<Evaluation, OracleError>)
    ensures r.Ok? <==> IsPrior(p)
    ensures r.Err? ==> r.error == BadPrior
    ensures r.Ok? ==>
      && r.value.probabilities == Probabilities(a, p)
      && r.value.immediate == Immediate(a, p) && r.value.priorValue == TerminalValue(p)
      && r.value.after == ExpectedAfter(a, p) && r.value.decisionValue == DecisionValue(a, p)
      && r.value.netIncrement == r.value.episodeValue - r.value.priorValue
      && r.value.episodeValue == EpisodeValue(a, p)
  {
    if !IsPrior(p) {
      return Err(BadPrior);
    }
    var (reversed, direct) := Likelihoods(a);
    var after, immediate := Enumerate(reversed, direct, Outcomes(a), IsPulse(a), p);
    var priorValue := TerminalValue(p);
    var decisionValue := after - priorValue;
    var net := immediate + decisionValue - ActionCost(a.kind) - AcquisitionCost(a.kind);
    return Ok(Evaluation(Probabilities(a, p), immediate, priorValue, after, decisionValue, ActionCost(a.kind),
                         AcquisitionCost(a.kind), net, priorValue + net));
  }

  function Probabilities(a: Action, p: real): seq<real> {
    seq(|Outcomes(a)|, i requires 0 <= i < |Outcomes(a)| => Evidence(a, p, i))
  }

  // ---------------------------------------------------------------- value of information, for every table

  predicate NonNegative(s: seq<real>) {
    forall i | 0 <= i < |s| :: s[i] >= 0.0
  }

  function SumFrom(s: seq<real>, i: nat): real
    requires i <= |s|
    decreases |s| - i
  {
    if i == |s| then 0.0 else s[i] + SumFrom(s, i + 1)
  }

  lemma {:induction false} ScaledSum(c: real, s: seq<real>, i: nat)
    requires i <= |s|
    ensures SumFrom(Scaled(c, s), i) == c * SumFrom(s, i)
    decreases |s| - i
  {
    if i < |s| {
      ScaledSum(c, s, i + 1);
      Distribute(c, s[i], SumFrom(s, i + 1));
    }
  }

  lemma Distribute(c: real, x: real, y: real)
    ensures c * (x + y) == c * x + c * y
  {
  }

  // What an outcome adds is a tenth of its probability and four fifths of its likelier joint probability.
  lemma ShareIs(joint: real, other: real)
    requires 0.0 <= joint && 0.0 <= other
    ensures AfterAt(joint, joint + other) == 1.0 / 10.0 * (joint + other) + 4.0 / 5.0 * Max(joint, other)
  {
    var evidence := joint + other;
    if evidence > 0.0 {
      var q := joint / evidence;
      TerminalValueIs(q);
      ShareProducts(evidence, q, joint, Max(q, 1.0 - q));
      Scale(evidence, q, 1.0 - q);
    }
  }

  lemma ShareProducts(evidence: real, q: real, joint: real, m: real)
    requires evidence > 0.0 && q == joint / evidence
    ensures evidence * q == joint && evidence * (1.0 - q) == evidence - joint
    ensures evidence * (1.0 / 10.0 + 4.0 / 5.0 * m) == 1.0 / 10.0 * evidence + 4.0 / 5.0 * (evidence * m)
  {
    assert evidence * q == joint;
    Distribute(evidence, q, 1.0 - q);
    Distribute(evidence, 1.0 / 10.0, 4.0 / 5.0 * m);
  }

  lemma Scale(c: real, x: real, y: real)
    requires c > 0.0
    ensures c * Max(x, y) == Max(c * x, c * y)
  {
    if x >= y {
      Product(c, x - y);
      Distribute(c, x - y, y);
    } else {
      Product(c, y - x);
      Distribute(c, y - x, x);
    }
  }

  // The value of deciding at once with weights j and k.
  function ValueOf(j: real, k: real): real { 1.0 / 10.0 * (j + k) + 4.0 / 5.0 * Max(j, k) }

  // The terminal value expected after observing is never below the value of deciding on the sums.
  lemma {:induction false} InformationNeverHurts(j: seq<real>, k: seq<real>, i: nat)
    requires NonNegative(j) && NonNegative(k) && i <= |j| == |k|
    ensures AfterFrom(j, k, i) >= ValueOf(SumFrom(j, i), SumFrom(k, i))
    decreases |j| - i
  {
    if i < |j| {
      InformationNeverHurts(j, k, i + 1);
      ShareIs(j[i], k[i]);
    }
  }

  // The expected posterior is the prior.
  lemma {:induction false} PosteriorsAverage(j: seq<real>, k: seq<real>, i: nat)
    requires NonNegative(j) && NonNegative(k) && i <= |j| == |k|
    ensures PosteriorFrom(j, k, i) == SumFrom(j, i)
    decreases |j| - i
  {
    if i < |j| {
      PosteriorsAverage(j, k, i + 1);
      WeightedQuotient(j[i], j[i] + k[i]);
    }
  }

  lemma WeightedQuotient(joint: real, evidence: real)
    requires 0.0 <= joint <= evidence
    ensures PosteriorAt(joint, evidence) == joint
  {
  }

  // ---------------------------------------------------------------- the declared actions, for every prior

  lemma ScaledNonNegative(c: real, s: seq<real>)
    requires c >= 0.0 && NonNegative(s)
    ensures NonNegative(Scaled(c, s))
  {
    forall i | 0 <= i < |s| ensures Scaled(c, s)[i] >= 0.0 {
      Product(c, s[i]);
    }
  }

  lemma Product(c: real, x: real)
    requires c >= 0.0 && x >= 0.0
    ensures c * x >= 0.0
  {
  }

  lemma RowsNonNegative(a: Action)
    ensures NonNegative(Likelihoods(a).0) && NonNegative(Likelihoods(a).1)
  {
    forall i | 0 <= i < |Outcomes(a)| ensures Likelihoods(a).0[i] >= 0.0 && Likelihoods(a).1[i] >= 0.0 {
      RowsAreProbabilities(a, i);
    }
  }

  lemma JointsFine(a: Action, p: real)
    requires IsPrior(p) && Declared(a)
    ensures NonNegative(Joints(a, p).0) && NonNegative(Joints(a, p).1)
    ensures SumFrom(Joints(a, p).0, 0) == p && SumFrom(Joints(a, p).1, 0) == 1.0 - p
  {
    var rows := Likelihoods(a);
    RowsNonNegative(a);
    ScaledNonNegative(p, rows.1);
    ScaledNonNegative(1.0 - p, rows.0);
    ScaledSum(p, rows.1, 0);
    ScaledSum(1.0 - p, rows.0, 0);
    RowSums(a);
  }

  lemma RowSums(a: Action)
    ensures SumFrom(Likelihoods(a).0, 0) == 1.0 && SumFrom(Likelihoods(a).1, 0) == 1.0
  {
    var (reversed, direct) := Likelihoods(a);
    match a.kind
    case Skip =>
      assert SumFrom(direct, 1) == 0.0 && SumFrom(reversed, 1) == 0.0;
    case Nuisance =>
      assert SumFrom(direct, 4) == 0.0 && SumFrom(direct, 3) == 0.25 && SumFrom(direct, 2) == 0.5 && SumFrom(direct, 1) == 0.75;
      assert SumFrom(reversed, 4) == 0.0 && SumFrom(reversed, 3) == 0.25 && SumFrom(reversed, 2) == 0.5 && SumFrom(reversed, 1) == 0.75;
    case _ =>
      assert SumFrom(direct, 2) == 0.0 && SumFrom(direct, 1) == direct[1];
      assert SumFrom(reversed, 2) == 0.0 && SumFrom(reversed, 1) == reversed[1];
  }

  // For every action and prior, beliefs are a martingale and information has no negative value.
  lemma InformationIsFair(a: Action, p: real)
    requires IsPrior(p) && Declared(a)
    ensures ExpectedPosterior(a, p) == p && DecisionValue(a, p) >= 0.0
  {
    JointsFine(a, p);
    PosteriorsAverage(Joints(a, p).0, Joints(a, p).1, 0);
    InformationNeverHurts(Joints(a, p).0, Joints(a, p).1, 0);
    TerminalValueIs(p);
  }

  // What a probe of accuracy q adds to a prior p.
  function ProbeValue(q: real, p: real): real { 4.0 / 5.0 * Max(0.0, q - Max(p, 1.0 - p)) }

  // The joint probabilities of a pulse: the outcome that agrees with its sign, and the one that does not.
  lemma PulseJoints(a: Action, p: real)
    requires IsPulse(a) && Declared(a)
    ensures var (j, k) := Joints(a, p); var right := if a.command == 1 then 1 else 0;
      |j| == |k| == 2 &&
      match a.kind
      case Weak => j[right] == 0.7 * p && k[right] == 0.3 * (1.0 - p) && j[1 - right] == 0.3 * p && k[1 - right] == 0.7 * (1.0 - p)
      case Strong => j[right] == 0.9 * p && k[right] == 0.1 * (1.0 - p) && j[1 - right] == 0.1 * p && k[1 - right] == 0.9 * (1.0 - p)
      case _ => j[right] == p && k[right] == 0.0 && j[1 - right] == 0.0 && k[1 - right] == 1.0 - p
  {
  }

  lemma AfterTwo(j: seq<real>, k: seq<real>)
    requires |j| == |k| == 2 && NonNegative(j) && NonNegative(k)
    ensures AfterFrom(j, k, 0) == ValueOf(j[0], k[0]) + ValueOf(j[1], k[1])
  {
    ShareIs(j[0], k[0]);
    ShareIs(j[1], k[1]);
    assert AfterFrom(j, k, 2) == 0.0;
    assert AfterFrom(j, k, 1) == ValueOf(j[1], k[1]);
  }

  // Outcomes that do not tell the regimes apart share the value of the prior evenly.
  lemma {:induction false} AfterEven(j: seq<real>, k: seq<real>, x: real, y: real, i: nat)
    requires i <= |j| == |k| && x >= 0.0 && y >= 0.0 && forall n | 0 <= n < |j| :: j[n] == x && k[n] == y
    ensures AfterFrom(j, k, i) == (|j| - i) as real * ValueOf(x, y)
    decreases |j| - i
  {
    if i < |j| {
      AfterEven(j, k, x, y, i + 1);
      ShareIs(x, y);
    }
  }

  // Skipping and scanning add nothing; a pulse of accuracy q adds 4/5 of what q exceeds the likelier regime by,
  // whichever its sign.
  lemma DecisionValueIs(a: Action, p: real)
    requires IsPrior(p) && Declared(a)
    ensures DecisionValue(a, p) == if IsPulse(a) then ProbeValue(Accuracy(a.kind), p) else 0.0
  {
    JointsFine(a, p);
    TerminalValueIs(p);
    if IsPulse(a) {
      PulseJoints(a, p);
      AfterTwo(Joints(a, p).0, Joints(a, p).1);
    } else {
      EvenJoints(a, p);
    }
  }

  lemma EvenJoints(a: Action, p: real)
    requires IsPrior(p) && !IsPulse(a)
    ensures ExpectedAfter(a, p) == ValueOf(p, 1.0 - p)
  {
    if a.kind.Skip? {
      AfterEven(Joints(a, p).0, Joints(a, p).1, p, 1.0 - p, 0);
    } else {
      AfterEven(Joints(a, p).0, Joints(a, p).1, 0.25 * p, 0.25 * (1.0 - p), 0);
    }
  }

  // A better probe is worth at least as much, and a perfect one always reaches the best terminal value.
  lemma BetterProbesAreWorthMore(sign: int, p: real)
    requires IsPrior(p) && (sign == 1 || sign == -1)
    ensures DecisionValue(Action(Weak, sign), p) <= DecisionValue(Action(Strong, sign), p) <= DecisionValue(Action(Overpowered, sign), p)
    ensures ExpectedAfter(Action(Overpowered, sign), p) == RELIABILITY
  {
    DecisionValueIs(Action(Weak, sign), p);
    DecisionValueIs(Action(Strong, sign), p);
    DecisionValueIs(Action(Overpowered, sign), p);
    TerminalValueIs(p);
  }

  // ---------------------------------------------------------------- the optimal policy

  // A positive pulse pays at once when its outcome is 1.
  lemma ImmediateIs(a: Action, p: real)
    requires Declared(a) && a.command != -1
    ensures Immediate(a, p) == match a.kind
      case Weak => 0.7 * p + 0.3 * (1.0 - p)
      case Strong => 0.9 * p + 0.1 * (1.0 - p)
      case Overpowered => p
      case _ => 0.0
  {
    var (j, k) := Joints(a, p);
    if IsPulse(a) {
      PulseJoints(a, p);
      assert ImmediateFrom(j, k, [-1, 1], true, 2) == 0.0;
      assert ImmediateFrom(j, k, [-1, 1], true, 1) == j[1] + k[1];
    } else {
      NothingImmediate(j, k, Outcomes(a), 0);
    }
  }

  lemma {:induction false} NothingImmediate(j: seq<real>, k: seq<real>, outcomes: seq<int>, i: nat)
    requires i <= |j| == |k| == |outcomes|
    ensures ImmediateFrom(j, k, outcomes, false, i) == 0.0
    decreases |j| - i
  {
    if i < |j| {
      NothingImmediate(j, k, outcomes, i + 1);
    }
  }

  // The value of an episode that starts with each action, in closed form.
  lemma EpisodeValueIs(a: Action, p: real)
    requires IsPrior(p) && a in ACTIONS
    ensures EpisodeValue(a, p) == TerminalValue(p) + match a.kind
      case Skip => 0.0
      case Weak => 0.7 * p + 0.3 * (1.0 - p) + ProbeValue(0.7, p) - 0.53
      case Strong => 0.9 * p + 0.1 * (1.0 - p) + ProbeValue(0.9, p) - 0.58
      case Overpowered => p + ProbeValue(1.0, p) - 0.95
      case Nuisance => -0.01
  {
    DecisionValueIs(a, p);
    ImmediateIs(a, p);
  }

  // Skipping is best up to 7/20, where it ties with the strong pulse; the strong pulse is best above.
  lemma StrongBeyondThreshold(a: Action, p: real)
    requires IsPrior(p) && a in ACTIONS
    ensures p <= 7.0 / 20.0 ==> EpisodeValue(a, p) <= EpisodeValue(SKIP, p)
    ensures p > 7.0 / 20.0 ==> a == STRONG || EpisodeValue(a, p) < EpisodeValue(STRONG, p)
    ensures p == 7.0 / 20.0 ==> EpisodeValue(STRONG, p) == EpisodeValue(SKIP, p)
  {
    EpisodeValueIs(a, p);
    EpisodeValueIs(SKIP, p);
    EpisodeValueIs(STRONG, p);
    TerminalValueIs(p);
  }

  method Decide(p: real) returns (r: Result<Action, OracleError>)
    ensures r == if !IsPrior(p) then Err(BadPrior) else Ok(if p <= 7.0 / 20.0 then SKIP else STRONG)
  {
    var best, value := SKIP, 0.0;
    for i := 0 to |ACTIONS|
      invariant i > 0 ==> IsPrior(p) && best in ACTIONS && value == EpisodeValue(best, p)
      invariant i > 0 ==> exists k | 0 <= k < i :: ACTIONS[k] == best && Leads(k, i, p)
    {
      var e := Evaluate(ACTIONS[i], p);
      if e.Err? {
        return Err(e.error);
      }
      if i == 0 || e.value.episodeValue > value {
        best, value := ACTIONS[i], e.value.episodeValue;
        assert Leads(i, i + 1, p);
      }
    }
    var k :| 0 <= k < |ACTIONS| && ACTIONS[k] == best && Leads(k, |ACTIONS|, p);
    FirstBest(k, p);
    return Ok(best);
  }

  // Action k is the first maximum among the first n.
  predicate Leads(k: nat, n: nat, p: real)
    requires k < n <= |ACTIONS|
  {
    && (forall j | 0 <= j < k :: EpisodeValue(ACTIONS[j], p) < EpisodeValue(ACTIONS[k], p))
    && forall j | k < j < n :: EpisodeValue(ACTIONS[j], p) <= EpisodeValue(ACTIONS[k], p)
  }

  lemma FirstBest(k: nat, p: real)
    requires IsPrior(p) && k < |ACTIONS| && Leads(k, |ACTIONS|, p)
    ensures ACTIONS[k] == if p <= 7.0 / 20.0 then SKIP else STRONG
  {
    StrongBeyondThreshold(ACTIONS[k], p);
    assert ACTIONS[0] == SKIP && ACTIONS[2] == STRONG;
  }

  // ---------------------------------------------------------------- the auditor's tables

  // Its posterior after an observation, written for the prior one half; None where it raises.
  function AuditorPosterior(kind: Kind, outcome: int): Option<real> {
    if kind.Skip? || kind.Nuisance? then Some(1.0 / 2.0)
    else if outcome == 1 then Some(Accuracy(kind))
    else if outcome == -1 then Some(1.0 - Accuracy(kind))
    else None
  }

  // It agrees with Bayes' rule on every outcome of every candidate action.
  lemma AuditorPosteriorIsBayes(a: Action, outcome: int)
    requires a in ACTIONS && outcome in Outcomes(a)
    ensures PosteriorDirect(a, outcome, 1.0 / 2.0) == Ok(AuditorPosterior(a.kind, outcome).value)
  {
    var i := IndexOf(Outcomes(a), outcome).value;
    RowsAt(a, i);
    HalfPosterior(a, i);
  }

  lemma RowsAt(a: Action, i: nat)
    requires a in ACTIONS && i < |Outcomes(a)|
    ensures var r, d := Likelihoods(a).0[i], Likelihoods(a).1[i];
      if IsPulse(a) then r + d == 1.0 && d == (if Outcomes(a)[i] == 1 then Accuracy(a.kind) else 1.0 - Accuracy(a.kind))
      else r == d > 0.0
  {
  }

  lemma HalfPosterior(a: Action, i: nat)
    requires i < |Outcomes(a)| && Likelihoods(a).0[i] + Likelihoods(a).1[i] > 0.0
    ensures var r, d := Likelihoods(a).0[i], Likelihoods(a).1[i];
      && Evidence(a, 1.0 / 2.0, i) != 0.0
      && (r + d == 1.0 ==> Joint(a, 1.0 / 2.0, i) / Evidence(a, 1.0 / 2.0, i) == d)
      && (r == d ==> Joint(a, 1.0 / 2.0, i) / Evidence(a, 1.0 / 2.0, i) == 1.0 / 2.0)
  {
    var r, d := Likelihoods(a).0[i], Likelihoods(a).1[i];
    var joint, evidence := Joint(a, 1.0 / 2.0, i), Evidence(a, 1.0 / 2.0, i);
    assert joint == d / 2.0 && evidence == (r + d) / 2.0;
    if r + d == 1.0 {
      assert joint == d * evidence;
    }
    if r == d {
      assert joint == 1.0 / 2.0 * evidence;
    }
  }

  // Its expected episode values and decision values are the oracle's at one half.
  lemma AuditorTablesAreExact(a: Action)
    requires a in ACTIONS
    ensures EpisodeValue(a, 1.0 / 2.0) == match a.kind
      case Skip => 1.0 / 2.0 case Weak => 63.0 / 100.0 case Strong => 37.0 / 50.0
      case Overpowered => 9.0 / 20.0 case Nuisance => 49.0 / 100.0
    ensures DecisionValue(a, 1.0 / 2.0) == match a.kind
      case Weak => 4.0 / 25.0 case Strong => 8.0 / 25.0 case Overpowered => 2.0 / 5.0 case _ => 0.0
    ensures Immediate(a, 1.0 / 2.0) == if IsPulse(a) then 1.0 / 2.0 else 0.0
  {
    EpisodeValueIs(a, 1.0 / 2.0);
    DecisionValueIs(a, 1.0 / 2.0);
    ImmediateIs(a, 1.0 / 2.0);
    TerminalValueIs(1.0 / 2.0);
  }
}
