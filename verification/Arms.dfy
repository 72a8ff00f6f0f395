/** Prospect's diagnosis of every acquisition action (problem.py), worked out from its own information values, and the
    action every arm selects by it (runtime_lane.py). */
module Arms {
  import opened Wrappers
  import opened Oracle
  import opened Information

  // ---------------------------------------------------------------- the problem's diagnostics

  datatype Diagnostics = Diagnostics(
    observationEntropy: real, gain: real, decisionValue: real, immediate: real, actionCost: real, acquisitionCost: real,
    priorValue: real, net: real, episodeValue: real)

  function BeliefOf(p: real): (r: seq<real>)
    ensures |r| == 2
  {
    [1.0 - p, p]
  }

  // Hypotheses are ordered as reversed, direct.
  function TableOf(a: Action): (r: seq<seq<real>>)
    ensures |r| == 2 && |r[0]| == |r[1]| == |Outcomes(a)| > 0
  {
    [Likelihoods(a).0, Likelihoods(a).1]
  }

  const UTILITIES: seq<seq<real>> := [[1.0 - RELIABILITY, RELIABILITY], [RELIABILITY, 1.0 - RELIABILITY]]

  function ObservationEntropy(ln: real -> real, a: Action, p: real): real { EntropyFrom(ln, Probabilities(a, p), 0) }
  function Gain(ln: real -> real, a: Action, p: real): real {
    GainOf(ln, BeliefOf(p), TableOf(a))
  }

  // The oracle's quantities, with the entropy of the observation and the information gain.
  function Diagnosis(ln: real -> real, a: Action, p: real): Diagnostics {
    Diagnostics(ObservationEntropy(ln, a, p), Gain(ln, a, p), DecisionValue(a, p), Immediate(a, p), ActionCost(a.kind),
                AcquisitionCost(a.kind), TerminalValue(p), EpisodeValue(a, p) - TerminalValue(p), EpisodeValue(a, p))
  }

  function Assembled(a: Action, entropy: real, information: InformationValue, immediate: real, priorValue: real): Diagnostics {
    var net := immediate + information.net - ActionCost(a.kind);
    Diagnostics(entropy, information.gain, information.decisionValue, immediate, ActionCost(a.kind), information.acquisitionCost,
                priorValue, net, priorValue + net)
  }

  lemma DeclaredIsProper(a: Action, p: real)
    requires Declared(a) && IsPrior(p)
    ensures Proper(BeliefOf(p), TableOf(a)) && Usable(UTILITIES, 2)
  {
    RowSums(a);
    RowsNonNegative(a);
    SumOfTwo(BeliefOf(p));
  }

  lemma SumOfTwo(s: seq<real>)
    requires |s| == 2
    ensures SumFrom(s, 0) == s[0] + s[1]
  {
    assert SumFrom(s, 2) == 0.0;
    assert SumFrom(s, 1) == s[1];
  }

  lemma SamePair(s: seq<real>, t: seq<real>)
    requires |s| == |t| == 2 && s[0] == t[0] && s[1] == t[1]
    ensures s == t
  {
  }

  // The joint probabilities of an outcome with the reversed and with the direct regime are the oracle's.
  lemma WeightsAre(a: Action, p: real, i: nat)
    requires i < |Outcomes(a)|
    ensures Weights(BeliefOf(p), TableOf(a), i) == [Joints(a, p).1[i], Joints(a, p).0[i]]
  {
    SamePair(Weights(BeliefOf(p), TableOf(a), i), [Joints(a, p).1[i], Joints(a, p).0[i]]);
  }

  lemma EvidenceAt(a: Action, p: real, i: nat)
    requires i < |Outcomes(a)|
    ensures |Probabilities(a, p)| == |Outcomes(a)| && Probabilities(a, p)[i] == Joints(a, p).0[i] + Joints(a, p).1[i]
  {
  }

  lemma PredictiveIs(a: Action, p: real)
    requires Declared(a) && IsPrior(p)
    ensures Predictive(BeliefOf(p), TableOf(a)) == Some(Probabilities(a, p)) && Distribution(Probabilities(a, p))
  {
    DeclaredIsProper(a, p);
    ProperIsNormalized(BeliefOf(p), TableOf(a));
    JointsFine(a, p);
    var predictive := Predictive(BeliefOf(p), TableOf(a)).value;
    var s := Probabilities(a, p);
    forall i | 0 <= i < |s| ensures predictive[i] == s[i] == Joints(a, p).0[i] + Joints(a, p).1[i] && s[i] >= 0.0 {
      WeightsAre(a, p, i);
      SumOfTwo(Weights(BeliefOf(p), TableOf(a), i));
      EvidenceAt(a, p, i);
    }
    assert predictive == s;
    SumsAdd(s, Joints(a, p).0, Joints(a, p).1, 0);
  }

  // The probability of the outcome that pays.
  lemma PayingOutcome(a: Action, p: real)
    requires Declared(a) && IsPulse(a)
    ensures |Probabilities(a, p)| == 2 && Immediate(a, p) == Probabilities(a, p)[1]
  {
    EvidenceAt(a, p, 1);
    ImmediateTwo(Joints(a, p).0, Joints(a, p).1, Outcomes(a));
  }

  lemma PayingIndex(a: Action)
    requires IsPulse(a)
    ensures IndexOf(Outcomes(a), 1) == Some(1)
  {
    assert Outcomes(a)[1..] == [1];
  }

  lemma ImmediateTwo(j: seq<real>, k: seq<real>, outcomes: seq<int>)
    requires |j| == |k| == 2 && outcomes == [-1, 1]
    ensures ImmediateFrom(j, k, outcomes, true, 0) == j[1] + k[1]
  {
    assert ImmediateFrom(j, k, outcomes, true, 2) == 0.0;
    assert ImmediateFrom(j, k, outcomes, true, 1) == j[1] + k[1];
  }

  lemma NothingPays(a: Action, p: real)
    requires !IsPulse(a)
    ensures Immediate(a, p) == 0.0
  {
    NothingImmediate(Joints(a, p).0, Joints(a, p).1, Outcomes(a), 0);
  }

  // The predicted probability of a pulse's paying outcome.
  function ExpectedImmediate(a: Action, p: real): real {
    if !IsPulse(a) then 0.0
    else match (Predictive(BeliefOf(p), TableOf(a)), IndexOf(Outcomes(a), 1))
      case (Some(predictive), Some(i)) => if i < |predictive| then predictive[i] else 0.0
      case _ => 0.0
  }

  lemma ExpectedImmediateIs(a: Action, p: real)
    requires Declared(a) && IsPrior(p)
    ensures ExpectedImmediate(a, p) == Immediate(a, p)
  {
    if IsPulse(a) {
      PredictiveIs(a, p);
      PayingIndex(a);
      PayingOutcome(a, p);
    } else {
      NothingPays(a, p);
    }
  }

  // ---------------------------------------------------------------- two hypotheses at a time

  // The belief after an outcome of joint probabilities j and k.
  function Conditioned(j: real, k: real): (r: seq<real>)
    requires j + k > 0.0
    ensures |r| == 2
  {
    [k / (j + k), j / (j + k)]
  }

  function OutcomeEntropy(ln: real -> real, j: real, k: real): real {
    if j + k <= 0.0 then 0.0 else (j + k) * EntropyFrom(ln, Conditioned(j, k), 0)
  }

  lemma PairIs(w: seq<real>, j: real, k: real)
    requires |w| == 2 && w[0] == k && w[1] == j && j + k > 0.0
    ensures SumFrom(w, 0) > 0.0 && Divided(w, SumFrom(w, 0)) == Conditioned(j, k)
  {
    SumOfTwo(w);
    SamePair(Divided(w, SumFrom(w, 0)), Conditioned(j, k));
  }

  lemma PairEntropyAt(ln: real -> real, w: seq<real>, j: real, k: real)
    requires |w| == 2 && w[0] == k && w[1] == j
    ensures EntropyAt(ln, w) == OutcomeEntropy(ln, j, k)
  {
    SumOfTwo(w);
    if j + k > 0.0 {
      PairIs(w, j, k);
    }
  }

  lemma ConditionedIs(j: real, k: real)
    requires j >= 0.0 && k >= 0.0 && j + k > 0.0
    ensures Distribution(Conditioned(j, k)) && Conditioned(j, k)[0] == 1.0 - Conditioned(j, k)[1]
  {
    PairIs([k, j], j, k);
    NormalizedIs([k, j]);
    SumOfTwo(Conditioned(j, k));
  }

  lemma BestIsTerminalValue(belief: seq<real>)
    requires |belief| == 2 && belief[0] == 1.0 - belief[1]
    ensures Usable(UTILITIES, 2) && BestUtility(belief, UTILITIES) == TerminalValue(belief[1])
  {
    DotOfTwo(belief, UTILITIES[0]);
    DotOfTwo(belief, UTILITIES[1]);
    BestOfTwo(belief, UTILITIES);
  }

  lemma DotOfTwo(b: seq<real>, u: seq<real>)
    requires |b| == |u| == 2
    ensures DotFrom(b, u, 0) == b[0] * u[0] + b[1] * u[1]
  {
    assert DotFrom(b, u, 2) == 0.0;
    assert DotFrom(b, u, 1) == b[1] * u[1];
  }

  lemma BestOfTwo(belief: seq<real>, utilities: seq<seq<real>>)
    requires |utilities| == 2 && Usable(utilities, |belief|)
    ensures BestUtility(belief, utilities) == Max(DotFrom(belief, utilities[0], 0), DotFrom(belief, utilities[1], 0))
  {
    BestIsBest(belief, utilities, 0);
    BestIsBest(belief, utilities, 1);
    OneOfTwo(BestDecision(belief, utilities), ExpectedUtilities(belief, utilities));
  }

  lemma OneOfTwo(d: nat, values: seq<real>)
    requires d < |values| == 2
    ensures values[d] == values[0] || values[d] == values[1]
  {
  }

  lemma PairValueAt(w: seq<real>, j: real, k: real)
    requires |w| == 2 && w[0] == k && w[1] == j && j >= 0.0 && k >= 0.0
    ensures Usable(UTILITIES, 2) && ValueAt(w, UTILITIES) == AfterAt(j, j + k)
  {
    SumOfTwo(w);
    if j + k > 0.0 {
      PairIs(w, j, k);
      ConditionedIs(j, k);
      BestIsTerminalValue(Conditioned(j, k));
    }
  }

  // The value after the evidence is the oracle's, outcome by outcome.
  lemma {:induction false} ValuesAre(a: Action, p: real, i: nat)
    requires Declared(a) && IsPrior(p) && i <= |Outcomes(a)|
    ensures Usable(UTILITIES, 2)
    ensures ValueFrom(BeliefOf(p), TableOf(a), UTILITIES, |Outcomes(a)|, i) == AfterFrom(Joints(a, p).0, Joints(a, p).1, i)
    decreases |Outcomes(a)| - i
  {
    if i < |Outcomes(a)| {
      ValuesAre(a, p, i + 1);
      WeightsAre(a, p, i);
      JointsFine(a, p);
      PairValueAt(Weights(BeliefOf(p), TableOf(a), i), Joints(a, p).0[i], Joints(a, p).1[i]);
    }
  }

  lemma DecisionValueIsOracles(a: Action, p: real)
    requires Declared(a) && IsPrior(p)
    ensures Rectangular(TableOf(a), 2) && Usable(UTILITIES, 2)
    ensures DecisionValueOf(BeliefOf(p), TableOf(a), UTILITIES) == DecisionValue(a, p)
  {
    DeclaredIsProper(a, p);
    ValuesAre(a, p, 0);
    BestIsTerminalValue(BeliefOf(p));
  }

  function RemainingPairs(ln: real -> real, j: seq<real>, k: seq<real>, i: nat): real
    requires i <= |j| == |k|
    decreases |j| - i
  {
    if i == |j| then 0.0 else OutcomeEntropy(ln, j[i], k[i]) + RemainingPairs(ln, j, k, i + 1)
  }

  lemma {:induction false} RemainingIs(ln: real -> real, a: Action, p: real, i: nat)
    requires i <= |Outcomes(a)|
    ensures RemainingFrom(ln, BeliefOf(p), TableOf(a), |Outcomes(a)|, i) == RemainingPairs(ln, Joints(a, p).0, Joints(a, p).1, i)
    decreases |Outcomes(a)| - i
  {
    if i < |Outcomes(a)| {
      RemainingIs(ln, a, p, i + 1);
      WeightsAre(a, p, i);
      PairEntropyAt(ln, Weights(BeliefOf(p), TableOf(a), i), Joints(a, p).0[i], Joints(a, p).1[i]);
    }
  }

  lemma EntropyOfTwo(ln: real -> real, s: seq<real>)
    requires |s| == 2
    ensures EntropyFrom(ln, s, 0) == Term(ln, s[0]) + Term(ln, s[1])
  {
    assert EntropyFrom(ln, s, 2) == 0.0;
  }

  // ---------------------------------------------------------------- Prospect's diagnosis is the oracle's

  lemma DiagnosisParts(ln: real -> real, a: Action, p: real)
    requires IsLog(ln) && Declared(a) && IsPrior(p)
    ensures Predictive(BeliefOf(p), TableOf(a)) == Some(Probabilities(a, p))
    ensures Normalized(BeliefOf(p)) == Some(BeliefOf(p)) && NormalizedRows(TableOf(a), 2) == Some(TableOf(a))
    ensures Rectangular(TableOf(a), 2) && Usable(UTILITIES, 2)
    ensures Entropy(ln, Probabilities(a, p)) == Some(ObservationEntropy(ln, a, p))
    ensures Assembled(a, ObservationEntropy(ln, a, p), ValueOfInformation(ln, BeliefOf(p), TableOf(a), UTILITIES, AcquisitionCost(a.kind)),
                      ExpectedImmediate(a, p), TerminalValue(p)) == Diagnosis(ln, a, p)
  {
    DeclaredIsProper(a, p);
    ProperIsNormalized(BeliefOf(p), TableOf(a));
    PredictiveIs(a, p);
    NormalizedIs(Probabilities(a, p));
    ExpectedImmediateIs(a, p);
    InformationIsFair(a, p);
    DecisionValueIsOracles(a, p);
    InformationGainIsNonNegative(ln, BeliefOf(p), TableOf(a));
  }

  // Prospect's diagnosis of an action is the oracle's evaluation of it: refused exactly for a prior outside [0, 1].
  method Diagnose(ln: real -> real, a: Action, p: real) returns (r: Option<Diagnostics>)
    requires IsLog(ln) && Declared(a)
    ensures r == if IsPrior(p) then Some(Diagnosis(ln, a, p)) else None
  {
    if !IsPrior(p) {
      return None;
    }
    var belief, table := BeliefOf(p), TableOf(a);
    DiagnosisParts(ln, a, p);
    var predictive := Predictive(belief, table).value;
    var information := ExpectedValueOfSampleInformation(ln, belief, table, UTILITIES, AcquisitionCost(a.kind));
    return Some(Assembled(a, Entropy(ln, predictive).value, information.value, ExpectedImmediate(a, p), TerminalValue(p)));
  }

  // ---------------------------------------------------------------- entropies of the declared actions

  lemma TermBounds(ln: real -> real, q: real)
    requires IsLog(ln) && 0.0 <= q <= 1.0
    ensures Term(ln, q) >= 0.0
    ensures 0.0 < q < 1.0 ==> Term(ln, q) > 0.0
    ensures Term(ln, q) <= q * ln(2.0) - q + 1.0 / 2.0
  {
    LogOfOne(ln);
    if 0.0 < q {
      LogOfQuotient(ln, 1.0, 2.0);
      Gibbs(ln, q, 1.0, 1.0 / 2.0);
      if q < 1.0 {
        LogIncreases(ln, q, 1.0);
        Positives(q, -ln(q));
      }
    }
  }

  lemma LogOfFour(ln: real -> real)
    requires IsLog(ln)
    ensures ln(1.0 / 2.0) == -ln(2.0) && ln(1.0 / 4.0) == -ln(4.0) && ln(4.0) == 2.0 * ln(2.0) > 0.0
  {
    LogOfOne(ln);
    LogOfQuotient(ln, 1.0, 2.0);
    LogOfQuotient(ln, 1.0, 4.0);
    assert ProductLaw(ln, 2.0, 2.0, 4.0);
    LogIncreases(ln, 1.0, 2.0);
  }

  // The scan's observation is the most uncertain one at every prior.
  lemma ObservationEntropyIs(ln: real -> real, a: Action, p: real)
    requires IsLog(ln) && Declared(a) && IsPrior(p)
    ensures match a.kind
      case Skip => ObservationEntropy(ln, a, p) == 0.0
      case Nuisance => ObservationEntropy(ln, a, p) == ln(4.0)
      case _ => 0.0 <= ObservationEntropy(ln, a, p) <= ln(2.0)
  {
    PredictiveIs(a, p);
    if IsPulse(a) {
      PairEntropy(ln, Probabilities(a, p));
    } else {
      EvenEntropy(ln, a, p);
    }
  }

  lemma EvenEntropy(ln: real -> real, a: Action, p: real)
    requires IsLog(ln) && !IsPulse(a)
    ensures ObservationEntropy(ln, a, p) == if a.kind.Skip? then 0.0 else ln(4.0)
  {
    var s := Probabilities(a, p);
    if a.kind.Skip? {
      LogOfOne(ln);
      assert s[0] == 1.0;
      assert EntropyFrom(ln, s, 1) == 0.0;
    } else {
      LogOfFour(ln);
      QuarterEntropy(ln, s);
    }
  }

  lemma PairEntropy(ln: real -> real, s: seq<real>)
    requires IsLog(ln) && |s| == 2 && Distribution(s)
    ensures 0.0 <= EntropyFrom(ln, s, 0) <= ln(2.0)
    ensures 0.0 < s[0] < 1.0 ==> EntropyFrom(ln, s, 0) > 0.0
    ensures s[0] == 0.0 || s[0] == 1.0 ==> EntropyFrom(ln, s, 0) == 0.0
  {
    LogOfOne(ln);
    SumOfTwo(s);
    EntropyOfTwo(ln, s);
    TermBounds(ln, s[0]);
    TermBounds(ln, s[1]);
    HalvesAdd(s[0], s[1], ln(2.0));
  }

  lemma HalvesAdd(x: real, y: real, l: real)
    requires x + y == 1.0
    ensures (x * l - x + 1.0 / 2.0) + (y * l - y + 1.0 / 2.0) == l
  {
    Distribute(l, x, y);
  }

  lemma QuarterEntropy(ln: real -> real, s: seq<real>)
    requires |s| == 4 && forall i | 0 <= i < 4 :: s[i] == 1.0 / 4.0
    ensures EntropyFrom(ln, s, 0) == -ln(1.0 / 4.0)
  {
    assert EntropyFrom(ln, s, 4) == 0.0;
    assert EntropyFrom(ln, s, 3) == -(1.0 / 4.0 * ln(1.0 / 4.0));
    assert EntropyFrom(ln, s, 2) == 2.0 * -(1.0 / 4.0 * ln(1.0 / 4.0));
    assert EntropyFrom(ln, s, 1) == 3.0 * -(1.0 / 4.0 * ln(1.0 / 4.0));
  }

  // ---------------------------------------------------------------- information gains of the declared actions

  function PriorEntropy(ln: real -> real, p: real): real { EntropyFrom(ln, BeliefOf(p), 0) }

  // An outcome leaves no entropy exactly when it tells the regimes apart.
  lemma EntropyAtBounds(ln: real -> real, j: real, k: real)
    requires IsLog(ln) && j >= 0.0 && k >= 0.0
    ensures OutcomeEntropy(ln, j, k) >= 0.0
    ensures j == 0.0 || k == 0.0 <==> OutcomeEntropy(ln, j, k) == 0.0
  {
    if j + k > 0.0 {
      ConditionedEntropy(ln, j, k);
      ProductSign(j + k, EntropyFrom(ln, Conditioned(j, k), 0));
    }
  }

  lemma ConditionedEntropy(ln: real -> real, j: real, k: real)
    requires IsLog(ln) && j >= 0.0 && k >= 0.0 && j + k > 0.0
    ensures var entropy := EntropyFrom(ln, Conditioned(j, k), 0); entropy >= 0.0 && (entropy == 0.0 <==> j == 0.0 || k == 0.0)
  {
    var s := Conditioned(j, k);
    ConditionedIs(j, k);
    PairEntropy(ln, s);
    SumOfTwo(s);
    QuotientZero(j, j + k);
    QuotientZero(k, j + k);
  }

  lemma QuotientZero(x: real, y: real)
    requires y > 0.0
    ensures x / y == 0.0 <==> x == 0.0
  {
  }

  lemma ProductSign(x: real, y: real)
    requires x > 0.0 && y >= 0.0
    ensures x * y >= 0.0 && (x * y == 0.0 <==> y == 0.0)
  {
  }

  lemma RemainingTwo(ln: real -> real, j: seq<real>, k: seq<real>)
    requires |j| == |k| == 2
    ensures RemainingPairs(ln, j, k, 0) == OutcomeEntropy(ln, j[0], k[0]) + OutcomeEntropy(ln, j[1], k[1])
  {
    assert RemainingPairs(ln, j, k, 2) == 0.0;
    assert RemainingPairs(ln, j, k, 1) == OutcomeEntropy(ln, j[1], k[1]);
  }

  lemma {:induction false} RemainingEven(ln: real -> real, j: seq<real>, k: seq<real>, share: real, i: nat)
    requires i <= |j| == |k| && forall n | 0 <= n < |j| :: OutcomeEntropy(ln, j[n], k[n]) == share
    ensures RemainingPairs(ln, j, k, i) == (|j| - i) as real * share
    decreases |j| - i
  {
    if i < |j| {
      RemainingEven(ln, j, k, share, i + 1);
    }
  }

  // An outcome that does not tell the regimes apart leaves the prior's entropy.
  lemma Indifferent(ln: real -> real, w: real, p: real, j: real, k: real)
    requires w > 0.0 && j == w * p && k == w * (1.0 - p)
    ensures OutcomeEntropy(ln, j, k) == w * PriorEntropy(ln, p)
  {
    assert j + k == w by { Distribute(w, p, 1.0 - p); }
    TimesQuotient(w, j);
    TimesQuotient(w, k);
    SameFactor(w, j / w, p);
    SameFactor(w, k / w, 1.0 - p);
    SamePair(Conditioned(j, k), BeliefOf(p));
  }

  lemma SameFactor(w: real, x: real, y: real)
    requires w > 0.0 && w * x == w * y
    ensures x == y
  {
  }

  // Skipping and scanning tell nothing, the overpowered pulse tells everything, and the others fall short of it
  // unless the prior is certain.
  lemma GainIs(ln: real -> real, a: Action, p: real)
    requires IsLog(ln) && Declared(a) && IsPrior(p)
    ensures 0.0 <= Gain(ln, a, p) <= PriorEntropy(ln, p)
    ensures match a.kind
      case Skip => Gain(ln, a, p) == 0.0
      case Nuisance => Gain(ln, a, p) == 0.0
      case Overpowered => Gain(ln, a, p) == PriorEntropy(ln, p)
      case _ => 0.0 < p < 1.0 ==> Gain(ln, a, p) < PriorEntropy(ln, p)
    ensures PriorEntropy(ln, p) == 0.0 <==> p == 0.0 || p == 1.0
  {
    DeclaredIsProper(a, p);
    InformationGainIsNonNegative(ln, BeliefOf(p), TableOf(a));
    PairEntropy(ln, BeliefOf(p));
    if IsPulse(a) {
      PulseGain(ln, a, p);
    } else {
      EvenGain(ln, a, p);
    }
  }

  lemma GainFromJoints(ln: real -> real, a: Action, p: real)
    ensures Gain(ln, a, p) == PriorEntropy(ln, p) - RemainingPairs(ln, Joints(a, p).0, Joints(a, p).1, 0)
  {
    RemainingIs(ln, a, p, 0);
  }

  lemma PulseGain(ln: real -> real, a: Action, p: real)
    requires IsLog(ln) && Declared(a) && IsPrior(p) && IsPulse(a)
    ensures Gain(ln, a, p) <= PriorEntropy(ln, p)
    ensures a.kind.Overpowered? ==> Gain(ln, a, p) == PriorEntropy(ln, p)
    ensures !a.kind.Overpowered? && 0.0 < p < 1.0 ==> Gain(ln, a, p) < PriorEntropy(ln, p)
  {
    GainFromJoints(ln, a, p);
    var j, k := Joints(a, p).0, Joints(a, p).1;
    JointsFine(a, p);
    RemainingTwo(ln, j, k);
    EntropyAtBounds(ln, j[0], k[0]);
    EntropyAtBounds(ln, j[1], k[1]);
    PulseJointSigns(a, p);
  }

  lemma PulseJointSigns(a: Action, p: real)
    requires Declared(a) && IsPrior(p) && IsPulse(a)
    ensures var (j, k) := Joints(a, p);
      if a.kind.Overpowered? then (j[0] == 0.0 || k[0] == 0.0) && (j[1] == 0.0 || k[1] == 0.0)
      else 0.0 < p < 1.0 ==> j[0] > 0.0 && k[0] > 0.0 && j[1] > 0.0 && k[1] > 0.0
  {
    PulseJoints(a, p);
  }

  lemma EvenGain(ln: real -> real, a: Action, p: real)
    requires !IsPulse(a)
    ensures Gain(ln, a, p) == 0.0
  {
    GainFromJoints(ln, a, p);
    var j, k := Joints(a, p).0, Joints(a, p).1;
    var w := if a.kind.Skip? then 1.0 else 0.25;
    var share := w * PriorEntropy(ln, p);
    forall n | 0 <= n < |j| ensures OutcomeEntropy(ln, j[n], k[n]) == share {
      EvenOutcome(ln, a, p, n);
    }
    RemainingEven(ln, j, k, share, 0);
    SharesFill(a, share, PriorEntropy(ln, p));
  }

  lemma SharesFill(a: Action, share: real, whole: real)
    requires !IsPulse(a) && share == (if a.kind.Skip? then 1.0 else 0.25) * whole
    ensures |Outcomes(a)| as real * share == whole
  {
  }

  lemma EvenOutcome(ln: real -> real, a: Action, p: real, n: nat)
    requires !IsPulse(a) && n < |Outcomes(a)|
    ensures OutcomeEntropy(ln, Joints(a, p).0[n], Joints(a, p).1[n]) == (if a.kind.Skip? then 1.0 else 0.25) * PriorEntropy(ln, p)
  {
    EvenJointAt(a, p, n);
    Indifferent(ln, if a.kind.Skip? then 1.0 else 0.25, p, Joints(a, p).0[n], Joints(a, p).1[n]);
  }

  lemma EvenJointAt(a: Action, p: real, n: nat)
    requires !IsPulse(a) && n < |Outcomes(a)|
    ensures var w := if a.kind.Skip? then 1.0 else 0.25;
      Joints(a, p).0[n] == w * p && Joints(a, p).1[n] == w * (1.0 - p)
  {
  }

  // ---------------------------------------------------------------- what every arm selects

  datatype Arm = Prospect | FractionOracle | GoalOnly | RawObservationEntropy | EigOnly | ShuffledInformation | UniformRandom

  // Whose decision value the shuffled control shows for each action, by position in ACTIONS.
  const SHUFFLED_SOURCE: seq<nat> := [0, 3, 1, 2, 4]

  function GoalScore(row: Diagnostics): real { row.priorValue + row.immediate - row.actionCost - row.acquisitionCost }

  // An arm's score of action i; the oracle's own evaluation comes in `exact`, and the uniform arm has no score.
  function SelectionScore(arm: Arm, rows: seq<Diagnostics>, exact: real, i: nat): Option<real>
    requires |rows| == |ACTIONS| && i < |ACTIONS|
  {
    match arm
    case Prospect => Some(rows[i].episodeValue)
    case FractionOracle => Some(exact)
    case GoalOnly => Some(GoalScore(rows[i]))
    case RawObservationEntropy => Some(rows[i].observationEntropy)
    case EigOnly => Some(rows[i].gain)
    case ShuffledInformation =>
      Some(rows[i].priorValue + rows[i].immediate + rows[SHUFFLED_SOURCE[i]].decisionValue - rows[i].actionCost - rows[i].acquisitionCost)
    case UniformRandom => None
  }

  function Rows(ln: real -> real, p: real): (rows: seq<Diagnostics>)
    ensures |rows| == |ACTIONS|
  {
    seq(|ACTIONS|, i requires 0 <= i < |ACTIONS| => Diagnosis(ln, ACTIONS[i], p))
  }

  function Scores(ln: real -> real, arm: Arm, p: real): (scores: seq<real>)
    requires !arm.UniformRandom?
    ensures |scores| == |ACTIONS|
  {
    seq(|ACTIONS|, i requires 0 <= i < |ACTIONS| => SelectionScore(arm, Rows(ln, p), EpisodeValue(ACTIONS[i], p), i).value)
  }

  // The uniform arm takes the action its public ordinal names, every other arm its first greatest score.
  function Choice(ln: real -> real, arm: Arm, p: real, ordinal: nat): Action
    requires ordinal < |ACTIONS|
  {
    if arm.UniformRandom? then ACTIONS[ordinal] else ACTIONS[FirstMaximum(Scores(ln, arm, p))]
  }

  // Every action is diagnosed whatever the arm; a prior that is no probability is refused.
  method Assess(ln: real -> real, p: real) returns (r: Option<seq<Diagnostics>>)
    requires IsLog(ln)
    ensures r == if IsPrior(p) then Some(Rows(ln, p)) else None
  {
    var rows: seq<Diagnostics> := [];
    for i := 0 to |ACTIONS|
      invariant rows == Rows(ln, p)[..i] && (i > 0 ==> IsPrior(p))
    {
      var row := Diagnose(ln, ACTIONS[i], p);
      if row.None? {
        return None;
      }
      rows := rows + [row.value];
    }
    assert rows == Rows(ln, p);
    return Some(rows);
  }

  // The oracle arm asks the exact oracle for its scores.
  method SelectionScores(ln: real -> real, arm: Arm, rows: seq<Diagnostics>, p: real) returns (scores: seq<real>)
    requires IsPrior(p) && rows == Rows(ln, p) && !arm.UniformRandom?
    ensures scores == Scores(ln, arm, p)
  {
    scores := [];
    for i := 0 to |ACTIONS|
      invariant scores == Scores(ln, arm, p)[..i]
    {
      var exact := ExactValue(ACTIONS[i], p);
      var score := SelectionScore(arm, rows, exact, i).value;
      ScoresAt(ln, arm, p, i);
      scores := scores + [score];
    }
  }

  method ExactValue(a: Action, p: real) returns (value: real)
    requires IsPrior(p)
    ensures value == EpisodeValue(a, p)
  {
    var exact := Evaluate(a, p);
    return exact.value.episodeValue;
  }

  lemma ScoresAt(ln: real -> real, arm: Arm, p: real, i: nat)
    requires !arm.UniformRandom? && i < |ACTIONS|
    ensures Scores(ln, arm, p)[i] == SelectionScore(arm, Rows(ln, p), EpisodeValue(ACTIONS[i], p), i).value
    ensures Scores(ln, arm, p)[..i + 1] == Scores(ln, arm, p)[..i] + [Scores(ln, arm, p)[i]]
  {
  }

  method Select(ln: real -> real, arm: Arm, p: real, ordinal: nat) returns (r: Option<Action>)
    requires IsLog(ln) && ordinal < |ACTIONS|
    ensures r == if IsPrior(p) then Some(Choice(ln, arm, p, ordinal)) else None
  {
    var rows := Assess(ln, p);
    if rows.None? {
      return None;
    }
    if arm.UniformRandom? {
      return Some(ACTIONS[ordinal]);
    }
    var scores := SelectionScores(ln, arm, rows.value, p);
    return Some(ACTIONS[FirstMaximum(scores)]);
  }

  // What the scores come to, at every prior.
  function Selected(arm: Arm, p: real): Action
    requires !arm.UniformRandom?
  {
    match arm
    case Prospect => if p <= 7.0 / 20.0 then SKIP else STRONG
    case FractionOracle => if p <= 7.0 / 20.0 then SKIP else STRONG
    case GoalOnly => if p <= 23.0 / 40.0 then SKIP else if p <= 5.0 / 8.0 then WEAK else STRONG
    case RawObservationEntropy => NUISANCE
    case EigOnly => if 0.0 < p < 1.0 then OVERPOWERED else SKIP
    case ShuffledInformation => if p <= 23.0 / 120.0 then SKIP else if p <= 7.0 / 8.0 then WEAK else STRONG
  }

  // The action frozen for every arm, in the producer and again in the auditor.
  function FrozenAction(arm: Arm): Action
    requires !arm.UniformRandom?
  {
    match arm
    case Prospect => STRONG
    case FractionOracle => STRONG
    case GoalOnly => SKIP
    case RawObservationEntropy => NUISANCE
    case EigOnly => OVERPOWERED
    case ShuffledInformation => WEAK
  }

  lemma IsFirstMaximum(s: seq<real>, k: nat)
    requires k < |s| && (forall i | 0 <= i < k :: s[i] < s[k]) && forall i | k <= i < |s| :: s[i] <= s[k]
    ensures FirstMaximum(s) == k
  {
    var m := FirstMaximum(s);
    assert s[m] <= s[k] && s[k] <= s[m];
  }

  // The index in ACTIONS of what is selected.
  function Ordinal(a: Action): nat {
    match a.kind case Skip => 0 case Weak => 1 case Strong => 2 case Overpowered => 3 case Nuisance => 4
  }

  function ScoreOf(ln: real -> real, arm: Arm, p: real, i: nat): real
    requires !arm.UniformRandom? && i < |ACTIONS|
  {
    match arm
    case Prospect => EpisodeValue(ACTIONS[i], p)
    case FractionOracle => EpisodeValue(ACTIONS[i], p)
    case GoalOnly => TerminalValue(p) + GoalValue(ACTIONS[i], p)
    case RawObservationEntropy => ObservationEntropy(ln, ACTIONS[i], p)
    case EigOnly => Gain(ln, ACTIONS[i], p)
    case ShuffledInformation => TerminalValue(p) + ShuffledValue(i, p)
  }

  lemma ScoreIs(ln: real -> real, arm: Arm, p: real, i: nat)
    requires !arm.UniformRandom? && i < |ACTIONS|
    ensures Scores(ln, arm, p)[i] == ScoreOf(ln, arm, p, i)
  {
  }

  // The selected action's score beats the earlier ones and is not beaten by the later ones.
  lemma SelectedLeads(ln: real -> real, arm: Arm, p: real, i: nat)
    requires IsLog(ln) && IsPrior(p) && !arm.UniformRandom? && i < |ACTIONS|
    ensures var k := Ordinal(Selected(arm, p));
      if i < k then ScoreOf(ln, arm, p, i) < ScoreOf(ln, arm, p, k) else ScoreOf(ln, arm, p, i) <= ScoreOf(ln, arm, p, k)
  {
    if arm.RawObservationEntropy? {
      EntropyLeads(ln, p, i);
    } else if arm.EigOnly? {
      GainLeads(ln, p, i);
    } else {
      ReturnLeads(ln, arm, p, i);
    }
  }

  lemma ReturnLeads(ln: real -> real, arm: Arm, p: real, i: nat)
    requires IsPrior(p) && !arm.UniformRandom? && !arm.RawObservationEntropy? && !arm.EigOnly? && i < |ACTIONS|
    ensures var k := Ordinal(Selected(arm, p));
      if i < k then ScoreOf(ln, arm, p, i) < ScoreOf(ln, arm, p, k) else ScoreOf(ln, arm, p, i) <= ScoreOf(ln, arm, p, k)
  {
    SelectedAt(arm, p);
    match arm
    case GoalOnly => GoalLeads(p, i);
    case ShuffledInformation => ShuffledLeads(p, i);
    case _ => OptimumLeads(p, i);
  }

  lemma EntropyLeads(ln: real -> real, p: real, i: nat)
    requires IsLog(ln) && IsPrior(p) && i < |ACTIONS|
    ensures i < 4 ==> ObservationEntropy(ln, ACTIONS[i], p) < ObservationEntropy(ln, NUISANCE, p)
  {
    LogOfFour(ln);
    ObservationEntropyIs(ln, ACTIONS[i], p);
    ObservationEntropyIs(ln, NUISANCE, p);
  }

  lemma GainLeads(ln: real -> real, p: real, i: nat)
    requires IsLog(ln) && IsPrior(p) && i < |ACTIONS|
    ensures var a := Selected(EigOnly, p);
      if i < Ordinal(a) then Gain(ln, ACTIONS[i], p) < Gain(ln, a, p) else Gain(ln, ACTIONS[i], p) <= Gain(ln, a, p)
  {
    GainIs(ln, ACTIONS[i], p);
    GainIs(ln, Selected(EigOnly, p), p);
  }

  lemma OptimumLeads(p: real, i: nat)
    requires IsPrior(p) && i < |ACTIONS|
    ensures var a := if p <= 7.0 / 20.0 then SKIP else STRONG;
      if i < Ordinal(a) then EpisodeValue(ACTIONS[i], p) < EpisodeValue(a, p) else EpisodeValue(ACTIONS[i], p) <= EpisodeValue(a, p)
  {
    StrongBeyondThreshold(ACTIONS[i], p);
  }

  function GoalValue(a: Action, p: real): real { Immediate(a, p) - ActionCost(a.kind) - AcquisitionCost(a.kind) }

  lemma GoalLeads(p: real, i: nat)
    requires IsPrior(p) && i < |ACTIONS|
    ensures var a := Selected(GoalOnly, p);
      if i < Ordinal(a) then GoalValue(ACTIONS[i], p) < GoalValue(a, p) else GoalValue(ACTIONS[i], p) <= GoalValue(a, p)
  {
    ImmediateIs(ACTIONS[i], p);
    ImmediateIs(Selected(GoalOnly, p), p);
  }

  function ShuffledValue(i: nat, p: real): real
    requires i < |ACTIONS|
  {
    GoalValue(ACTIONS[i], p) + DecisionValue(ACTIONS[SHUFFLED_SOURCE[i]], p)
  }

  lemma ShuffledValueIs(i: nat, p: real)
    requires IsPrior(p) && i < |ACTIONS|
    ensures ShuffledValue(i, p) == match ACTIONS[i].kind
      case Skip => 0.0
      case Weak => 0.7 * p + 0.3 * (1.0 - p) + ProbeValue(1.0, p) - 0.53
      case Strong => 0.9 * p + 0.1 * (1.0 - p) + ProbeValue(0.7, p) - 0.58
      case Overpowered => p + ProbeValue(0.9, p) - 0.95
      case Nuisance => -0.01
  {
    ImmediateIs(ACTIONS[i], p);
    DecisionValueIs(ACTIONS[SHUFFLED_SOURCE[i]], p);
  }

  lemma ShuffledLeads(p: real, i: nat)
    requires IsPrior(p) && i < |ACTIONS|
    ensures var k := Ordinal(Selected(ShuffledInformation, p));
      if i < k then ShuffledValue(i, p) < ShuffledValue(k, p) else ShuffledValue(i, p) <= ShuffledValue(k, p)
  {
    ShuffledValueIs(i, p);
    ShuffledValueIs(Ordinal(Selected(ShuffledInformation, p)), p);
  }

  // Every arm's choice in closed form, for every prior.
  lemma ChoicesAre(ln: real -> real, arm: Arm, p: real, ordinal: nat)
    requires IsLog(ln) && IsPrior(p) && !arm.UniformRandom? && ordinal < |ACTIONS|
    ensures Choice(ln, arm, p, ordinal) == Selected(arm, p)
  {
    var s := Scores(ln, arm, p);
    var k := Ordinal(Selected(arm, p));
    forall i | 0 <= i < |s| ensures if i < k then s[i] < s[k] else s[i] <= s[k] {
      ScoresLead(ln, arm, p, i);
    }
    IsFirstMaximum(s, k);
    SelectedAt(arm, p);
  }

  lemma ScoresLead(ln: real -> real, arm: Arm, p: real, i: nat)
    requires IsLog(ln) && IsPrior(p) && !arm.UniformRandom? && i < |ACTIONS|
    ensures var s := Scores(ln, arm, p); var k := Ordinal(Selected(arm, p)); if i < k then s[i] < s[k] else s[i] <= s[k]
  {
    ScoreIs(ln, arm, p, i);
    ScoreIs(ln, arm, p, Ordinal(Selected(arm, p)));
    SelectedLeads(ln, arm, p, i);
  }

  lemma SelectedAt(arm: Arm, p: real)
    requires !arm.UniformRandom?
    ensures ACTIONS[Ordinal(Selected(arm, p))] == Selected(arm, p)
  {
  }

  // The frozen table is what the scores select exactly for priors above 7/20 and up to 23/40, so at one half.
  lemma FrozenExactly(ln: real -> real, p: real, ordinal: nat)
    requires IsLog(ln) && IsPrior(p) && ordinal < |ACTIONS|
    ensures (forall arm: Arm | !arm.UniformRandom? :: Choice(ln, arm, p, ordinal) == FrozenAction(arm)) <==> 7.0 / 20.0 < p <= 23.0 / 40.0
  {
    ChoicesAre(ln, Prospect, p, ordinal);
    ChoicesAre(ln, GoalOnly, p, ordinal);
    if 7.0 / 20.0 < p <= 23.0 / 40.0 {
      forall arm: Arm | !arm.UniformRandom? ensures Choice(ln, arm, p, ordinal) == FrozenAction(arm) {
        ChoicesAre(ln, arm, p, ordinal);
        SelectedIsFrozen(arm, p);
      }
    }
  }

  lemma SelectedIsFrozen(arm: Arm, p: real)
    requires !arm.UniformRandom? && 7.0 / 20.0 < p <= 23.0 / 40.0
    ensures Selected(arm, p) == FrozenAction(arm)
  {
  }

  // ---------------------------------------------------------------- the auditor's scores

  function AuditedEpisodeValue(kind: Kind): real {
    match kind case Skip => 1.0 / 2.0 case Weak => 63.0 / 100.0 case Strong => 37.0 / 50.0
               case Overpowered => 9.0 / 20.0 case Nuisance => 49.0 / 100.0
  }

  function AuditedDecisionValue(kind: Kind): real {
    match kind case Weak => 4.0 / 25.0 case Strong => 8.0 / 25.0 case Overpowered => 2.0 / 5.0 case _ => 0.0
  }

  function AuditedImmediate(kind: Kind): real {
    match kind case Weak => 1.0 / 2.0 case Strong => 1.0 / 2.0 case Overpowered => 1.0 / 2.0 case _ => 0.0
  }

  function AuditedGain(ln: real -> real, kind: Kind): real {
    if kind.Skip? || kind.Nuisance? then 0.0
    else
      var accuracy := Accuracy(kind);
      ln(2.0) + if accuracy == 0.0 || accuracy == 1.0 then 0.0 else NegativeEntropy(ln, accuracy)
  }

  function NegativeEntropy(ln: real -> real, q: real): real { q * ln(q) + (1.0 - q) * ln(1.0 - q) }

  function AuditedEntropy(ln: real -> real, kind: Kind): real {
    match kind case Skip => 0.0 case Nuisance => ln(4.0) case _ => ln(2.0)
  }

  function AuditorScore(ln: real -> real, arm: Arm, i: nat): Option<real>
    requires i < |ACTIONS|
  {
    var kind := ACTIONS[i].kind;
    match arm
    case Prospect => Some(AuditedEpisodeValue(kind))
    case FractionOracle => Some(AuditedEpisodeValue(kind))
    case GoalOnly => Some(1.0 / 2.0 + AuditedImmediate(kind) - ActionCost(kind) - AcquisitionCost(kind))
    case RawObservationEntropy => Some(AuditedEntropy(ln, kind))
    case EigOnly => Some(AuditedGain(ln, kind))
    case ShuffledInformation =>
      Some(1.0 / 2.0 + AuditedImmediate(kind) + AuditedDecisionValue(ACTIONS[SHUFFLED_SOURCE[i]].kind) - ActionCost(kind) - AcquisitionCost(kind))
    case UniformRandom => None
  }

  // The auditor's score of every action for every arm is the producer's at the prior one half.
  lemma AuditorScoresAgree(ln: real -> real, arm: Arm, i: nat)
    requires IsLog(ln) && i < |ACTIONS|
    ensures AuditorScore(ln, arm, i) == SelectionScore(arm, Rows(ln, 1.0 / 2.0), EpisodeValue(ACTIONS[i], 1.0 / 2.0), i)
  {
    if !arm.UniformRandom? {
      ScoreIs(ln, arm, 1.0 / 2.0, i);
      AuditorScoreIs(ln, arm, i);
    }
  }

  lemma AuditorScoreIs(ln: real -> real, arm: Arm, i: nat)
    requires IsLog(ln) && i < |ACTIONS| && !arm.UniformRandom?
    ensures AuditorScore(ln, arm, i) == Some(ScoreOf(ln, arm, 1.0 / 2.0, i))
  {
    if arm.RawObservationEntropy? {
      EntropyAtHalf(ln, ACTIONS[i]);
    } else if arm.EigOnly? {
      GainAtHalf(ln, ACTIONS[i]);
    } else {
      AuditedReturnScore(ln, arm, i);
    }
  }

  lemma AuditedReturnScore(ln: real -> real, arm: Arm, i: nat)
    requires !arm.UniformRandom? && !arm.RawObservationEntropy? && !arm.EigOnly? && i < |ACTIONS|
    ensures AuditorScore(ln, arm, i) == Some(ScoreOf(ln, arm, 1.0 / 2.0, i))
  {
    TerminalValueIs(1.0 / 2.0);
    if arm.ShuffledInformation? {
      AuditedShuffled(i);
    } else if arm.GoalOnly? {
      AuditedGoal(i);
    } else {
      AuditedTables(ACTIONS[i]);
    }
  }

  lemma AuditedGoal(i: nat)
    requires i < |ACTIONS|
    ensures var kind := ACTIONS[i].kind; GoalValue(ACTIONS[i], 1.0 / 2.0) == AuditedImmediate(kind) - ActionCost(kind) - AcquisitionCost(kind)
  {
    AuditedTables(ACTIONS[i]);
  }

  lemma AuditedShuffled(i: nat)
    requires i < |ACTIONS|
    ensures ShuffledValue(i, 1.0 / 2.0) ==
      AuditedImmediate(ACTIONS[i].kind) - ActionCost(ACTIONS[i].kind) - AcquisitionCost(ACTIONS[i].kind)
      + AuditedDecisionValue(ACTIONS[SHUFFLED_SOURCE[i]].kind)
  {
    AuditedGoal(i);
    AuditedTables(ACTIONS[SHUFFLED_SOURCE[i]]);
  }

  lemma AuditedTables(a: Action)
    requires a in ACTIONS
    ensures EpisodeValue(a, 1.0 / 2.0) == AuditedEpisodeValue(a.kind)
    ensures DecisionValue(a, 1.0 / 2.0) == AuditedDecisionValue(a.kind)
    ensures Immediate(a, 1.0 / 2.0) == AuditedImmediate(a.kind)
  {
    AuditorTablesAreExact(a);
  }

  lemma EntropyAtHalf(ln: real -> real, a: Action)
    requires IsLog(ln) && a in ACTIONS
    ensures ObservationEntropy(ln, a, 1.0 / 2.0) == AuditedEntropy(ln, a.kind)
  {
    if IsPulse(a) {
      HalfEvidence(a);
      HalvesEntropy(ln, Probabilities(a, 1.0 / 2.0));
    } else {
      EvenEntropy(ln, a, 1.0 / 2.0);
    }
  }

  lemma HalfEvidence(a: Action)
    requires a in ACTIONS && IsPulse(a)
    ensures var s := Probabilities(a, 1.0 / 2.0); |s| == 2 && s[0] == s[1] == 1.0 / 2.0
  {
    EvidenceAt(a, 1.0 / 2.0, 0);
    EvidenceAt(a, 1.0 / 2.0, 1);
    PulseJoints(a, 1.0 / 2.0);
  }

  lemma HalvesEntropy(ln: real -> real, s: seq<real>)
    requires IsLog(ln) && |s| == 2 && s[0] == s[1] == 1.0 / 2.0
    ensures EntropyFrom(ln, s, 0) == ln(2.0)
  {
    LogOfFour(ln);
    EntropyOfTwo(ln, s);
  }

  lemma GainAtHalf(ln: real -> real, a: Action)
    requires IsLog(ln) && a in ACTIONS
    ensures Gain(ln, a, 1.0 / 2.0) == AuditedGain(ln, a.kind)
  {
    if a.kind.Weak? || a.kind.Strong? {
      ProbeGainAtHalf(ln, a);
    } else {
      GainIs(ln, a, 1.0 / 2.0);
      HalvesEntropy(ln, BeliefOf(1.0 / 2.0));
    }
  }

  lemma ProbeGainAtHalf(ln: real -> real, a: Action)
    requires IsLog(ln) && a in ACTIONS && (a.kind.Weak? || a.kind.Strong?)
    ensures Gain(ln, a, 1.0 / 2.0) == AuditedGain(ln, a.kind)
  {
    HalvesEntropy(ln, BeliefOf(1.0 / 2.0));
    GainFromJoints(ln, a, 1.0 / 2.0);
    HalfJoints(a);
    RemainingAtHalf(ln, Joints(a, 1.0 / 2.0).0, Joints(a, 1.0 / 2.0).1, Accuracy(a.kind));
  }

  lemma HalfJoints(a: Action)
    requires a in ACTIONS && (a.kind.Weak? || a.kind.Strong?)
    ensures var (j, k) := Joints(a, 1.0 / 2.0); HalfPair(j, k, Accuracy(a.kind))
  {
    PulseJoints(a, 1.0 / 2.0);
  }

  predicate HalfPair(j: seq<real>, k: seq<real>, q: real) {
    |j| == |k| == 2 && 0.0 < q < 1.0 && j[0] + k[0] == j[1] + k[1] == 1.0 / 2.0 && k[0] == j[1] == q / 2.0
  }

  lemma RemainingAtHalf(ln: real -> real, j: seq<real>, k: seq<real>, q: real)
    requires HalfPair(j, k, q)
    ensures RemainingPairs(ln, j, k, 0) == -NegativeEntropy(ln, q)
  {
    RemainingTwo(ln, j, k);
    HalfOutcome(ln, j[0], k[0], q);
    HalfOutcome(ln, j[1], k[1], q);
  }

  // An outcome of probability one half whose joint probabilities are in proportion q to 1 - q.
  lemma HalfOutcome(ln: real -> real, j: real, k: real, q: real)
    requires 0.0 < q < 1.0 && j + k == 1.0 / 2.0 && (j == q / 2.0 || k == q / 2.0)
    ensures OutcomeEntropy(ln, j, k) == -NegativeEntropy(ln, q) / 2.0
  {
    var s := Conditioned(j, k);
    assert s[1] == 2.0 * j && s[0] == 2.0 * k;
    EntropyOfTwo(ln, s);
  }
}
