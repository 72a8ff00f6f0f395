/** Exact information values of a belief over any number of hypotheses (information.py): normalization, prediction,
    Bayes' rule, entropy, expected information gain, and the expected value of evidence for a decision. */
module Information {
  import opened Wrappers
  import opened Oracle

  // ---------------------------------------------------------------- the natural logarithm

  // The natural logarithm is the one function that turns products into sums and lies below its tangent at one.
  ghost predicate IsLog(ln: real -> real) {
    && (forall x, y, z | x > 0.0 && y > 0.0 && z == x * y :: ProductLaw(ln, x, y, z))
    && forall x | x > 0.0 :: ln(x) <= x - 1.0
  }

  predicate ProductLaw(ln: real -> real, x: real, y: real, z: real) { ln(z) == ln(x) + ln(y) }

  lemma LogOfOne(ln: real -> real)
    requires IsLog(ln)
    ensures ln(1.0) == 0.0
  {
    assert ProductLaw(ln, 1.0, 1.0, 1.0);
  }

  lemma LogOfQuotient(ln: real -> real, x: real, y: real)
    requires IsLog(ln) && x > 0.0 && y > 0.0
    ensures ln(x / y) == ln(x) - ln(y)
  {
    var q := x / y;
    assert q > 0.0 && q * y == x;
    assert ProductLaw(ln, q, y, x);
  }

  lemma LogIncreases(ln: real -> real, x: real, y: real)
    requires IsLog(ln) && 0.0 < x < y
    ensures ln(x) < ln(y)
  {
    LogOfQuotient(ln, x, y);
    ProperFraction(x, y);
  }

  lemma ProperFraction(x: real, y: real)
    requires 0.0 < x < y
    ensures 0.0 < x / y < 1.0
  {
    var q := x / y;
    assert q * y == x;
    QuotientPositive(x, y);
    if q >= 1.0 {
      Product(q - 1.0, y);
    }
  }

  // ---------------------------------------------------------------- distributions

  predicate Distribution(s: seq<real>) { NonNegative(s) && SumFrom(s, 0) == 1.0 }

  function Divided(s: seq<real>, total: real): (r: seq<real>)
    requires total > 0.0
    ensures |r| == |s|
  {
    seq(|s|, i requires 0 <= i < |s| => s[i] / total)
  }

  // Normalizes weights; None stands for the refusal of an empty, negative or massless vector.
  function Normalized(s: seq<real>): Option<seq<real>> {
    if s == [] || !NonNegative(s) || SumFrom(s, 0) <= 0.0 then None else Some(Divided(s, SumFrom(s, 0)))
  }

  lemma {:induction false} DividedSum(s: seq<real>, total: real, i: nat)
    requires total > 0.0 && i <= |s|
    ensures SumFrom(Divided(s, total), i) == SumFrom(s, i) / total
    decreases |s| - i
  {
    if i < |s| {
      DividedSum(s, total, i + 1);
    }
  }

  // What it returns is a distribution, and a distribution is left as it is.
  lemma NormalizedIs(s: seq<real>)
    ensures Normalized(s).Some? ==> |Normalized(s).value| == |s| && Distribution(Normalized(s).value)
    ensures Distribution(s) ==> Normalized(s) == Some(s)
  {
    if Normalized(s).Some? {
      var total := SumFrom(s, 0);
      DividedSum(s, total, 0);
      forall i | 0 <= i < |s| ensures s[i] / total >= 0.0 {
        QuotientNonNegative(s[i], total);
      }
      assert NonNegative(Divided(s, total)) && total / total == 1.0;
    }
    if Distribution(s) {
      DistributionStays(s);
    }
  }

  lemma DistributionStays(s: seq<real>)
    requires Distribution(s)
    ensures Normalized(s) == Some(s)
  {
    assert |s| > 0 && SumFrom(s, 0) > 0.0;
    DividedByOne(s, SumFrom(s, 0));
  }

  lemma DividedByOne(s: seq<real>, total: real)
    requires total == 1.0
    ensures Divided(s, total) == s
  {
    forall i | 0 <= i < |s| ensures s[i] / total == s[i] { }
  }

  lemma QuotientNonNegative(x: real, y: real)
    requires x >= 0.0 && y > 0.0
    ensures x / y >= 0.0
  {
  }

  // ---------------------------------------------------------------- beliefs and likelihood rows

  // One row for each hypothesis, all of one length that is not zero.
  predicate Rectangular(t: seq<seq<real>>, hypotheses: nat) {
    |t| == hypotheses && hypotheses > 0 && t[0] != [] && forall h | 0 <= h < |t| :: |t[h]| == |t[0]|
  }

  predicate AllNormalizable(t: seq<seq<real>>) {
    forall h | 0 <= h < |t| :: Normalized(t[h]).Some?
  }

  // The rows normalized; None for the wrong number of rows, rows that are empty or of different lengths, or one that
  // cannot be normalized.
  function NormalizedRows(t: seq<seq<real>>, hypotheses: nat): (r: Option<seq<seq<real>>>)
    ensures r.Some? ==> |r.value| == |t| == hypotheses && hypotheses > 0
  {
    if !Rectangular(t, hypotheses) || !AllNormalizable(t) then None
    else Some(seq(|t|, h requires 0 <= h < |t| && Normalized(t[h]).Some? => Normalized(t[h]).value))
  }

  predicate Proper(belief: seq<real>, t: seq<seq<real>>) {
    Distribution(belief) && Rectangular(t, |belief|) && forall h | 0 <= h < |t| :: Distribution(t[h])
  }

  function At(row: seq<real>, outcome: nat): real { if outcome < |row| then row[outcome] else 0.0 }

  // The joint probabilities of an outcome with every hypothesis.
  function Weights(belief: seq<real>, t: seq<seq<real>>, outcome: nat): (w: seq<real>)
    requires |t| == |belief|
    ensures |w| == |belief|
  {
    seq(|belief|, h requires 0 <= h < |belief| => belief[h] * At(t[h], outcome))
  }

  function EvidenceOf(belief: seq<real>, t: seq<seq<real>>, outcome: nat): real
    requires |t| == |belief|
  {
    SumFrom(Weights(belief, t, outcome), 0)
  }

  function Predictive(belief: seq<real>, t: seq<seq<real>>): Option<seq<real>> {
    match (Normalized(belief), NormalizedRows(t, |belief|))
    case (Some(b), Some(rows)) =>
      if |b| != |rows| then None else Some(seq(|rows[0]|, o requires 0 <= o < |rows[0]| && |rows| == |b| => EvidenceOf(b, rows, o)))
    case _ => None
  }

  function Posterior(belief: seq<real>, t: seq<seq<real>>, outcome: nat): Option<seq<real>> {
    match (Normalized(belief), NormalizedRows(t, |belief|))
    case (Some(b), Some(rows)) => if |b| != |rows| || outcome >= |rows[0]| then None else Normalized(Weights(b, rows, outcome))
    case _ => None
  }

  function EntropyFrom(ln: real -> real, s: seq<real>, i: nat): real
    requires i <= |s|
    decreases |s| - i
  {
    if i == |s| then 0.0 else Term(ln, s[i]) + EntropyFrom(ln, s, i + 1)
  }

  function Term(ln: real -> real, q: real): real { if q == 0.0 then 0.0 else -(q * ln(q)) }

  function Entropy(ln: real -> real, s: seq<real>): Option<real> {
    match Normalized(s) case None => None case Some(probabilities) => Some(EntropyFrom(ln, probabilities, 0))
  }

  // ---------------------------------------------------------------- decisions

  // Some decision, and a utility for every hypothesis of each.
  predicate Usable(utilities: seq<seq<real>>, hypotheses: nat) {
    utilities != [] && forall d | 0 <= d < |utilities| :: |utilities[d]| == hypotheses
  }

  function DotFrom(b: seq<real>, u: seq<real>, i: nat): real
    requires i <= |b| == |u|
    decreases |b| - i
  {
    if i == |b| then 0.0 else b[i] * u[i] + DotFrom(b, u, i + 1)
  }

  // The first index of the greatest element.
  function FirstMaximum(s: seq<real>): (k: nat)
    requires |s| > 0
    ensures k < |s| && (forall i | 0 <= i < k :: s[i] < s[k]) && forall i | k <= i < |s| :: s[i] <= s[k]
  {
    if |s| == 1 then 0
    else
      var k := FirstMaximum(s[..|s| - 1]);
      if s[|s| - 1] > s[k] then |s| - 1 else k
  }

  function ExpectedUtilities(belief: seq<real>, utilities: seq<seq<real>>): (values: seq<real>)
    requires Usable(utilities, |belief|)
    ensures |values| == |utilities|
  {
    seq(|utilities|, d requires 0 <= d < |utilities| => DotFrom(belief, utilities[d], 0))
  }

  function BestDecision(belief: seq<real>, utilities: seq<seq<real>>): (d: nat)
    requires Usable(utilities, |belief|)
    ensures d < |utilities|
  {
    FirstMaximum(ExpectedUtilities(belief, utilities))
  }

  function BestUtility(belief: seq<real>, utilities: seq<seq<real>>): real
    requires Usable(utilities, |belief|)
  {
    ExpectedUtilities(belief, utilities)[BestDecision(belief, utilities)]
  }

  // ---------------------------------------------------------------- normalization changes nothing

  lemma ProperIsNormalized(belief: seq<real>, t: seq<seq<real>>)
    requires Proper(belief, t)
    ensures Normalized(belief) == Some(belief) && NormalizedRows(t, |belief|) == Some(t)
  {
    NormalizedIs(belief);
    forall h | 0 <= h < |t| ensures Normalized(t[h]) == Some(t[h]) {
      NormalizedIs(t[h]);
    }
    assert NormalizedRows(t, |belief|).value == t;
  }

  lemma NormalizedIsProper(belief: seq<real>, t: seq<seq<real>>)
    requires Normalized(belief).Some? && NormalizedRows(t, |belief|).Some?
    ensures |Normalized(belief).value| == |belief| && Proper(Normalized(belief).value, NormalizedRows(t, |belief|).value)
  {
    NormalizedIs(belief);
    var rows := NormalizedRows(t, |belief|).value;
    forall h | 0 <= h < |t| ensures |rows[h]| == |t[h]| && Distribution(rows[h]) {
      NormalizedIs(t[h]);
    }
  }

  lemma WeightsFine(belief: seq<real>, t: seq<seq<real>>, o: nat)
    requires Proper(belief, t)
    ensures NonNegative(Weights(belief, t, o)) && forall h | 0 <= h < |belief| :: belief[h] == 0.0 ==> Weights(belief, t, o)[h] == 0.0
  {
    forall h | 0 <= h < |belief| ensures Weights(belief, t, o)[h] >= 0.0 {
      assert Distribution(t[h]) && At(t[h], o) >= 0.0;
      Product(belief[h], At(t[h], o));
    }
  }

  lemma {:induction false} ElementsBelowSum(s: seq<real>, i: nat, k: nat)
    requires NonNegative(s) && i <= |s|
    ensures SumFrom(s, i) >= 0.0 && (i <= k < |s| ==> s[k] <= SumFrom(s, i))
    decreases |s| - i
  {
    if i < |s| {
      ElementsBelowSum(s, i + 1, k);
    }
  }

  // ---------------------------------------------------------------- the two expectations

  const TOLERANCE: real := 1.0 / 1000000000000.0

  function Weighted(x: real, y: real): real { x * y }

  // What an outcome of these joint probabilities adds to the entropy that remains, and to the value of deciding then.
  function EntropyAt(ln: real -> real, w: seq<real>): real {
    var e := SumFrom(w, 0);
    if e <= 0.0 then 0.0 else Weighted(e, EntropyFrom(ln, Divided(w, e), 0))
  }

  function ValueAt(w: seq<real>, utilities: seq<seq<real>>): real
    requires Usable(utilities, |w|)
  {
    var e := SumFrom(w, 0);
    if e <= 0.0 then 0.0 else Weighted(e, BestUtility(Divided(w, e), utilities))
  }

  // The sums over the outcomes from o on, of n.
  function RemainingFrom(ln: real -> real, belief: seq<real>, t: seq<seq<real>>, n: nat, o: nat): real
    requires |t| == |belief| && o <= n
    decreases n - o
  {
    if o == n then 0.0 else EntropyAt(ln, Weights(belief, t, o)) + RemainingFrom(ln, belief, t, n, o + 1)
  }

  function ValueFrom(belief: seq<real>, t: seq<seq<real>>, utilities: seq<seq<real>>, n: nat, o: nat): real
    requires |t| == |belief| && Usable(utilities, |belief|) && o <= n
    decreases n - o
  {
    if o == n then 0.0 else ValueAt(Weights(belief, t, o), utilities) + ValueFrom(belief, t, utilities, n, o + 1)
  }

  function GainOf(ln: real -> real, belief: seq<real>, t: seq<seq<real>>): real
    requires Rectangular(t, |belief|)
  {
    EntropyFrom(ln, belief, 0) - RemainingFrom(ln, belief, t, |t[0]|, 0)
  }

  function DecisionValueOf(belief: seq<real>, t: seq<seq<real>>, utilities: seq<seq<real>>): real
    requires Rectangular(t, |belief|) && Usable(utilities, |belief|)
  {
    ValueFrom(belief, t, utilities, |t[0]|, 0) - BestUtility(belief, utilities)
  }

  // A negative gain within the tolerance counts as none, and so does a negative value.
  function Clamped(gain: real): real { if gain > -TOLERANCE then Max(0.0, gain) else gain }
  function NoiseRemoved(value: real): real { if -TOLERANCE < value < 0.0 then 0.0 else value }

  // What one outcome is predicted, believed and worth.
  lemma OutcomeAdds(ln: real -> real, belief: seq<real>, t: seq<seq<real>>, o: nat)
    requires Proper(belief, t) && o < |t[0]|
    ensures Predictive(belief, t).Some? && |Predictive(belief, t).value| == |t[0]|
    ensures var e, posterior, w := Predictive(belief, t).value[o], Posterior(belief, t, o), Weights(belief, t, o);
      && e == SumFrom(w, 0)
      && (e > 0.0 ==> && posterior == Some(Divided(w, e)) && |posterior.value| == |belief|
                      && Entropy(ln, posterior.value) == Some(EntropyFrom(ln, Divided(w, e), 0)))
  {
    ProperIsNormalized(belief, t);
    WeightsFine(belief, t, o);
    var w := Weights(belief, t, o);
    if SumFrom(w, 0) > 0.0 {
      NormalizedIs(w);
      NormalizedIs(Divided(w, SumFrom(w, 0)));
    }
  }

  method ExpectedInformationGain(ln: real -> real, prior: seq<real>, t: seq<seq<real>>) returns (r: Option<real>)
    ensures r.Some? <==> Normalized(prior).Some? && NormalizedRows(t, |prior|).Some?
    ensures r.Some? ==> |Normalized(prior).value| == |prior| && Proper(Normalized(prior).value, NormalizedRows(t, |prior|).value)
    ensures r.Some? ==> r.value == Clamped(GainOf(ln, Normalized(prior).value, NormalizedRows(t, |prior|).value))
  {
    if Normalized(prior).None? || NormalizedRows(t, |prior|).None? {
      return None;
    }
    var beliefs, rows := Normalized(prior).value, NormalizedRows(t, |prior|).value;
    NormalizedIsProper(prior, t);
    NormalizedIs(beliefs);
    OutcomeAdds(ln, beliefs, rows, 0);
    var predictive := Predictive(beliefs, rows).value;
    var remaining := 0.0;
    for o := 0 to |predictive|
      invariant remaining + RemainingFrom(ln, beliefs, rows, |predictive|, o) == RemainingFrom(ln, beliefs, rows, |predictive|, 0)
    {
      OutcomeAdds(ln, beliefs, rows, o);
      if predictive[o] > 0.0 {
        remaining := remaining + Weighted(predictive[o], Entropy(ln, Posterior(beliefs, rows, o).value).value);
      }
    }
    var gain := Entropy(ln, beliefs).value - remaining;
    return Some(if gain > -TOLERANCE then Max(0.0, gain) else gain);
  }

  // The expected value of evidence for a decision, with its information gain.
  datatype InformationValue = InformationValue(gain: real, decisionValue: real, acquisitionCost: real, net: real, priorDecision: nat)

  method ExpectedValueOfSampleInformation(
    ln: real -> real, prior: seq<real>, t: seq<seq<real>>, utilities: seq<seq<real>>, acquisitionCost: real)
    returns (r: Option<InformationValue>)
    ensures r.Some? <==>
      acquisitionCost >= 0.0 && Normalized(prior).Some? && NormalizedRows(t, |prior|).Some? && Usable(utilities, |prior|)
    ensures r.Some? ==> |Normalized(prior).value| == |prior| && Proper(Normalized(prior).value, NormalizedRows(t, |prior|).value)
    ensures r.Some? ==> r.value == ValueOfInformation(ln, Normalized(prior).value, NormalizedRows(t, |prior|).value, utilities, acquisitionCost)
  {
    if acquisitionCost < 0.0 || Normalized(prior).None? || NormalizedRows(t, |prior|).None? {
      return None;
    }
    var beliefs, rows := Normalized(prior).value, NormalizedRows(t, |prior|).value;
    NormalizedIsProper(prior, t);
    if !Usable(utilities, |beliefs|) {
      return None;
    }
    OutcomeAdds(ln, beliefs, rows, 0);
    var predictive := Predictive(beliefs, rows).value;
    var after := 0.0;
    for o := 0 to |predictive|
      invariant after + ValueFrom(beliefs, rows, utilities, |predictive|, o) == ValueFrom(beliefs, rows, utilities, |predictive|, 0)
    {
      OutcomeAdds(ln, beliefs, rows, o);
      if predictive[o] > 0.0 {
        after := after + Weighted(predictive[o], BestUtility(Posterior(beliefs, rows, o).value, utilities));
      }
    }
    var decisionValue := NoiseRemoved(after - BestUtility(beliefs, utilities));
    ProperIsNormalized(beliefs, rows);
    var gain := ExpectedInformationGain(ln, beliefs, rows);
    return Some(InformationValue(gain.value, decisionValue, acquisitionCost, decisionValue - acquisitionCost,
                                 BestDecision(beliefs, utilities)));
  }

  function ValueOfInformation(ln: real -> real, belief: seq<real>, t: seq<seq<real>>, utilities: seq<seq<real>>, acquisitionCost: real): InformationValue
    requires Rectangular(t, |belief|) && Usable(utilities, |belief|)
  {
    var decisionValue := NoiseRemoved(DecisionValueOf(belief, t, utilities));
    InformationValue(Clamped(GainOf(ln, belief, t)), decisionValue, acquisitionCost, decisionValue - acquisitionCost,
                     BestDecision(belief, utilities))
  }

  // ---------------------------------------------------------------- sums over what is still to come

  predicate AddsUp(s: seq<real>, v: seq<real>, w: seq<real>) {
    |s| == |v| == |w| && forall h | 0 <= h < |s| :: s[h] == v[h] + w[h]
  }

  lemma {:induction false} SumsAdd(s: seq<real>, v: seq<real>, w: seq<real>, i: nat)
    requires AddsUp(s, v, w) && i <= |s|
    ensures SumFrom(s, i) == SumFrom(v, i) + SumFrom(w, i)
    decreases |s| - i
  {
    if i < |s| {
      SumsAdd(s, v, w, i + 1);
    }
  }

  // The probability of a row's outcomes from o on.
  function RestOf(row: seq<real>, o: nat): real { if o <= |row| then SumFrom(row, o) else 0.0 }

  // The joint probabilities of every hypothesis with all outcomes from o on.
  function Rest(belief: seq<real>, t: seq<seq<real>>, o: nat): (r: seq<real>)
    requires |t| == |belief|
    ensures |r| == |belief|
  {
    seq(|belief|, h requires 0 <= h < |belief| => belief[h] * RestOf(t[h], o))
  }

  lemma RestStep(belief: seq<real>, t: seq<seq<real>>, o: nat)
    requires Rectangular(t, |belief|) && o < |t[0]|
    ensures AddsUp(Rest(belief, t, o), Weights(belief, t, o), Rest(belief, t, o + 1))
  {
    forall h | 0 <= h < |belief| ensures Rest(belief, t, o)[h] == Weights(belief, t, o)[h] + Rest(belief, t, o + 1)[h] {
      assert |t[h]| == |t[0]|;
      Distribute(belief[h], t[h][o], SumFrom(t[h], o + 1));
    }
  }

  lemma NothingRests(belief: seq<real>, t: seq<seq<real>>)
    requires Rectangular(t, |belief|)
    ensures Zeros(Rest(belief, t, |t[0]|))
  {
    forall h | 0 <= h < |belief| ensures Rest(belief, t, |t[0]|)[h] == 0.0 {
      assert |t[h]| == |t[0]|;
    }
  }

  lemma AllRests(belief: seq<real>, t: seq<seq<real>>)
    requires Proper(belief, t)
    ensures Rest(belief, t, 0) == belief
  {
    forall h | 0 <= h < |belief| ensures Rest(belief, t, 0)[h] == belief[h] {
      assert Distribution(t[h]);
    }
  }

  predicate Zeros(s: seq<real>) {
    forall h | 0 <= h < |s| :: s[h] == 0.0
  }

  lemma {:induction false} SumOfZeros(s: seq<real>, i: nat)
    requires Zeros(s) && i <= |s|
    ensures SumFrom(s, i) == 0.0
    decreases |s| - i
  {
    if i < |s| {
      SumOfZeros(s, i + 1);
    }
  }

  // ---------------------------------------------------------------- information is never negative

  // Gibbs' inequality for one term: j ln(j/e) is at least j ln p + j - p e.
  lemma Gibbs(ln: real -> real, j: real, e: real, p: real)
    requires IsLog(ln) && 0.0 < j <= e && p > 0.0
    ensures j / e > 0.0 && j * ln(j / e) >= j * ln(p) + j - p * e
  {
    Positives(p, e);
    QuotientPositive(j, e);
    QuotientPositive(p * e, j);
    TimesQuotient(j, p * e);
    TimesQuotient(e, j);
    GibbsWith(ln, j, e, p, p * e, j / e, p * e / j);
  }

  lemma GibbsWith(ln: real -> real, j: real, e: real, p: real, y: real, x: real, z: real)
    requires IsLog(ln) && j > 0.0 && e > 0.0 && p > 0.0 && y > 0.0 && x > 0.0 && z > 0.0
    requires y == p * e && j == x * e && y == z * j
    ensures j * ln(x) >= j * ln(p) + j - y
  {
    GibbsLogs(ln, j, e, p, y, x, z);
    GibbsTerm(j, y, z, ln(p), ln(x));
  }

  lemma GibbsLogs(ln: real -> real, j: real, e: real, p: real, y: real, x: real, z: real)
    requires IsLog(ln) && j > 0.0 && e > 0.0 && p > 0.0 && y > 0.0 && x > 0.0 && z > 0.0
    requires y == p * e && j == x * e && y == z * j
    ensures ln(p) - ln(x) <= z - 1.0
  {
    assert ProductLaw(ln, p, e, y) && ProductLaw(ln, x, e, j) && ProductLaw(ln, z, j, y);
  }

  lemma GibbsTerm(j: real, y: real, z: real, lp: real, lq: real)
    requires j > 0.0 && j * z == y && lp - lq <= z - 1.0
    ensures j * lq >= j * lp + j - y
  {
    TimesLess(j, lp - lq, z - 1.0);
    assert j * (lp - lq) == j * lp - j * lq;
    assert j * (z - 1.0) == j * z - j;
  }

  lemma TimesQuotient(x: real, y: real)
    requires x > 0.0
    ensures x * (y / x) == y
  {
  }

  lemma Positives(x: real, y: real)
    requires x > 0.0 && y > 0.0
    ensures x * y > 0.0
  {
  }

  lemma QuotientPositive(x: real, y: real)
    requires x > 0.0 && y > 0.0
    ensures x / y > 0.0
  {
  }

  lemma TimesLess(c: real, x: real, y: real)
    requires c > 0.0 && x <= y
    ensures c * x <= c * y
  {
  }

  // One joint probability's part of the remaining entropy, in units of its outcome.
  function PartOf(ln: real -> real, j: real, e: real): real
    requires e > 0.0
  {
    if j == 0.0 then 0.0 else -(j * ln(j / e))
  }

  lemma WeightedTerm(ln: real -> real, j: real, e: real)
    requires e > 0.0
    ensures e * Term(ln, j / e) == PartOf(ln, j, e)
  {
    var q := j / e;
    assert e * q == j;
    assert e * (q * ln(q)) == e * q * ln(q);
  }

  function PartLimit(l: real, j: real, e: real, p: real): real { -(j * l) - j + p * e }

  // A part is at most its share of the prior's entropy, with a correction that sums to nothing.
  lemma PartBound(ln: real -> real, j: real, e: real, p: real)
    requires IsLog(ln) && 0.0 <= j <= e && e > 0.0 && p >= 0.0 && (p == 0.0 ==> j == 0.0)
    ensures PartOf(ln, j, e) <= PartLimit(ln(p), j, e, p)
  {
    if j > 0.0 {
      Gibbs(ln, j, e, p);
    } else {
      Product(p, e);
    }
  }

  lemma PartLimitStep(l: real, j: real, e: real, sj: real, se: real, p: real)
    ensures PartLimit(l, j + sj, e + se, p) == PartLimit(l, j, e, p) + PartLimit(l, sj, se, p)
  {
    Distribute(l, j, sj);
    Distribute(p, e, se);
  }

  // The bound on an outcome's entropy, hypothesis by hypothesis from h on.
  function LimitFrom(ln: real -> real, belief: seq<real>, w: seq<real>, e: real, h: nat): real
    requires h <= |belief| == |w|
    decreases |w| - h
  {
    if h == |w| then 0.0 else PartLimit(ln(belief[h]), w[h], e, belief[h]) + LimitFrom(ln, belief, w, e, h + 1)
  }

  lemma {:induction false} LimitsAdd(
    ln: real -> real, belief: seq<real>, s: seq<real>, v: seq<real>, w: seq<real>, g: real, e: real, f: real, h: nat)
    requires AddsUp(s, v, w) && h <= |belief| == |s| && g == e + f
    ensures LimitFrom(ln, belief, s, g, h) == LimitFrom(ln, belief, v, e, h) + LimitFrom(ln, belief, w, f, h)
    decreases |s| - h
  {
    if h < |s| {
      LimitsAdd(ln, belief, s, v, w, g, e, f, h + 1);
      PartLimitStep(ln(belief[h]), v[h], e, w[h], f, belief[h]);
    }
  }

  lemma {:induction false} LimitOfNothing(ln: real -> real, belief: seq<real>, w: seq<real>, h: nat)
    requires Zeros(w) && h <= |belief| == |w|
    ensures LimitFrom(ln, belief, w, 0.0, h) == 0.0
    decreases |w| - h
  {
    if h < |w| {
      LimitOfNothing(ln, belief, w, h + 1);
      NoLimit(ln(belief[h]), belief[h]);
    }
  }

  lemma NoLimit(l: real, p: real)
    ensures PartLimit(l, 0.0, 0.0, p) == 0.0
  {
  }

  // On the whole belief the bound is its entropy.
  lemma {:induction false} LimitOfAll(ln: real -> real, belief: seq<real>, h: nat)
    requires h <= |belief|
    ensures LimitFrom(ln, belief, belief, 1.0, h) == EntropyFrom(ln, belief, h)
    decreases |belief| - h
  {
    if h < |belief| {
      LimitOfAll(ln, belief, h + 1);
      WholeLimit(ln, belief[h]);
    }
  }

  lemma WholeLimit(ln: real -> real, p: real)
    ensures PartLimit(ln(p), p, 1.0, p) == Term(ln, p)
  {
  }

  function PartsFrom(ln: real -> real, w: seq<real>, e: real, h: nat): real
    requires e > 0.0 && h <= |w|
    decreases |w| - h
  {
    if h == |w| then 0.0 else PartOf(ln, w[h], e) + PartsFrom(ln, w, e, h + 1)
  }

  lemma {:induction false} EntropyParts(ln: real -> real, w: seq<real>, e: real, h: nat)
    requires e > 0.0 && h <= |w|
    ensures Weighted(e, EntropyFrom(ln, Divided(w, e), h)) == PartsFrom(ln, w, e, h)
    decreases |w| - h
  {
    if h < |w| {
      EntropyParts(ln, w, e, h + 1);
      WeightedTerm(ln, w[h], e);
      Distribute(e, Term(ln, w[h] / e), EntropyFrom(ln, Divided(w, e), h + 1));
    }
  }

  // The joint probabilities of one outcome under a belief.
  predicate Under(belief: seq<real>, w: seq<real>) {
    |w| == |belief| && NonNegative(w) && NonNegative(belief) && forall h | 0 <= h < |w| :: belief[h] == 0.0 ==> w[h] == 0.0
  }

  lemma {:induction false} PartsBound(ln: real -> real, belief: seq<real>, w: seq<real>, e: real, h: nat)
    requires IsLog(ln) && Under(belief, w) && e == SumFrom(w, 0) > 0.0 && h <= |w|
    ensures PartsFrom(ln, w, e, h) <= LimitFrom(ln, belief, w, e, h)
    decreases |w| - h
  {
    if h < |w| {
      PartsBound(ln, belief, w, e, h + 1);
      ElementsBelowSum(w, 0, h);
      PartBound(ln, w[h], e, belief[h]);
    }
  }

  lemma OutcomeBound(ln: real -> real, belief: seq<real>, w: seq<real>)
    requires IsLog(ln) && Under(belief, w)
    ensures EntropyAt(ln, w) <= LimitFrom(ln, belief, w, SumFrom(w, 0), 0)
  {
    var e := SumFrom(w, 0);
    if e > 0.0 {
      EntropyParts(ln, w, e, 0);
      PartsBound(ln, belief, w, e, 0);
    } else {
      NoWeights(w);
      SumOfZeros(w, 0);
      LimitOfNothing(ln, belief, w, 0);
    }
  }

  lemma {:induction false} RemainingBound(ln: real -> real, belief: seq<real>, t: seq<seq<real>>, o: nat)
    requires IsLog(ln) && Proper(belief, t) && o <= |t[0]|
    ensures RemainingFrom(ln, belief, t, |t[0]|, o) <= LimitFrom(ln, belief, Rest(belief, t, o), SumFrom(Rest(belief, t, o), 0), 0)
    decreases |t[0]| - o
  {
    if o < |t[0]| {
      RemainingBound(ln, belief, t, o + 1);
      WeightsFine(belief, t, o);
      OutcomeBound(ln, belief, Weights(belief, t, o));
      BoundStep(ln, belief, t, o);
    } else {
      NothingRests(belief, t);
      SumOfZeros(Rest(belief, t, o), 0);
      LimitOfNothing(ln, belief, Rest(belief, t, o), 0);
    }
  }

  lemma BoundStep(ln: real -> real, belief: seq<real>, t: seq<seq<real>>, o: nat)
    requires Rectangular(t, |belief|) && o < |t[0]|
    ensures var (s, v, w) := (Rest(belief, t, o), Weights(belief, t, o), Rest(belief, t, o + 1));
      LimitFrom(ln, belief, s, SumFrom(s, 0), 0) == LimitFrom(ln, belief, v, SumFrom(v, 0), 0) + LimitFrom(ln, belief, w, SumFrom(w, 0), 0)
  {
    RestStep(belief, t, o);
    LimitsOfSum(ln, belief, Rest(belief, t, o), Weights(belief, t, o), Rest(belief, t, o + 1));
  }

  lemma LimitsOfSum(ln: real -> real, belief: seq<real>, s: seq<real>, v: seq<real>, w: seq<real>)
    requires AddsUp(s, v, w) && |belief| == |s|
    ensures LimitFrom(ln, belief, s, SumFrom(s, 0), 0) == LimitFrom(ln, belief, v, SumFrom(v, 0), 0) + LimitFrom(ln, belief, w, SumFrom(w, 0), 0)
  {
    SumsAdd(s, v, w, 0);
    LimitsAdd(ln, belief, s, v, w, SumFrom(s, 0), SumFrom(v, 0), SumFrom(w, 0), 0);
  }

  // For every belief over any number of hypotheses and every likelihood table, observing is expected to leave no more
  // entropy than there was.
  lemma InformationGainIsNonNegative(ln: real -> real, belief: seq<real>, t: seq<seq<real>>)
    requires IsLog(ln) && Proper(belief, t)
    ensures GainOf(ln, belief, t) >= 0.0
  {
    RemainingBound(ln, belief, t, 0);
    AllRests(belief, t);
    LimitOfAll(ln, belief, 0);
  }

  // ---------------------------------------------------------------- evidence never makes a decision worse

  lemma {:induction false} DotsAdd(s: seq<real>, v: seq<real>, w: seq<real>, u: seq<real>, i: nat)
    requires AddsUp(s, v, w) && i <= |s| == |u|
    ensures DotFrom(s, u, i) == DotFrom(v, u, i) + DotFrom(w, u, i)
    decreases |s| - i
  {
    if i < |s| {
      DotsAdd(s, v, w, u, i + 1);
      Distribute(u[i], v[i], w[i]);
    }
  }

  lemma {:induction false} DotOfZeros(s: seq<real>, u: seq<real>, i: nat)
    requires Zeros(s) && i <= |s| == |u|
    ensures DotFrom(s, u, i) == 0.0
    decreases |s| - i
  {
    if i < |s| {
      DotOfZeros(s, u, i + 1);
    }
  }

  lemma {:induction false} DotDivided(w: seq<real>, e: real, u: seq<real>, i: nat)
    requires e > 0.0 && i <= |w| == |u|
    ensures Weighted(e, DotFrom(Divided(w, e), u, i)) == DotFrom(w, u, i)
    decreases |w| - i
  {
    if i < |w| {
      DotDivided(w, e, u, i + 1);
      ShareOf(w[i], e, u[i]);
      Distribute(e, w[i] / e * u[i], DotFrom(Divided(w, e), u, i + 1));
    }
  }

  lemma ShareOf(x: real, e: real, u: real)
    requires e > 0.0
    ensures e * (x / e * u) == x * u
  {
    var q := x / e;
    assert e * q == x;
    assert e * (q * u) == (e * q) * u;
  }

  lemma BestIsBest(belief: seq<real>, utilities: seq<seq<real>>, d: nat)
    requires Usable(utilities, |belief|) && d < |utilities|
    ensures DotFrom(belief, utilities[d], 0) <= BestUtility(belief, utilities)
  {
    assert ExpectedUtilities(belief, utilities)[d] <= BestUtility(belief, utilities);
  }

  // What an outcome is worth is at least what any one decision is worth on it.
  lemma AnyDecision(w: seq<real>, utilities: seq<seq<real>>, d: nat)
    requires NonNegative(w) && Usable(utilities, |w|) && d < |utilities|
    ensures ValueAt(w, utilities) >= DotFrom(w, utilities[d], 0)
  {
    if SumFrom(w, 0) > 0.0 {
      AnyDecisionThen(w, SumFrom(w, 0), utilities, d);
    } else {
      NoWeights(w);
      DotOfZeros(w, utilities[d], 0);
    }
  }

  lemma NoWeights(w: seq<real>)
    requires NonNegative(w) && SumFrom(w, 0) <= 0.0
    ensures Zeros(w)
  {
    forall h | 0 <= h < |w| ensures w[h] == 0.0 {
      ElementsBelowSum(w, 0, h);
    }
  }

  lemma AnyDecisionThen(w: seq<real>, e: real, utilities: seq<seq<real>>, d: nat)
    requires e > 0.0 && Usable(utilities, |w|) && d < |utilities|
    ensures Weighted(e, BestUtility(Divided(w, e), utilities)) >= DotFrom(w, utilities[d], 0)
  {
    DotDivided(w, e, utilities[d], 0);
    BestIsBest(Divided(w, e), utilities, d);
    WeightedLess(e, DotFrom(Divided(w, e), utilities[d], 0), BestUtility(Divided(w, e), utilities));
  }

  lemma WeightedLess(e: real, x: real, y: real)
    requires e > 0.0 && x <= y
    ensures Weighted(e, x) <= Weighted(e, y)
  {
    TimesLess(e, x, y);
  }

  lemma {:induction false} ValuesBound(belief: seq<real>, t: seq<seq<real>>, utilities: seq<seq<real>>, d: nat, o: nat)
    requires Proper(belief, t) && Usable(utilities, |belief|) && d < |utilities| && o <= |t[0]|
    ensures ValueFrom(belief, t, utilities, |t[0]|, o) >= DotFrom(Rest(belief, t, o), utilities[d], 0)
    decreases |t[0]| - o
  {
    if o < |t[0]| {
      ValuesBound(belief, t, utilities, d, o + 1);
      WeightsFine(belief, t, o);
      AnyDecision(Weights(belief, t, o), utilities, d);
      RestStep(belief, t, o);
      DotsAdd(Rest(belief, t, o), Weights(belief, t, o), Rest(belief, t, o + 1), utilities[d], 0);
    } else {
      NothingRests(belief, t);
      DotOfZeros(Rest(belief, t, o), utilities[d], 0);
    }
  }

  // For every belief, table and utilities, deciding after the evidence is expected to be worth at least as much as
  // deciding at once.
  lemma EvidenceNeverHurts(belief: seq<real>, t: seq<seq<real>>, utilities: seq<seq<real>>)
    requires Proper(belief, t) && Usable(utilities, |belief|)
    ensures DecisionValueOf(belief, t, utilities) >= 0.0
  {
    ValuesBound(belief, t, utilities, BestDecision(belief, utilities), 0);
    AllRests(belief, t);
  }
}
