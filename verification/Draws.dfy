/** Exact integer draws (seeding.py), the auditor's own (q1_audit.py), and the episode returns they lead to. */
module Draws {
  import opened Wrappers
  import opened Oracle
  import SemanticKeys
  import Schedule
  import Information
  import Arms

  // ---------------------------------------------------------------- thresholds

  // A draw below `space` agrees with probability num / den.
  predicate Agrees(draw: nat, num: nat, den: nat, space: nat) {
    draw * den < num * space
  }

  // num * space / den, rounded up.
  function Threshold(num: nat, den: nat, space: nat): nat
    requires den > 0
  {
    (num * space + den - 1) / den
  }

  lemma RoundedUp(x: nat, den: nat)
    requires den > 0
    ensures var t := (x + den - 1) / den; t * den >= x && (t == 0 || (t - 1) * den < x)
  {
    var t := (x + den - 1) / den;
    var rest := (x + den - 1) % den;
    assert x + den - 1 == t * den + rest;
    assert t > 0 ==> (t - 1) * den == t * den - den;
  }

  lemma Multiples(a: nat, b: nat, d: nat)
    requires a <= b
    ensures a * d <= b * d
  {
  }

  // The agreeing draws are those below the threshold.
  lemma AgreesBelowThreshold(draw: nat, num: nat, den: nat, space: nat)
    requires den > 0
    ensures Agrees(draw, num, den, space) <==> draw < Threshold(num, den, space)
  {
    var t := Threshold(num, den, space);
    RoundedUp(num * space, den);
    if draw < t {
      Multiples(draw, t - 1, den);
    } else {
      Multiples(t, draw, den);
    }
  }

  // How many of the first n draws agree.
  function CountAgreeing(n: nat, num: nat, den: nat, space: nat): nat {
    if n == 0 then 0 else CountAgreeing(n - 1, num, den, space) + if Agrees(n - 1, num, den, space) then 1 else 0
  }

  lemma {:induction false} CountIsThreshold(n: nat, num: nat, den: nat, space: nat)
    requires den > 0
    ensures var t := Threshold(num, den, space); CountAgreeing(n, num, den, space) == if n <= t then n else t
  {
    if n > 0 {
      CountIsThreshold(n - 1, num, den, space);
      AgreesBelowThreshold(n - 1, num, den, space);
    }
  }

  // For a probability num / den, exactly ceil(num * space / den) of the draws agree, so the realized frequency is
  // off by less than one draw.
  lemma ExactFrequency(num: nat, den: nat, space: nat)
    requires num <= den && den > 0
    ensures var count := CountAgreeing(space, num, den, space);
      count == Threshold(num, den, space) && num * space <= count * den < num * space + den
  {
    var t := Threshold(num, den, space);
    CountIsThreshold(space, num, den, space);
    RoundedUp(num * space, den);
    Multiples(num, den, space);
    if t > space {
      Multiples(space, t - 1, den);
    }
    assert t > 0 ==> (t - 1) * den == t * den - den;
  }

  // A certain probability always agrees; a smaller one agrees on no draw on which a greater one does not.
  lemma AgreementIsMonotone(draw: nat, num: nat, den: nat, num': nat, den': nat, space: nat)
    requires draw < space && den > 0 && den' > 0 && num * den' <= num' * den
    ensures Agrees(draw, num, den, space) ==> Agrees(draw, num', den', space)
    ensures num' == den' ==> Agrees(draw, num', den', space)
  {
    if num' == den' {
      assert (draw + 1) * den' <= space * den' by { Multiples(draw + 1, space, den'); }
    }
    if Agrees(draw, num, den, space) && !Agrees(draw, num', den', space) {
      CrossMultiply(draw, num, den, num', den', space);
    }
  }

  lemma CrossMultiply(draw: nat, num: nat, den: nat, num': nat, den': nat, space: nat)
    requires den > 0 && den' > 0 && num * den' <= num' * den && draw * den < num * space
    ensures draw * den' < num' * space
  {
    assert draw * den * den' < num * space * den' by { StrictProduct(draw * den, num * space, den'); }
    assert num * space * den' == num * den' * space;
    Multiples(num * den', num' * den, space);
    assert draw * den' * den == draw * den * den' && num' * den * space == num' * space * den;
    if draw * den' >= num' * space {
      Multiples(num' * space, draw * den', den);
    }
  }

  lemma StrictProduct(a: nat, b: nat, d: nat)
    requires a < b && d > 0
    ensures a * d < b * d
  {
  }

  // ---------------------------------------------------------------- the four nuisance bins

  function Bin(draw: nat, space: nat): nat
    requires space > 0
  {
    draw * 4 / space
  }

  // With a draw space divisible by four the bins are four equal intervals.
  lemma BinsAreQuarters(draw: nat, space: nat, b: nat)
    requires space > 0 && space % 4 == 0 && draw < space
    ensures Bin(draw, space) < 4
    ensures Bin(draw, space) == b <==> b * (space / 4) <= draw < (b + 1) * (space / 4)
  {
    BinHolds(draw, space / 4, space);
    OneInterval(draw, space / 4, Bin(draw, space), b);
    OneInterval(draw, space / 4, Bin(draw, space), 4);
  }

  lemma BinHolds(draw: nat, q: nat, space: nat)
    requires q > 0 && space == 4 * q
    ensures Bin(draw, space) * q <= draw < (Bin(draw, space) + 1) * q
  {
    var bin := Bin(draw, space);
    assert draw * 4 == bin * space + draw * 4 % space;
    assert bin * space == 4 * (bin * q);
  }

  // Intervals of one length do not overlap, and a later one lies above.
  lemma OneInterval(draw: nat, q: nat, bin: nat, b: nat)
    requires bin * q <= draw < (bin + 1) * q
    ensures bin == b <==> b * q <= draw < (b + 1) * q
    ensures draw < b * q ==> bin < b
  {
    if bin < b {
      Multiples(bin + 1, b, q);
    } else if b < bin {
      Multiples(b + 1, bin, q);
    }
    if b <= bin {
      Multiples(b, bin, q);
    }
  }

  // ---------------------------------------------------------------- private outcomes

  // The salt as a keyed digest of semantic keys, the episodes of one lane, and the number of digests there are.
  datatype World = World(hmac: string -> nat, episodes: nat, space: nat)

  ghost predicate ValidWorld(w: World) {
    w.space > 0 && w.space % 4 == 0 && forall key :: w.hmac(key) < w.space
  }

  function Digest(w: World, allowed: seq<string>, d: SemanticKeys.Draw): nat {
    match SemanticKeys.KeyOf(allowed, d) case Ok(key) => w.hmac(key) case Err(_) => 0
  }

  function Tenths(kind: Kind): nat {
    match kind case Weak => 7 case Strong => 9 case _ => 10
  }

  function ActionId(kind: Kind): string {
    match kind case Weak => "weak" case Strong => "strong" case Overpowered => "overpowered" case Skip => "skip" case Nuisance => "nuisance"
  }

  function Regime(w: World, allowed: seq<string>, master: nat, episode: nat): int {
    var schedule := Schedule.MasterSchedule(w.hmac, allowed, w.episodes, master);
    if episode < |schedule| then schedule[episode] else Schedule.DIRECT
  }

  // The symbol an acquisition shows: keyed by the action, not by the arm.
  function Observe(w: World, allowed: seq<string>, master: nat, episode: nat, kind: Kind): int
    requires w.space > 0
  {
    match kind
    case Skip => 0
    case Nuisance => Bin(Digest(w, allowed, SemanticKeys.Nuisance(master, episode)), w.space)
    case _ =>
      var theta := Regime(w, allowed, master, episode);
      if Agrees(Digest(w, allowed, SemanticKeys.Pulse(master, episode, ActionId(kind))), Tenths(kind), 10, w.space)
      then theta else -theta
  }

  predicate Succeeds(w: World, allowed: seq<string>, master: nat, episode: nat, decision: int) {
    var theta := Regime(w, allowed, master, episode);
    Agrees(Digest(w, allowed, SemanticKeys.Terminal(master, episode, decision)), if decision == theta then 9 else 1, 10, w.space)
  }

  // With the same draw, a decision that succeeds against its regime succeeds with it.
  lemma MatchingNeverHurts(draw: nat, space: nat)
    requires draw < space && Agrees(draw, 1, 10, space)
    ensures Agrees(draw, 9, 10, space)
  {
  }

  // ---------------------------------------------------------------- episode returns

  function Payoff(kind: Kind, symbol: int): real {
    if (kind.Weak? || kind.Strong? || kind.Overpowered?) && symbol == 1 then 1.0 else 0.0
  }

  function ReturnFor(kind: Kind, symbol: int, success: bool): real {
    Payoff(kind, symbol) - ActionCost(kind) - AcquisitionCost(kind) + (if success then 1.0 else 0.0)
  }

  // The producer conditions by Bayes' rule and takes the first terminal action of greatest expected payoff.
  function ProducerReturn(w: World, master: nat, episode: nat, a: Action): Option<real>
    requires w.space > 0
  {
    var symbol := Observe(w, SemanticKeys.PRODUCER_NAMESPACES, master, episode, a.kind);
    match PosteriorDirect(a, symbol, 1.0 / 2.0)
    case Err(_) => None
    case Ok(p) =>
      var decision := if ExpectedTerminalPayoff(Direct, p) >= ExpectedTerminalPayoff(Reversed, p) then 1 else -1;
      Some(ReturnFor(a.kind, symbol, Succeeds(w, SemanticKeys.PRODUCER_NAMESPACES, master, episode, decision)))
  }

  // The auditor uses its own key builder, schedule and posterior table, and compares the posterior with one half.
  function AuditorReturn(w: World, master: nat, episode: nat, a: Action): Option<real>
    requires w.space > 0
  {
    var symbol := Observe(w, SemanticKeys.PRIVATE_NAMESPACES, master, episode, a.kind);
    match AuditorPosterior(a.kind, symbol)
    case None => None
    case Some(p) =>
      var decision := if p >= 1.0 / 2.0 then 1 else -1;
      Some(ReturnFor(a.kind, symbol, Succeeds(w, SemanticKeys.PRIVATE_NAMESPACES, master, episode, decision)))
  }

  lemma SameDigest(w: World, d: SemanticKeys.Draw)
    requires SemanticKeys.Canonical(d)
    ensures Digest(w, SemanticKeys.PRODUCER_NAMESPACES, d) == Digest(w, SemanticKeys.PRIVATE_NAMESPACES, d)
  {
    SemanticKeys.DrawsHaveKeys(d);
  }

  lemma SameRegime(w: World, master: nat, episode: nat)
    ensures Regime(w, SemanticKeys.PRODUCER_NAMESPACES, master, episode) == Regime(w, SemanticKeys.PRIVATE_NAMESPACES, master, episode)
    ensures var theta := Regime(w, SemanticKeys.PRODUCER_NAMESPACES, master, episode); theta == 1 || theta == -1
  {
    Schedule.AuditorComputesTheSame(w.hmac, w.episodes, master);
  }

  lemma SameObservation(w: World, master: nat, episode: nat, a: Action)
    requires ValidWorld(w) && a in ACTIONS
    ensures var symbol := Observe(w, SemanticKeys.PRODUCER_NAMESPACES, master, episode, a.kind);
      symbol == Observe(w, SemanticKeys.PRIVATE_NAMESPACES, master, episode, a.kind) && symbol in Outcomes(a)
  {
    if IsPulse(a) {
      SamePulse(w, master, episode, a.kind);
    } else if a.kind.Nuisance? {
      SameDigest(w, SemanticKeys.Nuisance(master, episode));
      BinsAreQuarters(Digest(w, SemanticKeys.PRODUCER_NAMESPACES, SemanticKeys.Nuisance(master, episode)), w.space, 0);
    }
  }

  lemma SamePulse(w: World, master: nat, episode: nat, kind: Kind)
    requires ValidWorld(w) && (kind.Weak? || kind.Strong? || kind.Overpowered?)
    ensures var symbol := Observe(w, SemanticKeys.PRODUCER_NAMESPACES, master, episode, kind);
      symbol == Observe(w, SemanticKeys.PRIVATE_NAMESPACES, master, episode, kind) && (symbol == 1 || symbol == -1)
  {
    SameRegime(w, master, episode);
    PulseActionsNamed(kind);
    SameDigest(w, SemanticKeys.Pulse(master, episode, ActionId(kind)));
  }

  lemma PulseActionsNamed(kind: Kind)
    requires kind.Weak? || kind.Strong? || kind.Overpowered?
    ensures ActionId(kind) in SemanticKeys.PULSE_ACTIONS
  {
    assert SemanticKeys.PULSE_ACTIONS[0] == "weak" && SemanticKeys.PULSE_ACTIONS[1] == "strong"
        && SemanticKeys.PULSE_ACTIONS[2] == "overpowered";
  }

  lemma SameSuccess(w: World, master: nat, episode: nat, decision: int)
    requires decision == 1 || decision == -1
    ensures Succeeds(w, SemanticKeys.PRODUCER_NAMESPACES, master, episode, decision)
         == Succeeds(w, SemanticKeys.PRIVATE_NAMESPACES, master, episode, decision)
  {
    SameRegime(w, master, episode);
    SameDigest(w, SemanticKeys.Terminal(master, episode, decision));
  }

  // For every salt, the auditor reconstructs the return of every candidate action exactly.
  lemma AuditorReconstructsReturns(w: World, master: nat, episode: nat, a: Action)
    requires ValidWorld(w) && a in ACTIONS
    ensures ProducerReturn(w, master, episode, a).Some? && AuditorReturn(w, master, episode, a) == ProducerReturn(w, master, episode, a)
  {
    var symbol := Observe(w, SemanticKeys.PRODUCER_NAMESPACES, master, episode, a.kind);
    SameObservation(w, master, episode, a);
    AuditorPosteriorIsBayes(a, symbol);
    var p := PosteriorDirect(a, symbol, 1.0 / 2.0).value;
    DirectAtHalf(p);
    SameSuccess(w, master, episode, 1);
    SameSuccess(w, master, episode, -1);
  }

  lemma DirectAtHalf(p: real)
    ensures ExpectedTerminalPayoff(Direct, p) >= ExpectedTerminalPayoff(Reversed, p) <==> p >= 1.0 / 2.0
  {
  }

  // ---------------------------------------------------------------- arms

  // The action an arm selects from its fresh belief of one half; the public digest of the episode is the uniform
  // arm's ordinal.
  function LaneChoice(ln: real -> real, uniform: string -> nat, arm: Arms.Arm, master: nat, episode: nat): Action {
    Arms.Choice(ln, arm, 1.0 / 2.0, uniform(SemanticKeys.UniformKey(master, episode)) % |ACTIONS|)
  }

  function LaneReturn(ln: real -> real, w: World, uniform: string -> nat, arm: Arms.Arm, master: nat, episode: nat): Option<real>
    requires w.space > 0
  {
    ProducerReturn(w, master, episode, LaneChoice(ln, uniform, arm, master, episode))
  }

  lemma LaneChoiceIs(ln: real -> real, uniform: string -> nat, arm: Arms.Arm, master: nat, episode: nat)
    requires Information.IsLog(ln)
    ensures LaneChoice(ln, uniform, arm, master, episode) ==
      if arm.UniformRandom? then ACTIONS[uniform(SemanticKeys.UniformKey(master, episode)) % |ACTIONS|] else Arms.FrozenAction(arm)
  {
    if !arm.UniformRandom? {
      Arms.ChoicesAre(ln, arm, 1.0 / 2.0, uniform(SemanticKeys.UniformKey(master, episode)) % |ACTIONS|);
    }
  }

  lemma ReturnOf(w: World, master: nat, episode: nat, a: Action)
    requires ValidWorld(w) && a in ACTIONS
    ensures exists symbol, success :: ProducerReturn(w, master, episode, a) == Some(ReturnFor(a.kind, symbol, success))
  {
    AuditorReconstructsReturns(w, master, episode, a);
    var symbol := Observe(w, SemanticKeys.PRODUCER_NAMESPACES, master, episode, a.kind);
    var p := PosteriorDirect(a, symbol, 1.0 / 2.0).value;
    var decision := if ExpectedTerminalPayoff(Direct, p) >= ExpectedTerminalPayoff(Reversed, p) then 1 else -1;
    var success := Succeeds(w, SemanticKeys.PRODUCER_NAMESPACES, master, episode, decision);
    assert ProducerReturn(w, master, episode, a) == Some(ReturnFor(a.kind, symbol, success));
  }

  // No two actions' costs differ by a whole number, which is all that outcomes can add.
  lemma CostsTellActions(a: Action, symbol: int, success: bool, b: Action, symbol': int, success': bool)
    requires a in ACTIONS && b in ACTIONS && ReturnFor(a.kind, symbol, success) == ReturnFor(b.kind, symbol', success')
    ensures a == b
  {
    ReturnIsWhole(a, symbol, success);
    ReturnIsWhole(b, symbol', success');
  }

  // What the two outcomes pay.
  function Paid(kind: Kind, symbol: int, success: bool): nat {
    (if Payoff(kind, symbol) == 1.0 then 1 else 0) + if success then 1 else 0
  }

  lemma ReturnIsWhole(a: Action, symbol: int, success: bool)
    ensures ReturnFor(a.kind, symbol, success) == Paid(a.kind, symbol, success) as real - ActionCost(a.kind) - AcquisitionCost(a.kind)
  {
  }

  // In every world, two actions return the same in an episode exactly when they are one action.
  lemma ReturnsTellActions(w: World, master: nat, episode: nat, a: Action, b: Action)
    requires ValidWorld(w) && a in ACTIONS && b in ACTIONS
    ensures ProducerReturn(w, master, episode, a) == ProducerReturn(w, master, episode, b) <==> a == b
  {
    if ProducerReturn(w, master, episode, a) == ProducerReturn(w, master, episode, b) {
      ReturnOf(w, master, episode, a);
      ReturnOf(w, master, episode, b);
      var symbol, success :| ProducerReturn(w, master, episode, a) == Some(ReturnFor(a.kind, symbol, success));
      var symbol', success' :| ProducerReturn(w, master, episode, b) == Some(ReturnFor(b.kind, symbol', success'));
      CostsTellActions(a, symbol, success, b, symbol', success');
    }
  }

  // Whatever the salt, two arms return the same in an episode exactly when they select one action there.
  lemma PairedExactly(ln: real -> real, w: World, uniform: string -> nat, arm: Arms.Arm, other: Arms.Arm, master: nat, episode: nat)
    requires Information.IsLog(ln) && ValidWorld(w)
    ensures LaneReturn(ln, w, uniform, arm, master, episode) == LaneReturn(ln, w, uniform, other, master, episode) <==>
      LaneChoice(ln, uniform, arm, master, episode) == LaneChoice(ln, uniform, other, master, episode)
  {
    LaneChoiceIs(ln, uniform, arm, master, episode);
    LaneChoiceIs(ln, uniform, other, master, episode);
    ReturnsTellActions(w, master, episode, LaneChoice(ln, uniform, arm, master, episode), LaneChoice(ln, uniform, other, master, episode));
  }

  // So Prospect and the oracle arm are paired in every episode, no other two ranked arms are paired in any, and the
  // uniform arm is paired with a ranked one exactly where its public digest names that arm's action.
  lemma PairedArms(ln: real -> real, w: World, uniform: string -> nat, arm: Arms.Arm, other: Arms.Arm, master: nat, episode: nat)
    requires Information.IsLog(ln) && ValidWorld(w) && !arm.UniformRandom?
    ensures LaneReturn(ln, w, uniform, arm, master, episode) == LaneReturn(ln, w, uniform, other, master, episode) <==>
      if other.UniformRandom? then uniform(SemanticKeys.UniformKey(master, episode)) % 5 == Arms.Ordinal(Arms.FrozenAction(arm))
      else arm == other || {arm, other} == {Arms.Prospect, Arms.FractionOracle}
  {
    LaneChoiceIs(ln, uniform, arm, master, episode);
    LaneChoiceIs(ln, uniform, other, master, episode);
    PairedExactly(ln, w, uniform, arm, other, master, episode);
    if other.UniformRandom? {
      OrdinalsName(uniform(SemanticKeys.UniformKey(master, episode)) % 5, Arms.FrozenAction(arm));
    } else {
      FrozenTellArms(arm, other);
    }
  }

  lemma ProspectAndOracle(ln: real -> real, w: World, uniform: string -> nat, master: nat, episode: nat)
    requires Information.IsLog(ln) && ValidWorld(w)
    ensures LaneReturn(ln, w, uniform, Arms.Prospect, master, episode) == LaneReturn(ln, w, uniform, Arms.FractionOracle, master, episode)
  {
    PairedArms(ln, w, uniform, Arms.Prospect, Arms.FractionOracle, master, episode);
  }

  lemma OrdinalsName(n: nat, a: Action)
    requires n < |ACTIONS| && a in ACTIONS
    ensures ACTIONS[n] == a <==> n == Arms.Ordinal(a)
  {
  }

  lemma FrozenTellArms(arm: Arms.Arm, other: Arms.Arm)
    requires !arm.UniformRandom? && !other.UniformRandom?
    ensures Arms.FrozenAction(arm) in ACTIONS
    ensures Arms.FrozenAction(arm) == Arms.FrozenAction(other) <==> arm == other || {arm, other} == {Arms.Prospect, Arms.FractionOracle}
  {
    if {arm, other} == {Arms.Prospect, Arms.FractionOracle} {
      assert arm in {Arms.Prospect, Arms.FractionOracle} && other in {Arms.Prospect, Arms.FractionOracle};
    }
  }
}
