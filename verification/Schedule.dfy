/** The balanced private regime schedule (seeding.py) behind its cache, and the auditor's recomputation (q1_audit.py). */
module Schedule {
  import opened Wrappers
  import SemanticKeys

  const MASTERS: nat := 4
  const REVERSED: int := -1
  const DIRECT: int := 1

  type Pair = (nat, nat)

  // Pairs are compared by digest and then by episode.
  predicate Less(a: Pair, b: Pair) {
    a.0 < b.0 || (a.0 == b.0 && a.1 < b.1)
  }

  function Insert(p: Pair, s: seq<Pair>): (r: seq<Pair>)
    ensures |r| == |s| + 1
  {
    if s == [] then [p]
    else if Less(p, s[0]) then [p] + s
    else [s[0]] + Insert(p, s[1..])
  }

  // The pairs (digest, episode) of the first n episodes in order, whatever the digests are.
  function Ranked(digest: nat -> nat, n: nat): (r: seq<Pair>)
    ensures |r| == n
  {
    if n == 0 then [] else Insert((digest(n - 1), n - 1), Ranked(digest, n - 1))
  }

  predicate Ascending(s: seq<Pair>) {
    forall i, j | 0 <= i < j < |s| :: Less(s[i], s[j])
  }

  lemma {:induction false} InsertKeeps(p: Pair, s: seq<Pair>)
    requires Ascending(s) && p !in s
    ensures Ascending(Insert(p, s)) && forall x :: x in Insert(p, s) <==> x == p || x in s
  {
    if s != [] {
      if Less(p, s[0]) {
        InsertFront(p, s);
      } else {
        assert forall x | x in s[1..] :: x in s;
        InsertKeeps(p, s[1..]);
        InsertFront(s[0], Insert(p, s[1..]));
      }
    }
  }

  lemma InsertFront(p: Pair, s: seq<Pair>)
    requires Ascending(s) && forall x | x in s :: Less(p, x)
    ensures Ascending([p] + s)
  {
  }

  predicate IsPair(digest: nat -> nat, n: nat, p: Pair) {
    p.1 < n && p.0 == digest(p.1)
  }

  lemma {:induction false} RankedHolds(digest: nat -> nat, n: nat)
    ensures Ascending(Ranked(digest, n))
    ensures forall p :: p in Ranked(digest, n) <==> IsPair(digest, n, p)
  {
    if n > 0 {
      RankedHolds(digest, n - 1);
      InsertKeeps((digest(n - 1), n - 1), Ranked(digest, n - 1));
    }
  }

  // ---------------------------------------------------------------- the schedule

  // The episodes of the first half of the ranking.
  function ReversedEpisodes(digest: nat -> nat, n: nat): set<nat> {
    set p | p in Ranked(digest, n)[..n / 2] :: p.1
  }

  function RegimeOf(digest: nat -> nat, n: nat, episode: nat): int {
    if episode in ReversedEpisodes(digest, n) then REVERSED else DIRECT
  }

  function ScheduleOf(digest: nat -> nat, n: nat): (schedule: seq<int>)
    ensures |schedule| == n
  {
    seq(n, episode requires 0 <= episode < n => RegimeOf(digest, n, episode))
  }

  // ---------------------------------------------------------------- what the ranking means

  function PairOf(digest: nat -> nat, episode: nat): Pair { (digest(episode), episode) }

  // The episodes that rank below one.
  ghost function Below(digest: nat -> nat, n: nat, episode: nat): set<nat> {
    set f | 0 <= f < n && Less(PairOf(digest, f), PairOf(digest, episode))
  }

  ghost function Rank(digest: nat -> nat, n: nat, episode: nat): nat { |Below(digest, n, episode)| }

  function EpisodesUpTo(s: seq<Pair>, n: nat): set<nat>
    requires n <= |s|
  {
    if n == 0 then {} else EpisodesUpTo(s, n - 1) + {s[n - 1].1}
  }

  lemma EpisodesDistinct(digest: nat -> nat, n: nat, k: nat, i: nat)
    requires k < i < n
    ensures Ranked(digest, n)[k].1 != Ranked(digest, n)[i].1
  {
    var s := Ranked(digest, n);
    RankedHolds(digest, n);
    assert s[k] in s && s[i] in s && Less(s[k], s[i]);
  }

  lemma {:induction false} EpisodesCount(digest: nat -> nat, n: nat, i: nat)
    requires i <= n
    ensures var s := Ranked(digest, n); |EpisodesUpTo(s, i)| == i
    ensures forall e :: e in EpisodesUpTo(Ranked(digest, n), i) <==> exists k | 0 <= k < i :: Ranked(digest, n)[k].1 == e
  {
    EpisodesAre(Ranked(digest, n), i);
    if i > 0 {
      EpisodesCount(digest, n, i - 1);
      EpisodeIsNew(digest, n, i - 1);
    }
  }

  lemma {:induction false} EpisodesAre(s: seq<Pair>, i: nat)
    requires i <= |s|
    ensures forall e :: e in EpisodesUpTo(s, i) <==> exists k | 0 <= k < i :: s[k].1 == e
  {
    if i > 0 {
      EpisodesAre(s, i - 1);
    }
  }

  lemma EpisodeIsNew(digest: nat -> nat, n: nat, i: nat)
    requires i < n
    ensures Ranked(digest, n)[i].1 !in EpisodesUpTo(Ranked(digest, n), i)
  {
    var s := Ranked(digest, n);
    EpisodesAre(s, i);
    forall k | 0 <= k < i ensures s[k].1 != s[i].1 {
      EpisodesDistinct(digest, n, k, i);
    }
  }

  // Position i of the ranking holds the episode with exactly i episodes below it.
  lemma PositionIsRank(digest: nat -> nat, n: nat, i: nat)
    requires i < n
    ensures Rank(digest, n, Ranked(digest, n)[i].1) == i
  {
    var s := Ranked(digest, n);
    RankedHolds(digest, n);
    EpisodesCount(digest, n, i);
    assert s[i] in s && s[i] == PairOf(digest, s[i].1);
    forall f | 0 <= f < n ensures f in EpisodesUpTo(s, i) <==> Less(PairOf(digest, f), s[i]) {
      assert IsPair(digest, n, PairOf(digest, f));
      var k :| 0 <= k < n && s[k] == PairOf(digest, f);
      AscendingOrders(s, k, i);
      if f in EpisodesUpTo(s, i) {
        var j :| 0 <= j < i && s[j].1 == f;
        assert s[j] in s && s[j] == PairOf(digest, f);
      }
    }
    forall e | e in EpisodesUpTo(s, i) ensures 0 <= e < n {
      var j :| 0 <= j < i && s[j].1 == e;
      assert s[j] in s;
    }
    assert Below(digest, n, s[i].1) == EpisodesUpTo(s, i);
  }

  lemma AscendingOrders(s: seq<Pair>, k: nat, i: nat)
    requires Ascending(s) && k < |s| && i < |s|
    ensures Less(s[k], s[i]) <==> k < i
  {
    if i < k {
      assert Less(s[i], s[k]);
    }
  }

  // An episode is reversed exactly when fewer than half of the episodes rank below it, even if digests collide.
  lemma ReversedExactly(digest: nat -> nat, n: nat, episode: nat)
    requires episode < n
    ensures ScheduleOf(digest, n)[episode] == REVERSED <==> Rank(digest, n, episode) < n / 2
  {
    var s := Ranked(digest, n);
    RankedHolds(digest, n);
    var i := PositionOf(digest, n, episode);
    PositionIsRank(digest, n, i);
    if episode in ReversedEpisodes(digest, n) {
      var p :| p in s[..n / 2] && p.1 == episode;
      var k :| 0 <= k < n / 2 && s[k] == p;
      PositionIsRank(digest, n, k);
    }
    if i < n / 2 {
      assert s[..n / 2][i] == s[i] && s[i] in s[..n / 2];
    }
  }

  lemma PositionOf(digest: nat -> nat, n: nat, episode: nat) returns (i: nat)
    requires episode < n
    ensures i < n && Ranked(digest, n)[i].1 == episode
  {
    RankedHolds(digest, n);
    assert IsPair(digest, n, PairOf(digest, episode));
    i :| 0 <= i < n && Ranked(digest, n)[i] == PairOf(digest, episode);
  }

  // Every reversed pair ranks below every direct pair.
  lemma ReversedRankLower(digest: nat -> nat, n: nat, e: nat, f: nat)
    requires e < n && f < n
    requires ScheduleOf(digest, n)[e] == REVERSED && ScheduleOf(digest, n)[f] == DIRECT
    ensures Less(PairOf(digest, e), PairOf(digest, f))
  {
    ReversedExactly(digest, n, e);
    ReversedExactly(digest, n, f);
    if Less(PairOf(digest, f), PairOf(digest, e)) {
      BelowGrows(digest, n, f, e);
    } else {
      assert e != f;
    }
  }

  lemma BelowGrows(digest: nat -> nat, n: nat, f: nat, e: nat)
    requires Less(PairOf(digest, f), PairOf(digest, e))
    ensures Rank(digest, n, f) <= Rank(digest, n, e)
  {
    Subset(Below(digest, n, f), Below(digest, n, e));
  }

  lemma {:induction false} Subset(a: set<nat>, b: set<nat>)
    requires a <= b
    ensures |a| <= |b|
  {
    if a != {} {
      var x :| x in a;
      Subset(a - {x}, b - {x});
    }
  }

  // ---------------------------------------------------------------- exact balance

  function Count(s: seq<int>, x: int, n: nat): nat
    requires n <= |s|
  {
    if n == 0 then 0 else Count(s, x, n - 1) + if s[n - 1] == x then 1 else 0
  }

  ghost function Places(s: seq<int>, x: int, n: nat): set<nat>
    requires n <= |s|
  {
    set e: nat | 0 <= e < n && s[e] == x
  }

  lemma {:induction false} CountIsSize(s: seq<int>, x: int, n: nat)
    requires n <= |s|
    ensures Count(s, x, n) == |Places(s, x, n)|
  {
    if n > 0 {
      CountIsSize(s, x, n - 1);
      var before := Places(s, x, n - 1);
      assert Places(s, x, n) == if s[n - 1] == x then before + {n - 1} else before;
    }
  }

  lemma {:induction false} CountsAddUp(s: seq<int>, n: nat)
    requires n <= |s| && forall e | 0 <= e < |s| :: s[e] == REVERSED || s[e] == DIRECT
    ensures Count(s, REVERSED, n) + Count(s, DIRECT, n) == n
  {
    if n > 0 {
      CountsAddUp(s, n - 1);
    }
  }

  // Exactly half of the episodes are reversed, for every digest function; with an even budget the halves are equal.
  lemma ExactlyBalanced(digest: nat -> nat, n: nat)
    ensures Count(ScheduleOf(digest, n), REVERSED, n) == n / 2
    ensures Count(ScheduleOf(digest, n), DIRECT, n) == n - n / 2
  {
    var schedule := ScheduleOf(digest, n);
    EpisodesCount(digest, n, n / 2);
    ReversedAreFirst(digest, n);
    CountIsSize(schedule, REVERSED, n);
    CountsAddUp(schedule, n);
  }

  lemma ReversedAreFirst(digest: nat -> nat, n: nat)
    ensures Places(ScheduleOf(digest, n), REVERSED, n) == EpisodesUpTo(Ranked(digest, n), n / 2)
  {
    var s := Ranked(digest, n);
    RankedHolds(digest, n);
    EpisodesCount(digest, n, n / 2);
    forall e | e in EpisodesUpTo(s, n / 2) ensures 0 <= e < n && e in ReversedEpisodes(digest, n) {
      var k :| 0 <= k < n / 2 && s[k].1 == e;
      assert s[k] in s && s[..n / 2][k] == s[k] && s[k] in s[..n / 2];
    }
    forall e | e in ReversedEpisodes(digest, n) ensures e in EpisodesUpTo(s, n / 2) {
      var p :| p in s[..n / 2] && p.1 == e;
      var k :| 0 <= k < n / 2 && s[k] == p;
    }
  }

  // ---------------------------------------------------------------- the schedule object and its cache

  // A keyed digest of a semantic key; a key that the builder refuses would raise.
  function DigestAt(hmac: string -> nat, allowed: seq<string>, master: nat, episode: nat): nat {
    match SemanticKeys.KeyOf(allowed, SemanticKeys.Theta(master, episode))
    case Ok(key) => hmac(key)
    case Err(_) => 0
  }

  function MasterSchedule(hmac: string -> nat, allowed: seq<string>, n: nat, master: nat): seq<int> {
    ScheduleOf((episode: nat) => DigestAt(hmac, allowed, master, episode), n)
  }

  class PrivateSchedule {
    const hmac: string -> nat
    const allowed: seq<string>     // the namespaces this implementation's key builder knows
    const episodes: nat
    var cache: map<int, seq<int>>

    ghost predicate Valid()
      reads this
    {
      forall m | m in cache :: 0 <= m < MASTERS && cache[m] == MasterSchedule(hmac, allowed, episodes, m)
    }

    constructor (hmac: string -> nat, allowed: seq<string>, episodes: nat)
      ensures Valid() && this.hmac == hmac && this.allowed == allowed && this.episodes == episodes
    {
      this.hmac, this.allowed, this.episodes := hmac, allowed, episodes;
      cache := map[];
    }

    // None for a master outside the budget. What was asked before makes no difference to the answer.
    method ThetaSchedule(master: int) returns (r: Option<seq<int>>)
      requires Valid()
      modifies this
      ensures Valid()
      ensures r == if 0 <= master < MASTERS then Some(MasterSchedule(hmac, allowed, episodes, master)) else None
    {
      if master < 0 || master >= MASTERS {
        return None;
      }
      if master in cache {
        return Some(cache[master]);
      }
      var schedule := MasterSchedule(hmac, allowed, episodes, master);
      cache := cache[master := schedule];
      return Some(schedule);
    }

    method Theta(master: int, episode: int) returns (r: Option<int>)
      requires Valid()
      modifies this
      ensures Valid()
      ensures r == if 0 <= master < MASTERS && 0 <= episode < episodes
                   then Some(MasterSchedule(hmac, allowed, episodes, master)[episode]) else None
    {
      if master < 0 || master >= MASTERS || episode < 0 || episode >= episodes {
        return None;
      }
      var schedule := ThetaSchedule(master);
      return Some(schedule.value[episode]);
    }
  }

  // The producer and the auditor compute the same schedule from the same salt.
  lemma AuditorComputesTheSame(hmac: string -> nat, n: nat, master: nat)
    ensures MasterSchedule(hmac, SemanticKeys.PRODUCER_NAMESPACES, n, master)
         == MasterSchedule(hmac, SemanticKeys.PRIVATE_NAMESPACES, n, master)
  {
    forall episode ensures DigestAt(hmac, SemanticKeys.PRODUCER_NAMESPACES, master, episode)
                        == DigestAt(hmac, SemanticKeys.PRIVATE_NAMESPACES, master, episode) {
      SemanticKeys.DrawsHaveKeys(SemanticKeys.Theta(master, episode));
    }
    SameDigests((e: nat) => DigestAt(hmac, SemanticKeys.PRODUCER_NAMESPACES, master, e),
                (e: nat) => DigestAt(hmac, SemanticKeys.PRIVATE_NAMESPACES, master, e), n);
  }

  lemma {:induction false} SameRanking(d: nat -> nat, e: nat -> nat, n: nat)
    requires forall x: nat :: d(x) == e(x)
    ensures Ranked(d, n) == Ranked(e, n)
  {
    if n > 0 {
      SameRanking(d, e, n - 1);
    }
  }

  lemma SameDigests(d: nat -> nat, e: nat -> nat, n: nat)
    requires forall x: nat :: d(x) == e(x)
    ensures ScheduleOf(d, n) == ScheduleOf(e, n)
  {
    SameRanking(d, e, n);
  }
}
