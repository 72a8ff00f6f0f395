/** Global uniqueness of record identities from per-row checks (q1_audit.py): every identity of a row must lie in the
    row's own namespace `run:m..:a..:e..:` and differ from the row's other identities. */
module Identifiers {
  import opened Wrappers
  import opened Violations
  import Merge
  import Consolidation
  import AuditStream
  import AuditVerdict

  datatype EpisodeKey = EpisodeKey(master: nat, arm: string, episode: nat)

  // ---------------------------------------------------------------- decimal rendering

  function Digit(d: nat): char
    requires d < 10
  {
    '0' + d as char
  }

  function Decimal(n: nat): (s: string)
    ensures s != [] && forall i | 0 <= i < |s| :: '0' <= s[i] <= '9'
  {
    if n < 10 then [Digit(n)] else Decimal(n / 10) + [Digit(n % 10)]
  }

  function Numeral(s: string): nat
    requires forall i | 0 <= i < |s| :: '0' <= s[i] <= '9'
  {
    if s == [] then 0 else 10 * Numeral(s[..|s| - 1]) + (s[|s| - 1] - '0') as nat
  }

  // Reading a rendered number back gives the number, so rendering is injective.
  lemma {:induction false} NumeralDecimal(n: nat)
    ensures Numeral(Decimal(n)) == n
  {
    if n >= 10 {
      NumeralDecimal(n / 10);
      assert Decimal(n)[..|Decimal(n)| - 1] == Decimal(n / 10);
    }
  }

  lemma DecimalInjective(m: nat, n: nat)
    requires Decimal(m) == Decimal(n)
    ensures m == n
  {
    NumeralDecimal(m);
    NumeralDecimal(n);
  }

  // ---------------------------------------------------------------- namespaces

  predicate ColonFree(s: string) {
    ':' !in s
  }

  // The colon-terminated path of a key below its run.
  function KeyPath(key: EpisodeKey): string {
    ":m" + Decimal(key.master) + ":a" + key.arm + ":e" + Decimal(key.episode) + ":"
  }

  function Namespace(run: string, key: EpisodeKey): string {
    run + KeyPath(key)
  }

  predicate StartsWith(s: string, prefix: string) {
    |prefix| <= |s| && s[..|prefix|] == prefix
  }

  // A colon-free word and its colon at the start of a string end at the string's first colon.
  lemma WordEnds(s: string, a: string)
    requires ColonFree(a) && StartsWith(s, a + ":")
    ensures |a| < |s| && s[|a|] == ':' && s[..|a|] == a && forall i | 0 <= i < |a| :: s[i] != ':'
  {
    var w := a + ":";
    assert s[..|w|] == w && s[|a|] == w[|a|];
    assert s[..|a|] == w[..|a|] == a;
    assert forall i | 0 <= i < |a| :: s[i] == a[i] && a[i] in a;
  }

  // Of two colon-free words, each followed by a colon at the start of one string, both are the same word.
  lemma SameWord(s: string, a: string, b: string)
    requires ColonFree(a) && ColonFree(b) && StartsWith(s, a + ":") && StartsWith(s, b + ":")
    ensures a == b
  {
    WordEnds(s, a);
    WordEnds(s, b);
    assert |a| == |b|;
  }

  // Dropping the same prefix on both sides.
  lemma DropPrefix(s: string, p: string, q: string)
    requires StartsWith(s, p + q)
    ensures StartsWith(s, p) && StartsWith(s[|p|..], q)
  {
    assert s[..|p + q|] == p + q;
    assert s[..|p|] == (p + q)[..|p|] == p;
    assert s[|p|..][..|q|] == (p + q)[|p|..] == q;
  }

  // Peels one `tag word :` segment; the tag is two characters.
  lemma PeelWord(s: string, tag: string, a: string, b: string, restA: string, restB: string)
    requires ColonFree(a) && ColonFree(b)
    requires StartsWith(s, tag + (a + (":" + restA))) && StartsWith(s, tag + (b + (":" + restB)))
    ensures a == b && |tag| + |a| <= |s|
    ensures StartsWith(s[|tag| + |a|..], ":" + restA) && StartsWith(s[|tag| + |a|..], ":" + restB)
  {
    DropPrefix(s, tag, a + (":" + restA));
    DropPrefix(s, tag, b + (":" + restB));
    var t := s[|tag|..];
    DropPrefix(t, a, ":" + restA);
    DropPrefix(t, b, ":" + restB);
    assert a + (":" + restA) == (a + ":") + restA && b + (":" + restB) == (b + ":") + restB;
    DropPrefix(t, a + ":", restA);
    DropPrefix(t, b + ":", restB);
    SameWord(t, a, b);
    assert t[|a|..] == s[|tag| + |a|..];
  }

  function EpisodePart(key: EpisodeKey): string { "e" + (Decimal(key.episode) + (":" + "")) }
  function ArmPart(key: EpisodeKey): string { "a" + (key.arm + (":" + EpisodePart(key))) }
  function MasterPart(key: EpisodeKey): string { ":m" + (Decimal(key.master) + (":" + ArmPart(key))) }

  lemma PathParts(key: EpisodeKey)
    ensures KeyPath(key) == MasterPart(key)
  {
    var m, e := Decimal(key.master), Decimal(key.episode);
    assert ":m" + m + ":a" == ":m" + (m + (":" + "a"));
    assert KeyPath(key) == ":m" + m + ":a" + (key.arm + ":e" + e + ":");
    assert key.arm + ":e" + e + ":" == key.arm + (":" + ("e" + (e + (":" + ""))));
  }

  // One string below one run lies under the path of at most one key, for any masters and episodes.
  lemma PathsDisjoint(s: string, k: EpisodeKey, l: EpisodeKey)
    requires ColonFree(k.arm) && ColonFree(l.arm)
    requires StartsWith(s, KeyPath(k)) && StartsWith(s, KeyPath(l))
    ensures k == l
  {
    PathParts(k);
    PathParts(l);
    PeelWord(s, ":m", Decimal(k.master), Decimal(l.master), ArmPart(k), ArmPart(l));
    var t := s[2 + |Decimal(k.master)|..];
    DropPrefix(t, ":", ArmPart(k));
    DropPrefix(t, ":", ArmPart(l));
    PeelWord(t[1..], "a", k.arm, l.arm, EpisodePart(k), EpisodePart(l));
    var u := t[1..][1 + |k.arm|..];
    DropPrefix(u, ":", EpisodePart(k));
    DropPrefix(u, ":", EpisodePart(l));
    PeelWord(u[1..], "e", Decimal(k.episode), Decimal(l.episode), "", "");
    DecimalInjective(k.master, l.master);
    DecimalInjective(k.episode, l.episode);
  }

  // ---------------------------------------------------------------- the check of one row

  // The identity fields of one raw row. None stands for a value that is not a string, or a section that is not an object.
  datatype TerminalIds = TerminalIds(fields: seq<Option<string>>, candidates: seq<(Option<string>, Option<string>)>)
  datatype RowIds = RowIds(
    run: Option<string>, acquisition: Option<seq<Option<string>>>, candidates: seq<Option<string>>, terminal: Option<TerminalIds>)

  const ACQUISITION_IDS: nat := 8
  const TERMINAL_IDS: nat := 7

  // Both sections are objects, each of which gives the same number of identity fields on every row.
  predicate WholeRow(row: RowIds) {
    && row.acquisition.Some? && |row.acquisition.value| == ACQUISITION_IDS
    && row.terminal.Some? && |row.terminal.value.fields| == TERMINAL_IDS
  }

  function Pairs(rows: seq<(Option<string>, Option<string>)>): seq<Option<string>> {
    if rows == [] then [] else [rows[0].0, rows[0].1] + Pairs(rows[1..])
  }

  // In the order in which they are collected.
  function Identities(row: RowIds): seq<Option<string>> {
    (match row.acquisition case Some(ids) => ids case None => [])
    + (match row.terminal case Some(t) => t.fields case None => [])
    + row.candidates
    + (match row.terminal case Some(t) => Pairs(t.candidates) case None => [])
  }

  ghost predicate Inside(ids: seq<Option<string>>, namespace: string, n: nat)
    requires n <= |ids|
  {
    forall i | 0 <= i < n :: ids[i].Some? && StartsWith(ids[i].value, namespace)
  }

  ghost predicate Distinct(ids: seq<Option<string>>, n: nat)
    requires n <= |ids|
  {
    forall i, j | 0 <= i < j < n :: ids[i] != ids[j]
  }

  ghost predicate IdentifiersHold(row: RowIds, key: EpisodeKey) {
    var ids := Identities(row);
    && row.run.Some? && row.run.value != ""
    && Inside(ids, Namespace(row.run.value, key), |ids|) && Distinct(ids, |ids|)
  }

  // The violations of one row: at most one for each identity.
  function IdentityFault(id: Option<string>, namespace: string, seen: set<string>): seq<Fault> {
    if id.None? || !StartsWith(id.value, namespace) then [Fault(K1, "outside its exact episode namespace")]
    else if id.value in seen then [Fault(K1, "duplicates record identity")]
    else []
  }

  function Learned(id: Option<string>, namespace: string, seen: set<string>): set<string> {
    if id.None? || !StartsWith(id.value, namespace) then seen else seen + {id.value}
  }

  function FaultsFrom(ids: seq<Option<string>>, namespace: string, seen: set<string>): seq<Fault> {
    if ids == [] then []
    else IdentityFault(ids[0], namespace, seen) + FaultsFrom(ids[1..], namespace, Learned(ids[0], namespace, seen))
  }

  function IdentifierFaults(row: RowIds, key: EpisodeKey): seq<Fault> {
    if row.run.None? || row.run.value == "" then [Fault(K1, "lacks a run-scoped identity namespace")]
    else FaultsFrom(Identities(row), Namespace(row.run.value, key), {})
  }

  method RecordIdentifiers(row: RowIds, key: EpisodeKey, v: Accumulator)
    requires v.Valid()
    modifies v
    ensures v.Valid() && v.received == AfterFaults(old(v.received), IdentifierFaults(row, key))
    ensures v.Clean() <==> old(v.Clean()) && IdentifiersHold(row, key)
  {
    FaultsMeanViolation(row, key);
    if row.run.None? || row.run.value == "" {
      v.Add(K1, "lacks a run-scoped identity namespace");
      return;
    }
    CheckIdentities(Identities(row), Namespace(row.run.value, key), v);
  }

  method CheckIdentities(ids: seq<Option<string>>, namespace: string, v: Accumulator)
    requires v.Valid()
    modifies v
    ensures v.Valid() && v.received == AfterFaults(old(v.received), FaultsFrom(ids, namespace, {}))
    ensures v.count == old(v.count) + |FaultsFrom(ids, namespace, {})|
  {
    var localSeen: set<string> := {};
    assert ids[0..] == ids;
    for i := 0 to |ids|
      invariant v.Valid()
      invariant AfterFaults(v.received, FaultsFrom(ids[i..], namespace, localSeen))
             == AfterFaults(old(v.received), FaultsFrom(ids, namespace, {}))
      invariant v.count + |FaultsFrom(ids[i..], namespace, localSeen)| == old(v.count) + |FaultsFrom(ids, namespace, {})|
    {
      FaultsNext(ids, namespace, localSeen, i, v.received);
      localSeen := CheckIdentity(ids[i], namespace, localSeen, v);
    }
  }

  method CheckIdentity(id: Option<string>, namespace: string, localSeen: set<string>, v: Accumulator) returns (seen: set<string>)
    requires v.Valid()
    modifies v
    ensures v.Valid() && seen == Learned(id, namespace, localSeen)
    ensures v.received == AfterFaults(old(v.received), IdentityFault(id, namespace, localSeen))
    ensures v.count == old(v.count) + |IdentityFault(id, namespace, localSeen)|
  {
    if id.None? || !StartsWith(id.value, namespace) {
      v.Add(K1, "outside its exact episode namespace");
      return localSeen;
    }
    if id.value in localSeen {
      v.Add(K1, "duplicates record identity");
    }
    return localSeen + {id.value};
  }

  lemma FaultsNext(ids: seq<Option<string>>, namespace: string, seen: set<string>, i: nat, received: map<Gate, seq<string>>)
    requires i < |ids| && forall gate: Gate :: gate in received
    ensures var rest := FaultsFrom(ids[i + 1..], namespace, Learned(ids[i], namespace, seen));
      var one := IdentityFault(ids[i], namespace, seen);
      && |FaultsFrom(ids[i..], namespace, seen)| == |one| + |rest|
      && AfterFaults(received, FaultsFrom(ids[i..], namespace, seen)) == AfterFaults(AfterFaults(received, one), rest)
  {
    var rest := FaultsFrom(ids[i + 1..], namespace, Learned(ids[i], namespace, seen));
    var one := IdentityFault(ids[i], namespace, seen);
    assert ids[i..][1..] == ids[i + 1..];
    if one != [] {
      assert (one + rest)[1..] == rest && one[1..] == [];
    } else {
      assert one + rest == rest;
    }
  }

  // No fault is found exactly if every identity is inside, new, and different from the others.
  lemma {:induction false} NoFaultMeans(ids: seq<Option<string>>, namespace: string, seen: set<string>)
    ensures FaultsFrom(ids, namespace, seen) == [] <==>
      && Inside(ids, namespace, |ids|) && Distinct(ids, |ids|)
      && forall i | 0 <= i < |ids| :: ids[i].Some? ==> ids[i].value !in seen
  {
    if ids != [] {
      NoFaultMeans(ids[1..], namespace, Learned(ids[0], namespace, seen));
      HeadAndTail(ids, namespace, seen);
    }
  }

  lemma HeadAndTail(ids: seq<Option<string>>, namespace: string, seen: set<string>)
    requires ids != []
    ensures var rest, after := ids[1..], Learned(ids[0], namespace, seen);
      (Inside(ids, namespace, |ids|) && Distinct(ids, |ids|) && forall i | 0 <= i < |ids| :: ids[i].Some? ==> ids[i].value !in seen)
      <==> (IdentityFault(ids[0], namespace, seen) == [] && Inside(rest, namespace, |rest|) && Distinct(rest, |rest|)
            && forall i | 0 <= i < |rest| :: rest[i].Some? ==> rest[i].value !in after)
  {
    var rest, after := ids[1..], Learned(ids[0], namespace, seen);
    assert forall i | 0 <= i < |rest| :: rest[i] == ids[i + 1];
    assert forall i | 0 < i < |ids| :: ids[i] == rest[i - 1];
  }

  lemma FaultsMeanViolation(row: RowIds, key: EpisodeKey)
    ensures IdentifierFaults(row, key) == [] <==> IdentifiersHold(row, key)
  {
    if row.run.Some? && row.run.value != "" {
      NoFaultMeans(Identities(row), Namespace(row.run.value, key), {});
    }
  }

  // ---------------------------------------------------------------- the whole run

  lemma NamespacesDisjoint(s: string, run: string, k: EpisodeKey, l: EpisodeKey)
    requires ColonFree(k.arm) && ColonFree(l.arm)
    requires StartsWith(s, Namespace(run, k)) && StartsWith(s, Namespace(run, l))
    ensures k == l
  {
    DropPrefix(s, run, KeyPath(k));
    DropPrefix(s, run, KeyPath(l));
    PathsDisjoint(s[|run|..], k, l);
  }

  // If no row of a run triggers a violation, any two identities at different places of the run differ.
  lemma GloballyUnique(rows: seq<RowIds>, keys: seq<EpisodeKey>, run: string, i: nat, k: nat, j: nat, l: nat)
    requires |rows| == |keys| && i < |rows| && j < |rows|
    requires forall x | 0 <= x < |rows| :: IdentifiersHold(rows[x], keys[x]) && rows[x].run == Some(run) && ColonFree(keys[x].arm)
    requires forall x, y | 0 <= x < y < |keys| :: keys[x] != keys[y]
    requires k < |Identities(rows[i])| && l < |Identities(rows[j])| && (i, k) != (j, l)
    ensures Identities(rows[i])[k] != Identities(rows[j])[l]
  {
    var a, b := Identities(rows[i]), Identities(rows[j]);
    assert Distinct(a, |a|);
    assert Inside(a, Namespace(run, keys[i]), |a|) && Inside(b, Namespace(run, keys[j]), |b|);
    if i != j && a[k] == b[l] {
      NamespacesDisjoint(a[k].value, run, keys[i], keys[j]);
    }
  }

  lemma KeyInRange(ordinal: nat, lane: nat)
    requires lane > 0
    ensures var key := Consolidation.KeyOf(ordinal, lane);
      key.master >= 0 && 0 <= key.arm < Consolidation.ARMS && key.episode >= 0
  {
    var block := ordinal / lane;
    assert ordinal == block * lane + ordinal % lane;
    Consolidation.KeyOfBlock(block, ordinal % lane, lane);
  }

  // The lockstep key of an ordinal, with its arm by name.
  function LockstepKey(ordinal: nat, lane: nat): EpisodeKey
    requires lane > 0
  {
    KeyInRange(ordinal, lane);
    var key := Consolidation.KeyOf(ordinal, lane);
    EpisodeKey(key.master, ArmName(key.arm), key.episode)
  }

  function ArmName(arm: nat): string
    requires arm < Consolidation.ARMS
  {
    AuditVerdict.ARM_ORDER[arm]
  }

  // The arm names have seven different lengths.
  function NameLength(arm: nat): nat {
    if arm == 0 then 24 else if arm == 1 then 27 else if arm == 2 then 9 else if arm == 3 then 23
    else if arm == 4 then 8 else if arm == 5 then 20 else 14
  }

  lemma ArmNameLength(arm: nat)
    requires arm < Consolidation.ARMS
    ensures |ArmName(arm)| == NameLength(arm)
  {
  }

  lemma ArmNameColonFree(arm: nat)
    requires arm < Consolidation.ARMS
    ensures ColonFree(ArmName(arm))
  {
  }

  // The keys a pass visits are distinct and their arms colon-free, so they meet what uniqueness asks of them.
  lemma LockstepKeysDistinct(i: nat, j: nat, lane: nat)
    requires lane > 0 && i != j
    ensures ColonFree(LockstepKey(i, lane).arm) && LockstepKey(i, lane) != LockstepKey(j, lane)
  {
    var k, l := Consolidation.KeyOf(i, lane), Consolidation.KeyOf(j, lane);
    KeyInRange(i, lane);
    KeyInRange(j, lane);
    ArmNameColonFree(k.arm);
    ArmNameLength(k.arm);
    ArmNameLength(l.arm);
    Consolidation.KeysAreOrdinals(i, lane);
    Consolidation.KeysAreOrdinals(j, lane);
  }

  // ---------------------------------------------------------------- the check inside the streaming pass

  // The streaming pass with the run binding and the identity check of every raw row among its checks.
  function WithIdentifiers(base: AuditStream.Checks, idsOf: AuditStream.Row -> RowIds, run: string): AuditStream.Checks {
    AuditStream.Checks(base.parse, base.sha, base.episode, r =>
      match base.other(r)
      case None => None
      case Some(faults) => Some(faults + (if r.raw.None? then [] else RawFaults(idsOf(r.raw.value), r.key, run))))
  }

  function RawFaults(row: RowIds, key: Merge.Key, run: string): seq<Fault> {
    (if row.run == Some(run) then [] else [Fault(K0, "binding mismatch:run_id")]) + IdentifierFaults(row, NamedKey(key))
  }

  function NamedKey(key: Merge.Key): EpisodeKey {
    if key.master >= 0 && 0 <= key.arm < Consolidation.ARMS && key.episode >= 0
    then EpisodeKey(key.master, ArmName(key.arm), key.episode)
    else EpisodeKey(0, "", 0)
  }

  // The identities of raw row i as the pass decodes it.
  function RawIds(e: AuditStream.Evidence, checks: AuditStream.Checks, idsOf: AuditStream.Row -> RowIds, i: nat): RowIds {
    match AuditStream.RowOf(AuditStream.LineAt(e.raw, i), checks.parse)
    case Some(row) => idsOf(row)
    case None => RowIds(None, None, [], None)
  }

  lemma CleanRowHolds(e: AuditStream.Evidence, base: AuditStream.Checks, idsOf: AuditStream.Row -> RowIds, run: string, key: Merge.Key, i: nat)
    requires AuditStream.RowClean(e, WithIdentifiers(base, idsOf, run), key, i)
    ensures RawIds(e, base, idsOf, i).run == Some(run) && IdentifiersHold(RawIds(e, base, idsOf, i), NamedKey(key))
  {
    FaultsMeanViolation(RawIds(e, base, idsOf, i), NamedKey(key));
  }

  lemma LockstepIsNamed(ordinal: nat, lane: nat)
    requires lane > 0
    ensures NamedKey(Consolidation.KeyOf(ordinal, lane)) == LockstepKey(ordinal, lane)
  {
    KeyInRange(ordinal, lane);
  }

  // Evidence on which the pass records no violation gives every record of the whole run its own identity.
  lemma CleanRunIsUnique(e: AuditStream.Evidence, base: AuditStream.Checks, idsOf: AuditStream.Row -> RowIds, run: string,
                         committed: AuditStream.Digests, lane: nat, i: nat, k: nat, j: nat, l: nat)
    requires lane > 0 && AuditStream.CleanEvidence(e, WithIdentifiers(base, idsOf, run), committed, AuditStream.KeysOf(lane))
    requires i < Consolidation.Budget(lane) && j < Consolidation.Budget(lane) && (i, k) != (j, l)
    requires k < |Identities(RawIds(e, base, idsOf, i))| && l < |Identities(RawIds(e, base, idsOf, j))|
    ensures Identities(RawIds(e, base, idsOf, i))[k] != Identities(RawIds(e, base, idsOf, j))[l]
  {
    var n := Consolidation.Budget(lane);
    var rows := seq(n, x requires 0 <= x < n => RawIds(e, base, idsOf, x));
    var keys := seq(n, x requires 0 <= x < n => LockstepKey(x, lane));
    forall x | 0 <= x < n ensures IdentifiersHold(rows[x], keys[x]) && rows[x].run == Some(run) && ColonFree(keys[x].arm) {
      var key := AuditStream.KeysOf(lane)[x];
      assert AuditStream.RowClean(e, WithIdentifiers(base, idsOf, run), key, x);
      CleanRowHolds(e, base, idsOf, run, key, x);
      LockstepIsNamed(x, lane);
      LockstepKeysDistinct(x, x + 1, lane);
    }
    forall x, y | 0 <= x < y < n ensures keys[x] != keys[y] {
      LockstepKeysDistinct(x, y, lane);
    }
    GloballyUnique(rows, keys, run, i, k, j, l);
  }

  // ---------------------------------------------------------------- why the run binding is needed

  // Two strings have a common extension exactly when one extends the other.
  lemma CommonExtension(p: string, q: string)
    ensures (exists s :: StartsWith(s, p) && StartsWith(s, q)) <==> StartsWith(p, q) || StartsWith(q, p)
  {
    if s :| StartsWith(s, p) && StartsWith(s, q) {
      if |p| <= |q| {
        assert q[..|p|] == s[..|q|][..|p|] == s[..|p|];
      } else {
        assert p[..|q|] == s[..|p|][..|q|] == s[..|q|];
      }
    }
    assert StartsWith(p, p) && StartsWith(q, q);
    if StartsWith(p, q) {
      assert StartsWith(p, p) && StartsWith(p, q);
    } else if StartsWith(q, p) {
      assert StartsWith(q, p) && StartsWith(q, q);
    }
  }

  // Whole rows of run r at key k and of run q at key l, both accepted, with the same identity at places i and j.
  ghost predicate Share(a: RowIds, r: string, k: EpisodeKey, i: nat, b: RowIds, q: string, l: EpisodeKey, j: nat) {
    && WholeRow(a) && WholeRow(b)
    && a.run == Some(r) && b.run == Some(q) && IdentifiersHold(a, k) && IdentifiersHold(b, l)
    && i < |Identities(a)| && j < |Identities(b)| && Identities(a)[i] == Identities(b)[j]
  }

  // Two whole rows that both pass can share an identity exactly when the namespace of one extends the namespace of the other.
  lemma SharedIdentity(r: string, k: EpisodeKey, q: string, l: EpisodeKey)
    requires r != "" && q != ""
    ensures (exists a, i, b, j :: Share(a, r, k, i, b, q, l, j)) <==>
      StartsWith(Namespace(r, k), Namespace(q, l)) || StartsWith(Namespace(q, l), Namespace(r, k))
  {
    CommonExtension(Namespace(r, k), Namespace(q, l));
    if a, i, b, j :| Share(a, r, k, i, b, q, l, j) {
      SharedIsCommon(a, r, k, i, b, q, l, j);
    }
    if s :| StartsWith(s, Namespace(r, k)) && StartsWith(s, Namespace(q, l)) {
      RowBelowHolds(r, k, s);
      RowBelowHolds(q, l, s);
      assert Share(RowBelow(r, s), r, k, 0, RowBelow(q, s), q, l, 0);
    }
  }

  lemma SharedIsCommon(a: RowIds, r: string, k: EpisodeKey, i: nat, b: RowIds, q: string, l: EpisodeKey, j: nat)
    requires Share(a, r, k, i, b, q, l, j)
    ensures exists s :: StartsWith(s, Namespace(r, k)) && StartsWith(s, Namespace(q, l))
  {
    assert Inside(Identities(a), Namespace(r, k), |Identities(a)|) && Inside(Identities(b), Namespace(q, l), |Identities(b)|);
    var s := Identities(a)[i].value;
    assert StartsWith(s, Namespace(r, k)) && StartsWith(s, Namespace(q, l));
  }

  // Every identity of this row is s with a number behind it: eight of the acquisition, seven of the terminal step, those
  // of five candidates, and two for each of two terminal candidates.
  function RowBelow(run: string, s: string): RowIds {
    RowIds(Some(run), Some(Numbered(s, 0, ACQUISITION_IDS)), Numbered(s, 15, 5),
           Some(TerminalIds(Numbered(s, 8, TERMINAL_IDS), [(IdBelow(s, 20), IdBelow(s, 21)), (IdBelow(s, 22), IdBelow(s, 23))])))
  }

  function IdBelow(s: string, i: nat): Option<string> { Some(s + Decimal(i)) }

  function Numbered(s: string, from: nat, count: nat): (ids: seq<Option<string>>)
    ensures |ids| == count
  {
    seq(count, i requires 0 <= i < count => IdBelow(s, from + i))
  }

  lemma RowBelowIs(run: string, s: string)
    ensures Identities(RowBelow(run, s)) == Numbered(s, 0, 24)
  {
    TwoPairs((IdBelow(s, 20), IdBelow(s, 21)), (IdBelow(s, 22), IdBelow(s, 23)));
    assert Numbered(s, 0, 24) == Numbered(s, 0, 8) + Numbered(s, 8, 7) + Numbered(s, 15, 5) + Numbered(s, 20, 4);
    assert Numbered(s, 20, 4) == [IdBelow(s, 20), IdBelow(s, 21), IdBelow(s, 22), IdBelow(s, 23)];
  }

  lemma TwoPairs(p: (Option<string>, Option<string>), q: (Option<string>, Option<string>))
    ensures Pairs([p, q]) == [p.0, p.1, q.0, q.1]
  {
    assert [p, q][1..] == [q] && [q][1..] == [];
    assert Pairs([q]) == [q.0, q.1] + Pairs([]);
  }

  // It is accepted wherever s itself lies in the namespace.
  lemma RowBelowHolds(run: string, key: EpisodeKey, s: string)
    requires run != "" && StartsWith(s, Namespace(run, key))
    ensures WholeRow(RowBelow(run, s)) && IdentifiersHold(RowBelow(run, s), key)
    ensures Identities(RowBelow(run, s)) == Numbered(s, 0, 24)
  {
    RowBelowIs(run, s);
    var namespace := Namespace(run, key);
    forall i | 0 <= i < 24 ensures StartsWith(s + Decimal(i), namespace) {
      assert (s + Decimal(i))[..|namespace|] == s[..|namespace|];
    }
    forall i, j | 0 <= i < j < 24 ensures IdBelow(s, i) != IdBelow(s, j) {
      IdsDiffer(s, i, j);
    }
  }

  lemma IdsDiffer(s: string, i: nat, j: nat)
    requires i != j
    ensures IdBelow(s, i) != IdBelow(s, j)
  {
    if IdBelow(s, i) == IdBelow(s, j) {
      assert (s + Decimal(i))[|s|..] == Decimal(i) && (s + Decimal(j))[|s|..] == Decimal(j);
      DecimalInjective(i, j);
    }
  }

  // Namespace membership and within-row uniqueness alone are not enough: whole rows of distinct keys whose run ids are
  // not bound to one value can both be accepted with the same identities throughout.
  lemma UnboundRunsCollide(k: EpisodeKey, l: EpisodeKey, run: string)
    requires run != ""
    ensures var inner := run + ":m" + Decimal(k.master) + ":a" + k.arm + ":e" + Decimal(k.episode);
      var (a, b) := (RowBelow(run, Namespace(inner, l)), RowBelow(inner, Namespace(inner, l)));
      && WholeRow(a) && WholeRow(b) && IdentifiersHold(a, k) && IdentifiersHold(b, l)
      && Identities(a) == Identities(b) && |Identities(a)| == 24
  {
    var inner := run + ":m" + Decimal(k.master) + ":a" + k.arm + ":e" + Decimal(k.episode);
    InnerExtends(inner, l);
    assert inner + ":" == Namespace(run, k);
    RowBelowHolds(run, k, Namespace(inner, l));
    RowBelowHolds(inner, l, Namespace(inner, l));
  }

  lemma InnerExtends(inner: string, l: EpisodeKey)
    ensures StartsWith(Namespace(inner, l), inner + ":") && StartsWith(Namespace(inner, l), Namespace(inner, l))
  {
    var colon := inner + ":";
    assert KeyPath(l)[0] == ':';
    assert Namespace(inner, l)[..|colon|] == colon;
  }
}
