/** The parent process of one attempt (q1.py) as a transition system: claim, four producers, the restore
    lanes, merge, validation, no-replace publication, and completed or failed finalization of the marker.
    Children exit on their own, any call of the parent may raise, and the parent may die at any step. */
module Orchestration {
  import opened Wrappers
  import AttemptRegistry

  const MASTERS: nat := 4
  const LANES: nat := 28
  const CONCURRENCY: nat := 4
  const ARTIFACTS: nat := 6

  // `exit` is None while the child lives; `proven` once the parent has seen its exit status.
  datatype Child = Child(exit: Option<int>, proven: bool)

  // A directory of result files, each file given by its digest.
  type Files = seq<nat>

  datatype Marker = Unclaimed | Started | Completed(digests: Files) | Failed

  datatype Pc =
    | Preflight
    | Claimed
    | Producing
    | WaitingProducers(waited: nat)
    | Restoring(finished: nat)
    | Merging
    | Validating
    | Publishing
    | CheckingPublication
    | Hashing
    | Replacing(digests: Files)
    | Replaced
    | Succeeded
    | Quiescing(first: nat, last: nat, lost: bool)
    | Raised(lost: bool)
    | Reloading
    | Preserving
    | FinalizingFailed
    | Ended
    | Dead

  datatype State = State(
    pc: Pc, marker: Marker, kids: seq<Child>,
    output: Option<Files>, incomplete: Option<Files>, publications: nat, preserved: bool)

  // How starting a child can end: registered, no process created, or a process created whose
  // authenticated exchange failed and which was then proven exited or not.
  datatype Spawn = Registered | NoProcess | FailedProven(code: int) | FailedLost

  datatype Step =
    | Claim
    | ClaimRaises
    | CreateIncomplete
    | SpawnChild(result: Spawn)
    | AllProducersStarted
    | WaitChild
    | AllLanesDone
    | Merge(files: Files)
    | Validate
    | Publish
    | ConfirmPublication
    | HashArtifacts
    | ReplaceMarker
    | ReturnOutputs
    | ChildExits(i: nat, code: int)
    | Raise
    | Reap(i: nat)
    | QuiescenceProven
    | QuiescenceUnproven
    | HandleFailure
    | HandlerGivesUp
    | ReloadMarker
    | Preserve
    | PreserveFails(moved: bool)
    | FinalizeFailed
    | FinalizeFailedRaises
    | ParentDies

  predicate GoodExit(c: Child) {
    c.proven && c.exit == Some(0)
  }

  // Lanes started so far.
  function StartedCount(s: State): int {
    |s.kids| - MASTERS
  }

  // Producers waited for in order; restore lanes waited for in order.
  function NextWait(s: State): nat
    requires s.pc.WaitingProducers? || s.pc.Restoring?
  {
    if s.pc.WaitingProducers? then s.pc.waited else MASTERS + s.pc.finished
  }

  // The pool is filled up to its bound before any lane is waited for.
  predicate PoolFull(s: State)
    requires s.pc.Restoring?
  {
    StartedCount(s) == LANES || StartedCount(s) - s.pc.finished == CONCURRENCY
  }

  predicate MaySpawn(s: State) {
    || (s.pc.Producing? && |s.kids| < MASTERS)
    || (s.pc.Restoring? && !PoolFull(s))
  }

  predicate AllHeldProven(s: State)
    requires s.pc.Quiescing?
  {
    forall i | s.pc.first <= i < s.pc.last && i < |s.kids| :: s.kids[i].proven
  }

  predicate Can(s: State, step: Step) {
    match step
    case Claim => s.pc.Preflight?
    case ClaimRaises => s.pc.Preflight?
    case CreateIncomplete => s.pc.Claimed?
    case SpawnChild(_) => MaySpawn(s)
    case AllProducersStarted => s.pc.Producing? && |s.kids| == MASTERS
    case WaitChild =>
      && (s.pc.WaitingProducers? || (s.pc.Restoring? && PoolFull(s)))
      && NextWait(s) < |s.kids| && s.kids[NextWait(s)].exit == Some(0)
    case AllLanesDone => s.pc.Restoring? && s.pc.finished == LANES
    case Merge(files) => s.pc.Merging? && |files| == ARTIFACTS
    case Validate => s.pc.Validating?
    case Publish => s.pc.Publishing? && s.output.None?
    case ConfirmPublication => s.pc.CheckingPublication?
    case HashArtifacts => s.pc.Hashing? && s.output.Some?
    case ReplaceMarker => s.pc.Replacing?
    case ReturnOutputs => s.pc.Replaced?
    case ChildExits(i, _) => i < |s.kids| && s.kids[i].exit.None?
    case Raise =>
      || s.pc.Claimed? || s.pc.Producing? || s.pc.WaitingProducers? || s.pc.Restoring? || s.pc.Merging? || s.pc.Validating?
      || s.pc.Publishing? || s.pc.CheckingPublication? || s.pc.Hashing? || s.pc.Replacing? || s.pc.Replaced?
    case Reap(i) => s.pc.Quiescing? && s.pc.first <= i < s.pc.last && i < |s.kids| && s.kids[i].exit.Some?
    case QuiescenceProven => s.pc.Quiescing? && AllHeldProven(s)
    case QuiescenceUnproven => s.pc.Quiescing? && !AllHeldProven(s)
    case HandleFailure => s.pc.Raised?
    case HandlerGivesUp => s.pc.Reloading?
    case ReloadMarker => s.pc.Reloading?
    case Preserve => s.pc.Preserving? && (s.output.Some? ==> s.incomplete.None?)
    case PreserveFails(moved) => s.pc.Preserving? && (moved && s.output.Some? ==> s.incomplete.None?)
    case FinalizeFailed => s.pc.FinalizingFailed?
    case FinalizeFailedRaises => s.pc.FinalizingFailed?
    case ParentDies => !s.pc.Dead?
  }

  // An exception raised while children may be alive is handled by quiescing the ones the stage holds:
  // every producer, or the restore lanes not yet finished.
  function RaiseFrom(s: State, lost: bool): State {
    match s.pc
    case Producing => s.(pc := Quiescing(0, |s.kids|, lost))
    case WaitingProducers(_) => s.(pc := Quiescing(0, |s.kids|, lost))
    case Restoring(f) => s.(pc := Quiescing(MASTERS + f, |s.kids|, lost))
    case _ => s.(pc := Raised(lost))
  }

  function SpawnStep(s: State, result: Spawn): State {
    match result
    case Registered => s.(kids := s.kids + [Child(None, false)])
    case NoProcess => RaiseFrom(s, false)
    // The failed child is not registered with its stage, so only the start-up itself quiesces it.
    case FailedProven(code) => RaiseFrom(s, false).(kids := s.kids + [Child(Some(code), true)])
    case FailedLost => RaiseFrom(s, true).(kids := s.kids + [Child(None, false)])
  }

  function WaitStep(s: State): State
    requires Can(s, WaitChild)
  {
    var i := NextWait(s);
    var s1 := s.(kids := s.kids[i := s.kids[i].(proven := true)]);
    match s.pc
    case WaitingProducers(k) =>
      if k + 1 == MASTERS then s1.(pc := Restoring(0)) else s1.(pc := WaitingProducers(k + 1))
    case Restoring(f) => s1.(pc := Restoring(f + 1))
  }

  // Moves a published output back, or makes sure an incomplete directory exists.
  function PreserveStep(s: State): State {
    var s1 := s.(pc := FinalizingFailed, preserved := true);
    if s.output.Some? then s1.(output := None, incomplete := s.output)
    else if s.incomplete.None? then s1.(incomplete := Some([]))
    else s1
  }

  function Do(s: State, step: Step): State
    requires Can(s, step)
  {
    match step
    case Claim => s.(pc := Claimed, marker := Started)
    case ClaimRaises => s.(pc := Ended)
    case CreateIncomplete => s.(pc := Producing, incomplete := Some([]))
    case SpawnChild(result) => SpawnStep(s, result)
    case AllProducersStarted => s.(pc := WaitingProducers(0))
    case WaitChild => WaitStep(s)
    case AllLanesDone => s.(pc := Merging)
    case Merge(files) => s.(pc := Validating, incomplete := Some(files))
    case Validate => s.(pc := Publishing)
    // renameat2 with RENAME_NOREPLACE: only when nothing bears the destination name.
    case Publish =>
      s.(pc := CheckingPublication, output := s.incomplete, incomplete := None, publications := s.publications + 1)
    case ConfirmPublication => s.(pc := Hashing)
    case HashArtifacts => s.(pc := Replacing(s.output.value))
    case ReplaceMarker => s.(pc := Replaced, marker := Completed(s.pc.digests))
    case ReturnOutputs => s.(pc := Succeeded)
    case ChildExits(i, code) => s.(kids := s.kids[i := s.kids[i].(exit := Some(code))])
    case Raise => RaiseFrom(s, false)
    case Reap(i) => s.(kids := s.kids[i := s.kids[i].(proven := true)])
    case QuiescenceProven => s.(pc := Raised(s.pc.lost))
    case QuiescenceUnproven => s.(pc := Raised(true))
    // A quiescence error is never finalized.
    case HandleFailure => if s.pc.lost then s.(pc := Ended) else s.(pc := Reloading)
    case HandlerGivesUp => s.(pc := Ended)
    case ReloadMarker => if s.marker.Started? then s.(pc := Preserving) else s.(pc := Ended)
    case Preserve => PreserveStep(s)
    // The directory sync may fail after the move or the creation took place.
    case PreserveFails(moved) => if moved then PreserveStep(s).(preserved := false) else s.(pc := FinalizingFailed)
    case FinalizeFailed => s.(pc := Ended, marker := Failed)
    case FinalizeFailedRaises => s.(pc := Ended)
    case ParentDies => s.(pc := Dead)
  }

  const INIT := State(Preflight, Unclaimed, [], None, None, 0, false)

  ghost predicate Runs(s: State, steps: seq<Step>)
    decreases |steps|
  {
    steps == [] || (Can(s, steps[0]) && Runs(Do(s, steps[0]), steps[1..]))
  }

  ghost function After(s: State, steps: seq<Step>): State
    requires Runs(s, steps)
    decreases |steps|
  {
    if steps == [] then s else After(Do(s, steps[0]), steps[1..])
  }

  // ---------------------------------------------------------------- the inductive invariant

  ghost predicate GoodUpTo(s: State, n: int) {
    n <= |s.kids| && forall i | 0 <= i < n :: GoodExit(s.kids[i])
  }

  ghost predicate AllProven(s: State) {
    forall i | 0 <= i < |s.kids| :: s.kids[i].proven
  }

  ghost predicate Finished(s: State) {
    |s.kids| == MASTERS + LANES && GoodUpTo(s, MASTERS + LANES)
  }

  ghost predicate Published(s: State) {
    Finished(s) && s.publications == 1 && s.incomplete.None? && s.output.Some? && |s.output.value| == ARTIFACTS
  }

  ghost predicate PcOk(s: State) {
    match s.pc
    case Preflight => s == INIT
    case Claimed => s.marker.Started? && s.kids == [] && s.publications == 0 && s.output.None? && s.incomplete.None?
    case Producing => s.marker.Started? && |s.kids| <= MASTERS && Unpublished(s)
    case WaitingProducers(k) => s.marker.Started? && |s.kids| == MASTERS && k < MASTERS && GoodUpTo(s, k) && Unpublished(s)
    case Restoring(f) =>
      && s.marker.Started? && Unpublished(s)
      && MASTERS + f <= |s.kids| <= MASTERS + LANES && |s.kids| - MASTERS - f <= CONCURRENCY
      && GoodUpTo(s, MASTERS + f)
    case Merging => s.marker.Started? && Finished(s) && Unpublished(s)
    case Validating => s.marker.Started? && Finished(s) && Unpublished(s) && |s.incomplete.value| == ARTIFACTS
    case Publishing => s.marker.Started? && Finished(s) && Unpublished(s) && |s.incomplete.value| == ARTIFACTS
    case CheckingPublication => s.marker.Started? && Published(s)
    case Hashing => s.marker.Started? && Published(s)
    case Replacing(d) => s.marker.Started? && Published(s) && s.output == Some(d)
    case Replaced => s.marker.Completed? && Published(s)
    case Succeeded => s.marker.Completed? && Published(s)
    case Quiescing(first, last, lost) =>
      && s.marker.Started? && (!lost ==> forall i | 0 <= i < |s.kids| :: s.kids[i].proven || first <= i < last)
    case Raised(lost) => (s.marker.Started? || s.marker.Completed?) && (!lost ==> AllProven(s))
    case Reloading => (s.marker.Started? || s.marker.Completed?) && AllProven(s)
    case Preserving => s.marker.Started? && AllProven(s)
    case FinalizingFailed => s.marker.Started? && AllProven(s)
    case Ended => true
    case Dead => true
  }

  ghost predicate Unpublished(s: State) {
    s.publications == 0 && s.output.None? && s.incomplete.Some?
  }

  // What the marker promises, whatever the parent is doing or has done.
  ghost predicate MarkerOk(s: State) {
    && (forall i | 0 <= i < |s.kids| :: s.kids[i].proven ==> s.kids[i].exit.Some?)
    && (s.marker.Failed? ==> AllProven(s))
    && (s.marker.Completed? ==> Published(s) && s.output == Some(s.marker.digests))
    && (s.marker.Failed? || s.marker.Completed? ==> s.pc.Replaced? || s.pc.Succeeded? || Unwinding(s.pc))
    && (s.preserved ==>
          && (s.pc.FinalizingFailed? || s.pc.Ended? || s.pc.Dead?)
          && !s.marker.Completed? && s.output.None? && s.incomplete.Some?)
  }

  predicate Unwinding(pc: Pc) {
    pc.Raised? || pc.Reloading? || pc.Ended? || pc.Dead?
  }

  ghost predicate Inv(s: State) {
    PcOk(s) && MarkerOk(s)
  }

  // Steps of the working stages that touch no child.
  predicate Forward(step: Step) {
    || step.Claim? || step.ClaimRaises? || step.CreateIncomplete? || step.AllProducersStarted? || step.AllLanesDone? || step.Merge?
    || step.Validate? || step.Publish? || step.ConfirmPublication? || step.HashArtifacts? || step.ReplaceMarker?
    || step.ReturnOutputs?
  }

  lemma ForwardInv(s: State, step: Step)
    requires Inv(s) && Can(s, step) && Forward(step)
    ensures Inv(Do(s, step))
  {
  }

  lemma RaiseInv(s: State)
    requires Inv(s) && Can(s, Raise)
    ensures Inv(RaiseFrom(s, false))
  {
  }

  // Steps from an exception to the end of the attempt.
  lemma FailureInv(s: State, step: Step)
    requires Inv(s) && Can(s, step) && !Forward(step) && !step.Raise?
    requires !step.SpawnChild? && !step.WaitChild? && !step.ChildExits? && !step.Reap?
    ensures Inv(Do(s, step))
  {
    if step.Preserve? || step.PreserveFails? {
      PreserveInv(s, step);
    } else if step.FinalizeFailed? || step.FinalizeFailedRaises? || step.ReloadMarker? || step.HandleFailure? {
      HandlerInv(s, step);
    }
  }

  lemma PreserveInv(s: State, step: Step)
    requires Inv(s) && Can(s, step) && (step.Preserve? || step.PreserveFails?)
    ensures Inv(Do(s, step))
  {
  }

  lemma HandlerInv(s: State, step: Step)
    requires Inv(s) && Can(s, step)
    requires step.FinalizeFailed? || step.FinalizeFailedRaises? || step.ReloadMarker? || step.HandleFailure?
    ensures Inv(Do(s, step))
  {
  }

  lemma StepInv(s: State, step: Step)
    requires Inv(s) && Can(s, step)
    ensures Inv(Do(s, step))
  {
    if step.SpawnChild? || step.WaitChild? || step.ChildExits? || step.Reap? || step.Raise? {
      ChildStepInv(s, step);
    } else if Forward(step) {
      ForwardInv(s, step);
    } else {
      FailureInv(s, step);
    }
  }

  lemma ChildStepInv(s: State, step: Step)
    requires Inv(s) && Can(s, step)
    requires step.SpawnChild? || step.WaitChild? || step.ChildExits? || step.Reap? || step.Raise?
    ensures Inv(Do(s, step))
  {
    match step
    case SpawnChild(result) => SpawnInv(s, result);
    case WaitChild => WaitInv(s);
    case ChildExits(i, code) => ExitInv(s, i, code);
    case Reap(i) => ReapInv(s, i);
    case Raise => RaiseInv(s);
  }

  lemma SpawnInv(s: State, result: Spawn)
    requires Inv(s) && MaySpawn(s)
    ensures Inv(SpawnStep(s, result))
  {
  }

  lemma WaitInv(s: State)
    requires Inv(s) && Can(s, WaitChild)
    ensures Inv(WaitStep(s))
  {
  }

  lemma ExitInv(s: State, i: nat, code: int)
    requires Inv(s) && Can(s, ChildExits(i, code))
    ensures Inv(Do(s, ChildExits(i, code)))
  {
  }

  lemma ReapInv(s: State, i: nat)
    requires Inv(s) && Can(s, Reap(i))
    ensures Inv(Do(s, Reap(i)))
  {
  }

  lemma {:induction false} RunInv(s: State, steps: seq<Step>)
    requires Inv(s) && Runs(s, steps)
    ensures Inv(After(s, steps))
    decreases |steps|
  {
    if steps != [] {
      StepInv(s, steps[0]);
      RunInv(Do(s, steps[0]), steps[1..]);
    }
  }

  // ---------------------------------------------------------------- safety over whole runs

  // A failed marker: every child ever created was seen to exit, and where the handler managed to preserve
  // the result directory it is under its incomplete name.
  lemma FailedMeansQuiet(steps: seq<Step>)
    requires Runs(INIT, steps) && After(INIT, steps).marker.Failed?
    ensures var t := After(INIT, steps);
      && (forall i | 0 <= i < |t.kids| :: t.kids[i].proven && t.kids[i].exit.Some?)
      && (t.preserved ==> t.output.None? && t.incomplete.Some?)
  {
    RunInv(INIT, steps);
  }

  // In no state of any run is there an unproven child beside a completed or failed marker.
  lemma UnprovenChildBlocksFinalization(steps: seq<Step>, i: nat)
    requires Runs(INIT, steps) && i < |After(INIT, steps).kids| && !After(INIT, steps).kids[i].proven
    ensures After(INIT, steps).marker.Started?
  {
    RunInv(INIT, steps);
    ChildrenNeedAClaim(INIT, steps);
  }

  lemma {:induction false} ChildrenNeedAClaim(s: State, steps: seq<Step>)
    requires Inv(s) && Runs(s, steps) && (s.kids != [] ==> !s.marker.Unclaimed?)
    ensures var t := After(s, steps); t.kids != [] ==> !t.marker.Unclaimed?
    decreases |steps|
  {
    if steps != [] {
      StepInv(s, steps[0]);
      ChildrenNeedAClaim(Do(s, steps[0]), steps[1..]);
    }
  }

  // A completed marker: all four producers and all twenty-eight lanes exited zero, the output was published
  // by exactly one no-replace move, and the marker carries the digests of the six published files.
  lemma CompletedMeansPublished(steps: seq<Step>)
    requires Runs(INIT, steps) && After(INIT, steps).marker.Completed?
    ensures var t := After(INIT, steps);
      && |t.kids| == MASTERS + LANES && (forall i | 0 <= i < |t.kids| :: GoodExit(t.kids[i]))
      && t.publications == 1 && t.incomplete.None?
      && t.output == Some(t.marker.digests) && |t.marker.digests| == ARTIFACTS
  {
    RunInv(INIT, steps);
  }

  // A finalized marker never changes again, and neither does a completed attempt's output.
  lemma {:induction false} FinalMarkerStays(s: State, steps: seq<Step>)
    requires Inv(s) && Runs(s, steps) && (s.marker.Completed? || s.marker.Failed?)
    ensures After(s, steps).marker == s.marker
    ensures s.marker.Completed? ==> After(s, steps).output == s.output
    decreases |steps|
  {
    if steps != [] {
      StepInv(s, steps[0]);
      StepKeepsFinalMarker(s, steps[0]);
      FinalMarkerStays(Do(s, steps[0]), steps[1..]);
    }
  }

  lemma StepKeepsFinalMarker(s: State, step: Step)
    requires Inv(s) && Can(s, step) && (s.marker.Completed? || s.marker.Failed?)
    ensures Do(s, step).marker == s.marker
    ensures s.marker.Completed? ==> Do(s, step).output == s.output
  {
  }

  // While lanes run, at most four are unfinished, and a lane is waited for only with the pool full.
  lemma LanesAreBounded(steps: seq<Step>)
    requires Runs(INIT, steps) && After(INIT, steps).pc.Restoring?
    ensures var t := After(INIT, steps);
      && t.pc.finished <= StartedCount(t) <= LANES
      && StartedCount(t) - t.pc.finished <= CONCURRENCY
      && (Can(t, WaitChild) ==> StartedCount(t) == LANES || StartedCount(t) - t.pc.finished == CONCURRENCY)
  {
    RunInv(INIT, steps);
  }

  // ---------------------------------------------------------------- the marker on disk

  // What the marker file on disk says; while a claim is still writing it there is no marker yet.
  function MarkerOf(d: AttemptRegistry.Disk): Marker {
    match AttemptRegistry.Visible(d)
    case None => Unclaimed
    case Some(i) =>
      if !AttemptRegistry.Complete(d, i) then Unclaimed
      else match d.files[i].doc.status
        case Started => Marker.Started
        case Completed => Marker.Completed(d.files[i].doc.artifacts)
        case Failed => Marker.Failed
  }

  predicate MarkerMove(before: Marker, after: Marker) {
    || after == before
    || (before.Unclaimed? && after.Started?)
    || (before.Started? && (after.Completed? || after.Failed?))
  }

  // The steps of the attempt move its marker only as the system calls on the marker file move what the file says.
  lemma StepMovesMarker(s: State, step: Step)
    requires Inv(s) && Can(s, step)
    ensures MarkerMove(s.marker, Do(s, step).marker)
  {
  }

  lemma RegistryMovesMarker(s: AttemptRegistry.State, step: AttemptRegistry.Step)
    requires AttemptRegistry.Good(s) && AttemptRegistry.Can(s, step) && !step.PowerLoss?
    ensures MarkerMove(MarkerOf(s.disk), MarkerOf(AttemptRegistry.Do(s, step).disk))
  {
    if step.Rename? {
      AttemptRegistry.RenameMonotone(s, step.p);
    } else if step.OpenMarker? || step.WriteChunk? || step.SyncFile? || step.OpenTemp? {
      FileStepMoves(s, step);
    } else {
      AttemptRegistry.EntryStays(s, step);
    }
  }

  lemma FileStepMoves(s: AttemptRegistry.State, step: AttemptRegistry.Step)
    requires AttemptRegistry.Good(s) && AttemptRegistry.Can(s, step)
    requires step.OpenMarker? || step.WriteChunk? || step.SyncFile? || step.OpenTemp?
    ensures MarkerMove(MarkerOf(s.disk), MarkerOf(AttemptRegistry.Do(s, step).disk))
  {
  }

  // The state of the marker file's own system in which the calls behind an attempt's marker have returned.
  function RegistryAt(m: Marker): AttemptRegistry.State {
    match m
    case Unclaimed => AttemptRegistry.INIT
    case Started => AttemptRegistry.CLAIMED_STATE
    case Completed(digests) => AttemptRegistry.FinalizedAs(AttemptRegistry.Doc(0, 0, AttemptRegistry.Completed, digests))
    case Failed => AttemptRegistry.FinalizedAs(AttemptRegistry.Doc(0, 0, AttemptRegistry.Failed, []))
  }

  lemma RegistryAgrees(m: Marker)
    ensures var r := RegistryAt(m);
      && MarkerOf(r.disk) == m && r.record.powerLosses == 0 && r.record.claimed == (if m.Unclaimed? then 0 else 1)
      && |r.record.finalized| == (if m.Completed? || m.Failed? then 1 else 0)
  {
  }

  // Every step of an attempt is matched by system calls on the marker file that lead from the state in which the file
  // says what the marker is to the one in which it says what the marker becomes.
  lemma StepIsRealised(s: State, step: Step)
    requires Inv(s) && Can(s, step)
    ensures AttemptRegistry.Reaches(RegistryAt(s.marker), RegistryAt(Do(s, step).marker))
  {
    var s' := Do(s, step);
    StepInv(s, step);
    StepMovesMarker(s, step);
    if s'.marker == s.marker {
      AttemptRegistry.ReachesItself(RegistryAt(s.marker));
    } else if s'.marker.Started? {
      AttemptRegistry.ClaimIsReached();
    } else if s'.marker.Completed? {
      AttemptRegistry.FinalizationIsReached(
        AttemptRegistry.Request(0, 0, AttemptRegistry.Completed, Some(s'.marker.digests)),
        AttemptRegistry.Doc(0, 0, AttemptRegistry.Completed, s'.marker.digests));
    } else {
      AttemptRegistry.FinalizationIsReached(
        AttemptRegistry.Request(0, 0, AttemptRegistry.Failed, None), AttemptRegistry.Doc(0, 0, AttemptRegistry.Failed, []));
    }
  }

  // So the marker file runs along with every attempt, with as many claims and finalizations returned as the attempt has
  // seen.
  lemma {:induction false} AttemptIsRealised(s: State, steps: seq<Step>)
    requires Inv(s) && Runs(s, steps)
    ensures AttemptRegistry.Reaches(RegistryAt(s.marker), RegistryAt(After(s, steps).marker))
    decreases |steps|
  {
    if steps == [] {
      AttemptRegistry.ReachesItself(RegistryAt(s.marker));
    } else {
      var s' := Do(s, steps[0]);
      StepInv(s, steps[0]);
      StepIsRealised(s, steps[0]);
      AttemptIsRealised(s', steps[1..]);
      AttemptRegistry.ReachesOn(RegistryAt(s.marker), RegistryAt(s'.marker), RegistryAt(After(s, steps).marker));
    }
  }
}
