/** The single-attempt marker of attempt.py as a transition system.

    Any number of processes claim, finalize and load one marker file under an advisory directory lock.
    Every step below is one system call.  A process may die between any two of them, and the whole machine
    may lose power.  `Disk.log` holds the values the directory entry has had since the last directory fsync:
    its last element is what processes see, and a power loss may bring back any of its elements. */
module AttemptRegistry {
  import opened Wrappers

  datatype Status = Started | Completed | Failed

  datatype Doc = Doc(run: nat, capability: nat, status: Status, artifacts: seq<nat>)

  // One finalization request: artifact digests accompany a completed request and nothing else.
  datatype Request = Request(run: nat, capability: nat, status: Status, artifacts: Option<seq<nat>>)

  // `written` bytes of the `size`-byte document are in the file, the first `durable` of them on stable storage.
  datatype File = File(doc: Doc, size: nat, written: nat, durable: nat)

  // The part of a stat result that tells one marker state from another.
  datatype Signature = Signature(ino: nat, size: nat)

  datatype Disk = Disk(files: map<nat, File>, log: seq<Option<nat>>, temps: map<nat, nat>)

  datatype Pc =
    | Idle
    | ClaimOpen(doc: Doc)
    | ClaimWrite(ino: nat)
    | ClaimDirSync(ino: nat, complete: bool)
    | FinalLoad(request: Request)
    | FinalCreate(seen: Signature, next: Doc)
    | FinalWrite(seen: Signature, next: Doc, tmp: nat)
    | FinalCheck(seen: Signature, next: Doc, tmp: nat)
    | FinalReplace(seen: Signature, next: Doc, tmp: nat)
    | FinalDirSync(next: Doc, ino: nat)
    | FinalReload(next: Doc, ino: nat)
    | LoadRead(run: nat, capability: nat)

  // What has happened so far: marker creations and replacements, calls that returned successfully,
  // documents handed to loaders, and deaths.
  datatype Record = Record(
    created: nat, claimed: nat, replaced: nat, finalized: seq<Doc>, seen: seq<Doc>, died: set<nat>, powerLosses: nat)

  datatype State = State(disk: Disk, procs: map<nat, Pc>, record: Record)

  datatype Step =
    | StartClaim(p: nat, run: nat, capability: nat)
    | StartFinalize(p: nat, request: Request)
    | StartLoad(p: nat, run: nat, capability: nat)
    | OpenMarker(p: nat, ino: nat, size: nat)
    | WriteChunk(p: nat, count: nat)
    | SyncFile(p: nat)
    | SyncDirectory(p: nat)
    | LoadForFinalize(p: nat)
    | OpenTemp(p: nat, ino: nat, size: nat)
    | CheckSignature(p: nat)
    | Rename(p: nat)
    | Reload(p: nat)
    | ReadMarker(p: nat)
    | Raise(p: nat)
    | Crash(p: nat)
    | PowerLoss(pick: nat, torn: map<nat, nat>, lostTemps: set<nat>)

  const ARTIFACT_COUNT: nat := 6

  // ---------------------------------------------------------------- observations of a state

  function PcOf(s: State, p: nat): Pc {
    if p in s.procs then s.procs[p] else Idle
  }

  predicate Exclusive(pc: Pc) {
    !pc.Idle? && !pc.LoadRead?
  }

  function Visible(d: Disk): Option<nat> {
    if d.log == [] then None else d.log[|d.log| - 1]
  }

  predicate Complete(d: Disk, ino: nat) {
    ino in d.files && d.files[ino].written == d.files[ino].size
  }

  function SignatureOf(d: Disk, ino: nat): Signature
    requires ino in d.files
  {
    Signature(ino, d.files[ino].written)
  }

  // The strict loader: a missing, partial or foreign marker is rejected.
  function Load(d: Disk, run: nat, capability: nat): Option<Doc> {
    match Visible(d)
    case None => None
    case Some(i) =>
      if Complete(d, i) && d.files[i].doc.run == run && d.files[i].doc.capability == capability
      then Some(d.files[i].doc) else None
  }

  // The document a finalization request writes, or None where finalize_attempt raises on its arguments.
  function Prepared(current: Doc, r: Request): Option<Doc> {
    if current.status != Started then None
    else match r.status
      case Started => None
      case Completed =>
        if r.artifacts.Some? && |r.artifacts.value| == ARTIFACT_COUNT
        then Some(Doc(r.run, current.capability, Completed, r.artifacts.value)) else None
      case Failed =>
        if r.artifacts.None? then Some(Doc(r.run, current.capability, Failed, [])) else None
  }

  // 0 absent, 1 partially written, 2 started, 3 completed or failed.
  function Level(d: Disk): nat {
    match Visible(d)
    case None => 0
    case Some(i) => if !Complete(d, i) then 1 else if d.files[i].doc.status == Started then 2 else 3
  }

  // ---------------------------------------------------------------- the steps

  predicate LockFree(s: State) {
    forall q | q in s.procs :: s.procs[q].Idle?
  }

  predicate NoExclusive(s: State) {
    forall q | q in s.procs :: !Exclusive(s.procs[q])
  }

  predicate Can(s: State, step: Step) {
    match step
    case StartClaim(p, _, _) => PcOf(s, p).Idle? && LockFree(s)
    case StartFinalize(p, _) => PcOf(s, p).Idle? && LockFree(s)
    case StartLoad(p, _, _) => PcOf(s, p).Idle? && NoExclusive(s)
    case OpenMarker(p, ino, size) => PcOf(s, p).ClaimOpen? && ino !in s.disk.files && size > 0
    case WriteChunk(p, count) =>
      && OpenFile(PcOf(s, p)).Some?
      && OpenFile(PcOf(s, p)).value in s.disk.files
      && var f := s.disk.files[OpenFile(PcOf(s, p)).value]; 0 < count <= f.size - f.written
    case SyncFile(p) => OpenFile(PcOf(s, p)).Some? && Complete(s.disk, OpenFile(PcOf(s, p)).value)
    case SyncDirectory(p) => PcOf(s, p).ClaimDirSync? || PcOf(s, p).FinalDirSync?
    case LoadForFinalize(p) => PcOf(s, p).FinalLoad?
    case OpenTemp(p, ino, size) => PcOf(s, p).FinalCreate? && ino !in s.disk.files && size > 0
    case CheckSignature(p) => PcOf(s, p).FinalCheck?
    case Rename(p) => PcOf(s, p).FinalReplace?
    case Reload(p) => PcOf(s, p).FinalReload?
    case ReadMarker(p) => PcOf(s, p).LoadRead?
    case Raise(p) => !PcOf(s, p).Idle?
    case Crash(p) => !PcOf(s, p).Idle?
    case PowerLoss(pick, torn, _) =>
      && pick < |s.disk.log|
      && forall i | i in torn && i in s.disk.files ::
           s.disk.files[i].durable <= torn[i] <= s.disk.files[i].written
  }

  function Goto(s: State, p: nat, pc: Pc): State {
    s.(procs := s.procs[p := pc])
  }

  function Note(s: State, r: Record): State {
    s.(record := r)
  }

  function WithFile(s: State, ino: nat, f: File): State {
    s.(disk := s.disk.(files := s.disk.files[ino := f]))
  }

  function Relink(s: State, ino: nat): State {
    s.(disk := s.disk.(log := s.disk.log + [Some(ino)]))
  }

  function Settle(s: State): State {
    s.(disk := s.disk.(log := [Visible(s.disk)]))
  }

  function DropTemp(s: State, p: nat): State {
    s.(disk := s.disk.(temps := s.disk.temps - {p}))
  }

  function Survivor(f: File, ino: nat, torn: map<nat, nat>): File {
    var kept := if ino in torn then torn[ino] else f.written;
    f.(written := kept, durable := kept)
  }

  // O_EXCL: an existing name, whatever it holds, refuses the claim.
  function OpenMarkerStep(s: State, p: nat, ino: nat, size: nat): State
    requires PcOf(s, p).ClaimOpen?
  {
    if Visible(s.disk).Some? then Goto(s, p, Idle)
    else Note(Goto(Relink(WithFile(s, ino, File(PcOf(s, p).doc, size, 0, 0)), ino), p, ClaimWrite(ino)),
              s.record.(created := s.record.created + 1))
  }

  function OpenFile(pc: Pc): Option<nat> {
    match pc
    case ClaimWrite(i) => Some(i)
    case FinalWrite(_, _, i) => Some(i)
    case _ => None
  }

  function WriteStep(s: State, ino: nat, count: nat): State
    requires ino in s.disk.files
  {
    WithFile(s, ino, s.disk.files[ino].(written := s.disk.files[ino].written + count))
  }

  function SyncFileStep(s: State, p: nat, ino: nat): State
    requires ino in s.disk.files && OpenFile(PcOf(s, p)) == Some(ino)
  {
    var s1 := WithFile(s, ino, s.disk.files[ino].(durable := s.disk.files[ino].written));
    match PcOf(s, p)
    case ClaimWrite(i) => Goto(s1, p, ClaimDirSync(i, true))
    case FinalWrite(seen, next, i) => Goto(s1, p, FinalCheck(seen, next, i))
  }

  function SyncDirectoryStep(s: State, p: nat): State
    requires PcOf(s, p).ClaimDirSync? || PcOf(s, p).FinalDirSync?
  {
    match PcOf(s, p)
    case ClaimDirSync(i, complete) =>
      if complete then Note(Goto(Settle(s), p, Idle), s.record.(claimed := s.record.claimed + 1)) else Goto(Settle(s), p, Idle)
    case FinalDirSync(next, i) => Goto(Settle(s), p, FinalReload(next, i))
  }

  function LoadForFinalizeStep(s: State, p: nat): State
    requires PcOf(s, p).FinalLoad?
  {
    var r := PcOf(s, p).request;
    match Load(s.disk, r.run, r.capability)
    case None => Goto(s, p, Idle)
    case Some(current) =>
      match Prepared(current, r)
      case None => Goto(s, p, Idle)
      case Some(next) => Goto(s, p, FinalCreate(SignatureOf(s.disk, Visible(s.disk).value), next))
  }

  // The temporary name carries the process id: a file left by a dead process of that id refuses.
  function OpenTempStep(s: State, p: nat, ino: nat, size: nat): State
    requires PcOf(s, p).FinalCreate?
  {
    if p in s.disk.temps then Goto(s, p, Idle)
    else
      var pc := PcOf(s, p);
      var d := Disk(s.disk.files[ino := File(pc.next, size, 0, 0)], s.disk.log, s.disk.temps[p := ino]);
      Goto(s.(disk := d), p, FinalWrite(pc.seen, pc.next, ino))
  }

  // Both checks of the stat taken just before the replacement.
  predicate Recheck(d: Disk, seen: Signature) {
    match Visible(d)
    case None => false
    case Some(i) => i in d.files && SignatureOf(d, i) == seen
  }

  function CheckSignatureStep(s: State, p: nat): State
    requires PcOf(s, p).FinalCheck?
  {
    var pc := PcOf(s, p);
    if Recheck(s.disk, pc.seen) then Goto(s, p, FinalReplace(pc.seen, pc.next, pc.tmp))
    else Goto(DropTemp(s, p), p, Idle)
  }

  function RenameStep(s: State, p: nat): State
    requires PcOf(s, p).FinalReplace?
  {
    var pc := PcOf(s, p);
    Note(Goto(DropTemp(Relink(s, pc.tmp), p), p, FinalDirSync(pc.next, pc.tmp)),
         s.record.(replaced := s.record.replaced + 1))
  }

  function ReloadStep(s: State, p: nat): State
    requires PcOf(s, p).FinalReload?
  {
    var next := PcOf(s, p).next;
    if Load(s.disk, next.run, next.capability) == Some(next)
    then Note(Goto(s, p, Idle), s.record.(finalized := s.record.finalized + [next])) else Goto(s, p, Idle)
  }

  function ReadMarkerStep(s: State, p: nat): State
    requires PcOf(s, p).LoadRead?
  {
    match Load(s.disk, PcOf(s, p).run, PcOf(s, p).capability)
    case None => Goto(s, p, Idle)
    case Some(doc) => Note(Goto(s, p, Idle), s.record.(seen := s.record.seen + [doc]))
  }

  // Any call may fail: a claim that created the marker still syncs the directory,
  // and a finalization that has not renamed removes its temporary file.
  function RaiseStep(s: State, p: nat): State {
    match PcOf(s, p)
    case ClaimWrite(i) => Goto(s, p, ClaimDirSync(i, false))
    case FinalWrite(_, _, _) => Goto(DropTemp(s, p), p, Idle)
    case FinalCheck(_, _, _) => Goto(DropTemp(s, p), p, Idle)
    case FinalReplace(_, _, _) => Goto(DropTemp(s, p), p, Idle)
    case _ => Goto(s, p, Idle)
  }

  function PowerLossStep(s: State, pick: nat, torn: map<nat, nat>, lostTemps: set<nat>): State
    requires pick < |s.disk.log|
  {
    var files := map i | i in s.disk.files :: Survivor(s.disk.files[i], i, torn);
    State(Disk(files, [s.disk.log[pick]], s.disk.temps - lostTemps), map[], s.record.(powerLosses := s.record.powerLosses + 1))
  }

  function Do(s: State, step: Step): State
    requires Can(s, step)
  {
    match step
    case StartClaim(p, run, capability) => Goto(s, p, ClaimOpen(Doc(run, capability, Started, [])))
    case StartFinalize(p, r) => Goto(s, p, FinalLoad(r))
    case StartLoad(p, run, capability) => Goto(s, p, LoadRead(run, capability))
    case OpenMarker(p, ino, size) => OpenMarkerStep(s, p, ino, size)
    case WriteChunk(p, count) => WriteStep(s, OpenFile(PcOf(s, p)).value, count)
    case SyncFile(p) => SyncFileStep(s, p, OpenFile(PcOf(s, p)).value)
    case SyncDirectory(p) => SyncDirectoryStep(s, p)
    case LoadForFinalize(p) => LoadForFinalizeStep(s, p)
    case OpenTemp(p, ino, size) => OpenTempStep(s, p, ino, size)
    case CheckSignature(p) => CheckSignatureStep(s, p)
    case Rename(p) => RenameStep(s, p)
    case Reload(p) => ReloadStep(s, p)
    case ReadMarker(p) => ReadMarkerStep(s, p)
    case Raise(p) => RaiseStep(s, p)
    case Crash(p) => Note(Goto(s, p, Idle), s.record.(died := s.record.died + {p}))
    case PowerLoss(pick, torn, lostTemps) => PowerLossStep(s, pick, torn, lostTemps)
  }

  const INIT := State(Disk(map[], [None], map[]), map[], Record(0, 0, 0, [], [], {}, 0))

  ghost predicate Runs(s: State, steps: seq<Step>)
    decreases |steps|
  {
    steps == [] || (Can(s, steps[0]) && Runs(Do(s, steps[0]), steps[1..]))
  }

  ghost function After(s: State, steps: seq<Step>): State
    requires Runs(s, steps)
    decreases |steps|
  {
    if steps == [] then s else After(Do(s, steps[0]), steps[1..])
  }

  predicate PowerStays(steps: seq<Step>) {
    forall k | 0 <= k < |steps| :: !steps[k].PowerLoss?
  }

  // ---------------------------------------------------------------- the inductive invariant

  function Rank(d: Disk, entry: Option<nat>): nat {
    match entry
    case None => 0
    case Some(i) => if i in d.files && d.files[i].doc.status == Started then 1 else 2
  }

  ghost predicate DiskOk(d: Disk) {
    LogOk(d) && TempsOk(d)
  }

  // The entry's possible values only ever advanced, and the final ones are durable.
  ghost predicate LogOk(d: Disk) {
    && d.log != []
    && (forall k | 0 <= k < |d.log| :: d.log[k].Some? ==> d.log[k].value in d.files)
    && (forall k, l | 0 <= k < l < |d.log| :: Rank(d, d.log[k]) < Rank(d, d.log[l]))
    && (forall k | 0 <= k < |d.log| :: Rank(d, d.log[k]) == 2 ==> Stable(d, d.log[k].value))
    && (forall i | i in d.files :: d.files[i].durable <= d.files[i].written <= d.files[i].size && 0 < d.files[i].size)
  }

  // Temporary files are apart from the marker and from each other, and hold final documents.
  ghost predicate TempsOk(d: Disk) {
    && (forall p, k | p in d.temps && 0 <= k < |d.log| :: d.log[k] != Some(d.temps[p]))
    && (forall p, q | p in d.temps && q in d.temps && p != q :: d.temps[p] != d.temps[q])
    && (forall p | p in d.temps :: d.temps[p] in d.files && d.files[d.temps[p]].doc.status != Started)
  }

  predicate Stable(d: Disk, ino: nat) {
    ino in d.files && d.files[ino].durable == d.files[ino].size
  }

  // A finalizer between its load and its rename still sees the started document it loaded.
  ghost predicate Holds(d: Disk, seen: Signature, next: Doc) {
    && Visible(d) == Some(seen.ino)
    && Complete(d, seen.ino)
    && SignatureOf(d, seen.ino) == seen
    && d.files[seen.ino].doc.status == Started
    && d.files[seen.ino].doc.run == next.run
    && d.files[seen.ino].doc.capability == next.capability
    && next.status != Started
  }

  ghost predicate TempOk(d: Disk, p: nat, tmp: nat, next: Doc) {
    p in d.temps && d.temps[p] == tmp && tmp in d.files && d.files[tmp].doc == next
  }

  ghost predicate PcOk(d: Disk, p: nat, pc: Pc) {
    match pc
    case Idle => true
    case ClaimOpen(doc) => doc.status == Started
    case ClaimWrite(i) => Visible(d) == Some(i) && i in d.files && d.files[i].doc.status == Started
    case ClaimDirSync(i, complete) =>
      Visible(d) == Some(i) && i in d.files && d.files[i].doc.status == Started && (complete ==> Stable(d, i))
    case FinalLoad(_) => true
    case FinalCreate(seen, next) => Holds(d, seen, next)
    case FinalWrite(seen, next, tmp) => Holds(d, seen, next) && TempOk(d, p, tmp, next)
    case FinalCheck(seen, next, tmp) => Holds(d, seen, next) && TempOk(d, p, tmp, next) && Stable(d, tmp)
    case FinalReplace(seen, next, tmp) => Holds(d, seen, next) && TempOk(d, p, tmp, next) && Stable(d, tmp)
    case FinalDirSync(next, i) =>
      Visible(d) == Some(i) && i in d.files && d.files[i].doc == next && next.status != Started && Stable(d, i)
    case FinalReload(next, i) => d.log == [Some(i)] && i in d.files && d.files[i].doc == next && next.status != Started && Stable(d, i)
    case LoadRead(_, _) => true
  }

  ghost predicate ProcsOk(s: State) {
    && (forall p | p in s.procs :: PcOk(s.disk, p, s.procs[p]))
    && (forall p, q | p in s.procs && q in s.procs && p != q && Exclusive(s.procs[p]) :: s.procs[q].Idle?)
  }

  ghost predicate Inv(s: State) {
    DiskOk(s.disk) && ProcsOk(s)
  }

  // Every value a power loss could bring back is a complete, durable document.
  ghost predicate Sealed(d: Disk) {
    forall k | 0 <= k < |d.log| :: d.log[k].Some? && Stable(d, d.log[k].value)
  }

  ghost predicate ClaimHistory(s: State) {
    && s.record.claimed <= 1
    && (s.record.claimed == 1 ==> Sealed(s.disk))
    && (forall p | p in s.procs && (s.procs[p].ClaimWrite? || s.procs[p].ClaimDirSync?) :: s.record.claimed == 0)
  }

  ghost predicate FinalHistory(s: State) {
    && |s.record.finalized| <= 1
    && (|s.record.finalized| == 1 ==> Final(s.disk, s.record.finalized[0]))
    && (forall p | p in s.procs && (s.procs[p].FinalDirSync? || s.procs[p].FinalReload?) :: s.record.finalized == [])
  }

  // The only value the directory entry can take is this completed or failed document.
  ghost predicate Final(d: Disk, doc: Doc) {
    && |d.log| == 1 && d.log[0].Some? && d.log[0].value in d.files
    && d.files[d.log[0].value].doc == doc && doc.status != Started
  }

  // While the power stays on the marker is created at most once and replaced at most once.
  ghost predicate PowerHistory(s: State) {
    s.record.powerLosses == 0 ==>
      && s.record.created == (if Visible(s.disk).Some? then 1 else 0)
      && s.record.replaced == (if Rank(s.disk, Visible(s.disk)) == 2 then 1 else 0)
  }

  // A temporary file outlives its finalizer only if that process died or the power was lost.
  ghost predicate TempHistory(s: State) {
    forall p | p in s.disk.temps ::
      || s.record.powerLosses > 0 || p in s.record.died
      || PcOf(s, p).FinalWrite? || PcOf(s, p).FinalCheck? || PcOf(s, p).FinalReplace?
  }

  ghost predicate History(s: State) {
    ClaimHistory(s) && FinalHistory(s) && PowerHistory(s) && TempHistory(s)
  }

  // Everything the proofs carry along a run.
  ghost predicate Good(s: State) {
    Inv(s) && History(s)
  }

  // Only the lock holder's own obligation matters after it has moved.
  lemma HolderMoves(s: State, s': State, p: nat, pc: Pc)
    requires ProcsOk(s) && p in s.procs && Exclusive(s.procs[p])
    requires s'.procs == s.procs[p := pc]
    requires PcOk(s'.disk, p, pc)
    ensures ProcsOk(s')
  {
  }

  // A step that only moves one process, within the rules of the lock.
  lemma MoveKeepsInv(s: State, s': State, p: nat, pc: Pc)
    requires Inv(s) && s'.disk == s.disk && s'.procs == s.procs[p := pc]
    requires PcOk(s.disk, p, pc)
    requires Exclusive(pc) ==> Exclusive(PcOf(s, p)) || LockFree(s)
    requires pc.Idle? || !PcOf(s, p).Idle? || NoExclusive(s)
    ensures Inv(s')
  {
  }

  lemma OpenMarkerDisk(s: State, p: nat, ino: nat, size: nat)
    requires DiskOk(s.disk) && PcOk(s.disk, p, PcOf(s, p)) && Can(s, OpenMarker(p, ino, size))
    ensures DiskOk(OpenMarkerStep(s, p, ino, size).disk)
  {
    OpenMarkerLog(s, p, ino, size);
    OpenMarkerTemps(s, p, ino, size);
  }

  lemma OpenMarkerLog(s: State, p: nat, ino: nat, size: nat)
    requires DiskOk(s.disk) && PcOk(s.disk, p, PcOf(s, p)) && Can(s, OpenMarker(p, ino, size))
    ensures LogOk(OpenMarkerStep(s, p, ino, size).disk)
  {
  }

  lemma OpenMarkerTemps(s: State, p: nat, ino: nat, size: nat)
    requires DiskOk(s.disk) && PcOk(s.disk, p, PcOf(s, p)) && Can(s, OpenMarker(p, ino, size))
    ensures TempsOk(OpenMarkerStep(s, p, ino, size).disk)
  {
  }

  lemma OpenMarkerInv(s: State, p: nat, ino: nat, size: nat)
    requires Inv(s) && Can(s, OpenMarker(p, ino, size))
    ensures Inv(OpenMarkerStep(s, p, ino, size))
  {
    var s' := OpenMarkerStep(s, p, ino, size);
    OpenMarkerDisk(s, p, ino, size);
    HolderMoves(s, s', p, s'.procs[p]);
  }

  lemma OpenMarkerHistory(s: State, p: nat, ino: nat, size: nat)
    requires Good(s) && Can(s, OpenMarker(p, ino, size))
    ensures History(OpenMarkerStep(s, p, ino, size))
  {
  }

  lemma OpenMarkerKeeps(s: State, p: nat, ino: nat, size: nat)
    requires Good(s) && Can(s, OpenMarker(p, ino, size))
    ensures Good(OpenMarkerStep(s, p, ino, size))
  {
    OpenMarkerInv(s, p, ino, size);
    OpenMarkerHistory(s, p, ino, size);
  }

  lemma WriteDisk(s: State, p: nat, count: nat)
    requires DiskOk(s.disk) && PcOk(s.disk, p, PcOf(s, p)) && Can(s, WriteChunk(p, count))
    ensures DiskOk(WriteStep(s, OpenFile(PcOf(s, p)).value, count).disk)
  {
  }

  lemma WriteInv(s: State, p: nat, count: nat)
    requires Inv(s) && Can(s, WriteChunk(p, count))
    ensures Inv(WriteStep(s, OpenFile(PcOf(s, p)).value, count))
  {
    var s' := WriteStep(s, OpenFile(PcOf(s, p)).value, count);
    WriteDisk(s, p, count);
    HolderMoves(s, s', p, s'.procs[p]);
  }

  lemma WriteHistory(s: State, p: nat, count: nat)
    requires Good(s) && Can(s, WriteChunk(p, count))
    ensures History(WriteStep(s, OpenFile(PcOf(s, p)).value, count))
  {
  }

  lemma WriteKeeps(s: State, p: nat, count: nat)
    requires Good(s) && Can(s, WriteChunk(p, count))
    ensures Good(WriteStep(s, OpenFile(PcOf(s, p)).value, count))
  {
    WriteInv(s, p, count);
    WriteHistory(s, p, count);
  }

  lemma SyncFileDisk(s: State, p: nat)
    requires DiskOk(s.disk) && PcOk(s.disk, p, PcOf(s, p)) && Can(s, SyncFile(p))
    ensures DiskOk(SyncFileStep(s, p, OpenFile(PcOf(s, p)).value).disk)
  {
  }

  lemma SyncFileInv(s: State, p: nat)
    requires Inv(s) && Can(s, SyncFile(p))
    ensures Inv(SyncFileStep(s, p, OpenFile(PcOf(s, p)).value))
  {
    var s' := SyncFileStep(s, p, OpenFile(PcOf(s, p)).value);
    SyncFileDisk(s, p);
    HolderMoves(s, s', p, s'.procs[p]);
  }

  lemma SyncFileHistory(s: State, p: nat)
    requires Good(s) && Can(s, SyncFile(p))
    ensures History(SyncFileStep(s, p, OpenFile(PcOf(s, p)).value))
  {
  }

  lemma SyncFileKeeps(s: State, p: nat)
    requires Good(s) && Can(s, SyncFile(p))
    ensures Good(SyncFileStep(s, p, OpenFile(PcOf(s, p)).value))
  {
    SyncFileInv(s, p);
    SyncFileHistory(s, p);
  }

  lemma SyncDirectoryDisk(s: State, p: nat)
    requires DiskOk(s.disk) && PcOk(s.disk, p, PcOf(s, p)) && Can(s, SyncDirectory(p))
    ensures DiskOk(SyncDirectoryStep(s, p).disk)
  {
  }

  lemma SyncDirectoryInv(s: State, p: nat)
    requires Inv(s) && Can(s, SyncDirectory(p))
    ensures Inv(SyncDirectoryStep(s, p))
  {
    var s' := SyncDirectoryStep(s, p);
    SyncDirectoryDisk(s, p);
    HolderMoves(s, s', p, s'.procs[p]);
  }

  lemma SyncDirectoryHistory(s: State, p: nat)
    requires Good(s) && Can(s, SyncDirectory(p))
    ensures History(SyncDirectoryStep(s, p))
  {
  }

  lemma SyncDirectoryKeeps(s: State, p: nat)
    requires Good(s) && Can(s, SyncDirectory(p))
    ensures Good(SyncDirectoryStep(s, p))
  {
    SyncDirectoryInv(s, p);
    SyncDirectoryHistory(s, p);
  }

  lemma LoadForFinalizeKeeps(s: State, p: nat)
    requires Good(s) && Can(s, LoadForFinalize(p))
    ensures Good(LoadForFinalizeStep(s, p))
  {
    var s' := LoadForFinalizeStep(s, p);
    MoveKeepsInv(s, s', p, s'.procs[p]);
  }

  lemma OpenTempDisk(s: State, p: nat, ino: nat, size: nat)
    requires DiskOk(s.disk) && PcOk(s.disk, p, PcOf(s, p)) && Can(s, OpenTemp(p, ino, size))
    ensures DiskOk(OpenTempStep(s, p, ino, size).disk)
  {
    OpenTempLog(s, p, ino, size);
    OpenTempTemps(s, p, ino, size);
  }

  lemma OpenTempLog(s: State, p: nat, ino: nat, size: nat)
    requires DiskOk(s.disk) && PcOk(s.disk, p, PcOf(s, p)) && Can(s, OpenTemp(p, ino, size))
    ensures LogOk(OpenTempStep(s, p, ino, size).disk)
  {
  }

  lemma OpenTempTemps(s: State, p: nat, ino: nat, size: nat)
    requires DiskOk(s.disk) && PcOk(s.disk, p, PcOf(s, p)) && Can(s, OpenTemp(p, ino, size))
    ensures TempsOk(OpenTempStep(s, p, ino, size).disk)
  {
  }

  lemma OpenTempInv(s: State, p: nat, ino: nat, size: nat)
    requires Inv(s) && Can(s, OpenTemp(p, ino, size))
    ensures Inv(OpenTempStep(s, p, ino, size))
  {
    var s' := OpenTempStep(s, p, ino, size);
    OpenTempDisk(s, p, ino, size);
    HolderMoves(s, s', p, s'.procs[p]);
  }

  lemma OpenTempHistory(s: State, p: nat, ino: nat, size: nat)
    requires Good(s) && Can(s, OpenTemp(p, ino, size))
    ensures History(OpenTempStep(s, p, ino, size))
  {
  }

  lemma OpenTempKeeps(s: State, p: nat, ino: nat, size: nat)
    requires Good(s) && Can(s, OpenTemp(p, ino, size))
    ensures Good(OpenTempStep(s, p, ino, size))
  {
    OpenTempInv(s, p, ino, size);
    OpenTempHistory(s, p, ino, size);
  }

  lemma UnlinkDisk(s: State, p: nat)
    requires DiskOk(s.disk)
    ensures DiskOk(DropTemp(s, p).disk)
  {
  }

  lemma UnlinkKeeps(s: State, p: nat)
    requires Good(s)
    requires PcOf(s, p).FinalWrite? || PcOf(s, p).FinalCheck? || PcOf(s, p).FinalReplace?
    ensures Good(Goto(DropTemp(s, p), p, Idle))
  {
    UnlinkDisk(s, p);
    HolderMoves(s, Goto(DropTemp(s, p), p, Idle), p, Idle);
  }

  lemma CheckSignatureKeeps(s: State, p: nat)
    requires Good(s) && Can(s, CheckSignature(p))
    ensures Good(CheckSignatureStep(s, p))
  {
    if Recheck(s.disk, PcOf(s, p).seen) {
      HolderMoves(s, CheckSignatureStep(s, p), p, CheckSignatureStep(s, p).procs[p]);
    } else {
      UnlinkKeeps(s, p);
    }
  }

  lemma RenameDisk(s: State, p: nat)
    requires DiskOk(s.disk) && PcOk(s.disk, p, PcOf(s, p)) && Can(s, Rename(p))
    ensures DiskOk(RenameStep(s, p).disk)
  {
    RenameLog(s, p);
    RenameTemps(s, p);
  }

  lemma RenameLog(s: State, p: nat)
    requires DiskOk(s.disk) && PcOk(s.disk, p, PcOf(s, p)) && Can(s, Rename(p))
    ensures LogOk(RenameStep(s, p).disk)
  {
  }

  lemma RenameTemps(s: State, p: nat)
    requires DiskOk(s.disk) && PcOk(s.disk, p, PcOf(s, p)) && Can(s, Rename(p))
    ensures TempsOk(RenameStep(s, p).disk)
  {
  }

  lemma RenameInv(s: State, p: nat)
    requires Inv(s) && Can(s, Rename(p))
    ensures Inv(RenameStep(s, p))
  {
    var s' := RenameStep(s, p);
    RenameDisk(s, p);
    HolderMoves(s, s', p, s'.procs[p]);
  }

  lemma RenameHistory(s: State, p: nat)
    requires Good(s) && Can(s, Rename(p))
    ensures History(RenameStep(s, p))
  {
  }

  lemma RenameKeeps(s: State, p: nat)
    requires Good(s) && Can(s, Rename(p))
    ensures Good(RenameStep(s, p))
  {
    RenameInv(s, p);
    RenameHistory(s, p);
  }

  lemma ReloadInv(s: State, p: nat)
    requires Inv(s) && Can(s, Reload(p))
    ensures Inv(ReloadStep(s, p))
  {
    var s' := ReloadStep(s, p);
    HolderMoves(s, s', p, s'.procs[p]);
  }

  lemma ReloadHistory(s: State, p: nat)
    requires Good(s) && Can(s, Reload(p))
    ensures History(ReloadStep(s, p))
  {
  }

  lemma ReloadKeeps(s: State, p: nat)
    requires Good(s) && Can(s, Reload(p))
    ensures Good(ReloadStep(s, p))
  {
    ReloadInv(s, p);
    ReloadHistory(s, p);
  }

  lemma RaiseKeeps(s: State, p: nat)
    requires Good(s) && Can(s, Raise(p))
    ensures Good(RaiseStep(s, p))
  {
    if PcOf(s, p).FinalWrite? || PcOf(s, p).FinalCheck? || PcOf(s, p).FinalReplace? {
      UnlinkKeeps(s, p);
    } else {
      LetGoKeeps(s, p);
    }
  }

  lemma LetGoKeeps(s: State, p: nat)
    requires Good(s) && Can(s, Raise(p))
    requires !PcOf(s, p).FinalWrite? && !PcOf(s, p).FinalCheck? && !PcOf(s, p).FinalReplace?
    ensures Good(RaiseStep(s, p))
  {
    MoveKeepsInv(s, RaiseStep(s, p), p, RaiseStep(s, p).procs[p]);
    LetGoHistory(s, p);
  }

  lemma LetGoHistory(s: State, p: nat)
    requires Good(s) && Can(s, Raise(p))
    requires !PcOf(s, p).FinalWrite? && !PcOf(s, p).FinalCheck? && !PcOf(s, p).FinalReplace?
    ensures History(RaiseStep(s, p))
  {
  }

  lemma PowerLossKeeps(s: State, pick: nat, torn: map<nat, nat>, lostTemps: set<nat>)
    requires Good(s) && Can(s, PowerLoss(pick, torn, lostTemps))
    ensures Good(PowerLossStep(s, pick, torn, lostTemps))
  {
    assert DiskOk(PowerLossStep(s, pick, torn, lostTemps).disk);
  }

  // Starting, reading and dying change neither the marker entry nor any file.
  lemma StartKeeps(s: State, step: Step)
    requires Good(s) && Can(s, step) && (step.StartClaim? || step.StartFinalize? || step.StartLoad?)
    ensures Good(Do(s, step))
  {
    MoveKeepsInv(s, Do(s, step), step.p, Do(s, step).procs[step.p]);
  }

  lemma QuietKeeps(s: State, step: Step)
    requires Good(s) && Can(s, step) && (step.ReadMarker? || step.Crash?)
    ensures Good(Do(s, step))
  {
    MoveKeepsInv(s, Do(s, step), step.p, Do(s, step).procs[step.p]);
    QuietHistory(s, step);
  }

  lemma QuietHistory(s: State, step: Step)
    requires Good(s) && Can(s, step) && (step.ReadMarker? || step.Crash?)
    ensures History(Do(s, step))
  {
    if step.ReadMarker? {
      ReadHistory(s, step.p);
    } else {
      CrashHistory(s, step.p);
    }
  }

  lemma ReadHistory(s: State, p: nat)
    requires Good(s) && Can(s, ReadMarker(p))
    ensures History(ReadMarkerStep(s, p))
  {
  }

  lemma CrashHistory(s: State, p: nat)
    requires Good(s) && Can(s, Crash(p))
    ensures History(Do(s, Crash(p)))
  {
  }

  lemma StepGood(s: State, step: Step)
    requires Good(s) && Can(s, step)
    ensures Good(Do(s, step))
  {
    match step
    case OpenMarker(p, ino, size) => OpenMarkerKeeps(s, p, ino, size);
    case WriteChunk(p, count) => WriteKeeps(s, p, count);
    case SyncFile(p) => SyncFileKeeps(s, p);
    case SyncDirectory(p) => SyncDirectoryKeeps(s, p);
    case LoadForFinalize(p) => LoadForFinalizeKeeps(s, p);
    case OpenTemp(p, ino, size) => OpenTempKeeps(s, p, ino, size);
    case CheckSignature(p) => CheckSignatureKeeps(s, p);
    case Rename(p) => RenameKeeps(s, p);
    case Reload(p) => ReloadKeeps(s, p);
    case Raise(p) => RaiseKeeps(s, p);
    case PowerLoss(pick, torn, lostTemps) => PowerLossKeeps(s, pick, torn, lostTemps);
    case ReadMarker(p) => QuietKeeps(s, step);
    case Crash(p) => QuietKeeps(s, step);
    case _ => StartKeeps(s, step);
  }

  lemma {:induction false} RunGood(s: State, steps: seq<Step>)
    requires Good(s) && Runs(s, steps)
    ensures Good(After(s, steps))
    decreases |steps|
  {
    if steps != [] {
      StepGood(s, steps[0]);
      RunGood(Do(s, steps[0]), steps[1..]);
    }
  }

  // ---------------------------------------------------------------- safety over whole runs

  // Whatever identities compete, whatever dies and however often power fails: at most one claim
  // and at most one finalization ever return successfully.
  lemma OneClaimOneFinalization(steps: seq<Step>)
    requires Runs(INIT, steps)
    ensures After(INIT, steps).record.claimed <= 1
    ensures |After(INIT, steps).record.finalized| <= 1
  {
    RunGood(INIT, steps);
  }

  // Once a claim has returned, the marker is never absent or partial again and nothing creates it again.
  lemma {:induction false} ClaimIsForever(s: State, steps: seq<Step>)
    requires Good(s) && s.record.claimed == 1 && Runs(s, steps)
    ensures var t := After(s, steps);
      t.record.claimed == 1 && t.record.created == s.record.created && Level(t.disk) >= 2
    decreases |steps|
  {
    if steps != [] {
      StepGood(s, steps[0]);
      StepAfterClaim(s, steps[0]);
      ClaimIsForever(Do(s, steps[0]), steps[1..]);
    }
  }

  lemma StepAfterClaim(s: State, step: Step)
    requires Good(s) && s.record.claimed == 1 && Can(s, step)
    ensures Do(s, step).record.claimed == 1 && Do(s, step).record.created == s.record.created
  {
    assert Visible(s.disk).Some?;
  }

  // Once a finalization has returned, no run changes the document, not even through a power loss.
  lemma {:induction false} FinalizationIsForever(s: State, steps: seq<Step>, doc: Doc)
    requires Good(s) && s.record.finalized == [doc] && Runs(s, steps)
    ensures var t := After(s, steps);
      t.record.finalized == [doc] && t.record.replaced == s.record.replaced && Final(t.disk, doc) && Level(t.disk) == 3
    decreases |steps|
  {
    if steps != [] {
      StepGood(s, steps[0]);
      StepAfterFinalization(s, steps[0], doc);
      FinalizationIsForever(Do(s, steps[0]), steps[1..], doc);
    }
  }

  lemma StepAfterFinalization(s: State, step: Step, doc: Doc)
    requires Good(s) && s.record.finalized == [doc] && Can(s, step)
    ensures Do(s, step).record.finalized == [doc] && Do(s, step).record.replaced == s.record.replaced
  {
    if step.Rename? {
      assert false;
    }
  }

  // ---------------------------------------------------------------- runs in which only processes die

  function VisibleDoc(d: Disk): Option<Doc> {
    match Visible(d)
    case None => None
    case Some(i) => if i in d.files then Some(d.files[i].doc) else None
  }

  lemma RenameMonotone(s: State, p: nat)
    requires Good(s) && Can(s, Rename(p))
    ensures Level(s.disk) == 2 && Level(RenameStep(s, p).disk) == 3
  {
    assert PcOk(s.disk, p, s.procs[p]);
  }

  lemma FileStepMonotone(s: State, step: Step)
    requires Good(s) && Can(s, step)
    requires step.OpenMarker? || step.WriteChunk? || step.SyncFile? || step.OpenTemp?
    ensures Level(s.disk) <= Level(Do(s, step).disk)
    ensures Level(s.disk) == 3 ==> VisibleDoc(Do(s, step).disk) == VisibleDoc(s.disk)
  {
    match step
    case OpenMarker(p, ino, size) => OpenMarkerMonotone(s, p, ino, size);
    case OpenTemp(p, ino, size) => OpenTempMonotone(s, p, ino, size);
    case _ =>
  }

  lemma OpenMarkerMonotone(s: State, p: nat, ino: nat, size: nat)
    requires Good(s) && Can(s, OpenMarker(p, ino, size))
    ensures Level(s.disk) <= Level(OpenMarkerStep(s, p, ino, size).disk)
    ensures Level(s.disk) == 3 ==> VisibleDoc(OpenMarkerStep(s, p, ino, size).disk) == VisibleDoc(s.disk)
  {
  }

  lemma OpenTempMonotone(s: State, p: nat, ino: nat, size: nat)
    requires Good(s) && Can(s, OpenTemp(p, ino, size))
    ensures Level(OpenTempStep(s, p, ino, size).disk) == Level(s.disk)
    ensures VisibleDoc(OpenTempStep(s, p, ino, size).disk) == VisibleDoc(s.disk)
  {
  }

  lemma StepMonotone(s: State, step: Step)
    requires Good(s) && Can(s, step) && !step.PowerLoss?
    ensures Level(s.disk) <= Level(Do(s, step).disk)
    ensures Level(s.disk) == 3 ==> VisibleDoc(Do(s, step).disk) == VisibleDoc(s.disk)
  {
    if step.Rename? {
      RenameMonotone(s, step.p);
    } else if step.OpenMarker? || step.WriteChunk? || step.SyncFile? || step.OpenTemp? {
      FileStepMonotone(s, step);
    } else {
      EntryStays(s, step);
    }
  }

  // Every other step leaves the visible entry and its file alone.
  lemma EntryStays(s: State, step: Step)
    requires Can(s, step) && !step.PowerLoss? && !step.Rename?
    requires !step.OpenMarker? && !step.WriteChunk? && !step.SyncFile? && !step.OpenTemp?
    ensures Visible(Do(s, step).disk) == Visible(s.disk) && Do(s, step).disk.files == s.disk.files
  {
  }

  // A loader is handed exactly the complete document that is visible when it reads.
  lemma StepSees(s: State, step: Step)
    requires Can(s, step)
    ensures var before, after := s.record.seen, Do(s, step).record.seen;
      after == before || (Level(s.disk) >= 2 && after == before + [VisibleDoc(s.disk).value])
  {
  }

  // The status only moves absent, partial, started, final; a final document stays,
  // and every later loader is handed exactly it.
  lemma {:induction false} CrashesOnlyMoveForward(s: State, steps: seq<Step>)
    requires Good(s) && Runs(s, steps) && PowerStays(steps)
    ensures var t := After(s, steps);
      && Level(s.disk) <= Level(t.disk)
      && |s.record.seen| <= |t.record.seen|
      && (Level(s.disk) == 3 ==>
            && VisibleDoc(t.disk) == VisibleDoc(s.disk)
            && forall k | |s.record.seen| <= k < |t.record.seen| :: Some(t.record.seen[k]) == VisibleDoc(s.disk))
    decreases |steps|
  {
    if steps != [] {
      StepGood(s, steps[0]);
      StepMonotone(s, steps[0]);
      StepSees(s, steps[0]);
      CrashesOnlyMoveForward(Do(s, steps[0]), steps[1..]);
      SeenGrows(Do(s, steps[0]), steps[1..]);
    }
  }

  lemma {:induction false} SeenGrows(s: State, steps: seq<Step>)
    requires Runs(s, steps)
    ensures s.record.seen <= After(s, steps).record.seen
    ensures s.record.powerLosses <= After(s, steps).record.powerLosses
    ensures PowerStays(steps) ==> After(s, steps).record.powerLosses == s.record.powerLosses
    decreases |steps|
  {
    if steps != [] {
      SeenGrows(Do(s, steps[0]), steps[1..]);
    }
  }

  // Without a power loss the marker is created at most once and replaced at most once over the whole run.
  lemma CrashesNeverReopenTheClaim(steps: seq<Step>)
    requires Runs(INIT, steps) && PowerStays(steps)
    ensures var t := After(INIT, steps);
      && t.record.created <= 1 && t.record.replaced <= t.record.created
      && (t.record.created == 1 <==> Visible(t.disk).Some?)
  {
    RunGood(INIT, steps);
    SeenGrows(INIT, steps);
  }

  // ---------------------------------------------------------------- crash atomicity of finalization

  // At every point of every run a visible completed or failed document is whole and durable.
  lemma FinalDocumentsAreWhole(steps: seq<Step>)
    requires Runs(INIT, steps)
    ensures var t := After(INIT, steps);
      VisibleDoc(t.disk).Some? && VisibleDoc(t.disk).value.status != Started ==>
        Level(t.disk) == 3 && Stable(t.disk, Visible(t.disk).value)
  {
    RunGood(INIT, steps);
  }

  // A finalizer sees the whole old document until its rename and the whole new one after it,
  // so its signature check and its reload never fail.
  lemma FinalizerSeesWholeDocuments(s: State, p: nat)
    requires Good(s)
    ensures var pc := PcOf(s, p);
      && (pc.FinalCreate? || pc.FinalWrite? || pc.FinalCheck? || pc.FinalReplace? ==>
            Level(s.disk) == 2 && SignatureOf(s.disk, Visible(s.disk).value) == pc.seen)
      && (pc.FinalDirSync? || pc.FinalReload? ==> Level(s.disk) == 3 && VisibleDoc(s.disk) == Some(pc.next))
      && (pc.FinalCheck? ==> PcOf(CheckSignatureStep(s, p), p).FinalReplace?)
      && (pc.FinalReload? ==> ReloadStep(s, p).record.finalized == [pc.next])
  {
    var pc := PcOf(s, p);
    assert PcOk(s.disk, p, pc);
  }

  // A leftover temporary file can make a finalization fail, but only after a process of the same id
  // has died or the power was lost, and the marker is untouched.
  lemma StaleTempOnlyAfterDeath(s: State, p: nat, ino: nat, size: nat)
    requires Good(s) && Can(s, OpenTemp(p, ino, size)) && PcOf(Do(s, OpenTemp(p, ino, size)), p).Idle?
    ensures s.record.powerLosses > 0 || p in s.record.died
    ensures Do(s, OpenTemp(p, ino, size)).disk == s.disk && Level(s.disk) == 2
  {
  }

  // ---------------------------------------------------------------- what a power loss can undo, exactly

  predicate Resets(s: State, step: Step) {
    step.PowerLoss? && Can(s, step) && Level(Do(s, step).disk) < Level(s.disk)
  }

  lemma PowerLossUndoes(s: State)
    requires Good(s)
    ensures (exists step :: Resets(s, step)) <==>
              (|s.disk.log| > 1 || (Level(s.disk) == 2 && !Stable(s.disk, Visible(s.disk).value)))
  {
    if |s.disk.log| > 1 {
      assert Rank(s.disk, s.disk.log[0]) < Rank(s.disk, Visible(s.disk));
      assert Resets(s, PowerLoss(0, map[], {}));
    } else if Level(s.disk) == 2 && !Stable(s.disk, Visible(s.disk).value) {
      var i := Visible(s.disk).value;
      assert Resets(s, PowerLoss(0, map[i := s.disk.files[i].durable], {}));
    }
  }

  // The marker can become claimable again only by a power loss between its creation and the first directory
  // fsync, and then no claim has returned.
  lemma ClaimableAgain(s: State)
    requires Good(s) && Visible(s.disk).Some?
    ensures (exists step :: Reopens(s, step)) <==> None in s.disk.log
    ensures None in s.disk.log ==> s.record.claimed == 0
  {
    if None in s.disk.log {
      var k :| 0 <= k < |s.disk.log| && s.disk.log[k] == None;
      assert Reopens(s, PowerLoss(k, map[], {}));
    }
    forall step | Reopens(s, step) ensures None in s.disk.log {
      if !step.PowerLoss? {
        StepMonotone(s, step);
      }
    }
  }

  predicate Reopens(s: State, step: Step) {
    Can(s, step) && Visible(Do(s, step).disk).None?
  }

  // ---------------------------------------------------------------- a power loss after a crash mid-finalization

  const DIGESTS: seq<nat> := [1, 2, 3, 4, 5, 6]

  // Process 1 claims; process 2 replaces the marker by a completed one and dies before the directory fsync;
  // process 3 reads "completed"; the power fails and the old entry returns; process 4 finalizes as failed.
  const CREATE_STEPS := [StartClaim(1, 0, 0), OpenMarker(1, 1, 1), WriteChunk(1, 1)]
  const CLAIM_STEPS := [SyncFile(1), SyncDirectory(1)]
  const LOAD_STEPS := [StartFinalize(2, Request(0, 0, Completed, Some(DIGESTS))), LoadForFinalize(2)]
  const STAGE_STEPS := [OpenTemp(2, 2, 1)]
  const COMPLETE_STEPS := [WriteChunk(2, 1), SyncFile(2)]
  const REPLACE_STEPS := [CheckSignature(2), Rename(2), Crash(2)]
  const READ_STEPS := [StartLoad(3, 0, 0), ReadMarker(3), PowerLoss(0, map[], {})]
  const RESTAGE_STEPS := [StartFinalize(4, Request(0, 0, Failed, None)), LoadForFinalize(4), OpenTemp(4, 3, 1)]
  const PREPARE_STEPS := [WriteChunk(4, 1), SyncFile(4)]
  const FAIL_STEPS := [CheckSignature(4), Rename(4)]
  const FINISH_STEPS := [SyncDirectory(4), Reload(4)]

  lemma {:induction false} RunsAppend(s: State, a: seq<Step>, b: seq<Step>)
    requires Runs(s, a) && Runs(After(s, a), b)
    ensures Runs(s, a + b) && After(s, a + b) == After(After(s, a), b)
    decreases |a|
  {
    if a == [] {
      assert a + b == b;
    } else {
      RunsAppend(Do(s, a[0]), a[1..], b);
      assert (a + b)[1..] == a[1..] + b;
    }
  }

  const STARTED_DOC := Doc(0, 0, Started, [])
  const DONE_DOC := Doc(0, 0, Completed, DIGESTS)
  const FAILED_DOC := Doc(0, 0, Failed, [])
  const STARTED_FILE := File(STARTED_DOC, 1, 1, 1)
  const DONE_FILE := File(DONE_DOC, 1, 1, 1)

  const CREATED_STATE := State(
    Disk(map[1 := File(STARTED_DOC, 1, 1, 0)], [None, Some(1)], map[]), map[1 := ClaimWrite(1)],
    Record(1, 0, 0, [], [], {}, 0))
  const CLAIMED_STATE := State(
    Disk(map[1 := STARTED_FILE], [Some(1)], map[]), map[1 := Idle], Record(1, 1, 0, [], [], {}, 0))
  const LOADED_STATE := State(
    Disk(map[1 := STARTED_FILE], [Some(1)], map[]), map[1 := Idle, 2 := FinalCreate(Signature(1, 1), DONE_DOC)],
    Record(1, 1, 0, [], [], {}, 0))
  const STAGED_STATE := State(
    Disk(map[1 := STARTED_FILE, 2 := File(DONE_DOC, 1, 0, 0)], [Some(1)], map[2 := 2]),
    map[1 := Idle, 2 := FinalWrite(Signature(1, 1), DONE_DOC, 2)], Record(1, 1, 0, [], [], {}, 0))
  const WRITTEN_STATE := State(
    Disk(map[1 := STARTED_FILE, 2 := DONE_FILE], [Some(1)], map[2 := 2]),
    map[1 := Idle, 2 := FinalCheck(Signature(1, 1), DONE_DOC, 2)], Record(1, 1, 0, [], [], {}, 0))
  const DIED_STATE := State(
    Disk(map[1 := STARTED_FILE, 2 := DONE_FILE], [Some(1), Some(2)], map[]),
    map[1 := Idle, 2 := Idle], Record(1, 1, 1, [], [], {2}, 0))
  const REVERTED_STATE := State(
    Disk(map[1 := STARTED_FILE, 2 := DONE_FILE], [Some(1)], map[]), map[], Record(1, 1, 1, [], [DONE_DOC], {2}, 1))
  const RESTAGED_STATE := State(
    Disk(map[1 := STARTED_FILE, 2 := DONE_FILE, 3 := File(FAILED_DOC, 1, 0, 0)], [Some(1)], map[4 := 3]),
    map[4 := FinalWrite(Signature(1, 1), FAILED_DOC, 3)], Record(1, 1, 1, [], [DONE_DOC], {2}, 1))
  const PREPARED_STATE := State(
    Disk(map[1 := STARTED_FILE, 2 := DONE_FILE, 3 := File(FAILED_DOC, 1, 1, 1)], [Some(1)], map[4 := 3]),
    map[4 := FinalCheck(Signature(1, 1), FAILED_DOC, 3)], Record(1, 1, 1, [], [DONE_DOC], {2}, 1))
  const REPLACED_STATE := State(
    Disk(map[1 := STARTED_FILE, 2 := DONE_FILE, 3 := File(FAILED_DOC, 1, 1, 1)], [Some(1), Some(3)], map[]),
    map[4 := FinalDirSync(FAILED_DOC, 3)], Record(1, 1, 2, [], [DONE_DOC], {2}, 1))

  lemma CreatePhase()
    ensures Runs(INIT, CREATE_STEPS) && After(INIT, CREATE_STEPS) == CREATED_STATE
  {
  }

  lemma ClaimPhase()
    ensures Runs(CREATED_STATE, CLAIM_STEPS) && After(CREATED_STATE, CLAIM_STEPS) == CLAIMED_STATE
  {
  }

  lemma LoadPhase()
    ensures Runs(CLAIMED_STATE, LOAD_STEPS) && After(CLAIMED_STATE, LOAD_STEPS) == LOADED_STATE
  {
    var s1 := Do(CLAIMED_STATE, LOAD_STEPS[0]);
    assert LoadForFinalizeStep(s1, 2) == LOADED_STATE;
    assert Runs(LOADED_STATE, []) && LOAD_STEPS[1..][1..] == [];
    assert Runs(s1, LOAD_STEPS[1..]) && After(s1, LOAD_STEPS[1..]) == LOADED_STATE;
  }

  lemma StagePhase()
    ensures Runs(LOADED_STATE, STAGE_STEPS) && After(LOADED_STATE, STAGE_STEPS) == STAGED_STATE
  {
    assert OpenTempStep(LOADED_STATE, 2, 2, 1) == STAGED_STATE;
    assert Runs(STAGED_STATE, []) && STAGE_STEPS[1..] == [];
  }

  lemma CompletePhase()
    ensures Runs(STAGED_STATE, COMPLETE_STEPS) && After(STAGED_STATE, COMPLETE_STEPS) == WRITTEN_STATE
  {
  }

  lemma ReplacePhase()
    ensures Runs(WRITTEN_STATE, REPLACE_STEPS) && After(WRITTEN_STATE, REPLACE_STEPS) == DIED_STATE
  {
  }

  lemma ReadPhase()
    ensures Runs(DIED_STATE, READ_STEPS) && After(DIED_STATE, READ_STEPS) == REVERTED_STATE
  {
    var s1 := Do(DIED_STATE, READ_STEPS[0]);
    var s2 := ReadMarkerStep(s1, 3);
    assert s2.record.seen == [DONE_DOC];
    assert PowerLossStep(s2, 0, map[], {}) == REVERTED_STATE;
    assert Runs(REVERTED_STATE, []) && READ_STEPS[2..][1..] == [];
    assert Runs(s2, READ_STEPS[2..]) && After(s2, READ_STEPS[2..]) == REVERTED_STATE;
    assert READ_STEPS[1..][0] == ReadMarker(3) && READ_STEPS[1..][1..] == READ_STEPS[2..];
    assert Runs(s1, READ_STEPS[1..]) && After(s1, READ_STEPS[1..]) == REVERTED_STATE;
  }

  lemma RestagePhase()
    ensures Runs(REVERTED_STATE, RESTAGE_STEPS) && After(REVERTED_STATE, RESTAGE_STEPS) == RESTAGED_STATE
  {
  }

  lemma PreparePhase()
    ensures Runs(RESTAGED_STATE, PREPARE_STEPS) && After(RESTAGED_STATE, PREPARE_STEPS) == PREPARED_STATE
  {
  }

  lemma FailPhase()
    ensures Runs(PREPARED_STATE, FAIL_STEPS) && After(PREPARED_STATE, FAIL_STEPS) == REPLACED_STATE
  {
  }

  lemma FinishPhase()
    ensures Runs(REPLACED_STATE, FINISH_STEPS)
    ensures After(REPLACED_STATE, FINISH_STEPS).record == Record(1, 1, 2, [FAILED_DOC], [DONE_DOC], {2}, 1)
  {
  }

  ghost predicate Reaches(s: State, t: State) {
    exists steps :: Runs(s, steps) && After(s, steps) == t
  }

  lemma GoesOn(s: State, m: State, steps: seq<Step>, t: State)
    requires Reaches(s, m) && Runs(m, steps) && After(m, steps) == t
    ensures Reaches(s, t)
  {
    var before :| Runs(s, before) && After(s, before) == m;
    RunsAppend(s, before, steps);
  }

  lemma WrittenIsReached()
    ensures Reaches(INIT, WRITTEN_STATE)
  {
    CreatePhase();
    assert Reaches(INIT, CREATED_STATE);
    ClaimPhase();
    GoesOn(INIT, CREATED_STATE, CLAIM_STEPS, CLAIMED_STATE);
    LoadPhase();
    GoesOn(INIT, CLAIMED_STATE, LOAD_STEPS, LOADED_STATE);
    StagePhase();
    GoesOn(INIT, LOADED_STATE, STAGE_STEPS, STAGED_STATE);
    CompletePhase();
    GoesOn(INIT, STAGED_STATE, COMPLETE_STEPS, WRITTEN_STATE);
  }

  lemma CompletedIsSeen()
    ensures Reaches(INIT, REVERTED_STATE)
  {
    WrittenIsReached();
    ReplacePhase();
    GoesOn(INIT, WRITTEN_STATE, REPLACE_STEPS, DIED_STATE);
    ReadPhase();
    GoesOn(INIT, DIED_STATE, READ_STEPS, REVERTED_STATE);
  }

  // Status monotonicity fails for power losses: a loader has seen "completed", yet the only finalization
  // that ever returns is a failed one, and the marker has been replaced twice.
  lemma PowerLossRevertsCompleted()
    ensures exists steps :: Runs(INIT, steps) && After(INIT, steps).record == Record(1, 1, 2, [FAILED_DOC], [DONE_DOC], {2}, 1)
  {
    CompletedIsSeen();
    RestagePhase();
    GoesOn(INIT, REVERTED_STATE, RESTAGE_STEPS, RESTAGED_STATE);
    PreparePhase();
    GoesOn(INIT, RESTAGED_STATE, PREPARE_STEPS, PREPARED_STATE);
    FailPhase();
    GoesOn(INIT, PREPARED_STATE, FAIL_STEPS, REPLACED_STATE);
    FinishPhase();
    var t := After(REPLACED_STATE, FINISH_STEPS);
    GoesOn(INIT, REPLACED_STATE, FINISH_STEPS, t);
    var steps :| Runs(INIT, steps) && After(INIT, steps) == t;
  }

  // ---------------------------------------------------------------- an undisturbed finalization, step by step

  predicate Finalizes(r: Request, doc: Doc) {
    r.run == 0 && r.capability == 0 && Prepared(STARTED_DOC, r) == Some(doc)
  }

  function FinalizerAt(files: map<nat, File>, log: seq<Option<nat>>, temps: map<nat, nat>, pc: Pc, replaced: nat, finalized: seq<Doc>): State {
    State(Disk(files, log, temps), map[1 := Idle, 2 := pc], Record(1, 1, replaced, finalized, [], {}, 0))
  }

  function LoadedFor(doc: Doc): State {
    FinalizerAt(map[1 := STARTED_FILE], [Some(1)], map[], FinalCreate(Signature(1, 1), doc), 0, [])
  }

  function StagedFor(doc: Doc): State {
    FinalizerAt(map[1 := STARTED_FILE, 2 := File(doc, 1, 0, 0)], [Some(1)], map[2 := 2], FinalWrite(Signature(1, 1), doc, 2), 0, [])
  }

  function WrittenFor(doc: Doc): State {
    FinalizerAt(map[1 := STARTED_FILE, 2 := File(doc, 1, 1, 1)], [Some(1)], map[2 := 2], FinalCheck(Signature(1, 1), doc, 2), 0, [])
  }

  function ReplacedBy(doc: Doc): State {
    FinalizerAt(map[1 := STARTED_FILE, 2 := File(doc, 1, 1, 1)], [Some(1), Some(2)], map[], FinalDirSync(doc, 2), 1, [])
  }

  function FinalizedAs(doc: Doc): State {
    FinalizerAt(map[1 := STARTED_FILE, 2 := File(doc, 1, 1, 1)], [Some(2)], map[], Idle, 1, [doc])
  }

  lemma LoadRuns(r: Request, doc: Doc)
    requires Finalizes(r, doc)
    ensures var steps := [StartFinalize(2, r), LoadForFinalize(2)]; Runs(CLAIMED_STATE, steps) && After(CLAIMED_STATE, steps) == LoadedFor(doc)
  {
    var steps := [StartFinalize(2, r), LoadForFinalize(2)];
    var s1 := Do(CLAIMED_STATE, steps[0]);
    assert LoadForFinalizeStep(s1, 2) == LoadedFor(doc);
    assert Runs(LoadedFor(doc), []) && steps[1..][1..] == [];
    assert Runs(s1, steps[1..]) && After(s1, steps[1..]) == LoadedFor(doc);
  }

  lemma StageRuns(doc: Doc)
    ensures var steps := [OpenTemp(2, 2, 1)]; Runs(LoadedFor(doc), steps) && After(LoadedFor(doc), steps) == StagedFor(doc)
  {
    var steps := [OpenTemp(2, 2, 1)];
    assert OpenTempStep(LoadedFor(doc), 2, 2, 1) == StagedFor(doc);
    assert Runs(StagedFor(doc), []) && steps[1..] == [];
  }

  lemma WriteRuns(doc: Doc)
    ensures var steps := [WriteChunk(2, 1), SyncFile(2)]; Runs(StagedFor(doc), steps) && After(StagedFor(doc), steps) == WrittenFor(doc)
  {
    var steps := [WriteChunk(2, 1), SyncFile(2)];
    var s1 := WriteStep(StagedFor(doc), 2, 1);
    assert SyncFileStep(s1, 2, 2) == WrittenFor(doc);
    assert Runs(WrittenFor(doc), []) && steps[1..][1..] == [];
    assert Runs(s1, steps[1..]) && After(s1, steps[1..]) == WrittenFor(doc);
  }

  lemma ReplaceRuns(doc: Doc)
    ensures var steps := [CheckSignature(2), Rename(2)]; Runs(WrittenFor(doc), steps) && After(WrittenFor(doc), steps) == ReplacedBy(doc)
  {
    var steps := [CheckSignature(2), Rename(2)];
    var s1 := CheckSignatureStep(WrittenFor(doc), 2);
    assert RenameStep(s1, 2) == ReplacedBy(doc);
    assert Runs(ReplacedBy(doc), []) && steps[1..][1..] == [];
    assert Runs(s1, steps[1..]) && After(s1, steps[1..]) == ReplacedBy(doc);
  }

  lemma FinishRuns(doc: Doc)
    requires doc.run == 0 && doc.capability == 0
    ensures var steps := [SyncDirectory(2), Reload(2)]; Runs(ReplacedBy(doc), steps) && After(ReplacedBy(doc), steps) == FinalizedAs(doc)
  {
    var steps := [SyncDirectory(2), Reload(2)];
    var s1 := SyncDirectoryStep(ReplacedBy(doc), 2);
    assert ReloadStep(s1, 2) == FinalizedAs(doc);
    assert Runs(FinalizedAs(doc), []) && steps[1..][1..] == [];
    assert Runs(s1, steps[1..]) && After(s1, steps[1..]) == FinalizedAs(doc);
  }

  lemma ReachesItself(s: State)
    ensures Reaches(s, s)
  {
    var nothing: seq<Step> := [];
    assert Runs(s, nothing) && After(s, nothing) == s;
  }

  lemma ReachesOn(s: State, m: State, t: State)
    requires Reaches(s, m) && Reaches(m, t)
    ensures Reaches(s, t)
  {
    var steps :| Runs(m, steps) && After(m, steps) == t;
    GoesOn(s, m, steps, t);
  }

  lemma ClaimIsReached()
    ensures Reaches(INIT, CLAIMED_STATE)
  {
    CreatePhase();
    assert Reaches(INIT, CREATED_STATE);
    ClaimPhase();
    GoesOn(INIT, CREATED_STATE, CLAIM_STEPS, CLAIMED_STATE);
  }

  lemma DocumentIsWritten(r: Request, doc: Doc)
    requires Finalizes(r, doc)
    ensures Reaches(CLAIMED_STATE, WrittenFor(doc))
  {
    ReachesItself(CLAIMED_STATE);
    LoadRuns(r, doc);
    GoesOn(CLAIMED_STATE, CLAIMED_STATE, [StartFinalize(2, r), LoadForFinalize(2)], LoadedFor(doc));
    StageRuns(doc);
    GoesOn(CLAIMED_STATE, LoadedFor(doc), [OpenTemp(2, 2, 1)], StagedFor(doc));
    WriteRuns(doc);
    GoesOn(CLAIMED_STATE, StagedFor(doc), [WriteChunk(2, 1), SyncFile(2)], WrittenFor(doc));
  }

  // Any finalization of a claim that its arguments allow can return, without a death or a power loss.
  lemma FinalizationIsReached(r: Request, doc: Doc)
    requires Finalizes(r, doc)
    ensures Reaches(CLAIMED_STATE, FinalizedAs(doc))
  {
    DocumentIsWritten(r, doc);
    ReplaceRuns(doc);
    GoesOn(CLAIMED_STATE, WrittenFor(doc), [CheckSignature(2), Rename(2)], ReplacedBy(doc));
    FinishRuns(doc);
    GoesOn(CLAIMED_STATE, ReplacedBy(doc), [SyncDirectory(2), Reload(2)], FinalizedAs(doc));
  }
}
