/** The background flush of one file (src/virtual_fs/flush.rs) against its writers,
    reopens, truncation, the poll loop and the collection of staging files (src/virtual_fs/mod.rs, inode.rs, staging.rs).

    Writers change the staging file first and mark the inode dirty later; the single
    flusher takes the generation, reads the staging file block by block, commits,
    and clears the dirty mark only if the generation is still the one it took. */
module FlushProtocol {
  import opened Prelude

  type TaskId = nat
  type Block = int
  type Content = seq<Block>

  /** The flusher: idle, reading the staging file, with the upload done and the locks dropped,
      or with the commit accepted by the Hub. */
  datatype Flusher =
    | Idle
    | Reading(gen: nat, prev: Option<Content>, done: Content)
    | Uploaded(gen: nat, prev: Option<Content>, content: Content)
    | Accepted(gen: nat, content: Content)

  /** The reopen for writing that holds the per-inode lock.  `wanted` is the content named by the
      hash that the open read before it took the lock; `touched` says that it changes the staging file.
      Or a truncation that has found no staging file and makes one, or a collection that has found the inode clean. */
  datatype Opener =
    | Absent
    | Deciding(wanted: Content)
    | Preparing(wanted: Content, truncate: bool)
    | Checking(wanted: Content, materializes: bool)
    | Opening(touched: bool)
    | Resizing
    | Collecting

  /** Object hashes are represented by the content they name; `staging` is the content of the staging file while that is
      `present`.  The last two fields are history since the inode was last marked dirty: a commit was applied while
      the present reopen was at work on the staging file; and a reopen or truncation that was at work on it failed,
      leaving something else than what is, or is about to be, committed. */
  datatype State = State(
    gen: nat,
    hash: Option<Content>,
    current: bool,
    staging: Content,
    present: bool,
    wrote: set<TaskId>,
    opener: Opener,
    flusher: Flusher,
    appliedUnder: bool,
    spoiled: bool
  )

  predicate Dirty(s: State) {
    s.gen > 0
  }

  /** The per-inode staging lock is held by the opener, or by the flusher while it reads. */
  predicate LockFree(s: State) {
    s.opener.Absent? && !s.flusher.Reading?
  }

  /** A reopen has changed, or may have changed, the staging file and not yet marked the inode. */
  predicate Reworking(o: Opener) {
    o.Preparing? || o.Checking? || (o.Opening? && o.touched)
  }

  /** Nobody is between a change of the staging file and marking the inode dirty. */
  predicate Settled(s: State) {
    s.wrote == {} && !Reworking(s.opener) && !s.opener.Resizing?
  }

  predicate Init(s: State) {
    s.wrote == {} && s.opener.Absent? && s.flusher.Idle? && !s.appliedUnder && !s.spoiled
    && (s.gen == 0 ==> !s.current)
  }

  /** `set_dirty`, which starts the history anew. */
  function Marked(s: State): (s': State) {
    s.(gen := s.gen + 1, appliedUnder := false, spoiled := false)
  }

  function ApplyCommit(s: State, content: Content, gen: nat): (s': State) {
    if s.gen == gen
    then s.(gen := 0, hash := Some(content), current := true, appliedUnder := Reworking(s.opener))
    else s
  }

  datatype Action =
    | Pwrite(task: TaskId, after: Content)
    | SetDirty(task: TaskId)
    | SetLen(after: Content)
    | ResizeStart
    | ResizeScribble(after: Content)
    | ResizeFail
    | CollectStart
    | CollectEnd
    | Poll(hash: Option<Content>)
    | OpenLock(wanted: Content)
    | OpenDecide(truncate: bool)
    | OpenScribble(after: Content)
    | OpenPrepared(download: bool, materializes: bool)
    | OpenCheck
    | OpenFail
    | OpenDirty
    | Snapshot
    | ReadBlock
    | ReadEnd
    | UploadFails
    | Unchanged
    | Accept
    | CommitFails
    | Apply

  function Act(s: State, a: Action): (r: Option<State>) {
    match a
    case Pwrite(t, after) =>
      // A handle on a collected file writes where nobody looks.
      Some(s.(staging := if s.present then after else s.staging, wrote := s.wrote + {t}))
    case SetDirty(t) => if t in s.wrote then Some(Marked(s).(wrote := s.wrote - {t})) else None
    case SetLen(after) =>
      if s.present && (LockFree(s) || s.opener.Resizing?)
      then Some(Marked(s).(staging := after, hash := if after == [] then None else s.hash, opener := Absent)) else None
    case ResizeStart => if LockFree(s) && !s.present then Some(s.(opener := Resizing)) else None
    case ResizeScribble(after) => if s.opener.Resizing? then Some(s.(staging := after, present := true)) else None
    case ResizeFail =>
      if s.opener.Resizing?
      then Some(s.(opener := Absent, spoiled := s.present && s.current && !Dirty(s) && Named(s.hash) != s.staging)) else None
    case CollectStart => if LockFree(s) && !Dirty(s) then Some(s.(opener := Collecting)) else None
    case CollectEnd =>
      // A writer, who takes no lock, may have marked the inode meanwhile.
      if s.opener.Collecting? then Some(s.(opener := Absent, present := false, spoiled := false)) else None
    case Poll(hash) =>
      if Dirty(s) then None else Some(s.(hash := hash, current := false, appliedUnder := false, spoiled := false))
    case OpenLock(wanted) => if LockFree(s) then Some(s.(opener := Deciding(wanted))) else None
    case OpenDecide(truncate) =>
      if !s.opener.Deciding? then None
      else if !truncate && (Dirty(s) || s.current) && s.present then Some(s.(opener := Opening(false)))
      else Some(s.(current := false, opener := Preparing(s.opener.wanted, truncate)))
    case OpenScribble(after) => if s.opener.Preparing? then Some(s.(staging := after, present := true)) else None
    case OpenPrepared(download, materializes) =>
      if !s.opener.Preparing? || (download && s.opener.truncate) || (materializes && !download && s.opener.wanted != [])
      then None
      else Some(s.(staging := if download then s.opener.wanted else [], present := true,
                   opener := Checking(s.opener.wanted, materializes)))
    case OpenCheck =>
      if !s.opener.Checking? then None
      else Some(s.(current := s.current || (s.opener.materializes && Named(s.hash) == s.opener.wanted),
                   opener := Opening(true)))
    case OpenFail =>
      if s.opener.Absent? || s.opener.Resizing? || s.opener.Collecting? then None
      else Some(s.(opener := Absent, appliedUnder := false,
                   spoiled := if Reworking(s.opener) then Spoils(s) else s.spoiled))
    case OpenDirty => if s.opener.Opening? then Some(Marked(s).(opener := Absent)) else None
    case Snapshot =>
      if s.flusher.Idle? && s.opener.Absent? && Dirty(s) then Some(s.(flusher := Reading(s.gen, s.hash, []))) else None
    case ReadBlock =>
      if s.flusher.Reading? && s.present && |s.flusher.done| < |s.staging|
      then Some(s.(flusher := s.flusher.(done := s.flusher.done + [s.staging[|s.flusher.done|]]))) else None
    case ReadEnd =>
      if s.flusher.Reading? && s.present && |s.flusher.done| >= |s.staging|
      then Some(s.(flusher := Uploaded(s.flusher.gen, s.flusher.prev, s.flusher.done))) else None
    case UploadFails => if s.flusher.Reading? then Some(s.(flusher := Idle)) else None
    case Unchanged =>
      if s.flusher.Uploaded? && s.flusher.prev == Some(s.flusher.content)
      then Some(ApplyCommit(s, s.flusher.content, s.flusher.gen).(flusher := Idle)) else None
    case Accept => if s.flusher.Uploaded? then Some(s.(flusher := Accepted(s.flusher.gen, s.flusher.content))) else None
    case CommitFails => if s.flusher.Uploaded? then Some(s.(flusher := Idle, spoiled := false)) else None
    case Apply =>
      if s.flusher.Accepted? then Some(ApplyCommit(s, s.flusher.content, s.flusher.gen).(flusher := Idle)) else None
  }

  /** The content that a pending apply of the present generation will commit. */
  function ToApply(s: State): (c: Option<Content>) {
    match s.flusher
    case Idle => None
    case Reading(_, _, _) => None
    case Uploaded(g, _, content) => if g == s.gen then Some(content) else None
    case Accepted(g, content) => if g == s.gen then Some(content) else None
  }

  /** A reopen that fails now leaves a staging file that differs from what was committed under it, or from what is
      about to be committed. */
  predicate Spoils(s: State) {
    (s.appliedUnder && Named(s.hash) != s.staging) || (ToApply(s).Some? && ToApply(s).value != s.staging)
  }

  /** The content that a hash, or its absence, stands for. */
  function Named(h: Option<Content>): (c: Content) {
    if h.Some? then h.value else []
  }

  ghost predicate Step(s: State, s': State) {
    exists a :: Act(s, a) == Some(s')
  }

  ghost predicate StepAt(run: seq<State>, k: nat)
    requires 0 < k < |run|
  {
    Step(run[k - 1], run[k])
  }

  ghost predicate IsRun(run: seq<State>) {
    run != [] && Init(run[0]) && forall k {:trigger StepAt(run, k)} :: 0 < k < |run| ==> StepAt(run, k)
  }

  // ---- Invariant ----

  function FlushGen(f: Flusher): (g: nat) {
    match f
    case Idle => 0
    case Reading(g, _, _) => g
    case Uploaded(g, _, _) => g
    case Accepted(g, _) => g
  }

  /** While the inode has not been marked since the snapshot and nobody is at work on the staging file, the flusher has
      read a prefix of it, and will commit exactly it if and only if no failed reopen has spoiled it. */
  ghost predicate Faithful(s: State) {
    Settled(s) ==>
      && (s.flusher.Reading? && s.flusher.gen == s.gen ==> s.flusher.done <= s.staging)
      && (ToApply(s).Some? ==> (ToApply(s).value == s.staging <==> !s.spoiled))
  }

  /** A clean and current staging file is what the hash names, if and only if no failure has spoiled it. */
  ghost predicate Mirrors(s: State) {
    s.gen == 0 && s.current && s.present && s.wrote == {} && !s.opener.Resizing? ==>
      if Reworking(s.opener) then s.appliedUnder || Named(s.hash) == s.staging
      else (Named(s.hash) == s.staging <==> !s.spoiled)
  }

  ghost predicate Inv(s: State) {
    && (!s.flusher.Idle? ==> 0 < FlushGen(s.flusher) <= s.gen)
    && (s.flusher.Reading? ==> s.opener.Absent?)
    && (s.flusher.Uploaded? || s.flusher.Accepted? ==> s.present)
    && (s.opener.Resizing? || s.opener.Collecting? ==> s.flusher.Idle?)
    && (s.opener.Checking? ==> s.present)
    && (s.appliedUnder ==> Reworking(s.opener) && s.gen == 0 && s.current)
    && (s.spoiled && s.gen > 0 ==> ToApply(s).Some?)
    && (s.opener.Checking? && s.opener.materializes && s.wrote == {} && s.gen == FlushGen(s.flusher) ==>
          s.staging == s.opener.wanted)
    && ((s.opener.Preparing? || s.opener.Checking?) && s.gen == 0 && s.current ==> s.appliedUnder)
    && Faithful(s) && Mirrors(s)
  }

  lemma WriterInv(s: State, a: Action)
    requires Inv(s) && Act(s, a).Some? && (a.Pwrite? || a.SetDirty? || a.SetLen? || a.Poll?)
    ensures Inv(Act(s, a).value)
  {
  }

  lemma ResizeInv(s: State, a: Action)
    requires Inv(s) && Act(s, a).Some?
    requires a.ResizeStart? || a.ResizeScribble? || a.ResizeFail? || a.CollectStart? || a.CollectEnd?
    ensures Inv(Act(s, a).value)
  {
  }

  lemma OpenerInv(s: State, a: Action)
    requires Inv(s) && Act(s, a).Some? && (a.OpenLock? || a.OpenDecide? || a.OpenScribble? || a.OpenPrepared?)
    ensures Inv(Act(s, a).value)
  {
  }

  lemma OpenEndInv(s: State, a: Action)
    requires Inv(s) && Act(s, a).Some? && (a.OpenCheck? || a.OpenFail? || a.OpenDirty?)
    ensures Inv(Act(s, a).value)
  {
  }

  lemma UploadInv(s: State, a: Action)
    requires Inv(s) && Act(s, a).Some? && (a.Snapshot? || a.ReadBlock? || a.ReadEnd? || a.UploadFails?)
    ensures Inv(Act(s, a).value)
  {
    if a.ReadEnd? && Settled(s) && s.flusher.gen == s.gen {
      assert s.flusher.done == s.staging;
    }
  }

  lemma CommitInv(s: State, a: Action)
    requires Inv(s) && Act(s, a).Some? && (a.Unchanged? || a.Accept? || a.CommitFails? || a.Apply?)
    ensures Inv(Act(s, a).value)
  {
  }

  lemma StepInv(s: State, a: Action)
    requires Inv(s) && Act(s, a).Some?
    ensures Inv(Act(s, a).value)
  {
    if a.Pwrite? || a.SetDirty? || a.SetLen? || a.Poll? {
      WriterInv(s, a);
    } else if a.ResizeStart? || a.ResizeScribble? || a.ResizeFail? || a.CollectStart? || a.CollectEnd? {
      ResizeInv(s, a);
    } else if a.OpenLock? || a.OpenDecide? || a.OpenScribble? || a.OpenPrepared? {
      OpenerInv(s, a);
    } else if a.OpenCheck? || a.OpenFail? || a.OpenDirty? {
      OpenEndInv(s, a);
    } else if a.Snapshot? || a.ReadBlock? || a.ReadEnd? || a.UploadFails? {
      UploadInv(s, a);
    } else {
      CommitInv(s, a);
    }
  }

  lemma {:induction false} RunInv(run: seq<State>, k: nat)
    requires IsRun(run) && k < |run|
    ensures Inv(run[k])
  {
    if k > 0 {
      RunInv(run, k - 1);
      assert StepAt(run, k);
      var a :| Act(run[k - 1], a) == Some(run[k]);
      StepInv(run[k - 1], a);
    }
  }

  /** The next write-open will take the staging file as it is: clean, flagged as current and there; and nobody is
      between changing it and marking the inode. */
  predicate Trusted(s: State) {
    !Dirty(s) && s.current && s.present && Settled(s)
  }

  /** A trusted staging file is exactly what the committed hash names, if and only if it was not spoiled since the inode
      was last marked: by a reopen that failed with a commit of that marking pending or just applied, or by a truncation
      that failed after it had made a new file for a collected one.  Which writes the file holds is another matter; see
      `OverwritesIff`. */
  lemma CleanIsCommitted(run: seq<State>, k: nat)
    requires IsRun(run) && k < |run| && Trusted(run[k])
    ensures Named(run[k].hash) == run[k].staging <==> !run[k].spoiled
  {
    RunInv(run, k);
  }

  /** From an unspoiled state, a step leads to a trusted file that is wrong exactly when it is the failure of a reopen
      under which a commit was applied that the staging file does not match, or the failure of a truncation whose new
      staging file does not match the hash. */
  lemma WrongIff(s: State, a: Action)
    requires Inv(s) && Act(s, a).Some? && Trusted(Act(s, a).value) && !s.spoiled
    ensures Named(Act(s, a).value.hash) != Act(s, a).value.staging
       <==> ((a.OpenFail? && s.appliedUnder) || a.ResizeFail?) && Named(s.hash) != s.staging
  {
    StepInv(s, a);
    if Act(s, a).value.spoiled { SpoiledBy(s, a); }
  }

  /** Only these failures spoil. */
  lemma SpoiledBy(s: State, a: Action)
    requires Inv(s) && Act(s, a).Some? && !s.spoiled && Act(s, a).value.spoiled
    ensures a.ResizeFail? || (a.OpenFail? && Reworking(s.opener) && Spoils(s))
  {
  }

  // ---- What a reopen starts from ----

  /** A reopen that keeps the staging file of a clean inode starts from exactly what the committed hash names, if nothing
      has spoiled it and no write is under way. */
  lemma ReusedIsRight(run: seq<State>, k: nat, truncate: bool)
    requires IsRun(run) && k < |run| && run[k].wrote == {} && !run[k].spoiled && !Dirty(run[k])
    requires Act(run[k], OpenDecide(truncate)).Some? && Act(run[k], OpenDecide(truncate)).value.opener.Opening?
    ensures !truncate && run[k].present
    ensures Act(run[k], OpenDecide(truncate)).value.staging == run[k].staging == Named(run[k].hash)
  {
    RunInv(run, k);
  }

  // ---- Writes under a reopen ----

  /** From `j` to `k` one reopen prepares the staging file. */
  ghost predicate PreparesFrom(run: seq<State>, j: nat, k: nat) {
    j <= k < |run| && forall i {:trigger run[i]} :: j <= i <= k ==> run[i].opener.Preparing?
  }

  ghost predicate MarkedAt(run: seq<State>, i: nat)
    requires 0 < i < |run|
  {
    run[i].gen > run[i - 1].gen
  }

  /** A reopen that finds the inode clean is about to replace the staging file.  What it replaces holds writes that have
      been marked if and only if a writer, who takes no lock, has marked the inode since. */
  lemma {:induction false} OverwritesIff(run: seq<State>, j: nat, k: nat)
    requires IsRun(run) && PreparesFrom(run, j, k) && !Dirty(run[j])
    ensures run[k].flusher.Idle? && (Dirty(run[k]) <==> exists i :: j < i <= k && MarkedAt(run, i))
    decreases k
  {
    RunInv(run, k);
    if j < k {
      OverwritesIff(run, j, k - 1);
      PreparingStep(run, k);
      if Dirty(run[k]) && !Dirty(run[k - 1]) {
        assert MarkedAt(run, k);
      }
    }
  }

  lemma PreparingStep(run: seq<State>, k: nat)
    requires IsRun(run) && 0 < k < |run| && run[k - 1].opener.Preparing? && run[k].opener.Preparing? && run[k - 1].flusher.Idle?
    ensures run[k].flusher.Idle? && run[k].gen >= run[k - 1].gen
  {
    assert StepAt(run, k);
    var a :| Act(run[k - 1], a) == Some(run[k]);
    PreparingAct(run[k - 1], a);
  }

  lemma PreparingAct(s: State, a: Action)
    requires s.opener.Preparing? && s.flusher.Idle? && Act(s, a).Some? && Act(s, a).value.opener.Preparing?
    ensures Act(s, a).value.flusher.Idle? && Act(s, a).value.gen >= s.gen
  {
  }

  // ---- The races that are left ----

  lemma Extend(run: seq<State>, a: Action) returns (run': seq<State>)
    requires IsRun(run) && Act(run[|run| - 1], a).Some?
    ensures IsRun(run') && run' == run + [Act(run[|run| - 1], a).value]
  {
    run' := run + [Act(run[|run| - 1], a).value];
    forall k | 0 < k < |run'|
      ensures StepAt(run', k)
    {
      if k < |run| { assert StepAt(run, k); }
    }
  }

  const UPLOADED := State(1, None, false, [7], true, {}, Absent, Uploaded(1, None, [7]), false, false)
  const TRUNCATED := State(1, None, false, [], true, {}, Checking([], false), Uploaded(1, None, [7]), false, false)

  lemma RaceUploads() returns (run: seq<State>)
    ensures IsRun(run) && run[|run| - 1] == UPLOADED
  {
    run := [State(1, None, false, [7], true, {}, Absent, Idle, false, false)];
    run := Extend(run, Snapshot);
    run := Extend(run, ReadBlock);
    assert run[|run| - 1].flusher == Reading(1, None, [7]);
    run := Extend(run, ReadEnd);
  }

  lemma RaceTruncates(run0: seq<State>) returns (run: seq<State>)
    requires IsRun(run0) && run0[|run0| - 1] == UPLOADED
    ensures IsRun(run) && run[|run| - 1] == TRUNCATED
  {
    run := Extend(run0, OpenLock([]));
    run := Extend(run, OpenDecide(true));
    run := Extend(run, OpenPrepared(false, false));
  }

  /** A reopen that truncates the staging file and then fails never marks the inode.  If a flush was between
      upload and apply, the file ends up clean and flagged as current with an empty staging file. */
  lemma FailedReopenRace() returns (run: seq<State>)
    ensures IsRun(run)
    ensures var s := run[|run| - 1];
            Trusted(s) && s.spoiled && Named(s.hash) != s.staging
  {
    run := RaceUploads();
    run := RaceTruncates(run);
    run := Extend(run, Accept);
    run := Extend(run, Apply);
    run := Extend(run, OpenFail);
    assert run[|run| - 1] == State(0, Some([7]), true, [], true, {}, Absent, Idle, false, true);
  }

  /** A staging file is collected, which leaves the flag; a truncation makes an empty one and fails before it marks the
      inode.  No flush is under way. */
  lemma FailedResizeRace() returns (run: seq<State>)
    ensures IsRun(run)
    ensures var s := run[|run| - 1];
            Trusted(s) && s.spoiled && s.flusher.Idle? && Named(s.hash) != s.staging
  {
    run := RaceUploads();
    run := Extend(run, Accept);
    run := Extend(run, Apply);
    assert run[|run| - 1] == State(0, Some([7]), true, [7], true, {}, Absent, Idle, false, false);
    run := CollectedRun(run);
  }

  lemma CollectedRun(run0: seq<State>) returns (run: seq<State>)
    requires IsRun(run0) && run0[|run0| - 1] == State(0, Some([7]), true, [7], true, {}, Absent, Idle, false, false)
    ensures IsRun(run) && run[|run| - 1] == State(0, Some([7]), true, [], true, {}, Absent, Idle, false, true)
  {
    run := Extend(run0, CollectStart);
    run := Extend(run, CollectEnd);
    run := Extend(run, ResizeStart);
    run := Extend(run, ResizeScribble([]));
    run := Extend(run, ResizeFail);
  }

  /** A reopen has decided to download [1]; a writer writes [9] and marks the inode; the download takes its place.  The
      file ends trusted with [1], and no failure has spoiled it. */
  lemma OverwrittenWriteRace() returns (run: seq<State>)
    ensures IsRun(run) && |run| > 4 && Dirty(run[4]) && run[4].staging == [9]
    ensures var s := run[|run| - 1];
            Trusted(s) && !s.spoiled && s.wrote == {} && s.staging == [1] && s.hash == Some([1])
  {
    run := [State(0, Some([1]), false, [1], true, {}, Absent, Idle, false, false)];
    run := Extend(run, OpenLock([1]));
    run := Extend(run, OpenDecide(false));
    run := Extend(run, Pwrite(0, [9]));
    run := Extend(run, SetDirty(0));
    assert run[|run| - 1] == State(1, Some([1]), false, [9], true, {}, Preparing([1], false), Idle, false, false);
    run := OverwrittenRun(run);
  }

  lemma OverwrittenRun(run0: seq<State>) returns (run: seq<State>)
    requires IsRun(run0)
    requires run0[|run0| - 1] == State(1, Some([1]), false, [9], true, {}, Preparing([1], false), Idle, false, false)
    ensures IsRun(run) && run0 <= run
    ensures run[|run| - 1] == State(0, Some([1]), true, [1], true, {}, Absent, Idle, false, false)
  {
    run := Extend(run0, OpenPrepared(true, true));
    run := Extend(run, OpenCheck);
    run := Extend(run, OpenDirty);
    run := Extend(run, Snapshot);
    run := Extend(run, ReadBlock);
    assert run[|run| - 1].flusher == Reading(2, Some([1]), [1]);
    run := Extend(run, ReadEnd);
    run := Extend(run, Accept);
    run := Extend(run, Apply);
  }
}
