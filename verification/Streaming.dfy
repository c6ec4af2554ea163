/** The streaming write protocol of one inode (src/virtual_fs/mod.rs) as a step
    system: one step for each section that a mutex protects, interleaved in every
    order.  The tasks are flush (deferring or committing), link's commit, release,
    the O_TRUNC reopen and unlink; the environment writes, runs the upload workers,
    polls, evicts, renames this file and others over it, and removes it by name or
    number without holding its lock. */
module Streaming {
  import opened Prelude
  import opened StagingLocks

  type ChanId = nat
  type Chunk = seq<int>
  type Content = seq<int>
  type Path = nat

  // ---- State ----

  datatype CommitState = Writing | Deferred | Committing | Committed | Failed

  /** A commit hook: its sender is in the channel, a receiver may be in `pending`. */
  datatype Hook = Hook(chan: ChanId, serial: nat)

  /** `task` is the one that waits for the worker's answer. */
  datatype Msg = Data(chunk: Chunk) | Finish(task: TaskId)
  datatype Reply = Uploaded(content: Content) | UploadFailed

  /** Where the handle of a channel is: not yet counted or registered, counted, in `open_files`,
      taken out by the release `task`, or no longer counted. */
  datatype Phase = Fresh | Counted | Open | Closing(task: TaskId) | Closed

  /** History: what a commit of the channel has come to.  The Hub accepted an AddFile with this content, or the
      owner check found the file gone, unlinked or superseded. */
  datatype Fate = Undecided | Accepted(content: Content) | Skipped

  datatype Chan = Chan(
    state: CommitState,
    gen: nat,
    hook: Option<Hook>,
    pendingInfo: Option<Content>,
    queue: seq<Msg>,
    accepted: seq<Chunk>,
    uploaded: Content,
    failed: bool,
    running: bool,
    reply: Option<Reply>,
    existedBefore: bool,
    snapshot: Option<Content>,
    phase: Phase,
    fate: Fate
  ) {
    predicate Terminal() {
      state.Committed? || state.Failed?
    }
    predicate InFlight() {
      state.Writing? || state.Deferred?
    }
    predicate Handled() {
      phase.Counted? || phase.Open? || phase.Closing?
    }
    predicate Published() {
      phase.Open? || phase.Closing? || phase.Closed?
    }
  }

  /** Object hashes are represented by the content they name. */
  datatype Inode = Inode(gen: nat, linked: bool, hash: Option<Content>, path: Path)

  datatype Job = Defer | CommitNow | Release | Reopen | Unlink

  /** The sections of `streaming_commit`. */
  datatype CommitPc =
    | CheckOwner
    | Flip
    | TakeInfo
    | SendFinish
    | AwaitReply
    | ReadPath(info: Content)
    | SendAdd(info: Content, path: Path)
    | Apply(info: Content)
    | SetDone

  datatype Pc =
    | AwaitPending | WaitHook(hook: Hook)
    | Install | CheckTerminal | FulfilEarly | Demote
    | Recheck
    | GetLock | AcquireLock | Guard
    | Commit(at: CommitPc, retry: bool)
    | RetryCheck | MarkCommitted | Revert | MarkFailed | FulfilDone
    | Setup(active: Option<ChanId>, existedBefore: bool, snapshot: Option<Content>)
    | FailOld(active: Option<ChanId>) | FulfilOld(stale: ChanId)
    | SetDirty | Bump | Insert
    | UnlinkRemote(path: Path) | UnlinkLocal
    | ReleaseLock | DropLock | Close | Reap | ForgetLock | Done

  datatype Task = Task(job: Job, chan: ChanId, pc: Pc)

  /** `dropped` is history: some step that takes no lock has unlinked or removed the inode although it may
      have been dirty. */
  datatype State = State(
    locks: Locks,
    inode: Option<Inode>,
    dropped: bool,
    chans: map<ChanId, Chan>,
    pending: Option<Hook>,
    nextHook: nat,
    tasks: map<TaskId, Task>,
    remote: map<Path, Content>
  )

  function NewChan(gen: nat, existedBefore: bool, snapshot: Option<Content>): (c: Chan) {
    Chan(Writing, gen, None, None, [], [], [], false, true, None, existedBefore, snapshot, Fresh, Undecided)
  }

  /** A committed file, or one that `create` has just made with its first channel. */
  ghost predicate Init(s: State) {
    && s.locks == Locks(None, 0, map[], map[])
    && !s.dropped && s.pending.None? && s.tasks == map[]
    && ((s.inode.Some? && s.inode.value.gen == 0 && s.inode.value.linked && s.chans == map[])
        || (s.inode.Some? && s.inode.value == Inode(1, true, None, s.inode.value.path)
            && s.chans == map[0 := NewChan(1, false, None).(phase := Open)]))
  }

  // ---- Pieces of steps ----

  function Goto(s: State, t: TaskId, pc: Pc): (s': State)
    requires t in s.tasks
  {
    s.(tasks := s.tasks[t := s.tasks[t].(pc := pc)])
  }

  function SetState(s: State, c: ChanId, st: CommitState): (s': State)
    requires c in s.chans
  {
    s.(chans := s.chans[c := s.chans[c].(state := st)])
  }

  /** `install_commit_hook` up to the terminal check: keeps an existing hook, and
      registers the receiver only if the inode has none yet. */
  function InstallHook(s: State, c: ChanId): (s': State)
    requires c in s.chans
  {
    if s.chans[c].hook.Some? then s
    else
      var h := Hook(c, s.nextHook);
      s.(chans := s.chans[c := s.chans[c].(hook := Some(h))],
         pending := if s.pending.None? then Some(h) else s.pending,
         nextHook := s.nextHook + 1)
  }

  /** `fulfill_commit_hook`: takes the sender, and removes the receiver if it is this hook's. */
  function FulfilHook(s: State, c: ChanId): (s': State)
    requires c in s.chans
  {
    s.(chans := s.chans[c := s.chans[c].(hook := None)],
       pending := if s.chans[c].hook.Some? && s.pending == s.chans[c].hook then None else s.pending)
  }

  /** `apply_commit` with the generation that the channel had at open. */
  function ApplyCommit(i: Option<Inode>, info: Content, gen: nat): (i': Option<Inode>) {
    if i.Some? && i.value.gen == gen then Some(i.value.(gen := 0, hash := Some(info))) else i
  }

  function RevertInode(i: Option<Inode>, c: Chan): (i': Option<Inode>) {
    if !c.existedBefore then None
    else if i.Some? then Some(i.value.(gen := 0, hash := c.snapshot))
    else None
  }

  predicate Owns(s: State, c: ChanId)
    requires c in s.chans
  {
    s.inode.Some? && s.inode.value.gen == s.chans[c].gen
  }

  /** The owner check of `streaming_commit`. */
  predicate Committable(s: State, c: ChanId)
    requires c in s.chans
  {
    s.inode.Some? && s.inode.value.linked && Owns(s, c)
  }

  predicate AnyHandle(s: State) {
    exists c :: c in s.chans && s.chans[c].Handled()
  }

  // ---- Steps of tasks ----

  /** What a step leaves open: outcomes of the Hub, of the writer's setup and of early returns,
      whether readers have the file open, and which of several channels a lookup finds. */
  datatype Choice = Choice(ok: bool, applied: bool, readers: bool, chan: ChanId)

  /** `streaming_commit`, from check to outcome; `next` is where success and failure lead. */
  function CommitStep(s: State, t: TaskId, ch: Choice, good: Pc, bad: Pc): (r: Option<State>)
    requires t in s.tasks && s.tasks[t].pc.Commit? && s.tasks[t].chan in s.chans
  {
    var c, retry := s.tasks[t].chan, s.tasks[t].pc.retry;
    var ch0 := s.chans[c];
    match s.tasks[t].pc.at
    case CheckOwner =>
      if !Committable(s, c) then Some(Goto(s.(chans := s.chans[c := ch0.(fate := Skipped)]), t, good))
      else Some(Goto(s, t, Commit(Flip, retry)))
    case Flip =>
      Some(Goto(if ch0.InFlight() then SetState(s, c, Committing) else s, t, Commit(TakeInfo, retry)))
    case TakeInfo =>
      if ch0.pendingInfo.Some? then
        Some(Goto(s.(chans := s.chans[c := ch0.(pendingInfo := None)]), t,
                  Commit(ReadPath(ch0.pendingInfo.value), retry)))
      else Some(Goto(s, t, Commit(SendFinish, retry)))
    case SendFinish =>
      if !ch0.running then Some(Goto(s, t, if ch0.state.Committed? then good else bad))
      else Some(Goto(s.(chans := s.chans[c := ch0.(queue := ch0.queue + [Finish(t)])]), t, Commit(AwaitReply, retry)))
    case AwaitReply =>
      if ch0.reply.None? then None
      else
        var s1 := s.(chans := s.chans[c := ch0.(reply := None)]);
        if ch0.reply.value.Uploaded? then Some(Goto(s1, t, Commit(ReadPath(ch0.reply.value.content), retry)))
        else Some(Goto(s1, t, bad))
    case ReadPath(info) =>
      Some(Goto(s, t, if s.inode.Some? then Commit(SendAdd(info, s.inode.value.path), retry) else bad))
    case SendAdd(info, path) =>
      var s1 := if ch.applied || ch.ok then s.(remote := s.remote[path := info]) else s;
      if ch.ok
      then Some(Goto(s1.(chans := s1.chans[c := ch0.(fate := Accepted(info))]), t, Commit(Apply(info), retry)))
      else Some(Goto(s1.(chans := s1.chans[c := ch0.(pendingInfo := Some(info))]), t, bad))
    case Apply(info) =>
      Some(Goto(s.(inode := ApplyCommit(s.inode, info, ch0.gen)), t, Commit(SetDone, retry)))
    case SetDone =>
      Some(Goto(SetState(s, c, Committed), t, good))
  }

  /** `install_commit_hook`, then `next`. */
  function InstallStep(s: State, t: TaskId, next: Pc): (r: Option<State>)
    requires t in s.tasks && s.tasks[t].chan in s.chans
    requires s.tasks[t].pc.Install? || s.tasks[t].pc.CheckTerminal? || s.tasks[t].pc.FulfilEarly?
  {
    var c := s.tasks[t].chan;
    match s.tasks[t].pc
    case Install => Some(Goto(InstallHook(s, c), t, CheckTerminal))
    case CheckTerminal => Some(Goto(s, t, if s.chans[c].Terminal() then FulfilEarly else next))
    case FulfilEarly => Some(Goto(FulfilHook(s, c), t, next))
  }

  predicate LockPc(pc: Pc) {
    pc.GetLock? || pc.AcquireLock? || pc.ReleaseLock? || pc.DropLock?
  }

  /** Taking the per-inode lock and giving it back; `next` follows the dropped reference. */
  function LockStep(s: State, t: TaskId, next: Pc): (r: Option<State>)
    requires t in s.tasks && LockPc(s.tasks[t].pc)
  {
    match s.tasks[t].pc
    case GetLock => Some(Goto(s.(locks := GetRef(s.locks, t)), t, AcquireLock))
    case AcquireLock =>
      if Free(s.locks, t) then Some(Goto(s.(locks := Acquire(s.locks, t)), t, Guard)) else None
    case ReleaseLock =>
      if t in s.locks.refs then Some(Goto(s.(locks := StagingLocks.Unlock(s.locks, t)), t, DropLock)) else None
    case DropLock => Some(Goto(s.(locks := DropRef(s.locks, t)), t, next))
  }

  /** `defer_commit`. */
  function DeferStep(s: State, t: TaskId): (r: Option<State>)
    requires t in s.tasks && s.tasks[t].chan in s.chans
  {
    var c := s.tasks[t].chan;
    match s.tasks[t].pc
    case Install => InstallStep(s, t, Demote)
    case CheckTerminal => InstallStep(s, t, Demote)
    case FulfilEarly => InstallStep(s, t, Demote)
    case Demote => Some(Goto(if s.chans[c].state.Writing? then SetState(s, c, Deferred) else s, t, Done))
    case _ => None
  }

  /** `commit_streaming_now`, for flush and link. */
  function CommitNowStep(s: State, t: TaskId, ch: Choice): (r: Option<State>)
    requires t in s.tasks && s.tasks[t].chan in s.chans
  {
    var c := s.tasks[t].chan;
    match s.tasks[t].pc
    case Guard =>
      Some(Goto(s, t, if !ch.ok || s.chans[c].Terminal() then ReleaseLock else Install))
    case Install => InstallStep(s, t, Commit(CheckOwner, false))
    case CheckTerminal => InstallStep(s, t, Commit(CheckOwner, false))
    case FulfilEarly => InstallStep(s, t, Commit(CheckOwner, false))
    case Commit(_, _) => CommitStep(s, t, ch, MarkCommitted, ReleaseLock)
    case MarkCommitted => Some(Goto(SetState(s, c, Committed), t, FulfilDone))
    case FulfilDone => Some(Goto(FulfilHook(s, c), t, ReleaseLock))
    case pc => if LockPc(pc) then LockStep(s, t, Done) else None
  }

  /** `release` of a streaming handle, from the hand-over of the commit to the lock's eviction. */
  function ReleaseStep(s: State, t: TaskId, ch: Choice): (r: Option<State>)
    requires t in s.tasks && s.tasks[t].chan in s.chans
  {
    var c := s.tasks[t].chan;
    match s.tasks[t].pc
    case Install => InstallStep(s, t, Recheck)
    case CheckTerminal => InstallStep(s, t, Recheck)
    case FulfilEarly => InstallStep(s, t, Recheck)
    case Recheck => Some(Goto(s, t, if s.chans[c].Terminal() then Close else GetLock))
    case Guard => Some(Goto(s, t, if s.chans[c].Terminal() then ReleaseLock else Commit(CheckOwner, false)))
    case Commit(_, retry) => CommitStep(s, t, ch, MarkCommitted, if retry then Revert else RetryCheck)
    case RetryCheck => Some(Goto(s, t, if s.chans[c].pendingInfo.Some? then Commit(CheckOwner, true) else Revert))
    case MarkCommitted => Some(Goto(SetState(s, c, Committed), t, FulfilDone))
    case Revert => Some(Goto(s.(inode := RevertInode(s.inode, s.chans[c])), t, MarkFailed))
    case MarkFailed => Some(Goto(SetState(s, c, Failed), t, FulfilDone))
    case FulfilDone => Some(Goto(FulfilHook(s, c), t, ReleaseLock))
    case Close => Some(Goto(s.(chans := s.chans[c := s.chans[c].(phase := Closed)]), t, Reap))
    case Reap => Some(Goto(if ch.ok && s.inode.Some? && !s.inode.value.linked then s.(inode := None) else s, t, ForgetLock))
    case ForgetLock => Some(Goto(s.(locks := Forget(s.locks)), t, Done))
    case pc => if LockPc(pc) then LockStep(s, t, Close) else None
  }

  /** What `streaming_channel_for` may find. */
  predicate Active(s: State, c: ChanId) {
    c in s.chans && s.chans[c].phase.Open? && Owns(s, c) && !s.chans[c].Terminal()
  }

  /** `open_streaming_write`: waits for a pending commit, then supersedes the active writer under the lock. */
  function ReopenStep(s: State, t: TaskId, ch: Choice): (r: Option<State>)
    requires t in s.tasks
  {
    var c := s.tasks[t].chan;
    match s.tasks[t].pc
    case AwaitPending =>
      Some(Goto(s, t, if s.pending.Some? then WaitHook(s.pending.value) else GetLock))
    case WaitHook(h) =>
      if h.chan in s.chans && s.chans[h.chan].hook == Some(h) then None else Some(Goto(s, t, GetLock))
    case Guard =>
      if s.inode.None? then Some(Goto(s, t, ReleaseLock))
      else if Active(s, ch.chan) then
        Some(Goto(s, t, Setup(Some(ch.chan), s.chans[ch.chan].existedBefore, s.chans[ch.chan].snapshot)))
      else if exists d :: d in s.chans && Active(s, d) then None
      else Some(Goto(s, t, Setup(None, true, s.inode.value.hash)))
    case Setup(active, existed, snapshot) =>
      if !ch.ok then Some(Goto(s, t, ReleaseLock))
      else if ch.chan in s.chans then None
      else
        Some(s.(chans := s.chans[ch.chan := NewChan(0, existed, snapshot)],
                tasks := s.tasks[t := Task(Reopen, ch.chan, FailOld(active))]))
    case FailOld(active) =>
      if active.None? then Some(Goto(s, t, SetDirty))
      else if active.value in s.chans then Some(Goto(SetState(s, active.value, Failed), t, FulfilOld(active.value)))
      else None
    case FulfilOld(d) =>
      if d in s.chans then Some(Goto(FulfilHook(s, d), t, SetDirty)) else None
    case SetDirty =>
      if c !in s.chans then None
      else if s.inode.None? then Some(Goto(s, t, Bump))
      else
        var gen := s.inode.value.gen + 1;
        Some(Goto(s.(inode := Some(s.inode.value.(gen := gen, hash := None)),
                     chans := s.chans[c := s.chans[c].(gen := gen)]), t, Bump))
    case Bump => if c in s.chans then Some(Goto(SetPhase(s, c, Counted), t, Insert)) else None
    case Insert => if c in s.chans then Some(Goto(SetPhase(s, c, Open), t, ReleaseLock)) else None
    case pc => if LockPc(pc) then LockStep(s, t, Done) else None
  }

  function SetPhase(s: State, c: ChanId, p: Phase): (s': State)
    requires c in s.chans
  {
    s.(chans := s.chans[c := s.chans[c].(phase := p)])
  }

  /** The inode without its link: it stays while something has it open. */
  function Orphaned(s: State, readers: bool): (i: Option<Inode>)
    requires s.inode.Some?
  {
    if readers || AnyHandle(s) then Some(s.inode.value.(linked := false)) else None
  }

  /** `unlink` in streaming mode; the name may belong to another inode by the time it is removed, and then this one
      stays as it is. */
  function UnlinkStep(s: State, t: TaskId, ch: Choice): (r: Option<State>)
    requires t in s.tasks
  {
    match s.tasks[t].pc
    case Guard =>
      if s.inode.None? || !s.inode.value.linked || (s.inode.value.gen > 0 && (ch.readers || AnyHandle(s)))
      then Some(Goto(s, t, ReleaseLock))
      else Some(Goto(s, t, UnlinkRemote(s.inode.value.path)))
    case UnlinkRemote(path) =>
      if !ch.ok then Some(Goto(s, t, ReleaseLock))
      else Some(Goto(if ch.applied then s.(remote := s.remote - {path}) else s, t, UnlinkLocal))
    case UnlinkLocal =>
      if !ch.ok || s.inode.None? then Some(Goto(s, t, ReleaseLock))
      else
        Some(Goto(s.(inode := Orphaned(s, ch.readers)), t, ReleaseLock))
    case ForgetLock => Some(Goto(s.(locks := Forget(s.locks)), t, Done))
    case pc => if LockPc(pc) then LockStep(s, t, ForgetLock) else None
  }

  function TaskStep(s: State, t: TaskId, ch: Choice): (r: Option<State>)
    requires t in s.tasks
  {
    match s.tasks[t].job
    case Defer => if s.tasks[t].chan in s.chans then DeferStep(s, t) else None
    case CommitNow => if s.tasks[t].chan in s.chans then CommitNowStep(s, t, ch) else None
    case Release => if s.tasks[t].chan in s.chans then ReleaseStep(s, t, ch) else None
    case Reopen => ReopenStep(s, t, ch)
    case Unlink => UnlinkStep(s, t, ch)
  }

  // ---- Steps of the environment ----

  datatype Action =
    | Run(task: TaskId, choice: Choice)
    | StartFlush(task: TaskId, chan: ChanId, now: bool)
    | StartRelease(task: TaskId, chan: ChanId)
    | StartReopen(task: TaskId)
    | StartUnlink(task: TaskId)
    | Write(chan: ChanId, chunk: Chunk)
    | Work(chan: ChanId, ok: bool)
    | Poll(hash: Option<Content>)
    | RemoveClean(readers: bool)
    | Move(path: Path, sent: bool)
    | RenameOver(readers: bool)
    | UnlinkName
    | RemoveAny
    | ReapOrphan

  /** The upload worker takes one message. */
  function WorkStep(c: Chan, ok: bool): (c': Chan)
    requires c.running && c.queue != []
  {
    var rest := c.queue[1..];
    match c.queue[0]
    case Data(chunk) =>
      if c.failed then c.(queue := rest)
      else if ok then c.(queue := rest, uploaded := c.uploaded + chunk)
      else c.(queue := rest, failed := true)
    case Finish(_) =>
      c.(queue := rest, running := false,
         reply := Some(if !c.failed && ok then Uploaded(c.uploaded) else UploadFailed))
  }

  function MovedObject(r: map<Path, Content>, i: Inode, path: Path): (r': map<Path, Content>) {
    if i.hash.Some? then (r - {i.path})[path := i.hash.value] else r
  }

  function Act(s: State, a: Action): (r: Option<State>) {
    match a
    case Run(t, ch) => if t in s.tasks then TaskStep(s, t, ch) else None
    case StartFlush(t, c, now) =>
      if t !in s.tasks && c in s.chans && s.chans[c].phase.Open? && !s.chans[c].Terminal()
      then Some(s.(tasks := s.tasks[t := if now then Task(CommitNow, c, GetLock) else Task(Defer, c, Install)]))
      else None
    case StartRelease(t, c) =>
      if t !in s.tasks && c in s.chans && s.chans[c].phase.Open?
      then Some(SetPhase(s, c, Closing(t)).(
                tasks := s.tasks[t := Task(Release, c, if s.chans[c].Terminal() then Close else Install)]))
      else None
    case StartReopen(t) => if t !in s.tasks then Some(s.(tasks := s.tasks[t := Task(Reopen, 0, AwaitPending)])) else None
    case StartUnlink(t) => if t !in s.tasks then Some(s.(tasks := s.tasks[t := Task(Unlink, 0, GetLock)])) else None
    case Write(c, chunk) =>
      if c in s.chans && s.chans[c].Published() && s.chans[c].InFlight() && s.chans[c].running
      then Some(s.(chans := s.chans[c := s.chans[c].(queue := s.chans[c].queue + [Data(chunk)],
                                                     accepted := s.chans[c].accepted + [chunk])]))
      else None
    case Work(c, ok) =>
      if c in s.chans && s.chans[c].running && s.chans[c].queue != []
      then Some(s.(chans := s.chans[c := WorkStep(s.chans[c], ok)])) else None
    case Poll(hash) =>
      if s.inode.Some? && s.inode.value.gen == 0 then Some(s.(inode := Some(s.inode.value.(hash := hash)))) else None
    case RemoveClean(readers) =>
      // The remote object is gone, or the inode is evicted.
      if s.inode.Some? && s.inode.value.gen == 0 then Some(s.(inode := Orphaned(s, readers))) else None
    case Move(path, sent) =>
      // The file or a directory above it is renamed; the Hub's object goes along if the file was clean.
      if s.inode.Some? then Some(s.(inode := Some(s.inode.value.(path := path)),
                                    remote := if sent then MovedObject(s.remote, s.inode.value, path) else s.remote))
      else None
    case RenameOver(readers) =>
      if s.inode.Some? && s.inode.value.linked
      then Some(s.(dropped := true, inode := Orphaned(s, readers))) else None
    case UnlinkName =>
      // An unlink that holds the lock of the inode which had the name before, or a poll that drops an open
      // orphan by its name, removes the name that this inode has now.
      if s.inode.Some? && s.inode.value.linked
      then Some(s.(dropped := true, inode := Some(s.inode.value.(linked := false)))) else None
    case RemoveAny =>
      // A lookup's HEAD, sent while the file was clean, comes back with 404; or a create fails after
      // another task has opened the file.
      if s.inode.Some? then Some(s.(dropped := true, inode := None)) else None
    case ReapOrphan =>
      // The last reader of an unlinked file closes it.
      if s.inode.Some? && !s.inode.value.linked then Some(s.(inode := None)) else None
  }

  ghost predicate Step(s: State, s': State) {
    exists a :: Act(s, a) == Some(s')
  }

  ghost predicate StepAt(run: seq<State>, k: nat)
    requires 0 < k < |run|
  {
    Step(run[k - 1], run[k])
  }

  /** A run: a first state and then one step after another. */
  ghost predicate IsRun(run: seq<State>) {
    run != [] && Init(run[0]) && forall k {:trigger StepAt(run, k)} :: 0 < k < |run| ==> StepAt(run, k)
  }
}
