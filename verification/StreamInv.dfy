/** The invariant of the streaming protocol, and what it means. */
module StreamInv {
  import opened Prelude
  import opened StagingLocks
  import opened Streaming

  // ---- Bytes ----

  function Concat(chunks: seq<Chunk>): (b: Content) {
    if chunks == [] then [] else Concat(chunks[..|chunks| - 1]) + chunks[|chunks| - 1]
  }

  function MsgBytes(m: Msg): (b: Content) {
    match m
    case Data(chunk) => chunk
    case Finish(_) => []
  }

  /** The bytes of the data messages still in the queue. */
  function Bytes(queue: seq<Msg>): (b: Content) {
    if queue == [] then [] else MsgBytes(queue[0]) + Bytes(queue[1..])
  }

  lemma Assoc(a: Content, b: Content, c: Content)
    ensures (a + b) + c == a + (b + c)
  {
  }

  lemma BytesCons(m: Msg, q: seq<Msg>)
    ensures Bytes([m] + q) == MsgBytes(m) + Bytes(q)
  {
    assert ([m] + q)[1..] == q;
  }

  lemma {:induction false} BytesAppend(q: seq<Msg>, m: Msg)
    ensures Bytes(q + [m]) == Bytes(q) + MsgBytes(m)
  {
    if q == [] {
      assert q + [m] == [m] + [];
      BytesCons(m, []);
    } else {
      var r := q[1..];
      assert q + [m] == [q[0]] + (r + [m]);
      BytesCons(q[0], r + [m]);
      BytesAppend(r, m);
      Assoc(MsgBytes(q[0]), Bytes(r), MsgBytes(m));
    }
  }

  // ---- Tasks ----

  /** The task holds the per-inode lock. */
  predicate InCrit(k: Task) {
    match k.job
    case Defer => false
    case CommitNow => k.pc.Guard? || k.pc.Install? || k.pc.CheckTerminal? || k.pc.FulfilEarly? || k.pc.Commit?
                      || k.pc.MarkCommitted? || k.pc.FulfilDone? || k.pc.ReleaseLock?
    case Release => k.pc.Guard? || k.pc.Commit? || k.pc.RetryCheck? || k.pc.MarkCommitted? || k.pc.Revert?
                    || k.pc.MarkFailed? || k.pc.FulfilDone? || k.pc.ReleaseLock?
    case Reopen => k.pc.Guard? || k.pc.Setup? || k.pc.FailOld? || k.pc.FulfilOld? || k.pc.SetDirty? || k.pc.Bump?
                   || k.pc.Insert? || k.pc.ReleaseLock?
    case Unlink => k.pc.Guard? || k.pc.UnlinkRemote? || k.pc.UnlinkLocal? || k.pc.ReleaseLock?
  }

  predicate HasRef(k: Task) {
    InCrit(k) || (!k.job.Defer? && (k.pc.AcquireLock? || k.pc.DropLock?))
  }

  /** The channel passed the owner check and nothing has changed its ownership since: the generation is
      still its own, and the file is still linked unless a step without the lock has dropped it. */
  ghost predicate StillOwner(s: State, c: ChanId)
    requires c in s.chans
  {
    && (s.inode.Some? ==> s.inode.value.gen == s.chans[c].gen && (s.inode.value.linked || s.dropped))
    && (s.inode.None? ==> s.dropped)
  }

  /** The worker has the finish message, or has answered it. */
  ghost predicate Answering(s: State, t: TaskId, c: ChanId)
    requires c in s.chans
  {
    var ch := s.chans[c];
    if ch.running then ch.queue != [] && ch.queue[|ch.queue| - 1] == Finish(t) && ch.reply.None?
    else ch.reply.Some?
  }

  ghost predicate CommitOk(s: State, t: TaskId, c: ChanId, at: CommitPc)
    requires c in s.chans
  {
    && (!at.CheckOwner? && !at.SetDone? ==> StillOwner(s, c))
    && (!at.CheckOwner? && !at.Flip? ==> s.chans[c].state.Committing?)
    && (at.AwaitReply? ==> Answering(s, t, c))
    && (at.ReadPath? || at.SendAdd? || at.Apply? ==> at.info == Concat(s.chans[c].accepted))
    && (at.Apply? || at.SetDone? ==> Decided(s.chans[c]))
  }

  /** The Hub accepted exactly the accepted writes, or the owner check skipped the commit. */
  ghost predicate Decided(ch: Chan) {
    ch.fate.Skipped? || ch.fate == Accepted(Concat(ch.accepted))
  }

  ghost predicate Known(s: State, c: ChanId) {
    c in s.chans && s.chans[c].Published()
  }

  ghost predicate MayCommit(ch: Chan) {
    !ch.state.Failed? && Decided(ch)
  }

  ghost predicate DeferOk(s: State, k: Task) {
    && Known(s, k.chan)
    && (k.pc.Install? || k.pc.CheckTerminal? || k.pc.FulfilEarly? || k.pc.Demote? || k.pc.Done?)
  }

  ghost predicate CommitNowOk(s: State, t: TaskId, k: Task) {
    && Known(s, k.chan)
    && (InCrit(k) || k.pc.GetLock? || k.pc.AcquireLock? || k.pc.DropLock? || k.pc.Done?)
    && !k.pc.FulfilEarly?
    && (k.pc.Install? || k.pc.CheckTerminal? || k.pc.Commit? ==> !s.chans[k.chan].Terminal())
    && (k.pc.Commit? ==> CommitOk(s, t, k.chan, k.pc.at))
    && (k.pc.MarkCommitted? ==> MayCommit(s.chans[k.chan]))
    && (k.pc.FulfilDone? ==> s.chans[k.chan].Terminal())
  }

  /** The release has not yet given up its handle. */
  predicate Before(k: Task) {
    !k.pc.Reap? && !k.pc.ForgetLock? && !k.pc.Done?
  }

  ghost predicate ReleaseOk(s: State, t: TaskId, k: Task) {
    && Known(s, k.chan)
    && (Before(k) ==> s.chans[k.chan].phase == Closing(t))
    && (InCrit(k) || k.pc.Install? || k.pc.CheckTerminal? || k.pc.FulfilEarly? || k.pc.Recheck? || k.pc.GetLock?
        || k.pc.AcquireLock? || k.pc.DropLock? || k.pc.Close? || !Before(k))
    && (k.pc.Commit? || k.pc.RetryCheck? || k.pc.Revert? || k.pc.MarkFailed? ==> !s.chans[k.chan].Terminal())
    && (k.pc.Commit? ==> CommitOk(s, t, k.chan, k.pc.at))
    && (k.pc.MarkCommitted? ==> MayCommit(s.chans[k.chan]))
    && (k.pc.FulfilDone? || k.pc.ReleaseLock? || k.pc.DropLock? || k.pc.Close? || !Before(k) ==>
          s.chans[k.chan].Terminal())
  }

  ghost predicate OldOk(s: State, a: Option<ChanId>) {
    a.Some? ==> Known(s, a.value) && !s.chans[a.value].Terminal()
  }

  ghost predicate ReopenOk(s: State, k: Task) {
    && (InCrit(k) || k.pc.AwaitPending? || k.pc.WaitHook? || k.pc.GetLock? || k.pc.AcquireLock? || k.pc.DropLock?
        || k.pc.Done?)
    && (k.pc.Setup? ==> OldOk(s, k.pc.active))
    && (k.pc.FailOld? ==> OldOk(s, k.pc.active))
    && (k.pc.FulfilOld? ==> Known(s, k.pc.stale) && s.chans[k.pc.stale].Terminal())
    && (k.pc.FailOld? || k.pc.FulfilOld? || k.pc.SetDirty? || k.pc.Bump? ==>
          k.chan in s.chans && s.chans[k.chan].phase.Fresh?)
    && (k.pc.Insert? ==> k.chan in s.chans && s.chans[k.chan].phase.Counted?)
    && (k.pc.Bump? || k.pc.Insert? ==> s.chans[k.chan].gen > 0 || s.inode.None?)
  }

  ghost predicate UnlinkOk(k: Task) {
    InCrit(k) || k.pc.GetLock? || k.pc.AcquireLock? || k.pc.DropLock? || k.pc.ForgetLock? || k.pc.Done?
  }

  ghost predicate JobOk(s: State, t: TaskId, k: Task) {
    match k.job
    case Defer => DeferOk(s, k)
    case CommitNow => CommitNowOk(s, t, k)
    case Release => ReleaseOk(s, t, k)
    case Reopen => ReopenOk(s, k)
    case Unlink => UnlinkOk(k)
  }

  ghost predicate TaskOk(s: State, t: TaskId)
    requires t in s.tasks
  {
    && (HasRef(s.tasks[t]) <==> t in s.locks.refs)
    && (InCrit(s.tasks[t]) <==> Holds(s.locks, t))
    && JobOk(s, t, s.tasks[t])
  }

  // ---- Channels ----

  /** The task waits for the worker's answer to its finish message. */
  predicate Awaiting(k: Task, c: ChanId) {
    k.chan == c && k.pc.Commit? && k.pc.at.AwaitReply? && InCrit(k)
  }

  ghost predicate AtReply(s: State, t: TaskId, c: ChanId) {
    t in s.tasks && Awaiting(s.tasks[t], c)
  }

  /** What the worker has taken and what is still queued are the accepted writes, in order;
      nothing follows a finish message, and nothing is accepted after one. */
  ghost predicate FlowOk(ch: Chan) {
    && (forall i :: 0 <= i < |ch.queue| && ch.queue[i].Finish? ==> i == |ch.queue| - 1)
    && (forall i :: 0 <= i < |ch.queue| && ch.queue[i].Finish? ==> !ch.InFlight())
    && (!ch.running ==> ch.queue == [] && !ch.InFlight())
    && (ch.running ==> ch.reply.None?)
    && (ch.running && !ch.failed ==> ch.uploaded + Bytes(ch.queue) == Concat(ch.accepted))
    && (ch.reply.Some? && ch.reply.value.Uploaded? ==> ch.reply.value.content == Concat(ch.accepted))
    && (ch.pendingInfo.Some? ==> ch.pendingInfo.value == Concat(ch.accepted) && !ch.InFlight())
    && (ch.fate.Accepted? ==> !ch.InFlight())
    && (ch.state.Committed? ==> Decided(ch))
  }

  /** The task will look at `c` again before it ends, and will fulfil its hook if `c` is terminal. */
  predicate DutyOf(k: Task, c: ChanId) {
    || (k.chan == c && !k.job.Reopen? && !k.job.Unlink?
        && (k.pc.CheckTerminal? || k.pc.FulfilEarly? || k.pc.MarkCommitted? || k.pc.FulfilDone?))
    || (k.job.Reopen? && k.pc.FulfilOld? && k.pc.stale == c)
  }

  ghost predicate Duty(s: State, t: TaskId, c: ChanId) {
    t in s.tasks && DutyOf(s.tasks[t], c)
  }

  ghost predicate Served(s: State, c: ChanId) {
    exists t :: Duty(s, t, c)
  }

  ghost predicate HookOk(s: State, c: ChanId)
    requires c in s.chans
  {
    var ch := s.chans[c];
    && (ch.hook.Some? ==> ch.hook.value.chan == c && ch.hook.value.serial < s.nextHook && ch.Published())
    && (ch.hook.Some? && ch.Terminal() ==> Served(s, c))
  }

  ghost predicate PhaseOk(s: State, c: ChanId)
    requires c in s.chans
  {
    var ch := s.chans[c];
    && (ch.phase.Closing? ==>
          ch.phase.task in s.tasks && s.tasks[ch.phase.task].job.Release? && s.tasks[ch.phase.task].chan == c
          && Before(s.tasks[ch.phase.task]))
    && (ch.phase.Closed? ==> ch.Terminal())
    && (ch.Published() ==> ch.gen > 0 || s.inode.None?)
  }

  ghost predicate ChanOk(s: State, c: ChanId)
    requires c in s.chans
  {
    && FlowOk(s.chans[c])
    && (forall i :: 0 <= i < |s.chans[c].queue| && s.chans[c].queue[i].Finish? ==> AtReply(s, s.chans[c].queue[i].task, c))
    && HookOk(s, c)
    && PhaseOk(s, c)
  }

  ghost predicate Inv(s: State) {
    && LocksOk(s.locks)
    && (forall t :: t in s.locks.refs ==> t in s.tasks)
    && (forall t {:trigger TaskOk(s, t)} :: t in s.tasks ==> TaskOk(s, t))
    && (forall c {:trigger ChanOk(s, c)} :: c in s.chans ==> ChanOk(s, c))
    && (s.pending.Some? ==> s.pending.value.chan in s.chans && s.chans[s.pending.value.chan].hook == s.pending)
    && (s.dropped && s.inode.Some? ==> !s.inode.value.linked)
  }

  lemma InitInv(s: State)
    requires Init(s)
    ensures Inv(s)
  {
    forall c | c in s.chans
      ensures ChanOk(s, c)
    {
    }
  }

  // ---- Rely and guarantee ----

  /** What no step but the lock holder's does to a channel. */
  ghost predicate Quiet(ch: Chan, ch': Chan, t: TaskId) {
    && ch'.gen == ch.gen && ch'.existedBefore == ch.existedBefore
    && (ch'.Terminal() <==> ch.Terminal())
    && (ch.state.Committing? ==> ch'.state.Committing? && ch'.accepted == ch.accepted)
    && ch'.fate == ch.fate && (ch.fate.Accepted? ==> ch'.accepted == ch.accepted)
    && (ch.phase.Fresh? ==> ch'.phase.Fresh?) && (ch.phase.Counted? ==> ch'.phase.Counted?)
    && (ch.running && ch.queue != [] && ch.queue[|ch.queue| - 1] == Finish(t) && ch.reply.None? ==>
          if ch'.running then ch'.queue != [] && ch'.queue[|ch'.queue| - 1] == Finish(t) && ch'.reply.None?
          else ch'.reply.Some?)
    && (!ch.running && ch.reply.Some? ==> !ch'.running && ch'.reply.Some?)
  }

  /** What every step does, seen by a task `u` that does not take it. */
  ghost predicate Rely(s: State, s': State, u: TaskId) {
    && u in s.tasks && u in s'.tasks && s'.tasks[u] == s.tasks[u]
    && StagingLocks.Same(s.locks, s'.locks, u)
    && (forall c :: c in s.chans ==> c in s'.chans && Kept(s.chans[c], s'.chans[c], u))
    && (s.inode.None? ==> s'.inode.None?) && (s.dropped ==> s'.dropped)
    && (InCrit(s.tasks[u]) ==>
          && (forall c :: c in s.chans ==> Quiet(s.chans[c], s'.chans[c], u))
          && (forall c :: c in s.chans && s.chans[c].gen > 0 && StillOwner(s, c) ==> c in s'.chans && StillOwner(s', c)))
  }

  ghost predicate Kept(ch: Chan, ch': Chan, u: TaskId) {
    && (ch.Terminal() ==> ch'.state == ch.state)
    && (ch.Published() ==> ch'.Published())
    && (ch.phase == Closing(u) ==> ch'.phase == Closing(u))
  }

  lemma OthersKeep(s: State, s': State, u: TaskId)
    requires Inv(s) && Rely(s, s', u)
    ensures TaskOk(s', u)
  {
    assert TaskOk(s, u);
    var k := s.tasks[u];
    if k.chan in s.chans { assert ChanOk(s, k.chan); }
  }
}
