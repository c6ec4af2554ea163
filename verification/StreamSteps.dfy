/** Every step of the streaming protocol keeps its invariant. */
module StreamSteps {
  import opened Prelude
  import opened StagingLocks
  import opened Streaming
  import opened StreamInv

  // ---- The acting task ----

  /** `k'` replaces `k` without taking or giving up the lock. */
  ghost predicate SameHold(k: Task, k': Task) {
    k'.job == k.job && InCrit(k') == InCrit(k) && HasRef(k') == HasRef(k)
  }

  /** A channel that stays as it is does not miss the task's old place. */
  ghost predicate Unmissed(ch: Chan, d: ChanId, t: TaskId, k: Task, k': Task) {
    && (Awaiting(k, d) ==> Awaiting(k', d) || !ch.running)
    && (ch.phase == Closing(t) ==> k'.job.Release? && k'.chan == d && Before(k'))
    && (DutyOf(k, d) && ch.hook.Some? && ch.Terminal() ==> DutyOf(k', d))
  }

  /** A task works on its own channel only. */
  lemma OwnChannel(s: State, t: TaskId, k': Task, d: ChanId)
    requires Inv(s) && t in s.tasks && d in s.chans && !s.tasks[t].job.Reopen? && d != s.tasks[t].chan
    ensures Unmissed(s.chans[d], d, t, s.tasks[t], k')
  {
    assert ChanOk(s, d);
  }

  /** `s'` differs from `s` in the task `t`, perhaps in one channel, and in hooks and inode. */
  ghost predicate Others(s: State, s': State, t: TaskId) {
    && (forall u :: u in s.tasks && u != t ==> u in s'.tasks && s'.tasks[u] == s.tasks[u])
    && s.nextHook <= s'.nextHook && (s.inode.None? ==> s'.inode.None?)
  }

  lemma ServedKept(s: State, s': State, t: TaskId, c: ChanId)
    requires Served(s, c) && Others(s, s', t) && (Duty(s, t, c) ==> Duty(s', t, c))
    ensures Served(s', c)
  {
    var u :| Duty(s, u, c);
    assert Duty(s', u, c);
  }

  lemma UntouchedChan(s: State, s': State, t: TaskId, d: ChanId)
    requires Inv(s) && d in s.chans && d in s'.chans && s'.chans[d] == s.chans[d] && Others(s, s', t)
    requires t in s.tasks ==> t in s'.tasks && Unmissed(s.chans[d], d, t, s.tasks[t], s'.tasks[t])
    ensures ChanOk(s', d)
  {
    assert ChanOk(s, d);
    if s.chans[d].hook.Some? && s.chans[d].Terminal() {
      ServedKept(s, s', t, d);
    }
  }

  // ---- A task moves, and nothing else changes ----

  lemma JobOkSame(s: State, s': State, t: TaskId, k: Task)
    requires s'.chans == s.chans && s'.inode == s.inode && s'.dropped == s.dropped
    requires JobOk(s, t, k)
    ensures JobOk(s', t, k)
  {
  }

  lemma MoveInv(s: State, t: TaskId, k': Task)
    requires Inv(s) && t in s.tasks && SameHold(s.tasks[t], k') && JobOk(s, t, k')
    requires forall d :: d in s.chans ==> Unmissed(s.chans[d], d, t, s.tasks[t], k')
    ensures Inv(s.(tasks := s.tasks[t := k']))
  {
    var s' := s.(tasks := s.tasks[t := k']);
    assert TaskOk(s, t);
    JobOkSame(s, s', t, k');
    assert TaskOk(s', t);
    forall u | u in s.tasks && u != t
      ensures TaskOk(s', u)
    {
      assert TaskOk(s, u);
      JobOkSame(s, s', u, s.tasks[u]);
    }
    forall d | d in s.chans
      ensures ChanOk(s', d)
    {
      UntouchedChan(s, s', t, d);
    }
  }

  /** The same for a task whose moves concern its own channel only. */
  lemma OwnMove(s: State, t: TaskId, pc: Pc)
    requires Inv(s) && t in s.tasks && !s.tasks[t].job.Reopen?
    requires var k' := s.tasks[t].(pc := pc);
             && SameHold(s.tasks[t], k') && JobOk(s, t, k')
             && (s.tasks[t].chan in s.chans ==>
                   Unmissed(s.chans[s.tasks[t].chan], s.tasks[t].chan, t, s.tasks[t], k'))
    ensures Inv(Goto(s, t, pc))
  {
    var k' := s.tasks[t].(pc := pc);
    forall d | d in s.chans
      ensures Unmissed(s.chans[d], d, t, s.tasks[t], k')
    {
      if d != s.tasks[t].chan { OwnChannel(s, t, k', d); }
    }
    MoveInv(s, t, k');
  }

  // ---- A task moves and changes one channel ----

  /** What others may see happen to a channel. */
  ghost predicate Gentle(ch: Chan, ch': Chan, t: TaskId, crit: bool) {
    && (ch.Terminal() ==> ch'.state == ch.state)
    && (ch.Published() ==> ch'.Published())
    && (ch.phase.Closing? && ch.phase.task != t ==> ch'.phase == ch.phase)
    && (crit || forall u :: u != t ==> Quiet(ch, ch', u))
  }

  lemma GentleRely(s: State, s': State, t: TaskId, c: ChanId, u: TaskId)
    requires Inv(s) && t in s.tasks && c in s.chans && u in s.tasks && u != t && Others(s, s', t)
    requires c in s'.chans && s'.chans == s.chans[c := s'.chans[c]] && s'.locks == s.locks
    requires s'.inode == s.inode && s'.dropped == s.dropped
    requires Gentle(s.chans[c], s'.chans[c], t, InCrit(s.tasks[t]))
    ensures Rely(s, s', u)
  {
    assert TaskOk(s, t) && TaskOk(s, u);
    if InCrit(s.tasks[t]) && InCrit(s.tasks[u]) {
      Exclusive(s.locks, t, u);
    }
    forall d | d in s.chans
      ensures d in s'.chans && Kept(s.chans[d], s'.chans[d], u)
      ensures InCrit(s.tasks[u]) ==> Quiet(s.chans[d], s'.chans[d], u)
    {
    }
  }

  /** `s'` is `s` with the task `t` and the channel `c` replaced, and hooks perhaps moved. */
  ghost predicate Replaced(s: State, s': State, t: TaskId, c: ChanId) {
    && t in s.tasks && t in s'.tasks && c in s.chans && c in s'.chans
    && s'.tasks == s.tasks[t := s'.tasks[t]] && s'.chans == s.chans[c := s'.chans[c]]
    && s'.locks == s.locks && s'.inode == s.inode && s'.dropped == s.dropped && s.nextHook <= s'.nextHook
  }

  ghost predicate PendingOk(s: State) {
    s.pending.Some? ==> s.pending.value.chan in s.chans && s.chans[s.pending.value.chan].hook == s.pending
  }

  lemma ChangeInv(s: State, s': State, t: TaskId, c: ChanId)
    requires Inv(s) && Replaced(s, s', t, c) && SameHold(s.tasks[t], s'.tasks[t])
    requires Gentle(s.chans[c], s'.chans[c], t, InCrit(s.tasks[t]))
    requires JobOk(s', t, s'.tasks[t]) && ChanOk(s', c) && PendingOk(s')
    requires forall d :: d in s.chans && d != c ==> Unmissed(s.chans[d], d, t, s.tasks[t], s'.tasks[t])
    ensures Inv(s')
  {
    assert TaskOk(s, t);
    assert TaskOk(s', t);
    forall u | u in s'.tasks && u != t
      ensures TaskOk(s', u)
    {
      GentleRely(s, s', t, c, u);
      OthersKeep(s, s', u);
    }
    forall d | d in s'.chans && d != c
      ensures ChanOk(s', d)
    {
      UntouchedChan(s, s', t, d);
    }
  }

  /** A channel whose state, queue or uploads change, but not its hook, phase or generation. */
  ghost predicate ContentOnly(ch: Chan, ch': Chan, t: TaskId, k: Task, k': Task, c: ChanId) {
    && ch'.hook == ch.hook && ch'.phase == ch.phase && ch'.gen == ch.gen && ch'.existedBefore == ch.existedBefore
    && FlowOk(ch')
    && (forall i :: 0 <= i < |ch'.queue| && ch'.queue[i].Finish? ==>
          if ch'.queue[i].task == t then Awaiting(k', c) else ch'.queue[i] in ch.queue)
    && (ch'.phase == Closing(t) ==> k'.job.Release? && k'.chan == c && Before(k'))
    && (ch'.phase.Closed? ==> ch'.Terminal())
    && (ch'.hook.Some? && ch'.Terminal() ==> DutyOf(k', c) || (ch.Terminal() && !DutyOf(k, c)))
  }

  lemma ContentChan(s: State, s': State, t: TaskId, c: ChanId)
    requires Inv(s) && Replaced(s, s', t, c)
    requires ContentOnly(s.chans[c], s'.chans[c], t, s.tasks[t], s'.tasks[t], c)
    ensures ChanOk(s', c)
  {
    assert ChanOk(s, c);
    var ch, ch' := s.chans[c], s'.chans[c];
    if ch'.hook.Some? && ch'.Terminal() {
      if DutyOf(s'.tasks[t], c) {
        assert Duty(s', t, c);
      } else {
        ServedKept(s, s', t, c);
      }
    }
    forall i | 0 <= i < |ch'.queue| && ch'.queue[i].Finish?
      ensures AtReply(s', ch'.queue[i].task, c)
    {
      if ch'.queue[i].task != t {
        var j :| 0 <= j < |ch.queue| && ch.queue[j] == ch'.queue[i];
        assert AtReply(s, ch.queue[j].task, c);
      }
    }
  }

  /** A task changes the contents of its own channel. */
  lemma OwnChange(s: State, s': State, t: TaskId)
    requires Inv(s) && t in s.tasks && !s.tasks[t].job.Reopen? && Replaced(s, s', t, s.tasks[t].chan)
    requires SameHold(s.tasks[t], s'.tasks[t]) && s'.pending == s.pending
    requires var c := s.tasks[t].chan;
             && Gentle(s.chans[c], s'.chans[c], t, InCrit(s.tasks[t]))
             && ContentOnly(s.chans[c], s'.chans[c], t, s.tasks[t], s'.tasks[t], c)
    requires JobOk(s', t, s'.tasks[t])
    ensures Inv(s')
  {
    var c := s.tasks[t].chan;
    ContentChan(s, s', t, c);
    forall d | d in s.chans && d != c
      ensures Unmissed(s.chans[d], d, t, s.tasks[t], s'.tasks[t])
    {
      OwnChannel(s, t, s'.tasks[t], d);
    }
    ChangeInv(s, s', t, c);
  }

  // ---- Hooks ----

  /** Where `install_commit_hook` returns to. */
  predicate AfterInstall(job: Job, next: Pc) {
    match job
    case Defer => next.Demote?
    case CommitNow => next == Commit(CheckOwner, false)
    case Release => next.Recheck?
    case Reopen => false
    case Unlink => false
  }

  /** A step on the hook of `c`: the channel is otherwise unchanged. */
  lemma HookChan(s: State, s': State, t: TaskId, c: ChanId)
    requires Inv(s) && Replaced(s, s', t, c) && s'.chans[c] == s.chans[c].(hook := s'.chans[c].hook)
    requires s'.chans[c].hook.Some? ==>
               && s'.chans[c].hook.value.chan == c && s'.chans[c].hook.value.serial < s'.nextHook
               && s.chans[c].Published() && DutyOf(s'.tasks[t], c)
    requires Unmissed(s'.chans[c], c, t, s.tasks[t], s'.tasks[t])
    ensures ChanOk(s', c)
  {
    assert ChanOk(s, c);
    if s'.chans[c].hook.Some? { assert Duty(s', t, c); }
  }

  lemma InstallPc(s: State, t: TaskId)
    requires Inv(s) && t in s.tasks && s.tasks[t].chan in s.chans && s.tasks[t].pc.Install?
    requires s.tasks[t].job.Defer? || s.tasks[t].job.CommitNow? || s.tasks[t].job.Release?
    ensures Inv(Goto(InstallHook(s, s.tasks[t].chan), t, CheckTerminal))
  {
    var c := s.tasks[t].chan;
    var s' := Goto(InstallHook(s, c), t, CheckTerminal);
    assert TaskOk(s, t) && ChanOk(s, c);
    InstallShape(s, s', t);
    HookChan(s, s', t, c);
    forall d | d in s.chans && d != c
      ensures Unmissed(s.chans[d], d, t, s.tasks[t], s'.tasks[t])
    {
      OwnChannel(s, t, s'.tasks[t], d);
    }
    ChangeInv(s, s', t, c);
  }

  lemma InstallShape(s: State, s': State, t: TaskId)
    requires t in s.tasks && s.tasks[t].chan in s.chans && JobOk(s, t, s.tasks[t]) && PendingOk(s)
    requires HookOk(s, s.tasks[t].chan) && s.tasks[t].pc.Install?
    requires s.tasks[t].job.Defer? || s.tasks[t].job.CommitNow? || s.tasks[t].job.Release?
    requires s' == Goto(InstallHook(s, s.tasks[t].chan), t, CheckTerminal)
    ensures Replaced(s, s', t, s.tasks[t].chan) && PendingOk(s') && SameHold(s.tasks[t], s'.tasks[t])
    ensures JobOk(s', t, s'.tasks[t])
    ensures var ch, ch' := s.chans[s.tasks[t].chan], s'.chans[s.tasks[t].chan];
            ch' == ch.(hook := ch'.hook) && ch'.hook.Some? && ch'.hook.value.chan == s.tasks[t].chan
            && ch'.hook.value.serial < s'.nextHook
  {
    var c := s.tasks[t].chan;
    if s.chans[c].hook.Some? { assert InstallHook(s, c) == s; }
  }

  lemma CheckPc(s: State, t: TaskId, next: Pc)
    requires Inv(s) && t in s.tasks && s.tasks[t].chan in s.chans && s.tasks[t].pc.CheckTerminal?
    requires AfterInstall(s.tasks[t].job, next)
    ensures Inv(Goto(s, t, if s.chans[s.tasks[t].chan].Terminal() then FulfilEarly else next))
  {
    assert TaskOk(s, t) && ChanOk(s, s.tasks[t].chan);
    OwnMove(s, t, if s.chans[s.tasks[t].chan].Terminal() then FulfilEarly else next);
  }

  /** Taking the sender of the own channel's hook. */
  lemma FulfilOwn(s: State, t: TaskId, next: Pc)
    requires Inv(s) && t in s.tasks && s.tasks[t].chan in s.chans && !s.tasks[t].job.Reopen?
    requires s.tasks[t].pc.FulfilEarly? || s.tasks[t].pc.FulfilDone?
    requires SameHold(s.tasks[t], s.tasks[t].(pc := next)) && JobOk(s, t, s.tasks[t].(pc := next))
    requires s.tasks[t].job.Release? ==> Before(s.tasks[t].(pc := next))
    requires next.Demote? || next.Commit? || next.Recheck? || next.ReleaseLock?
    requires next.Commit? ==> next.at.CheckOwner?
    ensures Inv(Goto(FulfilHook(s, s.tasks[t].chan), t, next))
  {
    var c := s.tasks[t].chan;
    var s' := Goto(FulfilHook(s, c), t, next);
    assert TaskOk(s, t) && ChanOk(s, c);
    FulfilShape(s, t, c);
    HookChan(s, s', t, c);
    forall d | d in s.chans && d != c
      ensures Unmissed(s.chans[d], d, t, s.tasks[t], s'.tasks[t])
    {
      OwnChannel(s, t, s'.tasks[t], d);
    }
    ChangeInv(s, s', t, c);
  }

  lemma FulfilShape(s: State, t: TaskId, c: ChanId)
    requires Inv(s) && t in s.tasks && c in s.chans
    ensures PendingOk(FulfilHook(s, c))
  {
    if s.pending.Some? { assert ChanOk(s, s.pending.value.chan); }
  }

  lemma InstallStepInv(s: State, t: TaskId, next: Pc)
    requires Inv(s) && t in s.tasks && s.tasks[t].chan in s.chans && AfterInstall(s.tasks[t].job, next)
    requires s.tasks[t].pc.Install? || s.tasks[t].pc.CheckTerminal? || s.tasks[t].pc.FulfilEarly?
    ensures Inv(InstallStep(s, t, next).value)
  {
    assert TaskOk(s, t);
    match s.tasks[t].pc
    case Install => InstallPc(s, t);
    case CheckTerminal => CheckPc(s, t, next);
    case FulfilEarly => FulfilOwn(s, t, next);
  }

  // ---- Commit states ----

  /** Changing the commit state of a channel by a task that does not wait for its worker. */
  lemma StateContent(ch: Chan, st: CommitState, t: TaskId, k: Task, k': Task, c: ChanId)
    requires FlowOk(ch) && !Awaiting(k, c) && !(exists i :: 0 <= i < |ch.queue| && ch.queue[i] == Finish(t))
    requires ch.Terminal() ==> st == ch.state
    requires (st.Writing? || st.Deferred? ==> ch.InFlight()) && (st.Committed? ==> Decided(ch))
    requires ch.phase == Closing(t) ==> k'.job.Release? && k'.chan == c && Before(k')
    requires ch.phase.Closed? ==> ch.Terminal()
    requires st.Committed? || st.Failed? ==> DutyOf(k', c) || (ch.Terminal() && !DutyOf(k, c))
    ensures ContentOnly(ch, ch.(state := st), t, k, k', c)
  {
  }

  lemma SetStateInv(s: State, s': State, t: TaskId, st: CommitState, pc: Pc)
    requires Inv(s) && t in s.tasks && s.tasks[t].chan in s.chans && !s.tasks[t].job.Reopen?
    requires !Awaiting(s.tasks[t], s.tasks[t].chan)
    requires s' == Goto(SetState(s, s.tasks[t].chan, st), t, pc)
    requires SameHold(s.tasks[t], s'.tasks[t]) && JobOk(s', t, s'.tasks[t])
    requires var ch := s.chans[s.tasks[t].chan];
             && (ch.Terminal() ==> st == ch.state) && (st.Writing? || st.Deferred? ==> ch.InFlight())
             && (st.Committed? ==> Decided(ch))
             && (InCrit(s.tasks[t]) || (ch.state.Writing? && st.Deferred?) || st == ch.state)
    requires s.tasks[t].job.Release? ==> Before(s'.tasks[t])
    requires var c := s.tasks[t].chan;
             st.Committed? || st.Failed? ==> DutyOf(s'.tasks[t], c) || (!DutyOf(s.tasks[t], c) && s.chans[c].Terminal())
    ensures Inv(s')
  {
    var c := s.tasks[t].chan;
    assert ChanOk(s, c);
    assert forall i :: 0 <= i < |s.chans[c].queue| ==> s.chans[c].queue[i] != Finish(t);
    StateContent(s.chans[c], st, t, s.tasks[t], s'.tasks[t], c);
    OwnChange(s, s', t);
  }

  lemma DeferInv(s: State, t: TaskId)
    requires Inv(s) && t in s.tasks && s.tasks[t].job.Defer? && s.tasks[t].chan in s.chans && DeferStep(s, t).Some?
    ensures Inv(DeferStep(s, t).value)
  {
    if s.tasks[t].pc.Demote? {
      var ch := s.chans[s.tasks[t].chan];
      assert TaskOk(s, t) && ChanOk(s, s.tasks[t].chan);
      var st := if ch.state.Writing? then Deferred else ch.state;
      assert SetState(s, s.tasks[t].chan, ch.state) == s;
      SetStateInv(s, DeferStep(s, t).value, t, st, Done);
    } else {
      InstallStepInv(s, t, Demote);
    }
  }

  // ---- The lock ----

  /** A lock operation of `t`, which leaves the other tasks' references alone. */
  lemma LockMoveInv(s: State, l': Locks, t: TaskId, k': Task)
    requires Inv(s) && t in s.tasks && LocksOk(l') && k'.job == s.tasks[t].job && k'.chan == s.tasks[t].chan
    requires forall u :: u != t ==> StagingLocks.Same(s.locks, l', u)
    requires (HasRef(k') <==> t in l'.refs) && (InCrit(k') <==> Holds(l', t)) && JobOk(s, t, k')
    requires LockPc(s.tasks[t].pc) || s.tasks[t].pc.ForgetLock?
    requires s.tasks[t].job.Release? && Before(s.tasks[t]) ==> Before(k')
    ensures Inv(s.(locks := l', tasks := s.tasks[t := k']))
  {
    var s' := s.(locks := l', tasks := s.tasks[t := k']);
    JobOkSame(s, s', t, k');
    assert TaskOk(s', t);
    forall u | u in s.tasks && u != t
      ensures TaskOk(s', u)
    {
      assert TaskOk(s, u) && StagingLocks.Same(s.locks, l', u);
      JobOkSame(s, s', u, s.tasks[u]);
    }
    forall d | d in s.chans
      ensures ChanOk(s', d)
    {
      LockUnmissed(s, t, k', d);
      UntouchedChan(s, s', t, d);
    }
    forall u | u in l'.refs
      ensures u in s'.tasks
    {
      assert u != t ==> StagingLocks.Same(s.locks, l', u);
    }
  }

  lemma LockUnmissed(s: State, t: TaskId, k': Task, d: ChanId)
    requires Inv(s) && t in s.tasks && d in s.chans && k'.job == s.tasks[t].job && k'.chan == s.tasks[t].chan
    requires LockPc(s.tasks[t].pc) || s.tasks[t].pc.ForgetLock?
    requires s.tasks[t].job.Release? && Before(s.tasks[t]) ==> Before(k')
    ensures Unmissed(s.chans[d], d, t, s.tasks[t], k')
  {
    assert ChanOk(s, d);
  }

  /** What follows when the reference to the lock is dropped. */
  predicate AfterLock(job: Job, next: Pc) {
    match job
    case Defer => false
    case CommitNow => next.Done?
    case Release => next.Close?
    case Reopen => next.Done?
    case Unlink => next.ForgetLock?
  }

  lemma LockStepInv(s: State, t: TaskId, next: Pc)
    requires Inv(s) && t in s.tasks && LockPc(s.tasks[t].pc) && AfterLock(s.tasks[t].job, next)
    requires LockStep(s, t, next).Some?
    ensures Inv(LockStep(s, t, next).value)
  {
    assert TaskOk(s, t);
    var l, k := s.locks, s.tasks[t];
    var pc' := NextLockPc(k.pc, next);
    LockHold(k, next);
    LockJobOk(s, t, next);
    var l' := LockStep(s, t, next).value.locks;
    LockOpKeeps(l, l', t);
    LockMoveInv(s, l', t, k.(pc := pc'));
  }

  function NextLockPc(pc: Pc, next: Pc): (r: Pc)
    requires LockPc(pc)
  {
    match pc
    case GetLock => AcquireLock
    case AcquireLock => Guard
    case ReleaseLock => DropLock
    case DropLock => next
  }

  lemma LockHold(k: Task, next: Pc)
    requires LockPc(k.pc) && AfterLock(k.job, next)
    ensures var k' := k.(pc := NextLockPc(k.pc, next));
            && (HasRef(k') <==> !k.pc.DropLock?) && (InCrit(k') <==> k.pc.AcquireLock?)
            && (HasRef(k) <==> !k.pc.GetLock?) && (InCrit(k) <==> k.pc.ReleaseLock?)
            && (k.job.Release? ==> Before(k'))
  {
  }

  lemma LockJobOk(s: State, t: TaskId, next: Pc)
    requires t in s.tasks && LockPc(s.tasks[t].pc) && AfterLock(s.tasks[t].job, next) && JobOk(s, t, s.tasks[t])
    ensures JobOk(s, t, s.tasks[t].(pc := NextLockPc(s.tasks[t].pc, next)))
  {
    LockHold(s.tasks[t], next);
  }

  lemma LockOpKeeps(l: Locks, l': Locks, t: TaskId)
    requires LocksOk(l)
    requires || (t !in l.refs && l' == GetRef(l, t))
             || (Free(l, t) && l' == Acquire(l, t))
             || (Holds(l, t) && l' == StagingLocks.Unlock(l, t))
             || (!Holds(l, t) && l' == DropRef(l, t))
    ensures LocksOk(l') && forall u :: u != t ==> StagingLocks.Same(l, l', u)
  {
    OpsKeep(l, t);
    forall u | u != t
      ensures StagingLocks.Same(l, l', u)
    {
      OpsFrame(l, t, u);
    }
  }

  lemma ForgetInv(s: State, t: TaskId)
    requires Inv(s) && t in s.tasks && s.tasks[t].pc.ForgetLock? && (s.tasks[t].job.Release? || s.tasks[t].job.Unlink?)
    ensures Inv(Goto(s.(locks := Forget(s.locks)), t, Done))
  {
    assert TaskOk(s, t);
    OpsKeep(s.locks, t);
    forall u | u != t
      ensures StagingLocks.Same(s.locks, Forget(s.locks), u)
    {
      OpsFrame(s.locks, t, u);
    }
    LockMoveInv(s, Forget(s.locks), t, s.tasks[t].(pc := Done));
  }

  // ---- The inode ----

  /** The lock holder changes the inode: nobody else relies on its generation. */
  lemma InodeMoveInv(s: State, i': Option<Inode>, t: TaskId, k': Task)
    requires Inv(s) && t in s.tasks && InCrit(s.tasks[t]) && SameHold(s.tasks[t], k')
    requires s.inode.None? ==> i'.None?
    requires s.dropped && i'.Some? ==> !i'.value.linked
    requires JobOk(s.(inode := i'), t, k')
    requires forall d :: d in s.chans ==> Unmissed(s.chans[d], d, t, s.tasks[t], k')
    ensures Inv(s.(inode := i', tasks := s.tasks[t := k']))
  {
    var s' := s.(inode := i', tasks := s.tasks[t := k']);
    JobOkSame(s.(inode := i'), s', t, k');
    assert TaskOk(s, t);
    assert TaskOk(s', t);
    forall u | u in s.tasks && u != t
      ensures TaskOk(s', u)
    {
      assert TaskOk(s, u);
      if InCrit(s.tasks[u]) { Exclusive(s.locks, t, u); }
      assert Rely(s, s', u);
      OthersKeep(s, s', u);
    }
    forall d | d in s.chans
      ensures ChanOk(s', d)
    {
      UntouchedChan(s, s', t, d);
    }
  }

  lemma RemoteInv(s: State, r: map<Path, Content>)
    requires Inv(s)
    ensures Inv(s.(remote := r))
  {
    var s' := s.(remote := r);
    forall t | t in s.tasks
      ensures TaskOk(s', t)
    {
      assert TaskOk(s, t);
      JobOkSame(s, s', t, s.tasks[t]);
    }
    forall d | d in s.chans
      ensures ChanOk(s', d)
    {
      assert ChanOk(s, d);
      if s.chans[d].hook.Some? && s.chans[d].Terminal() {
        var u :| Duty(s, u, d);
        assert Duty(s', u, d);
      }
    }
  }
}
