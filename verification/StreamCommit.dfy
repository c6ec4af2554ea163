/** The sections of `streaming_commit` and of its drivers keep the invariant. */
module StreamCommit {
  import opened Prelude
  import opened StagingLocks
  import opened Streaming
  import opened StreamInv
  import opened StreamSteps

  /** `t` drives a commit of its channel under the lock. */
  ghost predicate Driving(s: State, t: TaskId) {
    && Inv(s) && t in s.tasks && s.tasks[t].chan in s.chans && s.tasks[t].pc.Commit?
    && (s.tasks[t].job.CommitNow? || s.tasks[t].job.Release?)
  }

  /** Where a failed commit leads. */
  predicate AfterFailure(k: Task, bad: Pc)
    requires k.pc.Commit?
  {
    if k.job.CommitNow? then bad.ReleaseLock? else if k.pc.retry then bad.Revert? else bad.RetryCheck?
  }

  /** What is known at a section of the commit. */
  lemma At(s: State, t: TaskId)
    requires Driving(s, t)
    ensures var c := s.tasks[t].chan;
            && InCrit(s.tasks[t]) && HasRef(s.tasks[t]) && Known(s, c) && !s.chans[c].Terminal()
            && CommitOk(s, t, c, s.tasks[t].pc.at)
            && FlowOk(s.chans[c])
            && (s.tasks[t].job.Release? ==> s.chans[c].phase == Closing(t))
            && (s.chans[c].phase == Closing(t) ==> s.tasks[t].job.Release?)
            && (s.chans[c].gen > 0 || s.inode.None?) && !s.chans[c].phase.Closed?
  {
    assert TaskOk(s, t) && ChanOk(s, s.tasks[t].chan);
  }

  /** What a section that ends at `pc` must leave: the task can be there. */
  ghost predicate May(s: State, t: TaskId, c: ChanId, pc: Pc) {
    && Known(s, c)
    && (pc.Commit? ==> !s.chans[c].Terminal() && CommitOk(s, t, c, pc.at))
    && (pc.RetryCheck? || pc.Revert? ==> !s.chans[c].Terminal())
    && (pc.MarkCommitted? ==> MayCommit(s.chans[c]))
    && (pc.Commit? || pc.RetryCheck? || pc.Revert? || pc.MarkCommitted? || pc.ReleaseLock?)
  }

  predicate Follows(k: Task, pc: Pc) {
    pc.Commit? || pc.MarkCommitted? || (if k.job.CommitNow? then pc.ReleaseLock? else pc.RetryCheck? || pc.Revert?)
  }

  lemma MayJob(s: State, t: TaskId, k: Task, pc: Pc)
    requires (k.job.CommitNow? || k.job.Release?) && k.pc.Commit? && Follows(k, pc)
    requires May(s, t, k.chan, pc) && (k.job.Release? ==> s.chans[k.chan].phase == Closing(t))
    ensures JobOk(s, t, k.(pc := pc)) && SameHold(k, k.(pc := pc))
    ensures k.job.Release? ==> Before(k.(pc := pc))
  {
  }

  /** A section that only reads. */
  lemma ReadSection(s: State, t: TaskId, pc: Pc)
    requires Driving(s, t) && !s.tasks[t].pc.at.AwaitReply? && Follows(s.tasks[t], pc)
    requires May(s, t, s.tasks[t].chan, pc)
    ensures Inv(Goto(s, t, pc))
  {
    At(s, t);
    MayJob(s, t, s.tasks[t], pc);
    OwnMove(s, t, pc);
  }

  /** A section that changes the channel's queue or uploads; its commit state stays. */
  lemma WriteSection(s: State, t: TaskId, ch': Chan, pc: Pc)
    requires Driving(s, t) && Follows(s.tasks[t], pc)
    requires var c, ch := s.tasks[t].chan, s.chans[s.tasks[t].chan];
             && ch' == ch.(pendingInfo := ch'.pendingInfo, queue := ch'.queue, reply := ch'.reply, fate := ch'.fate)
             && FlowOk(ch') && May(s.(chans := s.chans[c := ch']), t, c, pc)
             && (forall i :: 0 <= i < |ch'.queue| && ch'.queue[i].Finish? ==>
                   if ch'.queue[i].task == t then pc.Commit? && pc.at.AwaitReply? else ch'.queue[i] in ch.queue)
    ensures Inv(Goto(s.(chans := s.chans[s.tasks[t].chan := ch']), t, pc))
  {
    At(s, t);
    var c := s.tasks[t].chan;
    var s1 := s.(chans := s.chans[c := ch']);
    var s' := Goto(s1, t, pc);
    MayJob(s1, t, s.tasks[t], pc);
    JobOkSame(s1, s', t, s'.tasks[t]);
    OwnChange(s, s', t);
  }

  /** No finish message is queued while the lock holder is not waiting for its answer. */
  lemma NoFinishYet(s: State, t: TaskId)
    requires Driving(s, t) && !s.tasks[t].pc.at.AwaitReply?
    ensures forall i :: 0 <= i < |s.chans[s.tasks[t].chan].queue| ==> !s.chans[s.tasks[t].chan].queue[i].Finish?
  {
    var c := s.tasks[t].chan;
    assert TaskOk(s, t) && ChanOk(s, c);
    forall i | 0 <= i < |s.chans[c].queue| && s.chans[c].queue[i].Finish?
      ensures false
    {
      var u := s.chans[c].queue[i].task;
      assert AtReply(s, u, c);
      assert TaskOk(s, u);
      Exclusive(s.locks, t, u);
    }
  }

  lemma CheckOwnerInv(s: State, t: TaskId, ch: Choice, good: Pc, bad: Pc)
    requires Driving(s, t) && s.tasks[t].pc.at.CheckOwner? && good.MarkCommitted?
    ensures Inv(CommitStep(s, t, ch, good, bad).value)
  {
    At(s, t);
    var c, retry := s.tasks[t].chan, s.tasks[t].pc.retry;
    if !Committable(s, c) {
      NoFinishYet(s, t);
      WriteSection(s, t, s.chans[c].(fate := Skipped), good);
    } else {
      ReadSection(s, t, Commit(Flip, retry));
    }
  }

  /** A section that changes the commit state. */
  lemma StateSection(s: State, t: TaskId, st: CommitState, pc: Pc)
    requires Driving(s, t) && !s.tasks[t].pc.at.AwaitReply? && Follows(s.tasks[t], pc)
    requires st.Committing? || (st.Committed? && pc.MarkCommitted?)
    requires May(SetState(s, s.tasks[t].chan, st), t, s.tasks[t].chan, pc)
    ensures Inv(Goto(SetState(s, s.tasks[t].chan, st), t, pc))
  {
    At(s, t);
    var s1 := SetState(s, s.tasks[t].chan, st);
    MayJob(s1, t, s.tasks[t], pc);
    JobOkSame(s1, Goto(s1, t, pc), t, s.tasks[t].(pc := pc));
    SetStateInv(s, Goto(s1, t, pc), t, st, pc);
  }

  lemma FlipInv(s: State, t: TaskId, ch: Choice, good: Pc, bad: Pc)
    requires Driving(s, t) && s.tasks[t].pc.at.Flip?
    ensures Inv(CommitStep(s, t, ch, good, bad).value)
  {
    At(s, t);
    var pc := Commit(TakeInfo, s.tasks[t].pc.retry);
    var r := CommitStep(s, t, ch, good, bad).value;
    if s.chans[s.tasks[t].chan].InFlight() {
      assert r == Goto(SetState(s, s.tasks[t].chan, Committing), t, pc);
      StateSection(s, t, Committing, pc);
    } else {
      assert r == Goto(s, t, pc);
      ReadSection(s, t, pc);
    }
  }

  lemma TakeInfoInv(s: State, t: TaskId, ch: Choice, good: Pc, bad: Pc)
    requires Driving(s, t) && s.tasks[t].pc.at.TakeInfo?
    ensures Inv(CommitStep(s, t, ch, good, bad).value)
  {
    At(s, t);
    NoFinishYet(s, t);
    var c, retry := s.tasks[t].chan, s.tasks[t].pc.retry;
    var ch0 := s.chans[c];
    if ch0.pendingInfo.Some? {
      WriteSection(s, t, ch0.(pendingInfo := None), Commit(ReadPath(ch0.pendingInfo.value), retry));
    } else {
      ReadSection(s, t, Commit(SendFinish, retry));
    }
  }

  lemma FinishFlow(ch: Chan, t: TaskId)
    requires FlowOk(ch) && ch.running && ch.state.Committing?
    requires forall i :: 0 <= i < |ch.queue| ==> !ch.queue[i].Finish?
    ensures FlowOk(ch.(queue := ch.queue + [Finish(t)]))
  {
    BytesAppend(ch.queue, Finish(t));
  }

  lemma SendFinishInv(s: State, t: TaskId, ch: Choice, good: Pc, bad: Pc)
    requires Driving(s, t) && s.tasks[t].pc.at.SendFinish? && AfterFailure(s.tasks[t], bad)
    ensures Inv(CommitStep(s, t, ch, good, bad).value)
  {
    At(s, t);
    var c, retry := s.tasks[t].chan, s.tasks[t].pc.retry;
    var ch0 := s.chans[c];
    if ch0.running {
      NoFinishYet(s, t);
      FinishFlow(ch0, t);
      WriteSection(s, t, ch0.(queue := ch0.queue + [Finish(t)]), Commit(AwaitReply, retry));
    } else {
      ReadSection(s, t, bad);
    }
  }

  lemma AwaitReplyInv(s: State, t: TaskId, ch: Choice, good: Pc, bad: Pc)
    requires Driving(s, t) && s.tasks[t].pc.at.AwaitReply? && AfterFailure(s.tasks[t], bad)
    requires CommitStep(s, t, ch, good, bad).Some?
    ensures Inv(CommitStep(s, t, ch, good, bad).value)
  {
    At(s, t);
    var c, retry := s.tasks[t].chan, s.tasks[t].pc.retry;
    var ch0 := s.chans[c];
    WriteSection(s, t, ch0.(reply := None),
                 if ch0.reply.value.Uploaded? then Commit(ReadPath(ch0.reply.value.content), retry) else bad);
  }

  lemma ReadPathInv(s: State, t: TaskId, ch: Choice, good: Pc, bad: Pc)
    requires Driving(s, t) && s.tasks[t].pc.at.ReadPath? && AfterFailure(s.tasks[t], bad)
    ensures Inv(CommitStep(s, t, ch, good, bad).value)
  {
    At(s, t);
    var info, retry := s.tasks[t].pc.at.info, s.tasks[t].pc.retry;
    ReadSection(s, t, if s.inode.Some? then Commit(SendAdd(info, s.inode.value.path), retry) else bad);
  }

  lemma SendAddInv(s: State, t: TaskId, ch: Choice, good: Pc, bad: Pc)
    requires Driving(s, t) && s.tasks[t].pc.at.SendAdd? && AfterFailure(s.tasks[t], bad)
    ensures Inv(CommitStep(s, t, ch, good, bad).value)
  {
    At(s, t);
    var c, retry, info := s.tasks[t].chan, s.tasks[t].pc.retry, s.tasks[t].pc.at.info;
    NoFinishYet(s, t);
    var pc, ch' := bad, s.chans[c].(pendingInfo := Some(info));
    if ch.ok {
      pc, ch' := Commit(Apply(info), retry), s.chans[c].(fate := Accepted(info));
    }
    WriteSection(s, t, ch', pc);
    RemoteInv(Goto(s.(chans := s.chans[c := ch']), t, pc), CommitStep(s, t, ch, good, bad).value.remote);
  }

  lemma OwnUnmissed(s: State, t: TaskId, pc: Pc)
    requires Inv(s) && t in s.tasks && s.tasks[t].chan in s.chans && !s.tasks[t].job.Reopen?
    requires !Awaiting(s.tasks[t], s.tasks[t].chan)
    requires DutyOf(s.tasks[t], s.tasks[t].chan) ==> DutyOf(s.tasks[t].(pc := pc), s.tasks[t].chan)
    requires s.tasks[t].job.Release? ==> Before(s.tasks[t].(pc := pc))
    ensures forall d :: d in s.chans ==> Unmissed(s.chans[d], d, t, s.tasks[t], s.tasks[t].(pc := pc))
  {
    forall d | d in s.chans
      ensures Unmissed(s.chans[d], d, t, s.tasks[t], s.tasks[t].(pc := pc))
    {
      assert ChanOk(s, d);
      if d != s.tasks[t].chan { OwnChannel(s, t, s.tasks[t].(pc := pc), d); }
    }
  }

  /** A section that changes the inode. */
  lemma InodeSection(s: State, t: TaskId, i': Option<Inode>, pc: Pc)
    requires Driving(s, t) && !s.tasks[t].pc.at.AwaitReply? && Follows(s.tasks[t], pc)
    requires (s.inode.None? ==> i'.None?) && (s.dropped && i'.Some? ==> !i'.value.linked)
    requires May(s.(inode := i'), t, s.tasks[t].chan, pc)
    ensures Inv(Goto(s.(inode := i'), t, pc))
  {
    At(s, t);
    MayJob(s.(inode := i'), t, s.tasks[t], pc);
    OwnUnmissed(s, t, pc);
    InodeMoveInv(s, i', t, s.tasks[t].(pc := pc));
  }

  lemma ApplyInv(s: State, t: TaskId, ch: Choice, good: Pc, bad: Pc)
    requires Driving(s, t) && s.tasks[t].pc.at.Apply?
    ensures Inv(CommitStep(s, t, ch, good, bad).value)
  {
    At(s, t);
    InodeSection(s, t, ApplyCommit(s.inode, s.tasks[t].pc.at.info, s.chans[s.tasks[t].chan].gen),
                 Commit(SetDone, s.tasks[t].pc.retry));
  }

  lemma SetDoneInv(s: State, t: TaskId, ch: Choice, good: Pc, bad: Pc)
    requires Driving(s, t) && s.tasks[t].pc.at.SetDone? && good.MarkCommitted?
    ensures Inv(CommitStep(s, t, ch, good, bad).value)
  {
    At(s, t);
    StateSection(s, t, Committed, good);
  }

  lemma CommitStepInv(s: State, t: TaskId, ch: Choice, good: Pc, bad: Pc)
    requires Driving(s, t) && good.MarkCommitted? && AfterFailure(s.tasks[t], bad)
    requires CommitStep(s, t, ch, good, bad).Some?
    ensures Inv(CommitStep(s, t, ch, good, bad).value)
  {
    match s.tasks[t].pc.at
    case CheckOwner => CheckOwnerInv(s, t, ch, good, bad);
    case Flip => FlipInv(s, t, ch, good, bad);
    case TakeInfo => TakeInfoInv(s, t, ch, good, bad);
    case SendFinish => SendFinishInv(s, t, ch, good, bad);
    case AwaitReply => AwaitReplyInv(s, t, ch, good, bad);
    case ReadPath(_) => ReadPathInv(s, t, ch, good, bad);
    case SendAdd(_, _) => SendAddInv(s, t, ch, good, bad);
    case Apply(_) => ApplyInv(s, t, ch, good, bad);
    case SetDone => SetDoneInv(s, t, ch, good, bad);
  }

  // ---- Drivers ----

  /** A driver's section between commits that only reads: `t` is not waiting and owes nothing. */
  lemma DriverMove(s: State, t: TaskId, pc: Pc)
    requires Inv(s) && t in s.tasks && s.tasks[t].chan in s.chans
    requires s.tasks[t].job.CommitNow? || s.tasks[t].job.Release?
    requires s.tasks[t].pc.Guard? || s.tasks[t].pc.Recheck? || s.tasks[t].pc.RetryCheck?
    requires SameHold(s.tasks[t], s.tasks[t].(pc := pc)) && JobOk(s, t, s.tasks[t].(pc := pc))
    requires s.tasks[t].job.Release? ==> Before(s.tasks[t].(pc := pc))
    ensures Inv(Goto(s, t, pc))
  {
    assert ChanOk(s, s.tasks[t].chan);
    OwnMove(s, t, pc);
  }

  lemma MarkInv(s: State, t: TaskId, st: CommitState)
    requires Inv(s) && t in s.tasks && s.tasks[t].chan in s.chans
    requires s.tasks[t].job.CommitNow? || s.tasks[t].job.Release?
    requires (s.tasks[t].pc.MarkCommitted? && st.Committed?)
             || (s.tasks[t].job.Release? && s.tasks[t].pc.MarkFailed? && st.Failed?)
    ensures Inv(Goto(SetState(s, s.tasks[t].chan, st), t, FulfilDone))
  {
    assert TaskOk(s, t);
    var s1 := SetState(s, s.tasks[t].chan, st);
    JobOkSame(s1, Goto(s1, t, FulfilDone), t, s.tasks[t].(pc := FulfilDone));
    SetStateInv(s, Goto(s1, t, FulfilDone), t, st, FulfilDone);
  }

  lemma CommitNowInv(s: State, t: TaskId, ch: Choice)
    requires Inv(s) && t in s.tasks && s.tasks[t].job.CommitNow? && s.tasks[t].chan in s.chans
    requires CommitNowStep(s, t, ch).Some?
    ensures Inv(CommitNowStep(s, t, ch).value)
  {
    assert TaskOk(s, t);
    var c, pc := s.tasks[t].chan, s.tasks[t].pc;
    match pc
    case Guard => DriverMove(s, t, if !ch.ok || s.chans[c].Terminal() then ReleaseLock else Install);
    case Install => InstallStepInv(s, t, Commit(CheckOwner, false));
    case CheckTerminal => InstallStepInv(s, t, Commit(CheckOwner, false));
    case Commit(_, _) => CommitStepInv(s, t, ch, MarkCommitted, ReleaseLock);
    case MarkCommitted => MarkInv(s, t, Committed);
    case FulfilDone => FulfilOwn(s, t, ReleaseLock);
    case _ => LockStepInv(s, t, Done);
  }

  lemma RevertInv(s: State, t: TaskId)
    requires Inv(s) && t in s.tasks && s.tasks[t].job.Release? && s.tasks[t].chan in s.chans && s.tasks[t].pc.Revert?
    ensures Inv(Goto(s.(inode := RevertInode(s.inode, s.chans[s.tasks[t].chan])), t, MarkFailed))
  {
    assert TaskOk(s, t);
    OwnUnmissed(s, t, MarkFailed);
    InodeMoveInv(s, RevertInode(s.inode, s.chans[s.tasks[t].chan]), t, s.tasks[t].(pc := MarkFailed));
  }

  /** The release gives up its handle. */
  lemma CloseInv(s: State, t: TaskId)
    requires Inv(s) && t in s.tasks && s.tasks[t].job.Release? && s.tasks[t].chan in s.chans && s.tasks[t].pc.Close?
    ensures Inv(Goto(SetPhase(s, s.tasks[t].chan, Closed), t, Reap))
  {
    var c := s.tasks[t].chan;
    var s' := Goto(SetPhase(s, c, Closed), t, Reap);
    assert TaskOk(s, t);
    CloseChan(s, s', t);
    forall d | d in s.chans && d != c
      ensures Unmissed(s.chans[d], d, t, s.tasks[t], s'.tasks[t])
    {
      OwnChannel(s, t, s'.tasks[t], d);
    }
    ChangeInv(s, s', t, c);
  }

  lemma CloseChan(s: State, s': State, t: TaskId)
    requires Inv(s) && t in s.tasks && s.tasks[t].job.Release? && s.tasks[t].chan in s.chans && s.tasks[t].pc.Close?
    requires s' == Goto(SetPhase(s, s.tasks[t].chan, Closed), t, Reap)
    ensures ChanOk(s', s.tasks[t].chan)
  {
    var c := s.tasks[t].chan;
    assert TaskOk(s, t) && ChanOk(s, c);
    if s.chans[c].hook.Some? && s.chans[c].Terminal() { ServedKept(s, s', t, c); }
    assert FlowOk(s'.chans[c]);
  }

  // ---- The inode changes without the lock ----

  /** A change that no commit under way can notice, unless it comes with `dropped`. */
  ghost predicate Unnoticed(s: State, s': State) {
    && (s.inode.None? ==> s'.inode.None?) && (s.dropped ==> s'.dropped)
    && (s'.dropped && s'.inode.Some? ==> !s'.inode.value.linked)
    && (s'.inode.Some? ==> s'.inode.value.gen == s.inode.value.gen)
    && (s.inode.Some? && s.inode.value.gen > 0 ==>
          && (s'.inode.None? ==> s'.dropped || !s.inode.value.linked)
          && (s'.inode.Some? && !s'.inode.value.linked ==> s'.dropped || !s.inode.value.linked))
  }

  lemma UnnoticedInv(s: State, s': State)
    requires Inv(s) && Unnoticed(s, s') && s' == s.(inode := s'.inode, dropped := s'.dropped)
    ensures Inv(s')
  {
    forall u | u in s.tasks
      ensures TaskOk(s', u)
    {
      assert TaskOk(s, u);
      assert Rely(s, s', u);
      OthersKeep(s, s', u);
    }
    forall d | d in s.chans
      ensures ChanOk(s', d)
    {
      assert ChanOk(s, d);
      if s.chans[d].hook.Some? && s.chans[d].Terminal() {
        var u :| Duty(s, u, d);
        assert Duty(s', u, d);
      }
    }
  }

  lemma ReapInv(s: State, t: TaskId, ch: Choice)
    requires Inv(s) && t in s.tasks && s.tasks[t].job.Release? && s.tasks[t].chan in s.chans && s.tasks[t].pc.Reap?
    ensures Inv(ReleaseStep(s, t, ch).value)
  {
    assert TaskOk(s, t) && ChanOk(s, s.tasks[t].chan);
    var s1 := if ch.ok && s.inode.Some? && !s.inode.value.linked then s.(inode := None) else s;
    UnnoticedInv(s, s1);
    assert TaskOk(s1, t);
    OwnMove(s1, t, ForgetLock);
  }

  lemma ReleaseInv(s: State, t: TaskId, ch: Choice)
    requires Inv(s) && t in s.tasks && s.tasks[t].job.Release? && s.tasks[t].chan in s.chans
    requires ReleaseStep(s, t, ch).Some?
    ensures Inv(ReleaseStep(s, t, ch).value)
  {
    assert TaskOk(s, t);
    var c, pc := s.tasks[t].chan, s.tasks[t].pc;
    match pc
    case Install => InstallStepInv(s, t, Recheck);
    case CheckTerminal => InstallStepInv(s, t, Recheck);
    case FulfilEarly => InstallStepInv(s, t, Recheck);
    case Recheck => DriverMove(s, t, if s.chans[c].Terminal() then Close else GetLock);
    case Guard => DriverMove(s, t, if s.chans[c].Terminal() then ReleaseLock else Commit(CheckOwner, false));
    case Commit(_, retry) => CommitStepInv(s, t, ch, MarkCommitted, if retry then Revert else RetryCheck);
    case RetryCheck =>
      DriverMove(s, t, if s.chans[c].pendingInfo.Some? then Commit(CheckOwner, true) else Revert);
    case MarkCommitted => MarkInv(s, t, Committed);
    case Revert => RevertInv(s, t);
    case MarkFailed => MarkInv(s, t, Failed);
    case FulfilDone => FulfilOwn(s, t, ReleaseLock);
    case Close => CloseInv(s, t);
    case Reap => ReapInv(s, t, ch);
    case ForgetLock => ForgetInv(s, t);
    case _ => LockStepInv(s, t, Close);
  }
}
