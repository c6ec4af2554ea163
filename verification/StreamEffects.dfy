/** What one step of a task does to tasks, inode and channels, over all jobs. */
module StreamEffects {
  import opened Prelude
  import opened StagingLocks
  import opened Streaming

  // ---- The marks that a commit's sections leave ----

  ghost predicate Sending(s: State, t: TaskId) {
    t in s.tasks && s.tasks[t].pc.Commit? && s.tasks[t].pc.at.SendAdd?
  }

  /** The task has sent its AddFile, and the Hub has accepted it. */
  ghost predicate Accepting(s: State, s': State, t: TaskId) {
    Sending(s, t) && t in s'.tasks && s'.tasks[t].pc.Commit? && s'.tasks[t].pc.at.Apply?
  }

  /** The task has done the owner check, and gives the commit up. */
  ghost predicate Skipping(s: State, s': State, t: TaskId) {
    && t in s.tasks && s.tasks[t].pc.Commit? && s.tasks[t].pc.at.CheckOwner?
    && t in s'.tasks && s'.tasks[t].pc.MarkCommitted?
  }

  // ---- The effect ----

  /** The step moves `t` alone. */
  ghost predicate MovesOnly(s: State, s': State, t: TaskId) {
    && t in s.tasks && t in s'.tasks && s'.tasks == s.tasks[t := s'.tasks[t]]
    && s'.tasks[t].job == s.tasks[t].job && (!s.tasks[t].pc.Setup? ==> s'.tasks[t].chan == s.tasks[t].chan)
  }

  ghost predicate InodeEffect(s: State, s': State, t: TaskId)
    requires t in s.tasks
  {
    var k := s.tasks[t];
    if k.pc.Commit? && k.pc.at.Apply? then
      k.chan in s.chans && s'.inode == ApplyCommit(s.inode, k.pc.at.info, s.chans[k.chan].gen)
    else if k.pc.Revert? then k.chan in s.chans && s'.inode == RevertInode(s.inode, s.chans[k.chan])
    else if k.pc.SetDirty? then
      if s.inode.None? then s'.inode.None?
      else s'.inode == Some(s.inode.value.(gen := s.inode.value.gen + 1, hash := None))
    else if k.pc.Reap? || k.pc.UnlinkLocal? then
      s'.inode.Some? ==> s.inode.Some? && s'.inode.value.gen == s.inode.value.gen && s'.inode.value.path == s.inode.value.path
    else s'.inode == s.inode
  }

  ghost function FateAfter(s: State, s': State, t: TaskId, d: ChanId): (f: Fate)
    requires t in s.tasks && d in s.chans
  {
    if s.tasks[t].chan == d && Accepting(s, s', t) then Accepted(s.tasks[t].pc.at.info)
    else if s.tasks[t].chan == d && Skipping(s, s', t) then Skipped
    else s.chans[d].fate
  }

  ghost function GenAfter(s: State, t: TaskId, d: ChanId): (g: nat)
    requires t in s.tasks && d in s.chans
  {
    if s.tasks[t].chan == d && s.tasks[t].pc.SetDirty? && s.inode.Some? then s.inode.value.gen + 1 else s.chans[d].gen
  }

  ghost predicate ChanEffect(s: State, s': State, t: TaskId)
    requires t in s.tasks
  {
    && s.chans.Keys <= s'.chans.Keys
    && (forall d :: d in s'.chans ==>
          if d in s.chans then
            && s'.chans[d].fate == FateAfter(s, s', t, d) && s'.chans[d].gen == GenAfter(s, t, d)
            && SameBase(s.chans[d], s'.chans[d]) && HookEffect(s, t, d, s.chans[d], s'.chans[d])
          else s.tasks[t].pc.Setup? && s'.chans[d].fate.Undecided? && s'.chans[d].gen == 0 && !s'.chans[d].Handled())
  }

  /** A hook that is set stays, unless the task fulfils it; and only registering a channel gives it a handle. */
  predicate HookEffect(s: State, t: TaskId, d: ChanId, a: Chan, b: Chan)
    requires t in s.tasks
  {
    var k := s.tasks[t];
    && (a.hook.Some? ==> b.hook == a.hook || (k.chan == d && (k.pc.FulfilEarly? || k.pc.FulfilDone?))
                         || (k.pc.FulfilOld? && k.pc.stale == d))
    && (b.Handled() ==> a.Handled() || ((k.pc.Bump? || k.pc.Insert?) && k.chan == d))
  }

  /** Early fulfilment follows on a terminal channel; a reopen waits for the hook it finds, and until it is gone; and a
      revert comes after a second attempt, or when there is no upload to retry with. */
  ghost predicate WaitEffect(s: State, s': State, t: TaskId)
    requires t in s.tasks && t in s'.tasks
  {
    var k, pc' := s.tasks[t], s'.tasks[t].pc;
    && (pc'.FulfilEarly? ==> k.pc.CheckTerminal? && k.chan in s.chans && s.chans[k.chan].Terminal())
    && (k.pc.AwaitPending? && s.pending.Some? ==> pc' == WaitHook(s.pending.value))
    && (pc'.WaitHook? ==> k.pc.AwaitPending? && s.pending == Some(pc'.hook))
    && (k.pc.WaitHook? ==> !(k.pc.hook.chan in s.chans && s.chans[k.pc.hook.chan].hook == Some(k.pc.hook)))
    && (pc'.Revert? ==>
          && k.chan in s.chans
          && ((k.pc.RetryCheck? && s.chans[k.chan].pendingInfo.None?) || (k.pc.Commit? && k.pc.retry)))
  }

  /** What a revert would go back to is the same. */
  predicate SameBase(a: Chan, b: Chan) {
    a.snapshot == b.snapshot && a.existedBefore == b.existedBefore
  }

  /** A reopen takes over what the active writer would go back to; without one it takes what the inode has.  Then the new
      channel gets it. */
  ghost predicate SetupEffect(s: State, s': State, t: TaskId)
    requires t in s.tasks && t in s'.tasks
  {
    var k, k' := s.tasks[t], s'.tasks[t];
    && (k'.pc.Setup? ==>
          && k.job.Reopen? && k.pc.Guard? && s.inode.Some?
          && match k'.pc.active
             case None =>
               (forall d :: d in s.chans ==> !Active(s, d)) && k'.pc.existedBefore && k'.pc.snapshot == s.inode.value.hash
             case Some(a) =>
               Active(s, a) && k'.pc.existedBefore == s.chans[a].existedBefore && k'.pc.snapshot == s.chans[a].snapshot)
    && (k.pc.Setup? && k'.pc.FailOld? ==>
          && k'.chan in s'.chans && k'.chan !in s.chans
          && s'.chans[k'.chan].existedBefore == k.pc.existedBefore && s'.chans[k'.chan].snapshot == k.pc.snapshot)
    && (k'.pc.FailOld? ==> k.pc.Setup?)
    && (k'.pc.FulfilOld? ==> k.pc.FailOld?)
    && (k'.pc.SetDirty? ==> k.pc.FailOld? || k.pc.FulfilOld?)
  }

  /** Only reading the path leads to the AddFile, with that path; only an accepted AddFile, to the apply; and only a
      channel that cannot be committed is skipped. */
  ghost predicate PcEffect(s: State, s': State, t: TaskId)
    requires t in s.tasks
  {
    var k := s.tasks[t];
    && (Sending(s', t) ==>
          k.pc.Commit? && k.pc.at.ReadPath? && s.inode.Some? && s'.tasks[t].pc.at.path == s.inode.value.path)
    && (Accepting(s, s', t) ==> k.pc.at.path in s'.remote && s'.remote[k.pc.at.path] == k.pc.at.info)
    && (Skipping(s, s', t) ==> k.chan in s.chans && !Committable(s, k.chan))
  }

  ghost predicate Effect(s: State, s': State, t: TaskId) {
    MovesOnly(s, s', t) && InodeEffect(s, s', t) && ChanEffect(s, s', t) && PcEffect(s, s', t) && SetupEffect(s, s', t)
    && WaitEffect(s, s', t)
  }

  predicate PlainPcs(pc: Pc, pc': Pc) {
    && !pc'.Setup? && !pc'.FailOld? && (pc'.FulfilOld? ==> pc.FailOld?) && (pc'.SetDirty? ==> pc.FailOld? || pc.FulfilOld?)
  }

  /** A step that touches no fate, no generation and no inode, and leads to no AddFile. */
  lemma PlainEffect(s: State, s': State, t: TaskId)
    requires MovesOnly(s, s', t) && s'.inode == s.inode && s'.chans.Keys == s.chans.Keys
    requires forall d :: d in s.chans ==>
               && s'.chans[d].fate == s.chans[d].fate && s'.chans[d].gen == s.chans[d].gen
               && SameBase(s.chans[d], s'.chans[d]) && HookEffect(s, t, d, s.chans[d], s'.chans[d])
    requires PlainPcs(s.tasks[t].pc, s'.tasks[t].pc) && WaitEffect(s, s', t)
    requires var pc := s.tasks[t].pc; !pc.Revert? && !pc.SetDirty? && (pc.Commit? ==> !pc.at.Apply? && !Skipping(s, s', t))
    requires !s'.tasks[t].pc.Commit? || (!s'.tasks[t].pc.at.SendAdd? && !s'.tasks[t].pc.at.Apply?)
    ensures Effect(s, s', t)
  {
  }

  /** The same for a step to `pc` from a state `s1` that differs in hooks, remote, locks and one channel. */
  lemma GoEffect(s: State, s1: State, t: TaskId, pc: Pc, c: ChanId)
    requires t in s.tasks && s1.tasks == s.tasks && s1.inode == s.inode
    requires s1.chans == s.chans || (c in s.chans && c in s1.chans && s1.chans == s.chans[c := s1.chans[c]]
                                     && s1.chans[c].fate == s.chans[c].fate && s1.chans[c].gen == s.chans[c].gen
                                     && SameBase(s.chans[c], s1.chans[c]) && HookEffect(s, t, c, s.chans[c], s1.chans[c]))
    requires PlainPcs(s.tasks[t].pc, pc) && WaitEffect(s, Goto(s1, t, pc), t)
    requires !s.tasks[t].pc.Revert? && !s.tasks[t].pc.SetDirty? && (s.tasks[t].pc.Commit? ==> !s.tasks[t].pc.at.Apply?)
    requires s.tasks[t].pc.Commit? && s.tasks[t].pc.at.CheckOwner? ==> !pc.MarkCommitted?
    requires !pc.Commit? || (!pc.at.SendAdd? && !pc.at.Apply?)
    ensures Effect(s, Goto(s1, t, pc), t)
  {
    PlainEffect(s, Goto(s1, t, pc), t);
  }

  // ---- The sections of a commit ----

  /** No section of a reopen's set-up. */
  predicate Onward(pc: Pc) {
    !pc.Setup? && !pc.FailOld? && !pc.FulfilOld? && !pc.SetDirty? && !pc.FulfilEarly? && !pc.WaitHook?
  }

  /** Where a commit leads when it is over. */
  ghost predicate Exits(retry: bool, good: Pc, bad: Pc) {
    good.MarkCommitted? && !bad.Commit? && !bad.MarkCommitted? && Onward(bad)
    && (bad.Revert? ==> retry)
  }

  lemma CommitEffect(s: State, t: TaskId, ch: Choice, good: Pc, bad: Pc)
    requires t in s.tasks && s.tasks[t].chan in s.chans && s.tasks[t].pc.Commit? && Exits(s.tasks[t].pc.retry, good, bad)
    requires CommitStep(s, t, ch, good, bad).Some?
    ensures Effect(s, CommitStep(s, t, ch, good, bad).value, t)
  {
    match s.tasks[t].pc.at
    case CheckOwner => CheckEffect(s, t, ch, good, bad);
    case Flip => FlipEffect(s, t, ch, good, bad);
    case TakeInfo => TakeEffect(s, t, ch, good, bad);
    case SendFinish => FinishEffect(s, t, ch, good, bad);
    case AwaitReply => ReplyEffect(s, t, ch, good, bad);
    case ReadPath(_) => ReadEffect(s, t, ch, good, bad);
    case SendAdd(_, _) => SendEffect(s, t, ch, good, bad);
    case Apply(_) => ApplyEffect(s, t, ch, good, bad);
    case SetDone => DoneEffect(s, t, ch, good, bad);
  }

  lemma CheckEffect(s: State, t: TaskId, ch: Choice, good: Pc, bad: Pc)
    requires t in s.tasks && s.tasks[t].chan in s.chans && s.tasks[t].pc.Commit? && Exits(s.tasks[t].pc.retry, good, bad)
    requires s.tasks[t].pc.at.CheckOwner? && CommitStep(s, t, ch, good, bad).Some?
    ensures Effect(s, CommitStep(s, t, ch, good, bad).value, t)
  {
  }

  lemma FlipEffect(s: State, t: TaskId, ch: Choice, good: Pc, bad: Pc)
    requires t in s.tasks && s.tasks[t].chan in s.chans && s.tasks[t].pc.Commit? && Exits(s.tasks[t].pc.retry, good, bad)
    requires s.tasks[t].pc.at.Flip? && CommitStep(s, t, ch, good, bad).Some?
    ensures Effect(s, CommitStep(s, t, ch, good, bad).value, t)
  {
    var c, retry := s.tasks[t].chan, s.tasks[t].pc.retry;
    GoEffect(s, if s.chans[c].InFlight() then SetState(s, c, Committing) else s, t, Commit(TakeInfo, retry), c);
  }

  lemma TakeEffect(s: State, t: TaskId, ch: Choice, good: Pc, bad: Pc)
    requires t in s.tasks && s.tasks[t].chan in s.chans && s.tasks[t].pc.Commit? && Exits(s.tasks[t].pc.retry, good, bad)
    requires s.tasks[t].pc.at.TakeInfo? && CommitStep(s, t, ch, good, bad).Some?
    ensures Effect(s, CommitStep(s, t, ch, good, bad).value, t)
  {
    var c, retry := s.tasks[t].chan, s.tasks[t].pc.retry;
    if s.chans[c].pendingInfo.Some? {
      GoEffect(s, s.(chans := s.chans[c := s.chans[c].(pendingInfo := None)]), t,
               Commit(ReadPath(s.chans[c].pendingInfo.value), retry), c);
    } else {
      GoEffect(s, s, t, Commit(SendFinish, retry), c);
    }
  }

  lemma FinishEffect(s: State, t: TaskId, ch: Choice, good: Pc, bad: Pc)
    requires t in s.tasks && s.tasks[t].chan in s.chans && s.tasks[t].pc.Commit? && Exits(s.tasks[t].pc.retry, good, bad)
    requires s.tasks[t].pc.at.SendFinish? && CommitStep(s, t, ch, good, bad).Some?
    ensures Effect(s, CommitStep(s, t, ch, good, bad).value, t)
  {
    var c, retry := s.tasks[t].chan, s.tasks[t].pc.retry;
    if s.chans[c].running {
      GoEffect(s, s.(chans := s.chans[c := s.chans[c].(queue := s.chans[c].queue + [Finish(t)])]), t,
               Commit(AwaitReply, retry), c);
    } else {
      GoEffect(s, s, t, if s.chans[c].state.Committed? then good else bad, c);
    }
  }

  lemma ReplyEffect(s: State, t: TaskId, ch: Choice, good: Pc, bad: Pc)
    requires t in s.tasks && s.tasks[t].chan in s.chans && s.tasks[t].pc.Commit? && Exits(s.tasks[t].pc.retry, good, bad)
    requires s.tasks[t].pc.at.AwaitReply? && CommitStep(s, t, ch, good, bad).Some?
    ensures Effect(s, CommitStep(s, t, ch, good, bad).value, t)
  {
    if s.chans[s.tasks[t].chan].reply.value.Uploaded? {
      UploadedEffect(s, t, ch, good, bad);
    } else {
      UploadFailedEffect(s, t, ch, good, bad);
    }
  }

  lemma UploadedEffect(s: State, t: TaskId, ch: Choice, good: Pc, bad: Pc)
    requires t in s.tasks && s.tasks[t].chan in s.chans && s.tasks[t].pc.Commit? && Exits(s.tasks[t].pc.retry, good, bad)
    requires s.tasks[t].pc.at.AwaitReply? && CommitStep(s, t, ch, good, bad).Some?
    requires s.chans[s.tasks[t].chan].reply.value.Uploaded?
    ensures Effect(s, CommitStep(s, t, ch, good, bad).value, t)
  {
    var c := s.tasks[t].chan;
    var s1 := s.(chans := s.chans[c := s.chans[c].(reply := None)]);
    GoEffect(s, s1, t, Commit(ReadPath(s.chans[c].reply.value.content), s.tasks[t].pc.retry), c);
  }

  lemma UploadFailedEffect(s: State, t: TaskId, ch: Choice, good: Pc, bad: Pc)
    requires t in s.tasks && s.tasks[t].chan in s.chans && s.tasks[t].pc.Commit? && Exits(s.tasks[t].pc.retry, good, bad)
    requires s.tasks[t].pc.at.AwaitReply? && CommitStep(s, t, ch, good, bad).Some?
    requires s.chans[s.tasks[t].chan].reply.value.UploadFailed?
    ensures Effect(s, CommitStep(s, t, ch, good, bad).value, t)
  {
    var c := s.tasks[t].chan;
    var s1 := s.(chans := s.chans[c := s.chans[c].(reply := None)]);
    GoEffect(s, s1, t, bad, c);
  }

  lemma ReadEffect(s: State, t: TaskId, ch: Choice, good: Pc, bad: Pc)
    requires t in s.tasks && s.tasks[t].chan in s.chans && s.tasks[t].pc.Commit? && Exits(s.tasks[t].pc.retry, good, bad)
    requires s.tasks[t].pc.at.ReadPath? && CommitStep(s, t, ch, good, bad).Some?
    ensures Effect(s, CommitStep(s, t, ch, good, bad).value, t)
  {
  }

  lemma SendEffect(s: State, t: TaskId, ch: Choice, good: Pc, bad: Pc)
    requires t in s.tasks && s.tasks[t].chan in s.chans && s.tasks[t].pc.Commit? && Exits(s.tasks[t].pc.retry, good, bad)
    requires s.tasks[t].pc.at.SendAdd? && CommitStep(s, t, ch, good, bad).Some?
    ensures Effect(s, CommitStep(s, t, ch, good, bad).value, t)
  {
    if ch.ok {
      AcceptEffect(s, t, ch, good, bad);
    } else {
      var c, s' := s.tasks[t].chan, CommitStep(s, t, ch, good, bad).value;
      GoEffect(s, s.(remote := s'.remote, chans := s.chans[c := s.chans[c].(pendingInfo := Some(s.tasks[t].pc.at.info))]),
               t, bad, c);
    }
  }

  lemma AcceptEffect(s: State, t: TaskId, ch: Choice, good: Pc, bad: Pc)
    requires t in s.tasks && s.tasks[t].chan in s.chans && s.tasks[t].pc.Commit? && Exits(s.tasks[t].pc.retry, good, bad)
    requires s.tasks[t].pc.at.SendAdd? && ch.ok && CommitStep(s, t, ch, good, bad).Some?
    ensures Effect(s, CommitStep(s, t, ch, good, bad).value, t)
  {
  }

  lemma ApplyEffect(s: State, t: TaskId, ch: Choice, good: Pc, bad: Pc)
    requires t in s.tasks && s.tasks[t].chan in s.chans && s.tasks[t].pc.Commit? && Exits(s.tasks[t].pc.retry, good, bad)
    requires s.tasks[t].pc.at.Apply? && CommitStep(s, t, ch, good, bad).Some?
    ensures Effect(s, CommitStep(s, t, ch, good, bad).value, t)
  {
  }

  lemma DoneEffect(s: State, t: TaskId, ch: Choice, good: Pc, bad: Pc)
    requires t in s.tasks && s.tasks[t].chan in s.chans && s.tasks[t].pc.Commit? && Exits(s.tasks[t].pc.retry, good, bad)
    requires s.tasks[t].pc.at.SetDone? && CommitStep(s, t, ch, good, bad).Some?
    ensures Effect(s, CommitStep(s, t, ch, good, bad).value, t)
  {
    GoEffect(s, SetState(s, s.tasks[t].chan, Committed), t, good, s.tasks[t].chan);
  }

  // ---- The jobs ----

  lemma LockEffect(s: State, t: TaskId, next: Pc)
    requires t in s.tasks && LockPc(s.tasks[t].pc) && LockStep(s, t, next).Some? && !next.Commit? && Onward(next) && !next.Revert?
    ensures Effect(s, LockStep(s, t, next).value, t)
  {
    PlainEffect(s, LockStep(s, t, next).value, t);
  }

  lemma InstallEffect(s: State, t: TaskId, next: Pc)
    requires t in s.tasks && s.tasks[t].chan in s.chans && (next.Commit? ==> next.at.CheckOwner?) && Onward(next) && !next.Revert?
    requires s.tasks[t].pc.Install? || s.tasks[t].pc.CheckTerminal? || s.tasks[t].pc.FulfilEarly?
    ensures Effect(s, InstallStep(s, t, next).value, t)
  {
    var c := s.tasks[t].chan;
    match s.tasks[t].pc
    case Install => GoEffect(s, InstallHook(s, c), t, CheckTerminal, c);
    case CheckTerminal => GoEffect(s, s, t, if s.chans[c].Terminal() then FulfilEarly else next, c);
    case FulfilEarly => GoEffect(s, FulfilHook(s, c), t, next, c);
  }

  lemma DeferEffect(s: State, t: TaskId)
    requires t in s.tasks && s.tasks[t].chan in s.chans && DeferStep(s, t).Some?
    ensures Effect(s, DeferStep(s, t).value, t)
  {
    if s.tasks[t].pc.Demote? {
      PlainEffect(s, DeferStep(s, t).value, t);
    } else {
      InstallEffect(s, t, Demote);
    }
  }

  lemma NowEffect(s: State, t: TaskId, ch: Choice)
    requires t in s.tasks && s.tasks[t].chan in s.chans && CommitNowStep(s, t, ch).Some?
    ensures Effect(s, CommitNowStep(s, t, ch).value, t)
  {
    var pc := s.tasks[t].pc;
    if pc.Commit? {
      CommitEffect(s, t, ch, MarkCommitted, ReleaseLock);
    } else if pc.Install? || pc.CheckTerminal? || pc.FulfilEarly? {
      InstallEffect(s, t, Commit(CheckOwner, false));
    } else if LockPc(pc) {
      LockEffect(s, t, Done);
    } else {
      NowEndEffect(s, t, ch);
    }
  }

  lemma NowEndEffect(s: State, t: TaskId, ch: Choice)
    requires t in s.tasks && s.tasks[t].chan in s.chans && CommitNowStep(s, t, ch).Some?
    requires s.tasks[t].pc.Guard? || s.tasks[t].pc.MarkCommitted? || s.tasks[t].pc.FulfilDone?
    ensures Effect(s, CommitNowStep(s, t, ch).value, t)
  {
    var c := s.tasks[t].chan;
    match s.tasks[t].pc
    case Guard => GoEffect(s, s, t, if !ch.ok || s.chans[c].Terminal() then ReleaseLock else Install, c);
    case MarkCommitted => GoEffect(s, SetState(s, c, Committed), t, FulfilDone, c);
    case FulfilDone => GoEffect(s, FulfilHook(s, c), t, ReleaseLock, c);
  }

  lemma ReleaseEffect(s: State, t: TaskId, ch: Choice)
    requires t in s.tasks && s.tasks[t].chan in s.chans && ReleaseStep(s, t, ch).Some?
    ensures Effect(s, ReleaseStep(s, t, ch).value, t)
  {
    var pc := s.tasks[t].pc;
    if pc.Commit? {
      CommitEffect(s, t, ch, MarkCommitted, if pc.retry then Revert else RetryCheck);
    } else if pc.Install? || pc.CheckTerminal? || pc.FulfilEarly? {
      InstallEffect(s, t, Recheck);
    } else if LockPc(pc) {
      LockEffect(s, t, Close);
    } else if pc.Recheck? || pc.Guard? || pc.RetryCheck? {
      ReleaseCheckEffect(s, t, ch);
    } else {
      ReleaseEndEffect(s, t, ch);
    }
  }

  lemma ReleaseCheckEffect(s: State, t: TaskId, ch: Choice)
    requires t in s.tasks && s.tasks[t].chan in s.chans && ReleaseStep(s, t, ch).Some?
    requires s.tasks[t].pc.Recheck? || s.tasks[t].pc.Guard? || s.tasks[t].pc.RetryCheck?
    ensures Effect(s, ReleaseStep(s, t, ch).value, t)
  {
    PlainEffect(s, ReleaseStep(s, t, ch).value, t);
  }

  lemma ReleaseEndEffect(s: State, t: TaskId, ch: Choice)
    requires t in s.tasks && s.tasks[t].chan in s.chans && ReleaseStep(s, t, ch).Some?
    requires var pc := s.tasks[t].pc;
             pc.MarkCommitted? || pc.Revert? || pc.MarkFailed? || pc.FulfilDone? || pc.Close? || pc.Reap? || pc.ForgetLock?
    ensures Effect(s, ReleaseStep(s, t, ch).value, t)
  {
    var pc := s.tasks[t].pc;
    if pc.MarkCommitted? || pc.MarkFailed? || pc.FulfilDone? {
      ReleaseMarkEffect(s, t, ch);
    } else if pc.Close? {
      ReleaseCloseEffect(s, t, ch);
    } else if pc.ForgetLock? {
      ReleaseForgetEffect(s, t, ch);
    } else {
      ReleaseInodeEffect(s, t, ch);
    }
  }

  lemma ReleaseMarkEffect(s: State, t: TaskId, ch: Choice)
    requires t in s.tasks && s.tasks[t].chan in s.chans && ReleaseStep(s, t, ch).Some?
    requires s.tasks[t].pc.MarkCommitted? || s.tasks[t].pc.MarkFailed? || s.tasks[t].pc.FulfilDone?
    ensures Effect(s, ReleaseStep(s, t, ch).value, t)
  {
    var c := s.tasks[t].chan;
    match s.tasks[t].pc
    case MarkCommitted => GoEffect(s, SetState(s, c, Committed), t, FulfilDone, c);
    case MarkFailed => GoEffect(s, SetState(s, c, Failed), t, FulfilDone, c);
    case FulfilDone => GoEffect(s, FulfilHook(s, c), t, ReleaseLock, c);
  }

  lemma ReleaseCloseEffect(s: State, t: TaskId, ch: Choice)
    requires t in s.tasks && s.tasks[t].chan in s.chans && ReleaseStep(s, t, ch).Some? && s.tasks[t].pc.Close?
    ensures Effect(s, ReleaseStep(s, t, ch).value, t)
  {
    GoEffect(s, SetPhase(s, s.tasks[t].chan, Closed), t, Reap, s.tasks[t].chan);
  }

  lemma ReleaseForgetEffect(s: State, t: TaskId, ch: Choice)
    requires t in s.tasks && s.tasks[t].chan in s.chans && ReleaseStep(s, t, ch).Some? && s.tasks[t].pc.ForgetLock?
    ensures Effect(s, ReleaseStep(s, t, ch).value, t)
  {
    GoEffect(s, s.(locks := Forget(s.locks)), t, Done, s.tasks[t].chan);
  }

  lemma ReleaseInodeEffect(s: State, t: TaskId, ch: Choice)
    requires t in s.tasks && s.tasks[t].chan in s.chans && ReleaseStep(s, t, ch).Some?
    requires s.tasks[t].pc.Revert? || s.tasks[t].pc.Reap?
    ensures Effect(s, ReleaseStep(s, t, ch).value, t)
  {
  }

  lemma ReopenEffect(s: State, t: TaskId, ch: Choice)
    requires t in s.tasks && s.tasks[t].job.Reopen? && ReopenStep(s, t, ch).Some?
    ensures Effect(s, ReopenStep(s, t, ch).value, t)
  {
    var pc := s.tasks[t].pc;
    if LockPc(pc) {
      LockEffect(s, t, Done);
    } else if pc.Guard? {
      ReopenGuardEffect(s, t, ch);
    } else if pc.SetDirty? || pc.Setup? {
      ReopenMarkEffect(s, t, ch);
    } else if pc.AwaitPending? || pc.WaitHook? {
      ReopenWaitEffect(s, t, ch);
    } else {
      ReopenChanEffect(s, t, ch);
    }
  }

  lemma ReopenWaitEffect(s: State, t: TaskId, ch: Choice)
    requires t in s.tasks && s.tasks[t].job.Reopen? && ReopenStep(s, t, ch).Some?
    requires s.tasks[t].pc.AwaitPending? || s.tasks[t].pc.WaitHook?
    ensures Effect(s, ReopenStep(s, t, ch).value, t)
  {
    GoEffect(s, s, t, ReopenStep(s, t, ch).value.tasks[t].pc, 0);
  }

  lemma ReopenChanEffect(s: State, t: TaskId, ch: Choice)
    requires t in s.tasks && s.tasks[t].job.Reopen? && ReopenStep(s, t, ch).Some?
    requires var pc := s.tasks[t].pc; pc.FailOld? || pc.FulfilOld? || pc.Bump? || pc.Insert?
    ensures Effect(s, ReopenStep(s, t, ch).value, t)
  {
    var c := s.tasks[t].chan;
    match s.tasks[t].pc
    case FailOld(active) =>
      if active.None? {
        GoEffect(s, s, t, SetDirty, c);
      } else {
        GoEffect(s, SetState(s, active.value, Failed), t, FulfilOld(active.value), active.value);
      }
    case FulfilOld(d) => GoEffect(s, FulfilHook(s, d), t, SetDirty, d);
    case Bump => GoEffect(s, SetPhase(s, c, Counted), t, Insert, c);
    case Insert => GoEffect(s, SetPhase(s, c, Open), t, ReleaseLock, c);
  }

  lemma ReopenMarkEffect(s: State, t: TaskId, ch: Choice)
    requires t in s.tasks && s.tasks[t].job.Reopen? && ReopenStep(s, t, ch).Some?
    requires s.tasks[t].pc.SetDirty? || s.tasks[t].pc.Setup?
    ensures Effect(s, ReopenStep(s, t, ch).value, t)
  {
    if s.tasks[t].pc.SetDirty? {
      ReopenDirtyEffect(s, t, ch);
    } else {
      ReopenSetupEffect(s, t, ch);
    }
  }

  lemma ReopenDirtyEffect(s: State, t: TaskId, ch: Choice)
    requires t in s.tasks && s.tasks[t].job.Reopen? && ReopenStep(s, t, ch).Some? && s.tasks[t].pc.SetDirty?
    ensures Effect(s, ReopenStep(s, t, ch).value, t)
  {
  }

  lemma ReopenSetupEffect(s: State, t: TaskId, ch: Choice)
    requires t in s.tasks && s.tasks[t].job.Reopen? && ReopenStep(s, t, ch).Some? && s.tasks[t].pc.Setup?
    ensures Effect(s, ReopenStep(s, t, ch).value, t)
  {
    assert MovesOnly(s, ReopenStep(s, t, ch).value, t);
  }

  lemma ReopenGuardEffect(s: State, t: TaskId, ch: Choice)
    requires t in s.tasks && s.tasks[t].job.Reopen? && ReopenStep(s, t, ch).Some? && s.tasks[t].pc.Guard?
    ensures Effect(s, ReopenStep(s, t, ch).value, t)
  {
    assert MovesOnly(s, ReopenStep(s, t, ch).value, t);
  }

  lemma UnlinkEffect(s: State, t: TaskId, ch: Choice)
    requires t in s.tasks && UnlinkStep(s, t, ch).Some?
    ensures Effect(s, UnlinkStep(s, t, ch).value, t)
  {
    match s.tasks[t].pc
    case Guard => GoEffect(s, s, t, UnlinkStep(s, t, ch).value.tasks[t].pc, 0);
    case UnlinkRemote(_) =>
      var s' := UnlinkStep(s, t, ch).value;
      GoEffect(s, s.(remote := s'.remote), t, s'.tasks[t].pc, 0);
    case UnlinkLocal => UnlinkLocalEffect(s, t, ch);
    case ForgetLock => GoEffect(s, s.(locks := Forget(s.locks)), t, Done, 0);
    case _ => LockEffect(s, t, ForgetLock);
  }

  lemma UnlinkLocalEffect(s: State, t: TaskId, ch: Choice)
    requires t in s.tasks && UnlinkStep(s, t, ch).Some? && s.tasks[t].pc.UnlinkLocal?
    ensures Effect(s, UnlinkStep(s, t, ch).value, t)
  {
  }

  lemma TaskEffect(s: State, t: TaskId, ch: Choice)
    requires t in s.tasks && TaskStep(s, t, ch).Some?
    ensures Effect(s, TaskStep(s, t, ch).value, t)
  {
    match s.tasks[t].job
    case Defer => DeferEffect(s, t);
    case CommitNow => NowEffect(s, t, ch);
    case Release => ReleaseEffect(s, t, ch);
    case Reopen => ReopenEffect(s, t, ch);
    case Unlink => UnlinkEffect(s, t, ch);
  }

  // ---- Steps of the environment ----

  /** Where a task can start. */
  predicate Starting(pc: Pc) {
    pc.Install? || pc.GetLock? || pc.Close? || pc.AwaitPending?
  }

  /** No other step moves a task, decides a fate or marks the inode. */
  ghost predicate OutsideEffect(s: State, s': State) {
    && (forall t :: t in s.tasks ==> t in s'.tasks && s'.tasks[t] == s.tasks[t])
    && (forall t :: t in s'.tasks && t !in s.tasks ==> Starting(s'.tasks[t].pc))
    && s'.chans.Keys == s.chans.Keys
    && (forall d :: d in s.chans ==>
          s'.chans[d].fate == s.chans[d].fate && s'.chans[d].gen == s.chans[d].gen && SameBase(s.chans[d], s'.chans[d])
          && s'.chans[d].hook == s.chans[d].hook && (s'.chans[d].Handled() ==> s.chans[d].Handled()))
    && (s'.inode.Some? ==> s.inode.Some? && s'.inode.value.gen == s.inode.value.gen)
  }

  lemma ActEffect(s: State, a: Action)
    requires !a.Run? && Act(s, a).Some?
    ensures OutsideEffect(s, Act(s, a).value)
  {
    if a.StartFlush? || a.StartRelease? || a.StartReopen? || a.StartUnlink? {
      StartEffect(s, a);
    } else if a.Write? {
      WriteEffect(s, a);
    } else if a.Work? {
      WorkEffect(s, a);
    }
  }

  lemma StartEffect(s: State, a: Action)
    requires (a.StartFlush? || a.StartRelease? || a.StartReopen? || a.StartUnlink?) && Act(s, a).Some?
    ensures OutsideEffect(s, Act(s, a).value)
  {
  }

  lemma WriteEffect(s: State, a: Action)
    requires a.Write? && Act(s, a).Some?
    ensures OutsideEffect(s, Act(s, a).value)
  {
  }

  lemma WorkEffect(s: State, a: Action)
    requires a.Work? && Act(s, a).Some?
    ensures OutsideEffect(s, Act(s, a).value)
  {
  }

  /** Every step is one of the two. */
  lemma StepEffect(s: State, s': State)
    requires Step(s, s')
    ensures OutsideEffect(s, s') || exists t :: Effect(s, s', t)
  {
    var a :| Act(s, a) == Some(s');
    if a.Run? {
      TaskEffect(s, a.task, a.choice);
    } else {
      ActEffect(s, a);
    }
  }
}
