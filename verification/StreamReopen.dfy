/** The O_TRUNC reopen, unlink and the environment keep the invariant; so does every run. */
module StreamReopen {
  import opened Prelude
  import opened StagingLocks
  import opened Streaming
  import opened StreamInv
  import opened StreamSteps
  import opened StreamCommit

  // ---- Reopen ----

  lemma ReopenUnmissed(s: State, t: TaskId, k': Task, d: ChanId)
    requires Inv(s) && t in s.tasks && s.tasks[t].job.Reopen? && d in s.chans
    requires s.tasks[t].pc != FulfilOld(d)
    ensures Unmissed(s.chans[d], d, t, s.tasks[t], k')
  {
    assert ChanOk(s, d);
  }

  lemma ReopenMove(s: State, t: TaskId, pc: Pc)
    requires Inv(s) && t in s.tasks && s.tasks[t].job.Reopen? && !s.tasks[t].pc.FulfilOld?
    requires SameHold(s.tasks[t], s.tasks[t].(pc := pc)) && JobOk(s, t, s.tasks[t].(pc := pc))
    ensures Inv(Goto(s, t, pc))
  {
    forall d | d in s.chans
      ensures Unmissed(s.chans[d], d, t, s.tasks[t], s.tasks[t].(pc := pc))
    {
      ReopenUnmissed(s, t, s.tasks[t].(pc := pc), d);
    }
    MoveInv(s, t, s.tasks[t].(pc := pc));
  }

  /** The reopen changes one channel: its own new one, or the one it supersedes. */
  lemma ReopenChange(s: State, s': State, t: TaskId, c: ChanId)
    requires Inv(s) && t in s.tasks && s.tasks[t].job.Reopen? && Replaced(s, s', t, c)
    requires s.tasks[t].pc.FulfilOld? ==> s.tasks[t].pc.stale == c
    requires InCrit(s.tasks[t]) && SameHold(s.tasks[t], s'.tasks[t])
    requires Gentle(s.chans[c], s'.chans[c], t, true)
    requires JobOk(s', t, s'.tasks[t]) && ChanOk(s', c) && PendingOk(s')
    ensures Inv(s')
  {
    forall d | d in s.chans && d != c
      ensures Unmissed(s.chans[d], d, t, s.tasks[t], s'.tasks[t])
    {
      ReopenUnmissed(s, t, s'.tasks[t], d);
    }
    ChangeInv(s, s', t, c);
  }

  lemma ReopenGuardInv(s: State, t: TaskId, ch: Choice)
    requires Inv(s) && t in s.tasks && s.tasks[t].job.Reopen? && s.tasks[t].pc.Guard? && ReopenStep(s, t, ch).Some?
    ensures Inv(ReopenStep(s, t, ch).value)
  {
    assert TaskOk(s, t);
    if s.inode.None? {
      ReopenMove(s, t, ReleaseLock);
    } else if Active(s, ch.chan) {
      ReopenMove(s, t, Setup(Some(ch.chan), s.chans[ch.chan].existedBefore, s.chans[ch.chan].snapshot));
    } else {
      ReopenMove(s, t, Setup(None, true, s.inode.value.hash));
    }
  }

  /** A new channel, which nobody knows yet. */
  lemma SetupInv(s: State, t: TaskId, ch: Choice)
    requires Inv(s) && t in s.tasks && s.tasks[t].job.Reopen? && s.tasks[t].pc.Setup? && ReopenStep(s, t, ch).Some?
    ensures Inv(ReopenStep(s, t, ch).value)
  {
    assert TaskOk(s, t);
    if !ch.ok {
      ReopenMove(s, t, ReleaseLock);
    } else {
      NewChanInv(s, ReopenStep(s, t, ch).value, t, ch.chan);
    }
  }

  lemma NewChanInv(s: State, s': State, t: TaskId, n: ChanId)
    requires Inv(s) && t in s.tasks && s.tasks[t].job.Reopen? && s.tasks[t].pc.Setup? && n !in s.chans
    requires s' == s.(chans := s.chans[n := NewChan(0, s.tasks[t].pc.existedBefore, s.tasks[t].pc.snapshot)],
                      tasks := s.tasks[t := Task(Reopen, n, FailOld(s.tasks[t].pc.active))])
    ensures Inv(s')
  {
    assert TaskOk(s, t);
    assert TaskOk(s', t);
    forall u | u in s.tasks && u != t
      ensures TaskOk(s', u)
    {
      NewChanRely(s, s', t, n, u);
      OthersKeep(s, s', u);
    }
    forall d | d in s.chans
      ensures ChanOk(s', d)
    {
      ReopenUnmissed(s, t, s'.tasks[t], d);
      UntouchedChan(s, s', t, d);
    }
    assert ChanOk(s', n);
  }

  lemma NewChanRely(s: State, s': State, t: TaskId, n: ChanId, u: TaskId)
    requires n !in s.chans && n in s'.chans && s'.chans == s.chans[n := s'.chans[n]]
    requires t in s.tasks && u in s.tasks && u != t && t in s'.tasks && s'.tasks == s.tasks[t := s'.tasks[t]]
    requires s'.locks == s.locks && s'.inode == s.inode && s'.dropped == s.dropped
    ensures Rely(s, s', u)
  {
  }

  lemma FailOldInv(s: State, t: TaskId, ch: Choice)
    requires Inv(s) && t in s.tasks && s.tasks[t].job.Reopen? && s.tasks[t].pc.FailOld? && ReopenStep(s, t, ch).Some?
    ensures Inv(ReopenStep(s, t, ch).value)
  {
    assert TaskOk(s, t);
    var active := s.tasks[t].pc.active;
    if active.None? {
      ReopenMove(s, t, SetDirty);
    } else {
      var a := active.value;
      var s' := ReopenStep(s, t, ch).value;
      FailedChan(s, s', t, a);
      ReopenChange(s, s', t, a);
    }
  }

  lemma FailedChan(s: State, s': State, t: TaskId, a: ChanId)
    requires Inv(s) && t in s.tasks && s.tasks[t].job.Reopen? && s.tasks[t].pc == FailOld(Some(a)) && a in s.chans
    requires s' == Goto(SetState(s, a, Failed), t, FulfilOld(a))
    ensures ChanOk(s', a)
  {
    assert TaskOk(s, t) && ChanOk(s, a);
    assert !AtReply(s, t, a);
    assert forall i :: 0 <= i < |s.chans[a].queue| ==> s.chans[a].queue[i] != Finish(t);
    StateContent(s.chans[a], Failed, t, s.tasks[t], s'.tasks[t], a);
    ContentChan(s, s', t, a);
  }

  lemma FulfilOldInv(s: State, t: TaskId, ch: Choice)
    requires Inv(s) && t in s.tasks && s.tasks[t].job.Reopen? && s.tasks[t].pc.FulfilOld? && ReopenStep(s, t, ch).Some?
    ensures Inv(ReopenStep(s, t, ch).value)
  {
    assert TaskOk(s, t);
    var d := s.tasks[t].pc.stale;
    var s' := ReopenStep(s, t, ch).value;
    assert ChanOk(s, d);
    FulfilShape(s, t, d);
    HookChan(s, s', t, d);
    ReopenChange(s, s', t, d);
  }

  lemma SetDirtyInv(s: State, t: TaskId, ch: Choice)
    requires Inv(s) && t in s.tasks && s.tasks[t].job.Reopen? && s.tasks[t].pc.SetDirty? && ReopenStep(s, t, ch).Some?
    ensures Inv(ReopenStep(s, t, ch).value)
  {
    assert TaskOk(s, t);
    var c := s.tasks[t].chan;
    if s.inode.None? {
      ReopenMove(s, t, Bump);
    } else {
      var gen := s.inode.value.gen + 1;
      var s1 := s.(chans := s.chans[c := s.chans[c].(gen := gen)]);
      GenChan(s, s1, t);
      ReopenChange(s, s1, t, c);
      DirtyInode(s1, t, Some(s.inode.value.(gen := gen, hash := None)));
    }
  }

  lemma GenChan(s: State, s': State, t: TaskId)
    requires Inv(s) && t in s.tasks && s.tasks[t].job.Reopen? && s.tasks[t].pc.SetDirty? && s.tasks[t].chan in s.chans
    requires s.tasks[t].chan in s'.chans
    requires s' == s.(chans := s.chans[s.tasks[t].chan := s'.chans[s.tasks[t].chan]])
    requires s'.chans[s.tasks[t].chan] == s.chans[s.tasks[t].chan].(gen := s'.chans[s.tasks[t].chan].gen)
    ensures ChanOk(s', s.tasks[t].chan) && JobOk(s', t, s'.tasks[t]) && PendingOk(s')
  {
    var c := s.tasks[t].chan;
    assert TaskOk(s, t) && ChanOk(s, c);
    assert FlowOk(s'.chans[c]);
  }

  lemma DirtyInode(s: State, t: TaskId, i': Option<Inode>)
    requires Inv(s) && t in s.tasks && s.tasks[t].job.Reopen? && s.tasks[t].pc.SetDirty? && s.tasks[t].chan in s.chans
    requires s.inode.Some? && i'.Some? && i'.value.linked == s.inode.value.linked && s.chans[s.tasks[t].chan].gen > 0
    ensures Inv(Goto(s.(inode := i'), t, Bump))
  {
    assert TaskOk(s, t);
    forall d | d in s.chans
      ensures Unmissed(s.chans[d], d, t, s.tasks[t], s.tasks[t].(pc := Bump))
    {
      ReopenUnmissed(s, t, s.tasks[t].(pc := Bump), d);
    }
    InodeMoveInv(s, i', t, s.tasks[t].(pc := Bump));
  }

  lemma RegisterInv(s: State, t: TaskId, p: Phase, pc: Pc)
    requires Inv(s) && t in s.tasks && s.tasks[t].job.Reopen? && s.tasks[t].chan in s.chans
    requires (s.tasks[t].pc.Bump? && p.Counted? && pc.Insert?) || (s.tasks[t].pc.Insert? && p.Open? && pc.ReleaseLock?)
    ensures Inv(Goto(SetPhase(s, s.tasks[t].chan, p), t, pc))
  {
    var c := s.tasks[t].chan;
    var s' := Goto(SetPhase(s, c, p), t, pc);
    assert TaskOk(s, t);
    RegisteredChan(s, s', t, p);
    ReopenChange(s, s', t, c);
  }

  lemma RegisteredChan(s: State, s': State, t: TaskId, p: Phase)
    requires Inv(s) && t in s.tasks && s.tasks[t].job.Reopen? && s.tasks[t].chan in s.chans
    requires (s.tasks[t].pc.Bump? && p.Counted?) || (s.tasks[t].pc.Insert? && p.Open?)
    requires t in s'.tasks && s' == Goto(SetPhase(s, s.tasks[t].chan, p), t, s'.tasks[t].pc)
    ensures ChanOk(s', s.tasks[t].chan) && PendingOk(s')
  {
    var c := s.tasks[t].chan;
    assert TaskOk(s, t) && ChanOk(s, c);
    assert FlowOk(s'.chans[c]);
    forall i | 0 <= i < |s.chans[c].queue| && s.chans[c].queue[i].Finish?
      ensures AtReply(s', s.chans[c].queue[i].task, c)
    {
      assert AtReply(s, s.chans[c].queue[i].task, c);
    }
  }

  lemma ReopenWaitInv(s: State, t: TaskId, ch: Choice)
    requires Inv(s) && t in s.tasks && s.tasks[t].job.Reopen? && ReopenStep(s, t, ch).Some?
    requires s.tasks[t].pc.AwaitPending? || s.tasks[t].pc.WaitHook?
    ensures Inv(ReopenStep(s, t, ch).value)
  {
    ReopenMove(s, t, if s.tasks[t].pc.AwaitPending? && s.pending.Some? then WaitHook(s.pending.value) else GetLock);
  }

  lemma ReopenInv(s: State, t: TaskId, ch: Choice)
    requires Inv(s) && t in s.tasks && s.tasks[t].job.Reopen? && ReopenStep(s, t, ch).Some?
    ensures Inv(ReopenStep(s, t, ch).value)
  {
    assert TaskOk(s, t);
    var pc := s.tasks[t].pc;
    match pc
    case AwaitPending => ReopenWaitInv(s, t, ch);
    case WaitHook(_) => ReopenWaitInv(s, t, ch);
    case Guard => ReopenGuardInv(s, t, ch);
    case Setup(_, _, _) => SetupInv(s, t, ch);
    case FailOld(_) => FailOldInv(s, t, ch);
    case FulfilOld(_) => FulfilOldInv(s, t, ch);
    case SetDirty => SetDirtyInv(s, t, ch);
    case Bump => RegisterInv(s, t, Counted, Insert);
    case Insert => RegisterInv(s, t, Open, ReleaseLock);
    case _ => LockStepInv(s, t, Done);
  }

  // ---- Unlink ----

  lemma UnlinkUnmissed(s: State, t: TaskId, k': Task, d: ChanId)
    requires Inv(s) && t in s.tasks && s.tasks[t].job.Unlink? && d in s.chans
    ensures Unmissed(s.chans[d], d, t, s.tasks[t], k')
  {
    assert ChanOk(s, d);
  }

  lemma UnlinkMove(s: State, t: TaskId, i': Option<Inode>, pc: Pc)
    requires Inv(s) && t in s.tasks && s.tasks[t].job.Unlink? && InCrit(s.tasks[t])
    requires pc.ReleaseLock? || pc.UnlinkRemote? || pc.UnlinkLocal?
    requires (s.inode.None? ==> i'.None?) && (s.dropped && i'.Some? ==> !i'.value.linked)
    ensures Inv(Goto(s.(inode := i'), t, pc))
  {
    assert TaskOk(s, t);
    forall d | d in s.chans
      ensures Unmissed(s.chans[d], d, t, s.tasks[t], s.tasks[t].(pc := pc))
    {
      UnlinkUnmissed(s, t, s.tasks[t].(pc := pc), d);
    }
    InodeMoveInv(s, i', t, s.tasks[t].(pc := pc));
  }

  lemma UnlinkBodyInv(s: State, t: TaskId, ch: Choice)
    requires Inv(s) && t in s.tasks && s.tasks[t].job.Unlink? && UnlinkStep(s, t, ch).Some?
    requires s.tasks[t].pc.Guard? || s.tasks[t].pc.UnlinkRemote? || s.tasks[t].pc.UnlinkLocal?
    ensures Inv(UnlinkStep(s, t, ch).value)
  {
    var pc, s' := s.tasks[t].pc, UnlinkStep(s, t, ch).value;
    assert s.(inode := s.inode) == s;
    match pc
    case Guard => UnlinkMove(s, t, s.inode, s'.tasks[t].pc);
    case UnlinkRemote(_) =>
      UnlinkMove(s, t, s.inode, s'.tasks[t].pc);
      RemoteInv(Goto(s, t, s'.tasks[t].pc), s'.remote);
    case UnlinkLocal => UnlinkMove(s, t, s'.inode, ReleaseLock);
  }

  lemma UnlinkInv(s: State, t: TaskId, ch: Choice)
    requires Inv(s) && t in s.tasks && s.tasks[t].job.Unlink? && UnlinkStep(s, t, ch).Some?
    ensures Inv(UnlinkStep(s, t, ch).value)
  {
    assert TaskOk(s, t);
    match s.tasks[t].pc
    case Guard => UnlinkBodyInv(s, t, ch);
    case UnlinkRemote(_) => UnlinkBodyInv(s, t, ch);
    case UnlinkLocal => UnlinkBodyInv(s, t, ch);
    case ForgetLock => ForgetInv(s, t);
    case _ => LockStepInv(s, t, ForgetLock);
  }

  // ---- The environment ----

  lemma NewTaskInv(s: State, t: TaskId, k: Task)
    requires Inv(s) && t !in s.tasks && JobOk(s, t, k) && !HasRef(k)
    ensures Inv(s.(tasks := s.tasks[t := k]))
  {
    var s' := s.(tasks := s.tasks[t := k]);
    JobOkSame(s, s', t, k);
    assert TaskOk(s', t);
    forall u | u in s.tasks
      ensures TaskOk(s', u)
    {
      assert TaskOk(s, u);
      JobOkSame(s, s', u, s.tasks[u]);
    }
    forall d | d in s.chans
      ensures ChanOk(s', d)
    {
      UntouchedChan(s, s', t, d);
    }
  }

  /** The handle leaves `open_files`, and the release takes it over. */
  lemma StartReleaseInv(s: State, t: TaskId, c: ChanId)
    requires Inv(s) && t !in s.tasks && c in s.chans && s.chans[c].phase.Open?
    ensures Inv(Act(s, StartRelease(t, c)).value)
  {
    var s' := Act(s, StartRelease(t, c)).value;
    assert TaskOk(s', t);
    forall u | u in s.tasks
      ensures TaskOk(s', u)
    {
      StartReleaseRely(s, s', t, c, u);
      OthersKeep(s, s', u);
    }
    forall d | d in s.chans && d != c
      ensures ChanOk(s', d)
    {
      UntouchedChan(s, s', t, d);
    }
    ReleasedChan(s, s', t, c);
  }

  lemma ReleasedChan(s: State, s': State, t: TaskId, c: ChanId)
    requires Inv(s) && t !in s.tasks && c in s.chans && s.chans[c].phase.Open?
    requires s' == Act(s, StartRelease(t, c)).value
    ensures ChanOk(s', c)
  {
    assert ChanOk(s, c);
    if s.chans[c].hook.Some? && s.chans[c].Terminal() { ServedKept(s, s', t, c); }
    assert FlowOk(s'.chans[c]);
  }

  lemma StartReleaseRely(s: State, s': State, t: TaskId, c: ChanId, u: TaskId)
    requires t !in s.tasks && c in s.chans && s.chans[c].phase.Open? && u in s.tasks
    requires t in s'.tasks && s'.tasks == s.tasks[t := s'.tasks[t]] && s'.locks == s.locks
    requires s'.chans == s.chans[c := s.chans[c].(phase := Closing(t))]
    requires s'.inode == s.inode && s'.dropped == s.dropped
    ensures Rely(s, s', u)
  {
  }

  /** A change of a channel's queue or uploads that no task takes part in. */
  lemma EnvChanInv(s: State, s': State, c: ChanId)
    requires Inv(s) && c in s.chans && c in s'.chans && s' == s.(chans := s.chans[c := s'.chans[c]])
    requires var ch, ch' := s.chans[c], s'.chans[c];
             && ch'.hook == ch.hook && ch'.phase == ch.phase && ch'.gen == ch.gen && ch'.state == ch.state
             && FlowOk(ch') && (forall u :: Quiet(ch, ch', u))
             && (forall i :: 0 <= i < |ch'.queue| && ch'.queue[i].Finish? ==> ch'.queue[i] in ch.queue)
    ensures Inv(s')
  {
    forall u | u in s.tasks
      ensures TaskOk(s', u)
    {
      assert Quiet(s.chans[c], s'.chans[c], u);
      EnvRely(s, s', c, u);
      OthersKeep(s, s', u);
    }
    forall d | d in s.chans
      ensures ChanOk(s', d)
    {
      EnvChan(s, s', c, d);
    }
  }

  lemma EnvRely(s: State, s': State, c: ChanId, u: TaskId)
    requires c in s.chans && c in s'.chans && u in s.tasks && s' == s.(chans := s.chans[c := s'.chans[c]])
    requires s'.chans[c].state == s.chans[c].state && s'.chans[c].phase == s.chans[c].phase
    requires Quiet(s.chans[c], s'.chans[c], u)
    ensures Rely(s, s', u)
  {
  }

  lemma EnvChan(s: State, s': State, c: ChanId, d: ChanId)
    requires Inv(s) && c in s.chans && c in s'.chans && d in s.chans && s' == s.(chans := s.chans[c := s'.chans[c]])
    requires var ch, ch' := s.chans[c], s'.chans[c];
             && ch'.hook == ch.hook && ch'.phase == ch.phase && ch'.gen == ch.gen && ch'.state == ch.state
             && FlowOk(ch')
             && (forall i :: 0 <= i < |ch'.queue| && ch'.queue[i].Finish? ==> ch'.queue[i] in ch.queue)
    ensures ChanOk(s', d)
  {
    assert ChanOk(s, d);
    if s.chans[d].hook.Some? && s.chans[d].Terminal() {
      var u :| Duty(s, u, d);
      assert Duty(s', u, d);
    }
    var q := s'.chans[d].queue;
    forall i | 0 <= i < |q| && q[i].Finish?
      ensures AtReply(s', q[i].task, d)
    {
      var j :| 0 <= j < |s.chans[d].queue| && s.chans[d].queue[j] == q[i];
      assert AtReply(s, s.chans[d].queue[j].task, d);
    }
  }

  lemma WriteFlow(ch: Chan, chunk: Chunk)
    requires FlowOk(ch) && ch.InFlight() && ch.running
    ensures FlowOk(ch.(queue := ch.queue + [Data(chunk)], accepted := ch.accepted + [chunk]))
  {
    BytesAppend(ch.queue, Data(chunk));
    assert (ch.accepted + [chunk])[..|ch.accepted|] == ch.accepted;
    Assoc(ch.uploaded, Bytes(ch.queue), chunk);
  }

  lemma WorkFlow(ch: Chan, ok: bool)
    requires FlowOk(ch) && ch.running && ch.queue != []
    ensures FlowOk(WorkStep(ch, ok))
  {
    var rest := ch.queue[1..];
    assert forall i :: 0 <= i < |rest| ==> rest[i] == ch.queue[i + 1];
    Assoc(ch.uploaded, MsgBytes(ch.queue[0]), Bytes(rest));
    if ch.queue[0].Finish? {
      assert rest == [] && ch.uploaded + [] == ch.uploaded;
    }
  }

  lemma WriteInv(s: State, c: ChanId, chunk: Chunk)
    requires Inv(s) && c in s.chans && s.chans[c].InFlight() && s.chans[c].running
    requires s.chans[c].Published()
    ensures Inv(Act(s, Write(c, chunk)).value)
  {
    assert ChanOk(s, c);
    WriteFlow(s.chans[c], chunk);
    EnvChanInv(s, Act(s, Write(c, chunk)).value, c);
  }

  lemma WorkInv(s: State, c: ChanId, ok: bool)
    requires Inv(s) && c in s.chans && s.chans[c].running && s.chans[c].queue != []
    ensures Inv(Act(s, Work(c, ok)).value)
  {
    assert ChanOk(s, c);
    WorkFlow(s.chans[c], ok);
    WorkQuiet(s.chans[c], ok);
    EnvChanInv(s, Act(s, Work(c, ok)).value, c);
  }

  lemma WorkQuiet(ch: Chan, ok: bool)
    requires FlowOk(ch) && ch.running && ch.queue != []
    ensures var ch' := WorkStep(ch, ok);
            && (forall u :: Quiet(ch, ch', u))
            && (forall i :: 0 <= i < |ch'.queue| && ch'.queue[i].Finish? ==> ch'.queue[i] in ch.queue)
            && ch'.hook == ch.hook && ch'.phase == ch.phase && ch'.gen == ch.gen && ch'.state == ch.state
  {
    var rest := ch.queue[1..];
    assert forall i :: 0 <= i < |rest| ==> rest[i] == ch.queue[i + 1];
  }

  lemma TaskStepInv(s: State, t: TaskId, ch: Choice)
    requires Inv(s) && t in s.tasks && TaskStep(s, t, ch).Some?
    ensures Inv(TaskStep(s, t, ch).value)
  {
    match s.tasks[t].job
    case Defer => DeferInv(s, t);
    case CommitNow => CommitNowInv(s, t, ch);
    case Release => ReleaseInv(s, t, ch);
    case Reopen => ReopenInv(s, t, ch);
    case Unlink => UnlinkInv(s, t, ch);
  }

  lemma ActInv(s: State, a: Action)
    requires Inv(s) && Act(s, a).Some?
    ensures Inv(Act(s, a).value)
  {
    var s' := Act(s, a).value;
    match a
    case Run(t, ch) => TaskStepInv(s, t, ch);
    case StartFlush(t, c, now) => NewTaskInv(s, t, s'.tasks[t]);
    case StartRelease(t, c) => StartReleaseInv(s, t, c);
    case StartReopen(t) => NewTaskInv(s, t, Task(Reopen, 0, AwaitPending));
    case StartUnlink(t) => NewTaskInv(s, t, Task(Unlink, 0, GetLock));
    case Write(c, chunk) => WriteInv(s, c, chunk);
    case Work(c, ok) => WorkInv(s, c, ok);
    case Poll(_) => UnnoticedInv(s, s');
    case RemoveClean(_) => UnnoticedInv(s, s');
    case Move(path, _) =>
      UnnoticedInv(s, s.(inode := s'.inode));
      RemoteInv(s.(inode := s'.inode), s'.remote);
    case RenameOver(_) => UnnoticedInv(s, s');
    case UnlinkName => UnnoticedInv(s, s');
    case RemoveAny => UnnoticedInv(s, s');
    case ReapOrphan => UnnoticedInv(s, s');
  }

  /** Every state of every run satisfies the invariant. */
  lemma {:induction false} RunInv(run: seq<State>, k: nat)
    requires IsRun(run) && k < |run|
    ensures Inv(run[k])
  {
    if k == 0 {
      InitInv(run[0]);
    } else {
      RunInv(run, k - 1);
      assert StepAt(run, k);
      var a :| Act(run[k - 1], a) == Some(run[k]);
      ActInv(run[k - 1], a);
    }
  }
}
