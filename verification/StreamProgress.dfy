/** The streaming protocol cannot run on by itself: every step of a task or a worker brings it closer to its end. */
module StreamProgress {
  import opened Prelude
  import opened StagingLocks
  import opened Streaming
  import opened StreamInv
  import opened StreamReopen
  import opened StreamTheorems

  // ---- Ranks ----

  function CommitRank(at: CommitPc): (n: nat) {
    match at
    case CheckOwner => 8
    case Flip => 7
    case TakeInfo => 6
    case SendFinish => 5
    case AwaitReply => 4
    case ReadPath(_) => 3
    case SendAdd(_, _) => 2
    case Apply(_) => 1
    case SetDone => 0
  }

  /** An upper bound for the number of steps that the task still takes. */
  function Rank(k: Task): (n: nat) {
    match k.pc
    case AwaitPending => 44
    case WaitHook(_) => 43
    case Install => if k.job.Release? then 46 else 32
    case CheckTerminal => if k.job.Release? then 45 else 31
    case FulfilEarly => if k.job.Release? then 44 else 30
    case Demote => 6
    case Recheck => 43
    case GetLock => 42
    case AcquireLock => 41
    case Guard => 40
    case Commit(at, retry) => CommitRank(at) + if retry then 10 else 21
    case RetryCheck => 20
    case MarkCommitted => 7
    case Revert => 8
    case MarkFailed => 7
    case FulfilDone => 6
    case Setup(_, _, _) => 12
    case FailOld(_) => 11
    case FulfilOld(_) => 10
    case SetDirty => 9
    case Bump => 8
    case Insert => 7
    case UnlinkRemote(_) => 8
    case UnlinkLocal => 7
    case ReleaseLock => 5
    case DropLock => 4
    case Close => 3
    case Reap => 2
    case ForgetLock => 1
    case Done => 0
  }

  ghost function Ranks(tasks: map<TaskId, Task>, keys: set<TaskId>): (n: nat)
    requires keys <= tasks.Keys
  {
    if keys == {} then 0
    else
      var t :| t in keys;
      Rank(tasks[t]) + Ranks(tasks, keys - {t})
  }

  ghost function Queued(chans: map<ChanId, Chan>, keys: set<ChanId>): (n: nat)
    requires keys <= chans.Keys
  {
    if keys == {} then 0
    else
      var c :| c in keys;
      |chans[c].queue| + Queued(chans, keys - {c})
  }

  /** Every task step lowers a rank and adds at most one message; every worker step takes a message. */
  ghost function Measure(s: State): (n: nat) {
    2 * Ranks(s.tasks, s.tasks.Keys) + Queued(s.chans, s.chans.Keys)
  }

  lemma {:induction false} RanksTake(tasks: map<TaskId, Task>, keys: set<TaskId>, t: TaskId)
    requires keys <= tasks.Keys && t in keys
    ensures Ranks(tasks, keys) == Rank(tasks[t]) + Ranks(tasks, keys - {t})
    decreases keys
  {
    var u :| u in keys && Ranks(tasks, keys) == Rank(tasks[u]) + Ranks(tasks, keys - {u});
    if u != t {
      RanksTake(tasks, keys - {u}, t);
      RanksTake(tasks, keys - {t}, u);
      assert keys - {u} - {t} == keys - {t} - {u};
    }
  }

  lemma {:induction false} RanksSame(a: map<TaskId, Task>, b: map<TaskId, Task>, keys: set<TaskId>)
    requires keys <= a.Keys && keys <= b.Keys && forall t :: t in keys ==> a[t] == b[t]
    ensures Ranks(a, keys) == Ranks(b, keys)
    decreases keys
  {
    if keys != {} {
      var t :| t in keys;
      RanksTake(a, keys, t);
      RanksTake(b, keys, t);
      RanksSame(a, b, keys - {t});
    }
  }

  lemma RankDrops(tasks: map<TaskId, Task>, tasks': map<TaskId, Task>, t: TaskId)
    requires t in tasks && t in tasks' && tasks' == tasks[t := tasks'[t]] && Rank(tasks'[t]) < Rank(tasks[t])
    ensures Ranks(tasks', tasks'.Keys) < Ranks(tasks, tasks.Keys)
  {
    assert tasks'.Keys == tasks.Keys;
    RanksTake(tasks, tasks.Keys, t);
    RanksTake(tasks', tasks.Keys, t);
    RanksSame(tasks, tasks', tasks.Keys - {t});
  }

  lemma {:induction false} QueuedTake(chans: map<ChanId, Chan>, keys: set<ChanId>, c: ChanId)
    requires keys <= chans.Keys && c in keys
    ensures Queued(chans, keys) == |chans[c].queue| + Queued(chans, keys - {c})
    decreases keys
  {
    var d :| d in keys && Queued(chans, keys) == |chans[d].queue| + Queued(chans, keys - {d});
    if d != c {
      QueuedTake(chans, keys - {d}, c);
      QueuedTake(chans, keys - {c}, d);
      assert keys - {d} - {c} == keys - {c} - {d};
    }
  }

  lemma {:induction false} QueuedSame(a: map<ChanId, Chan>, b: map<ChanId, Chan>, keys: set<ChanId>)
    requires keys <= a.Keys && keys <= b.Keys && forall c :: c in keys ==> |a[c].queue| == |b[c].queue|
    ensures Queued(a, keys) == Queued(b, keys)
    decreases keys
  {
    if keys != {} {
      var c :| c in keys;
      QueuedTake(a, keys, c);
      QueuedTake(b, keys, c);
      QueuedSame(a, b, keys - {c});
    }
  }

  /** `m'` is `m` with the channel `c` replaced, or added with nothing queued. */
  ghost predicate OneChan(m: map<ChanId, Chan>, m': map<ChanId, Chan>, c: ChanId) {
    && m'.Keys == m.Keys + {c} && (c !in m ==> m'[c].queue == [])
    && forall d :: d in m && d != c ==> m'[d].queue == m[d].queue
  }

  lemma QueuedChange(m: map<ChanId, Chan>, m': map<ChanId, Chan>, c: ChanId)
    requires OneChan(m, m', c)
    ensures Queued(m', m'.Keys) + (if c in m then |m[c].queue| else 0) == Queued(m, m.Keys) + |m'[c].queue|
  {
    QueuedTake(m', m'.Keys, c);
    QueuedSame(m, m', m.Keys - {c});
    assert m'.Keys - {c} == m.Keys - {c};
    if c in m {
      QueuedTake(m, m.Keys, c);
    } else {
      assert m.Keys - {c} == m.Keys;
    }
  }

  // ---- Steps ----

  /** The step lowers the task's rank and lengthens at most one queue, by one. */
  ghost predicate Lowers(s: State, s': State, t: TaskId, c: ChanId) {
    && t in s.tasks && t in s'.tasks && s'.tasks == s.tasks[t := s'.tasks[t]] && Rank(s'.tasks[t]) < Rank(s.tasks[t])
    && (s'.chans == s.chans
        || (OneChan(s.chans, s'.chans, c) && (c in s.chans ==> |s'.chans[c].queue| <= |s.chans[c].queue| + 1)))
  }

  lemma LowersMeasure(s: State, s': State, t: TaskId, c: ChanId)
    requires Lowers(s, s', t, c)
    ensures Measure(s') < Measure(s)
  {
    RankDrops(s.tasks, s'.tasks, t);
    if s'.chans != s.chans {
      QueuedChange(s.chans, s'.chans, c);
    }
  }

  lemma CommitLowers(s: State, t: TaskId, ch: Choice, good: Pc, bad: Pc)
    requires t in s.tasks && s.tasks[t].pc.Commit? && s.tasks[t].chan in s.chans && CommitStep(s, t, ch, good, bad).Some?
    requires good.MarkCommitted? && Rank(s.tasks[t].(pc := bad)) < Rank(s.tasks[t].(pc := Commit(SetDone, s.tasks[t].pc.retry)))
    ensures Lowers(s, CommitStep(s, t, ch, good, bad).value, t, s.tasks[t].chan)
  {
    var at := s.tasks[t].pc.at;
    if at.CheckOwner? || at.Flip? || at.TakeInfo? {
      EarlyLowers(s, t, ch, good, bad);
    } else if at.SendFinish? {
      FinishLowers(s, t, ch, good, bad);
    } else if at.AwaitReply? {
      AnswerLowers(s, t, ch, good, bad);
    } else if at.SendAdd? {
      AddLowers(s, t, ch, good, bad);
    } else {
      LateLowers(s, t, ch, good, bad);
    }
  }

  lemma EarlyLowers(s: State, t: TaskId, ch: Choice, good: Pc, bad: Pc)
    requires t in s.tasks && s.tasks[t].pc.Commit? && s.tasks[t].chan in s.chans && CommitStep(s, t, ch, good, bad).Some?
    requires good.MarkCommitted? && Rank(s.tasks[t].(pc := bad)) < Rank(s.tasks[t].(pc := Commit(SetDone, s.tasks[t].pc.retry)))
    requires var at := s.tasks[t].pc.at; at.CheckOwner? || at.Flip? || at.TakeInfo?
    ensures Lowers(s, CommitStep(s, t, ch, good, bad).value, t, s.tasks[t].chan)
  {
  }

  lemma FinishLowers(s: State, t: TaskId, ch: Choice, good: Pc, bad: Pc)
    requires t in s.tasks && s.tasks[t].pc.Commit? && s.tasks[t].chan in s.chans && CommitStep(s, t, ch, good, bad).Some?
    requires good.MarkCommitted? && Rank(s.tasks[t].(pc := bad)) < Rank(s.tasks[t].(pc := Commit(SetDone, s.tasks[t].pc.retry)))
    requires var at := s.tasks[t].pc.at; at.SendFinish?
    ensures Lowers(s, CommitStep(s, t, ch, good, bad).value, t, s.tasks[t].chan)
  {
  }

  lemma AnswerLowers(s: State, t: TaskId, ch: Choice, good: Pc, bad: Pc)
    requires t in s.tasks && s.tasks[t].pc.Commit? && s.tasks[t].chan in s.chans && CommitStep(s, t, ch, good, bad).Some?
    requires good.MarkCommitted? && Rank(s.tasks[t].(pc := bad)) < Rank(s.tasks[t].(pc := Commit(SetDone, s.tasks[t].pc.retry)))
    requires var at := s.tasks[t].pc.at; at.AwaitReply?
    ensures Lowers(s, CommitStep(s, t, ch, good, bad).value, t, s.tasks[t].chan)
  {
  }

  lemma AddLowers(s: State, t: TaskId, ch: Choice, good: Pc, bad: Pc)
    requires t in s.tasks && s.tasks[t].pc.Commit? && s.tasks[t].chan in s.chans && CommitStep(s, t, ch, good, bad).Some?
    requires good.MarkCommitted? && Rank(s.tasks[t].(pc := bad)) < Rank(s.tasks[t].(pc := Commit(SetDone, s.tasks[t].pc.retry)))
    requires var at := s.tasks[t].pc.at; at.SendAdd?
    ensures Lowers(s, CommitStep(s, t, ch, good, bad).value, t, s.tasks[t].chan)
  {
    var c, info := s.tasks[t].chan, s.tasks[t].pc.at.info;
    var s1 := if ch.applied || ch.ok then s.(remote := s.remote[s.tasks[t].pc.at.path := info]) else s;
    if ch.ok {
      MoveLowers(s, s1.(chans := s1.chans[c := s.chans[c].(fate := Accepted(info))]), t,
                 Commit(Apply(info), s.tasks[t].pc.retry), c);
    } else {
      MoveLowers(s, s1.(chans := s1.chans[c := s.chans[c].(pendingInfo := Some(info))]), t, bad, c);
    }
  }

  lemma LateLowers(s: State, t: TaskId, ch: Choice, good: Pc, bad: Pc)
    requires t in s.tasks && s.tasks[t].pc.Commit? && s.tasks[t].chan in s.chans && CommitStep(s, t, ch, good, bad).Some?
    requires good.MarkCommitted? && Rank(s.tasks[t].(pc := bad)) < Rank(s.tasks[t].(pc := Commit(SetDone, s.tasks[t].pc.retry)))
    requires var at := s.tasks[t].pc.at; at.ReadPath? || at.Apply? || at.SetDone?
    ensures Lowers(s, CommitStep(s, t, ch, good, bad).value, t, s.tasks[t].chan)
  {
  }

  lemma InstallLowers(s: State, t: TaskId, next: Pc)
    requires t in s.tasks && s.tasks[t].chan in s.chans && InstallStep.requires(s, t, next)
    requires Rank(s.tasks[t].(pc := next)) < Rank(s.tasks[t].(pc := FulfilEarly))
    ensures Lowers(s, InstallStep(s, t, next).value, t, s.tasks[t].chan)
  {
  }

  lemma DeferLowers(s: State, t: TaskId)
    requires t in s.tasks && s.tasks[t].job.Defer? && s.tasks[t].chan in s.chans && DeferStep(s, t).Some?
    ensures Lowers(s, DeferStep(s, t).value, t, s.tasks[t].chan)
  {
    if !s.tasks[t].pc.Demote? {
      InstallLowers(s, t, Demote);
    }
  }

  /** A move that leaves every queue alone. */
  lemma MoveLowers(s: State, s1: State, t: TaskId, pc: Pc, c: ChanId)
    requires t in s.tasks && s1.tasks == s.tasks && Rank(s.tasks[t].(pc := pc)) < Rank(s.tasks[t])
    requires s1.chans == s.chans || (c in s.chans && c in s1.chans && s1.chans == s.chans[c := s1.chans[c]]
                                     && s1.chans[c].queue == s.chans[c].queue)
    ensures Lowers(s, Goto(s1, t, pc), t, c)
  {
    assert s1.chans != s.chans ==> s1.chans.Keys == s.chans.Keys + {c};
  }

  lemma LockLowers(s: State, t: TaskId, next: Pc, c: ChanId)
    requires t in s.tasks && LockPc(s.tasks[t].pc) && LockStep(s, t, next).Some?
    requires Rank(s.tasks[t].(pc := next)) < Rank(s.tasks[t].(pc := DropLock))
    ensures Lowers(s, LockStep(s, t, next).value, t, c)
  {
    var s' := LockStep(s, t, next).value;
    MoveLowers(s, s.(locks := s'.locks), t, s'.tasks[t].pc, c);
  }

  lemma NowLowers(s: State, t: TaskId, ch: Choice)
    requires t in s.tasks && s.tasks[t].job.CommitNow? && s.tasks[t].chan in s.chans && CommitNowStep(s, t, ch).Some?
    ensures Lowers(s, CommitNowStep(s, t, ch).value, t, s.tasks[t].chan)
  {
    var pc, c := s.tasks[t].pc, s.tasks[t].chan;
    if pc.Commit? {
      CommitLowers(s, t, ch, MarkCommitted, ReleaseLock);
    } else if pc.Install? || pc.CheckTerminal? || pc.FulfilEarly? {
      InstallLowers(s, t, Commit(CheckOwner, false));
    } else if LockPc(pc) {
      LockLowers(s, t, Done, c);
    } else {
      NowEndLowers(s, t, ch);
    }
  }

  lemma NowEndLowers(s: State, t: TaskId, ch: Choice)
    requires t in s.tasks && s.tasks[t].job.CommitNow? && s.tasks[t].chan in s.chans && CommitNowStep(s, t, ch).Some?
    requires s.tasks[t].pc.Guard? || s.tasks[t].pc.MarkCommitted? || s.tasks[t].pc.FulfilDone?
    ensures Lowers(s, CommitNowStep(s, t, ch).value, t, s.tasks[t].chan)
  {
    var pc, c := s.tasks[t].pc, s.tasks[t].chan;
    match pc
    case Guard => MoveLowers(s, s, t, if !ch.ok || s.chans[c].Terminal() then ReleaseLock else Install, c);
    case MarkCommitted => MoveLowers(s, SetState(s, c, Committed), t, FulfilDone, c);
    case FulfilDone => MoveLowers(s, FulfilHook(s, c), t, ReleaseLock, c);
  }

  lemma ReleaseLowers(s: State, t: TaskId, ch: Choice)
    requires t in s.tasks && s.tasks[t].job.Release? && s.tasks[t].chan in s.chans && ReleaseStep(s, t, ch).Some?
    ensures Lowers(s, ReleaseStep(s, t, ch).value, t, s.tasks[t].chan)
  {
    var pc, c := s.tasks[t].pc, s.tasks[t].chan;
    if pc.Commit? {
      CommitLowers(s, t, ch, MarkCommitted, if pc.retry then Revert else RetryCheck);
    } else if pc.Install? || pc.CheckTerminal? || pc.FulfilEarly? {
      InstallLowers(s, t, Recheck);
    } else if LockPc(pc) {
      LockLowers(s, t, Close, c);
    } else if pc.Recheck? || pc.Guard? || pc.RetryCheck? {
      ReleaseCheckLowers(s, t, ch);
    } else {
      ReleaseEndLowers(s, t, ch);
    }
  }

  lemma ReleaseCheckLowers(s: State, t: TaskId, ch: Choice)
    requires t in s.tasks && s.tasks[t].job.Release? && s.tasks[t].chan in s.chans && ReleaseStep(s, t, ch).Some?
    requires s.tasks[t].pc.Recheck? || s.tasks[t].pc.Guard? || s.tasks[t].pc.RetryCheck?
    ensures Lowers(s, ReleaseStep(s, t, ch).value, t, s.tasks[t].chan)
  {
    MoveLowers(s, s, t, ReleaseStep(s, t, ch).value.tasks[t].pc, s.tasks[t].chan);
  }

  lemma ReleaseEndLowers(s: State, t: TaskId, ch: Choice)
    requires t in s.tasks && s.tasks[t].job.Release? && s.tasks[t].chan in s.chans && ReleaseStep(s, t, ch).Some?
    requires var pc := s.tasks[t].pc;
             pc.MarkCommitted? || pc.Revert? || pc.MarkFailed? || pc.FulfilDone? || pc.Close? || pc.Reap? || pc.ForgetLock?
    ensures Lowers(s, ReleaseStep(s, t, ch).value, t, s.tasks[t].chan)
  {
    var pc, c := s.tasks[t].pc, s.tasks[t].chan;
    match pc
    case MarkCommitted => MoveLowers(s, SetState(s, c, Committed), t, FulfilDone, c);
    case MarkFailed => MoveLowers(s, SetState(s, c, Failed), t, FulfilDone, c);
    case FulfilDone => MoveLowers(s, FulfilHook(s, c), t, ReleaseLock, c);
    case Close => MoveLowers(s, SetPhase(s, c, Closed), t, Reap, c);
    case _ => ReleaseTailLowers(s, t, ch);
  }

  lemma ReleaseTailLowers(s: State, t: TaskId, ch: Choice)
    requires t in s.tasks && s.tasks[t].job.Release? && s.tasks[t].chan in s.chans && ReleaseStep(s, t, ch).Some?
    requires s.tasks[t].pc.Revert? || s.tasks[t].pc.Reap? || s.tasks[t].pc.ForgetLock?
    ensures Lowers(s, ReleaseStep(s, t, ch).value, t, s.tasks[t].chan)
  {
    var pc, c := s.tasks[t].pc, s.tasks[t].chan;
    match pc
    case Revert => MoveLowers(s, s.(inode := RevertInode(s.inode, s.chans[c])), t, MarkFailed, c);
    case Reap =>
      MoveLowers(s, if ch.ok && s.inode.Some? && !s.inode.value.linked then s.(inode := None) else s, t, ForgetLock, c);
    case ForgetLock => MoveLowers(s, s.(locks := Forget(s.locks)), t, Done, c);
  }

  lemma ReopenLowers(s: State, t: TaskId, ch: Choice) returns (c: ChanId)
    requires t in s.tasks && s.tasks[t].job.Reopen? && ReopenStep(s, t, ch).Some?
    ensures Lowers(s, ReopenStep(s, t, ch).value, t, c)
  {
    var pc := s.tasks[t].pc;
    c := s.tasks[t].chan;
    if LockPc(pc) {
      LockLowers(s, t, Done, c);
    } else if pc.AwaitPending? || pc.WaitHook? || pc.Guard? {
      ReopenWaitLowers(s, t, ch);
    } else if pc.Setup? {
      c := ch.chan;
      SetupLowers(s, t, ch);
    } else if pc.FailOld? || pc.FulfilOld? {
      c := SupersedeLowers(s, t, ch);
    } else {
      RegisterLowers(s, t, ch);
    }
  }

  lemma ReopenWaitLowers(s: State, t: TaskId, ch: Choice)
    requires t in s.tasks && s.tasks[t].job.Reopen? && ReopenStep(s, t, ch).Some?
    requires s.tasks[t].pc.AwaitPending? || s.tasks[t].pc.WaitHook? || s.tasks[t].pc.Guard?
    ensures Lowers(s, ReopenStep(s, t, ch).value, t, s.tasks[t].chan)
  {
    MoveLowers(s, s, t, ReopenStep(s, t, ch).value.tasks[t].pc, s.tasks[t].chan);
  }

  lemma SetupLowers(s: State, t: TaskId, ch: Choice)
    requires t in s.tasks && s.tasks[t].job.Reopen? && s.tasks[t].pc.Setup? && ReopenStep(s, t, ch).Some?
    ensures Lowers(s, ReopenStep(s, t, ch).value, t, ch.chan)
  {
  }

  lemma SupersedeLowers(s: State, t: TaskId, ch: Choice) returns (c: ChanId)
    requires t in s.tasks && s.tasks[t].job.Reopen? && (s.tasks[t].pc.FailOld? || s.tasks[t].pc.FulfilOld?)
    requires ReopenStep(s, t, ch).Some?
    ensures Lowers(s, ReopenStep(s, t, ch).value, t, c)
  {
    var pc := s.tasks[t].pc;
    if pc.FulfilOld? {
      c := pc.stale;
      MoveLowers(s, FulfilHook(s, c), t, SetDirty, c);
    } else if pc.active.None? {
      c := 0;
      MoveLowers(s, s, t, SetDirty, c);
    } else {
      c := pc.active.value;
      MoveLowers(s, SetState(s, c, Failed), t, FulfilOld(c), c);
    }
  }

  lemma RegisterLowers(s: State, t: TaskId, ch: Choice)
    requires t in s.tasks && s.tasks[t].job.Reopen? && ReopenStep(s, t, ch).Some?
    requires s.tasks[t].pc.SetDirty? || s.tasks[t].pc.Bump? || s.tasks[t].pc.Insert?
    ensures Lowers(s, ReopenStep(s, t, ch).value, t, s.tasks[t].chan)
  {
    var s', c := ReopenStep(s, t, ch).value, s.tasks[t].chan;
    MoveLowers(s, s'.(tasks := s.tasks), t, s'.tasks[t].pc, c);
  }

  lemma UnlinkLowers(s: State, t: TaskId, ch: Choice)
    requires t in s.tasks && s.tasks[t].job.Unlink? && UnlinkStep(s, t, ch).Some?
    ensures Lowers(s, UnlinkStep(s, t, ch).value, t, 0)
  {
    var pc, s' := s.tasks[t].pc, UnlinkStep(s, t, ch).value;
    if LockPc(pc) {
      LockLowers(s, t, ForgetLock, 0);
    } else if pc.Guard? {
      MoveLowers(s, s, t, s'.tasks[t].pc, 0);
    } else if pc.ForgetLock? {
      MoveLowers(s, s.(locks := Forget(s.locks)), t, Done, 0);
    } else {
      UnlinkNowLowers(s, t, ch);
    }
  }

  lemma UnlinkNowLowers(s: State, t: TaskId, ch: Choice)
    requires t in s.tasks && s.tasks[t].job.Unlink? && UnlinkStep(s, t, ch).Some?
    requires s.tasks[t].pc.UnlinkRemote? || s.tasks[t].pc.UnlinkLocal?
    ensures Lowers(s, UnlinkStep(s, t, ch).value, t, 0)
  {
    var s' := UnlinkStep(s, t, ch).value;
    if s.tasks[t].pc.UnlinkRemote? {
      MoveLowers(s, s.(remote := s'.remote), t, s'.tasks[t].pc, 0);
    } else {
      MoveLowers(s, s.(inode := s'.inode), t, ReleaseLock, 0);
    }
  }

  lemma TaskLowers(s: State, t: TaskId, ch: Choice)
    requires t in s.tasks && TaskStep(s, t, ch).Some?
    ensures Measure(TaskStep(s, t, ch).value) < Measure(s)
  {
    var s', c := TaskStep(s, t, ch).value, s.tasks[t].chan;
    match s.tasks[t].job {
      case Defer => DeferLowers(s, t);
      case CommitNow => NowLowers(s, t, ch);
      case Release => ReleaseLowers(s, t, ch);
      case Reopen =>
        c := ReopenLowers(s, t, ch);
      case Unlink =>
        UnlinkLowers(s, t, ch);
        c := 0;
    }
    LowersMeasure(s, s', t, c);
  }

  lemma WorkLowers(s: State, c: ChanId, ok: bool)
    requires Act(s, Work(c, ok)).Some?
    ensures Measure(Act(s, Work(c, ok)).value) < Measure(s)
  {
    QueuedChange(s.chans, Act(s, Work(c, ok)).value.chans, c);
  }

  // ---- Runs of tasks and workers ----

  ghost predicate Inner(s: State, s': State) {
    exists a: Action :: (a.Run? || a.Work?) && Act(s, a) == Some(s')
  }

  ghost predicate CanGoOn(s: State) {
    exists s' :: Inner(s, s')
  }

  /** A task or a worker takes each step; nothing new starts. */
  ghost predicate InnerPath(path: seq<State>) {
    path != [] && forall k {:trigger InnerAt(path, k)} :: 0 < k < |path| ==> InnerAt(path, k)
  }

  ghost predicate InnerAt(path: seq<State>, k: nat)
    requires 0 < k < |path|
  {
    Inner(path[k - 1], path[k])
  }

  lemma InnerLowers(s: State, s': State)
    requires Inner(s, s')
    ensures Measure(s') < Measure(s)
  {
    var a: Action :| (a.Run? || a.Work?) && Act(s, a) == Some(s');
    if a.Run? {
      TaskLowers(s, a.task, a.choice);
    } else {
      WorkLowers(s, a.chan, a.ok);
    }
  }

  /** Whatever the scheduler does, tasks and workers stop within `Measure` steps. */
  lemma {:induction false} PathBounded(path: seq<State>, k: nat)
    requires InnerPath(path) && k < |path|
    ensures k + Measure(path[k]) <= Measure(path[0])
  {
    if k > 0 {
      PathBounded(path, k - 1);
      assert InnerAt(path, k);
      InnerLowers(path[k - 1], path[k]);
    }
  }

  lemma {:induction false} PathKeeps(path: seq<State>, k: nat, c: ChanId)
    requires InnerPath(path) && Inv(path[0]) && k < |path| && c in path[0].chans
    ensures Inv(path[k]) && c in path[k].chans && Settles(path[0].chans[c], path[k].chans[c])
  {
    if k > 0 {
      PathKeeps(path, k - 1, c);
      assert InnerAt(path, k);
      InnerKeeps(path[k - 1], path[k], c);
      SettlesTrans(path[0].chans[c], path[k - 1].chans[c], path[k].chans[c]);
    }
  }

  lemma InnerKeeps(s: State, s': State, c: ChanId)
    requires Inner(s, s') && Inv(s) && c in s.chans
    ensures Inv(s') && c in s'.chans && Settles(s.chans[c], s'.chans[c])
  {
    var a: Action :| (a.Run? || a.Work?) && Act(s, a) == Some(s');
    ActInv(s, a);
    ActSettles(s, a, c);
  }

  /** If nothing is stuck, there is a step to take. */
  lemma NotStuck(s: State) returns (s': State)
    requires !Stuck(s)
    ensures Inner(s, s')
  {
    if t, ch :| t in s.tasks && TaskStep(s, t, ch).Some? {
      s' := TaskStep(s, t, ch).value;
      assert Act(s, Run(t, ch)) == Some(s');
    } else {
      var c :| c in s.chans && s.chans[c].running && s.chans[c].queue != [];
      s' := Act(s, Work(c, true)).value;
      assert Act(s, Work(c, true)) == Some(s');
    }
  }

  /** No wait for a released channel lasts: within `Measure` steps of tasks and workers, whichever they are, a state is
      reached where none is possible, and there nobody waits for a channel whose handle was released at the start. */
  lemma ReleasedWaitEnds(run: seq<State>, k: nat, path: seq<State>, c: ChanId, t: TaskId)
    requires IsRun(run) && k < |run| && InnerPath(path) && path[0] == run[k]
    requires c in run[k].chans && Released(run[k].chans[c])
    ensures |path| - 1 <= Measure(run[k])
    ensures var s := path[|path| - 1];
            Stuck(s) && t in s.tasks && s.tasks[t].pc.WaitHook? ==> s.tasks[t].pc.hook.chan != c
    ensures !Stuck(path[|path| - 1]) ==> CanGoOn(path[|path| - 1])
  {
    RunInv(run, k);
    PathBounded(path, |path| - 1);
    var s := path[|path| - 1];
    PathKeeps(path, |path| - 1, c);
    if !Stuck(s) {
      var s' := NotStuck(s);
    } else if t in s.tasks && s.tasks[t].pc.WaitHook? {
      StuckTask(s, t);
      WaitsForOpen(s, t);
    }
  }
}
