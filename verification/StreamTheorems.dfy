/** What the streaming protocol guarantees in every interleaving. */
module StreamTheorems {
  import opened Prelude
  import opened StagingLocks
  import opened Streaming
  import opened StreamInv
  import opened StreamReopen

  // ---- Mutual exclusion ----

  /** Two tasks are never both between taking and releasing the inode's lock,
      although the lock's registry entry may be evicted and recreated. */
  lemma OneCommitter(run: seq<State>, k: nat, t: TaskId, u: TaskId)
    requires IsRun(run) && k < |run| && t in run[k].tasks && u in run[k].tasks
    requires InCrit(run[k].tasks[t]) && InCrit(run[k].tasks[u])
    ensures t == u
  {
    RunInv(run, k);
    assert TaskOk(run[k], t) && TaskOk(run[k], u);
    Exclusive(run[k].locks, t, u);
  }

  // ---- Hooks ----

  ghost predicate Quiescent(s: State) {
    forall t :: t in s.tasks ==> s.tasks[t].pc.Done?
  }

  /** A receiver in `pending_commits` always belongs to a hook that is still set; once no task is
      under way a terminal channel has no hook; and once all handles are closed nothing is pending. */
  lemma HooksServed(run: seq<State>, k: nat)
    requires IsRun(run) && k < |run|
    ensures var s := run[k];
            && (s.pending.Some? ==> s.pending.value.chan in s.chans && s.chans[s.pending.value.chan].hook == s.pending)
            && (Quiescent(s) ==> forall c :: c in s.chans && s.chans[c].Terminal() ==> s.chans[c].hook.None?)
            && (Quiescent(s) && (forall c :: c in s.chans ==> !s.chans[c].phase.Open?) ==> s.pending.None?)
  {
    RunInv(run, k);
    var s := run[k];
    if Quiescent(s) {
      forall c | c in s.chans && s.chans[c].Terminal()
        ensures s.chans[c].hook.None?
      {
        assert ChanOk(s, c) && !Served(s, c);
      }
      if s.pending.Some? {
        assert ChanOk(s, s.pending.value.chan);
      }
    }
  }

  // ---- Nobody waits for ever ----

  ghost predicate Stuck(s: State) {
    && (forall t, ch :: t in s.tasks ==> TaskStep(s, t, ch).None?)
    && (forall c :: c in s.chans && s.chans[c].running ==> s.chans[c].queue == [])
  }

  /** Only the lock, a hook or the worker can hold a task up. */
  lemma CanStep(s: State, t: TaskId) returns (ch: Choice)
    requires Inv(s) && t in s.tasks
    requires !s.tasks[t].pc.Done? && !s.tasks[t].pc.AcquireLock? && !s.tasks[t].pc.WaitHook?
    requires s.tasks[t].pc.Commit? && s.tasks[t].pc.at.AwaitReply? ==>
               s.tasks[t].chan in s.chans && s.chans[s.tasks[t].chan].reply.Some?
    ensures TaskStep(s, t, ch).Some?
  {
    assert TaskOk(s, t);
    ch := Choice(false, false, false, 0);
    match s.tasks[t].job {
      case Defer =>
      case CommitNow =>
      case Release =>
      case Reopen => ch := ReopenCanStep(s, t);
      case Unlink =>
    }
  }

  lemma ReopenCanStep(s: State, t: TaskId) returns (ch: Choice)
    requires Inv(s) && t in s.tasks && s.tasks[t].job.Reopen?
    requires !s.tasks[t].pc.Done? && !s.tasks[t].pc.AcquireLock? && !s.tasks[t].pc.WaitHook?
    ensures ReopenStep(s, t, ch).Some?
  {
    assert TaskOk(s, t);
    ch := Choice(false, false, false, 0);
    if s.tasks[t].pc.Guard? && exists d :: d in s.chans && Active(s, d) {
      var d :| d in s.chans && Active(s, d);
      ch := Choice(false, false, false, d);
    }
  }

  lemma HolderMoves(s: State, t: TaskId)
    requires Inv(s) && t in s.tasks && InCrit(s.tasks[t])
    ensures !Stuck(s)
  {
    assert TaskOk(s, t);
    var c := s.tasks[t].chan;
    if s.tasks[t].pc.Commit? && s.tasks[t].pc.at.AwaitReply? && s.chans[c].running {
      assert s.chans[c].queue != [];
    } else {
      var ch := CanStep(s, t);
      assert TaskStep(s, t, ch).Some?;
    }
  }

  /** If no task and no worker can move, then every task is done, or it waits for the hook of a
      channel whose handle is still open: the release that will fulfil the hook is still to come. */
  lemma NoLostWaiter(run: seq<State>, k: nat, t: TaskId)
    requires IsRun(run) && k < |run| && Stuck(run[k]) && t in run[k].tasks
    ensures var s := run[k];
            || s.tasks[t].pc.Done?
            || (s.tasks[t].pc.WaitHook? && s.tasks[t].pc.hook.chan in s.chans
                && s.chans[s.tasks[t].pc.hook.chan].phase.Open? && !s.chans[s.tasks[t].pc.hook.chan].Terminal())
  {
    RunInv(run, k);
    var s := run[k];
    StuckTask(s, t);
    if s.tasks[t].pc.WaitHook? {
      WaitsForOpen(s, t);
    }
  }

  lemma StuckTask(s: State, t: TaskId)
    requires Inv(s) && Stuck(s) && t in s.tasks
    ensures s.tasks[t].pc.Done? || (s.tasks[t].job.Reopen? && s.tasks[t].pc.WaitHook?)
  {
    assert TaskOk(s, t);
    if InCrit(s.tasks[t]) {
      HolderMoves(s, t);
    } else if s.tasks[t].pc.AcquireLock? {
      AcquireBlocked(s, t);
    } else if !s.tasks[t].pc.Done? && !s.tasks[t].pc.WaitHook? {
      var ch := CanStep(s, t);
    }
  }

  lemma AcquireBlocked(s: State, t: TaskId)
    requires Inv(s) && t in s.tasks && s.tasks[t].pc.AcquireLock?
    ensures !Stuck(s)
  {
    assert TaskOk(s, t);
    if Free(s.locks, t) {
      assert TaskStep(s, t, Choice(false, false, false, 0)).Some?;
    } else {
      FreeOrHeld(s.locks, t);
      var u :| Holds(s.locks, u);
      assert TaskOk(s, u);
      HolderMoves(s, u);
    }
  }

  lemma WaitsForOpen(s: State, t: TaskId)
    requires Inv(s) && Stuck(s) && t in s.tasks && s.tasks[t].job.Reopen? && s.tasks[t].pc.WaitHook?
    ensures var c := s.tasks[t].pc.hook.chan;
            c in s.chans && s.chans[c].phase.Open? && !s.chans[c].Terminal()
  {
    var h := s.tasks[t].pc.hook;
    assert TaskStep(s, t, Choice(false, false, false, 0)).None?;
    assert h.chan in s.chans && s.chans[h.chan].hook == Some(h);
    assert ChanOk(s, h.chan);
    if s.chans[h.chan].Terminal() {
      var u :| Duty(s, u, h.chan);
      StuckTask(s, u);
    }
    if s.chans[h.chan].phase.Closing? {
      StuckTask(s, s.chans[h.chan].phase.task);
    }
  }

  // ---- Terminal states and accepted writes ----

  /** What no step undoes on a channel: a terminal state stays, writes are only appended to the
      accepted ones, nothing is accepted once the commit has begun, and a released handle stays released. */
  ghost predicate Settles(ch: Chan, ch': Chan) {
    && (ch.Terminal() ==> ch'.state == ch.state)
    && ch.accepted <= ch'.accepted
    && (!ch.InFlight() ==> !ch'.InFlight() && ch'.accepted == ch.accepted)
    && (Released(ch) ==> Released(ch'))
  }

  /** The handle has left `open_files` for good. */
  predicate Released(ch: Chan) {
    ch.phase.Closing? || ch.phase.Closed?
  }

  lemma SettlesTrans(a: Chan, b: Chan, c: Chan)
    requires Settles(a, b) && Settles(b, c)
    ensures Settles(a, c)
  {
  }

  lemma CommitSettles(s: State, t: TaskId, ch: Choice, good: Pc, bad: Pc, c: ChanId)
    requires t in s.tasks && s.tasks[t].chan in s.chans && s.tasks[t].pc.Commit? && c in s.chans
    requires !s.chans[s.tasks[t].chan].Terminal()
    requires CommitStep(s, t, ch, good, bad).Some?
    ensures var s' := CommitStep(s, t, ch, good, bad).value; c in s'.chans && Settles(s.chans[c], s'.chans[c])
  {
    var at := s.tasks[t].pc.at;
    if at.CheckOwner? {
      CheckSettles(s, t, ch, good, bad, c);
    } else if at.Flip? || at.TakeInfo? {
      EarlySettles(s, t, ch, good, bad, c);
    } else if at.SendFinish? {
      FinishSettles(s, t, ch, good, bad, c);
    } else if at.AwaitReply? {
      AnswerSettles(s, t, ch, good, bad, c);
    } else {
      LateSettles(s, t, ch, good, bad, c);
    }
  }

  lemma CheckSettles(s: State, t: TaskId, ch: Choice, good: Pc, bad: Pc, c: ChanId)
    requires t in s.tasks && s.tasks[t].chan in s.chans && s.tasks[t].pc.Commit? && c in s.chans
    requires !s.chans[s.tasks[t].chan].Terminal()
    requires CommitStep(s, t, ch, good, bad).Some?
    requires s.tasks[t].pc.at.CheckOwner?
    ensures var s' := CommitStep(s, t, ch, good, bad).value; c in s'.chans && Settles(s.chans[c], s'.chans[c])
  {
    var own, m := s.tasks[t].chan, CommitStep(s, t, ch, good, bad).value.chans;
    if Committable(s, own) {
      assert m == s.chans;
    } else {
      assert m == s.chans[own := s.chans[own].(fate := Skipped)];
    }
  }

  lemma EarlySettles(s: State, t: TaskId, ch: Choice, good: Pc, bad: Pc, c: ChanId)
    requires t in s.tasks && s.tasks[t].chan in s.chans && s.tasks[t].pc.Commit? && c in s.chans
    requires !s.chans[s.tasks[t].chan].Terminal()
    requires CommitStep(s, t, ch, good, bad).Some?
    requires var at := s.tasks[t].pc.at; at.Flip? || at.TakeInfo?
    ensures var s' := CommitStep(s, t, ch, good, bad).value; c in s'.chans && Settles(s.chans[c], s'.chans[c])
  {
  }

  lemma FinishSettles(s: State, t: TaskId, ch: Choice, good: Pc, bad: Pc, c: ChanId)
    requires t in s.tasks && s.tasks[t].chan in s.chans && s.tasks[t].pc.Commit? && c in s.chans
    requires !s.chans[s.tasks[t].chan].Terminal()
    requires CommitStep(s, t, ch, good, bad).Some?
    requires var at := s.tasks[t].pc.at; at.SendFinish?
    ensures var s' := CommitStep(s, t, ch, good, bad).value; c in s'.chans && Settles(s.chans[c], s'.chans[c])
  {
  }

  lemma AnswerSettles(s: State, t: TaskId, ch: Choice, good: Pc, bad: Pc, c: ChanId)
    requires t in s.tasks && s.tasks[t].chan in s.chans && s.tasks[t].pc.Commit? && c in s.chans
    requires !s.chans[s.tasks[t].chan].Terminal()
    requires CommitStep(s, t, ch, good, bad).Some?
    requires var at := s.tasks[t].pc.at; at.AwaitReply?
    ensures var s' := CommitStep(s, t, ch, good, bad).value; c in s'.chans && Settles(s.chans[c], s'.chans[c])
  {
    var own, m := s.tasks[t].chan, CommitStep(s, t, ch, good, bad).value.chans;
    assert m == s.chans[own := s.chans[own].(reply := None)];
  }

  lemma LateSettles(s: State, t: TaskId, ch: Choice, good: Pc, bad: Pc, c: ChanId)
    requires t in s.tasks && s.tasks[t].chan in s.chans && s.tasks[t].pc.Commit? && c in s.chans
    requires !s.chans[s.tasks[t].chan].Terminal()
    requires CommitStep(s, t, ch, good, bad).Some?
    requires var at := s.tasks[t].pc.at; at.ReadPath? || at.SendAdd? || at.Apply? || at.SetDone?
    ensures var s' := CommitStep(s, t, ch, good, bad).value; c in s'.chans && Settles(s.chans[c], s'.chans[c])
  {
    var own, m := s.tasks[t].chan, CommitStep(s, t, ch, good, bad).value.chans;
    assert m == s.chans || (own in m && m == s.chans[own := m[own]]);
  }

  lemma NowSettles(s: State, t: TaskId, ch: Choice, c: ChanId)
    requires t in s.tasks && c in s.chans && s.tasks[t].job.CommitNow? && CommitNowOk(s, t, s.tasks[t])
    requires CommitNowStep(s, t, ch).Some?
    ensures var s' := CommitNowStep(s, t, ch).value; c in s'.chans && Settles(s.chans[c], s'.chans[c])
  {
    if s.tasks[t].pc.Commit? {
      CommitSettles(s, t, ch, MarkCommitted, ReleaseLock, c);
    }
  }

  lemma ReleaseSettles(s: State, t: TaskId, ch: Choice, c: ChanId)
    requires t in s.tasks && c in s.chans && s.tasks[t].job.Release? && ReleaseOk(s, t, s.tasks[t])
    requires ReleaseStep(s, t, ch).Some?
    ensures var s' := ReleaseStep(s, t, ch).value; c in s'.chans && Settles(s.chans[c], s'.chans[c])
  {
    if s.tasks[t].pc.Commit? {
      CommitSettles(s, t, ch, MarkCommitted, if s.tasks[t].pc.retry then Revert else RetryCheck, c);
    }
  }

  lemma ReopenSettles(s: State, t: TaskId, ch: Choice, c: ChanId)
    requires t in s.tasks && c in s.chans && s.tasks[t].job.Reopen? && ReopenOk(s, s.tasks[t])
    requires ReopenStep(s, t, ch).Some?
    ensures var s' := ReopenStep(s, t, ch).value; c in s'.chans && Settles(s.chans[c], s'.chans[c])
  {
    var pc := s.tasks[t].pc;
    if pc.FailOld? || pc.FulfilOld? {
      SupersedeSettles(s, t, ch, c);
    } else if pc.SetDirty? || pc.Bump? || pc.Insert? {
      RegisterSettles(s, t, ch, c);
    } else {
      assert ReopenStep(s, t, ch).value.chans[c] == s.chans[c];
    }
  }

  lemma SupersedeSettles(s: State, t: TaskId, ch: Choice, c: ChanId)
    requires t in s.tasks && c in s.chans && s.tasks[t].job.Reopen? && ReopenOk(s, s.tasks[t])
    requires (s.tasks[t].pc.FailOld? || s.tasks[t].pc.FulfilOld?) && ReopenStep(s, t, ch).Some?
    ensures var s' := ReopenStep(s, t, ch).value; c in s'.chans && Settles(s.chans[c], s'.chans[c])
  {
  }

  lemma RegisterSettles(s: State, t: TaskId, ch: Choice, c: ChanId)
    requires t in s.tasks && c in s.chans && s.tasks[t].job.Reopen? && ReopenOk(s, s.tasks[t])
    requires (s.tasks[t].pc.SetDirty? || s.tasks[t].pc.Bump? || s.tasks[t].pc.Insert?) && ReopenStep(s, t, ch).Some?
    ensures var s' := ReopenStep(s, t, ch).value; c in s'.chans && Settles(s.chans[c], s'.chans[c])
  {
  }

  lemma TaskSettles(s: State, t: TaskId, ch: Choice, c: ChanId)
    requires t in s.tasks && c in s.chans && JobOk(s, t, s.tasks[t]) && TaskStep(s, t, ch).Some?
    ensures var s' := TaskStep(s, t, ch).value; c in s'.chans && Settles(s.chans[c], s'.chans[c])
  {
    match s.tasks[t].job
    case Defer =>
    case CommitNow => NowSettles(s, t, ch, c);
    case Release => ReleaseSettles(s, t, ch, c);
    case Reopen => ReopenSettles(s, t, ch, c);
    case Unlink =>
  }

  lemma ActSettles(s: State, a: Action, c: ChanId)
    requires Inv(s) && Act(s, a).Some? && c in s.chans
    ensures var s' := Act(s, a).value; c in s'.chans && Settles(s.chans[c], s'.chans[c])
  {
    if a.Run? {
      assert TaskOk(s, a.task);
      TaskSettles(s, a.task, a.choice, c);
    }
  }

  lemma StepSettles(s: State, s': State, c: ChanId)
    requires Inv(s) && Step(s, s') && c in s.chans
    ensures c in s'.chans && Settles(s.chans[c], s'.chans[c])
  {
    var a :| Act(s, a) == Some(s');
    ActSettles(s, a, c);
  }

  lemma RunStep(run: seq<State>, j: nat)
    requires IsRun(run) && 0 < j < |run|
    ensures Inv(run[j - 1]) && Step(run[j - 1], run[j])
  {
    RunInv(run, j - 1);
    assert StepAt(run, j);
  }

  /** Over a whole run: terminal states never change, and accepted writes are never dropped,
      reordered or added to once the commit has begun. */
  lemma {:induction false} RunSettles(run: seq<State>, i: nat, j: nat, c: ChanId)
    requires IsRun(run) && i <= j < |run| && c in run[i].chans
    ensures c in run[j].chans && Settles(run[i].chans[c], run[j].chans[c])
    decreases j
  {
    if i < j {
      RunSettles(run, i, j - 1, c);
      RunStep(run, j);
      StepSettles(run[j - 1], run[j], c);
      SettlesTrans(run[i].chans[c], run[j - 1].chans[c], run[j].chans[c]);
    }
  }

  // ---- No accepted write is lost ----

  /** On every channel no data follows a finish message.  An answer that the upload succeeded, and an
      upload parked for a retry, are exactly the accepted writes in order. */
  lemma UploadComplete(run: seq<State>, k: nat, c: ChanId)
    requires IsRun(run) && k < |run| && c in run[k].chans
    ensures var ch := run[k].chans[c];
            && (forall i, j :: 0 <= i < j < |ch.queue| && ch.queue[j].Data? ==> ch.queue[i].Data?)
            && (ch.reply.Some? && ch.reply.value.Uploaded? ==> ch.reply.value.content == Concat(ch.accepted))
            && (ch.pendingInfo.Some? ==> ch.pendingInfo.value == Concat(ch.accepted))
  {
    RunInv(run, k);
    assert ChanOk(run[k], c);
  }

  // ---- What a commit sends and leaves ----

  ghost predicate Linked(s: State) {
    s.inode.Some? && s.inode.value.linked
  }

  /** An AddFile carries the accepted writes, its sender holds the lock and the inode's generation, while the inode
      is in the table, is its channel's.  The file is still linked exactly when no step without the lock has
      dropped it: no other file was renamed over it, nobody removed its name on behalf of the inode that had the name
      before, and no 404 or failed create removed it from the table. */
  lemma AddFileOwned(run: seq<State>, k: nat, t: TaskId)
    requires IsRun(run) && k < |run| && t in run[k].tasks
    requires run[k].tasks[t].pc.Commit? && run[k].tasks[t].pc.at.SendAdd? && InCrit(run[k].tasks[t])
    ensures var s, c := run[k], run[k].tasks[t].chan;
            && c in s.chans && s.chans[c].state.Committing? && Holds(s.locks, t)
            && s.tasks[t].pc.at.info == Concat(s.chans[c].accepted)
            && (s.inode.Some? ==> s.inode.value.gen == s.chans[c].gen)
            && (Linked(s) <==> !s.dropped)
  {
    RunInv(run, k);
    assert TaskOk(run[k], t);
  }

  /** When the Hub has accepted it, the generation check of `apply_commit` succeeds whenever the inode is still in the
      table; and the result is a clean, linked inode with the committed content exactly when nothing dropped it. */
  lemma CommitApplies(run: seq<State>, k: nat, t: TaskId, ch: Choice)
    requires IsRun(run) && k < |run| && t in run[k].tasks
    requires run[k].tasks[t].pc.Commit? && run[k].tasks[t].pc.at.Apply? && InCrit(run[k].tasks[t])
    ensures var s, c := run[k], run[k].tasks[t].chan;
            && c in s.chans && TaskStep(s, t, ch).Some?
            && var s' := TaskStep(s, t, ch).value;
               && (s.inode.Some? ==>
                     && s'.inode.Some?
                     && s'.inode.value == s.inode.value.(gen := 0, hash := Some(Concat(s.chans[c].accepted))))
               && (s'.inode.Some? && s'.inode.value.linked <==> !s.dropped)
  {
    RunInv(run, k);
    assert TaskOk(run[k], t);
  }
}
