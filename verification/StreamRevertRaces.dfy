/** Runs in which a failed commit's revert does not leave what the file was when it last was clean, one for each way. */
module StreamRevertRaces {
  import opened Prelude
  import opened StagingLocks
  import opened Streaming
  import opened StreamRaces
  import opened StreamReuse

  // ---- A commit whose upload fails ----

  /** The last step is the revert: `before` is reached, and `s` follows by it. */
  ghost predicate Reverts(before: State, t: TaskId, s: State) {
    && Reachable(before) && Reachable(s) && t in before.tasks && before.tasks[t].pc.Revert? && before.inode.Some?
    && Act(before, Run(t, YES)) == Some(s)
  }

  /** A channel on which nothing is under way, with one message still to be taken or none. */
  predicate Quiet(ch: Chan) {
    && ch.state.Writing? && ch.running && ch.reply.None? && ch.pendingInfo.None?
    && (ch.queue == [] || (|ch.queue| == 1 && ch.queue[0].Data?))
  }

  function Failing(ch: Chan): (r: Chan) {
    ch.(state := Committing, queue := [], running := false, failed := ch.failed || ch.queue != [])
  }

  lemma FailsUpload(s: State, t: TaskId, c: ChanId, ch: Chan)
    requires CommitsFor(s, t, c) && s.tasks[t].job.Release? && Quiet(ch)
    requires s.inode.Some? && s.inode.value.linked && s.inode.value.gen == ch.gen
    requires Reachable(On(s, t, c, Commit(CheckOwner, false), ch))
    ensures Reachable(On(s, t, c, Revert, Failing(ch)))
  {
    Advances(s, t, c, Commit(CheckOwner, false), ch, Commit(Flip, false), ch);
    FlipsState(s, t, c, ch);
    AsksWorkerTo(s, t, c, ch);
    var asked := Begun(ch).(queue := ch.queue + [Finish(t)]);
    if ch.queue == [] {
      assert asked.queue[1..] == [];
      AnswersFailure(s, t, c, ch, asked);
    } else {
      assert asked.queue[1..] == [Finish(t)] && [Finish(t)][1..] == [];
      WorkerFails(s, t, c, asked, asked.(queue := [Finish(t)], failed := true));
      AnswersFailure(s, t, c, ch, asked.(queue := [Finish(t)], failed := true));
    }
    GoesToRevert(s, t, c, ch);
  }

  lemma FlipsState(s: State, t: TaskId, c: ChanId, ch: Chan)
    requires CommitsFor(s, t, c) && Quiet(ch) && Reachable(On(s, t, c, Commit(Flip, false), ch))
    ensures Reachable(On(s, t, c, Commit(TakeInfo, false), Begun(ch)))
  {
    Advances(s, t, c, Commit(Flip, false), ch, Commit(TakeInfo, false), Begun(ch));
  }

  lemma AsksWorkerTo(s: State, t: TaskId, c: ChanId, ch: Chan)
    requires CommitsFor(s, t, c) && Quiet(ch) && Reachable(On(s, t, c, Commit(TakeInfo, false), Begun(ch)))
    ensures Reachable(On(s, t, c, Commit(AwaitReply, false), Begun(ch).(queue := ch.queue + [Finish(t)])))
  {
    Advances(s, t, c, Commit(TakeInfo, false), Begun(ch), Commit(SendFinish, false), Begun(ch));
    SendsFinish(s, t, c, ch);
  }

  lemma SendsFinish(s: State, t: TaskId, c: ChanId, ch: Chan)
    requires CommitsFor(s, t, c) && Quiet(ch) && Reachable(On(s, t, c, Commit(SendFinish, false), Begun(ch)))
    ensures Reachable(On(s, t, c, Commit(AwaitReply, false), Begun(ch).(queue := ch.queue + [Finish(t)])))
  {
    Advances(s, t, c, Commit(SendFinish, false), Begun(ch), Commit(AwaitReply, false),
             Begun(ch).(queue := ch.queue + [Finish(t)]));
  }

  /** The worker fails on one message. */
  lemma WorkerFails(s: State, t: TaskId, c: ChanId, ch: Chan, ch': Chan)
    requires CommitsFor(s, t, c) && Reachable(On(s, t, c, Commit(AwaitReply, false), ch))
    requires ch.running && ch.queue != [] && ch' == WorkStep(ch, false)
    ensures Reachable(On(s, t, c, Commit(AwaitReply, false), ch'))
  {
    Reach(On(s, t, c, Commit(AwaitReply, false), ch), Work(c, false), On(s, t, c, Commit(AwaitReply, false), ch'));
  }

  lemma AnswersFailure(s: State, t: TaskId, c: ChanId, ch: Chan, asked: Chan)
    requires CommitsFor(s, t, c) && s.tasks[t].job.Release? && Quiet(ch)
    requires asked.running && asked.queue == [Finish(t)] && asked.reply.None? && asked.queue[1..] == []
    requires asked.(queue := [], running := false) == Failing(ch)
    requires Reachable(On(s, t, c, Commit(AwaitReply, false), asked))
    ensures Reachable(On(s, t, c, RetryCheck, Failing(ch)))
  {
    var answered := asked.(queue := [], running := false, reply := Some(UploadFailed));
    WorkerFails(s, t, c, asked, answered);
    Advances(s, t, c, Commit(AwaitReply, false), answered, RetryCheck, Failing(ch));
  }

  lemma GoesToRevert(s: State, t: TaskId, c: ChanId, ch: Chan)
    requires CommitsFor(s, t, c) && s.tasks[t].job.Release? && Quiet(ch) && Reachable(On(s, t, c, RetryCheck, Failing(ch)))
    ensures Reachable(On(s, t, c, Revert, Failing(ch)))
  {
    Advances(s, t, c, RetryCheck, Failing(ch), Revert, Failing(ch));
  }

  /** A release that is about to start fails its upload and reverts the inode. */
  lemma RevertsFrom(s: State, t: TaskId, c: ChanId) returns (before: State, s': State)
    requires Reachable(s) && Ready(s, t, c) && s.tasks[t] == Task(Release, c, Install) && Quiet(s.chans[c])
    requires s.inode.Some? && s.inode.value.linked && s.inode.value.gen == s.chans[c].gen
    ensures Reverts(before, t, s') && before.inode == s.inode && s'.remote == s.remote && s'.dropped == s.dropped
    ensures s.chans.Keys <= s'.chans.Keys && forall d :: d in s.chans && d != c ==> s'.chans[d] == s.chans[d]
    ensures s'.inode == RevertInode(s.inode, s.chans[c])
  {
    ReleaseChecks(s, t, c);
    var h := WithHook(s, c).(locks := HeldBy(t));
    assert Checking(s, t, c) == On(h, t, c, Commit(CheckOwner, false), h.chans[c]);
    FailsUpload(h, t, c, h.chans[c]);
    before := On(h, t, c, Revert, Failing(h.chans[c]));
    s' := At(before.(inode := RevertInode(s.inode, s.chans[c])), t, MarkFailed);
    Reach(before, Run(t, YES), s');
  }

  // ---- The three ways ----

  /** The file was committed with [1], and the Hub has it. */
  const COMMITTED: State := State(Locks(None, 0, map[], map[]), Some(Inode(0, true, Some([1]), 0)), false, map[], None, 0,
                                  map[], map[0 := [1]])

  /** A reopen has taken its snapshot when the poll finds a new object; its commit fails, and the inode is left clean with
      the old hash. */
  lemma PolledSnapshotRace() returns (before: State, s: State)
    ensures Reverts(before, 3, s) && !s.dropped && s.inode.Some? && s.inode.value == Inode(0, true, Some([1]), 0)
    ensures exists polled :: Reachable(polled) && polled.inode == Some(Inode(0, true, Some([2]), 0))
  {
    Starts(COMMITTED);
    SnapshotTaken(COMMITTED, 1, 0);
    var polled := COMMITTED.(inode := Some(Inode(0, true, Some([2]), 0)));
    Reach(Making(COMMITTED, 1, 0, FailOld(None), Unmarked(Some([1]))), Poll(Some([2])),
          Making(polled, 1, 0, FailOld(None), Unmarked(Some([1]))));
    assert Reachable(Making(polled, 1, 0, FailOld(None), Unmarked(Some([1]))));
    EndsReopen(polled, 1, 0, Some([1]));
    before, s := ReleasedAndFailed(ReopenedFrom(polled, 1, 0, Some([1])), 3, 0);
  }

  /** The release of channel `c` starts, as task `t`. */
  function Releasing(s: State, t: TaskId, c: ChanId): (s': State)
    requires c in s.chans
  {
    SetPhase(s, c, Closing(t)).(tasks := s.tasks[t := Task(Release, c, Install)])
  }

  lemma ReleasedAndFailed(s: State, t: TaskId, c: ChanId) returns (before: State, s': State)
    requires Reachable(s) && Idle(s) && s.pending.None? && c in s.chans && s.chans[c].phase.Open? && t !in s.tasks
    requires Quiet(s.chans[c]) && s.chans[c].hook.None?
    requires s.inode.Some? && s.inode.value.linked && s.inode.value.gen == s.chans[c].gen
    ensures Reverts(before, t, s') && before.inode == s.inode && s'.remote == s.remote && s'.dropped == s.dropped
    ensures s'.inode == RevertInode(s.inode, s.chans[c])
  {
    Reach(s, StartRelease(t, c), Releasing(s, t, c));
    before, s' := RevertsFrom(Releasing(s, t, c), t, c);
  }

  /** A writer of a committed file is being released when the file is reopened: no active writer is found, and the dirty
      inode has no hash.  The commit of the second writer fails, and the inode is left clean without its hash. */
  lemma ParkedSnapshotRace() returns (before: State, s: State)
    ensures Reverts(before, 3, s) && !s.dropped && s.inode.Some? && s.inode.value == Inode(0, true, None, 0)
    ensures s.remote == map[0 := [1]]
  {
    Starts(COMMITTED);
    Reopens(COMMITTED, 1, 0);
    var s1 := Reopened(COMMITTED, 1, 0);
    Reach(s1, StartRelease(0, 0), Releasing(s1, 0, 0));
    var s2 := Releasing(s1, 0, 0);
    Reopens(s2, 2, 1);
    before, s := ReleasedAndFailed(Reopened(s2, 2, 1), 3, 1);
  }

  /** The release of a created file's channel is held up while a second writer commits [200] and a third one, with the
      reused generation, writes [300].  Then its commit passes the owner check and fails: the file is removed, although it
      is committed. */
  lemma ReusedRevertRace() returns (before: State, s: State)
    ensures Reverts(before, 0, s) && !s.dropped && s.inode.None? && s.remote == map[0 := [200]]
    ensures 2 in s.chans && s.chans[2].state.Writing? && s.chans[2].accepted == [[300]]
  {
    var s1 := Starting();
    s1 := Second(s1);
    s1 := Third(s1);
    s1 := Fourth(s1);
    before, s := RevertsFrom(s1, 0, 0);
  }
}
