/** A run in which a superseded channel is committed over its successors, because the generation it was given has been
    reset by a commit and given out again. */
module StreamReuse {
  import opened Prelude
  import opened StagingLocks
  import opened Streaming
  import opened StreamRaces

  const FREE: Locks := Locks(Some(0), 1, map[], map[])

  function HeldBy(t: TaskId): (l: Locks) {
    Locks(Some(0), 1, map[t := 0], map[0 := t])
  }

  function At(s: State, t: TaskId, pc: Pc): (s': State)
    requires t in s.tasks
  {
    Goto(s, t, pc)
  }

  /** Nobody holds or awaits the lock. */
  predicate Idle(s: State) {
    s.locks == FREE || s.locks == Locks(None, 0, map[], map[])
  }

  // ---- The lock ----

  lemma TakesLock(s: State, t: TaskId)
    requires Reachable(s) && Idle(s) && t in s.tasks && s.tasks[t].pc.GetLock?
    requires !s.tasks[t].job.Defer? && (s.tasks[t].job.CommitNow? || s.tasks[t].job.Release? ==> s.tasks[t].chan in s.chans)
    ensures Reachable(At(s.(locks := HeldBy(t)), t, Guard))
  {
    var s1 := At(s.(locks := Locks(Some(0), 1, map[t := 0], map[])), t, AcquireLock);
    assert GetRef(s.locks, t) == s1.locks;
    Reach(s, Run(t, YES), s1);
    AcquiresLock(s, t, s1);
  }

  lemma AcquiresLock(s: State, t: TaskId, s1: State)
    requires t in s.tasks && !s.tasks[t].job.Defer?
    requires s.tasks[t].job.CommitNow? || s.tasks[t].job.Release? ==> s.tasks[t].chan in s.chans
    requires s1 == At(s.(locks := Locks(Some(0), 1, map[t := 0], map[])), t, AcquireLock) && Reachable(s1)
    ensures Reachable(At(s.(locks := HeldBy(t)), t, Guard))
  {
    var s2 := At(s.(locks := HeldBy(t)), t, Guard);
    assert s1.tasks[t := s.tasks[t].(pc := Guard)] == s2.tasks;
    assert Acquire(s1.locks, t) == s2.locks;
    Reach(s1, Run(t, YES), s2);
  }

  /** Where a task goes when it has given the lock back. */
  function Afterwards(job: Job): (pc: Pc) {
    if job.Release? then Close else Done
  }

  lemma GivesLock(s: State, t: TaskId)
    requires Reachable(s) && s.locks == HeldBy(t) && t in s.tasks && s.tasks[t].pc.ReleaseLock?
    requires s.tasks[t].job.Reopen? || ((s.tasks[t].job.CommitNow? || s.tasks[t].job.Release?) && s.tasks[t].chan in s.chans)
    ensures Reachable(At(s.(locks := FREE), t, Afterwards(s.tasks[t].job)))
  {
    var s1 := At(s.(locks := Locks(Some(0), 1, map[t := 0], map[])), t, DropLock);
    assert StagingLocks.Unlock(s.locks, t) == s1.locks;
    Reach(s, Run(t, YES), s1);
    DropsLock(s, t, s1);
  }

  lemma DropsLock(s: State, t: TaskId, s1: State)
    requires t in s.tasks && s1 == At(s.(locks := Locks(Some(0), 1, map[t := 0], map[])), t, DropLock) && Reachable(s1)
    requires s.tasks[t].job.Reopen? || ((s.tasks[t].job.CommitNow? || s.tasks[t].job.Release?) && s.tasks[t].chan in s.chans)
    ensures Reachable(At(s.(locks := FREE), t, Afterwards(s.tasks[t].job)))
  {
    var s2 := At(s.(locks := FREE), t, Afterwards(s.tasks[t].job));
    assert s1.tasks[t := s.tasks[t].(pc := Afterwards(s.tasks[t].job))] == s2.tasks;
    assert DropRef(s1.locks, t) == s2.locks;
    Reach(s1, Run(t, YES), s2);
  }

  // ---- A reopen ----

  /** Task `t` has reopened the file with the new channel `c`, whose snapshot is `h`, and is done. */
  function ReopenedFrom(s: State, t: TaskId, c: ChanId, h: Option<Content>): (s': State)
    requires s.inode.Some?
  {
    Marked(s).(locks := FREE, chans := s.chans[c := Fresh(s, h).(phase := Open)], tasks := s.tasks[t := Task(Reopen, c, Done)])
  }

  function Reopened(s: State, t: TaskId, c: ChanId): (s': State)
    requires s.inode.Some?
  {
    ReopenedFrom(s, t, c, s.inode.value.hash)
  }

  predicate NoWriter(s: State) {
    s.pending.None? && s.inode.Some? && forall d :: d in s.chans ==> !Active(s, d)
  }

  /** With the lock held and the channel made, in phase `p`. */
  function Making(s: State, t: TaskId, c: ChanId, pc: Pc, ch: Chan): (s': State) {
    s.(locks := HeldBy(t), chans := s.chans[c := ch], tasks := s.tasks[t := Task(Reopen, c, pc)])
  }

  function Marked(s: State): (s': State)
    requires s.inode.Some?
  {
    s.(inode := Some(s.inode.value.(gen := s.inode.value.gen + 1, hash := None)))
  }

  function Unmarked(h: Option<Content>): (ch: Chan) {
    NewChan(0, true, h)
  }

  function Fresh(s: State, h: Option<Content>): (ch: Chan)
    requires s.inode.Some?
  {
    NewChan(s.inode.value.gen + 1, true, h)
  }

  lemma Reopens(s: State, t: TaskId, c: ChanId)
    requires Reachable(s) && Idle(s) && NoWriter(s) && t !in s.tasks && c !in s.chans
    ensures Reachable(Reopened(s, t, c))
  {
    SnapshotTaken(s, t, c);
    EndsReopen(s, t, c, s.inode.value.hash);
  }

  /** The reopen has taken its snapshot and made its channel. */
  lemma SnapshotTaken(s: State, t: TaskId, c: ChanId)
    requires Reachable(s) && Idle(s) && NoWriter(s) && t !in s.tasks && c !in s.chans
    ensures Reachable(Making(s, t, c, FailOld(None), Unmarked(s.inode.value.hash)))
  {
    Waits(s, t);
    TakesLock(s.(tasks := s.tasks[t := Task(Reopen, 0, GetLock)]), t);
    SetsUp(s, t, c);
  }

  lemma EndsReopen(s: State, t: TaskId, c: ChanId, h: Option<Content>)
    requires s.inode.Some? && Reachable(Making(s, t, c, FailOld(None), Unmarked(h)))
    ensures Reachable(ReopenedFrom(s, t, c, h))
  {
    MarksFile(s, t, c, h);
    Registers(s, t, c, h);
    var s1 := Making(Marked(s), t, c, ReleaseLock, Fresh(s, h).(phase := Open));
    GivesLock(s1, t);
    assert s1.tasks[t := Task(Reopen, c, Done)] == s.tasks[t := Task(Reopen, c, Done)];
  }

  lemma Waits(s: State, t: TaskId)
    requires Reachable(s) && NoWriter(s) && t !in s.tasks
    ensures Reachable(s.(tasks := s.tasks[t := Task(Reopen, 0, GetLock)]))
  {
    var s1 := s.(tasks := s.tasks[t := Task(Reopen, 0, AwaitPending)]);
    var s2 := s.(tasks := s.tasks[t := Task(Reopen, 0, GetLock)]);
    Reach(s, StartReopen(t), s1);
    assert s1.tasks[t := Task(Reopen, 0, GetLock)] == s2.tasks;
    Reach(s1, Run(t, YES), s2);
  }

  lemma SetsUp(s: State, t: TaskId, c: ChanId)
    requires NoWriter(s) && t !in s.tasks && c !in s.chans
    requires Reachable(At(s.(tasks := s.tasks[t := Task(Reopen, 0, GetLock)], locks := HeldBy(t)), t, Guard))
    ensures Reachable(Making(s, t, c, FailOld(None), Unmarked(s.inode.value.hash)))
  {
    var s0 := At(s.(tasks := s.tasks[t := Task(Reopen, 0, GetLock)], locks := HeldBy(t)), t, Guard);
    var s1 := s.(locks := HeldBy(t), tasks := s.tasks[t := Task(Reopen, 0, Setup(None, true, s.inode.value.hash))]);
    assert s0.tasks[t := Task(Reopen, 0, Setup(None, true, s.inode.value.hash))] == s1.tasks;
    assert forall d :: d in s0.chans ==> (Active(s0, d) <==> Active(s, d));
    Reach(s0, Run(t, YES), s1);
    MakesChannel(s, t, c, s1);
  }

  lemma MakesChannel(s: State, t: TaskId, c: ChanId, s1: State)
    requires s.inode.Some? && c !in s.chans && Reachable(s1)
    requires s1 == s.(locks := HeldBy(t), tasks := s.tasks[t := Task(Reopen, 0, Setup(None, true, s.inode.value.hash))])
    ensures Reachable(Making(s, t, c, FailOld(None), Unmarked(s.inode.value.hash)))
  {
    var s2 := Making(s, t, c, FailOld(None), Unmarked(s.inode.value.hash));
    assert s1.tasks[t := Task(Reopen, c, FailOld(None))] == s2.tasks;
    Reach(s1, Run(t, Choice(true, true, false, c)), s2);
  }

  lemma MarksFile(s: State, t: TaskId, c: ChanId, h: Option<Content>)
    requires s.inode.Some? && Reachable(Making(s, t, c, FailOld(None), Unmarked(h)))
    ensures Reachable(Making(Marked(s), t, c, Bump, Fresh(s, h)))
  {
    var s0, s1 := Making(s, t, c, FailOld(None), Unmarked(h)), Making(s, t, c, SetDirty, Unmarked(h));
    assert s0.tasks[t := Task(Reopen, c, SetDirty)] == s1.tasks;
    Reach(s0, Run(t, YES), s1);
    MarksInode(s, t, c, h);
  }

  lemma MarksInode(s: State, t: TaskId, c: ChanId, h: Option<Content>)
    requires s.inode.Some? && Reachable(Making(s, t, c, SetDirty, Unmarked(h)))
    ensures Reachable(Making(Marked(s), t, c, Bump, Fresh(s, h)))
  {
    var s1, s2 := Making(s, t, c, SetDirty, Unmarked(h)), Making(Marked(s), t, c, Bump, Fresh(s, h));
    assert s1.tasks[t := Task(Reopen, c, Bump)] == s2.tasks;
    assert s1.chans[c := Unmarked(h).(gen := s.inode.value.gen + 1)] == s2.chans;
    Reach(s1, Run(t, YES), s2);
  }

  lemma Registers(s: State, t: TaskId, c: ChanId, h: Option<Content>)
    requires s.inode.Some? && Reachable(Making(Marked(s), t, c, Bump, Fresh(s, h)))
    ensures Reachable(Making(Marked(s), t, c, ReleaseLock, Fresh(s, h).(phase := Open)))
  {
    RegistersAs(Marked(s), t, c, Bump, Fresh(s, h), Counted, Insert);
    RegistersAs(Marked(s), t, c, Insert, Fresh(s, h).(phase := Counted), Open, ReleaseLock);
  }

  lemma RegistersAs(s: State, t: TaskId, c: ChanId, pc: Pc, ch: Chan, p: Phase, pc': Pc)
    requires Reachable(Making(s, t, c, pc, ch))
    requires (pc.Bump? && p.Counted? && pc'.Insert?) || (pc.Insert? && p.Open? && pc'.ReleaseLock?)
    ensures Reachable(Making(s, t, c, pc', ch.(phase := p)))
  {
    var s1, s2 := Making(s, t, c, pc, ch), Making(s, t, c, pc', ch.(phase := p));
    assert s1.tasks[t := Task(Reopen, c, pc')] == s2.tasks && s1.chans[c := ch.(phase := p)] == s2.chans;
    Reach(s1, Run(t, YES), s2);
  }

  // ---- A write ----

  function Written(s: State, c: ChanId, x: Chunk): (s': State)
    requires c in s.chans
  {
    s.(chans := s.chans[c := s.chans[c].(queue := [Data(x)], accepted := [x])])
  }

  lemma Writes(s: State, c: ChanId, x: Chunk)
    requires Reachable(s) && c in s.chans && s.chans[c].queue == [] && s.chans[c].accepted == []
    requires s.chans[c].phase.Open? && s.chans[c].state.Writing? && s.chans[c].running
    ensures Reachable(Written(s, c, x))
  {
    assert [] + [Data(x)] == [Data(x)] && [] + [x] == [x];
    Reach(s, Write(c, x), Written(s, c, x));
  }

  // ---- From the start of a commit to its owner check ----

  function WithHook(s: State, c: ChanId): (s': State)
    requires c in s.chans
  {
    var h := Hook(c, s.nextHook);
    s.(chans := s.chans[c := s.chans[c].(hook := Some(h))], pending := Some(h), nextHook := s.nextHook + 1)
  }

  /** Task `t` holds the lock and is about to do the owner check for `c`. */
  function Checking(s: State, t: TaskId, c: ChanId): (s': State)
    requires c in s.chans && t in s.tasks
  {
    At(WithHook(s, c).(locks := HeldBy(t)), t, Commit(CheckOwner, false))
  }

  predicate Ready(s: State, t: TaskId, c: ChanId) {
    && Idle(s) && s.pending.None? && c in s.chans && s.chans[c].hook.None? && !s.chans[c].Terminal()
    && t in s.tasks && s.tasks[t].chan == c
  }

  lemma FlushChecks(s: State, t: TaskId, c: ChanId)
    requires Reachable(s) && Ready(s, t, c) && s.tasks[t] == Task(CommitNow, c, GetLock)
    ensures Reachable(Checking(s, t, c))
  {
    TakesLock(s, t);
    Installs(s.(locks := HeldBy(t)), t, c);
  }

  lemma Installs(s: State, t: TaskId, c: ChanId)
    requires t in s.tasks && c in s.chans && Reachable(At(s, t, Guard)) && s.tasks[t] == Task(CommitNow, c, GetLock)
    requires s.pending.None? && s.chans[c].hook.None? && !s.chans[c].Terminal()
    ensures Reachable(At(WithHook(s, c), t, Commit(CheckOwner, false)))
  {
    var h := WithHook(s, c);
    Steps(At(s, t, Guard), t, Install, At(s, t, Install));
    Steps(At(s, t, Install), t, CheckTerminal, At(h, t, CheckTerminal));
    Steps(At(h, t, CheckTerminal), t, Commit(CheckOwner, false), At(h, t, Commit(CheckOwner, false)));
  }

  lemma ReleaseChecks(s: State, t: TaskId, c: ChanId)
    requires Reachable(s) && Ready(s, t, c) && s.tasks[t] == Task(Release, c, Install)
    ensures Reachable(Checking(s, t, c))
  {
    var h := WithHook(s, c);
    ReleaseInstalls(s, t, c);
    TakesLock(At(h, t, GetLock), t);
    ReleaseGuards(h.(locks := HeldBy(t)), t, c);
  }

  lemma ReleaseInstalls(s: State, t: TaskId, c: ChanId)
    requires Reachable(s) && Ready(s, t, c) && s.tasks[t] == Task(Release, c, Install)
    ensures Reachable(At(WithHook(s, c), t, GetLock))
  {
    var h := WithHook(s, c);
    Steps(s, t, CheckTerminal, At(h, t, CheckTerminal));
    Steps(At(h, t, CheckTerminal), t, Recheck, At(h, t, Recheck));
    Steps(At(h, t, Recheck), t, GetLock, At(h, t, GetLock));
  }

  lemma ReleaseGuards(h: State, t: TaskId, c: ChanId)
    requires t in h.tasks && c in h.chans && h.tasks[t].job.Release? && h.tasks[t].chan == c && !h.chans[c].Terminal()
    requires Reachable(At(At(h, t, GetLock), t, Guard))
    ensures Reachable(At(h, t, Commit(CheckOwner, false)))
  {
    assert At(At(h, t, GetLock), t, Guard) == At(h, t, Guard);
    Steps(At(h, t, Guard), t, Commit(CheckOwner, false), At(h, t, Commit(CheckOwner, false)));
  }

  // ---- From the owner check to the end of a commit ----

  /** Task `t` at `pc`, and its channel as `ch`. */
  function On(s: State, t: TaskId, c: ChanId, pc: Pc, ch: Chan): (s': State)
    requires t in s.tasks
  {
    At(s.(chans := s.chans[c := ch]), t, pc)
  }

  predicate CommitsFor(s: State, t: TaskId, c: ChanId) {
    t in s.tasks && c in s.chans && s.tasks[t].chan == c && (s.tasks[t].job.CommitNow? || s.tasks[t].job.Release?)
  }

  lemma Advances(s: State, t: TaskId, c: ChanId, pc: Pc, ch: Chan, pc': Pc, ch': Chan)
    requires CommitsFor(s, t, c) && Reachable(On(s, t, c, pc, ch))
    requires Act(On(s, t, c, pc, ch), Run(t, YES)).Some? && Act(On(s, t, c, pc, ch), Run(t, YES)).value == On(s, t, c, pc', ch')
    ensures Reachable(On(s, t, c, pc', ch'))
  {
    Reach(On(s, t, c, pc, ch), Run(t, YES), On(s, t, c, pc', ch'));
  }

  /** A channel with one write `x`, which the worker has not yet taken. */
  predicate OneWrite(ch: Chan, x: Chunk) {
    && ch.state.Writing? && ch.queue == [Data(x)] && ch.accepted == [x] && ch.uploaded == [] && !ch.failed && ch.running
    && ch.reply.None? && ch.pendingInfo.None?
  }

  function Begun(ch: Chan): (r: Chan) { ch.(state := Committing) }
  function Asked(ch: Chan, t: TaskId): (r: Chan) { Begun(ch).(queue := ch.queue + [Finish(t)]) }
  function Took(ch: Chan, t: TaskId, x: Chunk): (r: Chan) { Begun(ch).(queue := [Finish(t)], uploaded := x) }
  function Got(ch: Chan, x: Chunk): (r: Chan) { Begun(ch).(queue := [], uploaded := x, running := false) }

  lemma ChecksOwner(s: State, t: TaskId, c: ChanId, ch: Chan, x: Chunk)
    requires CommitsFor(s, t, c) && OneWrite(ch, x) && Reachable(On(s, t, c, Commit(CheckOwner, false), ch))
    requires s.inode.Some? && s.inode.value.linked && s.inode.value.gen == ch.gen
    ensures Reachable(On(s, t, c, Commit(SendFinish, false), Begun(ch)))
  {
    Advances(s, t, c, Commit(CheckOwner, false), ch, Commit(Flip, false), ch);
    Begins(s, t, c, ch, x);
    TakesInfo(s, t, c, ch, x);
  }

  lemma Begins(s: State, t: TaskId, c: ChanId, ch: Chan, x: Chunk)
    requires CommitsFor(s, t, c) && OneWrite(ch, x) && Reachable(On(s, t, c, Commit(Flip, false), ch))
    ensures Reachable(On(s, t, c, Commit(TakeInfo, false), Begun(ch)))
  {
    Advances(s, t, c, Commit(Flip, false), ch, Commit(TakeInfo, false), Begun(ch));
  }

  lemma TakesInfo(s: State, t: TaskId, c: ChanId, ch: Chan, x: Chunk)
    requires CommitsFor(s, t, c) && OneWrite(ch, x) && Reachable(On(s, t, c, Commit(TakeInfo, false), Begun(ch)))
    ensures Reachable(On(s, t, c, Commit(SendFinish, false), Begun(ch)))
  {
    Advances(s, t, c, Commit(TakeInfo, false), Begun(ch), Commit(SendFinish, false), Begun(ch));
  }

  lemma AsksWorker(s: State, t: TaskId, c: ChanId, ch: Chan, x: Chunk)
    requires CommitsFor(s, t, c) && OneWrite(ch, x) && Reachable(On(s, t, c, Commit(SendFinish, false), Begun(ch)))
    ensures Reachable(On(s, t, c, Commit(AwaitReply, false), Took(ch, t, x)))
  {
    Advances(s, t, c, Commit(SendFinish, false), Begun(ch), Commit(AwaitReply, false), Asked(ch, t));
    assert Asked(ch, t).queue[1..] == [Finish(t)] && [] + x == x;
    WorkerTakes(s, t, c, Asked(ch, t), Took(ch, t, x));
  }

  lemma WorkerTakes(s: State, t: TaskId, c: ChanId, ch: Chan, ch': Chan)
    requires CommitsFor(s, t, c) && Reachable(On(s, t, c, Commit(AwaitReply, false), ch))
    requires ch.running && ch.queue != [] && ch' == WorkStep(ch, true)
    ensures Reachable(On(s, t, c, Commit(AwaitReply, false), ch'))
  {
    Reach(On(s, t, c, Commit(AwaitReply, false), ch), Work(c, true), On(s, t, c, Commit(AwaitReply, false), ch'));
  }

  lemma WorkerAnswers(s: State, t: TaskId, c: ChanId, ch: Chan, x: Chunk)
    requires CommitsFor(s, t, c) && OneWrite(ch, x) && Reachable(On(s, t, c, Commit(AwaitReply, false), Took(ch, t, x)))
    ensures Reachable(On(s, t, c, Commit(ReadPath(x), false), Got(ch, x)))
  {
    var answered := Got(ch, x).(reply := Some(Uploaded(x)));
    assert Took(ch, t, x).queue[1..] == [];
    WorkerTakes(s, t, c, Took(ch, t, x), answered);
    Receives(s, t, c, answered, Got(ch, x), x);
  }

  lemma Receives(s: State, t: TaskId, c: ChanId, ch: Chan, ch': Chan, x: Chunk)
    requires CommitsFor(s, t, c) && ch.reply.Some? && ch.reply.value == Uploaded(x) && ch' == ch.(reply := None)
    requires Reachable(On(s, t, c, Commit(AwaitReply, false), ch))
    ensures Reachable(On(s, t, c, Commit(ReadPath(x), false), ch'))
  {
    Advances(s, t, c, Commit(AwaitReply, false), ch, Commit(ReadPath(x), false), ch');
  }

  /** The file's only path on the Hub gets the content, and the inode is clean. */
  function Stored(s: State, x: Content): (s': State)
    requires s.inode.Some?
  {
    s.(inode := Some(s.inode.value.(gen := 0, hash := Some(x))), remote := s.remote[s.inode.value.path := x])
  }

  lemma SendsAdd(s: State, t: TaskId, c: ChanId, ch: Chan, x: Chunk)
    requires CommitsFor(s, t, c) && OneWrite(ch, x) && s.inode.Some? && s.inode.value.gen == ch.gen
    requires Reachable(On(s, t, c, Commit(SendAdd(x, s.inode.value.path), false), Got(ch, x)))
    ensures Reachable(On(Stored(s, x), t, c, Commit(SetDone, false), Got(ch, x).(fate := Accepted(x))))
  {
    var sent := s.(remote := s.remote[s.inode.value.path := x]);
    Reach(On(s, t, c, Commit(SendAdd(x, s.inode.value.path), false), Got(ch, x)), Run(t, YES),
          On(sent, t, c, Commit(Apply(x), false), Got(ch, x).(fate := Accepted(x))));
    Applies(s, t, c, ch, x, sent);
  }

  lemma Applies(s: State, t: TaskId, c: ChanId, ch: Chan, x: Chunk, sent: State)
    requires CommitsFor(s, t, c) && s.inode.Some? && s.inode.value.gen == ch.gen
    requires sent == s.(remote := s.remote[s.inode.value.path := x])
    requires Reachable(On(sent, t, c, Commit(Apply(x), false), Got(ch, x).(fate := Accepted(x))))
    ensures Reachable(On(Stored(s, x), t, c, Commit(SetDone, false), Got(ch, x).(fate := Accepted(x))))
  {
    Reach(On(sent, t, c, Commit(Apply(x), false), Got(ch, x).(fate := Accepted(x))), Run(t, YES),
          On(Stored(s, x), t, c, Commit(SetDone, false), Got(ch, x).(fate := Accepted(x))));
  }

  /** The commit is about to send its AddFile. */
  lemma ReachesAdd(s: State, t: TaskId, c: ChanId, ch: Chan, x: Chunk)
    requires CommitsFor(s, t, c) && OneWrite(ch, x) && Reachable(On(s, t, c, Commit(CheckOwner, false), ch))
    requires s.inode.Some? && s.inode.value.linked && s.inode.value.gen == ch.gen
    ensures Reachable(On(s, t, c, Commit(SendAdd(x, s.inode.value.path), false), Got(ch, x)))
  {
    ChecksOwner(s, t, c, ch, x);
    AsksWorker(s, t, c, ch, x);
    WorkerAnswers(s, t, c, ch, x);
    Advances(s, t, c, Commit(ReadPath(x), false), Got(ch, x), Commit(SendAdd(x, s.inode.value.path), false), Got(ch, x));
  }

  /** The channel when its commit is over. */
  function Over(ch: Chan, x: Chunk): (r: Chan) {
    Got(ch, x).(fate := Accepted(x), state := Committed, hook := None)
  }

  /** The rest of the commit, up to the lock. */
  lemma Concludes(s: State, t: TaskId, c: ChanId, ch: Chan)
    requires CommitsFor(s, t, c) && ch.hook.Some? && s.pending == ch.hook && s.locks == HeldBy(t)
    requires Reachable(On(s, t, c, MarkCommitted, ch))
    ensures Reachable(On(s.(pending := None, locks := FREE), t, c, Afterwards(s.tasks[t].job),
                         ch.(state := Committed, hook := None)))
  {
    var done := ch.(state := Committed);
    MarksDone(s, t, c, ch);
    Fulfils(s, t, c, done);
    Unlocks(s.(pending := None), t, c, done.(hook := None));
  }

  lemma MarksDone(s: State, t: TaskId, c: ChanId, ch: Chan)
    requires CommitsFor(s, t, c) && Reachable(On(s, t, c, MarkCommitted, ch))
    ensures Reachable(On(s, t, c, FulfilDone, ch.(state := Committed)))
  {
    Advances(s, t, c, MarkCommitted, ch, FulfilDone, ch.(state := Committed));
  }

  lemma Fulfils(s: State, t: TaskId, c: ChanId, ch: Chan)
    requires CommitsFor(s, t, c) && ch.hook.Some? && s.pending == ch.hook && Reachable(On(s, t, c, FulfilDone, ch))
    ensures Reachable(On(s.(pending := None), t, c, ReleaseLock, ch.(hook := None)))
  {
    Reach(On(s, t, c, FulfilDone, ch), Run(t, YES), On(s.(pending := None), t, c, ReleaseLock, ch.(hook := None)));
  }

  lemma Unlocks(s: State, t: TaskId, c: ChanId, ch: Chan)
    requires CommitsFor(s, t, c) && s.locks == HeldBy(t) && Reachable(On(s, t, c, ReleaseLock, ch))
    ensures Reachable(On(s.(locks := FREE), t, c, Afterwards(s.tasks[t].job), ch))
  {
    GivesLock(On(s, t, c, ReleaseLock, ch), t);
    assert At(On(s, t, c, ReleaseLock, ch).(locks := FREE), t, Afterwards(s.tasks[t].job))
        == On(s.(locks := FREE), t, c, Afterwards(s.tasks[t].job), ch);
  }

  lemma Commits(s: State, t: TaskId, c: ChanId, ch: Chan, x: Chunk)
    requires CommitsFor(s, t, c) && OneWrite(ch, x) && s.inode.Some? && s.inode.value.gen == ch.gen
    requires ch.hook.Some? && s.pending == ch.hook && s.locks == HeldBy(t)
    requires Reachable(On(s, t, c, Commit(SendAdd(x, s.inode.value.path), false), Got(ch, x)))
    ensures Reachable(On(Stored(s, x).(pending := None, locks := FREE), t, c, Afterwards(s.tasks[t].job), Over(ch, x)))
  {
    SendsAdd(s, t, c, ch, x);
    var a, sent := Stored(s, x), Got(ch, x).(fate := Accepted(x));
    Advances(a, t, c, Commit(SetDone, false), sent, MarkCommitted, sent.(state := Committed));
    Concludes(a, t, c, sent.(state := Committed));
  }

  /** One step of `t` to `pc`. */
  lemma Steps(s: State, t: TaskId, pc: Pc, s': State)
    requires Reachable(s) && t in s.tasks && t in s'.tasks && s'.tasks == s.tasks[t := s.tasks[t].(pc := pc)]
    requires Act(s, Run(t, YES)).Some? && Act(s, Run(t, YES)).value == s'
    ensures Reachable(s')
  {
    Reach(s, Run(t, YES), s');
  }

  // ---- A whole commit ----

  /** The commit of the one write `x` is about to send its AddFile. */
  function AddSent(s: State, t: TaskId, c: ChanId, x: Chunk): (s': State)
    requires t in s.tasks && c in s.chans && s.inode.Some?
  {
    var h := WithHook(s, c).(locks := HeldBy(t));
    On(h, t, c, Commit(SendAdd(x, s.inode.value.path), false), Got(h.chans[c], x))
  }

  /** It is over. */
  function CommitOver(s: State, t: TaskId, c: ChanId, x: Chunk): (s': State)
    requires t in s.tasks && c in s.chans && s.inode.Some?
  {
    On(Stored(s, x).(nextHook := s.nextHook + 1, locks := FREE), t, c, Afterwards(s.tasks[t].job), Over(s.chans[c], x))
  }

  predicate OneWriteReady(s: State, t: TaskId, c: ChanId, x: Chunk) {
    && Ready(s, t, c) && CommitsFor(s, t, c) && OneWrite(s.chans[c], x)
    && s.inode.Some? && s.inode.value.linked && s.inode.value.gen == s.chans[c].gen
  }

  lemma SendsFrom(s: State, t: TaskId, c: ChanId, x: Chunk)
    requires OneWriteReady(s, t, c, x) && Reachable(Checking(s, t, c))
    ensures Reachable(AddSent(s, t, c, x))
  {
    var h := WithHook(s, c).(locks := HeldBy(t));
    assert Checking(s, t, c) == On(h, t, c, Commit(CheckOwner, false), h.chans[c]);
    ReachesAdd(h, t, c, h.chans[c], x);
  }

  lemma CommitsFrom(s: State, t: TaskId, c: ChanId, x: Chunk)
    requires OneWriteReady(s, t, c, x) && Reachable(AddSent(s, t, c, x))
    ensures Reachable(CommitOver(s, t, c, x))
  {
    var h := WithHook(s, c).(locks := HeldBy(t));
    Commits(h, t, c, h.chans[c], x);
    assert On(Stored(h, x).(pending := None, locks := FREE), t, c, Afterwards(s.tasks[t].job), Over(h.chans[c], x))
        == CommitOver(s, t, c, x);
  }

  // ---- The run ----

  /** Channel 0 of a created file, written to and released; its release stands before its first section. */
  const PARKED: Chan := NewChan(1, false, None).(phase := Closing(0), queue := [Data([100])], accepted := [[100]])

  ghost predicate Looks(s: State, gen: nat, hash: Option<Content>, chans: map<ChanId, Chan>, remote: map<Path, Content>) {
    && Reachable(s) && Idle(s) && s.pending.None? && !s.dropped && s.inode.Some?
    && s.inode.value == Inode(gen, true, hash, 0) && s.chans == chans && s.remote == remote
  }

  lemma Starting() returns (s: State)
    ensures Looks(s, 1, None, map[0 := PARKED], map[]) && s.tasks == map[0 := Task(Release, 0, Install)]
  {
    var s0 := State(Locks(None, 0, map[], map[]), Some(Inode(1, true, None, 0)), false, map[0 := First(false)], None, 0,
                    map[], map[]);
    Starts(s0);
    Writes(s0, 0, [100]);
    s := s0.(chans := map[0 := PARKED], tasks := map[0 := Task(Release, 0, Install)]);
    Reach(Written(s0, 0, [100]), StartRelease(0, 0), s);
  }

  function Writer(gen: nat, hash: Option<Content>): (ch: Chan) {
    NewChan(gen, true, hash).(phase := Open)
  }

  function WriterOf(gen: nat, hash: Option<Content>, x: Chunk): (ch: Chan) {
    Writer(gen, hash).(queue := [Data(x)], accepted := [x])
  }

  /** Reopen 1 makes channel 1, with generation 2, and writes to it. */
  lemma Second(s: State) returns (s': State)
    requires Looks(s, 1, None, map[0 := PARKED], map[]) && s.tasks == map[0 := Task(Release, 0, Install)]
    ensures Looks(s', 2, None, map[0 := PARKED, 1 := WriterOf(2, None, [200])], map[])
    ensures s'.tasks.Keys == {0, 1} && s'.tasks[0] == Task(Release, 0, Install)
  {
    Reopens(s, 1, 1);
    Writes(Reopened(s, 1, 1), 1, [200]);
    s' := Written(Reopened(s, 1, 1), 1, [200]);
  }

  const FLUSHED: Chan := Over(WriterOf(2, None, [200]), [200])

  /** It is flushed, which resets the generation. */
  lemma Third(s: State) returns (s': State)
    requires Looks(s, 2, None, map[0 := PARKED, 1 := WriterOf(2, None, [200])], map[])
    requires s.tasks.Keys == {0, 1} && s.tasks[0] == Task(Release, 0, Install)
    ensures Looks(s', 0, Some([200]), map[0 := PARKED, 1 := FLUSHED], map[0 := [200]])
    ensures s'.tasks.Keys == {0, 1, 2} && s'.tasks[0] == Task(Release, 0, Install)
  {
    var s1 := s.(tasks := s.tasks[2 := Task(CommitNow, 1, GetLock)]);
    Reach(s, StartFlush(2, 1, true), s1);
    FlushChecks(s1, 2, 1);
    SendsFrom(s1, 2, 1, [200]);
    CommitsFrom(s1, 2, 1, [200]);
    s' := CommitOver(s1, 2, 1, [200]);
  }

  /** Reopen 3 makes channel 2, with generation 1, and writes to it. */
  lemma Fourth(s: State) returns (s': State)
    requires Looks(s, 0, Some([200]), map[0 := PARKED, 1 := FLUSHED], map[0 := [200]])
    requires s.tasks.Keys == {0, 1, 2} && s.tasks[0] == Task(Release, 0, Install)
    ensures Looks(s', 1, None, map[0 := PARKED, 1 := FLUSHED, 2 := WriterOf(1, Some([200]), [300])], map[0 := [200]])
    ensures s'.tasks.Keys == {0, 1, 2, 3} && s'.tasks[0] == Task(Release, 0, Install)
  {
    Reopens(s, 3, 2);
    Writes(Reopened(s, 3, 2), 2, [300]);
    s' := Written(Reopened(s, 3, 2), 2, [300]);
  }

  const REVIVED: Chan := Over(PARKED, [100])

  /** Now the release of channel 0 goes on: its generation is the inode's again. */
  lemma Fifth(s: State) returns (s': State)
    requires Looks(s, 1, None, map[0 := PARKED, 1 := FLUSHED, 2 := WriterOf(1, Some([200]), [300])], map[0 := [200]])
    requires s.tasks.Keys == {0, 1, 2, 3} && s.tasks[0] == Task(Release, 0, Install)
    ensures Looks(s', 0, Some([100]), map[0 := REVIVED, 1 := FLUSHED, 2 := WriterOf(1, Some([200]), [300])], map[0 := [100]])
    ensures s'.tasks.Keys == {0, 1, 2, 3}
  {
    ReleaseChecks(s, 0, 0);
    SendsFrom(s, 0, 0, [100]);
    CommitsFrom(s, 0, 0, [100]);
    s' := CommitOver(s, 0, 0, [100]);
  }

  /** The release of channel 2 finds that the file is clean, and gives its commit up. */
  lemma Sixth(s: State) returns (s': State)
    requires Looks(s, 0, Some([100]), map[0 := REVIVED, 1 := FLUSHED, 2 := WriterOf(1, Some([200]), [300])], map[0 := [100]])
    requires s.tasks.Keys == {0, 1, 2, 3}
    ensures Reachable(s') && !s'.dropped && s'.inode.Some? && s'.inode.value == Inode(0, true, Some([100]), 0)
    ensures s'.remote == map[0 := [100]] && 2 in s'.chans && s'.chans[2].accepted == [[300]]
    ensures s'.chans[2].state.Committed? && s'.chans[2].fate.Skipped?
  {
    var s1 := SetPhase(s, 2, Closing(4)).(tasks := s.tasks[4 := Task(Release, 2, Install)]);
    Reach(s, StartRelease(4, 2), s1);
    ReleaseChecks(s1, 4, 2);
    s' := GivesUp(WithHook(s1, 2).(locks := HeldBy(4)), 4, 2);
  }

  lemma GivesUp(s: State, t: TaskId, c: ChanId) returns (s': State)
    requires CommitsFor(s, t, c) && s.inode.Some? && s.inode.value.gen != s.chans[c].gen
    requires Reachable(At(s, t, Commit(CheckOwner, false)))
    ensures Reachable(s') && s'.inode == s.inode && s'.remote == s.remote && s'.dropped == s.dropped && c in s'.chans
    ensures s'.chans[c] == s.chans[c].(fate := Skipped, state := Committed)
  {
    var skipped := s.chans[c].(fate := Skipped);
    Reach(At(s, t, Commit(CheckOwner, false)), Run(t, YES), On(s, t, c, MarkCommitted, skipped));
    MarksDone(s, t, c, skipped);
    s' := On(s, t, c, FulfilDone, skipped.(state := Committed));
  }

  /** A writer releases channel 0, and the release is held up.  A second writer reopens the file and flushes [200], a
      third one reopens it and writes [300].  Then the old release passes the owner check, puts [100] over the Hub's
      [200] and takes the dirty mark of the third channel, whose commit is given up: it ends committed, and its
      acknowledged [300] is nowhere. */
  lemma ReusedGenerationRace() returns (s: State)
    ensures Reachable(s) && !s.dropped && s.inode.Some? && s.inode.value == Inode(0, true, Some([100]), 0)
    ensures s.remote == map[0 := [100]] && 2 in s.chans && s.chans[2].accepted == [[300]]
    ensures s.chans[2].state.Committed? && s.chans[2].fate.Skipped?
  {
    s := Starting();
    s := Second(s);
    s := Third(s);
    s := Fourth(s);
    s := Fifth(s);
    s := Sixth(s);
  }
}
