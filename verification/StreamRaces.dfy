/** States of the streaming protocol that runs do reach, in which a step that takes no lock has fallen between a
    commit's owner check and its AddFile. */
module StreamRaces {
  import opened Prelude
  import opened StagingLocks
  import opened Streaming
  import opened StreamInv

  ghost predicate Ends(run: seq<State>, s: State) {
    IsRun(run) && run[|run| - 1] == s
  }

  ghost predicate Reachable(s: State) {
    exists run :: Ends(run, s)
  }

  lemma Starts(s: State)
    requires Init(s)
    ensures Reachable(s)
  {
    assert Ends([s], s);
  }

  lemma Reach(s: State, a: Action, s': State)
    requires Reachable(s) && Act(s, a).Some? && Act(s, a).value == s'
    ensures Reachable(s')
  {
    var run :| Ends(run, s);
    var run' := run + [s'];
    forall k | 0 < k < |run'|
      ensures StepAt(run', k)
    {
      if k < |run| { assert StepAt(run, k); }
    }
    assert Ends(run', s');
  }

  const YES := Choice(true, true, false, 0)

  // ---- Task `t` commits channel 0 of a dirty file ----

  /** `others` are the other tasks. */
  function Committer(others: map<TaskId, Task>, t: TaskId, pc: Pc, linked: bool, ch: Chan): (s: State) {
    State(Locks(Some(0), 1, map[t := 0], map[0 := t]), Some(Inode(1, linked, None, 0)), !linked, map[0 := ch],
          ch.hook, if ch.hook.Some? then 1 else 0, others[t := Task(CommitNow, 0, pc)], map[])
  }

  function First(existed: bool): (c: Chan) {
    NewChan(1, existed, None).(phase := Open)
  }

  function Hooked(existed: bool): (c: Chan) {
    First(existed).(hook := Some(Hook(0, 0)))
  }

  function Flipped(existed: bool): (c: Chan) {
    Hooked(existed).(state := Committing)
  }

  /** One step of `t` that changes its place and its channel. */
  lemma Moves(o: map<TaskId, Task>, t: TaskId, linked: bool, pc: Pc, ch: Chan, pc': Pc, ch': Chan)
    requires Reachable(Committer(o, t, pc, linked, ch))
    requires var r := Act(Committer(o, t, pc, linked, ch), Run(t, YES));
             r.Some? && r.value == Committer(o, t, pc', linked, ch')
    ensures Reachable(Committer(o, t, pc', linked, ch'))
  {
    Reach(Committer(o, t, pc, linked, ch), Run(t, YES), Committer(o, t, pc', linked, ch'));
  }

  lemma InstallsAndChecks(o: map<TaskId, Task>, t: TaskId, e: bool)
    requires Reachable(Committer(o, t, Guard, true, First(e)))
    ensures Reachable(Committer(o, t, Commit(CheckOwner, false), true, Hooked(e)))
  {
    Moves(o, t, true, Guard, First(e), Install, First(e));
    Installs(o, t, e);
    Moves(o, t, true, CheckTerminal, Hooked(e), Commit(CheckOwner, false), Hooked(e));
  }

  lemma Installs(o: map<TaskId, Task>, t: TaskId, e: bool)
    requires Reachable(Committer(o, t, Install, true, First(e)))
    ensures Reachable(Committer(o, t, CheckTerminal, true, Hooked(e)))
  {
    Moves(o, t, true, Install, First(e), CheckTerminal, Hooked(e));
  }

  lemma Owns(o: map<TaskId, Task>, t: TaskId, e: bool)
    requires Reachable(Committer(o, t, Commit(CheckOwner, false), true, Hooked(e)))
    ensures Reachable(Committer(o, t, Commit(Flip, false), true, Hooked(e)))
  {
    Moves(o, t, true, Commit(CheckOwner, false), Hooked(e), Commit(Flip, false), Hooked(e));
  }

  lemma Flips(o: map<TaskId, Task>, t: TaskId, linked: bool, e: bool)
    requires Reachable(Committer(o, t, Commit(Flip, false), linked, Hooked(e)))
    ensures Reachable(Committer(o, t, Commit(TakeInfo, false), linked, Flipped(e)))
  {
    Moves(o, t, linked, Commit(Flip, false), Hooked(e), Commit(TakeInfo, false), Flipped(e));
  }

  lemma Takes(o: map<TaskId, Task>, t: TaskId, linked: bool, e: bool)
    requires Reachable(Committer(o, t, Commit(TakeInfo, false), linked, Flipped(e)))
    ensures Reachable(Committer(o, t, Commit(SendFinish, false), linked, Flipped(e)))
  {
    Moves(o, t, linked, Commit(TakeInfo, false), Flipped(e), Commit(SendFinish, false), Flipped(e));
  }

  lemma Finishes(o: map<TaskId, Task>, t: TaskId, linked: bool, e: bool)
    requires Reachable(Committer(o, t, Commit(SendFinish, false), linked, Flipped(e)))
    ensures Reachable(Committer(o, t, Commit(AwaitReply, false), linked, Flipped(e).(queue := [Finish(t)])))
  {
    assert Flipped(e).queue + [Finish(t)] == [Finish(t)];
    Moves(o, t, linked, Commit(SendFinish, false), Flipped(e), Commit(AwaitReply, false), Flipped(e).(queue := [Finish(t)]));
  }

  lemma Receives(o: map<TaskId, Task>, t: TaskId, linked: bool, e: bool)
    requires Reachable(Committer(o, t, Commit(AwaitReply, false), linked, Answered(e)))
    ensures Reachable(Committer(o, t, Commit(ReadPath([]), false), linked, Flipped(e).(running := false)))
  {
    Moves(o, t, linked, Commit(AwaitReply, false), Answered(e), Commit(ReadPath([]), false), Flipped(e).(running := false));
  }

  lemma ReadsPath(o: map<TaskId, Task>, t: TaskId, linked: bool, e: bool)
    requires Reachable(Committer(o, t, Commit(ReadPath([]), false), linked, Flipped(e).(running := false)))
    ensures Reachable(Committer(o, t, Commit(SendAdd([], 0), false), linked, Flipped(e).(running := false)))
  {
    Moves(o, t, linked, Commit(ReadPath([]), false), Flipped(e).(running := false),
          Commit(SendAdd([], 0), false), Flipped(e).(running := false));
  }

  function Answered(e: bool): (c: Chan) {
    Flipped(e).(running := false, reply := Some(Uploaded([])))
  }

  /** From the owner check to the AddFile. */
  lemma Uploads(o: map<TaskId, Task>, t: TaskId, linked: bool, e: bool)
    requires Reachable(Committer(o, t, Commit(Flip, false), linked, Hooked(e)))
    ensures Reachable(Committer(o, t, Commit(SendAdd([], 0), false), linked, Flipped(e).(running := false)))
  {
    Flips(o, t, linked, e);
    Takes(o, t, linked, e);
    Finishes(o, t, linked, e);
    Works(o, t, linked, e);
    Receives(o, t, linked, e);
    ReadsPath(o, t, linked, e);
  }

  lemma Works(o: map<TaskId, Task>, t: TaskId, linked: bool, e: bool)
    requires Reachable(Committer(o, t, Commit(AwaitReply, false), linked, Flipped(e).(queue := [Finish(t)])))
    ensures Reachable(Committer(o, t, Commit(AwaitReply, false), linked, Answered(e)))
  {
    assert [Finish(t)][1..] == [];
    Reach(Committer(o, t, Commit(AwaitReply, false), linked, Flipped(e).(queue := [Finish(t)])), Work(0, true),
          Committer(o, t, Commit(AwaitReply, false), linked, Answered(e)));
  }

  // ---- A file is renamed over ----

  /** Task `t` is about to send an AddFile for a file that is no longer linked, or no longer in the table. */
  ghost predicate SendsDropped(s: State, t: TaskId) {
    && t in s.tasks && InCrit(s.tasks[t]) && s.tasks[t].pc.Commit? && s.tasks[t].pc.at.SendAdd?
    && (s.inode.None? || !s.inode.value.linked)
  }

  /** Rename-over takes no lock, so it can fall between a commit's owner check and its AddFile. */
  lemma RenameOverRace() returns (s: State)
    ensures Reachable(s) && SendsDropped(s, 0) && s.inode.Some?
  {
    FlushCreated();
    InstallsAndChecks(map[], 0, false);
    Owns(map[], 0, false);
    var before := Committer(map[], 0, Commit(Flip, false), true, Hooked(false));
    assert AnyHandle(before) by { assert before.chans[0].Handled(); }
    Reach(before, RenameOver(false), Committer(map[], 0, Commit(Flip, false), false, Hooked(false)));
    Uploads(map[], 0, false, false);
    s := Committer(map[], 0, Commit(SendAdd([], 0), false), false, Flipped(false).(running := false));
  }

  /** A created file is flushed. */
  lemma FlushCreated()
    ensures Reachable(Committer(map[], 0, Guard, true, First(false)))
  {
    var s0 := State(Locks(None, 0, map[], map[]), Some(Inode(1, true, None, 0)), false, map[0 := First(false)], None, 0,
                    map[], map[]);
    var s1 := s0.(tasks := map[0 := Task(CommitNow, 0, GetLock)]);
    var s2 := s0.(locks := Locks(Some(0), 1, map[0 := 0], map[]), tasks := map[0 := Task(CommitNow, 0, AcquireLock)]);
    Starts(s0);
    Reach(s0, StartFlush(0, 0, true), s1);
    Reach(s1, Run(0, YES), s2);
    Reach(s2, Run(0, YES), Committer(map[], 0, Guard, true, First(false)));
  }

  // ---- A lookup's 404 comes late ----

  /** Task 0 reopens a committed file. */
  function Reopener(gen: nat, pc: Pc, refs: map<TaskId, LockId>, held: map<LockId, TaskId>, chans: map<ChanId, Chan>)
    : (s: State)
  {
    State(Locks(Some(0), 1, refs, held), Some(Inode(gen, true, None, 0)), false, chans, None, 0,
          map[0 := Task(Reopen, 0, pc)], map[])
  }

  const IN: map<nat, nat> := map[0 := 0]

  lemma ReopenLocks()
    ensures Reachable(Reopener(0, Guard, IN, IN, map[]))
  {
    var s0 := State(Locks(None, 0, map[], map[]), Some(Inode(0, true, None, 0)), false, map[], None, 0, map[], map[]);
    var s1 := s0.(tasks := map[0 := Task(Reopen, 0, AwaitPending)]);
    var s2 := s0.(tasks := map[0 := Task(Reopen, 0, GetLock)]);
    Starts(s0);
    Reach(s0, StartReopen(0), s1);
    Reach(s1, Run(0, YES), s2);
    Reach(s2, Run(0, YES), Reopener(0, AcquireLock, IN, map[], map[]));
    Reach(Reopener(0, AcquireLock, IN, map[], map[]), Run(0, YES), Reopener(0, Guard, IN, IN, map[]));
  }

  function Made(gen: nat, phase: Phase): (m: map<ChanId, Chan>) {
    map[0 := NewChan(gen, true, None).(phase := phase)]
  }

  lemma ReopenSetup()
    requires Reachable(Reopener(0, Guard, IN, IN, map[]))
    ensures Reachable(Reopener(0, FailOld(None), IN, IN, Made(0, Fresh)))
  {
    Reach(Reopener(0, Guard, IN, IN, map[]), Run(0, YES), Reopener(0, Setup(None, true, None), IN, IN, map[]));
    Reach(Reopener(0, Setup(None, true, None), IN, IN, map[]), Run(0, YES), Reopener(0, FailOld(None), IN, IN, Made(0, Fresh)));
  }

  lemma ReopenDirties()
    requires Reachable(Reopener(0, FailOld(None), IN, IN, Made(0, Fresh)))
    ensures Reachable(Reopener(1, Bump, IN, IN, Made(1, Fresh)))
  {
    Reach(Reopener(0, FailOld(None), IN, IN, Made(0, Fresh)), Run(0, YES), Reopener(0, SetDirty, IN, IN, Made(0, Fresh)));
    Reach(Reopener(0, SetDirty, IN, IN, Made(0, Fresh)), Run(0, YES), Reopener(1, Bump, IN, IN, Made(1, Fresh)));
  }

  lemma ReopenCounts()
    requires Reachable(Reopener(1, Bump, IN, IN, Made(1, Fresh)))
    ensures Reachable(Reopener(1, Insert, IN, IN, Made(1, Counted)))
  {
    Reach(Reopener(1, Bump, IN, IN, Made(1, Fresh)), Run(0, YES), Reopener(1, Insert, IN, IN, Made(1, Counted)));
  }

  lemma ReopenMarks()
    requires Reachable(Reopener(1, Bump, IN, IN, Made(1, Fresh)))
    ensures Reachable(Reopener(1, ReleaseLock, IN, IN, map[0 := First(true)]))
  {
    ReopenCounts();
    Reach(Reopener(1, Insert, IN, IN, Made(1, Counted)), Run(0, YES), Reopener(1, ReleaseLock, IN, IN, map[0 := First(true)]));
  }

  lemma ReopenUnlocks()
    requires Reachable(Reopener(1, ReleaseLock, IN, IN, map[0 := First(true)]))
    ensures Reachable(Reopener(1, DropLock, IN, map[], map[0 := First(true)]))
  {
    assert IN - {0} == map[];
    Reach(Reopener(1, ReleaseLock, IN, IN, map[0 := First(true)]), Run(0, YES),
          Reopener(1, DropLock, IN, map[], map[0 := First(true)]));
  }

  lemma ReopenEnds()
    requires Reachable(Reopener(1, ReleaseLock, IN, IN, map[0 := First(true)]))
    ensures Reachable(Reopener(1, Done, map[], map[], map[0 := First(true)]))
  {
    assert IN - {0} == map[];
    ReopenUnlocks();
    Reach(Reopener(1, DropLock, IN, map[], map[0 := First(true)]), Run(0, YES),
          Reopener(1, Done, map[], map[], map[0 := First(true)]));
  }

  const REOPENED: map<TaskId, Task> := map[0 := Task(Reopen, 0, Done)]

  /** Task 1 flushes the reopened file. */
  lemma FlushReopened()
    requires Reachable(Reopener(1, Done, map[], map[], map[0 := First(true)]))
    ensures Reachable(Committer(REOPENED, 1, Guard, true, First(true)))
  {
    var s0 := Reopener(1, Done, map[], map[], map[0 := First(true)]);
    var s1 := s0.(tasks := REOPENED[1 := Task(CommitNow, 0, GetLock)]);
    var s2 := s0.(locks := Locks(Some(0), 1, map[1 := 0], map[]), tasks := REOPENED[1 := Task(CommitNow, 0, AcquireLock)]);
    Reach(s0, StartFlush(1, 0, true), s1);
    assert s1.tasks[1 := Task(CommitNow, 0, AcquireLock)] == s2.tasks;
    Reach(s1, Run(1, YES), s2);
    assert s2.tasks[1 := Task(CommitNow, 0, Guard)] == REOPENED[1 := Task(CommitNow, 0, Guard)];
    Reach(s2, Run(1, YES), Committer(REOPENED, 1, Guard, true, First(true)));
  }

  /** A lookup sends a HEAD for a clean file; the file is reopened and flushed; the late 404 removes the inode
      without the lock, just before the AddFile.  Nothing was renamed over the file, nor dropped before. */
  lemma LateNotFoundRace() returns (before: State, s: State)
    ensures Reachable(before) && !before.dropped && Act(before, RemoveAny) == Some(s)
    ensures Reachable(s) && SendsDropped(s, 1) && s.inode.None?
  {
    ReopenLocks();
    ReopenSetup();
    ReopenDirties();
    ReopenMarks();
    ReopenEnds();
    FlushReopened();
    InstallsAndChecks(REOPENED, 1, true);
    Owns(REOPENED, 1, true);
    Uploads(REOPENED, 1, true, true);
    before := Committer(REOPENED, 1, Commit(SendAdd([], 0), false), true, Flipped(true).(running := false));
    s := Act(before, RemoveAny).value;
    Reach(before, RemoveAny, s);
  }

  // ---- The name goes, or changes, under the commit ----

  /** Task 0, which flushes a created file, is about to send its AddFile. */
  const SENDING: State := Committer(map[], 0, Commit(SendAdd([], 0), false), true, Flipped(false).(running := false))

  lemma SendingReachable()
    ensures Reachable(SENDING)
  {
    FlushCreated();
    InstallsAndChecks(map[], 0, false);
    Owns(map[], 0, false);
    Uploads(map[], 0, true, false);
  }

  /** An unlink found another inode under the name and has taken that one's lock; meanwhile this file was renamed to
      the name; or a poll drops an orphan whose name this file has now.  Either takes this file's link just before
      the AddFile.  Nothing was renamed over the file, nothing removed it from the table, nothing dropped it before. */
  lemma NameTakenRace() returns (s: State)
    ensures Reachable(SENDING) && !SENDING.dropped && Act(SENDING, UnlinkName) == Some(s)
    ensures Reachable(s) && SendsDropped(s, 0) && s.inode.Some?
  {
    SendingReachable();
    s := SENDING.(dropped := true, inode := Some(Inode(1, false, None, 0)));
    Reach(SENDING, UnlinkName, s);
  }

  /** The file is renamed between the commit's path read and its AddFile: it ends clean under the new path, and the Hub
      has it under the old one only. */
  lemma RenamedMeanwhileRace() returns (s: State)
    ensures Reachable(SENDING) && Reachable(s) && !s.dropped
    ensures s.inode == Some(Inode(0, true, Some([]), 1)) && s.remote == map[0 := []]
  {
    SendingReachable();
    var s1 := SENDING.(inode := Some(Inode(1, true, None, 1)));
    Reach(SENDING, Move(1, false), s1);
    var s2 := Sent(s1);
    s := Applied(s2);
  }

  const DONE: Chan := Flipped(false).(running := false, fate := Accepted([]))

  lemma Sent(s: State) returns (s': State)
    requires s == SENDING.(inode := Some(Inode(1, true, None, 1))) && Reachable(s)
    ensures Reachable(s')
    ensures s' == s.(remote := map[0 := []], chans := map[0 := DONE],
                     tasks := map[0 := Task(CommitNow, 0, Commit(Apply([]), false))])
  {
    s' := s.(remote := map[0 := []], chans := map[0 := DONE],
             tasks := map[0 := Task(CommitNow, 0, Commit(Apply([]), false))]);
    Reach(s, Run(0, YES), s');
  }

  lemma Applied(s: State) returns (s': State)
    requires Reachable(s) && s.inode == Some(Inode(1, true, None, 1)) && s.chans == map[0 := DONE]
    requires s.tasks == map[0 := Task(CommitNow, 0, Commit(Apply([]), false))]
    ensures Reachable(s') && s'.inode == Some(Inode(0, true, Some([]), 1))
    ensures s'.remote == s.remote && s'.dropped == s.dropped
  {
    s' := s.(inode := Some(Inode(0, true, Some([]), 1)), tasks := map[0 := Task(CommitNow, 0, Commit(SetDone, false))]);
    Reach(s, Run(0, YES), s');
  }
}
