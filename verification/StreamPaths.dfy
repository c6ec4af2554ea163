/** Which path the AddFile of a streaming commit carries: rename takes no lock. */
module StreamPaths {
  import opened StagingLocks
  import opened Streaming
  import opened StreamEffects
  import opened StreamTheorems

  ghost predicate Reads(s: State, t: TaskId) {
    t in s.tasks && s.tasks[t].pc.Commit? && s.tasks[t].pc.at.ReadPath? && s.inode.Some?
  }

  /** The task has been at this AddFile from `j + 1` to `k`. */
  ghost predicate SendsSince(run: seq<State>, j: nat, k: nat, t: TaskId)
    requires k < |run|
  {
    forall i {:trigger run[i]} :: j < i <= k ==> Sending(run[i], t) && Sending(run[k], t) && run[i].tasks[t] == run[k].tasks[t]
  }

  /** The AddFile carries the path that the inode had at `j`, when the commit read it; from then on the commit has only
      waited for the Hub.  So it goes to the file's path exactly when the renames since, if any, led back to it. */
  lemma {:induction false} AddPathRead(run: seq<State>, k: nat, t: TaskId) returns (j: nat)
    requires IsRun(run) && k < |run| && Sending(run[k], t)
    ensures j < k && Reads(run[j], t) && run[k].tasks[t].pc.at.path == run[j].inode.value.path
    ensures SendsSince(run, j, k, t)
  {
    OneBack(run, k, t);
    if t in run[k - 1].tasks && run[k - 1].tasks[t] == run[k].tasks[t] {
      j := AddPathRead(run, k - 1, t);
      SinceLonger(run, j, k, t);
    } else {
      j := k - 1;
    }
  }

  lemma OneBack(run: seq<State>, k: nat, t: TaskId)
    requires IsRun(run) && k < |run| && Sending(run[k], t)
    ensures k > 0
    ensures || (t in run[k - 1].tasks && run[k - 1].tasks[t] == run[k].tasks[t])
            || (Reads(run[k - 1], t) && run[k].tasks[t].pc.at.path == run[k - 1].inode.value.path)
  {
    assert k > 0;
    RunStep(run, k);
    if !(t in run[k - 1].tasks && run[k - 1].tasks[t] == run[k].tasks[t]) {
      StepSends(run[k - 1], run[k], t);
    }
  }

  lemma SinceLonger(run: seq<State>, j: nat, k: nat, t: TaskId)
    requires j < k < |run| && 0 < k && SendsSince(run, j, k - 1, t) && Sending(run[k], t)
    requires t in run[k - 1].tasks && run[k - 1].tasks[t] == run[k].tasks[t]
    ensures SendsSince(run, j, k, t)
  {
  }

  /** Without a rename since `j` the AddFile goes to the path that the file has. */
  lemma AddPathKept(run: seq<State>, k: nat, t: TaskId) returns (j: nat)
    requires IsRun(run) && k < |run| && Sending(run[k], t) && run[k].inode.Some?
    ensures j < k && Reads(run[j], t) && SendsSince(run, j, k, t)
    ensures || run[k].tasks[t].pc.at.path == run[k].inode.value.path
            || exists i :: j < i <= k && !SamePath(run[i - 1], run[i])
  {
    j := AddPathRead(run, k, t);
    if forall i :: j < i <= k ==> SamePath(run[i - 1], run[i]) {
      StaysThere(run, j, k);
    }
  }

  /** The step is no rename of the file. */
  ghost predicate SamePath(s: State, s': State) {
    s.inode.Some? && s'.inode.Some? ==> s'.inode.value.path == s.inode.value.path
  }

  lemma {:induction false} StaysThere(run: seq<State>, j: nat, k: nat)
    requires IsRun(run) && j <= k < |run| && run[k].inode.Some?
    requires forall i :: j < i <= k ==> SamePath(run[i - 1], run[i])
    ensures run[j].inode.Some? && run[j].inode.value.path == run[k].inode.value.path
    decreases k
  {
    if j < k {
      RunStep(run, k);
      if run[k - 1].inode.None? { StepGone(run[k - 1], run[k]); }
      assert SamePath(run[k - 1], run[k]);
      StaysThere(run, j, k - 1);
    }
  }

  // ---- Single steps ----

  /** An inode that has left the table does not come back. */
  lemma StepGone(s: State, s': State)
    requires Step(s, s') && s.inode.None?
    ensures s'.inode.None?
  {
    StepEffect(s, s');
  }

  /** Only reading the path leads to the AddFile. */
  lemma StepSends(s: State, s': State, t: TaskId)
    requires Step(s, s') && Sending(s', t) && !(t in s.tasks && s.tasks[t] == s'.tasks[t])
    ensures Reads(s, t) && s'.tasks[t].pc.at.path == s.inode.value.path
  {
    StepEffect(s, s');
  }
}
