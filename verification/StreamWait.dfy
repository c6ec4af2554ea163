/** What tasks of the streaming protocol wait for, and what they leave alone. */
module StreamWait {
  import opened Prelude
  import opened StagingLocks
  import opened Streaming
  import opened StreamInv
  import opened StreamEffects
  import opened StreamTheorems

  // ---- A reopen waits for the pending commit ----

  ghost predicate EarlyOk(s: State, t: TaskId)
    requires t in s.tasks
  {
    s.tasks[t].pc.FulfilEarly? ==> s.tasks[t].chan in s.chans && s.chans[s.tasks[t].chan].Terminal()
  }

  ghost predicate AllEarlyOk(s: State) {
    forall t {:trigger EarlyOk(s, t)} :: t in s.tasks ==> EarlyOk(s, t)
  }

  lemma EarlyStep(s: State, s': State, t: TaskId)
    requires Inv(s) && AllEarlyOk(s) && Step(s, s') && t in s'.tasks
    ensures EarlyOk(s', t)
  {
    if s'.tasks[t].pc.FulfilEarly? {
      EarlyFrom(s, s', t);
      StepSettles(s, s', s'.tasks[t].chan);
    }
  }

  lemma EarlyFrom(s: State, s': State, t: TaskId)
    requires AllEarlyOk(s) && Step(s, s') && t in s'.tasks && s'.tasks[t].pc.FulfilEarly?
    ensures s'.tasks[t].chan in s.chans && s.chans[s'.tasks[t].chan].Terminal()
  {
    StepEffect(s, s');
    if OutsideEffect(s, s') {
      assert t in s.tasks && EarlyOk(s, t);
    } else {
      var u :| Effect(s, s', u);
      if u != t { assert EarlyOk(s, t); }
    }
  }

  lemma {:induction false} RunEarly(run: seq<State>, k: nat)
    requires IsRun(run) && k < |run|
    ensures AllEarlyOk(run[k])
  {
    if k > 0 {
      RunEarly(run, k - 1);
      RunEarlyStep(run, k);
    }
  }

  lemma RunEarlyStep(run: seq<State>, k: nat)
    requires IsRun(run) && 0 < k < |run| && AllEarlyOk(run[k - 1])
    ensures AllEarlyOk(run[k])
  {
    RunStep(run, k);
    forall t | t in run[k].tasks
      ensures EarlyOk(run[k], t)
    {
      EarlyStep(run[k - 1], run[k], t);
    }
  }

  /** The channel's commit is over, or its hook is still set. */
  ghost predicate Outcome(s: State, h: Hook) {
    h.chan in s.chans && (s.chans[h.chan].Terminal() || s.chans[h.chan].hook == Some(h))
  }

  /** A hook is fulfilled on a terminal channel only. */
  lemma HookKept(s: State, s': State, h: Hook)
    requires Inv(s) && AllEarlyOk(s) && Step(s, s') && Outcome(s, h)
    ensures Outcome(s', h)
  {
    StepSettles(s, s', h.chan);
    if !s.chans[h.chan].Terminal() {
      HookStays(s, s', h);
    }
  }

  lemma HookStays(s: State, s': State, h: Hook)
    requires Inv(s) && AllEarlyOk(s) && Step(s, s') && h.chan in s.chans && h.chan in s'.chans
    requires s.chans[h.chan].hook == Some(h) && !s.chans[h.chan].Terminal()
    ensures s'.chans[h.chan].hook == Some(h)
  {
    StepEffect(s, s');
    if !OutsideEffect(s, s') {
      var u :| Effect(s, s', u);
      NotFulfilled(s, s', u, h);
    }
  }

  lemma NotFulfilled(s: State, s': State, u: TaskId, h: Hook)
    requires Inv(s) && AllEarlyOk(s) && Effect(s, s', u) && h.chan in s.chans && h.chan in s'.chans
    requires s.chans[h.chan].hook == Some(h) && !s.chans[h.chan].Terminal()
    ensures s'.chans[h.chan].hook == Some(h)
  {
    assert TaskOk(s, u) && EarlyOk(s, u);
  }

  /** `t` waits for `h`, or the commit of its channel is over. */
  ghost predicate WaitsOrOver(s: State, t: TaskId, h: Hook) {
    && h.chan in s.chans
    && (s.chans[h.chan].Terminal() || (t in s.tasks && s.tasks[t].pc == WaitHook(h) && s.chans[h.chan].hook == Some(h)))
  }

  lemma WaitStep(s: State, s': State, t: TaskId, h: Hook)
    requires Inv(s) && AllEarlyOk(s) && Step(s, s') && WaitsOrOver(s, t, h)
    ensures WaitsOrOver(s', t, h)
  {
    HookKept(s, s', h);
    if !s.chans[h.chan].Terminal() {
      StillWaits(s, s', t, h);
    } else {
      StepSettles(s, s', h.chan);
    }
  }

  lemma StillWaits(s: State, s': State, t: TaskId, h: Hook)
    requires Step(s, s') && t in s.tasks && s.tasks[t].pc == WaitHook(h) && h.chan in s.chans && s.chans[h.chan].hook == Some(h)
    ensures t in s'.tasks && s'.tasks[t].pc == WaitHook(h)
  {
    StepEffect(s, s');
    if !OutsideEffect(s, s') {
      var u :| Effect(s, s', u);
      assert u != t;
    }
  }

  lemma WaitStarts(s: State, s': State, t: TaskId)
    requires Inv(s) && AllEarlyOk(s) && Step(s, s') && s.pending.Some?
    requires t in s.tasks && s.tasks[t].pc.AwaitPending? && t in s'.tasks && s'.tasks[t] != s.tasks[t]
    ensures WaitsOrOver(s', t, s.pending.value)
  {
    HookKept(s, s', s.pending.value);
    WaitsFor(s, s', t);
  }

  lemma WaitsFor(s: State, s': State, t: TaskId)
    requires Step(s, s') && s.pending.Some?
    requires t in s.tasks && s.tasks[t].pc.AwaitPending? && t in s'.tasks && s'.tasks[t] != s.tasks[t]
    ensures s'.tasks[t].pc == WaitHook(s.pending.value)
  {
    StepEffect(s, s');
    var u :| Effect(s, s', u);
    assert u == t;
  }

  /** A reopen that finds a commit pending goes on only when that commit is over: committed or failed. */
  lemma {:induction false} ReopenWaits(run: seq<State>, j: nat, k: nat, t: TaskId)
    requires IsRun(run) && 0 < j <= k < |run| && run[j - 1].pending.Some?
    requires t in run[j - 1].tasks && run[j - 1].tasks[t].pc.AwaitPending?
    requires t in run[j].tasks && run[j].tasks[t] != run[j - 1].tasks[t]
    ensures WaitsOrOver(run[k], t, run[j - 1].pending.value)
    decreases k
  {
    RunEarly(run, k - 1);
    if j < k {
      ReopenWaits(run, j, k - 1, t);
      WaitStepAt(run, k, t, run[j - 1].pending.value);
    } else {
      WaitStartsAt(run, j, t);
    }
  }

  lemma WaitStepAt(run: seq<State>, k: nat, t: TaskId, h: Hook)
    requires IsRun(run) && 0 < k < |run| && AllEarlyOk(run[k - 1]) && WaitsOrOver(run[k - 1], t, h)
    ensures WaitsOrOver(run[k], t, h)
  {
    RunStep(run, k);
    WaitStep(run[k - 1], run[k], t, h);
  }

  lemma WaitStartsAt(run: seq<State>, j: nat, t: TaskId)
    requires IsRun(run) && 0 < j < |run| && AllEarlyOk(run[j - 1]) && run[j - 1].pending.Some?
    requires t in run[j - 1].tasks && run[j - 1].tasks[t].pc.AwaitPending?
    requires t in run[j].tasks && run[j].tasks[t] != run[j - 1].tasks[t]
    ensures WaitsOrOver(run[j], t, run[j - 1].pending.value)
  {
    RunStep(run, j);
    WaitStarts(run[j - 1], run[j], t);
  }

  // ---- Unlink leaves an open dirty file alone ----

  /** The unlink goes ahead. */
  ghost predicate Unlinking(s: State, t: TaskId) {
    t in s.tasks && s.tasks[t].job.Unlink? && (s.tasks[t].pc.UnlinkRemote? || s.tasks[t].pc.UnlinkLocal?)
  }

  /** The file is clean, or nobody is writing to it. */
  ghost predicate NothingToLose(s: State) {
    s.inode.Some? && s.inode.value.gen > 0 ==> !AnyHandle(s)
  }

  lemma UnlinkStarts(s: State, t: TaskId, ch: Choice)
    requires t in s.tasks && s.tasks[t].job.Unlink? && UnlinkStep(s, t, ch).Some? && Unlinking(UnlinkStep(s, t, ch).value, t)
    ensures Unlinking(s, t) || NothingToLose(s)
    ensures s.tasks[t].pc.Guard? || Unlinking(s, t)
  {
  }

  lemma UnlinkingStep(s: State, s': State, t: TaskId)
    requires Inv(s) && Step(s, s') && Unlinking(s', t) && (Unlinking(s, t) ==> NothingToLose(s))
    ensures NothingToLose(s')
  {
    var a :| Act(s, a) == Some(s');
    if a.Run? {
      TaskEffect(s, a.task, a.choice);
      if a.task == t {
        UnlinkStarts(s, t, a.choice);
      }
      NothingNew(s, s', a.task, t);
    } else {
      ActEffect(s, a);
      OutsideNothingNew(s, s', t);
    }
  }

  lemma NothingNew(s: State, s': State, u: TaskId, t: TaskId)
    requires Inv(s) && Effect(s, s', u) && Unlinking(s', t) && NothingToLose(s)
    requires t in s.tasks && InCrit(s.tasks[t]) && s.tasks[t].job.Unlink?
    ensures NothingToLose(s')
  {
    assert TaskOk(s, t) && TaskOk(s, u);
    if InCrit(s.tasks[u]) {
      Exclusive(s.locks, t, u);
    }
    NoNewHandle(s, s', u);
  }

  lemma NoNewHandle(s: State, s': State, u: TaskId)
    requires Effect(s, s', u) && !s.tasks[u].pc.Bump? && !s.tasks[u].pc.Insert?
    ensures AnyHandle(s') ==> AnyHandle(s)
  {
    if AnyHandle(s') {
      var c :| c in s'.chans && s'.chans[c].Handled();
      assert c in s.chans && s.chans[c].Handled();
    }
  }

  lemma OutsideNothingNew(s: State, s': State, t: TaskId)
    requires OutsideEffect(s, s') && Unlinking(s', t) && (Unlinking(s, t) ==> NothingToLose(s))
    ensures NothingToLose(s')
  {
    assert t in s.tasks;
    if AnyHandle(s') {
      var c :| c in s'.chans && s'.chans[c].Handled();
      assert c in s.chans && s.chans[c].Handled();
    }
  }

  /** In every run: an unlink that goes ahead does so on a clean file, or on one that nobody is writing to, until it has
      removed the name; acknowledged writes of an open channel are never unlinked by the task that holds its lock. */
  lemma {:induction false} UnlinkSpares(run: seq<State>, k: nat, t: TaskId)
    requires IsRun(run) && k < |run| && Unlinking(run[k], t)
    ensures NothingToLose(run[k])
  {
    assert k > 0;
    if Unlinking(run[k - 1], t) {
      UnlinkSpares(run, k - 1, t);
    }
    UnlinkSparesAt(run, k, t);
  }

  lemma UnlinkSparesAt(run: seq<State>, k: nat, t: TaskId)
    requires IsRun(run) && 0 < k < |run| && Unlinking(run[k], t) && (Unlinking(run[k - 1], t) ==> NothingToLose(run[k - 1]))
    ensures NothingToLose(run[k])
  {
    RunStep(run, k);
    UnlinkingStep(run[k - 1], run[k], t);
  }

  // ---- A release tries twice ----

  /** A release reverts only after a second attempt, or when the first has left no upload to retry with. */
  lemma RevertsLast(run: seq<State>, k: nat, t: TaskId)
    requires IsRun(run) && 0 < k < |run| && t in run[k].tasks && run[k].tasks[t].pc.Revert?
    requires t in run[k - 1].tasks && run[k - 1].tasks[t] != run[k].tasks[t]
    ensures var s, k := run[k - 1], run[k - 1].tasks[t];
            || (k.pc.Commit? && k.pc.retry)
            || (k.pc.RetryCheck? && k.chan in s.chans && s.chans[k.chan].pendingInfo.None?)
  {
    RunStep(run, k);
    StepEffect(run[k - 1], run[k]);
  }
}
