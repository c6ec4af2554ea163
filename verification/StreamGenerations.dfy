/** What the generation check of a commit can tell.  A marking raises the inode's generation; a commit and a revert set
    it back to zero, and then generations are used again. */
module StreamGenerations {
  import opened StagingLocks
  import opened Streaming
  import opened StreamInv
  import opened StreamEffects
  import opened StreamReopen
  import opened StreamTheorems
  import opened StreamPaths

  // ---- Steps ----

  ghost predicate Raised(s: State, s': State) {
    s.inode.Some? && s'.inode.Some? && s'.inode.value.gen > s.inode.value.gen
  }

  ghost predicate Lowered(s: State, s': State) {
    s.inode.Some? && s'.inode.Some? && s'.inode.value.gen < s.inode.value.gen
  }

  /** A reopen marks the inode for its new channel `c`, which takes the generation. */
  ghost predicate Marks(s: State, s': State, c: ChanId) {
    && Raised(s, s') && c in s'.chans && s'.chans[c].gen == s'.inode.value.gen == s.inode.value.gen + 1
    && exists t :: MarkingTask(s, t, c)
  }

  ghost predicate MarkingTask(s: State, t: TaskId, c: ChanId) {
    t in s.tasks && s.tasks[t].job.Reopen? && s.tasks[t].pc.SetDirty? && s.tasks[t].chan == c
  }

  /** A commit that has the inode's generation is applied, or a failed one is reverted. */
  ghost predicate Resets(s: State, t: TaskId) {
    && t in s.tasks && s.tasks[t].chan in s.chans
    && (s.tasks[t].pc.Revert? || (s.tasks[t].pc.Commit? && s.tasks[t].pc.at.Apply? && Owns(s, s.tasks[t].chan)))
  }

  /** Only the marking for a new writer raises the generation. */
  lemma RaisedBy(s: State, s': State)
    requires Inv(s) && Step(s, s') && Raised(s, s')
    ensures exists c :: Marks(s, s', c)
  {
    StepEffect(s, s');
    var t :| Effect(s, s', t);
    RaisingTask(s, s', t);
  }

  lemma RaisingTask(s: State, s': State, t: TaskId)
    requires Inv(s) && Effect(s, s', t) && Raised(s, s')
    ensures Marks(s, s', s.tasks[t].chan)
  {
    assert s.tasks[t].pc.SetDirty?;
    assert TaskOk(s, t);
    assert MarkingTask(s, t, s.tasks[t].chan);
  }

  /** Only a commit and a revert lower it, to zero. */
  lemma LoweredBy(s: State, s': State)
    requires Step(s, s') && Lowered(s, s')
    ensures s'.inode.value.gen == 0 && exists t :: Resets(s, t)
  {
    StepEffect(s, s');
    var t :| Effect(s, s', t);
    assert Resets(s, t);
  }

  /** A channel gets a generation by its marking only. */
  lemma GenFrom(s: State, s': State, c: ChanId)
    requires Inv(s) && Step(s, s') && c in s'.chans && s'.chans[c].gen > 0
    ensures (c in s.chans && s'.chans[c].gen == s.chans[c].gen) || Marks(s, s', c)
  {
    StepEffect(s, s');
    if !OutsideEffect(s, s') {
      var t :| Effect(s, s', t);
      GenBy(s, s', t, c);
    }
  }

  lemma GenBy(s: State, s': State, t: TaskId, c: ChanId)
    requires Inv(s) && Effect(s, s', t) && c in s'.chans && s'.chans[c].gen > 0
    ensures (c in s.chans && s'.chans[c].gen == s.chans[c].gen) || Marks(s, s', c)
  {
    if c in s.chans && s.tasks[t].chan == c && s.tasks[t].pc.SetDirty? && s.inode.Some? {
      assert TaskOk(s, t);
      assert MarkingTask(s, t, c);
    }
  }

  // ---- Runs ----

  ghost predicate RaisedAt(run: seq<State>, j: nat)
    requires 0 < j < |run|
  {
    Raised(run[j - 1], run[j])
  }

  ghost predicate LoweredAt(run: seq<State>, j: nat)
    requires 0 < j < |run|
  {
    Lowered(run[j - 1], run[j])
  }

  /** `create` has inserted the inode dirty for the channel, or a reopen has marked it at `m`. */
  ghost predicate MarkedAt(run: seq<State>, m: nat, c: ChanId)
    requires m < |run|
  {
    && c in run[m].chans && run[m].inode.Some? && run[m].chans[c].gen == run[m].inode.value.gen
    && (m > 0 ==> Marks(run[m - 1], run[m], c))
  }

  /** A newer writer has marked the inode since. */
  ghost predicate Superseded(run: seq<State>, m: nat, k: nat)
    requires k < |run|
  {
    exists j :: m < j <= k && RaisedAt(run, j)
  }

  /** A commit or a revert has set the generation back since. */
  ghost predicate WasReset(run: seq<State>, m: nat, k: nat)
    requires k < |run|
  {
    exists j :: m < j <= k && LoweredAt(run, j)
  }

  lemma {:induction false} MarkOf(run: seq<State>, k: nat, c: ChanId) returns (m: nat)
    requires IsRun(run) && k < |run| && c in run[k].chans && run[k].chans[c].gen > 0
    ensures m <= k && MarkedAt(run, m, c) && run[m].chans[c].gen == run[k].chans[c].gen
  {
    if k == 0 {
      m := 0;
    } else {
      MarkOrBefore(run, k, c);
      if MarkedAt(run, k, c) {
        m := k;
      } else {
        m := MarkOf(run, k - 1, c);
      }
    }
  }

  lemma MarkOrBefore(run: seq<State>, k: nat, c: ChanId)
    requires IsRun(run) && 0 < k < |run| && c in run[k].chans && run[k].chans[c].gen > 0
    ensures MarkedAt(run, k, c) || (c in run[k - 1].chans && run[k].chans[c].gen == run[k - 1].chans[c].gen)
  {
    RunStep(run, k);
    GenFrom(run[k - 1], run[k], c);
  }

  lemma StillThere(run: seq<State>, k: nat)
    requires IsRun(run) && 0 < k < |run| && run[k].inode.Some?
    ensures run[k - 1].inode.Some?
  {
    RunStep(run, k);
    if run[k - 1].inode.None? { StepGone(run[k - 1], run[k]); }
  }

  /** Without a marking the generation does not grow, and shrinks if it was reset. */
  lemma {:induction false} NotRaised(run: seq<State>, m: nat, k: nat)
    requires IsRun(run) && m <= k < |run| && run[k].inode.Some? && !Superseded(run, m, k)
    ensures run[m].inode.Some?
    ensures run[k].inode.value.gen <= run[m].inode.value.gen
    ensures WasReset(run, m, k) ==> run[k].inode.value.gen < run[m].inode.value.gen
    decreases k
  {
    if m < k {
      StillThere(run, k);
      assert !RaisedAt(run, k);
      assert !Superseded(run, m, k - 1);
      NotRaised(run, m, k - 1);
      if WasReset(run, m, k) && !WasReset(run, m, k - 1) {
        assert LoweredAt(run, k);
      }
    }
  }

  /** Without a reset it does not shrink, and grows if the inode was marked. */
  lemma {:induction false} NotReset(run: seq<State>, m: nat, k: nat)
    requires IsRun(run) && m <= k < |run| && run[k].inode.Some? && !WasReset(run, m, k)
    ensures run[m].inode.Some?
    ensures run[k].inode.value.gen >= run[m].inode.value.gen
    ensures Superseded(run, m, k) ==> run[k].inode.value.gen > run[m].inode.value.gen
    decreases k
  {
    if m < k {
      StillThere(run, k);
      assert !LoweredAt(run, k);
      assert !WasReset(run, m, k - 1);
      NotReset(run, m, k - 1);
      if Superseded(run, m, k) && !Superseded(run, m, k - 1) {
        assert RaisedAt(run, k);
      }
    }
  }

  // ---- The theorems ----

  /** As long as no commit and no revert has reset the generation since the channel was marked, the generation check
      tells exactly whether a newer writer has superseded the channel. */
  lemma CheckIsExact(run: seq<State>, k: nat, c: ChanId) returns (m: nat)
    requires IsRun(run) && k < |run| && c in run[k].chans && run[k].chans[c].gen > 0 && run[k].inode.Some?
    ensures m <= k && MarkedAt(run, m, c)
    ensures !WasReset(run, m, k) ==> (Owns(run[k], c) <==> !Superseded(run, m, k))
    ensures !Superseded(run, m, k) ==> (Owns(run[k], c) <==> !WasReset(run, m, k))
  {
    m := MarkOf(run, k, c);
    if !WasReset(run, m, k) { NotReset(run, m, k); }
    if !Superseded(run, m, k) { NotRaised(run, m, k); }
  }

  /** So the AddFile of a superseded channel is sent exactly when a commit or a revert has come in between. */
  lemma SupersededIff(run: seq<State>, k: nat, t: TaskId) returns (m: nat)
    requires IsRun(run) && k < |run| && Sending(run[k], t) && InCrit(run[k].tasks[t]) && run[k].inode.Some?
    ensures m <= k && MarkedAt(run, m, run[k].tasks[t].chan)
    ensures Superseded(run, m, k) <==> WasReset(run, m, k)
  {
    var c := run[k].tasks[t].chan;
    AddFileOwned(run, k, t);
    RunInv(run, k);
    SenderMarked(run[k], t);
    m := CheckIsExact(run, k, c);
  }

  lemma SenderMarked(s: State, t: TaskId)
    requires Inv(s) && Sending(s, t) && InCrit(s.tasks[t]) && s.inode.Some?
    ensures s.tasks[t].chan in s.chans && s.chans[s.tasks[t].chan].gen > 0
  {
    assert TaskOk(s, t);
    assert ChanOk(s, s.tasks[t].chan);
  }
}
