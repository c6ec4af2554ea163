/** What a channel that ends committed has come to: the Hub has accepted its writes, once, or the owner check has given
    the commit up. */
module StreamFate {
  import opened Prelude
  import opened StagingLocks
  import opened Streaming
  import opened StreamInv
  import opened StreamEffects
  import opened StreamReopen
  import opened StreamTheorems

  // ---- Events of a run ----

  /** With step `j` the Hub has accepted an AddFile of `c` with this content. */
  ghost predicate AcceptsAt(run: seq<State>, j: nat, c: ChanId, content: Content)
    requires 0 < j < |run|
  {
    SomeAccepts(run[j - 1], run[j], c, content)
  }

  ghost predicate SomeAccepts(s: State, s': State, c: ChanId, content: Content) {
    exists t :: Accepts(s, s', t, c, content)
  }

  ghost predicate Accepts(s: State, s': State, t: TaskId, c: ChanId, content: Content) {
    && Accepting(s, s', t) && s.tasks[t].chan == c && s.tasks[t].pc.at.info == content
    && s.tasks[t].pc.at.path in s'.remote && s'.remote[s.tasks[t].pc.at.path] == content
  }

  /** With step `j` a commit of `c` is given up at the owner check: the file is gone, or unlinked, or dirty with another
      generation than the channel's. */
  ghost predicate SkipsAt(run: seq<State>, j: nat, c: ChanId)
    requires 0 < j < |run|
  {
    SomeSkips(run[j - 1], run[j], c)
  }

  ghost predicate SomeSkips(s: State, s': State, c: ChanId) {
    exists t :: Skips(s, s', t, c)
  }

  ghost predicate Skips(s: State, s': State, t: TaskId, c: ChanId) {
    Skipping(s, s', t) && s.tasks[t].chan == c && c in s.chans && !Committable(s, c)
  }

  // ---- A fate is decided once ----

  /** The task has decided the channel's fate and will make it terminal before it gives the lock back. */
  ghost predicate Decider(s: State, t: TaskId, c: ChanId) {
    && t in s.tasks && s.tasks[t].chan == c && InCrit(s.tasks[t])
    && (s.tasks[t].pc.MarkCommitted? || (s.tasks[t].pc.Commit? && (s.tasks[t].pc.at.Apply? || s.tasks[t].pc.at.SetDone?)))
  }

  ghost predicate Deciding(s: State, c: ChanId) {
    exists t :: Decider(s, t, c)
  }

  ghost predicate DecidedOk(s: State, c: ChanId)
    requires c in s.chans
  {
    s.chans[c].fate.Undecided? || s.chans[c].Terminal() || Deciding(s, c)
  }

  ghost predicate AllDecidedOk(s: State) {
    forall c {:trigger DecidedOk(s, c)} :: c in s.chans ==> DecidedOk(s, c)
  }

  /** Whoever accepts or skips finds the fate undecided. */
  lemma StillUndecided(s: State, t: TaskId)
    requires Inv(s) && AllDecidedOk(s) && t in s.tasks && s.tasks[t].pc.Commit? && s.tasks[t].chan in s.chans
    requires s.tasks[t].pc.at.CheckOwner? || s.tasks[t].pc.at.SendAdd?
    requires s.tasks[t].job.CommitNow? || s.tasks[t].job.Release?
    ensures s.chans[s.tasks[t].chan].fate.Undecided?
  {
    var c := s.tasks[t].chan;
    assert TaskOk(s, t) && DecidedOk(s, c);
    if Deciding(s, c) {
      var u :| Decider(s, u, c);
      assert TaskOk(s, u);
      Exclusive(s.locks, t, u);
    }
  }

  /** A decider goes on deciding until the channel is terminal. */
  lemma DeciderGoesOn(s: State, t: TaskId, ch: Choice, c: ChanId)
    requires Decider(s, t, c) && c in s.chans && TaskStep(s, t, ch).Some?
    ensures var s' := TaskStep(s, t, ch).value;
            Decider(s', t, c) || (c in s'.chans && s'.chans[c].Terminal())
  {
  }

  /** A step gives a channel its fate, or keeps it. */
  ghost predicate FateStep(s: State, s': State, c: ChanId)
    requires c in s'.chans
  {
    || (c !in s.chans && s'.chans[c].fate.Undecided?)
    || (c in s.chans && s'.chans[c].fate == s.chans[c].fate)
    || (s'.chans[c].fate.Accepted? && SomeAccepts(s, s', c, s'.chans[c].fate.content))
    || (s'.chans[c].fate.Skipped? && SomeSkips(s, s', c))
  }

  lemma StepFate(s: State, s': State, c: ChanId)
    requires Step(s, s') && c in s'.chans
    ensures FateStep(s, s', c)
  {
    StepEffect(s, s');
    if !OutsideEffect(s, s') {
      var t :| Effect(s, s', t);
      EffectFate(s, s', t, c);
    }
  }

  lemma EffectFate(s: State, s': State, t: TaskId, c: ChanId)
    requires Effect(s, s', t) && c in s'.chans
    ensures FateStep(s, s', c)
  {
    if c in s.chans && s.tasks[t].chan == c {
      if Accepting(s, s', t) {
        assert Accepts(s, s', t, c, s.tasks[t].pc.at.info);
      } else if Skipping(s, s', t) {
        assert Skips(s, s', t, c);
      }
    }
  }

  /** Accepting and skipping give the fate. */
  lemma EventGives(s: State, s': State, t: TaskId)
    requires Step(s, s') && (Accepting(s, s', t) || Skipping(s, s', t)) && s.tasks[t].chan in s.chans
    ensures s.tasks[t].chan in s'.chans
    ensures s'.chans[s.tasks[t].chan].fate == if Accepting(s, s', t) then Accepted(s.tasks[t].pc.at.info) else Skipped
  {
    StepEffect(s, s');
    if !OutsideEffect(s, s') {
      var u :| Effect(s, s', u);
      assert u == t;
      assert s'.chans[s.tasks[t].chan].fate == FateAfter(s, s', t, s.tasks[t].chan);
    }
  }

  lemma EventFrom(s: State, s': State, t: TaskId)
    requires Inv(s) && AllDecidedOk(s) && Step(s, s') && (Accepting(s, s', t) || Skipping(s, s', t))
    ensures s.tasks[t].chan in s.chans && s.chans[s.tasks[t].chan].fate.Undecided?
  {
    assert TaskOk(s, t);
    StillUndecided(s, t);
  }

  lemma DecidedStep(s: State, s': State)
    requires Inv(s) && AllDecidedOk(s) && Step(s, s')
    ensures AllDecidedOk(s')
  {
    forall c | c in s'.chans
      ensures DecidedOk(s', c)
    {
      DecidedStepAt(s, s', c);
    }
  }

  lemma DecidedStepAt(s: State, s': State, c: ChanId)
    requires Inv(s) && AllDecidedOk(s) && Step(s, s') && c in s'.chans
    ensures DecidedOk(s', c)
  {
    FreshUndecided(s, s', c);
    NewDecider(s, s', c);
    DecidingStays(s, s', c);
    TerminalStays(s, s', c);
    DecidedNext(s, s', c);
  }

  lemma DecidedNext(s: State, s': State, c: ChanId)
    requires AllDecidedOk(s) && c in s'.chans && Fresh(s, s', c) && Newly(s, s', c) && GoesOn(s, s', c) && Rests(s, s', c)
    ensures DecidedOk(s', c)
  {
    if c in s.chans { assert DecidedOk(s, c); }
  }

  ghost predicate Fresh(s: State, s': State, c: ChanId) {
    c in s'.chans && c !in s.chans ==> s'.chans[c].fate.Undecided?
  }

  ghost predicate Newly(s: State, s': State, c: ChanId) {
    c in s.chans && c in s'.chans && s'.chans[c].fate != s.chans[c].fate ==> Deciding(s', c)
  }

  ghost predicate GoesOn(s: State, s': State, c: ChanId) {
    c in s.chans && Deciding(s, c) ==> c in s'.chans && (Deciding(s', c) || s'.chans[c].Terminal())
  }

  ghost predicate Rests(s: State, s': State, c: ChanId) {
    c in s.chans && s.chans[c].Terminal() ==> c in s'.chans && s'.chans[c].Terminal()
  }

  lemma FreshUndecided(s: State, s': State, c: ChanId)
    requires Step(s, s')
    ensures Fresh(s, s', c)
  {
    StepEffect(s, s');
  }

  lemma TerminalStays(s: State, s': State, c: ChanId)
    requires Inv(s) && Step(s, s')
    ensures Rests(s, s', c)
  {
    if c in s.chans { StepSettles(s, s', c); }
  }

  lemma NewDecider(s: State, s': State, c: ChanId)
    requires Inv(s) && Step(s, s')
    ensures Newly(s, s', c)
  {
    StepEffect(s, s');
    if !OutsideEffect(s, s') {
      var t :| Effect(s, s', t);
      EventDecides(s, s', t, c);
    }
  }

  lemma EventDecides(s: State, s': State, t: TaskId, c: ChanId)
    requires Inv(s) && Effect(s, s', t)
    ensures Newly(s, s', c)
  {
    if c in s.chans && c in s'.chans && s'.chans[c].fate != s.chans[c].fate {
      assert Accepting(s, s', t) || Skipping(s, s', t);
      assert TaskOk(s, t);
      assert Decider(s', t, c);
    }
  }

  lemma DecidingStays(s: State, s': State, c: ChanId)
    requires Step(s, s')
    ensures GoesOn(s, s', c)
  {
    if c in s.chans && Deciding(s, c) {
      var u :| Decider(s, u, c);
      DeciderStays(s, s', u, c);
    }
  }

  lemma DeciderStays(s: State, s': State, u: TaskId, c: ChanId)
    requires Step(s, s') && Decider(s, u, c) && c in s.chans
    ensures c in s'.chans && (Deciding(s', c) || s'.chans[c].Terminal())
  {
    var a :| Act(s, a) == Some(s');
    if a.Run? {
      TaskEffect(s, a.task, a.choice);
      if a.task == u {
        DeciderGoesOn(s, u, a.choice, c);
      } else {
        assert Decider(s', u, c);
      }
    } else {
      ActEffect(s, a);
      assert Decider(s', u, c);
    }
  }

  lemma {:induction false} RunDecided(run: seq<State>, k: nat)
    requires IsRun(run) && k < |run|
    ensures AllDecidedOk(run[k])
  {
    if k == 0 {
      forall c | c in run[0].chans
        ensures DecidedOk(run[0], c)
      {
      }
    } else {
      RunDecided(run, k - 1);
      RunDecidedStep(run, k);
    }
  }

  lemma RunDecidedStep(run: seq<State>, k: nat)
    requires IsRun(run) && 0 < k < |run| && AllDecidedOk(run[k - 1])
    ensures AllDecidedOk(run[k])
  {
    RunStep(run, k);
    DecidedStep(run[k - 1], run[k]);
  }

  /** A decided fate stays. */
  lemma {:induction false} FateStays(run: seq<State>, j: nat, k: nat, c: ChanId)
    requires IsRun(run) && j <= k < |run| && c in run[j].chans && !run[j].chans[c].fate.Undecided?
    ensures c in run[k].chans && run[k].chans[c].fate == run[j].chans[c].fate
    decreases k
  {
    if j < k {
      FateStays(run, j, k - 1, c);
      FateStaysStep(run, k, c);
    }
  }

  lemma FateStaysStep(run: seq<State>, k: nat, c: ChanId)
    requires IsRun(run) && 0 < k < |run| && c in run[k - 1].chans && !run[k - 1].chans[c].fate.Undecided?
    ensures c in run[k].chans && run[k].chans[c].fate == run[k - 1].chans[c].fate
  {
    RunDecided(run, k - 1);
    RunStep(run, k);
    StepSettles(run[k - 1], run[k], c);
    StepFate(run[k - 1], run[k], c);
    if run[k].chans[c].fate != run[k - 1].chans[c].fate {
      if run[k].chans[c].fate.Accepted? {
        var t :| Accepts(run[k - 1], run[k], t, c, run[k].chans[c].fate.content);
        EventFrom(run[k - 1], run[k], t);
      } else {
        var t :| Skips(run[k - 1], run[k], t, c);
        EventFrom(run[k - 1], run[k], t);
      }
    }
  }

  /** A fate has its event. */
  lemma {:induction false} FateSource(run: seq<State>, k: nat, c: ChanId)
    requires IsRun(run) && k < |run| && c in run[k].chans
    ensures run[k].chans[c].fate.Accepted? ==> exists j :: 0 < j <= k && AcceptsAt(run, j, c, run[k].chans[c].fate.content)
    ensures run[k].chans[c].fate.Skipped? ==> exists j :: 0 < j <= k && SkipsAt(run, j, c)
  {
    if k > 0 {
      RunStep(run, k);
      StepFate(run[k - 1], run[k], c);
      if c in run[k - 1].chans && run[k].chans[c].fate == run[k - 1].chans[c].fate {
        FateSource(run, k - 1, c);
      } else if run[k].chans[c].fate.Accepted? {
        assert AcceptsAt(run, k, c, run[k].chans[c].fate.content);
      } else if run[k].chans[c].fate.Skipped? {
        assert SkipsAt(run, k, c);
      }
    }
  }

  lemma EventAt(run: seq<State>, j: nat, t: TaskId)
    requires IsRun(run) && 0 < j < |run| && (Accepting(run[j - 1], run[j], t) || Skipping(run[j - 1], run[j], t))
    ensures var c := run[j - 1].tasks[t].chan;
            && c in run[j - 1].chans && run[j - 1].chans[c].fate.Undecided? && c in run[j].chans
            && run[j].chans[c].fate
               == if Accepting(run[j - 1], run[j], t) then Accepted(run[j - 1].tasks[t].pc.at.info) else Skipped
  {
    RunInv(run, j - 1);
    RunDecided(run, j - 1);
    RunStep(run, j);
    EventFrom(run[j - 1], run[j], t);
    EventGives(run[j - 1], run[j], t);
  }

  /** An event has its fate, now and later. */
  lemma AcceptsGives(run: seq<State>, j: nat, k: nat, c: ChanId, content: Content)
    requires IsRun(run) && 0 < j <= k < |run| && AcceptsAt(run, j, c, content)
    ensures c in run[j - 1].chans && run[j - 1].chans[c].fate.Undecided?
    ensures c in run[k].chans && run[k].chans[c].fate == Accepted(content)
  {
    var t :| Accepts(run[j - 1], run[j], t, c, content);
    EventAt(run, j, t);
    FateStays(run, j, k, c);
  }

  lemma SkipsGives(run: seq<State>, j: nat, k: nat, c: ChanId)
    requires IsRun(run) && 0 < j <= k < |run| && SkipsAt(run, j, c)
    ensures c in run[k].chans && run[k].chans[c].fate.Skipped?
  {
    var t :| Skips(run[j - 1], run[j], t, c);
    EventAt(run, j, t);
    FateStays(run, j, k, c);
  }

  // ---- The theorems ----

  /** The Hub accepts at most one AddFile of a channel. */
  lemma AcceptedOnce(run: seq<State>, i: nat, j: nat, c: ChanId, x: Content, y: Content)
    requires IsRun(run) && 0 < i < |run| && 0 < j < |run| && AcceptsAt(run, i, c, x) && AcceptsAt(run, j, c, y)
    ensures i == j && x == y
  {
    AcceptsGives(run, i, i, c, x);
    AcceptsGives(run, j, j, c, y);
    if i < j {
      AcceptsGives(run, i, j - 1, c, x);
    } else if j < i {
      AcceptsGives(run, j, i - 1, c, y);
    }
  }

  ghost predicate WasAccepted(run: seq<State>, k: nat, c: ChanId, content: Content)
    requires k < |run|
  {
    exists j :: 0 < j <= k && AcceptsAt(run, j, c, content)
  }

  ghost predicate WasSkipped(run: seq<State>, k: nat, c: ChanId)
    requires k < |run|
  {
    exists j :: 0 < j <= k && SkipsAt(run, j, c)
  }

  /** A channel that ends committed has had an AddFile with exactly its accepted writes accepted by the Hub, or its commit
      was given up at a failed owner check: one of the two, and never both. */
  lemma CommittedFate(run: seq<State>, k: nat, c: ChanId)
    requires IsRun(run) && k < |run| && c in run[k].chans && run[k].chans[c].state.Committed?
    ensures WasAccepted(run, k, c, Concat(run[k].chans[c].accepted)) <==> !WasSkipped(run, k, c)
    ensures forall x :: WasAccepted(run, k, c, x) ==> x == Concat(run[k].chans[c].accepted)
  {
    RunInv(run, k);
    assert ChanOk(run[k], c);
    FateSource(run, k, c);
    forall x | WasAccepted(run, k, c, x)
      ensures run[k].chans[c].fate == Accepted(x)
    {
      var j :| 0 < j <= k && AcceptsAt(run, j, c, x);
      AcceptsGives(run, j, k, c, x);
    }
    if WasSkipped(run, k, c) {
      var j :| 0 < j <= k && SkipsAt(run, j, c);
      SkipsGives(run, j, k, c);
    }
  }
}
