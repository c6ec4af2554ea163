/** What a failed commit's revert leaves: when it is what the file was when it last was clean. */
module StreamRevert {
  import opened Prelude
  import opened StagingLocks
  import opened Streaming
  import opened StreamInv
  import opened StreamEffects
  import opened StreamReopen
  import opened StreamTheorems
  import opened StreamGenerations

  /** What there is to go back to: a file that did not exist, or one with this hash. */
  datatype Base = New | Was(hash: Option<Content>)

  /** What a channel goes back to. */
  function BaseOf(ch: Chan): (b: Base) {
    if ch.existedBefore then Was(ch.snapshot) else New
  }

  /** The last state in which the inode was clean, if it ever was. */
  ghost function LastClean(run: seq<State>, k: nat): (b: Base)
    requires k < |run|
  {
    if run[k].inode.Some? && run[k].inode.value.gen == 0 then Was(run[k].inode.value.hash)
    else if k == 0 then New
    else LastClean(run, k - 1)
  }

  // ---- The reopen's set-up ----

  /** The reopen has taken its snapshot and not yet marked the inode. */
  predicate SettingUp(k: Task) {
    k.job.Reopen? && (k.pc.Setup? || k.pc.FailOld? || k.pc.FulfilOld? || k.pc.SetDirty?)
  }

  ghost predicate SettingUpAt(s: State, t: TaskId) {
    t in s.tasks && SettingUp(s.tasks[t]) && (!s.tasks[t].pc.Setup? ==> s.tasks[t].chan in s.chans)
  }

  /** The snapshot it carries. */
  function Carries(s: State, t: TaskId): (b: Base)
    requires t in s.tasks && (s.tasks[t].pc.Setup? || s.tasks[t].chan in s.chans)
  {
    var k := s.tasks[t];
    if k.pc.Setup? then (if k.pc.existedBefore then Was(k.pc.snapshot) else New) else BaseOf(s.chans[k.chan])
  }

  ghost predicate NoActive(s: State) {
    forall d :: d in s.chans ==> !Active(s, d)
  }

  /** A snapshot taken in `s`: the active writer's, or the inode's hash if there is none. */
  ghost predicate TakenIn(s: State, b: Base) {
    s.inode.Some? && if NoActive(s) then b == Was(s.inode.value.hash) else exists a :: Inherits(s, a, b)
  }

  ghost predicate Inherits(s: State, a: ChanId, b: Base) {
    Active(s, a) && b == BaseOf(s.chans[a])
  }

  /** From `g` on the task `t` sets up a channel, with the lock in its hands. */
  ghost predicate SetsUpFrom(run: seq<State>, g: nat, k: nat, t: TaskId)
    requires k < |run|
  {
    && g < k && t in run[g].tasks && run[g].tasks[t].job.Reopen? && run[g].tasks[t].pc.Guard?
    && forall i {:trigger run[i]} :: g < i <= k ==> SettingUpAt(run[i], t)
  }

  lemma SetUpStep(s: State, s': State, t: TaskId)
    requires Inv(s) && Step(s, s') && SettingUpAt(s', t)
    ensures || (SettingUpAt(s, t) && Carries(s', t) == Carries(s, t))
            || (t in s.tasks && s.tasks[t].job.Reopen? && s.tasks[t].pc.Guard? && TakenIn(s, Carries(s', t)))
  {
    StepEffect(s, s');
    if OutsideEffect(s, s') {
      NotNew(s, s', t);
    } else {
      var u :| Effect(s, s', u);
      SetUpBy(s, s', u, t);
    }
  }

  /** A task that has just started has taken no snapshot. */
  lemma NotNew(s: State, s': State, t: TaskId)
    requires Inv(s) && Step(s, s') && OutsideEffect(s, s') && SettingUpAt(s', t)
    ensures SettingUpAt(s, t) && Carries(s', t) == Carries(s, t)
  {
    if t !in s.tasks {
      var a :| Act(s, a) == Some(s');
      StartsElsewhere(s, a, t);
    } else {
      assert TaskOk(s, t);
    }
  }

  lemma StartsElsewhere(s: State, a: Action, t: TaskId)
    requires Act(s, a).Some? && t !in s.tasks
    ensures t in Act(s, a).value.tasks ==> !SettingUp(Act(s, a).value.tasks[t])
  {
    if a.Run? && a.task in s.tasks {
      TaskEffect(s, a.task, a.choice);
    }
  }

  lemma SetUpBy(s: State, s': State, u: TaskId, t: TaskId)
    requires Inv(s) && Effect(s, s', u) && SettingUpAt(s', t)
    ensures || (SettingUpAt(s, t) && Carries(s', t) == Carries(s, t))
            || (t in s.tasks && s.tasks[t].job.Reopen? && s.tasks[t].pc.Guard? && TakenIn(s, Carries(s', t)))
  {
    assert t in s.tasks && TaskOk(s, t);
    if u == t && s'.tasks[t].pc.Setup? {
      if s'.tasks[t].pc.active.Some? {
        assert Inherits(s, s'.tasks[t].pc.active.value, Carries(s', t));
      }
    }
  }

  /** The snapshot that a reopen carries was taken when it got the lock. */
  lemma {:induction false} SetUpSince(run: seq<State>, k: nat, t: TaskId) returns (g: nat)
    requires IsRun(run) && k < |run| && SettingUpAt(run[k], t)
    ensures SetsUpFrom(run, g, k, t) && TakenIn(run[g], Carries(run[k], t))
  {
    SetUpBack(run, k, t);
    if SettingUpAt(run[k - 1], t) && Carries(run[k], t) == Carries(run[k - 1], t) {
      g := SetUpSince(run, k - 1, t);
    } else {
      g := k - 1;
    }
  }

  lemma SetUpBack(run: seq<State>, k: nat, t: TaskId)
    requires IsRun(run) && k < |run| && SettingUpAt(run[k], t)
    ensures k > 0
    ensures || (SettingUpAt(run[k - 1], t) && Carries(run[k], t) == Carries(run[k - 1], t))
            || (t in run[k - 1].tasks && run[k - 1].tasks[t].job.Reopen? && run[k - 1].tasks[t].pc.Guard?
                && TakenIn(run[k - 1], Carries(run[k], t)))
  {
    assert k > 0;
    RunStep(run, k);
    SetUpStep(run[k - 1], run[k], t);
  }

  // ---- Nothing is marked or reset meanwhile ----

  /** Whoever holds the lock without marking the inode keeps the generation as it is. */
  lemma HolderKeepsGen(s: State, s': State, t: TaskId)
    requires Inv(s) && Step(s, s') && t in s.tasks && s.tasks[t].job.Reopen? && InCrit(s.tasks[t])
    requires !s.tasks[t].pc.SetDirty? || (t in s'.tasks && s'.tasks[t] == s.tasks[t])
    ensures s.inode.Some? && s'.inode.Some? ==> s'.inode.value.gen == s.inode.value.gen
  {
    StepEffect(s, s');
    if !OutsideEffect(s, s') {
      var u :| Effect(s, s', u);
      HolderAlone(s, s', u, t);
    }
  }

  lemma HolderAlone(s: State, s': State, u: TaskId, t: TaskId)
    requires Inv(s) && Effect(s, s', u) && t in s.tasks && s.tasks[t].job.Reopen? && InCrit(s.tasks[t])
    requires !s.tasks[t].pc.SetDirty? || (t in s'.tasks && s'.tasks[t] == s.tasks[t])
    ensures s.inode.Some? && s'.inode.Some? ==> s'.inode.value.gen == s.inode.value.gen
  {
    assert TaskOk(s, t) && TaskOk(s, u);
    if InCrit(s.tasks[u]) {
      Exclusive(s.locks, t, u);
    }
  }

  lemma {:induction false} GenKept(run: seq<State>, g: nat, k: nat, t: TaskId)
    requires IsRun(run) && g < k < |run| && SetsUpFrom(run, g, k, t) && run[k].inode.Some?
    ensures run[g].inode.Some? && run[g].inode.value.gen == run[k].inode.value.gen
    ensures run[k].inode.value.gen > 0 ==> LastClean(run, k) == LastClean(run, g)
    decreases k
  {
    StillThere(run, k);
    GenKeptStep(run, g, k, t);
    if k - 1 > g {
      GenKept(run, g, k - 1, t);
    }
  }

  lemma GenKeptStep(run: seq<State>, g: nat, k: nat, t: TaskId)
    requires IsRun(run) && g < k < |run| && SetsUpFrom(run, g, k, t) && run[k].inode.Some? && run[k - 1].inode.Some?
    ensures run[k].inode.value.gen == run[k - 1].inode.value.gen
  {
    assert SettingUpAt(run[k], t);
    if k - 1 > g { assert SettingUpAt(run[k - 1], t); }
    RunKeepsGen(run, k, t);
  }

  lemma RunKeepsGen(run: seq<State>, k: nat, t: TaskId)
    requires IsRun(run) && 0 < k < |run| && run[k].inode.Some? && run[k - 1].inode.Some? && SettingUpAt(run[k], t)
    requires t in run[k - 1].tasks && run[k - 1].tasks[t].job.Reopen?
    requires run[k - 1].tasks[t].pc.Guard? || SettingUp(run[k - 1].tasks[t])
    ensures run[k].inode.value.gen == run[k - 1].inode.value.gen
  {
    RunStep(run, k);
    SetUpKeepsGen(run[k - 1], run[k], t);
  }

  lemma SetUpKeepsGen(s: State, s': State, t: TaskId)
    requires Inv(s) && Step(s, s') && t in s.tasks && s.tasks[t].job.Reopen? && SettingUpAt(s', t)
    requires s.tasks[t].pc.Guard? || SettingUp(s.tasks[t])
    ensures s.inode.Some? && s'.inode.Some? ==> s'.inode.value.gen == s.inode.value.gen
  {
    if s.tasks[t].pc.SetDirty? {
      MarkedMovesOn(s, s', t);
    }
    HolderKeepsGen(s, s', t);
  }

  lemma MarkedMovesOn(s: State, s': State, t: TaskId)
    requires Inv(s) && Step(s, s') && t in s.tasks && s.tasks[t].job.Reopen? && s.tasks[t].pc.SetDirty? && SettingUpAt(s', t)
    ensures s'.tasks[t] == s.tasks[t]
  {
    StepEffect(s, s');
  }

  // ---- The hash of a dirty inode ----

  ghost predicate DirtyIsBare(s: State) {
    s.inode.Some? && s.inode.value.gen > 0 ==> s.inode.value.hash == None
  }

  lemma BareStep(s: State, s': State)
    requires DirtyIsBare(s) && Step(s, s')
    ensures DirtyIsBare(s')
  {
    var a :| Act(s, a) == Some(s');
    if a.Run? {
      TaskEffect(s, a.task, a.choice);
      BareEffect(s, s', a.task, a.choice);
    } else {
      BareOutside(s, a);
    }
  }

  lemma BareOutside(s: State, a: Action)
    requires DirtyIsBare(s) && !a.Run? && Act(s, a).Some?
    ensures DirtyIsBare(Act(s, a).value)
  {
  }

  lemma BareEffect(s: State, s': State, t: TaskId, ch: Choice)
    requires DirtyIsBare(s) && t in s.tasks && TaskStep(s, t, ch) == Some(s') && Effect(s, s', t)
    ensures DirtyIsBare(s')
  {
  }

  lemma {:induction false} RunBare(run: seq<State>, k: nat)
    requires IsRun(run) && k < |run|
    ensures DirtyIsBare(run[k])
  {
    if k > 0 {
      RunBare(run, k - 1);
      RunBareStep(run, k);
    }
  }

  lemma RunBareStep(run: seq<State>, k: nat)
    requires IsRun(run) && 0 < k < |run| && DirtyIsBare(run[k - 1])
    ensures DirtyIsBare(run[k])
  {
    RunStep(run, k);
    BareStep(run[k - 1], run[k]);
  }

  // ---- Markings ----

  /** The channel that is marked at `m` goes back to what the inode was when it last was clean. */
  ghost predicate GoodMark(run: seq<State>, m: nat, c: ChanId)
    requires m < |run| && c in run[m].chans
  {
    BaseOf(run[m].chans[c]) == LastClean(run, m)
  }

  /** The snapshot of a marking, and the state in which it was taken. */
  lemma MarkSource(run: seq<State>, m: nat, c: ChanId) returns (g: nat, t: TaskId)
    requires IsRun(run) && 0 < m < |run| && MarkedAt(run, m, c)
    ensures g + 1 < m && SetsUpFrom(run, g, m - 1, t) && run[m - 1].inode.Some? && run[g].inode.Some?
    ensures TakenIn(run[g], BaseOf(run[m].chans[c])) && run[g].inode.value.gen == run[m - 1].inode.value.gen
    ensures run[g].inode.value.gen > 0 ==> LastClean(run, m) == LastClean(run, g)
    ensures run[g].inode.value.gen == 0 ==> LastClean(run, m) == Was(run[m - 1].inode.value.hash)
  {
    t := MarkerOf(run, m, c);
    g := SetUpSince(run, m - 1, t);
    GenKept(run, g, m - 1, t);
  }

  lemma MarkerOf(run: seq<State>, m: nat, c: ChanId) returns (t: TaskId)
    requires IsRun(run) && 0 < m < |run| && MarkedAt(run, m, c)
    ensures SettingUpAt(run[m - 1], t) && run[m - 1].tasks[t].pc.SetDirty? && run[m - 1].inode.Some?
    ensures Carries(run[m - 1], t) == BaseOf(run[m].chans[c]) && run[m].inode.Some? && run[m].inode.value.gen > 0
  {
    RunStep(run, m);
    t :| MarkingTask(run[m - 1], t, c);
    MarkerStep(run[m - 1], run[m], t, c);
  }

  lemma MarkerStep(s: State, s': State, t: TaskId, c: ChanId)
    requires Inv(s) && Step(s, s') && Marks(s, s', c) && MarkingTask(s, t, c)
    ensures SettingUpAt(s, t) && Carries(s, t) == BaseOf(s'.chans[c])
  {
    assert TaskOk(s, t);
    StepEffect(s, s');
    if !OutsideEffect(s, s') {
      var u :| Effect(s, s', u);
    }
  }

  /** A published channel has a generation, so nobody is an active writer of a clean file. */
  lemma CleanHasNoWriter(s: State)
    requires Inv(s) && s.inode.Some? && s.inode.value.gen == 0
    ensures NoActive(s)
  {
    forall d | d in s.chans
      ensures !Active(s, d)
    {
      assert ChanOk(s, d);
    }
  }

  /** When a marking is good.  On a clean inode: exactly when the poll has left its hash alone since the snapshot.  On a
      dirty one with an active writer, whose generation has not been reset: exactly when that one's marking was good.  On a
      dirty one without: exactly when the file had no hash when it last was clean. */
  lemma GoodMarkIff(run: seq<State>, m: nat, c: ChanId) returns (g: nat, t: TaskId)
    requires IsRun(run) && 0 < m < |run| && MarkedAt(run, m, c)
    ensures g + 1 < m && SetsUpFrom(run, g, m - 1, t) && run[g].inode.Some? && run[m - 1].inode.Some?
    ensures run[g].inode.value.gen == 0 ==>
              (GoodMark(run, m, c) <==> run[m - 1].inode.value.hash == run[g].inode.value.hash)
    ensures run[g].inode.value.gen > 0 && NoActive(run[g]) ==> (GoodMark(run, m, c) <==> LastClean(run, g) == Was(None))
    ensures run[g].inode.value.gen > 0 && !NoActive(run[g]) ==> exists a, l :: FromWriter(run, g, a, l, m, c)
  {
    g, t := MarkSource(run, m, c);
    RunInv(run, g);
    RunBare(run, g);
    if run[g].inode.value.gen == 0 {
      CleanHasNoWriter(run[g]);
    } else if !NoActive(run[g]) {
      var a :| Inherits(run[g], a, BaseOf(run[m].chans[c]));
      var l := WriterMark(run, g, a, m, c);
    }
  }

  /** The first channel of a created file goes back to nothing, as it should. */
  lemma CreatedGood(run: seq<State>, c: ChanId)
    requires IsRun(run) && MarkedAt(run, 0, c)
    ensures GoodMark(run, 0, c)
  {
  }

  /** `a` was the active writer at `g`, marked at `l`; unless its generation was reset in between, the marking of `c`,
      which took over its snapshot, is good exactly when its own was. */
  ghost predicate FromWriter(run: seq<State>, g: nat, a: ChanId, l: nat, m: nat, c: ChanId)
    requires g < |run| && m < |run| && c in run[m].chans
  {
    && l <= g && Active(run[g], a) && MarkedAt(run, l, a)
    && (!WasReset(run, l, g) ==> (GoodMark(run, m, c) <==> GoodMark(run, l, a)))
  }

  lemma WriterMark(run: seq<State>, g: nat, a: ChanId, m: nat, c: ChanId) returns (l: nat)
    requires IsRun(run) && g < m < |run| && c in run[m].chans && Inherits(run[g], a, BaseOf(run[m].chans[c]))
    requires run[g].inode.Some? && run[g].inode.value.gen > 0 && LastClean(run, m) == LastClean(run, g)
    ensures FromWriter(run, g, a, l, m, c)
  {
    l := MarkOf(run, g, a);
    BaseStays(run, l, g, a);
    if !WasReset(run, l, g) {
      SameClean(run, l, g);
    }
  }

  lemma {:induction false} BaseStays(run: seq<State>, j: nat, k: nat, c: ChanId)
    requires IsRun(run) && j <= k < |run| && c in run[j].chans
    ensures c in run[k].chans && BaseOf(run[k].chans[c]) == BaseOf(run[j].chans[c])
    decreases k
  {
    if j < k {
      BaseStays(run, j, k - 1, c);
      BaseStaysStep(run, k, c);
    }
  }

  lemma BaseStaysStep(run: seq<State>, k: nat, c: ChanId)
    requires IsRun(run) && 0 < k < |run| && c in run[k - 1].chans
    ensures c in run[k].chans && BaseOf(run[k].chans[c]) == BaseOf(run[k - 1].chans[c])
  {
    RunStep(run, k);
    StepEffect(run[k - 1], run[k]);
  }

  /** Without a reset a dirty inode stays dirty. */
  lemma {:induction false} SameClean(run: seq<State>, m: nat, k: nat)
    requires IsRun(run) && m <= k < |run| && run[k].inode.Some? && !WasReset(run, m, k)
    requires run[m].inode.Some? && run[m].inode.value.gen > 0
    ensures run[k].inode.value.gen > 0 && LastClean(run, k) == LastClean(run, m)
    decreases k
  {
    NotReset(run, m, k);
    if m < k {
      StillThere(run, k);
      assert !WasReset(run, m, k - 1);
      SameClean(run, m, k - 1);
    }
  }

  // ---- The theorem ----

  /** With step `k` the task reverts the inode. */
  ghost predicate RevertsAt(run: seq<State>, k: nat, t: TaskId)
    requires 0 < k < |run|
  {
    && t in run[k - 1].tasks && run[k - 1].tasks[t].pc.Revert? && run[k - 1].inode.Some?
    && t in run[k].tasks && run[k].tasks[t] != run[k - 1].tasks[t]
  }

  /** The inode is what it was when it last was clean: gone, or clean with that hash, at the same path and as linked. */
  ghost predicate Restored(run: seq<State>, k: nat)
    requires 0 < k < |run| && run[k - 1].inode.Some?
  {
    match LastClean(run, k - 1)
    case New => run[k].inode.None?
    case Was(hash) =>
      run[k].inode.Some? && run[k].inode.value == Inode(0, run[k - 1].inode.value.linked, hash, run[k - 1].inode.value.path)
  }

  /** If no commit and no other revert has come in since the channel was marked, its revert restores the file exactly
      when its marking was good. */
  lemma RevertRestoresIff(run: seq<State>, k: nat, t: TaskId) returns (m: nat)
    requires IsRun(run) && 0 < k < |run| && RevertsAt(run, k, t)
    ensures var c := run[k - 1].tasks[t].chan; m < k && c in run[m].chans && MarkedAt(run, m, c)
    ensures !WasReset(run, m, k - 1) ==> (Restored(run, k) <==> GoodMark(run, m, run[k - 1].tasks[t].chan))
  {
    var c := run[k - 1].tasks[t].chan;
    RevertLeaves(run, k, t);
    m := MarkOf(run, k - 1, c);
    BaseStays(run, m, k - 1, c);
    if !WasReset(run, m, k - 1) {
      SameClean(run, m, k - 1);
    }
  }

  /** Up to `k` no poll has changed the hash while a reopen sets up its channel, no reopen has found a dirty inode without
      an active writer, and no active writer's generation has been reset. */
  ghost predicate Orderly(run: seq<State>, k: nat)
    requires k < |run|
  {
    && (forall g: nat, i: nat, t :: i < k && SetsUpFrom(run, g, i, t) && run[g].inode.Some? && run[i].inode.Some? ==>
          if run[g].inode.value.gen == 0 then run[i].inode.value.hash == run[g].inode.value.hash else !NoActive(run[g]))
    && (forall l: nat, g: nat, a :: l <= g < k && MarkedAt(run, l, a) && Active(run[g], a) ==> !WasReset(run, l, g))
  }

  lemma {:induction false} OrderlyMarks(run: seq<State>, k: nat, m: nat, c: ChanId)
    requires IsRun(run) && m <= k < |run| && Orderly(run, k) && MarkedAt(run, m, c)
    ensures GoodMark(run, m, c)
    decreases m
  {
    if m == 0 {
      CreatedGood(run, c);
    } else {
      var g, t := GoodMarkIff(run, m, c);
      if run[g].inode.value.gen > 0 {
        var a, l :| FromWriter(run, g, a, l, m, c);
        OrderlyMarks(run, k, l, a);
      }
    }
  }

  /** In an orderly run a revert restores the file, over any chain of reopens and supersedes. */
  lemma OrderlyRevertRestores(run: seq<State>, k: nat, t: TaskId) returns (m: nat)
    requires IsRun(run) && 0 < k < |run| && RevertsAt(run, k, t) && Orderly(run, k)
    ensures m < k && MarkedAt(run, m, run[k - 1].tasks[t].chan)
    ensures !WasReset(run, m, k - 1) ==> Restored(run, k)
  {
    m := RevertRestoresIff(run, k, t);
    OrderlyMarks(run, k, m, run[k - 1].tasks[t].chan);
  }

  /** A revert leaves what its channel carries, gone or clean, at the same path and as linked. */
  lemma RevertLeaves(run: seq<State>, k: nat, t: TaskId)
    requires IsRun(run) && 0 < k < |run| && RevertsAt(run, k, t)
    ensures var c := run[k - 1].tasks[t].chan;
            && c in run[k - 1].chans && run[k - 1].chans[c].gen > 0
            && match BaseOf(run[k - 1].chans[c])
               case New => run[k].inode.None?
               case Was(hash) =>
                 && run[k].inode.Some?
                 && run[k].inode.value == Inode(0, run[k - 1].inode.value.linked, hash, run[k - 1].inode.value.path)
  {
    RunStep(run, k);
    RevertStep(run[k - 1], run[k], t);
  }

  lemma RevertStep(s: State, s': State, t: TaskId)
    requires Inv(s) && Step(s, s') && t in s.tasks && s.tasks[t].pc.Revert? && s.inode.Some?
    requires t in s'.tasks && s'.tasks[t] != s.tasks[t]
    ensures var c := s.tasks[t].chan;
            && c in s.chans && s.chans[c].gen > 0
            && match BaseOf(s.chans[c])
               case New => s'.inode.None?
               case Was(hash) =>
                 s'.inode.Some? && s'.inode.value == Inode(0, s.inode.value.linked, hash, s.inode.value.path)
  {
    StepEffect(s, s');
    var u :| Effect(s, s', u);
    RevertBy(s, s', t);
  }

  lemma RevertBy(s: State, s': State, t: TaskId)
    requires Inv(s) && Effect(s, s', t) && s.tasks[t].pc.Revert? && s.inode.Some?
    ensures var c := s.tasks[t].chan;
            && c in s.chans && s.chans[c].gen > 0
            && match BaseOf(s.chans[c])
               case New => s'.inode.None?
               case Was(hash) =>
                 s'.inode.Some? && s'.inode.value == Inode(0, s.inode.value.linked, hash, s.inode.value.path)
  {
    assert TaskOk(s, t);
    assert ChanOk(s, s.tasks[t].chan);
  }
}
