/** The per-inode lock registry (src/virtual_fs/staging.rs), for one inode.

    A registry entry may be evicted and created again, so several lock objects
    can exist over time.  `refs` are the tasks' references to lock objects (what
    the strong count counts, besides the registry's own), `held` the locks that
    are held. */
module StagingLocks {
  import opened Prelude

  type TaskId = nat
  type LockId = nat

  datatype Locks = Locks(entry: Option<LockId>, next: LockId, refs: map<TaskId, LockId>, held: map<LockId, TaskId>)

  /** `lock`: get or create the entry and keep a reference to it. */
  function GetRef(l: Locks, t: TaskId): (r: Locks) {
    var x := if l.entry.Some? then l.entry.value else l.next;
    l.(entry := Some(x), next := if l.entry.Some? then l.next else l.next + 1, refs := l.refs[t := x])
  }

  predicate Free(l: Locks, t: TaskId) {
    t in l.refs && l.refs[t] !in l.held
  }

  function Acquire(l: Locks, t: TaskId): (r: Locks)
    requires Free(l, t)
  {
    l.(held := l.held[l.refs[t] := t])
  }

  function Unlock(l: Locks, t: TaskId): (r: Locks)
    requires t in l.refs
  {
    l.(held := l.held - {l.refs[t]})
  }

  function DropRef(l: Locks, t: TaskId): (r: Locks) {
    l.(refs := l.refs - {t})
  }

  /** `forget_lock_if_unused`: only an entry that no task refers to goes. */
  function Forget(l: Locks): (r: Locks) {
    if l.entry.Some? && l.entry.value !in l.refs.Values then l.(entry := None) else l
  }

  predicate Holds(l: Locks, t: TaskId) {
    t in l.refs && l.refs[t] in l.held && l.held[l.refs[t]] == t
  }

  ghost predicate LocksOk(l: Locks) {
    && (forall t :: t in l.refs ==> l.entry == Some(l.refs[t]))
    && (forall x :: x in l.held ==> l.held[x] in l.refs && l.refs[l.held[x]] == x)
    && (l.entry.Some? ==> l.entry.value < l.next)
  }

  /** Two tasks never hold different lock objects of one inode, nor the same one. */
  lemma Exclusive(l: Locks, t: TaskId, u: TaskId)
    requires LocksOk(l) && Holds(l, t) && Holds(l, u)
    ensures t == u
  {
  }

  /** A lock object is free unless someone holds it. */
  lemma FreeOrHeld(l: Locks, t: TaskId)
    requires LocksOk(l) && t in l.refs && !Free(l, t)
    ensures exists u :: Holds(l, u)
  {
    assert Holds(l, l.held[l.refs[t]]);
  }

  /** Every operation keeps the registry consistent and moves only its own task.
      `t` takes a reference only when it has none, and drops it only after unlocking. */
  lemma OpsKeep(l: Locks, t: TaskId)
    requires LocksOk(l)
    ensures t !in l.refs ==> LocksOk(GetRef(l, t)) && !Holds(GetRef(l, t), t)
    ensures Free(l, t) ==> LocksOk(Acquire(l, t)) && Holds(Acquire(l, t), t)
    ensures Holds(l, t) ==> LocksOk(Unlock(l, t)) && !Holds(Unlock(l, t), t)
    ensures !Holds(l, t) ==> LocksOk(DropRef(l, t))
    ensures LocksOk(Forget(l))
  {
  }

  /** ... and leaves what every other task refers to and holds as it was. */
  lemma OpsFrame(l: Locks, t: TaskId, u: TaskId)
    requires LocksOk(l) && u != t
    ensures t !in l.refs ==> Same(l, GetRef(l, t), u)
    ensures Free(l, t) ==> Same(l, Acquire(l, t), u)
    ensures Holds(l, t) ==> Same(l, Unlock(l, t), u)
    ensures Same(l, DropRef(l, t), u) && Same(l, Forget(l), u)
  {
  }

  ghost predicate Same(l: Locks, l': Locks, u: TaskId) {
    (u in l.refs <==> u in l'.refs) && (Holds(l, u) <==> Holds(l', u))
  }
}
