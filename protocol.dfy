/** The commit-coordination protocol of the storage facade as a sequential
    state machine: for every write, whether it is flushed at once or deferred
    to an explicit commit. A flush is what the context's SaveChanges stands for
    here and nothing more: it records a snapshot of the tracker. */
module CommitProtocol {
  import opened ChangeTracking

  /** What one storage instance shows of its state: the transaction flag, the
      change tracker, and the snapshot each flush took, oldest first, so that
      `|log|` is the number of flushes. */
  datatype Store = Store(active: bool, tracker: Tracker, log: seq<Tracker>)

  /** The three writes. */
  datatype Write = Add | Remove | Save

  /** The synchronous form, or the asynchronous form together with whether its
      cancellation token has been cancelled by the time it is inspected. */
  datatype Call = Sync | Async(cancellationRequested: bool)

  /** One call on the facade. */
  datatype Op =
    | WriteOp(write: Write, entity: Option<Entity>, call: Call)
    | BeginTransaction
    | CommitTransaction

  /** The entry state a write stages: `Add` adds, `Remove` deletes, `Save`
      attaches (an attached entity is tracked as unchanged). */
  function Staged(w: Write): EntryState {
    match w
    case Add => Added
    case Remove => Deleted
    case Save => Unchanged
  }

  /** An asynchronous write sees its cancellation only on the auto-commit
      path, after the gate is taken and the flag re-checked. */
  predicate CancelObserved(s: Store, call: Call) {
    !s.active && call.Async? && call.cancellationRequested
  }

  /** Whether a write takes the commit gate: it got past the null check and
      found no transaction open. */
  predicate TakesGate(s: Store, entity: Option<Entity>) {
    entity.Some? && !s.active
  }

  /** Whether the context no longer tracks `x` because its entry was set to
      `Detached`. Such an entity keeps its `Detached` entry in the map. */
  predicate IsDetached(t: Tracker, x: Entity) {
    x in t && t[x] == Detached
  }

  /** The context's SaveChanges: one more flush, which sees the whole tracker. */
  function Flush(s: Store): Store {
    s.(log := s.log + [s.tracker])
  }

  /** One write: reject a null entity, stage the entity, and unless a
      transaction is open take the gate, re-check the flag, give up on an
      observed cancellation by detaching this entry, otherwise (for `Save`,
      after marking the entry modified) flush. In a sequential model the
      re-check after the gate is taken reads the same flag as the first check,
      so the two collapse into one test. */
  function WriteNext(s: Store, w: Write, entity: Option<Entity>, call: Call): (r: Store)
    // a null entity is rejected before anything is staged
    ensures entity.None? ==> r == s
    // a write never opens or closes a transaction, and touches only its own entry
    ensures r.active == s.active
    ensures entity.Some? ==> r.tracker.Keys == s.tracker.Keys + {entity.value}
    ensures forall x :: x in s.tracker && (entity.None? || x != entity.value) ==> r.tracker[x] == s.tracker[x]
    // inside a transaction: staged, never flushed
    ensures entity.Some? && s.active ==> r.tracker[entity.value] == Staged(w) && r.log == s.log
    // auto-commit with an observed cancellation: this entry is detached, nothing is flushed
    ensures entity.Some? && CancelObserved(s, call) ==> r.tracker[entity.value] == Detached && r.log == s.log
    // auto-commit otherwise: exactly one flush, which sees the staged entry
    ensures TakesGate(s, entity) && !CancelObserved(s, call) ==> r.log == s.log + [r.tracker]
    // only the auto-commit path marks a saved entity modified
    ensures entity.Some? && w == Save ==>
              (r.tracker[entity.value] == Modified <==> !s.active && !CancelObserved(s, call))
    ensures entity.Some? && w != Save && !CancelObserved(s, call) ==> r.tracker[entity.value] == Staged(w)
  {
    match entity
    case None => s
    case Some(e) =>
      var staged := s.(tracker := s.tracker[e := Staged(w)]);
      if staged.active then staged
      else if CancelObserved(staged, call) then staged.(tracker := staged.tracker[e := Detached])
      else if w == Save then Flush(staged.(tracker := staged.tracker[e := Modified]))
      else Flush(staged)
  }

  /** BeginTransaction: opens a transaction and does nothing else. */
  function Begin(s: Store): (r: Store)
    ensures r.active
    ensures r.tracker == s.tracker && r.log == s.log
  {
    s.(active := true)
  }

  /** CommitTrnsaction: closes the transaction (open or not) and flushes once,
      a flush that sees everything staged so far. */
  function Commit(s: Store): (r: Store)
    ensures !r.active
    ensures r.tracker == s.tracker
    ensures r.log == s.log + [s.tracker]
  {
    Flush(s.(active := false))
  }

  /** The effect of one call. */
  function Next(s: Store, op: Op): (r: Store)
    // a flush, once done, is never undone, and a call flushes at most once
    ensures s.log <= r.log && |r.log| <= |s.log| + 1
    // an entry becomes detached only through a write of that entity whose
    // cancellation was observed
    ensures forall x :: IsDetached(r.tracker, x) && !IsDetached(s.tracker, x) ==>
              op.WriteOp? && op.entity == Some(x) && CancelObserved(s, op.call)
  {
    match op
    case WriteOp(w, entity, call) => WriteNext(s, w, entity, call)
    case BeginTransaction => Begin(s)
    case CommitTransaction => Commit(s)
  }

  /** The effect of a sequence of calls, one after the other. */
  function Run(s: Store, ops: seq<Op>): (r: Store)
    // the flush log only grows, by at most one flush per call
    ensures s.log <= r.log && |r.log| <= |s.log| + |ops|
    // an entry becomes detached only if some call in the sequence is a write of
    // that entity whose cancellation token was cancelled
    ensures forall x :: IsDetached(r.tracker, x) && !IsDetached(s.tracker, x) ==>
              exists i :: 0 <= i < |ops| && ops[i].WriteOp? && ops[i].entity == Some(x) && ops[i].call == Async(true)
    decreases |ops|
  {
    if ops == [] then s else Run(Next(s, ops[0]), ops[1..])
  }
}
