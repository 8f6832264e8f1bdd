/** What the protocol promises about sequences of calls: auto-commit flushes
    once per write, a transaction defers every flush to its commit, and that
    commit flushes once over everything the transaction staged. */
module Batches {
  import opened ChangeTracking
  import opened CommitProtocol

  /** Staging of one call, as the tracker would see it if nothing were flushed,
      detached or marked: the reference for what a transaction accumulates. */
  function StageOne(t: Tracker, op: Op): Tracker {
    if op.WriteOp? && op.entity.Some? then t[op.entity.value := Staged(op.write)] else t
  }

  /** Staging of a sequence of calls, one after the other. */
  function StageAll(t: Tracker, ops: seq<Op>): Tracker
    decreases |ops|
  {
    if ops == [] then t else StageAll(StageOne(t, ops[0]), ops[1..])
  }

  /** Running two sequences of calls is running the first, then the second. */
  lemma {:induction false} RunAppend(s: Store, a: seq<Op>, b: seq<Op>)
    ensures Run(s, a + b) == Run(Run(s, a), b)
    decreases |a|
  {
    if a != [] {
      assert (a + b)[0] == a[0];
      assert (a + b)[1..] == a[1..] + b;
      RunAppend(Next(s, a[0]), a[1..], b);
    } else {
      assert a + b == b;
    }
  }

  /** Inside a transaction no write flushes or closes the transaction, and
      the tracker ends up holding exactly what the writes staged. */
  lemma {:induction false} TransactionDefersFlushes(s: Store, ops: seq<Op>)
    requires s.active
    requires forall i :: 0 <= i < |ops| ==> ops[i].WriteOp?
    ensures Run(s, ops).active
    ensures Run(s, ops).log == s.log
    ensures Run(s, ops).tracker == StageAll(s.tracker, ops)
    decreases |ops|
  {
    if ops != [] {
      var s' := Next(s, ops[0]);
      assert s'.tracker == StageOne(s.tracker, ops[0]);
      TransactionDefersFlushes(s', ops[1..]);
    }
  }

  /** BeginTransaction, any writes, CommitTrnsaction: exactly one flush, at
      the commit, and it sees every mutation the writes staged; the
      transaction is closed afterwards. */
  lemma {:induction false} CommitFlushesBatchOnce(s: Store, ops: seq<Op>)
    requires forall i :: 0 <= i < |ops| ==> ops[i].WriteOp?
    ensures !Run(s, [BeginTransaction] + ops + [CommitTransaction]).active
    ensures Run(s, [BeginTransaction] + ops + [CommitTransaction]).log == s.log + [StageAll(s.tracker, ops)]
  {
    var begun := Begin(s);
    RunAppend(s, [BeginTransaction] + ops, [CommitTransaction]);
    RunAppend(s, [BeginTransaction], ops);
    assert Run(s, [BeginTransaction]) == begun by {
      assert Run(begun, []) == begun;
    }
    TransactionDefersFlushes(begun, ops);
    var staged := Run(begun, ops);
    assert Run(staged, [CommitTransaction]) == Commit(staged) by {
      assert [CommitTransaction][1..] == [];
    }
  }

  /** Whether a write will neither be rejected nor give up on a cancellation. */
  predicate Completes(op: Op) {
    op.WriteOp? && op.entity.Some? && !(op.call.Async? && op.call.cancellationRequested)
  }

  /** With no transaction open, every write that completes flushes exactly
      once, and none of them opens a transaction. */
  lemma {:induction false} AutoCommitFlushesEachWrite(s: Store, ops: seq<Op>)
    requires !s.active
    requires forall i :: 0 <= i < |ops| ==> Completes(ops[i])
    ensures !Run(s, ops).active
    ensures |Run(s, ops).log| == |s.log| + |ops|
    decreases |ops|
  {
    if ops != [] {
      var s' := Next(s, ops[0]);
      assert |s'.log| == |s.log| + 1;
      AutoCommitFlushesEachWrite(s', ops[1..]);
    }
  }

  /** Writes of a null entity change nothing at all, however many there are. */
  lemma {:induction false} NullWritesChangeNothing(s: Store, ops: seq<Op>)
    requires forall i :: 0 <= i < |ops| ==> ops[i].WriteOp? && ops[i].entity.None?
    ensures Run(s, ops) == s
    decreases |ops|
  {
    if ops != [] {
      NullWritesChangeNothing(Next(s, ops[0]), ops[1..]);
    }
  }

  /** The entry of an entity that no write in the sequence names keeps its
      state through every call, flushes, cancellations and commits included. */
  lemma {:induction false} OtherEntriesUntouched(s: Store, ops: seq<Op>, x: Entity)
    requires x in s.tracker
    requires forall i :: 0 <= i < |ops| && ops[i].WriteOp? ==> ops[i].entity != Some(x)
    ensures x in Run(s, ops).tracker && Run(s, ops).tracker[x] == s.tracker[x]
    decreases |ops|
  {
    if ops != [] {
      var s' := Next(s, ops[0]);
      assert s'.tracker[x] == s.tracker[x];
      OtherEntriesUntouched(s', ops[1..], x);
    }
  }

  /** CommitTrnsaction needs no open transaction: called twice it flushes
      twice and leaves the flag cleared. */
  lemma CommitTwiceFlushesTwice(s: Store)
    ensures !Run(s, [CommitTransaction, CommitTransaction]).active
    ensures Run(s, [CommitTransaction, CommitTransaction]).log == s.log + [s.tracker, s.tracker]
  {
  }

  /** BeginTransaction; Add(r1); Remove(r2); Save(r3); CommitTrnsaction: one
      flush, at the commit, seeing r1 added and r2 deleted, while r3 is only
      attached: inside a transaction Save never marks its entity modified. */
  lemma TransactionScenario(s: Store, r1: Entity, r2: Entity, r3: Entity)
    ensures var ops := [WriteOp(Add, Some(r1), Sync), WriteOp(Remove, Some(r2), Sync), WriteOp(Save, Some(r3), Sync)];
            var r := Run(s, [BeginTransaction] + ops + [CommitTransaction]);
            r.log == s.log + [s.tracker[r1 := Added][r2 := Deleted][r3 := Unchanged]]
  {
    var ops := [WriteOp(Add, Some(r1), Sync), WriteOp(Remove, Some(r2), Sync), WriteOp(Save, Some(r3), Sync)];
    CommitFlushesBatchOnce(s, ops);
    var t1 := s.tracker[r1 := Added];
    var t2 := t1[r2 := Deleted];
    assert StageAll(s.tracker, ops) == StageAll(t1, ops[1..]);
    assert StageAll(t1, ops[1..]) == StageAll(t2, ops[2..]);
    assert StageAll(t2, ops[2..]) == StageAll(t2[r3 := Unchanged], []);
  }
}
