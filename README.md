# Commit coordination of the Entity Framework storage facade

`EntityFrameworkStorage` is a transactional storage facade over an Entity Framework
`DbContext`. It offers `Add`, `Remove` and `Save`, each in a synchronous form and an
asynchronous form with a cancellation token. It also offers `BeginTransaction` and
`CommitTrnsaction` (the source's own spelling, kept here).

This project models the facade's commit-coordination state machine, which decides for every
write whether the context saves its changes now or waits for an explicit commit:

- the per-instance `_activeTransaction` flag;
- the process-wide `_commitSemaphore` gate, a semaphore with one slot;
- the context's change tracker, as a map from entity to entry state
  (`Detached`, `Unchanged`, `Added`, `Deleted`, `Modified`);
- the context's `SaveChanges`, modelled as a flush that records a snapshot of the tracker
  and adds one to a flush counter. Nothing more of Entity Framework's persistence is modelled.

Layout:

- `tracking.dfy` (module `ChangeTracking`): entities, entry states, the tracker, and the
  `Option`/`Result` types. A null entity is `None`. The `ArgumentNullException` is
  `Failure(ArgumentNull)`.
- `protocol.dfy` (module `CommitProtocol`): the protocol as pure functions on a `Store`
  (flag, tracker, flush log). It has one step per call and `Run` for a sequence of calls.
- `batches.dfy` (module `Batches`): lemmas about sequences of calls.
- `storage.dfy` (module `Storage`): the `CommitGate` class and the `EntityFrameworkStorage`
  class. The class's fields are the flag, the tracker, the flush counter and the snapshots,
  plus a reference to the shared gate. Each method changes these fields in place and is
  proved to match the protocol step for its call. Each method is also proved to leave the
  gate free on every exit. Each write method takes the gate exactly when its entity is
  non-null and no transaction is open; `CommitTrnsaction` takes it on every call.

The model is sequential. After a write takes the gate, the source checks the flag a second
time. That second check protects against a `BeginTransaction` that runs on another thread
while the write waits for the gate. With one thread, nothing can run in between, so the
second check always sees the same value as the first. The `Storage` methods keep both
tests, as the source does. The pure step `CommitProtocol.WriteNext` makes one test where
the source makes two.

A detached entity is one the context no longer tracks. The model keeps such an entity in
the tracker map, with the value `Detached`.

`Save` marks its entity `Modified` only on the auto-commit path (`EntityFrameworkStorage.cs`
lines 221-224 and 261-270). Inside a transaction it only attaches the entity. The snapshot
that the commit's flush records then holds that entity as `Unchanged`, not `Modified`.
`TransactionScenario` states this.

## Model

| member | source | states |
|---|---|---|
| `CommitProtocol.WriteNext` | RKSoftware.DAL.EntityFramework/EntityFrameworkStorage.cs:31-280 | A null entity changes nothing. A write never changes the flag and changes only its own entry. With a transaction open, the entry gets its staged state and nothing is flushed. With an observed cancellation, the entry is `Detached` and nothing is flushed. Otherwise exactly one flush happens, and it sees the staged entry. `Save` leaves its entity `Modified` iff it flushed. |
| `CommitProtocol.Begin` | RKSoftware.DAL.EntityFramework/EntityFrameworkStorage.cs:107-110 | The flag is set. The tracker and the flush log are unchanged. |
| `CommitProtocol.Commit` | RKSoftware.DAL.EntityFramework/EntityFrameworkStorage.cs:115-127 | The flag is cleared, whatever its old value. The tracker is unchanged. Exactly one flush is added, and it sees the whole tracker. |
| `CommitProtocol.Next` | RKSoftware.DAL.EntityFramework/EntityFrameworkStorage.cs:31-280 | Earlier flushes stay in the log, and every call adds at most one flush. An entry becomes `Detached` only through a write of that entity whose cancellation was observed. |
| `CommitProtocol.Run` | RKSoftware.DAL.EntityFramework/EntityFrameworkStorage.cs:31-280 | Over any sequence of calls, the flush log only grows, by at most one flush per call. An entry that ends `Detached` but did not start so was named by an asynchronous write in the sequence whose token was cancelled. |
| `Batches.TransactionDefersFlushes` | RKSoftware.DAL.EntityFramework/EntityFrameworkStorage.cs:38-54 | While a transaction is open, any number of writes perform no flush and leave the transaction open. The tracker ends up holding exactly what the writes staged. |
| `Batches.CommitFlushesBatchOnce` | RKSoftware.DAL.EntityFramework/EntityFrameworkStorage.cs:107-127 | BeginTransaction, then any writes, then a commit: exactly one flush, at the commit, seeing every staged mutation. Afterwards the flag is cleared. |
| `Batches.AutoCommitFlushesEachWrite` | RKSoftware.DAL.EntityFramework/EntityFrameworkStorage.cs:40-54 | With no transaction open, n non-null, non-cancelled writes perform exactly n flushes and never open a transaction. |
| `Batches.NullWritesChangeNothing` | RKSoftware.DAL.EntityFramework/EntityFrameworkStorage.cs:33-36 | Any sequence of writes with a null entity leaves the whole state unchanged. |
| `Batches.OtherEntriesUntouched` | RKSoftware.DAL.EntityFramework/EntityFrameworkStorage.cs:84-90 | The entry of an entity that no write names keeps its state through any sequence of calls, cancellations and commits included. |
| `Batches.CommitTwiceFlushesTwice` | RKSoftware.DAL.EntityFramework/EntityFrameworkStorage.cs:115-127 | Two commits in a row flush twice and leave the flag cleared. |
| `Batches.TransactionScenario` | RKSoftware.DAL.EntityFramework/EntityFrameworkStorage.cs:214-231 | BeginTransaction; Add(r1); Remove(r2); Save(r3); commit gives exactly one flush. Its snapshot is the tracker with r1 set `Added`, then r2 `Deleted`, then r3 `Unchanged`. For distinct r1, r2 and r3, r3 is only attached and never `Modified`. |
| `Storage.CommitGate.constructor` | RKSoftware.DAL.EntityFramework/EntityFrameworkStorage.cs:16 | The gate starts free, with one slot. |
| `Storage.CommitGate.Wait` | RKSoftware.DAL.EntityFramework/EntityFrameworkStorage.cs:42 | Taking a free gate leaves it held and counts one acquisition. |
| `Storage.CommitGate.Release` | RKSoftware.DAL.EntityFramework/EntityFrameworkStorage.cs:52 | Releasing a held gate leaves it free. |
| `Storage.EntityFrameworkStorage.constructor` | RKSoftware.DAL.EntityFramework/EntityFrameworkStorage.cs:21-26 | A new storage has no open transaction, no flushes and a free gate. Its tracker is the context's. |
| `Storage.EntityFrameworkStorage.SaveChanges` | RKSoftware.DAL.EntityFramework/EntityFrameworkStorage.cs:121 | The flush counter goes up by one, and the current tracker is appended as a snapshot. |
| `Storage.EntityFrameworkStorage.Add` | RKSoftware.DAL.EntityFramework/EntityFrameworkStorage.cs:31-57 | The new state is `WriteNext` for a synchronous Add. The result is the entity, or the argument error for null. The gate is free on exit and is taken exactly when the entity is non-null and no transaction is open. |
| `Storage.EntityFrameworkStorage.AddAsync` | RKSoftware.DAL.EntityFramework/EntityFrameworkStorage.cs:70-102 | The new state is `WriteNext` for an asynchronous Add. The input entity is returned even after an observed cancellation. The gate is free on every exit, the early return included. |
| `Storage.EntityFrameworkStorage.BeginTransaction` | RKSoftware.DAL.EntityFramework/EntityFrameworkStorage.cs:107-110 | The new state is `Begin` of the old state. Only the flag may change. |
| `Storage.EntityFrameworkStorage.CommitTrnsaction` | RKSoftware.DAL.EntityFramework/EntityFrameworkStorage.cs:115-127 | The new state is `Commit` of the old state. The gate is taken once and is free on exit. |
| `Storage.EntityFrameworkStorage.Remove` | RKSoftware.DAL.EntityFramework/EntityFrameworkStorage.cs:132-158 | The new state is `WriteNext` for a synchronous Remove. The result is `true` for every non-null entity. The gate is free on exit. |
| `Storage.EntityFrameworkStorage.RemoveAsync` | RKSoftware.DAL.EntityFramework/EntityFrameworkStorage.cs:171-202 | The new state is `WriteNext` for an asynchronous Remove. The result is `false` exactly when the cancellation was observed, and `true` for every other non-null entity. The gate is free on every exit. |
| `Storage.EntityFrameworkStorage.Save` | RKSoftware.DAL.EntityFramework/EntityFrameworkStorage.cs:207-234 | The new state is `WriteNext` for a synchronous Save, which marks the entity `Modified` only on the auto-commit path. The result is the entity. The gate is free on exit. |
| `Storage.EntityFrameworkStorage.SaveAsync` | RKSoftware.DAL.EntityFramework/EntityFrameworkStorage.cs:247-280 | The new state is `WriteNext` for an asynchronous Save. The input entity is returned even after an observed cancellation. The gate is free on every exit. |

## Left out

- Concurrency: real thread interleavings and the asynchronous scheduling of the semaphore are not modelled. The model is sequential, so it says nothing about race freedom. The second flag check after the gate is taken is folded into the first, as explained above.
- Storage.CommitGate.Wait: a wait on a held gate blocks until another thread releases it. With one thread that wait could never return, so the model requires the gate to be free.
- The gate is a static field shared by every instance in the source. In the model it is one `CommitGate` object that the constructor receives, which any number of storages may share.
- Cancellation is a boolean that is looked at only where the source tests `IsCancellationRequested` (lines 86, 186 and 263). `WaitAsync` throwing on an already-cancelled token (lines 81, 181 and 258) is library behaviour that is not modelled. So is `SaveChangesAsync` giving up part-way through a flush.
- Exceptions from the context are not modelled. This covers `Set<T>()`, `Add`, `Remove`, `Attach` and `SaveChanges` raising errors. It also means the model does not show that `CommitTrnsaction` leaves the flag cleared when its save fails.
- Entity Framework's entry-state rules are reduced to one state per write. Add makes the entry `Added` and Remove makes it `Deleted`. Attach makes it `Unchanged` whatever the entity's key. Entity Framework's special cases are not modelled: removing a newly added entity detaches it, and attaching a key-less entity adds it.
- A flush does not change entry states. Entity Framework accepts the changes after a successful save; that is persistence behaviour outside this model.
- The single-argument `AddAsync`, `RemoveAsync` and `SaveAsync` overloads (lines 62-65, 163-166 and 239-242) are not separate members. They behave like the token forms with `cancellationRequested` set to false.
- The constructor's null check on the context (line 24) is not modelled. The read operations inherited from `EntityFrameworkReadonlyStorage` are not part of this model either.
- The generic entity type `T` is a single entity type. `entry.Entity` is the entity that was passed in.
