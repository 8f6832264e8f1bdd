/** The transactional storage facade over an Entity Framework context, as a
    class whose methods change its fields in place, and the commit gate that
    every storage of the process shares. Each method is proved against the
    protocol of module CommitProtocol, so what is proved there about single
    calls and sequences of calls holds of these objects. */
module Storage {
  import opened ChangeTracking
  import opened CommitProtocol

  /** The process-wide commit gate: a semaphore whose count starts at one and
      never exceeds one. In this sequential model a wait on a taken gate could
      never return, so a wait requires the gate to be free. */
  class CommitGate {
    /** The number of free slots: 1 when free, 0 while held. */
    var count: nat
    /** How often the gate has been taken, to say which calls take it. */
    ghost var acquisitions: nat

    constructor ()
      ensures count == 1 && acquisitions == 0
    {
      count := 1;
      acquisitions := 0;
    }

    /** Takes the gate (Wait and, without its cancellation, WaitAsync). */
    method Wait()
      requires count == 1
      modifies this
      ensures count == 0
      ensures acquisitions == old(acquisitions) + 1
    {
      count := 0;
      acquisitions := acquisitions + 1;
    }

    /** Gives the gate back; releasing a free gate would exceed its maximum. */
    method Release()
      requires count == 0
      modifies this
      ensures count == 1
      ensures acquisitions == old(acquisitions)
    {
      count := 1;
    }
  }

  /** One storage facade: its transaction flag, the change tracker of its
      context, and the flushes its context has performed. */
  class EntityFrameworkStorage {
    var activeTransaction: bool
    var tracker: Tracker
    /** How many times the context has saved its changes. */
    var flushes: nat
    /** The tracker as each of those saves saw it, oldest first. */
    var snapshots: seq<Tracker>
    /** The gate, shared with every other storage of the process. */
    const commitGate: CommitGate

    /** Between calls the gate is free and every flush has its snapshot. */
    ghost predicate Valid()
      reads this, commitGate
    {
      commitGate.count == 1 && flushes == |snapshots|
    }

    /** The state the protocol speaks about. */
    ghost function View(): Store
      reads this
    {
      Store(activeTransaction, tracker, snapshots)
    }

    /** A new storage over a context that already tracks `context`: no
        transaction open, nothing flushed yet. */
    constructor (context: Tracker, gate: CommitGate)
      requires gate.count == 1
      ensures Valid()
      ensures commitGate == gate
      ensures View() == Store(false, context, [])
    {
      activeTransaction := false;
      tracker := context;
      flushes := 0;
      snapshots := [];
      commitGate := gate;
    }

    /** The context's SaveChanges and SaveChangesAsync: one more flush, seeing
        the tracker as it is. */
    method SaveChanges()
      modifies this`flushes, this`snapshots
      ensures flushes == old(flushes) + 1
      ensures snapshots == old(snapshots) + [tracker]
    {
      flushes := flushes + 1;
      snapshots := snapshots + [tracker];
    }

    method Add(entity: Option<Entity>) returns (r: Result<Entity>)
      requires Valid()
      modifies this, commitGate
      ensures Valid()
      ensures View() == WriteNext(old(View()), Write.Add, entity, Sync)
      ensures r == if entity.None? then Failure(ArgumentNull) else Success(entity.value)
      ensures commitGate.acquisitions ==
                old(commitGate.acquisitions) + if TakesGate(old(View()), entity) then 1 else 0
    {
      if entity.None? {
        return Failure(ArgumentNull);
      }
      var e := entity.value;
      tracker := tracker[e := Added];
      if !activeTransaction {
        commitGate.Wait();
        if !activeTransaction {
          SaveChanges();
        }
        commitGate.Release();
      }
      return Success(e);
    }

    method AddAsync(entity: Option<Entity>, cancellationRequested: bool) returns (r: Result<Entity>)
      requires Valid()
      modifies this, commitGate
      ensures Valid()
      ensures View() == WriteNext(old(View()), Write.Add, entity, Async(cancellationRequested))
      // the input entity comes back whether or not the cancellation was observed
      ensures r == if entity.None? then Failure(ArgumentNull) else Success(entity.value)
      ensures commitGate.acquisitions ==
                old(commitGate.acquisitions) + if TakesGate(old(View()), entity) then 1 else 0
    {
      if entity.None? {
        return Failure(ArgumentNull);
      }
      var e := entity.value;
      tracker := tracker[e := Added];
      if !activeTransaction {
        commitGate.Wait();
        if !activeTransaction {
          if cancellationRequested {
            tracker := tracker[e := Detached];
            commitGate.Release();
            return Success(e);
          }
          SaveChanges();
        }
        commitGate.Release();
      }
      return Success(e);
    }

    method BeginTransaction()
      modifies this`activeTransaction
      ensures View() == Begin(old(View()))
    {
      activeTransaction := true;
    }

    method CommitTrnsaction()
      requires Valid()
      modifies this, commitGate
      ensures Valid()
      ensures View() == Commit(old(View()))
      ensures commitGate.acquisitions == old(commitGate.acquisitions) + 1
    {
      commitGate.Wait();
      activeTransaction := false;
      SaveChanges();
      commitGate.Release();
    }

    method Remove(entity: Option<Entity>) returns (r: Result<bool>)
      requires Valid()
      modifies this, commitGate
      ensures Valid()
      ensures View() == WriteNext(old(View()), Write.Remove, entity, Sync)
      ensures r == if entity.None? then Failure(ArgumentNull) else Success(true)
      ensures commitGate.acquisitions ==
                old(commitGate.acquisitions) + if TakesGate(old(View()), entity) then 1 else 0
    {
      if entity.None? {
        return Failure(ArgumentNull);
      }
      var e := entity.value;
      tracker := tracker[e := Deleted];
      if !activeTransaction {
        commitGate.Wait();
        if !activeTransaction {
          SaveChanges();
        }
        commitGate.Release();
      }
      return Success(true);
    }

    method RemoveAsync(entity: Option<Entity>, cancellationRequested: bool) returns (r: Result<bool>)
      requires Valid()
      modifies this, commitGate
      ensures Valid()
      ensures View() == WriteNext(old(View()), Write.Remove, entity, Async(cancellationRequested))
      // false exactly when the cancellation was observed
      ensures r == if entity.None? then Failure(ArgumentNull)
                   else Success(!CancelObserved(old(View()), Async(cancellationRequested)))
      ensures commitGate.acquisitions ==
                old(commitGate.acquisitions) + if TakesGate(old(View()), entity) then 1 else 0
    {
      if entity.None? {
        return Failure(ArgumentNull);
      }
      var e := entity.value;
      tracker := tracker[e := Deleted];
      if !activeTransaction {
        commitGate.Wait();
        if !activeTransaction {
          if cancellationRequested {
            tracker := tracker[e := Detached];
            commitGate.Release();
            return Success(false);
          }
          SaveChanges();
        }
        commitGate.Release();
      }
      return Success(true);
    }

    method Save(entity: Option<Entity>) returns (r: Result<Entity>)
      requires Valid()
      modifies this, commitGate
      ensures Valid()
      ensures View() == WriteNext(old(View()), Write.Save, entity, Sync)
      ensures r == if entity.None? then Failure(ArgumentNull) else Success(entity.value)
      ensures commitGate.acquisitions ==
                old(commitGate.acquisitions) + if TakesGate(old(View()), entity) then 1 else 0
    {
      if entity.None? {
        return Failure(ArgumentNull);
      }
      var e := entity.value;
      tracker := tracker[e := Unchanged];
      if !activeTransaction {
        commitGate.Wait();
        if !activeTransaction {
          tracker := tracker[e := Modified];
          SaveChanges();
        }
        commitGate.Release();
      }
      return Success(e);
    }

    method SaveAsync(entity: Option<Entity>, cancellationRequested: bool) returns (r: Result<Entity>)
      requires Valid()
      modifies this, commitGate
      ensures Valid()
      ensures View() == WriteNext(old(View()), Write.Save, entity, Async(cancellationRequested))
      // the input entity comes back whether or not the cancellation was observed
      ensures r == if entity.None? then Failure(ArgumentNull) else Success(entity.value)
      ensures commitGate.acquisitions ==
                old(commitGate.acquisitions) + if TakesGate(old(View()), entity) then 1 else 0
    {
      if entity.None? {
        return Failure(ArgumentNull);
      }
      var e := entity.value;
      tracker := tracker[e := Unchanged];
      if !activeTransaction {
        commitGate.Wait();
        if !activeTransaction {
          if cancellationRequested {
            tracker := tracker[e := Detached];
            commitGate.Release();
            return Success(e);
          }
          tracker := tracker[e := Modified];
          SaveChanges();
        }
        commitGate.Release();
      }
      return Success(e);
    }
  }
}
