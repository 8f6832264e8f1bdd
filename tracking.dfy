/** The change tracker that an Entity Framework context keeps for the storage
    facade, reduced to what the commit protocol needs: which entities it tracks
    and in which entry state. Entities are opaque; the facade never looks inside
    them. */
module ChangeTracking {

  /** A caller-supplied record. Its key stands for the identity the store owns. */
  datatype Entity = Entity(key: int)

  /** The states an entry of the change tracker can be in. */
  datatype EntryState = Detached | Unchanged | Added | Deleted | Modified

  /** The entities the context has seen and the state of each entry. An entity
      the context has stopped tracking keeps its entry, with the value `Detached`. */
  type Tracker = map<Entity, EntryState>

  /** A possibly-null reference: `None` is the null entity argument. */
  datatype Option<T> = None | Some(value: T)

  /** The only error the facade raises itself. */
  datatype StorageError = ArgumentNull

  /** The value of a call that either returns or throws. */
  datatype Result<T> = Success(value: T) | Failure(error: StorageError)
}
