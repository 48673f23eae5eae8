/**
 * The keyed store of the example shop
 * (Piping.Example/ExampleBusiness/Repository.cs): one shared dictionary from
 * (id, type) to object, read by `GetByID` under the repository's type
 * argument and written by `Save` under the object's runtime type.
 */
module Repository {
  import opened Basics

  /** A runtime type, by name. */
  datatype TypeName = TypeName(name: string)

  /** A stored object: its runtime type, the id `GetID()` gives, and what else it holds. */
  datatype Entity = Entity(runtimeType: TypeName, id: int, content: string)

  datatype StorageKey = StorageKey(id: int, typ: TypeName)

  type Storage = map<StorageKey, Entity>

  /** `TryGetValue`: the object stored under the key, or null when there is none. */
  function Lookup(storage: Storage, id: int, typ: TypeName): (r: Nullable<Entity>)
    ensures r.NonNull? <==> StorageKey(id, typ) in storage
    ensures r.NonNull? ==> r.value == storage[StorageKey(id, typ)]
  {
    var key := StorageKey(id, typ);
    if key in storage then NonNull(storage[key]) else Null
  }

  /** The key `Save` files an object under: its own id and its runtime type. */
  function KeyOf(e: Entity): (k: StorageKey)
    ensures k.id == e.id && k.typ == e.runtimeType
  {
    StorageKey(e.id, e.runtimeType)
  }

  /** The storage after a save: the object's key maps to it, whether it was present or not. */
  function Saved(storage: Storage, e: Entity): (s: Storage)
    ensures s.Keys == storage.Keys + {KeyOf(e)}
    ensures s[KeyOf(e)] == e
    ensures forall k :: k in storage && k != KeyOf(e) ==> s[k] == storage[k]
  {
    storage[KeyOf(e) := e]
  }

  /** Every object is filed under its own id and runtime type, as `Save` and the seeding file them. */
  predicate WellFiled(storage: Storage)
  {
    forall k :: k in storage ==> KeyOf(storage[k]) == k
  }

  /** `DBContext.Storage`: the dictionary every repository shares. */
  class DBContext {
    var storage: Storage

    constructor()
      ensures storage == map[]
    {
      storage := map[];
    }
  }

  /** `Repository<T>`, with `T` as a runtime type and the shared context passed in. */
  class Repository {
    const typeArgument: TypeName
    const db: DBContext

    constructor(typeArgument: TypeName, db: DBContext)
      ensures this.typeArgument == typeArgument && this.db == db
    {
      this.typeArgument := typeArgument;
      this.db := db;
    }

    /**
     * `GetByID`: the object stored under the id and `typeof(T)`, or null;
     * in a well-filed storage it is an object of that type with that id.
     */
    method GetByID(id: int) returns (r: Nullable<Entity>)
      ensures r == Lookup(db.storage, id, typeArgument)
      ensures WellFiled(db.storage) && r.NonNull? ==> r.value.id == id && r.value.runtimeType == typeArgument
    {
      var key := StorageKey(id, typeArgument);
      if key in db.storage {
        r := NonNull(db.storage[key]);
      } else {
        r := Null;
      }
    }

    /**
     * `Save`: overwrite the entry under the object's id and runtime type, or
     * add it; a null object throws when its id is asked for, before
     * anything changes.
     */
    method Save(source: Nullable<Entity>) returns (r: Result<Unit>)
      modifies db
      ensures source.Null? ==> r == Failure(NullReferenceFault) && db.storage == old(db.storage)
      ensures source.NonNull? ==> r == Success(Unit) && db.storage == Saved(old(db.storage), source.value)
      ensures WellFiled(old(db.storage)) ==> WellFiled(db.storage)
    {
      if source.Null? {
        return Failure(NullReferenceFault);
      }
      var id := source.value.id;
      var key := StorageKey(id, source.value.runtimeType);
      if key in db.storage {
        db.storage := db.storage[key := source.value];
      } else {
        db.storage := db.storage[key := source.value];
      }
      r := Success(Unit);
    }
  }

  /** What was saved is found again by a repository whose type argument is the object's runtime type. */
  lemma SaveThenGetRoundTrip(storage: Storage, e: Entity)
    ensures Lookup(Saved(storage, e), e.id, e.runtimeType) == NonNull(e)
  {
  }

  /** A save leaves every other entry, and every lookup under another key, as it was. */
  lemma SaveChangesOnlyItsKey(storage: Storage, e: Entity, id: int, typ: TypeName)
    requires StorageKey(id, typ) != KeyOf(e)
    ensures Lookup(Saved(storage, e), id, typ) == Lookup(storage, id, typ)
  {
  }

  /**
   * A repository whose type argument is not the object's runtime type (a
   * `Repository<IKey>` saving a `Basket`) does not find the object it saved.
   */
  lemma SaveUnderOtherTypeIsNotFound(storage: Storage, e: Entity, typeArgument: TypeName)
    requires typeArgument != e.runtimeType
    ensures Lookup(Saved(storage, e), e.id, typeArgument) == Lookup(storage, e.id, typeArgument)
  {
  }

  /** Saving an object twice is saving it once, and a save adds an entry exactly when its key is new. */
  lemma {:induction false} SaveIsUpsert(storage: Storage, e: Entity)
    ensures Saved(Saved(storage, e), e) == Saved(storage, e)
    ensures |Saved(storage, e)| == if KeyOf(e) in storage then |storage| else |storage| + 1
  {
    var s := Saved(storage, e);
    if KeyOf(e) in storage {
      assert s.Keys == storage.Keys;
    } else {
      assert s.Keys == storage.Keys + {KeyOf(e)};
      assert |s.Keys| == |storage.Keys| + 1;
    }
  }
}
