/** The shared cache store: one mapping from cache key to cache entry,
    passed explicitly to every binding. */
module Cache {
  import opened Results
  import opened Resources

  /** `{ resourceDefinition, params, data }`. Data values are never
      `null`/`undefined`. */
  datatype Entry<D> = Entry(definition: ResourceDef, params: map<string, string>, data: D)

  /** The store as a JavaScript object: a key maps to a slot, and a slot
      holding `None` is a property whose value is `undefined` (what a rollback
      writes back when there was no entry before). */
  type Store<D> = map<string, Option<Entry<D>>>

  /** `store[key]`: an absent key and an `undefined` slot read alike. */
  function Read<D>(store: Store<D>, key: string): Option<Entry<D>>
  {
    if key in store then store[key] else None
  }

  /** `store[key]?.data`. */
  function DataAt<D>(store: Store<D>, key: string): Option<D>
  {
    match Read(store, key)
    case None => None
    case Some(e) => Some(e.data)
  }

  /** No property of the store holds `undefined`. */
  predicate NoUndefinedSlots<D>(store: Store<D>)
  {
    forall k :: k in store ==> store[k].Some?
  }
}
