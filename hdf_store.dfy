/**
 * The backing HDF5 store (a pandas HDFStore), reduced to what the proxy
 * uses: a dictionary from absolute keys to stored objects, together with
 * the order in which the store lists its keys.
 */
module HdfStore {
  import opened Wrappers
  import opened Strings
  import Frames

  /** An object stored under a key: a series of identifiers (a saved
      slice) or a table. */
  datatype StoreValue = SliceVal(ids: seq<string>) | TableVal(table: Frames.Table)

  /** Keys are held in absolute form. Assumption of the model about the
      store: a key written without a leading "/" is read and written as
      "/" followed by it, so "slices/n" and "/slices/n" name one entry. */
  function Normalise(key: string): (k: string)
    ensures |k| > 0 && k[0] == '/'
    ensures |key| > 0 && key[0] == '/' ==> k == key
    ensures !(|key| > 0 && key[0] == '/') ==> k == "/" + key
  {
    if |key| > 0 && key[0] == '/' then key else "/" + key
  }

  /** `entries` is the store's content, under absolute keys only; `keys`
      lists each of its keys once, in the order the store reports them. */
  datatype Store = Store(entries: map<string, StoreValue>, keys: seq<string>) {
    ghost predicate Valid() {
      && Distinct(keys)
      && (forall k :: k in entries <==> k in keys)
      && (forall k :: k in entries ==> Normalise(k) == k)
      && (forall k :: k in entries && entries[k].TableVal? ==> Frames.Valid(entries[k].table))
    }
  }

  /** Reading the object under a key; KeyError when there is none. */
  function Get(st: Store, key: string): (r: Result<StoreValue>)
    ensures r.Ok? <==> Normalise(key) in st.entries
    ensures r.Ok? ==> r.value == st.entries[Normalise(key)]
    ensures r.Err? ==> r.error == KeyError
  {
    var k := Normalise(key);
    if k in st.entries then Ok(st.entries[k]) else Err(KeyError)
  }

  /** Writing `v` under `key`, replacing whatever was there. Where a key
      new to the store is listed is not promised: the body has to choose a
      place, and it puts the key last. */
  function Put(st: Store, key: string, v: StoreValue): (r: Store)
    requires st.Valid()
    requires v.TableVal? ==> Frames.Valid(v.table)
    ensures r.Valid()
    ensures Get(r, key) == Ok(v)
    ensures forall other :: Normalise(other) != Normalise(key) ==> Get(r, other) == Get(st, other)
    ensures r.entries.Keys == st.entries.Keys + {Normalise(key)}
  {
    var k := Normalise(key);
    Store(st.entries[k := v], if k in st.entries then st.keys else st.keys + [k])
  }
}
