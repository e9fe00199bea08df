/**
 * The H5pandas proxy: pandas-style column indexing of a table held in an
 * HDF5 store, and the namespace of saved slices (named, ordered lists of
 * row or column identifiers) kept under "slices/" in the same store.
 */
module Proxy {
  import opened Wrappers
  import opened Strings
  import opened Frames
  import opened HdfStore

  /** An indexing key as Python passes it: a string, a list of strings,
      or a tuple of keys (from `loc[a, b]`). */
  datatype Key = Str(s: string) | List(ids: seq<string>) | Tup(parts: seq<Key>)

  /** Whether the selected sub-table is reduced to one of its columns or
      rows, as pandas does for a single label. */
  datatype Reduce = Keep | ToColumn(col: string) | ToRow(row: string)

  /** A resolved key: the row and column selectors handed to the store
      (None selects everything) and the reduction applied afterwards. */
  datatype Resolution = Resolution(rows: Option<Key>, cols: Option<Key>, reduce: Reduce)

  /** The substring by which the store's keys are recognised as slices;
      its length, 8, is how much of such a key is dropped to give a name. */
  const SliceMarker := "/slices/"

  /** The key a slice is saved and read under. */
  function SliceKey(name: string): (k: string)
    ensures Normalise(k) == SliceMarker + name
  {
    "slices/" + name
  }

  /** `get_slice`: the identifiers saved under `name`. The store raises
      KeyError when nothing is saved there; a name that is not a string
      makes the key concatenation raise TypeError; a table stored there
      has no `tolist`, so AttributeError. */
  function GetSlice(st: Store, name: Key): (r: Result<seq<string>>)
    ensures !name.Str? ==> r == Err(TypeError)
    ensures name.Str? ==> (r.Ok? <==> Get(st, SliceKey(name.s)).Ok? && Get(st, SliceKey(name.s)).value.SliceVal?)
    ensures name.Str? && r.Ok? ==> Get(st, SliceKey(name.s)) == Ok(SliceVal(r.value))
    ensures name.Str? ==> (r == Err(KeyError) <==> SliceMarker + name.s !in st.entries)
    ensures name.Str? && Get(st, SliceKey(name.s)).Ok? && Get(st, SliceKey(name.s)).value.TableVal? ==>
              r == Err(AttributeError)
    ensures r.Err? ==> r.error in {KeyError, TypeError, AttributeError}
  {
    match name
    case Str(n) =>
      (match Get(st, SliceKey(n))
       case Ok(SliceVal(ids)) => Ok(ids)
       case Ok(TableVal(_)) => Err(AttributeError)
       case Err(e) => Err(e))
    case _ => Err(TypeError)
  }

  /** `get_saved_slices`: for each listed key that contains "/slices/"
      anywhere, the key without its first 8 characters, in listing order. */
  function SavedSliceNames(keys: seq<string>): (names: seq<string>)
    ensures |names| <= |keys|
  {
    if keys == [] then [] else NameOf(keys[0]) + SavedSliceNames(keys[1..])
  }

  /** What one listed key contributes to `get_saved_slices`. */
  function NameOf(key: string): seq<string> {
    if Contains(key, SliceMarker) then [Drop(key, 8)] else []
  }

  /** The listing is taken key by key: listing more keys appends their names. */
  lemma {:induction false} SavedSliceNamesAppend(a: seq<string>, b: seq<string>)
    ensures SavedSliceNames(a + b) == SavedSliceNames(a) + SavedSliceNames(b)
  {
    if a == [] {
      assert a + b == b;
    } else {
      assert (a + b)[0] == a[0];
      assert (a + b)[1..] == a[1..] + b;
      SavedSliceNamesAppend(a[1..], b);
      calc {
        SavedSliceNames(a + b);
        NameOf(a[0]) + SavedSliceNames(a[1..] + b);
        NameOf(a[0]) + (SavedSliceNames(a[1..]) + SavedSliceNames(b));
        (NameOf(a[0]) + SavedSliceNames(a[1..])) + SavedSliceNames(b);
      }
    }
  }

  /** A name is listed exactly when some listed key contains "/slices/"
      and yields that name once its first 8 characters are dropped. */
  lemma {:induction false} SavedSliceNamesMember(keys: seq<string>, n: string)
    ensures n in SavedSliceNames(keys) <==>
            exists x :: x in keys && Contains(x, SliceMarker) && Drop(x, 8) == n
  {
    if keys != [] {
      SavedSliceNamesMember(keys[1..], n);
      if n in SavedSliceNames(keys[1..]) {
        var x :| x in keys[1..] && Contains(x, SliceMarker) && Drop(x, 8) == n;
        assert x in keys;
      }
      if exists x :: x in keys && Contains(x, SliceMarker) && Drop(x, 8) == n {
        var x :| x in keys && Contains(x, SliceMarker) && Drop(x, 8) == n;
        if x != keys[0] {
          assert x in keys[1..];
        }
      }
    }
  }

  /** Every slice saved through `SliceKey` is listed under its name. */
  lemma SavedSliceListed(st: Store, n: string)
    requires st.Valid()
    requires SliceMarker + n in st.entries
    ensures n in SavedSliceNames(st.keys)
  {
    var x := SliceMarker + n;
    ContainsPrefix(SliceMarker, n);
    assert Drop(x, 8) == n;
    SavedSliceNamesMember(st.keys, n);
  }

  /** The key under which `get` and the indexers read the table: without
      a table there, KeyError; the object found is selected from only if
      it is a table. */
  function Fetch(st: Store, groupKey: string, rows: Option<Key>, cols: Option<Key>): (r: Result<Table>)
    requires st.Valid()
    ensures r.Ok? ==> Valid(r.value)
    ensures Get(st, groupKey).Err? ==> r == Err(KeyError)
    ensures r.Err? && Get(st, groupKey).Ok? ==> r.error == StoreError
    ensures r.Ok? <==> Get(st, groupKey).Ok? && Get(st, groupKey).value.TableVal?
                       && !(rows.Some? && rows.value.Tup?) && !(cols.Some? && cols.value.Tup?)
    ensures r.Ok? ==> r.value == Select(Get(st, groupKey).value.table,
                                        Labels(rows, Get(st, groupKey).value.table.rows).value,
                                        Labels(cols, Get(st, groupKey).value.table.cols).value)
  {
    match Get(st, groupKey)
    case Err(e) => Err(e)
    case Ok(SliceVal(_)) => Err(StoreError)
    case Ok(TableVal(t)) =>
      var rk := Labels(rows, t.rows);
      var ck := Labels(cols, t.cols);
      if rk.Some? && ck.Some? then Ok(Select(t, rk.value, ck.value)) else Err(StoreError)
  }

  /** `H5pandas.get`: selecting from the table key with no selector reads
      the whole stored table. */
  lemma GetWholeTable(st: Store, groupKey: string, t: Table)
    requires st.Valid()
    requires Get(st, groupKey) == Ok(TableVal(t))
    ensures Fetch(st, groupKey, None, None) == Ok(t)
  {
    SelectEverything(t);
  }

  /** The labels a selector asks for: all of `all` when absent, one label
      for a string, the listed labels for a list. A tuple is not a label
      selector the model gives meaning to. */
  function Labels(sel: Option<Key>, all: seq<string>): (r: Option<set<string>>)
    ensures r.None? <==> sel.Some? && sel.value.Tup?
    ensures sel.None? ==> r == Some(AllOf(all))
    ensures sel.Some? && sel.value.Str? ==> r == Some({sel.value.s})
    ensures sel.Some? && sel.value.List? ==> r == Some(AllOf(sel.value.ids))
  {
    match sel
    case None => Some(AllOf(all))
    case Some(Str(s)) => Some({s})
    case Some(List(ids)) => Some(AllOf(ids))
    case Some(Tup(_)) => None
  }

  /** `HDFStore.select` with the resolved selectors, then the reduction to
      a column (`data[item]`) or a row (`data.loc[item]`). */
  function Apply(st: Store, groupKey: string, res: Resolution): (r: Result<Data>)
    requires st.Valid()
    ensures res.reduce.Keep? && r.Ok? ==> r.value.Frame?
    ensures !res.reduce.Keep? && r.Ok? ==> r.value.Series?
    ensures Fetch(st, groupKey, res.rows, res.cols).Err? ==> r == Err(Fetch(st, groupKey, res.rows, res.cols).error)
  {
    match Fetch(st, groupKey, res.rows, res.cols)
    case Err(e) => Err(e)
    case Ok(t) =>
      match res.reduce
      case Keep => Ok(Frame(t))
      case ToColumn(c) => Column(t, c)
      case ToRow(x) => Row(t, x)
  }

  /** `H5pandas.__getitem__` key resolution. A string that is a saved
      slice's name stands for that slice's list; any other string is one
      column, reduced to a series; anything else is passed on as it is. */
  function ResolveColumnKey(st: Store, item: Key): (r: Result<Resolution>)
    ensures r.Ok? ==> r.value.rows.None? && r.value.cols.Some? && !r.value.reduce.ToRow?
    ensures !item.Str? ==> r == Ok(Resolution(None, Some(item), Keep))
    ensures item.Str? && item.s !in SavedSliceNames(st.keys) ==>
              r == Ok(Resolution(None, Some(item), ToColumn(item.s)))
    ensures item.Str? && item.s in SavedSliceNames(st.keys) ==>
              (r.Ok? <==> GetSlice(st, item).Ok?) &&
              (r.Ok? ==> r.value == Resolution(None, Some(List(GetSlice(st, item).value)), Keep))
    ensures r.Err? ==> item.Str? && item.s in SavedSliceNames(st.keys) && r.error == GetSlice(st, item).error
  {
    match item
    case Str(s) =>
      if s in SavedSliceNames(st.keys) then
        (match GetSlice(st, item)
         case Ok(ids) => Ok(Resolution(None, Some(List(ids)), Keep))
         case Err(e) => Err(e))
      else Ok(Resolution(None, Some(item), ToColumn(s)))
    case _ => Ok(Resolution(None, Some(item), Keep))
  }

  /** `H5pandas.__getitem__`: the columns `item` resolves to, over all rows. */
  function GetItem(st: Store, groupKey: string, item: Key): (r: Result<Data>)
    requires st.Valid()
    ensures r.Ok? && r.value.Series? ==> item.Str? && item.s !in SavedSliceNames(st.keys)
  {
    match ResolveColumnKey(st, item)
    case Err(e) => Err(e)
    case Ok(res) => Apply(st, groupKey, res)
  }

  /** Indexing columns by a saved slice's name is indexing by its list,
      and gives a table even when a column has the same name: slice
      names take precedence over column labels. */
  lemma GetItemSliceIsList(st: Store, groupKey: string, n: string, ids: seq<string>)
    requires st.Valid()
    requires Get(st, SliceKey(n)) == Ok(SliceVal(ids))
    ensures GetItem(st, groupKey, Str(n)) == GetItem(st, groupKey, List(ids))
    ensures GetItem(st, groupKey, Str(n)).Ok? ==> GetItem(st, groupKey, Str(n)).value.Frame?
  {
    SavedSliceListed(st, n);
  }

  /** Indexing columns by a string that names no slice gives that column
      of the stored table as a series, or KeyError when it has none. */
  lemma GetItemSingleColumn(st: Store, groupKey: string, c: string, t: Table)
    requires st.Valid()
    requires Get(st, groupKey) == Ok(TableVal(t))
    requires c !in SavedSliceNames(st.keys)
    ensures GetItem(st, groupKey, Str(c)) == Column(t, c)
  {
    ColumnOfSelection(t, AllOf(t.rows), {c}, c);
  }

  /** Indexing columns by a list projects the stored table onto the
      listed columns, keeping every row and dropping labels it lacks. */
  lemma GetItemList(st: Store, groupKey: string, ids: seq<string>, t: Table)
    requires st.Valid()
    requires Get(st, groupKey) == Ok(TableVal(t))
    ensures GetItem(st, groupKey, List(ids)) == Ok(Frame(Select(t, AllOf(t.rows), AllOf(ids))))
    ensures GetItem(st, groupKey, List(ids)).value.table.rows == t.rows
  {
    FilterKeepsAll(t.rows, AllOf(t.rows));
  }

  /**
   * A listed key that yields a name under which no slice is saved (one
   * that contains "/slices/" only past its start, written to the store by
   * other means) makes column indexing by that name fail with KeyError:
   * the name is listed, so `get_slice` is called, and it finds nothing.
   */
  lemma ForeignSliceKeyRaises(st: Store, groupKey: string, x: string)
    requires st.Valid()
    requires x in st.keys && Contains(x, SliceMarker)
    requires SliceMarker + Drop(x, 8) !in st.entries
    ensures Drop(x, 8) in SavedSliceNames(st.keys)
    ensures GetItem(st, groupKey, Str(Drop(x, 8))) == Err(KeyError)
  {
    SavedSliceNamesMember(st.keys, Drop(x, 8));
  }

  /** The proxy object: the store it holds open and the key of its table. */
  class H5Pandas {
    var store: Store
    const groupKey: string

    ghost predicate Valid()
      reads this
    {
      store.Valid()
    }

    constructor (store: Store, groupKey: string)
      requires store.Valid()
      ensures Valid() && this.store == store && this.groupKey == groupKey
    {
      this.store := store;
      this.groupKey := groupKey;
    }

    /** `save_slice`: writes `ids` under "slices/" + `name`, replacing any
        earlier slice of that name; nothing else in the store changes. */
    method SaveSlice(ids: seq<string>, name: string)
      requires Valid()
      modifies this
      ensures Valid()
      ensures store == Put(old(store), SliceKey(name), SliceVal(ids))
      ensures GetSlice(store, Str(name)) == Ok(ids)
      ensures name in SavedSliceNames(store.keys)
      ensures forall n :: n in SavedSliceNames(old(store).keys) ==> n in SavedSliceNames(store.keys)
      ensures forall k :: Normalise(k) != SliceMarker + name ==> Get(store, k) == Get(old(store), k)
    {
      store := Put(store, SliceKey(name), SliceVal(ids));
      SaveSliceRoundTrip(old(store), ids, name);
      SaveSliceKeepsNames(old(store), ids, name);
    }
  }

  /** After saving, the slice reads back exactly, in order, and its name
      is listed. */
  lemma SaveSliceRoundTrip(st: Store, ids: seq<string>, name: string)
    requires st.Valid()
    ensures GetSlice(Put(st, SliceKey(name), SliceVal(ids)), Str(name)) == Ok(ids)
    ensures name in SavedSliceNames(Put(st, SliceKey(name), SliceVal(ids)).keys)
  {
    SavedSliceListed(Put(st, SliceKey(name), SliceVal(ids)), name);
  }

  /** Saving a slice keeps every name listed before it listed. */
  lemma SaveSliceKeepsNames(st: Store, ids: seq<string>, name: string)
    requires st.Valid()
    ensures forall n :: n in SavedSliceNames(st.keys) ==>
              n in SavedSliceNames(Put(st, SliceKey(name), SliceVal(ids)).keys)
  {
    var after := Put(st, SliceKey(name), SliceVal(ids));
    forall n | n in SavedSliceNames(st.keys) ensures n in SavedSliceNames(after.keys) {
      SavedSliceNamesMember(st.keys, n);
      var x :| x in st.keys && Contains(x, SliceMarker) && Drop(x, 8) == n;
      assert x in after.keys;
      SavedSliceNamesMember(after.keys, n);
    }
  }

  /** Saving a slice leaves the table read by `get` unchanged, unless the
      table itself is kept under that slice's key. */
  lemma SaveSliceKeepsTable(st: Store, groupKey: string, ids: seq<string>, name: string)
    requires st.Valid()
    requires Normalise(groupKey) != SliceMarker + name
    ensures Get(Put(st, SliceKey(name), SliceVal(ids)), groupKey) == Get(st, groupKey)
    ensures forall item :: GetItem(Put(st, SliceKey(name), SliceVal(ids)), groupKey, List(item))
                           == GetItem(st, groupKey, List(item))
  {
  }
}
