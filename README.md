# H5pandas indexing and saved slices, modelled in Dafny

H5pandas is a small proxy that gives pandas-style indexing (`obj[...]` and
`obj.loc[...]`) over a table stored in an HDF5 file, and keeps named,
ordered lists of row or column identifiers ("slices") in the same file
under the key prefix `slices/`. This project models:

- the **backing store** as a dictionary from absolute keys to stored
  objects (a slice's identifier list or a table), with the order in which
  the store lists its keys (`HdfStore`);
- the **table** as an abstract labelled matrix: unique row labels, unique
  column labels and one opaque cell per pair; selection keeps the labels
  that belong to the requested set (`Frames`);
- the **slice namespace** (`save_slice`, `get_slice`, `get_saved_slices`)
  and **column indexing** (`H5pandas.__getitem__`), with the proxy object
  as a class whose store field `SaveSlice` replaces (`Proxy`);
- **row and row-and-column indexing** (`_LocIndexer.__getitem__`)
  (`LocIndexer`).

Python keys are a tagged variant `Str | List | Tup`; the exceptions the
code raises, catches or lets through (KeyError, TypeError, IndexError,
AttributeError) are explicit `Result` values. Each indexing call is split
into a pure resolution step, giving the row selector, the column selector
and whether the result is reduced to a series, and one shared step that
selects from the stored table and reduces.

Assumption about the store: a key written without a leading `/` is read
and written as `/` followed by it, so `save_slice(L, "n")` writes the key
`/slices/n` (`HdfStore.Normalise`).

Where the description of the system and the code differ, the model follows
the code:

- `get_saved_slices` returns a list, not a set, and it lists every key that
  *contains* `/slices/`, minus the first 8 characters; a key such as
  `/a/slices/b` written by other means yields the name `s/b`, and unless
  `/slices/s/b` is also stored, `get_slice` finds nothing under it, so
  column indexing by `s/b` raises KeyError (`Proxy.ForeignSliceKeyRaises`).
- Row indexing by a slice name equals row indexing by its list whatever the
  labels are; the code has no validity condition.
- `loc` accepts tuples of any length: an empty one raises IndexError, a
  one-element one selects all columns, elements after the second are
  ignored.
- `get_slice` of a key under which a table is stored raises AttributeError
  (a table has no `tolist`); the row indexer does not catch it.

## Model

| member | source | states |
|---|---|---|
| `HdfStore.Normalise` | h5pandas.py:116-121 | a key is stored in absolute form: unchanged if it starts with `/`, otherwise prefixed with `/` |
| `HdfStore.Get` | h5pandas.py:87-89 | reading a key gives the object stored under its absolute form, and KeyError exactly when there is none |
| `Proxy.GetWholeTable` | h5pandas.py:87-89 | `get` (a select with no row or column selector) returns the whole stored table |
| `HdfStore.Put` | h5pandas.py:120-123 | writing keeps the store consistent (each key listed once), the key then reads back the written object, every other key reads as before, and the store's keys gain exactly the written key |
| `Proxy.SliceKey` | h5pandas.py:116 | the key of slice `n` is stored as `/slices/` followed by `n` |
| `Proxy.GetSlice` | h5pandas.py:114-116 | a string name gives the list stored under its slice key; KeyError exactly when that key is absent, AttributeError when a table is stored there, TypeError for a non-string name |
| `Proxy.SavedSliceNames` | h5pandas.py:125-128 | the saved-slice listing has at most one name per store key; its contents are given by the two lemmas below |
| `Proxy.SavedSliceNamesAppend` | h5pandas.py:125-128 | the saved-slice listing is taken key by key in store order: listing more keys appends their names |
| `Proxy.SavedSliceNamesMember` | h5pandas.py:125-128 | a name is listed exactly when some store key contains `/slices/` anywhere and drops to that name after its first 8 characters |
| `Proxy.SavedSliceListed` | h5pandas.py:118-128 | every slice stored under its slice key appears in the listing under its name |
| `Proxy.ForeignSliceKeyRaises` | h5pandas.py:94-96 | for any store key containing `/slices/` whose name (the key minus its first 8 characters) has nothing stored under `/slices/` plus that name, the name is listed and column indexing by it raises KeyError |
| `Frames.Select` | h5pandas.py:166-170 | the store's row filter and column projection: a consistent table whose rows are exactly the table's rows in the requested set, whose columns are exactly its columns in the requested set, and whose cells are the table's own |
| `Proxy.Fetch` | h5pandas.py:166-170 | selecting from the table key succeeds exactly when a table is stored there and no selector is a tuple, and gives the sub-table of the selected rows and columns; with nothing under the key it raises KeyError, and any other failure is a store error |
| `Proxy.Apply` | h5pandas.py:107-112 | after selection, no reduction gives a table, a column or row reduction gives a series, and a failed selection is passed on |
| `Proxy.ResolveColumnKey` | h5pandas.py:91-99 | all rows are kept; a saved slice's name becomes its list with no reduction; any other string is one column reduced to a series; a list or a tuple (`obj[a, b]`) is passed through unchanged; only `get_slice` on a listed name can fail |
| `Proxy.GetItem` | h5pandas.py:91-112 | column indexing yields a series only for a string that is not a saved slice's name |
| `Proxy.GetItemSliceIsList` | h5pandas.py:94-96 | indexing by a slice's name equals indexing by its list and gives a table, even when a column has that name |
| `Proxy.GetItemSingleColumn` | h5pandas.py:97-110 | indexing by a string that names no slice gives that column of the stored table as a series, or KeyError if there is no such column |
| `Proxy.GetItemList` | h5pandas.py:107 | indexing by a list projects the stored table onto the listed columns and keeps every row |
| `Proxy.H5Pandas.constructor` | h5pandas.py:76-85 | the proxy holds the given store and table key |
| `Proxy.H5Pandas.SaveSlice` | h5pandas.py:118-123 | the store becomes the old one with the list written under the slice key; the slice reads back exactly, its name is listed, every earlier name stays listed, and every other key reads as before |
| `Proxy.SaveSliceRoundTrip` | h5pandas.py:114-123 | after saving a list under a name, `get_slice` of that name returns exactly that list, in order, and the name is listed |
| `Proxy.SaveSliceKeepsNames` | h5pandas.py:118-128 | every name listed before a save is still listed after it |
| `Proxy.SaveSliceKeepsTable` | h5pandas.py:87-89 | saving a slice leaves `get` and list indexing of the table unchanged unless the table is kept under that slice's key |
| `Frames.Column` | h5pandas.py:110 | reducing to column `c` gives the row labels and column `c`'s cells, or KeyError if there is no such column |
| `Frames.Row` | h5pandas.py:174 | reducing to row `x` gives the column labels and row `x`'s cells, or KeyError if there is no such row |
| `LocIndexer.ResolvePart` | h5pandas.py:152-164 | a tuple element becomes the list of the slice it names, or itself when `get_slice` raises KeyError or TypeError; it fails exactly when `get_slice` raises AttributeError, which is passed on |
| `LocIndexer.ResolveLocKey` | h5pandas.py:136-164 | a list selects rows with all columns; a slice name selects its rows; another string is one row label reduced to a row; a tuple resolves element 0 to rows and element 1 (if any) to columns with no reduction; an empty tuple raises IndexError; AttributeError from `get_slice` (a table under the slice key), for a string or either tuple element, is passed on |
| `LocIndexer.Loc` | h5pandas.py:136-176 | row indexing yields a series only for a string under which no slice is read |
| `LocIndexer.LocList` | h5pandas.py:140-142 | a list selects those rows of the stored table with every column |
| `LocIndexer.LocSliceIsList` | h5pandas.py:144-147 | row indexing by a slice's name equals row indexing by its list |
| `LocIndexer.LocSingleRow` | h5pandas.py:144-150 | a string under which no slice is saved gives that row of the stored table as a series, or KeyError if there is no such row |
| `LocIndexer.LocPairOfSlices` | h5pandas.py:151-164 | a pair of slice names selects the first slice's rows and the second slice's columns |
| `LocIndexer.LocPairOfLiterals` | h5pandas.py:151-164 | a pair of keys that name no slice selects by the keys themselves, as a table |
| `LocIndexer.LocSingletonTuple` | h5pandas.py:158-162 | a one-element tuple selects its rows and every column, as a table |
| `LocIndexer.LocTupleShape` | h5pandas.py:151-172 | an empty tuple raises IndexError and a tuple key never yields a series |

## Left out

- Opening the HDF5 file, the file path and the on-disk format: the store is the abstract dictionary `HdfStore.Store`, handed to the constructor.
- The order in which the HDF5 store lists its keys: no contract promises an order for keys written by `Put` (its body puts a new key last only because it must put it somewhere); `get_saved_slices` keeps the listing's order, whatever it is (`Proxy.SavedSliceNamesAppend`).
- The evaluation of the PyTables query `index=row_slice` and of pandas column projection: both are membership filtering that keeps the table's own label order; the order pandas gives to projected columns, dtypes and `.equals` are not modelled.
- Selecting with a tuple as a selector, that is a tuple key given to column indexing (`obj[a, b]`, handed to `select(columns=...)` at h5pandas.py:107) or a tuple nested inside a `loc` tuple, and selecting from a series stored under the table key: what pandas and PyTables do there is not modelled, and each ends in `StoreError`.
- The first `select` in the single-column branch of `__getitem__` (h5pandas.py:101-104): its result is discarded, so it is not modelled.
- Cell values are opaque; there is no computation on them.
- HdfStore.Put: keys are flat in the model, whereas the HDF5 store's keys are paths and a write to a key first removes every key below it (`<key>/...`); so "every other key reads as before" holds in the store only for keys that are not under the written key.
- Proxy.H5Pandas.SaveSlice: for the same reason, saving slice `a` removes a slice saved earlier as `a/b`; the contract's "every other key reads as before" and "every earlier name stays listed" hold in the store only when no saved name followed by `/` starts another saved name.
- Proxy.SaveSliceKeepsNames: holds in the store only under the same condition, that no saved name followed by `/` starts another saved name.
- Python keys other than strings, lists of strings and tuples (integers, `slice` objects), and non-string slice names passed to `save_slice`, are outside the model's types.
- Failures of the store other than a missing key (an unreadable file, a corrupt table) are not modelled.
- The `loc` attribute's back reference from `_LocIndexer` to the proxy: `LocIndexer.Loc` takes the proxy's store and table key directly.
