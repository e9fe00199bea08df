/**
 * `H5pandas.loc[...]`: row indexing, and row-and-column indexing with a
 * pair of keys, where each key may name a saved slice. A failed slice
 * lookup falls back to using the key itself as the selector.
 */
module LocIndexer {
  import opened Wrappers
  import opened Frames
  import opened HdfStore
  import opened Proxy

  /** One element of a tuple key: the list of the slice it names, or the
      element itself when `get_slice` raises KeyError or TypeError. Any
      other failure of `get_slice` is passed on. */
  function ResolvePart(st: Store, k: Key): (r: Result<Key>)
    ensures GetSlice(st, k).Ok? ==> r == Ok(List(GetSlice(st, k).value))
    ensures GetSlice(st, k).Err? && GetSlice(st, k).error in {KeyError, TypeError} ==> r == Ok(k)
    ensures r.Err? <==> GetSlice(st, k) == Err(AttributeError)
  {
    match GetSlice(st, k)
    case Ok(ids) => Ok(List(ids))
    case Err(e) => if e == KeyError || e == TypeError then Ok(k) else Err(e)
  }

  /** `_LocIndexer.__getitem__` key resolution. A list selects those rows;
      a string selects the rows of the slice it names, or else is one row
      label and reduces the result to that row; a tuple resolves its first
      element to the rows and its second, when there is one, to the
      columns. An empty tuple fails on its first element (IndexError). */
  function ResolveLocKey(st: Store, item: Key): (r: Result<Resolution>)
    ensures r.Ok? ==> r.value.rows.Some? && !r.value.reduce.ToColumn?
    ensures item.List? ==> r == Ok(Resolution(Some(item), None, Keep))
    ensures item.Str? && GetSlice(st, item).Ok? ==>
              r == Ok(Resolution(Some(List(GetSlice(st, item).value)), None, Keep))
    ensures item.Str? && GetSlice(st, item) == Err(KeyError) ==>
              r == Ok(Resolution(Some(item), None, ToRow(item.s)))
    ensures item.Str? && GetSlice(st, item) == Err(AttributeError) ==> r == Err(AttributeError)
    ensures item.Tup? && |item.parts| > 0 && ResolvePart(st, item.parts[0]).Err? ==> r == Err(AttributeError)
    ensures item.Tup? && |item.parts| > 1 && ResolvePart(st, item.parts[0]).Ok? ==>
              (ResolvePart(st, item.parts[1]).Err? ==> r == Err(AttributeError))
    ensures r.Ok? && r.value.reduce.ToRow? ==> item == Str(r.value.reduce.row) && GetSlice(st, item).Err?
    ensures item.Tup? ==> (r.Ok? ==> r.value.reduce.Keep?)
    ensures item.Tup? && |item.parts| == 0 ==> r == Err(IndexError)
    ensures item.Tup? && |item.parts| > 0 && ResolvePart(st, item.parts[0]).Ok? ==>
              r.Ok? ==> r.value.rows == Some(ResolvePart(st, item.parts[0]).value)
    ensures item.Tup? && |item.parts| == 1 ==> (r.Ok? ==> r.value.cols.None?)
    ensures item.Tup? && |item.parts| > 1 && ResolvePart(st, item.parts[1]).Ok? ==>
              r.Ok? ==> r.value.cols == Some(ResolvePart(st, item.parts[1]).value)
    ensures item.Tup? && |item.parts| > 0 ==>
              (r.Ok? <==> ResolvePart(st, item.parts[0]).Ok? &&
                          (|item.parts| > 1 ==> ResolvePart(st, item.parts[1]).Ok?))
  {
    match item
    case List(_) => Ok(Resolution(Some(item), None, Keep))
    case Str(s) =>
      (match GetSlice(st, item)
       case Ok(ids) => Ok(Resolution(Some(List(ids)), None, Keep))
       case Err(e) =>
         if e == KeyError || e == TypeError then Ok(Resolution(Some(item), None, ToRow(s)))
         else Err(e))
    case Tup(parts) =>
      if |parts| == 0 then Err(IndexError)
      else
        match ResolvePart(st, parts[0])
        case Err(e) => Err(e)
        case Ok(rows) =>
          if |parts| < 2 then Ok(Resolution(Some(rows), None, Keep))
          else
            match ResolvePart(st, parts[1])
            case Err(e) => Err(e)
            case Ok(cols) => Ok(Resolution(Some(rows), Some(cols), Keep))
  }

  /** `_LocIndexer.__getitem__`: select the resolved rows and columns from
      the stored table, then reduce to one row for a plain row label. */
  function Loc(st: Store, groupKey: string, item: Key): (r: Result<Data>)
    requires st.Valid()
    ensures r.Ok? && r.value.Series? ==> item.Str? && GetSlice(st, item).Err?
  {
    match ResolveLocKey(st, item)
    case Err(e) => Err(e)
    case Ok(res) => Apply(st, groupKey, res)
  }

  /** A list selects those rows of the stored table, with every column. */
  lemma LocList(st: Store, groupKey: string, ids: seq<string>, t: Table)
    requires st.Valid()
    requires Get(st, groupKey) == Ok(TableVal(t))
    ensures Loc(st, groupKey, List(ids)) == Ok(Frame(Select(t, AllOf(ids), AllOf(t.cols))))
    ensures Loc(st, groupKey, List(ids)).value.table.cols == t.cols
  {
    FilterKeepsAll(t.cols, AllOf(t.cols));
  }

  /** Row indexing by a saved slice's name is row indexing by its list. */
  lemma LocSliceIsList(st: Store, groupKey: string, n: string, ids: seq<string>)
    requires st.Valid()
    requires Get(st, SliceKey(n)) == Ok(SliceVal(ids))
    ensures Loc(st, groupKey, Str(n)) == Loc(st, groupKey, List(ids))
  {
  }

  /** Row indexing by a string under which no slice is saved gives that
      row of the stored table as a series, or KeyError when it has none. */
  lemma LocSingleRow(st: Store, groupKey: string, x: string, t: Table)
    requires st.Valid()
    requires Get(st, groupKey) == Ok(TableVal(t))
    requires SliceMarker + x !in st.entries
    ensures Loc(st, groupKey, Str(x)) == Row(t, x)
  {
    RowOfSelection(t, {x}, AllOf(t.cols), x);
  }

  /** `loc[n, m]` with two saved slices selects the rows of the first and
      the columns of the second; `loc[n, n]` is the square sub-table. */
  lemma LocPairOfSlices(st: Store, groupKey: string, n: string, rowIds: seq<string>,
                        m: string, colIds: seq<string>, t: Table)
    requires st.Valid()
    requires Get(st, groupKey) == Ok(TableVal(t))
    requires Get(st, SliceKey(n)) == Ok(SliceVal(rowIds))
    requires Get(st, SliceKey(m)) == Ok(SliceVal(colIds))
    ensures Loc(st, groupKey, Tup([Str(n), Str(m)])) == Ok(Frame(Select(t, AllOf(rowIds), AllOf(colIds))))
  {
  }

  /** A tuple element that names no slice is used as it is: a string as
      one label, a list as its labels. The pair is never reduced. */
  lemma LocPairOfLiterals(st: Store, groupKey: string, a: Key, b: Key, t: Table)
    requires st.Valid()
    requires Get(st, groupKey) == Ok(TableVal(t))
    requires a.List? || (a.Str? && SliceMarker + a.s !in st.entries)
    requires b.List? || (b.Str? && SliceMarker + b.s !in st.entries)
    ensures Loc(st, groupKey, Tup([a, b])) ==
            Ok(Frame(Select(t, Labels(Some(a), t.rows).value, Labels(Some(b), t.cols).value)))
  {
  }

  /** A one-element tuple selects all columns: the missing second element
      (IndexError) means no column selection, and no reduction follows. */
  lemma LocSingletonTuple(st: Store, groupKey: string, a: Key, t: Table)
    requires st.Valid()
    requires Get(st, groupKey) == Ok(TableVal(t))
    requires a.List? || (a.Str? && SliceMarker + a.s !in st.entries)
    ensures Loc(st, groupKey, Tup([a])) == Ok(Frame(Select(t, Labels(Some(a), t.rows).value, AllOf(t.cols))))
    ensures Loc(st, groupKey, Tup([a])).value.table.cols == t.cols
  {
    FilterKeepsAll(t.cols, AllOf(t.cols));
  }

  /** An empty tuple raises IndexError, and a tuple never yields a series. */
  lemma LocTupleShape(st: Store, groupKey: string, parts: seq<Key>)
    requires st.Valid()
    ensures parts == [] ==> Loc(st, groupKey, Tup(parts)) == Err(IndexError)
    ensures Loc(st, groupKey, Tup(parts)).Ok? ==> Loc(st, groupKey, Tup(parts)).value.Frame?
  {
  }
}
