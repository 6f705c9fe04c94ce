/**
 * The Polars `DataFrame` as the program uses it: an ordered list of columns
 * with distinct names and one common height, built by `DataFrame::new`
 * (which rejects duplicate names, then unequal heights) and updated in place
 * by `replace`.
 */
module Frame {
  import opened Wrappers
  import opened Values
  import opened AppErrors

  predicate UniqueNames(cols: seq<Column>) {
    forall i, j :: 0 <= i < j < |cols| ==> cols[i].name != cols[j].name
  }

  predicate SameHeight(cols: seq<Column>) {
    forall i :: 0 <= i < |cols| ==> |cols[i].cells| == |cols[0].cells|
  }

  predicate IsFrame(cols: seq<Column>) {
    UniqueNames(cols) && SameHeight(cols)
  }

  /** `DataFrame::height`: the common column length, 0 for a frame without columns. */
  function Height(cols: seq<Column>): nat {
    if cols == [] then 0 else |cols[0].cells|
  }

  /** `DataFrame::new`. */
  function NewDataFrame(cols: seq<Column>): (r: Result<seq<Column>, AppError>)
    ensures r.Ok? <==> IsFrame(cols)
    ensures r.Ok? ==> r.value == cols
    ensures !UniqueNames(cols) ==> r == Err(Polars(Duplicate))
  {
    if !UniqueNames(cols) then Err(Polars(Duplicate))
    else if !SameHeight(cols) then Err(Polars(ShapeMismatch))
    else Ok(cols)
  }

  /** `DataFrame::column(name)`: the first column with that name. */
  function IndexOfName(cols: seq<Column>, name: string): (r: Option<nat>)
    ensures r.Some? ==> r.value < |cols| && cols[r.value].name == name
    ensures r.Some? ==> forall j :: 0 <= j < r.value ==> cols[j].name != name
    ensures r.None? <==> forall j :: 0 <= j < |cols| ==> cols[j].name != name
  {
    if cols == [] then None
    else if cols[0].name == name then Some(0)
    else
      match IndexOfName(cols[1..], name)
      case None => None
      case Some(k) => Some(k + 1)
  }

  /** In a frame with distinct names, looking a column's name up finds that column. */
  lemma IndexOfUniqueName(cols: seq<Column>, k: nat)
    requires UniqueNames(cols) && k < |cols|
    ensures IndexOfName(cols, cols[k].name) == Some(k)
  {
  }

  class DataFrame {
    var columns: seq<Column>

    ghost predicate Valid()
      reads this
    {
      IsFrame(columns)
    }

    constructor (cols: seq<Column>)
      requires IsFrame(cols)
      ensures Valid() && columns == cols
    {
      columns := cols;
    }

    /**
     * `DataFrame::replace(name, series)`. Polars fails when the name is absent
     * or the length differs; both callers replace a column of the frame's own
     * by one of the same length, so those failures are excluded here.
     */
    method Replace(name: string, col: Column)
      requires Valid()
      requires IndexOfName(columns, name).Some?
      requires col.name == name
      requires |col.cells| == |columns[IndexOfName(columns, name).value].cells|
      modifies this
      ensures Valid()
      ensures columns == old(columns)[IndexOfName(old(columns), name).value := col]
    {
      var i := IndexOfName(columns, name).value;
      columns := columns[i := col];
    }
  }
}
