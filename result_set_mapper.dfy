/** `ResultSetMapper`: drains a result set's cursor into a list or a set,
    reading one column of every row. */
module ResultSetMappers {

  import opened Wrappers

  /** What `getObject(columnIndex, clazz)` finds in one column of a row: a
      value of the requested class, or something the driver cannot
      convert, which makes it throw `SQLException`. */
  datatype Cell<T> = Value(value: T) | Unconvertible

  /** A row holds its columns in order; column `i` (1-based) is `row[i - 1]`. */
  type Row<T> = seq<Cell<T>>

  /** `getObject(columnIndex, clazz)` on one row: a column outside the row
      or a cell that cannot be converted throws `SQLException`. */
  function ReadColumn<T>(row: Row<T>, columnIndex: int): (r: Result<T>)
    ensures r.Ok? <==> 1 <= columnIndex <= |row| && row[columnIndex - 1].Value?
    ensures r.Ok? ==> r.value == row[columnIndex - 1].value
    ensures r.Throw? ==> r.error == SqlException
  {
    if 1 <= columnIndex <= |row| && row[columnIndex - 1].Value? then Ok(row[columnIndex - 1].value)
    else Throw(SqlException)
  }

  /** The column read from every row in order, or the first exception. */
  function ColumnValues<T>(rows: seq<Row<T>>, columnIndex: int): Result<seq<T>>
  {
    if rows == [] then Ok([])
    else
      match ColumnValues(rows[..|rows| - 1], columnIndex)
      case Throw(e) => Throw(e)
      case Ok(vs) =>
        match ReadColumn(rows[|rows| - 1], columnIndex)
        case Throw(e) => Throw(e)
        case Ok(v) => Ok(vs + [v])
  }

  /** One element per row, in row order, each read from `columnIndex` of
      its own row; the reading succeeds exactly when every row's does. */
  lemma {:induction false} ColumnValuesByRow<T>(rows: seq<Row<T>>, columnIndex: int)
    ensures ColumnValues(rows, columnIndex).Ok? <==>
      forall i :: 0 <= i < |rows| ==> ReadColumn(rows[i], columnIndex).Ok?
    ensures ColumnValues(rows, columnIndex).Ok? ==>
      |ColumnValues(rows, columnIndex).value| == |rows| &&
      forall i :: 0 <= i < |rows| ==> ColumnValues(rows, columnIndex).value[i] == ReadColumn(rows[i], columnIndex).value
  {
    if rows != [] {
      var init := rows[..|rows| - 1];
      ColumnValuesByRow(init, columnIndex);
      assert forall i :: 0 <= i < |init| ==> init[i] == rows[i];
    }
  }

  /** A failure is the `SQLException` of the first row that cannot be read. */
  lemma {:induction false} ColumnValuesFailure<T>(rows: seq<Row<T>>, columnIndex: int)
    ensures ColumnValues(rows, columnIndex).Throw? ==> ColumnValues(rows, columnIndex).error == SqlException
  {
    if rows != [] {
      ColumnValuesFailure(rows[..|rows| - 1], columnIndex);
    }
  }

  /** Reading more rows extends the list read so far. */
  lemma ColumnValuesSnoc<T>(rows: seq<Row<T>>, row: Row<T>, columnIndex: int)
    ensures ColumnValues(rows + [row], columnIndex) ==
      match ColumnValues(rows, columnIndex)
      case Throw(e) => Throw(e)
      case Ok(vs) =>
        match ReadColumn(row, columnIndex)
        case Throw(e) => Throw(e)
        case Ok(v) => Ok(vs + [v])
  {
    assert (rows + [row])[..|rows|] == rows;
  }

  /** The elements of a sequence, duplicates collapsed. */
  function Elements<T>(s: seq<T>): set<T>
  {
    set x | x in s
  }

  /** The set holds exactly the values of the rows, and no more of them
      than there are rows. */
  lemma {:induction false} ElementsOfColumn<T>(rows: seq<Row<T>>, columnIndex: int)
    requires ColumnValues(rows, columnIndex).Ok?
    ensures forall x :: x in Elements(ColumnValues(rows, columnIndex).value) <==>
      exists i :: 0 <= i < |rows| && ReadColumn(rows[i], columnIndex) == Ok(x)
    ensures |Elements(ColumnValues(rows, columnIndex).value)| <= |rows|
  {
    ColumnValuesByRow(rows, columnIndex);
    var vs := ColumnValues(rows, columnIndex).value;
    forall x
      ensures x in Elements(vs) <==> exists i :: 0 <= i < |rows| && ReadColumn(rows[i], columnIndex) == Ok(x)
    {
      if x in Elements(vs) {
        var i :| 0 <= i < |vs| && vs[i] == x;
        assert ReadColumn(rows[i], columnIndex) == Ok(x);
      }
      if exists i :: 0 <= i < |rows| && ReadColumn(rows[i], columnIndex) == Ok(x) {
        var i :| 0 <= i < |rows| && ReadColumn(rows[i], columnIndex) == Ok(x);
        assert vs[i] == x;
      }
    }
    ElementsBound(vs);
  }

  lemma {:induction false} ElementsBound<T>(s: seq<T>)
    ensures |Elements(s)| <= |s|
  {
    if s != [] {
      ElementsBound(s[..|s| - 1]);
      assert s == s[..|s| - 1] + [s[|s| - 1]];
      assert Elements(s) == Elements(s[..|s| - 1]) + {s[|s| - 1]};
    }
  }

  /** Equal rows collapse: a second row with the same value adds nothing to
      the set although the list grows by one. */
  lemma DuplicateRowsCollapse<T>(rows: seq<Row<T>>, row: Row<T>, columnIndex: int)
    requires ColumnValues(rows + [row], columnIndex).Ok? && ColumnValues(rows + [row, row], columnIndex).Ok?
    ensures |ColumnValues(rows + [row, row], columnIndex).value| == |ColumnValues(rows + [row], columnIndex).value| + 1
    ensures Elements(ColumnValues(rows + [row, row], columnIndex).value) == Elements(ColumnValues(rows + [row], columnIndex).value)
  {
    assert rows + [row, row] == (rows + [row]) + [row];
    ColumnValuesSnoc(rows, row, columnIndex);
    ColumnValuesSnoc(rows + [row], row, columnIndex);
    var vs := ColumnValues(rows + [row], columnIndex).value;
    var v := ReadColumn(row, columnIndex).value;
    assert v in vs;
    assert Elements(vs + [v]) == Elements(vs);
  }

  /** A result set: its rows and a cursor. The cursor is the number of rows
      moved onto so far; when it is `k >= 1` the current row is `rows[k - 1]`. */
  class ResultSet<T> {
    const rows: seq<Row<T>>
    var position: nat

    predicate Valid()
      reads this
    {
      position <= |rows|
    }

    /** A result set positioned before its first row. */
    constructor (rows: seq<Row<T>>)
      ensures this.rows == rows && position == 0 && Valid()
    {
      this.rows := rows;
      position := 0;
    }

    /** `next()`: moves onto the following row if there is one. */
    method Next() returns (more: bool)
      requires Valid()
      modifies this
      ensures Valid()
      ensures more <==> old(position) < |rows|
      ensures position == if more then old(position) + 1 else old(position)
    {
      more := position < |rows|;
      if more {
        position := position + 1;
      }
    }

    /** `getObject(columnIndex, clazz)` on the current row. */
    method GetObject(columnIndex: int) returns (r: Result<T>)
      requires Valid() && 1 <= position
      ensures r == ReadColumn(rows[position - 1], columnIndex)
    {
      var row := rows[position - 1];
      if 1 <= columnIndex <= |row| && row[columnIndex - 1].Value? {
        r := Ok(row[columnIndex - 1].value);
      } else {
        r := Throw(SqlException);
      }
    }
  }

  /** `mapToList`: reads `columnIndex` of every remaining row into a list;
      an exception from any row propagates and no list is returned. */
  method MapToList<T>(resultSet: ResultSet<T>, columnIndex: int) returns (r: Result<seq<T>>)
    requires resultSet.Valid()
    modifies resultSet
    ensures resultSet.Valid()
    ensures r == ColumnValues(resultSet.rows[old(resultSet.position)..], columnIndex)
    ensures r.Ok? ==> resultSet.position == |resultSet.rows|
  {
    ghost var start := resultSet.position;
    ghost var rest := resultSet.rows[start..];
    ghost var n := 0;
    var list := [];
    var more := resultSet.Next();
    while more
      invariant resultSet.Valid() && 0 <= n <= |rest|
      invariant resultSet.position == start + n + (if more then 1 else 0)
      invariant !more ==> n == |rest|
      invariant ColumnValues(rest[..n], columnIndex) == Ok(list)
      decreases |rest| - n
    {
      var x := resultSet.GetObject(columnIndex);
      ReadNext(rest, n, columnIndex);
      if x.Throw? {
        PrefixFailure(rest, n + 1, columnIndex);
        return Throw(x.error);
      }
      list := list + [x.value];
      n := n + 1;
      more := resultSet.Next();
    }
    assert rest[..n] == rest;
    r := Ok(list);
  }

  /** `mapToSet`: the same, collecting into a set. */
  method MapToSet<T>(resultSet: ResultSet<T>, columnIndex: int) returns (r: Result<set<T>>)
    requires resultSet.Valid()
    modifies resultSet
    ensures resultSet.Valid()
    ensures var values := ColumnValues(resultSet.rows[old(resultSet.position)..], columnIndex);
      && (values.Ok? ==> r == Ok(Elements(values.value)) && resultSet.position == |resultSet.rows|)
      && (values.Throw? ==> r == Throw(values.error))
  {
    ghost var start := resultSet.position;
    ghost var rest := resultSet.rows[start..];
    ghost var n := 0;
    ghost var list := [];
    var elements := {};
    var more := resultSet.Next();
    while more
      invariant resultSet.Valid() && 0 <= n <= |rest|
      invariant resultSet.position == start + n + (if more then 1 else 0)
      invariant !more ==> n == |rest|
      invariant ColumnValues(rest[..n], columnIndex) == Ok(list)
      invariant elements == Elements(list)
      decreases |rest| - n
    {
      var x := resultSet.GetObject(columnIndex);
      ReadNext(rest, n, columnIndex);
      if x.Throw? {
        PrefixFailure(rest, n + 1, columnIndex);
        return Throw(x.error);
      }
      ElementsSnoc(list, x.value);
      elements := elements + {x.value};
      list := list + [x.value];
      n := n + 1;
      more := resultSet.Next();
    }
    assert rest[..n] == rest;
    r := Ok(elements);
  }

  /** Reading the row after the first `n` extends the values read so far. */
  lemma ReadNext<T>(rest: seq<Row<T>>, n: nat, columnIndex: int)
    requires n < |rest| && ColumnValues(rest[..n], columnIndex).Ok?
    ensures ColumnValues(rest[..n + 1], columnIndex) ==
      match ReadColumn(rest[n], columnIndex)
      case Throw(e) => Throw(e)
      case Ok(x) => Ok(ColumnValues(rest[..n], columnIndex).value + [x])
  {
    assert rest[..n + 1] == rest[..n] + [rest[n]];
    ColumnValuesSnoc(rest[..n], rest[n], columnIndex);
  }

  lemma ElementsSnoc<T>(s: seq<T>, x: T)
    ensures Elements(s + [x]) == Elements(s) + {x}
  {
  }

  /** Once a prefix of the rows fails, reading all of them fails the same way. */
  lemma {:induction false} PrefixFailure<T>(rows: seq<Row<T>>, k: nat, columnIndex: int)
    requires k <= |rows| && ColumnValues(rows[..k], columnIndex).Throw?
    ensures ColumnValues(rows, columnIndex) == ColumnValues(rows[..k], columnIndex)
    decreases |rows| - k
  {
    if k < |rows| {
      assert rows[..k + 1][..k] == rows[..k];
      PrefixFailure(rows, k + 1, columnIndex);
    } else {
      assert rows[..k] == rows;
    }
  }
}
