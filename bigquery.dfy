/**
 * The persona lookup: two configuration values select a warehouse table, a
 * query reads it, and the returned rows, each a sequence of (column, value)
 * items, are folded into a map from column name to the column's values. The
 * warehouse client is an input: what the query returns for a query text.
 */
module PersonaData {
  import opened Wrappers
  import opened PyStr

  /** One result row: its (column name, value) items in column order. */
  type Row<V> = seq<(string, V)>

  /** What running the query produced: an exception, or the rows. */
  datatype QueryResult<V> = QueryFailed(message: string) | QueryRows(rows: seq<Row<V>>)

  /** The column names of one row. */
  function RowKeys<V>(row: Row<V>): set<string> {
    if |row| == 0 then {} else RowKeys(row[..|row| - 1]) + {row[|row| - 1].0}
  }

  /** The column names that occur in some row. */
  function KeysOf<V>(rows: seq<Row<V>>): set<string> {
    if |rows| == 0 then {} else KeysOf(rows[..|rows| - 1]) + RowKeys(rows[|rows| - 1])
  }

  /** The values of one row under a column name, in item order. */
  function ValuesIn<V>(row: Row<V>, key: string): seq<V> {
    if |row| == 0 then []
    else ValuesIn(row[..|row| - 1], key) + (if row[|row| - 1].0 == key then [row[|row| - 1].1] else [])
  }

  /** A column: its values in every row, concatenated in row order. */
  function Column<V>(rows: seq<Row<V>>, key: string): seq<V> {
    if |rows| == 0 then [] else Column(rows[..|rows| - 1], key) + ValuesIn(rows[|rows| - 1], key)
  }

  /** The outer loop that builds `data`, one row at a time. */
  method ProjectColumns<V>(rows: seq<Row<V>>) returns (data: map<string, seq<V>>)
    ensures data.Keys == KeysOf(rows)
    ensures forall key :: key in data ==> data[key] == Column(rows, key)
  {
    data := map[];
    for r := 0 to |rows|
      invariant data.Keys == KeysOf(rows[..r])
      invariant forall key :: key in data ==> data[key] == Column(rows[..r], key)
    {
      RowsStep(rows, r);
      ghost var before := data;
      data := AddRow(data, rows[r]);
      forall key | key in data
        ensures data[key] == Column(rows[..r + 1], key)
      {
        if key !in before {
          AbsentKeyEmptyColumn(rows[..r], key);
        }
      }
    }
    assert rows[..|rows|] == rows;
  }

  /** The inner loop over one row's items: insert a key with an empty list
      the first time it is seen, then append the item's value to its list. */
  method AddRow<V>(data0: map<string, seq<V>>, row: Row<V>) returns (data: map<string, seq<V>>)
    ensures data.Keys == data0.Keys + RowKeys(row)
    ensures forall key :: key in data ==>
              data[key] == (if key in data0 then data0[key] else []) + ValuesIn(row, key)
  {
    data := data0;
    for j := 0 to |row|
      invariant data == RowInto(data0, row[..j])
    {
      assert row[..j + 1][..j] == row[..j];
      var key := row[j].0;
      var values: seq<V> := [];
      if key in data {
        values := data[key];
      }
      data := data[key := values + [row[j].1]];
    }
    assert row[..|row|] == row;
    RowIntoKeys(data0, row);
    forall key | key in data
      ensures data[key] == (if key in data0 then data0[key] else []) + ValuesIn(row, key)
    {
      RowIntoValues(data0, row, key);
    }
  }

  /** The map after the inner loop has taken in the items of row, in order. */
  function RowInto<V>(data0: map<string, seq<V>>, row: Row<V>): map<string, seq<V>> {
    if |row| == 0 then data0
    else
      var d := RowInto(data0, row[..|row| - 1]);
      var item := row[|row| - 1];
      d[item.0 := (if item.0 in d then d[item.0] else []) + [item.1]]
  }

  /** The keys after a row: the keys before, and the row's column names. */
  lemma {:induction false} RowIntoKeys<V>(data0: map<string, seq<V>>, row: Row<V>)
    ensures RowInto(data0, row).Keys == data0.Keys + RowKeys(row)
  {
    if |row| > 0 {
      RowIntoKeys(data0, row[..|row| - 1]);
    }
  }

  /** A key's list after a row: its list before, if any, then the row's
      values under that key. */
  lemma {:induction false} RowIntoValues<V>(data0: map<string, seq<V>>, row: Row<V>, key: string)
    requires key in RowInto(data0, row)
    ensures RowInto(data0, row)[key] == (if key in data0 then data0[key] else []) + ValuesIn(row, key)
  {
    if |row| > 0 {
      var init := row[..|row| - 1];
      var d := RowInto(data0, init);
      var prior: seq<V> := if key in data0 then data0[key] else [];
      if key in d {
        RowIntoValues(data0, init, key);
      } else {
        RowIntoKeys(data0, init);
        AbsentKeyNoValues(init, key);
        assert prior == [];
      }
      if row[|row| - 1].0 == key {
        assert RowInto(data0, row)[key] == (prior + ValuesIn(init, key)) + [row[|row| - 1].1];
      }
    }
  }

  /** One more row: its keys join the keys, its values the columns. */
  lemma RowsStep<V>(rows: seq<Row<V>>, r: nat)
    requires r < |rows|
    ensures KeysOf(rows[..r + 1]) == KeysOf(rows[..r]) + RowKeys(rows[r])
    ensures forall key :: Column(rows[..r + 1], key) == Column(rows[..r], key) + ValuesIn(rows[r], key)
  {
    assert rows[..r + 1][..r] == rows[..r];
  }

  lemma {:induction false} AbsentKeyNoValues<V>(row: Row<V>, key: string)
    requires key !in RowKeys(row)
    ensures ValuesIn(row, key) == []
  {
    if |row| > 0 {
      AbsentKeyNoValues(row[..|row| - 1], key);
    }
  }

  /** A column name that occurs in no row has an empty column. */
  lemma {:induction false} AbsentKeyEmptyColumn<V>(rows: seq<Row<V>>, key: string)
    requires key !in KeysOf(rows)
    ensures Column(rows, key) == []
  {
    if |rows| > 0 {
      AbsentKeyEmptyColumn(rows[..|rows| - 1], key);
      AbsentKeyNoValues(rows[|rows| - 1], key);
    }
  }

  /** Column names are unique within the row. */
  predicate UniqueKeys<V>(row: Row<V>) {
    forall i, j :: 0 <= i < j < |row| ==> row[i].0 != row[j].0
  }

  /** A name is a key of the row exactly when some item carries it. */
  lemma {:induction false} RowKeysIndex<V>(row: Row<V>, key: string)
    ensures key in RowKeys(row) <==> exists i :: 0 <= i < |row| && row[i].0 == key
  {
    if |row| > 0 {
      var init := row[..|row| - 1];
      RowKeysIndex(init, key);
      assert forall i :: 0 <= i < |init| ==> init[i] == row[i];
    }
  }

  /** A row whose column names are unique holds one value under each of them. */
  lemma {:induction false} OneValuePerKey<V>(row: Row<V>, key: string)
    requires UniqueKeys(row) && key in RowKeys(row)
    ensures |ValuesIn(row, key)| == 1
  {
    var init := row[..|row| - 1];
    assert forall i :: 0 <= i < |init| ==> init[i] == row[i];
    if row[|row| - 1].0 == key {
      assert forall i :: 0 <= i < |init| ==> init[i].0 != key;
      RowKeysIndex(init, key);
      AbsentKeyNoValues(init, key);
    } else {
      OneValuePerKey(init, key);
    }
  }

  /** Uniform rows: when every row has the same column names, each unique
      within its row, every column has one value per row. */
  lemma {:induction false} UniformColumns<V>(rows: seq<Row<V>>, keys: set<string>, key: string)
    requires forall r :: 0 <= r < |rows| ==> UniqueKeys(rows[r]) && RowKeys(rows[r]) == keys
    requires key in keys
    ensures |Column(rows, key)| == |rows|
  {
    if |rows| > 0 {
      var init := rows[..|rows| - 1];
      assert forall r :: 0 <= r < |init| ==> init[r] == rows[r];
      UniformColumns(init, keys, key);
      OneValuePerKey(rows[|rows| - 1], key);
    }
  }

  /** The query text, with the warehouse project of the client in front of
      the dataset and the table. */
  function PersonaQuery(project: string, datasetId: string, tableId: string): string {
    "\n        SELECT persona_age_group_profile, persona_segment_description\n        FROM `"
    + project + "." + datasetId + "." + tableId + "`\n        LIMIT 30\n    "
  }

  /** `get_persona_data()`: `query` is the query it issued, if any. */
  method GetPersonaData<V>(datasetId: Option<string>, tableId: Option<string>, project: string,
                           runQuery: string -> QueryResult<V>)
    returns (data: Option<map<string, seq<V>>>, query: Option<string>)
    // Missing or empty configuration: None, and nothing is queried.
    ensures !Truthy(datasetId) || !Truthy(tableId) ==> data.None? && query.None?
    // Otherwise the query names the configured table.
    ensures Truthy(datasetId) && Truthy(tableId) ==>
              query == Some(PersonaQuery(project, datasetId.value, tableId.value))
    // A failed query: None.
    ensures query.Some? && runQuery(query.value).QueryFailed? ==> data.None?
    // Rows: the columns, keyed by every column name that occurs.
    ensures query.Some? && runQuery(query.value).QueryRows? ==>
              var rows := runQuery(query.value).rows;
              data.Some? && data.value.Keys == KeysOf(rows)
              && forall key :: key in data.value ==> data.value[key] == Column(rows, key)
    // Zero rows: an empty map, not None.
    ensures query.Some? && runQuery(query.value) == QueryRows([]) ==> data == Some(map[])
  {
    if !Truthy(datasetId) || !Truthy(tableId) {
      return None, None;
    }
    var q := PersonaQuery(project, datasetId.value, tableId.value);
    query := Some(q);
    match runQuery(q)
    case QueryFailed(_) =>
      data := None;
    case QueryRows(rows) =>
      var columns := ProjectColumns(rows);
      data := Some(columns);
  }
}
