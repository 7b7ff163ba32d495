/** The base of every parser (Import/parser/CsvParser.py:9-29): rows as the
    CSV reader yields them, and `get_id`, the composite key of a row. */
module CsvParser {
  import opened Errors
  import opened Text

  /** One row of a delimited file: column name to cell text. */
  type Row = map<string, string>

  /** `row[column]`, which raises KeyError on a row without that column. */
  function Field(row: Row, column: string): Result<string> {
    if column in row then Ok(row[column]) else Err(MissingColumn(column))
  }

  /** The position of the first id column the row lacks. */
  function FirstMissing(row: Row, columns: seq<string>): (i: nat)
    requires exists c | c in columns :: c !in row
    ensures i < |columns| && columns[i] !in row
    ensures forall j | 0 <= j < i :: columns[j] in row
  {
    if columns[0] !in row then 0 else 1 + FirstMissing(row, columns[1..])
  }

  /** The first missing column is the one every earlier column precedes. */
  lemma {:induction false} FirstMissingAt(row: Row, columns: seq<string>, i: nat)
    requires i < |columns| && columns[i] !in row
    requires forall j | 0 <= j < i :: columns[j] in row
    ensures FirstMissing(row, columns) == i
    decreases i
  {
    if i > 0 {
      assert columns[1..][i - 1] == columns[i];
      FirstMissingAt(row, columns[1..], i - 1);
    }
  }

  /** The stripped values of the id columns, in column order. */
  function StrippedValues(row: Row, columns: seq<string>): seq<string>
    requires forall c | c in columns :: c in row
  {
    seq(|columns|, i requires 0 <= i < |columns| => Strip(row[columns[i]]))
  }

  /** The composite key `get_id` computes: the `_`-join of the stripped id
      columns, or the KeyError of the first id column the row lacks. */
  function KeyOf(row: Row, columns: seq<string>): Result<string> {
    if forall c | c in columns :: c in row then Ok(Join(StrippedValues(row, columns), "_"))
    else Err(MissingColumn(columns[FirstMissing(row, columns)]))
  }

  /** `CsvParser.get_id`: collect each id column's stripped value, then join. */
  method GetId(row: Row, columns: seq<string>) returns (key: Result<string>)
    ensures key == KeyOf(row, columns)
  {
    var ids: seq<string> := [];
    for i := 0 to |columns|
      invariant |ids| == i
      invariant forall j | 0 <= j < i :: columns[j] in row && ids[j] == Strip(row[columns[j]])
    {
      if columns[i] !in row {
        FirstMissingAt(row, columns, i);
        return Err(MissingColumn(columns[i]));
      }
      ids := ids + [Strip(row[columns[i]])];
    }
    assert ids == StrippedValues(row, columns);
    key := Ok(Join(ids, "_"));
  }

  /** A key exists exactly when the row has every id column; the error names
      the first one missing. */
  lemma KeyOfDefined(row: Row, columns: seq<string>)
    ensures KeyOf(row, columns).Ok? <==> forall i | 0 <= i < |columns| :: columns[i] in row
    ensures KeyOf(row, columns).Err? ==>
      exists i | 0 <= i < |columns| :: KeyOf(row, columns).error == MissingColumn(columns[i])
        && columns[i] !in row && forall j | 0 <= j < i :: columns[j] in row
  {
    if !(forall c | c in columns :: c in row) {
      var i := FirstMissing(row, columns);
      assert KeyOf(row, columns).error == MissingColumn(columns[i]);
    }
  }

  /** With a single id column the key is that column's stripped value. */
  lemma KeyOfSingleColumn(row: Row, column: string)
    requires column in row
    ensures KeyOf(row, [column]) == Ok(Strip(row[column]))
  {
  }

  /** Whitespace around any cell of the row does not change its key, for
      any id columns: an id cell is stripped, and another cell is not read. */
  lemma KeyOfIgnoresPadding(row: Row, columns: seq<string>, column: string, pre: string, post: string)
    requires column in row
    requires forall k | 0 <= k < |pre| :: IsSpace(pre[k])
    requires forall k | 0 <= k < |post| :: IsSpace(post[k])
    ensures KeyOf(row[column := pre + row[column] + post], columns) == KeyOf(row, columns)
  {
    var padded := row[column := pre + row[column] + post];
    StripIgnoresPadding(pre, row[column], post);
    if forall c | c in columns :: c in row {
      assert StrippedValues(padded, columns) == StrippedValues(row, columns);
    } else {
      FirstMissingAt(padded, columns, FirstMissing(row, columns));
    }
  }

  /** The key keeps every id value: when no stripped value contains `_`,
      splitting the key at `_` gives the stripped values back, so two such
      rows share a key only if they agree on every id column. */
  lemma KeyOfSplits(row: Row, columns: seq<string>)
    requires |columns| >= 1
    requires forall c | c in columns :: c in row
    requires forall c | c in columns :: '_' !in Strip(row[c])
    ensures KeyOf(row, columns).Ok?
    ensures Split(KeyOf(row, columns).value, '_') == StrippedValues(row, columns)
  {
    SplitJoin(StrippedValues(row, columns), '_');
  }
}
