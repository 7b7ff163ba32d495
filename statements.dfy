/** `MatrixStatementParser` (Import/parser/CsvParser.py:245-279): the
    deduplicating read of `Deduplication`, plus a per-question sequence
    number. For every row whose key is not yet in the dict, the parser bumps
    the number of the row's raw question name, before it builds the
    statement and before the filter, and labels the statement with the
    normalised question name, `_` and that number. */
module StatementParser {
  import opened Errors
  import opened Text
  import opened CsvParser
  import opened Entities
  import opened Deduplication
  import Parsers

  const QuestionColumn := "Question name"
  const ItemColumn := "Item name"
  const ComponentColumn := "ComponentId"

  /** `question_name.strip().lower() + '_' + str(counter)`. */
  function StatementLabel(question: string, n: nat): string {
    Lower(Strip(question)) + "_" + Decimal(n)
  }

  /** The same question name with two numbers gives two labels. */
  lemma StatementLabelInjective(question: string, n: nat, m: nat)
    requires StatementLabel(question, n) == StatementLabel(question, m)
    ensures n == m
  {
    var prefix := Lower(Strip(question)) + "_";
    assert StatementLabel(question, n) == prefix + Decimal(n);
    assert StatementLabel(question, m) == prefix + Decimal(m);
    CancelPrefix(prefix, Decimal(n), Decimal(m));
    DecimalInjective(n, m);
  }

  /** The number the next new-key row with `question` gets: one more than
      the last, or 1 for a question not seen yet. */
  function NextNumber(counters: map<string, nat>, question: string): (n: nat)
    ensures n >= 1
    ensures question in counters ==> n == counters[question] + 1
    ensures question !in counters ==> n == 1
  {
    if question in counters then counters[question] + 1 else 1
  }

  /** The statement a row describes, numbered `n`: the cells are read in the
      order the source passes them to `MatrixStatement`. */
  function BuildStatement(date: string, id: nat, row: Row, n: nat): Result<MatrixStatement> {
    var question :- Field(row, QuestionColumn);
    var description :- Field(row, ItemColumn);
    var component :- Field(row, ComponentColumn);
    Ok(MatrixStatement(id, StatementLabel(question, n), date, Strip(description), question, component, false))
  }

  /** `MatrixStatementParser.filter`. */
  predicate StatementExcluded(e: MatrixStatement) {
    e.harmonisedComponent == Parsers.ExcludedComponent
  }

  function StatementId(e: MatrixStatement): nat { e.id }

  /** What the parser holds between rows: its dict, the shared counter and
      the per-question numbers. */
  datatype StatementState = StatementState(table: Table<MatrixStatement>, counter: nat, counters: map<string, nat>)

  /** One row of `MatrixStatementParser.read`. */
  function StatementStep(s: StatementState, row: Row, key: Row -> Result<string>, date: string): Run<StatementState> {
    match key(row)
    case Err(e) => Run(s, Some(e))
    case Ok(k) =>
      if k in s.table.entries then Run(s, None)
      else match Field(row, QuestionColumn)
        case Err(e) => Run(s, Some(e))
        case Ok(question) =>
          var n := NextNumber(s.counters, question);
          var numbered := s.(counters := s.counters[question := n]);
          match BuildStatement(date, s.counter, row, n)
          case Err(e) => Run(numbered, Some(e))
          case Ok(e) =>
            if StatementExcluded(e) then Run(numbered, None)
            else Run(numbered.(table := s.table.Add(k, e), counter := s.counter + 1), None)
  }

  function StatementStepper(key: Row -> Result<string>, date: string): (StatementState, Row) -> Run<StatementState> {
    (s: StatementState, row: Row) => StatementStep(s, row, key, date)
  }

  /** The loop over `rows` from an empty dict, no numbers and counter `start`. */
  function StatementRun(rows: seq<Row>, key: Row -> Result<string>, date: string, start: nat): Run<StatementState> {
    Fold(rows, StatementStepper(key, date), StatementState(EmptyTable(), start, map[]))
  }

  function FinishStatements(run: Run<StatementState>): Result<Table<MatrixStatement>> {
    if run.failure.Some? then Err(run.failure.value) else Ok(run.state.table)
  }

  /** `MatrixStatementParser.read`. */
  method ReadStatements(ontology: Ontology, rows: seq<Row>, columns: seq<string>, date: string)
    returns (r: Result<Table<MatrixStatement>>)
    modifies ontology`counter
    ensures var run := StatementRun(rows, KeyFunction(columns), date, old(ontology.counter));
      ontology.counter == run.state.counter && r == FinishStatements(run)
  {
    ghost var step := StatementStepper(KeyFunction(columns), date);
    ghost var init := StatementState(EmptyTable(), ontology.counter, map[]);
    var keys: seq<string> := [];
    var entries: map<string, MatrixStatement> := map[];
    var counters: map<string, nat> := map[];
    for i := 0 to |rows|
      invariant Fold(rows[..i], step, init) == Run(StatementState(Table(keys, entries), ontology.counter, counters), None)
    {
      FoldStep(rows, i, step, init);
      var id := GetId(rows[i], columns);
      var next := ReadStatementRow(ontology, keys, entries, counters, rows[i], id, date,
                                   Fold(rows[..i], step, init).state, KeyFunction(columns));
      if next.Err? {
        FoldFailureSticks(rows, i + 1, step, init);
        return Err(next.error);
      }
      keys, entries, counters := next.value.table.keys, next.value.table.entries, next.value.counters;
    }
    assert rows[..|rows|] == rows;
    r := Ok(Table(keys, entries));
  }

  /** The body of the loop, for a row whose `get_id` gave `id`. */
  method ReadStatementRow(ontology: Ontology, keys: seq<string>, entries: map<string, MatrixStatement>,
                          counters: map<string, nat>, row: Row, id: Result<string>, date: string,
                          ghost s: StatementState, ghost key: Row -> Result<string>)
    returns (next: Result<StatementState>)
    requires key(row) == id && s == StatementState(Table(keys, entries), ontology.counter, counters)
    modifies ontology`counter
    ensures var step := StatementStep(s, row, key, date);
      ontology.counter == step.state.counter && next == Outcome(step)
  {
    if id.Err? {
      return Err(id.error);
    }
    var k := id.value;
    if k in entries {
      return Ok(StatementState(Table(keys, entries), ontology.counter, counters));
    }
    if !HasCells(row) {
      StepOnMissingCell(s, row, key, date, k);
      return Err(MissingColumn(FirstMissingCell(row)));
    }
    StepOnNewRow(s, row, key, date, k);
    var state := NumberRow(ontology, keys, entries, counters, row, k, date);
    next := Ok(state);
  }

  /** A row with a new key and every cell it needs: number its question,
      build the statement with the current id, and commit it unless the
      filter drops it. */
  method NumberRow(ontology: Ontology, keys: seq<string>, entries: map<string, MatrixStatement>,
                   counters: map<string, nat>, row: Row, k: string, date: string)
    returns (next: StatementState)
    requires HasCells(row) && k !in entries
    modifies ontology`counter
    ensures next == NewRowState(StatementState(Table(keys, entries), old(ontology.counter), counters), row, k, date)
    ensures ontology.counter == next.counter
  {
    var number := ontology.GetCounter();
    var s := StatementState(Table(keys, entries), number, counters);
    var questionName := row[QuestionColumn];
    var counter := NextNumber(counters, questionName);
    var entity := NewStatement(s, row, date, counter);
    if entity.harmonisedComponent == Parsers.ExcludedComponent {
      NewRowExcluded(s, row, k, date, entity);
      return s.(counters := s.counters[questionName := counter]);
    }
    NewRowCommitted(s, row, k, date, entity);
    ontology.UpdateCounter();
    next := StatementState(s.table.Add(k, entity), s.counter + 1, s.counters[questionName := counter]);
  }

  /** What `read` makes of one step: the state, or the error that stops it. */
  function Outcome(run: Run<StatementState>): Result<StatementState> {
    if run.failure.Some? then Err(run.failure.value) else Ok(run.state)
  }

  /** The row has every cell a statement is built from. */
  predicate HasCells(row: Row) {
    QuestionColumn in row && ItemColumn in row && ComponentColumn in row
  }

  /** The first cell the source reads that the row lacks. */
  function FirstMissingCell(row: Row): string {
    if QuestionColumn !in row then QuestionColumn else if ItemColumn !in row then ItemColumn else ComponentColumn
  }

  /** The statement of a new row with every cell, numbered `n`. */
  function NewStatement(s: StatementState, row: Row, date: string, n: nat): MatrixStatement
    requires HasCells(row)
  {
    MatrixStatement(s.counter, StatementLabel(row[QuestionColumn], n), date, Strip(row[ItemColumn]),
                    row[QuestionColumn], row[ComponentColumn], false)
  }

  /** The state after a new row with every cell: the question numbered, the
      statement committed unless its component is the excluded one. */
  function NewRowState(s: StatementState, row: Row, k: string, date: string): StatementState
    requires HasCells(row) && k !in s.table.entries
  {
    var question := row[QuestionColumn];
    var n := NextNumber(s.counters, question);
    var numbered := s.(counters := s.counters[question := n]);
    if row[ComponentColumn] == Parsers.ExcludedComponent then numbered
    else numbered.(table := s.table.Add(k, NewStatement(s, row, date, n)), counter := s.counter + 1)
  }

  /** A filtered new row only numbers its question. */
  lemma NewRowExcluded(s: StatementState, row: Row, k: string, date: string, e: MatrixStatement)
    requires HasCells(row) && k !in s.table.entries
    requires e == NewStatement(s, row, date, NextNumber(s.counters, row[QuestionColumn]))
    requires e.harmonisedComponent == Parsers.ExcludedComponent
    ensures NewRowState(s, row, k, date)
      == s.(counters := s.counters[row[QuestionColumn] := NextNumber(s.counters, row[QuestionColumn])])
  {
  }

  /** A kept new row numbers its question, takes the current id and is
      appended to the dict. */
  lemma NewRowCommitted(s: StatementState, row: Row, k: string, date: string, e: MatrixStatement)
    requires HasCells(row) && k !in s.table.entries
    requires e == NewStatement(s, row, date, NextNumber(s.counters, row[QuestionColumn]))
    requires e.harmonisedComponent != Parsers.ExcludedComponent
    ensures NewRowState(s, row, k, date)
      == StatementState(s.table.Add(k, e), s.counter + 1, s.counters[row[QuestionColumn] := NextNumber(s.counters, row[QuestionColumn])])
  {
  }

  /** A new row with every cell: its question takes the next number whether
      or not the statement is filtered out. */
  lemma StepOnNewRow(s: StatementState, row: Row, key: Row -> Result<string>, date: string, k: string)
    requires key(row) == Ok(k) && k !in s.table.entries && HasCells(row)
    ensures StatementStep(s, row, key, date) == Run(NewRowState(s, row, k, date), None)
  {
    var n := NextNumber(s.counters, row[QuestionColumn]);
    assert BuildStatement(date, s.counter, row, n) == Ok(NewStatement(s, row, date, n));
  }

  /** A new row without a cell stops the read; if it has its question name,
      that question has taken its number already. */
  lemma StepOnMissingCell(s: StatementState, row: Row, key: Row -> Result<string>, date: string, k: string)
    requires key(row) == Ok(k) && k !in s.table.entries && !HasCells(row)
    ensures var step := StatementStep(s, row, key, date);
      && step.failure == Some(MissingColumn(FirstMissingCell(row)))
      && step.state.table == s.table && step.state.counter == s.counter
      && step.state.counters ==
           if QuestionColumn in row then s.counters[row[QuestionColumn] := NextNumber(s.counters, row[QuestionColumn])]
           else s.counters
  {
  }

  // ------------------------------------------------ the deduplicating read

  /** A statement with its label blanked: what the row alone determines. */
  function Blank(e: MatrixStatement): MatrixStatement {
    e.(labelText := "")
  }

  /** The builder of the statement without its number, as the shared loop
      of `Deduplication` takes it. */
  function UnnumberedBuilder(date: string): (nat, Row) -> Result<MatrixStatement> {
    (id: nat, row: Row) =>
      match BuildStatement(date, id, row, 0)
      case Ok(e) => Ok(Blank(e))
      case Err(error) => Err(error)
  }

  /** The dict with every label blanked. */
  function Unnumbered(t: Table<MatrixStatement>): (u: Table<MatrixStatement>)
    ensures u.keys == t.keys && u.entries.Keys == t.entries.Keys
    ensures forall k | k in t.entries :: u.entries[k] == Blank(t.entries[k])
  {
    Table(t.keys, map k | k in t.entries :: Blank(t.entries[k]))
  }

  /** Numbering does not decide whether a row builds or is excluded. */
  lemma StatementBuilt(date: string, id: nat, row: Row, n: nat)
    ensures var b := BuildStatement(date, id, row, n);
      && b.Ok? == UnnumberedBuilder(date)(id, row).Ok?
      && (b.Err? ==> b.error == UnnumberedBuilder(date)(id, row).error)
      && (b.Ok? ==> Blank(b.value) == UnnumberedBuilder(date)(id, row).value
                    && b.value.labelText == StatementLabel(row[QuestionColumn], n))
  {
  }

  lemma UnnumberedBuilderWellFormed(date: string)
    ensures Stamps(UnnumberedBuilder(date), StatementId) && IdBlind(UnnumberedBuilder(date), StatementExcluded)
  {
  }

  /** A row with every cell builds, without its number, the blanked statement. */
  lemma UnnumberedOnCells(date: string, s: StatementState, row: Row)
    requires HasCells(row)
    ensures UnnumberedBuilder(date)(s.counter, row) == Ok(Blank(NewStatement(s, row, date, 0)))
  {
    assert BuildStatement(date, s.counter, row, 0) == Ok(NewStatement(s, row, date, 0));
  }

  /** The shared loop's step on a new row with every cell. */
  lemma DedupOnNewRow(d: DedupState<MatrixStatement>, s: StatementState, row: Row, key: Row -> Result<string>,
                      date: string, k: string)
    requires key(row) == Ok(k) && k !in d.table.entries && HasCells(row) && d.counter == s.counter
    ensures DedupStep(d, row, key, UnnumberedBuilder(date), StatementExcluded) ==
      if row[ComponentColumn] == Parsers.ExcludedComponent then Run(d, None)
      else Run(DedupState(d.table.Add(k, Blank(NewStatement(s, row, date, 0))), d.counter + 1), None)
  {
    var e := Blank(NewStatement(s, row, date, 0));
    UnnumberedOnCells(date, s, row);
    DedupStepOnBuilt(d, row, key, UnnumberedBuilder(date), StatementExcluded, k, e);
    assert StatementExcluded(e) == (row[ComponentColumn] == Parsers.ExcludedComponent);
  }

  /** The shared loop's step on a new row without a cell. */
  lemma DedupOnMissingCell(d: DedupState<MatrixStatement>, row: Row, key: Row -> Result<string>, date: string, k: string)
    requires key(row) == Ok(k) && k !in d.table.entries && !HasCells(row)
    ensures DedupStep(d, row, key, UnnumberedBuilder(date), StatementExcluded) == Run(d, Some(MissingColumn(FirstMissingCell(row))))
  {
  }

  /** One step with numbers is one step of the shared loop, labels aside. */
  lemma StatementStepUnnumbered(s: StatementState, d: DedupState<MatrixStatement>, row: Row,
                                key: Row -> Result<string>, date: string)
    requires Unnumbered(s.table) == d.table && s.counter == d.counter
    ensures var step := StatementStep(s, row, key, date);
      var dstep := DedupStep(d, row, key, UnnumberedBuilder(date), StatementExcluded);
      && step.failure == dstep.failure
      && step.state.counter == dstep.state.counter
      && Unnumbered(step.state.table) == dstep.state.table
  {
    if key(row).Ok? && key(row).value !in s.table.entries {
      var k := key(row).value;
      if HasCells(row) {
        NewRowUnnumbered(s, d, row, key, date, k);
      } else {
        StepOnMissingCell(s, row, key, date, k);
        DedupOnMissingCell(d, row, key, date, k);
      }
    }
  }

  /** `StatementStepUnnumbered` on a new row with every cell. */
  lemma NewRowUnnumbered(s: StatementState, d: DedupState<MatrixStatement>, row: Row,
                         key: Row -> Result<string>, date: string, k: string)
    requires Unnumbered(s.table) == d.table && s.counter == d.counter
    requires key(row) == Ok(k) && k !in s.table.entries && HasCells(row)
    ensures var step := StatementStep(s, row, key, date);
      var dstep := DedupStep(d, row, key, UnnumberedBuilder(date), StatementExcluded);
      && step.failure == dstep.failure
      && step.state.counter == dstep.state.counter
      && Unnumbered(step.state.table) == dstep.state.table
  {
    StepOnNewRow(s, row, key, date, k);
    DedupOnNewRow(d, s, row, key, date, k);
    var n := NextNumber(s.counters, row[QuestionColumn]);
    var e := NewStatement(s, row, date, n);
    assert Blank(e) == Blank(NewStatement(s, row, date, 0));
    if row[ComponentColumn] != Parsers.ExcludedComponent {
      assert Unnumbered(s.table.Add(k, e)) == d.table.Add(k, Blank(e));
    }
  }

  /** The statement read is the shared deduplicating read with labels
      added: it stops at the same row with the same error, reaches the same
      counter, and holds the same statements under the same keys in the same
      order, up to their labels. */
  lemma {:induction false} StatementRunUnnumbered(rows: seq<Row>, key: Row -> Result<string>, date: string, start: nat)
    ensures var run := StatementRun(rows, key, date, start);
      var d := DedupRun(rows, key, UnnumberedBuilder(date), StatementExcluded, start);
      && run.failure == d.failure
      && run.state.counter == d.state.counter
      && Unnumbered(run.state.table) == d.state.table
    decreases |rows|
  {
    if rows == [] {
      assert Unnumbered(EmptyTable()) == EmptyTable();
    } else {
      var prefix := rows[..|rows| - 1];
      StatementRunUnnumbered(prefix, key, date, start);
      var prev := StatementRun(prefix, key, date, start);
      var dprev := DedupRun(prefix, key, UnnumberedBuilder(date), StatementExcluded, start);
      if prev.failure.None? {
        StatementStepUnnumbered(prev.state, dprev.state, rows[|rows| - 1], key, date);
      }
    }
  }

  // ----------------------------------------------------------- numbering

  /** Statement `e` carries its question's number `n` for some `n` between
      1 and `bound`. */
  ghost predicate NumberedUpTo(e: MatrixStatement, bound: nat) {
    exists n: nat | 1 <= n <= bound :: e.labelText == StatementLabel(e.matrixQuestion, n)
  }

  /** Every statement's label is its raw question name, normalised, with a
      number the question has reached, and two statements of the same
      question never share a number. */
  ghost predicate NumberedConsistently(s: StatementState) {
    && (forall k | k in s.table.entries ::
          s.table.entries[k].matrixQuestion in s.counters
          && NumberedUpTo(s.table.entries[k], s.counters[s.table.entries[k].matrixQuestion]))
    && (forall k1, k2 | k1 in s.table.entries && k2 in s.table.entries && k1 != k2
          && s.table.entries[k1].matrixQuestion == s.table.entries[k2].matrixQuestion ::
          s.table.entries[k1].labelText != s.table.entries[k2].labelText)
  }

  /** A label numbered below the question's next number is not the new one. */
  lemma NumberedBelow(e: MatrixStatement, bound: nat, n: nat)
    requires NumberedUpTo(e, bound) && bound < n
    ensures e.labelText != StatementLabel(e.matrixQuestion, n)
  {
    var m: nat :| 1 <= m <= bound && e.labelText == StatementLabel(e.matrixQuestion, m);
    if e.labelText == StatementLabel(e.matrixQuestion, n) {
      StatementLabelInjective(e.matrixQuestion, m, n);
    }
  }

  /** A numbered statement stays numbered when its question's number grows. */
  lemma NumberedGrows(e: MatrixStatement, bound: nat, bound': nat)
    requires NumberedUpTo(e, bound) && bound <= bound'
    ensures NumberedUpTo(e, bound')
  {
    var m: nat :| 1 <= m <= bound && e.labelText == StatementLabel(e.matrixQuestion, m);
    assert 1 <= m <= bound';
  }

  /** Numbering a question keeps `NumberedConsistently`. */
  lemma NumberingKeepsNumbered(s: StatementState, question: string)
    requires NumberedConsistently(s)
    ensures NumberedConsistently(s.(counters := s.counters[question := NextNumber(s.counters, question)]))
  {
    var counters' := s.counters[question := NextNumber(s.counters, question)];
    forall k' | k' in s.table.entries
      ensures s.table.entries[k'].matrixQuestion in counters'
      ensures NumberedUpTo(s.table.entries[k'], counters'[s.table.entries[k'].matrixQuestion])
    {
      var e := s.table.entries[k'];
      NumberedGrows(e, s.counters[e.matrixQuestion], counters'[e.matrixQuestion]);
    }
  }

  /** Committing the statement with the question's new number keeps
      `NumberedConsistently`. */
  lemma CommitKeepsNumbered(s: StatementState, k: string, e: MatrixStatement, n: nat)
    requires NumberedConsistently(s) && k !in s.table.entries
    requires n == NextNumber(s.counters, e.matrixQuestion) && e.labelText == StatementLabel(e.matrixQuestion, n)
    ensures NumberedConsistently(StatementState(s.table.Add(k, e), s.counter + 1, s.counters[e.matrixQuestion := n]))
  {
    var question := e.matrixQuestion;
    var counters' := s.counters[question := n];
    var entries' := s.table.entries[k := e];
    NumberingKeepsNumbered(s, question);
    assert NumberedUpTo(e, n);
    forall k' | k' in s.table.entries && s.table.entries[k'].matrixQuestion == question
      ensures s.table.entries[k'].labelText != e.labelText
    {
      NumberedBelow(s.table.entries[k'], s.counters[question], n);
    }
    assert s.table.Add(k, e).entries == entries';
    forall k' | k' in entries'
      ensures entries'[k'].matrixQuestion in counters' && NumberedUpTo(entries'[k'], counters'[entries'[k'].matrixQuestion])
    {
    }
  }

  /** One step keeps `NumberedConsistently`. */
  lemma StatementStepNumbered(s: StatementState, row: Row, key: Row -> Result<string>, date: string)
    requires NumberedConsistently(s)
    ensures NumberedConsistently(StatementStep(s, row, key, date).state)
  {
    if key(row).Ok? && key(row).value !in s.table.entries {
      var k := key(row).value;
      if HasCells(row) {
        StepOnNewRow(s, row, key, date, k);
        var question := row[QuestionColumn];
        var n := NextNumber(s.counters, question);
        if row[ComponentColumn] == Parsers.ExcludedComponent {
          NumberingKeepsNumbered(s, question);
        } else {
          CommitKeepsNumbered(s, k, NewStatement(s, row, date, n), n);
        }
      } else {
        StepOnMissingCell(s, row, key, date, k);
        if QuestionColumn in row {
          NumberingKeepsNumbered(s, row[QuestionColumn]);
        }
      }
    }
  }

  /** Every state a statement read reaches is consistently numbered. */
  lemma {:induction false} StatementRunNumbered(rows: seq<Row>, key: Row -> Result<string>, date: string, start: nat)
    ensures NumberedConsistently(StatementRun(rows, key, date, start).state)
    decreases |rows|
  {
    if rows != [] {
      var prefix := rows[..|rows| - 1];
      StatementRunNumbered(prefix, key, date, start);
      var prev := StatementRun(prefix, key, date, start);
      if prev.failure.None? {
        StatementStepNumbered(prev.state, rows[|rows| - 1], key, date);
      }
    }
  }

  // ------------------------------------------------ numbers tied to the rows

  /** A row whose key is not committed yet and which has a question name:
      the rows that bump their question's number. */
  predicate NewKeyRow(s: StatementState, row: Row, key: Row -> Result<string>) {
    key(row).Ok? && key(row).value !in s.table.entries && QuestionColumn in row
  }

  /** Row `row`, reached by a read whose state before it is `before`,
      takes a number for question `q`: the read has not stopped, the row's
      key is not committed yet and its question name is `q`. */
  predicate TakesNumber(before: Run<StatementState>, row: Row, key: Row -> Result<string>, q: string) {
    before.failure.None? && NewKeyRow(before.state, row, key) && row[QuestionColumn] == q
  }

  /** How many of `rows` take a number for question `q`. */
  function NumbersTaken(rows: seq<Row>, key: Row -> Result<string>, date: string, start: nat, q: string): nat
    decreases |rows|
  {
    if rows == [] then 0
    else
      var prefix := rows[..|rows| - 1];
      NumbersTaken(prefix, key, date, start, q)
      + if TakesNumber(StatementRun(prefix, key, date, start), rows[|rows| - 1], key, q) then 1 else 0
  }

  /** One step bumps the number of the row's question exactly when the row
      has a new key and a question name. */
  lemma StepCounters(s: StatementState, row: Row, key: Row -> Result<string>, date: string)
    ensures StatementStep(s, row, key, date).state.counters ==
      if NewKeyRow(s, row, key) then s.counters[row[QuestionColumn] := NextNumber(s.counters, row[QuestionColumn])]
      else s.counters
  {
    if NewKeyRow(s, row, key) {
      var k := key(row).value;
      if HasCells(row) {
        StepOnNewRow(s, row, key, date, k);
      } else {
        StepOnMissingCell(s, row, key, date, k);
      }
    }
  }

  /** The number a question has reached is the count of rows that took a
      number for it; a question no row numbered has none. */
  lemma {:induction false} CountersCount(rows: seq<Row>, key: Row -> Result<string>, date: string, start: nat, q: string)
    ensures var counters := StatementRun(rows, key, date, start).state.counters;
      && (q in counters <==> NumbersTaken(rows, key, date, start, q) > 0)
      && (q in counters ==> counters[q] == NumbersTaken(rows, key, date, start, q))
    decreases |rows|
  {
    if rows != [] {
      var prefix := rows[..|rows| - 1];
      CountersCount(prefix, key, date, start, q);
      var prev := StatementRun(prefix, key, date, start);
      if prev.failure.None? {
        StepCounters(prev.state, rows[|rows| - 1], key, date);
      }
    }
  }

  /** Statement `e`, under key `k`, was committed by row `i` with the number
      that row took: the row has key `k`, takes a number for `e`'s question,
      and `e`'s label carries the count of rows up to and including row `i`
      that took a number for that question. */
  predicate NumberedByRow(rows: seq<Row>, key: Row -> Result<string>, date: string, start: nat,
                          k: string, e: MatrixStatement, i: nat)
  {
    && i < |rows|
    && key(rows[i]) == Ok(k)
    && TakesNumber(StatementRun(rows[..i], key, date, start), rows[i], key, e.matrixQuestion)
    && e.labelText == StatementLabel(e.matrixQuestion, NumbersTaken(rows[..i + 1], key, date, start, e.matrixQuestion))
  }

  /** What row `i` of a prefix says, it says of the whole input. */
  lemma NumberedByRowExtends(rows: seq<Row>, key: Row -> Result<string>, date: string, start: nat,
                             k: string, e: MatrixStatement, i: nat)
    requires rows != [] && NumberedByRow(rows[..|rows| - 1], key, date, start, k, e, i)
    ensures NumberedByRow(rows, key, date, start, k, e, i)
  {
    var prefix := rows[..|rows| - 1];
    assert rows[..i] == prefix[..i];
    assert rows[..i + 1] == prefix[..i + 1];
  }

  /** A step either leaves the dict alone or commits, under the row's new
      key, the statement numbered with its question's next number. */
  lemma StatementStepShape(s: StatementState, row: Row, key: Row -> Result<string>, date: string)
    ensures var t := StatementStep(s, row, key, date).state.table;
      || t == s.table
      || (&& NewKeyRow(s, row, key) && HasCells(row)
          && t == s.table.Add(key(row).value, NewStatement(s, row, date, NextNumber(s.counters, row[QuestionColumn]))))
  {
    if key(row).Ok? && key(row).value !in s.table.entries {
      var k := key(row).value;
      if HasCells(row) {
        StepOnNewRow(s, row, key, date, k);
      } else {
        StepOnMissingCell(s, row, key, date, k);
      }
    }
  }

  /** The statement the last row commits is numbered by that row. */
  lemma LastRowNumbers(rows: seq<Row>, key: Row -> Result<string>, date: string, start: nat)
    requires rows != []
    requires var prev := StatementRun(rows[..|rows| - 1], key, date, start);
      prev.failure.None? && NewKeyRow(prev.state, rows[|rows| - 1], key) && HasCells(rows[|rows| - 1])
    ensures var prev := StatementRun(rows[..|rows| - 1], key, date, start);
      var row := rows[|rows| - 1];
      NumberedByRow(rows, key, date, start, key(row).value,
                    NewStatement(prev.state, row, date, NextNumber(prev.state.counters, row[QuestionColumn])), |rows| - 1)
  {
    var prefix := rows[..|rows| - 1];
    var row := rows[|rows| - 1];
    var q := row[QuestionColumn];
    CountersCount(prefix, key, date, start, q);
    assert rows[..|rows|] == rows;
  }

  /** Every statement of a read was committed by a row, with the number that
      row took for its question: the first row of a question that takes a
      number gets 1, the next 2, and so on, filtered rows included. */
  lemma {:induction false} StatementNumbersFromRows(rows: seq<Row>, key: Row -> Result<string>, date: string, start: nat)
    ensures var t := StatementRun(rows, key, date, start).state.table;
      forall k | k in t.entries :: exists i: nat :: NumberedByRow(rows, key, date, start, k, t.entries[k], i)
    decreases |rows|
  {
    if rows != [] {
      var prefix := rows[..|rows| - 1];
      var row := rows[|rows| - 1];
      StatementNumbersFromRows(prefix, key, date, start);
      var prev := StatementRun(prefix, key, date, start);
      var t := StatementRun(rows, key, date, start).state.table;
      if prev.failure.None? {
        StatementStepShape(prev.state, row, key, date);
      }
      forall k | k in t.entries
        ensures exists i: nat :: NumberedByRow(rows, key, date, start, k, t.entries[k], i)
      {
        if k in prev.state.table.entries && t.entries[k] == prev.state.table.entries[k] {
          var i: nat :| NumberedByRow(prefix, key, date, start, k, t.entries[k], i);
          NumberedByRowExtends(rows, key, date, start, k, t.entries[k], i);
        } else {
          LastRowNumbers(rows, key, date, start);
        }
      }
    }
  }

  /** A later row that takes a number for a question takes a larger one. */
  lemma NumbersTakenGrow(rows: seq<Row>, key: Row -> Result<string>, date: string, start: nat,
                         q: string, i: nat, j: nat)
    requires i < j < |rows| && TakesNumber(StatementRun(rows[..j], key, date, start), rows[j], key, q)
    ensures NumbersTaken(rows[..i + 1], key, date, start, q) < NumbersTaken(rows[..j + 1], key, date, start, q)
  {
    assert rows[..j + 1][..j] == rows[..j];
    if i + 1 < j {
      NumbersTakenMonotone(rows, key, date, start, q, i + 1, j);
    }
  }

  /** Counting over a longer prefix never counts fewer rows. */
  lemma {:induction false} NumbersTakenMonotone(rows: seq<Row>, key: Row -> Result<string>, date: string, start: nat,
                                                q: string, i: nat, j: nat)
    requires i <= j <= |rows|
    ensures NumbersTaken(rows[..i], key, date, start, q) <= NumbersTaken(rows[..j], key, date, start, q)
    decreases j - i
  {
    if i < j {
      NumbersTakenMonotone(rows, key, date, start, q, i, j - 1);
      assert rows[..j][..j - 1] == rows[..j - 1];
      NumbersTakenLast(rows[..j], key, date, start, q);
    }
  }

  /** One more row counts at least as many. */
  lemma NumbersTakenLast(rows: seq<Row>, key: Row -> Result<string>, date: string, start: nat, q: string)
    requires rows != []
    ensures NumbersTaken(rows[..|rows| - 1], key, date, start, q) <= NumbersTaken(rows, key, date, start, q)
  {
  }

  // --------------------------------------------------------- the read as a whole

  /** The statement's cells: its question is the row's raw question name,
      its description the stripped item name, its component the row's
      component, which is not the excluded one. */
  predicate StatementFields(e: MatrixStatement, row: Row, date: string) {
    && HasCells(row)
    && e.matrixQuestion == row[QuestionColumn]
    && e.description == Strip(row[ItemColumn])
    && e.harmonisedComponent == row[ComponentColumn] != Parsers.ExcludedComponent
    && e.date == date && !e.added
  }

  lemma StatementBuiltFields(date: string, id: nat, row: Row, e: MatrixStatement)
    requires UnnumberedBuilder(date)(id, row) == Ok(e) && !StatementExcluded(e)
    ensures StatementFields(e, row, date)
  {
  }

  /** Blanking labels changes neither ids, keys nor what the filter says. */
  lemma ConsistentUnnumbered(t: Table<MatrixStatement>, counter: nat, start: nat)
    requires Consistent(DedupState(Unnumbered(t), counter), start, StatementExcluded, StatementId)
    ensures Consistent(DedupState(t, counter), start, StatementExcluded, StatementId)
  {
    var u := Unnumbered(t);
    assert forall j | 0 <= j < |t.keys| :: u.entries[u.keys[j]] == Blank(t.entries[t.keys[j]]);
  }

  /** What a statement read yields: one statement per key, numbered from the
      start value in insertion order, none of component `209`; the counter
      one past the last id; each statement built from the first row with its
      key whose component is not `209`, carrying that row's cells; and every
      label its question name, normalised, with the number the committing
      row took: the count of rows so far that took a number for that
      question. */
  lemma StatementsRead(rows: seq<Row>, columns: seq<string>, date: string, start: nat)
    ensures var run := StatementRun(rows, KeyFunction(columns), date, start);
      Consistent(DedupState(run.state.table, run.state.counter), start, StatementExcluded, StatementId)
    ensures NumberedConsistently(StatementRun(rows, KeyFunction(columns), date, start).state)
    ensures var run := StatementRun(rows, KeyFunction(columns), date, start);
      run.failure.None? ==> forall k | k in run.state.table.entries ::
        exists i: nat | FirstAdmittedAt(rows, KeyFunction(columns), UnnumberedBuilder(date), StatementExcluded, k, i) ::
          StatementFields(run.state.table.entries[k], rows[i], date)
    ensures var t := StatementRun(rows, KeyFunction(columns), date, start).state.table;
      forall k | k in t.entries :: exists i: nat :: NumberedByRow(rows, KeyFunction(columns), date, start, k, t.entries[k], i)
  {
    var key, build := KeyFunction(columns), UnnumberedBuilder(date);
    StatementNumbersFromRows(rows, key, date, start);
    var run := StatementRun(rows, key, date, start);
    var d := DedupRun(rows, key, build, StatementExcluded, start);
    StatementRunUnnumbered(rows, key, date, start);
    StatementRunNumbered(rows, key, date, start);
    UnnumberedBuilderWellFormed(date);
    DedupConsistent(rows, key, build, StatementExcluded, StatementId, start);
    ConsistentUnnumbered(run.state.table, run.state.counter, start);
    if run.failure.None? {
      StatementsFirstWin(rows, key, date, start);
    }
  }

  /** The first-row half of `StatementsRead`. */
  lemma StatementsFirstWin(rows: seq<Row>, key: Row -> Result<string>, date: string, start: nat)
    requires StatementRun(rows, key, date, start).failure.None?
    ensures var run := StatementRun(rows, key, date, start);
      forall k | k in run.state.table.entries ::
        exists i: nat | FirstAdmittedAt(rows, key, UnnumberedBuilder(date), StatementExcluded, k, i) ::
          StatementFields(run.state.table.entries[k], rows[i], date)
  {
    var build := UnnumberedBuilder(date);
    var t := StatementRun(rows, key, date, start).state.table;
    var d := DedupRun(rows, key, build, StatementExcluded, start);
    StatementRunUnnumbered(rows, key, date, start);
    UnnumberedBuilderWellFormed(date);
    DedupFirstWins(rows, key, build, StatementExcluded, start);
    forall k | k in t.entries
      ensures exists i: nat | FirstAdmittedAt(rows, key, build, StatementExcluded, k, i) ::
        StatementFields(t.entries[k], rows[i], date)
    {
      var i: nat, n: nat :| FirstAdmittedAt(rows, key, build, StatementExcluded, k, i)
        && build(n, rows[i]) == Ok(d.state.table.entries[k]);
      var e := d.state.table.entries[k];
      assert e == Blank(t.entries[k]);
      StatementBuiltFields(date, n, rows[i], e);
    }
  }

  /** Three new rows of one question whose middle row is filtered out: the
      kept rows are labelled with numbers 1 and 3, since the filtered row
      took number 2, and the second kept row has the id right after the
      first. */
  lemma FilteredRowTakesNumber(rows: seq<Row>, key: Row -> Result<string>, date: string, start: nat, question: string)
    requires |rows| == 3 && HasCells(rows[0]) && HasCells(rows[1]) && HasCells(rows[2])
    requires rows[0][QuestionColumn] == rows[1][QuestionColumn] == rows[2][QuestionColumn] == question
    requires key(rows[0]) == Ok("a") && key(rows[1]) == Ok("b") && key(rows[2]) == Ok("c")
    requires rows[1][ComponentColumn] == Parsers.ExcludedComponent
    requires rows[0][ComponentColumn] != Parsers.ExcludedComponent && rows[2][ComponentColumn] != Parsers.ExcludedComponent
    ensures var run := StatementRun(rows, key, date, start);
      && run.failure.None?
      && run.state.table.keys == ["a", "c"]
      && "a" in run.state.table.entries && "c" in run.state.table.entries
      && run.state.table.entries["a"].labelText == StatementLabel(question, 1)
      && run.state.table.entries["c"].labelText == StatementLabel(question, 3)
      && run.state.table.entries["c"].id == start + 1
  {
    var step := StatementStepper(key, date);
    var s0 := StatementState(EmptyTable(), start, map[]);
    assert rows[..0] == [];
    FoldStep(rows, 0, step, s0);
    var e1 := NewStatement(s0, rows[0], date, 1);
    KeptRowStep(s0, rows[0], key, date, "a", e1);
    var s1 := StatementState(s0.table.Add("a", e1), start + 1, map[question := 1]);
    FoldStep(rows, 1, step, s0);
    FilteredRowStep(s1, rows[1], key, date, "b");
    var s2 := s1.(counters := map[question := 2]);
    FoldStep(rows, 2, step, s0);
    var e3 := NewStatement(s2, rows[2], date, 3);
    KeptRowStep(s2, rows[2], key, date, "c", e3);
    assert rows[..3] == rows;
  }

  /** A new row the filter keeps: its statement, with the next number of
      its question and the current id, is appended. */
  lemma KeptRowStep(s: StatementState, row: Row, key: Row -> Result<string>, date: string, k: string, e: MatrixStatement)
    requires key(row) == Ok(k) && k !in s.table.entries && HasCells(row)
    requires row[ComponentColumn] != Parsers.ExcludedComponent
    requires e == NewStatement(s, row, date, NextNumber(s.counters, row[QuestionColumn]))
    ensures StatementStep(s, row, key, date)
      == Run(StatementState(s.table.Add(k, e), s.counter + 1, s.counters[row[QuestionColumn] := NextNumber(s.counters, row[QuestionColumn])]), None)
  {
    StepOnNewRow(s, row, key, date, k);
    NewRowCommitted(s, row, k, date, e);
  }

  /** A new row the filter drops: only its question's number moves. */
  lemma FilteredRowStep(s: StatementState, row: Row, key: Row -> Result<string>, date: string, k: string)
    requires key(row) == Ok(k) && k !in s.table.entries && HasCells(row)
    requires row[ComponentColumn] == Parsers.ExcludedComponent
    ensures StatementStep(s, row, key, date)
      == Run(s.(counters := s.counters[row[QuestionColumn] := NextNumber(s.counters, row[QuestionColumn])]), None)
  {
    StepOnNewRow(s, row, key, date, k);
    NewRowExcluded(s, row, k, date, NewStatement(s, row, date, NextNumber(s.counters, row[QuestionColumn])));
  }
}
