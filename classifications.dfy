/** `ClassificationParser` (Import/parser/CsvParser.py:111-149): the one
    parser that keeps mutating what it committed. The first row of a key
    commits a classification and advances the counter, then gives it its
    first instance with the next id; every later row of the key appends one
    more instance with the next id. `ClassificationRun` says this on values;
    `ReadClassifications` does it on `Classification` objects. */
module ClassificationParser {
  import opened Errors
  import opened Text
  import opened CsvParser
  import opened Entities
  import opened Deduplication

  const ClassificationColumn := "Classification"
  const DefinitionColumn := "Definiton within a specific classification"
  const InstancesColumn := "Instances: "

  /** The classification a new key's row describes, before any instance. */
  function NewClassification(date: string, id: nat, row: Row): Result<ClassificationValue> {
    var labelCell :- Field(row, ClassificationColumn);
    var definition :- Field(row, DefinitionColumn);
    Ok(ClassificationValue(id, Lower(Strip(labelCell)), date, Strip(definition), false, []))
  }

  /** `ClassificationParser.filter`: membership in an empty list. */
  predicate ClassificationExcluded(c: ClassificationValue) {
    c.labelText in []
  }

  lemma ClassificationNeverExcluded(c: ClassificationValue)
    ensures !ClassificationExcluded(c)
  {
  }

  /** The instance a row adds to classification `c`: numbered with the
      counter, labelled with the row's instance cell, its parent `c`'s IRI. */
  function NewInstance(id: nat, cell: string, c: ClassificationValue, date: string): ClassificationInstance {
    ClassificationInstance(id, Lower(Strip(cell)), c.Iri(), date)
  }

  /** The dict with `instance` appended to the classification under `k`. */
  function WithInstance(t: Table<ClassificationValue>, k: string, instance: ClassificationInstance): Table<ClassificationValue>
    requires k in t.entries
  {
    Table(t.keys, t.entries[k := t.entries[k].(individuals := t.entries[k].individuals + [instance])])
  }

  /** `add_individual` on the classification under `k`, then `update_counter`. */
  function AddInstance(s: DedupState<ClassificationValue>, k: string, row: Row, date: string): Run<DedupState<ClassificationValue>>
    requires k in s.table.entries
  {
    match Field(row, InstancesColumn)
    case Err(e) => Run(s, Some(e))
    case Ok(cell) =>
      Run(DedupState(WithInstance(s.table, k, NewInstance(s.counter, cell, s.table.entries[k], date)), s.counter + 1), None)
  }

  /** One row of `ClassificationParser.read`. A missing `Instances: ` cell
      on a new key raises after the classification was committed and the
      counter advanced. */
  function ClassificationStep(s: DedupState<ClassificationValue>, row: Row, key: Row -> Result<string>, date: string)
    : Run<DedupState<ClassificationValue>>
  {
    match key(row)
    case Err(e) => Run(s, Some(e))
    case Ok(k) =>
      if k in s.table.entries then AddInstance(s, k, row, date)
      else match NewClassification(date, s.counter, row)
        case Err(e) => Run(s, Some(e))
        case Ok(c) =>
          if ClassificationExcluded(c) then Run(s, None)
          else AddInstance(DedupState(s.table.Add(k, c), s.counter + 1), k, row, date)
  }

  function ClassificationStepper(key: Row -> Result<string>, date: string)
    : (DedupState<ClassificationValue>, Row) -> Run<DedupState<ClassificationValue>>
  {
    (s: DedupState<ClassificationValue>, row: Row) => ClassificationStep(s, row, key, date)
  }

  /** The loop over `rows` from an empty dict and counter `start`. */
  function ClassificationRun(rows: seq<Row>, key: Row -> Result<string>, date: string, start: nat)
    : Run<DedupState<ClassificationValue>>
  {
    Fold(rows, ClassificationStepper(key, date), DedupState(EmptyTable(), start))
  }

  /** `ClassificationParser.read`: the dict holds one `Classification` object
      per key, distinct and new, each holding what the run says it holds. */
  method ReadClassifications(ontology: Ontology, rows: seq<Row>, columns: seq<string>, date: string)
    returns (r: Result<Table<Classification>>)
    modifies ontology`counter
    ensures var run := ClassificationRun(rows, KeyFunction(columns), date, old(ontology.counter));
      && ontology.counter == run.state.counter
      && (run.failure.Some? <==> r.Err?)
      && (r.Err? ==> r.error == run.failure.value)
      && (r.Ok? ==> Holds(r.value, run.state.table))
    ensures r.Ok? ==> forall k | k in r.value.entries :: fresh(r.value.entries[k])
  {
    ghost var start := ontology.counter;
    ghost var step := ClassificationStepper(KeyFunction(columns), date);
    ghost var init := DedupState(EmptyTable(), start);
    var keys: seq<string> := [];
    var entries: map<string, Classification> := map[];
    for i := 0 to |rows|
      invariant Fold(rows[..i], step, init).failure.None?
      invariant ontology.counter == Fold(rows[..i], step, init).state.counter
      invariant Holds(Table(keys, entries), Fold(rows[..i], step, init).state.table)
      invariant forall k | k in entries :: fresh(entries[k])
    {
      FoldStep(rows, i, step, init);
      var id := GetId(rows[i], columns);
      if id.Err? {
        FoldFailureSticks(rows, i + 1, step, init);
        return Err(id.error);
      }
      var failure;
      keys, entries, failure := ReadClassificationRow(ontology, keys, entries, rows[i], id.value, date,
                                                      Fold(rows[..i], step, init).state, KeyFunction(columns));
      if failure.Some? {
        FoldFailureSticks(rows, i + 1, step, init);
        return Err(failure.value);
      }
    }
    assert rows[..|rows|] == rows;
    r := Ok(Table(keys, entries));
  }

  /** The body of the loop of `ClassificationParser.read`, for a row whose
      key `k` has been computed. */
  method ReadClassificationRow(ontology: Ontology, keys: seq<string>, entries: map<string, Classification>,
                               row: Row, k: string, date: string,
                               ghost s: DedupState<ClassificationValue>, ghost key: Row -> Result<string>)
    returns (keys': seq<string>, entries': map<string, Classification>, failure: Option<Error>)
    requires key(row) == Ok(k)
    requires ontology.counter == s.counter && Holds(Table(keys, entries), s.table)
    modifies ontology`counter, set k | k in entries :: entries[k]
    ensures var next := ClassificationStep(s, row, key, date);
      && ontology.counter == next.state.counter
      && failure == next.failure
      && (failure.None? ==> Holds(Table(keys', entries'), next.state.table))
    ensures forall k | k in entries' :: (k in entries && entries'[k] == entries[k]) || fresh(entries'[k])
  {
    if k !in entries {
      keys', entries', failure := StartClassification(ontology, keys, entries, row, k, date, s, key);
    } else {
      StepOnKnownKey(s, row, key, date, k);
      keys', entries' := keys, entries;
      failure := AddInstanceTo(ontology, keys, entries, k, row, date, s);
    }
  }

  /** A row with a new key: create the classification with the current id,
      commit it and advance the counter, then give it its first instance.
      The filter `label in []` never holds, so the commit is unconditional. */
  method StartClassification(ontology: Ontology, keys: seq<string>, entries: map<string, Classification>,
                             row: Row, k: string, date: string,
                             ghost s: DedupState<ClassificationValue>, ghost key: Row -> Result<string>)
    returns (keys': seq<string>, entries': map<string, Classification>, failure: Option<Error>)
    requires key(row) == Ok(k) && k !in entries
    requires ontology.counter == s.counter && Holds(Table(keys, entries), s.table)
    modifies ontology`counter
    ensures var next := ClassificationStep(s, row, key, date);
      && ontology.counter == next.state.counter
      && failure == next.failure
      && (failure.None? ==> Holds(Table(keys', entries'), next.state.table))
    ensures forall k | k in entries' :: (k in entries && entries'[k] == entries[k]) || fresh(entries'[k])
  {
    keys', entries' := keys, entries;
    if ClassificationColumn !in row || DefinitionColumn !in row {
      StepOnMissingColumn(s, row, key, date, k);
      return keys', entries', Some(MissingColumn(if ClassificationColumn !in row then ClassificationColumn else DefinitionColumn));
    }
    var entity;
    keys', entries', entity := CommitClassification(ontology, keys, entries, row, k, date, s.table);
    ghost var c := entity.Value();
    failure := AddInstanceTo(ontology, keys', entries', k, row, date, DedupState(s.table.Add(k, c), s.counter + 1));
    StepOnNewKey(s, row, key, date, k, c);
  }

  /** Create the classification with the current id, store it under the
      new key `k` and advance the counter. */
  method CommitClassification(ontology: Ontology, keys: seq<string>, entries: map<string, Classification>,
                              row: Row, k: string, date: string, ghost values: Table<ClassificationValue>)
    returns (keys': seq<string>, entries': map<string, Classification>, entity: Classification)
    requires ClassificationColumn in row && DefinitionColumn in row
    requires k !in entries && Holds(Table(keys, entries), values)
    modifies ontology`counter
    ensures fresh(entity) && ontology.counter == old(ontology.counter) + 1
    ensures NewClassification(date, old(ontology.counter), row) == Ok(entity.Value())
    ensures k !in values.entries && keys' == keys + [k] && entries' == entries[k := entity]
    ensures Holds(Table(keys', entries'), values.Add(k, entity.Value()))
  {
    var counter := ontology.GetCounter();
    entity := CreateClassification(counter, row, date);
    HoldsAdd(keys, entries, values, k, entity);
    keys' := keys + [k];
    entries' := entries[k := entity];
    ontology.UpdateCounter();
  }

  /** `add_individual(ClassificationInstance(get_counter(), …))` on the
      object under `k`, then `update_counter`. */
  method AddInstanceTo(ontology: Ontology, keys: seq<string>, entries: map<string, Classification>,
                       k: string, row: Row, date: string, ghost t: DedupState<ClassificationValue>)
    returns (failure: Option<Error>)
    requires k in entries && ontology.counter == t.counter && Holds(Table(keys, entries), t.table)
    modifies ontology`counter, entries[k]
    ensures k in t.table.entries
    ensures var next := AddInstance(t, k, row, date);
      && ontology.counter == next.state.counter
      && failure == next.failure
      && (failure.None? ==> Holds(Table(keys, entries), next.state.table))
  {
    if InstancesColumn !in row {
      return Some(MissingColumn(InstancesColumn));
    }
    var entity := entries[k];
    var counter := ontology.GetCounter();
    var instance := NewInstance(counter, row[InstancesColumn], entity.Value(), date);
    AppendInstance(keys, entries, k, instance, t.table);
    ontology.UpdateCounter();
    failure := None;
  }

  /** `Classification(id_=…, label=…, definition=…)` from the row's cells. */
  method CreateClassification(id: nat, row: Row, date: string) returns (entity: Classification)
    requires ClassificationColumn in row && DefinitionColumn in row
    ensures fresh(entity) && NewClassification(date, id, row) == Ok(entity.Value())
  {
    entity := new Classification(id, Lower(Strip(row[ClassificationColumn])), Strip(row[DefinitionColumn]), date);
  }

  /** A new key's row whose classification cells are there commits `c`
      under `k` and advances the counter, then adds its first instance. */
  lemma StepOnNewKey(s: DedupState<ClassificationValue>, row: Row, key: Row -> Result<string>, date: string,
                     k: string, c: ClassificationValue)
    requires key(row) == Ok(k) && k !in s.table.entries && NewClassification(date, s.counter, row) == Ok(c)
    ensures k in s.table.Add(k, c).entries
    ensures ClassificationStep(s, row, key, date) == AddInstance(DedupState(s.table.Add(k, c), s.counter + 1), k, row, date)
  {
    ClassificationNeverExcluded(c);
  }

  /** A new key's row without a classification cell stops the run there. */
  lemma StepOnMissingColumn(s: DedupState<ClassificationValue>, row: Row, key: Row -> Result<string>, date: string, k: string)
    requires key(row) == Ok(k) && k !in s.table.entries
    requires ClassificationColumn !in row || DefinitionColumn !in row
    ensures ClassificationStep(s, row, key, date) ==
      Run(s, Some(MissingColumn(if ClassificationColumn !in row then ClassificationColumn else DefinitionColumn)))
  {
  }

  /** A known key's row adds one instance with the current id. */
  lemma StepOnKnownKey(s: DedupState<ClassificationValue>, row: Row, key: Row -> Result<string>, date: string, k: string)
    requires key(row) == Ok(k) && k in s.table.entries
    ensures ClassificationStep(s, row, key, date) ==
      if InstancesColumn in row then
        Run(DedupState(WithInstance(s.table, k, NewInstance(s.counter, row[InstancesColumn], s.table.entries[k], date)), s.counter + 1), None)
      else Run(s, Some(MissingColumn(InstancesColumn)))
  {
  }

  /** What the objects hold survives a step that changes none of them. */
  twostate lemma HoldsFramed(objects: Table<Classification>, values: Table<ClassificationValue>)
    requires old(Holds(objects, values))
    requires unchanged(objects.entries.Values)
    ensures Holds(objects, values)
  {
  }

  /** A new, distinct object under a new key holds the new value. */
  lemma HoldsAdd(keys: seq<string>, entries: map<string, Classification>, values: Table<ClassificationValue>,
                 k: string, entity: Classification)
    requires Holds(Table(keys, entries), values) && k !in entries
    requires forall k' | k' in entries :: entries[k'] != entity
    ensures k !in values.entries
    ensures Holds(Table(keys + [k], entries[k := entity]), values.Add(k, entity.Value()))
  {
  }

  /** `entity.add_individual(instance)` on the object under `k`: the objects
      then hold the values with `instance` appended under `k`. */
  method AppendInstance(keys: seq<string>, entries: map<string, Classification>, k: string,
                        instance: ClassificationInstance, ghost values: Table<ClassificationValue>)
    requires k in entries && Holds(Table(keys, entries), values)
    modifies entries[k]
    ensures k in values.entries && Holds(Table(keys, entries), WithInstance(values, k, instance))
  {
    entries[k].AddIndividual(instance);
  }

  /** The objects of `objects` hold the values of `values`: the same keys in
      the same order, one distinct object per key. */
  ghost predicate Holds(objects: Table<Classification>, values: Table<ClassificationValue>)
    reads objects.entries.Values
  {
    && objects.keys == values.keys
    && (forall k | k in objects.entries :: k in values.entries && objects.entries[k].Value() == values.entries[k])
    && (forall k | k in values.entries :: k in objects.entries)
    && (forall k1, k2 | k1 in objects.entries && k2 in objects.entries && k1 != k2 :: objects.entries[k1] != objects.entries[k2])
  }

  // ---------------------------------------------------------------------
  // What a run of `ClassificationParser.read` produces.

  /** The rows of `rows` whose key is `k`, in row order. */
  function RowsOf(rows: seq<Row>, key: Row -> Result<string>, k: string): (rs: seq<Row>)
    ensures |rs| <= |rows|
    ensures forall i | 0 <= i < |rs| :: key(rs[i]) == Ok(k)
    decreases |rows|
  {
    if rows == [] then []
    else
      var last := rows[|rows| - 1];
      RowsOf(rows[..|rows| - 1], key, k) + (if key(last) == Ok(k) then [last] else [])
  }

  /** The keys of the rows that have one. */
  function KeysOf(rows: seq<Row>, key: Row -> Result<string>): set<string>
    decreases |rows|
  {
    if rows == [] then {}
    else
      var last := rows[|rows| - 1];
      KeysOf(rows[..|rows| - 1], key) + (if key(last).Ok? then {key(last).value} else {})
  }

  /** A key has rows exactly when it is the key of some row. */
  lemma {:induction false} RowsOfEmpty(rows: seq<Row>, key: Row -> Result<string>, k: string)
    ensures RowsOf(rows, key, k) == [] <==> k !in KeysOf(rows, key)
    decreases |rows|
  {
    if rows != [] {
      RowsOfEmpty(rows[..|rows| - 1], key, k);
    }
  }

  /** The label an instance row gives its instance. */
  function InstanceLabel(row: Row): string {
    if InstancesColumn in row then Lower(Strip(row[InstancesColumn])) else ""
  }

  function InstanceLabels(rows: seq<Row>): (labels: seq<string>)
    ensures |labels| == |rows|
  {
    seq(|rows|, i requires 0 <= i < |rows| => InstanceLabel(rows[i]))
  }

  function Labels(individuals: seq<ClassificationInstance>): (labels: seq<string>)
    ensures |labels| == |individuals|
  {
    seq(|individuals|, i requires 0 <= i < |individuals| => individuals[i].labelText)
  }

  /** What classification `c` under key `k` holds after `rows`: it was
      built from the key's first row, and its instances are the key's rows,
      in row order, each with `c`'s IRI as its parent. */
  ghost predicate KeyContents(rows: seq<Row>, key: Row -> Result<string>, date: string, k: string,
                              c: ClassificationValue)
  {
    var rs := RowsOf(rows, key, k);
    && Labels(c.individuals) == InstanceLabels(rs)
    && (forall j | 0 <= j < |c.individuals| :: c.individuals[j].parentIri == c.Iri())
    && |rs| > 0
    && NewClassification(date, c.id, rs[0]) == Ok(c.(individuals := []))
  }

  /** What a successful run over `rows` holds in `s`: one classification per
      key that has rows, as `KeyContents` says; the counter has advanced
      once per key and once per row. */
  ghost predicate RunContents(rows: seq<Row>, key: Row -> Result<string>, date: string, start: nat,
                              s: DedupState<ClassificationValue>)
  {
    && s.counter == start + |s.table.keys| + |rows|
    && s.table.entries.Keys == KeysOf(rows, key)
    && AllKeyContents(rows, key, date, s.table)
  }

  /** One more successful row keeps `RunContents`. */
  lemma ContentsStep(rows: seq<Row>, row: Row, key: Row -> Result<string>, date: string, start: nat,
                     s: DedupState<ClassificationValue>)
    requires RunContents(rows, key, date, start, s)
    requires ClassificationStep(s, row, key, date).failure.None?
    ensures RunContents(rows + [row], key, date, start, ClassificationStep(s, row, key, date).state)
  {
    var k0 := key(row).value;
    if k0 in s.table.entries {
      StepOnKnownKey(s, row, key, date, k0);
      var instance := NewInstance(s.counter, row[InstancesColumn], s.table.entries[k0], date);
      ContentsKnown(rows, row, key, date, start, s, k0, instance);
    } else {
      var c := NewClassification(date, s.counter, row).value;
      StepOnNewKey(s, row, key, date, k0, c);
      RowsOfEmpty(rows, key, k0);
      var instance := NewInstance(s.counter + 1, row[InstancesColumn], c, date);
      ContentsNew(rows, row, key, date, start, s, k0, c, instance);
    }
  }

  /** The labels after one more instance. */
  lemma LabelsAppend(individuals: seq<ClassificationInstance>, instance: ClassificationInstance)
    ensures Labels(individuals + [instance]) == Labels(individuals) + [instance.labelText]
  {
  }

  /** The rows of a key after one more row. */
  lemma RowsOfAppend(rows: seq<Row>, row: Row, key: Row -> Result<string>, k: string)
    ensures RowsOf(rows + [row], key, k) == RowsOf(rows, key, k) + (if key(row) == Ok(k) then [row] else [])
    ensures KeysOf(rows + [row], key) == KeysOf(rows, key) + (if key(row).Ok? then {key(row).value} else {})
  {
    assert (rows + [row])[..|rows|] == rows;
  }

  lemma InstanceLabelsAppend(rows: seq<Row>, row: Row)
    ensures InstanceLabels(rows + [row]) == InstanceLabels(rows) + [InstanceLabel(row)]
  {
  }

  /** A row of another key leaves a classification as it was. */
  lemma KeyUnchanged(rows: seq<Row>, row: Row, key: Row -> Result<string>, date: string, k: string,
                     c: ClassificationValue)
    requires KeyContents(rows, key, date, k, c) && key(row) != Ok(k)
    ensures KeyContents(rows + [row], key, date, k, c)
  {
    RowsOfAppend(rows, row, key, k);
  }

  /** A later row of the key appends its instance. */
  lemma KeyExtended(rows: seq<Row>, row: Row, key: Row -> Result<string>, date: string, k: string,
                    c: ClassificationValue, instance: ClassificationInstance)
    requires KeyContents(rows, key, date, k, c) && key(row) == Ok(k)
    requires instance.labelText == InstanceLabel(row) && instance.parentIri == c.Iri()
    ensures KeyContents(rows + [row], key, date, k, c.(individuals := c.individuals + [instance]))
  {
    RowsOfAppend(rows, row, key, k);
    LabelsAppend(c.individuals, instance);
    InstanceLabelsAppend(RowsOf(rows, key, k), row);
  }

  /** The first row of the key builds the classification and its first
      instance. */
  lemma KeyStarted(rows: seq<Row>, row: Row, key: Row -> Result<string>, date: string, k: string,
                   c: ClassificationValue, instance: ClassificationInstance)
    requires RowsOf(rows, key, k) == [] && key(row) == Ok(k)
    requires NewClassification(date, c.id, row) == Ok(c)
    requires instance.labelText == InstanceLabel(row) && instance.parentIri == c.Iri()
    ensures KeyContents(rows + [row], key, date, k, c.(individuals := [instance]))
  {
    RowsOfAppend(rows, row, key, k);
    assert c.individuals == [];
    LabelsAppend([], instance);
    InstanceLabelsAppend([], row);
  }

  /** Every classification of `t` holds what `KeyContents` says. */
  ghost predicate AllKeyContents(rows: seq<Row>, key: Row -> Result<string>, date: string,
                                 t: Table<ClassificationValue>)
  {
    forall k | k in t.entries :: KeyContents(rows, key, date, k, t.entries[k])
  }

  /** A row of a known key keeps `RunContents`. */
  lemma ContentsKnown(rows: seq<Row>, row: Row, key: Row -> Result<string>, date: string, start: nat,
                      s: DedupState<ClassificationValue>, k0: string, instance: ClassificationInstance)
    requires RunContents(rows, key, date, start, s)
    requires key(row) == Ok(k0) && k0 in s.table.entries && instance.labelText == InstanceLabel(row)
    requires instance.parentIri == s.table.entries[k0].Iri()
    ensures RunContents(rows + [row], key, date, start, DedupState(WithInstance(s.table, k0, instance), s.counter + 1))
  {
    EntriesExtended(rows, row, key, date, s.table, k0, instance);
    KnownKeyKeeps(rows, row, key, k0);
    WithInstanceKeys(s.table, k0, instance);
  }

  lemma KnownKeyKeeps(rows: seq<Row>, row: Row, key: Row -> Result<string>, k0: string)
    requires key(row) == Ok(k0) && k0 in KeysOf(rows, key)
    ensures KeysOf(rows + [row], key) == KeysOf(rows, key)
  {
    RowsOfAppend(rows, row, key, k0);
  }

  lemma WithInstanceKeys(t: Table<ClassificationValue>, k: string, instance: ClassificationInstance)
    requires k in t.entries
    ensures WithInstance(t, k, instance).keys == t.keys
    ensures WithInstance(t, k, instance).entries.Keys == t.entries.Keys
  {
  }

  lemma EntriesExtended(rows: seq<Row>, row: Row, key: Row -> Result<string>, date: string,
                        t: Table<ClassificationValue>, k0: string, instance: ClassificationInstance)
    requires AllKeyContents(rows, key, date, t)
    requires key(row) == Ok(k0) && k0 in t.entries && instance.labelText == InstanceLabel(row)
    requires instance.parentIri == t.entries[k0].Iri()
    ensures AllKeyContents(rows + [row], key, date, WithInstance(t, k0, instance))
  {
    var t' := WithInstance(t, k0, instance);
    forall k | k in t'.entries
      ensures KeyContents(rows + [row], key, date, k, t'.entries[k])
    {
      if k == k0 {
        KeyExtended(rows, row, key, date, k, t.entries[k], instance);
      } else {
        KeyUnchanged(rows, row, key, date, k, t.entries[k]);
      }
    }
  }

  /** The first row of a new key keeps `RunContents`. */
  lemma ContentsNew(rows: seq<Row>, row: Row, key: Row -> Result<string>, date: string, start: nat,
                    s: DedupState<ClassificationValue>, k0: string, c: ClassificationValue, instance: ClassificationInstance)
    requires RunContents(rows, key, date, start, s)
    requires key(row) == Ok(k0) && k0 !in s.table.entries && RowsOf(rows, key, k0) == []
    requires c.id == s.counter && NewClassification(date, s.counter, row) == Ok(c)
    requires instance.labelText == InstanceLabel(row) && instance.parentIri == c.Iri()
    ensures k0 in s.table.Add(k0, c).entries
    ensures RunContents(rows + [row], key, date, start, DedupState(WithInstance(s.table.Add(k0, c), k0, instance), s.counter + 2))
  {
    EntriesStarted(rows, row, key, date, s.table, k0, c, instance);
    RowsOfAppend(rows, row, key, k0);
  }

  lemma EntriesStarted(rows: seq<Row>, row: Row, key: Row -> Result<string>, date: string,
                       t: Table<ClassificationValue>, k0: string, c: ClassificationValue, instance: ClassificationInstance)
    requires AllKeyContents(rows, key, date, t)
    requires key(row) == Ok(k0) && k0 !in t.entries && RowsOf(rows, key, k0) == []
    requires NewClassification(date, c.id, row) == Ok(c) && instance.labelText == InstanceLabel(row)
    requires instance.parentIri == c.Iri()
    ensures k0 in t.Add(k0, c).entries
    ensures AllKeyContents(rows + [row], key, date, WithInstance(t.Add(k0, c), k0, instance))
  {
    var t' := WithInstance(t.Add(k0, c), k0, instance);
    forall k | k in t'.entries
      ensures KeyContents(rows + [row], key, date, k, t'.entries[k])
    {
      if k == k0 {
        KeyStarted(rows, row, key, date, k, c, instance);
      } else {
        KeyUnchanged(rows, row, key, date, k, t.entries[k]);
      }
    }
  }

  // ---------------------------------------------------------------------
  // The ids a run hands out, and the order of its keys.

  /** Where an id sits in the dict: on the classification under `k`, or on
      its `j`-th instance. */
  datatype Slot = OnClassification(k: string) | OnInstance(k: string, j: nat)

  predicate HasSlot(t: Table<ClassificationValue>, slot: Slot) {
    slot.k in t.entries && (slot.OnInstance? ==> slot.j < |t.entries[slot.k].individuals|)
  }

  function SlotId(t: Table<ClassificationValue>, slot: Slot): nat
    requires HasSlot(t, slot)
  {
    match slot
    case OnClassification(k) => t.entries[k].id
    case OnInstance(k, j) => t.entries[k].individuals[j].id
  }

  /** The ids in `t` are distinct and lie in [start, counter). */
  ghost predicate IdsDistinct(t: Table<ClassificationValue>, start: nat, counter: nat) {
    && start <= counter
    && (forall slot | HasSlot(t, slot) :: start <= SlotId(t, slot) < counter)
    && (forall s1, s2 | HasSlot(t, s1) && HasSlot(t, s2) && s1 != s2 :: SlotId(t, s1) != SlotId(t, s2))
  }

  /** Each classification's first instance has the id right after the
      classification's own, and its instances' ids increase. */
  ghost predicate InstanceIdsIncrease(t: Table<ClassificationValue>) {
    && (forall k | k in t.entries :: t.entries[k].individuals != [] && t.entries[k].individuals[0].id == t.entries[k].id + 1)
    && (forall k, i, j | k in t.entries && 0 <= i < j < |t.entries[k].individuals| ::
          t.entries[k].individuals[i].id < t.entries[k].individuals[j].id)
  }

  /** The keys of `rows`, each once, in the order their first rows come. */
  function FirstSeen(rows: seq<Row>, key: Row -> Result<string>): seq<string>
    decreases |rows|
  {
    if rows == [] then []
    else
      var seen := FirstSeen(rows[..|rows| - 1], key);
      var last := rows[|rows| - 1];
      if key(last).Ok? && key(last).value !in seen then seen + [key(last).value] else seen
  }

  /** What a successful run over `rows` holds in `s`, besides its contents:
      the keys in first-row order, distinct ids from the start value, and
      each classification's instances numbered after it, in row order. */
  ghost predicate RunIds(rows: seq<Row>, key: Row -> Result<string>, start: nat, s: DedupState<ClassificationValue>) {
    && s.table.Valid()
    && s.table.keys == FirstSeen(rows, key)
    && IdsDistinct(s.table, start, s.counter)
    && InstanceIdsIncrease(s.table)
  }

  /** A dict whose every slot either was there with the same id or has an
      id in [counter, counter'), and whose new ids are distinct, keeps its
      ids distinct. */
  lemma SlotsGrow(t: Table<ClassificationValue>, t': Table<ClassificationValue>, start: nat, counter: nat, counter': nat)
    requires IdsDistinct(t, start, counter) && counter <= counter'
    requires forall slot | HasSlot(t', slot) ::
      (HasSlot(t, slot) && SlotId(t', slot) == SlotId(t, slot)) || counter <= SlotId(t', slot) < counter'
    requires forall s1, s2 | HasSlot(t', s1) && HasSlot(t', s2) && s1 != s2 && counter <= SlotId(t', s1) && counter <= SlotId(t', s2) ::
      SlotId(t', s1) != SlotId(t', s2)
    ensures IdsDistinct(t', start, counter')
  {
  }

  /** A known key's instance with the current id keeps the ids distinct and
      increasing. */
  lemma KnownKeyIds(t: Table<ClassificationValue>, start: nat, counter: nat, k0: string, instance: ClassificationInstance)
    requires IdsDistinct(t, start, counter) && InstanceIdsIncrease(t)
    requires k0 in t.entries && instance.id == counter
    ensures IdsDistinct(WithInstance(t, k0, instance), start, counter + 1)
    ensures InstanceIdsIncrease(WithInstance(t, k0, instance))
  {
    var t' := WithInstance(t, k0, instance);
    var n := |t.entries[k0].individuals|;
    var added := OnInstance(k0, n);
    forall slot | HasSlot(t', slot)
      ensures (HasSlot(t, slot) && SlotId(t', slot) == SlotId(t, slot)) || slot == added
    {
    }
    assert SlotId(t', added) == counter;
    SlotsGrow(t, t', start, counter, counter + 1);
    forall i | 0 <= i < n
      ensures t.entries[k0].individuals[i].id < instance.id
    {
      assert HasSlot(t, OnInstance(k0, i));
    }
  }

  /** A new key's classification with the current id and its first instance
      with the next keep the ids distinct and increasing. */
  lemma NewKeyIds(t: Table<ClassificationValue>, start: nat, counter: nat, k0: string,
                  c: ClassificationValue, instance: ClassificationInstance)
    requires IdsDistinct(t, start, counter) && InstanceIdsIncrease(t)
    requires k0 !in t.entries && c.id == counter && c.individuals == [] && instance.id == counter + 1
    ensures k0 in t.Add(k0, c).entries
    ensures IdsDistinct(WithInstance(t.Add(k0, c), k0, instance), start, counter + 2)
    ensures InstanceIdsIncrease(WithInstance(t.Add(k0, c), k0, instance))
  {
    var t' := WithInstance(t.Add(k0, c), k0, instance);
    forall slot | HasSlot(t', slot)
      ensures (HasSlot(t, slot) && SlotId(t', slot) == SlotId(t, slot)) || slot == OnClassification(k0) || slot == OnInstance(k0, 0)
    {
    }
    assert SlotId(t', OnClassification(k0)) == counter;
    assert SlotId(t', OnInstance(k0, 0)) == counter + 1;
    SlotsGrow(t, t', start, counter, counter + 2);
  }

  /** The keys seen after one more row. */
  lemma FirstSeenAppend(rows: seq<Row>, row: Row, key: Row -> Result<string>)
    ensures FirstSeen(rows + [row], key) ==
      if key(row).Ok? && key(row).value !in FirstSeen(rows, key) then FirstSeen(rows, key) + [key(row).value]
      else FirstSeen(rows, key)
  {
    assert (rows + [row])[..|rows|] == rows;
  }

  /** One more successful row keeps `RunIds`. */
  lemma IdsStep(rows: seq<Row>, row: Row, key: Row -> Result<string>, date: string, start: nat,
                s: DedupState<ClassificationValue>)
    requires RunIds(rows, key, start, s)
    requires ClassificationStep(s, row, key, date).failure.None?
    ensures RunIds(rows + [row], key, start, ClassificationStep(s, row, key, date).state)
  {
    var k0 := key(row).value;
    FirstSeenAppend(rows, row, key);
    if k0 in s.table.entries {
      StepOnKnownKey(s, row, key, date, k0);
      var instance := NewInstance(s.counter, row[InstancesColumn], s.table.entries[k0], date);
      KnownKeyIds(s.table, start, s.counter, k0, instance);
      WithInstanceKeys(s.table, k0, instance);
    } else {
      var c := NewClassification(date, s.counter, row).value;
      StepOnNewKey(s, row, key, date, k0, c);
      var instance := NewInstance(s.counter + 1, row[InstancesColumn], c, date);
      NewKeyIds(s.table, start, s.counter, k0, c, instance);
      WithInstanceKeys(s.table.Add(k0, c), k0, instance);
    }
  }

  /** A run that does not stop hands out distinct ids from the start value
      up to its counter: each key's first row gives its classification the
      current id and its first instance the next, each later row gives its
      instance the current id, so a classification's instances have
      increasing ids; and the dict lists the keys in the order their first
      rows come. */
  lemma {:induction false} ClassificationRunIds(rows: seq<Row>, key: Row -> Result<string>, date: string, start: nat)
    requires ClassificationRun(rows, key, date, start).failure.None?
    ensures RunIds(rows, key, start, ClassificationRun(rows, key, date, start).state)
    decreases |rows|
  {
    if rows != [] {
      var prefix := rows[..|rows| - 1];
      assert prefix + [rows[|rows| - 1]] == rows;
      ClassificationRunIds(prefix, key, date, start);
      IdsStep(prefix, rows[|rows| - 1], key, date, start, ClassificationRun(prefix, key, date, start).state);
    }
  }

  /** A run that does not stop holds what `RunContents` says: every row is
      an instance of its key's classification, in row order, with that
      classification's IRI as its parent; each classification comes from its
      key's first row; the counter has advanced by the number of keys plus
      the number of rows; and, as `ClassificationRunIds` says, the ids are
      distinct and the keys in first-row order. */
  lemma {:induction false} ClassificationRunContents(rows: seq<Row>, key: Row -> Result<string>, date: string, start: nat)
    requires ClassificationRun(rows, key, date, start).failure.None?
    ensures RunContents(rows, key, date, start, ClassificationRun(rows, key, date, start).state)
    ensures RunIds(rows, key, start, ClassificationRun(rows, key, date, start).state)
    decreases |rows|
  {
    ClassificationRunIds(rows, key, date, start);
    if rows != [] {
      var prefix := rows[..|rows| - 1];
      assert prefix + [rows[|rows| - 1]] == rows;
      ClassificationRunContents(prefix, key, date, start);
      ContentsStep(prefix, rows[|rows| - 1], key, date, start, ClassificationRun(prefix, key, date, start).state);
    }
  }
}
