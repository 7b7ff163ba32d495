/** The read loop every non-classification parser of Import/parser/CsvParser.py
    shares (lines 37-42, 61-72, 91-98, 158-169, 189-200, 220-231 and, with a
    per-question counter on top, 252-269): for each row, compute the key; if
    no entity holds it yet, build one with the current counter; if the
    parser's filter lets it through, commit it and advance the counter.
    The parsers differ only in how they build an entity and what they
    exclude, which become the parameters `build` and `excluded` here. */
module Deduplication {
  import opened Errors
  import opened CsvParser
  import opened Entities

  /** An insertion-ordered Python dict from keys to entities: `keys` in
      insertion order, `entries` for lookup. */
  datatype Table<E> = Table(keys: seq<string>, entries: map<string, E>) {
    predicate Valid() {
      && (forall i, j | 0 <= i < j < |keys| :: keys[i] != keys[j])
      && (forall k | k in entries :: k in keys)
      && (forall k | k in keys :: k in entries)
    }

    /** `entities[k] = e` for a new key: `k` goes last, nothing else moves. */
    function Add(k: string, e: E): (t: Table<E>)
      requires k !in entries
      ensures t.keys == keys + [k] && t.entries == entries[k := e]
      ensures Valid() ==> t.Valid()
    {
      Table(keys + [k], entries[k := e])
    }
  }

  function EmptyTable<E>(): (t: Table<E>)
    ensures t.Valid() && t.keys == []
  {
    Table([], map[])
  }

  /** What a parser holds between rows: its dict and the shared counter. */
  datatype DedupState<E> = DedupState(table: Table<E>, counter: nat)

  /** The state a run reached and, if it stopped, the error that stopped it. */
  datatype Run<S> = Run(state: S, failure: Option<Error>)

  /** What `read` hands back: the dict, or the KeyError it raised. */
  function Finish<E>(run: Run<DedupState<E>>): Result<Table<E>> {
    if run.failure.Some? then Err(run.failure.value) else Ok(run.state.table)
  }

  /** `get_id` with the parser's id columns fixed. */
  function KeyFunction(columns: seq<string>): Row -> Result<string> {
    row => KeyOf(row, columns)
  }

  /** One row of the loop; `key` is the parser's `get_id`. */
  function DedupStep<E>(s: DedupState<E>, row: Row, key: Row -> Result<string>,
                        build: (nat, Row) -> Result<E>, excluded: E -> bool): Run<DedupState<E>>
  {
    match key(row)
    case Err(e) => Run(s, Some(e))
    case Ok(k) =>
      if k in s.table.entries then Run(s, None)
      else match build(s.counter, row)
        case Err(e) => Run(s, Some(e))
        case Ok(entity) =>
          if excluded(entity) then Run(s, None)
          else Run(DedupState(s.table.Add(k, entity), s.counter + 1), None)
  }

  /** The step on a row with a new key whose entity builds. */
  lemma DedupStepOnBuilt<E>(s: DedupState<E>, row: Row, key: Row -> Result<string>,
                            build: (nat, Row) -> Result<E>, excluded: E -> bool, k: string, e: E)
    requires key(row) == Ok(k) && k !in s.table.entries && build(s.counter, row) == Ok(e)
    ensures DedupStep(s, row, key, build, excluded) ==
      if excluded(e) then Run(s, None) else Run(DedupState(s.table.Add(k, e), s.counter + 1), None)
  {
  }

  /** The loop over `rows` from an empty dict and counter `start`; the first
      error stops it, keeping the counter value reached. */
  function DedupRun<E>(rows: seq<Row>, key: Row -> Result<string>,
                       build: (nat, Row) -> Result<E>, excluded: E -> bool, start: nat): Run<DedupState<E>>
    decreases |rows|
  {
    if rows == [] then Run(DedupState(EmptyTable(), start), None)
    else
      var prev := DedupRun(rows[..|rows| - 1], key, build, excluded, start);
      if prev.failure.Some? then prev
      else DedupStep(prev.state, rows[|rows| - 1], key, build, excluded)
  }

  /** A loop over rows that stops at the first error, keeping the state it
      reached. */
  function Fold<S>(rows: seq<Row>, step: (S, Row) -> Run<S>, init: S): Run<S>
    decreases |rows|
  {
    if rows == [] then Run(init, None)
    else
      var prev := Fold(rows[..|rows| - 1], step, init);
      if prev.failure.Some? then prev else step(prev.state, rows[|rows| - 1])
  }

  /** Once a prefix stops, the whole loop has stopped there. */
  lemma {:induction false} FoldFailureSticks<S>(rows: seq<Row>, i: nat, step: (S, Row) -> Run<S>, init: S)
    requires i <= |rows|
    requires Fold(rows[..i], step, init).failure.Some?
    ensures Fold(rows, step, init) == Fold(rows[..i], step, init)
    decreases |rows|
  {
    if i < |rows| {
      var m := |rows| - 1;
      assert rows[..m][..i] == rows[..i];
      FoldFailureSticks(rows[..m], i, step, init);
    } else {
      assert rows[..i] == rows;
    }
  }

  /** A loop that has not stopped after `i` rows takes row `i` as one step. */
  lemma FoldStep<S>(rows: seq<Row>, i: nat, step: (S, Row) -> Run<S>, init: S)
    requires i < |rows| && Fold(rows[..i], step, init).failure.None?
    ensures Fold(rows[..i + 1], step, init) == step(Fold(rows[..i], step, init).state, rows[i])
  {
    assert rows[..i + 1][..i] == rows[..i];
  }

  /** The loop of the parsers' `read`, against the shared ontology counter. */
  method ReadDeduplicated<E>(ontology: Ontology, rows: seq<Row>, columns: seq<string>,
                             build: (nat, Row) -> Result<E>, excluded: E -> bool)
    returns (r: Result<Table<E>>)
    modifies ontology`counter
    ensures var run := DedupRun(rows, KeyFunction(columns), build, excluded, old(ontology.counter));
      ontology.counter == run.state.counter && r == Finish(run)
  {
    ghost var start := ontology.counter;
    var keys: seq<string> := [];
    var entries: map<string, E> := map[];
    for i := 0 to |rows|
      invariant DedupRun(rows[..i], KeyFunction(columns), build, excluded, start)
        == Run(DedupState(Table(keys, entries), ontology.counter), None)
    {
      assert rows[..i + 1][..i] == rows[..i];
      var row := rows[i];
      var key := GetId(row, columns);
      if key.Err? {
        DedupRunFailureSticks(rows, i + 1, KeyFunction(columns), build, excluded, start);
        return Err(key.error);
      }
      if key.value !in entries {
        var id := ontology.GetCounter();
        var entity := build(id, row);
        if entity.Err? {
          DedupRunFailureSticks(rows, i + 1, KeyFunction(columns), build, excluded, start);
          return Err(entity.error);
        }
        if !excluded(entity.value) {
          keys := keys + [key.value];
          entries := entries[key.value := entity.value];
          ontology.UpdateCounter();
        }
      }
    }
    assert rows[..|rows|] == rows;
    r := Ok(Table(keys, entries));
  }

  /** Once a prefix stops, the whole run has stopped there. */
  lemma {:induction false} DedupRunFailureSticks<E>(rows: seq<Row>, i: nat, key: Row -> Result<string>,
                                                    build: (nat, Row) -> Result<E>, excluded: E -> bool, start: nat)
    requires i <= |rows|
    requires DedupRun(rows[..i], key, build, excluded, start).failure.Some?
    ensures DedupRun(rows, key, build, excluded, start) == DedupRun(rows[..i], key, build, excluded, start)
    decreases |rows|
  {
    if i < |rows| {
      var m := |rows| - 1;
      assert rows[..m][..i] == rows[..i];
      DedupRunFailureSticks(rows[..m], i, key, build, excluded, start);
    } else {
      assert rows[..i] == rows;
    }
  }

  // ---------------------------------------------------------- invariants

  /** Every built entity carries the id it was built with. */
  ghost predicate Stamps<E>(build: (nat, Row) -> Result<E>, idOf: E -> nat) {
    forall n: nat, row: Row :: build(n, row).Ok? ==> idOf(build(n, row).value) == n
  }

  /** Whether a row builds, and whether its entity is excluded, does not
      depend on the id it is built with. */
  ghost predicate IdBlind<E>(build: (nat, Row) -> Result<E>, excluded: E -> bool) {
    forall n: nat, row: Row :: build(n, row).Ok? == build(0, row).Ok?
      && (build(n, row).Ok? ==> excluded(build(n, row).value) == excluded(build(0, row).value))
  }

  /** The row builds and its entity passes the filter. */
  predicate Admits<E>(row: Row, build: (nat, Row) -> Result<E>, excluded: E -> bool) {
    build(0, row).Ok? && !excluded(build(0, row).value)
  }

  /** What holds of a parser's state from start on: one entity per key, none
      of them excluded, ids start, start + 1, … in insertion order, and the
      counter one past the last id. */
  predicate Consistent<E>(s: DedupState<E>, start: nat, excluded: E -> bool, idOf: E -> nat) {
    && s.table.Valid()
    && s.counter == start + |s.table.keys|
    && (forall j | 0 <= j < |s.table.keys| :: idOf(s.table.entries[s.table.keys[j]]) == start + j)
    && (forall k | k in s.table.entries :: !excluded(s.table.entries[k]))
  }

  /** The counter advances exactly once per committed entity, never for a
      filtered one; committed ids are consecutive from the start value in
      insertion order; no committed entity is excluded. This holds of the
      state a run stops in as well. */
  lemma {:induction false} DedupConsistent<E>(rows: seq<Row>, key: Row -> Result<string>,
                                              build: (nat, Row) -> Result<E>, excluded: E -> bool,
                                              idOf: E -> nat, start: nat)
    requires Stamps(build, idOf)
    ensures Consistent(DedupRun(rows, key, build, excluded, start).state, start, excluded, idOf)
    decreases |rows|
  {
    if rows != [] {
      var prev := DedupRun(rows[..|rows| - 1], key, build, excluded, start);
      DedupConsistent(rows[..|rows| - 1], key, build, excluded, idOf, start);
      if prev.failure.None? {
        var s := prev.state;
        var row := rows[|rows| - 1];
        var next := DedupStep(s, row, key, build, excluded);
        if key(row).Ok? && key(row).value !in s.table.entries
           && build(s.counter, row).Ok? && !excluded(build(s.counter, row).value)
        {
          var k := key(row).value;
          var t := next.state.table;
          assert t.keys == s.table.keys + [k];
          forall j | 0 <= j < |t.keys|
            ensures idOf(t.entries[t.keys[j]]) == start + j
          {
            if j < |s.table.keys| {
              assert t.keys[j] == s.table.keys[j] != k;
            }
          }
        }
      }
    }
  }

  /** The first row with key `k` whose entity passes the filter is row `i`. */
  predicate FirstAdmittedAt<E>(rows: seq<Row>, key: Row -> Result<string>, build: (nat, Row) -> Result<E>,
                               excluded: E -> bool, k: string, i: nat)
  {
    && i < |rows|
    && key(rows[i]) == Ok(k)
    && Admits(rows[i], build, excluded)
    && (forall j | 0 <= j < i :: key(rows[j]) == Ok(k) ==> !Admits(rows[j], build, excluded))
  }

  /** A step that does not stop either commits the row's entity under its
      new key or leaves the dict as it was. */
  lemma DedupStepShape<E>(s: DedupState<E>, row: Row, key: Row -> Result<string>,
                          build: (nat, Row) -> Result<E>, excluded: E -> bool)
    requires IdBlind(build, excluded)
    requires DedupStep(s, row, key, build, excluded).failure.None?
    ensures key(row).Ok?
    ensures var k := key(row).value;
      var t := DedupStep(s, row, key, build, excluded).state.table;
      if k !in s.table.entries && Admits(row, build, excluded) then
        build(s.counter, row).Ok? && t == s.table.Add(k, build(s.counter, row).value)
      else t == s.table
  {
    var k := key(row).value;
    if k !in s.table.entries {
      assert build(s.counter, row).Ok? == build(0, row).Ok?;
      assert build(s.counter, row).Ok? ==>
        excluded(build(s.counter, row).value) == excluded(build(0, row).value);
    }
  }

  /** The keys of the rows whose entities pass the filter. */
  function AdmittedKeys<E>(rows: seq<Row>, key: Row -> Result<string>,
                           build: (nat, Row) -> Result<E>, excluded: E -> bool): set<string>
    decreases |rows|
  {
    if rows == [] then {}
    else
      var row := rows[|rows| - 1];
      AdmittedKeys(rows[..|rows| - 1], key, build, excluded)
        + if key(row).Ok? && Admits(row, build, excluded) then {key(row).value} else {}
  }

  /** A key is admitted exactly when some row with that key builds an
      entity that passes the filter. */
  lemma {:induction false} AdmittedKeysMembership<E>(rows: seq<Row>, key: Row -> Result<string>,
                                                     build: (nat, Row) -> Result<E>, excluded: E -> bool, k: string)
    ensures k in AdmittedKeys(rows, key, build, excluded) <==>
      exists i | 0 <= i < |rows| :: key(rows[i]) == Ok(k) && Admits(rows[i], build, excluded)
    decreases |rows|
  {
    if rows != [] {
      var m := |rows| - 1;
      var pre := rows[..m];
      AdmittedKeysMembership(pre, key, build, excluded, k);
      if k in AdmittedKeys(pre, key, build, excluded) {
        var i :| 0 <= i < |pre| && key(pre[i]) == Ok(k) && Admits(pre[i], build, excluded);
        assert pre[i] == rows[i];
      } else if k in AdmittedKeys(rows, key, build, excluded) {
        assert key(rows[m]) == Ok(k) && Admits(rows[m], build, excluded);
      }
      if exists i | 0 <= i < |rows| :: key(rows[i]) == Ok(k) && Admits(rows[i], build, excluded) {
        var i :| 0 <= i < |rows| && key(rows[i]) == Ok(k) && Admits(rows[i], build, excluded);
        if i < m {
          assert pre[i] == rows[i];
        }
      }
    }
  }

  /** First admitted row wins, part one: after a run that did not stop, the
      keys in the dict are exactly the admitted keys. */
  lemma {:induction false} DedupAdmittedKeys<E>(rows: seq<Row>, key: Row -> Result<string>,
                                                build: (nat, Row) -> Result<E>, excluded: E -> bool, start: nat)
    requires IdBlind(build, excluded)
    requires DedupRun(rows, key, build, excluded, start).failure.None?
    ensures DedupRun(rows, key, build, excluded, start).state.table.entries.Keys
      == AdmittedKeys(rows, key, build, excluded)
    decreases |rows|
  {
    if rows != [] {
      var m := |rows| - 1;
      var s := DedupRun(rows[..m], key, build, excluded, start).state;
      DedupAdmittedKeys(rows[..m], key, build, excluded, start);
      DedupStepShape(s, rows[m], key, build, excluded);
    }
  }

  /** The same, key by key: a key is in the dict exactly when some row with
      that key builds an entity that passes the filter. */
  lemma DedupKeyAdmitted<E>(rows: seq<Row>, key: Row -> Result<string>,
                            build: (nat, Row) -> Result<E>, excluded: E -> bool, start: nat, k: string)
    requires IdBlind(build, excluded)
    requires DedupRun(rows, key, build, excluded, start).failure.None?
    ensures k in DedupRun(rows, key, build, excluded, start).state.table.entries <==>
      exists i | 0 <= i < |rows| :: key(rows[i]) == Ok(k) && Admits(rows[i], build, excluded)
  {
    DedupAdmittedKeys(rows, key, build, excluded, start);
    AdmittedKeysMembership(rows, key, build, excluded, k);
  }

  /** First admitted row wins, part two: the entity under each key is built
      from the first row with that key whose entity passes the filter. */
  lemma {:induction false} DedupFirstWins<E>(rows: seq<Row>, key: Row -> Result<string>,
                                             build: (nat, Row) -> Result<E>, excluded: E -> bool, start: nat)
    requires IdBlind(build, excluded)
    requires DedupRun(rows, key, build, excluded, start).failure.None?
    ensures var t := DedupRun(rows, key, build, excluded, start).state.table;
      forall k | k in t.entries :: exists i: nat, n: nat ::
        FirstAdmittedAt(rows, key, build, excluded, k, i) && build(n, rows[i]) == Ok(t.entries[k])
    decreases |rows|
  {
    if rows != [] {
      var m := |rows| - 1;
      var pre := rows[..m];
      var row := rows[m];
      var s := DedupRun(pre, key, build, excluded, start).state;
      DedupFirstWins(pre, key, build, excluded, start);
      DedupStepShape(s, row, key, build, excluded);
      var t := DedupRun(rows, key, build, excluded, start).state.table;
      forall k | k in t.entries
        ensures exists i: nat, n: nat ::
          FirstAdmittedAt(rows, key, build, excluded, k, i) && build(n, rows[i]) == Ok(t.entries[k])
      {
        if k in s.table.entries {
          var i: nat, n: nat :| FirstAdmittedAt(pre, key, build, excluded, k, i) && build(n, pre[i]) == Ok(s.table.entries[k]);
          assert forall j | 0 <= j <= i :: pre[j] == rows[j];
          assert FirstAdmittedAt(rows, key, build, excluded, k, i);
        } else {
          DedupKeyAdmitted(pre, key, build, excluded, start, k);
          forall j | 0 <= j < m && key(rows[j]) == Ok(k)
            ensures !Admits(rows[j], build, excluded)
          {
            assert pre[j] == rows[j];
          }
          assert FirstAdmittedAt(rows, key, build, excluded, k, m);
          assert build(s.counter, rows[m]) == Ok(t.entries[k]);
        }
      }
    }
  }

  /** `large` holds everything `small` holds, under the same keys and in
      the same order, and possibly more after it. */
  ghost predicate Extends<E>(small: Table<E>, large: Table<E>) {
    && |small.keys| <= |large.keys| && large.keys[..|small.keys|] == small.keys
    && (forall k | k in small.entries :: k in large.entries && large.entries[k] == small.entries[k])
  }

  lemma ExtendsTransitive<E>(a: Table<E>, b: Table<E>, c: Table<E>)
    requires Extends(a, b) && Extends(b, c)
    ensures Extends(a, c)
  {
    assert c.keys[..|b.keys|][..|a.keys|] == c.keys[..|a.keys|];
  }

  /** A later row never changes what an earlier prefix committed: the dict of
      a prefix is a prefix of the dict of the whole run. */
  lemma {:induction false} DedupPrefixStable<E>(rows: seq<Row>, i: nat, key: Row -> Result<string>,
                                                build: (nat, Row) -> Result<E>, excluded: E -> bool, start: nat)
    requires i <= |rows|
    ensures Extends(DedupRun(rows[..i], key, build, excluded, start).state.table,
                    DedupRun(rows, key, build, excluded, start).state.table)
    decreases |rows|
  {
    if i == |rows| {
      assert rows[..i] == rows;
    } else {
      var m := |rows| - 1;
      assert rows[..m][..i] == rows[..i];
      DedupPrefixStable(rows[..m], i, key, build, excluded, start);
      var prev := DedupRun(rows[..m], key, build, excluded, start);
      if prev.failure.None? {
        DedupStepExtends(prev.state, rows[m], key, build, excluded);
        ExtendsTransitive(DedupRun(rows[..i], key, build, excluded, start).state.table, prev.state.table,
                          DedupRun(rows, key, build, excluded, start).state.table);
      }
    }
  }

  lemma DedupStepExtends<E>(s: DedupState<E>, row: Row, key: Row -> Result<string>,
                            build: (nat, Row) -> Result<E>, excluded: E -> bool)
    ensures Extends(s.table, DedupStep(s, row, key, build, excluded).state.table)
  {
    assert s.table.keys[..|s.table.keys|] == s.table.keys;
  }
}
