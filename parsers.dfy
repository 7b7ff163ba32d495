/** The six parsers of Import/parser/CsvParser.py that keep one entity per
    key: how each builds its entity from a row, what its `filter` excludes,
    and its `read`, which is the shared loop of `Deduplication`. Every
    builder reads the row's cells in the order the source passes them to the
    entity's constructor, so a missing column raises for the first of them. */
module Parsers {
  import opened Errors
  import opened Text
  import opened CsvParser
  import opened Entities
  import opened Deduplication

  /** The value `filter` compares against for measures, components and qualities. */
  const InformedConsent := "InformedConsent"
  /** The component whose questions and statements are dropped. */
  const ExcludedComponent := "209"

  // ------------------------------------------------------------ measures

  function BuildMeasure(date: string, id: nat, row: Row): Result<HarmonisedMeasure> {
    var labelCell :- Field(row, "Harmonised measure");
    Ok(HarmonisedMeasure(id, Strip(labelCell), date, false))
  }

  function MeasureBuilder(date: string): (nat, Row) -> Result<HarmonisedMeasure> {
    (id: nat, row: Row) => BuildMeasure(date, id, row)
  }

  /** `HarmonisedMeasureParser.filter`. */
  predicate MeasureExcluded(e: HarmonisedMeasure) {
    e.labelText == InformedConsent
  }

  function MeasureId(e: HarmonisedMeasure): nat { e.id }

  /** The builder stamps the counter value it is given as the id, and
      whether it fails or is excluded does not depend on that value. */
  lemma MeasureBuilderWellFormed(date: string)
    ensures Stamps(MeasureBuilder(date), MeasureId) && IdBlind(MeasureBuilder(date), MeasureExcluded)
  {
  }

  function MeasureRun(rows: seq<Row>, columns: seq<string>, date: string, start: nat): Run<DedupState<HarmonisedMeasure>> {
    DedupRun(rows, KeyFunction(columns), MeasureBuilder(date), MeasureExcluded, start)
  }

  /** `HarmonisedMeasureParser.read`. */
  method ReadMeasures(ontology: Ontology, rows: seq<Row>, columns: seq<string>, date: string)
    returns (r: Result<Table<HarmonisedMeasure>>)
    modifies ontology`counter
    ensures ontology.counter == MeasureRun(rows, columns, date, old(ontology.counter)).state.counter
    ensures r == Finish(MeasureRun(rows, columns, date, old(ontology.counter)))
  {
    r := ReadDeduplicated(ontology, rows, columns, MeasureBuilder(date), MeasureExcluded);
  }

  /** What a measure read yields: one measure per key, numbered from the
      start value in insertion order, none labelled `InformedConsent`; each is
      built from the first row with its key whose stripped label is not
      `InformedConsent`, and carries that stripped label, unflagged. */
  lemma MeasuresRead(rows: seq<Row>, columns: seq<string>, date: string, start: nat)
    ensures Consistent(MeasureRun(rows, columns, date, start).state, start, MeasureExcluded, MeasureId)
    ensures var run := MeasureRun(rows, columns, date, start);
      run.failure.None? ==> forall k | k in run.state.table.entries ::
        exists i: nat | FirstAdmittedAt(rows, KeyFunction(columns), MeasureBuilder(date), MeasureExcluded, k, i) ::
          MeasureFields(run.state.table.entries[k], rows[i], date)
  {
    var key, build := KeyFunction(columns), MeasureBuilder(date);
    MeasureBuilderWellFormed(date);
    DedupConsistent(rows, key, build, MeasureExcluded, MeasureId, start);
    var run := MeasureRun(rows, columns, date, start);
    if run.failure.None? {
      DedupFirstWins(rows, key, build, MeasureExcluded, start);
      forall k | k in run.state.table.entries
        ensures exists i: nat | FirstAdmittedAt(rows, key, build, MeasureExcluded, k, i) ::
          MeasureFields(run.state.table.entries[k], rows[i], date)
      {
        var i: nat, n: nat :| FirstAdmittedAt(rows, key, build, MeasureExcluded, k, i) && build(n, rows[i]) == Ok(run.state.table.entries[k]);
        MeasureBuilt(date, n, rows[i], run.state.table.entries[k]);
      }
    }
  }

  /** The measure's label is the row's stripped label cell, which is not
      `InformedConsent`. */
  predicate MeasureFields(m: HarmonisedMeasure, row: Row, date: string) {
    && "Harmonised measure" in row && m.labelText == Strip(row["Harmonised measure"]) != InformedConsent
    && m.date == date && !m.added
  }

  lemma MeasureBuilt(date: string, id: nat, row: Row, m: HarmonisedMeasure)
    requires BuildMeasure(date, id, row) == Ok(m) && !MeasureExcluded(m)
    ensures MeasureFields(m, row, date)
  {
  }

  // ---------------------------------------------------------- components

  function BuildComponent(date: string, id: nat, row: Row): Result<QuestionnaireComponent> {
    var labelCell :- Field(row, "harmonised questionare Component");
    var background :- Field(row, "Theoretical background");
    var definition :- Field(row, "Definition");
    var measure :- Field(row, "Harmonised measure");
    var quality :- Field(row, "Quality");
    Ok(QuestionnaireComponent(id, Strip(labelCell), date, Strip(background), Strip(definition), Strip(measure), Strip(quality), false))
  }

  function ComponentBuilder(date: string): (nat, Row) -> Result<QuestionnaireComponent> {
    (id: nat, row: Row) => BuildComponent(date, id, row)
  }

  /** `HarmonisedQuestionareComponentParser.filter`. */
  predicate ComponentExcluded(e: QuestionnaireComponent) {
    e.harmonisedMeasure == InformedConsent
  }

  function ComponentId(e: QuestionnaireComponent): nat { e.id }

  /** The builder stamps the counter value it is given as the id, and
      whether it fails or is excluded does not depend on that value. */
  lemma ComponentBuilderWellFormed(date: string)
    ensures Stamps(ComponentBuilder(date), ComponentId) && IdBlind(ComponentBuilder(date), ComponentExcluded)
  {
  }

  function ComponentRun(rows: seq<Row>, columns: seq<string>, date: string, start: nat): Run<DedupState<QuestionnaireComponent>> {
    DedupRun(rows, KeyFunction(columns), ComponentBuilder(date), ComponentExcluded, start)
  }

  /** `HarmonisedQuestionareComponentParser.read`. */
  method ReadComponents(ontology: Ontology, rows: seq<Row>, columns: seq<string>, date: string)
    returns (r: Result<Table<QuestionnaireComponent>>)
    modifies ontology`counter
    ensures ontology.counter == ComponentRun(rows, columns, date, old(ontology.counter)).state.counter
    ensures r == Finish(ComponentRun(rows, columns, date, old(ontology.counter)))
  {
    r := ReadDeduplicated(ontology, rows, columns, ComponentBuilder(date), ComponentExcluded);
  }

  /** What a component read yields: ids as for every parser, no component of
      the `InformedConsent` measure, and every text field the stripped cell of
      the first admitted row with its key. */
  lemma ComponentsRead(rows: seq<Row>, columns: seq<string>, date: string, start: nat)
    ensures Consistent(ComponentRun(rows, columns, date, start).state, start, ComponentExcluded, ComponentId)
    ensures var run := ComponentRun(rows, columns, date, start);
      run.failure.None? ==> forall k | k in run.state.table.entries ::
        exists i: nat | FirstAdmittedAt(rows, KeyFunction(columns), ComponentBuilder(date), ComponentExcluded, k, i) ::
          && ComponentFields(run.state.table.entries[k], rows[i], date)
  {
    var key, build := KeyFunction(columns), ComponentBuilder(date);
    ComponentBuilderWellFormed(date);
    DedupConsistent(rows, key, build, ComponentExcluded, ComponentId, start);
    var run := ComponentRun(rows, columns, date, start);
    if run.failure.None? {
      DedupFirstWins(rows, key, build, ComponentExcluded, start);
      forall k | k in run.state.table.entries
        ensures exists i: nat | FirstAdmittedAt(rows, key, build, ComponentExcluded, k, i) ::
          && ComponentFields(run.state.table.entries[k], rows[i], date)
      {
        var i: nat, n: nat :| FirstAdmittedAt(rows, key, build, ComponentExcluded, k, i) && build(n, rows[i]) == Ok(run.state.table.entries[k]);
        ComponentBuilt(date, n, rows[i], run.state.table.entries[k]);
      }
    }
  }

  /** The component's fields are the row's stripped cells, and its measure is
      not `InformedConsent`. */
  predicate ComponentFields(c: QuestionnaireComponent, row: Row, date: string) {
    && "harmonised questionare Component" in row && c.labelText == Strip(row["harmonised questionare Component"])
    && "Theoretical background" in row && c.theoreticalBackground == Strip(row["Theoretical background"])
    && "Definition" in row && c.definition == Strip(row["Definition"])
    && "Harmonised measure" in row && c.harmonisedMeasure == Strip(row["Harmonised measure"]) != InformedConsent
    && "Quality" in row && c.quality == Strip(row["Quality"])
    && c.date == date && !c.added
  }

  lemma ComponentBuilt(date: string, id: nat, row: Row, c: QuestionnaireComponent)
    requires BuildComponent(date, id, row) == Ok(c) && !ComponentExcluded(c)
    ensures ComponentFields(c, row, date)
  {
  }

  // ----------------------------------------------------------- qualities

  function BuildQuality(date: string, id: nat, row: Row): Result<Quality> {
    var labelCell :- Field(row, "Quality");
    var measure :- Field(row, "Harmonised measure");
    Ok(Quality(id, Lower(Strip(labelCell)), date, Strip(measure), false))
  }

  function QualityBuilder(date: string): (nat, Row) -> Result<Quality> {
    (id: nat, row: Row) => BuildQuality(date, id, row)
  }

  /** `QualityParser.filter`. */
  predicate QualityExcluded(e: Quality) {
    e.harmonisedMeasure == InformedConsent
  }

  function QualityId(e: Quality): nat { e.id }

  /** The builder stamps the counter value it is given as the id, and
      whether it fails or is excluded does not depend on that value. */
  lemma QualityBuilderWellFormed(date: string)
    ensures Stamps(QualityBuilder(date), QualityId) && IdBlind(QualityBuilder(date), QualityExcluded)
  {
  }

  function QualityRun(rows: seq<Row>, columns: seq<string>, date: string, start: nat): Run<DedupState<Quality>> {
    DedupRun(rows, KeyFunction(columns), QualityBuilder(date), QualityExcluded, start)
  }

  /** `QualityParser.read`. */
  method ReadQualities(ontology: Ontology, rows: seq<Row>, columns: seq<string>, date: string)
    returns (r: Result<Table<Quality>>)
    modifies ontology`counter
    ensures ontology.counter == QualityRun(rows, columns, date, old(ontology.counter)).state.counter
    ensures r == Finish(QualityRun(rows, columns, date, old(ontology.counter)))
  {
    r := ReadDeduplicated(ontology, rows, columns, QualityBuilder(date), QualityExcluded);
  }

  /** What a quality read yields: ids as for every parser, no quality of the
      `InformedConsent` measure, the label stripped and lower-cased, the
      measure only stripped. */
  lemma QualitiesRead(rows: seq<Row>, columns: seq<string>, date: string, start: nat)
    ensures Consistent(QualityRun(rows, columns, date, start).state, start, QualityExcluded, QualityId)
    ensures var run := QualityRun(rows, columns, date, start);
      run.failure.None? ==> forall k | k in run.state.table.entries ::
        exists i: nat | FirstAdmittedAt(rows, KeyFunction(columns), QualityBuilder(date), QualityExcluded, k, i) ::
          QualityFields(run.state.table.entries[k], rows[i], date)
  {
    var key, build := KeyFunction(columns), QualityBuilder(date);
    QualityBuilderWellFormed(date);
    DedupConsistent(rows, key, build, QualityExcluded, QualityId, start);
    var run := QualityRun(rows, columns, date, start);
    if run.failure.None? {
      DedupFirstWins(rows, key, build, QualityExcluded, start);
      forall k | k in run.state.table.entries
        ensures exists i: nat | FirstAdmittedAt(rows, key, build, QualityExcluded, k, i) ::
          QualityFields(run.state.table.entries[k], rows[i], date)
      {
        var i: nat, n: nat :| FirstAdmittedAt(rows, key, build, QualityExcluded, k, i) && build(n, rows[i]) == Ok(run.state.table.entries[k]);
        QualityBuilt(date, n, rows[i], run.state.table.entries[k]);
      }
    }
  }

  /** The quality's label is the row's stripped, lower-cased quality cell,
      its measure the stripped measure cell, which is not `InformedConsent`. */
  predicate QualityFields(q: Quality, row: Row, date: string) {
    && "Quality" in row && q.labelText == Lower(Strip(row["Quality"]))
    && "Harmonised measure" in row && q.harmonisedMeasure == Strip(row["Harmonised measure"]) != InformedConsent
    && q.date == date && !q.added
  }

  lemma QualityBuilt(date: string, id: nat, row: Row, q: Quality)
    requires BuildQuality(date, id, row) == Ok(q) && !QualityExcluded(q)
    ensures QualityFields(q, row, date)
  {
  }

  // ----------------------------------------------------------- questions

  /** The question type each question parser keeps. */
  function ExpectedType(variant: QuestionVariant): QuestionType {
    match variant
    case SingleChoiceQuestion => SingleChoice
    case OpenQuestion => Open
    case MatrixQuestion => Matrix
  }

  /** The single-choice and matrix parsers read `Linked classification ID`
      raw; the open parser does not read it and links every question to the
      classification keyed `open`. */
  function BuildQuestion(variant: QuestionVariant, date: string, id: nat, row: Row): Result<Question> {
    var labelCell :- Field(row, "Annotation: Label");
    var question :- Field(row, "Question");
    var hadQuestion :- Field(row, "Annotation: hadQuestion");
    var linked :- if variant == OpenQuestion then Ok("open") else Field(row, "Linked classification ID");
    var component :- Field(row, "ComponentId");
    Ok(Question(variant, id, Lower(Strip(labelCell)), date, GetQuestionType(question), Strip(hadQuestion), linked, component, false))
  }

  function QuestionBuilder(variant: QuestionVariant, date: string): (nat, Row) -> Result<Question> {
    (id: nat, row: Row) => BuildQuestion(variant, date, id, row)
  }

  /** The `filter` of the three question parsers: a question of another type
      (or of no known type), or one of component `209`. */
  predicate QuestionExcluded(variant: QuestionVariant, e: Question) {
    e.questionType != Some(ExpectedType(variant)) || e.harmonisedComponent == ExcludedComponent
  }

  function QuestionFilter(variant: QuestionVariant): Question -> bool {
    e => QuestionExcluded(variant, e)
  }

  function QuestionId(e: Question): nat { e.id }

  /** As for the other builders: ids stamped, failure and exclusion blind to them. */
  lemma QuestionBuilderWellFormed(variant: QuestionVariant, date: string)
    ensures Stamps(QuestionBuilder(variant, date), QuestionId) && IdBlind(QuestionBuilder(variant, date), QuestionFilter(variant))
  {
    forall n: nat, row: Row
      ensures var q := BuildQuestion(variant, date, n, row);
        q.Ok? == BuildQuestion(variant, date, 0, row).Ok?
        && (q.Ok? ==> q.value == BuildQuestion(variant, date, 0, row).value.(id := n))
    {
    }
  }

  function QuestionRun(variant: QuestionVariant, rows: seq<Row>, columns: seq<string>, date: string, start: nat): Run<DedupState<Question>> {
    DedupRun(rows, KeyFunction(columns), QuestionBuilder(variant, date), QuestionFilter(variant), start)
  }

  /** `read` of `SingleChoiceQuestionParser`, `OpenQuestionParser` and
      `MatrixQuestionParser`, which differ only in the variant built. */
  method ReadQuestions(variant: QuestionVariant, ontology: Ontology, rows: seq<Row>, columns: seq<string>, date: string)
    returns (r: Result<Table<Question>>)
    modifies ontology`counter
    ensures ontology.counter == QuestionRun(variant, rows, columns, date, old(ontology.counter)).state.counter
    ensures r == Finish(QuestionRun(variant, rows, columns, date, old(ontology.counter)))
  {
    r := ReadDeduplicated(ontology, rows, columns, QuestionBuilder(variant, date), QuestionFilter(variant));
  }

  /** The question's fields as the parser of `variant` fills them from `row`,
      and the facts its filter guarantees: the row's `Question` cell names
      exactly the parser's type, and the component is not `209`. */
  predicate QuestionFields(variant: QuestionVariant, q: Question, row: Row, date: string) {
    && q.variant == variant
    && "Annotation: Label" in row && q.labelText == Lower(Strip(row["Annotation: Label"]))
    && "Question" in row && row["Question"] == ExpectedType(variant).Value()
    && q.questionType == Some(ExpectedType(variant))
    && "Annotation: hadQuestion" in row && q.hasQuestion == Strip(row["Annotation: hadQuestion"])
    && (if variant == OpenQuestion then q.linkedClassification == "open"
        else "Linked classification ID" in row && q.linkedClassification == row["Linked classification ID"])
    && "ComponentId" in row && q.harmonisedComponent == row["ComponentId"] != ExcludedComponent
    && q.date == date && !q.added
  }

  /** What a question read yields: ids as for every parser, and every
      question built from the first row with its key whose `Question` cell is
      the parser's type and whose component is not `209`. */
  lemma QuestionsRead(variant: QuestionVariant, rows: seq<Row>, columns: seq<string>, date: string, start: nat)
    ensures Consistent(QuestionRun(variant, rows, columns, date, start).state, start, QuestionFilter(variant), QuestionId)
    ensures var run := QuestionRun(variant, rows, columns, date, start);
      run.failure.None? ==> forall k | k in run.state.table.entries ::
        exists i: nat | FirstAdmittedAt(rows, KeyFunction(columns), QuestionBuilder(variant, date), QuestionFilter(variant), k, i) ::
          && QuestionFields(variant, run.state.table.entries[k], rows[i], date)
  {
    var key, build, excluded := KeyFunction(columns), QuestionBuilder(variant, date), QuestionFilter(variant);
    QuestionBuilderWellFormed(variant, date);
    DedupConsistent(rows, key, build, excluded, QuestionId, start);
    var run := QuestionRun(variant, rows, columns, date, start);
    if run.failure.None? {
      DedupFirstWins(rows, key, build, excluded, start);
      forall k | k in run.state.table.entries
        ensures exists i: nat | FirstAdmittedAt(rows, key, build, excluded, k, i) ::
          && QuestionFields(variant, run.state.table.entries[k], rows[i], date)
      {
        var i: nat, n: nat :| FirstAdmittedAt(rows, key, build, excluded, k, i) && build(n, rows[i]) == Ok(run.state.table.entries[k]);
        QuestionBuilt(variant, date, n, rows[i], run.state.table.entries[k]);
      }
    }
  }

  lemma QuestionBuilt(variant: QuestionVariant, date: string, id: nat, row: Row, q: Question)
    requires BuildQuestion(variant, date, id, row) == Ok(q) && !QuestionExcluded(variant, q)
    ensures QuestionFields(variant, q, row, date)
  {
    GetQuestionTypeExact(row["Question"], ExpectedType(variant));
  }
}
