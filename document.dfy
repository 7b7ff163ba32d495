/** What the six writers of Import/parser/XmlWriter.py append to the shared
    root, as OWL 2 axioms: per entity a fixed sequence, and per writer the
    concatenation over the entity dict in its order, skipping entities whose
    `added` flag is set and stopping at the first cross-reference missing
    from a linked collection, with everything appended before it kept. */
module Document {
  import opened Errors
  import opened Owl
  import opened Entities
  import opened Deduplication

  // ------------------------------------------------------------ constants

  const LabelProperty: map<string, string> := map["abbreviatedIRI" := "rdfs:label"]
  const CreatorProperty: map<string, string> := map["abbreviatedIRI" := "dc:creator"]
  const DateProperty: map<string, string> := map["abbreviatedIRI" := "dc:date"]
  const DefinitionProperty: map<string, string> := map["abbreviatedIRI" := "obo:IAO_0000115"]
  const DescriptionProperty: map<string, string> := map["abbreviatedIRI" := "dc:description"]
  const BackgroundProperty: map<string, string> := map["IRI" := "#theoretical_background"]
  const HasQuestionProperty: map<string, string> := map["IRI" := "#hasQuestion"]
  /** Literal attributes: English text, a timestamp, or none. */
  const English: map<string, string> := map["xml:lang" := "en"]
  const DateTime: map<string, string> := map["datatypeIRI" := "http://www.w3.org/2001/XMLSchema#dateTime"]
  const Untyped: map<string, string> := map[]
  const ExactlyOne: map<string, string> := map["cardinality" := "1"]
  /** The fixed classes and object properties the writers link through. */
  const ComponentClass := BaseIri + "00000000000000000549"
  const Property333 := BaseIri + "00000000000000000333"
  const Property350 := BaseIri + "00000000000000000350"
  const Property362 := BaseIri + "00000000000000000362"
  const Property543 := BaseIri + "00000000000000000543"
  const QualityLink := "#OWLObjectProperty_aebfc327_8e90_47ec_afa4_23b12c522631"

  // ------------------------------------------------------ per entity

  /** What one entity contributes: the axioms appended, in order, and the
      missing reference that stopped the writer, if one did. */
  datatype Emission = Emission(axioms: seq<Axiom>, failure: Option<Error>)

  /** The four axioms every writer starts an entity with: its class
      declaration, its English label, its creator and its date. */
  function Header(iri: string, name: string, date: string): seq<Axiom> {
    [Declaration(DeclaredClass(iri))]
      + [AnnotationAssertion(LabelProperty, iri, Literal(English, name))]
      + [AnnotationAssertion(CreatorProperty, iri, IriValue(Creator))]
      + [AnnotationAssertion(DateProperty, iri, Literal(DateTime, date))]
  }

  /** A measure: the header, its parent class, and the statement that every
      component is linked through property 333 only to measures. */
  function MeasureAxioms(m: HarmonisedMeasure): seq<Axiom> {
    Header(m.Iri(), m.labelText, m.date)
      + [SubClassOf(m.Iri(), NamedClass(m.ParentIri()))]
      + [SubClassOf(ComponentClass, AllValuesFrom(Property333, m.Iri()))]
  }

  function QualityAxioms(q: Quality): seq<Axiom> {
    Header(q.Iri(), q.labelText, q.date) + [SubClassOf(q.Iri(), NamedClass(q.ParentIri()))]
  }

  /** The seven axioms of a component that need no lookup. */
  function ComponentHead(c: QuestionnaireComponent): seq<Axiom> {
    Header(c.Iri(), c.labelText, c.date)
      + [AnnotationAssertion(BackgroundProperty, c.Iri(), Literal(English, c.theoreticalBackground))]
      + [AnnotationAssertion(DefinitionProperty, c.Iri(), Literal(Untyped, c.definition))]
      + [SubClassOf(c.Iri(), NamedClass(c.ParentIri()))]
  }

  /** The component is a subclass of "linked through property 350 to some
      measure". */
  function MeasureLink(c: QuestionnaireComponent, measureIri: string): Axiom {
    SubClassOf(c.Iri(), SomeValuesFrom(Property350, measureIri))
  }

  /** The quality is a subclass of "linked to some such component". */
  function QualityLinkAxiom(c: QuestionnaireComponent, qualityIri: string): Axiom {
    SubClassOf(qualityIri, SomeValuesFrom(QualityLink, c.Iri()))
  }

  /** A component, given the IRIs of its measure and its quality. */
  function ComponentAxioms(c: QuestionnaireComponent, measureIri: string, qualityIri: string): seq<Axiom> {
    ComponentHead(c) + [MeasureLink(c, measureIri)] + [QualityLinkAxiom(c, qualityIri)]
  }

  /** A component looks its measure up before the eighth axiom and its
      quality before the ninth; a missing key stops it there. */
  function ComponentEmission(c: QuestionnaireComponent, measures: Table<HarmonisedMeasure>, qualities: Table<Quality>): Emission {
    if c.harmonisedMeasure !in measures.entries then
      Emission(ComponentHead(c), Some(MissingReference("measures", c.harmonisedMeasure)))
    else if c.quality !in qualities.entries then
      Emission(ComponentHead(c) + [MeasureLink(c, measures.entries[c.harmonisedMeasure].Iri())],
               Some(MissingReference("qualities", c.quality)))
    else
      Emission(ComponentAxioms(c, measures.entries[c.harmonisedMeasure].Iri(), qualities.entries[c.quality].Iri()), None)
  }

  /** The six axioms of a question that need no lookup. */
  function QuestionHead(q: Question): seq<Axiom> {
    Header(q.Iri(), q.labelText, q.date)
      + [AnnotationAssertion(HasQuestionProperty, q.Iri(), Literal(English, q.hasQuestion))]
      + [SubClassOf(q.Iri(), NamedClass(q.ParentIri()))]
  }

  /** The question is a subclass of "linked through property 350 to some
      component". */
  function ComponentLink(q: Question, componentIri: string): Axiom {
    SubClassOf(q.Iri(), SomeValuesFrom(Property350, componentIri))
  }

  /** Answered by exactly one classification, and the other way round. */
  function AnsweredBy(q: Question, classificationIri: string): Axiom {
    SubClassOf(q.Iri(), ExactCardinality(ExactlyOne, Property362, classificationIri))
  }

  function Answers(q: Question, classificationIri: string): Axiom {
    SubClassOf(classificationIri, ExactCardinality(ExactlyOne, Property543, q.Iri()))
  }

  /** A question, given the IRIs of its component and its classification. */
  function QuestionAxioms(q: Question, componentIri: string, classificationIri: string): seq<Axiom> {
    QuestionHead(q) + [ComponentLink(q, componentIri)] + [AnsweredBy(q, classificationIri)] + [Answers(q, classificationIri)]
  }

  /** A question looks its component up before the seventh axiom and its
      classification before the eighth (and again, by then certainly
      present, before the ninth). */
  function QuestionEmission(q: Question, components: Table<QuestionnaireComponent>,
                            classifications: Table<Classification>): Emission {
    if q.harmonisedComponent !in components.entries then
      Emission(QuestionHead(q), Some(MissingReference("components", q.harmonisedComponent)))
    else if q.linkedClassification !in classifications.entries then
      Emission(QuestionHead(q) + [ComponentLink(q, components.entries[q.harmonisedComponent].Iri())],
               Some(MissingReference("classifications", q.linkedClassification)))
    else
      Emission(QuestionAxioms(q, components.entries[q.harmonisedComponent].Iri(),
                              classifications.entries[q.linkedClassification].Iri()), None)
  }

  /** The five axioms of a statement that need no lookup. */
  function StatementHead(s: MatrixStatement): seq<Axiom> {
    Header(s.Iri(), s.labelText, s.date) + [AnnotationAssertion(DescriptionProperty, s.Iri(), Literal(Untyped, s.description))]
  }

  /** A statement, given the IRI of its question, which is its parent class. */
  function StatementAxioms(s: MatrixStatement, questionIri: string): seq<Axiom> {
    StatementHead(s) + [SubClassOf(s.Iri(), NamedClass(questionIri))]
  }

  /** A statement looks its question up, by its raw question name, before
      its sixth axiom. */
  function StatementEmission(s: MatrixStatement, questions: Table<Question>): Emission {
    if s.matrixQuestion !in questions.entries then
      Emission(StatementHead(s), Some(MissingReference("questions", s.matrixQuestion)))
    else
      Emission(StatementAxioms(s, questions.entries[s.matrixQuestion].Iri()), None)
  }

  /** One individual: its declaration, its label, and its membership of the
      class named by its parent IRI. */
  function IndividualAxioms(i: ClassificationInstance): seq<Axiom> {
    [Declaration(DeclaredIndividual(i.Iri()))]
      + [AnnotationAssertion(LabelProperty, i.Iri(), Literal(English, i.labelText))]
      + [ClassAssertion(i.parentIri, i.Iri())]
  }

  function IndividualsAxioms(individuals: seq<ClassificationInstance>): (axioms: seq<Axiom>)
    ensures |axioms| == 3 * |individuals|
    decreases |individuals|
  {
    if individuals == [] then []
    else IndividualsAxioms(individuals[..|individuals| - 1]) + IndividualAxioms(individuals[|individuals| - 1])
  }

  /** The six axioms of a classification before its individuals'. */
  function ClassificationHead(c: ClassificationValue): seq<Axiom> {
    Header(c.Iri(), c.labelText, c.date)
      + [AnnotationAssertion(DefinitionProperty, c.Iri(), Literal(Untyped, c.definition))]
      + [SubClassOf(c.Iri(), NamedClass(c.ParentIri()))]
  }

  function ClassificationAxioms(c: ClassificationValue): seq<Axiom> {
    ClassificationHead(c) + IndividualsAxioms(c.individuals)
  }

  // ------------------------------------------------------- per writer

  /** Every key of the dict's order is in the dict. */
  predicate Iterable<E>(t: Table<E>) {
    forall i | 0 <= i < |t.keys| :: t.keys[i] in t.entries
  }

  /** `for key in entities: … if entity.added: continue …` over the first
      `n` keys: the emissions of the entities not skipped, concatenated,
      up to and including the first one that fails. */
  function Emit<E>(t: Table<E>, n: nat, emit: E -> Emission, skipped: E -> bool): (r: Emission)
    requires Iterable(t) && n <= |t.keys|
    decreases n
  {
    if n == 0 then Emission([], None)
    else
      var prev := Emit(t, n - 1, emit, skipped);
      var e := t.entries[t.keys[n - 1]];
      if prev.failure.Some? || skipped(e) then prev
      else Emission(prev.axioms + emit(e).axioms, emit(e).failure)
  }

  function MeasureEmitter(): HarmonisedMeasure -> Emission {
    m => Emission(MeasureAxioms(m), None)
  }

  function QualityEmitter(): Quality -> Emission {
    q => Emission(QualityAxioms(q), None)
  }

  function ComponentEmitter(measures: Table<HarmonisedMeasure>, qualities: Table<Quality>): QuestionnaireComponent -> Emission {
    c => ComponentEmission(c, measures, qualities)
  }

  function QuestionEmitter(components: Table<QuestionnaireComponent>, classifications: Table<Classification>): Question -> Emission {
    q => QuestionEmission(q, components, classifications)
  }

  function StatementEmitter(questions: Table<Question>): MatrixStatement -> Emission {
    s => StatementEmission(s, questions)
  }

  function ClassificationEmitter(): ClassificationValue -> Emission {
    c => Emission(ClassificationAxioms(c), None)
  }

  function MeasureAdded(): HarmonisedMeasure -> bool { (m: HarmonisedMeasure) => m.added }
  function QualityAdded(): Quality -> bool { (q: Quality) => q.added }
  function ComponentAdded(): QuestionnaireComponent -> bool { (c: QuestionnaireComponent) => c.added }
  function QuestionAdded(): Question -> bool { (q: Question) => q.added }
  function StatementAdded(): MatrixStatement -> bool { (s: MatrixStatement) => s.added }
  function ClassificationAdded(): ClassificationValue -> bool { (c: ClassificationValue) => c.added }

  /** The classifications as values, for writing. */
  function Values(t: Table<Classification>): (v: Table<ClassificationValue>)
    reads t.entries.Values
    ensures v.keys == t.keys && v.entries.Keys == t.entries.Keys
    ensures forall k | k in t.entries :: v.entries[k] == t.entries[k].Value()
  {
    Table(t.keys, map k | k in t.entries :: t.entries[k].Value())
  }

  // ------------------------------------------- the statement groups

  /** `question_statements`: the questions in first-seen order and, for
      each, the IRIs of its statements in dict order. */
  datatype Groups = Groups(order: seq<string>, members: map<string, seq<string>>)

  /** `question_statements` after the first `n` keys. */
  function Grouped(t: Table<MatrixStatement>, n: nat): Groups
    requires Iterable(t) && n <= |t.keys|
    decreases n
  {
    if n == 0 then Groups([], map[])
    else
      var g := Grouped(t, n - 1);
      var s := t.entries[t.keys[n - 1]];
      if s.added then g
      else if s.matrixQuestion in g.members then
        g.(members := g.members[s.matrixQuestion := g.members[s.matrixQuestion] + [s.Iri()]])
      else Groups(g.order + [s.matrixQuestion], g.members[s.matrixQuestion := [s.Iri()]])
  }

  /** One `DisjointClasses` per question, in the groups' order. */
  function DisjointAxioms(g: Groups): (axioms: seq<Axiom>)
    requires forall i | 0 <= i < |g.order| :: g.order[i] in g.members
    ensures |axioms| == |g.order|
  {
    seq(|g.order|, i requires 0 <= i < |g.order| => DisjointClasses(g.members[g.order[i]]))
  }

  /** The independent description of a group: the IRIs of the statements
      among the first `n` that are not skipped and belong to `question`. */
  function StatementIris(t: Table<MatrixStatement>, n: nat, question: string): seq<string>
    requires Iterable(t) && n <= |t.keys|
    decreases n
  {
    if n == 0 then []
    else
      var s := t.entries[t.keys[n - 1]];
      StatementIris(t, n - 1, question) + if !s.added && s.matrixQuestion == question then [s.Iri()] else []
  }

  /** Whether some statement among the first `n` that is not skipped belongs
      to `question`. */
  predicate Asked(t: Table<MatrixStatement>, n: nat, question: string)
    requires Iterable(t) && n <= |t.keys|
  {
    exists i | 0 <= i < n :: !t.entries[t.keys[i]].added && t.entries[t.keys[i]].matrixQuestion == question
  }

  /** The groups are exactly the questions asked, each once and in the
      order first asked, and each lists its statements' IRIs in dict order. */
  ghost predicate GroupsFaithful(t: Table<MatrixStatement>, n: nat, g: Groups)
    requires Iterable(t) && n <= |t.keys|
  {
    && (forall i, j | 0 <= i < j < |g.order| :: g.order[i] != g.order[j])
    && (forall q :: q in g.members <==> q in g.order)
    && (forall q :: q in g.members <==> StatementIris(t, n, q) != [])
    && (forall q | q in g.members :: g.members[q] == StatementIris(t, n, q))
  }

  /** The statement writer's whole output: the statements' axioms and, if no
      lookup failed, one `DisjointClasses` per question after them. */
  function StatementDocument(t: Table<MatrixStatement>, questions: Table<Question>): Emission
    requires Iterable(t)
  {
    var e := Emit(t, |t.keys|, StatementEmitter(questions), StatementAdded());
    if e.failure.Some? then e
    else
      GroupedFaithful(t, |t.keys|);
      Emission(e.axioms + DisjointAxioms(Grouped(t, |t.keys|)), None)
  }

  // ------------------------------------------------------------ lemmas

  /** `Grouped` computes the groups the independent description gives. */
  lemma {:induction false} GroupedFaithful(t: Table<MatrixStatement>, n: nat)
    requires Iterable(t) && n <= |t.keys|
    ensures GroupsFaithful(t, n, Grouped(t, n))
    decreases n
  {
    if n > 0 {
      GroupedFaithful(t, n - 1);
      GroupedStep(t, n);
    }
  }

  /** One step of `GroupedFaithful`: the `n`-th statement joins its group. */
  lemma GroupedStep(t: Table<MatrixStatement>, n: nat)
    requires Iterable(t) && 0 < n <= |t.keys|
    requires GroupsFaithful(t, n - 1, Grouped(t, n - 1))
    ensures GroupsFaithful(t, n, Grouped(t, n))
  {
    var g := Grouped(t, n - 1);
    var s := t.entries[t.keys[n - 1]];
    var q0 := s.matrixQuestion;
    var g' := Grouped(t, n);
    if s.added {
      forall q ensures StatementIris(t, n, q) == StatementIris(t, n - 1, q) {}
    } else {
      forall q | q != q0 ensures StatementIris(t, n, q) == StatementIris(t, n - 1, q) {}
      assert StatementIris(t, n, q0) == StatementIris(t, n - 1, q0) + [s.Iri()];
      if q0 !in g.members {
        assert g'.order == g.order + [q0];
        forall i, j | 0 <= i < j < |g'.order|
          ensures g'.order[i] != g'.order[j]
        {
          if j == |g.order| {
            assert g.order[i] in g.order;
          }
        }
      }
    }
  }

  /** A question has statement IRIs exactly when it was asked. */
  lemma {:induction false} StatementIrisAsked(t: Table<MatrixStatement>, n: nat, question: string)
    requires Iterable(t) && n <= |t.keys|
    ensures StatementIris(t, n, question) != [] <==> Asked(t, n, question)
    decreases n
  {
    if n > 0 {
      StatementIrisAsked(t, n - 1, question);
      var s := t.entries[t.keys[n - 1]];
      if Asked(t, n, question) && !Asked(t, n - 1, question) {
        var i :| 0 <= i < n && !t.entries[t.keys[i]].added && t.entries[t.keys[i]].matrixQuestion == question;
        assert i == n - 1;
      }
      if Asked(t, n - 1, question) {
        var i :| 0 <= i < n - 1 && !t.entries[t.keys[i]].added && t.entries[t.keys[i]].matrixQuestion == question;
        assert 0 <= i < n;
      }
    }
  }

  /** A failure stops the writer: later keys add nothing. */
  lemma {:induction false} EmitFailureSticks<E>(t: Table<E>, i: nat, n: nat, emit: E -> Emission, skipped: E -> bool)
    requires Iterable(t) && i <= n <= |t.keys|
    requires Emit(t, i, emit, skipped).failure.Some?
    ensures Emit(t, n, emit, skipped) == Emit(t, i, emit, skipped)
    decreases n
  {
    if n > i {
      EmitFailureSticks(t, i, n - 1, emit, skipped);
    }
  }

  /** The number of entities among the first `n` that are not skipped,
      each weighted by `size`. */
  function PendingSize<E>(t: Table<E>, n: nat, skipped: E -> bool, size: E -> nat): nat
    requires Iterable(t) && n <= |t.keys|
    decreases n
  {
    if n == 0 then 0
    else
      var e := t.entries[t.keys[n - 1]];
      PendingSize(t, n - 1, skipped, size) + if skipped(e) then 0 else size(e)
  }

  /** When nothing fails, the writer appends exactly `size(e)` axioms for
      every entity it does not skip and none for the others. */
  lemma {:induction false} EmitLength<E>(t: Table<E>, n: nat, emit: E -> Emission, skipped: E -> bool, size: E -> nat)
    requires Iterable(t) && n <= |t.keys|
    requires forall e :: emit(e).failure.None? ==> |emit(e).axioms| == size(e)
    requires Emit(t, n, emit, skipped).failure.None?
    ensures |Emit(t, n, emit, skipped).axioms| == PendingSize(t, n, skipped, size)
    decreases n
  {
    if n > 0 {
      EmitLength(t, n - 1, emit, skipped, size);
    }
  }

  /** A writer stops exactly when an entity it does not skip fails, and the
      error is that of the first such entity; everything appended before it,
      including that entity's own axioms up to the lookup, stays. */
  lemma {:induction false} EmitFailure<E>(t: Table<E>, n: nat, emit: E -> Emission, skipped: E -> bool)
    requires Iterable(t) && n <= |t.keys|
    ensures var r := Emit(t, n, emit, skipped);
      r.failure.Some? <==> exists i | 0 <= i < n :: !skipped(t.entries[t.keys[i]]) && emit(t.entries[t.keys[i]]).failure.Some?
    ensures var r := Emit(t, n, emit, skipped);
      r.failure.Some? ==> exists i | 0 <= i < n ::
        var e := t.entries[t.keys[i]];
        && !skipped(e) && r.failure == emit(e).failure
        && r.axioms == Emit(t, i, emit, skipped).axioms + emit(e).axioms
        && Emit(t, i, emit, skipped).failure.None?
    decreases n
  {
    if n > 0 {
      EmitFailure(t, n - 1, emit, skipped);
      var prev := Emit(t, n - 1, emit, skipped);
      var e := t.entries[t.keys[n - 1]];
      if prev.failure.None? && !skipped(e) && emit(e).failure.Some? {
        assert !skipped(t.entries[t.keys[n - 1]]) && emit(t.entries[t.keys[n - 1]]).failure.Some?;
      }
    }
  }

  /** A writer given only entities already added appends nothing. */
  lemma {:induction false} EmitSkipsAdded<E>(t: Table<E>, n: nat, emit: E -> Emission, skipped: E -> bool)
    requires Iterable(t) && n <= |t.keys|
    requires forall i | 0 <= i < n :: skipped(t.entries[t.keys[i]])
    ensures Emit(t, n, emit, skipped) == Emission([], None)
    decreases n
  {
    if n > 0 {
      EmitSkipsAdded(t, n - 1, emit, skipped);
    }
  }

  /** A writer whose every entity succeeds never stops. */
  lemma {:induction false} EmitNeverFails<E>(t: Table<E>, n: nat, emit: E -> Emission, skipped: E -> bool)
    requires Iterable(t) && n <= |t.keys|
    requires forall e :: emit(e).failure.None?
    ensures Emit(t, n, emit, skipped).failure.None?
    decreases n
  {
    if n > 0 {
      EmitNeverFails(t, n - 1, emit, skipped);
    }
  }

  /** The measure, quality and classification writers look nothing up. */
  lemma MeasuresNeverFail(t: Table<HarmonisedMeasure>, n: nat)
    requires Iterable(t) && n <= |t.keys|
    ensures Emit(t, n, MeasureEmitter(), MeasureAdded()).failure.None?
  {
    EmitNeverFails(t, n, MeasureEmitter(), MeasureAdded());
  }

  lemma QualitiesNeverFail(t: Table<Quality>, n: nat)
    requires Iterable(t) && n <= |t.keys|
    ensures Emit(t, n, QualityEmitter(), QualityAdded()).failure.None?
  {
    EmitNeverFails(t, n, QualityEmitter(), QualityAdded());
  }

  lemma ClassificationsNeverFail(t: Table<ClassificationValue>, n: nat)
    requires Iterable(t) && n <= |t.keys|
    ensures Emit(t, n, ClassificationEmitter(), ClassificationAdded()).failure.None?
  {
    EmitNeverFails(t, n, ClassificationEmitter(), ClassificationAdded());
  }

  /** Six axioms per measure, ending with the universal restriction. */
  lemma MeasureCount(t: Table<HarmonisedMeasure>)
    requires Iterable(t)
    ensures Emit(t, |t.keys|, MeasureEmitter(), MeasureAdded()).failure.None?
    ensures |Emit(t, |t.keys|, MeasureEmitter(), MeasureAdded()).axioms| == PendingSize(t, |t.keys|, MeasureAdded(), _ => 6)
  {
    MeasuresNeverFail(t, |t.keys|);
    EmitLength(t, |t.keys|, MeasureEmitter(), MeasureAdded(), _ => 6);
  }

  lemma QualityCount(t: Table<Quality>)
    requires Iterable(t)
    ensures Emit(t, |t.keys|, QualityEmitter(), QualityAdded()).failure.None?
    ensures |Emit(t, |t.keys|, QualityEmitter(), QualityAdded()).axioms| == PendingSize(t, |t.keys|, QualityAdded(), _ => 5)
  {
    QualitiesNeverFail(t, |t.keys|);
    EmitLength(t, |t.keys|, QualityEmitter(), QualityAdded(), _ => 5);
  }

  /** Nine axioms per component when every reference resolves; seven or
      eight, the last entity's, when one does not. */
  lemma ComponentCount(c: QuestionnaireComponent, measures: Table<HarmonisedMeasure>, qualities: Table<Quality>)
    ensures var e := ComponentEmission(c, measures, qualities);
      && (e.failure.None? <==> c.harmonisedMeasure in measures.entries && c.quality in qualities.entries)
      && |e.axioms| == (if e.failure.None? then 9 else if c.harmonisedMeasure !in measures.entries then 7 else 8)
  {
  }

  /** Nine axioms per question when every reference resolves, two of them
      exact-cardinality-1 restrictions; six or seven when one does not. */
  lemma QuestionCount(q: Question, components: Table<QuestionnaireComponent>, classifications: Table<Classification>)
    ensures var e := QuestionEmission(q, components, classifications);
      && (e.failure.None? <==> q.harmonisedComponent in components.entries && q.linkedClassification in classifications.entries)
      && |e.axioms| == (if e.failure.None? then 9 else if q.harmonisedComponent !in components.entries then 6 else 7)
      && (e.failure.None? ==> e.axioms[7].superClass.ExactCardinality? && e.axioms[8].superClass.ExactCardinality?
                              && e.axioms[7].superClass.attributes == e.axioms[8].superClass.attributes == ExactlyOne)
  {
  }

  /** Six axioms per statement when its question resolves, five if not. */
  lemma StatementCount(s: MatrixStatement, questions: Table<Question>)
    ensures var e := StatementEmission(s, questions);
      && (e.failure.None? <==> s.matrixQuestion in questions.entries)
      && |e.axioms| == if e.failure.None? then 6 else 5
  {
  }

  /** Six axioms per classification and three per individual. */
  lemma ClassificationCount(c: ClassificationValue)
    ensures |ClassificationAxioms(c)| == 6 + 3 * |c.individuals|
  {
  }

  /** The `k`-th individual's three axioms sit right after the first `k`
      individuals'. */
  lemma {:induction false} IndividualsAxiomsAt(individuals: seq<ClassificationInstance>, k: nat)
    requires k < |individuals|
    ensures IndividualsAxioms(individuals)[3 * k..3 * k + 3] == IndividualAxioms(individuals[k])
    decreases |individuals|
  {
    var m := |individuals| - 1;
    var prefix := individuals[..m];
    if k < m {
      IndividualsAxiomsAt(prefix, k);
      assert IndividualsAxioms(individuals)[..3 * m] == IndividualsAxioms(prefix);
    }
  }
}
