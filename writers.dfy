/** The six writers of Import/parser/XmlWriter.py:91-421. Each holds the
    shared ontology root and appends to it, entity after entity in dict
    order, exactly what `Document` says; a writer that meets a missing
    cross-reference stops there and reports it, keeping what it appended. */
module Writers {
  import opened Errors
  import opened Xml
  import opened Owl
  import opened Entities
  import opened Deduplication
  import opened Builders
  import opened Document

  // ------------------------------------------- appending, abstractly

  /** One builder call after `done` was written. */
  lemma RenderedSnoc(base: seq<Element>, done: seq<Axiom>, x: Axiom, children: seq<Element>)
    requires children == base + RenderAll(done) + [Render(x)]
    ensures children == base + RenderAll(done + [x])
  {
    assert (done + [x])[..|done|] == done;
  }

  /** The first builder call. */
  lemma RenderedFirst(base: seq<Element>, x: Axiom, children: seq<Element>)
    requires children == base + [Render(x)]
    ensures children == base + RenderAll([x])
  {
    assert [x][..0] == [];
  }

  /** A run of builder calls after `done` was written. */
  lemma RenderedAppend(base: seq<Element>, done: seq<Axiom>, more: seq<Axiom>, children: seq<Element>)
    requires children == base + RenderAll(done) + RenderAll(more)
    ensures children == base + RenderAll(done + more)
  {
    RenderAllAppend(done, more);
  }

  /** One turn of a writer's loop over an entity it does not skip: what it
      appends extends the writer's output to one more key. */
  lemma WrittenStep<E>(t: Table<E>, i: nat, emit: E -> Emission, skipped: E -> bool,
                       base: seq<Element>, children: seq<Element>)
    requires Iterable(t) && i < |t.keys| && Emit(t, i, emit, skipped).failure.None?
    requires !skipped(t.entries[t.keys[i]])
    requires children == base + RenderAll(Emit(t, i, emit, skipped).axioms) + RenderAll(emit(t.entries[t.keys[i]]).axioms)
    ensures children == base + RenderAll(Emit(t, i + 1, emit, skipped).axioms)
    ensures Emit(t, i + 1, emit, skipped).failure == emit(t.entries[t.keys[i]]).failure
  {
    RenderAllAppend(Emit(t, i, emit, skipped).axioms, emit(t.entries[t.keys[i]]).axioms);
  }

  /** One more individual of a classification written. */
  lemma IndividualWritten(base: seq<Element>, head: seq<Axiom>, individuals: seq<ClassificationInstance>, j: nat,
                          children: seq<Element>)
    requires j < |individuals|
    requires children == base + RenderAll(head + IndividualsAxioms(individuals[..j])) + RenderAll(IndividualAxioms(individuals[j]))
    ensures children == base + RenderAll(head + IndividualsAxioms(individuals[..j + 1]))
  {
    var done, next := IndividualsAxioms(individuals[..j]), IndividualAxioms(individuals[j]);
    RenderAllAppend(head + done, next);
    assert individuals[..j + 1][..j] == individuals[..j];
    assert IndividualsAxioms(individuals[..j + 1]) == done + next;
    assert (head + done) + next == head + (done + next);
  }

  // ------------------------------------------------------ per entity

  /** Declaration, label, creator and date: the first four calls of every
      writer's loop body. */
  method WriteHeader(parent: Node, iri: string, name: string, date: string)
    modifies parent`children
    ensures parent.children == old(parent.children) + RenderAll(Header(iri, name, date))
  {
    ghost var base := parent.children;
    AddDeclaration(parent, iri, true);
    RenderedFirst(base, Declaration(DeclaredClass(iri)), parent.children);
    ghost var done := [Declaration(DeclaredClass(iri))];
    AddLiteralProperty(parent, iri, LabelProperty, English, name);
    RenderedSnoc(base, done, AnnotationAssertion(LabelProperty, iri, Literal(English, name)), parent.children);
    done := done + [AnnotationAssertion(LabelProperty, iri, Literal(English, name))];
    AddObjectProperty(parent, iri, CreatorProperty, Creator);
    RenderedSnoc(base, done, AnnotationAssertion(CreatorProperty, iri, IriValue(Creator)), parent.children);
    done := done + [AnnotationAssertion(CreatorProperty, iri, IriValue(Creator))];
    AddLiteralProperty(parent, iri, DateProperty, DateTime, date);
    RenderedSnoc(base, done, AnnotationAssertion(DateProperty, iri, Literal(DateTime, date)), parent.children);
  }

  method WriteMeasure(parent: Node, m: HarmonisedMeasure)
    modifies parent`children
    ensures parent.children == old(parent.children) + RenderAll(MeasureAxioms(m))
  {
    ghost var base := parent.children;
    var iri := m.Iri();
    WriteHeader(parent, iri, m.labelText, m.date);
    ghost var done := Header(iri, m.labelText, m.date);
    AddSubclass(parent, m.ParentIri(), iri);
    RenderedSnoc(base, done, SubClassOf(iri, NamedClass(m.ParentIri())), parent.children);
    done := done + [SubClassOf(iri, NamedClass(m.ParentIri()))];
    AddSubclassSomeValues(parent, iri, Property333, ComponentClass, false);
    RenderedSnoc(base, done, SubClassOf(ComponentClass, AllValuesFrom(Property333, iri)), parent.children);
  }

  method WriteQuality(parent: Node, q: Quality)
    modifies parent`children
    ensures parent.children == old(parent.children) + RenderAll(QualityAxioms(q))
  {
    ghost var base := parent.children;
    var iri := q.Iri();
    WriteHeader(parent, iri, q.labelText, q.date);
    AddSubclass(parent, q.ParentIri(), iri);
    RenderedSnoc(base, Header(iri, q.labelText, q.date), SubClassOf(iri, NamedClass(q.ParentIri())), parent.children);
  }

  /** The component's first seven calls. */
  method WriteComponentHead(parent: Node, c: QuestionnaireComponent)
    modifies parent`children
    ensures parent.children == old(parent.children) + RenderAll(ComponentHead(c))
  {
    ghost var base := parent.children;
    var iri := c.Iri();
    WriteHeader(parent, iri, c.labelText, c.date);
    ghost var done := Header(iri, c.labelText, c.date);
    AddLiteralProperty(parent, iri, BackgroundProperty, English, c.theoreticalBackground);
    RenderedSnoc(base, done, AnnotationAssertion(BackgroundProperty, iri, Literal(English, c.theoreticalBackground)), parent.children);
    done := done + [AnnotationAssertion(BackgroundProperty, iri, Literal(English, c.theoreticalBackground))];
    AddLiteralProperty(parent, iri, DefinitionProperty, Untyped, c.definition);
    RenderedSnoc(base, done, AnnotationAssertion(DefinitionProperty, iri, Literal(Untyped, c.definition)), parent.children);
    done := done + [AnnotationAssertion(DefinitionProperty, iri, Literal(Untyped, c.definition))];
    AddSubclass(parent, c.ParentIri(), iri);
    RenderedSnoc(base, done, SubClassOf(iri, NamedClass(c.ParentIri())), parent.children);
  }

  /** The component's body: `linked_entities['measures'][…]` is looked up
      for the eighth call and `linked_entities['qualities'][…]` for the ninth. */
  method WriteComponent(parent: Node, c: QuestionnaireComponent,
                        measures: Table<HarmonisedMeasure>, qualities: Table<Quality>)
    returns (failure: Option<Error>)
    modifies parent`children
    ensures parent.children == old(parent.children) + RenderAll(ComponentEmission(c, measures, qualities).axioms)
    ensures failure == ComponentEmission(c, measures, qualities).failure
  {
    ghost var base := parent.children;
    WriteComponentHead(parent, c);
    if c.harmonisedMeasure !in measures.entries {
      return Some(MissingReference("measures", c.harmonisedMeasure));
    }
    var measureIri := measures.entries[c.harmonisedMeasure].Iri();
    AddSubclassSomeValues(parent, measureIri, Property350, c.Iri(), true);
    RenderedSnoc(base, ComponentHead(c), MeasureLink(c, measureIri), parent.children);
    if c.quality !in qualities.entries {
      return Some(MissingReference("qualities", c.quality));
    }
    var qualityIri := qualities.entries[c.quality].Iri();
    AddSubclassSomeValues(parent, c.Iri(), QualityLink, qualityIri, true);
    RenderedSnoc(base, ComponentHead(c) + [MeasureLink(c, measureIri)], QualityLinkAxiom(c, qualityIri), parent.children);
    failure := None;
  }

  /** The question's first six calls. */
  method WriteQuestionHead(parent: Node, q: Question)
    modifies parent`children
    ensures parent.children == old(parent.children) + RenderAll(QuestionHead(q))
  {
    ghost var base := parent.children;
    var iri := q.Iri();
    WriteHeader(parent, iri, q.labelText, q.date);
    ghost var done := Header(iri, q.labelText, q.date);
    AddLiteralProperty(parent, iri, HasQuestionProperty, English, q.hasQuestion);
    RenderedSnoc(base, done, AnnotationAssertion(HasQuestionProperty, iri, Literal(English, q.hasQuestion)), parent.children);
    done := done + [AnnotationAssertion(HasQuestionProperty, iri, Literal(English, q.hasQuestion))];
    AddSubclass(parent, q.ParentIri(), iri);
    RenderedSnoc(base, done, SubClassOf(iri, NamedClass(q.ParentIri())), parent.children);
  }

  /** The question's body: `linked_entities['components'][…]` is looked up
      for the seventh call, `linked_entities['classifications'][…]` for the
      eighth and the ninth. */
  method WriteQuestion(parent: Node, q: Question,
                       components: Table<QuestionnaireComponent>, classifications: Table<Classification>)
    returns (failure: Option<Error>)
    modifies parent`children
    ensures parent.children == old(parent.children) + RenderAll(QuestionEmission(q, components, classifications).axioms)
    ensures failure == QuestionEmission(q, components, classifications).failure
  {
    ghost var base := parent.children;
    WriteQuestionHead(parent, q);
    if q.harmonisedComponent !in components.entries {
      return Some(MissingReference("components", q.harmonisedComponent));
    }
    var componentIri := components.entries[q.harmonisedComponent].Iri();
    AddSubclassSomeValues(parent, componentIri, Property350, q.Iri(), true);
    RenderedSnoc(base, QuestionHead(q), ComponentLink(q, componentIri), parent.children);
    if q.linkedClassification !in classifications.entries {
      return Some(MissingReference("classifications", q.linkedClassification));
    }
    var classificationIri := classifications.entries[q.linkedClassification].Iri();
    ghost var done := QuestionHead(q) + [ComponentLink(q, componentIri)];
    AddSubclassExactCardinality(parent, classificationIri, Property362, q.Iri(), ExactlyOne);
    RenderedSnoc(base, done, AnsweredBy(q, classificationIri), parent.children);
    done := done + [AnsweredBy(q, classificationIri)];
    AddSubclassExactCardinality(parent, q.Iri(), Property543, classificationIri, ExactlyOne);
    RenderedSnoc(base, done, Answers(q, classificationIri), parent.children);
    failure := None;
  }

  /** The statement's body after its group is updated:
      `linked_entities['questions'][…]` is looked up for the sixth call. */
  method WriteStatement(parent: Node, s: MatrixStatement, questions: Table<Question>)
    returns (failure: Option<Error>)
    modifies parent`children
    ensures parent.children == old(parent.children) + RenderAll(StatementEmission(s, questions).axioms)
    ensures failure == StatementEmission(s, questions).failure
  {
    ghost var base := parent.children;
    var iri := s.Iri();
    WriteHeader(parent, iri, s.labelText, s.date);
    AddLiteralProperty(parent, iri, DescriptionProperty, Untyped, s.description);
    RenderedSnoc(base, Header(iri, s.labelText, s.date),
                 AnnotationAssertion(DescriptionProperty, iri, Literal(Untyped, s.description)), parent.children);
    if s.matrixQuestion !in questions.entries {
      return Some(MissingReference("questions", s.matrixQuestion));
    }
    var questionIri := questions.entries[s.matrixQuestion].Iri();
    AddSubclass(parent, questionIri, iri);
    RenderedSnoc(base, StatementHead(s), SubClassOf(iri, NamedClass(questionIri)), parent.children);
    failure := None;
  }

  /** The classification's first six calls. */
  method WriteClassificationHead(parent: Node, c: ClassificationValue)
    modifies parent`children
    ensures parent.children == old(parent.children) + RenderAll(ClassificationHead(c))
  {
    ghost var base := parent.children;
    var iri := c.Iri();
    WriteHeader(parent, iri, c.labelText, c.date);
    ghost var done := Header(iri, c.labelText, c.date);
    AddLiteralProperty(parent, iri, DefinitionProperty, Untyped, c.definition);
    RenderedSnoc(base, done, AnnotationAssertion(DefinitionProperty, iri, Literal(Untyped, c.definition)), parent.children);
    done := done + [AnnotationAssertion(DefinitionProperty, iri, Literal(Untyped, c.definition))];
    AddSubclass(parent, c.ParentIri(), iri);
    RenderedSnoc(base, done, SubClassOf(iri, NamedClass(c.ParentIri())), parent.children);
  }

  /** One individual: three calls. */
  method WriteIndividual(parent: Node, individual: ClassificationInstance)
    modifies parent`children
    ensures parent.children == old(parent.children) + RenderAll(IndividualAxioms(individual))
  {
    ghost var base := parent.children;
    var iri := individual.Iri();
    AddDeclaration(parent, iri, false);
    RenderedFirst(base, Declaration(DeclaredIndividual(iri)), parent.children);
    ghost var done := [Declaration(DeclaredIndividual(iri))];
    AddLiteralProperty(parent, iri, LabelProperty, English, individual.labelText);
    RenderedSnoc(base, done, AnnotationAssertion(LabelProperty, iri, Literal(English, individual.labelText)), parent.children);
    done := done + [AnnotationAssertion(LabelProperty, iri, Literal(English, individual.labelText))];
    AddInstance(parent, individual.parentIri, iri);
    RenderedSnoc(base, done, ClassAssertion(individual.parentIri, iri), parent.children);
  }

  /** The classification's body: its own six calls, then three per
      individual in the order they were added. */
  method WriteClassification(parent: Node, c: ClassificationValue)
    modifies parent`children
    ensures parent.children == old(parent.children) + RenderAll(ClassificationAxioms(c))
  {
    ghost var base := parent.children;
    WriteClassificationHead(parent, c);
    var individuals := c.individuals;
    assert ClassificationHead(c) + IndividualsAxioms(individuals[..0]) == ClassificationHead(c);
    for j := 0 to |individuals|
      invariant parent.children == base + RenderAll(ClassificationHead(c) + IndividualsAxioms(individuals[..j]))
    {
      WriteIndividual(parent, individuals[j]);
      IndividualWritten(base, ClassificationHead(c), individuals, j, parent.children);
    }
    assert individuals[..|individuals|] == individuals;
  }

  /** `for question in question_statements: add_disjoint_classes(…)`. */
  method WriteGroups(parent: Node, groups: Groups)
    requires forall i | 0 <= i < |groups.order| :: groups.order[i] in groups.members
    modifies parent`children
    ensures parent.children == old(parent.children) + RenderAll(DisjointAxioms(groups))
  {
    ghost var disjoint := DisjointAxioms(groups);
    assert disjoint[..0] == [];
    for j := 0 to |groups.order|
      invariant parent.children == old(parent.children) + RenderAll(disjoint[..j])
    {
      AddDisjointClasses(parent, groups.members[groups.order[j]]);
      RenderedSnoc(old(parent.children), disjoint[..j], disjoint[j], parent.children);
      assert disjoint[..j] + [disjoint[j]] == disjoint[..j + 1];
    }
    assert disjoint[..|groups.order|] == disjoint;
  }

  // ------------------------------------------- one turn of each loop

  /** One turn of the measure writer's loop: the `i`-th key, skipped when
      its entity is already added. */
  method MeasureTurn(parent: Node, entities: Table<HarmonisedMeasure>, i: nat, ghost base: seq<Element>)
    requires Iterable(entities) && i < |entities.keys|
    requires parent.children == base + RenderAll(Emit(entities, i, MeasureEmitter(), MeasureAdded()).axioms)
    modifies parent`children
    ensures parent.children == base + RenderAll(Emit(entities, i + 1, MeasureEmitter(), MeasureAdded()).axioms)
  {
    var entity := entities.entries[entities.keys[i]];
    if entity.added {
      return;
    }
    WriteMeasure(parent, entity);
    MeasuresNeverFail(entities, i);
    WrittenStep(entities, i, MeasureEmitter(), MeasureAdded(), base, parent.children);
  }

  method QualityTurn(parent: Node, entities: Table<Quality>, i: nat, ghost base: seq<Element>)
    requires Iterable(entities) && i < |entities.keys|
    requires parent.children == base + RenderAll(Emit(entities, i, QualityEmitter(), QualityAdded()).axioms)
    modifies parent`children
    ensures parent.children == base + RenderAll(Emit(entities, i + 1, QualityEmitter(), QualityAdded()).axioms)
  {
    var entity := entities.entries[entities.keys[i]];
    if entity.added {
      return;
    }
    WriteQuality(parent, entity);
    QualitiesNeverFail(entities, i);
    WrittenStep(entities, i, QualityEmitter(), QualityAdded(), base, parent.children);
  }

  method ComponentTurn(parent: Node, entities: Table<QuestionnaireComponent>, i: nat,
                       measures: Table<HarmonisedMeasure>, qualities: Table<Quality>, ghost base: seq<Element>)
    returns (failure: Option<Error>)
    requires Iterable(entities) && i < |entities.keys|
    requires Emit(entities, i, ComponentEmitter(measures, qualities), ComponentAdded()).failure.None?
    requires parent.children == base + RenderAll(Emit(entities, i, ComponentEmitter(measures, qualities), ComponentAdded()).axioms)
    modifies parent`children
    ensures var e := Emit(entities, i + 1, ComponentEmitter(measures, qualities), ComponentAdded());
      parent.children == base + RenderAll(e.axioms) && failure == e.failure
  {
    var entity := entities.entries[entities.keys[i]];
    if entity.added {
      return None;
    }
    failure := WriteComponent(parent, entity, measures, qualities);
    WrittenStep(entities, i, ComponentEmitter(measures, qualities), ComponentAdded(), base, parent.children);
  }

  method QuestionTurn(parent: Node, entities: Table<Question>, i: nat,
                      components: Table<QuestionnaireComponent>, classifications: Table<Classification>,
                      ghost base: seq<Element>)
    returns (failure: Option<Error>)
    requires Iterable(entities) && i < |entities.keys|
    requires Emit(entities, i, QuestionEmitter(components, classifications), QuestionAdded()).failure.None?
    requires parent.children == base +
      RenderAll(Emit(entities, i, QuestionEmitter(components, classifications), QuestionAdded()).axioms)
    modifies parent`children
    ensures var e := Emit(entities, i + 1, QuestionEmitter(components, classifications), QuestionAdded());
      parent.children == base + RenderAll(e.axioms) && failure == e.failure
  {
    var entity := entities.entries[entities.keys[i]];
    if entity.added {
      return None;
    }
    failure := WriteQuestion(parent, entity, components, classifications);
    WrittenStep(entities, i, QuestionEmitter(components, classifications), QuestionAdded(), base, parent.children);
  }

  /** One turn of the statement writer's loop: the statement joins its
      question's group, then its axioms are written. */
  method StatementTurn(parent: Node, entities: Table<MatrixStatement>, i: nat, questions: Table<Question>,
                       groups: Groups, ghost base: seq<Element>)
    returns (next: Groups, failure: Option<Error>)
    requires Iterable(entities) && i < |entities.keys|
    requires Emit(entities, i, StatementEmitter(questions), StatementAdded()).failure.None?
    requires parent.children == base + RenderAll(Emit(entities, i, StatementEmitter(questions), StatementAdded()).axioms)
    requires groups == Grouped(entities, i)
    modifies parent`children
    ensures var e := Emit(entities, i + 1, StatementEmitter(questions), StatementAdded());
      parent.children == base + RenderAll(e.axioms) && failure == e.failure
    ensures next == Grouped(entities, i + 1)
  {
    var entity := entities.entries[entities.keys[i]];
    if entity.added {
      return groups, None;
    }
    var question := entity.matrixQuestion;
    if question in groups.members {
      next := groups.(members := groups.members[question := groups.members[question] + [entity.Iri()]]);
    } else {
      next := Groups(groups.order + [question], groups.members[question := [entity.Iri()]]);
    }
    failure := WriteStatement(parent, entity, questions);
    WrittenStep(entities, i, StatementEmitter(questions), StatementAdded(), base, parent.children);
  }

  method ClassificationTurn(parent: Node, values: Table<ClassificationValue>, i: nat, ghost base: seq<Element>)
    requires Iterable(values) && i < |values.keys|
    requires parent.children == base + RenderAll(Emit(values, i, ClassificationEmitter(), ClassificationAdded()).axioms)
    modifies parent`children
    ensures parent.children == base + RenderAll(Emit(values, i + 1, ClassificationEmitter(), ClassificationAdded()).axioms)
  {
    var value := values.entries[values.keys[i]];
    if value.added {
      return;
    }
    WriteClassification(parent, value);
    ClassificationsNeverFail(values, i);
    WrittenStep(values, i, ClassificationEmitter(), ClassificationAdded(), base, parent.children);
  }

  // ------------------------------------------------------- the writers

  /** `HarmonisedMeasureXmlWriter`. */
  class MeasureWriter {
    const ontology: Node

    constructor (ontology: Node)
      ensures this.ontology == ontology
    {
      this.ontology := ontology;
    }

    method Write(entities: Table<HarmonisedMeasure>)
      requires Iterable(entities)
      modifies ontology`children
      ensures ontology.children == old(ontology.children) +
        RenderAll(Emit(entities, |entities.keys|, MeasureEmitter(), MeasureAdded()).axioms)
    {
      for i := 0 to |entities.keys|
        invariant ontology.children == old(ontology.children) +
          RenderAll(Emit(entities, i, MeasureEmitter(), MeasureAdded()).axioms)
      {
        MeasureTurn(ontology, entities, i, old(ontology.children));
      }
    }
  }

  /** `QualityXmlWriter`. */
  class QualityWriter {
    const ontology: Node

    constructor (ontology: Node)
      ensures this.ontology == ontology
    {
      this.ontology := ontology;
    }

    method Write(entities: Table<Quality>)
      requires Iterable(entities)
      modifies ontology`children
      ensures ontology.children == old(ontology.children) +
        RenderAll(Emit(entities, |entities.keys|, QualityEmitter(), QualityAdded()).axioms)
    {
      for i := 0 to |entities.keys|
        invariant ontology.children == old(ontology.children) +
          RenderAll(Emit(entities, i, QualityEmitter(), QualityAdded()).axioms)
      {
        QualityTurn(ontology, entities, i, old(ontology.children));
      }
    }
  }

  /** `HarmonisedQuestionarieComponentXmlWriter`: `linked_entities` holds the
      committed measures and qualities. */
  class ComponentWriter {
    const ontology: Node

    constructor (ontology: Node)
      ensures this.ontology == ontology
    {
      this.ontology := ontology;
    }

    method Write(entities: Table<QuestionnaireComponent>, measures: Table<HarmonisedMeasure>, qualities: Table<Quality>)
      returns (failure: Option<Error>)
      requires Iterable(entities)
      modifies ontology`children
      ensures var e := Emit(entities, |entities.keys|, ComponentEmitter(measures, qualities), ComponentAdded());
        ontology.children == old(ontology.children) + RenderAll(e.axioms) && failure == e.failure
    {
      for i := 0 to |entities.keys|
        invariant Emit(entities, i, ComponentEmitter(measures, qualities), ComponentAdded()).failure.None?
        invariant ontology.children == old(ontology.children) +
          RenderAll(Emit(entities, i, ComponentEmitter(measures, qualities), ComponentAdded()).axioms)
      {
        failure := ComponentTurn(ontology, entities, i, measures, qualities, old(ontology.children));
        if failure.Some? {
          EmitFailureSticks(entities, i + 1, |entities.keys|, ComponentEmitter(measures, qualities), ComponentAdded());
          return;
        }
      }
      failure := None;
    }
  }

  /** `QuestionXmlWriter`: `linked_entities` holds the committed components
      and classifications. */
  class QuestionWriter {
    const ontology: Node

    constructor (ontology: Node)
      ensures this.ontology == ontology
    {
      this.ontology := ontology;
    }

    method Write(entities: Table<Question>, components: Table<QuestionnaireComponent>,
                 classifications: Table<Classification>)
      returns (failure: Option<Error>)
      requires Iterable(entities)
      modifies ontology`children
      ensures var e := Emit(entities, |entities.keys|, QuestionEmitter(components, classifications), QuestionAdded());
        ontology.children == old(ontology.children) + RenderAll(e.axioms) && failure == e.failure
    {
      for i := 0 to |entities.keys|
        invariant Emit(entities, i, QuestionEmitter(components, classifications), QuestionAdded()).failure.None?
        invariant ontology.children == old(ontology.children) +
          RenderAll(Emit(entities, i, QuestionEmitter(components, classifications), QuestionAdded()).axioms)
      {
        failure := QuestionTurn(ontology, entities, i, components, classifications, old(ontology.children));
        if failure.Some? {
          EmitFailureSticks(entities, i + 1, |entities.keys|, QuestionEmitter(components, classifications), QuestionAdded());
          return;
        }
      }
      failure := None;
    }
  }

  /** `MatrixStatementXmlWriter`: the statements, collecting the groups in
      `questionStatements` as it goes, then one `DisjointClasses` per group. */
  class StatementWriter {
    const ontology: Node

    constructor (ontology: Node)
      ensures this.ontology == ontology
    {
      this.ontology := ontology;
    }

    method Write(entities: Table<MatrixStatement>, questions: Table<Question>)
      returns (failure: Option<Error>)
      requires Iterable(entities)
      modifies ontology`children
      ensures var d := StatementDocument(entities, questions);
        ontology.children == old(ontology.children) + RenderAll(d.axioms) && failure == d.failure
    {
      var questionStatements := Groups([], map[]);
      for i := 0 to |entities.keys|
        invariant Emit(entities, i, StatementEmitter(questions), StatementAdded()).failure.None?
        invariant ontology.children == old(ontology.children) +
          RenderAll(Emit(entities, i, StatementEmitter(questions), StatementAdded()).axioms)
        invariant questionStatements == Grouped(entities, i)
      {
        questionStatements, failure := StatementTurn(ontology, entities, i, questions, questionStatements, old(ontology.children));
        if failure.Some? {
          EmitFailureSticks(entities, i + 1, |entities.keys|, StatementEmitter(questions), StatementAdded());
          return;
        }
      }
      GroupedFaithful(entities, |entities.keys|);
      WriteGroups(ontology, questionStatements);
      RenderedAppend(old(ontology.children), Emit(entities, |entities.keys|, StatementEmitter(questions), StatementAdded()).axioms,
                     DisjointAxioms(questionStatements), ontology.children);
      failure := None;
    }
  }

  /** `ClassificationXmlWriter`: each classification with the individuals it
      holds when written (nothing changes them while the writer runs, so
      they are read as values first). */
  class ClassificationWriter {
    const ontology: Node

    constructor (ontology: Node)
      ensures this.ontology == ontology
    {
      this.ontology := ontology;
    }

    method Write(entities: Table<Classification>)
      requires Iterable(entities)
      modifies ontology`children
      ensures Iterable(old(Values(entities)))
      ensures ontology.children == old(ontology.children) +
        RenderAll(Emit(old(Values(entities)), |entities.keys|, ClassificationEmitter(), ClassificationAdded()).axioms)
    {
      var values := Values(entities);
      for i := 0 to |values.keys|
        invariant ontology.children == old(ontology.children) +
          RenderAll(Emit(values, i, ClassificationEmitter(), ClassificationAdded()).axioms)
      {
        ClassificationTurn(ontology, values, i, old(ontology.children));
      }
    }
  }
}
