/** The identifier authority and the entity records (Import/parser/Entities.py).
    One `Ontology` object owns the counter every entity takes its id from and
    the document root; each entity kind has a fixed parent IRI; a
    Classification owns an append-only list of individuals. */
module Entities {
  import opened Errors
  import opened Text
  import opened Xml

  // --------------------------------------------------------------- IRIs

  const BaseIri := "http://www.semanticweb.org/bkorousicseljak/ontologies/2023/5/Comfocus_v1/COMFOCUS_"
  const ContextIri := "http://www.semanticweb.org/bkorousicseljak/ontologies/2023/5/Comfocus_Contextv4#COMFOCUS_"
  const InstanceBaseIri := "#OWLNamedIndividual_"
  const Creator := "http://orcid.org/0000-0001-7597-2590"

  /** The counter's first value. */
  const InitialCounter: nat := 701

  /** An entity's IRI: the base followed by the id zero-padded to 20 digits. */
  function EntityIri(id: nat): string {
    BaseIri + ZeroPadded(id, 20)
  }

  /** A classification instance's IRI: the prefix followed by `str(id)`. */
  function InstanceIri(id: nat): string {
    InstanceBaseIri + Decimal(id)
  }

  /** The suffix of an entity IRI is a 20-digit string (for ids below 10^20)
      that reads back as the id. */
  lemma EntityIriDecodes(id: nat)
    ensures EntityIri(id)[..|BaseIri|] == BaseIri
    ensures var suffix := EntityIri(id)[|BaseIri|..];
      AllDigits(suffix) && DigitsValue(suffix) == id
      && (id < Pow10(20) ==> |suffix| == 20)
  {
    assert EntityIri(id)[|BaseIri|..] == ZeroPadded(id, 20);
    ZeroPaddedRoundTrip(id, 20);
  }

  /** Distinct ids give distinct entity IRIs. */
  lemma EntityIriInjective(a: nat, b: nat)
    requires EntityIri(a) == EntityIri(b)
    ensures a == b
  {
    CancelPrefix(BaseIri, ZeroPadded(a, 20), ZeroPadded(b, 20));
    ZeroPaddedInjective(a, b, 20);
  }

  /** Distinct ids give distinct instance IRIs. */
  lemma InstanceIriInjective(a: nat, b: nat)
    requires InstanceIri(a) == InstanceIri(b)
    ensures a == b
  {
    CancelPrefix(InstanceBaseIri, Decimal(a), Decimal(b));
    DecimalInjective(a, b);
  }

  /** An instance IRI is never an entity IRI (they start differently). */
  lemma InstanceIriIsNotEntityIri(a: nat, b: nat)
    ensures InstanceIri(a) != EntityIri(b)
  {
    EntityIriPositions(b);
    if |InstanceIri(a)| > 70 {
      assert |InstanceBaseIri| == 20;
      assert InstanceIri(a)[70] == Decimal(a)[50];
    }
  }

  // ------------------------------------------------------- parent IRIs

  /** The entity kinds, one per entity class of the source. */
  datatype Kind =
    | MeasureKind | QualityKind | ComponentKind | ClassificationKind
    | SingleChoiceKind | OpenKind | MatrixQuestionKind | MatrixStatementKind

  /** The leading zeros of a three-digit id padded to twenty digits. */
  const SeventeenZeros := "00000000000000000"

  /** The fixed parent IRI of each kind; a matrix statement has none (its
      parent is its question, found when it is written). */
  function KindParentIri(kind: Kind): string {
    match kind
    case MeasureKind => "#OWLClass_832ab481_6bdd_49e2_86dd_6042773f6aef"
    case QualityKind => BaseIri + (SeventeenZeros + "610")
    case ComponentKind => BaseIri + (SeventeenZeros + "549")
    case ClassificationKind => ContextIri + "00000000000000000002"
    case SingleChoiceKind => BaseIri + (SeventeenZeros + "388")
    case OpenKind => BaseIri + (SeventeenZeros + "358")
    case MatrixQuestionKind => BaseIri + (SeventeenZeros + "533")
    case MatrixStatementKind => ""
  }

  /** `{:020d}` of a three-digit number: seventeen zeros, then its digits. */
  lemma ThreeDigitPadding(n: nat)
    requires 100 <= n < 1000
    ensures Decimal(n) == [DigitChar(n / 100), DigitChar(n / 10 % 10), DigitChar(n % 10)]
    ensures ZeroPadded(n, 20) == "00000000000000000" + Decimal(n)
  {
    var d1, d2, d3 := n / 100, n / 10 % 10, n % 10;
    assert n / 10 / 10 == d1 && n / 10 >= 10;
    assert Decimal(n / 10) == Decimal(d1) + [DigitChar(d2)];
    assert Zeros(17) == "00000000000000000";
  }

  /** Every kind's parent IRI is its own; only a matrix statement's is empty. */
  lemma ParentIrisDistinct(k1: Kind, k2: Kind)
    requires k1 != k2
    ensures KindParentIri(k1) != KindParentIri(k2)
    ensures KindParentIri(k1) == "" <==> k1 == MatrixStatementKind
  {
    OtherParentIris();
    var fixed := {QualityKind, ComponentKind, SingleChoiceKind, OpenKind, MatrixQuestionKind};
    if k1 in fixed {
      FixedParentIri(k1);
      EntityIriPositions(FixedNumber(k1));
    }
    if k2 in fixed {
      FixedParentIri(k2);
      EntityIriPositions(FixedNumber(k2));
    }
    if k1 in fixed && k2 in fixed && KindParentIri(k1) == KindParentIri(k2) {
      EntityIriInjective(FixedNumber(k1), FixedNumber(k2));
    }
  }

  /** The number a fixed parent IRI on the entity base stands for. */
  function FixedNumber(kind: Kind): nat
    requires kind in {QualityKind, ComponentKind, SingleChoiceKind, OpenKind, MatrixQuestionKind}
  {
    match kind
    case QualityKind => 610
    case ComponentKind => 549
    case SingleChoiceKind => 388
    case OpenKind => 358
    case MatrixQuestionKind => 533
  }

  /** The padded suffixes written out in the source are `{:020d}` of the
      numbers they stand for. */
  lemma FixedParentIri(kind: Kind)
    requires kind in {QualityKind, ComponentKind, SingleChoiceKind, OpenKind, MatrixQuestionKind}
    ensures KindParentIri(kind) == EntityIri(FixedNumber(kind))
  {
    match kind
    case QualityKind => PaddedParentIri(6, 1, 0);
    case ComponentKind => PaddedParentIri(5, 4, 9);
    case SingleChoiceKind => PaddedParentIri(3, 8, 8);
    case OpenKind => PaddedParentIri(3, 5, 8);
    case MatrixQuestionKind => PaddedParentIri(5, 3, 3);
  }

  /** The entity IRI of the three-digit number `d1 d2 d3` is the base,
      seventeen zeros and those digits. */
  lemma PaddedParentIri(d1: nat, d2: nat, d3: nat)
    requires 0 < d1 < 10 && d2 < 10 && d3 < 10
    ensures BaseIri + (SeventeenZeros + [DigitChar(d1), DigitChar(d2), DigitChar(d3)])
         == EntityIri(100 * d1 + 10 * d2 + d3)
  {
    var n := 100 * d1 + 10 * d2 + d3;
    assert n / 100 == d1 && n / 10 % 10 == d2 && n % 10 == d3;
    ThreeDigitPadding(n);
  }

  /** The two parents not on the entity base differ from every entity IRI:
      the measure parent is shorter, the classification parent differs at
      position 70 (`Comfocus_Contextv4` against `Comfocus_v1`). */
  lemma OtherParentIris()
    ensures |KindParentIri(MeasureKind)| == 46
    ensures |KindParentIri(ClassificationKind)| > 70 && KindParentIri(ClassificationKind)[70] == 'C'
  {
    assert ContextIri[70] == 'C';
  }

  lemma EntityIriPositions(id: nat)
    ensures |EntityIri(id)| >= 102 && EntityIri(id)[70] == 'v'
  {
    assert |BaseIri| == 82 && BaseIri[70] == 'v';
    ZeroPaddedRoundTrip(id, 20);
    if id >= Pow10(20) {
      DecimalLength(id, 20);
    }
  }

  /** No entity numbered from the counter (which starts at 701) takes a
      parent's IRI. */
  lemma EntityIriIsNotParentIri(id: nat, kind: Kind)
    requires id >= InitialCounter
    ensures EntityIri(id) != KindParentIri(kind)
  {
    EntityIriPositions(id);
    OtherParentIris();
    if kind in {QualityKind, ComponentKind, SingleChoiceKind, OpenKind, MatrixQuestionKind} {
      FixedParentIri(kind);
      if EntityIri(id) == KindParentIri(kind) {
        EntityIriInjective(id, FixedNumber(kind));
      }
    }
  }

  // ------------------------------------------------------ entity records
  // `added` is the per-entity "already emitted" flag; every constructor of
  // the source defaults it to False and the parsers never pass it.

  datatype HarmonisedMeasure = HarmonisedMeasure(id: nat, labelText: string, date: string, added: bool) {
    function Iri(): string { EntityIri(id) }
    function ParentIri(): string { KindParentIri(MeasureKind) }
  }

  datatype Quality = Quality(id: nat, labelText: string, date: string, harmonisedMeasure: string, added: bool) {
    function Iri(): string { EntityIri(id) }
    function ParentIri(): string { KindParentIri(QualityKind) }
  }

  datatype QuestionnaireComponent = QuestionnaireComponent(
    id: nat, labelText: string, date: string,
    theoreticalBackground: string, definition: string,
    harmonisedMeasure: string, quality: string, added: bool)
  {
    function Iri(): string { EntityIri(id) }
    function ParentIri(): string { KindParentIri(ComponentKind) }
  }

  /** The three question classes of the source differ only in their parent. */
  datatype QuestionVariant = SingleChoiceQuestion | OpenQuestion | MatrixQuestion {
    function Kind(): Kind {
      match this
      case SingleChoiceQuestion => SingleChoiceKind
      case OpenQuestion => OpenKind
      case MatrixQuestion => MatrixQuestionKind
    }
  }

  datatype Question = Question(
    variant: QuestionVariant, id: nat, labelText: string, date: string,
    questionType: Option<QuestionType>, hasQuestion: string,
    linkedClassification: string, harmonisedComponent: string, added: bool)
  {
    function Iri(): string { EntityIri(id) }
    function ParentIri(): string { KindParentIri(variant.Kind()) }
  }

  datatype MatrixStatement = MatrixStatement(
    id: nat, labelText: string, date: string, description: string,
    matrixQuestion: string, harmonisedComponent: string, added: bool)
  {
    function Iri(): string { EntityIri(id) }
    function ParentIri(): string { KindParentIri(MatrixStatementKind) }
  }

  /** An individual of a classification; `parentIri` is its classification's IRI. */
  datatype ClassificationInstance = ClassificationInstance(id: nat, labelText: string, parentIri: string, date: string) {
    function Iri(): string { InstanceIri(id) }
  }

  /** A classification as a value: what the object below holds at one moment. */
  datatype ClassificationValue = ClassificationValue(
    id: nat, labelText: string, date: string, definition: string, added: bool,
    individuals: seq<ClassificationInstance>)
  {
    function Iri(): string { EntityIri(id) }
    function ParentIri(): string { KindParentIri(ClassificationKind) }
  }

  /** A classification: the one entity the source mutates after building it. */
  class Classification {
    const id: nat
    const labelText: string
    const date: string
    const definition: string
    const added: bool
    var individuals: seq<ClassificationInstance>

    /** A new classification has no individuals and is not yet emitted. */
    constructor (id: nat, labelText: string, definition: string, date: string)
      ensures this.id == id && this.labelText == labelText && this.definition == definition && this.date == date
      ensures !added && individuals == []
    {
      this.id := id;
      this.labelText := labelText;
      this.definition := definition;
      this.date := date;
      added := false;
      individuals := [];
    }

    function Iri(): string { EntityIri(id) }

    function Value(): ClassificationValue
      reads this
    {
      ClassificationValue(id, labelText, date, definition, added, individuals)
    }

    /** `add_individual`: one more individual at the end, the earlier ones kept. */
    method AddIndividual(individual: ClassificationInstance)
      modifies this`individuals
      ensures individuals == old(individuals) + [individual]
      ensures |individuals| == |old(individuals)| + 1 && individuals[..|old(individuals)|] == old(individuals)
    {
      individuals := individuals + [individual];
    }
  }

  // -------------------------------------------------------- question type

  datatype QuestionType = Bipolar | Matrix | MultipleChoice | Open | SingleChoice {
    /** The string each enum member stands for. */
    function Value(): string {
      match this
      case Bipolar => "Bipolar"
      case Matrix => "Matrix"
      case MultipleChoice => "Multiple choice"
      case Open => "Open"
      case SingleChoice => "Single choice"
    }
  }

  /** `QuestionType.get_id`: exact string comparison, `None` for anything else. */
  function GetQuestionType(value: string): Option<QuestionType> {
    if value == "Bipolar" then Some(Bipolar)
    else if value == "Matrix" then Some(Matrix)
    else if value == "Multiple choice" then Some(MultipleChoice)
    else if value == "Open" then Some(Open)
    else if value == "Single choice" then Some(SingleChoice)
    else None
  }

  /** `get_id` recognises exactly the five member strings, each as its own
      member: matching is exact, so case or surrounding spaces make it fail. */
  lemma GetQuestionTypeExact(value: string, t: QuestionType)
    ensures GetQuestionType(value) == Some(t) <==> value == t.Value()
  {
  }

  /** An illustration of `GetQuestionTypeExact` on the near misses a
      spreadsheet is likely to hold. */
  lemma GetQuestionTypeIsCaseSensitive()
    ensures GetQuestionType("open") == None
    ensures GetQuestionType(" Open") == None
    ensures GetQuestionType("Single Choice") == None
  {
  }

  // ------------------------------------------------------ the ontology

  /** `Ontology.NAMESPACES`, the root element's attributes. */
  const Namespaces: map<string, string> := map[
    "xmlns" := "http://www.w3.org/2002/07/owl#",
    "xml:base" := "http://www.semanticweb.org/bkorousicseljak/ontologies/2023/5/Comfocus_Contextv4",
    "xmlns:rdf" := "http://www.w3.org/1999/02/22-rdf-syntax-ns#",
    "xmlns:xml" := "http://www.w3.org/XML/1998/namespace",
    "xmlns:xsd" := "http://www.w3.org/2001/XMLSchema#",
    "xmlns:rdfs" := "http://www.w3.org/2000/01/rdf-schema#",
    "ontologyIRI" := "http://www.semanticweb.org/bkorousicseljak/ontologies/2023/5/Comfocus_Contextv4",
    "versionIRI" := "http://www.semanticweb.org/bkorousicseljak/ontologies/2023/5/Comfocus_v1/1.0.1"]

  /** The keys of `Ontology.PREFIXES`, in the dictionary's order. */
  const PrefixKeys: seq<string> := [
    "base", "dc", "obo", "owl", "rdf", "xml", "xsd", "foaf", "rdfs", "terms",
    "schema", "OntoV24", "oboInOwl", "Comfocus_Contextv4"]

  /** `Ontology.PREFIXES`. */
  const PrefixIris: map<string, string> := map[
    "base" := "http://www.semanticweb.org/bkorousicseljak/ontologies/2023/5/Comfocus_Contextv4#",
    "dc" := "http://purl.org/dc/elements/1.1/",
    "obo" := "http://purl.obolibrary.org/obo/",
    "owl" := "http://www.w3.org/2002/07/owl#",
    "rdf" := "http://www.w3.org/1999/02/22-rdf-syntax-ns#",
    "xml" := "http://www.w3.org/XML/1998/namespace",
    "xsd" := "http://www.w3.org/2001/XMLSchema#",
    "foaf" := "http://xmlns.com/foaf/0.1/",
    "rdfs" := "http://www.w3.org/2000/01/rdf-schema#",
    "terms" := "http://purl.org/dc/terms/",
    "schema" := "https://schema.org/",
    "OntoV24" := "http://www.semanticweb.org/clarisse/ontologies/2023/5/OntoV24#",
    "oboInOwl" := "http://www.geneontology.org/formats/oboInOwl#",
    "Comfocus_Contextv4" := "http://www.semanticweb.org/bkorousicseljak/ontologies/2023/5/Comfocus_Contextv4#"]

  /** The `Prefix` element for one key: the `base` entry is the unnamed prefix. */
  function PrefixElement(key: string): Element
    requires key in PrefixIris
  {
    Leaf("Prefix", map["name" := if key == "base" then "" else key, "IRI" := PrefixIris[key]])
  }

  function PrefixElements(keys: seq<string>): (es: seq<Element>)
    requires forall i | 0 <= i < |keys| :: keys[i] in PrefixIris
    ensures |es| == |keys|
  {
    seq(|keys|, i requires 0 <= i < |keys| => PrefixElement(keys[i]))
  }

  /** One `Prefix` per entry, in order, each naming its key and IRI, except
      that the `base` entry gets the empty name. */
  lemma PrefixElementsNamed(i: nat)
    requires i < |PrefixKeys|
    ensures PrefixElements(PrefixKeys)[i].tag == "Prefix"
    ensures PrefixElements(PrefixKeys)[i].attributes["IRI"] == PrefixIris[PrefixKeys[i]]
    ensures PrefixElements(PrefixKeys)[i].attributes["name"] == if i == 0 then "" else PrefixKeys[i]
  {
  }

  /** The loop of `get_ontology` that writes one `Prefix` per entry. */
  method AddPrefixes(node: Node)
    requires node.children == []
    modifies node`children
    ensures node.children == PrefixElements(PrefixKeys)
  {
    for i := 0 to |PrefixKeys|
      invariant node.children == PrefixElements(PrefixKeys[..i])
    {
      var key := PrefixKeys[i];
      assert PrefixKeys[..i + 1] == PrefixKeys[..i] + [key];
      if key == "base" {
        node.Append(Leaf("Prefix", map["name" := "", "IRI" := PrefixIris["base"]]));
      } else {
        node.Append(Leaf("Prefix", map["name" := key, "IRI" := PrefixIris[key]]));
      }
    }
    assert PrefixKeys[..|PrefixKeys|] == PrefixKeys;
  }

  /** The shared state of one run: the identifier counter and the document. */
  class Ontology {
    var counter: nat
    /** `ontology` in the source (`tree` only wraps it for writing). */
    var root: Node?

    constructor ()
      ensures counter == InitialCounter && root == null
    {
      counter := InitialCounter;
      root := null;
    }

    /** `get_counter`: the current value; nothing changes. */
    method GetCounter() returns (c: nat)
      ensures c == counter
    {
      c := counter;
    }

    /** `update_counter`: one more. */
    method UpdateCounter()
      modifies this`counter
      ensures counter == old(counter) + 1
    {
      counter := counter + 1;
    }

    /** `get_ontology`: the first call builds the root with one `Prefix` per
        prefix entry; later calls return the same root and add nothing. */
    method GetOntology() returns (r: Node)
      modifies this`root
      ensures root == r
      ensures old(root) == null ==>
        fresh(r) && r.tag == "Ontology" && r.attributes == Namespaces && r.children == PrefixElements(PrefixKeys)
      ensures old(root) != null ==> r == old(root) && r.children == old(root.children)
    {
      if root == null {
        var node := new Node("Ontology", Namespaces);
        AddPrefixes(node);
        root := node;
      }
      r := root;
    }
  }
}
