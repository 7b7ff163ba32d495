/** The OWL 2 axioms the ingest writes, in the abstract syntax of the OWL 2
    Structural Specification, and their OWL 2 XML Serialization as elements.
    `Render` is what the element builders emit; `Parse` reads an element
    back, and the round trip shows the rendering keeps every part of the
    axiom in its place (the subclass before the superclass, the property
    before the filler, the class before the individual). */
module Owl {
  import opened Errors
  import opened Xml

  /** What a Declaration introduces (section 5.8). */
  datatype Declared = DeclaredClass(iri: string) | DeclaredIndividual(iri: string)

  /** The superclass expressions written: a named class, an existential or a
      universal restriction (sections 8.2.1 and 8.2.2), or an exact
      cardinality restriction whose attributes carry the cardinality
      (section 8.3.3). */
  datatype ClassExpression =
    | NamedClass(iri: string)
    | SomeValuesFrom(property: string, filler: string)
    | AllValuesFrom(property: string, filler: string)
    | ExactCardinality(attributes: map<string, string>, property: string, filler: string)

  /** The value of an annotation assertion: a literal with its language or
      datatype attributes, or an IRI. */
  datatype AnnotationValue = Literal(attributes: map<string, string>, text: string) | IriValue(iri: string)

  datatype Axiom =
    | Declaration(entity: Declared)                                  // section 5.8
    | SubClassOf(subClass: string, superClass: ClassExpression)      // section 9.1.1
    | DisjointClasses(classes: seq<string>)                          // section 9.1.3
    | ClassAssertion(cls: string, individual: string)                // section 9.6.3
    | AnnotationAssertion(property: map<string, string>, subject: string, value: AnnotationValue)  // section 10.2.1

  function IriAttribute(iri: string): map<string, string> {
    map["IRI" := iri]
  }

  function ClassElement(iri: string): Element {
    Leaf("Class", IriAttribute(iri))
  }

  function ClassElements(iris: seq<string>): (es: seq<Element>)
    ensures |es| == |iris|
  {
    seq(|iris|, i requires 0 <= i < |iris| => ClassElement(iris[i]))
  }

  function RenderClassExpression(c: ClassExpression): Element {
    match c
    case NamedClass(iri) => ClassElement(iri)
    case SomeValuesFrom(p, f) =>
      Group("ObjectSomeValuesFrom", [Leaf("ObjectProperty", IriAttribute(p)), ClassElement(f)])
    case AllValuesFrom(p, f) =>
      Group("ObjectAllValuesFrom", [Leaf("ObjectProperty", IriAttribute(p)), ClassElement(f)])
    case ExactCardinality(a, p, f) =>
      Element("ObjectExactCardinality", a, None, [Leaf("ObjectProperty", IriAttribute(p)), ClassElement(f)])
  }

  function RenderValue(v: AnnotationValue): Element {
    match v
    case Literal(a, t) => TextLeaf("Literal", a, t)
    case IriValue(iri) => TextLeaf("IRI", map[], iri)
  }

  /** The OWL 2 XML form of an axiom. */
  function Render(a: Axiom): Element {
    match a
    case Declaration(DeclaredClass(iri)) => Group("Declaration", [ClassElement(iri)])
    case Declaration(DeclaredIndividual(iri)) => Group("Declaration", [Leaf("NamedIndividual", IriAttribute(iri))])
    case SubClassOf(sub, sup) => Group("SubClassOf", [ClassElement(sub), RenderClassExpression(sup)])
    case DisjointClasses(iris) => Group("DisjointClasses", ClassElements(iris))
    case ClassAssertion(c, i) => Group("ClassAssertion", [ClassElement(c), Leaf("NamedIndividual", IriAttribute(i))])
    case AnnotationAssertion(p, s, v) =>
      Group("AnnotationAssertion", [Leaf("AnnotationProperty", p), TextLeaf("IRI", map[], s), RenderValue(v)])
  }

  /** The elements of a sequence of axioms, in order. */
  function RenderAll(axioms: seq<Axiom>): (es: seq<Element>)
    ensures |es| == |axioms|
    decreases |axioms|
  {
    if axioms == [] then []
    else RenderAll(axioms[..|axioms| - 1]) + [Render(axioms[|axioms| - 1])]
  }

  /** The `i`-th element is the rendering of the `i`-th axiom. */
  lemma {:induction false} RenderAllAt(axioms: seq<Axiom>, i: nat)
    requires i < |axioms|
    ensures RenderAll(axioms)[i] == Render(axioms[i])
    decreases |axioms|
  {
    if i < |axioms| - 1 {
      RenderAllAt(axioms[..|axioms| - 1], i);
    }
  }

  /** Rendering distributes over concatenation. */
  lemma {:induction false} RenderAllAppend(a: seq<Axiom>, b: seq<Axiom>)
    ensures RenderAll(a + b) == RenderAll(a) + RenderAll(b)
    decreases |b|
  {
    if b != [] {
      var m := |b| - 1;
      assert (a + b)[..|a + b| - 1] == a + b[..m];
      RenderAllAppend(a, b[..m]);
    } else {
      assert a + b == a;
    }
  }

  // ------------------------------------------------------------- reading

  /** The IRI of a childless, textless element with tag `tag` whose only
      attribute is `IRI`. */
  function RefIri(e: Element, tag: string): Option<string> {
    if e.tag == tag && "IRI" in e.attributes && e.attributes == IriAttribute(e.attributes["IRI"])
       && e.text == None && e.children == []
    then Some(e.attributes["IRI"])
    else None
  }

  function ParseClassIris(es: seq<Element>): Option<seq<string>>
    decreases |es|
  {
    if es == [] then Some([])
    else match (RefIri(es[0], "Class"), ParseClassIris(es[1..]))
      case (Some(i), Some(rest)) => Some([i] + rest)
      case _ => None
  }

  function ParseRestriction(e: Element): Option<(string, string)> {
    if |e.children| == 2 && e.text == None then
      match (RefIri(e.children[0], "ObjectProperty"), RefIri(e.children[1], "Class"))
      case (Some(p), Some(f)) => Some((p, f))
      case _ => None
    else None
  }

  function ParseClassExpression(e: Element): Option<ClassExpression> {
    if e.tag == "Class" then
      match RefIri(e, "Class")
      case Some(iri) => Some(NamedClass(iri))
      case None => None
    else if e.tag == "ObjectSomeValuesFrom" && e.attributes == map[] then
      match ParseRestriction(e)
      case Some((p, f)) => Some(SomeValuesFrom(p, f))
      case None => None
    else if e.tag == "ObjectAllValuesFrom" && e.attributes == map[] then
      match ParseRestriction(e)
      case Some((p, f)) => Some(AllValuesFrom(p, f))
      case None => None
    else if e.tag == "ObjectExactCardinality" then
      match ParseRestriction(e)
      case Some((p, f)) => Some(ExactCardinality(e.attributes, p, f))
      case None => None
    else None
  }

  function ParseValue(e: Element): Option<AnnotationValue> {
    if e.children != [] || e.text.None? then None
    else if e.tag == "Literal" then Some(Literal(e.attributes, e.text.value))
    else if e.tag == "IRI" && e.attributes == map[] then Some(IriValue(e.text.value))
    else None
  }

  /** Reads an OWL 2 XML element back as the axiom it denotes, if any. */
  function Parse(e: Element): Option<Axiom> {
    if e.attributes != map[] || e.text != None then None
    else if e.tag == "Declaration" && |e.children| == 1 then
      match (RefIri(e.children[0], "Class"), RefIri(e.children[0], "NamedIndividual"))
      case (Some(iri), _) => Some(Declaration(DeclaredClass(iri)))
      case (_, Some(iri)) => Some(Declaration(DeclaredIndividual(iri)))
      case _ => None
    else if e.tag == "SubClassOf" && |e.children| == 2 then
      match (RefIri(e.children[0], "Class"), ParseClassExpression(e.children[1]))
      case (Some(sub), Some(sup)) => Some(SubClassOf(sub, sup))
      case _ => None
    else if e.tag == "DisjointClasses" then
      match ParseClassIris(e.children)
      case Some(iris) => Some(DisjointClasses(iris))
      case None => None
    else if e.tag == "ClassAssertion" && |e.children| == 2 then
      match (RefIri(e.children[0], "Class"), RefIri(e.children[1], "NamedIndividual"))
      case (Some(c), Some(i)) => Some(ClassAssertion(c, i))
      case _ => None
    else if e.tag == "AnnotationAssertion" && |e.children| == 3 then
      var p := e.children[0];
      var s := e.children[1];
      if p.tag == "AnnotationProperty" && p.text == None && p.children == []
         && s.tag == "IRI" && s.attributes == map[] && s.text.Some? && s.children == []
      then
        match ParseValue(e.children[2])
        case Some(v) => Some(AnnotationAssertion(p.attributes, s.text.value, v))
        case None => None
      else None
    else None
  }

  lemma {:induction false} ParseClassIrisRoundTrip(iris: seq<string>)
    ensures ParseClassIris(ClassElements(iris)) == Some(iris)
    decreases |iris|
  {
    if iris != [] {
      assert ClassElements(iris)[1..] == ClassElements(iris[1..]);
      ParseClassIrisRoundTrip(iris[1..]);
      assert [iris[0]] + iris[1..] == iris;
    }
  }

  /** Every axiom the builders render reads back as itself: the rendering
      is faithful and no two axioms share an element. */
  lemma ParseRender(a: Axiom)
    ensures Parse(Render(a)) == Some(a)
  {
    match a
    case Declaration(d) => ParseRenderDeclaration(d);
    case SubClassOf(sub, sup) => ParseRenderSubClassOf(sub, sup);
    case DisjointClasses(iris) => ParseClassIrisRoundTrip(iris);
    case ClassAssertion(c, i) =>
    case AnnotationAssertion(p, s, v) => ParseRenderAnnotation(p, s, v);
  }

  lemma ParseRenderDeclaration(d: Declared)
    ensures Parse(Render(Declaration(d))) == Some(Declaration(d))
  {
  }

  lemma ParseRenderSubClassOf(sub: string, sup: ClassExpression)
    ensures Parse(Render(SubClassOf(sub, sup))) == Some(SubClassOf(sub, sup))
  {
    ParseClassExpressionRender(sup);
  }

  lemma ParseClassExpressionRender(c: ClassExpression)
    ensures ParseClassExpression(RenderClassExpression(c)) == Some(c)
  {
  }

  lemma ParseRenderAnnotation(p: map<string, string>, s: string, v: AnnotationValue)
    ensures Parse(Render(AnnotationAssertion(p, s, v))) == Some(AnnotationAssertion(p, s, v))
  {
    assert ParseValue(RenderValue(v)) == Some(v);
  }

  lemma RenderInjective(a: Axiom, b: Axiom)
    requires Render(a) == Render(b)
    ensures a == b
  {
    ParseRender(a);
    ParseRender(b);
  }
}
