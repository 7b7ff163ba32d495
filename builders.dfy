/** The static element builders of `XmlWriter` (Import/parser/XmlWriter.py:10-88).
    Each appends exactly one new last child to `parent_node` and leaves the
    children already there untouched; the child is the OWL 2 XML form of one
    axiom (`Owl.Render`), so `Owl.ParseRender` says it can be read back. */
module Builders {
  import opened Errors
  import opened Xml
  import opened Owl

  /** `add_declaration`: a `Class` or a `NamedIndividual` declaration. */
  method AddDeclaration(parent: Node, iri: string, isClass: bool)
    modifies parent`children
    ensures parent.children == old(parent.children) +
      [Render(Declaration(if isClass then DeclaredClass(iri) else DeclaredIndividual(iri)))]
  {
    var entity: Element;
    if isClass {
      entity := Leaf("Class", map["IRI" := iri]);
    } else {
      entity := Leaf("NamedIndividual", map["IRI" := iri]);
    }
    parent.Append(Group("Declaration", [entity]));
  }

  /** `add_subclass`: the child class first, then the parent class. */
  method AddSubclass(parent: Node, parentIri: string, childIri: string)
    modifies parent`children
    ensures parent.children == old(parent.children) + [Render(SubClassOf(childIri, NamedClass(parentIri)))]
  {
    parent.Append(Group("SubClassOf", [Leaf("Class", map["IRI" := childIri]), Leaf("Class", map["IRI" := parentIri])]));
  }

  /** `add_disjoint_classes`: one `Class` per IRI, in list order. */
  method AddDisjointClasses(parent: Node, iris: seq<string>)
    modifies parent`children
    ensures parent.children == old(parent.children) + [Render(DisjointClasses(iris))]
  {
    var classes: seq<Element> := [];
    for i := 0 to |iris|
      invariant classes == ClassElements(iris[..i])
    {
      classes := classes + [Leaf("Class", map["IRI" := iris[i]])];
    }
    assert iris[..|iris|] == iris;
    parent.Append(Group("DisjointClasses", classes));
  }

  /** `add_subclass_some_values`: the child class is a subclass of the
      existential (`some`) or universal restriction on the property whose
      filler is the parent class. */
  method AddSubclassSomeValues(parent: Node, parentIri: string, propertyIri: string, childIri: string, some: bool)
    modifies parent`children
    ensures parent.children == old(parent.children) +
      [Render(SubClassOf(childIri, if some then SomeValuesFrom(propertyIri, parentIri) else AllValuesFrom(propertyIri, parentIri)))]
  {
    var restriction := Group(if some then "ObjectSomeValuesFrom" else "ObjectAllValuesFrom",
                             [Leaf("ObjectProperty", map["IRI" := propertyIri]), Leaf("Class", map["IRI" := parentIri])]);
    parent.Append(Group("SubClassOf", [Leaf("Class", map["IRI" := childIri]), restriction]));
  }

  /** `add_subclass_exact_cardinality`: the same shape with an exact
      cardinality restriction carrying `attributes`. */
  method AddSubclassExactCardinality(parent: Node, parentIri: string, propertyIri: string, childIri: string,
                                     attributes: map<string, string>)
    modifies parent`children
    ensures parent.children == old(parent.children) +
      [Render(SubClassOf(childIri, ExactCardinality(attributes, propertyIri, parentIri)))]
  {
    var restriction := Element("ObjectExactCardinality", attributes, None,
                               [Leaf("ObjectProperty", map["IRI" := propertyIri]), Leaf("Class", map["IRI" := parentIri])]);
    parent.Append(Group("SubClassOf", [Leaf("Class", map["IRI" := childIri]), restriction]));
  }

  /** `add_literal_property`: an annotation of `iri` whose value is a
      literal. The literal always carries `propertyType` as its attributes,
      possibly none: `dict.items()` is never `None`, so the other branch of
      the source cannot be taken. */
  method AddLiteralProperty(parent: Node, iri: string, property: map<string, string>,
                            propertyType: map<string, string>, value: string)
    modifies parent`children
    ensures parent.children == old(parent.children) +
      [Render(AnnotationAssertion(property, iri, Literal(propertyType, value)))]
  {
    var literal := TextLeaf("Literal", propertyType, value);
    parent.Append(Group("AnnotationAssertion", [Leaf("AnnotationProperty", property), TextLeaf("IRI", map[], iri), literal]));
  }

  /** `add_object_property`: an annotation of `iri` whose value is an IRI;
      the subject comes first, then the value. */
  method AddObjectProperty(parent: Node, iri: string, property: map<string, string>, value: string)
    modifies parent`children
    ensures parent.children == old(parent.children) + [Render(AnnotationAssertion(property, iri, IriValue(value)))]
  {
    parent.Append(Group("AnnotationAssertion",
                        [Leaf("AnnotationProperty", property), TextLeaf("IRI", map[], iri), TextLeaf("IRI", map[], value)]));
  }

  /** `add_instance`: the class first, then the individual. */
  method AddInstance(parent: Node, parentIri: string, individualIri: string)
    modifies parent`children
    ensures parent.children == old(parent.children) + [Render(ClassAssertion(parentIri, individualIri))]
  {
    parent.Append(Group("ClassAssertion", [Leaf("Class", map["IRI" := parentIri]), Leaf("NamedIndividual", map["IRI" := individualIri])]));
  }
}
