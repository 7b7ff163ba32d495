/** The part of Python's `xml.etree.ElementTree` the ingest uses: elements
    with a tag, attributes, optional text and children, and one mutable
    root (the `Ontology` element) that every writer appends to. */
module Xml {
  import opened Errors

  /** An element once built. Attribute order is not modelled. */
  datatype Element = Element(tag: string, attributes: map<string, string>, text: Option<string>, children: seq<Element>)

  /** A childless, textless element: `ET.SubElement(parent, tag, attributes)`. */
  function Leaf(tag: string, attributes: map<string, string>): Element {
    Element(tag, attributes, None, [])
  }

  /** A textless element with children and no attributes. */
  function Group(tag: string, children: seq<Element>): Element {
    Element(tag, map[], None, children)
  }

  /** A childless element carrying text (`sub.text = value`). */
  function TextLeaf(tag: string, attributes: map<string, string>, text: string): Element {
    Element(tag, attributes, Some(text), [])
  }

  /** The document root, the one element whose children grow in place. */
  class Node {
    const tag: string
    const attributes: map<string, string>
    var children: seq<Element>

    /** `ET.Element(tag, attributes)`. */
    constructor (tag: string, attributes: map<string, string>)
      ensures this.tag == tag && this.attributes == attributes && children == []
    {
      this.tag := tag;
      this.attributes := attributes;
      children := [];
    }

    /** `ET.SubElement(self, …)`: one new last child, the others untouched. */
    method Append(child: Element)
      modifies this`children
      ensures children == old(children) + [child]
    {
      children := children + [child];
    }
  }
}
