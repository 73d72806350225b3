/**
 * Which attributes of an opened element are stored, and the attribute count recorded on it.
 * Namespace declarations are recognised the way the source does it: by a qualified name that
 * literally starts with "xmlns" (a looser test than section 3 of Namespaces in XML 1.0,
 * which names only `xmlns` and `xmlns:*`).
 */
module AttributeFilter {
  import opened Base
  import opened XmlNames
  import opened Dom

  /** An attribute as the SAX reader reports it: URI, local name, qualified name, value and declared type. */
  datatype Attribute = Attribute(uri: string, localName: string, qname: string, value: string, attrType: string)

  /** Namespace declarations and attributes in the eXist namespace are never stored. */
  predicate Skipped(a: Attribute)
  {
    "xmlns" <= a.qname || a.uri == ExistNamespace
  }

  /** The attribute node appended for a stored attribute; the declared type "ID" (XML 1.0, 3.3.1) flags it. */
  function ToAttrNode(a: Attribute): (n: AttrNode)
    ensures n.isId <==> a.attrType == "ID"
    ensures n.localName == a.localName && n.namespaceURI == a.uri && n.value == a.value
    ensures n.prefix.None? <==> ':' !in a.qname
  {
    AttrNode(a.localName, a.uri, AttrPrefixOf(a.qname), a.value, a.attrType == "ID")
  }

  /** The stored attributes, in document order. */
  function Kept(attrs: seq<Attribute>): (k: seq<Attribute>)
    ensures |k| <= |attrs|
  {
    if attrs == [] then []
    else
      var last := attrs[|attrs| - 1];
      Kept(attrs[..|attrs| - 1]) + (if Skipped(last) then [] else [last])
  }

  /** The number of attributes the filter drops. */
  function SkippedCount(attrs: seq<Attribute>): nat
  {
    if attrs == [] then 0
    else SkippedCount(attrs[..|attrs| - 1]) + (if Skipped(attrs[|attrs| - 1]) then 1 else 0)
  }

  /** The children an element receives for its attributes: one attribute node per stored attribute. */
  function AttrChildren(attrs: seq<Attribute>): (c: seq<Child>)
    ensures |c| == |Kept(attrs)|
  {
    if attrs == [] then []
    else
      var last := attrs[|attrs| - 1];
      AttrChildren(attrs[..|attrs| - 1]) + (if Skipped(last) then [] else [AttrChild(ToAttrNode(last))])
  }

  /** An attribute is stored exactly when it occurs and is not filtered out. */
  lemma {:induction false} KeptExactly(attrs: seq<Attribute>)
    ensures forall a :: a in Kept(attrs) <==> a in attrs && !Skipped(a)
  {
    if attrs != [] {
      var init := attrs[..|attrs| - 1];
      KeptExactly(init);
      assert attrs == init + [attrs[|attrs| - 1]];
    }
  }

  /** Stored and skipped attributes partition the attribute list. */
  lemma {:induction false} KeptCount(attrs: seq<Attribute>)
    ensures |Kept(attrs)| + SkippedCount(attrs) == |attrs|
  {
    if attrs != [] {
      KeptCount(attrs[..|attrs| - 1]);
    }
  }

  /**
   * The first attribute loop of startElement: the attribute count starts at the number of
   * attributes and drops by one per skipped attribute.
   */
  method CountStoredAttributes(attrs: seq<Attribute>) returns (n: int)
    ensures n == |attrs| - SkippedCount(attrs)
    ensures n == |Kept(attrs)|
  {
    n := |attrs|;
    var i := 0;
    while i < |attrs|
      invariant 0 <= i <= |attrs|
      invariant n == |attrs| - SkippedCount(attrs[..i])
    {
      assert attrs[..i + 1][..i] == attrs[..i];
      if Skipped(attrs[i]) {
        n := n - 1;
      }
      i := i + 1;
    }
    assert attrs[..i] == attrs;
    KeptCount(attrs);
  }

  /**
   * The count the element is left with in the source: the second attribute loop decrements the
   * same counter again for each skipped attribute and overwrites the count when it stays positive.
   */
  function AttrCountAsWritten(attrs: seq<Attribute>): (c: int)
    ensures SkippedCount(attrs) == 0 ==> c == |Kept(attrs)|
    ensures |attrs| > 2 * SkippedCount(attrs) ==> c == |Kept(attrs)| - SkippedCount(attrs)
    ensures |attrs| <= 2 * SkippedCount(attrs) ==> c == |Kept(attrs)|
  {
    KeptCount(attrs);
    var first := |attrs| - SkippedCount(attrs);
    var second := first - SkippedCount(attrs);
    if second > 0 then second else first
  }

  /** One namespace declaration next to two ordinary attributes: two are stored, the count says one. */
  lemma AttrCountAsWrittenUndercounts()
    ensures var attrs := [Attribute("", "x", "xmlns:x", "urn:x", "CDATA"),
                          Attribute("", "a", "a", "1", "CDATA"),
                          Attribute("", "b", "b", "2", "CDATA")];
            |Kept(attrs)| == 2 && AttrCountAsWritten(attrs) == 1
  {
    var attrs := [Attribute("", "x", "xmlns:x", "urn:x", "CDATA"),
                  Attribute("", "a", "a", "1", "CDATA"),
                  Attribute("", "b", "b", "2", "CDATA")];
    assert Skipped(attrs[0]) && !Skipped(attrs[1]) && !Skipped(attrs[2]);
    assert attrs[..2] == attrs[..3][..2] && attrs[..1] == attrs[..2][..1];
    assert attrs[..3] == attrs;
    assert SkippedCount(attrs[..1]) == 1;
    assert Kept(attrs[..1]) == [];
  }

  /** Java's `(short)` cast: the value wrapped into [-32768, 32768). */
  function ToShort(n: int): (s: int)
    ensures -32768 <= s < 32768
    ensures (s - n) % 65536 == 0
    ensures -32768 <= n < 32768 ==> s == n
  {
    (n + 32768) % 65536 - 32768
  }
}
