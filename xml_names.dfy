/** Qualified names as the SAX callbacks of the ingestion parser see them. */
module XmlNames {
  import opened Base

  /** The eXist namespace: attributes in it and prefixes bound to it are never stored. */
  const ExistNamespace: string := "http://exist.sourceforge.net/NS/exist"

  /** An element name: local part, namespace URI and prefix ("" when there is none). */
  datatype QName = QName(localName: string, namespaceURI: string, prefix: string)

  /** The node name of an element, `prefix:local` or just `local`. */
  function NodeName(q: QName): string
  {
    if q.prefix == "" then q.localName else q.prefix + ":" + q.localName
  }

  /** The element prefix taken from a qualified name: the text before its first ':', else "". */
  function PrefixOf(qname: string): (p: string)
    ensures ':' !in p
    ensures ':' in qname ==> p + ":" <= qname
    ensures ':' !in qname ==> p == ""
  {
    var i := IndexOf(qname, ':');
    if i > -1 then
      assert qname[..i] + ":" == qname[..i + 1];
      qname[..i]
    else ""
  }

  /** The attribute prefix taken from a qualified name: like PrefixOf, but null when there is no ':'. */
  function AttrPrefixOf(qname: string): (p: Option<string>)
    ensures p.None? <==> ':' !in qname
    ensures p.Some? ==> p.value == PrefixOf(qname)
  {
    if ':' in qname then Some(PrefixOf(qname)) else None
  }

  /**
   * What a namespace-aware SAX reader guarantees about the names it reports for an element:
   * the qualified name is the prefix (if any) joined to the local name, and it is an XML name,
   * so it holds no '/'.
   */
  predicate ConsistentNames(localName: string, qname: string)
  {
    '/' !in qname && NodeName(QName(localName, "", PrefixOf(qname))) == qname
  }
}
