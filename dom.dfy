/**
 * The in-memory nodes the ingestion parser builds. An element object is identified by an
 * ElemId (its slot in the parser's element arena), so that reuse of a pooled element is visible.
 */
module Dom {
  import opened Base
  import opened XmlNames

  type ElemId = nat

  /** An attribute as appended to its element: its name parts, value and the ID-type flag. */
  datatype AttrNode = AttrNode(localName: string, namespaceURI: string, prefix: Option<string>,
                               value: string, isId: bool)

  /** A child appended to an element, in document order. */
  datatype Child =
    | TextChild(data: string)
    | CommentChild(data: string)
    | PIChild(target: string, data: string)
    | ElementChild(id: ElemId, name: QName)
    | AttrChild(attr: AttrNode)

  /** The state of an element object: name, global id, attribute count, namespace mappings, children. */
  datatype ElemRec = ElemRec(name: QName, gid: int, attrCount: int,
                             nsMappings: map<string, string>, children: seq<Child>)

  /** An element after `clear()`: same object and name, nothing else left. */
  function Cleared(e: ElemRec): (c: ElemRec)
    ensures c.name == e.name && IsCleared(c)
  {
    e.(gid := 0, attrCount := 0, nsMappings := map[], children := [])
  }

  /** A new element object of that name (`new ElementImpl(qn)`). */
  function NewElement(qn: QName): (e: ElemRec)
    ensures e.name == qn && IsCleared(e)
  {
    ElemRec(qn, 0, 0, map[], [])
  }

  /** An element in the state `clear()` leaves it in. */
  predicate IsCleared(e: ElemRec)
  {
    e.gid == 0 && e.attrCount == 0 && e.nsMappings == map[] && e.children == []
  }

  /** A cleared element given a new name is indistinguishable from a new element of that name. */
  lemma RenamedClearedIsNew(e: ElemRec, qn: QName)
    requires IsCleared(e)
    ensures e.(name := qn) == NewElement(qn)
  {
  }

  /** A node handed to the broker for persistence (an element with its state at that moment). */
  datatype StoredNode =
    | StoredText(data: string)
    | StoredComment(data: string)
    | StoredPI(target: string, data: string)
    | StoredElement(id: ElemId, rec: ElemRec)
    | StoredAttr(attr: AttrNode)

  /** The document type declaration: name, public id and system id. */
  datatype DocType = DocType(name: string, publicId: Option<string>, systemId: Option<string>)

  /** The exceptions an ingestion can end with: IOException, PermissionDeniedException, SAXException, runtime. */
  datatype Failure =
    | IOFailure(message: string)
    | PermissionDenied(message: string)
    | SaxFailure(message: string)
    | RuntimeFailure(message: string)
}
