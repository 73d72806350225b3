/**
 * What each SAX callback of the ingestion parser does, as functions of the values involved:
 * the text a flush produces, the broker calls a callback makes, the pending namespace
 * declarations, and the element bookkeeping after one event. The lemmas show that every event
 * keeps the bookkeeping invariant with the open names following the event stream.
 */
module ParseSteps {
  import opened Base
  import opened XmlNames
  import opened Dom
  import opened AttributeFilter
  import opened StructuralPath
  import opened ElementArena
  import opened Events
  import opened Storage

  /** SPARSE_IDENTIFIERS: spare child slots reserved per level (none). */
  const SparseIdentifiers: int := 0

  /** The tree-level order after closing an element with `childCount` children at `level`. */
  function RaisedLevelOrder(order: map<int, int>, level: int, childCount: int): (r: map<int, int>)
    ensures OrderAt(r, level) == Max(OrderAt(order, level), childCount + SparseIdentifiers)
    ensures forall l :: l != level ==> OrderAt(r, l) == OrderAt(order, l)
  {
    if OrderAt(order, level) < childCount then order[level := childCount + SparseIdentifiers] else order
  }

  /**
   * The text a flush turns into a child: none when the buffer or its normalized form is empty;
   * otherwise the raw buffer (before a child element) or the normalized text.
   */
  function Flushed(buf: string, normalized: string, raw: bool): (t: Option<string>)
    ensures t.None? <==> buf == "" || normalized == ""
    ensures t.Some? ==> |t.value| > 0 && (t.value == buf || t.value == normalized)
  {
    if |buf| > 0 && |normalized| > 0 then Some(if raw then buf else normalized) else None
  }

  /** The text child for the flushed text, if any. */
  function TextChildren(t: Option<string>): (cs: seq<Child>)
    ensures t.Some? ==> cs == [TextChild(t.value)]
    ensures t.None? ==> cs == []
  {
    if t.Some? then [TextChild(t.value)] else []
  }

  /** The broker call for the flushed text, if any. */
  function TextStores(t: Option<string>, path: string): seq<Call>
  {
    if t.Some? then [Store(StoredText(t.value), path)] else []
  }

  /** The broker calls for the stored attributes of an element opened at `path`. */
  function AttrStores(attrs: seq<Attribute>, path: string): (cs: seq<Call>)
    ensures |cs| == |Kept(attrs)|
  {
    if attrs == [] then []
    else
      var last := attrs[|attrs| - 1];
      AttrStores(attrs[..|attrs| - 1], path) + (if Skipped(last) then [] else [Store(StoredAttr(ToAttrNode(last)), path)])
  }

  /** One more attribute: its child and its store call, unless it is filtered out. */
  lemma AttrStep(attrs: seq<Attribute>, i: nat, path: string)
    requires i < |attrs|
    ensures !Skipped(attrs[i]) ==>
              AttrChildren(attrs[..i + 1]) == AttrChildren(attrs[..i]) + [AttrChild(ToAttrNode(attrs[i]))]
              && AttrStores(attrs[..i + 1], path) == AttrStores(attrs[..i], path) + [Store(StoredAttr(ToAttrNode(attrs[i])), path)]
    ensures Skipped(attrs[i]) ==>
              AttrChildren(attrs[..i + 1]) == AttrChildren(attrs[..i]) && AttrStores(attrs[..i + 1], path) == AttrStores(attrs[..i], path)
  {
    assert attrs[..i + 1][..i] == attrs[..i];
  }

  /**
   * The broker call when an element closes in the store pass: DBM and native back ends update
   * an element with children (and skip a childless one); others store it with the parent's path.
   */
  function CloseCalls(dbType: DbType, id: ElemId, rec: ElemRec, path: string): seq<Call>
  {
    if dbType == Dbm || dbType == Native then (if |rec.children| > 0 then [UpdateElement(id, rec)] else [])
    else [Store(StoredElement(id, rec), path)]
  }

  /** The pending namespace declarations and the suppressed eXist prefix. */
  datatype PrefixState = PrefixState(mappings: map<string, string>, ignorePrefix: Option<string>)

  /** startPrefixMapping: a prefix for the eXist namespace is only remembered as suppressed. */
  function StartPrefixState(s: PrefixState, prefix: string, uri: string): (r: PrefixState)
    ensures uri == ExistNamespace ==> r == s.(ignorePrefix := Some(prefix))
    ensures uri != ExistNamespace ==> r == s.(mappings := s.mappings[prefix := uri])
  {
    if uri == ExistNamespace then s.(ignorePrefix := Some(prefix))
    else s.(mappings := s.mappings[prefix := uri])
  }

  /** endPrefixMapping: ending the suppressed prefix clears it; any other prefix leaves the map. */
  function EndPrefixState(s: PrefixState, prefix: string): (r: PrefixState)
    ensures s.ignorePrefix == Some(prefix) ==> r == s.(ignorePrefix := None)
    ensures s.ignorePrefix != Some(prefix) ==> r == s.(mappings := s.mappings - {prefix})
  {
    if s.ignorePrefix == Some(prefix) then s.(ignorePrefix := None)
    else s.(mappings := s.mappings - {prefix})
  }

  /** The eXist namespace never becomes a pending declaration. */
  lemma ExistNeverPending(s: PrefixState, prefix: string, uri: string)
    requires ExistNamespace !in s.mappings.Values
    ensures ExistNamespace !in StartPrefixState(s, prefix, uri).mappings.Values
    ensures ExistNamespace !in EndPrefixState(s, prefix).mappings.Values
  {
    var r := StartPrefixState(s, prefix, uri);
    if uri != ExistNamespace {
      forall v | v in r.mappings.Values ensures v != ExistNamespace {
        var k :| k in r.mappings && r.mappings[k] == v;
        if k != prefix {
          assert s.mappings[k] == v;
        }
      }
    }
    var e := EndPrefixState(s, prefix);
    forall v | v in e.mappings.Values ensures v != ExistNamespace {
      var k :| k in e.mappings && e.mappings[k] == v;
      assert s.mappings[k] == v;
    }
  }

  /** A prefix scope opened and closed again leaves the pending declarations as they were. */
  lemma PrefixScopeRestores(s: PrefixState, prefix: string, uri: string)
    requires prefix !in s.mappings && s.ignorePrefix != Some(prefix)
    ensures uri == ExistNamespace ==> EndPrefixState(StartPrefixState(s, prefix, uri), prefix) == s.(ignorePrefix := None)
    ensures uri != ExistNamespace ==> EndPrefixState(StartPrefixState(s, prefix, uri), prefix) == s
  {
    if uri != ExistNamespace {
      assert s.mappings[prefix := uri] - {prefix} == s.mappings;
    }
  }

  /** The number of children the innermost element has once the pending text is flushed into it. */
  function ClosingCount(t: TreeState, text: Option<string>): int
    requires t.stack != [] && Indexed(t)
  {
    |t.elements[Top(t)].children| + |TextChildren(text)|
  }

  /** comment or processingInstruction inside an element: the pending text, then the node, go to the innermost element. */
  function NodeAdded(t: TreeState, text: Option<string>, c: Child): (r: TreeState)
    requires t.stack != [] && Indexed(t)
    ensures Indexed(r)
  {
    Appended(t, TextChildren(text) + [c])
  }

  /** What comment or processingInstruction inside an element hands to the broker: the text, then the node. */
  function NodeCalls(t: TreeState, text: Option<string>, node: StoredNode): seq<Call>
  {
    TextStores(text, t.currentPath) + [Store(node, t.currentPath)]
  }

  /**
   * The element startElement opens below an open element: the most recently pooled element
   * (renamed) or a new one, with the attribute count and, when there are any, the pending
   * namespace declarations.
   */
  function ChildRec(filled: TreeState, qn: QName, count: int, ns: map<string, string>): ElemRec
    requires Indexed(filled)
  {
    var r := Reused(filled, qn).(attrCount := ToShort(count));
    if |ns| > 0 then r.(nsMappings := ns) else r
  }

  /** The first half of startElement below an open element: the raw pending text goes to the parent, then the element is opened there and pushed. */
  function ChildEntered(t: TreeState, text: Option<string>, qn: QName, count: int, ns: map<string, string>,
                        qname: string): (r: TreeState)
    requires t.stack != [] && Indexed(t)
    ensures r.stack != [] && Indexed(r)
  {
    var filled := Appended(t, TextChildren(text));
    Opened(filled, ChildRec(filled, qn, count, ns), qname)
  }

  /** What the first half of startElement below an open element hands to the broker: the text, then the element. */
  function ChildEnterCalls(t: TreeState, text: Option<string>, qn: QName, count: int, ns: map<string, string>,
                           qname: string): seq<Call>
    requires t.stack != [] && Indexed(t)
  {
    var filled := Appended(t, TextChildren(text));
    TextStores(text, t.currentPath)
    + [Store(StoredElement(NextSlot(filled.elements, filled.usedElements), ChildRec(filled, qn, count, ns)),
             t.currentPath + "/" + qname)]
  }

  /**
   * startElement below an open element: the element is entered as ChildEntered says and its
   * stored attributes become its children.
   */
  function ChildOpened(t: TreeState, text: Option<string>, qn: QName, count: int, ns: map<string, string>,
                       qname: string, attrs: seq<Attribute>): (r: TreeState)
    requires t.stack != [] && Indexed(t)
    ensures Indexed(r)
  {
    var filled := Appended(t, TextChildren(text));
    Appended(Opened(filled, ChildRec(filled, qn, count, ns), qname), AttrChildren(attrs))
  }

  /** What startElement below an open element hands to the broker: the text, the element, its attributes. */
  function ChildCalls(t: TreeState, text: Option<string>, qn: QName, count: int, ns: map<string, string>,
                      qname: string, attrs: seq<Attribute>): seq<Call>
    requires t.stack != [] && Indexed(t)
  {
    ChildEnterCalls(t, text, qn, count, ns, qname) + AttrStores(attrs, t.currentPath + "/" + qname)
  }

  /** The root element startElement creates: global id 0 when validating and 1 when storing. */
  function RootRec(qn: QName, validate: bool, count: int, ns: map<string, string>): ElemRec
  {
    ElemRec(qn, if validate then 0 else 1, ToShort(count), ns, [])
  }

  /** startElement with no open element: the element becomes the root; its stored attributes become its children. */
  function RootOpened(t: TreeState, rec: ElemRec, qname: string, attrs: seq<Attribute>): (r: TreeState)
    requires t.stack == [] && Indexed(t)
    ensures Indexed(r)
  {
    Appended(OpenedRoot(t, rec, qname), AttrChildren(attrs))
  }

  /** What startElement of the root hands to the broker: the element, then its attributes. */
  function RootCalls(t: TreeState, rec: ElemRec, qname: string, attrs: seq<Attribute>): seq<Call>
  {
    var path := t.currentPath + "/" + qname;
    [Store(StoredElement(|t.elements|, rec), path)] + AttrStores(attrs, path)
  }

  /** `setAttributes((short) count)` on the innermost open element, as the end of startElement does. */
  function Recounted(t: TreeState, count: int): (r: TreeState)
    requires t.stack != [] && Indexed(t)
    ensures r.stack == t.stack && Indexed(r)
  {
    t.(elements := t.elements[Top(t) := t.elements[Top(t)].(attrCount := ToShort(count))])
  }

  /** Overwriting the count of an element just opened below an open element is opening it with that count. */
  lemma RecountedChild(t: TreeState, text: Option<string>, qn: QName, first: int, count: int, ns: map<string, string>,
                       qname: string, attrs: seq<Attribute>)
    requires t.stack != [] && Indexed(t)
    ensures Recounted(ChildOpened(t, text, qn, first, ns, qname, attrs), count) == ChildOpened(t, text, qn, count, ns, qname, attrs)
  {
    var a := Recounted(ChildOpened(t, text, qn, first, ns, qname, attrs), count);
    var b := ChildOpened(t, text, qn, count, ns, qname, attrs);
    assert |a.elements| == |b.elements|;
    forall k | 0 <= k < |a.elements|
      ensures a.elements[k] == b.elements[k]
    {
    }
  }

  /** Overwriting the count of a root just opened is opening it with that count. */
  lemma RecountedRoot(t: TreeState, qn: QName, validate: bool, first: int, count: int, ns: map<string, string>,
                      qname: string, attrs: seq<Attribute>)
    requires t.stack == [] && Indexed(t)
    ensures Recounted(RootOpened(t, RootRec(qn, validate, first, ns), qname, attrs), count)
            == RootOpened(t, RootRec(qn, validate, count, ns), qname, attrs)
  {
    var a := Recounted(RootOpened(t, RootRec(qn, validate, first, ns), qname, attrs), count);
    var b := RootOpened(t, RootRec(qn, validate, count, ns), qname, attrs);
    assert |a.elements| == |b.elements|;
    forall k | 0 <= k < |a.elements|
      ensures a.elements[k] == b.elements[k]
    {
    }
  }

  /** The bookkeeping startElement leaves once the second attribute loop has run on the element just entered. */
  function AttributesAdded(entered: TreeState, attrs: seq<Attribute>, attrLength: int): (r: TreeState)
    requires entered.stack != [] && Indexed(entered)
    ensures r.stack == entered.stack && Indexed(r)
    ensures r.level == entered.level && r.currentPath == entered.currentPath && r.usedElements == entered.usedElements
  {
    var added := Appended(entered, AttrChildren(attrs));
    if attrLength - SkippedCount(attrs) > 0 then Recounted(added, attrLength - SkippedCount(attrs)) else added
  }

  /** Three stretches of a call log, appended either way round. */
  lemma CallsAppended(calls: seq<Call>, a: seq<Call>, b: seq<Call>)
    ensures calls + a + b == calls + (a + b)
  {
  }

  /**
   * startElement below an open element, in the source's steps: the element entered with the
   * first loop's count, then its attributes added and its count overwritten, is ChildOpened with
   * the count AttrCountAsWritten gives.
   */
  lemma ChildInSteps(t: TreeState, text: Option<string>, qn: QName, ns: map<string, string>, qname: string,
                     attrs: seq<Attribute>)
    requires t.stack != [] && Indexed(t)
    ensures AttributesAdded(ChildEntered(t, text, qn, |Kept(attrs)|, ns, qname), attrs, |Kept(attrs)|)
            == ChildOpened(t, text, qn, AttrCountAsWritten(attrs), ns, qname, attrs)
  {
    var first := |Kept(attrs)|;
    KeptCount(attrs);
    if first - SkippedCount(attrs) > 0 {
      RecountedChild(t, text, qn, first, first - SkippedCount(attrs), ns, qname, attrs);
    }
  }

  /** The broker calls of startElement below an open element, in the source's steps, are ChildCalls. */
  lemma ChildCallsInSteps(t: TreeState, text: Option<string>, qn: QName, count: int, ns: map<string, string>, qname: string,
                          attrs: seq<Attribute>, calls: seq<Call>, validate: bool)
    requires t.stack != [] && Indexed(t)
    ensures calls + (if validate then [] else ChildEnterCalls(t, text, qn, count, ns, qname))
            + (if validate then [] else AttrStores(attrs, ChildEntered(t, text, qn, count, ns, qname).currentPath))
            == calls + (if validate then [] else ChildCalls(t, text, qn, count, ns, qname, attrs))
  {
    var path := t.currentPath + "/" + qname;
    assert ChildEntered(t, text, qn, count, ns, qname).currentPath == path;
    CallsAppended(calls, ChildEnterCalls(t, text, qn, count, ns, qname), AttrStores(attrs, path));
  }

  /** startElement with no open element, in the source's steps, as ChildInSteps says for a child. */
  lemma RootInSteps(t: TreeState, qn: QName, validate: bool, ns: map<string, string>, qname: string, attrs: seq<Attribute>)
    requires t.stack == [] && Indexed(t)
    ensures AttributesAdded(OpenedRoot(t, RootRec(qn, validate, |Kept(attrs)|, ns), qname), attrs, |Kept(attrs)|)
            == RootOpened(t, RootRec(qn, validate, AttrCountAsWritten(attrs), ns), qname, attrs)
  {
    var first := |Kept(attrs)|;
    KeptCount(attrs);
    if first - SkippedCount(attrs) > 0 {
      RecountedRoot(t, qn, validate, first, first - SkippedCount(attrs), ns, qname, attrs);
    }
  }

  /** The broker calls of startElement with no open element, in the source's steps, are RootCalls. */
  lemma RootCallsInSteps(t: TreeState, rec: ElemRec, qname: string, attrs: seq<Attribute>, calls: seq<Call>, validate: bool)
    requires t.stack == [] && Indexed(t)
    ensures calls + (if validate then [] else [Store(StoredElement(|t.elements|, rec), OpenedRoot(t, rec, qname).currentPath)])
            + (if validate then [] else AttrStores(attrs, OpenedRoot(t, rec, qname).currentPath))
            == calls + (if validate then [] else RootCalls(t, rec, qname, attrs))
  {
    var path := t.currentPath + "/" + qname;
    CallsAppended(calls, [Store(StoredElement(|t.elements|, rec), path)], AttrStores(attrs, path));
  }

  /** Whether endElement names the innermost open element. */
  predicate ClosesInnermost(t: TreeState, qname: string)
    requires Indexed(t)
  {
    t.stack != [] && NodeName(t.elements[Top(t)].name) == qname
  }

  /** endElement of the innermost element: the normalized pending text goes to it, then it is closed. */
  function ElementEnded(t: TreeState, text: Option<string>): (r: TreeState)
    requires t.stack != [] && Indexed(t)
    ensures Indexed(r)
  {
    Closed(Appended(t, TextChildren(text)))
  }

  /** What endElement hands to the broker: the text, then the element as CloseCalls says. */
  function EndCalls(dbType: DbType, t: TreeState, text: Option<string>): seq<Call>
    requires t.stack != [] && Indexed(t)
  {
    var filled := Appended(t, TextChildren(text));
    TextStores(text, t.currentPath) + CloseCalls(dbType, Top(t), filled.elements[Top(t)], ElementEnded(t, text).currentPath)
  }

  /**
   * The element bookkeeping after one event, given the pending text buffer, its normalized
   * form, the pending namespace declarations, the pass and whether the DTD is open.
   */
  function TreeAfter(t: TreeState, e: Event, buf: string, normalized: string, ns: map<string, string>,
                     validate: bool, insideDTD: bool): (r: TreeState)
    requires Indexed(t)
    ensures Indexed(r)
  {
    match e
    case CommentEv(data) =>
      if insideDTD || t.stack == [] then t else NodeAdded(t, Flushed(buf, normalized, false), CommentChild(data))
    case PI(target, data) =>
      if t.stack == [] then t else NodeAdded(t, Flushed(buf, normalized, false), PIChild(target, data))
    case StartElem(uri, localName, qname, attrs) =>
      var qn := QName(localName, uri, PrefixOf(qname));
      if t.stack != [] then ChildOpened(t, Flushed(buf, normalized, true), qn, AttrCountAsWritten(attrs), ns, qname, attrs)
      else RootOpened(t, RootRec(qn, validate, AttrCountAsWritten(attrs), ns), qname, attrs)
    case EndElem(_, _, qname) =>
      if ClosesInnermost(t, qname) then ElementEnded(t, Flushed(buf, normalized, false)) else t
    case _ => t
  }

  /** The exception an event raises in the parser: a reader fault, a read error, or endElement peeking at an empty stack. */
  function EventFailure(t: TreeState, e: Event): (r: Option<Failure>)
  {
    if e.Fault? then Some(SaxFailure(e.message))
    else if e.IoFault? then Some(IOFailure(e.message))
    else if e.EndElem? && t.stack == [] then Some(RuntimeFailure(EmptyStack))
    else None
  }

  /**
   * The broker calls the store pass makes for one event, given the same inputs as TreeAfter: a
   * comment or PI at document level is stored at the current path; inside an element the text and
   * the node go to the broker; an element is stored with its attributes; a matching close stores or
   * updates the closed element.
   */
  function EventCalls(dbType: DbType, t: TreeState, e: Event, buf: string, normalized: string, ns: map<string, string>,
                      validate: bool, insideDTD: bool): seq<Call>
    requires Indexed(t)
  {
    match e
    case CommentEv(data) =>
      if insideDTD then []
      else if t.stack == [] then [Store(StoredComment(data), t.currentPath)]
      else NodeCalls(t, Flushed(buf, normalized, false), StoredComment(data))
    case PI(target, data) =>
      if t.stack == [] then [Store(StoredPI(target, data), t.currentPath)]
      else NodeCalls(t, Flushed(buf, normalized, false), StoredPI(target, data))
    case StartElem(uri, localName, qname, attrs) =>
      var qn := QName(localName, uri, PrefixOf(qname));
      if t.stack != [] then ChildCalls(t, Flushed(buf, normalized, true), qn, |Kept(attrs)|, ns, qname, attrs)
      else RootCalls(t, RootRec(qn, validate, |Kept(attrs)|, ns), qname, attrs)
    case EndElem(_, _, qname) =>
      if ClosesInnermost(t, qname) then EndCalls(dbType, t, Flushed(buf, normalized, false)) else []
    case _ => []
  }

  /** The tree-level orders after one event: a matching close raises its level's order while validating. */
  function OrderAfter(order: map<int, int>, t: TreeState, e: Event, buf: string, normalized: string, validate: bool)
    : (r: map<int, int>)
    requires Indexed(t)
    ensures validate ==> forall l :: OrderAt(r, l) >= OrderAt(order, l)
    ensures !validate ==> r == order
  {
    if validate && e.EndElem? && ClosesInnermost(t, e.qname) then
      RaisedLevelOrder(order, t.level, ClosingCount(t, Flushed(buf, normalized, false)))
    else order
  }

  /**
   * What one pass may do to the broker log and the tree-level orders: validating calls nothing and
   * only raises orders; storing leaves the orders and only adds calls.
   */
  ghost predicate PassEffects(validate: bool, calls0: seq<Call>, calls: seq<Call>, order0: map<int, int>, order: map<int, int>)
  {
    (validate ==> calls == calls0 && forall l :: OrderAt(order, l) >= OrderAt(order0, l))
    && (!validate ==> order == order0 && calls0 <= calls)
  }

  /** The effects of two stretches of one pass add up to effects of the same kind. */
  lemma PassEffectsChain(validate: bool, calls0: seq<Call>, calls1: seq<Call>, calls2: seq<Call>,
                         order0: map<int, int>, order1: map<int, int>, order2: map<int, int>)
    requires PassEffects(validate, calls0, calls1, order0, order1) && PassEffects(validate, calls1, calls2, order1, order2)
    ensures PassEffects(validate, calls0, calls2, order0, order2)
  {
    if !validate {
      assert calls0 <= calls2 by {
        assert calls0 == calls1[..|calls0|] && calls1 == calls2[..|calls1|];
      }
    }
  }

  /**
   * A node added inside an element keeps the bookkeeping; the innermost element gains the
   * text and then the node, and the stack, pool and path stay.
   */
  lemma NodeAddedOk(t: TreeState, names: seq<string>, text: Option<string>, c: Child)
    requires TreeOk(t, names) && t.stack != []
    ensures var r := NodeAdded(t, text, c);
      TreeOk(r, names) && r.stack == t.stack && r.usedElements == t.usedElements && r.currentPath == t.currentPath
      && r.elements[Top(t)].children == t.elements[Top(t)].children + TextChildren(text) + [c]
  {
    AppendedOk(t, names, TextChildren(text) + [c]);
  }

  /**
   * startElement below an open element keeps the bookkeeping with the name pushed. The element
   * opens in the most recently pooled slot, or a new one when the pool is empty; it is
   * indistinguishable from a new element with the attribute count, the pending declarations and
   * its attribute children; the parent gains the text and then the element; the path grows by
   * "/" + name.
   */
  lemma ChildOpenedOk(t: TreeState, names: seq<string>, text: Option<string>, qn: QName, count: int,
                      ns: map<string, string>, qname: string, attrs: seq<Attribute>)
    requires TreeOk(t, names) && t.stack != [] && '/' !in qname && NodeName(qn) == qname
    ensures var id := NextSlot(t.elements, t.usedElements);
      var r := ChildOpened(t, text, qn, count, ns, qname, attrs);
      TreeOk(r, names + [qname]) && r.stack == t.stack + [id] && id !in t.stack
      && r.elements[id] == ElemRec(qn, 0, ToShort(count), ns, AttrChildren(attrs))
      && r.elements[Top(t)].children == t.elements[Top(t)].children + TextChildren(text) + [ElementChild(id, qn)]
      && (t.usedElements == [] ==> id == |t.elements| && r.usedElements == [])
      && (t.usedElements != [] ==>
            id == t.usedElements[|t.usedElements| - 1] && r.usedElements == t.usedElements[..|t.usedElements| - 1])
      && r.currentPath == t.currentPath + "/" + qname && r.level == t.level + 1
  {
    var cs := TextChildren(text);
    var filled := Appended(t, cs);
    ReusedIsNew(t, names, cs, qn);
    var rec := ChildRec(filled, qn, count, ns);
    assert rec == ElemRec(qn, 0, ToShort(count), ns, []);
    ChildStarted(t, names, cs, rec, qname, AttrChildren(attrs));
  }

  /**
   * startElement with no open element keeps the bookkeeping with the one name open: the root
   * is a new slot holding the record and its attribute children, at path "/" + name.
   */
  lemma RootOpenedOk(t: TreeState, names: seq<string>, rec: ElemRec, qname: string, attrs: seq<Attribute>)
    requires TreeOk(t, names) && t.stack == [] && '/' !in qname && NodeName(rec.name) == qname
    ensures var id := |t.elements|;
      var r := RootOpened(t, rec, qname, attrs);
      TreeOk(r, [qname]) && r.stack == [id] && r.rootNode == Some(id)
      && r.elements == t.elements + [rec.(children := rec.children + AttrChildren(attrs))]
      && r.usedElements == t.usedElements && r.currentPath == "/" + qname && r.level == 1
  {
    RootStarted(t, names, rec, qname, AttrChildren(attrs));
    var r := RootOpened(t, rec, qname, attrs);
    assert r.elements == r.elements[..|t.elements|] + [r.elements[|t.elements|]];
  }

  /**
   * endElement of the innermost element keeps the bookkeeping with its name popped and the path
   * cut back to the parent's; the element, with the text flushed into it, is cleared and pooled
   * unless it is the root.
   */
  lemma ElementEndedOk(t: TreeState, names: seq<string>, text: Option<string>)
    requires TreeOk(t, names) && t.stack != []
    ensures var n := |t.stack| - 1;
      var r := ElementEnded(t, text);
      TreeOk(r, names[..n]) && r.stack == t.stack[..n] && r.currentPath == JoinPath(names[..n])
      && ClosingCount(t, text) == |Appended(t, TextChildren(text)).elements[Top(t)].children|
      && (n > 0 ==> r.usedElements == t.usedElements + [Top(t)] && IsCleared(r.elements[Top(t)]))
      && (n == 0 ==> r.usedElements == t.usedElements && r.rootNode == Some(Top(t)))
  {
    ElementClosed(t, names, TextChildren(text));
  }

  /** A comment keeps the bookkeeping and the open names. */
  lemma CommentKeeps(t: TreeState, names: seq<string>, data: string, buf: string, normalized: string,
                     ns: map<string, string>, validate: bool, insideDTD: bool)
    requires TreeOk(t, names)
    ensures TreeOk(TreeAfter(t, CommentEv(data), buf, normalized, ns, validate, insideDTD), names)
  {
    if !insideDTD && t.stack != [] {
      var text := Flushed(buf, normalized, false);
      assert TreeAfter(t, CommentEv(data), buf, normalized, ns, validate, insideDTD) == NodeAdded(t, text, CommentChild(data));
      assert TreeOk(NodeAdded(t, text, CommentChild(data)), names) by {
        NodeAddedOk(t, names, text, CommentChild(data));
      }
    }
  }

  /** A processing instruction keeps the bookkeeping and the open names. */
  lemma PIKeeps(t: TreeState, names: seq<string>, target: string, data: string, buf: string, normalized: string,
                ns: map<string, string>, validate: bool, insideDTD: bool)
    requires TreeOk(t, names)
    ensures TreeOk(TreeAfter(t, PI(target, data), buf, normalized, ns, validate, insideDTD), names)
  {
    if t.stack != [] {
      var text := Flushed(buf, normalized, false);
      assert TreeAfter(t, PI(target, data), buf, normalized, ns, validate, insideDTD) == NodeAdded(t, text, PIChild(target, data));
      assert TreeOk(NodeAdded(t, text, PIChild(target, data)), names) by {
        NodeAddedOk(t, names, text, PIChild(target, data));
      }
    }
  }

  /** startElement below an open element keeps the bookkeeping with the element's name pushed. */
  lemma StartChildKeeps(t: TreeState, names: seq<string>, uri: string, localName: string, qname: string,
                        attrs: seq<Attribute>, buf: string, normalized: string, ns: map<string, string>, validate: bool,
                        insideDTD: bool)
    requires TreeOk(t, names) && t.stack != [] && ConsistentNames(localName, qname)
    ensures TreeOk(TreeAfter(t, StartElem(uri, localName, qname, attrs), buf, normalized, ns, validate, insideDTD), names + [qname])
  {
    var qn := QName(localName, uri, PrefixOf(qname));
    var text := Flushed(buf, normalized, true);
    var r := ChildOpened(t, text, qn, AttrCountAsWritten(attrs), ns, qname, attrs);
    assert TreeAfter(t, StartElem(uri, localName, qname, attrs), buf, normalized, ns, validate, insideDTD) == r;
    assert TreeOk(r, names + [qname]) by {
      ChildOpenedOk(t, names, text, qn, AttrCountAsWritten(attrs), ns, qname, attrs);
    }
  }

  /** startElement with no open element keeps the bookkeeping with the one name open. */
  lemma StartRootKeeps(t: TreeState, names: seq<string>, uri: string, localName: string, qname: string,
                       attrs: seq<Attribute>, buf: string, normalized: string, ns: map<string, string>, validate: bool,
                       insideDTD: bool)
    requires TreeOk(t, names) && t.stack == [] && ConsistentNames(localName, qname)
    ensures TreeOk(TreeAfter(t, StartElem(uri, localName, qname, attrs), buf, normalized, ns, validate, insideDTD), names + [qname])
  {
    var rec := RootRec(QName(localName, uri, PrefixOf(qname)), validate, AttrCountAsWritten(attrs), ns);
    var r := RootOpened(t, rec, qname, attrs);
    assert TreeAfter(t, StartElem(uri, localName, qname, attrs), buf, normalized, ns, validate, insideDTD) == r;
    assert names + [qname] == [qname] by {
      TopName(t, names);
    }
    assert TreeOk(r, [qname]) by {
      RootOpenedOk(t, names, rec, qname, attrs);
    }
  }

  /** A close of the innermost element pops its name from the open names and keeps the bookkeeping. */
  lemma PopKeeps(t: TreeState, names: seq<string>, uri: string, localName: string, qname: string, text: Option<string>)
    requires TreeOk(t, names) && ClosesInnermost(t, qname)
    ensures TreeOk(ElementEnded(t, text), StepNames(names, EndElem(uri, localName, qname)))
  {
    TopName(t, names);
    assert StepNames(names, EndElem(uri, localName, qname)) == names[..|t.stack| - 1];
    ElementEndedOk(t, names, text);
  }

  /** endElement keeps the bookkeeping; a close of the innermost name pops it, any other changes nothing. */
  lemma EndKeeps(t: TreeState, names: seq<string>, uri: string, localName: string, qname: string,
                 buf: string, normalized: string, ns: map<string, string>, validate: bool, insideDTD: bool)
    requires TreeOk(t, names)
    ensures TreeOk(TreeAfter(t, EndElem(uri, localName, qname), buf, normalized, ns, validate, insideDTD),
                   StepNames(names, EndElem(uri, localName, qname)))
  {
    var e := EndElem(uri, localName, qname);
    if ClosesInnermost(t, qname) {
      PopKeeps(t, names, uri, localName, qname, Flushed(buf, normalized, false));
      assert TreeAfter(t, e, buf, normalized, ns, validate, insideDTD) == ElementEnded(t, Flushed(buf, normalized, false));
    } else {
      TopName(t, names);
      assert StepNames(names, e) == names;
      assert TreeAfter(t, e, buf, normalized, ns, validate, insideDTD) == t;
    }
  }

  /** The exception an event raises is the one StepFailure gives for the open names. */
  lemma FailureAgrees(t: TreeState, names: seq<string>, e: Event)
    requires TreeOk(t, names)
    ensures EventFailure(t, e) == StepFailure(names, e)
  {
    TopName(t, names);
  }

  /** Every event the reader can deliver keeps the bookkeeping invariant, the open names following StepNames. */
  lemma TreeAfterOk(t: TreeState, names: seq<string>, e: Event, buf: string, normalized: string,
                    ns: map<string, string>, validate: bool, insideDTD: bool)
    requires TreeOk(t, names) && WellFormedEvent(e)
    ensures TreeOk(TreeAfter(t, e, buf, normalized, ns, validate, insideDTD), StepNames(names, e))
  {
    match e
    case CommentEv(data) => CommentKeeps(t, names, data, buf, normalized, ns, validate, insideDTD);
    case PI(target, data) => PIKeeps(t, names, target, data, buf, normalized, ns, validate, insideDTD);
    case StartElem(uri, localName, qname, attrs) =>
      if t.stack != [] {
        StartChildKeeps(t, names, uri, localName, qname, attrs, buf, normalized, ns, validate, insideDTD);
      } else {
        StartRootKeeps(t, names, uri, localName, qname, attrs, buf, normalized, ns, validate, insideDTD);
      }
    case EndElem(uri, localName, qname) => EndKeeps(t, names, uri, localName, qname, buf, normalized, ns, validate, insideDTD);
    case Chars(_) =>
    case StartPrefix(_, _) =>
    case EndPrefix(_) =>
    case StartDtd(_, _, _) =>
    case EndDtd =>
    case Fault(_) =>
    case IoFault(_) =>
    case Ignored =>
  }
}
