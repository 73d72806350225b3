/**
 * The ingestion parser: a SAX content handler that builds a document's tree and runs the same
 * event stream twice. The validate pass (`validate` set) builds the tree in memory and records
 * depth and per-level child counts; the store pass hands every node to the broker.
 */
module IngestParser {
  import opened Base
  import opened XmlNames
  import opened Dom
  import opened IngestConfig
  import opened TargetPath
  import opened AttributeFilter
  import opened StructuralPath
  import opened ElementArena
  import opened Events
  import opened Storage
  import opened ParseSteps

  /**
   * The target of an ingestion: the given name, else the system id's last segment, normalized
   * as the source writes it (NormalizeTargetAsWritten, with its literal "/db" prefix test).
   */
  function ResolveTarget(xmlFileName: Option<string>, systemId: Option<string>, pathSeparator: char)
    : Result<Target, Failure>
  {
    if xmlFileName.Some? then NormalizeTargetAsWritten(xmlFileName.value)
    else
      match NameFromSystemId(systemId, pathSeparator)
      case Err(e) => Err(e)
      case Ok(n) => NormalizeTargetAsWritten(n)
  }

  /**
   * A resolved target's collection starts with "/db" (not necessarily as a whole segment), and its
   * file name holds no '/' unless it is a root-level name that fell into "/db" whole, which then
   * starts with "/db" itself. The given name wins over the system id; without either there is no
   * target; a system id without a path separator is taken whole.
   */
  lemma ResolveTargetRooted(xmlFileName: Option<string>, systemId: Option<string>, pathSeparator: char)
    ensures var r := ResolveTarget(xmlFileName, systemId, pathSeparator);
            r.Ok? ==> "/db" <= r.value.collection
                      && ('/' !in r.value.fileName || (r.value.collection == "/db" && "/db" <= r.value.fileName))
    ensures xmlFileName.Some? ==> ResolveTarget(xmlFileName, systemId, pathSeparator) == NormalizeTargetAsWritten(xmlFileName.value)
    ensures xmlFileName.None? && systemId.None? ==> ResolveTarget(xmlFileName, systemId, pathSeparator).Err?
    ensures xmlFileName.None? && systemId.Some? && systemId.value != "" && pathSeparator !in systemId.value ==>
              ResolveTarget(xmlFileName, systemId, pathSeparator) == NormalizeTargetAsWritten(systemId.value)
  {
    var r := ResolveTarget(xmlFileName, systemId, pathSeparator);
    if r.Ok? {
      var name := if xmlFileName.Some? then xmlFileName.value else NameFromSystemId(systemId, pathSeparator).value;
      assert r == NormalizeTargetAsWritten(name);
      var f := RootedAsWritten(name);
      assert f[0] == '/';
    }
  }

  /** The temporary full name a replacing document carries until the old one is removed. */
  function TemporaryName(t: Target): (n: string)
    ensures n != FullPath(t)
  {
    t.collection + "/__" + t.fileName
  }

  const NoInputSource: string := "no input source"
  const ReadOnlyDatabase: string := "database is read-only"
  const UpdateNotAllowed: string := "document exists and update is not allowed"
  const NestingTooDeep: string :=
    "the nesting-level of your document is too high. It does not fit into the indexing-scheme. "
    + "Please split the document into several parts and try to reduce the nesting-level."
  /** What a NullPointerException caught by store becomes. */
  const NullPointer: string := "java.lang.NullPointerException"

  /** The refusal when the user may not write to a collection. */
  function WriteNotAllowed(collection: string): string
  {
    "not allowed to write to collection " + collection
  }

  /**
   * The permission gate of scan: replacing an existing document needs UPDATE on it, adding a
   * new one needs WRITE on the collection.
   */
  function GateFailure(permits: (Permission, User, Access) -> bool, user: User, collection: string,
                       collectionPermission: Permission, existing: Option<Permission>): (r: Option<Failure>)
    ensures r.None? <==> (if existing.Some? then permits(existing.value, user, Update)
                         else permits(collectionPermission, user, Write))
    ensures r.Some? ==> r.value.PermissionDenied?
  {
    match existing
    case Some(perm) => if permits(perm, user, Update) then None else Some(PermissionDenied(UpdateNotAllowed))
    case None => if permits(collectionPermission, user, Write) then None else Some(PermissionDenied(WriteNotAllowed(collection)))
  }

  /**
   * The failure of a validate pass over a stream: the stream's own failure, else the refusal of
   * the indexing scheme when one level more than the deepest element does not fit the orders.
   */
  function PassFailure(events: seq<Event>, levelsFit: (int, map<int, int>) -> bool, order: map<int, int>): (r: Option<Failure>)
    ensures r.None? <==> Outcome([], events).None? && levelsFit(Peak([], events) + 1, order)
    ensures Outcome([], events).Some? ==> r == Outcome([], events)
  {
    if Outcome([], events).Some? then Outcome([], events)
    else if levelsFit(Peak([], events) + 1, order) then None
    else Some(SaxFailure(NestingTooDeep))
  }

  class Parser {
    const broker: Broker
    const user: User
    const validation: ValidationMode
    const normalize: WhitespaceMode
    /** XMLString.normalize: the text under a whitespace mode. */
    const normalizer: (string, WhitespaceMode) -> string
    /** Whether calculateTreeLevelStartPoints succeeds for a depth and per-level orders. */
    const levelsFit: (int, map<int, int>) -> bool
    /** Permission.validate. */
    const permits: (Permission, User, Access) -> bool
    /** File.pathSeparator. */
    const pathSeparator: char

    var collection: Collection?
    var document: Document?
    var fileName: string
    var charBuf: string
    var insideDTD: bool
    var validate: bool
    var nsMappings: map<string, string>
    var ignorePrefix: Option<string>
    /** The element bookkeeping: element objects, stack, pool, root, level and structural path. */
    var tree: TreeState

    /** The element bookkeeping keeps its invariant for the open elements' names. */
    ghost predicate Valid()
      reads this`tree
    {
      Indexed(tree) && TreeOk(tree, NamesOf(tree.elements, tree.stack))
    }

    /** The text the next flush appends, if any. */
    function PendingText(raw: bool): Option<string>
      reads this`charBuf
    {
      Flushed(charBuf, normalizer(charBuf, normalize), raw)
    }

    /** The parser's constructor, reading `indexer.validation` and `indexer.suppress-whitespace`. */
    constructor (broker: Broker, user: User, validationOption: Option<string>, whitespaceOption: Option<string>,
                 normalizer: (string, WhitespaceMode) -> string, levelsFit: (int, map<int, int>) -> bool,
                 permits: (Permission, User, Access) -> bool, pathSeparator: char)
      ensures Valid() && tree.stack == []
      ensures this.broker == broker && this.user == user && this.normalizer == normalizer
      ensures this.levelsFit == levelsFit && this.permits == permits && this.pathSeparator == pathSeparator
      ensures validation == ValidationFromOption(validationOption)
      ensures normalize == WhitespaceFromOption(whitespaceOption)
      ensures collection == null && document == null && fileName == "" && charBuf == ""
      ensures !insideDTD && !validate && nsMappings == map[] && ignorePrefix == None
      ensures tree == TreeState([], [], [], None, 0, "")
    {
      this.broker := broker;
      this.user := user;
      this.normalizer := normalizer;
      this.levelsFit := levelsFit;
      this.permits := permits;
      this.pathSeparator := pathSeparator;
      validation := ValidationFromOption(validationOption);
      normalize := WhitespaceFromOption(whitespaceOption);
      collection := null;
      document := null;
      fileName := "";
      charBuf := "";
      insideDTD := false;
      validate := false;
      nsMappings := map[];
      ignorePrefix := None;
      tree := TreeState([], [], [], None, 0, "");
    }

    /** characters: non-empty text is appended to the pending buffer. */
    method Characters(data: string)
      modifies this`charBuf
      ensures charBuf == old(charBuf) + data
    {
      if |data| <= 0 {
        return;
      }
      charBuf := charBuf + data;
    }

    /**
     * The shared body of comment and processingInstruction: at document level the node goes to
     * the document; inside an element the normalized pending text and then the node go to the
     * innermost open element. Storing hands them to the broker in that order.
     */
    method AppendNonElement(c: Child, node: StoredNode)
      requires Indexed(tree) && document != null
      modifies this`charBuf, this`tree, document`children, document`childCount, broker`calls
      ensures old(tree.stack) == [] ==>
                document.children == old(document.children) + [c] && document.childCount == old(document.childCount) + 1
                && tree == old(tree) && charBuf == old(charBuf)
                && broker.calls == old(broker.calls) + (if validate then [] else [Store(node, tree.currentPath)])
      ensures old(tree.stack) != [] ==>
                tree == NodeAdded(old(tree), old(PendingText(false)), c) && charBuf == ""
                && document.children == old(document.children) && document.childCount == old(document.childCount)
                && broker.calls == old(broker.calls) + (if validate then [] else NodeCalls(old(tree), old(PendingText(false)), node))
    {
      if tree.stack == [] {
        var out := if validate then [] else [Store(node, tree.currentPath)];
        broker.calls := broker.calls + out;
        document.children := document.children + [c];
        document.childCount := document.childCount + 1;
      } else {
        var text := PendingText(false);
        var out := if validate then [] else NodeCalls(tree, text, node);
        broker.calls := broker.calls + out;
        tree := NodeAdded(tree, text, c);
        charBuf := "";
      }
    }

    /** comment: dropped inside the DTD, otherwise added like any other non-element node. */
    method Comment(data: string)
      requires Indexed(tree) && document != null
      modifies this`charBuf, this`tree, document`children, document`childCount, broker`calls
      ensures insideDTD ==>
                tree == old(tree) && charBuf == old(charBuf) && broker.calls == old(broker.calls)
                && document.children == old(document.children) && document.childCount == old(document.childCount)
      ensures !insideDTD && old(tree.stack) == [] ==>
                document.children == old(document.children) + [CommentChild(data)]
                && document.childCount == old(document.childCount) + 1 && tree == old(tree) && charBuf == old(charBuf)
                && broker.calls == old(broker.calls) + (if validate then [] else [Store(StoredComment(data), tree.currentPath)])
      ensures !insideDTD && old(tree.stack) != [] ==>
                tree == NodeAdded(old(tree), old(PendingText(false)), CommentChild(data)) && charBuf == ""
                && document.children == old(document.children) && document.childCount == old(document.childCount)
                && broker.calls == old(broker.calls)
                                   + (if validate then [] else NodeCalls(old(tree), old(PendingText(false)), StoredComment(data)))
    {
      if insideDTD {
        return;
      }
      AppendNonElement(CommentChild(data), StoredComment(data));
    }

    /** processingInstruction: added like a comment, also inside the DTD. */
    method ProcessingInstruction(target: string, data: string)
      requires Indexed(tree) && document != null
      modifies this`charBuf, this`tree, document`children, document`childCount, broker`calls
      ensures old(tree.stack) == [] ==>
                document.children == old(document.children) + [PIChild(target, data)]
                && document.childCount == old(document.childCount) + 1 && tree == old(tree) && charBuf == old(charBuf)
                && broker.calls == old(broker.calls) + (if validate then [] else [Store(StoredPI(target, data), tree.currentPath)])
      ensures old(tree.stack) != [] ==>
                tree == NodeAdded(old(tree), old(PendingText(false)), PIChild(target, data)) && charBuf == ""
                && document.children == old(document.children) && document.childCount == old(document.childCount)
                && broker.calls == old(broker.calls)
                                   + (if validate then [] else NodeCalls(old(tree), old(PendingText(false)), StoredPI(target, data)))
    {
      AppendNonElement(PIChild(target, data), StoredPI(target, data));
    }

    /**
     * The second attribute loop of startElement: every attribute that is not filtered out becomes
     * an attribute child of the new element and a store call at the element's path; each skipped
     * attribute decrements the counter `attrLength` once more.
     */
    method CollectAttributes(attrs: seq<Attribute>, path: string, attrLength: int)
      returns (kids: seq<Child>, stores: seq<Call>, remaining: int)
      ensures kids == AttrChildren(attrs) && stores == AttrStores(attrs, path)
      ensures remaining == attrLength - SkippedCount(attrs)
    {
      kids := [];
      stores := [];
      remaining := attrLength;
      var i := 0;
      while i < |attrs|
        invariant 0 <= i <= |attrs|
        invariant kids == AttrChildren(attrs[..i]) && stores == AttrStores(attrs[..i], path)
        invariant remaining == attrLength - SkippedCount(attrs[..i])
      {
        AttrStep(attrs, i, path);
        assert attrs[..i + 1][..i] == attrs[..i];
        if Skipped(attrs[i]) {
          remaining := remaining - 1;
        } else {
          var node := ToAttrNode(attrs[i]);
          kids := kids + [AttrChild(node)];
          stores := stores + [Store(StoredAttr(node), path)];
        }
        i := i + 1;
      }
      assert attrs[..i] == attrs;
    }

    /** startDTD: records the document type and enters the DTD. */
    method StartDtd(name: string, publicId: Option<string>, systemId: Option<string>)
      requires document != null
      modifies document`doctype, this`insideDTD
      ensures document.doctype == Some(DocType(name, publicId, systemId)) && insideDTD
    {
      document.doctype := Some(DocType(name, publicId, systemId));
      insideDTD := true;
    }

    /** endDTD: leaves the DTD. */
    method EndDtd()
      modifies this`insideDTD
      ensures !insideDTD
    {
      insideDTD := false;
    }

    /** startPrefixMapping. */
    method StartPrefixMapping(prefix: string, uri: string)
      modifies this`nsMappings, this`ignorePrefix
      ensures PrefixState(nsMappings, ignorePrefix) == StartPrefixState(old(PrefixState(nsMappings, ignorePrefix)), prefix, uri)
    {
      if uri == ExistNamespace {
        ignorePrefix := Some(prefix);
        return;
      }
      nsMappings := nsMappings[prefix := uri];
    }

    /** endPrefixMapping. */
    method EndPrefixMapping(prefix: string)
      modifies this`nsMappings, this`ignorePrefix
      ensures PrefixState(nsMappings, ignorePrefix) == EndPrefixState(old(PrefixState(nsMappings, ignorePrefix)), prefix)
    {
      if ignorePrefix.Some? && prefix == ignorePrefix.value {
        ignorePrefix := None;
      } else {
        nsMappings := nsMappings - {prefix};
      }
    }

    /** The branch of startElement below an open element: the raw pending text goes first, then the element is opened, pushed and stored. */
    method OpenChild(qn: QName, count: int, qname: string)
      requires Indexed(tree) && tree.stack != []
      modifies this`charBuf, this`tree, broker`calls
      ensures tree == ChildEntered(old(tree), old(PendingText(true)), qn, count, nsMappings, qname) && charBuf == ""
      ensures broker.calls
              == old(broker.calls) + (if validate then [] else ChildEnterCalls(old(tree), old(PendingText(true)), qn, count, nsMappings, qname))
    {
      var text := PendingText(true);
      var out := if validate then [] else ChildEnterCalls(tree, text, qn, count, nsMappings, qname);
      broker.calls := broker.calls + out;
      tree := ChildEntered(tree, text, qn, count, nsMappings, qname);
      charBuf := "";
    }

    /** The branch of startElement with no open element: the element becomes the root, is stored and becomes the document's child. */
    method OpenRoot(rec: ElemRec, qname: string)
      requires Indexed(tree) && tree.stack == [] && document != null
      modifies this`tree, document`children, document`childCount, broker`calls
      ensures tree == OpenedRoot(old(tree), rec, qname)
      ensures document.children == old(document.children) + [ElementChild(|old(tree.elements)|, rec.name)]
      ensures document.childCount == old(document.childCount) + 1
      ensures broker.calls == old(broker.calls)
                              + (if validate then [] else [Store(StoredElement(|old(tree.elements)|, rec), old(tree.currentPath) + "/" + qname)])
    {
      var out := if validate then [] else [Store(StoredElement(|tree.elements|, rec), tree.currentPath + "/" + qname)];
      broker.calls := broker.calls + out;
      document.children := document.children + [ElementChild(|tree.elements|, rec.name)];
      document.childCount := document.childCount + 1;
      tree := OpenedRoot(tree, rec, qname);
    }

    /**
     * startElement: the element is named from the reader's names. Below an open element the raw
     * pending text is flushed into the parent first (StartChild); with no open element the element
     * becomes the root and the document's child (StartRoot). It is opened and stored with the first
     * loop's count of stored attributes and takes the pending namespace declarations; the depth
     * reached is recorded; the second loop adds and stores its attributes and then overwrites the
     * count with the twice decremented counter when that stays positive (AttrCountAsWritten).
     */
    method StartElement(uri: string, localName: string, qname: string, attrs: seq<Attribute>)
      requires Indexed(tree) && document != null
      modifies this`charBuf, this`tree, this`nsMappings, document`children, document`childCount, document`maxDepth,
               broker`calls
      ensures nsMappings == map[] && document.maxDepth == Max(old(document.maxDepth), tree.level)
      ensures var qn := QName(localName, uri, PrefixOf(qname));
              var text := old(PendingText(true));
              old(tree.stack) != [] ==>
                tree == ChildOpened(old(tree), text, qn, AttrCountAsWritten(attrs), old(nsMappings), qname, attrs) && charBuf == ""
                && document.children == old(document.children) && document.childCount == old(document.childCount)
                && broker.calls == old(broker.calls)
                                   + (if validate then [] else ChildCalls(old(tree), text, qn, |Kept(attrs)|, old(nsMappings), qname, attrs))
      ensures var qn := QName(localName, uri, PrefixOf(qname));
              var rec := RootRec(qn, validate, |Kept(attrs)|, old(nsMappings));
              old(tree.stack) == [] ==>
                tree == RootOpened(old(tree), RootRec(qn, validate, AttrCountAsWritten(attrs), old(nsMappings)), qname, attrs)
                && charBuf == old(charBuf)
                && document.children == old(document.children) + [ElementChild(|old(tree.elements)|, rec.name)]
                && document.childCount == old(document.childCount) + 1
                && broker.calls == old(broker.calls) + (if validate then [] else RootCalls(old(tree), rec, qname, attrs))
    {
      var qn := QName(localName, uri, PrefixOf(qname));
      ghost var t0, text, ns0, calls0 := tree, PendingText(true), nsMappings, broker.calls;
      if tree.stack != [] {
        ChildInSteps(t0, text, qn, ns0, qname, attrs);
        ChildCallsInSteps(t0, text, qn, |Kept(attrs)|, ns0, qname, attrs, calls0, validate);
        StartChild(qn, qname, attrs);
      } else {
        RootInSteps(t0, qn, validate, ns0, qname, attrs);
        RootCallsInSteps(t0, RootRec(qn, validate, |Kept(attrs)|, ns0), qname, attrs, calls0, validate);
        StartRoot(qn, qname, attrs);
      }
    }

    /** startElement below an open element, step by step: the element is entered with the first loop's count, then its attributes are added. */
    method StartChild(qn: QName, qname: string, attrs: seq<Attribute>)
      requires Indexed(tree) && tree.stack != [] && document != null
      modifies this`charBuf, this`tree, this`nsMappings, document`maxDepth, broker`calls
      ensures nsMappings == map[] && charBuf == ""
      ensures var entered := ChildEntered(old(tree), old(PendingText(true)), qn, |Kept(attrs)|, old(nsMappings), qname);
              tree == AttributesAdded(entered, attrs, |Kept(attrs)|)
              && document.maxDepth == Max(old(document.maxDepth), entered.level)
              && broker.calls == old(broker.calls)
                                 + (if validate then [] else ChildEnterCalls(old(tree), old(PendingText(true)), qn, |Kept(attrs)|, old(nsMappings), qname))
                                 + (if validate then [] else AttrStores(attrs, entered.currentPath))
    {
      var count := CountStoredAttributes(attrs);
      OpenChild(qn, count, qname);
      nsMappings := map[];
      document.maxDepth := Max(document.maxDepth, tree.level);
      AddAttributes(attrs, count);
    }

    /** startElement with no open element, step by step: the root is entered with the first loop's count, then its attributes are added. */
    method StartRoot(qn: QName, qname: string, attrs: seq<Attribute>)
      requires Indexed(tree) && tree.stack == [] && document != null
      modifies this`tree, this`nsMappings, document`children, document`childCount, document`maxDepth, broker`calls
      ensures nsMappings == map[]
      ensures var rec := RootRec(qn, validate, |Kept(attrs)|, old(nsMappings));
              var entered := OpenedRoot(old(tree), rec, qname);
              tree == AttributesAdded(entered, attrs, |Kept(attrs)|)
              && document.maxDepth == Max(old(document.maxDepth), entered.level)
              && broker.calls == old(broker.calls)
                                 + (if validate then [] else [Store(StoredElement(|old(tree.elements)|, rec), entered.currentPath)])
                                 + (if validate then [] else AttrStores(attrs, entered.currentPath))
      ensures document.children == old(document.children) + [ElementChild(|old(tree.elements)|, qn)]
      ensures document.childCount == old(document.childCount) + 1
    {
      var count := CountStoredAttributes(attrs);
      OpenRoot(RootRec(qn, validate, count, nsMappings), qname);
      nsMappings := map[];
      document.maxDepth := Max(document.maxDepth, tree.level);
      AddAttributes(attrs, count);
    }

    /**
     * The end of startElement: the attribute children are added to the new element and, when
     * storing, handed to the broker at its path; then the count is overwritten with the counter
     * the second loop leaves when that is positive.
     */
    method AddAttributes(attrs: seq<Attribute>, attrLength: int)
      requires Indexed(tree) && tree.stack != []
      modifies this`tree, broker`calls
      ensures tree == AttributesAdded(old(tree), attrs, attrLength)
      ensures broker.calls == old(broker.calls) + (if validate then [] else AttrStores(attrs, old(tree.currentPath)))
    {
      var kids, stores, remaining := CollectAttributes(attrs, tree.currentPath, attrLength);
      tree := Appended(tree, kids);
      if !validate {
        broker.calls := broker.calls + stores;
      }
      if remaining > 0 {
        tree := Recounted(tree, remaining);
      }
    }

    /**
     * endElement: peeking at an empty stack throws; a name that is not the innermost open
     * element's is ignored. Otherwise the normalized pending text is flushed into the element,
     * which is popped with the path's last step. Validating raises the level's order to the
     * element's child count; storing hands the text and then the element to the broker.
     */
    method EndElement(uri: string, localName: string, qname: string) returns (err: Option<Failure>)
      requires Indexed(tree) && document != null
      modifies this`charBuf, this`tree, document`treeLevelOrder, broker`calls
      ensures err == EventFailure(old(tree), EndElem(uri, localName, qname))
      ensures !old(ClosesInnermost(tree, qname)) ==>
                tree == old(tree) && charBuf == old(charBuf) && broker.calls == old(broker.calls)
                && document.treeLevelOrder == old(document.treeLevelOrder)
      ensures old(ClosesInnermost(tree, qname)) ==>
                var text := old(PendingText(false));
                tree == ElementEnded(old(tree), text) && charBuf == ""
                && document.treeLevelOrder
                   == (if validate then RaisedLevelOrder(old(document.treeLevelOrder), old(tree.level), ClosingCount(old(tree), text))
                       else old(document.treeLevelOrder))
                && broker.calls == old(broker.calls) + (if validate then [] else EndCalls(broker.dbType, old(tree), text))
    {
      err := None;
      if tree.stack == [] {
        err := Some(RuntimeFailure(EmptyStack));
        return;
      }
      if NodeName(tree.elements[Top(tree)].name) != qname {
        return;
      }
      var t := tree;
      var text := PendingText(false);
      if validate {
        document.treeLevelOrder := RaisedLevelOrder(document.treeLevelOrder, t.level, ClosingCount(t, text));
      } else {
        broker.calls := broker.calls + EndCalls(broker.dbType, t, text);
      }
      charBuf := "";
      tree := ElementEnded(t, text);
    }

    /** The callbacks for the events that are not element boundaries. */
    method DispatchOther(e: Event) returns (err: Option<Failure>)
      requires !e.StartElem? && !e.EndElem?
      requires Indexed(tree) && document != null
      modifies this`charBuf, this`tree, this`nsMappings, this`ignorePrefix, this`insideDTD,
               document`children, document`childCount, document`maxDepth, document`treeLevelOrder, document`doctype,
               broker`calls
      ensures tree == TreeAfter(old(tree), e, old(charBuf), old(normalizer(charBuf, normalize)), old(nsMappings), validate,
                                old(insideDTD))
      ensures err == EventFailure(old(tree), e)
      ensures document.maxDepth == old(document.maxDepth)
      ensures broker.calls
              == old(broker.calls) + (if validate then [] else EventCalls(broker.dbType, old(tree), e, old(charBuf),
                                                                         old(normalizer(charBuf, normalize)), old(nsMappings), validate, old(insideDTD)))
      ensures document.treeLevelOrder
              == OrderAfter(old(document.treeLevelOrder), old(tree), e, old(charBuf), old(normalizer(charBuf, normalize)), validate)
    {
      err := None;
      match e
      case Chars(data) => Characters(data);
      case CommentEv(data) => Comment(data);
      case PI(target, data) => ProcessingInstruction(target, data);
      case StartPrefix(prefix, prefixUri) => StartPrefixMapping(prefix, prefixUri);
      case EndPrefix(prefix) => EndPrefixMapping(prefix);
      case StartDtd(name, publicId, systemId) => StartDtd(name, publicId, systemId);
      case EndDtd => EndDtd();
      case Fault(message) => err := Some(SaxFailure(message));
      case IoFault(message) => err := Some(IOFailure(message));
      case Ignored =>
    }

    /** startElement as the callback for a start-element event. */
    method DispatchStart(uri: string, localName: string, qname: string, attrs: seq<Attribute>)
      requires Indexed(tree) && document != null
      modifies this`charBuf, this`tree, this`nsMappings, document`children, document`childCount, document`maxDepth,
               broker`calls
      ensures var e := StartElem(uri, localName, qname, attrs);
              tree == TreeAfter(old(tree), e, old(charBuf), old(normalizer(charBuf, normalize)), old(nsMappings), validate,
                                old(insideDTD))
              && broker.calls
                 == old(broker.calls) + (if validate then [] else EventCalls(broker.dbType, old(tree), e, old(charBuf),
                                                                            old(normalizer(charBuf, normalize)), old(nsMappings), validate, old(insideDTD)))
      ensures document.maxDepth == Max(old(document.maxDepth), tree.level)
    {
      StartElement(uri, localName, qname, attrs);
    }

    /** The callback for one event of the stream. */
    method Dispatch(e: Event) returns (err: Option<Failure>)
      requires Indexed(tree) && document != null
      modifies this`charBuf, this`tree, this`nsMappings, this`ignorePrefix, this`insideDTD,
               document`children, document`childCount, document`maxDepth, document`treeLevelOrder, document`doctype,
               broker`calls
      ensures tree == TreeAfter(old(tree), e, old(charBuf), old(normalizer(charBuf, normalize)), old(nsMappings), validate,
                                old(insideDTD))
      ensures err == EventFailure(old(tree), e)
      ensures e.StartElem? ==> document.maxDepth == Max(old(document.maxDepth), tree.level)
      ensures !e.StartElem? ==> document.maxDepth == old(document.maxDepth)
      ensures broker.calls
              == old(broker.calls) + (if validate then [] else EventCalls(broker.dbType, old(tree), e, old(charBuf),
                                                                         old(normalizer(charBuf, normalize)), old(nsMappings), validate, old(insideDTD)))
      ensures document.treeLevelOrder
              == OrderAfter(old(document.treeLevelOrder), old(tree), e, old(charBuf), old(normalizer(charBuf, normalize)), validate)
    {
      match e
      case StartElem(uri, localName, qname, attrs) =>
        err := None;
        DispatchStart(uri, localName, qname, attrs);
      case EndElem(uri, localName, qname) => err := EndElement(uri, localName, qname);
      case _ => err := DispatchOther(e);
    }

    /**
     * One event under the bookkeeping invariant: the open names take a StepNames step, the exception is
     * the one StepFailure gives, and the recorded depth reaches the new nesting level.
     */
    method Step(e: Event, ghost names: seq<string>) returns (err: Option<Failure>)
      requires TreeOk(tree, names) && WellFormedEvent(e) && document != null && document.maxDepth >= |names|
      modifies this`charBuf, this`tree, this`nsMappings, this`ignorePrefix, this`insideDTD,
               document`children, document`childCount, document`maxDepth, document`treeLevelOrder, document`doctype,
               broker`calls
      ensures TreeOk(tree, StepNames(names, e)) && err == StepFailure(names, e)
      ensures document.maxDepth == Max(old(document.maxDepth), |StepNames(names, e)|)
      ensures PassEffects(validate, old(broker.calls), broker.calls, old(document.treeLevelOrder), document.treeLevelOrder)
    {
      ghost var t := tree;
      ghost var buf, normalized, ns, dtd := charBuf, normalizer(charBuf, normalize), nsMappings, insideDTD;
      assert Indexed(t);
      StepHeight(names, e);
      err := Dispatch(e);
      assert TreeOk(tree, StepNames(names, e)) by {
        TreeAfterOk(t, names, e, buf, normalized, ns, validate, dtd);
      }
      assert err == StepFailure(names, e) by {
        FailureAgrees(t, names, e);
      }
    }

    /**
     * One replay of the stream (`xmlReader.parse`): every event is handled in order until one
     * throws. The replay ends as Outcome says; a clean replay leaves the names EndNames gives
     * and records the peak depth. Validating persists nothing and only raises level orders;
     * storing leaves the level orders alone and only adds broker calls.
     */
    method Parse(events: seq<Event>, ghost names0: seq<string>) returns (err: Option<Failure>, ghost names: seq<string>)
      requires TreeOk(tree, names0) && document != null && document.maxDepth >= |names0|
      requires forall i :: 0 <= i < |events| ==> WellFormedEvent(events[i])
      modifies this`charBuf, this`tree, this`nsMappings, this`ignorePrefix, this`insideDTD,
               document`children, document`childCount, document`maxDepth, document`treeLevelOrder, document`doctype,
               broker`calls
      ensures TreeOk(tree, names)
      ensures err == Outcome(names0, events)
      ensures err.None? ==>
                names == EndNames(names0, events) && document.maxDepth == Max(old(document.maxDepth), Peak(names0, events))
      ensures old(document.maxDepth) <= document.maxDepth <= Max(old(document.maxDepth), Peak(names0, events))
      ensures PassEffects(validate, old(broker.calls), broker.calls, old(document.treeLevelOrder), document.treeLevelOrder)
    {
      ghost var calls0, order0, depth0 := broker.calls, document.treeLevelOrder, document.maxDepth;
      names := names0;
      ghost var depth := |names0|;
      ghost var peak := Peak(names0, events);
      err := None;
      var i := 0;
      while i < |events| && err.None?
        invariant 0 <= i <= |events|
        invariant TreeOk(tree, names) && Replayed(names0, events, i, err, names, depth)
        invariant document.maxDepth >= |names| && (err.None? ==> document.maxDepth == Max(depth0, depth))
        invariant depth0 <= document.maxDepth <= Max(depth0, peak)
        invariant PassEffects(validate, calls0, broker.calls, order0, document.treeLevelOrder)
        decreases |events| - i
      {
        ghost var calls1, order1 := broker.calls, document.treeLevelOrder;
        ReplayStep(names0, events, i, names, depth);
        ReplayWithinPeak(names0, events, i, names, depth);
        err := Step(events[i], names);
        PassEffectsChain(validate, calls0, calls1, broker.calls, order0, order1, document.treeLevelOrder);
        depth := Max(depth, |StepNames(names, events[i])|);
        names := StepNames(names, events[i]);
        i := i + 1;
      }
      ReplayDone(names0, events, i, err, names, depth);
    }
    /**
     * The collection lookup of scan: the collection already held is kept when it has the path;
     * otherwise the broker's collection of that path is fetched or created, and saved.
     */
    method OpenCollection(path: string)
      requires broker.Named()
      modifies this`collection, broker`collections, broker`known, broker`calls
      ensures collection != null && collection.name == path && broker.Named()
      ensures (collection == old(collection) && broker.known == old(broker.known))
              || (broker.known == old(broker.known) + {collection} && (collection in old(broker.known) || fresh(collection)))
      ensures var c := collection; if fresh(c) then c.documents == map[] else c.documents == old(c.documents)
      ensures old(collection) != null && old(collection.name) == path ==>
                collection == old(collection) && broker.calls == old(broker.calls) && broker.collections == old(broker.collections)
      ensures !(old(collection) != null && old(collection.name) == path) ==>
                broker.calls == old(broker.calls) + [SaveCollection(path)]
                && broker.collections == old(broker.collections)[path := collection]
                && (path in old(broker.collections) ==> collection == old(broker.collections)[path])
                && (path !in old(broker.collections) ==>
                      fresh(collection) && collection.documents == map[]
                      && collection.permissions == broker.collectionPermission(user))
    {
      if collection == null || collection.name != path {
        var c := broker.GetOrCreateCollection(user, path);
        broker.Log([SaveCollection(path)]);
        collection := c;
      }
    }

    /** The document of the collection with the target's full name, if any. */
    function Existing(t: Target): (d: Document?)
      reads this, collection
      requires collection != null
      ensures d != null <==> FullPath(t) in collection.documents
    {
      if FullPath(t) in collection.documents then collection.documents[FullPath(t)] else null
    }

    /**
     * The permission check of scan: the existing document of the target, and the refusal
     * when the user may not replace it or may not write a new one into the collection.
     */
    method CheckPermission(t: Target) returns (oldDoc: Document?, err: Option<Failure>)
      requires collection != null
      ensures oldDoc == Existing(t)
      ensures err == GateFailure(permits, user, collection.name, collection.permissions,
                                 if oldDoc == null then None else Some(oldDoc.permissions))
    {
      oldDoc := Existing(t);
      if oldDoc != null {
        if !permits(oldDoc.permissions, user, Update) {
          return oldDoc, Some(PermissionDenied(UpdateNotAllowed));
        }
      } else if !permits(collection.permissions, user, Write) {
        return oldDoc, Some(PermissionDenied(WriteNotAllowed(collection.name)));
      }
      err := None;
    }

    /**
     * The new document of scan. Replacing a document, it carries the temporary name, the old
     * document's creation time and permissions, and `now` as last modification; otherwise the
     * full name, `now` as creation time, and the user as owner with the user's primary group.
     * Either way it takes the broker's next document id.
     */
    method CreateDocument(t: Target, oldDoc: Document?, now: int)
      modifies this`document, broker`nextDocId
      ensures document != null && fresh(document)
      ensures document.docId == old(broker.nextDocId) && broker.nextDocId == old(broker.nextDocId) + 1
      ensures document.doctype == None && document.maxDepth == 0 && document.treeLevelOrder == map[]
      ensures document.childCount == 0 && document.children == []
      ensures oldDoc != null ==>
                document.fileName == TemporaryName(t) && document.created == oldDoc.created
                && document.lastModified == Some(now) && document.permissions == oldDoc.permissions
      ensures oldDoc == null ==>
                document.fileName == FullPath(t) && document.created == now && document.lastModified == None
                && document.permissions == broker.documentPermission.(owner := user.name, group := user.primaryGroup)
    {
      var d: Document;
      if oldDoc != null {
        d := new Document(TemporaryName(t), broker.documentPermission);
        d.created := oldDoc.created;
        d.lastModified := Some(now);
      } else {
        d := new Document(FullPath(t), broker.documentPermission);
        d.created := now;
      }
      d.docId := broker.NextDocId();
      if oldDoc == null {
        d.permissions := d.permissions.(owner := user.name, group := user.primaryGroup);
      } else {
        d.permissions := oldDoc.permissions;
      }
      document := d;
    }

    /**
     * The reset before the validate pass: no open element, no root, an empty path and no
     * pending namespace declarations. The element objects and the pool are kept.
     */
    method ResetTree()
      requires Valid()
      modifies this`tree, this`nsMappings
      ensures tree == old(tree).(stack := [], rootNode := None, level := 0, currentPath := "") && nsMappings == map[]
      ensures TreeOk(tree, [])
    {
      ResetOk(tree, NamesOf(tree.elements, tree.stack));
      tree := tree.(stack := [], rootNode := None, level := 0, currentPath := "");
      nsMappings := map[];
    }
    /**
     * scan: the validate pass. The input and a writable database are checked first; then the
     * target is resolved, the collection opened, the permission gate applied and the new
     * document created, and the stream is replayed with validate set. A reader fault removes
     * the new document's name from the collection. A clean pass records one level more than the
     * deepest element and must fit the indexing scheme; then a replaced document is removed
     * from the broker, the new one takes its name, and the collection files the new document.
     * The steps after the target is resolved are stated by ScanTarget, Gate and Admission.
     */
    method Scan(src: Option<Source>, xmlFileName: Option<string>, now: int)
      returns (err: Option<Failure>, ghost target: Result<Target, Failure>, ghost docs0: map<string, Document>,
               ghost replaced: Document?, ghost gate: Option<Failure>)
      requires Valid() && broker.Named()
      requires src.Some? ==> forall i :: 0 <= i < |src.value.events| ==> WellFormedEvent(src.value.events[i])
      modifies this, broker, collection, broker.known
      ensures Valid() && broker.Named()
      ensures src.None? ==> err == Some(IOFailure(NoInputSource)) && unchanged(this, broker)
      ensures src.Some? && broker.readOnly ==> err == Some(PermissionDenied(ReadOnlyDatabase)) && unchanged(this, broker)
      ensures src.Some? && !broker.readOnly ==>
                validate && target == ResolveTarget(xmlFileName, src.value.systemId, pathSeparator)
      ensures src.Some? && !broker.readOnly && target.Err? ==>
                err == Some(target.error) && collection == old(collection) && document == old(document)
                && tree == old(tree) && broker.calls == old(broker.calls)
      ensures src.Some? && !broker.readOnly && target.Ok? ==>
                fileName == target.value.fileName && collection != null && collection.name == target.value.collection
                && (err.None? ==>
                      document != null && fresh(document) && Outcome([], src.value.events) == None
                      && document.maxDepth == Peak([], src.value.events) + 1
                      && document.fileName in collection.documents && collection.documents[document.fileName] == document)
      ensures src.Some? && !broker.readOnly && target.Ok? ==>
                var t, c := target.value, collection;
                docs0 == (if fresh(c) then map[] else old(c.documents))
                && GateEnds(t, src.value.events, collection.permissions, docs0, replaced, gate, err, document, collection.documents)
                && (gate.Some? ==> document == old(document))
                && broker.calls
                   == old(broker.calls)
                      + (if old(collection) != null && old(collection.name) == t.collection then [] else [SaveCollection(t.collection)])
                      + (if err.None? && replaced != null then [RemoveDocument(replaced.fileName)] else [])
    {
      if src.None? {
        return Some(IOFailure(NoInputSource)), Err(IOFailure(NoInputSource)), map[], null, None;
      }
      if broker.readOnly {
        return Some(PermissionDenied(ReadOnlyDatabase)), Err(PermissionDenied(ReadOnlyDatabase)), map[], null, None;
      }
      validate := true;
      var r := ResolveTarget(xmlFileName, src.value.systemId, pathSeparator);
      target := r;
      if r.Err? {
        return Some(r.error), target, map[], null, None;
      }
      err, docs0, replaced, gate := ScanTarget(r.value, src.value.events, now);
    }

    /**
     * The part of scan after the target is known: the file name is the target's, the collection is opened (OpenCollection),
     * then the permission gate and the validate pass run on it (Gate). A clean pass leaves the
     * new document filed in the collection under its final name.
     */
    method ScanTarget(t: Target, events: seq<Event>, now: int)
      returns (err: Option<Failure>, ghost docs0: map<string, Document>, ghost replaced: Document?, ghost gate: Option<Failure>)
      requires Valid() && broker.Named() && validate
      requires forall i :: 0 <= i < |events| ==> WellFormedEvent(events[i])
      modifies this`fileName, this`collection, this`document, this`tree, this`nsMappings, this`charBuf, this`ignorePrefix,
               this`insideDTD, broker`collections, broker`known, broker`calls, broker`nextDocId, collection, broker.known
      ensures Valid() && broker.Named() && fileName == t.fileName
      ensures collection != null && collection.name == t.collection
      ensures var c := collection; docs0 == if fresh(c) then map[] else old(c.documents)
      ensures GateEnds(t, events, collection.permissions, docs0, replaced, gate, err, document, collection.documents)
      ensures gate.Some? ==> document == old(document)
      ensures err.None? ==> document != null && fresh(document)
      ensures var saved := if old(collection) != null && old(collection.name) == t.collection then [] else [SaveCollection(t.collection)];
              broker.calls == old(broker.calls) + saved + (if err.None? && replaced != null then [RemoveDocument(replaced.fileName)] else [])
    {
      fileName := t.fileName;
      ghost var saved := if collection != null && collection.name == t.collection then [] else [SaveCollection(t.collection)];
      ghost var calls0 := broker.calls;
      OpenCollection(t.collection);
      ghost var calls1 := broker.calls;
      assert calls1 == calls0 + saved;
      docs0 := collection.documents;
      err, replaced, gate := Gate(t, events, now);
    }

    /**
     * How the permission gate and the validate pass of scan end on a collection with documents
     * `docs0` and permission `perm`, leaving the document `doc` and the documents `docs`:
     * `replaced` is the document the target names, if any; a refusal is the one GateFailure
     * gives and leaves the documents alone; a permitted scan fails as PassFailure says, a SAX
     * failure taking the new document's name out of the collection and any other failure
     * leaving the documents alone; success files the new document, with the stream's depth
     * plus one, under the name of the document it replaces or under the target's full name.
     */
    ghost predicate GateEnds(t: Target, events: seq<Event>, perm: Permission, docs0: map<string, Document>,
                             replaced: Document?, gate: Option<Failure>, err: Option<Failure>, doc: Document?,
                             docs: map<string, Document>)
      reads replaced, doc
    {
      var sax := Outcome([], events).Some? && Outcome([], events).value.SaxFailure?;
      replaced == (if FullPath(t) in docs0 then docs0[FullPath(t)] else null)
      && gate == GateFailure(permits, user, t.collection, perm, if replaced == null then None else Some(replaced.permissions))
      && (gate.Some? ==> err == gate && docs == docs0)
      && (gate.None? ==>
            doc != null && err == PassFailure(events, levelsFit, doc.treeLevelOrder)
            && (sax ==> docs == docs0 - {if replaced != null then TemporaryName(t) else FullPath(t)})
            && (err.Some? && !sax ==> docs == docs0))
      && (err.None? ==>
            doc != null && doc.maxDepth == Peak([], events) + 1
            && doc.fileName == (if replaced != null then replaced.fileName else FullPath(t))
            && docs == docs0[doc.fileName := doc])
    }

    /** The permission gate of scan on the target's collection, then the validate pass when it lets the user through. */
    method Gate(t: Target, events: seq<Event>, now: int)
      returns (err: Option<Failure>, ghost replaced: Document?, ghost gate: Option<Failure>)
      requires Valid() && broker.Named() && validate && collection != null && collection.name == t.collection
      requires forall i :: 0 <= i < |events| ==> WellFormedEvent(events[i])
      modifies this`document, this`charBuf, this`tree, this`nsMappings, this`ignorePrefix, this`insideDTD,
               broker`calls, broker`nextDocId, collection`documents
      ensures Valid() && broker.Named()
      ensures GateEnds(t, events, collection.permissions, old(collection.documents), replaced, gate, err, document,
                       collection.documents)
      ensures gate.Some? ==> tree == old(tree) && document == old(document)
      ensures gate.None? ==> document != null && fresh(document)
      ensures broker.calls == old(broker.calls) + (if err.None? && replaced != null then [RemoveDocument(replaced.fileName)] else [])
    {
      var oldDoc, g := CheckPermission(t);
      replaced, gate := oldDoc, g;
      if g.Some? {
        return g, replaced, gate;
      }
      err := Admission(t, oldDoc, events, now);
    }

    /** A permitted scan: the new document is created and the validate pass run on it. */
    method Admission(t: Target, oldDoc: Document?, events: seq<Event>, now: int) returns (err: Option<Failure>)
      requires Valid() && validate && collection != null
      requires forall i :: 0 <= i < |events| ==> WellFormedEvent(events[i])
      modifies this`document, this`charBuf, this`tree, this`nsMappings, this`ignorePrefix, this`insideDTD,
               broker`calls, broker`nextDocId, collection`documents
      ensures Valid() && document != null && fresh(document)
      ensures err == PassFailure(events, levelsFit, document.treeLevelOrder)
      ensures err.None? ==>
                document.maxDepth == Peak([], events) + 1
                && document.fileName == (if oldDoc != null then oldDoc.fileName else FullPath(t))
                && collection.documents == old(collection.documents)[document.fileName := document]
                && broker.calls == old(broker.calls) + (if oldDoc != null then [RemoveDocument(oldDoc.fileName)] else [])
      ensures err.Some? ==> broker.calls == old(broker.calls)
      ensures Outcome([], events).Some? && Outcome([], events).value.SaxFailure? ==>
                collection.documents == old(collection.documents) - {if oldDoc != null then TemporaryName(t) else FullPath(t)}
      ensures err.Some? && !(Outcome([], events).Some? && Outcome([], events).value.SaxFailure?) ==>
                collection.documents == old(collection.documents)
    {
      CreateDocument(t, oldDoc, now);
      ghost var name := document.fileName;
      assert name == if oldDoc != null then TemporaryName(t) else FullPath(t);
      err := ValidatePass(oldDoc, events);
      assert Outcome([], events).Some? ==> document.fileName == name;
    }

    /**
     * The replay of the validate pass on a fresh document: the tree is reset and every event
     * replayed, which builds nothing in the broker and leaves the depth of the stream.
     */
    method ValidateStream(events: seq<Event>) returns (err: Option<Failure>)
      requires Valid() && validate && document != null && document.maxDepth == 0
      requires forall i :: 0 <= i < |events| ==> WellFormedEvent(events[i])
      modifies this`charBuf, this`tree, this`nsMappings, this`ignorePrefix, this`insideDTD,
               document`children, document`childCount, document`maxDepth, document`treeLevelOrder, document`doctype,
               broker`calls
      ensures Valid() && broker.calls == old(broker.calls)
      ensures err == Outcome([], events)
      ensures err.None? ==> document.maxDepth == Peak([], events)
    {
      ResetTree();
      ghost var names;
      err, names := Parse(events, []);
    }

    /**
     * The validate pass of scan for the new document: the stream is replayed without
     * persisting anything, then the pass is concluded.
     */
    method ValidatePass(oldDoc: Document?, events: seq<Event>) returns (err: Option<Failure>)
      requires Valid() && validate && collection != null && document != null && document.maxDepth == 0
      requires forall i :: 0 <= i < |events| ==> WellFormedEvent(events[i])
      modifies this`charBuf, this`tree, this`nsMappings, this`ignorePrefix, this`insideDTD,
               document`children, document`childCount, document`maxDepth, document`treeLevelOrder, document`doctype,
               document`fileName, broker`calls, collection`documents
      ensures Valid()
      ensures err == PassFailure(events, levelsFit, document.treeLevelOrder)
      ensures err.None? ==>
                document.maxDepth == Peak([], events) + 1
                && document.fileName == (if oldDoc != null then oldDoc.fileName else old(document.fileName))
                && collection.documents == old(collection.documents)[document.fileName := document]
                && broker.calls == old(broker.calls) + (if oldDoc != null then [RemoveDocument(oldDoc.fileName)] else [])
      ensures err.Some? ==> broker.calls == old(broker.calls) && document.fileName == old(document.fileName)
      ensures Outcome([], events).Some? && Outcome([], events).value.SaxFailure? ==>
                collection.documents == old(collection.documents) - {document.fileName}
      ensures err.Some? && !(Outcome([], events).Some? && Outcome([], events).value.SaxFailure?) ==>
                collection.documents == old(collection.documents)
    {
      var c, d := collection, document;
      var perr := ValidateStream(events);
      assert perr == Outcome([], events);
      assert perr.None? ==> d.maxDepth == Peak([], events);
      err := Conclude(c, d, oldDoc, perr);
      assert Valid();
    }

    /**
     * The end of the validate pass. A failed pass removes the new document's name from the
     * collection when the failure is a SAX one. A successful pass raises the depth by one for
     * the document node and checks it; then the replaced document is removed, its name taken
     * over and the new document added to the collection.
     */
    method Conclude(c: Collection, d: Document, oldDoc: Document?, perr: Option<Failure>) returns (err: Option<Failure>)
      modifies d`maxDepth, d`fileName, broker`calls, c`documents
      ensures err == (if perr.Some? then perr
                      else if levelsFit(old(d.maxDepth) + 1, d.treeLevelOrder) then None
                      else Some(SaxFailure(NestingTooDeep)))
      ensures perr.None? ==> d.maxDepth == old(d.maxDepth) + 1
      ensures err.None? ==>
                d.fileName == (if oldDoc != null then oldDoc.fileName else old(d.fileName))
                && c.documents == old(c.documents)[d.fileName := d]
                && broker.calls == old(broker.calls) + (if oldDoc != null then [RemoveDocument(oldDoc.fileName)] else [])
      ensures err.Some? ==> broker.calls == old(broker.calls) && d.fileName == old(d.fileName)
      ensures perr.Some? && perr.value.SaxFailure? ==> c.documents == old(c.documents) - {d.fileName}
      ensures err.Some? && !(perr.Some? && perr.value.SaxFailure?) ==> c.documents == old(c.documents)
    {
      if perr.Some? {
        if perr.value.SaxFailure? {
          c.documents := c.documents - {d.fileName};
        }
        return perr;
      }
      d.maxDepth := d.maxDepth + 1;
      if !levelsFit(d.maxDepth, d.treeLevelOrder) {
        return Some(SaxFailure(NestingTooDeep));
      }
      if oldDoc != null {
        broker.Log([RemoveDocument(oldDoc.fileName)]);
        d.fileName := oldDoc.fileName;
      }
      c.documents := c.documents[d.fileName := d];
      err := None;
    }

    /**
     * The start of store: validate is cleared; a document without a doctype gets one named
     * after the root element, with the document's name as system id, and without a root
     * element the NullPointerException is caught and reported as a SAX failure; the child
     * count is reset.
     */
    method PrepareStore() returns (err: Option<Failure>)
      requires Valid() && document != null
      modifies this`validate, document`doctype, document`childCount
      ensures !validate
      ensures old(document.doctype).Some? ==> err.None? && document.doctype == old(document.doctype)
      ensures old(document.doctype).None? ==>
                (err.Some? <==> tree.rootNode.None?)
                && (err.Some? ==> err == Some(SaxFailure(NullPointer)) && document.doctype == None)
                && (err.None? ==>
                      document.doctype == Some(DocType(NodeName(tree.elements[tree.rootNode.value].name), None,
                                                       Some(document.fileName))))
      ensures err.None? ==> document.childCount == 0
      ensures err.Some? ==> document.childCount == old(document.childCount)
    {
      validate := false;
      if document.doctype.None? {
        if tree.rootNode.None? {
          return Some(SaxFailure(NullPointer));
        }
        var root := tree.elements[tree.rootNode.value];
        document.doctype := Some(DocType(NodeName(root.name), None, Some(document.fileName)));
      }
      document.childCount := 0;
      err := None;
    }

    /**
     * store: the store pass, after scan. The stream is replayed with validate cleared, so every
     * node goes to the broker and the per-level orders stay as the validate pass left them;
     * a clean pass ends with the document added to its collection, closed and flushed.
     */
    method StorePass(events: seq<Event>) returns (err: Option<Failure>)
      requires Valid() && document != null && collection != null && document.maxDepth >= tree.level
      requires forall i :: 0 <= i < |events| ==> WellFormedEvent(events[i])
      modifies this`validate, this`charBuf, this`tree, this`nsMappings, this`ignorePrefix, this`insideDTD,
               document`children, document`childCount, document`maxDepth, document`treeLevelOrder, document`doctype,
               broker`calls
      ensures Valid() && !validate
      ensures old(document.doctype).None? && old(tree.rootNode).None? ==>
                err == Some(SaxFailure(NullPointer)) && tree == old(tree) && broker.calls == old(broker.calls)
      ensures old(document.doctype).Some? || old(tree.rootNode).Some? ==>
                err == Outcome(NamesOf(old(tree.elements), old(tree.stack)), events)
                && document.treeLevelOrder == old(document.treeLevelOrder) && old(broker.calls) <= broker.calls
      ensures err.None? ==>
                |broker.calls| >= 3
                && broker.calls[|broker.calls| - 3..] == [AddDocument(collection.name, document.fileName), CloseDocument, Flush]
      ensures var peak := Peak(NamesOf(old(tree.elements), old(tree.stack)), events);
              old(document.maxDepth) <= document.maxDepth <= Max(old(document.maxDepth), peak)
              && (peak <= old(document.maxDepth) ==> document.maxDepth == old(document.maxDepth))
    {
      ghost var names0 := NamesOf(tree.elements, tree.stack);
      err := PrepareStore();
      if err.Some? {
        return;
      }
      err := StoreReplay(events, names0);
    }

    /** The replay of the store pass and, when it ends cleanly, the document's closing calls. */
    method StoreReplay(events: seq<Event>, ghost names0: seq<string>) returns (err: Option<Failure>)
      requires TreeOk(tree, names0) && document != null && collection != null && document.maxDepth >= |names0| && !validate
      requires forall i :: 0 <= i < |events| ==> WellFormedEvent(events[i])
      modifies this`charBuf, this`tree, this`nsMappings, this`ignorePrefix, this`insideDTD,
               document`children, document`childCount, document`maxDepth, document`treeLevelOrder, document`doctype,
               broker`calls
      ensures Valid()
      ensures err == Outcome(names0, events)
      ensures document.treeLevelOrder == old(document.treeLevelOrder) && old(broker.calls) <= broker.calls
      ensures err.None? ==>
                |broker.calls| >= 3
                && broker.calls[|broker.calls| - 3..] == [AddDocument(collection.name, document.fileName), CloseDocument, Flush]
      ensures old(document.maxDepth) <= document.maxDepth <= Max(old(document.maxDepth), Peak(names0, events))
    {
      ghost var names;
      err, names := Parse(events, names0);
      if err.Some? {
        return;
      }
      broker.Log([AddDocument(collection.name, document.fileName), CloseDocument, Flush]);
    }
  }
}
