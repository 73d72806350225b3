/**
 * The element objects of the ingestion parser, as slots of an arena indexed by ElemId: the
 * open-element stack and the pool of retired elements (`usedElements`) hold ids into it, so
 * that the reuse of a pooled object is visible as the reuse of its id.
 */
module ElementArena {
  import opened Base
  import opened XmlNames
  import opened Dom
  import opened StructuralPath

  predicate InBounds(ids: seq<ElemId>, n: nat)
  {
    forall i :: 0 <= i < |ids| ==> ids[i] < n
  }

  /** No element is open twice, pooled twice, or both open and pooled. */
  ghost predicate Exclusive(stack: seq<ElemId>, pool: seq<ElemId>)
  {
    forall x :: multiset(stack)[x] + multiset(pool)[x] <= 1
  }

  /**
   * The arena invariant: stack and pool are in bounds and hold each element at most once together; pooled
   * elements are cleared; and the bottom of a non-empty stack is the root, which is never pooled.
   */
  ghost predicate ArenaOk(elements: seq<ElemRec>, stack: seq<ElemId>, pool: seq<ElemId>, root: Option<ElemId>)
  {
    InBounds(stack, |elements|) && InBounds(pool, |elements|)
    && Exclusive(stack, pool)
    && (forall j :: 0 <= j < |pool| ==> IsCleared(elements[pool[j]]))
    && (|stack| > 0 ==> root == Some(stack[0]))
    && (root.Some? ==> root.value < |elements| && root.value !in pool)
  }

  /** The node names of the given elements, in order. */
  function NamesOf(elements: seq<ElemRec>, ids: seq<ElemId>): (ns: seq<string>)
    requires InBounds(ids, |elements|)
    ensures |ns| == |ids|
    ensures forall i :: 0 <= i < |ids| ==> ns[i] == NodeName(elements[ids[i]].name)
  {
    seq(|ids|, i requires 0 <= i < |ids| => NodeName(elements[ids[i]].name))
  }

  /** The arena after `appendChildInternal(c)` on element `id`. */
  function WithChild(elements: seq<ElemRec>, id: ElemId, c: Child): (r: seq<ElemRec>)
    requires id < |elements|
    ensures |r| == |elements| && r[id].children == elements[id].children + [c]
    ensures r[id].name == elements[id].name
    ensures forall k :: 0 <= k < |r| && k != id ==> r[k] == elements[k]
  {
    elements[id := elements[id].(children := elements[id].children + [c])]
  }

  /** The arena after appending several children, in order, to element `id`. */
  function WithChildren(elements: seq<ElemRec>, id: ElemId, cs: seq<Child>): (r: seq<ElemRec>)
    requires id < |elements|
    ensures |r| == |elements| && r[id].children == elements[id].children + cs
    ensures r[id].name == elements[id].name
    ensures forall k :: 0 <= k < |r| && k != id ==> r[k] == elements[k]
  {
    elements[id := elements[id].(children := elements[id].children + cs)]
  }

  /** An element that is neither open nor pooled. */
  predicate Detached(elements: seq<ElemRec>, stack: seq<ElemId>, pool: seq<ElemId>, id: ElemId)
  {
    id < |elements| && id !in stack && id !in pool
  }

  /** An open element is not pooled. */
  lemma OpenNotPooled(stack: seq<ElemId>, pool: seq<ElemId>, id: ElemId)
    requires Exclusive(stack, pool) && id in stack
    ensures id !in pool
  {
    assert multiset(stack)[id] + multiset(pool)[id] <= 1;
  }

  /** A sequence is its prefix followed by its last element, also as a multiset. */
  lemma SplitLast(ids: seq<ElemId>)
    requires ids != []
    ensures ids == ids[..|ids| - 1] + [ids[|ids| - 1]]
    ensures multiset(ids) == multiset(ids[..|ids| - 1]) + multiset{ids[|ids| - 1]}
  {
    assert ids == ids[..|ids| - 1] + [ids[|ids| - 1]];
  }

  /** Appending a child to an open element keeps the invariant and the names of the open elements. */
  lemma AppendKeeps(elements: seq<ElemRec>, stack: seq<ElemId>, pool: seq<ElemId>, root: Option<ElemId>,
                    id: ElemId, c: Child)
    requires ArenaOk(elements, stack, pool, root) && id in stack
    ensures ArenaOk(WithChild(elements, id, c), stack, pool, root)
    ensures NamesOf(WithChild(elements, id, c), stack) == NamesOf(elements, stack)
  {
    OpenNotPooled(stack, pool, id);
  }

  /** Appending several children to an open element keeps the invariant and the names of the open elements. */
  lemma AppendAllKeeps(elements: seq<ElemRec>, stack: seq<ElemId>, pool: seq<ElemId>, root: Option<ElemId>,
                       id: ElemId, cs: seq<Child>)
    requires ArenaOk(elements, stack, pool, root) && id in stack
    ensures ArenaOk(WithChildren(elements, id, cs), stack, pool, root)
    ensures NamesOf(WithChildren(elements, id, cs), stack) == NamesOf(elements, stack)
  {
    OpenNotPooled(stack, pool, id);
  }

  /** Taking the top of the pool yields a detached element and keeps the invariant for the rest of the pool. */
  lemma TakePooled(elements: seq<ElemRec>, stack: seq<ElemId>, pool: seq<ElemId>, root: Option<ElemId>)
    requires ArenaOk(elements, stack, pool, root) && pool != []
    ensures var id := pool[|pool| - 1]; var rest := pool[..|pool| - 1];
      ArenaOk(elements, stack, rest, root) && Detached(elements, stack, rest, id) && root != Some(id)
  {
    var id := pool[|pool| - 1];
    SplitLast(pool);
    assert multiset(stack)[id] + multiset(pool)[id] <= 1;
  }

  /** Allocating a new slot yields a detached element. */
  lemma TakeFresh(elements: seq<ElemRec>, stack: seq<ElemId>, pool: seq<ElemId>, root: Option<ElemId>, rec: ElemRec)
    requires ArenaOk(elements, stack, pool, root)
    ensures ArenaOk(elements + [rec], stack, pool, root) && Detached(elements + [rec], stack, pool, |elements|)
    ensures root != Some(|elements|)
    ensures NamesOf(elements + [rec], stack) == NamesOf(elements, stack)
  {
  }

  /** Overwriting a detached element keeps the invariant and the names of the open elements. */
  lemma WriteDetached(elements: seq<ElemRec>, stack: seq<ElemId>, pool: seq<ElemId>, root: Option<ElemId>,
                      id: ElemId, rec: ElemRec)
    requires ArenaOk(elements, stack, pool, root) && Detached(elements, stack, pool, id)
    ensures ArenaOk(elements[id := rec], stack, pool, root) && Detached(elements[id := rec], stack, pool, id)
    ensures NamesOf(elements[id := rec], stack) == NamesOf(elements, stack)
  {
  }

  /** Pushing a detached element on a non-empty stack. */
  lemma PushChild(elements: seq<ElemRec>, stack: seq<ElemId>, pool: seq<ElemId>, root: Option<ElemId>, id: ElemId)
    requires ArenaOk(elements, stack, pool, root) && Detached(elements, stack, pool, id) && stack != []
    ensures ArenaOk(elements, stack + [id], pool, root)
    ensures NamesOf(elements, stack + [id]) == NamesOf(elements, stack) + [NodeName(elements[id].name)]
  {
  }

  /** Pushing a detached element on the empty stack makes it the root. */
  lemma PushRoot(elements: seq<ElemRec>, pool: seq<ElemId>, root: Option<ElemId>, id: ElemId)
    requires ArenaOk(elements, [], pool, root) && Detached(elements, [], pool, id)
    ensures ArenaOk(elements, [id], pool, Some(id))
    ensures NamesOf(elements, [id]) == [NodeName(elements[id].name)]
  {
  }

  /** The slot startElement fills below the root: the most recently pooled element, else a new one. */
  function NextSlot(elements: seq<ElemRec>, pool: seq<ElemId>): ElemId
  {
    if pool == [] then |elements| else pool[|pool| - 1]
  }

  /** The pool after startElement took its slot. */
  function PoolAfterOpen(pool: seq<ElemId>): seq<ElemId>
  {
    if pool == [] then [] else pool[..|pool| - 1]
  }

  /**
   * Opening a child element: its slot is appended to the parent's children, filled with `rec`
   * and pushed; the invariant holds and the open names grow by the child's name.
   */
  lemma OpenChildArena(elements: seq<ElemRec>, stack: seq<ElemId>, pool: seq<ElemId>, root: Option<ElemId>, rec: ElemRec)
    requires ArenaOk(elements, stack, pool, root) && stack != []
    ensures var id := NextSlot(elements, pool);
      var withParent := WithChild(elements, stack[|stack| - 1], ElementChild(id, rec.name));
      var e := if pool == [] then withParent + [rec] else withParent[id := rec];
      ArenaOk(e, stack + [id], PoolAfterOpen(pool), root)
      && NamesOf(e, stack + [id]) == NamesOf(elements, stack) + [NodeName(rec.name)]
  {
    var id := NextSlot(elements, pool);
    var parent := stack[|stack| - 1];
    var withParent := WithChild(elements, parent, ElementChild(id, rec.name));
    AppendKeeps(elements, stack, pool, root, parent, ElementChild(id, rec.name));
    if pool == [] {
      TakeFresh(withParent, stack, pool, root, rec);
      PushChild(withParent + [rec], stack, pool, root, id);
    } else {
      TakePooled(withParent, stack, pool, root);
      WriteDetached(withParent, stack, PoolAfterOpen(pool), root, id, rec);
      PushChild(withParent[id := rec], stack, PoolAfterOpen(pool), root, id);
    }
  }

  /** Opening the root: a new slot, the only open element. */
  lemma OpenRootArena(elements: seq<ElemRec>, pool: seq<ElemId>, root: Option<ElemId>, rec: ElemRec)
    requires ArenaOk(elements, [], pool, root)
    ensures var id := |elements|;
      ArenaOk(elements + [rec], [id], pool, Some(id)) && NamesOf(elements + [rec], [id]) == [NodeName(rec.name)]
  {
    TakeFresh(elements, [], pool, root, rec);
    PushRoot(elements + [rec], pool, root, |elements|);
  }

  /** Closing a non-root element: it is cleared and pooled. */
  lemma PopToPool(elements: seq<ElemRec>, stack: seq<ElemId>, pool: seq<ElemId>, root: Option<ElemId>)
    requires ArenaOk(elements, stack, pool, root) && |stack| > 1
    ensures var top := stack[|stack| - 1];
      var e := elements[top := Cleared(elements[top])];
      root != Some(top)
      && ArenaOk(e, stack[..|stack| - 1], pool + [top], root)
      && NamesOf(e, stack[..|stack| - 1]) == NamesOf(elements, stack)[..|stack| - 1]
  {
    var top := stack[|stack| - 1];
    var rest := stack[..|stack| - 1];
    SplitLast(stack);
    assert rest[0] == stack[0];
    assert multiset(stack)[top] + multiset(pool)[top] <= 1;
    assert top !in rest;
    assert multiset(rest + [top]) == multiset(stack);
    assert multiset(pool + [top]) == multiset(pool) + multiset{top};
  }

  /** Closing the root: it stays out of the pool. */
  lemma PopRoot(elements: seq<ElemRec>, stack: seq<ElemId>, pool: seq<ElemId>, root: Option<ElemId>)
    requires ArenaOk(elements, stack, pool, root) && |stack| == 1
    ensures root == Some(stack[0]) && ArenaOk(elements, [], pool, root)
  {
  }

  /**
   * The parser's element bookkeeping, updated by every element callback: the element objects,
   * the open-element stack, the pool of retired elements (`usedElements`), the root, the
   * nesting `level` and the structural path `currentPath`.
   */
  datatype TreeState = TreeState(elements: seq<ElemRec>, stack: seq<ElemId>, usedElements: seq<ElemId>,
                                 rootNode: Option<ElemId>, level: int, currentPath: string)

  /**
   * The invariant of the bookkeeping: the arena invariant; `level` is the stack height; `names`
   * are the node names of the open elements, none of which holds '/'; and the structural path
   * spells them out.
   */
  ghost predicate TreeOk(t: TreeState, names: seq<string>)
  {
    ArenaOk(t.elements, t.stack, t.usedElements, t.rootNode) && t.level == |t.stack|
    && names == NamesOf(t.elements, t.stack) && t.currentPath == JoinPath(names)
    && (forall i :: 0 <= i < |names| ==> '/' !in names[i])
  }

  /** The innermost open element. */
  function Top(t: TreeState): ElemId
    requires t.stack != []
  {
    t.stack[|t.stack| - 1]
  }

  /** Stack and pool hold slots of the arena. */
  predicate Indexed(t: TreeState)
  {
    InBounds(t.stack, |t.elements|) && InBounds(t.usedElements, |t.elements|)
  }

  /** `appendChildInternal` of each of `cs`, in order, on the innermost open element. */
  function Appended(t: TreeState, cs: seq<Child>): (r: TreeState)
    requires t.stack != [] && Indexed(t)
    ensures r.stack == t.stack && Indexed(r)
  {
    t.(elements := WithChildren(t.elements, Top(t), cs))
  }

  /**
   * The non-root branch of startElement: the slot NextSlot gives (the most recently pooled
   * element, else a new one) is appended to the parent's children, filled with `rec` and
   * pushed; one level deeper, the path extended by "/" + name.
   */
  function Opened(t: TreeState, rec: ElemRec, qname: string): (r: TreeState)
    requires t.stack != [] && Indexed(t)
    ensures r.stack != [] && Indexed(r) && Top(r) == NextSlot(t.elements, t.usedElements)
  {
    var id := NextSlot(t.elements, t.usedElements);
    var withParent := WithChild(t.elements, Top(t), ElementChild(id, rec.name));
    TreeState(if t.usedElements == [] then withParent + [rec] else withParent[id := rec], t.stack + [id],
              PoolAfterOpen(t.usedElements), t.rootNode, t.level + 1, t.currentPath + "/" + qname)
  }

  /** The element startElement fills in: the most recently pooled one, renamed, or a new one. */
  function Reused(t: TreeState, qn: QName): ElemRec
    requires Indexed(t)
  {
    if t.usedElements != [] then t.elements[NextSlot(t.elements, t.usedElements)].(name := qn) else NewElement(qn)
  }

  /** The root branch of startElement: a new slot becomes the root and the only open element. */
  function OpenedRoot(t: TreeState, rec: ElemRec, qname: string): (r: TreeState)
    requires t.stack == [] && Indexed(t)
    ensures r.stack != [] && Indexed(r) && Top(r) == |t.elements|
  {
    var id := |t.elements|;
    TreeState(t.elements + [rec], t.stack + [id], t.usedElements, Some(id), t.level + 1, t.currentPath + "/" + qname)
  }

  /**
   * endElement: the innermost element is popped and the path cut at its last '/' (the invariant
   * guarantees there is one); unless it is the root, the element is cleared and pooled.
   */
  function Closed(t: TreeState): (r: TreeState)
    requires t.stack != [] && Indexed(t)
    ensures Indexed(r)
  {
    var top := Top(t);
    var n := |t.stack| - 1;
    var cut := LastIndexOf(t.currentPath, '/');
    var path := if cut < 0 then t.currentPath else t.currentPath[..cut];
    if t.rootNode != Some(top) then
      TreeState(t.elements[top := Cleared(t.elements[top])], t.stack[..n], t.usedElements + [top], t.rootNode,
                t.level - 1, path)
    else
      t.(stack := t.stack[..n], level := t.level - 1, currentPath := path)
  }

  /** Appending children to the innermost open element keeps the bookkeeping; only that element changes. */
  lemma AppendedOk(t: TreeState, names: seq<string>, cs: seq<Child>)
    requires TreeOk(t, names) && t.stack != []
    ensures var r := Appended(t, cs);
      TreeOk(r, names) && r.elements[Top(t)] == t.elements[Top(t)].(children := t.elements[Top(t)].children + cs)
  {
    AppendAllKeeps(t.elements, t.stack, t.usedElements, t.rootNode, Top(t), cs);
  }

  /** Opening a child element keeps the bookkeeping with its name pushed. */
  lemma OpenedOk(t: TreeState, names: seq<string>, rec: ElemRec, qname: string)
    requires TreeOk(t, names) && t.stack != [] && '/' !in qname && NodeName(rec.name) == qname
    ensures TreeOk(Opened(t, rec, qname), names + [qname])
  {
    OpenChildArena(t.elements, t.stack, t.usedElements, t.rootNode, rec);
    JoinPathPush(names, qname);
    SlashFreePush(names, qname);
  }

  /**
   * The slot a child element opens in was not open (it is the pooled, cleared element or a new
   * one); it now holds `rec`, and the parent gains it as its last child.
   */
  lemma OpenedSlot(t: TreeState, rec: ElemRec, qname: string)
    requires ArenaOk(t.elements, t.stack, t.usedElements, t.rootNode) && t.stack != []
    ensures var id := NextSlot(t.elements, t.usedElements);
      var r := Opened(t, rec, qname);
      r.elements[id] == rec && id !in t.stack
      && r.elements[Top(t)].children == t.elements[Top(t)].children + [ElementChild(id, rec.name)]
      && (t.usedElements == [] ==> id == |t.elements|)
      && (t.usedElements != [] ==> id < |t.elements| && IsCleared(t.elements[id]))
  {
    if t.usedElements != [] {
      TakePooled(t.elements, t.stack, t.usedElements, t.rootNode);
    }
  }

  /** Appending to the innermost element leaves the pooled slot NextSlot gives cleared. */
  lemma PooledCleared(t: TreeState, cs: seq<Child>)
    requires ArenaOk(t.elements, t.stack, t.usedElements, t.rootNode) && t.stack != [] && t.usedElements != []
    ensures var f := Appended(t, cs);
      var id := NextSlot(f.elements, f.usedElements);
      id < |f.elements| && IsCleared(f.elements[id])
  {
    TakePooled(t.elements, t.stack, t.usedElements, t.rootNode);
  }

  /** Opening the root keeps the bookkeeping: one open element, the path "/" + name. */
  lemma OpenedRootOk(t: TreeState, names: seq<string>, rec: ElemRec, qname: string)
    requires TreeOk(t, names) && t.stack == [] && '/' !in qname && NodeName(rec.name) == qname
    ensures var r := OpenedRoot(t, rec, qname);
      TreeOk(r, [qname]) && r.elements[Top(r)] == rec && r.currentPath == "/" + qname && r.level == 1
  {
    OpenRootArena(t.elements, t.usedElements, t.rootNode, rec);
    JoinPathPush([], qname);
    assert [] + [qname] == [qname];
  }

  /**
   * Closing the innermost element keeps the bookkeeping with its name popped: the path cut at
   * the last '/' is the path of the remaining open elements, and the closed element is pooled
   * exactly when it is not the root.
   */
  lemma ClosedOk(t: TreeState, names: seq<string>)
    requires TreeOk(t, names) && t.stack != []
    ensures var n := |t.stack| - 1;
      var r := Closed(t);
      TreeOk(r, names[..n]) && r.currentPath == JoinPath(names[..n])
      && (n > 0 <==> t.rootNode != Some(Top(t)))
  {
    var n := |t.stack| - 1;
    JoinPathTruncate(names);
    if n > 0 {
      PopToPool(t.elements, t.stack, t.usedElements, t.rootNode);
    } else {
      PopRoot(t.elements, t.stack, t.usedElements, t.rootNode);
    }
  }

  /**
   * The whole non-root branch of startElement: text children flushed into the parent, the child
   * opened with record `rec`, then its attribute children appended. The child is the new
   * innermost element in the slot NextSlot gives, holding `rec` and its attribute children;
   * the parent gained the text and then the child; the path grew by "/" + name.
   */
  lemma ChildStarted(t: TreeState, names: seq<string>, text: seq<Child>, rec: ElemRec, qname: string, kids: seq<Child>)
    requires TreeOk(t, names) && t.stack != [] && '/' !in qname && NodeName(rec.name) == qname
    ensures var filled := Appended(t, text);
      var id := NextSlot(t.elements, t.usedElements);
      var r := Appended(Opened(filled, rec, qname), kids);
      TreeOk(r, names + [qname]) && r.stack == t.stack + [id] && id !in t.stack
      && r.elements[id] == rec.(children := rec.children + kids)
      && r.elements[Top(t)].children == t.elements[Top(t)].children + text + [ElementChild(id, rec.name)]
      && r.currentPath == t.currentPath + "/" + qname && r.level == t.level + 1
      && r.usedElements == PoolAfterOpen(t.usedElements) && r.rootNode == t.rootNode
  {
    var filled := Appended(t, text);
    AppendedOk(t, names, text);
    OpenedOk(filled, names, rec, qname);
    OpenedSlot(filled, rec, qname);
    var pushed := Opened(filled, rec, qname);
    AppendedOk(pushed, names + [qname], kids);
  }

  /**
   * The whole root branch of startElement: the root opened in a new slot with record `rec`,
   * then its attribute children appended.
   */
  lemma RootStarted(t: TreeState, names: seq<string>, rec: ElemRec, qname: string, kids: seq<Child>)
    requires TreeOk(t, names) && t.stack == [] && '/' !in qname && NodeName(rec.name) == qname
    ensures var id := |t.elements|;
      var r := Appended(OpenedRoot(t, rec, qname), kids);
      TreeOk(r, [qname]) && r.stack == [id] && r.rootNode == Some(id)
      && r.elements[id] == rec.(children := rec.children + kids)
      && r.elements[..id] == t.elements && r.usedElements == t.usedElements
      && r.currentPath == "/" + qname && r.level == 1
  {
    OpenedRootOk(t, names, rec, qname);
    var pushed := OpenedRoot(t, rec, qname);
    AppendedOk(pushed, [qname], kids);
  }

  /**
   * endElement on the innermost element: text children flushed into it, then it is closed.
   * The names lose their last entry and the path its last step; the element is pooled
   * (cleared) unless it is the root.
   */
  lemma ElementClosed(t: TreeState, names: seq<string>, text: seq<Child>)
    requires TreeOk(t, names) && t.stack != []
    ensures var filled := Appended(t, text);
      var n := |t.stack| - 1;
      var r := Closed(filled);
      TreeOk(r, names[..n]) && r.currentPath == JoinPath(names[..n]) && r.stack == t.stack[..n]
      && filled.elements[Top(t)].children == t.elements[Top(t)].children + text
      && (n > 0 ==> r.usedElements == t.usedElements + [Top(t)] && IsCleared(r.elements[Top(t)]))
      && (n == 0 ==> r.usedElements == t.usedElements && r.rootNode == Some(Top(t)))
  {
    AppendedOk(t, names, text);
    ClosedOk(Appended(t, text), names);
  }

  /** Under the invariant a recycled element, renamed, is indistinguishable from a new one. */
  lemma ReusedIsNew(t: TreeState, names: seq<string>, text: seq<Child>, qn: QName)
    requires TreeOk(t, names) && t.stack != []
    ensures Reused(Appended(t, text), qn) == NewElement(qn)
  {
    if t.usedElements != [] {
      PooledCleared(t, text);
      var filled := Appended(t, text);
      RenamedClearedIsNew(filled.elements[NextSlot(filled.elements, filled.usedElements)], qn);
    }
  }

  /** Under the invariant the names are those of the open elements, the last one the innermost's. */
  lemma TopName(t: TreeState, names: seq<string>)
    requires TreeOk(t, names)
    ensures |names| == |t.stack| && (t.stack != [] ==> names[|names| - 1] == NodeName(t.elements[Top(t)].name))
  {
  }

  /** Appending a '/'-free name to '/'-free names. */
  lemma SlashFreePush(names: seq<string>, n: string)
    requires (forall i :: 0 <= i < |names| ==> '/' !in names[i]) && '/' !in n
    ensures forall i :: 0 <= i < |names + [n]| ==> '/' !in (names + [n])[i]
  {
    assert forall i :: 0 <= i < |names| ==> (names + [n])[i] == names[i];
  }

  /** Dropping the open elements (a new stack, no root, level 0, empty path) keeps the pool and the bookkeeping. */
  lemma ResetOk(t: TreeState, names: seq<string>)
    requires TreeOk(t, names)
    ensures TreeOk(t.(stack := [], rootNode := None, level := 0, currentPath := ""), [])
  {
  }
}
