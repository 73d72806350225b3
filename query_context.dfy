/**
 * The namespace and variable-scope bookkeeping of an XQuery execution context: the static
 * prefix/URI maps, the in-scope namespace map with its stack of saved maps, the chain of local
 * variables with mark/pop scoping, variable resolution (module, then local, then global), the
 * stack of forward references to functions, the pragma list and the stack of fragment builders.
 */
module QueryContext {
  import opened Base

  /** A qualified name as the context compares it: namespace URI and local name. */
  datatype QName = QName(namespaceURI: string, localName: string)

  datatype Pragma = Pragma(name: QName, contents: string)

  /** A global variable or a variable declared by a module. */
  class Variable {
    const name: QName

    constructor (name: QName)
      ensures this.name == name
    {
      this.name := name;
    }
  }

  /** A local variable: one link of the doubly linked chain of local variables in scope. */
  class LocalVariable {
    const name: QName
    var stackPosition: int
    var before: LocalVariable?
    var after: LocalVariable?

    constructor (name: QName)
      ensures this.name == name && stackPosition == 0 && before == null && after == null
    {
      this.name := name;
      stackPosition := 0;
      before := null;
      after := null;
    }
  }

  /** The variable a nullable reference names, as a set: none for null. */
  function Present(v: LocalVariable?): set<LocalVariable>
  {
    if v == null then {} else {v}
  }

  /** A loaded module, reduced to the variables it declares. */
  datatype Module = Module(namespaceURI: string, variables: map<QName, Variable>)

  class UserDefinedFunction {
    const name: QName

    constructor (name: QName)
      ensures this.name == name
    {
      this.name := name;
    }
  }

  /** A call to a function that was not declared yet when the call was parsed. */
  class FunctionCall {
    const name: QName
    var resolved: UserDefinedFunction?

    constructor (name: QName)
      ensures this.name == name && resolved == null
    {
      this.name := name;
      resolved := null;
    }
  }

  /** A builder of temporary document fragments; what it builds is not modelled. */
  class MemTreeBuilder {
    constructor ()
    {
    }
  }

  /** What resolveVariable found, and where. */
  datatype Binding =
    | ModuleVariable(variable: Variable)
    | LocalBinding(local: LocalVariable)
    | GlobalVariable(variable: Variable)

  datatype QueryError =
    | IllegalArgument(message: string)
    /** XPathException "variable ... is not bound". */
    | NotBound(name: QName)
    /** XPathException "Call to undeclared function: ...". */
    | UndeclaredFunction(name: QName)
    /** java.util.EmptyStackException. */
    | EmptyStack

  const NullArgument := "null argument passed to declareNamespace"

  /** A null prefix or URI is declared as "". */
  function OrEmpty(s: Option<string>): string
  {
    if s.Some? then s.value else ""
  }

  // ---------------------------------------------------------------------------------------
  // Static prefix/URI maps
  // ---------------------------------------------------------------------------------------

  /** Every reverse (URI to prefix) entry names a prefix that maps back to that URI. */
  ghost predicate Coherent(namespaces: map<string, string>, prefixes: map<string, string>)
  {
    forall u :: u in prefixes ==> prefixes[u] in namespaces && namespaces[prefixes[u]] == u
  }

  /**
   * The static maps after declaring prefix -> uri: the reverse entry of the prefix's previous
   * URI is dropped, then both directions are set.
   */
  function WithNamespace(namespaces: map<string, string>, prefixes: map<string, string>,
                         prefix: string, uri: string): (r: (map<string, string>, map<string, string>))
    ensures prefix in r.0 && r.0[prefix] == uri && uri in r.1 && r.1[uri] == prefix
    ensures forall p :: p in namespaces && p != prefix ==> p in r.0 && r.0[p] == namespaces[p]
    ensures r.0.Keys == namespaces.Keys + {prefix}
    ensures prefix in namespaces && namespaces[prefix] != uri ==> namespaces[prefix] !in r.1
    ensures Coherent(namespaces, prefixes) ==> Coherent(r.0, r.1)
  {
    var cleared := if prefix in namespaces then prefixes - {namespaces[prefix]} else prefixes;
    (namespaces[prefix := uri], cleared[uri := prefix])
  }

  /** The index of the last pair whose key is k, or -1. */
  function LastKey(pairs: seq<(string, string)>, k: string): (r: int)
    ensures -1 <= r < |pairs|
    ensures r >= 0 ==> pairs[r].0 == k
    ensures forall j :: r < j < |pairs| ==> pairs[j].0 != k
  {
    if pairs == [] then -1
    else if pairs[|pairs| - 1].0 == k then |pairs| - 1
    else LastKey(pairs[..|pairs| - 1], k)
  }

  /** A map after putting each pair in turn. */
  function PutAll(m: map<string, string>, pairs: seq<(string, string)>): map<string, string>
  {
    if pairs == [] then m
    else PutAll(m, pairs[..|pairs| - 1])[pairs[|pairs| - 1].0 := pairs[|pairs| - 1].1]
  }

  /** Putting pairs in turn: a key holds the value of its last pair, or its old value. */
  lemma {:induction false} PutAllLookup(m: map<string, string>, pairs: seq<(string, string)>, k: string)
    ensures k in PutAll(m, pairs) <==> k in m || LastKey(pairs, k) >= 0
    ensures LastKey(pairs, k) >= 0 ==> PutAll(m, pairs)[k] == pairs[LastKey(pairs, k)].1
    ensures LastKey(pairs, k) < 0 && k in m ==> PutAll(m, pairs)[k] == m[k]
    decreases |pairs|
  {
    if pairs != [] {
      var last := pairs[|pairs| - 1];
      if last.0 != k {
        PutAllLookup(m, pairs[..|pairs| - 1], k);
      }
    }
  }

  /** The entries of a namespace map, nulls declared as "". */
  function Normalized(entries: seq<(Option<string>, Option<string>)>): (r: seq<(string, string)>)
    ensures |r| == |entries|
    ensures forall i :: 0 <= i < |r| ==> r[i] == (OrEmpty(entries[i].0), OrEmpty(entries[i].1))
  {
    seq(|entries|, i requires 0 <= i < |entries| => (OrEmpty(entries[i].0), OrEmpty(entries[i].1)))
  }

  /** The same pairs, each turned around. */
  function Swapped(pairs: seq<(string, string)>): (r: seq<(string, string)>)
    ensures |r| == |pairs|
    ensures forall i :: 0 <= i < |r| ==> r[i] == (pairs[i].1, pairs[i].0)
  {
    seq(|pairs|, i requires 0 <= i < |pairs| => (pairs[i].1, pairs[i].0))
  }

  /**
   * Declaring a map of namespaces puts both directions without dropping stale reverse
   * entries: re-binding one prefix leaves its first URI pointing back at it.
   */
  lemma DeclareNamespacesLeavesStaleReverse()
    ensures var pairs := [("a", "urn:x"), ("a", "urn:y")];
            Coherent(map[], map[]) && !Coherent(PutAll(map[], pairs), PutAll(map[], Swapped(pairs)))
  {
    var pairs := [("a", "urn:x"), ("a", "urn:y")];
    var ns := PutAll(map[], pairs);
    var px := PutAll(map[], Swapped(pairs));
    assert pairs[..1] == [("a", "urn:x")];
    assert Swapped(pairs) == [("urn:x", "a"), ("urn:y", "a")];
    assert Swapped(pairs)[..1] == [("urn:x", "a")];
    assert Swapped(pairs)[..1][..0] == [];
    assert PutAll(map[], Swapped(pairs)[..1]) == map["urn:x" := "a"];
    assert ns["a"] == "urn:y";
    assert "urn:x" in px && px["urn:x"] == "a";
  }

  /** The same two declarations made one by one keep the maps coherent. */
  lemma DeclareNamespaceTwiceStaysCoherent()
    ensures var first := WithNamespace(map[], map[], "a", "urn:x");
            var second := WithNamespace(first.0, first.1, "a", "urn:y");
            Coherent(second.0, second.1) && "urn:x" !in second.1
  {
  }

  // ---------------------------------------------------------------------------------------
  // Removal of a namespace URI
  // ---------------------------------------------------------------------------------------

  /** after is before without exactly one entry whose value is uri. */
  ghost predicate DropsOne(before: map<string, string>, after: map<string, string>, uri: string)
  {
    exists p :: p in before && before[p] == uri && after == before - {p}
  }

  /**
   * Walks the entries of a map in some order and drops the first one whose value is uri, as
   * an iterator over a hash map's values does; the order itself is not modelled.
   */
  method DropFirstWithValue(m: map<string, string>, uri: string) returns (r: map<string, string>, found: bool)
    ensures found <==> uri in m.Values
    ensures found ==> DropsOne(m, r, uri)
    ensures !found ==> r == m
  {
    var keys := m.Keys;
    while keys != {}
      invariant keys <= m.Keys
      invariant forall k :: k in m && k !in keys ==> m[k] != uri
      decreases keys
    {
      var k :| k in keys;
      if m[k] == uri {
        return m - {k}, true;
      }
      keys := keys - {k};
    }
    return m, false;
  }

  /** Removing a URI's reverse entry and one prefix bound to it keeps the maps coherent. */
  lemma RemovalKeepsCoherent(namespaces: map<string, string>, prefixes: map<string, string>,
                             after: map<string, string>, uri: string)
    requires Coherent(namespaces, prefixes) && (after == namespaces || DropsOne(namespaces, after, uri))
    ensures Coherent(after, prefixes - {uri})
  {
    if after != namespaces {
      var p :| p in namespaces && namespaces[p] == uri && after == namespaces - {p};
      forall u | u in prefixes - {uri}
        ensures prefixes[u] in after && after[prefixes[u]] == u
      {
        assert namespaces[prefixes[u]] == u;
      }
    }
  }

  // ---------------------------------------------------------------------------------------
  // In-scope namespaces and their stack
  // ---------------------------------------------------------------------------------------

  /** The in-scope prefix -> URI map and the maps saved below it. */
  datatype Scope = Scope(inScope: map<string, string>, saved: seq<map<string, string>>)

  /** pushNamespaceContext: save the current map and go on with a copy of it. */
  function PushScope(s: Scope): Scope
  {
    Scope(s.inScope, s.saved + [s.inScope])
  }

  /** popNamespaceContext: restore the map saved last. */
  function PopScope(s: Scope): Result<Scope, QueryError>
  {
    if s.saved == [] then Err(EmptyStack)
    else Ok(Scope(s.saved[|s.saved| - 1], s.saved[..|s.saved| - 1]))
  }

  /** declareInScopeNamespace on non-null arguments. */
  function BindInScope(s: Scope, prefix: string, uri: string): Scope
  {
    Scope(s.inScope[prefix := uri], s.saved)
  }

  /** A run of in-scope declarations. */
  function BindAll(s: Scope, bindings: seq<(string, string)>): (r: Scope)
    ensures r.saved == s.saved
    ensures forall p :: p in s.inScope && LastKey(bindings, p) < 0 ==> p in r.inScope && r.inScope[p] == s.inScope[p]
  {
    if bindings == [] then s
    else
      var last := bindings[|bindings| - 1];
      BindInScope(BindAll(s, bindings[..|bindings| - 1]), last.0, last.1)
  }

  /** Popping after a push and any in-scope declarations restores the scope as it was. */
  lemma PopUndoesPush(s: Scope, bindings: seq<(string, string)>)
    ensures PopScope(BindAll(PushScope(s), bindings)) == Ok(s)
  {
  }

  /** Declarations made inside a pushed scope are visible there until the pop. */
  lemma {:induction false} BoundInPushedScope(s: Scope, bindings: seq<(string, string)>, p: string)
    requires LastKey(bindings, p) >= 0
    ensures var r := BindAll(PushScope(s), bindings);
            p in r.inScope && r.inScope[p] == bindings[LastKey(bindings, p)].1
    decreases |bindings|
  {
    var last := bindings[|bindings| - 1];
    if last.0 != p {
      BoundInPushedScope(s, bindings[..|bindings| - 1], p);
    }
  }

  // ---------------------------------------------------------------------------------------
  // Local variables, resolution, forward references, pragmas
  // ---------------------------------------------------------------------------------------

  /** The index of the most recently declared local variable named q, or -1. */
  function LatestLocal(chain: seq<LocalVariable>, q: QName): (r: int)
    ensures -1 <= r < |chain|
    ensures r >= 0 ==> chain[r].name == q
    ensures forall j :: r < j < |chain| ==> chain[j].name != q
  {
    if chain == [] then -1
    else if chain[|chain| - 1].name == q then |chain| - 1
    else LatestLocal(chain[..|chain| - 1], q)
  }

  /** resolveVariable: a module variable first, then the latest local, then a global. */
  function Resolve(modules: map<string, Module>, chain: seq<LocalVariable>,
                   globals: map<QName, Variable>, q: QName): Result<Binding, QueryError>
  {
    if q.namespaceURI in modules && q in modules[q.namespaceURI].variables then
      Ok(ModuleVariable(modules[q.namespaceURI].variables[q]))
    else if LatestLocal(chain, q) >= 0 then Ok(LocalBinding(chain[LatestLocal(chain, q)]))
    else if q in globals then Ok(GlobalVariable(globals[q]))
    else Err(NotBound(q))
  }

  /** A name is unbound exactly when no module, no local and no global binds it. */
  lemma UnboundExactly(modules: map<string, Module>, chain: seq<LocalVariable>,
                       globals: map<QName, Variable>, q: QName)
    ensures Resolve(modules, chain, globals, q).Err? <==>
              (q.namespaceURI !in modules || q !in modules[q.namespaceURI].variables)
              && (forall i :: 0 <= i < |chain| ==> chain[i].name != q)
              && q !in globals
    ensures Resolve(modules, chain, globals, q).Err? ==> Resolve(modules, chain, globals, q).error == NotBound(q)
  {
  }

  /** A local declared last shadows every earlier local and every global of its name. */
  lemma LatestLocalShadows(modules: map<string, Module>, chain: seq<LocalVariable>,
                           globals: map<QName, Variable>, v: LocalVariable)
    requires v.name.namespaceURI !in modules || v.name !in modules[v.name.namespaceURI].variables
    ensures Resolve(modules, chain + [v], globals, v.name) == Ok(LocalBinding(v))
  {
  }

  /** Declaring a local leaves the resolution of every other name as it was. */
  lemma {:induction false} DeclarationKeepsOthers(modules: map<string, Module>, chain: seq<LocalVariable>,
                                                  globals: map<QName, Variable>, v: LocalVariable, q: QName)
    requires v.name != q
    ensures Resolve(modules, chain + [v], globals, q) == Resolve(modules, chain, globals, q)
  {
    assert (chain + [v])[..|chain|] == chain;
    assert LatestLocal(chain + [v], q) == LatestLocal(chain, q);
  }

  /** No variable occurs twice in the chain. */
  ghost predicate Distinct(chain: seq<LocalVariable>)
  {
    forall i, j :: 0 <= i < j < |chain| ==> chain[i] != chain[j]
  }

  /** The chain cut after its last occurrence of the mark; nothing for a null mark or one not in the chain. */
  function UpTo(chain: seq<LocalVariable>, mark: LocalVariable?): (r: seq<LocalVariable>)
    ensures |r| <= |chain| && r == chain[..|r|]
    ensures mark != null && mark in chain ==> r != [] && r[|r| - 1] == mark
    ensures mark == null || mark !in chain ==> r == []
  {
    if mark == null || chain == [] then []
    else if chain[|chain| - 1] == mark then chain
    else UpTo(chain[..|chain| - 1], mark)
  }

  /** In a chain without repetitions, the cut at a mark ends at the mark's one position. */
  lemma {:induction false} UpToAt(chain: seq<LocalVariable>, mark: LocalVariable, k: nat)
    requires Distinct(chain) && k < |chain| && chain[k] == mark
    ensures UpTo(chain, mark) == chain[..k + 1]
    decreases |chain|
  {
    if k + 1 < |chain| {
      var front := chain[..|chain| - 1];
      assert front[k] == mark;
      UpToAt(front, mark, k);
      assert front[..k + 1] == chain[..k + 1];
    } else {
      assert chain[..k + 1] == chain;
    }
  }

  /**
   * Popping back to a mark after more declarations: when the chain at the mark ends with the
   * mark (or is empty for a null mark) and the whole chain has no repetitions, the cut at the
   * mark is exactly the chain at the mark, so every name resolves as it did there.
   */
  lemma {:induction false} PopRestoresResolution(modules: map<string, Module>, chain: seq<LocalVariable>,
                                                 inner: seq<LocalVariable>, globals: map<QName, Variable>,
                                                 mark: LocalVariable?, q: QName)
    requires Distinct(chain + inner)
    requires if mark == null then chain == [] else chain != [] && chain[|chain| - 1] == mark
    ensures UpTo(chain + inner, mark) == chain
    ensures Resolve(modules, UpTo(chain + inner, mark), globals, q) == Resolve(modules, chain, globals, q)
  {
    if mark != null {
      assert (chain + inner)[|chain| - 1] == mark;
      UpToAt(chain + inner, mark, |chain| - 1);
      assert (chain + inner)[..|chain|] == chain;
    }
  }

  /** The index of the topmost pending call whose function is not declared, or -1. */
  function TopUndeclared(calls: seq<FunctionCall>, functions: map<QName, UserDefinedFunction>): (r: int)
    ensures -1 <= r < |calls|
    ensures r >= 0 ==> calls[r].name !in functions
    ensures forall j :: r < j < |calls| ==> calls[j].name in functions
  {
    if calls == [] then -1
    else if calls[|calls| - 1].name !in functions then |calls| - 1
    else TopUndeclared(calls[..|calls| - 1], functions)
  }

  /** The index of the first pragma named q, or -1. */
  function PragmaIndex(pragmas: seq<Pragma>, q: QName): (r: int)
    ensures -1 <= r < |pragmas|
    ensures r >= 0 ==> pragmas[r].name == q
    ensures forall j :: 0 <= j < |pragmas| && (r < 0 || j < r) ==> pragmas[j].name != q
  {
    if pragmas == [] then -1
    else if pragmas[0].name == q then 0
    else
      var r := PragmaIndex(pragmas[1..], q);
      if r < 0 then -1 else r + 1
  }

  // ---------------------------------------------------------------------------------------
  // The context
  // ---------------------------------------------------------------------------------------

  class Context {
    var namespaces: map<string, string>
    var prefixes: map<string, string>
    var inScopeNamespaces: map<string, string>
    var inScopePrefixes: map<string, string>
    var namespaceStack: seq<map<string, string>>
    var declaredFunctions: map<QName, UserDefinedFunction>
    var globalVariables: map<QName, Variable>
    var lastVar: LocalVariable?
    /** The chain reached from lastVar through the before links, oldest first. */
    ghost var locals: seq<LocalVariable>
    var variableStackSize: int
    /** Pending calls; the top of the stack is the last element. */
    var forwardReferences: seq<FunctionCall>
    var pragmas: Option<seq<Pragma>>
    var modules: map<string, Module>
    var builder: MemTreeBuilder?
    var fragmentStack: seq<MemTreeBuilder?>

    /**
     * A context whose static maps, modules and pragmas are given; everything else starts
     * empty and a fresh fragment builder is open.
     */
    constructor (namespaces: map<string, string>, prefixes: map<string, string>,
                 modules: map<string, Module>, pragmas: Option<seq<Pragma>>)
      ensures this.namespaces == namespaces && this.prefixes == prefixes
      ensures this.modules == modules && this.pragmas == pragmas
      ensures inScopeNamespaces == map[] && inScopePrefixes == map[] && namespaceStack == []
      ensures declaredFunctions == map[] && globalVariables == map[]
      ensures lastVar == null && locals == [] && variableStackSize == 0
      ensures forwardReferences == [] && builder != null && fresh(builder) && fragmentStack == []
      ensures Linked()
    {
      this.namespaces := namespaces;
      this.prefixes := prefixes;
      inScopeNamespaces := map[];
      inScopePrefixes := map[];
      namespaceStack := [];
      declaredFunctions := map[];
      globalVariables := map[];
      lastVar := null;
      locals := [];
      variableStackSize := 0;
      forwardReferences := [];
      this.pragmas := pragmas;
      this.modules := modules;
      builder := new MemTreeBuilder();
      fragmentStack := [];
    }

    /** lastVar ends the chain, whose before and after links run through it in order. */
    ghost predicate Linked()
      reads this`lastVar, this`locals, locals
    {
      (if locals == [] then lastVar == null else lastVar == locals[|locals| - 1])
      && (locals != [] ==> locals[0].before == null && locals[|locals| - 1].after == null)
      && (forall i :: 0 < i < |locals| ==> locals[i].before == locals[i - 1] && locals[i - 1].after == locals[i])
      && Distinct(locals)
    }

    ghost function NsScope(): Scope
      reads this`inScopeNamespaces, this`namespaceStack
    {
      Scope(inScopeNamespaces, namespaceStack)
    }

    /** declareNamespace: null arguments become "", and the maps stay coherent. */
    method DeclareNamespace(prefix: Option<string>, uri: Option<string>)
      modifies this`namespaces, this`prefixes
      ensures (namespaces, prefixes) == WithNamespace(old(namespaces), old(prefixes), OrEmpty(prefix), OrEmpty(uri))
      ensures GetURIForPrefix(OrEmpty(prefix)) == Some(OrEmpty(uri))
      ensures GetPrefixForURI(OrEmpty(uri)) == Some(OrEmpty(prefix))
    {
      var p := if prefix.None? then "" else prefix.value;
      var u := if uri.None? then "" else uri.value;
      if p in namespaces {
        prefixes := prefixes - {namespaces[p]};
      }
      namespaces := namespaces[p := u];
      prefixes := prefixes[u := p];
    }

    /** declareNamespaces: every entry in turn, in both directions, nothing dropped. */
    method DeclareNamespaces(entries: seq<(Option<string>, Option<string>)>)
      modifies this`namespaces, this`prefixes
      ensures namespaces == PutAll(old(namespaces), Normalized(entries))
      ensures prefixes == PutAll(old(prefixes), Swapped(Normalized(entries)))
    {
      ghost var pairs := Normalized(entries);
      ghost var ns0, px0 := namespaces, prefixes;
      var i := 0;
      while i < |entries|
        invariant 0 <= i <= |entries|
        invariant namespaces == PutAll(ns0, pairs[..i])
        invariant prefixes == PutAll(px0, Swapped(pairs)[..i])
      {
        var p := if entries[i].0.None? then "" else entries[i].0.value;
        var u := if entries[i].1.None? then "" else entries[i].1.value;
        assert pairs[..i + 1][..i] == pairs[..i] && pairs[..i + 1][i] == (p, u);
        assert Swapped(pairs)[..i + 1][..i] == Swapped(pairs)[..i] && Swapped(pairs)[..i + 1][i] == (u, p);
        namespaces := namespaces[p := u];
        prefixes := prefixes[u := p];
        i := i + 1;
      }
      assert pairs[..i] == pairs && Swapped(pairs)[..i] == Swapped(pairs);
    }

    /** declareInScopeNamespace: rejects a null argument, otherwise sets that one entry. */
    method DeclareInScopeNamespace(prefix: Option<string>, uri: Option<string>) returns (err: Option<QueryError>)
      modifies this`inScopeNamespaces
      ensures prefix.None? || uri.None? ==>
                err == Some(IllegalArgument(NullArgument)) && inScopeNamespaces == old(inScopeNamespaces)
      ensures prefix.Some? && uri.Some? ==>
                err.None? && NsScope() == BindInScope(old(NsScope()), prefix.value, uri.value)
    {
      if prefix.None? || uri.None? {
        return Some(IllegalArgument(NullArgument));
      }
      inScopeNamespaces := inScopeNamespaces[prefix.value := uri.value];
      err := None;
    }

    /** getURIForPrefix: the static binding, shadowing the in-scope one. */
    function GetURIForPrefix(prefix: string): (r: Option<string>)
      reads this`namespaces, this`inScopeNamespaces
      ensures r.Some? <==> prefix in namespaces || prefix in inScopeNamespaces
      ensures prefix in namespaces ==> r == Some(namespaces[prefix])
      ensures prefix !in namespaces && r.Some? ==> r.value == inScopeNamespaces[prefix]
    {
      if prefix in namespaces then Some(namespaces[prefix])
      else if prefix in inScopeNamespaces then Some(inScopeNamespaces[prefix])
      else None
    }

    /**
     * getPrefixForURI: the static reverse entry; failing that, the URI is looked up as a KEY
     * of the in-scope prefix -> URI map.
     */
    function GetPrefixForURI(uri: string): (r: Option<string>)
      reads this`prefixes, this`inScopeNamespaces
      ensures uri in prefixes ==> r == Some(prefixes[uri])
      ensures uri !in prefixes ==> (r.Some? <==> uri in inScopeNamespaces)
      ensures uri !in prefixes && r.Some? ==> r.value == inScopeNamespaces[uri]
    {
      if uri in prefixes then Some(prefixes[uri])
      else if uri in inScopeNamespaces then Some(inScopeNamespaces[uri])
      else None
    }

    /** The in-scope fallback as evidently intended: a prefix in scope bound to the URI. */
    ghost function IntendedPrefixForURI(uri: string): (r: Option<string>)
      reads this`prefixes, this`inScopeNamespaces
      ensures uri in prefixes ==> r == Some(prefixes[uri])
      ensures uri !in prefixes ==> (r.Some? <==> uri in inScopeNamespaces.Values)
      ensures uri !in prefixes && r.Some? ==> r.value in inScopeNamespaces && inScopeNamespaces[r.value] == uri
    {
      if uri in prefixes then Some(prefixes[uri])
      else if uri in inScopeNamespaces.Values then
        Some(var p :| p in inScopeNamespaces && inScopeNamespaces[p] == uri; p)
      else None
    }

    /** removeNamespace: drops the reverse entry and one prefix bound to the URI. */
    method RemoveNamespace(uri: string)
      modifies this`prefixes, this`namespaces, this`inScopePrefixes, this`inScopeNamespaces
      ensures prefixes == old(prefixes) - {uri}
      ensures uri in old(namespaces).Values ==>
                DropsOne(old(namespaces), namespaces, uri)
                && inScopePrefixes == old(inScopePrefixes) && inScopeNamespaces == old(inScopeNamespaces)
      ensures uri !in old(namespaces).Values ==>
                namespaces == old(namespaces) && inScopePrefixes == old(inScopePrefixes) - {uri}
                && (if uri in old(inScopeNamespaces).Values then DropsOne(old(inScopeNamespaces), inScopeNamespaces, uri)
                    else inScopeNamespaces == old(inScopeNamespaces))
      ensures Coherent(old(namespaces), old(prefixes)) ==> Coherent(namespaces, prefixes)
    {
      ghost var ns0, px0 := namespaces, prefixes;
      prefixes := prefixes - {uri};
      var rest, found := DropFirstWithValue(namespaces, uri);
      if found {
        namespaces := rest;
        if Coherent(ns0, px0) {
          RemovalKeepsCoherent(ns0, px0, namespaces, uri);
        }
        return;
      }
      inScopePrefixes := inScopePrefixes - {uri};
      rest, found := DropFirstWithValue(inScopeNamespaces, uri);
      inScopeNamespaces := rest;
      if Coherent(ns0, px0) {
        RemovalKeepsCoherent(ns0, px0, namespaces, uri);
      }
    }

    /** pushNamespaceContext. */
    method PushNamespaceContext()
      modifies this`namespaceStack
      ensures NsScope() == PushScope(old(NsScope()))
    {
      namespaceStack := namespaceStack + [inScopeNamespaces];
    }

    /** popNamespaceContext: an empty stack throws. */
    method PopNamespaceContext() returns (err: Option<QueryError>)
      modifies this`inScopeNamespaces, this`namespaceStack
      ensures PopScope(old(NsScope())).Ok? ==> err.None? && NsScope() == PopScope(old(NsScope())).value
      ensures PopScope(old(NsScope())).Err? ==>
                err == Some(PopScope(old(NsScope())).error) && NsScope() == old(NsScope())
    {
      if namespaceStack == [] {
        return Some(EmptyStack);
      }
      inScopeNamespaces := namespaceStack[|namespaceStack| - 1];
      namespaceStack := namespaceStack[..|namespaceStack| - 1];
      err := None;
    }

    /** declareFunction. */
    method DeclareFunction(f: UserDefinedFunction)
      modifies this`declaredFunctions
      ensures declaredFunctions == old(declaredFunctions)[f.name := f]
    {
      declaredFunctions := declaredFunctions[f.name := f];
    }

    /** declareVariable: appends an unlinked variable after lastVar and stamps its stack position. */
    method DeclareVariable(v: LocalVariable) returns (r: LocalVariable)
      requires Linked() && v !in locals && v.before == null && v.after == null
      modifies this`lastVar, this`locals, Present(lastVar)`after, v`before, v`stackPosition
      ensures Linked() && r == v && lastVar == v && locals == old(locals) + [v]
      ensures v.stackPosition == variableStackSize
      ensures forall u :: u in old(locals) ==> u.stackPosition == old(u.stackPosition) && u.before == old(u.before)
    {
      if lastVar != null {
        lastVar.after := v;
        v.before := lastVar;
      }
      lastVar := v;
      v.stackPosition := variableStackSize;
      locals := locals + [v];
      r := v;
    }

    /** markLocalVariables: opens a scope and returns the mark to pop back to. */
    method MarkLocalVariables() returns (mark: LocalVariable?)
      requires Linked()
      modifies this`variableStackSize
      ensures mark == lastVar && variableStackSize == old(variableStackSize) + 1
      ensures mark == null <==> locals == []
      ensures mark != null ==> mark == locals[|locals| - 1]
    {
      variableStackSize := variableStackSize + 1;
      mark := lastVar;
    }

    /** popLocalVariables: the chain ends at the mark again. */
    method PopLocalVariables(mark: LocalVariable?)
      requires Linked() && (mark == null || mark in locals)
      modifies this`lastVar, this`locals, this`variableStackSize, Present(mark)`after
      ensures Linked() && lastVar == mark && variableStackSize == old(variableStackSize) - 1
      ensures forall u :: u in old(locals) ==> u.stackPosition == old(u.stackPosition) && u.before == old(u.before)
      ensures |locals| <= |old(locals)| && locals == old(locals)[..|locals|]
      ensures mark == null ==> locals == []
      ensures locals == UpTo(old(locals), mark)
    {
      if mark != null {
        ghost var k :| 0 <= k < |locals| && locals[k] == mark;
        UpToAt(locals, mark, k);
        mark.after := null;
        locals := locals[..k + 1];
      } else {
        locals := [];
      }
      lastVar := mark;
      variableStackSize := variableStackSize - 1;
    }

    /** resolveLocalVariable: walks the chain back from lastVar. */
    method ResolveLocalVariable(q: QName) returns (r: LocalVariable?)
      requires Linked()
      ensures r == (if LatestLocal(locals, q) < 0 then null else locals[LatestLocal(locals, q)])
    {
      var v := lastVar;
      ghost var k := |locals|;
      assert locals[..k] == locals;
      while v != null
        invariant 0 <= k <= |locals|
        invariant v == (if k == 0 then null else locals[k - 1])
        invariant LatestLocal(locals, q) == LatestLocal(locals[..k], q)
        decreases k
      {
        if q == v.name {
          return v;
        }
        assert locals[..k][..k - 1] == locals[..k - 1];
        v := v.before;
        k := k - 1;
      }
      return null;
    }

    /** resolveVariable: module, then local, then global, else "not bound". */
    method ResolveVariable(q: QName) returns (r: Result<Binding, QueryError>)
      requires Linked()
      ensures r == Resolve(modules, locals, globalVariables, q)
    {
      if q.namespaceURI in modules {
        var m := modules[q.namespaceURI];
        if q in m.variables {
          return Ok(ModuleVariable(m.variables[q]));
        }
      }
      var local := ResolveLocalVariable(q);
      if local != null {
        return Ok(LocalBinding(local));
      }
      if q in globalVariables {
        return Ok(GlobalVariable(globalVariables[q]));
      }
      return Err(NotBound(q));
    }

    /** addForwardReference. */
    method AddForwardReference(call: FunctionCall)
      modifies this`forwardReferences
      ensures forwardReferences == old(forwardReferences) + [call]
    {
      forwardReferences := forwardReferences + [call];
    }

    /**
     * resolveForwardReferences: pops every call, hands each its declared function, and stops
     * at the first call (from the top) whose function is not declared, which is popped too.
     */
    method ResolveForwardReferences() returns (err: Option<QueryError>)
      modifies this`forwardReferences, forwardReferences
      ensures var calls, k := old(forwardReferences), TopUndeclared(old(forwardReferences), declaredFunctions);
              (k < 0 ==> err.None? && forwardReferences == [])
              && (k >= 0 ==> err == Some(UndeclaredFunction(calls[k].name)) && forwardReferences == calls[..k])
              && (forall j :: k < j < |calls| ==> calls[j].resolved == declaredFunctions[calls[j].name])
              && (forall c :: c in calls && c !in calls[k + 1..] ==> c.resolved == old(c.resolved))
    {
      ghost var calls := forwardReferences;
      ghost var k := TopUndeclared(calls, declaredFunctions);
      while forwardReferences != []
        invariant |forwardReferences| <= |calls| && forwardReferences == calls[..|forwardReferences|]
        invariant k < |forwardReferences|
        invariant forall j :: |forwardReferences| <= j < |calls| ==>
                    calls[j].resolved == declaredFunctions[calls[j].name]
        invariant forall c :: c in calls && c !in calls[|forwardReferences|..] ==> c.resolved == old(c.resolved)
        decreases |forwardReferences|
      {
        var n := |forwardReferences|;
        var call := forwardReferences[n - 1];
        forwardReferences := forwardReferences[..n - 1];
        assert call == calls[n - 1];
        if call.name !in declaredFunctions {
          return Some(UndeclaredFunction(call.name));
        }
        call.resolved := declaredFunctions[call.name];
      }
      return None;
    }

    /** getPragma: the first pragma of that name, if any were declared. */
    method GetPragma(q: QName) returns (r: Option<Pragma>)
      ensures pragmas.None? ==> r.None?
      ensures pragmas.Some? ==>
                r == (if PragmaIndex(pragmas.value, q) < 0 then None else Some(pragmas.value[PragmaIndex(pragmas.value, q)]))
    {
      if pragmas.Some? {
        var ps := pragmas.value;
        var i := 0;
        while i < |ps|
          invariant 0 <= i <= |ps|
          invariant forall j :: 0 <= j < i ==> ps[j].name != q
        {
          if q == ps[i].name {
            return Some(ps[i]);
          }
          i := i + 1;
        }
      }
      return None;
    }

    /** pushDocumentContext: saves the current builder, possibly none, and clears it. */
    method PushDocumentContext()
      modifies this`builder, this`fragmentStack
      ensures fragmentStack == old(fragmentStack) + [old(builder)] && builder == null
    {
      fragmentStack := fragmentStack + [builder];
      builder := null;
    }

    /** popDocumentContext: restores the builder saved last; an empty stack changes nothing. */
    method PopDocumentContext()
      modifies this`builder, this`fragmentStack
      ensures old(fragmentStack) == [] ==> builder == old(builder) && fragmentStack == []
      ensures old(fragmentStack) != [] ==>
                builder == old(fragmentStack)[|old(fragmentStack)| - 1]
                && fragmentStack == old(fragmentStack)[..|old(fragmentStack)| - 1]
    {
      if fragmentStack != [] {
        builder := fragmentStack[|fragmentStack| - 1];
        fragmentStack := fragmentStack[..|fragmentStack| - 1];
      }
    }
  }

  /** The static maps answer a reverse lookup with a prefix that maps back to the URI. */
  lemma StaticPrefixRoundTrip(c: Context, uri: string)
    requires Coherent(c.namespaces, c.prefixes) && uri in c.prefixes
    ensures c.GetPrefixForURI(uri).Some? && c.GetURIForPrefix(c.GetPrefixForURI(uri).value) == Some(uri)
  {
  }

  /**
   * The intended reverse lookup finds a prefix for every URI bound statically or in scope, and
   * the prefix it finds maps back to the URI unless a static binding of that prefix shadows it.
   */
  lemma IntendedPrefixRoundTrip(c: Context, uri: string)
    requires Coherent(c.namespaces, c.prefixes)
    ensures c.IntendedPrefixForURI(uri).Some? <==> uri in c.prefixes || uri in c.inScopeNamespaces.Values
    ensures var r := c.IntendedPrefixForURI(uri);
            r.Some? && (uri in c.prefixes || r.value !in c.namespaces) ==> c.GetURIForPrefix(r.value) == Some(uri)
  {
  }

  /**
   * As written, the in-scope fallback of getPrefixForURI misses a prefix bound in scope to the
   * URI and answers a URI when asked about a prefix.
   */
  lemma PrefixForURIMissesInScope(c: Context)
    requires c.prefixes == map[] && c.inScopeNamespaces == map["x" := "urn:a"]
    ensures c.GetPrefixForURI("urn:a") == None && c.GetPrefixForURI("x") == Some("urn:a")
    ensures c.IntendedPrefixForURI("urn:a") == Some("x") && c.IntendedPrefixForURI("x") == None
  {
    assert "urn:a" in c.inScopeNamespaces.Values by {
      assert c.inScopeNamespaces["x"] == "urn:a";
    }
  }
}
