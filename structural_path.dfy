/**
 * The parser's `currentPath`: the qualified names of the open elements, each preceded by '/'.
 * Opening an element appends "/" + qname; closing it cuts the path at its last '/'.
 */
module StructuralPath {
  import opened Base

  /** The structural path of a stack of element names, outermost first. */
  function JoinPath(names: seq<string>): (p: string)
    ensures p == "" <==> names == []
    ensures names != [] ==> p[0] == '/'
  {
    if names == [] then ""
    else
      var init := JoinPath(names[..|names| - 1]);
      assert (init + "/")[|init|] == '/';
      init + "/" + names[|names| - 1]
  }

  /** Opening an element appends '/' and its name to the path. */
  lemma {:induction false} JoinPathPush(names: seq<string>, n: string)
    ensures JoinPath(names + [n]) == JoinPath(names) + "/" + n
  {
    assert (names + [n])[..|names|] == names;
  }

  /**
   * Cutting the path at its last '/' drops exactly the innermost name, provided that name holds
   * no '/' (XML names never do).
   */
  lemma {:induction false} JoinPathTruncate(names: seq<string>)
    requires names != [] && '/' !in names[|names| - 1]
    ensures var p := JoinPath(names);
      var cut := LastIndexOf(p, '/');
      cut == |JoinPath(names[..|names| - 1])| && p[..cut] == JoinPath(names[..|names| - 1])
  {
    var init := JoinPath(names[..|names| - 1]);
    var last := names[|names| - 1];
    assert JoinPath(names) == init + ['/'] + last;
    LastIndexOfJoin(init, '/', last);
    assert (init + ['/'] + last)[..|init|] == init;
  }

  /** Open then close restores the path: truncating JoinPath(names + [n]) at its last '/' gives JoinPath(names). */
  lemma {:induction false} PushThenTruncateRestores(names: seq<string>, n: string)
    requires '/' !in n
    ensures var p := JoinPath(names + [n]); p[..LastIndexOf(p, '/')] == JoinPath(names)
  {
    JoinPathTruncate(names + [n]);
    assert (names + [n])[..|names|] == names;
  }
}
