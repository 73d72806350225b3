/**
 * How `scan` turns the caller's document name into a `/db`-rooted collection path and a
 * file name inside it.
 */
module TargetPath {
  import opened Base
  import opened Dom

  /** The target of an ingestion: collection path and file name within it. */
  datatype Target = Target(collection: string, fileName: string)

  /** The document path a target names, as used for the collection lookup. */
  function FullPath(t: Target): string { t.collection + "/" + t.fileName }

  /**
   * The document name when the caller gave none: the input's system id, cut after its last
   * platform path separator. A missing system id is a NullPointerException.
   */
  function NameFromSystemId(systemId: Option<string>, pathSeparator: char): (r: Result<string, Failure>)
    ensures r.Err? <==> systemId.None?
    ensures r.Ok? ==> pathSeparator !in r.value && |r.value| <= |systemId.value|
    ensures r.Ok? ==> r.value == systemId.value[|systemId.value| - |r.value|..]
    ensures r.Ok? && pathSeparator !in systemId.value ==> r.value == systemId.value
  {
    match systemId
    case None => Err(RuntimeFailure("NullPointerException: no system id"))
    case Some(id) =>
      var p := LastIndexOf(id, pathSeparator);
      if p > -1 then Ok(id[p + 1..]) else Ok(id)
  }

  /** The name with a leading '/' added when missing (charAt(0) fails on the empty name). */
  function Absolute(name: string): (f: string)
    requires name != ""
    ensures |f| > 0 && f[0] == '/'
    ensures f == name || f == "/" + name
  {
    if name[0] != '/' then "/" + name else name
  }

  // ---- the normalization as the source writes it: a literal "/db" prefix test ----

  /** The name after the source's rooting step: "/db" is prepended unless it literally starts with "/db". */
  function RootedAsWritten(name: string): (f: string)
    requires name != ""
    ensures "/db" <= f
    ensures f == Absolute(name) || f == "/db" + Absolute(name)
  {
    var f1 := Absolute(name);
    if "/db" <= f1 then f1 else "/db" + f1
  }

  /** The target as the source computes it: split at the last '/', a root-level name falls into "/db". */
  function NormalizeTargetAsWritten(name: string): (r: Result<Target, Failure>)
    ensures r.Err? <==> name == ""
    ensures r.Ok? ==> "/db" <= r.value.collection
    ensures r.Ok? && LastIndexOf(RootedAsWritten(name), '/') > 0 ==>
              '/' !in r.value.fileName && FullPath(r.value) == RootedAsWritten(name)
    ensures r.Ok? && LastIndexOf(RootedAsWritten(name), '/') == 0 ==>
              r.value == Target("/db", RootedAsWritten(name))
  {
    if name == "" then Err(RuntimeFailure("StringIndexOutOfBoundsException: empty document name"))
    else
      var f := RootedAsWritten(name);
      var pos := LastIndexOf(f, '/');
      if pos > 0 then
        SplitAtSlash(f, "/db", pos);
        Ok(Target(f[..pos], f[pos + 1..]))
      else Ok(Target("/db", f))
  }

  /** Cutting a path at a '/' that lies past a '/'-free head keeps the head in the collection part. */
  lemma SplitAtSlash(f: string, head: string, pos: int)
    requires head <= f && |head| > 1 && '/' !in head[1..]
    requires 0 < pos < |f| && f[pos] == '/'
    ensures pos >= |head| && head <= f[..pos] && f[..pos] + "/" + f[pos + 1..] == f
  {
    forall i | 0 < i < |head|
      ensures f[i] != '/'
    {
      assert f[i] == head[1..][i - 1];
    }
    assert f[..pos][..|head|] == head;
    assert f == f[..pos] + [f[pos]] + f[pos + 1..];
  }

  /** A bare name that happens to start with "db" keeps a leading '/' as its file name. */
  lemma {:induction false} AsWrittenBareDbName(name: string)
    requires '/' !in name && "db" <= name
    ensures NormalizeTargetAsWritten(name) == Ok(Target("/db", "/" + name))
  {
    assert Absolute(name) == "/" + name;
    assert ("/" + name)[..3] == "/" + name[..2];
    LastIndexOfJoin("", '/', name);
    assert "" + ['/'] + name == "/" + name;
  }

  /** Any path whose first segment literally starts with "/db" is kept, "/dbx/..." included. */
  lemma {:induction false} AsWrittenKeepsDbPrefixed(coll: string, file: string)
    requires "/db" <= coll && '/' !in file
    ensures NormalizeTargetAsWritten(coll + "/" + file) == Ok(Target(coll, file))
  {
    var name := coll + "/" + file;
    assert name == coll + ['/'] + file;
    assert name[..3] == coll[..3];
    assert RootedAsWritten(name) == name;
    LastIndexOfJoin(coll, '/', file);
    assert name[..|coll|] == coll;
    assert name[|coll| + 1..] == file;
  }

  /** The two inputs that show the literal test's gaps: "db.xml" and "/dbx/a.xml". */
  lemma AsWrittenCounterexamples()
    ensures NormalizeTargetAsWritten("db.xml") == Ok(Target("/db", "/db.xml"))
    ensures NormalizeTargetAsWritten("/dbx" + "/" + "a.xml") == Ok(Target("/dbx", "a.xml"))
    ensures !("/db/" <= "/dbx")
  {
    AsWrittenBareDbName("db.xml");
    assert "/" + "db.xml" == "/db.xml";
    AsWrittenKeepsDbPrefixed("/dbx", "a.xml");
    assert "/dbx"[3] != "/db/"[3];
  }

  // ---- the normalization with the evidently intended "/db/" segment test ----

  /** The rooted name: "/db" is prepended unless the name already lies in the "/db/" tree. */
  function Rooted(name: string): (f: string)
    requires name != ""
    ensures "/db/" <= f
    ensures f == Absolute(name) || f == "/db" + Absolute(name)
    ensures "/db/" <= name ==> f == name
  {
    var f1 := Absolute(name);
    if "/db/" <= f1 then f1 else "/db" + f1
  }

  /** The ingestion target: always inside "/db", the file name free of '/', joining back to the rooted name. */
  function NormalizeTarget(name: string): (r: Result<Target, Failure>)
    ensures r.Err? <==> name == ""
    ensures r.Ok? ==> r.value.collection == "/db" || "/db/" <= r.value.collection
    ensures r.Ok? ==> '/' !in r.value.fileName && FullPath(r.value) == Rooted(name)
  {
    if name == "" then Err(RuntimeFailure("StringIndexOutOfBoundsException: empty document name"))
    else
      var f := Rooted(name);
      var pos := LastIndexOf(f, '/');
      assert f[3] == '/';
      assert pos >= 3;
      assert f[..pos] + "/" + f[pos + 1..] == f;
      assert pos == 3 || f[..pos][3] == '/';
      Ok(Target(f[..pos], f[pos + 1..]))
  }

  /** A name without any '/' is a document directly in "/db". */
  lemma {:induction false} BareNameInDb(name: string)
    requires name != "" && '/' !in name
    ensures NormalizeTarget(name) == Ok(Target("/db", name))
  {
    var f := Rooted(name);
    assert Absolute(name) == "/" + name;
    assert |name| >= 3 ==> ("/" + name)[3] == name[2];
    assert f == "/db/" + name;
    LastIndexOfJoin("/db", '/', name);
    assert "/db" + ['/'] + name == f;
  }

  /** A path already inside "/db" keeps its collection and file name. */
  lemma {:induction false} DbPathKept(coll: string, file: string)
    requires coll == "/db" || "/db/" <= coll
    requires '/' !in file
    ensures NormalizeTarget(coll + "/" + file) == Ok(Target(coll, file))
  {
    var name := coll + "/" + file;
    assert name == coll + ['/'] + file;
    assert "/db/" <= name by {
      assert name[..|coll|] == coll;
      if coll == "/db" { assert name[..4] == "/db/"; } else { assert name[..4] == coll[..4]; }
    }
    assert Rooted(name) == name;
    var t := NormalizeTarget(name).value;
    LastIndexOfJoin(coll, '/', file);
    LastIndexOfJoin(t.collection, '/', t.fileName);
    assert t.collection + ['/'] + t.fileName == name;
    assert t.collection == name[..|coll|] == coll;
    assert t.fileName == name[|coll| + 1..] == file;
  }
}
