/**
 * The database objects the ingestion parser talks to. Their own code is not part of this
 * model: a document and a collection are reduced to the fields the parser reads and writes,
 * and the broker records the calls it receives in a log.
 */
module Storage {
  import opened Base
  import opened Dom

  /** Permission.READ, WRITE and UPDATE. */
  datatype Access = Read | Write | Update

  /** A database user: name and primary group. */
  datatype User = User(name: string, primaryGroup: string)

  /** The permissions of a resource: owner, group and mode bits. */
  datatype Permission = Permission(owner: string, group: string, mode: int)

  /** DBBroker.DBM, DBBroker.NATIVE, or any other back end. */
  datatype DbType = Dbm | Native | OtherBackend

  /** A call received by the broker, with what was passed at that moment. */
  datatype Call =
    | Store(node: StoredNode, path: string)
    | UpdateElement(id: ElemId, rec: ElemRec)
    | RemoveDocument(name: string)
    | AddDocument(collection: string, docName: string)
    | SaveCollection(name: string)
    | CloseDocument
    | Flush

  /** The tree-level order a map records for a level; 0 when none was recorded. */
  function OrderAt(order: map<int, int>, level: int): int
  {
    if level in order then order[level] else 0
  }

  /** A document being ingested (DocumentImpl). */
  class Document {
    var fileName: string
    var created: int
    var lastModified: Option<int>
    var docId: int
    var permissions: Permission
    var doctype: Option<DocType>
    var maxDepth: int
    var treeLevelOrder: map<int, int>
    var childCount: int
    var children: seq<Child>

    /** A new document with the given full name and initial permissions. */
    constructor (name: string, perm: Permission)
      ensures fileName == name && permissions == perm
      ensures created == 0 && lastModified == None && docId == 0 && doctype == None
      ensures maxDepth == 0 && treeLevelOrder == map[] && childCount == 0 && children == []
    {
      fileName := name;
      created := 0;
      lastModified := None;
      docId := 0;
      permissions := perm;
      doctype := None;
      maxDepth := 0;
      treeLevelOrder := map[];
      childCount := 0;
      children := [];
    }

    /** getTreeLevelOrder: the order recorded for a level. */
    function LevelOrder(level: int): int
      reads this
    {
      OrderAt(treeLevelOrder, level)
    }
  }

  /** A collection: its path, its permissions and its documents by full name. */
  class Collection {
    const name: string
    const permissions: Permission
    var documents: map<string, Document>

    constructor (name: string, perm: Permission)
      ensures this.name == name && permissions == perm && documents == map[]
    {
      this.name := name;
      permissions := perm;
      documents := map[];
    }
  }

  /** The database broker, as far as the parser uses it. */
  class Broker {
    const readOnly: bool
    const dbType: DbType
    /** The permissions of a collection the broker creates for a user. */
    const collectionPermission: User -> Permission
    /** The permissions a new DocumentImpl starts with. */
    const documentPermission: Permission
    var calls: seq<Call>
    var nextDocId: int
    var collections: map<string, Collection>
    /** Every collection object the broker has handed out so far. */
    ghost var known: set<Collection>

    constructor (readOnly: bool, dbType: DbType, collectionPermission: User -> Permission,
                 documentPermission: Permission, collections: map<string, Collection>)
      ensures this.readOnly == readOnly && this.dbType == dbType
      ensures this.collectionPermission == collectionPermission && this.documentPermission == documentPermission
      requires forall p :: p in collections ==> collections[p].name == p
      ensures calls == [] && nextDocId == 0 && this.collections == collections && known == collections.Values && Named()
    {
      this.readOnly := readOnly;
      this.dbType := dbType;
      this.collectionPermission := collectionPermission;
      this.documentPermission := documentPermission;
      calls := [];
      nextDocId := 0;
      this.collections := collections;
      known := collections.Values;
    }

    /** Every collection the broker holds is filed under its own path, and is known. */
    ghost predicate Named()
      reads this`collections, this`known
    {
      forall p :: p in collections ==> collections[p].name == p && collections[p] in known
    }

    /** Records calls received one after the other. */
    method Log(cs: seq<Call>)
      modifies this`calls
      ensures calls == old(calls) + cs
    {
      calls := calls + cs;
    }

    /** getNextDocId: a fresh document id per call. */
    method NextDocId() returns (id: int)
      modifies this`nextDocId
      ensures id == old(nextDocId) && nextDocId == id + 1
    {
      id := nextDocId;
      nextDocId := nextDocId + 1;
    }

    /** getOrCreateCollection: the collection of that path, created when there is none. */
    method GetOrCreateCollection(user: User, path: string) returns (c: Collection)
      requires Named()
      modifies this`collections, this`known
      ensures Named() && c.name == path && known == old(known) + {c}
      ensures path in old(collections) ==> c == old(collections)[path]
      ensures path !in old(collections) ==>
                fresh(c) && c.name == path && c.permissions == collectionPermission(user) && c.documents == map[]
      ensures collections == old(collections)[path := c]
    {
      if path in collections {
        c := collections[path];
      } else {
        c := new Collection(path, collectionPermission(user));
        collections := collections[path := c];
        known := known + {c};
      }
    }
  }
}
