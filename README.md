# eXist ingestion parser and XQuery context bookkeeping

This project models two parts of the eXist XML database.

- **The ingestion parser** (`org.exist.Parser`). It is a SAX content handler that turns an input
  document into a database document. `scan` checks the input and the database, normalises the
  target name (prefixing "/db" unless it already starts with it) and splits it into a collection and a file name, applies the permission gate, creates
  the new document, and replays the event stream in validate mode. `store` replays the same stream
  again, and this time every node goes to the broker. The handler's state is the open-element stack,
  the structural path (`currentPath`), the pending text buffer, the pending namespace declarations and
  the suppressed eXist prefix, the pool of retired element objects, the nesting level, and the
  document's depth and per-level tree order. The model keeps that state in a `Parser` class, and
  every SAX callback becomes a method on it.
- **The XQuery static context** (`org.exist.xquery.XQueryContext`), covering its namespace and
  variable bookkeeping:
  - the static prefix/URI maps and the in-scope namespace map with its push/pop stack;
  - the doubly linked chain of local variables, with marks and pops;
  - variable resolution, in the order module, then local, then global;
  - the forward-reference stack, pragma lookup and the document-fragment stack.

  These are modelled by the `Context` class, whose local variables are real linked objects with
  `before`/`after` fields.

Modules, one per concern:

- `Base`: Option, Result, `lastIndexOf`/`indexOf`.
- `XmlNames`: qualified names.
- `Dom`: nodes, element records and failures.
- `IngestConfig`: the two configuration switches.
- `TargetPath`: target-name normalisation.
- `AttributeFilter`: which attributes are stored, and the attribute count.
- `StructuralPath`: `currentPath` as a join of names.
- `ElementArena`: element objects, the stack and the pool.
- `Events`: the SAX event stream and its shape.
- `Storage`: the document, the collection, and the broker's call log.
- `ParseSteps`: each callback's effect as a function.
- `IngestParser`: the `Parser` class.
- `QueryContext`: the XQuery context.

Collaborators whose code is not part of this model are parameters:

- `XMLString.normalize` is the `normalizer` function.
- `DocumentImpl.calculateTreeLevelStartPoints` is the `levelsFit` predicate.
- `Permission.validate` is the `permits` predicate.
- `File.pathSeparator` is the `pathSeparator` parameter.
- `System.currentTimeMillis` is the `now` parameter.
- The XML reader is the event sequence of a `Source`, the same on both replays. A SAX fault and an
  IOException the reader throws are events of that sequence.
- The broker records the calls it receives (`store`, `update`, `removeDocument`, `addDocument`,
  `saveCollection`, `closeDocument`, `flush`) in a log.

## Model

| member | source | states |
|---|---|---|
| IngestConfig.ValidationFromOption | src/org/exist/Parser.java:158-166 | `indexer.validation` selects enabled exactly for "true", auto for "auto" or a missing property, and disabled for any other value |
| IngestConfig.ValidationOption | src/org/exist/Parser.java:158-166 | every validation mode is selected by some property value, so the mapping is onto |
| IngestConfig.WhitespaceFromOption | src/org/exist/Parser.java:169-177 | `indexer.suppress-whitespace` selects leading, trailing or no suppression for "leading", "trailing" or "none"; anything else, or no property, keeps the default (both) |
| IngestConfig.WhitespaceOption | src/org/exist/Parser.java:169-177 | every whitespace mode is selected by some property value |
| IngestParser.Parser.constructor | src/org/exist/Parser.java:151-177 | the modes come from the two mappings above; the parser starts with no collection or document, an empty buffer, no pending namespace declarations and an empty element bookkeeping |
| TargetPath.NameFromSystemId | src/org/exist/Parser.java:551-555 | without a given name, the name is the system id after its last path separator (the whole id when it has none); a missing system id fails |
| TargetPath.Absolute | src/org/exist/Parser.java:556-557 | the name gains a leading '/' exactly when it lacks one |
| TargetPath.RootedAsWritten | src/org/exist/Parser.java:559-560 | the literal test: "/db" is prepended unless the name already starts with "/db" |
| TargetPath.NormalizeTargetAsWritten | src/org/exist/Parser.java:556-565 | as written: an empty name fails; otherwise the collection starts with "/db", and either collection + "/" + file rebuilds the rooted name with a '/'-free file, or (no '/' after position 0) the name falls into "/db" whole |
| TargetPath.AsWrittenCounterexamples | src/org/exist/Parser.java:559-565 | as written, "db.xml" becomes file "/db.xml" in "/db", and "/dbx/a.xml" is kept in collection "/dbx" outside the "/db" tree |
| TargetPath.AsWrittenBareDbName | src/org/exist/Parser.java:556-565 | as written, every '/'-free name starting with "db" keeps a leading '/' in its file name |
| TargetPath.AsWrittenKeepsDbPrefixed | src/org/exist/Parser.java:559-565 | as written, any collection that literally starts with "/db", "/dbx" included, is kept unchanged |
| TargetPath.Rooted | src/org/exist/Parser.java:556-560 | corrected, not what the parser runs: the result lies in the "/db/" tree, and a name already there is unchanged |
| TargetPath.NormalizeTarget | src/org/exist/Parser.java:556-565 | corrected, not what the parser runs: an empty name fails; otherwise the collection is "/db" or below it, the file name holds no '/', and collection + "/" + file is the rooted name |
| TargetPath.BareNameInDb | src/org/exist/Parser.java:556-565 | corrected: under NormalizeTarget, a name without '/' is a document directly in "/db" |
| TargetPath.DbPathKept | src/org/exist/Parser.java:556-565 | corrected: under NormalizeTarget, a path already inside "/db" keeps its collection and file name |
| IngestParser.ResolveTargetRooted | src/org/exist/Parser.java:546-565 | the target is normalised as the code does, with the literal "/db" test: a given name wins over the system id, a system id without a path separator is taken whole, and with neither there is no target; every resolved collection starts with "/db" (as a prefix, "/dbx" included), and the file name holds no '/' unless the name fell into "/db" whole and then itself starts with "/db" |
| IngestParser.TemporaryName | src/org/exist/Parser.java:584-585 | the temporary "__" name of a replacing document never clashes with the document it replaces |
| IngestParser.GateFailure | src/org/exist/Parser.java:573-581 | the gate lets the user through exactly when they have UPDATE on the existing document or, with no existing document, WRITE on the collection; a refusal is a permission failure |
| IngestParser.Parser.CheckPermission | src/org/exist/Parser.java:571-581 | the old document is the collection's document of the target's full name, and the refusal is the one GateFailure gives |
| IngestParser.Parser.Existing | src/org/exist/Parser.java:573 | a document is found exactly when the collection holds the target's full name |
| IngestParser.Parser.OpenCollection | src/org/exist/Parser.java:567-570 | the collection already held is kept when it has the path; otherwise the broker's collection of that path is fetched or created and then saved |
| IngestParser.Parser.CreateDocument | src/org/exist/Parser.java:584-598 | a replacing document has the temporary name, the old document's creation time and permissions, and `now` as last modification; a new document has the full name, `now` as creation time, and the user and their primary group as owner and group; either way it takes the next document id |
| IngestParser.Parser.ResetTree | src/org/exist/Parser.java:600-605 | level 0, an empty path, no open element, no root and no pending declarations; the bookkeeping invariant holds with no open names |
| IngestParser.Parser.Scan | src/org/exist/Parser.java:540-636 | no input source is an IO failure and a read-only database a permission failure, both before any change; otherwise validate is set and the target is the one ResolveTarget gives with the literal "/db" test; a clean scan leaves a fresh document with depth (peak nesting + 1), filed in the target's collection; with a resolved target, the gate and the validate pass end as GateEnds says, on the collection's documents as they were once it was opened, and the log gains the collection's save when it was not already held, then the replaced document's removal on success |
| IngestParser.Parser.ScanTarget | src/org/exist/Parser.java:546-636 | the file name is the target's and the collection is the target's collection; the gate and the validate pass end as GateEnds says on that collection's documents as they were once it was opened (none for a new collection); the log gains the collection's save when it was not already held, then the replaced document's removal on success; a clean scan files the fresh document there |
| IngestParser.Parser.Gate | src/org/exist/Parser.java:571-636 | the gate and the validate pass end as GateEnds says: a refusal changes nothing; a permitted scan creates the document and fails as PassFailure says; a SAX failure removes the new document's name from the collection, and any other failure (a read error, a close on an empty stack, a nesting too deep) leaves the collection's documents alone; success files the new document under the final name and logs the removal of the replaced one |
| IngestParser.Parser.Admission | src/org/exist/Parser.java:584-636 | a permitted scan creates the document and validates it; the failure is PassFailure's; success files the document under the old name (when replacing) or its own name, and logs exactly the removal of the replaced document; a SAX failure removes the new document's name, and any other failure leaves the collection's documents alone |
| IngestParser.PassFailure | src/org/exist/Parser.java:607-624 | a validate pass succeeds exactly when the stream is survived and one level more than its peak depth fits the indexing scheme; a stream failure is reported as is |
| IngestParser.Parser.ValidateStream | src/org/exist/Parser.java:600-615 | the validate replay makes no broker call, ends as Outcome says and records the stream's peak depth |
| IngestParser.Parser.ValidatePass | src/org/exist/Parser.java:607-635 | the validate pass followed by its conclusion: the same failure as PassFailure; the collection and the broker change only as Conclude says; only a SAX failure of the stream changes the collection's documents on a failed pass |
| IngestParser.Parser.Conclude | src/org/exist/Parser.java:609-635 | a SAX failure removes the new document's name from the collection; success raises the depth by one, requires the levels to fit, then removes the replaced document, takes its name and adds the new document; failures log nothing; any other failure (a read error, a close on an empty stack, a nesting too deep) leaves the collection's documents alone |
| IngestParser.Parser.PrepareStore | src/org/exist/Parser.java:940-948 | validate is cleared; a missing doctype becomes one named after the root element with the document's name as system id; with no root the NullPointerException becomes a SAX failure; the child count is reset |
| IngestParser.Parser.StorePass | src/org/exist/Parser.java:922-968 | the store replay ends as Outcome says and leaves the tree-level orders alone; the broker log only grows; a clean pass ends with addDocument, closeDocument and flush; the depth never falls and never exceeds the larger of its old value and the stream's peak, so replaying a stream whose peak the depth already covers leaves the depth unchanged |
| IngestParser.Parser.StoreReplay | src/org/exist/Parser.java:949-955 | the replay with validate cleared ends as Outcome says, leaves the level orders alone and only appends broker calls, the last three being addDocument, closeDocument and flush when it is clean; the depth stays between its old value and the larger of that and the peak |
| IngestParser.Parser.Characters | src/org/exist/Parser.java:222-230 | non-empty text is appended to the pending buffer, and empty text changes nothing |
| IngestParser.Parser.AppendNonElement | src/org/exist/Parser.java:236-259 | at document level the node becomes the document's child; inside an element the pending text is flushed normalised, then the node is appended to the innermost element; the broker receives those nodes in that order, and only when storing |
| IngestParser.Parser.Comment | src/org/exist/Parser.java:232-260 | a comment inside the DTD changes nothing; otherwise it is added as AppendNonElement states |
| IngestParser.Parser.ProcessingInstruction | src/org/exist/Parser.java:466-493 | a processing instruction is added at document level or inside the innermost element, with the pending text flushed first, and is stored only in the store pass |
| IngestParser.Parser.StartDtd | src/org/exist/Parser.java:775-779 | the document type is recorded and the DTD is entered |
| IngestParser.Parser.EndDtd | src/org/exist/Parser.java:265-267 | the DTD is left |
| IngestParser.Parser.StartPrefixMapping | src/org/exist/Parser.java:904-911 | the pending declarations change as StartPrefixState says |
| IngestParser.Parser.EndPrefixMapping | src/org/exist/Parser.java:317-323 | the pending declarations change as EndPrefixState says |
| ParseSteps.StartPrefixState | src/org/exist/Parser.java:904-911 | a prefix for the eXist namespace is only remembered as suppressed; any other prefix is added to the pending declarations |
| ParseSteps.EndPrefixState | src/org/exist/Parser.java:317-323 | ending the suppressed prefix clears the suppression and leaves the map; ending any other prefix removes it from the map |
| ParseSteps.ExistNeverPending | src/org/exist/Parser.java:904-911 | the eXist namespace never becomes a pending declaration |
| ParseSteps.PrefixScopeRestores | src/org/exist/Parser.java:317-323 | starting and then ending a fresh prefix restores the pending declarations |
| AttributeFilter.ToAttrNode | src/org/exist/Parser.java:873-883 | a stored attribute keeps its local name, URI and value, has a prefix exactly when its qualified name has a ':', and is flagged as an ID exactly when its declared type is "ID" |
| AttributeFilter.KeptExactly | src/org/exist/Parser.java:865-887 | an attribute is stored exactly when it occurs and its qualified name does not start with "xmlns" and its URI is not the eXist namespace |
| AttributeFilter.KeptCount | src/org/exist/Parser.java:787-796 | stored and skipped attributes partition the attribute list |
| AttributeFilter.AttrChildren | src/org/exist/Parser.java:865-887 | the element receives one attribute child per stored attribute |
| AttributeFilter.CountStoredAttributes | src/org/exist/Parser.java:787-796 | the first counting loop leaves the number of attributes minus the skipped ones, which is the number stored |
| AttributeFilter.AttrCountAsWritten | src/org/exist/Parser.java:865-889 | as written, the second loop subtracts the skipped attributes again and overwrites the count while the result is positive, so the count is right only when nothing is skipped or when at least half the attributes are skipped |
| AttributeFilter.AttrCountAsWrittenUndercounts | src/org/exist/Parser.java:865-889 | one namespace declaration beside two ordinary attributes: two are stored, but the count says one |
| AttributeFilter.ToShort | src/org/exist/Parser.java:827 | the `(short)` cast wraps into [-32768, 32768) and is the identity on that range |
| IngestParser.Parser.CollectAttributes | src/org/exist/Parser.java:865-887 | the second attribute loop yields the children and store calls of exactly the stored attributes, in order, and leaves the count it was given minus one per skipped attribute |
| IngestParser.Parser.OpenChild | src/org/exist/Parser.java:803-837 | below an open element, the raw pending text goes to the parent first, then the element is opened, pushed and stored with its attributes |
| IngestParser.Parser.OpenRoot | src/org/exist/Parser.java:838-857 | with no open element, the element becomes the root and the document's child, and is stored (only in the store pass) with its attributes |
| IngestParser.Parser.StartElement | src/org/exist/Parser.java:784-889 | the element is opened below the innermost element or as the root with the pending declarations, which are then cleared; it is handed to the broker with the first loop's count of stored attributes, and the bookkeeping keeps the count as the second loop overwrites it (AttrCountAsWritten); the document's depth becomes the maximum of itself and the new level |
| IngestParser.Parser.StartChild | src/org/exist/Parser.java:803-889 | below an open element: the element is entered with the first loop's count, the declarations are cleared, the depth is raised to the new level, then the attributes are added as AttributesAdded says and stored under the new path |
| IngestParser.Parser.StartRoot | src/org/exist/Parser.java:838-889 | with no open element: the root is entered with the first loop's count and becomes the document's child, the depth is raised to the new level, then the attributes are added as AttributesAdded says and stored under the new path |
| IngestParser.Parser.AddAttributes | src/org/exist/Parser.java:863-889 | the second attribute loop and the overwrite after it change the bookkeeping as AttributesAdded says, and store exactly the kept attributes under the current path, only when storing |
| IngestParser.Parser.DispatchStart | src/org/exist/Parser.java:784-889 | a startElement callback changes the bookkeeping as TreeAfter says and the broker log as EventCalls says, and raises the depth to the new level |
| ParseSteps.AttributesAdded | src/org/exist/Parser.java:863-889 | adding the attributes and overwriting the count keep the stack, the level, the path and the pool |
| ParseSteps.Recounted | src/org/exist/Parser.java:888-889 | `setAttributes` on the innermost element keeps the stack and the arena's bounds |
| ParseSteps.RecountedChild | src/org/exist/Parser.java:827-889 | overwriting the count of a child element just opened is the same as opening it with the new count |
| ParseSteps.RecountedRoot | src/org/exist/Parser.java:845-889 | overwriting the count of a root just opened is the same as opening it with the new count |
| ParseSteps.ChildInSteps | src/org/exist/Parser.java:803-889 | entering a child with the first loop's count, then adding the attributes and overwriting the count, is opening it with the count AttrCountAsWritten gives |
| ParseSteps.ChildCallsInSteps | src/org/exist/Parser.java:803-887 | the broker calls of a child's start, made step by step, are ChildCalls |
| ParseSteps.RootInSteps | src/org/exist/Parser.java:838-889 | entering the root with the first loop's count, then adding the attributes and overwriting the count, is opening it with the count AttrCountAsWritten gives |
| ParseSteps.RootCallsInSteps | src/org/exist/Parser.java:838-887 | the broker calls of the root's start, made step by step, are RootCalls |
| IngestParser.Parser.EndElement | src/org/exist/Parser.java:272-312 | an empty stack throws and a name other than the innermost element's changes nothing; otherwise the normalised text is flushed and the element popped; validating raises the level's order to the element's child count, storing hands the text and the element to the broker |
| ParseSteps.PopKeeps | src/org/exist/Parser.java:290-311 | closing the innermost element keeps the bookkeeping, with its name popped from the open names |
| ParseSteps.RaisedLevelOrder | src/org/exist/Parser.java:293-296 | a close raises its level's order to the maximum of the old order and the child count (plus SPARSE_IDENTIFIERS) and leaves every other level alone |
| ParseSteps.Flushed | src/org/exist/Parser.java:278-289 | pending text becomes a text child exactly when the buffer and its normalised form are non-empty; the child holds the raw buffer before a child element and the normalised text otherwise |
| ParseSteps.OrderAfter | src/org/exist/Parser.java:292-305 | validating only ever raises tree-level orders, and storing never changes them |
| ParseSteps.PassEffectsChain | src/org/exist/Parser.java:292-305 | the effects of two stretches of one pass combine into effects of the same kind: nothing persisted and orders only raised while validating, orders untouched and calls only appended while storing |
| ParseSteps.TreeAfterOk | src/org/exist/Parser.java:272-312 | every well-formed event keeps the bookkeeping invariant, with the open names following the event stream |
| ParseSteps.FailureAgrees | src/org/exist/Parser.java:276 | the parser throws on an event exactly where the stream's shape says it fails: a reader fault, a read error, or a close on an empty stack |
| Events.StepFailure | src/org/exist/Parser.java:607-611 | an event fails exactly when it is not survived: a reader fault is a SAX failure, a read error an IO failure, and a close on an empty stack the EmptyStackException |
| IngestParser.Parser.Dispatch | src/org/exist/Parser.java:222-323 | each callback changes the bookkeeping as TreeAfter says (a started element keeps the count AttrCountAsWritten gives), the broker log as EventCalls says (nothing when validating; a started element is handed over with the first loop's count), the level orders as OrderAfter says, and the depth only on startElement |
| IngestParser.Parser.Step | src/org/exist/Parser.java:784-899 | one event keeps the bookkeeping invariant with the open names taking one step; the depth reaches the new nesting level |
| IngestParser.Parser.Parse | src/org/exist/Parser.java:607-608 | a replay ends as Outcome says; a clean replay leaves the names EndNames gives and records the peak depth; the depth never falls and never exceeds the larger of its old value and the peak; validating persists nothing, and storing only appends broker calls |
| StructuralPath.JoinPathPush | src/org/exist/Parser.java:833-834 | opening an element appends "/" + qname to the path |
| StructuralPath.JoinPathTruncate | src/org/exist/Parser.java:291 | cutting the path at its last '/' drops exactly the innermost name |
| StructuralPath.PushThenTruncateRestores | src/org/exist/Parser.java:291 | opening and then closing an element restores the path |
| ElementArena.ChildStarted | src/org/exist/Parser.java:803-837 | opening a child pushes exactly one element, in the slot of the last pooled element or a new one; the parent gains the text and then the child; the path grows by "/" + name; the level goes up by one |
| ElementArena.RootStarted | src/org/exist/Parser.java:838-857 | opening the root puts one element on the stack, records it as the root, sets the path to "/" + name and the level to 1 |
| ElementArena.ElementClosed | src/org/exist/Parser.java:278-311 | closing pops exactly one element and cuts the path back; a non-root element is cleared and pooled, and the root is never pooled |
| ElementArena.ReusedIsNew | src/org/exist/Parser.java:819-823 | a pooled element, renamed, is indistinguishable from a new element of that name |
| ElementArena.ClosedOk | src/org/exist/Parser.java:290-311 | closing keeps the bookkeeping invariant, and the element is pooled exactly when it is not the root |
| ElementArena.OpenChildArena | src/org/exist/Parser.java:819-832 | opening a child keeps the arena invariant: no element is open twice, pooled twice, or both open and pooled |
| ElementArena.PopToPool | src/org/exist/Parser.java:307-310 | a closed non-root element is never the root, and pooling it keeps the arena invariant |
| ElementArena.ResetOk | src/org/exist/Parser.java:600-605 | dropping the open elements keeps the pool and the invariant |
| Dom.RenamedClearedIsNew | src/org/exist/Parser.java:819-823 | a cleared element given a new name equals a new element of that name |
| Events.StepHeight | src/org/exist/Parser.java:859 | the stack grows by one exactly on startElement and moves by at most one per event |
| Events.OutcomeClean | src/org/exist/Parser.java:607-615 | a replay ends without an exception exactly when every event is survived |
| Events.OutcomeSticky | src/org/exist/Parser.java:607-615 | once a prefix of the stream has failed, the whole replay fails the same way |
| Events.SingleElementPeak | src/org/exist/Parser.java:859-861 | a stream that opens and closes one element is balanced and has peak depth one |
| Events.Peak | src/org/exist/Parser.java:859-861 | the recorded depth is at least the starting height and the final height |
| Events.PeakPrefix | src/org/exist/Parser.java:859-861 | a prefix of the stream never goes deeper than the whole stream |
| Events.ReplayWithinPeak | src/org/exist/Parser.java:859-861 | the depth a replay reaches with one more event stays within the whole stream's peak |
| QueryContext.WithNamespace | src/org/exist/xquery/XQueryContext.java:223-235 | after declaring prefix to uri, both directions are set, other prefixes keep their URIs, the previous URI's reverse entry is gone, and coherent maps stay coherent |
| QueryContext.DeclareNamespaceTwiceStaysCoherent | src/org/exist/xquery/XQueryContext.java:223-235 | re-declaring prefix "a" from "urn:x" to "urn:y" keeps the maps coherent and drops the reverse entry of "urn:x" |
| QueryContext.Context.DeclareNamespace | src/org/exist/xquery/XQueryContext.java:223-235 | null arguments become ""; the maps become WithNamespace's; looking up the prefix gives the uri and looking up the uri gives the prefix |
| QueryContext.PutAllLookup | src/org/exist/xquery/XQueryContext.java:237-251 | after putting pairs in turn, a key holds the value of its last pair, or its old value if no pair has it |
| QueryContext.Context.DeclareNamespaces | src/org/exist/xquery/XQueryContext.java:237-251 | each entry, nulls made "", is put in turn into both maps (as PutAll of the normalised and of the swapped pairs) |
| QueryContext.DeclareNamespacesLeavesStaleReverse | src/org/exist/xquery/XQueryContext.java:237-251 | unlike declareNamespace, re-binding a prefix through declareNamespaces leaves the first URI's reverse entry stale |
| QueryContext.Context.DeclareInScopeNamespace | src/org/exist/xquery/XQueryContext.java:259-265 | a null prefix or URI is an IllegalArgument error that changes nothing; otherwise exactly that in-scope entry is set |
| QueryContext.Context.GetURIForPrefix | src/org/exist/xquery/XQueryContext.java:323-332 | a URI is found exactly when the prefix is bound statically or in scope; the static binding wins |
| QueryContext.Context.GetPrefixForURI | src/org/exist/xquery/XQueryContext.java:341-347 | as written: the static reverse entry, else the URI looked up as a key of the in-scope prefix-to-URI map |
| QueryContext.PrefixForURIMissesInScope | src/org/exist/xquery/XQueryContext.java:341-347 | with only "x" bound in scope to "urn:a", the lookup as written finds nothing for "urn:a" and answers "urn:a" for "x"; the intended lookup answers "x" and nothing |
| QueryContext.Context.IntendedPrefixForURI | src/org/exist/xquery/XQueryContext.java:341-347 | the corrected lookup: the static reverse entry, else a prefix bound in scope to the URI, found exactly when there is one |
| QueryContext.IntendedPrefixRoundTrip | src/org/exist/xquery/XQueryContext.java:323-347 | the corrected lookup finds a prefix exactly for the URIs bound statically or in scope, and that prefix maps back to the URI unless a static binding shadows it |
| QueryContext.StaticPrefixRoundTrip | src/org/exist/xquery/XQueryContext.java:323-347 | on coherent maps, the prefix registered for a URI maps back to that URI |
| QueryContext.DropFirstWithValue | src/org/exist/xquery/XQueryContext.java:357-362 | the iterator walk removes exactly one entry holding the URI when there is one, and otherwise changes nothing |
| QueryContext.RemovalKeepsCoherent | src/org/exist/xquery/XQueryContext.java:355-362 | dropping a URI's reverse entry and one prefix bound to it keeps the static maps coherent |
| QueryContext.Context.RemoveNamespace | src/org/exist/xquery/XQueryContext.java:355-371 | the reverse entry goes; if a static prefix is bound to the URI, one such prefix goes and nothing in scope changes; otherwise the in-scope reverse entry goes and one in-scope prefix bound to the URI, if any; coherence is kept |
| QueryContext.Context.PushNamespaceContext | src/org/exist/xquery/XQueryContext.java:822-826 | the current in-scope map is saved and stays current |
| QueryContext.Context.PopNamespaceContext | src/org/exist/xquery/XQueryContext.java:828-830 | the map saved last is restored; an empty stack is an error that changes nothing |
| QueryContext.PopUndoesPush | src/org/exist/xquery/XQueryContext.java:822-830 | a pop after a push and any in-scope declarations restores the scope exactly |
| QueryContext.BoundInPushedScope | src/org/exist/xquery/XQueryContext.java:259-265 | a declaration made inside a pushed scope is visible there, with its last value |
| QueryContext.BindAll | src/org/exist/xquery/XQueryContext.java:259-265 | in-scope declarations keep the saved maps and every prefix they do not touch |
| QueryContext.Context.DeclareFunction | src/org/exist/xquery/XQueryContext.java:536-538 | the function is registered under its name |
| QueryContext.Context.DeclareVariable | src/org/exist/xquery/XQueryContext.java:560-571 | the variable is linked after lastVar and becomes lastVar, the chain grows by exactly it, it is stamped with the current stack size, every variable already in the chain keeps its stack position and back link, and the chain stays doubly linked |
| QueryContext.Context.MarkLocalVariables | src/org/exist/xquery/XQueryContext.java:839-842 | the stack size goes up by one and the mark is lastVar: null exactly when the chain is empty, otherwise the latest local |
| QueryContext.Context.PopLocalVariables | src/org/exist/xquery/XQueryContext.java:850-855 | the chain is cut after the mark (emptied for a null mark), lastVar is the mark, the size goes down by one, every variable keeps its stack position and back link, and the chain stays doubly linked; the chain left is UpTo of the old chain at the mark |
| QueryContext.LatestLocal | src/org/exist/xquery/XQueryContext.java:654-661 | the index of the most recently declared local of that name: it has the name and no later local does |
| QueryContext.Context.ResolveLocalVariable | src/org/exist/xquery/XQueryContext.java:654-661 | the backward walk from lastVar returns the latest local of that name, or null |
| QueryContext.Context.ResolveVariable | src/org/exist/xquery/XQueryContext.java:637-652 | resolution is a module variable of the name's namespace, else the latest local, else a global, else "not bound" |
| QueryContext.UnboundExactly | src/org/exist/xquery/XQueryContext.java:637-652 | a name is unbound exactly when no module, no local and no global binds it, and the error names it |
| QueryContext.LatestLocalShadows | src/org/exist/xquery/XQueryContext.java:637-661 | a local declared last shadows every earlier local and every global of its name |
| QueryContext.DeclarationKeepsOthers | src/org/exist/xquery/XQueryContext.java:560-571 | declaring a local leaves the resolution of every other name as it was |
| QueryContext.PopRestoresResolution | src/org/exist/xquery/XQueryContext.java:839-855 | after a mark (the last local, or null for an empty chain) and any declarations after it, a chain without repetitions cut by popLocalVariables at the mark is exactly the chain at the mark, so every name resolves as it did there |
| QueryContext.UpTo | src/org/exist/xquery/XQueryContext.java:850-855 | the cut is a prefix of the chain that ends at the mark when the mark is in the chain, and is empty for a null mark |
| QueryContext.UpToAt | src/org/exist/xquery/XQueryContext.java:850-855 | in a chain without repetitions, the cut at a mark ends at the mark's one position |
| QueryContext.Context.AddForwardReference | src/org/exist/xquery/XQueryContext.java:964-966 | the call is pushed on top of the pending calls |
| QueryContext.TopUndeclared | src/org/exist/xquery/XQueryContext.java:973-982 | the topmost pending call whose function is undeclared: every call above it is declared |
| QueryContext.Context.ResolveForwardReferences | src/org/exist/xquery/XQueryContext.java:973-982 | calls are popped from the top and each gets its declared function; the first undeclared call is popped and reported, leaving the calls below it pending and unresolved; without one the stack ends empty |
| QueryContext.PragmaIndex | src/org/exist/xquery/XQueryContext.java:1019-1029 | the index of the first pragma of that name: it has the name and no earlier pragma does |
| QueryContext.Context.GetPragma | src/org/exist/xquery/XQueryContext.java:1019-1029 | without pragmas the result is null; otherwise it is the first pragma of that name, or null |
| QueryContext.Context.PushDocumentContext | src/org/exist/xquery/XQueryContext.java:760-763 | the current builder, possibly null, is saved and the builder is cleared |
| QueryContext.Context.PopDocumentContext | src/org/exist/xquery/XQueryContext.java:765-769 | the builder saved last is restored; an empty stack changes nothing |
| QueryContext.Context.constructor | src/org/exist/xquery/XQueryContext.java:84-190 | the field initialisers and the constructors: everything except the static maps, the modules and the pragmas starts empty, and a fresh builder is open |

## Left out

- SAX and JAXP setup is not modelled: the parser factory, its features and `setFeature`. XML tokenisation is external, and the reader is a given event sequence.
- `resolveEntity` is not modelled. It is catalog, file and URL I/O.
- Input-stream `reset`, `ProgressIndicator` and Observable notification are not modelled. They are I/O and a best-effort side channel.
- The `users.xml` security-manager reload in `store` is not modelled. It is a call into the broker pool, whose code is not part of this model.
- `scan(Node, String)` and `store(Node)` are not modelled. They drive the same callbacks from a DOM walker, which is not part of this model.
- The "[line n]" rewrite of a SAX failure's message in `scan` is not modelled, because the locator is external. The failure keeps the reader's message.
- The `DBBroker` internals are reduced to a log of the calls it receives: `getDatabaseType` (a constant), `closeDocument`, `flush`, `store`, `update`, `saveCollection` and `addDocument`.
- `XMLString.normalize`, `calculateTreeLevelStartPoints` and `Permission.validate` are function parameters, because their code is not part of this model.
- Timestamps are the `now` parameter.
- IngestParser.ResolveTargetRooted: it does not promise a target inside the "/db/" tree with a '/'-free file name, because the literal "/db" test the code runs does not give one; NormalizeTarget, the corrected normalisation, does.
- IngestParser.Parser.Scan: the intermediate values of the `fileName` field while the name is normalised are not modelled. Only the final file name is stated.
- IngestParser.Parser.StorePass: it requires the document's depth to be at least the current nesting level, which `scan` guarantees. It states only that the log grows and how it ends, not every call in between; those calls are stated per event by Dispatch.
- The PermissionDeniedException-to-"permission denied" conversion in `store` is not modelled. No modelled broker call throws it.
- The order in which a HashMap iterator visits entries is not modelled. `removeNamespace` drops some entry holding the URI, not a particular one.
- `QName.equals`/`compareTo` are not modelled in detail: a name is compared as its namespace URI and local name.
- `LocalVariable.addAfter` is taken to link both ways.
- `ElementImpl.clear()` is taken to reset the gid, the attribute count, the namespace mappings and the children, because `ElementImpl` is not part of this model.
- `ElementImpl.setNamespaceMappings` is taken to copy the map, so the `nsMappings.clear()` that follows it leaves the element's declarations intact, because `ElementImpl` is not part of this model.
- A module is reduced to its variables map, because `Module.resolveVariable` is not part of this model.
- QueryContext.Context.DeclareVariable: it requires a fresh, unlinked variable that is not already in the chain. Re-declaring a linked variable would create a cycle the source does not guard against.
- `loadDefaults`, `addPragma`, `importModule`, `loadBuiltInModule`, collations, the watchdog, statically known documents and `clearNamespaces` are not modelled. They involve the broker symbol table, file and URL loading, query parsing, locking, or glue outside the namespace and variable bookkeeping. The static maps, modules and pragmas are constructor arguments.
- `resolveVariable(String)` is not modelled, because it needs `QName.parse`, which is not part of this model.
- `resolveFunction` is reduced to a lookup in the declared functions. Its module branch is not part of this model.
- QueryContext.Context.MarkLocalVariables: `variableStackSize` is an unbounded integer, so 32-bit overflow is not modelled.
- `getURIForPrefix(null)` is not modelled: a prefix is always a string.
- Concurrency and locking are not modelled. The code modelled has none; the locks live in the broker.

## Findings

| source | as written | input that shows it | evidently intended | confidence | as-written member | corrected member |
|---|---|---|---|---|---|---|
| src/org/exist/Parser.java:865-889 | the second attribute loop decrements `attrLength` again for every skipped attribute, then overwrites the count when the result stays positive | `xmlns:x="urn:x" a="1" b="2"`: two attributes are stored but the element's count is 1 | the count is the number of stored attributes, as the first loop computes | not executed | AttributeFilter.AttrCountAsWrittenUndercounts | AttributeFilter.CountStoredAttributes |
| src/org/exist/Parser.java:559-565 | "/db" is prepended only when the name does not literally start with "/db" | "db.xml" becomes file "/db.xml" in "/db"; "/dbx/a.xml" stays in collection "/dbx", outside the database root | a target inside "/db/" with a file name free of '/' | not executed | TargetPath.AsWrittenCounterexamples | TargetPath.NormalizeTarget |
| src/org/exist/xquery/XQueryContext.java:341-347 | when there is no static reverse entry, the URI is looked up as a key of the in-scope prefix-to-URI map | with "x" bound in scope to "urn:a", `getPrefixForURI("urn:a")` is null and `getPrefixForURI("x")` is "urn:a" | the prefix bound in scope to the URI | not executed | QueryContext.PrefixForURIMissesInScope | QueryContext.IntendedPrefixRoundTrip |

The `Parser` class and the `Context` class run the code as written: the target is normalised by
`NormalizeTargetAsWritten`, an element's count ends as `AttrCountAsWritten` gives, and
`getPrefixForURI` is `GetPrefixForURI`. The corrected halves are stated beside them.
