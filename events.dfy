/**
 * The SAX event stream a reader delivers to the ingestion parser. Both passes of an ingestion
 * replay the same stream. The shape functions follow only the names of the open elements.
 */
module Events {
  import opened Base
  import opened XmlNames
  import opened Dom
  import opened AttributeFilter

  /**
   * One callback: characters, comment, processingInstruction, startElement, endElement,
   * startPrefixMapping, endPrefixMapping, startDTD, endDTD; a Fault is the SAXException thrown
   * by error, fatalError or warning; an IoFault is an IOException the reader throws while
   * reading the input, which no handler catches; Ignored stands for the callbacks with empty bodies
   * (ignorableWhitespace, start/endCDATA, start/endEntity, skippedEntity, start/endDocument).
   */
  datatype Event =
    | Chars(data: string)
    | CommentEv(data: string)
    | PI(target: string, data: string)
    | StartElem(uri: string, localName: string, qname: string, attrs: seq<Attribute>)
    | EndElem(uri: string, localName: string, qname: string)
    | StartPrefix(prefix: string, prefixUri: string)
    | EndPrefix(prefix: string)
    | StartDtd(name: string, publicId: Option<string>, systemId: Option<string>)
    | EndDtd
    | Fault(message: string)
    | IoFault(message: string)
    | Ignored

  /** What a namespace-aware reader guarantees for an element event: consistent, '/'-free names. */
  predicate WellFormedEvent(e: Event)
  {
    e.StartElem? ==> ConsistentNames(e.localName, e.qname)
  }

  /** Whether a close tag names the innermost open element. */
  predicate ClosesTop(names: seq<string>, qname: string)
  {
    names != [] && names[|names| - 1] == qname
  }

  /** The open-element names after one event (an unmatched close changes nothing). */
  function StepNames(names: seq<string>, e: Event): seq<string>
  {
    match e
    case StartElem(_, _, qname, _) => names + [qname]
    case EndElem(_, _, qname) => if ClosesTop(names, qname) then names[..|names| - 1] else names
    case _ => names
  }

  /** An event the parser survives: no reader fault, no read error, no close on an empty stack. */
  predicate StepOk(names: seq<string>, e: Event)
  {
    !e.Fault? && !e.IoFault? && !(e.EndElem? && names == [])
  }

  /** The open-element names after a stream. */
  function EndNames(names: seq<string>, events: seq<Event>): seq<string>
  {
    if events == [] then names
    else StepNames(EndNames(names, events[..|events| - 1]), events[|events| - 1])
  }

  /** Whether every event of the stream is survived. */
  predicate Clean(names: seq<string>, events: seq<Event>)
  {
    events == [] ||
    (Clean(names, events[..|events| - 1]) && StepOk(EndNames(names, events[..|events| - 1]), events[|events| - 1]))
  }

  /** The deepest nesting reached: the largest stack height before or after any event. */
  function Peak(names: seq<string>, events: seq<Event>): (d: int)
    ensures d >= |names| && d >= |EndNames(names, events)|
  {
    if events == [] then |names|
    else Max(Peak(names, events[..|events| - 1]), |EndNames(names, events)|)
  }

  /** A prefix of a stream never reaches deeper than the whole stream. */
  lemma {:induction false} PeakPrefix(names: seq<string>, events: seq<Event>, k: nat)
    requires k <= |events|
    ensures Peak(names, events[..k]) <= Peak(names, events)
    decreases |events|
  {
    if k < |events| {
      assert events[..|events| - 1][..k] == events[..k];
      PeakPrefix(names, events[..|events| - 1], k);
    } else {
      assert events[..k] == events;
    }
  }

  /** A stream that is survived is survived up to every point. */
  lemma {:induction false} CleanPrefix(names: seq<string>, events: seq<Event>, k: nat)
    requires k <= |events| && Clean(names, events)
    ensures Clean(names, events[..k])
    decreases |events|
  {
    if k < |events| {
      assert events[..|events| - 1][..k] == events[..k];
      CleanPrefix(names, events[..|events| - 1], k);
    } else {
      assert events[..k] == events;
    }
  }

  /** The stack height moves by at most one per event. */
  lemma StepHeight(names: seq<string>, e: Event)
    ensures |StepNames(names, e)| == |names| + 1 <==> e.StartElem?
    ensures |StepNames(names, e)| <= |names| + 1 && |StepNames(names, e)| >= |names| - 1
  {
  }

  /**
   * After the first `i` events of a replay from `names0`: `err` is how it ended so far and, while it
   * is none, `names` are the open names and `depth` is the peak depth.
   */
  ghost predicate Replayed(names0: seq<string>, events: seq<Event>, i: nat, err: Option<Failure>, names: seq<string>, depth: int)
    requires i <= |events|
  {
    err == Outcome(names0, events[..i]) && (err.None? ==> names == EndNames(names0, events[..i]) && depth == Peak(names0, events[..i]))
  }

  /** Replaying one more event: the names, the outcome and the peak each take one StepNames step. */
  lemma ReplayStep(names0: seq<string>, events: seq<Event>, i: nat, names: seq<string>, depth: int)
    requires i < |events| && Replayed(names0, events, i, None, names, depth)
    ensures Replayed(names0, events, i + 1, StepFailure(names, events[i]), StepNames(names, events[i]),
                     Max(depth, |StepNames(names, events[i])|))
  {
    assert events[..i + 1][..i] == events[..i];
  }

  /** Replaying one more event never goes deeper than the whole stream's peak. */
  lemma ReplayWithinPeak(names0: seq<string>, events: seq<Event>, i: nat, names: seq<string>, depth: int)
    requires i < |events| && Replayed(names0, events, i, None, names, depth)
    ensures Max(depth, |StepNames(names, events[i])|) <= Peak(names0, events)
  {
    assert events[..i + 1][..i] == events[..i];
    assert Max(depth, |StepNames(names, events[i])|) == Peak(names0, events[..i + 1]);
    PeakPrefix(names0, events, i + 1);
  }

  /** A replay that has ended or run out of events is the replay of the whole stream. */
  lemma ReplayDone(names0: seq<string>, events: seq<Event>, i: nat, err: Option<Failure>, names: seq<string>, depth: int)
    requires i <= |events| && Replayed(names0, events, i, err, names, depth) && (i == |events| || err.Some?)
    ensures err == Outcome(names0, events)
    ensures err.None? ==> names == EndNames(names0, events) && depth == Peak(names0, events)
  {
    if err.Some? {
      OutcomeSticky(names0, events, i);
    }
    assert events[..|events|] == events;
  }

  /** Every open element is closed again: the stream, replayed on an empty stack, ends with one. */
  predicate Balanced(events: seq<Event>)
  {
    Clean([], events) && EndNames([], events) == []
  }

  /** A stream that opens one element and closes it: peak depth one. */
  lemma {:induction false} SingleElementPeak(uri: string, local: string, qname: string)
    ensures var events := [StartElem(uri, local, qname, []), EndElem(uri, local, qname)];
      Balanced(events) && Peak([], events) == 1
  {
    var events := [StartElem(uri, local, qname, []), EndElem(uri, local, qname)];
    var first := [StartElem(uri, local, qname, [])];
    assert first[..|first| - 1] == [];
    assert Clean([], first[..|first| - 1]) && StepOk(EndNames([], first[..|first| - 1]), first[0]);
    assert EndNames([], first) == [qname];
    assert Clean([], first);
    assert Peak([], first) == 1;
    assert events[..|events| - 1] == first;
    assert EndNames([], events) == [];
  }

  /** An input source: its system id and the events a reader delivers for it, on every replay. */
  datatype Source = Source(systemId: Option<string>, events: seq<Event>)

  /** What `Stack.peek` throws on an empty stack. */
  const EmptyStack: string := "java.util.EmptyStackException"

  /** The exception an event raises over the given open names: a fault, a read error, or a close on an empty stack. */
  function StepFailure(names: seq<string>, e: Event): (r: Option<Failure>)
    ensures r.None? <==> StepOk(names, e)
    ensures e.Fault? ==> r == Some(SaxFailure(e.message))
    ensures e.IoFault? ==> r == Some(IOFailure(e.message))
    ensures e.EndElem? && names == [] ==> r == Some(RuntimeFailure(EmptyStack))
  {
    if e.Fault? then Some(SaxFailure(e.message))
    else if e.IoFault? then Some(IOFailure(e.message))
    else if e.EndElem? && names == [] then Some(RuntimeFailure(EmptyStack))
    else None
  }

  /** How a replay ends: the exception of the first event that is not survived, or none. */
  function Outcome(names: seq<string>, events: seq<Event>): Option<Failure>
  {
    if events == [] then None
    else
      var o := Outcome(names, events[..|events| - 1]);
      if o.Some? then o else StepFailure(EndNames(names, events[..|events| - 1]), events[|events| - 1])
  }

  /** A replay ends without an exception exactly when every event is survived. */
  lemma {:induction false} OutcomeClean(names: seq<string>, events: seq<Event>)
    ensures Outcome(names, events).None? <==> Clean(names, events)
    decreases |events|
  {
    if events != [] {
      OutcomeClean(names, events[..|events| - 1]);
    }
  }

  /** Once a prefix of the stream has failed, the whole stream fails the same way. */
  lemma {:induction false} OutcomeSticky(names: seq<string>, events: seq<Event>, k: nat)
    requires k <= |events| && Outcome(names, events[..k]).Some?
    ensures Outcome(names, events) == Outcome(names, events[..k])
    decreases |events|
  {
    if k < |events| {
      assert events[..|events| - 1][..k] == events[..k];
      OutcomeSticky(names, events[..|events| - 1], k);
    } else {
      assert events[..k] == events;
    }
  }
}
