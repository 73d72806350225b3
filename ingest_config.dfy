/**
 * The two configuration switches the parser's constructor reads: `indexer.validation`
 * and `indexer.suppress-whitespace`. A missing property is None.
 */
module IngestConfig {
  import opened Base

  /** VALIDATION_ENABLED (0), VALIDATION_AUTO (1), VALIDATION_DISABLED (2). */
  datatype ValidationMode = Enabled | Auto | Disabled

  /** The whitespace normalization modes of text nodes; "none" is the mode 0. */
  datatype WhitespaceMode = NoSuppress | SuppressLeading | SuppressTrailing | SuppressBoth

  /** The validation mode for the `indexer.validation` property (default: auto). */
  function ValidationFromOption(option: Option<string>): (m: ValidationMode)
    ensures m == Enabled <==> option == Some("true")
    ensures m == Auto <==> option == None || option == Some("auto")
    ensures m == Disabled <==> option.Some? && option.value != "true" && option.value != "auto"
  {
    match option
    case None => Auto
    case Some(s) => if s == "true" then Enabled else if s == "auto" then Auto else Disabled
  }

  /** A property value that selects the given validation mode. */
  function ValidationOption(m: ValidationMode): (s: string)
    ensures ValidationFromOption(Some(s)) == m
  {
    match m
    case Enabled => "true"
    case Auto => "auto"
    case Disabled => "false"
  }

  /** The whitespace mode for `indexer.suppress-whitespace`; an unknown value keeps the default, both. */
  function WhitespaceFromOption(option: Option<string>): (m: WhitespaceMode)
    ensures m == SuppressLeading <==> option == Some("leading")
    ensures m == SuppressTrailing <==> option == Some("trailing")
    ensures m == NoSuppress <==> option == Some("none")
    ensures m == SuppressBoth <==> option !in {Some("leading"), Some("trailing"), Some("none")}
  {
    match option
    case None => SuppressBoth
    case Some(s) =>
      if s == "leading" then SuppressLeading
      else if s == "trailing" then SuppressTrailing
      else if s == "none" then NoSuppress
      else SuppressBoth
  }

  /** A property value that selects the given whitespace mode. */
  function WhitespaceOption(m: WhitespaceMode): (s: string)
    ensures WhitespaceFromOption(Some(s)) == m
  {
    match m
    case NoSuppress => "none"
    case SuppressLeading => "leading"
    case SuppressTrailing => "trailing"
    case SuppressBoth => "both"
  }
}
