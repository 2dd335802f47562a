/** The parser's error conversion for language bindings (ddex-parser
    `error/ffi.rs`): every `ParseError` becomes an `FFIError` with a code, a
    message, an optional location, a severity, an optional hint and a
    category. The I/O and serde errors appear here by the text their
    `to_string` renders. */
module FfiError {
  import opened Util

  datatype ErrorLocation = ErrorLocation(line: nat, column: nat, byteOffset: Option<nat>, path: string)

  datatype ErrorSeverity = Error | Warning | Info

  datatype ParseError =
    | XmlError(message: string, location: ErrorLocation)
    | InvalidVersion(version: string)
    | UnresolvedReference(reference: string, location: ErrorLocation)
    | SecurityViolation(limit: string)
    | Io(ioMessage: string)
    /** `u64` seconds. */
    | Timeout(seconds: nat)
    | StructureError(text: string)
    | VersionError(text: string)
    | ReferenceError(text: string)
    | SerializationError(serdeMessage: string)
    | Unknown(text: string)

  datatype FfiErrorLocation = FfiErrorLocation(path: string, line: nat, column: nat, byteOffset: Option<nat>)

  datatype FfiErrorSeverity = Error | Warning | Info

  datatype FfiErrorCategory = XmlParsing | InvalidVersion | UnresolvedReference | SecurityViolation | IoError | Timeout

  datatype FfiError = FfiError(
    code: string,
    message: string,
    location: Option<FfiErrorLocation>,
    severity: FfiErrorSeverity,
    hint: Option<string>,
    category: FfiErrorCategory)

  // ------------------------------------------------------------ conversions

  /** `From<ErrorSeverity> for FFIErrorSeverity`. */
  function SeverityToFfi(s: ErrorSeverity): FfiErrorSeverity {
    match s
    case Error => FfiErrorSeverity.Error
    case Warning => FfiErrorSeverity.Warning
    case Info => FfiErrorSeverity.Info
  }

  /** The way back, for stating that nothing is lost. */
  function SeverityFromFfi(s: FfiErrorSeverity): ErrorSeverity {
    match s
    case Error => ErrorSeverity.Error
    case Warning => ErrorSeverity.Warning
    case Info => ErrorSeverity.Info
  }

  /** The severity conversion is a bijection. */
  lemma SeverityRoundTrip(s: ErrorSeverity, f: FfiErrorSeverity)
    ensures SeverityFromFfi(SeverityToFfi(s)) == s
    ensures SeverityToFfi(SeverityFromFfi(f)) == f
  {
  }

  /** `From<ErrorLocation> for FFIErrorLocation`. */
  function LocationToFfi(loc: ErrorLocation): FfiErrorLocation {
    FfiErrorLocation(loc.path, loc.line, loc.column, loc.byteOffset)
  }

  function LocationFromFfi(loc: FfiErrorLocation): ErrorLocation {
    ErrorLocation(loc.line, loc.column, loc.byteOffset, loc.path)
  }

  /** The location conversion keeps line, column, byte offset and path, and
      is a bijection. */
  lemma LocationRoundTrip(loc: ErrorLocation, f: FfiErrorLocation)
    ensures LocationFromFfi(LocationToFfi(loc)) == loc
    ensures LocationToFfi(LocationFromFfi(f)) == f
    ensures var r := LocationToFfi(loc);
      r.line == loc.line && r.column == loc.column && r.byteOffset == loc.byteOffset && r.path == loc.path
  {
  }

  /** `From<ParseError> for FFIError`, written field by field: each of the
      functions below is the conversion's `match` restricted to one field. */
  function ToFfi(e: ParseError): FfiError {
    FfiError(Code(e), Message(e), Location(e), Severity(e), Hint(e), Category(e))
  }

  function Code(e: ParseError): string {
    match e
    case XmlError(_, _) => "XML_PARSE_ERROR"
    case InvalidVersion(_) => "INVALID_VERSION"
    case UnresolvedReference(_, _) => "UNRESOLVED_REFERENCE"
    case SecurityViolation(_) => "SECURITY_VIOLATION"
    case Io(_) => "IO_ERROR"
    case Timeout(_) => "PARSE_TIMEOUT"
    case StructureError(_) => "STRUCTURE_ERROR"
    case VersionError(_) => "VERSION_ERROR"
    case ReferenceError(_) => "REFERENCE_ERROR"
    case SerializationError(_) => "SERIALIZATION_ERROR"
    case Unknown(_) => "UNKNOWN_ERROR"
  }

  function Message(e: ParseError): string {
    match e
    case XmlError(message, _) => message
    case InvalidVersion(version) => "Invalid DDEX version: " + version
    case UnresolvedReference(reference, _) => "Cannot resolve reference: " + reference
    case SecurityViolation(limit) => "Security limit exceeded: " + limit
    case Io(ioMessage) => ioMessage
    case Timeout(seconds) => "Parse timeout after " + NatToString(seconds) + " seconds"
    case StructureError(text) => text
    case VersionError(text) => text
    case ReferenceError(text) => text
    case SerializationError(serdeMessage) => serdeMessage
    case Unknown(text) => text
  }

  function Location(e: ParseError): Option<FfiErrorLocation> {
    match e
    case XmlError(_, location) => Some(LocationToFfi(location))
    case UnresolvedReference(_, location) => Some(LocationToFfi(location))
    case _ => None
  }

  function Severity(e: ParseError): FfiErrorSeverity {
    if e.UnresolvedReference? then FfiErrorSeverity.Warning else FfiErrorSeverity.Error
  }

  function Hint(e: ParseError): Option<string> {
    match e
    case XmlError(_, _) => Some("Check XML syntax and ensure it's well-formed")
    case InvalidVersion(_) => Some("Supported versions are: 3.8.2, 4.2, 4.3")
    case UnresolvedReference(reference, _) => Some("Check that '" + reference + "' is defined in the document")
    case SecurityViolation(_) => Some("File may be malicious or too complex. Check security settings.")
    case Io(_) => Some("Check file permissions and disk space")
    case Timeout(_) => Some("File may be too large. Try streaming mode or increase timeout.")
    case _ => None
  }

  function Category(e: ParseError): FfiErrorCategory {
    match e
    case InvalidVersion(_) => FfiErrorCategory.InvalidVersion
    case UnresolvedReference(_, _) => FfiErrorCategory.UnresolvedReference
    case SecurityViolation(_) => FfiErrorCategory.SecurityViolation
    case Io(_) => IoError
    case Timeout(_) => FfiErrorCategory.Timeout
    case _ => XmlParsing
  }

  /** `into_ffi_result`: `map_err` with the conversion. */
  function IntoFfiResult<T>(r: Result<T, ParseError>): (f: Result<T, FfiError>)
    ensures f.Ok? <==> r.Ok?
    ensures f.Ok? ==> f.value == r.value
    ensures f.Err? ==> f.error == ToFfi(r.error)
  {
    match r
    case Ok(v) => Ok(v)
    case Err(e) => Err(ToFfi(e))
  }

  // ----------------------------------------------------------------- facts

  /** The position of each variant in the declaration, 0 to 10. */
  function Variant(e: ParseError): nat {
    match e
    case XmlError(_, _) => 0
    case InvalidVersion(_) => 1
    case UnresolvedReference(_, _) => 2
    case SecurityViolation(_) => 3
    case Io(_) => 4
    case Timeout(_) => 5
    case StructureError(_) => 6
    case VersionError(_) => 7
    case ReferenceError(_) => 8
    case SerializationError(_) => 9
    case Unknown(_) => 10
  }

  /** Reads a code back to the variant it stands for. The eleven codes
      already differ in their length or their initial letter, so those two
      are enough. */
  function CodeVariant(code: string): Option<nat> {
    if |code| == 0 then None
    else if |code| == 8 then (if code[0] == 'I' then Some(4) else None)
    else if |code| == 13 then
      (if code[0] == 'P' then Some(5) else if code[0] == 'V' then Some(7) else if code[0] == 'U' then Some(10) else None)
    else if |code| == 15 then
      (if code[0] == 'X' then Some(0) else if code[0] == 'I' then Some(1)
       else if code[0] == 'S' then Some(6) else if code[0] == 'R' then Some(8) else None)
    else if |code| == 18 then (if code[0] == 'S' then Some(3) else None)
    else if |code| == 19 then (if code[0] == 'S' then Some(9) else None)
    else if |code| == 20 then (if code[0] == 'U' then Some(2) else None)
    else None
  }

  /** The code names the variant: reading it back gives the variant, so the
      eleven codes are pairwise distinct. */
  lemma CodeIdentifiesVariant(e: ParseError)
    ensures CodeVariant(Code(e)) == Some(Variant(e))
  {
    match e {
      case XmlError(_, _) =>
      case InvalidVersion(_) =>
      case UnresolvedReference(_, _) =>
      case SecurityViolation(_) =>
      case Io(_) =>
      case Timeout(_) =>
      case StructureError(_) =>
      case VersionError(_) =>
      case ReferenceError(_) =>
      case SerializationError(_) =>
      case Unknown(_) =>
    }
  }

  lemma CodesDistinct(a: ParseError, b: ParseError)
    ensures Code(a) == Code(b) <==> Variant(a) == Variant(b)
  {
    CodeIdentifiesVariant(a);
    CodeIdentifiesVariant(b);
    if Variant(a) == Variant(b) {
      SameVariantSameCode(a, b);
    }
  }

  lemma SameVariantSameCode(a: ParseError, b: ParseError)
    requires Variant(a) == Variant(b)
    ensures Code(a) == Code(b)
  {
    match a {
      case XmlError(_, _) =>
      case InvalidVersion(_) =>
      case UnresolvedReference(_, _) =>
      case SecurityViolation(_) =>
      case Io(_) =>
      case Timeout(_) =>
      case StructureError(_) =>
      case VersionError(_) =>
      case ReferenceError(_) =>
      case SerializationError(_) =>
      case Unknown(_) =>
    }
  }

  /** Only an unresolved reference is a warning; everything else is an
      error, and nothing is converted to `Info`. */
  lemma SeverityOfConversion(e: ParseError)
    ensures Severity(e) == FfiErrorSeverity.Warning <==> e.UnresolvedReference?
    ensures Severity(e) == FfiErrorSeverity.Error <==> !e.UnresolvedReference?
    ensures Severity(e) != FfiErrorSeverity.Info
  {
  }

  /** Only XML errors and unresolved references carry a location, which is
      their own, converted. */
  lemma LocationOfConversion(e: ParseError)
    ensures Location(e).Some? <==> e.XmlError? || e.UnresolvedReference?
    ensures (e.XmlError? || e.UnresolvedReference?) ==> Location(e) == Some(LocationToFfi(e.location))
  {
  }

  /** XML, structure, version, reference, serialisation and unknown errors
      share the `XmlParsing` category. */
  lemma XmlParsingCategory(e: ParseError)
    ensures Category(e) == XmlParsing <==> Variant(e) == 0 || Variant(e) >= 6
  {
    match e {
      case XmlError(_, _) =>
      case InvalidVersion(_) =>
      case UnresolvedReference(_, _) =>
      case SecurityViolation(_) =>
      case Io(_) =>
      case Timeout(_) =>
      case StructureError(_) =>
      case VersionError(_) =>
      case ReferenceError(_) =>
      case SerializationError(_) =>
      case Unknown(_) =>
    }
  }

  /** The other five variants each have a category of their own. */
  lemma OwnCategory(e: ParseError)
    ensures Category(e) == FfiErrorCategory.InvalidVersion <==> e.InvalidVersion?
    ensures Category(e) == FfiErrorCategory.UnresolvedReference <==> e.UnresolvedReference?
    ensures Category(e) == FfiErrorCategory.SecurityViolation <==> e.SecurityViolation?
    ensures Category(e) == IoError <==> e.Io?
    ensures Category(e) == FfiErrorCategory.Timeout <==> e.Timeout?
  {
    match e {
      case XmlError(_, _) =>
      case InvalidVersion(_) =>
      case UnresolvedReference(_, _) =>
      case SecurityViolation(_) =>
      case Io(_) =>
      case Timeout(_) =>
      case StructureError(_) =>
      case VersionError(_) =>
      case ReferenceError(_) =>
      case SerializationError(_) =>
      case Unknown(_) =>
    }
  }

  /** The first six variants come with a hint, the last five without. */
  lemma HintOfConversion(e: ParseError)
    ensures Hint(e).Some? <==> Variant(e) < 6
  {
    match e {
      case XmlError(_, _) =>
      case InvalidVersion(_) =>
      case UnresolvedReference(_, _) =>
      case SecurityViolation(_) =>
      case Io(_) =>
      case Timeout(_) =>
      case StructureError(_) =>
      case VersionError(_) =>
      case ReferenceError(_) =>
      case SerializationError(_) =>
      case Unknown(_) =>
    }
  }

  /** XML errors and the four text-carrying variants pass their message
      through; an invalid version is reported with its version string. */
  lemma MessageOfConversion(e: ParseError)
    ensures e.XmlError? ==> Message(e) == e.message
    ensures e.InvalidVersion? ==> Message(e) == "Invalid DDEX version: " + e.version
    ensures (e.StructureError? || e.VersionError? || e.ReferenceError? || e.Unknown?) ==> Message(e) == e.text
  {
    match e {
      case XmlError(_, _) =>
      case InvalidVersion(_) =>
      case UnresolvedReference(_, _) =>
      case SecurityViolation(_) =>
      case Io(_) =>
      case Timeout(_) =>
      case StructureError(_) =>
      case VersionError(_) =>
      case ReferenceError(_) =>
      case SerializationError(_) =>
      case Unknown(_) =>
    }
  }

  /** The conversion of the XML error at "/ReleaseList/Release[1]", line 42,
      column 10. */
  lemma XmlErrorExample()
    ensures var loc := ErrorLocation(42, 10, Some(1000), "/ReleaseList/Release[1]");
      var f := ToFfi(XmlError("Unexpected end tag", loc));
      && f.code == "XML_PARSE_ERROR" && f.message == "Unexpected end tag" && f.category == XmlParsing
      && f.location.Some? && f.location.value.line == 42 && f.location.value.column == 10
      && f.location.value.path == "/ReleaseList/Release[1]"
  {
  }
}
