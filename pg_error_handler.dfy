/** `formatPgError` of src/utils/handlers/errors/pgErrorHandler.ts: a PostgreSQL error code that
    the table knows is replaced by its message; anything else falls back to the error's own text. */
module PgErrorHandler {
  import opened Wrappers

  /** The value that was thrown. A `code` property is absent (None) or a string. */
  datatype Thrown =
    /** An `Error` instance, such as the `pg` driver's DatabaseError. */
    | ErrorObject(message: string, code: Option<string>)
    /** Any other object; `text` is what `String(error)` gives for it. */
    | PlainObject(code: Option<string>, text: string)
    /** null, undefined or a primitive; `text` is `String(error)`. */
    | Primitive(text: string)

  /** `PG_ERROR_CODES`. */
  const PgErrorCodes: map<string, string> :=
    map["42P07" := "Relation already exists", "25P02" := "Transaction aborted"]

  /** The table entry for the error's code, when the error is an object whose code is a non-empty
      string the table knows. */
  function MappedMessage(e: Thrown): (m: Option<string>)
    ensures m.Some? <==> !e.Primitive? && e.code.Some? && e.code.value in PgErrorCodes
    ensures m.Some? ==> m.value == PgErrorCodes[e.code.value]
  {
    match e
    case Primitive(_) => None
    case _ =>
      match e.code
      case Some(c) => if c != "" && c in PgErrorCodes then Some(PgErrorCodes[c]) else None
      case None => None
  }

  function FormatPgError(e: Thrown): (r: string)
    ensures !e.Primitive? && e.code == Some("42P07") ==> r == "Relation already exists"
    ensures !e.Primitive? && e.code == Some("25P02") ==> r == "Transaction aborted"
    ensures MappedMessage(e).Some? ==> r in PgErrorCodes.Values
    ensures MappedMessage(e).None? && e.ErrorObject? ==> r == e.message
    ensures MappedMessage(e).None? && !e.ErrorObject? ==> r == e.text
  {
    match MappedMessage(e)
    case Some(m) => m
    case None => if e.ErrorObject? then e.message else e.text
  }

  /** A mapped code decides the text alone: the error's message and kind do not matter. */
  lemma MappedCodeIgnoresMessage(message: string, text: string, code: string)
    requires code in PgErrorCodes
    ensures FormatPgError(ErrorObject(message, Some(code))) == FormatPgError(PlainObject(Some(code), text))
    ensures FormatPgError(ErrorObject(message, Some(code))) == PgErrorCodes[code]
  {
  }

  /** An error whose code the table does not know keeps its own message. */
  lemma UnmappedCodeKeepsMessage(message: string, code: Option<string>)
    requires code.None? || code.value !in PgErrorCodes
    ensures FormatPgError(ErrorObject(message, code)) == message
  {
  }

  /** A thrown primitive is never looked up, so even a code-like string is shown as itself. */
  lemma PrimitiveIsShownAsString(text: string)
    ensures FormatPgError(Primitive(text)) == text
  {
  }
}
