/**
 * Errors in the style of github.com/juju/errors: a classification that
 * survives annotation, and a message that annotation prefixes with context
 * ("<context>: <cause>").
 */
module Errors {

  datatype ErrorKind = NotFound | NotSupported | Generic

  datatype Error = Error(kind: ErrorKind, message: string)

  const QuoteMark: string := "\""
  const ContextSeparator: string := ": "
  const NotFoundSuffix: string := " not found"
  const NotSupportedSuffix: string := " not supported"

  /** Go's %q for the plain strings this model deals with (no escaping). */
  function Quote(s: string): string {
    QuoteMark + s + QuoteMark
  }

  /** errors.Annotate: keeps the cause's classification, prefixes the message. */
  function Annotate(context: string, cause: Error): (e: Error)
    ensures e.kind == cause.kind
    ensures e.message == context + ContextSeparator + cause.message
  {
    Error(cause.kind, context + ContextSeparator + cause.message)
  }

  /** errors.NotFoundf("<what>"): the message is "<what> not found". */
  function NotFoundError(what: string): Error {
    Error(NotFound, what + NotFoundSuffix)
  }

  /** errors.NotSupportedf("<what>"): the message is "<what> not supported". */
  function NotSupportedError(what: string): Error {
    Error(NotSupported, what + NotSupportedSuffix)
  }
}
