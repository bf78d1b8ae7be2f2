/** The exceptions a ModRuby request can raise: ModRuby's own three classes
    and any other Ruby exception, each with the backtrace Ruby recorded
    when it was raised (innermost frame first). */
module Exceptions {

  /** What the exception is, and what its `to_s` depends on. */
  datatype Kind =
    /** Any exception class outside ModRuby (`NameError`, `Errno::ENOENT`, ...). */
    | Generic(className: string, message: string)
    /** `ModRuby::RuntimeError`: wraps another exception `inner` raised while
        running `scriptClass` from `fileName`. */
    | Wrapped(fileName: string, scriptClass: string, inner: Exc)
    /** `ModRuby::Redirect`: carries the target URL. */
    | Redirect(url: string)
    /** `ModRuby::RequestTermination`: no payload. */
    | RequestTermination

  datatype Exc = Exc(kind: Kind, frames: seq<string>)

  /** A value that may be missing (Ruby's `nil`). */
  datatype Option<T> = None | Some(value: T)

  /** A value, or the exception computing it raised. */
  datatype Result<T> = Ok(value: T) | Err(error: Exc)

  const RuntimeErrorClass := "ModRuby::RuntimeError"
  const RedirectClass := "ModRuby::Redirect"
  const TerminationClass := "ModRuby::RequestTermination"
  const TerminationText := "Request terminated"

  /** `e.class` as `sprintf("%s")` renders it. */
  function ClassName(e: Exc): string {
    match e.kind
    case Generic(cn, _) => cn
    case Wrapped(_, _, _) => RuntimeErrorClass
    case Redirect(_) => RedirectClass
    case RequestTermination => TerminationClass
  }

  /** `e.to_s`; a `ModRuby::RuntimeError` delegates to the exception it wraps. */
  function ToS(e: Exc): string {
    match e.kind
    case Generic(_, msg) => msg
    case Wrapped(_, _, inner) => ToS(inner)
    case Redirect(url) => url
    case RequestTermination => TerminationText
  }

  /** Follows the chain of wrapped exceptions (`@e`) to the first exception
      that wraps nothing: a `Redirect`, a `RequestTermination` or a generic
      exception. */
  function Innermost(e: Exc): (r: Exc)
    ensures !r.kind.Wrapped?
  {
    match e.kind
    case Wrapped(_, _, inner) => Innermost(inner)
    case _ => e
  }

  /** However deeply wrapped, a `ModRuby::RuntimeError` reports the text of
      the innermost exception; a `Redirect` its URL; a termination the
      fixed text. */
  lemma {:induction false} ToSReportsInnermost(e: Exc)
    ensures ToS(e) == ToS(Innermost(e))
    ensures Innermost(e).kind.Redirect? ==> ToS(e) == Innermost(e).kind.url
    ensures Innermost(e).kind.RequestTermination? ==> ToS(e) == TerminationText
    ensures Innermost(e).kind.Generic? ==> ToS(e) == Innermost(e).kind.message
  {
    match e.kind
    case Wrapped(_, _, inner) => ToSReportsInnermost(inner);
    case _ =>
  }
}
