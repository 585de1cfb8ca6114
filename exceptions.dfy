/**
 * The exceptions that cross the template's boundary, and the single
 * translation point `convertJcrAccessException` through which execute
 * routes every failure it catches.
 */
module Exceptions {

  /** The exceptions the template deals with. */
  datatype Exn =
    | RepositoryException(message: string)      // javax.jcr, checked
    | IOException(message: string)              // java.io, checked
    | RuntimeException(message: string)         // any other unchecked application failure
    | IllegalArgumentException(message: string) // unchecked: a null argument
    | NullPointerException                      // unchecked: a method called on null
    | IllegalStateException(message: string)    // unchecked: no bound session and creation not allowed
    | DataAccessException(cause: Exn)           // unchecked: Spring's translated hierarchy
    | Error(message: string)                    // java.lang.Error: no catch clause of execute sees it

  /** The two checked exceptions a callback may throw. */
  predicate IsChecked(e: Exn) {
    e.RepositoryException? || e.IOException?
  }

  /** Subclasses of RuntimeException. */
  predicate IsUnchecked(e: Exn) {
    e.RuntimeException? || e.IllegalArgumentException? || e.NullPointerException? ||
    e.IllegalStateException? || e.DataAccessException?
  }

  /** What the three catch clauses of execute (repository, I/O, runtime) catch: everything but an Error. */
  predicate Caught(e: Exn) {
    IsChecked(e) || IsUnchecked(e)
  }

  /**
   * convertJcrAccessException: a checked repository or I/O failure becomes a
   * data-access exception carrying it as its cause; a runtime exception is
   * passed on as it is.
   */
  function Convert(e: Exn): (t: Exn)
    requires Caught(e)
    ensures IsUnchecked(t)
    ensures IsChecked(e) ==> t.DataAccessException? && t.cause == e
    ensures !IsChecked(e) ==> t == e
  {
    if IsChecked(e) then DataAccessException(e) else e
  }

  /** The exception that leaves execute when the callback threw `e`. */
  function Escaping(e: Exn): (t: Exn)
    ensures !IsChecked(t)
    ensures Caught(e) ==> t == Convert(e)
    ensures !Caught(e) ==> t == e
  {
    if Caught(e) then Convert(e) else e
  }

  /** Translating twice is translating once: an exception thrown already translated passes through execute unchanged. */
  lemma ConvertIdempotent(e: Exn)
    requires Caught(e)
    ensures Caught(Convert(e)) && Convert(Convert(e)) == Convert(e)
    ensures Escaping(Escaping(e)) == Escaping(e)
  {
  }
}
