/** Error values exchanged by the list-membership engine and its callers.

    The repository wraps every error with a text prefix naming the query;
    wrapping is transparent to `errors.Is`, so the prefix is not modelled.
    `errors.Join` is kept, because `errors.Is` looks through it. */
module Errors {

  datatype Option<T> = None | Some(value: T)

  datatype Error =
    | NotFound                                    // the repository's ErrNotFound
    | NoRows                                      // pgx.ErrNoRows: a single-row read found nothing
    | TooManyRows                                  // a single-row read matched several rows
    | Db(code: int)                               // any other failure reported by the database
    | Joined(cause: Error, rollback: Option<Error>) // errors.Join(err, errRollback)
    | ServiceNotFound                             // the service layer's ErrNotFound
    | Created                                     // the service's ErrCreated: a new row was appended
    | FakeExists                                  // the in-memory fake: pair already present
    | FakeNotFound                                // the in-memory fake: pair absent
    | FakeListNotFound                            // the in-memory list fake: list absent
    | AnError                                     // the generic error returned by unimplemented fakes

  /** The `error` result of a Go function that returns nothing else. */
  datatype Outcome = Success | Failure(error: Error)

  /** A Go `(T, error)` pair in which exactly one side is meaningful. */
  datatype Result<T> = Ok(value: T) | Err(error: Error)

  /** `errors.Is(e, target)` for a sentinel `target`: `e` is the target or
      a joined error one of whose parts is. */
  predicate Is(e: Error, target: Error)
    decreases e
  {
    e == target
    || (e.Joined? && (Is(e.cause, target) || (e.rollback.Some? && Is(e.rollback.value, target))))
  }

  /** The error a failed transaction reports: the statement's error joined
      with whatever the rollback returned. */
  function RolledBack(cause: Error, rollback: Option<Error>): (e: Error)
    ensures forall t :: Is(cause, t) ==> Is(e, t)
    ensures forall t :: rollback.Some? && Is(rollback.value, t) ==> Is(e, t)
  {
    Joined(cause, rollback)
  }

  /** The service layer's translation: the repository's NotFound, wherever
      it sits in the error, becomes the service's own NotFound; every
      other outcome passes through unchanged. */
  function TranslateNotFound(o: Outcome): (r: Outcome)
    ensures o.Success? <==> r.Success?
    ensures o.Failure? && Is(o.error, NotFound) ==> r == Failure(ServiceNotFound)
    ensures o.Failure? && !Is(o.error, NotFound) ==> r == o
  {
    if o.Failure? && Is(o.error, NotFound) then Failure(ServiceNotFound) else o
  }

  /** The same translation for an operation that also returns a value. */
  function TranslateResult<T>(res: Result<T>): (r: Result<T>)
    ensures res.Ok? <==> r.Ok?
    ensures res.Ok? ==> r == res
    ensures res.Err? && Is(res.error, NotFound) ==> r == Err(ServiceNotFound)
    ensures res.Err? && !Is(res.error, NotFound) ==> r == res
  {
    if res.Err? && Is(res.error, NotFound) then Err(ServiceNotFound) else res
  }

  /** The repository sentinel never reaches the service's callers. */
  lemma TranslationHidesRepositoryNotFound(o: Outcome)
    ensures TranslateNotFound(o).Failure? ==> !Is(TranslateNotFound(o).error, NotFound)
  {
  }

  /** Translating twice is translating once. */
  lemma TranslationIdempotent(o: Outcome)
    ensures TranslateNotFound(TranslateNotFound(o)) == TranslateNotFound(o)
  {
  }
}
