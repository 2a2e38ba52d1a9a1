/** The list-membership service: it routes AddPoster to an append or a
    move, and translates the repository's NotFound into its own. The
    routing and the translation are pure functions of the repository's
    answers, shared by the service over the Postgres repository (here)
    and the one over the in-memory fake (FakeListPoster). */
module ListPosterService {
  import opened Errors
  import opened ListPosterTable
  import opened ListPosterRepository

  /** AddPoster's three paths. */
  datatype Route = Append | Move(from: int) | Abort(error: Error)

  /** The choice on the answer of the list lookup: a NotFound (wherever it
      sits in the error) appends, a list moves from that list, and any
      other error is returned. */
  function RouteOf(lookup: Result<int>): (r: Route)
    ensures r.Append? <==> lookup.Err? && Is(lookup.error, NotFound)
    ensures r.Move? <==> lookup.Ok?
    ensures r.Move? ==> r.from == lookup.value
    ensures r.Abort? ==> lookup.Err? && r.error == lookup.error && !Is(lookup.error, NotFound)
  {
    match lookup
    case Err(e) => if Is(e, NotFound) then Append else Abort(e)
    case Ok(from) => Move(from)
  }

  /** What the append path reports: ErrCreated when the row was added,
      the service's NotFound for the repository's, any other error as is.
      It never reports plain success. */
  function CreatedOutcome(o: Outcome): (r: Outcome)
    ensures r.Failure?
    ensures o.Success? ==> r == Failure(Created)
    ensures o.Failure? ==> r == TranslateNotFound(o)
  {
    if o.Success? then Failure(Created) else TranslateNotFound(o)
  }

  /** What AddPoster reports, given the lookup's answer and what the
      append and the move would report. */
  function AddResult(lookup: Result<int>, append: Outcome, move: Outcome): (r: Outcome)
    ensures r.Success? <==> lookup.Ok? && move.Success?
    ensures lookup.Err? && !Is(lookup.error, NotFound) ==> r == Failure(lookup.error)
    ensures lookup.Ok? && move.Failure? ==> r == TranslateNotFound(move)
  {
    match RouteOf(lookup)
    case Append => CreatedOutcome(append)
    case Move(_) => TranslateNotFound(move)
    case Abort(e) => Failure(e)
  }

  /** No repository answer is the service's ErrCreated. */
  predicate NotCreated(e: Error)
  {
    !Is(e, Created)
  }

  /** ErrCreated is reported exactly when the lookup sent the poster down
      the append path and the append succeeded: a move that succeeds
      reports success, and errors pass through, as long as no repository
      answer is itself ErrCreated. */
  lemma CreatedIffAppended(lookup: Result<int>, append: Outcome, move: Outcome)
    requires lookup.Err? ==> NotCreated(lookup.error)
    requires append.Failure? ==> NotCreated(append.error)
    requires move.Failure? ==> NotCreated(move.error)
    ensures AddResult(lookup, append, move) == Failure(Created) <==> RouteOf(lookup).Append? && append.Success?
    ensures RouteOf(lookup).Move? ==> (AddResult(lookup, append, move).Success? <==> move.Success?)
  {
    if RouteOf(lookup).Abort? {
      assert !Is(lookup.error, Created);
    }
  }

  /** The service never hands the repository's NotFound to its callers. */
  lemma AddHidesRepositoryNotFound(lookup: Result<int>, append: Outcome, move: Outcome)
    ensures var r := AddResult(lookup, append, move);
      r.Failure? ==> !Is(r.error, NotFound)
  {
    match RouteOf(lookup)
    case Append =>
      if append.Failure? { TranslationHidesRepositoryNotFound(append); }
    case Move(_) =>
      TranslationHidesRepositoryNotFound(move);
    case Abort(e) =>
  }

  /** The service over the Postgres repository. Each method takes the
      injected results of the statements its repository call runs. */
  class ListPosterService {
    const repo: ListPosterRepository

    constructor (repo: ListPosterRepository)
      ensures this.repo == repo
    {
      this.repo := repo;
    }

    method GetPosters(listID: int, queryFault: Option<Error>, rowsFault: Option<Error>, scanFault: Option<Error>)
      returns (r: Result<seq<ListPoster>>)
      ensures r == TranslateResult(Posters(repo.rows, listID, queryFault, rowsFault, scanFault))
    {
      var found := repo.GetPosters(listID, queryFault, rowsFault, scanFault);
      if found.Err? && Is(found.error, NotFound) {
        return Err(ServiceNotFound);
      }
      r := found;
    }

    /** Look the poster up; append it when it is in no list, otherwise
        move it from its list. */
    method AddPoster(listID: int, posterID: int, lookupFault: Option<Error>,
                     countFault: Option<Error>, insertFault: Option<Error>, tx: TxFaults)
      returns (o: Outcome)
      modifies repo
      ensures var route := RouteOf(ListOfPoster(old(repo.rows), posterID, lookupFault));
        && o == AddResult(ListOfPoster(old(repo.rows), posterID, lookupFault),
                          AppendOutcome(countFault, insertFault), MoveOutcome(countFault, tx))
        && (route.Append? && AppendOutcome(countFault, insertFault).Success? ==>
              repo.rows == Appended(old(repo.rows), old(repo.nextID), listID, posterID)
              && repo.nextID == old(repo.nextID) + 1)
        && (route.Move? && MoveOutcome(countFault, tx).Success? ==>
              repo.rows == Relocated(old(repo.rows), old(repo.nextID), route.from, listID, posterID)
              && repo.nextID == old(repo.nextID) + 1)
        && (|| route.Abort?
            || (route.Append? && AppendOutcome(countFault, insertFault).Failure?)
            || (route.Move? && MoveOutcome(countFault, tx).Failure?) ==>
              repo.rows == old(repo.rows) && repo.nextID == old(repo.nextID))
    {
      var lookup := repo.GetListIDByPosterID(posterID, lookupFault);
      match RouteOf(lookup)
      case Append =>
        var added := repo.AddPoster(listID, posterID, countFault, insertFault);
        o := CreatedOutcome(added);
      case Move(from) =>
        o := MovePoster(from, listID, posterID, countFault, tx);
      case Abort(e) =>
        o := Failure(e);
    }

    method MovePoster(curListID: int, newListID: int, posterID: int, countFault: Option<Error>, tx: TxFaults)
      returns (o: Outcome)
      modifies repo
      ensures o == TranslateNotFound(MoveOutcome(countFault, tx))
      ensures o.Success? ==>
        repo.rows == Relocated(old(repo.rows), old(repo.nextID), curListID, newListID, posterID)
        && repo.nextID == old(repo.nextID) + 1
      ensures o.Failure? ==> repo.rows == old(repo.rows) && repo.nextID == old(repo.nextID)
    {
      var moved := repo.MovePoster(curListID, newListID, posterID, countFault, tx);
      o := TranslateNotFound(moved);
    }

    method ChangePosterPosition(listID: int, posterID: int, newPosition: int, readFault: Option<Error>, tx: TxFaults)
      returns (o: Outcome)
      modifies repo
      ensures o == TranslateNotFound(RepositionOutcome(old(repo.rows), listID, posterID, readFault, tx))
      ensures o.Success? ==>
        repo.rows == Repositioned(old(repo.rows), listID, posterID, PairPosition(old(repo.rows), listID, posterID), newPosition)
      ensures o.Failure? ==> repo.rows == old(repo.rows)
      ensures repo.nextID == old(repo.nextID)
    {
      var changed := repo.ChangePosterPosition(listID, posterID, newPosition, readFault, tx);
      o := TranslateNotFound(changed);
    }

    method DeletePoster(listID: int, posterID: int, checkFault: Option<Error>, execFault: Option<Error>)
      returns (o: Outcome)
      modifies repo
      ensures o == TranslateNotFound(DeleteOutcome(old(repo.rows), listID, posterID, checkFault, execFault))
      ensures o.Success? ==> repo.rows == Removed(old(repo.rows), listID, posterID)
      ensures o.Failure? ==> repo.rows == old(repo.rows)
      ensures repo.nextID == old(repo.nextID)
    {
      var deleted := repo.DeletePoster(listID, posterID, checkFault, execFault);
      o := TranslateNotFound(deleted);
    }
  }

  /** A position change of a poster that has no row in the list is not
      reported as the service's NotFound: the read fails with pgx.ErrNoRows,
      which the translation passes through. */
  lemma AbsentPosterIsNoRows(rows: seq<ListPoster>, listID: int, posterID: int, tx: TxFaults)
    requires forall i :: 0 <= i < |rows| ==> !IsPair(rows[i], listID, posterID)
    ensures TranslateNotFound(RepositionOutcome(rows, listID, posterID, None, tx)) == Failure(NoRows)
  {
  }

  /** A fault-free AddPoster of a poster that is in no list appends it at
      `count + 1` and reports ErrCreated; of a poster that is in a list,
      moves it and reports success. */
  lemma AddWithoutFaults(rows: seq<ListPoster>, posterID: int)
    ensures var lookup := ListOfPoster(rows, posterID, None);
      && ((forall i :: 0 <= i < |rows| ==> rows[i].posterID != posterID) ==>
            RouteOf(lookup).Append? && AddResult(lookup, AppendOutcome(None, None), MoveOutcome(None, NoTxFaults)) == Failure(Created))
      && ((exists i :: 0 <= i < |rows| && rows[i].posterID == posterID) ==>
            RouteOf(lookup).Move? && AddResult(lookup, AppendOutcome(None, None), MoveOutcome(None, NoTxFaults)) == Success)
  {
  }
}
