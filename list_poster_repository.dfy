/** The Postgres list-membership repository: each method is the sequence
    of statements the repository sends to the database, over a model of
    the `listposter` table. A failure of any statement is injected by the
    caller as `Some(error)`; `None` means the statement succeeds.
    A transaction is a snapshot taken at `begin` and restored on rollback
    (and on a failed commit, which the database also rolls back). */
module ListPosterRepository {
  import opened Errors
  import opened ListPosterTable
  import ListPosterLaws

  /** The injected results of a two-statement transaction. */
  datatype TxFaults = TxFaults(
    begin: Option<Error>,
    first: Option<Error>,
    second: Option<Error>,
    rollback: Option<Error>,
    commit: Option<Error>)

  const NoTxFaults := TxFaults(None, None, None, None, None)

  /** What a two-statement transaction reports: the first failing step's
      error, a failing statement's error joined with the rollback's. */
  function TxOutcome(tx: TxFaults): (o: Outcome)
    ensures o.Success? <==> tx.begin.None? && tx.first.None? && tx.second.None? && tx.commit.None?
    ensures tx.begin.Some? ==> o == Failure(tx.begin.value)
    ensures tx.begin.None? && tx.first.Some? ==>
      o.Failure? && Is(o.error, tx.first.value) && (tx.rollback.Some? ==> Is(o.error, tx.rollback.value))
    ensures tx.begin.None? && tx.first.None? && tx.second.Some? ==>
      o.Failure? && Is(o.error, tx.second.value) && (tx.rollback.Some? ==> Is(o.error, tx.rollback.value))
  {
    if tx.begin.Some? then Failure(tx.begin.value)
    else if tx.first.Some? then Failure(RolledBack(tx.first.value, tx.rollback))
    else if tx.second.Some? then Failure(RolledBack(tx.second.value, tx.rollback))
    else if tx.commit.Some? then Failure(tx.commit.value)
    else Success
  }

  /** What GetPosters returns: a failed query is reported as it is, except
      that pgx.ErrNoRows becomes NotFound; then a failure of the row set,
      then of the scan (even pgx.ErrNoRows); then an empty list is
      NotFound; otherwise the list's rows in ascending position. */
  function Posters(rows: seq<ListPoster>, listID: int, queryFault: Option<Error>, rowsFault: Option<Error>, scanFault: Option<Error>)
    : (r: Result<seq<ListPoster>>)
    ensures queryFault.Some? ==> r == Err(if Is(queryFault.value, NoRows) then NotFound else queryFault.value)
    ensures queryFault.None? && rowsFault.Some? ==> r == Err(rowsFault.value)
    ensures queryFault.None? && rowsFault.None? && scanFault.Some? ==> r == Err(scanFault.value)
    ensures queryFault.None? && rowsFault.None? && scanFault.None? ==>
      if Count(rows, listID) == 0 then r == Err(NotFound)
      else r.Ok? && SortedByPosition(r.value) && multiset(r.value) == multiset(ListRows(rows, listID))
  {
    if queryFault.Some? then Err(if Is(queryFault.value, NoRows) then NotFound else queryFault.value)
    else if rowsFault.Some? then Err(rowsFault.value)
    else if scanFault.Some? then Err(scanFault.value)
    else
      var found := ListRows(rows, listID);
      ListPosterLaws.SortByPositionSorts(found);
      if |found| == 0 then Err(NotFound) else Ok(SortByPosition(found))
  }

  /** What AddPoster reports: the count's failure, then the insert's. */
  function AppendOutcome(countFault: Option<Error>, insertFault: Option<Error>): (o: Outcome)
    ensures o.Success? <==> countFault.None? && insertFault.None?
    ensures countFault.Some? ==> o == Failure(countFault.value)
  {
    if countFault.Some? then Failure(countFault.value)
    else if insertFault.Some? then Failure(insertFault.value)
    else Success
  }

  /** What MovePoster reports: the count's failure, then the transaction's. */
  function MoveOutcome(countFault: Option<Error>, tx: TxFaults): (o: Outcome)
    ensures o.Success? <==> countFault.None? && TxOutcome(tx).Success?
    ensures countFault.Some? ==> o == Failure(countFault.value)
  {
    if countFault.Some? then Failure(countFault.value) else TxOutcome(tx)
  }

  /** What DeletePoster reports: the existence check's failure, NotFound
      when the pair has no row, then the delete's failure. */
  function DeleteOutcome(rows: seq<ListPoster>, listID: int, posterID: int, checkFault: Option<Error>, execFault: Option<Error>)
    : (o: Outcome)
    ensures o.Success? <==> checkFault.None? && execFault.None? && exists i :: 0 <= i < |rows| && IsPair(rows[i], listID, posterID)
    ensures checkFault.None? && (forall i :: 0 <= i < |rows| ==> !IsPair(rows[i], listID, posterID)) ==> o == Failure(NotFound)
  {
    if checkFault.Some? then Failure(checkFault.value)
    else if PairCount(rows, listID, posterID) == 0 then Failure(NotFound)
    else if execFault.Some? then Failure(execFault.value)
    else Success
  }

  /** `select position ... where list_id and poster_id`, read with a
      single-row scan: no row is pgx.ErrNoRows, several rows an error. */
  function ReadPosition(rows: seq<ListPoster>, listID: int, posterID: int, fault: Option<Error>): (r: Result<int>)
    ensures fault.Some? ==> r == Err(fault.value)
    ensures r.Ok? <==> fault.None? && PairCount(rows, listID, posterID) == 1
    ensures r.Ok? ==> r.value == PairPosition(rows, listID, posterID)
    ensures fault.None? && PairCount(rows, listID, posterID) == 0 ==> r == Err(NoRows)
  {
    if fault.Some? then Err(fault.value)
    else if PairCount(rows, listID, posterID) == 0 then Err(NoRows)
    else if PairCount(rows, listID, posterID) > 1 then Err(TooManyRows)
    else Ok(PairPosition(rows, listID, posterID))
  }

  /** What ChangePosterPosition reports. A poster without a row in the list
      fails at the read with pgx.ErrNoRows; only a row stored at position 0
      reports the repository's NotFound. */
  function RepositionOutcome(rows: seq<ListPoster>, listID: int, posterID: int, readFault: Option<Error>, tx: TxFaults): (o: Outcome)
    ensures readFault.None? && PairCount(rows, listID, posterID) == 0 ==> o == Failure(NoRows)
    ensures o.Success? <==>
      && ReadPosition(rows, listID, posterID, readFault).Ok?
      && PairPosition(rows, listID, posterID) != 0
      && TxOutcome(tx).Success?
  {
    match ReadPosition(rows, listID, posterID, readFault)
    case Err(e) => Failure(e)
    case Ok(cur) => if cur == 0 then Failure(NotFound) else TxOutcome(tx)
  }

  /** The service's lookup of the list holding a poster. The interface
      declares it; the repository code does not define it. It returns the
      list of the poster's first row, or NotFound. */
  function ListOfPoster(rows: seq<ListPoster>, posterID: int, fault: Option<Error>): (r: Result<int>)
    ensures fault.Some? ==> r == Err(fault.value)
    ensures fault.None? && r.Err? ==> r.error == NotFound && forall i :: 0 <= i < |rows| ==> rows[i].posterID != posterID
    ensures r.Ok? ==> exists i :: 0 <= i < |rows| && rows[i].posterID == posterID && rows[i].listID == r.value
  {
    if fault.Some? then Err(fault.value)
    else
      var k := FirstOfPoster(rows, posterID);
      if k == -1 then Err(NotFound) else Ok(rows[k].listID)
  }

  class ListPosterRepository {
    /** The `listposter` table, in insertion order. */
    var rows: seq<ListPoster>
    /** The value the `id` serial hands out next. */
    var nextID: int

    constructor ()
      ensures rows == [] && nextID == 1
    {
      rows := [];
      nextID := 1;
    }

    /** The list's rows in ascending position; an empty list, like a
        query that found no rows, is NotFound. A scan failure, even
        pgx.ErrNoRows, is reported as it is. */
    method GetPosters(listID: int, queryFault: Option<Error>, rowsFault: Option<Error>, scanFault: Option<Error>)
      returns (r: Result<seq<ListPoster>>)
      ensures r == Posters(rows, listID, queryFault, rowsFault, scanFault)
    {
      if queryFault.Some? {
        if Is(queryFault.value, NoRows) {
          return Err(NotFound);
        }
        return Err(queryFault.value);
      }
      if rowsFault.Some? {
        return Err(rowsFault.value);
      }
      if scanFault.Some? {
        return Err(scanFault.value);
      }
      var found := ListRows(rows, listID);
      var ordered := SortByPosition(found);
      if |found| == 0 {
        return Err(NotFound);
      }
      r := Ok(ordered);
    }

    /** Count the list, then insert the poster at count + 1. */
    method AddPoster(listID: int, posterID: int, countFault: Option<Error>, insertFault: Option<Error>)
      returns (o: Outcome)
      modifies this
      ensures o == AppendOutcome(countFault, insertFault)
      ensures o.Success? ==> rows == Appended(old(rows), old(nextID), listID, posterID) && nextID == old(nextID) + 1
      ensures o.Failure? ==> rows == old(rows) && nextID == old(nextID)
    {
      if countFault.Some? {
        return Failure(countFault.value);
      }
      var count := Count(rows, listID);
      var position := count + 1;
      if insertFault.Some? {
        return Failure(insertFault.value);
      }
      rows := rows + [ListPoster(nextID, listID, posterID, position)];
      nextID := nextID + 1;
      o := Success;
    }

    /** Count the destination, then in one transaction delete the pair
        from the source and insert the poster at the counted size + 1. */
    method MovePoster(curListID: int, newListID: int, posterID: int, countFault: Option<Error>, tx: TxFaults)
      returns (o: Outcome)
      modifies this
      ensures o == MoveOutcome(countFault, tx)
      ensures o.Success? ==>
        rows == Relocated(old(rows), old(nextID), curListID, newListID, posterID) && nextID == old(nextID) + 1
      ensures o.Failure? ==> rows == old(rows) && nextID == old(nextID)
    {
      if countFault.Some? {
        return Failure(countFault.value);
      }
      var count := Count(rows, newListID);
      var position := count + 1;
      if tx.begin.Some? {
        return Failure(tx.begin.value);
      }
      var snapshot, snapshotID := rows, nextID;
      if tx.first.Some? {
        rows, nextID := snapshot, snapshotID;
        return Failure(RolledBack(tx.first.value, tx.rollback));
      }
      rows := Removed(rows, curListID, posterID);
      if tx.second.Some? {
        rows, nextID := snapshot, snapshotID;
        return Failure(RolledBack(tx.second.value, tx.rollback));
      }
      rows := rows + [ListPoster(nextID, newListID, posterID, position)];
      nextID := nextID + 1;
      if tx.commit.Some? {
        rows, nextID := snapshot, snapshotID;
        return Failure(tx.commit.value);
      }
      o := Success;
    }

    /** Read the current position, choose the range, then in one
        transaction shift the range and set the poster's new position.
        The new position is not checked against the list's size. */
    method ChangePosterPosition(listID: int, posterID: int, newPosition: int, readFault: Option<Error>, tx: TxFaults)
      returns (o: Outcome)
      modifies this
      ensures o == RepositionOutcome(old(rows), listID, posterID, readFault, tx)
      ensures o.Success? ==>
        rows == Repositioned(old(rows), listID, posterID, PairPosition(old(rows), listID, posterID), newPosition)
      ensures o.Failure? ==> rows == old(rows)
      ensures nextID == old(nextID)
    {
      var read := ReadPosition(rows, listID, posterID, readFault);
      if read.Err? {
        return Failure(read.error);
      }
      var curPosition := read.value;
      if curPosition == 0 {
        return Failure(NotFound);
      }
      var plan := ShiftPlan(curPosition, newPosition);
      if tx.begin.Some? {
        return Failure(tx.begin.value);
      }
      var snapshot := rows;
      if tx.first.Some? {
        rows := snapshot;
        return Failure(RolledBack(tx.first.value, tx.rollback));
      }
      rows := Shifted(rows, listID, plan);
      if tx.second.Some? {
        rows := snapshot;
        return Failure(RolledBack(tx.second.value, tx.rollback));
      }
      rows := WithPosition(rows, listID, posterID, newPosition);
      if tx.commit.Some? {
        rows := snapshot;
        return Failure(tx.commit.value);
      }
      o := Success;
    }

    /** Check that the pair has a row, then delete it. Positions after it
        are not closed up. */
    method DeletePoster(listID: int, posterID: int, checkFault: Option<Error>, execFault: Option<Error>)
      returns (o: Outcome)
      modifies this
      ensures o == DeleteOutcome(old(rows), listID, posterID, checkFault, execFault)
      ensures o.Success? ==> rows == Removed(old(rows), listID, posterID)
      ensures o.Failure? ==> rows == old(rows)
      ensures nextID == old(nextID)
    {
      if checkFault.Some? {
        return Failure(checkFault.value);
      }
      var count := PairCount(rows, listID, posterID);
      if count == 0 {
        return Failure(NotFound);
      }
      if execFault.Some? {
        return Failure(execFault.value);
      }
      rows := Removed(rows, listID, posterID);
      o := Success;
    }

    /** The list holding the poster, or NotFound. */
    method GetListIDByPosterID(posterID: int, fault: Option<Error>) returns (r: Result<int>)
      ensures r == ListOfPoster(rows, posterID, fault)
    {
      r := ListOfPoster(rows, posterID, fault);
    }
  }
}
