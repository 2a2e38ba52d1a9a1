/** The `listposter` relation and the pure parts of the statements the
    repository runs on it: counting, selecting, the range UPDATE, the
    single-row UPDATE, DELETE, ORDER BY position, and the choice of the
    range to shift when a poster changes position. */
module ListPosterTable {

  /** One row `(id, list_id, poster_id, position)`. */
  datatype ListPoster = ListPoster(id: int, listID: int, posterID: int, position: int)

  predicate IsPair(r: ListPoster, listID: int, posterID: int)
  {
    r.listID == listID && r.posterID == posterID
  }

  // ---------------------------------------------------------------- selection

  /** `select ... where list_id = listID`, in table order. */
  function ListRows(rows: seq<ListPoster>, listID: int): (s: seq<ListPoster>)
    ensures |s| <= |rows|
  {
    if rows == [] then []
    else (if rows[0].listID == listID then [rows[0]] else []) + ListRows(rows[1..], listID)
  }

  /** A list selects no row exactly when no row of the table is in it. */
  lemma {:induction false} ListRowsEmpty(rows: seq<ListPoster>, listID: int)
    ensures ListRows(rows, listID) == [] <==> forall i :: 0 <= i < |rows| ==> rows[i].listID != listID
  {
    if rows != [] {
      ListRowsEmpty(rows[1..], listID);
      assert forall i :: 1 <= i < |rows| ==> rows[i] == rows[1..][i - 1];
    }
  }

  /** `select count(*) from listposter where list_id = listID`. */
  function Count(rows: seq<ListPoster>, listID: int): (n: nat)
    ensures n <= |rows|
    ensures n == 0 <==> forall i :: 0 <= i < |rows| ==> rows[i].listID != listID
  {
    ListRowsEmpty(rows, listID);
    |ListRows(rows, listID)|
  }

  /** `select count(*) ... where list_id = listID and poster_id = posterID`. */
  function PairCount(rows: seq<ListPoster>, listID: int, posterID: int): (n: nat)
    ensures n == 0 <==> forall i :: 0 <= i < |rows| ==> !IsPair(rows[i], listID, posterID)
  {
    if rows == [] then 0
    else (if IsPair(rows[0], listID, posterID) then 1 else 0) + PairCount(rows[1..], listID, posterID)
  }

  /** The position of the first row of the pair. */
  function PairPosition(rows: seq<ListPoster>, listID: int, posterID: int): (p: int)
    requires PairCount(rows, listID, posterID) > 0
    ensures exists i :: 0 <= i < |rows| && IsPair(rows[i], listID, posterID) && rows[i].position == p
  {
    if IsPair(rows[0], listID, posterID) then rows[0].position
    else PairPosition(rows[1..], listID, posterID)
  }

  /** Index of the first row of `posterID` in any list, if there is one. */
  function FirstOfPoster(rows: seq<ListPoster>, posterID: int): (k: int)
    ensures -1 <= k < |rows|
    ensures k == -1 <==> forall i :: 0 <= i < |rows| ==> rows[i].posterID != posterID
    ensures k >= 0 ==> rows[k].posterID == posterID && forall i :: 0 <= i < k ==> rows[i].posterID != posterID
  {
    if rows == [] then -1
    else if rows[0].posterID == posterID then 0
    else var k := FirstOfPoster(rows[1..], posterID); if k == -1 then -1 else k + 1
  }

  // ------------------------------------------------------------ modification

  /** `delete from listposter where list_id = listID and poster_id = posterID`:
      every row of the pair goes; the rest keep their order and positions. */
  function Removed(rows: seq<ListPoster>, listID: int, posterID: int): (s: seq<ListPoster>)
    ensures |s| == |rows| - PairCount(rows, listID, posterID)
  {
    if rows == [] then []
    else (if IsPair(rows[0], listID, posterID) then [] else [rows[0]]) + Removed(rows[1..], listID, posterID)
  }

  /** The shift instruction of a position change: rows of the list whose
      position lies in `[start, end]` move by `delta`. */
  datatype Shift = Shift(start: int, end: int, delta: int)

  /** SQL's `p between start and end`. */
  predicate InShift(s: Shift, p: int)
  {
    s.start <= p <= s.end
  }

  /** The range choice of ChangePosterPosition: moving down the list
      (`cur < target`) pulls `(cur, target]` up by one; moving up pushes
      `[target, cur)` down by one; staying put gives an empty range. */
  function ShiftPlan(cur: int, target: int): (s: Shift)
    ensures s.delta == -1 || s.delta == 1
    ensures !InShift(s, cur)
    ensures cur == target ==> s.end < s.start
    ensures forall p :: InShift(s, p) <==> (cur < p <= target || target <= p < cur)
    ensures cur < target ==> s.delta == -1
    ensures cur > target ==> s.delta == 1
  {
    if cur > target then Shift(target, cur - 1, 1) else Shift(cur + 1, target, -1)
  }

  /** One row under the range UPDATE. */
  function Bump(r: ListPoster, listID: int, s: Shift): ListPoster
  {
    if r.listID == listID && InShift(s, r.position) then r.(position := r.position + s.delta) else r
  }

  /** `update listposter set position = position + delta
      where list_id = listID and position between start and end`. */
  function Shifted(rows: seq<ListPoster>, listID: int, s: Shift): (out: seq<ListPoster>)
    ensures |out| == |rows|
    ensures forall i :: 0 <= i < |rows| ==> out[i] == Bump(rows[i], listID, s)
  {
    if rows == [] then [] else [Bump(rows[0], listID, s)] + Shifted(rows[1..], listID, s)
  }

  /** One row under the single-row UPDATE. */
  function Place(r: ListPoster, listID: int, posterID: int, target: int): ListPoster
  {
    if IsPair(r, listID, posterID) then r.(position := target) else r
  }

  /** `update listposter set position = target where list_id = listID and poster_id = posterID`. */
  function WithPosition(rows: seq<ListPoster>, listID: int, posterID: int, target: int): (out: seq<ListPoster>)
    ensures |out| == |rows|
    ensures forall i :: 0 <= i < |rows| ==> out[i] == Place(rows[i], listID, posterID, target)
  {
    if rows == [] then [] else [Place(rows[0], listID, posterID, target)] + WithPosition(rows[1..], listID, posterID, target)
  }

  /** `insert into listposter(list_id, poster_id, position)` at the end
      of the list: the new row gets the next serial id and position
      `count(listID) + 1`. */
  function Appended(rows: seq<ListPoster>, id: int, listID: int, posterID: int): (out: seq<ListPoster>)
    ensures |out| == |rows| + 1 && out[..|rows|] == rows
    ensures out[|rows|] == ListPoster(id, listID, posterID, Count(rows, listID) + 1)
  {
    rows + [ListPoster(id, listID, posterID, Count(rows, listID) + 1)]
  }

  /** The table after the two statements of a successful move: the pair's
      rows leave `from`, and the poster is inserted into `to` at the count
      of `to` taken before the delete, plus one. */
  function Relocated(rows: seq<ListPoster>, id: int, from: int, to: int, posterID: int): (out: seq<ListPoster>)
    ensures |out| == |Removed(rows, from, posterID)| + 1
    ensures out[..|out| - 1] == Removed(rows, from, posterID)
    ensures out[|out| - 1] == ListPoster(id, to, posterID, Count(rows, to) + 1)
  {
    Removed(rows, from, posterID) + [ListPoster(id, to, posterID, Count(rows, to) + 1)]
  }

  /** The table after the two statements of a successful position change. */
  function Repositioned(rows: seq<ListPoster>, listID: int, posterID: int, cur: int, target: int): (out: seq<ListPoster>)
    ensures |out| == |rows|
    ensures forall i :: 0 <= i < |rows| ==>
      out[i].id == rows[i].id && out[i].listID == rows[i].listID && out[i].posterID == rows[i].posterID
    ensures forall i :: 0 <= i < |rows| && rows[i].listID != listID ==> out[i] == rows[i]
  {
    WithPosition(Shifted(rows, listID, ShiftPlan(cur, target)), listID, posterID, target)
  }

  /** The position a row of the list ends at when the poster at `cur`
      goes to `target`. */
  function Reindexed(p: int, cur: int, target: int): int
  {
    if p == cur then target
    else if cur < p <= target then p - 1
    else if target <= p < cur then p + 1
    else p
  }

  // --------------------------------------------------------------- ordering

  predicate SortedByPosition(s: seq<ListPoster>)
  {
    forall i, j :: 0 <= i < j < |s| ==> s[i].position <= s[j].position
  }

  function Insert(x: ListPoster, s: seq<ListPoster>): (out: seq<ListPoster>)
    ensures |out| == |s| + 1
  {
    if s == [] || x.position <= s[0].position then [x] + s
    else [s[0]] + Insert(x, s[1..])
  }

  /** `order by position`: as many rows as it is given (that they are the
      same rows, in ascending position, is ListPosterLaws.SortByPositionSorts). */
  function SortByPosition(s: seq<ListPoster>): (out: seq<ListPoster>)
    ensures |out| == |s|
  {
    if s == [] then [] else Insert(s[0], SortByPosition(s[1..]))
  }

  // ------------------------------------------------------------ the invariant

  /** The positions in `s` are pairwise distinct and lie in `[1, |s|]`:
      they are exactly `1..|s|` (see ListPosterLaws.DenseIsOneToN). */
  ghost predicate DenseSeq(s: seq<ListPoster>)
  {
    && (forall i :: 0 <= i < |s| ==> 1 <= s[i].position <= |s|)
    && (forall i, j :: 0 <= i < j < |s| ==> s[i].position != s[j].position)
  }

  /** The invariant appends maintain: a list's members sit at positions `1..N`. */
  ghost predicate Dense(rows: seq<ListPoster>, listID: int)
  {
    DenseSeq(ListRows(rows, listID))
  }
}
