/** Properties of the statements the repository runs on the `listposter`
    relation: what each one does to a list's rows, which of them keep the
    list's positions exactly `1..N`, and where the code leaves gaps. */
module ListPosterLaws {
  import opened ListPosterTable

  // -------------------------------------------------- selection commutes

  /** The list's rows are the table's rows of that list. */
  lemma {:induction false} ListRowsMembers(rows: seq<ListPoster>, listID: int)
    ensures forall x :: x in ListRows(rows, listID) <==> x in rows && x.listID == listID
    ensures multiset(ListRows(rows, listID)) <= multiset(rows)
  {
    if rows != [] {
      ListRowsMembers(rows[1..], listID);
      assert rows == [rows[0]] + rows[1..];
    }
  }

  /** DELETE keeps exactly the rows that are not the pair's. */
  lemma {:induction false} RemovedMembers(rows: seq<ListPoster>, listID: int, posterID: int)
    ensures forall x :: x in Removed(rows, listID, posterID) <==> x in rows && !IsPair(x, listID, posterID)
  {
    if rows != [] {
      RemovedMembers(rows[1..], listID, posterID);
      assert rows == [rows[0]] + rows[1..];
    }
  }

  lemma {:induction false} ListRowsAppend(rows: seq<ListPoster>, x: ListPoster, listID: int)
    ensures ListRows(rows + [x], listID) == ListRows(rows, listID) + (if x.listID == listID then [x] else [])
  {
    if rows == [] {
      assert rows + [x] == [x] + [];
    } else {
      assert (rows + [x])[0] == rows[0];
      assert (rows + [x])[1..] == rows[1..] + [x];
      ListRowsAppend(rows[1..], x, listID);
    }
  }

  lemma {:induction false} ListRowsRemoved(rows: seq<ListPoster>, from: int, listID: int, posterID: int)
    ensures ListRows(Removed(rows, from, posterID), listID) ==
      if listID == from then Removed(ListRows(rows, listID), from, posterID) else ListRows(rows, listID)
  {
    if rows != [] {
      ListRowsRemoved(rows[1..], from, listID, posterID);
      var head := if IsPair(rows[0], from, posterID) then [] else [rows[0]];
      ListRowsConcat(head, Removed(rows[1..], from, posterID), listID);
      if listID == from {
        var lhead := if rows[0].listID == listID then [rows[0]] else [];
        RemovedConcat(lhead, ListRows(rows[1..], listID), from, posterID);
      }
    }
  }

  lemma {:induction false} ListRowsConcat(a: seq<ListPoster>, b: seq<ListPoster>, listID: int)
    ensures ListRows(a + b, listID) == ListRows(a, listID) + ListRows(b, listID)
  {
    if a == [] {
      assert a + b == b;
    } else {
      var h := if a[0].listID == listID then [a[0]] else [];
      assert (a + b)[0] == a[0];
      assert (a + b)[1..] == a[1..] + b;
      calc {
        ListRows(a + b, listID);
        h + ListRows(a[1..] + b, listID);
        { ListRowsConcat(a[1..], b, listID); }
        h + (ListRows(a[1..], listID) + ListRows(b, listID));
      }
    }
  }

  lemma {:induction false} RemovedConcat(a: seq<ListPoster>, b: seq<ListPoster>, listID: int, posterID: int)
    ensures Removed(a + b, listID, posterID) == Removed(a, listID, posterID) + Removed(b, listID, posterID)
  {
    if a == [] {
      assert a + b == b;
    } else {
      assert (a + b)[0] == a[0];
      assert (a + b)[1..] == a[1..] + b;
      RemovedConcat(a[1..], b, listID, posterID);
    }
  }

  lemma {:induction false} ListRowsShifted(rows: seq<ListPoster>, listID: int, other: int, s: Shift)
    ensures ListRows(Shifted(rows, listID, s), other) ==
      if other == listID then Shifted(ListRows(rows, listID), listID, s) else ListRows(rows, other)
  {
    if rows != [] {
      assert Shifted(rows, listID, s)[1..] == Shifted(rows[1..], listID, s);
      ListRowsShifted(rows[1..], listID, other, s);
    }
  }

  lemma {:induction false} ListRowsWithPosition(rows: seq<ListPoster>, listID: int, other: int, posterID: int, target: int)
    ensures ListRows(WithPosition(rows, listID, posterID, target), other) ==
      if other == listID then WithPosition(ListRows(rows, listID), listID, posterID, target) else ListRows(rows, other)
  {
    if rows != [] {
      assert WithPosition(rows, listID, posterID, target)[1..] == WithPosition(rows[1..], listID, posterID, target);
      ListRowsWithPosition(rows[1..], listID, other, posterID, target);
    }
  }

  lemma {:induction false} PairCountListRows(rows: seq<ListPoster>, listID: int, posterID: int)
    ensures PairCount(ListRows(rows, listID), listID, posterID) == PairCount(rows, listID, posterID)
  {
    if rows != [] {
      PairCountListRows(rows[1..], listID, posterID);
      PairCountConcat(if rows[0].listID == listID then [rows[0]] else [], ListRows(rows[1..], listID), listID, posterID);
    }
  }

  lemma {:induction false} PairCountConcat(a: seq<ListPoster>, b: seq<ListPoster>, listID: int, posterID: int)
    ensures PairCount(a + b, listID, posterID) == PairCount(a, listID, posterID) + PairCount(b, listID, posterID)
  {
    if a == [] {
      assert a + b == b;
    } else {
      assert (a + b)[0] == a[0];
      assert (a + b)[1..] == a[1..] + b;
      PairCountConcat(a[1..], b, listID, posterID);
    }
  }

  lemma {:induction false} PairPositionListRows(rows: seq<ListPoster>, listID: int, posterID: int)
    requires PairCount(rows, listID, posterID) > 0
    ensures PairCount(ListRows(rows, listID), listID, posterID) > 0
    ensures PairPosition(ListRows(rows, listID), listID, posterID) == PairPosition(rows, listID, posterID)
  {
    PairCountListRows(rows, listID, posterID);
    if !IsPair(rows[0], listID, posterID) {
      assert PairCount(rows[1..], listID, posterID) > 0;
      PairPositionListRows(rows[1..], listID, posterID);
      if rows[0].listID == listID {
        assert ListRows(rows, listID) == [rows[0]] + ListRows(rows[1..], listID);
        assert ListRows(rows, listID)[1..] == ListRows(rows[1..], listID);
      } else {
        assert ListRows(rows, listID) == ListRows(rows[1..], listID);
      }
    }
  }

  /** The index of the first row of the pair. */
  function PairIndex(s: seq<ListPoster>, listID: int, posterID: int): (k: nat)
    requires PairCount(s, listID, posterID) > 0
    ensures k < |s| && IsPair(s[k], listID, posterID)
    ensures s[k].position == PairPosition(s, listID, posterID)
    ensures forall j :: 0 <= j < k ==> !IsPair(s[j], listID, posterID)
  {
    if IsPair(s[0], listID, posterID) then 0 else 1 + PairIndex(s[1..], listID, posterID)
  }

  /** A pair counted once has no other row. */
  lemma {:induction false} PairIndexUnique(s: seq<ListPoster>, listID: int, posterID: int)
    requires PairCount(s, listID, posterID) == 1
    ensures forall j :: 0 <= j < |s| && j != PairIndex(s, listID, posterID) ==> !IsPair(s[j], listID, posterID)
  {
    if !IsPair(s[0], listID, posterID) {
      PairIndexUnique(s[1..], listID, posterID);
      forall j | 1 <= j < |s| ensures s[j] == s[1..][j - 1] { }
    }
  }

  // ---------------------------------------------------------- the shift rule

  /** Row by row, a successful ChangePosterPosition keeps every row of
      other lists, puts the pair at `target`, pulls `(cur, target]` up by
      one, pushes `[target, cur)` down by one and leaves the rest. */
  lemma ShiftRule(rows: seq<ListPoster>, listID: int, posterID: int, cur: int, target: int, i: int)
    requires 0 <= i < |rows|
    requires IsPair(rows[i], listID, posterID) ==> rows[i].position == cur
    ensures |Repositioned(rows, listID, posterID, cur, target)| == |rows|
    ensures Repositioned(rows, listID, posterID, cur, target)[i] ==
      if rows[i].listID != listID then rows[i]
      else if rows[i].posterID == posterID then rows[i].(position := target)
      else rows[i].(position := if cur < rows[i].position <= target then rows[i].position - 1
                                else if target <= rows[i].position < cur then rows[i].position + 1
                                else rows[i].position)
  {
  }

  /** Reindexing maps `1..N` one-to-one onto `1..N` and keeps the order of
      everything but the moved position. */
  lemma ReindexedPermutes(p: int, q: int, cur: int, target: int, n: int)
    requires 1 <= cur <= n && 1 <= target <= n && 1 <= p <= n && 1 <= q <= n
    ensures 1 <= Reindexed(p, cur, target) <= n
    ensures p != q ==> Reindexed(p, cur, target) != Reindexed(q, cur, target)
    ensures p != cur && q != cur ==> (p < q <==> Reindexed(p, cur, target) < Reindexed(q, cur, target))
  {
  }

  /** ChangePosterPosition on the rows of one list. */
  lemma {:induction false} RepositionSeq(s: seq<ListPoster>, listID: int, posterID: int, k: int, target: int)
    requires forall i :: 0 <= i < |s| ==> s[i].listID == listID
    requires DenseSeq(s)
    requires 0 <= k < |s| && IsPair(s[k], listID, posterID)
    requires forall j :: 0 <= j < |s| && j != k ==> !IsPair(s[j], listID, posterID)
    requires 1 <= target <= |s|
    ensures var t := Repositioned(s, listID, posterID, s[k].position, target);
      && |t| == |s|
      && (forall i :: 0 <= i < |s| ==> t[i] == s[i].(position := Reindexed(s[i].position, s[k].position, target)))
      && DenseSeq(t)
      && t[k].position == target
  {
    var cur := s[k].position;
    var t := Repositioned(s, listID, posterID, cur, target);
    forall i | 0 <= i < |s|
      ensures t[i] == s[i].(position := Reindexed(s[i].position, cur, target))
      ensures 1 <= t[i].position <= |t|
    {
      RepositionSeqAt(s, listID, posterID, k, target, i);
      ReindexedPermutes(s[i].position, s[i].position, cur, target, |s|);
    }
    forall i, j | 0 <= i < j < |s| ensures t[i].position != t[j].position {
      ReindexedPermutes(s[i].position, s[j].position, cur, target, |s|);
    }
  }

  lemma RepositionSeqAt(s: seq<ListPoster>, listID: int, posterID: int, k: int, target: int, i: int)
    requires forall i :: 0 <= i < |s| ==> s[i].listID == listID
    requires DenseSeq(s)
    requires 0 <= k < |s| && IsPair(s[k], listID, posterID)
    requires forall j :: 0 <= j < |s| && j != k ==> !IsPair(s[j], listID, posterID)
    requires 0 <= i < |s|
    ensures |Repositioned(s, listID, posterID, s[k].position, target)| == |s|
    ensures Repositioned(s, listID, posterID, s[k].position, target)[i] ==
      s[i].(position := Reindexed(s[i].position, s[k].position, target))
  {
    if i < k { assert s[i].position != s[k].position; }
    if i > k { assert s[k].position != s[i].position; }
  }

  /** The position change touches only the list's own rows: every other
      list's rows are as they were. */
  lemma RepositionListRows(rows: seq<ListPoster>, listID: int, posterID: int, cur: int, target: int, other: int)
    ensures ListRows(Repositioned(rows, listID, posterID, cur, target), other) ==
      if other == listID then Repositioned(ListRows(rows, listID), listID, posterID, cur, target) else ListRows(rows, other)
  {
    var plan := ShiftPlan(cur, target);
    ListRowsShifted(rows, listID, other, plan);
    ListRowsWithPosition(Shifted(rows, listID, plan), listID, other, posterID, target);
    if other == listID {
      ListRowsShifted(rows, listID, listID, plan);
    }
  }

  /** What the position change does to the rows of a list in which the
      poster has exactly one row: the list's rows, in table order, are the
      old ones with reindexed positions. */
  lemma {:induction false} RepositionOfList(rows: seq<ListPoster>, listID: int, posterID: int, target: int)
    requires Dense(rows, listID)
    requires PairCount(rows, listID, posterID) == 1
    requires 1 <= target <= Count(rows, listID)
    ensures var s := ListRows(rows, listID);
      var cur := PairPosition(rows, listID, posterID);
      && PairCount(s, listID, posterID) == 1
      && s[PairIndex(s, listID, posterID)].position == cur
      && (forall i :: 0 <= i < |s| ==> s[i].listID == listID)
      && (forall j :: 0 <= j < |s| && j != PairIndex(s, listID, posterID) ==> !IsPair(s[j], listID, posterID))
      && ListRows(Repositioned(rows, listID, posterID, cur, target), listID) == Repositioned(s, listID, posterID, cur, target)
  {
    var s := ListRows(rows, listID);
    PairCountListRows(rows, listID, posterID);
    PairPositionListRows(rows, listID, posterID);
    PairIndexUnique(s, listID, posterID);
    RepositionListRows(rows, listID, posterID, PairPosition(rows, listID, posterID), target, listID);
    ListRowsMembers(rows, listID);
    forall i | 0 <= i < |s| ensures s[i].listID == listID { assert s[i] in s; }
  }

  /** ChangePosterPosition keeps a dense list dense when the poster has one
      row there and the target is within `1..N`: the list keeps its
      members in their table rows, and the poster ends at the target. */
  lemma {:induction false} RepositionKeepsDense(rows: seq<ListPoster>, listID: int, posterID: int, target: int)
    requires Dense(rows, listID)
    requires PairCount(rows, listID, posterID) == 1
    requires 1 <= target <= Count(rows, listID)
    ensures var after := Repositioned(rows, listID, posterID, PairPosition(rows, listID, posterID), target);
      var s := ListRows(rows, listID);
      var t := ListRows(after, listID);
      && Dense(after, listID)
      && |t| == |s|
      && (forall i :: 0 <= i < |s| ==> t[i].id == s[i].id && t[i].posterID == s[i].posterID)
      && (forall i :: 0 <= i < |s| && s[i].posterID == posterID ==> t[i].position == target)
  {
    var s := ListRows(rows, listID);
    RepositionOfList(rows, listID, posterID, target);
    var k := PairIndex(s, listID, posterID);
    RepositionSeq(s, listID, posterID, k, target);
    forall i | 0 <= i < |s| && s[i].posterID == posterID
      ensures i == k
    {
      assert IsPair(s[i], listID, posterID);
    }
  }

  /** ChangePosterPosition keeps the relative order of the list's other
      members. */
  lemma {:induction false} RepositionKeepsOrder(rows: seq<ListPoster>, listID: int, posterID: int, target: int)
    requires Dense(rows, listID)
    requires PairCount(rows, listID, posterID) == 1
    requires 1 <= target <= Count(rows, listID)
    ensures var after := Repositioned(rows, listID, posterID, PairPosition(rows, listID, posterID), target);
      var s := ListRows(rows, listID);
      var t := ListRows(after, listID);
      && |t| == |s|
      && (forall i, j :: 0 <= i < |s| && 0 <= j < |s| && s[i].posterID != posterID && s[j].posterID != posterID ==>
            (s[i].position < s[j].position <==> t[i].position < t[j].position))
  {
    var s := ListRows(rows, listID);
    RepositionOfList(rows, listID, posterID, target);
    RepositionSeqKeepsOrder(s, listID, posterID, PairIndex(s, listID, posterID), target);
  }

  /** The same on the rows of one list. */
  lemma RepositionSeqKeepsOrder(s: seq<ListPoster>, listID: int, posterID: int, k: int, target: int)
    requires forall i :: 0 <= i < |s| ==> s[i].listID == listID
    requires DenseSeq(s)
    requires 0 <= k < |s| && IsPair(s[k], listID, posterID)
    requires forall j :: 0 <= j < |s| && j != k ==> !IsPair(s[j], listID, posterID)
    requires 1 <= target <= |s|
    ensures var t := Repositioned(s, listID, posterID, s[k].position, target);
      && |t| == |s|
      && (forall i, j :: 0 <= i < |s| && 0 <= j < |s| && s[i].posterID != posterID && s[j].posterID != posterID ==>
            (s[i].position < s[j].position <==> t[i].position < t[j].position))
  {
    RepositionSeq(s, listID, posterID, k, target);
    forall i, j | 0 <= i < |s| && 0 <= j < |s| && s[i].posterID != posterID && s[j].posterID != posterID
      ensures s[i].position < s[j].position <==>
        Reindexed(s[i].position, s[k].position, target) < Reindexed(s[j].position, s[k].position, target)
    {
      OthersReindexed(s, k, i, j, target);
    }
  }

  lemma OthersReindexed(s: seq<ListPoster>, k: int, i: int, j: int, target: int)
    requires DenseSeq(s) && 0 <= k < |s| && 0 <= i < |s| && 0 <= j < |s| && i != k && j != k
    requires 1 <= target <= |s|
    ensures s[i].position < s[j].position <==>
      Reindexed(s[i].position, s[k].position, target) < Reindexed(s[j].position, s[k].position, target)
  {
    assert s[i].position != s[k].position by { if i < k { assert s[i].position != s[k].position; } else { assert s[k].position != s[i].position; } }
    assert s[j].position != s[k].position by { if j < k { assert s[j].position != s[k].position; } else { assert s[k].position != s[j].position; } }
    ReindexedPermutes(s[i].position, s[j].position, s[k].position, target, |s|);
  }

  // ---------------------------------------------------------- append, move

  /** An append adds one member at the end of its list, keeps every list's
      rows in place, and keeps a dense list dense. */
  lemma AppendKeepsDense(rows: seq<ListPoster>, id: int, listID: int, posterID: int, other: int)
    requires Dense(rows, other)
    ensures ListRows(Appended(rows, id, listID, posterID), other) ==
      ListRows(rows, other) + (if other == listID then [ListPoster(id, listID, posterID, Count(rows, listID) + 1)] else [])
    ensures Dense(Appended(rows, id, listID, posterID), other)
  {
    ListRowsAppend(rows, ListPoster(id, listID, posterID, Count(rows, listID) + 1), other);
  }

  /** A move between two different lists: the destination gains the
      poster at its old size plus one and stays dense; the source loses the
      pair's rows and its remaining rows keep their positions. */
  lemma MoveKeepsDestinationDense(rows: seq<ListPoster>, id: int, from: int, to: int, posterID: int)
    requires from != to
    requires Dense(rows, to)
    ensures ListRows(Relocated(rows, id, from, to, posterID), to) ==
      ListRows(rows, to) + [ListPoster(id, to, posterID, Count(rows, to) + 1)]
    ensures Dense(Relocated(rows, id, from, to, posterID), to)
    ensures ListRows(Relocated(rows, id, from, to, posterID), from) == Removed(ListRows(rows, from), from, posterID)
  {
    var x := ListPoster(id, to, posterID, Count(rows, to) + 1);
    assert Relocated(rows, id, from, to, posterID) == Removed(rows, from, posterID) + [x];
    ListRowsAppend(Removed(rows, from, posterID), x, to);
    ListRowsAppend(Removed(rows, from, posterID), x, from);
    ListRowsRemoved(rows, from, to, posterID);
    ListRowsRemoved(rows, from, from, posterID);
  }

  /** A move into the list the poster is already in counts the poster
      before deleting it, so the poster comes back at `N + 1` of a list
      that still has N members: the list is no longer dense. */
  lemma {:induction false} SameListMoveOvershoots(rows: seq<ListPoster>, id: int, listID: int, posterID: int)
    requires PairCount(rows, listID, posterID) > 0
    ensures var after := Relocated(rows, id, listID, listID, posterID);
      && ListRows(after, listID) ==
           Removed(ListRows(rows, listID), listID, posterID) + [ListPoster(id, listID, posterID, Count(rows, listID) + 1)]
      && Count(after, listID) <= Count(rows, listID)
      && !Dense(after, listID)
  {
    var x := ListPoster(id, listID, posterID, Count(rows, listID) + 1);
    ListRowsAppend(Removed(rows, listID, posterID), x, listID);
    ListRowsRemoved(rows, listID, listID, posterID);
    PairCountListRows(rows, listID, posterID);
    var s := ListRows(rows, listID);
    var r := Removed(s, listID, posterID);
    assert |r| == |s| - PairCount(s, listID, posterID);
    assert ListRows(Relocated(rows, id, listID, listID, posterID), listID)[|r|] == x;
  }

  /** The gap a move leaves behind: list 1 = [P1@1, P2@2], P1 moved to list
      2 leaves list 1 = [P2@2], no longer `1..N`. */
  lemma MoveLeavesSourceGap()
    ensures var rows := [ListPoster(1, 1, 1, 1), ListPoster(2, 1, 2, 2)];
      var after := Relocated(rows, 3, 1, 2, 1);
      && Dense(rows, 1)
      && ListRows(after, 1) == [ListPoster(2, 1, 2, 2)]
      && ListRows(after, 2) == [ListPoster(3, 2, 1, 1)]
      && !Dense(after, 1)
  {
    var rows := [ListPoster(1, 1, 1, 1), ListPoster(2, 1, 2, 2)];
    assert ListRows(rows, 1) == rows;
    assert Removed(rows, 1, 1) == [ListPoster(2, 1, 2, 2)];
    var after := Relocated(rows, 3, 1, 2, 1);
    assert after == [ListPoster(2, 1, 2, 2), ListPoster(3, 2, 1, 1)];
    assert ListRows(after, 1) == [ListPoster(2, 1, 2, 2)];
  }

  // ----------------------------------------------------------------- delete

  /** DeletePoster removes the pair's rows and nothing else; the other rows
      keep their positions, and the list shrinks by the pair's count. */
  lemma DeleteShrinksList(rows: seq<ListPoster>, listID: int, posterID: int, other: int)
    ensures Count(Removed(rows, listID, posterID), other) ==
      Count(rows, other) - (if other == listID then PairCount(rows, listID, posterID) else 0)
    ensures other != listID ==> ListRows(Removed(rows, listID, posterID), other) == ListRows(rows, other)
  {
    ListRowsRemoved(rows, listID, other, posterID);
    if other == listID {
      PairCountListRows(rows, listID, posterID);
    }
  }

  /** The gap a delete leaves: [P1@1, P2@2] without P1 is [P2@2]. */
  lemma DeleteLeavesGap()
    ensures var rows := [ListPoster(1, 1, 1, 1), ListPoster(2, 1, 2, 2)];
      && Dense(rows, 1)
      && Removed(rows, 1, 1) == [ListPoster(2, 1, 2, 2)]
      && !Dense(Removed(rows, 1, 1), 1)
  {
    var rows := [ListPoster(1, 1, 1, 1), ListPoster(2, 1, 2, 2)];
    assert ListRows(rows, 1) == rows;
    assert Removed(rows, 1, 1) == [ListPoster(2, 1, 2, 2)];
    assert ListRows([ListPoster(2, 1, 2, 2)], 1) == [ListPoster(2, 1, 2, 2)];
  }

  // -------------------------------------------------------- "exactly 1..N"

  function Positions(s: seq<ListPoster>): set<int>
  {
    set i | 0 <= i < |s| :: s[i].position
  }

  function OneTo(n: nat): set<int>
  {
    if n == 0 then {} else OneTo(n - 1) + {n}
  }

  lemma {:induction false} OneToMembers(n: nat)
    ensures forall p :: p in OneTo(n) <==> 1 <= p <= n
  {
    if n > 0 {
      OneToMembers(n - 1);
    }
  }

  lemma {:induction false} OneToSize(n: nat)
    ensures |OneTo(n)| == n
  {
    if n > 0 {
      OneToSize(n - 1);
      OneToMembers(n - 1);
      assert n !in OneTo(n - 1);
    }
  }

  lemma {:induction false} DistinctPositionsSize(s: seq<ListPoster>)
    requires forall i, j :: 0 <= i < j < |s| ==> s[i].position != s[j].position
    ensures |Positions(s)| == |s|
  {
    if s != [] {
      DistinctPositionsSize(s[1..]);
      assert Positions(s) == {s[0].position} + Positions(s[1..]) by {
        forall p | p in Positions(s) ensures p in {s[0].position} + Positions(s[1..]) {
          var i :| 0 <= i < |s| && s[i].position == p;
          if i > 0 { assert s[1..][i - 1] == s[i]; }
        }
      }
      assert s[0].position !in Positions(s[1..]);
    }
  }

  /** A dense list's positions are exactly `1..N`. */
  lemma DenseIsOneToN(s: seq<ListPoster>)
    requires DenseSeq(s)
    ensures Positions(s) == OneTo(|s|)
  {
    DistinctPositionsSize(s);
    OneToSize(|s|);
    OneToMembers(|s|);
    assert Positions(s) <= OneTo(|s|);
    SubsetOfSameSize(Positions(s), OneTo(|s|));
  }

  lemma SubsetOfSameSize(a: set<int>, b: set<int>)
    requires a <= b && |a| == |b|
    ensures a == b
  {
    assert |b - a| == |b| - |a|;
  }

  // --------------------------------------------------------------- ordering

  lemma {:induction false} InsertPermutes(x: ListPoster, s: seq<ListPoster>)
    ensures multiset(Insert(x, s)) == multiset(s) + multiset{x}
  {
    if s != [] && x.position > s[0].position {
      InsertPermutes(x, s[1..]);
      assert s == [s[0]] + s[1..];
    }
  }

  lemma {:induction false} InsertSorted(x: ListPoster, s: seq<ListPoster>)
    requires SortedByPosition(s)
    ensures SortedByPosition(Insert(x, s))
  {
    if s != [] && x.position > s[0].position {
      var t := Insert(x, s[1..]);
      InsertSorted(x, s[1..]);
      InsertPermutes(x, s[1..]);
      forall j | 0 <= j < |t| ensures s[0].position <= t[j].position {
        assert t[j] in multiset(t);
        if t[j] != x {
          assert t[j] in multiset(s[1..]);
          var m :| 0 <= m < |s[1..]| && s[1..][m] == t[j];
          assert s[m + 1] == t[j];
        }
      }
      assert Insert(x, s) == [s[0]] + t;
    }
  }

  /** `order by position` returns the same rows, in ascending position. */
  lemma {:induction false} SortByPositionSorts(s: seq<ListPoster>)
    ensures SortedByPosition(SortByPosition(s))
    ensures multiset(SortByPosition(s)) == multiset(s)
  {
    if s != [] {
      SortByPositionSorts(s[1..]);
      InsertSorted(s[0], SortByPosition(s[1..]));
      InsertPermutes(s[0], SortByPosition(s[1..]));
      assert s == [s[0]] + s[1..];
    }
  }
}
