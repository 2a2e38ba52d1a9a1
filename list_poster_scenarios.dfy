/** The repository's behaviour on the concrete sequences its integration
    test runs: a poster moved away from a list and deleted from another,
    then three posters reordered within one list. */
module ListPosterScenarios {
  import opened Errors
  import opened ListPosterTable
  import opened ListPosterRepository

  const List1 := 1
  const List2 := 2
  const Poster1 := 11
  const Poster2 := 12
  const Poster3 := 13

  /** A poster appended to list 1 and moved to list 2 leaves list 1 empty
      and sits first in list 2; deleting it there empties list 2. */
  method MoveThenDeleteScenario() returns (moved: Outcome, gotOld: Result<seq<ListPoster>>,
                                           gotNew: Result<seq<ListPoster>>, deleted: Outcome,
                                           gotAfter: Result<seq<ListPoster>>)
    ensures moved == Success
    ensures gotOld == Err(NotFound)
    ensures gotNew == Ok([ListPoster(2, List2, Poster1, 1)])
    ensures deleted == Success
    ensures gotAfter == Err(NotFound)
  {
    var repo := new ListPosterRepository();
    var added := repo.AddPoster(List1, Poster1, None, None);
    var row := ListPoster(1, List1, Poster1, 1);
    assert repo.rows == [row];
    assert [row][1..] == [];
    moved := repo.MovePoster(List1, List2, Poster1, None, NoTxFaults);
    var moved1 := ListPoster(2, List2, Poster1, 1);
    assert repo.rows == [moved1];
    assert [moved1][1..] == [];
    assert ListRows(repo.rows, List2) == [moved1];
    assert SortByPosition([moved1]) == [moved1];
    gotOld := repo.GetPosters(List1, None, None, None);
    gotNew := repo.GetPosters(List2, None, None, None);
    deleted := repo.DeletePoster(List2, Poster1, None, None);
    gotAfter := repo.GetPosters(List2, None, None, None);
  }

  /** The three rows after the three appends, and after each of the two
      position changes. */
  const Inserted := [ListPoster(1, List1, Poster1, 1), ListPoster(2, List1, Poster2, 2), ListPoster(3, List1, Poster3, 3)]
  const LastFirst := [ListPoster(1, List1, Poster1, 2), ListPoster(2, List1, Poster2, 3), ListPoster(3, List1, Poster3, 1)]
  const FirstLast := [ListPoster(1, List1, Poster1, 3), ListPoster(2, List1, Poster2, 2), ListPoster(3, List1, Poster3, 1)]

  /** Three appends to an empty list number the posters 1, 2, 3. */
  lemma ThreeAppends()
    ensures Appended(Appended(Appended([], 1, List1, Poster1), 2, List1, Poster2), 3, List1, Poster3) == Inserted
  {
    var r1, r2 := ListPoster(1, List1, Poster1, 1), ListPoster(2, List1, Poster2, 2);
    assert [r1][1..] == [];
    assert [r1, r2][1..] == [r2];
    assert ListRows([r1, r2], List1) == [r1, r2];
  }

  /** A table of one list is that list, in table order. */
  lemma ListRowsOfThree(s: seq<ListPoster>)
    requires |s| == 3 && s[0].listID == List1 && s[1].listID == List1 && s[2].listID == List1
    ensures ListRows(s, List1) == s
  {
    assert [s[2]][1..] == [];
    assert ListRows([s[2]], List1) == [s[2]];
    assert [s[1], s[2]][1..] == [s[2]];
    assert ListRows([s[1], s[2]], List1) == [s[1], s[2]];
    assert s[1..] == [s[1], s[2]];
    assert s == [s[0]] + s[1..];
  }

  /** Ordering three rows inserts the first into the ordered other two. */
  lemma SortThree(a: ListPoster, b: ListPoster, c: ListPoster)
    ensures SortByPosition([a, b, c]) == Insert(a, Insert(b, [c]))
  {
    assert [a, b, c][1..] == [b, c];
    assert [b, c][1..] == [c];
    assert [c][1..] == [];
    assert SortByPosition([c]) == [c];
  }

  /** Counting and finding one poster among three rows of one list. */
  lemma PairOfThree(s: seq<ListPoster>, posterID: int, k: nat)
    requires |s| == 3 && k < 3
    requires forall i :: 0 <= i < 3 ==> (IsPair(s[i], List1, posterID) <==> i == k)
    ensures PairCount(s, List1, posterID) == 1
    ensures PairPosition(s, List1, posterID) == s[k].position
  {
    var t := s[1..];
    assert t[1..] == [s[2]];
    assert [s[2]][1..] == [];
    assert PairCount([s[2]], List1, posterID) == (if k == 2 then 1 else 0);
    assert PairCount(t, List1, posterID) == (if k == 0 then 0 else 1);
  }

  /** Poster 3 from position 3 to position 1 pushes posters 1 and 2 down. */
  lemma LastToFirst()
    ensures PairCount(Inserted, List1, Poster3) == 1
    ensures PairPosition(Inserted, List1, Poster3) == 3
    ensures Repositioned(Inserted, List1, Poster3, 3, 1) == LastFirst
  {
    PairOfThree(Inserted, Poster3, 2);
  }

  /** Poster 1, now at position 2, to position 3 pulls poster 2 up. */
  lemma SecondToLast()
    ensures PairCount(LastFirst, List1, Poster1) == 1
    ensures PairPosition(LastFirst, List1, Poster1) == 2
    ensures Repositioned(LastFirst, List1, Poster1, 2, 3) == FirstLast
  {
    PairOfThree(LastFirst, Poster1, 0);
  }

  /** The three tables, ordered by position. */
  lemma Orders()
    ensures SortByPosition(Inserted) == Inserted
    ensures SortByPosition(LastFirst) == [LastFirst[2], LastFirst[0], LastFirst[1]]
    ensures SortByPosition(FirstLast) == [FirstLast[2], FirstLast[1], FirstLast[0]]
  {
    SortThree(Inserted[0], Inserted[1], Inserted[2]);
    assert Inserted == [Inserted[0], Inserted[1], Inserted[2]];
    SortThree(LastFirst[0], LastFirst[1], LastFirst[2]);
    assert LastFirst == [LastFirst[0], LastFirst[1], LastFirst[2]];
    assert Insert(LastFirst[1], [LastFirst[2]]) == [LastFirst[2], LastFirst[1]];
    assert [LastFirst[2], LastFirst[1]][1..] == [LastFirst[1]];
    SortThree(FirstLast[0], FirstLast[1], FirstLast[2]);
    assert FirstLast == [FirstLast[0], FirstLast[1], FirstLast[2]];
    assert Insert(FirstLast[1], [FirstLast[2]]) == [FirstLast[2], FirstLast[1]];
    assert [FirstLast[2], FirstLast[1]][1..] == [FirstLast[1]];
    assert [FirstLast[1]][1..] == [];
    assert Insert(FirstLast[0], [FirstLast[1]]) == [FirstLast[1], FirstLast[0]];
  }

  /** Three posters appended in order sit at 1, 2 and 3; the last one
      moved to 1 gives the order 3, 1, 2; the (now second) first one moved
      to 3 gives the order 3, 2, 1. */
  method RepositionScenario() returns (inserted: Result<seq<ListPoster>>, first: Result<seq<ListPoster>>,
                                       second: Result<seq<ListPoster>>)
    ensures inserted == Ok([ListPoster(1, List1, Poster1, 1), ListPoster(2, List1, Poster2, 2), ListPoster(3, List1, Poster3, 3)])
    ensures first == Ok([ListPoster(3, List1, Poster3, 1), ListPoster(1, List1, Poster1, 2), ListPoster(2, List1, Poster2, 3)])
    ensures second == Ok([ListPoster(3, List1, Poster3, 1), ListPoster(2, List1, Poster2, 2), ListPoster(1, List1, Poster1, 3)])
  {
    ThreeAppends();
    LastToFirst();
    SecondToLast();
    Orders();
    ListRowsOfThree(Inserted);
    ListRowsOfThree(LastFirst);
    ListRowsOfThree(FirstLast);
    var repo := new ListPosterRepository();
    var a1 := repo.AddPoster(List1, Poster1, None, None);
    var a2 := repo.AddPoster(List1, Poster2, None, None);
    var a3 := repo.AddPoster(List1, Poster3, None, None);
    inserted := repo.GetPosters(List1, None, None, None);
    var c1 := repo.ChangePosterPosition(List1, Poster3, 1, None, NoTxFaults);
    first := repo.GetPosters(List1, None, None, None);
    var c2 := repo.ChangePosterPosition(List1, Poster1, 3, None, NoTxFaults);
    second := repo.GetPosters(List1, None, None, None);
  }
}
