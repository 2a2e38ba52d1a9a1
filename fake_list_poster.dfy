/** The in-memory list-membership repository of the service's tests, the
    service over it, and the three scenarios those tests run. The fake
    keeps its rows in a map keyed by row id and walks the map in an
    unspecified order, as ranging over a Go map does; here that order is
    a choice `:|` from the keys not yet visited. */
module FakeListPoster {
  import opened Errors
  import opened ListPosterTable
  import opened ListPosterService

  // ------------------------------------------------- the fake's abstract state

  /** The keys of the rows of a list. */
  ghost function ListKeys(m: map<int, ListPoster>, listID: int): set<int>
  {
    set k | k in m && m[k].listID == listID
  }

  /** The size of a list. */
  ghost function FakeCount(m: map<int, ListPoster>, listID: int): nat
  {
    |ListKeys(m, listID)|
  }

  /** The list holds the poster. */
  ghost predicate HasPair(m: map<int, ListPoster>, listID: int, posterID: int)
  {
    exists k :: k in m && IsPair(m[k], listID, posterID)
  }

  /** The map after AddPoster: unchanged when the pair is present, else
      with the poster at the end of the list under the next id. */
  ghost function FakeAdded(m: map<int, ListPoster>, next: int, listID: int, posterID: int): map<int, ListPoster>
  {
    if HasPair(m, listID, posterID) then m
    else m[next := ListPoster(next, listID, posterID, FakeCount(m, listID) + 1)]
  }

  /** The map after DeletePoster: the pair's row is gone. */
  ghost function FakeRemoved(m: map<int, ListPoster>, listID: int, posterID: int): map<int, ListPoster>
  {
    map k | k in m && !IsPair(m[k], listID, posterID) :: m[k]
  }

  /** The fake's invariant: ids below the counter, each row under its own
      id, and at most one row per list-poster pair. */
  ghost predicate FakeValid(m: map<int, ListPoster>, next: int)
  {
    KeyedByID(m, next) && PairsUnique(m)
  }

  /** Every row is stored under its own id, below the counter. */
  ghost predicate KeyedByID(m: map<int, ListPoster>, next: int)
  {
    0 <= next && forall k :: k in m ==> 0 <= k < next && m[k].id == k
  }

  /** No two rows hold the same list-poster pair. */
  ghost predicate PairsUnique(m: map<int, ListPoster>)
  {
    forall a, b :: a in m && b in m && a != b ==> PairOf(m[a]) != PairOf(m[b])
  }

  /** The list-poster pair of a row. */
  function PairOf(r: ListPoster): (int, int)
  {
    (r.listID, r.posterID)
  }

  /** `s` holds each row of the list exactly once, in some order. */
  ghost predicate ListedOnce(m: map<int, ListPoster>, listID: int, s: seq<ListPoster>)
  {
    && (forall i :: 0 <= i < |s| ==> s[i].id in ListKeys(m, listID) && s[i] == m[s[i].id])
    && (forall k :: k in ListKeys(m, listID) ==> m[k] in s)
    && (forall i, j :: 0 <= i < j < |s| ==> s[i].id != s[j].id)
  }

  // ---------------------------------------------------- the fake's loops

  /** Proof helper, not a property of the fake: a non-empty set of keys
      has a key to visit next, which the walks' `:|` choices need. */
  lemma NonEmptyHasKey(s: set<int>)
    requires s != {}
    ensures exists k :: k in s
  {
    if forall k :: k !in s {
      assert false;
    }
  }

  /** What GetPosters's walk has gathered after visiting the keys `seen`:
      each row of the list among them, once. */
  ghost predicate Collected(m: map<int, ListPoster>, listID: int, seen: set<int>, found: seq<ListPoster>)
  {
    && (forall i :: 0 <= i < |found| ==> found[i].id in seen && found[i].id in ListKeys(m, listID) && found[i] == m[found[i].id])
    && (forall k :: k in seen && k in ListKeys(m, listID) ==> m[k] in found)
    && (forall i, j :: 0 <= i < j < |found| ==> found[i].id != found[j].id)
  }

  lemma CollectStep(m: map<int, ListPoster>, next: int, listID: int, seen: set<int>, found: seq<ListPoster>, k: int)
    requires KeyedByID(m, next)
    requires Collected(m, listID, seen, found)
    requires k in m && k !in seen
    ensures Collected(m, listID, seen + {k}, if m[k].listID == listID then found + [m[k]] else found)
  {
    if m[k].listID == listID {
      var after := found + [m[k]];
      assert after[|found|].id == k;
      assert forall i :: 0 <= i < |found| ==> after[i] == found[i];
    }
  }

  /** Once every key is visited, the walk has listed the list once, and
      found nothing exactly when the list is empty. */
  lemma CollectedAll(m: map<int, ListPoster>, listID: int, found: seq<ListPoster>)
    requires Collected(m, listID, m.Keys, found)
    ensures |found| == 0 <==> ListKeys(m, listID) == {}
    ensures ListedOnce(m, listID, found)
  {
    if ListKeys(m, listID) != {} {
      NonEmptyHasKey(ListKeys(m, listID));
      var k :| k in ListKeys(m, listID);
      assert m[k] in found;
    }
    if |found| > 0 {
      assert found[0].id in ListKeys(m, listID);
    }
  }

  /** What AddPoster's walk knows after visiting the keys `seen`: how many
      of them are rows of the list, and that none is the pair. */
  ghost predicate Counted(m: map<int, ListPoster>, listID: int, posterID: int, seen: set<int>, n: int)
  {
    && n == |ListKeys(m, listID) * seen|
    && forall k :: k in seen && k in m ==> !IsPair(m[k], listID, posterID)
  }

  lemma CountStep(m: map<int, ListPoster>, listID: int, posterID: int, seen: set<int>, n: int, k: int)
    requires Counted(m, listID, posterID, seen, n)
    requires k in m && k !in seen && !IsPair(m[k], listID, posterID)
    ensures Counted(m, listID, posterID, seen + {k}, if m[k].listID == listID then n + 1 else n)
  {
    if m[k].listID == listID {
      assert ListKeys(m, listID) * (seen + {k}) == ListKeys(m, listID) * seen + {k};
    } else {
      assert ListKeys(m, listID) * (seen + {k}) == ListKeys(m, listID) * seen;
    }
  }

  /** GetPosters's walk: visit every key, keep the rows of the list. */
  method CollectRows(m: map<int, ListPoster>, next: int, listID: int) returns (found: seq<ListPoster>)
    requires KeyedByID(m, next)
    ensures Collected(m, listID, m.Keys, found)
  {
    found := [];
    var remaining := m.Keys;
    ghost var seen: set<int> := {};
    while remaining != {}
      invariant remaining + seen == m.Keys && remaining !! seen
      invariant Collected(m, listID, seen, found)
      decreases |remaining|
    {
      NonEmptyHasKey(remaining);
      var k :| k in remaining;
      var row := m[k];
      CollectStep(m, next, listID, seen, found, k);
      if row.listID == listID {
        found := found + [row];
      }
      remaining := remaining - {k};
      seen := seen + {k};
    }
    assert seen == m.Keys;
  }

  /** AddPoster's walk: count the rows of the list, stopping at the pair. */
  method CountRows(m: map<int, ListPoster>, listID: int, posterID: int) returns (listSize: int, found: bool)
    ensures found <==> HasPair(m, listID, posterID)
    ensures !found ==> listSize == FakeCount(m, listID)
  {
    listSize := 0;
    var remaining := m.Keys;
    ghost var seen: set<int> := {};
    while remaining != {}
      invariant remaining + seen == m.Keys && remaining !! seen
      invariant Counted(m, listID, posterID, seen, listSize)
      decreases |remaining|
    {
      NonEmptyHasKey(remaining);
      var k :| k in remaining;
      var row := m[k];
      ghost var before := listSize;
      if row.listID == listID {
        listSize := listSize + 1;
        if row.posterID == posterID {
          assert IsPair(m[k], listID, posterID);
          return listSize, true;
        }
      }
      CountStep(m, listID, posterID, seen, before, k);
      remaining := remaining - {k};
      seen := seen + {k};
    }
    assert seen == m.Keys;
    CountedAll(m, listID, posterID, listSize);
    found := false;
  }

  /** DeletePoster's walk: the first key of the pair met, if any. */
  method FindPair(m: map<int, ListPoster>, listID: int, posterID: int) returns (ok: bool, key: int)
    ensures ok <==> HasPair(m, listID, posterID)
    ensures ok ==> key in m && IsPair(m[key], listID, posterID)
  {
    var remaining := m.Keys;
    ghost var seen: set<int> := {};
    while remaining != {}
      invariant remaining + seen == m.Keys && remaining !! seen
      invariant forall k :: k in seen ==> !IsPair(m[k], listID, posterID)
      decreases |remaining|
    {
      NonEmptyHasKey(remaining);
      var k :| k in remaining;
      if IsPair(m[k], listID, posterID) {
        return true, k;
      }
      remaining := remaining - {k};
      seen := seen + {k};
    }
    assert seen == m.Keys;
    ok, key := false, 0;
  }

  /** Once every key is visited without meeting the pair, the count is
      the list's size and the pair is absent. */
  lemma CountedAll(m: map<int, ListPoster>, listID: int, posterID: int, n: int)
    requires Counted(m, listID, posterID, m.Keys, n)
    ensures n == FakeCount(m, listID)
    ensures !HasPair(m, listID, posterID)
  {
    assert ListKeys(m, listID) * m.Keys == ListKeys(m, listID);
  }

  // ------------------------------------------------------------ the fake

  class FakeListPosterRepo {
    var listPoster: map<int, ListPoster>
    var increment: int

    ghost predicate Valid()
      reads this
    {
      FakeValid(listPoster, increment)
    }

    constructor ()
      ensures Valid()
      ensures listPoster == map[] && increment == 0
    {
      listPoster := map[];
      increment := 0;
    }

    /** Collect the list's rows in map order; an empty list is an error. */
    method GetPosters(listID: int) returns (r: Result<seq<ListPoster>>)
      requires Valid()
      ensures r.Err? <==> ListKeys(listPoster, listID) == {}
      ensures r.Err? ==> r.error == FakeNotFound
      ensures r.Ok? ==> ListedOnce(listPoster, listID, r.value)
    {
      var found := CollectRows(listPoster, increment, listID);
      CollectedAll(listPoster, listID, found);
      if |found| == 0 {
        return Err(FakeNotFound);
      }
      r := Ok(found);
    }

    /** Count the list while looking for the pair; refuse a duplicate,
        otherwise store the poster at the end under the next id. */
    method AddPoster(listID: int, posterID: int) returns (o: Outcome)
      requires Valid()
      modifies this
      ensures Valid()
      ensures o == if HasPair(old(listPoster), listID, posterID) then Failure(FakeExists) else Success
      ensures listPoster == FakeAdded(old(listPoster), old(increment), listID, posterID)
      ensures increment == if o.Success? then old(increment) + 1 else old(increment)
    {
      var listSize, exists_ := CountRows(listPoster, listID, posterID);
      if exists_ {
        return Failure(FakeExists);
      }
      FakeAddedGrows(listPoster, increment, listID, posterID);
      listPoster := listPoster[increment := ListPoster(increment, listID, posterID, listSize + 1)];
      increment := increment + 1;
      o := Success;
    }

    /** Delete the first row of the pair met in map order. */
    method DeletePoster(listID: int, posterID: int) returns (o: Outcome)
      requires Valid()
      modifies this
      ensures Valid()
      ensures o == if HasPair(old(listPoster), listID, posterID) then Success else Failure(FakeNotFound)
      ensures listPoster == FakeRemoved(old(listPoster), listID, posterID)
      ensures increment == old(increment)
    {
      var ok, key := FindPair(listPoster, listID, posterID);
      if !ok {
        FakeRemovedWithoutPair(listPoster, listID, posterID);
        return Failure(FakeNotFound);
      }
      FakeRemovedOfValid(listPoster, increment, key);
      listPoster := map j | j in listPoster && j != key :: listPoster[j];
      o := Success;
    }

    /** Not implemented by the fake. */
    method ChangePosterPosition(listID: int, posterID: int, newPosition: int) returns (o: Outcome)
      ensures o == Failure(AnError)
    {
      o := Failure(AnError);
    }

    /** The fake's "transaction": delete from the old list, add to the new
        one, and on a failed add re-add, as its rollback, the pair
        (curListID, newListID) -- the new list's id in place of the
        poster's. */
    method MovePoster(curListID: int, newListID: int, posterID: int) returns (o: Outcome)
      requires Valid()
      modifies this
      ensures Valid()
      ensures var removed := FakeRemoved(old(listPoster), curListID, posterID);
        && (!HasPair(old(listPoster), curListID, posterID) ==>
              o == Failure(FakeNotFound) && listPoster == old(listPoster))
        && (HasPair(old(listPoster), curListID, posterID) && !HasPair(removed, newListID, posterID) ==>
              o == Success && listPoster == FakeAdded(removed, old(increment), newListID, posterID))
        && (HasPair(old(listPoster), curListID, posterID) && HasPair(removed, newListID, posterID) ==>
              o == Failure(FakeExists) && listPoster == FakeAdded(removed, old(increment), curListID, newListID))
      ensures var removed := FakeRemoved(old(listPoster), curListID, posterID);
        increment == old(increment) +
          if !HasPair(old(listPoster), curListID, posterID) then 0
          else if !HasPair(removed, newListID, posterID) then 1
          else if HasPair(removed, curListID, newListID) then 0
          else 1
    {
      o := DeletePoster(curListID, posterID);
      if o.Failure? {
        FakeRemovedWithoutPair(old(listPoster), curListID, posterID);
        return;
      }
      o := AddPoster(newListID, posterID);
      if o.Failure? {
        var _ := AddPoster(curListID, newListID);
      }
    }

    /** MovePoster with the rollback re-adding the pair it deleted. */
    method MovePosterRestoring(curListID: int, newListID: int, posterID: int) returns (o: Outcome)
      requires Valid()
      modifies this
      ensures Valid()
      ensures var removed := FakeRemoved(old(listPoster), curListID, posterID);
        && (!HasPair(old(listPoster), curListID, posterID) ==>
              o == Failure(FakeNotFound) && listPoster == old(listPoster))
        && (HasPair(old(listPoster), curListID, posterID) && !HasPair(removed, newListID, posterID) ==>
              o == Success && listPoster == FakeAdded(removed, old(increment), newListID, posterID))
        && (HasPair(old(listPoster), curListID, posterID) && HasPair(removed, newListID, posterID) ==>
              o == Failure(FakeExists) && listPoster == FakeAdded(removed, old(increment), curListID, posterID))
      ensures increment == old(increment) + if HasPair(old(listPoster), curListID, posterID) then 1 else 0
    {
      o := DeletePoster(curListID, posterID);
      if o.Failure? {
        FakeRemovedWithoutPair(old(listPoster), curListID, posterID);
        return;
      }
      o := AddPoster(newListID, posterID);
      if o.Failure? {
        FakeRemovedDropsPair(old(listPoster), curListID, posterID);
        var _ := AddPoster(curListID, posterID);
      }
    }

    /** The fake places no poster in any list. */
    method GetListIDByPosterID(posterID: int) returns (r: Result<int>)
      ensures r == Err(NotFound)
    {
      r := Err(NotFound);
    }
  }

  // ------------------------------------------------- laws of the fake's state

  lemma {:induction false} FakeRemovedDropsPair(m: map<int, ListPoster>, listID: int, posterID: int)
    ensures !HasPair(FakeRemoved(m, listID, posterID), listID, posterID)
    ensures forall k :: k in m && !IsPair(m[k], listID, posterID) ==> k in FakeRemoved(m, listID, posterID)
  {
  }

  lemma FakeRemovedWithoutPair(m: map<int, ListPoster>, listID: int, posterID: int)
    requires !HasPair(m, listID, posterID)
    ensures FakeRemoved(m, listID, posterID) == m
  {
    var removed := FakeRemoved(m, listID, posterID);
    forall k | k in m
      ensures k in removed && removed[k] == m[k]
    {
      assert !IsPair(m[k], listID, posterID);
    }
    assert removed.Keys == m.Keys;
  }

  /** In a valid map, deleting the pair of one row deletes that row only;
      the result is still valid. */
  lemma FakeRemovedOfValid(m: map<int, ListPoster>, next: int, k: int)
    requires FakeValid(m, next)
    requires k in m
    ensures FakeRemoved(m, m[k].listID, m[k].posterID) == map j | j in m && j != k :: m[j]
    ensures FakeValid(FakeRemoved(m, m[k].listID, m[k].posterID), next)
  {
    var removed := FakeRemoved(m, m[k].listID, m[k].posterID);
    forall j | j in m && j != k
      ensures !IsPair(m[j], m[k].listID, m[k].posterID)
    {
      assert PairOf(m[k]) != PairOf(m[j]);
    }
    assert removed.Keys == m.Keys - {k};
  }

  /** Adding an absent pair under a fresh id puts the poster at the end:
      the list grows by one and the new row's position is the new size. */
  lemma FakeAddedGrows(m: map<int, ListPoster>, next: int, listID: int, posterID: int)
    requires FakeValid(m, next)
    requires !HasPair(m, listID, posterID)
    ensures var after := FakeAdded(m, next, listID, posterID);
      && HasPair(after, listID, posterID)
      && FakeCount(after, listID) == FakeCount(m, listID) + 1
      && after[next].position == FakeCount(after, listID)
      && FakeValid(after, next + 1)
  {
    var after := FakeAdded(m, next, listID, posterID);
    assert next !in m;
    assert ListKeys(after, listID) == ListKeys(m, listID) + {next};
    assert IsPair(after[next], listID, posterID);
    forall a, b | a in after && b in after && a != b
      ensures PairOf(after[a]) != PairOf(after[b])
    {
      if a == next {
        assert !IsPair(m[b], listID, posterID);
      } else if b == next {
        assert !IsPair(m[a], listID, posterID);
      } else {
        assert PairOf(m[a]) != PairOf(m[b]);
      }
    }
  }

  /** The as-written rollback loses the poster: after a move into a list
      that already holds it, the old list does not hold it again. */
  lemma RollbackLosesPoster()
    ensures var m := map[0 := ListPoster(0, 10, 101, 1), 1 := ListPoster(1, 15, 101, 1)];
      var removed := FakeRemoved(m, 10, 101);
      && FakeValid(m, 2)
      && HasPair(m, 10, 101) && HasPair(removed, 15, 101)
      && !HasPair(FakeAdded(removed, 2, 10, 15), 10, 101)
      && HasPair(FakeAdded(removed, 2, 10, 15), 10, 15)
  {
    var m := map[0 := ListPoster(0, 10, 101, 1), 1 := ListPoster(1, 15, 101, 1)];
    var removed := FakeRemoved(m, 10, 101);
    assert removed == map[1 := ListPoster(1, 15, 101, 1)];
    assert IsPair(m[0], 10, 101);
    assert IsPair(removed[1], 15, 101);
    assert !HasPair(removed, 10, 15);
    var after := FakeAdded(removed, 2, 10, 15);
    assert after == map[1 := ListPoster(1, 15, 101, 1), 2 := ListPoster(2, 10, 15, FakeCount(removed, 10) + 1)];
    assert IsPair(after[2], 10, 15);
  }

  /** The restoring rollback gives the old list its poster back. */
  lemma RollbackRestoresPoster(m: map<int, ListPoster>, next: int, curListID: int, posterID: int)
    requires FakeValid(m, next)
    requires HasPair(m, curListID, posterID)
    ensures HasPair(FakeAdded(FakeRemoved(m, curListID, posterID), next, curListID, posterID), curListID, posterID)
  {
    var removed := FakeRemoved(m, curListID, posterID);
    FakeRemovedDropsPair(m, curListID, posterID);
    assert IsPair(FakeAdded(removed, next, curListID, posterID)[next], curListID, posterID);
  }

  // ------------------------------------------- the service over the fake

  /** The list-membership service with the fake as its repository. */
  class FakeListPosterService {
    const repo: FakeListPosterRepo

    constructor (repo: FakeListPosterRepo)
      ensures this.repo == repo
    {
      this.repo := repo;
    }

    method GetPosters(listID: int) returns (r: Result<seq<ListPoster>>)
      requires repo.Valid()
      ensures r.Err? <==> ListKeys(repo.listPoster, listID) == {}
      ensures r.Err? ==> r.error == FakeNotFound
      ensures r.Ok? ==> ListedOnce(repo.listPoster, listID, r.value)
    {
      var found := repo.GetPosters(listID);
      r := TranslateResult(found);
    }

    /** The fake never finds the poster in a list, so AddPoster always
        appends, and reports ErrCreated when the append succeeds. */
    method AddPoster(listID: int, posterID: int) returns (o: Outcome)
      requires repo.Valid()
      modifies repo
      ensures repo.Valid()
      ensures o == if HasPair(old(repo.listPoster), listID, posterID) then Failure(FakeExists) else Failure(Created)
      ensures repo.listPoster == FakeAdded(old(repo.listPoster), old(repo.increment), listID, posterID)
      ensures repo.increment == if o == Failure(Created) then old(repo.increment) + 1 else old(repo.increment)
    {
      var lookup := repo.GetListIDByPosterID(posterID);
      // The fake finds no poster in any list: only the append path is taken.
      assert RouteOf(lookup).Append?;
      var added := repo.AddPoster(listID, posterID);
      o := CreatedOutcome(added);
    }

    method MovePoster(curListID: int, newListID: int, posterID: int) returns (o: Outcome)
      requires repo.Valid()
      modifies repo
      ensures repo.Valid()
      ensures var removed := FakeRemoved(old(repo.listPoster), curListID, posterID);
        && (!HasPair(old(repo.listPoster), curListID, posterID) ==>
              o == Failure(FakeNotFound) && repo.listPoster == old(repo.listPoster))
        && (HasPair(old(repo.listPoster), curListID, posterID) && !HasPair(removed, newListID, posterID) ==>
              o == Success && repo.listPoster == FakeAdded(removed, old(repo.increment), newListID, posterID))
        && (HasPair(old(repo.listPoster), curListID, posterID) && HasPair(removed, newListID, posterID) ==>
              o == Failure(FakeExists) && repo.listPoster == FakeAdded(removed, old(repo.increment), curListID, posterID))
      ensures repo.increment == old(repo.increment) + if HasPair(old(repo.listPoster), curListID, posterID) then 1 else 0
    {
      var moved := repo.MovePosterRestoring(curListID, newListID, posterID);
      o := TranslateNotFound(moved);
    }

    method ChangePosterPosition(listID: int, posterID: int, newPosition: int) returns (o: Outcome)
      ensures o == Failure(AnError)
    {
      var changed := repo.ChangePosterPosition(listID, posterID, newPosition);
      o := TranslateNotFound(changed);
    }

    method DeletePoster(listID: int, posterID: int) returns (o: Outcome)
      requires repo.Valid()
      modifies repo
      ensures repo.Valid()
      ensures o == if HasPair(old(repo.listPoster), listID, posterID) then Success else Failure(FakeNotFound)
      ensures repo.listPoster == FakeRemoved(old(repo.listPoster), listID, posterID)
      ensures repo.increment == old(repo.increment)
    {
      var deleted := repo.DeletePoster(listID, posterID);
      o := TranslateNotFound(deleted);
    }
  }

  // ------------------------------------------------------- the scenarios

  const List1 := 10
  const List2 := 15
  const Poster := 101

  /** Add the poster to list 1, then read list 1: one row, id 0, position 1. */
  method AddThenGetScenario() returns (added: Outcome, got: Result<seq<ListPoster>>)
    ensures added == Failure(Created)
    ensures got == Ok([ListPoster(0, List1, Poster, 1)])
  {
    var repo := new FakeListPosterRepo();
    var service := new FakeListPosterService(repo);
    added := service.AddPoster(List1, Poster);
    assert repo.listPoster == map[0 := ListPoster(0, List1, Poster, 1)] by {
      assert ListKeys(map[], List1) == {};
    }
    got := service.GetPosters(List1);
    SingleRowList(repo.listPoster, 0, List1, got);
  }

  /** Add the poster to list 1, move it to list 2, read both lists: list 1
      is empty, list 2 holds the poster under id 1 at position 1. */
  method MoveScenario() returns (added: Outcome, moved: Outcome, gotOld: Result<seq<ListPoster>>, gotNew: Result<seq<ListPoster>>)
    ensures added == Failure(Created)
    ensures moved == Success
    ensures gotOld == Err(FakeNotFound)
    ensures gotNew == Ok([ListPoster(1, List2, Poster, 1)])
  {
    var repo := new FakeListPosterRepo();
    var service := new FakeListPosterService(repo);
    added := service.AddPoster(List1, Poster);
    assert repo.listPoster == map[0 := ListPoster(0, List1, Poster, 1)] by {
      assert ListKeys(map[], List1) == {};
    }
    assert IsPair(repo.listPoster[0], List1, Poster);
    ghost var removed := FakeRemoved(repo.listPoster, List1, Poster);
    assert removed == map[];
    moved := service.MovePoster(List1, List2, Poster);
    assert repo.listPoster == map[1 := ListPoster(1, List2, Poster, 1)] by {
      assert ListKeys(map[], List2) == {};
    }
    gotOld := service.GetPosters(List1);
    assert ListKeys(repo.listPoster, List1) == {};
    gotNew := service.GetPosters(List2);
    SingleRowList(repo.listPoster, 1, List2, gotNew);
  }

  /** Add the poster to list 1, delete it, read list 1: it is empty. */
  method DeleteScenario() returns (added: Outcome, deleted: Outcome, got: Result<seq<ListPoster>>)
    ensures added == Failure(Created)
    ensures deleted == Success
    ensures got == Err(FakeNotFound)
  {
    var repo := new FakeListPosterRepo();
    var service := new FakeListPosterService(repo);
    added := service.AddPoster(List1, Poster);
    assert repo.listPoster == map[0 := ListPoster(0, List1, Poster, 1)] by {
      assert ListKeys(map[], List1) == {};
    }
    assert IsPair(repo.listPoster[0], List1, Poster);
    deleted := service.DeletePoster(List1, Poster);
    assert repo.listPoster == map[];
    got := service.GetPosters(List1);
  }

  /** Proof helper, not a property of the fake: two entries of a list
      with distinct ids differ in id. */
  lemma DistinctIDs(s: seq<ListPoster>, i: int, j: int)
    requires 0 <= i < j < |s|
    requires forall a, b :: 0 <= a < b < |s| ==> s[a].id != s[b].id
    ensures s[i].id != s[j].id
  {
  }

  /** A one-row map read back through GetPosters's contract gives that row. */
  lemma SingleRowList(m: map<int, ListPoster>, k: int, listID: int, got: Result<seq<ListPoster>>)
    requires k in m && m[k].listID == listID && m.Keys == {k} && m[k].id == k
    requires got.Ok? ==> ListedOnce(m, listID, got.value)
    requires got.Err? <==> ListKeys(m, listID) == {}
    ensures got == Ok([m[k]])
  {
    assert k in ListKeys(m, listID);
    var s := got.value;
    assert m[k] in s;
    if |s| > 1 {
      DistinctIDs(s, 0, 1);
      assert false;
    }
    assert s == [m[k]];
  }
}
