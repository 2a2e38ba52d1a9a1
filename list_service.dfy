/** The list service: a new list without a parent is hung under the
    global root list, and the user's own root is looked up under that
    global root. The store underneath is the in-memory list store of the
    service tests: lists by id. */
module ListService {
  import opened Errors
  import opened Dao

  /** GetUserRoot, given the answer of the global-root query and the
      store's lookup of the user's root under a given global root. A
      failed global-root query is returned as it is, NotFound included;
      only the user-root lookup's NotFound becomes the service's. */
  function UserRoot(rootID: Result<int>, userRootUnder: int -> Result<List>): (r: Result<List>)
    ensures rootID.Err? ==> r == Err(rootID.error)
    ensures rootID.Err? && Is(rootID.error, NotFound) ==> r.Err? && Is(r.error, NotFound)
    ensures rootID.Ok? && userRootUnder(rootID.value).Ok? ==> r == userRootUnder(rootID.value)
    ensures rootID.Ok? && userRootUnder(rootID.value).Err? && Is(userRootUnder(rootID.value).error, NotFound) ==>
      r == Err(ServiceNotFound)
    ensures rootID.Ok? && userRootUnder(rootID.value).Err? && !Is(userRootUnder(rootID.value).error, NotFound) ==>
      r == userRootUnder(rootID.value)
  {
    match rootID
    case Err(e) => Err(e)
    case Ok(globalRootID) => TranslateResult(userRootUnder(globalRootID))
  }

  /** The in-memory list store: lists by id. Its global-root query answers
      `rootAnswer`; the store of the service tests answers Ok(0), a store
      whose query fails answers an error. `rootLookups` counts the queries. */
  class ListStore {
    var lists: map<int, List>
    const rootAnswer: Result<int>
    ghost var rootLookups: nat

    constructor (rootAnswer: Result<int>)
      ensures lists == map[]
      ensures this.rootAnswer == rootAnswer
      ensures rootLookups == 0
    {
      lists := map[];
      this.rootAnswer := rootAnswer;
      rootLookups := 0;
    }

    method GetRootID() returns (r: Result<int>)
      modifies this
      ensures r == rootAnswer
      ensures lists == old(lists)
      ensures rootLookups == old(rootLookups) + 1
    {
      rootLookups := rootLookups + 1;
      r := rootAnswer;
    }

    /** Stores the list under its own id, replacing any list there. */
    method Create(list: List) returns (r: Result<int>)
      modifies this
      ensures r == Ok(list.id)
      ensures lists == old(lists)[list.id := list]
      ensures rootLookups == old(rootLookups)
    {
      lists := lists[list.id := list];
      r := Ok(list.id);
    }

    method Get(listID: int) returns (r: Result<List>)
      ensures listID in lists ==> r == Ok(lists[listID])
      ensures listID !in lists ==> r == Err(FakeListNotFound)
    {
      if listID in lists {
        r := Ok(lists[listID]);
      } else {
        r := Err(FakeListNotFound);
      }
    }

    /** Replaces a stored list; a list that is not stored is an error. */
    method Update(list: List) returns (o: Outcome)
      modifies this
      ensures list.id in old(lists) ==> o == Success && lists == old(lists)[list.id := list]
      ensures list.id !in old(lists) ==> o == Failure(FakeListNotFound) && lists == old(lists)
      ensures rootLookups == old(rootLookups)
    {
      if list.id in lists {
        lists := lists[list.id := list];
        o := Success;
      } else {
        o := Failure(FakeListNotFound);
      }
    }

    /** Removes a stored list; a list that is not stored is an error. */
    method Delete(listID: int) returns (o: Outcome)
      modifies this
      ensures listID in old(lists) ==> o == Success && lists == old(lists) - {listID}
      ensures listID !in old(lists) ==> o == Failure(FakeListNotFound) && lists == old(lists)
      ensures rootLookups == old(rootLookups)
    {
      if listID in lists {
        lists := lists - {listID};
        o := Success;
      } else {
        o := Failure(FakeListNotFound);
      }
    }
  }

  class ListService {
    const repo: ListStore

    constructor (repo: ListStore)
      ensures this.repo == repo
    {
      this.repo := repo;
    }

    method Get(listID: int) returns (r: Result<List>)
      ensures listID in repo.lists ==> r == Ok(repo.lists[listID])
      ensures listID !in repo.lists ==> r == Err(FakeListNotFound)
    {
      var found := repo.Get(listID);
      r := TranslateResult(found);
    }

    /** Create. A list whose parent is 0 gets the global root as its
        parent, which takes one root query; any other list is stored as it
        is, without a root query. A failed root query is returned and
        nothing is stored. `stored` is the caller's list after the call:
        Go sets its parent in place. */
    method Create(list: List) returns (stored: List, r: Result<int>)
      modifies repo
      ensures list.parentID != 0 ==> stored == list && repo.rootLookups == old(repo.rootLookups)
      ensures list.parentID == 0 ==> repo.rootLookups == old(repo.rootLookups) + 1
      ensures list.parentID == 0 && repo.rootAnswer.Ok? ==> stored == list.(parentID := repo.rootAnswer.value)
      ensures list.parentID == 0 && repo.rootAnswer.Err? ==>
        stored == list && r == Err(repo.rootAnswer.error) && repo.lists == old(repo.lists)
      ensures list.parentID != 0 || repo.rootAnswer.Ok? ==>
        r == Ok(stored.id) && repo.lists == old(repo.lists)[stored.id := stored]
    {
      stored := list;
      if list.parentID == 0 {
        var rootID := repo.GetRootID();
        if rootID.Err? {
          return stored, Err(rootID.error);
        }
        stored := stored.(parentID := rootID.value);
      }
      r := repo.Create(stored);
    }

    method Update(list: List) returns (o: Outcome)
      modifies repo
      ensures list.id in old(repo.lists) ==> o == Success && repo.lists == old(repo.lists)[list.id := list]
      ensures list.id !in old(repo.lists) ==> o == Failure(FakeListNotFound) && repo.lists == old(repo.lists)
    {
      var updated := repo.Update(list);
      o := TranslateNotFound(updated);
    }

    method Delete(listID: int) returns (o: Outcome)
      modifies repo
      ensures listID in old(repo.lists) ==> o == Success && repo.lists == old(repo.lists) - {listID}
      ensures listID !in old(repo.lists) ==> o == Failure(FakeListNotFound) && repo.lists == old(repo.lists)
    {
      var deleted := repo.Delete(listID);
      o := TranslateNotFound(deleted);
    }
  }

  /** The first test list: id 10 under parent 1. */
  const TestList1 := List(10, 1, "test list_1", 0)

  /** Creating a list that has a parent stores it exactly as given, under
      its own id, without a root query. */
  method CreateScenario() returns (id: Result<int>, got: Result<List>, ghost lookups: nat)
    ensures id == Ok(10)
    ensures got == Ok(TestList1)
    ensures lookups == 0
  {
    var repo := new ListStore(Ok(0));
    var service := new ListService(repo);
    var stored;
    stored, id := service.Create(TestList1);
    got := repo.Get(id.value);
    lookups := repo.rootLookups;
  }

  /** A list without a parent is hung under the global root, and a failed
      root query stores nothing. */
  method RootParentScenario() returns (got: Result<List>, failed: Result<int>, left: map<int, List>)
    ensures got == Ok(List(20, 1, "orphan", 0))
    ensures failed == Err(Db(1))
    ensures left == map[]
  {
    var repo := new ListStore(Ok(1));
    var service := new ListService(repo);
    var stored, id := service.Create(List(20, 0, "orphan", 0));
    got := service.Get(20);
    var broken := new ListStore(Err(Db(1)));
    var failing := new ListService(broken);
    stored, failed := failing.Create(List(20, 0, "orphan", 0));
    left := broken.lists;
  }

  /** The store's own "list not found" reaches the service's callers
      unchanged, for an update and for a delete; after a delete the list
      is gone. */
  method NotFoundScenario() returns (updated: Outcome, deleted: Outcome, again: Outcome, got: Result<List>)
    ensures updated == Failure(FakeListNotFound)
    ensures deleted == Success
    ensures again == Failure(FakeListNotFound)
    ensures got == Err(FakeListNotFound)
  {
    var repo := new ListStore(Ok(0));
    var service := new ListService(repo);
    updated := service.Update(TestList1);
    var id := repo.Create(TestList1);
    deleted := service.Delete(10);
    again := service.Delete(10);
    got := service.Get(10);
  }
}
