# Ordered list membership, in Dafny

This project models the core of a poster-collection service: keeping posters in ordered user lists. A list holds each of its posters at a position. A new poster goes at the end, at position `count + 1`. A poster can move to another list or change its position within its list. Deleting a poster removes its row.

The parts modelled are:

- the Postgres list-membership repository, as the statements it sends to the `listposter` table;
- the service above it, which routes AddPoster to an append or a move and translates the repository's NotFound;
- the in-memory repository the service's unit tests use, and those tests' scenarios;
- the list service's root-parent rule and its NotFound translation;
- the running-time rule of the poster service;
- the repository's row mappers, including the comma-joined genre string.

Modules:

- `Errors`: error values, `errors.Is` through `errors.Join`, the service's translation of NotFound.
- `ListPosterTable`: a row, and each SQL statement as a function on the table (a `seq` of rows in insertion order).
- `ListPosterLaws`: what those statements do to the rows of one list, including density (positions are exactly `1..N`) and order.
- `ListPosterRepository`: the repository as a class over the table. The result of each statement is an injected `Option<Error>`. A transaction is a snapshot restored on rollback.
- `ListPosterService`: the routing and translation functions, and the service class over the repository.
- `FakeListPoster`: the map-backed repository of the unit tests. Its loops visit the map's keys in an unspecified order. It includes the service over it and the three test scenarios.
- `ListPosterScenarios`: the repository's integration scenario, on concrete rows.
- `ListService`: the list service over the in-memory list store of its unit tests.
- `PosterService`: the running time of an imported film or series.
- `Dao`: `strings.Split` / `strings.Join` and the list, poster and user mappers.

Faults are inputs. Each repository method takes the result of every statement it runs: `None` for success, `Some(e)` for a failure. Its `ensures` gives the reported outcome, and the new table, for every combination.

## Model

| member | source | states |
|---|---|---|
| Errors.RolledBack | src/internal/repository/postgres/list_poster.go:91-105 | the error of a failed statement in a transaction is, for `errors.Is`, both the statement's error and the rollback's |
| Errors.TranslateNotFound | src/internal/service/list_poster.go:64-95 | success stays success; the repository's NotFound anywhere in the error becomes the service's NotFound; any other error is passed on unchanged; the list service's Update and Delete (`src/internal/service/list.go:74-94`) and the poster service's (`src/internal/service/poster.go:94-114`) translate the same way |
| Errors.TranslateResult | src/internal/service/list_poster.go:29-38 | a value passes through unchanged; an error that is the repository's NotFound becomes the service's; other errors are unchanged; Get of a list (`src/internal/service/list.go:30-39`) and of a poster (`src/internal/service/poster.go:39-48`) translate the same way |
| Errors.TranslationHidesRepositoryNotFound | src/internal/service/list_poster.go:64-95 | a translated failure is never the repository's NotFound |
| Errors.TranslationIdempotent | src/internal/service/list_poster.go:64-95 | translating twice is translating once |
| ListPosterTable.ListRowsEmpty | src/internal/repository/postgres/list_poster.go:39-40 | a list selects no row exactly when no row of the table is in it |
| ListPosterTable.Count | src/internal/repository/postgres/list_poster.go:55-61 | the count query gives at most the table's size, and 0 exactly when no row is in the list |
| ListPosterTable.ListRows | src/internal/repository/postgres/list_poster.go:23 | selecting a list's rows gives no more rows than the table has |
| ListPosterTable.PairCount | src/internal/repository/postgres/list_poster.go:174-180 | the pair's count is 0 exactly when no row holds that list and poster |
| ListPosterTable.PairPosition | src/internal/repository/postgres/list_poster.go:126-132 | the position read is the position of a row of the pair |
| ListPosterTable.FirstOfPoster | src/internal/service/list_poster.go:19 | -1 exactly when the poster is in no list; otherwise the first row holding the poster |
| ListPosterTable.Removed | src/internal/repository/postgres/list_poster.go:182-185 | the DELETE removes exactly the pair's rows |
| ListPosterTable.ShiftPlan | src/internal/repository/postgres/list_poster.go:134-138 | moving down shifts `(cur, target]` by -1; moving up shifts `[target, cur)` by +1; the moved poster's own position is never in the range; staying put gives an empty range |
| ListPosterTable.Shifted | src/internal/repository/postgres/list_poster.go:145-151 | the range UPDATE changes, row by row, only the list's rows whose position is in the range, by the delta |
| ListPosterTable.Appended | src/internal/repository/postgres/list_poster.go:61-65 | the insert keeps every row and adds one new row last, in the list, at the list's count + 1 |
| ListPosterTable.Relocated | src/internal/repository/postgres/list_poster.go:79-105 | a move's table is the DELETE's table followed by one new row in the destination, at the destination's count taken before the delete, plus one |
| ListPosterTable.Repositioned | src/internal/repository/postgres/list_poster.go:115-167 | a position change keeps the table's size and every row's id, list and poster, and leaves the rows of other lists unchanged; only positions move |
| ListPosterTable.SortByPosition | src/internal/repository/postgres/list_poster.go:23 | `order by position` returns as many rows as it is given; that they are the same rows in ascending order is `ListPosterLaws.SortByPositionSorts` |
| ListPosterTable.WithPosition | src/internal/repository/postgres/list_poster.go:153-159 | the single-row UPDATE sets the new position on the pair's rows and leaves every other row as it is |
| ListPosterLaws.ListRowsMembers | src/internal/repository/postgres/list_poster.go:23 | a row is selected exactly when it is in the table and in the list |
| ListPosterLaws.RemovedMembers | src/internal/repository/postgres/list_poster.go:182-185 | a row survives the DELETE exactly when it is in the table and is not the pair's |
| ListPosterLaws.ShiftRule | src/internal/repository/postgres/list_poster.go:134-159 | after a position change, each row of the list ends at its reindexed position, the poster ends at the target, and every row of another list is unchanged |
| ListPosterLaws.ReindexedPermutes | src/internal/repository/postgres/list_poster.go:134-159 | reindexing maps `1..N` one-to-one into `1..N` and keeps the relative order of the other positions |
| ListPosterLaws.RepositionListRows | src/internal/repository/postgres/list_poster.go:145-159 | a position change leaves the rows of every other list as they were |
| ListPosterLaws.RepositionSeq | src/internal/repository/postgres/list_poster.go:134-159 | on the rows of a dense list with one row for the poster, each row ends at its reindexed position, the list stays dense and the poster ends at the target |
| ListPosterLaws.RepositionOfList | src/internal/repository/postgres/list_poster.go:134-159 | in the table, the list's rows after the change are the change applied to the list's own rows, which hold the poster once at its read position |
| ListPosterLaws.RepositionKeepsDense | src/internal/repository/postgres/list_poster.go:115-167 | a position change to a target in `1..N` keeps a dense list dense, with the same size, and puts the poster at the target |
| ListPosterLaws.RepositionKeepsOrder | src/internal/repository/postgres/list_poster.go:115-167 | a position change keeps the relative order of the list's other members |
| ListPosterLaws.AppendKeepsDense | src/internal/repository/postgres/list_poster.go:55-65 | an append adds one row at the end of its list, at position `count + 1`; it keeps every dense list dense |
| ListPosterLaws.MoveKeepsDestinationDense | src/internal/repository/postgres/list_poster.go:79-105 | a move between different lists keeps the destination dense, with the poster appended last; the source loses only the pair's rows |
| ListPosterLaws.SameListMoveOvershoots | src/internal/repository/postgres/list_poster.go:79-105 | a move into the list the poster is already in deletes the poster's row and inserts it at the list's earlier count + 1, which counted the poster itself; the list is then not dense |
| ListPosterLaws.MoveLeavesSourceGap | src/internal/repository/postgres/list_poster.go:91-97 | moving the first of two posters out of a list leaves the other at position 2: the source is no longer dense |
| ListPosterLaws.DeleteShrinksList | src/internal/repository/postgres/list_poster.go:169-188 | a delete shrinks the list by the pair's count and leaves the other lists' rows as they were |
| ListPosterLaws.DeleteLeavesGap | src/internal/repository/postgres/list_poster.go:182-185 | deleting the first of two posters leaves the other at position 2: positions after the deleted one are not closed up |
| ListPosterLaws.DenseIsOneToN | src/internal/repository/postgres/list_poster.go:61 | a dense list's positions are exactly the set `1..N` |
| ListPosterLaws.SortByPositionSorts | src/internal/repository/postgres/list_poster.go:23 | `order by position` returns the same rows, in ascending position |
| ListPosterRepository.TxOutcome | src/internal/repository/postgres/list_poster.go:86-110 | a transaction succeeds exactly when begin, both statements and commit succeed; a failed statement's error joins the rollback's |
| ListPosterRepository.Posters | src/internal/repository/postgres/list_poster.go:21-44 | pgx.ErrNoRows from the query is NotFound; a row-set or scan failure is reported as is; an empty list is NotFound; otherwise the list's rows, sorted by position, as a permutation of the list's rows |
| ListPosterRepository.AppendOutcome | src/internal/repository/postgres/list_poster.go:46-68 | AddPoster succeeds exactly when the count and the insert succeed, and a failed count is reported first |
| ListPosterRepository.MoveOutcome | src/internal/repository/postgres/list_poster.go:70-113 | MovePoster succeeds exactly when the count and the transaction succeed; it checks no source row |
| ListPosterRepository.DeleteOutcome | src/internal/repository/postgres/list_poster.go:169-188 | DeletePoster succeeds exactly when the check and the delete succeed and the pair has a row; an absent pair is NotFound |
| ListPosterRepository.ReadPosition | src/internal/repository/postgres/list_poster.go:126-132 | the single-row read gives the pair's position exactly when the pair has one row; no row is pgx.ErrNoRows |
| ListPosterRepository.RepositionOutcome | src/internal/repository/postgres/list_poster.go:115-167 | ChangePosterPosition succeeds exactly when the read gives a non-zero position and the transaction succeeds; an absent poster is pgx.ErrNoRows |
| ListPosterRepository.ListOfPoster | src/internal/service/list_poster.go:19 | the list of a row holding the poster, or NotFound exactly when no row holds it |
| ListPosterRepository.ListPosterRepository.GetListIDByPosterID | src/internal/service/list_poster.go:19 | the lookup the service calls first in AddPoster (`src/internal/service/list_poster.go:41`): `ListOfPoster` on the current table, which is not changed |
| ListPosterRepository.ListPosterRepository.GetPosters | src/internal/repository/postgres/list_poster.go:21-44 | returns what `Posters` states for the current table |
| ListPosterRepository.ListPosterRepository.AddPoster | src/internal/repository/postgres/list_poster.go:46-68 | on success, the poster is appended at `count + 1` under the next id; on failure, the table and the serial are unchanged |
| ListPosterRepository.ListPosterRepository.MovePoster | src/internal/repository/postgres/list_poster.go:70-113 | on success, the pair's rows leave the source and the poster is inserted at the destination's earlier count + 1; any failure, a failed commit included, leaves the table as it was |
| ListPosterRepository.ListPosterRepository.ChangePosterPosition | src/internal/repository/postgres/list_poster.go:115-167 | on success, the table is the range UPDATE followed by the single-row UPDATE, with no check of the new position; a failure leaves the table as it was |
| ListPosterRepository.ListPosterRepository.DeletePoster | src/internal/repository/postgres/list_poster.go:169-188 | on success, exactly the pair's rows are gone; a failure leaves the table as it was |
| ListPosterService.RouteOf | src/internal/service/list_poster.go:40-62 | AddPoster appends exactly when the lookup failed with NotFound and moves exactly when the lookup found a list; any other lookup error is returned |
| ListPosterService.AddResult | src/internal/service/list_poster.go:40-62 | AddPoster succeeds exactly when the lookup found a list and the move succeeded; a lookup error other than NotFound is returned; a failed move is translated |
| ListPosterService.CreatedOutcome | src/internal/service/list_poster.go:47-55 | a successful append is reported as ErrCreated; a failed one is translated; the append path never reports plain success |
| ListPosterService.CreatedIffAppended | src/internal/service/list_poster.go:40-62 | ErrCreated is reported exactly when the poster took the append path and the append succeeded; on the move path, success is reported exactly when the move succeeded |
| ListPosterService.AddHidesRepositoryNotFound | src/internal/service/list_poster.go:40-62 | AddPoster never reports the repository's NotFound |
| ListPosterService.AbsentPosterIsNoRows | src/internal/service/list_poster.go:75-84 | a position change of a poster that is not in the list reports pgx.ErrNoRows, not NotFound |
| ListPosterService.AddWithoutFaults | src/internal/service/list_poster.go:40-62 | a poster in no list is appended and reported as ErrCreated; a poster in a list is moved and reported as success |
| ListPosterService.ListPosterService.GetPosters | src/internal/service/list_poster.go:29-38 | the repository's answer, translated |
| ListPosterService.ListPosterService.AddPoster | src/internal/service/list_poster.go:40-62 | the reported outcome and the new table for each of the three routes; a failure on any route leaves the table unchanged |
| ListPosterService.ListPosterService.MovePoster | src/internal/service/list_poster.go:64-73 | the repository move, with the outcome translated |
| ListPosterService.ListPosterService.ChangePosterPosition | src/internal/service/list_poster.go:75-84 | the repository position change, with the outcome translated |
| ListPosterService.ListPosterService.DeletePoster | src/internal/service/list_poster.go:86-95 | the repository delete, with the outcome translated |
| FakeListPoster.CollectRows | src/internal/service/list_poster_fake_test.go:35-45 | the walk over the map collects each row of the list exactly once |
| FakeListPoster.CountRows | src/internal/service/list_poster_fake_test.go:51-62 | the walk reports whether the pair is already present, and otherwise gives the list's size |
| FakeListPoster.FindPair | src/internal/service/list_poster_fake_test.go:74-84 | the walk finds a key of the pair exactly when the pair is present |
| FakeListPoster.FakeListPosterRepo.GetPosters | src/internal/service/list_poster_fake_test.go:35-49 | each row of the list exactly once, in some order; an empty list is the fake's NotFound |
| FakeListPoster.FakeListPosterRepo.AddPoster | src/internal/service/list_poster_fake_test.go:51-72 | a present pair is refused with an error; otherwise the poster is stored at `count + 1` under the next id; the fake's invariant is kept |
| FakeListPoster.FakeListPosterRepo.DeletePoster | src/internal/service/list_poster_fake_test.go:74-89 | a present pair's row is removed; an absent pair is the fake's NotFound; the invariant is kept |
| FakeListPoster.FakeListPosterRepo.ChangePosterPosition | src/internal/service/list_poster_fake_test.go:92-94 | always the generic error |
| FakeListPoster.FakeListPosterRepo.MovePoster | src/internal/service/list_poster_fake_test.go:97-109 | delete then add; when the add fails, the rollback re-adds the pair (old list, new list id), as written; the new map and the id counter for each case |
| FakeListPoster.FakeListPosterRepo.MovePosterRestoring | src/internal/service/list_poster_fake_test.go:97-109 | the same move, with a rollback that re-adds the deleted pair; the id counter grows by one whenever the pair was present |
| FakeListPoster.FakeListPosterRepo.GetListIDByPosterID | src/internal/service/list_poster_fake_test.go:191-193 | always NotFound |
| FakeListPoster.FakeRemovedDropsPair | src/internal/service/list_poster_fake_test.go:74-89 | after a delete the pair is absent and every other row is kept |
| FakeListPoster.FakeRemovedOfValid | src/internal/service/list_poster_fake_test.go:74-89 | in a valid map, deleting the pair of a row deletes that row only and keeps the invariant |
| FakeListPoster.FakeAddedGrows | src/internal/service/list_poster_fake_test.go:51-72 | adding an absent pair grows its list by one, makes the pair present and keeps the invariant |
| FakeListPoster.RollbackLosesPoster | src/internal/service/list_poster_fake_test.go:102-106 | with the as-written rollback, a failed move out of a list leaves the old list without the poster |
| FakeListPoster.RollbackRestoresPoster | src/internal/service/list_poster_fake_test.go:102-106 | with the restoring rollback, the old list has the poster again |
| FakeListPoster.FakeListPosterService.GetPosters | src/internal/service/list_poster.go:29-38 | the fake's rows of the list, each once; an empty list is the fake's NotFound, which the translation passes on |
| FakeListPoster.FakeListPosterService.AddPoster | src/internal/service/list_poster.go:40-62 | the fake's lookup always sends the poster down the append path: ErrCreated on success, or the fake's error for a present pair |
| FakeListPoster.FakeListPosterService.MovePoster | src/internal/service/list_poster.go:64-73 | the fake's move, with the outcome translated, its new map and its id counter |
| FakeListPoster.FakeListPosterService.ChangePosterPosition | src/internal/service/list_poster.go:75-84 | the fake's generic error, passed on |
| FakeListPoster.FakeListPosterService.DeletePoster | src/internal/service/list_poster.go:86-95 | the fake's delete, with the outcome translated; the id counter is unchanged |
| FakeListPoster.AddThenGetScenario | src/internal/service/list_poster_fake_test.go:111-136 | adding a poster reports ErrCreated, and the list then holds that one row at position 1 |
| FakeListPoster.MoveScenario | src/internal/service/list_poster_fake_test.go:138-169 | after a move, the old list is empty and the new list holds the poster at position 1 |
| FakeListPoster.DeleteScenario | src/internal/service/list_poster_fake_test.go:171-189 | after a delete, the list is empty |
| ListPosterScenarios.MoveThenDeleteScenario | src/internal/tests/list_poster.go:67-96 | a poster appended to list 1 and moved to list 2 leaves list 1 NotFound and sits alone at position 1 in list 2; deleting it makes list 2 NotFound |
| ListPosterScenarios.LastToFirst | src/internal/tests/list_poster.go:118-131 | moving the third poster to position 1 gives positions 2, 3, 1 |
| ListPosterScenarios.SecondToLast | src/internal/tests/list_poster.go:133-146 | moving the poster at position 2 to position 3 gives positions 3, 2, 1 |
| ListPosterScenarios.RepositionScenario | src/internal/tests/list_poster.go:98-146 | three appends read back in order 1, 2, 3; after the two position changes the list reads 3, 1, 2 and then 3, 2, 1 |
| ListService.UserRoot | src/internal/service/list.go:41-55 | a failed global-root query is returned as is, NotFound included; the user-root lookup's NotFound becomes the service's; anything else passes on |
| ListService.ListStore.GetRootID | src/internal/service/list_fake_test.go:64-66 | the store's root answer, counted as one root query, with the lists unchanged |
| ListService.ListStore.Create | src/internal/service/list_fake_test.go:33-36 | the list is stored under its own id, and that id is returned |
| ListService.ListStore.Get | src/internal/service/list_fake_test.go:38-44 | a stored list is returned; an absent one is the store's "list not found" |
| ListService.ListStore.Update | src/internal/service/list_fake_test.go:46-53 | a stored list is replaced; an absent one is an error and nothing changes |
| ListService.ListStore.Delete | src/internal/service/list_fake_test.go:55-62 | a stored list is removed; an absent one is an error and nothing changes |
| ListService.ListService.Get | src/internal/service/list.go:30-39 | the stored list, or the store's error translated |
| ListService.ListService.Create | src/internal/service/list.go:61-72 | a list with parent 0 gets the global root as its parent, at the cost of one root query; a failed root query stores nothing and is returned; any other list is stored unchanged, without a root query |
| ListService.ListService.Update | src/internal/service/list.go:74-83 | the store's update, with the outcome translated |
| ListService.ListService.Delete | src/internal/service/list.go:85-94 | the store's delete, with the outcome translated |
| ListService.CreateScenario | src/internal/service/list_fake_test.go:82-101 | a list with a parent is stored and read back unchanged, without a root query |
| ListService.RootParentScenario | src/internal/service/list.go:61-72 | a list without a parent is stored under the global root; with a failing root query, the error is returned and nothing is stored |
| ListService.NotFoundScenario | src/internal/service/list_fake_test.go:130-183 | updating or deleting an absent list reports the store's own error; a deleted list is gone |
| PosterService.Episodes | src/internal/service/poster.go:121-124 | the episodes over no seasons are 0, over one season that season's count; `EpisodesAppend` gives the sum over any runs |
| PosterService.EpisodesAppend | src/internal/service/poster.go:121-124 | the episode count adds up over consecutive runs of seasons |
| PosterService.EpisodesBoundsEachSeason | src/internal/service/poster.go:121-124 | with no negative counts, the total is at least each season's count |
| PosterService.EpisodesNonNegative | src/internal/service/poster.go:121-124 | with no negative counts, the total is non-negative |
| PosterService.MovieChrono | src/internal/service/poster.go:116-127 | a film runs for its movie length; a series runs for its episode length times the episodes summed over all seasons, and 0 without seasons |
| PosterService.ChronoOfSeasonRuns | src/internal/service/poster.go:116-127 | a series' running time splits over consecutive runs of seasons |
| PosterService.SeriesExample | src/internal/service/poster.go:116-127 | 45-minute episodes over seasons of 10 and 8 run for 810; the same record as a film runs for its movie length |
| Dao.Split | src/internal/repository/postgres/dao.go:54 | `strings.Split` gives at least one piece, none containing the separator, and gives the whole string when it has no separator |
| Dao.Join | src/internal/repository/postgres/dao.go:67 | `strings.Join` of no pieces is ""; otherwise the first piece leads, and with a second piece a separator follows it |
| Dao.SplitJoin | src/internal/repository/postgres/dao.go:54-67 | splitting a join gives back any non-empty list of separator-free pieces |
| Dao.JoinSplit | src/internal/repository/postgres/dao.go:54-67 | joining a split gives back any string |
| Dao.MapListDAO | src/internal/repository/postgres/dao.go:35-42 | storing a read list gives back the stored row |
| Dao.ReverseMapListDAO | src/internal/repository/postgres/dao.go:44-51 | storing a list carries every field over |
| Dao.ListMappersInverse | src/internal/repository/postgres/dao.go:35-51 | the list mappers are mutual inverses |
| Dao.MapPosterDAO | src/internal/repository/postgres/dao.go:53-64 | a read poster has at least one genre, none containing a comma |
| Dao.ReverseMapPosterDAO | src/internal/repository/postgres/dao.go:66-77 | storing a poster carries every field but the genres over; no genres are stored as ""; the first genre leads the stored genre string |
| Dao.PosterRoundTrip | src/internal/repository/postgres/dao.go:53-77 | a poster with at least one genre and no comma in any genre survives storing and reading back |
| Dao.PosterDAORoundTrip | src/internal/repository/postgres/dao.go:53-77 | every stored poster row survives reading and storing back |
| Dao.EmptyGenresReadBackAsOneEmptyGenre | src/internal/repository/postgres/dao.go:53-77 | a poster without genres is stored as "" and reads back with the one genre "", so it does not survive the round trip |
| Dao.ThreeGenres | src/internal/tests/poster_test.go:16-21 | the genres g1, g2, g3 are stored as "g1,g2,g3" and read back as they were |
| Dao.MapUserDAO | src/internal/repository/postgres/dao.go:79-87 | a read user has an empty admin secret |
| Dao.ReverseMapUserDAO | src/internal/repository/postgres/dao.go:89-97 | reading a stored user gives the user with an empty admin secret |
| Dao.UserMappersRoundTrip | src/internal/repository/postgres/dao.go:79-97 | a stored user survives reading and storing back; a user survives storing and reading back exactly when the admin secret is empty |

## Left out

- The HTTP controllers, the Telegram bot, the authentication service and the database connection pool: they are outside the membership core.
- Concurrency and isolation between transactions: each repository call runs alone, and a transaction is a snapshot restored on rollback.
- The text prefix the repository adds to each error: `errors.Is` ignores it, and the model keeps only the wrapped error.
- Serial id gaps: a rolled-back insert does not use up an id here, while a Postgres sequence does. Ids are never compared, so nothing depends on this.
- ListPosterRepository.ListPosterRepository.AddPoster: counts, positions and ids are unbounded integers, so Go's 64-bit overflow is not modelled.
- PosterService.MovieChrono: does not model 64-bit wrap-around of the sum or the product.
- GetListIDByPosterID is declared by the service's repository interface, but the Postgres repository code is not part of this model. It is modelled as `ListPosterRepository.ListOfPoster`: the list of the poster's first row, or NotFound.
- The order of the fake's GetPosters is unspecified, because Go map iteration order is random. `FakeListPoster.ListedOnce` states only that each row of the list appears once.
- `FakeListPoster.FakeListPosterService.MovePoster` uses the restoring rollback (see Findings). The as-written move is kept as `FakeListPosterRepo.MovePoster`.
- PosterService.CreateFromKP (`src/internal/service/poster.go:50-88`): an HTTP request to Kinopoisk and JSON decoding. Only its running-time rule, `MovieChrono`, is modelled.
- PosterService.Create (`src/internal/service/poster.go:90-92`) returns the repository's answer unchanged. Get, Update and Delete of posters are the `Errors.TranslateResult` and `Errors.TranslateNotFound` rows.
- ListService.GetSublists (`src/internal/service/list.go:57-59`) returns the repository's answer unchanged.
- The Postgres list and poster repositories are thin CRUD wrappers and are not part of this model. The list service is modelled over the in-memory list store of its unit tests. That store's global-root answer is a constructor parameter, so a failing root query can be expressed; the test store answers 0.
- ListService.ListService.Create sets the parent on the caller's list in place. The model returns the updated list as `stored` instead of sharing a pointer.
- `Poster.createdAt` is a `time.Time`; here it is an opaque integer, carried unchanged by the mappers.
- The service's error text and logging are left out.
- ChangePosterPosition of a poster that is not in the list fails at the single-row read (`src/internal/repository/postgres/list_poster.go:126-132`, a `pgxscan.Get`) with pgx.ErrNoRows, and the service passes that error on unchanged rather than as its NotFound (`ListPosterService.AbsentPosterIsNoRows`). Only a row stored at position 0 reports NotFound.
- Rows with equal positions come back from `ListPosterTable.SortByPosition` in table order, because the insertion sort is stable; Postgres's `order by position` leaves their order unspecified. Equal positions arise from an unchecked new position or a move within the same list. No proved property depends on the order of ties.

## Findings

| source | as written | input that shows it | evidently intended | confidence | as-written member | corrected member |
|---|---|---|---|---|---|---|
| src/internal/service/list_poster_fake_test.go:102-106 | when the add to the new list fails, the rollback calls `AddPoster(curListID, newListID)`: it adds the list id as a poster | the map {0: row (0, list 10, poster 101, position 1), 1: row (1, list 15, poster 101, position 1)}; moving poster 101 from list 10 to list 15 deletes row 0, the add fails because list 15 already holds 101, and the rollback adds poster 15 to list 10; list 10 no longer holds 101 | the rollback re-adds the deleted pair, `AddPoster(curListID, posterID)` | not executed | FakeListPoster.FakeListPosterRepo.MovePoster, FakeListPoster.RollbackLosesPoster | FakeListPoster.FakeListPosterRepo.MovePosterRestoring, FakeListPoster.RollbackRestoresPoster |
