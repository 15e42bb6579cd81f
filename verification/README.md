# Tourist places: moderation and rating, in Dafny

This project models the core of a tourist points-of-interest service. Places are
submitted by anyone and start out UNVALIDATED. Administrators validate or reject
them, edit them and delete them. Users rate validated places, one rating per
user. Each place keeps the average of its ratings.

The model is functional. A place is an immutable datatype. The store is a
finite map from place id to place. Every service operation and every HTTP
handler is a pure function, or a method for the listings, that returns its
answer together with the new store.

Modules, one per layer of the program:

- `Places` (`places.dfy`): the place entity. It holds the fields, their
  defaults, the setters, and the rating list with its `addRating` and its
  recomputed average. The average is a mathematical `real`: the sum over the
  count, or 0.0 for no ratings. The entity is generic in how it stores
  ratings. `Entity` keeps the plain list of integers the entity class declares.
- `RatingLedger` (`rating_ledger.dfy`): the ratings as the service layer uses
  them. The service calls `addOrUpdateRating(user, rating)`,
  `removeRating(user)` and `recalculateAverageRating()` on a place, and its
  tests expect one user rating 8 and then 7 to leave the single rating 7. So
  the service-level ratings are a map from user id to that user's latest
  rating (last write wins). Their list is the map's values in ascending user
  id order. The average is the list mean of `Places` over those values. The
  module's header comment records this choice.
- `PlaceRepository` (`place_repository.dfy`): the store as the repository
  interface sees it. It offers lookup by id, save, delete, and the status
  query `findByStatusIn`, modelled as a loop over the map's keys.
- `PlaceService` (`place_service.dfy`): the service operations. Each runtime
  exception becomes an `Error` value (`PlaceNotFound`,
  `OnlyValidatedCanBeRated`, `UserNotFound`), and a failing call leaves the
  store unchanged. The user repository becomes the set of known user ids.
- `PlaceController` (`place_controller.dfy`): the REST handlers. Each answers
  an `Outcome` (`Ok`, `Created`, `NoContent`, `Unauthorized`, `NotFound`,
  `Fail`), a body and the new store. A caller is reduced to a role. An
  unknown caller id makes the handler raise a runtime error, which surfaces
  as a server error: `Fail`.

Two store invariants are stated. Every service operation and every controller
handler that changes the store is shown to preserve them. Creation keeps
`AllInSync` only when the submitted place is itself in sync.

- `WellFormed`: every record is stored under its own id.
- `AllInSync`: every stored average is the mean of that place's ratings.

A new place's id is a parameter that is not yet in the store. It stands for
the id the database generates.

Three behaviours of the code are worth naming, because a reader might expect
otherwise:

- Creating a place forces only the status. Submitted ratings and a submitted
  average are stored as given
  (`service/PlaceService.java:39-42`, `controller/PlaceController.java:43-46`).
- The service's `deletePlace` is a plain `deleteById`, so an unknown id is
  ignored (`service/PlaceService.java:54-56`). The controller's delete answers
  NOT FOUND for an unknown id (`controller/PlaceController.java:96-101`).
- `ratePlace` performs no range check on the rating
  (`service/PlaceService.java:70-84`). The model accepts any integer.

## Model

| member | source | states |
|---|---|---|
| Places.NewPlace | points-interet-touristiques/src/main/java/ch/hearc/jee_project/pointsinterettouristiques/model/Place.java:30-37 | a new place has no id, status UNVALIDATED, no ratings and average 0.0, which is the mean of no ratings |
| Places.UpdateAverageRating | points-interet-touristiques/src/main/java/ch/hearc/jee_project/pointsinterettouristiques/model/Place.java:119-125 | the recomputed average is 0.0 for no ratings; otherwise average times count equals the sum; the list and every other field are unchanged |
| Places.AddRating | points-interet-touristiques/src/main/java/ch/hearc/jee_project/pointsinterettouristiques/model/Place.java:114-117 | the list grows by one, earlier ratings keep their order, the new rating is last, the average is sum over count again, and id, name, description, location, coordinates and status are unchanged |
| Places.SetStatus | points-interet-touristiques/src/main/java/ch/hearc/jee_project/pointsinterettouristiques/model/Place.java:92-94 | only the status changes |
| Places.CopyDetails | points-interet-touristiques/src/main/java/ch/hearc/jee_project/pointsinterettouristiques/model/Place.java:52-86 | the five editable fields are taken from the details; id, status, ratings and average are kept |
| Places.SumAppend | points-interet-touristiques/src/main/java/ch/hearc/jee_project/pointsinterettouristiques/model/Place.java:114-121 | appending a rating adds it to the total |
| Places.MeanBetween | points-interet-touristiques/src/main/java/ch/hearc/jee_project/pointsinterettouristiques/model/Place.java:119-121 | the mean of ratings that all lie in [lo, hi] lies in [lo, hi] |
| Places.AverageWithinRange | points-interet-touristiques/src/main/java/ch/hearc/jee_project/pointsinterettouristiques/model/Place.java:119-121 | for a non-empty list the recomputed average lies between the smallest and the largest rating |
| Places.AddRatingRunningMean | points-interet-touristiques/src/main/java/ch/hearc/jee_project/pointsinterettouristiques/model/Place.java:114-121 | on a place whose average is up to date, adding rating r over n ratings gives (old average * n + r) / (n + 1) |
| RatingLedger.ValuesContents | points-interet-touristiques/src/main/java/ch/hearc/jee_project/pointsinterettouristiques/service/PlaceService.java:87-92 | each rating is listed exactly as many times as there are raters who gave it, so the list holds one entry per rater and nothing else |
| RatingLedger.ValuesWithout | points-interet-touristiques/src/main/java/ch/hearc/jee_project/pointsinterettouristiques/service/PlaceService.java:102-106 | taking any one rater out of the ledger takes exactly that rater's rating out of the listed ratings, whichever rater it is |
| RatingLedger.ValuesCount | points-interet-touristiques/src/main/java/ch/hearc/jee_project/pointsinterettouristiques/service/PlaceService.java:87-92 | the number of times a rating is listed equals the number of raters who gave it |
| RatingLedger.TotalWithout | points-interet-touristiques/src/main/java/ch/hearc/jee_project/pointsinterettouristiques/service/PlaceService.java:102-106 | the total of a ledger is any one rater's rating plus the total of the other raters, whichever rater is taken out |
| RatingLedger.RecalculateAverageRating | points-interet-touristiques/src/main/java/ch/hearc/jee_project/pointsinterettouristiques/service/PlaceService.java:113-114 | afterwards the average is the mean of the ledger (0.0 when empty); ledger and details are unchanged |
| RatingLedger.AddOrUpdateRating | points-interet-touristiques/src/main/java/ch/hearc/jee_project/pointsinterettouristiques/service/PlaceService.java:81-83 | the user's entry becomes the new rating, other users' entries are unchanged, the rater count grows only for a new rater, and the average is in sync |
| RatingLedger.RemoveRating | points-interet-touristiques/src/main/java/ch/hearc/jee_project/pointsinterettouristiques/service/PlaceService.java:102-106 | the user's entry is gone, other entries are unchanged, the average is in sync, and a place without an entry for the user that was in sync is unchanged |
| RatingLedger.ClearRatings | points-interet-touristiques/src/main/java/ch/hearc/jee_project/pointsinterettouristiques/service/PlaceService.java:110-116 | the ledger is empty and the average is 0.0; the details are unchanged |
| RatingLedger.AverageAfterRating | points-interet-touristiques/src/main/java/ch/hearc/jee_project/pointsinterettouristiques/service/PlaceService.java:81-83 | after a user rates, the average is the mean of the other users' ratings plus the new one, whatever the user rated before |
| RatingLedger.AverageAfterRemoval | points-interet-touristiques/src/main/java/ch/hearc/jee_project/pointsinterettouristiques/service/PlaceService.java:102-106 | after removing one of several ratings, the average is (old total - removed rating) / (count - 1) |
| RatingLedger.LastWriteWins | points-interet-touristiques/src/test/java/ch/hearc/jee_project/pointsinterettouristiques/controller/PlaceControllerTest.java:510-528 | rating twice as the same user is the same as rating once with the second value |
| RatingLedger.ExampleSameUserRatesTwice | points-interet-touristiques/src/test/java/ch/hearc/jee_project/pointsinterettouristiques/controller/PlaceControllerTest.java:510-528 | one user rating 8 and then 7 leaves the list [7] and average 7.0 |
| RatingLedger.TwoRaterAverage | points-interet-touristiques/src/main/java/ch/hearc/jee_project/pointsinterettouristiques/service/PlaceService.java:81-83 | a ledger of two raters averages their two ratings |
| RatingLedger.ExampleTwoRaters | points-interet-touristiques/src/test/java/ch/hearc/jee_project/pointsinterettouristiques/controller/PlaceControllerTest.java:531-547 | two users rating 8 and 6 give average 7.0 |
| RatingLedger.ExampleRateThenRemove | points-interet-touristiques/src/main/java/ch/hearc/jee_project/pointsinterettouristiques/service/PlaceService.java:102-106 | ratings 5 and 10 average 7.5; removing either leaves the other as the average |
| PlaceRepository.FindByStatusIn | points-interet-touristiques/src/main/java/ch/hearc/jee_project/pointsinterettouristiques/repository/PlaceRepository.java:13-14 | every row is a stored place with a status in the set, every such stored place is listed, and there is one row per matching id |
| PlaceRepository.Save | points-interet-touristiques/src/main/java/ch/hearc/jee_project/pointsinterettouristiques/service/PlaceService.java:39-42 | the place is stored under its id, replacing any earlier version; other places are unchanged; well-formedness is kept |
| PlaceRepository.DeleteById | points-interet-touristiques/src/main/java/ch/hearc/jee_project/pointsinterettouristiques/service/PlaceService.java:54-56 | only the given id leaves the store, present or not |
| PlaceRepository.MatchingAll | points-interet-touristiques/src/main/java/ch/hearc/jee_project/pointsinterettouristiques/service/PlaceService.java:23-25 | a query over every status matches every stored id |
| PlaceService.GetAllPlaces | points-interet-touristiques/src/main/java/ch/hearc/jee_project/pointsinterettouristiques/service/PlaceService.java:23-25 | every stored place is listed, only stored places, one row per id |
| PlaceService.GetPlacesByStatus | points-interet-touristiques/src/main/java/ch/hearc/jee_project/pointsinterettouristiques/service/PlaceService.java:27-29 | exactly the stored places with the given status, one row per id |
| PlaceService.GetPlacesByStatuses | points-interet-touristiques/src/main/java/ch/hearc/jee_project/pointsinterettouristiques/service/PlaceService.java:31-33 | exactly the stored places whose status is in the given list, one row per id |
| PlaceService.GetPlaceById | points-interet-touristiques/src/main/java/ch/hearc/jee_project/pointsinterettouristiques/service/PlaceService.java:35-37 | succeeds with the stored place iff the id is stored, otherwise fails with PlaceNotFound |
| PlaceService.CreatePlace | points-interet-touristiques/src/main/java/ch/hearc/jee_project/pointsinterettouristiques/service/PlaceService.java:39-42 | the stored place is UNVALIDATED whatever was submitted, gets the new id, keeps every other submitted field, and no other place changes; WellFormed is kept, and AllInSync is kept when the submitted place is in sync |
| PlaceService.UpdatePlace | points-interet-touristiques/src/main/java/ch/hearc/jee_project/pointsinterettouristiques/service/PlaceService.java:44-52 | an unknown id fails with the store unchanged; otherwise exactly the five editable fields are overwritten, id, status, ratings and average are kept, and no other place changes |
| PlaceService.DeletePlace | points-interet-touristiques/src/main/java/ch/hearc/jee_project/pointsinterettouristiques/service/PlaceService.java:54-56 | only the given id is removed, with no error for an unknown id |
| PlaceService.Moderate | points-interet-touristiques/src/main/java/ch/hearc/jee_project/pointsinterettouristiques/service/PlaceService.java:58-68 | an unknown id fails with the store unchanged; otherwise the status becomes the given one, whatever it was, and nothing else changes |
| PlaceService.ValidatePlace | points-interet-touristiques/src/main/java/ch/hearc/jee_project/pointsinterettouristiques/service/PlaceService.java:58-62 | succeeds iff the id is stored, leaving the place VALIDATED |
| PlaceService.RejectPlace | points-interet-touristiques/src/main/java/ch/hearc/jee_project/pointsinterettouristiques/service/PlaceService.java:64-68 | succeeds iff the id is stored, leaving the place REJECTED |
| PlaceService.RatePlace | points-interet-touristiques/src/main/java/ch/hearc/jee_project/pointsinterettouristiques/service/PlaceService.java:70-84 | fails with PlaceNotFound, then OnlyValidatedCanBeRated, then UserNotFound, in that order, with the store unchanged; succeeds iff all three checks pass, and then records the user's latest rating, keeps other raters' ratings and puts the average in sync |
| PlaceService.GetRatings | points-interet-touristiques/src/main/java/ch/hearc/jee_project/pointsinterettouristiques/service/PlaceService.java:87-92 | fails iff the place is unknown; otherwise lists each rating exactly as many times as there are raters who gave it |
| PlaceService.GetAverageRating | points-interet-touristiques/src/main/java/ch/hearc/jee_project/pointsinterettouristiques/service/PlaceService.java:95-100 | fails iff the place is unknown; otherwise it is the place's stored average, which for a place in sync is the mean of its ratings, 0.0 without ratings |
| PlaceService.RemoveUserRatings | points-interet-touristiques/src/main/java/ch/hearc/jee_project/pointsinterettouristiques/service/PlaceService.java:102-108 | every stored place loses that user's rating and only it, and is in sync afterwards; places without such a rating that were in sync are unchanged |
| PlaceService.RemoveAllRatings | points-interet-touristiques/src/main/java/ch/hearc/jee_project/pointsinterettouristiques/service/PlaceService.java:110-117 | every stored place ends with no ratings and average 0.0; its details are unchanged |
| PlaceService.ValidateIdempotent | points-interet-touristiques/src/main/java/ch/hearc/jee_project/pointsinterettouristiques/service/PlaceService.java:58-62 | validating twice equals validating once |
| PlaceService.RejectIdempotent | points-interet-touristiques/src/main/java/ch/hearc/jee_project/pointsinterettouristiques/service/PlaceService.java:64-68 | rejecting twice equals rejecting once |
| PlaceService.ValidateThenReject | points-interet-touristiques/src/main/java/ch/hearc/jee_project/pointsinterettouristiques/service/PlaceService.java:58-68 | validate then reject leaves the same store as reject alone, with the place REJECTED |
| PlaceService.RejectThenValidate | points-interet-touristiques/src/main/java/ch/hearc/jee_project/pointsinterettouristiques/service/PlaceService.java:58-68 | reject then validate leaves the same store as validate alone, with the place VALIDATED |
| PlaceService.CreatedPlaceNotRateable | points-interet-touristiques/src/main/java/ch/hearc/jee_project/pointsinterettouristiques/service/PlaceService.java:70-76 | a freshly created place refuses ratings until it is validated |
| PlaceService.RateTwiceKeepsLatest | points-interet-touristiques/src/main/java/ch/hearc/jee_project/pointsinterettouristiques/service/PlaceService.java:81-83 | rating twice as the same user equals rating once with the second value, whatever the checks decide |
| PlaceService.ExampleTwoUsersRate | points-interet-touristiques/src/test/java/ch/hearc/jee_project/pointsinterettouristiques/controller/PlaceControllerTest.java:531-547 | two known users rating a validated place 8 and 6 give average 7.0 |
| PlaceService.ExampleSameUserRatesTwice | points-interet-touristiques/src/test/java/ch/hearc/jee_project/pointsinterettouristiques/controller/PlaceControllerTest.java:510-528 | one user rating 8 then 7 leaves the ratings [7] and average 7.0 |
| PlaceService.RemoveUserRatingsIdempotent | points-interet-touristiques/src/main/java/ch/hearc/jee_project/pointsinterettouristiques/service/PlaceService.java:102-108 | removing a user's ratings a second time changes nothing |
| PlaceService.NoAverageAfterRemoveAll | points-interet-touristiques/src/main/java/ch/hearc/jee_project/pointsinterettouristiques/service/PlaceService.java:110-117 | after every rating is removed, each stored place reports no ratings and average 0.0 |
| PlaceService.ExampleEmptyStore | points-interet-touristiques/src/test/java/ch/hearc/jee_project/pointsinterettouristiques/repository/PlaceRepositoryTest.java:80-90 | an empty store lists no places, for all places and by status |
| PlaceController.Gate | points-interet-touristiques/src/main/java/ch/hearc/jee_project/pointsinterettouristiques/controller/PlaceController.java:30-34 | an unknown caller fails, a non-administrator is unauthorized, and only an administrator goes on |
| PlaceController.GetAllPlaces | points-interet-touristiques/src/main/java/ch/hearc/jee_project/pointsinterettouristiques/controller/PlaceController.java:28-38 | fails for an unknown caller and is unauthorized for a non-administrator; lists every stored place for an administrator; never changes the store |
| PlaceController.ListForAdmin | points-interet-touristiques/src/main/java/ch/hearc/jee_project/pointsinterettouristiques/controller/PlaceController.java:114-150 | the gated status listing: Fail, Unauthorized, or exactly the matching places for an administrator; never changes the store |
| PlaceController.GetValidatedPlaces | points-interet-touristiques/src/main/java/ch/hearc/jee_project/pointsinterettouristiques/controller/PlaceController.java:107-111 | without a caller, answers OK with exactly the VALIDATED places |
| PlaceController.GetUnvalidatedPlaces | points-interet-touristiques/src/main/java/ch/hearc/jee_project/pointsinterettouristiques/controller/PlaceController.java:114-124 | an unknown caller fails and a known non-administrator is unauthorized, both with no body; an administrator gets exactly the UNVALIDATED places; the store is unchanged |
| PlaceController.GetRejectedPlaces | points-interet-touristiques/src/main/java/ch/hearc/jee_project/pointsinterettouristiques/controller/PlaceController.java:127-137 | an unknown caller fails and a known non-administrator is unauthorized, both with no body; an administrator gets exactly the REJECTED places; the store is unchanged |
| PlaceController.GetUnvalidatedAndRejectedPlaces | points-interet-touristiques/src/main/java/ch/hearc/jee_project/pointsinterettouristiques/controller/PlaceController.java:140-150 | an unknown caller fails and a known non-administrator is unauthorized, both with no body; an administrator gets exactly the UNVALIDATED and REJECTED places, none VALIDATED; the store is unchanged |
| PlaceController.CreatePlace | points-interet-touristiques/src/main/java/ch/hearc/jee_project/pointsinterettouristiques/controller/PlaceController.java:42-47 | without a caller, answers CREATED with the stored place, forced UNVALIDATED, every other submitted field kept; WellFormed is kept, and AllInSync is kept when the submitted place is in sync |
| PlaceController.GetPlaceById | points-interet-touristiques/src/main/java/ch/hearc/jee_project/pointsinterettouristiques/controller/PlaceController.java:50-61 | an unknown caller or place fails; otherwise OK with the place iff the caller is an administrator or the place is VALIDATED, else Unauthorized; the store is unchanged |
| PlaceController.UpdatePlace | points-interet-touristiques/src/main/java/ch/hearc/jee_project/pointsinterettouristiques/controller/PlaceController.java:65-84 | the caller check comes first; an administrator gets NOT FOUND with the store unchanged for an unknown place, else OK with exactly the five editable fields overwritten; both store invariants are kept |
| PlaceController.DeletePlace | points-interet-touristiques/src/main/java/ch/hearc/jee_project/pointsinterettouristiques/controller/PlaceController.java:88-102 | the caller check comes first; an administrator gets NOT FOUND for an unknown place, else NO CONTENT with just that place removed; both store invariants are kept |
| PlaceController.Moderate | points-interet-touristiques/src/main/java/ch/hearc/jee_project/pointsinterettouristiques/controller/PlaceController.java:153-183 | the caller check comes before the place lookup; for an administrator an unknown place fails, and a stored place gets the new status, differs from the stored one in nothing else, and is returned; both store invariants are kept |
| PlaceController.ValidatePlace | points-interet-touristiques/src/main/java/ch/hearc/jee_project/pointsinterettouristiques/controller/PlaceController.java:153-166 | OK iff an administrator names a stored place, which is then VALIDATED; otherwise the store is unchanged |
| PlaceController.RejectPlace | points-interet-touristiques/src/main/java/ch/hearc/jee_project/pointsinterettouristiques/controller/PlaceController.java:170-183 | OK iff an administrator names a stored place, which is then REJECTED; otherwise the store is unchanged |
| PlaceController.OnlyAdminsMutate | points-interet-touristiques/src/main/java/ch/hearc/jee_project/pointsinterettouristiques/controller/PlaceController.java:65-183 | a non-administrator's update, delete, validate or reject leaves the store unchanged |
| PlaceController.GateBeforeLookup | points-interet-touristiques/src/main/java/ch/hearc/jee_project/pointsinterettouristiques/controller/PlaceController.java:155-161 | for a place that does not exist, a member gets Unauthorized from validate and reject, and an unknown caller gets Fail from validate, update and delete |
| PlaceController.Visibility | points-interet-touristiques/src/main/java/ch/hearc/jee_project/pointsinterettouristiques/controller/PlaceController.java:56-60 | a member sees a stored place iff it is VALIDATED and is answered Unauthorized with no body otherwise; an administrator always sees it |
| PlaceController.CreateThenValidateThenView | points-interet-touristiques/src/test/java/ch/hearc/jee_project/pointsinterettouristiques/controller/PlaceControllerTest.java:275-295 | a newly created place is hidden from a member until an administrator validates it, and visible afterwards |

## Left out

- Persistence, web and serialization plumbing (JPA annotations, `ResponseEntity`, JSON) is not modelled. Its only trace is the map-shaped store and the `Outcome` values.
- Id generation is left out: a created place gets an id supplied as a parameter that is not in the store. An id the client submits is ignored. The persistence layer's merge on a client-chosen id is not modelled.
- Floating point is left out: averages are exact reals, and latitude and longitude are reals that are only copied. The `double` rounding of the Java average is not modelled.
- The rating is a Java `int` (`model/Place.java:114`, `service/PlaceService.java:70`). The model uses an unbounded integer, so it does not model the 32-bit width of that parameter. The average itself sums in a `long` (`IntStream.average`), so the code has no sum overflow to model.
- Concurrency is left out: the read-then-save race between two requests has no counterpart. Each operation is one atomic step.
- The rating range 1–10 is not modelled, and neither are the `/rate`, `/ratings`, `/average-rating` and paginated endpoints. None of them appears in the controller, and `ratePlace` checks no range.
- User management and authentication are left out (`UserController.java`, the security context). A caller is a role, and the user repository is a map or set of ids. Deleting a user is represented only by `PlaceService.RemoveUserRatings`.
- Seed data (`DataLoader.java`) is left out.
- The order of rows in a listing is left open. The database defines it, and the model promises only the set of rows and one row per id.
- The literal list `ratings` and its `addRating` (module `Places`) are modelled as the entity class declares them. The service's per-user ledger operations are not in that class, so module `RatingLedger` defines them from the service's calls and tests. The service's `getRatings` lists them by ascending user id, which is the model's own order.
- The plain setters `setRatings`, `setAverageRating` and `setId` are not separate operations. They appear only where the service and the controller use them: id assignment on save, and a submitted average kept at creation.
- The test `deletePlace_asAdmin_shouldDeletePlace` expects NOT FOUND for deleting an existing place, which contradicts the controller. The model follows the controller: NO CONTENT.
- PlaceService.RemoveUserRatings: a place without an entry for the user is stated unchanged only when its average was already in sync. The entity's `removeRating` is not in the entity class as written (`service/PlaceService.java:105` calls it); the model's `RemoveRating` always recomputes the average, so a stale stored average is overwritten.
