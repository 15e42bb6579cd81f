/** The place service: moderation (create, update, delete, validate, reject),
    per-user rating, the status listings, and bulk rating removal, as pure
    transitions over the store.

    Every operation that looks a place up by id fails with `PlaceNotFound`
    when the id is not stored, and a failing operation leaves the store as it
    was. The user repository is reduced to the set of known user ids.
 */
module PlaceService {
  import opened Places
  import opened RatingLedger
  import opened PlaceRepository

  /** The three runtime failures the service raises. */
  datatype Error = PlaceNotFound | OnlyValidatedCanBeRated | UserNotFound

  datatype Result<T> = Success(value: T) | Failure(error: Error)

  /** What an operation answers, together with the store it leaves behind. */
  datatype Step<T> = Step(result: Result<T>, store: Store)

  // ---------------------------------------------------------------------------
  // Listings

  /** Every stored place, each once. */
  method GetAllPlaces(store: Store) returns (rows: seq<Record>)
    ensures forall i :: 0 <= i < |rows| ==> rows[i] in store.Values
    ensures forall k :: k in store ==> store[k] in rows
    ensures |rows| == |store|
  {
    rows := FindByStatusIn(store, AllStatuses);
    MatchingAll(store);
    forall k | k in store
      ensures store[k] in rows
    {
      assert store[k].status in AllStatuses by {
        AnyStatus(store[k].status);
      }
    }
  }

  /** Exactly the stored places whose status is `status`. */
  method GetPlacesByStatus(store: Store, status: Status) returns (rows: seq<Record>)
    ensures forall i :: 0 <= i < |rows| ==> rows[i] in store.Values && rows[i].status == status
    ensures forall k :: k in store && store[k].status == status ==> store[k] in rows
    ensures |rows| == |Matching(store, {status})|
  {
    rows := FindByStatusIn(store, {status});
  }

  /** Exactly the stored places whose status occurs in `statuses`. */
  method GetPlacesByStatuses(store: Store, statuses: seq<Status>) returns (rows: seq<Record>)
    ensures forall i :: 0 <= i < |rows| ==> rows[i] in store.Values && rows[i].status in statuses
    ensures forall k :: k in store && store[k].status in statuses ==> store[k] in rows
    ensures |rows| == |Matching(store, set s | s in statuses)|
  {
    rows := FindByStatusIn(store, set s | s in statuses);
  }

  /** Looks a place up; an unknown id is an error. */
  function GetPlaceById(store: Store, id: PlaceId): (r: Result<Record>)
    ensures r.Success? <==> id in store
    ensures r.Failure? ==> r.error == PlaceNotFound
    ensures r.Success? ==> r.value == store[id]
  {
    match FindById(store, id)
    case None => Failure(PlaceNotFound)
    case Some(place) => Success(place)
  }

  // ---------------------------------------------------------------------------
  // Moderation

  /** Stores a submitted place under a new id the store assigns, always as
      UNVALIDATED; every other field is kept as submitted. */
  function CreatePlace(store: Store, place: Record, newId: PlaceId): (r: (Record, Store))
    requires newId !in store
    ensures r.0.status == Unvalidated
    ensures r.0.id == Some(newId)
    ensures r.0.name == place.name && r.0.description == place.description
    ensures r.0.location == place.location
    ensures r.0.latitude == place.latitude && r.0.longitude == place.longitude
    ensures r.0.ratings == place.ratings && r.0.averageRating == place.averageRating
    ensures r.1.Keys == store.Keys + {newId} && r.1[newId] == r.0
    ensures forall k :: k in store ==> r.1[k] == store[k]
    ensures WellFormed(store) ==> WellFormed(r.1)
    ensures AllInSync(store) && InSync(place) ==> AllInSync(r.1)
  {
    var saved := SetStatus(place.(id := Some(newId)), Unvalidated);
    (saved, Save(store, saved))
  }

  /** Overwrites the five editable fields of a stored place with those of
      `details`. */
  function UpdatePlace(store: Store, id: PlaceId, details: Record): (r: Step<Record>)
    ensures id !in store ==> r == Step(Failure(PlaceNotFound), store)
    ensures id in store ==> r.result.Success? && r.store.Keys == store.Keys && r.store[id] == r.result.value
    ensures id in store ==>
              var q := r.result.value;
              && q.name == details.name && q.description == details.description
              && q.location == details.location
              && q.latitude == details.latitude && q.longitude == details.longitude
              && q.id == store[id].id && q.status == store[id].status
              && q.ratings == store[id].ratings && q.averageRating == store[id].averageRating
    ensures forall k :: k in store && k != id ==> r.store[k] == store[k]
    ensures WellFormed(store) ==> WellFormed(r.store)
    ensures AllInSync(store) ==> AllInSync(r.store)
  {
    match GetPlaceById(store, id)
    case Failure(e) => Step(Failure(e), store)
    case Success(place) =>
      var updated := CopyDetails(place, details);
      Step(Success(updated), store[id := updated])
  }

  /** Deletes by id; an unknown id is silently ignored. */
  function DeletePlace(store: Store, id: PlaceId): (r: Store)
    ensures r.Keys == store.Keys - {id}
    ensures forall k :: k in r ==> r[k] == store[k]
    ensures WellFormed(store) ==> WellFormed(r)
    ensures AllInSync(store) ==> AllInSync(r)
  {
    DeleteById(store, id)
  }

  /** Sets the status of a stored place to `status`, whatever it was. */
  function Moderate(store: Store, id: PlaceId, status: Status): (r: Step<Record>)
    ensures id !in store ==> r == Step(Failure(PlaceNotFound), store)
    ensures id in store ==> r.result.Success? && r.result.value.status == status
    ensures id in store ==> r.store.Keys == store.Keys && r.store[id] == r.result.value
    ensures id in store ==>
              var q := r.result.value;
              && q.id == store[id].id && q.name == store[id].name
              && q.description == store[id].description && q.location == store[id].location
              && q.latitude == store[id].latitude && q.longitude == store[id].longitude
              && q.ratings == store[id].ratings && q.averageRating == store[id].averageRating
    ensures forall k :: k in store && k != id ==> r.store[k] == store[k]
    ensures WellFormed(store) ==> WellFormed(r.store)
    ensures AllInSync(store) ==> AllInSync(r.store)
  {
    match GetPlaceById(store, id)
    case Failure(e) => Step(Failure(e), store)
    case Success(place) =>
      var moderated := SetStatus(place, status);
      Step(Success(moderated), store[id := moderated])
  }

  /** Publishes a place. */
  function ValidatePlace(store: Store, id: PlaceId): (r: Step<Record>)
    ensures id in store <==> r.result.Success?
    ensures id in store ==> r.result.value.status == Validated && r.store.Keys == store.Keys && r.store[id] == r.result.value
    ensures id !in store ==> r.store == store
  {
    Moderate(store, id, Validated)
  }

  /** Refuses a place. */
  function RejectPlace(store: Store, id: PlaceId): (r: Step<Record>)
    ensures id in store <==> r.result.Success?
    ensures id in store ==> r.result.value.status == Rejected && r.store.Keys == store.Keys && r.store[id] == r.result.value
    ensures id !in store ==> r.store == store
  {
    Moderate(store, id, Rejected)
  }

  // ---------------------------------------------------------------------------
  // Ratings

  /** Records user `userId`'s rating of a place, replacing the user's earlier
      rating. The place must exist and be VALIDATED; only then is the user
      looked up. */
  function RatePlace(store: Store, users: set<UserId>, placeId: PlaceId, userId: UserId, rating: int): (r: Step<()>)
    ensures placeId !in store ==> r == Step(Failure(PlaceNotFound), store)
    ensures placeId in store && store[placeId].status != Validated
            ==> r == Step(Failure(OnlyValidatedCanBeRated), store)
    ensures placeId in store && store[placeId].status == Validated && userId !in users
            ==> r == Step(Failure(UserNotFound), store)
    ensures r.result.Success? <==> placeId in store && store[placeId].status == Validated && userId in users
    ensures r.result.Success? ==>
              && r.store.Keys == store.Keys
              && var q := r.store[placeId];
              && q.ratings.Keys == store[placeId].ratings.Keys + {userId}
              && q.ratings[userId] == rating
              && (forall v :: v in q.ratings && v != userId ==> q.ratings[v] == store[placeId].ratings[v])
              && InSync(q) && SameDetails(store[placeId], q)
    ensures forall k :: k in store && k != placeId ==> r.store[k] == store[k]
    ensures WellFormed(store) ==> WellFormed(r.store)
    ensures AllInSync(store) ==> AllInSync(r.store)
  {
    match GetPlaceById(store, placeId)
    case Failure(e) => Step(Failure(e), store)
    case Success(place) =>
      if place.status != Validated then Step(Failure(OnlyValidatedCanBeRated), store)
      else if userId !in users then Step(Failure(UserNotFound), store)
      else Step(Success(()), store[placeId := AddOrUpdateRating(place, userId, rating)])
  }

  /** The ratings of a place, one per rater. */
  function GetRatings(store: Store, id: PlaceId): (r: Result<seq<int>>)
    ensures r.Success? <==> id in store
    ensures r.Failure? ==> r.error == PlaceNotFound
    ensures r.Success? ==> |r.value| == |store[id].ratings|
    ensures r.Success? ==> forall u :: u in store[id].ratings ==> store[id].ratings[u] in r.value
    ensures r.Success? ==> forall x :: multiset(r.value)[x] == |Raters(store[id].ratings, x)|
  {
    match GetPlaceById(store, id)
    case Failure(e) => Failure(e)
    case Success(place) =>
      ValuesContents(place.ratings);
      Success(Values(place.ratings))
  }

  /** The stored average of a place; for a place in sync, the mean of its ratings. */
  function GetAverageRating(store: Store, id: PlaceId): (r: Result<real>)
    ensures r.Success? <==> id in store
    ensures r.Failure? ==> r.error == PlaceNotFound
    ensures r.Success? ==> r.value == store[id].averageRating
    ensures r.Success? && InSync(store[id]) ==> r.value == Mean(Values(store[id].ratings))
    ensures r.Success? && store[id].ratings == map[] ==> InSync(store[id]) ==> r.value == 0.0
  {
    match GetPlaceById(store, id)
    case Failure(e) => Failure(e)
    case Success(place) => Success(place.averageRating)
  }

  /** Drops user `u`'s rating from every stored place, as deleting a user does. */
  function RemoveUserRatings(store: Store, u: UserId): (r: Store)
    ensures r.Keys == store.Keys
    ensures forall k :: k in r ==> u !in r[k].ratings
    ensures forall k :: k in r ==> r[k].ratings.Keys == store[k].ratings.Keys - {u}
    ensures forall k, v :: k in r && v in r[k].ratings ==> r[k].ratings[v] == store[k].ratings[v]
    ensures forall k :: k in r ==> InSync(r[k]) && SameDetails(store[k], r[k])
    ensures forall k :: k in r && u !in store[k].ratings && InSync(store[k]) ==> r[k] == store[k]
    ensures WellFormed(store) ==> WellFormed(r)
  {
    map k | k in store :: RemoveRating(store[k], u)
  }

  /** Empties the ratings of every stored place. */
  function RemoveAllRatings(store: Store): (r: Store)
    ensures r.Keys == store.Keys
    ensures forall k :: k in r ==> r[k].ratings == map[] && r[k].averageRating == 0.0
    ensures forall k :: k in r ==> SameDetails(store[k], r[k])
    ensures AllInSync(r)
    ensures WellFormed(store) ==> WellFormed(r)
  {
    map k | k in store :: ClearRatings(store[k])
  }

  // ---------------------------------------------------------------------------
  // Properties relating several calls

  /** Storing twice under one id keeps only the second record. */
  lemma StoreTwice(store: Store, id: PlaceId, a: Record, b: Record)
    ensures store[id := a][id := b] == store[id := b]
  {
  }

  /** Storing a place's own record again changes nothing. */
  lemma StoreSame(store: Store, id: PlaceId)
    requires id in store
    ensures store[id := store[id]] == store
  {
  }

  /** Validating twice is validating once. */
  lemma ValidateIdempotent(store: Store, id: PlaceId)
    ensures ValidatePlace(ValidatePlace(store, id).store, id) == ValidatePlace(store, id)
  {
    if id in store {
      StoreSame(ValidatePlace(store, id).store, id);
    }
  }

  /** Rejecting twice is rejecting once. */
  lemma RejectIdempotent(store: Store, id: PlaceId)
    ensures RejectPlace(RejectPlace(store, id).store, id) == RejectPlace(store, id)
  {
    if id in store {
      StoreSame(RejectPlace(store, id).store, id);
    }
  }

  /** Moderation overwrites: a reject after a validate leaves the same store
      as the reject alone, with the place REJECTED. */
  lemma ValidateThenReject(store: Store, id: PlaceId)
    ensures RejectPlace(ValidatePlace(store, id).store, id).store == RejectPlace(store, id).store
    ensures id in store ==> RejectPlace(ValidatePlace(store, id).store, id).store[id].status == Rejected
  {
    if id in store {
      StoreTwice(store, id, SetStatus(store[id], Validated), SetStatus(store[id], Rejected));
    }
  }

  /** And a validate after a reject leaves the same store as the validate alone. */
  lemma RejectThenValidate(store: Store, id: PlaceId)
    ensures ValidatePlace(RejectPlace(store, id).store, id).store == ValidatePlace(store, id).store
    ensures id in store ==> ValidatePlace(RejectPlace(store, id).store, id).store[id].status == Validated
  {
    if id in store {
      StoreTwice(store, id, SetStatus(store[id], Rejected), SetStatus(store[id], Validated));
    }
  }

  /** A place freshly created is not rateable until it is validated. */
  lemma CreatedPlaceNotRateable(store: Store, place: Record, newId: PlaceId,
                                users: set<UserId>, userId: UserId, rating: int)
    requires newId !in store
    ensures var s := CreatePlace(store, place, newId).1;
            RatePlace(s, users, newId, userId, rating) == Step(Failure(OnlyValidatedCanBeRated), s)
  {
  }

  /** One user rating a validated place twice keeps only the second rating. */
  lemma RateTwiceKeepsLatest(store: Store, users: set<UserId>, placeId: PlaceId,
                             userId: UserId, first: int, second: int)
    ensures var once := RatePlace(store, users, placeId, userId, first).store;
            RatePlace(once, users, placeId, userId, second) == RatePlace(store, users, placeId, userId, second)
  {
    if placeId in store && store[placeId].status == Validated && userId in users {
      var p := store[placeId];
      LastWriteWins(p, userId, first, second);
      StoreTwice(store, placeId, AddOrUpdateRating(p, userId, first), AddOrUpdateRating(p, userId, second));
    }
  }

  /** On a validated place without ratings, two known users rating 8 and 6
      leave an average of 7.0. */
  lemma ExampleTwoUsersRate(store: Store, users: set<UserId>, placeId: PlaceId, u: UserId, v: UserId)
    requires placeId in store && store[placeId].status == Validated && store[placeId].ratings == map[]
    requires u in users && v in users && u != v
    ensures var once := RatePlace(store, users, placeId, u, 8).store;
            var twice := RatePlace(once, users, placeId, v, 6).store;
            GetAverageRating(twice, placeId) == Success(7.0)
  {
    ExampleTwoRaters(store[placeId], u, v);
  }

  /** On a validated place without ratings, one user rating 8 and then 7
      leaves the single rating 7. */
  lemma ExampleSameUserRatesTwice(store: Store, users: set<UserId>, placeId: PlaceId, u: UserId)
    requires placeId in store && store[placeId].status == Validated && store[placeId].ratings == map[]
    requires u in users
    ensures var once := RatePlace(store, users, placeId, u, 8).store;
            var twice := RatePlace(once, users, placeId, u, 7).store;
            GetRatings(twice, placeId) == Success([7]) && GetAverageRating(twice, placeId) == Success(7.0)
  {
    RateTwiceKeepsLatest(store, users, placeId, u, 8, 7);
    RatingLedger.ExampleSameUserRatesTwice(store[placeId], u);
  }

  /** Removing a user's ratings leaves no place rated by that user, and a
      second removal changes nothing. */
  lemma RemoveUserRatingsIdempotent(store: Store, u: UserId)
    ensures RemoveUserRatings(RemoveUserRatings(store, u), u) == RemoveUserRatings(store, u)
  {
  }

  /** After every rating is removed, every stored place reports an average of 0.0. */
  lemma NoAverageAfterRemoveAll(store: Store, id: PlaceId)
    requires id in store
    ensures GetAverageRating(RemoveAllRatings(store), id) == Success(0.0)
    ensures GetRatings(RemoveAllRatings(store), id) == Success([])
  {
  }

  /** An empty store lists nothing. */
  method ExampleEmptyStore() returns (all: seq<Record>, validated: seq<Record>)
    ensures all == [] && validated == []
  {
    all := GetAllPlaces(map[]);
    validated := GetPlacesByStatus(map[], Validated);
    MatchingEmpty({Validated});
  }
}
