/** The HTTP handlers for places, reduced to their decisions: who may call
    them, what they answer, and the store they leave behind.

    Every handler that takes a caller id first looks the caller up; an unknown
    caller raises a runtime error, which the web layer turns into a server
    error (`Fail`). A caller is reduced to a role. Every listing and every
    mutating handler but the create and the validated listing is reserved to
    administrators and answers `Unauthorized` to anyone else, without
    touching the store. Looking one place up is open to every known caller,
    but only an administrator sees a place that is not published.
 */
module PlaceController {
  import opened Places
  import opened RatingLedger
  import opened PlaceRepository

  datatype Role = Admin | Member

  /** The user repository, reduced to each known user's role. */
  type Users = map<UserId, Role>

  /** The HTTP status a handler answers with. */
  datatype Outcome = Ok | Created | NoContent | Unauthorized | NotFound | Fail

  datatype Body = NoBody | OnePlace(place: Record) | PlaceList(places: seq<Record>)

  /** A handler's answer and the store it leaves behind. */
  datatype Reply = Reply(outcome: Outcome, body: Body, store: Store)

  predicate IsAdmin(users: Users, userId: UserId)
  {
    userId in users && users[userId] == Admin
  }

  /** The answer of a handler that does not get past its caller checks:
      `Fail` for an unknown caller, `Unauthorized` for a non-administrator,
      and `None` for an administrator, who goes on. */
  function Gate(users: Users, userId: UserId, store: Store): (r: Option<Reply>)
    ensures r.None? <==> IsAdmin(users, userId)
    ensures userId !in users ==> r == Some(Reply(Fail, NoBody, store))
    ensures userId in users && !IsAdmin(users, userId) ==> r == Some(Reply(Unauthorized, NoBody, store))
  {
    if userId !in users then Some(Reply(Fail, NoBody, store))
    else if users[userId] != Admin then Some(Reply(Unauthorized, NoBody, store))
    else None
  }

  // ---------------------------------------------------------------------------
  // Listings

  /** Every place, for administrators only. */
  method GetAllPlaces(store: Store, users: Users, userId: UserId) returns (reply: Reply)
    ensures reply.store == store
    ensures userId !in users ==> reply == Reply(Fail, NoBody, store)
    ensures userId in users && !IsAdmin(users, userId) ==> reply == Reply(Unauthorized, NoBody, store)
    ensures IsAdmin(users, userId) ==>
              && reply.outcome == Ok && reply.body.PlaceList?
              && (forall i :: 0 <= i < |reply.body.places| ==> reply.body.places[i] in store.Values)
              && (forall k :: k in store ==> store[k] in reply.body.places)
              && |reply.body.places| == |store|
  {
    var gate := Gate(users, userId, store);
    if gate.Some? {
      return gate.value;
    }
    var rows := FindByStatusIn(store, AllStatuses);
    MatchingAll(store);
    forall k | k in store
      ensures store[k] in rows
    {
      AnyStatus(store[k].status);
    }
    reply := Reply(Ok, PlaceList(rows), store);
  }

  /** The places whose status is in `statuses`, for administrators only. */
  method ListForAdmin(store: Store, users: Users, userId: UserId, statuses: set<Status>) returns (reply: Reply)
    ensures reply.store == store
    ensures userId !in users ==> reply == Reply(Fail, NoBody, store)
    ensures userId in users && !IsAdmin(users, userId) ==> reply == Reply(Unauthorized, NoBody, store)
    ensures IsAdmin(users, userId) ==>
              && reply.outcome == Ok && reply.body.PlaceList?
              && ExactlyMatching(reply.body.places, store, statuses)
  {
    var gate := Gate(users, userId, store);
    if gate.Some? {
      return gate.value;
    }
    var rows := FindByStatusIn(store, statuses);
    reply := Reply(Ok, PlaceList(rows), store);
  }

  /** `rows` lists the stored places whose status is in `statuses`, each
      matching id once, and nothing else. */
  ghost predicate ExactlyMatching(rows: seq<Record>, store: Store, statuses: set<Status>)
  {
    && (forall i :: 0 <= i < |rows| ==> rows[i] in store.Values && rows[i].status in statuses)
    && (forall k :: k in store && store[k].status in statuses ==> store[k] in rows)
    && |rows| == |Matching(store, statuses)|
  }

  /** The validated places, for anyone: no caller is asked for. */
  method GetValidatedPlaces(store: Store) returns (reply: Reply)
    ensures reply.store == store && reply.outcome == Ok && reply.body.PlaceList?
    ensures forall i :: 0 <= i < |reply.body.places| ==>
              reply.body.places[i] in store.Values && reply.body.places[i].status == Validated
    ensures forall k :: k in store && store[k].status == Validated ==> store[k] in reply.body.places
    ensures |reply.body.places| == |Matching(store, {Validated})|
  {
    var rows := FindByStatusIn(store, {Validated});
    reply := Reply(Ok, PlaceList(rows), store);
  }

  /** The places awaiting moderation, for administrators only. */
  method GetUnvalidatedPlaces(store: Store, users: Users, userId: UserId) returns (reply: Reply)
    ensures reply.store == store
    ensures userId !in users ==> reply == Reply(Fail, NoBody, store)
    ensures userId in users && !IsAdmin(users, userId) ==> reply == Reply(Unauthorized, NoBody, store)
    ensures IsAdmin(users, userId) ==>
              reply.outcome == Ok && reply.body.PlaceList? && ExactlyMatching(reply.body.places, store, {Unvalidated})
  {
    reply := ListForAdmin(store, users, userId, {Unvalidated});
  }

  /** The refused places, for administrators only. */
  method GetRejectedPlaces(store: Store, users: Users, userId: UserId) returns (reply: Reply)
    ensures reply.store == store
    ensures userId !in users ==> reply == Reply(Fail, NoBody, store)
    ensures userId in users && !IsAdmin(users, userId) ==> reply == Reply(Unauthorized, NoBody, store)
    ensures IsAdmin(users, userId) ==>
              reply.outcome == Ok && reply.body.PlaceList? && ExactlyMatching(reply.body.places, store, {Rejected})
  {
    reply := ListForAdmin(store, users, userId, {Rejected});
  }

  /** The places not published, awaiting moderation or refused, for
      administrators only. */
  method GetUnvalidatedAndRejectedPlaces(store: Store, users: Users, userId: UserId) returns (reply: Reply)
    ensures reply.store == store
    ensures userId !in users ==> reply == Reply(Fail, NoBody, store)
    ensures userId in users && !IsAdmin(users, userId) ==> reply == Reply(Unauthorized, NoBody, store)
    ensures IsAdmin(users, userId) ==>
              && reply.outcome == Ok && reply.body.PlaceList?
              && ExactlyMatching(reply.body.places, store, {Unvalidated, Rejected})
              && forall i :: 0 <= i < |reply.body.places| ==> reply.body.places[i].status != Validated
  {
    reply := ListForAdmin(store, users, userId, {Unvalidated, Rejected});
  }

  // ---------------------------------------------------------------------------
  // Single places

  /** Stores a submitted place under a new id, always as UNVALIDATED, and
      answers CREATED with the stored place. No caller is asked for. */
  function CreatePlace(store: Store, place: Record, newId: PlaceId): (r: Reply)
    requires newId !in store
    ensures r.outcome == Created && r.body.OnePlace?
    ensures r.body.place.status == Unvalidated && r.body.place.id == Some(newId)
    ensures r.body.place.name == place.name && r.body.place.description == place.description
    ensures r.body.place.location == place.location
    ensures r.body.place.latitude == place.latitude && r.body.place.longitude == place.longitude
    ensures r.body.place.ratings == place.ratings && r.body.place.averageRating == place.averageRating
    ensures r.store.Keys == store.Keys + {newId} && r.store[newId] == r.body.place
    ensures forall k :: k in store ==> r.store[k] == store[k]
    ensures WellFormed(store) ==> WellFormed(r.store)
    ensures AllInSync(store) && InSync(place) ==> AllInSync(r.store)
  {
    var saved := SetStatus(place.(id := Some(newId)), Unvalidated);
    Reply(Created, OnePlace(saved), Save(store, saved))
  }

  /** A known caller sees a stored place when the caller is an administrator
      or the place is published. */
  function GetPlaceById(store: Store, users: Users, id: PlaceId, userId: UserId): (r: Reply)
    ensures r.store == store
    ensures userId !in users || id !in store ==> r.outcome == Fail && r.body == NoBody
    ensures userId in users && id in store ==>
              (r.outcome == Ok <==> IsAdmin(users, userId) || store[id].status == Validated)
    ensures r.outcome == Ok ==> r.body == OnePlace(store[id])
    ensures r.outcome != Ok ==> r.body == NoBody && r.outcome in {Fail, Unauthorized}
    ensures userId in users && id in store && !IsAdmin(users, userId) && store[id].status != Validated ==>
              r == Reply(Unauthorized, NoBody, store)
  {
    if userId !in users then Reply(Fail, NoBody, store)
    else match FindById(store, id)
      case None => Reply(Fail, NoBody, store)
      case Some(place) =>
        if users[userId] == Admin || place.status == Validated then Reply(Ok, OnePlace(place), store)
        else Reply(Unauthorized, NoBody, store)
  }

  /** Overwrites the five editable fields of a stored place, for
      administrators only; an unknown place is NOT FOUND. */
  function UpdatePlace(store: Store, users: Users, id: PlaceId, userId: UserId, details: Record): (r: Reply)
    ensures !IsAdmin(users, userId) ==> r == Gate(users, userId, store).value
    ensures IsAdmin(users, userId) && id !in store ==> r == Reply(NotFound, NoBody, store)
    ensures IsAdmin(users, userId) && id in store ==>
              && r.outcome == Ok && r.body.OnePlace?
              && r.store.Keys == store.Keys && r.store[id] == r.body.place
              && var q := r.body.place;
              && q.name == details.name && q.description == details.description
              && q.location == details.location
              && q.latitude == details.latitude && q.longitude == details.longitude
              && q.id == store[id].id && q.status == store[id].status
              && q.ratings == store[id].ratings && q.averageRating == store[id].averageRating
    ensures forall k :: k in store && k != id ==> r.store[k] == store[k]
    ensures WellFormed(store) ==> WellFormed(r.store)
    ensures AllInSync(store) ==> AllInSync(r.store)
  {
    match Gate(users, userId, store)
    case Some(refused) => refused
    case None =>
      match FindById(store, id)
      case None => Reply(NotFound, NoBody, store)
      case Some(place) =>
        var updated := CopyDetails(place, details);
        Reply(Ok, OnePlace(updated), store[id := updated])
  }

  /** Deletes a stored place, for administrators only; an unknown place is
      NOT FOUND. */
  function DeletePlace(store: Store, users: Users, id: PlaceId, userId: UserId): (r: Reply)
    ensures !IsAdmin(users, userId) ==> r == Gate(users, userId, store).value
    ensures IsAdmin(users, userId) && id !in store ==> r == Reply(NotFound, NoBody, store)
    ensures IsAdmin(users, userId) && id in store ==> r.outcome == NoContent && r.body == NoBody
    ensures r.store.Keys == if r.outcome == NoContent then store.Keys - {id} else store.Keys
    ensures forall k :: k in r.store ==> r.store[k] == store[k]
    ensures WellFormed(store) ==> WellFormed(r.store)
    ensures AllInSync(store) ==> AllInSync(r.store)
  {
    match Gate(users, userId, store)
    case Some(refused) => refused
    case None =>
      match FindById(store, id)
      case None => Reply(NotFound, NoBody, store)
      case Some(_) => Reply(NoContent, NoBody, DeleteById(store, id))
  }

  /** Sets a stored place's status, for administrators only. The caller check
      comes first; an unknown place then raises a runtime error. */
  function Moderate(store: Store, users: Users, id: PlaceId, userId: UserId, status: Status): (r: Reply)
    ensures !IsAdmin(users, userId) ==> r == Gate(users, userId, store).value
    ensures IsAdmin(users, userId) && id !in store ==> r == Reply(Fail, NoBody, store)
    ensures IsAdmin(users, userId) && id in store ==>
              && r.outcome == Ok && r.body.OnePlace?
              && r.body.place.status == status
              && SetStatus(r.body.place, store[id].status) == store[id]
              && r.store.Keys == store.Keys && r.store[id] == r.body.place
    ensures forall k :: k in store && k != id ==> r.store[k] == store[k]
    ensures WellFormed(store) ==> WellFormed(r.store)
    ensures AllInSync(store) ==> AllInSync(r.store)
  {
    match Gate(users, userId, store)
    case Some(refused) => refused
    case None =>
      match FindById(store, id)
      case None => Reply(Fail, NoBody, store)
      case Some(place) =>
        var moderated := SetStatus(place, status);
        Reply(Ok, OnePlace(moderated), store[id := moderated])
  }

  /** Publishes a place. */
  function ValidatePlace(store: Store, users: Users, id: PlaceId, userId: UserId): (r: Reply)
    ensures r.outcome == Ok <==> IsAdmin(users, userId) && id in store
    ensures r.outcome == Ok ==> r.body.OnePlace? && r.body.place.status == Validated && id in r.store && r.store[id] == r.body.place
    ensures r.outcome != Ok ==> r.store == store
  {
    Moderate(store, users, id, userId, Validated)
  }

  /** Refuses a place. */
  function RejectPlace(store: Store, users: Users, id: PlaceId, userId: UserId): (r: Reply)
    ensures r.outcome == Ok <==> IsAdmin(users, userId) && id in store
    ensures r.outcome == Ok ==> r.body.OnePlace? && r.body.place.status == Rejected && id in r.store && r.store[id] == r.body.place
    ensures r.outcome != Ok ==> r.store == store
  {
    Moderate(store, users, id, userId, Rejected)
  }

  // ---------------------------------------------------------------------------
  // Properties across handlers

  /** Only an administrator changes the store through update, delete,
      validate or reject. */
  lemma OnlyAdminsMutate(store: Store, users: Users, id: PlaceId, userId: UserId, details: Record)
    requires !IsAdmin(users, userId)
    ensures UpdatePlace(store, users, id, userId, details).store == store
    ensures DeletePlace(store, users, id, userId).store == store
    ensures ValidatePlace(store, users, id, userId).store == store
    ensures RejectPlace(store, users, id, userId).store == store
  {
  }

  /** A non-administrator is refused validate and reject even for a place
      that does not exist, and an unknown caller fails before any lookup. */
  lemma GateBeforeLookup(store: Store, users: Users, id: PlaceId, userId: UserId, details: Record)
    requires id !in store
    ensures userId in users && users[userId] == Member ==>
              ValidatePlace(store, users, id, userId).outcome == Unauthorized
              && RejectPlace(store, users, id, userId).outcome == Unauthorized
    ensures userId !in users ==>
              ValidatePlace(store, users, id, userId).outcome == Fail
              && UpdatePlace(store, users, id, userId, details).outcome == Fail
              && DeletePlace(store, users, id, userId).outcome == Fail
  {
  }

  /** A member sees exactly the published places; an administrator sees every
      stored place. */
  lemma Visibility(store: Store, users: Users, id: PlaceId, userId: UserId)
    requires userId in users && id in store
    ensures users[userId] == Member ==>
              (GetPlaceById(store, users, id, userId).outcome == Ok <==> store[id].status == Validated)
    ensures users[userId] == Member && store[id].status != Validated ==>
              GetPlaceById(store, users, id, userId) == Reply(Unauthorized, NoBody, store)
    ensures users[userId] == Admin ==> GetPlaceById(store, users, id, userId).body == OnePlace(store[id])
  {
  }

  /** A place created by anyone stays hidden from members until an
      administrator validates it, and is then visible to them. */
  lemma CreateThenValidateThenView(store: Store, users: Users, place: Record, newId: PlaceId,
                                   admin: UserId, member: UserId)
    requires newId !in store
    requires admin in users && users[admin] == Admin
    requires member in users && users[member] == Member
    ensures var created := CreatePlace(store, place, newId).store;
            && GetPlaceById(created, users, newId, member).outcome == Unauthorized
            && var published := ValidatePlace(created, users, newId, admin).store;
            && GetPlaceById(published, users, newId, member).outcome == Ok
  {
  }
}
