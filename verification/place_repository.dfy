/** The place store, seen through the repository interface the service and the
    controller use: lookup by id, save, delete, and the derived status queries
    `findByStatus` and `findByStatusIn`. The store is a finite map from id to
    record; the order in which a query lists its rows is left open.
 */
module PlaceRepository {
  import opened Places
  import opened RatingLedger

  type PlaceId = nat

  type Store = map<PlaceId, Record>

  /** Every stored record carries the id it is stored under. */
  ghost predicate WellFormed(store: Store)
  {
    forall k :: k in store ==> store[k].id == Some(k)
  }

  /** Every stored record's average is up to date with its ledger. */
  ghost predicate AllInSync(store: Store)
  {
    forall k :: k in store ==> InSync(store[k])
  }

  /** The ids of the stored places whose status is one of `statuses`. */
  ghost function Matching(store: Store, statuses: set<Status>): set<PlaceId>
  {
    MatchingAmong(store, store.Keys, statuses)
  }

  /** The ids among `keys` of stored places whose status is one of `statuses`. */
  ghost function MatchingAmong(store: Store, keys: set<PlaceId>, statuses: set<Status>): set<PlaceId>
  {
    set k | k in keys && k in store && store[k].status in statuses
  }

  /** Looks a place up by id. */
  function FindById(store: Store, id: PlaceId): (r: Option<Record>)
    ensures r.Some? <==> id in store
    ensures r.Some? ==> r.value == store[id]
  {
    if id in store then Some(store[id]) else None
  }

  /** Stores every place whose status is in `statuses`, each exactly once
      (one row per matching id), and nothing else. */
  method FindByStatusIn(store: Store, statuses: set<Status>) returns (rows: seq<Record>)
    ensures forall i :: 0 <= i < |rows| ==> rows[i] in store.Values && rows[i].status in statuses
    ensures forall k :: k in store && store[k].status in statuses ==> store[k] in rows
    ensures |rows| == |Matching(store, statuses)|
  {
    rows := [];
    var todo := store.Keys;
    while todo != {}
      invariant todo <= store.Keys
      invariant forall i :: 0 <= i < |rows| ==> rows[i] in store.Values && rows[i].status in statuses
      invariant forall k :: k in store && k !in todo && store[k].status in statuses ==> store[k] in rows
      invariant |rows| + |MatchingAmong(store, todo, statuses)| == |Matching(store, statuses)|
      decreases |todo|
    {
      var k :| k in todo;
      var p := store[k];
      if p.status in statuses {
        assert MatchingAmong(store, todo - {k}, statuses) == MatchingAmong(store, todo, statuses) - {k};
        assert p in store.Values;
        rows := rows + [p];
      } else {
        assert MatchingAmong(store, todo - {k}, statuses) == MatchingAmong(store, todo, statuses);
      }
      todo := todo - {k};
    }
  }

  /** Stores `p` under its own id, replacing any earlier version. */
  function Save(store: Store, p: Record): (r: Store)
    requires p.id.Some?
    ensures r.Keys == store.Keys + {p.id.value}
    ensures r[p.id.value] == p
    ensures forall k :: k in store && k != p.id.value ==> r[k] == store[k]
    ensures WellFormed(store) ==> WellFormed(r)
  {
    store[p.id.value := p]
  }

  /** Removes the place with the given id; nothing happens if there is none. */
  function DeleteById(store: Store, id: PlaceId): (r: Store)
    ensures r.Keys == store.Keys - {id}
    ensures forall k :: k in r ==> r[k] == store[k]
    ensures WellFormed(store) ==> WellFormed(r)
  {
    store - {id}
  }

  /** The set of every status: a query over it returns every stored place. */
  const AllStatuses: set<Status> := {Unvalidated, Validated, Rejected}

  /** Every status is one of the three. */
  lemma AnyStatus(s: Status)
    ensures s in AllStatuses
  {
    match s
    case Unvalidated =>
    case Validated =>
    case Rejected =>
  }

  lemma MatchingAll(store: Store)
    ensures Matching(store, AllStatuses) == store.Keys
  {
    forall k | k in store
      ensures store[k].status in AllStatuses
    {
      AnyStatus(store[k].status);
    }
  }

  /** A query over an empty store matches nothing. */
  lemma MatchingEmpty(statuses: set<Status>)
    ensures Matching(map[], statuses) == {}
  {
  }
}
