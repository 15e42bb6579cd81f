/** The per-user rating ledger of a place, as the service layer uses it.

    The service calls `addOrUpdateRating(user, rating)`, `removeRating(user)`
    and `recalculateAverageRating()` on a place, and its tests expect one user
    rating 8 and then 7 to leave the single rating 7. Those methods are not in
    the entity class as written, which only appends to a list. This module
    therefore models the ratings the service sees as a map from user id to
    that user's latest rating (last write wins). The list the service returns
    for a place is the ledger's values in ascending user id order, and the
    average is the list mean of module Places over that list.
 */
module RatingLedger {
  import opened Places

  type UserId = nat

  /** One rating per user. */
  type Ratings = map<UserId, int>

  /** A place as the service stores it. */
  type Record = Place<Ratings>

  /** `u` is the smallest id in `keys`. */
  predicate IsLeast(u: UserId, keys: set<UserId>)
  {
    u in keys && forall v :: v in keys ==> u <= v
  }

  lemma {:induction false} LeastExists(keys: set<UserId>)
    requires keys != {}
    ensures exists u :: IsLeast(u, keys)
  {
    var x :| x in keys;
    if keys == {x} {
      assert IsLeast(x, keys);
    } else {
      var rest := keys - {x};
      LeastExists(rest);
      var y :| IsLeast(y, rest);
      var least := if x <= y then x else y;
      forall v | v in keys
        ensures least <= v
      {
        if v != x {
          assert v in rest;
        }
      }
      assert IsLeast(least, keys);
    }
  }

  /** The rater with the smallest user id. */
  function FirstRater(m: Ratings): (u: UserId)
    requires m != map[]
    ensures IsLeast(u, m.Keys)
  {
    LeastExists(m.Keys);
    var u :| IsLeast(u, m.Keys);
    u
  }

  /** The ledger's ratings as a list, in ascending user id order. */
  function Values(m: Ratings): (s: seq<int>)
    ensures |s| == |m|
    decreases |m|
  {
    if m == map[] then []
    else
      var u := FirstRater(m);
      assert (m - {u}).Keys == m.Keys - {u};
      [m[u]] + Values(m - {u})
  }

  /** The mean of the current ledger values, 0.0 when there are none. */
  function Average(m: Ratings): real
  {
    Mean(Values(m))
  }

  /** The record's invariant: its stored average is the mean of its ledger. */
  predicate InSync(p: Record)
  {
    p.averageRating == Average(p.ratings)
  }

  /** The raters who gave rating `x`. */
  ghost function Raters(m: Ratings, x: int): set<UserId>
  {
    set u | u in m && m[u] == x
  }

  /** The listed values are exactly the ledger's values, each listed as many
      times as there are raters who gave it. */
  lemma {:induction false} ValuesContents(m: Ratings)
    ensures forall x :: multiset(Values(m))[x] == |Raters(m, x)|
    ensures forall u :: u in m ==> m[u] in Values(m)
    ensures forall x :: x in Values(m) ==> exists u :: u in m && m[u] == x
  {
    forall x
      ensures multiset(Values(m))[x] == |Raters(m, x)|
    {
      ValuesCount(m, x);
    }
    forall u | u in m
      ensures m[u] in Values(m)
    {
      assert u in Raters(m, m[u]);
    }
    forall x | x in Values(m)
      ensures exists u :: u in m && m[u] == x
    {
      assert multiset(Values(m))[x] > 0;
      var u :| u in Raters(m, x);
    }
  }

  /** How often rating `x` is listed: once per rater who gave it. */
  lemma {:induction false} ValuesCount(m: Ratings, x: int)
    ensures multiset(Values(m))[x] == |Raters(m, x)|
    decreases |m|
  {
    if m == map[] {
      assert Raters(m, x) == {};
    } else {
      var u := FirstRater(m);
      var rest := m - {u};
      assert rest.Keys == m.Keys - {u};
      assert multiset(Values(m)) == multiset{m[u]} + multiset(Values(rest)) by {
        assert Values(m) == [m[u]] + Values(rest);
      }
      ValuesCount(rest, x);
      RatersWithout(m, u, x);
    }
  }

  /** Taking rater `u` out removes `u` from the raters of its own rating only. */
  lemma RatersWithout(m: Ratings, u: UserId, x: int)
    requires u in m
    ensures |Raters(m, x)| == |Raters(m - {u}, x)| + (if m[u] == x then 1 else 0)
  {
    if m[u] == x {
      assert Raters(m, x) == Raters(m - {u}, x) + {u};
    } else {
      assert Raters(m, x) == Raters(m - {u}, x);
    }
  }

  /** Taking any one rater out of the ledger takes exactly that rating out of
      the list, whichever rater it is. */
  lemma {:induction false} ValuesWithout(m: Ratings, u: UserId)
    requires u in m
    ensures multiset(Values(m)) == multiset{m[u]} + multiset(Values(m - {u}))
    decreases |m|
  {
    var k := FirstRater(m);
    assert Values(m) == [m[k]] + Values(m - {k});
    if k != u {
      var rest := m - {k};
      assert rest.Keys == m.Keys - {k};
      ValuesWithout(rest, u);
      var others := m - {u};
      assert others != map[] && k in others;
      assert FirstRater(others) == k;
      assert others - {k} == rest - {u};
      assert Values(others) == [m[k]] + Values(rest - {u});
    }
  }

  /** The total of the ledger does not depend on which rater is taken out first:
      it is any one rater's rating plus the total of the others. */
  lemma {:induction false} TotalWithout(m: Ratings, u: UserId)
    requires u in m
    ensures Sum(Values(m)) == m[u] + Sum(Values(m - {u}))
    decreases |m|
  {
    var k := FirstRater(m);
    assert Values(m) == [m[k]] + Values(m - {k});
    assert ([m[k]] + Values(m - {k}))[1..] == Values(m - {k});
    if k != u {
      var rest := m - {k};
      assert rest.Keys == m.Keys - {k};
      TotalWithout(rest, u);
      var others := m - {u};
      assert others != map[] && k in others;
      assert FirstRater(others) == k;
      assert others - {k} == rest - {u};
      assert Values(others) == [m[k]] + Values(rest - {u});
      assert ([m[k]] + Values(rest - {u}))[1..] == Values(rest - {u});
    }
  }

  /** The ledger of a single rater lists exactly that rating. */
  lemma SingleRater(u: UserId, rating: int)
    ensures Values(map[u := rating]) == [rating]
    ensures Average(map[u := rating]) == rating as real
  {
    var m := map[u := rating];
    assert u in m;
    assert FirstRater(m) == u;
    assert m - {u} == map[];
    assert Values(m) == [rating];
    assert [rating][1..] == [];
    assert Sum([rating]) == rating;
  }

  // ---------------------------------------------------------------------------
  // Operations on a record's ledger; each recomputes the average.

  /** Recomputes the average from the current ledger; the record is in sync
      afterwards, with 0.0 for an empty ledger. */
  function RecalculateAverageRating(p: Record): (q: Record)
    ensures q.ratings == p.ratings && SameDetails(p, q)
    ensures InSync(q)
    ensures |p.ratings| == 0 ==> q.averageRating == 0.0
  {
    p.(averageRating := Average(p.ratings))
  }

  /** Records `rating` as user `u`'s rating, replacing any earlier one. */
  function AddOrUpdateRating(p: Record, u: UserId, rating: int): (q: Record)
    ensures u in q.ratings && q.ratings[u] == rating
    ensures q.ratings.Keys == p.ratings.Keys + {u}
    ensures forall v :: v in p.ratings && v != u ==> q.ratings[v] == p.ratings[v]
    ensures |q.ratings| == if u in p.ratings then |p.ratings| else |p.ratings| + 1
    ensures InSync(q)
    ensures SameDetails(p, q)
  {
    RecalculateAverageRating(p.(ratings := p.ratings[u := rating]))
  }

  /** Drops user `u`'s rating, if there is one. */
  function RemoveRating(p: Record, u: UserId): (q: Record)
    ensures q.ratings.Keys == p.ratings.Keys - {u}
    ensures forall v :: v in q.ratings ==> q.ratings[v] == p.ratings[v]
    ensures InSync(q)
    ensures SameDetails(p, q)
    ensures u !in p.ratings && InSync(p) ==> q == p
  {
    var m := p.ratings - {u};
    assert u !in p.ratings ==> m == p.ratings;
    RecalculateAverageRating(p.(ratings := m))
  }

  /** Empties the ledger and recomputes the average. */
  function ClearRatings(p: Record): (q: Record)
    ensures q.ratings == map[]
    ensures q.averageRating == 0.0
    ensures InSync(q)
    ensures SameDetails(p, q)
  {
    RecalculateAverageRating(p.(ratings := map[]))
  }

  /** Overwriting (or adding) user `u`'s rating: the ledger counts the other
      raters plus one. */
  lemma CountAfterOverwrite(m: Ratings, u: UserId, rating: int)
    ensures |m[u := rating]| == |m - {u}| + 1
  {
    assert m[u := rating].Keys == (m - {u}).Keys + {u};
  }

  /** Overwriting (or adding) user `u`'s rating: the ledger totals the other
      raters' ratings plus the new one. */
  lemma TotalAfterOverwrite(m: Ratings, u: UserId, rating: int)
    ensures Sum(Values(m[u := rating])) == Sum(Values(m - {u})) + rating
  {
    OverwriteThenDrop(m, u, rating);
    TotalWithout(m[u := rating], u);
  }

  lemma OverwriteThenDrop(m: Ratings, u: UserId, rating: int)
    ensures m[u := rating] - {u} == m - {u}
  {
  }

  /** After user `u` rates, the average is the mean of the other raters'
      ratings with the new rating appended, whatever `u` had rated before. */
  lemma AverageAfterRating(p: Record, u: UserId, rating: int)
    ensures AddOrUpdateRating(p, u, rating).averageRating
            == Mean(Values(p.ratings - {u}) + [rating])
  {
    var others := Values(p.ratings - {u});
    var after := Values(p.ratings[u := rating]);
    CountAfterOverwrite(p.ratings, u, rating);
    TotalAfterOverwrite(p.ratings, u, rating);
    SumAppend(others, rating);
    SameMean(after, others + [rating]);
    assert AddOrUpdateRating(p, u, rating).averageRating == Mean(after);
  }

  /** After user `u`'s rating is removed, the average is the mean of the
      remaining ratings: the old total minus that rating, over one fewer rater. */
  lemma AverageAfterRemoval(p: Record, u: UserId)
    requires u in p.ratings && |p.ratings| > 1
    ensures RemoveRating(p, u).averageRating
            == (Sum(Values(p.ratings)) - p.ratings[u]) as real / (|p.ratings| - 1) as real
  {
    var q := RemoveRating(p, u);
    assert |q.ratings| == |p.ratings| - 1 by {
      assert q.ratings.Keys == p.ratings.Keys - {u};
    }
    assert Sum(Values(q.ratings)) == Sum(Values(p.ratings)) - p.ratings[u] by {
      assert q.ratings == p.ratings - {u};
      TotalWithout(p.ratings, u);
    }
    AverageIs(q, Sum(Values(p.ratings)) - p.ratings[u], |p.ratings| - 1);
  }

  /** Rating twice as the same user keeps only the second rating. */
  lemma LastWriteWins(p: Record, u: UserId, first: int, second: int)
    ensures AddOrUpdateRating(AddOrUpdateRating(p, u, first), u, second)
         == AddOrUpdateRating(p, u, second)
  {
    assert p.ratings[u := first][u := second] == p.ratings[u := second];
  }

  /** On a place with no ratings, one user rating 8 and then 7 leaves the
      single rating 7 and an average of 7.0. */
  lemma ExampleSameUserRatesTwice(p: Record, u: UserId)
    requires p.ratings == map[]
    ensures var q := AddOrUpdateRating(AddOrUpdateRating(p, u, 8), u, 7);
            Values(q.ratings) == [7] && q.averageRating == 7.0
  {
    LastWriteWins(p, u, 8, 7);
    assert p.ratings[u := 7] == map[u := 7];
    SingleRater(u, 7);
  }

  /** A record whose average is up to date reports total / count. */
  lemma AverageIs(p: Record, total: int, n: nat)
    requires InSync(p)
    requires n > 0 && |p.ratings| == n && Sum(Values(p.ratings)) == total
    ensures p.averageRating == total as real / n as real
  {
    MeanOf(Values(p.ratings), total, n);
  }

  /** A ledger of two raters totals their two ratings. */
  lemma TwoRaters(u: UserId, v: UserId, a: int, b: int)
    requires u != v
    ensures |map[u := a, v := b]| == 2
    ensures Sum(Values(map[u := a, v := b])) == a + b
  {
    var m := map[u := a, v := b];
    assert |m| == 2 by {
      assert m.Keys == {u, v};
    }
    assert m - {u} == map[v := b];
    TotalWithout(m, u);
    SingleRater(v, b);
  }

  /** A ledger of two raters averages their two ratings. */
  lemma TwoRaterAverage(u: UserId, v: UserId, a: int, b: int)
    requires u != v
    ensures Average(map[u := a, v := b]) == (a + b) as real / 2.0
  {
    TwoRaters(u, v, a, b);
    MeanOf(Values(map[u := a, v := b]), a + b, 2);
  }

  /** On a place with no ratings, two users rating 8 and 6 give an average of 7.0. */
  lemma ExampleTwoRaters(p: Record, u: UserId, v: UserId)
    requires p.ratings == map[] && u != v
    ensures AddOrUpdateRating(AddOrUpdateRating(p, u, 8), v, 6).averageRating == 7.0
  {
    TwoRaterAverage(u, v, 8, 6);
  }

  /** Ratings 5 and 10 from two users average 7.5; removing one of them leaves
      the other as the average. */
  lemma ExampleRateThenRemove(p: Record, u: UserId, v: UserId)
    requires p.ratings == map[] && u != v
    ensures var q := AddOrUpdateRating(AddOrUpdateRating(p, u, 5), v, 10);
            && q.averageRating == 7.5
            && RemoveRating(q, u).averageRating == 10.0
            && RemoveRating(q, v).averageRating == 5.0
  {
    var q := AddOrUpdateRating(AddOrUpdateRating(p, u, 5), v, 10);
    TwoRaterAverage(u, v, 5, 10);
    SingleRater(v, 10);
    SingleRater(u, 5);
    assert RemoveRating(q, u).ratings == map[v := 10];
    assert RemoveRating(q, v).ratings == map[u := 5];
  }
}
