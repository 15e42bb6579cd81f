/** The place entity: its fields, their defaults at construction, the setters,
    and the rating list with its derived average.

    The entity is generic in how it stores ratings. The entity class as written
    keeps a plain list of integers (`Entity`); the service layer works with a
    per-user ledger instead (see module RatingLedger). Every other field and
    every setter is shared by both.
 */
module Places {

  datatype Option<T> = None | Some(value: T)

  /** Moderation state of a place. */
  datatype Status = Unvalidated | Validated | Rejected

  /** A point of interest. `id` is `None` until the store assigns one.
      Latitude and longitude are only ever copied, so they are kept as reals. */
  datatype Place<R> = Place(
    id: Option<nat>,
    name: string,
    description: string,
    location: string,
    latitude: real,
    longitude: real,
    ratings: R,
    averageRating: real,
    status: Status)

  /** The entity as the class declares it: ratings are a list of integers. */
  type Entity = Place<seq<int>>

  /** Sum of a list of ratings. */
  function Sum(s: seq<int>): int
  {
    if |s| == 0 then 0 else s[0] + Sum(s[1..])
  }

  /** Arithmetic mean of a list of ratings, and 0.0 for the empty list. */
  function Mean(s: seq<int>): real
  {
    if |s| == 0 then 0.0 else Sum(s) as real / |s| as real
  }

  /** The entity's invariant: its stored average is the mean of its ratings. */
  predicate AverageIsMean(p: Entity)
  {
    p.averageRating == Mean(p.ratings)
  }

  /** True when the two places agree on every field except ratings and average. */
  predicate SameDetails<R, S>(p: Place<R>, q: Place<S>)
  {
    && p.id == q.id
    && p.name == q.name
    && p.description == q.description
    && p.location == q.location
    && p.latitude == q.latitude
    && p.longitude == q.longitude
    && p.status == q.status
  }

  /** A freshly constructed place after its descriptive setters have run:
      no id yet, no ratings, average 0.0 and status UNVALIDATED. */
  function NewPlace(name: string, description: string, location: string,
                    latitude: real, longitude: real): (p: Entity)
    ensures p.id == None
    ensures p.status == Unvalidated
    ensures p.ratings == [] && p.averageRating == 0.0
    ensures AverageIsMean(p)
    ensures p.name == name && p.description == description && p.location == location
    ensures p.latitude == latitude && p.longitude == longitude
  {
    Place(None, name, description, location, latitude, longitude, [], 0.0, Unvalidated)
  }

  /** Recomputes the average from the rating list. */
  function UpdateAverageRating(p: Entity): (q: Entity)
    ensures |p.ratings| == 0 ==> q.averageRating == 0.0
    ensures |p.ratings| > 0 ==> q.averageRating * (|p.ratings| as real) == Sum(p.ratings) as real
    ensures q.ratings == p.ratings && SameDetails(p, q)
  {
    MeanTimesCount(p.ratings);
    p.(averageRating := Mean(p.ratings))
  }

  /** Appends one rating and recomputes the average. */
  function AddRating(p: Entity, rating: int): (q: Entity)
    ensures |q.ratings| == |p.ratings| + 1
    ensures q.ratings[..|p.ratings|] == p.ratings && q.ratings[|p.ratings|] == rating
    ensures q.averageRating * (|q.ratings| as real) == Sum(q.ratings) as real
    ensures AverageIsMean(q)
    ensures SameDetails(p, q)
  {
    UpdateAverageRating(p.(ratings := p.ratings + [rating]))
  }

  /** Overwrites the moderation status, whatever it was. */
  function SetStatus<R>(p: Place<R>, status: Status): (q: Place<R>)
    ensures q.status == status
    ensures q.id == p.id && q.name == p.name && q.description == p.description
    ensures q.location == p.location && q.latitude == p.latitude && q.longitude == p.longitude
    ensures q.ratings == p.ratings && q.averageRating == p.averageRating
  {
    p.(status := status)
  }

  /** Copies the five editable fields of `details` onto `p`: name, description,
      location, latitude and longitude, one setter each. */
  function CopyDetails<R, S>(p: Place<R>, details: Place<S>): (q: Place<R>)
    ensures q.name == details.name && q.description == details.description
    ensures q.location == details.location
    ensures q.latitude == details.latitude && q.longitude == details.longitude
    ensures q.id == p.id && q.status == p.status
    ensures q.ratings == p.ratings && q.averageRating == p.averageRating
  {
    p.(name := details.name, description := details.description, location := details.location,
       latitude := details.latitude, longitude := details.longitude)
  }

  // ---------------------------------------------------------------------------
  // Facts about sums and means of rating lists

  lemma MeanOf(s: seq<int>, total: int, n: nat)
    requires Sum(s) == total && |s| == n && n > 0
    ensures Mean(s) == total as real / n as real
  {
  }

  /** The mean times the count gives back the total. */
  lemma MeanTimesCount(s: seq<int>)
    ensures Mean(s) * (|s| as real) == Sum(s) as real
  {
  }

  /** The mean depends only on the total and the count. */
  lemma SameMean(s: seq<int>, t: seq<int>)
    requires Sum(s) == Sum(t) && |s| == |t|
    ensures Mean(s) == Mean(t)
  {
  }

  lemma {:induction false} SumAppend(s: seq<int>, x: int)
    ensures Sum(s + [x]) == Sum(s) + x
  {
    if |s| == 0 {
      assert s + [x] == [x];
      assert [x][1..] == [];
    } else {
      assert (s + [x])[1..] == s[1..] + [x];
      SumAppend(s[1..], x);
    }
  }

  /** Every rating lies in [lo, hi], so the sum lies in [n * lo, n * hi]. */
  lemma {:induction false} SumBounds(s: seq<int>, lo: int, hi: int)
    requires forall i :: 0 <= i < |s| ==> lo <= s[i] <= hi
    ensures |s| * lo <= Sum(s) <= |s| * hi
  {
    if |s| > 0 {
      assert forall i :: 0 <= i < |s[1..]| ==> s[1..][i] == s[i + 1];
      SumBounds(s[1..], lo, hi);
    }
  }

  /** The mean of a non-empty list of ratings in [lo, hi] lies in [lo, hi]. */
  lemma MeanBetween(s: seq<int>, lo: int, hi: int)
    requires |s| > 0
    requires forall i :: 0 <= i < |s| ==> lo <= s[i] <= hi
    ensures lo as real <= Mean(s) <= hi as real
  {
    SumBounds(s, lo, hi);
    QuotientBetween(Sum(s) as real, |s| as real, lo as real, hi as real);
  }

  /** A total between n * a and n * b, over a positive n, lies between a and b. */
  lemma QuotientBetween(total: real, n: real, a: real, b: real)
    requires n > 0.0 && n * a <= total <= n * b
    ensures a <= total / n <= b
  {
    var q := total / n;
    assert q * n == total;
    if q < a {
      ProductGrows(a - q, n);
    }
    if q > b {
      ProductGrows(q - b, n);
    }
  }

  lemma ProductGrows(x: real, y: real)
    requires x > 0.0 && y > 0.0
    ensures x * y > 0.0
  {
  }

  /** The smallest rating of a non-empty list. */
  function Min(s: seq<int>): (m: int)
    requires |s| > 0
    ensures m in s
    ensures forall i :: 0 <= i < |s| ==> m <= s[i]
  {
    if |s| == 1 then s[0]
    else
      var rest := Min(s[1..]);
      assert forall i :: 1 <= i < |s| ==> s[i] == s[1..][i - 1];
      if s[0] <= rest then s[0] else rest
  }

  /** The largest rating of a non-empty list. */
  function Max(s: seq<int>): (m: int)
    requires |s| > 0
    ensures m in s
    ensures forall i :: 0 <= i < |s| ==> s[i] <= m
  {
    if |s| == 1 then s[0]
    else
      var rest := Max(s[1..]);
      assert forall i :: 1 <= i < |s| ==> s[i] == s[1..][i - 1];
      if s[0] >= rest then s[0] else rest
  }

  /** For a non-empty list the recomputed average lies between its smallest
      and its largest rating. */
  lemma AverageWithinRange(p: Entity)
    requires |p.ratings| > 0
    ensures Min(p.ratings) as real <= UpdateAverageRating(p).averageRating <= Max(p.ratings) as real
  {
    MeanBetween(p.ratings, Min(p.ratings), Max(p.ratings));
  }

  /** Adding a rating to a place whose average is up to date moves the average
      the way a running mean does: (old * n + rating) / (n + 1). */
  lemma AddRatingRunningMean(p: Entity, rating: int)
    requires AverageIsMean(p)
    ensures AddRating(p, rating).averageRating
         == (p.averageRating * (|p.ratings| as real) + rating as real) / ((|p.ratings| + 1) as real)
  {
    SumAppend(p.ratings, rating);
    var n := |p.ratings| as real;
    if |p.ratings| > 0 {
      assert p.averageRating * n == Sum(p.ratings) as real;
    }
  }
}
