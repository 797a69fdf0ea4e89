/**
 * server/controller/userController.js: the signed-in user's document with its
 * bounded list of recently searched cities, and the read of its role and
 * cities.
 */
module UserController {

  /** How many recent cities the list keeps. */
  const RecentCapacity: nat := 3

  /** The list after one search: below capacity the city is pushed; at or
      above it the oldest entry is shifted out first. */
  function PushRecent(cities: seq<string>, city: string): (r: seq<string>)
    ensures |r| > 0 && r[|r| - 1] == city
    ensures |r| == if |cities| < RecentCapacity then |cities| + 1 else |cities|
    ensures r[..|r| - 1] == cities[|cities| + 1 - |r|..]
  {
    if |cities| < RecentCapacity then cities + [city] else cities[1..] + [city]
  }

  /** The list after a series of searches, one call per city. */
  function PushAll(cities: seq<string>, searches: seq<string>): seq<string>
    decreases |searches|
  {
    if searches == [] then cities
    else PushAll(PushRecent(cities, searches[0]), searches[1..])
  }

  /** The last n entries of a sequence (all of it when it is shorter). */
  function LastN(s: seq<string>, n: nat): (r: seq<string>)
    ensures |r| == if |s| < n then |s| else n
  {
    if |s| < n then s else s[|s| - n..]
  }

  /** The new list is the old one with the city appended, minus its first
      entry exactly when the old list was at capacity or above. */
  lemma PushRecentCases(cities: seq<string>, city: string)
    ensures |cities| < RecentCapacity ==> PushRecent(cities, city) == cities + [city]
    ensures |cities| >= RecentCapacity ==> PushRecent(cities, city) == (cities + [city])[1..]
  {
    var r := PushRecent(cities, city);
    assert r == r[..|r| - 1] + [r[|r| - 1]];
  }

  /** A list within capacity stays within capacity. */
  lemma PushRecentBounded(cities: seq<string>, city: string)
    requires |cities| <= RecentCapacity
    ensures |PushRecent(cities, city)| <= RecentCapacity
  {
  }

  /** No de-duplication: searching a city already in the list adds another
      copy of it, unless the copy that was shifted out was that same city. */
  lemma PushRecentKeepsDuplicates(cities: seq<string>, city: string)
    ensures var r := PushRecent(cities, city);
            multiset(r)[city] == multiset(cities)[city] + 1
              - (if |cities| >= RecentCapacity && cities[0] == city then 1 else 0)
  {
    if |cities| >= RecentCapacity {
      assert cities == [cities[0]] + cities[1..];
    }
  }

  /** Within capacity, one push keeps exactly the last three entries. */
  lemma PushRecentIsLastN(cities: seq<string>, city: string)
    requires |cities| <= RecentCapacity
    ensures PushRecent(cities, city) == LastN(cities + [city], RecentCapacity)
  {
  }

  /** Keeping the last n entries early does not change the last n entries
      kept later. */
  lemma LastNAbsorbs(s: seq<string>, t: seq<string>, n: nat)
    ensures LastN(LastN(s, n) + t, n) == LastN(s + t, n)
  {
    var a, b := LastN(LastN(s, n) + t, n), LastN(s + t, n);
    forall i | 0 <= i < |a| ensures a[i] == b[i] {
      var st := s + t;
      var kept := LastN(s, n) + t;
      assert a[i] == kept[|kept| - |a| + i];
      assert b[i] == st[|st| - |b| + i];
    }
  }

  /** Starting within capacity, the list is always the last three searches
      of the whole history, oldest first. */
  lemma {:induction false} PushAllKeepsLastSearches(cities: seq<string>, searches: seq<string>)
    requires |cities| <= RecentCapacity
    ensures PushAll(cities, searches) == LastN(cities + searches, RecentCapacity)
    decreases |searches|
  {
    if searches == [] {
      assert cities + searches == cities;
    } else {
      var next := PushRecent(cities, searches[0]);
      PushAllKeepsLastSearches(next, searches[1..]);
      PushRecentIsLastN(cities, searches[0]);
      LastNAbsorbs(cities + [searches[0]], searches[1..], RecentCapacity);
      assert (cities + [searches[0]]) + searches[1..] == cities + searches;
    }
  }

  /** The part of a user document that `getUserData` answers with. */
  datatype UserData = UserData(role: string, recentSearchedCities: seq<string>)

  /** The authenticated user's document, `req.user`: the application's own
      fields of the same stored document that `ClerkWebhooks.UserDoc` holds,
      whose `app` part is a `UserData`. */
  class UserDocument {
    var role: string
    var recentSearchedCities: seq<string>

    constructor (role: string, recentSearchedCities: seq<string>)
      ensures this.role == role && this.recentSearchedCities == recentSearchedCities
    {
      this.role := role;
      this.recentSearchedCities := recentSearchedCities;
    }

    /** `getUserData`: the role and the recent cities, as stored. */
    method GetUserData() returns (data: UserData)
      ensures data.role == role && data.recentSearchedCities == recentSearchedCities
    {
      data := UserData(role, recentSearchedCities);
    }

    /** `storeRecentSearchedCities`: push the city, shifting out the oldest
        entry first when the list is full. Nothing else in the document
        changes. */
    method StoreRecentSearchedCity(city: string)
      modifies this`recentSearchedCities
      ensures recentSearchedCities == PushRecent(old(recentSearchedCities), city)
      ensures |old(recentSearchedCities)| <= RecentCapacity ==> |recentSearchedCities| <= RecentCapacity
    {
      if |recentSearchedCities| < RecentCapacity {
        recentSearchedCities := recentSearchedCities + [city];
      } else {
        recentSearchedCities := recentSearchedCities[1..];
        recentSearchedCities := recentSearchedCities + [city];
      }
    }
  }
}
