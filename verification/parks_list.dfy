/** ParksListView: the parks shown (a city filter, then ascending by name)
    and the navigation title. */
module ParksList {
  import opened Common
  import opened Records

  /** The parks whose city matches `city` ignoring case, in input order. */
  function CityFilter(parks: seq<DogPark>, city: string): (r: seq<DogPark>)
    ensures forall p :: p in r <==> p in parks && SameIgnoringCase(p.city, city)
    ensures multiset(r) <= multiset(parks)
  {
    if parks == [] then []
    else
      assert parks == [parks[0]] + parks[1..];
      (if SameIgnoringCase(parks[0].city, city) then [parks[0]] else []) + CityFilter(parks[1..], city)
  }

  /** No later park has a name that sorts before an earlier one's. */
  predicate SortedByName(s: seq<DogPark>) {
    forall i, j :: 0 <= i < j < |s| ==> LexLeq(s[i].name, s[j].name)
  }

  function InsertByName(p: DogPark, s: seq<DogPark>): (r: seq<DogPark>)
    requires SortedByName(s)
    ensures SortedByName(r)
    ensures multiset(r) == multiset(s) + multiset{p}
  {
    if s == [] then [p]
    else if LexLeq(p.name, s[0].name) then
      forall j | 0 <= j < |s| ensures LexLeq(p.name, s[j].name) {
        if j > 0 { LexLeqTransitive(p.name, s[0].name, s[j].name); }
      }
      [p] + s
    else
      var rest := InsertByName(p, s[1..]);
      assert s == [s[0]] + s[1..];
      LexLeqTotal(p.name, s[0].name);
      forall q | q in rest ensures LexLeq(s[0].name, q.name) {
        assert q in multiset(rest);
        if q != p {
          assert q in multiset(s[1..]);
          var j :| 0 <= j < |s[1..]| && s[1..][j] == q;
          assert s[j + 1] == q;
        }
      }
      [s[0]] + rest
  }

  /** `sorted { $0.name < $1.name }`: the same parks, ascending by name. */
  function SortByName(s: seq<DogPark>): (r: seq<DogPark>)
    ensures SortedByName(r)
    ensures multiset(r) == multiset(s)
  {
    if s == [] then []
    else
      assert s == [s[0]] + s[1..];
      InsertByName(s[0], SortByName(s[1..]))
  }

  /** The city the list is filtered by: the search text when there is one,
      else a non-empty default city, else none. */
  function FilterCity(searchCity: string, defaultCity: Option<string>): (r: Option<string>)
    ensures searchCity != "" ==> r == Some(searchCity)
    ensures searchCity == "" && defaultCity.Some? && defaultCity.value != "" ==> r == defaultCity
    ensures searchCity == "" && (defaultCity.None? || defaultCity.value == "") ==> r == None
  {
    if searchCity != "" then Some(searchCity)
    else if defaultCity.Some? && defaultCity.value != "" then defaultCity
    else None
  }

  /** `displayedParks`: sorted by name, and exactly the parks of the chosen
      city, counted with their multiplicity; all parks when no city applies. */
  function DisplayedParks(parks: seq<DogPark>, searchCity: string, defaultCity: Option<string>): (r: seq<DogPark>)
    ensures SortedByName(r)
    ensures multiset(r) <= multiset(parks)
    ensures searchCity != "" ==> multiset(r) == multiset(CityFilter(parks, searchCity))
    ensures searchCity == "" && defaultCity.Some? && defaultCity.value != "" ==>
              multiset(r) == multiset(CityFilter(parks, defaultCity.value))
    ensures searchCity == "" && (defaultCity.None? || defaultCity.value == "") ==> multiset(r) == multiset(parks)
    ensures forall p :: p in r <==> p in parks && (FilterCity(searchCity, defaultCity).Some? ==>
                                                     SameIgnoringCase(p.city, FilterCity(searchCity, defaultCity).value))
  {
    var city := FilterCity(searchCity, defaultCity);
    var r := if city.Some? then SortByName(CityFilter(parks, city.value)) else SortByName(parks);
    assert forall p :: p in r <==> p in multiset(r);
    r
  }

  lemma SameIgnoringCaseTransitive(a: string, b: string, c: string)
    requires SameIgnoringCase(a, b) && SameIgnoringCase(b, c)
    ensures SameIgnoringCase(a, c)
  {
  }

  lemma SameIgnoringCaseSymmetric(a: string, b: string)
    requires SameIgnoringCase(a, b)
    ensures SameIgnoringCase(b, a)
  {
  }

  /** Searches that differ only in letter case filter alike. */
  lemma {:induction false} CityFilterIgnoresCase(parks: seq<DogPark>, a: string, b: string)
    requires SameIgnoringCase(a, b)
    ensures CityFilter(parks, a) == CityFilter(parks, b)
    decreases |parks|
  {
    if parks != [] {
      var c := parks[0].city;
      if SameIgnoringCase(c, a) { SameIgnoringCaseTransitive(c, a, b); }
      if SameIgnoringCase(c, b) { SameIgnoringCaseSymmetric(a, b); SameIgnoringCaseTransitive(c, b, a); }
      CityFilterIgnoresCase(parks[1..], a, b);
    }
  }

  /** Typing "oslo" or "OSLO" shows the same list. */
  lemma SearchIgnoresCase(parks: seq<DogPark>, a: string, b: string, defaultCity: Option<string>)
    requires a != "" && SameIgnoringCase(a, b)
    ensures DisplayedParks(parks, a, defaultCity) == DisplayedParks(parks, b, defaultCity)
  {
    CityFilterIgnoresCase(parks, a, b);
  }

  /** The navigation title: "Parks in " and the search text while searching,
      else the default city, or "Your City" when there is none. */
  function Title(searchCity: string, defaultCity: Option<string>): (r: string)
    ensures |r| >= 9 && r[..9] == "Parks in "
    ensures searchCity != "" ==> r[9..] == searchCity
    ensures searchCity == "" && defaultCity.Some? ==> r[9..] == defaultCity.value
    ensures searchCity == "" && defaultCity.None? ==> r[9..] == "Your City"
  {
    "Parks in " + (if searchCity != "" then searchCity else defaultCity.GetOr("Your City"))
  }

  /** The title and the filter read an empty default city differently: the
      list shows every park while the title names no city at all. */
  lemma EmptyDefaultCityTitle(parks: seq<DogPark>)
    ensures Title("", Some("")) == "Parks in "
    ensures multiset(DisplayedParks(parks, "", Some(""))) == multiset(parks)
  {
  }
}
