/** The universities page of the local-storage front end
    (radiusf/src/pages/Universities.jsx): the search and country filters,
    the country options and the partner count. */
module RadiusfUniversities {
  import opened JsValues
  import opened Seqs
  import opened Entities

  predicate MatchesSearch(u: University, searchText: string)
  {
    MatchesText(u.name, searchText) || MatchesText(u.city, searchText) || MatchesText(u.country, searchText)
  }

  predicate Shown(u: University, searchText: string, countryFilter: string)
  {
    (searchText == "" || MatchesSearch(u, searchText)) &&
    (countryFilter == "all" || u.country == countryFilter)
  }

  /** `filterUniversities`: search first, then country, each only when set. */
  method FilterUniversities(universities: seq<University>, searchText: string, countryFilter: string)
    returns (filtered: seq<University>)
    ensures filtered == Filter(universities, (u: University) => Shown(u, searchText, countryFilter))
  {
    filtered := universities;
    if searchText != "" {
      filtered := Filter(filtered, (u: University) => MatchesSearch(u, searchText));
    }
    if countryFilter != "all" {
      filtered := Filter(filtered, (u: University) => u.country == countryFilter);
    }
    FilterIfTwice(universities, searchText != "", (u: University) => MatchesSearch(u, searchText),
                  countryFilter != "all", (u: University) => u.country == countryFilter,
                  (u: University) => Shown(u, searchText, countryFilter));
  }

  /** A university is listed exactly when it passes both tests, in stored
      order, and with no search and country "all" all are listed. */
  lemma FilterUniversitiesSpec(universities: seq<University>, searchText: string, countryFilter: string, u: University)
    ensures var shown := Filter(universities, (v: University) => Shown(v, searchText, countryFilter));
      (u in shown <==>
         (u in universities &&
          (searchText == "" || MatchesText(u.name, searchText) || MatchesText(u.city, searchText) ||
           MatchesText(u.country, searchText)) &&
          (countryFilter == "all" || u.country == countryFilter))) &&
      IsSubsequence(shown, universities) &&
      (searchText == "" && countryFilter == "all" ==> shown == universities)
  {
    var keep := (v: University) => Shown(v, searchText, countryFilter);
    FilterMembership(universities, keep, u);
    FilterIsSubsequence(universities, keep);
    if searchText == "" && countryFilter == "all" {
      FilterKeepsAll(universities, keep);
    }
  }

  /** `[...new Set(universities.map(uni => uni.country))]`: the options of the
      country filter. */
  function Countries(universities: seq<University>): seq<string>
  {
    Distinct(Map(universities, (u: University) => u.country))
  }

  /** The options name every university's country once and no other, in
      the order the countries first occur, one per distinct country. */
  lemma CountriesSpec(universities: seq<University>)
    ensures var cs := Countries(universities);
      NoDuplicates(cs) &&
      (forall i :: 0 <= i < |universities| ==> universities[i].country in cs) &&
      (forall c :: c in cs ==> exists i :: 0 <= i < |universities| && universities[i].country == c) &&
      |cs| == |set u | u in universities :: u.country|
  {
    var names := Map(universities, (u: University) => u.country);
    var cs := Distinct(names);
    forall i | 0 <= i < |universities| ensures universities[i].country in cs {
      assert names[i] == universities[i].country;
    }
    forall c | c in cs ensures exists i :: 0 <= i < |universities| && universities[i].country == c {
      var j :| 0 <= j < |cs| && cs[j] == c;
      var i :| 0 <= i < |names| && names[i] == c;
      assert universities[i].country == c;
    }
    DistinctCount(names);
    assert (set x | x in names) == (set u | u in universities :: u.country) by {
      forall x | x in names ensures x in (set u | u in universities :: u.country) {
        var i :| 0 <= i < |names| && names[i] == x;
        assert universities[i] in universities;
      }
      forall u | u in universities ensures u.country in names {
        var i :| 0 <= i < |universities| && universities[i] == u;
        assert names[i] == u.country;
      }
    }
  }

  /** `universities.filter(uni => uni.isPartner).length`. */
  function PartnerCount(universities: seq<University>): nat
  {
    Count(universities, (u: University) => Truthy(u.isPartner))
  }

  /** The partners are among the universities: never more than all of them,
      and all of them exactly when every one is a partner. */
  lemma PartnerCountBounded(universities: seq<University>)
    ensures PartnerCount(universities) <= |universities|
    ensures (forall i :: 0 <= i < |universities| ==> Truthy(universities[i].isPartner)) ==>
      PartnerCount(universities) == |universities|
  {
    var partner := (u: University) => Truthy(u.isPartner);
    if forall i :: 0 <= i < |universities| ==> Truthy(universities[i].isPartner) {
      FilterKeepsAll(universities, partner);
    }
  }
}
