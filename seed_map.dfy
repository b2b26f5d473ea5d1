/** The older web client's map page: a constant list of two seeded stations
    filtered by a case-insensitive name search, without sorting. */
module SeedMap {
  import opened Seqs
  import opened Text

  datatype SeedStation = SeedStation(id: int, name: string, latitude: real, longitude: real, price: string)

  const Stations: seq<SeedStation> := [
    SeedStation(1, "Shell Gas Station", 40.81987, -73.94958, "$3.45"),
    SeedStation(2, "Exxon Mobil", 40.81734, -73.94421, "$3.39")
  ]

  function Matcher(searchText: string): SeedStation -> bool {
    (s: SeedStation) => NameMatches(s.name, searchText)
  }

  /** `filteredStations`: at most the two seed stations, each matching the
      search text. */
  function FilteredStations(searchText: string): (r: seq<SeedStation>)
    ensures |r| <= |Stations|
    ensures forall i :: 0 <= i < |r| ==> NameMatches(r[i].name, searchText)
  {
    Filter(Stations, Matcher(searchText))
  }

  /** Every shown station's lower-cased name contains the lower-cased search
      text, and the shown stations are the seed list with some entries
      dropped, in seed order. */
  lemma FilteredStationsMatch(searchText: string)
    ensures forall i :: 0 <= i < |FilteredStations(searchText)| ==>
              NameMatches(FilteredStations(searchText)[i].name, searchText)
    ensures IsSubsequence(FilteredStations(searchText), Stations)
  {
    FilterIsSubsequence(Stations, Matcher(searchText));
  }

  /** The result depends on the search text only through its lower-cased
      form. */
  lemma FilteredStationsCaseInsensitive(q1: string, q2: string)
    requires Lower(q1) == Lower(q2)
    ensures FilteredStations(q1) == FilteredStations(q2)
  {
    FilterCongruent(Stations, Matcher(q1), Matcher(q2));
  }

  /** An empty search shows both seeded stations. */
  lemma FilteredStationsEmptySearch()
    ensures FilteredStations("") == Stations
  {
    forall s: SeedStation ensures Matcher("")(s) {
      EmptyQueryMatches(s.name);
    }
    FilterAll(Stations, Matcher(""));
  }

  lemma ExxonNames(searchText: string)
    requires Lower(searchText) == "exxon"
    ensures NameMatches("Exxon Mobil", searchText)
    ensures !NameMatches("Shell Gas Station", searchText)
  {
    assert Lower("Exxon Mobil") == "exxon mobil";
    assert StartsWith("exxon mobil", "exxon");
    assert Lower("Shell Gas Station") == "shell gas station";
    assert "exxon"[1] == 'x';
    MissingCharNotIncluded("shell gas station", "exxon", 'x');
  }

  /** Searching "exxon", in any letter case, shows exactly the Exxon Mobil
      station (id 2). */
  lemma FilteredStationsExxon(searchText: string)
    requires Lower(searchText) == "exxon"
    ensures FilteredStations(searchText) == [Stations[1]]
    ensures FilteredStations(searchText)[0].id == 2
  {
    ExxonNames(searchText);
    assert Stations[1..] == [Stations[1]] && Stations[1..][1..] == [];
  }
}
