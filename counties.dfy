/** The county and sub-county lookups over the bundled county data, which is
    passed in. */
module Counties {
  import opened Wrappers
  import Seqs

  datatype SubCounty = SubCounty(id: string, name: string)

  datatype County = County(id: string, name: string, subCounties: seq<SubCounty>)

  datatype CountySummary = CountySummary(id: string, name: string)

  function Summary(c: County): CountySummary {
    CountySummary(c.id, c.name)
  }

  /** `countiesList()`: one summary per county, in data order. */
  function CountiesList(data: seq<County>): (r: seq<CountySummary>)
    ensures |r| == |data|
    ensures forall i :: 0 <= i < |data| ==> r[i].id == data[i].id && r[i].name == data[i].name
  {
    Seqs.Map(data, Summary)
  }

  /** `getSubCountiesByCountyName(countyName)`: the stored list of the first
      county with exactly that name, [] when there is none. */
  function SubCountiesByCountyName(data: seq<County>, countyName: string): (r: seq<SubCounty>)
    ensures (forall c :: c in data ==> c.name != countyName) ==> r == []
    ensures (exists c :: c in data && c.name == countyName) ==>
              exists i :: 0 <= i < |data| && data[i].name == countyName && r == data[i].subCounties &&
                          forall j :: 0 <= j < i ==> data[j].name != countyName
  {
    match Seqs.Find(data, (c: County) => c.name == countyName)
    case None => []
    case Some(county) => county.subCounties
  }

  /** Names are compared exactly: only the first county of a repeated name is
      ever consulted. */
  lemma FirstCountyWins(a: County, b: County, rest: seq<County>)
    requires a.name == b.name
    ensures SubCountiesByCountyName([a, b] + rest, a.name) == a.subCounties
  {
    var data := [a, b] + rest;
    assert data[0] == a;
  }
}
