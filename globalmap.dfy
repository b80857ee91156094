/** The expanded map's sidebar: nodes tallied per country, the five
    countries with most nodes, and the live feed of the first twenty nodes
    with a count of the rest. */
module GlobalMap {
  import opened Common
  import opened Geolocation

  // ---------------------------------------------------------------------
  // Country tally
  // ---------------------------------------------------------------------

  /** How many of the nodes are in country `c`. */
  function Occurrences(nodes: seq<GeoLocation>, c: string): nat {
    if nodes == [] then 0
    else Occurrences(nodes[..|nodes| - 1], c) + (if nodes[|nodes| - 1].country == c then 1 else 0)
  }

  /** The `reduce` that builds `countries`: one entry per country present,
      holding its number of nodes. */
  method TallyCountries(nodes: seq<GeoLocation>) returns (countries: map<string, nat>)
    ensures forall c :: c in countries <==> exists i :: 0 <= i < |nodes| && nodes[i].country == c
    ensures forall c :: Occurrences(nodes, c) == if c in countries then countries[c] else 0
  {
    countries := map[];
    for i := 0 to |nodes|
      invariant forall c :: c in countries <==> exists j :: 0 <= j < i && nodes[j].country == c
      invariant forall c :: Occurrences(nodes[..i], c) == if c in countries then countries[c] else 0
    {
      assert nodes[..i + 1][..i] == nodes[..i];
      var country := nodes[i].country;
      var prior := if country in countries then countries[country] else 0;
      countries := countries[country := prior + 1];
    }
    assert nodes[..|nodes|] == nodes;
  }

  /** The countries present, each once, in order of first appearance. */
  function Distinct(nodes: seq<GeoLocation>): seq<string> {
    if nodes == [] then []
    else
      var prior := Distinct(nodes[..|nodes| - 1]);
      var c := nodes[|nodes| - 1].country;
      if c in prior then prior else prior + [c]
  }

  /** The sum of the tallies of the listed countries. */
  function SumOfTallies(nodes: seq<GeoLocation>, countries: seq<string>): nat {
    if countries == [] then 0
    else Occurrences(nodes, countries[0]) + SumOfTallies(nodes, countries[1..])
  }

  /** A list with no repeated element. */
  predicate NoRepeats(s: seq<string>) {
    forall i, j :: 0 <= i < j < |s| ==> s[i] != s[j]
  }

  /** `Distinct` lists each country present exactly once and nothing else. */
  lemma {:induction false} DistinctIsTheCountries(nodes: seq<GeoLocation>)
    ensures NoRepeats(Distinct(nodes))
    ensures forall c :: c in Distinct(nodes) <==> Occurrences(nodes, c) > 0
  {
    if nodes != [] {
      DistinctIsTheCountries(nodes[..|nodes| - 1]);
    }
  }

  /** Adding one to the tally of `x` adds one to the sum over a list that
      holds `x` once, and nothing to the sum over a list without `x`. */
  lemma {:induction false} SumAfterAppend(nodes: seq<GeoLocation>, x: GeoLocation, countries: seq<string>)
    requires NoRepeats(countries)
    ensures SumOfTallies(nodes + [x], countries)
         == SumOfTallies(nodes, countries) + (if x.country in countries then 1 else 0)
  {
    if countries != [] {
      assert (nodes + [x])[..|nodes|] == nodes;
      SumAfterAppend(nodes, x, countries[1..]);
      assert x.country in countries[1..] ==> x.country != countries[0];
    }
  }

  /** Appending a country to the list adds its tally to the sum. */
  lemma {:induction false} SumOfAppended(nodes: seq<GeoLocation>, countries: seq<string>, c: string)
    ensures SumOfTallies(nodes, countries + [c]) == SumOfTallies(nodes, countries) + Occurrences(nodes, c)
  {
    if countries != [] {
      assert (countries + [c])[1..] == countries[1..] + [c];
      SumOfAppended(nodes, countries[1..], c);
    }
  }

  /** The tallies of the countries present add up to the number of nodes. */
  lemma {:induction false} TalliesSumToNodeCount(nodes: seq<GeoLocation>)
    ensures SumOfTallies(nodes, Distinct(nodes)) == |nodes|
  {
    if nodes != [] {
      var init := nodes[..|nodes| - 1];
      var x := nodes[|nodes| - 1];
      assert nodes == init + [x];
      TalliesSumToNodeCount(init);
      DistinctIsTheCountries(init);
      var prior := Distinct(init);
      SumAfterAppend(init, x, prior);
      if x.country !in prior {
        SumOfAppended(nodes, prior, x.country);
        assert NoRepeats(prior + [x.country]);
        SumAfterAppend(init, x, prior + [x.country]);
        SumOfAppended(init, prior, x.country);
      }
    }
  }

  // ---------------------------------------------------------------------
  // Top countries
  // ---------------------------------------------------------------------

  /** An entry of `Object.entries(countries)`: a country and its tally. */
  type Entry = (string, nat)

  /** Entries with non-increasing counts. */
  predicate ByCountDescending(s: seq<Entry>) {
    forall i, j :: 0 <= i < j < |s| ==> s[i].1 >= s[j].1
  }

  /** Inserting an entry in front of the first entry with a count no larger
      than its own. */
  function Insert(e: Entry, sorted: seq<Entry>): (r: seq<Entry>)
    ensures |r| == |sorted| + 1
  {
    if sorted == [] || sorted[0].1 <= e.1 then [e] + sorted
    else [sorted[0]] + Insert(e, sorted[1..])
  }

  /** The comparator `b - a`: a stable sort by descending count. */
  function SortByCount(entries: seq<Entry>): (r: seq<Entry>)
    ensures |r| == |entries|
  {
    if entries == [] then [] else Insert(entries[0], SortByCount(entries[1..]))
  }

  /** Insertion adds exactly the entry. */
  lemma {:induction false} InsertAddsEntry(e: Entry, sorted: seq<Entry>)
    ensures multiset(Insert(e, sorted)) == multiset(sorted) + multiset{e}
  {
    if sorted != [] && sorted[0].1 > e.1 {
      InsertAddsEntry(e, sorted[1..]);
      assert sorted == [sorted[0]] + sorted[1..];
    }
  }

  /** Insertion keeps the counts non-increasing. */
  lemma {:induction false} InsertKeepsOrder(e: Entry, sorted: seq<Entry>)
    requires ByCountDescending(sorted)
    ensures ByCountDescending(Insert(e, sorted))
  {
    if sorted != [] && sorted[0].1 > e.1 {
      var rest := Insert(e, sorted[1..]);
      InsertKeepsOrder(e, sorted[1..]);
      InsertAddsEntry(e, sorted[1..]);
      forall k | 0 <= k < |rest| ensures sorted[0].1 >= rest[k].1 {
        assert rest[k] in multiset(rest);
        assert rest[k] == e || rest[k] in sorted[1..];
      }
    }
  }

  /** The sort orders by descending count and is a permutation. */
  lemma {:induction false} SortByCountSorts(entries: seq<Entry>)
    ensures ByCountDescending(SortByCount(entries))
    ensures multiset(SortByCount(entries)) == multiset(entries)
  {
    if entries != [] {
      SortByCountSorts(entries[1..]);
      InsertKeepsOrder(entries[0], SortByCount(entries[1..]));
      InsertAddsEntry(entries[0], SortByCount(entries[1..]));
      assert entries == [entries[0]] + entries[1..];
    }
  }

  /** How many regions are listed. */
  const TopCount: nat := 5

  /** `Object.entries(countries).sort(([, a], [, b]) => b - a).slice(0, 5)`,
      for the entries in whatever order the object lists them. */
  function TopCountries(entries: seq<Entry>): (top: seq<Entry>)
    ensures |top| == Min(TopCount, |entries|)
    ensures ByCountDescending(top)
    ensures multiset(top) <= multiset(entries)
  {
    var sorted := SortByCount(entries);
    var n := Min(TopCount, |entries|);
    SortByCountSorts(entries);
    assert sorted == sorted[..n] + sorted[n..];
    sorted[..n]
  }

  /** The listed regions: at most five, by non-increasing count, drawn from
      the entries; and no entry left out has a larger count than any listed one. */
  lemma TopCountriesAreTheLargest(entries: seq<Entry>)
    ensures var top := TopCountries(entries);
      |top| == Min(TopCount, |entries|) &&
      ByCountDescending(top) &&
      multiset(top) <= multiset(entries) &&
      forall e, t :: e in entries && e !in top && t in top ==> e.1 <= t.1
  {
    var sorted := SortByCount(entries);
    SortByCountSorts(entries);
    var n := Min(TopCount, |entries|);
    var top := sorted[..n];
    assert multiset(top) <= multiset(entries) by {
      assert sorted == top + sorted[n..];
    }
    forall e, t | e in entries && e !in top && t in top ensures e.1 <= t.1 {
      assert e in multiset(sorted) by { assert e in multiset(entries); }
      LeftOutIsNoLarger(sorted, n, e, t);
    }
  }

  /** In a list by descending count, nothing after the first `n` entries
      outweighs anything among them. */
  lemma LeftOutIsNoLarger(sorted: seq<Entry>, n: nat, e: Entry, t: Entry)
    requires ByCountDescending(sorted) && n <= |sorted|
    requires e in sorted && e !in sorted[..n] && t in sorted[..n]
    ensures e.1 <= t.1
  {
    var j :| 0 <= j < |sorted| && sorted[j] == e;
    var i :| 0 <= i < n && sorted[..n][i] == t;
  }

  /** `entries` is the list of `Object.entries(countries)`: each country of
      the tally once, with its count. */
  predicate Enumerates(entries: seq<Entry>, countries: map<string, nat>) {
    (forall i :: 0 <= i < |entries| ==> entries[i].0 in countries && entries[i].1 == countries[entries[i].0]) &&
    (forall c :: c in countries ==> exists i :: 0 <= i < |entries| && entries[i].0 == c)
  }

  /** For the entries of a tally: every listed region carries its own tally,
      and a country not listed has no more nodes than any listed one. */
  lemma TopCountriesOfTally(entries: seq<Entry>, countries: map<string, nat>)
    requires Enumerates(entries, countries)
    ensures var top := TopCountries(entries);
      |top| <= TopCount &&
      (forall t :: t in top ==> t.0 in countries && t.1 == countries[t.0]) &&
      forall c, t :: c in countries && (forall u :: u in top ==> u.0 != c) && t in top ==>
        countries[c] <= t.1
  {
    var top := TopCountries(entries);
    TopCountriesAreTheLargest(entries);
    forall t | t in top ensures t.0 in countries && t.1 == countries[t.0] {
      assert t in multiset(entries);
    }
    forall c, t | c in countries && (forall u :: u in top ==> u.0 != c) && t in top
      ensures countries[c] <= t.1
    {
      var i :| 0 <= i < |entries| && entries[i].0 == c;
      assert entries[i] !in top;
    }
  }

  // ---------------------------------------------------------------------
  // Live feed
  // ---------------------------------------------------------------------

  /** How many nodes the live feed shows. */
  const FeedSize: nat := 20

  /** `nodes.slice(0, 20)`: the first twenty nodes, in order. */
  function Feed(nodes: seq<GeoLocation>): (shown: seq<GeoLocation>)
    ensures |shown| == Min(FeedSize, |nodes|)
    ensures shown <= nodes
  {
    nodes[..Min(FeedSize, |nodes|)]
  }

  /** The "+ N more active nodes" figure: the nodes the feed leaves out. */
  function MoreNodes(nodes: seq<GeoLocation>): (more: nat)
    ensures |Feed(nodes)| + more == |nodes|
    ensures more > 0 <==> |nodes| > FeedSize
  {
    if |nodes| > FeedSize then |nodes| - FeedSize else 0
  }
}
