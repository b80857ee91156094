/** IP geolocation with an in-memory cache. `getGeoLocation` walks the first
    fifty addresses, strips ports, answers cached addresses from the cache
    and asks the lookup service about the others, caching only answers that
    carry a usable latitude and longitude. The lookup service is an oracle
    parameter; the rate-limiting sleep between lookups is not modelled. */
module Geolocation {
  import opened Common

  /** Only this many input addresses are examined per call. */
  const MaxIps: nat := 50

  /** A cached location record. */
  datatype Geo = Geo(lat: real, lon: real, city: string, country: string)

  /** A returned location: a record together with the address it is for. */
  datatype GeoLocation = GeoLocation(lat: real, lon: real, city: string, country: string, ip: string)

  /** `{ ...geo, ip }`. */
  function WithIp(g: Geo, ip: string): GeoLocation {
    GeoLocation(g.lat, g.lon, g.city, g.country, ip)
  }

  /** The record part of a returned location. */
  function RecordOf(l: GeoLocation): Geo {
    Geo(l.lat, l.lon, l.city, l.country)
  }

  /** The fields of the lookup service's JSON body that are read; a missing
      or null number is `None`. */
  datatype GeoBody = GeoBody(latitude: Option<real>, longitude: Option<real>, city: string, countryName: string)

  /** What one lookup produced: a response that is not ok (only its status
      is logged), an ok response and its body, or an exception thrown by
      `fetch` or by reading the body. */
  datatype Response = NotOk(status: int) | Answered(body: GeoBody) | Failed

  /** JavaScript truthiness of a JSON number field: present and not zero. */
  predicate Truthy(x: Option<real>) {
    x.Some? && x.value != 0.0
  }

  /** A response the loop keeps: ok, with truthy latitude and longitude. */
  predicate Usable(r: Response) {
    r.Answered? && Truthy(r.body.latitude) && Truthy(r.body.longitude)
  }

  /** The record built from a usable response. */
  function ToGeo(r: Response): (g: Geo)
    requires Usable(r)
    ensures g.lat != 0.0 && g.lon != 0.0
  {
    Geo(r.body.latitude.value, r.body.longitude.value, r.body.city, r.body.countryName)
  }

  /** `s.split(':')[0]`: the text before the first ':', or all of `s`. */
  function StripPort(s: string): (r: string)
    ensures r <= s
    ensures ':' !in r
    ensures r == s || s[|r|] == ':'
  {
    if s == [] || s[0] == ':' then [] else [s[0]] + StripPort(s[1..])
  }

  /** An address without ':' is left alone, so stripping twice is stripping once. */
  lemma StripPortIdempotent(s: string)
    ensures StripPort(StripPort(s)) == StripPort(s)
  {
  }

  // ---------------------------------------------------------------------
  // The loop as a specification
  // ---------------------------------------------------------------------

  /** The loop's state: results so far, the addresses looked up so far (the
      network requests made), and the cache. */
  datatype Pass = Pass(results: seq<GeoLocation>, requested: seq<string>, cache: map<string, Geo>)

  /** One iteration of the loop, for input address `ip`. */
  function Visit(p: Pass, ip: string, fetch: string -> Response): (q: Pass)
    ensures ip == "" ==> q == p
    ensures p.results <= q.results && |q.results| <= |p.results| + 1
    ensures p.requested <= q.requested && |q.requested| <= |p.requested| + 1
    ensures p.cache.Keys <= q.cache.Keys
  {
    if ip == "" then p
    else
      var clean := StripPort(ip);
      if clean in p.cache then p.(results := p.results + [WithIp(p.cache[clean], clean)])
      else
        var response := fetch(clean);
        var requested := p.requested + [clean];
        if Usable(response) then
          var geo := ToGeo(response);
          Pass(p.results + [WithIp(geo, clean)], requested, p.cache[clean := geo])
        else
          p.(requested := requested)
  }

  /** The iterations over `ips`, in order, from state `start`. */
  function Visits(start: Pass, ips: seq<string>, fetch: string -> Response): (r: Pass)
    ensures start.results <= r.results && |r.results| <= |start.results| + |ips|
    ensures start.requested <= r.requested && |r.requested| <= |start.requested| + |ips|
    ensures start.cache.Keys <= r.cache.Keys
  {
    if ips == [] then start
    else Visit(Visits(start, ips[..|ips| - 1], fetch), ips[|ips| - 1], fetch)
  }

  /** `ips.slice(0, 50)`. */
  function Examined(ips: seq<string>): (subset: seq<string>)
    ensures |subset| == Min(MaxIps, |ips|)
    ensures subset <= ips
  {
    ips[..Min(MaxIps, |ips|)]
  }

  /** Whether visiting `ip` in state `p` appends a result. */
  predicate Produces(p: Pass, ip: string, fetch: string -> Response) {
    ip != "" && (StripPort(ip) in p.cache || Usable(fetch(StripPort(ip))))
  }

  /** The positions in `ips` whose visit appended a result. */
  function Sources(start: Pass, ips: seq<string>, fetch: string -> Response): seq<nat> {
    if ips == [] then []
    else
      var prior := Sources(start, ips[..|ips| - 1], fetch);
      if Produces(Visits(start, ips[..|ips| - 1], fetch), ips[|ips| - 1], fetch)
      then prior + [|ips| - 1]
      else prior
  }

  // ---------------------------------------------------------------------
  // Properties of one iteration
  // ---------------------------------------------------------------------

  /** One iteration appends at most one result, for the stripped address,
      and appends one exactly when the address is cached or the lookup is usable. */
  lemma VisitAppends(p: Pass, ip: string, fetch: string -> Response)
    ensures var q := Visit(p, ip, fetch);
      |q.results| == |p.results| + (if Produces(p, ip, fetch) then 1 else 0) &&
      q.results[..|p.results|] == p.results &&
      (Produces(p, ip, fetch) ==> q.results[|p.results|].ip == StripPort(ip))
  {
  }

  /** One iteration keeps every cache entry, adds at most the stripped
      address with a usable lookup's record, and requests only an address
      that was not cached. */
  lemma VisitCache(p: Pass, ip: string, fetch: string -> Response)
    ensures var q := Visit(p, ip, fetch);
      (forall a :: a in p.cache ==> a in q.cache && q.cache[a] == p.cache[a]) &&
      (forall a :: a in q.cache && a !in p.cache ==>
         a == StripPort(ip) && Usable(fetch(a)) && q.cache[a] == ToGeo(fetch(a))) &&
      q.requested[..|p.requested|] == p.requested &&
      (forall a :: a in q.requested[|p.requested|..] ==> a == StripPort(ip) && a !in p.cache)
  {
  }

  // ---------------------------------------------------------------------
  // Properties of the whole loop
  // ---------------------------------------------------------------------

  /** Results trace back to the inputs: result k came from a non-empty input
      at position Sources[k], its address is that input with the port
      stripped, and the positions increase, so results keep the inputs'
      relative order and there are at most as many results as inputs. */
  lemma {:induction false} ResultsFollowInputs(start: Pass, ips: seq<string>, fetch: string -> Response)
    ensures var r := Visits(start, ips, fetch);
      var src := Sources(start, ips, fetch);
      |r.results| == |start.results| + |src| &&
      |src| <= |ips| &&
      r.results[..|start.results|] == start.results &&
      (forall k :: 0 <= k < |src| ==>
         src[k] < |ips| && ips[src[k]] != "" &&
         r.results[|start.results| + k].ip == StripPort(ips[src[k]])) &&
      (forall k, l :: 0 <= k < l < |src| ==> src[k] < src[l])
  {
    if ips != [] {
      var n := |ips| - 1;
      var init := ips[..n];
      ResultsFollowInputs(start, init, fetch);
      var p := Visits(start, init, fetch);
      VisitAppends(p, ips[n], fetch);
      var src := Sources(start, ips, fetch);
      var prior := Sources(start, init, fetch);
      var r := Visits(start, ips, fetch);
      assert r == Visit(p, ips[n], fetch);
      forall k | 0 <= k < |src|
        ensures src[k] < |ips| && ips[src[k]] != "" &&
          r.results[|start.results| + k].ip == StripPort(ips[src[k]])
      {
        if k < |prior| {
          assert src[k] == prior[k] && ips[src[k]] == init[prior[k]];
          assert r.results[|start.results| + k] == r.results[..|p.results|][|start.results| + k];
        }
      }
    }
  }

  /** The cache only grows: entries present at the start are kept unchanged;
      every new entry is an address that was looked up, whose answer was
      usable (so its latitude and longitude are non-zero), and holds that
      answer's record. Addresses looked up were not in the cache at the start. */
  lemma {:induction false} CacheOnlyGrows(start: Pass, ips: seq<string>, fetch: string -> Response)
    ensures var r := Visits(start, ips, fetch);
      |start.requested| <= |r.requested| &&
      r.requested[..|start.requested|] == start.requested &&
      (forall a :: a in start.cache ==> a in r.cache && r.cache[a] == start.cache[a]) &&
      (forall a :: a in r.cache && a !in start.cache ==>
         a in r.requested[|start.requested|..] && Usable(fetch(a)) && r.cache[a] == ToGeo(fetch(a)) &&
         r.cache[a].lat != 0.0 && r.cache[a].lon != 0.0) &&
      (forall a :: a in r.requested[|start.requested|..] ==> a !in start.cache)
  {
    if ips != [] {
      var n := |ips| - 1;
      CacheOnlyGrows(start, ips[..n], fetch);
      var p := Visits(start, ips[..n], fetch);
      VisitCache(p, ips[n], fetch);
      var r := Visits(start, ips, fetch);
      assert r == Visit(p, ips[n], fetch);
      var m := |start.requested|;
      assert r.requested[m..] == p.requested[m..] + r.requested[|p.requested|..] by {
        assert r.requested == p.requested + r.requested[|p.requested|..];
      }
    }
  }

  /** Every returned location is in the cache afterwards, with the same
      record: results come from the cache or from answers that were cached. */
  lemma {:induction false} ResultsAreCached(start: Pass, ips: seq<string>, fetch: string -> Response)
    requires forall l :: l in start.results ==> l.ip in start.cache && start.cache[l.ip] == RecordOf(l)
    ensures var r := Visits(start, ips, fetch);
      forall l :: l in r.results ==> l.ip in r.cache && r.cache[l.ip] == RecordOf(l)
  {
    if ips != [] {
      var n := |ips| - 1;
      ResultsAreCached(start, ips[..n], fetch);
      var p := Visits(start, ips[..n], fetch);
      VisitCache(p, ips[n], fetch);
      VisitAppends(p, ips[n], fetch);
    }
  }

  // ---------------------------------------------------------------------
  // The service with its module-level cache
  // ---------------------------------------------------------------------

  /** A cache holding only records with non-zero coordinates: the only
      records ever stored are answers with truthy latitude and longitude. */
  predicate NonZero(cache: map<string, Geo>) {
    forall a :: a in cache ==> cache[a].lat != 0.0 && cache[a].lon != 0.0
  }

  /** The module that owns the `ipCache` map. */
  class GeoService {
    var cache: map<string, Geo>

    /** The cache holds only records with non-zero coordinates. */
    predicate Valid()
      reads this
    {
      NonZero(cache)
    }

    /** The module is loaded with an empty cache. */
    constructor ()
      ensures Valid()
      ensures cache == map[]
    {
      cache := map[];
    }

    /** getGeoLocation. `fetch` answers the lookup for one address; the
        returned `requested` lists the addresses looked up, in order. */
    method GetGeoLocation(ips: seq<string>, fetch: string -> Response)
      returns (results: seq<GeoLocation>, requested: seq<string>)
      requires Valid()
      modifies this
      ensures Valid()
      ensures forall l :: l in results ==> l.lat != 0.0 && l.lon != 0.0
      ensures Pass(results, requested, cache) == Visits(Pass([], [], old(cache)), Examined(ips), fetch)
    {
      var subset := Examined(ips);
      results, requested := [], [];
      for i := 0 to |subset|
        invariant Pass(results, requested, cache) == Visits(Pass([], [], old(cache)), subset[..i], fetch)
      {
        assert subset[..i + 1][..i] == subset[..i];
        var ip := subset[i];
        if ip == "" {
          continue;
        }
        var cleanIp := StripPort(ip);
        if cleanIp in cache {
          results := results + [WithIp(cache[cleanIp], cleanIp)];
          continue;
        }
        var response := fetch(cleanIp);
        requested := requested + [cleanIp];
        if response.Answered? {
          var data := response.body;
          if Truthy(data.latitude) && Truthy(data.longitude) {
            var geo := Geo(data.latitude.value, data.longitude.value, data.city, data.countryName);
            cache := cache[cleanIp := geo];
            results := results + [WithIp(geo, cleanIp)];
          }
        }
      }
      assert subset[..|subset|] == subset;
      CoordinatesStayNonZero(ips, old(cache), fetch);
    }
  }

  /** What one call promises its caller: at most fifty results, each for a
      non-empty examined input with its port stripped (so without ':'), in
      input order; the cache keeps its old entries and gains only usable
      answers; cached addresses are not looked up again; and every result
      is what the cache now holds for its address. */
  lemma CallGuarantees(ips: seq<string>, cache0: map<string, Geo>, fetch: string -> Response)
    ensures var r := Visits(Pass([], [], cache0), Examined(ips), fetch);
      |r.results| <= Min(MaxIps, |ips|) &&
      (forall l :: l in r.results ==> ':' !in l.ip && l.ip in r.cache && r.cache[l.ip] == RecordOf(l)) &&
      (forall a :: a in cache0 ==> a in r.cache && r.cache[a] == cache0[a]) &&
      (forall a :: a in r.cache && a !in cache0 ==> a in r.requested && Usable(fetch(a))) &&
      (forall a :: a in r.requested ==> a !in cache0)
  {
    var start := Pass([], [], cache0);
    var subset := Examined(ips);
    ResultsArePortFree(start, subset, fetch);
    CacheOnlyGrows(start, subset, fetch);
    ResultsAreCached(start, subset, fetch);
    var r := Visits(start, subset, fetch);
    assert r.requested[0..] == r.requested;
  }

  /** No address a call adds to the results carries a port. */
  lemma ResultsArePortFree(start: Pass, ips: seq<string>, fetch: string -> Response)
    requires start.results == []
    ensures forall l :: l in Visits(start, ips, fetch).results ==> ':' !in l.ip
  {
    ResultsFollowInputs(start, ips, fetch);
    var r := Visits(start, ips, fetch);
    forall l | l in r.results ensures ':' !in l.ip {
      var k :| 0 <= k < |r.results| && r.results[k] == l;
      assert l.ip == StripPort(ips[Sources(start, ips, fetch)[k]]);
    }
  }

  /** From a cache of non-zero records, a call leaves such a cache and
      returns no location with a zero latitude or longitude. */
  lemma CoordinatesStayNonZero(ips: seq<string>, cache0: map<string, Geo>, fetch: string -> Response)
    requires NonZero(cache0)
    ensures var r := Visits(Pass([], [], cache0), Examined(ips), fetch);
      NonZero(r.cache) &&
      forall l :: l in r.results ==> l.lat != 0.0 && l.lon != 0.0
  {
    var start := Pass([], [], cache0);
    var subset := Examined(ips);
    CacheOnlyGrows(start, subset, fetch);
    ResultsAreCached(start, subset, fetch);
  }

  /** Asking again for the same addresses with the cache the first call left
      behind looks up none of the addresses the first call resolved. */
  lemma RepeatedCallHitsCache(ips: seq<string>, cache0: map<string, Geo>, fetch: string -> Response)
    ensures var first := Visits(Pass([], [], cache0), Examined(ips), fetch);
      var second := Visits(Pass([], [], first.cache), Examined(ips), fetch);
      forall l :: l in first.results ==> l.ip !in second.requested
  {
    var first := Visits(Pass([], [], cache0), Examined(ips), fetch);
    CallGuarantees(ips, cache0, fetch);
    CallGuarantees(ips, first.cache, fetch);
  }
}
