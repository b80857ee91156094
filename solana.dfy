/** Post-processing of the blockchain RPC results: chain statistics,
    transactions per second, validator count, the simulated energy estimate
    and the gossip addresses handed to geolocation. Each RPC call is an
    input of type `Call<T>`; a call that throws turns into `null` (or `[]`). */
module Solana {
  import opened Common
  import Geolocation

  // ---------------------------------------------------------------------
  // Rounding
  // ---------------------------------------------------------------------

  /** `Math.round(n / d)` for integers with `d > 0`: the floor of n/d + 1/2. */
  function RoundDiv(n: int, d: int): (k: int)
    requires d > 0
    ensures 2 * k * d - d <= 2 * n < 2 * k * d + d
  {
    var k := (2 * n + d) / (2 * d);
    DivBounds(2 * n + d, 2 * d);
    k
  }

  /** The defining bounds of Euclidean division by a positive divisor. */
  lemma DivBounds(a: int, b: int)
    requires b > 0
    ensures (a / b) * b <= a < (a / b) * b + b
  {
  }

  /** The rounding is unique: only one integer lies within a half of n/d
      with ties going up, so any such integer is the rounded value. */
  lemma {:induction false} RoundDivUnique(n: int, d: int, k: int)
    requires d > 0
    requires 2 * k * d - d <= 2 * n < 2 * k * d + d
    ensures k == RoundDiv(n, d)
  {
    var r := RoundDiv(n, d);
    if k < r {
      assert (r - k) * d >= d by { MulMonotone(r - k, 1, d); }
    } else if k > r {
      assert (k - r) * d >= d by { MulMonotone(k - r, 1, d); }
    }
  }

  /** Multiplying by a positive number keeps order. */
  lemma MulMonotone(a: int, b: int, d: int)
    requires a >= b && d > 0
    ensures a * d >= b * d
  {
  }

  // ---------------------------------------------------------------------
  // getEnergyStats
  // ---------------------------------------------------------------------

  datatype EnergyStats = EnergyStats(netCarbon: string, totalPowerKW: int, joulesPerTx: int)

  /** Average server wattage. */
  const WattsPerValidator: int := 500

  /** The power usage effectiveness 1.2, in tenths. */
  const PueTenths: int := 12

  /** getEnergyStats: `null` for a zero count; otherwise the power of
      v servers at 500 W with a PUE of 1.2, in kW, rounded. As
      500 * 1.2 / 1000 is 3/5, the power is the integer nearest to 3v/5
      (3v/5 is never halfway between two integers). */
  function GetEnergyStats(validatorCount: int): (r: Option<EnergyStats>)
    ensures r.None? <==> validatorCount == 0
    ensures r.Some? ==> r.value.netCarbon == "0g" && r.value.joulesPerTx == 650
    ensures r.Some? ==> -2 <= 5 * r.value.totalPowerKW - 3 * validatorCount <= 2
    ensures r.Some? ==> r.value.totalPowerKW == (3 * validatorCount + 2) / 5
  {
    if validatorCount == 0 then None
    else
      var kw := RoundDiv(validatorCount * WattsPerValidator * PueTenths, 10 * 1000);
      assert kw == (3 * validatorCount + 2) / 5 by {
        PowerRounding(validatorCount, kw);
      }
      Some(EnergyStats("0g", kw, 650))
  }

  /** The rounded power of v validators is the nearest integer to 3v/5,
      which is (3v + 2) div 5. */
  lemma PowerRounding(v: int, kw: int)
    requires 10 * kw - 5 <= 6 * v < 10 * kw + 5
    ensures -2 <= 5 * kw - 3 * v <= 2
    ensures kw == (3 * v + 2) / 5
  {
    assert 5 * kw <= 3 * v + 2 < 5 * kw + 5;
    var q := (3 * v + 2) / 5;
    DivBounds(3 * v + 2, 5);
    assert q * 5 <= 3 * v + 2 < q * 5 + 5;
  }

  // ---------------------------------------------------------------------
  // getTPS
  // ---------------------------------------------------------------------

  /** One entry of `getRecentPerformanceSamples`. */
  datatype PerfSample = PerfSample(slot: nat, numTransactions: nat, numSlots: nat, samplePeriodSecs: nat)

  /** A rounded rate as a JavaScript number: an integer, or what dividing
      by a zero period gives (Infinity, or NaN for 0/0). */
  datatype Rate = PerSecond(value: int) | Infinity | NaN

  /** getTPS, given what `getRecentPerformanceSamples(1)` produced. */
  function GetTps(samples: Call<seq<PerfSample>>): (r: Option<Rate>)
    ensures r.Some? <==> samples.Returned? && samples.value != []
    ensures r.Some? ==>
      var s := samples.value[0];
      if s.samplePeriodSecs > 0 then
        r.value.PerSecond? &&
        2 * r.value.value * s.samplePeriodSecs - s.samplePeriodSecs
          <= 2 * s.numTransactions
          < 2 * r.value.value * s.samplePeriodSecs + s.samplePeriodSecs
      else
        r.value == if s.numTransactions > 0 then Infinity else NaN
  {
    match samples
    case Threw => None
    case Returned(list) =>
      if |list| > 0 then
        var s := list[0];
        Some(if s.samplePeriodSecs > 0 then PerSecond(RoundDiv(s.numTransactions, s.samplePeriodSecs))
             else if s.numTransactions > 0 then Infinity
             else NaN)
      else None
  }

  // ---------------------------------------------------------------------
  // getValidatorCount
  // ---------------------------------------------------------------------

  datatype VoteAccount = VoteAccount(votePubkey: string, activatedStake: nat)

  /** The result of `getVoteAccounts`: current and delinquent validators. */
  datatype VoteAccounts = VoteAccounts(current: seq<VoteAccount>, delinquent: seq<VoteAccount>)

  /** getValidatorCount: the number of current vote accounts; delinquent
      ones are not counted. */
  function GetValidatorCount(voteAccounts: Call<VoteAccounts>): (r: Option<nat>)
    ensures r.None? <==> voteAccounts.Threw?
    ensures r.Some? ==> r.value == |voteAccounts.value.current|
  {
    match voteAccounts
    case Threw => None
    case Returned(accounts) => Some(|accounts.current|)
  }

  // ---------------------------------------------------------------------
  // getChainStats
  // ---------------------------------------------------------------------

  /** The fields of `getEpochInfo` that are read. */
  datatype EpochInfo = EpochInfo(epoch: nat, slotIndex: nat, slotsInEpoch: nat)

  /** The chain statistics record (without `epochProgress`). */
  datatype ChainStats = ChainStats(slot: nat, blockTime: Option<int>, epoch: nat, status: string)

  /** getChainStats. `blockTimeAt` answers `getBlockTime` for the slot just
      fetched; its failure only leaves `blockTime` null, whereas a failure of
      `getSlot` or `getEpochInfo` makes the whole result null. */
  function GetChainStats(slot: Call<nat>, epochInfo: Call<EpochInfo>, blockTimeAt: nat -> Call<Option<int>>)
    : (r: Option<ChainStats>)
    ensures r.Some? <==> slot.Returned? && epochInfo.Returned?
    ensures r.Some? ==>
      r.value.status == "Online" &&
      r.value.slot == slot.value &&
      r.value.epoch == epochInfo.value.epoch &&
      (blockTimeAt(slot.value).Threw? ==> r.value.blockTime == None) &&
      (blockTimeAt(slot.value).Returned? ==> r.value.blockTime == blockTimeAt(slot.value).value)
  {
    if slot.Threw? || epochInfo.Threw? then None
    else
      var blockTime := match blockTimeAt(slot.value)
        case Returned(t) => t
        case Threw => None;
      Some(ChainStats(slot.value, blockTime, epochInfo.value.epoch, "Online"))
  }

  // ---------------------------------------------------------------------
  // getNetworkNodes
  // ---------------------------------------------------------------------

  /** The fields of `getClusterNodes` entries that are read. */
  datatype ContactInfo = ContactInfo(pubkey: string, gossip: Option<string>)

  /** `n.gossip` is truthy: present and not the empty string. */
  predicate HasGossip(n: ContactInfo) {
    n.gossip.Some? && n.gossip.value != ""
  }

  /** The host of a node's gossip address. */
  function GossipHost(n: ContactInfo): string
    requires HasGossip(n)
  {
    Geolocation.StripPort(n.gossip.value)
  }

  /** `nodes.filter(n => n.gossip).map(n => n.gossip!.split(':')[0])`. */
  function GossipIps(nodes: seq<ContactInfo>): (ips: seq<string>)
    ensures |ips| <= |nodes|
    ensures forall k :: 0 <= k < |ips| ==> ':' !in ips[k]
  {
    if nodes == [] then []
    else (if HasGossip(nodes[0]) then [GossipHost(nodes[0])] else []) + GossipIps(nodes[1..])
  }

  /** The extraction works node by node, so it keeps the nodes' order:
      the addresses of `a + b` are those of `a` followed by those of `b`. */
  lemma {:induction false} GossipIpsConcat(a: seq<ContactInfo>, b: seq<ContactInfo>)
    ensures GossipIps(a + b) == GossipIps(a) + GossipIps(b)
  {
    if a != [] {
      assert (a + b)[0] == a[0] && (a + b)[1..] == a[1..] + b;
      GossipIpsConcat(a[1..], b);
      var head := if HasGossip(a[0]) then [GossipHost(a[0])] else [];
      calc {
        GossipIps(a + b);
        head + GossipIps(a[1..] + b);
        head + (GossipIps(a[1..]) + GossipIps(b));
        (head + GossipIps(a[1..])) + GossipIps(b);
        GossipIps(a) + GossipIps(b);
      }
    } else {
      assert a + b == b;
    }
  }

  /** An address is extracted exactly when some node with a gossip address
      has it as host. */
  lemma {:induction false} GossipIpsMembers(nodes: seq<ContactInfo>, ip: string)
    ensures ip in GossipIps(nodes) <==>
      exists i :: 0 <= i < |nodes| && HasGossip(nodes[i]) && GossipHost(nodes[i]) == ip
  {
    if nodes != [] {
      GossipIpsMembers(nodes[1..], ip);
      if ip in GossipIps(nodes[1..]) {
        var i :| 0 <= i < |nodes[1..]| && HasGossip(nodes[1..][i]) && GossipHost(nodes[1..][i]) == ip;
        assert nodes[i + 1] == nodes[1..][i];
      }
      if exists i :: 0 <= i < |nodes| && HasGossip(nodes[i]) && GossipHost(nodes[i]) == ip {
        var i :| 0 <= i < |nodes| && HasGossip(nodes[i]) && GossipHost(nodes[i]) == ip;
        if i > 0 {
          assert nodes[1..][i - 1] == nodes[i];
        }
      }
    }
  }

  /** getNetworkNodes: the gossip hosts of the cluster nodes, resolved by
      getGeoLocation against the shared cache; `[]` when `getClusterNodes`
      throws (getGeoLocation itself catches its own errors). */
  method GetNetworkNodes(geo: Geolocation.GeoService, clusterNodes: Call<seq<ContactInfo>>,
                         fetch: string -> Geolocation.Response)
    returns (located: seq<Geolocation.GeoLocation>, requested: seq<string>)
    requires geo.Valid()
    modifies geo
    ensures geo.Valid()
    ensures forall l :: l in located ==> l.lat != 0.0 && l.lon != 0.0
    ensures clusterNodes.Threw? ==> located == [] && requested == [] && geo.cache == old(geo.cache)
    ensures clusterNodes.Returned? ==>
      Geolocation.Pass(located, requested, geo.cache) ==
      Geolocation.Visits(Geolocation.Pass([], [], old(geo.cache)),
                         Geolocation.Examined(GossipIps(clusterNodes.value)), fetch)
  {
    match clusterNodes {
      case Threw =>
        located, requested := [], [];
      case Returned(nodes) =>
        var nodeIps := GossipIps(nodes);
        located, requested := geo.GetGeoLocation(nodeIps, fetch);
    }
  }

  /** Every located node is for the host of some cluster node's gossip
      address, and there are at most fifty of them. */
  lemma NetworkNodesAreGossipHosts(nodes: seq<ContactInfo>, cache: map<string, Geolocation.Geo>,
                                   fetch: string -> Geolocation.Response)
    ensures var r := Geolocation.Visits(Geolocation.Pass([], [], cache),
                                        Geolocation.Examined(GossipIps(nodes)), fetch);
      |r.results| <= Geolocation.MaxIps &&
      forall l :: l in r.results ==>
        exists i :: 0 <= i < |nodes| && HasGossip(nodes[i]) && GossipHost(nodes[i]) == l.ip
  {
    var ips := GossipIps(nodes);
    var subset := Geolocation.Examined(ips);
    var start := Geolocation.Pass([], [], cache);
    Geolocation.ResultsFollowInputs(start, subset, fetch);
    var r := Geolocation.Visits(start, subset, fetch);
    var src := Geolocation.Sources(start, subset, fetch);
    forall l | l in r.results
      ensures exists i :: 0 <= i < |nodes| && HasGossip(nodes[i]) && GossipHost(nodes[i]) == l.ip
    {
      var k :| 0 <= k < |r.results| && r.results[k] == l;
      var ip := subset[src[k]];
      assert ip in ips by { assert ip == ips[src[k]]; }
      Geolocation.StripPortIdempotent(ip);
      GossipIpsMembers(nodes, ip);
      var i :| 0 <= i < |nodes| && HasGossip(nodes[i]) && GossipHost(nodes[i]) == ip;
      Geolocation.StripPortIdempotent(nodes[i].gossip.value);
    }
  }
}
