/** The telemetry hook: nine state cells, a full refresh (`fetchAll`) and a
    cluster-only refresh (`refreshClusterNodes`). Each refresh sets its
    loading flags, awaits its services, then writes its results; the two
    halves are separate steps because other steps can run during the await.
    Service results and the clock reading are inputs. */
module Telemetry {
  import opened Common
  import Solana

  /** Metadata about the cluster-address lookup (produced by
      `getClusterNodeIps`, which is not part of this model). */
  datatype ClusterMeta = ClusterMeta(rpcEndpoint: string, nodeCount: nat, candidateIps: nat, errors: seq<string>)

  /** What `getClusterNodeIps` resolves to. */
  datatype ClusterResult = ClusterResult(ips: seq<string>, meta: ClusterMeta)

  /** The results `fetchAll` awaits, one per service. */
  datatype FetchResults = FetchResults(
    validators: Option<nat>,
    tps: Option<Solana.Rate>,
    chainStats: Option<Solana.ChainStats>,
    cluster: ClusterResult)

  /** The values of the nine state cells. */
  datatype State = State(
    validators: Option<nat>,
    tps: Option<Solana.Rate>,
    energy: Option<Solana.EnergyStats>,
    chainStats: Option<Solana.ChainStats>,
    clusterIps: seq<string>,
    clusterMeta: Option<ClusterMeta>,
    loading: bool,
    loadingCluster: bool,
    lastUpdated: Option<int>)

  // ---------------------------------------------------------------------
  // Transitions as functions on the cell values
  // ---------------------------------------------------------------------

  /** The `useState` initial values. */
  function Initial(): State {
    State(None, None, None, None, [], None, true, true, None)
  }

  /** `fetchAll` before its await: both loading flags raised. */
  function FetchStarted(s: State): State {
    s.(loading := true, loadingCluster := true)
  }

  /** `fetchAll` after its await: every data cell written from the results,
      the energy derived from the validator count (`validatorsResult || 0`),
      the time stamped, and both flags lowered. */
  function FetchFinished(s: State, r: FetchResults, now: int): State {
    State(r.validators, r.tps, Solana.GetEnergyStats(r.validators.GetOr(0)), r.chainStats,
          r.cluster.ips, Some(r.cluster.meta), false, false, Some(now))
  }

  /** `refreshClusterNodes` before its await. */
  function RefreshStarted(s: State): State {
    s.(loadingCluster := true)
  }

  /** `refreshClusterNodes` after its await: only the cluster cells, the
      time stamp and the cluster flag are written. */
  function RefreshFinished(s: State, c: ClusterResult, now: int): State {
    s.(clusterIps := c.ips, clusterMeta := Some(c.meta), lastUpdated := Some(now), loadingCluster := false)
  }

  // ---------------------------------------------------------------------
  // The hook's state as an object
  // ---------------------------------------------------------------------

  class TelemetryHook {
    var validators: Option<nat>
    var tps: Option<Solana.Rate>
    var energy: Option<Solana.EnergyStats>
    var chainStats: Option<Solana.ChainStats>
    var clusterIps: seq<string>
    var clusterMeta: Option<ClusterMeta>
    var loading: bool
    var loadingCluster: bool
    var lastUpdated: Option<int>

    /** The current values of the cells. */
    function Snapshot(): State
      reads this
    {
      State(validators, tps, energy, chainStats, clusterIps, clusterMeta, loading, loadingCluster, lastUpdated)
    }

    /** The first render. */
    constructor ()
      ensures Snapshot() == Initial()
      ensures validators == None && tps == None && energy == None && chainStats == None
      ensures clusterIps == [] && clusterMeta == None && lastUpdated == None
      ensures loading && loadingCluster
    {
      validators, tps, energy, chainStats := None, None, None, None;
      clusterIps, clusterMeta := [], None;
      loading, loadingCluster := true, true;
      lastUpdated := None;
    }

    /** The part of `fetchAll` before its await. */
    method StartFetchAll()
      modifies this
      ensures Snapshot() == FetchStarted(old(Snapshot()))
    {
      loading := true;
      loadingCluster := true;
    }

    /** The part of `fetchAll` after its await. */
    method FinishFetchAll(results: FetchResults, now: int)
      modifies this
      ensures Snapshot() == FetchFinished(old(Snapshot()), results, now)
    {
      var energyResult := Solana.GetEnergyStats(results.validators.GetOr(0));
      validators := results.validators;
      tps := results.tps;
      energy := energyResult;
      chainStats := results.chainStats;
      clusterIps := results.cluster.ips;
      clusterMeta := Some(results.cluster.meta);
      lastUpdated := Some(now);
      loading := false;
      loadingCluster := false;
    }

    /** `fetchAll` with nothing running during its await. */
    method FetchAll(results: FetchResults, now: int)
      modifies this
      ensures Snapshot() == FetchFinished(FetchStarted(old(Snapshot())), results, now)
      ensures validators == results.validators && tps == results.tps
      ensures chainStats == results.chainStats
      ensures clusterIps == results.cluster.ips && clusterMeta == Some(results.cluster.meta)
      ensures energy == Solana.GetEnergyStats(results.validators.GetOr(0))
      ensures !loading && !loadingCluster && lastUpdated == Some(now)
    {
      StartFetchAll();
      assert loading && loadingCluster;
      FinishFetchAll(results, now);
    }

    /** The part of `refreshClusterNodes` before its await. */
    method StartRefreshClusterNodes()
      modifies this
      ensures Snapshot() == RefreshStarted(old(Snapshot()))
    {
      loadingCluster := true;
    }

    /** The part of `refreshClusterNodes` after its await. */
    method FinishRefreshClusterNodes(cluster: ClusterResult, now: int)
      modifies this
      ensures Snapshot() == RefreshFinished(old(Snapshot()), cluster, now)
    {
      clusterIps := cluster.ips;
      clusterMeta := Some(cluster.meta);
      lastUpdated := Some(now);
      loadingCluster := false;
    }

    /** `refreshClusterNodes` with nothing running during its await: the
        other cells, `loading` included, are left as they were. */
    method RefreshClusterNodes(cluster: ClusterResult, now: int)
      modifies this
      ensures Snapshot() == RefreshFinished(RefreshStarted(old(Snapshot())), cluster, now)
      ensures clusterIps == cluster.ips && clusterMeta == Some(cluster.meta)
      ensures !loadingCluster && lastUpdated == Some(now)
      ensures validators == old(validators) && tps == old(tps) && energy == old(energy)
      ensures chainStats == old(chainStats) && loading == old(loading)
    {
      StartRefreshClusterNodes();
      FinishRefreshClusterNodes(cluster, now);
    }
  }

  // ---------------------------------------------------------------------
  // Properties
  // ---------------------------------------------------------------------

  /** A completed cluster refresh leaves validators, tps, energy, chain
      statistics and the overall loading flag as they were, and overwrites
      the cluster cells whatever they held. */
  lemma RefreshTouchesOnlyCluster(s: State, c: ClusterResult, now: int)
    ensures var t := RefreshFinished(RefreshStarted(s), c, now);
      t.validators == s.validators && t.tps == s.tps && t.energy == s.energy &&
      t.chainStats == s.chainStats && t.loading == s.loading &&
      t.clusterIps == c.ips && t.clusterMeta == Some(c.meta) &&
      !t.loadingCluster && t.lastUpdated == Some(now)
  {
  }

  /** A completed `fetchAll` overwrites every cell: its outcome does not
      depend on the state it started from. */
  lemma FetchAllForgetsPriorState(s1: State, s2: State, r: FetchResults, now: int)
    ensures FetchFinished(FetchStarted(s1), r, now) == FetchFinished(FetchStarted(s2), r, now)
  {
  }

  /** A cluster refresh after a `fetchAll` ends where a `fetchAll` whose
      cluster lookup returned the refreshed result would have ended. */
  lemma RefreshAfterFetchAll(s: State, r: FetchResults, t1: int, c: ClusterResult, t2: int)
    ensures RefreshFinished(RefreshStarted(FetchFinished(FetchStarted(s), r, t1)), c, t2)
         == FetchFinished(FetchStarted(s), r.(cluster := c), t2)
  {
  }

  /** One step of the hook: either half of either refresh. Any interleaving
      of such steps is a possible history, overlapping refreshes included. */
  datatype Step =
    | BeginFetchAll
    | EndFetchAll(results: FetchResults, now: int)
    | BeginRefresh
    | EndRefresh(cluster: ClusterResult, now: int)

  /** The state a step leads to. */
  function Apply(s: State, e: Step): State {
    match e
    case BeginFetchAll => FetchStarted(s)
    case EndFetchAll(r, now) => FetchFinished(s, r, now)
    case BeginRefresh => RefreshStarted(s)
    case EndRefresh(c, now) => RefreshFinished(s, c, now)
  }

  /** The state after a history of steps from `s`. */
  function Replay(s: State, history: seq<Step>): State
    decreases |history|
  {
    if history == [] then s else Replay(Apply(s, history[0]), history[1..])
  }

  /** What holds of the cells at all times: the energy figure is the one
      derived from the validator count shown; a flag is only ever lowered
      together with stamping the time; and the cluster metadata and the time
      stamp are absent together, with no addresses before the first stamp. */
  predicate Coherent(s: State) {
    s.energy == Solana.GetEnergyStats(s.validators.GetOr(0)) &&
    (!s.loading ==> s.lastUpdated.Some?) &&
    (!s.loadingCluster ==> s.lastUpdated.Some?) &&
    (s.lastUpdated.None? <==> s.clusterMeta.None?) &&
    (s.lastUpdated.None? ==> s.clusterIps == [])
  }

  /** Every step keeps the cells coherent. */
  lemma StepKeepsCoherent(s: State, e: Step)
    requires Coherent(s)
    ensures Coherent(Apply(s, e))
  {
    match e
    case BeginFetchAll =>
    case EndFetchAll(r, now) =>
    case BeginRefresh =>
    case EndRefresh(c, now) =>
  }

  /** Whatever the interleaving of refreshes, the cells are coherent: they
      start so and every step keeps them so. */
  lemma {:induction false} AlwaysCoherent(s: State, history: seq<Step>)
    requires Coherent(s)
    ensures Coherent(Replay(s, history))
    decreases |history|
  {
    if history != [] {
      StepKeepsCoherent(s, history[0]);
      AlwaysCoherent(Apply(s, history[0]), history[1..]);
    }
  }

  /** The initial state is coherent, so every reachable state is. */
  lemma ReachableIsCoherent(history: seq<Step>)
    ensures Coherent(Replay(Initial(), history))
  {
    assert Solana.GetEnergyStats(0) == None;
    AlwaysCoherent(Initial(), history);
  }
}
