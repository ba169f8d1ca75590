/**
 * `BuildDataLake`: fills a held `Cdaprod` from lists of repository, client and asset
 * configurations, in that order, and hands the same `Cdaprod` back.
 */
module Builder {
  import opened Outcomes
  import opened Metastores
  import opened Services

  /** `apps` is None for a plain repository. */
  datatype RepoConfig = RepoConfig(repoUrl: string, apps: Option<seq<string>>, name: Option<string>)

  /** `credentials` is not a field of the connection model, so it is dropped on construction. */
  datatype ClientConfig = ClientConfig(serviceName: string, hostname: string, credentials: map<string, string>)

  /** The one-key entry `register_repository` appends: keyed by the kind of repository. */
  function RepositoryEntry(config: RepoConfig): (e: ServiceEntry)
    ensures config.apps.Some? ==> e == map["LangChainRepo" := LangChainRepoService(config.repoUrl, config.apps.value)]
    ensures config.apps.None? ==> e == map["Repository" := RepositoryService(config.repoUrl, config.name)]
  {
    if config.apps.Some? then map["LangChainRepo" := LangChainRepoService(config.repoUrl, config.apps.value)]
    else map["Repository" := RepositoryService(config.repoUrl, config.name)]
  }

  function ClientEntry(config: ClientConfig): (e: ServiceEntry)
    ensures e.Keys == {"ClientConnection"}
    ensures e["ClientConnection"] == ConnectionService(config.serviceName, Some(config.hostname))
  {
    map["ClientConnection" := ConnectionService(config.serviceName, Some(config.hostname))]
  }

  function RepositoryEntries(repos: seq<RepoConfig>): (es: seq<ServiceEntry>)
    ensures |es| == |repos|
    ensures forall i :: 0 <= i < |repos| ==> es[i] == RepositoryEntry(repos[i])
  {
    seq(|repos|, i requires 0 <= i < |repos| => RepositoryEntry(repos[i]))
  }

  function ClientEntries(clients: seq<ClientConfig>): (es: seq<ServiceEntry>)
    ensures |es| == |clients|
    ensures forall i :: 0 <= i < |clients| ==> es[i] == ClientEntry(clients[i])
  {
    seq(|clients|, i requires 0 <= i < |clients| => ClientEntry(clients[i]))
  }

  /** `add_asset` for each asset in list order. */
  function PutAll(assets: map<string, MetastoreAsset>, list: seq<MetastoreAsset>): (r: map<string, MetastoreAsset>)
    ensures forall id :: id in r <==> id in assets || exists i :: 0 <= i < |list| && list[i].assetId == id
    ensures forall id :: id in assets && (forall i :: 0 <= i < |list| ==> list[i].assetId != id) ==> r[id] == assets[id]
  {
    if list == [] then assets
    else
      var last := |list| - 1;
      assert forall i :: 0 <= i < last ==> list[..last][i] == list[i];
      PutAll(assets, list[..last])[list[last].assetId := list[last]]
  }

  /** The assets stay filed under their own ids. */
  lemma {:induction false} PutAllKeyedById(assets: map<string, MetastoreAsset>, list: seq<MetastoreAsset>)
    requires KeyedById(assets)
    ensures KeyedById(PutAll(assets, list))
  {
    if list != [] {
      PutAllKeyedById(assets, list[..|list| - 1]);
    }
  }

  /** For an id listed more than once, the last asset with that id is the one kept. */
  lemma {:induction false} PutAllLastWins(assets: map<string, MetastoreAsset>, list: seq<MetastoreAsset>, i: nat)
    requires i < |list|
    requires forall j :: i < j < |list| ==> list[j].assetId != list[i].assetId
    ensures PutAll(assets, list)[list[i].assetId] == list[i]
  {
    var last := |list| - 1;
    if i < last {
      assert forall j :: i < j < last ==> list[..last][j] == list[j];
      PutAllLastWins(assets, list[..last], i);
    }
  }

  /** A lookup over two lists of entries: the first list is searched completely first. */
  lemma {:induction false} FindServiceConcat(a: seq<ServiceEntry>, b: seq<ServiceEntry>, name: string)
    ensures (forall i :: 0 <= i < |a| ==> name !in a[i]) ==> FindService(a + b, name) == FindService(b, name)
    ensures (exists i :: 0 <= i < |a| && name in a[i]) ==> FindService(a + b, name) == FindService(a, name)
  {
    if a != [] {
      assert (a + b)[1..] == a[1..] + b;
      assert forall i :: 0 <= i < |a[1..]| ==> a[1..][i] == a[i + 1];
      FindServiceConcat(a[1..], b, name);
    } else {
      assert a + b == b;
    }
  }

  class BuildDataLake {
    const cdaprod: Cdaprod

    constructor (cdaprod: Cdaprod)
      ensures this.cdaprod == cdaprod
    {
      this.cdaprod := cdaprod;
    }

    method RegisterRepository(config: RepoConfig)
      modifies cdaprod
      ensures cdaprod.services == old(cdaprod.services) + [RepositoryEntry(config)]
    {
      if config.apps.Some? {
        cdaprod.AddService("LangChainRepo", LangChainRepoService(config.repoUrl, config.apps.value));
      } else {
        cdaprod.AddService("Repository", RepositoryService(config.repoUrl, config.name));
      }
    }

    method RegisterClient(config: ClientConfig)
      modifies cdaprod
      ensures cdaprod.services == old(cdaprod.services) + [ClientEntry(config)]
    {
      cdaprod.AddService("ClientConnection", ConnectionService(config.serviceName, Some(config.hostname)));
    }

    /** Hands the asset to the metastore's `add_asset`; the service list is not touched. */
    method RegisterMetastoreAsset(asset: MetastoreAsset, now: int)
      modifies cdaprod.metastore
      ensures cdaprod.metastore.assets == old(cdaprod.metastore.assets)[asset.assetId := asset]
      ensures cdaprod.metastore.updatedAt == now
      ensures cdaprod.services == old(cdaprod.services)
    {
      cdaprod.metastore.AddAsset(asset, now);
    }

    /**
     * Repositories, then clients, then assets, each in list order; returns the held
     * `Cdaprod`. `now` is the clock reading each `add_asset` takes.
     */
    method Build(repos: seq<RepoConfig>, clients: seq<ClientConfig>, assets: seq<MetastoreAsset>, now: int) returns (r: Cdaprod)
      modifies cdaprod, cdaprod.metastore
      ensures r == cdaprod
      ensures cdaprod.services == old(cdaprod.services) + RepositoryEntries(repos) + ClientEntries(clients)
      ensures cdaprod.metastore.assets == PutAll(old(cdaprod.metastore.assets), assets)
      ensures cdaprod.metastore.updatedAt == if assets == [] then old(cdaprod.metastore.updatedAt) else now
    {
      var i := 0;
      while i < |repos|
        invariant 0 <= i <= |repos|
        invariant cdaprod.services == old(cdaprod.services) + RepositoryEntries(repos[..i])
        invariant cdaprod.metastore.assets == old(cdaprod.metastore.assets)
        invariant cdaprod.metastore.updatedAt == old(cdaprod.metastore.updatedAt)
      {
        RegisterRepository(repos[i]);
        assert RepositoryEntries(repos[..i + 1]) == RepositoryEntries(repos[..i]) + [RepositoryEntry(repos[i])];
        i := i + 1;
      }
      assert repos[..i] == repos;
      ghost var afterRepos := cdaprod.services;
      i := 0;
      while i < |clients|
        invariant 0 <= i <= |clients|
        invariant cdaprod.services == afterRepos + ClientEntries(clients[..i])
        invariant cdaprod.metastore.assets == old(cdaprod.metastore.assets)
        invariant cdaprod.metastore.updatedAt == old(cdaprod.metastore.updatedAt)
      {
        RegisterClient(clients[i]);
        assert ClientEntries(clients[..i + 1]) == ClientEntries(clients[..i]) + [ClientEntry(clients[i])];
        i := i + 1;
      }
      assert clients[..i] == clients;
      i := 0;
      while i < |assets|
        invariant 0 <= i <= |assets|
        invariant cdaprod.services == afterRepos + ClientEntries(clients)
        invariant cdaprod.metastore.assets == PutAll(old(cdaprod.metastore.assets), assets[..i])
        invariant cdaprod.metastore.updatedAt == if i == 0 then old(cdaprod.metastore.updatedAt) else now
      {
        RegisterMetastoreAsset(assets[i], now);
        assert assets[..i + 1][..i] == assets[..i];
        i := i + 1;
      }
      assert assets[..i] == assets;
      return cdaprod;
    }
  }

  /**
   * The asset loop of `build` as written, against the metastore class that lacks the
   * `updated_at` field: the first `add_asset` stores its asset and then raises, so the
   * loop never reaches a second asset and `build` never returns.
   */
  method LegacyBuildAssets(metastore: LegacyMetastore, assets: seq<MetastoreAsset>) returns (r: Outcome)
    modifies metastore
    ensures assets == [] ==> r == Done && metastore.assets == old(metastore.assets)
    ensures assets != [] ==> r == Raised(UndeclaredUpdatedAt)
                             && metastore.assets == old(metastore.assets)[assets[0].assetId := assets[0]]
  {
    r := Done;
    var i := 0;
    while i < |assets| && r.Done?
      invariant 0 <= i <= |assets|
      invariant r.Done? ==> i == 0 && metastore.assets == old(metastore.assets)
      invariant r.Raised? ==> i == 1 && r == Raised(UndeclaredUpdatedAt)
                              && metastore.assets == old(metastore.assets)[assets[0].assetId := assets[0]]
    {
      r := metastore.AddAsset(assets[i]);
      i := i + 1;
    }
  }

  /**
   * Exhibit: building with two assets of different ids against a fresh legacy metastore
   * raises ValueError with the first asset stored and the second never filed.
   */
  method LegacyBuildStopsAtFirstAsset(first: MetastoreAsset, second: MetastoreAsset)
    returns (r: Outcome, firstStored: bool, secondStored: bool)
    requires first.assetId != second.assetId
    ensures r == Raised(UndeclaredUpdatedAt)
    ensures firstStored && !secondStored
  {
    var m := new LegacyMetastore("metastore1", "https://github.com/Cdaprod/metastore-repo");
    r := LegacyBuildAssets(m, [first, second]);
    firstStored := m.GetAsset(first.assetId) == Ok(first);
    secondStored := m.GetAsset(second.assetId).Ok?;
  }

  /**
   * After a build, the name "ClientConnection" resolves to the first client of the list
   * when no earlier entry carried it: later clients are shadowed by first-match lookup.
   */
  lemma BuiltClientLookup(before: seq<ServiceEntry>, repos: seq<RepoConfig>, clients: seq<ClientConfig>)
    requires forall i :: 0 <= i < |before| ==> "ClientConnection" !in before[i]
    requires clients != []
    ensures FindService(before + RepositoryEntries(repos) + ClientEntries(clients), "ClientConnection")
         == Ok(ConnectionService(clients[0].serviceName, Some(clients[0].hostname)))
  {
    var prefix := before + RepositoryEntries(repos);
    assert forall i :: 0 <= i < |prefix| ==> "ClientConnection" !in prefix[i] by {
      forall i | 0 <= i < |prefix| ensures "ClientConnection" !in prefix[i] {
        if i >= |before| {
          assert prefix[i] == RepositoryEntry(repos[i - |before|]);
        }
      }
    }
    FindServiceConcat(prefix, ClientEntries(clients), "ClientConnection");
  }
}
