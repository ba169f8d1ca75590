/**
 * The metastore: a dictionary of asset records keyed by `asset_id`.
 *
 * Two variants exist in the repository. `Metastore` is the one that declares an
 * `updated_at` field and raises ValueError for a missing id. `LegacyMetastore` is
 * the copy repeated in four other files: it does not declare `updated_at`, so its
 * assignment `self.updated_at = ...` is refused by the model base class (ValueError
 * '"Metastore" object has no field "updated_at"') after the dictionary has changed,
 * and a missing id surfaces as the dictionary's KeyError.
 */
module Metastores {
  import opened Outcomes

  /** One catalogued artifact; timestamps are clock readings. */
  datatype MetastoreAsset = MetastoreAsset(
    assetId: string,
    assetType: string,
    description: Option<string>,
    location: string,
    schema: map<string, string>,
    createdAt: int,
    updatedAt: Option<int>,
    lineage: Option<seq<string>>)

  function NotFoundMessage(assetId: string): string {
    "Asset with ID " + assetId + " not found in the metastore."
  }

  /** What the model base class raises on assignment to an undeclared field. */
  const UndeclaredUpdatedAt := ValueError("\"Metastore\" object has no field \"updated_at\"")

  /** Every asset is filed under its own id: what add_asset keeps true. */
  ghost predicate KeyedById(assets: map<string, MetastoreAsset>) {
    forall id :: id in assets ==> assets[id].assetId == id
  }

  /** Storing a fresh id and then deleting it gives back the original map. */
  lemma AddThenRemoveRestores(assets: map<string, MetastoreAsset>, asset: MetastoreAsset)
    requires asset.assetId !in assets
    ensures assets[asset.assetId := asset] - {asset.assetId} == assets
  {
    var after := assets[asset.assetId := asset] - {asset.assetId};
    assert after.Keys == assets.Keys;
  }

  class Metastore {
    const metastoreId: string
    const repository: string
    var assets: map<string, MetastoreAsset>
    var updatedAt: int

    /** `Metastore(metastore_id=..., repository=...)`: no assets, stamped now. */
    constructor (metastoreId: string, repository: string, now: int)
      ensures this.metastoreId == metastoreId && this.repository == repository
      ensures assets == map[] && updatedAt == now
    {
      this.metastoreId := metastoreId;
      this.repository := repository;
      assets := map[];
      updatedAt := now;
    }

    /** Stores the asset under its id, replacing any asset held there, and stamps the store. */
    method AddAsset(asset: MetastoreAsset, now: int)
      modifies this
      ensures assets == old(assets)[asset.assetId := asset]
      ensures forall id :: id != asset.assetId ==> (id in assets <==> id in old(assets))
      ensures forall id :: id in old(assets) && id != asset.assetId ==> assets[id] == old(assets)[id]
      ensures KeyedById(old(assets)) ==> KeyedById(assets)
      ensures updatedAt == now
    {
      assets := assets[asset.assetId := asset];
      updatedAt := now;
    }

    /** The asset stored under the id, or ValueError when there is none. */
    function GetAsset(assetId: string): (r: Result<MetastoreAsset>)
      reads this
      ensures r.Ok? <==> assetId in assets
      ensures r.Ok? ==> r.value == assets[assetId]
      ensures r.Err? ==> r.error == ValueError(NotFoundMessage(assetId))
    {
      if assetId in assets then Ok(assets[assetId]) else Err(ValueError(NotFoundMessage(assetId)))
    }

    /** Deletes exactly that id and stamps the store; on a missing id raises and changes nothing. */
    method RemoveAsset(assetId: string, now: int) returns (r: Outcome)
      modifies this
      ensures r.Done? <==> assetId in old(assets)
      ensures r.Done? ==> assets == old(assets) - {assetId} && updatedAt == now
      ensures r.Raised? ==> r.error == ValueError(NotFoundMessage(assetId))
      ensures r.Raised? ==> assets == old(assets) && updatedAt == old(updatedAt)
      ensures KeyedById(old(assets)) ==> KeyedById(assets)
    {
      if assetId in assets {
        assets := assets - {assetId};
        updatedAt := now;
        r := Done;
      } else {
        r := Raised(ValueError(NotFoundMessage(assetId)));
      }
    }
  }

  class LegacyMetastore {
    const metastoreId: string
    const repository: string
    var assets: map<string, MetastoreAsset>

    /** The `assets` field defaults to an empty dictionary. */
    constructor (metastoreId: string, repository: string)
      ensures this.metastoreId == metastoreId && this.repository == repository
      ensures assets == map[]
    {
      this.metastoreId := metastoreId;
      this.repository := repository;
      assets := map[];
    }

    /** Stores the asset under its id (overwriting), then the stamp of `updated_at` raises. */
    method AddAsset(asset: MetastoreAsset) returns (r: Outcome)
      modifies this
      ensures assets == old(assets)[asset.assetId := asset]
      ensures forall id :: id in old(assets) && id != asset.assetId ==> id in assets && assets[id] == old(assets)[id]
      ensures r == Raised(UndeclaredUpdatedAt)
    {
      assets := assets[asset.assetId := asset];
      r := Raised(UndeclaredUpdatedAt);
    }

    /** `self.assets[asset_id]`: the stored asset, or KeyError. */
    function GetAsset(assetId: string): (r: Result<MetastoreAsset>)
      reads this
      ensures r.Ok? <==> assetId in assets
      ensures r.Ok? ==> r.value == assets[assetId]
      ensures r.Err? ==> r.error == KeyError(assetId)
    {
      if assetId in assets then Ok(assets[assetId]) else Err(KeyError(assetId))
    }

    /**
     * `del self.assets[asset_id]`: KeyError with no change on a missing id; otherwise the
     * key is gone and the stamp of `updated_at` raises.
     */
    method RemoveAsset(assetId: string) returns (r: Outcome)
      modifies this
      ensures assetId !in old(assets) ==> r == Raised(KeyError(assetId)) && assets == old(assets)
      ensures assetId in old(assets) ==> r == Raised(UndeclaredUpdatedAt) && assets == old(assets) - {assetId}
    {
      if assetId !in assets {
        return Raised(KeyError(assetId));
      }
      assets := assets - {assetId};
      r := Raised(UndeclaredUpdatedAt);
    }
  }

  /**
   * Exhibit for the undeclared field: on a fresh legacy metastore, add_asset raises
   * and yet the asset is stored.
   */
  method LegacyAddAssetRaisesAfterStoring(asset: MetastoreAsset) returns (r: Outcome, stored: bool)
    ensures r.Raised? && r.error.ValueError?
    ensures stored
  {
    var m := new LegacyMetastore("cda_metastore", "https://github.com/Cdaprod/cda.metastore");
    r := m.AddAsset(asset);
    stored := m.GetAsset(asset.assetId) == Ok(asset);
  }
}
