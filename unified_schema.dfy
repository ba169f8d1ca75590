/**
 * `UnifiedSchema`: ETL processes registered under a generated key, and the field
 * validator that refuses an id shared by two already-validated collections.
 */
module UnifiedSchemaRegistry {
  import opened Outcomes
  import opened EtlValidation

  /** An ETL process; sources and destinations are given by their ids. */
  datatype EtlProcess = EtlProcess(
    sources: seq<string>,
    transformations: seq<Transformation>,
    destinations: seq<string>,
    jobId: string)

  /** The longest length among a set of keys. */
  ghost function MaxLength(keys: set<string>): (n: nat)
    ensures forall k :: k in keys ==> |k| <= n
    decreases keys
  {
    if keys == {} then 0
    else
      var k :| k in keys;
      var rest := MaxLength(keys - {k});
      if |k| > rest then |k| else rest
  }

  /** A key not yet in use always exists, so the generated id can be taken to be fresh. */
  lemma FreshIdExists(keys: set<string>)
    ensures exists id: string :: id !in keys
  {
    var id: string := seq(MaxLength(keys) + 1, _ => 'x');
    assert id !in keys;
  }

  class UnifiedSchema {
    var etlProcesses: map<string, EtlProcess>

    constructor ()
      ensures etlProcesses == map[]
    {
      etlProcesses := map[];
    }

    /**
     * `register_etl_process`: `uniqueId` is what `generate_unique_id()` returned. The process
     * is stored under it (a colliding id would be overwritten); with a fresh id the registry
     * grows by exactly one entry.
     */
    method RegisterEtlProcess(process: EtlProcess, uniqueId: string)
      modifies this
      ensures etlProcesses == old(etlProcesses)[uniqueId := process]
      ensures uniqueId !in old(etlProcesses) ==> |etlProcesses| == |old(etlProcesses)| + 1
      ensures forall k :: k in old(etlProcesses) && k != uniqueId ==> k in etlProcesses && etlProcesses[k] == old(etlProcesses)[k]
    {
      etlProcesses := etlProcesses[uniqueId := process];
    }

    /** Lookup by the generated key (the parameter is named `job_id`, but no job id is consulted). */
    function GetEtlProcess(jobId: string): (r: Result<EtlProcess>)
      reads this
      ensures r.Ok? <==> jobId in etlProcesses
      ensures r.Ok? ==> r.value == etlProcesses[jobId]
      ensures r.Err? ==> r.error == KeyError(jobId)
    {
      if jobId in etlProcesses then Ok(etlProcesses[jobId]) else Err(KeyError(jobId))
    }
  }

  /** A process registered under a generated key cannot be found by its job id. */
  method LookupByJobIdFails(process: EtlProcess, uniqueId: string) returns (r: Result<EtlProcess>, s: Result<EtlProcess>)
    requires uniqueId != process.jobId
    ensures r == Err(KeyError(process.jobId))
    ensures s == Ok(process)
  {
    var schema := new UnifiedSchema();
    schema.RegisterEtlProcess(process, uniqueId);
    r := schema.GetEtlProcess(process.jobId);
    s := schema.GetEtlProcess(uniqueId);
  }

  // ensure_ids_are_unique

  /** Dictionary keys never repeat within one collection. */
  predicate DistinctKeys(keys: seq<string>) {
    forall i, j :: 0 <= i < j < |keys| ==> keys[i] != keys[j]
  }

  /** All keys of the first collections. */
  function KeysOf(collections: seq<seq<string>>): (ids: set<string>)
    ensures forall id :: id in ids <==> exists c, k :: 0 <= c < |collections| && 0 <= k < |collections[c]| && collections[c][k] == id
  {
    if collections == [] then {}
    else
      var last := |collections| - 1;
      var ids := KeysOf(collections[..last]) + set k | 0 <= k < |collections[last]| :: collections[last][k];
      assert forall c :: 0 <= c < last ==> collections[..last][c] == collections[c];
      ids
  }

  /** `id` is a key of two different collections. */
  ghost predicate Shared(collections: seq<seq<string>>, id: string) {
    exists c, d, k, l :: 0 <= c < d < |collections| && 0 <= k < |collections[c]| && 0 <= l < |collections[d]|
      && collections[c][k] == id && collections[d][l] == id
  }

  /** No key is shared by two of the collections. */
  predicate PairwiseDisjoint(collections: seq<seq<string>>) {
    forall c, d, k, l :: 0 <= c < d < |collections| && 0 <= k < |collections[c]| && 0 <= l < |collections[d]| ==>
      collections[c][k] != collections[d][l]
  }

  /**
   * Key `k` of collection `c` is the first key in scan order that was seen before: the
   * earlier collections share no key, and no earlier key of collection `c` was seen.
   */
  ghost predicate FirstDuplicateAt(validated: seq<seq<string>>, c: int, k: int) {
    0 <= c < |validated| && 0 <= k < |validated[c]|
    && validated[c][k] in KeysOf(validated[..c])
    && PairwiseDisjoint(validated[..c])
    && forall j :: 0 <= j < k ==> validated[c][j] !in KeysOf(validated[..c])
  }

  function DuplicateMessage(id: string): string {
    "Duplicate ID found: " + id
  }

  /** A key of collection `c` already seen in an earlier collection is shared. */
  lemma SeenEarlierIsShared(validated: seq<seq<string>>, c: nat, k: nat)
    requires c < |validated| && k < |validated[c]|
    requires validated[c][k] in KeysOf(validated[..c])
    ensures Shared(validated, validated[c][k])
  {
    var id := validated[c][k];
    var c', k' :| 0 <= c' < c && 0 <= k' < |validated[..c][c']| && validated[..c][c'][k'] == id;
    assert validated[c'][k'] == id;
  }

  /** A collection none of whose keys were seen before extends the disjoint prefix. */
  lemma DisjointPrefixGrows(validated: seq<seq<string>>, c: nat)
    requires c < |validated|
    requires PairwiseDisjoint(validated[..c])
    requires forall j :: 0 <= j < |validated[c]| ==> validated[c][j] !in KeysOf(validated[..c])
    ensures PairwiseDisjoint(validated[..c + 1])
    ensures KeysOf(validated[..c + 1]) == KeysOf(validated[..c]) + set j | 0 <= j < |validated[c]| :: validated[c][j]
  {
    assert validated[..c + 1][..c] == validated[..c];
    assert forall c1, k1 :: 0 <= c1 < c && 0 <= k1 < |validated[c1]| ==> validated[..c][c1][k1] in KeysOf(validated[..c]);
  }

  /**
   * `validated` lists, in field order, the keys of each collection that was already
   * validated (`values`). Raises on the first key met a second time; otherwise returns
   * the item unchanged.
   */
  method EnsureIdsAreUnique<V>(v: V, validated: seq<seq<string>>) returns (r: Result<V>)
    requires forall c :: 0 <= c < |validated| ==> DistinctKeys(validated[c])
    ensures r.Ok? <==> forall id :: !Shared(validated, id)
    ensures r.Ok? ==> r.value == v
    ensures r.Err? ==> exists id :: Shared(validated, id) && r.error == ValueError(DuplicateMessage(id))
    ensures r.Err? ==> exists c, k :: FirstDuplicateAt(validated, c, k) && r.error == ValueError(DuplicateMessage(validated[c][k]))
  {
    var seen: set<string> := {};
    var c := 0;
    while c < |validated|
      invariant 0 <= c <= |validated|
      invariant seen == KeysOf(validated[..c])
      invariant PairwiseDisjoint(validated[..c])
    {
      var k := 0;
      while k < |validated[c]|
        invariant 0 <= k <= |validated[c]|
        invariant seen == KeysOf(validated[..c]) + set j | 0 <= j < k :: validated[c][j]
        invariant forall j :: 0 <= j < k ==> validated[c][j] !in KeysOf(validated[..c])
      {
        var id := validated[c][k];
        if id in seen {
          assert forall j :: 0 <= j < k ==> validated[c][j] != id;
          SeenEarlierIsShared(validated, c, k);
          assert FirstDuplicateAt(validated, c, k);
          return Err(ValueError(DuplicateMessage(id)));
        }
        seen := seen + {id};
        k := k + 1;
      }
      DisjointPrefixGrows(validated, c);
      c := c + 1;
    }
    assert validated[..c] == validated;
    return Ok(v);
  }
}
