/**
 * The LangChain component registry: runnables with a status field, chains, pipelines
 * and agents holding children by id, the four-category feature store, and the repo
 * that files an app's components into the store under a name derived from their class.
 */
module LangChain {
  import opened Outcomes

  // Runnable

  const NotStarted := "not started"
  const Running := "running"
  const Completed := "completed"
  const ErrorStatus := "error"

  /** What `exec(self.script)` did: it returned, or it raised an exception whose `str` is `message`. */
  datatype Execution = Returned | Failed(message: string)

  class Runnable {
    const id: string
    const name: string
    const description: string
    const script: string
    const input: string
    var output: Option<string>
    var status: string
    var error: Option<string>
    /** Every value assigned to `status`, in order. */
    ghost var statusTrail: seq<string>

    constructor (id: string, name: string, description: string, script: string, input: string)
      ensures this.id == id && this.name == name && this.description == description
      ensures this.script == script && this.input == input
      ensures status == NotStarted && output == None && error == None
      ensures statusTrail == []
    {
      this.id := id;
      this.name := name;
      this.description := description;
      this.script := script;
      this.input := input;
      output := None;
      status := NotStarted;
      error := None;
      statusTrail := [];
    }

    /**
     * `run` with the script executed: "running", then "completed" when the script
     * returns, or "error" with the exception text when it raises. `output` is never set.
     */
    method Run(execution: Execution)
      modifies this
      ensures execution.Returned? ==> status == Completed && error == old(error)
      ensures execution.Failed? ==> status == ErrorStatus && error == Some(execution.message)
      ensures statusTrail == old(statusTrail) + [Running, status]
      ensures output == old(output)
    {
      status := Running;
      statusTrail := statusTrail + [status];
      match execution {
        case Returned =>
          status := Completed;
        case Failed(message) =>
          status := ErrorStatus;
          error := Some(message);
      }
      statusTrail := statusTrail + [status];
    }

    /** `run` with the `exec` line commented out: nothing can raise, so it always completes. */
    method RunWithoutExec()
      modifies this
      ensures status == Completed && error == old(error) && output == old(output)
      ensures statusTrail == old(statusTrail) + [Running, Completed]
    {
      status := Running;
      statusTrail := statusTrail + [status];
      status := Completed;
      statusTrail := statusTrail + [status];
    }
  }

  // Chain, Pipeline, Agent

  class Chain {
    const id: string
    const name: string
    const description: string
    var runnables: map<string, Runnable>

    constructor (id: string, runnables: map<string, Runnable>, name: string, description: string)
      ensures this.id == id && this.runnables == runnables
      ensures this.name == name && this.description == description
    {
      this.id := id;
      this.runnables := runnables;
      this.name := name;
      this.description := description;
    }

    /** Files the runnable under its own id, replacing a child with the same id. */
    method AddRunnable(runnable: Runnable)
      modifies this
      ensures runnable.id in runnables && runnables[runnable.id] == runnable
      ensures forall k :: k in old(runnables) && k != runnable.id ==> k in runnables && runnables[k] == old(runnables)[k]
      ensures runnables.Keys == old(runnables).Keys + {runnable.id}
    {
      runnables := runnables[runnable.id := runnable];
    }
  }

  class Pipeline {
    const id: string
    const name: string
    const description: string
    var chains: map<string, Chain>

    constructor (id: string, chains: map<string, Chain>, name: string, description: string)
      ensures this.id == id && this.chains == chains
      ensures this.name == name && this.description == description
    {
      this.id := id;
      this.chains := chains;
      this.name := name;
      this.description := description;
    }

    method AddChain(chain: Chain)
      modifies this
      ensures chain.id in chains && chains[chain.id] == chain
      ensures forall k :: k in old(chains) && k != chain.id ==> k in chains && chains[k] == old(chains)[k]
      ensures chains.Keys == old(chains).Keys + {chain.id}
    {
      chains := chains[chain.id := chain];
    }
  }

  class Agent {
    const id: string
    const name: string
    const description: string
    var pipelines: map<string, Pipeline>

    constructor (id: string, pipelines: map<string, Pipeline>, name: string, description: string)
      ensures this.id == id && this.pipelines == pipelines
      ensures this.name == name && this.description == description
    {
      this.id := id;
      this.pipelines := pipelines;
      this.name := name;
      this.description := description;
    }

    method AddPipeline(pipeline: Pipeline)
      modifies this
      ensures pipeline.id in pipelines && pipelines[pipeline.id] == pipeline
      ensures forall k :: k in old(pipelines) && k != pipeline.id ==> k in pipelines && pipelines[k] == old(pipelines)[k]
      ensures pipelines.Keys == old(pipelines).Keys + {pipeline.id}
    {
      pipelines := pipelines[pipeline.id := pipeline];
    }
  }

  // FeatureStore

  /** Category name to (feature name to feature). */
  type Store<F> = map<string, map<string, F>>

  const Categories: set<string> := {"runnables", "chains", "pipelines", "agents"}

  function InitialStore<F>(): (s: Store<F>)
    ensures s.Keys == Categories
    ensures forall c :: c in s ==> s[c] == map[]
  {
    map["runnables" := map[], "chains" := map[], "pipelines" := map[], "agents" := map[]]
  }

  function InvalidFeatureType(featureType: string): PyError {
    ValueError("Invalid feature type: " + featureType)
  }

  /** `add_feature` on a store value: refuse an unknown category, else set the name in it. */
  function AddFeatureTo<F>(store: Store<F>, featureType: string, name: string, feature: F): (r: Result<Store<F>>)
    ensures r.Ok? <==> featureType in store
    ensures r.Err? ==> r.error == InvalidFeatureType(featureType)
    ensures r.Ok? ==> r.value.Keys == store.Keys
  {
    if featureType !in store then Err(InvalidFeatureType(featureType))
    else Ok(store[featureType := store[featureType][name := feature]])
  }

  /** `get_feature` on a store value: refuse an unknown category, else `dict.get`. */
  function FeatureIn<F>(store: Store<F>, featureType: string, name: string): (r: Result<Option<F>>)
    ensures r.Err? <==> featureType !in store
    ensures r.Err? ==> r.error == InvalidFeatureType(featureType)
    ensures r.Ok? ==> (r.value.Some? <==> name in store[featureType])
    ensures r.Ok? && r.value.Some? ==> r.value.value == store[featureType][name]
  {
    if featureType !in store then Err(InvalidFeatureType(featureType))
    else if name in store[featureType] then Ok(Some(store[featureType][name]))
    else Ok(None)
  }

  /** `delete_feature` on a store value: removes the name, or does nothing. */
  function DeleteFeatureFrom<F>(store: Store<F>, featureType: string, name: string): (r: Store<F>)
    ensures r.Keys == store.Keys
    ensures featureType in store ==> r[featureType].Keys == store[featureType].Keys - {name}
    ensures forall c :: c in store && c != featureType ==> r[c] == store[c]
  {
    if featureType in store && name in store[featureType] then store[featureType := store[featureType] - {name}]
    else store
  }

  /** What was added is what is read back. */
  lemma GetAfterAdd<F>(store: Store<F>, featureType: string, name: string, feature: F)
    requires featureType in store
    ensures FeatureIn(AddFeatureTo(store, featureType, name, feature).value, featureType, name) == Ok(Some(feature))
  {
  }

  /** Adding touches no other name and no other category, and never changes the set of categories. */
  lemma AddLeavesOthers<F>(store: Store<F>, featureType: string, name: string, feature: F, otherType: string, otherName: string)
    requires featureType in store
    requires otherType != featureType || otherName != name
    ensures FeatureIn(AddFeatureTo(store, featureType, name, feature).value, otherType, otherName) == FeatureIn(store, otherType, otherName)
  {
  }

  /** Deleting removes exactly one name; deleting something absent changes nothing. */
  lemma DeleteRemovesOnlyName<F>(store: Store<F>, featureType: string, name: string, otherType: string, otherName: string)
    requires otherType != featureType || otherName != name
    ensures DeleteFeatureFrom(store, featureType, name).Keys == store.Keys
    ensures featureType in store ==> FeatureIn(DeleteFeatureFrom(store, featureType, name), featureType, name) == Ok(None)
    ensures FeatureIn(DeleteFeatureFrom(store, featureType, name), otherType, otherName) == FeatureIn(store, otherType, otherName)
    ensures featureType !in store || name !in store[featureType] ==> DeleteFeatureFrom(store, featureType, name) == store
  {
  }

  class FeatureStore<F> {
    var store: Store<F>

    constructor ()
      ensures store == InitialStore()
    {
      store := InitialStore();
    }

    /** Raises ValueError and changes nothing for an unknown category. */
    method AddFeature(featureType: string, name: string, feature: F) returns (r: Outcome)
      modifies this
      ensures AddFeatureTo(old(store), featureType, name, feature).Ok? ==>
                r == Done && store == AddFeatureTo(old(store), featureType, name, feature).value
      ensures AddFeatureTo(old(store), featureType, name, feature).Err? ==>
                r == Raised(InvalidFeatureType(featureType)) && store == old(store)
    {
      if featureType !in store {
        return Raised(InvalidFeatureType(featureType));
      }
      store := store[featureType := store[featureType][name := feature]];
      return Done;
    }

    /** ValueError for an unknown category, else the stored feature or None. */
    function GetFeature(featureType: string, name: string): (r: Result<Option<F>>)
      reads this
      ensures r.Err? <==> featureType !in store
      ensures r.Ok? ==> (r.value.Some? <==> name in store[featureType])
      ensures r.Ok? && r.value.Some? ==> r.value.value == store[featureType][name]
    {
      FeatureIn(store, featureType, name)
    }

    method DeleteFeature(featureType: string, name: string)
      modifies this
      ensures store == DeleteFeatureFrom(old(store), featureType, name)
    {
      if featureType in store && name in store[featureType] {
        store := store[featureType := store[featureType] - {name}];
      }
    }
  }

  // LangChainRepo.create_app

  /** ASCII `str.lower` of one character. */
  function LowerChar(c: char): char {
    if 'A' <= c <= 'Z' then (c as int + 32) as char else c
  }

  function Lower(s: string): (r: string)
    ensures |r| == |s|
    ensures forall i :: 0 <= i < |s| ==> r[i] == LowerChar(s[i])
  {
    seq(|s|, i requires 0 <= i < |s| => LowerChar(s[i]))
  }

  /** `component_type.__name__.lower() + 's'` */
  function CategoryName(className: string): (c: string)
    ensures |c| == |className| + 1 && c[|className|] == 's'
    ensures c[..|className|] == Lower(className)
  {
    Lower(className) + "s"
  }

  /** A class is accepted exactly when its lower-cased name is one of the four singular kinds. */
  lemma CategoryNameAccepted(className: string)
    ensures CategoryName(className) in Categories <==> Lower(className) in {"runnable", "chain", "pipeline", "agent"}
  {
    var c := CategoryName(className);
    var l := Lower(className);
    assert c == l + "s";
    if c == "runnables" {
      assert l == c[..8] == "runnable";
    } else if c == "chains" {
      assert l == c[..5] == "chain";
    } else if c == "pipelines" {
      assert l == c[..8] == "pipeline";
    } else if c == "agents" {
      assert l == c[..5] == "agent";
    }
  }

  /** One entry of the `components` dict: a class and its instances by name, in insertion order. */
  datatype ComponentGroup<F> = ComponentGroup(className: string, instances: seq<(string, F)>)

  /** One `add_feature` call that `create_app` makes. */
  datatype Item<F> = Item(category: string, name: string, feature: F)

  /** The calls made for one group's instances, in order. */
  function GroupItems<F>(className: string, instances: seq<(string, F)>): (items: seq<Item<F>>)
    ensures |items| == |instances|
    ensures forall i :: 0 <= i < |items| ==>
              items[i] == Item(CategoryName(className), instances[i].0, instances[i].1)
  {
    if instances == [] then []
    else [Item(CategoryName(className), instances[0].0, instances[0].1)] + GroupItems(className, instances[1..])
  }

  /** The calls of the nested loop, in order: a group with no instances makes none. */
  function Flatten<F>(groups: seq<ComponentGroup<F>>): seq<Item<F>> {
    if groups == [] then []
    else GroupItems(groups[0].className, groups[0].instances) + Flatten(groups[1..])
  }

  /** `item` is the call for some instance of some group, under that group's category. */
  ghost predicate FromInstance<F>(groups: seq<ComponentGroup<F>>, item: Item<F>) {
    exists g, i :: 0 <= g < |groups| && 0 <= i < |groups[g].instances|
                   && item == Item(CategoryName(groups[g].className), groups[g].instances[i].0, groups[g].instances[i].1)
  }

  /** Every call comes from some instance of some group, under that group's category. */
  lemma {:induction false} FlattenFromInstances<F>(groups: seq<ComponentGroup<F>>)
    ensures forall k :: 0 <= k < |Flatten(groups)| ==> FromInstance(groups, Flatten(groups)[k])
    decreases |groups|
  {
    if groups != [] {
      var items := Flatten(groups);
      var head := GroupItems(groups[0].className, groups[0].instances);
      var rest := groups[1..];
      assert items == head + Flatten(rest);
      FlattenFromInstances(rest);
      forall k | 0 <= k < |items|
        ensures FromInstance(groups, items[k])
      {
        if k < |head| {
          assert items[k] == Item(CategoryName(groups[0].className), groups[0].instances[k].0, groups[0].instances[k].1);
        } else {
          assert items[k] == Flatten(rest)[k - |head|];
          assert FromInstance(rest, Flatten(rest)[k - |head|]);
          var g, i :| 0 <= g < |rest| && 0 <= i < |rest[g].instances|
                      && items[k] == Item(CategoryName(rest[g].className), rest[g].instances[i].0, rest[g].instances[i].1);
          assert rest[g] == groups[g + 1];
        }
      }
    }
  }

  /** Item `i` is the first whose category the store does not hold. */
  ghost predicate FirstInvalid<F>(categories: set<string>, items: seq<Item<F>>, i: int) {
    0 <= i < |items| && items[i].category !in categories
    && forall j :: 0 <= j < i ==> items[j].category in categories
  }

  /** How many leading calls name a known category: the calls `create_app` gets through. */
  function CallsReached<F>(categories: set<string>, items: seq<Item<F>>): (n: nat)
    ensures n <= |items|
  {
    if items == [] || items[0].category !in categories then 0
    else 1 + CallsReached(categories, items[1..])
  }

  /** The reached count stops exactly at the first unknown category, if there is one. */
  lemma {:induction false} CallsReachedStops<F>(categories: set<string>, items: seq<Item<F>>)
    ensures forall j :: 0 <= j < CallsReached(categories, items) ==> items[j].category in categories
    ensures CallsReached(categories, items) < |items| ==> FirstInvalid(categories, items, CallsReached(categories, items))
    ensures CallsReached(categories, items) == |items| <==> forall j :: 0 <= j < |items| ==> items[j].category in categories
    decreases |items|
  {
    if items != [] && items[0].category in categories {
      var rest := items[1..];
      CallsReachedStops(categories, rest);
      assert forall j :: 0 <= j < |rest| ==> rest[j] == items[j + 1];
    }
  }

  /**
   * The calls made one after another, stopping at the first that raises: the store as
   * the calls left it, and whether one raised.
   */
  function AddAll<F>(store: Store<F>, items: seq<Item<F>>): (r: (Store<F>, Outcome))
    ensures r.0.Keys == store.Keys
    ensures forall c, n :: c in store && n in store[c] ==> n in r.0[c]
    ensures r.1.Raised? <==> CallsReached(store.Keys, items) < |items|
    ensures r.1.Raised? ==> r.1.error == InvalidFeatureType(items[CallsReached(store.Keys, items)].category)
  {
    if items == [] then (store, Done)
    else match AddFeatureTo(store, items[0].category, items[0].name, items[0].feature)
      case Err(e) => (store, Raised(e))
      case Ok(next) => AddAll(next, items[1..])
  }

  /** `create_app` raises exactly when some component has an unknown category, and names the first. */
  lemma AddAllRaisesAtFirstInvalid<F>(store: Store<F>, items: seq<Item<F>>)
    ensures AddAll(store, items).1.Raised? <==> exists i :: 0 <= i < |items| && items[i].category !in store
    ensures AddAll(store, items).1.Raised? ==>
              exists i :: FirstInvalid(store.Keys, items, i) && AddAll(store, items).1.error == InvalidFeatureType(items[i].category)
  {
    CallsReachedStops(store.Keys, items);
  }

  /** One call, then the rest. */
  lemma AddAllStep<F>(store: Store<F>, item: Item<F>, rest: seq<Item<F>>)
    ensures item.category !in store ==> AddAll(store, [item] + rest) == (store, Raised(InvalidFeatureType(item.category)))
    ensures item.category in store ==>
              AddAll(store, [item] + rest) == AddAll(AddFeatureTo(store, item.category, item.name, item.feature).value, rest)
  {
    assert ([item] + rest)[1..] == rest;
  }

  /** No call before `bound` is for category `c` and name `n`. */
  ghost predicate Untouched<F>(items: seq<Item<F>>, c: string, n: string, bound: int) {
    0 <= bound <= |items| && forall k :: 0 <= k < bound ==> items[k].category != c || items[k].name != n
  }

  /** Call `j` is the last one before `bound` for its category and name. */
  ghost predicate LastCallBefore<F>(items: seq<Item<F>>, j: int, bound: int) {
    0 <= j < bound <= |items|
    && forall k :: j < k < bound ==> items[k].category != items[j].category || items[k].name != items[j].name
  }

  /** A name that no call before the stopping point `bound` touches keeps its feature. */
  lemma {:induction false} AddAllKeeps<F>(store: Store<F>, items: seq<Item<F>>, c: string, n: string, bound: nat)
    requires c in store && n in store[c]
    requires Untouched(items, c, n, bound)
    requires bound < |items| ==> items[bound].category !in store
    ensures AddAll(store, items).0[c][n] == store[c][n]
    decreases |items|
  {
    if bound > 0 && items[0].category in store {
      var next := store[items[0].category := store[items[0].category][items[0].name := items[0].feature]];
      assert AddAll(store, items) == AddAll(next, items[1..]);
      assert forall k :: 0 <= k < |items[1..]| ==> items[1..][k] == items[k + 1];
      AddAllKeeps(next, items[1..], c, n, bound - 1);
    }
  }

  /** Every call that is reached leaves its name in its category. */
  lemma {:induction false} AddAllHasName<F>(store: Store<F>, items: seq<Item<F>>, j: nat)
    requires j < |items| && forall k :: 0 <= k <= j ==> items[k].category in store
    ensures items[j].name in AddAll(store, items).0[items[j].category]
    decreases |items|
  {
    var next := store[items[0].category := store[items[0].category][items[0].name := items[0].feature]];
    assert AddAll(store, items) == AddAll(next, items[1..]);
    if j > 0 {
      assert forall k :: 0 <= k < |items[1..]| ==> items[1..][k] == items[k + 1];
      AddAllHasName(next, items[1..], j - 1);
    }
  }

  /** A call that is reached and not overridden before the stopping point leaves its feature stored. */
  lemma {:induction false} AddAllFiles<F>(store: Store<F>, items: seq<Item<F>>, j: nat, bound: nat)
    requires LastCallBefore(items, j, bound)
    requires forall k :: 0 <= k <= j ==> items[k].category in store
    requires bound < |items| ==> items[bound].category !in store
    ensures items[j].name in AddAll(store, items).0[items[j].category]
    ensures AddAll(store, items).0[items[j].category][items[j].name] == items[j].feature
    decreases |items|
  {
    var next := store[items[0].category := store[items[0].category][items[0].name := items[0].feature]];
    assert AddAll(store, items) == AddAll(next, items[1..]);
    var rest := items[1..];
    assert forall k :: 0 <= k < |rest| ==> rest[k] == items[k + 1];
    if j == 0 {
      AddAllKeeps(next, rest, items[0].category, items[0].name, bound - 1);
    } else {
      AddAllFiles(next, rest, j - 1, bound - 1);
    }
  }

  /**
   * `create_app` is not atomic: every component handled before the first unknown
   * category is still stored after the call raises, the last call for a name decides its
   * feature, and names no call reached keep theirs.
   */
  lemma {:induction false} EarlierComponentsStay<F>(store: Store<F>, items: seq<Item<F>>, i: nat)
    requires FirstInvalid(store.Keys, items, i)
    ensures AddAll(store, items).1 == Raised(InvalidFeatureType(items[i].category))
    ensures forall j :: 0 <= j < i ==> items[j].name in AddAll(store, items).0[items[j].category]
    ensures forall j :: LastCallBefore(items, j, i) ==> AddAll(store, items).0[items[j].category][items[j].name] == items[j].feature
    ensures forall c, n :: c in store && n in store[c] && Untouched(items, c, n, i) ==> AddAll(store, items).0[c][n] == store[c][n]
  {
    CallsReachedStops(store.Keys, items);
    forall j | 0 <= j < i
      ensures items[j].name in AddAll(store, items).0[items[j].category]
    {
      AddAllHasName(store, items, j);
    }
    forall j | LastCallBefore(items, j, i) {
      AddAllFiles(store, items, j, i);
    }
    forall c, n | c in store && n in store[c] && Untouched(items, c, n, i) {
      AddAllKeeps(store, items, c, n, i);
    }
  }

  /**
   * With every derived category known, every component is stored, nothing raises, the
   * last call for a name decides its feature, and names no call touches keep theirs.
   */
  lemma {:induction false} AllValidStored<F>(store: Store<F>, items: seq<Item<F>>)
    requires forall j :: 0 <= j < |items| ==> items[j].category in store
    ensures AddAll(store, items).1 == Done
    ensures forall j :: 0 <= j < |items| ==> items[j].name in AddAll(store, items).0[items[j].category]
    ensures forall j :: LastCallBefore(items, j, |items|) ==> AddAll(store, items).0[items[j].category][items[j].name] == items[j].feature
    ensures forall c, n :: c in store && n in store[c] && Untouched(items, c, n, |items|) ==> AddAll(store, items).0[c][n] == store[c][n]
  {
    CallsReachedStops(store.Keys, items);
    forall j | 0 <= j < |items|
      ensures items[j].name in AddAll(store, items).0[items[j].category]
    {
      AddAllHasName(store, items, j);
    }
    forall j | LastCallBefore(items, j, |items|) {
      AddAllFiles(store, items, j, |items|);
    }
    forall c, n | c in store && n in store[c] && Untouched(items, c, n, |items|) {
      AddAllKeeps(store, items, c, n, |items|);
    }
  }

  /** The calls left at group `g`: that group's calls, then those of the later groups. */
  lemma FlattenFrom<F>(groups: seq<ComponentGroup<F>>, g: nat)
    requires g < |groups|
    ensures Flatten(groups[g..]) == GroupItems(groups[g].className, groups[g].instances) + Flatten(groups[g + 1..])
  {
    assert groups[g..][1..] == groups[g + 1..];
  }

  /** The calls left at instance `k` of a group: that instance's call comes first. */
  lemma GroupItemsFrom<F>(className: string, instances: seq<(string, F)>, k: nat, tail: seq<Item<F>>)
    requires k < |instances|
    ensures GroupItems(className, instances[k..]) + tail
         == [Item(CategoryName(className), instances[k].0, instances[k].1)] + (GroupItems(className, instances[k + 1..]) + tail)
  {
    assert instances[k..][1..] == instances[k + 1..];
  }

  class LangChainRepo<F> {
    const featureStore: FeatureStore<F>

    constructor ()
      ensures fresh(featureStore) && featureStore.store == InitialStore()
    {
      featureStore := new FeatureStore();
    }

    /** The nested loop over groups and their instances; the first failing call propagates. */
    method CreateApp(name: string, components: seq<ComponentGroup<F>>) returns (r: Outcome)
      modifies featureStore
      ensures (featureStore.store, r) == AddAll(old(featureStore.store), Flatten(components))
    {
      ghost var target := AddAll(featureStore.store, Flatten(components));
      assert components[0..] == components;
      var g := 0;
      while g < |components|
        invariant 0 <= g <= |components|
        invariant AddAll(featureStore.store, Flatten(components[g..])) == target
      {
        var group := components[g];
        var category := CategoryName(group.className);
        ghost var later := Flatten(components[g + 1..]);
        FlattenFrom(components, g);
        assert group.instances[0..] == group.instances;
        var k := 0;
        while k < |group.instances|
          invariant 0 <= k <= |group.instances|
          invariant AddAll(featureStore.store, GroupItems(group.className, group.instances[k..]) + later) == target
        {
          var (instanceName, instance) := group.instances[k];
          GroupItemsFrom(group.className, group.instances, k, later);
          AddAllStep(featureStore.store, Item(category, instanceName, instance), GroupItems(group.className, group.instances[k + 1..]) + later);
          r := featureStore.AddFeature(category, instanceName, instance);
          if r.Raised? {
            return;
          }
          k := k + 1;
        }
        assert GroupItems(group.className, group.instances[k..]) + later == later by {
          assert group.instances[k..] == [];
        }
        g := g + 1;
      }
      return Done;
    }

    /** `delete_app` has an empty body. */
    method DeleteApp(name: string)
      ensures featureStore.store == old(featureStore.store)
    {
    }
  }

  /** The class of the example's first component maps to "examplerunnables". */
  lemma ExampleRunnableCategory()
    ensures CategoryName("ExampleRunnable") == "examplerunnables"
  {
    var s := "ExampleRunnable";
    var l := Lower(s);
    assert l[0] == 'e' && l[7] == 'r';
    assert forall i | 0 <= i < |s| && i != 0 && i != 7 :: 'a' <= s[i] <= 'z';
    assert forall i | 0 <= i < |s| && i != 0 && i != 7 :: l[i] == s[i];
    assert l == "examplerunnable";
  }

  /** The components of the module's own example call, one instance per class. */
  function ExampleComponents<F>(runnable: F, chain: F, pipeline: F, agent: F): seq<ComponentGroup<F>> {
    [ComponentGroup("ExampleRunnable", [("example_runnable", runnable)]),
     ComponentGroup("ExampleChain", [("example_chain", chain)]),
     ComponentGroup("ExamplePipeline", [("example_pipeline", pipeline)]),
     ComponentGroup("ExampleAgent", [("example_agent", agent)])]
  }

  /**
   * The module's own example call: the class `ExampleRunnable` yields the category
   * "examplerunnables", which is not one of the four, so the call raises on the first
   * instance and the store keeps its initial contents.
   */
  lemma ExampleAppRaises<F>(runnable: F, chain: F, pipeline: F, agent: F)
    ensures AddAll(InitialStore<F>(), Flatten(ExampleComponents(runnable, chain, pipeline, agent)))
         == (InitialStore<F>(), Raised(InvalidFeatureType("examplerunnables")))
  {
    var groups := ExampleComponents(runnable, chain, pipeline, agent);
    var item := Item("examplerunnables", "example_runnable", runnable);
    var rest := Flatten(groups[1..]);
    ExampleRunnableCategory();
    assert GroupItems(groups[0].className, groups[0].instances) == [item];
    assert Flatten(groups) == [item] + rest;
    AddAllStep(InitialStore<F>(), item, rest);
  }
}
