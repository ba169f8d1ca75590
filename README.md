# cda.data-lake metadata catalog and registries, in Dafny

This project models the in-memory core of the cda.data-lake repository:

- the **metastore**, a dictionary of asset records keyed by `asset_id`. Two variants are modelled: `Metastore` declares `updated_at`, and `LegacyMetastore` is the copy repeated in four files that does not declare it;
- the ETL **`validate_structure`** check, which says that every transformation dependency names a transformation of the same process;
- the **`UnifiedSchema`** registry of ETL processes, and the `ensure_ids_are_unique` validator;
- the service registries:
  - `Cdaprod`: a list of one-key dictionaries, looked up by first match;
  - `ApiGateway`: endpoint lookup over client connections;
  - `ConfigManager`: name-keyed dictionaries;
- the `ClientConnection` field validators for service type and port;
- the LangChain registry: `Runnable.run`, the `add_*` methods of `Chain`, `Pipeline` and `Agent`, the category-keyed `FeatureStore`, and `LangChainRepo.create_app` / `delete_app`;
- routing: `RunnableBranch.invoke`, `Router.route`, and `DataLakeSystem`, which loads routers and runnables from configuration and executes a router;
- `BuildDataLake`, which fills a `Cdaprod` from repository, client and asset configurations;
- `check_env`, which refuses to start when a required environment variable is unset.

How the model represents the source:

- Python exceptions are values: `Result` / `Outcome` in `outcomes.dfy`, with the exception kind (`ValueError`, `KeyError`, `TypeError`, `EnvironmentError`) and its message text.
- Objects whose fields are updated in place are classes with `modifies` clauses: `Metastore`, `Cdaprod`, `ConfigManager`, `UnifiedSchema`, `Runnable`, `Chain`, `Pipeline`, `Agent`, `FeatureStore`, `LangChainRepo`, `DataLakeSystem` and `BuildDataLake`.
- Value-like models are datatypes: `ApiGateway`, `RunnableBranch`, `Router` and the configuration records.
- Where a method loops, it is proved against a specification function, and the properties are proved about that function:
  - `Cdaprod.GetService` is proved against `FindService`;
  - `EnsureIdsAreUnique` against `Shared`;
  - `CreateApp` against `AddAll`;
  - `LoadRepo` against `LoadApps`;
  - `Build` against `PutAll` and the entry lists.

What the code checks, and so what the model states:

- `validate_structure` only checks that each dependency names a transformation declared in the same process. It has no cycle or self-dependency check, which `CycleAccepted` and `SelfDependencyAccepted` state.
- Removing an asset that is not stored raises ValueError in `Metastore` and KeyError in `LegacyMetastore`.

## Model

Several methods appear in near-identical copies across the repository's files. Each row below cites one copy, and the others behave the same:

- the legacy metastore methods: models/api/data-lake-schema.py:344-367, models/master.py:297-320, models/master-raw.py:298-321;
- `validate_structure`: models/master.py:80-94, models/master-raw.py:80-94, cda.Data-Lake.py:562-576, models/api/data-lake-schema.py:85-99;
- `Cdaprod`: models/api/data-lake-schema.py:300-325;
- the LangChain registry classes: models/langchain/LangChainRepoEngine.py:92-182, models/master-raw.py:428-507.

| member | source | states |
|---|---|---|
| Metastores.Metastore.constructor | models/api/data-lake-schema-model.py:284-288 | a new metastore holds no assets and its `updated_at` is the creation time |
| Metastores.Metastore.AddAsset | models/api/data-lake-schema-model.py:290-295 | the asset is filed under its own id, replacing any asset there; every other id keeps its asset; assets stay keyed by their ids; `updated_at` becomes the call time |
| Metastores.Metastore.GetAsset | models/api/data-lake-schema-model.py:297-304 | succeeds exactly when the id is stored, with the stored asset; otherwise ValueError "Asset with ID … not found in the metastore." |
| Metastores.Metastore.RemoveAsset | models/api/data-lake-schema-model.py:306-314 | succeeds exactly when the id was stored; then exactly that id is gone and `updated_at` is the call time; otherwise ValueError and nothing changes |
| Metastores.AddThenRemoveRestores | models/api/data-lake-schema-model.py:290-314 | adding an asset with a fresh id and removing it gives back the original dictionary |
| Metastores.LegacyMetastore.constructor | models/meta/metastore_model.py:15-18 | a new legacy metastore holds no assets |
| Metastores.LegacyMetastore.AddAsset | models/meta/metastore_model.py:20-25 | the asset is stored (others unchanged) and then the call raises ValueError for the undeclared `updated_at` |
| Metastores.LegacyMetastore.GetAsset | models/meta/metastore_model.py:27-31 | the stored asset exactly when the id is present; otherwise KeyError of the id |
| Metastores.LegacyMetastore.RemoveAsset | models/meta/metastore_model.py:33-38 | a missing id raises KeyError with nothing changed; a present id is deleted and then the call raises ValueError for `updated_at` |
| Metastores.LegacyAddAssetRaisesAfterStoring | models/meta/metastore_model.py:20-25 | on a fresh legacy metastore `add_asset` raises ValueError and yet the asset can then be read back |
| EtlValidation.CheckFrom | models/etl/etl_model.py:87-89 | a failure is either the invalid-dependency ValueError or the TypeError of a None dependency list; passing means every remaining transformation has a dependency list |
| EtlValidation.ValidateStructure | models/etl/etl_model.py:76-90 | on success the values come back unchanged; the only failures are the invalid-dependency ValueError and the TypeError of a None dependency list |
| EtlValidation.DeclaredIds | models/etl/etl_model.py:86 | the set of ids is exactly the ids of the listed transformations |
| EtlValidation.CheckFromPasses | models/etl/etl_model.py:87-89 | the loop over transformations passes exactly when every dependency of every remaining transformation is declared; when all dependency lists exist, a failure is the invalid-dependency ValueError |
| EtlValidation.ValidateStructureAccepts | models/etl/etl_model.py:76-90 | the check accepts exactly when every dependency names a declared transformation, and then returns the values unchanged |
| EtlValidation.ValidateStructureRejects | models/etl/etl_model.py:87-89 | one undeclared dependency anywhere makes the check raise ValueError "Invalid transformation dependency." |
| EtlValidation.NoneDependenciesRaise | models/etl/etl_model.py:87-88 | a first transformation whose dependencies are None makes the check raise TypeError (None is not iterable) |
| EtlValidation.SameMembersSameIds | models/etl/etl_model.py:86 | lists holding the same transformations declare the same ids |
| EtlValidation.ResolutionCarriesOver | models/etl/etl_model.py:86-89 | a list made of members of a resolving list, with the same declared ids, also resolves |
| EtlValidation.ValidateStructureOrderIndependent | models/master-raw.py:80-94 | whether the check accepts does not depend on the order of the transformations |
| EtlValidation.EmptyTransformationsAccepted | models/etl/etl_model.py:85-90 | missing or empty transformations are accepted unchanged |
| EtlValidation.SelfDependencyAccepted | models/etl/etl_model.py:86-89 | a transformation depending on itself is accepted: there is no self-dependency check |
| EtlValidation.CycleAccepted | models/etl/etl_model.py:86-89 | two transformations depending on each other are accepted: there is no cycle check |
| UnifiedSchemaRegistry.FreshIdExists | models/api/data-lake-schema.py:372-373 | a key not yet in the registry always exists, so the generated id can be fresh |
| UnifiedSchemaRegistry.UnifiedSchema.constructor | models/api/data-lake-schema.py:375-376 | a new registry holds no ETL processes |
| UnifiedSchemaRegistry.UnifiedSchema.RegisterEtlProcess | models/api/data-lake-schema.py:389-391 | the process is stored under the generated id; with a fresh id the registry grows by exactly one and no other entry changes |
| UnifiedSchemaRegistry.UnifiedSchema.GetEtlProcess | models/api/data-lake-schema.py:393-394 | the process exactly when the key is registered; otherwise KeyError |
| UnifiedSchemaRegistry.LookupByJobIdFails | models/api/data-lake-schema.py:389-394 | a process registered under a generated key is not found by its own job id but is found by that key |
| UnifiedSchemaRegistry.KeysOf | models/api/data-lake-schema.py:415-420 | the ids seen are exactly the keys of the collections scanned |
| UnifiedSchemaRegistry.SeenEarlierIsShared | models/api/data-lake-schema.py:416-418 | a key met again after an earlier collection held it is shared by two collections |
| UnifiedSchemaRegistry.DisjointPrefixGrows | models/api/data-lake-schema.py:415-419 | a collection with no key seen before keeps the scanned collections pairwise disjoint and adds its keys to those seen |
| UnifiedSchemaRegistry.EnsureIdsAreUnique | models/api/data-lake-schema.py:412-420 | passes, returning the item unchanged, exactly when no key is shared by two validated collections; otherwise ValueError "Duplicate ID found: …" naming a shared key, and that key is the first in scan order that was seen before (earlier collections disjoint, no earlier key of its own collection seen) |
| Services.FindService | models/api/data-lake-schema-model.py:45-55 | finds a service exactly when some entry holds the name, returning the instance of the earliest such entry; otherwise ValueError "Service … not found" |
| Services.FindServiceAfterAppend | models/api/data-lake-schema-model.py:36-55 | appending an entry never changes what a registered name resolves to; a new name resolves to the appended instance |
| Services.ReAddedNameKeepsFirst | models/api/data-lake-schema-model.py:43-54 | registering a name a second time leaves lookup on the first instance |
| Services.Cdaprod.constructor | models/api/data-lake-schema-model.py:26-30 | the fields are those given |
| Services.Cdaprod.AddService | models/api/data-lake-schema-model.py:36-43 | exactly one one-key entry is appended and the earlier entries are untouched |
| Services.Cdaprod.GetService | models/api/data-lake-schema-model.py:45-55 | the scan returns what `FindService` specifies: the earliest entry holding the name, or the not-found ValueError |
| Services.DecimalRoundTrip | models/api/data-lake-schema-model.py:357 | the decimal text written for a port reads back as that port |
| Services.IntToDecimal | models/api/data-lake-schema-model.py:357 | the text of a non-negative port reads back as the port; a negative one is "-" followed by the text of its magnitude |
| Services.Endpoint | models/api/data-lake-schema-model.py:357 | the hostname text (None printed as "None"), then ":", then the port text, which reads back as the port |
| Services.MatchingServices | models/api/data-lake-schema-model.py:352 | see `MatchingServicesKeepsNamed`, `MatchingSingle` and `MatchingServicesConcat` |
| Services.MatchingServicesKeepsNamed | models/api/data-lake-schema-model.py:352-353 | every service kept has the name; nothing is kept exactly when no service has the name; the first kept is the earliest with the name |
| Services.MatchingSingle | models/api/data-lake-schema-model.py:352 | a single service is kept exactly when its name matches |
| Services.MatchingServicesConcat | models/api/data-lake-schema-model.py:352 | the matches of two lists joined are the matches of the first followed by those of the second; with `MatchingSingle` this makes the comprehension the in-order filter |
| Services.ApiGateway.GetServiceEndpoint | models/api/data-lake-schema-model.py:340-357 | fails exactly when no service has the name (ValueError "No service found for name: …"); otherwise "hostname:port" of the earliest service with the name, with None printed as "None" |
| Services.ApiGateway.PerformHealthCheck | models/api/data-lake-schema-model.py:359-368 | always reports healthy |
| Services.ApiGateway.SendRequest | models/api/data-lake-schema-model.py:370-394 | fails exactly when the endpoint lookup fails, with its error; otherwise the simulated response carrying the request data |
| Services.ConfigManager.constructor | models/master-raw.py:850-853 | both dictionaries start empty |
| Services.ConfigManager.LoadClientConnection | models/master-raw.py:855-857 | the connection is filed under the name, replacing any earlier one; API configs untouched |
| Services.ConfigManager.LoadApiConfig | models/master-raw.py:859-861 | the API config is filed under the name; connections untouched |
| Services.ConfigManager.GetClientConnection | models/master-raw.py:863-864 | None exactly for an unknown name, otherwise the stored connection |
| Services.ConfigManager.GetApiConfig | models/master-raw.py:866-867 | None exactly for an unknown name, otherwise the stored config |
| Services.LoadThenGet | models/master-raw.py:770-785 | a connection loaded under a name is what that name yields, and another name yields None |
| ClientValidators.ValidateServiceType | cda.Data-Lake.py:147-152 | accepts exactly the five allowed service types, returning the value; otherwise ValueError listing them |
| ClientValidators.ValidatePort | cda.Data-Lake.py:154-158 | raises exactly when a non-empty hostname is given and the port is None or not positive; otherwise the port unchanged |
| ClientValidators.AcceptedPortIsPositive | cda.Data-Lake.py:155-157 | with a hostname given, an accepted port is present and positive |
| ClientValidators.PortUncheckedWithoutHostname | cda.Data-Lake.py:155-158 | without a hostname (absent or empty) any port passes unchanged |
| ClientValidators.PortOnConstruction | cda.Data-Lake.py:137-158 | construction raises exactly when the port is passed and fails the check; an omitted port is never checked |
| ClientValidators.OmittedPortAccepted | cda.Data-Lake.py:137-158 | a hostname with the port left out is accepted, while an explicit None port is refused |
| ClientValidators.PortCheckedAlways | cda.Data-Lake.py:154-158 | the check run whether or not the port was passed: raises exactly when a hostname is given without a positive port |
| ClientValidators.CheckedAlwaysPortIsPositive | cda.Data-Lake.py:154-158 | with the check always run, an accepted connection with a hostname has a positive port |
| EnvCheck.MissingVars | DynamicToolStorage/check_env.py:7 | a name is missing exactly when it is required and not set; no more names than required |
| EnvCheck.MissingVarsKeepsOrder | DynamicToolStorage/check_env.py:7 | the missing names keep the order of the required list (the filter distributes over concatenation) |
| EnvCheck.Join | DynamicToolStorage/check_env.py:9 | joining no names gives ""; otherwise the text starts with the first name |
| EnvCheck.CheckEnv | DynamicToolStorage/check_env.py:6-9 | raises exactly when some required name is unset, with EnvironmentError listing the missing names joined by ", " |
| EnvCheck.JoinContains | DynamicToolStorage/check_env.py:9 | every listed name appears whole in the joined message |
| EnvCheck.CheckEnvPasses | DynamicToolStorage/check_env.py:6-9 | with every name set, or nothing required, the check passes |
| LangChain.Runnable.constructor | models/langchain/LangChainRepo.py:6-15 | a new runnable has status "not started", no output and no error |
| LangChain.Runnable.Run | models/langchain/LangChainRepoEngine.py:103-113 | status passes through "running" and ends "completed", or "error" with the message recorded when execution fails; output untouched |
| LangChain.Runnable.RunWithoutExec | models/langchain/LangChainRepo.py:17-27 | status passes through "running" and ends "completed" |
| LangChain.Chain.constructor | models/langchain/LangChainRepo.py:29-34 | the fields are those given |
| LangChain.Chain.AddRunnable | models/langchain/LangChainRepo.py:36-37 | the runnable is filed under its id; every other id keeps its runnable |
| LangChain.Pipeline.constructor | models/langchain/LangChainRepo.py:39-44 | the fields are those given |
| LangChain.Pipeline.AddChain | models/langchain/LangChainRepo.py:46-47 | the chain is filed under its id; every other id keeps its chain |
| LangChain.Agent.constructor | models/langchain/LangChainRepo.py:49-54 | the fields are those given |
| LangChain.Agent.AddPipeline | models/langchain/LangChainRepo.py:56-57 | the pipeline is filed under its id; every other id keeps its pipeline |
| LangChain.InitialStore | models/api/FeatureStore.py:8-14 | the store starts with exactly the four categories, each empty |
| LangChain.AddFeatureTo | models/api/FeatureStore.py:16-19 | succeeds exactly for a known category, keeping the category set; otherwise ValueError "Invalid feature type: …" |
| LangChain.FeatureIn | models/api/FeatureStore.py:21-24 | fails exactly for an unknown category; otherwise the stored feature, or None when the name is absent |
| LangChain.GetAfterAdd | models/api/FeatureStore.py:16-24 | a feature just added is what lookup returns |
| LangChain.AddLeavesOthers | models/api/FeatureStore.py:16-24 | adding a feature changes no other (category, name) lookup |
| LangChain.DeleteFeatureFrom | models/langchain/LangChainRepo.py:79-81 | the categories are kept; in the named category exactly the name is removed; other categories are untouched |
| LangChain.DeleteRemovesOnlyName | models/langchain/LangChainRepo.py:79-81 | deleting removes exactly that name, keeps the categories, and is a no-op for an unknown category or name |
| LangChain.FeatureStore.constructor | models/api/FeatureStore.py:8-14 | a new store is the initial store |
| LangChain.FeatureStore.AddFeature | models/langchain/LangChainRepo.py:69-72 | for a known category the feature is stored; otherwise ValueError and the store is unchanged |
| LangChain.FeatureStore.GetFeature | models/langchain/LangChainRepo.py:74-77 | fails exactly for an unknown category; otherwise the stored feature or None |
| LangChain.FeatureStore.DeleteFeature | models/langchain/LangChainRepoEngine.py:165-167 | the store after deletion is the one `DeleteFeatureFrom` specifies |
| LangChain.Lower | models/langchain/LangChainRepo.py:91 | lower-casing keeps the length and maps each character |
| LangChain.CategoryName | models/langchain/LangChainRepo.py:91 | the category is the lower-cased class name followed by "s" |
| LangChain.CategoryNameAccepted | models/langchain/LangChainRepo.py:91 | a class's category is one of the four exactly when its lower-cased name is "runnable", "chain", "pipeline" or "agent" |
| LangChain.GroupItems | models/langchain/LangChainRepo.py:90-92 | one item per instance, in order, under the class's category |
| LangChain.Flatten | models/langchain/LangChainRepo.py:89-90 | see `FlattenFromInstances` and `FlattenFrom` |
| LangChain.FlattenFromInstances | models/langchain/LangChainRepo.py:89-92 | every call made comes from an instance of a group, under that group's category |
| LangChain.CallsReached | models/langchain/LangChainRepo.py:89-92 | the number of calls made before the loop stops is at most the number of calls |
| LangChain.CallsReachedStops | models/langchain/LangChainRepo.py:89-92 | the calls before that count all name known categories, and the call at the count (if any) is the first with an unknown one |
| LangChain.AddAll | models/langchain/LangChainRepo.py:88-92 | categories and stored names are never lost; raises exactly when the loop stops before the end, naming the category of the call it stops at |
| LangChain.AddAllRaisesAtFirstInvalid | models/langchain/LangChainRepo.py:88-92 | raises exactly when some component has an unknown category, naming the first one |
| LangChain.AddAllStep | models/langchain/LangChainRepo.py:89-92 | one component: an unknown category stops the loop with the store unchanged, a known one is stored and the loop continues |
| LangChain.AddAllKeeps | models/langchain/LangChainRepo.py:89-92 | a name that no call before the stopping point touches keeps its feature |
| LangChain.AddAllHasName | models/langchain/LangChainRepo.py:89-92 | every call that is reached leaves its name in its category |
| LangChain.AddAllFiles | models/langchain/LangChainRepo.py:89-92 | a reached call that no later reached call overrides leaves its own feature stored |
| LangChain.EarlierComponentsStay | models/langchain/LangChainRepoEngine.py:174-178 | when `create_app` raises, every component before the first invalid one is stored, the last call for a name before it decides the name's feature, and names no reached call touches keep their feature |
| LangChain.AllValidStored | models/langchain/LangChainRepo.py:88-92 | when every category is known, `create_app` completes, the last call for each name decides its feature, and untouched names keep theirs |
| LangChain.FlattenFrom | models/langchain/LangChainRepo.py:89-90 | the calls left at a group are that group's calls followed by those of the later groups |
| LangChain.GroupItemsFrom | models/langchain/LangChainRepo.py:90-92 | the calls left at an instance start with that instance's call |
| LangChain.LangChainRepo.constructor | models/langchain/LangChainRepo.py:84-86 | the repository owns a new feature store in its initial state |
| LangChain.LangChainRepo.CreateApp | models/langchain/LangChainRepo.py:88-92 | the resulting store and outcome are exactly those `AddAll` specifies for the flattened components |
| LangChain.LangChainRepo.DeleteApp | models/langchain/LangChainRepo.py:94-96 | the feature store is left unchanged |
| LangChain.ExampleRunnableCategory | models/langchain/LangChainRepo.py:113-128 | the example's runnable class maps to the category "examplerunnables" |
| LangChain.ExampleAppRaises | models/langchain/LangChainRepo.py:113-131 | the example app raises ValueError "Invalid feature type: examplerunnables" and stores nothing |
| Routing.RunnableBranch.PairCount | models/langchain/LangchainRouter.py:23 | conditions and runnables are paired up to the shorter list |
| Routing.RunnableBranch.InvokeFrom | models/langchain/LangchainRouter.py:23-29 | the description of the first pair whose condition holds, or "Default action" when none holds |
| Routing.RunnableBranch.Invoke | models/langchain/LangchainRouter.py:17-29 | the description of the first runnable whose condition holds, or "Default action" |
| Routing.ExtraConditionsIgnored | models/langchain/LangchainRouter.py:23 | conditions beyond the last runnable never change the answer |
| Routing.ExtraRunnablesIgnored | models/langchain/LangchainRouter.py:23 | runnables beyond the last condition never change the answer |
| Routing.FirstAnswerFrom | models/langchain/LangchainRouter.py:37-42 | the first non-empty answer from a position on, or ValueError "No valid routing condition met." when there is none |
| Routing.Router.Answers | models/langchain/LangchainRouter.py:37-38 | one answer per branch, in branch order, each that branch's `invoke` of the input |
| Routing.Router.Route | models/langchain/LangchainRouter.py:32-42 | succeeds exactly when some branch answers non-empty, with the first such answer; otherwise the no-route ValueError |
| Routing.EmptyAnswerMeansEmptyDescription | models/langchain/LangchainRouter.py:8-29 | a branch answers "" only through a matched runnable with an empty description |
| Routing.RouteScansAnswers | models/langchain/LangchainRouter.py:37-42 | routing is the scan of the branches' answers from the first branch |
| Routing.AnswersOfPrepended | models/langchain/LangchainRouter.py:37-38 | a branch put in front of the others puts its answer in front of theirs |
| Routing.RouteSkipsEmptyAnswer | models/langchain/LangchainRouter.py:37-40 | a branch answering "" is passed over by the router |
| Routing.SkipEmptyAnswer | models/langchain/LangchainRouter.py:37-40 | an empty answer in front shifts the scan by one and changes nothing else |
| Routing.AllDescriptionsEmpty | models/langchain/LangchainRouter.py:32-42 | when every runnable's description is empty, routing yields "Default action" or the no-route error, never a runnable |
| Routing.ExampleBranchAnswers | models/langchain/LangchainRouter.py:45-62 | on the example's blog-article input, the blog branch answers "" and the code branch answers "Default action" |
| Routing.ExampleRoutesToDefault | models/langchain/LangchainRouter.py:45-62 | the example's blog-article input is routed to "Default action" |
| Routing.CreateRunnable | models/langchain/LangchainDataLakeSystem.py:33-35 | the runnable keeps the configured id and entry point and has an empty description |
| Routing.LookupAll | models/langchain/LangchainDataLakeSystem.py:26 | succeeds exactly when every id is registered, with the runnables in order; otherwise KeyError for an unregistered id |
| Routing.Conditions | models/langchain/LangchainDataLakeSystem.py:25-31 | one condition per configured expression, in order |
| Routing.CreateRunnableBranch | models/langchain/LangchainDataLakeSystem.py:23-27 | built exactly when every named runnable is registered, keeping id, conditions and runnable count |
| Routing.CreateBranches | models/langchain/LangchainDataLakeSystem.py:20 | one branch per configuration, or the error of a configuration that fails |
| Routing.CreateRouter | models/langchain/LangchainDataLakeSystem.py:18-21 | built exactly when every branch can be built, with branch `i` the one built from configuration `i`; otherwise the error of a branch that fails |
| Routing.RouterIds | models/langchain/LangchainDataLakeSystem.py:12-13 | exactly the ids of the configured routers |
| Routing.LoadRouters | models/langchain/LangchainDataLakeSystem.py:12-14 | runnables untouched; no router id is ever dropped; on success the ids are the earlier ones plus every configured router id |
| Routing.RoutersReached | models/langchain/LangchainDataLakeSystem.py:13-14 | the number of router configs filed before loading stops is at most the number of configs |
| Routing.RoutersReachedBuild | models/langchain/LangchainDataLakeSystem.py:13-14 | the configs before that count all build |
| Routing.RoutersReachedFails | models/langchain/LangchainDataLakeSystem.py:13-14 | the config at that count, if there is one, fails to build |
| Routing.LoadRoutersDone | models/langchain/LangchainDataLakeSystem.py:13-14 | loading the routers completes exactly when every config is reached |
| Routing.LoadRoutersKeeps | models/langchain/LangchainDataLakeSystem.py:13-14 | a router id that no reached config names keeps its router, also when a later config raises |
| Routing.LastRouterConfigWins | models/langchain/LangchainDataLakeSystem.py:13-14 | a reached config is what its id holds afterwards unless a later reached config reuses the id, so the last one wins; routers built before a failure stay registered |
| Routing.LoadRunnables | models/langchain/LangchainDataLakeSystem.py:14-16 | the registered ids are the earlier ones plus every configured id |
| Routing.LoadRunnablesKeeps | models/langchain/LangchainDataLakeSystem.py:14-16 | a runnable not configured again keeps its registration |
| Routing.LastRunnableConfigWins | models/langchain/LangchainDataLakeSystem.py:14-16 | for an id configured more than once, the last configuration wins |
| Routing.OwnRunnableNotYetRegistered | models/langchain/LangchainDataLakeSystem.py:10-16 | an app whose router names its own runnable fails with KeyError: routers are built before the app's runnables are registered |
| Routing.LaterRunnableConfigWins | models/langchain/LangchainDataLakeSystem.py:10-16 | across apps, a later app's runnable replaces an earlier one with the same id |
| Routing.AfterRouters | models/langchain/LangchainDataLakeSystem.py:12-16 | no id is ever dropped; after a raise nothing further happens |
| Routing.LoadApps | models/langchain/LangchainDataLakeSystem.py:10-16 | no router or runnable id is ever dropped |
| Routing.LoadAppsRegistersAll | models/langchain/LangchainDataLakeSystem.py:10-16 | when loading completes, every router and runnable id of every app is registered |
| Routing.DataLakeSystem.constructor | models/langchain/LangchainDataLakeSystem.py:3-7 | routers and runnables start empty |
| Routing.DataLakeSystem.LoadRepo | models/langchain/LangchainDataLakeSystem.py:9-16 | the registries and the outcome are exactly those `LoadApps` specifies |
| Routing.DataLakeSystem.Execute | models/langchain/LangchainDataLakeSystem.py:37-44 | an unknown router id raises ValueError; otherwise the named router's route of the input |
| Routing.NewDataLakeSystem | models/langchain/LangchainDataLakeSystem.py:3-16 | a new system loaded from a repository holds what `LoadApps` yields from empty registries |
| Builder.RepositoryEntry | models/api/BuildDataLake.py:30-36 | a repository with apps is filed as "LangChainRepo", one without as "Repository" |
| Builder.ClientEntry | models/api/BuildDataLake.py:38-44 | a client is filed as "ClientConnection" with its service name and hostname |
| Builder.RepositoryEntries | models/api/BuildDataLake.py:51-52 | one entry per repository configuration, in order |
| Builder.ClientEntries | models/api/BuildDataLake.py:54-55 | one entry per client configuration, in order |
| Builder.PutAll | models/api/BuildDataLake.py:57-58 | the stored ids are the earlier ones plus every listed asset's id; an id no listed asset has keeps its asset |
| Builder.PutAllKeyedById | models/api/BuildDataLake.py:57-58 | after registering assets every asset is still filed under its own id |
| Builder.PutAllLastWins | models/api/BuildDataLake.py:57-58 | for an id listed more than once, the last asset is kept |
| Builder.FindServiceConcat | models/api/data-lake-schema-model.py:45-55 | lookup over two lists of entries resolves in the first list when it holds the name, else in the second |
| Builder.BuildDataLake.constructor | models/api/BuildDataLake.py:26-28 | the builder holds the given `Cdaprod` |
| Builder.BuildDataLake.RegisterRepository | models/api/BuildDataLake.py:30-36 | exactly the repository's entry is appended to the services |
| Builder.BuildDataLake.RegisterClient | models/api/BuildDataLake.py:38-44 | exactly the client's entry is appended to the services |
| Builder.BuildDataLake.RegisterMetastoreAsset | models/api/BuildDataLake.py:46-48 | the asset is stored in the metastore and stamped; services untouched |
| Builder.BuildDataLake.Build | models/api/BuildDataLake.py:50-62 | returns the held `Cdaprod`, whose services gain repository entries then client entries, whose metastore holds `PutAll` of the assets, and which is stamped exactly when there were assets |
| Builder.LegacyBuildAssets | models/api/BuildDataLake.py:57-58 | as written, against the metastore without `updated_at`: with no assets nothing happens; otherwise the first asset is stored and the loop raises ValueError before any other asset |
| Builder.LegacyBuildStopsAtFirstAsset | models/api/BuildDataLake.py:57-58 | with two assets of different ids, building raises ValueError with the first stored and the second not |
| Builder.BuiltClientLookup | models/api/BuildDataLake.py:50-62 | after a build, "ClientConnection" resolves to the first client configured when no earlier entry carried that name |

## Left out

- Model construction and coercion are not modelled: URL and secret types, coercion, and required-field failures. Each construction the code performs is taken to succeed with the fields it reads. Several constructions in the source would in fact fail validation:
  - `RunnableBranch(...)` is built without its required `entry_point` (models/langchain/LangchainRouter.py:52-53, models/langchain/LangchainDataLakeSystem.py:27);
  - `Repository(repo_url=..., name=...)` omits required fields;
  - `LangChainRepo(apps=...)` passes names where app records are expected;
  - `ClientConnection(...)` in the builder has no `service_type`.
- The builder drops the client credentials, because they are not a field of the connection model.
- Clocks (`datetime.now`) are a `now` parameter. `Build` uses one reading for all of its assets.
- `uuid4` is the `uniqueId` parameter of `RegisterEtlProcess`. `FreshIdExists` shows that a fresh key always exists.
- `exec` of a runnable's script is the `Execution` parameter of `Runnable.Run` (returned or failed with a message).
- `import_and_store` (dynamic import), `get_env_variable`, `create_minio_client` and the FastAPI wrapper in models/langchain/LangChainRepo.py are left out: they are I/O, the OS or network clients.
- `os.environ` is a `map` parameter of `CheckEnv`.
- `send_request` builds a URL that it never uses. The model does not build it.
- Unused fields are not modelled:
  - the `ApiGateway` load balancer, connection pool and security details;
  - the free-form `metadata` dictionaries of runnables, chains, pipelines and agents.
- `DataLakeRepo` and the router, branch and condition configuration classes are not defined in the repository. The model gives them exactly the fields the code reads.
- `create_condition` wraps the configured expression in a lambda. The model uses the expression itself, which is the same predicate.
- Lower-casing of class names covers ASCII only. Python's full Unicode `lower()` is not modelled.
- UnifiedSchemaRegistry.EnsureIdsAreUnique: the model takes the key lists of the collections already validated (`values`) and does not model when the validator runs. It runs once per item (`each_item`) and only over fields declared before the current one.
- `GetAsset` of `Metastore` treats every stored asset as present. The source's `if not asset` cannot fail for a stored model object, which is always truthy.
- EtlValidation.ValidateStructure: an explicitly given `transformations: None` (a TypeError in the source) is treated like an absent key. Every copy is declared `@root_validator(pre=True)` (models/etl/etl_model.py:76, models/master.py:80, models/master-raw.py:80, cda.Data-Lake.py:562, models/api/data-lake-schema.py:85), so it would see the raw input rather than parsed transformations; the model takes parsed transformations. None of the copies is attached to a class, since all are written at module level.
- Builder.BuildDataLake.Build files assets in the `Metastore` that declares `updated_at`, which is the corrected behaviour. As written, the builder uses the legacy class; `LegacyBuildAssets` models that (see Findings).
- Import-time failures of the scripts (undefined names, module-level example runs) are not modelled. The examples are lemmas instead.

## Findings

| source | as written | input that shows it | evidently intended | confidence | as-written member | corrected member |
|---|---|---|---|---|---|---|
| models/meta/metastore_model.py:20-25 | `add_asset` stores the asset, then assigns `self.updated_at`, which the class does not declare, so the call raises ValueError | any asset added to a new metastore: ValueError is raised, yet the asset is stored | the asset is stored and `updated_at` stamped, as the copy in models/api/data-lake-schema-model.py declares the field | high; not executed | Metastores.LegacyAddAssetRaisesAfterStoring | Metastores.Metastore.AddAsset |
| models/meta/metastore_model.py:33-38 | `remove_asset` deletes the key, then assigns the undeclared `updated_at` and raises | removing a stored id: ValueError is raised, yet the id is gone | the id is removed and `updated_at` stamped | high; not executed | Metastores.LegacyMetastore.RemoveAsset | Metastores.Metastore.RemoveAsset |
| cda.Data-Lake.py:154-158 | the port validator is not declared `always`; in pydantic (v1, and v2 alike) a validator not declared `always` does not run for an omitted field | hostname "db.local" with no port argument is accepted with no port | a hostname always comes with a positive port, as the validator's message says | medium; not executed | ClientValidators.OmittedPortAccepted | ClientValidators.PortCheckedAlways |
| models/api/BuildDataLake.py:57-58 | `build` calls `add_asset` on the `Metastore` that the builder imports as `data_lake_schema` (models/api/data-lake-schema.py:344-354), which does not declare `updated_at`; the first call stores its asset and raises ValueError, so `build` never returns the `Cdaprod` | two assets with ids "a" and "b": ValueError, "a" is stored and "b" is not | every asset is stored and the filled `Cdaprod` is returned | high; not executed | Builder.LegacyBuildStopsAtFirstAsset | Builder.BuildDataLake.Build |
