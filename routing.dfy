/**
 * First-match dispatch: a runnable branch pairs conditions with runnables by position,
 * a router asks its branches in order, and the data-lake system builds routers from a
 * repository configuration and runs one by id. Conditions are predicates on the input.
 */
module Routing {
  import opened Outcomes

  const DefaultAction := "Default action"
  const NoRoute := ValueError("No valid routing condition met.")

  /** `description` defaults to the empty string. */
  datatype Runnable = Runnable(id: string, description: string, entryPoint: string)

  /** A branch's own `description` and `entry_point` are never read, so they are not kept. */
  datatype RunnableBranch<!I> = RunnableBranch(id: string, conditions: seq<I -> bool>, runnables: seq<Runnable>)
  {
    /** `zip` stops at the shorter list. */
    function PairCount(): (n: nat)
      ensures n <= |conditions| && n <= |runnables|
      ensures n == |conditions| || n == |runnables|
    {
      if |conditions| < |runnables| then |conditions| else |runnables|
    }

    /** Pair `j` is the first from pair `i` on whose condition holds on the input. */
    ghost predicate FirstHoldingFrom(input: I, i: int, j: int) {
      0 <= i <= j < PairCount() && conditions[j](input)
      && forall k :: i <= k < j ==> !conditions[k](input)
    }

    ghost predicate FirstHolding(input: I, j: int) {
      FirstHoldingFrom(input, 0, j)
    }

    /** The loop of `invoke` from pair `i` on. */
    function InvokeFrom(input: I, i: nat): (r: string)
      requires i <= PairCount()
      ensures (forall j :: i <= j < PairCount() ==> !conditions[j](input)) ==> r == DefaultAction
      ensures (exists j :: i <= j < PairCount() && conditions[j](input)) ==>
                exists j :: FirstHoldingFrom(input, i, j) && r == runnables[j].description
      decreases PairCount() - i
    {
      if i == PairCount() then DefaultAction
      else if conditions[i](input) then
        assert FirstHoldingFrom(input, i, i);
        runnables[i].description
      else InvokeFrom(input, i + 1)
    }

    /**
     * The description of the runnable paired with the first condition that holds,
     * or "Default action" when none of the paired conditions holds.
     */
    function Invoke(input: I): (r: string)
      ensures (forall j :: 0 <= j < PairCount() ==> !conditions[j](input)) ==> r == DefaultAction
      ensures (exists j :: 0 <= j < PairCount() && conditions[j](input)) ==>
                exists j :: FirstHolding(input, j) && r == runnables[j].description
    {
      InvokeFrom(input, 0)
    }
  }

  /** Conditions past the end of the runnables are never consulted. */
  lemma {:induction false} ExtraConditionsIgnored<I>(b: RunnableBranch<I>, input: I, extra: seq<I -> bool>, i: nat)
    requires |b.conditions| == |b.runnables|
    requires i <= |b.conditions|
    ensures RunnableBranch(b.id, b.conditions + extra, b.runnables).InvokeFrom(input, i) == b.InvokeFrom(input, i)
    decreases |b.conditions| - i
  {
    var c := RunnableBranch(b.id, b.conditions + extra, b.runnables);
    assert c.PairCount() == b.PairCount();
    if i < |b.conditions| {
      assert c.conditions[i] == b.conditions[i];
      ExtraConditionsIgnored(b, input, extra, i + 1);
    }
  }

  /** Runnables past the end of the conditions are never chosen. */
  lemma {:induction false} ExtraRunnablesIgnored<I>(b: RunnableBranch<I>, input: I, extra: seq<Runnable>, i: nat)
    requires |b.conditions| == |b.runnables|
    requires i <= |b.conditions|
    ensures RunnableBranch(b.id, b.conditions, b.runnables + extra).InvokeFrom(input, i) == b.InvokeFrom(input, i)
    decreases |b.conditions| - i
  {
    var d := RunnableBranch(b.id, b.conditions, b.runnables + extra);
    assert d.PairCount() == b.PairCount();
    if i < |b.conditions| {
      assert d.runnables[i] == b.runnables[i];
      ExtraRunnablesIgnored(b, input, extra, i + 1);
    }
  }

  /** Answer `c` is the first non-empty one from position `b` on. */
  ghost predicate FirstNonEmptyFrom(answers: seq<string>, b: int, c: int) {
    0 <= b <= c < |answers| && answers[c] != ""
    && forall d :: b <= d < c ==> answers[d] == ""
  }

  /** The loop of `route` from position `b` on, over the branches' answers in branch order. */
  function FirstAnswerFrom(answers: seq<string>, b: nat): (r: Result<string>)
    requires b <= |answers|
    ensures r.Ok? <==> exists c :: b <= c < |answers| && answers[c] != ""
    ensures r.Ok? ==> exists c :: FirstNonEmptyFrom(answers, b, c) && r.value == answers[c]
    ensures r.Err? ==> r.error == NoRoute
    decreases |answers| - b
  {
    if b == |answers| then Err(NoRoute)
    else if answers[b] != "" then
      assert FirstNonEmptyFrom(answers, b, b);
      Ok(answers[b])
    else
      var r := FirstAnswerFrom(answers, b + 1);
      assert r.Ok? ==> exists c :: FirstNonEmptyFrom(answers, b, c) && r.value == answers[c] by {
        if r.Ok? {
          var c :| FirstNonEmptyFrom(answers, b + 1, c) && r.value == answers[c];
          assert FirstNonEmptyFrom(answers, b, c);
        }
      }
      r
  }

  datatype Router<!I> = Router(runnableBranches: seq<RunnableBranch<I>>)
  {
    /** What each branch's `invoke` answers on the input, in branch order. */
    function Answers(input: I): (a: seq<string>)
      ensures |a| == |runnableBranches|
      ensures forall c :: 0 <= c < |a| ==> a[c] == runnableBranches[c].Invoke(input)
    {
      seq(|runnableBranches|, c requires 0 <= c < |runnableBranches| => runnableBranches[c].Invoke(input))
    }

    /** Branch `c` is the first whose answer is a non-empty string. */
    ghost predicate FirstAnswering(input: I, c: int) {
      0 <= c < |runnableBranches| && runnableBranches[c].Invoke(input) != ""
      && forall d :: 0 <= d < c ==> runnableBranches[d].Invoke(input) == ""
    }

    /**
     * The first non-empty branch result in branch order; ValueError when there is no
     * branch or every branch answers with the empty string.
     */
    function Route(input: I): (r: Result<string>)
      ensures r.Ok? <==> exists c :: 0 <= c < |runnableBranches| && runnableBranches[c].Invoke(input) != ""
      ensures r.Ok? ==> exists c :: FirstAnswering(input, c) && r.value == runnableBranches[c].Invoke(input)
      ensures r.Err? ==> r.error == NoRoute
    {
      var answers := Answers(input);
      var r := FirstAnswerFrom(answers, 0);
      assert r.Ok? ==> exists c :: FirstAnswering(input, c) && r.value == runnableBranches[c].Invoke(input) by {
        if r.Ok? {
          var c :| FirstNonEmptyFrom(answers, 0, c) && r.value == answers[c];
          assert FirstAnswering(input, c);
        }
      }
      r
    }
  }

  /**
   * A branch answers "" only when the runnable it matched has the default empty
   * description; route then moves on to the next branch.
   */
  lemma EmptyAnswerMeansEmptyDescription<I>(b: RunnableBranch<I>, input: I)
    requires b.Invoke(input) == ""
    ensures exists j :: b.FirstHolding(input, j) && b.runnables[j].description == ""
  {
    if forall j :: 0 <= j < b.PairCount() ==> !b.conditions[j](input) {
      assert false;
    }
  }

  /** `route` is the scan of the branches' answers from the first one. */
  lemma RouteScansAnswers<I>(router: Router<I>, input: I)
    ensures router.Route(input) == FirstAnswerFrom(router.Answers(input), 0)
  {
  }

  /** An empty answer in front shifts the scan by one and changes nothing else. */
  lemma {:induction false} SkipEmptyAnswer(answers: seq<string>, b: nat)
    requires b <= |answers|
    ensures FirstAnswerFrom([""] + answers, b + 1) == FirstAnswerFrom(answers, b)
    decreases |answers| - b
  {
    if b < |answers| {
      assert ([""] + answers)[b + 1] == answers[b];
      SkipEmptyAnswer(answers, b + 1);
    }
  }

  /** Putting a branch in front puts its answer in front. */
  lemma AnswersOfPrepended<I>(first: RunnableBranch<I>, rest: seq<RunnableBranch<I>>, input: I)
    ensures Router([first] + rest).Answers(input) == [first.Invoke(input)] + Router(rest).Answers(input)
  {
    var whole := Router([first] + rest);
    var answers := Router(rest).Answers(input);
    forall c | 0 <= c < |whole.runnableBranches|
      ensures whole.Answers(input)[c] == ([first.Invoke(input)] + answers)[c]
    {
      if c > 0 {
        assert whole.runnableBranches[c] == rest[c - 1];
      }
    }
  }

  lemma RouteSkipsEmptyAnswer<I>(first: RunnableBranch<I>, rest: seq<RunnableBranch<I>>, input: I)
    requires first.Invoke(input) == ""
    ensures Router([first] + rest).Route(input) == Router(rest).Route(input)
  {
    var answers := Router(rest).Answers(input);
    AnswersOfPrepended(first, rest, input);
    SkipEmptyAnswer(answers, 0);
    assert FirstAnswerFrom([""] + answers, 0) == FirstAnswerFrom([""] + answers, 1);
    RouteScansAnswers(Router([first] + rest), input);
    RouteScansAnswers(Router(rest), input);
  }

  /**
   * When every runnable has the default empty description, a branch answers either ""
   * or "Default action", so route can only return "Default action" or raise.
   */
  lemma AllDescriptionsEmpty<I>(router: Router<I>, input: I)
    requires forall b, j :: 0 <= b < |router.runnableBranches| && 0 <= j < |router.runnableBranches[b].runnables| ==>
               router.runnableBranches[b].runnables[j].description == ""
    ensures router.Route(input) == Ok(DefaultAction) || router.Route(input) == Err(NoRoute)
  {
    var r := router.Route(input);
    if r.Ok? {
      var c :| router.FirstAnswering(input, c) && r.value == router.runnableBranches[c].Invoke(input);
      var b := router.runnableBranches[c];
      if exists j :: 0 <= j < b.PairCount() && b.conditions[j](input) {
        assert false;
      }
    }
  }

  // The module's example router

  function IsBlogArticle(x: map<string, string>): bool {
    "data_type" in x && x["data_type"] == "blog_article"
  }

  function IsCodeSnippet(x: map<string, string>): bool {
    "data_type" in x && x["data_type"] == "code_snippet"
  }

  function ExampleRouter(): Router<map<string, string>> {
    Router([
      RunnableBranch("blog_branch", [IsBlogArticle], [Runnable("blog_proc", "", "process_blog_articles")]),
      RunnableBranch("code_branch", [IsCodeSnippet], [Runnable("code_proc", "", "process_code_snippets")])])
  }

  /** The example's blog-article input: `{"data_type": "blog_article", "content": ...}`. */
  function ExampleInput(): map<string, string> {
    map["data_type" := "blog_article", "content" := "Latest insights on cloud computing."]
  }

  /** The blog branch matches with an empty description; the code branch falls to its default. */
  lemma ExampleBranchAnswers()
    ensures ExampleRouter().runnableBranches[0].Invoke(ExampleInput()) == ""
    ensures ExampleRouter().runnableBranches[1].Invoke(ExampleInput()) == DefaultAction
  {
    assert IsBlogArticle(ExampleInput()) && !IsCodeSnippet(ExampleInput());
  }

  /**
   * The example's blog-article input matches the first branch, whose runnable has no
   * description, so route falls through to the code-snippet branch and answers
   * "Default action".
   */
  lemma ExampleRoutesToDefault()
    ensures ExampleRouter().Route(ExampleInput()) == Ok(DefaultAction)
  {
    var branches := ExampleRouter().runnableBranches;
    ExampleBranchAnswers();
    RouteSkipsEmptyAnswer(branches[0], branches[1..], ExampleInput());
    assert [branches[0]] + branches[1..] == branches;
    assert Router(branches[1..]).Answers(ExampleInput()) == [DefaultAction];
  }

  // DataLakeSystem

  datatype ConditionConfig<!I> = ConditionConfig(expression: I -> bool)
  datatype BranchConfig<!I> = BranchConfig(id: string, conditions: seq<ConditionConfig<I>>, runnables: seq<string>)
  datatype RouterConfig<!I> = RouterConfig(id: string, branches: seq<BranchConfig<I>>)
  datatype RunnableConfig = RunnableConfig(id: string, entryPoint: string)
  datatype AppConfig<!I> = AppConfig(routers: seq<RouterConfig<I>>, runnables: seq<RunnableConfig>)
  datatype DataLakeRepo<!I> = DataLakeRepo(apps: seq<AppConfig<I>>)

  /** Only the id and entry point are passed on; the description takes its default "". */
  function CreateRunnable(config: RunnableConfig): (r: Runnable)
    ensures r.id == config.id && r.entryPoint == config.entryPoint && r.description == ""
  {
    Runnable(config.id, "", config.entryPoint)
  }

  /** `[self.runnables[runnable_id] for runnable_id in ids]`: KeyError on the first unregistered id. */
  function LookupAll(runnables: map<string, Runnable>, ids: seq<string>): (r: Result<seq<Runnable>>)
    ensures r.Ok? <==> forall i :: 0 <= i < |ids| ==> ids[i] in runnables
    ensures r.Ok? ==> |r.value| == |ids| && forall i :: 0 <= i < |ids| ==> r.value[i] == runnables[ids[i]]
    ensures r.Err? ==> exists i :: 0 <= i < |ids| && ids[i] !in runnables
                                   && (forall j :: 0 <= j < i ==> ids[j] in runnables) && r.error == KeyError(ids[i])
  {
    if ids == [] then Ok([])
    else if ids[0] !in runnables then Err(KeyError(ids[0]))
    else
      assert forall i :: 0 <= i < |ids[1..]| ==> ids[1..][i] == ids[i + 1];
      match LookupAll(runnables, ids[1..])
      case Err(e) =>
        assert exists i :: 0 <= i < |ids| && ids[i] !in runnables
                          && (forall j :: 0 <= j < i ==> ids[j] in runnables) && e == KeyError(ids[i]) by {
          var i :| 0 <= i < |ids[1..]| && ids[1..][i] !in runnables
                   && (forall j :: 0 <= j < i ==> ids[1..][j] in runnables) && e == KeyError(ids[1..][i]);
          assert forall j :: 1 <= j < i + 1 ==> ids[j] == ids[1..][j - 1];
        }
        Err(e)
      case Ok(rest) => Ok([runnables[ids[0]]] + rest)
  }

  function Conditions<I>(configs: seq<ConditionConfig<I>>): (cs: seq<I -> bool>)
    ensures |cs| == |configs|
    ensures forall i :: 0 <= i < |configs| ==> cs[i] == configs[i].expression
  {
    seq(|configs|, i requires 0 <= i < |configs| => configs[i].expression)
  }

  /**
   * Conditions and runnables in the config's order; fails with KeyError unless every
   * referenced runnable id is already registered.
   */
  function CreateRunnableBranch<I>(runnables: map<string, Runnable>, config: BranchConfig<I>): (r: Result<RunnableBranch<I>>)
    ensures r.Ok? <==> forall i :: 0 <= i < |config.runnables| ==> config.runnables[i] in runnables
    ensures r.Ok? ==> r.value.id == config.id && r.value.conditions == Conditions(config.conditions)
    ensures r.Ok? ==> |r.value.runnables| == |config.runnables|
                      && forall i :: 0 <= i < |config.runnables| ==> r.value.runnables[i] == runnables[config.runnables[i]]
    ensures r.Err? ==> exists i :: 0 <= i < |config.runnables| && config.runnables[i] !in runnables
                                   && r.error == KeyError(config.runnables[i])
  {
    var conditions := Conditions(config.conditions);
    match LookupAll(runnables, config.runnables)
    case Err(e) => Err(e)
    case Ok(rs) => Ok(RunnableBranch(config.id, conditions, rs))
  }

  /** The branches in config order; the first failure propagates. */
  function CreateBranches<I>(runnables: map<string, Runnable>, configs: seq<BranchConfig<I>>): (r: Result<seq<RunnableBranch<I>>>)
    ensures r.Ok? <==> forall i :: 0 <= i < |configs| ==> CreateRunnableBranch(runnables, configs[i]).Ok?
    ensures r.Ok? ==> |r.value| == |configs|
                      && forall i :: 0 <= i < |configs| ==> r.value[i] == CreateRunnableBranch(runnables, configs[i]).value
    ensures r.Err? ==> exists i :: 0 <= i < |configs| && CreateRunnableBranch(runnables, configs[i]) == Err(r.error)
  {
    if configs == [] then Ok([])
    else
      assert forall i :: 0 <= i < |configs[1..]| ==> configs[1..][i] == configs[i + 1];
      match CreateRunnableBranch(runnables, configs[0])
      case Err(e) => Err(e)
      case Ok(b) =>
        match CreateBranches(runnables, configs[1..])
        case Err(e) => Err(e)
        case Ok(bs) => Ok([b] + bs)
  }

  function CreateRouter<I>(runnables: map<string, Runnable>, config: RouterConfig<I>): (r: Result<Router<I>>)
    ensures r.Ok? <==> forall i :: 0 <= i < |config.branches| ==> CreateRunnableBranch(runnables, config.branches[i]).Ok?
    ensures r.Ok? ==> |r.value.runnableBranches| == |config.branches|
                      && forall i :: 0 <= i < |config.branches| ==>
                           r.value.runnableBranches[i] == CreateRunnableBranch(runnables, config.branches[i]).value
    ensures r.Err? ==> exists i :: 0 <= i < |config.branches| && CreateRunnableBranch(runnables, config.branches[i]) == Err(r.error)
  {
    match CreateBranches(runnables, config.branches)
    case Err(e) => Err(e)
    case Ok(bs) => Ok(Router(bs))
  }

  /** What `load_repo` has built so far. */
  datatype Registry<!I> = Registry(routers: map<string, Router<I>>, runnables: map<string, Runnable>)

  function RouterIds<I>(configs: seq<RouterConfig<I>>): (ids: set<string>)
    ensures forall id :: id in ids <==> exists i :: 0 <= i < |configs| && configs[i].id == id
  {
    if configs == [] then {}
    else
      assert forall i :: 0 <= i < |configs[1..]| ==> configs[1..][i] == configs[i + 1];
      {configs[0].id} + RouterIds(configs[1..])
  }

  /** An app's router configs in order, each built against the runnables registered so far. */
  function LoadRouters<I>(reg: Registry<I>, configs: seq<RouterConfig<I>>): (r: (Registry<I>, Outcome))
    ensures r.0.runnables == reg.runnables
    ensures reg.routers.Keys <= r.0.routers.Keys
    ensures r.1.Done? ==> r.0.routers.Keys == reg.routers.Keys + RouterIds(configs)
    decreases |configs|
  {
    if configs == [] then (reg, Done)
    else match CreateRouter(reg.runnables, configs[0])
      case Err(e) => (reg, Raised(e))
      case Ok(router) => LoadRouters(reg.(routers := reg.routers[configs[0].id := router]), configs[1..])
  }

  /** How many configs `LoadRouters` files before it stops: all of them, or up to the first that fails. */
  function RoutersReached<I>(runnables: map<string, Runnable>, configs: seq<RouterConfig<I>>): (n: nat)
    ensures n <= |configs|
  {
    if configs == [] || CreateRouter(runnables, configs[0]).Err? then 0
    else 1 + RoutersReached(runnables, configs[1..])
  }

  /** The configs before the count all build. */
  lemma {:induction false} RoutersReachedBuild<I>(runnables: map<string, Runnable>, configs: seq<RouterConfig<I>>)
    ensures forall j :: 0 <= j < RoutersReached(runnables, configs) ==> CreateRouter(runnables, configs[j]).Ok?
    decreases |configs|
  {
    if configs != [] && CreateRouter(runnables, configs[0]).Ok? {
      var rest := configs[1..];
      var n := RoutersReached(runnables, rest);
      RoutersReachedBuild(runnables, rest);
      forall j | 1 <= j < n + 1
        ensures CreateRouter(runnables, configs[j]).Ok?
      {
        assert configs[j] == rest[j - 1];
      }
    }
  }

  /** The config at the count, if there is one, fails to build. */
  lemma {:induction false} RoutersReachedFails<I>(runnables: map<string, Runnable>, configs: seq<RouterConfig<I>>)
    ensures RoutersReached(runnables, configs) < |configs| ==> CreateRouter(runnables, configs[RoutersReached(runnables, configs)]).Err?
    decreases |configs|
  {
    if configs != [] && CreateRouter(runnables, configs[0]).Ok? {
      var rest := configs[1..];
      var n := RoutersReached(runnables, rest);
      RoutersReachedFails(runnables, rest);
      if n < |rest| {
        assert configs[n + 1] == rest[n];
      }
    }
  }

  /** `LoadRouters` completes exactly when every config is reached. */
  lemma {:induction false} LoadRoutersDone<I>(reg: Registry<I>, configs: seq<RouterConfig<I>>)
    ensures LoadRouters(reg, configs).1.Done? <==> RoutersReached(reg.runnables, configs) == |configs|
    decreases |configs|
  {
    if configs != [] && CreateRouter(reg.runnables, configs[0]).Ok? {
      LoadRoutersDone(reg.(routers := reg.routers[configs[0].id := CreateRouter(reg.runnables, configs[0]).value]), configs[1..]);
    }
  }

  /** A router id that none of the reached configs names keeps its router. */
  lemma {:induction false} LoadRoutersKeeps<I>(reg: Registry<I>, configs: seq<RouterConfig<I>>, k: string)
    requires k in reg.routers
    requires forall j :: 0 <= j < RoutersReached(reg.runnables, configs) ==> configs[j].id != k
    ensures LoadRouters(reg, configs).0.routers[k] == reg.routers[k]
    decreases |configs|
  {
    if configs != [] && CreateRouter(reg.runnables, configs[0]).Ok? {
      var rest := configs[1..];
      assert forall j :: 0 <= j < |rest| ==> rest[j] == configs[j + 1];
      LoadRoutersKeeps(reg.(routers := reg.routers[configs[0].id := CreateRouter(reg.runnables, configs[0]).value]), rest, k);
    }
  }

  /**
   * A reached router config is what its id holds afterwards unless a later reached config
   * reuses the id: the last config with an id wins, also when a later config raises.
   */
  lemma {:induction false} LastRouterConfigWins<I>(reg: Registry<I>, configs: seq<RouterConfig<I>>, i: nat)
    requires i < RoutersReached(reg.runnables, configs)
    requires forall j :: i < j < RoutersReached(reg.runnables, configs) ==> configs[j].id != configs[i].id
    ensures configs[i].id in LoadRouters(reg, configs).0.routers
    ensures CreateRouter(reg.runnables, configs[i]) == Ok(LoadRouters(reg, configs).0.routers[configs[i].id])
    decreases |configs|
  {
    var next := reg.(routers := reg.routers[configs[0].id := CreateRouter(reg.runnables, configs[0]).value]);
    var rest := configs[1..];
    assert forall j :: 0 <= j < |rest| ==> rest[j] == configs[j + 1];
    if i == 0 {
      LoadRoutersKeeps(next, rest, configs[0].id);
    } else {
      LastRouterConfigWins(next, rest, i - 1);
    }
  }

  /** Config `i` is the last one with its id. */
  ghost predicate LastWithId(configs: seq<RunnableConfig>, i: int) {
    0 <= i < |configs| && forall j :: i < j < |configs| ==> configs[j].id != configs[i].id
  }

  /** An app's runnable configs in order, each filed under its id. */
  function LoadRunnables(runnables: map<string, Runnable>, configs: seq<RunnableConfig>): (r: map<string, Runnable>)
    ensures forall k :: k in r <==> k in runnables || exists i :: 0 <= i < |configs| && configs[i].id == k
    decreases |configs|
  {
    if configs == [] then runnables
    else
      assert forall i :: 0 <= i < |configs[1..]| ==> configs[1..][i] == configs[i + 1];
      LoadRunnables(runnables[configs[0].id := CreateRunnable(configs[0])], configs[1..])
  }

  /** An id no config mentions keeps its runnable. */
  lemma {:induction false} LoadRunnablesKeeps(runnables: map<string, Runnable>, configs: seq<RunnableConfig>, k: string)
    requires k in runnables
    requires forall i :: 0 <= i < |configs| ==> configs[i].id != k
    ensures LoadRunnables(runnables, configs)[k] == runnables[k]
    decreases |configs|
  {
    if configs != [] {
      assert forall i :: 0 <= i < |configs[1..]| ==> configs[1..][i] == configs[i + 1];
      LoadRunnablesKeeps(runnables[configs[0].id := CreateRunnable(configs[0])], configs[1..], k);
    }
  }

  /** A later config with an id replaces an earlier one: the last config with an id wins. */
  lemma {:induction false} LastRunnableConfigWins(runnables: map<string, Runnable>, configs: seq<RunnableConfig>, i: nat)
    requires LastWithId(configs, i)
    ensures LoadRunnables(runnables, configs)[configs[i].id] == CreateRunnable(configs[i])
    decreases |configs|
  {
    var next := runnables[configs[0].id := CreateRunnable(configs[0])];
    assert forall j :: 0 <= j < |configs[1..]| ==> configs[1..][j] == configs[j + 1];
    if i == 0 {
      LoadRunnablesKeeps(next, configs[1..], configs[0].id);
    } else {
      assert LastWithId(configs[1..], i - 1);
      LastRunnableConfigWins(next, configs[1..], i - 1);
    }
  }

  /** The rest of `load_repo` once an app's routers are done (or one has raised). */
  function AfterRouters<I>(p: (Registry<I>, Outcome), app: AppConfig<I>, rest: seq<AppConfig<I>>): (r: (Registry<I>, Outcome))
    ensures p.0.routers.Keys <= r.0.routers.Keys && p.0.runnables.Keys <= r.0.runnables.Keys
    ensures p.1.Raised? ==> r == p
    decreases |rest| + 1, 0
  {
    if p.1.Raised? then p
    else LoadApps(p.0.(runnables := LoadRunnables(p.0.runnables, app.runnables)), rest)
  }

  /** `load_repo`: per app, its routers first, then its runnables; the first failure stops it. */
  function LoadApps<I>(reg: Registry<I>, apps: seq<AppConfig<I>>): (r: (Registry<I>, Outcome))
    ensures reg.routers.Keys <= r.0.routers.Keys && reg.runnables.Keys <= r.0.runnables.Keys
    decreases |apps|, 1
  {
    if apps == [] then (reg, Done)
    else AfterRouters(LoadRouters(reg, apps[0].routers), apps[0], apps[1..])
  }

  /** When `load_repo` completes, every router and runnable id of every app is registered. */
  lemma {:induction false} LoadAppsRegistersAll<I>(reg: Registry<I>, apps: seq<AppConfig<I>>)
    requires LoadApps(reg, apps).1.Done?
    ensures forall a, i :: 0 <= a < |apps| && 0 <= i < |apps[a].routers| ==> apps[a].routers[i].id in LoadApps(reg, apps).0.routers
    ensures forall a, i :: 0 <= a < |apps| && 0 <= i < |apps[a].runnables| ==> apps[a].runnables[i].id in LoadApps(reg, apps).0.runnables
    decreases |apps|
  {
    if apps != [] {
      var loaded := LoadRouters(reg, apps[0].routers);
      var next := loaded.0.(runnables := LoadRunnables(loaded.0.runnables, apps[0].runnables));
      assert LoadApps(reg, apps) == LoadApps(next, apps[1..]);
      assert forall i :: 0 <= i < |apps[0].routers| ==> apps[0].routers[i].id in RouterIds(apps[0].routers);
      assert forall a :: 0 <= a < |apps[1..]| ==> apps[1..][a] == apps[a + 1];
      LoadAppsRegistersAll(next, apps[1..]);
    }
  }

  /**
   * Routers are built before their own app's runnables are registered: a router that
   * names a runnable declared only in the same app raises KeyError, and nothing is stored.
   */
  lemma OwnRunnableNotYetRegistered<I>(routerId: string, branchId: string, runnableId: string, entryPoint: string)
    ensures LoadApps(Registry(map[], map[]), [AppConfig<I>.AppConfig(
              [RouterConfig(routerId, [BranchConfig(branchId, [], [runnableId])])],
              [RunnableConfig(runnableId, entryPoint)])])
         == (Registry(map[], map[]), Raised(KeyError(runnableId)))
  {
    var branch := BranchConfig<I>.BranchConfig(branchId, [], [runnableId]);
    assert CreateRunnableBranch(map[], branch) == Err(KeyError(runnableId));
  }

  /** Registering the same runnable id in a later app replaces the earlier runnable. */
  lemma LaterRunnableConfigWins<I>(first: RunnableConfig, second: RunnableConfig)
    requires first.id == second.id
    ensures LoadApps(Registry(map[], map[]), [AppConfig<I>.AppConfig([], [first]), AppConfig<I>.AppConfig([], [second])]).0.runnables
         == map[first.id := CreateRunnable(second)]
  {
    var apps := [AppConfig<I>.AppConfig([], [first]), AppConfig<I>.AppConfig([], [second])];
    var afterFirst := Registry<I>.Registry(map[], map[first.id := CreateRunnable(first)]);
    assert LoadRunnables(map[], [first]) == afterFirst.runnables;
    assert LoadApps(Registry(map[], map[]), apps) == LoadApps(afterFirst, apps[1..]);
    var afterSecond := Registry<I>.Registry(map[], LoadRunnables(afterFirst.runnables, [second]));
    assert apps[1..] == [apps[1]];
    assert LoadRouters(afterFirst, apps[1].routers) == (afterFirst, Done);
    assert LoadApps(afterFirst, apps[1..]) == AfterRouters((afterFirst, Done), apps[1], apps[1..][1..]);
    assert apps[1..][1..] == [];
    assert AfterRouters((afterFirst, Done), apps[1], []) == LoadApps(afterSecond, []);
    assert LoadRunnables(afterFirst.runnables, [second]) == map[first.id := CreateRunnable(second)];
  }

  function NoRouterFound(routerId: string): PyError {
    ValueError("No router found with ID: " + routerId)
  }

  class DataLakeSystem<I> {
    var routers: map<string, Router<I>>
    var runnables: map<string, Runnable>

    constructor ()
      ensures routers == map[] && runnables == map[]
    {
      routers := map[];
      runnables := map[];
    }

    /** The nested loops of `load_repo`, stopping at the first router that cannot be built. */
    method LoadRepo(repo: DataLakeRepo<I>) returns (r: Outcome)
      modifies this
      ensures (Registry(routers, runnables), r) == LoadApps(Registry(old(routers), old(runnables)), repo.apps)
    {
      var apps := repo.apps;
      ghost var target := LoadApps(Registry(routers, runnables), apps);
      var a := 0;
      while a < |apps|
        invariant 0 <= a <= |apps|
        invariant LoadApps(Registry(routers, runnables), apps[a..]) == target
      {
        var app := apps[a];
        assert apps[a..][1..] == apps[a + 1..];
        var k := 0;
        while k < |app.routers|
          invariant 0 <= k <= |app.routers|
          invariant AfterRouters(LoadRouters(Registry(routers, runnables), app.routers[k..]), app, apps[a + 1..]) == target
        {
          var config := app.routers[k];
          assert app.routers[k..][1..] == app.routers[k + 1..];
          var created := CreateRouter(runnables, config);
          if created.Err? {
            return Raised(created.error);
          }
          routers := routers[config.id := created.value];
          k := k + 1;
        }
        assert app.routers[k..] == [];
        ghost var reg := Registry(routers, runnables);
        k := 0;
        while k < |app.runnables|
          invariant 0 <= k <= |app.runnables|
          invariant routers == reg.routers
          invariant LoadRunnables(runnables, app.runnables[k..]) == LoadRunnables(reg.runnables, app.runnables)
        {
          var config := app.runnables[k];
          assert app.runnables[k..][1..] == app.runnables[k + 1..];
          runnables := runnables[config.id := CreateRunnable(config)];
          k := k + 1;
        }
        assert app.runnables[k..] == [];
        a := a + 1;
      }
      return Done;
    }

    /** Runs the named router on the input; ValueError for an unknown router id. */
    function Execute(routerId: string, input: I): (r: Result<string>)
      reads this
      ensures routerId !in routers ==> r == Err(NoRouterFound(routerId))
      ensures routerId in routers ==> r == routers[routerId].Route(input)
    {
      if routerId in routers then routers[routerId].Route(input) else Err(NoRouterFound(routerId))
    }
  }

  /** `DataLakeSystem(repo)`: empty registries, then `load_repo`; an exception leaves the constructor. */
  method NewDataLakeSystem<I>(repo: DataLakeRepo<I>) returns (system: DataLakeSystem<I>, r: Outcome)
    ensures fresh(system)
    ensures (Registry(system.routers, system.runnables), r) == LoadApps(Registry(map[], map[]), repo.apps)
  {
    system := new DataLakeSystem();
    r := system.LoadRepo(repo);
  }
}
