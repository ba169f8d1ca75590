/**
 * The root validator `validate_structure` of the ETL process model: every entry of every
 * transformation's `dependencies` must be the `transformation_id` of a transformation in
 * the same list. It is a membership check only: no self-dependency or cycle check.
 */
module EtlValidation {
  import opened Outcomes

  datatype Transformation = Transformation(
    transformationId: string,
    description: Option<string>,
    logic: Option<string>,
    dependencies: Option<seq<string>>)

  /**
   * The raw field values handed to the validator: `transformations` is None when the key
   * is absent, and `others` stands for every other field, passed through untouched.
   */
  datatype EtlValues = EtlValues(transformations: Option<seq<Transformation>>, others: map<string, string>)

  const InvalidDependency := ValueError("Invalid transformation dependency.")
  const NoneNotIterable := TypeError("'NoneType' object is not iterable")

  /** `values.get('transformations', [])` */
  function TransformationsOf(values: EtlValues): seq<Transformation> {
    match values.transformations
    case None => []
    case Some(ts) => ts
  }

  /** The set of declared ids, built before any dependency is looked at. */
  function DeclaredIds(ts: seq<Transformation>): (ids: set<string>)
    ensures forall i :: 0 <= i < |ts| ==> ts[i].transformationId in ids
    ensures forall id :: id in ids ==> exists i :: 0 <= i < |ts| && ts[i].transformationId == id
  {
    set t | t in ts :: t.transformationId
  }

  /** The loop over transformations from position `i`, in list order. */
  function CheckFrom(ts: seq<Transformation>, ids: set<string>, i: nat): (r: Outcome)
    requires i <= |ts|
    ensures r.Raised? ==> r.error == InvalidDependency || r.error == NoneNotIterable
    ensures r.Done? ==> forall k :: i <= k < |ts| ==> ts[k].dependencies.Some?
    decreases |ts| - i
  {
    if i == |ts| then Done
    else match ts[i].dependencies
      case None => Raised(NoneNotIterable)
      case Some(deps) =>
        if exists d :: d in deps && d !in ids then Raised(InvalidDependency)
        else CheckFrom(ts, ids, i + 1)
  }

  function ValidateStructure(values: EtlValues): (r: Result<EtlValues>)
    ensures r.Ok? ==> r.value == values
    ensures r.Err? ==> r.error == InvalidDependency || r.error == NoneNotIterable
  {
    var ts := TransformationsOf(values);
    match CheckFrom(ts, DeclaredIds(ts), 0)
    case Done => Ok(values)
    case Raised(e) => Err(e)
  }

  /** Transformation `t` depends only on ids in `ids`. */
  ghost predicate Resolves(t: Transformation, ids: set<string>) {
    t.dependencies.Some? && forall d :: d in t.dependencies.value ==> d in ids
  }

  /** The property the validator is meant to establish. */
  ghost predicate DependenciesResolve(ts: seq<Transformation>) {
    forall i :: 0 <= i < |ts| ==> Resolves(ts[i], DeclaredIds(ts))
  }

  lemma {:induction false} CheckFromPasses(ts: seq<Transformation>, ids: set<string>, i: nat)
    requires i <= |ts|
    ensures CheckFrom(ts, ids, i).Done? <==> forall k :: i <= k < |ts| ==> Resolves(ts[k], ids)
    ensures (forall k :: i <= k < |ts| ==> ts[k].dependencies.Some?) && CheckFrom(ts, ids, i).Raised? ==>
              CheckFrom(ts, ids, i).error == InvalidDependency
    decreases |ts| - i
  {
    if i < |ts| {
      CheckFromPasses(ts, ids, i + 1);
    }
  }

  /** Accepts exactly when every dependency is a declared id, and then returns values unchanged. */
  lemma ValidateStructureAccepts(values: EtlValues)
    ensures ValidateStructure(values).Ok? <==> DependenciesResolve(TransformationsOf(values))
    ensures ValidateStructure(values).Ok? ==> ValidateStructure(values).value == values
  {
    var ts := TransformationsOf(values);
    CheckFromPasses(ts, DeclaredIds(ts), 0);
  }

  /**
   * When every transformation carries a dependency list, an undeclared dependency is
   * reported as ValueError('Invalid transformation dependency.') and nothing else is.
   */
  lemma ValidateStructureRejects(values: EtlValues, i: nat, dep: string)
    requires forall k :: 0 <= k < |TransformationsOf(values)| ==> TransformationsOf(values)[k].dependencies.Some?
    requires i < |TransformationsOf(values)|
    requires dep in TransformationsOf(values)[i].dependencies.value
    requires dep !in DeclaredIds(TransformationsOf(values))
    ensures ValidateStructure(values) == Err(InvalidDependency)
  {
    var ts := TransformationsOf(values);
    CheckFromPasses(ts, DeclaredIds(ts), 0);
    assert !Resolves(ts[i], DeclaredIds(ts));
  }

  /** A transformation listed with `dependencies=None` makes the loop raise TypeError when it is reached. */
  lemma NoneDependenciesRaise(values: EtlValues)
    requires |TransformationsOf(values)| > 0
    requires TransformationsOf(values)[0].dependencies.None?
    ensures ValidateStructure(values) == Err(NoneNotIterable)
  {
  }

  /** Lists holding the same transformations declare the same ids. */
  lemma SameMembersSameIds(ta: seq<Transformation>, tb: seq<Transformation>)
    requires forall t :: t in ta <==> t in tb
    ensures DeclaredIds(ta) == DeclaredIds(tb)
  {
    forall id | id in DeclaredIds(ta) ensures id in DeclaredIds(tb) {
      var i :| 0 <= i < |ta| && ta[i].transformationId == id;
      assert ta[i] in tb;
    }
    forall id | id in DeclaredIds(tb) ensures id in DeclaredIds(ta) {
      var i :| 0 <= i < |tb| && tb[i].transformationId == id;
      assert tb[i] in ta;
    }
  }

  /** Resolution carries over to a list whose members all come from a resolving list with the same ids. */
  lemma ResolutionCarriesOver(ta: seq<Transformation>, tb: seq<Transformation>)
    requires forall t :: t in tb ==> t in ta
    requires DeclaredIds(ta) == DeclaredIds(tb)
    requires DependenciesResolve(ta)
    ensures DependenciesResolve(tb)
  {
    forall i | 0 <= i < |tb| ensures Resolves(tb[i], DeclaredIds(tb)) {
      assert tb[i] in ta;
      var j :| 0 <= j < |ta| && ta[j] == tb[i];
      assert Resolves(ta[j], DeclaredIds(ta));
    }
  }

  /** The verdict does not depend on the order of the transformations. */
  lemma ValidateStructureOrderIndependent(a: EtlValues, b: EtlValues)
    requires multiset(TransformationsOf(a)) == multiset(TransformationsOf(b))
    ensures ValidateStructure(a).Ok? <==> ValidateStructure(b).Ok?
  {
    var ta, tb := TransformationsOf(a), TransformationsOf(b);
    ValidateStructureAccepts(a);
    ValidateStructureAccepts(b);
    assert forall t :: t in ta <==> t in multiset(ta);
    assert forall t :: t in tb <==> t in multiset(tb);
    SameMembersSameIds(ta, tb);
    if DependenciesResolve(ta) {
      ResolutionCarriesOver(ta, tb);
    }
    if DependenciesResolve(tb) {
      ResolutionCarriesOver(tb, ta);
    }
  }

  /** An empty or missing transformation list is accepted. */
  lemma EmptyTransformationsAccepted(others: map<string, string>)
    ensures ValidateStructure(EtlValues(None, others)) == Ok(EtlValues(None, others))
    ensures ValidateStructure(EtlValues(Some([]), others)) == Ok(EtlValues(Some([]), others))
  {
  }

  /** A transformation that depends on itself passes: its own id is declared. */
  lemma SelfDependencyAccepted(t: Transformation, others: map<string, string>)
    requires t.dependencies == Some([t.transformationId])
    ensures ValidateStructure(EtlValues(Some([t]), others)).Ok?
  {
    ValidateStructureAccepts(EtlValues(Some([t]), others));
  }

  /** A two-step cycle t1 -> t2 -> t1 passes: no cycle check is made. */
  lemma CycleAccepted(id1: string, id2: string, others: map<string, string>)
    ensures ValidateStructure(EtlValues(Some([
              Transformation(id1, None, None, Some([id2])),
              Transformation(id2, None, None, Some([id1]))]), others)).Ok?
  {
    var ts := [Transformation(id1, None, None, Some([id2])), Transformation(id2, None, None, Some([id1]))];
    ValidateStructureAccepts(EtlValues(Some(ts), others));
    assert DependenciesResolve(ts);
  }
}
