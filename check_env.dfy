/** `check_env`: refuse to start when a required environment variable is unset. */
module EnvCheck {
  import opened Outcomes

  /** `[var for var in required_vars if var not in os.environ]` */
  function MissingVars(requiredVars: seq<string>, environ: map<string, string>): (missing: seq<string>)
    ensures forall v :: v in missing <==> v in requiredVars && v !in environ
    ensures |missing| <= |requiredVars|
  {
    if requiredVars == [] then []
    else
      var last := |requiredVars| - 1;
      assert forall v :: v in requiredVars <==> v in requiredVars[..last] || v == requiredVars[last];
      MissingVars(requiredVars[..last], environ) + (if requiredVars[last] in environ then [] else [requiredVars[last]])
  }

  /** The filter keeps the order of `required_vars`: it distributes over concatenation. */
  lemma {:induction false} MissingVarsKeepsOrder(a: seq<string>, b: seq<string>, environ: map<string, string>)
    ensures MissingVars(a + b, environ) == MissingVars(a, environ) + MissingVars(b, environ)
    decreases |b|
  {
    if b == [] {
      assert a + b == a;
    } else {
      var last := |b| - 1;
      assert (a + b)[..|a + b| - 1] == a + b[..last];
      assert (a + b)[|a + b| - 1] == b[last];
      MissingVarsKeepsOrder(a, b[..last], environ);
    }
  }

  /** `', '.join(names)` */
  function Join(names: seq<string>, separator: string): (s: string)
    ensures names == [] ==> s == ""
    ensures names != [] ==> |names[0]| <= |s| && s[..|names[0]|] == names[0]
  {
    if names == [] then ""
    else if |names| == 1 then names[0]
    else names[0] + separator + Join(names[1..], separator)
  }

  function CheckEnv(requiredVars: seq<string>, environ: map<string, string>): (r: Outcome)
    ensures r.Raised? <==> exists v :: v in requiredVars && v !in environ
    ensures r.Raised? ==>
              r.error == EnvironmentError("Missing environment variables: " + Join(MissingVars(requiredVars, environ), ", "))
  {
    var missing := MissingVars(requiredVars, environ);
    if missing != [] then
      assert missing[0] in missing;
      Raised(EnvironmentError("Missing environment variables: " + Join(missing, ", ")))
    else
      assert forall v :: v in requiredVars ==> v in environ;
      Done
  }

  /** Where `names[i]` starts in the joined text. */
  function Offset(names: seq<string>, separator: string, i: nat): nat
    requires i < |names|
  {
    if i == 0 then 0 else |names[0]| + |separator| + Offset(names[1..], separator, i - 1)
  }

  /** Each name, in particular each missing one, appears whole in the joined message. */
  lemma {:induction false} JoinContains(names: seq<string>, separator: string, i: nat)
    requires i < |names|
    ensures Offset(names, separator, i) + |names[i]| <= |Join(names, separator)|
    ensures Join(names, separator)[Offset(names, separator, i)..Offset(names, separator, i) + |names[i]|] == names[i]
  {
    var s := Join(names, separator);
    if i == 0 {
      assert s[0..|names[0]|] == names[0];
    } else {
      JoinContains(names[1..], separator, i - 1);
      var rest := Join(names[1..], separator);
      var k := Offset(names[1..], separator, i - 1);
      var offset := |names[0]| + |separator|;
      assert s == names[0] + separator + rest;
      assert s[offset + k..offset + k + |names[i]|] == rest[k..k + |names[i]|];
    }
  }

  /** With every name set, or nothing required, the check passes. */
  lemma CheckEnvPasses(requiredVars: seq<string>, environ: map<string, string>)
    requires forall v :: v in requiredVars ==> v in environ
    ensures CheckEnv(requiredVars, environ) == Done
    ensures CheckEnv([], environ) == Done
  {
  }
}
