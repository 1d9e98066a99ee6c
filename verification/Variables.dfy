/** resolveVariables (internal/config/config_vars.go): values from overrides and the environment come
    first, then defaults are evaluated again and again until none makes progress. A default is a
    template over other variables; whether its value is a string is known only once it evaluates. */
module Variables {
  import opened Digraph
  import opened Levels
  import opened Wrappers

  datatype Var = Var(id: nat)

  datatype Part = Text(text: string) | Ref(v: Var)

  datatype Default = Default(parts: seq<Part>, isString: bool)

  datatype Block = Block(name: Var, default: Option<Default>)

  /** exactEnv and upperEnv are the two environment lookups, by the name itself and by its upper-case
      form. */
  datatype Inputs = Inputs(
    blocks: seq<Block>, overrides: map<Var, string>, exactEnv: map<Var, string>, upperEnv: map<Var, string>)

  // ---- What the inputs say ---------------------------------------------------------------

  ghost predicate DistinctNames(blocks: seq<Block>) {
    forall i, j :: 0 <= i < j < |blocks| ==> blocks[i].name != blocks[j].name
  }

  function Declared(blocks: seq<Block>): set<Var> {
    set i | 0 <= i < |blocks| :: blocks[i].name
  }

  /** The value a variable is given from outside: an override, else the upper-case environment name,
      else the exact one. */
  function Given(inputs: Inputs, x: Var): Option<string> {
    if x in inputs.overrides then Some(inputs.overrides[x])
    else if x in inputs.upperEnv then Some(inputs.upperEnv[x])
    else if x in inputs.exactEnv then Some(inputs.exactEnv[x])
    else None
  }

  /** The documentation lists the exact environment name before the upper-case one; the code lets the
      upper-case one win. */
  lemma UpperCaseWins(inputs: Inputs, x: Var)
    requires x !in inputs.overrides && x in inputs.upperEnv && x in inputs.exactEnv
    ensures Given(inputs, x) == Some(inputs.exactEnv[x]) <==> inputs.upperEnv[x] == inputs.exactEnv[x]
  {
  }

  // ---- Evaluation ----------------------------------------------------------------------------

  /** A reference to a variable without a value makes the whole default fail. */
  function Eval(parts: seq<Part>, values: map<Var, string>): Option<string> {
    if parts == [] then Some("")
    else
      var last := parts[|parts| - 1];
      match Eval(parts[..|parts| - 1], values)
      case None => None
      case Some(text) =>
        match last
        case Text(t) => Some(text + t)
        case Ref(v) => if v in values then Some(text + values[v]) else None
  }

  function Refs(parts: seq<Part>): set<Var> {
    set i | 0 <= i < |parts| && parts[i].Ref? :: parts[i].v
  }

  lemma RefsTake(parts: seq<Part>)
    requires parts != []
    ensures var last := parts[|parts| - 1];
      Refs(parts) == Refs(parts[..|parts| - 1]) + if last.Ref? then {last.v} else {}
  {
    var init, last := parts[..|parts| - 1], parts[|parts| - 1];
    forall v
      ensures v in Refs(parts) <==> v in Refs(init) || (last.Ref? && v == last.v)
    {
      if v in Refs(init) {
        var i :| 0 <= i < |init| && init[i].Ref? && init[i].v == v;
        assert parts[i].Ref? && parts[i].v == v;
      }
      if v in Refs(parts) {
        var i :| 0 <= i < |parts| && parts[i].Ref? && parts[i].v == v;
        assert i < |init| ==> init[i] == parts[i];
      }
    }
  }

  lemma {:induction false} EvalIffRefs(parts: seq<Part>, values: map<Var, string>)
    ensures Eval(parts, values).Some? <==> Refs(parts) <= values.Keys
  {
    if parts != [] {
      RefsTake(parts);
      EvalIffRefs(parts[..|parts| - 1], values);
    }
  }

  lemma {:induction false} EvalAgrees(parts: seq<Part>, a: map<Var, string>, b: map<Var, string>)
    requires forall v :: v in Refs(parts) ==> v in a && v in b && a[v] == b[v]
    ensures Eval(parts, a) == Eval(parts, b)
  {
    if parts != [] {
      RefsTake(parts);
      EvalAgrees(parts[..|parts| - 1], a, b);
    }
  }

  method Evaluate(parts: seq<Part>, values: map<Var, string>) returns (value: Option<string>)
    ensures value == Eval(parts, values)
  {
    var text := "";
    var i := 0;
    while i < |parts|
      invariant 0 <= i <= |parts| && Eval(parts[..i], values) == Some(text)
    {
      assert parts[..i + 1][..i] == parts[..i];
      match parts[i] {
        case Text(t) =>
          text := text + t;
        case Ref(v) =>
          if v !in values {
            EvalStops(parts, i + 1, values);
            return None;
          }
          text := text + values[v];
      }
      i := i + 1;
    }
    assert parts[..i] == parts;
    return Some(text);
  }

  lemma {:induction false} EvalStops(parts: seq<Part>, i: nat, values: map<Var, string>)
    requires i <= |parts| && Eval(parts[..i], values).None?
    ensures Eval(parts, values).None?
    decreases |parts| - i
  {
    if i < |parts| {
      assert parts[..i + 1][..i] == parts[..i];
      EvalStops(parts, i + 1, values);
    } else {
      assert parts[..i] == parts;
    }
  }

  // ---- Which defaults have a value ----------------------------------------------------------

  /** What the defaults loop works on: the defaults and the variables given from outside. */
  datatype Problem = Problem(defaults: map<Var, Default>, given: map<Var, string>)

  /** A variable that can never get a value: not given, and without a default that is a string. */
  predicate NoValue(p: Problem, x: Var) {
    x !in p.given && (x !in p.defaults || !p.defaults[x].isString)
  }

  predicate Uses(p: Problem, r: Var, x: Var) {
    x in p.defaults && x !in p.given && p.defaults[x].isString && r in Refs(p.defaults[x].parts)
  }

  /** All variables in play. */
  ghost function Names(p: Problem): (r: set<Var>)
    ensures forall x :: x in p.defaults || x in p.given ==> x in r
    ensures forall r0, x :: Uses(p, r0, x) ==> r0 in r
  {
    p.defaults.Keys + p.given.Keys + set x, v | x in p.defaults && v in Refs(p.defaults[x].parts) :: v
  }

  ghost predicate IsNeeds(p: Problem, r: set<(Var, Var)>) {
    forall u, x {:trigger (u, x) in r} :: (u, x) in r <==> Uses(p, u, x) || (u == x && x in Names(p) && NoValue(p, x))
  }

  /** (u, x) when the default of x refers to u; a variable that can never get a value needs itself. */
  ghost function Needs(p: Problem): (r: set<(Var, Var)>)
    ensures IsNeeds(p, r)
  {
    assert IsNeeds(p, set u, x | u in Names(p) && x in Names(p) && (Uses(p, u, x) || (u == x && NoValue(p, x))) :: (u, x));
    var r :| IsNeeds(p, r);
    r
  }

  /** x leads, through references, to a cycle of references or to a variable that can never get a
      value. */
  ghost predicate Hopeless(p: Problem, x: Var) {
    exists y :: Reach(Needs(p), y, x) && (NoValue(p, y) || OnCycle(Needs(p), y)) && y in Names(p)
  }

  /** The variables that get a value. */
  ghost function Resolvable(p: Problem): set<Var> {
    Settled(Needs(p), Names(p), |Names(p)|)
  }

  lemma NeedsWithin(p: Problem)
    ensures Within(Needs(p), Names(p))
  {
  }

  lemma CycleIsHopeless(p: Problem, x: Var)
    requires BehindCycle(Needs(p), x)
    ensures Hopeless(p, x)
  {
    var y :| OnCycle(Needs(p), y) && Reach(Needs(p), y, x);
    var b :| (y, b) in Needs(p) && Reach(Needs(p), b, y);
    NeedsWithin(p);
  }

  lemma HopelessIsBehindCycle(p: Problem, x: Var)
    requires Hopeless(p, x)
    ensures BehindCycle(Needs(p), x)
  {
    var y :| Reach(Needs(p), y, x) && (NoValue(p, y) || OnCycle(Needs(p), y)) && y in Names(p);
    if NoValue(p, y) {
      ReachRefl(Needs(p), y);
      assert (y, y) in Needs(p);
    }
  }

  lemma ResolvableIff(p: Problem, x: Var)
    requires x in Names(p)
    ensures x in Resolvable(p) <==> !Hopeless(p, x)
  {
    NeedsWithin(p);
    NeverSettledIff(Needs(p), Names(p), x);
    if BehindCycle(Needs(p), x) {
      CycleIsHopeless(p, x);
    }
    if Hopeless(p, x) {
      HopelessIsBehindCycle(p, x);
    }
  }

  /** A default all of whose references have values gets one. */
  lemma ResolvableStep(p: Problem, x: Var)
    requires x in p.defaults && x !in p.given && p.defaults[x].isString
    requires Refs(p.defaults[x].parts) <= Resolvable(p)
    ensures x in Resolvable(p)
  {
    NeedsWithin(p);
    NeverSettledIff(Needs(p), Names(p), x);
    assert PredsIn(Needs(p), x, Resolvable(p));
    assert x in Settled(Needs(p), Names(p), |Names(p)| + 1);
  }

  lemma GivenIsResolvable(p: Problem, x: Var)
    requires x in p.given
    ensures x in Resolvable(p)
  {
    NeedsWithin(p);
    NeverSettledIff(Needs(p), Names(p), x);
    assert PredsIn(Needs(p), x, {});
    assert x in Settled(Needs(p), Names(p), 1);
  }

  // ---- Assignments ------------------------------------------------------------------------------

  /** values satisfies every override and every default that has a value. */
  ghost predicate Solves(p: Problem, values: map<Var, string>) {
    && Resolvable(p) <= values.Keys
    && (forall x :: x in p.given ==> x in values && values[x] == p.given[x])
    && forall x :: x in Resolvable(p) && x in p.defaults && x !in p.given ==>
         Eval(p.defaults[x].parts, values) == Some(values[x])
  }

  /** What was settled the round before. */
  lemma SettledBefore(p: Problem, k: nat, x: Var) returns (j: nat)
    requires x in Settled(Needs(p), Names(p), k) && x !in p.given
    ensures k == j + 1
    ensures NoValue(p, x) ==> x in Settled(Needs(p), Names(p), j)
    ensures !NoValue(p, x) ==> Refs(p.defaults[x].parts) <= Settled(Needs(p), Names(p), j)
  {
    j := k - 1;
    if NoValue(p, x) {
      assert (x, x) in Needs(p);
    } else {
      forall v | v in Refs(p.defaults[x].parts)
        ensures v in Settled(Needs(p), Names(p), j)
      {
        assert (v, x) in Needs(p);
      }
    }
  }

  ghost predicate Agree(a: map<Var, string>, b: map<Var, string>, x: Var) {
    x in a && x in b && a[x] == b[x]
  }

  lemma {:induction false} SolutionsAgree(p: Problem, a: map<Var, string>, b: map<Var, string>, k: nat, x: Var)
    requires Solves(p, a) && Solves(p, b)
    requires k <= |Names(p)| && x in Settled(Needs(p), Names(p), k)
    ensures Agree(a, b, x)
    decreases k
  {
    SettledMono(Needs(p), Names(p), k, |Names(p)|);
    if x !in p.given {
      var j := SettledBefore(p, k, x);
      if NoValue(p, x) {
        SolutionsAgree(p, a, b, j, x);
      } else {
        forall v | v in Refs(p.defaults[x].parts)
          ensures Agree(a, b, v)
        {
          SolutionsAgree(p, a, b, j, v);
        }
        DefaultsAgree(p, a, b, x);
      }
    }
  }

  lemma DefaultsAgree(p: Problem, a: map<Var, string>, b: map<Var, string>, x: Var)
    requires Solves(p, a) && Solves(p, b) && x in Resolvable(p) && x in p.defaults && x !in p.given
    requires forall v :: v in Refs(p.defaults[x].parts) ==> Agree(a, b, v)
    ensures Agree(a, b, x)
  {
    forall v | v in Refs(p.defaults[x].parts)
      ensures v in a && v in b && a[v] == b[v]
    {
      assert Agree(a, b, v);
    }
    EvalAgrees(p.defaults[x].parts, a, b);
  }

  /** There is at most one assignment: the order in which defaults are tried cannot matter. */
  lemma SolutionIsUnique(p: Problem, a: map<Var, string>, b: map<Var, string>, x: Var)
    requires Solves(p, a) && Solves(p, b) && x in Resolvable(p)
    ensures a[x] == b[x]
  {
    SolutionsAgree(p, a, b, |Names(p)|, x);
  }

  // ---- The loop ----------------------------------------------------------------------------------

  function Restrict(variables: map<Var, string>, resolved: set<Var>): map<Var, string> {
    map x | x in variables && x in resolved :: variables[x]
  }

  method ResolvedVariables(variables: map<Var, string>, resolved: set<Var>) returns (values: map<Var, string>)
    ensures values == Restrict(variables, resolved)
  {
    values := map[];
    var todo := variables.Keys;
    while todo != {}
      invariant todo <= variables.Keys && values == Restrict(variables, resolved - todo)
    {
      var name :| name in todo;
      if name in resolved {
        values := values[name := variables[name]];
      }
      todo := todo - {name};
    }
    assert resolved - todo == resolved;
  }

  /** What the loop keeps: the resolved variables have the values that inputs and defaults give. */
  ghost predicate Partial(p: Problem, variables: map<Var, string>, resolved: set<Var>) {
    && p.defaults.Keys <= variables.Keys && resolved <= variables.Keys && p.given.Keys <= resolved
    && resolved <= Resolvable(p)
    && (forall x :: x in p.given ==> variables[x] == p.given[x])
    && (forall x :: x in resolved && x !in p.given ==> Derived(p, variables, resolved, x))
    && (forall x :: x in variables && x !in resolved ==> variables[x] == "")
  }

  ghost predicate Derived(p: Problem, variables: map<Var, string>, resolved: set<Var>, x: Var)
    requires x in variables
  {
    && x in p.defaults && p.defaults[x].isString
    && Eval(p.defaults[x].parts, Restrict(variables, resolved)) == Some(variables[x])
  }

  lemma DerivedStays(p: Problem, variables: map<Var, string>, resolved: set<Var>, x: Var, value: string, y: Var)
    requires x !in resolved && y in variables && y != x && Derived(p, variables, resolved, y)
    ensures Derived(p, variables[x := value], resolved + {x}, y)
  {
    var before, after := Restrict(variables, resolved), Restrict(variables[x := value], resolved + {x});
    EvalIffRefs(p.defaults[y].parts, before);
    EvalAgrees(p.defaults[y].parts, before, after);
  }

  lemma DerivedNow(p: Problem, variables: map<Var, string>, resolved: set<Var>, x: Var, value: string)
    requires x !in resolved && x in p.defaults && p.defaults[x].isString
    requires Eval(p.defaults[x].parts, Restrict(variables, resolved)) == Some(value)
    ensures Derived(p, variables[x := value], resolved + {x}, x)
    ensures Refs(p.defaults[x].parts) <= resolved
  {
    var before, after := Restrict(variables, resolved), Restrict(variables[x := value], resolved + {x});
    EvalIffRefs(p.defaults[x].parts, before);
    EvalAgrees(p.defaults[x].parts, before, after);
  }

  lemma PartialNext(p: Problem, variables: map<Var, string>, resolved: set<Var>, x: Var, value: string)
    requires Partial(p, variables, resolved) && x in p.defaults && x !in resolved && p.defaults[x].isString
    requires Eval(p.defaults[x].parts, Restrict(variables, resolved)) == Some(value)
    ensures Partial(p, variables[x := value], resolved + {x})
  {
    DerivedNow(p, variables, resolved, x, value);
    ResolvableStep(p, x);
    forall y | y in resolved + {x} && y !in p.given
      ensures Derived(p, variables[x := value], resolved + {x}, y)
    {
      if y != x {
        DerivedStays(p, variables, resolved, x, value, y);
      }
    }
  }

  /** No unresolved default evaluates. */
  ghost predicate Stuck(p: Problem, variables: map<Var, string>, resolved: set<Var>, among: set<Var>) {
    forall x :: x in p.defaults && x in among && x !in resolved ==>
      Eval(p.defaults[x].parts, Restrict(variables, resolved)).None?
  }

  /** Tries one default that has no value yet. */
  method TryDefault(p: Problem, variables0: map<Var, string>, resolved0: set<Var>, name: Var)
    returns (variables: map<Var, string>, resolved: set<Var>, failed: bool)
    requires Partial(p, variables0, resolved0) && name in p.defaults && name !in resolved0
    ensures failed ==> NoValue(p, name)
    ensures !failed ==> Partial(p, variables, resolved) && variables.Keys == variables0.Keys
    ensures !failed && name in resolved ==> resolved == resolved0 + {name}
    ensures !failed && name !in resolved ==> resolved == resolved0 && variables == variables0
    ensures !failed && name !in resolved ==> Eval(p.defaults[name].parts, Restrict(variables, resolved)).None?
  {
    variables, resolved, failed := variables0, resolved0, false;
    var values := ResolvedVariables(variables, resolved);
    var value := Evaluate(p.defaults[name].parts, values);
    if value.Some? {
      if !p.defaults[name].isString {
        failed := true;
        return;
      }
      PartialNext(p, variables, resolved, name, value.value);
      variables := variables[name := value.value];
      resolved := resolved + {name};
    }
  }

  /** One pass over the defaults, in any order; failed reports a default that is not a string. */
  method Pass(p: Problem, variables0: map<Var, string>, resolved0: set<Var>)
    returns (variables: map<Var, string>, resolved: set<Var>, progress: bool, failed: bool)
    requires Partial(p, variables0, resolved0)
    ensures failed ==> exists x :: x in p.defaults && NoValue(p, x)
    ensures !failed ==> Partial(p, variables, resolved) && variables.Keys == variables0.Keys
    ensures !failed ==> resolved0 <= resolved <= resolved0 + p.defaults.Keys
    ensures !failed && progress ==> resolved0 < resolved
    ensures !failed && !progress ==> Stuck(p, variables, resolved, p.defaults.Keys)
  {
    variables, resolved, progress, failed := variables0, resolved0, false, false;
    var todo := p.defaults.Keys;
    while todo != {}
      invariant todo <= p.defaults.Keys
      invariant Partial(p, variables, resolved) && resolved0 <= resolved <= resolved0 + p.defaults.Keys
      invariant variables.Keys == variables0.Keys
      invariant progress ==> resolved0 < resolved
      invariant !progress ==> Stuck(p, variables, resolved, p.defaults.Keys - todo)
    {
      var name :| name in todo;
      todo := todo - {name};
      if name in resolved {
        continue;
      }
      variables, resolved, failed := TryDefault(p, variables, resolved, name);
      if failed {
        return;
      }
      progress := progress || name in resolved;
    }
  }

  method AllResolved(defaults: map<Var, Default>, resolved: set<Var>) returns (all: bool)
    ensures all <==> defaults.Keys <= resolved
  {
    var todo := defaults.Keys;
    while todo != {}
      invariant todo <= defaults.Keys && defaults.Keys - todo <= resolved
    {
      var name :| name in todo;
      if name !in resolved {
        return false;
      }
      todo := todo - {name};
    }
    return true;
  }

  /** Without progress, everything that can get a value has one. */
  lemma {:induction false} NothingLeft(p: Problem, variables: map<Var, string>, resolved: set<Var>, k: nat, x: Var)
    requires Partial(p, variables, resolved) && x in Settled(Needs(p), Names(p), k)
    requires Stuck(p, variables, resolved, p.defaults.Keys)
    ensures x in resolved
    decreases k
  {
    if x !in p.given {
      var j := SettledBefore(p, k, x);
      if NoValue(p, x) {
        NothingLeft(p, variables, resolved, j, x);
      } else {
        forall v | v in Refs(p.defaults[x].parts)
          ensures v in Restrict(variables, resolved)
        {
          NothingLeft(p, variables, resolved, j, v);
        }
        EvalIffRefs(p.defaults[x].parts, Restrict(variables, resolved));
      }
    }
  }

  /** What can get a value at all has one. */
  ghost predicate Exhausted(p: Problem, resolved: set<Var>) {
    Resolvable(p) <= resolved
  }

  lemma StuckIsExhausted(p: Problem, variables: map<Var, string>, resolved: set<Var>)
    requires Partial(p, variables, resolved) && Stuck(p, variables, resolved, p.defaults.Keys)
    ensures Exhausted(p, resolved)
  {
    forall x | x in Resolvable(p)
      ensures x in resolved
    {
      NothingLeft(p, variables, resolved, |Names(p)|, x);
    }
  }

  lemma AllIsExhausted(p: Problem, variables: map<Var, string>, resolved: set<Var>)
    requires Partial(p, variables, resolved) && p.defaults.Keys <= resolved
    ensures Exhausted(p, resolved)
  {
    assert Stuck(p, variables, resolved, p.defaults.Keys);
    StuckIsExhausted(p, variables, resolved);
  }

  lemma DoneIff(p: Problem, variables: map<Var, string>, resolved: set<Var>)
    requires Partial(p, variables, resolved) && Exhausted(p, resolved)
    ensures p.defaults.Keys <= resolved <==> forall x :: x in p.defaults ==> !Hopeless(p, x)
  {
    forall x | x in p.defaults
      ensures x in resolved <==> !Hopeless(p, x)
    {
      ResolvableIff(p, x);
    }
  }

  lemma DoneSolves(p: Problem, variables: map<Var, string>, resolved: set<Var>)
    requires Partial(p, variables, resolved) && Exhausted(p, resolved)
    ensures Solves(p, variables)
  {
    forall x | x in Resolvable(p) && x in p.defaults && x !in p.given
      ensures Eval(p.defaults[x].parts, variables) == Some(variables[x])
    {
      assert Derived(p, variables, resolved, x);
      EvalIffRefs(p.defaults[x].parts, Restrict(variables, resolved));
      EvalAgrees(p.defaults[x].parts, Restrict(variables, resolved), variables);
    }
  }

  lemma NoValueIsHopeless(p: Problem, x: Var)
    requires x in p.defaults && NoValue(p, x)
    ensures Hopeless(p, x)
  {
    ReachRefl(Needs(p), x);
  }

  /** The repeat-until-no-progress loop succeeds exactly when no default is hopeless, and then gives the
      one assignment that satisfies overrides and defaults. */
  method Iterate(p: Problem, variables0: map<Var, string>, resolved0: set<Var>)
    returns (variables: map<Var, string>, ok: bool)
    requires Partial(p, variables0, resolved0)
    ensures ok <==> forall x :: x in p.defaults ==> !Hopeless(p, x)
    ensures ok ==> Solves(p, variables) && variables.Keys == variables0.Keys
    ensures ok ==> forall x :: x in variables && x !in Resolvable(p) ==> variables[x] == ""
  {
    variables := variables0;
    var resolved := resolved0;
    while true
      invariant Partial(p, variables, resolved) && variables.Keys == variables0.Keys
      decreases p.defaults.Keys - resolved
    {
      ghost var before := resolved;
      var progress, failed;
      variables, resolved, progress, failed := Pass(p, variables, resolved);
      if failed {
        ghost var x :| x in p.defaults && NoValue(p, x);
        NoValueIsHopeless(p, x);
        return variables, false;
      }
      var all := AllResolved(p.defaults, resolved);
      if all {
        AllIsExhausted(p, variables, resolved);
        break;
      }
      if !progress {
        StuckIsExhausted(p, variables, resolved);
        break;
      }
      assert p.defaults.Keys - resolved < p.defaults.Keys - before by {
        var x :| x in resolved && x !in before;
        assert x in p.defaults.Keys - before;
      }
    }
    DoneIff(p, variables, resolved);
    DoneSolves(p, variables, resolved);
    ok := AllResolved(p.defaults, resolved);
  }

  // ---- The whole resolution ------------------------------------------------------------------------

  function DefaultsOf(blocks: seq<Block>): map<Var, Default> {
    if blocks == [] then map[]
    else
      var so, last := DefaultsOf(blocks[..|blocks| - 1]), blocks[|blocks| - 1];
      if last.default.Some? then so[last.name := last.default.value] else so
  }

  /** The defaults, and the values given from outside to declared variables. */
  function ProblemOf(inputs: Inputs): Problem {
    Problem(DefaultsOf(inputs.blocks),
            map x | x in Declared(inputs.blocks) && Given(inputs, x).Some? :: Given(inputs, x).value)
  }

  lemma DeclaredTake(blocks: seq<Block>, i: nat)
    requires i < |blocks|
    ensures Declared(blocks[..i + 1]) == Declared(blocks[..i]) + {blocks[i].name}
    ensures DistinctNames(blocks[..i + 1]) <==> DistinctNames(blocks[..i]) && blocks[i].name !in Declared(blocks[..i])
  {
    var more, fewer := blocks[..i + 1], blocks[..i];
    assert more[i] == blocks[i] && forall j :: 0 <= j < i ==> more[j] == fewer[j];
    forall x
      ensures x in Declared(more) <==> x in Declared(fewer) || x == blocks[i].name
    {
      if x in Declared(fewer) {
        var j :| 0 <= j < |fewer| && fewer[j].name == x;
        assert more[j].name == x;
      }
      assert more[i].name == blocks[i].name;
    }
    if blocks[i].name in Declared(fewer) {
      var j :| 0 <= j < |fewer| && fewer[j].name == blocks[i].name;
      assert more[j].name == more[i].name;
    }
    if DistinctNames(more) {
      forall j, k | 0 <= j < k < |fewer|
        ensures fewer[j].name != fewer[k].name
      {
        assert more[j].name != more[k].name;
      }
    }
  }

  lemma {:induction false} StillDistinct(blocks: seq<Block>, i: nat)
    requires i <= |blocks|
    ensures DistinctNames(blocks) ==> DistinctNames(blocks[..i])
  {
    if DistinctNames(blocks) {
      forall j, k | 0 <= j < k < i
        ensures blocks[..i][j].name != blocks[..i][k].name
      {
        assert blocks[j].name != blocks[k].name;
      }
    }
  }

  lemma {:induction false} DefaultsAreDeclared(blocks: seq<Block>)
    ensures DefaultsOf(blocks).Keys <= Declared(blocks)
  {
    if blocks != [] {
      var i := |blocks| - 1;
      DefaultsAreDeclared(blocks[..i]);
      DeclaredTake(blocks, i);
      assert blocks[..i + 1] == blocks;
    }
  }

  /** The var blocks, each declaring a variable with an empty value. */
  method ReadBlocks(blocks: seq<Block>) returns (variables: map<Var, string>, defaults: map<Var, Default>, ok: bool)
    ensures ok <==> DistinctNames(blocks)
    ensures ok ==> variables.Keys == Declared(blocks) && (forall x :: x in variables ==> variables[x] == "")
    ensures ok ==> defaults == DefaultsOf(blocks)
  {
    variables, defaults := map[], map[];
    var i := 0;
    while i < |blocks|
      invariant 0 <= i <= |blocks| && DistinctNames(blocks[..i])
      invariant variables.Keys == Declared(blocks[..i]) && (forall x :: x in variables ==> variables[x] == "")
      invariant defaults == DefaultsOf(blocks[..i])
    {
      DeclaredTake(blocks, i);
      assert blocks[..i + 1][..i] == blocks[..i];
      if blocks[i].name in variables {
        StillDistinct(blocks, i + 1);
        return variables, defaults, false;
      }
      variables := variables[blocks[i].name := ""];
      if blocks[i].default.Some? {
        defaults := defaults[blocks[i].name := blocks[i].default.value];
      }
      i := i + 1;
    }
    assert blocks[..i] == blocks;
    ok := true;
  }

  /** Of the declared variables, those not in todo have been given their values. */
  ghost predicate GivenSoFar(
    inputs: Inputs, todo: set<Var>, variables0: map<Var, string>, variables: map<Var, string>, resolved: set<Var>)
  {
    && variables.Keys == variables0.Keys && todo <= variables0.Keys
    && (forall x :: x in resolved <==> x in variables0 && x !in todo && Given(inputs, x).Some?)
    && forall x :: x in variables0 ==>
         variables[x] == if x in resolved then Given(inputs, x).value else variables0[x]
  }

  lemma GivenNext(
    inputs: Inputs, todo: set<Var>, name: Var, variables0: map<Var, string>, variables: map<Var, string>,
    resolved: set<Var>)
    requires GivenSoFar(inputs, todo, variables0, variables, resolved) && name in todo
    ensures match Given(inputs, name)
            case Some(v) => GivenSoFar(inputs, todo - {name}, variables0, variables[name := v], resolved + {name})
            case None => GivenSoFar(inputs, todo - {name}, variables0, variables, resolved)
  {
  }

  lemma GivenDone(inputs: Inputs, variables0: map<Var, string>, variables: map<Var, string>, resolved: set<Var>)
    requires variables0.Keys == Declared(inputs.blocks) && GivenSoFar(inputs, {}, variables0, variables, resolved)
    ensures variables.Keys == variables0.Keys && resolved == ProblemOf(inputs).given.Keys
    ensures forall x :: x in variables ==>
      variables[x] == if x in resolved then ProblemOf(inputs).given[x] else variables0[x]
  {
  }

  /** The environment and the overrides for one variable. */
  method ReadOne(inputs: Inputs, name: Var, variables0: map<Var, string>, resolved0: set<Var>)
    returns (variables: map<Var, string>, resolved: set<Var>)
    ensures match Given(inputs, name)
            case Some(v) => variables == variables0[name := v] && resolved == resolved0 + {name}
            case None => variables == variables0 && resolved == resolved0
  {
    variables, resolved := variables0, resolved0;
    if name in inputs.exactEnv {
      variables := variables[name := inputs.exactEnv[name]];
      resolved := resolved + {name};
    }
    if name in inputs.upperEnv {
      variables := variables[name := inputs.upperEnv[name]];
      resolved := resolved + {name};
    }
    if name in inputs.overrides {
      variables := variables[name := inputs.overrides[name]];
      resolved := resolved + {name};
    }
  }

  method ReadGiven(inputs: Inputs, variables0: map<Var, string>) returns (variables: map<Var, string>, resolved: set<Var>)
    requires variables0.Keys == Declared(inputs.blocks)
    ensures variables.Keys == variables0.Keys && resolved == ProblemOf(inputs).given.Keys
    ensures forall x :: x in variables ==>
      variables[x] == if x in resolved then ProblemOf(inputs).given[x] else variables0[x]
  {
    variables, resolved := variables0, {};
    var todo := variables0.Keys;
    while todo != {}
      invariant GivenSoFar(inputs, todo, variables0, variables, resolved)
    {
      var name :| name in todo;
      GivenNext(inputs, todo, name, variables0, variables, resolved);
      todo := todo - {name};
      variables, resolved := ReadOne(inputs, name, variables, resolved);
    }
    GivenDone(inputs, variables0, variables, resolved);
  }

  method AllDeclared(overrides: map<Var, string>, variables: map<Var, string>) returns (all: bool)
    ensures all <==> overrides.Keys <= variables.Keys
  {
    var todo := overrides.Keys;
    while todo != {}
      invariant todo <= overrides.Keys && overrides.Keys - todo <= variables.Keys
    {
      var name :| name in todo;
      if name !in variables {
        return false;
      }
      todo := todo - {name};
    }
    return true;
  }

  /** What a successful resolution returns: every declared variable, given values and defaults
      satisfied, and the empty string for a variable with neither. */
  ghost predicate IsResolution(inputs: Inputs, values: map<Var, string>) {
    var p := ProblemOf(inputs);
    && values.Keys == Declared(inputs.blocks) && Solves(p, values)
    && forall x :: x in values && x !in p.given && x !in p.defaults ==> values[x] == ""
  }

  // ---- The result, by its sources ----------------------------------------------------------------

  function Joined(pieces: seq<string>): string {
    if pieces == [] then "" else pieces[0] + Joined(pieces[1..])
  }

  /** The pieces are those of the template, in its order: texts as they are, references by the values referred to. */
  ghost predicate PiecesOf(parts: seq<Part>, values: map<Var, string>, pieces: seq<string>) {
    |pieces| == |parts|
    && forall i :: 0 <= i < |parts| ==>
         match parts[i]
         case Text(t) => pieces[i] == t
         case Ref(v) => v in values && pieces[i] == values[v]
  }

  /** The text is the template with every reference replaced. */
  ghost predicate Reads(parts: seq<Part>, values: map<Var, string>, text: string) {
    exists pieces :: PiecesOf(parts, values, pieces) && text == Joined(pieces)
  }

  lemma {:induction false} JoinedSnoc(pieces: seq<string>, last: string)
    ensures Joined(pieces + [last]) == Joined(pieces) + last
    decreases |pieces|
  {
    if pieces != [] {
      assert (pieces + [last])[1..] == pieces[1..] + [last];
      JoinedSnoc(pieces[1..], last);
    }
  }

  lemma {:induction false} EvalReads(parts: seq<Part>, values: map<Var, string>) returns (pieces: seq<string>)
    requires Eval(parts, values).Some?
    ensures PiecesOf(parts, values, pieces) && Eval(parts, values) == Some(Joined(pieces))
    decreases |parts|
  {
    if parts == [] {
      pieces := [];
    } else {
      var init, last := parts[..|parts| - 1], parts[|parts| - 1];
      var before := EvalReads(init, values);
      var piece := match last case Text(t) => t case Ref(v) => values[v];
      JoinedSnoc(before, piece);
      pieces := before + [piece];
    }
  }

  /** x is given a value from outside, or declares a default. */
  ghost predicate HasSource(inputs: Inputs, x: Var) {
    || x in inputs.overrides || x in inputs.upperEnv || x in inputs.exactEnv
    || exists block :: block in inputs.blocks && block.name == x && block.default.Some?
  }

  /** A variable that nothing gives has the value of its default, which must be a string and refer only to variables
      with a source; without a default it is empty. */
  ghost predicate ByDefault(inputs: Inputs, values: map<Var, string>, block: Block)
    requires block.name in values
  {
    match block.default
    case None => values[block.name] == ""
    case Some(default) =>
      && default.isString && Reads(default.parts, values, values[block.name])
      && forall v :: Ref(v) in default.parts ==> HasSource(inputs, v)
  }

  /** Where the value of a variable comes from: the override, else the upper-case environment name, else the exact one,
      else the default. */
  ghost predicate SourceOf(inputs: Inputs, values: map<Var, string>, block: Block)
    requires block.name in values
  {
    var x := block.name;
    && (x in inputs.overrides ==> values[x] == inputs.overrides[x])
    && (x !in inputs.overrides && x in inputs.upperEnv ==> values[x] == inputs.upperEnv[x])
    && (x !in inputs.overrides && x !in inputs.upperEnv && x in inputs.exactEnv ==> values[x] == inputs.exactEnv[x])
    && (x !in inputs.overrides && x !in inputs.upperEnv && x !in inputs.exactEnv ==> ByDefault(inputs, values, block))
  }

  /** Exactly the declared variables have values, each from its source. */
  ghost predicate Sources(inputs: Inputs, values: map<Var, string>) {
    && (forall x :: x in values <==> exists block :: block in inputs.blocks && block.name == x)
    && forall block :: block in inputs.blocks ==> block.name in values && SourceOf(inputs, values, block)
  }

  lemma DeclaredIff(blocks: seq<Block>, x: Var)
    ensures x in Declared(blocks) <==> exists block :: block in blocks && block.name == x
  {
    if x in Declared(blocks) {
      var i :| 0 <= i < |blocks| && blocks[i].name == x;
      assert blocks[i] in blocks;
    }
    if block :| block in blocks && block.name == x {
      var i :| 0 <= i < |blocks| && blocks[i] == block;
      assert blocks[i].name == x;
    }
  }

  lemma {:induction false} DefaultIff(blocks: seq<Block>, block: Block)
    requires DistinctNames(blocks) && block in blocks
    ensures block.name in DefaultsOf(blocks) <==> block.default.Some?
    ensures block.default.Some? ==> DefaultsOf(blocks)[block.name] == block.default.value
    decreases |blocks|
  {
    var n := |blocks| - 1;
    InitLast(blocks);
    if block == blocks[n] {
      DefaultsAreDeclared(blocks[..n]);
      DeclaredTake(blocks, n);
      assert blocks[..n + 1] == blocks;
    } else {
      var i :| 0 <= i < |blocks[..n]| && blocks[..n][i] == block;
      assert blocks[i].name != blocks[n].name;
      FewerDistinct(blocks);
      DefaultIff(blocks[..n], block);
    }
  }

  lemma FewerDistinct(blocks: seq<Block>)
    requires blocks != [] && DistinctNames(blocks)
    ensures DistinctNames(blocks[..|blocks| - 1])
  {
  }

  lemma {:induction false} DefaultHasBlock(blocks: seq<Block>, x: Var)
    requires x in DefaultsOf(blocks)
    ensures exists block :: block in blocks && block.name == x && block.default.Some?
    decreases |blocks|
  {
    var init, last := blocks[..|blocks| - 1], blocks[|blocks| - 1];
    InitLast(blocks);
    if last.name == x && last.default.Some? {
      assert last in blocks;
    } else {
      DefaultHasBlock(init, x);
      var block :| block in init && block.name == x && block.default.Some?;
      assert block in blocks;
    }
  }

  /** A default that is evaluated refers only to variables that can have a value. */
  lemma RefHasSource(inputs: Inputs, x: Var, v: Var)
    requires var p := ProblemOf(inputs);
      x in p.defaults && x !in p.given && p.defaults[x].isString && !Hopeless(p, x) && Ref(v) in p.defaults[x].parts
    ensures HasSource(inputs, v)
  {
    var p := ProblemOf(inputs);
    var i :| 0 <= i < |p.defaults[x].parts| && p.defaults[x].parts[i] == Ref(v);
    assert Uses(p, v, x) && (v, x) in Needs(p);
    ReachEdge(Needs(p), v, x);
    assert v in p.given || v in p.defaults;
    if v !in p.given {
      DefaultHasBlock(inputs.blocks, v);
    }
  }

  lemma HopefulIsString(p: Problem, x: Var)
    requires x in p.defaults && x !in p.given && !Hopeless(p, x)
    ensures p.defaults[x].isString && x in Resolvable(p)
  {
    ReachRefl(Needs(p), x);
    ResolvableIff(p, x);
  }

  lemma DefaultValue(inputs: Inputs, values: map<Var, string>, block: Block)
    requires DistinctNames(inputs.blocks) && IsResolution(inputs, values) && block in inputs.blocks
    requires forall x :: x in DefaultsOf(inputs.blocks) ==> !Hopeless(ProblemOf(inputs), x)
    requires Given(inputs, block.name).None?
    ensures block.name in values && ByDefault(inputs, values, block)
  {
    var p, x := ProblemOf(inputs), block.name;
    DeclaredIff(inputs.blocks, x);
    DefaultIff(inputs.blocks, block);
    if block.default.Some? {
      HopefulIsString(p, x);
      var pieces := EvalReads(p.defaults[x].parts, values);
      forall v | Ref(v) in block.default.value.parts
        ensures HasSource(inputs, v)
      {
        RefHasSource(inputs, x, v);
      }
    }
  }

  lemma ResolutionHasSources(inputs: Inputs, values: map<Var, string>)
    requires DistinctNames(inputs.blocks) && IsResolution(inputs, values)
    requires forall x :: x in DefaultsOf(inputs.blocks) ==> !Hopeless(ProblemOf(inputs), x)
    ensures Sources(inputs, values)
  {
    forall x
      ensures x in values <==> exists block :: block in inputs.blocks && block.name == x
    {
      DeclaredIff(inputs.blocks, x);
    }
    forall block | block in inputs.blocks
      ensures block.name in values && SourceOf(inputs, values, block)
    {
      GivenOrDefault(inputs, values, block);
    }
  }

  lemma GivenOrDefault(inputs: Inputs, values: map<Var, string>, block: Block)
    requires DistinctNames(inputs.blocks) && IsResolution(inputs, values) && block in inputs.blocks
    requires forall x :: x in DefaultsOf(inputs.blocks) ==> !Hopeless(ProblemOf(inputs), x)
    ensures block.name in values && SourceOf(inputs, values, block)
  {
    DeclaredIff(inputs.blocks, block.name);
    if Given(inputs, block.name).None? {
      DefaultValue(inputs, values, block);
    } else {
      assert block.name in ProblemOf(inputs).given;
    }
  }

  /** resolveVariables. */
  method ResolveVariables(inputs: Inputs) returns (values: Option<map<Var, string>>)
    ensures values.Some? <==>
      && DistinctNames(inputs.blocks) && inputs.overrides.Keys <= Declared(inputs.blocks)
      && forall x :: x in DefaultsOf(inputs.blocks) ==> !Hopeless(ProblemOf(inputs), x)
    ensures values.Some? ==> IsResolution(inputs, values.value) && Sources(inputs, values.value)
  {
    var variables, defaults, ok := ReadBlocks(inputs.blocks);
    if !ok {
      return None;
    }
    var resolved;
    variables, resolved := ReadGiven(inputs, variables);
    var declared := AllDeclared(inputs.overrides, variables);
    if !declared {
      return None;
    }
    var given := ResolvedVariables(variables, resolved);
    SameGiven(given, ProblemOf(inputs).given);
    StartIsPartial(inputs, variables, resolved);
    variables, ok := Iterate(Problem(defaults, given), variables, resolved);
    if !ok {
      return None;
    }
    NeitherIsUnresolvable(ProblemOf(inputs));
    ResolutionHasSources(inputs, variables);
    return Some(variables);
  }

  lemma SameGiven(a: map<Var, string>, b: map<Var, string>)
    requires a.Keys == b.Keys && forall x :: x in a ==> a[x] == b[x]
    ensures a == b
  {
  }

  lemma StartIsPartial(inputs: Inputs, variables: map<Var, string>, resolved: set<Var>)
    requires variables.Keys == Declared(inputs.blocks) && resolved == ProblemOf(inputs).given.Keys
    requires forall x :: x in variables ==>
      variables[x] == if x in resolved then ProblemOf(inputs).given[x] else ""
    ensures Partial(ProblemOf(inputs), variables, resolved)
  {
    DefaultsAreDeclared(inputs.blocks);
    forall x | x in resolved
      ensures x in Resolvable(ProblemOf(inputs))
    {
      GivenIsResolvable(ProblemOf(inputs), x);
    }
  }

  lemma NeitherIsUnresolvable(p: Problem)
    ensures forall x :: x !in p.given && x !in p.defaults ==> x !in Resolvable(p)
  {
    forall x | x !in p.given && x !in p.defaults
      ensures x !in Resolvable(p)
    {
      if x in Names(p) {
        ReachRefl(Needs(p), x);
        ResolvableIff(p, x);
      }
    }
  }

  /** Any two resolutions of the same inputs are equal, so the iteration order does not matter. */
  lemma ResolutionIsUnique(inputs: Inputs, a: map<Var, string>, b: map<Var, string>)
    requires IsResolution(inputs, a) && IsResolution(inputs, b)
    requires forall x :: x in DefaultsOf(inputs.blocks) ==> !Hopeless(ProblemOf(inputs), x)
    ensures a == b
  {
    var p := ProblemOf(inputs);
    forall x | x in a
      ensures a[x] == b[x]
    {
      if x in p.given {
        GivenIsResolvable(p, x);
        SolutionIsUnique(p, a, b, x);
      } else if x in p.defaults {
        ResolvableIff(p, x);
        SolutionIsUnique(p, a, b, x);
      }
    }
  }

  /** The documentation gives a variable without a default the empty string; a default that refers to
      such a variable is nevertheless rejected. */
  lemma EmptyVariableCannotBeReferenced(x: Var, y: Var)
    requires x != y
    ensures var inputs := Inputs(
        [Block(x, None), Block(y, Some(Default([Ref(x)], true)))], map[], map[], map[]);
      y in DefaultsOf(inputs.blocks) && Hopeless(ProblemOf(inputs), y)
  {
    var blocks := [Block(x, None), Block(y, Some(Default([Ref(x)], true)))];
    var inputs := Inputs(blocks, map[], map[], map[]);
    assert blocks[..1] == [Block(x, None)] && blocks[..1][..0] == [];
    assert DefaultsOf(blocks[..1]) == map[];
    assert DefaultsOf(blocks) == map[y := Default([Ref(x)], true)];
    var p := ProblemOf(inputs);
    assert p.given == map[];
    assert [Ref(x)][0].Ref? && [Ref(x)][0].v == x;
    assert Uses(p, x, y) && (x, y) in Needs(p);
    ReachEdge(Needs(p), x, y);
  }
}
