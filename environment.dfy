/**
 * environment.cpp: one scope, a map from identifier to variable.
 *
 * `Declare` and `Rebind` are the specifications of `Set` and `Assign` on the
 * map held by a scope; the `Environment` class updates its map in place as
 * they say.  The scope stack stores scopes by value (the source copies
 * `Environment` objects in and out of its vector) and uses the same two
 * functions.
 */
module Environments {
  import opened Outcomes
  import opened Variables

  type Scope = map<string, Variable>

  function AlreadyDeclared(id: string): string {
    "Identifier '" + id + "' already declared."
  }

  function NotFound(id: string): string {
    "Identifier '" + id + "' not found."
  }

  /**
   * `Set`: adds a binding under the variable's own name; a name already
   * bound is an error and the scope stays as it was.
   */
  function Declare(s: Scope, v: Variable): (r: Res<Scope>)
    ensures r.Fail? <==> v.identifier in s
    ensures r.Fail? ==> r.abrupt == InvalidArgument(AlreadyDeclared(v.identifier))
    ensures r.Ok? ==> r.value.Keys == s.Keys + {v.identifier} && r.value[v.identifier] == v
    ensures r.Ok? ==> forall id :: id in s ==> r.value[id] == s[id]
  {
    if v.identifier in s then Fail(InvalidArgument(AlreadyDeclared(v.identifier)))
    else Ok(s[v.identifier := v])
  }

  /**
   * `Assign`: replaces the value of an existing binding and nothing else;
   * an unbound name is an error.
   */
  function Rebind(s: Scope, id: string, value: Any): (r: Res<Scope>)
    ensures r.Fail? <==> id !in s
    ensures r.Fail? ==> r.abrupt == InvalidArgument(NotFound(id))
    ensures r.Ok? ==> r.value.Keys == s.Keys
    ensures r.Ok? ==> r.value[id].value == value
    ensures r.Ok? ==> r.value[id].dtType == s[id].dtType && r.value[id].identifier == s[id].identifier
    ensures r.Ok? ==> forall other :: other in s && other != id ==> r.value[other] == s[other]
  {
    if id !in s then Fail(InvalidArgument(NotFound(id)))
    else Ok(s[id := s[id].(value := value)])
  }

  /** A declared variable is found under its name, exactly as declared. */
  lemma DeclareThenFind(s: Scope, v: Variable)
    requires v.identifier !in s
    ensures Declare(s, v).Ok?
    ensures v.identifier in Declare(s, v).value && Declare(s, v).value[v.identifier] == v
  {
  }

  /** Declaring the same name twice fails the second time, keeping the first binding. */
  lemma DeclareTwiceFails(s: Scope, v: Variable, w: Variable)
    requires Declare(s, v).Ok? && w.identifier == v.identifier
    ensures Declare(Declare(s, v).value, w) == Fail(InvalidArgument(AlreadyDeclared(v.identifier)))
  {
  }

  /** Rebinding the same name twice keeps only the second value. */
  lemma RebindTwice(s: Scope, id: string, a: Any, b: Any)
    requires id in s
    ensures Rebind(s, id, a).Ok? && Rebind(Rebind(s, id, a).value, id, b) == Rebind(s, id, b)
  {
    var once := s[id := s[id].(value := a)];
    assert once[id].(value := b) == s[id].(value := b);
    assert once[id := once[id].(value := b)] == s[id := s[id].(value := b)];
  }

  class Environment {
    var variables: Scope

    constructor()
      ensures variables == map[]
    {
      variables := map[];
    }

    /** `Get`: the binding, if there is one; nothing changes. */
    method Get(identifier: string) returns (r: Option<Variable>)
      ensures r.Some? <==> identifier in variables
      ensures r.Some? ==> r.value == variables[identifier]
    {
      if identifier in variables {
        return Some(variables[identifier]);
      }
      return None;
    }

    /** `Set`: adds the variable, or reports the duplicate and changes nothing. */
    method Set(variable: Variable) returns (r: Res<()>)
      modifies this
      ensures var d := Declare(old(variables), variable);
        (d.Ok? ==> r == Ok(()) && variables == d.value) &&
        (d.Fail? ==> r == Fail(d.abrupt) && variables == old(variables))
    {
      if variable.identifier in variables {
        return Fail(InvalidArgument(AlreadyDeclared(variable.identifier)));
      }
      variables := variables[variable.identifier := variable];
      r := Ok(());
    }

    /** `Assign`: replaces the stored value, or reports the unknown name and changes nothing. */
    method Assign(identifier: string, value: Any) returns (r: Res<()>)
      modifies this
      ensures var b := Rebind(old(variables), identifier, value);
        (b.Ok? ==> r == Ok(()) && variables == b.value) &&
        (b.Fail? ==> r == Fail(b.abrupt) && variables == old(variables))
    {
      if identifier !in variables {
        return Fail(InvalidArgument(NotFound(identifier)));
      }
      var v := variables[identifier];
      v := v.(value := value);
      variables := variables[identifier := v];
      r := Ok(());
    }
  }

  // ----- block scopes -----

  /**
   * The scope a block pushes: the parameters declared one after the other
   * in a fresh scope; a repeated name throws as `Set` does.
   */
  function Seed(params: seq<Variable>): (r: Res<Scope>)
    decreases |params|
  {
    if params == [] then Ok(map[])
    else
      var s :- Seed(params[..|params| - 1]);
      Declare(s, params[|params| - 1])
  }

  /** Declaring one more parameter extends the scope seeded with the ones before it. */
  lemma SeedStep(params: seq<Variable>, n: nat)
    requires n < |params|
    ensures Seed(params[..n + 1]) ==
      match Seed(params[..n])
      case Fail(a) => Fail(a)
      case Ok(s) => Declare(s, params[n])
  {
    assert params[..n + 1][..n] == params[..n];
  }

  /** Once a prefix of the parameters repeats a name, seeding all of them fails the same way. */
  lemma {:induction false} SeedPrefixFails(params: seq<Variable>, n: nat)
    requires n <= |params| && Seed(params[..n]).Fail?
    ensures Seed(params) == Seed(params[..n])
    decreases |params| - n
  {
    if n < |params| {
      SeedStep(params, n);
      SeedPrefixFails(params, n + 1);
    } else {
      assert params[..n] == params;
    }
  }

  /** No two parameters share a name. */
  predicate DistinctNames(params: seq<Variable>)
  {
    forall j, k :: 0 <= j < k < |params| ==> params[j].identifier != params[k].identifier
  }

  /**
   * A seeded scope binds each parameter's name to that parameter and holds
   * nothing else.
   */
  lemma {:induction false} SeedBindsParameters(params: seq<Variable>)
    requires Seed(params).Ok?
    ensures Seed(params).value.Keys == set p | p in params :: p.identifier
    ensures forall k :: 0 <= k < |params| ==> Seed(params).value[params[k].identifier] == params[k]
    decreases |params|
  {
    if params != [] {
      var n := |params| - 1;
      var front, v := params[..n], params[n];
      assert params == front + [v];
      SeedBindsParameters(front);
      assert (set p | p in params :: p.identifier) == (set p | p in front :: p.identifier) + {v.identifier};
      forall k | 0 <= k < n
        ensures Seed(params).value[params[k].identifier] == params[k]
      {
        assert params[k] == front[k] && front[k] in front;
      }
    }
  }

  /**
   * Seeding succeeds exactly when the parameter names are distinct; when
   * it fails, the error names one of the parameters.
   */
  lemma {:induction false} SeedFailsOnRepeat(params: seq<Variable>)
    ensures Seed(params).Ok? <==> DistinctNames(params)
    ensures Seed(params).Fail? ==>
      exists k :: 0 <= k < |params| && Seed(params).abrupt == InvalidArgument(AlreadyDeclared(params[k].identifier))
    decreases |params|
  {
    if params != [] {
      var n := |params| - 1;
      var front, v := params[..n], params[n];
      assert params == front + [v];
      SeedFailsOnRepeat(front);
      if Seed(front).Fail? {
        var j, k :| 0 <= j < k < |front| && front[j].identifier == front[k].identifier;
        assert params[j] == front[j] && params[k] == front[k];
        var i :| 0 <= i < |front| && Seed(front).abrupt == InvalidArgument(AlreadyDeclared(front[i].identifier));
        assert params[i] == front[i];
      } else {
        SeedBindsParameters(front);
        if v.identifier in Seed(front).value {
          var p :| p in front && p.identifier == v.identifier;
          var j :| 0 <= j < |front| && front[j] == p;
          assert params[j].identifier == params[n].identifier;
        } else {
          forall j, k | 0 <= j < k < |params|
            ensures params[j].identifier != params[k].identifier
          {
            if k < n {
              assert params[j] == front[j] && params[k] == front[k];
            } else {
              assert front[j] in front;
            }
          }
        }
      }
    }
  }

  /**
   * The scope a block starts with, built as the parser and the
   * interpreter both build it: a fresh environment in which each
   * parameter is `Set` in turn.
   */
  method BlockScope(params: seq<Variable>) returns (r: Res<Scope>)
    ensures r == Seed(params)
  {
    var blockEnv := new Environment();
    for n := 0 to |params|
      invariant Seed(params[..n]) == Ok(blockEnv.variables)
    {
      SeedStep(params, n);
      var declared := blockEnv.Set(params[n]);
      if declared.Fail? {
        SeedPrefixFails(params, n + 1);
        return Fail(declared.abrupt);
      }
    }
    assert params[..|params|] == params;
    return Ok(blockEnv.variables);
  }
}
