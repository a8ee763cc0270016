/**
 * envstack.cpp: the stack of scopes, a vector of environments with the
 * index of the top (`last_index`) and a lookup cursor (`current`) that the
 * lookups move downwards and `Reset` puts back on the top.
 */
module EnvStacks {
  import opened Outcomes
  import opened Variables
  import opened Environments

  /**
   * The innermost scope at or below `c` that binds `id`: the scope
   * `Get(identifier)` finds when it starts from cursor `c`.
   */
  function Innermost(envs: seq<Scope>, c: int, id: string): (r: Option<nat>)
    requires c < |envs|
    ensures r.Some? ==> r.value <= c && id in envs[r.value]
    ensures r.Some? ==> forall j :: r.value < j <= c ==> id !in envs[j]
    ensures r.None? ==> forall j :: 0 <= j <= c ==> id !in envs[j]
    decreases c + 1
  {
    if c < 0 then None
    else if id in envs[c] then Some(c)
    else Innermost(envs, c - 1, id)
  }

  function VariableNotFound(id: string): string {
    "Variable Identifier '" + id + "' not found."
  }

  /** What `GetRef` throws: a pointer, which no handler of the front end catches. */
  const NoEnvironment: Abrupt := Crash("pointer to std::invalid_argument thrown: No Environment Found.")

  /** A binding in the top scope shadows every binding of the same name below it. */
  lemma TopScopeShadows(envs: seq<Scope>, id: string)
    requires |envs| > 0 && id in envs[|envs| - 1]
    ensures Innermost(envs, |envs| - 1, id) == Some(|envs| - 1)
  {
  }

  /** Below a pushed scope the search is the same as before the push. */
  lemma {:induction false} InnermostBelowPush(envs: seq<Scope>, s: Scope, c: int, id: string)
    requires -1 <= c < |envs|
    ensures Innermost(envs + [s], c, id) == Innermost(envs, c, id)
    decreases c + 1
  {
    if c >= 0 {
      assert (envs + [s])[c] == envs[c];
      InnermostBelowPush(envs, s, c - 1, id);
    }
  }

  /** A pushed scope is searched first; when it lacks the name the search goes on below it. */
  lemma InnermostAfterPush(envs: seq<Scope>, s: Scope, id: string)
    ensures Innermost(envs + [s], |envs|, id) == if id in s then Some(|envs|) else Innermost(envs, |envs| - 1, id)
  {
    assert (envs + [s])[|envs|] == s;
    InnermostBelowPush(envs, s, |envs| - 1, id);
  }

  /** The lookup succeeds exactly when some scope at or below the cursor binds the name. */
  lemma {:induction false} InnermostFindsAny(envs: seq<Scope>, c: int, id: string)
    requires c < |envs|
    ensures Innermost(envs, c, id).Some? <==> exists j :: 0 <= j <= c && id in envs[j]
    decreases c + 1
  {
    if c >= 0 && id !in envs[c] {
      InnermostFindsAny(envs, c - 1, id);
    }
  }

  class EnvStack {
    var envs: seq<Scope>
    var lastIndex: int
    var current: int

    /** `last_index` names the top scope, and the cursor is on a scope or just below the bottom. */
    predicate Valid()
      reads this
    {
      lastIndex == |envs| - 1 && -1 <= current <= lastIndex
    }

    constructor()
      ensures Valid() && envs == [] && current == -1
    {
      envs := [];
      lastIndex := -1;
      current := -1;
    }

    /** `Get()`: a copy of the scope under the cursor, which then moves one scope down. */
    method GetScope() returns (r: Option<Scope>)
      requires Valid()
      modifies this
      ensures Valid() && envs == old(envs)
      ensures old(current) >= 0 ==> r == Some(envs[old(current)]) && current == old(current) - 1
      ensures old(current) < 0 ==> r == None && current == old(current)
    {
      if |envs| > 0 && current >= 0 {
        r := Some(envs[current]);
        current := current - 1;
        return;
      }
      return None;
    }

    /** `GetRef`: the position of the scope under the cursor, which then moves one scope down. */
    method GetRef() returns (r: Res<nat>)
      requires Valid()
      modifies this
      ensures Valid() && envs == old(envs)
      ensures old(current) >= 0 ==> r == Ok(old(current)) && current == old(current) - 1
      ensures old(current) < 0 ==> r == Fail(NoEnvironment) && current == old(current)
    {
      if |envs| > 0 && current >= 0 {
        r := Ok(current);
        current := current - 1;
        return;
      }
      return Fail(NoEnvironment);
    }

    /**
     * `Get(identifier)`: walks down from the cursor to the innermost scope
     * binding the name and returns the binding with a copy of that scope,
     * putting the cursor back on the top.  When no scope binds it the cursor
     * is left below the bottom.
     */
    method GetVariable(identifier: string) returns (r: Res<(Variable, Scope)>)
      requires Valid()
      modifies this
      ensures Valid() && envs == old(envs)
      ensures var f := Innermost(envs, old(current), identifier);
        (f.Some? ==> r == Ok((envs[f.value][identifier], envs[f.value])) && current == lastIndex) &&
        (f.None? ==> r == Fail(InvalidArgument(VariableNotFound(identifier))) && current == -1)
      decreases current + 1
    {
      var scope := GetScope();
      if scope.None? {
        return Fail(InvalidArgument(VariableNotFound(identifier)));
      }
      var env := scope.value;
      if identifier !in env {
        r := GetVariable(identifier);
        return;
      }
      Reset();
      r := Ok((env[identifier], env));
    }

    /** `Push`: the scope becomes the new top and the cursor goes to it. */
    method Push(env: Scope)
      requires Valid()
      modifies this
      ensures Valid()
      ensures envs == old(envs) + [env] && current == lastIndex
    {
      envs := envs + [env];
      lastIndex := lastIndex + 1;
      Reset();
    }

    /** `Pop`: removes and returns the top scope; an empty stack is left as it is. */
    method Pop() returns (r: Option<Scope>)
      requires Valid()
      modifies this
      ensures Valid()
      ensures old(envs) == [] ==> r == None && envs == [] && current == old(current)
      ensures old(envs) != [] ==>
        r == Some(old(envs)[|old(envs)| - 1]) && envs == old(envs)[..|old(envs)| - 1] && current == lastIndex
    {
      if envs == [] {
        return None;
      }
      var deleted := envs[lastIndex];
      lastIndex := lastIndex - 1;
      envs := envs[..|envs| - 1];
      Reset();
      r := Some(deleted);
    }

    /**
     * `Add`: declares the variable in the scope under the cursor, then
     * resets the cursor.  A duplicate leaves the scope as it was and its
     * message is printed, not propagated (the result carries the printed
     * line).  With the cursor below the bottom, `GetRef` throws a pointer
     * that the handler does not catch.
     */
    method Add(variable: Variable) returns (r: Res<Option<string>>)
      requires Valid()
      modifies this
      ensures Valid()
      ensures old(current) < 0 ==> r == Fail(NoEnvironment) && envs == old(envs) && current == old(current)
      ensures old(current) >= 0 ==>
        var d := Declare(old(envs)[old(current)], variable);
        current == lastIndex &&
        (d.Ok? ==> r == Ok(None) && envs == old(envs)[old(current) := d.value]) &&
        (d.Fail? ==> r == Ok(Some(d.abrupt.msg)) && envs == old(envs))
    {
      var ref := GetRef();
      if ref.Fail? {
        return Fail(ref.abrupt);
      }
      var i := ref.value;
      var d := Declare(envs[i], variable);
      if d.Ok? {
        envs := envs[i := d.value];
        r := Ok(None);
      } else {
        r := Ok(Some(d.abrupt.msg));
      }
      Reset();
    }

    /**
     * `Assign`: looks the name up and rebinds it in the returned copy of
     * the scope, which is then dropped, so the stack never changes (the
     * source stores the found variable itself there, not `value`; with the
     * copy dropped, what is stored makes no difference).  Only the failed
     * lookup is visible.
     */
    method Assign(identifier: string, value: Any) returns (r: Res<()>)
      requires Valid()
      modifies this
      ensures Valid() && envs == old(envs)
      ensures var f := Innermost(envs, old(current), identifier);
        (f.Some? ==> r == Ok(()) && current == lastIndex) &&
        (f.None? ==> r == Fail(InvalidArgument(VariableNotFound(identifier))) && current == -1)
    {
      var found := GetVariable(identifier);
      if found.Fail? {
        return Fail(found.abrupt);
      }
      var (_, copy) := found.value;
      var updated := Rebind(copy, identifier, value);
      assert updated.Ok?;
      r := Ok(());
    }

    /** `Reset`: the cursor goes back to the top scope. */
    method Reset()
      requires lastIndex == |envs| - 1
      modifies this
      ensures envs == old(envs) && lastIndex == old(lastIndex) && current == lastIndex
      ensures Valid()
    {
      current := lastIndex;
    }
  }

  /** Pushing a scope and popping it again gives back that scope and the stack as it was. */
  method PushThenPop(stack: EnvStack, env: Scope) returns (popped: Option<Scope>)
    requires stack.Valid()
    modifies stack
    ensures stack.Valid() && popped == Some(env) && stack.envs == old(stack.envs)
    ensures stack.current == stack.lastIndex
  {
    stack.Push(env);
    popped := stack.Pop();
    assert old(stack.envs) + [env] != [];
  }

  /** After a successful `Add` with the cursor on the top, a lookup finds the new binding. */
  method AddThenGet(stack: EnvStack, variable: Variable) returns (r: Res<(Variable, Scope)>)
    requires stack.Valid() && stack.current == stack.lastIndex >= 0
    requires variable.identifier !in stack.envs[stack.lastIndex]
    modifies stack
    ensures r.Ok? && r.value.0 == variable
  {
    var added := stack.Add(variable);
    TopScopeShadows(stack.envs, variable.identifier);
    r := stack.GetVariable(variable.identifier);
  }
}
