/**
 * functionmemory.cpp: the table of declared functions.  `Get` moves the
 * stored definition out of the table: the name stays, but the entry left
 * behind has no name, no body and no parameters.
 */
module FunctionMemories {
  import opened Outcomes
  import opened Ast
  import opened Variables

  function AlreadyDeclared(id: string): string {
    "Function identifier '" + id + "' already declared."
  }

  function NotDeclared(id: string): string {
    "Function identifier '" + id + "' not declared."
  }

  /**
   * The moved-from definition: the return type is a plain enumeration and
   * is copied; the name, the body pointer and the parameter vector are
   * moved and left empty.
   */
  function MovedFrom(f: FuncVariable): (m: FuncVariable)
    ensures m.returnType == f.returnType
    ensures m.blockStmt == Null && m.parameters == [] && m.identifier == ""
  {
    FuncVariable(f.returnType, "", Null, [])
  }

  /** The names whose stored definition still has a body: the calls that can still run one. */
  function Pending(funcs: map<string, FuncVariable>): (p: set<string>)
    ensures forall id :: id in p <==> id in funcs && funcs[id].blockStmt != Null
  {
    set id | id in funcs && funcs[id].blockStmt != Null
  }

  /** Moving a definition out removes its name from the pending names and leaves the others. */
  lemma MoveOutShrinksPending(funcs: map<string, FuncVariable>, id: string)
    requires id in funcs
    ensures Pending(funcs[id := MovedFrom(funcs[id])]) == Pending(funcs) - {id}
  {
  }

  /** A definition moved out twice is the same as moved out once. */
  lemma MoveOutIdempotent(f: FuncVariable)
    ensures MovedFrom(MovedFrom(f)) == MovedFrom(f)
  {
  }

  class FunctionMemory {
    var funcs: map<string, FuncVariable>

    constructor()
      ensures funcs == map[]
    {
      funcs := map[];
    }

    /** `Add`: stores a definition under a new name; an existing name is an error and keeps its entry. */
    method Add(funcVar: FuncVariable) returns (r: Res<()>)
      modifies this
      ensures funcVar.identifier in old(funcs) ==>
        r == Fail(InvalidArgument(AlreadyDeclared(funcVar.identifier))) && funcs == old(funcs)
      ensures funcVar.identifier !in old(funcs) ==>
        r == Ok(()) && funcs == old(funcs)[funcVar.identifier := funcVar]
    {
      if funcVar.identifier in funcs {
        return Fail(InvalidArgument(AlreadyDeclared(funcVar.identifier)));
      }
      funcs := funcs[funcVar.identifier := funcVar];
      r := Ok(());
    }

    /** `Get`: moves the stored definition out; an unknown name is an error. */
    method Get(identifier: string) returns (r: Res<FuncVariable>)
      modifies this
      ensures identifier !in old(funcs) ==>
        r == Fail(InvalidArgument(NotDeclared(identifier))) && funcs == old(funcs)
      ensures identifier in old(funcs) ==>
        r == Ok(old(funcs)[identifier]) && funcs == old(funcs)[identifier := MovedFrom(old(funcs)[identifier])]
      ensures funcs.Keys == old(funcs).Keys
      ensures Pending(funcs) == Pending(old(funcs)) - {identifier}
    {
      if identifier in funcs {
        r := Ok(funcs[identifier]);
        MoveOutShrinksPending(funcs, identifier);
        funcs := funcs[identifier := MovedFrom(funcs[identifier])];
        return;
      }
      return Fail(InvalidArgument(NotDeclared(identifier)));
    }

    /** `Exist`: membership of the name; nothing changes. */
    method Exist(identifier: string) returns (b: bool)
      ensures b <==> identifier in funcs
    {
      return identifier in funcs;
    }
  }

  /** A second `Get` of the same name returns the emptied entry, with no body and no parameters. */
  method GetTwice(memory: FunctionMemory, identifier: string) returns (first: Res<FuncVariable>, second: Res<FuncVariable>)
    requires identifier in memory.funcs
    modifies memory
    ensures first.Ok? && second.Ok?
    ensures second.value.blockStmt == Null && second.value.parameters == []
    ensures second.value.returnType == first.value.returnType
  {
    first := memory.Get(identifier);
    second := memory.Get(identifier);
  }
}
