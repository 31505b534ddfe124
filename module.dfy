/**
 * ModuleManager: the registry of embedded native modules that the script
 * system hands to the interpreter's import table before it starts.
 */
module Modules {
  import opened Wrappers
  import opened Errors

  /**
   * A native module initializer (a `PyObject *(*)()`), identified by its
   * address; 0 stands for the null pointer.
   */
  type Initializer = nat

  const NullInitializer: Initializer := 0

  /** ModuleDefinition: a module's id and its initializer. */
  datatype Definition = Definition(id: string, initializer: Initializer)

  /** `entries` hands over every registered (id, initializer) pair exactly once. */
  ghost predicate ListsEachOnce(entries: seq<Definition>, definitions: map<string, Initializer>)
  {
    && (forall i :: 0 <= i < |entries| ==>
          entries[i].id in definitions && definitions[entries[i].id] == entries[i].initializer)
    && (forall i, j :: 0 <= i < j < |entries| ==> entries[i].id != entries[j].id)
    && (forall id :: id in definitions ==> exists i :: 0 <= i < |entries| && entries[i].id == id)
  }

  class ModuleManager {
    var definitions: map<string, Initializer>

    constructor ()
      ensures definitions == map[]
    {
      definitions := map[];
    }

    predicate HasModule(id: string)
      reads this
    {
      id in definitions
    }

    /**
     * add_module(id, initializer): the id must be non-empty and the
     * initializer non-null (both asserted by the caller's contract); a taken
     * id fails with DuplicateModuleError and leaves the registry unchanged.
     */
    method AddModule(id: string, initializer: Initializer) returns (r: Outcome<Error>)
      requires id != "" && initializer != NullInitializer
      modifies this
      ensures r.Pass? <==> !old(HasModule(id))
      ensures r.Pass? ==> definitions == old(definitions)[id := initializer]
      ensures r.Fail? ==> definitions == old(definitions) && r.error == DuplicateModuleError(id)
      ensures r.Fail? ==> r.error.Message() == "duplicate module: " + id
    {
      if HasModule(id) {
        return Fail(DuplicateModuleError(id));
      }
      definitions := definitions[id := initializer];
      r := Pass;
    }

    /** add_module(definition): the same as AddModule on the definition's fields. */
    method AddDefinition(definition: Definition) returns (r: Outcome<Error>)
      requires definition.id != "" && definition.initializer != NullInitializer
      modifies this
      ensures r.Pass? <==> !old(HasModule(definition.id))
      ensures r.Pass? ==> definitions == old(definitions)[definition.id := definition.initializer]
      ensures r.Fail? ==> definitions == old(definitions) && r.error == DuplicateModuleError(definition.id)
    {
      r := AddModule(definition.id, definition.initializer);
    }

    /**
     * remove_module: drops exactly that id, or fails with NoSuchModuleError
     * and leaves the registry unchanged.
     */
    method RemoveModule(id: string) returns (r: Outcome<Error>)
      modifies this
      ensures r.Pass? <==> old(HasModule(id))
      ensures r.Pass? ==> definitions == old(definitions) - {id}
      ensures r.Fail? ==> definitions == old(definitions) && r.error == NoSuchModuleError(id)
      ensures r.Fail? ==> r.error.Message() == "no such module: " + id
    {
      if id !in definitions {
        return Fail(NoSuchModuleError(id));
      }
      definitions := definitions - {id};
      r := Pass;
    }

    /**
     * import_modules: the entries appended to the interpreter's import table,
     * in the map's (unspecified) iteration order. The registry is only read.
     */
    method ImportModules() returns (entries: seq<Definition>)
      ensures ListsEachOnce(entries, definitions)
      ensures |entries| == |definitions|
    {
      entries := [];
      var remaining := definitions.Keys;
      while remaining != {}
        invariant remaining <= definitions.Keys
        invariant forall i :: 0 <= i < |entries| ==>
          entries[i].id in definitions && entries[i].id !in remaining &&
          definitions[entries[i].id] == entries[i].initializer
        invariant forall i, j :: 0 <= i < j < |entries| ==> entries[i].id != entries[j].id
        invariant forall id :: id in definitions && id !in remaining ==>
          exists i :: 0 <= i < |entries| && entries[i].id == id
        invariant |entries| + |remaining| == |definitions|
        decreases |remaining|
      {
        var id :| id in remaining;
        ghost var before := entries;
        entries := entries + [Definition(id, definitions[id])];
        remaining := remaining - {id};
        forall handed | handed in definitions && handed !in remaining
          ensures exists i :: 0 <= i < |entries| && entries[i].id == handed
        {
          if handed == id {
            assert entries[|before|].id == handed;
          } else {
            var i :| 0 <= i < |before| && before[i].id == handed;
            assert entries[i].id == handed;
          }
        }
      }
    }

    /**
     * The move assignment operator: swaps the two registries, so `other`
     * takes over this manager's former modules; assigning a manager to itself
     * changes nothing.
     */
    method MoveAssign(other: ModuleManager)
      modifies this, other
      ensures other != this ==> definitions == old(other.definitions) && other.definitions == old(definitions)
      ensures other == this ==> definitions == old(definitions)
    {
      if other != this {
        definitions, other.definitions := other.definitions, definitions;
      }
    }
  }
}
