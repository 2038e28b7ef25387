/**
 * `clearModule`: removing a module from Node's module cache so that the next
 * `require` loads it afresh. The module is unlinked from its parent's
 * `children` array by a backwards `splice` loop, then deleted from the cache.
 * Resolving the module id to a file path is a parameter.
 */
module ClearModule {
  import opened JsValues
  import opened Streams

  /** A loaded module: its id (the resolved file path), its parent and its `children` array. */
  class NodeModule {
    const id: string
    var parent: NodeModule?
    var children: seq<NodeModule>

    constructor (id: string, parent: NodeModule?)
      ensures this.id == id && this.parent == parent && children == []
    {
      this.id := id;
      this.parent := parent;
      children := [];
    }
  }

  /** `require.cache`: the loaded modules by file path. */
  class ModuleCache {
    var entries: map<string, NodeModule>

    constructor ()
      ensures entries == map[]
    {
      entries := map[];
    }

    /** The parent of the entry for `filePath`, when there is such an entry and it has a parent. */
    function ParentOf(filePath: string): (p: NodeModule?)
      reads this, entries.Values
      ensures p != null ==> filePath in entries && p == entries[filePath].parent
    {
      if filePath in entries then entries[filePath].parent else null
    }
  }

  /** The `children` entries whose id is not `filePath`, in their order. */
  function WithoutId(children: seq<NodeModule>, filePath: string): (r: seq<NodeModule>)
    ensures |r| <= |children|
    ensures forall i :: 0 <= i < |r| ==> r[i].id != filePath && r[i] in children
    ensures forall i :: 0 <= i < |children| && children[i].id != filePath ==> children[i] in r
  {
    var r := Filter(children, (c: NodeModule) => c.id != filePath);
    forall i | 0 <= i < |r| ensures r[i] in children {
      FilterMembership(children, (c: NodeModule) => c.id != filePath, r[i]);
    }
    forall i | 0 <= i < |children| && children[i].id != filePath ensures children[i] in r {
      FilterMembership(children, (c: NodeModule) => c.id != filePath, children[i]);
    }
    r
  }

  /** Removal works child by child, so the children that stay keep their relative order. */
  lemma WithoutIdInOrder(a: seq<NodeModule>, b: seq<NodeModule>, filePath: string)
    ensures WithoutId(a + b, filePath) == WithoutId(a, filePath) + WithoutId(b, filePath)
  {
    FilterAppend(a, b, (c: NodeModule) => c.id != filePath);
  }

  /** Children with other ids are all kept. */
  lemma WithoutAbsentId(children: seq<NodeModule>, filePath: string)
    requires forall i :: 0 <= i < |children| ==> children[i].id != filePath
    ensures WithoutId(children, filePath) == children
  {
    FilterAll(children, (c: NodeModule) => c.id != filePath);
  }

  /** `typeof v`. */
  function TypeOfName(v: Value): string {
    match v
    case Undefined => "undefined"
    case Bool(_) => "boolean"
    case Num(_) => "number"
    case Str(_) => "string"
    case Func(_) => "function"
    case _ => "object"
  }

  /** The `TypeError` thrown for a module id that is not a string. */
  function NotAStringError(moduleId: Value): Value {
    Err(ErrorOf("TypeError", "Expected a `string`, got `" + TypeOfName(moduleId) + "`"))
  }

  /** One step of the backwards loop at index `i`: the child there is the original one, and splicing it out when it matches extends the removal to index `i`. */
  lemma RemovalStep(original: seq<NodeModule>, i: nat, children: seq<NodeModule>, filePath: string)
    requires i < |original| && children == original[..i + 1] + WithoutId(original[i + 1..], filePath)
    ensures i < |children| && children[i] == original[i]
    ensures original[i].id == filePath ==> children[..i] + children[i + 1..] == original[..i] + WithoutId(original[i..], filePath)
    ensures original[i].id != filePath ==> children == original[..i] + WithoutId(original[i..], filePath)
  {
    var rest := original[i + 1..];
    assert original[i..] == [original[i]] + rest;
    WithoutIdInOrder([original[i]], rest, filePath);
    assert original[..i + 1] == original[..i] + [original[i]];
    if original[i].id == filePath {
      assert WithoutId([original[i]], filePath) == [];
      assert children[..i] == original[..i];
      assert children[i + 1..] == WithoutId(rest, filePath);
    } else {
      assert WithoutId([original[i]], filePath) == [original[i]];
    }
  }

  /**
   * The backwards loop of `clearModule`: walking `children` from its last index down to 0,
   * every child whose id is `filePath` is spliced out.
   */
  method RemoveChildren(parent: NodeModule, filePath: string)
    modifies parent
    ensures parent.children == WithoutId(old(parent.children), filePath)
    ensures parent.parent == old(parent.parent)
  {
    ghost var original := parent.children;
    var i := |parent.children| - 1;
    assert original[i + 1..] == [];
    while i >= 0
      invariant -1 <= i < |original|
      invariant parent.children == original[..i + 1] + WithoutId(original[i + 1..], filePath)
      invariant parent.parent == old(parent.parent)
      decreases i + 1
    {
      RemovalStep(original, i, parent.children, filePath);
      if parent.children[i].id == filePath {
        parent.children := parent.children[..i] + parent.children[i + 1..];
      }
      i := i - 1;
    }
    assert original[0..] == original;
  }

  /**
   * `clearModule(moduleId)`: a `TypeError` for a non-string id; nothing when the id does not resolve;
   * otherwise the entry is unlinked from its parent's children and deleted from the cache.
   */
  method ClearModule(moduleId: Value, resolve: string -> Option<string>, cache: ModuleCache) returns (r: Completion<()>)
    modifies cache, if moduleId.Str? && resolve(moduleId.s).Some? && cache.ParentOf(resolve(moduleId.s).value) != null
                    then {cache.ParentOf(resolve(moduleId.s).value)} else {}
    ensures !moduleId.Str? ==> r == Threw(NotAStringError(moduleId)) && cache.entries == old(cache.entries)
    ensures moduleId.Str? ==> r == Returned(())
    ensures moduleId.Str? && (resolve(moduleId.s).None? || resolve(moduleId.s).value == "")
            ==> cache.entries == old(cache.entries)
    ensures moduleId.Str? && resolve(moduleId.s).Some? && resolve(moduleId.s).value != ""
            ==> cache.entries == old(cache.entries) - {resolve(moduleId.s).value}
    ensures moduleId.Str? && resolve(moduleId.s).Some? && resolve(moduleId.s).value != ""
            && old(cache.ParentOf(resolve(moduleId.s).value)) != null
            ==> var p := old(cache.ParentOf(resolve(moduleId.s).value));
                p.children == WithoutId(old(p.children), resolve(moduleId.s).value)
  {
    if !moduleId.Str? {
      return Threw(NotAStringError(moduleId));
    }
    var resolved := resolve(moduleId.s);
    if resolved.None? || resolved.value == "" {
      return Returned(());
    }
    var filePath := resolved.value;
    if filePath in cache.entries {
      var entry := cache.entries[filePath];
      if entry.parent != null {
        RemoveChildren(entry.parent, filePath);
      }
    }
    cache.entries := cache.entries - {filePath};
    return Returned(());
  }
}
