/**
 * `getStorageTraversalSpec`: the selection specs that walk from the root folder
 * through nested folders and from each datacenter into its datastore folder.
 * The specs refer to each other by name, and the folder step refers to itself,
 * so the graph they describe is read as a registry of named steps.
 */
module Traversal {
  import opened Vim

  /** One named traversal step with the names of the steps it continues with. */
  datatype Step = Step(kind: string, path: string, skip: bool, next: seq<string>)

  /** The names of a select set, in order. */
  function Names(specs: seq<SelectionSpec>): (names: seq<string>)
    ensures |names| == |specs| && forall i :: 0 <= i < |specs| ==> names[i] == specs[i].name
  {
    if specs == [] then [] else [specs[0].name] + Names(specs[1..])
  }

  /** Every traversal step defined anywhere in `specs`, keyed by its name. */
  function Registry(specs: seq<SelectionSpec>): map<string, Step>
    decreases specs
  {
    if specs == [] then map[] else StepsOf(specs[0]) + Registry(specs[1..])
  }

  function StepsOf(spec: SelectionSpec): map<string, Step>
    decreases spec
  {
    match spec
    case Selection(_) => map[]
    case Traversal(name, kind, path, skip, selectSet) =>
      map[name := Step(kind, path, skip, Names(selectSet))] + Registry(selectSet)
  }

  /** No step continues with a name the registry does not define. */
  predicate Closed(registry: map<string, Step>)
  {
    forall name, next :: name in registry && next in registry[name].next ==> next in registry
  }

  function StorageTraversalSpec(): seq<SelectionSpec>
  {
    var ssFolders := Selection("visitFolders");
    var datacenterSpec := Traversal("dcTodf", "Datacenter", "datastoreFolder", false, [ssFolders]);
    var visitFolder := Traversal("visitFolders", "Folder", "childEntity", false, [datacenterSpec, ssFolders]);
    [visitFolder]
  }

  /** The registry the storage traversal defines: folders recurse into themselves and into datacenters, which lead back to folders. */
  const StorageSteps: map<string, Step> := map[
    "visitFolders" := Step("Folder", "childEntity", false, ["dcTodf", "visitFolders"]),
    "dcTodf" := Step("Datacenter", "datastoreFolder", false, ["visitFolders"])
  ]

  /**
   * The storage traversal has one top-level spec, `visitFolders`; the steps it
   * defines are exactly `visitFolders` and `dcTodf`, with the fields above, and
   * every name in a select set is one of them.
   */
  lemma StorageTraversalShape()
    ensures |StorageTraversalSpec()| == 1 && StorageTraversalSpec()[0].name == "visitFolders"
    ensures Registry(StorageTraversalSpec()) == StorageSteps
    ensures Closed(Registry(StorageTraversalSpec()))
  {
    var ssFolders := Selection("visitFolders");
    var datacenterSpec := Traversal("dcTodf", "Datacenter", "datastoreFolder", false, [ssFolders]);
    var visitFolder := Traversal("visitFolders", "Folder", "childEntity", false, [datacenterSpec, ssFolders]);
    assert [ssFolders][1..] == [] && [datacenterSpec, ssFolders][1..] == [ssFolders] && [visitFolder][1..] == [];
    assert Registry([ssFolders]) == map[];
    assert Names([ssFolders]) == ["visitFolders"];
    assert StepsOf(datacenterSpec) == map["dcTodf" := StorageSteps["dcTodf"]];
    assert Registry([datacenterSpec, ssFolders]) == StepsOf(datacenterSpec);
    assert Names([datacenterSpec, ssFolders]) == ["dcTodf", "visitFolders"];
    assert StepsOf(visitFolder) == map["visitFolders" := StorageSteps["visitFolders"]] + StepsOf(datacenterSpec);
    assert StorageSteps.Keys == {"visitFolders", "dcTodf"};
  }
}
