/**
 * The property filters the sample submits: the storage-pod name query of
 * `getStoragePodByName` and the single-object query of `getObjectProperties`.
 */
module Filters {
  import opened Wrappers
  import opened Vim
  import opened Traversal

  /**
   * The property collector's reading of a filter's property specs: property
   * `path` of objects of type `kind` is fetched when some spec for that type
   * asks for all properties or lists the path.
   */
  predicate Fetches(f: PropertyFilterSpec, kind: string, path: string)
  {
    exists i :: 0 <= i < |f.propSet| && f.propSet[i].kind == kind && (f.propSet[i].all || path in f.propSet[i].pathSet)
  }

  /** The filter of `getStoragePodByName`, starting at the root folder `root`. */
  function PodFilter(root: ObjectRef): PropertyFilterSpec
  {
    var propertySpec := PropertySpec("StoragePod", false, ["name"]);
    var objectSpec := ObjectSpec(root, true, StorageTraversalSpec());
    PropertyFilterSpec([propertySpec], [objectSpec])
  }

  /**
   * The pod filter fetches only the `name` of storage pods, through one
   * property spec with `all` false and path set exactly `["name"]`, starting at
   * `root` without reporting it and following the storage traversal.
   */
  lemma PodFilterShape(root: ObjectRef)
    ensures forall kind, path :: Fetches(PodFilter(root), kind, path) <==> kind == "StoragePod" && path == "name"
    ensures PodFilter(root).propSet == [PropertySpec("StoragePod", false, ["name"])]
    ensures PodFilter(root).objectSet == [ObjectSpec(root, true, StorageTraversalSpec())]
  {
    var f := PodFilter(root);
    forall kind, path ensures Fetches(f, kind, path) <==> kind == "StoragePod" && path == "name" {
      if kind == "StoragePod" && path == "name" {
        assert f.propSet[0].kind == kind && path in f.propSet[0].pathSet;
      }
    }
  }

  /**
   * The filter of `getObjectProperties` for `mobj` and the property names
   * `properties` (null is `None`), with a null list read as an empty one.
   */
  function ObjectPropertiesFilter(mobj: ObjectRef, properties: Option<seq<string>>): (f: PropertyFilterSpec)
    ensures |f.propSet| == 1 && f.propSet[0].kind == mobj.kind
    ensures f.propSet[0].all <==> properties.None? || properties.value == []
    ensures f.propSet[0].pathSet == (if properties.Some? then properties.value else [])
    ensures f.objectSet == [ObjectSpec(mobj, false, [])]
  {
    var paths := if properties.Some? then properties.value else [];
    PropertyFilterSpec([PropertySpec(mobj.kind, paths == [], paths)], [ObjectSpec(mobj, false, [])])
  }

  /** The object filter fetches, of `mobj`'s type only, every property when the list is null or empty and otherwise exactly the listed ones. */
  lemma ObjectPropertiesFetches(mobj: ObjectRef, properties: Option<seq<string>>, kind: string, path: string)
    ensures Fetches(ObjectPropertiesFilter(mobj, properties), kind, path)
        <==> kind == mobj.kind && (properties.None? || properties.value == [] || path in properties.value)
  {
    var f := ObjectPropertiesFilter(mobj, properties);
    if kind == mobj.kind && (properties.None? || properties.value == [] || path in properties.value) {
      assert f.propSet[0].kind == kind;
    }
  }

  /**
   * The filter exactly as lines 346-357 build it: `all` is set for a null list,
   * but `Arrays.asList(properties)` then throws on that null list.
   */
  function ObjectPropertiesFilterAsWritten(mobj: ObjectRef, properties: Option<seq<string>>): (r: Result<PropertyFilterSpec, Exception>)
    ensures r.Err? <==> properties.None?
    ensures r.Ok? ==> r.value == ObjectPropertiesFilter(mobj, properties)
  {
    var all := properties.None? || properties.value == [];
    if properties.None? then Err(NullPointer)
    else Ok(PropertyFilterSpec([PropertySpec(mobj.kind, all, properties.value)], [ObjectSpec(mobj, false, [])]))
  }

  /** A null property list, which line 348 treats as "fetch everything", makes the code as written throw. */
  lemma NullPropertyListThrows(mobj: ObjectRef)
    ensures ObjectPropertiesFilterAsWritten(mobj, None) == Err(NullPointer)
    ensures ObjectPropertiesFilter(mobj, None).propSet == [PropertySpec(mobj.kind, true, [])]
  {
  }
}
