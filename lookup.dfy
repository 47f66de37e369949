/**
 * `getStoragePodByName` and `getObjectProperties`: submit a filter through
 * the retrieval loop and read the objects it returns.
 */
module Lookup {
  import opened Wrappers
  import opened Vim
  import opened Retrieval
  import opened Filters

  /** `oc.getPropSet().get(0).getVal()` can be read: the property list is not empty and its first value is not null. */
  predicate Readable(oc: ObjectContent)
  {
    oc.propSet != [] && !oc.propSet[0].val.Null?
  }

  /** The first property value of `oc` equals `name`. */
  predicate Named(oc: ObjectContent, name: string)
  {
    oc.propSet != [] && EqualsString(oc.propSet[0].val, name)
  }

  /**
   * The scan stops with a match at index `i`: every earlier object was read
   * without an exception and did not match, and this one matches.
   */
  predicate FirstHit(contents: seq<ObjectContent>, name: string, i: int)
  {
    0 <= i < |contents| && Named(contents[i], name)
    && forall j :: 0 <= j < i ==> Readable(contents[j]) && !Named(contents[j], name)
  }

  /**
   * The loop of lines 313-318: the object of the first content whose first
   * property equals `name`. An exception while reading a content (an empty
   * property list, a null value) is caught with nothing found yet.
   */
  function FirstNamed(contents: seq<ObjectContent>, name: string): (r: Option<ObjectRef>)
    ensures forall i :: FirstHit(contents, name, i) ==> r == Some(contents[i].obj)
    ensures r.Some? ==> exists i :: FirstHit(contents, name, i) && r.value == contents[i].obj
  {
    if contents == [] then None
    else if !Readable(contents[0]) then None
    else if Named(contents[0], name) then
      assert FirstHit(contents, name, 0);
      Some(contents[0].obj)
    else
      var r := FirstNamed(contents[1..], name);
      assert forall i :: FirstHit(contents, name, i) ==> i > 0 && FirstHit(contents[1..], name, i - 1);
      assert forall i :: FirstHit(contents[1..], name, i) ==> FirstHit(contents, name, i + 1);
      r
  }

  method GetStoragePodByName(entityName: string, root: ObjectRef, service: Collector) returns (pod: Option<ObjectRef>)
    ensures pod == FirstNamed(Drive(service([PodFilter(root)])).objects, entityName)
  {
    pod := None;
    var listpfs := [PodFilter(root)];
    var listobjcont, _ := RetrievePropertiesAllObjects(service, listpfs);
    var i := 0;
    while i < |listobjcont|
      invariant 0 <= i <= |listobjcont|
      invariant FirstNamed(listobjcont[i..], entityName) == FirstNamed(listobjcont, entityName)
    {
      var oc := listobjcont[i];
      if !Readable(oc) {
        return;
      }
      assert listobjcont[i..][1..] == listobjcont[i + 1..];
      if EqualsString(oc.propSet[0].val, entityName) {
        pod := Some(oc.obj);
        break;
      }
      i := i + 1;
    }
  }

  /**
   * A null reference yields null. Otherwise the filter is built as lines
   * 346-357 build it, so a null property list throws before anything is
   * retrieved; any other list yields the objects retrieved for the
   * single-object filter of `mobj`, in retrieval order and number.
   */
  method GetObjectProperties(mobj: Option<ObjectRef>, properties: Option<seq<string>>, service: Collector)
    returns (contents: Result<Option<seq<ObjectContent>>, Exception>)
    ensures mobj.None? ==> contents == Ok(None)
    ensures mobj.Some? && properties.None? ==> contents == Err(NullPointer)
    ensures mobj.Some? && properties.Some? ==>
      contents == Ok(Some(Drive(service([ObjectPropertiesFilter(mobj.value, properties)])).objects))
  {
    if mobj.None? {
      return Ok(None);
    }
    var spec := ObjectPropertiesFilterAsWritten(mobj.value, properties);
    if spec.Err? {
      return Err(spec.error);
    }
    var listpfs := [spec.value];
    var listobcont, _ := RetrievePropertiesAllObjects(service, listpfs);
    contents := Ok(Some(listobcont));
  }
}
