/**
 * `getDynamicProperty` and `methodExists`: fetch one property of a managed
 * object and, when its runtime class is an `ArrayOfXXX` wrapper, unwrap it by
 * invoking the accessor that the wrapper's naming convention gives.
 */
module DynamicDecoder {
  import opened Wrappers
  import opened JavaStrings
  import opened Vim
  import opened Retrieval
  import opened Filters
  import opened Lookup

  const ArrayOf := "ArrayOf"

  /** The property `getDynamicProperty` asks for. */
  const EntryProperty := "podStorageDrsEntry"

  /**
   * `methodExists(obj, methodName, null)`: `getMethod` finds a public
   * no-argument method of that name. A null object or a missing method makes
   * the lookup throw, which is caught and reported as false.
   */
  function MethodExists(obj: Value, methodName: string): bool
  {
    obj.Obj? && methodName in obj.methods
  }

  /**
   * Lines 399-407: the accessor of the wrapped array, `"get"` + the element type
   * when `methodExists` reports it, else `"get_"` + the element type in lower case.
   */
  function AccessorName(v: Value, suffix: string): string
  {
    if MethodExists(v, "get" + suffix) then "get" + suffix else "get_" + ToLower(suffix)
  }

  /**
   * `getDeclaredMethod(name)` followed by `invoke`: the value the declared
   * accessor returns, or `NoSuchMethodException` when the class declares none.
   */
  function Invoke(obj: Value, name: string): Result<Value, Exception>
    requires obj.Obj?
  {
    if name in obj.accessors then Ok(obj.accessors[name]) else Err(NoSuchMethod(name))
  }

  lemma FirstAtUnique(s: string, p: string, i: int)
    requires FirstAt(s, p, i)
    ensures forall k :: FirstAt(s, p, k) ==> k == i
  {
  }

  /**
   * Lines 384-420 on the property value `v`: a wrapper whose class name holds
   * `ArrayOf` is unwrapped through `"get"` + the text after its first
   * occurrence when a public method of that name exists, and through `"get_"` +
   * that text in lower case otherwise; any other value, array or scalar, comes
   * back unchanged; a null value makes `getClass` throw.
   */
  function Decode(v: Value): (r: Result<Value, Exception>)
    ensures v.Null? ==> r == Err(NullPointer)
    ensures v.Obj? && !Contains(v.className, ArrayOf) ==> r == Ok(v)
    ensures forall k :: v.Obj? && FirstAt(v.className, ArrayOf, k) ==>
      r == Invoke(v, AccessorName(v, v.className[k + |ArrayOf|..]))
  {
    if v.Null? then Err(NullPointer)
    else
      var dynamicPropertyName := v.className;
      var at := IndexOf(dynamicPropertyName, ArrayOf);
      if at != -1 then
        FirstAtUnique(dynamicPropertyName, ArrayOf, at);
        var suffix := dynamicPropertyName[at + |ArrayOf|..];
        Invoke(v, AccessorName(v, suffix))
      else
        Ok(v)
  }

  /**
   * For a class name `prefix + "ArrayOf" + suffix` with no `ArrayOf` in
   * `prefix`, the decoder tries `"get" + suffix` first and falls back to
   * `"get_" + suffix.toLowerCase()`; a fallback the class does not declare
   * raises `NoSuchMethodException`.
   */
  lemma DecodeArrayOf(v: Value, prefix: string, suffix: string)
    requires v.Obj? && v.className == prefix + ArrayOf + suffix && !Contains(prefix, ArrayOf)
    ensures "get" + suffix in v.methods ==> Decode(v) == Invoke(v, "get" + suffix)
    ensures "get" + suffix !in v.methods && "get_" + ToLower(suffix) in v.accessors
      ==> Decode(v) == Ok(v.accessors["get_" + ToLower(suffix)])
    ensures "get" + suffix !in v.methods && "get_" + ToLower(suffix) !in v.accessors
      ==> Decode(v) == Err(NoSuchMethod("get_" + ToLower(suffix)))
  {
    var s := v.className;
    var n := |prefix|;
    assert s[n..n + |ArrayOf|] == ArrayOf;
    forall j | 0 <= j < n ensures !OccursAt(s, ArrayOf, j) {
      if j + |ArrayOf| <= n {
        assert s[j..j + |ArrayOf|] == prefix[j..j + |ArrayOf|];
        assert !OccursAt(prefix, ArrayOf, j);
      } else {
        assert s[j..j + |ArrayOf|][n - j] == s[n] == 'A';
        assert forall d :: 1 <= d < |ArrayOf| ==> ArrayOf[d] != 'A';
      }
    }
    assert FirstAt(s, ArrayOf, n);
    assert s[n + |ArrayOf|..] == suffix;
  }

  /** `objContent[0].getPropSet().get(0).getVal()`, decoded; an empty result or property list throws. */
  function DecodeFirst(contents: seq<ObjectContent>): Result<Value, Exception>
  {
    if contents == [] || contents[0].propSet == [] then Err(IndexOutOfBounds)
    else Decode(contents[0].propSet[0].val)
  }

  /**
   * Fetches the `podStorageDrsEntry` property of `mor` and decodes the first
   * property value of the first object returned; a null reference gives null.
   */
  method GetDynamicProperty(mor: Option<ObjectRef>, service: Collector) returns (r: Result<Value, Exception>)
    ensures mor.None? ==> r == Ok(Null)
    ensures mor.Some? ==> r == DecodeFirst(Drive(service([ObjectPropertiesFilter(mor.value, Some([EntryProperty]))])).objects)
  {
    var fetched := GetObjectProperties(mor, Some([EntryProperty]), service);
    if fetched.Err? {
      // The property list is not null, so the filter cannot throw.
      assert false;
      return Err(NullPointer);
    }
    var objContent := fetched.value;
    var propertyValue := Null;
    if objContent.Some? {
      if objContent.value == [] {
        return Err(IndexOutOfBounds);
      }
      var listdp := objContent.value[0].propSet;
      if listdp == [] {
        return Err(IndexOutOfBounds);
      }
      var decoded := Decode(listdp[0].val);
      if decoded.Err? {
        return Err(decoded.error);
      }
      propertyValue := decoded.value;
    }
    return Ok(propertyValue);
  }
}
