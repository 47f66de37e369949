/**
 * The vSphere data objects the sample builds and receives (the `com.vmware.vim25`
 * classes), the Java runtime values that arrive inside them, and the remote
 * property collector as an abstract service.
 */
module Vim {
  import opened Wrappers

  /** `ManagedObjectReference`: the type of a managed object and its server-side id. */
  datatype ObjectRef = ObjectRef(kind: string, value: string)

  /**
   * A Java runtime value as the sample sees it through reflection: `null`, or an
   * object of class `className` whose public no-argument methods (declared or
   * inherited, what `Class.getMethod` finds) are `methods`, and whose own declared
   * no-argument methods (what `Class.getDeclaredMethod` finds) are the keys of
   * `accessors`, each mapped to the value invoking it returns.
   */
  datatype Value =
    | Null
    | Obj(className: string, methods: set<string>, accessors: map<string, Value>, payload: Payload)

  /** What an object holds besides its methods: the characters of a `String`, or the items of a list or array. */
  datatype Payload = Opaque | Text(text: string) | Elements(items: seq<Value>)

  const StringClass := "java.lang.String"

  /** `val.equals(s)` for a non-null `val` and a `String` `s`: true only of a string with the same characters. */
  predicate EqualsString(val: Value, s: string)
  {
    val.Obj? && val.className == StringClass && val.payload == Text(s)
  }

  /** `DynamicProperty`: one property path of a retrieved object and its value. */
  datatype DynamicProperty = DynamicProperty(name: string, val: Value)

  /** `ObjectContent`: a retrieved object and its requested properties, in order. */
  datatype ObjectContent = ObjectContent(obj: ObjectRef, propSet: seq<DynamicProperty>)

  /**
   * `SelectionSpec` (only a name, standing for the traversal spec of that name)
   * and its subclass `TraversalSpec` (a named step from objects of type `kind`
   * along property `path`, followed by the specs of its select set).
   */
  datatype SelectionSpec =
    | Selection(name: string)
    | Traversal(name: string, kind: string, path: string, skip: bool, selectSet: seq<SelectionSpec>)

  /** `PropertySpec`: which properties to fetch of objects of type `kind`. */
  datatype PropertySpec = PropertySpec(kind: string, all: bool, pathSet: seq<string>)

  /** `ObjectSpec`: the object a filter starts at, whether to report it, and how to traverse on. */
  datatype ObjectSpec = ObjectSpec(obj: ObjectRef, skip: bool, selectSet: seq<SelectionSpec>)

  /** `PropertyFilterSpec`: one query. */
  datatype PropertyFilterSpec = PropertyFilterSpec(propSet: seq<PropertySpec>, objectSet: seq<ObjectSpec>)

  /** `RetrieveResult`: one page; `objects` and `token` may each be null. */
  datatype RetrieveResult = RetrieveResult(objects: Option<seq<ObjectContent>>, token: Option<string>)

  /** What one remote call produced: a SOAP or transport fault, or a (possibly null) page. */
  datatype Reply = Fault | Answer(result: Option<RetrieveResult>)

  /**
   * The property collector's side of one retrieval: the reply to
   * `retrievePropertiesEx` and, in order, the replies to each following
   * `continueRetrievePropertiesEx`.
   */
  datatype Conversation = Conversation(first: Reply, continued: seq<Reply>)

  /** The remote property collector: how it answers the submission of a list of filters. */
  type Collector = seq<PropertyFilterSpec> -> Conversation

  /** The exceptions the modelled code can let escape. */
  datatype Exception =
    | SoapFault
    | NullPointer
    | IndexOutOfBounds
    | NoSuchMethod(name: string)
    | ClassCast(className: string)
    | IllegalArgument(message: string)
    | Runtime(message: string)
}
