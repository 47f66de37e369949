/**
 * The outline of `storageRecommendation`: find the storage pod by name, ask the
 * storage resource manager to refresh its recommendations, then read the
 * pod's `podStorageDrsEntry` property and take its recommendation list.
 */
module Recommendation {
  import opened Wrappers
  import opened JavaStrings
  import opened Vim
  import opened Retrieval
  import opened Filters
  import opened Lookup
  import opened DynamicDecoder

  const PodStorageDrsEntryClass := "com.vmware.vim25.PodStorageDrsEntry"

  /** The JAXB getter of the entry's recommendation list. */
  const RecommendationGetter := "getRecommendation"

  /** The message of the `RuntimeException` thrown when the pod is not found (lines 484-485). */
  function NotFoundMessage(podName: string): string
  {
    "Failure: StoragePod " + podName + " not found."
  }

  /** The pod reference `getStoragePodByName(podName)` returns. */
  function PodOf(podName: string, root: ObjectRef, service: Collector): Option<ObjectRef>
  {
    FirstNamed(Drive(service([PodFilter(root)])).objects, podName)
  }

  /** The value `getDynamicProperty(pod)` returns for a non-null pod. */
  function EntryOf(pod: ObjectRef, service: Collector): Result<Value, Exception>
  {
    DecodeFirst(Drive(service([ObjectPropertiesFilter(pod, Some([EntryProperty]))])).objects)
  }

  /**
   * `getRecommendation()` on a `PodStorageDrsEntry`: the items of the list it
   * returns. The generated getter creates an empty list when the field is
   * unset, so a missing or non-list value reads as empty.
   */
  function ListOf(entry: Value): seq<Value>
    requires entry.Obj?
  {
    if RecommendationGetter in entry.accessors && entry.accessors[RecommendationGetter].Obj?
       && entry.accessors[RecommendationGetter].payload.Elements?
    then entry.accessors[RecommendationGetter].payload.items
    else []
  }

  /**
   * Lines 469-472: the cast to `PodStorageDrsEntry` lets null through and
   * rejects any other class; `getRecommendation()` on null throws.
   */
  function RecommendationsOf(entry: Value): Result<seq<Value>, Exception>
  {
    if entry.Null? then Err(NullPointer)
    else if entry.className != PodStorageDrsEntryClass then Err(ClassCast(entry.className))
    else Ok(ListOf(entry))
  }

  /**
   * What `storageRecommendation` yields: the recommendation list it goes on to
   * print, or the exception it lets escape. `refreshFaults(srm, pod)` tells
   * whether `refreshStorageDrsRecommendation(srm, pod)` raises a SOAP fault.
   */
  function RecommendationOutcome(podName: string, root: ObjectRef, srm: ObjectRef, service: Collector,
                                 refreshFaults: (ObjectRef, ObjectRef) -> bool): Result<seq<Value>, Exception>
  {
    var pod := PodOf(podName, root, service);
    if pod.None? then Err(Runtime(NotFoundMessage(podName)))
    else if refreshFaults(srm, pod.value) then Err(SoapFault)
    else
      match EntryOf(pod.value, service)
      case Err(e) => Err(e)
      case Ok(entry) => RecommendationsOf(entry)
  }

  /** Lines 462-487 without the printing. */
  method StorageRecommendation(podName: string, root: ObjectRef, srm: ObjectRef, service: Collector,
                               refreshFaults: (ObjectRef, ObjectRef) -> bool)
    returns (r: Result<seq<Value>, Exception>)
    ensures r == RecommendationOutcome(podName, root, srm, service, refreshFaults)
  {
    var sdrsMor := GetStoragePodByName(podName, root, service);
    if sdrsMor.None? {
      return Err(Runtime(NotFoundMessage(podName)));
    }
    if refreshFaults(srm, sdrsMor.value) {
      return Err(SoapFault);
    }
    var entry := GetDynamicProperty(sdrsMor, service);
    if entry.Err? {
      return Err(entry.error);
    }
    r := RecommendationsOf(entry.value);
  }

  /** No retrieved pod is named `podName`: the run fails with the not-found message and nothing is refreshed. */
  lemma PodNotFound(podName: string, root: ObjectRef, srm: ObjectRef, service: Collector,
                    refreshFaults: (ObjectRef, ObjectRef) -> bool)
    requires forall i :: !FirstHit(Drive(service([PodFilter(root)])).objects, podName, i)
    ensures RecommendationOutcome(podName, root, srm, service, refreshFaults) == Err(Runtime(NotFoundMessage(podName)))
  {
  }

  /** The entry's class name holds no `ArrayOf`, so the decoder passes the entry through unchanged. */
  lemma EntryIsNotWrapped(entry: Value)
    requires entry.Obj? && entry.className == PodStorageDrsEntryClass
    ensures Decode(entry) == Ok(entry)
  {
    var s := PodStorageDrsEntryClass;
    assert 'A' !in s;
    forall i | 0 <= i <= |s| ensures !OccursAt(s, ArrayOf, i) {
      if i + |ArrayOf| <= |s| {
        assert s[i..i + |ArrayOf|][0] == s[i];
      }
    }
  }

  /**
   * The pod is found at retrieval position `i`, the refresh succeeds and the
   * first property read back is a `PodStorageDrsEntry`: the outcome is its
   * recommendation list, in order, and an empty list is a result, not an error.
   */
  lemma ListsEntryRecommendations(podName: string, root: ObjectRef, srm: ObjectRef, service: Collector,
                                  refreshFaults: (ObjectRef, ObjectRef) -> bool, i: int, entry: Value)
    requires FirstHit(Drive(service([PodFilter(root)])).objects, podName, i)
    requires !refreshFaults(srm, Drive(service([PodFilter(root)])).objects[i].obj)
    requires var contents := Drive(service([ObjectPropertiesFilter(Drive(service([PodFilter(root)])).objects[i].obj, Some([EntryProperty]))])).objects;
             contents != [] && contents[0].propSet != [] && contents[0].propSet[0].val == entry
    requires entry.Obj? && entry.className == PodStorageDrsEntryClass
    ensures RecommendationOutcome(podName, root, srm, service, refreshFaults) == Ok(ListOf(entry))
  {
    EntryIsNotWrapped(entry);
  }

  /** A property value of any class other than `PodStorageDrsEntry` (and not an `ArrayOf` wrapper) fails the cast. */
  lemma WrongEntryClass(podName: string, root: ObjectRef, srm: ObjectRef, service: Collector,
                        refreshFaults: (ObjectRef, ObjectRef) -> bool, i: int, entry: Value)
    requires FirstHit(Drive(service([PodFilter(root)])).objects, podName, i)
    requires !refreshFaults(srm, Drive(service([PodFilter(root)])).objects[i].obj)
    requires var contents := Drive(service([ObjectPropertiesFilter(Drive(service([PodFilter(root)])).objects[i].obj, Some([EntryProperty]))])).objects;
             contents != [] && contents[0].propSet != [] && contents[0].propSet[0].val == entry
    requires entry.Obj? && entry.className != PodStorageDrsEntryClass && !Contains(entry.className, ArrayOf)
    ensures RecommendationOutcome(podName, root, srm, service, refreshFaults) == Err(ClassCast(entry.className))
  {
  }

  /** A found pod whose refresh raises a SOAP fault ends the run with that fault before anything is read back. */
  lemma RefreshFaultEscapes(podName: string, root: ObjectRef, srm: ObjectRef, service: Collector,
                            refreshFaults: (ObjectRef, ObjectRef) -> bool, i: int)
    requires FirstHit(Drive(service([PodFilter(root)])).objects, podName, i)
    requires refreshFaults(srm, Drive(service([PodFilter(root)])).objects[i].obj)
    ensures RecommendationOutcome(podName, root, srm, service, refreshFaults) == Err(SoapFault)
  {
  }
}
