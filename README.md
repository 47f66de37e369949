# SDRSRecommendation, modelled in Dafny

`SDRSRecommendation` is a vSphere web-services sample. It reads its settings
from the command line (`--url`, `--username`, `--password`, `--podname`,
`--help`) and connects to vCenter. It then finds a storage pod (an SDRS
cluster) by name, asks the storage resource manager to refresh that pod's
Storage DRS recommendations, and reads back the recommendation list. This
project models the sample's logic without the SOAP transport:

- `Vim` (`vim.dfy`): the `com.vmware.vim25` data objects the sample builds
  and receives. It also models the Java runtime values that reach it through
  reflection: a class name, public methods, declared accessors and a
  payload. The remote property collector is a `Collector` oracle. It maps
  the submitted filters to a `Conversation`: the reply to
  `retrievePropertiesEx`, then the replies to each
  `continueRetrievePropertiesEx`.
- `JavaStrings`: the `java.lang.String` operations the sample uses:
  `indexOf`, `startsWith`, `trim`, `equalsIgnoreCase` and `toLowerCase`.
- `Retrieval`: the paginated loop of `retrievePropertiesAllObjects`. It is
  a method proved against the function `Drive`, with lemmas that describe
  `Drive` page by page.
- `Traversal`: the self-referential selection-spec graph of
  `getStorageTraversalSpec`, read as a registry of named steps.
- `Filters`: the property filters of `getStoragePodByName` and
  `getObjectProperties`.
- `Lookup`: the first-match scan of `getStoragePodByName`, and
  `getObjectProperties`.
- `DynamicDecoder`: the `ArrayOfXXX` unwrapping of `getDynamicProperty`,
  and `methodExists`.
- `CommandLine`: the stride-2 argument scanners. The static settings they
  overwrite are a class `Settings`. `Startup` models what `main` does with
  the settings.
- `Recommendation`: the outline of `storageRecommendation`.

An exception that escapes a Java method becomes a value of the `Exception`
datatype. Functions and most methods return it as `Result.Err`. The two
argument scanners instead return the exception they throw, if any, as an
`Option<Exception>`, next to the settings they change in place. `null`
becomes `Option.None` or `Value.Null`.

The model follows the code in the places where the code and its evident
intent differ:

- A fault in the middle of a pagination is swallowed. The objects collected
  so far are returned, not an error.
- The traversal graph is built with no validation step. Instead, its
  closure under name references is proved about the fixed graph.
- A missing fallback accessor raises `NoSuchMethodException` from
  `getDeclaredMethod`.

## Model

| member | source | states |
|---|---|---|
| Retrieval.Continue | vsphere-ws/src/com/vmware/storage/SDRSRecommendation.java:231-241 | every token sent for a continuation page is non-empty |
| Retrieval.RetrievePropertiesAllObjects | vsphere-ws/src/com/vmware/storage/SDRSRecommendation.java:212-249 | the loop returns exactly the objects collected by the conversation with the collector, and sends exactly the continuation tokens `Drive` sends, in order; it never returns null |
| Retrieval.ContinueComplete | vsphere-ws/src/com/vmware/storage/SDRSRecommendation.java:231-241 | while every page but the last carries a live token and the last carries a null or empty one, the continuation collects each page's objects in order, sends each live token once, and ends without a fault |
| Retrieval.ContinuePartial | vsphere-ws/src/com/vmware/storage/SDRSRecommendation.java:231-247 | when a fault answers a live token, the continuation keeps the objects of the pages before it and reports the fault |
| Retrieval.RetrievesEveryPage | vsphere-ws/src/com/vmware/storage/SDRSRecommendation.java:220-241 | the result is the first page's objects followed by every continuation page's objects, in page order; a null page or a null list adds nothing, and a null or empty token ends the loop |
| Retrieval.FaultKeepsPartialList | vsphere-ws/src/com/vmware/storage/SDRSRecommendation.java:217-248 | a fault after any number of pages yields the objects of exactly those pages (the empty list when the first call faults) |
| Traversal.Names | vsphere-ws/src/com/vmware/storage/SDRSRecommendation.java:275-279 | the names of a select set, one per spec, in order |
| Traversal.StorageTraversalShape | vsphere-ws/src/com/vmware/storage/SDRSRecommendation.java:256-281 | one top-level spec, `visitFolders`; the steps defined are exactly `visitFolders` (Folder, childEntity, no skip, then `dcTodf` and `visitFolders`) and `dcTodf` (Datacenter, datastoreFolder, no skip, then `visitFolders`); every referenced name is defined |
| Filters.PodFilterShape | vsphere-ws/src/com/vmware/storage/SDRSRecommendation.java:289-306 | the pod filter fetches exactly property `name` of type `StoragePod` (`all` false); it has one object spec, at the root, with skip and the storage traversal |
| Filters.ObjectPropertiesFilter | vsphere-ws/src/com/vmware/storage/SDRSRecommendation.java:346-357 | one property spec of the reference's type, with `all` true exactly when the list is null or empty and the listed paths; one object spec: the reference, no skip, no traversal |
| Filters.ObjectPropertiesFetches | vsphere-ws/src/com/vmware/storage/SDRSRecommendation.java:348-354 | the object filter fetches a property exactly when it is of the reference's type and the list is null, empty or names that property |
| Filters.ObjectPropertiesFilterAsWritten | vsphere-ws/src/com/vmware/storage/SDRSRecommendation.java:346-357 | the code as written throws exactly for a null property list, and otherwise builds the corrected filter |
| Filters.NullPropertyListThrows | vsphere-ws/src/com/vmware/storage/SDRSRecommendation.java:348-354 | for a null list the code throws `NullPointerException`, while the corrected filter fetches every property |
| Lookup.FirstNamed | vsphere-ws/src/com/vmware/storage/SDRSRecommendation.java:312-319 | the first content whose first property equals the name, with every earlier content readable and unmatched, gives the result; any result is such a first hit; an unreadable content before a match gives null |
| Lookup.GetStoragePodByName | vsphere-ws/src/com/vmware/storage/SDRSRecommendation.java:286-326 | the loop with `break` returns the first match, as `FirstNamed` does, among the objects retrieved with the pod filter |
| Lookup.GetObjectProperties | vsphere-ws/src/com/vmware/storage/SDRSRecommendation.java:341-361 | null for a null reference; a null property list with a non-null reference throws `NullPointerException` before anything is retrieved, as the code as written does; otherwise every object retrieved with the single-object filter, in retrieval order and number |
| JavaStrings.IndexFrom | vsphere-ws/src/com/vmware/storage/SDRSRecommendation.java:387 | `indexOf` from a position: -1 or an occurrence there or later, with none between the start and it |
| JavaStrings.IndexOf | vsphere-ws/src/com/vmware/storage/SDRSRecommendation.java:387 | -1 exactly when the pattern does not occur; otherwise the first occurrence |
| JavaStrings.TrimStartCuts | vsphere-ws/src/com/vmware/storage/SDRSRecommendation.java:115 | trimming the front removes only characters up to U+0020 and leaves none at the front |
| JavaStrings.TrimEndCuts | vsphere-ws/src/com/vmware/storage/SDRSRecommendation.java:117 | trimming the back removes only characters up to U+0020 and leaves none at the back |
| JavaStrings.TrimCuts | vsphere-ws/src/com/vmware/storage/SDRSRecommendation.java:115-117 | `trim()` is a slice of the argument that neither starts nor ends with a character up to U+0020, cut only of such characters |
| JavaStrings.EqualsIgnoreCaseAt | vsphere-ws/src/com/vmware/storage/SDRSRecommendation.java:119-128 | `equalsIgnoreCase` holds exactly when the lengths agree and every position matches ignoring case |
| JavaStrings.ToLower | vsphere-ws/src/com/vmware/storage/SDRSRecommendation.java:406 | `toLowerCase` keeps the length and lowers every character in place |
| DynamicDecoder.Decode | vsphere-ws/src/com/vmware/storage/SDRSRecommendation.java:384-420 | a null value throws; a class name without `ArrayOf` passes the value through unchanged; otherwise the accessor is derived from the text after the first `ArrayOf` and invoked |
| DynamicDecoder.DecodeArrayOf | vsphere-ws/src/com/vmware/storage/SDRSRecommendation.java:387-412 | for `prefix + "ArrayOf" + suffix`: `"get" + suffix` when `methodExists` reports it, else `"get_" + suffix.toLowerCase()`; a fallback the class does not declare raises `NoSuchMethodException` |
| DynamicDecoder.GetDynamicProperty | vsphere-ws/src/com/vmware/storage/SDRSRecommendation.java:372-424 | null for a null reference; otherwise the decoded first property value of the first object retrieved with the `podStorageDrsEntry` query; an empty result or property list throws |
| CommandLine.StopFrom | vsphere-ws/src/com/vmware/storage/SDRSRecommendation.java:114-121 | the connection scan stops at the first visited `--help` (ignoring case), or runs to the end when there is none |
| CommandLine.FlagsExclusive | vsphere-ws/src/com/vmware/storage/SDRSRecommendation.java:119-131 | no argument matches two of the flags, so the order of the `else if` tests does not hide a match |
| CommandLine.ConnectionHelpFrom | vsphere-ws/src/com/vmware/storage/SDRSRecommendation.java:114-134 | `help` ends set exactly when it was set before or the scan meets `--help` at an even index |
| CommandLine.ConnectionUnset | vsphere-ws/src/com/vmware/storage/SDRSRecommendation.java:114-134 | a setting with no accepted pair before the stop keeps its earlier value |
| CommandLine.ConnectionLast | vsphere-ws/src/com/vmware/storage/SDRSRecommendation.java:114-134 | a setting holds the trimmed value of the last accepted pair for its flag before the stop: later occurrences overwrite earlier ones |
| CommandLine.InputUnset | vsphere-ws/src/com/vmware/storage/SDRSRecommendation.java:146-157 | with no accepted `--podname` pair, the pod name keeps its earlier value |
| CommandLine.InputLast | vsphere-ws/src/com/vmware/storage/SDRSRecommendation.java:146-157 | the pod name holds the trimmed value of the last accepted `--podname` pair anywhere in the arguments, since this scan has no `--help` stop |
| CommandLine.ConnectionAccepted | vsphere-ws/src/com/vmware/storage/SDRSRecommendation.java:122-131 | the connection scan stores only accepted values: non-empty and not starting with `--` |
| CommandLine.InputAccepted | vsphere-ws/src/com/vmware/storage/SDRSRecommendation.java:151-154 | the input scan stores only an accepted pod name |
| CommandLine.Startup | vsphere-ws/src/com/vmware/storage/SDRSRecommendation.java:520-528 | `main` after the two scans: the usage is printed with one of the two messages, or the sample runs, and then every setting it runs with is an accepted value |
| CommandLine.MissingConnectionArgument | vsphere-ws/src/com/vmware/storage/SDRSRecommendation.java:135-138 | a connection flag with no accepted pair before the stop leaves its setting null, so `main` reports the missing arguments, even when `--help` follows |
| CommandLine.MissingPodName | vsphere-ws/src/com/vmware/storage/SDRSRecommendation.java:158-160 | with no accepted `--podname` pair, `main` prints the usage instead of running or showing help, even when `--help` was given, because it checks the pod name before `help` (lines 523-524) |
| CommandLine.HelpOnlyAtStop | vsphere-ws/src/com/vmware/storage/SDRSRecommendation.java:520-527 | the usage is shown only when the scan stopped at `--help`; a stop at `--help` either reports missing arguments or shows the usage; the sample runs only when no `--help` was visited |
| CommandLine.Settings.constructor | vsphere-ws/src/com/vmware/storage/SDRSRecommendation.java:57-61 | the settings start null, with `help` off |
| CommandLine.Settings.GetConnectionParameters | vsphere-ws/src/com/vmware/storage/SDRSRecommendation.java:109-139 | the loop leaves the connection settings as `ScanConnection` describes, leaves `podName` alone, and throws `IllegalArgumentException` exactly when the url, user name or password is still null |
| CommandLine.Settings.GetInputParameters | vsphere-ws/src/com/vmware/storage/SDRSRecommendation.java:142-161 | the loop leaves the pod name as `ScanInput` describes, leaves the other settings alone, and throws exactly when the pod name is still null |
| Recommendation.StorageRecommendation | vsphere-ws/src/com/vmware/storage/SDRSRecommendation.java:462-487 | the method yields what `RecommendationOutcome` describes: the pod lookup, the refresh, the entry read back and its recommendation list, or the exception that escapes |
| Recommendation.PodNotFound | vsphere-ws/src/com/vmware/storage/SDRSRecommendation.java:465-486 | no retrieved pod with that name ends the run with `RuntimeException("Failure: StoragePod <name> not found.")` |
| Recommendation.EntryIsNotWrapped | vsphere-ws/src/com/vmware/storage/SDRSRecommendation.java:384-420 | the decoder passes a `PodStorageDrsEntry` through unchanged, because its class name holds no `ArrayOf` |
| Recommendation.ListsEntryRecommendations | vsphere-ws/src/com/vmware/storage/SDRSRecommendation.java:462-482 | a found pod, a successful refresh and a `PodStorageDrsEntry` read back yield the entry's recommendation list in order; an empty list is a result, not an error |
| Recommendation.WrongEntryClass | vsphere-ws/src/com/vmware/storage/SDRSRecommendation.java:469-470 | a property value of any other class that is not an `ArrayOf` wrapper fails the cast with `ClassCastException` |
| Recommendation.RefreshFaultEscapes | vsphere-ws/src/com/vmware/storage/SDRSRecommendation.java:466-467 | a SOAP fault from the refresh of a found pod escapes before anything is read back |

## Left out

- The trust-all TLS manager and hostname verifier (lines 67-106, 171-178): transport security configuration, not logic.
- `connect` and `disconnect`, `retrieveServiceContent`, `login` and `logout` (lines 169-210): remote session I/O. The root folder, the storage resource manager and the property collector appear as parameters.
- `retrievePropertiesEx` and `continueRetrievePropertiesEx` are the `Collector` oracle. A conversation whose script runs out while the token is still live is read as a transport fault.
- `refreshStorageDrsRecommendation` becomes the `refreshFaults` parameter. It only says whether the call raises a SOAP fault. Its effect on the server shows only in what the collector returns afterwards.
- Java reflection is not modelled itself, only its results. `getMethod` becomes the set `methods`, and `getDeclaredMethod` plus `invoke` become the map `accessors`. Access checks (`IllegalAccessException`) and exceptions thrown by the invoked accessor are not modelled. `methodExists` (lines 438-452) is therefore just membership in `methods`. Its catch-all turns both the `NullPointerException` on a null object and `NoSuchMethodException` into false. Its promise is stated where it is used, by `DynamicDecoder.DecodeArrayOf`.
- Printing and stack traces: `printUsage`, `printStackTrace`, and the messages in `retrievePropertiesAllObjects`, `storageRecommendation` and `main`. These are console output only.
- The SOAP fault printer, `printSoapFaultException` (lines 489-498), is assumed to return normally. That is not always so. For a fault whose `<detail>` element is empty, `getFirstChild()` is null, so line 492 throws `NullPointerException` inside the catch blocks that call it. Three consequences are not modelled:
  - In `retrievePropertiesAllObjects` (lines 242-243) that exception escapes instead of the partial list being returned.
  - `getStoragePodByName` then returns null through its catch at lines 322-325, even when an earlier page held the pod.
  - `getObjectProperties` lets the exception escape to its caller.
  The model's `Fault` reply always keeps the partial list.
- Recommendation.StorageRecommendation: the print loop over the recommendations (lines 473-482) is not modelled. So the `NullPointerException` that `recommend.getTarget().getValue()` would raise for a recommendation without a target is not modelled either.
- JavaStrings.UpperCase and JavaStrings.LowerCase: only the ASCII letters are modelled, plus the four non-ASCII letters whose case partner is an ASCII letter. For flags, which are ASCII, these are the only characters that decide `equalsIgnoreCase`. `toLowerCase` on other non-ASCII characters, its locale and its one-to-many mappings are not modelled.
- Recommendation.RecommendationsOf: the class hierarchy is not modelled. The cast at line 470 is read as equality with `com.vmware.vim25.PodStorageDrsEntry`, which the vim25 binding does not subclass.
- The `catch` blocks of `main` (lines 530-546) only report. `Startup` stops where `main` would print the usage or call `connect`.
- The `isArray` branch of `getDynamicProperty` (lines 413-417) returns the value unchanged, like the `else` branch. The model has one case for both.

## Findings

| source | as written | input that shows it | evidently intended | confidence | as-written member | corrected member |
|---|---|---|---|---|---|---|
| vsphere-ws/src/com/vmware/storage/SDRSRecommendation.java:354 | line 348 sets `all` for a null property list, but line 354 then calls `Arrays.asList(properties)` on it, which throws `NullPointerException` | `getObjectProperties(mobj, null)` with `mobj` non-null | a null list fetches every property with an empty path set, as the `all` branch suggests | not executed | Filters.ObjectPropertiesFilterAsWritten, Filters.NullPropertyListThrows | Filters.ObjectPropertiesFilter |
