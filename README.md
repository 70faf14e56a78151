# Salesforce sObject relationship extractor — a verified model

The extractor starts at one Salesforce object (the configured `InitialSObject`,
"Opportunity" by default), asks the org's describe endpoint for that object's
`childRelationships`, and walks them recursively up to `DepthLevel` levels. It
accepts at most `MaxChildRelationships` children per object (0 means no cap). It
does not recurse into a child that names the object itself. It builds a nested
map keyed by child object name and wraps it as `{ sObject, childRelationships }`.
Every failure (an exception, a non-2xx status, a malformed body) turns that
object's subtree into an empty map and is never passed to the caller.

The model has five modules:

- `DescribeApi` (describe.dfy) holds the parsed shape of a describe response.
  A property is absent, null, a string or some other JSON value. An element is
  an object or not. A body is parsable or not. A response is a transport fault
  or a status code with a body. `ReadEntry` reads one element exactly as the
  source does, exceptions included. `DescribeClient` stands for the shared
  `HttpClient` and the org. Its answers come from a fixed function
  `Server = string -> Response`. A ghost request log, which the real client
  does not keep, records every object name it is asked to describe.
- `Config` (config.dfy) holds `SalesforceConfig`, its defaults, and the
  loader's fallback to the defaults.
- `Traversal` (traversal.dfy) defines the walk as functions. `Step` is one
  iteration of the `foreach` loop. `Run` folds `Step` over a prefix of the
  array. `Query` is one call of `QuerySalesforceObject`: its map and the
  describe requests it makes, in order. `Extract` is the root wrapper.
- `Processor` (processor.dfy) is the processor class. It has the recursive
  method with its loop, proved equal to `Query`, including the requests the
  client records.
- `Properties` (properties.dfy) holds the lemmas about `Query`, `Run` and `Step`.

Behaviour of the source worth noting:

- An element is skipped when it lacks either `childSObject` or `field` (the
  `&&` at src/salesforce.cs:102-103).
- In an element that has both `childSObject` and `field`, a value that is
  neither a string nor null in any of the four properties makes `GetString`
  throw.
  So does a non-object element, or a `childRelationships` that is not an array.
  The catch block then discards the whole level's partial map, including
  children that were already described.
- The breadth guard is tested before each element is read. So once K children
  are accepted, the next element of any kind ends the loop.

## Model

| member | source | states |
|---|---|---|
| `DescribeApi.StringOrEmpty` | src/salesforce.cs:105-110 | `GetString() ?? ""` throws exactly on a value that is neither a string nor null; a string reads as itself, and null or an absent associate property reads as "" (`Shown`) |
| `DescribeApi.ReadEntry` | src/salesforce.cs:102-110 | an element is skipped iff it is an object lacking `childSObject` or `field`; reading throws iff the element is not an object or one of the four present values is not a string or null; otherwise the relationship carries the four strings, "" for null or absent |
| `DescribeApi.DescribeClient.constructor` | src/salesforce.cs:25-29 | the client answers from the given org and has made no request yet |
| `DescribeApi.DescribeClient.Describe` | src/salesforce.cs:67-72 | the response is the org's answer for that object name, and the name is appended to the request log |
| `Config.LoadConfig` | src/salesforce.cs:156-168 | a failed read or parse, or a null document, gives the default config; otherwise each property present in the file is taken and each missing one gets its default (`Opportunity`, depth 2, cap 0, `v59.0`, `final_output.json`, empty URL and token) |
| `Traversal.CapReached` | src/salesforce.cs:99 | definition: the breadth guard's test, true iff K > 0 and K children were already accepted; its consequences are the `Properties` breadth-cap lemmas |
| `Traversal.Step` | src/salesforce.cs:99-142 | definition: one iteration of the loop (break, skip, throw, self-reference, recursive child); its properties are `Properties.EntryOverwrites`, `StepWithinCap` and `StepWellFormed` |
| `Traversal.Run` | src/salesforce.cs:97-144 | definition: the loop's state after each prefix of the array; its properties are `Properties.Absorbing`, `RunKept`, `RunWithinCap`, `RunWellFormed` and `RunRequestBound` |
| `Traversal.Finish` | src/salesforce.cs:147-153 | definition: the call's result once the loop has ended, the empty map after an exception; used by `Properties.SkippedEntriesChangeNothing` and `CapDropsLaterEntries` |
| `Traversal.Query` | src/salesforce.cs:58-154 | definition: one call's map and its describe requests in order; its properties are `Properties.DepthGuard`, `FailedDescribeIsEmpty`, `ThrownEntryEmptiesLevel`, `BreadthCap`, `QueryWellFormed` and `QueryRequestBound` |
| `Traversal.Extract` | src/salesforce.cs:38-45 | definition: the root wrapper's output; its shape is `Properties.ResultTreeShape` |
| `Traversal.Nest` | src/salesforce.cs:135-139 | a nested map is attached iff it is non-empty, and then it is that map |
| `Processor.SalesforceDataProcessor.constructor` | src/salesforce.cs:25-29 | the processor keeps the config and owns a fresh client with an empty request log |
| `Processor.SalesforceDataProcessor.QuerySalesforceObject` | src/salesforce.cs:58-154 | the returned map is `Query`'s map, and the client's log grows by exactly `Query`'s describe requests, in order |
| `Processor.SalesforceDataProcessor.CollectRelationships` | src/salesforce.cs:91-147 | the loop over the array ends in `Run`'s state for the whole array: no map if an element threw, otherwise the accumulated map; the log grows by the requests of the recursive calls |
| `Processor.SalesforceDataProcessor.ProcessChildSObjects` | src/salesforce.cs:31-45 | the output pairs `InitialSObject` with the map of the call at depth 1 |
| `Properties.DepthGuard` | src/salesforce.cs:60-61 | past `DepthLevel` a call returns the empty map and makes no describe request |
| `Properties.FailedDescribeIsEmpty` | src/salesforce.cs:74-85 | a transport exception, a non-2xx status or an unparsable body gives the empty map after exactly one request |
| `Properties.NoRelationshipsIsEmpty` | src/salesforce.cs:95-97 | a missing or empty `childRelationships` array gives the empty map |
| `Properties.Absorbing` | src/salesforce.cs:99-100 | once the loop has hit `break` or thrown, no later element changes its state |
| `Properties.ThrownEntryEmptiesLevel` | src/salesforce.cs:149-153 | an element that throws when read, once the loop reaches it (no earlier throw, cap not yet reached), empties the whole call's map, and the caller still receives a map |
| `Properties.SkippedEntriesChangeNothing` | src/salesforce.cs:102-103 | deleting every element that lacks `childSObject` or `field` changes neither the call's map nor its requests: such elements add no key and do not count toward the cap |
| `Properties.Kept` | src/salesforce.cs:102-103 | an element of the array is kept iff the loop does not skip it |
| `Properties.KeptAppend` | src/salesforce.cs:97-103 | keeping preserves array order: it distributes over concatenation |
| `Properties.RunWithinCap` | src/salesforce.cs:92-100 | after any prefix, the accepted count is at most K when K > 0, and it bounds the number of keys other than the object's own name |
| `Properties.NoCapNeverStops` | src/salesforce.cs:15 | with K <= 0 ("process all") the loop never ends on the breadth guard |
| `Properties.BreadthCap` | src/salesforce.cs:99-100 | with K > 0 a call's map holds at most K keys besides the object's own name |
| `Properties.CapDropsLaterEntries` | src/salesforce.cs:99-100 | once K children are accepted, every later element is dropped, self-references included: the map and the requests stay as they are |
| `Properties.EntryOverwrites` | src/salesforce.cs:113-142 | an accepted element puts a node with its own field and associate strings under its child name and leaves every other key alone. The node has a nested map iff the child is not the object itself and the child's own call returned a non-empty map, and that nested map is exactly the child call's map. A self-reference makes no request and does not count; any other child adds its call's requests and counts once. A failing child never stops the loop |
| `Properties.FailedChildStillRecorded` | src/salesforce.cs:125-141 | a child whose own describe fails (a 404, say) is still recorded under its name, without a nested map, after one request |
| `Properties.KeyUntouched` | src/salesforce.cs:141 | a node survives unchanged while no later element names its key |
| `Properties.LastWriteWins` | src/salesforce.cs:115-141 | with duplicate child names, the last accepted element's attributes are what the map holds |
| `Properties.QueryWellFormed` | src/salesforce.cs:60-61 | a call's map is well formed for its object with `DepthLevel - currentDepth + 1` levels. It is empty with no levels left. A key equal to its parent's name has no nested map. A nested map is non-empty and well formed for its own object with one level less |
| `Properties.RunWellFormed` | src/salesforce.cs:97-144 | the loop keeps the accumulated map well formed |
| `Properties.StepWellFormed` | src/salesforce.cs:113-141 | one element keeps the accumulated map well formed, given the recursive call's map is |
| `Properties.ResultTreeShape` | src/salesforce.cs:38-45 | the output names the initial object, its map spans at most `DepthLevel` levels, and a `DepthLevel` below 1 gives an empty map |
| `Properties.DeepestLevelIsFlat` | src/salesforce.cs:125-139 | no node produced at depth `DepthLevel` has a nested map; with `DepthLevel` = 1 the whole output is one level deep |
| `Properties.QueryRequestBound` | src/salesforce.cs:99-125 | with a cap K > 0, a call with h levels left makes at most 1 + K + … + K^(h-1) describe requests |
| `Properties.RunRequestBound` | src/salesforce.cs:99-142 | along the loop, the requests made are at most the accepted count times the bound for one child |

## Left out

- Building the request URL and the bearer header, `async`/`await`, and the
  transport itself. The response for each object name is the oracle `Server`.
- The oracle is a fixed function: two requests for the same object in one run
  get the same answer. A real org could answer differently between requests.
- JSON parsing and serialization (`JsonDocument`, `JsonSerializer`). The model
  works on their parsed shapes. Writing the indented output file is not
  modelled, so neither is the output round trip. `ProcessChildSObjects`
  returns the tree that would be serialized.
- The order of keys in the output. The source's `Dictionary` keeps insertion
  order, which decides the key order of the serialized file; a Dafny `map`
  has no order, so the model promises the keys and their nodes only.
- The try/catch around the whole root call (src/salesforce.cs:52-55). It
  only guards serialization and file writing, which are not modelled.
- `Console.WriteLine` diagnostics, including the 404 versus other-status
  messages. The status code decides only success versus failure here.
- Config.LoadConfig: the file read and the deserializer are below the model.
  An explicit JSON null for a string property (which the deserializer stores as
  null), and the deserializer's case-sensitive property matching, are not
  modelled.
- Integer widths: `currentDepth`, `DepthLevel` and `processedCount` are
  unbounded. `currentDepth + 1` could wrap only after about 2^31 nested calls,
  which the process cannot reach. Stack exhaustion and timeouts are not modelled.
- src/program.cs, the command-line entry point, is not part of this model.
