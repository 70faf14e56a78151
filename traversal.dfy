/** The describe traversal as functions: what a call of
    `QuerySalesforceObject(name, depth)` returns and which describe requests
    it makes. The loop over `childRelationships` is a left fold of `Step`
    over the array, so that the state after each prefix is the state of the
    source's loop after that many iterations. */
module Traversal {
  import opened DescribeApi
  import opened Config

  /** One relationship in the output, keyed by child object name in its
      parent's map; `childRelationships` is the nested map, when present. */
  datatype Node = Node(
    field: string,
    associateEntityType: string,
    associateParentEntity: string,
    childRelationships: Option<map<string, Node>>)

  /** The root wrapper that is serialized to the output file. */
  datatype ResultTree = ResultTree(sObject: string, childRelationships: map<string, Node>)

  /** What one call returns, and the object names it described, in request order. */
  datatype Visit = Visit(relationships: map<string, Node>, requests: seq<string>)

  /** Where the loop over `childRelationships` stands: Stopped after the
      breadth guard's `break`, Aborted after an exception. */
  datatype Status = Running | Stopped | Aborted

  datatype Loop = Loop(acc: map<string, Node>, processed: nat, requests: seq<string>, status: Status)

  const Start := Loop(map[], 0, [], Running)

  /** The breadth guard's test, made before each element is read. */
  predicate CapReached(cfg: SalesforceConfig, processed: nat)
  {
    cfg.maxChildRelationships > 0 && processed >= cfg.maxChildRelationships
  }

  /** The nested map is attached only when it is non-empty. */
  function Nest(m: map<string, Node>): (r: Option<map<string, Node>>)
    ensures r.Some? <==> m != map[]
    ensures r.Some? ==> r.value == m
  {
    if m == map[] then None else Some(m)
  }

  /** The remaining depth budget of a call at `depth`: the number of levels
      its result may span. */
  function Levels(cfg: SalesforceConfig, depth: int): nat
  {
    if depth > cfg.depthLevel then 0 else cfg.depthLevel - depth + 1
  }

  /** One iteration of the loop over `childRelationships` in a call for `name`. */
  function Step(cfg: SalesforceConfig, server: Server, name: string, depth: int, st: Loop, e: Entry): Loop
    requires depth <= cfg.depthLevel
    decreases cfg.depthLevel - depth + 1, 0, 0
  {
    if !st.status.Running? then st
    else if CapReached(cfg, st.processed) then st.(status := Stopped)
    else
      match ReadEntry(e)
      case Skipped => st
      case Thrown => st.(status := Aborted)
      case Read(rel) =>
        var node := Node(rel.fieldName, rel.associateEntityType, rel.associateParentEntity, None);
        if rel.childObjectName == name then
          st.(acc := st.acc[rel.childObjectName := node])
        else
          var nested := Query(cfg, server, rel.childObjectName, depth + 1);
          st.(acc := st.acc[rel.childObjectName := node.(childRelationships := Nest(nested.relationships))],
              processed := st.processed + 1,
              requests := st.requests + nested.requests)
  }

  /** The loop's state after the elements `entries`, in order. */
  function Run(cfg: SalesforceConfig, server: Server, name: string, depth: int, entries: seq<Entry>): Loop
    requires depth <= cfg.depthLevel
    decreases cfg.depthLevel - depth + 1, 1, |entries|
  {
    if entries == [] then Start
    else Step(cfg, server, name, depth, Run(cfg, server, name, depth, entries[..|entries| - 1]), entries[|entries| - 1])
  }

  /** A call's result once its loop has ended: an exception discards the
      partial map. */
  function Finish(name: string, st: Loop): Visit
  {
    Visit(if st.status.Aborted? then map[] else st.acc, [name] + st.requests)
  }

  /** The array the loop walks; a missing `childRelationships` is empty. */
  function EntriesOf(body: Body): seq<Entry>
    requires body.DescribeResult?
  {
    if body.childRelationships.Some? then body.childRelationships.value else []
  }

  /** `QuerySalesforceObject(name, depth)`. */
  function Query(cfg: SalesforceConfig, server: Server, name: string, depth: int): Visit
    decreases Levels(cfg, depth), 2, 0
  {
    if depth > cfg.depthLevel then Visit(map[], [])
    else
      match server(name)
      case TransportFault => Visit(map[], [name])
      case HttpResponse(status, body) =>
        if !IsSuccessStatusCode(status) || body.Unparsable? then Visit(map[], [name])
        else Finish(name, Run(cfg, server, name, depth, EntriesOf(body)))
  }

  /** The output of a whole run: the root object and its call at depth 1. */
  function Extract(cfg: SalesforceConfig, server: Server): ResultTree
  {
    ResultTree(cfg.initialSObject, Query(cfg, server, cfg.initialSObject, 1).relationships)
  }
}
