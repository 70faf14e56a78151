/** The processor: one config and one shared HTTP client, the recursive
    describe walk over them, and the root call. */
module Processor {
  import opened DescribeApi
  import opened Config
  import opened Traversal
  import Properties

  class SalesforceDataProcessor {
    const config: SalesforceConfig
    const client: DescribeClient

    constructor (config: SalesforceConfig, server: Server)
      ensures this.config == config && fresh(client)
      ensures client.server == server && client.requests == []
    {
      this.config := config;
      client := new DescribeClient(server);
    }

    /** Describes `sObjectName` and, below the depth limit, each accepted child
        relationship in array order; returns the nested relationship map. Every
        failure (an exception or a non-success status) yields the empty map. */
    method QuerySalesforceObject(sObjectName: string, currentDepth: int) returns (childRelationships: map<string, Node>)
      modifies client
      decreases Levels(config, currentDepth), 1
      ensures childRelationships == Query(config, client.server, sObjectName, currentDepth).relationships
      ensures client.requests == old(client.requests) + Query(config, client.server, sObjectName, currentDepth).requests
    {
      childRelationships := map[];
      if currentDepth > config.depthLevel {
        return;
      }
      var response := client.Describe(sObjectName);
      if response.TransportFault? || !IsSuccessStatusCode(response.status) || response.body.Unparsable? {
        return;
      }
      var collected := CollectRelationships(sObjectName, currentDepth, EntriesOf(response.body));
      if collected.Some? {
        childRelationships := collected.value;
      }
    }

    /** The loop over the `childRelationships` array of `sObjectName`: None
        when reading an element throws, which discards the partial map. */
    method CollectRelationships(sObjectName: string, currentDepth: int, entries: seq<Entry>)
      returns (collected: Option<map<string, Node>>)
      requires currentDepth <= config.depthLevel
      modifies client
      decreases Levels(config, currentDepth), 0
      ensures var st := Run(config, client.server, sObjectName, currentDepth, entries);
        && collected == (if st.status.Aborted? then None else Some(st.acc))
        && client.requests == old(client.requests) + st.requests
    {
      var childRelationships: map<string, Node> := map[];
      var processedCount: nat := 0;
      ghost var made: seq<string> := [];
      var i := 0;
      while i < |entries|
        invariant 0 <= i <= |entries|
        invariant client.requests == old(client.requests) + made
        invariant Run(config, client.server, sObjectName, currentDepth, entries[..i])
                  == Loop(childRelationships, processedCount, made, Running)
      {
        ghost var st := Run(config, client.server, sObjectName, currentDepth, entries[..i]);
        assert entries[..i + 1] == entries[..i] + [entries[i]];
        Properties.RunSnoc(config, client.server, sObjectName, currentDepth, entries[..i], entries[i]);
        if CapReached(config, processedCount) {
          Properties.Absorbing(config, client.server, sObjectName, currentDepth, entries[..i + 1], entries[i + 1..]);
          assert entries[..i + 1] + entries[i + 1..] == entries;
          break;
        }
        match ReadEntry(entries[i]) {
        case Skipped =>
          assert Step(config, client.server, sObjectName, currentDepth, st, entries[i]) == st;
        case Thrown =>
          Properties.Absorbing(config, client.server, sObjectName, currentDepth, entries[..i + 1], entries[i + 1..]);
          assert entries[..i + 1] + entries[i + 1..] == entries;
          return None;
        case Read(rel) =>
          var node := Node(rel.fieldName, rel.associateEntityType, rel.associateParentEntity, None);
          if rel.childObjectName == sObjectName {
            childRelationships := childRelationships[rel.childObjectName := node];
            assert Step(config, client.server, sObjectName, currentDepth, st, entries[i])
                   == Loop(childRelationships, processedCount, made, Running);
          } else {
            ghost var nestedVisit := Query(config, client.server, rel.childObjectName, currentDepth + 1);
            ghost var before := client.requests;
            var nested := QuerySalesforceObject(rel.childObjectName, currentDepth + 1);
            if |nested| > 0 {
              node := node.(childRelationships := Some(nested));
            }
            childRelationships := childRelationships[rel.childObjectName := node];
            processedCount := processedCount + 1;
            assert client.requests == before + nestedVisit.requests;
            Properties.AppendAssoc(old(client.requests), made, nestedVisit.requests);
            made := made + nestedVisit.requests;
            assert Step(config, client.server, sObjectName, currentDepth, st, entries[i])
                   == Loop(childRelationships, processedCount, made, Running);
          }
        }
        i := i + 1;
      }
      assert i == |entries| ==> entries[..i] == entries;
      return Some(childRelationships);
    }

    /** The root call: the initial object paired with its relationships at depth 1. */
    method ProcessChildSObjects() returns (result: ResultTree)
      modifies client
      ensures result == Extract(config, client.server)
      ensures client.requests == old(client.requests) + Query(config, client.server, config.initialSObject, 1).requests
    {
      var rootData := QuerySalesforceObject(config.initialSObject, 1);
      result := ResultTree(config.initialSObject, rootData);
    }
  }
}
