/** The sObject describe endpoint as the traversal sees it: the parsed shape of
    a describe response, the reading of one `childRelationships` element, and
    the HTTP client, whose network round trip is an oracle that answers every
    request for a given object name the same way and records each request. */
module DescribeApi {

  datatype Option<+T> = None | Some(value: T)

  /** One property of a JSON object, as `TryGetProperty` and `GetString` see it. */
  datatype Prop =
    | Absent        // `TryGetProperty` returns false
    | Null          // JSON null: `GetString` returns null
    | Str(s: string)
    | NonString     // a number, boolean, object or array: `GetString` throws

  /** One element of the `childRelationships` array. */
  datatype Entry =
    | NotAnObject   // `TryGetProperty` on a non-object element throws
    | JsonObject(childSObject: Prop, field: Prop, associateEntityType: Prop, associateParentEntity: Prop)

  /** The body of a successful response. */
  datatype Body =
    | Unparsable    // not JSON, root not an object, or `childRelationships` not an array: parsing or enumeration throws
    | DescribeResult(childRelationships: Option<seq<Entry>>)

  /** What one describe request yields. */
  datatype Response =
    | TransportFault                       // `SendAsync` throws
    | HttpResponse(status: int, body: Body)

  /** The whole org as the traversal sees it: the answer to a describe of each object name. */
  type Server = string -> Response

  predicate IsSuccessStatusCode(status: int)
  {
    200 <= status <= 299
  }

  /** The attributes a relationship element contributes once read. */
  datatype Relationship = Relationship(
    childObjectName: string,
    fieldName: string,
    associateEntityType: string,
    associateParentEntity: string)

  /** The outcome of reading one element: skipped, an exception, or a relationship. */
  datatype Reading = Skipped | Thrown | Read(rel: Relationship)

  /** `GetString() ?? ""` on a property; an absent associate property reads as "" too.
      None when `GetString` throws. */
  function StringOrEmpty(p: Prop): (r: Option<string>)
    ensures r.None? <==> p.NonString?
    ensures r.Some? ==> r.value == Shown(p)
  {
    match p
    case Absent => Some("")
    case Null => Some("")
    case Str(s) => Some(s)
    case NonString => None
  }

  /** The string a property that reads without an exception stands for. */
  function Shown(p: Prop): string
  {
    if p.Str? then p.s else ""
  }

  /** Reads one `childRelationships` element in the order the source does:
      both `childSObject` and `field` must be present, then the four values are
      read, the two associate properties defaulting to "". */
  function ReadEntry(e: Entry): (r: Reading)
    ensures r.Skipped? <==> e.JsonObject? && (e.childSObject.Absent? || e.field.Absent?)
    ensures r.Thrown? <==>
      e.NotAnObject? ||
      (!e.childSObject.Absent? && !e.field.Absent? &&
       (e.childSObject.NonString? || e.field.NonString? ||
        e.associateEntityType.NonString? || e.associateParentEntity.NonString?))
    ensures r.Read? ==>
      r.rel == Relationship(Shown(e.childSObject), Shown(e.field),
                            Shown(e.associateEntityType), Shown(e.associateParentEntity))
  {
    match e
    case NotAnObject => Thrown
    case JsonObject(child, field, assocType, assocParent) =>
      if child.Absent? || field.Absent? then Skipped
      else
        match (StringOrEmpty(child), StringOrEmpty(field), StringOrEmpty(assocType), StringOrEmpty(assocParent))
        case (Some(c), Some(f), Some(t), Some(p)) => Read(Relationship(c, f, t, p))
        case _ => Thrown
  }

  /** The shared HTTP client together with the org it talks to. */
  class DescribeClient {
    const server: Server
    /** Object names whose describe was requested, in request order. */
    ghost var requests: seq<string>

    constructor (server: Server)
      ensures this.server == server && requests == []
    {
      this.server := server;
      requests := [];
    }

    /** GET {instanceUrl}/services/data/{apiVersion}/sobjects/{sObjectName}/describe/ */
    method Describe(sObjectName: string) returns (response: Response)
      modifies this
      ensures response == server(sObjectName)
      ensures requests == old(requests) + [sObjectName]
    {
      response := server(sObjectName);
      requests := requests + [sObjectName];
    }
  }
}
