/** The JSON shapes the reconciliation job reads from, and writes back to,
    the persons collection of the research-information API, reduced to the
    members the job inspects. Everything else in a JSON object is carried
    through verbatim as `Members`. */
module Records {

  datatype Option<+T> = None | Some(value: T)

  /** The other members of a JSON object: never inspected, only carried along. */
  type Members = map<string, string>

  /** The `jobTitle` object of an association; `uri` is the classification code. */
  datatype JobTitle = JobTitle(uri: Option<string>, rest: Members)

  /** One entry of a person's `staffOrganizationAssociations` list. */
  datatype Association = Association(jobTitle: Option<JobTitle>, rest: Members)

  /** A person record as it appears in a page of the collection. An absent
      `staffOrganizationAssociations` member reads as the empty list. */
  datatype Person = Person(uuid: string, associations: seq<Association>)

  /** The decoded JSON object of a page: its `count` and `items` members,
      each possibly absent, and whatever else it holds. */
  datatype Body = Body(count: Option<int>, items: Option<seq<Person>>, rest: Members)

  /** A decoded body is falsy in the source exactly when it is the empty object. */
  predicate IsEmpty(b: Body)
    ensures IsEmpty(b) <==> b == Body(None, None, map[])
  {
    b.count.None? && b.items.None? && b.rest == map[]
  }

  /** `response.get("count", 0)`: the page's `count`, or 0 when it is absent. */
  function CountOf(b: Body): (n: int)
    ensures b.count.Some? ==> n == b.count.value
    ensures b.count.None? ==> n == 0
  {
    match b.count
    case Some(n) => n
    case None => 0
  }

  /** `response.get("items", [])`: the page's persons, or none when the
      member is absent. */
  function ItemsOf(b: Body): (ps: seq<Person>)
    ensures b.items.Some? ==> ps == b.items.value
    ensures b.items.None? ==> ps == []
  {
    match b.items
    case Some(ps) => ps
    case None => []
  }

  /** What one GET attempt gets back: a response with a status code and a body
      that is `None` when it does not decode as JSON, or a timeout, or another
      transport failure. */
  datatype GetReply =
    | GetResponse(status: int, body: Option<Body>)
    | GetTimeout
    | GetConnectionError

  /** A GET attempt succeeds when the status is not a 4xx or 5xx error (the
      status check) and the body decodes. */
  predicate GetSucceeded(r: GetReply)
    ensures GetSucceeded(r) ==> r.GetResponse? && r.body.Some?
    ensures r.GetResponse? && 400 <= r.status < 600 ==> !GetSucceeded(r)
  {
    r.GetResponse? && !(400 <= r.status < 600) && r.body.Some?
  }

  /** What one PUT attempt gets back. */
  datatype PutReply =
    | PutResponse(status: int)
    | PutTimeout
    | PutConnectionError

  /** Only status 200 counts as a successful PUT. */
  predicate PutSucceeded(r: PutReply)
    ensures PutSucceeded(r) ==> r.PutResponse?
    ensures r.PutResponse? && r.status != 200 ==> !PutSucceeded(r)
  {
    r.PutResponse? && r.status == 200
  }

  /** An HTTP request sent to the remote collection. */
  datatype Request =
    | HttpGet(offset: int, size: int)
    | HttpPut(uuid: string, associations: seq<Association>)
}
