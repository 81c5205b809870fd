/** The remote collection client: `fetch_persons` and `update_person`, each a
    bounded retry loop, against a scripted remote store that answers every
    HTTP attempt with the next reply of a script. */
module Remote {
  import opened Records

  /** MAX_RETRIES: the attempt budget of both retry loops. */
  const MaxRetries: nat := 3

  /** `s` without its first `n` elements; empty once `n` passes its end. */
  function Drop<T>(s: seq<T>, n: nat): (r: seq<T>)
    ensures |r| == if n <= |s| then |s| - n else 0
    ensures forall k | 0 <= k < |r| :: r[k] == s[n + k]
  {
    if n <= |s| then s[n..] else []
  }

  /** `n` copies of `x`. */
  function Repeat<T>(x: T, n: nat): (r: seq<T>)
    ensures |r| == n && forall k | 0 <= k < n :: r[k] == x
  {
    seq(n, _ => x)
  }

  /** The reply to the `i`-th GET attempt from now; once the script is
      exhausted every attempt times out. */
  function GetReplyAt(replies: seq<GetReply>, i: nat): (r: GetReply)
  {
    if i < |replies| then replies[i] else GetTimeout
  }

  /** The reply to the `i`-th PUT attempt from now. */
  function PutReplyAt(replies: seq<PutReply>, i: nat): (r: PutReply)
  {
    if i < |replies| then replies[i] else PutTimeout
  }

  /** What a call of `fetch_persons` returns, and how many GET attempts it makes. */
  datatype Fetched = Fetched(body: Option<Body>, attempts: nat)

  /** The rest of a `fetch_persons` call once `i` attempts have failed: it
      stops at the first successful attempt and gives up after MaxRetries. */
  function FetchFrom(replies: seq<GetReply>, i: nat): (f: Fetched)
    requires i < MaxRetries
    ensures i < f.attempts <= MaxRetries
    ensures forall j | i <= j < f.attempts - 1 :: !GetSucceeded(GetReplyAt(replies, j))
    ensures f.body.Some? <==> GetSucceeded(GetReplyAt(replies, f.attempts - 1))
    ensures f.body.Some? ==> f.body == GetReplyAt(replies, f.attempts - 1).body
    ensures f.body.None? ==> f.attempts == MaxRetries
    decreases MaxRetries - i
  {
    var reply := GetReplyAt(replies, i);
    if GetSucceeded(reply) then Fetched(reply.body, i + 1)
    else if i + 1 == MaxRetries then Fetched(None, MaxRetries)
    else FetchFrom(replies, i + 1)
  }

  /** A whole call of `fetch_persons`. A body can only come from a reply
      that is in the script, so a successful call consumes at least one. */
  function Fetch(replies: seq<GetReply>): (f: Fetched)
    ensures 1 <= f.attempts <= MaxRetries
    ensures f.body.Some? ==> f.attempts <= |replies|
  {
    FetchFrom(replies, 0)
  }

  /** The number of PUT attempts `update_person` makes from attempt `i` on:
      it stops at the first status 200 and gives up after MaxRetries. */
  function PutFrom(replies: seq<PutReply>, i: nat): (n: nat)
    requires i < MaxRetries
    ensures i < n <= MaxRetries
    ensures forall j | i <= j < n - 1 :: !PutSucceeded(PutReplyAt(replies, j))
    ensures n < MaxRetries ==> PutSucceeded(PutReplyAt(replies, n - 1))
    decreases MaxRetries - i
  {
    if PutSucceeded(PutReplyAt(replies, i)) || i + 1 == MaxRetries then i + 1
    else PutFrom(replies, i + 1)
  }

  /** A call of `update_person` for one person. */
  datatype Update = Update(uuid: string, associations: seq<Association>)

  /** The state of the remote side as the engine sees it: the replies still
      scripted, every HTTP request sent, and (as a trace of the run) every
      call of `fetch_persons` and `update_person`. */
  datatype StoreView = StoreView(
    getReplies: seq<GetReply>,
    putReplies: seq<PutReply>,
    requests: seq<Request>,
    fetchCalls: seq<(int, int)>,
    updateCalls: seq<Update>)

  /** The effect of `fetch_persons(offset, size)` on the remote side, with its result. */
  function FetchEffect(v: StoreView, offset: int, size: int): (r: (Option<Body>, StoreView))
    ensures r.0.Some? ==> |r.1.getReplies| < |v.getReplies|
    ensures r.1.putReplies == v.putReplies && r.1.updateCalls == v.updateCalls
    ensures v.requests <= r.1.requests
    ensures forall k | |v.requests| <= k < |r.1.requests| :: r.1.requests[k] == HttpGet(offset, size)
    ensures r.1.fetchCalls == v.fetchCalls + [(offset, size)]
  {
    var f := Fetch(v.getReplies);
    (f.body, v.(getReplies := Drop(v.getReplies, f.attempts),
                requests := v.requests + Repeat(HttpGet(offset, size), f.attempts),
                fetchCalls := v.fetchCalls + [(offset, size)]))
  }

  /** The effect of `update_person(uuid, associations, dryRun)` on the remote
      side: a dry run sends nothing; otherwise every attempt sends the same
      whole association list. */
  function UpdateEffect(v: StoreView, uuid: string, associations: seq<Association>, dryRun: bool): (r: StoreView)
    ensures r.getReplies == v.getReplies && r.fetchCalls == v.fetchCalls
    ensures r.updateCalls == v.updateCalls + [Update(uuid, associations)]
    ensures dryRun ==> r.requests == v.requests && r.putReplies == v.putReplies
    ensures !dryRun ==> |v.requests| < |r.requests| <= |v.requests| + MaxRetries
    ensures v.requests <= r.requests
    ensures forall k | |v.requests| <= k < |r.requests| :: r.requests[k] == HttpPut(uuid, associations)
  {
    var n := if dryRun then 0 else PutFrom(v.putReplies, 0);
    v.(putReplies := Drop(v.putReplies, n),
       requests := v.requests + Repeat(HttpPut(uuid, associations), n),
       updateCalls := v.updateCalls + [Update(uuid, associations)])
  }

  /** The remote store: a scripted oracle that answers each HTTP attempt with
      the next reply of its script, and the log of what was sent to it. */
  class RemoteStore {
    var getReplies: seq<GetReply>
    var putReplies: seq<PutReply>
    var requests: seq<Request>
    ghost var fetchCalls: seq<(int, int)>
    ghost var updateCalls: seq<Update>

    ghost function View(): StoreView
      reads this
    {
      StoreView(getReplies, putReplies, requests, fetchCalls, updateCalls)
    }

    constructor (gets: seq<GetReply>, puts: seq<PutReply>)
      ensures View() == StoreView(gets, puts, [], [], [])
    {
      getReplies, putReplies, requests := gets, puts, [];
      fetchCalls, updateCalls := [], [];
    }

    /** One GET attempt (`requests.get`). */
    method Get(offset: int, size: int) returns (reply: GetReply)
      modifies this
      ensures reply == GetReplyAt(old(getReplies), 0)
      ensures getReplies == Drop(old(getReplies), 1)
      ensures requests == old(requests) + [HttpGet(offset, size)]
      ensures putReplies == old(putReplies)
      ensures fetchCalls == old(fetchCalls) && updateCalls == old(updateCalls)
    {
      reply := GetReplyAt(getReplies, 0);
      getReplies := Drop(getReplies, 1);
      requests := requests + [HttpGet(offset, size)];
    }

    /** One PUT attempt (`requests.put`). */
    method Put(uuid: string, associations: seq<Association>) returns (reply: PutReply)
      modifies this
      ensures reply == PutReplyAt(old(putReplies), 0)
      ensures putReplies == Drop(old(putReplies), 1)
      ensures requests == old(requests) + [HttpPut(uuid, associations)]
      ensures getReplies == old(getReplies)
      ensures fetchCalls == old(fetchCalls) && updateCalls == old(updateCalls)
    {
      reply := PutReplyAt(putReplies, 0);
      putReplies := Drop(putReplies, 1);
      requests := requests + [HttpPut(uuid, associations)];
    }
  }

  /** `fetch_persons`: up to MaxRetries GET attempts, returning the body of
      the first successful one, or `None` after MaxRetries failures. */
  method FetchPersons(store: RemoteStore, offset: int, size: int) returns (r: Option<Body>)
    modifies store
    ensures (r, store.View()) == FetchEffect(old(store.View()), offset, size)
  {
    ghost var replies := store.getReplies;
    ghost var sent := store.requests;
    store.fetchCalls := store.fetchCalls + [(offset, size)];
    for attempt := 1 to MaxRetries + 1
      invariant store.getReplies == Drop(replies, attempt - 1)
      invariant store.requests == sent + Repeat(HttpGet(offset, size), attempt - 1)
      invariant store.putReplies == old(store.putReplies)
      invariant store.fetchCalls == old(store.fetchCalls) + [(offset, size)]
      invariant store.updateCalls == old(store.updateCalls)
      invariant attempt <= MaxRetries ==> FetchFrom(replies, attempt - 1) == Fetch(replies)
      invariant attempt == MaxRetries + 1 ==> Fetch(replies) == Fetched(None, MaxRetries)
    {
      var reply := store.Get(offset, size);
      assert reply == GetReplyAt(replies, attempt - 1);
      assert Repeat(HttpGet(offset, size), attempt - 1) + [HttpGet(offset, size)] == Repeat(HttpGet(offset, size), attempt);
      if GetSucceeded(reply) {
        assert Fetch(replies) == Fetched(reply.body, attempt);
        r := reply.body;
        assert FetchEffect(old(store.View()), offset, size).1.requests == store.requests;
        return;
      }
    }
    r := None;
  }

  /** `update_person`: nothing in a dry run; otherwise up to MaxRetries PUT
      attempts, each carrying the whole association list, stopping at the
      first status 200. The source returns nothing either way. */
  method UpdatePerson(store: RemoteStore, uuid: string, associations: seq<Association>, dryRun: bool)
    modifies store
    ensures store.View() == UpdateEffect(old(store.View()), uuid, associations, dryRun)
  {
    ghost var replies := store.putReplies;
    ghost var sent := store.requests;
    store.updateCalls := store.updateCalls + [Update(uuid, associations)];
    if dryRun {
      return;
    }
    for attempt := 1 to MaxRetries + 1
      invariant store.putReplies == Drop(replies, attempt - 1)
      invariant store.requests == sent + Repeat(HttpPut(uuid, associations), attempt - 1)
      invariant store.getReplies == old(store.getReplies)
      invariant store.fetchCalls == old(store.fetchCalls)
      invariant store.updateCalls == old(store.updateCalls) + [Update(uuid, associations)]
      invariant attempt <= MaxRetries ==> PutFrom(replies, attempt - 1) == PutFrom(replies, 0)
      invariant attempt == MaxRetries + 1 ==> PutFrom(replies, 0) == MaxRetries
    {
      var reply := store.Put(uuid, associations);
      assert reply == PutReplyAt(replies, attempt - 1);
      assert Repeat(HttpPut(uuid, associations), attempt - 1) + [HttpPut(uuid, associations)] == Repeat(HttpPut(uuid, associations), attempt);
      if reply.PutResponse? && reply.status == 200 {
        return;
      }
    }
  }
}
