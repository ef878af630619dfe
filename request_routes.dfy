/**
 * The request router (routes/requestRoutes.js): create a ride request, list
 * everybody else's or one's own newest first, and delete by requestID.
 */
module RequestRoutes {
  import opened Http
  import opened UserModel
  import opened RequestModel
  import opened Store

  /** The start of the message of the validation error `save()` throws. */
  const ValidationFailed := "Request validation failed"
  const RequestDeleted := "Request deleted successfully"

  /** The 201 reply: every path but `time`. */
  datatype CreatedView = CreatedView(requestID: string, userId: string, location: string, createdAt: int)

  /** An entry of GET /myrequest/:userID: every path but `userId`. */
  datatype OwnView = OwnView(requestID: string, location: string, time: string, createdAt: int)

  /** The acknowledgement `deleteOne` resolves to. */
  datatype DeleteResult = DeleteResult(acknowledged: bool, deletedCount: nat)

  // ---------------------------------------------------------------------
  // POST /

  /**
   * Create a request. No user holding `userId` is 404; a missing or empty
   * required path fails validation at `save()` and is 500; in both cases
   * nothing is written. Otherwise exactly one request, with the fresh
   * identifier and `createdAt = now`, is appended.
   */
  function CreateStep(users: seq<User>, requests: seq<Request>, form: RequestForm, id: string, now: int)
    : (o: Outcome<CreatedView, seq<Request>>)
    ensures o.response.Failure? ==> o.state == requests
    ensures o.response.Failure? ==> o.response.status in {NotFound, ServerError}
    ensures o.response.Success? <==> o.response.status == Created
    ensures o.response.status == NotFound <==> ByToken(users, form.userId).None?
    ensures o.response.status == ServerError <==>
      ByToken(users, form.userId).Some? && !(Truthy(form.userId) && Truthy(form.location) && Truthy(form.time))
    ensures o.response.Success? ==>
      && |o.state| == |requests| + 1
      && o.state[..|requests|] == requests
      && var q := o.state[|requests|];
      && q == Request(id, form.userId.value, form.location.value, form.time.value, now)
      && WellFormed(q)
      && o.response.body == CreatedView(q.requestID, q.userId, q.location, q.createdAt)
  {
    match ByToken(users, form.userId)
    case None => Outcome(Failure(NotFound, UserNotFound), requests)
    case Some(_) =>
      match Build(form, id, now)
      case None => Outcome(Failure(ServerError, ValidationFailed), requests)
      case Some(q) =>
        var after := requests + [q];
        assert after[..|requests|] == requests && after[|requests|] == q;
        Outcome(Success(Created, CreatedView(q.requestID, q.userId, q.location, q.createdAt)), after)
  }

  // ---------------------------------------------------------------------
  // Sorting by `createdAt`, newest first

  predicate NewestFirst(s: seq<Request>)
  {
    forall i, j :: 0 <= i < j < |s| ==> s[i].createdAt >= s[j].createdAt
  }

  /** Putting a request no older than any of a newest-first sequence in front keeps it newest-first. */
  lemma PrependKeepsOrder(x: Request, s: seq<Request>)
    requires NewestFirst(s)
    requires forall k :: 0 <= k < |s| ==> x.createdAt >= s[k].createdAt
    ensures NewestFirst([x] + s)
  {
  }

  /** A bound on every element of `tail` and on `q` bounds every element of a sequence holding just those. */
  lemma BoundedByHead(x: Request, rest: seq<Request>, tail: seq<Request>, q: Request)
    requires multiset(rest) == multiset(tail) + multiset{q}
    requires forall k :: 0 <= k < |tail| ==> x.createdAt >= tail[k].createdAt
    requires x.createdAt >= q.createdAt
    ensures forall k :: 0 <= k < |rest| ==> x.createdAt >= rest[k].createdAt
  {
    forall k | 0 <= k < |rest| ensures x.createdAt >= rest[k].createdAt {
      assert rest[k] in multiset(rest);
      if rest[k] != q {
        assert rest[k] in multiset(tail);
        var m :| 0 <= m < |tail| && tail[m] == rest[k];
      }
    }
  }

  /** Place one request in a newest-first sequence. */
  function Insert(q: Request, s: seq<Request>): (r: seq<Request>)
    requires NewestFirst(s)
    ensures NewestFirst(r)
    ensures multiset(r) == multiset(s) + multiset{q}
  {
    if s == [] || q.createdAt >= s[0].createdAt then
      PrependKeepsOrder(q, s);
      [q] + s
    else
      var rest := Insert(q, s[1..]);
      assert s == [s[0]] + s[1..];
      BoundedByHead(s[0], rest, s[1..], q);
      PrependKeepsOrder(s[0], rest);
      [s[0]] + rest
  }

  /** `.sort({ createdAt: -1 })`: a newest-first arrangement of the same requests. */
  function SortNewestFirst(s: seq<Request>): (r: seq<Request>)
    ensures NewestFirst(r)
    ensures multiset(r) == multiset(s)
  {
    if s == [] then []
    else
      assert s == [s[0]] + s[1..];
      Insert(s[0], SortNewestFirst(s[1..]))
  }

  /** `find(filter)`: the requests that satisfy a filter, each as often as it is stored. */
  function Select(s: seq<Request>, keep: Request -> bool): (r: seq<Request>)
    ensures forall q :: multiset(r)[q] == if keep(q) then multiset(s)[q] else 0
  {
    if s == [] then []
    else
      assert s == [s[0]] + s[1..];
      if keep(s[0]) then [s[0]] + Select(s[1..], keep) else Select(s[1..], keep)
  }

  // ---------------------------------------------------------------------
  // GET /:token

  /** Every request not posted by `token`, newest first, all five paths. */
  function ListOthers(requests: seq<Request>, token: string): (r: seq<Request>)
    ensures NewestFirst(r)
    ensures forall q :: multiset(r)[q] == if q.userId != token then multiset(requests)[q] else 0
  {
    SortNewestFirst(Select(requests, (q: Request) => q.userId != token))
  }

  // ---------------------------------------------------------------------
  // GET /myrequest/:userID

  function Strip(q: Request): OwnView
  {
    OwnView(q.requestID, q.location, q.time, q.createdAt)
  }

  /** The request of `userId` that an own-list entry stands for. */
  function Restore(v: OwnView, userId: string): Request
  {
    Request(v.requestID, userId, v.location, v.time, v.createdAt)
  }

  /** The `.map` that drops `userId` from a list of one user's requests; nothing is lost. */
  function StripAll(s: seq<Request>, userId: string): (r: seq<OwnView>)
    requires forall k :: 0 <= k < |s| ==> s[k].userId == userId
    ensures |r| == |s|
    ensures forall k :: 0 <= k < |r| ==> r[k].createdAt == s[k].createdAt
    ensures forall v :: multiset(r)[v] == multiset(s)[Restore(v, userId)]
  {
    if s == [] then []
    else
      var rest := StripAll(s[1..], userId);
      var r := [Strip(s[0])] + rest;
      assert s == [s[0]] + s[1..];
      forall v ensures multiset(r)[v] == multiset(s)[Restore(v, userId)] {
        assert multiset(r) == multiset{Strip(s[0])} + multiset(rest);
        assert multiset(s) == multiset{s[0]} + multiset(s[1..]);
        assert Strip(s[0]) == v <==> s[0] == Restore(v, userId);
      }
      r
  }

  /** Every request posted by `userID`, newest first, without `userId`. */
  function ListOwn(requests: seq<Request>, userID: string): (r: seq<OwnView>)
    ensures forall i, j :: 0 <= i < j < |r| ==> r[i].createdAt >= r[j].createdAt
    ensures forall v :: multiset(r)[v] == multiset(requests)[Restore(v, userID)]
  {
    var own := SortNewestFirst(Select(requests, (q: Request) => q.userId == userID));
    forall k | 0 <= k < |own|
      ensures own[k].userId == userID
    {
      assert own[k] in multiset(own);
    }
    StripAll(own, userID)
  }

  // ---------------------------------------------------------------------
  // DELETE /:requestID

  /** `deleteOne({ requestID })`: remove the first match, if any, and acknowledge. */
  function DeleteOne(requests: seq<Request>, id: string): (r: (seq<Request>, DeleteResult))
    ensures r.1.acknowledged
    ensures r.1.deletedCount == 1 <==> id in Ids(requests)
    ensures r.1.deletedCount == 0 <==> id !in Ids(requests)
    ensures multiset(r.0) + (if r.1.deletedCount == 1 then multiset{requests[ById(requests, id).value]} else multiset{})
            == multiset(requests)
  {
    match ById(requests, id)
    case None =>
      assert id !in Ids(requests);
      (requests, DeleteResult(true, 0))
    case Some(i) =>
      assert requests == requests[..i] + [requests[i]] + requests[i + 1..];
      (requests[..i] + requests[i + 1..], DeleteResult(true, 1))
  }

  /**
   * Delete a request. The handler tests the acknowledgement object for
   * falsiness, which it never is, so the reply is always the success
   * message, whether or not anything matched.
   */
  function DeleteStep(requests: seq<Request>, id: string): (o: Outcome<string, seq<Request>>)
    ensures o.response == Success(Ok, RequestDeleted)
    ensures id !in Ids(requests) ==> o.state == requests
  {
    var (remaining, ack) := DeleteOne(requests, id);
    Outcome(Success(Ok, RequestDeleted), remaining)
  }

  // ---------------------------------------------------------------------
  // The handlers that write, as reads and writes on the store

  /** POST /: look the user up, build and validate the document, save it. */
  method Create(db: Db, form: RequestForm, id: string, now: int) returns (r: Response<CreatedView>)
    requires db.Valid()
    requires id !in Ids(db.requests)
    modifies db
    ensures db.Valid()
    ensures Outcome(r, db.requests) == CreateStep(old(db.users), old(db.requests), form, id, now)
    ensures db.users == old(db.users)
  {
    var user := ByToken(db.users, form.userId);
    if user.None? {
      return Failure(NotFound, UserNotFound);
    }
    var built := Build(form, id, now);
    if built.None? {
      return Failure(ServerError, ValidationFailed);
    }
    var q := built.value;
    ghost var before := db.requests;
    db.requests := db.requests + [q];
    forall i, j | 0 <= i < j < |db.requests|
      ensures db.requests[i].requestID != db.requests[j].requestID
    {
      if j == |before| {
        assert before[i] in before;
      }
    }
    r := Success(Created, CreatedView(q.requestID, q.userId, q.location, q.createdAt));
  }

  /** DELETE /:requestID. */
  method Delete(db: Db, id: string) returns (r: Response<string>)
    requires db.Valid()
    modifies db
    ensures db.Valid()
    ensures Outcome(r, db.requests) == DeleteStep(old(db.requests), id)
    ensures db.users == old(db.users)
  {
    var result := DeleteOne(db.requests, id);
    DeleteKeepsUnique(db.requests, id);
    db.requests := result.0;
    // `if (!request)` tests the acknowledgement `result.1`, an object, which
    // is never falsy: the 404 branch is never taken.
    r := Success(Ok, RequestDeleted);
  }

  // ---------------------------------------------------------------------
  // Properties

  /** Deleting never breaks the unique index or the required paths. */
  lemma DeleteKeepsUnique(requests: seq<Request>, id: string)
    requires UniqueIds(requests) && forall q :: q in requests ==> WellFormed(q)
    ensures UniqueIds(DeleteOne(requests, id).0)
    ensures forall q :: q in DeleteOne(requests, id).0 ==> WellFormed(q)
  {
  }

  /**
   * With requestIDs unique, a deletion leaves no request with that id and
   * every other request exactly as often as before.
   */
  lemma DeleteRemovesRequest(requests: seq<Request>, id: string)
    requires UniqueIds(requests)
    ensures forall q :: multiset(DeleteStep(requests, id).state)[q] ==
                        if q.requestID == id then 0 else multiset(requests)[q]
  {
  }

  /** Creating a request and deleting it by its new id gives back the collection. */
  lemma DeleteUndoesCreate(users: seq<User>, requests: seq<Request>, form: RequestForm, id: string, now: int)
    requires id !in Ids(requests)
    requires CreateStep(users, requests, form, id, now).response.Success?
    ensures DeleteStep(CreateStep(users, requests, form, id, now).state, id).state == requests
  {
  }

  /**
   * A created request shows up in its author's own list and in every other
   * user's list of others' requests, and not in its author's list of others'.
   */
  lemma CreatedRequestIsListed(users: seq<User>, requests: seq<Request>, form: RequestForm, id: string, now: int, other: string)
    requires CreateStep(users, requests, form, id, now).response.Success?
    ensures var after := CreateStep(users, requests, form, id, now).state;
            var q := after[|requests|];
            && Strip(q) in ListOwn(after, q.userId)
            && q !in ListOthers(after, q.userId)
            && (other != q.userId ==> q in ListOthers(after, other))
  {
    var after := CreateStep(users, requests, form, id, now).state;
    var q := after[|requests|];
    assert q in after;
    assert Restore(Strip(q), q.userId) == q;
    assert multiset(ListOwn(after, q.userId))[Strip(q)] > 0;
    assert multiset(ListOthers(after, q.userId))[q] == 0;
    if other != q.userId {
      assert multiset(ListOthers(after, other))[q] > 0;
    }
  }

  /** The two lists split the collection: every request is in exactly one of them. */
  lemma ListsSplitCollection(requests: seq<Request>, token: string)
    ensures |ListOwn(requests, token)| + |ListOthers(requests, token)| == |requests|
  {
    var own := Select(requests, (q: Request) => q.userId == token);
    var others := Select(requests, (q: Request) => q.userId != token);
    assert multiset(own) + multiset(others) == multiset(requests);
    assert |multiset(own) + multiset(others)| == |multiset(own)| + |multiset(others)|;
  }
}
