/**
 * The two collections as an in-memory store. Documents are kept in natural
 * (insertion) order, so `findOne` is "the first document that matches".
 */
module Store {
  import opened Http
  import opened UserModel
  import opened RequestModel

  /** `findOne`: the index of the first document that matches, if any. */
  function FirstMatch<T>(docs: seq<T>, matches: T -> bool): (r: Option<nat>)
    ensures r.Some? ==> r.value < |docs| && matches(docs[r.value])
    ensures r.Some? ==> forall j :: 0 <= j < r.value ==> !matches(docs[j])
    ensures r.None? <==> forall j :: 0 <= j < |docs| ==> !matches(docs[j])
  {
    if docs == [] then None
    else if matches(docs[0]) then Some(0)
    else match FirstMatch(docs[1..], matches)
      case None => None
      case Some(k) => Some(k + 1)
  }

  /** `User.findOne({ phone })`. */
  function ByPhone(users: seq<User>, phone: string): Option<nat>
  {
    FirstMatch(users, (u: User) => u.phone == Some(phone))
  }

  /** `User.findOne({ token })`; a `token` of `undefined` matches only documents without one. */
  function ByToken(users: seq<User>, token: Option<string>): Option<nat>
  {
    FirstMatch(users, (u: User) => u.token == token)
  }

  /** `Request.findOne({ requestID })`. */
  function ById(requests: seq<Request>, id: string): Option<nat>
  {
    FirstMatch(requests, (q: Request) => q.requestID == id)
  }

  /** Every token held by a user. */
  function Tokens(users: seq<User>): set<string>
  {
    set u | u in users && u.token.Some? :: u.token.value
  }

  /** Every requestID in the collection. */
  function Ids(requests: seq<Request>): set<string>
  {
    set q | q in requests :: q.requestID
  }

  /** The `unique: true` index on `User.token`. */
  ghost predicate UniqueTokens(users: seq<User>)
  {
    forall i, j :: 0 <= i < j < |users| && users[i].token.Some? ==> users[i].token != users[j].token
  }

  /** The `unique: true` index on `Request.requestID`. */
  ghost predicate UniqueIds(requests: seq<Request>)
  {
    forall i, j :: 0 <= i < j < |requests| ==> requests[i].requestID != requests[j].requestID
  }

  /** The database: the `users` and `requests` collections. */
  class Db {
    var users: seq<User>
    var requests: seq<Request>

    /** The unique indexes hold, and every stored request passed validation. */
    ghost predicate Valid()
      reads this
    {
      && UniqueTokens(users)
      && UniqueIds(requests)
      && forall q :: q in requests ==> WellFormed(q)
    }

    constructor ()
      ensures Valid() && users == [] && requests == []
    {
      users := [];
      requests := [];
    }

    /**
     * `document.save()` on the user at index `i`: the pre-save hook runs on
     * the document, and the result replaces the stored one.
     */
    method SaveUser(i: nat, doc: User) returns (saved: User)
      requires i < |users|
      modifies this`users
      ensures saved == PreSave(doc)
      ensures users == old(users)[i := saved]
    {
      saved := PreSave(doc);
      users := users[i := saved];
    }
  }
}
