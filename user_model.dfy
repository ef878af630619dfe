/**
 * The User document (models/user.js): its paths, the defaults a new
 * document receives, and the pre-save hook that derives `isProfileComplete`.
 */
module UserModel {
  import opened Http

  /** One accepted-ride offer pushed onto `acceptedRides`; each entry is what the caller sent. */
  datatype Offer = Offer(
    driverName: Option<string>,
    driverPhone: Option<string>,
    location: Option<string>,
    time: Option<string>,
    rate: Option<string>)

  /** A stored user. `otpExpires` is a time in milliseconds since the epoch. */
  datatype User = User(
    token: Option<string>,
    name: Option<string>,
    branch: Option<string>,
    year: Option<string>,
    phone: Option<string>,
    vehicleNo: Option<string>,
    acceptedRides: seq<Offer>,
    otp: Option<string>,
    otpExpires: Option<int>,
    isProfileComplete: bool)

  /** The condition the pre-save hook tests: name, branch and year are all truthy. */
  predicate HasProfileFields(u: User)
  {
    Truthy(u.name) && Truthy(u.branch) && Truthy(u.year)
  }

  /** The stored flag says what the derivation rule would say. */
  predicate FlagAgrees(u: User)
  {
    u.isProfileComplete == HasProfileFields(u)
  }

  /** Every user's flag agrees with the derivation rule. */
  predicate AllFlagsAgree(users: seq<User>)
  {
    forall j :: 0 <= j < |users| ==> FlagAgrees(users[j])
  }

  /**
   * A document inserted with only `phone` set by its creator: the schema
   * fills `token` with a fresh identifier, `acceptedRides` with [] and
   * `isProfileComplete` with false; no other path is set.
   */
  function Inserted(phone: string, token: string): (u: User)
    ensures u.token == Some(token) && u.phone == Some(phone)
    ensures u.acceptedRides == [] && !u.isProfileComplete
    ensures u.otp == None && u.otpExpires == None
    ensures FlagAgrees(u)
  {
    User(Some(token), None, None, None, Some(phone), None, [], None, None, false)
  }

  /**
   * The pre-save hook: overwrite `isProfileComplete` with the derivation
   * rule and touch nothing else.
   */
  function PreSave(u: User): (r: User)
    ensures FlagAgrees(r)
    ensures r.(isProfileComplete := u.isProfileComplete) == u
  {
    u.(isProfileComplete := Truthy(u.name) && Truthy(u.branch) && Truthy(u.year))
  }

  /** Running the hook twice is running it once, and it changes a document exactly when the flag disagrees. */
  lemma PreSaveIdempotent(u: User)
    ensures PreSave(PreSave(u)) == PreSave(u)
    ensures PreSave(u) == u <==> FlagAgrees(u)
  {
  }
}
