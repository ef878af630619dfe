/**
 * The user router (routes/userRoutes.js): OTP issue and login, profile
 * completion, the profile look-ups, and the accepted-ride push.
 *
 * Each handler that writes is given twice: a function `...Step` that says
 * what the reply and the `users` collection afterwards are, and a method on
 * the store that performs the handler's reads and writes in the source's
 * order and is proved to agree with the function. The clock is the
 * parameter `now` (milliseconds), `Math.random()` is a sequence of draws in
 * [0, 1), `crypto.randomBytes(32)` is a sequence of 32 bytes, and `uuidv4()`
 * is a fresh identifier passed in.
 */
module UserRoutes {
  import opened Http
  import opened UserModel
  import opened Store

  // ---------------------------------------------------------------------
  // One-time passcodes

  const OtpLength := 5
  const Digits := "0123456789"
  /** `setMinutes(getMinutes() + 5)`, in milliseconds. */
  const OtpLifetimeMs := 5 * 60 * 1000

  /** A value `Math.random()` can return. */
  predicate IsDraw(d: real)
  {
    0.0 <= d < 1.0
  }

  /** The five draws the OTP loop makes. */
  predicate ValidDraws(draws: seq<real>)
  {
    |draws| == OtpLength && forall k :: 0 <= k < |draws| ==> IsDraw(draws[k])
  }

  /** `digits[Math.floor(d * 10)]`. */
  function DigitFor(d: real): char
    requires IsDraw(d)
  {
    Digits[(d * 10.0).Floor]
  }

  /** The code spelled by a sequence of draws, one digit per draw. */
  function DigitsFor(draws: seq<real>): (s: string)
    requires forall k :: 0 <= k < |draws| ==> IsDraw(draws[k])
    ensures |s| == |draws|
    ensures forall k :: 0 <= k < |s| ==> s[k] in Digits && s[k] == DigitFor(draws[k])
  {
    if draws == [] then "" else DigitsFor(draws[..|draws| - 1]) + [DigitFor(draws[|draws| - 1])]
  }

  /** The OTP loop: five iterations, each appending one digit chosen by a draw. */
  method GenerateOtp(draws: seq<real>) returns (otp: string)
    requires ValidDraws(draws)
    ensures otp == DigitsFor(draws)
    ensures |otp| == OtpLength
    ensures forall k :: 0 <= k < |otp| ==> otp[k] in Digits
  {
    otp := "";
    for i := 0 to OtpLength
      invariant otp == DigitsFor(draws[..i])
    {
      assert draws[..i + 1][..i] == draws[..i];
      otp := otp + [Digits[(draws[i] * 10.0).Floor]];
    }
    assert draws[..OtpLength] == draws;
  }

  /** The stored code has expired: `new Date() > user.otpExpires` (false when it is unset). */
  predicate Expired(u: User, now: int)
  {
    u.otpExpires.Some? && now > u.otpExpires.value
  }

  // ---------------------------------------------------------------------
  // Login tokens

  type Byte = x: int | 0 <= x < 256

  const TokenBytes := 32

  predicate IsHexDigit(c: char)
  {
    '0' <= c <= '9' || 'a' <= c <= 'f'
  }

  /** The lower-case hexadecimal digit for a value below 16. */
  function HexDigit(n: int): (c: char)
    requires 0 <= n < 16
    ensures IsHexDigit(c)
  {
    if n < 10 then (48 + n) as char else (87 + n) as char
  }

  /** The value of a hexadecimal digit. */
  function HexValue(c: char): (n: int)
    requires IsHexDigit(c)
    ensures 0 <= n < 16
  {
    if c <= '9' then c as int - 48 else c as int - 87
  }

  /** `buffer.toString("hex")`: two lower-case digits per byte, high nibble first. */
  function HexEncode(bytes: seq<Byte>): (h: string)
    ensures |h| == 2 * |bytes|
    ensures forall k :: 0 <= k < |h| ==> IsHexDigit(h[k])
  {
    if bytes == [] then "" else [HexDigit(bytes[0] / 16), HexDigit(bytes[0] % 16)] + HexEncode(bytes[1..])
  }

  /** Reading a hexadecimal string back into bytes. */
  function HexDecode(h: string): (bytes: seq<Byte>)
    requires |h| % 2 == 0
    requires forall k :: 0 <= k < |h| ==> IsHexDigit(h[k])
    ensures |bytes| == |h| / 2
  {
    if h == [] then [] else [16 * HexValue(h[0]) + HexValue(h[1])] + HexDecode(h[2..])
  }

  /** Hex encoding loses nothing: decoding gives back the bytes. */
  lemma {:induction false} HexRoundTrip(bytes: seq<Byte>)
    ensures HexDecode(HexEncode(bytes)) == bytes
  {
    if bytes != [] {
      var b := bytes[0];
      HexRoundTrip(bytes[1..]);
      assert HexEncode(bytes)[2..] == HexEncode(bytes[1..]);
      assert HexValue(HexDigit(b / 16)) == b / 16;
      assert HexValue(HexDigit(b % 16)) == b % 16;
    }
  }

  /** `generateNewToken()`: 32 random bytes as 64 lower-case hexadecimal digits. */
  function GenerateNewToken(bytes: seq<Byte>): (t: string)
    requires |bytes| == TokenBytes
    ensures |t| == 2 * TokenBytes
    ensures forall k :: 0 <= k < |t| ==> IsHexDigit(t[k])
    ensures HexDecode(t) == bytes
  {
    HexRoundTrip(bytes);
    HexEncode(bytes)
  }

  // ---------------------------------------------------------------------
  // Replies

  const PhoneRequired := "Phone number is required"
  const PhoneAndOtpRequired := "Phone and OTP are required"
  const InvalidOtp := "Invalid or expired OTP"
  const BodyMissing := "Request body is missing"
  const FieldsRequired := "All fields are required"
  /** What the `ReferenceError` thrown at the unbound name `request` reports. */
  const RequestUndefined := "request is not defined"

  datatype OtpSent = OtpSent(phone: Option<string>, otp: string)

  datatype ProfileView = ProfileView(
    name: Option<string>, branch: Option<string>, year: Option<string>, vehicleNo: Option<string>)

  /** `user` in the login reply: `phone` always, the profile only when it is complete. */
  datatype LoginUser = LoginUser(phone: Option<string>, profile: Option<ProfileView>)

  datatype Login = Login(token: string, isProfileComplete: bool, user: LoginUser)

  /** The body of POST /complete-profile. */
  datatype ProfileForm = ProfileForm(
    token: Option<string>, name: Option<string>, branch: Option<string>,
    year: Option<string>, vehicleNo: Option<string>)

  datatype Card = Card(
    name: Option<string>, branch: Option<string>, year: Option<string>,
    phone: Option<string>, vehicleNo: Option<string>)

  datatype ProfileSaved = ProfileSaved(token: string, user: Card)

  datatype UserInfo = UserInfo(
    name: Option<string>, branch: Option<string>, year: Option<string>,
    phone: Option<string>, vehicleNo: Option<string>, acceptedRides: seq<Offer>)

  datatype PublicUser = PublicUser(
    token: Option<string>, name: Option<string>, branch: Option<string>, year: Option<string>,
    phone: Option<string>, vehicleNo: Option<string>, acceptedRides: seq<Offer>)

  datatype RideList = RideList(token: Option<string>, name: Option<string>, acceptedRides: seq<Offer>)

  function CardOf(u: User): Card
  {
    Card(u.name, u.branch, u.year, u.phone, u.vehicleNo)
  }

  // ---------------------------------------------------------------------
  // POST /send-otp

  /**
   * Issue a code: a falsy phone is refused before the store is touched;
   * otherwise the first user with that phone, or a newly inserted one, gets
   * the code and an expiry five minutes from now, and nothing else changes.
   */
  function SendOtpStep(users: seq<User>, phone: Option<string>, draws: seq<real>, now: int, newToken: string)
    : (o: Outcome<OtpSent, seq<User>>)
    requires ValidDraws(draws)
    ensures !Truthy(phone) ==> o == Outcome(Failure(BadRequest, PhoneRequired), users)
    ensures Truthy(phone) ==> o.response == Success(Ok, OtpSent(phone, DigitsFor(draws)))
    ensures Truthy(phone) ==>
      && ByPhone(o.state, phone.value).Some?
      && var i := ByPhone(o.state, phone.value).value;
      && o.state[i].otp == Some(DigitsFor(draws))
      && o.state[i].otpExpires == Some(now + OtpLifetimeMs)
      && |o.state| == (if i < |users| then |users| else |users| + 1)
      && (forall j :: 0 <= j < |users| && j != i ==> o.state[j] == users[j])
      && (i < |users| ==> ByPhone(users, phone.value) == Some(i)
                          && o.state[i].(otp := users[i].otp, otpExpires := users[i].otpExpires) == users[i])
      && (i == |users| ==> ByPhone(users, phone.value).None?
                           && o.state[i].(otp := None, otpExpires := None) == Inserted(phone.value, newToken))
  {
    if !Truthy(phone) then
      Outcome(Failure(BadRequest, PhoneRequired), users)
    else
      var otp := DigitsFor(draws);
      var expires := now + OtpLifetimeMs;
      match ByPhone(users, phone.value)
      case Some(i) =>
        var u := users[i].(otp := Some(otp), otpExpires := Some(expires));
        var after := users[i := u];
        assert after[i] == u;
        Outcome(Success(Ok, OtpSent(u.phone, otp)), after)
      case None =>
        var u := Inserted(phone.value, newToken).(otp := Some(otp), otpExpires := Some(expires));
        var after := users + [u];
        assert after[|users|] == u;
        Outcome(Success(Ok, OtpSent(u.phone, otp)), after)
  }

  // ---------------------------------------------------------------------
  // POST /verify-otp

  /**
   * Log in. Errors come in this order and change nothing: a falsy phone or
   * code (400), no user with that phone (404), a code that differs from the
   * stored one or has expired (401). On success the stored code and expiry
   * are cleared, the user keeps a truthy token or is given a new one, the
   * reply carries the stored token, and the profile flag it reports is the
   * one the pre-save hook derives.
   */
  function VerifyOtpStep(users: seq<User>, phone: Option<string>, otp: Option<string>, now: int, tokenBytes: seq<Byte>)
    : (o: Outcome<Login, seq<User>>)
    requires |tokenBytes| == TokenBytes
    ensures o.response.Failure? ==> o.state == users
    ensures o.response.Failure? ==> o.response.status in {BadRequest, NotFound, Unauthorized}
    ensures o.response.Success? <==> o.response.status == Ok
    ensures o.response.status == BadRequest <==> !Truthy(phone) || !Truthy(otp)
    ensures o.response.status == NotFound <==>
      Truthy(phone) && Truthy(otp) && ByPhone(users, phone.value).None?
    ensures o.response.status == Unauthorized <==>
      && Truthy(phone) && Truthy(otp) && ByPhone(users, phone.value).Some?
      && var u := users[ByPhone(users, phone.value).value];
         u.otp != otp || Expired(u, now)
    ensures o.response.Success? ==>
      && Truthy(phone) && ByPhone(users, phone.value).Some?
      && var i := ByPhone(users, phone.value).value;
      && var login := o.response.body;
      && |o.state| == |users|
      && (forall j :: 0 <= j < |users| && j != i ==> o.state[j] == users[j])
      && o.state[i].otp == None && o.state[i].otpExpires == None
      && o.state[i].token == Some(login.token)
      && (Truthy(users[i].token) ==> login.token == users[i].token.value)
      && (!Truthy(users[i].token) ==> login.token == GenerateNewToken(tokenBytes))
      && o.state[i] == PreSave(users[i].(otp := None, otpExpires := None, token := Some(login.token)))
      && login.isProfileComplete == HasProfileFields(users[i])
      && login.user.phone == users[i].phone
      && (login.user.profile.Some? <==> login.isProfileComplete)
      && (login.user.profile.Some? ==>
            login.user.profile.value == ProfileView(users[i].name, users[i].branch, users[i].year, users[i].vehicleNo))
  {
    if !Truthy(phone) || !Truthy(otp) then
      Outcome(Failure(BadRequest, PhoneAndOtpRequired), users)
    else match ByPhone(users, phone.value)
      case None => Outcome(Failure(NotFound, UserNotFound), users)
      case Some(i) =>
        var u := users[i];
        if u.otp != otp || Expired(u, now) then
          Outcome(Failure(Unauthorized, InvalidOtp), users)
        else
          var first := PreSave(u.(otp := None, otpExpires := None));
          var isProfileComplete := first.isProfileComplete;
          var token := if Truthy(first.token) then first.token.value else GenerateNewToken(tokenBytes);
          var second := PreSave(first.(token := Some(token)));
          var view := if isProfileComplete
            then Some(ProfileView(second.name, second.branch, second.year, second.vehicleNo))
            else None;
          var after := users[i := second];
          assert after[i] == second;
          Outcome(Success(Ok, Login(token, isProfileComplete, LoginUser(second.phone, view))), after)
  }

  // ---------------------------------------------------------------------
  // POST /complete-profile

  /**
   * Complete a profile. A missing body or a falsy token, name, branch or
   * year is refused (400) and an unknown token is 404, both without change.
   * On success the user holding the token gets the three fields, the
   * vehicle number when one was sent, and `isProfileComplete = true`, which
   * agrees with the derivation rule; nothing else about any user changes.
   */
  function CompleteProfileStep(users: seq<User>, body: Option<ProfileForm>)
    : (o: Outcome<ProfileSaved, seq<User>>)
    ensures o.response.Failure? ==> o.state == users
    ensures o.response.Failure? ==> o.response.status in {BadRequest, NotFound}
    ensures o.response.Success? <==> o.response.status == Ok
    ensures o.response.status == BadRequest <==>
      || body.None?
      || !(Truthy(body.value.token) && Truthy(body.value.name) && Truthy(body.value.branch) && Truthy(body.value.year))
    ensures o.response.status == NotFound <==>
      && body.Some?
      && Truthy(body.value.token) && Truthy(body.value.name) && Truthy(body.value.branch) && Truthy(body.value.year)
      && ByToken(users, body.value.token).None?
    ensures o.response.Success? ==>
      && body.Some? && ByToken(users, body.value.token).Some?
      && var f := body.value;
      && var i := ByToken(users, f.token).value;
      && |o.state| == |users|
      && (forall j :: 0 <= j < |users| && j != i ==> o.state[j] == users[j])
      && o.state[i].name == f.name && o.state[i].branch == f.branch && o.state[i].year == f.year
      && o.state[i].vehicleNo == (if f.vehicleNo.Some? then f.vehicleNo else users[i].vehicleNo)
      && o.state[i].isProfileComplete && FlagAgrees(o.state[i])
      && o.state[i].(name := users[i].name, branch := users[i].branch, year := users[i].year,
                     vehicleNo := users[i].vehicleNo, isProfileComplete := users[i].isProfileComplete) == users[i]
      && o.response.body == ProfileSaved(f.token.value, CardOf(o.state[i]))
  {
    if body.None? then
      Outcome(Failure(BadRequest, BodyMissing), users)
    else
      var f := body.value;
      if !Truthy(f.token) || !Truthy(f.name) || !Truthy(f.branch) || !Truthy(f.year) then
        Outcome(Failure(BadRequest, FieldsRequired), users)
      else match ByToken(users, f.token)
        case None => Outcome(Failure(NotFound, UserNotFound), users)
        case Some(i) =>
          // `vehicleNo: undefined` is dropped from the update, so the stored one stays.
          var vehicleNo := if f.vehicleNo.Some? then f.vehicleNo else users[i].vehicleNo;
          var u := users[i].(name := f.name, branch := f.branch, year := f.year,
                             vehicleNo := vehicleNo, isProfileComplete := true);
          var after := users[i := u];
          assert after[i] == u;
          Outcome(Success(Ok, ProfileSaved(f.token.value, CardOf(u))), after)
  }

  // ---------------------------------------------------------------------
  // PATCH /:userId

  /**
   * Record an accepted ride: the offer is appended to the end of the
   * `acceptedRides` of the user holding the token, and nothing else
   * changes; an unknown token is 404 without change.
   */
  function AcceptRideStep(users: seq<User>, userId: string, offer: Offer): (o: Outcome<RideList, seq<User>>)
    ensures o.response.Failure? <==> ByToken(users, Some(userId)).None?
    ensures o.response.Failure? ==> o == Outcome(Failure(NotFound, UserNotFound), users)
    ensures o.response.Success? ==>
      && ByToken(users, Some(userId)).Some?
      && var i := ByToken(users, Some(userId)).value;
      && o.response.status == Ok
      && |o.state| == |users|
      && (forall j :: 0 <= j < |users| && j != i ==> o.state[j] == users[j])
      && o.state[i].acceptedRides == users[i].acceptedRides + [offer]
      && o.state[i].(acceptedRides := users[i].acceptedRides) == users[i]
      && o.response.body == RideList(Some(userId), users[i].name, o.state[i].acceptedRides)
  {
    match ByToken(users, Some(userId))
    case None => Outcome(Failure(NotFound, UserNotFound), users)
    case Some(i) =>
      var u := users[i].(acceptedRides := users[i].acceptedRides + [offer]);
      var after := users[i := u];
      assert after[i] == u;
      Outcome(Success(Ok, RideList(u.token, u.name, u.acceptedRides)), after)
  }

  // ---------------------------------------------------------------------
  // PUT /:requestID

  /**
   * Submit an offer. The route binds only `requestID`, so the handler looks
   * up the token `undefined`; if a user matches, the push happens and then
   * the unbound name `request` throws. No call ever answers 200.
   */
  function SubmitOfferStep(users: seq<User>, offer: Offer): (o: Outcome<(), seq<User>>)
    ensures o.response.Failure?
    ensures ByToken(users, None).None? ==> o == Outcome(Failure(NotFound, UserNotFound), users)
    ensures ByToken(users, None).Some? ==>
      && var i := ByToken(users, None).value;
      && o.response == Failure(ServerError, RequestUndefined)
      && |o.state| == |users|
      && o.state[i].acceptedRides == users[i].acceptedRides + [offer]
      && o.state[i].(acceptedRides := users[i].acceptedRides) == users[i]
      && (forall j :: 0 <= j < |users| && j != i ==> o.state[j] == users[j])
  {
    match ByToken(users, None)
    case None => Outcome(Failure(NotFound, UserNotFound), users)
    case Some(i) =>
      var u := users[i].(acceptedRides := users[i].acceptedRides + [offer]);
      var after := users[i := u];
      assert after[i] == u;
      Outcome(Failure(ServerError, RequestUndefined), after)
  }

  // ---------------------------------------------------------------------
  // The handlers, as reads and writes on the store

  /** POST /send-otp. */
  method SendOtp(db: Db, phone: Option<string>, draws: seq<real>, now: int, newToken: string)
    returns (r: Response<OtpSent>)
    requires db.Valid() && ValidDraws(draws)
    requires newToken !in Tokens(db.users)
    modifies db
    ensures db.Valid()
    ensures Outcome(r, db.users) == SendOtpStep(old(db.users), phone, draws, now, newToken)
    ensures db.requests == old(db.requests)
  {
    if !Truthy(phone) {
      return Failure(BadRequest, PhoneRequired);
    }
    var otp := GenerateOtp(draws);
    var otpExpires := now + OtpLifetimeMs;
    // findOneAndUpdate({ phone }, { otp, otpExpires }, { upsert: true }): no save hook runs.
    var found := ByPhone(db.users, phone.value);
    var user: User;
    if found.Some? {
      var i := found.value;
      user := db.users[i].(otp := Some(otp), otpExpires := Some(otpExpires));
      db.users := db.users[i := user];
    } else {
      user := Inserted(phone.value, newToken).(otp := Some(otp), otpExpires := Some(otpExpires));
      ghost var before := db.users;
      db.users := db.users + [user];
      forall i, j | 0 <= i < j < |db.users| && db.users[i].token.Some?
        ensures db.users[i].token != db.users[j].token
      {
        if j == |before| {
          assert before[i] in before;
        }
      }
    }
    r := Success(Ok, OtpSent(user.phone, otp));
  }

  /** POST /verify-otp: the code is cleared and saved, then the token is settled and saved again. */
  method VerifyOtp(db: Db, phone: Option<string>, otp: Option<string>, now: int, tokenBytes: seq<Byte>)
    returns (r: Response<Login>)
    requires db.Valid() && |tokenBytes| == TokenBytes
    requires GenerateNewToken(tokenBytes) !in Tokens(db.users)
    modifies db
    ensures db.Valid()
    ensures Outcome(r, db.users) == VerifyOtpStep(old(db.users), phone, otp, now, tokenBytes)
    ensures db.requests == old(db.requests)
  {
    if !Truthy(phone) || !Truthy(otp) {
      return Failure(BadRequest, PhoneAndOtpRequired);
    }
    var found := ByPhone(db.users, phone.value);
    if found.None? {
      return Failure(NotFound, UserNotFound);
    }
    var i := found.value;
    var user := db.users[i];
    if user.otp != otp || Expired(user, now) {
      return Failure(Unauthorized, InvalidOtp);
    }
    ghost var before := db.users;
    user := user.(otp := None, otpExpires := None);
    user := db.SaveUser(i, user);
    ghost var first := user;
    var isProfileComplete := user.isProfileComplete;
    var token := if Truthy(user.token) then user.token.value else GenerateNewToken(tokenBytes);
    user := user.(token := Some(token));
    user := db.SaveUser(i, user);
    assert db.users == before[i := first][i := user] == before[i := user];
    var view := if isProfileComplete
      then Some(ProfileView(user.name, user.branch, user.year, user.vehicleNo))
      else None;
    r := Success(Ok, Login(token, isProfileComplete, LoginUser(user.phone, view)));
    forall a, b | 0 <= a < b < |db.users| && db.users[a].token.Some?
      ensures db.users[a].token != db.users[b].token
    {
      if a == i && !Truthy(before[i].token) {
        assert before[b] in before;
      } else if b == i && !Truthy(before[i].token) {
        assert before[a] in before;
      }
    }
  }

  /** POST /complete-profile: one findOneAndUpdate, so the save hook does not run. */
  method CompleteProfile(db: Db, body: Option<ProfileForm>) returns (r: Response<ProfileSaved>)
    requires db.Valid()
    modifies db
    ensures db.Valid()
    ensures Outcome(r, db.users) == CompleteProfileStep(old(db.users), body)
    ensures db.requests == old(db.requests)
  {
    if body.None? {
      return Failure(BadRequest, BodyMissing);
    }
    var f := body.value;
    if !Truthy(f.token) || !Truthy(f.name) || !Truthy(f.branch) || !Truthy(f.year) {
      return Failure(BadRequest, FieldsRequired);
    }
    var found := ByToken(db.users, f.token);
    if found.None? {
      return Failure(NotFound, UserNotFound);
    }
    var i := found.value;
    var vehicleNo := if f.vehicleNo.Some? then f.vehicleNo else db.users[i].vehicleNo;
    var user := db.users[i].(name := f.name, branch := f.branch, year := f.year,
                             vehicleNo := vehicleNo, isProfileComplete := true);
    db.users := db.users[i := user];
    r := Success(Ok, ProfileSaved(f.token.value, CardOf(user)));
  }

  /** PATCH /:userId: `$push` of one offer onto `acceptedRides`. */
  method AcceptRide(db: Db, userId: string, offer: Offer) returns (r: Response<RideList>)
    requires db.Valid()
    modifies db
    ensures db.Valid()
    ensures Outcome(r, db.users) == AcceptRideStep(old(db.users), userId, offer)
    ensures db.requests == old(db.requests)
  {
    var found := ByToken(db.users, Some(userId));
    if found.None? {
      return Failure(NotFound, UserNotFound);
    }
    var i := found.value;
    var user := db.users[i].(acceptedRides := db.users[i].acceptedRides + [offer]);
    db.users := db.users[i := user];
    r := Success(Ok, RideList(user.token, user.name, user.acceptedRides));
  }

  /** PUT /:requestID. */
  method SubmitOffer(db: Db, offer: Offer) returns (r: Response<()>)
    requires db.Valid()
    modifies db
    ensures db.Valid()
    ensures Outcome(r, db.users) == SubmitOfferStep(old(db.users), offer)
    ensures db.requests == old(db.requests)
  {
    var found := ByToken(db.users, None);
    if found.None? {
      return Failure(NotFound, UserNotFound);
    }
    var i := found.value;
    db.users := db.users[i := db.users[i].(acceptedRides := db.users[i].acceptedRides + [offer])];
    r := Failure(ServerError, RequestUndefined);
  }

  /** GET /profile-status/:token: the flag of the user holding the token. */
  method ProfileStatus(db: Db, token: string) returns (r: Response<bool>)
    ensures r.Failure? <==> token !in Tokens(db.users)
    ensures r.Failure? ==> r == Failure(NotFound, UserNotFound)
    ensures r.Success? ==>
      && ByToken(db.users, Some(token)).Some?
      && r == Success(Ok, db.users[ByToken(db.users, Some(token)).value].isProfileComplete)
  {
    var found := ByToken(db.users, Some(token));
    if found.None? {
      NotHeldByAnyone(db.users, token);
      return Failure(NotFound, UserNotFound);
    }
    r := Success(Ok, db.users[found.value].isProfileComplete);
  }

  /** GET /info/:userid: the display fields and accepted rides, without the token. */
  method Info(db: Db, userid: string) returns (r: Response<UserInfo>)
    ensures r.Failure? <==> userid !in Tokens(db.users)
    ensures r.Failure? ==> r == Failure(NotFound, UserNotFound)
    ensures r.Success? ==>
      && ByToken(db.users, Some(userid)).Some?
      && var u := db.users[ByToken(db.users, Some(userid)).value];
      && u.token == Some(userid)
      && r == Success(Ok, UserInfo(u.name, u.branch, u.year, u.phone, u.vehicleNo, u.acceptedRides))
  {
    var found := ByToken(db.users, Some(userid));
    if found.None? {
      NotHeldByAnyone(db.users, userid);
      return Failure(NotFound, UserNotFound);
    }
    var u := db.users[found.value];
    r := Success(Ok, UserInfo(u.name, u.branch, u.year, u.phone, u.vehicleNo, u.acceptedRides));
  }

  /** GET /accepted-rides/:token. */
  method AcceptedRides(db: Db, token: string) returns (r: Response<seq<Offer>>)
    ensures r.Failure? <==> token !in Tokens(db.users)
    ensures r.Failure? ==> r == Failure(NotFound, UserNotFound)
    ensures r.Success? ==>
      && ByToken(db.users, Some(token)).Some?
      && r == Success(Ok, db.users[ByToken(db.users, Some(token)).value].acceptedRides)
  {
    var found := ByToken(db.users, Some(token));
    if found.None? {
      NotHeldByAnyone(db.users, token);
      return Failure(NotFound, UserNotFound);
    }
    r := Success(Ok, db.users[found.value].acceptedRides);
  }

  /** GET /:token: the whole public profile, token included. */
  method GetUser(db: Db, token: string) returns (r: Response<PublicUser>)
    ensures r.Failure? <==> token !in Tokens(db.users)
    ensures r.Failure? ==> r == Failure(NotFound, UserNotFound)
    ensures r.Success? ==>
      && ByToken(db.users, Some(token)).Some?
      && var u := db.users[ByToken(db.users, Some(token)).value];
      && r == Success(Ok, PublicUser(Some(token), u.name, u.branch, u.year, u.phone, u.vehicleNo, u.acceptedRides))
  {
    var found := ByToken(db.users, Some(token));
    if found.None? {
      NotHeldByAnyone(db.users, token);
      return Failure(NotFound, UserNotFound);
    }
    var u := db.users[found.value];
    r := Success(Ok, PublicUser(u.token, u.name, u.branch, u.year, u.phone, u.vehicleNo, u.acceptedRides));
  }

  /** No user holds a token exactly when the look-up by that token finds nobody. */
  lemma NotHeldByAnyone(users: seq<User>, token: string)
    ensures ByToken(users, Some(token)).None? <==> token !in Tokens(users)
  {
  }
}
