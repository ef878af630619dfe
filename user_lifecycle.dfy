/**
 * What several calls of the user router do together: the issue, verify,
 * cleared cycle of a one-time passcode, the stability of the login token,
 * and the agreement of `isProfileComplete` with its derivation rule across
 * every handler that writes users.
 */
module UserLifecycle {
  import opened Http
  import opened UserModel
  import opened Store
  import opened UserRoutes

  /**
   * The look-up by phone depends only on the phones: a collection whose
   * first documents have the same phones, in order, finds the same user.
   */
  lemma ByPhoneFollowsPhones(users: seq<User>, after: seq<User>, phone: string)
    requires |users| <= |after|
    requires forall j :: 0 <= j < |users| ==> after[j].phone == users[j].phone
    requires ByPhone(users, phone).Some?
    ensures ByPhone(after, phone) == ByPhone(users, phone)
  {
  }

  /** A call of a handler that writes `users`, with its inputs from the request and the environment. */
  datatype Call =
    | SendOtpCall(phone: Option<string>, draws: seq<real>, now: int, newToken: string)
    | VerifyOtpCall(phone: Option<string>, otp: Option<string>, now: int, tokenBytes: seq<Byte>)
    | CompleteProfileCall(body: Option<ProfileForm>)
    | AcceptRideCall(userId: string, offer: Offer)
    | SubmitOfferCall(offer: Offer)

  /** The environment's inputs have their shapes: draws in [0, 1), 32 random bytes. */
  predicate Admissible(c: Call)
  {
    && (c.SendOtpCall? ==> ValidDraws(c.draws))
    && (c.VerifyOtpCall? ==> |c.tokenBytes| == TokenBytes)
  }

  /** Whether a call issues a new code to `phone`. */
  predicate Issues(c: Call, phone: string)
  {
    c.SendOtpCall? && c.phone == Some(phone)
  }

  /** The `users` collection after one call. */
  function Apply(users: seq<User>, c: Call): seq<User>
    requires Admissible(c)
  {
    match c
    case SendOtpCall(phone, draws, now, newToken) => SendOtpStep(users, phone, draws, now, newToken).state
    case VerifyOtpCall(phone, otp, now, tokenBytes) => VerifyOtpStep(users, phone, otp, now, tokenBytes).state
    case CompleteProfileCall(body) => CompleteProfileStep(users, body).state
    case AcceptRideCall(userId, offer) => AcceptRideStep(users, userId, offer).state
    case SubmitOfferCall(offer) => SubmitOfferStep(users, offer).state
  }

  /** The `users` collection after a sequence of calls, in order. */
  function Run(users: seq<User>, calls: seq<Call>): seq<User>
    requires forall k :: 0 <= k < |calls| ==> Admissible(calls[k])
    decreases |calls|
  {
    if calls == [] then users else Run(Apply(users, calls[0]), calls[1..])
  }

  /** The user found by `phone` holds no code. */
  predicate CodeCleared(users: seq<User>, phone: string)
  {
    ByPhone(users, phone).Some? && users[ByPhone(users, phone).value].otp.None?
  }

  /** A call that does not issue a code to `phone` leaves that phone's user without one. */
  lemma CallKeepsCodeCleared(users: seq<User>, phone: string, c: Call)
    requires phone != "" && Admissible(c) && !Issues(c, phone)
    requires CodeCleared(users, phone)
    ensures CodeCleared(Apply(users, c), phone)
  {
    var after := Apply(users, c);
    var i := ByPhone(users, phone).value;
    match c
    case SendOtpCall(p, draws, now, newToken) =>
      if Truthy(p) {
        var k := ByPhone(after, p.value).value;
        assert after[k].phone == Some(p.value);
        ByPhoneFollowsPhones(users, after, phone);
      }
    case VerifyOtpCall(p, otp, now, tokenBytes) =>
      var o := VerifyOtpStep(users, p, otp, now, tokenBytes);
      if o.response.Success? {
        var k := ByPhone(users, p.value).value;
        assert after[k].phone == users[k].phone;
        ByPhoneFollowsPhones(users, after, phone);
      }
    case CompleteProfileCall(body) =>
      var o := CompleteProfileStep(users, body);
      if o.response.Success? {
        var k := ByToken(users, body.value.token).value;
        assert after[k].phone == users[k].phone;
        ByPhoneFollowsPhones(users, after, phone);
      }
    case AcceptRideCall(userId, offer) =>
      var o := AcceptRideStep(users, userId, offer);
      if o.response.Success? {
        var k := ByToken(users, Some(userId)).value;
        assert after[k].phone == users[k].phone;
        ByPhoneFollowsPhones(users, after, phone);
      }
    case SubmitOfferCall(offer) =>
      if ByToken(users, None).Some? {
        var k := ByToken(users, None).value;
        assert after[k].phone == users[k].phone;
        ByPhoneFollowsPhones(users, after, phone);
      }
  }

  /** Every call in a sequence that issues no code to `phone` keeps that phone's user without one. */
  lemma {:induction false} CallsKeepCodeCleared(users: seq<User>, phone: string, calls: seq<Call>)
    requires phone != ""
    requires forall k :: 0 <= k < |calls| ==> Admissible(calls[k]) && !Issues(calls[k], phone)
    requires CodeCleared(users, phone)
    ensures CodeCleared(Run(users, calls), phone)
    decreases |calls|
  {
    if calls != [] {
      CallKeepsCodeCleared(users, phone, calls[0]);
      CallsKeepCodeCleared(Apply(users, calls[0]), phone, calls[1..]);
    }
  }

  /**
   * Right after a code is issued to a phone, a login for that phone
   * succeeds exactly with that code and within five minutes of the issue.
   */
  lemma OnlyIssuedCodeLogsIn(
    users: seq<User>, phone: string, draws: seq<real>, issuedAt: int, newToken: string,
    code: string, now: int, tokenBytes: seq<Byte>)
    requires ValidDraws(draws) && |tokenBytes| == TokenBytes
    ensures var issued := SendOtpStep(users, Some(phone), draws, issuedAt, newToken).state;
            VerifyOtpStep(issued, Some(phone), Some(code), now, tokenBytes).response.Success?
            <==> phone != "" && code == DigitsFor(draws) && now <= issuedAt + OtpLifetimeMs
  {
  }

  /**
   * Issuing again overwrites: once a second code has been issued, the first
   * one is refused with 401 unless the two happen to be equal.
   */
  lemma ReissueRevokesEarlierCode(
    users: seq<User>, phone: string,
    draws1: seq<real>, at1: int, token1: string,
    draws2: seq<real>, at2: int, token2: string,
    now: int, tokenBytes: seq<Byte>)
    requires ValidDraws(draws1) && ValidDraws(draws2) && |tokenBytes| == TokenBytes
    requires phone != ""
    requires DigitsFor(draws1) != DigitsFor(draws2)
    ensures var first := SendOtpStep(users, Some(phone), draws1, at1, token1).state;
            var second := SendOtpStep(first, Some(phone), draws2, at2, token2).state;
            VerifyOtpStep(second, Some(phone), Some(DigitsFor(draws1)), now, tokenBytes).response
            == Failure(Unauthorized, InvalidOtp)
  {
  }

  /** A successful login was given a phone and a code, and leaves that phone's user without a code. */
  lemma LoginClearsCode(users: seq<User>, phone: string, code: string, now: int, tokenBytes: seq<Byte>)
    requires |tokenBytes| == TokenBytes
    requires VerifyOtpStep(users, Some(phone), Some(code), now, tokenBytes).response.Success?
    ensures phone != "" && code != ""
    ensures CodeCleared(VerifyOtpStep(users, Some(phone), Some(code), now, tokenBytes).state, phone)
  {
    var after := VerifyOtpStep(users, Some(phone), Some(code), now, tokenBytes).state;
    ByPhoneFollowsPhones(users, after, phone);
  }

  /** A login for a phone whose user holds no code is refused with 401, whatever code it presents. */
  lemma ClearedCodeIsRefused(users: seq<User>, phone: string, code: string, now: int, tokenBytes: seq<Byte>)
    requires |tokenBytes| == TokenBytes && phone != "" && code != ""
    requires CodeCleared(users, phone)
    ensures VerifyOtpStep(users, Some(phone), Some(code), now, tokenBytes).response == Failure(Unauthorized, InvalidOtp)
  {
  }

  /**
   * A code that logged in once is refused with 401 on every later attempt,
   * whatever other handlers run in between, until a new code is issued to
   * that phone.
   */
  lemma CodeIsSingleUse(
    users: seq<User>, phone: string, code: string, now: int, tokenBytes: seq<Byte>,
    calls: seq<Call>, later: int, laterBytes: seq<Byte>)
    requires |tokenBytes| == TokenBytes && |laterBytes| == TokenBytes
    requires VerifyOtpStep(users, Some(phone), Some(code), now, tokenBytes).response.Success?
    requires forall k :: 0 <= k < |calls| ==> Admissible(calls[k]) && !Issues(calls[k], phone)
    ensures var after := Run(VerifyOtpStep(users, Some(phone), Some(code), now, tokenBytes).state, calls);
            VerifyOtpStep(after, Some(phone), Some(code), later, laterBytes).response
            == Failure(Unauthorized, InvalidOtp)
  {
    var login := VerifyOtpStep(users, Some(phone), Some(code), now, tokenBytes);
    LoginClearsCode(users, phone, code, now, tokenBytes);
    CallsKeepCodeCleared(login.state, phone, calls);
    ClearedCodeIsRefused(Run(login.state, calls), phone, code, later, laterBytes);
  }

  /**
   * Logging in again returns the same token: after one login, a fresh code
   * and a second login within its lifetime hand back the first login's token.
   */
  lemma LoginTokenIsStable(
    users: seq<User>, phone: string, code: string, now: int, tokenBytes: seq<Byte>,
    draws: seq<real>, issuedAt: int, newToken: string, later: int, laterBytes: seq<Byte>)
    requires |tokenBytes| == TokenBytes && |laterBytes| == TokenBytes && ValidDraws(draws)
    requires VerifyOtpStep(users, Some(phone), Some(code), now, tokenBytes).response.Success?
    requires later <= issuedAt + OtpLifetimeMs
    ensures var login := VerifyOtpStep(users, Some(phone), Some(code), now, tokenBytes);
            var issued := SendOtpStep(login.state, Some(phone), draws, issuedAt, newToken).state;
            var relogin := VerifyOtpStep(issued, Some(phone), Some(DigitsFor(draws)), later, laterBytes);
            && relogin.response.Success?
            && relogin.response.body.token == login.response.body.token
  {
  }

  /**
   * If every user's `isProfileComplete` agrees with the derivation rule,
   * it still does after any handler that writes users: the hook path and
   * the complete-profile path never disagree.
   */
  lemma FlagsStayDerived(
    users: seq<User>, phone: Option<string>, draws: seq<real>, now: int, newToken: string,
    otp: Option<string>, tokenBytes: seq<Byte>, body: Option<ProfileForm>, userId: string, offer: Offer)
    requires AllFlagsAgree(users)
    requires ValidDraws(draws) && |tokenBytes| == TokenBytes
    ensures AllFlagsAgree(SendOtpStep(users, phone, draws, now, newToken).state)
    ensures AllFlagsAgree(VerifyOtpStep(users, phone, otp, now, tokenBytes).state)
    ensures AllFlagsAgree(CompleteProfileStep(users, body).state)
    ensures AllFlagsAgree(AcceptRideStep(users, userId, offer).state)
    ensures AllFlagsAgree(SubmitOfferStep(users, offer).state)
  {
  }

  /**
   * After complete-profile, a later save through the hook keeps the flag
   * true: the profile that was completed directly is the one the rule derives.
   */
  lemma CompletedProfileSurvivesSave(users: seq<User>, body: Option<ProfileForm>)
    requires CompleteProfileStep(users, body).response.Success?
    ensures var o := CompleteProfileStep(users, body);
            var i := ByToken(users, body.value.token).value;
            PreSave(o.state[i]) == o.state[i] && PreSave(o.state[i]).isProfileComplete
  {
  }
}
