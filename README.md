# SMRide backend: users, one-time passcodes and ride requests

A Dafny model of the core of the SMRide carpooling backend, an Express/Mongoose
service over two document collections:

- **users**: a phone number receives a five-digit one-time passcode (OTP). A correct,
  unexpired passcode logs the user in and yields a bearer token. The user then completes a
  profile (name, branch, year, optional vehicle number), and drivers' offers are appended to
  the user's `acceptedRides`.
- **requests**: a logged-in user posts a ride request (location, time). Users list
  everybody else's requests or their own, newest first, and delete a request by its
  `requestID`.

The store is modelled in memory: class `Store.Db` holds the two collections as sequences
in natural (insertion) order. `findOne` is "the first document that matches"
(`Store.FirstMatch`). Each handler that writes is given twice:

- a function `...Step(state, inputs)` that states the reply and the collection afterwards,
  with the error order (400 before any store access, then 404 or 401, then the effect) in its
  contract;
- a method on the store that performs the handler's reads and writes in the source's order.
  Its `ensures` ties it to the function and keeps the unique indexes (`Db.Valid`).

The read-only user handlers are methods that change nothing. The two request listings are
functions of the collection (`RequestRoutes.ListOthers`, `RequestRoutes.ListOwn`). Lemmas over the step functions state
what several calls do together:

- only the latest code logs in;
- a code is single-use;
- repeated logins return the same token;
- `isProfileComplete` keeps agreeing with its derivation rule across every handler;
- a created request is listed, and deleting it restores the collection.

Inputs from the environment are parameters:

- the clock `new Date()` / `Date.now` is `now`, in milliseconds;
- each `Math.random()` draw is a real in [0, 1);
- `crypto.randomBytes(32)` is a sequence of 32 bytes;
- `uuidv4()` is a fresh string. Freshness (not already in the collection) is a precondition.

Modules: `Http` (optional fields, JavaScript truthiness, status codes, replies),
`UserModel` (models/user.js), `RequestModel` (models/request.js), `Store`,
`UserRoutes` and `UserLifecycle` (routes/userRoutes.js), `RequestRoutes`
(routes/requestRoutes.js).

Three things the code does that its comments or a reader might not expect; the model follows the code:

- complete-profile writes `isProfileComplete: true` directly through `findOneAndUpdate`, so
  the pre-save hook does not run there, although the comment at routes/userRoutes.js:138
  says it does. `UserLifecycle.FlagsStayDerived` shows that the two paths still agree,
  because that handler demands all three fields.
- The upsert in send-otp inserts a document with the schema defaults, including a uuid
  `token`. So `generateNewToken` only runs for a stored user that has no truthy token. The
  model keeps that branch.
- delete never answers 404: `deleteOne` resolves to an acknowledgement object, and the
  handler's falsy test on it never succeeds.

## Model

| member | source | states |
|---|---|---|
| UserModel.Inserted | models/user.js:4-15 | a document created by upsert has the given phone, the given token (whose freshness `SendOtp` demands), `acceptedRides = []`, `isProfileComplete = false`, no code, and its flag already agrees with the derivation rule |
| UserModel.PreSave | models/user.js:17-29 | after the hook, `isProfileComplete` is true iff name, branch and year are all truthy ("" counts as absent), and no other path changes |
| UserModel.PreSaveIdempotent | models/user.js:17-29 | running the hook twice equals running it once; the hook leaves a document unchanged exactly when its flag already agrees |
| RequestModel.Build | models/request.js:4-10 | a new request validates iff userId, location and time are all present and non-empty; it then has `requestID` = the fresh id, `createdAt` = now and the given three paths, and nothing else |
| Store.FirstMatch | routes/userRoutes.js:65 | `findOne` gives the first matching document in natural order, and nothing exactly when no document matches |
| Store.Db.SaveUser | models/user.js:17-29 | `save()` (as called at routes/userRoutes.js:80 and :88) stores the document as the pre-save hook leaves it, at the same place, and touches no other user |
| UserRoutes.DigitsFor | routes/userRoutes.js:21-25 | the code has one character per draw, each one `"0123456789"[floor(draw * 10)]` |
| UserRoutes.GenerateOtp | routes/userRoutes.js:21-25 | the OTP loop builds exactly 5 characters, each a decimal digit chosen by the corresponding draw |
| UserRoutes.HexEncode | routes/userRoutes.js:112-114 | hex encoding gives two lower-case hexadecimal digits per byte |
| UserRoutes.HexRoundTrip | routes/userRoutes.js:112-114 | decoding the hex encoding gives back the bytes |
| UserRoutes.GenerateNewToken | routes/userRoutes.js:112-114 | a new token is 64 lower-case hexadecimal digits that decode to the 32 random bytes |
| UserRoutes.SendOtpStep | routes/userRoutes.js:13-53 | a falsy phone is 400 with no change; otherwise 200 with the code, and afterwards the user found by that phone holds the code and `otpExpires = now + 300000`; it is the previously first user with that phone, with only otp/expiry changed, or a newly inserted default user; every other user is unchanged |
| UserRoutes.VerifyOtpStep | routes/userRoutes.js:56-109 | 400 iff phone or code is falsy, else 404 iff no user has the phone, else 401 iff the code differs or `now > otpExpires`; otherwise 200; failures change nothing; success clears code and expiry, keeps a truthy token or assigns the generated one, returns the stored token, reports the flag derived from name/branch/year, and includes name/branch/year/vehicleNo iff that flag is true; `phone` is always included |
| UserRoutes.CompleteProfileStep | routes/userRoutes.js:117-154 | 400 iff the body is missing or token/name/branch/year is falsy, else 404 iff no user holds the token; otherwise 200; failures change nothing; success sets name, branch, year, the vehicle number if one was sent, and `isProfileComplete = true`, which agrees with the derivation rule; nothing else changes |
| UserRoutes.AcceptRideStep | routes/userRoutes.js:194-230 | 404 with no change iff no user holds the token; otherwise exactly the offer is appended to the end of that user's `acceptedRides`; earlier entries, the user's other paths and every other user are unchanged |
| UserRoutes.SubmitOfferStep | routes/userRoutes.js:301-326 | the handler never answers 200: it is 404 with no change, or the offer is appended to the rides of the user found by an `undefined` token, nothing else of that user or any other changes, and then 500 from the unbound name `request` |
| UserRoutes.SendOtp | routes/userRoutes.js:13-53 | the handler's loop, upsert and reply agree with `SendOtpStep`, keep the unique token index, and leave requests unchanged |
| UserRoutes.VerifyOtp | routes/userRoutes.js:56-109 | the handler's two saves agree with `VerifyOtpStep`, keep the unique token index, and leave requests unchanged |
| UserRoutes.CompleteProfile | routes/userRoutes.js:117-154 | the handler's update agrees with `CompleteProfileStep` and keeps the store valid |
| UserRoutes.AcceptRide | routes/userRoutes.js:194-230 | the handler's `$push` agrees with `AcceptRideStep` and keeps the store valid |
| UserRoutes.SubmitOffer | routes/userRoutes.js:301-326 | the handler agrees with `SubmitOfferStep` and keeps the store valid |
| UserRoutes.ProfileStatus | routes/userRoutes.js:156-170 | 404 iff no user holds the token; otherwise 200 with that user's `isProfileComplete`; nothing changes |
| UserRoutes.Info | routes/userRoutes.js:173-191 | 404 iff no user holds the id; otherwise that user's name, branch, year, phone, vehicleNo and acceptedRides, without the token |
| UserRoutes.AcceptedRides | routes/userRoutes.js:233-251 | 404 iff no user holds the token; otherwise that user's `acceptedRides` |
| UserRoutes.GetUser | routes/userRoutes.js:254-273 | 404 iff no user holds the token; otherwise that user's public profile, the token included |
| UserLifecycle.OnlyIssuedCodeLogsIn | routes/userRoutes.js:28-75 | right after a code is issued to a non-empty phone, a login succeeds iff it presents exactly that code no later than five minutes after the issue |
| UserLifecycle.ReissueRevokesEarlierCode | routes/userRoutes.js:32-36 | after a second code is issued, a different first code is refused with 401 |
| UserLifecycle.CallsKeepCodeCleared | routes/userRoutes.js:13-109 | once the user found by a phone holds no code, every sequence of user-writing calls that issues no code to that phone keeps it so |
| UserLifecycle.CodeIsSingleUse | routes/userRoutes.js:73-80 | after a successful login, the same code is refused with 401 at any later time, after any sequence of calls of the user handlers that write (complete-profile, the accepted-ride push, submit-offer, logins and codes for other phones) that issues no new code to that phone |
| UserLifecycle.LoginTokenIsStable | routes/userRoutes.js:86-88 | a second login, after a fresh code, returns the same token as the first |
| UserLifecycle.FlagsStayDerived | routes/userRoutes.js:128-132 | if every user's flag agrees with the derivation rule, it still does after send-otp, verify-otp, complete-profile, the accepted-ride push and submit-offer |
| UserLifecycle.CompletedProfileSurvivesSave | routes/userRoutes.js:128-138 | after complete-profile, a later save through the hook leaves the user unchanged and the flag true |
| RequestRoutes.CreateStep | routes/requestRoutes.js:7-35 | 404 iff no user holds `userId`; else 500 iff a required path is missing or empty; otherwise 201; failures write nothing; success appends exactly one request with the fresh id, the given paths and `createdAt = now`, and replies 201 with requestID, userId, location and createdAt, without `time` |
| RequestRoutes.Create | routes/requestRoutes.js:7-35 | the handler agrees with `CreateStep`, keeps requestIDs unique and leaves users unchanged |
| RequestRoutes.Insert | routes/requestRoutes.js:41 | inserting into a newest-first list keeps it newest-first and adds exactly that request |
| RequestRoutes.SortNewestFirst | routes/requestRoutes.js:41 | the sort returns a newest-first permutation of its input |
| RequestRoutes.Select | routes/requestRoutes.js:41 | a query returns each matching request as often as it is stored, and nothing else |
| RequestRoutes.ListOthers | routes/requestRoutes.js:38-53 | GET /:token returns exactly the requests whose userId differs from the token, each as often as stored, newest first; as a function of the collection it leaves it unchanged |
| RequestRoutes.StripAll | routes/requestRoutes.js:79-85 | dropping `userId` from one user's requests keeps the order and loses no request |
| RequestRoutes.ListOwn | routes/requestRoutes.js:75-89 | GET /myrequest/:userID returns exactly the requests of that user, without userId, each as often as stored, newest first; it leaves the collection unchanged |
| RequestRoutes.DeleteOne | routes/requestRoutes.js:95-97 | `deleteOne` always acknowledges; it removes one request iff one has the id, and otherwise removes nothing |
| RequestRoutes.DeleteStep | routes/requestRoutes.js:93-105 | the reply is always 200 "Request deleted successfully", even when no request has the id; then nothing changes |
| RequestRoutes.Delete | routes/requestRoutes.js:93-105 | the handler agrees with `DeleteStep`, keeps the store valid and leaves users unchanged |
| RequestRoutes.DeleteKeepsUnique | routes/requestRoutes.js:95-97 | deleting keeps requestIDs unique and every stored request well-formed |
| RequestRoutes.DeleteRemovesRequest | routes/requestRoutes.js:95-101 | with unique requestIDs, no request with the id remains after a delete, and every other request is kept exactly as often as before |
| RequestRoutes.DeleteUndoesCreate | routes/requestRoutes.js:7-105 | creating a request and then deleting its id gives back the collection |
| RequestRoutes.CreatedRequestIsListed | routes/requestRoutes.js:41-85 | a created request is in its author's own list, in every other user's list of others' requests, and not in its author's list of others' |
| RequestRoutes.ListsSplitCollection | routes/requestRoutes.js:41-85 | for any token, the own list and the others' list together have exactly as many entries as the collection |

## Left out

- app.js, server.js and config/db.js: middleware wiring, the port, the database connection and process exit. These are bootstrap and I/O.
- PATCH `/:token` (routes/userRoutes.js:276-298) is not modelled. It has the same path shape as the earlier PATCH `/:userId`, so under first-match routing it is never reached.
- GET `/:requestID` (routes/requestRoutes.js:56-72) is not modelled. It has the same path shape as the earlier GET `/:token`, so it is never reached.
- SMS sending through Twilio: it is commented out, and its credentials are only read at load time. `console.log` output is also left out.
- Store and driver failures: the 500 replies for connection or driver errors are not modelled. Only the 500s the code itself produces are: request validation, and the `ReferenceError` in submit-offer.
- Concurrency between HTTP requests: last-write-wins races, and the implicit global `otp` variable that concurrent send-otp calls share.
- Randomness: the draws, the random bytes and uuids are parameters. Freshness of uuids and generated tokens against the collection is a precondition. The uuid format is not modelled.
- The clock: `setMinutes(getMinutes() + 5)` is modelled as `now + 300000` ms; the local-time effects around daylight-saving changes are not modelled.
- Floating point: `Math.random() * 10` is modelled as a real product, so its floor is always below 10.
- JSON values that are not strings, such as a numeric `otp`, `year` or `rate`, are not modelled. A numeric `otp` never equals the stored string under `!==`.
- UserRoutes.SendOtp: models Mongoose's documented upsert behaviour, which adds the schema defaults on insert. It does not model the driver.
- UserRoutes.CompleteProfile: assumes an `undefined` vehicleNo is dropped from the update (Mongoose 6 and later); the stored vehicleNo then stays.
- A query value of `undefined` (POST `/` without `userId`, and PUT `/:requestID`) is modelled as matching only documents that lack the path, which is how MongoDB matches `null`. Mongoose documents another reading: it drops the `undefined` key, so `findOne({ token: undefined })` behaves like `findOne({})` and returns an arbitrary document. The model does not capture that reading. Once any user exists, and every upserted user holds a token, it differs from the model in two places:
  - PUT `/:requestID` would push the offer onto some user's `acceptedRides` before the 500. The model answers 404 with no change.
  - POST `/` without `userId` would answer 500 from validation. The model answers 404.
  Under both readings, neither handler ever answers 200/201 nor writes a request.
- Store.Db.Valid: demands unique non-null tokens only. The non-sparse unique index would also allow at most one document without a token.
- RequestRoutes.SortNewestFirst: MongoDB does not fix the order of requests with equal `createdAt`. The contract states only newest-first order and a permutation, and the function picks one such order.
- Success message strings other than the delete reply, and JSON nesting beyond which fields are selected, are not modelled.
