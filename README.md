# Verifier side of a Chaum–Pedersen login handshake

This project models the authentication service of the zkp-poc server: the
object `MyAuth`, which runs the verifier's half of a Chaum–Pedersen
discrete-log equality proof as a three-phase login.

- **Register** stores a user's public commitments `y1 = g^x`, `y2 = h^x`.
- **Create authentication challenge** records the prover's per-session
  commitments `r1`, `r2` and a fresh random challenge `c`. It hands back a
  fresh auth id together with `c`.
- **Verify authentication** looks up the challenge through the auth id. It
  checks the prover's response `s` and, when the check accepts, issues a
  fresh session id.

The service keeps two maps:

- `users` maps a user id to a `UserInfo` record `{y1, y2, r1, r2, c}`;
- `challenges` maps an auth id to a user id.

Files:

- `auth_spec.dfy` (module `AuthSpec`) holds the value-level specification. It
  defines the record, the closed error type `NotFound | Unauthenticated |
  Internal`, the state of the two maps, and one function per phase whose
  contract says what the phase returns and which entries it changes.
- `auth_server.dfy` (module `AuthServer`) holds the class `MyAuth`. Its two
  map fields are changed in place by `Register` and
  `CreateAuthenticationChallenge`, which carry `modifies this`.
  `VerifyAuthentication` has no `modifies` clause, so it provably changes
  neither map. Each method is tied to its specification function through
  `Snapshot()`. Each also states outright what it returns and what it changes.
- `auth_traces.dfy` (module `AuthTraces`) serves sequences of requests. It
  proves properties that span several requests:
  - users and auth ids are never deleted;
  - every auth id keeps pointing at a registered user;
  - answers and other users' traffic do not disturb an open challenge;
  - the handshake checks exactly the values the prover committed to;
  - two behaviours follow from storing the challenge on the user record (see below).

Outside inputs are parameters:

- The fresh auth id and session id come from `Uuid::new_v4` in the source.
- The challenge `c` comes from `random_number`.
- The library's `verify(s, r1, r2, c, y1, y2, g, h, p)` is an arbitrary
  function `check: Verifier` over naturals.
- The decoded constants `G`, `H`, `P` form a `Group` value.

Big integers are `nat`. Request fields arrive already decoded.

Two behaviours of the code are modelled as written:

- The challenge data (`r1`, `r2`, `c`) is stored on the user's record, not
  per auth id. Every auth id ever issued for a user is therefore checked
  against that user's latest challenge (`LatestChallengeWins`).
  Re-registering a user resets the data to zero but leaves the user's open
  auth ids in place (`ReRegistrationResetsOpenChallenges`). Keeping the
  challenge data per auth id would avoid this; the code keeps it on the user
  record, and so does the model.
- A new auth id is inserted with `HashMap::insert`, which replaces any
  existing entry under the same id. A collision is not reported as an
  error: the model follows the code and replaces the entry.

## Model

| member | source | states |
|---|---|---|
| AuthSpec.Register | src/server.rs:35-43 | the user's record becomes `{y1, y2, 0, 0, 0}` whether or not the user existed; the key set gains exactly that user; every other user's record and the challenges map are unchanged; consistency is preserved |
| AuthSpec.CreateChallenge | src/server.rs:55-81 | an unknown user gives NotFound and the state is unchanged; otherwise the reply is `(authId, c)`; the user's record keeps `y1`/`y2` and takes `r1`, `r2`, `c`; no user is added; other users are unchanged; the challenges map gains `authId -> user`; the returned `c` equals the stored one |
| AuthSpec.VerifyAuthentication | src/server.rs:88-127 | NotFound when the auth id is unknown, or when it maps to a user without a record; otherwise Unauthenticated exactly when the check rejects the user's current stored fields, and the given session id exactly when it accepts; never Internal |
| AuthServer.MyAuth.constructor | src/server.rs:21-27 | a new service starts with both maps empty, a consistent state |
| AuthServer.MyAuth.Register | src/server.rs:31-49 | the new state is the specification's registration of the old one; the user's record is reset to the new commitments; other users and the challenges map are unchanged |
| AuthServer.MyAuth.CreateAuthenticationChallenge | src/server.rs:51-82 | new state and reply agree with the specification; NotFound leaves both maps unchanged; on success the user's record takes `r1`/`r2`/`c` with `y1`/`y2` kept, other users are unchanged, `challenges[authId] == user`, and the returned `c` is the stored one |
| AuthServer.MyAuth.VerifyAuthentication | src/server.rs:84-128 | the result agrees with the specification on the current maps; both NotFound cases hold; Unauthenticated iff the check on the stored fields fails; the session id iff it succeeds; neither map can change (no `modifies`) |
| AuthTraces.RunKeepsKeys | src/server.rs:40-74 | no sequence of requests removes a user or an auth id (the maps are only ever inserted into) |
| AuthTraces.RunPreservesConsistent | src/server.rs:60-74 | every sequence of requests keeps each auth id pointing at a registered user |
| AuthTraces.ReachableNotFoundMeansUnknownAuthId | src/server.rs:93-103 | from the initial state, verification returns NotFound exactly when the auth id is unknown; the missing-user path cannot be reached |
| AuthTraces.OtherRequestsKeepEntries | src/server.rs:40-74 | requests for other users and other auth ids keep an auth id's user and that user's record unchanged |
| AuthTraces.OtherRequestsKeepOutcome | src/server.rs:88-127 | verifying an auth id gives the same result after any answers and any requests for other users and auth ids; a rejected answer can be retried on the same auth id |
| AuthTraces.Handshake | src/server.rs:51-127 | after register then challenge, with unrelated requests in between, the challenge reply is `(authId, c)`; verification accepts exactly when the check holds for the registered `y1`/`y2`, the committed `r1`/`r2` and that `c` |
| AuthTraces.LatestChallengeWins | src/server.rs:67-69 | after two challenges for one user, the first auth id is checked exactly like the second, against the second challenge's `r1`/`r2`/`c` |
| AuthTraces.ReRegistrationResetsOpenChallenges | src/server.rs:35-43 | after re-registration, an open auth id of the user is checked against `r1 = r2 = c = 0` and the new commitments |
| AuthTraces.DistinctRegistrationsCommute | src/server.rs:40-43 | the order of registering two distinct users does not matter: either order gives the same state, and each user holds its own commitments |

## Left out

- Lock acquisition and its "failed to get lock" Internal errors (src/server.rs:42, 59, 73, 91, 100) are left out. They arise only from a poisoned mutex under concurrency. `Internal` stays in the error type, and the model never returns it.
- Each operation runs as one atomic step. A partial update between the two lock acquisitions of the challenge phase is a concurrency effect and is not modelled. The order in which two operations take the locks is also hidden: the challenge phase holds the `users` lock while it takes the `challenges` lock (src/server.rs:56-77), and verification holds `challenges` while it takes `users` (src/server.rs:88-126), so a concurrent challenge and verification can deadlock; the model captures the states these operations reach, not that hang.
- The bodies of `verify`, `decode`, `encode`, `random_number` and the constants `G`, `H`, `P` are not part of this model; they live in a library. The check is an arbitrary function and the constants are a parameter. For this reason nothing is proved about Chaum–Pedersen completeness or soundness, or about the byte encoding.
- UUID generation and randomness are not modelled; the fresh auth id, session id and challenge are method parameters, and nothing ensures that they are fresh.
- The gRPC request/response/status wrappers, the async trait, `main` and the server bootstrap (src/server.rs:131-142) are left out as transport and process glue, and so is `println!` logging.
- src/client.rs is not part of this model: it is a demo client that sends one registration request.
