/**
 The value-level specification of the verifier's authentication service
 (`MyAuth` in src/server.rs): the two maps it keeps, and what each of the
 three protocol phases does to them and returns.

 Big integers are `nat`; the wire decoding of the request's byte fields is
 outside the model, so every request field arrives already decoded. The
 Chaum-Pedersen check and the public constants G, H, P come from a library
 that is not part of this model: the check is an arbitrary `Verifier` and the
 constants a `Group` value, both supplied by the caller.
 */
module AuthSpec {

  /** What the service stores per user: the registered commitments `y1`, `y2`
      and the data of the user's latest challenge (`r1`, `r2`, `c`). */
  datatype UserInfo = UserInfo(y1: nat, y2: nat, r1: nat, r2: nat, c: nat)

  /** The closed set of failures the service reports. `Internal` is reported
      only when a lock is poisoned, which the sequential model does not have. */
  datatype Status = NotFound | Unauthenticated | Internal

  datatype Result<T> = Ok(value: T) | Err(status: Status)

  /** The reply of the challenge phase: the new auth id and the challenge. */
  datatype Challenge = Challenge(authId: string, c: nat)

  /** The public group parameters, decoded from the library constants. */
  datatype Group = Group(g: nat, h: nat, p: nat)

  /** The library's `verify(s, r1, r2, c, y1, y2, g, h, p)`. */
  type Verifier = (nat, nat, nat, nat, nat, nat, nat, nat, nat) -> bool

  /** The service state: user id to user record, auth id to user id. */
  datatype State = State(users: map<string, UserInfo>, challenges: map<string, string>)

  /** The state of a freshly started service: both maps empty. */
  const Initial: State := State(map[], map[])

  /** A record as registration creates it: the challenge fields take the
      big-integer default, zero. */
  function Enrolled(y1: nat, y2: nat): UserInfo
  {
    UserInfo(y1, y2, 0, 0, 0)
  }

  /** Whether the library check accepts response `s` against a stored record. */
  predicate Accepts(info: UserInfo, s: nat, check: Verifier, group: Group)
  {
    check(s, info.r1, info.r2, info.c, info.y1, info.y2, group.g, group.h, group.p)
  }

  /** Every auth id refers to a registered user. */
  predicate Consistent(st: State)
  {
    forall a :: a in st.challenges ==> st.challenges[a] in st.users
  }

  /** Registration: insert or overwrite the user's record; nothing else changes. */
  function Register(st: State, user: string, y1: nat, y2: nat): (st': State)
    ensures user in st'.users && st'.users[user] == UserInfo(y1, y2, 0, 0, 0)
    ensures st'.users.Keys == st.users.Keys + {user}
    ensures forall v :: v in st.users && v != user ==> st'.users[v] == st.users[v]
    ensures st'.challenges == st.challenges
    ensures Consistent(st) ==> Consistent(st')
  {
    State(st.users[user := Enrolled(y1, y2)], st.challenges)
  }

  /** The challenge phase, given the fresh auth id and the fresh challenge `c`.
      An unknown user is NotFound and changes nothing. Otherwise the user's
      record takes the prover's commitments and the challenge, the auth id is
      mapped to the user (replacing any earlier entry under that id) and the
      reply carries the auth id and the stored challenge. */
  function CreateChallenge(st: State, user: string, r1: nat, r2: nat, authId: string, c: nat)
    : (out: (State, Result<Challenge>))
    ensures user !in st.users ==> out.0 == st && out.1 == Err(NotFound)
    ensures user in st.users ==>
      && out.1 == Ok(Challenge(authId, c))
      && user in out.0.users
      && out.0.users[user] == UserInfo(st.users[user].y1, st.users[user].y2, r1, r2, c)
      && out.0.users.Keys == st.users.Keys
      && (forall v :: v in st.users && v != user ==> out.0.users[v] == st.users[v])
      && out.0.challenges == st.challenges[authId := user]
      && out.1.value.c == out.0.users[user].c
    ensures Consistent(st) ==> Consistent(out.0)
  {
    if user !in st.users then
      (st, Err(NotFound))
    else
      var info := st.users[user].(c := c, r1 := r1, r2 := r2);
      var users' := st.users[user := info];
      (State(users', st.challenges[authId := user]), Ok(Challenge(authId, users'[user].c)))
  }

  /** The verification phase, given the fresh session id. It resolves the auth
      id to a user and the user to the record, and runs the check on the
      record's CURRENT fields; it changes no state. */
  function VerifyAuthentication(st: State, authId: string, s: nat, sessionId: string,
                                check: Verifier, group: Group): (r: Result<string>)
    ensures authId !in st.challenges ==> r == Err(NotFound)
    ensures authId in st.challenges && st.challenges[authId] !in st.users ==> r == Err(NotFound)
    ensures authId in st.challenges && st.challenges[authId] in st.users ==>
      var info := st.users[st.challenges[authId]];
      && (r == Err(Unauthenticated) <==> !Accepts(info, s, check, group))
      && (r.Ok? <==> Accepts(info, s, check, group))
    ensures r.Ok? ==> r.value == sessionId
    ensures r != Err(Internal)
  {
    if authId !in st.challenges then Err(NotFound)
    else
      var user := st.challenges[authId];
      if user !in st.users then Err(NotFound)
      else if !Accepts(st.users[user], s, check, group) then Err(Unauthenticated)
      else Ok(sessionId)
  }
}
