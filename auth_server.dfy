/**
 The authentication service object (`MyAuth` in src/server.rs) with its two
 maps as fields that its methods change in place. Each method is proved
 against the value-level specification in `AuthSpec` through `Snapshot()`,
 and states outright what it returns and which entries it changes.

 The fresh values the source draws itself (the auth id and session id from
 `Uuid::new_v4`, the challenge from `random_number`) are parameters.
 */
module AuthServer {
  import opened AuthSpec

  class MyAuth {
    /** user id to user record */
    var users: map<string, UserInfo>
    /** auth id to user id */
    var challenges: map<string, string>

    /** The abstract value of the service. */
    function Snapshot(): State
      reads this
    {
      State(users, challenges)
    }

    /** `MyAuth::default()`: both maps empty. */
    constructor ()
      ensures Snapshot() == Initial
      ensures Consistent(Snapshot())
    {
      users := map[];
      challenges := map[];
    }

    /** Registers `user` with commitments `y1`, `y2`, overwriting any earlier
        record of that user. */
    method Register(user: string, y1: nat, y2: nat)
      modifies this
      ensures Snapshot() == AuthSpec.Register(old(Snapshot()), user, y1, y2)
      ensures user in users && users[user] == UserInfo(y1, y2, 0, 0, 0)
      ensures users.Keys == old(users.Keys) + {user}
      ensures forall v :: v in old(users) && v != user ==> users[v] == old(users)[v]
      ensures challenges == old(challenges)
      ensures Consistent(old(Snapshot())) ==> Consistent(Snapshot())
    {
      var info := Enrolled(y1, y2);
      users := users[user := info];
    }

    /** Opens a challenge for `user` under the fresh `authId` with the fresh
        challenge `c`, recording the prover's commitments `r1`, `r2` on the
        user's record. */
    method CreateAuthenticationChallenge(user: string, r1: nat, r2: nat, authId: string, c: nat)
      returns (r: Result<Challenge>)
      modifies this
      ensures (Snapshot(), r) == AuthSpec.CreateChallenge(old(Snapshot()), user, r1, r2, authId, c)
      ensures user !in old(users) ==>
        r == Err(NotFound) && users == old(users) && challenges == old(challenges)
      ensures user in old(users) ==>
        && r == Ok(Challenge(authId, c))
        && user in users
        && users[user] == old(users)[user].(r1 := r1, r2 := r2, c := c)
        && users.Keys == old(users.Keys)
        && (forall v :: v in old(users) && v != user ==> users[v] == old(users)[v])
        && challenges == old(challenges)[authId := user]
        && r.value.c == users[user].c
      ensures Consistent(old(Snapshot())) ==> Consistent(Snapshot())
    {
      if user !in users {
        return Err(NotFound);
      }
      var info := users[user];
      info := info.(c := c);
      info := info.(r1 := r1);
      info := info.(r2 := r2);
      users := users[user := info];
      challenges := challenges[authId := user];
      r := Ok(Challenge(authId, users[user].c));
    }

    /** Checks the response `s` to the challenge filed under `authId` and, when
        the check accepts, issues the fresh `sessionId`. Reads both maps and
        changes neither, so a rejected answer may be retried on the same id. */
    method VerifyAuthentication(authId: string, s: nat, sessionId: string,
                                check: Verifier, group: Group)
      returns (r: Result<string>)
      ensures r == AuthSpec.VerifyAuthentication(Snapshot(), authId, s, sessionId, check, group)
      ensures authId !in challenges ==> r == Err(NotFound)
      ensures authId in challenges && challenges[authId] !in users ==> r == Err(NotFound)
      ensures authId in challenges && challenges[authId] in users ==>
        var info := users[challenges[authId]];
        && (r == Err(Unauthenticated) <==>
              !check(s, info.r1, info.r2, info.c, info.y1, info.y2, group.g, group.h, group.p))
        && (r == Ok(sessionId) <==>
              check(s, info.r1, info.r2, info.c, info.y1, info.y2, group.g, group.h, group.p))
    {
      if authId !in challenges {
        return Err(NotFound);
      }
      var user := challenges[authId];
      if user !in users {
        return Err(NotFound);
      }
      var info := users[user];
      if !check(s, info.r1, info.r2, info.c, info.y1, info.y2, group.g, group.h, group.p) {
        return Err(Unauthenticated);
      }
      r := Ok(sessionId);
    }
  }
}
