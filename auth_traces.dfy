/**
 Properties of the service over sequences of requests: what is kept from one
 request to the next, which failures can occur from the initial state, and how
 the per-user storage of challenge data ties every auth id of a user to the
 user's latest challenge.
 */
module AuthTraces {
  import opened AuthSpec

  /** One request to the service, with the fresh values it is served with. */
  datatype Request =
    | RegisterRequest(user: string, y1: nat, y2: nat)
    | ChallengeRequest(user: string, r1: nat, r2: nat, authId: string, c: nat)
    | AnswerRequest(authId: string, s: nat, sessionId: string)

  /** The state after serving one request; an answer changes nothing. */
  function Step(st: State, req: Request): State
  {
    match req
    case RegisterRequest(u, y1, y2) => Register(st, u, y1, y2)
    case ChallengeRequest(u, r1, r2, a, c) => CreateChallenge(st, u, r1, r2, a, c).0
    case AnswerRequest(_, _, _) => st
  }

  /** The state after serving `reqs` in order. */
  function Run(st: State, reqs: seq<Request>): State
    decreases |reqs|
  {
    if reqs == [] then st else Run(Step(st, reqs[0]), reqs[1..])
  }

  /** Serving `xs` and then `ys` is serving `xs + ys`. */
  lemma {:induction false} RunAppend(st: State, xs: seq<Request>, ys: seq<Request>)
    ensures Run(st, xs + ys) == Run(Run(st, xs), ys)
    decreases |xs|
  {
    if xs == [] {
      assert xs + ys == ys;
    } else {
      assert (xs + ys)[0] == xs[0];
      assert (xs + ys)[1..] == xs[1..] + ys;
      RunAppend(Step(st, xs[0]), xs[1..], ys);
    }
  }

  /** No request deletes a user or an auth id. */
  lemma {:induction false} RunKeepsKeys(st: State, reqs: seq<Request>)
    ensures st.users.Keys <= Run(st, reqs).users.Keys
    ensures st.challenges.Keys <= Run(st, reqs).challenges.Keys
    decreases |reqs|
  {
    if reqs != [] {
      RunKeepsKeys(Step(st, reqs[0]), reqs[1..]);
    }
  }

  /** Every request keeps each auth id pointing at a registered user. */
  lemma {:induction false} RunPreservesConsistent(st: State, reqs: seq<Request>)
    requires Consistent(st)
    ensures Consistent(Run(st, reqs))
    decreases |reqs|
  {
    if reqs != [] {
      RunPreservesConsistent(Step(st, reqs[0]), reqs[1..]);
    }
  }

  /** From the initial state the second NotFound of verification (auth id
      known, user missing) never happens: NotFound means the auth id is unknown. */
  lemma ReachableNotFoundMeansUnknownAuthId(reqs: seq<Request>, authId: string, s: nat,
                                            sessionId: string, check: Verifier, group: Group)
    ensures var st := Run(Initial, reqs);
      (VerifyAuthentication(st, authId, s, sessionId, check, group) == Err(NotFound)
       <==> authId !in st.challenges)
  {
    RunPreservesConsistent(Initial, reqs);
  }

  /** A request leaves alone user `u` and the auth id `a`. */
  predicate LeavesAlone(req: Request, u: string, a: string)
  {
    match req
    case RegisterRequest(v, _, _) => v != u
    case ChallengeRequest(v, _, _, b, _) => v != u && b != a
    case AnswerRequest(_, _, _) => true
  }

  /** Requests that leave `u` and `a` alone keep `a` mapped to `u` and keep
      `u`'s record (or its absence). */
  lemma {:induction false} OtherRequestsKeepEntries(st: State, reqs: seq<Request>, u: string, a: string)
    requires a in st.challenges && st.challenges[a] == u
    requires forall i :: 0 <= i < |reqs| ==> LeavesAlone(reqs[i], u, a)
    ensures a in Run(st, reqs).challenges && Run(st, reqs).challenges[a] == u
    ensures u in Run(st, reqs).users <==> u in st.users
    ensures u in st.users ==> Run(st, reqs).users[u] == st.users[u]
    decreases |reqs|
  {
    if reqs != [] {
      assert LeavesAlone(reqs[0], u, a);
      OtherRequestsKeepEntries(Step(st, reqs[0]), reqs[1..], u, a);
    }
  }

  /** Requests that leave a user and an auth id alone, including any number of
      answers (successful or not) to any auth id, do not change the outcome of
      verifying that auth id: a rejected answer can be retried, and other
      users' traffic does not interfere. */
  lemma OtherRequestsKeepOutcome(st: State, reqs: seq<Request>, a: string, s: nat,
                                 sessionId: string, check: Verifier, group: Group)
    requires a in st.challenges
    requires forall i :: 0 <= i < |reqs| ==> LeavesAlone(reqs[i], st.challenges[a], a)
    ensures VerifyAuthentication(Run(st, reqs), a, s, sessionId, check, group)
         == VerifyAuthentication(st, a, s, sessionId, check, group)
  {
    OtherRequestsKeepEntries(st, reqs, st.challenges[a], a);
  }

  /** The handshake: after registering and opening a challenge, the answer is
      checked against exactly the registered commitments, the prover's
      commitments and the challenge that was returned to the prover, even when
      unrelated requests are served in between. */
  lemma Handshake(st: State, u: string, y1: nat, y2: nat, r1: nat, r2: nat, a: string, c: nat,
                  others: seq<Request>, s: nat, sessionId: string, check: Verifier, group: Group)
    requires forall i :: 0 <= i < |others| ==> LeavesAlone(others[i], u, a)
    ensures CreateChallenge(Register(st, u, y1, y2), u, r1, r2, a, c).1 == Ok(Challenge(a, c))
    ensures var st' := Run(st, [RegisterRequest(u, y1, y2), ChallengeRequest(u, r1, r2, a, c)] + others);
      VerifyAuthentication(st', a, s, sessionId, check, group)
        == if check(s, r1, r2, c, y1, y2, group.g, group.h, group.p) then Ok(sessionId)
           else Err(Unauthenticated)
  {
    var opening := [RegisterRequest(u, y1, y2), ChallengeRequest(u, r1, r2, a, c)];
    RunAppend(st, opening, others);
    var registered := Register(st, u, y1, y2);
    var mid := CreateChallenge(registered, u, r1, r2, a, c).0;
    assert Run(st, opening) == mid by {
      assert Step(st, opening[0]) == registered;
      assert opening[1..] == [ChallengeRequest(u, r1, r2, a, c)];
      assert Run(registered, opening[1..]) == Run(mid, []);
    }
    assert mid.users[u] == UserInfo(y1, y2, r1, r2, c);
    OtherRequestsKeepOutcome(mid, others, a, s, sessionId, check, group);
  }

  /** Challenge data lives on the user record: after a second challenge for the
      same user, the earlier auth id is checked against the second challenge's
      commitments and challenge, exactly like the new auth id. */
  lemma LatestChallengeWins(st: State, u: string, r1: nat, r2: nat, a1: string, c1: nat,
                            r1': nat, r2': nat, a2: string, c2: nat,
                            s: nat, sessionId: string, check: Verifier, group: Group)
    requires u in st.users
    ensures var st2 := CreateChallenge(CreateChallenge(st, u, r1, r2, a1, c1).0, u, r1', r2', a2, c2).0;
      && VerifyAuthentication(st2, a1, s, sessionId, check, group)
         == VerifyAuthentication(st2, a2, s, sessionId, check, group)
      && (VerifyAuthentication(st2, a1, s, sessionId, check, group).Ok?
          <==> check(s, r1', r2', c2, st.users[u].y1, st.users[u].y2, group.g, group.h, group.p))
  {
  }

  /** Re-registering a user keeps its open auth ids but resets the challenge
      data to zero, so they are checked against r1 = r2 = c = 0 and the new
      commitments. */
  lemma ReRegistrationResetsOpenChallenges(st: State, u: string, y1: nat, y2: nat, a: string,
                                           s: nat, sessionId: string, check: Verifier, group: Group)
    requires a in st.challenges && st.challenges[a] == u
    ensures VerifyAuthentication(Register(st, u, y1, y2), a, s, sessionId, check, group).Ok?
        <==> check(s, 0, 0, 0, y1, y2, group.g, group.h, group.p)
  {
  }

  /** Registrations of distinct users do not interfere: either order gives the
      same state, and each user holds its own commitments. */
  lemma DistinctRegistrationsCommute(st: State, u: string, y1: nat, y2: nat,
                                     v: string, z1: nat, z2: nat)
    requires u != v
    ensures Register(Register(st, u, y1, y2), v, z1, z2) == Register(Register(st, v, z1, z2), u, y1, y2)
    ensures var st' := Register(Register(st, u, y1, y2), v, z1, z2);
      st'.users[u] == Enrolled(y1, y2) && st'.users[v] == Enrolled(z1, z2)
  {
  }
}
