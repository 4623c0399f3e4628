/**
 * OidcStateStore: three maps of entries with an expiry time, single-use reads, and a
 * background sweeper that deletes what has expired.
 *
 * Random ids and the clock are arguments. completeCliSession reads the clock twice and the
 * sweeper once per map.
 */
module OidcState {
  import opened Common

  const PENDING_AUTH_TTL_MS := 10 * 60 * 1000
  const CLI_SESSION_TTL_MS := 15 * 60 * 1000

  datatype PendingAuth = PendingAuth(nonce: string, codeVerifier: string, next: string)
  datatype PendingConfirm = PendingConfirm(sessionId: string, token: string, username: string)

  /** An entry of any of the maps; a session holds the token once the browser flow finished. */
  datatype Timed<T> = Timed(value: T, expiresAt: int)

  type Session = Option<string>

  datatype Maps = Maps(
    pending: map<string, Timed<PendingAuth>>,
    cliSessions: map<string, Timed<Session>>,
    confirms: map<string, Timed<PendingConfirm>>)

  const EMPTY := Maps(map[], map[], map[])

  // ---------------------------------------------------------------- specification

  datatype Op =
    | CreatePendingAuth(state: string, auth: PendingAuth, now: int)
    | ConsumePendingAuth(state: string, now: int)
    | CreateCliSession(sessionId: string, now: int)
    | HasCliSession(sessionId: string, now: int)
    | CompleteCliSession(sessionId: string, token: string, now: int, again: int)
    | ConsumeCliToken(sessionId: string, now: int)
    | CreatePendingConfirm(confirmId: string, confirm: PendingConfirm, now: int)
    | ConsumePendingConfirm(confirmId: string, now: int)
    | Sweep(now: int, again: int, last: int)

  datatype Answer =
    | Nothing
    | Flag(b: bool)
    | Auth(auth: Option<PendingAuth>)
    | Token(session: Option<Session>)
    | Confirm(confirm: Option<PendingConfirm>)

  /** The entry of a key as anyone can observe it: gone once it has expired. */
  function Live<T>(m: map<string, Timed<T>>, key: string, now: int): Option<T> {
    if key in m && m[key].expiresAt > now then Some(m[key].value) else None
  }

  function Swept<T>(m: map<string, Timed<T>>, now: int): map<string, Timed<T>> {
    map k | k in m && m[k].expiresAt > now :: m[k]
  }

  function Without<T>(m: map<string, Timed<T>>, key: string): map<string, Timed<T>> {
    m - {key}
  }

  // A token the client can use; an empty one does not count as handed out.
  predicate Usable(session: Option<Session>) {
    session.Some? && session.value.Some? && session.value.value != ""
  }

  function Apply(s: Maps, op: Op): (Maps, Answer) {
    match op
    case CreatePendingAuth(state, auth, now) =>
      (s.(pending := s.pending[state := Timed(auth, now + PENDING_AUTH_TTL_MS)]), Nothing)
    case ConsumePendingAuth(state, now) =>
      (s.(pending := Without(s.pending, state)), Auth(Live(s.pending, state, now)))
    case CreateCliSession(id, now) =>
      (s.(cliSessions := s.cliSessions[id := Timed(None, now + CLI_SESSION_TTL_MS)]), Nothing)
    case HasCliSession(id, now) => (s, Flag(Live(s.cliSessions, id, now).Some?))
    case CompleteCliSession(id, token, now, again) =>
      if Live(s.cliSessions, id, now).None? then (s, Flag(false))
      else (s.(cliSessions := s.cliSessions[id := Timed(Some(token), again + CLI_SESSION_TTL_MS)]), Flag(true))
    case ConsumeCliToken(id, now) =>
      var session := Live(s.cliSessions, id, now);
      (if session.None? || Usable(session) then s.(cliSessions := Without(s.cliSessions, id)) else s, Token(session))
    case CreatePendingConfirm(id, confirm, now) =>
      (s.(confirms := s.confirms[id := Timed(confirm, now + PENDING_AUTH_TTL_MS)]), Nothing)
    case ConsumePendingConfirm(id, now) =>
      (s.(confirms := Without(s.confirms, id)), Confirm(Live(s.confirms, id, now)))
    case Sweep(now, again, last) =>
      (Maps(Swept(s.pending, now), Swept(s.cliSessions, again), Swept(s.confirms, last)), Nothing)
  }

  // ---------------------------------------------------------------- the class

  method SweepMap<T>(m: map<string, Timed<T>>, now: int) returns (kept: map<string, Timed<T>>)
    ensures kept == Swept(m, now)
    ensures forall k :: k in kept <==> k in m && m[k].expiresAt > now
    ensures forall k :: k in kept ==> kept[k] == m[k]
  {
    kept := m;
    var keys := m.Keys;
    while keys != {}
      invariant keys <= m.Keys
      invariant kept.Keys == set k | k in m && (k in keys || m[k].expiresAt > now)
      invariant forall k :: k in kept ==> kept[k] == m[k]
      decreases keys
    {
      var key :| key in keys;
      if m[key].expiresAt <= now {
        kept := kept - {key};
      }
      keys := keys - {key};
    }
  }

  class OidcStateStore {
    var pending: map<string, Timed<PendingAuth>>
    var cliSessions: map<string, Timed<Session>>
    var confirms: map<string, Timed<PendingConfirm>>

    constructor ()
      ensures Value() == EMPTY
    {
      pending, cliSessions, confirms := map[], map[], map[];
    }

    function Value(): Maps
      reads this
    {
      Maps(pending, cliSessions, confirms)
    }

    method CreatePendingAuth(state: string, auth: PendingAuth, now: int)
      modifies this
      ensures Value() == Apply(old(Value()), Op.CreatePendingAuth(state, auth, now)).0
    {
      pending := pending[state := Timed(auth, now + PENDING_AUTH_TTL_MS)];
    }

    method ConsumePendingAuth(state: string, now: int) returns (auth: Option<PendingAuth>)
      modifies this
      ensures (Value(), Auth(auth)) == Apply(old(Value()), Op.ConsumePendingAuth(state, now))
    {
      var entry := if state in pending then Some(pending[state]) else None;
      pending := pending - {state};
      if entry.None? || entry.value.expiresAt <= now {
        return None;
      }
      return Some(entry.value.value);
    }

    method CreateCliSession(sessionId: string, now: int)
      modifies this
      ensures Value() == Apply(old(Value()), Op.CreateCliSession(sessionId, now)).0
    {
      cliSessions := cliSessions[sessionId := Timed(None, now + CLI_SESSION_TTL_MS)];
    }

    method HasCliSession(sessionId: string, now: int) returns (has: bool)
      ensures (Value(), Flag(has)) == Apply(Value(), Op.HasCliSession(sessionId, now))
    {
      has := sessionId in cliSessions && cliSessions[sessionId].expiresAt > now;
    }

    method CompleteCliSession(sessionId: string, token: string, now: int, again: int) returns (done: bool)
      modifies this
      ensures (Value(), Flag(done)) == Apply(old(Value()), Op.CompleteCliSession(sessionId, token, now, again))
    {
      done := HasCliSession(sessionId, now);
      if done {
        cliSessions := cliSessions[sessionId := Timed(Some(token), again + CLI_SESSION_TTL_MS)];
      }
    }

    method ConsumeCliToken(sessionId: string, now: int) returns (session: Option<Session>)
      modifies this
      ensures (Value(), Token(session)) == Apply(old(Value()), Op.ConsumeCliToken(sessionId, now))
      ensures session.Some? <==> sessionId in old(cliSessions) && now < old(cliSessions)[sessionId].expiresAt
      ensures session.Some? ==> session.value == old(cliSessions)[sessionId].value
      ensures cliSessions ==
              if session == Some(None) || session == Some(Some("")) then old(cliSessions)
              else old(cliSessions) - {sessionId}
    {
      if sessionId !in cliSessions || cliSessions[sessionId].expiresAt <= now {
        cliSessions := cliSessions - {sessionId};
        return None;
      }
      var token := cliSessions[sessionId].value;
      if token.Some? && token.value != "" {
        cliSessions := cliSessions - {sessionId};
      }
      return Some(token);
    }

    method CreatePendingConfirm(confirmId: string, confirm: PendingConfirm, now: int)
      modifies this
      ensures Value() == Apply(old(Value()), Op.CreatePendingConfirm(confirmId, confirm, now)).0
    {
      confirms := confirms[confirmId := Timed(confirm, now + PENDING_AUTH_TTL_MS)];
    }

    method ConsumePendingConfirm(confirmId: string, now: int) returns (confirm: Option<PendingConfirm>)
      modifies this
      ensures (Value(), Confirm(confirm)) == Apply(old(Value()), Op.ConsumePendingConfirm(confirmId, now))
    {
      var entry := if confirmId in confirms then Some(confirms[confirmId]) else None;
      confirms := confirms - {confirmId};
      if entry.None? || entry.value.expiresAt <= now {
        return None;
      }
      return Some(entry.value.value);
    }

    method Sweep(now: int, again: int, last: int)
      modifies this
      ensures Value() == Apply(old(Value()), Op.Sweep(now, again, last)).0
    {
      var p := SweepMap(pending, now);
      pending := p;
      var c := SweepMap(cliSessions, again);
      cliSessions := c;
      var f := SweepMap(confirms, last);
      confirms := f;
    }
  }

  // ---------------------------------------------------------------- sweeping is unobservable

  function Final(s: Maps, ops: seq<Op>): Maps {
    if ops == [] then s else Apply(Final(s, ops[..|ops| - 1]), ops[|ops| - 1]).0
  }

  /** What the calls of a run answered, in order; sweeps answer nothing and leave no trace here. */
  function Answers(s: Maps, ops: seq<Op>): seq<Answer>
    decreases |ops|
  {
    if ops == [] then []
    else
      var (t, answer) := Apply(s, ops[0]);
      (if ops[0].Sweep? then [] else [answer]) + Answers(t, ops[1..])
  }

  function WithoutSweeps(ops: seq<Op>): seq<Op> {
    if ops == [] then []
    else (if ops[0].Sweep? then [] else [ops[0]]) + WithoutSweeps(ops[1..])
  }

  // The first and the last read of the clock in a call.
  function Begins(op: Op): int {
    op.now
  }

  function Ends(op: Op): int {
    match op
    case CompleteCliSession(_, _, _, again) => again
    case Sweep(_, _, last) => last
    case _ => op.now
  }

  predicate InOrder(op: Op) {
    match op
    case CompleteCliSession(_, _, now, again) => now <= again
    case Sweep(now, again, last) => now <= again <= last
    case _ => true
  }

  // The clock never goes back and starts at `from` or later.
  predicate Forward(ops: seq<Op>, from: int)
    decreases |ops|
  {
    ops == [] || (from <= Begins(ops[0]) && InOrder(ops[0]) && Forward(ops[1..], Ends(ops[0])))
  }

  ghost predicate SameMap<T(!new)>(a: map<string, Timed<T>>, b: map<string, Timed<T>>, now: int) {
    forall k :: (k in a && a[k].expiresAt > now) || (k in b && b[k].expiresAt > now) ==>
      k in a && k in b && a[k] == b[k]
  }

  // The two stores cannot be told apart from `now` on.
  ghost predicate Same(a: Maps, b: Maps, now: int) {
    && SameMap(a.pending, b.pending, now)
    && SameMap(a.cliSessions, b.cliSessions, now)
    && SameMap(a.confirms, b.confirms, now)
  }

  lemma SameLive<T(!new)>(a: map<string, Timed<T>>, b: map<string, Timed<T>>, key: string, now: int, later: int)
    requires SameMap(a, b, now) && now <= later
    ensures Live(a, key, later) == Live(b, key, later)
  {
  }

  lemma SamePut<T(!new)>(a: map<string, Timed<T>>, b: map<string, Timed<T>>, key: string, entry: Timed<T>, now: int,
      later: int)
    requires SameMap(a, b, now) && now <= later
    ensures SameMap(a[key := entry], b[key := entry], later)
  {
  }

  lemma SameTake<T(!new)>(a: map<string, Timed<T>>, b: map<string, Timed<T>>, key: string, now: int, later: int)
    requires SameMap(a, b, now) && now <= later
    ensures SameMap(Without(a, key), Without(b, key), later)
  {
  }

  lemma SameLater(a: Maps, b: Maps, now: int, later: int)
    requires Same(a, b, now) && now <= later
    ensures Same(a, b, later)
  {
  }

  // The call is on the CLI sessions.
  predicate OnSessions(op: Op) {
    op.CreateCliSession? || op.HasCliSession? || op.CompleteCliSession? || op.ConsumeCliToken?
  }

  lemma SameCompleteAnswer(a: Maps, b: Maps, op: Op, now: int)
    requires Same(a, b, now) && now <= Begins(op) && InOrder(op) && op.CompleteCliSession?
    ensures SameMap(Apply(a, op).0.cliSessions, Apply(b, op).0.cliSessions, Ends(op))
    ensures Apply(a, op).1 == Apply(b, op).1
  {
    SameLive(a.cliSessions, b.cliSessions, op.sessionId, now, op.now);
    SamePut(a.cliSessions, b.cliSessions, op.sessionId, Timed(Some(op.token), op.again + CLI_SESSION_TTL_MS),
            now, op.again);
  }

  lemma {:induction false} SameSessionAnswer(a: Maps, b: Maps, op: Op, now: int)
    requires Same(a, b, now) && now <= Begins(op) && InOrder(op) && OnSessions(op)
    ensures SameMap(Apply(a, op).0.cliSessions, Apply(b, op).0.cliSessions, Ends(op))
    ensures Apply(a, op).1 == Apply(b, op).1
  {
    match op {
      case CreateCliSession(id, t) =>
        SamePut(a.cliSessions, b.cliSessions, id, Timed(None, t + CLI_SESSION_TTL_MS), now, t);
      case HasCliSession(id, t) =>
        SameLive(a.cliSessions, b.cliSessions, id, now, t);
      case CompleteCliSession(_, _, _, _) => SameCompleteAnswer(a, b, op, now);
      case ConsumeCliToken(id, t) =>
        SameLive(a.cliSessions, b.cliSessions, id, now, t);
        SameTake(a.cliSessions, b.cliSessions, id, now, t);
    }
  }

  lemma {:induction false} SamePendingAnswer(a: Maps, b: Maps, op: Op, now: int)
    requires Same(a, b, now) && now <= op.now && (op.CreatePendingAuth? || op.ConsumePendingAuth?)
    ensures SameMap(Apply(a, op).0.pending, Apply(b, op).0.pending, op.now) && Apply(a, op).1 == Apply(b, op).1
  {
    match op {
      case CreatePendingAuth(state, auth, t) =>
        SamePut(a.pending, b.pending, state, Timed(auth, t + PENDING_AUTH_TTL_MS), now, t);
      case ConsumePendingAuth(state, t) =>
        SameLive(a.pending, b.pending, state, now, t);
        SameTake(a.pending, b.pending, state, now, t);
    }
  }

  lemma {:induction false} SameConfirmAnswer(a: Maps, b: Maps, op: Op, now: int)
    requires Same(a, b, now) && now <= op.now && (op.CreatePendingConfirm? || op.ConsumePendingConfirm?)
    ensures SameMap(Apply(a, op).0.confirms, Apply(b, op).0.confirms, op.now) && Apply(a, op).1 == Apply(b, op).1
  {
    match op {
      case CreatePendingConfirm(id, confirm, t) =>
        SamePut(a.confirms, b.confirms, id, Timed(confirm, t + PENDING_AUTH_TTL_MS), now, t);
      case ConsumePendingConfirm(id, t) =>
        SameLive(a.confirms, b.confirms, id, now, t);
        SameTake(a.confirms, b.confirms, id, now, t);
    }
  }

  lemma {:induction false} SameAnswer(a: Maps, b: Maps, op: Op, now: int)
    requires Same(a, b, now) && now <= Begins(op) && InOrder(op) && !op.Sweep?
    ensures Same(Apply(a, op).0, Apply(b, op).0, Ends(op)) && Apply(a, op).1 == Apply(b, op).1
  {
    SameLater(a, b, now, Ends(op));
    if OnSessions(op) {
      SameSessionAnswer(a, b, op, now);
    } else if op.CreatePendingAuth? || op.ConsumePendingAuth? {
      SamePendingAnswer(a, b, op, now);
    } else {
      SameConfirmAnswer(a, b, op, now);
    }
  }

  lemma {:induction false} SweepIsSame(a: Maps, b: Maps, op: Op, now: int)
    requires Same(a, b, now) && op.Sweep? && now <= op.now && InOrder(op)
    ensures Same(Apply(a, op).0, b, Ends(op))
  {
    var t := Apply(a, op).0;
    assert forall k :: k in t.pending ==> k in a.pending && t.pending[k] == a.pending[k];
  }

  lemma {:induction false} SameRun(a: Maps, b: Maps, ops: seq<Op>, now: int)
    requires Same(a, b, now) && Forward(ops, now)
    ensures Answers(a, ops) == Answers(b, WithoutSweeps(ops))
    decreases |ops|
  {
    if ops != [] {
      var op, rest := ops[0], WithoutSweeps(ops[1..]);
      if op.Sweep? {
        SweepIsSame(a, b, op, now);
        SameRun(Apply(a, op).0, b, ops[1..], Ends(op));
        assert WithoutSweeps(ops) == rest;
      } else {
        SameAnswer(a, b, op, now);
        SameRun(Apply(a, op).0, Apply(b, op).0, ops[1..], Ends(op));
        assert WithoutSweeps(ops) == [op] + rest;
        assert ([op] + rest)[1..] == rest;
      }
    }
  }

  /** Wherever sweeps happen in a run, the other calls answer as if there were none. */
  lemma {:induction false} SweepsAreUnobservable(s: Maps, ops: seq<Op>, now: int)
    requires Forward(ops, now)
    ensures Answers(s, ops) == Answers(s, WithoutSweeps(ops))
  {
    SameRun(s, s, ops, now);
  }

  // ---------------------------------------------------------------- single use

  function Answered(s: Maps, ops: seq<Op>, i: nat): Answer
    requires i < |ops|
  {
    Apply(Final(s, ops[..i]), ops[i]).1
  }

  // The call hands the session a token it can use.
  predicate HandsOut(s: Maps, ops: seq<Op>, i: nat, sessionId: string)
    requires i < |ops|
  {
    && ops[i].ConsumeCliToken? && ops[i].sessionId == sessionId
    && match Answered(s, ops, i).session
       case Some(Some(token)) => token != ""
       case _ => false
  }

  function Handouts(s: Maps, ops: seq<Op>, sessionId: string, n: nat): nat
    requires n <= |ops|
  {
    if n == 0 then 0 else Handouts(s, ops, sessionId, n - 1) + (if HandsOut(s, ops, n - 1, sessionId) then 1 else 0)
  }

  function SessionsCreated(ops: seq<Op>, sessionId: string, n: nat): nat
    requires n <= |ops|
  {
    if n == 0 then 0
    else SessionsCreated(ops, sessionId, n - 1)
         + (if ops[n - 1].CreateCliSession? && ops[n - 1].sessionId == sessionId then 1 else 0)
  }

  lemma {:induction false} HandoutsAndSession(ops: seq<Op>, sessionId: string, n: nat)
    requires n <= |ops|
    ensures Handouts(EMPTY, ops, sessionId, n) + (if sessionId in Final(EMPTY, ops[..n]).cliSessions then 1 else 0)
            <= SessionsCreated(ops, sessionId, n)
  {
    if n > 0 {
      HandoutsAndSession(ops, sessionId, n - 1);
      FinalNext(ops, n - 1);
    }
  }

  /** Over any run, a session id hands out at most one token per session created under it. */
  lemma {:induction false} TokenIsHandedOutOnce(ops: seq<Op>, sessionId: string)
    ensures Handouts(EMPTY, ops, sessionId, |ops|) <= SessionsCreated(ops, sessionId, |ops|)
  {
    HandoutsAndSession(ops, sessionId, |ops|);
  }

  // Call i stored `token` for the session.
  predicate Completes(s: Maps, ops: seq<Op>, i: nat, sessionId: string, token: string)
    requires i < |ops|
  {
    && ops[i].CompleteCliSession? && ops[i].sessionId == sessionId && ops[i].token == token
    && Answered(s, ops, i) == Flag(true)
  }

  ghost predicate CompletedBefore(ops: seq<Op>, n: nat, sessionId: string, token: string)
    requires n <= |ops|
  {
    exists i: nat :: i < n && Completes(EMPTY, ops, i, sessionId, token)
  }

  lemma {:induction false} StoredTokenWasCompleted(ops: seq<Op>, sessionId: string, n: nat)
    requires n <= |ops|
    ensures var sessions := Final(EMPTY, ops[..n]).cliSessions;
            sessionId in sessions && sessions[sessionId].value.Some? ==>
              CompletedBefore(ops, n, sessionId, sessions[sessionId].value.value)
  {
    if n > 0 {
      StoredTokenWasCompleted(ops, sessionId, n - 1);
      FinalNext(ops, n - 1);
      var before, sessions := Final(EMPTY, ops[..n - 1]).cliSessions, Final(EMPTY, ops[..n]).cliSessions;
      if sessionId in sessions && sessions[sessionId].value.Some? {
        var token := sessions[sessionId].value.value;
        if sessionId in before && before[sessionId].value == Some(token) {
          assert CompletedBefore(ops, n - 1, sessionId, token);
        } else {
          assert Completes(EMPTY, ops, n - 1, sessionId, token);
        }
      }
    }
  }

  /** A token handed out is one an earlier, accepted completeCliSession stored for that session. */
  lemma {:induction false} TokenWasCompleted(ops: seq<Op>, sessionId: string, n: nat)
    requires n < |ops| && HandsOut(EMPTY, ops, n, sessionId)
    ensures CompletedBefore(ops, n, sessionId, Answered(EMPTY, ops, n).session.value.value)
  {
    StoredTokenWasCompleted(ops, sessionId, n);
  }

  function ConfirmsConsumed(s: Maps, ops: seq<Op>, confirmId: string, n: nat): nat
    requires n <= |ops|
  {
    if n == 0 then 0
    else ConfirmsConsumed(s, ops, confirmId, n - 1)
         + (if ops[n - 1].ConsumePendingConfirm? && ops[n - 1].confirmId == confirmId
               && Answered(s, ops, n - 1).confirm.Some? then 1 else 0)
  }

  function ConfirmsCreated(ops: seq<Op>, confirmId: string, n: nat): nat
    requires n <= |ops|
  {
    if n == 0 then 0
    else ConfirmsCreated(ops, confirmId, n - 1)
         + (if ops[n - 1].CreatePendingConfirm? && ops[n - 1].confirmId == confirmId then 1 else 0)
  }

  /** Over any run, a confirm id is consumed at most once per confirmation parked under it. */
  lemma {:induction false} ConfirmIsConsumedOnce(ops: seq<Op>, confirmId: string, n: nat)
    requires n <= |ops|
    ensures ConfirmsConsumed(EMPTY, ops, confirmId, n) + (if confirmId in Final(EMPTY, ops[..n]).confirms then 1 else 0)
            <= ConfirmsCreated(ops, confirmId, n)
  {
    if n > 0 {
      ConfirmIsConsumedOnce(ops, confirmId, n - 1);
      FinalNext(ops, n - 1);
    }
  }

  function AuthsConsumed(s: Maps, ops: seq<Op>, state: string, n: nat): nat
    requires n <= |ops|
  {
    if n == 0 then 0
    else AuthsConsumed(s, ops, state, n - 1)
         + (if ops[n - 1].ConsumePendingAuth? && ops[n - 1].state == state
               && Answered(s, ops, n - 1).auth.Some? then 1 else 0)
  }

  function AuthsCreated(ops: seq<Op>, state: string, n: nat): nat
    requires n <= |ops|
  {
    if n == 0 then 0
    else AuthsCreated(ops, state, n - 1)
         + (if ops[n - 1].CreatePendingAuth? && ops[n - 1].state == state then 1 else 0)
  }

  /** Over any run, a state parameter is consumed at most once per authorization begun under it. */
  lemma {:induction false} AuthIsConsumedOnce(ops: seq<Op>, state: string, n: nat)
    requires n <= |ops|
    ensures AuthsConsumed(EMPTY, ops, state, n) + (if state in Final(EMPTY, ops[..n]).pending then 1 else 0)
            <= AuthsCreated(ops, state, n)
  {
    if n > 0 {
      AuthIsConsumedOnce(ops, state, n - 1);
      FinalNext(ops, n - 1);
    }
  }

  // ---------------------------------------------------------------- what a consume finds

  // The entry is still in the map, or it has expired.
  ghost predicate Stays<T(!new)>(m: map<string, Timed<T>>, key: string, entry: Timed<T>, now: int) {
    if key in m then m[key] == entry else entry.expiresAt <= now
  }

  lemma StaysLive<T(!new)>(m: map<string, Timed<T>>, key: string, entry: Timed<T>, now: int, later: int)
    requires Stays(m, key, entry, now) && now <= later
    ensures Live(m, key, later) == if later < entry.expiresAt then Some(entry.value) else None
  {
  }

  lemma {:induction false} ForwardOrders(ops: seq<Op>, from: int, i: nat, j: nat)
    requires Forward(ops, from) && i <= j < |ops|
    ensures from <= Begins(ops[i]) && InOrder(ops[i]) && (i < j ==> Ends(ops[i]) <= Begins(ops[j]))
    decreases |ops|
  {
    if i > 0 {
      ForwardOrders(ops[1..], Ends(ops[0]), i - 1, j - 1);
    } else if j > 0 {
      ForwardOrders(ops[1..], Ends(ops[0]), j - 1, j - 1);
    }
  }

  lemma FinalNext(ops: seq<Op>, n: nat)
    requires n < |ops|
    ensures Final(EMPTY, ops[..n + 1]) == Apply(Final(EMPTY, ops[..n]), ops[n]).0
  {
    assert ops[..n + 1][..n] == ops[..n];
  }

  // The call writes or takes the entry of the key.
  predicate TouchesAuth(op: Op, state: string) {
    (op.CreatePendingAuth? || op.ConsumePendingAuth?) && op.state == state
  }

  predicate TouchesConfirm(op: Op, id: string) {
    (op.CreatePendingConfirm? || op.ConsumePendingConfirm?) && op.confirmId == id
  }

  predicate TouchesSession(op: Op, id: string) {
    (op.CreateCliSession? || op.CompleteCliSession? || op.ConsumeCliToken?) && op.sessionId == id
  }

  lemma OtherKeepsAuth(s: Maps, op: Op, state: string, entry: Timed<PendingAuth>, now: int)
    requires Stays(s.pending, state, entry, now) && !TouchesAuth(op, state) && now <= Begins(op) && InOrder(op)
    ensures Stays(Apply(s, op).0.pending, state, entry, Ends(op))
  {
  }

  lemma OtherKeepsConfirm(s: Maps, op: Op, id: string, entry: Timed<PendingConfirm>, now: int)
    requires Stays(s.confirms, id, entry, now) && !TouchesConfirm(op, id) && now <= Begins(op) && InOrder(op)
    ensures Stays(Apply(s, op).0.confirms, id, entry, Ends(op))
  {
  }

  lemma {:induction false} AuthStays(ops: seq<Op>, from: int, i: nat, n: nat, state: string, auth: PendingAuth)
    requires Forward(ops, from) && i < n <= |ops| && ops[i].CreatePendingAuth?
    requires ops[i].state == state && ops[i].auth == auth
    requires forall j :: i < j < n ==> !TouchesAuth(ops[j], state)
    ensures Stays(Final(EMPTY, ops[..n]).pending, state, Timed(auth, ops[i].now + PENDING_AUTH_TTL_MS),
                  Ends(ops[n - 1]))
  {
    FinalNext(ops, n - 1);
    ForwardOrders(ops, from, n - 1, n - 1);
    if i < n - 1 {
      AuthStays(ops, from, i, n - 1, state, auth);
      ForwardOrders(ops, from, n - 2, n - 1);
      OtherKeepsAuth(Final(EMPTY, ops[..n - 1]), ops[n - 1], state, Timed(auth, ops[i].now + PENDING_AUTH_TTL_MS),
                     Ends(ops[n - 2]));
    }
  }

  /** Consuming a state parameter gives the authorization begun under it, within its time to live. */
  lemma AuthIsFound(ops: seq<Op>, from: int, i: nat, n: nat, state: string)
    requires Forward(ops, from) && i < n < |ops| && ops[i].CreatePendingAuth? && ops[i].state == state
    requires ops[n].ConsumePendingAuth? && ops[n].state == state
    requires forall j :: i < j < n ==> !TouchesAuth(ops[j], state)
    ensures Answered(EMPTY, ops, n) ==
            Auth(if ops[n].now < ops[i].now + PENDING_AUTH_TTL_MS then Some(ops[i].auth) else None)
  {
    AuthStays(ops, from, i, n, state, ops[i].auth);
    ForwardOrders(ops, from, n - 1, n);
    StaysLive(Final(EMPTY, ops[..n]).pending, state, Timed(ops[i].auth, ops[i].now + PENDING_AUTH_TTL_MS),
              Ends(ops[n - 1]), ops[n].now);
  }

  lemma {:induction false} ConfirmStays(ops: seq<Op>, from: int, i: nat, n: nat, id: string, confirm: PendingConfirm)
    requires Forward(ops, from) && i < n <= |ops| && ops[i].CreatePendingConfirm?
    requires ops[i].confirmId == id && ops[i].confirm == confirm
    requires forall j :: i < j < n ==> !TouchesConfirm(ops[j], id)
    ensures Stays(Final(EMPTY, ops[..n]).confirms, id, Timed(confirm, ops[i].now + PENDING_AUTH_TTL_MS),
                  Ends(ops[n - 1]))
  {
    FinalNext(ops, n - 1);
    ForwardOrders(ops, from, n - 1, n - 1);
    if i < n - 1 {
      ConfirmStays(ops, from, i, n - 1, id, confirm);
      ForwardOrders(ops, from, n - 2, n - 1);
      OtherKeepsConfirm(Final(EMPTY, ops[..n - 1]), ops[n - 1], id, Timed(confirm, ops[i].now + PENDING_AUTH_TTL_MS),
                        Ends(ops[n - 2]));
    }
  }

  /** The same for a parked confirmation. */
  lemma ConfirmIsFound(ops: seq<Op>, from: int, i: nat, n: nat, id: string)
    requires Forward(ops, from) && i < n < |ops| && ops[i].CreatePendingConfirm? && ops[i].confirmId == id
    requires ops[n].ConsumePendingConfirm? && ops[n].confirmId == id
    requires forall j :: i < j < n ==> !TouchesConfirm(ops[j], id)
    ensures Answered(EMPTY, ops, n) ==
            Confirm(if ops[n].now < ops[i].now + PENDING_AUTH_TTL_MS then Some(ops[i].confirm) else None)
  {
    ConfirmStays(ops, from, i, n, id, ops[i].confirm);
    ForwardOrders(ops, from, n - 1, n);
    StaysLive(Final(EMPTY, ops[..n]).confirms, id, Timed(ops[i].confirm, ops[i].now + PENDING_AUTH_TTL_MS),
              Ends(ops[n - 1]), ops[n].now);
  }

  // The entry a create, or a complete that was accepted, leaves for a session.
  function SessionEntry(op: Op): Timed<Session>
    requires op.CreateCliSession? || op.CompleteCliSession?
  {
    if op.CreateCliSession? then Timed(None, op.now + CLI_SESSION_TTL_MS)
    else Timed(Some(op.token), op.again + CLI_SESSION_TTL_MS)
  }

  lemma OtherKeepsSession(s: Maps, op: Op, id: string, entry: Timed<Session>, now: int)
    requires Stays(s.cliSessions, id, entry, now) && !TouchesSession(op, id) && now <= Begins(op) && InOrder(op)
    ensures Stays(Apply(s, op).0.cliSessions, id, entry, Ends(op))
  {
  }

  lemma {:induction false} SessionStays(ops: seq<Op>, from: int, i: nat, n: nat, id: string)
    requires Forward(ops, from) && i < n <= |ops| && (ops[i].CreateCliSession? || ops[i].CompleteCliSession?)
    requires ops[i].sessionId == id && (ops[i].CompleteCliSession? ==> Answered(EMPTY, ops, i) == Flag(true))
    requires forall j :: i < j < n ==> !TouchesSession(ops[j], id)
    ensures Stays(Final(EMPTY, ops[..n]).cliSessions, id, SessionEntry(ops[i]), Ends(ops[n - 1]))
  {
    FinalNext(ops, n - 1);
    ForwardOrders(ops, from, n - 1, n - 1);
    if i < n - 1 {
      SessionStays(ops, from, i, n - 1, id);
      ForwardOrders(ops, from, n - 2, n - 1);
      OtherKeepsSession(Final(EMPTY, ops[..n - 1]), ops[n - 1], id, SessionEntry(ops[i]), Ends(ops[n - 2]));
    }
  }

  /**
   * A CLI session, from its creation or from an accepted completion until the next call on it: it
   * is live for its time to live, can be completed then, and hands out what it was completed with.
   */
  lemma SessionIsFound(ops: seq<Op>, from: int, i: nat, n: nat, id: string)
    requires Forward(ops, from) && i < n < |ops| && (ops[i].CreateCliSession? || ops[i].CompleteCliSession?)
    requires ops[i].sessionId == id && (ops[i].CompleteCliSession? ==> Answered(EMPTY, ops, i) == Flag(true))
    requires forall j :: i < j < n ==> !TouchesSession(ops[j], id)
    ensures var live, op := ops[n].now < SessionEntry(ops[i]).expiresAt, ops[n];
            && (op.HasCliSession? && op.sessionId == id ==> Answered(EMPTY, ops, n) == Flag(live))
            && (op.CompleteCliSession? && op.sessionId == id ==> Answered(EMPTY, ops, n) == Flag(live))
            && (op.ConsumeCliToken? && op.sessionId == id ==>
                  Answered(EMPTY, ops, n) ==
                  Token(if !live then None else Some(if ops[i].CreateCliSession? then None else Some(ops[i].token))))
  {
    SessionStays(ops, from, i, n, id);
    ForwardOrders(ops, from, n - 1, n);
    StaysLive(Final(EMPTY, ops[..n]).cliSessions, id, SessionEntry(ops[i]), Ends(ops[n - 1]), ops[n].now);
  }
}
