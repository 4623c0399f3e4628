/**
 * Two-factor (TOTP) records: enrolment, verification, failure counting, lockout, replay
 * protection and single-use recovery codes (TfaStore).
 *
 * Hashing and code matching are parameters (`Crypto`): `hash(code)` hashes the trimmed code,
 * and `delta(secret, code, now)` is what TOTP.validate answers, none for a code that is not
 * six digits. Every read of the clock is an
 * argument of the call, because one call reads it several times.
 */
module TfaStore {
  import opened Common
  import Queue = MutationQueue

  const RECOVERY_CODE_COUNT := 10
  const TOTP_PERIOD_MS := 30 * 1000
  const MAX_FAILED_ATTEMPTS := 5
  const LOCKOUT_MS := 5 * 60 * 1000

  datatype Mode = AuthOnly | AuthAndWrites

  datatype TfaRecord = TfaRecord(
    mode: Mode,
    pending: bool,
    secret: string,
    recoveryCodes: seq<string>,
    failedAttempts: nat,
    lockedUntil: Option<int>,
    lastUsedStep: Option<int>)

  datatype Crypto = Crypto(hash: string -> string, delta: (string, string, int) -> Option<int>)

  /** The clock reads of one call: lock check, code matching, step computation, lockout. */
  datatype Clock = Clock(check: int, matching: int, step: int, lock: int)

  datatype Outcome =
    | NotEnrolled
    | LockedOut
    | Replayed
    | WrongCode
    | TotpAccepted(step: int)
    | RecoveryAccepted(hash: string)
    | Begun
    | Disabled

  predicate Accepts(o: Outcome) {
    o.TotpAccepted? || o.RecoveryAccepted?
  }

  // The attempt got past the lock check.
  predicate PastLock(o: Outcome) {
    !o.NotEnrolled? && !o.LockedOut?
  }

  // ---------------------------------------------------------------- one call

  /** The time step the code matched. */
  function MatchedStep(crypto: Crypto, r: TfaRecord, code: string, clock: Clock): Option<int> {
    match crypto.delta(r.secret, code, clock.matching)
    case None => None
    case Some(delta) => Some(clock.matching / TOTP_PERIOD_MS + delta)
  }

  /** verifyTotp: the delta is relative to one read of the clock, the step is computed from another. */
  function VerifyTotp(crypto: Crypto, r: TfaRecord, code: string, clock: Clock): Option<int> {
    match crypto.delta(r.secret, code, clock.matching)
    case None => None
    case Some(delta) => Some(clock.step / TOTP_PERIOD_MS + delta)
  }

  function FindRecoveryCode(codes: seq<string>, hash: string): (i: int)
    ensures -1 <= i < |codes|
    ensures i >= 0 ==> codes[i] == hash && hash !in codes[..i]
    ensures i < 0 ==> hash !in codes
  {
    if codes == [] then -1
    else if codes[0] == hash then 0
    else
      var i := FindRecoveryCode(codes[1..], hash);
      if i < 0 then -1 else i + 1
  }

  function RegisterFailure(r: TfaRecord, lock: int): TfaRecord {
    if r.failedAttempts + 1 >= MAX_FAILED_ATTEMPTS then r.(failedAttempts := 0, lockedUntil := Some(lock + LOCKOUT_MS))
    else r.(failedAttempts := r.failedAttempts + 1)
  }

  predicate Locked(r: TfaRecord, now: int) {
    r.lockedUntil.Some? && r.lockedUntil.value > now
  }

  function Verify(crypto: Crypto, r: Option<TfaRecord>, code: string, clock: Clock): (Option<TfaRecord>, Outcome) {
    if r.None? || r.value.pending then (r, NotEnrolled)
    else if Locked(r.value, clock.check) then (r, LockedOut)
    else
      match VerifyTotp(crypto, r.value, code, clock)
      case Some(step) =>
        if r.value.lastUsedStep.Some? && step <= r.value.lastUsedStep.value
        then (Some(RegisterFailure(r.value, clock.lock)), Replayed)
        else (Some(r.value.(failedAttempts := 0, lockedUntil := None, lastUsedStep := Some(step))), TotpAccepted(step))
      case None =>
        var hash := crypto.hash(code);
        var i := FindRecoveryCode(r.value.recoveryCodes, hash);
        if i >= 0
        then (Some(r.value.(recoveryCodes := r.value.recoveryCodes[..i] + r.value.recoveryCodes[i + 1..],
                            failedAttempts := 0, lockedUntil := None)), RecoveryAccepted(hash))
        else (Some(RegisterFailure(r.value, clock.lock)), WrongCode)
  }

  function Hashes(crypto: Crypto, codes: seq<string>): (h: seq<string>)
    ensures |h| == |codes|
  {
    seq(|codes|, i requires 0 <= i < |codes| => crypto.hash(codes[i]))
  }

  /** completeEnrolment; `issued` are the recovery codes it would generate. */
  function Complete(crypto: Crypto, r: Option<TfaRecord>, code: string, issued: seq<string>, clock: Clock)
    : (Option<TfaRecord>, Option<int>)
  {
    if r.None? || !r.value.pending then (r, None)
    else
      match VerifyTotp(crypto, r.value, code, clock)
      case None => (r, None)
      case Some(step) =>
        (Some(r.value.(pending := false, recoveryCodes := Hashes(crypto, issued), failedAttempts := 0,
                       lastUsedStep := Some(step))), Some(step))
  }

  function Begin(mode: Mode, secret: string): TfaRecord {
    TfaRecord(mode, true, secret, [], 0, None, None)
  }

  // ---------------------------------------------------------------- what a call means

  /** One more failure: the fifth locks the record and restarts the count, and nothing else changes. */
  ghost predicate OneFailure(r: TfaRecord, lock: int, after: TfaRecord) {
    && after.mode == r.mode && after.pending == r.pending && after.secret == r.secret
    && after.recoveryCodes == r.recoveryCodes && after.lastUsedStep == r.lastUsedStep
    && if r.failedAttempts + 1 < MAX_FAILED_ATTEMPTS
       then after.failedAttempts == r.failedAttempts + 1 && after.lockedUntil == r.lockedUntil
       else after.failedAttempts == 0 && after.lockedUntil == Some(lock + LOCKOUT_MS)
  }

  /** A success clears the failures and the lock. */
  ghost predicate Cleared(r: TfaRecord, after: TfaRecord) {
    && after.mode == r.mode && after.pending == r.pending && after.secret == r.secret
    && after.failedAttempts == 0 && after.lockedUntil.None?
  }

  /** The record is enrolled and not locked. */
  ghost predicate Open(r: Option<TfaRecord>, now: int) {
    r.Some? && !r.value.pending && (r.value.lockedUntil.None? || r.value.lockedUntil.value <= now)
  }

  /**
   * What one verification means: nothing without an open record; a matching code is accepted when
   * its step is after the last one used, and used; any other code is accepted when its hash is
   * among the recovery codes, of which it takes one; what is not accepted is one more failure.
   */
  ghost predicate Verified(
    crypto: Crypto, before: Option<TfaRecord>, code: string, clock: Clock, after: Option<TfaRecord>, ok: bool)
  {
    if !Open(before, clock.check) then !ok && after == before
    else
      var r, delta := before.value, crypto.delta(before.value.secret, code, clock.matching);
      && after.Some?
      && (if delta.Some?
          then ok <==> r.lastUsedStep.None? || r.lastUsedStep.value < clock.step / TOTP_PERIOD_MS + delta.value
          else ok <==> crypto.hash(code) in r.recoveryCodes)
      && (ok && delta.Some? ==>
            && Cleared(r, after.value) && after.value.recoveryCodes == r.recoveryCodes
            && after.value.lastUsedStep == Some(clock.step / TOTP_PERIOD_MS + delta.value))
      && (ok && delta.None? ==>
            && Cleared(r, after.value) && after.value.lastUsedStep == r.lastUsedStep
            && multiset(after.value.recoveryCodes) + multiset{crypto.hash(code)} == multiset(r.recoveryCodes))
      && (!ok ==> OneFailure(r, clock.lock, after.value))
  }

  lemma VerifyIsVerified(crypto: Crypto, before: Option<TfaRecord>, code: string, clock: Clock)
    ensures var (after, outcome) := Verify(crypto, before, code, clock);
            Verified(crypto, before, code, clock, after, Accepts(outcome))
  {
    var (after, outcome) := Verify(crypto, before, code, clock);
    if outcome.RecoveryAccepted? {
      OneRecoveryCodeLess(before.value.recoveryCodes, FindRecoveryCode(before.value.recoveryCodes, crypto.hash(code)));
    }
  }

  /**
   * What completing an enrolment means: exactly a pending record whose code matches becomes an
   * enrolled one, with the hashes of the issued codes and the code's step used.
   */
  ghost predicate Completed(
    crypto: Crypto, before: Option<TfaRecord>, code: string, issued: seq<string>, clock: Clock,
    after: Option<TfaRecord>, done: bool)
  {
    && (done <==> before.Some? && before.value.pending
                  && crypto.delta(before.value.secret, code, clock.matching).Some?)
    && (!done ==> after == before)
    && (done ==>
          && after.Some? && !after.value.pending && after.value.failedAttempts == 0
          && after.value.mode == before.value.mode && after.value.secret == before.value.secret
          && after.value.lockedUntil == before.value.lockedUntil
          && after.value.lastUsedStep == Some(clock.step / TOTP_PERIOD_MS
                                              + crypto.delta(before.value.secret, code, clock.matching).value)
          && |after.value.recoveryCodes| == |issued|
          && forall i :: 0 <= i < |issued| ==> after.value.recoveryCodes[i] == crypto.hash(issued[i]))
  }

  lemma CompleteIsCompleted(crypto: Crypto, before: Option<TfaRecord>, code: string, issued: seq<string>, clock: Clock)
    ensures var (after, step) := Complete(crypto, before, code, issued, clock);
            Completed(crypto, before, code, issued, clock, after, step.Some?)
  {
  }

  // ---------------------------------------------------------------- the class

  /** `records` is the token store: one record per user, replaced by every operation. */
  class Store {
    const crypto: Crypto
    var records: map<string, TfaRecord>

    constructor (crypto: Crypto)
      ensures this.crypto == crypto && records == map[]
    {
      this.crypto := crypto;
      records := map[];
    }

    function Get(username: string): Option<TfaRecord>
      reads this
    {
      if username in records then Some(records[username]) else None
    }

    method Save(username: string, record: TfaRecord)
      modifies this
      ensures records == old(records)[username := record]
    {
      records := records[username := record];
    }

    method BeginEnrolment(username: string, mode: Mode, secret: string) returns (record: TfaRecord)
      modifies this
      ensures record == Begin(mode, secret) && records == old(records)[username := record]
    {
      record := TfaRecord(mode, true, secret, [], 0, None, None);
      Save(username, record);
    }

    method CompleteEnrolment(username: string, code: string, issued: seq<string>, clock: Clock)
      returns (codes: Option<seq<string>>)
      modifies this
      ensures var (record, step) := Complete(crypto, old(Get(username)), code, issued, clock);
              && Get(username) == record
              && codes == (if step.Some? then Some(issued) else None)
      ensures Completed(crypto, old(Get(username)), code, issued, clock, Get(username), codes.Some?)
      ensures forall u :: u != username ==> Get(u) == old(Get(u))
    {
      codes := None;
      CompleteIsCompleted(crypto, Get(username), code, issued, clock);
      var found := Get(username);
      if found.None? || !found.value.pending {
        return;
      }
      var step := VerifyTotp(crypto, found.value, code, clock);
      if step.None? {
        return;
      }
      var hashed: seq<string> := [];
      for i := 0 to |issued|
        invariant hashed == Hashes(crypto, issued)[..i]
      {
        hashed := hashed + [crypto.hash(issued[i])];
      }
      assert hashed == Hashes(crypto, issued);
      Save(username, found.value.(pending := false, recoveryCodes := hashed,
                                  failedAttempts := 0, lastUsedStep := step));
      codes := Some(issued);
    }

    method Disable(username: string)
      modifies this
      ensures records == old(records) - {username}
    {
      records := records - {username};
    }

    method VerifyCode(username: string, code: string, clock: Clock) returns (ok: bool)
      modifies this
      ensures var (record, outcome) := Verify(crypto, old(Get(username)), code, clock);
              Get(username) == record && ok == Accepts(outcome)
      ensures Verified(crypto, old(Get(username)), code, clock, Get(username), ok)
      ensures forall u :: u != username ==> Get(u) == old(Get(u))
    {
      VerifyIsVerified(crypto, Get(username), code, clock);
      var found := Get(username);
      if found.None? || found.value.pending {
        return false;
      }
      var record := found.value;
      if record.lockedUntil.Some? && record.lockedUntil.value > clock.check {
        return false;
      }
      var step := VerifyTotp(crypto, record, code, clock);
      if step.Some? {
        if record.lastUsedStep.Some? && step.value <= record.lastUsedStep.value {
          CountFailure(username, record, clock.lock);
          return false;
        }
        Save(username, record.(failedAttempts := 0, lockedUntil := None, lastUsedStep := step));
        return true;
      }
      var index := FindRecoveryCode(record.recoveryCodes, crypto.hash(code));
      if index >= 0 {
        var remaining := record.recoveryCodes[..index] + record.recoveryCodes[index + 1..];
        Save(username, record.(recoveryCodes := remaining, failedAttempts := 0, lockedUntil := None));
        return true;
      }
      CountFailure(username, record, clock.lock);
      return false;
    }

    method CountFailure(username: string, record: TfaRecord, lock: int)
      modifies this
      ensures records == old(records)[username := RegisterFailure(record, lock)]
      ensures OneFailure(record, lock, records[username])
    {
      var failedAttempts := record.failedAttempts + 1;
      var locked := failedAttempts >= MAX_FAILED_ATTEMPTS;
      Save(username, record.(failedAttempts := if locked then 0 else failedAttempts,
                             lockedUntil := if locked then Some(lock + LOCKOUT_MS) else record.lockedUntil));
    }
  }

  // ---------------------------------------------------------------- guess bound

  datatype Attempt = Attempt(code: string, clock: Clock)

  function Outcomes(crypto: Crypto, r: Option<TfaRecord>, run: seq<Attempt>): (os: seq<Outcome>)
    ensures |os| == |run|
    decreases |run|
  {
    if run == [] then []
    else
      var (r', o) := Verify(crypto, r, run[0].code, run[0].clock);
      [o] + Outcomes(crypto, r', run[1..])
  }

  predicate NoSuccess(os: seq<Outcome>) {
    forall i :: 0 <= i < |os| ==> !Accepts(os[i])
  }

  // The clock never goes back, within a call or from one call to the next.
  predicate Forward(run: seq<Attempt>) {
    && (forall i :: 0 <= i < |run| ==> run[i].clock.check <= run[i].clock.lock)
    && (forall i, j :: 0 <= i < j < |run| ==> run[i].clock.lock <= run[j].clock.check)
  }

  /** How many attempts between `from` and `to` got past the lock check. */
  function Guesses(run: seq<Attempt>, os: seq<Outcome>, from: int, to: int): nat
    requires |run| == |os|
  {
    if run == [] then 0
    else
      (if PastLock(os[0]) && from <= run[0].clock.check <= to then 1 else 0) + Guesses(run[1..], os[1..], from, to)
  }

  // What a record still allows from `now` to `to`.
  function Allowance(r: TfaRecord, now: int, to: int): nat {
    var start := if Locked(r, now) then r.lockedUntil.value else now;
    if start > to then 0
    else
      (if r.failedAttempts >= MAX_FAILED_ATTEMPTS then 1 else MAX_FAILED_ATTEMPTS - r.failedAttempts)
      + MAX_FAILED_ATTEMPTS * ((to - start) / LOCKOUT_MS)
  }

  lemma LockoutsApart(a: int, b: int)
    requires 0 <= a && a + LOCKOUT_MS <= b
    ensures a / LOCKOUT_MS + 1 <= b / LOCKOUT_MS
  {
    assert (a + LOCKOUT_MS) / LOCKOUT_MS == a / LOCKOUT_MS + 1;
  }

  lemma AllowanceShrinks(r: TfaRecord, now: int, later: int, to: int)
    requires now <= later
    ensures Allowance(r, later, to) <= Allowance(r, now, to)
  {
  }

  // A failed attempt that got past the lock check uses up one guess.
  lemma {:induction false} FailureCosts(r: TfaRecord, check: int, lock: int, to: int)
    requires check <= lock && check <= to && !Locked(r, check)
    ensures Allowance(RegisterFailure(r, lock), lock, to) + 1 <= Allowance(r, check, to)
  {
    var r' := RegisterFailure(r, lock);
    if r.failedAttempts + 1 >= MAX_FAILED_ATTEMPTS {
      if lock + LOCKOUT_MS <= to {
        LockoutsApart(to - (lock + LOCKOUT_MS), to - check);
      }
    } else {
      AllowanceShrinks(r', check, lock, to);
    }
  }

  lemma {:induction false} GuessesWithinAllowance(crypto: Crypto, r: TfaRecord, run: seq<Attempt>, now: int,
      from: int, to: int)
    requires Forward(run) && !r.pending
    requires from <= now
    requires forall i :: 0 <= i < |run| ==> now <= run[i].clock.check
    requires NoSuccess(Outcomes(crypto, Some(r), run))
    ensures Guesses(run, Outcomes(crypto, Some(r), run), from, to) <= Allowance(r, now, to)
    decreases |run|
  {
    if run != [] {
      var (r', o) := Verify(crypto, Some(r), run[0].code, run[0].clock);
      var os := Outcomes(crypto, Some(r), run);
      assert os[0] == o && os[1..] == Outcomes(crypto, r', run[1..]);
      assert !Accepts(os[0]);
      var clock := run[0].clock;
      AllowanceShrinks(r, now, clock.check, to);
      GuessesWithinAllowance(crypto, r'.value, run[1..], clock.lock, from, to);
      if PastLock(o) {
        if clock.check <= to {
          FailureCosts(r, clock.check, clock.lock, to);
        }
      } else {
        AllowanceShrinks(r, clock.check, clock.lock, to);
      }
    }
  }

  // Attempts before the window do not count towards it.
  lemma {:induction false} WindowStarts(crypto: Crypto, r: TfaRecord, run: seq<Attempt>, from: int, to: int)
    requires Forward(run) && !r.pending && from <= to
    requires NoSuccess(Outcomes(crypto, Some(r), run))
    ensures Guesses(run, Outcomes(crypto, Some(r), run), from, to)
            <= MAX_FAILED_ATTEMPTS * (1 + (to - from) / LOCKOUT_MS)
    decreases |run|
  {
    if run == [] {
    } else if run[0].clock.check >= from {
      GuessesWithinAllowance(crypto, r, run, from, from, to);
      AllowanceIsBounded(r, from, to);
    } else {
      var (r', o) := Verify(crypto, Some(r), run[0].code, run[0].clock);
      var os := Outcomes(crypto, Some(r), run);
      assert os[0] == o && os[1..] == Outcomes(crypto, r', run[1..]);
      assert !Accepts(os[0]);
      WindowStarts(crypto, r'.value, run[1..], from, to);
    }
  }

  lemma AllowanceIsBounded(r: TfaRecord, from: int, to: int)
    requires from <= to
    ensures Allowance(r, from, to) <= MAX_FAILED_ATTEMPTS * (1 + (to - from) / LOCKOUT_MS)
  {
  }

  /**
   * Guess bound: in a run of verifications with no success, from any stored record, the
   * attempts that get past the lock check between `from` and `to` are at most five plus
   * five per lockout period in the window.
   */
  lemma {:induction false} GuessBound(crypto: Crypto, r: Option<TfaRecord>, run: seq<Attempt>, from: int, to: int)
    requires Forward(run) && from <= to
    requires NoSuccess(Outcomes(crypto, r, run))
    ensures Guesses(run, Outcomes(crypto, r, run), from, to) <= MAX_FAILED_ATTEMPTS * (1 + (to - from) / LOCKOUT_MS)
    decreases |run|
  {
    if r.None? || r.value.pending {
      if run != [] {
        assert Outcomes(crypto, r, run)[1..] == Outcomes(crypto, r, run[1..]);
        GuessBound(crypto, r, run[1..], from, to);
      }
    } else {
      WindowStarts(crypto, r.value, run, from, to);
    }
  }

  // ---------------------------------------------------------------- use once

  /** The calls on one user's record. */
  datatype Op =
    | BeginOp(mode: Mode, secret: string)
    | DisableOp
    | VerifyOp(code: string, clock: Clock)
    | CompleteOp(code: string, issued: seq<string>, clock: Clock)

  // The record an operation leaves and what it answered.
  function StepOp(crypto: Crypto, r: Option<TfaRecord>, op: Op): (Option<TfaRecord>, Outcome) {
    match op
    case BeginOp(mode, secret) => (Some(Begin(mode, secret)), Begun)
    case DisableOp => (None, Disabled)
    case VerifyOp(code, clock) => Verify(crypto, r, code, clock)
    case CompleteOp(code, issued, clock) =>
      var (r', step) := Complete(crypto, r, code, issued, clock);
      (r', if step.Some? then TotpAccepted(step.value) else WrongCode)
  }

  function Final(crypto: Crypto, r: Option<TfaRecord>, ops: seq<Op>): Option<TfaRecord>
    decreases |ops|
  {
    if ops == [] then r else Final(crypto, StepOp(crypto, r, ops[0]).0, ops[1..])
  }

  /** The time steps recorded as used by accepted codes, the confirming one included, in order. */
  function AcceptedSteps(crypto: Crypto, r: Option<TfaRecord>, ops: seq<Op>): seq<int>
    decreases |ops|
  {
    if ops == [] then []
    else
      var (r', o) := StepOp(crypto, r, ops[0]);
      (if o.TotpAccepted? then [o.step] else []) + AcceptedSteps(crypto, r', ops[1..])
  }

  /** The time steps the accepted codes actually belonged to, in order. */
  function AcceptedMatches(crypto: Crypto, r: Option<TfaRecord>, ops: seq<Op>): seq<int>
    decreases |ops|
  {
    if ops == [] then []
    else
      var (r', o) := StepOp(crypto, r, ops[0]);
      (if o.TotpAccepted? then [MatchedStep(crypto, r.value, ops[0].code, ops[0].clock).value] else [])
      + AcceptedMatches(crypto, r', ops[1..])
  }

  function UsedBy(o: Outcome): seq<string> {
    if o.RecoveryAccepted? then [o.hash] else []
  }

  /** The hashes of the recovery codes that were accepted, in order. */
  function UsedRecovery(crypto: Crypto, r: Option<TfaRecord>, ops: seq<Op>): seq<string>
    decreases |ops|
  {
    if ops == [] then []
    else
      var (r', o) := StepOp(crypto, r, ops[0]);
      UsedBy(o) + UsedRecovery(crypto, r', ops[1..])
  }

  // No call ends the enrolment.
  predicate OneEnrolment(ops: seq<Op>) {
    forall i :: 0 <= i < |ops| ==> ops[i].VerifyOp? || ops[i].CompleteOp?
  }

  predicate Increasing(steps: seq<int>) {
    forall i, j :: 0 <= i < j < |steps| ==> steps[i] < steps[j]
  }

  predicate Above(steps: seq<int>, low: int) {
    forall i :: 0 <= i < |steps| ==> low < steps[i]
  }

  lemma PrependIncreases(first: int, steps: seq<int>)
    requires Increasing(steps) && Above(steps, first)
    ensures Increasing([first] + steps)
  {
  }

  lemma {:induction false} StepsAboveLast(crypto: Crypto, r: TfaRecord, ops: seq<Op>)
    requires !r.pending && OneEnrolment(ops)
    ensures var steps := AcceptedSteps(crypto, Some(r), ops);
            Increasing(steps) && (r.lastUsedStep.Some? ==> Above(steps, r.lastUsedStep.value))
    decreases |ops|
  {
    if ops != [] {
      var (r', o) := StepOp(crypto, Some(r), ops[0]);
      StepsAboveLast(crypto, r'.value, ops[1..]);
      if o.TotpAccepted? {
        PrependIncreases(o.step, AcceptedSteps(crypto, r', ops[1..]));
      }
    }
  }

  /**
   * RFC 6238, section 5.2, on the recorded steps: within one enrolment the accepted steps
   * strictly increase, starting with the confirming code, whatever the clock does.
   */
  lemma {:induction false} AcceptedStepsIncrease(crypto: Crypto, mode: Mode, secret: string, ops: seq<Op>)
    requires OneEnrolment(ops)
    ensures Increasing(AcceptedSteps(crypto, Some(Begin(mode, secret)), ops))
  {
    PendingStepsIncrease(crypto, Begin(mode, secret), ops);
  }

  lemma {:induction false} PendingStepsIncrease(crypto: Crypto, r: TfaRecord, ops: seq<Op>)
    requires OneEnrolment(ops)
    ensures Increasing(AcceptedSteps(crypto, Some(r), ops))
    decreases |ops|
  {
    if !r.pending {
      StepsAboveLast(crypto, r, ops);
    } else if ops != [] {
      var (r', o) := StepOp(crypto, Some(r), ops[0]);
      if o.TotpAccepted? {
        StepsAboveLast(crypto, r'.value, ops[1..]);
        PrependIncreases(o.step, AcceptedSteps(crypto, r', ops[1..]));
      } else {
        PendingStepsIncrease(crypto, r, ops[1..]);
      }
    }
  }

  predicate SamePeriod(clock: Clock) {
    clock.matching / TOTP_PERIOD_MS == clock.step / TOTP_PERIOD_MS
  }

  /** The recorded step is the matched step exactly when both clock reads fall in one period. */
  lemma {:induction false} RecordedIsMatched(crypto: Crypto, r: TfaRecord, code: string, clock: Clock)
    requires MatchedStep(crypto, r, code, clock).Some?
    ensures VerifyTotp(crypto, r, code, clock) == MatchedStep(crypto, r, code, clock) <==> SamePeriod(clock)
  {
  }

  /**
   * When the clock reads of every call fall in one period, the time steps the accepted
   * codes belong to strictly increase: no code is good for its step twice.
   */
  lemma {:induction false} MatchesIncrease(crypto: Crypto, mode: Mode, secret: string, ops: seq<Op>)
    requires OneEnrolment(ops) && forall i :: 0 <= i < |ops| ==> SamePeriod(ops[i].clock)
    ensures Increasing(AcceptedMatches(crypto, Some(Begin(mode, secret)), ops))
  {
    MatchesAreSteps(crypto, Some(Begin(mode, secret)), ops);
    AcceptedStepsIncrease(crypto, mode, secret, ops);
  }

  lemma {:induction false} MatchesAreSteps(crypto: Crypto, r: Option<TfaRecord>, ops: seq<Op>)
    requires OneEnrolment(ops) && forall i :: 0 <= i < |ops| ==> SamePeriod(ops[i].clock)
    ensures AcceptedMatches(crypto, r, ops) == AcceptedSteps(crypto, r, ops)
    decreases |ops|
  {
    if ops != [] {
      var (r', o) := StepOp(crypto, r, ops[0]);
      MatchesAreSteps(crypto, r', ops[1..]);
      if o.TotpAccepted? {
        assert SamePeriod(ops[0].clock);
        RecordedIsMatched(crypto, r.value, ops[0].code, ops[0].clock);
      }
    }
  }

  /** By how many periods the second read of the clock is ahead of the first; negative when it was set back. */
  function Drift(clock: Clock): int {
    clock.step / TOTP_PERIOD_MS - clock.matching / TOTP_PERIOD_MS
  }

  /**
   * The condition is exact: presenting the code of the last used step again is accepted
   * exactly when a later period has begun at the second read of the clock, that is, unless the
   * clock was set back, when the period ends between the two reads.
   */
  lemma {:induction false} LastCodeAgain(crypto: Crypto, r: TfaRecord, code: string, clock: Clock)
    requires !r.pending && !Locked(r, clock.check)
    requires r.lastUsedStep.Some? && MatchedStep(crypto, r, code, clock) == r.lastUsedStep
    ensures Verify(crypto, Some(r), code, clock).1.TotpAccepted? <==> Drift(clock) > 0
    ensures clock.matching <= clock.step ==> (Drift(clock) > 0 <==> !SamePeriod(clock))
  {
    var n, m := clock.step / TOTP_PERIOD_MS, clock.matching / TOTP_PERIOD_MS;
    if clock.matching <= clock.step {
      assert m <= n;
    }
  }

  /**
   * A code that was accepted is accepted again, by the next call that matches the same time step,
   * exactly when the clock is further ahead between the two reads of that call than it was
   * between those of the first. So it is when the clock was set back within the first call and
   * both reads of the second fall in one period.
   */
  lemma {:induction false} AcceptedCodeAgain(
    crypto: Crypto, r: Option<TfaRecord>, op: Op, code: string, clock: Clock)
    requires op.VerifyOp? || op.CompleteOp?
    requires StepOp(crypto, r, op).1.TotpAccepted?
    requires r.Some? && MatchedStep(crypto, r.value, op.code, op.clock) == MatchedStep(crypto, r.value, code, clock)
    ensures var r' := StepOp(crypto, r, op).0;
            && r'.Some?
            && (op.VerifyOp? ==> !Locked(r'.value, clock.check))
            && (Verify(crypto, r', code, clock).1.TotpAccepted? <==>
                !Locked(r'.value, clock.check) && Drift(clock) > Drift(op.clock))
  {
    var r' := StepOp(crypto, r, op).0;
    assert MatchedStep(crypto, r'.value, code, clock) == MatchedStep(crypto, r.value, code, clock);
  }

  // A matcher that accepts a code for step 100, one step either side.
  function StepHundred(): Crypto {
    Crypto(c => c, (secret, code, now) =>
      var delta := 100 - now / TOTP_PERIOD_MS;
      if -1 <= delta <= 1 then Some(delta) else None)
  }

  /** A run in which the code of step 100 confirms the enrolment and is then accepted once more. */
  lemma {:induction false} MatchUsedTwice()
    ensures var early := 100 * TOTP_PERIOD_MS;
            var late := 101 * TOTP_PERIOD_MS;
            var ops := [CompleteOp("123456", [], Clock(early, early, early, early)),
                        VerifyOp("123456", Clock(late - 1, late - 1, late, late))];
            AcceptedMatches(StepHundred(), Some(Begin(AuthOnly, "s")), ops) == [100, 100]
  {
    var early := 100 * TOTP_PERIOD_MS;
    var late := 101 * TOTP_PERIOD_MS;
    var first := CompleteOp("123456", [], Clock(early, early, early, early));
    var second := VerifyOp("123456", Clock(late - 1, late - 1, late, late));
    var ops := [first, second];
    var r0 := Some(Begin(AuthOnly, "s"));
    var (r1, o1) := StepOp(StepHundred(), r0, first);
    var (r2, o2) := StepOp(StepHundred(), r1, second);
    assert o1 == TotpAccepted(100) && o2 == TotpAccepted(101);
    assert ops[1..] == [second] && ops[1..][1..] == [];
    assert AcceptedMatches(StepHundred(), r2, []) == [];
    assert AcceptedMatches(StepHundred(), r1, [second]) == [100];
  }

  // ---------------------------------------------------------------- recovery codes

  lemma {:induction false} OneRecoveryCodeLess(codes: seq<string>, i: nat)
    requires i < |codes|
    ensures multiset(codes[..i] + codes[i + 1..]) + multiset{codes[i]} == multiset(codes)
  {
    assert codes == codes[..i] + [codes[i]] + codes[i + 1..];
  }

  lemma {:induction false} StepConserves(crypto: Crypto, r: TfaRecord, op: Op)
    requires !r.pending && (op.VerifyOp? || op.CompleteOp?)
    ensures var (r', o) := StepOp(crypto, Some(r), op);
            && r'.Some? && !r'.value.pending
            && multiset(UsedBy(o)) + multiset(r'.value.recoveryCodes) == multiset(r.recoveryCodes)
  {
    var (r', o) := StepOp(crypto, Some(r), op);
    if o.RecoveryAccepted? {
      OneRecoveryCodeLess(r.recoveryCodes, FindRecoveryCode(r.recoveryCodes, o.hash));
    }
  }

  /**
   * Conservation: the recovery codes accepted so far and those still stored make up the
   * codes the record had, so a hash is accepted at most as often as it was stored.
   */
  lemma {:induction false} RecoveryCodesAreConserved(crypto: Crypto, r: TfaRecord, ops: seq<Op>)
    requires !r.pending && OneEnrolment(ops)
    ensures Final(crypto, Some(r), ops).Some?
    ensures multiset(UsedRecovery(crypto, Some(r), ops)) + multiset(Final(crypto, Some(r), ops).value.recoveryCodes)
            == multiset(r.recoveryCodes)
    decreases |ops|
  {
    if ops != [] {
      var (r', o) := StepOp(crypto, Some(r), ops[0]);
      StepConserves(crypto, r, ops[0]);
      RecoveryCodesAreConserved(crypto, r'.value, ops[1..]);
    }
  }

  lemma {:induction false} DistinctCounts(xs: seq<string>, x: string)
    requires Distinct(xs)
    ensures multiset(xs)[x] <= 1
  {
    if xs != [] {
      assert xs == [xs[0]] + xs[1..];
      DistinctCounts(xs[1..], x);
      if x == xs[0] {
        assert x !in xs[1..];
      }
    }
  }

  lemma {:induction false} SubBagOfDistinct(xs: seq<string>, ys: seq<string>)
    requires multiset(xs) <= multiset(ys) && Distinct(ys)
    ensures Distinct(xs)
  {
    forall i, j | 0 <= i < j < |xs| ensures xs[i] != xs[j] {
      assert xs == xs[..i] + [xs[i]] + xs[i + 1..j] + [xs[j]] + xs[j + 1..];
      DistinctCounts(ys, xs[i]);
    }
  }

  /**
   * Within one enrolment whose recovery codes have distinct hashes, no recovery code is
   * accepted twice and at most ten are accepted in all.
   */
  lemma {:induction false} RecoveryCodesAreSingleUse(crypto: Crypto, r: TfaRecord, ops: seq<Op>)
    requires r.pending && OneEnrolment(ops)
    requires forall i :: 0 <= i < |ops| && ops[i].CompleteOp? ==>
               |ops[i].issued| == RECOVERY_CODE_COUNT && Distinct(Hashes(crypto, ops[i].issued))
    ensures var used := UsedRecovery(crypto, Some(r), ops);
            Distinct(used) && |used| <= RECOVERY_CODE_COUNT
    decreases |ops|
  {
    if ops != [] {
      var (r', o) := StepOp(crypto, Some(r), ops[0]);
      if o.TotpAccepted? {
        RecoveryCodesAreConserved(crypto, r'.value, ops[1..]);
        var used := UsedRecovery(crypto, r', ops[1..]);
        SubBagOfDistinct(used, r'.value.recoveryCodes);
        assert |multiset(used)| <= |multiset(r'.value.recoveryCodes)|;
      } else {
        RecoveryCodesAreSingleUse(crypto, r, ops[1..]);
      }
    }
  }

  // ---------------------------------------------------------------- behind the queue, with failing storage

  /** How saveToken ends; a throwing one may still have stored the record. */
  datatype SaveFate = Saves | SaveThrows(stored: bool)

  /**
   * How the storage treats one call: reading or decrypting may throw, encrypting may throw, and
   * deleteToken, whose failure is ignored, may or may not delete.
   */
  datatype Fate = Fate(readThrows: bool, encryptThrows: bool, deletes: bool, save: SaveFate)

  const WORKS := Fate(false, false, true, Saves)

  datatype Call = Call(user: string, op: Op, fate: Fate)

  /** What `run` keeps between its operations: the record it read and what it will answer. */
  datatype Local = Local(read: Option<TfaRecord>, outcome: Outcome)

  type Stored = Option<TfaRecord>

  predicate Reads(op: Op) {
    op.VerifyOp? || op.CompleteOp?
  }

  /** The call gets as far as saving a record. */
  predicate Writes(crypto: Crypto, r: Stored, op: Op) {
    match op
    case BeginOp(_, _) => true
    case DisableOp => false
    case VerifyOp(_, _) => PastLock(StepOp(crypto, r, op).1)
    case CompleteOp(_, _, _) => StepOp(crypto, r, op).1.TotpAccepted?
  }

  function ReadStep(c: Call): (Stored, Local) -> Queue.Outcome<Stored, Local> {
    (v: Stored, l: Local) =>
      if Reads(c.op) && c.fate.readThrows then Queue.Throw(v, 0) else Queue.Next(v, l.(read := v))
  }

  /** Encrypting, then deleteToken; disabling is deleteToken alone. */
  function DeleteStep(crypto: Crypto, c: Call): (Stored, Local) -> Queue.Outcome<Stored, Local> {
    (v: Stored, l: Local) =>
      var answer := Local(l.read, StepOp(crypto, l.read, c.op).1);
      if !c.op.DisableOp? && !Writes(crypto, l.read, c.op) then Queue.Next(v, answer)
      else if !c.op.DisableOp? && c.fate.encryptThrows then Queue.Throw(v, 0)
      else Queue.Next(if c.fate.deletes then None else v, answer)
  }

  /** saveToken, of what the record read calls for. */
  function SaveStep(crypto: Crypto, c: Call): (Stored, Local) -> Queue.Outcome<Stored, Local> {
    (v: Stored, l: Local) =>
      var after := StepOp(crypto, l.read, c.op).0;
      if !Writes(crypto, l.read, c.op) then Queue.Next(v, l)
      else
        match c.fate.save
        case Saves => Queue.Next(after, l)
        case SaveThrows(stored) => Queue.Throw(if stored then after else v, 0)
  }

  /** An operation as the mutation that enqueueUserMutation queues for its user. */
  function Mutation(crypto: Crypto, c: Call): Queue.Call<string, Stored, Local> {
    Queue.Call(c.user, [ReadStep(c), DeleteStep(crypto, c), SaveStep(crypto, c)], Local(None, NotEnrolled))
  }

  /** Some operation of the call throws, so the call rejects. */
  predicate Rejects(crypto: Crypto, r: Stored, c: Call) {
    || (Reads(c.op) && c.fate.readThrows)
    || (Writes(crypto, r, c.op) && (c.fate.encryptThrows || c.fate.save.SaveThrows?))
  }

  /** Saving throws between deleting the old record and storing the new one. */
  predicate Loses(crypto: Crypto, r: Stored, c: Call) {
    && !(Reads(c.op) && c.fate.readThrows)
    && Writes(crypto, r, c.op) && !c.fate.encryptThrows
    && c.fate.deletes && c.fate.save == SaveThrows(false)
  }

  /** The operations without failures a call amounts to: itself, nothing, or a disable. */
  function Amounts(crypto: Crypto, r: Stored, c: Call): seq<Op> {
    if Loses(crypto, r, c) then [DisableOp]
    else if c.op.DisableOp? then (if c.fate.deletes then [DisableOp] else [])
    else if Reads(c.op) && c.fate.readThrows then []
    else if Writes(crypto, r, c.op) && (c.fate.encryptThrows || c.fate.save == SaveThrows(false)) then []
    else [c.op]
  }

  /** How the promise of a call settles, given the record when its mutation runs. */
  function AnswerTo(crypto: Crypto, r: Stored, c: Call): Queue.Settled<Local> {
    if Rejects(crypto, r, c) then Queue.Rejected(0)
    else Queue.Resolved(Local(r, StepOp(crypto, r, c.op).1))
  }

  // Without a save the record stays.
  lemma UnwrittenStays(crypto: Crypto, r: Stored, op: Op)
    requires !op.DisableOp? && !Writes(crypto, r, op)
    ensures StepOp(crypto, r, op).0 == r
  {
  }

  lemma {:induction false} MutationRuns(crypto: Crypto, c: Call, v: Stored)
    ensures Queue.RunAlone(Mutation(crypto, c), v) ==
            (Final(crypto, v, Amounts(crypto, v, c)), AnswerTo(crypto, v, c))
  {
    var m := Mutation(crypto, c);
    var l0, l1 := m.init, Local(v, NotEnrolled);
    var l2 := Local(v, StepOp(crypto, v, c.op).1);
    assert m.steps[0](v, l0) == ReadStep(c)(v, l0);
    assert m.steps[1](v, l1) == DeleteStep(crypto, c)(v, l1);
    var w := if (c.op.DisableOp? || Writes(crypto, v, c.op)) && c.fate.deletes then None else v;
    assert m.steps[2](w, l2) == SaveStep(crypto, c)(w, l2);
    assert Queue.RunPrefix(m, 0, v) == Queue.InFlight(v, l0);
    var p1, p2 := Queue.RunPrefix(m, 1, v), Queue.RunPrefix(m, 2, v);
    assert p1 == if Reads(c.op) && c.fate.readThrows then Queue.Stopped(v, Queue.Rejected(0))
                 else Queue.InFlight(v, l1);
    assert p2 == if p1.Stopped? then p1
                 else if Writes(crypto, v, c.op) && c.fate.encryptThrows then Queue.Stopped(v, Queue.Rejected(0))
                 else Queue.InFlight(w, l2);
    if !c.op.DisableOp? && !Writes(crypto, v, c.op) {
      UnwrittenStays(crypto, v, c.op);
    }
    FinalOfOne(crypto, v, c.op);
    FinalOfOne(crypto, v, DisableOp);
  }

  lemma FinalOfOne(crypto: Crypto, r: Stored, op: Op)
    ensures Final(crypto, r, [op]) == StepOp(crypto, r, op).0
  {
    assert [op][1..] == [];
  }

  /** The call would save a record: it begins an enrolment, completes one, or verifies a code past the lock. */
  ghost predicate WouldSave(crypto: Crypto, r: Stored, op: Op) {
    match op
    case BeginOp(_, _) => true
    case DisableOp => false
    case VerifyOp(_, clock) => Open(r, clock.check)
    case CompleteOp(code, _, clock) =>
      r.Some? && r.value.pending && crypto.delta(r.value.secret, code, clock.matching).Some?
  }

  /**
   * A call whose storage may fail: it rejects exactly when its read, its encryption or its save
   * throws. It leaves the record that was there, unless it got as far as deleting it, and what it
   * was to save exactly when that was stored.
   */
  lemma {:induction false} FailingCallMeans(crypto: Crypto, r: Stored, c: Call)
    ensures var unread := (c.op.VerifyOp? || c.op.CompleteOp?) && c.fate.readThrows;
            var saves := WouldSave(crypto, r, c.op);
            var stored := c.fate.save.Saves? || c.fate.save.stored;
            && (AnswerTo(crypto, r, c).Rejected? <==>
                unread || (saves && (c.fate.encryptThrows || c.fate.save.SaveThrows?)))
            && Final(crypto, r, Amounts(crypto, r, c)) ==
               if unread then r
               else if c.op.DisableOp? then (if c.fate.deletes then None else r)
               else if !saves || c.fate.encryptThrows then r
               else if stored then StepOp(crypto, r, c.op).0
               else if c.fate.deletes then None
               else r
  {
    FinalOfOne(crypto, r, c.op);
    FinalOfOne(crypto, r, DisableOp);
    if !c.op.DisableOp? && !Writes(crypto, r, c.op) {
      UnwrittenStays(crypto, r, c.op);
    }
  }

  /**
   * A failing save costs the user the second factor: a call leaves an enrolled user without a
   * record exactly when it is a disable that deletes, or a save that throws after the old record
   * was deleted and before the new one is stored.
   */
  lemma {:induction false} RecordIsLost(crypto: Crypto, r: TfaRecord, c: Call)
    ensures Final(crypto, Some(r), Amounts(crypto, Some(r), c)).None? <==>
            (c.op.DisableOp? && c.fate.deletes) || Loses(crypto, Some(r), c)
  {
    FinalOfOne(crypto, Some(r), c.op);
    FinalOfOne(crypto, Some(r), DisableOp);
  }

  // What the calls of one user among the first n amount to, in call order.
  function OpsOf(crypto: Crypto, calls: seq<Call>, user: string, n: nat): seq<Op>
    requires n <= |calls|
  {
    if n == 0 then []
    else
      var before := OpsOf(crypto, calls, user, n - 1);
      before + (if calls[n - 1].user == user then Amounts(crypto, Final(crypto, None, before), calls[n - 1]) else [])
  }

  lemma {:induction false} FinalOfSum(crypto: Crypto, r: Option<TfaRecord>, ops: seq<Op>, more: seq<Op>)
    ensures Final(crypto, r, ops + more) == Final(crypto, Final(crypto, r, ops), more)
    decreases |ops|
  {
    if ops == [] {
      assert ops + more == more;
    } else {
      assert (ops + more)[1..] == ops[1..] + more;
      FinalOfSum(crypto, StepOp(crypto, r, ops[0]).0, ops[1..], more);
    }
  }

  ghost predicate Issues(crypto: Crypto, jobs: seq<Queue.Job<string, Stored, Local>>, calls: seq<Call>) {
    && |jobs| == |calls|
    && forall i :: 0 <= i < |jobs| ==> jobs[i].call == Mutation(crypto, calls[i])
  }

  lemma {:induction false} ReplayIsFinal(
    crypto: Crypto, jobs: seq<Queue.Job<string, Stored, Local>>, calls: seq<Call>, user: string, n: nat)
    requires Issues(crypto, jobs, calls) && n <= |jobs|
    ensures Queue.Replay(jobs, user, n, None) == Final(crypto, None, OpsOf(crypto, calls, user, n))
  {
    if n > 0 {
      ReplayIsFinal(crypto, jobs, calls, user, n - 1);
      var before := OpsOf(crypto, calls, user, n - 1);
      if calls[n - 1].user == user {
        MutationRuns(crypto, calls[n - 1], Final(crypto, None, before));
        FinalOfSum(crypto, None, before, Amounts(crypto, Final(crypto, None, before), calls[n - 1]));
      } else {
        assert OpsOf(crypto, calls, user, n) == before;
      }
    }
  }

  // Job j answered, and the record behind an idle user is, what the calls one by one give.
  ghost predicate AnswersInOrder(crypto: Crypto, s: Queue.State<string, Stored, Local>, calls: seq<Call>)
    requires |s.jobs| == |calls|
  {
    && (forall j: nat :: j < |calls| && Queue.Over(s.jobs[j].phase) ==>
          s.jobs[j].phase.result ==
          AnswerTo(crypto, Final(crypto, None, OpsOf(crypto, calls, calls[j].user, j)), calls[j]))
    && (forall user: string, n: nat :: n <= |calls| && Queue.Frontier(s.jobs, user, n) ==>
          Queue.At(s.store, user, None) == Final(crypto, None, OpsOf(crypto, calls, user, n)))
  }

  lemma {:induction false} SequentialAnswers(
    crypto: Crypto, s: Queue.State<string, Stored, Local>, calls: seq<Call>)
    requires Issues(crypto, s.jobs, calls) && Queue.AsIfOneByOne(None, s)
    ensures AnswersInOrder(crypto, s, calls)
  {
    forall j: nat | j < |calls| && Queue.Over(s.jobs[j].phase)
      ensures s.jobs[j].phase.result ==
              AnswerTo(crypto, Final(crypto, None, OpsOf(crypto, calls, calls[j].user, j)), calls[j])
    {
      ReplayIsFinal(crypto, s.jobs, calls, calls[j].user, j);
      MutationRuns(crypto, calls[j], Final(crypto, None, OpsOf(crypto, calls, calls[j].user, j)));
    }
    forall user: string, n: nat | n <= |calls| && Queue.Frontier(s.jobs, user, n)
      ensures Queue.At(s.store, user, None) == Final(crypto, None, OpsOf(crypto, calls, user, n))
    {
      ReplayIsFinal(crypto, s.jobs, calls, user, n);
    }
  }

  /**
   * Concurrent calls, any users, any interleaving of their storage operations, any of which may
   * throw: each settled call answered what it answers when the calls of its user run one by one
   * in call order, and an idle user's record is the one they leave. A rejected call amounts to
   * the operation itself, to nothing, or to a disable, so the results above, stated for
   * operations that do not fail, hold of concurrent and failing calls.
   */
  lemma {:induction false} ConcurrentCallsAreSequential(
    crypto: Crypto, acts: seq<Queue.Action<string, Stored, Local>>, calls: seq<Call>)
    requires Issues(crypto, Queue.Exec(false, None, Queue.Empty(), acts).jobs, calls)
    ensures AnswersInOrder(crypto, Queue.Exec(false, None, Queue.Empty(), acts), calls)
  {
    Queue.RunsAsIfOneByOne(false, None, acts);
    SequentialAnswers(crypto, Queue.Exec(false, None, Queue.Empty(), acts), calls);
  }

  /** When the storage never fails, the calls of a user amount to their operations, and none rejects. */
  lemma {:induction false} WorkingStorage(crypto: Crypto, r: Stored, c: Call)
    requires c.fate == WORKS
    ensures Amounts(crypto, r, c) == [c.op] && AnswerTo(crypto, r, c).Resolved?
  {
  }
}
