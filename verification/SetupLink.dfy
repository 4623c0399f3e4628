/**
 * The one-time admin setup link (setup-link.ts) as a step machine over the file system.
 *
 * Any number of processes issue, inspect and consume links. Each action is one file
 * operation, or one read of the clock with the comparison that follows it, of one process;
 * actions of different processes interleave in any order, operations may throw, and a
 * process that stops acting has crashed. Tokens, temporary names and claim names are fresh,
 * and a hash stands for its token: both are the number of the issuing process.
 */
module SetupLink {
  import opened Common

  const SETUP_TTL_MS := 15 * 60 * 1000

  type Token = nat

  /** The setup file: the hash of a token and when it expires. */
  datatype SetupFile = SetupFile(token: Token, expires: int)

  datatype Match = Matches | Expired | Invalid

  datatype Verdict = Ok | NotValid | AdminExists

  /** What a process is about to do, with what it has read. */
  datatype Proc =
    // issueSetupLink
    | IssueCheck
    | IssueRemove
    | IssueWrite
    | IssueRename(record: SetupFile)
    | IssueProtect(record: SetupFile)
    | Issued(record: SetupFile)
    | NotIssued
    // inspectSetupLink
    | InspectRead(token: Token)
    | InspectCompare(token: Token, found: Option<SetupFile>)
    | InspectUsers(token: Token, found: Option<SetupFile>, state: Match)
    | InspectRemove(token: Token, found: Option<SetupFile>, answer: Verdict)
    | Inspected(answer: Verdict)
    // consumeSetupLink
    | ConsumeRead(token: Token)
    | ConsumeCompare(token: Token, found: Option<SetupFile>)
    | ConsumeUsers(token: Token, found: Option<SetupFile>, state: Match)
    | ConsumeRemove(token: Token, found: Option<SetupFile>, answer: Verdict)
    | ConsumeRename(token: Token, found: Option<SetupFile>)
    | ConsumeReadClaim(token: Token, claim: SetupFile)
    | ConsumeCompareClaim(token: Token, claim: SetupFile)
    | ConsumeUnlink(token: Token, claim: SetupFile, at: int, answer: Verdict)
    | Consumed(token: Token, claim: SetupFile, at: int, answer: Verdict)
    | Refused(token: Token, answer: Verdict)
    | Threw

  /** Who renamed a record away, and the token presented to that process. */
  datatype Claim = Claim(holder: nat, presented: Token)

  /**
   * `file` is the setup file; temporary files and claimed files belong to their process.
   * `users` tells whether the htpasswd file has users. History, never read by a step:
   * `written` has the record each token was issued with, `claimed` who renamed it away.
   */
  datatype State = State(
    procs: seq<Proc>,
    file: Option<SetupFile>,
    users: bool,
    now: int,
    written: map<Token, SetupFile>,
    claimed: map<Token, Claim>)

  datatype Action =
    | Issue
    | Inspect(token: Token)
    | Consume(token: Token)
    | Tick(ms: nat)
    | SetUsers(users: bool)
    | Step(proc: nat, throws: bool)

  function Start(now: int): State {
    State([], None, false, now, map[], map[])
  }

  // ---------------------------------------------------------------- steps

  function TokenState(found: Option<SetupFile>, token: Token, now: int): Match {
    if found.None? || found.value.token != token then Invalid
    else if now > found.value.expires then Expired
    else Matches
  }

  function Become(s: State, p: nat, proc: Proc): State
    requires p < |s.procs|
  {
    s.(procs := s.procs[p := proc])
  }

  function Apply(s: State, a: Action): State {
    match a
    case Issue => s.(procs := s.procs + [IssueCheck])
    case Inspect(token) => s.(procs := s.procs + [InspectRead(token)])
    case Consume(token) => s.(procs := s.procs + [ConsumeRead(token)])
    case Tick(ms) => s.(now := s.now + ms)
    case SetUsers(users) => s.(users := users)
    case Step(p, throws) =>
      if p >= |s.procs| then s
      else if Issuing(s.procs[p]) then StepIssue(s, p, throws)
      else if Inspecting(s.procs[p]) then StepInspect(s, p, throws)
      else if Consuming(s.procs[p]) then StepConsume(s, p, throws)
      else if Claiming(s.procs[p]) then StepClaim(s, p, throws)
      else s
  }

  predicate Issuing(proc: Proc) {
    proc.IssueCheck? || proc.IssueRemove? || proc.IssueWrite? || proc.IssueRename? || proc.IssueProtect?
  }

  predicate Inspecting(proc: Proc) {
    proc.InspectRead? || proc.InspectCompare? || proc.InspectUsers? || proc.InspectRemove?
  }

  predicate Consuming(proc: Proc) {
    proc.ConsumeRead? || proc.ConsumeCompare? || proc.ConsumeUsers? || proc.ConsumeRemove?
  }

  predicate Claiming(proc: Proc) {
    proc.ConsumeRename? || proc.ConsumeReadClaim? || proc.ConsumeCompareClaim? || proc.ConsumeUnlink?
  }

  function StepIssue(s: State, p: nat, throws: bool): State
    requires p < |s.procs|
  {
    if throws then Become(s, p, Threw)
    else
      match s.procs[p]
      case IssueCheck => Become(s, p, if s.users then IssueRemove else IssueWrite)
      case IssueRemove => Become(s.(file := None), p, NotIssued)
      case IssueWrite =>
        var r := SetupFile(p, s.now + SETUP_TTL_MS);
        Become(s.(written := s.written[p := r]), p, IssueRename(r))
      case IssueRename(r) => Become(s.(file := Some(r)), p, IssueProtect(r))
      case IssueProtect(r) => if s.file.None? then Become(s, p, Threw) else Become(s, p, Issued(r))
      case _ => s
  }

  function StepInspect(s: State, p: nat, throws: bool): State
    requires p < |s.procs|
  {
    match s.procs[p]
    case InspectRead(token) => Become(s, p, InspectCompare(token, if throws then None else s.file))
    case InspectCompare(token, found) => Become(s, p, InspectUsers(token, found, TokenState(found, token, s.now)))
    case InspectUsers(token, found, state) =>
      if throws then Become(s, p, Threw)
      else if s.users then
        Become(s, p, if state.Matches? then InspectRemove(token, found, AdminExists) else Inspected(NotValid))
      else if state.Expired? then Become(s, p, InspectRemove(token, found, NotValid))
      else Become(s, p, Inspected(if state.Matches? then Ok else NotValid))
    case InspectRemove(_, _, answer) =>
      if throws then Become(s, p, Threw) else Become(s.(file := None), p, Inspected(answer))
    case _ => s
  }

  /** consumeSetupLink up to its rename. */
  function StepConsume(s: State, p: nat, throws: bool): State
    requires p < |s.procs|
  {
    match s.procs[p]
    case ConsumeRead(token) => Become(s, p, ConsumeCompare(token, if throws then None else s.file))
    case ConsumeCompare(token, found) => Become(s, p, ConsumeUsers(token, found, TokenState(found, token, s.now)))
    case ConsumeUsers(token, found, state) =>
      if throws then Become(s, p, Threw)
      else if s.users then
        Become(s, p, if state.Matches? then ConsumeRemove(token, found, AdminExists) else Refused(token, NotValid))
      else if state.Matches? then Become(s, p, ConsumeRename(token, found))
      else if state.Expired? then Become(s, p, ConsumeRemove(token, found, NotValid))
      else Become(s, p, Refused(token, NotValid))
    case ConsumeRemove(token, _, answer) =>
      if throws then Become(s, p, Threw) else Become(s.(file := None), p, Refused(token, answer))
    case _ => s
  }

  /** consumeSetupLink from its rename on. */
  function StepClaim(s: State, p: nat, throws: bool): State
    requires p < |s.procs|
  {
    match s.procs[p]
    case ConsumeRename(token, _) =>
      // renaming claims whatever the setup file is by now
      if throws || s.file.None? then Become(s, p, Refused(token, NotValid))
      else
        var claim := s.file.value;
        Become(s.(file := None, claimed := s.claimed[claim.token := Claim(p, token)]), p,
               ConsumeReadClaim(token, claim))
    case ConsumeReadClaim(token, claim) =>
      if throws then Become(s, p, Threw) else Become(s, p, ConsumeCompareClaim(token, claim))
    case ConsumeCompareClaim(token, claim) =>
      var answer := if TokenState(Some(claim), token, s.now).Matches? then Ok else NotValid;
      Become(s, p, ConsumeUnlink(token, claim, s.now, answer))
    case ConsumeUnlink(token, claim, at, answer) =>
      // a failing unlink is ignored
      Become(s, p, Consumed(token, claim, at, answer))
    case _ => s
  }

  function Exec(s: State, acts: seq<Action>): State {
    if acts == [] then s
    else Apply(Exec(s, acts[..|acts| - 1]), acts[|acts| - 1])
  }

  // ---------------------------------------------------------------- invariant

  /** The record is the one its token was issued with. */
  ghost predicate Known(s: State, r: SetupFile) {
    r.token in s.written && s.written[r.token] == r
  }

  ghost predicate FoundOk(s: State, found: Option<SetupFile>) {
    found.Some? ==> Known(s, found.value)
  }

  // The record found is the token's, and has expired when the state says so.
  ghost predicate Decided(s: State, token: Token, found: Option<SetupFile>, expired: bool) {
    && found.Some? && Known(s, found.value) && found.value.token == token
    && (expired ==> s.now > found.value.expires)
  }

  ghost predicate Claimed(s: State, p: nat, token: Token, claim: SetupFile) {
    Known(s, claim) && claim.token in s.claimed && s.claimed[claim.token] == Claim(p, token)
  }

  // What a process relies on between two of its steps.
  ghost predicate Fine(s: State, p: nat, proc: Proc) {
    match proc
    case IssueRename(r) => Known(s, r) && r.token == p
    case IssueProtect(r) => Known(s, r) && r.token == p
    case Issued(r) => Known(s, r) && r.token == p
    case InspectCompare(_, found) => FoundOk(s, found)
    case InspectUsers(token, found, state) => !state.Invalid? ==> Decided(s, token, found, state.Expired?)
    case InspectRemove(token, found, answer) => Decided(s, token, found, !answer.AdminExists?)
    case ConsumeCompare(_, found) => FoundOk(s, found)
    case ConsumeUsers(token, found, state) => !state.Invalid? ==> Decided(s, token, found, state.Expired?)
    case ConsumeRemove(token, found, answer) => Decided(s, token, found, !answer.AdminExists?)
    case ConsumeRename(token, found) => Decided(s, token, found, false)
    case ConsumeReadClaim(token, claim) => Claimed(s, p, token, claim)
    case ConsumeCompareClaim(token, claim) => Claimed(s, p, token, claim)
    case ConsumeUnlink(token, claim, at, answer) => Claimed(s, p, token, claim) && Answers(token, claim, at, answer)
    case Consumed(token, claim, at, answer) => Claimed(s, p, token, claim) && Answers(token, claim, at, answer)
    case _ => true
  }

  predicate Answers(token: Token, claim: SetupFile, at: int, answer: Verdict) {
    answer.Ok? <==> TokenState(Some(claim), token, at).Matches?
  }

  ghost predicate ProcOk(s: State, p: nat)
    requires p < |s.procs|
  {
    Fine(s, p, s.procs[p])
  }

  predicate PastWrite(proc: Proc) {
    proc.IssueRename? || proc.IssueProtect? || proc.Issued? || proc.Threw?
  }

  /** The issuer of the token has renamed its record into place. */
  ghost predicate Renamed(s: State, t: Token) {
    t < |s.procs| && (s.procs[t].IssueProtect? || s.procs[t].Issued? || s.procs[t].Threw?)
  }

  ghost predicate FileOk(s: State) {
    s.file.Some? ==> Known(s, s.file.value) && Renamed(s, s.file.value.token) && s.file.value.token !in s.claimed
  }

  ghost predicate HistoryOk(s: State) {
    && (forall t :: t in s.written ==> t < |s.procs| && PastWrite(s.procs[t]))
    && (forall t :: t in s.claimed ==> Renamed(s, t))
  }

  ghost predicate Inv(s: State) {
    && FileOk(s) && HistoryOk(s)
    && (forall p: nat :: p < |s.procs| ==> ProcOk(s, p))
  }

  // Process p moved on; records known, claims and the past stay.
  ghost predicate Moves(s: State, t: State, p: nat) {
    && p < |s.procs| == |t.procs|
    && (forall q :: 0 <= q < |s.procs| && q != p ==> t.procs[q] == s.procs[q])
    && t.now == s.now
    && (forall k :: k in s.written ==> k in t.written && t.written[k] == s.written[k])
    && (forall k :: k in s.claimed ==> k in t.claimed && t.claimed[k] == s.claimed[k])
  }

  lemma OthersStayFine(s: State, t: State, p: nat, q: nat)
    requires Moves(s, t, p) && q < |s.procs| && q != p && ProcOk(s, q)
    ensures ProcOk(t, q)
  {
  }

  // A step that writes and claims no record and leaves the file alone or removes it.
  lemma MoveKeepsInv(s: State, t: State, p: nat)
    requires Inv(s) && Moves(s, t, p) && t.written == s.written && t.claimed == s.claimed
    requires t.file.None? || t.file == s.file
    requires PastWrite(s.procs[p]) ==> s.procs[p].IssueProtect? && (t.procs[p].Issued? || t.procs[p].Threw?)
    requires ProcOk(t, p)
    ensures Inv(t)
  {
    forall q: nat | q < |t.procs| ensures ProcOk(t, q) {
      if q != p {
        OthersStayFine(s, t, p, q);
      }
    }
    RenamedStay(s, t, p);
  }

  lemma RenamedStay(s: State, t: State, p: nat)
    requires Moves(s, t, p)
    requires PastWrite(s.procs[p]) ==> s.procs[p].IssueProtect? && (t.procs[p].Issued? || t.procs[p].Threw?)
    ensures forall k :: Renamed(s, k) ==> Renamed(t, k)
    ensures forall k: nat :: k < |s.procs| && PastWrite(s.procs[k]) ==> PastWrite(t.procs[k])
  {
  }

  lemma WriteKeepsInv(s: State, p: nat)
    requires Inv(s) && p < |s.procs| && s.procs[p].IssueWrite?
    ensures Inv(StepIssue(s, p, false))
  {
    var t := StepIssue(s, p, false);
    assert p !in s.written;
    forall q: nat | q < |t.procs| ensures ProcOk(t, q) {
      if q != p {
        OthersStayFine(s, t, p, q);
      }
    }
    RenamedStay(s, t, p);
  }

  lemma RenameKeepsInv(s: State, p: nat)
    requires Inv(s) && p < |s.procs| && s.procs[p].IssueRename?
    ensures Inv(StepIssue(s, p, false))
  {
    var t := StepIssue(s, p, false);
    assert ProcOk(s, p) && !Renamed(s, p);
    forall q: nat | q < |t.procs| ensures ProcOk(t, q) {
      if q != p {
        OthersStayFine(s, t, p, q);
      }
    }
    assert forall k :: Renamed(s, k) ==> Renamed(t, k);
  }

  lemma ThrowKeepsInv(s: State, p: nat)
    requires Inv(s) && p < |s.procs| && (Issuing(s.procs[p]) || !PastWrite(s.procs[p]))
    ensures Inv(Become(s, p, Threw))
  {
    var t := Become(s, p, Threw);
    forall q: nat | q < |t.procs| ensures ProcOk(t, q) {
      if q != p {
        OthersStayFine(s, t, p, q);
      }
    }
    assert forall k :: Renamed(s, k) ==> Renamed(t, k);
  }

  lemma IssueKeepsInv(s: State, p: nat, throws: bool)
    requires Inv(s) && p < |s.procs| && Issuing(s.procs[p])
    ensures Inv(StepIssue(s, p, throws))
  {
    assert ProcOk(s, p);
    if throws {
      ThrowKeepsInv(s, p);
    } else if s.procs[p].IssueWrite? {
      WriteKeepsInv(s, p);
    } else if s.procs[p].IssueRename? {
      RenameKeepsInv(s, p);
    } else {
      MoveKeepsInv(s, StepIssue(s, p, throws), p);
    }
  }

  lemma InspectKeepsInv(s: State, p: nat, throws: bool)
    requires Inv(s) && p < |s.procs| && Inspecting(s.procs[p])
    ensures Inv(StepInspect(s, p, throws))
  {
    assert ProcOk(s, p);
    MoveKeepsInv(s, StepInspect(s, p, throws), p);
  }

  lemma ReadKeepsInv(s: State, p: nat, throws: bool)
    requires Inv(s) && p < |s.procs| && (s.procs[p].ConsumeRead? || s.procs[p].ConsumeCompare?)
    ensures Inv(StepConsume(s, p, throws))
  {
    assert ProcOk(s, p);
    MoveKeepsInv(s, StepConsume(s, p, throws), p);
  }

  lemma DecideKeepsInv(s: State, p: nat, throws: bool)
    requires Inv(s) && p < |s.procs| && (s.procs[p].ConsumeUsers? || s.procs[p].ConsumeRemove?)
    ensures Inv(StepConsume(s, p, throws))
  {
    assert ProcOk(s, p);
    MoveKeepsInv(s, StepConsume(s, p, throws), p);
  }

  lemma RenameAwayKeepsInv(s: State, p: nat, throws: bool)
    requires Inv(s) && p < |s.procs| && s.procs[p].ConsumeRename?
    ensures Inv(StepClaim(s, p, throws))
  {
    var t := StepClaim(s, p, throws);
    if throws || s.file.None? {
      MoveKeepsInv(s, t, p);
    } else {
      forall q: nat | q < |t.procs| ensures ProcOk(t, q) {
        if q != p {
          OthersStayFine(s, t, p, q);
        }
      }
      RenamedStay(s, t, p);
    }
  }

  lemma ClaimKeepsInv(s: State, p: nat, throws: bool)
    requires Inv(s) && p < |s.procs| && Claiming(s.procs[p]) && !s.procs[p].ConsumeRename?
    ensures Inv(StepClaim(s, p, throws))
  {
    assert ProcOk(s, p);
    MoveKeepsInv(s, StepClaim(s, p, throws), p);
  }

  // A process joined, or only the clock or the users changed.
  ghost predicate Joins(s: State, t: State) {
    && |s.procs| <= |t.procs| <= |s.procs| + 1 && t.procs[..|s.procs|] == s.procs
    && (|t.procs| > |s.procs| ==>
          var proc := t.procs[|s.procs|];
          proc.IssueCheck? || proc.InspectRead? || proc.ConsumeRead?)
    && t.file == s.file && s.now <= t.now && t.written == s.written && t.claimed == s.claimed
  }

  lemma JoinKeepsInv(s: State, t: State)
    requires Inv(s) && Joins(s, t)
    ensures Inv(t)
  {
    forall p: nat | p < |s.procs| ensures t.procs[p] == s.procs[p] {
      assert t.procs[..|s.procs|][p] == t.procs[p];
    }
    forall p: nat | p < |t.procs| ensures ProcOk(t, p) {
      if p < |s.procs| {
        assert ProcOk(s, p);
      }
    }
    assert forall k :: Renamed(s, k) ==> Renamed(t, k);
  }

  lemma OthersJoin(s: State, a: Action)
    requires !a.Step?
    ensures Joins(s, Apply(s, a))
  {
    assert s.procs[..|s.procs|] == s.procs;
  }

  lemma ApplyKeepsInv(s: State, a: Action)
    requires Inv(s)
    ensures Inv(Apply(s, a))
  {
    if !a.Step? {
      OthersJoin(s, a);
      JoinKeepsInv(s, Apply(s, a));
    } else if a.proc < |s.procs| {
      var proc := s.procs[a.proc];
      if Issuing(proc) {
        IssueKeepsInv(s, a.proc, a.throws);
      } else if Inspecting(proc) {
        InspectKeepsInv(s, a.proc, a.throws);
      } else if proc.ConsumeRead? || proc.ConsumeCompare? {
        ReadKeepsInv(s, a.proc, a.throws);
      } else if Consuming(proc) {
        DecideKeepsInv(s, a.proc, a.throws);
      } else if proc.ConsumeRename? {
        RenameAwayKeepsInv(s, a.proc, a.throws);
      } else if Claiming(proc) {
        ClaimKeepsInv(s, a.proc, a.throws);
      }
    }
  }

  lemma {:induction false} ExecKeepsInv(s: State, acts: seq<Action>)
    requires Inv(s)
    ensures Inv(Exec(s, acts))
  {
    if acts != [] {
      ExecKeepsInv(s, acts[..|acts| - 1]);
      ApplyKeepsInv(Exec(s, acts[..|acts| - 1]), acts[|acts| - 1]);
    }
  }

  // ---------------------------------------------------------------- consumed once

  // Process p answered 'ok' to whoever presented the token.
  predicate AnsweredOk(s: State, p: nat, token: Token) {
    p < |s.procs| && s.procs[p].Consumed? && s.procs[p].token == token && s.procs[p].answer.Ok?
  }

  /** However processes interleave, a token is answered 'ok' at most once. */
  lemma {:induction false} TokenIsConsumedOnce(now: int, acts: seq<Action>, token: Token, p: nat, q: nat)
    requires AnsweredOk(Exec(Start(now), acts), p, token) && AnsweredOk(Exec(Start(now), acts), q, token)
    ensures p == q
  {
    ExecKeepsInv(Start(now), acts);
    var s := Exec(Start(now), acts);
    assert ProcOk(s, p) && ProcOk(s, q);
  }

  /**
   * And only if the file that process claimed was the record the token was issued with,
   * unexpired at the second check.
   */
  lemma {:induction false} OkMeansOwnRecord(now: int, acts: seq<Action>, token: Token, p: nat)
    requires AnsweredOk(Exec(Start(now), acts), p, token)
    ensures var s := Exec(Start(now), acts);
            var claim := s.procs[p].claim;
            && claim.token == token && s.procs[p].at <= claim.expires
            && token in s.claimed && s.claimed[token] == Claim(p, token)
            && token in s.written && s.written[token] == claim
  {
    ExecKeepsInv(Start(now), acts);
    assert ProcOk(Exec(Start(now), acts), p);
  }

  /**
   * A consumer left alone: with no users and no failures, and the clock standing still, its
   * steps end in 'ok' exactly when the setup file is its token's record and has not expired;
   * a matching or expired file is gone afterwards, any other is left in place.
   */
  lemma {:induction false} ConsumeAlone(s: State, p: nat, token: Token)
    requires p < |s.procs| && s.procs[p] == ConsumeRead(token) && !s.users
    ensures var step := Step(p, false);
            var t := Exec(s, [step, step, step, step, step, step, step]);
            && (AnsweredOk(t, p, token) <==>
                s.file.Some? && s.file.value.token == token && s.now <= s.file.value.expires)
            && t.file == (if s.file.Some? && s.file.value.token == token then None else s.file)
  {
    var step := Step(p, false);
    var state := TokenState(s.file, token, s.now);
    var s1 := Become(s, p, ConsumeCompare(token, s.file));
    var s2 := Become(s, p, ConsumeUsers(token, s.file, state));
    assert Apply(s, step) == s1 && Apply(s1, step) == s2;
    match state {
      case Matches => ClaimAlone(s, s2, p, token);
      case Expired => RemoveAlone(s, s2, p, token);
      case Invalid =>
        var s3 := Become(s, p, Refused(token, NotValid));
        assert Apply(s2, step) == s3 && Apply(s3, step) == s3;
    }
    ExecSeven(s, step);
  }

  lemma ClaimAlone(s: State, s2: State, p: nat, token: Token)
    requires p < |s.procs| && !s.users && TokenState(s.file, token, s.now).Matches?
    requires s2 == Become(s, p, ConsumeUsers(token, s.file, Matches))
    ensures var step := Step(p, false);
            var t := Apply(Apply(Apply(Apply(Apply(s2, step), step), step), step), step);
            AnsweredOk(t, p, token) && t.file == None
  {
    var step := Step(p, false);
    var claim := s.file.value;
    var u := s.(file := None, claimed := s.claimed[token := Claim(p, token)]);
    var s3 := Become(s, p, ConsumeRename(token, s.file));
    var s4 := Become(u, p, ConsumeReadClaim(token, claim));
    assert Apply(s2, step) == s3;
    assert Apply(s3, step) == s4;
    ReadClaimAlone(u, s4, p, token, claim);
  }

  lemma ReadClaimAlone(u: State, s4: State, p: nat, token: Token, claim: SetupFile)
    requires p < |u.procs| && !u.users && u.file == None && claim.token == token && u.now <= claim.expires
    requires s4 == Become(u, p, ConsumeReadClaim(token, claim))
    ensures var step := Step(p, false);
            var t := Apply(Apply(Apply(s4, step), step), step);
            AnsweredOk(t, p, token) && t.file == None
  {
    var step := Step(p, false);
    var s5 := Become(u, p, ConsumeCompareClaim(token, claim));
    var s6 := Become(u, p, ConsumeUnlink(token, claim, u.now, Ok));
    assert Apply(s4, step) == s5;
    assert Apply(s5, step) == s6;
    assert Apply(s6, step) == Become(u, p, Consumed(token, claim, u.now, Ok));
  }

  lemma RemoveAlone(s: State, s2: State, p: nat, token: Token)
    requires p < |s.procs| && !s.users && TokenState(s.file, token, s.now).Expired?
    requires s2 == Become(s, p, ConsumeUsers(token, s.file, Expired))
    ensures var step := Step(p, false);
            var t := Apply(Apply(Apply(Apply(Apply(s2, step), step), step), step), step);
            !AnsweredOk(t, p, token) && t.file == None
  {
    var step := Step(p, false);
    var s3 := Become(s, p, ConsumeRemove(token, s.file, NotValid));
    var s4 := Become(s.(file := None), p, Refused(token, NotValid));
    assert Apply(s2, step) == s3 && Apply(s3, step) == s4;
    assert Apply(s4, step) == s4;
  }

  lemma {:induction false} ExecSeven(s: State, a: Action)
    ensures Exec(s, [a, a, a, a, a, a, a]) == Apply(Apply(Apply(Apply(Apply(Apply(Apply(s, a), a), a), a), a), a), a)
  {
    assert [a][..0] == [];
    assert [a, a][..1] == [a];
    assert [a, a, a][..2] == [a, a];
    assert [a, a, a, a][..3] == [a, a, a];
    assert [a, a, a, a, a][..4] == [a, a, a, a];
    assert [a, a, a, a, a, a][..5] == [a, a, a, a, a];
    assert [a, a, a, a, a, a, a][..6] == [a, a, a, a, a, a];
    assert Exec(s, [a]) == Apply(s, a);
    assert Exec(s, [a, a]) == Apply(Apply(s, a), a);
    assert Exec(s, [a, a, a]) == Apply(Apply(Apply(s, a), a), a);
    assert Exec(s, [a, a, a, a]) == Apply(Apply(Apply(Apply(s, a), a), a), a);
    assert Exec(s, [a, a, a, a, a]) == Apply(Apply(Apply(Apply(Apply(s, a), a), a), a), a);
  }

  /** The file is the token's record and has not expired. */
  predicate Presents(s: State, token: Token) {
    s.file.Some? && s.file.value.token == token && s.now <= s.file.value.expires
  }

  /** The file is the token's record and has expired. */
  predicate PresentsExpired(s: State, token: Token) {
    s.file.Some? && s.file.value.token == token && s.now > s.file.value.expires
  }

  lemma {:induction false} ExecFour(s: State, a: Action)
    ensures Exec(s, [a, a, a, a]) == Apply(Apply(Apply(Apply(s, a), a), a), a)
  {
    assert [a][..0] == [];
    assert [a, a][..1] == [a];
    assert [a, a, a][..2] == [a, a];
    assert [a, a, a, a][..3] == [a, a, a];
    assert Exec(s, [a]) == Apply(s, a);
    assert Exec(s, [a, a]) == Apply(Apply(s, a), a);
  }

  /**
   * An inspector left alone: without users it answers 'ok' exactly for the token's unexpired
   * record, which stays, and removes an expired one; with users it answers that there is an admin
   * exactly for the token's unexpired record, which it removes. Any other file stays.
   */
  lemma {:induction false} InspectAlone(s: State, p: nat, token: Token)
    requires p < |s.procs| && s.procs[p] == InspectRead(token)
    ensures var step := Step(p, false);
            var t := Exec(s, [step, step, step, step]);
            && |t.procs| == |s.procs|
            && t.procs[p] == Inspected(if !Presents(s, token) then NotValid else if s.users then AdminExists else Ok)
            && t.file == (if (if s.users then Presents(s, token) else PresentsExpired(s, token)) then None else s.file)
  {
    var step := Step(p, false);
    var state := TokenState(s.file, token, s.now);
    var s1 := Become(s, p, InspectCompare(token, s.file));
    var s2 := Become(s, p, InspectUsers(token, s.file, state));
    assert Apply(s, step) == s1 && Apply(s1, step) == s2;
    InspectDecides(s, s2, p, token, state);
    ExecFour(s, step);
  }

  lemma InspectDecides(s: State, s2: State, p: nat, token: Token, state: Match)
    requires p < |s.procs| && state == TokenState(s.file, token, s.now)
    requires s2 == Become(s, p, InspectUsers(token, s.file, state))
    ensures var step := Step(p, false);
            var t := Apply(Apply(s2, step), step);
            && |t.procs| == |s.procs|
            && t.procs[p] == Inspected(if !Presents(s, token) then NotValid else if s.users then AdminExists else Ok)
            && t.file == (if (if s.users then Presents(s, token) else PresentsExpired(s, token)) then None else s.file)
  {
    var step := Step(p, false);
    var removes := if s.users then state.Matches? else state.Expired?;
    if removes {
      var answer := if s.users then AdminExists else NotValid;
      var s3 := Become(s, p, InspectRemove(token, s.file, answer));
      assert Apply(s2, step) == s3;
      assert Apply(s3, step) == Become(s.(file := None), p, Inspected(answer));
    } else {
      var s3 := Become(s, p, Inspected(if !s.users && state.Matches? then Ok else NotValid));
      assert Apply(s2, step) == s3;
      assert Apply(s3, step) == s3;
    }
  }

  /**
   * With users a consumer left alone never answers 'ok': it answers that there is an admin exactly
   * for the token's unexpired record, which it removes. Any other file stays.
   */
  lemma {:induction false} ConsumeAloneWithUsers(s: State, p: nat, token: Token)
    requires p < |s.procs| && s.procs[p] == ConsumeRead(token) && s.users
    ensures var step := Step(p, false);
            var t := Exec(s, [step, step, step, step]);
            && |t.procs| == |s.procs|
            && t.procs[p] == Refused(token, if Presents(s, token) then AdminExists else NotValid)
            && t.file == (if Presents(s, token) then None else s.file)
  {
    var step := Step(p, false);
    var state := TokenState(s.file, token, s.now);
    var s1 := Become(s, p, ConsumeCompare(token, s.file));
    var s2 := Become(s, p, ConsumeUsers(token, s.file, state));
    assert Apply(s, step) == s1 && Apply(s1, step) == s2;
    UsersRefuse(s, s2, p, token, state);
    ExecFour(s, step);
  }

  lemma UsersRefuse(s: State, s2: State, p: nat, token: Token, state: Match)
    requires p < |s.procs| && s.users && state == TokenState(s.file, token, s.now)
    requires s2 == Become(s, p, ConsumeUsers(token, s.file, state))
    ensures var step := Step(p, false);
            var t := Apply(Apply(s2, step), step);
            && |t.procs| == |s.procs|
            && t.procs[p] == Refused(token, if Presents(s, token) then AdminExists else NotValid)
            && t.file == (if Presents(s, token) then None else s.file)
  {
    var step := Step(p, false);
    if state.Matches? {
      var s3 := Become(s, p, ConsumeRemove(token, s.file, AdminExists));
      assert Apply(s2, step) == s3;
      assert Apply(s3, step) == Become(s.(file := None), p, Refused(token, AdminExists));
    } else {
      var s3 := Become(s, p, Refused(token, NotValid));
      assert Apply(s2, step) == s3 && Apply(s3, step) == s3;
    }
  }

  /** An issuer left alone: without users its fresh record is in place for the time to live, with users no file is. */
  lemma {:induction false} IssueAlone(s: State, p: nat)
    requires p < |s.procs| && s.procs[p] == IssueCheck
    ensures var step := Step(p, false);
            var t := Exec(s, [step, step, step, step]);
            && |t.procs| == |s.procs|
            && if s.users then t.file.None? && t.procs[p] == NotIssued
               else t.file == Some(SetupFile(p, s.now + SETUP_TTL_MS)) && t.procs[p] == Issued(t.file.value)
  {
    var step := Step(p, false);
    var r := SetupFile(p, s.now + SETUP_TTL_MS);
    if s.users {
      var s1 := Become(s, p, IssueRemove);
      var s2 := Become(s.(file := None), p, NotIssued);
      assert Apply(s, step) == s1 && Apply(s1, step) == s2 && Apply(s2, step) == s2;
    } else {
      var u := s.(written := s.written[p := r]);
      var s1, s2 := Become(s, p, IssueWrite), Become(u, p, IssueRename(r));
      var s3 := Become(u.(file := Some(r)), p, IssueProtect(r));
      assert Apply(s, step) == s1 && Apply(s1, step) == s2;
      assert Apply(s2, step) == s3;
      assert Apply(s3, step) == Become(u.(file := Some(r)), p, Issued(r));
    }
    ExecFour(s, step);
  }

  /** A call starts a process that has yet to take its first step. */
  lemma CallsStart(s: State, token: Token)
    ensures Apply(s, Issue) == s.(procs := s.procs + [IssueCheck])
    ensures Apply(s, Inspect(token)) == s.(procs := s.procs + [InspectRead(token)])
    ensures Apply(s, Consume(token)) == s.(procs := s.procs + [ConsumeRead(token)])
  {
  }

  // ---------------------------------------------------------------- survival

  /** Nobody issues another link and no admin appears. */
  predicate Calm(acts: seq<Action>) {
    forall i :: 0 <= i < |acts| ==> acts[i] != Issue && acts[i] != SetUsers(true)
  }

  /** The link is in place, has expired, or was claimed by a process presented with its token. */
  predicate Kept(s: State, r: SetupFile) {
    || s.file == Some(r)
    || s.now > r.expires
    || (r.token in s.claimed && s.claimed[r.token].presented == r.token)
  }

  /**
   * A process that may still remove the link although its token is not presented: an issuer
   * underway, a process that decided on another record (or can find it expired before this
   * one does), or one that saw an admin.
   */
  predicate Stale(proc: Proc, r: SetupFile) {
    match proc
    case IssueCheck => true
    case IssueRemove => true
    case IssueWrite => true
    case IssueRename(_) => true
    case InspectCompare(token, found) =>
      found.Some? && found.value.token == token && token != r.token && found.value.expires < r.expires
    case InspectUsers(token, _, state) => state.Expired? && token != r.token
    case InspectRemove(token, _, answer) => answer.AdminExists? || token != r.token
    case ConsumeCompare(token, found) => found.Some? && found.value.token == token && token != r.token
    case ConsumeUsers(token, _, state) => !state.Invalid? && token != r.token
    case ConsumeRemove(token, _, answer) => answer.AdminExists? || token != r.token
    case ConsumeRename(token, _) => token != r.token
    case _ => false
  }

  /** Whatever happens next, as long as nobody issues a link and no admin appears, the link is kept. */
  ghost predicate Survives(s: State, r: SetupFile) {
    forall after :: Calm(after) ==> Kept(Exec(s, after), r)
  }

  ghost predicate NoneStale(s: State, r: SetupFile) {
    forall p: nat :: p < |s.procs| ==> !Stale(s.procs[p], r)
  }

  // The link is in place and nobody is about to remove it.
  ghost predicate InPlace(s: State, r: SetupFile) {
    s.file == Some(r) && !s.users && NoneStale(s, r)
  }

  // Kept for good, or still in place.
  ghost predicate Stands(s: State, r: SetupFile) {
    || s.now > r.expires
    || (r.token in s.claimed && s.claimed[r.token].presented == r.token)
    || InPlace(s, r)
  }

  lemma OthersStayCalm(s: State, t: State, p: nat, r: SetupFile)
    requires NoneStale(s, r) && p < |s.procs| == |t.procs| && !Stale(t.procs[p], r)
    requires forall q: nat :: q < |s.procs| && q != p ==> t.procs[q] == s.procs[q]
    ensures NoneStale(t, r)
  {
  }

  lemma InspectStands(s: State, p: nat, throws: bool, r: SetupFile)
    requires Inv(s) && InPlace(s, r) && s.now <= r.expires && p < |s.procs| && Inspecting(s.procs[p])
    ensures Stands(StepInspect(s, p, throws), r)
  {
    assert ProcOk(s, p) && !Stale(s.procs[p], r) && Known(s, r);
    var t := StepInspect(s, p, throws);
    assert !Stale(t.procs[p], r);
    OthersStayCalm(s, t, p, r);
  }

  lemma ConsumeStands(s: State, p: nat, throws: bool, r: SetupFile)
    requires Inv(s) && InPlace(s, r) && s.now <= r.expires && p < |s.procs| && Consuming(s.procs[p])
    ensures Stands(StepConsume(s, p, throws), r)
  {
    assert ProcOk(s, p) && !Stale(s.procs[p], r) && Known(s, r);
    var t := StepConsume(s, p, throws);
    assert !Stale(t.procs[p], r);
    OthersStayCalm(s, t, p, r);
  }

  lemma ClaimStands(s: State, p: nat, throws: bool, r: SetupFile)
    requires Inv(s) && InPlace(s, r) && s.now <= r.expires && p < |s.procs| && Claiming(s.procs[p])
    ensures Stands(StepClaim(s, p, throws), r)
  {
    assert ProcOk(s, p) && !Stale(s.procs[p], r);
  }

  lemma IssueStands(s: State, p: nat, throws: bool, r: SetupFile)
    requires Inv(s) && InPlace(s, r) && p < |s.procs| && Issuing(s.procs[p])
    ensures Stands(StepIssue(s, p, throws), r)
  {
    assert !Stale(s.procs[p], r);
  }

  lemma CallStands(s: State, a: Action, r: SetupFile)
    requires InPlace(s, r) && !a.Step? && a != Issue && a != SetUsers(true)
    ensures Stands(Apply(s, a), r)
  {
  }

  lemma ApplyStands(s: State, a: Action, r: SetupFile)
    requires Inv(s) && Stands(s, r) && a != Issue && a != SetUsers(true)
    ensures Stands(Apply(s, a), r)
  {
    if s.now > r.expires || (r.token in s.claimed && s.claimed[r.token].presented == r.token) {
      PastStays(s, a);
    } else if !a.Step? {
      CallStands(s, a, r);
    } else if a.proc < |s.procs| {
      var proc := s.procs[a.proc];
      if Issuing(proc) {
        IssueStands(s, a.proc, a.throws, r);
      } else if Inspecting(proc) {
        InspectStands(s, a.proc, a.throws, r);
      } else if Consuming(proc) {
        ConsumeStands(s, a.proc, a.throws, r);
      } else if Claiming(proc) {
        ClaimStands(s, a.proc, a.throws, r);
      }
    }
  }

  // The clock does not go back and a claim stays.
  ghost predicate PastKept(s: State, t: State) {
    s.now <= t.now && forall k :: k in s.claimed ==> k in t.claimed && t.claimed[k] == s.claimed[k]
  }

  lemma ClaimKeepsPast(s: State, p: nat, throws: bool)
    requires FileOk(s) && p < |s.procs|
    ensures PastKept(s, StepClaim(s, p, throws))
  {
  }

  lemma StepsKeepPast(s: State, p: nat, throws: bool)
    requires p < |s.procs|
    ensures PastKept(s, StepIssue(s, p, throws))
            && PastKept(s, StepInspect(s, p, throws)) && PastKept(s, StepConsume(s, p, throws))
  {
  }

  lemma PastStays(s: State, a: Action)
    requires Inv(s)
    ensures PastKept(s, Apply(s, a))
  {
    if a.Step? && a.proc < |s.procs| {
      ClaimKeepsPast(s, a.proc, a.throws);
      StepsKeepPast(s, a.proc, a.throws);
    }
  }

  lemma {:induction false} ExecStands(s: State, after: seq<Action>, r: SetupFile)
    requires Inv(s) && Stands(s, r) && Calm(after)
    ensures Stands(Exec(s, after), r)
  {
    if after != [] {
      var init := after[..|after| - 1];
      assert forall i :: 0 <= i < |init| ==> init[i] == after[i];
      ExecStands(s, init, r);
      ExecKeepsInv(s, init);
      ApplyStands(Exec(s, init), after[|after| - 1], r);
    }
  }

  lemma {:induction false} ExecCons(s: State, a: Action, rest: seq<Action>)
    ensures Exec(s, [a] + rest) == Exec(Apply(s, a), rest)
  {
    if rest == [] {
      assert [a] + rest == [a] && [a][..0] == [];
      assert Exec(s, []) == s;
    } else {
      var acts, init := [a] + rest, rest[..|rest| - 1];
      ExecCons(s, a, init);
      assert acts[..|acts| - 1] == [a] + init && acts[|acts| - 1] == rest[|rest| - 1];
      assert Exec(s, acts) == Apply(Exec(s, [a] + init), rest[|rest| - 1]);
    }
  }

  // The steps a stale process is away from removing the link.
  function Rank(proc: Proc): nat {
    match proc
    case IssueCheck => 3
    case IssueWrite => 2
    case InspectCompare(_, _) => 3
    case InspectUsers(_, _, _) => 2
    case ConsumeCompare(_, _) => 3
    case ConsumeUsers(_, _, _) => 2
    case _ => 1
  }

  // One step of a stale process removes the link or brings it closer to that.
  lemma StaleSteps(s: State, p: nat, r: SetupFile)
    requires Inv(s) && s.file == Some(r) && !s.users && s.now <= r.expires && p < |s.procs| && Stale(s.procs[p], r)
    requires s.procs[p].InspectCompare? ==> s.procs[p].found.Some? && s.now > s.procs[p].found.value.expires
    ensures var t := Apply(s, Step(p, false));
            && t.now == s.now && !t.users && p < |t.procs|
            && if Rank(s.procs[p]) == 1 then !Kept(t, r)
               else
                 && t.file == Some(r) && Stale(t.procs[p], r)
                 && !t.procs[p].InspectCompare? && Rank(t.procs[p]) < Rank(s.procs[p])
  {
    assert ProcOk(s, p);
    assert r.token !in s.claimed && Renamed(s, r.token);
  }

  lemma {:induction false} StaleRemoves(s: State, p: nat, r: SetupFile) returns (after: seq<Action>)
    requires Inv(s) && s.file == Some(r) && !s.users && s.now <= r.expires && p < |s.procs| && Stale(s.procs[p], r)
    requires s.procs[p].InspectCompare? ==> s.procs[p].found.Some? && s.now > s.procs[p].found.value.expires
    ensures Calm(after) && !Kept(Exec(s, after), r)
    decreases Rank(s.procs[p])
  {
    var a := Step(p, false);
    StaleSteps(s, p, r);
    if Rank(s.procs[p]) == 1 {
      after := [a];
      ExecCons(s, a, []);
      assert [a] + [] == [a];
    } else {
      ApplyKeepsInv(s, a);
      var rest := StaleRemoves(Apply(s, a), p, r);
      after := [a] + rest;
      ExecCons(s, a, rest);
    }
  }

  // A process that has yet to compare waits until the record it found has expired.
  lemma StaleDooms(s: State, p: nat, r: SetupFile) returns (after: seq<Action>)
    requires Inv(s) && s.file == Some(r) && !s.users && s.now <= r.expires && p < |s.procs| && Stale(s.procs[p], r)
    ensures Calm(after) && !Kept(Exec(s, after), r)
  {
    var proc := s.procs[p];
    if proc.InspectCompare? && s.now <= proc.found.value.expires {
      var wait := Tick(proc.found.value.expires + 1 - s.now);
      ApplyKeepsInv(s, wait);
      var rest := StaleRemoves(Apply(s, wait), p, r);
      after := [wait] + rest;
      ExecCons(s, wait, rest);
    } else {
      after := StaleRemoves(s, p, r);
    }
  }

  /**
   * In any reachable state, a link in place survives every calm continuation, until it expires
   * or its own token claims it, exactly when no process is stale.
   */
  lemma SurvivesUnlessStale(now: int, acts: seq<Action>, r: SetupFile)
    requires var s := Exec(Start(now), acts);
             s.file == Some(r) && !s.users && s.now <= r.expires
    ensures var s := Exec(Start(now), acts);
            Survives(s, r) <==> NoneStale(s, r)
  {
    var s := Exec(Start(now), acts);
    ExecKeepsInv(Start(now), acts);
    if NoneStale(s, r) {
      forall after | Calm(after) ensures Kept(Exec(s, after), r) {
        ExecStands(s, after, r);
      }
    } else {
      var p: nat :| p < |s.procs| && Stale(s.procs[p], r);
      var after := StaleDooms(s, p, r);
    }
  }
}
