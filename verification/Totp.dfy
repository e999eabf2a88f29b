/**
 One-time codes of a confirmed credential: a code is accepted for a time step at most one away,
 never for a step behind the last accepted one; five failures lock; recovery codes work once.
 The code of a step is an arbitrary function of the step, and recovery codes stand for their
 own digests.
 */
module Totp {
  import opened Common

  const PERIOD: int := 30_000
  const DIGITS: nat := 6
  const MAX_FAILED: nat := 5
  const LOCK: int := 300_000

  type CodeAt = nat -> string

  datatype Credential = Credential(lastUsedStep: Option<nat>, failedCount: nat, lockedUntil: Option<Instant>)

  /** `codes` are the recovery codes on file, true for the used ones. */
  datatype Account = Account(credential: Option<Credential>, codes: map<string, bool>)

  datatype Answer =
    | NotEnabled
    | Locked(seconds: nat)
    | ByRecovery
    | Accepted(step: nat, reused: bool)
    | Rejected(failedCount: nat, locks: bool)

  // ---- what is typed in ----

  function DigitsOf(s: string): string {
    if s == "" then "" else (if '0' <= s[0] <= '9' then [s[0]] else "") + DigitsOf(s[1..])
  }

  function OtpOf(code: string): string {
    var digits := DigitsOf(code);
    if |digits| <= DIGITS then digits else digits[..DIGITS]
  }

  function Alphanumeric(s: string): string {
    if s == "" then ""
    else (if 'A' <= s[0] <= 'Z' || '0' <= s[0] <= '9' then [s[0]] else "") + Alphanumeric(s[1..])
  }

  /** `upper` is the case mapping of a text. */
  function RecoveryOf(code: string, upper: string -> string): string {
    Alphanumeric(upper(code))
  }

  // ---- verification ----

  function CurrentStep(now: Instant): int {
    now / PERIOD
  }

  predicate StepMatches(codeAt: CodeAt, otp: string, step: int) {
    step >= 0 && codeAt(step) == otp
  }

  /** The first of the three steps around now whose code this is. */
  function MatchingStep(codeAt: CodeAt, otp: string, now: Instant): Option<nat> {
    var s := CurrentStep(now);
    if |otp| != DIGITS then None
    else if StepMatches(codeAt, otp, s - 1) then Some(s - 1)
    else if StepMatches(codeAt, otp, s) then Some(s)
    else if StepMatches(codeAt, otp, s + 1) then Some(s + 1)
    else None
  }

  function LockedSeconds(c: Credential, now: Instant): nat {
    if c.lockedUntil.Some? && c.lockedUntil.value > now then (c.lockedUntil.value - now + 999) / 1000 else 0
  }

  /** Whether a matched step is taken: not behind the last one, and not that one again unless that is allowed. */
  predicate Taken(c: Credential, step: Option<nat>, allowReuse: bool) {
    && step.Some?
    && (c.lastUsedStep.Some? ==> step.value > c.lastUsedStep.value || (step.value == c.lastUsedStep.value && allowReuse))
  }

  function VerifyCode(c: Credential, step: Option<nat>, allowReuse: bool, now: Instant): (Credential, Answer) {
    if Taken(c, step, allowReuse) then (Credential(step, 0, None), Accepted(step.value, c.lastUsedStep == step))
    else
      var count := c.failedCount + 1;
      var locks := count >= MAX_FAILED;
      (Credential(c.lastUsedStep, count, if locks then Some(now + LOCK) else None), Rejected(count, locks))
  }

  function Verify(a: Account, codeAt: CodeAt, upper: string -> string, code: string, allowReuse: bool, now: Instant): (Account, Answer) {
    if a.credential.None? then (a, NotEnabled)
    else
      var c := a.credential.value;
      var recovery := RecoveryOf(code, upper);
      if LockedSeconds(c, now) > 0 then (a, Locked(LockedSeconds(c, now)))
      else if |recovery| >= 8 && recovery in a.codes && !a.codes[recovery] then
        (Account(Some(Credential(c.lastUsedStep, 0, None)), a.codes[recovery := true]), ByRecovery)
      else
        var (next, answer) := VerifyCode(c, MatchingStep(codeAt, OtpOf(code), now), allowReuse, now);
        (a.(credential := Some(next)), answer)
  }

  function Fresh(codes: set<string>): map<string, bool> {
    map k | k in codes :: false
  }

  /** Confirmation accepts the first step and issues recovery codes. */
  function Confirm(step: nat, codes: set<string>): Account {
    Account(Some(Credential(Some(step), 0, None)), Fresh(codes))
  }

  // ---- runs from a confirmed credential ----

  datatype Action =
    | Enter(code: string, allowReuse: bool, now: Instant)
    | ReplaceCodes(codes: set<string>)

  /** A step that was accepted, and whether accepting the same one again had been allowed. */
  datatype Acceptance = Acceptance(step: nat, allowReuse: bool, now: Instant)

  /** `issued` are all recovery codes ever handed out; the sequences record what was accepted and refused. */
  datatype World = World(
    account: Account,
    issued: set<string>,
    accepted: seq<Acceptance>,
    recovered: seq<string>,
    failures: seq<Instant>,
    clock: Option<Instant>)

  function Start(step: nat, codes: set<string>): World {
    World(Confirm(step, codes), codes, [], [], [], None)
  }

  function Step(w: World, codeAt: CodeAt, upper: string -> string, action: Action): World {
    match action
    case Enter(code, allowReuse, now) =>
      var (account, answer) := Verify(w.account, codeAt, upper, code, allowReuse, now);
      var next := w.(account := account, clock := Some(now));
      (match answer
       case Accepted(step, _) => next.(accepted := w.accepted + [Acceptance(step, allowReuse, now)], failures := [])
       case ByRecovery => next.(recovered := w.recovered + [RecoveryOf(code, upper)], failures := [])
       case Rejected(_, _) => next.(failures := w.failures + [now])
       case _ => next)
    case ReplaceCodes(codes) =>
      // New codes are drawn at random: none of them was handed out before.
      if codes !! w.issued then w.(account := w.account.(codes := Fresh(codes)), issued := w.issued + codes) else w
  }

  function Run(w: World, codeAt: CodeAt, upper: string -> string, actions: seq<Action>): World {
    if actions == [] then w else Step(Run(w, codeAt, upper, actions[..|actions| - 1]), codeAt, upper, actions[|actions| - 1])
  }

  /** The clock does not run backwards. */
  predicate Monotone(actions: seq<Action>) {
    forall i, j :: 0 <= i < j < |actions| && actions[i].Enter? && actions[j].Enter? ==> actions[i].now <= actions[j].now
  }
}
