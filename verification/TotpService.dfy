/** The service on its rows. */
module TotpService {
  import opened Common
  import opened Totp

  /** The loop over the window. */
  method FindStep(codeAt: CodeAt, otp: string, now: Instant) returns (r: Option<nat>)
    ensures r == MatchingStep(codeAt, otp, now)
  {
    if |otp| != DIGITS {
      return None;
    }
    var current := CurrentStep(now);
    var offset := -1;
    while offset <= 1
      invariant -1 <= offset <= 2
      invariant forall s :: current - 1 <= s < current + offset ==> !StepMatches(codeAt, otp, s)
    {
      var step := current + offset;
      if step >= 0 && codeAt(step) == otp {
        return Some(step);
      }
      offset := offset + 1;
    }
    return None;
  }

  class Service {
    var credential: Option<Credential>
    var codes: map<string, bool>

    constructor (step: nat, recoveryCodes: set<string>)
      ensures Account(credential, codes) == Confirm(step, recoveryCodes)
    {
      credential, codes := Some(Credential(Some(step), 0, None)), Fresh(recoveryCodes);
    }

    method VerifyUserCode(codeAt: CodeAt, upper: string -> string, code: string, allowReuse: bool, now: Instant) returns (answer: Answer)
      modifies this
      ensures (Account(credential, codes), answer) == Verify(Account(old(credential), old(codes)), codeAt, upper, code, allowReuse, now)
    {
      if credential.None? {
        return NotEnabled;
      }
      var c := credential.value;
      var seconds := LockedSeconds(c, now);
      if seconds > 0 {
        return Locked(seconds);
      }
      var recovery := RecoveryOf(code, upper);
      if |recovery| >= 8 {
        if recovery in codes && !codes[recovery] {
          codes := codes[recovery := true];
          credential := Some(c.(failedCount := 0, lockedUntil := None));
          return ByRecovery;
        }
      }
      var step := FindStep(codeAt, OtpOf(code), now);
      var reusedSameStep := step.Some? && step == c.lastUsedStep;
      var reusedOlderStep := step.Some? && c.lastUsedStep.Some? && step.value < c.lastUsedStep.value;
      if step.None? || reusedOlderStep || (reusedSameStep && !allowReuse) {
        var count := c.failedCount + 1;
        var shouldLock := count >= MAX_FAILED;
        credential := Some(c.(failedCount := count, lockedUntil := if shouldLock then Some(now + LOCK) else None));
        return Rejected(count, shouldLock);
      }
      credential := Some(Credential(step, 0, None));
      return Accepted(step.value, reusedSameStep);
    }
  }
}
