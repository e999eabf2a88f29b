/** What holds of every run from a confirmed credential. */
module TotpRuns {
  import opened Common
  import opened Totp

  /** Steps only grow, and stay only where that was allowed. */
  predicate StepsOk(first: nat, accepted: seq<Acceptance>) {
    && (forall i :: 0 <= i < |accepted| ==>
          first < accepted[i].step || (first == accepted[i].step && accepted[i].allowReuse))
    && (forall i, j :: 0 <= i < j < |accepted| ==>
          accepted[i].step < accepted[j].step || (accepted[i].step == accepted[j].step && accepted[j].allowReuse))
  }

  function LastStep(first: nat, accepted: seq<Acceptance>): nat {
    if accepted == [] then first else accepted[|accepted| - 1].step
  }

  predicate RecoveryOk(w: World) {
    && (forall i, j :: 0 <= i < j < |w.recovered| ==> w.recovered[i] != w.recovered[j])
    && (forall i :: 0 <= i < |w.recovered| ==> w.recovered[i] in w.issued)
    && (forall k :: k in w.account.codes ==> k in w.issued)
    && (forall k :: k in w.account.codes && k in w.recovered ==> w.account.codes[k])
  }

  /** From the fifth failure on, every failure waits for a lock to pass. */
  predicate SpacedOut(f: seq<Instant>) {
    forall i :: MAX_FAILED <= i < |f| ==> f[i] >= f[i - 1] + LOCK
  }

  /** The count is the number of failures since the last success, and it locks exactly from five on. */
  predicate CountOk(c: Credential, f: seq<Instant>) {
    && c.failedCount == |f|
    && c.lockedUntil == (if |f| >= MAX_FAILED then Some(f[|f| - 1] + LOCK) else None)
    && SpacedOut(f)
  }

  predicate WorldOk(first: nat, w: World) {
    && w.account.credential.Some?
    && StepsOk(first, w.accepted)
    && w.account.credential.value.lastUsedStep == Some(LastStep(first, w.accepted))
    && RecoveryOk(w)
    && CountOk(w.account.credential.value, w.failures)
  }

  lemma StepsGrow(first: nat, accepted: seq<Acceptance>, a: Acceptance)
    requires StepsOk(first, accepted)
    requires LastStep(first, accepted) < a.step || (LastStep(first, accepted) == a.step && a.allowReuse)
    ensures StepsOk(first, accepted + [a])
  {
    var more := accepted + [a];
    forall i | 0 <= i < |accepted|
      ensures more[i].step < a.step || (more[i].step == a.step && a.allowReuse)
    {
      if i < |accepted| - 1 {
        assert accepted[i].step <= accepted[|accepted| - 1].step;
      }
    }
  }

  lemma FailureSpaced(f: seq<Instant>, now: Instant)
    requires SpacedOut(f) && (|f| >= MAX_FAILED ==> now >= f[|f| - 1] + LOCK)
    ensures SpacedOut(f + [now])
  {
  }

  function AnswerTo(w: World, codeAt: CodeAt, upper: string -> string, action: Action): Answer
    requires action.Enter?
  {
    Verify(w.account, codeAt, upper, action.code, action.allowReuse, action.now).1
  }

  lemma AcceptKeeps(first: nat, w: World, codeAt: CodeAt, upper: string -> string, action: Action)
    requires WorldOk(first, w) && action.Enter? && AnswerTo(w, codeAt, upper, action).Accepted?
    ensures WorldOk(first, Step(w, codeAt, upper, action))
  {
    StepsGrow(first, w.accepted, Acceptance(AnswerTo(w, codeAt, upper, action).step, action.allowReuse, action.now));
  }

  lemma RecoveryKeeps(first: nat, w: World, codeAt: CodeAt, upper: string -> string, action: Action)
    requires WorldOk(first, w) && action.Enter? && AnswerTo(w, codeAt, upper, action).ByRecovery?
    ensures WorldOk(first, Step(w, codeAt, upper, action))
  {
    assert RecoveryOf(action.code, upper) !in w.recovered;
  }

  lemma RejectKeeps(first: nat, w: World, codeAt: CodeAt, upper: string -> string, action: Action)
    requires WorldOk(first, w) && action.Enter? && AnswerTo(w, codeAt, upper, action).Rejected?
    ensures WorldOk(first, Step(w, codeAt, upper, action))
  {
    assert LockedSeconds(w.account.credential.value, action.now) == 0;
    FailureSpaced(w.failures, action.now);
  }

  lemma EnterKeeps(first: nat, w: World, codeAt: CodeAt, upper: string -> string, action: Action)
    requires WorldOk(first, w) && action.Enter?
    ensures WorldOk(first, Step(w, codeAt, upper, action))
  {
    match AnswerTo(w, codeAt, upper, action)
    case Accepted(_, _) => AcceptKeeps(first, w, codeAt, upper, action);
    case ByRecovery => RecoveryKeeps(first, w, codeAt, upper, action);
    case Rejected(_, _) => RejectKeeps(first, w, codeAt, upper, action);
    case _ =>
  }

  lemma {:induction false} RunKeeps(first: nat, codes: set<string>, codeAt: CodeAt, upper: string -> string, actions: seq<Action>)
    ensures WorldOk(first, Run(Start(first, codes), codeAt, upper, actions))
  {
    if actions != [] {
      var n := |actions| - 1;
      RunKeeps(first, codes, codeAt, upper, actions[..n]);
      if actions[n].Enter? {
        EnterKeeps(first, Run(Start(first, codes), codeAt, upper, actions[..n]), codeAt, upper, actions[n]);
      }
    }
  }

  // ---- main results ----

  /**
   One-time acceptance (section 5.2 of RFC 6238): accepted steps never decrease, they strictly
   increase wherever the later entry did not allow reuse, and the step accepted by confirmation counts.
   */
  lemma {:induction false} StepsIncrease(first: nat, codes: set<string>, codeAt: CodeAt, upper: string -> string, actions: seq<Action>, i: nat, j: nat)
    requires var a := Run(Start(first, codes), codeAt, upper, actions).accepted; i < j < |a|
    ensures var a := Run(Start(first, codes), codeAt, upper, actions).accepted;
            && first <= a[i].step <= a[j].step
            && (a[i].step == a[j].step ==> a[j].allowReuse)
            && (first == a[i].step ==> a[i].allowReuse)
  {
    RunKeeps(first, codes, codeAt, upper, actions);
  }

  /** What is accepted is the code of a step at most one away from now. */
  lemma AcceptedIsCurrent(a: Account, codeAt: CodeAt, upper: string -> string, code: string, allowReuse: bool, now: Instant)
    requires Verify(a, codeAt, upper, code, allowReuse, now).1.Accepted?
    ensures var step := Verify(a, codeAt, upper, code, allowReuse, now).1.step;
            codeAt(step) == OtpOf(code) && CurrentStep(now) - 1 <= step <= CurrentStep(now) + 1
  {
  }

  /** The account is locked exactly from the fifth failure since the last success on, until five minutes after the latest. */
  lemma {:induction false} LockedFromFive(first: nat, codes: set<string>, codeAt: CodeAt, upper: string -> string, actions: seq<Action>)
    ensures var w := Run(Start(first, codes), codeAt, upper, actions);
            && w.account.credential.Some?
            && w.account.credential.value.failedCount == |w.failures|
            && (w.account.credential.value.lockedUntil.Some? <==> |w.failures| >= MAX_FAILED)
            && (|w.failures| >= MAX_FAILED ==> w.account.credential.value.lockedUntil == Some(w.failures[|w.failures| - 1] + LOCK))
  {
    RunKeeps(first, codes, codeAt, upper, actions);
  }

  /** No recovery code is accepted twice, however often the codes are replaced. */
  lemma {:induction false} RecoveryOnce(first: nat, codes: set<string>, codeAt: CodeAt, upper: string -> string, actions: seq<Action>, i: nat, j: nat)
    requires var r := Run(Start(first, codes), codeAt, upper, actions).recovered; i < j < |r|
    ensures var r := Run(Start(first, codes), codeAt, upper, actions).recovered; r[i] != r[j]
  {
    RunKeeps(first, codes, codeAt, upper, actions);
  }

  lemma {:induction false} SpacedBy(f: seq<Instant>, i: nat, j: nat)
    requires SpacedOut(f) && MAX_FAILED - 1 <= i <= j < |f|
    ensures f[j] >= f[i] + LOCK * (j - i)
    decreases j - i
  {
    if i < j {
      SpacedBy(f, i, j - 1);
    }
  }

  predicate SortedUpTo(f: seq<Instant>, clock: Option<Instant>) {
    && (forall i, j :: 0 <= i < j < |f| ==> f[i] <= f[j])
    && (f != [] ==> clock.Some? && f[|f| - 1] <= clock.value)
  }

  /** The clock of a run is the time of its last entry. */
  predicate ClockIs(actions: seq<Action>, clock: Option<Instant>) {
    && (clock.Some? ==> exists i :: 0 <= i < |actions| && actions[i].Enter? && actions[i].now == clock.value)
    && (clock.None? ==> forall i :: 0 <= i < |actions| ==> !actions[i].Enter?)
  }

  lemma {:induction false} FailuresInOrder(first: nat, codes: set<string>, codeAt: CodeAt, upper: string -> string, actions: seq<Action>)
    requires Monotone(actions)
    ensures var w := Run(Start(first, codes), codeAt, upper, actions); SortedUpTo(w.failures, w.clock) && ClockIs(actions, w.clock)
  {
    hide Verify;
    if actions != [] {
      var n := |actions| - 1;
      FailuresInOrder(first, codes, codeAt, upper, actions[..n]);
      var w := Run(Start(first, codes), codeAt, upper, actions[..n]);
      ClockGoesOn(actions, w.clock);
      if actions[n].Enter? {
        var next := Step(w, codeAt, upper, actions[n]);
        assert next.clock == Some(actions[n].now);
        assert next.failures == [] || next.failures == w.failures || next.failures == w.failures + [actions[n].now];
      }
    }
  }

  lemma {:induction false} ClockGoesOn(actions: seq<Action>, clock: Option<Instant>)
    requires actions != [] && Monotone(actions) && ClockIs(actions[..|actions| - 1], clock)
    ensures var last := actions[|actions| - 1];
            if last.Enter? then ClockIs(actions, Some(last.now)) && (clock.Some? ==> clock.value <= last.now) else ClockIs(actions, clock)
  {
    var before := actions[..|actions| - 1];
    if clock.Some? {
      var i :| 0 <= i < |before| && before[i].Enter? && before[i].now == clock.value;
      assert actions[i] == before[i];
    } else {
      assert forall i :: 0 <= i < |before| ==> actions[i] == before[i];
    }
  }

  /**
   Without a success in between, an interval of T milliseconds admits at most 5 + floor(T / 300000)
   counted failures, whatever is entered.
   */
  lemma {:induction false} FailureBound(first: nat, codes: set<string>, codeAt: CodeAt, upper: string -> string, actions: seq<Action>, i: nat, j: nat)
    requires Monotone(actions)
    requires i <= j < |Run(Start(first, codes), codeAt, upper, actions).failures|
    ensures var f := Run(Start(first, codes), codeAt, upper, actions).failures;
            j - i + 1 <= MAX_FAILED + (f[j] - f[i]) / LOCK
  {
    RunKeeps(first, codes, codeAt, upper, actions);
    FailuresInOrder(first, codes, codeAt, upper, actions);
    var f := Run(Start(first, codes), codeAt, upper, actions).failures;
    var k := Max(i, MAX_FAILED - 1);
    if j >= k {
      SpacedBy(f, k, j);
      assert f[i] <= f[k];
      AtLeast(f[j] - f[i], j - k);
    } else {
      AtLeast(f[j] - f[i], 0);
    }
  }

  lemma AtLeast(t: int, n: nat)
    requires t >= LOCK * n
    ensures t / LOCK >= n
  {
  }
}
