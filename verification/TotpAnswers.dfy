/**
 What every entry is answered, told from what was accepted and refused before it, and how long a lock
 keeps everything out.
 */
module TotpAnswers {
  import opened Common
  import opened Totp
  import opened TotpRuns

  // ---- what is typed in ----

  predicate IsDigit(c: char) {
    '0' <= c <= '9'
  }

  lemma {:induction false} DigitsConcat(a: string, b: string)
    ensures DigitsOf(a + b) == DigitsOf(a) + DigitsOf(b)
  {
    if a == "" {
      assert a + b == b;
    } else {
      DigitsConcat(a[1..], b);
      assert (a + b)[1..] == a[1..] + b && (a + b)[0] == a[0];
    }
  }

  /** Digits are read in the order they are typed, and whatever stands between them is not read. */
  lemma OnlyDigitsCount(a: string, c: char, b: string)
    ensures DigitsOf(a + [c] + b) == DigitsOf(a) + (if IsDigit(c) then [c] else "") + DigitsOf(b)
  {
    DigitsConcat(a + [c], b);
    DigitsConcat(a, [c]);
    assert [c][1..] == "" && DigitsOf("") == "";
  }

  /** The first six digits count, and no digit behind them. */
  lemma SixDigitsCount(a: string, b: string)
    ensures |DigitsOf(a)| <= 6 ==> OtpOf(a) == DigitsOf(a)
    ensures |DigitsOf(a)| >= 6 ==> |OtpOf(a)| == 6 && OtpOf(a + b) == OtpOf(a)
  {
    DigitsConcat(a, b);
    if |DigitsOf(a)| >= 6 {
      assert (DigitsOf(a) + DigitsOf(b))[..6] == DigitsOf(a)[..6];
    }
  }

  predicate IsLetterOrDigit(c: char) {
    'A' <= c <= 'Z' || IsDigit(c)
  }

  lemma {:induction false} AlphanumericConcat(a: string, b: string)
    ensures Alphanumeric(a + b) == Alphanumeric(a) + Alphanumeric(b)
  {
    if a == "" {
      assert a + b == b;
    } else {
      AlphanumericConcat(a[1..], b);
      assert (a + b)[1..] == a[1..] + b && (a + b)[0] == a[0];
    }
  }

  /** So for recovery codes, of which capital letters and digits are read. */
  lemma OnlyAlphanumericsCount(a: string, c: char, b: string)
    ensures Alphanumeric(a + [c] + b) == Alphanumeric(a) + (if IsLetterOrDigit(c) then [c] else "") + Alphanumeric(b)
  {
    AlphanumericConcat(a + [c], b);
    AlphanumericConcat(a, [c]);
    assert [c][1..] == "" && Alphanumeric("") == "";
  }

  // ---- the answer ----

  /** Five failures or more since the last success, the latest less than five minutes ago. */
  predicate LockedOut(failures: seq<Instant>, now: Instant) {
    |failures| >= 5 && now < failures[|failures| - 1] + 300_000
  }

  /** This is the code of a step of thirty seconds, the present one or one beside it. */
  predicate InWindow(codeAt: CodeAt, otp: string, now: Instant, step: nat) {
    |otp| == 6 && now / 30_000 - 1 <= step <= now / 30_000 + 1 && codeAt(step) == otp
  }

  /** The first such step, when it is behind no accepted one; the last accepted one counts where reuse is allowed. */
  ghost predicate Accepts(last: nat, codeAt: CodeAt, code: string, allowReuse: bool, now: Instant, step: nat) {
    && InWindow(codeAt, OtpOf(code), now, step)
    && (forall earlier: nat :: InWindow(codeAt, OtpOf(code), now, earlier) ==> step <= earlier)
    && (step > last || (step == last && allowReuse))
  }

  /** The recovery codes handed out last, and all that were ever handed out. */
  function Handed(codes: set<string>, actions: seq<Action>): (set<string>, set<string>) {
    if actions == [] then (codes, codes)
    else
      var (current, issued) := Handed(codes, actions[..|actions| - 1]);
      var a := actions[|actions| - 1];
      if a.ReplaceCodes? && a.codes !! issued then (a.codes, issued + a.codes) else (current, issued)
  }

  /** A recovery code of the latest list that was not used before. */
  predicate Recovers(current: set<string>, recovered: seq<string>, upper: string -> string, code: string) {
    var r := RecoveryOf(code, upper);
    |r| >= 8 && r in current && r !in recovered
  }

  /** The answer an entry deserves, given what was accepted, recovered and refused before. */
  ghost predicate Deserved(first: nat, w: World, current: set<string>, codeAt: CodeAt, upper: string -> string, action: Action, answer: Answer)
    requires action.Enter?
  {
    var now, last := action.now, LastStep(first, w.accepted);
    if LockedOut(w.failures, now) then answer == Locked((w.failures[|w.failures| - 1] + 300_000 - now + 999) / 1000)
    else if Recovers(current, w.recovered, upper, action.code) then answer == ByRecovery
    else match answer
      case Accepted(step, reused) => Accepts(last, codeAt, action.code, action.allowReuse, now, step) && reused == (step == last)
      case Rejected(count, locks) =>
        && (forall step: nat :: !Accepts(last, codeAt, action.code, action.allowReuse, now, step))
        && count == |w.failures| + 1 && locks == (count >= 5)
      case _ => false
  }

  // ---- recovery codes on file ----

  /** On file are the codes handed out last, and marked are the used ones. */
  predicate CodesOk(w: World, current: set<string>, issued: set<string>) {
    && w.issued == issued && current <= issued && w.account.codes.Keys == current
    && (forall k :: k in current ==> (w.account.codes[k] <==> k in w.recovered))
    && (forall k :: k in w.recovered ==> k in issued)
  }

  lemma EnterKeepsCodes(w: World, current: set<string>, issued: set<string>, codeAt: CodeAt, upper: string -> string, action: Action)
    requires action.Enter? && CodesOk(w, current, issued)
    ensures CodesOk(Step(w, codeAt, upper, action), current, issued)
  {
    hide Taken, LockedSeconds, RecoveryOf;
    var r, next := RecoveryOf(action.code, upper), Step(w, codeAt, upper, action);
    if next.recovered == w.recovered + [r] && r in current {
      assert next.account.codes.Keys == current;
      assert forall k :: k in next.recovered <==> k in w.recovered || k == r;
    }
  }

  lemma ReplaceKeepsCodes(w: World, current: set<string>, issued: set<string>, codeAt: CodeAt, upper: string -> string, codes: set<string>)
    requires CodesOk(w, current, issued) && codes !! issued
    ensures CodesOk(Step(w, codeAt, upper, ReplaceCodes(codes)), codes, issued + codes)
  {
    assert forall k :: k in codes ==> k !in w.recovered;
  }

  lemma {:induction false} CodesFollow(first: nat, codes: set<string>, codeAt: CodeAt, upper: string -> string, actions: seq<Action>)
    ensures var (current, issued) := Handed(codes, actions); CodesOk(Run(Start(first, codes), codeAt, upper, actions), current, issued)
  {
    if actions != [] {
      var n := |actions| - 1;
      CodesFollow(first, codes, codeAt, upper, actions[..n]);
      var w := Run(Start(first, codes), codeAt, upper, actions[..n]);
      var (current, issued) := Handed(codes, actions[..n]);
      hide CodesOk, Verify;
      match actions[n]
      case Enter(_, _, _) => EnterKeepsCodes(w, current, issued, codeAt, upper, actions[n]);
      case ReplaceCodes(more) => if more !! issued { ReplaceKeepsCodes(w, current, issued, codeAt, upper, more); } else { assert Step(w, codeAt, upper, actions[n]) == w; }
    }
  }

  // ---- main results ----

  lemma StepOf(codeAt: CodeAt, otp: string, now: Instant)
    ensures var m := MatchingStep(codeAt, otp, now);
            && (m.Some? ==> InWindow(codeAt, otp, now, m.value) && forall earlier: nat :: InWindow(codeAt, otp, now, earlier) ==> m.value <= earlier)
            && (m.None? ==> forall step: nat :: !InWindow(codeAt, otp, now, step))
  {
    assert CurrentStep(now) == now / 30_000;
  }

  lemma AnswerDeserved(first: nat, w: World, current: set<string>, issued: set<string>, codeAt: CodeAt, upper: string -> string, action: Action)
    requires WorldOk(first, w) && CodesOk(w, current, issued) && action.Enter?
    ensures Deserved(first, w, current, codeAt, upper, action, AnswerTo(w, codeAt, upper, action))
  {
    StepOf(codeAt, OtpOf(action.code), action.now);
    hide MatchingStep, InWindow, OtpOf, RecoveryOf, StepsOk, SpacedOut;
  }

  lemma DeservedIsOne(first: nat, w: World, current: set<string>, codeAt: CodeAt, upper: string -> string, action: Action, a: Answer, b: Answer)
    requires action.Enter? && Deserved(first, w, current, codeAt, upper, action, a) && Deserved(first, w, current, codeAt, upper, action, b)
    ensures a == b
  {
  }

  /**
   Every entry of every run gets the one answer it deserves: while the lock lasts Locked, with the seconds
   left; otherwise a recovery code of the latest list that was not used recovers; otherwise the code of the
   first step around now is accepted when the step is not spent; and everything else is a counted failure.
   */
  lemma {:induction false} AnswerIsDeserved(first: nat, codes: set<string>, codeAt: CodeAt, upper: string -> string, actions: seq<Action>, action: Action, answer: Answer)
    requires action.Enter?
    ensures var w := Run(Start(first, codes), codeAt, upper, actions);
            AnswerTo(w, codeAt, upper, action) == answer <==> Deserved(first, w, Handed(codes, actions).0, codeAt, upper, action, answer)
  {
    RunKeeps(first, codes, codeAt, upper, actions);
    CodesFollow(first, codes, codeAt, upper, actions);
    var w := Run(Start(first, codes), codeAt, upper, actions);
    var (current, issued) := Handed(codes, actions);
    hide Run, WorldOk, CodesOk, Deserved, Verify;
    AnswerDeserved(first, w, current, issued, codeAt, upper, action);
    if Deserved(first, w, current, codeAt, upper, action, answer) {
      DeservedIsOne(first, w, current, codeAt, upper, action, answer, AnswerTo(w, codeAt, upper, action));
    }
  }

  /** While the lock lasts an entry changes nothing. */
  lemma LockedEntry(first: nat, w: World, codeAt: CodeAt, upper: string -> string, action: Action)
    requires WorldOk(first, w) && action.Enter? && LockedOut(w.failures, action.now)
    ensures AnswerTo(w, codeAt, upper, action).Locked?
    ensures Step(w, codeAt, upper, action) == w.(clock := Some(action.now))
  {
    hide StepsOk, SpacedOut, RecoveryOk;
  }

  /** What a run has seen accepted, recovered and refused. */
  predicate SameRecord(a: World, b: World) {
    a.failures == b.failures && a.accepted == b.accepted && a.recovered == b.recovered
  }

  lemma StepWhileLocked(first: nat, w: World, codeAt: CodeAt, upper: string -> string, action: Action, now: Instant)
    requires WorldOk(first, w) && LockedOut(w.failures, now) && (action.Enter? ==> action.now <= now)
    ensures SameRecord(Step(w, codeAt, upper, action), w)
  {
    if action.Enter? {
      LockedEntry(first, w, codeAt, upper, action);
    }
  }

  lemma RunStep(start: World, codeAt: CodeAt, upper: string -> string, actions: seq<Action>, more: seq<Action>)
    requires more != []
    ensures Run(start, codeAt, upper, actions + more)
            == Step(Run(start, codeAt, upper, actions + more[..|more| - 1]), codeAt, upper, more[|more| - 1])
  {
    hide Step;
    var all := actions + more;
    assert all[..|all| - 1] == actions + more[..|more| - 1] && all[|all| - 1] == more[|more| - 1];
  }

  lemma {:induction false} LockStays(first: nat, codes: set<string>, codeAt: CodeAt, upper: string -> string, actions: seq<Action>, more: seq<Action>, now: Instant)
    requires LockedOut(Run(Start(first, codes), codeAt, upper, actions).failures, now)
    requires forall i :: 0 <= i < |more| && more[i].Enter? ==> more[i].now <= now
    ensures SameRecord(Run(Start(first, codes), codeAt, upper, actions + more), Run(Start(first, codes), codeAt, upper, actions))
    decreases |more|
  {
    if more == [] {
      assert actions + more == actions;
    } else {
      var n, start := |more| - 1, Start(first, codes);
      LockStays(first, codes, codeAt, upper, actions, more[..n], now);
      RunKeeps(first, codes, codeAt, upper, actions + more[..n]);
      RunStep(start, codeAt, upper, actions, more);
      hide Run, Step, WorldOk, Start;
      StepWhileLocked(first, Run(start, codeAt, upper, actions + more[..n]), codeAt, upper, more[n], now);
    }
  }

  /**
   From the fifth failure on, until five minutes after the latest, nothing is accepted, recovered or
   counted, and an entry is answered Locked, right codes and recovery codes too, and leaves the credential
   and the recovery codes alone, whatever else goes on.
   */
  lemma {:induction false} LockKeepsOut(first: nat, codes: set<string>, codeAt: CodeAt, upper: string -> string, actions: seq<Action>, more: seq<Action>, action: Action)
    requires action.Enter? && LockedOut(Run(Start(first, codes), codeAt, upper, actions).failures, action.now)
    requires forall i :: 0 <= i < |more| && more[i].Enter? ==> more[i].now <= action.now
    ensures var w, later := Run(Start(first, codes), codeAt, upper, actions), Run(Start(first, codes), codeAt, upper, actions + more);
            && SameRecord(later, w)
            && AnswerTo(later, codeAt, upper, action).Locked? && Step(later, codeAt, upper, action).account == later.account
  {
    LockStays(first, codes, codeAt, upper, actions, more, action.now);
    RunKeeps(first, codes, codeAt, upper, actions + more);
    hide WorldOk, Run, Step, Verify, Start;
    LockedEntry(first, Run(Start(first, codes), codeAt, upper, actions + more), codeAt, upper, action);
  }
}
