/**
 * What a call makes of the driver's answers, told by the answers alone: which failures are retried,
 * which are given up, and how the call ends.
 */
module TransactionRetries {
  import opened TransactionCall
  import Metrics = TransactionMetrics

  predicate OfBody(a: Answer) { a.BodyReturned? || a.BodyThrew? }

  predicate OfCommit(a: Answer) { a.CommitReturned? || a.CommitThrew? }

  // How often the body was run, and how often a commit was tried.
  function Bodies(answers: seq<Answer>): nat {
    if answers == [] then 0
    else Bodies(answers[..|answers| - 1]) + if OfBody(answers[|answers| - 1]) then 1 else 0
  }

  function Commits(answers: seq<Answer>): nat {
    if answers == [] then 0
    else Commits(answers[..|answers| - 1]) + if OfCommit(answers[|answers| - 1]) then 1 else 0
  }

  // The commits tried for the last body.
  function CommitsOfBody(answers: seq<Answer>): nat {
    if answers == [] || OfBody(answers[|answers| - 1]) then 0
    else CommitsOfBody(answers[..|answers| - 1]) + if OfCommit(answers[|answers| - 1]) then 1 else 0
  }

  // A failed attempt that is not a commit in doubt: it may leave the transaction active.
  predicate FailedAttempt(a: Answer) { a.BodyThrew? || (a.CommitThrew? && !a.e.unknown) }

  predicate InDoubt(a: Answer) { a.CommitThrew? && a.e.unknown }

  // After a failed attempt nothing is active: it left nothing active, or the abort succeeded.
  predicate CleanAfter(answers: seq<Answer>, i: nat)
    requires i < |answers| && FailedAttempt(answers[i])
  {
    answers[i].active ==> i + 1 < |answers| && answers[i + 1] == Aborted(true)
  }

  // The body was run right after the failure, or right after the abort that the failure called for.
  predicate BodyRunsAfter(answers: seq<Answer>, i: nat)
    requires i < |answers| && FailedAttempt(answers[i])
  {
    var next := if answers[i].active then i + 2 else i + 1;
    next < |answers| && OfBody(answers[next])
  }

  predicate CommitTriedAfter(answers: seq<Answer>, i: nat) {
    i + 1 < |answers| && OfCommit(answers[i + 1])
  }

  // A failed attempt is followed by another body exactly when its error is transient and not unknown,
  // nothing is left active, and bodies are left.
  ghost predicate BodiesRetried(cfg: Config, answers: seq<Answer>) {
    forall i :: 0 <= i < |answers| && FailedAttempt(answers[i]) ==>
      (BodyRunsAfter(answers, i) <==>
         && answers[i].e.transient && !answers[i].e.unknown
         && CleanAfter(answers, i) && Bodies(answers[..i + 1]) < cfg.maxBody)
  }

  // A commit in doubt is followed by another commit exactly when its time is not up and tries are left.
  ghost predicate CommitsRetried(cfg: Config, answers: seq<Answer>) {
    forall i :: 0 <= i < |answers| && InDoubt(answers[i]) ==>
      (CommitTriedAfter(answers, i) <==>
         !answers[i].e.maxTime && CommitsOfBody(answers[..i + 1]) < cfg.maxCommit)
  }

  // The outcome is that of the last answer, apart from aborts and the end of the session.
  function Verdict(answers: seq<Answer>): Outcome {
    if answers == [] then Returned
    else
      match answers[|answers| - 1]
      case OpenFailed(e) => Threw(e.isAmbiguous)
      case BodyThrew(e, _) => Threw(e.isAmbiguous)
      case CommitThrew(e, _, _) => Threw(e.isAmbiguous || e.unknown)
      case Aborted(_) => Verdict(answers[..|answers| - 1])
      case SessionEnded(_) => Verdict(answers[..|answers| - 1])
      case _ => Returned
  }

  // The counters have grown by what the answers show: bodies and commits by their number, the rest by
  // how the call ended.
  ghost predicate CountedAsTold(b: Books, answers: seq<Answer>, outcome: Outcome) {
    var n, o, bodies := b.counters, b.base, Bodies(answers);
    && n.bodies.attempts == o.bodies.attempts + bodies
    && n.bodies.retries == o.bodies.retries + (if bodies > 1 then bodies - 1 else 0)
    && n.commits.attempts == o.commits.attempts + Commits(answers)
    && n.ends.successes == o.ends.successes + (if outcome.Returned? then 1 else 0)
    && n.ends.failures == o.ends.failures + (if outcome == Threw(false) then 1 else 0)
    && n.doubts.ambiguous == o.doubts.ambiguous + (if outcome == Threw(true) then 1 else 0)
    && n.doubts.rejected == o.doubts.rejected
    && n.reruns.retried == o.reruns.retried + (if outcome.Returned? && bodies > 1 then 1 else 0)
    && n.reruns.totalRetries == o.reruns.totalRetries + (if outcome.Returned? && bodies > 1 then bodies - 1 else 0)
  }

  // A call that is over did what its answers call for, and counted it.
  ghost predicate DoneAsTold(c: Call, answers: seq<Answer>) {
    && BodiesRetried(c.cfg, answers) && CommitsRetried(c.cfg, answers)
    && c.ctl.pc.Over() && c.ctl.pc.outcome == Verdict(answers)
    && CountedAsTold(c.books, answers, Verdict(answers))
  }

  // ---- while the call goes on ----

  // What the answers so far and the place in the loops say together.
  ghost predicate Place(k: Control, answers: seq<Answer>) {
    && k.body == Bodies(answers) + (if k.pc.InBody? then 1 else 0)
    && (!k.pc.InBody? ==> k.tries == CommitsOfBody(answers) + if k.pc.InCommit? then 1 else 0)
    && (k.pc.AbortingBody? ==> answers != [] && answers[|answers| - 1] == BodyThrew(k.pc.e, true))
    && (k.pc.AbortingCommit? ==>
          answers != [] && FailedAttempt(answers[|answers| - 1]) && answers[|answers| - 1].CommitThrew?
          && answers[|answers| - 1].e == k.pc.e && answers[|answers| - 1].active)
    && (k.pc.Over() ==> k.pc.outcome == Verdict(answers))
  }

  // Commits are counted as they begin, and reruns when the call returns.
  ghost predicate CommitsTold(k: Control, b: Books, commits: nat) {
    b.counters.commits.attempts == b.base.commits.attempts + commits + (if k.pc.InCommit? then 1 else 0)
  }

  ghost predicate RerunsTold(k: Control, b: Books) {
    var n, o, late := b.counters.reruns, b.base.reruns, k.pc.Over() && k.pc.outcome.Returned? && k.body > 1;
    && n.retried == o.retried + (if late then 1 else 0)
    && n.totalRetries == o.totalRetries + (if late then k.body - 1 else 0)
  }

  // The last failure is still to be followed by the abort it calls for.
  predicate AbortPending(answers: seq<Answer>, i: nat)
    requires i < |answers| && FailedAttempt(answers[i])
  {
    answers[i].active && i + 1 == |answers|
  }

  // The next answer will be the body's that follows the failure.
  predicate BodyDue(answers: seq<Answer>, i: nat, pc: Pc)
    requires i < |answers| && FailedAttempt(answers[i])
  {
    pc.InBody? && |answers| == if answers[i].active then i + 2 else i + 1
  }

  ghost predicate FailureTold(cfg: Config, answers: seq<Answer>, pc: Pc, i: nat)
    requires i < |answers| && FailedAttempt(answers[i])
  {
    AbortPending(answers, i) ||
    (BodyRunsAfter(answers, i) || BodyDue(answers, i, pc) <==>
       && answers[i].e.transient && !answers[i].e.unknown
       && CleanAfter(answers, i) && Bodies(answers[..i + 1]) < cfg.maxBody)
  }

  ghost predicate DoubtTold(cfg: Config, answers: seq<Answer>, pc: Pc, i: nat)
    requires i < |answers| && InDoubt(answers[i])
  {
    CommitTriedAfter(answers, i) || (pc.InCommit? && |answers| == i + 1) <==>
      !answers[i].e.maxTime && CommitsOfBody(answers[..i + 1]) < cfg.maxCommit
  }

  ghost predicate Told(c: Call, answers: seq<Answer>) {
    && Place(c.ctl, answers) && CommitsTold(c.ctl, c.books, Commits(answers)) && RerunsTold(c.ctl, c.books)
    && (forall i: nat :: i < |answers| && FailedAttempt(answers[i]) ==> FailureTold(c.cfg, answers, c.ctl.pc, i))
    && (forall i: nat :: i < |answers| && InDoubt(answers[i]) ==> DoubtTold(c.cfg, answers, c.ctl.pc, i))
    // Only an abort that a failure called for is waited for.
    && (forall i: nat :: i < |answers| && FailedAttempt(answers[i]) && AbortPending(answers, i) ==>
          c.ctl.pc.AbortingBody? || c.ctl.pc.AbortingCommit?)
  }

  lemma PlaceMoves(c: Call, answers: seq<Answer>, a: Answer, more: seq<Answer>)
    requires Bounds(c.cfg, c.ctl) && Place(c.ctl, answers) && Legal(c, a) && more == answers + [a]
    ensures Place(StepControl(c.cfg, c.ctl, a), more)
  {
    assert more[..|answers|] == answers && more[|answers|] == a;
  }

  lemma CommitsMove(c: Call, commits: nat, a: Answer)
    requires Bounds(c.cfg, c.ctl) && CommitsTold(c.ctl, c.books, commits) && Legal(c, a)
    ensures CommitsTold(Step(c, a).ctl, Step(c, a).books, commits + if OfCommit(a) then 1 else 0)
  {
  }

  lemma RerunsMove(c: Call, a: Answer)
    requires Bounds(c.cfg, c.ctl) && RerunsTold(c.ctl, c.books) && Legal(c, a)
    ensures RerunsTold(Step(c, a).ctl, Step(c, a).books)
  {
  }

  lemma FailureMoves(c: Call, answers: seq<Answer>, a: Answer, more: seq<Answer>, i: nat)
    requires Bounds(c.cfg, c.ctl) && Told(c, answers) && Legal(c, a) && more == answers + [a]
    requires i < |more| && FailedAttempt(more[i])
    ensures FailureTold(c.cfg, more, StepControl(c.cfg, c.ctl, a).pc, i)
  {
    assert more[..|answers|] == answers;
    if i < |answers| {
      assert more[i] == answers[i] && more[..i + 1] == answers[..i + 1];
      assert FailureTold(c.cfg, answers, c.ctl.pc, i);
    } else {
      assert more[..i + 1] == more;
    }
  }

  lemma DoubtMoves(c: Call, answers: seq<Answer>, a: Answer, more: seq<Answer>, i: nat)
    requires Bounds(c.cfg, c.ctl) && Told(c, answers) && Legal(c, a) && more == answers + [a]
    requires i < |more| && InDoubt(more[i])
    ensures DoubtTold(c.cfg, more, StepControl(c.cfg, c.ctl, a).pc, i)
  {
    assert more[..|answers|] == answers;
    if i < |answers| {
      assert more[i] == answers[i] && more[..i + 1] == answers[..i + 1];
      assert DoubtTold(c.cfg, answers, c.ctl.pc, i);
    } else {
      assert more[..i + 1] == more;
    }
  }

  lemma {:induction false} RunIsTold(cfg: Config, base: Metrics.Counters, answers: seq<Answer>)
    requires Usable(cfg) && LegalRun(Start(cfg, base), answers)
    ensures Told(Run(Start(cfg, base), answers), answers)
  {
    if answers != [] {
      var rest, a := answers[..|answers| - 1], answers[|answers| - 1];
      var c := Run(Start(cfg, base), rest);
      RunIsTold(cfg, base, rest);
      RunInv(cfg, base, rest);
      assert answers == rest + [a];
      PlaceMoves(c, rest, a, answers);
      CommitsMove(c, Commits(rest), a);
      RerunsMove(c, a);
      forall i: nat | i < |answers| && FailedAttempt(answers[i])
        ensures FailureTold(cfg, answers, StepControl(cfg, c.ctl, a).pc, i)
      {
        FailureMoves(c, rest, a, answers, i);
      }
      forall i: nat | i < |answers| && InDoubt(answers[i])
        ensures DoubtTold(cfg, answers, StepControl(cfg, c.ctl, a).pc, i)
      {
        DoubtMoves(c, rest, a, answers, i);
      }
    }
  }

  /**
   * A call that is over has run its body again after exactly the failures that allow it, has tried
   * its commit again after exactly the doubts that allow it, and ends as its last answer says.
   */
  lemma RetriesExactlyWhenAllowed(cfg: Config, base: Metrics.Counters, answers: seq<Answer>)
    requires Usable(cfg) && LegalRun(Start(cfg, base), answers) && Run(Start(cfg, base), answers).ctl.pc.Over()
    ensures DoneAsTold(Run(Start(cfg, base), answers), answers)
  {
    var c := Run(Start(cfg, base), answers);
    RunIsTold(cfg, base, answers);
    RunInv(cfg, base, answers);
    forall i | 0 <= i < |answers| && FailedAttempt(answers[i])
      ensures BodyRunsAfter(answers, i) <==>
              && answers[i].e.transient && !answers[i].e.unknown
              && CleanAfter(answers, i) && Bodies(answers[..i + 1]) < cfg.maxBody
    {
      assert FailureTold(cfg, answers, c.ctl.pc, i) && !AbortPending(answers, i);
    }
    forall i | 0 <= i < |answers| && InDoubt(answers[i])
      ensures CommitTriedAfter(answers, i) <==>
              !answers[i].e.maxTime && CommitsOfBody(answers[..i + 1]) < cfg.maxCommit
    {
      assert DoubtTold(cfg, answers, c.ctl.pc, i);
    }
  }

  // The last answer that is neither an abort nor the end of the session.
  function LastTry(answers: seq<Answer>): (i: int)
    ensures -1 <= i < |answers|
    ensures i >= 0 ==> !answers[i].Aborted? && !answers[i].SessionEnded?
    ensures forall j :: i < j < |answers| ==> answers[j].Aborted? || answers[j].SessionEnded?
  {
    if answers == [] then -1
    else if answers[|answers| - 1].Aborted? || answers[|answers| - 1].SessionEnded?
    then LastTry(answers[..|answers| - 1])
    else |answers| - 1
  }

  lemma {:induction false} VerdictOfLastTry(answers: seq<Answer>)
    ensures var i := LastTry(answers);
            && (Verdict(answers).Threw? ==>
                  && i >= 0 && (answers[i].OpenFailed? || FailedAttempt(answers[i]) || InDoubt(answers[i]))
                  && Verdict(answers) == Threw(InDoubt(answers[i]) || answers[i].e.isAmbiguous))
            && (i >= 0 ==> Bodies(answers) == Bodies(answers[..i + 1])
                           && CommitsOfBody(answers) == CommitsOfBody(answers[..i + 1]))
  {
    var n := |answers|;
    if answers != [] && LastTry(answers) < n - 1 {
      VerdictOfLastTry(answers[..n - 1]);
      assert LastTry(answers) >= 0 ==> answers[..n - 1][..LastTry(answers) + 1] == answers[..LastTry(answers) + 1];
    } else if answers != [] {
      assert answers[..n] == answers;
    }
  }

  /**
   * A call throws only when nothing was left to try: no session, an attempt that failed for good or
   * left its transaction active or was the last body, or a doubt whose time or tries were used up;
   * and it is ambiguous exactly in doubt, or when the error says so itself.
   */
  lemma ThrowsOnlyWhenSpent(cfg: Config, base: Metrics.Counters, answers: seq<Answer>)
    requires Usable(cfg) && LegalRun(Start(cfg, base), answers)
    requires var pc := Run(Start(cfg, base), answers).ctl.pc; pc.Over() && pc.outcome.Threw?
    ensures var i := LastTry(answers);
            && i >= 0
            && (|| answers[i].OpenFailed?
                || (FailedAttempt(answers[i]) &&
                    (!answers[i].e.transient || answers[i].e.unknown || !CleanAfter(answers, i)
                     || Bodies(answers) == cfg.maxBody))
                || (InDoubt(answers[i]) && (answers[i].e.maxTime || CommitsOfBody(answers) == cfg.maxCommit)))
            && Run(Start(cfg, base), answers).ctl.pc.outcome == Threw(InDoubt(answers[i]) || answers[i].e.isAmbiguous)
  {
    RetriesExactlyWhenAllowed(cfg, base, answers);
    RunIsTold(cfg, base, answers);
    RunInv(cfg, base, answers);
    VerdictOfLastTry(answers);
    var i := LastTry(answers);
    if FailedAttempt(answers[i]) {
      assert !BodyRunsAfter(answers, i);
    } else if InDoubt(answers[i]) {
      assert !CommitTriedAfter(answers, i);
    }
  }

  // All of it, for a run told by its history.
  lemma HistoryIsDoneAsTold(cfg: Config, base: Metrics.Counters, past: seq<Call>, answers: seq<Answer>, now: Call)
    requires Usable(cfg) && History(cfg, base, past, answers, now) && now.ctl.pc.Over()
    ensures DoneAsTold(now, answers)
  {
    HistoryIsRun(cfg, base, past, answers, now);
    RunInv(cfg, base, answers);
    RetriesExactlyWhenAllowed(cfg, base, answers);
  }
}
