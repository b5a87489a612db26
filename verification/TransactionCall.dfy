/**
 * One outer transaction call as a state machine. Between two suspensions of the coded loop the
 * driver gives an answer; Legal says which answers the driver may give, Step what the loop does next.
 *
 * What is assumed of the driver, from the section "Error Labels" of the MongoDB driver
 * Transactions specification, is all in Legal: a commit error labelled transient and not unknown
 * means that the attempt did not commit, by this try or an earlier one. A commit that returns is
 * durable, committing twice is committing once, and a body that threw has committed nothing.
 */
module TransactionCall {
  import opened Prelude
  import Metrics = TransactionMetrics

  // What the cause chain of an error shows, and whether it is an AmbiguousTransactionCommitError.
  datatype Failure = Failure(unknown: bool, transient: bool, maxTime: bool, isAmbiguous: bool)

  datatype Config = Config(maxBody: nat, maxCommit: nat)

  predicate Usable(cfg: Config) { cfg.maxBody >= 1 && cfg.maxCommit >= 1 }

  datatype Outcome = Returned | Threw(ambiguous: bool)

  datatype Pc =
    | Opening
    | InBody
    | AbortingBody(e: Failure)
    | InCommit
    | AbortingCommit(e: Failure)
    | Closing(outcome: Outcome)
    | Closed(outcome: Outcome)
  {
    predicate Over() { Closing? || Closed? }
  }

  datatype Event = BodyStarted(attempt: nat) | CommitFailed(attempt: nat, e: Failure) | CommitDone(attempt: nat)

  datatype Answer =
    | Opened
    | OpenFailed(e: Failure)
    | BodyReturned(active: bool, persisted: bool)
    | BodyThrew(e: Failure, active: bool)
    | Aborted(ok: bool)
    | CommitReturned
    | CommitThrew(e: Failure, active: bool, applied: bool)
    | SessionEnded(ok: bool)

  // Where the loops stand: the current body attempt, and the commit tries made for it.
  datatype Control = Control(pc: Pc, body: nat, tries: nat)

  // What the loops record: the counters, which stood at base when the call was admitted.
  datatype Books = Books(base: Metrics.Counters, bodyLoops: nat, commitLoops: nat, counters: Metrics.Counters)

  // What the server knows: the body attempts whose writes are durable, and the history so far.
  // early: the callback itself ended the transaction, so the commit loop was bypassed.
  datatype World = World(durable: set<nat>, early: bool, persisted: bool, log: seq<Event>)

  datatype Call = Call(cfg: Config, ctl: Control, books: Books, world: World)

  function Start(cfg: Config, base: Metrics.Counters): Call {
    Call(cfg, Control(Opening, 0, 0), Books(base, 0, 0, base), World({}, false, false, []))
  }

  // ---- what the loops do ----

  predicate Retryable(e: Failure) { !e.unknown && e.transient }

  // After a failed attempt: run the body again, or throw.
  function AfterFailure(cfg: Config, k: Control, e: Failure, again: bool): Control {
    if again && k.body < cfg.maxBody then Control(InBody, k.body + 1, 0)
    else k.(pc := Closing(Threw(e.isAmbiguous)))
  }

  function OnCommit(cfg: Config, k: Control, a: Answer): Control {
    match a
    case CommitReturned => k.(pc := Closing(Returned))
    case CommitThrew(e, active, _) =>
      if e.unknown then
        if !e.maxTime && k.tries < cfg.maxCommit then k.(tries := k.tries + 1)
        else k.(pc := Closing(Threw(true)))
      else if active then k.(pc := AbortingCommit(e))
      else AfterFailure(cfg, k, e, e.transient)
    case _ => k
  }

  function StepControl(cfg: Config, k: Control, a: Answer): Control {
    match k.pc
    case Opening => if a.OpenFailed? then k.(pc := Closing(Threw(a.e.isAmbiguous))) else Control(InBody, 1, 0)
    case InBody =>
      (match a
       case BodyReturned(active, _) => if active then k.(pc := InCommit, tries := 1) else k.(pc := Closing(Returned))
       case BodyThrew(e, active) =>
         if active then k.(pc := AbortingBody(e)) else AfterFailure(cfg, k, e, Retryable(e))
       case _ => k)
    case AbortingBody(e) => AfterFailure(cfg, k, e, a.Aborted? && a.ok && Retryable(e))
    case InCommit => OnCommit(cfg, k, a)
    case AbortingCommit(e) => AfterFailure(cfg, k, e, a.Aborted? && a.ok && e.transient)
    case Closing(o) => k.(pc := Closed(o))
    case Closed(_) => k
  }

  // The counters touched by a move from k to k'.
  function StepBooks(b: Books, k: Control, k': Control): Books {
    match k'.pc
    case InBody =>
      if k.pc.Opening? then b.(bodyLoops := b.bodyLoops + 1, counters := b.counters.Bump(Metrics.Attempts))
      else b.(counters := b.counters.Bump(Metrics.BodyRetries).Bump(Metrics.Attempts))
    case InCommit =>
      if k.pc.InBody? then b.(commitLoops := b.commitLoops + 1, counters := b.counters.Bump(Metrics.CommitAttempts))
      else b.(counters := b.counters.Bump(Metrics.CommitRetries).Bump(Metrics.CommitAttempts))
    case Closing(o) =>
      (match o
       case Returned => b.(counters := b.counters.Succeed(k.body))
       case Threw(ambiguous) =>
          b.(counters := b.counters.Bump(if ambiguous then Metrics.Ambiguous else Metrics.Failures)))
    case _ => b
  }

  function Logged(log: seq<Event>, k: Control, a: Answer): seq<Event> {
    match a
    case CommitThrew(e, _, _) => log + [CommitFailed(k.body, e)]
    case CommitReturned => log + [CommitDone(k.body)]
    case _ => log
  }

  function StepWorld(w: World, k: Control, k': Control, a: Answer): World {
    var log := Logged(w.log, k, a);
    World(
      if a.CommitReturned? || (a.CommitThrew? && a.applied) || (a.BodyReturned? && !a.active && a.persisted)
      then w.durable + {k.body} else w.durable,
      w.early || (a.BodyReturned? && !a.active),
      w.persisted || (a.BodyReturned? && !a.active && a.persisted),
      if k'.pc.InBody? then log + [BodyStarted(k'.body)] else log)
  }

  function Step(c: Call, a: Answer): Call {
    var k' := StepControl(c.cfg, c.ctl, a);
    Call(c.cfg, k', StepBooks(c.books, c.ctl, k'), StepWorld(c.world, c.ctl, k', a))
  }

  // ---- what the driver may answer ----

  predicate Legal(c: Call, a: Answer) {
    match c.ctl.pc
    case Opening => a.Opened? || a.OpenFailed?
    case InBody => a.BodyReturned? || a.BodyThrew?
    case AbortingBody(_) => a.Aborted?
    case InCommit =>
      || a.CommitReturned?
      || (a.CommitThrew? && (a.e.transient && !a.e.unknown ==> !a.applied && c.ctl.body !in c.world.durable))
    case AbortingCommit(_) => a.Aborted?
    // A session that could not be opened is not ended either.
    case Closing(_) => a.SessionEnded? && (c.ctl.body == 0 ==> a.ok)
    case Closed(_) => false
  }

  function Run(c: Call, answers: seq<Answer>): Call {
    if answers == [] then c else Step(Run(c, answers[..|answers| - 1]), answers[|answers| - 1])
  }

  ghost predicate LegalRun(c: Call, answers: seq<Answer>) {
    answers == [] ||
    var rest := answers[..|answers| - 1];
    LegalRun(c, rest) && Legal(Run(c, rest), answers[|answers| - 1])
  }

  // A run told by its intermediate calls: past[i] is the call before answers[i].
  ghost predicate Links(past: seq<Call>, answers: seq<Answer>, now: Call, i: nat)
    requires i < |past| == |answers|
  {
    Legal(past[i], answers[i]) && (if i + 1 < |past| then past[i + 1] else now) == Step(past[i], answers[i])
  }

  ghost predicate History(cfg: Config, base: Metrics.Counters, past: seq<Call>, answers: seq<Answer>, now: Call) {
    && |past| == |answers|
    && (if past == [] then now else past[0]) == Start(cfg, base)
    && forall i: nat :: i < |past| ==> Links(past, answers, now, i)
  }

  lemma {:induction false} HistoryIsRun(cfg: Config, base: Metrics.Counters, past: seq<Call>,
                                        answers: seq<Answer>, now: Call)
    requires History(cfg, base, past, answers, now)
    ensures LegalRun(Start(cfg, base), answers) && now == Run(Start(cfg, base), answers)
  {
    if past != [] {
      var n := |past| - 1;
      assert Links(past, answers, now, n);
      forall i: nat | i < n ensures Links(past[..n], answers[..n], past[n], i) {
        assert Links(past, answers, now, i);
      }
      HistoryIsRun(cfg, base, past[..n], answers[..n], past[n]);
    }
  }

  lemma HistoryGrows(cfg: Config, base: Metrics.Counters, past: seq<Call>, answers: seq<Answer>, now: Call, a: Answer)
    requires History(cfg, base, past, answers, now) && Legal(now, a)
    ensures History(cfg, base, past + [now], answers + [a], Step(now, a))
  {
    forall i: nat | i < |past| + 1 ensures Links(past + [now], answers + [a], Step(now, a), i) {
      assert i < |past| ==> Links(past, answers, now, i);
    }
  }

  // ---- the history of commits ----

  // An unknown commit result that no later commit error has settled as "did not commit".
  predicate Pending(log: seq<Event>) {
    if log == [] then false
    else
      var rest := log[..|log| - 1];
      match log[|log| - 1]
      case CommitFailed(_, e) => e.unknown || (!e.transient && Pending(rest))
      case _ => Pending(rest)
  }

  predicate UnknownAt(log: seq<Event>, i: nat) {
    i < |log| && log[i].CommitFailed? && log[i].e.unknown
  }

  predicate SettledAt(log: seq<Event>, i: nat) {
    i < |log| && log[i].CommitFailed? && !log[i].e.unknown && log[i].e.transient
  }

  // Between an unknown commit result and a later body run lies a transient, not unknown commit error.
  ghost predicate RerunsJustified(log: seq<Event>) {
    forall i: nat, j: nat :: i < j < |log| && UnknownAt(log, i) && log[j].BodyStarted? ==>
      exists k: nat :: i < k < j && SettledAt(log, k)
  }

  lemma {:induction false} PendingMeansUnsettled(log: seq<Event>)
    ensures Pending(log) <==> exists i: nat :: UnknownAt(log, i) && forall k: nat :: i < k ==> !SettledAt(log, k)
  {
    if log != [] {
      var n := |log| - 1;
      var rest := log[..n];
      PendingMeansUnsettled(rest);
      assert forall i: nat :: i < n ==>
               (UnknownAt(rest, i) <==> UnknownAt(log, i)) && (SettledAt(rest, i) <==> SettledAt(log, i));
      if Pending(log) {
        if UnknownAt(log, n) {
          assert forall k: nat :: n < k ==> !SettledAt(log, k);
        } else {
          var i: nat :| UnknownAt(rest, i) && forall k: nat :: i < k ==> !SettledAt(rest, k);
          forall k: nat | i < k ensures !SettledAt(log, k) {
            assert k < n ==> !SettledAt(rest, k);
          }
        }
      } else {
        forall i: nat | UnknownAt(log, i) ensures exists k: nat :: i < k && SettledAt(log, k) {
          if !SettledAt(log, n) {
            var k: nat :| i < k && SettledAt(rest, k);
            assert SettledAt(log, k);
          }
        }
      }
    }
  }

  lemma AppendKeepsJustified(log: seq<Event>, e: Event)
    requires RerunsJustified(log) && (e.BodyStarted? ==> !Pending(log))
    ensures RerunsJustified(log + [e])
  {
    var after := log + [e];
    PendingMeansUnsettled(log);
    forall i: nat, j: nat | i < j < |after| && UnknownAt(after, i) && after[j].BodyStarted?
      ensures exists k: nat :: i < k < j && SettledAt(after, k)
    {
      assert UnknownAt(log, i);
      if j == |log| {
        var k: nat :| i < k && SettledAt(log, k);
        assert SettledAt(after, k);
      } else {
        var k: nat :| i < k < j && SettledAt(log, k);
        assert SettledAt(after, k);
      }
    }
  }

  lemma PendingAppend(log: seq<Event>, e: Event)
    ensures Pending(log + [e]) <==>
              match e case CommitFailed(_, f) => f.unknown || (!f.transient && Pending(log)) case _ => Pending(log)
  {
    assert (log + [e])[..|log|] == log;
  }

  // ---- the invariants of a call ----

  // The last event is a commit error that carries neither label.
  predicate EndsUnlabelled(log: seq<Event>) {
    log != [] && log[|log| - 1].CommitFailed? && !log[|log| - 1].e.unknown && !log[|log| - 1].e.transient
  }

  ghost predicate Bounds(cfg: Config, k: Control) {
    && Usable(cfg) && k.body <= cfg.maxBody && k.tries <= cfg.maxCommit
    && (k.pc.Opening? ==> k.body == 0)
    && (!k.pc.Opening? && !k.pc.Over() ==> k.body > 0)
    && (k.pc.InBody? || k.pc.AbortingBody? || k.pc.Opening? ==> k.tries == 0)
    && (k.pc.InCommit? ==> k.tries > 0)
  }

  // Commit tries are bounded by the loops entered before, plus the tries of the current one.
  function Times(n: nat, m: nat): nat {
    if n == 0 then 0 else m + Times(n - 1, m)
  }

  ghost predicate Budget(cfg: Config, k: Control, b: Books) {
    && (k.body == 0 ==> b.counters.commits.attempts == b.base.commits.attempts)
    && (k.body > 0 ==>
          b.counters.commits.attempts <= b.base.commits.attempts + Times(k.body - 1, cfg.maxCommit) + k.tries)
  }

  ghost predicate TriesAccounted(k: Control, b: Books) {
    var n, o := b.counters, b.base;
    && n.bodies.attempts == o.bodies.attempts + k.body
    && b.bodyLoops == (if k.body > 0 then 1 else 0)
    && n.bodies.retries + b.bodyLoops == o.bodies.retries + k.body
    && n.commits.attempts + o.commits.retries == o.commits.attempts + n.commits.retries + b.commitLoops
  }

  ghost predicate EndsAccounted(k: Control, b: Books) {
    var n, o := b.counters, b.base;
    && n.doubts.rejected == o.doubts.rejected
    && n.ends.successes == o.ends.successes + (if k.pc.Over() && k.pc.outcome.Returned? then 1 else 0)
    && n.doubts.ambiguous == o.doubts.ambiguous + (if k.pc.Over() && k.pc.outcome == Threw(true) then 1 else 0)
    && n.ends.failures == o.ends.failures + (if k.pc.Over() && k.pc.outcome == Threw(false) then 1 else 0)
  }

  ghost predicate Accounted(k: Control, b: Books) { TriesAccounted(k, b) && EndsAccounted(k, b) }

  ghost predicate Durability(k: Control, w: World) {
    && w.durable <= {k.body}
    && (k.pc.Opening? || k.pc.InBody? || k.pc.AbortingBody? ==> w.durable == {} && !Pending(w.log))
    && (!k.pc.Over() ==> !w.early && !w.persisted)
    && (k.pc.InCommit? ==> w.durable != {} ==> Pending(w.log))
    && (k.pc.AbortingCommit? ==>
          && !k.pc.e.unknown
          && (k.pc.e.transient ==> w.durable == {} && !Pending(w.log))
          && (!k.pc.e.transient ==> EndsUnlabelled(w.log)))
    && (k.pc.Over() && k.pc.outcome.Returned? ==> w.durable == if w.early && !w.persisted then {} else {k.body})
    && (k.pc.Over() && k.pc.outcome.Threw? ==>
          !w.early && (w.durable != {} ==> Pending(w.log) || EndsUnlabelled(w.log)))
  }

  ghost predicate Inv(c: Call) {
    && Bounds(c.cfg, c.ctl) && Budget(c.cfg, c.ctl, c.books) && Accounted(c.ctl, c.books)
    && Durability(c.ctl, c.world) && RerunsJustified(c.world.log)
  }

  lemma ControlKeepsBounds(c: Call, a: Answer)
    requires Bounds(c.cfg, c.ctl) && Legal(c, a)
    ensures Bounds(c.cfg, StepControl(c.cfg, c.ctl, a))
  {
  }

  lemma BooksKeepBudget(c: Call, a: Answer)
    requires Bounds(c.cfg, c.ctl) && Budget(c.cfg, c.ctl, c.books) && Legal(c, a)
    ensures Budget(c.cfg, Step(c, a).ctl, Step(c, a).books)
  {
  }

  lemma TriesStayAccounted(c: Call, a: Answer)
    requires Bounds(c.cfg, c.ctl) && TriesAccounted(c.ctl, c.books) && Legal(c, a)
    ensures TriesAccounted(Step(c, a).ctl, Step(c, a).books)
  {
  }

  lemma EndsStayAccounted(c: Call, a: Answer)
    requires Bounds(c.cfg, c.ctl) && EndsAccounted(c.ctl, c.books) && Legal(c, a)
    ensures EndsAccounted(Step(c, a).ctl, Step(c, a).books)
  {
  }

  lemma WorldKeepsDurability(c: Call, a: Answer)
    requires Bounds(c.cfg, c.ctl) && Durability(c.ctl, c.world) && Legal(c, a)
    ensures Durability(Step(c, a).ctl, Step(c, a).world)
  {
    var k := c.ctl;
    if a.CommitThrew? {
      PendingAppend(c.world.log, CommitFailed(k.body, a.e));
    } else if a.CommitReturned? {
      PendingAppend(c.world.log, CommitDone(k.body));
    }
    PendingAppend(Logged(c.world.log, k, a), BodyStarted(StepControl(c.cfg, k, a).body));
  }

  lemma WorldKeepsJustified(c: Call, a: Answer)
    requires Durability(c.ctl, c.world) && RerunsJustified(c.world.log) && Legal(c, a)
    ensures RerunsJustified(Step(c, a).world.log)
  {
    var k := c.ctl;
    var log := Logged(c.world.log, k, a);
    if a.CommitThrew? {
      PendingAppend(c.world.log, CommitFailed(k.body, a.e));
      AppendKeepsJustified(c.world.log, CommitFailed(k.body, a.e));
    } else if a.CommitReturned? {
      AppendKeepsJustified(c.world.log, CommitDone(k.body));
    }
    if !Pending(log) {
      AppendKeepsJustified(log, BodyStarted(StepControl(c.cfg, k, a).body));
    }
  }

  lemma StepKeepsInv(c: Call, a: Answer)
    requires Inv(c) && Legal(c, a)
    ensures Inv(Step(c, a))
  {
    ControlKeepsBounds(c, a);
    BooksKeepBudget(c, a);
    TriesStayAccounted(c, a);
    EndsStayAccounted(c, a);
    WorldKeepsDurability(c, a);
    WorldKeepsJustified(c, a);
  }

  lemma StartInv(cfg: Config, base: Metrics.Counters)
    requires Usable(cfg)
    ensures Inv(Start(cfg, base))
  {
  }

  lemma {:induction false} RunInv(cfg: Config, base: Metrics.Counters, answers: seq<Answer>)
    requires Usable(cfg) && LegalRun(Start(cfg, base), answers)
    ensures var c := Run(Start(cfg, base), answers); Inv(c) && c.cfg == cfg && c.books.base == base
  {
    if answers != [] {
      var rest := answers[..|answers| - 1];
      RunInv(cfg, base, rest);
      StepKeepsInv(Run(Start(cfg, base), rest), answers[|answers| - 1]);
    }
  }

  // ---- main results, for every configuration and every sequence of driver answers ----

  // At most one body attempt is ever durable; a normal return through the commit loop means
  // exactly the last attempt is; a throw leaves nothing durable unless a commit result is in doubt.
  ghost predicate ExactlyOnce(c: Call) {
    && |c.world.durable| <= 1
    && (c.ctl.pc.Over() && c.ctl.pc.outcome.Returned? && !c.world.early ==> c.world.durable == {c.ctl.body})
    && (c.ctl.pc.Over() && c.ctl.pc.outcome.Threw? && !Pending(c.world.log) && !EndsUnlabelled(c.world.log)
        ==> c.world.durable == {})
    && (c.ctl.pc.InBody? ==> c.world.durable == {})
  }

  lemma InvGivesExactlyOnce(c: Call)
    requires Inv(c)
    ensures ExactlyOnce(c)
  {
    assert c.world.durable == {} || c.world.durable == {c.ctl.body};
  }

  lemma CommitsExactlyOnce(cfg: Config, base: Metrics.Counters, answers: seq<Answer>)
    requires Usable(cfg) && LegalRun(Start(cfg, base), answers)
    ensures ExactlyOnce(Run(Start(cfg, base), answers))
  {
    RunInv(cfg, base, answers);
    InvGivesExactlyOnce(Run(Start(cfg, base), answers));
  }

  // A body runs again after an unknown commit result only once that result has been settled.
  lemma RerunOnlyAfterSettledCommit(cfg: Config, base: Metrics.Counters, answers: seq<Answer>, i: nat, j: nat)
    requires Usable(cfg) && LegalRun(Start(cfg, base), answers)
    requires var log := Run(Start(cfg, base), answers).world.log;
             i < j < |log| && UnknownAt(log, i) && log[j].BodyStarted?
    ensures exists k: nat :: i < k < j && SettledAt(Run(Start(cfg, base), answers).world.log, k)
  {
    RunInv(cfg, base, answers);
  }

  // When the callback ended the transaction itself, the call reports success either way.
  lemma EarlyReturnReportsSuccess(cfg: Config, base: Metrics.Counters, answers: seq<Answer>)
    requires Usable(cfg) && LegalRun(Start(cfg, base), answers)
    ensures var c := Run(Start(cfg, base), answers);
            c.world.early ==>
              c.ctl.pc.Over() && c.ctl.pc.outcome.Returned? && (c.world.durable == {c.ctl.body} <==> c.world.persisted)
  {
    RunInv(cfg, base, answers);
  }

  // So a normal return does not by itself mean durable writes: the active-transaction guard decides.
  lemma EarlyReturnCanLoseWrites(cfg: Config, base: Metrics.Counters)
    requires Usable(cfg)
    ensures var answers := [Opened, BodyReturned(false, false), SessionEnded(true)];
            var c := Run(Start(cfg, base), answers);
            LegalRun(Start(cfg, base), answers) && c.ctl.pc == Closed(Returned) && c.world.durable == {}
  {
    var answers := [Opened, BodyReturned(false, false), SessionEnded(true)];
    var s := Start(cfg, base);
    var two := answers[..2];
    assert two == [Opened, BodyReturned(false, false)] && two[..1] == [Opened] && [Opened][..0] == [];
    assert LegalRun(s, []) && Run(s, []) == s;
    assert LegalRun(s, [Opened]) && Run(s, [Opened]) == Step(s, Opened);
    assert LegalRun(s, two) && Run(s, two) == Step(Step(s, Opened), BodyReturned(false, false));
  }

  // Body runs stay within their limit, and commit calls within the product of both limits.
  ghost predicate WithinLimits(c: Call) {
    && c.books.counters.bodies.attempts - c.books.base.bodies.attempts <= c.cfg.maxBody
    && c.books.counters.commits.attempts - c.books.base.commits.attempts <= c.cfg.maxBody * c.cfg.maxCommit
  }

  lemma InvGivesLimits(c: Call)
    requires Inv(c)
    ensures WithinLimits(c)
  {
    if c.ctl.body > 0 {
      TimesIsProduct(c.ctl.body - 1, c.cfg.maxCommit);
      BudgetsMultiply(c.ctl.body - 1, c.cfg.maxBody - 1, c.cfg.maxCommit);
    }
  }

  lemma AttemptsAreBounded(cfg: Config, base: Metrics.Counters, answers: seq<Answer>)
    requires Usable(cfg) && LegalRun(Start(cfg, base), answers)
    ensures WithinLimits(Run(Start(cfg, base), answers))
  {
    RunInv(cfg, base, answers);
    InvGivesLimits(Run(Start(cfg, base), answers));
  }

  lemma {:induction false} TimesIsProduct(n: nat, m: nat)
    ensures Times(n, m) == n * m
  {
    if n > 0 {
      TimesIsProduct(n - 1, m);
      assert n * m == (n - 1) * m + m;
    }
  }

  lemma BudgetsMultiply(a: nat, b: nat, k: nat)
    requires a <= b
    ensures a * k + k <= (b + 1) * k
  {
    assert (b + 1) * k == a * k + (b - a) * k + k;
  }

  // All of it, for a run told by its history.
  lemma HistoryGuarantees(cfg: Config, base: Metrics.Counters, past: seq<Call>, answers: seq<Answer>, now: Call)
    requires Usable(cfg) && History(cfg, base, past, answers, now)
    ensures now.cfg == cfg && now.books.base == base && ExactlyOnce(now) && WithinLimits(now)
            && RerunsJustified(now.world.log)
  {
    HistoryIsRun(cfg, base, past, answers, now);
    RunInv(cfg, base, answers);
    InvGivesExactlyOnce(now);
    InvGivesLimits(now);
  }

  // ---- the ambiguous outcome ----

  predicate EndsUnknown(log: seq<Event>) {
    log != [] && log[|log| - 1].CommitFailed? && log[|log| - 1].e.unknown
  }

  // No callback, session or commit throws an AmbiguousTransactionCommitError of its own.
  predicate Native(a: Answer) {
    match a
    case OpenFailed(e) => !e.isAmbiguous
    case BodyThrew(e, _) => !e.isAmbiguous
    case CommitThrew(e, _, _) => !e.isAmbiguous
    case _ => true
  }

  ghost predicate Reported(c: Call) {
    match c.ctl.pc
    case AbortingBody(e) => !e.isAmbiguous && !EndsUnknown(c.world.log)
    case AbortingCommit(e) => !e.isAmbiguous && !EndsUnknown(c.world.log)
    case Closing(o) => o == Threw(true) <==> EndsUnknown(c.world.log)
    case Closed(o) => o == Threw(true) <==> EndsUnknown(c.world.log)
    case InCommit => true
    case _ => !EndsUnknown(c.world.log)
  }

  // A call reports an ambiguous commit exactly when its last commit result was unknown.
  lemma {:induction false} AmbiguousExactlyWhenUnknown(cfg: Config, base: Metrics.Counters, answers: seq<Answer>)
    requires LegalRun(Start(cfg, base), answers) && forall a :: a in answers ==> Native(a)
    ensures Reported(Run(Start(cfg, base), answers))
  {
    if answers != [] {
      var rest := answers[..|answers| - 1];
      AmbiguousExactlyWhenUnknown(cfg, base, rest);
      assert Native(answers[|answers| - 1]);
      StepReported(Run(Start(cfg, base), rest), answers[|answers| - 1]);
    }
  }

  lemma StepReported(c: Call, a: Answer)
    requires Reported(c) && Legal(c, a) && Native(a)
    ensures Reported(Step(c, a))
  {
  }

  // ---- every call ends, whatever the driver answers ----

  // What remains of the current body loop, always less than one whole loop.
  function Within(cfg: Config, k: Control): (w: nat)
    requires k.tries <= cfg.maxCommit
    ensures w < 2 * cfg.maxCommit + 6
  {
    match k.pc
    case Closed(_) => 0
    case Closing(_) => 1
    case Opening => 2
    case InBody => 2 * cfg.maxCommit + 5
    case AbortingBody(_) => 2
    case InCommit => 2 * (cfg.maxCommit - k.tries) + 4
    case AbortingCommit(_) => 3
  }

  function BodiesLeft(cfg: Config, k: Control): nat
    requires k.body <= cfg.maxBody
  {
    if k.pc.Over() then 0 else cfg.maxBody - k.body
  }

  lemma StepLowersRank(c: Call, a: Answer)
    requires Bounds(c.cfg, c.ctl) && Legal(c, a)
    ensures var k, k' := c.ctl, StepControl(c.cfg, c.ctl, a);
            && Bounds(c.cfg, k')
            && (|| BodiesLeft(c.cfg, k') < BodiesLeft(c.cfg, k)
                || (BodiesLeft(c.cfg, k') == BodiesLeft(c.cfg, k) && Within(c.cfg, k') < Within(c.cfg, k)))
  {
  }

  lemma LexicographicToSum(left: nat, within: nat, left': nat, within': nat, k: nat)
    requires within' < k && (left' < left || (left' == left && within' < within))
    ensures left' * k + within' < left * k + within
  {
    if left' < left {
      BudgetsMultiply(left', left - 1, k);
    }
  }

  // The steps a call may still take.
  function Rank(cfg: Config, k: Control): nat
    requires Bounds(cfg, k)
  {
    BodiesLeft(cfg, k) * (2 * cfg.maxCommit + 6) + Within(cfg, k)
  }

  lemma StepLowersSum(c: Call, a: Answer)
    requires Bounds(c.cfg, c.ctl) && Legal(c, a)
    ensures Bounds(c.cfg, Step(c, a).ctl) && Rank(c.cfg, Step(c, a).ctl) < Rank(c.cfg, c.ctl)
  {
    var k, k' := c.ctl, StepControl(c.cfg, c.ctl, a);
    StepLowersRank(c, a);
    LexicographicToSum(BodiesLeft(c.cfg, k), Within(c.cfg, k), BodiesLeft(c.cfg, k'), Within(c.cfg, k'),
                       2 * c.cfg.maxCommit + 6);
  }

  lemma {:induction false} CallEnds(cfg: Config, base: Metrics.Counters, answers: seq<Answer>)
    requires Usable(cfg) && LegalRun(Start(cfg, base), answers)
    ensures Bounds(cfg, Run(Start(cfg, base), answers).ctl)
    ensures |answers| + Rank(cfg, Run(Start(cfg, base), answers).ctl) <= Rank(cfg, Start(cfg, base).ctl)
  {
    if answers != [] {
      var rest := answers[..|answers| - 1];
      CallEnds(cfg, base, rest);
      RunInv(cfg, base, rest);
      StepLowersSum(Run(Start(cfg, base), rest), answers[|answers| - 1]);
    }
  }
}
