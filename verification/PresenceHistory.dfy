/**
 * What the answers to the calls of a presence update make of it: which answers let an opening go
 * on, what is active after them, and what each of them does to the stored presence.
 */
module PresenceHistory {
  import opened Prelude
  import opened SocketPresence

  // An awaited call's answer, and whether the socket was still connected when it came.
  datatype Answer = Answer(effective: bool, threw: bool, connected: bool)

  // The update taken from the queue last: what was active then, whether the socket was connected,
  // and the answers it has got since.
  datatype Running = Running(update: Update, before: Option<Conversation>, connected: bool, answers: seq<Answer>)

  function Noted(s: State, a: Action, r: Option<Running>): Option<Running>
    requires Legal(s, a)
  {
    match a
    case Begin => Some(Running(s.queue[0], s.active, s.connected, []))
    case Resume(effective, threw) =>
      if r.None? then None
      else Some(r.value.(answers := r.value.answers + [Answer(effective, threw, s.connected)]))
    case _ => r
  }

  function Latest(s: State, actions: seq<Action>, r: Option<Running>): Option<Running>
    requires LegalRun(s, actions)
    decreases |actions|
  {
    if actions == [] then r else Latest(Apply(s, actions[0]), actions[1..], Noted(s, actions[0], r))
  }

  // ---- what an update comes to ----

  predicate Starts(r: Running) {
    match r.update
    case Open(_, valid) => valid && r.connected
    case Close(only) => r.before.Some? && (only.None? || only == r.before)
  }

  predicate Switches(r: Running) { r.update.Open? && r.before.Some? && r.before != Some(r.update.c) }

  // The checks of an opening: access, the session, and once more the session if it switches, after
  // the presence of the conversation before was cleared.
  function Checks(r: Running): nat { if Switches(r) then 4 else 2 }

  // The calls of an update that gets through.
  function Calls(r: Running): nat { if !Starts(r) then 0 else if r.update.Open? then Checks(r) + 1 else 1 }

  // Answer i lets an opening go on; what a clear or the final store answers does not matter.
  predicate Passed(r: Running, i: nat)
    requires i < |r.answers|
  {
    var a := r.answers[i];
    if i == 0 then a.effective && !a.threw
    else if i % 2 == 1 then a.effective && !a.threw && a.connected
    else true
  }

  predicate Refused(r: Running) {
    r.update.Open? && r.answers != [] && !Passed(r, |r.answers| - 1)
  }

  // An opening whose checks have all been passed.
  predicate Admitted(r: Running) {
    r.update.Open? && Starts(r) && |r.answers| >= Checks(r) && Passed(r, Checks(r) - 1)
  }

  ghost predicate AsAnswered(s: State, r: Running) {
    var n := |r.answers|;
    && n <= Calls(r)
    && (r.update.Open? ==> forall i :: 0 <= i < n - 1 ==> Passed(r, i))
    && (s.stage.Idle? <==> n == Calls(r) || Refused(r))
    && s.active == (if Admitted(r) then Some(r.update.c)
                    else if r.update.Close? && n == 1 then None
                    else r.before)
    && (Refused(r) && (n == 1 || r.answers[n - 1].threw) ==> !s.connected)
  }

  // Where an update is suspended after its answers.
  function Suspended(r: Running): Stage {
    match r.update
    case Close(_) => if Starts(r) && r.answers == [] then ClearActive(r.before.value) else Idle
    case Open(c, _) =>
      var n := |r.answers|;
      if n >= Calls(r) || Refused(r) then Idle
      else if n == 0 then CheckAccess(c)
      else if n == 1 then CheckSession(c)
      else if n == Checks(r) then Mark(c)
      else if n == 2 && r.before.Some? then ClearPrevious(c, r.before.value)
      else CheckSessionAgain(c)
  }

  ghost predicate Follows(s: State, r: Option<Running>) {
    match r
    case None => s.stage.Idle? && s.active.None?
    case Some(r) => AsAnswered(s, r) && s.stage == Suspended(r)
  }

  lemma BeginFollows(s: State)
    requires Legal(s, Begin)
    ensures Follows(Apply(s, Begin), Noted(s, Begin, None))
  {
  }

  lemma ResumeFollows(s: State, r: Running, effective: bool, threw: bool)
    requires Follows(s, Some(r)) && Legal(s, Resume(effective, threw))
    ensures Follows(Apply(s, Resume(effective, threw)), Noted(s, Resume(effective, threw), Some(r)))
  {
    var a := Answer(effective, threw, s.connected);
    var next := r.(answers := r.answers + [a]);
    assert forall i :: 0 <= i < |r.answers| ==> Passed(next, i) == Passed(r, i);
  }

  lemma {:induction false} RunFollows(s: State, actions: seq<Action>, r: Option<Running>)
    requires LegalRun(s, actions) && Follows(s, r)
    ensures Follows(Run(s, actions), Latest(s, actions, r))
    decreases |actions|
  {
    if actions != [] {
      var a := actions[0];
      match a {
        case Begin => BeginFollows(s);
        case Resume(effective, threw) => ResumeFollows(s, r.value, effective, threw);
        case _ =>
      }
      RunFollows(Apply(s, a), actions[1..], Noted(s, a, r));
    }
  }

  /**
   * In every run of a new socket, an opening goes on exactly as far as its answers pass: a refused or
   * failed access check disconnects, an invalid session ends it, and its conversation becomes
   * active exactly when all checks have been passed.
   */
  lemma UpdatesAreAsAnswered(actions: seq<Action>)
    requires LegalRun(FRESH, actions) && Latest(FRESH, actions, None).Some?
    ensures AsAnswered(Run(FRESH, actions), Latest(FRESH, actions, None).value)
  {
    RunFollows(FRESH, actions, None);
  }

  // What is stored after an answer: the last call of an opening stores its conversation, the call
  // of a close and the third one of an opening that switches clear the conversation before.
  function StoredAfter(stored: set<Conversation>, r: Running, effective: bool): set<Conversation> {
    var n := |r.answers|;
    if !effective then stored
    else if r.update.Open? && n == Checks(r) then stored + {r.update.c}
    else if r.before.Some? && (r.update.Close? || n == 2) then stored - {r.before.value}
    else stored
  }

  /** Nothing but these calls and expiry changes what is stored. */
  lemma StoredIsAsAnswered(actions: seq<Action>, a: Action)
    requires LegalRun(FRESH, actions) && Legal(Run(FRESH, actions), a)
    ensures var s, r := Run(FRESH, actions), Latest(FRESH, actions, None);
            match a
            case Resume(effective, _) =>
              r.Some? && Apply(s, a).stored == StoredAfter(s.stored, r.value, effective)
            case Expire(c) => Apply(s, a).stored == s.stored - {c}
            case _ => Apply(s, a).stored == s.stored
  {
    RunFollows(FRESH, actions, None);
  }
}
