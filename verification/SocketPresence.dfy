/**
 * Conversation presence of one socket: updates wait in a queue and run one at a time, each suspended
 * at every call it awaits, while the socket may receive requests, lose its connection, or have
 * stored entries expire. Every action is one such step.
 */
module SocketPresence {
  import opened Prelude

  type Conversation = nat

  datatype Update = Open(c: Conversation, valid: bool) | Close(only: Option<Conversation>)

  // Where the running update is suspended.
  datatype Stage =
    | Idle
    | CheckAccess(c: Conversation)
    | CheckSession(c: Conversation)
    | ClearPrevious(c: Conversation, previous: Conversation)
    | CheckSessionAgain(c: Conversation)
    | Mark(c: Conversation)
    | ClearActive(c: Conversation)

  // leaked holds the conversations whose presence a clear without effect left stored.
  datatype State = State(connected: bool, active: Option<Conversation>, stored: set<Conversation>, queue: seq<Update>,
                         stage: Stage, leaked: set<Conversation>)

  const FRESH := State(true, None, {}, [], Idle, {})

  // How an awaited call ended: whether it took effect or passed, and whether it threw.
  datatype Action =
    | Request(update: Update)
    | Disconnect
    | Expire(c: Conversation)
    | Begin
    | Resume(effective: bool, threw: bool)

  predicate Legal(s: State, a: Action) {
    match a
    case Begin => s.stage.Idle? && s.queue != []
    case Resume(_, _) => !s.stage.Idle?
    case _ => true
  }

  // The disconnect hook runs once.
  function Disconnected(s: State): State {
    if s.connected then s.(connected := false, queue := s.queue + [Close(None)]) else s
  }

  // The start of an update, up to the first call it awaits.
  function Started(s: State, u: Update): State {
    match u
    case Open(c, valid) => if !s.connected || !valid then s else s.(stage := CheckAccess(c))
    case Close(only) =>
      if s.active.None? || (only.Some? && only != s.active) then s else s.(stage := ClearActive(s.active.value))
  }

  function Cleared(s: State, c: Conversation, effective: bool): State {
    if effective then s.(stored := s.stored - {c}, leaked := s.leaked - {c})
    else s.(leaked := s.leaked + ({c} * s.stored))
  }

  // An update that threw disconnects the socket; one that returned leaves it.
  function Ended(s: State, threw: bool): State {
    if threw then Disconnected(s.(stage := Idle)) else s.(stage := Idle)
  }

  function Resumed(s: State, effective: bool, threw: bool): State
    requires !s.stage.Idle?
  {
    match s.stage
    case CheckAccess(c) => if threw || !effective then Ended(s, true) else s.(stage := CheckSession(c))
    case CheckSession(c) =>
      if threw then Ended(s, true)
      else if !effective || !s.connected then Ended(s, false)
      else if s.active.Some? && s.active != Some(c) then s.(stage := ClearPrevious(c, s.active.value))
      else s.(active := Some(c), stage := Mark(c))
    case ClearPrevious(c, previous) => Cleared(s, previous, effective).(stage := CheckSessionAgain(c))
    case CheckSessionAgain(c) =>
      if threw then Ended(s, true)
      else if !effective || !s.connected then Ended(s, false)
      else s.(active := Some(c), stage := Mark(c))
    case Mark(c) => Ended(if effective then s.(stored := s.stored + {c}) else s, false)
    case ClearActive(c) => Ended(Cleared(s, c, effective).(active := None), false)
  }

  function Apply(s: State, a: Action): State
    requires Legal(s, a)
  {
    match a
    case Request(u) => s.(queue := s.queue + [u])
    case Disconnect => Disconnected(s)
    case Expire(c) => s.(stored := s.stored - {c}, leaked := s.leaked - {c})
    case Begin => Started(s.(queue := s.queue[1..]), s.queue[0])
    case Resume(effective, threw) => Resumed(s, effective, threw)
  }

  predicate LegalRun(s: State, actions: seq<Action>)
    decreases |actions|
  {
    actions == [] || (Legal(s, actions[0]) && LegalRun(Apply(s, actions[0]), actions[1..]))
  }

  function Run(s: State, actions: seq<Action>): State
    requires LegalRun(s, actions)
    decreases |actions|
  {
    if actions == [] then s else Run(Apply(s, actions[0]), actions[1..])
  }

  // ---- the invariant ----

  predicate StageFits(s: State) {
    match s.stage
    case ClearPrevious(_, previous) => s.active == Some(previous)
    case CheckSessionAgain(_) => s.stored <= s.leaked
    case Mark(c) => s.active == Some(c)
    case ClearActive(c) => s.active == Some(c)
    case _ => true
  }

  function ActiveSet(s: State): set<Conversation> { if s.active.Some? then {s.active.value} else {} }

  // What is stored is the active conversation, or something that a failed clear left behind; and a
  // lost connection leaves a close to be run until nothing is active.
  ghost predicate Inv(s: State) {
    && StageFits(s) && s.leaked <= s.stored <= ActiveSet(s) + s.leaked
    && (!s.connected ==> Close(None) in s.queue || s.stage.ClearActive? || (s.active.None? && s.stage.Idle?))
  }

  lemma CloseStays(q: seq<Update>, u: Update)
    ensures Close(None) in q ==> Close(None) in q + [u]
    ensures q != [] && Close(None) in q && q[0] != Close(None) ==> Close(None) in q[1..]
  {
  }

  lemma DisconnectKeepsInv(s: State)
    requires Inv(s)
    ensures Inv(Disconnected(s))
  {
    CloseStays(s.queue, Close(None));
  }

  lemma StartKeepsInv(s: State)
    requires Inv(s) && s.stage.Idle? && s.queue != []
    ensures Inv(Started(s.(queue := s.queue[1..]), s.queue[0]))
  {
    CloseStays(s.queue, Close(None));
  }

  lemma EndKeepsInv(s: State, threw: bool)
    requires Inv(s.(stage := Idle))
    ensures Inv(Ended(s, threw))
  {
    if threw {
      DisconnectKeepsInv(s.(stage := Idle));
    }
  }

  // A clear of the active conversation leaves nothing stored but what has leaked.
  lemma ClearedLeavesLeaked(s: State, c: Conversation, effective: bool)
    requires s.leaked <= s.stored <= {c} + s.leaked
    ensures Cleared(s, c, effective).stored == Cleared(s, c, effective).leaked
  {
  }

  lemma ResumeKeepsInv(s: State, effective: bool, threw: bool)
    requires Inv(s) && !s.stage.Idle?
    ensures Inv(Resumed(s, effective, threw))
  {
    match s.stage
    case CheckAccess(_) => EndKeepsInv(s, true);
    case CheckSession(_) =>
      EndKeepsInv(s, true);
      EndKeepsInv(s, false);
    case ClearPrevious(_, previous) => ClearedLeavesLeaked(s, previous, effective);
    case CheckSessionAgain(_) =>
      EndKeepsInv(s, true);
      EndKeepsInv(s, false);
    case Mark(c) => EndKeepsInv(if effective then s.(stored := s.stored + {c}) else s, false);
    case ClearActive(c) =>
      ClearedLeavesLeaked(s, c, effective);
      EndKeepsInv(Cleared(s, c, effective).(active := None), false);
  }

  lemma ApplyKeepsInv(s: State, a: Action)
    requires Inv(s) && Legal(s, a)
    ensures Inv(Apply(s, a))
  {
    match a
    case Request(u) => CloseStays(s.queue, u);
    case Disconnect => DisconnectKeepsInv(s);
    case Begin => StartKeepsInv(s);
    case Resume(effective, threw) => ResumeKeepsInv(s, effective, threw);
    case Expire(_) =>
  }

  lemma {:induction false} RunKeepsInv(s: State, actions: seq<Action>)
    requires Inv(s) && LegalRun(s, actions)
    ensures Inv(Run(s, actions))
    decreases |actions|
  {
    if actions != [] {
      ApplyKeepsInv(s, actions[0]);
      RunKeepsInv(Apply(s, actions[0]), actions[1..]);
    }
  }

  // ---- what every run keeps ----

  // Every clear in a run takes effect.
  ghost predicate ClearsWork(s: State, actions: seq<Action>)
    requires LegalRun(s, actions)
    decreases |actions|
  {
    actions != [] ==>
      && (actions[0].Resume? && (s.stage.ClearPrevious? || s.stage.ClearActive?) ==> actions[0].effective)
      && ClearsWork(Apply(s, actions[0]), actions[1..])
  }

  lemma {:induction false} NothingLeaks(s: State, actions: seq<Action>)
    requires LegalRun(s, actions) && ClearsWork(s, actions) && s.leaked == {}
    ensures Run(s, actions).leaked == {}
    decreases |actions|
  {
    if actions != [] {
      NothingLeaks(Apply(s, actions[0]), actions[1..]);
    }
  }

  /**
   * From a new socket on, in every interleaving, what is stored is at most the active conversation
   * and what failed clears left behind; without failed clears it is at most the active conversation.
   */
  lemma StoredIsActive(actions: seq<Action>)
    requires LegalRun(FRESH, actions)
    ensures var s := Run(FRESH, actions);
            && s.stored <= ActiveSet(s) + s.leaked
            && (ClearsWork(FRESH, actions) ==> s.stored <= ActiveSet(s))
  {
    RunKeepsInv(FRESH, actions);
    if ClearsWork(FRESH, actions) {
      NothingLeaks(FRESH, actions);
    }
  }

  ghost predicate Drained(s: State) { !s.connected && s.stage.Idle? && s.queue == [] }

  /**
   * Once a socket has disconnected and its queue is empty nothing is active, and what is stored is
   * exactly what clears without effect left behind: with working clears, nothing at all.
   */
  lemma DrainedIsEmpty(actions: seq<Action>)
    requires LegalRun(FRESH, actions) && Drained(Run(FRESH, actions))
    ensures var s := Run(FRESH, actions);
            && s.active.None? && s.stored == s.leaked
            && (ClearsWork(FRESH, actions) ==> s.stored == {})
  {
    RunKeepsInv(FRESH, actions);
    if ClearsWork(FRESH, actions) {
      NothingLeaks(FRESH, actions);
    }
  }

  // A socket at rest in a conversation.
  ghost predicate AtRest(s: State, c: Conversation) {
    Inv(s) && s.connected && s.stage.Idle? && s.queue == [] && s.active == Some(c)
  }

  /**
   * A socket at rest that loses its connection drains in one clear, which is not retried: the
   * presence of its conversation is gone exactly when that clear took effect or nothing was stored.
   */
  lemma DisconnectClearsExactlyIfEffective(s: State, c: Conversation, effective: bool, threw: bool)
    requires AtRest(s, c)
    ensures var actions := [Disconnect, Begin, Resume(effective, threw)];
            && LegalRun(s, actions) && Drained(Run(s, actions))
            && (c !in Run(s, actions).stored <==> effective || c !in s.stored)
            && Run(s, actions).stored - {c} == s.stored - {c}
  {
    var last := [Resume(effective, threw)];
    var actions := [Disconnect, Begin, Resume(effective, threw)];
    var s1 := Apply(s, Disconnect);
    assert s1.queue == [Close(None)];
    var s2 := Apply(s1, Begin);
    assert s2.stage == ClearActive(c) && s2.queue == [] && s2.stored == s.stored;
    var s3 := Apply(s2, Resume(effective, threw));
    assert last[1..] == [] && LegalRun(s2, last) && Run(s2, last) == s3;
    assert actions[1..] == [Begin] + last && ([Begin] + last)[1..] == last;
    assert LegalRun(s1, [Begin] + last) && Run(s1, [Begin] + last) == s3;
    assert LegalRun(s, actions) && Run(s, actions) == s3;
  }

  // ---- the queue drains ----

  function StageRank(stage: Stage): nat {
    match stage
    case Idle => 0
    case CheckAccess(_) => 5
    case CheckSession(_) => 4
    case ClearPrevious(_, _) => 3
    case CheckSessionAgain(_) => 2
    case Mark(_) => 1
    case ClearActive(_) => 1
  }

  function Work(s: State): nat { 6 * |s.queue| + StageRank(s.stage) + if s.connected then 7 else 0 }

  lemma StepLowersWork(s: State, a: Action)
    requires Legal(s, a) && (a.Begin? || a.Resume?)
    ensures Work(Apply(s, a)) < Work(s)
  {
  }

  /** With no new requests the updates of a socket come to an end. */
  lemma {:induction false} UpdatesEnd(s: State, actions: seq<Action>)
    requires LegalRun(s, actions) && forall a :: a in actions ==> a.Begin? || a.Resume?
    ensures |actions| <= Work(s)
    decreases |actions|
  {
    if actions != [] {
      StepLowersWork(s, actions[0]);
      UpdatesEnd(Apply(s, actions[0]), actions[1..]);
    }
  }
}
