/**
 * Starting and stopping the queue: one startup at a time, which callers join, and at most one
 * current generation. Every action is what happens between two suspensions.
 */
module QueueStartup {
  import opened Prelude

  type Client = nat

  // The pending startup promise: none, waiting for the connection, or answered and only its
  // settling and the disconnection of a failed client left. A failed one rejects for all who joined.
  datatype Startup = NoStartup | Connecting(client: Client) | Ending(failed: bool)

  datatype Generation = Generation(
    isProcessing: bool, blockingClient: Option<Client>, startup: Startup, nextClient: Client)

  // created: whether a client could be made at all. Crash: an error escaped the loop of the client.
  datatype Action = Start(created: bool) | Answer(connected: bool) | Settle | Stop | Crash(client: Client)

  predicate Legal(g: Generation, a: Action) {
    match a
    case Answer(_) => g.startup.Connecting?
    case Settle => g.startup.Ending?
    case Crash(client) => g.startup != Connecting(client)
    case _ => true
  }

  // A start begins a generation; otherwise it joins the pending startup, or finds the loop running.
  predicate Begins(g: Generation) { g.startup.NoStartup? && !g.isProcessing }

  predicate Launches(g: Generation, a: Action) {
    a == Answer(true) && g.startup.Connecting? && g.blockingClient == Some(g.startup.client)
  }

  function Off(g: Generation): Generation { g.(isProcessing := false, blockingClient := None) }

  function Apply(g: Generation, a: Action): Generation
    requires Legal(g, a)
  {
    match a
    case Start(created) =>
      if !Begins(g) then g
      else if !created then g.(startup := Ending(true))
      else
        g.(blockingClient := Some(g.nextClient), startup := Connecting(g.nextClient), nextClient := g.nextClient + 1)
    case Answer(_) =>
      if Launches(g, a) then g.(isProcessing := true, startup := Ending(false))
      else if g.blockingClient == Some(g.startup.client) then Off(g).(startup := Ending(true))
      else g.(startup := Ending(true))
    case Settle => g.(startup := NoStartup)
    case Stop => Off(g)
    case Crash(client) => if g.blockingClient == Some(client) then Off(g) else g
  }

  predicate LegalRun(g: Generation, actions: seq<Action>)
    decreases |actions|
  {
    actions == [] || (Legal(g, actions[0]) && LegalRun(Apply(g, actions[0]), actions[1..]))
  }

  function Run(g: Generation, actions: seq<Action>): Generation
    requires LegalRun(g, actions)
    decreases |actions|
  {
    if actions == [] then g else Run(Apply(g, actions[0]), actions[1..])
  }

  // Processing is on exactly for a current client, except that a client still connecting is current
  // before; and nothing is current beside it.
  ghost predicate Inv(g: Generation) {
    && (g.blockingClient.Some? ==> g.blockingClient.value < g.nextClient)
    && (if g.startup.Connecting?
        then !g.isProcessing && g.startup.client < g.nextClient
             && (g.blockingClient.Some? ==> g.blockingClient.value == g.startup.client)
        else g.isProcessing <==> g.blockingClient.Some?)
  }

  lemma {:induction false} RunKeepsInv(g: Generation, actions: seq<Action>)
    requires Inv(g) && LegalRun(g, actions)
    ensures Inv(Run(g, actions)) && g.nextClient <= Run(g, actions).nextClient
    decreases |actions|
  {
    if actions != [] {
      RunKeepsInv(Apply(g, actions[0]), actions[1..]);
    }
  }

  // ---- who is served by a startup ----

  // While the connection is not answered every start joins, and only a stop changes anything.
  lemma {:induction false} Unanswered(g: Generation, actions: seq<Action>)
    requires Inv(g) && g.startup.Connecting? && LegalRun(g, actions)
    requires forall a :: a in actions ==> !a.Answer?
    ensures Run(g, actions) == if Stop in actions then Off(g) else g
    decreases |actions|
  {
    if actions != [] {
      assert actions[0] in actions && actions == [actions[0]] + actions[1..];
      Unanswered(Apply(g, actions[0]), actions[1..]);
    }
  }

  /**
   * A startup launches a loop exactly when its connection succeeds and nobody stopped the queue
   * since it began, whoever started again meanwhile. Otherwise it rejects for all who joined it and
   * leaves the queue without a current loop.
   */
  lemma LaunchesExactlyIfNotStopped(g: Generation, actions: seq<Action>, connected: bool)
    requires Inv(g) && Begins(g)
    requires LegalRun(Apply(g, Start(true)), actions) && forall a :: a in actions ==> !a.Answer?
    ensures var h := Run(Apply(g, Start(true)), actions);
            && h.startup == Connecting(g.nextClient) && h.nextClient == g.nextClient + 1
            && (Launches(h, Answer(connected)) <==> connected && Stop !in actions)
            && var after := Apply(h, Answer(connected));
               if connected && Stop !in actions
               then after.isProcessing && after.blockingClient == Some(g.nextClient) && after.startup == Ending(false)
               else !after.isProcessing && after.blockingClient.None? && after.startup == Ending(true)
  {
    Unanswered(Apply(g, Start(true)), actions);
  }

  /**
   * A caller that starts the queue after a stop, while the stopped startup is pending, joins it: its
   * own start changes nothing, is rejected whatever the connection does, and launches no loop. Only
   * a start after that startup has settled begins anew.
   */
  lemma StartAfterStopIsRejected(g: Generation, created: bool, connected: bool)
    requires Inv(g) && g.startup.Connecting?
    ensures var h := Apply(Apply(g, Stop), Start(created));
            && h == Apply(g, Stop) && !Launches(h, Answer(connected))
            && var after := Apply(h, Answer(connected));
               && after.startup == Ending(true) && !after.isProcessing
               && Apply(after, Start(created)) == after && Begins(Apply(after, Settle))
  {
  }
}
