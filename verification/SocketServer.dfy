/**
 * The presence handlers as they are coded, on the fields of one socket and the presence stored for
 * it. While a handler awaits a call the socket may get requests or be disconnected, and entries may
 * expire. Each stretch between two awaits is one step of SocketPresence.
 */
module SocketServer {
  import opened Prelude
  import opened SocketPresence

  class Socket {
    var connected: bool
    var activeConversationId: Option<Conversation>
    var presenceUpdates: seq<Update>
    var stored: set<Conversation>
    ghost var s: State

    ghost predicate Valid()
      reads this
    {
      && Inv(s) && s.connected == connected && s.active == activeConversationId
      && s.queue == presenceUpdates && s.stored == stored
    }

    // A handler is suspended or about to start, and the fields are those of the state.
    ghost predicate At(stage: Stage)
      reads this
    {
      Valid() && s.stage == stage
    }

    // An update was taken from the queue and is about to run.
    ghost predicate Ready(u: Update)
      reads this
    {
      Valid() && s.stage == Started(s.(stage := Idle), u).stage
    }

    constructor ()
      ensures At(Idle) && s == FRESH
    {
      connected, activeConversationId, presenceUpdates, stored, s := true, None, [], {}, FRESH;
    }

    method EnqueuePresenceUpdate(u: Update)
      requires Valid()
      modifies this`presenceUpdates, this`s
      ensures Valid() && s == Apply(old(s), Request(u))
    {
      ApplyKeepsInv(s, Request(u));
      presenceUpdates := presenceUpdates + [u];
      s := Apply(s, Request(u));
    }

    // The disconnect hook.
    method Disconnect()
      requires Valid()
      modifies this`connected, this`presenceUpdates, this`s
      ensures Valid() && s == Apply(old(s), Action.Disconnect) && !connected
    {
      ApplyKeepsInv(s, Action.Disconnect);
      s := Apply(s, Action.Disconnect);
      if connected {
        connected, presenceUpdates := false, presenceUpdates + [Close(None)];
      }
    }

    // While a call is awaited; effective and threw are how it ended.
    method Await() returns (effective: bool, threw: bool)
      requires Valid()
      modifies this
      ensures Valid() && s.stage == old(s).stage && s.active == old(s).active && s.leaked <= old(s).leaked
      ensures stored <= old(stored) && (connected ==> old(connected))
    {
      var turns: int := *;
      while turns > 0
        invariant Valid() && s.stage == old(s).stage && s.active == old(s).active && s.leaked <= old(s).leaked
        invariant stored <= old(stored) && (connected ==> old(connected))
        decreases turns
      {
        turns := turns - 1;
        var choice: int, u: Update, c: Conversation := *, *, *;
        if choice == 0 {
          Disconnect();
        } else if choice == 1 {
          ApplyKeepsInv(s, Expire(c));
          stored, s := stored - {c}, Apply(s, Expire(c));
        } else {
          EnqueuePresenceUpdate(u);
        }
      }
      effective, threw := *, *;
    }

    // The machine's part of resuming a handler.
    ghost method Resume(effective: bool, threw: bool)
      requires Inv(s) && !s.stage.Idle?
      modifies this`s
      ensures s == Apply(old(s), Action.Resume(effective, threw)) && Inv(s)
    {
      ApplyKeepsInv(s, Action.Resume(effective, threw));
      s := Apply(s, Action.Resume(effective, threw));
    }

    // A throw that reaches the queue disconnects the socket.
    method Fail()
      requires Inv(s) && s.active == activeConversationId && s.stored == stored && s.stage.Idle? && !s.connected
      requires connected ==> s.queue == presenceUpdates + [Close(None)]
      requires !connected ==> s.queue == presenceUpdates
      modifies this`connected, this`presenceUpdates
      ensures At(Idle)
    {
      if connected {
        connected, presenceUpdates := false, presenceUpdates + [Close(None)];
      }
    }

    method SafeClearConversationPresence(c: Conversation)
      requires Valid() && ((s.stage.ClearPrevious? && s.stage.previous == c) || s.stage == ClearActive(c))
      modifies this
      ensures old(s).stage.ClearPrevious? ==> At(CheckSessionAgain(old(s).stage.c))
      ensures old(s).stage.ClearPrevious? ==> activeConversationId == old(activeConversationId)
      ensures old(s).stage.ClearActive? ==>
                && Inv(s) && s.stage.Idle? && s.active.None?
                && s.connected == connected && s.queue == presenceUpdates && s.stored == stored
      ensures (connected ==> old(connected)) && (c !in stored || c in s.leaked)
    {
      var effective, threw := Await();
      Resume(effective, threw);
      if effective {
        stored := stored - {c};
      }
    }

    method HandleConversationClosed(only: Option<Conversation>)
      requires Ready(Close(only))
      modifies this
      ensures At(Idle)
      ensures var closes := old(activeConversationId).Some? && (only.None? || only == old(activeConversationId));
              && activeConversationId == (if closes then None else old(activeConversationId))
              && (closes ==> old(activeConversationId).value !in stored || old(activeConversationId).value in s.leaked)
    {
      if activeConversationId.None? || (only.Some? && activeConversationId != only) {
        return;
      }
      SafeClearConversationPresence(activeConversationId.value);
      activeConversationId := None;
    }

    // The end of opening: the conversation is active, and its presence is stored if the store can.
    method MarkConversation(c: Conversation)
      requires At(Mark(c)) && activeConversationId == Some(c)
      modifies this
      ensures At(Idle) && activeConversationId == Some(c)
    {
      var effective, threw := Await();
      Resume(effective, threw);
      if effective {
        stored := stored + {c};
      }
    }

    // Validates the session again; go is whether to go on.
    method ValidateSocketSession(c: Conversation) returns (go: bool)
      requires At(CheckSession(c)) || At(CheckSessionAgain(c))
      modifies this
      ensures !go ==> At(Idle) && activeConversationId == old(activeConversationId)
      ensures go ==>
                && Inv(s) && s.connected == connected && s.queue == presenceUpdates && s.stored == stored
                && activeConversationId == old(activeConversationId)
                && if old(s).stage.CheckSession? && activeConversationId.Some? && activeConversationId != Some(c)
                   then Valid() && s.stage == ClearPrevious(c, activeConversationId.value)
                   else s.stage == Mark(c) && s.active == Some(c)
    {
      var effective, threw := Await();
      go := effective && !threw && connected;
      Resume(effective, threw);
      if threw {
        Fail();
      }
    }

    method HandleConversationOpened(c: Conversation, valid: bool)
      requires Ready(Open(c, valid))
      modifies this
      ensures At(Idle) && activeConversationId in {old(activeConversationId), Some(c)}
      ensures !valid || !old(connected) ==> activeConversationId == old(activeConversationId) && stored == old(stored)
    {
      if !connected || !valid {
        return;
      }
      var effective, threw := Await();
      Resume(effective, threw);
      if threw || !effective {
        Fail();
        return;
      }
      var go := ValidateSocketSession(c);
      if !go {
        return;
      }
      if activeConversationId.Some? && activeConversationId != Some(c) {
        SafeClearConversationPresence(activeConversationId.value);
        go := ValidateSocketSession(c);
        if !go {
          return;
        }
      }
      activeConversationId := Some(c);
      MarkConversation(c);
    }

    /**
     * Runs the updates in the queue, one at a time, over the given number of turns. Once the socket
     * is disconnected and the queue empty, nothing is active, and only what failed clears left
     * behind is stored.
     */
    method Drain(turns: nat)
      requires At(Idle)
      modifies this
      ensures At(Idle) && stored <= ActiveSet(s) + s.leaked
      ensures !connected && presenceUpdates == [] ==> activeConversationId.None? && stored <= s.leaked
    {
      var turn := 0;
      while turn < turns && presenceUpdates != []
        invariant At(Idle)
        decreases turns - turn
      {
        turn := turn + 1;
        var update := presenceUpdates[0];
        ApplyKeepsInv(s, Begin);
        s := Apply(s, Begin);
        presenceUpdates := presenceUpdates[1..];
        match update
        case Open(c, valid) => HandleConversationOpened(c, valid);
        case Close(only) => HandleConversationClosed(only);
      }
    }
  }
}
