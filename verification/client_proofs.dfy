/** Invariants of the `useWebSocket` model, and properties over whole event
    sequences. */
module ClientHookProofs {
  import opened Js
  import opened Chat
  import opened ClientHook

  /** The table key a pending callback belongs to: the remote user for an
      expiry, the hook's own name for the local debounce. */
  function Owner(h: Hook, t: Timeout): Option<string>
  {
    match t
    case ClearRemoteTyping(u) => Some(u)
    case SendStopTyping => h.name
  }

  /** The invariant of every reachable hook state:
      - the typing list has no duplicates, and holds neither "" nor the
        hook's own name;
      - the timeout table and the live callbacks are in one-to-one
        correspondence, each callback stored under its owner's key;
      - a remote user is in the typing list exactly when their expiry is
        pending;
      - every live handle was issued before `nextTimer`. */
  ghost predicate HookValid(h: Hook)
  {
    && NoDup(h.typingUsers)
    && (forall i :: 0 <= i < |h.typingUsers| ==>
          h.typingUsers[i] != "" && Some(h.typingUsers[i]) != h.name && h.typingUsers[i] in h.typingTimeouts)
    && (forall k :: k in h.typingTimeouts ==>
          h.typingTimeouts[k] in h.timers && Owner(h, h.timers[h.typingTimeouts[k]]) == Some(k))
    && (forall t :: t in h.timers ==>
          Owner(h, h.timers[t]).Some?
          && Owner(h, h.timers[t]).value in h.typingTimeouts
          && h.typingTimeouts[Owner(h, h.timers[t]).value] == t)
    && (forall t :: t in h.timers && h.timers[t].ClearRemoteTyping? ==> h.timers[t].user in h.typingUsers)
    && (forall t :: t in h.timers ==> t < h.nextTimer)
  }

  lemma MountValid(name: Option<string>, currentRoom: Option<string>)
    ensures HookValid(Mount(name, currentRoom))
  {
  }

  lemma IncomingTypingKeepsValid(h: Hook, user: string, isTyping: bool)
    requires HookValid(h) && HasSocket(h)
    ensures HookValid(OnIncomingTyping(h, user, isTyping).hook)
  {
    if user != "" && h.name != Some(user) {
      if isTyping {
        TypingStartKeepsValid(h, user);
      } else {
        TypingStopKeepsValid(h, user);
      }
    }
  }

  lemma TypingStartKeepsValid(h: Hook, user: string)
    requires HookValid(h) && HasSocket(h) && user != "" && h.name != Some(user)
    ensures HookValid(OnIncomingTyping(h, user, true).hook)
  {
    var h' := OnIncomingTyping(h, user, true).hook;
    if user !in h.typingUsers {
      AppendFreshKeepsNoDup(h.typingUsers, user);
    }
    var t := h.nextTimer;
    forall k | k in h'.typingTimeouts
      ensures h'.typingTimeouts[k] in h'.timers && Owner(h', h'.timers[h'.typingTimeouts[k]]) == Some(k)
    {
      if k != user {
        assert h.typingTimeouts[k] < t;
        assert user in h.typingTimeouts ==> h.typingTimeouts[k] != h.typingTimeouts[user];
      }
    }
    forall g | g in h'.timers
      ensures Owner(h', h'.timers[g]).Some?
        && Owner(h', h'.timers[g]).value in h'.typingTimeouts
        && h'.typingTimeouts[Owner(h', h'.timers[g]).value] == g
    {
      if g != t {
        assert Owner(h, h.timers[g]).value != user;
      }
    }
  }

  lemma TypingStopKeepsValid(h: Hook, user: string)
    requires HookValid(h) && HasSocket(h) && user != "" && h.name != Some(user)
    ensures HookValid(OnIncomingTyping(h, user, false).hook)
  {
    assert OnIncomingTyping(h, user, false).hook == DropUser(h, user);
    DropUserKeepsValid(h, user);
  }

  lemma TimerKeepsValid(h: Hook, t: Handle)
    requires HookValid(h) && HasSocket(h)
    ensures HookValid(OnTimerFires(h, t).hook)
  {
    if t in h.timers && h.timers[t].ClearRemoteTyping? {
      var u := h.timers[t].user;
      assert h.typingTimeouts[u] == t;
      assert u in h.typingUsers;
      var i :| 0 <= i < |h.typingUsers| && h.typingUsers[i] == u;
      assert OnTimerFires(h, t).hook == DropUser(h, u);
      DropUserKeepsValid(h, u);
    }
  }

  /** A remote user's `isTyping: false` and the expiry of their timeout both
      leave the hook in this state. */
  function DropUser(h: Hook, u: string): Hook
  {
    h.(typingUsers := Without(h.typingUsers, u),
       typingTimeouts := h.typingTimeouts - {u},
       timers := if u in h.typingTimeouts then h.timers - {h.typingTimeouts[u]} else h.timers)
  }

  lemma DropUserKeepsValid(h: Hook, u: string)
    requires HookValid(h) && u != "" && h.name != Some(u)
    ensures HookValid(DropUser(h, u))
  {
    var h' := DropUser(h, u);
    WithoutKeepsNoDup(h.typingUsers, u);
    forall g | g in h'.timers
      ensures Owner(h', h'.timers[g]).Some?
        && Owner(h', h'.timers[g]).value in h'.typingTimeouts
        && h'.typingTimeouts[Owner(h', h'.timers[g]).value] == g
      ensures h'.timers[g].ClearRemoteTyping? ==> h'.timers[g].user in h'.typingUsers
    {
      assert Owner(h, h.timers[g]).value != u;
      if h.timers[g].ClearRemoteTyping? {
        var v := h.timers[g].user;
        var i :| 0 <= i < |h.typingUsers| && h.typingUsers[i] == v;
      }
    }
  }

  lemma HandleTypingKeepsValid(h: Hook)
    requires HookValid(h)
    ensures HookValid(OnHandleTyping(h).hook)
  {
    var h' := OnHandleTyping(h).hook;
    if HasSocket(h) {
      var key := h.name.value;
      var t := h.nextTimer;
      forall k | k in h'.typingTimeouts
        ensures h'.typingTimeouts[k] in h'.timers && Owner(h', h'.timers[h'.typingTimeouts[k]]) == Some(k)
      {
        if k != key {
          assert h.typingTimeouts[k] < t;
          assert key in h.typingTimeouts ==> h.typingTimeouts[k] != h.typingTimeouts[key];
        }
      }
      forall g | g in h'.timers
        ensures Owner(h', h'.timers[g]).Some?
          && Owner(h', h'.timers[g]).value in h'.typingTimeouts
          && h'.typingTimeouts[Owner(h', h'.timers[g]).value] == g
      {
        if g != t {
          assert Owner(h, h.timers[g]).value != key;
        }
      }
    }
  }

  /** Every event keeps the invariant. */
  lemma StepKeepsValid(h: Hook, ev: Event)
    requires HookValid(h)
    ensures HookValid(Step(h, ev).hook)
  {
    match ev
    case HandleTyping => HandleTypingKeepsValid(h);
    case IncomingTyping(user, isTyping) =>
      if HasSocket(h) { IncomingTypingKeepsValid(h, user, isTyping); }
    case TimerFires(t) =>
      if HasSocket(h) { TimerKeepsValid(h, t); }
    case _ =>
  }

  lemma {:induction false} RunKeepsValid(h: Hook, evs: seq<Event>)
    requires HookValid(h)
    ensures HookValid(Run(h, evs))
    decreases |evs|
  {
    if evs != [] {
      StepKeepsValid(h, evs[0]);
      RunKeepsValid(Step(h, evs[0]).hook, evs[1..]);
    }
  }

  /** Every state the hook reaches after mounting satisfies the invariant. */
  lemma ReachableValid(name: Option<string>, currentRoom: Option<string>, evs: seq<Event>)
    ensures HookValid(Run(Mount(name, currentRoom), evs))
  {
    MountValid(name, currentRoom);
    RunKeepsValid(Mount(name, currentRoom), evs);
  }

  /** The typing list is exactly the set of remote users whose expiry is
      pending, so each shown user has one timeout and vice versa. */
  lemma TypingUsersArePendingExpiries(h: Hook, u: string)
    requires HookValid(h)
    ensures u in h.typingUsers <==>
      u in h.typingTimeouts && h.typingTimeouts[u] in h.timers && h.timers[h.typingTimeouts[u]] == ClearRemoteTyping(u)
  {
    if u in h.typingUsers {
      var i :| 0 <= i < |h.typingUsers| && h.typingUsers[i] == u;
      assert Some(u) != h.name;
    }
  }

  /** No two live callbacks belong to the same table key. */
  lemma OneTimeoutPerKey(h: Hook, t1: Handle, t2: Handle)
    requires HookValid(h) && t1 in h.timers && t2 in h.timers
    requires Owner(h, h.timers[t1]) == Owner(h, h.timers[t2])
    ensures t1 == t2
  {
  }

  /** Without a truthy name and room the effect creates no socket, and the
      hook stays as it mounted whatever happens: no event changes it and
      none emits anything. */
  lemma {:induction false} NoSocketIsInert(name: Option<string>, currentRoom: Option<string>, evs: seq<Event>)
    requires !Truthy(name) || !Truthy(currentRoom)
    ensures Run(Mount(name, currentRoom), evs) == Mount(name, currentRoom)
    ensures forall i :: 0 <= i < |evs| ==> Step(Mount(name, currentRoom), evs[i]).emitted == []
    decreases |evs|
  {
    if evs != [] {
      NoSocketIsInert(name, currentRoom, evs[1..]);
      forall i | 0 <= i < |evs|
        ensures Step(Mount(name, currentRoom), evs[i]).emitted == []
      {
        if i > 0 {
          assert evs[i] == evs[1..][i - 1];
        }
      }
    }
  }

  /** Every live callback is stored in the table: clearing the table's
      values cancels all of them. */
  lemma TimersAreTableValues(h: Hook)
    requires HookValid(h)
    ensures h.timers.Keys == h.typingTimeouts.Values
  {
    forall t | t in h.timers
      ensures t in h.typingTimeouts.Values
    {
      var k := Owner(h, h.timers[t]).value;
      assert h.typingTimeouts[k] == t;
    }
  }

  /** The cleanup clears only the timeouts stored in the table, and in a
      reachable state that is every pending callback: none is left to run. */
  lemma NothingRunsAfterCleanup(h: Hook, t: Handle)
    requires HookValid(h) && HasSocket(h)
    ensures OnCleanup(h).hook.timers == map[]
    ensures var c := OnCleanup(h).hook;
      Step(c, TimerFires(t)) == Reaction(c, [])
  {
    TimersAreTableValues(h);
    assert OnCleanup(h).hook.timers.Keys == {};
  }

  /** The reference filter: the chat lines and notices of an event stream
      that the hook shows, in arrival order. */
  function Shown(h: Hook, evs: seq<Event>): seq<WsMessage>
    decreases |evs|
  {
    if evs == [] then []
    else
      var head := match evs[0]
        case IncomingMessage(d) => if h.currentRoom == Some(d.room) then [d] else []
        case IncomingSystem(d) =>
          if h.currentRoom == Some(d.room) && !(d.kind == System && d.text == JOINED && h.name == Some(d.user)) then [d] else []
        case _ => [];
      head + Shown(h, evs[1..])
  }

  /** One event changes neither the name nor the room, and extends the
      message list by what the reference filter shows of it. */
  lemma StepExtendsMessages(h: Hook, ev: Event)
    requires HasSocket(h)
    ensures var h' := Step(h, ev).hook;
      h'.name == h.name && h'.currentRoom == h.currentRoom && h'.messages == h.messages + Shown(h, [ev])
  {
    assert [ev][1..] == [];
  }

  /** Over any sequence of events, the message list grows by exactly the
      messages for the hook's room and the notices other than its own join
      notice, in arrival order; earlier messages are kept. */
  lemma {:induction false} MessagesAreFiltered(h: Hook, evs: seq<Event>)
    requires HasSocket(h)
    ensures Run(h, evs).messages == h.messages + Shown(h, evs)
    decreases |evs|
  {
    if evs == [] {
      assert h.messages + [] == h.messages;
    } else {
      var h1 := Step(h, evs[0]).hook;
      StepExtendsMessages(h, evs[0]);
      MessagesAreFiltered(h1, evs[1..]);
      assert Shown(h1, evs[1..]) == Shown(h, evs[1..]) by {
        ShownDependsOnNameAndRoom(h1, h, evs[1..]);
      }
      assert Shown(h, [evs[0]]) + Shown(h, evs[1..]) == Shown(h, evs) by {
        assert [evs[0]][1..] == [];
      }
    }
  }

  /** The reference filter reads only the name and the room. */
  lemma {:induction false} ShownDependsOnNameAndRoom(a: Hook, b: Hook, evs: seq<Event>)
    requires a.name == b.name && a.currentRoom == b.currentRoom
    ensures Shown(a, evs) == Shown(b, evs)
    decreases |evs|
  {
    if evs != [] {
      ShownDependsOnNameAndRoom(a, b, evs[1..]);
    }
  }
}
