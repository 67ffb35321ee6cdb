/** Invariants of the socket.io server model, and properties that relate
    several events. */
module SocketServerProofs {
  import opened Js
  import opened Chat
  import opened SocketServer

  /** The chat room a connection's closure has bound, as a set. */
  function RoomOf(s: Session): set<Room>
  {
    if s.currentRoom.Some? then {s.currentRoom.value} else {}
  }

  /** The invariant of every reachable server state:
      - every connected socket's room set is its own id plus the room its
        closure last joined, so it is in at most one chat room and the
        room registry agrees with the closures;
      - the typing table and the live timers are in one-to-one
        correspondence, each live timer stored under its own key;
      - every live handle was issued before `nextTimer`. */
  ghost predicate Valid(srv: Server)
  {
    && srv.rooms.Keys == srv.sessions.Keys
    && (forall s :: s in srv.rooms ==> s in srv.sessions && srv.rooms[s] == {s} + RoomOf(srv.sessions[s]))
    && (forall k :: k in srv.typingTimeouts ==>
          srv.typingTimeouts[k] in srv.timers && KeyOf(srv.timers[srv.typingTimeouts[k]]) == k)
    && (forall h :: h in srv.timers ==>
          KeyOf(srv.timers[h]) in srv.typingTimeouts && srv.typingTimeouts[KeyOf(srv.timers[h])] == h)
    && (forall h :: h in srv.timers ==> h < srv.nextTimer)
  }

  lemma InitialValid()
    ensures Valid(Initial)
  {
  }

  lemma ConnectKeepsValid(srv: Server, id: SocketId)
    requires Valid(srv)
    ensures Valid(OnConnect(srv, id).server)
  {
  }

  lemma JoinKeepsValid(srv: Server, id: SocketId, user: string, room: Room, stamp: string)
    requires Valid(srv) && Live(srv, id)
    ensures Valid(OnJoinRoom(srv, id, user, room, stamp).server)
  {
    var srv' := OnJoinRoom(srv, id, user, room, stamp).server;
    assert srv'.rooms[id] == {id} + RoomOf(srv'.sessions[id]);
  }

  lemma TypingKeepsValid(srv: Server, id: SocketId, user: string, isTyping: Option<bool>, room: Room)
    requires Valid(srv) && Live(srv, id)
    ensures Valid(OnTyping(srv, id, user, isTyping, room).server)
  {
    var srv' := OnTyping(srv, id, user, isTyping, room).server;
    var key := TypingKey(user, room);
    var h := srv.nextTimer;
    forall k | k in srv'.typingTimeouts
      ensures srv'.typingTimeouts[k] in srv'.timers && KeyOf(srv'.timers[srv'.typingTimeouts[k]]) == k
    {
      if k != key {
        var prior := srv.typingTimeouts[k];
        assert prior < h;
        assert !(key in srv.typingTimeouts && prior == srv.typingTimeouts[key]);
      }
    }
    forall g | g in srv'.timers
      ensures KeyOf(srv'.timers[g]) in srv'.typingTimeouts && srv'.typingTimeouts[KeyOf(srv'.timers[g])] == g
    {
      if g != h {
        var k := KeyOf(srv.timers[g]);
        assert k != key;
      }
    }
  }

  lemma StopTypingKeepsValid(srv: Server, id: SocketId, user: string, room: Room)
    requires Valid(srv) && Live(srv, id)
    ensures Valid(OnStopTyping(srv, id, user, room).server)
  {
  }

  lemma TimerKeepsValid(srv: Server, h: Handle)
    requires Valid(srv)
    ensures Valid(OnTimerFires(srv, h).server)
  {
  }

  lemma DisconnectKeepsValid(srv: Server, id: SocketId, stamp: string)
    requires Valid(srv) && Live(srv, id)
    ensures Valid(OnDisconnect(srv, id, stamp).server)
  {
  }

  /** Every event keeps the invariant. */
  lemma StepKeepsValid(srv: Server, ev: Event)
    requires Valid(srv)
    ensures Valid(Step(srv, ev).server)
  {
    match ev
    case Connect(id) => ConnectKeepsValid(srv, id);
    case TimerFires(h) => TimerKeepsValid(srv, h);
    case JoinRoom(id, user, room, stamp) =>
      if Live(srv, id) { JoinKeepsValid(srv, id, user, room, stamp); }
    case UserLeft(id, user, room, stamp) =>
    case IncomingMessage(id, msg) =>
    case Typing(id, user, isTyping, room) =>
      if Live(srv, id) { TypingKeepsValid(srv, id, user, isTyping, room); }
    case StopTyping(id, user, room) =>
      if Live(srv, id) { StopTypingKeepsValid(srv, id, user, room); }
    case Disconnect(id, stamp) =>
      if Live(srv, id) { DisconnectKeepsValid(srv, id, stamp); }
  }

  /** Every state reached from the initial server satisfies the invariant. */
  lemma {:induction false} RunKeepsValid(srv: Server, evs: seq<Event>)
    requires Valid(srv)
    ensures Valid(Run(srv, evs))
    decreases |evs|
  {
    if evs != [] {
      StepKeepsValid(srv, evs[0]);
      RunKeepsValid(Step(srv, evs[0]).server, evs[1..]);
    }
  }

  lemma ReachableValid(evs: seq<Event>)
    ensures Valid(Run(Initial, evs))
  {
    InitialValid();
    RunKeepsValid(Initial, evs);
  }

  /** A connected socket is in at most one room besides its own id, and that
      room is the one its closure last joined. */
  lemma AtMostOneChatRoom(srv: Server, s: SocketId)
    requires Valid(srv) && s in srv.rooms
    ensures srv.rooms[s] - {s} <= RoomOf(srv.sessions[s])
    ensures |srv.rooms[s] - {s}| <= 1
  {
    assert srv.rooms[s] - {s} <= RoomOf(srv.sessions[s]);
    if srv.sessions[s].currentRoom.Some? {
      var r := srv.sessions[s].currentRoom.value;
      assert srv.rooms[s] - {s} <= {r};
      assert |srv.rooms[s] - {s}| <= |{r}|;
    }
  }

  /** For a room name that is no socket's id, the room registry and the
      closures agree: the members are exactly the sockets whose closure
      last joined that room. */
  lemma MembersAreCurrentRoomHolders(srv: Server, room: Room)
    requires Valid(srv) && room !in srv.rooms
    ensures Members(srv, room) == set s | s in srv.sessions && srv.sessions[s].currentRoom == Some(room)
  {
  }

  /** Two live timers never share a key. */
  lemma OneLiveTimerPerKey(srv: Server, h1: Handle, h2: Handle)
    requires Valid(srv) && h1 in srv.timers && h2 in srv.timers
    requires KeyOf(srv.timers[h1]) == KeyOf(srv.timers[h2])
    ensures h1 == h2
  {
  }

  /** Joining a room twice in a row, or joining it after another room,
      leaves the socket in exactly its own id and that room. */
  lemma RejoinKeepsOneRoom(srv: Server, id: SocketId, user: string, first: Room, room: Room, stamp: string)
    requires Valid(srv) && Live(srv, id)
    ensures var s1 := OnJoinRoom(srv, id, user, first, stamp).server;
      OnJoinRoom(s1, id, user, room, stamp).server.rooms[id] == {id, room}
  {
    JoinKeepsValid(srv, id, user, first, stamp);
  }

  /** The room catalogue is never consulted: a join to a room outside it
      still puts the socket in that room. */
  lemma JoinIgnoresCatalogue(srv: Server, id: SocketId, user: string, stamp: string)
    requires Valid(srv) && Live(srv, id)
    ensures "sala-secreta" !in AVAILABLE_ROOMS
    ensures "sala-secreta" in OnJoinRoom(srv, id, user, "sala-secreta", stamp).server.rooms[id]
  {
  }

  /** A second `stop_typing` for the same key changes nothing more and
      repeats the same broadcast. */
  lemma StopTypingIdempotent(srv: Server, id: SocketId, user: string, room: Room)
    requires Live(srv, id)
    ensures var first := OnStopTyping(srv, id, user, room);
      var second := OnStopTyping(first.server, id, user, room);
      second.server == first.server && second.out == first.out
  {
    var first := OnStopTyping(srv, id, user, room);
    assert first.server.rooms == srv.rooms;
  }

  /** `typing` is not debounced: two `typing: true` events in a row each
      reach every other member of the room. */
  lemma TypingRebroadcasts(srv: Server, id: SocketId, user: string, room: Room, t: SocketId)
    requires Live(srv, id) && t != id && t in srv.rooms && room in srv.rooms[t] && id !in srv.rooms[t]
    ensures var first := OnTyping(srv, id, user, Some(true), room);
      var second := OnTyping(first.server, id, user, Some(true), room);
      DeliveredTo(first.out + second.out, t) == [TypingStatus(user, true), TypingStatus(user, true)]
  {
    var first := OnTyping(srv, id, user, Some(true), room);
    var second := OnTyping(first.server, id, user, Some(true), room);
    DeliveredToTwo(first.out[0], second.out[0]);
    assert first.out + second.out == [first.out[0], second.out[0]];
  }

  /** A `typing` event followed by a `stop_typing` for the same user and room
      (what `sendMessage` sends) cancels the timer: it never fires. */
  lemma StopTypingCancelsTimer(srv: Server, id: SocketId, user: string, room: Room, isTyping: Option<bool>)
    requires Valid(srv) && Live(srv, id)
    ensures var s1 := OnTyping(srv, id, user, isTyping, room).server;
      var s2 := OnStopTyping(s1, id, user, room).server;
      && srv.nextTimer !in s2.timers
      && OnTimerFires(s2, srv.nextTimer) == Transition(s2, [])
  {
  }

  /** `disconnect` does not cancel typing timers: a timer the socket started
      still runs afterwards and tells the room the user stopped typing. */
  lemma TimerOutlivesDisconnect(srv: Server, id: SocketId, user: string, room: Room, stamp: string)
    requires Valid(srv) && Live(srv, id)
    ensures var s1 := OnTyping(srv, id, user, Some(true), room).server;
      var s2 := OnDisconnect(s1, id, stamp).server;
      && srv.nextTimer in s2.timers
      && BroadcastOnce(OnTimerFires(s2, srv.nextTimer).out, TypingStatus(user, false), s2, room, id)
  {
  }

  /** No socket hears its own join, leave or disconnect notice or its own
      typing status; only `message` is echoed to the sender. */
  lemma NoSelfNotification(srv: Server, ev: Event)
    requires Valid(srv) && !ev.IncomingMessage? && !ev.TimerFires? && !ev.Connect?
    ensures forall d :: d in Step(srv, ev).out ==> ev.id !in d.to
  {
  }

  /** A timer's broadcast never reaches the socket that started it. */
  lemma NoSelfNotificationOnExpiry(srv: Server, h: Handle)
    requires h in srv.timers
    ensures forall d :: d in OnTimerFires(srv, h).out ==> srv.timers[h].owner !in d.to
  {
  }

  /** The typing key is ambiguous: "a-b" typing in "c" and "a" typing in
      "b-c" share one table slot. */
  lemma TypingKeyCollides()
    ensures TypingKey("a-b", "c") == TypingKey("a", "b-c")
  {
  }

  /** A consequence of the shared slot: a `typing` event for one (user, room)
      pair clears the pending timer of another pair with the same key, so
      the first pair's expiry broadcast is lost. */
  lemma SharedKeyCancelsOtherTimer(srv: Server, id: SocketId, other: SocketId, stamp: string)
    requires Valid(srv) && Live(srv, id) && Live(srv, other)
    ensures var s1 := OnTyping(srv, id, "a-b", Some(true), "c").server;
      var s2 := OnTyping(s1, other, "a", Some(true), "b-c").server;
      srv.nextTimer !in s2.timers
  {
    TypingKeyCollides();
  }

  /** When neither room name contains '-', the key determines the pair: the
      last '-' of the key separates user from room. Both catalogue rooms
      qualify. */
  lemma TypingKeyInjective(u1: string, r1: Room, u2: string, r2: Room)
    requires '-' !in r1 && '-' !in r2
    requires TypingKey(u1, r1) == TypingKey(u2, r2)
    ensures u1 == u2 && r1 == r2
  {
    var k := TypingKey(u1, r1);
    KeyShape(u1, r1);
    KeyShape(u2, r2);
    assert |u1| == |u2|;
    assert u1 == k[..|u1|] == u2;
    assert r1 == k[|u1| + 1..] == r2;
  }

  /** Within the room catalogue, distinct (user, room) pairs get distinct
      keys. */
  lemma CatalogueKeysDistinct(u1: string, r1: Room, u2: string, r2: Room)
    requires r1 in AVAILABLE_ROOMS && r2 in AVAILABLE_ROOMS
    requires TypingKey(u1, r1) == TypingKey(u2, r2)
    ensures u1 == u2 && r1 == r2
  {
    assert '-' !in "geral" && '-' !in "tecnologia";
    TypingKeyInjective(u1, r1, u2, r2);
  }

  /** In the key of a dash-free room, the separator is the last '-'. */
  lemma KeyShape(u: string, r: Room)
    requires '-' !in r
    ensures TypingKey(u, r)[|u|] == '-'
    ensures forall i :: |u| < i < |TypingKey(u, r)| ==> TypingKey(u, r)[i] != '-'
  {
    var k := TypingKey(u, r);
    forall i | |u| < i < |k|
      ensures k[i] != '-'
    {
      assert k[i] == r[i - |u| - 1];
    }
  }

  /** `socket.to(room)` skips the room named after the sender's id, and
      `join_room` accepts any name: once C joins the room named after A's
      id, A's typing broadcast to that room reaches nobody, C included. */
  lemma RoomNamedAfterSenderIsSkipped(a: SocketId, c: SocketId, stamp: string)
    requires a != c
    ensures var s0 := OnConnect(OnConnect(Initial, a).server, c).server;
      var s1 := OnJoinRoom(s0, c, "Caio", a, stamp).server;
      var r := OnTyping(s1, a, "Ana", Some(true), a);
      && Members(s1, a) == {a, c}
      && DeliveredTo(r.out, c) == []
      && r.out[0].to == {}
  {
    var s0 := OnConnect(OnConnect(Initial, a).server, c).server;
    var s1 := OnJoinRoom(s0, c, "Caio", a, stamp).server;
    assert s1.rooms[c] == {c, a};
    assert s1.rooms[a] == {a};
    var r := OnTyping(s1, a, "Ana", Some(true), a);
    assert r.out[1..] == [];
  }

  /** A and B connect and join "geral"; B's join notice
      reaches A and not B. */
  lemma TwoUsersJoinGeral(a: SocketId, b: SocketId, sa: string, sb: string)
    requires a != b && a != "geral" && b != "geral"
    ensures var s0 := OnConnect(OnConnect(Initial, a).server, b).server;
      var s1 := OnJoinRoom(s0, a, "Ana", "geral", sa).server;
      var r := OnJoinRoom(s1, b, "Bia", "geral", sb);
      DeliveredTo(r.out, a) == [SystemNotice(Notice(JOINED, "Bia", "geral", sb))]
      && DeliveredTo(r.out, b) == []
  {
    var s0 := OnConnect(OnConnect(Initial, a).server, b).server;
    var s1 := OnJoinRoom(s0, a, "Ana", "geral", sa).server;
    var r := OnJoinRoom(s1, b, "Bia", "geral", sb);
    assert s1.rooms[a] == {a, "geral"};
    assert r.out[1..] == [];
  }
}
