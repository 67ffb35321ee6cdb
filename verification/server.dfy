/** The socket.io chat server as a pure state machine. Each handler the
    server registers on a connection maps the current state and one inbound
    event to the next state and an outbox of emits.

    Two facts about socket.io are built into the model:
    - a socket's room set starts as its own id (`Connect`), and
    - a disconnecting socket has already left every room when its
      'disconnect' handler runs (`OnDisconnect` drops it first).
    A typing timer is a handle in the live-timer map; the transport fires it
    with an explicit `TimerFires` event, and a cleared timer never fires. */
module SocketServer {
  import opened Js
  import opened Chat

  type SocketId = string
  type Room = string
  type Handle = nat

  /** The two variables each connection's closure keeps. */
  datatype Session = Session(userName: Option<string>, currentRoom: Option<Room>)

  /** A scheduled typing-expiry callback and what it closed over: the socket
      that scheduled it, the user and the room. */
  datatype PendingTyping = PendingTyping(owner: SocketId, user: string, room: Room)

  datatype Server = Server(
    rooms: map<SocketId, set<Room>>,      // `socket.rooms` of every live socket
    sessions: map<SocketId, Session>,     // `userName` / `currentRoom` of every live socket
    typingTimeouts: map<string, Handle>,  // the one global typing-timer table
    timers: map<Handle, PendingTyping>,   // callbacks scheduled, not cleared and not yet run
    nextTimer: Handle)                    // the handle the next `setTimeout` returns

  /** Outbound events. */
  datatype Payload =
    | SystemNotice(notice: WsMessage)
    | ChatMessage(msg: WsMessage)
    | TypingStatus(user: string, isTyping: bool)

  /** One emit: `event` reaches every socket in `to`. */
  datatype Delivery = Delivery(to: set<SocketId>, event: Payload)

  /** Inbound events: the socket events of one connection, plus the firing
      of a typing timer. Server-side timestamps arrive as `stamp`. */
  datatype Event =
    | Connect(id: SocketId)
    | JoinRoom(id: SocketId, user: string, room: Room, stamp: string)
    | UserLeft(id: SocketId, user: string, room: Room, stamp: string)
    | IncomingMessage(id: SocketId, msg: WsMessage)
    | Typing(id: SocketId, user: string, isTyping: Option<bool>, room: Room)
    | StopTyping(id: SocketId, user: string, room: Room)
    | TimerFires(handle: Handle)
    | Disconnect(id: SocketId, stamp: string)

  datatype Transition = Transition(server: Server, out: seq<Delivery>)

  /** The server before any connection. */
  const Initial: Server := Server(map[], map[], map[], map[], 0)

  /** The sockets whose room set holds `room`. */
  function Members(srv: Server, room: Room): set<SocketId>
  {
    set t | t in srv.rooms && room in srv.rooms[t]
  }

  /** `socket.to(room)`: socket.io broadcasts to `room` except the room
      named after the sender's id, so every socket in that room is left out
      along with the sender, which is in it while connected. */
  function ToRoom(srv: Server, room: Room, sender: SocketId): set<SocketId>
  {
    Members(srv, room) - Members(srv, sender) - {sender}
  }

  /** The payloads that reach socket `t`, in emit order. */
  function DeliveredTo(out: seq<Delivery>, t: SocketId): seq<Payload>
  {
    if out == [] then []
    else (if t in out[0].to then [out[0].event] else []) + DeliveredTo(out[1..], t)
  }

  /** What two emits in a row deliver to each socket. */
  lemma DeliveredToTwo(d0: Delivery, d1: Delivery)
    ensures forall t ::
      DeliveredTo([d0, d1], t) == (if t in d0.to then [d0.event] else []) + (if t in d1.to then [d1.event] else [])
  {
    forall t
      ensures DeliveredTo([d0, d1], t) == (if t in d0.to then [d0.event] else []) + (if t in d1.to then [d1.event] else [])
    {
      assert [d0, d1][1..] == [d1];
      assert [d1][1..] == [];
      assert DeliveredTo([d1], t) == (if t in d1.to then [d1.event] else []) + DeliveredTo([], t);
      assert DeliveredTo([d0, d1], t) == (if t in d0.to then [d0.event] else []) + DeliveredTo([d1], t);
    }
  }

  /** A set of at most one element that holds `x` is `{x}`. */
  lemma SingletonOfSmall<T>(s: set<T>, x: T)
    ensures x in s && |s| <= 1 ==> s == {x}
  {
    if x in s {
      assert s == (s - {x}) + {x};
      assert |s - {x}| == |s| - 1;
    }
  }

  /** The typing-table key `${user}-${room}`. */
  function TypingKey(user: string, room: Room): string
  {
    user + "-" + room
  }

  /** The key a pending callback deletes when it runs. */
  function KeyOf(p: PendingTyping): string
  {
    TypingKey(p.user, p.room)
  }

  /** The connection's closure exists: the socket is connected. */
  predicate Live(srv: Server, id: SocketId)
  {
    id in srv.rooms && id in srv.sessions
  }

  /** Room sets and sessions of every socket other than `id` are the same in
      `a` and `b`, and no socket appeared or vanished besides `id`. */
  ghost predicate OthersUnchanged(a: Server, b: Server, id: SocketId)
  {
    && a.rooms.Keys - {id} == b.rooms.Keys - {id}
    && a.sessions.Keys - {id} == b.sessions.Keys - {id}
    && (forall t :: t in a.rooms && t != id ==> t in b.rooms && b.rooms[t] == a.rooms[t])
    && (forall t :: t in a.sessions && t != id ==> t in b.sessions && b.sessions[t] == a.sessions[t])
  }

  /** The typing table and the live timers are untouched. */
  ghost predicate TimersUnchanged(a: Server, b: Server)
  {
    a.typingTimeouts == b.typingTimeouts && a.timers == b.timers && a.nextTimer == b.nextTimer
  }

  /** The one delivery of `out` carries `event` to exactly the sockets other
      than `sender` whose room set in `srv` holds `room` and not the room
      named `sender`. */
  ghost predicate BroadcastOnce(out: seq<Delivery>, event: Payload, srv: Server, room: Room, sender: SocketId)
  {
    && |out| == 1
    && out[0].event == event
    && (forall t :: t in out[0].to <==> t in srv.rooms && t != sender && room in srv.rooms[t] && sender !in srv.rooms[t])
  }

  /** A new connection: its room set is its own id and its closure starts
      with no user and no room. A reused id is never delivered by the
      transport and is ignored. */
  function OnConnect(srv: Server, id: SocketId): (r: Transition)
    ensures r.out == []
    ensures Live(r.server, id)
    ensures id !in srv.rooms && id !in srv.sessions ==>
      r.server.rooms[id] == {id} && r.server.sessions[id] == Session(None, None)
    ensures OthersUnchanged(srv, r.server, id) && TimersUnchanged(srv, r.server)
  {
    if id in srv.rooms && id in srv.sessions then Transition(srv, [])
    else Transition(srv.(rooms := srv.rooms[id := {id}], sessions := srv.sessions[id := Session(None, None)]), [])
  }

  /** `join_room`: rebind the closure's user and room, leave every room but
      the socket's own id, join `room`, and tell the room's other members.
      The room is not checked against `AVAILABLE_ROOMS`. */
  function OnJoinRoom(srv: Server, id: SocketId, user: string, room: Room, stamp: string): (r: Transition)
    requires Live(srv, id)
    ensures Live(r.server, id)
    ensures r.server.sessions[id] == Session(Some(user), Some(room))
    ensures id in srv.rooms[id] ==> r.server.rooms[id] == {id, room}
    ensures OthersUnchanged(srv, r.server, id) && TimersUnchanged(srv, r.server)
    ensures BroadcastOnce(r.out, SystemNotice(Notice(JOINED, user, room, stamp)), srv, room, id)
  {
    var previous := srv.rooms[id];
    SingletonOfSmall(previous, id);
    // `previousRooms.forEach(r => socket.leave(r))`: every room but the own id
    var kept := if |previous| > 1 then previous * {id} else previous;
    var srv' := srv.(sessions := srv.sessions[id := Session(Some(user), Some(room))],
                     rooms := srv.rooms[id := kept + {room}]);
    Transition(srv', [Delivery(ToRoom(srv', room, id), SystemNotice(Notice(JOINED, user, room, stamp)))])
  }

  /** `user_left`: a notice to the room's other members; membership, the
      closure and the timers stay as they are. */
  function OnUserLeft(srv: Server, id: SocketId, user: string, room: Room, stamp: string): (r: Transition)
    requires Live(srv, id)
    ensures r.server == srv
    ensures BroadcastOnce(r.out, SystemNotice(Notice(LEFT, user, room, stamp)), srv, room, id)
  {
    Transition(srv, [Delivery(ToRoom(srv, room, id), SystemNotice(Notice(LEFT, user, room, stamp)))])
  }

  /** `message`: relayed to the other members of `msg.room`, then echoed to
      the sender; the sender need not be a member of `msg.room`. */
  function OnMessage(srv: Server, id: SocketId, msg: WsMessage): (r: Transition)
    requires Live(srv, id)
    ensures r.server == srv
    ensures DeliveredTo(r.out, id) == [ChatMessage(msg)]
    ensures forall t :: t != id ==>
      DeliveredTo(r.out, t) == (if t in srv.rooms && msg.room in srv.rooms[t] && id !in srv.rooms[t] then [ChatMessage(msg)] else [])
  {
    var d0 := Delivery(ToRoom(srv, msg.room, id), ChatMessage(msg));
    var d1 := Delivery({id}, ChatMessage(msg));
    DeliveredToTwo(d0, d1);
    Transition(srv, [d0, d1])
  }

  /** `typing`: broadcast `!!isTyping` to the room's other members on every
      call, clear the timer stored under the key if any, and store a fresh
      one that the sending socket owns. */
  function OnTyping(srv: Server, id: SocketId, user: string, isTyping: Option<bool>, room: Room): (r: Transition)
    requires Live(srv, id)
    ensures BroadcastOnce(r.out, TypingStatus(user, ToBoolean(isTyping)), srv, room, id)
    ensures r.server.rooms == srv.rooms && r.server.sessions == srv.sessions
    ensures var key := TypingKey(user, room);
      && key in r.server.typingTimeouts
      && r.server.typingTimeouts[key] == srv.nextTimer
      && srv.nextTimer in r.server.timers
      && r.server.timers[srv.nextTimer] == PendingTyping(id, user, room)
      && r.server.typingTimeouts.Keys == srv.typingTimeouts.Keys + {key}
      && (forall k :: k in srv.typingTimeouts && k != key ==> r.server.typingTimeouts[k] == srv.typingTimeouts[k])
    ensures srv.nextTimer < r.server.nextTimer
    ensures forall h :: h in r.server.timers && h != srv.nextTimer ==>
      && h in srv.timers && r.server.timers[h] == srv.timers[h]
      && !(TypingKey(user, room) in srv.typingTimeouts && h == srv.typingTimeouts[TypingKey(user, room)])
    ensures forall h :: h in srv.timers && !(TypingKey(user, room) in srv.typingTimeouts && h == srv.typingTimeouts[TypingKey(user, room)]) ==>
      h in r.server.timers
  {
    var key := TypingKey(user, room);
    var out := [Delivery(ToRoom(srv, room, id), TypingStatus(user, ToBoolean(isTyping)))];
    var timers := if key in srv.typingTimeouts then srv.timers - {srv.typingTimeouts[key]} else srv.timers;
    var h := srv.nextTimer;
    Transition(srv.(typingTimeouts := srv.typingTimeouts[key := h],
                    timers := timers[h := PendingTyping(id, user, room)],
                    nextTimer := h + 1), out)
  }

  /** A typing timer runs: the room named in the `typing` event it closed
      over hears `isTyping: false` for the user, whether or not the owner is
      still connected, and the key the callback closed over is deleted from
      the table. A handle that was
      cleared or already ran does nothing. */
  function OnTimerFires(srv: Server, h: Handle): (r: Transition)
    ensures h !in srv.timers ==> r == Transition(srv, [])
    ensures r.server.nextTimer == srv.nextTimer
    ensures h in srv.timers ==>
      var p := srv.timers[h];
      && BroadcastOnce(r.out, TypingStatus(p.user, false), srv, p.room, p.owner)
      && r.server.rooms == srv.rooms && r.server.sessions == srv.sessions
      && r.server.typingTimeouts == srv.typingTimeouts - {KeyOf(p)}
      && r.server.timers == srv.timers - {h}
  {
    if h !in srv.timers then Transition(srv, [])
    else
      var p := srv.timers[h];
      var out := [Delivery(ToRoom(srv, p.room, p.owner), TypingStatus(p.user, false))];
      Transition(srv.(typingTimeouts := srv.typingTimeouts - {KeyOf(p)}, timers := srv.timers - {h}), out)
  }

  /** `stop_typing`: clear and delete the key's timer if there is one, and
      always broadcast `isTyping: false` to the room's other members. */
  function OnStopTyping(srv: Server, id: SocketId, user: string, room: Room): (r: Transition)
    requires Live(srv, id)
    ensures BroadcastOnce(r.out, TypingStatus(user, false), srv, room, id)
    ensures r.server.rooms == srv.rooms && r.server.sessions == srv.sessions
    ensures r.server.typingTimeouts == srv.typingTimeouts - {TypingKey(user, room)}
    ensures TypingKey(user, room) in srv.typingTimeouts ==>
      r.server.timers == srv.timers - {srv.typingTimeouts[TypingKey(user, room)]}
    ensures TypingKey(user, room) !in srv.typingTimeouts ==> r.server == srv
    ensures r.server.nextTimer == srv.nextTimer
  {
    var key := TypingKey(user, room);
    var out := [Delivery(ToRoom(srv, room, id), TypingStatus(user, false))];
    if key in srv.typingTimeouts then
      Transition(srv.(timers := srv.timers - {srv.typingTimeouts[key]},
                      typingTimeouts := srv.typingTimeouts - {key}), out)
    else Transition(srv, out)
  }

  /** `disconnect`: socket.io has already taken the socket out of every room;
      if the closure holds a truthy user and room, the room's remaining
      members hear "desconectou.". Typing timers are left running. */
  function OnDisconnect(srv: Server, id: SocketId, stamp: string): (r: Transition)
    requires Live(srv, id)
    ensures !Live(r.server, id) && id !in r.server.rooms && id !in r.server.sessions
    ensures OthersUnchanged(srv, r.server, id) && TimersUnchanged(srv, r.server)
    ensures var s := srv.sessions[id];
      && (r.out != [] <==> Truthy(s.userName) && Truthy(s.currentRoom))
      && (r.out != [] ==>
            BroadcastOnce(r.out, SystemNotice(Notice(DISCONNECTED, s.userName.value, s.currentRoom.value, stamp)),
                          srv, s.currentRoom.value, id))
  {
    var s := srv.sessions[id];
    var srv' := srv.(rooms := srv.rooms - {id}, sessions := srv.sessions - {id});
    if Truthy(s.userName) && Truthy(s.currentRoom) then
      var room := s.currentRoom.value;
      Transition(srv', [Delivery(ToRoom(srv', room, id), SystemNotice(Notice(DISCONNECTED, s.userName.value, room, stamp)))])
    else Transition(srv', [])
  }

  /** One event. Socket events for a socket that is not connected are never
      delivered by the transport and are dropped, as is a second connection
      under an id that is live. */
  function Step(srv: Server, ev: Event): (r: Transition)
    ensures !ev.TimerFires? && !ev.Connect? && !Live(srv, ev.id) ==> r == Transition(srv, [])
    ensures ev.Connect? && Live(srv, ev.id) ==> r == Transition(srv, [])
  {
    match ev
    case Connect(id) => OnConnect(srv, id)
    case TimerFires(h) => OnTimerFires(srv, h)
    case JoinRoom(id, user, room, stamp) =>
      if Live(srv, id) then OnJoinRoom(srv, id, user, room, stamp) else Transition(srv, [])
    case UserLeft(id, user, room, stamp) =>
      if Live(srv, id) then OnUserLeft(srv, id, user, room, stamp) else Transition(srv, [])
    case IncomingMessage(id, msg) =>
      if Live(srv, id) then OnMessage(srv, id, msg) else Transition(srv, [])
    case Typing(id, user, isTyping, room) =>
      if Live(srv, id) then OnTyping(srv, id, user, isTyping, room) else Transition(srv, [])
    case StopTyping(id, user, room) =>
      if Live(srv, id) then OnStopTyping(srv, id, user, room) else Transition(srv, [])
    case Disconnect(id, stamp) =>
      if Live(srv, id) then OnDisconnect(srv, id, stamp) else Transition(srv, [])
  }

  /** The state after a sequence of events. */
  function Run(srv: Server, evs: seq<Event>): Server
    decreases |evs|
  {
    if evs == [] then srv else Run(Step(srv, evs[0]).server, evs[1..])
  }
}
