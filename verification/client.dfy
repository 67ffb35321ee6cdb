/** The browser hook `useWebSocket`, for one run of its effect: the name and
    room are fixed, the socket exists only when both are truthy, and the
    hook keeps the message list, the list of remote users typing, and one
    timeout table shared by the remote-typing expiries (keyed by user) and
    the local typing debounce (keyed by the hook's own name). React state
    updates are applied in order; what the hook emits to the server is an
    outbox. */
module ClientHook {
  import opened Js
  import opened Chat

  type Handle = nat

  /** What a pending `setTimeout` callback of the hook does when it runs. */
  datatype Timeout =
    | ClearRemoteTyping(user: string)  // a remote user's indicator expires
    | SendStopTyping                   // the local typing debounce ends

  /** Events the hook sends to the server. */
  datatype Emit =
    | EmitJoinRoom(user: string, room: string)
    | EmitUserLeft(user: string, room: string)
    | EmitMessage(msg: WsMessage)
    | EmitTyping(user: string, isTyping: bool, room: string)
    | EmitStopTyping(user: string, room: string)
    | EmitDisconnect

  datatype Hook = Hook(
    name: Option<string>,
    currentRoom: Option<string>,
    connected: bool,
    messages: seq<WsMessage>,
    typingUsers: seq<string>,
    typingTimeouts: map<string, Handle>,  // `typingTimeouts.current`
    timers: map<Handle, Timeout>,         // callbacks scheduled, not cleared and not yet run
    nextTimer: Handle)

  /** Socket callbacks, timer callbacks, and the calls the UI makes. */
  datatype Event =
    | Connected
    | Disconnected
    | IncomingMessage(data: WsMessage)
    | IncomingSystem(data: WsMessage)
    | IncomingTyping(user: string, isTyping: bool)
    | TimerFires(handle: Handle)
    | SendMessage(text: string, stamp: string)
    | HandleTyping
    | Cleanup

  datatype Reaction = Reaction(hook: Hook, emitted: seq<Emit>)

  /** The hook's state when its effect starts. */
  function Mount(name: Option<string>, currentRoom: Option<string>): Hook
  {
    Hook(name, currentRoom, false, [], [], map[], map[], 0)
  }

  /** The effect created a socket: name and room are both truthy. */
  predicate HasSocket(h: Hook)
  {
    Truthy(h.name) && Truthy(h.currentRoom)
  }

  /** `data.room === currentRoom`. */
  predicate InRoom(h: Hook, data: WsMessage)
  {
    h.currentRoom == Some(data.room)
  }

  /** A join notice carrying the hook's own name, such as one from a second
      tab with the same name; the hook hides it. */
  predicate IsOwnJoinNotice(h: Hook, data: WsMessage)
  {
    data.kind == System && data.text == JOINED && h.name == Some(data.user)
  }

  /** Only the state's lists, table and timers may differ. */
  ghost predicate Frame(a: Hook, b: Hook)
  {
    a.name == b.name && a.currentRoom == b.currentRoom && a.connected == b.connected
  }

  /** The socket is connected: mark it and ask to join the room. */
  function OnConnected(h: Hook): (r: Reaction)
    requires HasSocket(h)
    ensures r.hook.connected
    ensures r.emitted == [EmitJoinRoom(h.name.value, h.currentRoom.value)]
    ensures r.hook.(connected := h.connected) == h
  {
    Reaction(h.(connected := true), [EmitJoinRoom(h.name.value, h.currentRoom.value)])
  }

  /** The socket dropped: only the flag changes. */
  function OnDisconnected(h: Hook): (r: Reaction)
    requires HasSocket(h)
    ensures !r.hook.connected && r.emitted == []
    ensures r.hook.(connected := h.connected) == h
  {
    Reaction(h.(connected := false), [])
  }

  /** A `message` event is appended exactly when it is for the hook's room. */
  function OnIncomingMessage(h: Hook, data: WsMessage): (r: Reaction)
    requires HasSocket(h)
    ensures r.emitted == [] && r.hook.(messages := h.messages) == h
    ensures |r.hook.messages| >= |h.messages| && r.hook.messages[..|h.messages|] == h.messages
    ensures r.hook.messages != h.messages <==> data.room == h.currentRoom.value
    ensures r.hook.messages != h.messages ==> r.hook.messages == h.messages + [data]
  {
    if InRoom(h, data) then Reaction(h.(messages := h.messages + [data]), [])
    else Reaction(h, [])
  }

  /** A `system` event is appended exactly when it is for the hook's room
      and is not the user's own "entrou na sala." notice. */
  function OnIncomingSystem(h: Hook, data: WsMessage): (r: Reaction)
    requires HasSocket(h)
    ensures r.emitted == [] && r.hook.(messages := h.messages) == h
    ensures |r.hook.messages| >= |h.messages| && r.hook.messages[..|h.messages|] == h.messages
    ensures r.hook.messages != h.messages <==>
      data.room == h.currentRoom.value && !(data.kind == System && data.text == JOINED && data.user == h.name.value)
    ensures r.hook.messages != h.messages ==> r.hook.messages == h.messages + [data]
  {
    if InRoom(h, data) && !IsOwnJoinNotice(h, data) then Reaction(h.(messages := h.messages + [data]), [])
    else Reaction(h, [])
  }

  /** A `typing` event about another user. An empty user or the user's own
      name is ignored. `isTyping: true` adds the user once and (re)starts
      their expiry; `isTyping: false` removes every occurrence of the user
      and cancels their expiry. */
  function OnIncomingTyping(h: Hook, user: string, isTyping: bool): (r: Reaction)
    requires HasSocket(h)
    ensures r.emitted == [] && Frame(h, r.hook) && r.hook.messages == h.messages
    ensures user == "" || user == h.name.value ==> r.hook == h
    ensures user != "" && user != h.name.value && isTyping ==>
      && (user in h.typingUsers ==> r.hook.typingUsers == h.typingUsers)
      && (user !in h.typingUsers ==> r.hook.typingUsers == h.typingUsers + [user])
      && r.hook.typingTimeouts == h.typingTimeouts[user := h.nextTimer]
      && h.nextTimer < r.hook.nextTimer
      && h.nextTimer in r.hook.timers && r.hook.timers[h.nextTimer] == ClearRemoteTyping(user)
      && (user in h.typingTimeouts ==> r.hook.timers == (h.timers - {h.typingTimeouts[user]})[h.nextTimer := ClearRemoteTyping(user)])
      && (user !in h.typingTimeouts ==> r.hook.timers == h.timers[h.nextTimer := ClearRemoteTyping(user)])
    ensures user != "" && user != h.name.value && !isTyping ==>
      && r.hook.typingUsers == Without(h.typingUsers, user)
      && r.hook.typingTimeouts == h.typingTimeouts - {user}
      && (user in h.typingTimeouts ==> r.hook.timers == h.timers - {h.typingTimeouts[user]})
      && (user !in h.typingTimeouts ==> r.hook.timers == h.timers)
      && r.hook.nextTimer == h.nextTimer
    ensures forall k :: k in h.typingTimeouts && k != user ==>
      k in r.hook.typingTimeouts && r.hook.typingTimeouts[k] == h.typingTimeouts[k]
  {
    if user == "" || h.name == Some(user) then Reaction(h, [])
    else if isTyping then
      var users := if user in h.typingUsers then h.typingUsers else h.typingUsers + [user];
      var timers := if user in h.typingTimeouts then h.timers - {h.typingTimeouts[user]} else h.timers;
      var t := h.nextTimer;
      Reaction(h.(typingUsers := users,
                  typingTimeouts := h.typingTimeouts[user := t],
                  timers := timers[t := ClearRemoteTyping(user)],
                  nextTimer := t + 1), [])
    else if user in h.typingTimeouts then
      Reaction(h.(typingUsers := Without(h.typingUsers, user),
                  typingTimeouts := h.typingTimeouts - {user},
                  timers := h.timers - {h.typingTimeouts[user]}), [])
    else Reaction(h.(typingUsers := Without(h.typingUsers, user)), [])
  }

  /** A timer callback runs. A remote expiry drops that user from the list
      and deletes their entry; the local debounce emits `stop_typing` and
      deletes the entry under the hook's name. A cleared or finished
      handle does nothing. */
  function OnTimerFires(h: Hook, t: Handle): (r: Reaction)
    requires HasSocket(h)
    ensures Frame(h, r.hook) && r.hook.messages == h.messages && r.hook.nextTimer == h.nextTimer
    ensures t !in h.timers ==> r == Reaction(h, [])
    ensures t in h.timers && h.timers[t].ClearRemoteTyping? ==>
      var u := h.timers[t].user;
      && r.emitted == []
      && r.hook.typingUsers == Without(h.typingUsers, u)
      && r.hook.typingTimeouts == h.typingTimeouts - {u}
      && r.hook.timers == h.timers - {t}
    ensures t in h.timers && h.timers[t].SendStopTyping? ==>
      && r.emitted == [EmitStopTyping(h.name.value, h.currentRoom.value)]
      && r.hook.typingUsers == h.typingUsers
      && r.hook.typingTimeouts == h.typingTimeouts - {h.name.value}
      && r.hook.timers ==
           (if h.name.value in h.typingTimeouts then h.timers - {h.typingTimeouts[h.name.value]} else h.timers) - {t}
  {
    if t !in h.timers then Reaction(h, [])
    else match h.timers[t]
      case ClearRemoteTyping(u) =>
        Reaction(h.(typingUsers := Without(h.typingUsers, u),
                    typingTimeouts := h.typingTimeouts - {u},
                    timers := h.timers - {t}), [])
      case SendStopTyping =>
        var key := h.name.value;
        // `clearTimeout(typingTimeouts.current[name])`, then the delete
        var timers := if key in h.typingTimeouts then h.timers - {h.typingTimeouts[key]} else h.timers;
        Reaction(h.(typingTimeouts := h.typingTimeouts - {key}, timers := timers - {t}),
                 [EmitStopTyping(key, h.currentRoom.value)])
  }

  /** `sendMessage(text)`: nothing without a name, a room, or text that is
      not all whitespace; otherwise the message (text untrimmed) and then
      `stop_typing`. The hook's own state is untouched. */
  function OnSendMessage(h: Hook, text: string, stamp: string): (r: Reaction)
    ensures r.hook == h
    ensures r.emitted == [] <==> !HasSocket(h) || IsBlank(text)
    ensures r.emitted != [] ==>
      r.emitted == [EmitMessage(WsMessage(Message, text, h.name.value, stamp, h.currentRoom.value)),
                    EmitStopTyping(h.name.value, h.currentRoom.value)]
  {
    TrimEmptyIffBlank(text);
    if !Truthy(h.name) || Trim(text) == "" || !Truthy(h.currentRoom) then Reaction(h, [])
    else
      var name := h.name.value;
      var room := h.currentRoom.value;
      Reaction(h, [EmitMessage(WsMessage(Message, text, name, stamp, room)), EmitStopTyping(name, room)])
  }

  /** `handleTyping()`: nothing without a name and a room; otherwise emit
      `typing: true` and restart the local debounce under the hook's name. */
  function OnHandleTyping(h: Hook): (r: Reaction)
    ensures Frame(h, r.hook) && r.hook.messages == h.messages && r.hook.typingUsers == h.typingUsers
    ensures !HasSocket(h) ==> r == Reaction(h, [])
    ensures HasSocket(h) ==>
      var key := h.name.value;
      && r.emitted == [EmitTyping(key, true, h.currentRoom.value)]
      && h.nextTimer < r.hook.nextTimer
      && r.hook.typingTimeouts == h.typingTimeouts[key := h.nextTimer]
      && h.nextTimer in r.hook.timers && r.hook.timers[h.nextTimer] == SendStopTyping
      && (key in h.typingTimeouts ==> r.hook.timers == (h.timers - {h.typingTimeouts[key]})[h.nextTimer := SendStopTyping])
      && (key !in h.typingTimeouts ==> r.hook.timers == h.timers[h.nextTimer := SendStopTyping])
  {
    if !Truthy(h.name) || !Truthy(h.currentRoom) then Reaction(h, [])
    else
      var key := h.name.value;
      var timers := if key in h.typingTimeouts then h.timers - {h.typingTimeouts[key]} else h.timers;
      var t := h.nextTimer;
      Reaction(h.(typingTimeouts := h.typingTimeouts[key := t], timers := timers[t := SendStopTyping], nextTimer := t + 1),
               [EmitTyping(key, true, h.currentRoom.value)])
  }

  /** The effect's cleanup: announce leaving, disconnect (whose listener
      clears `connected`), clear the timeouts stored in the table, empty the
      table and the typing list. A callback not stored in the table would
      survive; in a reachable state there is none. */
  function OnCleanup(h: Hook): (r: Reaction)
    requires HasSocket(h)
    ensures r.emitted == [EmitUserLeft(h.name.value, h.currentRoom.value), EmitDisconnect]
    ensures r.hook.timers == h.timers - h.typingTimeouts.Values
    ensures r.hook.typingTimeouts == map[] && r.hook.typingUsers == []
    ensures !r.hook.connected && r.hook.messages == h.messages
    ensures r.hook.name == h.name && r.hook.currentRoom == h.currentRoom && r.hook.nextTimer == h.nextTimer
  {
    var leave := if Truthy(h.name) && Truthy(h.currentRoom) then [EmitUserLeft(h.name.value, h.currentRoom.value)] else [];
    Reaction(h.(connected := false, timers := h.timers - h.typingTimeouts.Values, typingTimeouts := map[], typingUsers := []), leave + [EmitDisconnect])
  }

  /** One event. Socket and timer callbacks exist only when the effect
      created a socket; `sendMessage` and `handleTyping` guard themselves,
      so without a socket no event has any effect. No event changes the
      name or the room the effect runs for. */
  function Step(h: Hook, ev: Event): (r: Reaction)
    ensures !HasSocket(h) ==> r == Reaction(h, [])
    ensures r.hook.name == h.name && r.hook.currentRoom == h.currentRoom
  {
    match ev
    case SendMessage(text, stamp) => OnSendMessage(h, text, stamp)
    case HandleTyping => OnHandleTyping(h)
    case Connected => if HasSocket(h) then OnConnected(h) else Reaction(h, [])
    case Disconnected => if HasSocket(h) then OnDisconnected(h) else Reaction(h, [])
    case IncomingMessage(data) => if HasSocket(h) then OnIncomingMessage(h, data) else Reaction(h, [])
    case IncomingSystem(data) => if HasSocket(h) then OnIncomingSystem(h, data) else Reaction(h, [])
    case IncomingTyping(user, isTyping) => if HasSocket(h) then OnIncomingTyping(h, user, isTyping) else Reaction(h, [])
    case TimerFires(t) => if HasSocket(h) then OnTimerFires(h, t) else Reaction(h, [])
    case Cleanup => if HasSocket(h) then OnCleanup(h) else Reaction(h, [])
  }

  /** The hook after a sequence of events. */
  function Run(h: Hook, evs: seq<Event>): Hook
    decreases |evs|
  {
    if evs == [] then h else Run(Step(h, evs[0]).hook, evs[1..])
  }
}
