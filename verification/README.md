# Room, presence and typing coordination of chatty-socket-talker, in Dafny

This project models the three pieces of real logic in the chat application.

- **The socket.io server** (`server.ts`, module `SocketServer`) is a pure state machine. Its state is:
  - `socket.rooms` for every connected socket;
  - the per-connection closure variables `userName` and `currentRoom`;
  - the single global `typingTimeouts` table, keyed by the string `user + "-" + room`;
  - the set of live typing timers.

  Each handler (`join_room`, `user_left`, `message`, `typing`, `stop_typing`, `disconnect`) takes the state and one event. It returns the next state and an outbox of `Delivery(to, event)` entries. The firing of a timer is a separate `TimerFires(handle)` event. `socket.to(room).emit` delivers to the room's members except the sockets in the room named after the sender's id; the sender is always in that room while it is connected, so it is left out too. In this model such a delivery is "the room's other members". `socket.emit` delivers to the sender only. `SocketServerProofs` holds the invariant every reachable state keeps and the properties that span several events.
- **The browser hook** `useWebSocket` (`src/hooks/useWebSocket.tsx`, module `ClientHook`) covers one run of the effect. The model has:
  - the room filter for incoming `message` and `system` events;
  - the `typingUsers` list;
  - the single timeout table, shared by remote-typing expiries (keyed by user) and the local typing debounce (keyed by the hook's own name);
  - the cleanup;
  - the `sendMessage` and `handleTyping` guards.

  `ClientHookProofs` holds the invariant and the message-filter theorem over whole event streams.
- **The legacy `ws` relay** (`server.js`, module `LegacyRelay`) keeps a client list. Connections are appended and closed connections are filtered out. Every frame is sent to each OPEN client, the sender included.

`Js` models the JavaScript value semantics the code relies on: nullable strings and their truthiness, `!!`, `String.prototype.trim` (whitespace as defined by ECMA-262) and `Array.prototype.filter`. `Chat` holds the wire message, the notice texts and the room catalogue.

## Modelling decisions

- **Timers.** A timer is a handle in a map of live callbacks. Each callback records what it closed over: the owning socket, the user and the room. `clearTimeout` removes the handle from that map. A cleared or finished handle does nothing when `TimerFires` names it. Time itself is not modelled.
- **socket.io assumptions.** The model builds in three facts about socket.io 4:
  - A new socket's room set is its own id (`OnConnect`).
  - On disconnect, socket.io takes the socket out of every room before the `disconnect` handler runs (`OnDisconnect` drops it first).
  - `socket.to(room)` broadcasts with the room named after the sender's id as its except-room, so every socket in that room is skipped, not only the sender (`SocketServer.ToRoom`). Earlier socket.io versions may skip only the sender.

  `socket.to(room)` still broadcasts after its socket has disconnected, so a surviving typing timer reaches the room.
- **Unknown sockets.** The transport never delivers an event for a socket that is not connected. `Step` drops such events, and it ignores a `Connect` for an id already in use.
- **Timestamps.** Timestamps (`toLocaleTimeString`) arrive as opaque `stamp` strings.

### Behaviour of the code worth noting

- `join_room` never checks `AVAILABLE_ROOMS` (`SocketServerProofs.JoinIgnoresCatalogue`).
- `typing` broadcasts on every call. Nothing debounces it down to a single `true` (`SocketServerProofs.TypingRebroadcasts`).
- `user_left` does not change membership.
- `disconnect` cancels no timer. A timer that is pending at disconnect still fires afterwards and broadcasts `isTyping: false` (`SocketServerProofs.TimerOutlivesDisconnect`).
- `message` echoes to the sender through `socket.emit`, not through the room broadcast. The sender receives its own message exactly once, whether or not it is in `msg.room`.
- `join_room` accepts a room named after another socket's id. A socket in such a room then misses every `socket.to` broadcast from that socket, also when it is a member of the target room (`SocketServerProofs.RoomNamedAfterSenderIsSkipped`).
- The cleanup does not reset `messages` (`src/hooks/useWebSocket.tsx:95-101`). After a room switch, the previous room's messages stay in the list, ahead of the new room's messages.
- The typing key is a string concatenation, so it is not injective. `"a-b"` typing in `"c"` and `"a"` typing in `"b-c"` share one timer slot (`SocketServerProofs.TypingKeyCollides`, `SocketServerProofs.SharedKeyCancelsOtherTimer`). Keys are injective when room names contain no `-`, and this holds for both catalogue rooms (`SocketServerProofs.CatalogueKeysDistinct`).

## Model

| member | source | states |
|---|---|---|
| SocketServer.OnConnect | server.ts:24-26 | a new connection's closure starts with no user and no room, and its room set is exactly its own id; other sockets and the timers are untouched |
| SocketServer.OnJoinRoom | server.ts:28-49 | the closure's user and room become the payload's. The socket's room set becomes exactly {own id, room}, also when re-joining the same room. The "entrou na sala." notice reaches exactly the room's other members (members of the room named after the sender's id excluded). Other sockets and the timers are unchanged |
| SocketServer.OnUserLeft | server.ts:51-59 | "saiu da sala." reaches exactly the room's other members; the state, membership included, is unchanged |
| SocketServer.OnMessage | server.ts:61-65 | the sender receives the message exactly once, whatever its membership. Every other socket receives it once if it is in `msg.room` and not in the room named after the sender's id, and not at all otherwise. The state is unchanged |
| SocketServer.OnTyping | server.ts:67-74 | `{user, !!isTyping}` goes to the room's other members on every call. The key's previous timer is cleared. A fresh timer owned by the sender is stored under the key. All other keys and timers are unchanged |
| SocketServer.OnTimerFires | server.ts:70-73 | a live timer broadcasts `isTyping: false` to the other members of the room named in the `typing` event it closed over (not necessarily the owner's current room), leaving the owner out, deletes its key and stops being live; a cleared or finished timer does nothing |
| SocketServer.OnStopTyping | server.ts:76-82 | the key is removed from the table and its timer is cleared. `isTyping: false` is broadcast whether or not a timer existed. With no timer for the key the state is unchanged |
| SocketServer.OnDisconnect | server.ts:84-94 | the socket leaves every room and its closure is gone. "desconectou." goes to the remaining room members if and only if both user and room are truthy. The typing table and timers are untouched |
| SocketServerProofs.StepKeepsValid | server.ts:16-94 | every event preserves the invariant: each room set is {own id} plus the closure's current room, and the typing table is in one-to-one correspondence with the live timers |
| SocketServerProofs.ReachableValid | server.ts:24-26 | every state reachable from the empty server satisfies the invariant |
| SocketServerProofs.AtMostOneChatRoom | server.ts:33-39 | a connected socket is in at most one room besides its own id, and that room is the one its closure last joined |
| SocketServerProofs.MembersAreCurrentRoomHolders | server.ts:29-39 | for a room name that is no socket id, the members are exactly the sockets whose `currentRoom` is that room |
| SocketServerProofs.OneLiveTimerPerKey | server.ts:69-72 | two live typing timers never share a key |
| SocketServerProofs.RejoinKeepsOneRoom | server.ts:33-39 | after two joins in a row the socket's room set is exactly {own id, second room} |
| SocketServerProofs.JoinIgnoresCatalogue | server.ts:19-22 | a room outside `AVAILABLE_ROOMS` is joined like any other |
| SocketServerProofs.StopTypingIdempotent | server.ts:76-82 | a second `stop_typing` for the same key leaves the state as the first left it and repeats the same broadcast |
| SocketServerProofs.TypingRebroadcasts | server.ts:67-68 | two `typing: true` events give every other room member outside the room named after the sender's id two `isTyping: true` deliveries |
| SocketServerProofs.StopTypingCancelsTimer | server.ts:69-80 | `typing` followed by `stop_typing` for the same pair leaves no live timer, so the expiry never fires |
| SocketServerProofs.TimerOutlivesDisconnect | server.ts:67-94 | a timer started before `disconnect` is still live after it, and firing it tells the room the user stopped typing |
| SocketServerProofs.NoSelfNotification | server.ts:28-94 | for join, leave, typing, stop-typing and disconnect events, no delivery reaches the socket that caused it |
| SocketServerProofs.NoSelfNotificationOnExpiry | server.ts:70-73 | a timer's broadcast never reaches the socket that started it |
| SocketServerProofs.TypingKeyCollides | server.ts:69 | two distinct (user, room) pairs produce the same key |
| SocketServerProofs.SharedKeyCancelsOtherTimer | server.ts:67-73 | a `typing` event for one pair clears the pending timer of a different pair that has the same key |
| SocketServerProofs.TypingKeyInjective | server.ts:69-72 | if neither room name contains '-', equal keys mean equal users and equal rooms |
| SocketServerProofs.CatalogueKeysDistinct | server.ts:19-22 | for rooms in the catalogue, equal keys mean equal (user, room) pairs |
| SocketServer.Step | server.ts:24-28 | an event from a socket that is not connected, and a second connection under a live id, change nothing and send nothing |
| SocketServerProofs.RoomNamedAfterSenderIsSkipped | server.ts:28-39 | once C has joined the room named after A's id, A's `typing` broadcast to that room has no recipient, C included, although C is a member |
| SocketServerProofs.TwoUsersJoinGeral | server.ts:28-49 | after A joins "geral", B's join notice reaches A and not B |
| ClientHook.Step | src/hooks/useWebSocket.tsx:33-37 | without a truthy name and room every event, `sendMessage` and `handleTyping` included, leaves the hook as it was and emits nothing; no event changes the name or the room |
| ClientHookProofs.NoSocketIsInert | src/hooks/useWebSocket.tsx:26-37 | a hook mounted without a truthy name and room stays in its initial state over any event sequence and never emits anything |
| ClientHook.OnConnected | src/hooks/useWebSocket.tsx:39-43 | on connect the hook is marked connected, emits `join_room` with its name and room, and nothing else changes |
| ClientHook.OnDisconnected | src/hooks/useWebSocket.tsx:45-48 | on disconnect only the connected flag changes |
| ClientHook.OnIncomingMessage | src/hooks/useWebSocket.tsx:54-58 | the message is appended at the end if and only if its room is the hook's room. Earlier messages are kept in order and nothing else changes |
| ClientHook.OnIncomingSystem | src/hooks/useWebSocket.tsx:60-64 | the notice is appended if and only if its room matches and it is not the user's own "entrou na sala." notice. Earlier messages are kept |
| ClientHook.OnIncomingTyping | src/hooks/useWebSocket.tsx:66-93 | an empty user or the hook's own name leaves the state unchanged. `true` adds the user only if absent and replaces their timeout. `false` removes every occurrence of the user, keeps the others in order, and cancels and deletes their timeout. The table gains no key besides the user's, and other users' entries are unchanged |
| ClientHook.OnTimerFires | src/hooks/useWebSocket.tsx:82-125 | a remote expiry removes that user from the list, keeps every other user in order and adds nobody, and deletes only that user's entry and callback. The local debounce emits `stop_typing`, deletes the entry under the hook's name, and cancels only its own callback and the one stored under the name; every other pending callback survives. A dead handle does nothing |
| ClientHook.OnSendMessage | src/hooks/useWebSocket.tsx:104-115 | nothing is emitted if and only if the name is falsy, the room is falsy, or the text is all whitespace. Otherwise it emits the untrimmed message and then `stop_typing`, in that order. Hook state is untouched |
| ClientHook.OnHandleTyping | src/hooks/useWebSocket.tsx:117-126 | without a truthy name and room it does nothing. Otherwise it emits `typing: true`, clears the timeout under the name, and stores a fresh debounce there |
| ClientHook.OnCleanup | src/hooks/useWebSocket.tsx:95-101 | emits `user_left` before the disconnect, cancels exactly the callbacks stored in the table, and leaves an empty table and an empty typing list; the message list is kept |
| ClientHookProofs.StepKeepsValid | src/hooks/useWebSocket.tsx:66-126 | every event preserves the invariant: the typing list has no duplicates and never holds "" or the own name, and the table is in one-to-one correspondence with the live callbacks |
| ClientHookProofs.ReachableValid | src/hooks/useWebSocket.tsx:26-33 | every state reached after the hook mounts satisfies the invariant |
| ClientHookProofs.TypingUsersArePendingExpiries | src/hooks/useWebSocket.tsx:70-91 | a user is in `typingUsers` if and only if their expiry timeout is pending |
| ClientHookProofs.OneTimeoutPerKey | src/hooks/useWebSocket.tsx:79-91 | no two live callbacks belong to the same user, and at most one belongs to the own name |
| ClientHookProofs.TimersAreTableValues | src/hooks/useWebSocket.tsx:80-98 | in a reachable state every pending callback is stored in the table, so the table's values are exactly the pending callbacks |
| ClientHookProofs.NothingRunsAfterCleanup | src/hooks/useWebSocket.tsx:98-99 | in a reachable state, clearing the table's values cancels every pending callback: after the cleanup none is left and no timer has any effect |
| ClientHookProofs.MessagesAreFiltered | src/hooks/useWebSocket.tsx:54-64 | over any event sequence the message list grows by exactly the room-matching messages and the notices other than the own join notice, in arrival order |
| Js.TrimEmptyIffBlank | src/hooks/useWebSocket.tsx:105 | `text.trim()` is empty if and only if every character is ECMAScript whitespace |
| LegacyRelay.OnConnection | server.js:7-8 | a new connection is appended at the end and the earlier clients stay in place |
| LegacyRelay.OnClose | server.js:19-21 | the closed connection is no longer listed, and every other client is still listed |
| LegacyRelay.OnMessage | server.js:10-17 | every OPEN client, the sender included, is sent the frame unchanged. Clients that are not OPEN are sent nothing. Sends follow list order |
| LegacyRelay.ConnectThenClose | server.js:8-21 | a connection that opens and then closes leaves the client list as it was |
| LegacyRelay.CloseKeepsOrder | server.js:19-21 | closing removes exactly that entry, and the other clients keep their original order |
| LegacyRelay.ListStaysDuplicateFree | server.js:7-21 | with fresh connections the client list never lists a connection twice |
| LegacyRelay.OpenClientsOnce | server.js:12-16 | a duplicate-free list gives a duplicate-free broadcast, so each OPEN client receives each frame exactly once |

## Left out

- Transport mechanics are not modelled: socket.io and `ws` connection setup, reconnection, CORS, and the port choice (`server.ts:7-13`, `server.ts:97-101`, `server.js:3`). Emits are outbox entries.
- Timer durations (2500 ms) and wall-clock time are not modelled. A timer is a live handle that fires only through an explicit event.
- Timestamps are opaque strings supplied with the event.
- Toasts, `connect_error`, React rendering, and the room display labels (`ROOM_NAMES`, used only in a toast) are left out, because they are presentation.
- The components, pages and `ChatWindow.tsx` are left out: `ChatWindow.tsx` depends on `Math.random` and `sessionStorage`, and the rest is UI.
- Malformed payloads are left out. The model has no crash state, and it assumes every payload is present with string fields. Two cases behave differently in the real server:
  - A missing payload makes the handler throw. This covers `join_room`, `user_left`, `typing` or `stop_typing` with no argument, and `message` with a null payload (`server.ts:28`, `:51`, `:63`, `:67`, `:76`). No handler catches the TypeError, so the Node process exits, and every connection and the whole typing table go with it.
  - Fields of the wrong type do not throw. An array `room` in `join_room` is joined and broadcast to element by element (`server.ts:39`, `:42`), so the socket then sits in several chat rooms at once.
- SocketServerProofs.AtMostOneChatRoom: holds only when room names are strings; an array `room` puts a socket in several chat rooms.
- SocketServerProofs.MembersAreCurrentRoomHolders: holds only when room names are strings, for the same reason.
- SocketServer.OnTyping: `!!isTyping` is modelled for a boolean or an absent flag only. Other JavaScript values that are truthy or falsy are not modelled.
- ClientHook.OnIncomingTyping: a typing user named `"__proto__"` is not modelled. `typingTimeouts.current` is a plain object: reading that key yields `Object.prototype`, which is truthy, and assigning the timer id to it is ignored, so such a user's expiry is never stored, never cleared by a later event, and missed by the cleanup. The model's table is a map that stores every key.
- ClientHook.OnHandleTyping: the same holds for a hook whose own name is `"__proto__"`: its debounce timeouts are never stored or cleared.
- ClientHookProofs.OneTimeoutPerKey: holds for every name except `"__proto__"`, for the reason above.
- ClientHookProofs.NothingRunsAfterCleanup: holds for every name except `"__proto__"`, for the reason above.
- ClientHook.OnSendMessage: emits made after the cleanup are still recorded. socket.io-client would buffer them on the disconnected socket and never send them.
- A change of name or room re-runs the effect after `OnCleanup`. The new run starts from `Mount(name, room).(messages := <the previous list>)`, because `messages` is component state that the cleanup does not reset. The model's lemmas start from `Mount`, whose list is empty. `MessagesAreFiltered` holds from any starting list. The hook's exported `setMessages` is not modelled.
