# Chat relay server: session registry, `/ban` and the IP ban gate

This project models the server of a small socket.io chat relay (`server.js`) in Dafny
and proves properties of the model.

The server holds two pieces of state:
- the `users` object, from socket id to `{ name, ip }`;
- the `banlist` Set of banned IP addresses, loaded from a file at startup.

Around that state it runs:

- **the connection gate** (`io.use`). It takes the first non-empty value of the
  `x-forwarded-for` header, the `cf-connecting-ip` header and the socket address, and
  normalises it with `normalizeIp`. It refuses the connection when the result is
  banned; otherwise it attaches the result to the socket. The connection handler then
  keeps that address (or the normalised socket address when it is empty) and sends a
  welcome notice.
- **`join`**, which registers the socket under a display name and broadcasts the
  roster: every session's name with its address masked by `maskIp`.
- **`chat message`**, which drops messages from sockets that have not joined. Messages
  from the admin name `TemMoose` whose first white-space-separated word is `/ban` in any
  case run the ban command (`/banana bob` is an ordinary message). Everything else is
  relayed unchanged to everyone.
- **`/ban <name>`**, which takes every session registered under the name in key order.
  For each one it adds the session's normalised address to the ban set, sends it
  `banned` and disconnects it. socket.io runs the socket's own `disconnect` handler
  before `disconnect(true)` returns, so that handler deletes the entry and rebroadcasts
  the roster there and then; the loop's own `delete` then finds nothing to delete.
  Afterwards it saves the ban set, announces the ban, tells the admin which addresses
  were banned and rebroadcasts the roster.
- **`disconnect`**, which forgets a registered socket and rebroadcasts the roster.

The model has three layers:

1. The JavaScript string built-ins and address helpers the server uses, as functions
   with lemmas: `trim`, `split`, `split(/\s+/)`, `join`, `toLowerCase`,
   `normalizeIp` and `maskIp` (modules `JsString`, `NetAddress`).
2. Every handler as a pure step from one server state (`ServerState.Registry`) to the
   next, together with the events it emits in order (modules `Sessions`, `Events`,
   `Gate`, `Dispatch`, `Ban`, `Handlers`). The properties of the server are proved as
   lemmas about these steps. The events are the server's `emit` and `disconnect` calls,
   not deliveries: when the admin bans their own name, their socket is closed inside
   the loop, and socket.io drops the notices later addressed to it, which the event
   list still records.
3. A class `ChatServer.Server` whose fields are updated in place as the source updates
   `users` and `banlist`. Each handler method, including the loop of `/ban`, is proved
   to leave exactly the state, and emit exactly the events, of the matching step.

Key order matters: `Object.values` and `Object.entries` list integer-like keys first,
in ascending order, and all other keys in insertion order. socket.io's socket ids are
20-character strings, never integer-like, so they come in insertion order, and the
roster order and the order in which `/ban` visits its targets follow it. The model
therefore keeps `users` as a map together with a duplicate-free sequence of its
keys (`Sessions.KeyOrder`). The JavaScript `Set` `bannedIps` is modelled as a
duplicate-free sequence in insertion order (`Ban.Dedup`), because its contents are
printed in that order.

Two properties of the source are stated as lemmas rather than corrected. Both need a
client to choose its own forwarded-for header. Any client can: the gate reads the raw
handshake header, which `app.set('trust proxy', true)` does not touch (that setting
only affects Express's `req.ip`), so a client can always pick the key the gate checks:
- `normalizeIp` is not idempotent: `::ffff:::ffff:10.0.0.5` loses one prefix per call.
  The ban handler normalises the already normalised stored address again, so the key
  it bans can differ from the key the gate checks (`Ban.DoublyMappedEscapesBan`). When
  the gate key does not start with the prefix, a ban does stick
  (`Ban.BanRefusesReconnect`).
- A forwarded-for header of `","` normalises to the empty key. The gate then checks
  `""`, while the session is stored under the normalised socket address
  (`Gate.EmptyKeyAdmitsBannedAddress`).

Three behaviours of `server.js` worth knowing, which the model follows:
- The gate sends a refused connection no `banned` event: it only fails the handshake,
  with error `ip_banned` and code `IP_BANNED`.
- `/ban` has no quoting: the target is the words after `/ban` joined with single
  spaces and trimmed, so runs of white space inside a name collapse to one space.
- The ban file is written directly, not atomically, and a failed write is only logged.

## Model

| member | source | states |
|---|---|---|
| JsString.Trim | server.js:40 | `trim` returns the contiguous middle of the string that neither starts nor ends with white space; everything cut off on either side is white space |
| JsString.TrimPadded | server.js:97 | trimming white-space padding around a core that neither starts nor ends with white space gives exactly that core |
| JsString.Split | server.js:40 | `split` on one character gives at least one piece, and no piece contains the separator |
| JsString.JoinSplit | server.js:49-50 | joining the pieces of a split with the separator gives back the original string |
| JsString.SplitJoin | server.js:47-50 | splitting a join of separator-free pieces gives back the pieces |
| JsString.SplitWs | server.js:98 | `split(/\s+/)` gives at least one piece, and no piece contains white space |
| JsString.SplitWsCons | server.js:98 | a word, a run of white space and a rest that starts with a non-space split into the word followed by the split of the rest |
| JsString.ToLowerAscii | server.js:99 | no contract of its own: `toLowerCase` on ASCII letters; its behaviour on the command word is stated by `JsString.LowersToBan` |
| JsString.Join | server.js:103 | no contract of its own: `join`; its behaviour is stated by `JsString.JoinSplit`, `JsString.SplitJoin`, `JsString.JoinSpaced` and `JsString.JoinWordsTrimmed` |
| JsString.SpacedEnds | server.js:98 | words separated by runs of white space neither start nor end with white space |
| JsString.SplitWsSpaced | server.js:98 | `split(/\s+/)` of words separated by non-empty runs of white space gives back exactly those words |
| JsString.JoinSpaced | server.js:103 | joining words with one separator is spacing them with that separator in every gap |
| JsString.JoinWordsTrimmed | server.js:103 | words joined by single spaces give a non-empty string that trimming leaves unchanged |
| JsString.LowersToBan | server.js:99-102 | a word lowercases to `/ban` exactly when it is `/` followed by `b`, `a`, `n` in any mixture of cases |
| NetAddress.NormalizeIp | server.js:37-43 | the result never contains a comma; `""` stays `""`; an address without a comma or mapped prefix is unchanged; without a comma, one leading `::ffff:` is removed |
| NetAddress.NormalizeChain | server.js:40-41 | for a chain whose first comma is at `k`, the key is the text before it, trimmed, with one leading `::ffff:` removed |
| NetAddress.NormalizeNotIdempotent | server.js:41 | a doubly mapped address loses one prefix per normalisation, so normalising twice differs from normalising once |
| NetAddress.NormalizeStable | server.js:37-43 | normalising a normalised address changes nothing unless it still starts with `::ffff:` |
| NetAddress.MaskIp | server.js:45-52 | no contract of its own: `maskIp`; its behaviour is stated by `NetAddress.MaskKeeps`, `NetAddress.MaskDottedQuad`, `NetAddress.MaskColonGroups` and `NetAddress.MaskColonCase` |
| NetAddress.MaskKeeps | server.js:45-52 | `""` masks to `""`; an address that is neither a dotted quad nor has four `:`-separated pieces is shown unmasked |
| NetAddress.MaskDottedQuad | server.js:47-48 | four digit runs `a.b.c.d` are masked to `a.b.c.xxx` |
| NetAddress.MaskColonGroups | server.js:49-50 | `a:b:c:rest` with colon-free `a`, `b`, `c` is masked to `a:b:c:xxxx`, whatever `rest` holds |
| NetAddress.MaskColonCase | server.js:49-50 | any address with at least four `:`-separated pieces is masked to its first three pieces joined by `:` plus `:xxxx` |
| NetAddress.ColonNotDottedQuad | server.js:47-50 | an address containing a colon never matches the dotted-quad pattern, so the IPv6 branch is the only one that applies to it |
| NetAddress.DottedQuadShape | server.js:47 | a dotted quad is its four digit runs joined by dots and contains no colon |
| Sessions.DropKeepsOrder | server.js:136 | deleting keys from `users` and the same ids from the key order keeps every key listed exactly once |
| Sessions.DropDrop | server.js:136 | deleting two sets of keys one after the other is deleting their union |
| Sessions.PutKeepsOrder | server.js:85 | after `users[sid] = ...`, with the new key placed last and an existing key left where it was, every key is still listed exactly once |
| Sessions.Roster | server.js:55 | no contract of its own: the masked roster in key order; its behaviour is stated by `Sessions.RosterOnePerSession` |
| Sessions.RosterOnePerSession | server.js:54-57 | the roster has one element per registered socket, and each registered socket appears in it with its name and masked address |
| Sessions.Targets | server.js:110 | the ban targets are exactly the registered sockets whose name equals the target name, each listed once |
| Sessions.TargetsAreNamed | server.js:110-111 | the targets are the sockets registered under the name, and there are none exactly when nobody has that name |
| ServerState.Initial | server.js:18-34 | the start state is consistent, has no users and no connections, and its ban set is the loaded set, or empty when loading failed |
| Gate.GateIp | server.js:62-63 | no contract of its own: the normalised first non-empty of the two headers and the socket address; its behaviour is stated by `Gate.RefusedByPrecedence` |
| Gate.SessionIp | server.js:77 | no contract of its own: the gate's key, or the normalised socket address when that key is empty; its behaviour is stated by `Gate.SessionIpIsGateIp` |
| Gate.RefusedByPrecedence | server.js:60-64 | the gate refuses exactly when the normalised first non-empty of forwarded-for, Cloudflare header and socket address is banned |
| Gate.SessionIpIsGateIp | server.js:71-77 | the stored address is the gate's key whenever that key is non-empty, and neither ever contains a comma |
| Gate.EmptyKeyAdmitsBannedAddress | server.js:62-77 | a forwarded-for header of `","` gives the empty gate key, so a banned socket address is admitted and stored under the banned key |
| Dispatch.Route | server.js:97-104 | a message is treated as a command only when it comes from `TemMoose` with string text whose trimmed form starts with `/` and whose first word lowercases to `/ban`; a target handed to the ban is non-empty and trimmed |
| Dispatch.BanWordShape | server.js:99-102 | a word lowercasing to `/ban` has four characters, no white space, and starts with `/` |
| Dispatch.TargetName | server.js:103 | no contract of its own: the target is the words after the first, joined by single spaces and trimmed; its behaviour is stated by `Dispatch.BanCommandParses`, `Dispatch.BareBanIsUsage` and `Dispatch.Route` |
| Dispatch.BanTextWords | server.js:97-99 | a padded `/ban` in any case, followed by words separated by runs of white space, is a command whose words are `/ban` and those words |
| Dispatch.BanCommandParses | server.js:97-103 | the admin's `/ban` in any case, with any padding, followed by any words separated by any runs of white space, bans exactly those words joined by single spaces |
| Dispatch.BareBanIsUsage | server.js:103-106 | the admin's bare `/ban` in any case and with any padding yields the usage notice |
| Ban.DedupExact | server.js:117-123 | the `bannedIps` Set holds each non-empty normalised key once and nothing else |
| Ban.NoticesInOrder | server.js:125-136 | for live targets the loop emits, per target in visiting order, `banned`, the disconnect, and the roster that target's `disconnect` handler sends once it and the targets before it are deleted, and nothing else |
| Ban.NoticesNeverSave | server.js:118-137 | the loop itself never saves the ban set |
| Ban.VisitedConsistent | server.js:118-137 | in the middle of the loop, with some targets deleted, the state is still consistent |
| Ban.VisitedStep | server.js:118-137 | visiting one more target advances the state, the Set and the emitted events by exactly that target's callback |
| Ban.OnBan | server.js:109-151 | a ban keeps every registered key listed exactly once in the key order |
| Ban.BanUnknownName | server.js:110-114 | a name nobody is registered under earns the sender a single notice and changes nothing |
| Ban.BanRemovesNamed | server.js:110-137 | a ban removes exactly the sessions registered under the name and disconnects them, leaves every other session as it was, and keeps the state consistent |
| Ban.BanKeepsConsistent | server.js:118-137 | the state is consistent after a ban |
| Ban.BannedIpsAreNamedKeys | server.js:116-123 | the loop bans exactly the non-empty normalised addresses of the sessions registered under the name |
| Ban.BanAddsAddresses | server.js:118-123 | after a ban the ban set is the old set plus the non-empty normalised address of every session registered under the name |
| Ban.BanNoticesFirst | server.js:118-151 | a successful ban first emits, for each target in key order, `banned`, its disconnect and the roster without it and the targets before it, followed by four more events |
| Ban.BanSavesOnce | server.js:139-140 | a successful ban saves the new ban set exactly once, right after the roster sent for the last target |
| Ban.BanRefusesReconnect | server.js:119-122 | a banned session whose gate key was non-empty and did not start with `::ffff:` is refused when it connects again with the same handshake |
| Ban.DoublyMappedEscapesBan | server.js:119 | a session admitted through a doubly mapped forwarded-for header is banned under a different key and admitted again |
| Handlers.OnConnect | server.js:60-81 | no contract of its own: the gate and the connection handler as one step; its behaviour is stated by `Handlers.ConnectAdmits` |
| Handlers.OnChatMessage | server.js:92-160 | no contract of its own: `chat message` as one step; its behaviour is stated by `Handlers.UnregisteredIgnored`, `Handlers.OnlyAdminCommands`, `Handlers.PlainMessageRelayed`, `Handlers.OnlyBanChangesState`, `Handlers.BanWithoutTargetOnlyNotifies` and `Handlers.AdminBanRemovesTargets` |
| Handlers.ConnectAdmits | server.js:60-81 | the gate admits a socket exactly when its key is not banned; an admitted socket is stored under the session address and welcomed; a refused one leaves no trace; nobody registers on connection |
| Handlers.OnJoin | server.js:83-90 | a join keeps every registered key listed exactly once in the key order |
| Handlers.JoinRegisters | server.js:85 | a join sets exactly one entry, with the display name (`Unnamed` for an empty name) and the connection's address; other entries are unchanged; a re-joining socket keeps its place and a new one goes last |
| Handlers.JoinSendsRoster | server.js:89 | a join sends one roster with one entry per registered socket, including the joining one |
| Handlers.OnDisconnect | server.js:162-170 | a disconnect keeps every registered key listed exactly once in the key order |
| Handlers.DisconnectForgets | server.js:162-170 | a disconnect forgets the socket, keeps every other session and the ban set, and broadcasts the roster exactly when the socket was registered |
| Handlers.DisconnectTwice | server.js:162-169 | a second disconnect of the same socket changes nothing and emits nothing |
| Handlers.UnregisteredIgnored | server.js:94-95 | a message from a socket that has not joined changes nothing and emits nothing |
| Handlers.OnlyAdminCommands | server.js:97-159 | anything a non-admin sends, `/ban` included, is relayed to everyone unchanged and changes nothing |
| Handlers.PlainMessageRelayed | server.js:97-159 | a message without text, or whose trimmed text does not start with `/`, is relayed unchanged |
| Handlers.OnlyBanChangesState | server.js:92-160 | a message changes the state only when it is the admin's `/ban` with a target |
| Handlers.BanWithoutTargetOnlyNotifies | server.js:103-114 | the admin's `/ban` without a name or with an unknown name only sends the admin a notice and changes nothing |
| Handlers.AdminBanRemovesTargets | server.js:97-137 | the admin's typed `/ban` followed by any words separated by runs of white space removes every session registered under those words joined by single spaces and adds their addresses to the ban set |
| Handlers.ApplyKeepsConsistent | server.js:60-170 | every handler keeps the state consistent, and none removes a ban |
| Handlers.RunKeepsBans | server.js:60-170 | along any sequence of events the state stays consistent and the ban set only grows |
| ChatServer.Server.constructor | server.js:29-34 | the server starts in the initial state for what the ban file yielded |
| ChatServer.Server.BroadcastUserList | server.js:54-57 | the list built entry by entry is the roster of the current state, one entry per registered socket, and is broadcast |
| ChatServer.Server.Connect | server.js:60-81 | the gate and connection handler leave exactly the state, and emit exactly the events, of `Handlers.OnConnect`, and keep the state consistent |
| ChatServer.Server.Join | server.js:83-90 | `join` leaves exactly the state, and emits exactly the events, of `Handlers.OnJoin`, and keeps the state consistent |
| ChatServer.Server.ChatMessage | server.js:92-160 | `chat message` leaves exactly the state, and emits exactly the events, of `Handlers.OnChatMessage`, and keeps the state consistent |
| ChatServer.Server.BanCommand | server.js:109-151 | the ban branch leaves exactly the state, and emits exactly the events, of `Ban.OnBan`, and keeps the state consistent |
| ChatServer.Server.BanEach | server.js:117-137 | the `forEach` loop leaves the state after visiting every target, the `bannedIps` Set of their keys and their notices |
| ChatServer.Server.BanTarget | server.js:118-137 | one callback run advances the loop's state, Set and emitted events by exactly one target |
| ChatServer.Server.BanAddress | server.js:119-123 | the non-empty normalised address is added to the insertion-ordered Set unless already there, and to the ban set; the state stays consistent and nothing else changes |
| ChatServer.Server.Evict | server.js:125-136 | a live target is sent `banned`, disconnected and, through its own `disconnect` handler, deleted with the roster broadcast; afterwards the entry is gone, the socket is no longer live and the key order is exact |
| ChatServer.Server.DeleteEntry | server.js:136 | `delete users[sid]` removes the key from `users` and the key order, keeps every other key listed once, and is a no-op on a missing key |
| ChatServer.Server.Disconnect | server.js:162-170 | `disconnect` leaves exactly the state, and emits exactly the events, of `Handlers.OnDisconnect`, and keeps the state consistent |

## Left out

- Express, HTTP, static files and `server.listen`: transport plumbing with no state of its own.
- Reading and writing the ban file. Loading is a parameter: some set, or none when the file is missing or unreadable. Saving is a `Saved` event holding a snapshot of the set. A failed write is only logged by the source and does not touch the in-memory set.
- `console.log` and `console.warn` output, and the `try`/`catch` around `disconnect(true)`: they do not affect the state.
- `String(ip)` for a non-string address, and header values that are arrays: every address is taken as a string.
- A `join` name that is not a string: every name is taken as a string. In the source, `name || "Unnamed"` tests truthiness, so `0`, `false`, `null` and `undefined` also become `Unnamed`, while a truthy non-string name such as `123` is stored as it is. Such a name is never `===` a string, so that session can never be banned by name and never counts as the admin.
- A `chat message` payload of `null` or `undefined`: the source throws reading `msg.text`. Any other payload without a string `text` (a string, number or boolean included) is relayed unchanged, which the model's record without text covers; the model's relayed payload is always such a record.
- Handlers.Admissible: socket ids are unique per connection and only live sockets send `join`. Both are socket.io guarantees, so `Connect` requires a fresh id and `Join` a live one.
- JsString.ToLowerAscii: only ASCII letters are lowercased. No other character lowercases to `/`, `b`, `a` or `n`, so comparing with `/ban` comes out the same as in JavaScript.
- Strings are sequences of Unicode scalar values rather than UTF-16 code units: no surrogate pair can contain white space, a comma, a dot, a colon or a digit, so no result depends on the difference.
- Concurrency: Node runs each handler to completion, so each handler is one atomic step.
- The browser client (`public/`) is not part of this model. Its user-name length check is only form validation.
