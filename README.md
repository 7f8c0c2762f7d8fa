# RestroFlow client core in Dafny

This project models the client-side replicated-state layer of the RestroFlow
restaurant app (`restaurant/src/core/`), and the two decision modules on top
of it.

- **Store** (`Store.dfy`). This is the single state tree, addressed by
  dot-separated paths.
  - `setPath` replaces each missing intermediate node by `{}`.
  - `get` stops with `undefined` at the first `null`/`undefined` node.
  - The array helpers `push`, `updateInArray`, `removeFromArray` and
    `findById`.
  - `set` writes with `setPath`, which can throw. When it does not, `set`
    persists the tree, calls `sendToServer` once and announces one
    `store:changed`. `sendToServer` puts a `SET` on the wire only while the
    socket is open.
  - The two reconciliation handlers for `server:full-state` and
    `server:state-change`, which `init` subscribes.
- **Event bus** (`Events.dfy`). This is a class whose fields are the
  listener table, the channel, the socket state and the retry timer.
  - `_dispatch` calls the event's own handlers, then the `'*'` handlers,
    and swallows handler exceptions.
  - `emit` also posts to the BroadcastChannel.
  - Four senders, each gated on an open socket.
  - An inbound WebSocket decoder.
  - The reconnect state machine. A close schedules a retry after 3000 ms;
    a throwing constructor schedules one after 5000 ms.
- **Auth** (`Auth.dfy`).
  - `roleDefaultRoute`, `isLoggedIn`, `hasRole` and `guard`, as functions
    of the current session.
  - `login` and `logout`, which change the session and push audit entries
    through the store.
- **Router** (`Router.dfy`).
  - `getCurrentPath` and `navigate`.
  - Route lookup: exact keys first, then `:param` patterns in registration
    order.
  - The decisions of `resolve` and `_mount`: ignore, navigate elsewhere, or
    mount a handler with its captured parameters.
  - The application's route table from `restaurant/src/main.js`.
- **Values** (`Values.dfy`). The JavaScript value rules the core relies on:
  - JSON-shaped values;
  - strict-mode property reads and writes;
  - truthiness and `===`;
  - `String(v)`;
  - `split`/`join` on one character;
  - array-index keys;
  - object spread.

How the program's effects are modelled:
- Mutable module state becomes fields of classes: `Store` (`tree`,
  `saved`), `EventBus`, `Auth` (`session`) and `Router`.
- Effects on the outside world are recorded in logs on the bus:
  - `delivered`: every handler call;
  - `errors`: the `console.error` lines;
  - `posted`: BroadcastChannel messages;
  - `sent`: WebSocket messages;
  - `calls`: a ghost log of every `sendToServer`/`emit` call made by a
    client;
  - `Store.saved`: the trees written to local storage.
- Where the operation is a loop in the source, the method is a loop proved
  against a function. This applies to `setPath`, `get`, `_dispatch` and the
  route search of `_mount`.
- A JavaScript exception is a `Result.Err`/`Outcome.Fail`. Its contract
  says the state it leaves behind.

Behaviours of the code a reader may not expect, which the model keeps:
- An `EVENT` frame relayed by the server is dispatched with
  `fromBroadcast = true` (`restaurant/src/core/events.js:47`).
- Before `init`, the tree is `null`, so `set` throws in `setPath`. There is
  no fallback to the seed.
- `removeFromArray` calls `set` even when nothing matched.
- `loadLocal` returns whatever non-empty stored text parses to. This
  includes JSON `null`, which `JSON.parse("null")` yields.

## Model

| member | source | states |
|---|---|---|
| Values.OrElse | restaurant/src/core/store.js:87 | `v \|\| d` is `v` exactly when `v` is truthy, else `d` |
| Values.PutProp | restaurant/src/core/store.js:34 | a strict-mode assignment succeeds exactly on objects and on arrays at an index up to the length; an object gets the key set, an array gets that element replaced or, at the length, appended, every other element kept; a write on a primitive or `null` is a TypeError |
| Values.ParseIndex | restaurant/src/core/store.js:31 | a property name is an array index exactly when it is a canonical decimal numeral (no leading zero) of at most 2^32 - 2, and then denotes the number it spells |
| Values.IndexRoundTrip | restaurant/src/core/store.js:31 | the numeral of an index up to 2^32 - 2 is a property name denoting that index |
| Values.Merge | restaurant/src/core/store.js:97 | `{...a, ...b}` has the keys of both, the values of `b` winning and those of `a` kept otherwise |
| Values.DigitsOfNatToString | restaurant/src/core/store.js:97 | reading back the decimal numeral of `n` (the key an array element spreads under) gives `n` |
| Values.NatToStringInjective | restaurant/src/core/store.js:97 | distinct array indices spread under distinct keys |
| Values.Split | restaurant/src/core/store.js:28 | `split` gives at least one piece and no piece holds the separator |
| Values.SplitWithoutSep | restaurant/src/core/store.js:28 | a string without the separator splits into itself alone |
| Values.SplitPieces | restaurant/src/core/store.js:28 | every character of a piece occurs in the split string |
| Values.JoinSplit | restaurant/src/core/store.js:28 | joining the pieces of a path with the separator gives the path back |
| Values.SplitJoin | restaurant/src/core/router.js:60 | splitting a join of separator-free pieces gives the pieces back |
| Events.Encode | restaurant/src/core/events.js:80-103 | every outbound message is an object whose `type` names it and whose other fields carry the message's path, value, event, payload or order |
| Events.Decode | restaurant/src/core/events.js:35-50 | `FULL_STATE` gives its `state`, `STATE_CHANGE` its `path` and `value`, `EVENT` with a truthy name its `event` and `payload`; a frame is ignored exactly when it does not parse, is `null`, or has none of these forms |
| Events.InboundDispatch | restaurant/src/core/events.js:38-48 | a decoded frame is dispatched unless it was ignored; only a relayed event is marked `fromBroadcast`, and the others go out as `server:full-state` or `server:state-change` |
| Events.InboundFrames | restaurant/src/core/events.js:35-50 | `FULL_STATE` is dispatched as `server:full-state` with `msg.state`, `STATE_CHANGE` as `server:state-change` with `{path, value}`, `EVENT` with a truthy name under `msg.event` with `msg.payload` and `fromBroadcast` set; any other frame dispatches nothing |
| Events.RelayRoundTrip | restaurant/src/core/events.js:87-91 | an `EVENT` message relayed unchanged decodes to the same event and payload, unless the name is empty |
| Events.ChannelDispatch | restaurant/src/core/events.js:14-18 | a channel message is re-dispatched exactly when the data and its `__event` are truthy, with the message's own `__event` as the (truthy) name and its `payload` |
| Events.ChannelRoundTrip | restaurant/src/core/events.js:14-18 | the message `emit` posts is re-dispatched by the receiving tab as the same event and payload, unless the name is empty |
| Events.Subscribed | restaurant/src/core/events.js:68-70 | `on` appends `fn` to the end of the event's list, created empty if missing, and leaves every other event's list as it was |
| Events.EachAt | restaurant/src/core/events.js:117-119 | the i-th handler in the list is the i-th called, with the same arguments, whatever earlier handlers threw |
| Events.Deliveries | restaurant/src/core/events.js:115-124 | a dispatch makes one call per handler registered under the event plus one per handler under `'*'` |
| Events.DeliveriesOrder | restaurant/src/core/events.js:115-124 | the event's handlers are called first with `(payload, fromBroadcast)`, then the `'*'` handlers with `({event, payload}, fromBroadcast)` |
| Events.DeliveriesCount | restaurant/src/core/events.js:115-124 | a handler is called once per registration under the event plus once per registration under `'*'` |
| Events.FailuresCount | restaurant/src/core/events.js:118 | one error line naming the event per throwing handler |
| Events.Without | restaurant/src/core/events.js:76 | the filtered list is no longer and holds exactly the handlers of the list other than `fn` |
| Events.WithoutAppend | restaurant/src/core/events.js:76 | filtering distributes over concatenation |
| Events.WithoutCount | restaurant/src/core/events.js:76 | `off` removes every registration of `fn` and keeps the count of every other handler |
| Events.WithoutIdempotent | restaurant/src/core/events.js:74-77 | a second `off` of the same handler changes nothing |
| Events.WithoutAbsent | restaurant/src/core/events.js:76 | filtering a list without `fn` leaves it unchanged |
| Events.OnThenOff | restaurant/src/core/events.js:68-77 | subscribing a new handler and then unsubscribing it restores the list |
| Events.EventBus.constructor | restaurant/src/core/events.js:4-22 | an empty table, no socket, no timer, empty logs; the channel exists when the BroadcastChannel could be created |
| Events.EventBus.On | restaurant/src/core/events.js:68-72 | `fn` is appended to the end of the event's list (created if missing) and the unsubscriber for that pair is returned |
| Events.EventBus.Off | restaurant/src/core/events.js:74-77 | for a known event every registration of `fn` is dropped; otherwise nothing changes |
| Events.EventBus.Unsubscribe | restaurant/src/core/events.js:71 | calling the returned function is `off(event, fn)` |
| Events.EventBus.CallEach | restaurant/src/core/events.js:117-123 | one handler loop: every handler called in order, throwers logged or silent, the loop never stopped |
| Events.EventBus.Dispatch | restaurant/src/core/events.js:115-124 | the deliveries are exactly `Deliveries(...)` and the error lines are those of the event's own throwing handlers |
| Events.EventBus.Emit | restaurant/src/core/events.js:105-113 | exactly one local dispatch with `fromBroadcast = false`; a post `{__event, payload}` only when broadcasting and a channel exists |
| Events.EventBus.OnChannelMessage | restaurant/src/core/events.js:14-18 | a truthy `data.__event` is dispatched with `fromBroadcast = true`, anything else is ignored; nothing is posted or sent |
| Events.EventBus.SendToServer | restaurant/src/core/events.js:80-84 | one `SET {path, value}` exactly when the socket is open, nothing otherwise |
| Events.EventBus.EmitRemote | restaurant/src/core/events.js:87-91 | one `EVENT {event, payload}` exactly when the socket is open |
| Events.EventBus.CreateOrder | restaurant/src/core/events.js:93-97 | one `CREATE_ORDER {order}` exactly when the socket is open |
| Events.EventBus.DismissOrder | restaurant/src/core/events.js:99-103 | one `EVENT order:dismissed {orderNumber}` exactly when the socket is open |
| Events.EventBus.ConnectWS | restaurant/src/core/events.js:24-66 | a new socket starts connecting; a throwing constructor clears readiness and leaves exactly one retry pending at 5000 ms |
| Events.EventBus.OnSocketOpen | restaurant/src/core/events.js:29-33 | the bus becomes ready and `ws:connected` is dispatched once, not as a broadcast |
| Events.EventBus.OnSocketMessage | restaurant/src/core/events.js:35-50 | the decoded frame is dispatched as `server:full-state`, `server:state-change {path, value}` or the relayed event, and anything else changes nothing |
| Events.EventBus.OnSocketClosing | restaurant/src/core/events.js:81 | a closing socket is no longer open, so the senders stop sending |
| Events.EventBus.OnSocketClose | restaurant/src/core/events.js:52-58 | the socket is dropped, readiness cleared, and exactly one retry is pending at 3000 ms |
| Events.EventBus.OnRetryTimer | restaurant/src/core/events.js:57 | the timer fires `connectWS` and is no longer pending |
| Store.LoadLocal | restaurant/src/core/store.js:12-18 | the stored tree when it can be read and parsed, the seed otherwise |
| Store.SetPath | restaurant/src/core/store.js:27-35 | a write succeeds only on an object or an array at the root; an object then has its old keys plus the first segment, an array grows by at most one element |
| Store.Lookup | restaurant/src/core/store.js:63-72 | `get` with a falsy path is the whole tree, and with a one-segment path is that property of the tree, or `undefined` below `null`/`undefined` |
| Store.ArrayAt | restaurant/src/core/store.js:87 | `get(path) \|\| []`: a falsy value counts as the empty array, an array is itself, and any other value makes the array helpers throw a TypeError |
| Store.SetThenGet | restaurant/src/core/store.js:27-35 | after a successful `setPath`, walking the same segments gives the value |
| Store.WriteThenLookup | restaurant/src/core/store.js:63-77 | after `set(p, v)` on a non-empty path, `get(p)` returns `v` |
| Store.SetPathOnEmpty | restaurant/src/core/store.js:30-33 | below an empty object `setPath` builds the nest of fresh objects |
| Store.SetPathCreatesMissing | restaurant/src/core/store.js:31 | a missing or `null` intermediate is created as `{}` instead of failing |
| Store.SetPathKeepsSiblings | restaurant/src/core/store.js:34 | a write leaves the other keys of an object as they were |
| Store.GetStopsAtNullish | restaurant/src/core/store.js:67-69 | once the walk meets `null` or `undefined` before the end, `get` returns `undefined` |
| Store.SetPathLoop | restaurant/src/core/store.js:27-35 | the descending loop with its write-backs computes `setPath` |
| Store.PushedGrows | restaurant/src/core/store.js:86-91 | `push` grows the array by exactly one last element; an absent array becomes `[item]` |
| Store.FindFirst | restaurant/src/core/store.js:95 | `findIndex`/`find` give the first element satisfying the callback, none when no element does, and throw when a `null` element is reached first |
| Store.WithoutId | restaurant/src/core/store.js:104 | the only exception `filter` raises is a TypeError |
| Store.WithoutIdMembers | restaurant/src/core/store.js:104 | `filter` throws exactly when some element is `null`/`undefined`; otherwise it keeps exactly the elements whose `id` differs |
| Store.WithoutIdAppend | restaurant/src/core/store.js:104 | the kept elements stay in their original order |
| Store.WithoutIdNoMatch | restaurant/src/core/store.js:104 | with no element carrying the id the array is written back as it was |
| Store.ContainerFoundIsWritable | restaurant/src/core/store.js:93-98 | an array that `get` found at a non-empty path can always be written back there |
| Store.Store.constructor | restaurant/src/core/store.js:9-10 | before `init` the tree is `null` and nothing was saved |
| Store.Store.Init | restaurant/src/core/store.js:38-61 | the tree is the local copy, the two handlers are appended to their events and the socket is connecting, or a retry is pending |
| Store.Store.Get | restaurant/src/core/store.js:63-72 | the read loop returns `Lookup`: the whole tree for a falsy path, else the value at the path |
| Store.Store.Set | restaurant/src/core/store.js:74-84 | on success: persisted once, one `sendToServer(p, v)`, one `store:changed {p, v}` with broadcast on, and `get(p)` is `v`; if `setPath` throws, nothing changes |
| Store.Store.Push | restaurant/src/core/store.js:86-91 | returns the item, and writes, forwards and announces the array grown by it through `set`; one `SET` of that array is on the wire exactly when the socket is open |
| Store.Store.UpdateInArray | restaurant/src/core/store.js:93-100 | no match: `null` and no `set`; otherwise only the first match becomes `{...old, ...updates}`, with the length unchanged, the merged element is returned, and one `SET` of the array is on the wire exactly when the socket is open |
| Store.Store.RemoveFromArray | restaurant/src/core/store.js:102-105 | `set` is called with the filtered array, even when nothing matched, and one `SET` of it is on the wire exactly when the socket is open |
| Store.Store.FindById | restaurant/src/core/store.js:107-110 | the first element with the id, or `undefined`; nothing changes |
| Store.Store.Reset | restaurant/src/core/store.js:112-115 | the seed is installed and persisted; nothing is sent or emitted |
| Store.Store.OnFullState | restaurant/src/core/store.js:43-50 | the tree becomes the snapshot and is persisted, the store counts as connected, and exactly one `store:changed {'*', null}` is emitted |
| Store.Store.OnStateChange | restaurant/src/core/store.js:52-57 | the same write, persistence and announcement as `set`, but never a `sendToServer` |
| Auth.RoleDefaultRoute | restaurant/src/core/auth.js:72-80 | waiter, kitchen, cashier and manager land on their views; every other role is sent to `login` |
| Auth.IsLoggedIn | restaurant/src/core/auth.js:51-53 | a signed-in user is never `null` or `undefined`, and any stored session object counts as signed in |
| Auth.HasRole | restaurant/src/core/auth.js:55-59 | false when logged out, otherwise true exactly when the role equals one of the names |
| Auth.Guard | restaurant/src/core/auth.js:61-69 | `login` when logged out, the role's default view when roles are given and exclude the role, `null` exactly otherwise |
| Auth.ChosenUser | restaurant/src/core/auth.js:17-18 | the first user with the same `pin` and a truthy `active`, none when no user qualifies, and a TypeError exactly when `users` is not an array or a `null` element comes before any qualifying user |
| Auth.SessionOf | restaurant/src/core/auth.js:20 | the session has exactly the keys `id`, `name`, `role`, copied from the user |
| Auth.Auth.constructor | restaurant/src/core/auth.js:5-14 | the session is whatever session storage holds when the module loads, so a session kept over a reload is signed in |
| Auth.Auth.CurrentUser | restaurant/src/core/auth.js:8-14 | the stored session, or `null` |
| Auth.Auth.FindUser | restaurant/src/core/auth.js:17-18 | the lookup of `login` returns `ChosenUser` on the current tree |
| Auth.Auth.SignIn | restaurant/src/core/auth.js:20-33 | the session is stored, one `auth:login` not broadcast, then one `LOGIN` entry pushed, whose `SET` is on the wire exactly when the socket is open |
| Auth.Auth.Login | restaurant/src/core/auth.js:16-34 | without a matching user: `null`, with no session, event, audit or wire change; with one: its `{id, name, role}`, one `auth:login` and one `LOGIN` entry, sent when the socket is open |
| Auth.Auth.Logout | restaurant/src/core/auth.js:36-49 | a `LOGOUT` entry is pushed (and sent when the socket is open) only when someone was logged in; afterwards no one is logged in and `auth:logout` was emitted once |
| Router.CurrentPath | restaurant/src/core/router.js:16-18 | the hash after `#/`, or `login` for an empty hash or `#/` |
| Router.NavigateRoundTrip | restaurant/src/core/router.js:12-18 | after `navigate(p)` with `p` non-empty the current path is `p` |
| Router.MatchSegmentsCaptures | restaurant/src/core/router.js:60-61 | segments match exactly when every pair does; one capture per parameter, each non-empty and free of `/` |
| Router.MatchPattern | restaurant/src/core/router.js:60-61 | a pattern matches only a path with as many `/`-separated segments as itself |
| Router.MatchPatternCaptures | restaurant/src/core/router.js:60-64 | every capture is a non-empty, `/`-free segment, one per `:param` segment |
| Router.LiteralPatternMatchesItself | restaurant/src/core/router.js:60-61 | a key without `:` matches exactly the path equal to it, with no captures |
| Router.FirstMatchIsFirst | restaurant/src/core/router.js:59-67 | the loop returns a matching key with its captures, with no earlier key matching; nothing only when no key matches |
| Router.FindRoute | restaurant/src/core/router.js:55-68 | an exact entry is found with no parameters, and any route found is one of the registered routes |
| Router.FindRoutePicks | restaurant/src/core/router.js:55-68 | an exact entry wins with no parameters; otherwise the first matching pattern wins, with its captures |
| Router.MountDecision | restaurant/src/core/router.js:70-88 | no route: the default view, or `login`; a route with roles whose guard answers: exactly a refusal to that answer; mounted, with the route and captures found, exactly when the route admits the user |
| Router.Decide | restaurant/src/core/router.js:20-45 | `resolve` ignores the hash exactly for an anchor in a customer path; it redirects only to `login` or the role's default view; it mounts the current path, as `_mount` decides, exactly for a customer path without an anchor, or elsewhere when the path is `login` exactly when no one is signed in |
| Router.CustomerPathsSkipAuth | restaurant/src/core/router.js:24-29 | `customer/` paths skip the sign-in checks, and a `#cat-` anchor is left alone |
| Router.LoggedOutGoesToLogin | restaurant/src/core/router.js:32-35 | without a user every redirect goes to `login`, and every non-login, non-customer path redirects |
| Router.LoggedInGoesToDefault | restaurant/src/core/router.js:38-42 | with a user every redirect goes to the role's default view, and `login` redirects there |
| Router.ExactRouteMounts | restaurant/src/core/router.js:55 | a registered path that admits the signed-in user mounts its own route with no parameters |
| Router.DefaultViewMounts | restaurant/src/main.js:29-40 | example on the application's table: the default view of each staff role mounts at once for that role |
| Router.LoginViewMounts | restaurant/src/main.js:26 | example on the application's table: the login view mounts for a visitor who is not signed in |
| Router.UnknownRoleStaysOnLogin | restaurant/src/core/router.js:38-41 | a signed-in user with an unknown role is sent from `login` to `login` |
| Router.OrderPathCaptures | restaurant/src/main.js:30 | example on the application's table: `waiter/order/<id>` selects the order view with `<id>` as its parameter |
| Router.Router.constructor | restaurant/src/core/router.js:4-5 | an empty table and no cleanup |
| Router.Router.Register | restaurant/src/core/router.js:8-10 | the entry for the path is set, replacing any previous one in its place in the order |
| Router.Router.Navigate | restaurant/src/core/router.js:12-14 | the hash becomes `#/` + path, whose current path is the path |
| Router.Router.LookupRoute | restaurant/src/core/router.js:55-68 | the exact lookup, then the loop over the entries, computes `FindRoute` |
| Router.Router.Resolve | restaurant/src/core/router.js:20-45 | the resolution is `Decide` of the hash and current user, with its navigation, cleanup and mount carried out |
| Router.Router.MountPath | restaurant/src/core/router.js:47-93 | the previous cleanup is called once and cleared; then fall back, refuse, or mount and keep the returned function as cleanup |

## Left out

- Numbers are integers. Floating point is left out, as are `NaN` and `-0` in `===`.
- Inherited prototype properties are left out. A key such as `__proto__` or `toString` is treated as an ordinary own key, or as absent.
- Values carry no identity. Two objects are never `===`, and aliasing is not modelled: an `updateInArray` or `push` that mutates the array in place before `set` is modelled as building a new array.
- If `set` on the empty path throws (`Unsupported`), the source has already mutated the array returned by `get()`. The model leaves the tree unchanged.
- Writes that JavaScript accepts but the value model cannot hold are reported as `Unsupported`. These are named properties, or holes past the length, on an array. After such a write JavaScript goes on to persist, send and announce the change; the model instead stops there with the tree, the saved trees, the messages and the events all untouched, so `set`'s effects differ in that case, not just the tree.
- JSON fidelity is left out. The stored session and persisted tree keep `undefined` fields, which a JSON round-trip drops. The `sessionStorage`/`localStorage` calls that throw on a full store are left out too.
- `Object.entries` lists integer-like keys first. The model's route order is registration order.
- `_mount` is asynchronous in the source; the handler is awaited. A rejected handler and re-entrant `resolve` calls are left out.
- `route._params` keeps the captures of an earlier pattern match (`restaurant/src/core/router.js:64`). Its staleness on a later exact hit is left out.
- The route regex is modelled as segment matching. This is exact for patterns without regular-expression metacharacters, which covers every registered route.
- Assigning `location.hash` percent-encodes some characters. The model keeps the path as given.
- Stale sockets are left out. These are a close event from an earlier socket, and `onerror`.
- `console.log` is left out. Only the `console.error` lines of failing handlers are logged.
- Timers are modelled only as "a retry is pending with delay d". Real firing is the `OnRetryTimer` method.
- `location.hostname` is left out.
- A handler's behaviour is reduced to a fixed `throws` flag. What it does to the state when called is not modelled.
- `Seed` is abbreviated to the settings, the five users and the empty collections. The menu, categories, modifier groups and tables are left out.
- `reload` is a no-op and is not modelled.
- `start` and the `hashchange` listener are not modelled; `Resolve` is the handler.
- The ids of the two handlers `init` subscribes are supplied by the caller.
- `getCurrentUser` swallowing a parse failure is not modelled. The session is the value read back, given to the `Auth` constructor for the entry found at load.
- Auth.Auth.Login: the contract states the session, the tree, the saved trees, the calls into the bus and the messages sent. It does not restate the deliveries, error lines and posts of the events emitted, which `Events.EventBus.Emit` and `Store.Store.Push` state.
- Auth.Auth.SignIn: the contract has the same scope as `Auth.Auth.Login`, for the same reason.
- Auth.Auth.Logout: the contract has the same scope as `Auth.Auth.Login`, for the same reason.
- The views, `restaurant/src/core/utils.js`, `restaurant/src/main.js` bootstrapping beyond its route table, `script.js` and `prices.js` are not part of this model.
