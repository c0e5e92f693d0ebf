# wsx in Dafny

wsx is a typed RPC and event layer over WebSockets: a server (`Wsx`) declares
routes, server-sent events and life-cycle hooks, and a client calls the routes
through a property-chain proxy (`client.chat.send.call(body)`). Both ends
speak one positional JSON protocol: emit 1, request 2, success 3, fail 4,
error 5. This project models the core of that system and proves properties
about it:

- **the path router** (`Router`, `RouterNode`, `RoutePath`, `RouterInsert`,
  `Matcher`): a radix trie with `:param` segments and a trailing `*`. `add`
  normalises and splits the path, then walks the trie with its three inner
  branches (move the node down, add a static child, split the node). A
  parameter of another name at the same place is refused, and every slot is
  first-wins. `matchRoute` tries the static child first, then the parameter,
  with backtracking, then the wildcard.
- **the wire protocol** (`Proto`): the five frame shapes, their encoding to
  positional arrays and back, and `isRpcResponse`.
- **the life-cycle hook store** (`LifeCycle`): four ordered hook lists with
  `clone`, `prepend` and `append`.
- **the server** (`Server`, `Dispatching`, `ServerProxy`, `Sockets`):
  - route, event and plugin registration, and the `onX` hook methods;
  - the socket registry kept by `open`/`close`;
  - the dispatch of one inbound frame through the onRequest hooks, body
    validation, the onHandle hooks, the handler, and the onResponse or
    onError hooks, down to the frames sent back;
  - the correlation store and routing proxy of server-initiated calls;
  - the socket wrappers;
  - the three generations of topic/broadcast classes.
- **the client** (`Client`): its correlation store, its proxy's `call`,
  `emit`, `listen` and `unlisten`, its handling of inbound frames, and
  `fixDomain`.
- **the two ends together** (`RoundTrip`): a frame the client sends is read
  by the server at the same path and id, and every answer decodes as a
  response to that id.

User code (hooks, validators, handlers, listeners) is represented by oracles
that say how each call ends. Every call is recorded in order. Every
`raw.send` appends one entry to a `Wire` log, so what is sent, to which
socket and in which order is part of the modelled state.

## Model

| member | source | states |
|---|---|---|
| JsString.CharCodeAt | packages/router/src/matcher.ts:48 | `charCodeAt` gives the string's element exactly for an index inside the string; past the end it is NaN, which no child key equals. An element here is a Unicode scalar value, not a UTF-16 code unit (see Left out) |
| JsString.Substring | packages/router/src/matcher.ts:68 | `substring` within bounds is the slice; the result is never longer than the string |
| JsString.IndexOf | packages/router/src/matcher.ts:59 | `indexOf("/", from)` is -1 exactly when no '/' occurs from `from` on, else the first '/' at or after `from` |
| JsString.Split | libs/server/src/proxy.ts:42 | `split` on a one-character separator gives at least one piece, none holding the separator |
| JsString.SplitJoin | libs/server/src/proxy.ts:42 | splitting a `join` on its separator gives the pieces back when no piece holds the separator |
| Proto.At | libs/shared/src/proto.ts:34-62 | reading position `i` of a parsed array is defined exactly inside the array (`undefined` past the end) |
| Proto.InArray | libs/shared/src/proto.ts:34-62 | `undefined` inside an array is written as null; any other value is written as itself |
| Proto.Discriminant | libs/shared/src/proto.ts:2-12 | each frame carries a code in 1..5, and code 1, 2, 3, 4, 5 is carried exactly by emit, request, success, fail, error, so the five codes are pairwise distinct and two frames share a code exactly when they have the same shape |
| Proto.Encode | libs/shared/src/proto.ts:34-62 | every encoded frame has at least three elements and its code at position 0 |
| Proto.DecodeEncode | libs/shared/src/proto.ts:34-62 | decoding an encoded frame recovers every field, for all five shapes |
| Proto.EncodeDecode | libs/shared/src/proto.ts:34-62 | an array that decodes is exactly the encoding of what it decodes to |
| Proto.ResponseDiscriminants | libs/shared/src/proto.ts:16-25 | `isRpcResponse` holds of an encoded frame exactly when it is success, fail or error, so never for an emit or a request |
| Proto.IsRpcResponse | libs/shared/src/proto.ts:16-25 | `isRpcResponse` looks only at element 0; `ResponseDiscriminants` proves which frames it accepts |
| Proto.Decode | libs/shared/src/proto.ts:34-62 | an array that decodes carries, at position 0, the code of the shape it decodes to; `DecodeEncode` and `EncodeDecode` prove it inverts `Encode` |
| RouterNode.ChildMap | libs/router/src/node.ts:18-21 | every child is a key by its first character, and each key maps to a child starting with that character |
| RouterNode.ChildMapFrom | libs/router/src/node.ts:18-21 | the map holds only the children it was built from |
| RouterNode.ChildMapDistinct | libs/router/src/node.ts:20 | with distinct first characters, each child is found under its own first character |
| RouterNode.CreateNode | libs/router/src/node.ts:15-24 | the part is the one given; store, params and wildcard are empty; children are keyed by their first character |
| RouterNode.CloneNode | libs/router/src/node.ts:26-29 | only `part` is replaced: store, children, parameter child and wildcard are kept |
| RouterNode.CreateParamNode | libs/router/src/node.ts:31-35 | the parameter child has the given name, no store and no continuation |
| RoutePath.Normalize | libs/router/src/index.ts:17-20 | the result starts with '/'; "" becomes "/"; a path without a leading '/' gets one; a path with one is kept |
| RoutePath.NormalizeIdempotent | libs/router/src/index.ts:17-20 | normalising twice is normalising once |
| RoutePath.ScanEnd | libs/router/src/index.ts:9-10 | the lazy `.+?(?=\/\|$)` stops at the first '/' or at the end, having passed no '/' and no line terminator; it fails only on a line terminator |
| RoutePath.MatchAt | libs/router/src/index.ts:9-10 | a match starts with ':', covers at least two characters and ends at a '/' or at the end of the string |
| RoutePath.FindMatch | libs/router/src/index.ts:9-10 | the leftmost match at or after a position, with no match starting before it; no result only when no position matches |
| RoutePath.SplitFrom | libs/router/src/index.ts:31 | `split(regex)` always gives at least one piece |
| RoutePath.MatchesFrom | libs/router/src/index.ts:32 | every `:name` that `match(regex)` returns has at least two characters and starts with ':' |
| RoutePath.SplitMatchesWeave | libs/router/src/index.ts:31-32 | there is one more piece than match, and pieces and matches in alternation give the path back |
| RoutePath.PiecesAfterMatch | libs/router/src/index.ts:31-34 | after a match, each piece starts with '/', save an empty last piece |
| RoutePath.PiecesOfPath | libs/router/src/index.ts:31-34 | once the empty last piece is dropped, every literal piece of a path that starts with '/' is non-empty and starts with '/' |
| RoutePath.StepsOf | libs/router/src/index.ts:43-48 | one parameter step per literal piece after the first |
| RoutePath.StepsOfParts | libs/router/src/index.ts:43-48 | the literal of each step is the piece after its parameter |
| RoutePath.Parse | libs/router/src/index.ts:24-48 | `add`'s reading of a path into its literal head, its parameter steps and its end; `ParseShape` and `ParseRender` prove what it keeps |
| RoutePath.ParseShape | libs/router/src/index.ts:24-48 | the parsed head and every step literal are non-empty and start with '/' |
| RoutePath.ParseRender | libs/router/src/index.ts:24-34 | parsing loses nothing: writing the route back gives the path, except the '*' after a final parameter, which `add` ignores |
| RouterInsert.Lcp | libs/router/src/index.ts:69-115 | the inner loop stops at the common prefix of the part and the node's part: both agree before it and differ at it, unless one ends |
| RouterInsert.Finish | libs/router/src/index.ts:118-150 | storing at the end of the path changes neither the node's part nor its children |
| RouterInsert.InsertAt | libs/router/src/index.ts:43-116 | a parameter-name conflict leaves the node as it was |
| RouterInsert.MoveDown | libs/router/src/index.ts:70-77 | the same conflict rule for the move-down branch |
| RouterInsert.IntoChild | libs/router/src/index.ts:79-97 | the same conflict rule for the static-child branch |
| RouterInsert.Split | libs/router/src/index.ts:99-112 | the same conflict rule for the split branch |
| RouterInsert.AtTarget | libs/router/src/index.ts:46-67 | a parameter step keeps the node's part and children; a conflict changes nothing |
| RouterInsert.FreshSlot | libs/router/src/node.ts:15-24 | a new leaf holds no store on any route and has no parameter child to conflict with |
| RouterInsert.InsertAtSpec | libs/router/src/index.ts:36-150 | inserting fails exactly when the walk meets a parameter child of another name; otherwise the route's slot holds the first value ever stored there, which is what is returned |
| RouterInsert.MoveDownSpec | libs/router/src/index.ts:70-77 | the same promise when the path ends inside a node |
| RouterInsert.IntoChildSpec | libs/router/src/index.ts:79-97 | the same promise when the walk continues in, or creates, a static child |
| RouterInsert.SplitSpec | libs/router/src/index.ts:99-112 | the same promise when the path diverges inside a node |
| RouterInsert.AtTargetSpec | libs/router/src/index.ts:46-67 | the same promise for the parameter steps and the end slot |
| RouterInsert.CloneSlot | libs/router/src/index.ts:70-77 | moving a node's tail into a clone keeps every route through it |
| RouterInsert.InsertAtKeeps | libs/router/src/index.ts:36-116 | node splits keep earlier registrations: every route that held a value holds the same value afterwards |
| RouterInsert.MoveDownKeeps | libs/router/src/index.ts:70-77 | the same for the move-down branch |
| RouterInsert.IntoChildKeeps | libs/router/src/index.ts:79-97 | the same for the static-child branch |
| RouterInsert.SplitKeeps | libs/router/src/index.ts:99-112 | the same for the split branch |
| RouterInsert.AtTargetKeeps | libs/router/src/index.ts:46-67 | the same for the parameter steps and the end slot |
| RouterInsert.CreateWellFormed | libs/router/src/node.ts:15-24 | a node built from well-formed children is well-formed |
| RouterInsert.UpdateWellFormed | libs/router/src/index.ts:93 | storing a child under its own first character keeps the node well-formed |
| RouterInsert.InsertAtWellFormed | libs/router/src/index.ts:69-115 | every child stays keyed by the first character of its part, at every depth |
| RouterInsert.MoveDownWellFormed | libs/router/src/index.ts:70-77 | the same for the move-down branch |
| RouterInsert.IntoChildWellFormed | libs/router/src/index.ts:79-97 | the same for the static-child branch |
| RouterInsert.SplitWellFormed | libs/router/src/index.ts:99-112 | the same for the split branch |
| RouterInsert.AtTargetWellFormed | libs/router/src/index.ts:46-67 | the same for the parameter steps |
| Router.Base | libs/router/src/index.ts:38-39 | the walk starts at the existing root, or at a new root whose part is "/" |
| Router.Router.constructor | libs/router/src/index.ts:4-6 | a new router has no root and an empty history |
| Router.Router.Add | libs/router/src/index.ts:13-151 | a non-string path throws a TypeError before anything changes; otherwise the normalised path and its store are appended to `history`, the trie is replaced by the walked one, and the result is the store held or the parameter-name error |
| Router.Router.Find | libs/router/src/index.ts:153-158 | `null` before the first `add`, otherwise `matchRoute(url, url.length, root, 0)` |
| Router.InsertValid | libs/router/src/index.ts:36-116 | `add` keeps the trie well-formed and the root's part "/" |
| Router.AddRoute | libs/router/src/index.ts:13-151 | `add` throws exactly on a parameter of another name at the same place, leaving the trie as it was; otherwise the path's slot holds the first value registered for it, which `add` returns |
| Router.AddKeeps | libs/router/src/index.ts:70-112 | `add` keeps every earlier registration |
| Router.ParseStatic | libs/router/src/index.ts:31-34 | a path with no ':' and no trailing '*' is one literal |
| Router.NoStaticConflict | libs/router/src/index.ts:46-67 | a path with no parameter never meets the parameter-name error, whatever the trie holds |
| Router.StaticFound | packages/router/src/matcher.ts:15-55 | a URL that spells a static route holding `w` finds `w` with no parameters |
| Router.AddThenFindStatic | libs/router/src/index.ts:13-158 | after `add` of a static path, `find` on that path returns what `add` returned, with no parameters |
| Matcher.Match | packages/router/src/matcher.ts:9-96 | a found store is held by some slot of the subtree; a parameter captured before the end of the URL is non-empty and holds no '/'. That a registered route is found with its values is `RouterFind.RouteFound` |
| Matcher.MatchParam | packages/router/src/matcher.ts:57-85 | the parameter branch finds something only below a parameter child and only stores of the subtree; what it finds carries, under the parameter's name, exactly the URL's segment at that point: non-empty, without '/', and followed by a '/' or the URL's end |
| Matcher.MatchRoute | packages/router/src/matcher.ts:9-96 | the recursive procedure, with its character loop for parts shorter than 15, returns exactly `Match` |
| Matcher.CheckPart | packages/router/src/matcher.ts:15-28 | the node's own check, with its character loop for parts shorter than 15, answers exactly `PartMatches` |
| Matcher.MatchParamRoute | packages/router/src/matcher.ts:57-85 | the parameter branch as the source runs it returns exactly `MatchParam` |
| RouterFind.RouteFound | packages/router/src/matcher.ts:9-96 | a URL spelling a route whose slot holds `w` (the literal head, each parameter's segment followed by its step's literal, then the end) finds `w` with every segment under its parameter's name and the wildcard's rest under "*", whenever the branches `matchRoute` tries first (the static child for the next character; before a wildcard also the parameter child, and at the URL's end the static store) find nothing |
| RouterFind.EndFound | packages/router/src/matcher.ts:30-44 | at the node a route ends at: the static store with no parameters, the last parameter's value under its name, or the wildcard's rest ("" at the URL's end) under "*" |
| RouterFind.ParamStepFound | packages/router/src/matcher.ts:57-81 | when the static child finds nothing, the parameter child's continuation entered at the next '/' decides the result, with the segment before that '/' added under the parameter's name |
| RouterFind.StaticStepFound | packages/router/src/matcher.ts:46-54 | a static child that finds something decides the result |
| RouterFind.ParamFound | packages/router/src/matcher.ts:57-81 | `/a/:x/b` style: a route with one parameter between two literals finds its store with `{x: value}` for any segment `value` |
| RouterFind.WildcardFound | packages/router/src/matcher.ts:30-95 | `/rest/*` style: `head + rest` finds the wildcard store with `{"*": rest}`, `rest` possibly empty |
| RouterFind.AddThenFind | libs/router/src/index.ts:13-158 | after an `add` that raises no conflict, any URL spelling the path with segments for its parameters finds the store `add` returned, with the segments under their names |
| RouterFind.StaticKeepsPrecedence | libs/router/src/index.ts:13-158 | a static path added before any other path still finds its own store with no parameters, so `/a/fixed/b` beats `/a/:x/b` whichever is added first |
| LifeCycle.Concat | libs/server/src/life-cycle.ts:19-33 | list by list, the result is the first store's hooks followed by the second's, with lengths adding up |
| LifeCycle.ConcatAssoc | libs/server/src/life-cycle.ts:19-25 | prepending hooks does not depend on grouping (a plugin mounted in a plugin) |
| LifeCycle.ConcatNoHooks | libs/server/src/life-cycle.ts:5-8 | an empty store is neutral on both sides |
| LifeCycle.LifeCycleStore.constructor | libs/server/src/life-cycle.ts:5-8 | a fresh store has four empty lists |
| LifeCycle.LifeCycleStore.Clone | libs/server/src/life-cycle.ts:10-17 | a new store whose lists equal this one's; lists are values, so later pushes to either cannot reach the other |
| LifeCycle.LifeCycleStore.Prepend | libs/server/src/life-cycle.ts:19-25 | each list becomes the argument's followed by the old one; returns the receiver; the argument is unchanged |
| LifeCycle.LifeCycleStore.Append | libs/server/src/life-cycle.ts:27-33 | each list becomes the old one followed by the argument's; returns the receiver; the argument is unchanged |
| Sockets.Encoding | libs/server/src/socket/index.ts:48-60 | a Buffer passes through as bytes, an object (null included) goes as JSON text, anything else as it is |
| Sockets.FrameIsText | libs/server/src/socket/index.ts:54-57 | a frame handed to `send` is an array, so it goes out as JSON text |
| Sockets.ToDecimal | libs/server/src/socket/index.ts:18-20 | a generated id is a non-empty string of decimal digits |
| Sockets.DecimalRoundTrip | libs/server/src/socket/index.ts:18-20 | reading an id back gives the number drawn, so distinct draws give distinct ids |
| Sockets.Deliveries | libs/server/src/broadcast/broadcast.ts:34-37 | one log entry per recipient, in order, each to that recipient's handle with the same payload; used for wrappers of both designs |
| Sockets.RawSocket.Upgraded | libs/server/src/socket/index.ts:32-38 | `onUpgrade` prepares no wrapper, id "" and no topics, so the first wrapper draws a fresh id |
| Sockets.WsxSocket.constructor | libs/server/src/socket/index.ts:16-22 | an id already in `data` is kept unless empty or missing, else the decimal form of the 32-bit draw is written; nothing else changes |
| Sockets.WsxSocket.Reuse | libs/server/src/socket/index.ts:24-27 | returns the wrapper already stored, changing nothing, or stores a new one: at most one wrapper per handle |
| Sockets.WsxSocket.Id | libs/server/src/socket/index.ts:40-42 | the getter reads the id slot of the handle's `data`; `SetId` and the constructor state what it then gives |
| Sockets.WsxSocket.SetId | libs/server/src/socket/index.ts:44-46 | the setter writes exactly the id slot |
| Sockets.WsxSocket.Send | libs/server/src/socket/index.ts:48-60 | exactly one `raw.send`, of the payload `Encoding` gives |
| Sockets.LegacySocket.constructor | libs/server/src/socket.ts:12-18 | the same id rule on the older socket's own slot |
| Sockets.LegacySocket.Id | libs/server/src/socket.ts:20-22 | the getter reads the older id slot; `SetId` and the constructor state what it then gives |
| Sockets.LegacySocket.SetId | libs/server/src/socket.ts:24-26 | the setter writes exactly that slot |
| Sockets.LegacySocket.Send | libs/server/src/socket.ts:28-40 | exactly one `raw.send`, branching on Buffer, object or other |
| Sockets.SendToAll | libs/server/src/broadcast/broadcast.ts:34-37 | every member other than `except` gets the data exactly once, and no one else gets anything |
| Sockets.LegacySendToAll | libs/server/src/broadcast.ts:38-41 | the same for a room of older sockets |
| Sockets.Broadcast.GetTopic | libs/server/src/broadcast/broadcast.ts:13-17 | the registered topic, unchanged, when there is one; otherwise a new empty topic registered under the key |
| Sockets.Broadcast.Create | libs/server/src/broadcast/broadcast.ts:19-23 | a new empty topic under the key, replacing any earlier one |
| Sockets.Broadcast.Remove | libs/server/src/broadcast/broadcast.ts:25-27 | deletes that key only |
| Sockets.Broadcast.Publish | libs/server/src/broadcast/broadcast.ts:29-38 | each member but `except` gets the data exactly once; membership and the topic map are untouched |
| Sockets.Topic.constructor | libs/server/src/broadcast/topic/index.ts:11-17 | a new topic has no member and records its broadcast and key |
| Sockets.Topic.Subscribe | libs/server/src/broadcast/topic/index.ts:19-23 | the socket joins the members and the topic joins the socket's set (created if absent); the topic map is untouched |
| Sockets.Topic.Unsubscribe | libs/server/src/broadcast/topic/index.ts:25-28 | the socket leaves both sides; a topic left empty is unregistered |
| Sockets.Topic.Remove | libs/server/src/broadcast/topic/index.ts:30-35 | deletes the object given from the members, and unregisters the key exactly when no member is left |
| Sockets.Topic.Publish | libs/server/src/broadcast/topic/index.ts:37-39 | the broadcast's publish for this topic |
| Sockets.RawIsNeverMember | libs/server/src/broadcast/topic/index.ts:12 | members are wrappers, so deleting a raw handle deletes nothing |
| Sockets.BroadcastV2.Remove | libs/server/src/broadcast/index.ts:45-47 | deletes that key only |
| Sockets.BroadcastV2.GetTopic | libs/server/src/broadcast/index.ts:54-61 | get or create: the registered topic unchanged, or a new empty one registered under the key |
| Sockets.TopicV2.Subscribe | libs/server/src/broadcast/index.ts:16-20 | the socket joins the members and the topic joins the socket's set |
| Sockets.TopicV2.Unsubscribe | libs/server/src/broadcast/index.ts:22-25 | removes both sides; a topic left empty is unregistered |
| Sockets.TopicV2.Remove | libs/server/src/broadcast/index.ts:27-32 | removing the last member unregisters the key |
| Sockets.TopicV2.Publish | libs/server/src/broadcast/index.ts:34-39 | each member but `except` gets the data exactly once |
| Sockets.Manager.Remove | libs/server/src/broadcast.ts:48-50 | deletes that topic key only |
| Sockets.Manager.GetTopic | libs/server/src/broadcast.ts:57-64 | get or create a room |
| Sockets.Room.Subscribe | libs/server/src/broadcast.ts:17-23 | the socket joins the room and the room joins the socket's rooms (created if absent) |
| Sockets.Room.Unsubscribe | libs/server/src/broadcast.ts:25-28 | removes both sides; a room left empty is unregistered |
| Sockets.Room.Remove | libs/server/src/broadcast.ts:30-35 | removing the last socket unregisters the topic |
| Sockets.Room.Publish | libs/server/src/broadcast.ts:37-42 | each member but `except` gets the data exactly once |
| ProxyPath.Get | libs/server/src/proxy.ts:30-38 | a property read gives `undefined` exactly for `then`; otherwise the path list is kept and grows by at most the name read |
| ProxyPath.Access | libs/server/src/proxy.ts:30-38 | a chain of property reads from the root proxy; `AccessWithoutIndex` proves what it yields |
| ProxyPath.AccessWithoutIndex | libs/server/src/proxy.ts:30-38 | a chain of property reads yields exactly its names other than "index", in order; a chain through `then` yields `undefined` |
| ProxyPath.WithoutIndex | libs/server/src/proxy.ts:36 | the names kept are exactly those other than "index" |
| ProxyPath.TargetOf | libs/server/src/proxy.ts:40-42 | the last name is the method (`undefined` when there is none); the path starts with `prefix + "/"` |
| ProxyPath.PathReadsBack | libs/server/src/proxy.ts:40-42 | the path splits back on '/' into the names before the method |
| ServerProxy.Pending.Resolve | libs/server/src/proxy.ts:59-63 | a promise settles once; later resolutions change nothing |
| ServerProxy.Store.constructor | libs/server/src/proxy.ts:12-21 | the counter starts at 0 with no resolver |
| ServerProxy.Store.Next | libs/server/src/proxy.ts:50 | `id++` hands out the old counter, which is not yet a key, and moves it on by one |
| ServerProxy.Apply | libs/server/src/proxy.ts:39-85 | `call` and `emit` each use up one id. `call` sends `[2, id, path, body]` to the current socket, or to the socket of a truthy `options.id`, and stores a pending promise under that id; a missing socket throws after the id is used. `emit` sends `[1, path, body]` to the current socket, to the socket of the id, or to every topic member but the sender, or to no one. Any other method does nothing |
| ServerProxy.ProxyFramesDecode | libs/server/src/proxy.ts:51-69 | the frames the proxy sends are JSON text that decodes to the request (with its id) or the event built |
| Server.RunHooks | libs/server/src/index.ts:97-99 | a hook loop makes at most one call per hook |
| Server.RunHooksInOrder | libs/server/src/index.ts:97-103 | hooks are called in list order, each but the last returning; a throw comes from the last call made |
| Server.RunHooksAllReturn | libs/server/src/index.ts:97-103 | the loop ends without error exactly when every hook returns, and then every hook was called |
| Server.ErrorMessage | libs/server/src/index.ts:181-184 | the reported text is the error's own string `message` or the default text |
| Server.HandleError | libs/server/src/index.ts:170-202 | `handleError` as a run: the onError hooks, then one fail or error frame; `Dispatching.HandleErrorAnswered` proves what it sends |
| Server.Serve | libs/server/src/index.ts:96-155 | a frame for a known route through every stage as a run; the `Dispatching` lemmas prove its calls and frames |
| Server.Lookup | libs/server/src/index.ts:82 | `router.get(path)` on the frame's path; `Dispatching.RouteNotFound` proves what a miss does |
| Server.Dispatch | libs/server/src/index.ts:64-156 | what `message` does with an emit or a request, as a run of calls, frames sent and how it ended; `Dispatching.DispatchAnswered` and the other `Dispatching` lemmas prove its properties |
| Server.Wsx.constructor | libs/server/src/index.ts:213-225 | the prefix defaults to ""; maps, store and hook lists start empty |
| Server.Wsx.Route | libs/server/src/index.ts:288-295 | the route is stored under `prefix + path`, replacing an earlier one, with this prefix, the handler, the schemas and a fresh copy of the current hook lists; nothing else changes |
| Server.Wsx.Event | libs/server/src/index.ts:319-320 | the event's options (`{}` when absent) are stored under `prefix + path` |
| Server.Wsx.Use | libs/server/src/index.ts:334-342 | every plugin route is copied to `prefix + path` with the prefix extended and this server's hooks before its own; other keys and the events are unchanged |
| Server.Wsx.MountAll | libs/server/src/index.ts:334-340 | the loop over the plugin's routes: every key behind the prefix is written with its copy, and no other key changes |
| Server.Wsx.MountedHooks | libs/server/src/index.ts:338 | `route.lifeCycle.clone().prepend(this.lifeCycle)` is a new store holding this server's lists followed by the route's |
| Server.Wsx.Mount | libs/server/src/index.ts:335-339 | one plugin route is copied; routes copied earlier stay as they were |
| Server.Wsx.OnRequest | libs/server/src/index.ts:347-350 | the hook is appended to the server's list; every route's lists are unchanged |
| Server.Wsx.OnHandle | libs/server/src/index.ts:352-355 | the same for onHandle |
| Server.Wsx.OnResponse | libs/server/src/index.ts:357-360 | the same for onResponse |
| Server.Wsx.OnError | libs/server/src/index.ts:362-365 | the same for onError |
| Server.MountedOfAdd | libs/server/src/index.ts:334-335 | mounting one more path adds exactly its prefixed key |
| Server.PrefixInjective | libs/server/src/index.ts:335 | distinct plugin paths stay distinct behind the prefix |
| Server.LeaveAll | libs/server/src/index.ts:56-61 | each topic of the set deletes the object given from its members, and each topic then empty is unregistered from its broadcast |
| Server.WsxHandler.Open | libs/server/src/index.ts:48-51 | the socket's only wrapper is registered under its id (the id already set, else a fresh one); no topic slot changes |
| Server.WsxHandler.Close | libs/server/src/index.ts:53-62 | as written: the id leaves the registry, but every topic keeps its members, and only topics that were already empty lose their key |
| Server.WsxHandler.CloseCorrected | libs/server/src/index.ts:53-62 | as intended: the id leaves the registry, the socket's wrapper leaves every topic it was in, and each topic left empty is unregistered; an existing wrapper and id are kept, a new wrapper keeps a non-empty id or takes the decimal draw, and the handle's topic, room and older id slots are unchanged |
| Server.WsxHandler.RunHookList | libs/server/src/index.ts:97-99 | the loop makes the calls `RunHooks` describes and stops at the same throw |
| Server.WsxHandler.HandleErrorAt | libs/server/src/index.ts:170-202 | the onError hooks run, then one frame of the given type with the error's message and `{error}` goes to the socket; a throwing hook sends nothing |
| Server.WsxHandler.ServeRoute | libs/server/src/index.ts:96-103 | the onRequest stage: a throw goes to `handleError` with "fail"; what is sent is what the run records |
| Server.WsxHandler.CheckBody | libs/server/src/index.ts:105-123 | the validation stage: issues answer a request with `[4, id, "Validation failed", issues]` and stop |
| Server.WsxHandler.HandleRoute | libs/server/src/index.ts:125-132 | the onHandle stage, as `ServeRoute` |
| Server.WsxHandler.RespondRoute | libs/server/src/index.ts:134-155 | the handler stage: a throw goes to `handleError` with "error"; a request runs the onResponse hooks and is answered `[3, id, value]` |
| Server.WsxHandler.Message | libs/server/src/index.ts:64-168 | one inbound frame: an emit or request runs as `Dispatch` says, each frame going to this socket; a response settles the resolver of its id, which stays stored; anything else does nothing. The `reuse` at the start keeps an existing wrapper and id, gives a new wrapper a non-empty id or the decimal draw, and leaves the handle's topic, room and older id slots unchanged |
| Server.WsxHandler.Receive | libs/server/src/index.ts:69-156 | an emit or request runs as `Dispatch` says, and the wire gets exactly the frames recorded |
| Server.WsxHandler.Settle | libs/server/src/index.ts:158-167 | the resolver under the response's id, if any, gets element 2; every other promise is unchanged |
| Server.CloseKeepsSubscriber | libs/server/src/index.ts:53-62 | after a subscribed socket closes, it is still a member and the topic is still registered |
| Server.CloseCorrectedLeaves | libs/server/src/index.ts:53-62 | with the corrected close, the socket leaves and the emptied topic is unregistered |
| Dispatching.HooksCallOnlyHooks | libs/server/src/index.ts:97-99 | a hook loop calls only hooks of its own stage, never a handler or a validator |
| Dispatching.RouteNotFound | libs/server/src/index.ts:82-94 | an unknown path calls no user code; a request gets one `[4, id, "Route not found", {path}]`, an emit nothing |
| Dispatching.HandlerRunsAfterChecks | libs/server/src/index.ts:96-138 | the handler runs only on a known route, on the frame's body, after every onRequest hook returned, the schema (if any) passed and every onHandle hook returned |
| Dispatching.ValidationStops | libs/server/src/index.ts:105-123 | a rejected body stops the frame before the onHandle hooks and the handler, without onError hooks; a request gets one `[4, id, "Validation failed", issues]`, an emit nothing |
| Dispatching.RequestSucceeds | libs/server/src/index.ts:96-155 | when every stage goes through, a request gets exactly `[3, id, value]`, after each hook of the three lists, at most one validation and one handler call |
| Dispatching.HookThrowFails | libs/server/src/index.ts:96-194 | a throwing onRequest or onHandle hook stops the frame before the handler; after the onError hooks, one `[4, id, message, {error}]` is sent, for an emit too |
| Dispatching.HandlerThrowErrs | libs/server/src/index.ts:134-202 | a throwing handler is answered, after the onError hooks, by one `[5, id, message, {error}]`, for an emit too |
| Dispatching.DispatchAnswered | libs/server/src/index.ts:64-168 | every emit or request gets at most one frame, shaped as a response to its id. A request gets one exactly when the dispatch finishes. An emit never gets a success. Nothing is sent when a hook of onResponse or onError throws. Other frames call and send nothing |
| Dispatching.HandleErrorAnswered | libs/server/src/index.ts:170-202 | `handleError` sends at most one fail or error frame, none when a hook throws |
| Dispatching.AnswerDecodes | libs/shared/src/proto.ts:43-62 | every answer decodes as a response to the request's id and re-encodes to itself |
| Client.ClientStore.constructor | libs/client/src/index.ts:14-27 | the counter starts at 0 with no resolver and no listener |
| Client.ClientStore.Apply | libs/client/src/index.ts:45-77 | `listen` stores the argument under the path and `unlisten` deletes it, neither sending nor using an id. Any other method uses one id and sends `[1, path, body]` for `emit` or `[2, id, path, body]` otherwise. Only `call` stores a pending promise under the id |
| Client.OutgoingFrame | libs/client/src/index.ts:60-67 | `listen` and `unlisten` send nothing; `emit` sends the protocol's encoding of an emit and every other method that of a request under the call's id |
| Client.ClientStore.Message | libs/client/src/index.ts:107-153 | a response settles the resolver of its id, which stays stored. An emit or request goes to the listener of its exact path: a missing or falsy entry is only logged, a stored non-function throws, and a request whose listener returns is answered with exactly `[3, id, result]`. Other frames are ignored |
| Client.Connection.Send | libs/client/src/index.ts:67 | each frame the client sends is appended to the connection's log, in order |
| Client.StripSlash | libs/client/src/index.ts:164 | at most one trailing '/' is removed |
| Client.SchemeChoice | libs/client/src/index.ts:157-164 | an address without "://" gets "ws://" exactly when it mentions localhost, 127.0.0.1 or 0.0.0.0 and "wss://" exactly when it does not, followed by the address less at most one trailing '/' |
| Client.FixDomain | libs/client/src/index.ts:157-166 | `fixDomain`; `SchemeChoice`, `KeepsScheme` and `FixDomainIdempotent` prove which scheme it adds and what it keeps |
| Client.Endpoint | libs/client/src/index.ts:92 | the address as given with `keepDomain`, fixed otherwise |
| Client.KeepsScheme | libs/client/src/index.ts:158-164 | an address with "://" keeps it; only a trailing '/' goes |
| Client.FixDomainIdempotent | libs/client/src/index.ts:157-166 | a fixed address that does not end in '/' is fixed again to itself |
| RoundTrip.ClientRequestAnswered | libs/client/src/index.ts:60-67 | a client request is read by the server with the client's id, path and body, and every frame the server answers with decodes as a response to that id |
| RoundTrip.ClientEmitUnanswered | libs/client/src/index.ts:62-63 | a client emit is read by the server at its path and body, and is never answered with a success |
| RoundTrip.ServerRequestAnswered | libs/client/src/index.ts:139-149 | a server request is read by the client with its id and path, and the client's success frame decodes as a response to that id, the key of the server's resolver |

## Left out

- JSON text: frames are modelled as parsed values (`Json`), with integer numbers only. `JSON.parse`, `JSON.stringify` and floating-point numbers are not modelled, and neither is a frame that is not an array.
- CharCodeAt: strings are sequences of Unicode scalar values (`char`), while JavaScript strings are sequences of UTF-16 code units. The two agree for text made only of characters of the Basic Multilingual Plane. A character outside it is one element here but two code units in the source. For such text the model differs in lengths (including the part-length test against 15 in matcher.ts), `charCodeAt` keys, `substring` and `indexOf` positions, and the router's split points. For example, with "/😀" and "/😁" registered, the source splits a node between the two halves of a surrogate pair and keys the children by low surrogates, while the model keys them by the whole characters. A lone surrogate, which a JavaScript string may hold, cannot be written here at all.
- `async`/`await` and promises: each hook, validator, handler and listener call is given by an oracle as returning or throwing. A promise is a `Pending` cell that a resolver settles once.
- `crypto.getRandomValues` is replaced by the parameter `draw`, a number below 2^32.
- Server plumbing: `attach`, `listen`, `Bun.serve` and `upgrade` with its subprotocol check (libs/server/src/index.ts:230-261 and 368-385) are socket and HTTP I/O. `onUpgrade`'s record is the `RawSocket.Upgraded` constructor.
- Client connection: opening the socket and its `open` and `close` events (libs/client/src/index.ts:90-105) are I/O. The address choice of line 92 is `Client.Endpoint`.
- Router trie identity: the trie is a value, and `add` returns the rebuilt root instead of mutating nodes with `Object.assign`. Aliasing between nodes is not modelled. A conflict can only arise before the walk has created or split a node, so rebuilding and mutating leave the same trie.
- Router.Router.Add: `history` records paths but nothing reads it, so no property is stated about it beyond the append.
- Matcher.Match: its own contract states only where a found store comes from and what a capture looks like. That a registered route is found with its values is `RouterFind.RouteFound`, under the hypothesis `Unshadowed` that the branches tried first find nothing. The precedence (static child, then parameter with backtracking, then wildcard) is the definition itself; it is not restated as a separate property.
- Server routes are looked up in a plain map by exact key, as the source does. The trie router is a separate model and is not connected to dispatch.
- The source mixes generations. `proxy.ts` publishes to a topic with the oldest room symbol, while `close` uses the current topic's remove symbol. Each class is modelled as its file writes it; the proxy's `broadcast` option is a current-design `Topic`.
- `Localcast.topic` and `Localcast.create` only narrow the base versions' return types, so the base `Broadcast` methods stand for them.
- `Sockets.RawSocket`: `topicsV2` stands for the same `data` slot as written by the intermediate topic design; the two designs are never used together.
- Server.Wsx.Use: requires `plugin != this` unless the prefix is "". With a non-empty prefix, `use(this)` adds a new key on every step while iterating the same `Map`. The iteration visits added keys, so it does not end. With prefix "" every write replaces a key the loop has already reached, so the loop visits the original routes once each, which is what the model does.
- Handler side effects through `events` (the routing proxy) and through `ws` are not part of a dispatch run; `ServerProxy.Apply` models them on their own.
- A validator that throws is not modelled: validation gives issues or a value.
- `isObject` is imported from `@wsx/shared` (libs/server/src/index.ts:2), and its definition is not part of this model. An error is "an object with a string `message`" when it is a JSON object with that field. An `Error` instance, which `JSON.stringify` writes as `{}`, is given as such an object.
- The order in which a `Set` or a `Map` is walked is left open: publish is proved for some enumeration of the members, returned as a ghost `order`, and `close`/`use` are proved for every order.
- libs/shared/src/index.ts holds an older protocol (request 1, response 2) that nothing in the core uses; it is not part of this model.
- Server.WsxHandler.Message: the response branch is also available alone as `Settle`. Both require `store.Valid()`: pending ids lie below the counter and each has its own promise. The constructor establishes it and `ServerProxy.Apply` keeps it.
- ServerProxy.Apply and Client.ClientStore.Apply: require the same store invariant, for the same reason.
- Client.SchemeChoice: requires a non-empty address. `fixDomain("")` gives "wss:/", because the trailing-'/' strip removes the scheme's own last '/'. `FixDomain` computes the same; the lemma's statement about the address that follows the scheme does not hold for "".
- libs/server/src/broadcast/rediscast.ts (Redis I/O), libs/client/src/ws.ts and utils.ts (a separate wrapper), and the type-only files are not part of this model.

## Findings

| source | as written | input that shows it | evidently intended | confidence | as-written member | corrected member |
|---|---|---|---|---|---|---|
| libs/server/src/index.ts:59 | `close` passes the raw handle to each topic's remove, but topics hold wrappers, so no member is ever removed, and a close unregisters only topics that were already empty | a socket opens, subscribes to topic "room", then closes: it is still a member of "room", which stays registered and keeps publishing to the closed socket | the socket's wrapper leaves each of its topics, and a topic left empty is unregistered | not executed | Server.WsxHandler.Close, Server.CloseKeepsSubscriber | Server.WsxHandler.CloseCorrected, Server.CloseCorrectedLeaves |
