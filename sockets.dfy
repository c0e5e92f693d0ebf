/**
 * Sockets and pub/sub topics on the server side.
 *
 * A `RawSocket` is the runtime's WebSocket handle with its `data` record;
 * `WsxSocket` (and the older `LegacySocket`) wrap it and keep their id in
 * that record. Three generations of the topic design live side by side:
 * `Topic`/`Broadcast` (a topic delegates publishing to its broadcast),
 * `TopicV2`/`BroadcastV2` (a topic publishes itself) and `Room`/`Manager`
 * (over the older socket). Sending is I/O: every `raw.send` appends one
 * entry to a `Wire` log, so what was sent, to whom and in which order is
 * part of the state.
 */
module Sockets {
  import opened Wrappers
  import opened Proto

  /** What `send` is given: a Buffer, any JSON value, or `undefined`. */
  datatype Value = Buffer(bytes: seq<bv8>) | Js(j: Json) | Undefined

  /** What reaches `raw.send`: the bytes of a Buffer, JSON text of a value, or the value as it was. */
  datatype Payload = Binary(bytes: seq<bv8>) | JsonText(j: Json) | AsIs(v: Value)

  /** `typeof v === "object"` for a non-Buffer value: null, arrays and objects. */
  predicate IsObjectValue(v: Value)
  {
    v.Js? && (v.j.JNull? || v.j.JArr? || v.j.JObj?)
  }

  /** The three branches of `send`: Buffer first, then objects as JSON text, then anything else. */
  function Encoding(v: Value): (p: Payload)
    ensures p.Binary? <==> v.Buffer?
    ensures p.JsonText? <==> IsObjectValue(v)
    ensures p.Binary? ==> p.bytes == v.bytes
    ensures p.JsonText? ==> v == Js(p.j)
    ensures p.AsIs? ==> p.v == v
  {
    if v.Buffer? then Binary(v.bytes)
    else if IsObjectValue(v) then JsonText(v.j)
    else AsIs(v)
  }

  /** A frame handed to `send` is a JSON array, so it always goes out as JSON text. */
  lemma FrameIsText(f: Frame)
    ensures Encoding(Js(JArr(Encode(f)))) == JsonText(JArr(Encode(f)))
  {
  }

  // ---------------------------------------------------------------- ids

  function Digit(d: nat): char
    requires d < 10
  {
    "0123456789"[d]
  }

  /** `n.toString()` for a non-negative integer. */
  function ToDecimal(n: nat): (s: string)
    ensures |s| > 0
    ensures forall i :: 0 <= i < |s| ==> '0' <= s[i] <= '9'
    ensures n < 10 <==> |s| == 1
  {
    if n < 10 then [Digit(n)] else ToDecimal(n / 10) + [Digit(n % 10)]
  }

  /** The value of a string of decimal digits. */
  function FromDecimal(s: string): nat
    requires forall i :: 0 <= i < |s| ==> '0' <= s[i] <= '9'
  {
    if s == [] then 0 else FromDecimal(s[..|s| - 1]) * 10 + (s[|s| - 1] as int - '0' as int)
  }

  /** Reading a generated id back gives the number drawn: distinct draws give distinct ids. */
  lemma {:induction false} DecimalRoundTrip(n: nat)
    ensures FromDecimal(ToDecimal(n)) == n
  {
    var s := ToDecimal(n);
    if n >= 10 {
      DecimalRoundTrip(n / 10);
      assert s[..|s| - 1] == ToDecimal(n / 10);
    }
    assert "0123456789"[n % 10] as int - '0' as int == n % 10;
  }

  /** `!this.id`: an id slot counts as set only when it holds a non-empty string. */
  predicate HasId(id: Option<string>)
  {
    id.Some? && id.value != ""
  }

  // ------------------------------------------------------------- sending

  /** The network: every `raw.send` appends the handle and what it was given. */
  class Wire {
    var log: seq<(RawSocket, Payload)>

    constructor()
      ensures log == []
    {
      log := [];
    }
  }

  /** One entry per recipient, in the order given, each to the recipient's handle and all carrying `p`. */
  function Deliveries<S>(to: seq<S>, handle: S -> RawSocket, p: Payload): (d: seq<(RawSocket, Payload)>)
    ensures |d| == |to|
    ensures forall i :: 0 <= i < |to| ==> d[i] == (handle(to[i]), p)
  {
    seq(|to|, i requires 0 <= i < |to| => (handle(to[i]), p))
  }

  /** The handle a current-design wrapper sends through. */
  function HandleOf(s: WsxSocket): RawSocket
  {
    s.raw
  }

  /** The handle a legacy wrapper sends through. */
  function LegacyHandleOf(s: LegacySocket): RawSocket
  {
    s.raw
  }

  /** The socket a publish skips: none, or the sender. */
  function Skip<S>(except: Option<S>): set<S>
  {
    if except.None? then {} else {except.value}
  }

  /** The membership set after `??= new Set()` and `.add(x)`. */
  function Joined<S>(members: Option<set<S>>, x: S): set<S>
  {
    (if members.None? then {} else members.value) + {x}
  }

  /** The membership set after `?.delete(x)`: nothing happens to a missing set. */
  function Left<S>(members: Option<set<S>>, x: S): Option<set<S>>
  {
    if members.None? then None else Some(members.value - {x})
  }

  // ------------------------------------------------------------- sockets

  /**
   * The runtime's socket handle. Its `data` record holds the wrapper
   * (`wrapper`), the wrapper's id and the set of topics the socket is in;
   * `topicsV2` is the same slot as written by the intermediate topic
   * generation, and `legacyId`/`rooms` are the older socket's slots.
   */
  class RawSocket {
    var wrapper: WsxSocket?
    var id: Option<string>
    var topics: Option<set<Topic>>
    var topicsV2: Option<set<TopicV2>>
    var legacyId: Option<string>
    var rooms: Option<set<Room>>

    /** A handle whose `data` is what `onUpgrade` prepares: no wrapper, id "", no topics. */
    constructor Upgraded()
      ensures wrapper == null && id == Some("") && topics == None
      ensures topicsV2 == None && legacyId == None && rooms == None
    {
      wrapper := null;
      id := Some("");
      topics := None;
      topicsV2 := None;
      legacyId := None;
      rooms := None;
    }

    /** The wrapper stored in `data` wraps this handle, and then the id slot is set. */
    ghost predicate Valid()
      reads this
    {
      wrapper != null ==> wrapper.raw == this && id.Some?
    }
  }

  /** The current socket wrapper (`socket/index.ts`). */
  class WsxSocket {
    const raw: RawSocket

    /**
     * Keeps an id already in `data` unless it is empty or missing; then it
     * writes the decimal form of a 32-bit random number `draw`.
     */
    constructor(raw: RawSocket, draw: nat)
      requires draw < 0x1_0000_0000
      modifies raw
      ensures this.raw == raw
      ensures raw.id == (if HasId(old(raw.id)) then old(raw.id) else Some(ToDecimal(draw)))
      ensures HasId(raw.id)
      ensures raw.wrapper == old(raw.wrapper) && raw.topics == old(raw.topics)
      ensures raw.topicsV2 == old(raw.topicsV2) && raw.legacyId == old(raw.legacyId) && raw.rooms == old(raw.rooms)
    {
      this.raw := raw;
      new;
      if !HasId(raw.id) {
        raw.id := Some(ToDecimal(draw));
      }
    }

    /**
     * `reuse(raw)`: the wrapper already stored in `data`, or a new one that is
     * stored there. A handle has at most one wrapper: a second call returns
     * the first call's wrapper and changes nothing.
     */
    static method Reuse(raw: RawSocket, draw: nat) returns (w: WsxSocket)
      requires draw < 0x1_0000_0000 && raw.Valid()
      modifies raw
      ensures raw.Valid() && raw.wrapper == w && w.raw == raw
      ensures old(raw.wrapper) != null ==> w == old(raw.wrapper) && unchanged(raw)
      ensures old(raw.wrapper) == null ==>
        && fresh(w)
        && raw.id == (if HasId(old(raw.id)) then old(raw.id) else Some(ToDecimal(draw)))
        && raw.topics == old(raw.topics) && raw.topicsV2 == old(raw.topicsV2)
        && raw.legacyId == old(raw.legacyId) && raw.rooms == old(raw.rooms)
    {
      if raw.wrapper == null {
        var made := new WsxSocket(raw, draw);
        raw.wrapper := made;
      }
      w := raw.wrapper;
    }

    /** The `id` getter reads the slot in `data`. */
    function Id(): Option<string>
      reads raw
    {
      raw.id
    }

    /** The `id` setter writes the slot in `data` and nothing else. */
    method SetId(value: string)
      modifies raw
      ensures Id() == Some(value)
      ensures raw.wrapper == old(raw.wrapper) && raw.topics == old(raw.topics)
      ensures raw.topicsV2 == old(raw.topicsV2) && raw.legacyId == old(raw.legacyId) && raw.rooms == old(raw.rooms)
    {
      raw.id := Some(value);
    }

    /** `[send](data)`: exactly one `raw.send`, of what `Encoding` makes of `data`. */
    method Send(data: Value, wire: Wire)
      modifies wire
      ensures wire.log == old(wire.log) + [(raw, Encoding(data))]
    {
      wire.log := wire.log + [(raw, Encoding(data))];
    }
  }

  /** The older socket wrapper (`socket.ts`): the same id rule on its own slot, no `reuse`. */
  class LegacySocket {
    const raw: RawSocket

    constructor(raw: RawSocket, draw: nat)
      requires draw < 0x1_0000_0000
      modifies raw
      ensures this.raw == raw
      ensures raw.legacyId == (if HasId(old(raw.legacyId)) then old(raw.legacyId) else Some(ToDecimal(draw)))
      ensures HasId(raw.legacyId)
      ensures raw.wrapper == old(raw.wrapper) && raw.id == old(raw.id) && raw.topics == old(raw.topics)
      ensures raw.topicsV2 == old(raw.topicsV2) && raw.rooms == old(raw.rooms)
    {
      this.raw := raw;
      new;
      if !HasId(raw.legacyId) {
        raw.legacyId := Some(ToDecimal(draw));
      }
    }

    function Id(): Option<string>
      reads raw
    {
      raw.legacyId
    }

    /** After construction the id changes only through this setter. */
    method SetId(value: string)
      modifies raw
      ensures Id() == Some(value)
      ensures raw.wrapper == old(raw.wrapper) && raw.id == old(raw.id) && raw.topics == old(raw.topics)
      ensures raw.topicsV2 == old(raw.topicsV2) && raw.rooms == old(raw.rooms)
    {
      raw.legacyId := Some(value);
    }

    method Send(data: Value, wire: Wire)
      modifies wire
      ensures wire.log == old(wire.log) + [(raw, Encoding(data))]
    {
      wire.log := wire.log + [(raw, Encoding(data))];
    }
  }

  /** `order` lists every element of `done` exactly once. */
  ghost predicate Enumerates<S>(order: seq<S>, done: set<S>)
  {
    multiset(order) == multiset(done)
  }

  /** Adding a new element to a set extends any enumeration of it by that element. */
  lemma Enumerate<S>(order: seq<S>, done: set<S>, s: S)
    requires Enumerates(order, done) && s !in done
    ensures Enumerates(order + [s], done + {s})
  {
    assert multiset(done + {s}) == multiset(done) + multiset{s};
  }

  /**
   * Walking one more element `s` of `left`: it moves to `walked`, and it
   * joins `target` (the walked elements not skipped) unless it is skipped.
   */
  lemma WalkStep<S>(members: set<S>, left: set<S>, walked: set<S>, skip: set<S>, target: set<S>, s: S)
    requires left + walked == members && left !! walked && target == walked - skip && s in left
    ensures (left - {s}) + (walked + {s}) == members && (left - {s}) !! (walked + {s})
    ensures s !in target
    ensures (walked + {s}) - skip == target + (if s in skip then {} else {s})
  {
  }

  /** The log after one more send, regrouped. */
  lemma LogStep<X>(base: seq<X>, d: seq<X>, x: X)
    ensures base + d + [x] == base + (d + [x])
  {
  }

  lemma DeliveriesStep<S>(order: seq<S>, s: S, handle: S -> RawSocket, p: Payload)
    ensures Deliveries(order + [s], handle, p) == Deliveries(order, handle, p) + [(handle(s), p)]
  {
  }

  /** One socket of a publish: sent the data unless it is the one skipped. */
  method Visit(s: WsxSocket, data: Value, except: Option<WsxSocket>, wire: Wire,
      ghost base: seq<(RawSocket, Payload)>, ghost order: seq<WsxSocket>, ghost target: set<WsxSocket>)
      returns (ghost order': seq<WsxSocket>, ghost target': set<WsxSocket>)
    requires s !in target && Enumerates(order, target)
    requires wire.log == base + Deliveries(order, HandleOf, Encoding(data))
    modifies wire
    ensures target' == target + (if s in Skip(except) then {} else {s})
    ensures Enumerates(order', target')
    ensures wire.log == base + Deliveries(order', HandleOf, Encoding(data))
  {
    order', target' := order, target;
    if except.None? || s != except.value {
      s.Send(data, wire);
      Enumerate(order, target, s);
      DeliveriesStep(order, s, HandleOf, Encoding(data));
      LogStep(base, Deliveries(order, HandleOf, Encoding(data)), (s.raw, Encoding(data)));
      order' := order + [s];
      target' := target + {s};
    }
  }

  /**
   * Sends `data` once to every socket of `members` other than `except`,
   * and to no one else; `order` is the order the set was walked in.
   */
  method SendToAll(members: set<WsxSocket>, data: Value, except: Option<WsxSocket>, wire: Wire)
      returns (ghost order: seq<WsxSocket>)
    modifies wire
    ensures Enumerates(order, members - Skip(except))
    ensures wire.log == old(wire.log) + Deliveries(order, HandleOf, Encoding(data))
  {
    var left := members;
    order := [];
    ghost var walked: set<WsxSocket> := {};
    ghost var target: set<WsxSocket> := {};
    while left != {}
      invariant left + walked == members && left !! walked && target == walked - Skip(except)
      invariant Enumerates(order, target)
      invariant wire.log == old(wire.log) + Deliveries(order, HandleOf, Encoding(data))
      decreases left
    {
      var s :| s in left;
      WalkStep(members, left, walked, Skip(except), target, s);
      order, target := Visit(s, data, except, wire, old(wire.log), order, target);
      left := left - {s};
      walked := walked + {s};
    }
  }

  /** One socket of a publish: sent the data unless it is the one skipped. */
  method LegacyVisit(s: LegacySocket, data: Value, except: Option<LegacySocket>, wire: Wire,
      ghost base: seq<(RawSocket, Payload)>, ghost order: seq<LegacySocket>, ghost target: set<LegacySocket>)
      returns (ghost order': seq<LegacySocket>, ghost target': set<LegacySocket>)
    requires s !in target && Enumerates(order, target)
    requires wire.log == base + Deliveries(order, LegacyHandleOf, Encoding(data))
    modifies wire
    ensures target' == target + (if s in Skip(except) then {} else {s})
    ensures Enumerates(order', target')
    ensures wire.log == base + Deliveries(order', LegacyHandleOf, Encoding(data))
  {
    order', target' := order, target;
    if except.None? || s != except.value {
      s.Send(data, wire);
      Enumerate(order, target, s);
      DeliveriesStep(order, s, LegacyHandleOf, Encoding(data));
      LogStep(base, Deliveries(order, LegacyHandleOf, Encoding(data)), (s.raw, Encoding(data)));
      order' := order + [s];
      target' := target + {s};
    }
  }

  method LegacySendToAll(members: set<LegacySocket>, data: Value, except: Option<LegacySocket>, wire: Wire)
      returns (ghost order: seq<LegacySocket>)
    modifies wire
    ensures Enumerates(order, members - Skip(except))
    ensures wire.log == old(wire.log) + Deliveries(order, LegacyHandleOf, Encoding(data))
  {
    var left := members;
    order := [];
    ghost var walked: set<LegacySocket> := {};
    ghost var target: set<LegacySocket> := {};
    while left != {}
      invariant left + walked == members && left !! walked && target == walked - Skip(except)
      invariant Enumerates(order, target)
      invariant wire.log == old(wire.log) + Deliveries(order, LegacyHandleOf, Encoding(data))
      decreases left
    {
      var s :| s in left;
      WalkStep(members, left, walked, Skip(except), target, s);
      order, target := LegacyVisit(s, data, except, wire, old(wire.log), order, target);
      left := left - {s};
      walked := walked + {s};
    }
  }

  // ----------------------------------------------- topics (current design)

  /** `Broadcast`: the map from key to topic, and the publish every topic delegates to. */
  class Broadcast {
    var topics: map<string, Topic>

    constructor()
      ensures topics == map[]
    {
      topics := map[];
    }

    /** `topic(key)`: the registered topic, or a new one registered under `key`. */
    method GetTopic(key: string) returns (t: Topic)
      modifies this
      ensures key in old(topics) ==> t == old(topics)[key] && topics == old(topics)
      ensures key !in old(topics) ==>
        fresh(t) && t.sockets == {} && t.key == key && t.broadcast == this && topics == old(topics)[key := t]
    {
      if key in topics {
        return topics[key];
      }
      t := Create(key);
    }

    /** `create(key)`: a new empty topic under `key`, replacing any earlier one. */
    method Create(key: string) returns (t: Topic)
      modifies this
      ensures fresh(t) && t.sockets == {} && t.key == key && t.broadcast == this
      ensures topics == old(topics)[key := t]
    {
      t := new Topic(this, key);
      topics := topics[key := t];
    }

    /** `remove(key)`: deletes that key only. */
    method Remove(key: string)
      modifies this
      ensures topics == old(topics) - {key}
    {
      topics := topics - {key};
    }

    /** `[publish](topic, data, except)`: membership and the topic map are left alone. */
    method Publish(topic: Topic, data: Value, except: Option<WsxSocket>, wire: Wire)
        returns (ghost order: seq<WsxSocket>)
      modifies wire
      ensures Enumerates(order, topic.sockets - Skip(except))
      ensures wire.log == old(wire.log) + Deliveries(order, HandleOf, Encoding(data))
    {
      order := SendToAll(topic.sockets, data, except, wire);
    }
  }

  /** A pub/sub topic: its members, and the broadcast it is registered in under `key`. */
  class Topic {
    var sockets: set<WsxSocket>
    const broadcast: Broadcast
    const key: string

    constructor(broadcast: Broadcast, key: string)
      ensures sockets == {} && this.broadcast == broadcast && this.key == key
    {
      sockets := {};
      this.broadcast := broadcast;
      this.key := key;
    }

    /**
     * Adds the socket to the topic and the topic to the socket's membership
     * set (creating it if absent). Applying it twice is applying it once.
     */
    method Subscribe(socket: WsxSocket)
      modifies this, socket.raw
      ensures sockets == old(sockets) + {socket}
      ensures socket.raw.topics == Some(Joined(old(socket.raw.topics), this))
      ensures socket.raw.wrapper == old(socket.raw.wrapper) && socket.raw.id == old(socket.raw.id)
      ensures socket.raw.topicsV2 == old(socket.raw.topicsV2) && socket.raw.legacyId == old(socket.raw.legacyId)
      ensures socket.raw.rooms == old(socket.raw.rooms)
    {
      sockets := sockets + {socket};
      socket.raw.topics := Some(Joined(socket.raw.topics, this));
    }

    /** Removes the socket from both sides; a topic left empty is unregistered. */
    method Unsubscribe(socket: WsxSocket)
      modifies this, broadcast, socket.raw
      ensures sockets == old(sockets) - {socket}
      ensures broadcast.topics == if sockets == {} then old(broadcast.topics) - {key} else old(broadcast.topics)
      ensures socket.raw.topics == Left(old(socket.raw.topics), this)
      ensures socket.raw.wrapper == old(socket.raw.wrapper) && socket.raw.id == old(socket.raw.id)
      ensures socket.raw.topicsV2 == old(socket.raw.topicsV2) && socket.raw.legacyId == old(socket.raw.legacyId)
      ensures socket.raw.rooms == old(socket.raw.rooms)
    {
      Remove(socket);
      socket.raw.topics := Left(socket.raw.topics, this);
    }

    /**
     * `[remove](socket)`: deletes whatever object it is given from the member
     * set (only a wrapper can be there) and unregisters the topic when the
     * set is then empty.
     */
    method Remove(socket: object)
      modifies this, broadcast
      ensures sockets == set s | s in old(sockets) && s != socket
      ensures broadcast.topics == if sockets == {} then old(broadcast.topics) - {key} else old(broadcast.topics)
    {
      sockets := set s | s in sockets && s != socket;
      if sockets == {} {
        broadcast.Remove(key);
      }
    }

    /** `[publish](data, except)`: the broadcast's publish, for this topic. */
    method Publish(data: Value, except: Option<WsxSocket>, wire: Wire) returns (ghost order: seq<WsxSocket>)
      modifies wire
      ensures Enumerates(order, sockets - Skip(except))
      ensures wire.log == old(wire.log) + Deliveries(order, HandleOf, Encoding(data))
    {
      order := broadcast.Publish(this, data, except, wire);
    }
  }

  /** Only a socket wrapper can be a member: removing a raw handle removes nothing. */
  lemma RawIsNeverMember(t: set<WsxSocket>, raw: RawSocket)
    ensures (set s | s in t && s != raw as object) == t
  {
  }

  // ------------------------------------------ topics (intermediate design)

  /** `Broadcast` of the intermediate design: only the map and `remove`. */
  class BroadcastV2 {
    var topics: map<string, TopicV2>

    constructor()
      ensures topics == map[]
    {
      topics := map[];
    }

    method Remove(key: string)
      modifies this
      ensures topics == old(topics) - {key}
    {
      topics := topics - {key};
    }

    /** `LocalBroadcast.topic(key)`: get or create. */
    method GetTopic(key: string) returns (t: TopicV2)
      modifies this
      ensures key in old(topics) ==> t == old(topics)[key] && topics == old(topics)
      ensures key !in old(topics) ==>
        fresh(t) && t.sockets == {} && t.key == key && t.broadcast == this && topics == old(topics)[key := t]
    {
      if key in topics {
        return topics[key];
      }
      t := new TopicV2(this, key);
      topics := topics[key := t];
    }
  }

  /** `Topic` of the intermediate design: it publishes to its members itself. */
  class TopicV2 {
    var sockets: set<WsxSocket>
    const broadcast: BroadcastV2
    const key: string

    constructor(broadcast: BroadcastV2, key: string)
      ensures sockets == {} && this.broadcast == broadcast && this.key == key
    {
      sockets := {};
      this.broadcast := broadcast;
      this.key := key;
    }

    method Subscribe(socket: WsxSocket)
      modifies this, socket.raw
      ensures sockets == old(sockets) + {socket}
      ensures socket.raw.topicsV2 == Some(Joined(old(socket.raw.topicsV2), this))
      ensures socket.raw.wrapper == old(socket.raw.wrapper) && socket.raw.id == old(socket.raw.id)
      ensures socket.raw.topics == old(socket.raw.topics) && socket.raw.legacyId == old(socket.raw.legacyId)
      ensures socket.raw.rooms == old(socket.raw.rooms)
    {
      sockets := sockets + {socket};
      socket.raw.topicsV2 := Some(Joined(socket.raw.topicsV2, this));
    }

    method Unsubscribe(socket: WsxSocket)
      modifies this, broadcast, socket.raw
      ensures sockets == old(sockets) - {socket}
      ensures broadcast.topics == if sockets == {} then old(broadcast.topics) - {key} else old(broadcast.topics)
      ensures socket.raw.topicsV2 == Left(old(socket.raw.topicsV2), this)
      ensures socket.raw.wrapper == old(socket.raw.wrapper) && socket.raw.id == old(socket.raw.id)
      ensures socket.raw.topics == old(socket.raw.topics) && socket.raw.legacyId == old(socket.raw.legacyId)
      ensures socket.raw.rooms == old(socket.raw.rooms)
    {
      Remove(socket);
      socket.raw.topicsV2 := Left(socket.raw.topicsV2, this);
    }

    method Remove(socket: WsxSocket)
      modifies this, broadcast
      ensures sockets == old(sockets) - {socket}
      ensures broadcast.topics == if sockets == {} then old(broadcast.topics) - {key} else old(broadcast.topics)
    {
      sockets := sockets - {socket};
      if sockets == {} {
        broadcast.Remove(key);
      }
    }

    method Publish(data: Value, except: Option<WsxSocket>, wire: Wire) returns (ghost order: seq<WsxSocket>)
      modifies wire
      ensures Enumerates(order, sockets - Skip(except))
      ensures wire.log == old(wire.log) + Deliveries(order, HandleOf, Encoding(data))
    {
      order := SendToAll(sockets, data, except, wire);
    }
  }

  // ------------------------------------------------- rooms (oldest design)

  /** `BroadcastsManager`: the map from topic name to room. */
  class Manager {
    var broadcasts: map<string, Room>

    constructor()
      ensures broadcasts == map[]
    {
      broadcasts := map[];
    }

    method Remove(topic: string)
      modifies this
      ensures broadcasts == old(broadcasts) - {topic}
    {
      broadcasts := broadcasts - {topic};
    }

    /** `LocalBroadcastsManager.topic(topic)`: get or create. */
    method GetTopic(topic: string) returns (r: Room)
      modifies this
      ensures topic in old(broadcasts) ==> r == old(broadcasts)[topic] && broadcasts == old(broadcasts)
      ensures topic !in old(broadcasts) ==>
        fresh(r) && r.sockets == {} && r.topic == topic && r.manager == this
        && broadcasts == old(broadcasts)[topic := r]
    {
      if topic in broadcasts {
        return broadcasts[topic];
      }
      r := new Room(topic, this);
      broadcasts := broadcasts[topic := r];
    }
  }

  /** The oldest `Broadcast`: a room of older-style sockets. */
  class Room {
    var sockets: set<LegacySocket>
    const topic: string
    const manager: Manager

    constructor(topic: string, manager: Manager)
      ensures sockets == {} && this.topic == topic && this.manager == manager
    {
      sockets := {};
      this.topic := topic;
      this.manager := manager;
    }

    method Subscribe(socket: LegacySocket)
      modifies this, socket.raw
      ensures sockets == old(sockets) + {socket}
      ensures socket.raw.rooms == Some(Joined(old(socket.raw.rooms), this))
      ensures socket.raw.wrapper == old(socket.raw.wrapper) && socket.raw.id == old(socket.raw.id)
      ensures socket.raw.topics == old(socket.raw.topics) && socket.raw.topicsV2 == old(socket.raw.topicsV2)
      ensures socket.raw.legacyId == old(socket.raw.legacyId)
    {
      sockets := sockets + {socket};
      socket.raw.rooms := Some(Joined(socket.raw.rooms, this));
    }

    method Unsubscribe(socket: LegacySocket)
      modifies this, manager, socket.raw
      ensures sockets == old(sockets) - {socket}
      ensures manager.broadcasts == if sockets == {} then old(manager.broadcasts) - {topic} else old(manager.broadcasts)
      ensures socket.raw.rooms == Left(old(socket.raw.rooms), this)
      ensures socket.raw.wrapper == old(socket.raw.wrapper) && socket.raw.id == old(socket.raw.id)
      ensures socket.raw.topics == old(socket.raw.topics) && socket.raw.topicsV2 == old(socket.raw.topicsV2)
      ensures socket.raw.legacyId == old(socket.raw.legacyId)
    {
      Remove(socket);
      socket.raw.rooms := Left(socket.raw.rooms, this);
    }

    /** `[roomRemoveSymbol](socket)`. */
    method Remove(socket: LegacySocket)
      modifies this, manager
      ensures sockets == old(sockets) - {socket}
      ensures manager.broadcasts == if sockets == {} then old(manager.broadcasts) - {topic} else old(manager.broadcasts)
    {
      sockets := sockets - {socket};
      if sockets == {} {
        manager.Remove(topic);
      }
    }

    /** `[roomPublishSymbol](data, except)`. */
    method Publish(data: Value, except: Option<LegacySocket>, wire: Wire) returns (ghost order: seq<LegacySocket>)
      modifies wire
      ensures Enumerates(order, sockets - Skip(except))
      ensures wire.log == old(wire.log) + Deliveries(order, LegacyHandleOf, Encoding(data))
    {
      order := LegacySendToAll(sockets, data, except, wire);
    }
  }
}
