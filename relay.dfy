/** The action relay of the socket server: a Redis subscriber that forwards every message
    published on the `action` channel to the socket room of the action's project, and the
    `identify-user` handshake that puts a socket in the room of its user's current project.
    Sockets are identified by id; what each socket has received is its inbox. */
module Relay {
  import opened Wrappers
  import opened Envelope

  type SocketId = string

  /** The channel actions are published on. */
  const ActionChannel := "action"

  /** Rooms are named `projects-<project id>` (plural). */
  const RoomPrefix := "projects-"

  /** The room an action is emitted to: the template literal turns a missing project into
      the text `undefined`. */
  function RoomOf(project: Option<string>): (room: string)
    ensures project.Some? ==> room == RoomPrefix + project.value
    ensures project.None? ==> room == RoomPrefix + "undefined"
    ensures |room| >= |RoomPrefix| && room[..|RoomPrefix|] == RoomPrefix
  {
    RoomPrefix + (if project.Some? then project.value else "undefined")
  }

  /** Different projects have different rooms. */
  lemma RoomOfInjective(p: string, q: string)
    requires RoomOf(Some(p)) == RoomOf(Some(q))
    ensures p == q
  {
    assert p == RoomOf(Some(p))[|RoomPrefix|..];
  }

  /** Which rooms each connected socket has joined, the channels the subscriber listens to,
      and the actions each connected socket has received. */
  datatype State = State(rooms: map<SocketId, set<string>>, subscriptions: set<string>,
                         inbox: map<SocketId, seq<Action<Opaque>>>)

  ghost predicate Valid(s: State) {
    s.rooms.Keys == s.inbox.Keys && ActionChannel in s.subscriptions
  }

  /** The sockets in `room`. */
  function Members(s: State, room: string): (ks: set<SocketId>)
    ensures forall k :: k in ks <==> k in s.rooms && room in s.rooms[k]
  {
    set k | k in s.rooms && room in s.rooms[k]
  }

  /** The subscriber right after start-up: no socket yet, subscribed to `action`. */
  const Initial: State := State(map[], {ActionChannel}, map[])

  /** A socket connects: it is in no room and has received nothing. */
  function Connect(s: State, socket: SocketId): (r: State)
    requires Valid(s) && socket !in s.rooms
    ensures Valid(r) && r.rooms == s.rooms[socket := {}] && r.inbox == s.inbox[socket := []]
    ensures r.subscriptions == s.subscriptions
  {
    State(s.rooms[socket := {}], s.subscriptions, s.inbox[socket := []])
  }

  /** `identify-user`: with a current project, the socket joins that project's room and the
      subscriber subscribes to a channel of the same name; without one, nothing changes. */
  function Identify(s: State, socket: SocketId, currentProject: Option<string>): (r: State)
    requires Valid(s) && socket in s.rooms
    ensures Valid(r) && r.inbox == s.inbox && r.rooms.Keys == s.rooms.Keys
    ensures currentProject.None? ==> r == s
    ensures currentProject.Some? ==>
              && r.rooms[socket] == s.rooms[socket] + {RoomOf(currentProject)}
              && r.subscriptions == s.subscriptions + {RoomOf(currentProject)}
    ensures forall k :: k in s.rooms && k != socket ==> r.rooms[k] == s.rooms[k]
  {
    if currentProject.None? then s
    else
      var room := RoomOf(currentProject);
      State(s.rooms[socket := s.rooms[socket] + {room}], s.subscriptions + {room}, s.inbox)
  }

  /** The `message` handler: a message on the `action` channel is parsed and emitted to
      every socket in the room of its project; a message on any other channel is dropped. */
  function Receive(s: State, channel: string, message: string, parse: string -> Action<Opaque>): (r: State)
    requires Valid(s)
    ensures Valid(r) && r.rooms == s.rooms && r.subscriptions == s.subscriptions
    ensures r.inbox.Keys == s.inbox.Keys
    ensures channel != ActionChannel ==> r == s
    ensures channel == ActionChannel ==>
              forall k :: k in s.inbox ==>
                r.inbox[k] == s.inbox[k] + if k in Members(s, RoomOf(parse(message).meta.project))
                                          then [parse(message)] else []
  {
    if channel != ActionChannel then s
    else
      var action := parse(message);
      var room := RoomOf(action.meta.project);
      State(s.rooms, s.subscriptions,
            map k | k in s.inbox :: if k in s.rooms && room in s.rooms[k] then s.inbox[k] + [action] else s.inbox[k])
  }

  /** Joins are never undone: identifying again with another project keeps the old room. */
  lemma {:induction false} IdentifyKeepsRooms(s: State, socket: SocketId, first: string, second: string)
    requires Valid(s) && socket in s.rooms
    ensures var s1 := Identify(s, socket, Some(first));
            var s2 := Identify(s1, socket, Some(second));
            && RoomOf(Some(first)) in s2.rooms[socket]
            && RoomOf(Some(second)) in s2.rooms[socket]
            && socket in Members(s2, RoomOf(Some(first))) * Members(s2, RoomOf(Some(second)))
  {
    var s1 := Identify(s, socket, Some(first));
    assert RoomOf(Some(first)) in s1.rooms[socket];
  }

  /** An action reaches a socket exactly when the socket is in the action's project room:
      whoever initiated it, so the originator gets its own action back. */
  lemma {:induction false} DeliveredIffMember(s: State, message: string, parse: string -> Action<Opaque>, k: SocketId)
    requires Valid(s) && k in s.inbox
    ensures var r := Receive(s, ActionChannel, message, parse);
            var a := parse(message);
            && (r.inbox[k] != s.inbox[k] <==> k in s.rooms && RoomOf(a.meta.project) in s.rooms[k])
            && (r.inbox[k] != s.inbox[k] ==> r.inbox[k][|s.inbox[k]|] == a)
  {
    var r := Receive(s, ActionChannel, message, parse);
    var a := parse(message);
    if k in Members(s, RoomOf(a.meta.project)) {
      assert |r.inbox[k]| == |s.inbox[k]| + 1;
    }
  }

  /** Messages on a project room's own channel, to which `identify-user` subscribes, are
      dropped like any other channel but `action`. */
  lemma RoomChannelDropped(s: State, project: string, message: string, parse: string -> Action<Opaque>)
    requires Valid(s)
    ensures RoomOf(Some(project)) != ActionChannel
    ensures Receive(s, RoomOf(Some(project)), message, parse) == s
  {
    assert RoomOf(Some(project))[0] == 'p';
  }

  /** Two clients A and B in the room of project P1 and a client C in that of P2: an action
      of P1 reaches A (which sent it) and B, and not C. */
  lemma {:induction false} TwoRoomsScenario(message: string, parse: string -> Action<Opaque>)
    requires parse(message).meta == Meta(Some("A"), Some("P1"), true)
    ensures var s0 := Connect(Connect(Connect(Initial, "A"), "B"), "C");
            var s1 := Identify(Identify(Identify(s0, "A", Some("P1")), "B", Some("P1")), "C", Some("P2"));
            var s2 := Receive(s1, ActionChannel, message, parse);
            && s2.inbox["A"] == [parse(message)]
            && s2.inbox["B"] == [parse(message)]
            && s2.inbox["C"] == []
  {
    var s0 := Connect(Connect(Connect(Initial, "A"), "B"), "C");
    var s1 := Identify(Identify(Identify(s0, "A", Some("P1")), "B", Some("P1")), "C", Some("P2"));
    assert s1.rooms["A"] == {RoomOf(Some("P1"))} && s1.rooms["B"] == {RoomOf(Some("P1"))};
    assert s1.rooms["C"] == {RoomOf(Some("P2"))};
    assert RoomOf(Some("P1")) != RoomOf(Some("P2")) by {
      assert RoomOf(Some("P1"))[|RoomPrefix| + 1] == '1';
    }
    assert s1.inbox["A"] == [] && s1.inbox["B"] == [] && s1.inbox["C"] == [];
  }

  /** The socket server: the subscriber's channels, and the rooms and inbox of every socket. */
  class Server {
    var rooms: map<SocketId, set<string>>
    var subscriptions: set<string>
    var inbox: map<SocketId, seq<Action<Opaque>>>

    function Snapshot(): State
      reads this
    {
      State(rooms, subscriptions, inbox)
    }

    /** `initSocket`: the subscriber subscribes to `action`. */
    constructor ()
      ensures Snapshot() == Initial
    {
      rooms, inbox := map[], map[];
      subscriptions := {ActionChannel};
    }

    /** `socket.on('connection', ...)`: a new socket. */
    method OnConnection(socket: SocketId)
      requires Valid(Snapshot()) && socket !in rooms
      modifies this`rooms, this`inbox
      ensures Snapshot() == Connect(old(Snapshot()), socket)
    {
      rooms := rooms[socket := {}];
      inbox := inbox[socket := []];
    }

    /** `socket.on('identify-user', user => ...)`; `currentProject` is the id of the user's
        current project, or `None` when it has none. */
    method IdentifyUser(socket: SocketId, currentProject: Option<string>)
      requires Valid(Snapshot()) && socket in rooms
      modifies this`rooms, this`subscriptions
      ensures Snapshot() == Identify(old(Snapshot()), socket, currentProject)
    {
      if currentProject.Some? {
        var room := RoomPrefix + currentProject.value;
        rooms := rooms[socket := rooms[socket] + {room}];
        subscriptions := subscriptions + {room};
      }
    }

    /** `subscriber.on('message', (channel, message) => ...)`; `parse` is `JSON.parse`. */
    method OnMessage(channel: string, message: string, parse: string -> Action<Opaque>)
      requires Valid(Snapshot())
      modifies this`inbox
      ensures Snapshot() == Receive(old(Snapshot()), channel, message, parse)
    {
      if channel == ActionChannel {
        var action := parse(message);
        var room := RoomOf(action.meta.project);
        inbox := map k | k in inbox :: if k in rooms && room in rooms[k] then inbox[k] + [action] else inbox[k];
      }
    }
  }
}
