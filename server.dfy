/**
 * The WebSocket server's registry and routing (backend/app.py): connected
 * client names, named rooms with their members (kept in the dictionary's
 * insertion order, which decides "the first room" a user is in), and the
 * decision where a MSG / FILE_META / FILE_CHUNK / ACK frame goes.
 * Sockets, JSON and the database are not modelled: a client is its name.
 */
module ChatServer {
  import opened Common

  type Name = string
  type Room = string

  /** Python truthiness of an optional string: present and non-empty. */
  predicate Truthy(x: Option<string>)
  {
    x.Some? && x.value != ""
  }

  /** `clients` (its keys), `rooms`, and the insertion order of `rooms`' keys. */
  datatype Reg = Reg(clients: set<Name>, rooms: map<Room, set<Name>>, order: seq<Room>)

  /** The order lists every room exactly once, and no room has the empty name (JOIN refuses it). */
  ghost predicate Wf(s: Reg)
  {
    && "" !in s.rooms
    && (forall r :: r in s.rooms <==> r in s.order)
    && (forall i, j :: 0 <= i < j < |s.order| ==> s.order[i] != s.order[j])
  }

  /** Every room member is a connected client. */
  ghost predicate MembersConnected(s: Reg)
  {
    forall r, n :: r in s.rooms && n in s.rooms[r] ==> n in s.clients
  }

  function Members(s: Reg, r: Room): set<Name>
  {
    if r in s.rooms then s.rooms[r] else {}
  }

  /** The first room in dictionary order whose members include `name`. */
  function FirstRoomOf(order: seq<Room>, rooms: map<Room, set<Name>>, name: Name): (f: Option<Room>)
    ensures f.Some? ==> f.value in rooms && name in rooms[f.value]
  {
    if order == [] then None
    else if order[0] in rooms && name in rooms[order[0]] then Some(order[0])
    else FirstRoomOf(order[1..], rooms, name)
  }

  /** The first room found is a room containing `name` with no earlier room containing it; none means no listed room contains it. */
  lemma {:induction false} FirstRoomOfFacts(order: seq<Room>, rooms: map<Room, set<Name>>, name: Name)
    ensures var f := FirstRoomOf(order, rooms, name);
      && (f.Some? ==> exists i :: 0 <= i < |order| && order[i] == f.value && f.value in rooms && name in rooms[f.value]
                         && forall j :: 0 <= j < i ==> !(order[j] in rooms && name in rooms[order[j]]))
      && (f.None? <==> forall j :: 0 <= j < |order| ==> !(order[j] in rooms && name in rooms[order[j]]))
  {
    if order != [] && !(order[0] in rooms && name in rooms[order[0]]) {
      FirstRoomOfFacts(order[1..], rooms, name);
      var f := FirstRoomOf(order, rooms, name);
      if f.Some? {
        var i :| 0 <= i < |order[1..]| && order[1..][i] == f.value && f.value in rooms && name in rooms[f.value]
                 && forall j :: 0 <= j < i ==> !(order[1..][j] in rooms && name in rooms[order[1..][j]]);
        assert order[i + 1] == f.value;
        forall j | 0 <= j < i + 1
          ensures !(order[j] in rooms && name in rooms[order[j]])
        {
          if j > 0 {
            assert order[j] == order[1..][j - 1];
          }
        }
      } else {
        forall j | 0 < j < |order|
          ensures !(order[j] in rooms && name in rooms[order[j]])
        {
          assert order[j] == order[1..][j - 1];
        }
      }
    } else if order != [] {
      assert order[0] == FirstRoomOf(order, rooms, name).value;
    }
  }

  // ---------------------------------------------------------------------
  // Registry operations (app.py:68-73, 106-120, 257-263)
  // ---------------------------------------------------------------------

  datatype Registration = Registration(state: Reg, error: Option<string>)

  /** Registration: a name already connected is refused with 'name taken'. */
  function AfterRegister(s: Reg, name: Name): Registration
  {
    if name in s.clients then Registration(s, Some("name taken"))
    else Registration(s.(clients := s.clients + {name}), None)
  }

  /** JOIN: a non-empty room gains the member, created at the end of the order if new; no room means nothing. */
  function AfterJoin(s: Reg, name: Name, room: Option<Room>): Reg
  {
    if !Truthy(room) then s
    else
      var r := room.value;
      s.(rooms := s.rooms[r := Members(s, r) + {name}],
         order := if r in s.rooms then s.order else s.order + [r])
  }

  /** LEAVE: drop the member from the first room containing it; rooms left empty stay. */
  function AfterLeave(s: Reg, name: Name): Reg
  {
    var f := FirstRoomOf(s.order, s.rooms, name);
    if f.Some? then s.(rooms := s.rooms[f.value := s.rooms[f.value] - {name}]) else s
  }

  /** The rooms still listed after the disconnect cleanup: those with a member other than `name`. */
  function KeptRooms(order: seq<Room>, rooms: map<Room, set<Name>>, name: Name): seq<Room>
  {
    if order == [] then []
    else
      var rest := KeptRooms(order[1..], rooms, name);
      if order[0] in rooms && rooms[order[0]] - {name} != {} then [order[0]] + rest else rest
  }

  /** Disconnect cleanup: drop the client, drop it from every room, delete every room left empty. */
  function AfterDisconnect(s: Reg, name: Name): Reg
  {
    Reg(s.clients - {name},
        map r | r in s.rooms && s.rooms[r] - {name} != {} :: s.rooms[r] - {name},
        KeptRooms(s.order, s.rooms, name))
  }

  /** 'name taken' exactly when the name is connected; then nothing changes, else only the name is added. */
  lemma RegisterFacts(s: Reg, name: Name)
    ensures var g := AfterRegister(s, name);
      && (g.error.Some? <==> name in s.clients)
      && (g.error.Some? ==> g.error.value == "name taken" && g.state == s)
      && g.state.clients == s.clients + {name}
      && g.state.rooms == s.rooms && g.state.order == s.order
  {
  }

  /** JOIN puts the user in the room, keeps everyone already there, leaves other rooms alone and keeps `Wf`. */
  lemma JoinFacts(s: Reg, name: Name, room: Option<Room>)
    requires Wf(s)
    ensures var s' := AfterJoin(s, name, room);
      && Wf(s')
      && s'.clients == s.clients
      && (!Truthy(room) ==> s' == s)
      && (Truthy(room) ==>
            && room.value in s'.rooms && s'.rooms[room.value] == Members(s, room.value) + {name}
            && s'.rooms.Keys == s.rooms.Keys + {room.value}
            && (forall r :: r in s.rooms && r != room.value ==> s'.rooms[r] == s.rooms[r]))
      && (name in s.clients && MembersConnected(s) ==> MembersConnected(s'))
  {
    if Truthy(room) && room.value !in s.rooms {
      var s' := AfterJoin(s, name, room);
      forall i, j | 0 <= i < j < |s'.order|
        ensures s'.order[i] != s'.order[j]
      {
        if j == |s.order| {
          assert s.order[i] in s.rooms;
        }
      }
    }
  }

  /**
   * LEAVE removes the user from the first room (in dictionary order) that
   * contains them and from no other; it deletes no room.  It replies with
   * that room, or null when they are in none.
   */
  lemma LeaveFacts(s: Reg, name: Name)
    requires Wf(s)
    ensures var f := FirstRoomOf(s.order, s.rooms, name);
      var s' := AfterLeave(s, name);
      && Wf(s')
      && s'.clients == s.clients && s'.order == s.order && s'.rooms.Keys == s.rooms.Keys
      && (f.None? <==> forall r :: r in s.rooms ==> name !in s.rooms[r])
      && (f.None? ==> s' == s)
      && (f.Some? ==>
            && f.value in s.rooms && name in s.rooms[f.value]
            && s'.rooms[f.value] == s.rooms[f.value] - {name}
            && (forall r :: r in s.rooms && r != f.value ==> s'.rooms[r] == s.rooms[r]))
      && (MembersConnected(s) ==> MembersConnected(s'))
  {
    FirstRoomOfFacts(s.order, s.rooms, name);
    var f := FirstRoomOf(s.order, s.rooms, name);
    if f.None? {
      forall r | r in s.rooms
        ensures name !in s.rooms[r]
      {
        var i :| 0 <= i < |s.order| && s.order[i] == r;
      }
    }
  }

  lemma {:induction false} KeptRoomsFacts(order: seq<Room>, rooms: map<Room, set<Name>>, name: Name)
    requires forall i, j :: 0 <= i < j < |order| ==> order[i] != order[j]
    ensures var k := KeptRooms(order, rooms, name);
      && (forall r :: r in k <==> r in order && r in rooms && rooms[r] - {name} != {})
      && (forall i, j :: 0 <= i < j < |k| ==> k[i] != k[j])
  {
    if order != [] {
      KeptRoomsFacts(order[1..], rooms, name);
      var rest := KeptRooms(order[1..], rooms, name);
      assert order[0] !in order[1..] by {
        forall j | 0 <= j < |order[1..]|
          ensures order[1..][j] != order[0]
        {
          assert order[1..][j] == order[j + 1];
        }
      }
      forall r
        ensures r in order <==> r == order[0] || r in order[1..]
      {
        if r in order {
          var i :| 0 <= i < |order| && order[i] == r;
          if i > 0 {
            assert order[1..][i - 1] == r;
          }
        }
      }
    }
  }

  /**
   * After a disconnect the name is no client and in no room, every
   * remaining room has exactly its old members minus that name, and no
   * room is empty (rooms emptied earlier by LEAVE go too).
   */
  lemma DisconnectFacts(s: Reg, name: Name)
    requires Wf(s)
    ensures var s' := AfterDisconnect(s, name);
      && Wf(s')
      && name !in s'.clients && s'.clients == s.clients - {name}
      && (forall r :: r in s'.rooms ==> name !in s'.rooms[r] && s'.rooms[r] != {})
      && (forall r :: r in s'.rooms <==> r in s.rooms && s.rooms[r] - {name} != {})
      && (forall r :: r in s'.rooms ==> s'.rooms[r] == s.rooms[r] - {name})
      && (MembersConnected(s) ==> MembersConnected(s'))
  {
    KeptRoomsFacts(s.order, s.rooms, name);
  }

  // ---------------------------------------------------------------------
  // Routing decision (app.py:143-148, 202-252)
  // ---------------------------------------------------------------------

  /** The frame types that are routed rather than acted on by the registry. */
  datatype Kind = Msg | FileMeta | FileChunk | Ack | Unknown

  /** Forward the frame unchanged to these connections, or reply to the sender with an ERROR. */
  datatype Decision = Deliver(targets: set<Name>) | Error(why: string)

  /** The direct-or-room choice for a MSG / FILE_META / FILE_CHUNK. */
  function Forwarding(s: Reg, name: Name, to: Option<Name>, room: Option<Room>): Decision
  {
    if Truthy(to) then
      if to.value in s.clients then Deliver({to.value}) else Error("no such user")
    else
      var r := if Truthy(room) then room else FirstRoomOf(s.order, s.rooms, name);
      if !Truthy(r) then Error("not in room")
      else Deliver((Members(s, r.value) - {name}) * s.clients)
  }

  /**
   * Where a frame from connection `name` goes.  `tid` and `metaTid` are the
   * top-level and `meta` transfer ids of a FILE_CHUNK.
   */
  function Route(s: Reg, name: Name, kind: Kind, to: Option<Name>, room: Option<Room>,
                 tid: Option<string>, metaTid: Option<string>): Decision
  {
    match kind
    case Unknown => Error("unknown type")
    case Ack =>
      if !Truthy(to) then Error("ACK missing to field")
      else if to.value in s.clients then Deliver({to.value})
      else Error("no such user for ACK")
    case FileChunk =>
      if !Truthy(tid) && !Truthy(metaTid) then Error("missing transfer_id in FILE_CHUNK")
      else Forwarding(s, name, to, room)
    case _ => Forwarding(s, name, to, room)
  }

  /**
   * A frame is only ever delivered to connected clients.  With a `to` it
   * goes to exactly that client or fails with 'no such user'; without one
   * it goes to every connected member of the named room (or of the first
   * room in dictionary order that holds the sender) except the sender, and fails with 'not in room' exactly
   * when there is no such room.
   */
  lemma ForwardingFacts(s: Reg, name: Name, to: Option<Name>, room: Option<Room>)
    requires Wf(s)
    ensures var d := Forwarding(s, name, to, room);
      && (d.Deliver? ==> d.targets <= s.clients)
      && (Truthy(to) ==> (d.Deliver? <==> to.value in s.clients) && (d.Deliver? ==> d.targets == {to.value})
                         && (d.Error? ==> d.why == "no such user"))
      && (!Truthy(to) && Truthy(room) ==> d == Deliver((Members(s, room.value) - {name}) * s.clients))
      && (!Truthy(to) && !Truthy(room) ==>
            && (d.Error? <==> forall r :: r in s.rooms ==> name !in s.rooms[r])
            && (d.Error? ==> d.why == "not in room")
            && (d.Deliver? ==>
                  (&& name !in d.targets
                   && exists i :: 0 <= i < |s.order| && s.order[i] in s.rooms && name in s.rooms[s.order[i]]
                        && (forall j :: 0 <= j < i ==> !(s.order[j] in s.rooms && name in s.rooms[s.order[j]]))
                        && d.targets == (s.rooms[s.order[i]] - {name}) * s.clients)))
  {
    if !Truthy(to) && !Truthy(room) {
      FirstRoomOfFacts(s.order, s.rooms, name);
      var f := FirstRoomOf(s.order, s.rooms, name);
      if f.None? {
        forall r | r in s.rooms
          ensures name !in s.rooms[r]
        {
          var i :| 0 <= i < |s.order| && s.order[i] == r;
        }
      }
    }
  }

  /** The error cases of `Route` that do not depend on the registry. */
  lemma RouteErrors(s: Reg, name: Name, kind: Kind, to: Option<Name>, room: Option<Room>,
                    tid: Option<string>, metaTid: Option<string>)
    ensures var d := Route(s, name, kind, to, room, tid, metaTid);
      && (kind == Unknown <==> d == Error("unknown type"))
      && (kind == FileChunk && !Truthy(tid) && !Truthy(metaTid) ==> d == Error("missing transfer_id in FILE_CHUNK"))
      && (kind == Ack ==>
            && (!Truthy(to) <==> d == Error("ACK missing to field"))
            && (Truthy(to) && to.value !in s.clients ==> d == Error("no such user for ACK"))
            && (d.Deliver? <==> Truthy(to) && to.value in s.clients)
            && (d.Deliver? ==> d.targets == {to.value}))
  {
  }

  /** A disconnected client is never a target of any later frame. */
  lemma DisconnectedUnreachable(s: Reg, gone: Name, name: Name, kind: Kind, to: Option<Name>, room: Option<Room>,
                                tid: Option<string>, metaTid: Option<string>)
    requires Wf(s)
    ensures var d := Route(AfterDisconnect(s, gone), name, kind, to, room, tid, metaTid);
      d.Deliver? ==> gone !in d.targets
  {
    DisconnectFacts(s, gone);
    ForwardingFacts(AfterDisconnect(s, gone), name, to, room);
  }

  // ---------------------------------------------------------------------
  // The registry as the server holds it
  // ---------------------------------------------------------------------

  /** The server's shared `clients` and `rooms` dictionaries. */
  class Registry {
    var clients: set<Name>
    var rooms: map<Room, set<Name>>
    var order: seq<Room>

    function State(): Reg
      reads this
    {
      Reg(clients, rooms, order)
    }

    ghost predicate Valid()
      reads this
    {
      Wf(State())
    }

    constructor()
      ensures Valid() && State() == Reg({}, map[], [])
    {
      clients := {};
      rooms := map[];
      order := [];
    }

    /** Registration of a new connection's name. */
    method Register(name: Name) returns (error: Option<string>)
      requires Valid()
      modifies this
      ensures Valid()
      ensures Registration(State(), error) == AfterRegister(old(State()), name)
    {
      if name in clients {
        return Some("name taken");
      }
      clients := clients + {name};
      error := None;
    }

    /** JOIN; the reply is the JOINED room, or nothing when no room was given. */
    method Join(name: Name, room: Option<Room>) returns (joined: Option<Room>)
      requires Valid()
      modifies this
      ensures Valid()
      ensures State() == AfterJoin(old(State()), name, room)
      ensures joined == (if Truthy(room) then room else None)
    {
      JoinFacts(State(), name, room);
      if !Truthy(room) {
        return None;
      }
      var r := room.value;
      if r !in rooms {
        rooms := rooms[r := {}];
        order := order + [r];
      }
      rooms := rooms[r := rooms[r] + {name}];
      joined := room;
    }

    /** LEAVE; the reply is the LEFT room, or null. */
    method Leave(name: Name) returns (left: Option<Room>)
      requires Valid()
      modifies this
      ensures Valid()
      ensures left == FirstRoomOf(old(order), old(rooms), name)
      ensures State() == AfterLeave(old(State()), name)
    {
      LeaveFacts(State(), name);
      left := FindRoom(order, rooms, name);
      if left.Some? {
        var r := left.value;
        rooms := rooms[r := rooms[r] - {name}];
      }
    }

    /** The disconnect cleanup in the connection's `finally`. */
    method Disconnect(name: Name)
      requires Valid()
      modifies this
      ensures Valid()
      ensures State() == AfterDisconnect(old(State()), name)
    {
      DisconnectFacts(State(), name);
      clients := clients - {name};
      var cleaned, kept := CleanRooms(rooms, order, name);
      assert cleaned == AfterDisconnect(old(State()), name).rooms;
      rooms := cleaned;
      order := kept;
    }
  }

  /** The LEAVE loop over the rooms in dictionary order. */
  method FindRoom(order: seq<Room>, rooms: map<Room, set<Name>>, name: Name) returns (f: Option<Room>)
    ensures f == FirstRoomOf(order, rooms, name)
  {
    var i := 0;
    while i < |order|
      invariant 0 <= i <= |order|
      invariant FirstRoomOf(order[i..], rooms, name) == FirstRoomOf(order, rooms, name)
    {
      var r := order[i];
      assert order[i..][1..] == order[i + 1..];
      if r in rooms && name in rooms[r] {
        return Some(r);
      }
      i := i + 1;
    }
    return None;
  }

  /**
   * The cleanup loop `for r in list(rooms.keys())`: discard the name and
   * delete the room when it is left empty.  `kept` is the order of the
   * rooms that remain.
   */
  method CleanRooms(r0: map<Room, set<Name>>, keys: seq<Room>, name: Name)
    returns (rooms: map<Room, set<Name>>, kept: seq<Room>)
    requires forall i, j :: 0 <= i < j < |keys| ==> keys[i] != keys[j]
    ensures rooms == map r | r in r0 && (r in keys ==> r0[r] - {name} != {}) :: if r in keys then r0[r] - {name} else r0[r]
    ensures kept == KeptRooms(keys, r0, name)
  {
    CleanFoldMeaning(r0, keys, name);
    rooms := r0;
    kept := [];
    var i := 0;
    while i < |keys|
      invariant 0 <= i <= |keys|
      invariant CleanFold(rooms, keys[i..], name).rooms == CleanFold(r0, keys, name).rooms
      invariant kept + CleanFold(rooms, keys[i..], name).kept == CleanFold(r0, keys, name).kept
    {
      var r := keys[i];
      assert keys[i..][1..] == keys[i + 1..];
      if r in rooms {
        ghost var before := rooms;
        rooms := rooms[r := rooms[r] - {name}];
        if |rooms[r]| == 0 {
          rooms := rooms - {r};
          assert rooms == before - {r};
        } else {
          kept := kept + [r];
        }
      }
      i := i + 1;
    }
  }

  datatype Cleaning = Cleaning(rooms: map<Room, set<Name>>, kept: seq<Room>)

  /** The cleanup loop room by room in `keys` order: the rooms it leaves and, in order, the rooms it keeps. */
  function CleanFold(m: map<Room, set<Name>>, keys: seq<Room>, name: Name): Cleaning
  {
    if keys == [] then Cleaning(m, [])
    else
      var r := keys[0];
      if r !in m then CleanFold(m, keys[1..], name)
      else if m[r] - {name} == {} then CleanFold(m - {r}, keys[1..], name)
      else
        var c := CleanFold(m[r := m[r] - {name}], keys[1..], name);
        Cleaning(c.rooms, [r] + c.kept)
  }

  /** Over distinct keys the loop drops `name` from each listed room, deletes those left empty, and keeps the others in order. */
  lemma {:induction false} CleanFoldMeaning(m: map<Room, set<Name>>, keys: seq<Room>, name: Name)
    requires forall i, j :: 0 <= i < j < |keys| ==> keys[i] != keys[j]
    ensures CleanFold(m, keys, name).rooms
      == map r | r in m && (r in keys ==> m[r] - {name} != {}) :: if r in keys then m[r] - {name} else m[r]
    ensures CleanFold(m, keys, name).kept == KeptRooms(keys, m, name)
  {
    if keys != [] {
      var r := keys[0];
      var tail := keys[1..];
      assert r !in tail by {
        forall j | 0 <= j < |tail|
          ensures tail[j] != r
        {
          assert tail[j] == keys[j + 1];
        }
      }
      assert forall x :: x in keys <==> x == r || x in tail by {
        forall x | x in keys
          ensures x == r || x in tail
        {
          var i :| 0 <= i < |keys| && keys[i] == x;
          if i > 0 {
            assert tail[i - 1] == x;
          }
        }
      }
      var m1 := if r !in m then m else if m[r] - {name} == {} then m - {r} else m[r := m[r] - {name}];
      CleanFoldMeaning(m1, tail, name);
      KeptRoomsAgree(tail, m, m1, name);
    }
  }

  /** `KeptRooms` over keys only looks at those keys' entries. */
  lemma {:induction false} KeptRoomsAgree(keys: seq<Room>, m: map<Room, set<Name>>, m1: map<Room, set<Name>>, name: Name)
    requires forall x :: x in keys ==> (x in m <==> x in m1) && (x in m ==> m[x] == m1[x])
    ensures KeptRooms(keys, m, name) == KeptRooms(keys, m1, name)
  {
    if keys != [] {
      assert forall x :: x in keys[1..] ==> x in keys;
      KeptRoomsAgree(keys[1..], m, m1, name);
    }
  }

}
