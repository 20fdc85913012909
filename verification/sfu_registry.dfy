/**
 The server's room registry (server/mediasoup.js): a map from room id to room,
 each room holding its router and a map from socket id to peer, each peer
 holding its transports, producers and consumers. Rooms are created on first
 use; a peer is created on first use within a room; cleaning a peer up closes
 everything it owns and forgets it, and a room left without peers is dropped.

 The router, transports, producers and consumers belong to the media library
 and are modelled as opaque handles. A router is created outside the registry
 and handed in; `close()` calls are recorded, in order, in the registry's log.
 */
module SfuRegistry {
  import opened Iteration

  /** An opaque media-library object: a router, transport, producer or consumer. */
  datatype Handle = Handle(id: string)

  /** The handles of `m` in the order `order` lists their keys. */
  function InOrder(m: map<string, Handle>, order: seq<string>): (r: seq<Handle>)
    requires forall k :: k in order ==> k in m
    ensures |r| == |order|
    ensures forall i :: 0 <= i < |order| ==> r[i] == m[order[i]]
  {
    seq(|order|, i requires 0 <= i < |order| => m[order[i]])
  }

  /** A peer: what one socket owns in one room. */
  class Peer {
    var transports: map<string, Handle>
    var producers: map<string, Handle>
    var consumers: map<string, Handle>

    constructor ()
      ensures transports == map[] && producers == map[] && consumers == map[]
    {
      transports, producers, consumers := map[], map[], map[];
    }
  }

  /** A room: its id, its router, and its peers by socket id. */
  class Room {
    const id: string
    const router: Handle
    var peers: map<string, Peer>

    constructor (id: string, router: Handle)
      ensures this.id == id && this.router == router && peers == map[]
    {
      this.id, this.router := id, router;
      peers := map[];
    }

    /**
     `getPeer`: the peer of `socketId`, created with no transports, producers
     or consumers if the room has none yet. A second call with the same id
     finds the peer the first one stored and changes nothing.
     */
    method GetPeer(socketId: string) returns (peer: Peer)
      modifies this`peers
      ensures socketId in peers && peers[socketId] == peer
      ensures old(socketId in peers) ==> peer == old(peers[socketId]) && peers == old(peers)
      ensures old(socketId !in peers) ==>
                && fresh(peer)
                && peer.transports == map[] && peer.producers == map[] && peer.consumers == map[]
                && peers == old(peers)[socketId := peer]
    {
      if socketId in peers {
        peer := peers[socketId];
      } else {
        peer := new Peer();
        peers := peers[socketId := peer];
      }
    }
  }

  /** The module-level `rooms` map, with a log of created routers and of closed handles. */
  class Registry {
    var rooms: map<string, Room>
    /** Routers created for new rooms, in order. */
    var routers: seq<Handle>
    /** Handles closed by peer cleanups, in order. */
    var closed: seq<Handle>

    /** Every room is registered under its own id. */
    ghost predicate Valid()
      reads this
    {
      forall k :: k in rooms ==> rooms[k].id == k
    }

    constructor ()
      ensures Valid()
      ensures rooms == map[] && routers == [] && closed == []
    {
      rooms, routers, closed := map[], [], [];
    }

    /**
     `getOrCreateRoom`: the room registered under `roomId`, or a new room with
     an empty peer map and the router `router` (the one the media worker
     creates), registered under `roomId`. A known id creates no router.
     */
    method GetOrCreateRoom(roomId: string, router: Handle) returns (room: Room)
      requires Valid()
      modifies this`rooms, this`routers
      ensures roomId in rooms && rooms[roomId] == room && room.id == roomId
      ensures old(roomId in rooms) ==>
                room == old(rooms[roomId]) && rooms == old(rooms) && routers == old(routers)
      ensures old(roomId !in rooms) ==>
                && fresh(room)
                && room.router == router && room.peers == map[]
                && rooms == old(rooms)[roomId := room]
                && routers == old(routers) + [router]
      ensures Valid()
    {
      if roomId in rooms {
        room := rooms[roomId];
        return;
      }
      routers := routers + [router];
      room := new Room(roomId, router);
      rooms := rooms[roomId := room];
    }

    /** One of the `for ... of` loops of `cleanupPeer`: close every handle of `m`, in the order reported. */
    method CloseAll(m: map<string, Handle>) returns (ghost order: seq<string>)
      modifies this`closed
      ensures Enumerates(order, m.Keys)
      ensures closed == old(closed) + InOrder(m, order)
    {
      var pending := m.Keys;
      order := [];
      while pending != {}
        invariant pending <= m.Keys
        invariant Enumerates(order, m.Keys - pending)
        invariant closed == old(closed) + InOrder(m, order)
        decreases pending
      {
        var key :| key in pending;
        EnumeratesExtend(order, m.Keys - pending, key);
        assert (m.Keys - pending) + {key} == m.Keys - (pending - {key});
        closed := closed + [m[key]];
        order := order + [key];
        pending := pending - {key};
      }
    }

    /**
     `cleanupPeer`: for a known socket, close its consumers, then its
     producers, then its transports; forget the peer; and drop the room (by its
     id) once it has no peers left. An unknown socket changes nothing.
     */
    method CleanupPeer(room: Room, socketId: string)
      returns (ghost consumerOrder: seq<string>, ghost producerOrder: seq<string>, ghost transportOrder: seq<string>)
      requires Valid()
      modifies this`rooms, this`closed, room`peers
      ensures room.peers == old(room.peers) - {socketId}
      ensures old(socketId !in room.peers) ==> rooms == old(rooms) && closed == old(closed)
      ensures old(socketId in room.peers) ==>
                var peer := old(room.peers[socketId]);
                && Enumerates(consumerOrder, peer.consumers.Keys)
                && Enumerates(producerOrder, peer.producers.Keys)
                && Enumerates(transportOrder, peer.transports.Keys)
                && closed == old(closed) + InOrder(peer.consumers, consumerOrder)
                             + InOrder(peer.producers, producerOrder)
                             + InOrder(peer.transports, transportOrder)
                && rooms == if room.peers == map[] then old(rooms) - {room.id} else old(rooms)
      ensures Valid()
    {
      consumerOrder, producerOrder, transportOrder := [], [], [];
      if socketId !in room.peers {
        return;
      }
      var peer := room.peers[socketId];
      ghost var start := closed;
      consumerOrder := CloseAll(peer.consumers);
      producerOrder := CloseAll(peer.producers);
      transportOrder := CloseAll(peer.transports);
      assert closed == start + InOrder(peer.consumers, consumerOrder)
                            + InOrder(peer.producers, producerOrder)
                            + InOrder(peer.transports, transportOrder);

      room.peers := room.peers - {socketId};
      if |room.peers| == 0 {
        rooms := rooms - {room.id};
      }
    }
  }
}
