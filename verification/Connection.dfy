/** One client connection: its value and the object that holds it. */
module Connection {
  import opened Protocol

  /** Capacity of the outbound channel of a connection. */
  const OUTBOUND_CAPACITY: nat := 512

  datatype Identity = Identity(user: UserId, info: Info)

  /** A connection as a value. `log` is everything ever enqueued, `read` what the client
      has got of it, and `identities` every user it ever signed in as; all are history. */
  datatype Conn = Conn(
    channels: set<Channel>,
    presence: map<Channel, Identity>,
    user: Option<UserId>,
    queue: seq<Message>,
    forceClose: bool,
    log: seq<Message>,
    read: seq<Message>,
    identities: set<UserId>)

  type ConnTable = map<SocketId, Conn>

  const FRESH: Conn := Conn({}, map[], None, [], false, [], [], {})

  /** A full outbound channel loses the message and flags the connection. */
  function Enqueue(c: Conn, m: Message): Conn {
    if |c.queue| < OUTBOUND_CAPACITY then c.(queue := c.queue + [m], log := c.log + [m]) else c.(forceClose := true)
  }

  // -- how a subscription shows on the connection itself ------------------------

  function WithChannel(c: Conn, channel: Channel): Conn { c.(channels := c.channels + {channel}) }

  function WithPresence(c: Conn, channel: Channel, u: UserId, info: Info): Conn {
    c.(channels := c.channels + {channel}, presence := c.presence[channel := Identity(u, info)])
  }

  function Without(c: Conn, channel: Channel): Conn {
    c.(channels := c.channels - {channel}, presence := c.presence - {channel})
  }

  function Identified(c: Conn, u: UserId): Conn { c.(user := Some(u), identities := c.identities + {u}) }

  /** The client gets the oldest message. */
  function Delivered(c: Conn): Conn {
    if c.queue == [] then c else c.(queue := c.queue[1..], read := c.read + [c.queue[0]])
  }

  class WsConnection {
    const socketId: SocketId
    var subscribedChannels: set<Channel>
    var presence: map<Channel, Identity>
    var user: Option<UserId>
    var queue: seq<Message>
    var forceClose: bool
    ghost var log: seq<Message>
    ghost var read: seq<Message>
    ghost var identities: set<UserId>

    ghost function View(): Conn
      reads this
    {
      Conn(subscribedChannels, presence, user, queue, forceClose, log, read, identities)
    }

    constructor (socketId: SocketId)
      ensures this.socketId == socketId && View() == FRESH
      ensures subscribedChannels == {} && presence == map[] && user == None && identities == {}
      ensures queue == [] && log == [] && read == [] && !forceClose
    {
      this.socketId := socketId;
      subscribedChannels, presence, user := {}, map[], None;
      queue, forceClose, log, read, identities := [], false, [], [], {};
    }

    method SendRaw(m: Message) returns (ok: bool)
      modifies this`queue, this`forceClose, this`log
      ensures View() == Enqueue(old(View()), m)
      ensures ok <==> |old(queue)| < 512
      ensures ok ==> queue == old(queue) + [m] && log == old(log) + [m] && forceClose == old(forceClose)
      ensures !ok ==> queue == old(queue) && log == old(log) && forceClose
    {
      if |queue| < OUTBOUND_CAPACITY {
        queue, log := queue + [m], log + [m];
        ok := true;
      } else {
        forceClose := true;
        ok := false;
      }
    }

    /** The connection loop takes the oldest outbound message for the socket. */
    method Deliver() returns (m: Option<Message>)
      modifies this`queue, this`read
      ensures m == None <==> old(queue) == []
      ensures m == None ==> queue == old(queue) && read == old(read)
      ensures m.Some? ==> [m.value] + queue == old(queue) && read == old(read) + [m.value]
      ensures View() == Delivered(old(View()))
    {
      if queue == [] {
        m := None;
      } else {
        m, queue, read := Some(queue[0]), queue[1..], read + [queue[0]];
      }
    }

    method ForceClose()
      modifies this`forceClose
      ensures View() == old(View()).(forceClose := true)
    {
      forceClose := true;
    }

    method AddChannel(channel: Channel)
      modifies this`subscribedChannels
      ensures View() == old(View()).(channels := old(subscribedChannels) + {channel})
    {
      subscribedChannels := subscribedChannels + {channel};
    }

    method RemoveChannel(channel: Channel)
      modifies this`subscribedChannels
      ensures View() == old(View()).(channels := old(subscribedChannels) - {channel})
    {
      subscribedChannels := subscribedChannels - {channel};
    }

    method SetPresence(channel: Channel, u: UserId, info: Info)
      modifies this`presence
      ensures View() == old(View()).(presence := old(presence)[channel := Identity(u, info)])
    {
      presence := presence[channel := Identity(u, info)];
    }

    method RemovePresence(channel: Channel) returns (r: Option<Identity>)
      modifies this`presence
      ensures r == if channel in old(presence) then Some(old(presence)[channel]) else None
      ensures View() == old(View()).(presence := old(presence) - {channel})
    {
      if channel in presence {
        r := Some(presence[channel]);
        presence := presence - {channel};
      } else {
        r := None;
        assert presence - {channel} == presence;
      }
    }

    method SetUser(u: UserId)
      modifies this`user, this`identities
      ensures user == Some(u) && identities == old(identities) + {u}
      ensures View() == Identified(old(View()), u)
    {
      user, identities := Some(u), identities + {u};
    }
  }
}
