/** The shared Redis keys of a cluster and the adapter calls that use them, each call
    uninterrupted. Redis answers every command. */
module RedisStore {
  import opened Protocol
  import opened Tables
  import opened Connection
  import opened Namespaces
  import Subscriptions

  type NodeId = string

  /** The two hashes of one presence channel: who is present with which info, and how
      many sockets each user has over all nodes. */
  datatype Hashes = Hashes(presence: map<UserId, Info>, psock: map<UserId, int>)

  const NO_HASHES: Hashes := Hashes(map[], map[])

  // -- what one call does to the hashes of its channel ----------------------------------

  ghost function Count(h: Hashes, u: UserId): int { if u in h.psock then h.psock[u] else 0 }

  ghost predicate Refuses(h: Hashes, u: UserId, max: nat) { u !in h.presence && |h.presence| >= max }

  ghost function Added(h: Hashes, u: UserId, info: Info): Hashes {
    Hashes(if Count(h, u) == 0 then h.presence[u := info] else h.presence, h.psock[u := Count(h, u) + 1])
  }

  /** The last socket takes the user out of both hashes; an empty presence hash takes
      whatever the other one still holds with it. */
  ghost function Removed(h: Hashes, u: UserId): Hashes {
    if Count(h, u) - 1 > 0 then h.(psock := h.psock[u := Count(h, u) - 1])
    else if h.presence - {u} == map[] then NO_HASHES
    else Hashes(h.presence - {u}, h.psock - {u})
  }

  // -- Redis ---------------------------------------------------------------------------------

  class Redis {
    var presence: map<Channel, map<UserId, Info>>
    var psock: map<Channel, map<UserId, int>>
    var occupied: map<Channel, NodeId>

    ghost function Hashed(channel: Channel): Hashes
      reads this`presence, this`psock
    {
      Hashes(if channel in presence then presence[channel] else map[],
             if channel in psock then psock[channel] else map[])
    }

    constructor ()
      ensures presence == map[] && psock == map[] && occupied == map[]
    {
      presence, psock, occupied := map[], map[], map[];
    }

    method Hlen(channel: Channel) returns (n: nat)
      ensures n == |Hashed(channel).presence|
    {
      n := if channel in presence then |presence[channel]| else 0;
    }

    method Hexists(channel: Channel, u: UserId) returns (b: bool)
      ensures b == (u in Hashed(channel).presence)
    {
      b := channel in presence && u in presence[channel];
    }

    method Hgetall(channel: Channel) returns (members: map<UserId, Info>)
      ensures members == Hashed(channel).presence
    {
      members := if channel in presence then presence[channel] else map[];
    }

    method Hincr(channel: Channel, u: UserId, delta: int) returns (count: int)
      modifies this`psock
      ensures count == Count(old(Hashed(channel)), u) + delta
      ensures Hashed(channel) == old(Hashed(channel)).(psock := old(Hashed(channel)).psock[u := count])
      ensures forall d :: d != channel ==> Hashed(d) == old(Hashed(d))
    {
      var h := if channel in psock then psock[channel] else map[];
      count := (if u in h then h[u] else 0) + delta;
      psock := psock[channel := h[u := count]];
    }

    method Hset(channel: Channel, u: UserId, info: Info)
      modifies this`presence
      ensures Hashed(channel) == old(Hashed(channel)).(presence := old(Hashed(channel)).presence[u := info])
      ensures forall d :: d != channel ==> Hashed(d) == old(Hashed(d))
    {
      presence := presence[channel := (if channel in presence then presence[channel] else map[])[u := info]];
    }

    /** HDEL; the last field takes the key with it. */
    method HdelPresence(channel: Channel, u: UserId)
      modifies this`presence
      ensures Hashed(channel) == old(Hashed(channel)).(presence := old(Hashed(channel)).presence - {u})
      ensures forall d :: d != channel ==> Hashed(d) == old(Hashed(d))
    {
      if channel in presence {
        var h := presence[channel] - {u};
        presence := if h == map[] then presence - {channel} else presence[channel := h];
      } else {
        assert Hashed(channel).presence - {u} == Hashed(channel).presence;
      }
    }

    method HdelPsock(channel: Channel, u: UserId)
      modifies this`psock
      ensures Hashed(channel) == old(Hashed(channel)).(psock := old(Hashed(channel)).psock - {u})
      ensures forall d :: d != channel ==> Hashed(d) == old(Hashed(d))
    {
      if channel in psock {
        var h := psock[channel] - {u};
        psock := if h == map[] then psock - {channel} else psock[channel := h];
      } else {
        assert Hashed(channel).psock - {u} == Hashed(channel).psock;
      }
    }

    method DelBoth(channel: Channel)
      modifies this`presence, this`psock
      ensures Hashed(channel) == NO_HASHES
      ensures forall d :: d != channel ==> Hashed(d) == old(Hashed(d))
    {
      presence := presence - {channel};
      psock := psock - {channel};
    }

    method SetNx(channel: Channel, node: NodeId) returns (wasSet: bool)
      modifies this`occupied
      ensures wasSet == (channel !in old(occupied))
      ensures occupied == if wasSet then old(occupied)[channel := node] else old(occupied)
    {
      wasSet := channel !in occupied;
      if wasSet {
        occupied := occupied[channel := node];
      }
    }

    method DelOccupied(channel: Channel)
      modifies this`occupied
      ensures occupied == old(occupied) - {channel}
    {
      occupied := occupied - {channel};
    }
  }

  // -- one node's adapter --------------------------------------------------------------------

  class RedisAdapter {
    const nodeId: NodeId
    const local: Namespace
    const redis: Redis

    constructor (nodeId: NodeId, local: Namespace, redis: Redis)
      ensures this.nodeId == nodeId && this.local == local && this.redis == redis
    {
      this.nodeId, this.local, this.redis := nodeId, local, redis;
    }

    /** The limit is checked against the cluster's hash, not this node's room. */
    method TryAddPresenceMember(channel: Channel, s: SocketId, u: UserId, info: Info, max: nat)
      returns (r: Option<(bool, map<UserId, Info>)>)
      requires local.Valid()
      modifies local`presence, redis`presence, redis`psock
      ensures local.Valid()
      ensures var listed := old(redis.Hashed(channel)).presence;
              r == None <==> u !in listed && |listed| >= max
      ensures r == None ==> unchanged(redis) && unchanged(local)
      ensures r.Some? ==> redis.Hashed(channel) == Added(old(redis.Hashed(channel)), u, info)
      ensures r.Some? ==> r.value == (Count(old(redis.Hashed(channel)), u) == 0, redis.Hashed(channel).presence)
      ensures r.Some? ==> local.View() == After(old(local.View()), AddMember(channel, s, u, info))
      ensures forall d :: d != channel ==> redis.Hashed(d) == old(redis.Hashed(d))
    {
      hide Namespace.Valid, After, Added, Redis.Hashed;
      var current := redis.Hlen(channel);
      var exists_ := redis.Hexists(channel, u);
      if !exists_ && current >= max {
        return None;
      }
      var _ := local.AddPresenceMember(channel, s, u, info);
      var isNew := GlobalAdd(channel, u, info);
      var members := redis.Hgetall(channel);
      return Some((isNew, members));
    }

    /** True when the user has no socket left on any node. */
    method RemovePresenceMember(channel: Channel, s: SocketId, u: UserId) returns (gone: bool)
      requires local.Valid()
      modifies local`presence, redis`presence, redis`psock
      ensures local.Valid()
      ensures local.View() == After(old(local.View()), RemoveMember(channel, s, u))
      ensures gone == (Count(old(redis.Hashed(channel)), u) <= 1)
      ensures redis.Hashed(channel) == Removed(old(redis.Hashed(channel)), u)
      ensures forall d :: d != channel ==> redis.Hashed(d) == old(redis.Hashed(d))
    {
      var _ := local.RemovePresenceMember(channel, s, u);
      gone := GlobalRemove(channel, u);
    }

    method GlobalAdd(channel: Channel, u: UserId, info: Info) returns (isNew: bool)
      modifies redis`presence, redis`psock
      ensures redis.Hashed(channel) == Added(old(redis.Hashed(channel)), u, info)
      ensures isNew == (Count(old(redis.Hashed(channel)), u) == 0)
      ensures forall d :: d != channel ==> redis.Hashed(d) == old(redis.Hashed(d))
    {
      var count := redis.Hincr(channel, u, 1);
      isNew := count == 1;
      if isNew {
        redis.Hset(channel, u, info);
      }
    }

    method GlobalRemove(channel: Channel, u: UserId) returns (gone: bool)
      modifies redis`presence, redis`psock
      ensures gone == (Count(old(redis.Hashed(channel)), u) <= 1)
      ensures redis.Hashed(channel) == Removed(old(redis.Hashed(channel)), u)
      ensures forall d :: d != channel ==> redis.Hashed(d) == old(redis.Hashed(d))
    {
      ghost var was := redis.Hashed(channel);
      var count := redis.Hincr(channel, u, -1);
      if count > 0 {
        return false;
      }
      hide Redis.Hashed;
      redis.HdelPresence(channel, u);
      redis.HdelPsock(channel, u);
      assert redis.Hashed(channel) == Hashes(was.presence - {u}, was.psock - {u}) by {
        assert was.psock[u := count] - {u} == was.psock - {u};
      }
      var remaining := redis.Hlen(channel);
      if remaining == 0 {
        redis.DelBoth(channel);
      }
      return true;
    }

    /** The first node to see a subscriber claims the channel. */
    method IsChannelGloballyOccupied(channel: Channel, locallyOccupied: bool) returns (b: bool)
      modifies redis`occupied
      ensures b == (locallyOccupied && channel !in old(redis.occupied))
      ensures redis.occupied == if b then old(redis.occupied)[channel := nodeId] else old(redis.occupied)
    {
      if !locallyOccupied {
        return false;
      }
      b := redis.SetNx(channel, nodeId);
    }

    /** `counts` is what the peers answered about their subscribers, or nothing. */
    method IsChannelGloballyVacated(channel: Channel, locallyVacated: bool, counts: seq<nat>) returns (b: bool)
      requires local.Valid()
      modifies redis`occupied
      ensures b == (locallyVacated && At(local.channels, channel) == {} && Sum(counts) == 0)
      ensures redis.occupied == if b then old(redis.occupied) - {channel} else old(redis.occupied)
    {
      if !locallyVacated {
        return false;
      }
      if channel in local.channels && |local.channels[channel]| > 0 {
        return false;
      }
      var remote, i := 0, 0;
      while i < |counts|
        invariant 0 <= i <= |counts| && remote == Sum(counts[..i])
      {
        assert counts[..i + 1][..i] == counts[..i];
        remote := remote + counts[i];
        i := i + 1;
      }
      assert counts[..i] == counts;
      if remote > 0 {
        return false;
      }
      redis.DelOccupied(channel);
      return true;
    }

    /** Delivers locally; the envelope goes to Redis for the other nodes. */
    method SendToChannel(channel: Channel, m: Message, except: Option<SocketId>) returns (e: Envelope)
      requires local.Keyed()
      modifies local.sockets.Values`queue, local.sockets.Values`forceClose, local.sockets.Values`log
      ensures e == Envelope(nodeId, channel, m, except)
      ensures local.Conns() == Subscriptions.FanOut(old(local.Conns()), At(local.channels, channel), m, except)
    {
      e := Envelope(nodeId, channel, m, except);
      local.SendToChannel(channel, m, except);
    }

    /** A node discards its own envelopes and delivers the others' locally. */
    method HandleBroadcast(e: Envelope)
      requires local.Keyed()
      modifies local.sockets.Values`queue, local.sockets.Values`forceClose, local.sockets.Values`log
      ensures var told := Subscriptions.FanOut(old(local.Conns()), At(local.channels, e.channel), e.message, e.except);
              local.Conns() == if e.sender == nodeId then old(local.Conns()) else told
    {
      if e.sender == nodeId {
        return;
      }
      local.SendToChannel(e.channel, e.message, e.except);
    }
  }

  datatype Envelope = Envelope(sender: NodeId, channel: Channel, message: Message, except: Option<SocketId>)

  ghost function Sum(xs: seq<nat>): nat
    decreases |xs|
  {
    if xs == [] then 0 else Sum(xs[..|xs| - 1]) + xs[|xs| - 1]
  }
}
