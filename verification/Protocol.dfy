/** Names, channel kinds and the messages and webhooks the server emits. */
module Protocol {

  datatype Option<+T> = None | Some(value: T)

  /** Counts a report. */
  ghost function One(b: bool): nat { if b then 1 else 0 }

  type SocketId = string
  type Channel = string
  type UserId = string
  /** `user_info`, as its JSON text. */
  type Info = string

  // -- channel kinds ---------------------------------------------------------

  predicate IsCache(name: Channel) { "cache-" <= name }

  function WithoutCache(name: Channel): Channel {
    if "cache-" <= name then name[6..] else name
  }

  predicate IsPresence(name: Channel) { "presence-" <= WithoutCache(name) }

  /** Covers the encrypted kinds too: their prefix extends "private-". */
  predicate IsPrivate(name: Channel) { "private-" <= WithoutCache(name) }

  /** The kinds by their names. */
  lemma KindByName(name: Channel)
    ensures IsCache(name) <==> exists rest: string :: name == "cache-" + rest
    ensures IsPresence(name) <==> exists rest: string :: name == "presence-" + rest || name == "cache-presence-" + rest
    ensures IsPrivate(name) <==> exists rest: string :: name == "private-" + rest || name == "cache-private-" + rest
  {
    StartsWith("cache-", name);
    StartsWith("presence-", name);
    StartsWith("private-", name);
    StartsWith("cache-presence-", name);
    StartsWith("cache-private-", name);
    UnderCache("presence-", name);
    UnderCache("private-", name);
    assert "cache-" + "presence-" == "cache-presence-" && "cache-" + "private-" == "cache-private-";
    assert "cache-"[0] == 'c' && "presence-"[0] == 'p' && "private-"[0] == 'p';
    assert IsPresence(name) <==> "presence-" <= name || "cache-presence-" <= name;
    assert IsPrivate(name) <==> "private-" <= name || "cache-private-" <= name;
  }

  lemma UnderCache(prefix: string, name: string)
    ensures "cache-" + prefix <= name <==> "cache-" <= name && prefix <= name[6..]
  {
    assert "cache-" <= "cache-" + prefix;
    if "cache-" <= name {
      assert name == "cache-" + name[6..];
    }
  }

  lemma StartsWith(prefix: string, name: string)
    ensures prefix <= name <==> exists rest: string :: name == prefix + rest
  {
    if prefix <= name {
      assert name == prefix + name[|prefix|..];
    }
  }

  // -- outbound messages -----------------------------------------------------

  datatype Reason =
    | InvalidRequest | AuthorizationRequired | AuthorizationFailed
    | MissingChannelData | InvalidChannelData | MissingUserId | MemberTooLarge
    | OverMemberLimit | SigninRefused | Terminated

  datatype Message =
    | Subscribed(channel: Channel)
    | PresenceSnapshot(channel: Channel, members: map<UserId, Info>)
    | MemberAdded(channel: Channel, user: UserId, info: Info)
    | MemberRemoved(channel: Channel, user: UserId)
    | CacheMiss(channel: Channel)
    | SigninSuccess(user: UserId)
    | Error(reason: Reason)
    | Event(channel: Channel, name: string, data: string)

  // -- webhook events --------------------------------------------------------

  datatype Webhook =
    | ChannelOccupied(channel: Channel)
    | ChannelVacated(channel: Channel)
    | UserJoined(channel: Channel, user: UserId)
    | UserLeft(channel: Channel, user: UserId)
    | CacheMissed(channel: Channel)

  // -- an endless supply of names ----------------------------------------------------------------

  ghost function Name(i: nat): string { seq(i, _ => 'u') }

  ghost function Names(n: nat): set<string> { set i | 0 <= i < n :: Name(i) }

  lemma {:induction false} NamesDiffer(n: nat)
    ensures |Names(n)| == n
    ensures forall i :: i >= n ==> Name(i) !in Names(n)
  {
    forall i, j | 0 <= j < n <= i ensures Name(i) != Name(j) { assert |Name(i)| == i && |Name(j)| == j; }
    if n == 0 {
      assert Names(n) == {};
    } else {
      NamesDiffer(n - 1);
      assert Names(n) == Names(n - 1) + {Name(n - 1)};
    }
  }

  lemma FreshName(used: set<string>) returns (name: string)
    ensures name !in used
  {
    NamesDiffer(|used| + 1);
    assert !(Names(|used| + 1) <= used) by { SmallerIsNotAbove(used, Names(|used| + 1)); }
    name :| name in Names(|used| + 1) - used;
  }

  lemma SmallerIsNotAbove(small: set<string>, big: set<string>)
    requires |small| < |big|
    ensures !(big <= small)
  {
    assert big <= small ==> small == big + (small - big) && |small| == |big| + |small - big|;
  }
}
