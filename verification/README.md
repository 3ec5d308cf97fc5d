# A model of rushsocket's subscription machinery

rushsocket is a server for the Pusher protocol. What a client believes it is subscribed
to is recorded redundantly: in five tables of every node, on the connection itself, in
every other client's copy of a member list, and in Redis for the whole cluster. This
project models those records and the code that updates them, and proves that they agree.

## How it is organised

One node, with the handler of an event as one step:

- `Protocol`, `Connection` - names, messages, webhooks; a connection as a value and as the
  object whose fields the handlers set, with its bounded outbound queue.
- `Tables`, `Namespaces` - the five tables and the counter of an app, as values and as the
  object whose methods update them. `Tables` also follows arbitrary sequences of calls.
- `Subscriptions` - the simple machine the server has to agree with: for every open socket,
  the channels it holds and as which user. It looks nothing up; subscribers, member lists
  and the sockets of a user are computed from the connections.
- `Agreement`, `Server` - the handlers, table by table as the server runs them. Each is
  proved to be one step of the simple machine and to leave every table a projection of the
  connections; `AppServer.Serve` puts any number of events together.
- `Mail` - what each event of the simple machine leaves every socket: its messages in order,
  what it holds, and which webhooks go out.
- `Replicas`, `Announcements`, `Alternation`, `Histories` - over every run of the simple
  machine: the clients' copies of member lists, what is announced in which order, and why a
  channel is held or a connection flagged.
- `Admission` - the connection limit again, now at the grain of single atomic operations.

The cluster, with any number of nodes:

- `RedisStore`, `ClusterPresence` - the shared hashes and a node's adapter; one adapter call
  as one step.
- `Commands` - the same calls command by command, freely interleaved between nodes;
  `MemberBound` - how many users are listed then; `CommandRefcount` - exactly when the
  counts survive that.
- `Occupancy` - the occupancy key, with peers that may or may not answer, and the webhooks of
  presence channels, which do without it; `OccupancyCommands` - the key again, at the grain of
  single table changes, Redis commands and answers.
- `Fanout` - channel messages in flight between nodes, while sockets open, join, leave,
  read and close.
- `ClusterReplicas` - the clients' copies of member lists over all nodes, with each node
  reading the others' changes in its own time; `ReplicaHandlers` - the handlers, on a node's
  tables and connections, that take its steps.
- `Terminations` - terminating a user's connections on all nodes.
- `Collector` - requests to the peers and the collection of their responses.
- `Readiness` - when a node calls itself ready, at the grain of single atomic operations.

And three smaller pieces: `Liveness` (the ping and pong deadlines of a connection loop),
`Metrics` (adding up the nodes' metrics trees) and `JsonSize` (the size estimate for client
events, against a serialiser after section 7 of RFC 8259).

Time, the network, authorisation verdicts, cache contents, spurious failures, arrival
orders and the order in which a hash set is walked are parameters or left open, so that
the results hold for all of them. Socket ids and request ids are fresh.

## What turned out not to hold, and exactly when it does

- A presence limit of zero leaves an empty presence entry behind
  (`Tables.EmptyRoomIffZeroLimit`); nobody can see it (`Agreement.RefusedIsInvisible`).
- A socket that signed in as several users stays in the index of all but the last when it
  closes (`Server.AppServer.OnClose`). It is harmless as long as its id is not used again
  (`Agreement.ReuseIffForgotten`).
- Between nodes the member limit can be exceeded by one user per further node, and by no
  more (`MemberBound.MembersAtMostLimitPlusOthers`, `MemberBound.BoundIsTight`).
- Command by command, the counts are lost exactly if a command collides with another
  node's call: it counts a socket of a user whose count that call is about to delete
  (that user's, or everybody's after the last user has left), or it starts to delete all
  counts while that call has still to list its user
  (`CommandRefcount.RefcountHoldsIffNoCollision`). A collision is the point of no return:
  no way of ending the calls in flight mends it, and without one they can always be ended
  with everything exact (`CommandRefcount.CollisionIsPointOfNoReturn`).
- Over several nodes a client, there or still to join, can be bound for a wrong member list,
  exactly if some handler told its node's clients of a user about whom the node had an older
  change left to read (`ClusterReplicas.CopiesEndRightIff`,
  `ClusterReplicas.OvertakingMisleads`). Its copy then stays wrong until that user's entry next
  changes (`ClusterReplicas.OvertakenEndsWrong`).
- A node whose peers do not answer can report a channel vacated that is not, exactly if
  it has nobody left itself and hears of none of those that have
  (`Occupancy.LeaveIsSafeIff`, `Occupancy.OccupancyAlternatesIff`). A presence channel is
  also reported occupied twice, exactly if a node gets its first subscriber while another
  node has some (`Occupancy.PresenceOccupancyAlternatesIff`).
- Operation by operation the occupancy key can be lost, or a channel be vacated twice, even
  with every answer heard. Weigh the key and the claims under way against the deletes that
  are bound to come and the subscribers: it happens exactly if, with nothing to spare, a
  claim finds the key set or a leave has missed another node's subscribers, if a node's last
  subscriber goes and leaves other nodes' undecided leaves nothing but to delete, or if a
  delete finds no key (`OccupancyCommands.OccupancyHoldsIffNoCollision`). That, too, is a
  point of no return (`OccupancyCommands.CollisionIsPointOfNoReturn`), and one node alone can
  reach it (`OccupancyCommands.NewcomerLosesKey`).
- A node can call itself ready while it is disconnected if a failure falls between a
  discovery task's comparison and its store, or the other way round
  (`Readiness.ReadinessIsHonestIff` and the two runs after it).
- A request whose publish fails leaves its pending entry behind for good
  (`Collector.LeakedIffPublishFailed`).
- Merging two metrics trees either way round is the same exactly if every shared field is
  equal or within the signed 64-bit range on both sides, every other field is a number,
  and the same holds of their apps (`Metrics.MergeCommutesIff`); a shared integer is added
  up exactly within that range (`Metrics.SharedFieldAddsIff`), so a counter of 2^63 or more
  is kept or lost.
- README.md:542 of the repository says that the presence limit counts per node; the code
  checks the cluster's hash (src/adapter/redis/mod.rs:451-457), and so does the model.

## Model

| member | source | states |
|---|---|---|
| `Protocol.KindByName` | src/protocol/channels.rs:14-37 | a channel is a cache, presence or private channel if and only if its name starts so, presence and private possibly after the cache prefix |
| `Tables.EmptyRoomIffZeroLimit` | src/adapter/namespace.rs:218-225 | looking a room up for an attempt to join leaves no empty room behind, if and only if the limit is at least one or the room existed |
| `Tables.CallKeepsConsistent` | src/adapter/namespace.rs:73-130 | every call keeps forward and reverse channel index dual, and no channel or member set empty |
| `Tables.RunKeepsConsistent` | src/adapter/namespace.rs:73-130 | so does every sequence of calls, whatever its arguments |
| `Tables.ChannelReportsBalance` | src/adapter/namespace.rs:73-130 | over every sequence of calls, occupied reports exceed vacated reports (both kinds) by one while the channel has a member and by none while it has not |
| `Tables.CallMovesUser` | src/adapter/namespace.rs:181-265 | a call that reports a user new or gone, and no other, changes whether that user is in that room |
| `Tables.UserReportsBalance` | src/adapter/namespace.rs:181-265 | the balance law for every user of every presence channel |
| `Connection.WsConnection.constructor` | src/websocket/connection.rs:37-49 | a new connection holds nothing and is not flagged |
| `Connection.WsConnection.SendRaw` | src/websocket/connection.rs:55-62 | with fewer than 512 messages queued the message is put at the end of queue and log, and else neither changes and the connection is flagged |
| `Connection.WsConnection.Deliver` | src/websocket/mod.rs:239-250 | the oldest queued message is taken off the queue and is the last the client has read; subscriptions and identities stay |
| `Connection.WsConnection.ForceClose` | src/websocket/connection.rs:70-72 | sets the flag and changes nothing else |
| `Connection.WsConnection.AddChannel` | src/websocket/connection.rs:89-91 | adds the channel and changes nothing else |
| `Connection.WsConnection.RemoveChannel` | src/websocket/connection.rs:93-95 | removes the channel and changes nothing else |
| `Connection.WsConnection.SetPresence` | src/websocket/connection.rs:105-112 | records the identity for the channel and changes nothing else |
| `Connection.WsConnection.RemovePresence` | src/websocket/connection.rs:114-116 | returns the recorded identity, if any, and forgets it |
| `Connection.WsConnection.SetUser` | src/websocket/events/signin.rs:88-92 | overwrites the signed-in user; the history of identities only grows |
| `Namespaces.Namespace.constructor` | src/adapter/namespace.rs:28-37 | empty tables, counter zero |
| `Namespaces.Namespace.AddSocket` | src/adapter/namespace.rs:39-43 | the counter stays the number of sockets if and only if the id was not registered |
| `Namespaces.Namespace.TryAddSocket` | src/adapter/namespace.rs:48-71 | for any number of spurious compare-exchange failures, admits if and only if the limit is negative or not reached, and the counter is the number of sockets |
| `Namespaces.Namespace.RemoveSocket` | src/adapter/namespace.rs:73-94 | following the reverse index has the effect of visiting every channel, and lists exactly, each once, the channels where the socket was alone |
| `Namespaces.Namespace.LeaveAll` | src/adapter/namespace.rs:81-91 | the clean-up loop takes the socket out of the given channels and drops and lists exactly those it empties |
| `Namespaces.ListedSuffices` | src/adapter/namespace.rs:79-91 | with dual indices, cleaning up the listed channels equals a scan of all |
| `Namespaces.Namespace.AddToChannel` | src/adapter/namespace.rs:97-112 | updates both indices consistently; true if and only if the channel had no member |
| `Namespaces.Namespace.RemoveFromChannel` | src/adapter/namespace.rs:114-130 | updates both indices consistently; true if and only if nobody is left and the entry existed |
| `Namespaces.Namespace.SendToChannel` | src/adapter/namespace.rs:132-149 | each member but the excepted one gets the message once or is flagged; nobody else is touched |
| `Namespaces.Namespace.GetPresenceMembers` | src/adapter/namespace.rs:166-179 | each user of the room with its info |
| `Namespaces.Namespace.AddPresenceMember` | src/adapter/namespace.rs:181-204 | adds the socket, keeps the first info; true if and only if the user was not there |
| `Namespaces.Namespace.TryAddPresenceMember` | src/adapter/namespace.rs:210-242 | refuses exactly a new user of a full room; otherwise reports whether it was new and the members including it |
| `Namespaces.Namespace.RemovePresenceMember` | src/adapter/namespace.rs:244-265 | removes the socket, then the empty user, then the empty room; true if and only if that was the user's last socket |
| `Namespaces.Namespace.AddUser` | src/adapter/namespace.rs:274-279 | adds the socket under the user |
| `Namespaces.Namespace.RemoveUser` | src/adapter/namespace.rs:281-289 | removes the socket under the user, and the user with its last socket |
| `Namespaces.Namespace.GetSocketsForUser` | src/adapter/namespace.rs:291-301 | the indexed sockets that are still registered |
| `Namespaces.Namespace.TerminateOne` | src/adapter/local.rs:189-202 | a last error frame if there is room, and the flag in any case |
| `Subscriptions.SubscribeOutcome` | src/websocket/events/subscribe.rs:20-250 | a request either grants exactly one subscription, followed by the cache replay, or changes nothing but mail |
| `Subscriptions.UnsubscribeMoves` | src/websocket/events/unsubscribe.rs:30-62 | an unsubscribe takes that socket out of that channel and its presence, and moves no other socket |
| `Subscriptions.CloseKeepsWellFormed` | src/websocket/lifecycle.rs:37-95 | after the loop over its channels a closing socket holds nothing, so forgetting it leaves no channel or user behind |
| `Subscriptions.NextKeepsWellFormed` | src/websocket/lifecycle.rs:11-35 | every event keeps presence records exactly for held presence channels and member lists exactly the users some socket holds |
| `Subscriptions.RunIsWellFormed` | src/websocket/lifecycle.rs:11-35 | so does every run |
| `Agreement.PlainMemberAgrees` | src/websocket/events/subscribe.rs:55-59 | adding on both sides keeps all tables projections of the connections |
| `Agreement.PresenceMemberAgrees` | src/websocket/events/subscribe.rs:186-215 | likewise for a presence subscription, over the room, both indices and the connection |
| `Agreement.FormerMemberAgrees` | src/websocket/events/unsubscribe.rs:37-62 | likewise for leaving |
| `Agreement.RefusedIsInvisible` | src/adapter/namespace.rs:218-225 | a refused presence join changes no projection and no member list |
| `Agreement.GoneMeansNobodyHolds` | src/websocket/events/unsubscribe.rs:39-44 | the room's verdict that a user is gone is that no other connection holds the channel as that user |
| `Agreement.LeftIsUnsubscribed` | src/websocket/events/unsubscribe.rs:37-68 | the table-by-table departure is the simple machine's unsubscribe: same connections, mail, member lists and webhooks |
| `Agreement.IdentifiedAgrees` | src/websocket/events/signin.rs:88-96 | signing in keeps the user index, among open sockets, exactly who ever signed in as whom |
| `Agreement.WithoutUserDrops` | src/websocket/lifecycle.rs:88-92 | closing takes the socket off the index of its current user and of no other |
| `Agreement.ReuseIffForgotten` | src/adapter/namespace.rs:281-301 | a closed socket's id could be used again without misrouting if and only if the index has forgotten it |
| `Agreement.ForgettingEmptiesNothing` | src/websocket/lifecycle.rs:94-95 | forgetting a socket that holds nothing empties no channel |
| `Agreement.ForgottenAgrees` | src/websocket/lifecycle.rs:88-95 | after teardown all tables are projections of the remaining connections |
| `Agreement.AgreementIsWellFormed` | src/adapter/namespace.rs:166-179 | rooms that agree with the connections list exactly the users some connection holds |
| `Server.AppServer.ValidIsWellFormed` | src/adapter/namespace.rs:12-25 | tables that are projections with nothing empty make a well-formed world: presence exactly for held presence channels, member lists exactly the users held |
| `Server.AppServer.Connect` | src/websocket/mod.rs:152-169 | registers a fresh connection unless a non-negative limit is reached, and keeps all tables projections |
| `Server.AppServer.SubscribePlain` | src/websocket/events/subscribe.rs:55-66 | one step of the simple machine; occupied if and only if nobody else was subscribed |
| `Server.AppServer.ReplayCache` | src/websocket/events/subscribe.rs:253-269 | the cached event, or a cache miss and its webhook, or nothing, as the cache says |
| `Server.AppServer.SubscribePresence` | src/websocket/events/subscribe.rs:184-243 | refused exactly at the limit and then without a visible change; else snapshot to the newcomer and member_added to the others if the user is new, webhooks included |
| `Server.AppServer.Subscribe` | src/websocket/events/subscribe.rs:20-250 | the whole handler, duplicate requests and every refusal in order, is one step of the simple machine |
| `Server.AppServer.Unsubscribe` | src/websocket/events/unsubscribe.rs:19-68 | the whole handler is one step of the simple machine and keeps all tables projections with nothing empty |
| `Server.AppServer.SignIn` | src/websocket/events/signin.rs:88-98 | records the user on both sides, or reports the refusal |
| `Server.AppServer.Publish` | src/adapter/namespace.rs:132-149 | exactly the subscribers of the simple machine, but the excepted one, are sent the event |
| `Server.AppServer.Deliver` | src/websocket/mod.rs:239-250 | the client reads its oldest message; nothing else changes |
| `Server.AppServer.GetSocketsForUser` | src/adapter/namespace.rs:291-301 | exactly the open sockets that have at some time signed in as the user |
| `Server.AppServer.TerminateUserConnections` | src/adapter/local.rs:186-204 | flags all of those and no others |
| `Server.AppServer.OnClose` | src/websocket/lifecycle.rs:37-95 | closing is unsubscribing from every held channel in some order and forgetting the socket; the user index keeps it under exactly the earlier identities |
| `Server.AppServer.ForgetSocket` | src/websocket/lifecycle.rs:94-95 | the discarded result of the final removal is always empty |
| `Server.AppServer.Handle` | src/websocket/lifecycle.rs:11-35 | each event is a possible step of the simple machine |
| `Server.AppServer.Serve` | src/websocket/mod.rs:200-275 | any script of events is a run of the simple machine, and every unflagged client's copy of a member list equals what the tables return |
| `Replicas.ReplicasConverge` | src/websocket/events/subscribe.rs:186-243 | in every reachable state, replaying an unflagged client's log gives exactly the member list, several sockets per user and first info included |
| `Mail.GrantedIff` | src/websocket/events/subscribe.rs:53-215 | a request for a channel not held is granted if and only if a private or presence channel comes with a valid signature, a presence channel with a usable claim, and the user is listed or the limit not reached; what the socket then holds, and as whom |
| `Mail.GrantedMail` | src/websocket/events/subscribe.rs:60-243 | the requester's mail, in order: the confirmation, or for a presence channel the list with the user on it, and on a cache channel the cached event or a cache miss |
| `Mail.RefusalMail` | src/websocket/events/subscribe.rs:20-206 | the requester's mail otherwise: nothing if it holds the channel, and for every combination of kind, signature and claim exactly the error that goes with it |
| `Mail.SubscribingTellsOthers` | src/websocket/events/subscribe.rs:233-238 | everybody else's mail: one member_added for the channel's other subscribers if the user was not listed, and nothing if it was, or for anybody else |
| `Mail.SubscribingLists` | src/websocket/events/subscribe.rs:186-269 | the member lists and the webhooks, in order, after any request |
| `Mail.UnsubscribingMail` | src/websocket/events/unsubscribe.rs:30-68 | the leaver hears nothing and holds the channel no more; the other subscribers hear member_removed exactly if no other socket is in it as that user; lists and webhooks |
| `Mail.ClosingMail` | src/websocket/lifecycle.rs:37-95 | likewise for every channel of a closing socket, in the order they are left; its id is retired |
| `Mail.ConnectingMail` | src/adapter/namespace.rs:48-71 | a newcomer is admitted exactly below the limit, holds nothing and has no mail; nobody else notices |
| `Mail.SigningInMail` | src/websocket/events/signin.rs:88-98 | signing in is answered by success or the refusal, replaces the user and extends the identities; nobody else notices |
| `Mail.PublishingMail` | src/adapter/namespace.rs:132-149 | each subscriber but the excepted socket gets the event once, and nobody else anything |
| `Mail.TerminatingMail` | src/adapter/local.rs:186-204 | each socket ever signed in as the user gets the error, if there is room, and is flagged; no other changes |
| `Mail.DeliveringMail` | src/websocket/mod.rs:239-250 | the client reads its oldest message and nothing else changes |
| `Mail.ReadThenQueued` | src/websocket/connection.rs:55-62 | over every run, what a client has read followed by what is queued for it is exactly what it was sent, in order, with at most 512 messages queued |
| `Histories.MembersComeAndGoInTurn` | src/websocket/events/subscribe.rs:233-238 | over every run, an unflagged client hears that a member has come only while its copy lacks it, and that one has gone only while its copy has it |
| `Histories.HeldByLeave` | src/websocket/events/subscribe.rs:77-174 | over every run, whoever holds a private or presence channel has asked for it with a valid signature, for a presence channel with the claim it is there under, and has not left since |
| `Histories.IdentitiesAreSignIns` | src/websocket/events/signin.rs:88-96 | over every run, an open socket's identities are exactly the users it has signed in as |
| `Histories.FlaggedForCause` | src/websocket/connection.rs:55-72 | over every run, a connection is flagged only if its queue was once full or a user it had signed in as by then was terminated, and in the latter case it is |
| `Announcements.AnnouncementsAlternate` | src/websocket/events/subscribe.rs:62-66 | over every run, occupied and vacated alternate per channel and joined and left per user, the last telling the present state |
| `Announcements.SubscribeListsClaim` | src/websocket/events/subscribe.rs:184-206 | a subscribe changes a member list only by its own new user with its own info, within the limit |
| `Announcements.FirstInfoWins` | src/adapter/namespace.rs:226-235 | as long as a user stays listed its info is that of the request that brought it in |
| `Announcements.MembersWithinLimit` | src/adapter/namespace.rs:222-225 | on one node no member list ever exceeds the limit |
| `Admission.StepKeepsBalanced` | src/adapter/namespace.rs:48-76 | every single operation keeps the tally, and a decrement finds at least one |
| `Admission.AdmissionIsRaceFree` | src/adapter/namespace.rs:48-76 | at every point of every interleaving the counter is sockets plus reservations not inserted plus removals not given back, and neither it nor the sockets exceed the limit |
| `Admission.DecrementNeverUnderflows` | src/adapter/namespace.rs:73-76 | the counter never goes below zero |
| `Admission.QuietVerdict` | src/adapter/namespace.rs:55-59 | undisturbed, an attempt is refused if and only if the limit is reached by open sockets |
| `Admission.RefusedIffSawFull` | src/adapter/namespace.rs:53-70 | over every interleaving a connection is refused if and only if it has found the counter at the limit, so never for a failed exchange |
| `Admission.SocketsAreInserted` | src/adapter/namespace.rs:66-77 | over every interleaving the table holds exactly the sockets inserted and not removed since |
| `RedisStore.RedisAdapter.TryAddPresenceMember` | src/adapter/redis/mod.rs:439-477 | refuses exactly a new user of a full hash and then changes nothing; else counts the socket, lists a new user, and returns the cluster's list |
| `RedisStore.RedisAdapter.GlobalAdd` | src/adapter/redis/mod.rs:466-472 | the info is stored exactly on the first socket |
| `RedisStore.RedisAdapter.RemovePresenceMember` | src/adapter/redis/mod.rs:479-516 | true exactly on the last socket, which takes the user out of both hashes |
| `RedisStore.RedisAdapter.GlobalRemove` | src/adapter/redis/mod.rs:495-514 | likewise, with both keys deleted once nobody is listed |
| `RedisStore.RedisAdapter.IsChannelGloballyOccupied` | src/adapter/redis/mod.rs:611-634 | true exactly for the first node to claim the channel |
| `RedisStore.RedisAdapter.IsChannelGloballyVacated` | src/adapter/redis/mod.rs:636-672 | true exactly if nobody is left here and the answers add up to nobody; only then is the key deleted |
| `RedisStore.RedisAdapter.SendToChannel` | src/adapter/redis/mod.rs:304-327 | the envelope names this node; the local members are served |
| `RedisStore.RedisAdapter.HandleBroadcast` | src/adapter/redis/mod.rs:175-191 | own envelopes are discarded, others served to the local members |
| `ClusterPresence.RefcountIsExact` | src/adapter/redis/mod.rs:439-516 | in every reachable state the socket count of a user is its number of sockets over all nodes and it is listed if and only if that is positive; new and gone alternate on the first and last socket; the limit holds |
| `ClusterPresence.CleanupDeletesNothingLive` | src/adapter/redis/mod.rs:506-511 | the clean-up of empty hashes removes the leaving user and nothing else |
| `ClusterPresence.ListedInfoStays` | src/adapter/redis/mod.rs:466-472 | the listed info is that of the socket that brought the user in |
| `ClusterPresence.AdmittedIff` | src/adapter/redis/mod.rs:451-457 | a socket gets into the channel exactly if its user is listed in the cluster or the limit is not reached |
| `ClusterPresence.JoinOn` | src/adapter/redis/mod.rs:439-477 | the adapter's call is the join step: same hashes, verdict, list and report, and the node's own room stays exactly its seats |
| `ClusterPresence.LeaveOn` | src/adapter/redis/mod.rs:479-516 | the adapter's call is the leave step: same hashes and report, and the node's own room stays exactly its seats |
| `MemberBound.MembersAtMostLimitPlusOthers` | src/adapter/redis/mod.rs:448-472 | for N nodes and every interleaving of single commands, at most limit + N - 1 users are listed or about to be |
| `MemberBound.RunIsBounded` | src/adapter/redis/mod.rs:448-516 | the invariant behind it: claimed users plus nodes that saw room stay within limit + N - 1 |
| `MemberBound.ReadingRoomIsBounded` | src/adapter/redis/mod.rs:452-457 | reading a length below the limit re-establishes the bound from scratch |
| `MemberBound.OtherStepsKeepBounded` | src/adapter/redis/mod.rs:453-511 | every other command spends room or gives users up |
| `MemberBound.BoundIsTight` | src/adapter/redis/mod.rs:448-472 | for every set of nodes and limit of at least one, some interleaving lists exactly limit + N - 1 users and completes |
| `MemberBound.ZeroLimitListsNobody` | src/adapter/redis/mod.rs:454-456 | with a limit of zero nobody is ever listed |
| `Commands.UndisturbedJoin` | src/adapter/redis/mod.rs:448-472 | in any run, a join whose commands nothing comes between is the whole join: same hashes, same seats |
| `Commands.UndisturbedLeave` | src/adapter/redis/mod.rs:479-516 | likewise a leave |
| `CommandRefcount.QuietIsExact` | src/adapter/redis/mod.rs:479-516 | with no call in flight the adjusted refcount is the exact one |
| `CommandRefcount.AdjustedIffNoCollision` | src/adapter/redis/mod.rs:448-516 | a single command keeps the refcount, adjusted for the calls in flight, if and only if it does not collide |
| `CommandRefcount.RefcountHoldsIffNoCollision` | src/adapter/redis/mod.rs:448-516 | an interleaving keeps it throughout if and only if no command in it collides |
| `CommandRefcount.CollisionFreeIsExact` | src/adapter/redis/mod.rs:448-516 | after a run without a collision, once no call is in flight, every count is the number of sockets over all nodes and exactly the users with one are listed |
| `CommandRefcount.SerialIsCollisionFree` | src/adapter/redis/mod.rs:495-514 | whole calls one after another, on any nodes, never collide |
| `CommandRefcount.OneNodeIsExact` | src/adapter/redis/mod.rs:448-516 | a single node is always exact between its calls |
| `CommandRefcount.CollisionIsPointOfNoReturn` | src/adapter/redis/mod.rs:448-516 | in a run without a collision so far, the next command collides if and only if from then on no way of ending the calls in flight leaves the counts exact |
| `CommandRefcount.InterleavedLeaveDropsUser` | src/adapter/redis/mod.rs:466-514 | a concrete interleaving after which a user with a socket is listed nowhere |
| `CommandRefcount.InterleavedLeaveDropsAnother` | src/adapter/redis/mod.rs:506-511 | another in which that befalls a user other than the one that left |
| `Occupancy.LeaveVerdict` | src/adapter/redis/mod.rs:636-672 | a leave deletes the key exactly if its node has nobody left and no node it heard from has anybody |
| `Occupancy.LeaveIsSafeIff` | src/adapter/redis/mod.rs:645-665 | a leave keeps the key right if and only if its node keeps a subscriber, no other node has one, or it heard of one |
| `Occupancy.FullAnswersSuffice` | src/adapter/redis/mod.rs:652-665 | if every peer answers, every leave is safe in that sense |
| `Occupancy.CollectedAnswersSuffice` | src/adapter/redis/pubsub.rs:174-223 | as a request yields nothing or one response per known peer, a leave that got any is safe if its node knows all that have subscribers |
| `Occupancy.TruthfulIffSafe` | src/adapter/redis/mod.rs:636-672 | a join or leave keeps reports alternating and the last one true if and only if it is safe |
| `Occupancy.OccupancyAlternatesIff` | src/adapter/redis/mod.rs:611-672 | over every run, occupied and vacated alternate cluster-wide with the last one true at every point, if and only if every leave that empties its node hears of whoever is subscribed elsewhere; then the key is set if and only if somebody is subscribed |
| `Occupancy.PresenceTruthfulIffSafe` | src/websocket/events/subscribe.rs:208-220 | a join or leave of a presence channel keeps reports alternating and the last one true if and only if it is safe and not a node's first while another node has subscribers |
| `Occupancy.PresenceOccupancyAlternatesIff` | src/websocket/events/subscribe.rs:208-220 | over every run the webhooks of a presence channel alternate cluster-wide and are true at every point if and only if that holds of every step |
| `Occupancy.SilenceVacatesTwice` | src/adapter/redis/mod.rs:652-665 | a concrete run with silent peers in which a channel is vacated too early and then again |
| `Occupancy.JoinChannel` | src/websocket/events/subscribe.rs:55-62 | joining the table and claiming the channel is the join step, and leaves other channels alone |
| `Occupancy.LeaveChannel` | src/websocket/events/unsubscribe.rs:58-64 | leaving the table and checking the cluster is the leave step, and leaves other channels alone |
| `OccupancyCommands.SoundIffNoCollision` | src/adapter/redis/mod.rs:611-672 | a single operation keeps reports in turn and the account of key, claims and due deletes in order if and only if it does not collide |
| `OccupancyCommands.CanEndIffSound` | src/adapter/redis/mod.rs:611-672 | at every point of every run, the handlers under way can end with key and reports exact if and only if that account is in order |
| `OccupancyCommands.OccupancyHoldsIffNoCollision` | src/adapter/redis/mod.rs:611-672 | over every interleaving, they can at every point if and only if no operation collides; then key and reports are exact whenever no handler is under way |
| `OccupancyCommands.CollisionIsPointOfNoReturn` | src/adapter/redis/mod.rs:645-669 | the first collision leaves no way for the handlers under way to end with key and reports exact; short of one there is a way |
| `OccupancyCommands.UndisturbedJoin` | src/websocket/events/subscribe.rs:55-62 | uninterrupted, a subscription's operations are the join step of `Occupancy` |
| `OccupancyCommands.UndisturbedLeave` | src/adapter/redis/mod.rs:636-672 | uninterrupted, an unsubscription's operations, whoever answers, are the leave step |
| `OccupancyCommands.NewcomerLosesKey` | src/adapter/redis/mod.rs:648-669 | on one node, a subscription between the last leaver's count and its delete is left without a key and reported vacated |
| `OccupancyCommands.BothVacate` | src/websocket/events/unsubscribe.rs:58-64 | on two nodes, every answer heard, the last two leavers both report the channel vacated |
| `Fanout.HandleServes` | src/websocket/connection.rs:55-62 | handling an envelope keeps every socket of the node served: what it was handed is in its log, or something is missing and it is flagged |
| `Fanout.RunIsExact` | src/adapter/redis/mod.rs:304-327 | in every reachable state, sockets opening and closing meanwhile, each node has handled each envelope due to it exactly once and no other, and each open socket has what it was handed or is flagged |
| `Fanout.ExactlyOnce` | src/adapter/redis/pubsub.rs:463-480 | once all nodes have read everything, each has handled every envelope exactly once, the publisher included |
| `Fanout.EverySubscriberOnce` | src/adapter/namespace.rs:132-149 | a socket that stays from any moment on gets from then on exactly the messages published anywhere to its channels, not excepting it and not yet dealt with by its node, each once, and no other, or is flagged |
| `Fanout.PublishedInOrder` | src/adapter/redis/mod.rs:304-320 | the envelopes published are exactly those of the publishes made, in their order |
| `Fanout.HoldsWhatItJoined` | src/websocket/connection.rs:89-95 | over every run an open socket holds exactly the channels it has joined and not left since |
| `Fanout.OpenIffOpened` | src/websocket/mod.rs:152-195 | the sockets there are those opened and not closed since |
| `Fanout.ReadingGetsOldest` | src/websocket/mod.rs:239-250 | a client that reads gets its oldest message; nobody else notices |
| `Fanout.ReadThenQueued` | src/websocket/mod.rs:239-250 | what a client has read followed by what is queued for it is what its node put into its log, in order |
| `Fanout.PublishOn` | src/adapter/redis/mod.rs:304-327 | the adapter's send is publishing followed by the own delivery |
| `Fanout.ReceiveOn` | src/adapter/redis/mod.rs:175-191 | the adapter's broadcast handler is the receive step |
| `ClusterReplicas.NoteIsMessage` | src/websocket/events/subscribe.rs:233-238 | a change does to a copy what its message does to a client |
| `ClusterReplicas.NewsIsChange` | src/adapter/redis/mod.rs:439-516 | what a handler reports is exactly what it changes in the cluster's list |
| `ClusterReplicas.SettlesIffNotOvertaking` | src/adapter/redis/mod.rs:304-327 | a step keeps every client, there or starting from the list now, on its way to the cluster's list if and only if it does not report a user its node has older news of left to read |
| `ClusterReplicas.EndRightIffSettles` | src/adapter/redis/mod.rs:175-191 | at every point of every run, whoever is ever a client of a node that has read everything, as long as nothing more is overtaken, has the list, if and only if all clients, there or starting now, are on their way to it |
| `ClusterReplicas.CopiesEndRightIff` | src/adapter/redis/mod.rs:304-327 | over every run, that is so at every point if and only if no news overtakes older news of the same user |
| `ClusterReplicas.OvertakingMisleads` | src/adapter/redis/mod.rs:304-327 | after a run without overtaking, a step overtakes if and only if things can then go on, overtaking nothing more, to where an actual client of a node that has read everything lacks the list |
| `ClusterReplicas.ReadOut` | src/adapter/redis/pubsub.rs:463-480 | a node can always read on to the end, and its client's copy is then the one it had with all that was left applied in order |
| `ClusterReplicas.ClusterReplicasConverge` | src/websocket/events/subscribe.rs:186-243 | as long as nothing has been overtaken, every client of a node that has read everything has exactly the cluster's list, the users with a socket on any node |
| `ClusterReplicas.OvertakenEndsWrong` | src/adapter/redis/mod.rs:175-191 | after overtaking, whatever else happens while that user's entry stays as it is: a client of that node, there at once or joining before the node has read what it had left about the user, is wrong about the user once the node has read everything |
| `ClusterReplicas.OvertakingHappens` | src/websocket/events/unsubscribe.rs:38-56 | a concrete run in which it happens, and after which some client can end up wrong |
| `ReplicaHandlers.JoinOn` | src/websocket/events/subscribe.rs:186-239 | joining, snapshot and announcement on a node's tables, connections and Redis are the join step: its clients' mail still makes the copies, and the envelope sent is the news |
| `ReplicaHandlers.LeaveOn` | src/websocket/events/unsubscribe.rs:37-62 | leaving and its announcement are the leave step in the same sense |
| `ReplicaHandlers.ReadOn` | src/adapter/redis/mod.rs:175-191 | handling an envelope is the read step |
| `Terminations.ConnectionsMove` | src/websocket/connection.rs:55-116 | sending, delivering, joining and leaving keep a connection's identities and flag it only when its queue is full |
| `Terminations.OpenIffOpened` | src/websocket/mod.rs:152-195 | the sockets there are those opened and not closed since |
| `Terminations.IdentitiesAreSignIns` | src/websocket/events/signin.rs:88-96 | over every run an open socket's identities are exactly the users it has signed in as |
| `Terminations.FlaggedIff` | src/adapter/redis/mod.rs:192-196 | over every run an open connection is flagged if and only if its queue was once full or its node was once to terminate a user it had signed in as by then |
| `Terminations.TerminationReachesAll` | src/adapter/redis/mod.rs:540-554 | whichever node is asked, on every node that has read on every connection signed in as the user when the request came, and not closed since, is flagged |
| `Terminations.TerminateOn` | src/adapter/redis/mod.rs:540-554 | the server's call and the posted request are the terminate step |
| `Terminations.ReadOn` | src/adapter/redis/mod.rs:175-196 | handling a posted request, its own skipped, is the read step |
| `Collector.RedisPubSub.GetPeerCount` | src/adapter/redis/pubsub.rs:310-315 | stale peers are dropped before counting |
| `Collector.RedisPubSub.BeginRequest` | src/adapter/redis/pubsub.rs:167-206 | stale peers are forgotten; answered at once with the empty list if and only if none is left; else registered for one response from each, and an error if the publish fails |
| `Collector.RedisPubSub.BeginDiscovery` | src/adapter/redis/pubsub.rs:228-261 | registered for 2^64 - 1 responses, or unregistered again if the publish fails |
| `Collector.RedisPubSub.HandleMessage` | src/adapter/redis/pubsub.rs:463-497 | own messages change nothing; any other makes its sender known and passes its response, if any, on |
| `Collector.RedisPubSub.HandleResponse` | src/adapter/redis/pubsub.rs:272-283 | a response with a pending id is collected, and completes the request once; any other is ignored |
| `Collector.RedisPubSub.FinishRequest` | src/adapter/redis/pubsub.rs:208-222 | the entry is removed; the result is what was sent, or nothing |
| `Collector.RedisPubSub.FinishDiscovery` | src/adapter/redis/pubsub.rs:263-268 | the entry is removed; the result is the number of responses |
| `Collector.ResponsesAllOrNothing` | src/adapter/redis/pubsub.rs:167-223 | for every arrival order, a request yields nothing or exactly the first expected payloads with its id, the latter if and only if that many came since it was made |
| `Collector.KnownArePeers` | src/adapter/redis/pubsub.rs:463-497 | over every run, the known nodes are the other nodes some message of which has come since a request last found them stale, and the responses taken are those of other nodes, in order |
| `Collector.RequestAsksPeers` | src/adapter/redis/pubsub.rs:174-206 | a request wants one response from each of these that it does not find stale, and is answered at once if and only if there is none |
| `Collector.RequestYields` | src/adapter/redis/pubsub.rs:167-223 | from the history of messages alone: a request's caller gets the first responses with its id sent by others since it was made, as many as it asked peers, if that many came, and else nothing |
| `Collector.DiscoveryWaits` | src/adapter/redis/pubsub.rs:228-261 | a published discovery waits for 2^64 - 1 responses; one whose publish fails is over at once |
| `Collector.SenderFiresOnce` | src/adapter/redis/pubsub.rs:277-281 | no sender fires twice, and it fires if and only if as many responses came as expected, so a discovery's does not before 2^64 - 1 |
| `Collector.LeakedIffPublishFailed` | src/adapter/redis/pubsub.rs:202-213 | an entry stays whatever happens from now on if and only if it belongs to a request whose publish failed |
| `Collector.FailedPublishLeaks` | src/adapter/redis/pubsub.rs:202-206 | a failed publish leaves an entry exactly for a request that had a peer to ask, and none for a discovery |
| `Readiness.HonestIffTimely` | src/adapter/redis/pubsub.rs:420-421 | a single operation keeps readiness honest if and only if it is not a publish that makes the node ready for a connection no longer served |
| `Readiness.ReadinessIsHonestIff` | src/adapter/redis/pubsub.rs:343-426 | a run is honest throughout if and only if every publish in it is timely |
| `Readiness.ReadyMeansLive` | src/adapter/redis/pubsub.rs:343-426 | with compare-and-publish and invalidation one step each, ready implies the current message loop and its own finished discovery, for any number of outstanding tasks |
| `Readiness.OnlyOwnDiscoveryDecides` | src/adapter/redis/pubsub.rs:418-425 | a task of an earlier generation never changes readiness |
| `Readiness.FailureInsideDecision` | src/adapter/redis/pubsub.rs:420-421 | a concrete run that is ready and disconnected if a failure falls between the two operations |
| `Readiness.DecisionInsideFailure` | src/adapter/redis/pubsub.rs:361-362 | the same if a decision falls between the two operations of a failure |
| `Metrics.MergeMetrics` | src/adapter/redis/mod.rs:255-278 | the in-place loop computes the merge, for any two JSON values and any order of fields |
| `Metrics.MergeAllApps` | src/adapter/redis/mod.rs:258-268 | likewise for the apps |
| `Metrics.MergeAdds` | src/adapter/redis/mod.rs:255-278 | on well-formed trees a merge is well-formed, has the paths of either side, and at each the wrapped 64-bit sum |
| `Metrics.MergeLaws` | src/adapter/redis/mod.rs:255-278 | on well-formed trees merging is commutative and associative with the empty object as unit |
| `Metrics.GetAggregatedMetrics` | src/adapter/redis/mod.rs:73-94 | the fold of all metrics replies, other replies ignored, the local metrics alone on error |
| `Metrics.AggregateIsTotal` | src/adapter/redis/mod.rs:73-94 | at every path the aggregate is the wrapped sum over all nodes, and it has exactly the paths some node has |
| `Metrics.AggregateIgnoresOrder` | src/adapter/redis/mod.rs:81-87 | the order of the responses makes no difference |
| `Metrics.MergeCommutesIff` | src/adapter/redis/mod.rs:255-278 | for any two JSON values, merging either way round is the same if and only if they agree or are both in range at every shared field, have numbers only elsewhere, and so have their apps |
| `Metrics.SurvivesIff` | src/adapter/redis/mod.rs:258-276 | a value merged into the empty object comes out unchanged if and only if it is an object of numbers, and of the same kind under apps |
| `Metrics.SharedFieldAddsIff` | src/adapter/redis/mod.rs:269-272 | an integer both sides have becomes their wrapped sum if and only if both are within the signed range, and else stays |
| `Metrics.BigCountersDoNotAdd` | src/adapter/redis/mod.rs:269-275 | so a counter of 2^63 or more is kept or lost, whatever else was counted |
| `JsonSize.EstimateBounds` | src/websocket/events/client_event.rs:119-146 | for every JSON value the estimate is at most the length of its text, the text at most six times the estimate, and they are equal if and only if nothing needs an escape |
| `JsonSize.EscapedLength` | src/websocket/events/client_event.rs:129-129 | escaping lengthens a string at most sixfold, and not at all if and only if nothing in it needs it |
| `JsonSize.FactorIsTight` | src/websocket/events/client_event.rs:129-129 | six is the least factor |
| `JsonSize.QuotedReadsBack` | src/websocket/events/client_event.rs:129-129 | the serialiser compared with is faithful: a quoted string reads back as itself, whatever follows it |
| `Liveness.RunConnection` | src/websocket/mod.rs:197-271 | the loop takes turns until one ends it, and none after that: an oversized frame, a lost peer, a failed send, the flag seen set, or a timer with a ping unanswered; deadline and reason are those of the timed run |
| `Liveness.EndsIff` | src/websocket/mod.rs:200-268 | for every run, the loop has ended if and only if its last turn was one of these five, for that reason, and no earlier turn was |
| `Liveness.DeadlineMeasures` | src/websocket/mod.rs:214-267 | while the loop runs the deadline is the last frame plus the ping interval, or after a ping at least that plus the pong timeout |
| `Liveness.ClosedOnlyAfterSilence` | src/websocket/mod.rs:251-259 | closed for a missing pong only after a silence of at least both, for any run and any lateness of the timer |
| `Liveness.SilenceIsBounded` | src/websocket/mod.rs:251-268 | with a timer at most `late` behind and turns of at most `busy`, the loop takes no turn more than both settings plus 2 `late` + `busy` after the last frame, so a silent connection is closed by then |
| `Liveness.PromptlyClosedExactly` | src/websocket/mod.rs:251-268 | with a prompt timer the ping goes out exactly one ping interval after the last frame and the connection closes exactly one pong timeout later |

## Left out

- Step size on one node: a handler is one step. At a finer grain the release of an entry before its empty key is removed (src/adapter/namespace.rs:116-124, 259-261) and the gap between snapshot and channel join (src/websocket/events/subscribe.rs:186-211) would show.
- Step size in the cluster: `ClusterPresence`, `Occupancy`, `ClusterReplicas` and `Terminations` take a handler with its adapter calls as one step; `Commands`, `MemberBound`, `CommandRefcount` and `OccupancyCommands` go to single commands.
- Slow consumers in `ClusterReplicas`: a client whose queue overflows is closed (`Fanout`), so its copy does not matter and queues are left out there.
- Redis errors, reconnecting publishers, node crashes, peers aging out while a request is under way: the code falls back to stale or local data there.
- Presence channels in `OccupancyCommands`: they never claim the occupancy key (src/websocket/events/subscribe.rs:217-221); `Occupancy` covers them, a handler as one step.
- `Redis` in `RedisStore` is a model of Redis commands and has no source in the repository.
- Namespaces of several apps: apps share no state, so one stands for all.
- HMAC and signature checks: authorisation is an input of the requests. Which of several malformed sign-ins was refused is not told apart.
- Channel name validation, the wording and JSON of messages, `user_authenticated`: small case analysis; messages are a tagged datatype, so no published event can pass for an internal one.
- The subscription-count webhook, webhook batching and delivery, rate limiting, cache drivers, stats heartbeats: external, or easy beside the rest. Webhooks are kept as a trace.
- The first frame of a connection (src/websocket/mod.rs:174-183) goes straight to the socket and not through its queue; so do pings and the notice of a missing pong.
- The three checks of a client event before its size check: per-branch checks without state.
- HTTP routes, TLS, startup and shutdown, configuration: plumbing.
- Response handling is one step: a response that looked its entry up before the entry was removed could still be counted by a discovery, which only logs the number.
- The generation counter is unbounded; it would wrap after 2^64 reconnects a second apart.
- Floating-point metrics: kept or ignored as the code does, their text uninterpreted.
