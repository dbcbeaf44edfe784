# Percas: gossip membership and consistent-hash routing

Percas is a cluster of cache nodes. The nodes learn of each other by gossip, and each routes a key
to its owner on a consistent hash ring built from the membership. This project models both parts and
proves what they guarantee, for every input and over every run.

- `Nodes`, `Members`, `Gossip` model one node: its file on disk, the membership merge, and the message
  handlers. Plain functions (`Update`, `Handle`, `MarkDead`, `WithoutExpired`, `RingIds`) state the
  effects; the classes `NodeFile`, `Membership` and `GossipState` perform them the way the code does,
  branch by branch and loop by loop, and are proved equal to the functions.
- `Rings`, `Proxy`, `RouteTables` model the hash ring, the server's routing decision, the member listing
  and the client's route table. The hash is an arbitrary function into `0..2^32`.
- `Cluster` is the transition system of the whole cluster: nodes with a disk cell and, while they run, a
  process; a set of messages that only grows; sixteen kinds of steps, crashes and restarts included. A run
  is any sequence of enabled steps from the empty system.
- `MergeLaws` and `RingLaws` hold the laws of the merge and of the ring; `Provenance`, `Origins`, `SelfLaws`,
  `EntryLaws`, `Heartbeats` and `Flights` the laws of every run; `RoundTrip`, `Pings` and `Joins` what the
  exchanges of messages achieve; `Agreement`, `Turns`, `Convergence`, `Reachability` and `Recovery` what this
  means for routing. `Witnesses` holds runs that show why some of the laws have the conditions they have.

The main result is `Convergence.ClusterRoutesAlike`: in every run, whatever was lost, delayed, timed out or
restarted before, two sweeps of Sync round trips by one node and then a ring rebuild at it and at all the peers
it talked to make all of them choose the same owner for every key under every hash. Meanwhile other nodes may do
anything, and the swept ones anything that leaves their views as they are, such as pinging each other
(`QuietIsStill`). The result rests on the merge laws, on the provenance of every info over all runs, and on the
laws of the ring; `AgreementIsReachable` adds that such a continuation always exists.

Assumptions of the transition system:

- a fresh node id is new;
- one step is atomic, because the gossip runtime has a single worker (cmd/percas/src/start.rs:97-99);
- the first store of `start` (crates/gossip/src/gossip.rs:104-109) is atomic too. The single worker does not
  give this: the store runs outside the gossip runtime, whose HTTP server already takes messages
  (crates/server/src/server.rs:270-290), and a handler that loads the membership before that store and stores
  it afterwards would drop the node's own entry. `SelfAliveRun` and what rests on it need this assumption;
- a process's own clock does not go back while the process runs (clocks of different processes are unrelated).

Messages carry no address, so they may be lost, delayed, repeated, or reach a node that took over an old
address.

## Where the code and its comments differ

- The comment on `update_member` (crates/gossip/src/member.rs:74-81) says that at equal incarnation a stale
  report cannot change the status. In the code the branch for stale reports calls `downgrade_to`, which
  always ends with the incoming status (crates/gossip/src/member.rs:34-41), so the last report wins.
  `MergeFollowsDocumentation` says exactly on which reports the two differ, and `StaleReportWins` gives a
  pair of reports.
- A node may pick itself as a ping or sync target. If that send fails it is dead in its own membership;
  `SelfAliveStep` and `SelfAliveRun` show this is the only way. From then on every Ping or Ack from others advances its
  incarnation by one, because `advance_incarnation` does not touch the membership
  (`DeadSelfKeepsAdvancing`), until a Sync heals it (`SyncHeals`). If none comes it may remove itself and
  be left with an empty membership and an empty range for the random pick (`SelfTimeoutEmptiesMembership`).

## Model

| member | source | states |
|---|---|---|
| Nodes.BootInfo | crates/server/src/server.rs:244-256 | a start from an existing file keeps the id and the cluster and takes exactly the next incarnation, with the new addresses; without a file it takes the fresh id, the given cluster and incarnation zero |
| Nodes.NodeFile.Load | crates/gossip/src/node.rs:90-105 | loading gives back what the file holds, under the addresses of this start, and nothing exactly if there is no file |
| Nodes.NodeFile.Persist | crates/gossip/src/node.rs:107-120 | the file then holds the id, cluster and incarnation of the node |
| Nodes.StartNode | crates/server/src/server.rs:243-256 | load, advance and persist: the returned info is the boot info of the old file and is on disk before it is used |
| Members.Status.DowngradeTo | crates/gossip/src/member.rs:34-41 | all four cases end with the other status |
| Members.Membership.UpdateMember | crates/gossip/src/member.rs:82-128 | the in-place merge with its early returns is `Update`, and it returns true exactly if the map changed |
| Members.Membership.RemoveMember | crates/gossip/src/member.rs:130-133 | removes that entry and no other |
| Members.Membership.RemoveAll | crates/gossip/src/gossip.rs:334-336 | removes exactly the listed nodes and keeps the other entries as they are |
| Members.Membership.FromReports | crates/gossip/src/member.rs:136-144 | the loop from the empty map is the fold of `Update` over the reports |
| Members.Membership.MergeReports | crates/gossip/src/gossip.rs:283-285 | the loop over a Sync is the fold of `Update` from the current map |
| MergeLaws.FoldLaw | crates/gossip/src/member.rs:82-144 | the exact outcome of any report sequence: present iff reported; highest incarnation, info of the first report there, status of the last, largest heartbeat |
| MergeLaws.OrderIndependence | crates/gossip/src/member.rs:82-144 | reports in any order and with any repeats give the same keys, incarnations and heartbeats, and the same info where id and incarnation determine it |
| MergeLaws.StatusOrderIndependence | crates/gossip/src/member.rs:98-117 | the status is independent of the order if and only if all reports at the highest incarnation agree on it |
| MergeLaws.MergeFollowsDocumentation | crates/gossip/src/member.rs:74-117 | the code follows the documented freshness rule if and only if the report is not a stale one of the other status at the same incarnation |
| MergeLaws.StaleReportWins | crates/gossip/src/member.rs:80-117 | two reports whose result depends on the order, against the documented rule |
| MergeLaws.ValuesMerge | crates/gossip/src/gossip.rs:281-285 | merging a Sync built from a membership is the key-by-key merge of the two maps |
| MergeLaws.ValuesRebuild | crates/gossip/src/gossip.rs:297-299 | the values of a membership merged into an empty one give it back |
| Gossip.ExpiredInfos | crates/gossip/src/gossip.rs:320-332 | lists exactly the dead members past the deadline, in id order |
| Gossip.GossipState.StoreSelf | crates/gossip/src/gossip.rs:104-109 | the first store replaces whatever was there by the node alone, alive, with the clock reading |
| Gossip.GossipState.HandleMessage | crates/gossip/src/gossip.rs:255-309 | a Ping or Ack merges its sender as alive at the clock reading, a Sync its reports and then the node itself; a Ping, from whomever, is answered by an Ack of the node's info, a Sync by the membership stored, an Ack by nothing; the own info advances exactly if the node ends up dead in its own membership; the file always holds the published info |
| Gossip.GossipState.MergeSync | crates/gossip/src/gossip.rs:281-300 | all reports are merged, then the node itself as alive at the clock reading, and the answer is the membership stored |
| Gossip.GossipState.AdvanceIncarnation | crates/gossip/src/gossip.rs:311-316 | one incarnation more, on disk and published |
| Gossip.GossipState.RemoveDeadMembers | crates/gossip/src/gossip.rs:318-341 | removes exactly the members that are dead and past the deadline at the clock reading taken for each, and returns their infos in id order |
| Gossip.GossipState.RebuildRing | crates/gossip/src/gossip.rs:427-439 | a node then holds a position if and only if it is a member, dead or alive, or the node itself, and exactly the positions of its 64 replicas |
| Gossip.GossipState.MarkPeerDead | crates/gossip/src/gossip.rs:441-452 | merges a dead report with the entry's own heartbeat if the peer is still there, and else changes nothing |
| Gossip.GossipState.FinishPing | crates/gossip/src/gossip.rs:356-360 | an Ack is handled; anything else marks the peer dead |
| Gossip.GossipState.FinishSync | crates/gossip/src/gossip.rs:378-382 | a Sync is handled; anything else marks the peer dead |
| Gossip.MarkDeadLaw | crates/gossip/src/gossip.rs:441-452 | a timeout touches only the peer's entry, adds no entry, changes no heartbeat, spares a newer incarnation, and otherwise leaves the peer dead |
| Gossip.HandleMonotone | crates/gossip/src/gossip.rs:255-309 | no message removes an entry or takes its (incarnation, heartbeat) back |
| Provenance.NothingForged | crates/gossip/src/gossip.rs:255-316 | after any step every info in memberships, messages or in flight was in the system before or is the acting node's own new one |
| Provenance.StepKeepsInv | crates/gossip/src/gossip.rs:255-316 | every step, crashes between persist and publish included, keeps the ceiling and the uniqueness of infos |
| Provenance.RunKeepsInv | crates/server/src/server.rs:244-256 | over every run the published info is what the disk holds, no info outruns its node's disk, and id with incarnation names one info |
| Provenance.IdentityIsStable | crates/gossip/src/node.rs:86-120 | over any stretch of any run a node keeps its id and cluster and its persisted incarnation never goes back |
| Provenance.CeilingForever | crates/gossip/src/gossip.rs:311-316 | an info seen at any time has an incarnation at most the one on its node's disk then and ever after |
| Provenance.OneInfoForever | crates/gossip/src/node.rs:23-32 | two infos seen anywhere at any two times of a run with the same id and incarnation are equal, although addresses may change at each restart |
| Origins.SentExactly | crates/gossip/src/gossip.rs:343-424 | each step sends exactly this: a ping its Ping of the node's info, a sync its whole membership, a handled Ping an Ack, a handled Sync the merged membership, and nothing else anything |
| Origins.MessageOrigin | crates/gossip/src/gossip.rs:255-300 | over every run every Ping was sent by its own node, every Ack in answer to a Ping at its own node, and every Sync is some node's whole membership at some time |
| Origins.MessageStays | crates/gossip/src/gossip.rs:343-424 | what a step sent can be delivered at any later time |
| Origins.AnswersAreGenuine | crates/gossip/src/gossip.rs:356-382 | in every run a ping is ended only by an Ack that some node gave to a Ping, and a sync only by a Sync |
| Origins.SyncMergesMembership | crates/gossip/src/gossip.rs:281-300 | in every run every handled Sync merges the membership that some node had at some time into the receiver's, entry by entry |
| SelfLaws.SelfAliveStep | crates/gossip/src/gossip.rs:281-309 | a step makes a node dead in its own membership if and only if it is the timeout of a message to itself at its current incarnation |
| SelfLaws.HandleKeepsSelf | crates/gossip/src/gossip.rs:255-309 | no message kills a node that is alive in its own eyes, and none makes it advance |
| SelfLaws.SyncHeals | crates/gossip/src/gossip.rs:287-305 | after any Sync the receiver is alive in its own membership under its current info, whatever the reports said, and does not advance |
| SelfLaws.SelfAliveRun | crates/gossip/src/gossip.rs:104-149 | over every run and for every node: it is never dead in its own membership and, once started, is always there under its current info, if and only if it never times out on a message to itself at its then current incarnation; what other nodes do does not matter |
| SelfLaws.PickIsInRange | crates/gossip/src/gossip.rs:134-149 | as long as a started node has not given up on itself, the random pick has a range that is not empty and can always choose the node itself |
| SelfLaws.AdvancesExactly | crates/gossip/src/gossip.rs:303-306 | a message makes a node advance if and only if the node is dead in its own eyes and the message is a Ping or Ack that does not revive that entry |
| SelfLaws.DeadSelfKeepsAdvancing | crates/gossip/src/gossip.rs:303-316 | a node dead in its own eyes gains one incarnation for each Ping or Ack from others, whenever each arrives, and stays dead |
| SelfLaws.IncarnationCounts | crates/server/src/server.rs:244-256 | over every run the persisted incarnation plus one is the number of boots plus the number of advances |
| SelfLaws.IncarnationCountsRestarts | crates/gossip/src/gossip.rs:303-316 | in every run, as long as a node has not given up on itself, no message has ever advanced it, so its incarnation counts its restarts |
| Witnesses.SelfTimeoutEmptiesMembership | crates/gossip/src/gossip.rs:134-149 | a run in which a started node gives up on itself and ends with an empty membership |
| EntryLaws.EntryFate | crates/gossip/src/gossip.rs:318-341 | while a process lives, an entry disappears if and only if the removal finds it dead past the deadline, and else does not go back |
| EntryLaws.EntryMonotone | crates/gossip/src/member.rs:82-128 | over an entry's whole lifetime its (incarnation, heartbeat) never goes back |
| EntryLaws.OnlyTheseTouch | crates/gossip/src/gossip.rs:255-341 | an entry is added, changed or dropped only by a Ping or Ack of its node, a Sync, a timeout of its node, the removal or the start, and the removal changes none that it keeps |
| EntryLaws.UnstartedDropsNothing | crates/gossip/src/gossip.rs:229-241 | a process that has not started drops no entry |
| EntryLaws.RemovalSafety | crates/gossip/src/gossip.rs:318-341 | an entry is removed only if dead, and only if the clock read for it shows more than 30 s after every Ping or Ack accepted at its incarnation during its lifetime |
| EntryLaws.LateTimeout | crates/gossip/src/gossip.rs:343-383 | a timeout goes back to a send to a then alive entry; whatever ran since, it changes only that peer's entry, only at an incarnation not above the one sent to, and no heartbeat |
| Heartbeats.HeardExactly | crates/gossip/src/gossip.rs:258-280 | in every run a Ping or Ack enters a new or newer node as alive with exactly the clock reading; at the same incarnation it makes the entry alive with the larger of its heartbeat and the reading; an older one and all other entries change nothing |
| Heartbeats.StartsAlone | crates/gossip/src/gossip.rs:104-109 | in every run the first membership is the node alone, alive, with exactly the clock reading |
| Heartbeats.SyncOwnExactly | crates/gossip/src/gossip.rs:287-293 | in every run after a Sync the receiver's own entry has the largest of the clock reading and the heartbeats held for its current info |
| Heartbeats.HeartbeatOrigin | crates/gossip/src/gossip.rs:258-293 | over every run every heartbeat in a membership or in a Sync is the clock reading of an earlier step at which that node was heard of, started or handled a Sync |
| Heartbeats.DeadAreRemoved | crates/gossip/src/gossip.rs:318-341 | in every run a dead entry is taken by every removal that reads a clock more than 30 s after all signs of life of its node |
| Heartbeats.ReadingsAscend | crates/gossip/src/gossip.rs:318-332 | the clock readings of one process never go back |
| Flights.FlightsBalance | crates/gossip/src/gossip.rs:343-383 | over every stretch of a process's life the sends in flight at its start and those made in it equal those ended in it and those in flight at its end |
| Flights.EverySendEndsOnce | crates/gossip/src/gossip.rs:343-383 | from its boot on a process has had exactly one answer or timeout for each ping and each sync, but for the one in flight |
| Flights.TimeoutIsPossible | crates/gossip/src/gossip.rs:356-382 | every send in flight can end in a timeout, which leaves the peer dead unless its entry is newer |
| Witnesses.RemovalForgetsIncarnation | crates/gossip/src/gossip.rs:318-341 | a run in which an observer holds a node at incarnation 1, removes it, and then holds it alive at incarnation 0 while it still runs at 1, so monotonicity ends with the lifetime |
| Witnesses.CrashBeforePublish | crates/gossip/src/gossip.rs:311-316 | in every run a process that a message makes advance can die with the next incarnation on disk and unknown to all |
| Witnesses.CrashAtBoot | crates/server/src/server.rs:244-256 | in every run a process that boots again can die with the next incarnation on disk and unknown to all |
| RoundTrip.HearingRecords | crates/gossip/src/gossip.rs:258-280 | a Ping or Ack with a running node's info, the receiver's own included, makes the receiver record it alive under its current info from then, and a Ping is answered by the receiver's own info |
| RoundTrip.Exchange | crates/gossip/src/gossip.rs:281-300 | two coherent memberships that exchange Syncs become equal but for the initiator's own entry, with both nodes alive at the initiator; they agree on that entry too, up to the heartbeat, if and only if the initiator held itself alive or had no current entry of itself and the peer held it alive |
| RoundTrip.SyncRoundTrip | crates/gossip/src/gossip.rs:363-424 | the same over every run, for a sync as for a bootstrap Sync and with no condition on timeouts: an uninterrupted round trip leaves keys, info, incarnation, status and heartbeat equal but for the initiator's entry, and there too exactly under that condition, which holds whenever the initiator is alive in its own eyes |
| RoundTrip.RoundTripIsPossible | crates/gossip/src/gossip.rs:363-383 | in every run a started node with no sync in flight can make that round trip with any alive entry whose process is up |
| Pings.PingTrip | crates/gossip/src/gossip.rs:343-361 | in every run a Ping and its Ack make each of two nodes record the other alive under its current info if neither is dead in its own eyes, and then neither is afterwards and the ping is over; the two may be one node |
| Pings.PingIsPossible | crates/gossip/src/gossip.rs:343-361 | in every run a started node with no ping in flight can make that ping to any alive entry whose process is up, itself included |
| Joins.JoinAgrees | crates/gossip/src/gossip.rs:385-425 | in every run a node alive in its own eyes that bootstraps with one peer ends with all that the peer held, the same entries as the peer but for its own heartbeat, both alive in both, and a ring of all of it |
| Joins.JoinIsPossible | crates/gossip/src/gossip.rs:385-425 | every started node can make that bootstrap with every process that is up, before and after that process has started |
| Agreement.SameViewsRouteAlike | crates/gossip/src/proxy.rs:38-65 | in a reachable state any nodes with fresh rings and the same ids, infos and statuses route every key to one owner at one address, which is the owner's current one if the owner is among them |
| Agreement.QuietIsStill | crates/gossip/src/gossip.rs:255-280 | no step of another node, no send, no ring rebuild, and no Ping or Ack from a node known alive changes what a node sees of infos and statuses |
| Agreement.RebuildsExactly | crates/gossip/src/gossip.rs:427-439 | in every run a rebuild makes the ring of all members, dead or alive, and the node itself, and changes no membership and no other ring |
| Agreement.RebuildsFreshen | crates/gossip/src/gossip.rs:427-439 | a ring rebuilt at some time of a stretch in which its node's view does not change is still fresh at the end |
| Agreement.RoutingAgreement | crates/server/src/middleware.rs:108-136 | after one round trip in which the initiator was held alive, and a ring rebuild at both before their views change, the two nodes choose the same owner for every key under every hash; one of them as owner answers locally and the other redirects to its current address |
| Turns.TurnTeaches | crates/gossip/src/gossip.rs:363-383 | in every run a round trip, with other steps between its own, loses nothing the initiator knew, leaves the peer with nothing newer, and lets the initiator know itself, the peer and every other of the nodes in question that it knew before alive; a self-alive initiator passes on its view, and keeps it if it had nothing to learn |
| Convergence.TwoSweepsConverge | crates/gossip/src/gossip.rs:163-189 | in every run two sweeps of round trips by one node over any peers that are up end with all of them holding the same ids under the same infos, incarnations and statuses, and all of them alive there under their current infos |
| Convergence.ClusterRoutesAlike | crates/server/src/middleware.rs:108-136 | after two sweeps and then a ring rebuild at each, in any order, all swept nodes choose the same owner for every key under every hash and redirect to the same address; an owner among them serves the key at that address, so one redirect is enough |
| Reachability.TwoSweepsArePossible | crates/gossip/src/gossip.rs:163-189 | any run can go on with two sweeps by a started node with no sync in flight over any peers that it knows alive |
| Reachability.AgreementIsReachable | crates/gossip/src/gossip.rs:163-189 | any such run, the peers having started, can go on to a state in which all of them route every key alike |
| Rings.HashRing.AddNode | crates/gossip/src/ring.rs:136-141 | the replica loop puts the node at exactly its replica positions and changes nothing else |
| Rings.HashRing.From | crates/gossip/src/ring.rs:76-88 | any order of nodes with any repeats builds the ring of their set |
| RingLaws.FindNodeIsFirst | crates/gossip/src/ring.rs:119-126 | the search over a range finds the satisfying node at the least position, the least node there, and fails only if none satisfies |
| RingLaws.LookupUntilIsNearest | crates/gossip/src/ring.rs:113-127 | on any ring the result is the satisfying node nearest clockwise modulo 2^32, ties to the least node, and None exactly if no node satisfies |
| RingLaws.OverlapIsHarmless | crates/gossip/src/ring.rs:119-126 | leaving the digest's own position out of the second range changes nothing |
| RingLaws.LookupUntilFindsOwner | crates/gossip/src/ring.rs:113-127 | on the ring of any set of nodes the result is exactly the owner as defined by replicas and distance alone |
| RingLaws.RingIsCanonical | crates/gossip/src/ring.rs:81-87 | the ring depends only on the set of nodes, has no empty position, and holds a node exactly at its listed replicas |
| RingLaws.LookupIsUnconditional | crates/gossip/src/ring.rs:95-110 | without empty positions `lookup` is `lookup_until` with the predicate that always holds |
| RingLaws.SkippingIsRebuilding | crates/gossip/src/ring.rs:95-127 | `lookup_until` with a predicate equals `lookup` on the ring rebuilt from the nodes that satisfy it |
| RingLaws.AddingMovesOnlyToTheNewNode | crates/gossip/src/ring.rs:136-141 | adding a node changes the owner of a key only to that node, collisions included |
| RingLaws.FailingMovesOnlyItsKeys | crates/gossip/src/ring.rs:113-127 | when one node stops satisfying the predicate only the keys it owned move |
| Proxy.RouteFollowsOwner | crates/gossip/src/proxy.rs:38-65 | for an arbitrary ring and membership a key is redirected exactly if another node owns it among the living ring members, and to that member's address |
| Proxy.RouteIgnoresTheRest | crates/gossip/src/proxy.rs:39-51 | the route depends only on the ring nodes that are alive members and on their addresses |
| RouteTables.RouteTable.Insert | client/src/route.rs:27-38 | sets the address of one node at one position and nothing else |
| RouteTables.RouteTable.Fill | client/src/client.rs:278-283 | the two nested loops build the table of the listing |
| RouteTables.Client.UpdateRouteTableIfNeeded | client/src/client.rs:240-288 | within the interval nothing changes; a listing replaces table and time; a failure changes neither |
| RouteTables.ListingRoundTrip | crates/server/src/server.rs:469-488 | the listing loses nothing: its rows merged into an empty membership give the membership back |
| RouteTables.TableIsRing | client/src/client.rs:278-283 | the table of a listing holds each member at its ring positions with its address, and nothing else |
| RouteTables.ClientMatchesRing | client/src/route.rs:40-52 | the client picks the node that `lookup` picks on the ring of all members, with that member's data address, and nothing exactly if there are no members or no replicas |
| RouteTables.ServerAgreesWithClient | crates/gossip/src/proxy.rs:38-65 | with a ring that has all members, whatever else is on it, the server chooses the client's pick if and only if it is alive, and then serves it or redirects to the address the client holds; with no pick it serves the request |
| RouteTables.ClientFollowsListing | client/src/client.rs:229-238 | the client sends a request to the owner of the key among all members of its listing at that member's address, and to the configured address exactly if the listing is empty |
| RouteTables.Client.Route | client/src/client.rs:229-238 | the table's pick, and the configured address without a table |
| RouteTables.Client.Locate | client/src/client.rs:113-116 | when the listing of a membership is due and arrives the request goes to the owner among its members, or to the configured address if there are none; a failed update ends it; before the first listing it goes to the configured address |
| Recovery.RoutesSinceRebuild | crates/gossip/src/proxy.rs:38-65 | in every run, from a rebuild on and until a new id comes in, a process routes to the owner among all members alive at that moment and follows every client that has its listing |
| Recovery.RevivedIsRouted | crates/gossip/src/gossip.rs:427-439 | in every run a member that was dead at the last rebuild and is heard of again is alive at once, and at once keys go to their owner among all living members, that one included, with no further rebuild |
| Recovery.UnstartedServesAll | crates/gossip/src/proxy.rs:38-65 | in every run a process that has not started serves every key itself, whatever messages it has taken in |

## Left out

- Convergence.TwoSweepsConverge: speaks of ids, infos, incarnations and statuses and not of heartbeats, because each Sync renews the receiver's own heartbeat; routing does not read them.
- Convergence.ClusterRoutesAlike: says nothing of sweeps during which a swept node comes to see a new info or status from elsewhere, because a peer whose turn is over may then differ from the rest.
- RoundTrip.SyncRoundTrip: is about a round trip that no other step interrupts, because it speaks of heartbeats too; `TurnTeaches` allows interruptions and speaks of views.
- `fast_bootstrap` as one method: other steps run between its sends, so it is the steps `BootstrapPing`, `BootstrapSync`, `Deliver` and `RebuildRing` in any order and number; `JoinAgrees` is about one peer and no interruption.
- The ring rebuild that follows a removal in the same wake-up: it is a step of its own, so other steps may come between.
- Timers and intervals: every periodic action may happen at any time.
- Concurrent execution of two gossip steps: excluded by the single worker of the gossip runtime.
- Disk failures other than a crash before or after a write, such as a torn or lost node file; a node that lost its file is a new node.
- Width of the incarnation (`u64`) and the range of timestamps: natural numbers and integers.
- MurmurHash3 and the byte layout that `hash_node` feeds it: an arbitrary hash of a node and a replica number, and of a key.
- HTTP transport, retries, JSON, URL joining and percent-decoding: a message is delivered or a send fails, and client and server hash the same key.
- Storage engine, configuration, metrics, logging, rate limiting and command line: wrappers over libraries or plain counters.
