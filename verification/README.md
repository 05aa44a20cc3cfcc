# The SWIM membership engine of swim-protocol

This project models the cluster membership engine of swim-protocol, an asyncio library that spreads the status and
metadata of the members of a cluster, and proves properties of it. The engine has three layers here:

* **Values.** `Statuses`, `Packets`, `NodeStates`, `WorkerStates`: one node's table of members, and each atomic action of
  its worker, as pure steps. `Merge` in `NodeStates` is the heart: a report about a member is ignored, refuted or adopted.
* **Objects.** `Shuffles` (class `WeakShuffle`), `MembersClass` (classes `Member` and `Members`) and `WorkerClass` (class
  `Worker`) update their fields in place as the Python classes do. Every method is proved to compute the pure step, so
  that all that is proved about the steps holds of the objects. `Members.Valid` carries the table invariants: nothing
  pending between calls, the set of pairs equal to the items of the metadata dictionary, the sequence clock one ahead,
  each of the six status indexes equal to filtering the non-local members.
* **The cluster.** `Clusters` runs any number of nodes over a network that may lose, duplicate and reorder packets.
  A run is a sequence of clusters and of the events between them: a packet received or lost, dissemination to a target,
  the stages of a check, a suspect timer, a change of local metadata. Timeouts are events that may happen at any time.
  `Behavior` is a run of newly constructed nodes; a cluster is reachable if it is a state of a behavior. The other
  modules prove what holds in every reachable cluster, or along every run. `Handling`, `Checks` and `Probing` say what
  the actions come to without reference to how they are computed: who is sent what, when a check has heard from its
  target, and that checks succeed, directly and through others, when their packets arrive.

`Finds` is the random search for members over every sequence of random numbers. `UdpPacks` is the datagram framing, with
pickling and the keyed hash as functions of which only the laws in `Lawful` are used. `Sums` and `Runs` hold helpers.

## Where the code and its documentation differ

The model follows the code. Each difference is stated by lemmas: when the documented claim holds, and where it matters
a concrete state or run in which it does not.

* A member that is moved within `WeakShuffle` keeps its old index (`swimprotocol/shuffle.py:63-65`): `DiscardedFaithfulIff`,
  `StaleIndexWitness`, `FindIsStuck`. `DiscardedRight` is the repair, proved to refine a set.
* `find` counts excluded members out but may return them, and draws from a list that can hold members without the
  status (`swimprotocol/members.py:242-246`): `FindExcludesIff`, `FindHasStatusIff`, `FindIsExact`, `StaleCardIsFound`.
  `FindRight` over a repaired list is the repair.
* The sequence clock is not always higher than any observed value (`doc/source/intro.rst:126-129`):
  `ObservedClockIsPassedIff`, `ObservedClockMayBeForgotten`.
* The local member is not always online (`doc/source/intro.rst:61-64`): `OnlineUntilOwnTimerFires`, `OwnTimerCanFire`. Gossip
  about the local member starts its suspect timer before it is refuted (`swimprotocol/worker.py:119`).
* A suspect timer is not tied to the stored status: `TimerAccounting` says when it runs, `StepAgreesIff` and
  `TimerAgreesIff` when the two agree, and `TimerOutrunsStatus` is a run after which they do not.
* What is known of a member is not determined by its clock: `ContentFollowsClockIff`, `ContentNotDeterminedByClock`.
* A change of metadata may be lost on another member (`doc/source/intro.rst:15-17`): what a member says about itself
  is believed however old it is (`swimprotocol/members.py:158`), and the last acknowledgement to arrive counts even if it
  is for an older clock (`swimprotocol/members.py:361`). `SelfNewsArrived` says what is delivered, `MetadataStandsIff`
  and `NewsLostBy` what undoes it, and `NewsCanBeLost` is a run with reordering alone.
* `transition` documents that aggregate statuses raise; `ALL` does not (`swimprotocol/status.py:61`):
  `TransitionRefusesAggregates`.
* `unpack` documents None for malformed data; it raises for data shorter than the prefix (`swimprotocol/udp/pack.py:86`):
  `UnpackRaisesIff`. The prefix is six bytes, `!BBI`, where the documentation has four, `!BBH`.

## Model

| member | source | states |
|---|---|---|
| `Statuses.TransitionIsPermitted` | swimprotocol/status.py:61-68 | A status can be reached from another by one transition if and only if the failure detector may move between them: never OFFLINE to SUSPECT, never ONLINE straight to OFFLINE. |
| `Statuses.TransitionRefusesAggregates` | swimprotocol/status.py:56-62 | The aggregates AVAILABLE and UNAVAILABLE are refused and nothing else is; the aggregate ALL, which must not be assigned either, slips through. |
| `Statuses.MaskMeaning` | swimprotocol/status.py:16-35 | The flag bits mean what the names say: AVAILABLE is not OFFLINE, UNAVAILABLE is not ONLINE, every status is in ALL, and two real statuses share a bit only if equal. |
| `NodeStates.Get` | swimprotocol/members.py:260-285 | Looking a member up adds at most that member, changes no belief and no sequence clock, and forgets known clocks only of a remote member for which a validity was given. |
| `NodeStates.RecordKeepsClocks` | swimprotocol/members.py:287-300 | Whatever is reported by whomever under whatever clock, the sequence clock stays exactly one more than the largest clock in the table, and no clock falls. |
| `NodeStates.OwnChangeIsNewest` | swimprotocol/members.py:302-313 | A change made by the node takes effect exactly when it asks for something new, touches no other member, and is then stamped above every clock the node stores; otherwise nothing changes at all. |
| `NodeStates.ObservedClockIsPassedIff` | doc/source/intro.rst:126-129 | The sequence clock ends above an observed clock if and only if it already was above it, or the gossip was adopted, or the node refuted it with just that clock. The documented claim is unconditional. |
| `NodeStates.ContentFollowsClockIff` | swimprotocol/members.py:158-173 | For every report that a node can make or receive: status and metadata stand as long as the clock does, if and only if the report is not one that another member makes about itself, no newer than what is believed, with something else to say. |
| `NodeStates.GossipKeepsOwnContent` | swimprotocol/members.py:150-171 | Gossip, whoever sends it, never changes the local member's status or metadata. |
| `WorkerStates.ActFacts` | swimprotocol/worker.py:84-176 | Every atomic action of a worker changes at most the belief about one member, by one merge of one report. |
| `WorkerStates.ActKnown` | swimprotocol/members.py:281-284 | A known clock changes in two ways only: it is cleared when its remote holder sends a packet, or replaced by the clock of that holder's acknowledgement. |
| `WorkerStates.ActSends` | swimprotocol/worker.py:84-124 | Every packet sent names its sender as the source, except relayed Acks; gossip is what a dissemination to its target calls for; acknowledgements repeat the name and clock of the gossip just received. |
| `WorkerStates.ActTable` | swimprotocol/worker.py:84-176 | No action renames the node, forgets a member or changes the node's own validity. |
| `WorkerStates.ActGrounded` | swimprotocol/worker.py:133-176 | Every action keeps whoever is checked or has a suspect timer in the table. |
| `Handling.HandleSends` | swimprotocol/worker.py:86-106 | Beyond one Ack for each listener, handling a packet sends exactly: the answer to a ping, to its source; for a ping-req, a ping to its target; for gossip, an acknowledgement to its source; each once, and nothing else. |
| `Handling.HandleMembers` | swimprotocol/worker.py:88-105 | Handling a packet makes exactly its source and whom it mentions known; a remote source then has the packet's validity, new members a random one, and all others the one they had. |
| `Handling.RestartIsNoticed` | swimprotocol/members.py:281-284 | A remote member that comes with another validity starts afresh: nothing is taken to be known to it but what the packet itself acknowledges, and it is again to be gossiped about every other member with known metadata. |
| `Handling.ActMembers` | swimprotocol/worker.py:126-192 | No other action adds a member, changes a validity or changes who listens. |
| `Handling.ActSendsOnce` | swimprotocol/worker.py:160-192 | What the other actions send, each exactly once: a check's ping to its target, the gossip a target needs to that target, and to each member asked a ping-req that names the check's target. |
| `Handling.AskedMembers` | swimprotocol/worker.py:165-167 | When a ping times out, as many members are asked as are configured, or as many as are not OFFLINE besides the target if those are fewer; all are known and none is the node itself. |
| `Clusters.StepCoherent` | swimprotocol/worker.py:84-176 | One inductive invariant over all nodes and packets in flight: exact sequence clocks, own metadata known, packets that carry the validity of the node they name, gossip and acknowledgements from another node, and no gossiped, acknowledged or known clock ahead of its owner's. |
| `Clusters.AcknowledgedClocksAreHonest` | swimprotocol/members.py:349-361 | In every reachable cluster, no known clock and no acknowledgement in flight to a node is ahead of that node's clock for the member, so the assertion never fires; the sequence clock is exact at every node. |
| `Clusters.ClocksNeverFall` | swimprotocol/members.py:92-95 | Between any two moments of any run, no node's clock for any member falls. |
| `Clusters.NothingIsBlocked` | swimprotocol/worker.py:126-176 | In every reachable cluster, all that a node waits for can happen: the timeout of a ping, with members to be asked, the second wait and the end of a check, and a suspect timer; whoever is checked or timed is in the table. |
| `Silence.NeverSentIsOffline` | swimprotocol/worker.py:84-176 | In every reachable cluster, a member that has sent no packet is OFFLINE in every other node's table, whatever checks, relays, gossip and timers ran. |
| `Silence.StepSilent` | swimprotocol/worker.py:126-176 | The joint invariant behind it, over sources of packets, relayed Acks, set wait events, gossip in flight and beliefs, survives every step at which the member sends nothing. |
| `Provenance.OwnMetadata` | swimprotocol/members.py:150-171 | A node's own metadata changes only when its application sets it, and then to what was set. |
| `Provenance.MetadataProvenance` | swimprotocol/members.py:141-171 | In every reachable cluster, all metadata stored or in flight for a node was that node's own at some earlier moment, which the lemma returns. |
| `Agreement.AgreementIsStable` | swimprotocol/members.py:141-176 | Once a node is ONLINE and every table entry with metadata and all gossip in flight about it agree, no run of gossip, successful checks, and checks and timers that concern other members breaks that, and the node's own clock stands still. |
| `Agreement.StepAgreed` | swimprotocol/worker.py:108-124 | The same for one event. |
| `StatusHistory.StepPermitted` | swimprotocol/members.py:135-139 | No event takes any belief's status where the failure detector may not go; in particular not from OFFLINE to SUSPECT. |
| `StatusHistory.SuspectBeforeOffline` | swimprotocol/status.py:48-51 | Over every run, a member seen ONLINE and later OFFLINE was SUSPECT at a moment strictly between, which the lemma returns. |
| `Suppression.AckWasEarned` | swimprotocol/worker.py:100-106 | Every acknowledgement in flight goes back to an earlier event at which its source processed that very gossip. |
| `Suppression.KnownWasEarned` | swimprotocol/members.py:360-361 | So does every known clock, under loss, duplication and reordering. |
| `Suppression.SuppressionIsJustified` | swimprotocol/members.py:330-347 | If a node withholds gossip about a member with known metadata from a target, the target has processed gossip from it about that member with exactly the node's current clock. |
| `SelfNews.OwnFactStands` | swimprotocol/members.py:90-97 | Along every run, as long as a node's clock for itself stands still, so do its status and metadata. |
| `SelfNews.MetadataStandsIff` | swimprotocol/members.py:141-171 | What a node holds as another's metadata changes if and only if it receives gossip with other metadata that is newer or comes from that member itself. |
| `SelfNews.MetadataIsLastIff` | swimprotocol/members.py:141-171 | Along every run, what a node holds as another's metadata is what it held before if and only if the last gossip to overwrite it in between, if any, carried it again. |
| `SelfNews.SelfNewsArrived` | swimprotocol/members.py:330-347 | Delivery: once a node would no longer gossip to a target about itself, there was a moment at which the target came to hold exactly the node's present metadata, and its status as far as the transition rule allows; and the target holds that metadata now if and only if the last gossip to overwrite it since, if any, carried it again. |
| `SelfNews.NewsLostBy` | swimprotocol/members.py:158-173 | If a target does not hold the present metadata of a node that would no longer gossip to it about itself, then after it had arrived the target was talked out of it: by older gossip of the node itself, out of order or repeated, or by another member under a newer clock than the target held. |
| `SelfNewsRun.NewsCanBeLost` | doc/source/intro.rst:15-17 | The documented goal that all members become aware of changes fails under reordering alone: a run, for any new metadata, after which the other node has the old metadata under the newest clock and nothing is left to be told. |
| `SelfNewsRun.ContentNotDeterminedByClock` | swimprotocol/members.py:158-171 | A run, for any new metadata, in which a node holds two contents of another in turn under one clock, and at the end the two nodes hold different contents under it. |
| `SelfNewsRun.ObservedClockMayBeForgotten` | swimprotocol/members.py:172-173 | A run, for any change of metadata and back, in which a node observes a newer clock without new content and is left with a sequence clock below it. |
| `Refutation.RefutationWins` | swimprotocol/members.py:150-174 | After a node processes newer conflicting gossip about itself, its status and metadata are unchanged, its clock exceeds its old one and every known clock for it, and every target needs gossip about it. |
| `Refutation.SelfGossipIsBelieved` | swimprotocol/members.py:158-173 | Whoever receives what a member says about itself, its refutation or anything older, takes over its metadata and moves to its status as far as the transition rule allows, whatever its own clock is; that clock does not fall and becomes at most the newer of the two. |
| `Refutation.RemainingAfter` | swimprotocol/members.py:148-176 | While news only spreads, no event increases the lead that claims about a node have over the node's own clock, and each time the node advances its clock the lead shrinks. |
| `Refutation.PotentialNeverIncreases` | swimprotocol/members.py:287-300 | While news only spreads, the largest clock in the cluster plus the sum of the leads never increases. |
| `Refutation.RefutationTerminates` | swimprotocol/worker.py:117-124 | In any run of receiving, losing and disseminating from any coherent cluster, each node advances its own clock at most as often as the claims about it were ahead at the start, and all clocks stay below the initial bound. |
| `Quiescence.HandleAck` | swimprotocol/worker.py:86-106 | A packet of any kind changes at most one known clock of a member whose validity is on record, namely if it is that member's acknowledgement, and leaves the validity. |
| `Quiescence.QuietAfterAcks` | doc/source/intro.rst:42-44 | As long as no event changes what a node believes, whatever packets it handles and whatever checks and timers run, once each member that a target needed gossip about has been acknowledged, in any order, with losses and repetitions, there is no gossip for the target left. |
| `Quiescence.DisseminationIsAnswered` | swimprotocol/worker.py:178-192 | Dissemination puts every needed gossip in flight, and receiving it puts the acknowledgement of the same clock in flight. |
| `Relays.ListenersArePending` | swimprotocol/worker.py:65-82 | In every reachable cluster, the listening table holds exactly the members whose ping-req for a target arrived since the target was last heard. |
| `Relays.RelayedOnce` | swimprotocol/worker.py:86-95 | A packet sends one Ack carrying its source to each listener, and none to others; only a node that hears its own ping sends itself one more. |
| `Relays.RelayAccounting` | swimprotocol/worker.py:84-99 | Over every run and for every source, the node itself included: one relayed Ack to each member that asked since the source was last heard, and to nobody else but, for its own ping, itself. |
| `Checks.ActCheck` | swimprotocol/worker.py:126-176 | What each action makes of one check: when it is opened, how it is numbered, its stages, when its event is set, and when it is gone. |
| `Checks.OpenIffOngoing` | swimprotocol/worker.py:150-176 | In every reachable cluster, the suspended checks of a target are exactly those that were started for it and have not ended; numbers are never used twice. |
| `Checks.HeardIff` | swimprotocol/worker.py:71-75 | In every reachable cluster, the event of a check that waits is set if and only if a packet from its target was received since it last began to wait; while the ping-reqs are being sent, none is. |
| `Checks.CheckVerdict` | swimprotocol/worker.py:163-176 | In every run, a check that ends leaves its target ONLINE if a packet from it was received since the check last began to wait, and otherwise SUSPECT, unless it is OFFLINE; and the check is gone. |
| `Probing.PingIsAnswered` | swimprotocol/worker.py:94-95 | A ping that arrives puts an Ack to its source in flight, carrying the identity of the node that was pinged. |
| `Probing.PingReqIsServed` | swimprotocol/worker.py:96-99 | A ping-req that arrives puts a ping to its target in flight and has its source listen for the target. |
| `Probing.PingReqIsRelayed` | swimprotocol/worker.py:86-99 | Over every run, the next packet from the target after such a ping-req puts an Ack that names the target in flight to the source of the ping-req. |
| `Probing.TimeoutAsks` | swimprotocol/worker.py:168-172 | After a ping timed out, what is newly in flight is exactly a ping-req for the check's target to each member asked. |
| `Probing.DirectCheckSucceeds` | swimprotocol/worker.py:150-176 | From the end of any behavior, when a check's ping and then its answer arrive and the check ends, all of which is then possible, the target is ONLINE at the checking node and the check is over. |
| `Probing.IndirectCheckSucceeds` | swimprotocol/worker.py:164-176 | The same through a member that was asked, the target itself included: ping-req, ping, answer and relayed Ack arrive one after the other, each of which is then possible, and the target is ONLINE. |
| `Timers.ActTimers` | swimprotocol/worker.py:133-147 | What each action does to the set of running suspect timers. |
| `Timers.TimerAccounting` | swimprotocol/worker.py:117-147 | In every reachable cluster a suspect timer runs if and only if the last status reported for the member since the timer last fired is SUSPECT, the clock and the stored status notwithstanding. |
| `Timers.StepAgreesIff` | swimprotocol/worker.py:117-147 | After any event, a suspect timer runs if and only if the stored status is SUSPECT, exactly when: nothing was reported and no timer fired, and they agreed before; or the timer fired on a member that was not ONLINE; or the gossip was not applied, and says SUSPECT just if the stored status is; or what was applied is neither SUSPECT on an OFFLINE member nor OFFLINE on an ONLINE one. |
| `Timers.TimerAgreesIff` | swimprotocol/worker.py:117-147 | In every reachable cluster, a timer and the stored status agree if and only if the last event to report the status or to fire the timer left them so, by that condition. |
| `Timers.StaleGossipStartsTimer` | swimprotocol/worker.py:119-122 | Gossip too old to be applied still starts the timer and changes no belief. |
| `Timers.TimerDemotes` | swimprotocol/worker.py:144-147 | A timer that fires makes an ONLINE member SUSPECT, with no timer running afterwards, and any other OFFLINE. |
| `LocalStatus.OwnStatusAfter` | swimprotocol/worker.py:133-147 | A node's own status moves only when the suspect timer that it runs for itself fires, and then as the transition towards OFFLINE has it. |
| `LocalStatus.OnlineUntilOwnTimerFires` | doc/source/intro.rst:61-64 | In every reachable cluster a node is ONLINE in its own table if and only if no suspect timer for itself has ever fired there. The documentation has it always ONLINE. |
| `LocalStatusRun.TimerOutrunsStatus` | swimprotocol/worker.py:119-122 | A run, for any validities drawn, after which a suspect timer runs for a member that is ONLINE. |
| `LocalStatusRun.OwnTimerCanFire` | swimprotocol/worker.py:144-147 | The same run, one event on: a node is SUSPECT in its own table. |
| `Shuffles.WeakShuffle.constructor` | swimprotocol/shuffle.py:47-56 | A new shuffle is the empty set with nothing to choose from. |
| `Shuffles.WeakShuffle.Finalize` | swimprotocol/shuffle.py:58-65 | The index entry is removed and the gap in the list is filled with the last value, whose own index entry is left as it was. |
| `Shuffles.WeakShuffle.Add` | swimprotocol/shuffle.py:67-73 | Computes the deck step; the set gains the value and the list nothing else. |
| `Shuffles.WeakShuffle.Discard` | swimprotocol/shuffle.py:75-80 | Computes the deck step; the set loses the value and the list gains nothing. |
| `Shuffles.WeakShuffle.Choice` | swimprotocol/shuffle.py:82-99 | A value of the list, or the KeyError if and only if the set is empty. |
| `Shuffles.DiscardedFaithfulIff` | swimprotocol/shuffle.py:58-65 | Removal keeps the list and the index inverse to each other if and only if the value is absent or last in the list. |
| `Shuffles.DiscardedCardsIff` | swimprotocol/shuffle.py:58-99 | With exactly the members on the list, however stale the index, removal leaves exactly the remaining ones to choose from if and only if the position that it clears is the value's. |
| `Shuffles.EditedIsSet` | swimprotocol/shuffle.py:101-108 | After any sequence of edits, membership and length are those of a plain set, in spite of stale index entries. |
| `Shuffles.StaleIndexWitness` | swimprotocol/shuffle.py:63-65 | Of a, b and c, discarding a and then c leaves the set {b} with only c to choose from; adding c again lists it twice and b not at all. |
| `Shuffles.DiscardedRightKeeps` | swimprotocol/shuffle.py:58-65 | Removal that also rewrites the moved value's index entry always keeps list and index inverse. |
| `Shuffles.RepairedRefinesSet` | swimprotocol/shuffle.py:58-99 | After any sequence of edits under that repair, the list holds exactly the members of the plain set, each once. |
| `Finds.FindCountMeaning` | swimprotocol/members.py:242-244 | The number sought is the smaller of the count and how many members with the status are not excluded. |
| `Finds.FairDrawsEndIff` | swimprotocol/members.py:245-246 | Under draws that reach every position of the list, drawing ends if and only if the list holds enough different values. |
| `Finds.FindIsDrawn` | swimprotocol/members.py:240-247 | In whatever state the list is, the result has the size sought and comes from the list. |
| `Finds.FindIsExact` | swimprotocol/members.py:240-247 | In whatever state the list is, the search ends under all fair draws with the number sought and only members with the status if and only if it looks for none, or the list holds enough different values and no others than members with the status; with a faithful list it always does. |
| `Finds.FindEndsIff` | swimprotocol/members.py:240-247 | In whatever state the list is, the search ends under fair draws if and only if the list holds at least as many different values as are sought. |
| `Finds.FindIsStuck` | swimprotocol/members.py:245-246 | With the list [c, c] of the witness above, the search for two members never ends. |
| `Finds.FindHasStatusIff` | swimprotocol/members.py:235-247 | In whatever state the list is, no draws return a member without the status if and only if none is sought, or the list holds only members with it, or the search cannot end. |
| `Finds.FindExcludesIff` | swimprotocol/members.py:237-246 | In whatever state the list is, no draws return an excluded member if and only if none is sought, or no excluded member is on the list, or the search cannot end. |
| `Finds.StaleCardIsFound` | swimprotocol/members.py:242-246 | After adding a, b and c and discarding a and c, a search that excludes c returns c, which is neither wanted nor has the status, although no member of the set is excluded. |
| `Finds.FindRightIsExact` | swimprotocol/members.py:229-247 | With the repaired list, passing over excluded values repairs that: exactly the number sought, all with the status, none excluded, for all fair draws. |
| `MembersClass.Member.constructor` | swimprotocol/members.py:53-68 | A new member is OFFLINE at clock 0 with unknown metadata and nothing pending. |
| `MembersClass.Member.SetClock` | swimprotocol/members.py:130-133 | A clock becomes pending exactly when it is newer. |
| `MembersClass.Member.SetStatus` | swimprotocol/members.py:135-139 | The transition becomes pending exactly when it changes the status; raises for AVAILABLE and UNAVAILABLE. |
| `MembersClass.Member.SetMetadata` | swimprotocol/members.py:141-146 | Metadata becomes pending exactly when it is not the known dictionary, compared as sets of pairs. |
| `MembersClass.Member.Save` | swimprotocol/members.py:148-176 | Commits, ignores or refutes what is pending, whatever the pending status is; leaves nothing pending and the set of pairs equal to the items of the dictionary. |
| `MembersClass.Member.NeedsGossip` | swimprotocol/members.py:126-128 | Whether the clock exceeds the one known, -1 if none is. |
| `MembersClass.Member.Renew` | swimprotocol/members.py:281-284 | A changed validity of a remote member is noted and clears its known clocks. |
| `MembersClass.Members.Alone` | swimprotocol/members.py:187-195 | A valid table of the local member alone, at sequence clock 1. |
| `MembersClass.Members.Configured` | swimprotocol/members.py:187-199 | The constructed table is an initial one: the local member ONLINE at clock 1 with its metadata, the peers unheard of. |
| `MembersClass.Members.RefreshStatuses` | swimprotocol/members.py:210-217 | Every index gains or loses a non-local member by the status bits, and none changes for the local one. |
| `MembersClass.Members.AddToIndexes` | swimprotocol/members.py:278-280 | A new member enters exactly the indexes that share a bit with its status. |
| `MembersClass.Members.Get` | swimprotocol/members.py:260-285 | Computes the pure lookup step and keeps all six indexes equal to filtering the table. |
| `MembersClass.Members.UpdateMember` | swimprotocol/members.py:287-296 | The two phases together compute one merge of the report, and leave nothing pending; the aggregate ALL is stored unless the update is too old, or gossiped about the local member. |
| `MembersClass.Members.UpdateFrom` | swimprotocol/members.py:287-300 | Computes the pure step for a report, keeps table, indexes and sequence clock valid; an aggregate status raises and leaves the newer clock pending, but ALL, from whomever, is ignored, refuted or stored like any other, and once stored is in every index. |
| `MembersClass.Members.Update` | swimprotocol/members.py:302-313 | The same for a change made by the node itself, stamped with the sequence clock. |
| `MembersClass.Members.Apply` | swimprotocol/members.py:315-328 | The pure step for gossip. |
| `MembersClass.Members.GetGossip` | swimprotocol/members.py:330-347 | Yields exactly the members that the target needs gossip about, each once. |
| `MembersClass.Members.AckGossip` | swimprotocol/members.py:349-361 | Computes the pure acknowledgement step; the assertion fails if and only if the clock is ahead of the sequence clock. |
| `MembersClass.Members.Find` | swimprotocol/members.py:229-247 | Computes the pure search on the index of the status, over any sequence of draws: as many names as are sought, all of them listed there and none the local one. |
| `MembersClass.Members.DrawMembers` | swimprotocol/members.py:245-247 | The loop, for every sequence of draws, and never on an empty list. |
| `WorkerClass.Worker.NotifyWaiting` | swimprotocol/worker.py:71-75 | Sets the event of every check waiting for the member and of no other. |
| `WorkerClass.Worker.AddListening` | swimprotocol/worker.py:65-69 | Adds one listener for a target. |
| `WorkerClass.Worker.GetListening` | swimprotocol/worker.py:77-82 | Takes all listeners for a member, leaving none. |
| `WorkerClass.Worker.HandleStatus` | swimprotocol/worker.py:133-142 | Starts the suspect timer on SUSPECT and cancels it on any other status. |
| `WorkerClass.Worker.Hear` | swimprotocol/worker.py:87-92 | Computes the step common to all packets: lookup, waiting checks, relayed Acks. |
| `WorkerClass.Worker.AnswerGossip` | swimprotocol/worker.py:100-124 | Computes the step for gossip and sends its acknowledgement. |
| `WorkerClass.Worker.AnswerGossipAck` | swimprotocol/worker.py:104-106 | Computes the step for an acknowledgement; says when the assertion fails. |
| `WorkerClass.Worker.Handle` | swimprotocol/worker.py:84-106 | Computes the pure step for any packet: the new state, and exactly the packets sent. |
| `WorkerClass.Worker.BuildGossip` | swimprotocol/worker.py:108-115 | The gossip is the node's belief about the member. |
| `WorkerClass.Worker.Disseminate` | swimprotocol/worker.py:178-192 | Sends the target exactly the gossip that it needs, each once. |
| `WorkerClass.Worker.StartCheck` | swimprotocol/worker.py:161-163 | The first stage of a check: one ping and a new wait event. |
| `WorkerClass.Worker.PingTimeout` | swimprotocol/worker.py:164-172 | The second stage, for every sequence of draws: ping-reqs to the members drawn, or the end of the check if there are none. |
| `WorkerClass.Worker.AwaitAcks` | swimprotocol/worker.py:173 | The third stage: with the ping-reqs sent, the check waits on a new event; what the target sent while they were being sent goes unnoticed. |
| `WorkerClass.Worker.Conclude` | swimprotocol/worker.py:174-176 | The end of a check: ONLINE if the event was set, SUSPECT if not. |
| `WorkerClass.Worker.SuspectTimer` | swimprotocol/worker.py:144-147 | The timer's update towards OFFLINE, and its removal. |
| `WorkerClass.Worker.SetMetadata` | swimprotocol/members.py:302-313 | The application's change of local metadata. |
| `UdpPacks.Pack` | swimprotocol/udp/pack.py:61-72 | Filling the buffer slice by slice yields the framed bytes, and fails exactly when a length does not fit the prefix. |
| `UdpPacks.PackedLayout` | swimprotocol/udp/pack.py:61-72 | Byte by byte what is packed: masked by the configured bytes, the lengths of salt, digest and payload, the last from its highest byte to its lowest; then the salt, the keyed hash of version, salt and payload, and the payload. |
| `UdpPacks.XorByteMeaning` | swimprotocol/udp/pack.py:40-42 | Masking is exclusive or: each bit of the result is set if and only if the two bits differ. |
| `UdpPacks.XorIsUnique` | swimprotocol/udp/pack.py:40-42 | That determines the byte. |
| `UdpPacks.DecodeEncodeWord` | swimprotocol/udp/pack.py:66 | Reading a big-endian length gives back what was written. |
| `UdpPacks.EncodeDecodeWord` | swimprotocol/udp/pack.py:88 | Writing a length that was read gives back the same four bytes. |
| `UdpPacks.XorTwice` | swimprotocol/udp/pack.py:40-42 | Exclusive or with the same bytes twice changes nothing. |
| `UdpPacks.RoundTrip` | swimprotocol/udp/pack.py:44-105 | Packing succeeds if and only if salt and digest are shorter than 256 bytes and the payload than 2^32, and then unpacking the packet, followed by anything, gives it back. |
| `UdpPacks.TruncatedIsMalformed` | swimprotocol/udp/pack.py:74-99 | Every strict prefix of a packed packet of at least 6 bytes is refused silently. |
| `UdpPacks.UnpackIff` | swimprotocol/udp/pack.py:84-105 | Unpacking yields a packet if and only if the data starts with a correctly signed frame whose payload unpickles to it. |
| `UdpPacks.UnpackRaisesIff` | swimprotocol/udp/pack.py:84-103 | Unpacking raises if and only if the data is shorter than the prefix, or a correctly signed frame does not unpickle to a packet, or a right digest before an empty payload is announced longer than it is; anything else that is not a packet gives None. |

## Left out

- MembersClass.Members.UpdateFrom: for the status `ALL`, which is documented as not to be assigned but not refused, the contract says what becomes of the member, the indexes and the sequence clock; what happens to a table that holds it later is not modelled.
- MembersClass.Members.Update: after the exception for an aggregate status the member keeps a pending clock, as the contract says; later calls on that member, whose assertion then fails, are not modelled.
- MembersClass.Members.Find: the random generator is any sequence of numbers; probabilities are not modelled.
- WorkerClass.Worker.PingTimeout: at cluster level the members asked for a ping are any non-local members of the right number, a superset of what the search can draw, since its list can be stale and excluded members are not filtered.
- WorkerClass.Worker.Handle: each packet is handled in one atomic step, as are a dissemination and each of the stages of a check between the points where it waits; the send queue never blocks, and its order is kept only as a multiset.
- Quiescence.QuietAfterAcks: to begin with, the target's validity is on record and no gossip or acknowledgement under another clock than the present one is in flight between the two; a changed validity makes the node start afresh with the target, as `NodeStates.Get` says.
- Clusters.Init: nodes have different names and never restart. Name collisions and restarts, which a changed validity detects, are covered for one node by `Get` and not by the invariants over the cluster.
- UdpPacks.RoundTrip: pickling and HMAC are functions with a round-trip law, a digest of fixed size that is not empty, and the failure to unpickle an empty payload; the salt is any byte string, and secrecy is no part of the model.
- Packets of the wrong type or with aggregate statuses: the queues carry the five packets with real statuses only.
- Weak references and garbage collection: members live on in the table of non-local members; a value that dies is a value that is discarded.
- Checks: the weak set of wait events is the table of checks that are suspended; cancelling a check is not modelled.
- Times and histories: `status_time`, `previous` and the listener's notifications are not modelled, nor are intervals and timeouts, which are events that may happen at any time.
- The status indexes and the listening table hold member names where the source holds members, which compare equal by name.
- `run_failure_detection` and `run_dissemination`: the choice of targets is open; any non-local member may be checked or gossiped to at any time.
- Sockets, TCP, the demo, the file synchronisation tool, configuration and address parsing: they would add easy members only.
- Eventual delivery and the speed of the spread: the code gives no bound on losses or on random choices to prove them from.
