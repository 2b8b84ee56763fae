# Verified model of the sharded key-value store

The repository is a Raft library in C++ with two services on top of it: a shardmaster that keeps a numbered history of
shard assignments, and groups of servers that hold the shards and hand them to each other when the assignment changes.
This project models what these do and proves what they promise. The command to verify it is
`dafny verify dfyconfig.toml`.

## Parts

**Raft.** `RaftModel` has the node, the messages and each handler as a function; `RaftCluster` makes a cluster of them a
state machine in which the network loses, repeats, delays and reorders messages at will. `RaftHistory` is the record
that the proof keeps beside the nodes: elections, the log of each term's leader, votes, acknowledgements, commit points,
applied entries. `RaftInvariant` ties nodes and messages to the record, `RaftPreserve` to `RaftSafety` prove that every
step keeps it, and `RaftTheorems` draws the conclusions about whole runs. `RaftProbe` is about how a leader finds where
a follower's log agrees with its own. `RaftScenes` builds runs from single steps, for `RaftHypotheses` and
`RaftLateMessages`. `RaftEffects` says what each handler makes of a message, in terms of indices, terms and counts;
`RaftElects` and `RaftCatchUp` that a majority can always elect, commit and apply. `RaftServer` has the node as a class
with the source's loops and updates in place, each method proved to compute the function of the model.

The textbook argument does not fit this code. A node that steps down within a term forgets its vote; a follower drops
the whole stretch of the conflicting term, entries it acknowledged included; next indices start one past the commit
index; every accepted request erases what lies past its previous index. What replaces it: an entry once acknowledged is
afterwards either still there, or overruled by a later leader whose log differs, or at or below a commit point
(`RaftHistory.Kept`); a failed reply always answers a request whose previous index is at or below the leader's commit
index, so a match index taken from it never counts towards a commit; and the voters of an elected leader do not vote
again in its term.

**Membership.** `JointConsensus` has the lists and thresholds of a joint configuration and who decides under it;
`JointServer` counts the votes. `Codec` and `Persistence` have the text form of a configuration and the record a node
dumps and loads, `PersistenceServer` the loops. `Compaction` has snapshots.

**Sharded store.** `ShardGroup` is one group as a value and the effect of each of its log entries; `ShardSystem` makes
all groups, the configurations they follow and the pull and cleanup messages a state machine; `ShardInvariant` follows
each shard along its owners to its one live copy; `ShardTheorems` has the results, `ShardOnce` and `ShardReuse` those on
request ids, `ShardRetries` what becomes of a write that is refused and tried again, `ShardService` exactly when a
request is served, `ShardCleaning` what becomes of the copies of shards that were given up, `ShardProgress` when the
groups can catch up; `ShardRuns` builds runs from single steps; `ShardServer` has the class. An assignment may leave
shards at no group, which the number 0 stands for.

**Shardmaster.** `Rebalance`, `RebalanceJoin` and `RebalanceLeave` have the loops of Join and Leave as functions for any
number of shards, `MasterHistory` the log of commands, `MasterEffects` what its last one does, `MasterServer` the class.

## Hypotheses

The theorems on runs have these, each as a guard of a step or a precondition. Fixed membership is a bound of the model.
The code needs the others: the lemmas named with each show what goes wrong without it, and when.

- *Common base*: all logs start with the same committed entry, whose term no election reaches (`RaftCluster.Init`;
  needed by `RaftHypotheses.BaseNotCompared` and `BelowBaseAccepted`). In the source a fresh cluster has empty logs, and
  the entries that first fill them are never compared; the runs start after that.
- *Timely replies*: a granted vote reaches a candidate in the term it was asked for; and a failed append reply of the
  leader's own term answers a request of that term, or names an index the leader has committed. Other replies may come
  at any time (`RaftCluster.TimelyReply`; needed by `RaftHypotheses.StaleVoteTwoLeaders`, `StaleFailureIff` and
  `StaleMatchCommitsIff`, and `RaftLateMessages.StaleFailureCommits`).
- *First requests*: a leader's first append request of a term, when its receiver is still in that term, reaches as far
  as what the receiver has acknowledged in it. Other requests, vote requests among them, may come at any time
  (`RaftCluster.FirstReaches`; needed by `RaftLateMessages.LateFirstErases`, `RaftHypotheses.LateRequestErasesIff` and
  `AcceptedInOrderIff`).
- *Fixed membership*: the peers of the Raft runs are fixed, and no node leaves.
- *Drained groups*: a group enters configuration n + 1 from n and once it waits for no shard (`ShardSystem.Drained`;
  needed by `ShardTheorems.DrainIsNeeded`, `SkippingLosesData` and `SkipperLoses`).
- *Identifiers*, for `ShardOnce.AtMostOnce` alone: the writes with the id are on keys of one shard. Clients number
  their requests by the clock, all with the same offset (`src/shardkv_client.h:34-38` and `119`), so two clients can
  use one id. `ShardReuse.TwoShardsOneId` and `SharedIdTwice` are runs in which such an id takes effect twice, and
  `OnceIff` says that the hypothesis is the exact one. In all runs, a write takes effect as `ShardRetries.WritesIff`
  says.

## Where the code differs from its comments, or from what one expects

- `src/node_state.cpp:39-52`: the comment has next indices start after the last entry; the code starts them after the
  commit index. The model follows the code.
- `src/node_rpc_i.cpp:20-31`: the guards of a local snapshot compare the last log index with itself and with the applied
  index, not the index asked for (`Compaction.SnapshotPastEnd`). The model follows the code; when they let a snapshot
  through, the index asked for must lie within the log.
- `src/node_persister.cpp:13-20` writes the last sequence number, and line 51 does not read it. `ReloadBlank` says so.
- `src/shardkv_server.cpp:208` logs a pulled shard under a command that `src/node.cpp:252` does not dispatch on. The
  model takes the dispatched one.
- `src/shardkv_server.cpp:130-145` erases from the maps it iterates over. The model takes the partition this is meant to
  compute.
- `src/shardkv_server.cpp:479-507`: a repeated request leaves the outcome flag of the entry before it, and a refused one
  is remembered all the same. The model does both. As the client tries again with the same id
  (`src/shardkv_client.h:114-150`), a write refused by a group that still waits for its shard is lost there
  (`ShardRetries.RefusedWriteIsLost`; `WritesIff` says when a write takes effect), which the refinement does not
  exclude: it is about accepted writes.
- `src/shardkv_client.h:138` calls `Get` with the request of a put or append. The model takes the write this is meant to
  be, which lines 140-150 go on to treat it as.
- `src/shardkv_server.cpp:190-199`: a shard that an assignment leaves at no group, as a Leave of all groups does, is
  later pulled from the servers of group 0, of which there are none. The group that gets the shard next waits for ever
  (`ShardTheorems.EntersOrphanIff`, `UnassignedNeverArrives`).
- `src/shardkv_server.cpp:44-55`: the thread that cleans up tests its two flags the wrong way round and returns at once.
  In the model a cleanup may happen at any time, or never.
- `src/node_rpc_a.cpp:246`: a follower's commit index is set to the end of its log, also when that is lower than what it
  was (`RaftEffects.CommitFallsIff`). In the runs of the model it never falls (`FollowerCommits`).
- `src/node_rpc_a.cpp:305-320`: a leader that steps down on a reply of a newer term goes on to handle it
  (`RaftEffects.CommitsIff` covers that case). The model does so too.
- `src/node_rpc_a.cpp:366-461`: a commit is decided only when a reply comes, so that a node without peers never commits
  (`RaftCatchUp.LoneNodeCommitsNothing`).
- `src/node_rpc_a.cpp:145-163`: on a compacted log the backward loop reads in front of the log when all entries up to
  the conflicting one have one term, as after a conflict right above a snapshot of that term (`RaftModel.ScanBackIff`,
  `ScanLeavesLog`). `RaftServer.RaftNode.OnAppendEntriesRequest` excludes just that.
- `src/shardmaster_server.cpp:297`: a Join that brings no new group and has a shard to hand out reads an empty list.
  Adding a server to a known group can be such a Join (`MasterHistory.JoinWithoutNewGroup`; `JoinDefinedIff` says when).
  `MasterHistory.Apply` is None there, as for a Move of a shard that does not exist (`MoveOutside`); `RunIff` says which
  logs have no such command, and the theorems on the history are about those.

The iteration order of a hash map is a parameter: a Join lists its servers, and a Leave the remaining groups, in the
order of iteration, and a dump lists the peers so. Loops over a hash map take its elements in any order.

## Model

| member | source | states |
|---|---|---|
| `RaftTheorems.StateMachineSafety` | src/node_rpc_a.cpp:140-250 | in any run of any cluster, over lost, repeated, late and reordered messages, two nodes that hand an entry to their state machines at the same index hand over the same entry, although followers drop whole terms of entries they had acknowledged |
| `RaftTheorems.LeaderHoldsApplied` | src/node_rpc_a.cpp:366-470 | an entry any node has applied is in the log, at its index, of every leader of a later term than the applier had |
| `RaftTheorems.AppliedPoint` | src/node.cpp:157-306 | whatever a node applies lies at or below a commit point, that is an entry of its term that a majority acknowledged, and is the entry of that leader at that index |
| `RaftTheorems.ElectionSafety` | src/node_rpc_r.cpp:3-157 | a term has at most one leader in a whole run, although a candidate that hears a leader of its term forgets its vote and may vote again |
| `RaftTheorems.LeaderAppendOnly` | src/node_rpc_a.cpp:488-512 | while it leads a term, a node only adds to the end of its log |
| `RaftTheorems.LogMatching` | src/node_rpc_a.cpp:115-194 | logs of two nodes at any two moments of a run that have the same term at an index are the same up to it |
| `RaftTheorems.FollowerOnlyGrows` | src/node.cpp:393-405 | after a follower replied success in a term, its log only grows while it stays in the term, although every accepted request erases what lies past its previous index |
| `RaftTheorems.LeaderCanAlwaysSend` | src/node_rpc_a.cpp:325-363 | the positions peers reported, however stale, never make a leader read outside its log, and its commit index stays within its log |
| `RaftTheorems.LogsStayContiguous` | src/node.h:247-277 | indices of every log stay consecutive, so position is index minus base |
| `RaftTheorems.HandlersApply` | src/node_rpc_a.cpp:64-470 | in every state of a run, each node and the requests under way meet the preconditions of the node's handlers |
| `RaftSafety.NextInv` | src/node_rpc_a.cpp:64-486 | every step (election, timeout, broadcast, client command, any delivery) keeps the cluster invariant |
| `RaftSafety.CommitPointOk` | src/node_rpc_a.cpp:380-461 | an index whose commit a leader decides by its match indices was acknowledged in its term by a majority: positions taken from failed replies never count |
| `RaftSafety.ReplyBounds` | src/node_rpc_a.cpp:325-363 | a success reply backs an acknowledgement of its last index, and a failed reply of this term names an index at or below the leader's commit index |
| `RaftHistory.LeaderCompleteness` | src/node_rpc_r.cpp:84-93 | every leader elected after a commit point started with the committed entries |
| `RaftHistory.QuorumCompleteness` | src/node_rpc_r.cpp:84-93 | a candidate that a majority voted for has in its log every commit point of an earlier term |
| `RaftHistory.CommitPointsNest` | src/node_rpc_a.cpp:385-402 | of two commit points, the leader log of the one with the larger index contains the entries of the other |
| `RaftFollow.ConflictKept` | src/node_rpc_a.cpp:140-169 | what a follower drops on a conflict was overruled by a leader of a later term or lies at or below a commit point, so dropping it loses nothing that counts |
| `RaftFollow.RejectKeeps` | src/node_rpc_a.cpp:115-169 | a rejected request, with the entries it makes the follower drop, keeps the invariant |
| `RaftFollow.AcceptKeeps` | src/node_rpc_a.cpp:175-251 | an accepted request, with the entries it erases, those it appends and the commit index it raises, keeps the invariant |
| `RaftSteps.QuorumBacksWinner` | src/node_rpc_r.cpp:59-103 | no supporter of a candidate belongs to the majority that elected another node in the candidate's term |
| `RaftSteps.NoRival` | src/node_conf.cpp:278-304 | a candidate that finds enough votes is the first winner of its term |
| `RaftSteps.WinnerHoldsCommit` | src/node_state.cpp:25-57 | a winner's commit index lies within its log, so its next indices, which start one past the commit index, do too |
| `RaftSteps.GrantKeeps` | src/node_rpc_r.cpp:78-103 | granting a vote keeps the invariant |
| `RaftSteps.VoterHasNone` | src/node_rpc_r.cpp:59-103 | a node that may still grant a vote in a term has no entry of that term, so that a vote request, however late, resets the sequence filter only where nothing of the leader's own was acknowledged |
| `RaftHypotheses.StaleVoteTwoLeaders` | src/node_rpc_r.cpp:114-157 | without timely replies a term can have two leaders: in a run of three nodes every step of which keeps the hypotheses, b votes for a in one term, a and c stand in the next and c wins it, and handling b's first reply only then makes a leader of a in that term |
| `RaftHypotheses.VoteElects` | src/node_rpc_r.cpp:142-152 | a granted vote is counted whatever its term, and decides the election of a three-node cluster |
| `RaftHypotheses.StaleFailureIff` | src/node_rpc_a.cpp:325-332 | after a failed reply in the leader's own term, the requests to all peers stay within the leader's log exactly when the index the reply names does |
| `RaftHypotheses.FailureCounts` | src/node_rpc_a.cpp:325-332 | a failed reply makes its sender count as a holder of exactly the entries up to the index it names |
| `RaftHypotheses.StaleMatchCommitsIff` | src/node_rpc_a.cpp:325-461 | in a cluster of five, after one peer's failed reply a success of another commits the leader's last entry exactly when the failed reply names an index as high; without it the success does not |
| `RaftLateMessages.StaleFailureCommits` | src/node_rpc_a.cpp:291-461 | without timely replies a leader can commit what most nodes do not have: in a run of four nodes every step of which keeps the hypotheses, handling a failed reply to a request of the leader's earlier term and then one success commits an entry that two nodes lack; without the failed reply the success does not |
| `RaftLateMessages.LateFirstErases` | src/node_rpc_a.cpp:175-194 | without the hypothesis on first requests a follower can lose what it acknowledged: a run of four nodes in which q acknowledges the entry of a's second request, and handling a's first request only then takes the entry off its log |
| `RaftHypotheses.AcceptedInOrderIff` | src/node.cpp:393-405 | however the requests of one leader are lost, repeated and reordered, the accepted ones have strictly rising numbers exactly when the leader's first request is not delivered after another |
| `RaftHypotheses.LateRequestErasesIff` | src/node_rpc_a.cpp:175-194 | an accepted request whose entries the follower already has leaves the log exactly when it reaches the log's end; otherwise it erases the rest |
| `RaftHypotheses.BaseNotCompared` | src/node_rpc_a.cpp:140-194 | at the first index of the follower's log no term is compared: the request succeeds, and gives the leader's log exactly when both logs start with the same entry |
| `RaftHypotheses.BelowBaseAccepted` | src/node_rpc_a.cpp:176-194 | a request below the follower's first index succeeds and appends nothing |
| `RaftCatchUp.MajorityCommits` | src/node_rpc_a.cpp:9-512 | availability: wherever a run has got to, whatever messages were lost or are still under way, every majority of a cluster of at least two nodes can still elect one of its most recent nodes, and commit and apply any command at all of its nodes, with no other node doing anything |
| `RaftCatchUp.LoneNodeCommitsNothing` | src/node_rpc_a.cpp:366-461 | in no run does a cluster of one node commit anything, since commits are decided when a reply is handled |
| `RaftElects.MajorityElects` | src/node_rpc_r.cpp:3-157 | every majority can elect one of its nodes whose log is as recent as any of theirs, also when that one leads an older term |
| `RaftEffects.VoteGrantedIff` | src/node_rpc_r.cpp:39-112 | a peer's vote request is granted exactly when its term is no older, the vote of that term is free or already the candidate's, its last term and index are not below the log's in that order, and its number is new; nothing is said only when just the number is old; term, vote and leader name after it |
| `RaftEffects.VoteRepeats` | src/node_rpc_r.cpp:77-112 | a candidate that has the vote is granted it again under a later number, and gets no answer under the same one |
| `RaftEffects.OneIsAsRecent` | src/node_rpc_r.cpp:84-103 | of two logs, at least one is as recent as the other |
| `RaftEffects.StandsForElection` | src/node_rpc_r.cpp:3-37 | a candidate of the next term votes for itself, knows no leader, and asks every peer with the end of its log under a new number |
| `RaftEffects.LeadsIff` | src/node_rpc_r.cpp:114-157 | a candidate leads after a reply exactly when it and the peers that voted for it, the sender included, are more than half |
| `RaftEffects.LeaderStarts` | src/node_state.cpp:25-57 | a new leader names itself, takes no peer to hold anything, and its first request to each carries the entries past its commit index |
| `RaftEffects.LogsCommand` | src/node_rpc_a.cpp:488-512 | a leader puts the command behind its log and counts the number of each peer's requests on, and changes nothing else |
| `RaftEffects.SendsCommand` | src/node_rpc_a.cpp:9-62 | every peer is then sent the log from its next index on, the new entry included, with the commit index |
| `RaftEffects.FollowerCommits` | src/node_rpc_a.cpp:241-251 | in every run, a node that accepts an append request has then committed and applied exactly up to the larger of its own commit index and the leader's, and has handed over every entry on the way |
| `RaftEffects.RefusalCommitsNothing` | src/node_rpc_a.cpp:115-174 | in every run, any other outcome of an append request leaves both indices alone |
| `RaftEffects.FollowsCommit` | src/node_rpc_a.cpp:241-251 | for any node: both indices after any append request |
| `RaftEffects.CommitFallsIff` | src/node_rpc_a.cpp:241-251 | for any node, an append request lowers the commit index exactly when it succeeds, the log then ends before it, and the leader's is past it |
| `RaftEffects.RoundCommits` | src/node_rpc_a.cpp:9-62 | an exchange that succeeds leaves the follower with the leader's log, committed and applied as far as the larger of the two commit indices |
| `RaftEffects.CommitsIff` | src/node_rpc_a.cpp:360-461 | a success that names any index commits that index exactly when it is past the commit index, its entry is of the reply's term, and the leader, the sender and the other peers known to hold it are more than half; what is committed is applied |
| `RaftEffects.NotesPosition` | src/node_rpc_a.cpp:325-363 | what a leader takes the sender of a reply to hold, and where its next request starts; a failure commits nothing |
| `RaftEffects.NewerTermFollows` | src/node_rpc_a.cpp:300-320 | a node that listens to a message of a newer term follows in that term, with no vote but one granted on the spot; no message lowers a term |
| `RaftEffects.HearsLeader` | src/node.h:454-496 | what an append request makes of role and leader name, and when it is refused for its term or not answered |
| `RaftProbe.ProbeConverges` | src/node_rpc_a.cpp:115-194 | for any leader log and any follower log that match and start alike, at most as many requests fail as the follower's log has stretches of one term; then its log is the leader's and the match and next indices are exact |
| `RaftProbe.FailedRound` | src/node_rpc_a.cpp:115-169 | a failed request either found the follower's log too short, and then the next one does not, or cut at least one stretch of a term off it |
| `RaftProbe.SucceedingRound` | src/node_rpc_a.cpp:175-194 | the request that succeeds makes the follower's log the leader's |
| `RaftProbe.RunsAreTerms` | src/node_rpc_a.cpp:145-163 | a log whose terms never fall has as many stretches as terms |
| `RaftProbe.RoundInModel` | src/node_rpc_a.cpp:325-363 | a round of the exchange is what the follower's request handler and the leader's reply handler compute between them |
| `RaftProbe.ProbesSettleInRuns` | src/node_rpc_a.cpp:9-61 | in every state of every run, the exchange of a leader with any other node settles after no more failed requests than the other log has terms |
| `RaftServer.RaftNode.BecomeFollower` | src/node_state.cpp:10-23 | step down: role, term, forgotten vote and sequence number, nothing else |
| `RaftServer.RaftNode.BecomeLeader` | src/node_state.cpp:25-57 | the loop over the peers resets match index, next index and sequence number of each, as the model says |
| `RaftServer.RaftNode.HandleRequestRoutine` | src/node.h:454-496 | whether a leader's request is taken, and the term, role, vote and leader name after it |
| `RaftServer.RaftNode.ValidSequence` | src/node.cpp:393-405 | the sequence filter and the number it remembers |
| `RaftServer.RaftNode.DoElection` | src/node_rpc_r.cpp:3-37 | a new term, the vote for itself, and a vote request for every peer |
| `RaftServer.RaftNode.RequestVotes` | src/node_rpc_r.cpp:21-36 | the loop asks each peer once, with its own number, and forgets its earlier vote |
| `RaftServer.RaftNode.TestElection` | src/node_conf.cpp:289-304 | the counted votes are those of the supporters; won exactly when they are a majority |
| `RaftServer.RaftNode.OnVoteRequest` | src/node_rpc_r.cpp:39-112 | vote, reply and state after a vote request, on each of its six paths |
| `RaftServer.RaftNode.OnVoteReply` | src/node_rpc_r.cpp:114-157 | state after a vote reply, with the step to leader when it decides the election |
| `RaftServer.RaftNode.DoAppendEntries` | src/node_rpc_a.cpp:9-62 | one request for every peer, from its next index to the end of the log |
| `RaftServer.RaftNode.SendTo` | src/node_rpc_a.cpp:20-59 | the request for one peer, and its sequence number counted on |
| `RaftServer.RaftNode.DoLog` | src/node_rpc_a.cpp:488-512 | a leader appends one entry of its term and sends it to all; any other node changes nothing |
| `RaftServer.RaftNode.DoApply` | src/node.cpp:157-306 | the entries after the last applied index, up to the commit index, are handed over in order and once |
| `RaftServer.RaftNode.RevokeRun` | src/node_rpc_a.cpp:145-163 | where the backward loop stays within the log, it erases from the start of the conflicting entry's stretch of one term |
| `RaftModel.ScanBackIff` | src/node_rpc_a.cpp:145-163 | the backward loop reads in front of the log exactly when the log is compacted and its entries up to the conflicting one all have the same term; otherwise it keeps what comes before that stretch |
| `RaftModel.ScanLeavesLog` | src/node_rpc_a.cpp:145-163 | a follower compacted to entry 5 of term 2 with entry 6 of term 2, asked about an entry 6 of term 3, is such a case |
| `RaftServer.RaftNode.OnAppendEntriesRequest` | src/node_rpc_a.cpp:64-288 | log, commit index, applied entries, reply and state after a leader's request, on each of its paths |
| `RaftServer.RaftNode.ProcessAppendEntries` | src/node_rpc_a.cpp:114-284 | the same after the term and sequence checks |
| `RaftServer.RaftNode.TakeEntries` | src/node_rpc_a.cpp:176-194 | everything past the previous index is erased, then all entries are appended |
| `RaftServer.RaftNode.FollowLeaderCommit` | src/node_rpc_a.cpp:241-251 | the commit index follows the leader's up to the log's end, and what it newly covers is applied |
| `RaftServer.RaftNode.CountHolders` | src/node_rpc_a.cpp:445-453 | the counting loop counts the leader and the peers whose match index reaches the entry |
| `RaftServer.RaftNode.OnAppendEntriesReply` | src/node_rpc_a.cpp:291-470 | a leader's indices, commit index and applied entries after a reply |
| `RaftServer.RaftNode.CommitIfHeld` | src/node_rpc_a.cpp:366-470 | the commit index moves exactly when a majority holds an entry of the leader's own term beyond it |
| `RaftServer.RaftNode.FindEntry` | src/node.h:279-286 | the backward search finds the last position of index and term |
| `RaftServer.RaftNode.TruncateLog` | src/node_rpc_i.cpp:4-17 | the log becomes the snapshot and what follows the included entry, if that is there |
| `RaftServer.RaftNode.DoInstallSnapshot` | src/node_rpc_i.cpp:19-43 | a local snapshot is taken exactly when the log goes past its base and is applied to its end |
| `RaftServer.RaftNode.OnInstallSnapshotRequest` | src/node_rpc_i.cpp:74-128 | log, indices, reply and state after a received snapshot |
| `RaftServer.RaftNode.InstallReceived` | src/node_rpc_i.cpp:105-116 | the snapshot is the next entry applied, whatever was applied before |
| `JointConsensus.DecidesInChange` | src/node_conf.cpp:306-360 | there is a decision exactly in the four phases of a change |
| `JointConsensus.ThresholdsCount` | src/node.h:87-100 | for lists without repetition, none both added and removed, the thresholds are the sizes of C_old and C_new |
| `JointConsensus.ThresholdExactIff` | src/node.h:87-100 | with distinct old and added names, the new threshold is the number of names that are in C_new exactly when no name of C_old is listed for removal twice |
| `JointConsensus.InitThresholds` | src/node.h:87-100 | the two loops compute the thresholds, with 64-bit wrap-around |
| `JointConsensus.DecisionIsQuorum` | src/node_conf.cpp:306-360 | a decider of C_old says yes in the joint phases exactly when it and its supporters are majorities of C_old and of C_new, and any decider does in the later phases exactly when they are a majority of C_new |
| `JointConsensus.JointQuorumsMeet` | src/node_conf.cpp:333-339 | a joint quorum shares a member with every quorum of C_old, every joint quorum and every quorum of C_new |
| `JointConsensus.DecisionsMeet` | src/node_conf.cpp:306-360 | two positive decisions of nodes in the same change, one joint and one joint or later, have a supporter in common |
| `JointConsensus.OutsiderDecidesIff` | src/node_conf.cpp:316-331 | a node outside C_old counts itself in C_old; in a joint phase it decides by joint quorums except when its supporters are half of C_old, rounded down, and it has a majority of C_new with them |
| `JointConsensus.OutsiderMiscounts` | src/node_conf.cpp:316-331 | five names for which such a node decides against a quorum of C_old it shares no member with |
| `JointConsensus.DuplicatesMiscount` | src/node.h:95-99 | with a name removed twice, two nodes can each decide alone |
| `JointServer.VoteCounter.EnoughVotesTransConf` | src/node_conf.cpp:306-360 | the loops over the peers count exactly the agreeing members of C_old and C_new, and the answer is the decision |
| `JointServer.VoteCounter.CountBoth` | src/node_conf.cpp:316-332 | votes of C_old and C_new, the node's own included |
| `JointServer.VoteCounter.CountNewOnly` | src/node_conf.cpp:341-352 | votes of C_new, the node's own only if it is a member |
| `Codec.SplitJoinIff` | src/Nuke/string_utils.h:32-50 | splitting what was joined gives the list back exactly when no name holds the separator and the first is not empty |
| `Codec.SplitLosesNothing` | src/Nuke/string_utils.h:32-43 | putting the separators back between the pieces restores any text |
| `Codec.JoinIsJoinAll` | src/Nuke/string_utils.h:47-61 | the two ways of joining agree on every list whose first name is not empty |
| `Codec.SplitText` | src/Nuke/string_utils.h:32-43 | the loop cuts the text at each separator, and the empty text into nothing |
| `Codec.JoinNames` | src/Nuke/string_utils.h:51-61 | the loop puts a separator before every name but the first |
| `Persistence.ConfigurationRoundTripIff` | src/node.h:73-86 | reading what was printed restores the three lists, and both thresholds, exactly when all three can be printed |
| `Persistence.ReloadBlank` | src/node_persister.cpp:4-57 | outside a change of membership, dumping and loading restore term, vote, log, name and peer set, and not the last sequence number |
| `Persistence.ReloadTrans` | src/node_persister.cpp:25-65 | during a change they restore the configuration with its phase, indices and thresholds, and the peers its phase makes of its lists: staged servers are not among them |
| `Persistence.LoadedInPhase` | src/node_conf.cpp:7-23 | the peers a configuration gives a node, phase by phase |
| `PersistenceServer.PersistedNode.Dump` | src/node_persister.cpp:4-42 | the record holds the node's fields, its whole log and its configuration as text |
| `PersistenceServer.PersistedNode.Load` | src/node_persister.cpp:43-66 | the node's fields, log, configuration and peers after loading a record |
| `PersistenceServer.PersistedNode.ApplyConf` | src/node_conf.cpp:7-23 | the two loops add exactly the peers the phase gives |
| `Compaction.CompactKeeps` | src/node_rpc_i.cpp:34-40 | a local snapshot keeps indices contiguous, entries above it, last index and last term |
| `Compaction.SnapshotPastEnd` | src/node_rpc_i.cpp:19-36 | of two applied entries, a local snapshot up to a third passes the guards, and the entry it reads does not exist |
| `Compaction.TruncateKeepsIff` | src/node_rpc_i.cpp:4-17 | a received snapshot leaves a contiguous log that starts at it, and keeps the entries above it exactly when the log had the included entry or nothing above it |
| `Compaction.TruncateIsCompact` | src/node_rpc_i.cpp:4-17 | when the log has the included entry, a received snapshot does what a local one does |
| `Compaction.CompactMeansTheSame` | src/node_rpc_i.cpp:34-40 | replaying the compacted log from any state gives the state of the full log |
| `Compaction.CompactedMeansTheSame` | src/node_rpc_i.cpp:4-40 | a log that starts with a snapshot of a full log's state at its first entry, and goes on as the full log does, replays to the full log's state from any state |
| `Compaction.TruncateMeansTheSame` | src/node_rpc_i.cpp:74-128 | follower and leader may be compacted at different points: when the follower holds the entry the leader's log starts with and their full logs agree up to it, installing the leader's snapshot leaves a log that stands for the follower's full log |
| `Compaction.FoundIffHeld` | src/node.h:279-286 | the search finds an entry exactly when the log has that index with that term |
| `Compaction.InstallsIff` | src/node_rpc_i.cpp:74-128 | a peer's snapshot is installed exactly when its term is no older and its number new; then the log starts with it, commit and applied index are its index, and the rest of the log stays exactly when it held the included entry or had nothing above it; otherwise log and indices are untouched |
| `Compaction.InstallThenAppend` | src/node_rpc_i.cpp:74-128 | a follower that has installed a snapshot accepts the leader's entries after it, and has the snapshot and those |
| `ShardTheorems.RefinesOneMap` | src/shardkv_server.cpp:99-150 | in every run over any groups, configurations, request ids and message delays, the store is one map from strings to strings: the value of each key is that of replaying the accepted writes |
| `ShardTheorems.StepRefines` | src/shardkv_server.cpp:458-551 | an accepted put or append changes the map by itself and nothing else; every other step, a configuration change, a pull, an installation and a cleanup among them, leaves every value |
| `ShardTheorems.ServedReadsReplay` | src/shardkv_server.cpp:458-477 | an accepted get returns the map's value |
| `ShardTheorems.OwnershipExclusive` | src/shardkv_server.cpp:99-150 | no shard is owned by two groups, even when they are at different configurations |
| `ShardTheorems.OwnershipPartition` | src/shardkv_server.cpp:104-122 | the shards a group's configuration assigns to it are exactly those it owns and those it waits for, disjointly; what it waits for dates from the configuration before; configuration k of its history has number k |
| `ShardOnce.AtMostOnce` | src/shardkv_server.cpp:493-507 | for an id whose writes are on keys of one shard: between two of its effects, wherever they take place, a request that expires the id is applied |
| `ShardOnce.StepRemembers` | src/shardkv_server.cpp:493-536 | no step but one that expires the id takes it from the live copy of the shard it is noted for, configuration changes and installations included |
| `ShardReuse.OnceIff` | src/shardkv_client.h:34-126 | for a store with two groups: an id whose writes are on given keys has at most one effect between two expirations, in every run, exactly when those keys lie in one shard, or none of them in any |
| `ShardReuse.TwoShardsOneId` | src/shardkv_client.h:34-126 | a run to any two writes with one id at two groups, on keys of two shards: both take effect, one directly after the other |
| `ShardReuse.SharedIdTwice` | src/shardkv_server.cpp:137-144 | a run in which one write takes effect twice: in between, a write on a key outside its shard takes its id, and the shard moves on without it |
| `ShardTheorems.DrainIsNeeded` | src/shardkv_server.cpp:152-166 | moving to the next configuration leaves every awaited shard obtainable from another group exactly when no shard was awaited and no shard the group now gets was at no group before |
| `ShardTheorems.EntersOrphanIff` | src/shardkv_server.cpp:104-122 | a group that enters a configuration waits for a shard that no group can give it exactly when the configuration before had that shard at no group |
| `ShardTheorems.UnassignedNeverArrives` | src/shardkv_server.cpp:190-230 | it waits for that shard for ever: in all that follows it never owns the shard and never enters another configuration |
| `ShardTheorems.SkippingLosesData` | src/shardkv_server.cpp:168-230 | a group that moves on while it waits for a shard it keeps pulls that shard from itself and owns it without its keys |
| `ShardTheorems.SkipperLoses` | src/shardkv_server.cpp:513-536 | the same on concrete configurations |
| `ShardTheorems.GiverKeeps` | src/shardkv_server.cpp:124-149 | on those configurations the group that gave the shard up still holds its key |
| `ShardProgress.CatchUpIff` | src/shardkv_server.cpp:152-231 | wherever a run has got to, all groups can still reach the newest configuration with all their shards, exactly when no configuration after the first leaves a shard at no group that the next one gives to a group |
| `ShardProgress.CatchesUp` | src/shardkv_server.cpp:152-231 | and they can do so without a value of the map changing |
| `ShardCleaning.AwaitedIsKept` | src/shardkv_server.cpp:124-149 | in every run, while a group waits for a shard, the group that had it before and has moved on keeps the copy |
| `ShardCleaning.NoneForgotten` | src/shardkv_server.cpp:517-521 | in every run, every copy is kept by the owner that made it, and once the next owner has taken the shard over, that one is to have the copy cleaned up |
| `ShardCleaning.CleanupFinishes` | src/shardkv_server.cpp:233-288 | wherever a run has got to, what a group is to have cleaned up can be: then no group keeps the copy, nothing is left to do about it, and no value of the map has changed |
| `ShardService.WritesExactly` | src/shardkv_server.cpp:479-509 | in every run, a write takes effect exactly when it names the number of the group's configuration, the group has the shard, and the id is not last remembered there; then store and map change at its key only, otherwise not at all |
| `ShardService.ReadsExactly` | src/shardkv_server.cpp:458-477 | in every run, a read under the group's configuration and of a shard it has leaves its key in the store with the map's value; any other read changes nothing |
| `ShardService.ShardOfKey` | src/shardmaster_config.cpp:3-10 | the shard of a key is the remainder of its first byte as a signed number, with the byte's sign, and when it is negative |
| `ShardService.ReplyEndsWait` | src/shardkv_server.cpp:513-536 | a reply for the configuration before ends the wait and leaves the group with the shard; keys and ids of the payload replace the group's, unless it had the shard |
| `ShardRetries.CacheIsLastRemembered` | src/shardkv_server.cpp:99-150 | in every run, a group remembers an id exactly when the last step that concerned the id there put it in (a write with it, refused or not, or an installed shard) rather than took it out (an expiry, or the shard of the key it is noted with given up) |
| `ShardRetries.WritesIff` | src/shardkv_server.cpp:479-509 | so a write, tried again or not, takes effect exactly when the group serves its key and that last step, if any, took its id out |
| `ShardRetries.RefusedWriteIsBlocked` | src/shardkv_server.cpp:479-509 | a write that a group refused is not executed there when it is tried again with its id, under whatever configuration, until a request expires the id or the group gives up the shard of the key noted with it |
| `ShardRetries.RefusedWriteIsLost` | src/shardkv_server.cpp:479-536 | a run of two groups: any write refused by a group that waits for its shard; the shard arrives without the key; the group serves the key, and the same write tried again changes nothing |
| `ShardMoves.ApplyConfigKeeps` | src/shardkv_server.cpp:99-150 | entering a configuration keeps the invariant and every value of the map |
| `ShardMoves.ApplyReplyKeeps` | src/shardkv_server.cpp:513-536 | installing a pulled shard keeps the invariant and every value of the map, however late or repeated the reply |
| `ShardMoves.InstallFacts` | src/shardkv_server.cpp:517-533 | a reply that is installed carries the live copy of its shard, which no other group has taken |
| `ShardSteps.ServePullKeeps` | src/shardkv_server.cpp:415-455 | answering a pull, also one of long ago, keeps the invariant and the map |
| `ShardSteps.CleanupKeeps` | src/shardkv_server.cpp:538-551 | a cleanup removes only copies that were taken over |
| `ShardSteps.PutWrites` | src/shardkv_server.cpp:479-509 | an accepted write changes exactly its key in the map |
| `ShardSteps.GetReads` | src/shardkv_server.cpp:458-477 | a read, which may create its key, changes no value and returns the map's |
| `ShardServer.ShardkvServer.TakeData` | src/shardkv_server.cpp:130-137 | cuts exactly the keys of the shard out of the store |
| `ShardServer.ShardkvServer.TakeCache` | src/shardkv_server.cpp:138-145 | cuts exactly the remembered requests of the shard out of the cache |
| `ShardServer.ShardkvServer.TakeLost` | src/shardkv_server.cpp:126-148 | one payload for each shard that is lost, and the store and cache without them |
| `ShardServer.ShardkvServer.SortShards` | src/shardkv_server.cpp:108-122 | shards kept, shards now awaited and shards lost, from the new assignment |
| `ShardServer.ShardkvServer.ApplyNewConf` | src/shardkv_server.cpp:99-150 | the group's whole state after entering a configuration |
| `ShardServer.ShardkvServer.OnGetApply` | src/shardkv_server.cpp:458-477 | the value read, the key a read creates, and whether it was served |
| `ShardServer.ShardkvServer.OnPutAppendApply` | src/shardkv_server.cpp:479-509 | the write, the remembered and the expired id; a repeated request leaves the outcome of the entry before it |
| `ShardServer.ShardkvServer.OnShardMigration` | src/shardkv_server.cpp:415-455 | whether a pull is answered, and with what |
| `ShardServer.ShardkvServer.OnShardMigrationReplyApply` | src/shardkv_server.cpp:513-536 | ownership, waiting and cleaning sets, store and cache after a reply |
| `ShardServer.ShardkvServer.InstallData` | src/shardkv_server.cpp:524-527 | copies every key of the payload |
| `ShardServer.ShardkvServer.InstallCache` | src/shardkv_server.cpp:528-531 | copies every remembered request of the payload |
| `ShardServer.ShardkvServer.OnShardCleanupApply` | src/shardkv_server.cpp:538-551 | the payload of the shard goes, and its configuration with the last one |
| `ShardServer.ShardkvServer.FinishClean` | src/shardkv_server.cpp:261-290 | a confirmed cleanup is crossed off |
| `Rebalance.JoinSafety` | src/shardmaster_server.cpp:291-309 | with at least one new group and no more groups than shards, every shard ends at a group, shards move to new groups only, a group keeps what it had up to the least share, and what new groups get differs by at most one |
| `Rebalance.JoinEvensIff` | src/shardmaster_server.cpp:282-310 | when the groups divide the shards evenly, a Join makes all shares equal exactly when every group that was present has its share already |
| `Rebalance.JoinMovesFewest` | src/shardmaster_server.cpp:282-310 | and then no assignment with equal shares moves fewer shards |
| `Rebalance.SoleGroupKeepsAllIff` | src/shardmaster_server.cpp:284-308 | a group that holds every shard keeps them all, however many groups join at once, exactly when equal shares leave at least two shards over |
| `Rebalance.DealtInTurn` | src/shardmaster_server.cpp:297-300 | new groups are served in turn |
| `Rebalance.DealtKeeps` | src/shardmaster_server.cpp:294-307 | a group present keeps its first shards up to the least share, and exactly that many when shares are exact |
| `RebalanceJoin.JoinKeepsIff` | src/shardmaster_server.cpp:291-309 | for any number of groups, a shard stays where it is exactly when neither it nor a shard of its group before it needs a new group, in terms of the assignment before the Join; every other shard goes to a new group |
| `RebalanceJoin.LeavesExactly` | src/shardmaster_server.cpp:284-308 | how many shards each group that was present ends with: its least share if one of its shards needs a new group, all its shards otherwise |
| `RebalanceJoin.FewKeepers` | src/shardmaster_server.cpp:284-308 | no more groups than the remainder of the division keep more than the least share |
| `RebalanceJoin.JoinLevelsIff` | src/shardmaster_server.cpp:284-308 | a Join leaves every group with the least share or one shard more exactly when what each group present keeps is that, and the shards that do not stay are at most that many for each new group |
| `Rebalance.DealDefinedIff` | src/shardmaster_server.cpp:291-309 | without a new group the first rounds of the loop are defined exactly when none of their shards is unassigned or finds its group at its least share with all larger shares given away, and then they change no assignment |
| `Rebalance.ExactNeedsIff` | src/shardmaster_server.cpp:284-308 | when the groups divide the shards evenly that is: every shard is assigned, and no group has more than its share |
| `Rebalance.ZerosInTurn` | src/shardmaster_server.cpp:297-300 | shards without a group go to the new groups in turn |
| `RebalanceLeave.LeaveEvicts` | src/shardmaster_server.cpp:353-378 | after a Leave no shard is at a leaving group, every shard that had a group has a remaining one, and shards move to remaining groups only |
| `RebalanceLeave.LoopEvicts` | src/shardmaster_server.cpp:354-378 | the same of the loop from any point of it, whatever its counters; it ends because what the groups lack falls with each new start and the index rises otherwise |
| `RebalanceLeave.DeficitFalls` | src/shardmaster_server.cpp:360-367 | filling up a group that is short lowers what the groups lack, and no count raises it |
| `RebalanceLeave.LeaveOfIdleGroups` | src/shardmaster_server.cpp:350-378 | groups without shards leave without moving any, when neither another group nor the unassigned shards number more than the equal share |
| `RebalanceLeave.LeaveOfAllHolders` | src/shardmaster_server.cpp:350-378 | when every shard is at a leaving group and the equal share is one shard, the remaining groups get the shards in turn |
| `RebalanceLeave.LeaveMayGiveAll` | src/shardmaster_server.cpp:353-378 | there is no bound on what one group gets: with equal shares of one shard, the first at a leaving group and all others at the first remaining one, that group ends with every shard |
| `RebalanceLeave.LeaveMayUnbalance` | src/shardmaster_server.cpp:353-378 | of two shards over two remaining groups, the counters that survive the new start leave one group with both |
| `MasterHistory.JoinDefinedIff` | src/shardmaster_server.cpp:250-310 | a Join has an outcome exactly when it names a new group, or its loop does not run, or no shard needs a new group |
| `MasterHistory.JoinWithoutNewGroup` | src/shardmaster_server.cpp:250-310 | on ten shards, after groups 1, 2 and 3 joined, a Join that only adds a server to group 1 reads the empty list of new groups |
| `MasterHistory.MoveOutside` | src/shardmaster_server.cpp:391-410 | a Move of the shard past the last one, as the first command, has no outcome |
| `MasterHistory.RunIff` | src/shardmaster_server.cpp:250-410 | a log runs to its end exactly when each of its commands that is no retry is allowed on the configuration it meets: a Join as above, a Leave with an order of the groups it lets stay, a Move of a shard that exists |
| `MasterHistory.NewNameIsAllowed` | src/shardmaster_server.cpp:262-276 | a Join that names a group no Join before it named is allowed after any log |
| `MasterHistory.ConfigsAreNumbered` | src/shardmaster_server.cpp:243-247 | every log of allowed commands runs, configuration i has number i and assigns every shard |
| `MasterHistory.ConfigsNeverChange` | src/shardmaster_server.cpp:243-247 | what a log has produced stays when commands follow |
| `MasterHistory.ShardsArePlaced` | src/shardmaster_server.cpp:250-410 | when Moves name existing groups, every configuration of every log of allowed commands has each shard at no group or at one of its own groups |
| `MasterHistory.RetriesChangeNothing` | src/shardmaster_server.cpp:255-318 | any log ends as it does without each client's repeated and late requests, in the same state or undefined |
| `MasterHistory.AcceptsFirsts` | src/shardmaster_server.cpp:255-318 | after a log of allowed commands, a command is accepted exactly when its number is higher than all before of its client |
| `MasterHistory.JoinIsJoining` | src/shardmaster_server.cpp:262-282 | on a configuration of a run, a Join with a new group meets the conditions of the theorems on its loop |
| `MasterHistory.LeavePlaces` | src/shardmaster_server.cpp:332-379 | on a configuration of a run, a Leave takes every assigned shard to a remaining group |
| `MasterEffects.MoveMoves` | src/shardmaster_server.cpp:391-410 | after a log that ends in an accepted Move there is one configuration more, with that shard at that group, every other shard where it was, and the same groups |
| `MasterEffects.JoinAddsServers` | src/shardmaster_server.cpp:262-276 | after one that ends in an accepted Join, the groups are those there were and those it names, each with the servers it had and then those listed for it |
| `MasterEffects.JoinPlacesAll` | src/shardmaster_server.cpp:278-310 | if it brings a new group, every shard is then at a group, and those that moved are at new ones; with more groups than shards, every shard stays |
| `MasterEffects.LeaveRemoves` | src/shardmaster_server.cpp:332-385 | after one that ends in an accepted Leave, the groups are those it does not name, with their servers; no shard is at a group it names, each is where it was or at a remaining group, and with none remaining no shard has one |
| `MasterEffects.QueriesFind` | src/shardmaster_server.cpp:231-241 | after a log of allowed commands, asking for a number gives the configuration of that number, or the last one |
| `MasterServer.ShardmasterServer.OnJoinApply` | src/shardmaster_server.cpp:250-322 | history, remembered number and outcome after a Join, accepted or repeated |
| `MasterServer.ShardmasterServer.OnLeaveApply` | src/shardmaster_server.cpp:324-389 | the same after a Leave |
| `MasterServer.ShardmasterServer.OnMoveApply` | src/shardmaster_server.cpp:391-410 | the same after a Move |
| `MasterServer.MergeServers` | src/shardmaster_server.cpp:262-276 | servers of a known group are added to it, a new group is listed as new |
| `MasterServer.RemoveGroups` | src/shardmaster_server.cpp:335-339 | the leaving groups are taken out and remembered |
| `MasterServer.DealAll` | src/shardmaster_server.cpp:291-309 | the in-place loop with its counters computes the assignment of the specification |
| `MasterServer.DealShard` | src/shardmaster_server.cpp:293-308 | one round of it |
| `MasterServer.ShareOut` | src/shardmaster_server.cpp:341-379 | what a Leave makes of the assignment in place, with no group remaining or some |
| `MasterServer.Redistribute` | src/shardmaster_server.cpp:353-378 | the in-place loop with its backward jump computes the assignment of the specification, and ends |
| `MasterServer.FindShort` | src/shardmaster_server.cpp:360-362 | the first remaining group that is short of its share |

## Left out

- Membership changes, snapshots, crashes and restarts in the cluster runs: the theorems on these are about one node's log, record or count, and the runs keep to fixed membership.
- The steps that take a configuration through its phases (`update_configuration` and what follows it), voting rights of staged peers, and the commit of an index while a configuration is joint, which the source does not follow by an application.
- Liveness: that elections, commits or migrations do come about. What is proved is that they always still can (RaftCatchUp.MajorityCommits, ShardProgress.CatchUpIff), and the bounds and terminations stated.
- Transport, streams, message encoding, threads, locks, condition variables, timeouts, `start_timepoint` filters, random delays and callbacks used by tests; handlers are single steps, timeouts may happen at any time, apply callbacks succeed.
- The single-node key-value service, RocksDB, files, and the client retry loops.
- What the shardmaster replies to a query beyond the configuration it finds, and the text form of its groups.
- The polling, pulling and cleaning threads: their effects are the steps ApplyConfig, Pull and Clean of the shard system.
- The branch of the append handler that is compiled only without `USE_MORE_REMOVE`.
- Separators of more than one character in split and join: every use has one.
- RebalanceLeave.LeaveEvicts: does not state how even the shares are after a Leave, because nothing bounds what one remaining group gets (LeaveMayGiveAll); LeaveOfAllHolders and LeaveOfIdleGroups have two cases in which they are what one expects.
- RaftServer.RaftNode.OnAppendEntriesRequest: asks, of a request that it processes and that conflicts, that the backward search stays within the log, because the source reads in front of it otherwise (RaftModel.ScanBackIff).
- MasterServer.ShardmasterServer.OnJoinApply: asks that a Join it accepts is allowed, because the source reads an empty list otherwise (MasterHistory.JoinDefinedIff).
- MasterServer.ShardmasterServer.OnMoveApply: asks that a Move it accepts names a shard that exists, because the source writes outside the assignment otherwise.
- RaftServer.RaftNode.DoInstallSnapshot: asks, when the guards let the snapshot through, for an index within the log, because the source reads outside it otherwise (Compaction.SnapshotPastEnd).
- Persistence.ReloadBlank: asks for names that can be printed and for peers whose names are not empty, because loading stops on an empty name.
- Widths of indices, terms and counters: they are unbounded here, except for the vote thresholds.
