# Verified models of the distributed-systems programs

A Dafny 4.11 project that models the hard parts of five programs of the repository and proves what they keep:

- **craft** (`Craft*.dfy`): a Raft consensus module. `CraftNode` has the handlers as functions on a node value, and
  `CraftCluster` the transition system of a cluster: any number of nodes, unbounded logs, messages that may be lost,
  delayed, reordered and, for append calls, repeated. `CraftHistory` holds the invariant, over ghost history (votes given,
  the leader of each term and its log, acknowledgements); the files up to `CraftSteps` prove that every step keeps it;
  `CraftSafety` and `CraftRuns` draw the theorems about whole runs. `CraftModule` is the module in its imperative form, each
  critical section proved equal to its function. `CraftBackup` compares the fast conflict search with the linear one.
  `CraftProgress` and `CraftAvailable` show that a state with a live majority is no dead end: catching up, electing and
  committing stay possible. `CraftExact` shows that the environment assumption below is exact, `CraftStale` and `CraftLate` what
  goes wrong without it. `CraftVotes` says when a vote is dropped within a term and what binds a voter all the same, and
  `CraftDelivered` which term a delivered entry carries. `CraftSpread` follows a command from the leader to delivery by every
  live node of a majority, and `CraftStopped` says what becomes of a module that was stopped.
- **kvservice** (`Kv*.dfy`): the replicated key-value store as a fold over the committed log with suppression of repeated
  requests; `KvMeaning` says what the commands of a log do to each key.
- **goraft** (`Goraft*.dfy`): the metadata file with its fixed-size records, the in-place log merge, and the server
  operations that keep the file saying what memory says; `GoraftAgree` says what the checks of votes and requests mean for
  two logs.
- **torrent-client** (`Torrent*.dfy`): wire messages, the pieces of a file, the swarm of workers around a bounded queue and
  whether it can finish, and the download of one piece from fair, honest and arbitrary peers.
- **kademlia** (`Kademlia*.dfy`): keys and exclusive-or distance, buckets as heaps, who is in the table after any changes, and
  the search for close contacts.

`dafny verify dfyconfig.toml` checks everything.

## How craft is modelled

- A step is one critical section under `cm.mu`. Timers are steps that may happen at any time. Terms, indices and commands
  are unbounded integers. Ids are not negative, because -1 means "no vote", and each member lists every other one once.
- **Timely replies.** The reply handlers never compare the current term with the term in which the call was made
  (craft/craft.go:405-420, 559), so a late reply acts as if it belonged to the current term. `Timely` rules out exactly the four
  ways in which that does harm: a vote reply whose term lies strictly between the two takes a candidate back to it; a late vote
  that reaches a majority of the old election makes a candidate leader of the new term; a late success credits a peer with
  entries that it has not acknowledged in the current term; and a late refusal puts the next index outside the log. All other
  late replies are part of every theorem. In a state of a timely run a step keeps the invariant if and only if it is timely
  (`NextStepKeepsIff`), and the runs in which the invariant holds throughout are exactly the timely ones
  (`TimelyIffInvariant`). `TwoLeaders`, `TwoCommits` and `OutOfRange` are runs, timely but for their last reply, in which election
  safety, state machine safety and the range of a send fail.
- A vote call is answered at most once, as the closures of `startElection` do. The vote counter of an election is a local
  variable of the source; here it is kept by term.
- `leaderSendAEs` reads the term and the log in two critical sections. They are one step of a node that still leads.
- `becomeFollower` clears the vote even if the term stays (craft/craft.go:125-127, 410-413, 440), so a node can vote for itself
  and then for another node in one term. `VoteChangesIff` and `OtherVoteIff` say exactly when: the node is a candidate, and it
  hears from a leader of its term, or gets a late vote reply that carries its term. `VotesTwice` and `VotesTwiceUnled` are timely
  runs with one and with the other. Election safety rests on a sharper fact: all votes that a node grants to others in one term
  go to the same candidate (`OneCandidatePerTerm`), and a node that has granted one neither stands in that term afterwards
  (`GrantBinds`) nor leads it at any time (`GranterNeverLeads`).
- `Stop` marks a module as dead, but the reply handler of append calls does not look at that (craft/craft.go:550-556): a
  reply of a later term makes a stopped module a follower again. `StoppedIff` says exactly when a module stays stopped, and
  `ComesBack` is a run in which one does not.
- A peer can learn how far the leader has committed, but its commit index does not become the leader's if it was ahead, as
  it can be of a new leader: `LearnsCommit` says that it is the greater of the two then.
- The commit sender keeps a slice of the log while it sends. The model reads the log at the time of each send, and proves
  that this is what was committed.
- The comment at craft/types.go:103-104 calls `CommitEntry.Term` the term at which the command is committed. The code sends the
  term of the delivering node at the time it takes the entries, which lies between the term of the entry and the node's own
  (`DeliveredTerm`, `DeliveredTermIff`). `LaterTermDelivered` is a run that commits an entry in term 1 and delivers it with term 2.

## Results about the other programs that a reader may not expect

- goraft: a header that is written before any log entry says that the log has one entry, but there is no record of it. A
  server that only voted or changed terms before it stopped does not start again. `RestoreAfterRun` says exactly when
  restoring works, `Survives` in the server says it of each operation.
- kademlia: a full bucket makes room by `heap.Pop`, which takes the contact that ranks first (`FirstRanksFirst`); the comment at
  kademlia/routing.go:175 says the last. `FindClosest` is meant to return the closest contacts (kademlia/routing.go:56). Behind
  the target's own bucket it lists the bucket before it ahead of the ones after it, although all of those are strictly closer
  (`FartherBucketFirst`, and a table in `WrongList`). `RightIff` and `RightIffSizes` say exactly when the list is right, by the
  measure that the program calls distance (kademlia/utils.go:116): the length of the prefix shared with the target. Contacts that
  share equally much are not told apart by their exclusive-or number.
- torrent-client: a piece that starts behind the end of the file has a negative size, and the attempt to download it panics
  (torrent-client/p2p/p2p.go:89). `CrashFreeIff` says exactly which torrents are free of crashes. A peer that repeats a block can
  make a piece look complete (`SameBlockTwice`); `CompleteIff` says exactly when a complete piece has all its bytes, and it is the
  digest that rejects the others. Such a peer can also have any number of requests open (`AnyNumberOpen`), although
  torrent-client/p2p/p2p.go:19 allows five: only a counter is bounded, and every block taken in lowers it. `AtMostFiveIff` says
  exactly when the bound holds.

## Model

| member | source | states |
|---|---|---|
| CraftSafety.ElectionSafety | craft/craft.go:372-441 | over a whole timely run, two nodes that lead the same term, at whatever two times, are the same node |
| CraftSafety.LogMatching | craft/craft.go:133-171 | two logs, of any nodes at any times, with the same term at one index are identical up to and including it |
| CraftSafety.StateMachineSafety | craft/craft.go:174-178 | any two nodes at any times have the same entry at every index that both take for committed |
| CraftSafety.LeaderCompleteness | craft/craft.go:565-577 | what any node takes for committed in a term is in the log of every leader of a later term, and of that term's leader from then on |
| CraftSafety.DeliveredIsLog | craft/craft.go:637-660 | delivered entries carry the indices 0, 1, 2, ... without gap or repeat and are the node's log up to there |
| CraftSafety.DeliverySafety | craft/craft.go:653-659 | no two nodes ever deliver different commands at one index |
| CraftSafety.SendInRange | craft/craft.go:516-524 | whenever a node leads, the next index of each peer is inside its log, so the slices of a send are in range |
| CraftSafety.ReplicationSoundness | craft/craft.go:560-562 | while a peer is in the leader's term it holds the leader's log through the match index |
| CraftSafety.RunInv | craft/craft.go:63-660 | every state of every timely run satisfies the whole invariant over its history |
| CraftSteps.StepKeeps | craft/craft.go:63-660 | every timely step of the cluster keeps the invariant |
| CraftExact.NextStepKeepsIff | craft/craft.go:405-424 | after a timely run a step keeps the invariant if and only if it is timely: the exact guard of each branch in which a late vote or append reply does harm |
| CraftExact.TimelyIffInvariant | craft/craft.go:550-609 | the runs in which the invariant holds throughout are exactly the timely ones |
| CraftExact.KeepsIff | craft/craft.go:401-609 | in any state that satisfies the invariant and its records, a step keeps it if and only if it is timely |
| CraftWin.NoSecondLeader | craft/craft.go:415-420 | a candidate with a majority of votes finds its term without a leader, although votes can be dropped within a term |
| CraftCompleteness.LeaderHolds | craft/craft.go:87-94 | an index that a majority acknowledged to the leader of its own term is held by the leader of every later term: the vote check and the current-term rule together |
| CraftReplication.MergeFacts | craft/craft.go:140-171 | a merged log agrees with the leader's log as far as the request reaches, and is cut only if it disagreed there |
| CraftReplication.MergeBeyondCommit | craft/craft.go:159-175 | no request reaches into what the node has committed |
| CraftRuns.CommittedStays | craft/craft.go:102-206 | over any stretch of a run a node's term and commit index do not go back, no truncation touches its committed entries, and deliveries are only added to |
| CraftRuns.FollowerCommitBound | craft/craft.go:174-175 | an accepting follower's commit index is the greater of its own and the leader's, and that is never past the last index the request vouches for |
| CraftRuns.DelayedAppendIsHarmless | craft/craft.go:140-171 | however late or often a leader's request arrives, and whatever has become of the leader since, nothing that the node shares with a log that the leader had at any earlier time is cut off or rewritten |
| CraftProgress.CatchesUp | craft/craft.go:505-609 | from every state of a timely run a leader can bring a live peer that is not ahead in term up to date, in exactly one round more than the fast search is refused, with nobody else touched |
| CraftProgress.CaughtUpHolds | craft/craft.go:560-562 | such a peer then holds the leader's whole log |
| CraftProgress.LeaderCanCommit | craft/craft.go:565-577 | a leader whose last entry is of its own term can commit its whole log, if it can reach a majority |
| CraftProgress.CommandCanCommit | craft/craft.go:220-231 | any command given to a leader that can reach a majority can be committed, at the index at which it was put |
| CraftAvailable.CanBeElected | craft/craft.go:372-424 | from every state of a timely run a live node can become leader of any term later than those of a live majority that its log is up to date with |
| CraftAvailable.CanElectAndCommit | craft/craft.go:372-609 | and then commit any command at the end of its log |
| CraftAvailable.CanAlwaysCommit | craft/craft.go:372-609 | from every state of a timely run in which a majority of at least two nodes is alive, the run can go on so that any given command is committed |
| CraftSpread.SendTells | craft/craft.go:516-540 | a send of a timely run adds one request, with the leader's term, its whole log from the peer's next index on, the term of the entry before, and how far the leader has committed |
| CraftSpread.NewLeader | craft/craft.go:448-454 | a candidate that has just come to lead keeps log and term, sends to everyone from the end of its log and takes nobody to hold anything |
| CraftSpread.LearnsCommit | craft/craft.go:173-178 | from every state of a timely run in which a leader can have a round with a peer, the peer can come to have committed all that the leader has: its commit index is the greater of its own and the leader's then |
| CraftSpread.DeliversAll | craft/craft.go:637-660 | from every state of a timely run a node can deliver all that it has committed |
| CraftSpread.CommandCanReach | craft/craft.go:220-660 | a command given to a leader that can reach a majority can be committed and delivered by the leader and each of those peers, at the index at which it was put |
| CraftSpread.CanAlwaysDeliver | craft/craft.go:372-660 | from every state of a timely run in which a majority of at least two nodes is alive, each of them can come to deliver any given command, all at the same index |
| CraftAvailable.CanAlwaysLead | craft/craft.go:372-441 | and the most up-to-date of them can come to lead the others, with its log |
| CraftStopped.StoppedIff | craft/craft.go:550-556 | over any stretch of a run a stopped module stays stopped with term, vote, log and commit index unchanged, if and only if no reply to an append call of its own comes in that is ahead of it in term |
| CraftStopped.ComesBack | craft/craft.go:550-556 | a concrete timely run in which a stopped module becomes a follower again |
| CraftStale.TwoLeaders | craft/craft.go:405-420 | a concrete run, timely but for its last reply, ends with two leaders of one term |
| CraftLate.TwoCommits | craft/craft.go:559-577 | a concrete run, timely but for its last reply, ends with two nodes that have committed different entries at one index |
| CraftLate.OutOfRange | craft/craft.go:590-606 | a concrete run, timely but for its last reply, ends with a leader whose next send to a peer is out of range |
| CraftStale.TermGoesBackIff | craft/craft.go:410-413 | a vote reply takes a node back to an earlier term if and only if it is a candidate and the reply lies between the term of the call and its own |
| CraftVotes.VoteChangesIff | craft/craft.go:124-127 | a step of a timely run that leaves a node's term as it is changes its vote if and only if the node is a candidate and the step brings it a request of its term, or a reply of its term to a call of an earlier one |
| CraftVotes.OtherVoteIff | craft/craft.go:410-441 | over any stretch of a run that a node spends in one term, its vote is another one at the end if and only if such a step lies in between |
| CraftVotes.OneCandidatePerTerm | craft/craft.go:87-94 | any two votes that a node grants in one term, at whatever two steps of a timely run, go to the same candidate |
| CraftVotes.GrantBinds | craft/craft.go:87-94 | a node that has granted a vote keeps it for the rest of the term and does not stand in that term |
| CraftVotes.GranterNeverLeads | craft/craft.go:87-94 | and it does not lead that term at any time, before or after |
| CraftVotes.VotesTwice | craft/craft.go:124-127 | a concrete timely run in which a node votes for itself, hears from the leader of its term, and votes for that leader in the same term |
| CraftVotes.VotesTwiceUnled | craft/craft.go:410-413 | a concrete timely run in which a node votes for itself, gets the denial of an earlier call, and votes for another node in the same term |
| CraftDelivered.DeliveredTerm | craft/craft.go:642-659 | every delivered entry carries the term that the node had when it took the entry, no earlier than the term of the entry and no later than the node's own |
| CraftDelivered.DeliveredTermIff | craft/craft.go:642-659 | that is the term of the entry if and only if the node was still in it when it took the entry |
| CraftDelivered.LaterTermDelivered | craft/craft.go:642-659 | a concrete timely run that commits an entry in term 1 and delivers it with term 2 |
| CraftBackup.RoundIsModel | craft/craft.go:183-198 | what the handlers answer and do on a refusal is the round of the fast search |
| CraftBackup.RefusedIff | craft/craft.go:133-134 | a request is refused if and only if it starts beyond the longest common prefix |
| CraftBackup.FastRound | craft/craft.go:591-606 | a refused round lowers the next index, never below the point where the logs part, and lands exactly there if the leader has the conflicting term |
| CraftBackup.LowersIff | craft/craft.go:591-606 | for any two logs, exactly when a refused round lowers the next index |
| CraftBackup.MatchingIsNotEnough | craft/craft.go:599-600 | two logs that match at equal indices but whose terms have no common origin, for which a refused round raises the next index |
| CraftBackup.FastRefinesLinear | raft/part2/raft.go:532-534 | the fast search accepts at the same index as going back one at a time, after no more rounds |
| CraftBackup.LinearEnds | raft/part2/raft.go:532-534 | the linear search ends at the common prefix after exactly as many rounds as it lies back |
| CraftBackup.RoundsPerTermAny | craft/craft.go:591-606 | the fast search needs at most two refused rounds more than there are terms that only the follower has |
| CraftBackup.RunSearchable | craft/craft.go:133-171 | any two logs of a timely run, at any times, satisfy what the search results need |
| CraftModule.ConsensusModule.constructor | craft/craft.go:21-41 | a fresh module is the initial node |
| CraftModule.ConsensusModule.LastLogIndexAndTerm | craft/craft.go:622-629 | the last index and term, or -1 for both |
| CraftModule.ConsensusModule.RequestVote | craft/craft.go:63-100 | a stopped module refuses; otherwise the fields and the reply become what the vote handler of the cluster model gives |
| CraftModule.ConsensusModule.InsertionPoint | craft/craft.go:140-152 | the loop finds the first entry of the request that the log does not have by term |
| CraftModule.ConsensusModule.FirstOfTerm | craft/craft.go:189-197 | the loop finds the start of the stretch of the conflicting term |
| CraftModule.ConsensusModule.AppendEntries | craft/craft.go:102-206 | a stopped module refuses, a previous index below -1 is an index error unless the request is too old, and otherwise the fields and the reply become what the append handler of the cluster model gives |
| CraftModule.ConsensusModule.SubmitCommand | craft/craft.go:220-235 | the leader appends the command and returns its index, others return -1 |
| CraftModule.ConsensusModule.StartElection | craft/craft.go:372-381 | a new term, its own vote and a count of one |
| CraftModule.ConsensusModule.StartLeader | craft/craft.go:448-454 | all peers start at the end of the log with nothing matched |
| CraftModule.ConsensusModule.VoteReplied | craft/craft.go:401-424 | the reply handler, including the move to leader on a majority |
| CraftModule.ConsensusModule.BuildAppendRequest | craft/craft.go:516-540 | whatever has become of the node since the term was saved: the request with that term, the previous entry, the whole rest of the log and the commit index, or an index error exactly if the next index is outside the log |
| CraftModule.ConsensusModule.CountMatches | craft/craft.go:567-572 | the loop counts the leader and the set of peers that hold the index |
| CraftModule.ConsensusModule.AdvanceCommitIndex | craft/craft.go:565-577 | the nested loops end at the highest index of the current term that a majority holds |
| CraftModule.ConsensusModule.FindLastOfTerm | craft/craft.go:592-598 | the loop finds the last entry of a term, or -1 |
| CraftModule.ConsensusModule.AppendReplied | craft/craft.go:550-609 | the reply handler: step down, advance, or go back |
| CraftModule.ConsensusModule.TakeEntries | craft/craft.go:642-650 | what is newly committed is handed to the sender once |
| CraftModule.ConsensusModule.ReportNext | craft/craft.go:653-659 | one entry is sent, with its index |
| KvState.RetryInsensitivity | raft/part5kv/kvservice/kvservice.go:370-396 | a retry put in anywhere after its original leaves the store, the table and all other replies unchanged, and is answered as a duplicate |
| KvState.DuplicateIffRetry | raft/part5kv/kvservice/kvservice.go:373-374 | a command is suppressed if and only if its client has an equal or higher request ID earlier in the log |
| KvState.LastIsHighest | raft/part5kv/kvservice/kvservice.go:373-382 | the table holds exactly the clients seen, each with the highest request ID seen |
| KvState.AtMostOnce | raft/part5kv/kvservice/kvservice.go:370-396 | the request IDs applied for one client strictly increase |
| KvState.StoreIsFoldOfKept | raft/part5kv/kvservice/kvservice.go:384-395 | the store is the plain sequential application of the commands that were not suppressed |
| KvState.KeptAreFirsts | raft/part5kv/kvservice/kvservice.go:370-396 | if each client's requests first occur in increasing order, what is kept is exactly the first occurrences |
| KvState.OrderedLogsApplyFirsts | raft/part5kv/kvservice/kvservice.go:370-396 | and then the store is what the first occurrences give, applied to an empty store |
| KvState.FoldSplit | raft/part5kv/kvservice/kvservice.go:367-396 | replaying a prefix and then the rest is replaying the log, with the replies in order |
| KvMeaning.LastCommand | raft/part5kv/kvservice/kvservice.go:370-396 | the last command of a log: a retry does nothing; put sets its key to its value, append puts its value behind the old one, compare-and-swap writes its value exactly if the key holds the compare value, get changes nothing; no other key changes; the reply is the old value |
| KvMeaning.LastWriteWins | raft/part5kv/kvservice/kvservice.go:384-395 | the value of a key is that of the last kept command that overwrote it, with everything behind it that was appended since |
| KvMeaning.OnlyAppended | raft/part5kv/kvservice/datastore.go:48-55 | a key that was never overwritten is there if and only if something was appended to it, and has all of that |
| KvService.KVService.RunUpdater | raft/part5kv/kvservice/kvservice.go:365-396 | the updater loop computes the fold, and stops at a command of unknown kind |
| KvService.DataStore.Put | raft/part5kv/kvservice/datastore.go:34-41 | the key gets the value; the previous value is returned |
| KvService.DataStore.Append | raft/part5kv/kvservice/datastore.go:48-55 | the value goes behind the previous one, which is returned |
| KvService.DataStore.CAS | raft/part5kv/kvservice/datastore.go:60-69 | the value is written only if the key is there with the expected value |
| GoraftDisk.RestoreAfterRun | goraft/raft.go:266-423 | after any run of changes and persists from a first start, restoring gives exactly the term, the vote and the log if some entry was ever written, a first start if nothing was, and fails otherwise |
| GoraftDisk.RunInSync | goraft/raft.go:266-327 | every run keeps the file in step with memory, whatever stale records lie past its end |
| GoraftDisk.LogInSync | goraft/raft.go:294-320 | writing only the header and the changed tail leaves every record of the log in place |
| GoraftDisk.RestoreIsExact | goraft/raft.go:364-423 | reading a file that is in step gives memory back |
| GoraftDisk.RecordDecodes | goraft/raft.go:308-311 | a record written over the remains of the one before it reads as its own entry |
| GoraftDisk.ZerosDecode | goraft/raft.go:329-334 | the record of the first entry, never written, reads as the empty entry |
| GoraftDisk.LowestFirst | goraft/raft.go:281-283 | numbers in the file have their lowest byte first |
| GoraftAgree.VoteNeedsLog | goraft/raft.go:493-496 | for a request built from a candidate's log: the logs allow the vote if and only if the candidate's last term is no earlier, and its log no shorter if the terms are equal |
| GoraftAgree.OneOfTwo | goraft/raft.go:493-496 | of two logs one can be voted for by the other, and both exactly if last term and length agree |
| GoraftAgree.PassTrans | goraft/raft.go:493-496 | and that is transitive |
| GoraftAgree.SomeoneCanWin | goraft/raft.go:493-496 | so among any logs there is one that all the others can vote for |
| GoraftAgree.AcceptsIff | goraft/raft.go:556-559 | for logs that agree wherever terms are equal: a follower accepts the previous entry of a leader's request if and only if it has the leader's log up to there |
| GoraftAgree.AcceptedAgrees | goraft/raft.go:566-602 | after an accepted request the follower has the leader's log as far as the request goes, and more only if it had that before |
| GoraftAgree.MatchingStays | goraft/raft.go:566-602 | and the two logs still agree wherever they have equal terms |
| GoraftAgree.CommitMoves | goraft/raft.go:604-606 | the commit index moves only for a leader that has committed more, as far as leader and log allow, stays in the log, and falls exactly if the log has become shorter than it |
| GoraftAgree.VotesAreVoters | goraft/raft.go:836-848 | the count of votes is the number of members that voted for the server |
| GoraftMerge.MergedMeaning | goraft/raft.go:569-602 | the merged log keeps the prefix, has every entry by term, has the entries themselves where equal terms mean equal entries, and loses old entries if and only if one conflicts |
| GoraftMerge.MergedTwice | goraft/raft.go:569-602 | a request that comes again changes nothing and has nothing new |
| GoraftMerge.MergedInBatches | goraft/raft.go:680-699 | merging a log in batches, one after the other, is merging it at once |
| GoraftServer.Server.Merge | goraft/raft.go:566-602 | the in-place loop, with its growth of capacity, gives the merged log, its internal assertions hold, and what it reports as new is the length of the rewritten tail |
| GoraftServer.Server.MergeOne | goraft/raft.go:570-601 | one turn keeps an entry that is there by term, or cuts the log and puts the new one, without running out of capacity |
| GoraftServer.Server.Persist | goraft/raft.go:266-327 | the file becomes header and tail as specified; it fails if and only if a command to be written is too long |
| GoraftServer.Server.Restore | goraft/raft.go:364-423 | memory becomes what the file says |
| GoraftServer.Server.EnsureLog | goraft/raft.go:329-334 | an empty log gets its first entry |
| GoraftServer.Server.UpdateTerm | goraft/raft.go:514-526 | a newer term makes a follower without a vote, in memory and in the file |
| GoraftServer.Server.HandleRequestVote | goraft/raft.go:476-511 | exactly when a vote is given; one candidate per term; the vote is in the file when it is given |
| GoraftServer.Server.HandleAppendEntries | goraft/raft.go:528-612 | exactly when a request is accepted, and that memory and file then hold the merged log; it stops if and only if a command of the new tail is too long |
| GoraftServer.Server.Apply | goraft/raft.go:616-637 | the leader's log grows by the commands with its term, in memory and in the file |
| GoraftServer.Server.Timeout | goraft/raft.go:813-832 | a new term with its own vote and none of the others, in memory and in the file |
| GoraftServer.Server.BecomeLeader | goraft/raft.go:836-871 | exactly a majority makes a leader, with a fresh view of its peers and an entry of its term without a command |
| TorrentSwarm.WorkConservation | torrent-client/p2p/p2p.go:145-214 | in every reachable state, how often an index is queued, held and collected comes to exactly one |
| TorrentSwarm.PutBackIsFree | torrent-client/p2p/p2p.go:145-163 | a worker that puts a piece back never blocks and never sends on the closed queue |
| TorrentSwarm.CollectorIsWaiting | torrent-client/p2p/p2p.go:166-207 | a worker with a result finds the collector still waiting, and not for a piece that it already has |
| TorrentSwarm.ClosedIsDone | torrent-client/p2p/p2p.go:201-214 | when all results are in, the queue is empty, nobody holds a piece, and each index was collected once |
| TorrentSwarm.AssembledFile | torrent-client/p2p/p2p.go:201-216 | in a finished run each range of the buffer holds bytes with that piece's digest, whatever the order of arrival |
| TorrentSwarm.DownloadIsOriginal | torrent-client/p2p/p2p.go:125-216 | so it is the original file, if the pieces reach its end and no other bytes have their digests |
| TorrentSwarm.StepKeeps | torrent-client/p2p/p2p.go:133-214 | every step of any worker or the collector keeps conservation and the digest checks, and crashes only if some piece has a negative size |
| TorrentSwarm.CrashFreeIff | torrent-client/p2p/p2p.go:85-90 | no download of a torrent ever crashes, if and only if its length is not negative and its last piece does not start behind the end of the file |
| TorrentSwarm.SecondPieceCrashes | torrent-client/p2p/p2p.go:85-90 | a torrent of two pieces of 16 bytes and a file of 10 reaches a crash |
| TorrentFinish.FinishesIff | torrent-client/p2p/p2p.go:133-214 | from every reachable state of a download whose torrent was made from some file, some run collects all pieces if and only if they are all there or a worker stays with the swarm |
| TorrentFinish.StaysIff | torrent-client/p2p/p2p.go:133-168 | over any run a worker stays unless it cannot connect, finds the queue closed or fails to download a piece; one that goes does not come back |
| TorrentPieces.TilesIffFits | torrent-client/p2p/p2p.go:171-183 | the ranges are not empty, follow each other and cover the file if and only if the file ends in the last piece |
| TorrentPieces.Owner | torrent-client/p2p/p2p.go:171-178 | every offset of the file is in exactly one range |
| TorrentBlocks.RequestsTile | torrent-client/p2p/p2p.go:97-113 | whatever comes in, the requests are consecutive blocks of at most 16384 bytes from the start, never past the end, and the backlog counter is at most five |
| TorrentBlocks.FairDownload | torrent-client/p2p/p2p.go:53-122 | with a peer that answers each request once, in any order and between any other messages, the counters stay in range and a finished piece is the peer's content |
| TorrentBlocks.WaitsForSomething | torrent-client/p2p/p2p.go:97-119 | an unfinished attempt that may send always has an open request before it reads |
| TorrentBlocks.AnswerIsTakenIn | torrent-client/message/message.go:55-76 | the wire form of an answer is taken in as the answer to its request |
| TorrentChoke.AttemptIsMachine | torrent-client/p2p/p2p.go:97-122 | the attempt is a machine that takes in one message after the other |
| TorrentChoke.ChokedIff | torrent-client/p2p/p2p.go:63-67 | whenever an attempt waits for a message, it is choked if and only if the last choke or unchoke that came was a choke, or none came and it began choked |
| TorrentChoke.AsksUnchoked | torrent-client/p2p/p2p.go:98-113 | a message adds to the requests that were sent only if, by the messages that came, the peer has not choked |
| TorrentChoke.SilentUntilUnchoked | torrent-client/p2p/p2p.go:98-113 | an attempt that begins choked sends nothing before an unchoke comes |
| TorrentChoke.FailsIff | torrent-client/p2p/p2p.go:53-83 | a message makes the attempt fail exactly if the connection does, or a have or a block is malformed, and changes nothing but the choking if it is no block |
| TorrentChoke.AnsweredDownload | torrent-client/p2p/p2p.go:85-123 | with a peer that unchokes and then answers as many open requests as the piece has blocks, in any order and with any harmless messages between, the attempt ends complete with the peer's content |
| TorrentChoke.HonestDownload | torrent-client/p2p/p2p.go:85-123 | such a peer exists for every content: one that unchokes and sends the blocks in turn |
| TorrentBacklog.OpenIsBacklogAndStrays | torrent-client/p2p/p2p.go:73-119 | for any peer: every block taken in answers an open request with its begin and size or is a stray, and the open requests are as many as the backlog counter says and the strays together |
| TorrentBacklog.AtMostFiveIff | torrent-client/p2p/p2p.go:18-19 | for any peer: at most five requests are open if and only if the strays are no more than five less the backlog counter |
| TorrentBacklog.AtMostFiveWhileAsking | torrent-client/p2p/p2p.go:97-116 | while an unchoked attempt with more to ask for waits for a message, at most five requests are open if and only if every block taken in has answered an open request of its own |
| TorrentBacklog.EndsWaiting | torrent-client/p2p/p2p.go:97-119 | an attempt that ends without the piece had asked for all it may, or could not ask |
| TorrentBacklog.AtMostFiveOpen | torrent-client/p2p/p2p.go:97-119 | with a peer that answers each request once there are no strays: the backlog counter is the number of open requests, and that is at most five |
| TorrentBacklog.AnyNumberOpen | torrent-client/p2p/p2p.go:73-119 | for any number n, a peer that sends the first byte n times and nothing else has five and n requests open, with the counter at five |
| TorrentCoverage.CompleteIff | torrent-client/p2p/p2p.go:97-122 | for any peer: an attempt that ends as complete has every byte, none of them twice, if and only if no two blocks that it took in overlap; with exactly as many bytes counted as the piece has, every byte was written if and only if that is so |
| TorrentCoverage.OwnBytes | torrent-client/message/message.go:74 | and then every byte of the buffer is the one of its own block |
| TorrentCoverage.AttemptIsBlocks | torrent-client/p2p/p2p.go:73-79 | for any peer, the buffer and the count are those of the blocks that were taken in, in order |
| TorrentBlocks.SameBlockTwice | torrent-client/p2p/p2p.go:73-79 | a repeated block ends an attempt with bytes that nobody sent |
| TorrentPeer.AttemptDownloadPiece | torrent-client/p2p/p2p.go:85-123 | a negative length panics; otherwise the nested loops are the specified attempt on what comes in |
| TorrentPeer.PieceProgress.ReadMessage | torrent-client/p2p/p2p.go:53-83 | one message has the specified effect on counters, buffer, choking and the bits of the peer's pieces |
| TorrentPeer.HaveIsSet | torrent-client/bitfield/bitfield.go:17-26 | setting a bit makes exactly that piece new, and an index out of range is dropped |
| TorrentPeer.HaveIsNoted | torrent-client/p2p/p2p.go:68-73 | a have message as a peer writes it makes exactly its piece new, and no other message makes any |
| TorrentPeer.BitIsShift | torrent-client/bitfield/bitfield.go:7-14 | pieces are counted from the highest bit of a byte |
| TorrentPeer.PieceProgress.SendRequests | torrent-client/p2p/p2p.go:99-113 | the inner loop sends the specified requests |
| TorrentMessage.ParsePiece | torrent-client/message/message.go:55-76 | the buffer gets exactly the block, or stays as it was on an error |
| TorrentMessage.HighestFirst | torrent-client/message/message.go:41-43 | numbers on the wire have their highest byte first |
| TorrentMessage.PieceRoundTrip | torrent-client/message/message.go:55-76 | an answer is understood if and only if its numbers fit into 32 bits and its bytes into the buffer |
| TorrentMessage.RequestRoundTrip | torrent-client/message/message.go:39-45 | the peer reads the three numbers, each modulo two to the 32nd |
| TorrentMessage.HaveRoundTrip | torrent-client/message/message.go:48-88 | an index comes back if and only if it fits into 32 bits |
| TorrentMessage.FrameRoundTrip | torrent-client/message/message.go:93-131 | a message comes back from the stream and leaves it at the next one if and only if its frame size does not wrap around |
| TorrentMessage.StreamRoundTrip | torrent-client/message/message.go:93-131 | any sequence of messages and keep-alives written one after the other is read as the same sequence |
| KademliaTable.TraceOk | kademlia/routing.go:18-33 | over any adding and removing, a bucket has at most twenty contacts, with different keys, all with its shared prefix |
| KademliaTable.OwnBucketFirst | kademlia/routing.go:57-90 | the target's own bucket comes first in the result, and each of its contacts is strictly closer to the target than every contact of every other bucket |
| KademliaTable.FindClosestMeaning | kademlia/routing.go:57-90 | at most twenty contacts, each from the table and none twice; fewer than five only if the table has no more |
| KademliaClosest.RightIff | kademlia/routing.go:56-90 | no contact left out shares a longer prefix with the target than a listed one, if and only if no listed contact is from a bucket before the target's or every contact after it is listed |
| KademliaClosest.RightIffSizes | kademlia/routing.go:70-88 | the same by the sizes of the buckets and how far the search goes |
| KademliaClosest.EnoughIsRight | kademlia/routing.go:70-71 | with five contacts in the target's own bucket exactly these are listed, and they are the right ones |
| KademliaClosest.WrongList | kademlia/routing.go:70-88 | a table for which twenty contacts are listed and one that is strictly closer than each of them is not |
| KademliaTable.FartherBucketFirst | kademlia/routing.go:70-88 | the bucket before can fill the result although every contact in any bucket after is strictly closer |
| KademliaKeys.OwnBucketIsCloser | kademlia/utils.go:98-118 | keys in one bucket are strictly closer to each other than to any key in another bucket |
| KademliaKeys.LaterBucketIsCloser | kademlia/utils.go:98-118 | of two keys, the one in the later bucket is strictly closer to a target beyond the earlier one |
| KademliaKeys.SharedWithTarget | kademlia/utils.go:98-118 | how many bits a key shares with a target, by the buckets of the two |
| KademliaKeys.BucketIsSharedPrefix | kademlia/utils.go:107-118 | the bucket index is the number of leading bits that two keys share, and they differ in the next one |
| KademliaKeys.HasBucket | kademlia/utils.go:107-114 | only the node's own key has no bucket |
| KademliaKeys.Xor | kademlia/utils.go:98-104 | the loop gives the bytewise exclusive or |
| KademliaKeys.LeadingZeros | kademlia/utils.go:107-114 | the loop gives the index of the first one bit, or the number of bits |
| KademliaContents.AddMeaning | kademlia/routing.go:158-179 | adding a contact: its bucket has it then; the contact that had its key, and no other, is gone; if none had it nothing is gone while there are fewer than twenty, and else exactly the first of the heap; all other buckets are the same |
| KademliaContents.RemoveMeaning | kademlia/routing.go:133-140 | removing a key: no contact has it then, nothing else is gone, and all other buckets are the same |
| KademliaContents.InTableIff | kademlia/routing.go:158-179 | after any changes, a contact is in the table if and only if it was added, its key was neither added nor removed again since, and no overflow of its bucket took it out since |
| KademliaContents.AddedStays | kademlia/routing.go:158-179 | so a contact that was added last for its key and not removed since is there, if its bucket did not overflow |
| KademliaHeap.FirstRanksFirst | kademlia/routing.go:108-114 | the first contact of a heap is the one that started last, and the nearest of those |
| KademliaNode.Node.AddContact | kademlia/routing.go:18-23 | the bucket of the contact has it then, having lost what `AddMeaning` says and no more, no other bucket is changed and the table stays in order; the own key is out of range |
| KademliaNode.Node.Remove | kademlia/routing.go:26-33 | the contact with the key, and no other, is taken out of its bucket, no other bucket is changed and the table stays in order; the own key is out of range |
| KademliaNode.Node.FindClosest | kademlia/routing.go:57-90 | the loop finds the specified contacts |
| KademliaNode.KBucket.AddContact | kademlia/routing.go:158-179 | a known contact is replaced, a new one added, in a full bucket in place of the first; a bucket that is a heap stays one |
| KademliaNode.KBucket.Remove | kademlia/routing.go:133-140 | the contact with the key, and no other, is gone; a bucket that is a heap stays one |

## Left out

- That something must happen, timers, goroutine scheduling, channel buffering and shutdown: steps may come in any order, and the progress results say only what can come next.
- craft: restarts from gob storage, since an election is not stored before votes are requested; the send of a node that stopped leading between the two critical sections of `leaderSendAEs`; 64-bit overflow of terms and indices.
- CraftSafety.ElectionSafety: is about timely runs, like all theorems about runs, because the handlers let harmful late replies through and `TwoLeaders` shows the failure.
- CraftModule.ConsensusModule.constructor: leaves out the branch that restores from storage.
- raft/part1, raft/part3 and raft/part4kv: near copies or simpler forms of what is modelled.
- kvservice: HTTP, subscriptions and the status that a client sees.
- goraft: elections and commitment across a cluster, whose rules differ from craft's; vote and append calls to peers; `advanceCommitIndex`; in-flight requests that share the array of a log that is cut later.
- GoraftServer.Server.Persist: what the file holds after a fatal error on a too long command is not stated, and a crash in the middle of a write is not modelled.
- torrent-client: handshake, trackers and bencoding; in the swarm, whether a peer has a piece is left open at each turn. SHA-1 is any function from bytes to bytes.
- TorrentPeer.AttemptDownloadPiece: what was sent by an attempt that fails is stated of the specified attempt, not of the connection.
- KademliaNode.Node.FindClosest: reads all buckets at one time, where the source gives up the lock between two of them.
- kademlia: pings, which change a contact of the heap in place without restoring the order, so that a bucket need not be a heap; `FewContacts`, `FindSuccessor` and the lookup over the network. The heap steps follow Go's container/heap.
- Hashing, signatures, protobuf, JSON, HTTP and RPC plumbing, the gossip, k7, hraftd and raft-example programs: input and output around the modelled logic.
