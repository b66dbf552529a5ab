# Oba: a verified model of its replication, codecs and small algorithms

Oba is an LDAP directory server that replicates its directory with Raft, talks BER on the wire, and
backs itself up as compressed streams or LDIF text. This project models the parts of it whose
correctness is hardest to see by reading, and proves what they promise. `dafny verify dfyconfig.toml`
checks all of it.

**Raft consensus** (`Raft*.dfy`). `RaftServer` gives every transition of one server as a function,
`RaftNode` gives the same transitions as the program runs them (fields assigned in place, loops over
entries, peers and match indexes) and proves each method against its function. `RaftCluster` puts any
number of servers and a pool of messages together as a transition system: a message may be lost,
delayed, duplicated or reordered. `RaftElection` proves that a term has one leader on every run, with
crashes, although a candidate that steps down forgets its vote and may vote again. `RaftLogInv`,
`RaftLogFrame`, `RaftLogSteps`, `RaftLeaderSteps` and `RaftFollowerSteps` build the invariant behind
`RaftSafety`: log matching, leader completeness, state machine safety, and the soundness of clamping
the commit index to the follower's own log, on every run whose restarts are clean. `RaftRepair` says
exactly when log repair ends. `RaftFile` follows every server's log file through all appends, truncations
and restarts and says exactly when the file gives the log back. `RaftRunSteps` and `RaftRestart` have, for
each of the four conditions of a clean restart, a run that lacks it alone and breaks safety.
`RaftProgress` has the other side of safety: who gets a vote, that any quorum without a leader can elect
one, and that a leader commits the greatest index a majority holds.

**Compressed streams** (`LzBlock`, `LzStream`). The match finder over a hash table, the 255-run length
coding, overlapping copies and 64 KB framing, with the decoder that undoes them, for any hash function.

**BER and LDAP** (`BerFormat`, `BerEncoder`, `BerDecoder`, `LdapMessage`, `LdapCodec`, `LdapFilter`,
`LdapSearch`, `LdapRefusal`). Tags, lengths and integers with their exact ranges (ITU-T X.690 sections 8.1.2, 8.1.3
and 8.3), constructed lengths patched in place under any nesting, the message envelope with its two
forms of controls (RFC 4511 sections 4.1.1 and 4.1.11), and the recursive filter parser
(section 4.5.1.7), with what all of these refuse.

**The replicated state machine** (`EntryCodec`, `RaftCodec`, `ByteReader`, `StateMachine`, `CommandEffects`,
`Replay`, `Machine`, `Snapshot`, `Replicas`). What a committed entry does to the two databases, what a restart
and a replay of the log do, the entry, command, log entry, request and snapshot formats, and the whole
system: servers with the databases they store, on one cluster, never diverge.

**Small algorithms.** Substring matching (`SubstringMatch`), LDIF text (`Ldif`, `LdifFile`, `LdifFolding`; RFC 2849)
and account lockout (`Lockout`).

## Hypotheses

- Raft: each RPC handler, each `replicateTo` send and each `BecomeCandidate`+`SetVotedFor` pair is one
  atomic step. A reply is processed only while its requester has the role and term it had when it sent
  (the code re-checks this only in part: internal/raft/node.go:287, 311, 641). Membership is fixed.
- Raft: the log theorems are about runs whose restarts are clean: the log file has no record past the end
  of the log and none over 10 MB, all of the log is committed, and the term file holds the current term.
  Elections are proved with any restarts. A record of the log file and the term file are each written in
  one step, and only `SetVotedFor` writes the latter in these runs.
- Raft: terms, indexes and identifiers are below 2^64, and a command is short enough for its entry to have
  a 32-bit length, where requests are followed over the wire.
- Storage engines are maps from DN to attributes. Their answers to Put and Delete are arbitrary
  deterministic functions of the map; Begin and Commit succeed. Configuration and ACL commands do not
  touch the databases.
- Letters are lowered, and blanks trimmed, as ASCII. Base64 is any coding with an inverse whose text has
  no blanks. Clock values are integers.
- Go's `int` is taken as unbounded where the code cannot reach its limit; every truncating conversion
  (length prefixes, octets of a length) is written out.

## Findings

Properties that turned out false are stated with an input that shows it and the condition under which
they hold.

- Log repair does not always end. A leader sends its whole tail, a request with more than 10000 entries is
  refused as corrupted, and backing off makes the next one longer (`RaftRepair.NeverEnds`,
  `RaftRepair.StuckFollower`). Repair converges if and only if the request that would be accepted carries at
  most 10000 entries (`RaftRepair.RepairConverges`).
- State machine safety fails across restarts that are not clean. A truncation leaves the log file alone, so
  reloading brings the truncated entries back (`RaftRestart.TailMustBeGone`). A record over 10 MB ends the
  reading (`RaftRestart.RecordsMustBeLegible`). Reloading takes the whole log for committed
  (`RaftRestart.AllMustBeCommitted`) and brings back the term of the last vote, so that a stale request can
  drop a committed entry (`RaftRestart.TermMustBeSaved`). A log without records over 10 MB comes back if and
  only if no record lies past its end (`RaftFile.LogComesBack`).
- A replay is invisible exactly when the log engine still refuses what it refused before
  (`Replay.ReplayInvisible`, for all runs `Replay.SoundExactly`); `Replay.ReplayVisible` has the input that
  shows it otherwise.
- A restore passes over failed deletes, and what they left stays (`Snapshot.ResidueStays`). An empty blob
  leaves the old one in place (`Snapshot.CarriedIsSource`). A section without a taker is not skipped
  (`Snapshot.MisalignedShows`).
- A ModifyDN is applied although its delete met a write conflict, and leaves the entry under both names
  (`CommandEffects.OldNameStays`). The old name is gone if and only if it was not there or its delete was
  answered with success (`CommandEffects.RenameDoes`).
- From 2^32 octets on, a deferred length loses its high part (`BerEncoder.PatchedExactly`).
- A plain value that ends in a space comes back without it (`Ldif.ValueRoundTrip`, `Ldif.FileRoundTrip`).
- A folded DN and a folded comment are not joined: the fold shows if and only if text follows it
  (`LdifFolding.FoldedDn`, `LdifFolding.FoldedComment`). Every other line may be folded anywhere
  (`LdifFolding.FoldingInvisible`). Base64 behind "Dn" or "dN" is not decoded (`LdifFolding.AnyCodedDn`).
- With a clock that goes back, the pruned list can count too many failures (`Lockout.ClockGoingBack`) or too
  few (`Lockout.ClockGoingBackInside`). It is right exactly on regular histories (`Lockout.ListExact`).
- The final test for a missing sign bit in `encodeInteger` (internal/ber/encoder.go:202-204) never fires, as
  `BerEncoder.EncodeNegative` asserts.

## Model

| member | source | states |
|---|---|---|
| `RaftElection.ElectionSafety` | internal/raft/node.go:257-375 | At no two moments of any run, with crashes and restarts anywhere, do two servers lead the same term |
| `RaftElection.DoubleVoteIsHarmless` | internal/raft/node.go:477-483 | A server never votes for two others in one term, and one that votes for itself and for another never leads that term |
| `RaftElection.NextKeeps` | internal/raft/state.go:407-434 | Every action, restarts included, keeps the election invariant |
| `RaftElection.RestartKeeps` | internal/raft/state.go:150-178 | Reloading the term file keeps the election invariant although only vote writes update the file |
| `RaftElection.FreshTerm` | internal/raft/node.go:297-318 | Nobody can have won the term in which a candidate gathers its majority |
| `RaftSafety.LogMatching` | internal/raft/node.go:486-524 | Two logs, at any two moments of a run, that share an entry of equal index and term agree up to it; entries sit at their index and terms never fall |
| `RaftSafety.LeaderCompleteness` | internal/raft/node.go:443-458 | Whatever any server has committed is in the log of every server that leads the same or a later term from then on |
| `RaftSafety.StateMachineSafety` | internal/raft/node.go:664-698 | No two servers, at any two moments, differ at an index both have committed |
| `RaftSafety.AppliedPrefixes` | internal/raft/node.go:827-896 | Of any two sequences of applied entries one is a prefix of the other |
| `RaftSafety.CommittedForever` | internal/raft/node.go:511-533 | The commit index never falls or passes the end of the log, the apply loop never passes it, and no truncation removes a committed entry |
| `RaftSafety.CommitClamp` | internal/raft/node.go:526-533 | Every request ever sent covers its own leaderCommit, so accepting it, however late or often, commits exactly the larger of leaderCommit and the follower's commit index, on entries that are the leader's |
| `RaftSafety.RequestOk` | internal/raft/node.go:615-634 | A request carries the leader's whole tail and so reaches past its commit index |
| `RaftSafety.NextKeeps` | internal/raft/node.go:244-698 | Every action keeps the log invariant, a restart if it is clean |
| `RaftSafety.RestartStep` | internal/raft/state.go:150-178 | A restart from the log file, with no record past the log's end and none too long, all of the log committed and the term on disk, keeps the log invariant |
| `RaftProgress.VoteExactly` | internal/raft/node.go:426-461 | For every server and request, a vote is granted if and only if the term is not over, its vote is free or the candidate's, and the candidate's last entry has a later term, or the same and an index no lower; and then it is in memory and on disk |
| `RaftProgress.Electable` | internal/raft/node.go:446-453 | Of any two logs one passes the other's test, so every set of servers has a member for whom all of them would vote in any term new to them |
| `RaftProgress.QuorumElects` | internal/raft/node.go:244-375 | From any state, a quorum in which nobody leads can elect one of its members by its own steps, in a term new to all of them |
| `RaftProgress.NoDeadEnd` | internal/raft/node.go:244-375 | So every run goes on to one in which that quorum has a leader |
| `RaftProgress.CommitsGreatest` | internal/raft/node.go:664-698 | The new commit index is the greatest index above the old one that has an entry of the leader's term and is held by a majority, or the old one if there is none |
| `RaftProgress.AnswerCommits` | internal/raft/node.go:641-661 | That holds after every successful answer, with the peer's index counted |
| `RaftProgress.ProposalCommits` | internal/raft/node.go:773-800 | And after every new command |
| `RaftProgress.AppendExactly` | internal/raft/node.go:463-537 | A request is accepted if and only if its term is not over and it continues the log; a refusal changes no log and names one past the log, or the start of the stretch whose term differs |
| `RaftProgress.RefusalSkipsTerm` | internal/raft/node.go:651-660 | After a refusal the leader's next request starts at the beginning of that stretch |
| `RaftFile.LogComesBack` | internal/raft/log.go:604-671 | On every run, with any restarts: if no record is over 10 MB, the file gives the log back if and only if no record lies past the end of the log; if an entry of the log is over 10 MB, it does not; and no log that is read has a gap |
| `RaftFile.NextFiles` | internal/raft/log.go:717-801 | Every action, restarts included, keeps log and file in that relation |
| `RaftFile.FileAppendNew` | internal/raft/node.go:511-524 | So does the append loop, which truncates the log but not the file |
| `RaftFile.TruncatedComesBack` | internal/raft/log.go:647-664 | A truncated record is read back behind the entry that replaced its predecessor |
| `RaftLogInv.Completeness` | internal/raft/node.go:443-458 | An entry of term t that a majority acknowledged in term t is in the log of every leader elected later |
| `RaftLogInv.UpToDateKeeps` | internal/raft/node.go:446-453 | A voter that holds the entry, and the up-to-date test it made, put the entry in the candidate's log if every leader in between had it |
| `RaftLogs.AppendMerges` | internal/raft/node.go:511-524 | The append loop leaves the log alone or makes it exactly the sent prefix of the leader's log, and loses nothing that agreed with it |
| `RaftLeaderSteps.CommitSearchFinds` | internal/raft/node.go:678-697 | The downward search finds nothing, or an index of the current term that a majority holds |
| `RaftLeaderSteps.CommitKeeps` | internal/raft/node.go:664-698 | Committing by the majority-and-current-term rule keeps the log invariant |
| `RaftFollowerSteps.AcceptCommits` | internal/raft/node.go:526-533 | What the follower commits on accepting a request is backed by a majority, and nothing committed is taken back |
| `RaftFollowerSteps.CommittedInLeader` | internal/raft/node.go:511-533 | What some leader committed in an earlier or the same term is in this leader's log |
| `RaftFollowerSteps.ConflictIndexBounds` | internal/raft/node.go:496-507 | The backward scan stops at the start of a run of equal terms, no further up than it began and never at 0 |
| `RaftRepair.RepairConverges` | internal/raft/node.go:615-661 | Over the wire, repair ever brings the follower's log to extend the leader's, with matchIndex the leader's last index, if and only if the request that would be accepted without a limit carries at most 10000 entries, and then within nextIndex exchanges |
| `RaftRepair.NeverEnds` | internal/raft/rpc.go:126-130 | Once a request is longer, no number of exchanges changes the follower or matchIndex, and every later request is longer too |
| `RaftRepair.ShortLogReaches` | internal/raft/rpc.go:126-130 | A leader log of at most 10000 entries always reaches the follower |
| `RaftRepair.LackingTooMany` | internal/raft/rpc.go:126-130 | A follower that lacks an entry further back than the leader's last 10000 is never repaired |
| `RaftRepair.StuckFollower` | internal/raft/node.go:463-467 | A leader with 10001 entries and an empty follower, whatever nextIndex, that no number of exchanges repairs |
| `RaftRepair.FailureBacksOff` | internal/raft/node.go:651-660 | A failed exchange leaves both logs and matchIndex and strictly lowers nextIndex, never below 1, unless the request is undecodable and starts at 1, when nothing changes |
| `RaftRepair.SuccessRepairs` | internal/raft/node.go:646-650 | One accepted exchange brings the follower's log to extend the leader's, and the leader knows it |
| `RaftRepair.ReachableRepairable` | internal/raft/node.go:615-634 | In every run with clean restarts, every leader whose numbers and commands fit the wire format satisfies the conditions of the repair theorem towards every follower not ahead in term, and repairs it if its log has at most 10000 entries |
| `RaftRestart.AllMustBeCommitted` | internal/raft/state.go:163 | A run of three servers whose restarts keep files and term but reload uncommitted entries as committed, and two servers differ at a committed index |
| `RaftRestart.TermMustBeSaved` | internal/raft/state.go:155-161 | A run of five servers with one restart, of a server whose whole log is committed but whose term file is old, after which a stale request drops a committed entry |
| `RaftRestart.TailMustBeGone` | internal/raft/log.go:795-801 | A run of three servers with one restart, of a server that is wholly committed with its term saved, whose truncated command comes back from its file as committed where another server has committed something else |
| `RaftRestart.RecordsMustBeLegible` | internal/raft/log.go:629-632 | A run of one server that commits a command too long for its file, restarts without it and commits something else in its place |
| `RaftRunSteps.BreaksLacks` | internal/raft/state.go:150-178 | Each such run does restart a server that lacks the condition in question |
| `RaftNode.Node.constructor` | internal/raft/state.go:105-118 | A new node is the server every run starts from |
| `RaftNode.Node.FromDisk` | internal/raft/state.go:121-178 | A restarted node is the server the reload transition makes of the files, and lastApplied never passes the log |
| `RaftNode.RaftLog.FromFile` | internal/raft/log.go:572-601 | A log opened on the bytes that appends have written holds what loading the records gives |
| `RaftNode.RaftLog.Append` | internal/raft/log.go:717-748 | An append adds the entry to the log and its record to the file |
| `RaftNode.Node.StartElection` | internal/raft/node.go:244-255 | Does the candidate transition that `RaftElection` reasons about |
| `RaftNode.Node.InitLeaderState` | internal/raft/state.go:393-404 | Whatever order the peers are walked in, every peer gets nextIndex one past the log and matchIndex 0 |
| `RaftNode.Node.BecomeLeader` | internal/raft/node.go:357-375 | Does the transition to leader with its no-op entry |
| `RaftNode.Node.CountVote` | internal/raft/node.go:297-318 | Counts a vote and becomes leader exactly at a majority |
| `RaftNode.Node.HandleRequestVote` | internal/raft/node.go:426-461 | State and reply are those of the vote transition of the safety proofs |
| `RaftNode.Node.FindConflict` | internal/raft/node.go:498-507 | The scan returns the conflict index of the repair proof |
| `RaftNode.Node.AppendEntries` | internal/raft/node.go:511-524 | The loop that truncates and appends in place makes the merged log, and writes to the file exactly what it adds |
| `RaftNode.Node.HandleAppendEntries` | internal/raft/node.go:463-537 | On the bytes of a request, state and reply are those of the append transition, and what cannot be decoded changes nothing |
| `RaftNode.Node.CountReplicas` | internal/raft/node.go:683-690 | Counts exactly the servers whose match index reaches idx, in whatever order the map is walked |
| `RaftNode.Node.UpdateCommitIndex` | internal/raft/node.go:664-698 | The loop, single-node case included, commits what the downward search finds |
| `RaftNode.Node.HandleAppendReply` | internal/raft/node.go:641-661 | Next and match indexes move as in the repair proof |
| `RaftNode.Node.AppendCommand` | internal/raft/node.go:773-800 | A leader appends the command at the index returned and updates its commit index; others change nothing |
| `RaftCodec.EntryRoundTrip` | internal/raft/log.go:29-59 | A log entry comes back, whatever follows it, exactly when its command is under 2^32 bytes |
| `RaftCodec.ArgsRoundTrip` | internal/raft/rpc.go:88-154 | A request comes back whole exactly when it has at most 10000 entries, and is refused otherwise |
| `RaftCodec.FileRoundTrip` | internal/raft/log.go:614-653 | The bytes of a log file are read as its records up to the first over 10 MB |
| `RaftCodec.LoadFromDisk` | internal/raft/log.go:604-671 | On any bytes, the map of last records and the loop that fills the log from it yield the last record of every index, or an error |
| `RaftCodec.CommandRoundTrip` | internal/raft/log.go:400-499 | A command comes back exactly when its strings are under 65536 bytes and its payloads under 2^32 |
| `RaftCodec.OldFormatRead` | internal/raft/log.go:483-496 | Commands written without configuration and ACL payloads are read with none |
| `RaftCodec.SentIsReceived` | internal/raft/node.go:463-467 | A request sent over the wire does what the cluster model says, up to the refusal of more than 10000 entries |
| `RaftCodec.SerializeEntry` | internal/raft/log.go:29-41 | The fixed buffer, filled field by field, holds the entry's bytes |
| `RaftCodec.SerializeArgs` | internal/raft/rpc.go:88-109 | The loop writes the bytes of the request |
| `RaftCodec.DeserializeArgs` | internal/raft/rpc.go:112-154 | The reader's loop yields what the bytes say, or corruption |
| `RaftCodec.DeserializeCommand` | internal/raft/log.go:445-499 | The reads yield what the bytes say, with the optional fields empty when missing |
| `ByteReader.BlobBack` | internal/raft/log.go:503-551 | A length-prefixed string within its prefix comes back, whatever follows it |
| `ByteReader.Reader.ReadPrefixed` | internal/raft/log.go:512-551 | A short read fails and consumes what there is |
| `EntryCodec.DataRoundTrip` | internal/raft/statemachine.go:601-696 | An entry comes back, for every iteration order of its attribute map, exactly when it is within the length prefixes |
| `EntryCodec.ParsedFits` | internal/raft/statemachine.go:632-696 | No bytes decode to an entry beyond the length prefixes |
| `EntryCodec.SerializeEntry` | internal/raft/statemachine.go:601-629 | The loop writes every attribute once, in some order, and the result decodes to the entry exactly when it is within the prefixes |
| `EntryCodec.DeserializeEntry` | internal/raft/statemachine.go:632-696 | The nested loops yield what the bytes say, or corruption |
| `StateMachine.FatalChangesNothing` | internal/raft/statemachine.go:177-248 | A fatal command leaves both databases as they were |
| `CommandEffects.PutDoes` | internal/raft/statemachine.go:189-209 | From the bytes of a put to the databases as maps: skipped, applied, rejected or fatal exactly as there and as answered; applied, it sets its DN to exactly its attributes and touches nothing else; otherwise nothing changes |
| `CommandEffects.BadPut` | internal/raft/statemachine.go:191-195 | A put whose entry cannot be decoded is fatal and changes nothing |
| `CommandEffects.DeleteDoes` | internal/raft/statemachine.go:211-220 | A delete removes exactly its DN if answered with success, and otherwise nothing; the log database ignores it |
| `CommandEffects.RenameDoes` | internal/raft/statemachine.go:222-238 | An applied ModifyDN sets the new DN and touches no DN but the two; the old one is gone if and only if it was not there or its delete succeeded; any other result changes nothing |
| `CommandEffects.OldNameStays` | internal/raft/statemachine.go:225-229 | An input on which the old name stays |
| `CommandEffects.SideDoes` | internal/raft/statemachine.go:165-172 | Configuration and ACL commands leave the databases alone; a refused or unknown one stops the log |
| `CommandEffects.BadCommand` | internal/raft/node.go:854-890 | So is an entry whose command cannot be decoded |
| `CommandEffects.PassedOver` | internal/raft/statemachine.go:178-183 | Without a log engine its commands change nothing and do not stop the log |
| `CommandEffects.OnlyAppliedChanges` | internal/raft/statemachine.go:239-244 | Whatever its bytes, an entry that is not applied changes nothing, and none changes both databases |
| `StateMachine.Independent` | internal/raft/statemachine.go:146-157 | Neither database is affected by what the other holds |
| `StateMachine.LogGrows` | internal/raft/statemachine.go:195-218 | No put or delete ever removes or changes an entry of the log database |
| `Replay.ReplayInvisible` | internal/raft/cluster.go:154-164 | Clearing main and applying the log again over the surviving log database gives back both databases without blocking, if and only if the log engine would still refuse every put whose DN never got in |
| `Replay.EveryRunSound` | internal/raft/node.go:827-896 | On every run with crashes anywhere, lastApplied names exactly the prefix in the main database, the log database holds the longest prefix ever applied, and a node that has caught up is where an uninterrupted one is |
| `Replay.SoundExactly` | internal/raft/cluster.go:154-164 | Every run is sound and no replay ever blocks if and only if the log engine keeps refusing what it refused before |
| `Replay.FatalBlocks` | internal/raft/node.go:882-890 | No run, restarted however often, gets past an entry that is fatal in its turn |
| `Replay.ReplayVisible` | internal/raft/statemachine.go:251-267 | A log engine that once reports too many nodes makes an entry appear after a restart |
| `Replicas.StoredIsApplied` | internal/raft/node.go:827-896 | On every run of cluster and databases, with replays after restarts, the main database of every server is its applied committed entries folded into the empty directory, none of them fatal, and once a replay is over so is its log database |
| `Replicas.ReplicasAgree` | internal/raft/node.go:827-896 | Two servers that have applied equally many entries, at whatever two moments, store the same main database, and the same databases if neither is replaying; one that is behind stores what the other stored there |
| `Replicas.FatalStopsAll` | internal/raft/node.go:854-890 | If one server that is not replaying is stopped in front of a fatal entry, no server at any moment of the run has ever applied that entry |
| `Machine.SameAttributes` | internal/raft/statemachine.go:286-308 | The comparison loop decides equality of attribute maps |
| `Machine.Database.ApplyCommand` | internal/raft/statemachine.go:177-248 | The branches, with rollback, do what the command means |
| `Machine.Applier.Round` | internal/raft/node.go:839-892 | A round folds in exactly the entries lastApplied counts and stops early only at the end of the log or in front of a fatal entry |
| `Machine.Applier.constructor` | internal/raft/cluster.go:154-164 | A start clears main, keeps the log database and resets lastApplied |
| `Snapshot.EngineRoundTrip` | internal/raft/statemachine.go:408-598 | Whatever the engine held and however the source is listed, the restore runs to its end if and only if the engine accepts the entries over what its deletes left, and the result is the source if and only if nothing is left that the source does not have |
| `Snapshot.LeftExactly` | internal/raft/statemachine.go:555-565 | What the deletes leave is exactly the entries refused every time their turn came, as they were; an unlisted DN is never touched, and an engine that lists all and deletes what is there is left empty |
| `Snapshot.RestoreIsSource` | internal/raft/statemachine.go:525-598 | Such an engine, if it accepts the entries, has exactly the source afterwards, whatever it held |
| `Snapshot.MachineIsSource` | internal/raft/statemachine.go:348-522 | So has a whole machine with everything wired, if no empty blob meets one that is not |
| `Snapshot.MainOnly` | internal/raft/statemachine.go:478-482 | A snapshot that ends after the main database restores that and leaves the rest |
| `Snapshot.FirstVersion` | internal/raft/statemachine.go:494-496 | Before version 2 both databases are restored and nothing after them is looked at |
| `Snapshot.SnapshotRoundTrip` | internal/raft/statemachine.go:348-522 | For any two wirings in which no section without a taker stands before one with a taker, the restore ends well if and only if the engines accept the entries, and then carries over exactly what both machines have a place for |
| `Snapshot.CarriedIsSource` | internal/raft/statemachine.go:441-522 | Between fully wired machines that is the source if and only if the deletes left nothing else and no empty blob met one that is not |
| `Snapshot.MisalignedShows` | internal/raft/statemachine.go:471-520 | For any two wirings that do not align there is a snapshot whose restore is not what was carried over |
| `Snapshot.ResidueStays` | internal/raft/statemachine.go:555-565 | An engine that refuses deletes keeps its old entries beside the restored ones |
| `Snapshot.SnapshotEngine` | internal/raft/statemachine.go:408-440 | The loop writes every entry of the database once |
| `Snapshot.RestoreDatabase` | internal/raft/statemachine.go:525-598 | Deletes, then puts, exactly as far as the data and the engine allow |
| `LzBlock.Compress` | internal/backup/compress.go:159-199 | For any input and any hash function the block decodes to the input and is at most len + len/255 + 16 bytes; for a hash of four bytes, a block of equal bytes takes at most len/64 + 20 |
| `LzBlock.ExpandsNext` | internal/backup/compress.go:170-190 | A match, overlapping or not, continues the text it was found in |
| `LzBlock.SequenceSize` | internal/backup/compress.go:225-270 | A sequence never costs more than the bytes it stands for plus one per 255 literals |
| `LzBlock.LengthRoundTrip` | internal/backup/compress.go:225-270 | A length split into a nibble and 255-runs is read back, whatever follows |
| `LzBlock.FindMatchLength` | internal/backup/compress.go:211-222 | The match returned is a true one and cannot be extended |
| `LzBlock.EncodeLiteralsAndMatch` | internal/backup/compress.go:225-270 | Appends the encoding of exactly these literals and this match |
| `LzBlock.Decompress` | internal/backup/compress.go:395-466 | On any bytes the loop stays in bounds and computes what they decode to |
| `LzBlock.CutLiterals` | internal/backup/compress.go:395-466 | Literals of which some are missing are left out |
| `LzBlock.BadOffset` | internal/backup/compress.go:395-466 | A copy from before the text is passed over |
| `LzBlock.AppendMatch` | internal/backup/compress.go:452-463 | The byte-by-byte copy may read what it has just written |
| `LzStream.StreamRoundTrip` | internal/backup/compress.go:364-392 | A closed stream reads back as the texts of its blocks, in order |
| `LzStream.Transfer` | internal/backup/compress.go:58-146 | For every chunking into writes, every sequence of read sizes and every hash function, the bytes read are exactly the bytes written, as many as were asked for |
| `LzStream.Backup` | internal/backup/compress.go:202-208 | The same with the program's own hash |
| `LzStream.CompressWriter.Write` | internal/backup/compress.go:58-88 | Accepts all of p across any number of blocks, or nothing once closed |
| `LzStream.CompressWriter.Close` | internal/backup/compress.go:127-146 | Flushes what is buffered and ends the stream |
| `LzStream.DecompressReader.Read` | internal/backup/compress.go:327-361 | Delivers the next bytes of the text and falls short only when nothing is left |
| `BerFormat.TagRoundTrip` | internal/ber/decoder.go:47-102 | A tag is read back exactly when its number shifted right by 7 is at most 2^24 |
| `BerFormat.LengthRoundTrip` | internal/ber/decoder.go:106-146 | A length is read back exactly when it, shifted right by 8, is at most 2^24 |
| `BerFormat.IntegerRoundTrip` | internal/ber/decoder.go:238-261 | Every integer decodes back from its octets |
| `BerFormat.IntegerMinimal` | internal/ber/encoder.go:177-221 | The first nine bits of the octets are never all alike |
| `BerFormat.Int64Length` | internal/ber/encoder.go:177-221 | Every int64 takes at most eight octets |
| `BerEncoder.EncodeInteger` | internal/ber/encoder.go:177-221 | The shifting loops yield the minimal two's complement octets of every int64 |
| `BerEncoder.EncodeBase128` | internal/ber/encoder.go:81-102 | Groups collected backwards and written in reverse are the base-128 digits |
| `BerEncoder.EncodeLength` | internal/ber/encoder.go:106-140 | The counting and shifting loops yield the minimal length octets |
| `BerEncoder.FixupKeeps` | internal/ber/encoder.go:381-431 | Whatever the content's size, patching replaces the reserved octets and keeps everything before and after them |
| `BerEncoder.PatchedExactly` | internal/ber/encoder.go:381-431 | The patched octets are the minimal length encoding if and only if the content is under 2^32 octets |
| `BerEncoder.LayoutClosed` | internal/ber/encoder.go:286-431 | Under any nesting, patching the innermost length leaves every open element and its reserved place where they were |
| `BerEncoder.WrapIsElement` | internal/ber/encoder.go:286-302 | An element begun, filled and ended is the element written with a direct length |
| `BerEncoder.Encoder.Begin` | internal/ber/encoder.go:286-372 | Opens an element and returns where its length goes |
| `BerEncoder.Encoder.End` | internal/ber/encoder.go:381-431 | Refuses exactly a position without room for the reserved octets, patches the buffer at any other, and at the innermost element's position makes that element content of the one around it |
| `BerEncoder.Encoder.WriteTag` | internal/ber/encoder.go:51-78 | Refuses exactly a bad class or a negative number, and then writes nothing |
| `BerEncoder.Encoder.WriteLength` | internal/ber/encoder.go:106-140 | Refuses exactly a negative length or one of more than 127 octets |
| `BerDecoder.Decoder.ReadTag` | internal/ber/decoder.go:47-76 | Moves past exactly the tag; on failure stays inside the buffer and does not move back |
| `BerDecoder.Decoder.ReadLength` | internal/ber/decoder.go:106-146 | Moves past exactly the length, or fails inside the buffer |
| `BerDecoder.Decoder.DecodeOctets` | internal/ber/decoder.go:238-261 | The sign-extending loop yields the two's complement value |
| `BerDecoder.Decoder.PeekTag` | internal/ber/decoder.go:390-395 | Reads the tag and leaves the position |
| `BerDecoder.Decoder.ReadTaggedValue` | internal/ber/decoder.go:457-495 | Takes a whole context-specific element, at least two octets, or fails inside the buffer |
| `BerDecoder.Decoder.Expect` | internal/ber/decoder.go:544-577 | Succeeds only on the expected header with all of its content present |
| `BerDecoder.IntegerElementRoundTrip` | internal/ber/encoder.go:161-174 | Every int64 element is read back, whatever follows it |
| `LdapMessage.MessageRoundTrip` | internal/ldap/message.go:18-113 | Every message the encoder accepts, under 2^32 octets and followed by anything, parses to itself if and only if its operation tag is within the decoder's range |
| `LdapMessage.ControlsBack` | internal/ldap/message.go:117-191 | A non-empty list of controls in a wrapping SEQUENCE is recognised and read back |
| `LdapMessage.BareControlsBack` | internal/ldap/message.go:151-174 | The same list without the wrapper is told apart and read back |
| `LdapMessage.ControlBack` | internal/ldap/message.go:201-244 | A control comes back whichever of its optional parts it has, whatever follows it |
| `LdapCodec.Encode` | internal/ldap/message.go:247-291 | Refuses a bad ID or a missing operation, and otherwise writes the octets of the message |
| `LdapCodec.Parse` | internal/ldap/message.go:18-113 | On any octets, driving decoders over slices yields what the envelope says |
| `LdapCodec.ReadControls` | internal/ldap/message.go:117-191 | The two loops, one strict and one that gives up silently, yield the list the octets say |
| `LdapCodec.Exchange` | internal/ldap/message.go:18-291 | Encoding and then parsing as the program does returns the message |
| `LdapFilter.FilterRoundTrip` | internal/ldap/search.go:259-352 | Every filter of RFC 4511, nested anyhow and followed by anything, parses to itself from its octets |
| `LdapFilter.NodesBounded` | internal/ldap/search.go:259-352 | On any octets the tree has at most one node per two octets consumed |
| `LdapFilter.PartsBack` | internal/ldap/search.go:355-393 | Substring components come back in order, each optional one as it was |
| `LdapSearch.ReadFilter` | internal/ldap/search.go:259-352 | The recursive parser ends on every input, stays in its buffer, takes what the grammar says and keeps the node bound |
| `LdapRefusal.MessageCut` | internal/ber/decoder.go:544-577 | No proper prefix of a message is taken for a message |
| `LdapRefusal.FilterCut` | internal/ber/decoder.go:457-495 | No proper prefix of a filter is taken for a filter |
| `LdapRefusal.TakenFilters` | internal/ldap/search.go:259-352 | On any octets, a filter that is taken begins with one of the ten tags in its form and is the filter of that tag |
| `LdapRefusal.TakenMessages` | internal/ldap/message.go:18-113 | On any octets, a message that is taken is a whole SEQUENCE with an ID from 0 to 2^31 - 1 and an operation of the application class |
| `LdapRefusal.AnyBoolean` | internal/ber/decoder.go:149-190 | A BOOLEAN is read if and only if it has one octet, true unless zero |
| `LdapRefusal.AnyInteger` | internal/ber/decoder.go:193-234 | An INTEGER is read if and only if it has one to eight octets |
| `LdapRefusal.AnyOctets` | internal/ber/decoder.go:264-307 | An OCTET STRING is read if and only if it is primitive |
| `LdapRefusal.Indefinite` | internal/ber/decoder.go:106-146 | A length in indefinite form is refused |
| `LdapRefusal.EmptyControls` | internal/ldap/message.go:117-191 | An empty controls element has no controls |
| `LdapRefusal.OperationForm` | internal/ldap/message.go:294-309 | Operations are constructed but for unbind, delete and abandon |
| `LdapRefusal.UnknownPart` | internal/ldap/search.go:355-393 | A substring component other than the three is refused |
| `LdapRefusal.RuleComponent` | internal/ldap/search.go:404-429 | The DN flag is set by any octet but zero, and unknown components are skipped |
| `SubstringMatch.MatchSubstring` | internal/filter/match.go:21-57 | Returns true if and only if some ordered placement of the parts, none overlapping, exists in the lowered value |
| `SubstringMatch.FirstIsEarliest` | internal/filter/match.go:36-46 | Taking the first occurrence ends no later than any placement |
| `SubstringMatch.NoPlacement` | internal/filter/match.go:41-44 | A part not found after the earliest end rules out every placement |
| `Lockout.LockedByHistory` | internal/password/lockout.go:80-95 | On every regular history an account is locked exactly when the latest threshold-reaching failure since the last unlock, if it is not at the zero time, is within the lockout duration, or locks are permanent |
| `Lockout.ListExact` | internal/password/lockout.go:44-68 | On any history, the list is right after every event if and only if at every failure no old time hides behind a newer one and no failure that had left the window lies in the new one |
| `Lockout.MonotoneRegular` | internal/password/lockout.go:44-68 | A clock that does not go back is enough for that |
| `Lockout.ListRefines` | internal/password/lockout.go:44-68 | With such a clock the pruned list is the failures since the last success or unlock inside the window of the latest one |
| `Lockout.PruneExact` | internal/password/lockout.go:64-68 | Dropping from the front leaves exactly the window if and only if no old time hides behind a newer one |
| `Lockout.ClockGoingBack` | internal/password/lockout.go:44-60 | A run with a clock that goes back locks an account that has too few failures in the window |
| `Lockout.ClockGoingBackInside` | internal/password/lockout.go:44-60 | Another leaves an account open that has enough |
| `Lockout.AccountLockout.IsLockedAt` | internal/password/lockout.go:80-95 | Answers from one lock time what the whole history says |
| `Lockout.AccountLockout.FailureCountAt` | internal/password/lockout.go:125-141 | Asked no earlier than the last failure, counts over the pruned list what lies in the window of the whole history |
| `Lockout.AccountLockout.RecordFailureAt` | internal/password/lockout.go:44-60 | Adds the failure to the history the state stands for |
| `Ldif.FileRoundTrip` | internal/backup/ldif.go:260-339 | Any list of entries with names, value lists and line lengths the format can carry, written with attributes in any order, parses back with values in order, each without the spaces plain text ended in; as it was if and only if no value or DN is plain text ending in a space |
| `LdifFolding.FoldingInvisible` | internal/backup/ldif.go:274-301 | Any text, well-formed or not, with its lines other than DN lines and comments broken anywhere and comments between them, is read or refused like the text unfolded |
| `LdifFolding.FoldedRoundTrip` | internal/backup/ldif.go:260-339 | So the round trip holds for every folded text of the entries, with values of any length |
| `LdifFolding.FoldedDn` | internal/backup/ldif.go:308-314 | Where a DN line would be read, folding it is invisible if and only if nothing follows the fold |
| `LdifFolding.FoldedComment` | internal/backup/ldif.go:274-292 | Inside an entry, folding a comment is invisible if and only if nothing follows the fold |
| `LdifFolding.ReturnsInvisible` | internal/backup/ldif.go:265-271 | Lines may end in a carriage return and a line break |
| `LdifFolding.LongLineRefused` | internal/backup/ldif.go:334-336 | A text with a line over the scanner's limit is refused, whatever else is in it |
| `LdifFolding.AnyValueLine` | internal/backup/ldif.go:367-397 | Any value line: the name lowered, base64 behind a second colon, and an error without a colon |
| `LdifFolding.AnyDnStarts` | internal/backup/ldif.go:308-310 | "dn:" in any case starts an entry |
| `LdifFolding.AnyPlainDn` | internal/backup/ldif.go:355-358 | A plain DN is read alike behind "dn" in any case |
| `LdifFolding.AnyCodedDn` | internal/backup/ldif.go:344-354 | A base64 DN is decoded behind "dn" and "DN" only |
| `LdifFolding.TrimExactly` | internal/backup/ldif.go:357-394 | Trimming takes the blanks off both ends and nothing else |
| `LdifFolding.WrittenPlain` | internal/backup/ldif.go:147-175 | A value is written as it is if and only if it is a SAFE-STRING of RFC 2849 without control characters |
| `Ldif.ValueRoundTrip` | internal/backup/ldif.go:367-397 | A value comes back from its line if and only if it is not plain text ending in a space |
| `Ldif.DnRoundTrip` | internal/backup/ldif.go:342-364 | A DN line starts an entry and gives back its DN, plain or base64, without the spaces plain text ended in |
| `Ldif.OrdinaryLine` | internal/backup/ldif.go:273-316 | A value line is never taken for a continuation, a comment, an empty line or a DN |
| `Ldif.SplitText` | internal/backup/ldif.go:265-271 | The scanner recovers the lines that were written |
| `LdifFile.SortNames` | internal/backup/ldif.go:123-139 | The in-place insertion sort computes the sorted list |
| `LdifFile.SortSorts` | internal/backup/ldif.go:123-139 | That list is sorted and a permutation |
| `LdifFile.OrderUnique` | internal/backup/ldif.go:97-98 | So an entry has one text, whatever order its map is walked in |
| `LdifFile.WriteEntry` | internal/backup/ldif.go:85-120 | The loops write the lines of the entry with its attributes in sorted order |
| `LdifFile.WriteFile` | internal/backup/ldif.go:406-414 | What it writes parses back to the entries it was given if and only if no value or DN is plain text ending in a space |
| `LdifFile.NeedsEncoding` | internal/backup/ldif.go:147-175 | The scan decides exactly whether a value must be base64 |
| `LdifFile.ParseText` | internal/backup/ldif.go:260-339 | The line loop, with its pending line and its entry, yields what the text says |

## Left out

- InstallSnapshot, sendSnapshotTo and TruncateBefore: nothing calls the sender, and dropping a prefix changes what an index means.
- Restarts that are not clean, in the log theorems: those theorems are false there (see the runs of `RaftRestart`).
- Goroutine interleavings inside a handler, timers, the TCP transport and mutexes: abstracted by atomic steps.
- Which command a proposal's result acknowledges: pending proposals are keyed by index only.
- RequestVote and reply messages on the wire: fixed fields of the kind `RaftCodec` already has.
- Configuration and ACL commands, beyond whether they are accepted: their managers are not part of this model.
- Storage engine, B+ tree, MVCC, schema, server, backend, ACL, configuration, REST, web and command-line packages: not part of this model.
- Filter evaluation other than substrings, the query optimizer and its plans: the executor is not part of this model.
- Full and incremental backups, checksums, encryption and file I/O.
- `ReadEnumerated`, `ReadNull`, `Skip`, `ReadRawValue`, `ExpectSet` and the search request around the filter: the same reads again.
- BerDecoder.Decoder.ReadSequenceContents: returns the content where the code returns a decoder over it; callers make the decoder.
- LdapCodec.Encode: says nothing of messages of 2^32 octets or more, whose lengths are cut (see `BerEncoder.PatchedExactly`).
- RaftFile.LogComesBack: says nothing of an overlong record that has been truncated from the log again.
- RaftNode.RaftLog.FromFile: appends after an overlong record go to the end of the file, where the code overwrites that record; neither is ever read back.
- Ldif.FileRoundTrip: which names outside its condition also survive is not characterised.
- Replicas.ReplicasAgree: with restarts, for clean ones and committed entries whose replay is invisible (see `Replay.ReplayInvisible`).
- Replay.ReplayInvisible: for logs without a ModifyDN on the log database, which the cluster never sends (internal/raft/cluster.go:257-276).
- Unicode case folding and trimming.
