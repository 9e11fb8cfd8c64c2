# PunMonitor: verified model

PunMonitor is a remote-monitoring agent and server. Its nodes elect a leader through a file in a
GitHub repository or over the LAN, keep agents connected, restart crashed processes and account for
idle time. This project models these protocols and state machines in Dafny and proves what holds in
every run, interleaving and input.

`dafny verify dfyconfig.toml` checks everything. The files:

- `LeaseProtocol.dfy`: the election over `primary_server.json` as a transition system. Any number of
  calls, on any number of nodes, interleave at every network step; each node has its own clock, at
  most `skew` off, which may be set back; a PUT lands exactly when the file still has the content that was read (the SHA is
  an injective function of the content), and a lost answer can hide a landed PUT.
- `LeaseSafety.dfy`: the theorems about its runs.
- `LeaseClient.dfy`: the calls themselves, with their HTTP branches, and the link to the protocol.
- `ElectionOrder.dfy`, `LanElection.dfy`: the LAN election, section by section under its mutex, and
  all interleavings of these sections with the discovery callbacks.
- `PeerTable.dfy`: the discovery table and its cleanup pass, which drops the lock while it runs.
- `IdleAccounting.dfy`: the idle sampler, against the set of idle instants.
- `ElectionHistory.dfy`: the deduplicating history, its file, load and truncation.
- `Supervision.dfy`, `AgentClient.dfy`: the restart loops and the agent's reconnection loop.
- `Transports.dfy`: the transport pool, failover and the exchange sort.
- `MergedReport.dfy`, `Versions.dfy`, `AuditLog.dfy`: the merged workbook, version comparison, audit file.
- `Common.dfy`: `Option` and the string order.

Answers of the network, the operating system and clocks are parameters or nondeterministic steps.

## Where the code and its documentation differ

The model follows the code.

- The history file is said to be cut to its last 50,000 events (election_history.go:108-111). It is
  cut to what is in memory, at most 5000 (`ElectionHistory.History.LoadElectionHistoryFromDisk`).
- The watchdog's backoff is said to serve the case that another monitor is running
  (main.go:5219-5220). Such a monitor's quick exits never add up to a backoff; only failed starts do
  (`Supervision.BackoffNeedsFailedStarts`).
- `onPeerLost` announces re-election when the leader disappears (lan_election.go:204-209). Its guard
  is never met, so a follower keeps naming a leader that timed out (`LanElection.PeerLostChangesNothing`).
- `renewLeadership` can take a fresh lease from a host that does not answer its probes. Two nodes
  then both rely on a lease (`LeaseSafety.ReclaimBreaksExclusion`); the exact condition for
  exclusion to survive a write is `LeaseSafety.LandingKeepsExclusionIff`.
- A node can elect itself past an older peer with the stale mode `server` in its own record
  (`LanElection.StaleModeReelects`); `LanElection.VotePastOlderIff` says exactly when a vote does so
  and `LanElection.VotePastOlderNeeds` what must have happened before.
- A lease is stamped with the wall clock (main.go:1747), which can be set back. A run stays settled,
  and exclusion holds, as long as no forced write or removal ends an unexpired lease and no renewal
  is stamped before the unexpired lease it replaces; the first step that does so ends it
  (`LeaseSafety.SettledIff`). `LeaseSafety.ClockSetBackBreaksExclusion` shows what such a renewal can
  lead to; on their last leases two nodes still never both rely (`LeaseSafety.LastLeaseExclusion`).
- The merged report's sheets are said to be those of the daily report (report_xlsx.go:673), but their
  titles are not the daily ones moved by one column. The data copied below them belongs to other
  titles from the 14th column of the activity sheet on, and throughout the audit sheet
  (`MergedReport.ActivityTitlesFitIff`, `MergedReport.AuditTitlesShifted`).
- The idle sampler takes the last input to be as much too early as its reading is late, and can
  count time twice (`IdleAccounting.LateReadingOverlaps`), by less than the delay
  (`IdleAccounting.SpansOverlapAtMost`).

## Model

| member | source | states |
|---|---|---|
| LeaseSafety.MutualExclusion | main.go:1675-1748 | At no instant of a run do two nodes both rely on a lease they wrote, with clocks up to `skew` apart and holders trusting a lease for the interval less twice the skew (for skew 0: a lease at most one interval old), provided removals and forced writes only end expired leases and no renewal is stamped before the unexpired lease it replaces |
| LeaseSafety.SettledKeptIff | main.go:1744-1786 | From a settled state (every unexpired lease is by the last writer and not younger than its last one, and all have expired when there is no file) a step leads to a settled one exactly if it meets that proviso |
| LeaseSafety.SettledIff | main.go:1744-1786 | A run stays settled exactly as long as all its steps meet the proviso |
| LeaseSafety.SteadyNeverSetsBack | main.go:1717-1719 | On clocks that are never set back no renewal is stamped before the lease it replaces |
| LeaseSafety.SteadyExclusion | main.go:1675-1748 | So with such clocks exclusion needs only the proviso on removals and forced writes |
| LeaseSafety.LastLeaseExclusion | main.go:1744-1748 | The same for clocks that may be set back within the skew, of nodes that rely on the last lease they landed |
| LeaseSafety.ClockSetBackBreaksExclusion | main.go:1744-1748 | A concrete run in which a renewal stamped before the unexpired lease it replaces, the step that `SettledKeptIff` excludes, lets two nodes rely on leases they wrote |
| LeaseSafety.LandingKeepsExclusionIff | main.go:1716-1737 | A landing PUT keeps exclusion, also after a removal, exactly if the last landed lease is none, expired or the writer's own, or the new one has expired; from a settled state claims, renewals and takeovers always do |
| LeaseSafety.ReclaimBreaksExclusion | main.go:1857-1884 | A concrete run whose last step, the reclaim after five failed probes, leaves two nodes relying on a lease |
| LeaseSafety.SettledHolds | main.go:1744-1786 | In runs under the proviso every unexpired lease ever written is by the last writer and not younger than its last one |
| LeaseSafety.InvHolds | main.go:1649-1742 | In every run: the file is the last landed PUT, each pending call's reason holds of what it read, and no stamp is in the future by more than the skew nor, unless clocks are set back, on its host's clock |
| LeaseSafety.ClaimDecision | main.go:1675-1741 | What a claim decides, branch by branch: to write over no file, its own, or one older than the interval, else to follow |
| LeaseSafety.RenewDecision | main.go:1813-1857 | What a renewal decides: to write over no file, its own, or one that names its hostname, else to probe |
| LeaseSafety.NeverProbesItself | main.go:1849-1871 | In no run is the target of a probe the node itself, under its AgentID or a hostname |
| LeaseSafety.StepsDownForAnother | main.go:1872-1885 | In every run a step down follows an answered probe of such another host |
| LeaseSafety.LiveLeaderStays | main.go:1716-1741 | A host whose lease never expires in the file while it leads stays the host, however far apart others read, decide and write |
| LeaseSafety.RenewingLeaderStays | main.go:1967-1980 | A host whose first tick passes the guard on LeaderID, and whose PUTs arrive at most `latency` after their ticks, passes it at every later tick and stays the host with an unexpired lease, every PUT landing, if period and latency stay below the interval by twice the skew and a millisecond; the code's period is half an interval |
| LeaseSafety.RenewalLands | main.go:1849-1893 | One such renewal: over a lease that lasts until its PUT arrives it lands, stamped no earlier than its tick up to the skew, whatever other nodes do meanwhile short of forced writes |
| LeaseSafety.HostChangeJustified | main.go:1813-1884 | A step that changes the host is a PUT over exactly the value then in the file, for a reason that holds of it: over-age at the decision, own hostname, or five failed probes |
| LeaseSafety.HistorySound | main.go:1744-1786 | Every landing replaced the landing just before it (or no file), for a reason that held of it |
| LeaseSafety.StampsGoBackAtMost | main.go:1744-1748 | Without removals stamps go back by at most twice the skew, in milliseconds rounded up, at each forced write, at a takeover under a negative interval, or at any write if clocks are set back, and at no other |
| LeaseSafety.StampsNeverGoBack | main.go:1744-1748 | So they never decrease under a common clock, forced writes included, nor over unforced writes on clocks never set back; a takeover increases them if the interval is a millisecond or more |
| LeaseSafety.ForkWithinSlip | main.go:1773-1783 | Two landings over one content: from the first up to the second the stamps stay within that bound of the stamp of the content |
| LeaseSafety.NoFork | main.go:1773-1783 | Where stamps do not go back, all of these have the stamp of the content itself; and an unforced first one wrote the content back unchanged |
| LeaseSafety.OutcomeHolds | main.go:1773-1791 | A call returns true only if its PUT landed or, in a renewal, the node stepped down |
| LeaseSafety.ClaimTrueMeansLanded | main.go:1675-1737 | tryClaimLeadership returns true only if the very PUT of that call landed, over what it had read, for a reason that held of that and is not alias or reclaim |
| LeaseClient.Node.TryClaimLeadership | main.go:1649-1742 | For each answer by itself (bad token, error, refusal, no file, own, over-age or live file of another): the PUT, its base and stamp, the result, the status and the token state; the status names this node even when the PUT was refused |
| LeaseClient.Node.WritePrimaryServerFile | main.go:1744-1791 | Content, stamp and base; 200 and 201 mean yes, 401, 403 and 409 no, all else an error; the token state after each |
| LeaseClient.Node.RenewLeadership | main.go:1793-1894 | For each answer by itself, the hostname alias included: whether it writes, probes, steps down or reclaims, its answer, the recorded status and the token state; true without a PUT exactly when it stepped down |
| LeaseClient.Node.IsLeaderStale | main.go:7082-7114 | True for a missing file and for another host's over-age lease |
| LeaseClient.StaleIffClaimable | main.go:7091-7113 | isLeaderStale is true of exactly the files that tryClaimLeadership would create or take from another host |
| LeaseClient.Node.LeaderTick | main.go:1973-1980 | A leader tick renews exactly if the status names the node or it is no server; after that the status still names it unless the answers cleared it |
| LeaseClient.Node.FollowerTick | main.go:1981-1994 | A follower tick claims exactly if configured and the status does not name the node; the status then names it exactly if a PUT went out without an error or over its own lease |
| LeaseClient.Node.RunTicker | main.go:1971-1998 | From a node that leads, until an answer clears the leader, exactly the leader ticks make calls |
| LeaseClient.ClaimIsAnOperation | main.go:1649-1741 | Whatever the answers, what a claim call does is what its operation can do in the transition system |
| LeaseClient.ProbesDecide | main.go:1860-1884 | The probe loop as protocol steps: one answer among five ends in stepping down, none in the reclaim |
| LeaseClient.RenewIsAnOperation | main.go:1793-1893 | Whatever the answers and probes, what a renewal does is what its operation can do in the transition system |
| ElectionOrder.BeforeIsStrictTotal | lan_election.go:76-87 | The comparator is a strict total order on records with distinct IDs |
| ElectionOrder.HeadIsHead | lan_election.go:76-87 | The selected record precedes all others |
| ElectionOrder.HeadIff | lan_election.go:76-87 | The selected record is the one that wins: a server if there is one, of its kind the greatest uptime, then the least ID |
| Common.StringLessIff | lan_election.go:86 | The order of IDs and names: a proper prefix comes first, else the first difference decides |
| ElectionOrder.SortedHead | lan_election.go:72-87 | Any sorted permutation of the records starts with that record, whatever order the table was listed in |
| ElectionOrder.SameRecordsSameWinner | lan_election.go:70-87 | The same set of records gives the same winner |
| LanElection.LANLeaderElection.ProbeEnded | lan_election.go:98-127 | The locked section after the probe: state and callback |
| LanElection.LANLeaderElection.Vote | lan_election.go:131-154 | The last locked section: the node leads and names itself, or names the winner, its address and port; the callback |
| LanElection.LANLeaderElection.OnPeerUpdate | lan_election.go:172-199 | Steps down for a reachable server and follows it; when the callback is made |
| LanElection.LANLeaderElection.OnPeerLost | lan_election.go:201-210 | Clears the leader under its guard |
| LanElection.LANLeaderElection.RunElection | lan_election.go:65-156 | A whole undisturbed election: after an answered probe it follows the probed server, else a leader stays, else it leads or follows the record that wins, and names it in its state and in the callback |
| LanElection.InvHolds | lan_election.go:91-155 | In every interleaving a `wasLeader == false` stays true of isLeader until the next section, the node is never in its own table, and each uptime there dates back to a start of the process that sent it |
| LanElection.LeaderNamesItself | lan_election.go:91-155 | In every interleaving isLeader implies that leaderID is the node itself |
| LanElection.PeerLostChangesNothing | lan_election.go:201-210 | No call of onPeerLost in any run changes anything |
| LanElection.OnlyAVoteElects | lan_election.go:130-137 | isLeader turns true only by a vote for oneself |
| LanElection.VoteNamesWinner | lan_election.go:70-154 | In any run the vote after a ranking leaves the node leading under its own name and announced as a server, or following the record of its table that won |
| LanElection.ProbeNamesServer | lan_election.go:95-128 | In any run an answered probe leaves the node following the probed server; else it goes on to the vote or, as a leader, stops |
| LanElection.UpdateNamesServer | lan_election.go:172-199 | In any run a reachable server heard of is followed at once, and nothing else changes the leader there |
| LanElection.RefreshTells | lan_election.go:66-68 | After a refresh the record says server, agent or standalone as the node leads, follows or neither, and its uptime |
| LanElection.DiscoveryTells | discovery.go:96-174 | In any run a broadcast replaces its sender's record, reported exactly if new, and an expiry removes one and is reported |
| LanElection.WinsIff | lan_election.go:70-87 | A node is its own winner exactly if its record precedes all those in its table |
| LanElection.WinsPastOlderIff | lan_election.go:70-87 | With a record, at most d old, of a node started more than d earlier in its table, it is its own winner exactly if its own record says server and precedes all that do |
| LanElection.VotePastOlderIff | lan_election.go:65-137 | In any run, the vote after such a ranking makes the node leader under exactly that condition at the ranking |
| LanElection.VotePastOlderNeeds | lan_election.go:65-155 | Then, since it refreshed its record for this election, main.go announced it as a server, or it led at the refresh and stepped down for a peer before the vote |
| LanElection.CommonViewOneWinner | lan_election.go:70-87 | Two nodes that hold the same records do not both pick themselves |
| LanElection.NeverElectsItself | lan_election.go:65-155 | From any point at which it does not lead, a node that in every ranking has such a record, and is not announced as a server between refresh and ranking, never becomes leader, whatever the tick times |
| LanElection.StaleModeReelects | lan_election.go:65-93 | A concrete run in which a node elects itself past an older peer, its record still saying server |
| PeerTable.EventsAlternate | discovery.go:102-121 | For each ID inserts and expiries strictly alternate, beginning with an insert |
| PeerTable.PeerDiscovery.Listen | discovery.go:96-121 | A packet replaces the entry; onPeerFound is called exactly for an absent, foreign ID |
| PeerTable.PeerDiscovery.Expire | discovery.go:161-163 | Only an entry silent for more than 15 s is removed |
| PeerTable.PeerDiscovery.CleanupPass | discovery.go:157-174 | After a pass, in spite of packets handled while the lock was dropped and whichever of the new entries it visits, no entry is more than 15 s older than its start (but for late packets), and recent ones are kept |
| IdleAccounting.IdleSampler.OnTick | main.go:4965-4985 | One tick: what is added and the new check time |
| IdleAccounting.IdleSampler.Run | main.go:4958-4990 | Any number of ticks: the total is that of the spans |
| IdleAccounting.BackdatingStartsLater | main.go:4968-4973 | The last input before a new stretch lies after every earlier idle reading |
| IdleAccounting.SpansOverlapAtMost | main.go:4964-4985 | The spans added do not overlap, for any inputs and ticks, except that the first of a stretch can reach back by less than its reading is later than the other's |
| IdleAccounting.LateReadingOverlaps | main.go:4964-4974 | A concrete behaviour in which a reading a second late makes two spans overlap |
| IdleAccounting.IdleTimeMember | main.go:4966-4985 | The reference set: the instants between an idle reading and the last input before it |
| IdleAccounting.TickAdds | main.go:4966-4985 | The idle instants new at a tick are the length of its span, plus the additional delay of its reading, less the time from the reading before to an input in between |
| IdleAccounting.TickExactIff | main.go:4974-4985 | A tick adds exactly the new idle instants if and only if its gap is under a day and an input since the idle reading before came as long after it as the reading is later, none for readings on time (or there was no time between the readings) |
| IdleAccounting.TotalIsIdleTime | main.go:4955-4990 | Without gaps of a day, for any delays, the total and those corrections are the number of idle instants, up to the sub-millisecond part each addition drops, and exact for whole milliseconds |
| IdleAccounting.FiveSecondSampling | main.go:4955-4990 | With ticks at most 5 s apart and no gap of a day the total is the idle time up to the greatest delay of a reading for each idle stretch and the sub-millisecond part each addition drops; exact for readings on time and spans of whole milliseconds |
| ElectionHistory.History.AppendElectionEvent | election_history.go:68-86 | Keeps claimed, stale-takeover and error events always, and any other unless its key is that of the last logged one within 60 s |
| ElectionHistory.History.AppendAll | election_history.go:68-179 | After any stream, with restarts and truncations anywhere in it, the memory is the newest 5000 of the filtered stream, as if there had been none |
| ElectionHistory.History.LoadElectionHistoryFromDisk | election_history.go:112-179 | Memory and dedup state from a file with blank and corrupt lines, up to a line over 1 MB; the truncated file holds what memory holds |
| ElectionHistory.History.Restart | election_history.go:112-179 | Memory, dedup key and dedup time come back exactly, with or without truncation |
| ElectionHistory.NewestIs | election_history.go:79-82 | The memory is the whole log or its last 5000 events |
| ElectionHistory.EachRecordRead | election_history.go:125-138 | Every line that parses is read, in order, whatever stands around it, and nothing else |
| ElectionHistory.ReadableIs | election_history.go:123-125 | The scan reads up to the first line over 1 MB, and all lines if there is none |
| ElectionHistory.StateChangesLogged | election_history.go:73-79 | Events with the actions claimed, stale-takeover and error are never dropped |
| ElectionHistory.LogIsCurrent | election_history.go:68-86 | After any recorded events, the last logged one has the method, result, leader and error of the latest |
| ElectionHistory.LoggedGrows | election_history.go:68-86 | The log only grows at its end |
| ElectionHistory.KeyInjective | election_history.go:70 | The key determines method and result, which hold no bar, and with bar-free leaders all four parts |
| ElectionHistory.RecordedKeyIff | main.go:1634-1646 | Of events as setElectionStatus records them, the key of one that can be skipped equals another exactly if all four parts do, whatever the names |
| ElectionHistory.DroppedIff | election_history.go:68-79 | A recorded event is dropped exactly if its action is none of claimed, stale-takeover and error and it repeats all four parts of the last logged one within a minute |
| ElectionHistory.ChangesLogged | election_history.go:59-63 | An event that differs from the one before it in method, result, leader or error is never dropped |
| ElectionHistory.UnchangedAtMostOncePerMinute | election_history.go:74-79 | k unchanged entries in a row span at least k minutes, less the stamping lag |
| Supervision.Supervisor.SuperviseOnce | service_windows.go:151-201 | One turn: the waits of 5 s, the backoff, the attempt, the pause of 5, 30 or 3 s and the restart counter |
| Supervision.TurnByTurn | main.go:5135-5259 | What each turn of any run does to the time, the counter and the attempts, recovery included |
| Supervision.BackoffCounts | main.go:5218-5229 | The backoff after n failed starts in a row counts them, this attempt and a quick death before them: none up to three, then 10 s each, at most two minutes |
| Supervision.Supervisor.RunWatchdog | main.go:5139-5260 | The watchdog's loop, with its recovery step |
| Supervision.Supervisor.RunSupervisionLoop | service_windows.go:148-202 | The service's loop is the watchdog's with the binary present |
| Supervision.InvHolds | main.go:5207-5258 | The restart counter never exceeds the failed starts in a row by more than one |
| Supervision.AttemptsApart | main.go:5207-5258 | The gap before each spawn attempt: 5 s after a failed start, 30 s after a quick death, 3 s after an exit, plus the backoff |
| Supervision.AttemptsInWindow | service_windows.go:151-202 | Any t seconds hold at most t/5 + 1 attempts |
| Supervision.BackoffNeedsFailedStarts | main.go:5218-5239 | A backoff is 40 to 120 s and follows at least two failed starts in a row |
| Supervision.ThreeFailuresBackOff | main.go:5221-5229 | After three failed starts the next attempt backs off |
| AgentClient.RunAgentClient | main.go:6378-6491 | The call ends with the first round that fails with a stale leader (returning to the election), or that is the sixth, twelfth, ... failed one in a row with no server answering (promoting itself); and how long it has slept |
| AgentClient.FailuresCountRow | main.go:6431-6459 | The count of failures is the length of the row of rounds in which no transport connected |
| AgentClient.SleptInRound | main.go:6483-6489 | A failed round sleeps 1, 2, 4, 8, 16 and from the sixth in a row on 30 s, a connected one nothing |
| AgentClient.PromotionTakesSixRounds | main.go:6466-6490 | Promotion follows six rounds in a row in which every transport failed, a failed probe in the last, and at least 31 s of sleep |
| AgentClient.SixFailuresPromote | main.go:6466-6480 | Six failed rounds from the start promote exactly if the probe in the sixth fails |
| AgentClient.DelayDoubles | main.go:6484-6489 | Doubling with a cap is min(2^k, 30) |
| Transports.TransportPool.GetBest | main.go:5824-5836 | A live entry of least priority below MaxInt32, or none if there is none |
| Transports.TransportPool.ReportFailure | main.go:5765-5777 | The transport is dead and out of the pool |
| Transports.TransportPool.SendViaBestTransport | main.go:5888-5903 | A failed send shrinks the pool by its transport, and the retry uses another one, the best left |
| Transports.TransportPool.SendAll | main.go:5888-5903 | Failed first sends and remaining transports always add up to the transports at the start |
| Transports.SortByPriority | main.go:6167-6173 | The exchange sort yields an ascending permutation, in place |
| Transports.TransportPool.GetTransportStatus | main.go:6130-6173 | The list is all entries, as many rows as entries, in ascending order, and its first healthy one has the priority GetBest picks |
| Versions.CompareVersions | main.go:1582-1602 | The sign is that of lexicographic order on component vectors extended by zeros; for versions written in decimal, of the numbers written |
| Versions.NumberOfSpelled | main.go:1592-1593 | A part that spells n in decimal, with any leading zeros, counts as n, clamped to 64 bits |
| Versions.NumberOfSigned | main.go:1592-1593 | With a sign it counts as signed |
| Versions.NumberOfMalformed | main.go:1592-1593 | Any other character after a number that fits 64 bits makes the part 0 |
| Versions.SpelledOrder | main.go:1585-1600 | The order of versions written in decimal is that of their number sequences extended by zeros |
| Versions.SplitInvertsJoin | main.go:1583-1584 | Splitting gives back parts without dots that were joined |
| Versions.JoinInvertsSplit | main.go:1583-1584 | Splitting at dots loses nothing |
| Versions.PartsHaveNoDot | main.go:1583-1584 | No part holds a dot |
| Versions.OlderIsStrictTotal | main.go:1582-1602 | Exactly one of older, newer, same holds |
| Versions.OlderTransitive | main.go:1585-1590 | Transitive, although each call pads only to its own arguments |
| Versions.SameVersionCongruent | main.go:1591-1601 | Versions that compare equal compare alike with all others |
| AuditLog.SplitLines | audit.go:53-66 | The loop computes the lines |
| AuditLog.SplitInvertsJoin | audit.go:53-66 | Splitting inverts newline-terminated joining |
| AuditLog.JoinInvertsSplit | audit.go:53-66 | Joining inverts splitting, up to a missing last newline |
| AuditLog.PiecesAreLines | audit.go:53-66 | No piece holds a newline |
| AuditLog.AuditLog.Record | audit.go:68-87 | Memory always grows; the file does if it could be opened |
| AuditLog.AuditLog.Load | audit.go:36-51 | Appends the entries of the lines that parse |
| AuditLog.EachEntryRead | audit.go:42-50 | Every line that parses yields its entry, in order, whatever its neighbours are, and nothing else does |
| AuditLog.AuditLog.Restart | audit.go:27-51 | The entries come back unchanged if and only if none failed to be written |
| AuditLog.AuditLog.Recent | audit.go:89-99 | The last entries, all of them for a bound out of range |
| MergedReport.BuildMergedReport | report_xlsx.go:700-785 | Cell by cell: data row r of each file, its header row skipped, stands below all data rows of the files before it, with the date of the name, its cells and blanks up to the header's width; nothing else stands below the header; counters end below; no cell is written twice |
| MergedReport.MergeStands | report_xlsx.go:737-783 | A sheet that holds the concatenation of what the files contribute holds them cell by cell |
| MergedReport.IsReportIff | report_xlsx.go:707-717 | The report files are exactly those named report-….xlsx |
| MergedReport.ReportsAre | report_xlsx.go:706-711 | The filter keeps each of them as often as it is listed, and nothing else |
| MergedReport.CellOfRow | report_xlsx.go:756-774 | Where each cell of a merged row stands |
| MergedReport.ActivityTitlesFitIff | report_xlsx.go:31-38 | A merged activity column has the title of the daily column copied into it exactly for the first twelve |
| MergedReport.AuditTitlesShifted | report_xlsx.go:228-236 | No merged audit column has the title of the daily column copied into it; from Action on the titles stand one column too far left |
| MergedReport.Workbook.CopyRows | report_xlsx.go:755-774 | The rows of one sheet of one file, and the counter |
| MergedReport.CopySheet | report_xlsx.go:737-783 | Unreadable and empty sheets are skipped; of any other all rows but the first are added, each in its place |
| MergedReport.SortUnique | report_xlsx.go:705-712 | With distinct names the sort has one result, whatever the listing order |
| MergedReport.NameOrderIsDateOrder | report_xlsx.go:705-717 | Name order of report-YYYY-MM-DD.xlsx is date order, and the date is recovered from the name |

## Left out

- HTTP, WebSocket, QUIC, WebRTC, SSH and TLS: only their outcomes appear, as parameters or steps.
- JSON, base64 and the xlsx format: a lease, a history line and a sheet are values; the audit log takes a printer and a parser that invert each other.
- LeaseSafety.MutualExclusion: removing the file and the two forced writes are covered only when the lease they end has expired; `LeaseSafety.LandingKeepsExclusionIff`, which holds after a removal too, says which landings break exclusion, and `LeaseSafety.ReclaimBreaksExclusion` is a run.
- LeaseSafety.StampsNeverGoBack: runs in which somebody removes the file are not covered.
- LeaseSafety.RenewingLeaderStays: the status is that of the calls of the one goroutine (`LeaseClient.Node.RunTicker`); the other calls of the host are taken to land no PUT and not to change the status, and its GETs to be answered.
- LanElection.NeverElectsItself: records are read as whole values; the unlocked writes of listenLoop to a replaced PeerInfo (discovery.go:116-120) are a data race that is not modelled.
- PeerTable.PeerDiscovery.CleanupPass: the order in which Go walks the map is arbitrary.
- ElectionHistory.History.Restart: the events the program writes are taken to be shorter than 1 MB; a longer line from elsewhere hides those after it from every load, as LoadElectionHistoryFromDisk says.
- IdleAccounting.TotalIsIdleTime: assumes getIdleDuration measures from the last input before it is asked; the 32-bit tick arithmetic in platform_windows.go:734-744 is not modelled.
- ElectionHistory.History.AppendElectionEvent: each write to the file succeeds and in order, although the code writes in goroutines of their own; a saved timestamp is read back unchanged.
- Supervision.Supervisor.RunWatchdog: the downloads in the recovery step are one outcome; the loops never end, so any finite number of turns is considered.
- AgentClient.RunAgentClient: a connection's duration and the background health check do not affect the counters and are left out.
- Transports.TransportPool.SendViaBestTransport: the retry's own result is ignored, as in the code; concurrent senders are not interleaved.
- MergedReport.BuildMergedReport: sort.Slice is taken to return a sorted permutation.
- MergedReport.ActivityTitlesFitIff: the rest of the daily sheets' layout, such as the meta-rows and the election dashboard above row 17, is not modelled; a sheet is any list of rows.
- The fallback decisions of startGitHubLeaderElection, its jitter and the relay: loops over calls modelled here, with no further state.
- Screen capture, input, tunnels, deployment, settings, encryption, dashboard and the lock-file singletons: foreign calls or field copying.
