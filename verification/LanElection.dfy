/**
  LANLeaderElection.  The class has one method for each section of code that runs under its mutex;
  the rest of the module lets these sections interleave: runElection gives the mutex up around its
  health probe, and the discovery goroutines call onPeerUpdate and onPeerLost meanwhile.
*/
module LanElection {
  import opened Common
  import opened ElectionOrder

  // ---------------------------------------------------------------------------------------------
  // The state under the mutex
  // ---------------------------------------------------------------------------------------------

  datatype Leadership = Leadership(isLeader: bool, leaderID: string, leaderIP: string, leaderPort: int)

  datatype Callback = Quiet | BecomeLeader | LoseLeader(ip: string, port: int)

  function CurrentMode(l: Leadership): string {
    if l.isLeader then "server" else if l.leaderID != "" then "agent" else "standalone"
  }

  function Following(p: Peer): Leadership { Leadership(false, p.id, p.ip, p.port) }

  /** runElection, after its probe: the probed server answered. */
  function AfterProbeAlive(l: Leadership, was: bool, server: Peer): Leadership {
    if was then Following(server) else Following(server).(isLeader := l.isLeader)
  }

  /** runElection's last section, reached when the node was not the leader and no server answered. */
  function AfterVote(l: Leadership, self: string, winner: Peer): Leadership {
    if winner.id == self then l.(isLeader := true, leaderID := self)
    else Following(winner).(isLeader := l.isLeader)
  }

  function AfterPeerLost(l: Leadership, id: string): Leadership {
    if id == l.leaderID && l.isLeader then Leadership(l.isLeader, "", "", 0) else l
  }

  class LANLeaderElection {
    const selfID: string
    var isLeader: bool
    var leaderID: string
    var leaderIP: string
    var leaderPort: int

    constructor (selfID: string)
      ensures this.selfID == selfID && State() == Leadership(false, "", "", 0)
    {
      this.selfID := selfID;
      isLeader, leaderID, leaderIP, leaderPort := false, "", "", 0;
    }

    function State(): Leadership
      reads this
    {
      Leadership(isLeader, leaderID, leaderIP, leaderPort)
    }

    /** The node names `p` as the leader, and where it is. */
    predicate Names(p: Peer)
      reads this
    {
      leaderID == p.id && leaderIP == p.ip && leaderPort == p.port
    }

    /** The locked section after the probe; answers whether runElection returns here. */
    method ProbeEnded(alive: bool, was: bool, server: Peer) returns (done: bool, cb: Callback)
      modifies this
      ensures done == alive
      ensures State() == if alive then AfterProbeAlive(old(State()), was, server) else old(State())
      ensures cb == if alive then LoseLeader(server.ip, server.port) else Quiet
      ensures alive ==> leaderID == server.id && leaderIP == server.ip && leaderPort == server.port
      ensures isLeader == (old(isLeader) && !(alive && was))
      ensures !alive ==> leaderID == old(leaderID) && leaderIP == old(leaderIP) && leaderPort == old(leaderPort)
    {
      if alive {
        if was {
          isLeader := false;
          leaderID := server.id;
          leaderIP := server.ip;
          leaderPort := server.port;
          return true, LoseLeader(server.ip, server.port);
        }
        leaderID := server.id;
        leaderIP := server.ip;
        leaderPort := server.port;
        return true, LoseLeader(server.ip, server.port);
      }
      return false, Quiet;
    }

    method Vote(winner: Peer) returns (cb: Callback)
      modifies this
      ensures State() == AfterVote(old(State()), selfID, winner)
      ensures cb == if winner.id == selfID then BecomeLeader else LoseLeader(winner.ip, winner.port)
      ensures leaderID == winner.id && isLeader == (old(isLeader) || winner.id == selfID)
      ensures winner.id == selfID ==> leaderIP == old(leaderIP) && leaderPort == old(leaderPort)
      ensures winner.id != selfID ==> leaderIP == winner.ip && leaderPort == winner.port
    {
      if winner.id == selfID {
        isLeader := true;
        leaderID := selfID;
        return BecomeLeader;
      } else {
        leaderID := winner.id;
        leaderIP := winner.ip;
        leaderPort := winner.port;
        return LoseLeader(winner.ip, winner.port);
      }
    }

    method OnPeerUpdate(peer: Peer, alive: bool) returns (cb: Callback)
      modifies this
      ensures var heeded := peer.mode == "server" && peer.id != selfID && alive;
              && State() == (if heeded then Following(peer) else old(State()))
              && cb == (if heeded && (old(isLeader) || old(leaderID) != peer.id)
                        then LoseLeader(peer.ip, peer.port) else Quiet)
      ensures peer.mode == "server" && peer.id != selfID && alive ==>
                !isLeader && leaderID == peer.id && leaderIP == peer.ip && leaderPort == peer.port
      ensures !(peer.mode == "server" && peer.id != selfID && alive) ==>
                isLeader == old(isLeader) && leaderID == old(leaderID)
                && leaderIP == old(leaderIP) && leaderPort == old(leaderPort)
    {
      cb := Quiet;
      if peer.mode == "server" && peer.id != selfID {
        if alive {
          var previousLeader := leaderID;
          leaderID := peer.id;
          leaderIP := peer.ip;
          leaderPort := peer.port;
          var wasLeader := isLeader;
          isLeader := false;
          if wasLeader {
            cb := LoseLeader(peer.ip, peer.port);
          } else if previousLeader != peer.id {
            cb := LoseLeader(peer.ip, peer.port);
          }
        }
      }
    }

    method OnPeerLost(id: string)
      modifies this
      ensures State() == AfterPeerLost(old(State()), id)
      ensures isLeader == old(isLeader)
      ensures old(isLeader && leaderID == id) ==> leaderID == "" && leaderIP == "" && leaderPort == 0
      ensures !old(isLeader && leaderID == id) ==>
                leaderID == old(leaderID) && leaderIP == old(leaderIP) && leaderPort == old(leaderPort)
    {
      if id == leaderID && isLeader {
        leaderID := "";
        leaderIP := "";
        leaderPort := 0;
      }
    }

    /** runElection when nothing interleaves; `server` is what GetServer returned. */
    method RunElection(self: Peer, peers: seq<Peer>, server: Option<Peer>, alive: bool)
        returns (cb: Callback)
      requires self.id == selfID && DistinctIds([self] + peers)
      modifies this
      ensures var probed := server.Some? && server.value.id != selfID && alive;
              State() == if probed then AfterProbeAlive(old(State()), old(isLeader), server.value)
                         else if old(isLeader) then old(State())
                         else AfterVote(old(State()), selfID, Head([self] + peers))
      ensures var probed := server.Some? && server.value.id != selfID && alive;
              var winner := Head([self] + peers);
              cb == if probed then LoseLeader(server.value.ip, server.value.port)
                    else if old(isLeader) then Quiet
                    else if isLeader then BecomeLeader
                    else LoseLeader(winner.ip, winner.port)
      ensures !old(isLeader) && isLeader ==> forall p :: p in peers ==> Before(self, p)
      // The three ways it can end.
      ensures server.Some? && server.value.id != selfID && alive ==>
                cb == LoseLeader(server.value.ip, server.value.port) && !isLeader && Names(server.value)
      ensures !(server.Some? && server.value.id != selfID && alive) && old(isLeader) ==>
                cb == Quiet && isLeader && leaderID == old(leaderID)
                && leaderIP == old(leaderIP) && leaderPort == old(leaderPort)
      ensures !(server.Some? && server.value.id != selfID && alive) && !old(isLeader) ==>
                exists p :: Wins(p, [self] + peers)
                            && (if p.id == selfID
                                then cb == BecomeLeader && isLeader && leaderID == selfID
                                else cb == LoseLeader(p.ip, p.port) && !isLeader && Names(p))
    {
      var winner := Head([self] + peers);
      HeadIsHead([self] + peers);
      HeadIff(winner, [self] + peers);
      assert forall k :: 0 <= k < |peers| ==> ([self] + peers)[k + 1] == peers[k];
      var was := isLeader;
      cb := Quiet;
      if server.Some? && server.value.id != selfID {
        var done, c := ProbeEnded(alive, was, server.value);
        if done {
          return c;
        }
      }
      if !was {
        cb := Vote(winner);
      }
    }
  }

  // ---------------------------------------------------------------------------------------------
  // All interleavings
  // ---------------------------------------------------------------------------------------------

  /** Where the single election goroutine stands inside runElection. */
  datatype Phase =
    | Waiting
    | Refreshed                                             // UpdateSelf done
    | Ranked(winner: Peer)                                  // GetPeers and the sort done
    | Picked(winner: Peer, server: Option<Peer>)            // GetServer done
    | Probing(winner: Peer, server: Option<Peer>, was: bool) // isLeader read, probe under way
    | Voting(winner: Peer)                                  // about to lock for the last section

  /**
    For each ID, the times at which the processes that announce themselves under it were started;
    with every time allowed for every ID, packets are arbitrary.
  */
  type Starts = string -> iset<real>

  /**
    `now` is the true time and `started` the node's startTime.  `self` is the node's own PeerInfo,
    `peers` the discovery table and `taken` the times at which the uptimes in its entries were
    measured.  `found` and `lost` are the calls of onPeerUpdate and onPeerLost that have not locked
    the mutex yet.
  */
  datatype Lan = Lan(
    now: real,
    started: real,
    lead: Leadership,
    self: Peer,
    peers: map<string, Peer>,
    taken: map<string, real>,
    found: set<Peer>,
    lost: set<string>,
    phase: Phase)

  datatype Action =
    | Advance(to: real)
    | Refresh
    | Rank(listed: seq<Peer>)
    | Pick(server: Option<Peer>)
    | ReadLeader
    | EndProbe(alive: bool)
    | CastVote
    | Hear(p: Peer, taken: real)                 // a broadcast whose uptime was measured at `taken`
    | Expire(id: string)
    | PeerUpdate(p: Peer, alive: bool)
    | PeerLost(id: string)
    | OuterUpdateSelf(mode: string)              // globalDiscovery.UpdateSelf in main.go

  /** GetPeers lists the table in some order. */
  ghost predicate Lists(listed: seq<Peer>, peers: map<string, Peer>) {
    && (forall i :: 0 <= i < |listed| ==> listed[i].id in peers && peers[listed[i].id] == listed[i])
    && (forall id :: id in peers ==> peers[id] in listed)
    && DistinctIds(listed)
  }

  ghost predicate Enabled(starts: Starts, s: Lan, a: Action) {
    match a
    case Advance(to) => s.now <= to
    case Refresh => s.phase.Waiting?
    case Rank(listed) => s.phase.Refreshed? && Lists(listed, s.peers)
    case Pick(server) =>
      && s.phase.Ranked?
      && (match server
          case Some(p) => p.id in s.peers && s.peers[p.id] == p && p.mode == "server"
          case None => forall id :: id in s.peers ==> s.peers[id].mode != "server")
    case ReadLeader => s.phase.Picked?
    case EndProbe(_) => s.phase.Probing?
    case CastVote => s.phase.Voting?
    case Hear(p, taken) =>
      && p.id != s.self.id                       // listenLoop skips the node's own broadcasts
      && taken <= s.now
      && taken - p.uptime in starts(p.id)
    case Expire(id) => id in s.peers
    case PeerUpdate(p, _) => p in s.found
    case PeerLost(id) => id in s.lost
    case OuterUpdateSelf(_) => true
  }

  /** UpdateSelf. */
  function Updated(s: Lan, mode: string): Peer { s.self.(mode := mode, uptime := s.now - s.started) }

  function Apply(s: Lan, a: Action): Lan
    requires a.ReadLeader? ==> s.phase.Picked?
    requires a.EndProbe? ==> s.phase.Probing?
    requires a.CastVote? ==> s.phase.Voting?
    requires a.Pick? ==> s.phase.Ranked?
  {
    match a
    case Advance(to) => s.(now := to)
    case Refresh => s.(self := Updated(s, CurrentMode(s.lead)), phase := Refreshed)
    case Rank(listed) => s.(phase := Ranked(Head([s.self] + listed)))
    case Pick(server) => s.(phase := Picked(s.phase.winner, server))
    case ReadLeader => s.(phase := Probing(s.phase.winner, s.phase.server, s.lead.isLeader))
    case EndProbe(alive) =>
      var Probing(winner, server, was) := s.phase;
      if server.Some? && server.value.id != s.self.id && alive then
        s.(lead := AfterProbeAlive(s.lead, was, server.value), phase := Waiting)
      else s.(phase := if was then Waiting else Voting(winner))
    case CastVote =>
      var s' := s.(lead := AfterVote(s.lead, s.self.id, s.phase.winner), phase := Waiting);
      if s.phase.winner.id == s.self.id then s'.(self := Updated(s, "server")) else s'
    case Hear(p, taken) =>
      s.(peers := s.peers[p.id := p], taken := s.taken[p.id := taken],
         found := if p.id in s.peers then s.found else s.found + {p})
    case Expire(id) => s.(peers := s.peers - {id}, taken := s.taken - {id}, lost := s.lost + {id})
    case PeerUpdate(p, alive) =>
      if p.mode == "server" && p.id != s.self.id && alive then
        s.(lead := Following(p), found := s.found - {p})
      else s.(found := s.found - {p})
    case PeerLost(id) => s.(lead := AfterPeerLost(s.lead, id), lost := s.lost - {id})
    case OuterUpdateSelf(mode) => s.(self := Updated(s, mode))
  }

  ghost predicate Init(s: Lan) {
    && s.lead == Leadership(false, "", "", 0)
    && s.peers == map[] && s.taken == map[] && s.found == {} && s.lost == {}
    && s.phase.Waiting?
    && s.self.uptime <= s.now - s.started
  }

  ghost predicate IsRun(starts: Starts, ss: seq<Lan>, acts: seq<Action>) {
    && |ss| == |acts| + 1
    && Init(ss[0])
    && (forall i :: 0 <= i < |acts| ==> Enabled(starts, ss[i], acts[i]) && ss[i + 1] == Apply(ss[i], acts[i]))
  }

  /**
    `wasLeader == false` stays true of isLeader until runElection's next section; the node is not
    in its own table; and the table holds uptimes of processes that were started when `starts` says.
  */
  ghost predicate Inv(starts: Starts, s: Lan) {
    && (s.lead.isLeader ==> s.lead.leaderID == s.self.id)
    && (s.phase.Voting? || (s.phase.Probing? && !s.phase.was) ==> !s.lead.isLeader)
    && (forall id :: id in s.peers ==> s.peers[id].id == id && id != s.self.id)
    && s.self.id !in s.lost
    && TimesInv(starts, s)
  }

  ghost predicate TimesInv(starts: Starts, s: Lan) {
    && s.self.uptime <= s.now - s.started
    && s.taken.Keys == s.peers.Keys
    && (forall id :: id in s.peers ==> s.taken[id] <= s.now && s.taken[id] - s.peers[id].uptime in starts(id))
  }

  lemma TimesInvKept(starts: Starts, s: Lan, a: Action)
    requires TimesInv(starts, s) && Enabled(starts, s, a)
    ensures TimesInv(starts, Apply(s, a))
  {
  }

  lemma InvKept(starts: Starts, s: Lan, a: Action)
    requires Inv(starts, s) && Enabled(starts, s, a)
    ensures Inv(starts, Apply(s, a))
  {
    TimesInvKept(starts, s, a);
  }

  lemma {:induction false} InvHolds(starts: Starts, ss: seq<Lan>, acts: seq<Action>, i: nat)
    requires IsRun(starts, ss, acts) && i <= |acts|
    ensures Inv(starts, ss[i])
  {
    if i > 0 {
      InvHolds(starts, ss, acts, i - 1);
      InvKept(starts, ss[i - 1], acts[i - 1]);
    }
  }

  /** In every interleaving, a node that holds itself for the leader names itself as the leader. */
  lemma LeaderNamesItself(starts: Starts, ss: seq<Lan>, acts: seq<Action>, i: nat)
    requires IsRun(starts, ss, acts) && i < |ss|
    ensures ss[i].lead.isLeader ==> ss[i].lead.leaderID == ss[i].self.id
  {
    InvHolds(starts, ss, acts, i);
  }

  /**
    onPeerLost never changes anything: its guard asks for the loss of the leader while the node
    leads, but then the leader is the node itself, which is never in the table.  In particular a
    follower keeps naming a leader that has timed out.
  */
  lemma PeerLostChangesNothing(starts: Starts, ss: seq<Lan>, acts: seq<Action>, i: nat)
    requires IsRun(starts, ss, acts) && i < |acts| && acts[i].PeerLost?
    ensures ss[i + 1].lead == ss[i].lead
  {
    InvHolds(starts, ss, acts, i);
  }

  /** isLeader turns true only by a vote for itself, taken while it was false. */
  lemma OnlyAVoteElects(starts: Starts, ss: seq<Lan>, acts: seq<Action>, i: nat)
    requires IsRun(starts, ss, acts) && i < |acts|
    requires !ss[i].lead.isLeader && ss[i + 1].lead.isLeader
    ensures acts[i].CastVote? && ss[i].phase.winner.id == ss[i].self.id
  {
  }

  // ---------------------------------------------------------------------------------------------
  // What a node announces and whom it names
  // ---------------------------------------------------------------------------------------------

  /** The node follows `p`. */
  predicate Follows(l: Leadership, p: Peer) {
    !l.isLeader && l.leaderID == p.id && l.leaderIP == p.ip && l.leaderPort == p.port
  }

  /** After a refresh the record says what the node is: the leader, the follower of somebody, or neither. */
  lemma RefreshTells(starts: Starts, ss: seq<Lan>, acts: seq<Action>, i: nat)
    requires IsRun(starts, ss, acts) && i < |acts| && acts[i].Refresh?
    ensures var s, lead := ss[i + 1], ss[i].lead;
            && s.lead == lead
            && (s.self.mode == "server" <==> lead.isLeader && lead.leaderID == s.self.id)
            && (s.self.mode == "agent" <==> !lead.isLeader && lead.leaderID != "")
            && (s.self.mode == "standalone" <==> !lead.isLeader && lead.leaderID == "")
            && s.self.uptime == s.now - s.started
  {
    InvHolds(starts, ss, acts, i);
  }

  /** When the probe is answered, the node follows the server it probed, another node; else it goes on or, if it leads, stops. */
  lemma ProbeNamesServer(starts: Starts, ss: seq<Lan>, acts: seq<Action>, i: nat)
    requires IsRun(starts, ss, acts) && i < |acts| && acts[i].EndProbe?
    ensures var p, server := ss[i].phase, ss[i].phase.server;
            if acts[i].alive && server.Some? && server.value.id != ss[i].self.id
            then Follows(ss[i + 1].lead, server.value) && ss[i + 1].phase == Waiting
            else ss[i + 1].lead == ss[i].lead && ss[i + 1].phase == if p.was then Waiting else Voting(p.winner)
  {
    InvHolds(starts, ss, acts, i);
  }

  /** When a server heard of answers, the node follows it, at once and whatever it was. */
  lemma UpdateNamesServer(starts: Starts, ss: seq<Lan>, acts: seq<Action>, i: nat)
    requires IsRun(starts, ss, acts) && i < |acts| && acts[i].PeerUpdate?
    ensures var p := acts[i].p;
            if p.mode == "server" && p.id != ss[i].self.id && acts[i].alive
            then Follows(ss[i + 1].lead, p) else ss[i + 1].lead == ss[i].lead
  {
  }

  /**
    A broadcast replaces its sender's record, and the election hears of it exactly if there was
    none; an expiry removes the record, and the election hears of that.
  */
  lemma DiscoveryTells(starts: Starts, ss: seq<Lan>, acts: seq<Action>, i: nat)
    requires IsRun(starts, ss, acts) && i < |acts|
    ensures acts[i].Hear? ==>
              var s, s', p := ss[i], ss[i + 1], acts[i].p;
              && p.id != s.self.id && p.id in s'.peers && s'.peers[p.id] == p && s'.taken[p.id] == acts[i].taken
              && s'.peers.Keys == s.peers.Keys + {p.id}
              && (forall id :: id in s.peers && id != p.id ==> s'.peers[id] == s.peers[id])
              && s'.found == (if p.id in s.peers then s.found else s.found + {p}) && s'.lost == s.lost
    ensures acts[i].Expire? ==>
              var s, s', id := ss[i], ss[i + 1], acts[i].id;
              && id !in s'.peers && s'.peers.Keys == s.peers.Keys - {id}
              && (forall other :: other in s'.peers ==> s'.peers[other] == s.peers[other])
              && s'.found == s.found && s'.lost == s.lost + {id}
  {
    InvHolds(starts, ss, acts, i + 1);
  }

  // ---------------------------------------------------------------------------------------------
  // Rankings
  // ---------------------------------------------------------------------------------------------

  /** The node's own record and those of its table have distinct IDs. */
  lemma RecordsDistinct(starts: Starts, s: Lan, listed: seq<Peer>)
    requires Inv(starts, s) && Lists(listed, s.peers)
    ensures DistinctIds([s.self] + listed)
    ensures forall p :: p in listed ==> p.id != s.self.id
  {
  }

  /** A node wins its own ranking exactly if its record precedes all those in its table. */
  lemma WinsIff(starts: Starts, s: Lan, listed: seq<Peer>)
    requires Inv(starts, s) && Lists(listed, s.peers)
    ensures Head([s.self] + listed).id == s.self.id <==> forall id :: id in s.peers ==> Before(s.self, s.peers[id])
  {
    var all := [s.self] + listed;
    RecordsDistinct(starts, s, listed);
    HeadIsHead(all);
    var h := Head(all);
    assert s.self == all[0];
    assert forall p :: p in all <==> p == s.self || p in listed;
    assert forall id :: id in s.peers ==> s.peers[id] in listed;
    if h.id != s.self.id {
      assert h in listed && s.peers[h.id] == h;
      BeforeIsStrictTotal(h, s.self, s.self);
    }
  }

  /** Two nodes that hold the same records do not both pick themselves: they pick one winner. */
  lemma CommonViewOneWinner(starts: Starts, s: Lan, t: Lan, sListed: seq<Peer>, tListed: seq<Peer>)
    requires Inv(starts, s) && Inv(starts, t) && Lists(sListed, s.peers) && Lists(tListed, t.peers)
    requires forall p :: p in [s.self] + sListed <==> p in [t.self] + tListed
    ensures Head([s.self] + sListed) == Head([t.self] + tListed)
    ensures s.self.id != t.self.id && Apply(s, Rank(sListed)).phase.winner.id == s.self.id
            ==> Apply(t, Rank(tListed)).phase.winner.id != t.self.id
  {
    RecordsDistinct(starts, s, sListed);
    RecordsDistinct(starts, t, tListed);
    SameRecordsSameWinner([s.self] + sListed, [t.self] + tListed);
  }

  // ---------------------------------------------------------------------------------------------
  // An older node in the table
  // ---------------------------------------------------------------------------------------------

  /**
    Node `b` was started, and so far restarted, only more than `d` before this one was, and the
    table holds an uptime of it, not negative, that was measured at most `d` ago.
  */
  ghost predicate FreshOlder(starts: Starts, s: Lan, b: string, d: real) {
    && b in s.peers && b in s.taken
    && (forall t :: t in starts(b) && t <= s.now ==> t < s.started - d)
    && s.taken[b] >= s.now - d
    && s.peers[b].uptime >= 0.0
  }

  /** Then its record has more uptime than the node's own, whenever either was refreshed. */
  lemma OlderHasMoreUptime(starts: Starts, s: Lan, b: string, d: real)
    requires Inv(starts, s) && FreshOlder(starts, s, b, d)
    ensures s.peers[b].uptime > s.self.uptime
  {
    assert s.taken[b] - s.peers[b].uptime in starts(b);
  }

  /** The node's own record says "server" and precedes every record in its table that does. */
  ghost predicate OutranksByMode(s: Lan) {
    s.self.mode == "server" && forall id :: id in s.peers && s.peers[id].mode == "server" ==> Before(s.self, s.peers[id])
  }

  /** A node that knows an older one wins its ranking exactly by the mode in its own record. */
  lemma WinsPastOlderIff(starts: Starts, s: Lan, listed: seq<Peer>, b: string, d: real)
    requires Inv(starts, s) && Lists(listed, s.peers) && FreshOlder(starts, s, b, d)
    ensures Head([s.self] + listed).id == s.self.id <==> OutranksByMode(s)
  {
    WinsIff(starts, s, listed);
    OlderHasMoreUptime(starts, s, b, d);
    assert s.self.mode != "server" ==> !Before(s.self, s.peers[b]);
  }

  // ---------------------------------------------------------------------------------------------
  // Votes
  // ---------------------------------------------------------------------------------------------

  /** Step `v` is the vote that follows the ranking of step `r`. */
  ghost predicate VoteOf(acts: seq<Action>, r: nat, v: nat) {
    r < v < |acts| && acts[r].Rank? && acts[v].CastVote? && forall k :: r < k < v ==> !acts[k].Rank?
  }

  predicate HasWinner(p: Phase) { !p.Waiting? && !p.Refreshed? }

  predicate WinnerIs(p: Phase, winner: Peer) { HasWinner(p) ==> p.winner == winner }

  lemma WinnerStep(starts: Starts, ss: seq<Lan>, acts: seq<Action>, i: nat, winner: Peer)
    requires IsRun(starts, ss, acts) && i < |acts| && !acts[i].Rank? && WinnerIs(ss[i].phase, winner)
    ensures WinnerIs(ss[i + 1].phase, winner) && ss[i + 1].self.id == ss[i].self.id
  {
  }

  /** Without a further ranking the winner stays what it was at step `from`. */
  lemma {:induction false} WinnerKept(
      starts: Starts, ss: seq<Lan>, acts: seq<Action>, from: nat, i: nat, winner: Peer)
    requires IsRun(starts, ss, acts) && from <= i < |ss| && WinnerIs(ss[from].phase, winner)
    requires forall k :: from <= k < i ==> !acts[k].Rank?
    ensures ss[i].self.id == ss[from].self.id && WinnerIs(ss[i].phase, winner)
    decreases i - from
  {
    if from < i {
      WinnerStep(starts, ss, acts, from, winner);
      WinnerKept(starts, ss, acts, from + 1, i, winner);
    }
  }

  lemma RankSets(starts: Starts, ss: seq<Lan>, acts: seq<Action>, r: nat)
    requires IsRun(starts, ss, acts) && r < |acts| && acts[r].Rank?
    ensures Inv(starts, ss[r]) && Lists(acts[r].listed, ss[r].peers)
    ensures WinnerIs(ss[r + 1].phase, Head([ss[r].self] + acts[r].listed)) && ss[r + 1].self.id == ss[r].self.id
  {
    InvHolds(starts, ss, acts, r);
  }

  lemma VoteElects(starts: Starts, ss: seq<Lan>, acts: seq<Action>, v: nat, winner: Peer)
    requires IsRun(starts, ss, acts) && v < |acts| && acts[v].CastVote? && WinnerIs(ss[v].phase, winner)
    ensures !ss[v].lead.isLeader && (ss[v + 1].lead.isLeader <==> winner.id == ss[v].self.id)
    ensures if winner.id == ss[v].self.id
            then ss[v + 1].lead.leaderID == ss[v].self.id && ss[v + 1].self.mode == "server"
            else Follows(ss[v + 1].lead, winner)
  {
    InvHolds(starts, ss, acts, v);
  }

  /**
    In any run, the vote that follows a ranking names the record that won it: the node's own, and it
    leads and announces itself as a server, or another one from its table, and it follows that.
  */
  lemma VoteNamesWinner(starts: Starts, ss: seq<Lan>, acts: seq<Action>, r: nat, v: nat) returns (winner: Peer)
    requires IsRun(starts, ss, acts) && VoteOf(acts, r, v)
    ensures Wins(winner, [ss[r].self] + acts[r].listed) && ss[v].self.id == ss[r].self.id
    ensures winner.id == ss[v].self.id ==>
              && ss[v + 1].lead.isLeader && ss[v + 1].lead.leaderID == ss[v].self.id
              && ss[v + 1].self.mode == "server"
    ensures winner.id != ss[v].self.id ==>
              && Follows(ss[v + 1].lead, winner)
              && winner.id in ss[r].peers && ss[r].peers[winner.id] == winner
  {
    var all := [ss[r].self] + acts[r].listed;
    winner := Head(all);
    RankSets(starts, ss, acts, r);
    WinnerKept(starts, ss, acts, r + 1, v, winner);
    VoteElects(starts, ss, acts, v, winner);
    RecordsDistinct(starts, ss[r], acts[r].listed);
    HeadIff(winner, all);
    assert winner in all && winner != ss[r].self ==> winner in acts[r].listed;
  }

  /**
    In any run, the vote that follows a ranking in which the table held a fresh record of an older
    node makes the voter the leader if and only if, at that ranking, its own record said "server"
    and preceded every such record of the table.
  */
  lemma VotePastOlderIff(starts: Starts, ss: seq<Lan>, acts: seq<Action>, r: nat, v: nat, b: string, d: real)
    requires IsRun(starts, ss, acts) && VoteOf(acts, r, v) && FreshOlder(starts, ss[r], b, d)
    ensures !ss[v].lead.isLeader
    ensures ss[v + 1].lead.isLeader <==> OutranksByMode(ss[r])
  {
    var winner := Head([ss[r].self] + acts[r].listed);
    RankSets(starts, ss, acts, r);
    WinnerKept(starts, ss, acts, r + 1, v, winner);
    VoteElects(starts, ss, acts, v, winner);
    WinsPastOlderIff(starts, ss[r], acts[r].listed, b, d);
  }

  /** Since the refresh of step `f` the election has not gone further. */
  ghost predicate RefreshedSince(ss: seq<Lan>, acts: seq<Action>, f: nat, i: nat)
    requires |ss| == |acts| + 1 && i < |ss|
  {
    f < i && acts[f].Refresh? && forall k :: f < k <= i ==> ss[k].phase.Refreshed?
  }

  /** Between steps `f` and `i`, main.go announces the node as a server. */
  ghost predicate AnnouncedServer(acts: seq<Action>, f: nat, i: nat) {
    exists g :: f < g < i && g < |acts| && acts[g] == OuterUpdateSelf("server")
  }

  /** Where the mode "server" in a refreshed record comes from. */
  lemma {:induction false} ServerModeFrom(starts: Starts, ss: seq<Lan>, acts: seq<Action>, i: nat) returns (f: nat)
    requires IsRun(starts, ss, acts) && i < |ss| && ss[i].phase.Refreshed?
    ensures RefreshedSince(ss, acts, f, i)
    ensures ss[i].self.mode == "server" ==> ss[f].lead.isLeader || AnnouncedServer(acts, f, i)
  {
    if ss[i - 1].phase.Refreshed? {
      f := ServerModeFrom(starts, ss, acts, i - 1);
      if ss[i].self.mode == "server" && ss[i - 1].self.mode != "server" {
        assert acts[i - 1] == OuterUpdateSelf("server");
      }
    } else {
      f := i - 1;
    }
  }

  /** Step `g` ends the node's own leadership because a server was heard of. */
  ghost predicate StepsDown(ss: seq<Lan>, acts: seq<Action>, g: nat)
    requires |ss| == |acts| + 1 && g < |acts|
  {
    acts[g].PeerUpdate? && ss[g].lead.isLeader && !ss[g + 1].lead.isLeader
  }

  /** A leader that is on its way to a vote has stepped down for a peer since. */
  lemma {:induction false} LeaderSteppedDown(
      starts: Starts, ss: seq<Lan>, acts: seq<Action>, f: nat, i: nat) returns (g: nat)
    requires IsRun(starts, ss, acts) && f < i < |ss| && ss[f].lead.isLeader && !ss[i].lead.isLeader
    requires forall k :: f < k <= i ==> !ss[k].phase.Waiting?
    ensures f <= g < i && StepsDown(ss, acts, g)
  {
    if ss[i - 1].lead.isLeader {
      g := i - 1;
    } else {
      g := LeaderSteppedDown(starts, ss, acts, f, i - 1);
    }
  }

  /** From a ranking to its vote the election does not wait in between. */
  lemma {:induction false} BusyUntilVote(starts: Starts, ss: seq<Lan>, acts: seq<Action>, r: nat, v: nat, i: nat)
    requires IsRun(starts, ss, acts) && VoteOf(acts, r, v) && r < i <= v
    ensures HasWinner(ss[i].phase)
    decreases v - i
  {
    if i < v {
      BusyUntilVote(starts, ss, acts, r, v, i + 1);
    }
  }

  /**
    What it takes for a node to elect itself past an older node: since it refreshed its record for
    this very election, either main.go announced it as a server, or it led at the refresh and has
    stepped down for a peer before the vote.
  */
  lemma VotePastOlderNeeds(starts: Starts, ss: seq<Lan>, acts: seq<Action>, r: nat, v: nat, b: string, d: real)
      returns (f: nat)
    requires IsRun(starts, ss, acts) && VoteOf(acts, r, v) && FreshOlder(starts, ss[r], b, d)
    requires ss[v + 1].lead.isLeader
    ensures RefreshedSince(ss, acts, f, r)
    ensures AnnouncedServer(acts, f, r)
            || (ss[f].lead.isLeader && exists g :: f <= g < v && StepsDown(ss, acts, g))
  {
    VotePastOlderIff(starts, ss, acts, r, v, b, d);
    f := ServerModeFrom(starts, ss, acts, r);
    if ss[f].lead.isLeader {
      forall k | f < k <= v ensures !ss[k].phase.Waiting? {
        if r < k { BusyUntilVote(starts, ss, acts, r, v, k); }
      }
      var g := LeaderSteppedDown(starts, ss, acts, f, v);
    }
  }

  /**
    Step `a` keeps to the terms under which a node that knows an older one never elects itself: a
    fresh record of one at every ranking, and no announcement as a server between refresh and ranking.
  */
  ghost predicate Guarded(starts: Starts, s: Lan, a: Action, d: real) {
    && (a.Rank? ==> exists b :: FreshOlder(starts, s, b, d))
    && !(s.phase.Refreshed? && a == OuterUpdateSelf("server"))
  }

  /** The node does not lead and the election under way, if any, is not about to elect it. */
  predicate NotRising(s: Lan) {
    && !s.lead.isLeader
    && (s.phase.Refreshed? ==> s.self.mode != "server")
    && (HasWinner(s.phase) ==> s.phase.winner.id != s.self.id)
  }

  lemma NotRisingKept(starts: Starts, s: Lan, a: Action, d: real)
    requires Inv(starts, s) && NotRising(s) && Enabled(starts, s, a) && Guarded(starts, s, a, d)
    ensures NotRising(Apply(s, a))
  {
    if a.Rank? {
      var b :| FreshOlder(starts, s, b, d);
      WinsPastOlderIff(starts, s, a.listed, b, d);
    }
  }

  /**
    From any point at which the node does not lead on, for instance after it has stepped down: as
    long as its rankings hold a record, at most `d` old, of a node started more than `d` before it,
    it does not become the leader, whatever the tick times of the two nodes.
  */
  lemma {:induction false} NeverElectsItself(
      starts: Starts, ss: seq<Lan>, acts: seq<Action>, d: real, from: nat, i: nat)
    requires IsRun(starts, ss, acts) && from <= i < |ss| && NotRising(ss[from])
    requires forall k :: from <= k < i ==> Guarded(starts, ss[k], acts[k], d)
    ensures NotRising(ss[i])
  {
    if from < i {
      NeverElectsItself(starts, ss, acts, d, from, i - 1);
      InvHolds(starts, ss, acts, i - 1);
      NotRisingKept(starts, ss[i - 1], acts[i - 1], d);
    }
  }

  // ---------------------------------------------------------------------------------------------
  // A node that elects itself past an older one
  // ---------------------------------------------------------------------------------------------

  lemma Extend(starts: Starts, ss: seq<Lan>, acts: seq<Action>, a: Action)
    requires IsRun(starts, ss, acts) && Enabled(starts, ss[|acts|], a)
    ensures IsRun(starts, ss + [Apply(ss[|acts|], a)], acts + [a])
  {
  }

  /** A run of one whole election without peers, from `Waiting` to `Waiting`. */
  lemma ElectAlone(starts: Starts, s0: Lan) returns (ss: seq<Lan>, acts: seq<Action>)
    requires Init(s0)
    ensures IsRun(starts, ss, acts) && |acts| == 6
    ensures ss[6] == s0.(lead := Leadership(true, s0.self.id, "", 0), self := Updated(s0, "server"))
  {
    var s1 := Apply(s0, Refresh);
    var s2 := Apply(s1, Rank([]));
    var s3 := Apply(s2, Pick(None));
    var s4 := Apply(s3, ReadLeader);
    var s5 := Apply(s4, EndProbe(false));
    ss, acts := [s0, s1, s2, s3, s4, s5, Apply(s5, CastVote)],
                [Refresh, Rank([]), Pick(None), ReadLeader, EndProbe(false), CastVote];
  }

  /** A ranked node, with no server in its table and not the leader, votes for the winner. */
  lemma VoteAfterRanking(starts: Starts, ss: seq<Lan>, acts: seq<Action>) returns (ss': seq<Lan>, acts': seq<Action>)
    requires IsRun(starts, ss, acts) && ss[|acts|].phase.Ranked? && !ss[|acts|].lead.isLeader
    requires forall id :: id in ss[|acts|].peers ==> ss[|acts|].peers[id].mode != "server"
    ensures IsRun(starts, ss', acts') && acts' == acts + [Pick(None), ReadLeader, EndProbe(false), CastVote] && ss <= ss'
    ensures ss'[|acts'|].lead == AfterVote(ss[|acts|].lead, ss[|acts|].self.id, ss[|acts|].phase.winner)
  {
    var s0 := ss[|acts|];
    Extend(starts, ss, acts, Pick(None));
    var s1 := Apply(s0, Pick(None));
    Extend(starts, ss + [s1], acts + [Pick(None)], ReadLeader);
    var s2 := Apply(s1, ReadLeader);
    Extend(starts, ss + [s1] + [s2], acts + [Pick(None)] + [ReadLeader], EndProbe(false));
    var s3 := Apply(s2, EndProbe(false));
    Extend(starts, ss + [s1] + [s2] + [s3], acts + [Pick(None)] + [ReadLeader] + [EndProbe(false)], CastVote);
    ss' := ss + [s1] + [s2] + [s3] + [Apply(s3, CastVote)];
    acts' := acts + [Pick(None)] + [ReadLeader] + [EndProbe(false)] + [CastVote];
  }

  /**
    It can happen: the node led, refreshed its record as "server", stepped down for a peer before
    reading isLeader, and then outranks that older peer, which meanwhile announces itself as an
    agent, with the mode it no longer has.
  */
  lemma StaleModeReelects() returns (starts: Starts, ss: seq<Lan>, acts: seq<Action>)
    ensures IsRun(starts, ss, acts) && |acts| == 15
    ensures VoteOf(acts, 10, 14) && FreshOlder(starts, ss[10], "b", 1.0)
    ensures !ss[10].lead.isLeader && ss[15].lead.isLeader
  {
    starts := id => iset{-39.0};
    var a := Peer("a", "10.0.0.1", 8080, "standalone", 0.0);
    var b := Peer("b", "10.0.0.2", 8080, "server", 99.0);
    var b' := b.(mode := "agent");
    ss, acts := ElectAlone(starts, Lan(60.0, 50.0, Leadership(false, "", "", 0), a, map[], map[], {}, {}, Waiting));
    ss, acts := StepDownAfterRefresh(starts, ss, acts, b, b');
    var s10 := ss[10];
    assert s10.peers == map["b" := b'] && s10.self == Peer("a", "10.0.0.1", 8080, "server", 10.0);
    Extend(starts, ss, acts, Rank([b']));
    var s11 := Apply(s10, Rank([b']));
    ss, acts := ss + [s11], acts + [Rank([b'])];
    assert s11.phase == Ranked(s10.self);
    ss, acts := VoteAfterRanking(starts, ss, acts);
  }

  /** A leader refreshes its record, then hears of server `b`, steps down for it, and hears from it again as `b'`. */
  lemma StepDownAfterRefresh(starts: Starts, ss: seq<Lan>, acts: seq<Action>, b: Peer, b': Peer)
      returns (ss': seq<Lan>, acts': seq<Action>)
    requires IsRun(starts, ss, acts) && |acts| == 6
    requires var s := ss[6];
             && s.phase.Waiting? && s.lead.isLeader && s.peers == map[] && s.taken == map[] && s.found == {}
             && b.id != s.self.id && s.now - b.uptime in starts(b.id)
    requires b.mode == "server" && b'.id == b.id && b'.uptime == b.uptime
    ensures IsRun(starts, ss', acts') && |acts'| == 10
    ensures var s := ss[6];
            ss'[10] == Lan(s.now, s.started, Following(b), Updated(s, "server"),
                           map[b.id := b'], map[b.id := s.now], {}, s.lost, Refreshed)
  {
    var s6 := ss[6];
    var s7 := Apply(s6, Refresh);
    Extend(starts, ss, acts, Refresh);
    ss', acts' := ss + [s7], acts + [Refresh];
    var s8 := Apply(s7, Hear(b, s6.now));
    Extend(starts, ss', acts', Hear(b, s6.now));
    ss', acts' := ss' + [s8], acts' + [Hear(b, s6.now)];
    var s9 := Apply(s8, PeerUpdate(b, true));
    Extend(starts, ss', acts', PeerUpdate(b, true));
    ss', acts' := ss' + [s9], acts' + [PeerUpdate(b, true)];
    Extend(starts, ss', acts', Hear(b', s6.now));
    ss', acts' := ss' + [Apply(s9, Hear(b', s6.now))], acts' + [Hear(b', s6.now)];
    assert map[b.id := b][b.id := b'] == map[b.id := b'];
    assert map[b.id := s6.now][b.id := s6.now] == map[b.id := s6.now];
  }
}
