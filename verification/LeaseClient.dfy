/**
  The calls that use primary_server.json, as one node executes them.  Answers of the network and
  clock readings are parameters; the decisions are those of LeaseProtocol.
*/
module LeaseClient {
  import opened Common
  import opened LeaseProtocol

  /** How a GET of the file ends: an HTTP status, a file that decodes, or one that does not. */
  datatype GetReply = GetError | GetStatus(code: int) | GetFile(lease: Lease) | GetGarbled

  datatype PutReply = PutError | PutStatus(code: int)

  /** A PUT: the new content, and the content whose SHA it carries (none when creating the file). */
  datatype Request = Request(lease: Lease, base: Option<Lease>)

  predicate AuthRefused(code: int) { code == 401 || code == 403 }

  predicate Accepted(reply: PutReply) { reply.PutStatus? && (reply.code == 200 || reply.code == 201) }

  /** What the answer to the GET says about the file; None if it says nothing usable. */
  function Seen(get: GetReply): Option<Option<Lease>> {
    match get
    case GetStatus(code) => if code == 404 then Some(None) else None
    case GetFile(l) => Some(Some(l))
    case _ => None
  }

  function WriteOutcome(put: PutReply): Outcome {
    if Accepted(put) then Yes
    else if put.PutStatus? && (AuthRefused(put.code) || put.code == 409) then No
    else Failed
  }

  /** `githubAuthOK` and `githubAuthError`. */
  datatype Auth = Auth(ok: bool, error: string) {
    /** The token is known to be bad. */
    predicate BacksOff() { !ok && error != "" }
  }

  function AuthAfterGet(auth: Auth, get: GetReply): Auth {
    if get.GetStatus? && AuthRefused(get.code) then Auth(false, "token revoked or missing scopes") else auth
  }

  function AuthAfterPut(auth: Auth, put: PutReply): Auth {
    if Accepted(put) then Auth(true, "")
    else if put.PutStatus? && AuthRefused(put.code) then Auth(false, "token revoked or missing scopes")
    else auth
  }

  /** `result` and `leader` of the last setElectionStatus call. */
  datatype Status = Status(result: string, leader: NodeId)

  /** The result setElectionStatus records for a PUT that tryClaimLeadership sent without an error. */
  function ResultName(why: Reason): string {
    match why
    case Absent => "claimed"
    case Own => "renewed"
    case _ => "stale-takeover"
  }

  /** What renewLeadership answers when the GET tells it nothing. */
  function UnreadOutcome(get: GetReply): Outcome {
    match get
    case GetError => Failed
    case GetStatus(code) => if AuthRefused(code) then No else Failed
    case _ => No
  }

  /** The leader that setElectionStatus is given for a failed PUT over `base`. */
  function LeaderIn(base: Option<Lease>): NodeId { if base.Some? then base.value.host else "" }

  /** What a call answers that sent a PUT. */
  predicate Answers(put: PutReply, outcome: Outcome) {
    && (outcome == Yes <==> put.PutStatus? && (put.code == 200 || put.code == 201))
    && (outcome == No <==> put.PutStatus? && (put.code == 401 || put.code == 403 || put.code == 409))
  }

  /** The answers after which a renewal records no leader: no file was read, and none was created. */
  predicate ClearsLeader(get: GetReply, put: PutReply) {
    get.GetError?
    || (get.GetStatus? && (AuthRefused(get.code) || (get.code == 404 && WriteOutcome(put) == Failed)))
  }

  /** A tick of one of the two tickers of the renewal goroutine, with what the calls it may make get back. */
  datatype Tick =
    | OfLeader(get: GetReply, probes: seq<bool>, putClock: int, put: PutReply)
    | OfFollower(configured: bool, get: GetReply, clock: int, interval: int, putClock: int, put: PutReply)

  /** None of the first `n` ticks is a renewal that clears the leader. */
  ghost predicate NoneClears(ticks: seq<Tick>, n: nat)
    requires n <= |ticks|
  {
    forall k :: 0 <= k < n && ticks[k].OfLeader? ==> !ClearsLeader(ticks[k].get, ticks[k].put)
  }

  class Node {
    const agentID: NodeId
    const myHostname: string
    const hostname: string
    var auth: Auth
    var status: Status
    var isServerMode: bool
    var agentMode: bool
    var serverCancelled: bool

    constructor (agentID: NodeId, myHostname: string, hostname: string)
      ensures this.agentID == agentID && this.myHostname == myHostname && this.hostname == hostname
      ensures !auth.BacksOff()
    {
      this.agentID, this.myHostname, this.hostname := agentID, myHostname, hostname;
      auth := Auth(false, "");
      status := Status("", "");
      isServerMode, agentMode, serverCancelled := false, false, false;
    }

    method WritePrimaryServerFile(base: Option<Lease>, clock: int, put: PutReply)
        returns (outcome: Outcome, sent: Request)
      modifies this`auth
      ensures sent == Request(Lease(agentID, UnixMilli(clock)), base)
      ensures outcome == WriteOutcome(put)
      ensures auth == AuthAfterPut(old(auth), put)
      ensures sent.lease.host == agentID && sent.lease.updated == clock / 1_000_000 && sent.base == base
      ensures outcome == Yes <==> put.PutStatus? && (put.code == 200 || put.code == 201)
      ensures outcome == No <==> put.PutStatus? && (put.code == 401 || put.code == 403 || put.code == 409)
      ensures outcome == Yes ==> auth == Auth(true, "")
      ensures put.PutStatus? && (put.code == 401 || put.code == 403) ==> !auth.ok && auth.error != ""
      ensures outcome != Yes && !(put.PutStatus? && (put.code == 401 || put.code == 403)) ==> auth == old(auth)
    {
      sent := Request(Lease(agentID, UnixMilli(clock)), base);
      match put
      case PutError => return Failed, sent;
      case PutStatus(code) =>
        if code == 201 || code == 200 {
          auth := Auth(true, "");
          return Yes, sent;
        }
        if code == 401 || code == 403 {
          auth := Auth(false, "token revoked or missing scopes");
          return No, sent;
        }
        if code == 409 {
          return No, sent;
        }
        return Failed, sent;
    }

    /**
      Sends a PUT exactly when LeaseProtocol.ClaimChoice says to write, over exactly what was
      read, and answers true exactly when that PUT was accepted.  The status is no such witness:
      it names this node even when the PUT was refused.
    */
    method TryClaimLeadership(get: GetReply, clock: int, interval: int, putClock: int, put: PutReply)
        returns (outcome: Outcome, sent: Option<Request>)
      modifies this`auth, this`status
      ensures sent.Some? <==> !old(auth).BacksOff() && Seen(get).Some?
                              && ClaimChoice(agentID, Seen(get).value, clock, interval).Write?
      ensures sent.Some? ==> sent.value == Request(Lease(agentID, UnixMilli(putClock)), Seen(get).value)
                             && outcome == WriteOutcome(put)
      ensures sent.None? ==> outcome == if !old(auth).BacksOff() && get.GetFile? then No else Failed
      ensures outcome == Yes <==> sent.Some? && Accepted(put)
      ensures auth == if old(auth).BacksOff() then old(auth)
                      else if sent.Some? then AuthAfterPut(old(auth), put)
                      else AuthAfterGet(old(auth), get)
      ensures sent.Some? && outcome != Failed ==>
                status == Status(ResultName(ClaimChoice(agentID, Seen(get).value, clock, interval).why), agentID)
      ensures outcome == Failed ==>
                status == Status("error", if sent.Some? then LeaderIn(sent.value.base) else "")
      ensures sent.None? && outcome == No ==> status == Status("active", get.lease.host)
      // The branches, each by itself.
      ensures old(!auth.ok && auth.error != "") || get.GetError? || get.GetGarbled?
              || (get.GetStatus? && get.code != 404) ==>
                outcome == Failed && sent == None && status == Status("error", "")
      ensures get.GetStatus? && get.code == 404 && !old(!auth.ok && auth.error != "") ==>
                && sent == Some(Request(Lease(agentID, putClock / 1_000_000), None)) && Answers(put, outcome)
                && status == if outcome == Failed then Status("error", "") else Status("claimed", agentID)
      ensures get.GetFile? && !old(!auth.ok && auth.error != "") && get.lease.host == agentID ==>
                && sent == Some(Request(Lease(agentID, putClock / 1_000_000), Some(get.lease))) && Answers(put, outcome)
                && status == Status(if outcome == Failed then "error" else "renewed", agentID)
      ensures get.GetFile? && !old(!auth.ok && auth.error != "") && get.lease.host != agentID
              && clock - get.lease.updated * 1_000_000 > interval ==>
                && sent == Some(Request(Lease(agentID, putClock / 1_000_000), Some(get.lease))) && Answers(put, outcome)
                && status == if outcome == Failed then Status("error", get.lease.host) else Status("stale-takeover", agentID)
      ensures get.GetFile? && !old(!auth.ok && auth.error != "") && get.lease.host != agentID
              && clock - get.lease.updated * 1_000_000 <= interval ==>
                outcome == No && sent == None && status == Status("active", get.lease.host) && auth == old(auth)
      ensures get.GetStatus? && (get.code == 401 || get.code == 403) ==> !auth.ok && auth.error != ""
      ensures sent.None? && !(get.GetStatus? && (get.code == 401 || get.code == 403)) ==> auth == old(auth)
      ensures sent.Some? && put.PutStatus? && (put.code == 401 || put.code == 403) ==> !auth.ok && auth.error != ""
    {
      if auth.BacksOff() {
        status := Status("error", "");
        return Failed, None;
      }
      match get
      case GetError =>
        status := Status("error", "");
        return Failed, None;
      case GetStatus(code) =>
        if code == 401 || code == 403 {
          auth := Auth(false, "token revoked or missing scopes");
          status := Status("error", "");
          return Failed, None;
        }
        if code == 404 {
          var o, s := WritePrimaryServerFile(None, putClock, put);
          status := if o == Failed then Status("error", "") else Status("claimed", agentID);
          return o, Some(s);
        }
        status := Status("error", "");
        return Failed, None;
      case GetGarbled =>
        status := Status("error", "");
        return Failed, None;
      case GetFile(l) =>
        if l.host == agentID {
          var o, s := WritePrimaryServerFile(Some(l), putClock, put);
          status := if o == Failed then Status("error", l.host) else Status("renewed", l.host);
          return o, Some(s);
        }
        if Age(clock, l) > interval {
          var o, s := WritePrimaryServerFile(Some(l), putClock, put);
          status := if o == Failed then Status("error", l.host) else Status("stale-takeover", agentID);
          return o, Some(s);
        }
        status := Status("active", l.host);
        return No, None;
    }

    /**
      Renews, or reacts to another host in the file.  `probes[i]` tells whether the i-th health
      request to that host is answered.  True is returned without any PUT exactly when the node
      stepped down, so the result does not say who leads.
    */
    method RenewLeadership(get: GetReply, probes: seq<bool>, putClock: int, put: PutReply)
        returns (outcome: Outcome, sent: Option<Request>, steppedDown: bool)
      requires |probes| == 5
      modifies this
      ensures var names := {myHostname, hostname};
              var choice := if old(auth).BacksOff() || Seen(get).None? then Follow
                            else RenewChoice(agentID, names, Seen(get).value);
              && (sent.Some? <==> choice.Write? || (choice.ProbeHost? && true !in probes))
              && (steppedDown <==> choice.ProbeHost? && true in probes)
      ensures sent.Some? ==> sent.value == Request(Lease(agentID, UnixMilli(putClock)), Seen(get).value)
                             && outcome == WriteOutcome(put)
      ensures sent.None? ==> outcome == if steppedDown then Yes
                                        else if old(auth).BacksOff() then No else UnreadOutcome(get)
      ensures auth == if old(auth).BacksOff() then old(auth)
                      else if sent.Some? then AuthAfterPut(old(auth), put)
                      else AuthAfterGet(old(auth), get)
      ensures sent.Some? && (get.GetFile? ==> get.lease.host == agentID) ==>
                status == if outcome == Failed then Status("error", LeaderIn(Seen(get).value))
                          else Status(ResultName(if get.GetFile? then Own else Absent), agentID)
      ensures !old(auth).BacksOff() && (get.GetError? || (get.GetStatus? && AuthRefused(get.code))) ==>
                status == Status("error", "")
      ensures (old(auth).BacksOff() || get.GetGarbled? || (get.GetFile? && get.lease.host != agentID)
               || (get.GetStatus? && get.code != 404 && !AuthRefused(get.code))) ==> status == old(status)
      ensures steppedDown ==> !isServerMode && agentMode && serverCancelled
      ensures !steppedDown ==> isServerMode == old(isServerMode) && agentMode == old(agentMode)
                               && serverCancelled == old(serverCancelled)
      // The branches, each by itself.
      ensures old(!auth.ok && auth.error != "") ==>
                outcome == No && sent == None && !steppedDown && status == old(status) && auth == old(auth)
      ensures get.GetStatus? && get.code == 404 && !old(!auth.ok && auth.error != "") ==>
                && sent == Some(Request(Lease(agentID, putClock / 1_000_000), None)) && Answers(put, outcome)
                && !steppedDown
                && status == if outcome == Failed then Status("error", "") else Status("claimed", agentID)
      ensures get.GetFile? && !old(!auth.ok && auth.error != "") && get.lease.host == agentID ==>
                && sent == Some(Request(Lease(agentID, putClock / 1_000_000), Some(get.lease))) && Answers(put, outcome)
                && !steppedDown
                && status == Status(if outcome == Failed then "error" else "renewed", agentID)
      ensures get.GetFile? && !old(!auth.ok && auth.error != "") && get.lease.host != agentID
              && (get.lease.host == myHostname || get.lease.host == hostname) ==>
                && sent == Some(Request(Lease(agentID, putClock / 1_000_000), Some(get.lease))) && Answers(put, outcome)
                && !steppedDown && status == old(status)
      ensures get.GetFile? && !old(!auth.ok && auth.error != "")
              && get.lease.host != agentID && get.lease.host != myHostname && get.lease.host != hostname ==>
                && status == old(status)
                && steppedDown == (exists i :: 0 <= i < 5 && probes[i])
                && (steppedDown ==> sent == None && outcome == Yes && auth == old(auth))
                && (!steppedDown ==>
                      sent == Some(Request(Lease(agentID, putClock / 1_000_000), Some(get.lease))) && Answers(put, outcome))
      ensures !old(!auth.ok && auth.error != "") && (get.GetError? || (get.GetStatus? && get.code != 404)) ==>
                && sent == None && !steppedDown
                && outcome == (if get.GetStatus? && (get.code == 401 || get.code == 403) then No else Failed)
      ensures !old(!auth.ok && auth.error != "")
              && (get.GetError? || (get.GetStatus? && (get.code == 401 || get.code == 403))) ==>
                status == Status("error", "")
      ensures get.GetGarbled? ==> sent == None && !steppedDown && outcome == No && auth == old(auth) && status == old(status)
      ensures get.GetStatus? && get.code != 404 && get.code != 401 && get.code != 403 ==>
                status == old(status) && auth == old(auth)
      ensures !old(!auth.ok && auth.error != "") && get.GetStatus? && (get.code == 401 || get.code == 403) ==>
                !auth.ok && auth.error != ""
    {
      steppedDown := false;
      if auth.BacksOff() {
        return No, None, false;
      }
      match get
      case GetError =>
        status := Status("error", "");
        return Failed, None, false;
      case GetStatus(code) =>
        if code == 401 || code == 403 {
          auth := Auth(false, "token revoked or missing scopes");
          status := Status("error", "");
          return No, None, false;
        }
        if code == 404 {
          var o, s := WritePrimaryServerFile(None, putClock, put);
          status := if o == Failed then Status("error", "") else Status("claimed", agentID);
          return o, Some(s), false;
        }
        return Failed, None, false;
      case GetGarbled => return No, None, false;
      case GetFile(l) =>
        if l.host != agentID {
          if l.host == myHostname || l.host == hostname {
            var o, s := WritePrimaryServerFile(Some(l), putClock, put);
            return o, Some(s), false;
          }
          var found := false;
          var i := 0;
          while i < PROBES && !found
            invariant 0 <= i <= PROBES
            invariant found <==> true in probes[..i]
          {
            if probes[i] {
              found := true;
            }
            i := i + 1;
            assert probes[..i] == probes[..i - 1] + [probes[i - 1]];
          }
          assert !found ==> probes[..i] == probes;
          if found {
            isServerMode, agentMode, serverCancelled := false, true, true;
            return Yes, None, true;
          } else {
            var o, s := WritePrimaryServerFile(Some(l), putClock, put);
            return o, Some(s), false;
          }
        }
        var o, s := WritePrimaryServerFile(Some(l), putClock, put);
        status := if o == Failed then Status("error", l.host) else Status("renewed", l.host);
        return o, Some(s), false;
    }

    /** The two guards of the renewal goroutine. */
    predicate IsLeader()
      reads this
    {
      status.leader == agentID
    }

    predicate Renews()
      reads this
    {
      IsLeader() || !isServerMode
    }

    /**
      A tick of the leader ticker.  After a renewal the next tick renews too, unless the answers
      cleared the leader in the status: then it does not, until another call restores it.
    */
    method LeaderTick(get: GetReply, probes: seq<bool>, putClock: int, put: PutReply)
        returns (renewed: bool, sent: Option<Request>)
      requires |probes| == 5
      modifies this
      ensures renewed == old(status.leader == agentID || !isServerMode)
      ensures !renewed ==> sent == None && auth == old(auth) && status == old(status)
                           && isServerMode == old(isServerMode)
      ensures agentID != "" && old(status.leader == agentID) ==>
                (status.leader == agentID <==> old(!auth.ok && auth.error != "") || !ClearsLeader(get, put))
      ensures !old(isServerMode) ==> !isServerMode
    {
      renewed := IsLeader() || !isServerMode;
      sent := None;
      if renewed {
        var o, s, stepped := RenewLeadership(get, probes, putClock, put);
        sent := s;
      }
    }

    /** A tick of the follower ticker; `configured` tells whether there is a repository and a token. */
    method FollowerTick(configured: bool, get: GetReply, clock: int, interval: int, putClock: int, put: PutReply)
        returns (called: bool, sent: Option<Request>)
      modifies this`auth, this`status
      ensures called <==> configured && old(status.leader != agentID)
      ensures !called ==> sent == None && auth == old(auth) && status == old(status)
      ensures called && agentID != "" ==>
                (status.leader == agentID <==> sent.Some? && (WriteOutcome(put) != Failed || LeaderIn(sent.value.base) == agentID))
    {
      called := configured && !IsLeader();
      sent := None;
      if called {
        var o, s := TryClaimLeadership(get, clock, interval, putClock, put);
        sent := s;
      }
    }

    /** One turn of the goroutine's loop. */
    method HandleTick(t: Tick) returns (acted: bool)
      requires t.OfLeader? ==> |t.probes| == 5
      modifies this
      ensures agentID != "" && old(IsLeader()) ==>
                (acted <==> t.OfLeader?) && (IsLeader() || (t.OfLeader? && ClearsLeader(t.get, t.put)))
    {
      match t
      case OfLeader(get, probes, putClock, put) =>
        var renewed, _ := LeaderTick(get, probes, putClock, put);
        return renewed;
      case OfFollower(configured, get, clock, interval, putClock, put) =>
        var called, _ := FollowerTick(configured, get, clock, interval, putClock, put);
        return called;
    }

    /**
      The goroutine's loop over the ticks delivered so far; `acted[k]` tells whether the k-th made a
      call.  From a node that leads, as long as no answer has cleared the leader, exactly the leader
      ticks do.
    */
    method RunTicker(ticks: seq<Tick>) returns (acted: seq<bool>)
      requires forall k :: 0 <= k < |ticks| && ticks[k].OfLeader? ==> |ticks[k].probes| == 5
      modifies this
      ensures |acted| == |ticks|
      ensures agentID != "" && old(IsLeader()) ==>
                forall n :: 0 <= n < |ticks| && NoneClears(ticks, n) ==> (acted[n] <==> ticks[n].OfLeader?)
    {
      acted := [];
      for i := 0 to |ticks|
        invariant |acted| == i
        invariant agentID != "" && old(IsLeader()) && NoneClears(ticks, i) ==> IsLeader()
        invariant agentID != "" && old(IsLeader()) ==>
                    forall n :: 0 <= n < i && NoneClears(ticks, n) ==> (acted[n] <==> ticks[n].OfLeader?)
      {
        assert NoneClears(ticks, i + 1) ==> NoneClears(ticks, i);
        var a := HandleTick(ticks[i]);
        acted := acted + [a];
      }
    }

    /** Tells an agent to go back to the election. */
    method IsLeaderStale(get: GetReply, clock: int, interval: int) returns (stale: bool)
      ensures stale == LeaderStale(agentID, get, clock, interval)
      ensures get.GetFile? ==> stale == (get.lease.host != agentID && clock - get.lease.updated * 1_000_000 > interval)
      ensures get.GetStatus? ==> stale == (get.code == 404)
      ensures get.GetError? || get.GetGarbled? ==> !stale
    {
      match get
      case GetError => return false;
      case GetStatus(code) => return code == 404;
      case GetGarbled => return false;
      case GetFile(l) =>
        if l.host == agentID {
          return false;
        }
        return Age(clock, l) > interval;
    }
  }

  predicate LeaderStale(self: NodeId, get: GetReply, clock: int, interval: int) {
    match get
    case GetStatus(code) => code == 404
    case GetFile(l) => l.host != self && Age(clock, l) > interval
    case _ => false
  }

  /**
    isLeaderStale says true exactly of the files that tryClaimLeadership, reading the same answer
    at the same time, would take from another host or create; so an agent that returns to the
    election because of it does try to claim.
  */
  lemma StaleIffClaimable(self: NodeId, get: GetReply, clock: int, interval: int)
    ensures LeaderStale(self, get, clock, interval) <==>
            Seen(get).Some?
            && ClaimChoice(self, Seen(get).value, clock, interval).Write?
            && ClaimChoice(self, Seen(get).value, clock, interval).why != Own
  {
  }

  // ---------------------------------------------------------------------------------------------
  // The calls as operations of LeaseProtocol
  // ---------------------------------------------------------------------------------------------

  /** Operation `i` has come as far as a call that gets `get` back, or that backs off without asking. */
  predicate Answered(w: World, i: nat, kind: Kind, get: GetReply, backsOff: bool) {
    && Running(w, i)
    && w.ops[i].kind == kind
    && w.ops[i].phase == if backsOff || Seen(get).None? then Asked else Saw(Seen(get).value)
  }

  /** Operation `i` can send what writePrimaryServerFile sends over `base`, and return what it returns. */
  ghost predicate CanWrite(c: Setting, w: World, i: nat, base: Option<Lease>, why: Reason, put: PutReply) {
    && Running(w, i)
    && w.ops[i].phase == Ready(base, why)
    && Enabled(c, w, Send(i))
    && (var p := Apply(c, w, Send(i)).ops[i].phase;
        && p.lease == Lease(w.ops[i].node, w.clock(w.ops[i].node) / 1_000_000) && p.base == base && p.why == why
        && CanReturn(w.ops[i].kind, p.(fate := if Accepted(put) then Landed else Refused), WriteOutcome(put)))
  }

  /**
    Whatever the answers, what a call of tryClaimLeadership does is, in LeaseProtocol's terms, what
    its operation can do: the theorems about all runs cover the imperative call.
  */
  lemma ClaimIsAnOperation(c: Setting, w: World, i: nat, get: GetReply, backsOff: bool, interval: int, put: PutReply)
    requires Answered(w, i, Claim, get, backsOff) && c.interval <= interval
    ensures backsOff || Seen(get).None? ==> Enabled(c, w, Return(i, Failed))
    ensures !backsOff && Seen(get).Some? ==>
              && Enabled(c, w, Decide(i, interval))
              && var w1 := Apply(c, w, Decide(i, interval));
                 match ClaimChoice(w.ops[i].node, Seen(get).value, w.clock(w.ops[i].node), interval)
                 case Write(why) => CanWrite(c, w1, i, Seen(get).value, why, put)
                 case _ => Enabled(c, w1, Return(i, No))
  {
    if !backsOff && Seen(get).Some? {
      assert Apply(c, w, Decide(i, interval)).ops[i].outcome.None?;
    }
  }

  /** The steps of renewLeadership's loop, one for each probe until one succeeds. */
  ghost function AfterProbes(c: Setting, w: World, i: nat, probes: seq<bool>): World
    requires Running(w, i)
    decreases |probes|
  {
    if probes == [] || !w.ops[i].phase.Probing? then w
    else AfterProbes(c, Apply(c, w, Probe(i, probes[0])), i, probes[1..])
  }

  lemma {:induction false} ProbesDecide(c: Setting, w: World, i: nat, probes: seq<bool>)
    requires Running(w, i) && w.ops[i].phase.Probing?
    requires w.ops[i].phase.failed < PROBES && |probes| == 5 - w.ops[i].phase.failed
    ensures var target := w.ops[i].phase.target;
            AfterProbes(c, w, i, probes) ==
            WithPhase(w, i, if true in probes then SteppedDown else Ready(Some(target), Unreachable(5)))
    decreases |probes|
  {
    var w1 := Apply(c, w, Probe(i, probes[0]));
    assert probes == [probes[0]] + probes[1..];
    assert true in probes <==> probes[0] || true in probes[1..];
    if w1.ops[i].phase.Probing? {
      ProbesDecide(c, w1, i, probes[1..]);
    }
  }

  /**
    The same of renewLeadership: it writes, or it probes the other host and then steps down and
    answers true, or reclaims.
  */
  lemma RenewIsAnOperation(
      c: Setting, w: World, i: nat, get: GetReply, backsOff: bool, probes: seq<bool>, put: PutReply)
    requires Answered(w, i, Renew, get, backsOff) && |probes| == 5
    ensures backsOff ==> Enabled(c, w, Return(i, No))
    ensures !backsOff && Seen(get).None? ==> Enabled(c, w, Return(i, UnreadOutcome(get)))
    ensures !backsOff && Seen(get).Some? ==>
              && Enabled(c, w, Decide(i, c.interval))
              && var w1 := Apply(c, w, Decide(i, c.interval));
                 match RenewChoice(w.ops[i].node, c.names(w.ops[i].node), Seen(get).value)
                 case Write(why) => CanWrite(c, w1, i, Seen(get).value, why, put)
                 case _ =>
                   && Running(w1, i)
                   && var w2 := AfterProbes(c, w1, i, probes);
                      if true in probes then Enabled(c, w2, Return(i, Yes))
                      else CanWrite(c, w2, i, Seen(get).value, Unreachable(5), put)
  {
    if !backsOff && Seen(get).Some? {
      var w1 := Apply(c, w, Decide(i, c.interval));
      assert w1.ops[i].outcome.None?;
      if w1.ops[i].phase.Probing? {
        ProbesDecide(c, w1, i, probes);
      }
    }
  }
}
