/**
  The election over the shared file primary_server.json, as a transition system.

  Every call of tryClaimLeadership or renewLeadership, on any node and in any goroutine, is one
  operation.  An operation's HTTP requests reach the repository and its answers come back at
  arbitrary times, so the steps of all operations interleave freely.  A PUT carries the SHA of
  the content that was read; the SHA determines the content, so the PUT lands exactly when the
  file still holds that content (or, with no SHA, exactly when there is no file).

  Clock readings and intervals are in nanoseconds; the file's `updated` field is in milliseconds.
*/
module LeaseProtocol {
  import opened Common

  type NodeId = string

  /** The decoded content of primary_server.json. */
  datatype Lease = Lease(host: NodeId, updated: int)

  /** time.UnixMilli(ms) as nanoseconds. */
  function Nanos(ms: int): int { ms * 1_000_000 }

  /** Time.UnixMilli(): rounds down. */
  function UnixMilli(ns: int): int { ns / 1_000_000 }

  /** time.Since(time.UnixMilli(l.updated)) on a clock that reads `clock`. */
  function Age(clock: int, l: Lease): int { clock - Nanos(l.updated) }

  /** Why a node writes the file, with what it knew when it decided to. */
  datatype Reason =
    | Absent                               // the GET found no file
    | Own                                  // the file names this node's AgentID
    | Stale(clock: int, interval: int)     // older than the interval on this node's clock
    | Alias                                // the file names this node's hostname
    | Unreachable(probes: nat)             // the named host failed this many probes in a row

  predicate Forced(why: Reason) { why.Alias? || why.Unreachable? }

  /** What a node does once it knows the file. */
  datatype Choice = Write(why: Reason) | Follow | ProbeHost

  /** The branches of tryClaimLeadership after a successful GET. */
  function ClaimChoice(self: NodeId, seen: Option<Lease>, clock: int, interval: int): Choice {
    match seen
    case None => Write(Absent)
    case Some(l) =>
      if l.host == self then Write(Own)
      else if Age(clock, l) > interval then Write(Stale(clock, interval))
      else Follow
  }

  /** The branches of renewLeadership after a successful GET; `names` are myHostname and getHostname(). */
  function RenewChoice(self: NodeId, names: set<string>, seen: Option<Lease>): Choice {
    match seen
    case None => Write(Absent)
    case Some(l) =>
      if l.host == self then Write(Own)
      else if l.host in names then Write(Alias)
      else ProbeHost
  }

  const PROBES := 5

  datatype Kind = Claim | Renew

  /** What the repository did with a PUT. */
  datatype Fate = OnWire | Landed | Refused

  datatype Phase =
    | Asked                                                  // GET sent
    | Saw(seen: Option<Lease>)                               // GET answered
    | Probing(target: Lease, failed: nat)                    // renewLeadership's probe loop
    | SteppedDown                                            // a probe succeeded
    | Following                                              // a live lease of another host
    | Ready(base: Option<Lease>, why: Reason)                // about to build the PUT
    | Put(lease: Lease, base: Option<Lease>, why: Reason, fate: Fate)

  /** The (bool, error) pair a call returns. */
  datatype Outcome = Yes | No | Failed

  datatype Op = Op(node: NodeId, kind: Kind, phase: Phase, outcome: Option<Outcome>)

  /** A PUT that landed: what it wrote, what it replaced and why. */
  datatype Landing = Landing(lease: Lease, base: Option<Lease>, why: Reason)

  /** `clock(n)` is node n's wall clock; `now` is the true time. */
  datatype World = World(
    now: int,
    clock: NodeId -> int,
    file: Option<Lease>,
    log: seq<Landing>,
    ops: seq<Op>)

  /**
    No node's election interval is below `interval`; no clock is off by more than `skew`.  Clocks
    may be set back within these bounds unless `monotone`.
  */
  datatype Setting = Setting(interval: int, skew: nat, names: NodeId -> set<string>, monotone: bool)

  /** No clock is ever set back: by agreement, or because all clocks show the true time. */
  predicate Steady(c: Setting) { c.monotone || c.skew == 0 }

  datatype Action =
    | Advance(now: int, clock: NodeId -> int)    // time passes
    | Begin(node: NodeId, kind: Kind)            // a call sends its GET
    | Serve(op: nat)                             // the repository answers the GET
    | Decide(op: nat, interval: int)             // the node looks at the answer
    | Probe(op: nat, alive: bool)                // one health probe of the named host ends
    | Send(op: nat)                              // writePrimaryServerFile stamps and sends
    | Handle(op: nat)                            // the repository compares the SHA
    | Reject(op: nat)                            // the repository refuses for another reason
    | Return(op: nat, outcome: Outcome)          // the call returns
    | Delete                                     // somebody removes the file

  predicate OpIn(w: World, i: nat) { i < |w.ops| }

  ghost predicate ClocksWithin(c: Setting, w: World) {
    forall n :: w.now - c.skew <= w.clock(n) <= w.now + c.skew
  }

  /** Operation `i` exists and its call has not returned yet. */
  predicate Running(w: World, i: nat) { OpIn(w, i) && w.ops[i].outcome.None? }

  /**
    A call of kind `k` in phase `p` can return `outcome`.  An error while reading the file makes
    tryClaimLeadership fail and renewLeadership answer false; a lost answer can hide a landed PUT.
  */
  predicate CanReturn(k: Kind, p: Phase, outcome: Outcome) {
    match p
    case Asked | Saw(_) => outcome == Failed || (k == Renew && outcome == No)
    case Probing(_, _) | Ready(_, _) => outcome == Failed
    case SteppedDown => outcome == Yes
    case Following => outcome == No
    case Put(_, _, _, fate) =>
      outcome == Failed || (fate == Landed && outcome == Yes) || (fate == Refused && outcome == No)
  }

  ghost predicate Enabled(c: Setting, w: World, a: Action) {
    match a
    case Advance(now, clock) =>
      && w.now <= now
      && (c.monotone ==> forall n :: w.clock(n) <= clock(n))
      && ClocksWithin(c, w.(now := now, clock := clock))
    case Begin(_, _) => true
    case Serve(i) => Running(w, i) && w.ops[i].phase.Asked?
    case Decide(i, interval) => Running(w, i) && w.ops[i].phase.Saw? && c.interval <= interval
    case Probe(i, _) => Running(w, i) && w.ops[i].phase.Probing?
    case Send(i) => Running(w, i) && w.ops[i].phase.Ready?
    case Handle(i) => OpIn(w, i) && w.ops[i].phase.Put? && w.ops[i].phase.fate == OnWire
    case Reject(i) => OpIn(w, i) && w.ops[i].phase.Put? && w.ops[i].phase.fate == OnWire
    case Return(i, o) => Running(w, i) && CanReturn(w.ops[i].kind, w.ops[i].phase, o)
    case Delete => true
  }

  ghost function AfterDecision(c: Setting, w: World, op: Op, interval: int): Phase
    requires op.phase.Saw?
  {
    var choice := if op.kind == Claim
                  then ClaimChoice(op.node, op.phase.seen, w.clock(op.node), interval)
                  else RenewChoice(op.node, c.names(op.node), op.phase.seen);
    match choice
    case Write(why) => Ready(op.phase.seen, why)
    case Follow => Following
    case ProbeHost => Probing(op.phase.seen.value, 0)
  }

  function AfterProbe(p: Phase, alive: bool): Phase
    requires p.Probing?
  {
    if alive then SteppedDown
    else if p.failed + 1 < PROBES then Probing(p.target, p.failed + 1)
    else Ready(Some(p.target), Unreachable(p.failed + 1))
  }

  function WithPhase(w: World, i: nat, p: Phase): World
    requires OpIn(w, i)
  {
    w.(ops := w.ops[i := w.ops[i].(phase := p)])
  }

  ghost function Apply(c: Setting, w: World, a: Action): World
    requires Enabled(c, w, a)
  {
    match a
    case Advance(now, clock) => w.(now := now, clock := clock)
    case Begin(n, k) => w.(ops := w.ops + [Op(n, k, Asked, None)])
    case Serve(i) => WithPhase(w, i, Saw(w.file))
    case Decide(i, interval) => WithPhase(w, i, AfterDecision(c, w, w.ops[i], interval))
    case Probe(i, alive) => WithPhase(w, i, AfterProbe(w.ops[i].phase, alive))
    case Send(i) =>
      var op := w.ops[i];
      WithPhase(w, i, Put(Lease(op.node, UnixMilli(w.clock(op.node))), op.phase.base, op.phase.why, OnWire))
    case Handle(i) =>
      var p := w.ops[i].phase;
      if w.file == p.base then
        WithPhase(w, i, p.(fate := Landed))
        .(file := Some(p.lease), log := w.log + [Landing(p.lease, p.base, p.why)])
      else WithPhase(w, i, p.(fate := Refused))
    case Reject(i) => WithPhase(w, i, w.ops[i].phase.(fate := Refused))
    case Return(i, o) => w.(ops := w.ops[i := w.ops[i].(outcome := Some(o))])
    case Delete => w.(file := None)
  }

  /** At the start there is no file, or one that an earlier run of its host wrote; no call is under way. */
  ghost predicate Init(c: Setting, w: World) {
    && ClocksWithin(c, w)
    && w.ops == []
    && (w.log == [] ==> w.file.None?)
    && (w.log != [] ==> |w.log| == 1 && w.file == Some(w.log[0].lease) && w.log[0].base.None?
                        && w.log[0].why == Absent
                        && Nanos(w.log[0].lease.updated) <= w.now + c.skew
                        && (Steady(c) ==> Nanos(w.log[0].lease.updated) <= w.clock(w.log[0].lease.host)))
  }

  ghost predicate IsRun(c: Setting, ws: seq<World>, acts: seq<Action>) {
    && |ws| == |acts| + 1
    && Init(c, ws[0])
    && (forall i :: 0 <= i < |acts| ==> Enabled(c, ws[i], acts[i]) && ws[i + 1] == Apply(c, ws[i], acts[i]))
  }

  /** Action `a` in world `w` is a PUT that lands. */
  ghost predicate Lands(w: World, a: Action) {
    a.Handle? && OpIn(w, a.op) && w.ops[a.op].phase.Put? && w.file == w.ops[a.op].phase.base
  }

  /** The lease is too old to be trusted anywhere, even with clocks apart by `skew`. */
  predicate Expired(c: Setting, w: World, l: Lease) {
    Age(w.now, l) > c.interval - c.skew
  }
}
