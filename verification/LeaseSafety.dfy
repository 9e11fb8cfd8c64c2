/** What every run of the election over primary_server.json keeps. */
module LeaseSafety {
  import opened Common
  import opened LeaseProtocol

  // ---------------------------------------------------------------------------------------------
  // The inductive invariant
  // ---------------------------------------------------------------------------------------------

  /** The host of `l` stamped it at or before the present: on its own clock too, unless that was set back. */
  predicate Past(c: Setting, w: World, l: Lease) {
    Nanos(l.updated) <= w.now + c.skew && (Steady(c) ==> Nanos(l.updated) <= w.clock(l.host))
  }

  predicate PastOption(c: Setting, w: World, l: Option<Lease>) { l.Some? ==> Past(c, w, l.value) }

  /** `clock` is a reading that node `n` has taken. */
  predicate Read(c: Setting, w: World, n: NodeId, clock: int) {
    clock <= w.now + c.skew && (Steady(c) ==> clock <= w.clock(n))
  }

  /** The reason `node` recorded for replacing `base` holds of `base`. */
  ghost predicate Justified(c: Setting, node: NodeId, base: Option<Lease>, why: Reason) {
    match why
    case Absent => base.None?
    case Own => base.Some? && base.value.host == node
    case Stale(clock, interval) =>
      base.Some? && base.value.host != node && c.interval <= interval < Age(clock, base.value)
    case Alias => base.Some? && base.value.host != node && base.value.host in c.names(node)
    case Unreachable(probes) =>
      base.Some? && base.value.host != node && base.value.host !in c.names(node) && probes == 5
  }

  /** Twice the skew in milliseconds, rounded up: what one stamp can lie before another that was known. */
  function Backstep(c: Setting): nat { (2 * c.skew + 999_999) / 1_000_000 }

  /**
    A lease is stamped at most that much before the one it replaces; on a clock that is never set
    back, no earlier than what the node decided on.
  */
  predicate StampedAfter(c: Setting, base: Option<Lease>, why: Reason, lease: Lease) {
    && (base.Some? ==> base.value.updated <= lease.updated + Backstep(c))
    && (Steady(c) ==>
          && (why.Own? && base.Some? ==> base.value.updated <= lease.updated)
          && (why.Stale? ==> UnixMilli(why.clock) <= lease.updated))
  }

  ghost predicate OpInv(c: Setting, w: World, op: Op) {
    match op.phase
    case Asked | SteppedDown | Following => true
    case Saw(seen) => PastOption(c, w, seen)
    case Probing(target, failed) =>
      Past(c, w, target) && failed < 5 && target.host != op.node && target.host !in c.names(op.node)
    case Ready(base, why) =>
      && PastOption(c, w, base)
      && Justified(c, op.node, base, why)
      && (why.Stale? ==> Read(c, w, op.node, why.clock))
    case Put(lease, base, why, _) =>
      && lease.host == op.node
      && Past(c, w, lease)
      && Justified(c, op.node, base, why)
      && StampedAfter(c, base, why, lease)
      && (why.Stale? ==> Read(c, w, op.node, why.clock))
  }

  ghost predicate Inv(c: Setting, w: World) {
    && ClocksWithin(c, w)
    && (forall k :: 0 <= k < |w.log| ==> Past(c, w, w.log[k].lease))
    && (w.file.Some? ==> w.log != [] && w.file.value == w.log[|w.log| - 1].lease)
    && (forall i :: 0 <= i < |w.ops| ==> OpInv(c, w, w.ops[i]))
  }

  /** Time does not run back, so what held of an operation's leases and clock readings still does. */
  lemma OpInvLater(c: Setting, w: World, w': World, op: Op)
    requires OpInv(c, w, op)
    requires w.now <= w'.now && (Steady(c) ==> forall n :: w.clock(n) <= w'.clock(n))
    ensures OpInv(c, w', op)
  {
  }

  lemma ClocksGoOn(c: Setting, w: World, a: Action)
    requires ClocksWithin(c, w) && Enabled(c, w, a)
    ensures var w' := Apply(c, w, a);
            ClocksWithin(c, w') && w.now <= w'.now && (Steady(c) ==> forall n :: w.clock(n) <= w'.clock(n))
  {
  }

  lemma OpInvDecide(c: Setting, w: World, op: Op, interval: int)
    requires ClocksWithin(c, w) && OpInv(c, w, op) && op.phase.Saw? && c.interval <= interval
    ensures OpInv(c, w, op.(phase := AfterDecision(c, w, op, interval)))
  {
  }

  lemma OpInvSend(c: Setting, w: World, op: Op)
    requires ClocksWithin(c, w) && OpInv(c, w, op) && op.phase.Ready?
    ensures var l := Lease(op.node, UnixMilli(w.clock(op.node)));
            OpInv(c, w, op.(phase := Put(l, op.phase.base, op.phase.why, OnWire)))
  {
    var clock := w.clock(op.node);
    assert w.now - c.skew <= clock <= w.now + c.skew;
    if op.phase.base.Some? {
      StampsApart(c, w.now, clock, op.phase.base.value.updated);
    }
  }

  lemma StampsApart(c: Setting, now: int, clock: int, updated: int)
    requires Nanos(updated) <= now + c.skew && now - c.skew <= clock
    ensures updated <= UnixMilli(clock) + Backstep(c)
  {
  }

  lemma OpInvProbe(c: Setting, w: World, op: Op, alive: bool)
    requires OpInv(c, w, op) && op.phase.Probing?
    ensures OpInv(c, w, op.(phase := AfterProbe(op.phase, alive)))
  {
  }

  lemma OpInvHandled(c: Setting, w: World, op: Op, fate: Fate)
    requires OpInv(c, w, op) && op.phase.Put?
    ensures OpInv(c, w, op.(phase := op.phase.(fate := fate)))
  {
  }

  /** An operation's own step keeps what is known of it. */
  lemma OwnStep(c: Setting, w: World, a: Action, i: nat)
    requires Inv(c, w) && Enabled(c, w, a) && i < |w.ops| && Apply(c, w, a).ops[i] != w.ops[i]
    ensures OpInv(c, w, Apply(c, w, a).ops[i])
  {
    var op := w.ops[i];
    assert OpInv(c, w, op);
    match a
    case Decide(_, interval) => OpInvDecide(c, w, op, interval);
    case Probe(_, alive) => OpInvProbe(c, w, op, alive);
    case Send(_) => OpInvSend(c, w, op);
    case Handle(_) => OpInvHandled(c, w, op, if w.file == op.phase.base then Landed else Refused);
    case Reject(_) => OpInvHandled(c, w, op, Refused);
    case _ =>
  }

  lemma OpInvKept(c: Setting, w: World, a: Action, i: nat)
    requires Inv(c, w) && Enabled(c, w, a) && i < |Apply(c, w, a).ops|
    ensures OpInv(c, Apply(c, w, a), Apply(c, w, a).ops[i])
  {
    var w' := Apply(c, w, a);
    if i < |w.ops| {
      assert OpInv(c, w, w.ops[i]);
      if w'.ops[i] != w.ops[i] {
        OwnStep(c, w, a, i);
      }
      ClocksGoOn(c, w, a);
      OpInvLater(c, w, w', w'.ops[i]);
    }
  }

  lemma InvKept(c: Setting, w: World, a: Action)
    requires Inv(c, w) && Enabled(c, w, a)
    ensures Inv(c, Apply(c, w, a))
  {
    var w' := Apply(c, w, a);
    forall i | 0 <= i < |w'.ops| ensures OpInv(c, w', w'.ops[i]) {
      OpInvKept(c, w, a, i);
    }
    ClocksGoOn(c, w, a);
    if a.Handle? {
      assert OpInv(c, w, w.ops[a.op]);
    }
  }

  lemma {:induction false} InvHolds(c: Setting, ws: seq<World>, acts: seq<Action>, i: nat)
    requires IsRun(c, ws, acts) && i < |ws|
    ensures Inv(c, ws[i])
  {
    if i > 0 {
      InvHolds(c, ws, acts, i - 1);
      InvKept(c, ws[i - 1], acts[i - 1]);
    }
  }

  // ---------------------------------------------------------------------------------------------
  // What a call decides
  // ---------------------------------------------------------------------------------------------

  /** tryClaimLeadership writes over no file, its own or an over-age one, and follows any other. */
  lemma ClaimDecision(c: Setting, w: World, i: nat, interval: int)
    requires Enabled(c, w, Decide(i, interval)) && w.ops[i].kind == Claim
    ensures var self, seen, clock := w.ops[i].node, w.ops[i].phase.seen, w.clock(w.ops[i].node);
            var p := Apply(c, w, Decide(i, interval)).ops[i].phase;
            && (seen == None ==> p == Ready(None, Absent))
            && (seen.Some? && seen.value.host == self ==> p == Ready(seen, Own))
            && (seen.Some? && seen.value.host != self && clock - seen.value.updated * 1_000_000 > interval ==>
                  p == Ready(seen, Stale(clock, interval)))
            && (seen.Some? && seen.value.host != self && clock - seen.value.updated * 1_000_000 <= interval ==>
                  p == Following)
  {
  }

  /** renewLeadership writes over no file, its own or one with its hostname, and probes any other host. */
  lemma RenewDecision(c: Setting, w: World, i: nat, interval: int)
    requires Enabled(c, w, Decide(i, interval)) && w.ops[i].kind == Renew
    ensures var self, names, seen := w.ops[i].node, c.names(w.ops[i].node), w.ops[i].phase.seen;
            var p := Apply(c, w, Decide(i, interval)).ops[i].phase;
            && (seen == None ==> p == Ready(None, Absent))
            && (seen.Some? && seen.value.host == self ==> p == Ready(seen, Own))
            && (seen.Some? && seen.value.host != self && seen.value.host in names ==> p == Ready(seen, Alias))
            && (seen.Some? && seen.value.host != self && seen.value.host !in names ==> p == Probing(seen.value, 0))
  {
  }

  /**
    In no run does a node probe itself under any of its names; so it never steps down for itself,
    and never reclaims from itself.
  */
  lemma NeverProbesItself(c: Setting, ws: seq<World>, acts: seq<Action>, i: nat, o: nat, alive: bool)
    requires IsRun(c, ws, acts) && i < |ws| && Enabled(c, ws[i], Probe(o, alive))
    ensures var op := ws[i].ops[o];
            op.phase.target.host != op.node && op.phase.target.host !in c.names(op.node)
  {
    InvHolds(c, ws, acts, i);
    assert OpInv(c, ws[i], ws[i].ops[o]);
  }

  /** A step down is the answer to such a probe. */
  lemma StepsDownForAnother(c: Setting, ws: seq<World>, acts: seq<Action>, i: nat, o: nat)
    requires IsRun(c, ws, acts) && i < |acts| && OpIn(ws[i + 1], o) && ws[i + 1].ops[o].phase.SteppedDown?
    requires !OpIn(ws[i], o) || !ws[i].ops[o].phase.SteppedDown?
    ensures acts[i] == Probe(o, true) && OpIn(ws[i], o) && ws[i].ops[o].phase.Probing?
    ensures var op := ws[i].ops[o];
            op.phase.target.host != op.node && op.phase.target.host !in c.names(op.node)
  {
    assert Enabled(c, ws[i], acts[i]) && ws[i + 1] == Apply(c, ws[i], acts[i]);
    NeverProbesItself(c, ws, acts, i, o, true);
  }

  // ---------------------------------------------------------------------------------------------
  // Mutual exclusion
  // ---------------------------------------------------------------------------------------------

  /**
    Node `n`, by its own clock, relies on a lease it landed: it leaves a margin of twice the
    clock skew.  With a common clock (skew 0) this is a lease at most one interval old.
  */
  ghost predicate Trusts(c: Setting, w: World, n: NodeId) {
    exists k :: 0 <= k < |w.log| && w.log[k].lease.host == n
                && Age(w.clock(n), w.log[k].lease) <= c.interval - 2 * c.skew
  }

  /** No two hosts have an unexpired lease. */
  ghost predicate Exclusive(c: Setting, w: World) {
    forall j, k :: 0 <= j < |w.log| && 0 <= k < |w.log|
                   && !Expired(c, w, w.log[j].lease) && !Expired(c, w, w.log[k].lease)
                   ==> w.log[j].lease.host == w.log[k].lease.host
  }

  function Latest(w: World): Lease
    requires w.log != []
  {
    w.log[|w.log| - 1].lease
  }

  /** Every unexpired lease belongs to the last writer and is no younger than its last one. */
  ghost predicate LedByLatest(c: Setting, w: World) {
    forall k :: 0 <= k < |w.log| ==>
      Expired(c, w, w.log[k].lease)
      || (w.log[k].lease.host == Latest(w).host && w.log[k].lease.updated <= Latest(w).updated)
  }

  /** And where there is no file, all leases have expired. */
  ghost predicate Settled(c: Setting, w: World) {
    LedByLatest(c, w) && (w.file.None? && w.log != [] ==> Expired(c, w, Latest(w)))
  }

  /**
    The steps that do not rest on the age of the lease they end, namely removing the file, the
    hostname alias and the reclaim after five failed probes, only ever end an expired lease.
  */
  ghost predicate Orderly(c: Setting, w: World, a: Action) {
    match a
    case Delete => w.file.Some? ==> Expired(c, w, w.file.value)
    case Handle(i) =>
      Lands(w, a) && Forced(w.ops[i].phase.why) && w.file.Some? ==> Expired(c, w, w.file.value)
    case _ => true
  }

  /**
    A renewal lands that is stamped before the unexpired lease it replaces.  The node could tell
    before its PUT: it has read that lease's stamp, and its clock shows an earlier one.
  */
  ghost predicate SetsBack(c: Setting, w: World, a: Action) {
    && Lands(w, a) && w.ops[a.op].phase.why.Own? && w.file.Some?
    && w.ops[a.op].phase.lease.updated < w.file.value.updated
    && !Expired(c, w, w.file.value)
  }

  /** Clocks that are never set back never do that. */
  lemma SteadyNeverSetsBack(c: Setting, w: World, a: Action)
    requires Steady(c) && Inv(c, w) && Enabled(c, w, a)
    ensures !SetsBack(c, w, a)
  {
    if Lands(w, a) {
      assert OpInv(c, w, w.ops[a.op]);
    }
  }

  /** What a node found over-age on its clock has expired everywhere. */
  lemma StaleIsExpired(c: Setting, w: World, op: Op)
    requires OpInv(c, w, op) && op.phase.Put?
    ensures op.phase.why.Stale? ==> op.phase.base.Some? && Expired(c, w, op.phase.base.value)
  {
  }

  /** A step leaves a settled state settled if and only if it is orderly and sets no lease back. */
  lemma SettledKeptIff(c: Setting, w: World, a: Action)
    requires Inv(c, w) && Settled(c, w) && Enabled(c, w, a)
    ensures Settled(c, Apply(c, w, a)) <==> Orderly(c, w, a) && !SetsBack(c, w, a)
  {
    if Lands(w, a) {
      var w', p, last := Apply(c, w, a), w.ops[a.op].phase, |w.log|;
      assert OpInv(c, w, w.ops[a.op]);
      StaleIsExpired(c, w, w.ops[a.op]);
      assert w'.log[last].lease == p.lease;
      assert w.log != [] ==> w'.log[last - 1].lease == Latest(w);
      assert forall k :: 0 <= k < last ==> w'.log[k] == w.log[k];
    }
  }

  /** A step that is orderly and sets no lease back. */
  ghost predicate KeepsTerms(c: Setting, w: World, a: Action) { Orderly(c, w, a) && !SetsBack(c, w, a) }

  /** The first `i` steps of the run are of this kind. */
  ghost predicate InTerms(c: Setting, ws: seq<World>, acts: seq<Action>, i: nat)
    requires i <= |acts| && i < |ws|
  {
    forall k :: 0 <= k < i ==> KeepsTerms(c, ws[k], acts[k])
  }

  ghost predicate SettledThrough(c: Setting, ws: seq<World>, i: nat)
    requires i < |ws|
  {
    forall j :: 0 <= j <= i ==> Settled(c, ws[j])
  }

  lemma SettledStep(c: Setting, ws: seq<World>, acts: seq<Action>, k: nat)
    requires IsRun(c, ws, acts) && k < |acts| && Settled(c, ws[k])
    ensures Settled(c, ws[k + 1]) <==> KeepsTerms(c, ws[k], acts[k])
  {
    InvHolds(c, ws, acts, k);
    SettledKeptIff(c, ws[k], acts[k]);
  }

  /** A run stays settled as long as, and only as long as, its steps are of this kind. */
  lemma {:induction false} SettledIff(c: Setting, ws: seq<World>, acts: seq<Action>, i: nat)
    requires IsRun(c, ws, acts) && i < |ws|
    ensures SettledThrough(c, ws, i) <==> InTerms(c, ws, acts, i)
  {
    if i > 0 {
      SettledIff(c, ws, acts, i - 1);
      if SettledThrough(c, ws, i - 1) {
        SettledStep(c, ws, acts, i - 1);
      }
    }
  }

  lemma SettledHolds(c: Setting, ws: seq<World>, acts: seq<Action>, i: nat)
    requires IsRun(c, ws, acts) && i < |ws| && InTerms(c, ws, acts, i)
    ensures Settled(c, ws[i])
  {
    SettledIff(c, ws, acts, i);
  }

  lemma TrustIsUnexpired(c: Setting, w: World, n: NodeId) returns (k: nat)
    requires ClocksWithin(c, w) && Trusts(c, w, n)
    ensures k < |w.log| && w.log[k].lease.host == n && !Expired(c, w, w.log[k].lease)
  {
    k :| 0 <= k < |w.log| && w.log[k].lease.host == n
         && Age(w.clock(n), w.log[k].lease) <= c.interval - 2 * c.skew;
  }

  /** At no instant of a run whose steps are orderly and set no lease back do two nodes both rely on a lease. */
  lemma MutualExclusion(c: Setting, ws: seq<World>, acts: seq<Action>, i: nat, n: NodeId, m: NodeId)
    requires IsRun(c, ws, acts) && i < |ws| && InTerms(c, ws, acts, i)
    requires Trusts(c, ws[i], n) && Trusts(c, ws[i], m)
    ensures n == m
  {
    InvHolds(c, ws, acts, i);
    SettledHolds(c, ws, acts, i);
    var j := TrustIsUnexpired(c, ws[i], n);
    var k := TrustIsUnexpired(c, ws[i], m);
  }

  /** With clocks that are never set back, orderly steps suffice. */
  lemma SteadyExclusion(c: Setting, ws: seq<World>, acts: seq<Action>, i: nat, n: NodeId, m: NodeId)
    requires Steady(c) && IsRun(c, ws, acts) && i < |ws|
    requires forall k :: 0 <= k < i ==> Orderly(c, ws[k], acts[k])
    requires Trusts(c, ws[i], n) && Trusts(c, ws[i], m)
    ensures n == m
  {
    forall k | 0 <= k < i ensures KeepsTerms(c, ws[k], acts[k]) {
      InvHolds(c, ws, acts, k);
      SteadyNeverSetsBack(c, ws[k], acts[k]);
    }
    MutualExclusion(c, ws, acts, i, n, m);
  }

  /** Landing `k` is the last one of its host. */
  ghost predicate LastOf(log: seq<Landing>, k: nat)
    requires k < |log|
  {
    forall j :: k < j < |log| ==> log[j].lease.host != log[k].lease.host
  }

  /** Node `n`, by its own clock, relies on the last lease it landed. */
  ghost predicate TrustsLast(c: Setting, w: World, n: NodeId) {
    exists k: nat :: k < |w.log| && LastOf(w.log, k) && w.log[k].lease.host == n
                     && Age(w.clock(n), w.log[k].lease) <= c.interval - 2 * c.skew
  }

  /** Of the nodes' last leases only the latest can be unexpired. */
  ghost predicate LastSettled(c: Setting, w: World) {
    && (forall k: nat :: k < |w.log| - 1 && LastOf(w.log, k) ==> Expired(c, w, w.log[k].lease))
    && (w.file.None? && w.log != [] ==> Expired(c, w, Latest(w)))
  }

  lemma LastSettledKept(c: Setting, w: World, a: Action)
    requires Inv(c, w) && LastSettled(c, w) && Enabled(c, w, a) && Orderly(c, w, a)
    ensures LastSettled(c, Apply(c, w, a))
  {
    if Lands(w, a) {
      var w' := Apply(c, w, a);
      var p := w.ops[a.op].phase;
      assert OpInv(c, w, w.ops[a.op]);
      StaleIsExpired(c, w, w.ops[a.op]);
      forall k: nat | k < |w'.log| - 1 && LastOf(w'.log, k) ensures Expired(c, w', w'.log[k].lease) {
        assert w'.log[|w.log|].lease == p.lease;
        assert forall j :: k < j < |w.log| ==> w'.log[j] == w.log[j];
        assert LastOf(w.log, k);
      }
    }
  }

  lemma {:induction false} LastSettledHolds(c: Setting, ws: seq<World>, acts: seq<Action>, i: nat)
    requires IsRun(c, ws, acts) && i < |ws|
    requires forall k :: 0 <= k < i ==> Orderly(c, ws[k], acts[k])
    ensures LastSettled(c, ws[i])
  {
    if i > 0 {
      LastSettledHolds(c, ws, acts, i - 1);
      InvHolds(c, ws, acts, i - 1);
      LastSettledKept(c, ws[i - 1], acts[i - 1]);
    }
  }

  /**
    With clocks that may be set back within the skew, two nodes still never both rely on their own
    last leases.
  */
  lemma LastLeaseExclusion(c: Setting, ws: seq<World>, acts: seq<Action>, i: nat, n: NodeId, m: NodeId)
    requires IsRun(c, ws, acts) && i < |ws|
    requires forall k :: 0 <= k < i ==> Orderly(c, ws[k], acts[k])
    requires TrustsLast(c, ws[i], n) && TrustsLast(c, ws[i], m)
    ensures n == m
  {
    InvHolds(c, ws, acts, i);
    LastSettledHolds(c, ws, acts, i);
    TrustsLastIsLatest(c, ws[i], n);
    TrustsLastIsLatest(c, ws[i], m);
  }

  lemma TrustsLastIsLatest(c: Setting, w: World, n: NodeId)
    requires ClocksWithin(c, w) && LastSettled(c, w) && TrustsLast(c, w, n)
    ensures w.log != [] && Latest(w).host == n
  {
    var k: nat :| k < |w.log| && LastOf(w.log, k) && w.log[k].lease.host == n
                  && Age(w.clock(n), w.log[k].lease) <= c.interval - 2 * c.skew;
    assert !Expired(c, w, w.log[k].lease);
  }

  /**
    Which landings break exclusion, also after the removal of a live lease: exactly those of a live
    lease while the last one landed is another host's and has not expired.  From a settled state a
    claim, a renewal and a takeover never do.
  */
  lemma LandingKeepsExclusionIff(c: Setting, w: World, a: Action)
    requires Inv(c, w) && LedByLatest(c, w) && Enabled(c, w, a) && Lands(w, a)
    ensures var p := w.ops[a.op].phase;
            Exclusive(c, Apply(c, w, a)) <==>
            Expired(c, w, p.lease) || w.log == [] || Latest(w).host == p.lease.host || Expired(c, w, Latest(w))
    ensures Settled(c, w) && !Forced(w.ops[a.op].phase.why) ==> Exclusive(c, Apply(c, w, a))
  {
    var p := w.ops[a.op].phase;
    var w' := Apply(c, w, a);
    assert OpInv(c, w, w.ops[a.op]);
    StaleIsExpired(c, w, w.ops[a.op]);
    var last := |w.log|;
    if w.log != [] {
      assert w'.log[last].lease == p.lease && w'.log[last - 1].lease == Latest(w);
    }
  }

  // ---------------------------------------------------------------------------------------------
  // A live leader is never displaced
  // ---------------------------------------------------------------------------------------------

  /** The file names `h` as the host. */
  predicate Leads(w: World, h: NodeId) { w.file.Some? && w.file.value.host == h }

  /** Nobody removes the file and nobody but `h` lands a forced write. */
  ghost predicate LeavesTo(w: World, a: Action, h: NodeId) {
    && !a.Delete?
    && (Lands(w, a) && Forced(w.ops[a.op].phase.why) ==> w.ops[a.op].node == h)
  }

  /**
    If, whenever it is the host, `h` has a lease in the file that has not expired, then `h` stays
    the host, however far apart in time the others read, decide and write.
  */
  lemma {:induction false} LiveLeaderStays(
      c: Setting, ws: seq<World>, acts: seq<Action>, h: NodeId, from: nat, i: nat)
    requires IsRun(c, ws, acts) && from <= i < |ws|
    requires Leads(ws[from], h)
    requires forall k :: from <= k < i && Leads(ws[k], h) ==> !Expired(c, ws[k], ws[k].file.value)
    requires forall k :: from <= k < i ==> LeavesTo(ws[k], acts[k], h)
    ensures Leads(ws[i], h)
  {
    if from < i {
      LiveLeaderStays(c, ws, acts, h, from, i - 1);
      InvHolds(c, ws, acts, i - 1);
      var w, a := ws[i - 1], acts[i - 1];
      if Lands(w, a) {
        var p := w.ops[a.op].phase;
        assert OpInv(c, w, w.ops[a.op]);
        StaleIsExpired(c, w, w.ops[a.op]);
      }
    }
  }

  /**
    A tick of the leader ticker: its true time, LeaderID in globalElectionStatus and IsServerMode
    when it is handled and, if it renews, the step that begins the call and the one at which its PUT
    arrives.
  */
  datatype Tick = Tick(due: int, leader: NodeId, serving: bool, begin: nat, handle: nat)

  /** The guard of renewLeadership in the ticker's loop. */
  predicate Renews(h: NodeId, t: Tick) { t.leader == h || !t.serving }

  /**
    Steps `begin` and `handle` of the run are one call of renewLeadership by `h`: it begins at its
    tick or later, and its PUT reaches the repository at most `latency` after the tick.
  */
  ghost predicate IsRenewal(ws: seq<World>, acts: seq<Action>, h: NodeId, r: Tick, latency: int)
    requires |ws| == |acts| + 1
  {
    && r.begin < r.handle < |acts|
    && acts[r.begin] == Begin(h, Renew)
    && acts[r.handle] == Handle(|ws[r.begin].ops|)
    && r.due <= ws[r.begin].now
    && ws[r.handle].now <= r.due + latency
  }

  /**
    The GET of the call at `t` was answered by a file that names `h`.  Whatever then becomes of its
    PUT, the call ends with setElectionStatus for that leader (LeaseClient.Node.LeaderTick).
  */
  ghost predicate ReadsOwn(ws: seq<World>, h: NodeId, t: Tick)
    requires t.begin < |ws| && t.handle < |ws|
  {
    var o := |ws[t.begin].ops|;
    && OpIn(ws[t.handle], o) && ws[t.handle].ops[o].phase.Put?
    && var base := ws[t.handle].ops[o].phase.base; base.Some? && base.value.host == h
  }

  /**
    From step `from` on, the goroutine of `h` handles the ticks `ts` of a ticker of period `period`:
    it renews at those its guard lets through, one call after the other, and after a call that read
    its own name the next tick finds that name in the status.  No other call of `h` lands a PUT.
  */
  ghost predicate TickerRuns(
      ws: seq<World>, acts: seq<Action>, h: NodeId, from: nat, ts: seq<Tick>, period: int, latency: int)
    requires |ws| == |acts| + 1
  {
    && (forall j :: 0 <= j < |ts| && Renews(h, ts[j]) ==>
          IsRenewal(ws, acts, h, ts[j], latency) && from <= ts[j].begin)
    && (forall j, k :: 0 <= j < k < |ts| && Renews(h, ts[j]) && Renews(h, ts[k]) ==> ts[j].handle < ts[k].begin)
    && (forall j :: 0 < j < |ts| ==> ts[j].due == ts[j - 1].due + period)
    && (forall j :: 0 < j < |ts| && Renews(h, ts[j - 1]) && ReadsOwn(ws, h, ts[j - 1]) ==> ts[j].leader == h)
    && (forall i :: from <= i < |acts| && Lands(ws[i], acts[i]) && ws[i].ops[acts[i].op].node == h ==>
          exists j :: 0 <= j < |ts| && Renews(h, ts[j]) && ts[j].handle == i)
  }

  lemma {:induction false} TimeGoesOn(c: Setting, ws: seq<World>, acts: seq<Action>, i: nat, j: nat)
    requires IsRun(c, ws, acts) && i <= j < |ws|
    ensures ws[i].now <= ws[j].now
  {
    if i < j {
      TimeGoesOn(c, ws, acts, i, j - 1);
      assert Enabled(c, ws[j - 1], acts[j - 1]);
    }
  }

  /** As long as its lease lasts and `h` itself lands nothing, the file of `h` does not change. */
  lemma {:induction false} FileStays(
      c: Setting, ws: seq<World>, acts: seq<Action>, h: NodeId, from: nat, i: nat, until: nat)
    requires IsRun(c, ws, acts) && from <= i <= until < |ws|
    requires Leads(ws[from], h) && !Expired(c, ws[until], ws[from].file.value)
    requires forall k :: from <= k < i ==>
               LeavesTo(ws[k], acts[k], h) && (Lands(ws[k], acts[k]) ==> ws[k].ops[acts[k].op].node != h)
    ensures ws[i].file == ws[from].file && !Expired(c, ws[i], ws[i].file.value)
  {
    TimeGoesOn(c, ws, acts, i, until);
    if from < i {
      FileStays(c, ws, acts, h, from, i - 1, until);
      InvHolds(c, ws, acts, i - 1);
      var w, a := ws[i - 1], acts[i - 1];
      if Lands(w, a) {
        assert OpInv(c, w, w.ops[a.op]);
        StaleIsExpired(c, w, w.ops[a.op]);
      }
    }
  }

  /** A renewal by the host of `file` that has not landed, stamped at `least` or later once it is sent. */
  predicate OnTrack(op: Op, file: Lease, least: int) {
    && op.node == file.host
    && match op.phase
       case Asked => true
       case Saw(seen) => seen == Some(file)
       case Ready(base, _) => base == Some(file)
       case Put(lease, base, _, fate) =>
         lease.host == op.node && least <= lease.updated && base == Some(file) && fate != Landed
       case _ => false
  }

  /** A step keeps a renewal on track unless it lands it. */
  lemma TrackKept(c: Setting, w: World, a: Action, o: nat, file: Lease, due: int)
    requires ClocksWithin(c, w) && Enabled(c, w, a) && OpIn(w, o) && due <= w.now
    requires w.file == Some(file) && OnTrack(w.ops[o], file, UnixMilli(due - c.skew))
    requires Lands(w, a) ==> w.ops[a.op].node != file.host
    ensures OpIn(Apply(c, w, a), o) && OnTrack(Apply(c, w, a).ops[o], file, UnixMilli(due - c.skew))
  {
    assert due - c.skew <= w.clock(file.host);
  }

  lemma TrackStep(c: Setting, ws: seq<World>, acts: seq<Action>, k: nat, o: nat, file: Lease, due: int)
    requires IsRun(c, ws, acts) && k < |acts| && OpIn(ws[k], o) && due <= ws[k].now
    requires ws[k].file == Some(file) && OnTrack(ws[k].ops[o], file, UnixMilli(due - c.skew))
    requires Lands(ws[k], acts[k]) ==> ws[k].ops[acts[k].op].node != file.host
    ensures OpIn(ws[k + 1], o) && OnTrack(ws[k + 1].ops[o], file, UnixMilli(due - c.skew))
  {
    InvHolds(c, ws, acts, k);
    TrackKept(c, ws[k], acts[k], o, file, due);
  }

  lemma TrackBegins(c: Setting, ws: seq<World>, acts: seq<Action>, k: nat, h: NodeId)
    requires IsRun(c, ws, acts) && k < |acts| && acts[k] == Begin(h, Renew)
    ensures ws[k + 1].ops == ws[k].ops + [Op(h, Renew, Asked, None)]
  {
  }

  lemma {:induction false} StaysOnTrack(
      c: Setting, ws: seq<World>, acts: seq<Action>, file: Lease, r: Tick, i: nat, latency: int)
    requires IsRun(c, ws, acts) && IsRenewal(ws, acts, file.host, r, latency) && r.begin < i <= r.handle
    requires forall k :: r.begin <= k <= r.handle ==> ws[k].file == Some(file)
    requires forall k :: r.begin <= k < i && Lands(ws[k], acts[k]) ==> ws[k].ops[acts[k].op].node != file.host
    ensures OpIn(ws[i], |ws[r.begin].ops|)
    ensures OnTrack(ws[i].ops[|ws[r.begin].ops|], file, UnixMilli(r.due - c.skew))
  {
    if r.begin == i - 1 {
      TrackBegins(c, ws, acts, r.begin, file.host);
    } else {
      StaysOnTrack(c, ws, acts, file, r, i - 1, latency);
      TimeGoesOn(c, ws, acts, r.begin, i - 1);
      TrackStep(c, ws, acts, i - 1, |ws[r.begin].ops|, file, r.due);
    }
  }

  /** Such a renewal lands, over the file it found, if the lease there lasts until it arrives. */
  lemma RenewalLands(c: Setting, ws: seq<World>, acts: seq<Action>, h: NodeId, from: nat, r: Tick, latency: int)
    requires IsRun(c, ws, acts) && IsRenewal(ws, acts, h, r, latency) && from <= r.begin
    requires Leads(ws[from], h) && !Expired(c, ws[r.handle], ws[from].file.value)
    requires forall k :: from <= k < r.handle ==>
               LeavesTo(ws[k], acts[k], h) && (Lands(ws[k], acts[k]) ==> ws[k].ops[acts[k].op].node != h)
    ensures forall i :: from <= i <= r.handle ==> ws[i].file == ws[from].file && !Expired(c, ws[i], ws[i].file.value)
    ensures Lands(ws[r.handle], acts[r.handle])
    ensures Leads(ws[r.handle + 1], h) && UnixMilli(r.due - c.skew) <= ws[r.handle + 1].file.value.updated
  {
    forall i | from <= i <= r.handle
      ensures ws[i].file == ws[from].file && !Expired(c, ws[i], ws[i].file.value)
    {
      FileStays(c, ws, acts, h, from, i, r.handle);
    }
    StaysOnTrack(c, ws, acts, ws[from].file.value, r, r.handle, latency);
  }

  /** Where the period of the `j`-th tick starts. */
  function StartOf(from: nat, ts: seq<Tick>, j: nat): nat
    requires j <= |ts|
  {
    if j == 0 then from else ts[j - 1].handle + 1
  }

  /** No PUT of `h` arrives between one renewal and the next. */
  lemma NoneBetweenRenewals(
      ws: seq<World>, acts: seq<Action>, h: NodeId, from: nat,
      ts: seq<Tick>, period: int, latency: int, j: nat, i: nat)
    requires |ws| == |acts| + 1 && TickerRuns(ws, acts, h, from, ts, period, latency)
    requires j < |ts| && Renews(h, ts[j]) && (j > 0 ==> Renews(h, ts[j - 1]))
    requires from <= i < |acts| && StartOf(from, ts, j) <= i < ts[j].handle && Lands(ws[i], acts[i])
    ensures ws[i].ops[acts[i].op].node != h
  {
    forall k | 0 <= k < |ts| && Renews(h, ts[k]) ensures ts[k].handle != i {
      assert IsRenewal(ws, acts, h, ts[k], latency);
      assert j < k ==> ts[j].handle < ts[k].begin;
      assert k < j - 1 ==> ts[k].handle < ts[j - 1].begin && IsRenewal(ws, acts, h, ts[j - 1], latency);
    }
  }

  /** The `j`-th tick, when the one before it has left a lease that lasts until the PUT arrives: it keeps the guard true. */
  lemma NextRenewal(
      c: Setting, ws: seq<World>, acts: seq<Action>, h: NodeId, from: nat,
      ts: seq<Tick>, period: int, latency: int, j: nat)
    requires IsRun(c, ws, acts) && TickerRuns(ws, acts, h, from, ts, period, latency)
    requires j < |ts| && Renews(h, ts[j]) && (j > 0 ==> Renews(h, ts[j - 1])) && ts[j].handle < |acts|
    requires var start := StartOf(from, ts, j);
             && from <= start < |ws|
             && Leads(ws[start], h) && !Expired(c, ws[ts[j].handle], ws[start].file.value)
             && forall k :: start <= k <= ts[j].handle ==> LeavesTo(ws[k], acts[k], h)
    ensures forall i :: StartOf(from, ts, j) <= i <= ts[j].handle ==>
              Leads(ws[i], h) && !Expired(c, ws[i], ws[i].file.value)
    ensures Lands(ws[ts[j].handle], acts[ts[j].handle])
    ensures Leads(ws[ts[j].handle + 1], h)
    ensures UnixMilli(ts[j].due - c.skew) <= ws[ts[j].handle + 1].file.value.updated
    ensures j + 1 < |ts| ==> Renews(h, ts[j + 1])
  {
    var start := StartOf(from, ts, j);
    assert IsRenewal(ws, acts, h, ts[j], latency);
    assert j > 0 ==> IsRenewal(ws, acts, h, ts[j - 1], latency) && start <= ts[j].begin;
    forall k | start <= k < ts[j].handle && Lands(ws[k], acts[k]) ensures ws[k].ops[acts[k].op].node != h {
      NoneBetweenRenewals(ws, acts, h, from, ts, period, latency, j, k);
    }
    RenewalLands(c, ws, acts, h, start, ts[j], latency);
    assert ReadsOwn(ws, h, ts[j]);
    assert j + 1 < |ts| ==> Renews(h, ts[(j + 1) - 1]);
  }

  /** A lease stamped since the tick at `due` lasts until the PUT of the next tick arrives. */
  lemma LastsToTheNext(c: Setting, w: World, l: Lease, due: int, period: int, latency: int)
    requires UnixMilli(due - c.skew) <= l.updated && w.now <= due + period + latency
    requires period + latency <= c.interval - 2 * c.skew - Nanos(1)
    ensures !Expired(c, w, l)
  {
  }

  /**
    The ticker keeps the leader.  If the guard lets its first tick through, and the lease lasts until
    that renewal arrives, the guard lets every later tick through: every one of its PUTs lands, the
    lease never expires in between, and it stays the host.  It is enough that the period and the
    latency together stay below the interval by twice the skew and one millisecond of rounding; for
    the code's period of half an interval, that the latency stays so far below the other half.
  */
  lemma {:induction false} RenewingLeaderStays(
      c: Setting, ws: seq<World>, acts: seq<Action>, h: NodeId, from: nat,
      ts: seq<Tick>, period: int, latency: int, j: nat)
    requires IsRun(c, ws, acts) && TickerRuns(ws, acts, h, from, ts, period, latency)
    requires period + latency <= c.interval - 2 * c.skew - Nanos(1)
    requires j < |ts| && Renews(h, ts[0]) && ts[0].handle < |acts|
    requires Leads(ws[from], h) && !Expired(c, ws[ts[0].handle], ws[from].file.value)
    requires forall m, k :: 0 <= m <= j && Renews(h, ts[m]) && from <= k <= ts[m].handle && k < |acts| ==>
               LeavesTo(ws[k], acts[k], h)
    ensures Renews(h, ts[j]) && ts[j].handle < |acts| && (j + 1 < |ts| ==> Renews(h, ts[j + 1]))
    ensures forall i :: from <= i <= ts[j].handle ==> Leads(ws[i], h) && !Expired(c, ws[i], ws[i].file.value)
    ensures Lands(ws[ts[j].handle], acts[ts[j].handle])
    ensures Leads(ws[ts[j].handle + 1], h)
    ensures UnixMilli(ts[j].due - c.skew) <= ws[ts[j].handle + 1].file.value.updated
  {
    if j > 0 {
      RenewingLeaderStays(c, ws, acts, h, from, ts, period, latency, j - 1);
      assert IsRenewal(ws, acts, h, ts[j], latency);
      var lease := ws[StartOf(from, ts, j)].file.value;
      LastsToTheNext(c, ws[ts[j].handle], lease, ts[j - 1].due, period, latency);
    }
    NextRenewal(c, ws, acts, h, from, ts, period, latency, j);
  }

  // ---------------------------------------------------------------------------------------------
  // The history of the file
  // ---------------------------------------------------------------------------------------------

  /** The `k`-th landing replaced what the one before it wrote, for a reason that held of it. */
  ghost predicate Sound(c: Setting, log: seq<Landing>, k: nat)
    requires k < |log|
  {
    && Justified(c, log[k].lease.host, log[k].base, log[k].why)
    && (log[k].base.Some? ==> k > 0 && log[k].base.value == log[k - 1].lease)
    && StampedAfter(c, log[k].base, log[k].why, log[k].lease)
  }

  lemma {:induction false} HistorySound(c: Setting, ws: seq<World>, acts: seq<Action>, i: nat)
    requires IsRun(c, ws, acts) && i < |ws|
    ensures forall k :: 0 <= k < |ws[i].log| ==> Sound(c, ws[i].log, k)
  {
    if i > 0 {
      HistorySound(c, ws, acts, i - 1);
      InvHolds(c, ws, acts, i - 1);
      var w, a := ws[i - 1], acts[i - 1];
      if a.Handle? {
        assert OpInv(c, w, w.ops[a.op]);
      }
      forall k | 0 <= k < |ws[i].log| ensures Sound(c, ws[i].log, k) {
        if k < |w.log| { assert Sound(c, w.log, k); }
      }
    }
  }

  /**
    Whenever a step changes the host, the new host had a reason that held of the very lease it
    replaced: none there, over-age on its clock when it decided, its own hostname, or five failed
    probes.  Otherwise the file was removed before.
  */
  lemma HostChangeJustified(c: Setting, ws: seq<World>, acts: seq<Action>, i: nat)
    requires IsRun(c, ws, acts) && i < |acts|
    requires ws[i].file.Some? && ws[i + 1].file.Some?
    requires ws[i].file.value.host != ws[i + 1].file.value.host
    ensures Lands(ws[i], acts[i])
    ensures var p := ws[i].ops[acts[i].op].phase;
            && ws[i + 1].file == Some(p.lease)
            && p.base == ws[i].file
            && (p.why.Stale? || Forced(p.why))
            && Justified(c, p.lease.host, ws[i].file, p.why)
  {
    InvHolds(c, ws, acts, i);
    var a := acts[i];
    if a.Handle? {
      assert OpInv(c, ws[i], ws[i].ops[a.op]);
    }
  }

  /** Nobody removes the file. */
  predicate Unremoved(acts: seq<Action>) { forall k :: 0 <= k < |acts| ==> !acts[k].Delete? }

  /** Then each landing but the first replaces the one before. */
  lemma {:induction false} UnremovedHistory(c: Setting, ws: seq<World>, acts: seq<Action>, i: nat)
    requires IsRun(c, ws, acts) && Unremoved(acts) && i < |ws|
    ensures ws[i].log != [] ==> ws[i].file == Some(Latest(ws[i]))
    ensures forall k :: 0 < k < |ws[i].log| ==> ws[i].log[k].base == Some(ws[i].log[k - 1].lease)
  {
    if i > 0 {
      UnremovedHistory(c, ws, acts, i - 1);
      InvHolds(c, ws, acts, i - 1);
    }
  }

  /** Whether a landing for this reason can be stamped before the lease it replaces. */
  predicate CanSlip(c: Setting, why: Reason) {
    Forced(why) || !Steady(c) || (why.Stale? && c.interval < 0)
  }

  /** By how many milliseconds stamps can have gone back from landing `j` to landing `k`. */
  function Slip(c: Setting, log: seq<Landing>, j: nat, k: nat): nat
    requires j <= k < |log|
  {
    if j == k then 0 else Slip(c, log, j, k - 1) + if CanSlip(c, log[k].why) then Backstep(c) else 0
  }

  /** Under a common clock, and over landings that cannot, they have not. */
  ghost predicate NoSlip(c: Setting, log: seq<Landing>, j: nat, k: nat)
    requires j <= k < |log|
  {
    c.skew == 0 || forall m :: j < m <= k ==> !CanSlip(c, log[m].why)
  }

  lemma {:induction false} NoSlipIsZero(c: Setting, log: seq<Landing>, j: nat, k: nat)
    requires j <= k < |log| && NoSlip(c, log, j, k)
    ensures Slip(c, log, j, k) == 0
  {
    if j < k {
      NoSlipIsZero(c, log, j, k - 1);
    }
  }

  /**
    In any run without removals, forced writes and clocks set back included, stamps go back by at
    most twice the skew, rounded up, at each landing that can slip, and at no other.
  */
  lemma {:induction false} StampsGoBackAtMost(
      c: Setting, ws: seq<World>, acts: seq<Action>, i: nat, j: nat, k: nat)
    requires IsRun(c, ws, acts) && Unremoved(acts) && i < |ws|
    requires j <= k < |ws[i].log|
    ensures ws[i].log[j].lease.updated <= ws[i].log[k].lease.updated + Slip(c, ws[i].log, j, k)
    decreases k
  {
    if j < k {
      HistorySound(c, ws, acts, i);
      UnremovedHistory(c, ws, acts, i);
      assert Sound(c, ws[i].log, k);
      StampsGoBackAtMost(c, ws, acts, i, j, k - 1);
    }
  }

  /**
    So they never go back under a common clock, whatever is written, nor, however far the clocks
    are apart, over unforced writes on clocks that are never set back.  A takeover moves them on if
    the interval is at least a millisecond.
  */
  lemma StampsNeverGoBack(c: Setting, ws: seq<World>, acts: seq<Action>, i: nat, j: nat, k: nat)
    requires IsRun(c, ws, acts) && Unremoved(acts) && i < |ws|
    requires j <= k < |ws[i].log| && NoSlip(c, ws[i].log, j, k)
    ensures ws[i].log[j].lease.updated <= ws[i].log[k].lease.updated
    ensures c.interval >= Nanos(1) && j < k && ws[i].log[k].why.Stale? ==>
              ws[i].log[j].lease.updated < ws[i].log[k].lease.updated
  {
    var log := ws[i].log;
    NoSlipIsZero(c, log, j, k);
    StampsGoBackAtMost(c, ws, acts, i, j, k);
    if j < k {
      NoSlipIsZero(c, log, j, k - 1);
      StampsGoBackAtMost(c, ws, acts, i, j, k - 1);
      HistorySound(c, ws, acts, i);
      UnremovedHistory(c, ws, acts, i);
      assert Sound(c, log, k);
    }
  }

  /**
    Two different landings that replaced the same content: from the first of them up to the second
    the stamps stay within the slip of the stamp of that content.
  */
  lemma ForkWithinSlip(c: Setting, ws: seq<World>, acts: seq<Action>, i: nat, j: nat, k: nat, m: nat)
    requires IsRun(c, ws, acts) && Unremoved(acts) && i < |ws|
    requires j <= m < k < |ws[i].log| && ws[i].log[j].base == ws[i].log[k].base
    ensures j > 0 && ws[i].log[j].base == Some(ws[i].log[j - 1].lease)
    ensures var log := ws[i].log;
            var updated := log[j - 1].lease.updated;
            updated - Slip(c, log, j - 1, m) <= log[m].lease.updated <= updated + Slip(c, log, m, k - 1)
  {
    HistorySound(c, ws, acts, i);
    UnremovedHistory(c, ws, acts, i);
    assert Sound(c, ws[i].log, j) && Sound(c, ws[i].log, k);
    StampsGoBackAtMost(c, ws, acts, i, m, k - 1);
    StampsGoBackAtMost(c, ws, acts, i, j - 1, m);
  }

  /**
    Where stamps do not go back, forced writes under a common clock included, every landing from
    the first of them up to the second has that very stamp: the second follows within a millisecond
    of rewriting.  And if none of these is forced, the first wrote the content back unchanged, so
    that no snapshot is superseded by two writers with different content.
  */
  lemma NoFork(c: Setting, ws: seq<World>, acts: seq<Action>, i: nat, j: nat, k: nat)
    requires IsRun(c, ws, acts) && Unremoved(acts) && i < |ws|
    requires j < k < |ws[i].log| && (j > 0 ==> NoSlip(c, ws[i].log, j - 1, k - 1))
    requires ws[i].log[j].base == ws[i].log[k].base
    ensures j > 0 && forall m :: j <= m < k ==> ws[i].log[m].lease.updated == ws[i].log[j - 1].lease.updated
    ensures c.interval >= Nanos(1) && !Forced(ws[i].log[j].why) ==>
              ws[i].log[j].base == Some(ws[i].log[j].lease)
  {
    var log := ws[i].log;
    ForkWithinSlip(c, ws, acts, i, j, k, j);
    forall m | j <= m < k ensures log[m].lease.updated == log[j - 1].lease.updated {
      ForkWithinSlip(c, ws, acts, i, j, k, m);
      NoSlipIsZero(c, log, j - 1, m);
      NoSlipIsZero(c, log, m, k - 1);
    }
    assert log[j].lease.updated == log[j - 1].lease.updated;
    HistorySound(c, ws, acts, i);
    UnremovedHistory(c, ws, acts, i);
    StampsNeverGoBack(c, ws, acts, i, j - 1, j);
    assert Sound(c, log, j);
  }

  // ---------------------------------------------------------------------------------------------
  // What the return value says
  // ---------------------------------------------------------------------------------------------

  ghost predicate OutcomeInv(w: World, op: Op) {
    && (op.phase.SteppedDown? || op.phase.Probing? ==> op.kind == Renew)
    && (op.outcome == Some(Yes) ==>
          op.phase.SteppedDown? || (op.phase.Put? && op.phase.fate == Landed))
    && (op.phase.Put? && op.phase.fate == Landed ==>
          Landing(op.phase.lease, op.phase.base, op.phase.why) in w.log)
  }

  lemma {:induction false} OutcomeHolds(c: Setting, ws: seq<World>, acts: seq<Action>, i: nat, o: nat)
    requires IsRun(c, ws, acts) && i < |ws| && o < |ws[i].ops|
    ensures OutcomeInv(ws[i], ws[i].ops[o])
  {
    if i > 0 {
      var w, w' := ws[i - 1], ws[i];
      if o < |w.ops| {
        OutcomeHolds(c, ws, acts, i - 1, o);
        assert w.log <= w'.log;
        var p := w.ops[o].phase;
        if p.Put? && p.fate == Landed {
          assert forall x :: x in w.log ==> x in w'.log;
        } else if Lands(w, acts[i - 1]) && acts[i - 1].op == o {
          assert w'.log[|w.log|] == Landing(p.lease, p.base, p.why);
        }
      }
    }
  }

  /**
    tryClaimLeadership answers true only if its own PUT landed: the log of landings holds what this
    very call sent, over what it had read, for a reason that held of that and is no forced one.
  */
  lemma ClaimTrueMeansLanded(c: Setting, ws: seq<World>, acts: seq<Action>, i: nat, o: nat)
    requires IsRun(c, ws, acts) && i < |ws| && o < |ws[i].ops|
    requires ws[i].ops[o].kind == Claim && ws[i].ops[o].outcome == Some(Yes)
    ensures var op := ws[i].ops[o];
            && op.phase.Put? && op.phase.fate == Landed && op.phase.lease.host == op.node
            && Landing(op.phase.lease, op.phase.base, op.phase.why) in ws[i].log
            && Justified(c, op.node, op.phase.base, op.phase.why) && !Forced(op.phase.why)
  {
    OutcomeHolds(c, ws, acts, i, o);
    InvHolds(c, ws, acts, i);
    ClaimNeverForces(c, ws, acts, i, o);
    assert OpInv(c, ws[i], ws[i].ops[o]);
  }

  lemma {:induction false} ClaimNeverForces(c: Setting, ws: seq<World>, acts: seq<Action>, i: nat, o: nat)
    requires IsRun(c, ws, acts) && i < |ws| && o < |ws[i].ops| && ws[i].ops[o].kind == Claim
    ensures var p := ws[i].ops[o].phase;
            !p.Probing? && (p.Ready? || p.Put? ==> !Forced(p.why))
  {
    if i > 0 && o < |ws[i - 1].ops| {
      ClaimNeverForces(c, ws, acts, i - 1, o);
    }
  }

  // ---------------------------------------------------------------------------------------------
  // Runs in which exclusion fails
  // ---------------------------------------------------------------------------------------------

  /** A run all of whose steps are orderly; its last world. */
  ghost predicate OrderlyRun(c: Setting, ws: seq<World>, acts: seq<Action>) {
    IsRun(c, ws, acts) && forall k :: 0 <= k < |acts| ==> Orderly(c, ws[k], acts[k])
  }

  lemma Extend(c: Setting, ws: seq<World>, acts: seq<Action>, a: Action)
    requires OrderlyRun(c, ws, acts) && Enabled(c, ws[|acts|], a) && Orderly(c, ws[|acts|], a)
    ensures OrderlyRun(c, ws + [Apply(c, ws[|acts|], a)], acts + [a])
  {
  }

  /** Node `n` calls tryClaimLeadership and decides to write. */
  lemma ClaimDecides(c: Setting, ws: seq<World>, acts: seq<Action>, n: NodeId, why: Reason)
      returns (ws': seq<World>, acts': seq<Action>)
    requires OrderlyRun(c, ws, acts)
    requires ClaimChoice(n, ws[|acts|].file, ws[|acts|].clock(n), c.interval) == Write(why)
    ensures OrderlyRun(c, ws', acts') && ws <= ws' && acts <= acts'
    ensures ws'[|acts'|] == ws[|acts|].(ops := ws[|acts|].ops + [Op(n, Claim, Ready(ws[|acts|].file, why), None)])
  {
    var w, op := ws[|acts|], |ws[|acts|].ops|;
    var a1, a2, a3 := Begin(n, Claim), Serve(op), Decide(op, c.interval);
    var w1 := Apply(c, w, a1);
    Extend(c, ws, acts, a1);
    var w2 := Apply(c, w1, a2);
    Extend(c, ws + [w1], acts + [a1], a2);
    Extend(c, ws + [w1] + [w2], acts + [a1] + [a2], a3);
    ws', acts' := ws + [w1] + [w2] + [Apply(c, w2, a3)], acts + [a1] + [a2] + [a3];
  }

  /** Node `n` calls tryClaimLeadership, and its PUT lands. */
  lemma ClaimLands(c: Setting, ws: seq<World>, acts: seq<Action>, n: NodeId, why: Reason)
      returns (ws': seq<World>, acts': seq<Action>)
    requires OrderlyRun(c, ws, acts)
    requires ClaimChoice(n, ws[|acts|].file, ws[|acts|].clock(n), c.interval) == Write(why)
    ensures OrderlyRun(c, ws', acts') && ws <= ws' && acts < acts'
    ensures var w := ws[|acts|];
            var l := Lease(n, UnixMilli(w.clock(n)));
            && ws'[|acts'|] == World(w.now, w.clock, Some(l), w.log + [Landing(l, w.file, why)],
                                     w.ops + [Op(n, Claim, Put(l, w.file, why, Landed), None)])
            && (SetsBack(c, ws'[|acts'| - 1], acts'[|acts'| - 1]) <==>
                why.Own? && l.updated < w.file.value.updated && !Expired(c, w, w.file.value))
  {
    var w, op := ws[|acts|], |ws[|acts|].ops|;
    ws', acts' := ClaimDecides(c, ws, acts, n, why);
    var w3 := ws'[|acts'|];
    Extend(c, ws', acts', Send(op));
    var w4 := Apply(c, w3, Send(op));
    ws', acts' := ws' + [w4], acts' + [Send(op)];
    var l := Lease(n, UnixMilli(w.clock(n)));
    assert w4.ops == w.ops + [Op(n, Claim, Put(l, w.file, why, OnWire), None)];
    Extend(c, ws', acts', Handle(op));
    ws', acts' := ws' + [Apply(c, w4, Handle(op))], acts' + [Handle(op)];
  }

  /** Operation 0: node "a" takes over a file that names "b" and is older than ten minutes. */
  lemma TakeoverRun(c: Setting) returns (ws: seq<World>, acts: seq<Action>)
    requires c.interval == 600_000_000_000 && c.skew == 0
    ensures OrderlyRun(c, ws, acts)
    ensures var w := ws[|acts|];
            && w.file == Some(Lease("a", 601_000)) && |w.ops| == 1
            && |w.log| == 2 && w.log[1].lease == Lease("a", 601_000)
            && w.now == w.clock("a") == w.clock("b") == 601_000_000_000
  {
    var first := Lease("b", 0);
    var w0 := World(601_000_000_000, n => 601_000_000_000, Some(first), [Landing(first, None, Absent)], []);
    ws, acts := ClaimLands(c, [w0], [], "a", Stale(601_000_000_000, c.interval));
  }

  /** The clocks of `w` and the time are set. */
  lemma TimePasses(c: Setting, ws: seq<World>, acts: seq<Action>, now: int, clock: NodeId -> int)
      returns (ws': seq<World>, acts': seq<Action>)
    requires OrderlyRun(c, ws, acts) && Enabled(c, ws[|acts|], Advance(now, clock))
    ensures OrderlyRun(c, ws', acts') && ws <= ws' && acts <= acts'
    ensures ws'[|acts'|] == ws[|acts|].(now := now, clock := clock)
  {
    Extend(c, ws, acts, Advance(now, clock));
    ws', acts' := ws + [Apply(c, ws[|acts|], Advance(now, clock))], acts + [Advance(now, clock)];
  }

  /** Node "a" claims with a clock a minute fast, which is set back to a minute slow before it renews. */
  lemma SetBackRun(c: Setting) returns (ws: seq<World>, acts: seq<Action>)
    requires c.interval == 600_000_000_000 && c.skew == 60_000_000_000 && !c.monotone
    ensures OrderlyRun(c, ws, acts) && acts != [] && SetsBack(c, ws[|acts| - 1], acts[|acts| - 1])
    ensures var w := ws[|acts|];
            && w.now == 1000_000_000_000 && w.file == Some(Lease("a", 940_000))
            && |w.log| == 2 && w.log[0].lease == Lease("a", 1060_000)
  {
    var w0 := World(1000_000_000_000, n => 1060_000_000_000, None, [], []);
    ws, acts := ClaimLands(c, [w0], [], "a", Absent);
    ws, acts := TimePasses(c, ws, acts, 1000_000_000_000, n => 940_000_000_000);
    ws, acts := ClaimLands(c, ws, acts, "a", Own);
  }

  /**
    What a renewal that sets a lease back, here step `at`, can lead to: "b" finds the renewed lease
    stale while "a" could still rely on the first one, though not on its last (LastLeaseExclusion).
  */
  lemma ClockSetBackBreaksExclusion() returns (c: Setting, ws: seq<World>, acts: seq<Action>, at: nat)
    ensures OrderlyRun(c, ws, acts) && at < |acts| && SetsBack(c, ws[at], acts[at])
    ensures Trusts(c, ws[|acts|], "a") && Trusts(c, ws[|acts|], "b")
  {
    c := Setting(600_000_000_000, 60_000_000_000, n => {}, false);
    ws, acts := SetBackRun(c);
    at := |acts| - 1;
    var first, steps := ws, acts;
    ws, acts := TimePasses(c, ws, acts, 1481_000_000_000, n => if n == "a" then 1421_000_000_000 else 1541_000_000_000);
    ws, acts := ClaimLands(c, ws, acts, "b", Stale(1541_000_000_000, c.interval));
    assert ws[at] == first[at] && acts[at] == steps[at];
    var w := ws[|acts|];
    assert w.log[0].lease == Lease("a", 1060_000) && w.log[2].lease == Lease("b", 1541_000);
  }

  /** Probes that fail lead from phase `Probing(target, failed)` to the decision to reclaim. */
  lemma {:induction false} FailingProbes(
      c: Setting, ws: seq<World>, acts: seq<Action>, op: nat, target: Lease, failed: nat)
      returns (ws': seq<World>, acts': seq<Action>)
    requires OrderlyRun(c, ws, acts) && failed < PROBES
    requires Running(ws[|acts|], op) && ws[|acts|].ops[op].phase == Probing(target, failed)
    ensures OrderlyRun(c, ws', acts')
    ensures ws'[|acts'|] == WithPhase(ws[|acts|], op, Ready(Some(target), Unreachable(5)))
    decreases PROBES - failed
  {
    var a := Probe(op, false);
    Extend(c, ws, acts, a);
    ws', acts' := ws + [Apply(c, ws[|acts|], a)], acts + [a];
    if failed + 1 < PROBES {
      ws', acts' := FailingProbes(c, ws', acts', op, target, failed + 1);
    }
  }

  /** Node `n` calls renewLeadership while the file holds another host's lease. */
  lemma RenewalReachesProbing(c: Setting, ws: seq<World>, acts: seq<Action>, n: NodeId)
      returns (ws': seq<World>, acts': seq<Action>)
    requires OrderlyRun(c, ws, acts) && ws[|acts|].file.Some?
    requires ws[|acts|].file.value.host != n && ws[|acts|].file.value.host !in c.names(n)
    ensures OrderlyRun(c, ws', acts')
    ensures ws'[|acts'|] == ws[|acts|].(ops := ws[|acts|].ops + [Op(n, Renew, Probing(ws[|acts|].file.value, 0), None)])
  {
    var w, op := ws[|acts|], |ws[|acts|].ops|;
    var a1, a2, a3 := Begin(n, Renew), Serve(op), Decide(op, c.interval);
    var w1 := Apply(c, w, a1);
    Extend(c, ws, acts, a1);
    var w2 := Apply(c, w1, a2);
    Extend(c, ws + [w1], acts + [a1], a2);
    Extend(c, ws + [w1] + [w2], acts + [a1] + [a2], a3);
    ws', acts' := ws + [w1] + [w2] + [Apply(c, w2, a3)], acts + [a1] + [a2] + [a3];
  }

  /**
    renewLeadership reclaims the file from a host that does not answer five probes, however
    fresh its lease is.  In this run node "b" does so to node "a", and both then rely on a lease;
    every step but the last is orderly.
  */
  lemma ReclaimBreaksExclusion() returns (c: Setting, ws: seq<World>, acts: seq<Action>)
    ensures IsRun(c, ws, acts) && |acts| > 0
    ensures forall k :: 0 <= k < |acts| - 1 ==> Orderly(c, ws[k], acts[k])
    ensures Trusts(c, ws[|acts|], "a") && Trusts(c, ws[|acts|], "b")
  {
    c := Setting(600_000_000_000, 0, n => {}, true);
    ws, acts := TakeoverRun(c);
    ws, acts := RenewalReachesProbing(c, ws, acts, "b");
    ws, acts := FailingProbes(c, ws, acts, 1, Lease("a", 601_000), 0);
    Extend(c, ws, acts, Send(1));
    ws, acts := ws + [Apply(c, ws[|acts|], Send(1))], acts + [Send(1)];
    InvHolds(c, ws, acts, |acts|);
    ReclaimLands(c, ws[|acts|]);
    ws, acts := ws + [Apply(c, ws[|acts|], Handle(1))], acts + [Handle(1)];
  }

  /** The last step of that run. */
  lemma ReclaimLands(c: Setting, w: World)
    requires c.interval == 600_000_000_000 && c.skew == 0
    requires |w.ops| == 2 && w.file == Some(Lease("a", 601_000))
    requires w.ops[1].phase == Put(Lease("b", 601_000), w.file, Unreachable(5), OnWire)
    requires |w.log| == 2 && w.log[1].lease == Lease("a", 601_000)
    requires w.clock("a") == w.clock("b") == 601_000_000_000
    ensures Enabled(c, w, Handle(1))
    ensures Trusts(c, Apply(c, w, Handle(1)), "a") && Trusts(c, Apply(c, w, Handle(1)), "b")
  {
    var w' := Apply(c, w, Handle(1));
    assert w'.log[1].lease == Lease("a", 601_000) && w'.log[2].lease == Lease("b", 601_000);
  }
}
