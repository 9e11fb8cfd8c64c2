/** The agent's connection loop, runAgentClient: reconnection delays and self-promotion. */
module AgentClient {

  const MAX_ATTEMPTS := 6
  const MAX_DELAY := 30      // seconds

  /**
    How one round goes: which of WebRTC, QUIC and WebSocket connects, and, if none does, whether
    GitHub is configured, isLeaderStale's answer and the health probe's.  The GitHub transport
    never counts as a connection: tryAgentGitHub always returns false.
  */
  datatype Round = Round(webrtc: bool, quic: bool, ws: bool, github: bool, stale: bool, healthy: bool)

  predicate Connects(r: Round) { r.webrtc || r.quic || r.ws }

  predicate GoesStale(r: Round) { !Connects(r) && r.github && r.stale }

  /** How the call ends, if it does within the rounds given. */
  datatype Exit = Running | Reelect | Promoted

  /** The number of rounds at the end of `rounds` in which every transport failed. */
  function Failures(rounds: seq<Round>): nat {
    if rounds == [] || Connects(rounds[|rounds| - 1]) then 0
    else 1 + Failures(rounds[..|rounds| - 1])
  }

  function Pow2(k: nat): nat { if k == 0 then 1 else 2 * Pow2(k - 1) }

  /** min(2^k, 30) seconds. */
  function Delay(k: nat): nat { if Pow2(k) < MAX_DELAY then Pow2(k) else MAX_DELAY }

  lemma {:induction false} DelayDoubles(k: nat)
    ensures Delay(k + 1) == if Delay(k) * 2 > MAX_DELAY then MAX_DELAY else Delay(k) * 2
    ensures 1 <= Delay(k)
  {
    if k > 0 {
      DelayDoubles(k - 1);
    }
  }

  /** In the last round of `rounds` the agent promotes itself, if it has not stopped before. */
  predicate Promotes(rounds: seq<Round>) {
    && rounds != []
    && var r := rounds[|rounds| - 1];
       && !Connects(r) && !GoesStale(r) && !r.healthy
       && Failures(rounds) % MAX_ATTEMPTS == 0
  }

  predicate Reelects(rounds: seq<Round>) { rounds != [] && GoesStale(rounds[|rounds| - 1]) }

  /** Nothing made the loop stop before round `n`. */
  ghost predicate GoesOn(rounds: seq<Round>, n: nat)
    requires n <= |rounds|
  {
    forall k :: 0 < k <= n ==> !Promotes(rounds[..k]) && !Reelects(rounds[..k])
  }

  /** The seconds slept in the rounds from `i` to `j`: in a failed round, what the failures before it call for. */
  function Slept(rounds: seq<Round>, i: nat, j: nat): nat
    requires i <= j <= |rounds|
    decreases j
  {
    if i == j then 0
    else Slept(rounds, i, j - 1) + if Connects(rounds[j - 1]) then 0 else Delay(Failures(rounds[..j - 1]))
  }

  lemma CountWraps(f: nat)
    ensures (f + 1) % MAX_ATTEMPTS == if f % MAX_ATTEMPTS == MAX_ATTEMPTS - 1 then 0 else f % MAX_ATTEMPTS + 1
  {
  }

  /** What the definitions say about round `i`, given the rounds before it. */
  lemma OneMoreRound(rounds: seq<Round>, i: nat)
    requires i < |rounds|
    ensures var f := Failures(rounds[..i]);
            var r := rounds[i];
            && Failures(rounds[..i + 1]) == (if Connects(r) then 0 else f + 1)
            && Slept(rounds, 0, i + 1) == Slept(rounds, 0, i) + (if Connects(r) then 0 else Delay(f))
            && (Reelects(rounds[..i + 1]) <==> GoesStale(r))
            && (Promotes(rounds[..i + 1]) <==>
                  !Connects(r) && !GoesStale(r) && !r.healthy && Failures(rounds[..i + 1]) % MAX_ATTEMPTS == 0)
  {
    var now := rounds[..i + 1];
    assert now[..i] == rounds[..i] && now[i] == rounds[i] && |now| == i + 1;
  }

  /** No transport connects in the round. */
  predicate AllFail(r: Round) { !r.webrtc && !r.quic && !r.ws }

  /** A row of failed rounds ends with round `k`: it has `n` of them, since a connection or the start. */
  ghost predicate FailedRow(rounds: seq<Round>, k: nat, n: nat)
    requires k < |rounds|
  {
    && 0 < n <= k + 1
    && (forall j :: k + 1 - n <= j <= k ==> AllFail(rounds[j]))
    && (n <= k ==> !AllFail(rounds[k - n]))
  }

  /** Round `k` is the sixth, twelfth, ... of a row of failed rounds, no stale leader is to be replaced, and no server answers. */
  ghost predicate StopsWithoutServer(rounds: seq<Round>, k: nat)
    requires k < |rounds|
  {
    && !(rounds[k].github && rounds[k].stale) && !rounds[k].healthy
    && exists n :: FailedRow(rounds, k, n) && n % 6 == 0
  }

  /** The count of failures is the length of that row, 0 if the round connects. */
  lemma {:induction false} FailuresCountRow(rounds: seq<Round>, k: nat)
    requires k < |rounds|
    ensures var f := Failures(rounds[..k + 1]);
            && (f == 0 <==> !AllFail(rounds[k]))
            && (forall n :: FailedRow(rounds, k, n) <==> f > 0 && n == f)
  {
    assert rounds[..k + 1][..k] == rounds[..k];
    if AllFail(rounds[k]) {
      if k == 0 {
        assert FailedRow(rounds, 0, 1);
      } else {
        FailuresCountRow(rounds, k - 1);
        var f := Failures(rounds[..k]);
        forall n | FailedRow(rounds, k, n) ensures n == f + 1 {
          if n > 1 {
            assert FailedRow(rounds, k - 1, n - 1);
          }
        }
        assert f > 0 ==> FailedRow(rounds, k - 1, f);
        assert FailedRow(rounds, k, f + 1);
      }
    }
  }

  lemma StopsIff(rounds: seq<Round>, k: nat)
    requires k < |rounds|
    ensures Reelects(rounds[..k + 1]) <==> AllFail(rounds[k]) && rounds[k].github && rounds[k].stale
    ensures Promotes(rounds[..k + 1]) <==> StopsWithoutServer(rounds, k)
  {
    FailuresCountRow(rounds, k);
    assert rounds[..k + 1][k] == rounds[k];
    var f := Failures(rounds[..k + 1]);
    assert f > 0 ==> FailedRow(rounds, k, f);
  }

  /** What each round sleeps: nothing if it connects, else 1, 2, 4, 8, 16 and from then on 30 s. */
  lemma SleptInRound(rounds: seq<Round>, k: nat, n: nat)
    requires k < |rounds|
    ensures Slept(rounds, 0, 0) == 0
    ensures !AllFail(rounds[k]) ==> Slept(rounds, 0, k + 1) == Slept(rounds, 0, k)
    ensures FailedRow(rounds, k, n) ==>
              Slept(rounds, 0, k + 1) == Slept(rounds, 0, k) + if n <= 5 then [1, 2, 4, 8, 16][n - 1] else 30
  {
    FailuresCountRow(rounds, k);
    OneMoreRound(rounds, k);
    DelaysAre();
    if FailedRow(rounds, k, n) && n > 5 {
      DelayGrows(5, n - 1);
    }
  }

  lemma DelaysAre()
    ensures Delay(0) == 1 && Delay(1) == 2 && Delay(2) == 4 && Delay(3) == 8 && Delay(4) == 16 && Delay(5) == 30
    ensures forall k :: Delay(k) <= 30
  {
    assert Pow2(2) == 4 && Pow2(3) == 8 && Pow2(4) == 16 && Pow2(5) == 32;
  }

  /**
    The loop, over as many rounds as it takes.  It stops after `used` rounds, having slept
    `slept` seconds, exactly when and as the definitions above say.
  */
  method RunAgentClient(rounds: seq<Round>) returns (exit: Exit, used: nat, slept: nat, serverMode: bool)
    ensures used <= |rounds|
    ensures exit.Running? ==> used == |rounds| && GoesOn(rounds, used) && slept == Slept(rounds, 0, used)
    ensures !exit.Running? ==> used > 0 && GoesOn(rounds, used - 1) && slept == Slept(rounds, 0, used - 1)
    ensures exit.Promoted? ==> Promotes(rounds[..used])
    ensures exit.Reelect? ==> Reelects(rounds[..used])
    ensures serverMode <==> exit.Promoted?
    // In the rounds themselves.
    ensures exit.Reelect? <==> used > 0 && AllFail(rounds[used - 1]) && rounds[used - 1].github && rounds[used - 1].stale
    ensures exit.Promoted? <==> used > 0 && StopsWithoutServer(rounds, used - 1)
    ensures forall k :: 0 <= k < used - 1 ==>
              !(AllFail(rounds[k]) && rounds[k].github && rounds[k].stale) && !StopsWithoutServer(rounds, k)
    ensures exit.Running? ==> used == |rounds|
  {
    forall k | 0 <= k < |rounds|
      ensures Reelects(rounds[..k + 1]) <==> AllFail(rounds[k]) && rounds[k].github && rounds[k].stale
      ensures Promotes(rounds[..k + 1]) <==> StopsWithoutServer(rounds, k)
    {
      StopsIff(rounds, k);
    }
    var reconnectDelay := 1;
    var connectAttempts := 0;
    slept := 0;
    for i := 0 to |rounds|
      invariant GoesOn(rounds, i) && slept == Slept(rounds, 0, i)
      invariant reconnectDelay == Delay(Failures(rounds[..i]))
      invariant connectAttempts == Failures(rounds[..i]) % MAX_ATTEMPTS
    {
      var r := rounds[i];
      OneMoreRound(rounds, i);
      CountWraps(Failures(rounds[..i]));
      DelayDoubles(Failures(rounds[..i]));
      var connected := r.webrtc;
      if connected {
        connectAttempts, reconnectDelay := 0, 1;
        continue;
      }
      connectAttempts := connectAttempts + 1;
      connected := r.quic;
      if connected {
        connectAttempts, reconnectDelay := 0, 1;
        continue;
      }
      connected := r.ws;
      if connected {
        connectAttempts, reconnectDelay := 0, 1;
        continue;
      }
      if r.github && r.stale {
        return Reelect, i + 1, slept, false;
      }
      if connectAttempts >= MAX_ATTEMPTS {
        if !r.healthy {
          return Promoted, i + 1, slept, true;
        }
        connectAttempts := 0;
      }
      slept := slept + reconnectDelay;
      reconnectDelay := reconnectDelay * 2;
      if reconnectDelay > MAX_DELAY {
        reconnectDelay := MAX_DELAY;
      }
    }
    return Running, |rounds|, slept, false;
  }

  /** With `f` failed rounds at the end, each of them failed, and the count before each was one less. */
  lemma {:induction false} FailuresBefore(rounds: seq<Round>, b: nat)
    requires b <= Failures(rounds)
    ensures b <= |rounds|
    ensures Failures(rounds[..|rounds| - b]) == Failures(rounds) - b
    ensures forall k :: |rounds| - b <= k < |rounds| ==> !Connects(rounds[k])
  {
    if b == 0 {
      assert rounds[..|rounds|] == rounds;
    } else {
      var before := rounds[..|rounds| - 1];
      FailuresBefore(before, b - 1);
      assert before[..|before| - (b - 1)] == rounds[..|rounds| - b];
      assert forall k :: |rounds| - b <= k < |rounds| - 1 ==> before[k] == rounds[k];
    }
  }

  lemma {:induction false} DelayGrows(j: nat, k: nat)
    requires j <= k
    ensures Delay(j) <= Delay(k)
  {
    if j < k {
      DelayGrows(j, k - 1);
      DelayDoubles(k - 1);
    }
  }

  lemma FirstDelays()
    ensures Delay(0) == 1 && Delay(1) == 2 && Delay(2) == 4 && Delay(3) == 8 && Delay(4) == 16
  {
    assert Pow2(2) == 4 && Pow2(3) == 8 && Pow2(4) == 16;
  }

  /**
    An agent promotes itself only after six rounds in a row in which every transport failed, the
    last with a failed health probe, and after at least 31 s of sleep in the five before the last.
  */
  lemma PromotionTakesSixRounds(rounds: seq<Round>)
    requires Promotes(rounds)
    ensures |rounds| >= 6
    ensures forall k :: |rounds| - 6 <= k < |rounds| ==> !Connects(rounds[k])
    ensures !rounds[|rounds| - 1].healthy
    ensures Slept(rounds, |rounds| - 6, |rounds| - 1) >= 31
  {
    var n := |rounds|;
    assert Failures(rounds) >= 6;
    FailuresBefore(rounds, 6);
    FirstDelays();
    DelayAtLeast(rounds, 6, 0);
    DelayAtLeast(rounds, 5, 1);
    DelayAtLeast(rounds, 4, 2);
    DelayAtLeast(rounds, 3, 3);
    DelayAtLeast(rounds, 2, 4);
    SleptInFive(rounds, n);
  }

  /** Before the `b`-th last of a row of failed rounds the delay had grown to at least `Delay(j)`. */
  lemma DelayAtLeast(rounds: seq<Round>, b: nat, j: nat)
    requires b + j <= Failures(rounds)
    ensures b <= |rounds| && Delay(Failures(rounds[..|rounds| - b])) >= Delay(j)
  {
    FailuresBefore(rounds, b);
    DelayGrows(j, Failures(rounds) - b);
  }

  lemma SleptInFive(rounds: seq<Round>, n: nat)
    requires 6 <= n <= |rounds| && forall k :: n - 6 <= k < n ==> !Connects(rounds[k])
    ensures Slept(rounds, n - 6, n - 1) ==
              Delay(Failures(rounds[..n - 6])) + Delay(Failures(rounds[..n - 5])) + Delay(Failures(rounds[..n - 4]))
              + Delay(Failures(rounds[..n - 3])) + Delay(Failures(rounds[..n - 2]))
  {
    assert Slept(rounds, n - 6, n - 5) == Delay(Failures(rounds[..n - 6]));
    assert Slept(rounds, n - 6, n - 4) == Slept(rounds, n - 6, n - 5) + Delay(Failures(rounds[..n - 5]));
    assert Slept(rounds, n - 6, n - 3) == Slept(rounds, n - 6, n - 4) + Delay(Failures(rounds[..n - 4]));
    assert Slept(rounds, n - 6, n - 2) == Slept(rounds, n - 6, n - 3) + Delay(Failures(rounds[..n - 3]));
  }

  /**
    Conversely, a server that stays unreachable is replaced: after six failed rounds in a row from
    the start, with no stale lease to go back for, the agent has promoted itself by then if the
    probe in the sixth fails.
  */
  lemma SixFailuresPromote(rounds: seq<Round>)
    requires |rounds| == 6 && forall k :: 0 <= k < 6 ==> !Connects(rounds[k]) && !GoesStale(rounds[k])
    ensures Promotes(rounds) <==> !rounds[5].healthy
    ensures GoesOn(rounds, 5)
  {
    forall k | 0 <= k <= 6 ensures Failures(rounds[..k]) == k {
      AllFailed(rounds[..k]);
    }
    assert rounds[..6] == rounds;
  }

  lemma {:induction false} AllFailed(rounds: seq<Round>)
    requires forall k :: 0 <= k < |rounds| ==> !Connects(rounds[k])
    ensures Failures(rounds) == |rounds|
  {
    if rounds != [] {
      AllFailed(rounds[..|rounds| - 1]);
    }
  }
}
