/**
  The two restart loops: runWatchdog and the Windows service's runSupervisionLoop.  Times are in
  nanoseconds.  What the system does in each turn of a loop is given by a Turn.
*/
module Supervision {

  function Seconds(n: int): int { n * 1_000_000_000 }

  /**
    One turn of the loop: whether the binary is there (or could be downloaded), how often
    monitorAlreadyRunning answers yes in a row, whether cmd.Start succeeds, how long the process
    then lives, and the time lost to scheduling and requests before the spawn.
  */
  datatype Turn = Turn(present: bool, downloaded: bool, running: nat, starts: bool, life: nat, late: nat)

  /** A spawn attempt: when, the backoff slept just before it, and how it went. */
  datatype Attempt = Attempt(at: int, backoff: int, started: bool, life: nat)

  datatype State = State(now: int, restarts: nat, attempts: seq<Attempt>)

  /** The sleep before a spawn: none for the first three restarts in a row, then 10 s for each, up to 2 min. */
  function Backoff(restarts: nat): int {
    if restarts <= 3 then 0
    else if Seconds(restarts * 10) > Seconds(120) then Seconds(120)
    else Seconds(restarts * 10)
  }

  /** The sleep after an attempt. */
  function Pause(started: bool, life: nat): int {
    if !started then Seconds(5) else if life < Seconds(5) then Seconds(30) else Seconds(3)
  }

  function Supervise(s: State, t: Turn): State {
    if t.running > 0 then
      State(s.now + t.late + Seconds(5 * (t.running - 1)), 0, s.attempts)
    else
      var backoff := Backoff(s.restarts + 1);
      var at := s.now + t.late + backoff;
      if !t.starts then
        State(at + Pause(false, 0), s.restarts + 1, s.attempts + [Attempt(at, backoff, false, 0)])
      else
        State(at + t.life + Pause(true, t.life), if t.life < Seconds(5) then 1 else 0,
              s.attempts + [Attempt(at, backoff, true, t.life)])
  }

  function Watch(s: State, t: Turn): State {
    if !t.present && !t.downloaded then s.(now := s.now + t.late + Seconds(30)) else Supervise(s, t)
  }

  function WatchAll(start: int, turns: seq<Turn>): State {
    if turns == [] then State(start, 0, [])
    else Watch(WatchAll(start, turns[..|turns| - 1]), turns[|turns| - 1])
  }

  class Supervisor {
    var now: int
    var consecutiveRestarts: nat
    var attempts: seq<Attempt>

    function Current(): State
      reads this
    {
      State(now, consecutiveRestarts, attempts)
    }

    constructor (start: int)
      ensures Current() == State(start, 0, [])
    {
      now, consecutiveRestarts, attempts := start, 0, [];
    }

    method Sleep(d: int)
      modifies this`now
      ensures now == old(now) + d
    {
      now := now + d;
    }

    /** The common body of the two loops, from the singleton check to the pause at the end. */
    method SuperviseOnce(t: Turn)
      modifies this
      ensures Current() == Supervise(old(Current()), t)
      // While the monitor runs, the loop only waits, 5 s at a time.
      ensures t.running > 0 ==>
                now == old(now) + t.late + 5_000_000_000 * (t.running - 1) && consecutiveRestarts == 0
                && attempts == old(attempts)
      // Otherwise one attempt, after the backoff, and a pause.
      ensures t.running == 0 ==>
                var r := old(consecutiveRestarts) + 1;
                var backoff := if r <= 3 then 0 else if r <= 12 then r * 10_000_000_000 else 120_000_000_000;
                var at := old(now) + t.late + backoff;
                && attempts == old(attempts) + [Attempt(at, backoff, t.starts, if t.starts then t.life else 0)]
                && (!t.starts ==> now == at + 5_000_000_000 && consecutiveRestarts == r)
                && (t.starts && t.life < 5_000_000_000 ==> now == at + t.life + 30_000_000_000 && consecutiveRestarts == 1)
                && (t.starts && t.life >= 5_000_000_000 ==> now == at + t.life + 3_000_000_000 && consecutiveRestarts == 0)
    {
      Sleep(t.late);
      if t.running > 0 {
        consecutiveRestarts := consecutiveRestarts + 1;
        var polls := t.running - 1;
        while polls > 0
          invariant 0 <= polls && now == old(now) + t.late + Seconds(5 * (t.running - 1 - polls))
          invariant attempts == old(attempts)
        {
          Sleep(Seconds(5));
          polls := polls - 1;
        }
        consecutiveRestarts := 0;
        return;
      }
      consecutiveRestarts := consecutiveRestarts + 1;
      var backoff := 0;
      if consecutiveRestarts > 3 {
        backoff := Seconds(consecutiveRestarts * 10);
        if backoff > Seconds(120) {
          backoff := Seconds(120);
        }
        Sleep(backoff);
      }
      if !t.starts {
        attempts := attempts + [Attempt(now, backoff, false, 0)];
        Sleep(Seconds(5));
        return;
      }
      attempts := attempts + [Attempt(now, backoff, true, t.life)];
      consecutiveRestarts := 0;
      var monitorStartTime := now;
      Sleep(t.life);                                    // cmd.Wait
      if now - monitorStartTime < Seconds(5) {
        consecutiveRestarts := consecutiveRestarts + 1;
        Sleep(Seconds(30));
      } else {
        Sleep(Seconds(3));
      }
    }

    method RunWatchdog(turns: seq<Turn>)
      requires consecutiveRestarts == 0 && attempts == []
      modifies this
      ensures Current() == WatchAll(old(now), turns)
    {
      assert turns[..|turns|] == turns;
      for i := 0 to |turns|
        invariant Current() == WatchAll(old(now), turns[..i])
      {
        assert turns[..i + 1][..i] == turns[..i];
        var t := turns[i];
        if !t.present && !t.downloaded {
          Sleep(t.late);
          Sleep(Seconds(30));
          continue;
        }
        SuperviseOnce(t);
      }
    }

    /** The service's loop has no recovery step: it is the watchdog's with the binary always there. */
    method RunSupervisionLoop(turns: seq<Turn>)
      requires consecutiveRestarts == 0 && attempts == []
      requires forall t :: t in turns ==> t.present
      modifies this
      ensures Current() == WatchAll(old(now), turns)
    {
      assert turns[..|turns|] == turns;
      for i := 0 to |turns|
        invariant Current() == WatchAll(old(now), turns[..i])
      {
        assert turns[..i + 1][..i] == turns[..i];
        SuperviseOnce(turns[i]);
      }
    }
  }

  // ---------------------------------------------------------------------------------------------
  // Turn by turn
  // ---------------------------------------------------------------------------------------------

  /** What the `k`-th turn of the watchdog does: 30 s more when there is nothing to start, or a wait, or an attempt. */
  lemma TurnByTurn(start: int, turns: seq<Turn>, k: nat)
    requires k < |turns|
    ensures WatchAll(start, turns[..0]) == State(start, 0, [])
    ensures var s, s', t := WatchAll(start, turns[..k]), WatchAll(start, turns[..k + 1]), turns[k];
            var r := s.restarts + 1;
            if !t.present && !t.downloaded then
              s' == State(s.now + t.late + 30_000_000_000, s.restarts, s.attempts)
            else if t.running > 0 then
              s' == State(s.now + t.late + 5_000_000_000 * (t.running - 1), 0, s.attempts)
            else
              var backoff := if r <= 3 then 0 else if r <= 12 then r * 10_000_000_000 else 120_000_000_000;
              var at := s.now + t.late + backoff;
              && s'.attempts == s.attempts + [Attempt(at, backoff, t.starts, if t.starts then t.life else 0)]
              && s'.restarts == (if !t.starts then r else if t.life < 5_000_000_000 then 1 else 0)
              && s'.now == (if !t.starts then at + 5_000_000_000
                            else at + t.life + if t.life < 5_000_000_000 then 30_000_000_000 else 3_000_000_000)
  {
    assert turns[..k + 1][..k] == turns[..k];
  }

  /** A turn in which the binary is there, nothing runs, and the start fails. */
  predicate Fails(t: Turn) { (t.present || t.downloaded) && t.running == 0 && !t.starts }

  /** The restart counter when `n` failed starts follow the first `i` turns. */
  lemma {:induction false} RestartsAfterFailures(start: int, turns: seq<Turn>, i: nat, n: nat)
    requires i + n <= |turns| && forall k :: i <= k < i + n ==> Fails(turns[k])
    ensures WatchAll(start, turns[..i + n]).restarts == WatchAll(start, turns[..i]).restarts + n
  {
    if n > 0 {
      RestartsAfterFailures(start, turns, i, n - 1);
      TurnByTurn(start, turns, i + n - 1);
    }
  }

  lemma CountBefore(start: int, turns: seq<Turn>, i: nat)
    requires i < |turns|
    requires i > 0 ==> (turns[i - 1].present || turns[i - 1].downloaded) && !Fails(turns[i - 1])
    ensures WatchAll(start, turns[..i]).restarts
            == if i > 0 && turns[i - 1].running == 0 && turns[i - 1].life < 5_000_000_000 then 1 else 0
  {
    if i > 0 {
      TurnByTurn(start, turns, i - 1);
    }
  }

  /**
    The backoff before an attempt that follows `n` failed starts in a row: it counts them, this
    attempt and, if the process before them died within 5 s, that one; for a count above three it is
    10 s for each, at most two minutes.
  */
  lemma {:induction false} BackoffCounts(start: int, turns: seq<Turn>, i: nat, n: nat, k: nat, count: nat)
    requires k == i + n < |turns| && forall j :: i <= j < k ==> Fails(turns[j])
    requires (turns[k].present || turns[k].downloaded) && turns[k].running == 0
    requires i > 0 ==> (turns[i - 1].present || turns[i - 1].downloaded) && !Fails(turns[i - 1])
    requires count == n + 1 + if i > 0 && turns[i - 1].running == 0 && turns[i - 1].life < 5_000_000_000 then 1 else 0
    ensures var a := WatchAll(start, turns[..k + 1]).attempts;
            a != [] && a[|a| - 1].backoff
                       == if count <= 3 then 0 else if count <= 12 then count * 10_000_000_000 else 120_000_000_000
  {
    CountBefore(start, turns, i);
    RestartsAfterFailures(start, turns, i, n);
    BackoffOf(start, turns, k, count);
  }

  lemma BackoffOf(start: int, turns: seq<Turn>, k: nat, count: nat)
    requires k < |turns| && (turns[k].present || turns[k].downloaded) && turns[k].running == 0
    requires count == WatchAll(start, turns[..k]).restarts + 1
    ensures var a := WatchAll(start, turns[..k + 1]).attempts;
            a != [] && a[|a| - 1].backoff
                       == if count <= 3 then 0 else if count <= 12 then count * 10_000_000_000 else 120_000_000_000
  {
    TurnByTurn(start, turns, k);
  }

  // ---------------------------------------------------------------------------------------------
  // Bounds on every run
  // ---------------------------------------------------------------------------------------------

  /** How many of the last attempts in a row failed to start. */
  function FailedInARow(attempts: seq<Attempt>): nat {
    if attempts == [] || attempts[|attempts| - 1].started then 0
    else 1 + FailedInARow(attempts[..|attempts| - 1])
  }

  /** The next attempt after `a` cannot come earlier than this. */
  function Earliest(a: Attempt): int { a.at + a.life + Pause(a.started, a.life) }

  ghost predicate Inv(s: State) {
    && s.restarts <= 1 + FailedInARow(s.attempts)
    && (s.attempts != [] ==> Earliest(s.attempts[|s.attempts| - 1]) <= s.now)
    && (forall k :: 0 <= k < |s.attempts| ==> s.attempts[k].started || s.attempts[k].life == 0)
    && (forall k :: 0 < k < |s.attempts| ==>
          Earliest(s.attempts[k - 1]) + s.attempts[k].backoff <= s.attempts[k].at)
    && (forall k :: 0 <= k < |s.attempts| ==> Measured(s.attempts, k))
  }

  /** The backoff before attempt `k` is 0, or 40 s to 2 min and at most 10 s for each failure before it plus 20 s. */
  ghost predicate Measured(attempts: seq<Attempt>, k: nat)
    requires k < |attempts|
  {
    var b := attempts[k].backoff;
    var f := FailedInARow(attempts[..k]);
    b == 0 || (f >= 2 && Seconds(40) <= b <= Seconds(120) && b <= Seconds(10 * (f + 2)))
  }

  /** What a turn does to the list of attempts: nothing, or one more at its end. */
  lemma OneMoreAttempt(s: State, t: Turn)
    requires Inv(s)
    ensures var s' := Watch(s, t);
            s'.attempts == s.attempts ||
            (|s'.attempts| == |s.attempts| + 1 && s'.attempts[..|s.attempts|] == s.attempts
             && Measured(s'.attempts, |s.attempts|))
  {
    var s' := Watch(s, t);
    if s'.attempts != s.attempts {
      assert s'.attempts[..|s.attempts|] == s.attempts;
    }
  }

  lemma MeasuredKept(attempts: seq<Attempt>, n: nat, k: nat)
    requires k < n <= |attempts| && Measured(attempts[..n], k)
    ensures Measured(attempts, k)
  {
    assert attempts[..n][..k] == attempts[..k];
  }

  /** The restart counter follows the failed starts. */
  lemma WatchKeepsCount(s: State, t: Turn)
    requires Inv(s)
    ensures Watch(s, t).restarts <= 1 + FailedInARow(Watch(s, t).attempts)
  {
    var s' := Watch(s, t);
    if s'.attempts != s.attempts {
      assert s'.attempts[..|s'.attempts| - 1] == s.attempts;
    }
  }

  lemma WatchKeepsSpacing(s: State, t: Turn)
    requires Inv(s)
    ensures var s' := Watch(s, t);
            && (s'.attempts != [] ==> Earliest(s'.attempts[|s'.attempts| - 1]) <= s'.now)
            && (forall k :: 0 <= k < |s'.attempts| ==> s'.attempts[k].started || s'.attempts[k].life == 0)
            && (forall k :: 0 < k < |s'.attempts| ==>
                  Earliest(s'.attempts[k - 1]) + s'.attempts[k].backoff <= s'.attempts[k].at)
  {
    var s', n := Watch(s, t), |s.attempts|;
    assert forall k :: 0 <= k < n ==> s'.attempts[k] == s.attempts[k];
  }

  lemma WatchKeepsMeasured(s: State, t: Turn)
    requires Inv(s)
    ensures forall k :: 0 <= k < |Watch(s, t).attempts| ==> Measured(Watch(s, t).attempts, k)
  {
    var s', n := Watch(s, t), |s.attempts|;
    OneMoreAttempt(s, t);
    forall k | 0 <= k < |s'.attempts| ensures Measured(s'.attempts, k) {
      if k < n {
        assert s'.attempts[..n] == s.attempts;
        MeasuredKept(s'.attempts, n, k);
      }
    }
  }

  lemma WatchKeepsInv(s: State, t: Turn)
    requires Inv(s)
    ensures Inv(Watch(s, t))
  {
    WatchKeepsCount(s, t);
    WatchKeepsSpacing(s, t);
    WatchKeepsMeasured(s, t);
  }

  lemma {:induction false} InvHolds(start: int, turns: seq<Turn>)
    ensures Inv(WatchAll(start, turns))
  {
    if turns != [] {
      InvHolds(start, turns[..|turns| - 1]);
      WatchKeepsInv(WatchAll(start, turns[..|turns| - 1]), turns[|turns| - 1]);
    }
  }

  /**
    Two attempts in a row: after a failed start at least 5 s; after a process that died within
    5 s, 30 s from its death; otherwise 3 s from its exit; and the backoff comes on top.
  */
  lemma AttemptsApart(start: int, turns: seq<Turn>, k: nat)
    requires 0 < k < |WatchAll(start, turns).attempts|
    ensures var a := WatchAll(start, turns).attempts;
            && a[k].at >= a[k - 1].at + a[k - 1].life + a[k].backoff
                          + (if !a[k - 1].started then 5_000_000_000
                             else if a[k - 1].life < 5_000_000_000 then 30_000_000_000 else 3_000_000_000)
            && a[k].at >= a[k - 1].at + 5_000_000_000
  {
    InvHolds(start, turns);
    assert Measured(WatchAll(start, turns).attempts, k);
  }

  lemma {:induction false} AttemptsSpread(start: int, turns: seq<Turn>, i: nat, j: nat)
    requires i <= j < |WatchAll(start, turns).attempts|
    ensures WatchAll(start, turns).attempts[j].at - WatchAll(start, turns).attempts[i].at >= Seconds(5 * (j - i))
    decreases j
  {
    if i < j {
      AttemptsSpread(start, turns, i, j - 1);
      AttemptsApart(start, turns, j);
    }
  }

  /** Any window of `t` seconds holds at most t/5 + 1 spawn attempts. */
  lemma AttemptsInWindow(start: int, turns: seq<Turn>, i: nat, j: nat, t: nat)
    requires i <= j < |WatchAll(start, turns).attempts|
    requires WatchAll(start, turns).attempts[j].at - WatchAll(start, turns).attempts[i].at <= Seconds(t)
    ensures j - i + 1 <= t / 5 + 1
  {
    AttemptsSpread(start, turns, i, j);
  }

  /**
    A backoff is slept only when at least the two attempts just before failed to start, and is then
    40 s to 2 min.  So a process that starts and dies at once, however often, never causes one.
  */
  lemma BackoffNeedsFailedStarts(start: int, turns: seq<Turn>, k: nat)
    requires k < |WatchAll(start, turns).attempts|
    requires WatchAll(start, turns).attempts[k].backoff != 0
    ensures Seconds(40) <= WatchAll(start, turns).attempts[k].backoff <= Seconds(120)
    ensures k >= 2 && !WatchAll(start, turns).attempts[k - 1].started
                   && !WatchAll(start, turns).attempts[k - 2].started
  {
    InvHolds(start, turns);
    var a := WatchAll(start, turns).attempts;
    assert Measured(a, k);
    assert FailedInARow(a[..k]) >= 2;
    assert a[..k][..k - 1] == a[..k - 1];
    assert FailedInARow(a[..k - 1]) >= 1;
  }

  /** After three failed starts in a row, with nothing in between, the next attempt comes after a backoff. */
  lemma ThreeFailuresBackOff(s: State, t1: Turn, t2: Turn, t3: Turn, t4: Turn)
    requires forall t :: t in [t1, t2, t3, t4] ==> t.present && t.running == 0
    requires !t1.starts && !t2.starts && !t3.starts
    ensures var s' := Watch(Watch(Watch(Watch(s, t1), t2), t3), t4);
            s'.attempts[|s'.attempts| - 1].backoff >= Seconds(40)
  {
    assert [t1, t2, t3, t4][0] == t1 && [t1, t2, t3, t4][1] == t2;
    assert [t1, t2, t3, t4][2] == t3 && [t1, t2, t3, t4][3] == t4;
  }
}
