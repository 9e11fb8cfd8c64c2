/**
  The goroutine in main that samples the user's idle time every five seconds and adds it up.
  Times are in nanoseconds; the total is kept in whole milliseconds.
*/
module IdleAccounting {
  import opened Common

  const THRESHOLD := 5_000_000_000
  const DAY := 86_400_000_000_000

  /**
    A tick of the ticker, sent at `now`, and what getIdleDuration answered when the loop got to ask
    it, at `read`: later, if the loop was still saving or did not get to run.
  */
  datatype Tick = Tick(now: int, idle: int, read: int)

  /** The time (lo, hi] that a tick accounts for, if it is an idle one. */
  datatype Span = Span(lo: int, hi: int) {
    function Length(): int { hi - lo }
    predicate Counted() { 0 < Length() < DAY }
    /** int64(elapsed / time.Millisecond), when the guard lets it through. */
    function Millis(): int { if Counted() then Length() / 1_000_000 else 0 }
    function Nanos(): int { if Counted() then Length() else 0 }
  }

  predicate IsIdle(t: Tick) { t.idle >= THRESHOLD }

  /** The user's last input before the reading. */
  function LastInput(t: Tick): int { t.read - t.idle }

  /** How late the reading is.  The sampler ignores it and takes the last input to be that much earlier. */
  function Delay(t: Tick): int { t.read - t.now }

  /** `lastIdleCheck` after these ticks: None is the zero time. */
  function LastCheck(ticks: seq<Tick>): Option<int> {
    if ticks != [] && IsIdle(ticks[|ticks| - 1]) then Some(ticks[|ticks| - 1].now) else None
  }

  /** What tick `k` accounts for: since the check before it or, on the first idle tick, since `now` less the reading. */
  function SpanAt(ticks: seq<Tick>, k: nat): Span
    requires k < |ticks|
  {
    var before := LastCheck(ticks[..k]);
    Span(if before.Some? then before.value else ticks[k].now - ticks[k].idle, ticks[k].now)
  }

  function TotalMillis(ticks: seq<Tick>): int {
    if ticks == [] then 0
    else TotalMillis(ticks[..|ticks| - 1])
         + if IsIdle(ticks[|ticks| - 1]) then SpanAt(ticks, |ticks| - 1).Millis() else 0
  }

  class IdleSampler {
    var lastIdleCheck: Option<int>
    var totalIdleMS: int

    constructor (totalIdleMS: int)
      ensures lastIdleCheck == None && this.totalIdleMS == totalIdleMS
    {
      lastIdleCheck, this.totalIdleMS := None, totalIdleMS;
    }

    method OnTick(now: int, idleDur: int)
      modifies this
      ensures lastIdleCheck == if idleDur >= THRESHOLD then Some(now) else None
      ensures totalIdleMS == old(totalIdleMS) +
                if idleDur >= THRESHOLD
                then Span(if old(lastIdleCheck).Some? then old(lastIdleCheck).value else now - idleDur, now).Millis()
                else 0
      ensures lastIdleCheck == if idleDur >= 5_000_000_000 then Some(now) else None
      ensures idleDur < 5_000_000_000 ==> totalIdleMS == old(totalIdleMS)
      ensures idleDur >= 5_000_000_000 ==>
                var since := if old(lastIdleCheck).Some? then old(lastIdleCheck).value else now - idleDur;
                totalIdleMS == old(totalIdleMS) + if 0 < now - since < 86400_000_000_000 then (now - since) / 1_000_000 else 0
    {
      if idleDur >= THRESHOLD {
        if lastIdleCheck.None? {
          lastIdleCheck := Some(now - idleDur);
        }
        var elapsed := now - lastIdleCheck.value;
        if elapsed > 0 && elapsed < DAY {
          totalIdleMS := totalIdleMS + elapsed / 1_000_000;
        }
        lastIdleCheck := Some(now);
      } else {
        lastIdleCheck := None;
      }
    }

    /** The sampling loop over the ticks delivered so far. */
    method Run(ticks: seq<Tick>)
      requires lastIdleCheck == None
      modifies this
      ensures totalIdleMS == old(totalIdleMS) + TotalMillis(ticks)
      ensures lastIdleCheck == LastCheck(ticks)
    {
      assert ticks[..|ticks|] == ticks;
      for i := 0 to |ticks|
        invariant totalIdleMS == old(totalIdleMS) + TotalMillis(ticks[..i])
        invariant lastIdleCheck == LastCheck(ticks[..i])
      {
        OnTick(ticks[i].now, ticks[i].idle);
        assert ticks[..i + 1][..i] == ticks[..i];
      }
    }
  }

  // ---------------------------------------------------------------------------------------------
  // The user's behaviour
  // ---------------------------------------------------------------------------------------------

  /** `u` is the latest of `inputs` at or before `t`. */
  ghost predicate IsLatest(inputs: set<int>, t: int, u: int) {
    u in inputs && u <= t && forall v :: v in inputs && v <= t ==> v <= u
  }

  /** Ticks and readings come in order, and getIdleDuration measures from the latest of the user's `inputs`. */
  ghost predicate Observes(inputs: set<int>, ticks: seq<Tick>) {
    && (forall i, j :: 0 <= i < j < |ticks| ==> ticks[i].now <= ticks[j].now && ticks[i].read <= ticks[j].read)
    && (forall i :: 0 <= i < |ticks| ==>
          ticks[i].now <= ticks[i].read && IsLatest(inputs, ticks[i].read, LastInput(ticks[i])))
  }

  /** After an idle stretch has ended, the input before the next one comes after its last reading. */
  lemma BackdatingStartsLater(inputs: set<int>, ticks: seq<Tick>, i: nat, j: nat)
    requires Observes(inputs, ticks) && i < j < |ticks|
    requires IsIdle(ticks[i]) && !IsIdle(ticks[j - 1])
    ensures ticks[i].read < LastInput(ticks[j])
  {
    var p, q, r := ticks[i], ticks[j - 1], ticks[j];
    assert p.read <= q.read <= r.read;
    assert LastInput(p) <= LastInput(q);
    assert LastInput(q) <= p.read ==> LastInput(q) <= LastInput(p);
    assert LastInput(q) <= LastInput(r);
  }

  /**
    What is counted twice: spans do not overlap, except that the first span of a stretch can reach
    back into an earlier one by less than its reading is later than that one's.
  */
  lemma SpansOverlapAtMost(inputs: set<int>, ticks: seq<Tick>, i: nat, j: nat)
    requires Observes(inputs, ticks) && i < j < |ticks| && IsIdle(ticks[i]) && IsIdle(ticks[j])
    ensures IsIdle(ticks[j - 1]) ==> SpanAt(ticks, i).hi <= SpanAt(ticks, j).lo
    ensures !IsIdle(ticks[j - 1]) ==> SpanAt(ticks, i).hi < SpanAt(ticks, j).lo + Delay(ticks[j]) - Delay(ticks[i])
  {
    assert ticks[..j][j - 1] == ticks[j - 1];
    if !IsIdle(ticks[j - 1]) {
      BackdatingStartsLater(inputs, ticks, i, j);
    } else {
      assert i == j - 1 || ticks[i].now <= ticks[j - 1].now;
    }
  }

  /** Such an overlap of almost a second: the third tick is read a second late. */
  lemma LateReadingOverlaps() returns (inputs: set<int>, ticks: seq<Tick>)
    ensures Observes(inputs, ticks) && |ticks| == 3 && IsIdle(ticks[0]) && IsIdle(ticks[2])
    ensures SpanAt(ticks, 2).lo == SpanAt(ticks, 0).hi - 999_900_000
  {
    inputs := {4_000_000_000, 10_000_100_000};
    ticks := [Tick(10_000_000_000, 6_000_000_000, 10_000_000_000),
              Tick(15_000_000_000, 4_999_900_000, 15_000_000_000),
              Tick(20_000_000_000, 10_999_900_000, 21_000_000_000)];
    assert ticks[..2][1] == ticks[1];
  }

  // ---------------------------------------------------------------------------------------------
  // What should be counted
  // ---------------------------------------------------------------------------------------------

  function Interval(lo: int, hi: int): (s: set<int>)
    ensures forall x :: x in s <==> lo < x <= hi
    ensures |s| == if lo < hi then hi - lo else 0
    decreases hi - lo
  {
    if lo < hi then Interval(lo, hi - 1) + {hi} else {}
  }

  /** The instants between some idle reading and the last input before it: the idle time detected. */
  function IdleTime(ticks: seq<Tick>): set<int> {
    if ticks == [] then {}
    else
      var t := ticks[|ticks| - 1];
      IdleTime(ticks[..|ticks| - 1]) + if IsIdle(t) then Interval(LastInput(t), t.read) else {}
  }

  lemma {:induction false} IdleTimeMember(ticks: seq<Tick>, x: int)
    ensures x in IdleTime(ticks) <==>
            exists k :: 0 <= k < |ticks| && IsIdle(ticks[k]) && LastInput(ticks[k]) < x <= ticks[k].read
  {
    if ticks != [] {
      var n := |ticks| - 1;
      IdleTimeMember(ticks[..n], x);
      assert forall k :: 0 <= k < n ==> ticks[..n][k] == ticks[k];
    }
  }

  /** From where on the idle time that tick `k` detects is new: the idle reading before it or, if none, the last input. */
  function DetectedFrom(ticks: seq<Tick>, k: nat): int
    requires k < |ticks|
  {
    if k > 0 && IsIdle(ticks[k - 1]) then ticks[k - 1].read else LastInput(ticks[k])
  }

  /** How long after the idle reading before it tick `k` puts the last input; 0 if there was none since. */
  function InputAfter(ticks: seq<Tick>, k: nat): nat
    requires k < |ticks|
  {
    if LastInput(ticks[k]) > DetectedFrom(ticks, k) then LastInput(ticks[k]) - DetectedFrom(ticks, k) else 0
  }

  /** What a tick in a stretch fails to account for: its reading's additional delay, less the time up to a new input. */
  function Correction(ticks: seq<Tick>, k: nat): int
    requires k < |ticks|
  {
    if k > 0 && IsIdle(ticks[k - 1]) && IsIdle(ticks[k])
    then Delay(ticks[k]) - Delay(ticks[k - 1]) - InputAfter(ticks, k)
    else 0
  }

  /** When no input came since the reading before, the stretch up to it is already detected. */
  lemma StretchContinues(inputs: set<int>, ticks: seq<Tick>, k: nat)
    requires Observes(inputs, ticks) && k < |ticks| && IsIdle(ticks[k])
    requires LastInput(ticks[k]) < DetectedFrom(ticks, k)
    ensures Interval(LastInput(ticks[k]), DetectedFrom(ticks, k)) <= IdleTime(ticks[..k])
  {
    var p := ticks[k - 1];
    assert LastInput(p) == LastInput(ticks[k]);
    assert IdleTime(ticks[..k]) == IdleTime(ticks[..k][..k - 1]) + Interval(LastInput(p), p.read);
  }

  /** Idle instants detected before tick `k` lie before what it detects anew. */
  lemma EarlierIdleTime(inputs: set<int>, ticks: seq<Tick>, k: nat, x: int)
    requires Observes(inputs, ticks) && k < |ticks| && IsIdle(ticks[k]) && x in IdleTime(ticks[..k])
    ensures x <= DetectedFrom(ticks, k)
  {
    IdleTimeMember(ticks[..k], x);
    var i :| 0 <= i < k && IsIdle(ticks[..k][i]) && LastInput(ticks[..k][i]) < x <= ticks[..k][i].read;
    if !IsIdle(ticks[k - 1]) {
      BackdatingStartsLater(inputs, ticks, i, k);
    } else {
      assert i == k - 1 || ticks[i].read <= ticks[k - 1].read;
    }
  }

  /** The idle time that tick `k` adds is the part of its idle stretch after the reading before it. */
  lemma {:induction false} NewIdleTime(inputs: set<int>, ticks: seq<Tick>, k: nat)
    requires Observes(inputs, ticks) && k < |ticks| && IsIdle(ticks[k])
    ensures var from := DetectedFrom(ticks, k) + InputAfter(ticks, k);
            |IdleTime(ticks[..k + 1])| == |IdleTime(ticks[..k])| + ticks[k].read - from
  {
    var last, lo, hi := LastInput(ticks[k]), DetectedFrom(ticks, k), ticks[k].read;
    var done := IdleTime(ticks[..k]);
    IdleTimeStep(ticks, k);
    AllEarlier(inputs, ticks, k);
    if last < lo {
      StretchContinues(inputs, ticks, k);
    }
    NewPartIsRead(inputs, ticks, k);
    NewPart(done, last, lo, lo + InputAfter(ticks, k), hi);
  }

  lemma AllEarlier(inputs: set<int>, ticks: seq<Tick>, k: nat)
    requires Observes(inputs, ticks) && k < |ticks| && IsIdle(ticks[k])
    ensures forall x :: x in IdleTime(ticks[..k]) ==> x <= DetectedFrom(ticks, k)
  {
    forall x | x in IdleTime(ticks[..k]) ensures x <= DetectedFrom(ticks, k) {
      EarlierIdleTime(inputs, ticks, k, x);
    }
  }

  lemma IdleTimeStep(ticks: seq<Tick>, k: nat)
    requires k < |ticks| && IsIdle(ticks[k])
    ensures IdleTime(ticks[..k + 1]) == IdleTime(ticks[..k]) + Interval(LastInput(ticks[k]), ticks[k].read)
  {
    assert ticks[..k + 1][..k] == ticks[..k];
  }

  lemma NewPartIsRead(inputs: set<int>, ticks: seq<Tick>, k: nat)
    requires Observes(inputs, ticks) && k < |ticks|
    ensures DetectedFrom(ticks, k) + InputAfter(ticks, k) <= ticks[k].read
  {
    assert k > 0 ==> ticks[k - 1].read <= ticks[k].read;
  }

  /** Of an interval from `last` to `hi`, what lies after `lo` is new to a set that reaches `lo`. */
  lemma NewPart(done: set<int>, last: int, lo: int, from: int, hi: int)
    requires forall x :: x in done ==> x <= lo
    requires last < lo ==> Interval(last, lo) <= done
    requires from == (if last > lo then last else lo) && from <= hi
    ensures |done + Interval(last, hi)| == |done| + hi - from
  {
    forall x | x in Interval(last, hi) && x !in Interval(from, hi) ensures x in done {
      assert x in Interval(last, lo);
    }
    assert done + Interval(last, hi) == done + Interval(from, hi) && done !! Interval(from, hi);
  }

  /** The new idle time of every tick is the length of its span and the correction. */
  lemma TickAdds(inputs: set<int>, ticks: seq<Tick>, k: nat)
    requires Observes(inputs, ticks) && k < |ticks|
    ensures |IdleTime(ticks[..k + 1])| - |IdleTime(ticks[..k])|
            == if IsIdle(ticks[k]) then SpanAt(ticks, k).Length() + Correction(ticks, k) else 0
  {
    assert ticks[..k + 1][..k] == ticks[..k];
    if IsIdle(ticks[k]) {
      NewIdleTime(inputs, ticks, k);
      assert k > 0 ==> ticks[..k][k - 1] == ticks[k - 1];
    }
  }

  /**
    The gap of tick `k` is under a day, and if the tick before was idle too, then an input that came
    since its reading came exactly as long after it as this reading is later than that one; with
    readings on time, none came.  Or the gap is longer and there was no time between the readings.
  */
  predicate Faithful(ticks: seq<Tick>, k: nat)
    requires k < |ticks|
  {
    IsIdle(ticks[k]) ==>
      if SpanAt(ticks, k).Length() < DAY
      then k > 0 && IsIdle(ticks[k - 1]) ==> InputAfter(ticks, k) == Delay(ticks[k]) - Delay(ticks[k - 1])
      else k > 0 && IsIdle(ticks[k - 1]) && ticks[k].read == ticks[k - 1].read
  }

  /** A tick adds exactly the idle time it detects if and only if it is faithful. */
  lemma TickExactIff(inputs: set<int>, ticks: seq<Tick>, k: nat)
    requires Observes(inputs, ticks) && k < |ticks|
    ensures (|IdleTime(ticks[..k + 1])| - |IdleTime(ticks[..k])|
              == if IsIdle(ticks[k]) then SpanAt(ticks, k).Nanos() else 0)
            <==> Faithful(ticks, k)
  {
    TickAdds(inputs, ticks, k);
    assert k > 0 ==> ticks[..k][k - 1] == ticks[k - 1];
  }

  /** The number of ticks that added something. */
  function Additions(ticks: seq<Tick>): nat {
    if ticks == [] then 0
    else Additions(ticks[..|ticks| - 1])
         + if IsIdle(ticks[|ticks| - 1]) && SpanAt(ticks, |ticks| - 1).Counted() then 1 else 0
  }

  function Corrections(ticks: seq<Tick>): int {
    if ticks == [] then 0 else Corrections(ticks[..|ticks| - 1]) + Correction(ticks, |ticks| - 1)
  }

  /** What rounding to milliseconds drops. */
  lemma MillisOfNanos(s: Span)
    ensures s.Millis() * 1_000_000 <= s.Nanos()
    ensures s.Nanos() <= s.Millis() * 1_000_000 + if s.Counted() then 999_999 else 0
    ensures s.Length() % 1_000_000 == 0 ==> s.Nanos() == s.Millis() * 1_000_000
  {
  }

  predicate WholeMillis(ticks: seq<Tick>) {
    forall k :: 0 <= k < |ticks| ==> SpanAt(ticks, k).Length() % 1_000_000 == 0
  }

  /** No idle tick comes a day or more after the time it accounts from. */
  predicate NoLongGap(ticks: seq<Tick>) {
    forall k :: 0 <= k < |ticks| && IsIdle(ticks[k]) ==> SpanAt(ticks, k).Length() < DAY
  }

  lemma PrefixTicks(inputs: set<int>, ticks: seq<Tick>, n: nat)
    requires Observes(inputs, ticks) && n <= |ticks|
    ensures Observes(inputs, ticks[..n])
    ensures NoLongGap(ticks) ==> NoLongGap(ticks[..n])
    ensures WholeMillis(ticks) ==> WholeMillis(ticks[..n])
  {
    forall k | 0 <= k < n ensures SpanAt(ticks[..n], k) == SpanAt(ticks, k) {
      assert ticks[..n][..k] == ticks[..k];
    }
  }

  /**
    For every behaviour of the user and any delays: the total and the corrections make up the idle
    time, up to the fraction of a millisecond each addition drops, and exactly so when all spans are
    whole milliseconds.
  */
  lemma {:induction false} TotalIsIdleTime(inputs: set<int>, ticks: seq<Tick>)
    requires Observes(inputs, ticks) && NoLongGap(ticks)
    ensures var counted := TotalMillis(ticks) * 1_000_000 + Corrections(ticks);
            && counted <= |IdleTime(ticks)| <= counted + Additions(ticks) * 999_999
            && (WholeMillis(ticks) ==> counted == |IdleTime(ticks)|)
  {
    if ticks != [] {
      var n := |ticks| - 1;
      PrefixTicks(inputs, ticks, n);
      TotalIsIdleTime(inputs, ticks[..n]);
      TickAdds(inputs, ticks, n);
      assert ticks[..n + 1] == ticks;
      assert n > 0 ==> ticks[..n][n - 1] == ticks[n - 1];
      MillisOfNanos(SpanAt(ticks, n));
    }
  }

  /** Tick `k` begins an idle stretch: the tick before was not idle, or an input came since its reading. */
  predicate Begins(ticks: seq<Tick>, k: nat)
    requires k < |ticks|
  {
    IsIdle(ticks[k]) && (k == 0 || !IsIdle(ticks[k - 1]) || InputAfter(ticks, k) > 0)
  }

  /** The number of idle stretches. */
  function Stretches(ticks: seq<Tick>): nat {
    if ticks == [] then 0 else Stretches(ticks[..|ticks| - 1]) + if Begins(ticks, |ticks| - 1) then 1 else 0
  }

  /** Ticks at most five seconds apart, none read more than `late` after it was sent. */
  predicate OnTime(ticks: seq<Tick>, late: nat) {
    && (forall k :: 0 < k < |ticks| ==> ticks[k].now - ticks[k - 1].now <= THRESHOLD)
    && (forall k :: 0 <= k < |ticks| ==> Delay(ticks[k]) <= late)
  }

  /** `late` for each idle stretch. */
  function Allowance(ticks: seq<Tick>, late: nat): nat {
    if ticks == [] then 0 else Allowance(ticks[..|ticks| - 1], late) + if Begins(ticks, |ticks| - 1) then late else 0
  }

  lemma {:induction false} AllowanceIsProduct(ticks: seq<Tick>, late: nat)
    ensures Allowance(ticks, late) == Stretches(ticks) * late
  {
    if ticks != [] {
      AllowanceIsProduct(ticks[..|ticks| - 1], late);
    }
  }

  /** What the correction of a tick can be. */
  lemma CorrectionOf(inputs: set<int>, ticks: seq<Tick>, late: nat, k: nat)
    requires Observes(inputs, ticks) && OnTime(ticks, late) && 0 < k < |ticks|
    ensures var x, before, delay := Correction(ticks, k), Delay(ticks[k - 1]), Delay(ticks[k]);
            && 0 <= before <= late && 0 <= delay <= late
            && (!IsIdle(ticks[k]) || !IsIdle(ticks[k - 1]) ==> x == 0 && Begins(ticks, k) == IsIdle(ticks[k]))
            && (IsIdle(ticks[k]) && IsIdle(ticks[k - 1]) ==>
                  if Begins(ticks, k) then 0 <= x <= delay - before else x == delay - before)
  {
  }

  /** Corrections `c` with an allowance `a`, when the last tick was idle and read `delay` late, or was not idle. */
  predicate Balanced(a: int, c: int, late: int, idle: bool, delay: int) {
    0 - a <= c <= a && (idle ==> delay - a <= c <= a - late + delay)
  }

  predicate EndsBalanced(ticks: seq<Tick>, late: nat)
    requires ticks != []
  {
    var t := ticks[|ticks| - 1];
    Balanced(Allowance(ticks, late), Corrections(ticks), late, IsIdle(t), Delay(t))
  }

  lemma BalancedStep(inputs: set<int>, ticks: seq<Tick>, late: nat)
    requires Observes(inputs, ticks) && OnTime(ticks, late) && |ticks| > 1
    requires EndsBalanced(ticks[..|ticks| - 1], late)
    ensures EndsBalanced(ticks, late)
  {
    var n := |ticks| - 1;
    assert ticks[..n][n - 1] == ticks[n - 1];
    CorrectionOf(inputs, ticks, late, n);
  }

  /** Within a stretch the delays cancel, all but the first and the last. */
  lemma {:induction false} CorrectionsWithin(inputs: set<int>, ticks: seq<Tick>, late: nat)
    requires Observes(inputs, ticks) && OnTime(ticks, late) && ticks != []
    ensures EndsBalanced(ticks, late)
  {
    if |ticks| > 1 {
      var n := |ticks| - 1;
      PrefixTicks(inputs, ticks, n);
      CorrectionsWithin(inputs, ticks[..n], late);
      BalancedStep(inputs, ticks, late);
    } else {
      assert ticks[..0] == [];
    }
  }

  /**
    The design's promise: with ticks at most five seconds apart and no gap of a day, whatever the
    user does, the sampler counts the time between each idle reading and the input before it.  It
    is off by at most the greatest delay of a reading for each idle stretch, and may drop a fraction
    of a millisecond at each addition; with readings on time and spans of whole milliseconds it is
    exact.
  */
  lemma FiveSecondSampling(inputs: set<int>, ticks: seq<Tick>, late: nat)
    requires Observes(inputs, ticks) && NoLongGap(ticks) && OnTime(ticks, late)
    ensures var total, off := TotalMillis(ticks) * 1_000_000, Stretches(ticks) * late;
            && total - off <= |IdleTime(ticks)| <= total + off + Additions(ticks) * 999_999
            && (WholeMillis(ticks) ==> |IdleTime(ticks)| <= total + off)
  {
    if ticks != [] {
      CorrectionsWithin(inputs, ticks, late);
    }
    AllowanceIsProduct(ticks, late);
    TotalIsIdleTime(inputs, ticks);
  }
}
