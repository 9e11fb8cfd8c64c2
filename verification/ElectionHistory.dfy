/**
  The election history: an in-memory ring of at most 5000 events behind a deduplicating filter,
  an append-only file, and the load that rebuilds the memory at startup.  Events reach the file
  in the order they were logged.
*/
module ElectionHistory {
  import opened Common

  const HISTORY_MAX := 5000
  const DEDUP_INTERVAL := 60_000_000_000

  datatype Event = Event(
    timestamp: int,
    action: string,
    method_: string,
    agentID: string,
    hostname: string,
    leaderID: string,
    leaderAgeMS: int,
    result: string,
    error: string)

  /**
    A line of election_history.jsonl: an event that parses, a blank line, one that does not parse,
    or one over the scanner's buffer of 1 MB.
  */
  datatype Line = Record(ev: Event) | Blank | Corrupt | TooLong

  /** A call of appendElectionEvent and the time at which it takes the lock. */
  datatype Call = Call(ev: Event, now: int)

  function Key(method_: string, result: string, leaderID: string, error: string): string {
    method_ + "|" + result + "|" + leaderID + "|" + error
  }

  /** The texts the key is made of, joined, are the same. */
  predicate SameKey(a: Event, b: Event) {
    a.method_ + "|" + a.result + "|" + a.leaderID + "|" + a.error
      == b.method_ + "|" + b.result + "|" + b.leaderID + "|" + b.error
  }

  function EventKey(ev: Event): string { Key(ev.method_, ev.result, ev.leaderID, ev.error) }

  predicate IsStateChange(ev: Event) {
    ev.action == "claimed" || ev.action == "stale-takeover" || ev.action == "error"
  }

  // ---------------------------------------------------------------------------------------------
  // What is logged
  // ---------------------------------------------------------------------------------------------

  function Last(log: seq<Event>): Event
    requires log != []
  {
    log[|log| - 1]
  }

  /** Given everything logged so far, the call is skipped. */
  predicate Skips(log: seq<Event>, c: Call) {
    && !IsStateChange(c.ev)
    && log != []
    && EventKey(c.ev) == EventKey(Last(log))
    && c.now - Last(log).timestamp < DEDUP_INTERVAL
  }

  /** Everything logged by these calls: the stream filtered against the last logged event. */
  function Logged(calls: seq<Call>): seq<Event> {
    if calls == [] then []
    else
      var log := Logged(calls[..|calls| - 1]);
      var c := calls[|calls| - 1];
      if Skips(log, c) then log else log + [c.ev]
  }

  function Newest(log: seq<Event>): seq<Event> {
    if |log| > HISTORY_MAX then log[|log| - HISTORY_MAX..] else log
  }

  /** The lines the scanner delivers: it stops at the first that does not fit its buffer. */
  function Readable(lines: seq<Line>): seq<Line> {
    if lines == [] || lines[0].TooLong? then [] else [lines[0]] + Readable(lines[1..])
  }

  lemma {:induction false} ReadablePrefix(lines: seq<Line>, i: nat)
    requires i <= |lines| && TooLong !in lines[..i] && (i < |lines| ==> lines[i].TooLong?)
    ensures Readable(lines) == lines[..i]
  {
    if i > 0 {
      assert lines[0] in lines[..i];
      assert lines[1..][..i - 1] == lines[..i][1..];
      ReadablePrefix(lines[1..], i - 1);
    }
  }

  /** `memory` is the end of `log`: all of it, or the last 5000. */
  predicate LastAtMost5000(memory: seq<Event>, log: seq<Event>) {
    |memory| == (if |log| < 5000 then |log| else 5000) && memory == log[|log| - |memory|..]
  }

  /** What Newest keeps. */
  lemma NewestIs(log: seq<Event>)
    ensures LastAtMost5000(Newest(log), log)
  {
  }

  lemma SkipsIff(log: seq<Event>, c: Call)
    ensures !Skips(log, c) <==>
              c.ev.action in {"claimed", "stale-takeover", "error"} || log == []
              || !SameKey(c.ev, Last(log)) || c.now - Last(log).timestamp >= 60_000_000_000
  {
  }

  /** The events on the lines that parse. */
  function Records(lines: seq<Line>): seq<Event> {
    if lines == [] then []
    else
      var line := lines[|lines| - 1];
      Records(lines[..|lines| - 1]) + if line.Record? then [line.ev] else []
  }

  lemma RecordsEnd(lines: seq<Line>, line: Line)
    ensures Records(lines + [line]) == Records(lines) + if line.Record? then [line.ev] else []
  {
    assert (lines + [line])[..|lines|] == lines;
  }

  /** How many of the first `i` lines hold an event that parses. */
  function EventsBefore(lines: seq<Line>, i: nat): nat
    requires i <= |lines|
  {
    |set j | 0 <= j < i && lines[j].Record?|
  }

  lemma OneMoreLine(lines: seq<Line>, i: nat)
    requires i < |lines|
    ensures EventsBefore(lines, i + 1) == EventsBefore(lines, i) + if lines[i].Record? then 1 else 0
  {
    var before := set j | 0 <= j < i && lines[j].Record?;
    var after := set j | 0 <= j < i + 1 && lines[j].Record?;
    assert after == if lines[i].Record? then before + {i} else before;
  }

  lemma EventsBeforePrefix(lines: seq<Line>, n: nat, i: nat)
    requires i <= n <= |lines|
    ensures EventsBefore(lines[..n], i) == EventsBefore(lines, i)
  {
    assert (set j | 0 <= j < i && lines[..n][j].Record?) == (set j | 0 <= j < i && lines[j].Record?);
  }

  /** The `i`-th line's event, if it parses, stands where the events before it leave off. */
  ghost predicate ReadInOrder(lines: seq<Line>, events: seq<Event>, i: nat)
    requires i < |lines|
  {
    lines[i].Record? ==> EventsBefore(lines, i) < |events| && events[EventsBefore(lines, i)] == lines[i].ev
  }

  /** Every event that parses is read, in order, whatever stands on the lines around it; and nothing else is. */
  lemma {:induction false} EachRecordRead(lines: seq<Line>)
    ensures |Records(lines)| == EventsBefore(lines, |lines|)
    ensures forall i :: 0 <= i < |lines| ==> ReadInOrder(lines, Records(lines), i)
  {
    if lines != [] {
      var n := |lines| - 1;
      EachRecordRead(lines[..n]);
      OneMoreLine(lines, n);
      EventsBeforePrefix(lines, n, n);
      forall i | 0 <= i < n ensures ReadInOrder(lines, Records(lines), i) {
        assert ReadInOrder(lines[..n], Records(lines[..n]), i);
        ReadLater(lines, n, i);
      }
    }
  }

  lemma ReadLater(lines: seq<Line>, n: nat, i: nat)
    requires i < n == |lines| - 1 && ReadInOrder(lines[..n], Records(lines[..n]), i)
    ensures ReadInOrder(lines, Records(lines), i)
  {
    EventsBeforePrefix(lines, n, i);
    assert Records(lines[..n]) <= Records(lines);
  }

  /** The scanner reads up to the first line that is too long, and to the end if there is none. */
  lemma {:induction false} ReadableIs(lines: seq<Line>)
    ensures Readable(lines) <= lines && TooLong !in Readable(lines)
    ensures |Readable(lines)| < |lines| ==> lines[|Readable(lines)|] == TooLong
  {
    if lines != [] && !lines[0].TooLong? {
      ReadableIs(lines[1..]);
      assert lines == [lines[0]] + lines[1..];
    }
  }

  /** Keeping the newest of a log that was cut to its newest part loses nothing. */
  lemma NewestAppend(log: seq<Event>, more: seq<Event>)
    ensures Newest(Newest(log) + more) == Newest(log + more)
  {
  }

  /** Two logs with the same newest part are both empty or end in the same event. */
  lemma NewestEnd(log: seq<Event>, other: seq<Event>)
    requires Newest(log) == Newest(other)
    ensures log == [] <==> other == []
    ensures log != [] ==> Last(log) == Last(other) == Last(Newest(log))
  {
    assert log != [] ==> Last(log) == Last(Newest(log));
    assert other != [] ==> Last(other) == Last(Newest(other));
  }

  /** Memory and file stay in step with the log when an event is added to all three. */
  lemma AppendKeepsStep(log: seq<Event>, file: seq<Line>, ev: Event)
    requires Newest(Records(file)) == Newest(log)
    ensures Newest(Newest(log) + [ev]) == Newest(log + [ev])
    ensures Newest(Records(file + [Record(ev)])) == Newest(log + [ev])
  {
    RecordsEnd(file, Record(ev));
    NewestAppend(log, [ev]);
    NewestAppend(Records(file), [ev]);
  }

  /** What a load into an empty memory finds, when the file is in step with the log. */
  lemma LoadedIsNewest(file: seq<Line>, log: seq<Event>)
    requires TooLong !in file && Newest(Records(file)) == Newest(log)
    ensures Readable(file) == file
    ensures var rs := Records(file);
            && Newest([] + rs) == Newest(log) && Newest(Newest(log)) == Newest(log)
            && (rs == [] <==> log == [])
            && (log != [] ==> Last(rs) == Last(log))
  {
    ReadsAll(file);
    SameNewest(Records(file), log);
  }

  lemma ReadsAll(file: seq<Line>)
    requires TooLong !in file
    ensures Readable(file) == file
  {
    assert file[..|file|] == file;
    ReadablePrefix(file, |file|);
  }

  lemma SameNewest(rs: seq<Event>, log: seq<Event>)
    requires Newest(rs) == Newest(log)
    ensures Newest([] + rs) == Newest(log) && Newest(Newest(log)) == Newest(log)
    ensures rs == [] <==> log == []
    ensures log != [] ==> Last(rs) == Last(log)
  {
    assert [] + rs == rs;
    NewestEnd(rs, log);
  }

  /** The scanner loop: the events on the lines that it reads and that parse. */
  method ScanLines(lines: seq<Line>) returns (events: seq<Event>)
    ensures events == Records(Readable(lines))
  {
    events := [];
    var i := 0;
    while i < |lines| && !lines[i].TooLong?
      invariant 0 <= i <= |lines| && TooLong !in lines[..i]
      invariant events == Records(lines[..i])
    {
      assert lines[..i + 1][..i] == lines[..i];
      if lines[i].Record? {
        events := events + [lines[i].ev];
      }
      i := i + 1;
    }
    ReadablePrefix(lines, i);
  }

  /** The loop that writes the truncated file. */
  method WriteLines(all: seq<Event>) returns (lines: seq<Line>)
    ensures Records(lines) == all && TooLong !in lines
  {
    lines := [];
    assert all[..|all|] == all;
    for i := 0 to |all|
      invariant Records(lines) == all[..i] && TooLong !in lines
    {
      RecordsEnd(lines, Record(all[i]));
      lines := lines + [Record(all[i])];
    }
  }

  class History {
    var electionHistory: seq<Event>
    var lastElectionKey: string
    var lastElectionLogTime: Option<int>      // None: the zero time
    var file: seq<Line>
    ghost var log: seq<Event>                 // every event ever logged

    ghost predicate DedupOf(log: seq<Event>)
      reads this
    {
      if log == [] then lastElectionKey == "" && lastElectionLogTime == None
      else
        var last := Last(log);
        lastElectionKey == EventKey(last) && lastElectionLogTime == Some(last.timestamp)
    }

    ghost predicate Valid()
      reads this
    {
      && electionHistory == Newest(log)
      && DedupOf(log)
      && Newest(Records(file)) == Newest(log)
      && TooLong !in file
    }

    constructor ()
      ensures Valid() && log == [] && file == []
    {
      electionHistory, lastElectionKey, lastElectionLogTime := [], "", None;
      file, log := [], [];
    }

    method AppendElectionEvent(c: Call) returns (kept: bool)
      requires Valid()
      modifies this
      ensures Valid()
      ensures kept == !Skips(old(log), c)
      ensures kept <==> c.ev.action in {"claimed", "stale-takeover", "error"} || old(log) == []
                        || !SameKey(c.ev, Last(old(log))) || c.now - Last(old(log)).timestamp >= 60_000_000_000
      ensures log == if kept then old(log) + [c.ev] else old(log)
      ensures file == if kept then old(file) + [Record(c.ev)] else old(file)
    {
      SkipsIff(log, c);
      var ev := c.ev;
      var key := ev.method_ + "|" + ev.result + "|" + ev.leaderID + "|" + ev.error;
      var isStateChange := ev.action == "claimed" || ev.action == "stale-takeover" || ev.action == "error";
      if !isStateChange && key == lastElectionKey
         && lastElectionLogTime.Some? && c.now - lastElectionLogTime.value < DEDUP_INTERVAL {
        return false;
      }
      Add(ev);
      lastElectionKey := key;
      lastElectionLogTime := Some(ev.timestamp);
      return true;
    }

    /** The part of appendElectionEvent that stores the event in memory and in the file. */
    method Add(ev: Event)
      requires electionHistory == Newest(log) && Newest(Records(file)) == Newest(log)
      modifies this`electionHistory, this`file, this`log
      ensures electionHistory == Newest(log) && Newest(Records(file)) == Newest(log)
      ensures log == old(log) + [ev] && file == old(file) + [Record(ev)]
    {
      AppendKeepsStep(log, file, ev);
      electionHistory := electionHistory + [ev];
      if |electionHistory| > HISTORY_MAX {
        electionHistory := electionHistory[|electionHistory| - HISTORY_MAX..];
      }
      file := file + [Record(ev)];
      log := log + [ev];
    }

    /**
      Reads the file into memory.  If the file is over 10 MB (`large`) it is replaced by the events
      in memory, provided the rename succeeds; that leaves at most 5000, not the 50000 of its comment.
    */
    method LoadElectionHistoryFromDisk(large: bool, renamed: bool)
      requires |electionHistory| <= HISTORY_MAX
      modifies this
      ensures var rs := Records(Readable(old(file)));
              && electionHistory == (if rs == [] then old(electionHistory) else Newest(old(electionHistory) + rs))
              && (rs != [] ==> DedupOf(rs))
              && (rs == [] ==> lastElectionKey == old(lastElectionKey)
                               && lastElectionLogTime == old(lastElectionLogTime))
      ensures log == old(log)
      ensures !(large && renamed) ==> file == old(file)
      ensures large && renamed ==> Records(file) == electionHistory && TooLong !in file
      ensures large && renamed ==> |Records(file)| <= HISTORY_MAX
    {
      var scanned := ScanLines(file);
      electionHistory := electionHistory + scanned;
      var loaded := |scanned|;
      if loaded > 0 {
        NewestEnd(electionHistory, electionHistory);
        if |electionHistory| > HISTORY_MAX {
          electionHistory := electionHistory[|electionHistory| - HISTORY_MAX..];
        }
        var last := Last(electionHistory);
        lastElectionKey := EventKey(last);
        lastElectionLogTime := Some(last.timestamp);
      }
      if large && renamed {
        // The cut to the last 50000 events never applies: memory holds at most 5000.
        assert |electionHistory| <= HISTORY_MAX;
        file := WriteLines(electionHistory);
      }
    }

    /**
      The process ends and starts again.  The memory comes back exactly as it was, whether or not
      the load truncated the file, so every later decision is the one that would have been made.
    */
    method Restart(large: bool, renamed: bool)
      requires Valid()
      modifies this
      ensures Valid() && log == old(log)
      ensures electionHistory == old(electionHistory)
      ensures lastElectionKey == old(lastElectionKey) && lastElectionLogTime == old(lastElectionLogTime)
    {
      electionHistory, lastElectionKey, lastElectionLogTime := [], "", None;
      LoadedIsNewest(file, log);
      LoadElectionHistoryFromDisk(large, renamed);
    }

    /**
      Any stream of calls, with restarts wherever `restart` says, each with its own outcome of the
      truncation: what is logged, and what memory holds, is what the filter lets through of the
      whole stream, as if there had been no restart.
    */
    method AppendAll(calls: seq<Call>, restart: nat -> Option<(bool, bool)>)
      requires Valid() && log == []
      modifies this
      ensures Valid() && log == Logged(calls) && electionHistory == Newest(Logged(calls))
      ensures LastAtMost5000(electionHistory, log)
    {
      assert calls[..|calls|] == calls;
      for i := 0 to |calls|
        invariant Valid() && log == Logged(calls[..i])
      {
        if restart(i).Some? {
          Restart(restart(i).value.0, restart(i).value.1);
        }
        assert calls[..i + 1][..i] == calls[..i];
        var _ := AppendElectionEvent(calls[i]);
      }
      NewestIs(log);
    }
  }

  // ---------------------------------------------------------------------------------------------
  // What the filter lets through
  // ---------------------------------------------------------------------------------------------

  /** Claims, takeovers and errors are never dropped. */
  lemma StateChangesLogged(calls: seq<Call>, i: nat)
    requires i < |calls| && calls[i].ev.action in {"claimed", "stale-takeover", "error"}
    ensures Logged(calls[..i + 1]) == Logged(calls[..i]) + [calls[i].ev]
  {
    assert calls[..i + 1][..i] == calls[..i];
  }

  /** What is logged is never taken back: the log after fewer calls is a prefix of the log after more. */
  lemma {:induction false} LoggedGrows(calls: seq<Call>, i: nat)
    requires i <= |calls|
    ensures Logged(calls[..i]) <= Logged(calls)
  {
    if i == |calls| {
      assert calls[..i] == calls;
    } else {
      var before := calls[..|calls| - 1];
      assert before[..i] == calls[..i];
      LoggedGrows(before, i);
    }
  }

  predicate NoBar(s: string) { '|' !in s }

  lemma BarAt(a: string, x: string)
    ensures (a + "|" + x)[|a|] == '|' && (a + "|" + x)[|a| + 1..] == x
    ensures forall j :: 0 <= j < |a| ==> (a + "|" + x)[j] == a[j]
  {
  }

  /** The text before the first bar is determined by the whole. */
  lemma SplitAtBar(a: string, b: string, x: string, y: string)
    requires NoBar(a) && NoBar(b) && a + "|" + x == b + "|" + y
    ensures a == b && x == y
  {
    BarAt(a, x);
    BarAt(b, y);
  }

  /** The key determines method and result, which hold no bar, and the rest; a leader without a bar is determined too. */
  lemma KeyInjective(m: string, r: string, l: string, e: string, m': string, r': string, l': string, e': string)
    requires NoBar(m) && NoBar(r) && NoBar(m') && NoBar(r')
    requires Key(m, r, l, e) == Key(m', r', l', e')
    ensures m == m' && r == r' && l + "|" + e == l' + "|" + e'
    ensures NoBar(l) && NoBar(l') ==> l == l' && e == e'
  {
    assert Key(m, r, l, e) == m + "|" + (r + "|" + (l + "|" + e));
    assert Key(m', r', l', e') == m' + "|" + (r' + "|" + (l' + "|" + e'));
    SplitAtBar(m, m', r + "|" + (l + "|" + e), r' + "|" + (l' + "|" + e'));
    SplitAtBar(r, r', l + "|" + e, l' + "|" + e');
    if NoBar(l) && NoBar(l') {
      SplitAtBar(l, l', e, e');
    }
  }

  /**
    What setElectionStatus records: the action is the result, the method and the result are fixed
    words without a bar, and only the result "error" comes with an error text.  The leader's name
    and the error text are arbitrary.
  */
  predicate Recorded(ev: Event) {
    && ev.action == ev.result
    && NoBar(ev.method_) && NoBar(ev.result)
    && (ev.error != "" ==> ev.result == "error")
  }

  ghost predicate AllRecorded(calls: seq<Call>) {
    forall k :: 0 <= k < |calls| ==> Recorded(calls[k].ev)
  }

  /** The two events report the same state of the election. */
  predicate SameState(a: Event, b: Event) {
    a.method_ == b.method_ && a.result == b.result && a.leaderID == b.leaderID && a.error == b.error
  }

  /** Of recorded events, the key of one that can be skipped tells its state, bars in the leader's name or not. */
  lemma RecordedKeyIff(ev: Event, last: Event)
    requires Recorded(ev) && Recorded(last) && !IsStateChange(ev)
    ensures EventKey(ev) == EventKey(last) <==> SameState(ev, last)
  {
    if EventKey(ev) == EventKey(last) {
      KeyInjective(ev.method_, ev.result, ev.leaderID, ev.error,
                   last.method_, last.result, last.leaderID, last.error);
      assert (ev.leaderID + "|" + "")[..|ev.leaderID|] == ev.leaderID;
      assert (last.leaderID + "|" + "")[..|last.leaderID|] == last.leaderID;
    }
  }

  lemma LastIsRecorded(calls: seq<Call>)
    requires AllRecorded(calls) && Logged(calls) != []
    ensures Recorded(Last(Logged(calls)))
  {
    LoggedFrom(calls, |Logged(calls)| - 1);
  }

  /** A recorded event is dropped exactly if it repeats the state of the last logged one within a minute. */
  lemma {:induction false} DroppedIff(calls: seq<Call>)
    requires AllRecorded(calls) && calls != []
    ensures var c := calls[|calls| - 1];
            var log := Logged(calls[..|calls| - 1]);
            Logged(calls) == log <==>
              c.ev.action !in {"claimed", "stale-takeover", "error"} && log != [] && SameState(c.ev, Last(log))
              && c.now - Last(log).timestamp < 60_000_000_000
  {
    var before, c := calls[..|calls| - 1], calls[|calls| - 1];
    var log := Logged(before);
    if log != [] && !IsStateChange(c.ev) {
      LastIsRecorded(before);
      RecordedKeyIff(c.ev, Last(log));
    }
    assert |log + [c.ev]| == |log| + 1;
  }

  /** After any recorded events, the last logged one tells the state of the latest: the log is never behind. */
  lemma {:induction false} LogIsCurrent(calls: seq<Call>)
    requires AllRecorded(calls) && calls != []
    ensures Logged(calls) != []
    ensures SameState(Last(Logged(calls)), calls[|calls| - 1].ev)
  {
    var before, c := calls[..|calls| - 1], calls[|calls| - 1];
    if Skips(Logged(before), c) {
      LastIsRecorded(before);
      RecordedKeyIff(c.ev, Last(Logged(before)));
    }
  }

  /** An event that differs from the one before it in method, result, leader or error is never dropped. */
  lemma ChangesLogged(calls: seq<Call>, i: nat)
    requires AllRecorded(calls) && 0 < i < |calls| && !SameState(calls[i].ev, calls[i - 1].ev)
    ensures Logged(calls[..i + 1]) == Logged(calls[..i]) + [calls[i].ev]
  {
    assert calls[..i + 1][..i] == calls[..i];
    LogIsCurrent(calls[..i]);
    DroppedIff(calls[..i + 1]);
  }

  /** Every logged event is the event of some call. */
  lemma {:induction false} LoggedFrom(calls: seq<Call>, k: nat)
    requires k < |Logged(calls)|
    ensures exists i :: 0 <= i < |calls| && calls[i].ev == Logged(calls)[k]
  {
    var n := |calls| - 1;
    var before := calls[..n];
    if k < |Logged(before)| {
      LoggedFrom(before, k);
      var i :| 0 <= i < |before| && before[i].ev == Logged(before)[k];
      assert calls[i].ev == Logged(calls)[k];
    } else {
      assert calls[n].ev == Logged(calls)[k];
    }
  }

  // ---------------------------------------------------------------------------------------------
  // The rate of unchanged entries
  // ---------------------------------------------------------------------------------------------

  /** Entry `k` repeats the key of the one before it and is not a state change. */
  predicate Repeats(log: seq<Event>, k: int)
    requires 0 < k < |log|
  {
    EventKey(log[k]) == EventKey(log[k - 1]) && !IsStateChange(log[k])
  }

  /** Each event is stamped at most `lag` before its call takes the lock. */
  ghost predicate StampedWithin(calls: seq<Call>, lag: nat) {
    forall i :: 0 <= i < |calls| ==> calls[i].now - calls[i].ev.timestamp <= lag
  }

  lemma {:induction false} RepeatsAreSpaced(calls: seq<Call>, lag: nat, k: int)
    requires StampedWithin(calls, lag) && 0 < k < |Logged(calls)| && Repeats(Logged(calls), k)
    ensures Logged(calls)[k].timestamp - Logged(calls)[k - 1].timestamp >= DEDUP_INTERVAL - lag
  {
    var n := |calls| - 1;
    if k < |Logged(calls[..n])| {
      RepeatsAreSpaced(calls[..n], lag, k);
    }
  }

  /** A stretch of unchanged entries `j..k` takes at least a minute, less the stamping lag, for each. */
  lemma {:induction false} UnchangedAtMostOncePerMinute(calls: seq<Call>, lag: nat, j: int, k: int)
    requires StampedWithin(calls, lag) && 0 <= j <= k < |Logged(calls)|
    requires forall i :: j < i <= k ==> Repeats(Logged(calls), i)
    ensures Logged(calls)[k].timestamp - Logged(calls)[j].timestamp >= (k - j) * (60_000_000_000 - lag)
    decreases k - j
  {
    if j < k {
      UnchangedAtMostOncePerMinute(calls, lag, j, k - 1);
      RepeatsAreSpaced(calls, lag, k);
      assert (k - j) * (DEDUP_INTERVAL - lag) == (k - 1 - j) * (DEDUP_INTERVAL - lag) + (DEDUP_INTERVAL - lag);
    }
  }
}
