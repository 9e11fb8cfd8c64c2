/**
  The audit log: entries in memory and, one JSON object per line, in audit.jsonl.  JSON itself is
  a parameter: a printer whose lines are not empty and hold no newline, and a parser that inverts it.
*/
module AuditLog {
  import opened Common

  datatype Entry = Entry(timestamp: int, action: string, agentID: string, user: string, detail: string)

  datatype Json = Json(print_: Entry -> string, parse: string -> Option<Entry>) {
    ghost predicate Inverse() {
      forall e :: parse(print_(e)) == Some(e) && print_(e) != "" && '\n' !in print_(e)
    }
  }

  /** What splitLines computes: the text between newlines, and a last unterminated piece if there is one. */
  function Lines(s: string, start: nat, i: nat): seq<string>
    requires start <= i <= |s|
    decreases |s| - i
  {
    if i == |s| then if start < |s| then [s[start..]] else []
    else if s[i] == '\n' then [s[start..i]] + Lines(s, i + 1, i + 1)
    else Lines(s, start, i + 1)
  }

  method SplitLines(s: string) returns (result: seq<string>)
    ensures result == Lines(s, 0, 0)
  {
    result := [];
    var start := 0;
    for i := 0 to |s|
      invariant 0 <= start <= i
      invariant result + Lines(s, start, i) == Lines(s, 0, 0)
    {
      if s[i] == '\n' {
        result := result + [s[start..i]];
        start := i + 1;
      }
    }
    if start < |s| {
      result := result + [s[start..]];
    }
  }

  /** Every line followed by a newline. */
  function Terminated(lines: seq<string>): string {
    if lines == [] then "" else Terminated(lines[..|lines| - 1]) + lines[|lines| - 1] + "\n"
  }

  ghost predicate OneLine(s: string) { '\n' !in s }

  lemma {:induction false} LinesSkip(s: string, start: nat, i: nat, j: nat)
    requires start <= i <= j <= |s| && '\n' !in s[i..j]
    ensures Lines(s, start, i) == Lines(s, start, j)
    decreases j - i
  {
    if i < j {
      assert s[i] == s[i..j][0];
      assert s[i + 1..j] == s[i..j][1..];
      LinesSkip(s, start, i + 1, j);
    }
  }

  /** Splitting after a line boundary does not look back. */
  lemma {:induction false} LinesShift(p: string, s: string, start: nat, i: nat)
    requires start <= i <= |s|
    ensures Lines(p + s, |p| + start, |p| + i) == Lines(s, start, i)
    decreases |s| - i
  {
    if i < |s| {
      assert (p + s)[|p| + i] == s[i];
      assert (p + s)[|p| + start..|p| + i] == s[start..i];
      LinesShift(p, s, start, i + 1);
      if s[i] == '\n' {
        LinesShift(p, s, i + 1, i + 1);
      }
    } else {
      assert (p + s)[|p| + start..] == s[start..];
    }
  }

  /** The lines of a newline-terminated line followed by anything. */
  lemma LinesOfFirst(line: string, rest: string)
    requires OneLine(line)
    ensures Lines(line + "\n" + rest, 0, 0) == [line] + Lines(rest, 0, 0)
  {
    var p := line + "\n";
    var s := p + rest;
    assert s[0..|line|] == line;
    LinesSkip(s, 0, 0, |line|);
    assert s[|line|] == '\n' && s[0..|line|] == line;
    LinesShift(p, rest, 0, 0);
  }

  /** splitLines inverts newline-terminated joining. */
  lemma {:induction false} SplitInvertsJoin(lines: seq<string>, more: string)
    requires forall l :: l in lines ==> OneLine(l)
    ensures Lines(Terminated(lines) + more, 0, 0) == lines + Lines(more, 0, 0)
  {
    if lines == [] {
      assert Terminated(lines) + more == more;
    } else {
      var n := |lines| - 1;
      var last := lines[n];
      assert Terminated(lines) + more == Terminated(lines[..n]) + (last + "\n" + more);
      SplitInvertsJoin(lines[..n], last + "\n" + more);
      LinesOfFirst(last, more);
      assert lines == lines[..n] + [last];
    }
  }

  lemma {:induction false} TerminatedFirst(line: string, rest: seq<string>)
    ensures Terminated([line] + rest) == line + "\n" + Terminated(rest)
  {
    if rest == [] {
      assert Terminated([line]) == "" + line + "\n" by { assert [line][..0] == []; }
      assert [line] + rest == [line];
    } else {
      var n := |rest| - 1;
      TerminatedFirst(line, rest[..n]);
      assert ([line] + rest)[..n + 1] == [line] + rest[..n];
    }
  }

  /** What joining adds to `s`: the newline a last unterminated piece lacks. */
  function Missing(s: string, start: nat): string
    requires start <= |s|
  {
    if start < |s| && s[|s| - 1] != '\n' then "\n" else ""
  }

  lemma CutAtNewline(s: string, start: nat, i: nat)
    requires start <= i < |s| && s[i] == '\n'
    ensures s[start..i] + "\n" + (s[i + 1..] + Missing(s, i + 1)) == s[start..] + Missing(s, start)
  {
    assert s[start..] == s[start..i] + "\n" + s[i + 1..];
  }

  lemma LastPiece(s: string, start: nat)
    requires start < |s| && '\n' !in s[start..]
    ensures Terminated([s[start..]]) == s[start..] + Missing(s, start)
  {
    assert s[start..][|s| - 1 - start] == s[|s| - 1];
    TerminatedFirst(s[start..], []);
    assert [s[start..]] + [] == [s[start..]];
  }

  /** Joining inverts splitting, up to that newline. */
  lemma {:induction false} JoinInvertsSplit(s: string, start: nat, i: nat)
    requires start <= i <= |s| && '\n' !in s[start..i]
    ensures Terminated(Lines(s, start, i)) == s[start..] + Missing(s, start)
    decreases |s| - i
  {
    if i == |s| {
      if start < |s| {
        assert s[start..i] == s[start..];
        LastPiece(s, start);
      }
    } else if s[i] == '\n' {
      JoinInvertsSplit(s, i + 1, i + 1);
      TerminatedFirst(s[start..i], Lines(s, i + 1, i + 1));
      CutAtNewline(s, start, i);
    } else {
      assert s[start..i + 1] == s[start..i] + [s[i]];
      JoinInvertsSplit(s, start, i + 1);
    }
  }

  /** No piece holds a newline. */
  lemma {:induction false} PiecesAreLines(s: string, start: nat, i: nat, k: nat)
    requires start <= i <= |s| && '\n' !in s[start..i] && k < |Lines(s, start, i)|
    ensures OneLine(Lines(s, start, i)[k])
    decreases |s| - i
  {
    if i < |s| && s[i] == '\n' {
      if k > 0 {
        PiecesAreLines(s, i + 1, i + 1, k - 1);
      }
    } else if i < |s| {
      assert s[start..i + 1] == s[start..i] + [s[i]];
      PiecesAreLines(s, start, i + 1, k);
    } else {
      assert s[start..i] == s[start..];
    }
  }

  /** The entries of the lines that parse. */
  function Parsed(json: Json, lines: seq<string>): seq<Entry> {
    if lines == [] then []
    else
      var l := lines[|lines| - 1];
      var e := if l == "" then None else json.parse(l);
      Parsed(json, lines[..|lines| - 1]) + if e.Some? then [e.value] else []
  }

  /** How many of the first `i` lines parse; empty ones do not. */
  function EntriesBefore(json: Json, lines: seq<string>, i: nat): nat
    requires i <= |lines|
  {
    |set j | 0 <= j < i && lines[j] != "" && json.parse(lines[j]).Some?|
  }

  lemma OneMoreLine(json: Json, lines: seq<string>, i: nat)
    requires i < |lines|
    ensures EntriesBefore(json, lines, i + 1) ==
              EntriesBefore(json, lines, i) + if lines[i] != "" && json.parse(lines[i]).Some? then 1 else 0
  {
    var before := set j | 0 <= j < i && lines[j] != "" && json.parse(lines[j]).Some?;
    var after := set j | 0 <= j < i + 1 && lines[j] != "" && json.parse(lines[j]).Some?;
    assert after == if lines[i] != "" && json.parse(lines[i]).Some? then before + {i} else before;
  }

  lemma EntriesBeforePrefix(json: Json, lines: seq<string>, n: nat, i: nat)
    requires i <= n <= |lines|
    ensures EntriesBefore(json, lines[..n], i) == EntriesBefore(json, lines, i)
  {
    assert (set j | 0 <= j < i && lines[..n][j] != "" && json.parse(lines[..n][j]).Some?)
        == (set j | 0 <= j < i && lines[j] != "" && json.parse(lines[j]).Some?);
  }

  /** The `i`-th line's entry, if it parses, stands where the entries before it leave off. */
  ghost predicate ReadInOrder(json: Json, lines: seq<string>, entries: seq<Entry>, i: nat)
    requires i < |lines|
  {
    lines[i] != "" && json.parse(lines[i]).Some? ==>
      && EntriesBefore(json, lines, i) < |entries|
      && entries[EntriesBefore(json, lines, i)] == json.parse(lines[i]).value
  }

  /** Each line that parses is read, in order, whatever its neighbours are; and nothing else is. */
  lemma {:induction false} EachEntryRead(json: Json, lines: seq<string>)
    ensures |Parsed(json, lines)| == EntriesBefore(json, lines, |lines|)
    ensures forall i :: 0 <= i < |lines| ==> ReadInOrder(json, lines, Parsed(json, lines), i)
  {
    if lines != [] {
      var n := |lines| - 1;
      EachEntryRead(json, lines[..n]);
      OneMoreLine(json, lines, n);
      EntriesBeforePrefix(json, lines, n, n);
      forall i | 0 <= i < n ensures ReadInOrder(json, lines, Parsed(json, lines), i) {
        assert ReadInOrder(json, lines[..n], Parsed(json, lines[..n]), i);
        ReadLater(json, lines, n, i);
      }
    }
  }

  lemma ReadLater(json: Json, lines: seq<string>, n: nat, i: nat)
    requires i < n == |lines| - 1 && ReadInOrder(json, lines[..n], Parsed(json, lines[..n]), i)
    ensures ReadInOrder(json, lines, Parsed(json, lines), i)
  {
    EntriesBeforePrefix(json, lines, n, i);
    assert Parsed(json, lines[..n]) <= Parsed(json, lines);
  }

  function Printed(json: Json, entries: seq<Entry>): (lines: seq<string>)
    ensures |lines| == |entries|
    ensures forall i :: 0 <= i < |entries| ==> lines[i] == json.print_(entries[i])
  {
    seq(|entries|, i requires 0 <= i < |entries| => json.print_(entries[i]))
  }

  lemma {:induction false} ParsedInvertsPrinted(json: Json, entries: seq<Entry>)
    requires json.Inverse()
    ensures Parsed(json, Printed(json, entries)) == entries
  {
    if entries != [] {
      var n := |entries| - 1;
      ParsedInvertsPrinted(json, entries[..n]);
      assert Printed(json, entries)[..n] == Printed(json, entries[..n]);
    }
  }

  class AuditLog {
    const json: Json
    var entries: seq<Entry>
    var file: string
    ghost var written: seq<Entry>      // entries whose line reached the file
    ghost var lost: nat                // entries in memory only

    ghost predicate Valid()
      reads this
    {
      && json.Inverse()
      && file == Terminated(Printed(json, written))
      && |entries| == |written| + lost
      && (lost == 0 ==> entries == written)
    }

    constructor (json: Json)
      requires json.Inverse()
      ensures Valid() && this.json == json && entries == [] && lost == 0
    {
      this.json := json;
      entries, file, written, lost := [], "", [], 0;
    }

    /** `wrote` tells whether the file could be opened for appending. */
    method Record(entry: Entry, wrote: bool)
      requires Valid()
      modifies this
      ensures Valid()
      ensures entries == old(entries) + [entry]
      ensures lost == old(lost) + if wrote then 0 else 1
      ensures written == if wrote then old(written) + [entry] else old(written)
    {
      entries := entries + [entry];
      if wrote {
        assert Printed(json, written + [entry])[..|written|] == Printed(json, written);
        file := file + json.print_(entry);
        file := file + "\n";
        written := written + [entry];
      } else {
        lost := lost + 1;
      }
    }

    method Load()
      modifies this`entries
      ensures entries == old(entries) + Parsed(json, Lines(file, 0, 0))
    {
      var lines := SplitLines(file);
      assert lines[..|lines|] == lines;
      for i := 0 to |lines|
        invariant entries == old(entries) + Parsed(json, lines[..i])
      {
        assert lines[..i + 1][..i] == lines[..i];
        if lines[i] == "" {
          continue;
        }
        var e := json.parse(lines[i]);
        if e.Some? {
          entries := entries + [e.value];
        }
      }
    }

    /** A new process: the entries come back as they were if and only if none failed to be written. */
    method Restart()
      requires Valid()
      modifies this
      ensures Valid() && lost == 0 && entries == old(written)
      ensures entries == old(entries) <==> old(lost) == 0
    {
      entries := [];
      var lines := Printed(json, written);
      ParsedInvertsPrinted(json, written);
      SplitInvertsJoin(lines, "");
      assert Terminated(lines) + "" == Terminated(lines);
      assert lines + [] == lines;
      Load();
      lost := 0;
    }

    /** The last `max` entries; all of them when `max` is not positive or too large. */
    method Recent(max: int) returns (result: seq<Entry>)
      ensures result == if max <= 0 || max > |entries| then entries else entries[|entries| - max..]
    {
      var n := max;
      if n <= 0 || n > |entries| {
        n := |entries|;
      }
      result := entries[|entries| - n..];
    }
  }
}
