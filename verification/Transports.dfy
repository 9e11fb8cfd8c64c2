/** The health checker, the transport pool, failover between transports and the status list. */
module Transports {
  import opened Common

  const MAX_INT32 := 2147483647

  datatype Entry = Entry(name: string, priority: int)

  class HealthChecker {
    var dead: map<string, bool>

    constructor ()
      ensures dead == map[]
    {
      dead := map[];
    }

    /** A name the map does not hold counts as alive. */
    predicate IsDead(id: string)
      reads this
    {
      id in dead && dead[id]
    }

    /** Register and Heartbeat. */
    method Heartbeat(id: string)
      modifies this
      ensures dead == old(dead)[id := false]
    {
      dead := dead[id := false];
    }
  }

  /** `e` may be used: it is alive and its priority is below math.MaxInt32. */
  ghost predicate Usable(e: Entry, hc: HealthChecker)
    reads hc
  {
    !hc.IsDead(e.name) && e.priority < MAX_INT32
  }

  class TransportPool {
    const hc: HealthChecker
    var entries: map<string, Entry>
    var activeTransport: string

    /** Every transport is registered under its own name, as initTransports does. */
    ghost predicate Valid()
      reads this
    {
      forall id :: id in entries ==> entries[id].name == id
    }

    constructor (hc: HealthChecker)
      ensures Valid() && this.hc == hc && entries == map[]
    {
      this.hc := hc;
      entries := map[];
      activeTransport := "";
    }

    method Add(e: Entry)
      requires Valid()
      modifies this
      ensures Valid() && entries == old(entries)[e.name := e] && activeTransport == old(activeTransport)
    {
      entries := entries[e.name := e];
    }

    method Remove(id: string)
      modifies this
      ensures entries == old(entries) - {id} && activeTransport == old(activeTransport)
    {
      entries := entries - {id};
    }

    /** HealthChecker.ReportFailure with a non-nil error; its onDead callback removes the entry. */
    method ReportFailure(id: string)
      modifies this, hc
      ensures hc.dead == old(hc.dead)[id := true]
      ensures entries == old(entries) - {id} && activeTransport == old(activeTransport)
    {
      hc.dead := hc.dead[id := true];
      Remove(id);
    }

    /** `best` is the result GetBest promises: least in priority among the usable entries. */
    ghost predicate IsBest(best: Option<Entry>)
      reads this, hc
    {
      match best
      case None => forall id :: id in entries ==> !Usable(entries[id], hc)
      case Some(b) =>
        && (exists id :: id in entries && entries[id] == b)
        && Usable(b, hc)
        && forall id :: id in entries && Usable(entries[id], hc) ==> b.priority <= entries[id].priority
    }

    method GetBest() returns (best: Option<Entry>)
      ensures IsBest(best)
      ensures forall id :: id in entries && !(entries[id].name in hc.dead && hc.dead[entries[id].name])
                           && entries[id].priority < 2147483647 ==>
                best.Some? && best.value.priority <= entries[id].priority
      ensures best.Some? ==>
                && (exists id :: id in entries && entries[id] == best.value)
                && !(best.value.name in hc.dead && hc.dead[best.value.name])
                && best.value.priority < 2147483647
    {
      best := None;
      var bestPri := MAX_INT32;
      var todo := entries.Keys;
      while todo != {}
        invariant todo <= entries.Keys
        invariant best.None? ==> bestPri == MAX_INT32
        invariant best.Some? ==> bestPri == best.value.priority && Usable(best.value, hc)
        invariant best.Some? ==> exists id :: id in entries && entries[id] == best.value
        invariant forall id :: id in entries && id !in todo && Usable(entries[id], hc) ==> bestPri <= entries[id].priority
        decreases todo
      {
        var id :| id in todo;
        todo := todo - {id};
        var e := entries[id];
        if e.priority < bestPri && !hc.IsDead(e.name) {
          bestPri := e.priority;
          best := Some(e);
        }
      }
    }

    /**
      sendViaBestTransport.  `works(n)` tells whether a send over transport n succeeds.  `tried`
      are the names it sent over, in order.  When the first send fails, its transport is dead and
      out of the pool, and the retry goes to the best of what is left, never to the same one.
    */
    method SendViaBestTransport(works: string -> bool) returns (tried: seq<string>)
      requires Valid()
      modifies this, hc
      ensures Valid() && |tried| <= 2
      ensures tried == [] <==> old(forall id :: id in entries ==> !Usable(entries[id], hc))
      ensures tried != [] ==> tried[0] in old(entries) && old(IsBest(Some(entries[tried[0]])))
      ensures tried == [] ==> entries == old(entries) && hc.dead == old(hc.dead)
      ensures tried != [] && works(tried[0]) ==>
                |tried| == 1 && entries == old(entries) && activeTransport == tried[0] && !hc.IsDead(tried[0])
      ensures tried != [] && !works(tried[0]) ==>
                && entries == old(entries) - {tried[0]} && |entries| == |old(entries)| - 1
                && hc.IsDead(tried[0])
                && (|tried| == 1 ==> IsBest(None) && activeTransport == old(activeTransport))
                && (|tried| == 2 ==> tried[1] in entries && tried[1] != tried[0]
                                     && IsBest(Some(entries[tried[1]])) && activeTransport == tried[1])
    {
      tried := [];
      var t := GetBest();
      if t.Some? {
        var n := t.value.name;
        tried := [n];
        if !works(n) {
          ReportFailure(n);
          assert entries.Keys == old(entries).Keys - {n};
          var t2 := GetBest();
          if t2.Some? && t2.value.name != n {
            tried := tried + [t2.value.name];
            activeTransport := t2.value.name;
          }
        } else {
          hc.Heartbeat(n);
          activeTransport := n;
        }
      }
    }

    /**
      Any series of messages with nothing registered meanwhile: each failed first send costs one
      transport for good, so there are at most as many failures as transports.
    */
    method SendAll(works: seq<string -> bool>) returns (failures: nat)
      requires Valid()
      modifies this, hc
      ensures Valid() && failures + |entries| == |old(entries)|
      ensures forall id :: id in entries ==> id in old(entries) && entries[id] == old(entries)[id]
    {
      failures := 0;
      for i := 0 to |works|
        invariant Valid() && failures + |entries| == |old(entries)|
        invariant forall id :: id in entries ==> id in old(entries) && entries[id] == old(entries)[id]
      {
        var tried := SendViaBestTransport(works[i]);
        if tried != [] && !works[i](tried[0]) {
          failures := failures + 1;
        }
      }
    }

    /** The list getTransportStatus builds, in the order the map is walked. */
    method ListAll() returns (rows: seq<Row>)
      ensures Covers(rows)
    {
      rows := [];
      var todo := entries.Keys;
      while todo != {}
        invariant todo <= entries.Keys
        invariant forall id :: id in entries && id !in todo ==> RowOf(entries[id]) in rows
        invariant forall r :: r in rows ==> exists id :: id in entries && r == RowOf(entries[id])
        invariant |rows| + |todo| == |entries|
        decreases todo
      {
        var id :| id in todo;
        todo := todo - {id};
        rows := rows + [RowOf(entries[id])];
      }
    }

    /** A name is healthy unless the checker holds it for dead; one it does not know is. */
    function RowOf(e: Entry): (r: Row)
      reads hc
      ensures r.name == e.name && r.priority == e.priority
      ensures r.healthy <==> e.name !in hc.dead || !hc.dead[e.name]
    {
      Row(e.name, e.priority, !hc.IsDead(e.name))
    }

    /** The rows are those of the entries, one for each. */
    ghost predicate Covers(rows: seq<Row>)
      reads this, hc
    {
      && (forall id :: id in entries ==> RowOf(entries[id]) in rows)
      && (forall r :: r in rows ==> exists id :: id in entries && r == RowOf(entries[id]))
      && |rows| == |entries|
    }

    /**
      getTransportStatus: the rows come out in ascending priority, and the first healthy one has
      the priority of the transport GetBest picks.
    */
    method GetTransportStatus() returns (rows: seq<Row>, best: Option<Entry>)
      ensures IsBest(best) && Covers(rows) && Ascending(rows)
      ensures best.Some? ==> exists k :: FirstHealthy(rows, k) && rows[k].priority == best.value.priority
      ensures best.None? ==> forall r :: r in rows && r.healthy ==> r.priority >= MAX_INT32
    {
      best := GetBest();
      var list := ListAll();
      rows := Sorted(list);
      SamePopulation(rows, list);
      assert Covers(rows);
      if best.Some? {
        FirstHealthyIsBest(rows, best.value);
      } else {
        NoneHealthyBelow(rows);
      }
    }

    lemma FirstHealthyIsBest(rows: seq<Row>, best: Entry)
      requires IsBest(Some(best)) && Covers(rows) && Ascending(rows)
      ensures exists k :: FirstHealthy(rows, k) && rows[k].priority == best.priority
    {
      var id :| id in entries && entries[id] == best;
      assert RowOf(entries[id]) in rows;
      var j :| 0 <= j < |rows| && rows[j] == RowOf(entries[id]);
      var k := FindFirstHealthy(rows, j);
      assert rows[k] in rows && rows[k].priority <= rows[j].priority;
      var id' :| id' in entries && rows[k] == RowOf(entries[id']);
      assert Usable(entries[id'], hc);
    }

    lemma NoneHealthyBelow(rows: seq<Row>)
      requires IsBest(None) && Covers(rows)
      ensures forall r :: r in rows && r.healthy ==> r.priority >= MAX_INT32
    {
      forall r | r in rows && r.healthy ensures r.priority >= MAX_INT32 {
        var id :| id in entries && r == RowOf(entries[id]);
        assert !Usable(entries[id], hc);
      }
    }
  }

  /** A sorted copy of a list, made with the in-place sort. */
  method Sorted(list: seq<Row>) returns (rows: seq<Row>)
    ensures Ascending(rows) && multiset(rows) == multiset(list)
  {
    var a := new Row[|list|](i requires 0 <= i < |list| => list[i]);
    assert a[..] == list;
    SortByPriority(a);
    rows := a[..];
  }

  datatype Row = Row(name: string, priority: int, healthy: bool)

  ghost predicate Ascending(rows: seq<Row>) {
    forall i, j :: 0 <= i < j < |rows| ==> rows[i].priority <= rows[j].priority
  }

  ghost predicate FirstHealthy(rows: seq<Row>, k: int) {
    0 <= k < |rows| && rows[k].healthy && forall j :: 0 <= j < k ==> !rows[j].healthy
  }

  lemma SamePopulation(s: seq<Row>, t: seq<Row>)
    requires multiset(s) == multiset(t)
    ensures |s| == |t| && forall r :: r in s <==> r in t
  {
    assert |s| == |multiset(s)| == |multiset(t)| == |t|;
    forall r ensures r in s <==> r in t {
      assert r in s <==> r in multiset(s);
      assert r in t <==> r in multiset(t);
    }
  }

  lemma {:induction false} FindFirstHealthy(rows: seq<Row>, j: nat) returns (k: nat)
    requires j < |rows| && rows[j].healthy
    ensures FirstHealthy(rows, k) && k <= j
    decreases j
  {
    if i :| 0 <= i < j && rows[i].healthy {
      k := FindFirstHealthy(rows, i);
    } else {
      k := j;
    }
  }

  method Exchange(a: array<Row>, i: nat, j: nat)
    requires i < j < a.Length
    modifies a
    ensures a[i] == old(a[j]) && a[j] == old(a[i])
    ensures forall k :: 0 <= k < a.Length && k != i && k != j ==> a[k] == old(a[k])
    ensures multiset(a[..]) == old(multiset(a[..]))
  {
    a[i], a[j] := a[j], a[i];
  }

  /**
    The inner loop of the exchange sort: brings a row of least priority to position `i`.  `low` is
    any bound on the rows from `i` on, which it keeps.
  */
  method ExchangeFrom(a: array<Row>, i: nat, ghost low: int)
    requires i < a.Length
    requires forall q :: i <= q < a.Length ==> low <= a[q].priority
    modifies a
    ensures multiset(a[..]) == old(multiset(a[..]))
    ensures forall p :: 0 <= p < i ==> a[p] == old(a[p])
    ensures forall q :: i <= q < a.Length ==> low <= a[q].priority
    ensures forall q :: i <= q < a.Length ==> a[i].priority <= a[q].priority
  {
    var j := i + 1;
    while j < a.Length
      invariant i < j <= a.Length
      invariant multiset(a[..]) == old(multiset(a[..]))
      invariant forall p :: 0 <= p < i ==> a[p] == old(a[p])
      invariant forall q :: i <= q < a.Length ==> low <= a[q].priority
      invariant forall q :: i <= q < j ==> a[i].priority <= a[q].priority
    {
      if a[j].priority < a[i].priority {
        Exchange(a, i, j);
      }
      j := j + 1;
    }
  }

  /** The exchange sort, in place. */
  method SortByPriority(a: array<Row>)
    modifies a
    ensures Ascending(a[..]) && multiset(a[..]) == old(multiset(a[..]))
  {
    ghost var low := Least(a[..]);
    var i := 0;
    while i < a.Length
      invariant 0 <= i <= a.Length
      invariant multiset(a[..]) == old(multiset(a[..]))
      invariant Ascending(a[..i])
      invariant forall p :: 0 <= p < i ==> a[p].priority <= low
      invariant forall q :: i <= q < a.Length ==> low <= a[q].priority
    {
      ghost var done := a[..i];
      ExchangeFrom(a, i, low);
      low := a[i].priority;
      assert a[..i] == done;
      assert a[..i + 1] == done + [a[i]];
      i := i + 1;
    }
    assert a[..i] == a[..];
  }

  /** A lower bound on the priorities. */
  ghost function Least(rows: seq<Row>): (low: int)
    ensures forall r :: r in rows ==> low <= r.priority
  {
    if rows == [] then 0
    else
      var m := Least(rows[1..]);
      if rows[0].priority < m then rows[0].priority else m
  }
}
