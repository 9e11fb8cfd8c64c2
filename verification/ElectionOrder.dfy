/** The order in which the LAN election ranks nodes. */
module ElectionOrder {
  import opened Common

  datatype Peer = Peer(id: string, ip: string, port: int, mode: string, uptime: real)

  /** The comparator runElection passes to sort.Slice. */
  predicate Before(a: Peer, b: Peer) {
    if a.mode == "server" && b.mode != "server" then true
    else if b.mode == "server" && a.mode != "server" then false
    else if a.uptime != b.uptime then a.uptime > b.uptime
    else StringLess(a.id, b.id)
  }

  lemma BeforeIsStrictTotal(a: Peer, b: Peer, c: Peer)
    ensures !Before(a, a)
    ensures !(Before(a, b) && Before(b, a))
    ensures Before(a, b) && Before(b, c) ==> Before(a, c)
    ensures a.id != b.id ==> Before(a, b) || Before(b, a)
  {
    StringLessTrichotomy(a.id, b.id);
    if StringLess(a.id, b.id) && StringLess(b.id, c.id) {
      StringLessTransitive(a.id, b.id, c.id);
    }
  }

  ghost predicate DistinctIds(s: seq<Peer>) {
    forall i, j :: 0 <= i < j < |s| ==> s[i].id != s[j].id
  }

  /** `x` is ranked before every other element of `s`. */
  ghost predicate IsHead(x: Peer, s: seq<Peer>) {
    x in s && forall y :: y in s && y != x ==> Before(x, y)
  }

  /** The best element of `s`. */
  function Head(s: seq<Peer>): (x: Peer)
    requires s != []
    ensures x in s
  {
    if |s| == 1 then s[0]
    else
      var x := Head(s[1..]);
      if Before(x, s[0]) then x else s[0]
  }

  lemma {:induction false} HeadIsHead(s: seq<Peer>)
    requires s != [] && DistinctIds(s)
    ensures IsHead(Head(s), s)
  {
    if |s| > 1 {
      HeadIsHead(s[1..]);
      var h := Head(s[1..]);
      BeforeIsStrictTotal(s[0], h, h);
      forall y | y in s && y != Head(s) ensures Before(Head(s), y) {
        if y in s[1..] && y != h {
          BeforeIsStrictTotal(s[0], h, y);
        }
      }
    }
  }

  /**
    `x` wins among `s`: it is a server if any record is, and among the records that are servers like
    it, or that are not, it has the greatest uptime, and of those with that uptime the least ID.
  */
  ghost predicate Wins(x: Peer, s: seq<Peer>) {
    && x in s
    && ((exists y :: y in s && y.mode == "server") ==> x.mode == "server")
    && (forall y :: y in s && y != x && (y.mode == "server" <==> x.mode == "server") ==>
          y.uptime < x.uptime || (y.uptime == x.uptime && StringLess(x.id, y.id)))
  }

  /** The head is the record that wins, and no other does. */
  lemma HeadIff(x: Peer, s: seq<Peer>)
    requires s != [] && DistinctIds(s)
    ensures x == Head(s) <==> Wins(x, s)
  {
    var h := Head(s);
    HeadIsHead(s);
    forall y | y in s ensures !StringLess(y.id, y.id) && (StringLess(h.id, y.id) ==> !StringLess(y.id, h.id)) {
      StringLessTrichotomy(h.id, y.id);
      StringLessTrichotomy(y.id, y.id);
    }
  }

  /** `t` is what sort.Slice may leave: a permutation of `s` in which nothing precedes what stands before it. */
  ghost predicate SortOf(t: seq<Peer>, s: seq<Peer>) {
    multiset(t) == multiset(s) && forall i, j :: 0 <= i < j < |t| ==> !Before(t[j], t[i])
  }

  /** Whatever order the peers were listed in and however the sort works, its first element is the head. */
  lemma SortedHead(t: seq<Peer>, s: seq<Peer>)
    requires s != [] && DistinctIds(s) && SortOf(t, s)
    ensures t != [] && t[0] == Head(s)
  {
    assert |t| == |multiset(t)| == |multiset(s)| == |s|;
    HeadIsHead(s);
    var h := Head(s);
    assert h in multiset(s);
    assert h in t;
    assert t[0] in multiset(t);
    assert t[0] in s;
    var j :| 0 <= j < |t| && t[j] == h;
    assert j == 0 || !Before(t[j], t[0]);
  }

  /** Nodes whose own record and table together hold the same records pick the same winner. */
  lemma SameRecordsSameWinner(s: seq<Peer>, t: seq<Peer>)
    requires s != [] && t != [] && DistinctIds(s) && DistinctIds(t)
    requires forall p :: p in s <==> p in t
    ensures Head(s) == Head(t)
  {
    HeadIsHead(s);
    HeadIsHead(t);
    var x, y := Head(s), Head(t);
    BeforeIsStrictTotal(x, y, y);
  }
}
