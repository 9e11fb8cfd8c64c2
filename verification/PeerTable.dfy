/**
  PeerDiscovery's table of LAN peers.  listenLoop inserts, cleanupLoop expires; cleanupLoop drops
  the lock while it runs the onPeerLost callback, so packets can be handled in the middle of a pass.
*/
module PeerTable {

  /** peerTimeout, in nanoseconds. */
  const TIMEOUT := 15_000_000_000

  /** A decoded broadcast and when it was received. */
  datatype Packet = Packet(id: string, mode: string, uptime: real, lastSeen: int)

  datatype Event = Inserted(id: string) | Expired(id: string, lastSeen: int, at: int)

  /** After `events`, is `id` in the table? */
  function Present(events: seq<Event>, id: string): bool {
    if events == [] then false
    else
      var last := events[|events| - 1];
      if last.id == id then last.Inserted? else Present(events[..|events| - 1], id)
  }

  /** Every event could happen when it did: an insert of an absent peer, an expiry of a present, silent one. */
  ghost predicate Possible(events: seq<Event>) {
    forall k :: 0 <= k < |events| ==>
      match events[k]
      case Inserted(id) => !Present(events[..k], id)
      case Expired(id, lastSeen, at) => Present(events[..k], id) && at - lastSeen > 15_000_000_000
  }

  /** No event between `i` and `j` concerns `id`. */
  ghost predicate NoneBetween(events: seq<Event>, id: string, i: int, j: int) {
    forall k :: i < k < j && 0 <= k < |events| ==> events[k].id != id
  }

  lemma {:induction false} PresentSince(events: seq<Event>, id: string, i: nat, j: nat)
    requires i < j <= |events| && events[i].id == id && NoneBetween(events, id, i, j)
    ensures Present(events[..j], id) == events[i].Inserted?
    decreases j
  {
    assert events[..j][..j - 1] == events[..j - 1];
    if i < j - 1 {
      PresentSince(events, id, i, j - 1);
    }
  }

  lemma {:induction false} AbsentAtFirst(events: seq<Event>, id: string, j: nat)
    requires j <= |events| && NoneBetween(events, id, -1, j)
    ensures !Present(events[..j], id)
  {
    if j > 0 {
      assert events[..j][..j - 1] == events[..j - 1];
      AbsentAtFirst(events, id, j - 1);
    }
  }

  /** The events of one peer strictly alternate, and the first is an insert. */
  lemma EventsAlternate(events: seq<Event>, id: string, i: int, j: int)
    requires Possible(events)
    requires 0 <= j < |events| && events[j].id == id && NoneBetween(events, id, i, j)
    ensures i == -1 ==> events[j].Inserted?
    ensures 0 <= i < j && events[i].id == id ==> events[i].Inserted? != events[j].Inserted?
  {
    if i == -1 {
      AbsentAtFirst(events, id, j);
    } else if 0 <= i < j && events[i].id == id {
      PresentSince(events, id, i, j);
    }
  }

  class PeerDiscovery {
    const selfID: string
    var peers: map<string, Packet>
    ghost var events: seq<Event>

    ghost predicate Valid()
      reads this
    {
      && Possible(events)
      && (forall id :: id in peers <==> Present(events, id))
      && (forall id :: id in peers ==> peers[id].id == id)
      && selfID !in peers
    }

    constructor (selfID: string)
      ensures Valid() && this.selfID == selfID && peers == map[] && events == []
    {
      this.selfID := selfID;
      peers := map[];
      events := [];
    }

    /** One packet in listenLoop; `found` tells whether onPeerFound is called. */
    method Listen(p: Packet) returns (found: bool)
      requires Valid()
      modifies this
      ensures Valid()
      ensures peers == if p.id == selfID then old(peers) else old(peers)[p.id := p]
      ensures found <==> p.id != selfID && p.id !in old(peers)
      ensures events == if found then old(events) + [Inserted(p.id)] else old(events)
    {
      if p.id == selfID {
        return false;
      }
      found := p.id !in peers;
      peers := peers[p.id := p];
      if found {
        events := events + [Inserted(p.id)];
        assert events[..|events| - 1] == old(events);
        assert forall k :: 0 <= k < |old(events)| ==> events[..k] == old(events)[..k];
      }
    }

    /** The packets handled while cleanupLoop has dropped the lock. */
    method ListenAll(ps: seq<Packet>)
      requires Valid()
      modifies this
      ensures Valid() && old(events) <= events
      ensures forall id :: id in old(peers) ==> id in peers
      ensures forall id :: id in peers ==> (id in old(peers) && peers[id] == old(peers)[id]) || peers[id] in ps
    {
      var i := 0;
      while i < |ps|
        invariant 0 <= i <= |ps| && Valid() && old(events) <= events
        invariant forall id :: id in old(peers) ==> id in peers
        invariant forall id :: id in peers ==> (id in old(peers) && peers[id] == old(peers)[id]) || peers[id] in ps
      {
        var _ := Listen(ps[i]);
        i := i + 1;
      }
    }

    method Expire(id: string, now: int)
      requires Valid() && id in peers && now - peers[id].lastSeen > TIMEOUT
      modifies this
      ensures Valid()
      ensures peers == old(peers) - {id}
      ensures events == old(events) + [Expired(id, old(peers)[id].lastSeen, now)]
    {
      events := events + [Expired(id, peers[id].lastSeen, now)];
      assert events[..|events| - 1] == old(events);
      assert forall k :: 0 <= k < |old(events)| ==> events[..k] == old(events)[..k];
      peers := peers - {id};
    }

    /**
      One pass of cleanupLoop.  `gaps[k]` is what happens while the lock is dropped for the k-th
      time.  Afterwards no entry is more than 15 s older than the start of the pass, except one from
      a packet that already was when it was handled; and unless there was such a packet, every entry
      that was recent at the start is still there.
    */
    method CleanupPass(now: int, gaps: seq<Gap>)
      requires Valid()
      modifies this
      ensures Valid() && old(events) <= events
      ensures forall id :: id in peers ==>
                (id in old(peers) && peers[id] == old(peers)[id]) || Arrived(gaps, peers[id])
      ensures forall id :: id in peers ==> Recent(now, peers[id]) || Arrived(gaps, peers[id])
      ensures (forall p :: Arrived(gaps, p) ==> Recent(now, p)) ==>
                forall id :: id in old(peers) && Recent(now, old(peers)[id]) ==> id in peers
    {
      var todo := peers.Keys;
      var gap := 0;
      while todo != {}
        invariant Valid() && old(events) <= events && 0 <= gap <= |gaps| && todo <= peers.Keys
        invariant forall id :: id in peers ==>
                    (id in old(peers) && peers[id] == old(peers)[id]) || Arrived(gaps, peers[id])
        invariant forall id :: id in peers && id !in todo ==>
                    Recent(now, peers[id]) || Arrived(gaps, peers[id])
        invariant (forall p :: Arrived(gaps, p) ==> Recent(now, p)) ==>
                    forall id :: id in old(peers) && Recent(now, old(peers)[id]) ==> id in peers
        decreases |gaps| - gap, todo
      {
        var id :| id in todo;
        todo := todo - {id};
        if now - peers[id].lastSeen > TIMEOUT {
          Expire(id, now);
          if gap < |gaps| {
            ListenAll(gaps[gap].packets);
            assert forall p :: p in gaps[gap].packets ==> Arrived(gaps, p);
            todo := todo + gaps[gap].visits * peers.Keys;
            gap := gap + 1;
          }
        }
      }
    }
  }

  /**
    A gap in the lock: the packets handled in it, and the entries that the range statement, which
    may or may not yield what was inserted meanwhile, visits in addition afterwards.
  */
  datatype Gap = Gap(packets: seq<Packet>, visits: set<string>)

  /** Received at most 15 s before `now`. */
  predicate Recent(now: int, p: Packet) { now - p.lastSeen <= 15_000_000_000 }

  ghost predicate Arrived(gaps: seq<Gap>, p: Packet) {
    exists k :: 0 <= k < |gaps| && p in gaps[k].packets
  }
}
