/** The registry as the relay keeps it: a map of records, each with a handle to its connection's
    outbound channel and liveness stamp. */
module RelayRegistry {
  import opened Net
  import opened Wire
  import opened Broker

  /** What a handle leads to: a bounded outbound channel, and the time of the last inbound frame. */
  datatype Link = Link(queue: seq<Message>, open: bool, lastActivity: nat)

  type Links = map<ConnId, Link>

  datatype Outcome = Registered | Reconnected | Occupied

  ghost predicate Linked(peers: Registry, links: Links) {
    forall id | id in peers :: peers[id].chan in links
  }

  predicate Dead(link: Link, now: nat, deadline: nat) {
    DeadOrSilent(link.open, link.lastActivity, now, deadline)
  }

  ghost function Reapable(peers: Registry, links: Links, now: nat, deadline: nat): set<PeerId>
    requires Linked(peers, links)
  {
    set id | id in peers && Dead(links[peers[id].chan], now, deadline)
  }

  /** The targets are the channels of the records named by `ids`, in that order. */
  ghost predicate Paired(peers: Registry, targets: seq<ConnId>, ids: seq<PeerId>) {
    |targets| == |ids| && forall i | 0 <= i < |ids| :: ids[i] in peers && targets[i] == peers[ids[i]].chan
  }

  lemma PairedMore(peers: Registry, targets: seq<ConnId>, ids: seq<PeerId>, id: PeerId)
    requires Paired(peers, targets, ids) && id in peers
    ensures Paired(peers, targets + [peers[id].chan], ids + [id])
  {
  }

  class PeerRegistry {
    var peers: Registry

    constructor ()
      ensures peers == map[]
    {
      peers := map[];
    }

    /** An id whose channel is open keeps its record; a closed one is replaced; a new one is added. */
    method Register(id: PeerId, p: Peer, links: Links) returns (outcome: Outcome)
      requires Linked(peers, links)
      modifies this`peers
      ensures outcome.Occupied? <==> id in old(peers) && links[old(peers)[id].chan].open
      ensures outcome.Registered? <==> id !in old(peers)
      ensures peers == if outcome.Occupied? then old(peers) else old(peers)[id := p]
    {
      if id in peers {
        if links[peers[id].chan].open {
          return Outcome.Occupied;
        }
        peers := peers[id := p];
        return Outcome.Reconnected;
      }
      peers := peers[id := p];
      return Outcome.Registered;
    }

    method Unregister(id: PeerId) returns (removed: Option<Peer>)
      modifies this`peers
      ensures removed == if id in old(peers) then Some(old(peers)[id]) else None
      ensures peers == old(peers) - {id}
    {
      removed := if id in peers then Some(peers[id]) else None;
      peers := peers - {id};
    }

    /** The channel behind `id`, if its record is on `network`. */
    function SenderInNetwork(id: PeerId, network: NetworkId): (sender: Option<ConnId>)
      reads this
      ensures sender.Some? <==> id in peers && peers[id].network == network
      ensures sender.Some? ==> sender.value == peers[id].chan
    {
      if id in peers && peers[id].network == network then Some(peers[id].chan) else None
    }

    /** The records a fan-out goes to, each once, in whatever order the map yields them. */
    method BroadcastTargets(from: PeerId, network: NetworkId, exclude: seq<PeerId>)
      returns (targets: seq<ConnId>, ghost ids: seq<PeerId>)
      ensures |targets| == |Targets(peers, from, network, exclude)|
      ensures forall t | t in targets ::
                exists id :: id in Targets(peers, from, network, exclude) && peers[id].chan == t
      ensures Lists(ids, Targets(peers, from, network, exclude)) && Paired(peers, targets, ids)
    {
      targets, ids := [], [];
      var left := peers.Keys;
      ghost var all := Targets(peers, from, network, exclude);
      assert all - left == {};
      while left != {}
        invariant left <= peers.Keys && Paired(peers, targets, ids) && Lists(ids, all - left)
        decreases |left|
      {
        var id :| id in left;
        ScanOne(ids, all, left, id);
        if peers[id].network == network && id != from && id !in exclude {
          PairedMore(peers, targets, ids, id);
          targets := targets + [peers[id].chan];
          ids := ids + [id];
        }
        left := left - {id};
      }
      assert all - left == all;
      ListsOnly(ids, all);
      forall t | t in targets
        ensures exists id :: id in all && peers[id].chan == t
      {
        var i :| 0 <= i < |targets| && targets[i] == t;
        assert ids[i] in all && peers[ids[i]].chan == t;
      }
    }

    /** The records to prune, each once: closed, or silent for longer than the deadline. */
    method DeadOrStale(links: Links, now: nat, deadline: nat) returns (victims: seq<PeerId>)
      requires Linked(peers, links)
      ensures Lists(victims, Reapable(peers, links, now, deadline))
      ensures forall id :: id in victims <==>
                && id in peers
                && (!links[peers[id].chan].open || now > links[peers[id].chan].lastActivity + deadline)
    {
      victims := [];
      var left := peers.Keys;
      ghost var all := Reapable(peers, links, now, deadline);
      assert all - left == {};
      while left != {}
        invariant left <= peers.Keys && Lists(victims, all - left)
        decreases |left|
      {
        var id :| id in left;
        ScanOne(victims, all, left, id);
        if Dead(links[peers[id].chan], now, deadline) {
          victims := victims + [id];
        }
        left := left - {id};
      }
      assert all - left == all;
      ListsOnly(victims, all);
    }
  }

  /** Looking at one more record of a scan for the ids in `all`. */
  lemma ScanOne(ids: seq<PeerId>, all: set<PeerId>, left: set<PeerId>, id: PeerId)
    requires Lists(ids, all - left) && id in left
    ensures Lists(if id in all then ids + [id] else ids, all - (left - {id}))
  {
    if id in all {
      assert all - (left - {id}) == (all - left) + {id};
      assert multiset((all - left) + {id}) == multiset(all - left) + multiset{id};
    } else {
      assert all - (left - {id}) == all - left;
    }
  }
}
