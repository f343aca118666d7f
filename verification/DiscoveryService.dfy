/** The discovery service object: its node table and the events it emits. */
module DiscoveryService {
  import opened Options
  import opened Discovery

  class NodeTable {
    const interval: int
    var nodes: map<string, Node>
    var events: seq<Event>

    constructor (every: int)
      ensures interval == every && State() == EMPTY
    {
      interval, nodes, events := every, map[], [];
    }

    function State(): Service
      reads this
    {
      Service(nodes, events)
    }

    method LoadStaticNodes(loaded: seq<Node>)
      modifies this
      ensures State() == LoadStatic(old(State()), loaded)
    {
      for i := 0 to |loaded|
        invariant LoadStatic(old(State()), loaded) == LoadStatic(State(), loaded[i..])
      {
        nodes := nodes[loaded[i].id := loaded[i]];
        events := events + [Event(Discovered, loaded[i].id)];
        assert loaded[i..][1..] == loaded[i + 1..];
      }
    }

    method PerformDiscovery(observed: seq<Node>)
      modifies this
      ensures State() == Scan(old(State()), observed)
    {
      for i := 0 to |observed|
        invariant Scan(old(State()), observed) == Scan(State(), observed[i..])
      {
        var node := observed[i];
        if node.id in nodes {
          nodes := nodes[node.id := nodes[node.id].(lastSeen := node.lastSeen)];
          events := events + [Event(Updated, node.id)];
        } else {
          nodes := nodes[node.id := node];
          events := events + [Event(Discovered, node.id)];
        }
        assert observed[i..][1..] == observed[i + 1..];
      }
    }

    /** Two passes: collect the stale IDs, then delete them and emit their loss. */
    method CleanupStaleNodes(now: int) returns (stale: seq<string>)
      modifies this
      ensures Collects(old(State()), interval, now, stale)
      ensures State() == Drop(old(State()), stale)
    {
      stale := [];
      var todo := nodes.Keys;
      while todo != {}
        invariant State() == old(State()) && todo <= nodes.Keys
        invariant forall id :: id in stale <==> id in StaleIds(State(), interval, now) && id !in todo
        invariant forall i, j :: 0 <= i < j < |stale| ==> stale[i] != stale[j]
        decreases |todo|
      {
        ghost var some := Member(todo);
        var id :| id in todo;
        todo := todo - {id};
        if nodes[id].serviceType != STATIC && nodes[id].lastSeen < now - 3 * interval {
          assert id !in stale;
          stale := stale + [id];
        }
      }
      for i := 0 to |stale|
        invariant Drop(old(State()), stale) == Drop(State(), stale[i..])
      {
        nodes := nodes - {stale[i]};
        events := events + [Event(Lost, stale[i])];
        assert stale[i..][1..] == stale[i + 1..];
      }
    }
  }
}
