/** The hub's objects: clients with their channels, and the server that keeps the set of members. */
module HubServer {
  import opened Options
  import opened Hub

  class Client<M(==)> {
    var send: seq<M>
    var open: bool
    var subscriptions: set<string>
    var written: seq<M>  // what the writer has sent to the peer

    constructor ()
      ensures send == [] && open && subscriptions == {} && written == []
    {
      send, open, subscriptions, written := [], true, {}, [];
    }

    function AsConn(member: bool): Conn<M>
      reads this
    {
      Conn(member, open, send, subscriptions, written)
    }

    method Subscribe(topic: string)
      modifies this`subscriptions
      ensures subscriptions == old(subscriptions) + {topic}
    {
      subscriptions := subscriptions + {topic};
    }

    method Unsubscribe(topic: string)
      modifies this`subscriptions
      ensures subscriptions == old(subscriptions) - {topic}
    {
      subscriptions := subscriptions - {topic};
    }

    /** One round of the write pump on the send channel; false when the channel is closed and drained. */
    method WriteNext() returns (more: bool)
      modifies this`send, this`written
      ensures forall member :: AsConn(member) == Take(old(AsConn(member)))
      ensures old(send) != [] ==> written == old(written) + [old(send)[0]] && send == old(send)[1..]
      ensures old(send) == [] ==> written == old(written) && send == []
      ensures open == old(open) && subscriptions == old(subscriptions)
      ensures more <==> old(send != [] || open)
    {
      if send == [] {
        return open;
      }
      written := written + [send[0]];
      send := send[1..];
      return true;
    }
  }

  class Server<M(==)> {
    var clients: set<Client<M>>
    var crashed: bool  // a goroutine used a closed channel, which ends the process
    ghost var all: seq<Client<M>>  // every client in the order of registration

    /** The members are among the clients ever registered, and those are listed once. */
    ghost predicate Listed()
      reads this
    {
      && (forall i, j :: 0 <= i < j < |all| ==> all[i] != all[j])
      && forall c :: c in clients ==> c in all
    }

    ghost function View(i: nat): Conn<M>
      requires i < |all|
      reads this, all
    {
      all[i].AsConn(all[i] in clients)
    }

    ghost function Views(): seq<Conn<M>>
      reads this, all
    {
      seq(|all|, i requires 0 <= i < |all| reads this, all => View(i))
    }

    ghost function State(): Hub.State<M>
      reads this, all
    {
      if crashed then Crashed else Running(Views())
    }

    ghost predicate Valid()
      reads this, all
    {
      Listed() && forall i :: 0 <= i < |all| ==> ConnOk(View(i))
    }

    constructor ()
      ensures Valid() && all == [] && State() == Running([])
    {
      clients, crashed, all := {}, false, [];
    }

    /** Closing a closed channel panics. */
    method CloseChannel(c: Client<M>)
      modifies this`crashed, c`open
      ensures crashed == (old(crashed) || !old(c.open)) && !c.open
    {
      if !c.open {
        crashed := true;
      }
      c.open := false;
    }

    /** A non-blocking send to one client, whoever it is: on a closed channel it panics. */
    method SendOrEvict(c: Client<M>, m: M)
      requires Listed() && !crashed
      modifies this`clients, this`crashed, c`send, c`open
      ensures Listed() && (crashed <==> !old(c.open))
      ensures c.AsConn(c in clients)
              == if old(c.open) then Offer(old(c.AsConn(c in clients)), m) else old(c.AsConn(c in clients))
      ensures clients == old(clients) || clients == old(clients) - {c}
    {
      if !c.open {
        crashed := true;
      } else if |c.send| < CAPACITY {
        c.send := c.send + [m];
      } else {
        clients := clients - {c};
        CloseChannel(c);
      }
    }

    lemma Registered(before: seq<Conn<M>>, welcome: M)
      requires Listed() && !crashed && |all| == |before| + 1
      requires forall i :: 0 <= i < |before| ==> View(i) == before[i] && ConnOk(before[i])
      requires View(|before|) == Fresh(welcome)
      ensures Valid() && State() == Step(Running(before), Register(welcome))
    {
      assert Views() == before + [Fresh(welcome)];
      assert forall i :: 0 <= i < |before| ==> Touch(before[i], i, Register(welcome)) == before[i];
    }

    /** Adds a new connection to the hub and sends it the welcome message. */
    method RegisterClient(welcome: M) returns (c: Client<M>)
      requires Valid() && !crashed
      modifies this
      ensures Valid() && fresh(c) && all == old(all) + [c]
      ensures State() == Step(old(State()), Register(welcome))
    {
      ghost var before := Views();
      c := new Client();
      clients := clients + {c};
      all := all + [c];
      SendOrEvict(c, welcome);
      forall i | 0 <= i < |before| ensures View(i) == before[i] {
        assert all[i] != c;
      }
      assert View(|before|) == Fresh(welcome);
      Registered(before, welcome);
    }

    /** How far a range over the members has come: the members still to visit are as before. */
    ghost predicate Visited(before: seq<Conn<M>>, a: Action<M>, todo: set<Client<M>>)
      reads this, all
    {
      && !crashed && |before| == |all| && todo <= clients
      && forall i :: 0 <= i < |all| ==> View(i) == if all[i] in todo then before[i] else Touch(before[i], i, a)
    }

    /** When every connection has been touched as the action says, the hub is in the state after the action. */
    lemma AllVisited(before: seq<Conn<M>>, a: Action<M>)
      requires Listed() && Visited(before, a, {}) && !a.Register? && Step(Running(before), a).Running?
      requires forall i :: 0 <= i < |before| ==> ConnOk(before[i])
      ensures Valid() && State() == Step(Running(before), a)
    {
      assert Views() == Step(Running(before), a).conns;
      forall i | 0 <= i < |all| ensures ConnOk(View(i)) {
        assert View(i) == Touch(before[i], i, a);
        StepTouches(Running(before), a, i);
        TouchOk(before[i], i, a);
      }
    }

    /** Only a direct send can crash a hub whose channels are open exactly for its members. */
    lemma NoCrash(before: seq<Conn<M>>, a: Action<M>)
      requires (forall i :: 0 <= i < |before| ==> ConnOk(before[i])) && !a.ToClient?
      ensures Step(Running(before), a).Running?
    {
    }

    method UnregisterClient(c: Client<M>, ghost i: nat)
      requires Valid() && !crashed && i < |all| && all[i] == c
      modifies this`clients, this`crashed, c`open
      ensures Valid()
      ensures State() == Step(old(State()), Unregister(i))
    {
      ghost var before := Views();
      assert ConnOk(before[i]) && before[i] == View(i);
      if c in clients {
        clients := clients - {c};
        CloseChannel(c);
      }
      forall j | 0 <= j < |all| ensures View(j) == Touch(before[j], j, Unregister(i)) {
        assert j != i ==> all[j] != c;
      }
      NoCrash(before, Unregister(i));
      AllVisited(before, Unregister(i));
    }

    /** One member's turn in a broadcast that reaches it. */
    method VisitMember(c: Client<M>, m: M, ghost before: seq<Conn<M>>, ghost a: Action<M>, ghost todo: set<Client<M>>)
      requires Listed() && Visited(before, a, todo) && c in todo
      requires forall k :: 0 <= k < |all| && all[k] == c ==>
        ConnOk(before[k]) && before[k].member && Touch(before[k], k, a) == Offer(before[k], m)
      modifies this`clients, this`crashed, c`send, c`open
      ensures Listed() && Visited(before, a, todo - {c})
    {
      ghost var k :| 0 <= k < |all| && all[k] == c;
      assert View(k) == before[k];
      ghost var views := Views();
      SendOrEvict(c, m);
      assert View(k) == Offer(before[k], m);
      forall i | 0 <= i < |all| && i != k ensures View(i) == views[i] {
        assert all[i] != c;
      }
    }

    lemma NoneVisited(a: Action<M>)
      requires Valid() && !crashed
      requires forall i :: 0 <= i < |all| && all[i] !in clients ==> Touch(View(i), i, a) == View(i)
      ensures Visited(Views(), a, clients) && forall i :: 0 <= i < |all| ==> Views()[i] == View(i) && ConnOk(Views()[i])
    {
    }

    /** Ranges over the members, evicting the ones whose queue is full. */
    method BroadcastMessage(m: M)
      requires Valid() && !crashed
      modifies this`clients, this`crashed, all
      ensures Valid()
      ensures State() == Step(old(State()), Broadcast(m))
    {
      ghost var before := Views();
      NoneVisited(Broadcast(m));
      var todo := clients;
      while todo != {}
        invariant Listed() && Visited(before, Broadcast(m), todo)
        invariant forall i :: 0 <= i < |all| && all[i] in todo ==> before[i].member
        decreases |todo|
      {
        ghost var some := Member(todo);
        var c :| c in todo;
        VisitMember(c, m, before, Broadcast(m), todo);
        todo := todo - {c};
      }
      NoCrash(before, Broadcast(m));
      AllVisited(before, Broadcast(m));
    }

    /** The same for the members subscribed to the topic. */
    method BroadcastToTopic(topic: string, m: M)
      requires Valid() && !crashed
      modifies this`clients, this`crashed, all
      ensures Valid()
      ensures State() == Step(old(State()), ToTopic(topic, m))
    {
      ghost var before := Views();
      NoneVisited(ToTopic(topic, m));
      var todo := clients;
      while todo != {}
        invariant Listed() && Visited(before, ToTopic(topic, m), todo)
        invariant forall i :: 0 <= i < |all| && all[i] in todo ==> before[i].member
        decreases |todo|
      {
        ghost var some := Member(todo);
        var c :| c in todo;
        if topic in c.subscriptions {
          VisitMember(c, m, before, ToTopic(topic, m), todo);
        }
        todo := todo - {c};
      }
      NoCrash(before, ToTopic(topic, m));
      AllVisited(before, ToTopic(topic, m));
    }

    /** The method does not look whether the client is still a member; sending on a closed channel panics. */
    method SendToClient(c: Client<M>, m: M, ghost i: nat)
      requires Valid() && !crashed && i < |all| && all[i] == c
      modifies this`clients, this`crashed, c`send, c`open
      ensures Valid()
      ensures State() == Step(old(State()), ToClient(i, m))
    {
      ghost var before := Views();
      assert ConnOk(View(i)) && UsesChannel(before[i], i, ToClient(i, m));
      SendOrEvict(c, m);
      forall j | 0 <= j < |all| && j != i ensures View(j) == before[j] {
        assert all[j] != c;
      }
      if !crashed { AllVisited(before, ToClient(i, m)); }
    }
  }
}
