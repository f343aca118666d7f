/**
 The WebSocket hub as a state machine: one step per hub action. Connections are numbered in the order in
 which they register; messages are opaque. A connection's send channel is a queue of bounded capacity
 that is open or closed, and its writer takes messages from the front.
 */
module Hub {
  const CAPACITY := 256

  datatype Conn<M> = Conn(member: bool, open: bool, queue: seq<M>, topics: set<string>, consumed: seq<M>)

  datatype Action<M> =
    | Register(welcome: M)
    | Unregister(conn: nat)
    | Broadcast(message: M)
    | ToTopic(topic: string, message: M)
    | ToClient(conn: nat, message: M)
    | Subscribe(conn: nat, topic: string)
    | Unsubscribe(conn: nat, topic: string)
    | Consume(conn: nat)

  /** A state, or the panic of using a closed channel. */
  datatype State<M> = Running(conns: seq<Conn<M>>) | Crashed

  /** A non-blocking send to a registered client: a full queue evicts it and closes the channel. */
  function Offer<M>(c: Conn<M>, m: M): Conn<M> {
    if |c.queue| < CAPACITY then c.(queue := c.queue + [m])
    else c.(member := false, open := false)
  }

  function Leave<M>(c: Conn<M>): Conn<M> {
    if c.member then c.(member := false, open := false) else c
  }

  /** The writer takes the first queued message; on an empty channel it waits or, if closed, ends. */
  function Take<M>(c: Conn<M>): Conn<M> {
    if c.queue == [] then c
    else c.(queue := c.queue[1..], consumed := c.consumed + [c.queue[0]])
  }

  /** What an action does to the connection of number i; all sends but the direct one look at the member set. */
  function Touch<M>(c: Conn<M>, i: nat, a: Action<M>): Conn<M> {
    match a
    case Register(_) => c
    case Unregister(j) => if i == j then Leave(c) else c
    case Broadcast(m) => if c.member then Offer(c, m) else c
    case ToTopic(t, m) => if c.member && t in c.topics then Offer(c, m) else c
    case ToClient(j, m) => if i == j then Offer(c, m) else c
    case Subscribe(j, t) => if i == j then c.(topics := c.topics + {t}) else c
    case Unsubscribe(j, t) => if i == j then c.(topics := c.topics - {t}) else c
    case Consume(j) => if i == j then Take(c) else c
  }

  function Fresh<M>(welcome: M): Conn<M> {
    Conn(true, true, [welcome], {}, [])
  }

  /**
   Whether the action sends on, or closes, the channel of connection i. A broadcast and an unregistration
   look the client up in the member set; a direct send goes to the client it was handed.
   */
  predicate UsesChannel<M>(c: Conn<M>, i: nat, a: Action<M>) {
    match a
    case Unregister(j) => i == j && c.member
    case Broadcast(_) => c.member
    case ToTopic(t, _) => c.member && t in c.topics
    case ToClient(j, _) => i == j
    case _ => false
  }

  /** Sending on a closed channel and closing it again both panic. */
  function Step<M>(s: State<M>, a: Action<M>): State<M> {
    match s
    case Crashed => Crashed
    case Running(conns) =>
      if exists i :: 0 <= i < |conns| && UsesChannel(conns[i], i, a) && !conns[i].open then Crashed
      else
        var touched := seq(|conns|, i requires 0 <= i < |conns| => Touch(conns[i], i, a));
        Running(if a.Register? then touched + [Fresh(a.welcome)] else touched)
  }

  function Play<M>(run: seq<Action<M>>): State<M> {
    if run == [] then Running([]) else Step(Play(run[..|run| - 1]), run[|run| - 1])
  }

  lemma PlayOneMore<M>(run: seq<Action<M>>, a: Action<M>)
    ensures Play(run + [a]) == Step(Play(run), a)
  {
    assert (run + [a])[..|run|] == run;
  }

  // ----- channel safety

  ghost predicate ConnOk<M>(c: Conn<M>) {
    (c.open <==> c.member) && |c.queue| <= CAPACITY
  }

  ghost predicate Ok<M>(s: State<M>) {
    s.Running? ==> forall i :: 0 <= i < |s.conns| ==> ConnOk(s.conns[i])
  }

  /** On a channel that is open exactly for a member, only a direct send can meet a closed one. */
  lemma TouchOk<M>(c: Conn<M>, i: nat, a: Action<M>)
    requires ConnOk(c)
    ensures UsesChannel(c, i, a) && !c.open ==> a.ToClient? && a.conn == i && !c.member
    ensures !(UsesChannel(c, i, a) && !c.open) ==> ConnOk(Touch(c, i, a))
  {
  }

  /** In every reachable state a channel is closed exactly when its client has left the hub. */
  lemma {:induction false} ReachableOk<M>(run: seq<Action<M>>)
    ensures Ok(Play(run))
  {
    if run != [] {
      var before, a := run[..|run| - 1], run[|run| - 1];
      ReachableOk(before);
      if Play(run).Running? {
        forall i | 0 <= i < |Play(before).conns| ensures ConnOk(Touch(Play(before).conns[i], i, a)) {
          TouchOk(Play(before).conns[i], i, a);
        }
      }
    }
  }

  /** The client a direct send goes to is still registered. */
  ghost predicate InHub<M>(s: State<M>, a: Action<M>) {
    a.ToClient? && s.Running? && a.conn < |s.conns| ==> s.conns[a.conn].member
  }

  /**
   Every use of a closed channel panics, but only a direct send to a client that has left ever meets one:
   no broadcast, topic message or unregistration sends on, or closes, a closed channel.
   */
  lemma CrashIffSendToLeft<M>(run: seq<Action<M>>, a: Action<M>)
    requires Play(run).Running?
    ensures Step(Play(run), a).Crashed? <==> !InHub(Play(run), a)
  {
    ReachableOk(run);
    var conns := Play(run).conns;
    forall i | 0 <= i < |conns| && UsesChannel(conns[i], i, a) && !conns[i].open ensures !InHub(Play(run), a) {
      TouchOk(conns[i], i, a);
    }
    if !InHub(Play(run), a) {
      assert UsesChannel(conns[a.conn], a.conn, a) && !conns[a.conn].open;
    }
  }

  lemma LeftUntouched<M>(c: Conn<M>, i: nat, a: Action<M>)
    requires !c.member && !UsesChannel(c, i, a)
    ensures var n := Touch(c, i, a);
            !n.member && n.open == c.open && n.consumed + n.queue == c.consumed + c.queue
  {
    if a == Consume(i) && c.queue != [] { assert c.queue == [c.queue[0]] + c.queue[1..]; }
  }

  lemma StepTouches<M>(s: State<M>, a: Action<M>, i: nat)
    requires s.Running? && Step(s, a).Running? && i < |s.conns|
    ensures Step(s, a).conns[i] == Touch(s.conns[i], i, a)
    ensures UsesChannel(s.conns[i], i, a) ==> s.conns[i].open
  {
  }

  /** A client that has left never comes back, and its channel is never touched by a sender again. */
  lemma LeftForGood<M>(run: seq<Action<M>>, a: Action<M>, i: nat)
    requires Play(run).Running? && Step(Play(run), a).Running?
    requires i < |Play(run).conns| && !Play(run).conns[i].member
    ensures var before, after := Play(run).conns[i], Step(Play(run), a).conns[i];
            && !after.member && !after.open
            && before.consumed + before.queue == after.consumed + after.queue
  {
    ReachableOk(run);
    StepTouches(Play(run), a, i);
    LeftUntouched(Play(run).conns[i], i, a);
  }

  // ----- delivery

  /** The number of registrations in a run: the number the next registering connection gets. */
  function Registrations<M>(run: seq<Action<M>>): nat {
    if run == [] then 0
    else Registrations(run[..|run| - 1]) + if run[|run| - 1].Register? then 1 else 0
  }

  /** Whether connection i is subscribed to a topic: its last request about the topic decides. */
  predicate Subscribed<M>(run: seq<Action<M>>, i: nat, topic: string) {
    run != [] &&
    var before, a := run[..|run| - 1], run[|run| - 1];
    if a == Subscribe(i, topic) && i < Registrations(before) then true
    else if a == Unsubscribe(i, topic) then false
    else Subscribed(before, i, topic)
  }

  /** The message the action addresses to connection i, given the run before it. */
  function Addressed<M>(before: seq<Action<M>>, a: Action<M>, i: nat): seq<M> {
    match a
    case Register(w) => if Registrations(before) == i then [w] else []
    case Broadcast(m) => if i < Registrations(before) then [m] else []
    case ToTopic(t, m) => if i < Registrations(before) && Subscribed(before, i, t) then [m] else []
    case ToClient(j, m) => if i == j && i < Registrations(before) then [m] else []
    case _ => []
  }

  /** Everything addressed to connection i since its registration, first the welcome message. */
  function Offered<M>(run: seq<Action<M>>, i: nat): seq<M> {
    if run == [] then []
    else
      var before, a := run[..|run| - 1], run[|run| - 1];
      Offered(before, i) + Addressed(before, a, i)
  }

  /** The hub's bookkeeping is the reference: numbers and subscriptions are those of the run. */
  lemma {:induction false} Bookkeeping<M>(run: seq<Action<M>>)
    requires Play(run).Running?
    ensures |Play(run).conns| == Registrations(run)
    ensures forall i, t :: 0 <= i < |Play(run).conns| ==> (t in Play(run).conns[i].topics <==> Subscribed(run, i, t))
  {
    if run != [] {
      var before, a := run[..|run| - 1], run[|run| - 1];
      Bookkeeping(before);
      forall i, t | 0 <= i < |Play(run).conns|
        ensures t in Play(run).conns[i].topics <==> Subscribed(run, i, t)
      {
        if i == Registrations(before) {
          NotYetSubscribed(before, i, t);
        }
      }
    }
  }

  lemma {:induction false} NotYetSubscribed<M>(run: seq<Action<M>>, i: nat, t: string)
    requires i >= Registrations(run)
    ensures !Subscribed(run, i, t)
  {
    if run != [] { NotYetSubscribed(run[..|run| - 1], i, t); }
  }

  lemma {:induction false} NotYetOffered<M>(run: seq<Action<M>>, i: nat)
    requires i >= Registrations(run)
    ensures Offered(run, i) == []
  {
    if run != [] { NotYetOffered(run[..|run| - 1], i); }
  }

  /** What the client's writer has sent and what waits for it, in order. */
  function Delivered<M>(c: Conn<M>): seq<M> {
    c.consumed + c.queue
  }

  /** The message an action sends to a member, by the member's own topics. */
  function Sent<M>(c: Conn<M>, i: nat, a: Action<M>): seq<M> {
    match a
    case Broadcast(m) => [m]
    case ToTopic(t, m) => if t in c.topics then [m] else []
    case ToClient(j, m) => if i == j then [m] else []
    case _ => []
  }

  /** One action on one member: it leaves on its unregistration or on a message its queue has no room for. */
  lemma TouchMember<M>(c: Conn<M>, i: nat, a: Action<M>)
    requires ConnOk(c) && c.member
    ensures var n := Touch(c, i, a);
            && (n.member <==> a != Unregister(i) && (Sent(c, i, a) == [] || |c.queue| < CAPACITY))
            && Delivered(n) == Delivered(c) + if n.member then Sent(c, i, a) else []
  {
    if a == Consume(i) && c.queue != [] {
      assert c.queue == [c.queue[0]] + c.queue[1..];
    }
  }

  /** By the hub's bookkeeping, what is sent to a connection is what the run addresses to it. */
  lemma SentIsAddressed<M>(before: seq<Action<M>>, a: Action<M>, i: nat)
    requires Play(before).Running? && i < |Play(before).conns|
    ensures Sent(Play(before).conns[i], i, a) == Addressed(before, a, i)
  {
    Bookkeeping(before);
  }

  /**
   For a registered client, consumed and queued messages together are exactly what was offered to it;
   for one that has left they are a prefix of that: nothing is skipped and a later message delivered.
   */
  lemma {:induction false} DeliveryGapFree<M>(run: seq<Action<M>>, i: nat)
    requires Play(run).Running? && i < |Play(run).conns|
    ensures var c := Play(run).conns[i];
            if c.member then Delivered(c) == Offered(run, i) else Delivered(c) <= Offered(run, i)
  {
    var before, a := run[..|run| - 1], run[|run| - 1];
    ReachableOk(before);
    if i == |Play(before).conns| {
      Bookkeeping(before);
      NotYetOffered(before, i);
    } else {
      DeliveryGapFree(before, i);
      var c := Play(before).conns[i];
      if c.member {
        TouchMember(c, i, a);
        SentIsAddressed(before, a, i);
      } else {
        LeftForGood(before, a, i);
      }
    }
  }

  /**
   A registered client leaves exactly when it unregisters or when a message addressed to it finds its
   queue full; that message, and with LeftForGood everything after it, is not delivered.
   */
  lemma LeavesExactlyWhen<M>(run: seq<Action<M>>, a: Action<M>, i: nat)
    requires Play(run).Running? && i < |Play(run).conns| && Play(run).conns[i].member
    requires Step(Play(run), a).Running?
    ensures var c, n := Play(run).conns[i], Step(Play(run), a).conns[i];
            && (!n.member <==> a == Unregister(i) || (Addressed(run, a, i) != [] && |c.queue| == 256))
            && (!n.member ==> Delivered(n) == Offered(run, i))
  {
    ReachableOk(run);
    TouchMember(Play(run).conns[i], i, a);
    SentIsAddressed(run, a, i);
    DeliveryGapFree(run, i);
  }

  // ----- the writer delivers

  /** The oldest queued message, if there is one, has gone from the queue to the client. */
  function SendOldest<M>(c: Conn<M>): Conn<M> {
    if c.queue == [] then c else c.(queue := c.queue[1..], consumed := c.consumed + [c.queue[0]])
  }

  /** One round of the writer of connection i sends its oldest queued message, and nothing else changes. */
  lemma ConsumeDelivers<M>(s: State<M>, i: nat)
    requires s.Running? && i < |s.conns|
    ensures Step(s, Consume(i)) == Running(s.conns[i := SendOldest(s.conns[i])])
  {
    assert forall j :: 0 <= j < |s.conns| ==> !UsesChannel(s.conns[j], j, Consume(i));
  }

  /** The connection as it is in a running state. */
  ghost predicate HasConn<M>(s: State<M>, i: nat, c: Conn<M>) {
    s.Running? && i < |s.conns| && s.conns[i] == c
  }

  lemma ConsumeSends<M>(s: State<M>, i: nat, c: Conn<M>)
    requires HasConn(s, i, c)
    ensures HasConn(Step(s, Consume(i)), i, SendOldest(c))
  {
    ConsumeDelivers(s, i);
  }

  function Rounds<M>(i: nat, n: nat): seq<Action<M>> {
    if n == 0 then [] else Rounds(i, n - 1) + [Consume(i)]
  }

  function Sending<M>(c: Conn<M>, n: nat): Conn<M> {
    if n == 0 then c else SendOldest(Sending(c, n - 1))
  }

  lemma {:induction false} SendingMoves<M>(c: Conn<M>, n: nat)
    ensures Delivered(Sending(c, n)) == Delivered(c)
    ensures |Sending(c, n).queue| == if n < |c.queue| then |c.queue| - n else 0
  {
    if n > 0 {
      SendingMoves(c, n - 1);
      var s := Sending(c, n - 1);
      if s.queue != [] { assert s.queue == [s.queue[0]] + s.queue[1..]; }
    }
  }

  lemma {:induction false} RoundsSend<M>(run: seq<Action<M>>, i: nat, c: Conn<M>, n: nat)
    requires HasConn(Play(run), i, c)
    ensures HasConn(Play(run + Rounds(i, n)), i, Sending(c, n))
  {
    if n == 0 {
      assert run + Rounds(i, 0) == run;
    } else {
      var before := run + Rounds(i, n - 1);
      RoundsSend(run, i, c, n - 1);
      ConsumeSends(Play(before), i, Sending(c, n - 1));
      PlayOneMore(before, Consume(i));
      assert run + Rounds(i, n) == before + [Consume(i)];
    }
  }

  /**
   A writer that gets as many rounds as there are queued messages has sent its client, in order, everything
   that was queued; a member has then been sent exactly what was offered to it, the welcome first.
   */
  lemma ReaderGetsAll<M>(run: seq<Action<M>>, i: nat, n: nat)
    requires Play(run).Running? && i < |Play(run).conns| && n >= |Play(run).conns[i].queue|
    ensures var after := Play(run + Rounds(i, n));
            && after.Running? && i < |after.conns| && after.conns[i].queue == []
            && after.conns[i].consumed == Play(run).conns[i].consumed + Play(run).conns[i].queue
            && (Play(run).conns[i].member ==> after.conns[i].consumed == Offered(run, i))
  {
    var c := Play(run).conns[i];
    RoundsSend(run, i, c, n);
    SendingMoves(c, n);
    DeliveryGapFree(run, i);
  }

  // ----- the crash is reachable

  function Flood<M>(m: M, n: nat): seq<Action<M>> {
    if n == 0 then [Register(m)] else Flood(m, n - 1) + [Broadcast(m)]
  }

  lemma FirstRegisters<M>(m: M)
    ensures Play([Register(m)]) == Running([Fresh(m)])
  {
    assert [Register(m)][..0] == [];
  }

  lemma BroadcastToOne<M>(c: Conn<M>, m: M)
    requires ConnOk(c)
    ensures Step(Running([c]), Broadcast(m)) == Running([if c.member then Offer(c, m) else c])
  {
  }

  lemma {:induction false} FloodFills<M>(m: M, n: nat) returns (c: Conn<M>)
    requires n <= CAPACITY
    ensures Play(Flood(m, n)) == Running([c]) && ConnOk(c)
    ensures if n < CAPACITY then c.member && |c.queue| == n + 1 else !c.open
  {
    if n == 0 {
      FirstRegisters(m);
      return Fresh(m);
    }
    c := FloodFills(m, n - 1);
    PlayOneMore(Flood(m, n - 1), Broadcast(m));
    BroadcastToOne(c, m);
    c := Offer(c, m);
  }

  /**
   A client that does not read is evicted by the broadcasts that fill its queue; the reply to its next
   ping or malformed message then sends on the closed channel.
   */
  lemma EvictedPingCrashes<M>(m: M)
    ensures Play(Flood(m, CAPACITY) + [ToClient(0, m)]).Crashed?
  {
    var c := FloodFills(m, CAPACITY);
    PlayOneMore(Flood(m, CAPACITY), ToClient(0, m));
    assert UsesChannel([c][0], 0, ToClient(0, m));
  }
}
