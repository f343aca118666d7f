/**
 Node discovery: the table of nodes, the scan that enters what it observes, the sweep that drops what was
 not seen for three intervals, and the events both emit. Times are integers; of a node only its service
 type and the time it was last seen are kept. Handlers start in the order in which events are emitted.
 */
module Discovery {
  import opened Options

  const STATIC := "static"

  datatype Node = Node(id: string, serviceType: string, lastSeen: int)

  datatype Kind = Discovered | Updated | Lost

  datatype Event = Event(kind: Kind, id: string)

  datatype Service = Service(nodes: map<string, Node>, events: seq<Event>)

  const EMPTY := Service(map[], [])

  function Enter(s: Service, n: Node): Service {
    Service(s.nodes[n.id := n], s.events + [Event(Discovered, n.id)])
  }

  /** One observed node of a scan: a known one is only seen again, a new one is entered as observed. */
  function Observe(s: Service, n: Node): Service {
    if n.id in s.nodes then
      Service(s.nodes[n.id := s.nodes[n.id].(lastSeen := n.lastSeen)], s.events + [Event(Updated, n.id)])
    else
      Enter(s, n)
  }

  function Scan(s: Service, observed: seq<Node>): Service
    decreases |observed|
  {
    if observed == [] then s else Scan(Observe(s, observed[0]), observed[1..])
  }

  /** Loading the static nodes overwrites whatever their IDs held. */
  function LoadStatic(s: Service, loaded: seq<Node>): Service
    decreases |loaded|
  {
    if loaded == [] then s else LoadStatic(Enter(s, loaded[0]), loaded[1..])
  }

  predicate Stale(n: Node, interval: int, now: int) {
    n.serviceType != STATIC && n.lastSeen < now - 3 * interval
  }

  /** The IDs the first pass of a sweep collects. */
  function StaleIds(s: Service, interval: int, now: int): set<string> {
    set id | id in s.nodes && Stale(s.nodes[id], interval, now)
  }

  /** The second pass: drops the collected nodes in the order in which they were collected. */
  function Drop(s: Service, ids: seq<string>): Service
    decreases |ids|
  {
    if ids == [] then s else Drop(Service(s.nodes - {ids[0]}, s.events + [Event(Lost, ids[0])]), ids[1..])
  }

  /** The order in which a sweep visits the table is open; it lists the stale nodes once each. */
  ghost predicate Collects(s: Service, interval: int, now: int, ids: seq<string>) {
    && (forall id :: id in ids <==> id in StaleIds(s, interval, now))
    && forall i, j :: 0 <= i < j < |ids| ==> ids[i] != ids[j]
  }

  datatype Action =
    | DoLoad(loaded: seq<Node>)
    | DoScan(observed: seq<Node>)
    | DoSweep(now: int, ids: seq<string>)

  /** A sweep is allowed only with the IDs it collects. */
  ghost predicate Allowed(s: Service, interval: int, a: Action) {
    a.DoSweep? ==> Collects(s, interval, a.now, a.ids)
  }

  function Step(s: Service, a: Action): Service {
    match a
    case DoLoad(loaded) => LoadStatic(s, loaded)
    case DoScan(observed) => Scan(s, observed)
    case DoSweep(_, ids) => Drop(s, ids)
  }

  function Play(run: seq<Action>): Service {
    if run == [] then EMPTY else Step(Play(run[..|run| - 1]), run[|run| - 1])
  }

  ghost predicate Legal(run: seq<Action>, interval: int) {
    run == [] ||
    (Legal(run[..|run| - 1], interval) && Allowed(Play(run[..|run| - 1]), interval, run[|run| - 1]))
  }

  // ----- the event log of one node

  /** An automaton over the events of one ID: None is a violation, otherwise whether the node is present. */
  function Follow(events: seq<Event>, id: string): Option<bool> {
    if events == [] then Some(false)
    else
      var n := |events| - 1;
      var before := Follow(events[..n], id);
      if before == None || events[n].id != id then before
      else if events[n].kind == Discovered && !before.value then Some(true)
      else if events[n].kind == Updated && before.value then before
      else if events[n].kind == Lost && before.value then Some(false)
      else None
  }

  /**
   The log of the ID has the form (Discovered Updated* Lost)* with at most one unfinished group, which is
   open exactly while the node is in the table.
   */
  ghost predicate LogMatches(s: Service, id: string) {
    Follow(s.events, id) == Some(id in s.nodes)
  }

  lemma EmitFollows(events: seq<Event>, e: Event, id: string)
    ensures var before := Follow(events, id);
            Follow(events + [e], id) ==
            if before == None || e.id != id then before
            else if e.kind == Discovered && !before.value then Some(true)
            else if e.kind == Updated && before.value then before
            else if e.kind == Lost && before.value then Some(false)
            else None
  {
    assert (events + [e])[..|events|] == events;
  }

  lemma {:induction false} ScanMatches(s: Service, observed: seq<Node>, id: string)
    requires LogMatches(s, id)
    ensures LogMatches(Scan(s, observed), id)
    decreases |observed|
  {
    if observed != [] {
      var n := observed[0];
      EmitFollows(s.events, Event(if n.id in s.nodes then Updated else Discovered, n.id), id);
      ScanMatches(Observe(s, n), observed[1..], id);
    }
  }

  lemma {:induction false} DropMatches(s: Service, ids: seq<string>, id: string)
    requires LogMatches(s, id) && forall i :: 0 <= i < |ids| ==> ids[i] in s.nodes
    requires forall i, j :: 0 <= i < j < |ids| ==> ids[i] != ids[j]
    ensures LogMatches(Drop(s, ids), id)
    decreases |ids|
  {
    if ids != [] {
      EmitFollows(s.events, Event(Lost, ids[0]), id);
      DropMatches(Service(s.nodes - {ids[0]}, s.events + [Event(Lost, ids[0])]), ids[1..], id);
    }
  }

  lemma {:induction false} LoadMatches(s: Service, loaded: seq<Node>, id: string)
    requires LogMatches(s, id) && forall n :: n in loaded ==> n.id != id
    ensures LogMatches(LoadStatic(s, loaded), id)
    decreases |loaded|
  {
    if loaded != [] {
      assert loaded[0] in loaded;
      EmitFollows(s.events, Event(Discovered, loaded[0].id), id);
      LoadMatches(Enter(s, loaded[0]), loaded[1..], id);
    }
  }

  /** The ID is never loaded from the static configuration. */
  ghost predicate NeverLoaded(run: seq<Action>, id: string) {
    forall a :: a in run && a.DoLoad? ==> forall n :: n in a.loaded ==> n.id != id
  }

  /**
   In every run, the events of an ID that is not loaded statically alternate properly, and replaying them
   tells whether the node is in the table: the log rebuilds the non-static key set.
   */
  lemma {:induction false} LogsMatch(run: seq<Action>, interval: int, id: string)
    requires Legal(run, interval) && NeverLoaded(run, id)
    ensures LogMatches(Play(run), id)
  {
    if run != [] {
      var before, a := run[..|run| - 1], run[|run| - 1];
      assert a in run && forall x :: x in before ==> x in run;
      LogsMatch(before, interval, id);
      var s := Play(before);
      match a
      case DoLoad(loaded) => LoadMatches(s, loaded, id);
      case DoScan(observed) => ScanMatches(s, observed, id);
      case DoSweep(now, ids) =>
        assert forall i :: 0 <= i < |ids| ==> ids[i] in ids;
        DropMatches(s, ids, id);
    }
  }

  // ----- what a sweep drops, and when

  lemma {:induction false} DropRemoves(s: Service, ids: seq<string>)
    ensures Drop(s, ids).nodes == s.nodes - (set i | 0 <= i < |ids| :: ids[i])
    ensures |Drop(s, ids).events| == |s.events| + |ids|
    decreases |ids|
  {
    if ids != [] {
      var t := Service(s.nodes - {ids[0]}, s.events + [Event(Lost, ids[0])]);
      DropRemoves(t, ids[1..]);
      assert (set i | 0 <= i < |ids| :: ids[i]) == {ids[0]} + (set i | 0 <= i < |ids[1..]| :: ids[1..][i]) by {
        assert forall i :: 1 <= i < |ids| ==> ids[i] == ids[1..][i - 1];
      }
    }
  }

  /** A sweep drops a node exactly when it is not static and has been unseen for more than three intervals. */
  lemma SweepDropsIff(s: Service, interval: int, now: int, ids: seq<string>, id: string)
    requires Collects(s, interval, now, ids) && id in s.nodes
    ensures id !in Drop(s, ids).nodes <==>
            s.nodes[id].serviceType != "static" && now - s.nodes[id].lastSeen > 3 * interval
    ensures id in Drop(s, ids).nodes ==> Drop(s, ids).nodes[id] == s.nodes[id]
  {
    DropRemoves(s, ids);
    if id in StaleIds(s, interval, now) { assert id in ids; }
  }

  /** The node is not static, and was last seen no later than t. */
  ghost predicate LastSeenBy(s: Service, id: string, t: int) {
    id in s.nodes ==> s.nodes[id].serviceType != STATIC && s.nodes[id].lastSeen <= t
  }

  ghost predicate Unseen(run: seq<Action>, id: string) {
    NeverLoaded(run, id) && forall a :: a in run && a.DoScan? ==> forall n :: n in a.observed ==> n.id != id
  }

  function Continue(s: Service, run: seq<Action>): Service
    decreases |run|
  {
    if run == [] then s else Continue(Step(s, run[0]), run[1..])
  }

  ghost predicate LegalFrom(s: Service, run: seq<Action>, interval: int)
    decreases |run|
  {
    run == [] || (Allowed(s, interval, run[0]) && LegalFrom(Step(s, run[0]), run[1..], interval))
  }

  lemma {:induction false} ScanLeaves(s: Service, observed: seq<Node>, id: string)
    requires forall n :: n in observed ==> n.id != id
    ensures id in Scan(s, observed).nodes <==> id in s.nodes
    ensures id in s.nodes ==> Scan(s, observed).nodes[id] == s.nodes[id]
    decreases |observed|
  {
    if observed != [] {
      assert observed[0] in observed;
      ScanLeaves(Observe(s, observed[0]), observed[1..], id);
    }
  }

  lemma {:induction false} LoadLeaves(s: Service, loaded: seq<Node>, id: string)
    requires forall n :: n in loaded ==> n.id != id
    ensures id in LoadStatic(s, loaded).nodes <==> id in s.nodes
    ensures id in s.nodes ==> LoadStatic(s, loaded).nodes[id] == s.nodes[id]
    decreases |loaded|
  {
    if loaded != [] {
      assert loaded[0] in loaded;
      LoadLeaves(Enter(s, loaded[0]), loaded[1..], id);
    }
  }

  lemma StepUnseen(s: Service, a: Action, interval: int, id: string, t: int)
    requires Allowed(s, interval, a) && Unseen([a], id) && LastSeenBy(s, id, t)
    ensures LastSeenBy(Step(s, a), id, t) && (id !in s.nodes ==> id !in Step(s, a).nodes)
    ensures a.DoSweep? && a.now > t + 3 * interval ==> id !in Step(s, a).nodes
  {
    assert a in [a];
    match a
    case DoLoad(loaded) => LoadLeaves(s, loaded, id);
    case DoScan(observed) => ScanLeaves(s, observed, id);
    case DoSweep(now, ids) =>
      DropRemoves(s, ids);
      if id in s.nodes { SweepDropsIff(s, interval, now, ids, id); }
  }

  /**
   A node last seen at t that is not seen again is gone for good after the first sweep later than three
   intervals after t.
   */
  lemma {:induction false} GoneAfterSweep(s: Service, run: seq<Action>, interval: int, id: string, t: int, k: nat)
    requires LegalFrom(s, run, interval) && Unseen(run, id) && LastSeenBy(s, id, t)
    requires k < |run| && run[k].DoSweep? && run[k].now > t + 3 * interval
    ensures id !in Continue(s, run).nodes
    decreases |run|
  {
    UnseenParts(run, id);
    StepUnseen(s, run[0], interval, id, t);
    if k == 0 {
      StaysGone(Step(s, run[0]), run[1..], interval, id, t);
    } else {
      assert run[1..][k - 1] == run[k];
      GoneAfterSweep(Step(s, run[0]), run[1..], interval, id, t, k - 1);
    }
  }

  lemma UnseenParts(run: seq<Action>, id: string)
    requires run != [] && Unseen(run, id)
    ensures Unseen([run[0]], id) && Unseen(run[1..], id)
  {
    assert run[0] in run && forall x :: x in run[1..] ==> x in run;
  }

  lemma {:induction false} StaysGone(s: Service, run: seq<Action>, interval: int, id: string, t: int)
    requires LegalFrom(s, run, interval) && Unseen(run, id) && id !in s.nodes
    ensures id !in Continue(s, run).nodes
    decreases |run|
  {
    if run != [] {
      UnseenParts(run, id);
      StepUnseen(s, run[0], interval, id, t);
      StaysGone(Step(s, run[0]), run[1..], interval, id, t);
    }
  }

  /**
   Sweep times two intervals apart from the first one on: among them is one later than t + 3 and no later
   than t + 5 intervals, as long as they start in time and go on long enough.
   */
  lemma SweepInTime(times: seq<int>, interval: int, t: int) returns (k: nat)
    requires interval > 0 && times != [] && times[0] <= t + 5 * interval
    requires forall i :: 0 < i < |times| ==> times[i] <= times[i - 1] + 2 * interval
    requires times[|times| - 1] > t + 3 * interval
    ensures k < |times| && t + 3 * interval < times[k] <= t + 5 * interval
  {
    k := 0;
    while times[k] <= t + 3 * interval
      invariant 0 <= k < |times| && times[k] <= t + 5 * interval
      decreases |times| - k
    {
      k := k + 1;
    }
  }

  lemma {:induction false} LegalPrefix(s: Service, run: seq<Action>, interval: int, p: nat)
    requires LegalFrom(s, run, interval) && p <= |run|
    ensures LegalFrom(s, run[..p], interval)
    decreases p
  {
    if p > 0 {
      LegalPrefix(Step(s, run[0]), run[1..], interval, p - 1);
      assert run[..p][1..] == run[1..][..p - 1];
    }
  }

  /**
   With sweeps every two intervals, at the listed positions of the run, a node last seen at t and not seen
   again is gone, and stays gone, from a sweep no later than five intervals after t.
   */
  lemma GoneInTime(s: Service, run: seq<Action>, interval: int, id: string, t: int, sweeps: seq<nat>) returns (k: nat)
    requires LegalFrom(s, run, interval) && Unseen(run, id) && LastSeenBy(s, id, t)
    requires forall i :: 0 <= i < |sweeps| ==> sweeps[i] < |run| && run[sweeps[i]].DoSweep?
    requires interval > 0 && sweeps != [] && run[sweeps[0]].now <= t + 5 * interval
    requires forall i :: 0 < i < |sweeps| ==> run[sweeps[i]].now <= run[sweeps[i - 1]].now + 2 * interval
    requires run[sweeps[|sweeps| - 1]].now > t + 3 * interval
    ensures k < |run| && run[k].DoSweep? && run[k].now <= t + 5 * interval
    ensures forall p :: k < p <= |run| ==> id !in Continue(s, run[..p]).nodes
  {
    var times := seq(|sweeps|, i requires 0 <= i < |sweeps| => run[sweeps[i]].now);
    var j := SweepInTime(times, interval, t);
    k := sweeps[j];
    forall p | k < p <= |run| ensures id !in Continue(s, run[..p]).nodes {
      LegalPrefix(s, run, interval, p);
      assert forall a :: a in run[..p] ==> a in run;
      GoneAfterSweep(s, run[..p], interval, id, t, k);
    }
  }

  // ----- the time a node was last seen is its last observation

  function LastIn(observed: seq<Node>, id: string): Option<int> {
    if observed == [] then None
    else
      var n := |observed| - 1;
      if observed[n].id == id then Some(observed[n].lastSeen) else LastIn(observed[..n], id)
  }

  function LastObserved(run: seq<Action>, id: string): Option<int> {
    if run == [] then None
    else
      var n := |run| - 1;
      if run[n].DoScan? && LastIn(run[n].observed, id).Some? then LastIn(run[n].observed, id)
      else LastObserved(run[..n], id)
  }

  lemma {:induction false} LastInTail(observed: seq<Node>, id: string)
    requires observed != []
    ensures LastIn(observed, id) ==
            if LastIn(observed[1..], id).Some? then LastIn(observed[1..], id)
            else if observed[0].id == id then Some(observed[0].lastSeen) else None
  {
    var n := |observed| - 1;
    if n > 0 && observed[n].id != id {
      LastInTail(observed[..n], id);
      assert observed[..n][1..] == observed[1..][..n - 1];
    }
  }

  lemma {:induction false} ScanSees(s: Service, observed: seq<Node>, id: string)
    ensures var t := Scan(s, observed); var last := LastIn(observed, id);
            && (id in t.nodes <==> id in s.nodes || last.Some?)
            && (last.Some? ==> t.nodes[id].lastSeen == last.value)
            && (last == None && id in s.nodes ==> t.nodes[id] == s.nodes[id])
    decreases |observed|
  {
    if observed != [] {
      LastInTail(observed, id);
      ScanSees(Observe(s, observed[0]), observed[1..], id);
    }
  }

  /** For an ID that is not loaded statically, a node in the table carries the time of its last observation. */
  lemma {:induction false} LastSeenIsLastObserved(run: seq<Action>, interval: int, id: string)
    requires Legal(run, interval) && NeverLoaded(run, id) && id in Play(run).nodes
    ensures LastObserved(run, id) == Some(Play(run).nodes[id].lastSeen)
  {
    var before, a := run[..|run| - 1], run[|run| - 1];
    assert a in run && forall x :: x in before ==> x in run;
    var s := Play(before);
    match a
    case DoLoad(loaded) =>
      LoadLeaves(s, loaded, id);
      LastSeenIsLastObserved(before, interval, id);
    case DoScan(observed) =>
      ScanSees(s, observed, id);
      if LastIn(observed, id) == None { LastSeenIsLastObserved(before, interval, id); }
    case DoSweep(now, ids) =>
      DropRemoves(s, ids);
      LastSeenIsLastObserved(before, interval, id);
  }

  // ----- what is stored about a node, and when it goes, over runs from the empty table

  /** The service type of the first observation of the ID. */
  function FirstTypeIn(observed: seq<Node>, id: string): Option<string>
    decreases |observed|
  {
    if observed == [] then None
    else if observed[0].id == id then Some(observed[0].serviceType)
    else FirstTypeIn(observed[1..], id)
  }

  lemma {:induction false} ScanTypes(s: Service, observed: seq<Node>, id: string)
    ensures var t, first := Scan(s, observed), FirstTypeIn(observed, id);
            && (id in s.nodes ==> id in t.nodes && t.nodes[id].serviceType == s.nodes[id].serviceType)
            && (id !in s.nodes && first.Some? ==> id in t.nodes && t.nodes[id].serviceType == first.value)
            && (id !in s.nodes && first == None ==> id !in t.nodes)
    decreases |observed|
  {
    if observed != [] { ScanTypes(Observe(s, observed[0]), observed[1..], id); }
  }

  /** The type of the observation that entered the node: the first one of the first scan that saw it while absent. */
  function EnteredAs(run: seq<Action>, id: string): Option<string> {
    if run == [] then None
    else
      var before, a := run[..|run| - 1], run[|run| - 1];
      if a.DoScan? && id !in Play(before).nodes then FirstTypeIn(a.observed, id) else EnteredAs(before, id)
  }

  /** A node whose ID is never loaded carries the service type of the observation that entered it. */
  lemma {:induction false} TypeIsAsEntered(run: seq<Action>, id: string)
    requires NeverLoaded(run, id) && id in Play(run).nodes
    ensures EnteredAs(run, id) == Some(Play(run).nodes[id].serviceType)
  {
    var before, a := run[..|run| - 1], run[|run| - 1];
    assert a in run && forall x :: x in before ==> x in run;
    var s := Play(before);
    match a
    case DoLoad(loaded) =>
      LoadLeaves(s, loaded, id);
      TypeIsAsEntered(before, id);
    case DoScan(observed) =>
      ScanTypes(s, observed, id);
      if id in s.nodes { TypeIsAsEntered(before, id); }
    case DoSweep(now, ids) =>
      DropRemoves(s, ids);
      TypeIsAsEntered(before, id);
  }

  /** No observation of the ID in the run has the type of a static node. */
  ghost predicate SeenDynamic(run: seq<Action>, id: string) {
    forall a :: a in run && a.DoScan? ==> forall n :: n in a.observed && n.id == id ==> n.serviceType != "static"
  }

  lemma {:induction false} FirstTypeSeen(observed: seq<Node>, id: string)
    requires FirstTypeIn(observed, id).Some?
    ensures exists n :: n in observed && n.id == id && n.serviceType == FirstTypeIn(observed, id).value
    decreases |observed|
  {
    if observed[0].id == id {
      assert observed[0] in observed;
    } else {
      FirstTypeSeen(observed[1..], id);
      assert forall n :: n in observed[1..] ==> n in observed;
    }
  }

  lemma {:induction false} EnteredDynamic(run: seq<Action>, id: string)
    requires SeenDynamic(run, id) && EnteredAs(run, id).Some?
    ensures EnteredAs(run, id).value != "static"
  {
    var before, a := run[..|run| - 1], run[|run| - 1];
    assert a in run && forall x :: x in before ==> x in run;
    if a.DoScan? && id !in Play(before).nodes {
      FirstTypeSeen(a.observed, id);
    } else {
      EnteredDynamic(before, id);
    }
  }

  lemma {:induction false} PlayContinues(before: seq<Action>, rest: seq<Action>)
    ensures Play(before + rest) == Continue(Play(before), rest)
    decreases |rest|
  {
    if rest == [] {
      assert before + rest == before;
    } else {
      assert before + rest == before + [rest[0]] + rest[1..];
      assert (before + [rest[0]])[..|before|] == before;
      PlayContinues(before + [rest[0]], rest[1..]);
    }
  }

  lemma {:induction false} LegalSplits(before: seq<Action>, rest: seq<Action>, interval: int)
    requires Legal(before + rest, interval)
    ensures Legal(before, interval) && LegalFrom(Play(before), rest, interval)
    decreases |rest|
  {
    if rest == [] {
      assert before + rest == before;
    } else {
      assert before + rest == before + [rest[0]] + rest[1..];
      assert (before + [rest[0]])[..|before|] == before;
      LegalSplits(before + [rest[0]], rest[1..], interval);
    }
  }

  /** The ID is never loaded, is seen dynamic and last at time t if at all in before, and not at all in rest. */
  ghost predicate LastSeenAt(before: seq<Action>, rest: seq<Action>, interval: int, id: string, t: int) {
    && Legal(before + rest, interval) && NeverLoaded(before, id) && SeenDynamic(before, id)
    && (LastObserved(before, id).Some? ==> LastObserved(before, id).value == t) && Unseen(rest, id)
  }

  lemma LastSeenAtHolds(before: seq<Action>, rest: seq<Action>, interval: int, id: string, t: int)
    requires LastSeenAt(before, rest, interval, id, t)
    ensures LegalFrom(Play(before), rest, interval) && LastSeenBy(Play(before), id, t)
  {
    LegalSplits(before, rest, interval);
    if id in Play(before).nodes {
      LastSeenIsLastObserved(before, interval, id);
      TypeIsAsEntered(before, id);
      EnteredDynamic(before, id);
    }
  }

  /** From the empty table: a node last seen at t is gone for good after a sweep later than three intervals. */
  lemma GoneForGood(before: seq<Action>, rest: seq<Action>, interval: int, id: string, t: int, k: nat)
    requires LastSeenAt(before, rest, interval, id, t)
    requires k < |rest| && rest[k].DoSweep? && rest[k].now > t + 3 * interval
    ensures id !in Play(before + rest).nodes
  {
    LastSeenAtHolds(before, rest, interval, id, t);
    GoneAfterSweep(Play(before), rest, interval, id, t, k);
    PlayContinues(before, rest);
  }

  /** And with sweeps every two intervals it is gone, and stays gone, from one no later than five intervals after t. */
  lemma GoneInFive(before: seq<Action>, rest: seq<Action>, interval: int, id: string, t: int, sweeps: seq<nat>)
    returns (k: nat)
    requires LastSeenAt(before, rest, interval, id, t)
    requires forall i :: 0 <= i < |sweeps| ==> sweeps[i] < |rest| && rest[sweeps[i]].DoSweep?
    requires interval > 0 && sweeps != [] && rest[sweeps[0]].now <= t + 5 * interval
    requires forall i :: 0 < i < |sweeps| ==> rest[sweeps[i]].now <= rest[sweeps[i - 1]].now + 2 * interval
    requires rest[sweeps[|sweeps| - 1]].now > t + 3 * interval
    ensures k < |rest| && rest[k].DoSweep? && rest[k].now <= t + 5 * interval
    ensures forall p :: k < p <= |rest| ==> id !in Play(before + rest[..p]).nodes
  {
    LastSeenAtHolds(before, rest, interval, id, t);
    k := GoneInTime(Play(before), rest, interval, id, t, sweeps);
    forall p | k < p <= |rest| ensures id !in Play(before + rest[..p]).nodes {
      PlayContinues(before, rest[..p]);
    }
  }

  // ----- static nodes stay

  function LastLoaded(loaded: seq<Node>, id: string): Option<Node> {
    if loaded == [] then None
    else
      var n := |loaded| - 1;
      if loaded[n].id == id then Some(loaded[n]) else LastLoaded(loaded[..n], id)
  }

  lemma {:induction false} LoadAppend(s: Service, loaded: seq<Node>, n: Node)
    ensures LoadStatic(s, loaded + [n]) == Enter(LoadStatic(s, loaded), n)
    decreases |loaded|
  {
    if loaded == [] {
      assert [n][1..] == [];
    } else {
      assert (loaded + [n])[1..] == loaded[1..] + [n];
      LoadAppend(Enter(s, loaded[0]), loaded[1..], n);
    }
  }

  /** After loading, each loaded ID holds the node loaded last, and one event was emitted for every loaded node. */
  lemma {:induction false} LoadStores(s: Service, loaded: seq<Node>, id: string)
    ensures var t := LoadStatic(s, loaded);
            && (match LastLoaded(loaded, id)
                case Some(n) => id in t.nodes && t.nodes[id] == n
                case None => (id in t.nodes <==> id in s.nodes) && (id in s.nodes ==> t.nodes[id] == s.nodes[id]))
            && |t.events| == |s.events| + |loaded|
            && (forall i :: 0 <= i < |loaded| ==> t.events[|s.events| + i] == Event(Discovered, loaded[i].id))
    decreases |loaded|
  {
    if loaded != [] {
      var n := |loaded| - 1;
      LoadStores(s, loaded[..n], id);
      LoadAppend(s, loaded[..n], loaded[n]);
      assert loaded == loaded[..n] + [loaded[n]];
    }
  }

  ghost predicate IsStatic(s: Service, id: string) {
    id in s.nodes && s.nodes[id].serviceType == "static"
  }

  lemma StaticStep(s: Service, a: Action, interval: int, id: string)
    requires IsStatic(s, id) && Allowed(s, interval, a) && NeverLoaded([a], id)
    ensures IsStatic(Step(s, a), id)
  {
    assert a in [a];
    match a
    case DoLoad(loaded) => LoadLeaves(s, loaded, id);
    case DoScan(observed) => ScanTypes(s, observed, id);
    case DoSweep(now, ids) => SweepDropsIff(s, interval, now, ids, id);
  }

  lemma {:induction false} StaticContinues(s: Service, run: seq<Action>, interval: int, id: string)
    requires IsStatic(s, id) && LegalFrom(s, run, interval) && NeverLoaded(run, id)
    ensures IsStatic(Continue(s, run), id)
    decreases |run|
  {
    if run != [] {
      assert run[0] in run && forall x :: x in run[1..] ==> x in run;
      StaticStep(s, run[0], interval, id);
      StaticContinues(Step(s, run[0]), run[1..], interval, id);
    }
  }

  /** A node loaded as static is in the table for ever, however long it is not seen. */
  lemma StaticStays(before: seq<Action>, loaded: seq<Node>, rest: seq<Action>, interval: int, id: string)
    requires Legal(before + [DoLoad(loaded)] + rest, interval) && NeverLoaded(rest, id)
    requires LastLoaded(loaded, id).Some? && LastLoaded(loaded, id).value.serviceType == "static"
    ensures IsStatic(Play(before + [DoLoad(loaded)] + rest), id)
  {
    var run := before + [DoLoad(loaded)];
    LegalSplits(run, rest, interval);
    PlayContinues(run, rest);
    assert run[..|before|] == before;
    LoadStores(Play(before), loaded, id);
    StaticContinues(Play(run), rest, interval, id);
  }
}
