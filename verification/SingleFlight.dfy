/**
 Any number of callers of connectWithRetry, Connect and Disconnect, interleaved where the lock is taken
 and released. A caller's phase is where it stands; every action is one critical section or one wait.
 */
module SingleFlight {
  import opened Options
  import opened Backoff

  datatype Phase =
    | Outside
    | Trying(attempt: nat, delay: int)   // about to call Connect
    | Pausing(attempt: nat, delay: int)  // waiting before the next attempt
    | Leaving                            // about to clear the flag
    | Waiting                            // another caller is reconnecting

  datatype Move =
    | Enter
    | TryConnect(dialSucceeds: bool)
    | Resume                             // the timer fires
    | Cancel                             // the context is done
    | Exit
    | StopWaiting                        // WaitForConnection returns

  datatype Action =
    | Retrying(caller: nat, move: Move)
    | ConnectDirectly(dialSucceeds: bool)
    | Disconnect

  /** dialed and closed count connections; conn is the number of the open one. */
  datatype State = State(connected: bool, conn: Option<nat>, dialed: nat, closed: nat, reconnecting: bool,
                         callers: seq<Phase>)

  function Start(n: nat): State {
    State(false, None, 0, 0, false, seq(n, i => Outside))
  }

  /** The critical section of Connect. */
  function Connect(s: State, dialSucceeds: bool): State {
    if s.connected || !dialSucceeds then s
    else s.(connected := true, conn := Some(s.dialed), dialed := s.dialed + 1)
  }

  /** The critical section of Disconnect. */
  function Drop(s: State): State {
    if !s.connected then s
    else if s.conn.Some? then s.(connected := false, conn := None, closed := s.closed + 1)
    else s.(connected := false)
  }

  /** The head of the retry loop: another attempt, or out. */
  function Loop(c: Config, attempt: nat, delay: int): Phase {
    if attempt < c.maxRetries then Trying(attempt, delay) else Leaving
  }

  function SetPhase(s: State, i: nat, p: Phase): State
    requires i < |s.callers|
  {
    s.(callers := s.callers[i := p])
  }

  /** A move that the caller's phase does not allow changes nothing. */
  function MoveCaller(c: Config, s: State, i: nat, m: Move): State
    requires i < |s.callers|
  {
    match (s.callers[i], m)
    case (Outside, Enter) =>
      if s.reconnecting then SetPhase(s, i, Waiting)
      else SetPhase(s.(reconnecting := true), i, Loop(c, 0, c.initialDelay))
    case (Trying(n, d), TryConnect(ok)) =>
      var t := Connect(s, ok);
      SetPhase(t, i, if t.connected then Leaving else Pausing(n, d))
    case (Pausing(n, d), Resume) => SetPhase(s, i, Loop(c, n + 1, Next(c, d)))
    case (Pausing(_, _), Cancel) => SetPhase(s, i, Leaving)
    case (Leaving, Exit) => SetPhase(s.(reconnecting := false), i, Outside)
    case (Waiting, StopWaiting) => SetPhase(s, i, Outside)
    case _ => s
  }

  function Step(c: Config, s: State, a: Action): State {
    match a
    case Retrying(i, m) => if i < |s.callers| then MoveCaller(c, s, i, m) else s
    case ConnectDirectly(ok) => Connect(s, ok)
    case Disconnect => Drop(s)
  }

  function Play(c: Config, n: nat, run: seq<Action>): State {
    if run == [] then Start(n) else Step(c, Play(c, n, run[..|run| - 1]), run[|run| - 1])
  }

  /** Between setting and clearing the flag. */
  predicate Inside(p: Phase) {
    p.Trying? || p.Pausing? || p.Leaving?
  }

  /** What a caller in the loop knows: it is within its attempts, and its delay is the scheduled one. */
  predicate OnSchedule(c: Config, p: Phase) {
    p.Trying? || p.Pausing? ==> p.attempt < c.maxRetries && p.delay == DelayAt(c, p.attempt)
  }

  ghost predicate Invariant(c: Config, s: State) {
    && (s.connected <==> s.conn.Some?)
    && s.dialed == s.closed + (if s.connected then 1 else 0)
    && (s.conn.Some? ==> s.conn.value == s.dialed - 1)
    && (s.reconnecting <==> exists i :: 0 <= i < |s.callers| && Inside(s.callers[i]))
    && (forall i, j :: 0 <= i < j < |s.callers| ==> !(Inside(s.callers[i]) && Inside(s.callers[j])))
    && forall i :: 0 <= i < |s.callers| ==> OnSchedule(c, s.callers[i])
  }

  lemma SetPhaseKeeps(c: Config, s: State, i: nat, p: Phase, flag: bool)
    requires Invariant(c, s) && i < |s.callers| && OnSchedule(c, p)
    requires (Inside(s.callers[i]) && Inside(p) && flag == s.reconnecting)
          || (Inside(s.callers[i]) && !Inside(p) && !flag)
          || (!Inside(s.callers[i]) && Inside(p) && !s.reconnecting && flag)
          || (!Inside(s.callers[i]) && !Inside(p) && flag == s.reconnecting)
    ensures Invariant(c, SetPhase(s.(reconnecting := flag), i, p))
  {
    var t := SetPhase(s.(reconnecting := flag), i, p);
    assert forall j :: 0 <= j < |s.callers| && j != i ==> t.callers[j] == s.callers[j];
    assert t.callers[i] == p;
    if t.reconnecting && !Inside(p) {
      var j :| 0 <= j < |s.callers| && Inside(s.callers[j]);
      assert Inside(t.callers[j]);
    }
  }

  lemma MoveKeeps(c: Config, s: State, i: nat, m: Move)
    requires Invariant(c, s) && i < |s.callers|
    ensures Invariant(c, MoveCaller(c, s, i, m))
  {
    match (s.callers[i], m)
    case (Outside, Enter) =>
      if s.reconnecting { SetPhaseKeeps(c, s, i, Waiting, true); }
      else { SetPhaseKeeps(c, s, i, Loop(c, 0, c.initialDelay), true); }
    case (Trying(n, d), TryConnect(ok)) =>
      var t := Connect(s, ok);
      SetPhaseKeeps(c, t, i, if t.connected then Leaving else Pausing(n, d), t.reconnecting);
    case (Pausing(n, d), Resume) =>
      SetPhaseKeeps(c, s, i, Loop(c, n + 1, Next(c, d)), s.reconnecting);
    case (Pausing(_, _), Cancel) => SetPhaseKeeps(c, s, i, Leaving, s.reconnecting);
    case (Leaving, Exit) => SetPhaseKeeps(c, s, i, Outside, false);
    case (Waiting, StopWaiting) => SetPhaseKeeps(c, s, i, Outside, s.reconnecting);
    case _ =>
  }

  lemma StepKeeps(c: Config, s: State, a: Action)
    requires Invariant(c, s)
    ensures Invariant(c, Step(c, s, a))
  {
    if a.Retrying? && a.caller < |s.callers| { MoveKeeps(c, s, a.caller, a.move); }
  }

  /**
   In every interleaving: the flag is set exactly while one caller is inside the retry loop, and never two
   are; connected says exactly whether a connection is set; every opened connection but that one has been
   closed; no caller exceeds its attempts, and its delay is the scheduled one.
   */
  lemma {:induction false} SingleFlightHolds(c: Config, n: nat, run: seq<Action>)
    ensures Invariant(c, Play(c, n, run)) && |Play(c, n, run).callers| == n
  {
    if run == [] {
      assert forall i :: 0 <= i < n ==> Start(n).callers[i] == Outside;
    } else {
      SingleFlightHolds(c, n, run[..|run| - 1]);
      StepKeeps(c, Play(c, n, run[..|run| - 1]), run[|run| - 1]);
    }
  }

  /**
   In every reachable state a disconnect leaves no connection open, and no caller and not the flag changed.
   */
  lemma DisconnectDrops(c: Config, n: nat, run: seq<Action>)
    ensures var s, t := Play(c, n, run), Play(c, n, run + [Disconnect]);
            && !t.connected && t.conn == None && t.dialed == t.closed == s.dialed
            && t.callers == s.callers && t.reconnecting == s.reconnecting
  {
    SingleFlightHolds(c, n, run);
    assert (run + [Disconnect])[..|run|] == run;
  }

  /** In every reachable state a connect with a successful dial leaves the client connected, by one dial at most. */
  lemma ConnectConnects(c: Config, n: nat, run: seq<Action>, ok: bool)
    ensures var s, t := Play(c, n, run), Play(c, n, run + [ConnectDirectly(ok)]);
            && t.connected == (s.connected || ok) && t.closed == s.closed
            && t.dialed == s.dialed + (if ok && !s.connected then 1 else 0)
            && (t.connected ==> t.conn == Some(t.dialed - 1))
            && t.callers == s.callers && t.reconnecting == s.reconnecting
  {
    SingleFlightHolds(c, n, run);
    SingleFlightHolds(c, n, run + [ConnectDirectly(ok)]);
    assert (run + [ConnectDirectly(ok)])[..|run|] == run;
  }

  /**
   A caller in the loop goes on to leave exactly when it is connected after its attempt, its context is done
   while it waits, or it has waited after its last attempt; otherwise it waits after a failed attempt, and
   makes the next one after the wait, with the next delay. Leaving clears the flag; one that waited for
   another caller goes back outside.
   */
  lemma LeavesLoopIff(c: Config, s: State, i: nat, m: Move)
    requires Invariant(c, s) && i < |s.callers|
    ensures var p, q := s.callers[i], MoveCaller(c, s, i, m).callers[i];
            && (p.Trying? && m.TryConnect? ==>
                  if s.connected || m.dialSucceeds then q == Leaving else q == Pausing(p.attempt, p.delay))
            && (p.Pausing? && m.Cancel? ==> q == Leaving)
            && (p.Pausing? && m.Resume? ==>
                  if p.attempt + 1 < c.maxRetries
                  then q == Trying(p.attempt + 1, DelayAt(c, p.attempt + 1)) else q == Leaving)
            && (p == Outside && m.Enter? ==>
                  q == if s.reconnecting then Waiting
                       else if 0 < c.maxRetries then Trying(0, c.initialDelay) else Leaving)
            && (p == Leaving && m.Exit? ==> q == Outside && !MoveCaller(c, s, i, m).reconnecting)
            && (p == Waiting && m.StopWaiting? ==> q == Outside && MoveCaller(c, s, i, m) == SetPhase(s, i, Outside))
  {
    assert OnSchedule(c, s.callers[i]);
  }

  /** How many steps of its own a caller inside the loop can still make before it is out. */
  function StepsLeft(c: Config, p: Phase): int {
    match p
    case Trying(n, _) => 2 * (c.maxRetries - n) + 1
    case Pausing(n, _) => 2 * (c.maxRetries - n)
    case Leaving => 1
    case _ => 0
  }

  /**
   The flag is cleared on every exit: each step of the caller inside the loop, with any outcome, brings it
   nearer to leaving, no step of another caller touches it, and leaving clears the flag.
   */
  lemma LoopEnds(c: Config, s: State, a: Action, i: nat)
    requires Invariant(c, s) && i < |s.callers| && Inside(s.callers[i])
    ensures var t := Step(c, s, a);
            if t.callers[i] == s.callers[i] then t.reconnecting
            else StepsLeft(c, t.callers[i]) < StepsLeft(c, s.callers[i])
                 && (Inside(t.callers[i]) <==> t.reconnecting)
    ensures 0 < StepsLeft(c, s.callers[i])
  {
    StepKeeps(c, s, a);
    var t := Step(c, s, a);
    if t.callers[i] == s.callers[i] {
      assert Inside(t.callers[i]);
    } else if Inside(t.callers[i]) {
      assert OnSchedule(c, s.callers[i]);
    }
  }

  /** The steps in a run from s that move caller i, up to the one with which it leaves the loop. */
  function OwnSteps(c: Config, s: State, run: seq<Action>, i: nat): nat
    requires i < |s.callers|
    decreases |run|
  {
    if run == [] || !Inside(s.callers[i]) then 0
    else
      var t := Step(c, s, run[0]);
      (if t.callers[i] == s.callers[i] then 0 else 1) + OwnSteps(c, t, run[1..], i)
  }

  lemma {:induction false} OwnStepsBounded(c: Config, s: State, run: seq<Action>, i: nat)
    requires Invariant(c, s) && i < |s.callers|
    ensures OwnSteps(c, s, run, i) <= if Inside(s.callers[i]) then StepsLeft(c, s.callers[i]) else 0
    decreases |run|
  {
    if run != [] && Inside(s.callers[i]) {
      LoopEnds(c, s, run[0], i);
      StepKeeps(c, s, run[0]);
      OwnStepsBounded(c, Step(c, s, run[0]), run[1..], i);
    }
  }

  /**
   A caller that enters, in any reachable state, sets the flag; whatever the others do after that, it makes
   at most 2 * maxRetries + 1 steps of its own before it is out.
   */
  lemma EntryBound(c: Config, n: nat, before: seq<Action>, i: nat, run: seq<Action>)
    requires var s := Play(c, n, before);
             i < |s.callers| && s.callers[i] == Outside && !s.reconnecting
    ensures var t := Step(c, Play(c, n, before), Retrying(i, Enter));
            && t.reconnecting && Inside(t.callers[i])
            && OwnSteps(c, t, run, i) <= 2 * (if c.maxRetries > 0 then c.maxRetries else 0) + 1
  {
    var s := Play(c, n, before);
    SingleFlightHolds(c, n, before);
    StepKeeps(c, s, Retrying(i, Enter));
    OwnStepsBounded(c, Step(c, s, Retrying(i, Enter)), run, i);
  }
}
