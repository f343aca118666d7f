/**
 The admission counter of the GPIO controller: every admitted operation starts a goroutine that sleeps
 for the operation timeout and then gives its slot back. A sleeping goroutine is kept under the number
 of its admission with the time its sleep ends; it may run any time after that.
 */
module OpLimiter {

  datatype Limiter = Limiter(activeOps: int, admissions: nat, sleepers: map<nat, int>)

  const IDLE := Limiter(0, 0, map[])

  function Admit(l: Limiter, max: int, timeout: int, now: int): (Limiter, bool) {
    if l.activeOps >= max then (l, false)
    else (Limiter(l.activeOps + 1, l.admissions + 1, l.sleepers[l.admissions := now + timeout]), true)
  }

  /** The goroutine of admission k takes the lock and decrements, unless the counter is already zero. */
  function Wake(l: Limiter, k: nat): Limiter {
    Limiter(if l.activeOps > 0 then l.activeOps - 1 else l.activeOps, l.admissions, l.sleepers - {k})
  }

  /** The counter is the number of goroutines still asleep. */
  ghost predicate Balanced(l: Limiter, max: int) {
    && l.activeOps == |l.sleepers| && (l.activeOps <= max || l.activeOps == 0)
    && forall k :: k in l.sleepers ==> k < l.admissions
  }

  lemma AdmitBalanced(l: Limiter, max: int, timeout: int, now: int)
    requires Balanced(l, max)
    ensures Balanced(Admit(l, max, timeout, now).0, max)
  {
    assert l.admissions !in l.sleepers;
  }

  /** The guard activeOps > 0 never suppresses a decrement: a goroutine that wakes holds a slot. */
  lemma WakeBalanced(l: Limiter, max: int, k: nat)
    requires Balanced(l, max) && k in l.sleepers
    ensures Balanced(Wake(l, k), max) && Wake(l, k).activeOps == l.activeOps - 1
  {
    assert l.sleepers.Keys == (l.sleepers - {k}).Keys + {k};
    assert |l.sleepers.Keys| == |(l.sleepers - {k}).Keys| + 1;
  }

  // ----- runs on a clock

  datatype Event = Request(now: int) | WakeUp(admission: nat, now: int)

  function Step(l: Limiter, max: int, timeout: int, e: Event): Limiter {
    match e
    case Request(now) => Admit(l, max, timeout, now).0
    case WakeUp(k, _) => if k in l.sleepers then Wake(l, k) else l
  }

  function Play(run: seq<Event>, max: int, timeout: int): Limiter {
    if run == [] then IDLE else Step(Play(run[..|run| - 1], max, timeout), max, timeout, run[|run| - 1])
  }

  /** The times of the admitted requests, in order. */
  function Admitted(run: seq<Event>, max: int, timeout: int): seq<int> {
    if run == [] then []
    else
      var before, e := run[..|run| - 1], run[|run| - 1];
      Admitted(before, max, timeout) + AdmittedBy(Play(before, max, timeout), max, timeout, e)
  }

  /** The clock does not run backwards, and no goroutine wakes before its sleep is over. */
  ghost predicate Legal(run: seq<Event>, max: int, timeout: int) {
    run == [] ||
    (var before, e := run[..|run| - 1], run[|run| - 1];
     var sleepers := Play(before, max, timeout).sleepers;
     && Legal(before, max, timeout)
     && (before != [] ==> before[|before| - 1].now <= e.now)
     && (e.WakeUp? && e.admission in sleepers ==> sleepers[e.admission] <= e.now))
  }

  /** What the slots say about the past: an admission without a sleeper is at least a timeout old. */
  ghost predicate Accounted(l: Limiter, admitted: seq<int>, timeout: int, now: int) {
    && |admitted| == l.admissions
    && (forall i, j :: 0 <= i < j < |admitted| ==> admitted[i] <= admitted[j])
    && (forall k :: 0 <= k < |admitted| ==> admitted[k] <= now)
    && forall k :: 0 <= k < |admitted| ==>
         if k in l.sleepers then l.sleepers[k] == admitted[k] + timeout else admitted[k] + timeout <= now
  }

  lemma LaterAccounted(l: Limiter, admitted: seq<int>, timeout: int, now: int, later: int)
    requires Accounted(l, admitted, timeout, now) && now <= later
    ensures Accounted(l, admitted, timeout, later)
  {
  }

  lemma AdmitAccounted(l: Limiter, admitted: seq<int>, max: int, timeout: int, now: int)
    requires Balanced(l, max) && Accounted(l, admitted, timeout, now) && l.activeOps < max
    ensures Accounted(Admit(l, max, timeout, now).0, admitted + [now], timeout, now)
  {
  }

  lemma WakeAccounted(l: Limiter, admitted: seq<int>, max: int, timeout: int, k: nat, now: int)
    requires Balanced(l, max) && Accounted(l, admitted, timeout, now)
    requires k in l.sleepers && l.sleepers[k] <= now
    ensures Accounted(Wake(l, k), admitted, timeout, now)
  {
  }

  function AdmittedBy(l: Limiter, max: int, timeout: int, e: Event): seq<int> {
    if e.Request? && Admit(l, max, timeout, e.now).1 then [e.now] else []
  }

  lemma StepAccounted(l: Limiter, admitted: seq<int>, max: int, timeout: int, e: Event)
    requires Balanced(l, max) && Accounted(l, admitted, timeout, e.now)
    requires e.WakeUp? && e.admission in l.sleepers ==> l.sleepers[e.admission] <= e.now
    ensures Balanced(Step(l, max, timeout, e), max)
    ensures Accounted(Step(l, max, timeout, e), admitted + AdmittedBy(l, max, timeout, e), timeout, e.now)
  {
    match e
    case Request(now) =>
      AdmitBalanced(l, max, timeout, now);
      if l.activeOps < max { AdmitAccounted(l, admitted, max, timeout, now); }
    case WakeUp(k, now) =>
      if k in l.sleepers {
        WakeBalanced(l, max, k);
        WakeAccounted(l, admitted, max, timeout, k, now);
      }
  }

  /** The counter is balanced and every slot accounted for after every run. */
  lemma {:induction false} RunsAccounted(run: seq<Event>, max: int, timeout: int)
    requires Legal(run, max, timeout)
    ensures Balanced(Play(run, max, timeout), max)
    ensures run == [] || Accounted(Play(run, max, timeout), Admitted(run, max, timeout), timeout, run[|run| - 1].now)
    ensures max <= 0 ==> Admitted(run, max, timeout) == []
  {
    if run != [] {
      var before, e := run[..|run| - 1], run[|run| - 1];
      RunsAccounted(before, max, timeout);
      var l, admitted := Play(before, max, timeout), Admitted(before, max, timeout);
      if before != [] {
        LaterAccounted(l, admitted, timeout, before[|before| - 1].now, e.now);
      }
      StepAccounted(l, admitted, max, timeout, e);
    }
  }

  lemma {:induction false} RangeSize(a: int, b: int, s: set<nat>)
    requires 0 <= a <= b && forall k :: a <= k < b ==> k in s
    ensures |s| >= b - a
    decreases b - a
  {
    if a < b {
      RangeSize(a + 1, b, s - {a});
      assert |s| == |s - {a}| + 1;
    }
  }

  /** At the moment a request is admitted, the admission max places before it is a timeout old. */
  lemma OldEnough(l: Limiter, admitted: seq<int>, max: int, timeout: int, now: int)
    requires Balanced(l, max) && Accounted(l, admitted, timeout, now) && 0 < max
    requires l.activeOps < max <= |admitted|
    ensures admitted[|admitted| - max] + timeout <= now
  {
    var k := |admitted| - max;
    if admitted[k] + timeout > now {
      forall j | k <= j < |admitted| ensures j in l.sleepers.Keys {
        assert j == k || admitted[k] <= admitted[j];
      }
      RangeSize(k, |admitted|, l.sleepers.Keys);
      assert false;
    }
  }

  /** The state in which the last event of a run happens, accounted for at the time of that event. */
  lemma BeforeLast(run: seq<Event>, max: int, timeout: int)
    requires Legal(run, max, timeout) && |run| > 1
    ensures var before := run[..|run| - 1];
            && Legal(before, max, timeout) && Balanced(Play(before, max, timeout), max)
            && Accounted(Play(before, max, timeout), Admitted(before, max, timeout), timeout, run[|run| - 1].now)
  {
    var before, e := run[..|run| - 1], run[|run| - 1];
    RunsAccounted(before, max, timeout);
    LaterAccounted(Play(before, max, timeout), Admitted(before, max, timeout), timeout,
                   before[|before| - 1].now, e.now);
  }

  /**
   However late the releasing goroutines run: the (k+max)-th admission comes at least the operation
   timeout after the k-th.
   */
  lemma {:induction false} WindowBound(run: seq<Event>, max: int, timeout: int, k: nat)
    requires Legal(run, max, timeout) && 0 < max && k + max < |Admitted(run, max, timeout)|
    ensures Admitted(run, max, timeout)[k] + timeout <= Admitted(run, max, timeout)[k + max]
    decreases |run|
  {
    var before, e := run[..|run| - 1], run[|run| - 1];
    if |run| > 1 {
      BeforeLast(run, max, timeout);
      var l, earlier := Play(before, max, timeout), Admitted(before, max, timeout);
      if k + max < |earlier| {
        WindowBound(before, max, timeout, k);
      } else {
        OldEnough(l, earlier, max, timeout, e.now);
      }
    }
  }
}
