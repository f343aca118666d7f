/**
 What each operation of the migrator does to the records and the schema, for a fixed list of definitions
 with distinct IDs and a clock that strictly increases: the recorded migrations are a prefix of the sorted
 list, in the order of applied_at, and the schema is a starting schema with their Ups folded over it.
 */
module MigrationRuns {
  import opened Options
  import opened Ordering
  import opened Schemas
  import opened Migrations

  /** The Ups of the definitions folded over a schema, the first one first. */
  function FoldUps(defs: seq<Definition>, s: Schema): Option<Schema> {
    if defs == [] then Some(s)
    else match FoldUps(defs[..|defs| - 1], s)
      case None => None
      case Some(t) => Run(defs[|defs| - 1].up, t)
  }

  /** The records are the first k definitions, in order of strictly increasing applied_at. */
  ghost predicate RecordsMatch(defs: seq<Definition>, db: Db, k: nat) {
    && k <= |defs| && |db.records| == k
    && (forall i :: 0 <= i < k ==> db.records[i].id == defs[i].id && db.records[i].description == defs[i].description)
    && (forall i, j :: 0 <= i < j < k ==> db.records[i].appliedAt < db.records[j].appliedAt)
  }

  /** The records match, and the schema is the starting one with the Ups of the recorded definitions. */
  ghost predicate Stacked(defs: seq<Definition>, start: Schema, db: Db, k: nat) {
    RecordsMatch(defs, db, k) && FoldUps(defs[..k], start) == Some(db.schema)
  }

  /** The last record, hence every record of a stack, is earlier than t. */
  ghost predicate LastBefore(db: Db, t: int) {
    db.records == [] || db.records[|db.records| - 1].appliedAt < t
  }

  /** Down undoes Up on each schema where Up runs: the prefix folds of the starting schema. */
  ghost predicate DownsUndoUps(defs: seq<Definition>, start: Schema) {
    forall k :: 0 <= k < |defs| && FoldUps(defs[..k], start).Some? && FoldUps(defs[..k + 1], start).Some? ==>
      Run(defs[k].down, FoldUps(defs[..k + 1], start).value) == FoldUps(defs[..k], start)
  }

  // ----- runs

  datatype Action =
    | DoUp(upPrologue: Prologue, env: nat -> Attempt)
    | DoDown(downPrologue: Prologue, fault: Fault)
    | DoReset(listed: seq<string>, failAt: nat, resetPrologue: Prologue, resetEnv: nat -> Attempt)

  datatype State = State(db: Db, defs: seq<Definition>)

  function Step(s: State, a: Action): (State, bool) {
    match a
    case DoUp(p, env) =>
      var (db, ok) := Up(s.db, s.defs, p, env);
      (State(db, AfterUp(s.defs, p)), ok)
    case DoDown(p, f) =>
      var (db, ok) := Down(s.db, s.defs, p, f);
      (s.(db := db), ok)
    case DoReset(listed, failAt, p, env) =>
      var (db, ok) := Reset(s.db, s.defs, listed, failAt, p, env);
      (State(db, if failAt < |listed| then s.defs else AfterUp(s.defs, p)), ok)
  }

  function Play(s: State, run: seq<Action>): State {
    if run == [] then s else Step(Play(s, run[..|run| - 1]), run[|run| - 1]).0
  }

  /** The attempts of one Up read clock values that increase strictly, the first one after t. */
  ghost predicate Ticking(env: nat -> Attempt, n: nat, t: int) {
    && (n > 0 ==> t < env(0).now)
    && forall i, j :: 0 <= i < j < n ==> env(i).now < env(j).now
  }

  /** The attempts of the Up an action runs, if it runs one: a Reset does once its drops have succeeded. */
  function Attempts(a: Action): Option<nat -> Attempt> {
    match a
    case DoUp(_, env) => Some(env)
    case DoDown(_, _) => None
    case DoReset(listed, failAt, _, env) => if failAt < |listed| then None else Some(env)
  }

  function ClockAfter(a: Action, n: nat, t: int): int {
    if Attempts(a).Some? && n > 0 then Attempts(a).value(n - 1).now else t
  }

  function ClockAtEnd(run: seq<Action>, n: nat, t: int): int {
    if run == [] then t else ClockAfter(run[|run| - 1], n, ClockAtEnd(run[..|run| - 1], n, t))
  }

  /** The clock strictly increases over the whole run; n is the number of definitions. */
  ghost predicate Clocked(run: seq<Action>, n: nat, t: int) {
    run == [] ||
    (var before, a := run[..|run| - 1], run[|run| - 1];
     Clocked(before, n, t) && (Attempts(a).Some? ==> Ticking(Attempts(a).value, n, ClockAtEnd(before, n, t))))
  }

  // ----- Up

  lemma RecordedIds(defs: seq<Definition>, db: Db, k: nat)
    requires StrictlySorted(DefinitionId, defs) && RecordsMatch(defs, db, k)
    ensures forall i :: 0 <= i < |defs| ==> (defs[i].id in Ids(db.records) <==> i < k)
    ensures forall i :: 0 <= i < |defs| ==> (Recorded(db.records, defs[i].id) <==> i < k)
  {
    forall i | 0 <= i < |defs|
      ensures defs[i].id in Ids(db.records) <==> i < k
      ensures Recorded(db.records, defs[i].id) <==> i < k
    {
      if i < k { assert db.records[i].id == defs[i].id; }
      StrIrreflexive(defs[i].id);
      assert forall j :: 0 <= j < i ==> StrLess(DefinitionId(defs[j]), DefinitionId(defs[i]));
      assert forall j :: i < j < |defs| ==> StrLess(DefinitionId(defs[i]), DefinitionId(defs[j]));
    }
  }

  lemma PushedRecords(defs: seq<Definition>, db: Db, k: nat, s: Schema, now: int)
    requires RecordsMatch(defs, db, k) && k < |defs| && LastBefore(db, now)
    ensures RecordsMatch(defs, Db(s, db.records + [Record(defs[k].id, now, defs[k].description)]), k + 1)
  {
    var records := db.records + [Record(defs[k].id, now, defs[k].description)];
    forall i, j | 0 <= i < j < k + 1 ensures records[i].appliedAt < records[j].appliedAt {
      if j == k && i < k - 1 { assert db.records[i].appliedAt < db.records[k - 1].appliedAt; }
    }
  }

  lemma FoldOneMore(defs: seq<Definition>, start: Schema, k: nat)
    requires k < |defs|
    ensures FoldUps(defs[..k + 1], start)
            == match FoldUps(defs[..k], start) case None => None case Some(t) => Run(defs[k].up, t)
  {
    assert defs[..k + 1][..k] == defs[..k];
  }

  lemma ApplySucceedsIff(defs: seq<Definition>, db: Db, k: nat, a: Attempt)
    requires StrictlySorted(DefinitionId, defs) && RecordsMatch(defs, db, k) && k < |defs|
    ensures Apply(db, defs[k], a).Some? <==>
            a.fault != AtRecord && a.fault != AtCommit && Execute(defs[k].up, db.schema, a.fault).Some?
  {
    RecordedIds(defs, db, k);
  }

  /** One committed transaction pushes; it fails exactly when the script, the record or the commit does. */
  lemma ApplyPushes(defs: seq<Definition>, start: Schema, db: Db, k: nat, a: Attempt)
    requires StrictlySorted(DefinitionId, defs) && RecordsMatch(defs, db, k) && k < |defs|
    requires LastBefore(db, a.now)
    ensures Apply(db, defs[k], a).Some? ==>
              && RecordsMatch(defs, Apply(db, defs[k], a).value, k + 1)
              && (Stacked(defs, start, db, k) ==> Stacked(defs, start, Apply(db, defs[k], a).value, k + 1))
    ensures Apply(db, defs[k], a).Some? <==>
            a.fault != AtRecord && a.fault != AtCommit && Execute(defs[k].up, db.schema, a.fault).Some?
  {
    ApplySucceedsIff(defs, db, k, a);
    FoldOneMore(defs, start, k);
    if Run(defs[k].up, db.schema).Some? {
      PushedRecords(defs, db, k, Run(defs[k].up, db.schema).value, a.now);
    }
  }

  /** Up ended after the last definition, or at the one its next transaction could not apply. */
  ghost predicate Stops(defs: seq<Definition>, env: nat -> Attempt, after: Db, ok: bool) {
    var m := |after.records|;
    m <= |defs| && if ok then m == |defs| else m < |defs| && Apply(after, defs[m], env(m)) == None
  }

  /** What Up guarantees about the database it leaves and its verdict. */
  ghost predicate Resumed(defs: seq<Definition>, db: Db, env: nat -> Attempt, after: Db, ok: bool) {
    && RecordsMatch(defs, after, |after.records|) && Stops(defs, env, after, ok)
    && db.records <= after.records && (|db.records| == |defs| ==> after == db)
    && (|after.records| > |db.records| ==> LastBefore(after, env(|after.records| - 1).now + 1))
  }

  lemma ResumedAfterPush(defs: seq<Definition>, db: Db, next: Db, env: nat -> Attempt, after: Db, ok: bool)
    requires |db.records| < |defs| && |next.records| == |db.records| + 1 && db.records <= next.records
    requires LastBefore(next, env(|db.records|).now + 1)
    requires Resumed(defs, next, env, after, ok)
    ensures Resumed(defs, db, env, after, ok)
  {
    if |after.records| == |next.records| {
      assert after.records == next.records;
    }
  }

  lemma ResumedHere(defs: seq<Definition>, db: Db, k: nat, env: nat -> Attempt)
    requires RecordsMatch(defs, db, k)
    ensures k == |defs| ==> Resumed(defs, db, env, db, true)
    ensures k < |defs| && Apply(db, defs[k], env(k)) == None ==> Resumed(defs, db, env, db, false)
  {
  }

  /** The clock values of the first n attempts increase strictly. */
  ghost predicate Increasing(env: nat -> Attempt, n: nat) {
    forall i, j :: 0 <= i < j < n ==> env(i).now < env(j).now
  }

  /** The attempts from k on come after every record. */
  ghost predicate Later(db: Db, env: nat -> Attempt, k: nat, n: nat) {
    forall j :: k <= j < n ==> LastBefore(db, env(j).now)
  }

  lemma ApplyAppends(db: Db, d: Definition, a: Attempt)
    requires Apply(db, d, a).Some?
    ensures Apply(db, d, a).value.records == db.records + [Record(d.id, a.now, d.description)]
  {
  }

  lemma PushedLater(db: Db, next: Db, d: Definition, env: nat -> Attempt, k: nat, n: nat)
    requires next.records == db.records + [Record(d.id, env(k).now, d.description)]
    requires Increasing(env, n) && k < n
    ensures LastBefore(next, env(k).now + 1) && Later(next, env, k + 1, n)
  {
  }

  /** Up from the top of the stack: it pushes until the first attempt that fails or the last definition. */
  lemma {:induction false} UpPushes(defs: seq<Definition>, db: Db, k: nat, applied: set<string>, env: nat -> Attempt)
    requires StrictlySorted(DefinitionId, defs) && RecordsMatch(defs, db, k)
    requires forall j :: k <= j < |defs| ==> defs[j].id !in applied
    requires Increasing(env, |defs|) && Later(db, env, k, |defs|)
    ensures var (after, ok) := ApplyFrom(db, defs, applied, env, k);
            Resumed(defs, db, env, after, ok)
    decreases |defs| - k
  {
    ResumedHere(defs, db, k, env);
    if k < |defs| && Apply(db, defs[k], env(k)).Some? {
      var next := Apply(db, defs[k], env(k)).value;
      ApplyPushes(defs, db.schema, db, k, env(k));
      ApplyAppends(db, defs[k], env(k));
      PushedLater(db, next, defs[k], env, k, |defs|);
      UpPushes(defs, next, k + 1, applied, env);
      var (after, ok) := ApplyFrom(next, defs, applied, env, k + 1);
      ResumedAfterPush(defs, db, next, env, after, ok);
    }
  }

  /** What it pushes is folded over the schema, whatever the scripts do. */
  lemma {:induction false} UpFolds(defs: seq<Definition>, start: Schema, db: Db, applied: set<string>,
                                   env: nat -> Attempt)
    requires var k := |db.records|;
             && k <= |defs| && FoldUps(defs[..k], start) == Some(db.schema)
             && forall j :: k <= j < |defs| ==> defs[j].id !in applied
    ensures var after := ApplyFrom(db, defs, applied, env, |db.records|).0;
            |after.records| <= |defs| && FoldUps(defs[..|after.records|], start) == Some(after.schema)
    decreases |defs| - |db.records|
  {
    var k := |db.records|;
    if k < |defs| && Apply(db, defs[k], env(k)).Some? {
      FoldOneMore(defs, start, k);
      UpFolds(defs, start, Apply(db, defs[k], env(k)).value, applied, env);
    }
  }

  lemma {:induction false} SkipsApplied(db: Db, defs: seq<Definition>, applied: set<string>, env: nat -> Attempt,
                                        i: nat, k: nat)
    requires i <= k <= |defs| && forall j :: i <= j < k ==> defs[j].id in applied
    ensures ApplyFrom(db, defs, applied, env, i) == ApplyFrom(db, defs, applied, env, k)
    decreases k - i
  {
    if i < k { SkipsApplied(db, defs, applied, env, i + 1, k); }
  }

  /** Up skips what is recorded, then pushes until the first attempt that fails or the last one. */
  lemma UpResumes(defs: seq<Definition>, start: Schema, db: Db, k: nat, env: nat -> Attempt)
    requires StrictlySorted(DefinitionId, defs) && RecordsMatch(defs, db, k)
    requires Increasing(env, |defs|) && Later(db, env, k, |defs|)
    ensures var (after, ok) := ApplyFrom(db, defs, Ids(db.records), env, 0);
            && Resumed(defs, db, env, after, ok)
            && (Stacked(defs, start, db, k) ==> Stacked(defs, start, after, |after.records|))
  {
    RecordedIds(defs, db, k);
    SkipsApplied(db, defs, Ids(db.records), env, 0, k);
    UpPushes(defs, db, k, Ids(db.records), env);
    if Stacked(defs, start, db, k) { UpFolds(defs, start, db, Ids(db.records), env); }
  }

  // ----- Down

  lemma {:induction false} LatestIsLast(records: seq<Record>)
    requires records != []
    requires forall i, j :: 0 <= i < j < |records| ==> records[i].appliedAt < records[j].appliedAt
    ensures Latest(records) == records[|records| - 1]
  {
    var n := |records| - 1;
    if n > 0 {
      LatestIsLast(records[..n]);
      assert records[n - 1].appliedAt < records[n].appliedAt;
    }
  }

  lemma {:induction false} LatestFound(records: seq<Record>)
    requires records != []
    ensures Latest(records) in records
  {
    var n := |records| - 1;
    if n > 0 {
      LatestFound(records[..n]);
      assert forall r :: r in records[..n] ==> r in records;
    }
  }

  lemma {:induction false} LatestAtLeast(records: seq<Record>, i: nat)
    requires i < |records|
    ensures Latest(records).appliedAt >= records[i].appliedAt
  {
    var n := |records| - 1;
    if i < n { LatestAtLeast(records[..n], i); }
  }

  /**
   Whatever the clock did: of records with ascending IDs Down picks the last one exactly when every other
   carries an earlier time. On a tie the smaller ID wins, which was applied earlier.
   */
  lemma DownPicksLastIff(records: seq<Record>)
    requires records != []
    requires forall i, j :: 0 <= i < j < |records| ==> StrLess(records[i].id, records[j].id)
    ensures Latest(records) == records[|records| - 1] <==>
            forall i :: 0 <= i < |records| - 1 ==> records[i].appliedAt < records[|records| - 1].appliedAt
  {
    var n := |records| - 1;
    if n > 0 {
      var best := Latest(records[..n]);
      LatestFound(records[..n]);
      var b :| 0 <= b < n && records[b] == best;
      forall i | 0 <= i < n ensures records[i].appliedAt <= best.appliedAt {
        LatestAtLeast(records[..n], i);
      }
      StrAsymmetric(best.id, records[n].id);
    }
  }

  lemma {:induction false} FindsByID(defs: seq<Definition>, d: Definition)
    requires DistinctKeys(DefinitionId, defs) && d in defs
    ensures Find(defs, d.id) == Some(d)
  {
    var i :| 0 <= i < |defs| && defs[i] == d;
    if i > 0 {
      assert DefinitionId(defs[0]) != DefinitionId(defs[i]);
      FindsByID(defs[1..], d);
    }
  }

  lemma {:induction false} FindsNone(defs: seq<Definition>, id: string)
    requires forall d :: d in defs ==> d.id != id
    ensures Find(defs, id) == None
  {
    if defs != [] {
      assert defs[0] in defs && forall d :: d in defs[1..] ==> d in defs;
      FindsNone(defs[1..], id);
    }
  }

  /** A record whose migration is not among the definitions cannot be rolled back. */
  lemma DownNeedsDefinition(db: Db, defs: seq<Definition>, f: Fault)
    requires db.records != [] && forall d :: d in defs ==> d.id != Latest(db.records).id
    ensures Down(db, defs, Ready, f) == (db, false)
  {
    FindsNone(defs, Latest(db.records).id);
  }

  lemma {:induction false} RemoveLast(records: seq<Record>, last: Record)
    requires forall r :: r in records ==> r.id != last.id
    ensures Remove(records + [last], last.id) == records
  {
    if records == [] {
      assert records + [last] == [last];
    } else {
      assert (records + [last])[1..] == records[1..] + [last];
      RemoveLast(records[1..], last);
    }
  }

  lemma LastRecordRemoved(sorted: seq<Definition>, db: Db, k: nat)
    requires StrictlySorted(DefinitionId, sorted) && RecordsMatch(sorted, db, k) && k > 0
    ensures Latest(db.records).id == sorted[k - 1].id
    ensures Remove(db.records, sorted[k - 1].id) == db.records[..k - 1]
  {
    LatestIsLast(db.records);
    var older, last := db.records[..k - 1], db.records[k - 1];
    assert db.records == older + [last];
    forall r | r in older ensures r.id != last.id {
      var i :| 0 <= i < k - 1 && older[i] == r;
      assert StrLess(DefinitionId(sorted[i]), DefinitionId(sorted[k - 1]));
      StrIrreflexive(r.id);
    }
    RemoveLast(older, last);
  }

  predicate DownGoesThrough(d: Definition, f: Fault) {
    f == NoFault || (f.AtStatement? && f.n >= |d.down|)
  }

  /** Whatever its Down script does, Down runs that of the last recorded definition and removes its record. */
  lemma DownRunsLast(sorted: seq<Definition>, defs: seq<Definition>, db: Db, k: nat, f: Fault)
    requires StrictlySorted(DefinitionId, sorted) && RecordsMatch(sorted, db, k) && k > 0
    requires DistinctKeys(DefinitionId, defs) && forall d :: d in sorted ==> d in defs
    ensures Down(db, defs, Ready, f) ==
            if Run(sorted[k - 1].down, db.schema).Some? && DownGoesThrough(sorted[k - 1], f)
            then (Db(Run(sorted[k - 1].down, db.schema).value, db.records[..k - 1]), true) else (db, false)
  {
    LastRecordRemoved(sorted, db, k);
    FindsByID(defs, sorted[k - 1]);
  }

  lemma DownRestoresFold(sorted: seq<Definition>, start: Schema, k: nat)
    requires DownsUndoUps(sorted, start) && 0 < k <= |sorted| && FoldUps(sorted[..k], start).Some?
    ensures FoldUps(sorted[..k - 1], start).Some?
    ensures Run(sorted[k - 1].down, FoldUps(sorted[..k], start).value) == FoldUps(sorted[..k - 1], start)
  {
    assert sorted[..k][..k - 1] == sorted[..k - 1];
    assert sorted[..k - 1 + 1] == sorted[..k];
  }

  lemma PoppedRecords(sorted: seq<Definition>, db: Db, k: nat, s: Schema)
    requires RecordsMatch(sorted, db, k) && k > 0
    ensures RecordsMatch(sorted, Db(s, db.records[..k - 1]), k - 1)
  {
  }

  /** Down pops exactly the last applied migration, or changes nothing when its transaction fails. */
  lemma DownPops(sorted: seq<Definition>, defs: seq<Definition>, start: Schema, db: Db, k: nat, p: Prologue, f: Fault)
    requires StrictlySorted(DefinitionId, sorted) && DownsUndoUps(sorted, start)
    requires DistinctKeys(DefinitionId, defs) && forall d :: d in sorted ==> d in defs
    requires Stacked(sorted, start, db, k)
    ensures var (after, ok) := Down(db, defs, p, f);
            && (ok && k > 0 ==> after.records == db.records[..k - 1] && Stacked(sorted, start, after, k - 1))
            && (!ok || k == 0 ==> after == db)
            && (ok <==> p == Ready && (k == 0 || DownGoesThrough(sorted[k - 1], f)))
  {
    if p == Ready && k > 0 {
      DownRestoresFold(sorted, start, k);
      DownRunsLast(sorted, defs, db, k, f);
      PoppedRecords(sorted, db, k, FoldUps(sorted[..k - 1], start).value);
    }
  }
}
