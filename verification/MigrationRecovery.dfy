/**
 What the migrator leaves behind when it goes back: rolling everything back with Down, rebuilding with
 Reset, and the Up that follows a Reset that failed half way. The definitions are lists of creating
 scripts; what an Up or a Down executes is then one script over the schema.
 */
module MigrationRecovery {
  import opened Options
  import opened Ordering
  import opened Schemas
  import opened Migrations
  import opened MigrationRuns
  import opened MigrationTheorems
  import opened Definitions

  // ----- rolling everything back

  /** As many Downs as there are records execute exactly the Downs of those definitions, the last one first. */
  lemma {:induction false} DownsRunScript(s: State, sorted: seq<Definition>, k: nat)
    requires StrictlySorted(DefinitionId, sorted) && RecordsMatch(sorted, s.db, k)
    requires DistinctKeys(DefinitionId, s.defs) && forall d :: d in sorted ==> d in s.defs
    requires Run(DownScript(sorted[..k]), s.db.schema).Some?
    ensures Downs(s, k).db == Db(Run(DownScript(sorted[..k]), s.db.schema).value, [])
    decreases k
  {
    if k > 0 {
      assert sorted[..k][..k - 1] == sorted[..k - 1];
      RunAppend(sorted[k - 1].down, DownScript(sorted[..k - 1]), s.db.schema);
      DownRunsLast(sorted, s.defs, s.db, k, NoFault);
      var t := Run(sorted[k - 1].down, s.db.schema).value;
      PoppedRecords(sorted, s.db, k, t);
      DownsRunScript(Step(s, DoDown(Ready, NoFault)).0, sorted, k - 1);
    }
  }

  lemma MirroredPrefix(defs: seq<Definition>, k: nat)
    requires Mirrored(defs) && k <= |defs|
    ensures Mirrored(defs[..k])
  {
    UpScriptPrefix(defs, k);
    var part, all := UpScript(defs[..k]), UpScript(defs);
    assert forall i :: 0 <= i < |part| ==> part[i] == all[i];
    assert forall d :: d in defs[..k] ==> d in defs;
  }

  /**
   Rolling back everything that is recorded, with the migrator's own Downs, restores the starting schema
   if and only if that schema used none of the names of the recorded migrations.
   */
  lemma DownsRestoreIff(s: State, sorted: seq<Definition>, start: Schema, clock: int)
    requires Explained(s, sorted, start, clock) && Mirrored(sorted) && WellFormed(start)
    ensures var k := |s.db.records|;
            && Downs(s, k).db.records == []
            && (Downs(s, k).db.schema == start <==> Names(UpScript(sorted[..k])) !! Used(start))
  {
    var k := |s.db.records|;
    var part := sorted[..k];
    SortAgain(s.defs);
    MirroredPrefix(sorted, k);
    RollbackRuns(part, start);
    DownsRunScript(s, sorted, k);
    RollbackRestoresIff(part, start);
  }

  lemma RollbackRuns(defs: seq<Definition>, start: Schema)
    requires Mirrored(defs) && WellFormed(start) && FoldUps(defs, start).Some?
    ensures Run(DownScript(defs), FoldUps(defs, start).value).Some?
  {
    FoldIsScript(defs, start);
    DownScriptIsMirror(defs);
    CreatedKindsFit(UpScript(defs), start);
    MirrorFreesNames(UpScript(defs), FoldUps(defs, start).value);
  }

  // ----- what the next Up executes

  lemma {:induction false} UpScriptAppend(a: seq<Definition>, b: seq<Definition>)
    ensures UpScript(a + b) == UpScript(a) + UpScript(b)
    decreases |b|
  {
    if b == [] {
      assert a + b == a;
    } else {
      var n := |b| - 1;
      assert (a + b)[..|a + b| - 1] == a + b[..n];
      UpScriptAppend(a, b[..n]);
    }
  }

  lemma UpScriptFrom(defs: seq<Definition>, k: nat)
    requires k < |defs|
    ensures UpScript(defs[k..]) == defs[k].up + UpScript(defs[k + 1..])
  {
    assert defs[k..] == [defs[k]] + defs[k + 1..];
    UpScriptAppend([defs[k]], defs[k + 1..]);
    assert [defs[k]][..0] == [];
  }

  /** None of the definitions from position k on is recorded, or was when Up began. */
  ghost predicate NoneRecorded(db: Db, defs: seq<Definition>, applied: set<string>, k: nat) {
    forall j :: k <= j < |defs| ==> defs[j].id !in applied && !Recorded(db.records, defs[j].id)
  }

  lemma PushKeepsNoneRecorded(db: Db, defs: seq<Definition>, applied: set<string>, k: nat, a: Attempt)
    requires StrictlySorted(DefinitionId, defs) && k < |defs| && NoneRecorded(db, defs, applied, k)
    requires Apply(db, defs[k], a).Some?
    ensures NoneRecorded(Apply(db, defs[k], a).value, defs, applied, k + 1)
  {
    ApplyAppends(db, defs[k], a);
    var records := Apply(db, defs[k], a).value.records;
    forall j | k + 1 <= j < |defs| ensures !Recorded(records, defs[j].id) {
      assert StrLess(DefinitionId(defs[k]), DefinitionId(defs[j]));
      StrIrreflexive(defs[k].id);
      assert forall i :: 0 <= i < |db.records| ==> db.records[i].id != defs[j].id;
    }
  }

  /** From any schema: a successful Up has run the scripts of the rest, and it fails only where they or a call do. */
  lemma {:induction false} ApplyRunsRest(db: Db, defs: seq<Definition>, applied: set<string>, env: nat -> Attempt,
                                         k: nat)
    requires StrictlySorted(DefinitionId, defs) && k <= |defs| && NoneRecorded(db, defs, applied, k)
    ensures var (after, ok) := ApplyFrom(db, defs, applied, env, k);
            var rest := Run(UpScript(defs[k..]), db.schema);
            && (ok ==> rest == Some(after.schema))
            && ((forall j :: env(j).fault == NoFault) ==> (ok <==> rest.Some?))
    decreases |defs| - k
  {
    if k < |defs| {
      UpScriptFrom(defs, k);
      RunAppend(defs[k].up, UpScript(defs[k + 1..]), db.schema);
      if Apply(db, defs[k], env(k)).Some? {
        PushKeepsNoneRecorded(db, defs, applied, k, env(k));
        ApplyRunsRest(Apply(db, defs[k], env(k)).value, defs, applied, env, k + 1);
      }
    }
  }

  lemma UpRunsRest(db: Db, defs: seq<Definition>, sorted: seq<Definition>, k: nat, env: nat -> Attempt)
    requires SortBy(DefinitionId, defs) == sorted && StrictlySorted(DefinitionId, sorted)
    requires RecordsMatch(sorted, db, k)
    ensures var (after, ok) := Up(db, defs, Ready, env);
            var rest := Run(UpScript(sorted[k..]), db.schema);
            && (ok ==> rest == Some(after.schema))
            && ((forall j :: env(j).fault == NoFault) ==> (ok <==> rest.Some?))
  {
    RecordedIds(sorted, db, k);
    SkipsApplied(db, sorted, Ids(db.records), env, 0, k);
    ApplyRunsRest(db, sorted, Ids(db.records), env, k);
  }

  // ----- after a Reset that failed half way

  /** Scripts that only create, on a starting schema that uses none of their names. */
  ghost predicate Installs(sorted: seq<Definition>, start: Schema) {
    && Creates(UpScript(sorted)) && Distinct(UpScript(sorted))
    && WellFormed(start) && Names(UpScript(sorted)) !! Used(start)
  }

  lemma NamesAppend(a: seq<Stmt>, b: seq<Stmt>)
    ensures Names(a + b) == Names(a) + Names(b)
  {
    var all := a + b;
    assert forall i :: 0 <= i < |a| ==> a[i] == all[i];
    assert forall i :: 0 <= i < |b| ==> b[i] == all[|a| + i];
    forall n | n in Names(a) + Names(b) ensures n in Names(all) {
      if i :| 0 <= i < |a| && a[i].name == n { assert all[i].name == n; }
      if i :| 0 <= i < |b| && b[i].name == n { assert all[|a| + i].name == n; }
    }
  }

  /** The parts of a script that creates every name once, which share no name. */
  lemma Parts(a: seq<Stmt>, b: seq<Stmt>)
    requires Creates(a + b) && Distinct(a + b)
    ensures Creates(a) && Creates(b) && Distinct(a) && Distinct(b) && Names(a) !! Names(b)
  {
    assert forall i :: 0 <= i < |a| ==> a[i] == (a + b)[i];
    assert forall i :: 0 <= i < |b| ==> b[i] == (a + b)[|a| + i];
  }

  lemma UpScriptSplit(defs: seq<Definition>, k: nat)
    requires k <= |defs|
    ensures UpScript(defs) == UpScript(defs[..k]) + UpScript(defs[k..])
  {
    UpScriptAppend(defs[..k], defs[k..]);
    assert defs == defs[..k] + defs[k..];
  }

  /** The script of the recorded definitions has run, and that of the rest finds all its names free. */
  lemma Halves(sorted: seq<Definition>, start: Schema, db: Db, k: nat)
    requires Installs(sorted, start) && Stacked(sorted, start, db, k)
    ensures var done, rest := UpScript(sorted[..k]), UpScript(sorted[k..]);
            && UpScript(sorted) == done + rest && Run(done, start) == Some(db.schema)
            && Creates(done) && Creates(rest) && Distinct(done) && Distinct(rest)
            && Names(UpScript(sorted)) == Names(done) + Names(rest) && Names(done) !! Names(rest)
            && Names(done) !! Used(start) && Names(rest) !! Used(db.schema)
            && WellFormed(db.schema)
  {
    var done, rest := UpScript(sorted[..k]), UpScript(sorted[k..]);
    UpScriptSplit(sorted, k);
    Parts(done, rest);
    NamesAppend(done, rest);
    FoldIsScript(sorted[..k], start);
    CreatesExactly(done, start);
    RunWellFormed(done, start);
  }

  /** The tables a Reset that fails at position failAt has dropped. */
  function Dropped(listed: seq<string>, failAt: nat): set<string>
    requires failAt <= |listed|
  {
    set t | t in listed[..failAt]
  }

  /** What a Reset leaves that fails before it has dropped every table. */
  lemma FailedResetLeaves(db: Db, defs: seq<Definition>, listed: seq<string>, failAt: nat, p: Prologue,
                          env: nat -> Attempt)
    requires failAt < |listed|
    ensures var gone := Dropped(listed, failAt);
            Reset(db, defs, listed, failAt, p, env)
            == (Db(Without(db.schema, gone), if RECORD_TABLE in gone then [] else db.records), false)
  {
    DropAllPrefix(db, listed, failAt);
    DropAllDrops(db, listed[..failAt], failAt);
  }

  /** Everything the definitions name exists. */
  ghost predicate Complete(sorted: seq<Definition>, s: Schema) {
    Names(UpScript(sorted)) <= Used(s)
  }

  /** With the record table dropped, a successful Up runs every script and so creates every name. */
  lemma CompleteFromScratch(s: State, sorted: seq<Definition>, left: Schema, env: nat -> Attempt)
    requires SortBy(DefinitionId, s.defs) == sorted && StrictlySorted(DefinitionId, sorted)
    requires Creates(UpScript(sorted)) && Up(Db(left, []), s.defs, Ready, env).1
    ensures Complete(sorted, Up(Db(left, []), s.defs, Ready, env).0.schema)
  {
    UpRunsRest(Db(left, []), s.defs, sorted, 0, env);
    assert sorted[0..] == sorted;
    CreatesExactly(UpScript(sorted), left);
  }

  /** The scripts of the rest touch no dropped table if they ran after the drops. */
  lemma RestTouchesNone(rest: seq<Stmt>, s: Schema, gone: set<string>)
    requires Creates(rest) && Distinct(rest) && Names(rest) !! Used(s) && gone <= s.tables
    requires Run(rest, Without(s, gone)).Some?
    ensures TouchesNone(rest, gone)
  {
    var left := Without(s, gone);
    assert Used(left) <= Used(s);
    RestRunsIff(rest, s, gone);
    forall i | 0 <= i < |rest| ensures rest[i].name !in gone {
      assert rest[i].name in Names(rest);
    }
  }

  lemma FreshKindsFit(script: seq<Stmt>, s: Schema)
    requires Names(script) !! Used(s)
    ensures KindsFit(script, s)
  {
    forall st | st in script ensures st.name !in Used(s) {
      var i :| 0 <= i < |script| && script[i] == st;
      assert script[i].name in Names(script);
    }
  }

  /** Without some tables, a script whose names are free runs exactly if it did with them and indexes none of them. */
  lemma RestRunsIff(rest: seq<Stmt>, s: Schema, gone: set<string>)
    requires Creates(rest) && Distinct(rest) && Names(rest) !! Used(s) && gone <= s.tables
    ensures Run(rest, Without(s, gone)).Some? <==> Buildable(rest, s.tables) && IndexesAvoid(rest, gone)
  {
    var left := Without(s, gone);
    assert Used(left) <= Used(s);
    FreshKindsFit(rest, left);
    RunsIffBuildable(rest, left);
    if Buildable(rest, left.tables) {
      BuildableMore(rest, left.tables, s.tables);
    }
    if Buildable(rest, s.tables) {
      BuildableWithout(rest, s.tables, gone);
    }
  }

  /** With the record table kept, a successful Up completes the schema exactly if the drops touched nothing. */
  lemma CompleteFromRest(s: State, sorted: seq<Definition>, start: Schema, gone: set<string>, env: nat -> Attempt)
    requires SortBy(DefinitionId, s.defs) == sorted && StrictlySorted(DefinitionId, sorted)
    requires Installs(sorted, start) && Stacked(sorted, start, s.db, |s.db.records|) && gone <= s.db.schema.tables
    requires Up(Db(Without(s.db.schema, gone), s.db.records), s.defs, Ready, env).1
    ensures Complete(sorted, Up(Db(Without(s.db.schema, gone), s.db.records), s.defs, Ready, env).0.schema)
            <==> TouchesNone(UpScript(sorted), gone)
  {
    var k := |s.db.records|;
    var done, rest := UpScript(sorted[..k]), UpScript(sorted[k..]);
    var left := Without(s.db.schema, gone);
    Halves(sorted, start, s.db, k);
    UpRunsRest(Db(left, s.db.records), s.defs, sorted, k, env);
    CreatesExactly(rest, left);
    AllSurviveIff(done, start, gone);
    RestTouchesNone(rest, s.db.schema, gone);
    TouchesNoneAppend(done, rest, gone);
  }

  lemma TouchesNoneAppend(a: seq<Stmt>, b: seq<Stmt>, tables: set<string>)
    ensures TouchesNone(a + b, tables) <==> TouchesNone(a, tables) && TouchesNone(b, tables)
  {
    var all := a + b;
    assert forall i :: 0 <= i < |a| ==> a[i] == all[i];
    assert forall i :: 0 <= i < |b| ==> b[i] == all[|a| + i];
  }

  /**
   Whether a successful Up repairs a Reset that failed half way, from any reachable state: everything the
   definitions name exists again if and only if the record table was among the dropped ones, or no dropped
   table is one that the definitions create or put an index on.
   */
  lemma FailedResetRepairedIff(s: State, sorted: seq<Definition>, start: Schema, clock: int,
                               listed: seq<string>, failAt: nat, first: nat -> Attempt, env: nat -> Attempt)
    requires Explained(s, sorted, start, clock) && Installs(sorted, start)
    requires Listing(s.db, listed) && failAt < |listed|
    ensures var left := Reset(s.db, s.defs, listed, failAt, Ready, first).0;
            var (after, ok) := Up(left, s.defs, Ready, env);
            ok ==> (Complete(sorted, after.schema)
                    <==> RECORD_TABLE in listed[..failAt] || TouchesNone(UpScript(sorted), Dropped(listed, failAt)))
  {
    SortAgain(s.defs);
    FailedResetLeaves(s.db, s.defs, listed, failAt, Ready, first);
    var gone := Dropped(listed, failAt);
    var left := Reset(s.db, s.defs, listed, failAt, Ready, first).0;
    if Up(left, s.defs, Ready, env).1 {
      if RECORD_TABLE in gone {
        CompleteFromScratch(s, sorted, left.schema, env);
      } else {
        forall t | t in gone ensures t in s.db.schema.tables { assert t in listed; }
        CompleteFromRest(s, sorted, start, gone, env);
      }
    }
  }

  /**
   When that next Up succeeds, if no call into the database fails: with the record table gone it runs
   every script again, which needs the tables of the starting schema that they index; with the record
   table kept it runs those not yet recorded, which fail at an index on a dropped table.
   */
  lemma UpAfterFailedResetIff(s: State, sorted: seq<Definition>, start: Schema, clock: int,
                              listed: seq<string>, failAt: nat, first: nat -> Attempt, env: nat -> Attempt)
    requires Explained(s, sorted, start, clock) && Installs(sorted, start)
    requires Buildable(UpScript(sorted), start.tables)
    requires Listing(s.db, listed) && failAt < |listed|
    requires forall j :: env(j).fault == NoFault
    ensures var gone := Dropped(listed, failAt);
            var left := Reset(s.db, s.defs, listed, failAt, Ready, first).0;
            Up(left, s.defs, Ready, env).1
            <==> if RECORD_TABLE in gone then IndexesAvoid(UpScript(sorted), start.tables * gone)
                 else IndexesAvoid(UpScript(sorted[|s.db.records|..]), gone)
  {
    SortAgain(s.defs);
    FailedResetLeaves(s.db, s.defs, listed, failAt, Ready, first);
    var k := |s.db.records|;
    var gone := Dropped(listed, failAt);
    Halves(sorted, start, s.db, k);
    if RECORD_TABLE in gone {
      UpRunsRest(Db(Without(s.db.schema, gone), []), s.defs, sorted, 0, env);
      assert sorted[0..] == sorted;
      AllRunsIff(sorted, start, s.db, gone);
    } else {
      UpRunsRest(Db(Without(s.db.schema, gone), s.db.records), s.defs, sorted, k, env);
      forall t | t in gone ensures t in s.db.schema.tables { assert t in listed; }
      RestRunsIff(UpScript(sorted[k..]), s.db.schema, gone);
      BuildableRest(UpScript(sorted[..k]), UpScript(sorted[k..]), start);
    }
  }

  lemma AllRunsIff(sorted: seq<Definition>, start: Schema, db: Db, gone: set<string>)
    requires Installs(sorted, start) && Stacked(sorted, start, db, |db.records|)
    requires Buildable(UpScript(sorted), start.tables)
    ensures Run(UpScript(sorted), Without(db.schema, gone)).Some?
            <==> IndexesAvoid(UpScript(sorted), start.tables * gone)
  {
    var k := |db.records|;
    var done, rest, all := UpScript(sorted[..k]), UpScript(sorted[k..]), UpScript(sorted);
    var left := Without(db.schema, gone);
    Halves(sorted, start, db, k);
    CreatedKindsFit(done, start);
    FreshKindsFit(rest, db.schema);
    assert KindsFit(all, left) by {
      forall st | st in all
        ensures if st.CreateTable? then st.name !in left.indexes else st.name !in left.tables
      {
        assert st in done || st in rest;
      }
    }
    RunsIffBuildable(all, left);
    var more := db.schema.tables - (gone - start.tables);
    BuildableMore(all, start.tables, more);
    BuildableWithout(all, more, start.tables * gone);
    assert more - start.tables * gone == left.tables;
  }

  /** With every definition recorded and the record table kept, that Up succeeds and changes nothing at all. */
  lemma InterruptedResetSticks(s: State, sorted: seq<Definition>, clock: int,
                               listed: seq<string>, failAt: nat, first: nat -> Attempt, env: nat -> Attempt)
    requires Ordered(s, sorted, clock) && |s.db.records| == |sorted|
    requires failAt < |listed| && RECORD_TABLE !in listed[..failAt]
    ensures var left := Reset(s.db, s.defs, listed, failAt, Ready, first).0;
            left.schema == Without(s.db.schema, Dropped(listed, failAt)) && Up(left, s.defs, Ready, env) == (left, true)
  {
    SortAgain(s.defs);
    FailedResetLeaves(s.db, s.defs, listed, failAt, Ready, first);
    var left := Reset(s.db, s.defs, listed, failAt, Ready, first).0;
    RecordedIds(sorted, left, |sorted|);
    SkipsApplied(left, sorted, Ids(left.records), env, 0, |sorted|);
  }

  // ----- runs with complete Resets

  /** The script neither creates a table of the reserved form nor puts an index on one. */
  predicate AvoidsReserved(script: seq<Stmt>) {
    forall i :: 0 <= i < |script| ==>
      match script[i]
      case CreateTable(n) => !KeptByReset(n)
      case CreateIndex(_, t) => !KeptByReset(t)
      case _ => true
  }

  /** Nothing such a script creates survives a complete Reset, and everything else that would have still does. */
  lemma {:induction false} SameSurvivors(script: seq<Stmt>, s: Schema)
    requires Creates(script) && AvoidsReserved(script) && WellFormed(s) && Run(script, s).Some?
    ensures Survivors(Run(script, s).value) == Survivors(s)
  {
    if script != [] {
      var t := Exec(script[0], s).value;
      assert WellFormed(t);
      assert Survivors(t).tables == Survivors(s).tables;
      assert Survivors(t).indexes == Survivors(s).indexes;
      SameSurvivors(script[1..], t);
    }
  }

  lemma SurvivorsSurvive(s: Schema)
    requires WellFormed(s)
    ensures Survivors(Survivors(s)) == Survivors(s)
    ensures WellFormed(Survivors(s)) && Used(Survivors(s)) <= Used(s)
  {
    assert !KeptByReset(RECORD_TABLE);
    assert Survivors(Survivors(s)).tables == Survivors(s).tables;
    assert Survivors(Survivors(s)).indexes == Survivors(s).indexes;
  }

  /** Every Reset of the run drops all the tables its query lists. */
  ghost predicate CompleteResets(s: State, run: seq<Action>) {
    run == [] ||
    (var before, a := run[..|run| - 1], run[|run| - 1];
     CompleteResets(s, before) && (a.DoReset? ==> Rebuilds(a) && Listing(Play(s, before).db, a.listed)))
  }

  /** The schema a complete Reset leaves, whatever was applied before it. */
  lemma ResetToSurvivors(sorted: seq<Definition>, ground: Schema, k: nat)
    requires k <= |sorted| && FoldUps(sorted[..k], ground).Some? && WellFormed(ground)
    requires Creates(UpScript(sorted)) && AvoidsReserved(UpScript(sorted))
    ensures Survivors(FoldUps(sorted[..k], ground).value) == Survivors(ground)
  {
    var part, all := UpScript(sorted[..k]), UpScript(sorted);
    UpScriptPrefix(sorted, k);
    FoldIsScript(sorted[..k], ground);
    assert forall i :: 0 <= i < |part| ==> part[i] == all[i];
    SameSurvivors(part, ground);
  }

  /**
   For mirrored definitions that keep off the reserved names, on a starting schema that uses none of theirs,
   every run with complete Resets is sound: what the migrations stand on is the starting schema, or what a
   Reset leaves of it.
   */
  lemma {:induction false} MirroredSound(s: State, sorted: seq<Definition>, run: seq<Action>, t: int)
    requires Ordered(s, sorted, t) && s.db.records == [] && WellFormed(s.db.schema)
    requires Mirrored(sorted) && AvoidsReserved(UpScript(sorted)) && Names(UpScript(sorted)) !! Used(s.db.schema)
    requires Clocked(run, |sorted|, t) && CompleteResets(s, run)
    ensures Sound(s, sorted, run)
    ensures Ground(s, run) == s.db.schema || Ground(s, run) == Survivors(s.db.schema)
  {
    if run != [] {
      var before, a := run[..|run| - 1], run[|run| - 1];
      MirroredSound(s, sorted, before, t);
      RunsExplained(s, sorted, before, t);
      SurvivorsSurvive(s.db.schema);
      var ground := Ground(s, before);
      if a.DoDown? { MirroredUndo(sorted, ground); }
      if a.DoReset? { ResetToSurvivors(sorted, ground, |Play(s, before).db.records|); }
    }
  }

  // ----- the production migrations

  const PRODUCTION_TABLES := {"clusters", "nodes", "gpio_devices", "gpio_readings"}

  lemma TableScriptTouches(script: seq<Stmt>, tables: set<string>)
    requires TableScript(script)
    ensures TouchesNone(script, tables) <==> script[0].name !in tables
  {
  }

  lemma ProductionTouches(tables: set<string>)
    ensures TouchesNone(WholeScript(), tables) <==> PRODUCTION_TABLES !! tables
  {
    var c, n, d, r, x := CreateClustersTable(), CreateNodesTable(), CreateGPIODevicesTable(),
        CreateGPIOReadingsTable(), AddPerformanceIndexes();
    TableScriptTouches(c, tables);
    TableScriptTouches(n, tables);
    TableScriptTouches(d, tables);
    TableScriptTouches(r, tables);
    TouchesNoneAppend(c, n, tables);
    TouchesNoneAppend(c + n, d, tables);
    TouchesNoneAppend(c + n + d, r, tables);
    TouchesNoneAppend(c + n + d + r, x, tables);
  }

  /**
   The production migrations after a Reset that failed half way, whatever was recorded: a successful Up
   brings back everything exactly if the record table or none of their four tables was dropped.
   */
  lemma ProductionRepairedIff(s: State, start: Schema, clock: int, listed: seq<string>, failAt: nat,
                              first: nat -> Attempt, env: nat -> Attempt)
    requires Explained(s, AllMigrations(), start, clock)
    requires WellFormed(start) && Names(WholeScript()) !! Used(start)
    requires Listing(s.db, listed) && failAt < |listed|
    ensures var left := Reset(s.db, s.defs, listed, failAt, Ready, first).0;
            var (after, ok) := Up(left, s.defs, Ready, env);
            ok ==> (Names(WholeScript()) <= Used(after.schema)
                    <==> "migrations" in listed[..failAt]
                         || {"clusters", "nodes", "gpio_devices", "gpio_readings"} !! Dropped(listed, failAt))
  {
    AllUpScript();
    ProductionMirrored();
    FailedResetRepairedIff(s, AllMigrations(), start, clock, listed, failAt, first, env);
    ProductionTouches(Dropped(listed, failAt));
  }

  lemma AvoidsAppend(a: seq<Stmt>, b: seq<Stmt>)
    requires AvoidsReserved(a) && AvoidsReserved(b)
    ensures AvoidsReserved(a + b)
  {
  }

  lemma TableScriptAvoids(script: seq<Stmt>)
    requires TableScript(script) && !KeptByReset(script[0].name)
    ensures AvoidsReserved(script)
  {
  }

  lemma ProductionAvoidsReserved()
    ensures AvoidsReserved(WholeScript())
  {
    var c, n, d, r, x := CreateClustersTable(), CreateNodesTable(), CreateGPIODevicesTable(),
        CreateGPIOReadingsTable(), AddPerformanceIndexes();
    TableScriptAvoids(c);
    TableScriptAvoids(n);
    TableScriptAvoids(d);
    TableScriptAvoids(r);
    AvoidsAppend(c, n);
    AvoidsAppend(c + n, d);
    AvoidsAppend(c + n + d, r);
    AvoidsAppend(c + n + d + r, x);
  }

  /**
   The production migrations, on any well-formed schema that uses none of their names: after any run of Ups
   and Downs failing anywhere, and complete Resets, the records are the first migrations in order, and they
   explain the schema over the starting one or what a Reset leaves of it.
   */
  lemma ProductionRunsExplained(start: Schema, run: seq<Action>, t: int)
    requires WellFormed(start) && Names(WholeScript()) !! Used(start)
    requires var s := State(Db(start, []), AllMigrations());
             Clocked(run, |AllMigrations()|, t) && CompleteResets(s, run)
    ensures var s := State(Db(start, []), AllMigrations());
            var clock := ClockAtEnd(run, |AllMigrations()|, t);
            || Explained(Play(s, run), AllMigrations(), start, clock)
            || Explained(Play(s, run), AllMigrations(), Survivors(start), clock)
  {
    var s := State(Db(start, []), AllMigrations());
    ProductionOrdered(start, t);
    AllUpScript();
    ProductionMirrored();
    ProductionAvoidsReserved();
    MirroredSound(s, AllMigrations(), run, t);
    RunsExplained(s, AllMigrations(), run, t);
  }

  lemma ProductionOrdered(start: Schema, t: int)
    ensures Ordered(State(Db(start, []), AllMigrations()), AllMigrations(), t)
  {
    ProductionSorted();
    StrictlySortedIsSorted(AllMigrations());
  }

  lemma StrictlySortedIsSorted(defs: seq<Definition>)
    requires StrictlySorted(DefinitionId, defs)
    ensures DistinctKeys(DefinitionId, defs) && SortBy(DefinitionId, defs) == defs
  {
    forall i, j | 0 <= i < j < |defs| ensures DefinitionId(defs[i]) != DefinitionId(defs[j]) {
      StrIrreflexive(DefinitionId(defs[i]));
    }
    SortByStrict(DefinitionId, defs);
    StrictlySortedUnique(DefinitionId, SortBy(DefinitionId, defs), defs);
  }
}
