/**
 The database schema at the level of names, and the DDL the migrations execute on it.
 A schema is the set of its tables and, for every index, the table it belongs to.
 Columns, rows and the text of the SQL are not part of this model.
 */
module Schemas {
  import opened Options

  datatype Stmt =
    | CreateTable(name: string)                 // CREATE TABLE IF NOT EXISTS
    | CreateIndex(name: string, table: string)  // CREATE [UNIQUE] INDEX IF NOT EXISTS ... ON table
    | DropIndex(name: string)                   // DROP INDEX IF EXISTS
    | DropTable(name: string)                   // DROP TABLE IF EXISTS

  datatype Schema = Schema(tables: set<string>, indexes: map<string, string>)

  const EMPTY := Schema({}, map[])

  /** Every index belongs to an existing table, and no name is both a table and an index. */
  ghost predicate WellFormed(s: Schema) {
    && s.indexes.Keys !! s.tables
    && forall n :: n in s.indexes ==> s.indexes[n] in s.tables
  }

  function Used(s: Schema): set<string> {
    s.tables + s.indexes.Keys
  }

  /** One statement, as SQLite executes it; None is an error of the engine. */
  function Exec(st: Stmt, s: Schema): Option<Schema> {
    match st
    case CreateTable(n) =>
      if n in s.tables then Some(s)
      else if n in s.indexes then None  // there is already an index of this name
      else Some(s.(tables := s.tables + {n}))
    case CreateIndex(n, t) =>
      if t !in s.tables || n in s.tables then None  // no such table, or a table of this name
      else if n in s.indexes then Some(s)
      else Some(s.(indexes := s.indexes[n := t]))
    case DropIndex(n) =>
      Some(s.(indexes := s.indexes - {n}))
    case DropTable(n) =>
      // dropping a table drops its indexes with it
      Some(Schema(s.tables - {n}, map i | i in s.indexes && s.indexes[i] != n :: s.indexes[i]))
  }

  /** A multi-statement script stops at its first failing statement. */
  function Run(script: seq<Stmt>, s: Schema): Option<Schema> {
    if script == [] then Some(s)
    else match Exec(script[0], s)
      case None => None
      case Some(t) => Run(script[1..], t)
  }

  lemma {:induction false} RunAppend(a: seq<Stmt>, b: seq<Stmt>, s: Schema)
    ensures Run(a + b, s) == match Run(a, s) case None => None case Some(t) => Run(b, t)
  {
    if a == [] {
      assert a + b == b;
    } else {
      assert (a + b)[1..] == a[1..] + b;
      match Exec(a[0], s)
      case None =>
      case Some(t) => RunAppend(a[1..], b, t);
    }
  }

  lemma {:induction false} RunWellFormed(script: seq<Stmt>, s: Schema)
    requires WellFormed(s) && Run(script, s).Some?
    ensures WellFormed(Run(script, s).value)
  {
    if script != [] {
      var t := Exec(script[0], s).value;
      assert WellFormed(t);
      RunWellFormed(script[1..], t);
    }
  }

  // ----- scripts that only create, and their mirror image

  predicate Creates(script: seq<Stmt>) {
    forall i :: 0 <= i < |script| ==> script[i].CreateTable? || script[i].CreateIndex?
  }

  function Names(script: seq<Stmt>): set<string> {
    set i | 0 <= i < |script| :: script[i].name
  }

  /** No name is used twice in the script. */
  predicate Distinct(script: seq<Stmt>) {
    forall i, j :: 0 <= i < j < |script| ==> script[i].name != script[j].name
  }

  function Inverse(st: Stmt): Stmt {
    match st
    case CreateTable(n) => DropTable(n)
    case CreateIndex(n, _) => DropIndex(n)
    case _ => st
  }

  /** The mirror image of a script: its statements inverted, last one first. */
  function Mirror(script: seq<Stmt>): seq<Stmt> {
    if script == [] then [] else Mirror(script[1..]) + [Inverse(script[0])]
  }

  lemma NamesStep(script: seq<Stmt>)
    requires script != []
    ensures Names(script) == {script[0].name} + Names(script[1..])
  {
    var rest := script[1..];
    forall n | n in Names(script) ensures n in {script[0].name} + Names(rest) {
      var i :| 0 <= i < |script| && script[i].name == n;
      if i > 0 { assert rest[i - 1].name == n; }
    }
    forall n | n in Names(rest) ensures n in Names(script) {
      var i :| 0 <= i < |rest| && rest[i].name == n;
      assert script[i + 1].name == n;
    }
  }

  /** A creating script that succeeds adds exactly its own names, whatever existed before. */
  lemma {:induction false} CreatesExactly(script: seq<Stmt>, s: Schema)
    requires Creates(script) && Run(script, s).Some?
    ensures Used(Run(script, s).value) == Used(s) + Names(script)
  {
    if script != [] {
      var t := Exec(script[0], s).value;
      assert Used(t) == Used(s) + {script[0].name};
      CreatesExactly(script[1..], t);
      NamesStep(script);
    }
  }

  /** Undoing one creating statement whose name was free gives back the schema before it. */
  lemma UndoOne(st: Stmt, s: Schema)
    requires WellFormed(s) && (st.CreateTable? || st.CreateIndex?)
    requires st.name !in Used(s) && Exec(st, s).Some?
    ensures Exec(Inverse(st), Exec(st, s).value) == Some(s)
  {
    var t := Exec(st, s).value;
    var u := Exec(Inverse(st), t).value;
    assert u.tables == s.tables;
    assert u.indexes == s.indexes;
  }

  /**
   A creating script is undone exactly by its mirror image on every well-formed schema in which its
   names are free.
   */
  lemma {:induction false} MirrorUndoes(script: seq<Stmt>, s: Schema)
    requires WellFormed(s) && Creates(script) && Distinct(script)
    requires Names(script) !! Used(s) && Run(script, s).Some?
    ensures Run(Mirror(script), Run(script, s).value) == Some(s)
  {
    if script != [] {
      NamesStep(script);
      var rest := script[1..];
      var t := Exec(script[0], s).value;
      assert WellFormed(t);
      assert Names(rest) !! Used(t) by {
        assert Used(t) == Used(s) + {script[0].name};
        assert script[0].name !in Names(rest);
      }
      MirrorUndoes(rest, t);
      RunAppend(Mirror(rest), [Inverse(script[0])], Run(rest, t).value);
      assert script[0].name in Names(script);
      UndoOne(script[0], s);
    }
  }

  /** Every index the script creates has its table: already there, or created earlier in the script. */
  predicate Buildable(script: seq<Stmt>, tables: set<string>) {
    script == [] ||
    match script[0]
    case CreateTable(n) => Buildable(script[1..], tables + {n})
    case CreateIndex(_, t) => t in tables && Buildable(script[1..], tables)
    case _ => false
  }

  lemma {:induction false} BuildableRuns(script: seq<Stmt>, s: Schema)
    requires Creates(script) && Distinct(script) && Buildable(script, s.tables)
    requires Names(script) !! Used(s)
    ensures Run(script, s).Some?
    ensures forall st :: st in script && st.CreateTable? ==> st.name in Run(script, s).value.tables
    ensures s.tables <= Run(script, s).value.tables
  {
    if script != [] {
      NamesStep(script);
      var rest := script[1..];
      var t := Exec(script[0], s).value;
      assert Used(t) == Used(s) + {script[0].name};
      assert script[0].name !in Names(rest);
      BuildableRuns(rest, t);
    }
  }

  /** No table name of the script is in use for an index, and the other way round. */
  ghost predicate KindsFit(script: seq<Stmt>, s: Schema) {
    forall st :: st in script ==> if st.CreateTable? then st.name !in s.indexes else st.name !in s.tables
  }

  lemma {:induction false} CreatedKindsFit(script: seq<Stmt>, s: Schema)
    requires Creates(script) && WellFormed(s) && Run(script, s).Some?
    ensures KindsFit(script, Run(script, s).value)
    ensures s.tables <= Run(script, s).value.tables && s.indexes.Keys <= Run(script, s).value.indexes.Keys
  {
    RunWellFormed(script, s);
    if script != [] {
      var t := Exec(script[0], s).value;
      assert WellFormed(t);
      CreatedKindsFit(script[1..], t);
    }
  }

  function TablesOf(script: seq<Stmt>): set<string> {
    if script == [] then {}
    else (if script[0].CreateTable? then {script[0].name} else {}) + TablesOf(script[1..])
  }

  lemma {:induction false} BuildablePieces(a: seq<Stmt>, b: seq<Stmt>, tables: set<string>)
    requires Buildable(a, tables) && Buildable(b, tables + TablesOf(a))
    ensures Buildable(a + b, tables) && TablesOf(a + b) == TablesOf(a) + TablesOf(b)
    decreases |a|
  {
    if a == [] {
      assert a + b == b && tables + TablesOf(a) == tables;
    } else {
      assert (a + b)[1..] == a[1..] + b;
      var more := if a[0].CreateTable? then tables + {a[0].name} else tables;
      assert more + TablesOf(a[1..]) == tables + TablesOf(a);
      BuildablePieces(a[1..], b, more);
    }
  }

  /** Where none of its names is in use for the other kind, being buildable is what a script needs to run. */
  lemma {:induction false} RunsIffBuildable(script: seq<Stmt>, s: Schema)
    requires Creates(script) && Distinct(script) && KindsFit(script, s)
    ensures Run(script, s).Some? <==> Buildable(script, s.tables)
  {
    if script != [] {
      var rest := script[1..];
      assert script[0] in script;
      if Exec(script[0], s).Some? {
        var t := Exec(script[0], s).value;
        assert t.tables == if script[0].CreateTable? then s.tables + {script[0].name} else s.tables;
        forall st | st in rest
          ensures if st.CreateTable? then st.name !in t.indexes else st.name !in t.tables
        {
          var i :| 0 <= i < |rest| && rest[i] == st;
          assert script[i + 1] == st && script[i + 1] in script;
        }
        RunsIffBuildable(rest, t);
      }
    }
  }

  /** What is left of a buildable script after a piece of it has run is buildable on the result. */
  lemma {:induction false} BuildableRest(a: seq<Stmt>, b: seq<Stmt>, s: Schema)
    requires Creates(a) && Buildable(a + b, s.tables) && Run(a, s).Some?
    ensures Buildable(b, Run(a, s).value.tables)
  {
    if a == [] {
      assert a + b == b;
    } else {
      var t := Exec(a[0], s).value;
      assert (a + b)[1..] == a[1..] + b;
      assert t.tables == if a[0].CreateTable? then s.tables + {a[0].name} else s.tables;
      BuildableRest(a[1..], b, t);
    }
  }

  lemma {:induction false} BuildableMore(script: seq<Stmt>, tables: set<string>, more: set<string>)
    requires Buildable(script, tables) && tables <= more
    ensures Buildable(script, more)
  {
    if script != [] {
      if script[0].CreateTable? {
        BuildableMore(script[1..], tables + {script[0].name}, more + {script[0].name});
      } else {
        BuildableMore(script[1..], tables, more);
      }
    }
  }

  predicate IndexesAvoid(script: seq<Stmt>, tables: set<string>) {
    forall i :: 0 <= i < |script| && script[i].CreateIndex? ==> script[i].table !in tables
  }

  /** Taking tables away that the script does not create breaks it exactly at the indexes on them. */
  lemma {:induction false} BuildableWithout(script: seq<Stmt>, tables: set<string>, gone: set<string>)
    requires Buildable(script, tables) && Names(script) !! gone
    ensures Buildable(script, tables - gone) <==> IndexesAvoid(script, gone)
  {
    if script != [] {
      NamesStep(script);
      var rest := script[1..];
      assert forall i :: 0 <= i < |rest| ==> rest[i] == script[i + 1];
      assert IndexesAvoid(script, gone) <==>
        IndexesAvoid(rest, gone) && (script[0].CreateIndex? ==> script[0].table !in gone) by {
        assert forall i :: 1 <= i < |script| ==> script[i] == rest[i - 1];
      }
      if script[0].CreateTable? {
        BuildableWithout(rest, tables + {script[0].name}, gone);
        assert tables + {script[0].name} - gone == tables - gone + {script[0].name};
      } else {
        BuildableWithout(rest, tables, gone);
      }
    }
  }

  /** A creating script keeps what exists, and what it adds is what it says, whatever existed before. */
  lemma {:induction false} KeepsExisting(script: seq<Stmt>, s: Schema)
    requires Creates(script) && Run(script, s).Some?
    ensures var t := Run(script, s).value;
            && t.tables == s.tables + TablesOf(script)
            && (forall n :: n in s.indexes ==> n in t.indexes && t.indexes[n] == s.indexes[n])
            && forall n :: n in t.indexes && n !in s.indexes ==> CreateIndex(n, t.indexes[n]) in script
  {
    if script != [] {
      var t := Exec(script[0], s).value;
      KeepsExisting(script[1..], t);
      assert script == [script[0]] + script[1..];
    }
  }

  /** Where the names were free, every statement leaves what it says. */
  lemma {:induction false} CreatedAsTold(script: seq<Stmt>, s: Schema, i: nat)
    requires Creates(script) && Distinct(script) && Names(script) !! Used(s)
    requires Run(script, s).Some? && i < |script|
    ensures var t := Run(script, s).value;
            match script[i]
            case CreateTable(n) => n in t.tables
            case CreateIndex(n, on) => n in t.indexes && t.indexes[n] == on
  {
    NamesStep(script);
    var rest := script[1..];
    var t := Exec(script[0], s).value;
    assert Used(t) == Used(s) + {script[0].name};
    assert script[0].name !in Names(rest);
    if i > 0 { CreatedAsTold(rest, t, i - 1); }
    KeepsExisting(rest, t);
  }

  function Without(s: Schema, dropped: set<string>): Schema {
    Schema(s.tables - dropped, map i | i in s.indexes && s.indexes[i] !in dropped :: s.indexes[i])
  }

  /** The script neither creates one of these tables nor puts an index on one. */
  predicate TouchesNone(script: seq<Stmt>, tables: set<string>) {
    forall i :: 0 <= i < |script| ==>
      match script[i]
      case CreateTable(n) => n !in tables
      case CreateIndex(_, t) => t !in tables
      case _ => true
  }

  /** What a script created is all still there, after tables were dropped, exactly when it touches none of them. */
  lemma AllSurviveIff(script: seq<Stmt>, s: Schema, dropped: set<string>)
    requires Creates(script) && Distinct(script) && WellFormed(s) && Names(script) !! Used(s)
    requires Run(script, s).Some?
    ensures Names(script) <= Used(Without(Run(script, s).value, dropped)) <==> TouchesNone(script, dropped)
  {
    var t := Run(script, s).value;
    var left := Without(t, dropped);
    RunWellFormed(script, s);
    forall i | 0 <= i < |script|
      ensures script[i].name in Names(script)
      ensures script[i].name in Used(left) <==>
              match script[i] case CreateTable(n) => n !in dropped case CreateIndex(_, on) => on !in dropped
    {
      CreatedAsTold(script, s, i);
    }
  }
}
