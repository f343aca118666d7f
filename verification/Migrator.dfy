/** The migrator itself: it sorts its definitions in place and changes the database in transactions. */
module MigratorService {
  import opened Options
  import opened Ordering
  import opened Schemas
  import opened Migrations
  import opened MigrationIds

  class Database {
    var schema: Schema
    var records: seq<Record>

    constructor (s: Schema, rs: seq<Record>)
      ensures schema == s && records == rs
    {
      schema, records := s, rs;
    }

    function State(): Db
      reads this
    {
      Db(schema, records)
    }

    /** Executes a script statement by statement; what ran before a failure stays until a rollback. */
    method ExecScript(script: seq<Stmt>, f: Fault) returns (ok: bool)
      modifies this`schema
      ensures ok <==> Execute(script, old(schema), f).Some?
      ensures ok ==> schema == Execute(script, old(schema), f).value
    {
      var i := 0;
      while i < |script|
        invariant 0 <= i <= |script|
        invariant f.AtStatement? ==> i <= f.n
        invariant Run(script, old(schema)) == Run(script[i..], schema)
      {
        var result := Exec(script[i], schema);
        assert script[i..][1..] == script[i + 1..];
        if f == AtStatement(i) || result == None {
          return false;
        }
        schema := result.value;
        i := i + 1;
      }
      return true;
    }
  }

  datatype OrderError = WrongLength(id: string) | NotNumeric(id: string) | Duplicate(id: string)

  class Migrator {
    const db: Database
    var migrations: seq<Definition>

    constructor (database: Database, definitions: seq<Definition>)
      ensures db == database && migrations == definitions
    {
      db, migrations := database, definitions;
    }

    /** One migration in a transaction: its Up and its record are committed together or not at all. */
    method ApplyInTransaction(d: Definition, a: Attempt) returns (ok: bool)
      modifies db
      ensures ok <==> Apply(old(db.State()), d, a).Some?
      ensures db.State() == if ok then Apply(old(db.State()), d, a).value else old(db.State())
    {
      var schema, records := db.schema, db.records;
      ok := db.ExecScript(d.up, a.fault);
      if ok {
        if a.fault.AtRecord? || Recorded(db.records, d.id) {
          ok := false;
        } else {
          db.records := db.records + [Record(d.id, a.now, d.description)];
          ok := !a.fault.AtCommit?;
        }
      }
      if !ok {
        db.schema, db.records := schema, records;
      }
    }

    method RevertInTransaction(d: Definition, f: Fault) returns (ok: bool)
      modifies db
      ensures ok <==> Revert(old(db.State()), d, f).Some?
      ensures db.State() == if ok then Revert(old(db.State()), d, f).value else old(db.State())
    {
      var schema, records := db.schema, db.records;
      ok := db.ExecScript(d.down, f);
      if ok {
        if f.AtRecord? {
          ok := false;
        } else {
          db.records := Remove(db.records, d.id);
          ok := !f.AtCommit?;
        }
      }
      if !ok {
        db.schema, db.records := schema, records;
      }
    }

    method AppliedIds() returns (applied: set<string>)
      ensures applied == Ids(db.records)
    {
      applied := {};
      for i := 0 to |db.records|
        invariant applied == Ids(db.records[..i])
      {
        applied := applied + {db.records[i].id};
        IdsStep(db.records, i);
      }
      assert db.records[..|db.records|] == db.records;
    }

    method Up(p: Prologue, env: nat -> Attempt) returns (ok: bool)
      modifies this`migrations, db
      ensures (db.State(), ok) == Migrations.Up(old(db.State()), old(migrations), p, env)
      ensures migrations == AfterUp(old(migrations), p)
    {
      if p != Ready {
        return false;
      }
      var applied := AppliedIds();
      migrations := SortBy(DefinitionId, migrations);
      for i := 0 to |migrations|
        invariant migrations == SortBy(DefinitionId, old(migrations))
        invariant ApplyFrom(db.State(), migrations, applied, env, i)
               == ApplyFrom(old(db.State()), migrations, applied, env, 0)
      {
        if migrations[i].id !in applied {
          var done := ApplyInTransaction(migrations[i], env(i));
          if !done {
            return false;
          }
        }
      }
      return true;
    }

    method Down(p: Prologue, f: Fault) returns (ok: bool)
      modifies db
      ensures (db.State(), ok) == Migrations.Down(old(db.State()), migrations, p, f)
      ensures p != Ready ==> !ok && db.State() == old(db.State())
      ensures old(db.records) != [] && (forall d :: d in migrations ==> d.id != Latest(old(db.records)).id) ==>
                !ok && db.State() == old(db.State())
    {
      if p != Ready {
        return false;
      }
      if db.records == [] {
        return true;
      }
      var id := Latest(db.records).id;
      var i := 0;
      while i < |migrations| && migrations[i].id != id
        invariant 0 <= i <= |migrations|
        invariant Find(migrations, id) == Find(migrations[i..], id)
      {
        assert migrations[i..][1..] == migrations[i + 1..];
        i := i + 1;
      }
      if i == |migrations| {
        return false;
      }
      assert migrations[i] in migrations;
      ok := RevertInTransaction(migrations[i], f);
    }

    method StatusReport(p: Prologue) returns (statuses: Option<seq<Status>>)
      ensures statuses == if p == Ready then Some(Statuses(db.State(), migrations)) else None
    {
      if p != Ready {
        return None;
      }
      // the map is filled row by row, so the last row of an ID stays
      var appliedMap: map<string, int> := map[];
      for i := 0 to |db.records|
        invariant forall id :: id in appliedMap <==> AppliedAt(db.records[..i], id).Some?
        invariant forall id :: id in appliedMap ==> AppliedAt(db.records[..i], id) == Some(appliedMap[id])
      {
        assert db.records[..i + 1][..i] == db.records[..i];
        appliedMap := appliedMap[db.records[i].id := db.records[i].appliedAt];
      }
      assert db.records[..|db.records|] == db.records;
      var list: seq<Status> := [];
      for i := 0 to |migrations|
        invariant list == Unsorted(db.State(), migrations[..i])
      {
        assert migrations[..i + 1][..i] == migrations[..i];
        var d := migrations[i];
        var appliedAt := if d.id in appliedMap then Some(appliedMap[d.id]) else None;
        list := list + [Status.Status(d.id, d.description, appliedAt)];
      }
      assert migrations[..|migrations|] == migrations;
      return Some(SortBy(StatusId, list));
    }

    method GetPendingMigrations(p: Prologue) returns (pending: Option<seq<Definition>>)
      ensures pending == if p == Ready then Some(Pending(db.State(), migrations)) else None
    {
      if p != Ready {
        return None;
      }
      var list: seq<Definition> := [];
      for i := 0 to |migrations|
        invariant list == NotApplied(db.State(), migrations[..i])
      {
        assert migrations[..i + 1][..i] == migrations[..i];
        if !Recorded(db.records, migrations[i].id) {
          list := list + [migrations[i]];
        }
      }
      assert migrations[..|migrations|] == migrations;
      return Some(SortBy(DefinitionId, list));
    }

    /** Drops the listed tables one by one, outside any transaction, then runs Up. */
    method Reset(listed: seq<string>, failAt: nat, p: Prologue, env: nat -> Attempt) returns (ok: bool)
      modifies this`migrations, db
      ensures (db.State(), ok) == Migrations.Reset(old(db.State()), old(migrations), listed, failAt, p, env)
      ensures migrations == if failAt < |listed| then old(migrations) else AfterUp(old(migrations), p)
    {
      var i := 0;
      while i < |listed|
        invariant 0 <= i <= |listed| && i <= failAt
        invariant migrations == old(migrations)
        invariant DropAll(db.State(), listed[i..], failAt - i) == DropAll(old(db.State()), listed, failAt)
      {
        assert listed[i..][1..] == listed[i + 1..];
        if i == failAt {
          return false;
        }
        db.schema := Exec(DropTable(listed[i]), db.schema).value;
        if listed[i] == RECORD_TABLE {
          db.records := [];
        }
        i := i + 1;
      }
      ok := Up(p, env);
    }

    /** Succeeds exactly on lists of distinct 14-character numerals; an error names an offending ID. */
    method ValidateMigrationOrder() returns (err: Option<OrderError>)
      modifies this`migrations
      ensures migrations == SortBy(DefinitionId, old(migrations))
      ensures err == None <==>
              (forall d :: d in old(migrations) ==> ValidId(d.id))
              && DistinctKeys(DefinitionId, old(migrations))
      ensures err.Some? ==> match err.value
              case WrongLength(id) => |id| != ID_LENGTH && exists d :: d in old(migrations) && d.id == id
              case NotNumeric(id) =>
                |id| == ID_LENGTH && ParseInt(id) == None && exists d :: d in old(migrations) && d.id == id
              case Duplicate(id) =>
                exists i, j :: 0 <= i < j < |migrations| && migrations[i].id == migrations[j].id == id
    {
      if migrations == [] {
        return None;
      }
      SortKeeps(migrations);
      migrations := SortBy(DefinitionId, migrations);
      err := CheckFormat(migrations);
      if err == None {
        err := CheckDistinct(migrations);
      }
    }

    static method CheckFormat(defs: seq<Definition>) returns (err: Option<OrderError>)
      ensures err == None <==> forall d :: d in defs ==> ValidId(d.id)
      ensures err.Some? ==> match err.value
              case WrongLength(id) => |id| != ID_LENGTH && exists d :: d in defs && d.id == id
              case NotNumeric(id) => |id| == ID_LENGTH && ParseInt(id) == None && exists d :: d in defs && d.id == id
              case Duplicate(_) => false
    {
      for i := 0 to |defs|
        invariant forall d :: d in defs[..i] ==> ValidId(d.id)
      {
        assert defs[i] in defs;
        if |defs[i].id| != ID_LENGTH {
          return Some(WrongLength(defs[i].id));
        }
        if ParseInt(defs[i].id) == None {
          return Some(NotNumeric(defs[i].id));
        }
      }
      assert defs[..|defs|] == defs;
      return None;
    }

    static method CheckDistinct(defs: seq<Definition>) returns (err: Option<OrderError>)
      ensures err == None <==> DistinctKeys(DefinitionId, defs)
      ensures err.Some? ==>
                && err.value.Duplicate?
                && exists i, j :: 0 <= i < j < |defs| && defs[i].id == defs[j].id == err.value.id
    {
      var seen: set<string> := {};
      for i := 0 to |defs|
        invariant seen == set j | 0 <= j < i :: defs[j].id
        invariant forall j, l :: 0 <= j < l < i ==> defs[j].id != defs[l].id
      {
        if defs[i].id in seen {
          var j :| 0 <= j < i && defs[j].id == defs[i].id;
          assert DefinitionId(defs[j]) == DefinitionId(defs[i]);
          return Some(Duplicate(defs[i].id));
        }
        seen := seen + {defs[i].id};
      }
      return None;
    }
  }

  lemma IdsStep(records: seq<Record>, i: nat)
    requires i < |records|
    ensures Ids(records[..i + 1]) == Ids(records[..i]) + {records[i].id}
  {
    assert records[..i + 1][i].id in Ids(records[..i + 1]);
    forall id | id in Ids(records[..i]) ensures id in Ids(records[..i + 1]) {
      var j :| 0 <= j < i && records[..i][j].id == id;
      assert records[..i + 1][j].id == id;
    }
  }

  lemma {:induction false} InsertDistinct(x: Definition, xs: seq<Definition>)
    ensures forall y :: y in Insert(DefinitionId, x, xs) <==> y == x || y in xs
    ensures DistinctKeys(DefinitionId, Insert(DefinitionId, x, xs)) ==>
              DistinctKeys(DefinitionId, xs) && forall y :: y in xs ==> y.id != x.id
  {
    var r := Insert(DefinitionId, x, xs);
    if xs == [] || StrLess(x.id, xs[0].id) {
      assert r[1..] == xs;
      assert DistinctKeys(DefinitionId, r) ==> forall i :: 1 <= i < |r| ==> DefinitionId(r[i]) != DefinitionId(r[0]);
    } else {
      InsertDistinct(x, xs[1..]);
      var rest := r[1..];
      assert xs == [xs[0]] + xs[1..] && r == [xs[0]] + rest;
      if DistinctKeys(DefinitionId, r) {
        forall y | y in rest ensures y.id != xs[0].id {
          var i :| 0 <= i < |rest| && rest[i] == y;
          assert DefinitionId(r[0]) != DefinitionId(r[i + 1]);
        }
        assert DistinctKeys(DefinitionId, rest);
        assert xs[1..] == [] || xs[1] in xs[1..];
        forall i, j | 0 <= i < j < |xs| ensures DefinitionId(xs[i]) != DefinitionId(xs[j]) {
          assert xs[j] == xs[1..][j - 1];
          if i > 0 { assert xs[i] == xs[1..][i - 1]; }
        }
      }
    }
  }

  /** The numbers of a list of IDs that pass validation increase strictly. */
  ghost predicate NumericOrder(defs: seq<Definition>)
  {
    forall i, j :: 0 <= i < j < |defs| ==> Number(defs[i].id) < Number(defs[j].id)
  }

  /**
   The list Up sorts by string is in numeric order, for definitions that pass ValidateMigrationOrder,
   exactly when every two of their IDs fit in the order the strings put them.
   */
  lemma ValidatedSortIsNumericIff(defs: seq<Definition>)
    requires forall d :: d in defs ==> ValidId(d.id)
    requires DistinctKeys(DefinitionId, defs)
    ensures forall d :: d in SortBy(DefinitionId, defs) ==> d in defs
    ensures NumericOrder(SortBy(DefinitionId, defs))
            <==> forall a, b :: a in defs && b in defs && StrLess(a.id, b.id) ==> OrderFits(a.id, b.id)
  {
    var sorted := SortBy(DefinitionId, defs);
    SortByStrict(DefinitionId, defs);
    forall i, j | 0 <= i < j < |sorted|
      ensures sorted[i] in defs && sorted[j] in defs && StrLess(sorted[i].id, sorted[j].id)
      ensures Number(sorted[i].id) < Number(sorted[j].id) <==> OrderFits(sorted[i].id, sorted[j].id)
    {
      assert StrLess(DefinitionId(sorted[i]), DefinitionId(sorted[j]));
      StringOrderFitsIff(sorted[i].id, sorted[j].id);
    }
    if NumericOrder(sorted) {
      forall a, b | a in defs && b in defs && StrLess(a.id, b.id) ensures OrderFits(a.id, b.id) {
        var i, j := PositionsOf(sorted, a, b);
      }
    }
  }

  lemma PositionsOf(sorted: seq<Definition>, a: Definition, b: Definition) returns (i: nat, j: nat)
    requires StrictlySorted(DefinitionId, sorted) && a in sorted && b in sorted && StrLess(a.id, b.id)
    ensures i < j < |sorted| && sorted[i] == a && sorted[j] == b
  {
    i :| 0 <= i < |sorted| && sorted[i] == a;
    j :| 0 <= j < |sorted| && sorted[j] == b;
    StrIrreflexive(a.id);
    if j < i {
      assert StrLess(DefinitionId(sorted[j]), DefinitionId(sorted[i]));
      StrTransitive(a.id, b.id, a.id);
    }
  }

  /** In particular when no ID carries a sign; the numbers are then those of the digit strings. */
  lemma ValidatedSortIsNumeric(defs: seq<Definition>)
    requires forall d :: d in defs ==> ValidId(d.id) && AllDigits(d.id)
    requires DistinctKeys(DefinitionId, defs)
    ensures forall d :: d in SortBy(DefinitionId, defs) ==> d in defs
    ensures NumericOrder(SortBy(DefinitionId, defs))
    ensures forall d :: d in defs ==> ParseInt(d.id) == Some(Value(d.id))
  {
    ValidatedSortIsNumericIff(defs);
    forall a | a in defs
      ensures ParseInt(a.id) == Some(Value(a.id))
      ensures !Signed(a.id, '+') && !Signed(a.id, '-')
    {
      assert IsDigit(a.id[0]);
      SignedValue(a.id);
    }
  }

  /** Sorting keeps the elements and whether the IDs are distinct. */
  lemma {:induction false} SortKeeps(defs: seq<Definition>)
    ensures forall d :: d in SortBy(DefinitionId, defs) <==> d in defs
    ensures DistinctKeys(DefinitionId, SortBy(DefinitionId, defs)) <==> DistinctKeys(DefinitionId, defs)
  {
    if DistinctKeys(DefinitionId, defs) {
      SortByStrict(DefinitionId, defs);
      forall x: string { StrIrreflexive(x); }
    } else {
      SortKeeps(defs[1..]);
      InsertDistinct(defs[0], SortBy(DefinitionId, defs[1..]));
      assert defs == [defs[0]] + defs[1..];
    }
  }
}
