/**
 The migrator: its database, one transaction per migration, and what its operations compute.
 A record table is kept as the sequence of its rows in insertion order; its primary key is the ID.
 Time is an integer clock. Every call into the database can fail: an Attempt says where, if anywhere.
 */
module Migrations {
  import opened Options
  import opened Ordering
  import opened Schemas

  datatype Definition = Definition(id: string, description: string, up: seq<Stmt>, down: seq<Stmt>)

  datatype Record = Record(id: string, appliedAt: int, description: string)

  datatype Db = Db(schema: Schema, records: seq<Record>)

  /** Where the database fails during one transaction; statement n of the script, if it is reached. */
  datatype Fault = NoFault | AtStatement(n: nat) | AtRecord | AtCommit

  datatype Attempt = Attempt(now: int, fault: Fault)

  /** The calls made before the first transaction: creating the record table and reading it. */
  datatype Prologue = Ready | TableFails | ReadFails

  datatype Status = Status(id: string, description: string, appliedAt: Option<int>)

  function DefinitionId(d: Definition): string { d.id }
  function StatusId(s: Status): string { s.id }

  predicate Recorded(records: seq<Record>, id: string) {
    exists i :: 0 <= i < |records| && records[i].id == id
  }

  /** The script's effect, or None when the engine rejects a statement or fails at one. */
  function Execute(script: seq<Stmt>, s: Schema, f: Fault): Option<Schema> {
    if f.AtStatement? && f.n < |script| then None else Run(script, s)
  }

  /** One transaction of Up. Creating a record under an existing primary key fails. */
  function Apply(db: Db, d: Definition, a: Attempt): Option<Db> {
    match Execute(d.up, db.schema, a.fault)
    case None => None
    case Some(s) =>
      if a.fault.AtRecord? || a.fault.AtCommit? || Recorded(db.records, d.id) then None
      else Some(Db(s, db.records + [Record(d.id, a.now, d.description)]))
  }

  function Remove(records: seq<Record>, id: string): seq<Record> {
    if records == [] then []
    else if records[0].id == id then Remove(records[1..], id)
    else [records[0]] + Remove(records[1..], id)
  }

  /** The transaction of Down for one definition. */
  function Revert(db: Db, d: Definition, f: Fault): Option<Db> {
    match Execute(d.down, db.schema, f)
    case None => None
    case Some(s) =>
      if f.AtRecord? || f.AtCommit? then None else Some(Db(s, Remove(db.records, d.id)))
  }

  /** Up's loop over the sorted definitions from position i; applied is the set read before it. */
  function ApplyFrom(db: Db, defs: seq<Definition>, applied: set<string>, env: nat -> Attempt, i: nat): (Db, bool)
    requires i <= |defs|
    decreases |defs| - i
  {
    if i == |defs| then (db, true)
    else if defs[i].id in applied then ApplyFrom(db, defs, applied, env, i + 1)
    else match Apply(db, defs[i], env(i))
      case None => (db, false)
      case Some(next) => ApplyFrom(next, defs, applied, env, i + 1)
  }

  function Ids(records: seq<Record>): set<string> {
    set i | 0 <= i < |records| :: records[i].id
  }

  function Up(db: Db, defs: seq<Definition>, p: Prologue, env: nat -> Attempt): (Db, bool) {
    if p != Ready then (db, false)
    else ApplyFrom(db, SortBy(DefinitionId, defs), Ids(db.records), env, 0)
  }

  /** The definitions as Up leaves them: sorted, once it gets past its prologue. */
  function AfterUp(defs: seq<Definition>, p: Prologue): seq<Definition> {
    if p != Ready then defs else SortBy(DefinitionId, defs)
  }

  /** ORDER BY applied_at DESC, id: GORM's First adds the primary key as the last ordering column. */
  predicate Before(a: Record, b: Record) {
    a.appliedAt > b.appliedAt || (a.appliedAt == b.appliedAt && StrLess(a.id, b.id))
  }

  function Latest(records: seq<Record>): Record
    requires records != []
  {
    var n := |records| - 1;
    if n == 0 then records[0]
    else
      var best := Latest(records[..n]);
      if Before(records[n], best) then records[n] else best
  }

  function Find(defs: seq<Definition>, id: string): Option<Definition> {
    if defs == [] then None
    else if defs[0].id == id then Some(defs[0])
    else Find(defs[1..], id)
  }

  function Down(db: Db, defs: seq<Definition>, p: Prologue, f: Fault): (Db, bool) {
    if p != Ready then (db, false)
    else if db.records == [] then (db, true)
    else match Find(defs, Latest(db.records).id)
      case None => (db, false)
      case Some(d) =>
        match Revert(db, d, f)
        case None => (db, false)
        case Some(next) => (next, true)
  }

  function AppliedAt(records: seq<Record>, id: string): Option<int> {
    if records == [] then None
    else
      var n := |records| - 1;
      if records[n].id == id then Some(records[n].appliedAt) else AppliedAt(records[..n], id)
  }

  function Unsorted(db: Db, defs: seq<Definition>): seq<Status> {
    if defs == [] then []
    else
      var n := |defs| - 1;
      Unsorted(db, defs[..n]) + [Status(defs[n].id, defs[n].description, AppliedAt(db.records, defs[n].id))]
  }

  function Statuses(db: Db, defs: seq<Definition>): seq<Status> {
    SortBy(StatusId, Unsorted(db, defs))
  }

  function NotApplied(db: Db, defs: seq<Definition>): seq<Definition> {
    if defs == [] then []
    else
      var n := |defs| - 1;
      NotApplied(db, defs[..n]) + if Recorded(db.records, defs[n].id) then [] else [defs[n]]
  }

  function Pending(db: Db, defs: seq<Definition>): seq<Definition> {
    SortBy(DefinitionId, NotApplied(db, defs))
  }

  // ----- Reset

  /** name LIKE 'sqlite_%': case-insensitive for ASCII, and _ stands for any one character. */
  predicate KeptByReset(table: string) {
    |table| >= 7 && ToLower(table[0]) == 's' && ToLower(table[1]) == 'q' && ToLower(table[2]) == 'l'
    && ToLower(table[3]) == 'i' && ToLower(table[4]) == 't' && ToLower(table[5]) == 'e'
  }

  /** SQL's LIKE: % stands for any characters, _ for one, and letters match without regard to ASCII case. */
  predicate Like(pattern: string, s: string)
    decreases |pattern| + |s|
  {
    if pattern == [] then s == []
    else if pattern[0] == '%' then Like(pattern[1..], s) || (s != [] && Like(pattern, s[1..]))
    else s != [] && (pattern[0] == '_' || ToLower(pattern[0]) == ToLower(s[0])) && Like(pattern[1..], s[1..])
  }

  lemma {:induction false} LikeAnything(s: string)
    ensures Like("%", s)
  {
    if s != [] { LikeAnything(s[1..]); }
    assert "%"[1..] == [];
  }

  lemma LikeNext(pattern: string, s: string)
    requires pattern != [] && pattern[0] != '%'
    ensures Like(pattern, s) <==>
            s != [] && (pattern[0] == '_' || ToLower(pattern[0]) == ToLower(s[0])) && Like(pattern[1..], s[1..])
  {
  }

  /** One more character of the pattern, from position i on. */
  lemma LikeFrom(pattern: string, s: string, i: nat)
    requires i < |pattern| && i <= |s| && pattern[i] != '%'
    ensures Like(pattern[i..], s[i..]) <==>
            && i < |s| && (pattern[i] == '_' || ToLower(pattern[i]) == ToLower(s[i]))
            && Like(pattern[i + 1..], s[i + 1..])
  {
    LikeNext(pattern[i..], s[i..]);
    assert pattern[i..][1..] == pattern[i + 1..];
    if i < |s| { assert s[i..][1..] == s[i + 1..]; }
  }

  /** The tables Reset keeps are those whose name matches the pattern of its query. */
  lemma KeptByResetIffLike(table: string)
    ensures KeptByReset(table) <==> Like("sqlite_%", table)
  {
    var p := "sqlite_%";
    assert p[0..] == p && table[0..] == table && p[7..] == "%";
    var i := 0;
    while i < 7 && i < |table| && (p[i] == '_' || ToLower(p[i]) == ToLower(table[i]))
      invariant 0 <= i <= 7 && i <= |table|
      invariant Like(p, table) <==> Like(p[i..], table[i..])
      invariant forall j :: 0 <= j < i ==> p[j] == '_' || ToLower(p[j]) == ToLower(table[j])
    {
      LikeFrom(p, table, i);
      i := i + 1;
    }
    if i < 7 {
      LikeFrom(p, table, i);
      assert p[i] != '_' || i == |table|;
    } else {
      LikeAnything(table[7..]);
    }
  }

  function ToLower(c: char): char {
    if 'A' <= c <= 'Z' then ((c as int) + 32) as char else c
  }

  const RECORD_TABLE := "migrations"

  /** Dropping one listed table; the record table is one of them. */
  function DropOne(db: Db, table: string): Db {
    Db(Exec(DropTable(table), db.schema).value, if table == RECORD_TABLE then [] else db.records)
  }

  /** The drop loop over the listed tables, failing at position failAt if it gets there. */
  function DropAll(db: Db, listed: seq<string>, failAt: nat): (Db, bool)
    decreases |listed|
  {
    if listed == [] then (db, true)
    else if failAt == 0 then (db, false)
    else DropAll(DropOne(db, listed[0]), listed[1..], failAt - 1)
  }

  /** The tables the sqlite_master query returns, in some order. */
  ghost predicate Listing(db: Db, listed: seq<string>) {
    forall t :: t in listed <==> !KeptByReset(t) && (t in db.schema.tables || t == RECORD_TABLE)
  }

  function Reset(db: Db, defs: seq<Definition>, listed: seq<string>, failAt: nat,
                 p: Prologue, env: nat -> Attempt): (Db, bool) {
    var (dropped, ok) := DropAll(db, listed, failAt);
    if !ok then (dropped, false) else Up(dropped, defs, p, env)
  }
}
