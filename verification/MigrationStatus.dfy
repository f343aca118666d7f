/**
 What Status and GetPendingMigrations report, in every state of any run: they depend on the records only.
 */
module MigrationStatus {
  import opened Options
  import opened Ordering
  import opened Migrations
  import opened MigrationRuns
  import opened MigrationTheorems

  lemma {:induction false} NotAppliedIs(db: Db, defs: seq<Definition>)
    requires DistinctKeys(DefinitionId, defs)
    ensures DistinctKeys(DefinitionId, NotApplied(db, defs))
    ensures forall d :: d in NotApplied(db, defs) <==> d in defs && !Recorded(db.records, d.id)
  {
    if defs != [] {
      var n := |defs| - 1;
      var init, last := defs[..n], defs[n];
      NotAppliedIs(db, init);
      var rest := NotApplied(db, init);
      assert defs == init + [last];
      forall d | d in rest ensures DefinitionId(d) != DefinitionId(last) {
        var i :| 0 <= i < n && init[i] == d;
        assert DefinitionId(defs[i]) != DefinitionId(defs[n]);
      }
    }
  }

  lemma SuffixElements(defs: seq<Definition>, k: nat, d: Definition)
    requires k <= |defs|
    ensures d in defs[k..] <==> exists i :: k <= i < |defs| && defs[i] == d
  {
    var suffix := defs[k..];
    assert forall i :: 0 <= i < |suffix| ==> suffix[i] == defs[k + i];
    if i :| k <= i < |defs| && defs[i] == d {
      assert suffix[i - k] == d;
    }
  }

  lemma SuffixNotApplied(sorted: seq<Definition>, db: Db, k: nat)
    requires StrictlySorted(DefinitionId, sorted) && RecordsMatch(sorted, db, k)
    ensures StrictlySorted(DefinitionId, sorted[k..])
    ensures forall d :: d in sorted[k..] <==> d in sorted && !Recorded(db.records, d.id)
  {
    RecordedIds(sorted, db, k);
    forall d ensures d in sorted[k..] <==> d in sorted && !Recorded(db.records, d.id) {
      SuffixElements(sorted, k, d);
    }
  }

  /** GetPendingMigrations returns the definitions not yet recorded, in ID order. */
  lemma PendingIsSuffix(s: State, sorted: seq<Definition>, clock: int)
    requires Ordered(s, sorted, clock)
    ensures Pending(s.db, s.defs) == sorted[|s.db.records|..]
  {
    SortAgain(s.defs);
    SuffixNotApplied(sorted, s.db, |s.db.records|);
    NotAppliedIs(s.db, s.defs);
    SortByStrict(DefinitionId, NotApplied(s.db, s.defs));
    StrictlySortedUnique(DefinitionId, Pending(s.db, s.defs), sorted[|s.db.records|..]);
  }

  function StatusOf(db: Db, d: Definition): Status {
    Status(d.id, d.description, AppliedAt(db.records, d.id))
  }

  lemma {:induction false} UnsortedIs(db: Db, defs: seq<Definition>)
    ensures |Unsorted(db, defs)| == |defs|
    ensures forall i :: 0 <= i < |defs| ==> Unsorted(db, defs)[i] == StatusOf(db, defs[i])
  {
    if defs != [] { UnsortedIs(db, defs[..|defs| - 1]); }
  }

  lemma {:induction false} AppliedAtIsLast(records: seq<Record>, id: string, i: nat)
    requires i < |records| && records[i].id == id && forall j :: i < j < |records| ==> records[j].id != id
    ensures AppliedAt(records, id) == Some(records[i].appliedAt)
  {
    if i < |records| - 1 { AppliedAtIsLast(records[..|records| - 1], id, i); }
  }

  lemma {:induction false} AppliedAtNone(records: seq<Record>, id: string)
    requires !Recorded(records, id)
    ensures AppliedAt(records, id) == None
  {
    if records != [] {
      var init := records[..|records| - 1];
      assert forall i :: 0 <= i < |init| ==> init[i].id == records[i].id;
      AppliedAtNone(init, id);
    }
  }

  function StatusList(db: Db, defs: seq<Definition>): seq<Status> {
    seq(|defs|, i requires 0 <= i < |defs| => StatusOf(db, defs[i]))
  }

  lemma UnsortedIsStatusList(db: Db, defs: seq<Definition>)
    ensures Unsorted(db, defs) == StatusList(db, defs)
  {
    UnsortedIs(db, defs);
  }

  lemma StatusListElements(db: Db, defs: seq<Definition>, other: seq<Definition>, x: Status)
    requires forall d :: d in defs ==> d in other
    ensures x in StatusList(db, defs) ==> x in StatusList(db, other)
  {
    if x in StatusList(db, defs) {
      var i :| 0 <= i < |defs| && StatusList(db, defs)[i] == x;
      assert defs[i] in other;
      var j :| 0 <= j < |other| && other[j] == defs[i];
      assert StatusList(db, other)[j] == x;
    }
  }

  lemma StatusListKeys(db: Db, defs: seq<Definition>)
    ensures DistinctKeys(DefinitionId, defs) ==> DistinctKeys(StatusId, StatusList(db, defs))
    ensures StrictlySorted(DefinitionId, defs) ==> StrictlySorted(StatusId, StatusList(db, defs))
  {
    assert forall i :: 0 <= i < |defs| ==> StatusId(StatusList(db, defs)[i]) == DefinitionId(defs[i]);
  }

  lemma StatusesSorted(db: Db, defs: seq<Definition>)
    requires DistinctKeys(DefinitionId, defs)
    ensures Statuses(db, defs) == StatusList(db, SortBy(DefinitionId, defs))
  {
    SortAgain(defs);
    var sorted := SortBy(DefinitionId, defs);
    UnsortedIsStatusList(db, defs);
    StatusListKeys(db, defs);
    StatusListKeys(db, sorted);
    SortByStrict(StatusId, StatusList(db, defs));
    forall x ensures x in StatusList(db, sorted) <==> x in StatusList(db, defs) {
      StatusListElements(db, sorted, defs, x);
      StatusListElements(db, defs, sorted, x);
    }
    StrictlySortedUnique(StatusId, Statuses(db, defs), StatusList(db, sorted));
  }

  lemma AppliedAtMatched(sorted: seq<Definition>, db: Db, k: nat, i: nat)
    requires StrictlySorted(DefinitionId, sorted) && RecordsMatch(sorted, db, k) && i < |sorted|
    ensures AppliedAt(db.records, sorted[i].id) == if i < k then Some(db.records[i].appliedAt) else None
  {
    if i < k {
      forall j | i < j < k ensures db.records[j].id != sorted[i].id {
        assert StrLess(DefinitionId(sorted[i]), DefinitionId(sorted[j]));
        StrIrreflexive(sorted[i].id);
      }
      AppliedAtIsLast(db.records, sorted[i].id, i);
    } else {
      RecordedIds(sorted, db, k);
      AppliedAtNone(db.records, sorted[i].id);
    }
  }

  /**
   Status lists every definition in ID order; exactly the first n, for n records, are applied, each with
   its record's time, so the unapplied ones are the pending ones.
   */
  lemma StatusMatchesRecords(s: State, sorted: seq<Definition>, clock: int)
    requires Ordered(s, sorted, clock)
    ensures |Statuses(s.db, s.defs)| == |sorted|
    ensures forall i :: 0 <= i < |sorted| ==>
              Statuses(s.db, s.defs)[i]
              == Status(sorted[i].id, sorted[i].description,
                        if i < |s.db.records| then Some(s.db.records[i].appliedAt) else None)
  {
    SortAgain(s.defs);
    StatusesSorted(s.db, s.defs);
    forall i | 0 <= i < |sorted|
      ensures Statuses(s.db, s.defs)[i]
              == Status(sorted[i].id, sorted[i].description,
                        if i < |s.db.records| then Some(s.db.records[i].appliedAt) else None)
    {
      AppliedAtMatched(sorted, s.db, |s.db.records|, i);
    }
  }
}
