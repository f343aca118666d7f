/** The five production migrations, and the general form of their guarantee: Down mirrors Up. */
module Definitions {
  import opened Options
  import opened Ordering
  import opened Schemas
  import opened Migrations
  import opened MigrationIds
  import opened MigrationRuns

  function CreateClustersTable(): seq<Stmt> {
    [
      CreateTable("clusters"),
      CreateIndex("idx_clusters_name", "clusters"),
      CreateIndex("idx_clusters_deleted_at", "clusters"),
      CreateIndex("idx_clusters_status", "clusters")
    ]
  }

  function DropClustersTable(): seq<Stmt> {
    [
      DropIndex("idx_clusters_status"),
      DropIndex("idx_clusters_deleted_at"),
      DropIndex("idx_clusters_name"),
      DropTable("clusters")
    ]
  }

  function CreateNodesTable(): seq<Stmt> {
    [
      CreateTable("nodes"),
      CreateIndex("idx_nodes_name", "nodes"),
      CreateIndex("idx_nodes_mac_address", "nodes"),
      CreateIndex("idx_nodes_deleted_at", "nodes"),
      CreateIndex("idx_nodes_status", "nodes"),
      CreateIndex("idx_nodes_cluster_id", "nodes"),
      CreateIndex("idx_nodes_ip_address", "nodes"),
      CreateIndex("idx_nodes_last_seen", "nodes")
    ]
  }

  function DropNodesTable(): seq<Stmt> {
    [
      DropIndex("idx_nodes_last_seen"),
      DropIndex("idx_nodes_ip_address"),
      DropIndex("idx_nodes_cluster_id"),
      DropIndex("idx_nodes_status"),
      DropIndex("idx_nodes_deleted_at"),
      DropIndex("idx_nodes_mac_address"),
      DropIndex("idx_nodes_name"),
      DropTable("nodes")
    ]
  }

  function CreateGPIODevicesTable(): seq<Stmt> {
    [
      CreateTable("gpio_devices"),
      CreateIndex("idx_gpio_devices_node_id", "gpio_devices"),
      CreateIndex("idx_gpio_devices_pin_number", "gpio_devices"),
      CreateIndex("idx_gpio_devices_status", "gpio_devices"),
      CreateIndex("idx_gpio_devices_deleted_at", "gpio_devices"),
      CreateIndex("idx_gpio_devices_node_pin", "gpio_devices")
    ]
  }

  function DropGPIODevicesTable(): seq<Stmt> {
    [
      DropIndex("idx_gpio_devices_node_pin"),
      DropIndex("idx_gpio_devices_deleted_at"),
      DropIndex("idx_gpio_devices_status"),
      DropIndex("idx_gpio_devices_pin_number"),
      DropIndex("idx_gpio_devices_node_id"),
      DropTable("gpio_devices")
    ]
  }

  function CreateGPIOReadingsTable(): seq<Stmt> {
    [
      CreateTable("gpio_readings"),
      CreateIndex("idx_gpio_readings_device_id", "gpio_readings"),
      CreateIndex("idx_gpio_readings_timestamp", "gpio_readings"),
      CreateIndex("idx_gpio_readings_device_timestamp", "gpio_readings")
    ]
  }

  function DropGPIOReadingsTable(): seq<Stmt> {
    [
      DropIndex("idx_gpio_readings_device_timestamp"),
      DropIndex("idx_gpio_readings_timestamp"),
      DropIndex("idx_gpio_readings_device_id"),
      DropTable("gpio_readings")
    ]
  }

  function AddPerformanceIndexes(): seq<Stmt> {
    [
      CreateIndex("idx_nodes_cluster_status", "nodes"),
      CreateIndex("idx_gpio_devices_node_status", "gpio_devices"),
      CreateIndex("idx_gpio_readings_timestamp_desc", "gpio_readings"),
      CreateIndex("idx_gpio_readings_device_time_desc", "gpio_readings"),
      CreateIndex("idx_clusters_active", "clusters"),
      CreateIndex("idx_gpio_readings_recent", "gpio_readings")
    ]
  }

  function DropPerformanceIndexes(): seq<Stmt> {
    [
      DropIndex("idx_gpio_readings_recent"),
      DropIndex("idx_clusters_active"),
      DropIndex("idx_gpio_readings_device_time_desc"),
      DropIndex("idx_gpio_readings_timestamp_desc"),
      DropIndex("idx_gpio_devices_node_status"),
      DropIndex("idx_nodes_cluster_status")
    ]
  }

  function AllMigrations(): seq<Definition> {
    [
      Definition("20241201000001", "Create clusters table", CreateClustersTable(), DropClustersTable()),
      Definition("20241201000002", "Create nodes table", CreateNodesTable(), DropNodesTable()),
      Definition("20241201000003", "Create gpio_devices table", CreateGPIODevicesTable(), DropGPIODevicesTable()),
      Definition("20241201000004", "Create gpio_readings table", CreateGPIOReadingsTable(), DropGPIOReadingsTable()),
      Definition("20241201000005", "Add indexes for performance optimization", AddPerformanceIndexes(),
                 DropPerformanceIndexes())
    ]
  }

  /** The Up scripts one after the other. */
  function UpScript(defs: seq<Definition>): seq<Stmt> {
    if defs == [] then [] else UpScript(defs[..|defs| - 1]) + defs[|defs| - 1].up
  }

  ghost predicate Mirrored(defs: seq<Definition>) {
    && (forall d :: d in defs ==> d.down == Mirror(d.up))
    && Creates(UpScript(defs)) && Distinct(UpScript(defs))
  }

  lemma {:induction false} FoldIsScript(defs: seq<Definition>, s: Schema)
    ensures FoldUps(defs, s) == Run(UpScript(defs), s)
  {
    if defs != [] {
      var init := defs[..|defs| - 1];
      FoldIsScript(init, s);
      RunAppend(UpScript(init), defs[|defs| - 1].up, s);
    }
  }

  lemma {:induction false} UpScriptPrefix(defs: seq<Definition>, k: nat)
    requires k <= |defs|
    ensures UpScript(defs[..k]) <= UpScript(defs)
    decreases |defs|
  {
    if k < |defs| {
      var init := defs[..|defs| - 1];
      UpScriptPrefix(init, k);
      assert init[..k] == defs[..k];
    } else {
      assert defs[..k] == defs;
    }
  }

  lemma PieceIsFresh(all: seq<Stmt>, before: seq<Stmt>, up: seq<Stmt>, start: Schema)
    requires Creates(all) && Distinct(all) && before + up <= all && Names(all) !! Used(start)
    ensures Creates(up) && Distinct(up) && Names(up) !! Used(start) + Names(before)
  {
    var b := |before|;
    assert before == all[..b];
    assert up == all[b..b + |up|];
    forall n | n in Names(up) ensures n !in Used(start) && n !in Names(before) {
      var i :| 0 <= i < |up| && up[i].name == n;
      assert all[b + i].name in Names(all);
    }
  }

  /** On a schema that uses none of their names, mirrored Downs undo the Ups wherever the migrator runs them. */
  lemma FreshUndo(defs: seq<Definition>, start: Schema)
    requires Mirrored(defs) && WellFormed(start) && Names(UpScript(defs)) !! Used(start)
    ensures DownsUndoUps(defs, start)
  {
    forall k | 0 <= k < |defs| && FoldUps(defs[..k], start).Some? && FoldUps(defs[..k + 1], start).Some?
      ensures Run(defs[k].down, FoldUps(defs[..k + 1], start).value) == FoldUps(defs[..k], start)
    {
      var all, before, up := UpScript(defs), UpScript(defs[..k]), defs[k].up;
      assert defs[..k + 1][..k] == defs[..k];
      UpScriptPrefix(defs, k + 1);
      assert before + up <= all;
      FoldIsScript(defs[..k], start);
      var s := FoldUps(defs[..k], start).value;
      RunWellFormed(before, start);
      assert Creates(before) by { assert forall i :: 0 <= i < |before| ==> before[i] == all[i]; }
      CreatesExactly(before, start);
      PieceIsFresh(all, before, up, start);
      MirrorUndoes(up, s);
      assert defs[k] in defs;
    }
  }

  // ----- rolling every migration back

  /** The Downs of the definitions, the last one first. */
  function DownScript(defs: seq<Definition>): seq<Stmt> {
    if defs == [] then [] else defs[|defs| - 1].down + DownScript(defs[..|defs| - 1])
  }

  lemma {:induction false} MirrorAppend(a: seq<Stmt>, b: seq<Stmt>)
    ensures Mirror(a + b) == Mirror(b) + Mirror(a)
  {
    if a == [] {
      assert a + b == b;
    } else {
      assert (a + b)[1..] == a[1..] + b;
      MirrorAppend(a[1..], b);
    }
  }

  lemma {:induction false} DownScriptIsMirror(defs: seq<Definition>)
    requires forall d :: d in defs ==> d.down == Mirror(d.up)
    ensures DownScript(defs) == Mirror(UpScript(defs))
  {
    if defs != [] {
      var init := defs[..|defs| - 1];
      DownScriptIsMirror(init);
      MirrorAppend(UpScript(init), defs[|defs| - 1].up);
    }
  }

  /** The mirror of a creating script frees every one of its names, whatever used it before the script. */
  lemma {:induction false} MirrorFreesNames(script: seq<Stmt>, t: Schema)
    requires Creates(script) && KindsFit(script, t)
    ensures Run(Mirror(script), t).Some?
    ensures Used(Run(Mirror(script), t).value) !! Names(script)
    ensures Run(Mirror(script), t).value.tables <= t.tables
    ensures Run(Mirror(script), t).value.indexes.Keys <= t.indexes.Keys
  {
    if script != [] {
      NamesStep(script);
      assert script == [script[0]] + script[1..];
      MirrorFreesNames(script[1..], t);
      RunAppend(Mirror(script[1..]), [Inverse(script[0])], t);
      var u := Run(Mirror(script[1..]), t).value;
      var last := [Inverse(script[0])];
      assert last[1..] == [];
      assert Run(last, u) == Exec(last[0], u);
    }
  }

  /**
   For mirrored definitions that all applied: rolling all of them back restores the starting schema if
   and only if that schema used none of their names. A table that was already there is dropped.
   */
  lemma RollbackRestoresIff(defs: seq<Definition>, start: Schema)
    requires Mirrored(defs) && WellFormed(start) && FoldUps(defs, start).Some?
    ensures Run(DownScript(defs), FoldUps(defs, start).value) == Some(start)
            <==> Names(UpScript(defs)) !! Used(start)
  {
    var script := UpScript(defs);
    FoldIsScript(defs, start);
    DownScriptIsMirror(defs);
    if Names(script) !! Used(start) {
      MirrorUndoes(script, start);
    }
    CreatedKindsFit(script, start);
    MirrorFreesNames(script, Run(script, start).value);
  }

  /** If each Down undoes its Up, rolling back the first k definitions restores the starting schema. */
  lemma {:induction false} UndoRollsBack(defs: seq<Definition>, start: Schema, k: nat)
    requires DownsUndoUps(defs, start) && k <= |defs| && FoldUps(defs[..k], start).Some?
    ensures Run(DownScript(defs[..k]), FoldUps(defs[..k], start).value) == Some(start)
  {
    if k > 0 {
      assert defs[..k][..k - 1] == defs[..k - 1];
      DownRestoresFold(defs, start, k);
      RunAppend(defs[k - 1].down, DownScript(defs[..k - 1]), FoldUps(defs[..k], start).value);
      UndoRollsBack(defs, start, k - 1);
    }
  }

  /**
   For definitions whose Downs mirror their Ups and whose names are all different: every Down undoes its Up
   on the schemas where the migrator runs it, if the starting schema uses none of the names; and only if,
   when all the Ups run on it.
   */
  lemma MirroredUndo(defs: seq<Definition>, start: Schema)
    requires Mirrored(defs) && WellFormed(start)
    ensures Names(UpScript(defs)) !! Used(start) ==> DownsUndoUps(defs, start)
    ensures FoldUps(defs, start).Some? ==> (DownsUndoUps(defs, start) <==> Names(UpScript(defs)) !! Used(start))
  {
    if Names(UpScript(defs)) !! Used(start) {
      FreshUndo(defs, start);
    } else if FoldUps(defs, start).Some? && DownsUndoUps(defs, start) {
      assert defs[..|defs|] == defs;
      UndoRollsBack(defs, start, |defs|);
      RollbackRestoresIff(defs, start);
    }
  }

  // ----- the production migrations

  lemma {:induction false} MirrorReverses(script: seq<Stmt>)
    ensures |Mirror(script)| == |script|
    ensures forall i :: 0 <= i < |script| ==> Mirror(script)[i] == Inverse(script[|script| - 1 - i])
  {
    if script != [] { MirrorReverses(script[1..]); }
  }

  lemma TablesMirror()
    ensures DropClustersTable() == Mirror(CreateClustersTable())
    ensures DropGPIOReadingsTable() == Mirror(CreateGPIOReadingsTable())
  {
    MirrorReverses(CreateClustersTable());
    MirrorReverses(CreateGPIOReadingsTable());
  }

  lemma NodesMirror()
    ensures DropNodesTable() == Mirror(CreateNodesTable())
  {
    MirrorReverses(CreateNodesTable());
  }

  lemma DevicesMirror()
    ensures DropGPIODevicesTable() == Mirror(CreateGPIODevicesTable())
  {
    MirrorReverses(CreateGPIODevicesTable());
  }

  lemma IndexesMirror()
    ensures DropPerformanceIndexes() == Mirror(AddPerformanceIndexes())
  {
    MirrorReverses(AddPerformanceIndexes());
  }

  /** No name of the first script is a name of the second. */
  predicate Apart(a: seq<Stmt>, b: seq<Stmt>) {
    forall i, j :: 0 <= i < |a| && 0 <= j < |b| ==> a[i].name != b[j].name
  }

  lemma ClustersApart()
    ensures Distinct(CreateClustersTable())
    ensures Apart(CreateClustersTable(), CreateGPIOReadingsTable())
  {
  }

  lemma ClustersApartFromDevices()
    ensures Apart(CreateClustersTable(), CreateGPIODevicesTable())
  {
  }

  lemma ClustersApartFromNodes()
    ensures Apart(CreateClustersTable(), CreateNodesTable())
  {
  }

  lemma ClustersApartFromIndexes()
    ensures Apart(CreateClustersTable(), AddPerformanceIndexes())
  {
  }

  lemma NodesDistinct()
    ensures Distinct(CreateNodesTable())
  {
  }

  lemma NodesApart()
    ensures Apart(CreateNodesTable(), CreateGPIOReadingsTable())
  {
  }

  lemma NodesApartFromDevices()
    ensures Apart(CreateNodesTable(), CreateGPIODevicesTable())
  {
  }

  lemma NodesApartFromIndexes()
    ensures Apart(CreateNodesTable(), AddPerformanceIndexes())
  {
  }

  lemma DevicesApart()
    ensures Distinct(CreateGPIODevicesTable())
    ensures Apart(CreateGPIODevicesTable(), CreateGPIOReadingsTable())
  {
  }

  lemma DevicesApartFromIndexes()
    ensures Apart(CreateGPIODevicesTable(), AddPerformanceIndexes())
  {
  }

  lemma IndexesDistinct()
    ensures Distinct(AddPerformanceIndexes())
  {
  }

  lemma ReadingsApart()
    ensures Distinct(CreateGPIOReadingsTable())
    ensures Apart(CreateGPIOReadingsTable(), AddPerformanceIndexes())
  {
  }

  function WholeScript(): seq<Stmt> {
    CreateClustersTable() + CreateNodesTable() + CreateGPIODevicesTable() + CreateGPIOReadingsTable()
    + AddPerformanceIndexes()
  }

  lemma AllUpScript()
    ensures UpScript(AllMigrations()) == WholeScript()
  {
    var all := AllMigrations();
    assert all[..5] == all && all[..4][..3] == all[..3] && all[..3][..2] == all[..2];
    assert all[..2][..1] == all[..1] && all[..1][..0] == [];
    assert UpScript(all[..1]) == CreateClustersTable();
    assert UpScript(all[..2]) == UpScript(all[..1]) + CreateNodesTable();
    assert UpScript(all[..3]) == UpScript(all[..2]) + CreateGPIODevicesTable();
    assert UpScript(all[..4]) == UpScript(all[..3]) + CreateGPIOReadingsTable();
  }

  lemma DistinctAppend(a: seq<Stmt>, b: seq<Stmt>)
    requires Distinct(a) && Distinct(b) && Apart(a, b)
    ensures Distinct(a + b)
  {
  }

  lemma ApartAppend(a: seq<Stmt>, b: seq<Stmt>, c: seq<Stmt>)
    requires Apart(a, c) && Apart(b, c)
    ensures Apart(a + b, c)
  {
  }

  lemma WholeScriptDistinct()
    ensures Distinct(WholeScript())
  {
    var c, n, d, r, x := CreateClustersTable(), CreateNodesTable(), CreateGPIODevicesTable(),
        CreateGPIOReadingsTable(), AddPerformanceIndexes();
    ClustersApart(); ClustersApartFromDevices(); ClustersApartFromNodes(); ClustersApartFromIndexes();
    NodesDistinct(); NodesApart(); NodesApartFromDevices(); NodesApartFromIndexes();
    DevicesApart(); DevicesApartFromIndexes(); ReadingsApart(); IndexesDistinct();
    DistinctAppend(c, n);
    ApartAppend(c, n, d); ApartAppend(c, n, r); ApartAppend(c, n, x);
    DistinctAppend(c + n, d);
    ApartAppend(c + n, d, r); ApartAppend(c + n, d, x);
    DistinctAppend(c + n + d, r);
    ApartAppend(c + n + d, r, x);
    DistinctAppend(c + n + d + r, x);
  }

  lemma WholeScriptCreates()
    ensures Creates(WholeScript())
  {
    assert Creates(CreateClustersTable()) && Creates(CreateNodesTable()) && Creates(CreateGPIODevicesTable());
    assert Creates(CreateGPIOReadingsTable()) && Creates(AddPerformanceIndexes());
  }

  lemma EachMirrored(i: nat)
    requires i < 5
    ensures AllMigrations()[i].down == Mirror(AllMigrations()[i].up)
  {
    if i == 0 || i == 3 { TablesMirror(); }
    if i == 1 { NodesMirror(); }
    if i == 2 { DevicesMirror(); }
    if i == 4 { IndexesMirror(); }
  }

  /** The production Downs mirror their Ups, and no name is created twice. */
  lemma ProductionMirrored()
    ensures Mirrored(AllMigrations())
  {
    AllUpScript();
    WholeScriptDistinct();
    WholeScriptCreates();
    forall d | d in AllMigrations() ensures d.down == Mirror(d.up) {
      var i :| 0 <= i < 5 && AllMigrations()[i] == d;
      EachMirrored(i);
    }
  }

  const ID_PREFIX := "2024120100000"

  function Suffix(i: nat): string
    requires i < 5
  {
    [['1', '2', '3', '4', '5'][i]]
  }

  lemma ProductionId(i: nat)
    requires i < 5
    ensures AllMigrations()[i].id == ID_PREFIX + Suffix(i)
  {
  }

  lemma {:induction false} CommonPrefix(p: string, a: string, b: string)
    ensures StrLess(p + a, p + b) == StrLess(a, b)
  {
    if p == [] {
      assert p + a == a && p + b == b;
    } else {
      assert (p + a)[1..] == p[1..] + a && (p + b)[1..] == p[1..] + b;
      CommonPrefix(p[1..], a, b);
    }
  }

  lemma NumberedSorted(defs: seq<Definition>)
    requires |defs| == 5 && forall i :: 0 <= i < 5 ==> defs[i].id == ID_PREFIX + Suffix(i)
    ensures StrictlySorted(DefinitionId, defs)
  {
    forall i, j | 0 <= i < j < 5 ensures StrLess(DefinitionId(defs[i]), DefinitionId(defs[j])) {
      CommonPrefix(ID_PREFIX, Suffix(i), Suffix(j));
    }
  }

  /** The production IDs increase strictly, so Up runs the migrations in the order they are listed. */
  lemma ProductionSorted()
    ensures StrictlySorted(DefinitionId, AllMigrations())
  {
    forall i | 0 <= i < 5 ensures AllMigrations()[i].id == ID_PREFIX + Suffix(i) {
      ProductionId(i);
    }
    NumberedSorted(AllMigrations());
  }

  lemma {:induction false} IndexesBuildable(script: seq<Stmt>, tables: set<string>)
    requires forall i :: 0 <= i < |script| ==> script[i].CreateIndex? && script[i].table in tables
    ensures Buildable(script, tables) && TablesOf(script) == {}
  {
    if script != [] { IndexesBuildable(script[1..], tables); }
  }

  /** A table followed by its own indexes. */
  predicate TableScript(script: seq<Stmt>) {
    && script != [] && script[0].CreateTable?
    && forall i :: 1 <= i < |script| ==> script[i].CreateIndex? && script[i].table == script[0].name
  }

  lemma TableBuildable(script: seq<Stmt>, tables: set<string>)
    requires TableScript(script)
    ensures Buildable(script, tables) && TablesOf(script) == {script[0].name}
  {
    IndexesBuildable(script[1..], tables + {script[0].name});
  }

  lemma FourTablesAndIndexes(c: seq<Stmt>, n: seq<Stmt>, d: seq<Stmt>, r: seq<Stmt>, x: seq<Stmt>, tables: set<string>)
    requires TableScript(c) && TableScript(n) && TableScript(d) && TableScript(r)
    requires forall i :: 0 <= i < |x| ==>
      x[i].CreateIndex? && x[i].table in {c[0].name, n[0].name, d[0].name, r[0].name}
    ensures Buildable(c + n + d + r + x, tables)
  {
    TableBuildable(c, tables);
    TableBuildable(n, tables + TablesOf(c));
    BuildablePieces(c, n, tables);
    TableBuildable(d, tables + TablesOf(c + n));
    BuildablePieces(c + n, d, tables);
    TableBuildable(r, tables + TablesOf(c + n + d));
    BuildablePieces(c + n + d, r, tables);
    IndexesBuildable(x, tables + TablesOf(c + n + d + r));
    BuildablePieces(c + n + d + r, x, tables);
  }

  lemma WholeScriptBuildable(tables: set<string>)
    ensures Buildable(WholeScript(), tables)
  {
    FourTablesAndIndexes(CreateClustersTable(), CreateNodesTable(), CreateGPIODevicesTable(),
                         CreateGPIOReadingsTable(), AddPerformanceIndexes(), tables);
  }

  /**
   The production migrations, on any well-formed schema that uses none of their names: every Up runs,
   and every Down undoes its Up, so the guarantees of MigrationTheorems hold for them.
   */
  lemma ProductionGuaranteed(start: Schema)
    requires WellFormed(start) && Names(WholeScript()) !! Used(start)
    ensures StrictlySorted(DefinitionId, AllMigrations())
    ensures FoldUps(AllMigrations(), start).Some?
    ensures DownsUndoUps(AllMigrations(), start)
    ensures Run(DownScript(AllMigrations()), FoldUps(AllMigrations(), start).value) == Some(start)
  {
    ProductionSorted();
    AllUpScript();
    ProductionMirrored();
    FoldIsScript(AllMigrations(), start);
    WholeScriptBuildable(start.tables);
    BuildableRuns(WholeScript(), start);
    MirroredUndo(AllMigrations(), start);
    RollbackRestoresIff(AllMigrations(), start);
  }

  /** The index name begins with the name of the table. */
  predicate NamesTable(index: string, table: string) {
    || (table == "clusters" && "idx_clusters_" <= index)
    || (table == "nodes" && "idx_nodes_" <= index)
    || (table == "gpio_devices" && "idx_gpio_devices_" <= index)
    || (table == "gpio_readings" && "idx_gpio_readings_" <= index)
  }

  /** Every index of the script is on the table its own name tells. */
  predicate NamedAfterTables(script: seq<Stmt>) {
    forall i :: 0 <= i < |script| && script[i].CreateIndex? ==> NamesTable(script[i].name, script[i].table)
  }

  lemma NamedAppend(a: seq<Stmt>, b: seq<Stmt>)
    requires NamedAfterTables(a) && NamedAfterTables(b)
    ensures NamedAfterTables(a + b)
  {
  }

  lemma ClustersNamed()
    ensures NamedAfterTables(CreateClustersTable())
  {
  }

  lemma NodesNamed()
    ensures NamedAfterTables(CreateNodesTable())
  {
  }

  lemma DevicesNamed()
    ensures NamedAfterTables(CreateGPIODevicesTable())
  {
  }

  lemma ReadingsNamed()
    ensures NamedAfterTables(CreateGPIOReadingsTable())
  {
  }

  lemma PerformanceIndexNames()
    ensures "idx_nodes_" <= "idx_nodes_cluster_status"
    ensures "idx_gpio_devices_" <= "idx_gpio_devices_node_status"
    ensures "idx_gpio_readings_" <= "idx_gpio_readings_timestamp_desc"
    ensures "idx_gpio_readings_" <= "idx_gpio_readings_device_time_desc"
    ensures "idx_clusters_" <= "idx_clusters_active"
    ensures "idx_gpio_readings_" <= "idx_gpio_readings_recent"
  {
  }

  lemma IndexesNamed()
    ensures NamedAfterTables(AddPerformanceIndexes())
  {
    PerformanceIndexNames();
    var x := AddPerformanceIndexes();
    assert NamesTable(x[0].name, "nodes") && NamesTable(x[1].name, "gpio_devices");
    assert NamesTable(x[2].name, "gpio_readings") && NamesTable(x[3].name, "gpio_readings");
    assert NamesTable(x[4].name, "clusters") && NamesTable(x[5].name, "gpio_readings");
  }

  lemma WholeScriptNamed()
    ensures NamedAfterTables(WholeScript())
  {
    var c, n, d, r, x := CreateClustersTable(), CreateNodesTable(), CreateGPIODevicesTable(),
        CreateGPIOReadingsTable(), AddPerformanceIndexes();
    ClustersNamed(); NodesNamed(); DevicesNamed(); ReadingsNamed(); IndexesNamed();
    NamedAppend(c, n);
    NamedAppend(c + n, d);
    NamedAppend(c + n + d, r);
    NamedAppend(c + n + d + r, x);
  }

  lemma {:induction false} TablesAppend(a: seq<Stmt>, b: seq<Stmt>)
    ensures TablesOf(a + b) == TablesOf(a) + TablesOf(b)
    decreases |a|
  {
    if a == [] {
      assert a + b == b;
    } else {
      assert (a + b)[1..] == a[1..] + b;
      TablesAppend(a[1..], b);
    }
  }

  lemma TableScriptTables(script: seq<Stmt>)
    requires TableScript(script)
    ensures TablesOf(script) == {script[0].name}
  {
    TableBuildable(script, {});
  }

  lemma IndexesHaveNoTables()
    ensures TablesOf(AddPerformanceIndexes()) == {}
  {
    var tables := {"nodes", "gpio_devices", "gpio_readings", "clusters"};
    IndexesBuildable(AddPerformanceIndexes(), tables);
  }

  lemma FourTables(c: seq<Stmt>, n: seq<Stmt>, d: seq<Stmt>, r: seq<Stmt>, x: seq<Stmt>)
    requires TableScript(c) && TableScript(n) && TableScript(d) && TableScript(r) && TablesOf(x) == {}
    ensures TablesOf(c + n + d + r + x) == {c[0].name, n[0].name, d[0].name, r[0].name}
  {
    TableScriptTables(c); TableScriptTables(n); TableScriptTables(d); TableScriptTables(r);
    TablesAppend(c, n);
    TablesAppend(c + n, d);
    TablesAppend(c + n + d, r);
    TablesAppend(c + n + d + r, x);
  }

  lemma WholeScriptTables()
    ensures TablesOf(WholeScript()) == {"clusters", "nodes", "gpio_devices", "gpio_readings"}
  {
    IndexesHaveNoTables();
    FourTables(CreateClustersTable(), CreateNodesTable(), CreateGPIODevicesTable(), CreateGPIOReadingsTable(),
               AddPerformanceIndexes());
  }

  lemma {:induction false} DistinctCount(script: seq<Stmt>)
    requires Distinct(script)
    ensures |Names(script)| == |script|
  {
    if script == [] {
      assert Names(script) == {};
    } else {
      DistinctCount(script[1..]);
      NamesStep(script);
      assert script[0].name !in Names(script[1..]);
    }
  }

  lemma NamesCount()
    ensures |Names(WholeScript())| == 28
  {
    WholeScriptDistinct();
    DistinctCount(WholeScript());
  }

  lemma NewIndexNames(script: seq<Stmt>, start: Schema)
    requires Creates(script) && Run(script, start).Some? && NamedAfterTables(script)
    ensures var s := Run(script, start).value;
            forall n :: n in s.indexes && n !in start.indexes ==> NamesTable(n, s.indexes[n])
  {
    KeepsExisting(script, start);
    var s := Run(script, start).value;
    forall n | n in s.indexes && n !in start.indexes ensures NamesTable(n, s.indexes[n]) {
      var i :| 0 <= i < |script| && script[i] == CreateIndex(n, s.indexes[n]);
    }
  }

  /**
   What the production migrations leave of the names: the four tables beside what was there, every index
   that was there, and new indexes each on the table its name tells; their names are 28.
   */
  lemma ProductionSchema(start: Schema)
    requires FoldUps(AllMigrations(), start).Some?
    ensures var s := FoldUps(AllMigrations(), start).value;
            && s.tables == start.tables + {"clusters", "nodes", "gpio_devices", "gpio_readings"}
            && (forall n :: n in start.indexes ==> n in s.indexes && s.indexes[n] == start.indexes[n])
            && (forall n :: n in s.indexes && n !in start.indexes ==> NamesTable(n, s.indexes[n]))
            && Used(s) == Used(start) + Names(WholeScript()) && |Names(WholeScript())| == 28
  {
    AllUpScript();
    FoldIsScript(AllMigrations(), start);
    WholeScriptCreates();
    WholeScriptTables();
    WholeScriptNamed();
    NamesCount();
    KeepsExisting(WholeScript(), start);
    CreatesExactly(WholeScript(), start);
    NewIndexNames(WholeScript(), start);
  }

  lemma ProductionIdValid(i: nat)
    requires i < 5
    ensures ValidId(AllMigrations()[i].id) && AllDigits(AllMigrations()[i].id)
  {
    ProductionId(i);
    var id := ID_PREFIX + Suffix(i);
    assert |ID_PREFIX| == 13 && forall j :: 0 <= j < 13 ==> IsDigit(ID_PREFIX[j]);
    assert IsDigit(Suffix(i)[0]);
    ValidIdIff(id);
  }

  /** The production IDs pass ValidateMigrationOrder, and none has a sign. */
  lemma ProductionValid()
    ensures forall d :: d in AllMigrations() ==> ValidId(d.id) && AllDigits(d.id)
  {
    forall i | 0 <= i < 5 ensures ValidId(AllMigrations()[i].id) && AllDigits(AllMigrations()[i].id) {
      ProductionIdValid(i);
    }
  }
}
