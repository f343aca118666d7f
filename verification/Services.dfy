/**
 The node and device services over a shared database object. Each database call takes the flag that makes
 it fail; a failed call changes nothing. The store logs its state after each write.
 */
module Services {
  import opened Options
  import opened Outcomes
  import opened Tables
  import R = Readings

  ghost predicate AllIntact(states: seq<Db>) {
    forall s :: s in states ==> Integrity(s)
  }

  /** A request that starts with integrity leaves it and logs only states that have it, whichever call fails. */
  lemma StaysValid(db: Db, log: seq<Db>, r: Request, fails: nat -> bool)
    requires Integrity(db) && AllIntact(log)
    ensures Integrity(Final(db, Perform(db, r, fails))) && AllIntact(log + Perform(db, r, fails).writes)
  {
    RequestKeeps(db, r, fails);
  }

  lemma AppendTwo(log: seq<Db>, a: Db, b: Db)
    ensures log + [a] + [b] == log + [a, b]
  {
  }

  class Store {
    var nodes: map<nat, Node>
    var devices: map<nat, Device>
    var readings: seq<Reading>
    var clusters: set<nat>
    var nextNode: nat
    var nextDevice: nat
    var nextReading: nat
    ghost var log: seq<Db>

    constructor (known: set<nat>)
      ensures Valid() && State() == Empty(known) && log == []
    {
      nodes, devices, readings, clusters := map[], map[], [], known;
      nextNode, nextDevice, nextReading := 1, 1, 1;
      log := [];
    }

    function State(): Db
      reads this
    {
      Db(nodes, devices, readings, clusters, nextNode, nextDevice, nextReading)
    }

    /** The tables have integrity now, and had it after every write so far. */
    ghost predicate Valid()
      reads this
    {
      Integrity(State()) && AllIntact(log)
    }

    method InsertNodeRow(n: Node, fails: bool) returns (ok: bool)
      modifies this
      ensures ok == !fails
      ensures State() == if ok then InsertNode(old(State()), n) else old(State())
      ensures log == old(log) + if ok then [State()] else []
    {
      if fails {
        return false;
      }
      nodes := nodes[nextNode := n];
      nextNode := nextNode + 1;
      log := log + [State()];
      return true;
    }

    method SaveNodeRow(id: nat, n: Node, fails: bool) returns (ok: bool)
      modifies this
      ensures ok == !fails
      ensures State() == if ok then SaveNode(old(State()), id, n) else old(State())
      ensures log == old(log) + if ok then [State()] else []
    {
      if fails {
        return false;
      }
      nodes := nodes[id := n];
      log := log + [State()];
      return true;
    }

    method InsertDeviceRow(d: Device, fails: bool) returns (ok: bool)
      modifies this
      ensures ok == !fails
      ensures State() == if ok then InsertDevice(old(State()), d) else old(State())
      ensures log == old(log) + if ok then [State()] else []
    {
      if fails {
        return false;
      }
      devices := devices[nextDevice := d];
      nextDevice := nextDevice + 1;
      log := log + [State()];
      return true;
    }

    method SaveDeviceRow(id: nat, d: Device, fails: bool) returns (ok: bool)
      modifies this
      ensures ok == !fails
      ensures State() == if ok then SaveDevice(old(State()), id, d) else old(State())
      ensures log == old(log) + if ok then [State()] else []
    {
      if fails {
        return false;
      }
      devices := devices[id := d];
      log := log + [State()];
      return true;
    }

    method InsertReadingRow(deviceId: nat, value: int, now: int, fails: bool) returns (ok: bool)
      modifies this
      ensures ok == !fails
      ensures State() == if ok then InsertReading(old(State()), deviceId, value, now) else old(State())
      ensures log == old(log) + if ok then [State()] else []
    {
      if fails {
        return false;
      }
      readings := readings + [Reading(nextReading, deviceId, value, now)];
      nextReading := nextReading + 1;
      log := log + [State()];
      return true;
    }

    /** Replaces the readings by those a DELETE leaves, and tells how many rows it affected. */
    method KeepReadings(kept: seq<Reading>, fails: bool) returns (ok: bool, affected: int)
      modifies this
      ensures ok == !fails
      ensures State() == if ok then old(State()).(readings := kept) else old(State())
      ensures log == old(log) + if ok then [State()] else []
      ensures affected == if ok then |old(readings)| - |kept| else 0
    {
      if fails {
        return false, 0;
      }
      affected := |readings| - |kept|;
      readings := kept;
      log := log + [State()];
      ok := true;
    }
  }

  /** What a service call returns and leaves is the request's effect. */
  twostate predicate Did(store: Store, r: Request, fails: nat -> bool, new err: Option<Error>)
    reads store
  {
    var e := Perform(old(store.State()), r, fails);
    && err == e.error && store.State() == Final(old(store.State()), e)
    && store.log == old(store.log) + e.writes
  }

  class NodeService {
    const db: Store

    constructor (s: Store)
      ensures db == s
    {
      db := s;
    }

    method Create(r: Request, fails: nat -> bool) returns (err: Option<Error>)
      requires db.Valid() && r.CreateNode?
      modifies db
      ensures db.Valid() && Did(db, r, fails, err)
      ensures CreatesNode(old(db.State()), r, fails, err, db.State())
    {
      StaysValid(db.State(), db.log, r, fails);
      CreateNodeOutcome(db.State(), r, fails);
      if fails(0) {
        return Some(DbFailed);
      }
      if NameTaken(db.State(), r.name) {
        return Some(AlreadyExists);
      }
      if fails(1) {
        return Some(DbFailed);
      }
      if IpTaken(db.State(), r.ip) {
        return Some(AlreadyExists);
      }
      if r.cluster.Some? {
        if fails(2) {
          return Some(DbFailed);
        }
        if r.cluster.value !in db.clusters {
          return Some(NotFound);
        }
      }
      var ok := db.InsertNodeRow(Node(r.name, r.ip, r.mac, "discovered", true), fails(3));
      return if ok then None else Some(DbFailed);
    }

    /** Field by field on a copy of the row, which is saved at the end. */
    method Update(r: Request, fails: nat -> bool) returns (err: Option<Error>)
      requires db.Valid() && r.UpdateNode?
      modifies db
      ensures db.Valid() && Did(db, r, fails, err)
      ensures UpdatesNode(old(db.State()), r, fails, err, db.State())
    {
      StaysValid(db.State(), db.log, r, fails);
      UpdateNodeOutcome(db.State(), r, fails);
      if fails(0) {
        return Some(DbFailed);
      }
      if r.id !in db.nodes || !db.nodes[r.id].live {
        return Some(NotFound);
      }
      var node := db.nodes[r.id];
      if r.newName.Some? && r.newName.value != node.name {
        if fails(1) {
          return Some(DbFailed);
        }
        if NameTaken(db.State(), r.newName.value) {
          return Some(AlreadyExists);
        }
        node := node.(name := r.newName.value);
      }
      if r.newIp.Some? && r.newIp.value != node.ip {
        if fails(2) {
          return Some(DbFailed);
        }
        if IpTaken(db.State(), r.newIp.value) {
          return Some(AlreadyExists);
        }
        node := node.(ip := r.newIp.value);
      }
      if r.newCluster.Some? {
        if fails(3) {
          return Some(DbFailed);
        }
        if r.newCluster.value !in db.clusters {
          return Some(NotFound);
        }
      }
      if r.newMac.Some? {
        node := node.(mac := r.newMac.value);
      }
      if r.newStatus.Some? {
        node := node.(status := r.newStatus.value);
      }
      var ok := db.SaveNodeRow(r.id, node, fails(4));
      return if ok then None else Some(DbFailed);
    }

    method Delete(r: Request, fails: nat -> bool) returns (err: Option<Error>)
      requires db.Valid() && r.DeleteNode?
      modifies db
      ensures db.Valid() && Did(db, r, fails, err)
      ensures DeletesNode(old(db.State()), r, fails, err, db.State())
    {
      StaysValid(db.State(), db.log, r, fails);
      DeleteNodeOutcome(db.State(), r, fails);
      if fails(0) {
        return Some(DbFailed);
      }
      if r.id !in db.nodes || !db.nodes[r.id].live {
        return Some(NotFound);
      }
      if HasDevices(db.State(), r.id) {
        return Some(HasAssociatedResources);
      }
      var ok := db.SaveNodeRow(r.id, db.nodes[r.id].(live := false), fails(1));
      return if ok then None else Some(DbFailed);
    }

    /** Marks a live node as being provisioned for a known cluster. */
    method Provision(r: Request, fails: nat -> bool) returns (err: Option<Error>)
      requires db.Valid() && r.ProvisionNode?
      modifies db
      ensures db.Valid() && Did(db, r, fails, err)
      ensures ProvisionsNode(old(db.State()), r, fails, err, db.State())
    {
      StaysValid(db.State(), db.log, r, fails);
      ProvisionNodeOutcome(db.State(), r, fails);
      if fails(0) {
        return Some(DbFailed);
      }
      if r.id !in db.nodes || !db.nodes[r.id].live {
        return Some(NotFound);
      }
      if fails(1) {
        return Some(DbFailed);
      }
      if r.toCluster !in db.clusters {
        return Some(NotFound);
      }
      var ok := db.SaveNodeRow(r.id, db.nodes[r.id].(status := "provisioning"), fails(2));
      return if ok then None else Some(DbFailed);
    }

    method Deprovision(r: Request, fails: nat -> bool) returns (err: Option<Error>)
      requires db.Valid() && r.DeprovisionNode?
      modifies db
      ensures db.Valid() && Did(db, r, fails, err)
      ensures DeprovisionsNode(old(db.State()), r, fails, err, db.State())
    {
      StaysValid(db.State(), db.log, r, fails);
      DeprovisionNodeOutcome(db.State(), r, fails);
      if fails(0) {
        return Some(DbFailed);
      }
      if r.id !in db.nodes || !db.nodes[r.id].live {
        return Some(NotFound);
      }
      var ok := db.SaveNodeRow(r.id, db.nodes[r.id].(status := "discovered"), fails(1));
      return if ok then None else Some(DbFailed);
    }
  }

  class GPIOService {
    const db: Store

    constructor (s: Store)
      ensures db == s
    {
      db := s;
    }

    method GetByID(id: nat, fails: bool) returns (device: Option<Device>, err: Option<Error>)
      ensures err == if fails then Some(DbFailed) else if LiveDevice(db.State(), id) then None else Some(NotFound)
      ensures err == None ==> device == Some(db.devices[id])
    {
      if fails {
        return None, Some(DbFailed);
      }
      if id !in db.devices || !db.devices[id].live {
        return None, Some(NotFound);
      }
      return Some(db.devices[id]), None;
    }

    method Create(r: Request, fails: nat -> bool) returns (err: Option<Error>)
      requires db.Valid() && r.CreateDevice?
      modifies db
      ensures db.Valid() && Did(db, r, fails, err)
      ensures CreatesDevice(old(db.State()), r, fails, err, db.State())
    {
      StaysValid(db.State(), db.log, r, fails);
      CreateDeviceOutcome(db.State(), r, fails);
      if fails(0) {
        return Some(DbFailed);
      }
      if r.nodeId !in db.nodes || !db.nodes[r.nodeId].live {
        return Some(NotFound);
      }
      if fails(1) {
        return Some(DbFailed);
      }
      if PinTaken(db.State(), r.nodeId, r.pin) {
        return Some(AlreadyExists);
      }
      var device := Device(r.nodeId, r.pin, WithDefault(r.direction, "input"), WithDefault(r.pullMode, "none"),
                           "active", 0, true);
      var ok := db.InsertDeviceRow(device, fails(2));
      return if ok then None else Some(DbFailed);
    }

    method Update(r: Request, fails: nat -> bool) returns (err: Option<Error>)
      requires db.Valid() && r.UpdateDevice?
      modifies db
      ensures db.Valid() && Did(db, r, fails, err)
      ensures UpdatesDevice(old(db.State()), r, fails, err, db.State())
    {
      StaysValid(db.State(), db.log, r, fails);
      UpdateDeviceOutcome(db.State(), r, fails);
      var found;
      found, err := GetByID(r.id, fails(0));
      if err.Some? {
        return;
      }
      var device := found.value;
      if r.newDirection.Some? {
        device := device.(direction := r.newDirection.value);
      }
      if r.newPullMode.Some? {
        device := device.(pullMode := r.newPullMode.value);
      }
      if r.newStatus.Some? {
        device := device.(status := r.newStatus.value);
      }
      var ok := db.SaveDeviceRow(r.id, device, fails(1));
      return if ok then None else Some(DbFailed);
    }

    method Delete(r: Request, fails: nat -> bool) returns (err: Option<Error>)
      requires db.Valid() && r.DeleteDevice?
      modifies db
      ensures db.Valid() && Did(db, r, fails, err)
      ensures DeletesDevice(old(db.State()), r, fails, err, db.State())
    {
      StaysValid(db.State(), db.log, r, fails);
      DeleteDeviceOutcome(db.State(), r, fails);
      var found;
      found, err := GetByID(r.id, fails(0));
      if err.Some? {
        return;
      }
      var ok, _ := db.KeepReadings(NotOf(db.readings, r.id), fails(1));
      if !ok {
        return Some(DbFailed);
      }
      ghost var cleared := db.State();
      ok := db.SaveDeviceRow(r.id, db.devices[r.id].(live := false), fails(2));
      AppendTwo(old(db.log), cleared, db.State());
      return if ok then None else Some(DbFailed);
    }

    method Read(r: Request, fails: nat -> bool) returns (err: Option<Error>)
      requires db.Valid() && r.ReadDevice?
      modifies db
      ensures db.Valid() && Did(db, r, fails, err)
      ensures ReadsDevice(old(db.State()), r, fails, err, db.State())
    {
      StaysValid(db.State(), db.log, r, fails);
      ReadDeviceOutcome(db.State(), r, fails);
      var found;
      found, err := GetByID(r.id, fails(0));
      if err.Some? {
        return;
      }
      if found.value.status != "active" {
        return Some(ValidationFailed);
      }
      var ok := db.InsertReadingRow(r.id, found.value.value, r.now, fails(1));
      return if ok then None else Some(DbFailed);
    }

    method Write(r: Request, fails: nat -> bool) returns (err: Option<Error>)
      requires db.Valid() && r.WriteDevice?
      modifies db
      ensures db.Valid() && Did(db, r, fails, err)
      ensures WritesDevice(old(db.State()), r, fails, err, db.State())
    {
      StaysValid(db.State(), db.log, r, fails);
      WriteDeviceOutcome(db.State(), r, fails);
      var found;
      found, err := GetByID(r.id, fails(0));
      if err.Some? {
        return;
      }
      if found.value.status != "active" {
        return Some(ValidationFailed);
      }
      if found.value.direction != "output" {
        return Some(ValidationFailed);
      }
      var ok := db.SaveDeviceRow(r.id, found.value.(value := r.value), fails(1));
      if !ok {
        return Some(DbFailed);
      }
      // a failure to record the reading is not reported
      ghost var saved := db.State();
      ok := db.InsertReadingRow(r.id, r.value, r.now, fails(2));
      AppendTwo(old(db.log), saved, db.State());
      return None;
    }

    /** Counts the matching readings, then fetches the page; either query can fail. */
    method GetReadings(f: R.Filter, countFails: bool, fetchFails: bool)
      returns (page: seq<Reading>, total: int, err: Option<Error>)
      ensures err == if countFails || fetchFails then Some(DbFailed) else None
      ensures (page, total) == if err == None then R.GetReadings(db.readings, f) else ([], 0)
    {
      if countFails {
        return [], 0, Some(DbFailed);
      }
      var matching := R.Matching(db.readings, f);
      if fetchFails {
        return [], 0, Some(DbFailed);
      }
      var ordered := R.NewestFirst(matching);
      return R.Window(ordered, f.limit, f.offset), |matching|, None;
    }

    method CleanupOldReadings(r: Request, fails: nat -> bool) returns (deleted: int, err: Option<Error>)
      requires db.Valid() && r.CleanupReadings?
      modifies db
      ensures db.Valid() && Did(db, r, fails, err)
      ensures CleansUp(old(db.State()), r, err, db.State())
      ensures deleted + |db.readings| == old(|db.readings|)
    {
      StaysValid(db.State(), db.log, r, fails);
      CleanupOutcome(db.State(), r, fails);
      var ok;
      ok, deleted := db.KeepReadings(Since(db.readings, r.cutoff), fails(0));
      err := if ok then None else Some(DbFailed);
    }
  }
}
