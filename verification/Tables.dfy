/**
 The node, device and reading tables, and what each service request does to them. A row of the first two
 carries a live flag for soft deletion; readings are the sequence of their rows. IDs are never reused.
 Constraints of the database itself are not used: a call they reject is one of the calls that fail.
 */
module Tables {
  import opened Options

  datatype Node = Node(name: string, ip: string, mac: string, status: string, live: bool)

  datatype Device = Device(nodeId: nat, pin: int, direction: string, pullMode: string, status: string, value: int,
                           live: bool)

  datatype Reading = Reading(id: nat, deviceId: nat, value: int, timestamp: int)

  datatype Db = Db(nodes: map<nat, Node>, devices: map<nat, Device>, readings: seq<Reading>, clusters: set<nat>,
                   nextNode: nat, nextDevice: nat, nextReading: nat)

  datatype Error = NotFound | AlreadyExists | HasAssociatedResources | ValidationFailed | DbFailed

  datatype Request =
    | CreateNode(name: string, ip: string, mac: string, cluster: Option<nat>)
    | UpdateNode(id: nat, newName: Option<string>, newIp: Option<string>, newMac: Option<string>,
                 newStatus: Option<string>, newCluster: Option<nat>)
    | DeleteNode(id: nat)
    | ProvisionNode(id: nat, toCluster: nat)
    | DeprovisionNode(id: nat)
    | CreateDevice(nodeId: nat, pin: int, direction: string, pullMode: string)
    | UpdateDevice(id: nat, newDirection: Option<string>, newPullMode: Option<string>, newStatus: Option<string>)
    | DeleteDevice(id: nat)
    | ReadDevice(id: nat, now: int)
    | WriteDevice(id: nat, value: int, now: int)
    | CleanupReadings(cutoff: int)

  /** The error a request returns, if any, and the state after each of its successful writes. */
  datatype Effect = Effect(error: Option<Error>, writes: seq<Db>)

  function Final(db: Db, e: Effect): Db {
    if e.writes == [] then db else e.writes[|e.writes| - 1]
  }

  function Refused(error: Error): Effect { Effect(Some(error), []) }

  // ----- lookups see live rows only

  predicate LiveNode(db: Db, id: nat) { id in db.nodes && db.nodes[id].live }

  predicate LiveDevice(db: Db, id: nat) { id in db.devices && db.devices[id].live }

  predicate NameTaken(db: Db, name: string) {
    exists id :: id in db.nodes && db.nodes[id].live && db.nodes[id].name == name
  }

  predicate IpTaken(db: Db, ip: string) {
    exists id :: id in db.nodes && db.nodes[id].live && db.nodes[id].ip == ip
  }

  predicate PinTaken(db: Db, nodeId: nat, pin: int) {
    exists id :: id in db.devices && db.devices[id].live && db.devices[id].nodeId == nodeId && db.devices[id].pin == pin
  }

  predicate HasDevices(db: Db, nodeId: nat) {
    exists id :: id in db.devices && db.devices[id].live && db.devices[id].nodeId == nodeId
  }

  // ----- single writes

  function InsertNode(db: Db, n: Node): Db {
    db.(nodes := db.nodes[db.nextNode := n], nextNode := db.nextNode + 1)
  }

  function SaveNode(db: Db, id: nat, n: Node): Db {
    db.(nodes := db.nodes[id := n])
  }

  function InsertDevice(db: Db, d: Device): Db {
    db.(devices := db.devices[db.nextDevice := d], nextDevice := db.nextDevice + 1)
  }

  function SaveDevice(db: Db, id: nat, d: Device): Db {
    db.(devices := db.devices[id := d])
  }

  function InsertReading(db: Db, deviceId: nat, value: int, now: int): Db {
    db.(readings := db.readings + [Reading(db.nextReading, deviceId, value, now)], nextReading := db.nextReading + 1)
  }

  function NotOf(readings: seq<Reading>, deviceId: nat): seq<Reading> {
    if readings == [] then []
    else (if readings[0].deviceId == deviceId then [] else [readings[0]]) + NotOf(readings[1..], deviceId)
  }

  function Since(readings: seq<Reading>, cutoff: int): seq<Reading> {
    if readings == [] then []
    else (if readings[0].timestamp < cutoff then [] else [readings[0]]) + Since(readings[1..], cutoff)
  }

  // ----- requests; fails(k) says whether the k-th kind of call of the request fails

  function OrElse<T>(o: Option<T>, default: T): T {
    if o.Some? then o.value else default
  }

  function WithDefault(s: string, default: string): string {
    if s == "" then default else s
  }

  function CreateNodeEffect(db: Db, r: Request, fails: nat -> bool): Effect
    requires r.CreateNode?
  {
    if fails(0) then Refused(DbFailed)
    else if NameTaken(db, r.name) then Refused(AlreadyExists)
    else if fails(1) then Refused(DbFailed)
    else if IpTaken(db, r.ip) then Refused(AlreadyExists)
    else if r.cluster.Some? && fails(2) then Refused(DbFailed)
    else if r.cluster.Some? && r.cluster.value !in db.clusters then Refused(NotFound)
    else if fails(3) then Refused(DbFailed)
    else Effect(None, [InsertNode(db, Node(r.name, r.ip, r.mac, "discovered", true))])
  }

  function UpdateNodeEffect(db: Db, r: Request, fails: nat -> bool): Effect
    requires r.UpdateNode?
  {
    if fails(0) then Refused(DbFailed)
    else if !LiveNode(db, r.id) then Refused(NotFound)
    else
      var n := db.nodes[r.id];
      var renamed := r.newName.Some? && r.newName.value != n.name;
      var moved := r.newIp.Some? && r.newIp.value != n.ip;
      if renamed && fails(1) then Refused(DbFailed)
      else if renamed && NameTaken(db, r.newName.value) then Refused(AlreadyExists)
      else if moved && fails(2) then Refused(DbFailed)
      else if moved && IpTaken(db, r.newIp.value) then Refused(AlreadyExists)
      else if r.newCluster.Some? && fails(3) then Refused(DbFailed)
      else if r.newCluster.Some? && r.newCluster.value !in db.clusters then Refused(NotFound)
      else if fails(4) then Refused(DbFailed)
      else
        var saved := Node(OrElse(r.newName, n.name), OrElse(r.newIp, n.ip), OrElse(r.newMac, n.mac),
                          OrElse(r.newStatus, n.status), true);
        Effect(None, [SaveNode(db, r.id, saved)])
  }

  function DeleteNodeEffect(db: Db, r: Request, fails: nat -> bool): Effect
    requires r.DeleteNode?
  {
    if fails(0) then Refused(DbFailed)
    else if !LiveNode(db, r.id) then Refused(NotFound)
    else if HasDevices(db, r.id) then Refused(HasAssociatedResources)
    else if fails(1) then Refused(DbFailed)
    else Effect(None, [SaveNode(db, r.id, db.nodes[r.id].(live := false))])
  }

  /** The cluster assignment itself is not part of the model. */
  function ProvisionNodeEffect(db: Db, r: Request, fails: nat -> bool): Effect
    requires r.ProvisionNode?
  {
    if fails(0) then Refused(DbFailed)
    else if !LiveNode(db, r.id) then Refused(NotFound)
    else if fails(1) then Refused(DbFailed)
    else if r.toCluster !in db.clusters then Refused(NotFound)
    else if fails(2) then Refused(DbFailed)
    else Effect(None, [SaveNode(db, r.id, db.nodes[r.id].(status := "provisioning"))])
  }

  function DeprovisionNodeEffect(db: Db, r: Request, fails: nat -> bool): Effect
    requires r.DeprovisionNode?
  {
    if fails(0) then Refused(DbFailed)
    else if !LiveNode(db, r.id) then Refused(NotFound)
    else if fails(1) then Refused(DbFailed)
    else Effect(None, [SaveNode(db, r.id, db.nodes[r.id].(status := "discovered"))])
  }

  function CreateDeviceEffect(db: Db, r: Request, fails: nat -> bool): Effect
    requires r.CreateDevice?
  {
    if fails(0) then Refused(DbFailed)
    else if !LiveNode(db, r.nodeId) then Refused(NotFound)
    else if fails(1) then Refused(DbFailed)
    else if PinTaken(db, r.nodeId, r.pin) then Refused(AlreadyExists)
    else if fails(2) then Refused(DbFailed)
    else Effect(None, [InsertDevice(db, Device(r.nodeId, r.pin, WithDefault(r.direction, "input"),
                                               WithDefault(r.pullMode, "none"), "active", 0, true))])
  }

  function UpdateDeviceEffect(db: Db, r: Request, fails: nat -> bool): Effect
    requires r.UpdateDevice?
  {
    if fails(0) then Refused(DbFailed)
    else if !LiveDevice(db, r.id) then Refused(NotFound)
    else if fails(1) then Refused(DbFailed)
    else
      var d := db.devices[r.id];
      Effect(None, [SaveDevice(db, r.id, d.(direction := OrElse(r.newDirection, d.direction),
                                            pullMode := OrElse(r.newPullMode, d.pullMode),
                                            status := OrElse(r.newStatus, d.status)))])
  }

  /** The readings go first, in a call of their own. */
  function DeleteDeviceEffect(db: Db, r: Request, fails: nat -> bool): Effect
    requires r.DeleteDevice?
  {
    if fails(0) then Refused(DbFailed)
    else if !LiveDevice(db, r.id) then Refused(NotFound)
    else if fails(1) then Refused(DbFailed)
    else
      var cleared := db.(readings := NotOf(db.readings, r.id));
      if fails(2) then Effect(Some(DbFailed), [cleared])
      else Effect(None, [cleared, SaveDevice(cleared, r.id, db.devices[r.id].(live := false))])
  }

  function ReadDeviceEffect(db: Db, r: Request, fails: nat -> bool): Effect
    requires r.ReadDevice?
  {
    if fails(0) then Refused(DbFailed)
    else if !LiveDevice(db, r.id) then Refused(NotFound)
    else if db.devices[r.id].status != "active" then Refused(ValidationFailed)
    else if fails(1) then Refused(DbFailed)
    else Effect(None, [InsertReading(db, r.id, db.devices[r.id].value, r.now)])
  }

  /** A reading that cannot be recorded after the write is logged, not reported. */
  function WriteDeviceEffect(db: Db, r: Request, fails: nat -> bool): Effect
    requires r.WriteDevice?
  {
    if fails(0) then Refused(DbFailed)
    else if !LiveDevice(db, r.id) then Refused(NotFound)
    else if db.devices[r.id].status != "active" || db.devices[r.id].direction != "output" then Refused(ValidationFailed)
    else if fails(1) then Refused(DbFailed)
    else
      var saved := SaveDevice(db, r.id, db.devices[r.id].(value := r.value));
      if fails(2) then Effect(None, [saved])
      else Effect(None, [saved, InsertReading(saved, r.id, r.value, r.now)])
  }

  function CleanupEffect(db: Db, r: Request, fails: nat -> bool): Effect
    requires r.CleanupReadings?
  {
    if fails(0) then Refused(DbFailed)
    else Effect(None, [db.(readings := Since(db.readings, r.cutoff))])
  }

  function Perform(db: Db, r: Request, fails: nat -> bool): Effect {
    match r
    case CreateNode(_, _, _, _) => CreateNodeEffect(db, r, fails)
    case UpdateNode(_, _, _, _, _, _) => UpdateNodeEffect(db, r, fails)
    case DeleteNode(_) => DeleteNodeEffect(db, r, fails)
    case ProvisionNode(_, _) => ProvisionNodeEffect(db, r, fails)
    case DeprovisionNode(_) => DeprovisionNodeEffect(db, r, fails)
    case CreateDevice(_, _, _, _) => CreateDeviceEffect(db, r, fails)
    case UpdateDevice(_, _, _, _) => UpdateDeviceEffect(db, r, fails)
    case DeleteDevice(_) => DeleteDeviceEffect(db, r, fails)
    case ReadDevice(_, _) => ReadDeviceEffect(db, r, fails)
    case WriteDevice(_, _, _) => WriteDeviceEffect(db, r, fails)
    case CleanupReadings(_) => CleanupEffect(db, r, fails)
  }

  // ----- integrity

  ghost predicate IdsFresh(db: Db) {
    && (forall id :: id in db.nodes ==> id < db.nextNode)
    && (forall id :: id in db.devices ==> id < db.nextDevice)
  }

  ghost predicate DevicesHaveNodes(db: Db) {
    forall id :: LiveDevice(db, id) ==> LiveNode(db, db.devices[id].nodeId)
  }

  ghost predicate ReadingsHaveDevices(db: Db) {
    forall i :: 0 <= i < |db.readings| ==> LiveDevice(db, db.readings[i].deviceId)
  }

  ghost predicate PinsDistinct(db: Db) {
    forall a, b :: LiveDevice(db, a) && LiveDevice(db, b) && a != b ==>
      db.devices[a].nodeId != db.devices[b].nodeId || db.devices[a].pin != db.devices[b].pin
  }

  ghost predicate NodesDistinct(db: Db) {
    forall a, b :: LiveNode(db, a) && LiveNode(db, b) && a != b ==>
      db.nodes[a].name != db.nodes[b].name && db.nodes[a].ip != db.nodes[b].ip
  }

  ghost predicate Integrity(db: Db) {
    IdsFresh(db) && DevicesHaveNodes(db) && ReadingsHaveDevices(db) && PinsDistinct(db) && NodesDistinct(db)
  }

  lemma {:induction false} NotOfKeeps(readings: seq<Reading>, deviceId: nat)
    ensures forall r :: r in NotOf(readings, deviceId) <==> r in readings && r.deviceId != deviceId
  {
    if readings != [] {
      NotOfKeeps(readings[1..], deviceId);
      assert readings == [readings[0]] + readings[1..];
    }
  }

  /** The cleanup keeps every reading from the cutoff on as often as it was there, and no older one. */
  lemma {:induction false} SinceKeeps(readings: seq<Reading>, cutoff: int)
    ensures forall r :: r in Since(readings, cutoff) <==> r in readings && cutoff <= r.timestamp
    ensures forall r ::
              multiset(Since(readings, cutoff))[r] == if cutoff <= r.timestamp then multiset(readings)[r] else 0
  {
    if readings != [] {
      SinceKeeps(readings[1..], cutoff);
      assert readings == [readings[0]] + readings[1..];
    }
  }

  // ----- each write keeps integrity under the check the service makes before it

  lemma InsertNodeKeeps(db: Db, n: Node)
    requires Integrity(db) && !NameTaken(db, n.name) && !IpTaken(db, n.ip)
    ensures Integrity(InsertNode(db, n))
  {
  }

  lemma SaveNodeKeeps(db: Db, id: nat, n: Node)
    requires Integrity(db) && LiveNode(db, id) && n.live
    requires n.name == db.nodes[id].name || !NameTaken(db, n.name)
    requires n.ip == db.nodes[id].ip || !IpTaken(db, n.ip)
    ensures Integrity(SaveNode(db, id, n))
  {
  }

  lemma DropNodeKeeps(db: Db, id: nat)
    requires Integrity(db) && LiveNode(db, id) && !HasDevices(db, id)
    ensures Integrity(SaveNode(db, id, db.nodes[id].(live := false)))
  {
  }

  lemma InsertDeviceKeeps(db: Db, d: Device)
    requires Integrity(db) && LiveNode(db, d.nodeId) && !PinTaken(db, d.nodeId, d.pin)
    ensures Integrity(InsertDevice(db, d))
  {
  }

  lemma SaveDeviceKeeps(db: Db, id: nat, d: Device)
    requires Integrity(db) && LiveDevice(db, id) && d.live
    requires d.nodeId == db.devices[id].nodeId && d.pin == db.devices[id].pin
    ensures Integrity(SaveDevice(db, id, d))
  {
  }

  lemma DropDeviceKeeps(db: Db, id: nat)
    requires Integrity(db) && LiveDevice(db, id) && forall r :: r in db.readings ==> r.deviceId != id
    ensures Integrity(SaveDevice(db, id, db.devices[id].(live := false)))
  {
    assert forall i :: 0 <= i < |db.readings| ==> db.readings[i] in db.readings;
  }

  lemma FewerReadingsKeep(db: Db, fewer: seq<Reading>)
    requires Integrity(db) && forall r :: r in fewer ==> r in db.readings
    ensures Integrity(db.(readings := fewer))
  {
    forall i | 0 <= i < |fewer| ensures LiveDevice(db, fewer[i].deviceId) {
      assert fewer[i] in db.readings;
    }
  }

  lemma InsertReadingKeeps(db: Db, deviceId: nat, value: int, now: int)
    requires Integrity(db) && LiveDevice(db, deviceId)
    ensures Integrity(InsertReading(db, deviceId, value, now))
  {
  }

  predicate OnNode(r: Request) {
    r.CreateNode? || r.UpdateNode? || r.DeleteNode? || r.ProvisionNode? || r.DeprovisionNode?
  }

  lemma NodeRequestKeeps(db: Db, r: Request, fails: nat -> bool)
    requires Integrity(db) && OnNode(r)
    ensures forall s :: s in Perform(db, r, fails).writes ==> Integrity(s)
  {
    var e := Perform(db, r, fails);
    if e.writes != [] {
      match r
      case CreateNode(name, ip, mac, _) => InsertNodeKeeps(db, Node(name, ip, mac, "discovered", true));
      case UpdateNode(id, _, _, _, _, _) => SaveNodeKeeps(db, id, e.writes[0].nodes[id]);
      case DeleteNode(id) => DropNodeKeeps(db, id);
      case ProvisionNode(id, _) => SaveNodeKeeps(db, id, e.writes[0].nodes[id]);
      case DeprovisionNode(id) => SaveNodeKeeps(db, id, e.writes[0].nodes[id]);
    }
  }

  lemma DeviceRequestKeeps(db: Db, r: Request, fails: nat -> bool)
    requires Integrity(db) && (r.CreateDevice? || r.UpdateDevice? || r.DeleteDevice?)
    ensures forall s :: s in Perform(db, r, fails).writes ==> Integrity(s)
  {
    var e := Perform(db, r, fails);
    if e.writes != [] {
      match r
      case CreateDevice(_, _, _, _) => InsertDeviceKeeps(db, e.writes[0].devices[db.nextDevice]);
      case UpdateDevice(id, _, _, _) => SaveDeviceKeeps(db, id, e.writes[0].devices[id]);
      case DeleteDevice(id) =>
        NotOfKeeps(db.readings, id);
        FewerReadingsKeep(db, NotOf(db.readings, id));
        DropDeviceKeeps(e.writes[0], id);
    }
  }

  lemma ReadingRequestKeeps(db: Db, r: Request, fails: nat -> bool)
    requires Integrity(db) && (r.ReadDevice? || r.WriteDevice? || r.CleanupReadings?)
    ensures forall s :: s in Perform(db, r, fails).writes ==> Integrity(s)
  {
    var e := Perform(db, r, fails);
    if e.writes != [] {
      match r
      case ReadDevice(id, now) => InsertReadingKeeps(db, id, db.devices[id].value, now);
      case WriteDevice(id, value, now) =>
        SaveDeviceKeeps(db, id, db.devices[id].(value := value));
        InsertReadingKeeps(e.writes[0], id, value, now);
      case CleanupReadings(cutoff) =>
        SinceKeeps(db.readings, cutoff);
        FewerReadingsKeep(db, Since(db.readings, cutoff));
    }
  }

  /** Whatever calls fail: the state after a request, and after each write inside it, keeps integrity. */
  lemma RequestKeeps(db: Db, r: Request, fails: nat -> bool)
    requires Integrity(db)
    ensures forall s :: s in Perform(db, r, fails).writes ==> Integrity(s)
    ensures Integrity(Final(db, Perform(db, r, fails)))
  {
    if OnNode(r) {
      NodeRequestKeeps(db, r, fails);
    } else if r.CreateDevice? || r.UpdateDevice? || r.DeleteDevice? {
      DeviceRequestKeeps(db, r, fails);
    } else {
      ReadingRequestKeeps(db, r, fails);
    }
  }

  // ----- runs

  datatype Call = Call(request: Request, fails: nat -> bool)

  function Empty(clusters: set<nat>): Db {
    Db(map[], map[], [], clusters, 1, 1, 1)
  }

  function Play(start: Db, run: seq<Call>): Db {
    if run == [] then start
    else
      var n := |run| - 1;
      var before := Play(start, run[..n]);
      Final(before, Perform(before, run[n].request, run[n].fails))
  }

  /** Every state that serialised requests can reach from an empty database keeps integrity. */
  lemma {:induction false} ReachableIntegrity(clusters: set<nat>, run: seq<Call>)
    ensures Integrity(Play(Empty(clusters), run))
  {
    if run != [] {
      var n := |run| - 1;
      ReachableIntegrity(clusters, run[..n]);
      RequestKeeps(Play(Empty(clusters), run[..n]), run[n].request, run[n].fails);
    }
  }

  /**
   A request that returns an error has changed the database exactly when it is a deletion of a live device
   whose readings were deleted before the call that deletes the device failed.
   */
  lemma FailedRequestChangedIff(db: Db, r: Request, fails: nat -> bool)
    requires Perform(db, r, fails).error.Some?
    ensures Final(db, Perform(db, r, fails)) != db <==>
            && r.DeleteDevice? && LiveDevice(db, r.id) && !fails(0) && !fails(1) && fails(2)
            && exists x :: x in db.readings && x.deviceId == r.id
  {
    if r.DeleteDevice? {
      NotOfKeeps(db.readings, r.id);
      if forall x :: x in db.readings ==> x.deviceId != r.id { NotOfNone(db.readings, r.id); }
    }
  }

  lemma {:induction false} NotOfNone(readings: seq<Reading>, deviceId: nat)
    requires forall r :: r in readings ==> r.deviceId != deviceId
    ensures NotOf(readings, deviceId) == readings
  {
    if readings != [] { NotOfNone(readings[1..], deviceId); }
  }

  ghost predicate StaysPut(db: Db, s: Db, id: nat)
    requires id in db.devices
  {
    && id in s.devices && s.devices[id].nodeId == db.devices[id].nodeId
    && s.devices[id].pin == db.devices[id].pin && (s.devices[id].live ==> db.devices[id].live)
  }

  /** A device never moves to another pin or node, and a deleted row never comes back. */
  lemma DevicesStayPut(db: Db, r: Request, fails: nat -> bool, id: nat)
    requires IdsFresh(db) && id in db.devices
    ensures forall s :: s in Perform(db, r, fails).writes ==> StaysPut(db, s, id)
  {
    assert id != db.nextDevice;
  }

  /** A call in which nothing fails. */
  const NEVER: nat -> bool := k => false

  /** What was written to a device is what the next read of it records, unless something came between. */
  lemma WriteThenReadRecords(db: Db, id: nat, value: int, now: int, later: int)
    requires Perform(db, WriteDevice(id, value, now), NEVER).error == None
    ensures var written := Final(db, Perform(db, WriteDevice(id, value, now), NEVER));
            var read := Perform(written, ReadDevice(id, later), NEVER);
            && read.error == None
            && Final(written, read).readings
               == db.readings + [Reading(db.nextReading, id, value, now), Reading(db.nextReading + 1, id, value, later)]
  {
  }

  /** A pin in use is refused and keeps its node from being deleted; deleting its device frees the pin. */
  lemma PinFreedByDeletion(db: Db, nodeId: nat, pin: int, direction: string, pull: string)
    requires Integrity(db) && Perform(db, CreateDevice(nodeId, pin, direction, pull), NEVER).error == None
    ensures var create := CreateDevice(nodeId, pin, direction, pull);
            var created := Final(db, Perform(db, create, NEVER));
            var deleted := Final(created, Perform(created, DeleteDevice(db.nextDevice), NEVER));
            && Perform(created, create, NEVER).error == Some(AlreadyExists)
            && Perform(created, DeleteNode(nodeId), NEVER).error == Some(HasAssociatedResources)
            && Perform(created, DeleteDevice(db.nextDevice), NEVER).error == None
            && Perform(deleted, create, NEVER).error == None
  {
    var create := CreateDevice(nodeId, pin, direction, pull);
    var created := Final(db, Perform(db, create, NEVER));
    assert LiveDevice(created, db.nextDevice);
    var deleted := Final(created, Perform(created, DeleteDevice(db.nextDevice), NEVER));
    assert !PinTaken(deleted, nodeId, pin);
  }

  /** A name held by a live node becomes free for another one exactly when the rename of that node is accepted. */
  lemma NameFreed(db: Db, id: nat, name: string, newName: string, ip: string, mac: string)
    requires Integrity(db) && LiveNode(db, id) && db.nodes[id].name == name && newName != name
    requires !IpTaken(db, ip)
    ensures Perform(db, CreateNode(name, ip, mac, None), NEVER).error == Some(AlreadyExists)
    ensures var rename := UpdateNode(id, Some(newName), None, None, None, None);
            var renamed := Final(db, Perform(db, rename, NEVER));
            Perform(db, rename, NEVER).error == None
            <==> Perform(renamed, CreateNode(name, ip, mac, None), NEVER).error == None
  {
    var rename := UpdateNode(id, Some(newName), None, None, None, None);
    var renamed := Final(db, Perform(db, rename, NEVER));
    assert NameTaken(db, name);
    if Perform(db, rename, NEVER).error == None {
      assert !NameTaken(renamed, name);
      assert !IpTaken(renamed, ip);
    }
  }
}
