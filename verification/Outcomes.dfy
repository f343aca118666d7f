/**
 What a caller of the services can rely on: for each request, what a success means, what each error means,
 and when the request succeeds if no database call fails. These are statements about the tables before and
 after, without the order of the checks and writes that lead there.
 */
module Outcomes {
  import opened Options
  import opened Tables

  ghost predicate NothingFails(fails: nat -> bool) {
    forall k :: !fails(k)
  }

  /** Only the row of this ID may differ. */
  ghost predicate OthersKept<T>(before: map<nat, T>, after: map<nat, T>, id: nat) {
    after.Keys == before.Keys + {id} && forall x :: x in before && x != id ==> after[x] == before[x]
  }

  predicate HoldsName(db: Db, id: nat, name: string) { LiveNode(db, id) && db.nodes[id].name == name }

  predicate HoldsIp(db: Db, id: nat, ip: string) { LiveNode(db, id) && db.nodes[id].ip == ip }

  /** Node id is the one live node of its name and the one live node of its IP. */
  ghost predicate SoleHolder(db: Db, id: nat) {
    && LiveNode(db, id)
    && forall x :: HoldsName(db, x, db.nodes[id].name) || HoldsIp(db, x, db.nodes[id].ip) ==> x == id
  }

  predicate ClusterKnown(db: Db, cluster: Option<nat>) {
    cluster == None || cluster.value in db.clusters
  }

  ghost predicate OnPin(db: Db, id: nat, nodeId: nat, pin: int) {
    LiveDevice(db, id) && db.devices[id].nodeId == nodeId && db.devices[id].pin == pin
  }

  // the lookups, in terms of who holds what

  lemma NameTakenIff(db: Db, name: string)
    ensures NameTaken(db, name) <==> exists x :: HoldsName(db, x, name)
  {
    if x :| HoldsName(db, x, name) { assert x in db.nodes; }
    if NameTaken(db, name) {
      var x :| x in db.nodes && db.nodes[x].live && db.nodes[x].name == name;
      assert HoldsName(db, x, name);
    }
  }

  lemma IpTakenIff(db: Db, ip: string)
    ensures IpTaken(db, ip) <==> exists x :: HoldsIp(db, x, ip)
  {
    if x :| HoldsIp(db, x, ip) { assert x in db.nodes; }
    if IpTaken(db, ip) {
      var x :| x in db.nodes && db.nodes[x].live && db.nodes[x].ip == ip;
      assert HoldsIp(db, x, ip);
    }
  }

  lemma PinTakenIff(db: Db, nodeId: nat, pin: int)
    ensures PinTaken(db, nodeId, pin) <==> exists x :: OnPin(db, x, nodeId, pin)
  {
    if x :| OnPin(db, x, nodeId, pin) { assert x in db.devices; }
    if PinTaken(db, nodeId, pin) {
      var x :| x in db.devices && db.devices[x].live && db.devices[x].nodeId == nodeId && db.devices[x].pin == pin;
      assert OnPin(db, x, nodeId, pin);
    }
  }

  // ----- nodes

  lemma SoleWhenDistinct(db: Db, id: nat)
    requires NodesDistinct(db) && LiveNode(db, id)
    ensures SoleHolder(db, id)
  {
  }

  /** A node was created: a new row, the only live one of its name and of its IP; or nothing changed. */
  ghost predicate CreatesNode(before: Db, r: Request, fails: nat -> bool, err: Option<Error>, after: Db)
    requires r.CreateNode?
  {
    var id := before.nextNode;
    && (err.Some? ==> after == before)
    && (err == None ==>
          && id !in before.nodes && OthersKept(before.nodes, after.nodes, id) && SoleHolder(after, id)
          && after.nextNode == id + 1
          && after.nodes[id] == Node(r.name, r.ip, r.mac, "discovered", true)
          && after.devices == before.devices && after.readings == before.readings)
    && (err == Some(AlreadyExists) ==> exists x :: HoldsName(before, x, r.name) || HoldsIp(before, x, r.ip))
    && (err == Some(NotFound) ==> !ClusterKnown(before, r.cluster))
    && (NothingFails(fails) ==>
          && (err == None || err == Some(AlreadyExists) || err == Some(NotFound))
          && (err == Some(AlreadyExists) <==> exists x :: HoldsName(before, x, r.name) || HoldsIp(before, x, r.ip))
          && (err == Some(NotFound) ==> !ClusterKnown(before, r.cluster))
          && (err == None ==> ClusterKnown(before, r.cluster)))
  }

  lemma CreateNodeOutcome(db: Db, r: Request, fails: nat -> bool)
    requires Integrity(db) && r.CreateNode?
    ensures CreatesNode(db, r, fails, Perform(db, r, fails).error, Final(db, Perform(db, r, fails)))
  {
    var e := CreateNodeEffect(db, r, fails);
    NameTakenIff(db, r.name);
    IpTakenIff(db, r.ip);
    if e.error == None {
      NodeRequestKeeps(db, r, fails);
      SoleWhenDistinct(e.writes[0], db.nextNode);
    }
  }

  /** Each field is the requested one, or as it was when none is requested. */
  predicate FieldsUpdated(before: Node, r: Request, after: Node)
    requires r.UpdateNode?
  {
    && after.live && (if r.newName.Some? then after.name == r.newName.value else after.name == before.name)
    && (if r.newIp.Some? then after.ip == r.newIp.value else after.ip == before.ip)
    && (if r.newMac.Some? then after.mac == r.newMac.value else after.mac == before.mac)
    && (if r.newStatus.Some? then after.status == r.newStatus.value else after.status == before.status)
  }

  /** The requested name and IP are held by no live node but possibly this one. */
  ghost predicate Free(db: Db, r: Request)
    requires r.UpdateNode?
  {
    forall x :: x in db.nodes && x != r.id ==>
      && (r.newName.Some? ==> !HoldsName(db, x, r.newName.value))
      && (r.newIp.Some? ==> !HoldsIp(db, x, r.newIp.value))
  }

  /** A live node was updated and is still the only live one of its name and of its IP; or nothing changed. */
  ghost predicate UpdatesNode(before: Db, r: Request, fails: nat -> bool, err: Option<Error>, after: Db)
    requires r.UpdateNode?
  {
    && (err.Some? ==> after == before)
    && (err == None ==>
          && LiveNode(before, r.id) && OthersKept(before.nodes, after.nodes, r.id) && SoleHolder(after, r.id)
          && FieldsUpdated(before.nodes[r.id], r, after.nodes[r.id])
          && after.devices == before.devices && after.readings == before.readings)
    && (err == Some(AlreadyExists) ==> !Free(before, r))
    && (err == Some(NotFound) ==> !LiveNode(before, r.id) || !ClusterKnown(before, r.newCluster))
    && (NothingFails(fails) ==>
          && (err == Some(NotFound) <==>
              !LiveNode(before, r.id) || (Free(before, r) && !ClusterKnown(before, r.newCluster)))
          && (err == Some(AlreadyExists) <==> LiveNode(before, r.id) && !Free(before, r))
          && (err == None <==> LiveNode(before, r.id) && Free(before, r) && ClusterKnown(before, r.newCluster)))
  }

  /** Given integrity, the lookups of an update ask whether the requested name and IP are free. */
  lemma FreeIff(db: Db, r: Request)
    requires Integrity(db) && r.UpdateNode? && LiveNode(db, r.id)
    ensures var n := db.nodes[r.id];
            Free(db, r) <==>
            && !(r.newName.Some? && r.newName.value != n.name && NameTaken(db, r.newName.value))
            && !(r.newIp.Some? && r.newIp.value != n.ip && IpTaken(db, r.newIp.value))
  {
    var n := db.nodes[r.id];
    if r.newName.Some? {
      NameTakenIff(db, r.newName.value);
      assert HoldsName(db, r.id, n.name);
    }
    if r.newIp.Some? {
      IpTakenIff(db, r.newIp.value);
      assert HoldsIp(db, r.id, n.ip);
    }
  }

  lemma NodeUpdated(db: Db, r: Request, fails: nat -> bool)
    requires Integrity(db) && r.UpdateNode? && UpdateNodeEffect(db, r, fails).error == None
    ensures var after := Final(db, UpdateNodeEffect(db, r, fails));
            && LiveNode(db, r.id) && OthersKept(db.nodes, after.nodes, r.id) && SoleHolder(after, r.id)
            && FieldsUpdated(db.nodes[r.id], r, after.nodes[r.id])
            && after.devices == db.devices && after.readings == db.readings
  {
    NodeRequestKeeps(db, r, fails);
    SoleWhenDistinct(UpdateNodeEffect(db, r, fails).writes[0], r.id);
  }

  lemma UpdateNodeOutcome(db: Db, r: Request, fails: nat -> bool)
    requires Integrity(db) && r.UpdateNode?
    ensures UpdatesNode(db, r, fails, Perform(db, r, fails).error, Final(db, Perform(db, r, fails)))
  {
    if LiveNode(db, r.id) { FreeIff(db, r); }
    if UpdateNodeEffect(db, r, fails).error == None { NodeUpdated(db, r, fails); }
  }

  /** A live node without live devices was marked deleted, its row otherwise kept; or nothing changed. */
  ghost predicate DeletesNode(before: Db, r: Request, fails: nat -> bool, err: Option<Error>, after: Db)
    requires r.DeleteNode?
  {
    && (err.Some? ==> after == before)
    && (err == None ==>
          && LiveNode(before, r.id) && after.nodes.Keys == before.nodes.Keys
          && (forall x :: LiveNode(after, x) <==> LiveNode(before, x) && x != r.id)
          && (forall x :: x in before.nodes ==> after.nodes[x] == before.nodes[x].(live := after.nodes[x].live))
          && (forall d :: LiveDevice(after, d) ==> after.devices[d].nodeId != r.id)
          && after.devices == before.devices && after.readings == before.readings)
    && (err == Some(NotFound) ==> !LiveNode(before, r.id))
    && (err == Some(HasAssociatedResources) ==> exists d :: LiveDevice(before, d) && before.devices[d].nodeId == r.id)
    && (NothingFails(fails) ==>
          && (err == Some(NotFound) <==> !LiveNode(before, r.id))
          && (err == None <==>
              LiveNode(before, r.id) && forall d :: LiveDevice(before, d) ==> before.devices[d].nodeId != r.id)
          && (err == None || err == Some(NotFound) || err == Some(HasAssociatedResources)))
  }

  lemma DeleteNodeOutcome(db: Db, r: Request, fails: nat -> bool)
    requires Integrity(db) && r.DeleteNode?
    ensures DeletesNode(db, r, fails, Perform(db, r, fails).error, Final(db, Perform(db, r, fails)))
  {
    assert HasDevices(db, r.id) <==> exists d :: LiveDevice(db, d) && db.devices[d].nodeId == r.id;
  }

  /** Only the status of a live node differs. */
  ghost predicate StatusSet(before: Db, id: nat, status: string, after: Db) {
    && LiveNode(before, id) && OthersKept(before.nodes, after.nodes, id)
    && after.nodes[id] == before.nodes[id].(status := status)
    && after.devices == before.devices && after.readings == before.readings
  }

  /** A live node is being provisioned for a known cluster; or nothing changed. */
  ghost predicate ProvisionsNode(before: Db, r: Request, fails: nat -> bool, err: Option<Error>, after: Db)
    requires r.ProvisionNode?
  {
    && (err.Some? ==> after == before)
    && (err == None ==> r.toCluster in before.clusters && StatusSet(before, r.id, "provisioning", after))
    && (err == Some(NotFound) ==> !LiveNode(before, r.id) || r.toCluster !in before.clusters)
    && (NothingFails(fails) ==> err == if LiveNode(before, r.id) && r.toCluster in before.clusters then None
                                       else Some(NotFound))
  }

  lemma ProvisionNodeOutcome(db: Db, r: Request, fails: nat -> bool)
    requires r.ProvisionNode?
    ensures ProvisionsNode(db, r, fails, Perform(db, r, fails).error, Final(db, Perform(db, r, fails)))
  {
  }

  /** A live node is back to discovered; or nothing changed. */
  ghost predicate DeprovisionsNode(before: Db, r: Request, fails: nat -> bool, err: Option<Error>, after: Db)
    requires r.DeprovisionNode?
  {
    && (err.Some? ==> after == before)
    && (err == None ==> StatusSet(before, r.id, "discovered", after))
    && (err == Some(NotFound) ==> !LiveNode(before, r.id))
    && (NothingFails(fails) ==> err == if LiveNode(before, r.id) then None else Some(NotFound))
  }

  lemma DeprovisionNodeOutcome(db: Db, r: Request, fails: nat -> bool)
    requires r.DeprovisionNode?
    ensures DeprovisionsNode(db, r, fails, Perform(db, r, fails).error, Final(db, Perform(db, r, fails)))
  {
  }

  // ----- devices

  /** A device was created on a live node, the only live one on its pin, with value 0; or nothing changed. */
  ghost predicate CreatesDevice(before: Db, r: Request, fails: nat -> bool, err: Option<Error>, after: Db)
    requires r.CreateDevice?
  {
    var id := before.nextDevice;
    && (err.Some? ==> after == before)
    && (err == None ==>
          && id !in before.devices && OthersKept(before.devices, after.devices, id) && after.nextDevice == id + 1
          && LiveNode(after, r.nodeId) && (forall x :: OnPin(after, x, r.nodeId, r.pin) <==> x == id)
          && after.devices[id].value == 0 && after.devices[id].status == "active"
          && after.devices[id].direction == (if r.direction != "" then r.direction else "input")
          && after.devices[id].pullMode == (if r.pullMode != "" then r.pullMode else "none")
          && after.nodes == before.nodes && after.readings == before.readings)
    && (err == Some(NotFound) ==> !LiveNode(before, r.nodeId))
    && (err == Some(AlreadyExists) ==> exists x :: OnPin(before, x, r.nodeId, r.pin))
    && (NothingFails(fails) ==>
          && (err == None || err == Some(NotFound) || err == Some(AlreadyExists))
          && (err == Some(NotFound) <==> !LiveNode(before, r.nodeId))
          && (err == Some(AlreadyExists) <==>
              LiveNode(before, r.nodeId) && exists x :: OnPin(before, x, r.nodeId, r.pin)))
  }

  lemma AloneOnPin(db: Db, id: nat)
    requires PinsDistinct(db) && LiveDevice(db, id)
    ensures forall x :: OnPin(db, x, db.devices[id].nodeId, db.devices[id].pin) <==> x == id
  {
  }

  lemma CreateDeviceOutcome(db: Db, r: Request, fails: nat -> bool)
    requires Integrity(db) && r.CreateDevice?
    ensures CreatesDevice(db, r, fails, Perform(db, r, fails).error, Final(db, Perform(db, r, fails)))
  {
    PinTakenIff(db, r.nodeId, r.pin);
    var e := CreateDeviceEffect(db, r, fails);
    if e.error == None {
      DeviceRequestKeeps(db, r, fails);
      AloneOnPin(e.writes[0], db.nextDevice);
    }
  }

  /** A live device got the requested settings; its node, pin and value are as before; or nothing changed. */
  ghost predicate UpdatesDevice(before: Db, r: Request, fails: nat -> bool, err: Option<Error>, after: Db)
    requires r.UpdateDevice?
  {
    && (err.Some? ==> after == before)
    && (err == None ==>
          && LiveDevice(before, r.id) && LiveDevice(after, r.id) && OthersKept(before.devices, after.devices, r.id)
          && (var b, a := before.devices[r.id], after.devices[r.id];
              && a.nodeId == b.nodeId && a.pin == b.pin && a.value == b.value
              && (if r.newDirection.Some? then a.direction == r.newDirection.value else a.direction == b.direction)
              && (if r.newPullMode.Some? then a.pullMode == r.newPullMode.value else a.pullMode == b.pullMode)
              && (if r.newStatus.Some? then a.status == r.newStatus.value else a.status == b.status))
          && after.nodes == before.nodes && after.readings == before.readings)
    && (err == Some(NotFound) ==> !LiveDevice(before, r.id))
    && (NothingFails(fails) ==> err == if LiveDevice(before, r.id) then None else Some(NotFound))
  }

  lemma UpdateDeviceOutcome(db: Db, r: Request, fails: nat -> bool)
    requires r.UpdateDevice?
    ensures UpdatesDevice(db, r, fails, Perform(db, r, fails).error, Final(db, Perform(db, r, fails)))
  {
  }

  /**
   The device is gone and none of its readings is left; or the device is as it was and its readings are
   all there or all gone. Every other device and its readings are kept either way.
   */
  ghost predicate DeletesDevice(before: Db, r: Request, fails: nat -> bool, err: Option<Error>, after: Db)
    requires r.DeleteDevice?
  {
    && (err.Some? ==> after.devices == before.devices)
    && (err == None ==>
          && LiveDevice(before, r.id) && !LiveDevice(after, r.id) && OthersKept(before.devices, after.devices, r.id)
          && (forall x :: x in after.readings ==> x.deviceId != r.id))
    && (after.readings == before.readings || forall x :: x in after.readings ==> x.deviceId != r.id)
    && (forall x: Reading :: x.deviceId != r.id ==> multiset(after.readings)[x] == multiset(before.readings)[x])
    && after.nodes == before.nodes
    && (err == Some(NotFound) ==> !LiveDevice(before, r.id) && after == before)
    && (NothingFails(fails) ==> err == if LiveDevice(before, r.id) then None else Some(NotFound))
  }

  lemma {:induction false} NotOfCounts(readings: seq<Reading>, deviceId: nat)
    ensures forall x: Reading ::
              multiset(NotOf(readings, deviceId))[x] == if x.deviceId != deviceId then multiset(readings)[x] else 0
  {
    if readings != [] {
      NotOfCounts(readings[1..], deviceId);
      assert readings == [readings[0]] + readings[1..];
    }
  }

  lemma DeleteDeviceOutcome(db: Db, r: Request, fails: nat -> bool)
    requires r.DeleteDevice?
    ensures DeletesDevice(db, r, fails, Perform(db, r, fails).error, Final(db, Perform(db, r, fails)))
  {
    NotOfKeeps(db.readings, r.id);
    NotOfCounts(db.readings, r.id);
  }

  /** One reading of the stored value was appended, of a live active device; or nothing changed. */
  ghost predicate ReadsDevice(before: Db, r: Request, fails: nat -> bool, err: Option<Error>, after: Db)
    requires r.ReadDevice?
  {
    && (err.Some? ==> after == before)
    && (err == None ==>
          && LiveDevice(before, r.id) && before.devices[r.id].status == "active"
          && |after.readings| == |before.readings| + 1 && before.readings <= after.readings
          && (var x := after.readings[|before.readings|];
              x.deviceId == r.id && x.value == before.devices[r.id].value && x.timestamp == r.now)
          && after.nodes == before.nodes && after.devices == before.devices)
    && (err == Some(NotFound) ==> !LiveDevice(before, r.id))
    && (NothingFails(fails) ==>
          err == if !LiveDevice(before, r.id) then Some(NotFound)
                 else if before.devices[r.id].status == "active" then None else Some(ValidationFailed))
  }

  lemma ReadDeviceOutcome(db: Db, r: Request, fails: nat -> bool)
    requires r.ReadDevice?
    ensures ReadsDevice(db, r, fails, Perform(db, r, fails).error, Final(db, Perform(db, r, fails)))
  {
  }

  /**
   A live active output holds the value, and at most one reading was appended, which records it; or nothing
   changed. With no failing call exactly one reading is appended.
   */
  ghost predicate WritesDevice(before: Db, r: Request, fails: nat -> bool, err: Option<Error>, after: Db)
    requires r.WriteDevice?
  {
    && (err.Some? ==> after == before)
    && (err == None ==>
          && LiveDevice(before, r.id) && before.devices[r.id].status == "active"
          && before.devices[r.id].direction == "output"
          && OthersKept(before.devices, after.devices, r.id)
          && after.devices[r.id] == before.devices[r.id].(value := r.value)
          && before.readings <= after.readings && |after.readings| <= |before.readings| + 1
          && (|after.readings| > |before.readings| ==>
                var x := after.readings[|before.readings|];
                x.deviceId == r.id && x.value == r.value && x.timestamp == r.now)
          && after.nodes == before.nodes)
    && (err == Some(NotFound) ==> !LiveDevice(before, r.id))
    && (NothingFails(fails) ==>
          && (err == if !LiveDevice(before, r.id) then Some(NotFound)
                     else if before.devices[r.id].status != "active" then Some(ValidationFailed)
                     else if before.devices[r.id].direction != "output" then Some(ValidationFailed)
                     else None)
          && (err == None ==> |after.readings| == |before.readings| + 1))
  }

  lemma WriteDeviceOutcome(db: Db, r: Request, fails: nat -> bool)
    requires r.WriteDevice?
    ensures WritesDevice(db, r, fails, Perform(db, r, fails).error, Final(db, Perform(db, r, fails)))
  {
  }

  /** The readings from the cutoff on are kept as often as they were stored, older ones are gone; or nothing changed. */
  ghost predicate CleansUp(before: Db, r: Request, err: Option<Error>, after: Db)
    requires r.CleanupReadings?
  {
    && (err.Some? ==> after == before)
    && (err == None ==>
          && (forall x: Reading ::
                multiset(after.readings)[x] == if r.cutoff <= x.timestamp then multiset(before.readings)[x] else 0)
          && after.nodes == before.nodes && after.devices == before.devices)
  }

  lemma CleanupOutcome(db: Db, r: Request, fails: nat -> bool)
    requires r.CleanupReadings?
    ensures CleansUp(db, r, Perform(db, r, fails).error, Final(db, Perform(db, r, fails)))
  {
    SinceKeeps(db.readings, r.cutoff);
  }

  /** A request that succeeds met no failing call, but for the reading of a write. */
  lemma SuccessMeansNoFailure(db: Db, r: Request, fails: nat -> bool)
    requires Perform(db, r, fails).error == None
    ensures match r
            case CreateNode(_, _, _, cluster) =>
              !fails(0) && !fails(1) && (cluster.Some? ==> !fails(2)) && !fails(3)
            case UpdateNode(id, name, ip, _, _, cluster) =>
              && !fails(0) && !fails(4) && (cluster.Some? ==> !fails(3)) && id in db.nodes
              && (name.Some? && name.value != db.nodes[id].name ==> !fails(1))
              && (ip.Some? && ip.value != db.nodes[id].ip ==> !fails(2))
            case DeleteNode(_) => !fails(0) && !fails(1)
            case ProvisionNode(_, _) => !fails(0) && !fails(1) && !fails(2)
            case DeprovisionNode(_) => !fails(0) && !fails(1)
            case CreateDevice(_, _, _, _) => !fails(0) && !fails(1) && !fails(2)
            case UpdateDevice(_, _, _, _) => !fails(0) && !fails(1)
            case DeleteDevice(_) => !fails(0) && !fails(1) && !fails(2)
            case ReadDevice(_, _) => !fails(0) && !fails(1)
            case WriteDevice(_, _, _) => !fails(0) && !fails(1)
            case CleanupReadings(_) => !fails(0)
  {
  }
}
