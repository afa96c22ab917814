/**
 * Machine discovery and deployment tracking (src/provisioning_service.py).
 *
 * `MachineInventory` keeps the machine records, keyed by an id derived from the MAC address,
 * in an insertion-ordered dict. The three HTTP routes discover, deploy and deployment/status
 * are the decisions taken on top of it. Every operation is given twice: as a function on an
 * `Inventory` value, which the lemmas in module ProvisioningProperties reason about, and as
 * the method that updates the dict in place, proved to agree with that function.
 */
module Provisioning {
  import opened Options
  import opened Text
  import opened Dict

  const DISCOVERED: string := "discovered"
  const DEPLOYING: string := "deploying"
  const DEPLOYED: string := "deployed"
  const FAILED: string := "failed"

  /** The status tokens a deploying machine reports that cause a transition. */
  const REPORT_COMPLETE: string := "complete"
  const REPORT_FAILED: string := "failed"

  /** The image auto-deployment hands out, and where images are served from. */
  const DEFAULT_IMAGE: string := "ubuntu-server-airgap.qcow2"
  const IMAGE_BASE_URL: string := "http://192.168.100.1:8080/images/"

  /** One machine record. Disk and interface descriptions are kept as opaque strings. */
  datatype Machine = Machine(
    id: string,
    macAddress: string,
    hostname: string,
    cpuCount: int,
    memoryMb: int,
    disks: seq<string>,
    networkInterfaces: seq<string>,
    status: string,
    discoveredAt: string,
    lastSeen: string,
    discoveryCount: int,
    deployedImage: Option<string>,
    deploymentStatus: Option<string>,
    deploymentTime: Option<string>)

  /** The contents of `MachineInventory.machines`: records by id, and the ids in insertion order. */
  datatype Inventory = Inventory(machines: map<string, Machine>, order: seq<string>)

  const EMPTY: Inventory := Inventory(map[], [])

  /** The body of a discovery contact; `None` stands for a key the body does not carry. */
  datatype DiscoveryData = DiscoveryData(
    macAddress: Option<string>,
    hostname: Option<string>,
    cpuCount: Option<int>,
    memoryMb: Option<int>,
    disks: Option<seq<string>>,
    networkInterfaces: Option<seq<string>>,
    autoDeploy: bool)

  /** The machine id: "machine-" and the MAC without its colons (case is kept). */
  function MachineId(mac: string): string {
    "machine-" + RemoveChar(mac, ':')
  }

  /** The hostname of a machine that reported none: "unknown-" and its last 8 MAC characters without colons. */
  function DefaultHostname(mac: string): string {
    "unknown-" + RemoveChar(if |mac| >= 8 then mac[|mac| - 8..] else mac, ':')
  }

  /** The record a first discovery contact creates. */
  function NewRecord(id: string, mac: string, data: DiscoveryData, now: string): Machine {
    Machine(
      id := id,
      macAddress := mac,
      hostname := data.hostname.GetOr(DefaultHostname(mac)),
      cpuCount := data.cpuCount.GetOr(0),
      memoryMb := data.memoryMb.GetOr(0),
      disks := data.disks.GetOr([]),
      networkInterfaces := data.networkInterfaces.GetOr([]),
      status := DISCOVERED,
      discoveredAt := now,
      lastSeen := now,
      discoveryCount := 1,
      deployedImage := None,
      deploymentStatus := None,
      deploymentTime := None)
  }

  /** The records of the inventory, in insertion order. */
  function Records(inv: Inventory): seq<Machine> {
    Values(inv.machines, inv.order)
  }

  /**
   * `register_machine`: the new inventory and the record returned. A contact without a MAC is
   * refused; any other contact leaves exactly one record under its id and touches no other.
   */
  function Register(inv: Inventory, data: DiscoveryData, now: string): (r: (Inventory, Option<Machine>))
    ensures data.macAddress.None? || data.macAddress == Some("") ==> r == (inv, None)
    ensures data.macAddress.Some? && data.macAddress.value != "" ==>
              var id := MachineId(data.macAddress.value);
              && id in r.0.machines
              && r.1 == Some(r.0.machines[id])
              && r.0.machines.Keys == inv.machines.Keys + {id}
              && (forall k :: k in inv.machines && k != id ==> r.0.machines[k] == inv.machines[k])
  {
    match data.macAddress
    case None => (inv, None)
    case Some(mac) =>
      if mac == "" then (inv, None)
      else
        var id := MachineId(mac);
        if id in inv.machines then
          var m := inv.machines[id];
          var m' := m.(lastSeen := now, discoveryCount := m.discoveryCount + 1);
          (inv.(machines := inv.machines[id := m']), Some(m'))
        else
          var m := NewRecord(id, mac, data, now);
          (Inventory(inv.machines[id := m], inv.order + [id]), Some(m))
  }

  /**
   * `update_deployment_status`: false and no change for an unknown id; otherwise both status
   * fields take the new value, the image is recorded when a non-empty one is given, and the
   * deployment time is stamped when the status is "deployed".
   */
  function UpdateStatus(inv: Inventory, id: string, status: string, image: Option<string>, now: string)
    : (r: (Inventory, bool))
    ensures r.1 <==> id in inv.machines
    ensures !r.1 ==> r.0 == inv
  {
    if id !in inv.machines then (inv, false)
    else
      var m := inv.machines[id].(deploymentStatus := Some(status), status := status);
      var m' := if image.Some? && image.value != "" then m.(deployedImage := image) else m;
      var m'' := if status == DEPLOYED then m'.(deploymentTime := Some(now)) else m';
      (inv.(machines := inv.machines[id := m'']), true)
  }

  /**
   * `get_machine_by_mac`: the first record, in insertion order, whose MAC equals `mac` up to
   * case, or None when there is no such record.
   */
  function FindByMac(ms: seq<Machine>, mac: string): (r: Option<Machine>)
    ensures r.Some? ==> r.value in ms && EqualsIgnoreCase(r.value.macAddress, mac)
    ensures r.None? <==> forall m :: m in ms ==> !EqualsIgnoreCase(m.macAddress, mac)
  {
    if ms == [] then None
    else if EqualsIgnoreCase(ms[0].macAddress, mac) then Some(ms[0])
    else FindByMac(ms[1..], mac)
  }

  lemma FindByMacCons(m: Machine, rest: seq<Machine>, mac: string)
    ensures FindByMac([m] + rest, mac) == if EqualsIgnoreCase(m.macAddress, mac) then Some(m) else FindByMac(rest, mac)
  {
    assert ([m] + rest)[1..] == rest;
  }

  /** The records whose status is `s`, in their original order. */
  function FilterStatus(ms: seq<Machine>, s: string): (r: seq<Machine>)
    ensures |r| <= |ms|
    ensures forall m :: m in r <==> m in ms && m.status == s
  {
    if ms == [] then []
    else (if ms[0].status == s then [ms[0]] else []) + FilterStatus(ms[1..], s)
  }

  /**
   * The comprehension keeps the order of the records: filtering a concatenation filters each
   * part in turn, and a single record is kept exactly when it has the status.
   */
  lemma {:induction false} FilterStatusAppend(xs: seq<Machine>, ys: seq<Machine>, s: string)
    ensures FilterStatus(xs + ys, s) == FilterStatus(xs, s) + FilterStatus(ys, s)
    ensures |xs| == 1 ==> FilterStatus(xs, s) == if xs[0].status == s then xs else []
  {
    if |xs| == 1 {
      assert xs[1..] == [];
    }
    if xs == [] {
      assert xs + ys == ys;
    } else {
      var zs := xs + ys;
      assert zs[0] == xs[0] && zs[1..] == xs[1..] + ys;
      FilterStatusAppend(xs[1..], ys, s);
      assert FilterStatus(zs, s) == (if xs[0].status == s then [xs[0]] else []) + FilterStatus(xs[1..] + ys, s);
    }
  }

  /** A record with the status occurs in the filtered list as often as in the input; any other not at all. */
  lemma {:induction false} FilterStatusCount(ms: seq<Machine>, s: string, m: Machine)
    ensures multiset(FilterStatus(ms, s))[m] == if m.status == s then multiset(ms)[m] else 0
  {
    if ms != [] {
      FilterStatusCount(ms[1..], s, m);
      assert ms == [ms[0]] + ms[1..];
      assert multiset(ms) == multiset([ms[0]]) + multiset(ms[1..]);
    }
  }

  /** `list_machines(status)`: an empty or absent filter lists every record. */
  function Listing(inv: Inventory, status: Option<string>): (r: seq<Machine>)
    ensures status.None? || status == Some("") ==> r == Records(inv)
    ensures status.Some? && status.value != "" ==>
              forall m :: m in r <==> m in Records(inv) && m.status == status.value
  {
    if status.Some? && status.value != "" then FilterStatus(Records(inv), status.value)
    else Records(inv)
  }

  /** The answer of the discover route. */
  datatype DiscoverResponse =
    | RegisterFailed
    | DeployDirective(machineId: string, image: string, imageUrl: string)
    | WaitDirective(machineId: string)

  /**
   * The discover route: register the contact; a record already deploying a known image is told
   * to deploy it (as `.img`); otherwise an auto-deploy request marks the record deploying and
   * hands out the default image; otherwise the machine is told to wait.
   */
  function Discover(inv: Inventory, data: DiscoveryData, now: string): (Inventory, DiscoverResponse) {
    var registered := Register(inv, data, now);
    match registered.1
    case None => (registered.0, RegisterFailed)
    case Some(m) =>
      if m.status == DEPLOYING && m.deployedImage.Some? && m.deployedImage.value != "" then
        var image := ReplaceAll(m.deployedImage.value, ".qcow2", ".img");
        (registered.0, DeployDirective(m.id, image, IMAGE_BASE_URL + image))
      else if data.autoDeploy then
        var id := MachineId(data.macAddress.value);
        (registered.0.(machines := registered.0.machines[id := m.(status := DEPLOYING)]),
         DeployDirective(m.id, DEFAULT_IMAGE, IMAGE_BASE_URL + DEFAULT_IMAGE))
      else
        (registered.0, WaitDirective(m.id))
  }

  /** The answer of the deploy route. */
  datatype DeployResponse =
    | DeployNotFound
    | Deploying(machineId: string, image: string, imageUrl: string)

  /** The deploy route: an unknown or missing id is not found; otherwise the record starts deploying the image. */
  function Deploy(inv: Inventory, machineId: Option<string>, image: Option<string>, now: string)
    : (Inventory, DeployResponse)
  {
    var img := image.GetOr(DEFAULT_IMAGE);
    if machineId.None? || machineId.value !in inv.machines then (inv, DeployNotFound)
    else
      (UpdateStatus(inv, machineId.value, DEPLOYING, Some(img), now).0,
       Deploying(machineId.value, img, IMAGE_BASE_URL + img))
  }

  /** The answer of the deployment/status route; StatusError is the 500 answer to a failed lookup. */
  datatype StatusResponse = StatusNotFound | StatusUpdated | StatusError

  /**
   * The deployment/status route. A body without a MAC makes the lookup fail as soon as there is a
   * record to compare against. "complete" and "failed" move the record found to "deployed" and
   * "failed"; any other token is acknowledged without a change.
   */
  function ReportStatus(inv: Inventory, mac: Option<string>, status: Option<string>, now: string)
    : (Inventory, StatusResponse)
  {
    match mac
    case None => (inv, if Records(inv) == [] then StatusNotFound else StatusError)
    case Some(mac) =>
      match FindByMac(Records(inv), mac)
      case None => (inv, StatusNotFound)
      case Some(m) =>
        if status == Some(REPORT_COMPLETE) then (UpdateStatus(inv, m.id, DEPLOYED, None, now).0, StatusUpdated)
        else if status == Some(REPORT_FAILED) then (UpdateStatus(inv, m.id, FAILED, None, now).0, StatusUpdated)
        else (inv, StatusUpdated)
  }

  /**
   * What every record the service creates satisfies: it is stored under its own id, that id
   * is derived from its MAC, it has been seen at least once, and a deployed record carries
   * its deployment time.
   */
  ghost predicate RecordWellFormed(id: string, m: Machine) {
    && m.id == id
    && m.macAddress != ""
    && id == MachineId(m.macAddress)
    && m.discoveryCount >= 1
    && (m.status == DEPLOYED ==> m.deploymentTime.Some?)
  }

  ghost predicate WellFormed(inv: Inventory) {
    && Ordered(inv.machines, inv.order)
    && forall id :: id in inv.machines ==> RecordWellFormed(id, inv.machines[id])
  }

  /** The machine inventory with its dict of records, updated in place. */
  class MachineInventory {
    var machines: map<string, Machine>
    var order: seq<string>

    function Snapshot(): Inventory
      reads this
    {
      Inventory(machines, order)
    }

    /** `load_inventory`: the stored inventory, or an empty one when there is no file. */
    constructor (stored: Option<Inventory>)
      ensures Snapshot() == stored.GetOr(EMPTY)
    {
      var inv := stored.GetOr(EMPTY);
      machines := inv.machines;
      order := inv.order;
    }

    method RegisterMachine(data: DiscoveryData, now: string) returns (machine: Option<Machine>)
      modifies this
      ensures (Snapshot(), machine) == Register(old(Snapshot()), data, now)
    {
      if data.macAddress.None? || data.macAddress.value == "" {
        return None;
      }
      var mac := data.macAddress.value;
      var id := MachineId(mac);
      if id in machines {
        var m := machines[id];
        m := m.(lastSeen := now);
        m := m.(discoveryCount := m.discoveryCount + 1);
        machines := machines[id := m];
      } else {
        machines := machines[id := NewRecord(id, mac, data, now)];
        order := order + [id];
      }
      machine := Some(machines[id]);
    }

    function GetMachine(id: string): (r: Option<Machine>)
      reads this
      ensures r.Some? <==> id in machines
      ensures r.Some? ==> r.value == machines[id]
    {
      if id in machines then Some(machines[id]) else None
    }

    /** The search loop of `get_machine_by_mac`, returning as soon as a record matches. */
    method GetMachineByMac(mac: string) returns (machine: Option<Machine>)
      ensures machine == FindByMac(Records(Snapshot()), mac)
      ensures machine.Some? ==> machine.value in machines.Values && EqualsIgnoreCase(machine.value.macAddress, mac)
    {
      var i := 0;
      assert order[i..] == order;
      while i < |order|
        invariant 0 <= i <= |order|
        invariant FindByMac(Values(machines, order), mac) == FindByMac(Values(machines, order[i..]), mac)
      {
        var id := order[i];
        ValuesFrom(machines, order, i);
        if id in machines && EqualsIgnoreCase(machines[id].macAddress, mac) {
          FindByMacCons(machines[id], Values(machines, order[i + 1..]), mac);
          assert machines[id] in machines.Values;
          return Some(machines[id]);
        }
        if id in machines {
          FindByMacCons(machines[id], Values(machines, order[i + 1..]), mac);
        } else {
          assert Values(machines, order[i..]) == Values(machines, order[i + 1..]);
        }
        i := i + 1;
      }
      assert order[i..] == [];
      return None;
    }

    function ListMachines(status: Option<string>): (r: seq<Machine>)
      reads this
      ensures status.None? || status == Some("") ==> r == Records(Snapshot())
      ensures status.Some? && status.value != "" ==>
                forall m :: m in r <==> m in Records(Snapshot()) && m.status == status.value
      ensures status.Some? && status.value != "" ==> r == FilterStatus(Records(Snapshot()), status.value)
    {
      Listing(Snapshot(), status)
    }

    method UpdateDeploymentStatus(id: string, status: string, image: Option<string>, now: string) returns (ok: bool)
      modifies this
      ensures (Snapshot(), ok) == UpdateStatus(old(Snapshot()), id, status, image, now)
    {
      if id !in machines {
        return false;
      }
      var m := machines[id];
      m := m.(deploymentStatus := Some(status));
      m := m.(status := status);
      if image.Some? && image.value != "" {
        m := m.(deployedImage := image);
      }
      if status == DEPLOYED {
        m := m.(deploymentTime := Some(now));
      }
      machines := machines[id := m];
      return true;
    }
  }

  /** The discover route; the auto-deploy branch writes the status of the registered record directly. */
  method DiscoverMachine(inventory: MachineInventory, data: DiscoveryData, now: string)
    returns (response: DiscoverResponse)
    modifies inventory
    ensures (inventory.Snapshot(), response) == Discover(old(inventory.Snapshot()), data, now)
  {
    var machine := inventory.RegisterMachine(data, now);
    if machine.None? {
      return RegisterFailed;
    }
    var m := machine.value;
    if m.status == DEPLOYING && m.deployedImage.Some? && m.deployedImage.value != "" {
      var image := ReplaceAll(m.deployedImage.value, ".qcow2", ".img");
      return DeployDirective(m.id, image, IMAGE_BASE_URL + image);
    }
    if data.autoDeploy {
      var id := MachineId(data.macAddress.value);
      inventory.machines := inventory.machines[id := m.(status := DEPLOYING)];
      return DeployDirective(m.id, DEFAULT_IMAGE, IMAGE_BASE_URL + DEFAULT_IMAGE);
    }
    return WaitDirective(m.id);
  }

  /** The deploy route. */
  method DeployMachine(inventory: MachineInventory, machineId: Option<string>, image: Option<string>, now: string)
    returns (response: DeployResponse)
    modifies inventory
    ensures (inventory.Snapshot(), response) == Deploy(old(inventory.Snapshot()), machineId, image, now)
  {
    var img := image.GetOr(DEFAULT_IMAGE);
    if machineId.None? {
      return DeployNotFound;
    }
    var machine := inventory.GetMachine(machineId.value);
    if machine.None? {
      return DeployNotFound;
    }
    var _ := inventory.UpdateDeploymentStatus(machineId.value, DEPLOYING, Some(img), now);
    return Deploying(machineId.value, img, IMAGE_BASE_URL + img);
  }

  /** The deployment/status route. */
  method UpdateDeploymentStatusRoute(inventory: MachineInventory, mac: Option<string>, status: Option<string>, now: string)
    returns (response: StatusResponse)
    modifies inventory
    ensures (inventory.Snapshot(), response) == ReportStatus(old(inventory.Snapshot()), mac, status, now)
  {
    if mac.None? {
      return if Records(inventory.Snapshot()) == [] then StatusNotFound else StatusError;
    }
    var machine := inventory.GetMachineByMac(mac.value);
    if machine.None? {
      return StatusNotFound;
    }
    if status == Some(REPORT_COMPLETE) {
      var _ := inventory.UpdateDeploymentStatus(machine.value.id, DEPLOYED, None, now);
    } else if status == Some(REPORT_FAILED) {
      var _ := inventory.UpdateDeploymentStatus(machine.value.id, FAILED, None, now);
    }
    return StatusUpdated;
  }
}
