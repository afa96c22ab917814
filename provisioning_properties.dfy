/** What the provisioning service promises, proved of the functions in module Provisioning. */
module ProvisioningProperties {
  import opened Options
  import opened Text
  import opened Dict
  import opened Provisioning

  // ---------------------------------------------------------------------------------------
  // Machine ids

  /** Two MAC strings name the same record exactly when they agree once colons are removed. */
  lemma SameIdIffSameDigits(a: string, b: string)
    ensures MachineId(a) == MachineId(b) <==> RemoveChar(a, ':') == RemoveChar(b, ':')
  {
    if MachineId(a) == MachineId(b) {
      assert MachineId(a)[8..] == RemoveChar(a, ':');
      assert MachineId(b)[8..] == RemoveChar(b, ':');
    }
  }

  /** Any MAC and its colon-free spelling share one record. */
  lemma ColonlessSpellingSharesRecord(mac: string)
    ensures MachineId(RemoveChar(mac, ':')) == MachineId(mac)
  {
    RemoveAbsentChar(RemoveChar(mac, ':'), ':');
  }

  /** Lower-casing and removing colons can be done in either order. */
  lemma {:induction false} LowerCommutesWithRemove(s: string)
    ensures RemoveChar(ToLower(s), ':') == ToLower(RemoveChar(s, ':'))
  {
    if s != [] {
      LowerCommutesWithRemove(s[1..]);
      var head := if s[0] == ':' then "" else [s[0]];
      assert ToLower(s)[0] == LowerChar(s[0]) && ToLower(s)[1..] == ToLower(s[1..]);
      assert ToLower(head + RemoveChar(s[1..], ':')) == ToLower(head) + ToLower(RemoveChar(s[1..], ':'));
    }
  }

  /**
   * The id keeps the case of the MAC, so a MAC with an upper-case letter and its lower-case
   * spelling get separate records, although the lookup by MAC treats them as equal.
   */
  lemma CaseVariantsGetSeparateRecords(mac: string, i: int)
    requires 0 <= i < |mac| && 'A' <= mac[i] <= 'Z'
    ensures MachineId(mac) != MachineId(ToLower(mac))
    ensures EqualsIgnoreCase(mac, ToLower(mac))
  {
    var digits := RemoveChar(mac, ':');
    LowerCommutesWithRemove(mac);
    assert mac[i] in digits;
    var j :| 0 <= j < |digits| && digits[j] == mac[i];
    assert ToLower(digits)[j] != digits[j];
    SameIdIffSameDigits(mac, ToLower(mac));
    ToLowerIdempotent(mac);
  }

  // ---------------------------------------------------------------------------------------
  // register_machine

  /** A first contact creates a "discovered" record, seen once, with nothing deployed. */
  lemma RegisterFirstContact(inv: Inventory, data: DiscoveryData, now: string)
    requires data.macAddress.Some? && data.macAddress.value != ""
    requires MachineId(data.macAddress.value) !in inv.machines
    ensures var mac := data.macAddress.value;
            var id := MachineId(mac);
            var r := Register(inv, data, now);
            && r.0.order == inv.order + [id]
            && var m := r.0.machines[id];
            && m.id == id && m.macAddress == mac
            && m.hostname == data.hostname.GetOr(DefaultHostname(mac))
            && m.cpuCount == data.cpuCount.GetOr(0) && m.memoryMb == data.memoryMb.GetOr(0)
            && m.disks == data.disks.GetOr([]) && m.networkInterfaces == data.networkInterfaces.GetOr([])
            && m.status == DISCOVERED
            && m.discoveredAt == now && m.lastSeen == now
            && m.discoveryCount == 1
            && m.deployedImage.None? && m.deploymentStatus.None? && m.deploymentTime.None?
  {
  }

  /**
   * A repeated contact only refreshes last_seen and counts the contact: the hostname, the
   * reported hardware and the status stay as they were.
   */
  lemma RegisterRepeatContact(inv: Inventory, data: DiscoveryData, now: string)
    requires data.macAddress.Some? && data.macAddress.value != ""
    requires MachineId(data.macAddress.value) in inv.machines
    ensures var id := MachineId(data.macAddress.value);
            var r := Register(inv, data, now);
            var old_ := inv.machines[id];
            && r.0.order == inv.order
            && r.0.machines == inv.machines[id := old_.(lastSeen := now, discoveryCount := old_.discoveryCount + 1)]
            && r.1 == Some(r.0.machines[id])
  {
  }

  /** A contact as the discover route receives it, with the time it arrived. */
  datatype Contact = Contact(data: DiscoveryData, now: string)

  /** The inventory after a series of contacts, registered one after the other. */
  function RegisterAll(inv: Inventory, contacts: seq<Contact>): Inventory
    decreases |contacts|
  {
    if contacts == [] then inv
    else
      var last := contacts[|contacts| - 1];
      Register(RegisterAll(inv, contacts[..|contacts| - 1]), last.data, last.now).0
  }

  /**
   * n contacts from a new MAC leave one record with discovery_count n, last seen at the last
   * contact, and the hostname and hardware of the FIRST contact (later payloads are dropped).
   */
  lemma {:induction false} RepeatedContacts(inv: Inventory, mac: string, contacts: seq<Contact>)
    requires mac != "" && MachineId(mac) !in inv.machines
    requires |contacts| >= 1
    requires forall i :: 0 <= i < |contacts| ==> contacts[i].data.macAddress == Some(mac)
    ensures var id := MachineId(mac);
            var inv' := RegisterAll(inv, contacts);
            var first := contacts[0];
            && id in inv'.machines
            && inv'.machines[id].discoveryCount == |contacts|
            && inv'.machines[id].lastSeen == contacts[|contacts| - 1].now
            && inv'.machines[id].discoveredAt == first.now
            && inv'.machines[id].hostname == first.data.hostname.GetOr(DefaultHostname(mac))
            && inv'.machines[id].cpuCount == first.data.cpuCount.GetOr(0)
            && inv'.machines[id].status == DISCOVERED
  {
    var n := |contacts|;
    var prefix := contacts[..n - 1];
    var last := contacts[n - 1];
    if n == 1 {
      assert prefix == [];
      RegisterFirstContact(inv, last.data, last.now);
    } else {
      assert prefix[0] == contacts[0];
      RepeatedContacts(inv, mac, prefix);
      RegisterRepeatContact(RegisterAll(inv, prefix), last.data, last.now);
    }
  }

  /** Every operation keeps the invariant of the records it stores. */
  lemma RegisterPreservesWellFormed(inv: Inventory, data: DiscoveryData, now: string)
    requires WellFormed(inv)
    ensures WellFormed(Register(inv, data, now).0)
  {
    if data.macAddress.Some? && data.macAddress.value != "" {
      var id := MachineId(data.macAddress.value);
      var r := Register(inv, data, now);
      OrderedInsert(inv.machines, inv.order, id, r.0.machines[id]);
    }
  }

  // ---------------------------------------------------------------------------------------
  // get_machine_by_mac and list_machines

  /** The record found is the first matching one: no record before it matches. */
  lemma {:induction false} FindByMacIsFirst(ms: seq<Machine>, mac: string)
    requires FindByMac(ms, mac).Some?
    ensures exists i :: 0 <= i < |ms| && ms[i] == FindByMac(ms, mac).value &&
                        forall j :: 0 <= j < i ==> !EqualsIgnoreCase(ms[j].macAddress, mac)
  {
    if !EqualsIgnoreCase(ms[0].macAddress, mac) {
      FindByMacIsFirst(ms[1..], mac);
      var i :| 0 <= i < |ms[1..]| && ms[1..][i] == FindByMac(ms[1..], mac).value &&
               forall j :: 0 <= j < i ==> !EqualsIgnoreCase(ms[1..][j].macAddress, mac);
      assert ms[i + 1] == FindByMac(ms, mac).value;
      forall j | 0 <= j < i + 1
        ensures !EqualsIgnoreCase(ms[j].macAddress, mac)
      {
        if j > 0 { assert ms[j] == ms[1..][j - 1]; }
      }
    } else {
      assert ms[0] == FindByMac(ms, mac).value;
    }
  }

  /** Filtering by a status lists exactly the stored records with that status. */
  lemma ListingByStatusIsExact(inv: Inventory, s: string, id: string)
    requires WellFormed(inv) && s != "" && id in inv.machines
    ensures inv.machines[id] in Listing(inv, Some(s)) <==> inv.machines[id].status == s
  {
    ValuesComplete(inv.machines, inv.order, id);
  }

  /**
   * The listing follows the key order: listing the records of a concatenation of key lists
   * lists those of each part in turn, and a single key contributes its record exactly when it
   * is stored and passes the filter.
   */
  lemma ListingAppend(m: map<string, Machine>, xs: seq<string>, ys: seq<string>, status: Option<string>)
    ensures Listing(Inventory(m, xs + ys), status) == Listing(Inventory(m, xs), status) + Listing(Inventory(m, ys), status)
    ensures |xs| == 1 ==>
              Listing(Inventory(m, xs), status)
              == if xs[0] in m && (status.None? || status == Some("") || m[xs[0]].status == status.value)
                 then [m[xs[0]]] else []
  {
    ValuesAppend(m, xs, ys);
    if status.Some? && status.value != "" {
      FilterStatusAppend(Values(m, xs), Values(m, ys), status.value);
    }
    if |xs| == 1 {
      assert xs[1..] == [];
      if xs[0] in m && status.Some? && status.value != "" {
        FilterStatusAppend([m[xs[0]]], [], status.value);
      }
    }
  }

  /** The keys among `order` whose stored record has status `s`. */
  ghost function StatusKeys(m: map<string, Machine>, order: seq<string>, s: string): set<string> {
    set k | k in order && k in m && m[k].status == s
  }

  lemma StatusKeysCons(m: map<string, Machine>, order: seq<string>, s: string)
    requires order != []
    ensures StatusKeys(m, order, s)
            == (if order[0] in m && m[order[0]].status == s then {order[0]} else {}) + StatusKeys(m, order[1..], s)
  {
    assert forall k :: k in order <==> k == order[0] || k in order[1..];
  }

  /** The first key's part of the filtered values: its record when it is stored with the status. */
  lemma FilterValuesCons(m: map<string, Machine>, order: seq<string>, s: string)
    requires order != []
    ensures |FilterStatus(Values(m, order), s)|
            == (if order[0] in m && m[order[0]].status == s then 1 else 0) + |FilterStatus(Values(m, order[1..]), s)|
  {
    var head := if order[0] in m then [m[order[0]]] else [];
    assert Values(m, order) == head + Values(m, order[1..]);
    FilterStatusAppend(head, Values(m, order[1..]), s);
    if order[0] in m {
      FilterStatusAppend(head, [], s);
    }
  }

  /** Filtering the values of distinct keys keeps one record per key with the status. */
  lemma {:induction false} FilterCount(m: map<string, Machine>, order: seq<string>, s: string)
    requires Distinct(order)
    ensures |FilterStatus(Values(m, order), s)| == |StatusKeys(m, order, s)|
  {
    if order != [] {
      var rest := order[1..];
      assert Distinct(rest) by {
        forall a, b | 0 <= a < b < |rest| ensures rest[a] != rest[b] {
          assert rest[a] == order[a + 1] && rest[b] == order[b + 1];
        }
      }
      assert order[0] !in rest by {
        forall j | 0 <= j < |rest| ensures rest[j] != order[0] {
          assert rest[j] == order[j + 1];
        }
      }
      FilterCount(m, rest, s);
      FilterValuesCons(m, order, s);
      StatusKeysCons(m, order, s);
      assert order[0] !in StatusKeys(m, rest, s);
    }
  }

  /** The count `/api/machines` reports under a filter is the number of stored records with that status. */
  lemma ListingByStatusCount(inv: Inventory, s: string)
    requires WellFormed(inv) && s != ""
    ensures |Listing(inv, Some(s))| == |set id | id in inv.machines && inv.machines[id].status == s|
  {
    FilterCount(inv.machines, inv.order, s);
    assert StatusKeys(inv.machines, inv.order, s) == (set id | id in inv.machines && inv.machines[id].status == s);
  }

  /** Without a filter every stored record is listed. */
  lemma ListingAllIsComplete(inv: Inventory, id: string)
    requires WellFormed(inv) && id in inv.machines
    ensures inv.machines[id] in Listing(inv, None)
    ensures |Listing(inv, None)| == |inv.machines|
  {
    ValuesComplete(inv.machines, inv.order, id);
    DistinctKeysCount(inv.machines, inv.order);
  }

  lemma {:induction false} DistinctKeysCount<V>(m: map<string, V>, order: seq<string>)
    requires Ordered(m, order)
    ensures |order| == |m|
    decreases |order|
  {
    if order == [] {
      assert m.Keys == {};
    } else {
      var k := order[|order| - 1];
      var rest := order[..|order| - 1];
      assert k !in rest;
      assert Ordered(m - {k}, rest) by {
        forall x ensures x in m - {k} <==> x in rest {
          if x in order && x != k {
            var i :| 0 <= i < |order| && order[i] == x;
            assert i < |order| - 1;
            assert rest[i] == x;
          }
        }
      }
      DistinctKeysCount(m - {k}, rest);
      assert m.Keys == (m - {k}).Keys + {k};
    }
  }

  // ---------------------------------------------------------------------------------------
  // update_deployment_status

  /**
   * On a known id both status fields take the new value, the image is overwritten only by a
   * non-empty one, the time is stamped only for "deployed", and no other record changes.
   */
  lemma UpdateStatusKnown(inv: Inventory, id: string, status: string, image: Option<string>, now: string)
    requires id in inv.machines
    ensures var r := UpdateStatus(inv, id, status, image, now);
            var m := inv.machines[id];
            var m' := r.0.machines[id];
            && r.1
            && r.0.order == inv.order
            && r.0.machines.Keys == inv.machines.Keys
            && (forall k :: k in inv.machines && k != id ==> r.0.machines[k] == inv.machines[k])
            && m'.status == status && m'.deploymentStatus == Some(status)
            && m'.deployedImage == (if image.Some? && image.value != "" then image else m.deployedImage)
            && m'.deploymentTime == (if status == DEPLOYED then Some(now) else m.deploymentTime)
            && m' == m.(status := status, deploymentStatus := Some(status),
                        deployedImage := m'.deployedImage, deploymentTime := m'.deploymentTime)
  {
  }

  /**
   * A deployment time, once stamped, survives a later status change: a record can be back in
   * "deploying" and still carry the time of an earlier deployment.
   */
  lemma DeploymentTimeOutlivesDeployed(inv: Inventory, id: string, deployedAt: string, later: string)
    requires id in inv.machines
    ensures var once := UpdateStatus(inv, id, DEPLOYED, None, deployedAt).0;
            var again := UpdateStatus(once, id, DEPLOYING, None, later).0;
            again.machines[id].status == DEPLOYING && again.machines[id].deploymentTime == Some(deployedAt)
  {
  }

  lemma UpdateStatusPreservesWellFormed(inv: Inventory, id: string, status: string, image: Option<string>, now: string)
    requires WellFormed(inv)
    ensures WellFormed(UpdateStatus(inv, id, status, image, now).0)
  {
    if id in inv.machines {
      OrderedInsert(inv.machines, inv.order, id, UpdateStatus(inv, id, status, image, now).0.machines[id]);
    }
  }

  // ---------------------------------------------------------------------------------------
  // The discover route

  /**
   * A machine already deploying a known image is told, on every contact, to deploy that image
   * with `.qcow2` replaced by `.img`; only last_seen and the contact count change.
   */
  lemma DiscoverResumesDeployment(inv: Inventory, data: DiscoveryData, now: string)
    requires data.macAddress.Some? && data.macAddress.value != ""
    requires var id := MachineId(data.macAddress.value);
             && id in inv.machines && inv.machines[id].status == DEPLOYING
             && inv.machines[id].deployedImage.Some? && inv.machines[id].deployedImage.value != ""
    ensures var id := MachineId(data.macAddress.value);
            var m := inv.machines[id];
            var image := ReplaceAll(m.deployedImage.value, ".qcow2", ".img");
            var r := Discover(inv, data, now);
            && r.1 == DeployDirective(m.id, image, IMAGE_BASE_URL + image)
            && r.0 == Register(inv, data, now).0
  {
    RegisterRepeatContact(inv, data, now);
  }

  /** Retrying the contact of a deploying machine gives the same directive again. */
  lemma DiscoverRetryIsStable(inv: Inventory, data: DiscoveryData, retry: DiscoveryData, now: string, later: string)
    requires data.macAddress.Some? && data.macAddress.value != "" && retry.macAddress == data.macAddress
    requires var id := MachineId(data.macAddress.value);
             && id in inv.machines && inv.machines[id].status == DEPLOYING
             && inv.machines[id].deployedImage.Some? && inv.machines[id].deployedImage.value != ""
    ensures var first := Discover(inv, data, now);
            Discover(first.0, retry, later).1 == first.1
  {
    var id := MachineId(data.macAddress.value);
    var first := Discover(inv, data, now);
    DiscoverResumesDeployment(inv, data, now);
    RegisterRepeatContact(inv, data, now);
    DiscoverResumesDeployment(first.0, retry, later);
  }

  /**
   * Auto-deployment of a new machine marks it "deploying" and hands out the default image, but
   * records no image: deployed_image and deployment_status stay unset.
   */
  lemma AutoDeployRecordsNoImage(inv: Inventory, data: DiscoveryData, now: string)
    requires data.macAddress.Some? && data.macAddress.value != "" && data.autoDeploy
    requires MachineId(data.macAddress.value) !in inv.machines
    ensures var id := MachineId(data.macAddress.value);
            var r := Discover(inv, data, now);
            && r.1 == DeployDirective(id, DEFAULT_IMAGE, IMAGE_BASE_URL + DEFAULT_IMAGE)
            && id in r.0.machines
            && r.0.machines[id].status == DEPLOYING
            && r.0.machines[id].deployedImage.None?
            && r.0.machines[id].deploymentStatus.None?
            && r.0.machines[id].discoveryCount == 1
  {
    RegisterFirstContact(inv, data, now);
  }

  /**
   * Auto-deployment of a known machine that is not already deploying a known image (one that
   * is discovered, deployed, failed, or deploying with no image recorded) puts it back to
   * "deploying" and hands out the default image. Apart from the status, the record is as the
   * registration left it: the image fields and the deployment time stay, and no other record
   * changes.
   */
  lemma AutoDeployResetsKnownMachine(inv: Inventory, data: DiscoveryData, now: string)
    requires data.macAddress.Some? && data.macAddress.value != "" && data.autoDeploy
    requires var id := MachineId(data.macAddress.value);
             && id in inv.machines
             && !(inv.machines[id].status == DEPLOYING && inv.machines[id].deployedImage.Some? &&
                  inv.machines[id].deployedImage.value != "")
    ensures var id := MachineId(data.macAddress.value);
            var m := inv.machines[id];
            var r := Discover(inv, data, now);
            && r.1 == DeployDirective(m.id, DEFAULT_IMAGE, IMAGE_BASE_URL + DEFAULT_IMAGE)
            && r.0.order == inv.order
            && r.0.machines == inv.machines[id := m.(lastSeen := now, discoveryCount := m.discoveryCount + 1,
                                                     status := DEPLOYING)]
  {
    RegisterRepeatContact(inv, data, now);
  }

  /** So the next contact of that machine without auto_deploy is told to wait, though it is "deploying". */
  lemma AutoDeployedMachineIsToldToWait(inv: Inventory, data: DiscoveryData, next: DiscoveryData, now: string, later: string)
    requires data.macAddress.Some? && data.macAddress.value != "" && data.autoDeploy
    requires MachineId(data.macAddress.value) !in inv.machines
    requires next.macAddress == data.macAddress && !next.autoDeploy
    ensures var id := MachineId(data.macAddress.value);
            var first := Discover(inv, data, now);
            var second := Discover(first.0, next, later);
            && second.1 == WaitDirective(id)
            && second.0.machines[id].status == DEPLOYING
  {
    var id := MachineId(data.macAddress.value);
    AutoDeployRecordsNoImage(inv, data, now);
    var first := Discover(inv, data, now);
    RegisterRepeatContact(first.0, next, later);
  }

  /**
   * A known machine that still records the image of an earlier deployment is announced the
   * default image by the auto-deploy contact, which sets only its status, but the next plain
   * contact takes the resume branch and is told to deploy that earlier image.
   */
  lemma AutoDeployRevivesRecordedImage(inv: Inventory, data: DiscoveryData, next: DiscoveryData, now: string,
                                       later: string)
    requires data.macAddress.Some? && data.macAddress.value != "" && data.autoDeploy
    requires var id := MachineId(data.macAddress.value);
             && id in inv.machines && inv.machines[id].status != DEPLOYING
             && inv.machines[id].deployedImage.Some? && inv.machines[id].deployedImage.value != ""
    requires next.macAddress == data.macAddress && !next.autoDeploy
    ensures var id := MachineId(data.macAddress.value);
            var m := inv.machines[id];
            var oldImage := ReplaceAll(m.deployedImage.value, ".qcow2", ".img");
            var first := Discover(inv, data, now);
            var second := Discover(first.0, next, later);
            && first.1 == DeployDirective(m.id, DEFAULT_IMAGE, IMAGE_BASE_URL + DEFAULT_IMAGE)
            && second.1 == DeployDirective(m.id, oldImage, IMAGE_BASE_URL + oldImage)
  {
    AutoDeployResetsKnownMachine(inv, data, now);
    var first := Discover(inv, data, now);
    DiscoverResumesDeployment(first.0, next, later);
  }

  /** Without an image in flight and without auto_deploy, a contact is told to wait and only registers. */
  lemma DiscoverWaits(inv: Inventory, data: DiscoveryData, now: string)
    requires data.macAddress.Some? && data.macAddress.value != "" && !data.autoDeploy
    requires var id := MachineId(data.macAddress.value);
             id in inv.machines ==>
               !(inv.machines[id].status == DEPLOYING && inv.machines[id].deployedImage.Some? &&
                 inv.machines[id].deployedImage.value != "")
    ensures var r := Discover(inv, data, now);
            && r.0 == Register(inv, data, now).0
            && r.1 == WaitDirective(Register(inv, data, now).1.value.id)
  {
    var id := MachineId(data.macAddress.value);
    if id in inv.machines {
      RegisterRepeatContact(inv, data, now);
    } else {
      RegisterFirstContact(inv, data, now);
    }
  }

  /** A contact without a MAC is refused and changes nothing. */
  lemma DiscoverWithoutMac(inv: Inventory, data: DiscoveryData, now: string)
    requires data.macAddress.None? || data.macAddress == Some("")
    ensures Discover(inv, data, now) == (inv, RegisterFailed)
  {
  }

  lemma DiscoverPreservesWellFormed(inv: Inventory, data: DiscoveryData, now: string)
    requires WellFormed(inv)
    ensures WellFormed(Discover(inv, data, now).0)
  {
    RegisterPreservesWellFormed(inv, data, now);
    var r := Register(inv, data, now);
    if r.1.Some? && data.autoDeploy {
      var id, m := MachineId(data.macAddress.value), r.1.value;
      assert id in r.0.machines && r.0.machines[id] == m;
      assert RecordWellFormed(id, m.(status := DEPLOYING));
      OrderedInsert(r.0.machines, r.0.order, id, m.(status := DEPLOYING));
    }
  }

  // ---------------------------------------------------------------------------------------
  // The deploy route

  /** An unknown or missing id is not found and changes nothing. */
  lemma DeployUnknown(inv: Inventory, machineId: Option<string>, image: Option<string>, now: string)
    requires machineId.None? || machineId.value !in inv.machines
    ensures Deploy(inv, machineId, image, now) == (inv, DeployNotFound)
  {
  }

  /** A known id starts deploying the requested image (the default one when none is named). */
  lemma DeployKnown(inv: Inventory, id: string, image: Option<string>, now: string)
    requires id in inv.machines
    ensures var img := image.GetOr(DEFAULT_IMAGE);
            var r := Deploy(inv, Some(id), image, now);
            && r.1 == Deploying(id, img, IMAGE_BASE_URL + img)
            && r.0.machines[id].status == DEPLOYING
            && r.0.machines[id].deploymentStatus == Some(DEPLOYING)
            && r.0.machines[id].deployedImage == (if img != "" then Some(img) else inv.machines[id].deployedImage)
  {
    UpdateStatusKnown(inv, id, DEPLOYING, Some(image.GetOr(DEFAULT_IMAGE)), now);
  }

  /**
   * After an explicit deploy of `<base>.qcow2`, the machine's next boot contact is told to
   * deploy the raw image `<base>.img`.
   */
  lemma DeployThenDiscover(inv: Inventory, base: string, data: DiscoveryData, now: string, later: string)
    requires data.macAddress.Some? && data.macAddress.value != ""
    requires MachineId(data.macAddress.value) in inv.machines
    requires MatchesOnlyAtEnd(base, ".qcow2")
    ensures var id := MachineId(data.macAddress.value);
            var deployed := Deploy(inv, Some(id), Some(base + ".qcow2"), now).0;
            var img := base + ".img";
            Discover(deployed, data, later).1 == DeployDirective(inv.machines[id].id, img, IMAGE_BASE_URL + img)
  {
    var id := MachineId(data.macAddress.value);
    DeployKnown(inv, id, Some(base + ".qcow2"), now);
    var deployed := Deploy(inv, Some(id), Some(base + ".qcow2"), now).0;
    DiscoverResumesDeployment(deployed, data, later);
    ReplaceAllSuffix(base, ".qcow2", ".img");
  }

  lemma DeployPreservesWellFormed(inv: Inventory, machineId: Option<string>, image: Option<string>, now: string)
    requires WellFormed(inv)
    ensures WellFormed(Deploy(inv, machineId, image, now).0)
  {
    if machineId.Some? {
      UpdateStatusPreservesWellFormed(inv, machineId.value, DEPLOYING, Some(image.GetOr(DEFAULT_IMAGE)), now);
    }
  }

  // ---------------------------------------------------------------------------------------
  // The deployment/status route

  /**
   * "complete" moves the record found to "deployed" with its time stamped, "failed" to
   * "failed", and any other token is acknowledged without a change.
   */
  lemma ReportStatusTransitions(inv: Inventory, mac: string, status: Option<string>, now: string)
    requires FindByMac(Records(inv), mac).Some?
    requires FindByMac(Records(inv), mac).value.id in inv.machines
    ensures var id := FindByMac(Records(inv), mac).value.id;
            var r := ReportStatus(inv, Some(mac), status, now);
            && r.1 == StatusUpdated
            && (status == Some(REPORT_COMPLETE) ==>
                  && r.0.order == inv.order
                  && r.0.machines == inv.machines[id := inv.machines[id].(
                       status := DEPLOYED, deploymentStatus := Some(DEPLOYED), deploymentTime := Some(now))])
            && (status == Some(REPORT_FAILED) ==>
                  && r.0.order == inv.order
                  && r.0.machines == inv.machines[id := inv.machines[id].(
                       status := FAILED, deploymentStatus := Some(FAILED))])
            && (status != Some(REPORT_COMPLETE) && status != Some(REPORT_FAILED) ==> r.0 == inv)
  {
    var id := FindByMac(Records(inv), mac).value.id;
    UpdateStatusKnown(inv, id, DEPLOYED, None, now);
    UpdateStatusKnown(inv, id, FAILED, None, now);
  }

  /** A MAC no record carries is not found, and nothing changes. */
  lemma ReportStatusUnknownMac(inv: Inventory, mac: string, status: Option<string>, now: string)
    requires forall m :: m in Records(inv) ==> !EqualsIgnoreCase(m.macAddress, mac)
    ensures ReportStatus(inv, Some(mac), status, now) == (inv, StatusNotFound)
  {
  }

  lemma ReportStatusPreservesWellFormed(inv: Inventory, mac: Option<string>, status: Option<string>, now: string)
    requires WellFormed(inv)
    ensures WellFormed(ReportStatus(inv, mac, status, now).0)
  {
    if mac.Some? {
      var found := FindByMac(Records(inv), mac.value);
      if found.Some? {
        var id := found.value.id;
        var after := if status == Some(REPORT_COMPLETE) then UpdateStatus(inv, id, DEPLOYED, None, now).0
                     else if status == Some(REPORT_FAILED) then UpdateStatus(inv, id, FAILED, None, now).0
                     else inv;
        assert ReportStatus(inv, mac, status, now).0 == after;
        UpdateStatusPreservesWellFormed(inv, id, DEPLOYED, None, now);
        UpdateStatusPreservesWellFormed(inv, id, FAILED, None, now);
      }
    }
  }

  // ---------------------------------------------------------------------------------------
  // End to end

  /**
   * A new machine that asks for auto-deployment is marked "deploying" and told to fetch the
   * default image; its later "complete" report makes it "deployed" with a deployment time.
   */
  lemma AutoDeployLifecycle(mac: string, t0: string, t1: string)
    requires mac != ""
    ensures var id := MachineId(mac);
            var contact := DiscoveryData(Some(mac), None, None, None, None, None, true);
            var discovered := Discover(EMPTY, contact, t0);
            var reported := ReportStatus(discovered.0, Some(mac), Some(REPORT_COMPLETE), t1);
            && discovered.1 == DeployDirective(id, DEFAULT_IMAGE, IMAGE_BASE_URL + DEFAULT_IMAGE)
            && discovered.0.machines[id].status == DEPLOYING
            && reported.1 == StatusUpdated
            && reported.0.machines[id].status == DEPLOYED
            && reported.0.machines[id].deploymentTime == Some(t1)
  {
    var id := MachineId(mac);
    var contact := DiscoveryData(Some(mac), None, None, None, None, None, true);
    AutoDeployRecordsNoImage(EMPTY, contact, t0);
    var discovered := Discover(EMPTY, contact, t0);
    var m := discovered.0.machines[id];
    assert discovered.0.machines == map[id := m] && discovered.0.order == [id];
    assert Records(discovered.0) == [m];
    assert m.macAddress == mac && m.id == id;
    assert FindByMac([m], mac) == Some(m);
    UpdateStatusKnown(discovered.0, id, DEPLOYED, None, t1);
  }
}
