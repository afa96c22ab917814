# dc-simulator core in Dafny

A model of the three stateful components of the dc-simulator data-centre simulator, with proofs
of what they promise.

- **Provisioning service** (`Provisioning`, `ProvisioningProperties`): the machine inventory
  that PXE-booted machines register with. Records are keyed by `machine-<MAC without colons>`.
  The service has three HTTP routes:
  - discover answers deploy, auto-deploy or wait;
  - deploy starts an explicit deployment;
  - deployment/status takes progress reports.

  Records move `discovered → deploying → deployed | failed`.
- **VM manager** (`VmManager`, `VmManagerProperties`): the table of QEMU virtual machines
  (`config['vms']`) and its operations:
  - create, with disk reuse, a random QEMU MAC, and VNC and serial ports at max + 1;
  - start, with the pid-file liveness check and an exact QEMU command line;
  - stop, by SIGTERM;
  - delete, with `force`;
  - list, with the state read from pid files.
- **Redfish BMC endpoint** (`Redfish`, `RedfishProperties`): the three-key state file (power
  state, boot device, boot override). It is read by GET, updated by PATCH of the `Boot` object,
  and by the `ComputerSystem.Reset` action.

Support modules:
- `Options`: Option values.
- `Text`: the Python string operations the core uses, such as `replace`, `lower`, `str(int)`
  and `'{:02x}'` joined by `:`, with their round trips.
- `Dict`: a Python dict as a `map` plus the insertion order of its keys.

## How the model is built

Every stateful class is a Dafny `class` whose fields are the dicts the Python code mutates in
place:
- `MachineInventory` holds `machines` and its key order;
- `VMManager` holds `vms`, its key order and the host state it observes;
- `RedfishService` holds the state file.

Each operation is written twice. The first is a function on a value of the state (`Register`,
`UpdateStatus`, `Discover`, `Deploy`, `ReportStatus`, `Create`, `Start`, `Stop`, `Delete`,
`List`, `Patch`, `Reset`). The second is the method that updates the object step by step, like
the source, with `ensures` tying its new state and result to that function of the old state.
The lemmas in the `…Properties` modules state what the source promises about those functions.
They also state the invariants (`WellFormed`, `HostValid`) that every operation keeps.

The outside world is given as parameters:
- the current time (`now`);
- the three random MAC bytes;
- whether `/dev/kvm` exists (`kvm`);
- whether `qemu-img` succeeds (`imgOk`);
- the outcome of launching QEMU (`launch`: None for a failure, or the pid QEMU writes to its
  pid file);
- whether SIGTERM is accepted (`permitted`).

The host as the manager sees it is part of the state:
- the pid files and the integer each holds (None when the contents are not an integer);
- the set of live pids (`/proc/<pid>` exists);
- the set of existing disk images.

## Behaviour as written

The model follows the code in these places, where a reader might expect otherwise:
- Re-discovery only bumps `last_seen` and `discovery_count`. The hostname and hardware of
  the first contact are kept, and later payloads are dropped (`RepeatedContacts`).
- The auto-deploy branch sets `status` to `deploying` but records no `deployed_image`. So for
  a machine with no recorded image, the next contact without `auto_deploy` is told to wait,
  although the record says `deploying` (`AutoDeployedMachineIsToldToWait`).
- A known machine that still records the image of an earlier deployment is announced the
  default image by the auto-deploy contact. Its next plain contact takes the resume branch and
  is told to deploy the earlier image as `.img` instead (`AutoDeployRevivesRecordedImage`).
- The machine id keeps the MAC's case, while the MAC lookup ignores case. So two spellings
  of the same MAC get two records (`CaseVariantsGetSeparateRecords`).
- `deployment_time` is never cleared. A redeployed machine keeps the time of its earlier
  deployment (`DeploymentTimeOutlivesDeployed`).
- The deployment/status route with no `mac_address` calls `.lower()` on None, which the
  route's handler turns into a 500 answer. When the inventory is empty the loop does not run,
  and the answer is 404 (`StatusError` vs `StatusNotFound`).
- An unknown reset type succeeds with "Reset <type> executed" and changes nothing. No reset
  reverts a `Once` boot override (`UnknownResetChangesNothing`, `ResetsKeepBootSettings`).
- `list_vms` shows "running" exactly when a pid file exists, whatever the record's `state`
  says. It does not check that the process is alive (`ListIgnoresStoredState`).
- A pid file holding a negative pid is not a running VM to `start_vm` (there is no
  `/proc/<pid>`), but `stop_vm` signals that process group (for -1, every process the user
  may signal) and reports success (`NegativePidFile`).
- A pid file holding the manager's own pid (a stale file whose number the kernel reused), 0,
  or the negated id of the manager's own process group, makes `stop_vm` send SIGTERM to the
  manager itself, which ends it before it answers. The model
  gives this outcome its own answer, `Terminated`, with nothing changed, and a forced delete
  over such a pid file ends the same way, `DeleteTerminated` (`ManagerGroupPidFile`).
- A forced delete ignores a failing stop. The record and disk go, and the pid file stays
  (`ForceDeleteLeavesStalePidFile`).
- MACs come from random bytes and are not unique. The model claims no uniqueness.

## Model

| member | source | states |
|---|---|---|
| Provisioning.Register | src/provisioning_service.py:39-73 | A missing or empty MAC returns None and changes nothing. Otherwise exactly one record sits under `machine-<MAC without colons>` and is returned; the keys grow by that id only, and no other record changes. |
| Provisioning.UpdateStatus | src/provisioning_service.py:92-103 | Returns true exactly when the id is known; an unknown id leaves the inventory unchanged. |
| Provisioning.FindByMac | src/provisioning_service.py:79-84 | A record found is stored and has a MAC equal to the query ignoring case; None exactly when no record matches. |
| Provisioning.FilterStatus | src/provisioning_service.py:89 | A record is kept exactly when it is in the input and has the given status; order and count are stated by the next two lemmas. |
| Provisioning.FilterStatusAppend | src/provisioning_service.py:89 | The comprehension keeps the input order: filtering a concatenation filters each part in turn, and a single record is kept exactly when it has the status. |
| Provisioning.FilterStatusCount | src/provisioning_service.py:89 | A record with the status occurs in the result as often as in the input, and any other record does not occur. |
| Provisioning.Listing | src/provisioning_service.py:86-90 | Under a non-empty filter a record is listed exactly when it is stored and has that status; an absent or empty filter lists all records in insertion order. |
| Provisioning.MachineInventory.constructor | src/provisioning_service.py:23-32 | Starts from the stored inventory, or an empty one when there is no file. |
| Provisioning.MachineInventory.RegisterMachine | src/provisioning_service.py:39-73 | The in-place update of the dict gives the same inventory and record as Register. |
| Provisioning.MachineInventory.GetMachine | src/provisioning_service.py:75-77 | The record under the id, or None exactly when the id is unknown. |
| Provisioning.MachineInventory.GetMachineByMac | src/provisioning_service.py:79-84 | The search loop with early return finds FindByMac's record: a stored record equal to the query ignoring case. |
| Provisioning.MachineInventory.ListMachines | src/provisioning_service.py:86-90 | With no filter, all records in insertion order. Under a filter, the stored records with that status, in insertion order and each once, as FilterStatus keeps them. |
| Provisioning.MachineInventory.UpdateDeploymentStatus | src/provisioning_service.py:92-103 | The in-place update gives UpdateStatus's inventory and answer. |
| Provisioning.DiscoverMachine | src/provisioning_service.py:110-168 | Registering and then writing the status directly in the auto-deploy branch gives Discover's inventory and answer. |
| Provisioning.DeployMachine | src/provisioning_service.py:188-224 | The route's lookup and status update give Deploy's inventory and answer. |
| Provisioning.UpdateDeploymentStatusRoute | src/provisioning_service.py:226-256 | The route's MAC lookup and status mapping give ReportStatus's inventory and answer. |
| ProvisioningProperties.SameIdIffSameDigits | src/provisioning_service.py:46 | Two MACs get the same id exactly when they agree once colons are removed. |
| ProvisioningProperties.ColonlessSpellingSharesRecord | src/provisioning_service.py:46-49 | A MAC and its colon-free spelling map to the same record. |
| ProvisioningProperties.CaseVariantsGetSeparateRecords | src/provisioning_service.py:46-49 | A MAC with an upper-case letter and its lower-case spelling get different ids, though they are equal ignoring case. |
| ProvisioningProperties.RegisterFirstContact | src/provisioning_service.py:54-70 | A first contact creates a `discovered` record with discovery_count 1, no image, no deployment status and no deployment time; it stores the reported fields (defaults for missing ones) and appends the id to the key order. |
| ProvisioningProperties.RegisterRepeatContact | src/provisioning_service.py:49-52 | A repeated contact adds exactly 1 to discovery_count and sets last_seen; every other field, including status and hostname, stays; the key order does not change. |
| ProvisioningProperties.RepeatedContacts | src/provisioning_service.py:49-70 | n contacts from a new MAC leave one record, still `discovered`, with discovery_count n, last seen at the last contact, and the discovery time, hostname and CPU count of the first contact. |
| ProvisioningProperties.RegisterPreservesWellFormed | src/provisioning_service.py:39-73 | Registration keeps every record under its own MAC-derived id, seen at least once, with a deployment time when deployed, and the key order exact. |
| ProvisioningProperties.FindByMacIsFirst | src/provisioning_service.py:81-83 | The record found is the first matching one in insertion order: no earlier record matches. |
| ProvisioningProperties.ListingByStatusIsExact | src/provisioning_service.py:88-89 | A stored record is listed under a non-empty status filter exactly when it has that status. |
| ProvisioningProperties.ListingAppend | src/provisioning_service.py:86-90 | The listing follows the key order: the listing for a concatenation of key lists is the listing of each part in turn, and a single key contributes its record exactly when it is stored and passes the filter. |
| ProvisioningProperties.FilterCount | src/provisioning_service.py:89 | Filtering the records of distinct keys gives one record per key whose record has the status. |
| ProvisioningProperties.ListingByStatusCount | src/provisioning_service.py:170-177 | Under a status filter, the route's `count` equals the number of stored records with that status. |
| ProvisioningProperties.ListingAllIsComplete | src/provisioning_service.py:90 | Without a filter every stored record is listed, and the count equals the number of records. |
| ProvisioningProperties.UpdateStatusKnown | src/provisioning_service.py:94-102 | On a known id both status fields take the new value; the image is overwritten only by a non-empty one; the time is stamped only for `deployed`; no other record or key changes. |
| ProvisioningProperties.DeploymentTimeOutlivesDeployed | src/provisioning_service.py:99-100 | A later status change keeps the deployment time stamped by `deployed`. |
| ProvisioningProperties.UpdateStatusPreservesWellFormed | src/provisioning_service.py:92-103 | A status update keeps the inventory invariant. |
| ProvisioningProperties.DiscoverResumesDeployment | src/provisioning_service.py:130-140 | A record deploying a known image is told to deploy it with `.qcow2` replaced by `.img`, at the image server's URL; only the registration changes. |
| ProvisioningProperties.DiscoverRetryIsStable | src/provisioning_service.py:130-140 | A retried contact of a deploying machine gets the same directive again. |
| ProvisioningProperties.AutoDeployRecordsNoImage | src/provisioning_service.py:143-155 | Auto-deployment of a new machine marks it `deploying` and hands out the default image and URL, but sets no deployed_image or deployment_status. |
| ProvisioningProperties.AutoDeployResetsKnownMachine | src/provisioning_service.py:143-155 | Auto-deployment of a known machine that is not deploying a known image (for example one that is deployed or failed) sets it back to `deploying` and hands out the default image. Apart from the status, the record is as the registration left it, image fields and deployment time included; no other record or key changes. |
| ProvisioningProperties.AutoDeployedMachineIsToldToWait | src/provisioning_service.py:130-162 | For a machine first seen in the auto-deploy contact, so with no recorded image, the next contact without auto_deploy is told to wait. |
| ProvisioningProperties.AutoDeployRevivesRecordedImage | src/provisioning_service.py:130-155 | A known machine not deploying but recording an earlier image is announced the default image by auto-deploy, and its next plain contact is told to deploy the earlier image as `.img`. |
| ProvisioningProperties.DiscoverWaits | src/provisioning_service.py:156-162 | Without an image in flight and without auto_deploy, the answer is wait and only the registration changes. |
| ProvisioningProperties.DiscoverWithoutMac | src/provisioning_service.py:124-164 | A contact without a MAC is refused and changes nothing. |
| ProvisioningProperties.DiscoverPreservesWellFormed | src/provisioning_service.py:110-168 | The discover route keeps the inventory invariant. |
| ProvisioningProperties.DeployUnknown | src/provisioning_service.py:199-204 | A missing or unknown id is not found and changes nothing. |
| ProvisioningProperties.DeployKnown | src/provisioning_service.py:199-220 | A known id gets both status fields `deploying` and the requested image, or the default one when none is given (an empty image name is not recorded); the answer carries the image and its URL. |
| ProvisioningProperties.DeployThenDiscover | src/provisioning_service.py:130-139 | After an explicit deploy of `<base>.qcow2`, where no `.qcow2` starts inside `<base>` (dotted names such as `ubuntu-22.04` included), the machine's next contact is told to deploy `<base>.img`. |
| ProvisioningProperties.DeployPreservesWellFormed | src/provisioning_service.py:188-224 | The deploy route keeps the inventory invariant. |
| ProvisioningProperties.ReportStatusTransitions | src/provisioning_service.py:245-252 | `complete` makes the matching record `deployed` in both status fields with its time stamped, `failed` makes it `failed` in both, with image and other fields kept and no other record or key changed; any other token is acknowledged without a change. |
| ProvisioningProperties.ReportStatusUnknownMac | src/provisioning_service.py:241-243 | A MAC that no record carries is not found and changes nothing. |
| ProvisioningProperties.ReportStatusPreservesWellFormed | src/provisioning_service.py:226-256 | The deployment/status route keeps the inventory invariant. |
| ProvisioningProperties.AutoDeployLifecycle | src/provisioning_service.py:143-155 | A new machine asking for auto-deployment is marked `deploying` and given the default image; its later `complete` report makes it `deployed` with a deployment time. |
| Text.RemoveChar | src/provisioning_service.py:46 | `replace(':', '')` leaves no colon, and a character is in the result exactly when it is in the input and is not a colon. |
| Text.RemoveCharAppend | src/provisioning_service.py:46 | The removal keeps the order: the result for a concatenation is the concatenation of the results, and a single character is dropped exactly when it is the removed one. |
| Text.RemoveCharCount | src/provisioning_service.py:46 | Every other character occurs in the result as often as in the input. |
| Text.ToLower | src/provisioning_service.py:82 | The ASCII model of `lower()` keeps the length and lower-cases each ASCII letter. |
| Text.ToLowerIdempotent | src/provisioning_service.py:82 | Lower-casing twice is lower-casing once. |
| Text.ReplaceAllSuffix | src/provisioning_service.py:133 | A name ending in `pat`, in which no earlier occurrence of `pat` starts, becomes the same name ending in the replacement. |
| Text.IntToStringRoundTrip | src/vm_manager.py:106-107 | `str()` of an integer reads back as that integer. |
| Text.IntToStringInjective | src/vm_manager.py:106-112 | Different integers are printed differently. |
| Text.JoinHex | src/vm_manager.py:262 | Two lower-case hex digits per byte, with a colon exactly at every third position. |
| Text.JoinHexRoundTrip | src/vm_manager.py:262 | The bytes can be read back from the joined text. |
| Dict.Values | src/vm_manager.py:266 | `values()` of an ordered dict lists each record once, in key order. |
| Dict.RemoveKey | src/vm_manager.py:249 | A key remains in the key order exactly when it was there and is not the deleted one. |
| Dict.RemoveKeyAppend | src/vm_manager.py:249 | `del` keeps the order of the other keys: the result for a concatenation is the concatenation of the results. |
| Dict.RemoveKeyAt | src/vm_manager.py:249 | In a key order without repeats, `del` cuts out exactly the one position holding the key. |
| Dict.ValuesAppend | src/vm_manager.py:266 | `values()` follows the key order: the values for a concatenation of key lists are the values of each part in turn. |
| Dict.OrderedRemove | src/vm_manager.py:249 | `del` keeps the dict's key order exact. |
| VmManager.MaxOr | src/vm_manager.py:267 | `max(xs, default=d)` is d only for an empty list; otherwise it is an element at least as large as every element. |
| VmManager.VncPorts | src/vm_manager.py:266 | The VNC displays of the records, one per record, in order. |
| VmManager.SerialPorts | src/vm_manager.py:271 | The serial ports of the records, one per record, in order. |
| VmManager.VMManager.constructor | src/vm_manager.py:16-38 | Starts from the stored VM table, or no VMs when there is no configuration, and the given host state. |
| VmManager.VMManager.CreateDiskImage | src/vm_manager.py:45-63 | Returns `images/vms/<name>.qcow2`; it reuses an existing image, runs `qemu-img create -f qcow2 <path> <size>G` otherwise, and records the image only when that succeeds (CreateDisk). |
| VmManager.VMManager.GetNextVncPort | src/vm_manager.py:264-267 | One more than a VNC display in use and above all of them, so the maximum plus one; 1 when there are no VMs. |
| VmManager.VMManager.GetNextSerialPort | src/vm_manager.py:269-272 | One more than a serial port in use and above all of them, so the maximum plus one; 5001 when there are no VMs. |
| VmManager.VMManager.CreateVm | src/vm_manager.py:65-98 | The in-place update gives Create's host and answer. |
| VmManager.VMManager.StartVm | src/vm_manager.py:134-173 | The pid-file check, command and launch give Start's host and answer. |
| VmManager.VMManager.StopVm | src/vm_manager.py:175-205 | The in-place update gives Stop's host and answer. |
| VmManager.VMManager.DeleteVm | src/vm_manager.py:226-253 | The forced stop and the removals give Delete's host and answer. |
| VmManager.VMManager.ListVms | src/vm_manager.py:207-224 | The loop over the table produces List's lines. |
| VmManagerProperties.PortsCompared | src/vm_manager.py:266-271 | Every stored VM's VNC display and serial port are among those the allocators compare. |
| VmManagerProperties.NextPortsAreFresh | src/vm_manager.py:264-272 | The next VNC display and serial port are above every port in use, so distinct from all of them; with no VMs they are 1 and 5001. |
| VmManagerProperties.NextVncPortIsMaxPlusOne | src/vm_manager.py:264-267 | With VMs present, the next VNC display is exactly one more than a display in use. |
| VmManagerProperties.NextSerialPortIsMaxPlusOne | src/vm_manager.py:269-272 | With VMs present, the next serial port is exactly one more than a serial port in use. |
| VmManagerProperties.GeneratedMacPrefix | src/vm_manager.py:255-262 | A generated MAC is `52:54:00:` followed by the three random bytes in hex. |
| VmManagerProperties.GeneratedMacShape | src/vm_manager.py:255-262 | A generated MAC has 17 characters, colons exactly at every third position and lower-case hex elsewhere, and its six bytes read back as 52, 54, 00 and the random bytes. |
| VmManagerProperties.QemuCommandOptions | src/vm_manager.py:100-132 | The command is `qemu-system-x86_64` followed by options QEMU reads as: the record's fixed options, then KVM acceleration when available, then the boot option. |
| VmManagerProperties.QemuCommandNumbers | src/vm_manager.py:106-107 | The `-m` and `-smp` arguments read back as the record's memory and CPU count. |
| VmManagerProperties.QemuCommandDevices | src/vm_manager.py:105-114 | The name, disk, bridge, MAC, VNC display and pid file on the command line are the record's, and QEMU daemonizes. |
| VmManagerProperties.QemuCommandAcceleration | src/vm_manager.py:117-121 | `-enable-kvm` and `-cpu host` appear exactly when KVM is available. |
| VmManagerProperties.QemuCommandBootOrder | src/vm_manager.py:123-131 | `pxe` boots network then disk, `disk` boots the disk only, `pxe-only` boots the network only, and any other mode has no `-boot` option. |
| VmManagerProperties.CreateExistingName | src/vm_manager.py:68-70 | An existing name is refused and nothing changes. |
| VmManagerProperties.CreateNewName | src/vm_manager.py:72-88 | A new name adds exactly one record under that name, appended to the table. The record is stopped, on br0, with the given memory and CPUs, the generated MAC, disk `images/vms/<name>.qcow2`, and the next VNC display and serial port (max + 1). qemu-img runs only when that image did not exist; pid files and other records stay. |
| VmManagerProperties.CreateDiskFailure | src/vm_manager.py:53-61 | A failing qemu-img leaves the host unchanged and reports its command. |
| VmManagerProperties.DiskCreatedOnce | src/vm_manager.py:49-51 | Once a disk image is created, the next create_disk for that name reuses it without running qemu-img. |
| VmManagerProperties.CreateTwice | src/vm_manager.py:68-88 | Creating a name a second time is refused and leaves the first result. |
| VmManagerProperties.FreshPortsKeepDistinct | src/vm_manager.py:83-84 | A record with ports above every port in use keeps all VNC displays and serial ports pairwise distinct. |
| VmManagerProperties.CreatePreservesValid | src/vm_manager.py:65-98 | Create keeps the table invariant: exact key order, each record's name and disk matching its key, ports pairwise distinct. |
| VmManagerProperties.StartUnknownName | src/vm_manager.py:137-139 | An unknown name is not found and nothing changes. |
| VmManagerProperties.StartRefusesLiveVm | src/vm_manager.py:143-151 | A VM whose pid file names a live process is not started, and the answer carries that pid. |
| VmManagerProperties.StartLaunchFailure | src/vm_manager.py:161-173 | A failing launch reports its command and leaves everything unchanged, the stored state included. |
| VmManagerProperties.StartLaunches | src/vm_manager.py:144-170 | A missing, unreadable or stale pid file does not prevent a launch. A launch sets the state to running, the VM's pid file holds the new pid, that pid joins the live ones, and nothing else changes. |
| VmManagerProperties.StartTwice | src/vm_manager.py:143-170 | Starting a VM that was just started is refused with the pid of the running QEMU. |
| VmManagerProperties.StartPreservesValid | src/vm_manager.py:134-173 | Start keeps the table invariant. |
| VmManagerProperties.StopOutcome | src/vm_manager.py:178-205 | The stop ends the manager exactly when the VM exists and its pid file names the manager's own pid or its own group. Otherwise it succeeds exactly when the VM exists, its pid file holds an integer the signal has a target for (a live process, or a negative pid) and the signal is allowed; it then removes the pid file and records stopped. Every other outcome leaves the host unchanged. |
| VmManagerProperties.ManagerGroupPidFile | src/vm_manager.py:188-193 | A pid file holding the manager's own pid, 0 or the negated own group id makes stop and forced delete end the manager with the host unchanged. |
| VmManagerProperties.NegativePidFile | src/vm_manager.py:143-151 | Any other negative pid does not make start_vm see the VM as running, yet stop_vm, when the signal is allowed, delivers it, removes the pid file and reports success. |
| VmManagerProperties.StartThenStop | src/vm_manager.py:175-205 | Stopping a freshly started VM signals the pid QEMU reported and leaves no pid file (for any launch pid other than the manager's own, which ends the manager). |
| VmManagerProperties.StopPreservesValid | src/vm_manager.py:175-205 | Stop keeps the table invariant. |
| VmManagerProperties.DeleteRefused | src/vm_manager.py:228-237 | An unknown name, or a VM with a pid file when force is not given, is refused and nothing changes. |
| VmManagerProperties.DeleteRemoves | src/vm_manager.py:238-253 | Otherwise the record, its key and its disk image are gone, and the other VMs are untouched, unless the forced stop ends the manager, which then deletes nothing. |
| VmManagerProperties.ForceDeleteLeavesStalePidFile | src/vm_manager.py:238-249 | With force, a failing stop is ignored: the VM is deleted but its pid file stays (unless the stop ends the manager). |
| VmManagerProperties.DeletePreservesValid | src/vm_manager.py:226-253 | Delete keeps the table invariant. |
| VmManagerProperties.RowsOfNames | src/vm_manager.py:219-224 | One line per name, in order: the name, running or stopped by pid-file presence, and the record's memory, CPUs and MAC. |
| VmManagerProperties.ListReflectsPidFiles | src/vm_manager.py:207-224 | No VMs is reported exactly when the table is empty. Otherwise there is one line per VM in table order, running exactly when the VM has a pid file. |
| VmManagerProperties.ListIgnoresStoredState | src/vm_manager.py:220-222 | A record whose state says running but which has no pid file is listed as stopped. |
| Redfish.RedfishService.constructor | containers/openbmc/scripts/redfish_api.py:22-31 | Starts from the given state file, or none. |
| Redfish.RedfishService.GetSystem | containers/openbmc/scripts/redfish_api.py:73-103 | The GET answer is the view of the loaded state. |
| Redfish.RedfishService.PatchSystem | containers/openbmc/scripts/redfish_api.py:105-117 | The in-place boot update gives Patch's state file. |
| Redfish.RedfishService.SystemReset | containers/openbmc/scripts/redfish_api.py:119-136 | The in-place power update gives Reset's state file and message. |
| RedfishProperties.NoStateFileDefaults | containers/openbmc/scripts/redfish_api.py:22-31 | With no state file the system is Off, boots from Hdd, and its override is Disabled. |
| RedfishProperties.ViewReportsState | containers/openbmc/scripts/redfish_api.py:80-83 | GET reports each stored key, and the same default for each missing key. |
| RedfishProperties.PatchThenGet | containers/openbmc/scripts/redfish_api.py:108-113 | After a PATCH with Boot, GET reports each given member and the old value of each missing one; the power state is untouched. |
| RedfishProperties.PatchWithoutBootWritesNothing | containers/openbmc/scripts/redfish_api.py:108-117 | A PATCH without Boot leaves the state file as it was. |
| RedfishProperties.PatchWritesFile | containers/openbmc/scripts/redfish_api.py:108-114 | A PATCH with Boot always writes a state file. |
| RedfishProperties.PatchIdempotent | containers/openbmc/scripts/redfish_api.py:105-117 | Sending the same PATCH twice has the effect of sending it once. |
| RedfishProperties.ResetPowerStates | containers/openbmc/scripts/redfish_api.py:122-131 | On, GracefulRestart and ForceRestart leave the system On; ForceOff and GracefulShutdown leave it Off; a missing type counts as On. |
| RedfishProperties.ResetPowerKnownTypes | containers/openbmc/scripts/redfish_api.py:126-131 | Exactly the five known reset types set a power state, and it is On or Off. |
| RedfishProperties.UnknownResetChangesNothing | containers/openbmc/scripts/redfish_api.py:126-136 | An unknown reset type changes no key and is still reported as executed. |
| RedfishProperties.ResetIdempotent | containers/openbmc/scripts/redfish_api.py:124-133 | Repeating a reset has the effect of doing it once. |
| RedfishProperties.ResetsKeepBootSettings | containers/openbmc/scripts/redfish_api.py:124-133 | No series of resets changes the boot device or the boot override, so a Once override is never reverted. |
| RedfishProperties.ResetsLastPowerWins | containers/openbmc/scripts/redfish_api.py:126-133 | After a series of resets ending with a known type, the power state is the one that type sets. |

## Left out

- Flask routing, request parsing, JSON and YAML (de)serialisation, and file I/O. Loading and
  saving become a whole-map load and store (`save_inventory`, `save_config`, `save_state` are
  implicit in each state change). The static Redfish documents (`service_root`,
  `systems_collection`) and the constant parts of the GET answer are left out as well.
- `print` and logging output, and the `/health` and machine GET routes, which only return
  stored data.
- `datetime.now()`, `random.randint`, `/dev/kvm`, `/proc/<pid>`, pid-file contents and the
  exit status of `qemu-img`, `qemu-system-x86_64` and `os.kill`, and the manager's own pid and
  process group. These are parameters or part of the host state. A missing QEMU binary (`FileNotFoundError`, not caught by `start_vm`) is
  not modelled.
- VmManager.Start: assumes that a successful daemonized QEMU writes its pid file with its own,
  live pid. The pid file is not read back.
- VmManager.Stop: SIGTERM delivery is asynchronous, so the signalled pid stays in the set of
  live pids. A positive pid is signalled when it is live and `permitted` holds. A negative pid
  names a process group (or, for -1, every process); whether such a signal is delivered is
  `permitted` alone. The manager's own pid, a pid of 0, or the negated id of the manager's own
  group reaches the manager, and the model then answers `Terminated` instead of modelling the
  process ending. A pid file whose contents are not an integer makes the stop fail, as the
  caught `ValueError` does.
- A JSON `null` is treated like a missing key. Python's `.get(k, d)` returns None for a key
  that is present with a null value, and the model does not carry that case:
  - ResetTypeOf: `{"ResetType": null}` counts as `On`. The source matches no branch, rewrites
    the state unchanged and answers "Reset None executed".
  - Deploy: `{"image": null}` deploys the default image. The source records no image and
    answers with `.../images/None`.
  - Register: `"hostname": null` (and likewise a null CPU count, memory or interfaces)
    stores the default. The source stores None.
  - DiscoverMachine: `"disks": null` registers the machine with no disks. In the source the
    route's logging line `len(data.get('disks', []))` raises `TypeError` on None before
    `register_machine` is called, so the route answers 500 and stores nothing.
  - ApplyBoot: `"BootSourceOverrideTarget": null` (or a null `BootSourceOverrideEnabled`)
    keeps the old value. The source stores null.
- One time value `now` stands for all the `datetime.now()` calls of one request. So
  the `discovered_at` and `last_seen` of a new record are equal in the model, while the
  source's two calls differ by microseconds.
- VmManager.DiskPath, VmManager.PidFilePath: paths are plain string concatenation. `pathlib`
  normalises a name containing `/` and lets an absolute name replace the base directory; such
  names are not modelled.
- `lower()` is modelled for ASCII letters only. Other characters are left as they are.
- Stored records always have every key. The `get('vnc_port', 0)`, `get('serial_port', 5000)`
  and `get('discovery_count', 0)` fallbacks for missing keys are not modelled. The same goes
  for other keys of the Redfish state file, and for request bodies that are not JSON objects.
- VmManager.List, CreateNewName, ListReflectsPidFiles: `save_config` writes the table with
  PyYAML's default `sort_keys=True`, and each CLI command builds a fresh `VMManager` from that
  file, so a later command sees the VMs sorted by name. The model keeps insertion order across
  saving and loading; the order it states is the source's only within one `VMManager`.
- `load_config`'s template copy and the `mkdir` of `images/vms` are not modelled. Only the
  fallback to an empty table is.
- Concurrency: Flask serves requests on threads without locking. Each request is modelled as
  one atomic step.
- Disk and network-interface descriptions in machine records are opaque strings.
- src/service_manager.py, src/bmc_bridge.py and containers/openbmc/scripts/ipmi_simulator.py
  are not part of this model. They are process and HTTP plumbing with no state of their own.
