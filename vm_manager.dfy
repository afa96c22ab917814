/**
 * The VM lifecycle manager: a table of VM records (the `vms` part of the YAML configuration)
 * together with what the manager observes of the host: which VMs have a pid file and what it
 * holds, which process ids are alive (`/proc/<pid>` exists), and which disk images exist.
 * Launching QEMU, creating a disk with qemu-img and sending a signal are steps that may fail;
 * their outcome is a parameter of each operation.
 */
module VmManager {
  import opened Options
  import opened Text
  import opened Dict

  const VM_DIR := "images/vms"
  const NETWORK := "br0"
  const STOPPED := "stopped"
  const RUNNING := "running"
  const BOOT_PXE := "pxe"
  const BOOT_DISK := "disk"
  const BOOT_PXE_ONLY := "pxe-only"
  const QEMU := "qemu-system-x86_64"

  /** One entry of `config['vms']`. */
  datatype VmConfig = VmConfig(
    name: string,
    memory: int,
    cpus: int,
    disk: string,
    network: string,
    mac: string,
    vncPort: int,
    serialPort: int,
    state: string)

  /** `images/vms/<name>.qcow2` */
  function DiskPath(name: string): string {
    VM_DIR + "/" + name + ".qcow2"
  }

  /** `images/vms/<name>.pid` */
  function PidFilePath(name: string): string {
    VM_DIR + "/" + name + ".pid"
  }

  /** The VM table as loaded from the configuration file. */
  datatype VmTable = VmTable(vms: map<string, VmConfig>, order: seq<string>)

  /** The fallback configuration when there is no file: no VMs. */
  const NO_VMS := VmTable(map[], [])

  /** A process id as the kernel hands one out: `/proc/<pid>` exists only for positive ones. */
  type Pid = p: int | p > 0 witness 1

  /**
   * The VM table in insertion order, and the host as the manager sees it. `pidFiles` maps the
   * name of each VM that has a pid file to the integer the file holds, or to None when its
   * contents are not an integer. `ownPid` is the manager's own process and `ownGroup` its
   * process group.
   */
  datatype Host = Host(
    vms: map<string, VmConfig>,
    order: seq<string>,
    pidFiles: map<string, Option<int>>,
    livePids: set<int>,
    disks: set<string>,
    ownPid: Pid,
    ownGroup: Pid)

  // ---------------------------------------------------------------------------------------
  // Port allocation and MAC generation

  /** `max(xs, default=d)`: the default only when there is nothing to compare. */
  function MaxOr(xs: seq<int>, d: int): (r: int)
    ensures xs == [] ==> r == d
    ensures xs != [] ==> r in xs && forall x :: x in xs ==> x <= r
  {
    if xs == [] then d
    else if |xs| == 1 then xs[0]
    else
      var rest := MaxOr(xs[1..], d);
      assert xs == [xs[0]] + xs[1..];
      if xs[0] >= rest then xs[0] else rest
  }

  function VncPorts(vs: seq<VmConfig>): (r: seq<int>)
    ensures |r| == |vs| && forall i :: 0 <= i < |vs| ==> r[i] == vs[i].vncPort
  {
    if vs == [] then [] else [vs[0].vncPort] + VncPorts(vs[1..])
  }

  function SerialPorts(vs: seq<VmConfig>): (r: seq<int>)
    ensures |r| == |vs| && forall i :: 0 <= i < |vs| ==> r[i] == vs[i].serialPort
  {
    if vs == [] then [] else [vs[0].serialPort] + SerialPorts(vs[1..])
  }

  /** `get_next_vnc_port`: one more than the largest VNC display in use, 1 when there is none. */
  function NextVncPort(h: Host): int {
    MaxOr(VncPorts(Values(h.vms, h.order)), 0) + 1
  }

  /** `get_next_serial_port`: one more than the largest serial port in use, 5001 when there is none. */
  function NextSerialPort(h: Host): int {
    MaxOr(SerialPorts(Values(h.vms, h.order)), 5000) + 1
  }

  /** `generate_mac`: the QEMU prefix 52:54:00 and three random bytes, in lower-case hex. */
  function GenerateMac(b3: Byte, b4: Byte, b5: Byte): string {
    JoinHex([0x52, 0x54, 0x00, b3, b4, b5])
  }

  // ---------------------------------------------------------------------------------------
  // The QEMU command line

  /** The list `build_qemu_command` starts from: the record's name, resources, disk, network, consoles and pid file. */
  function BaseArgs(vm: VmConfig): seq<string> {
    [QEMU,
     "-name", vm.name,
     "-m", IntToString(vm.memory),
     "-smp", IntToString(vm.cpus),
     "-drive", "file=" + vm.disk + ",if=virtio,format=qcow2",
     "-netdev", "bridge,id=net0,br=" + vm.network,
     "-device", "virtio-net-pci,netdev=net0,mac=" + vm.mac,
     "-vnc", ":" + IntToString(vm.vncPort),
     "-serial", "telnet::" + IntToString(vm.serialPort) + ",server,nowait",
     "-daemonize",
     "-pidfile", PidFilePath(vm.name)]
  }

  /** KVM acceleration, added when /dev/kvm exists (`kvm`). */
  function AccelArgs(kvm: bool): seq<string> {
    if kvm then ["-enable-kvm", "-cpu", "host"] else []
  }

  /** The boot order of a boot mode; an unknown mode adds nothing. */
  function BootArgs(mode: string): seq<string> {
    if mode == BOOT_PXE then ["-boot", "order=nc"]
    else if mode == BOOT_DISK then ["-boot", "order=c"]
    else if mode == BOOT_PXE_ONLY then ["-boot", "order=n"]
    else []
  }

  /** `build_qemu_command` */
  function BuildQemuCommand(vm: VmConfig, mode: string, kvm: bool): seq<string> {
    BaseArgs(vm) + AccelArgs(kvm) + BootArgs(mode)
  }

  /** `qemu-img create -f qcow2 <path> <size>G` */
  function QemuImgCommand(name: string, sizeGb: int): seq<string> {
    ["qemu-img", "create", "-f", "qcow2", DiskPath(name), IntToString(sizeGb) + "G"]
  }

  /** An option of a QEMU command line: a flag and, unless the flag stands alone, its argument. */
  datatype QemuOption = QemuOption(flag: string, value: Option<string>)

  /** The flags of the command line that take no argument. */
  predicate Standalone(flag: string) {
    flag == "-daemonize" || flag == "-enable-kvm"
  }

  /** Reads the options after the program name the way QEMU does, one flag and its argument at a time. */
  function ParseArgs(args: seq<string>): seq<QemuOption>
    decreases |args|
  {
    if args == [] then []
    else if Standalone(args[0]) || |args| == 1 then [QemuOption(args[0], None)] + ParseArgs(args[1..])
    else [QemuOption(args[0], Some(args[1]))] + ParseArgs(args[2..])
  }

  /** The argument of the first occurrence of `flag`, if any. */
  function OptionValue(opts: seq<QemuOption>, flag: string): Option<string> {
    if opts == [] then None
    else if opts[0].flag == flag then opts[0].value
    else OptionValue(opts[1..], flag)
  }

  predicate HasFlag(opts: seq<QemuOption>, flag: string) {
    exists i :: 0 <= i < |opts| && opts[i].flag == flag
  }

  /** A device QEMU may boot from, as named by a letter of `-boot order=`. */
  datatype BootDevice = Network | HardDisk

  function BootDevices(letters: string): seq<BootDevice> {
    if letters == [] then []
    else (if letters[0] == 'n' then [Network] else if letters[0] == 'c' then [HardDisk] else [])
         + BootDevices(letters[1..])
  }

  /** The devices named by a `-boot` argument, in the order QEMU tries them. */
  function BootOrder(arg: string): seq<BootDevice> {
    if |arg| >= 6 && arg[..6] == "order=" then BootDevices(arg[6..]) else []
  }

  // ---------------------------------------------------------------------------------------
  // The operations, as functions of the host

  /** What `create_disk` did. */
  datatype DiskOutcome = DiskReused | DiskCreated(command: seq<string>) | DiskFailed(command: seq<string>)

  /** `create_disk`: reuse the image when it exists, otherwise run qemu-img, which `imgOk` says succeeded. */
  function CreateDisk(h: Host, name: string, sizeGb: int, imgOk: bool): (Host, DiskOutcome) {
    var path := DiskPath(name);
    if path in h.disks then (h, DiskReused)
    else if imgOk then (h.(disks := h.disks + {path}), DiskCreated(QemuImgCommand(name, sizeGb)))
    else (h, DiskFailed(QemuImgCommand(name, sizeGb)))
  }

  /**
   * What `create_vm` did: refused an existing name (False), failed in qemu-img (the exception
   * leaves `create_vm`), or added the record (True), with the qemu-img command if one was run.
   */
  datatype CreateResult = CreateExists | CreateDiskFailed(command: seq<string>) | Created(diskCommand: Option<seq<string>>)

  /** The record `create_vm` stores for a new VM. */
  function NewVm(h: Host, name: string, memory: int, cpus: int, mac: string): VmConfig {
    VmConfig(name := name, memory := memory, cpus := cpus, disk := DiskPath(name), network := NETWORK,
             mac := mac, vncPort := NextVncPort(h), serialPort := NextSerialPort(h), state := STOPPED)
  }

  function Create(h: Host, name: string, memory: int, cpus: int, diskSize: int, mac: (Byte, Byte, Byte), imgOk: bool)
    : (Host, CreateResult)
  {
    if name in h.vms then (h, CreateExists)
    else
      match CreateDisk(h, name, diskSize, imgOk)
      case (_, DiskFailed(cmd)) => (h, CreateDiskFailed(cmd))
      case (h', outcome) =>
        var vm := NewVm(h', name, memory, cpus, GenerateMac(mac.0, mac.1, mac.2));
        (h'.(vms := h'.vms[name := vm], order := h'.order + [name]),
         Created(if outcome.DiskCreated? then Some(outcome.command) else None))
  }

  /** The pid a VM's pid file names, when the file exists, holds an integer and that process is alive. */
  function LivePid(h: Host, name: string): Option<int> {
    if name in h.pidFiles && h.pidFiles[name].Some? && h.pidFiles[name].value in h.livePids
    then h.pidFiles[name] else None
  }

  datatype StartResult = StartNotFound | AlreadyRunning(pid: int) | Started(command: seq<string>) | LaunchFailed(command: seq<string>)

  /**
   * `start_vm`. `launch` is the outcome of running QEMU: None when it exits with an error, or the
   * pid of the daemonized QEMU, which writes it to the pid file given on its command line.
   */
  function Start(h: Host, name: string, mode: string, kvm: bool, launch: Option<Pid>): (Host, StartResult) {
    if name !in h.vms then (h, StartNotFound)
    else if LivePid(h, name).Some? then (h, AlreadyRunning(LivePid(h, name).value))
    else
      var vm := h.vms[name];
      var cmd := BuildQemuCommand(vm, mode, kvm);
      match launch
      case None => (h, LaunchFailed(cmd))
      case Some(pid) =>
        (h.(vms := h.vms[name := vm.(state := RUNNING)],
            pidFiles := h.pidFiles[vm.name := Some(pid)],
            livePids := h.livePids + {pid}),
         Started(cmd))
  }

  /**
   * What `stop_vm` did. `Terminated`: the signal reached the manager's own process group, so
   * the manager ended inside `os.kill`, before the pid file was removed or the table saved.
   */
  datatype StopResult = StopNotFound | NotRunning | StopFailed | Stopped(pid: int) | Terminated

  /**
   * Whether `os.kill(pid, SIGTERM)` signals the manager itself: its own pid (a stale pid file
   * whose number the kernel reused for the manager), a pid of 0, which names the caller's own
   * process group, or the negated id of that group. (A pid of -1 signals every other process,
   * not the caller.)
   */
  predicate KillsManager(h: Host, pid: int) {
    pid == h.ownPid as int || pid == 0 || pid == -(h.ownGroup as int)
  }

  /** The VM's pid file holds a pid whose signal would reach the manager itself. */
  predicate StopEndsManager(h: Host, name: string) {
    name in h.pidFiles && h.pidFiles[name].Some? && KillsManager(h, h.pidFiles[name].value)
  }

  /**
   * Whether `os.kill(pid, SIGTERM)` has a target: a live process for a positive pid. A negative
   * pid names a process group, or every process, which needs no `/proc/<pid>` entry; for those
   * only `permitted` decides.
   */
  predicate KillTarget(h: Host, pid: int) {
    pid < 0 || pid in h.livePids
  }

  /**
   * `stop_vm`. A signal to the manager's own group ends it. Otherwise SIGTERM is delivered
   * exactly when it has a target and is `permitted` (not refused); any failure to read the pid
   * or to signal is caught and reported.
   */
  function Stop(h: Host, name: string, permitted: bool): (Host, StopResult) {
    if name !in h.vms then (h, StopNotFound)
    else if name !in h.pidFiles then (h, NotRunning)
    else
      match h.pidFiles[name]
      case None => (h, StopFailed)
      case Some(pid) =>
        if KillsManager(h, pid) then (h, Terminated)
        else if KillTarget(h, pid) && permitted then
          (h.(pidFiles := h.pidFiles - {name},
              vms := h.vms[name := h.vms[name].(state := STOPPED)]),
           Stopped(pid))
        else (h, StopFailed)
  }

  /** What `delete_vm` did; `DeleteTerminated`: the forced stop ended the manager, so nothing was deleted. */
  datatype DeleteResult = DeleteNotFound | DeleteRunning | Deleted | DeleteTerminated

  /**
   * `delete_vm`: with `force`, a VM with a pid file is first stopped, whatever that stop
   * reports, unless the stop ends the manager.
   */
  function Delete(h: Host, name: string, force: bool, permitted: bool): (Host, DeleteResult) {
    if name !in h.vms then (h, DeleteNotFound)
    else if name in h.pidFiles && !force then (h, DeleteRunning)
    else if name in h.pidFiles && Stop(h, name, permitted).1.Terminated? then (h, DeleteTerminated)
    else
      var h' := if name in h.pidFiles then Stop(h, name, permitted).0 else h;
      (h'.(disks := h'.disks - {DiskPath(name)},
           vms := h'.vms - {name},
           order := RemoveKey(h'.order, name)),
       Deleted)
  }

  /** A line of the `list_vms` table. */
  datatype Row = Row(name: string, state: string, memory: int, cpus: int, mac: string)

  datatype Listing = NoVms | Table(rows: seq<Row>)

  /** The table lines for the given names, in order; the state shown comes from the pid file. */
  function Rows(h: Host, names: seq<string>): seq<Row>
    decreases |names|
  {
    if names == [] then []
    else
      var name := names[|names| - 1];
      Rows(h, names[..|names| - 1])
      + (if name in h.vms
         then [Row(name, if name in h.pidFiles then RUNNING else STOPPED,
                   h.vms[name].memory, h.vms[name].cpus, h.vms[name].mac)]
         else [])
  }

  /** `list_vms` */
  function List(h: Host): Listing {
    if h.vms == map[] then NoVms else Table(Rows(h, h.order))
  }

  /**
   * What every operation keeps: the key order lists the VMs, each record is filed under its
   * own name with its own disk, and no two VMs share a VNC display or a serial port.
   */
  ghost predicate HostValid(h: Host) {
    && Ordered(h.vms, h.order)
    && (forall k :: k in h.vms ==> h.vms[k].name == k && h.vms[k].disk == DiskPath(k))
    && (forall a, b :: a in h.vms && b in h.vms && a != b ==>
          h.vms[a].vncPort != h.vms[b].vncPort && h.vms[a].serialPort != h.vms[b].serialPort)
    && (forall p :: p in h.livePids ==> p > 0)
    && h.ownPid as int in h.livePids
  }

  // ---------------------------------------------------------------------------------------
  // The manager

  /**
   * `VMManager`: the VM table, which its methods update in place, and the host state it reads
   * and changes through the file system (pid files, disk images) and /proc.
   */
  class VMManager {
    var vms: map<string, VmConfig>
    var order: seq<string>
    var pidFiles: map<string, Option<int>>
    var livePids: set<int>
    var disks: set<string>
    var ownPid: Pid
    var ownGroup: Pid

    function Snapshot(): Host
      reads this
    {
      Host(vms, order, pidFiles, livePids, disks, ownPid, ownGroup)
    }

    /** `__init__` / `load_config`: the stored table, or no VMs when there is no configuration file. */
    constructor (stored: Option<VmTable>, pidFiles0: map<string, Option<int>>, livePids0: set<int>, disks0: set<string>,
                 ownPid0: Pid, ownGroup0: Pid)
      ensures Snapshot() == Host(stored.GetOr(NO_VMS).vms, stored.GetOr(NO_VMS).order, pidFiles0, livePids0, disks0,
                                 ownPid0, ownGroup0)
    {
      var table := stored.GetOr(NO_VMS);
      vms := table.vms;
      order := table.order;
      pidFiles := pidFiles0;
      livePids := livePids0;
      disks := disks0;
      ownPid := ownPid0;
      ownGroup := ownGroup0;
    }

    method CreateDiskImage(name: string, sizeGb: int, imgOk: bool) returns (path: string, outcome: DiskOutcome)
      modifies this
      ensures path == DiskPath(name)
      ensures (Snapshot(), outcome) == CreateDisk(old(Snapshot()), name, sizeGb, imgOk)
    {
      path := VM_DIR + "/" + name + ".qcow2";
      if path in disks {
        return path, DiskReused;
      }
      var cmd := ["qemu-img", "create", "-f", "qcow2", path, IntToString(sizeGb) + "G"];
      if !imgOk {
        return path, DiskFailed(cmd);
      }
      disks := disks + {path};
      return path, DiskCreated(cmd);
    }

    function GetNextVncPort(): (r: int)
      reads this
      ensures forall p :: p in VncPorts(Values(vms, order)) ==> p < r
      ensures Values(vms, order) == [] ==> r == 1
      ensures Values(vms, order) != [] ==> r - 1 in VncPorts(Values(vms, order))
    {
      NextVncPort(Snapshot())
    }

    function GetNextSerialPort(): (r: int)
      reads this
      ensures forall p :: p in SerialPorts(Values(vms, order)) ==> p < r
      ensures Values(vms, order) == [] ==> r == 5001
      ensures Values(vms, order) != [] ==> r - 1 in SerialPorts(Values(vms, order))
    {
      NextSerialPort(Snapshot())
    }

    method CreateVm(name: string, memory: int, cpus: int, diskSize: int, mac: (Byte, Byte, Byte), imgOk: bool)
      returns (result: CreateResult)
      modifies this
      ensures (Snapshot(), result) == Create(old(Snapshot()), name, memory, cpus, diskSize, mac, imgOk)
    {
      if name in vms {
        return CreateExists;
      }
      var diskPath, outcome := CreateDiskImage(name, diskSize, imgOk);
      if outcome.DiskFailed? {
        return CreateDiskFailed(outcome.command);
      }
      var vm := VmConfig(name := name, memory := memory, cpus := cpus, disk := diskPath, network := NETWORK,
                         mac := GenerateMac(mac.0, mac.1, mac.2), vncPort := GetNextVncPort(),
                         serialPort := GetNextSerialPort(), state := STOPPED);
      vms := vms[name := vm];
      order := order + [name];
      return Created(if outcome.DiskCreated? then Some(outcome.command) else None);
    }

    method StartVm(name: string, mode: string, kvm: bool, launch: Option<Pid>) returns (result: StartResult)
      modifies this
      ensures (Snapshot(), result) == Start(old(Snapshot()), name, mode, kvm, launch)
    {
      if name !in vms {
        return StartNotFound;
      }
      var vm := vms[name];
      if name in pidFiles && pidFiles[name].Some? {
        var pid := pidFiles[name].value;
        if pid in livePids {
          return AlreadyRunning(pid);
        }
      }
      var cmd := BuildQemuCommand(vm, mode, kvm);
      if launch.None? {
        return LaunchFailed(cmd);
      }
      pidFiles := pidFiles[vm.name := Some(launch.value)];
      livePids := livePids + {launch.value};
      vms := vms[name := vm.(state := RUNNING)];
      return Started(cmd);
    }

    method StopVm(name: string, permitted: bool) returns (result: StopResult)
      modifies this
      ensures (Snapshot(), result) == Stop(old(Snapshot()), name, permitted)
    {
      if name !in vms {
        return StopNotFound;
      }
      if name !in pidFiles {
        return NotRunning;
      }
      var contents := pidFiles[name];
      if contents.None? {
        return StopFailed;
      }
      var pid := contents.value;
      if pid == ownPid as int || pid == 0 || pid == -(ownGroup as int) {
        return Terminated;
      }
      if !((pid < 0 || pid in livePids) && permitted) {
        return StopFailed;
      }
      pidFiles := pidFiles - {name};
      var vm := vms[name];
      vms := vms[name := vm.(state := STOPPED)];
      return Stopped(pid);
    }

    method DeleteVm(name: string, force: bool, permitted: bool) returns (result: DeleteResult)
      modifies this
      ensures (Snapshot(), result) == Delete(old(Snapshot()), name, force, permitted)
    {
      if name !in vms {
        return DeleteNotFound;
      }
      if name in pidFiles {
        if !force {
          return DeleteRunning;
        }
        var stopped := StopVm(name, permitted);
        if stopped.Terminated? {
          return DeleteTerminated;
        }
      }
      disks := disks - {DiskPath(name)};
      vms := vms - {name};
      order := RemoveKey(order, name);
      return Deleted;
    }

    /** The loop of `list_vms` over the table, producing the lines it prints. */
    method ListVms() returns (listing: Listing)
      ensures listing == List(Snapshot())
    {
      if vms == map[] {
        return NoVms;
      }
      var rows := [];
      var i := 0;
      while i < |order|
        invariant 0 <= i <= |order|
        invariant rows == Rows(Snapshot(), order[..i])
      {
        var name := order[i];
        assert order[..i + 1][..i] == order[..i];
        if name in vms {
          var vm := vms[name];
          var state := if name in pidFiles then RUNNING else STOPPED;
          rows := rows + [Row(name, state, vm.memory, vm.cpus, vm.mac)];
        }
        i := i + 1;
      }
      assert order[..i] == order;
      return Table(rows);
    }
  }
}
